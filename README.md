# Private encrypted chat: session store and message outbox

This project models two parts of the private encrypted chat application.

The first is the **authentication state machine** of the web server. It is a
set of Next.js route handlers that share one Redis instance with per-key
expiry:

- the QR handshake: `generate`, then `verify`, then `poll`, with `claim` as the one-call alternative;
- the legacy QR flow: `qr`, then `scan`, then `check`;
- the session markers `session:{userId}:{token}` that login and claim write, refresh rotates and logout deletes.

The second is the **message list and offline outbox** of the two chat screens:
the web page and the mobile screen.

How the store is modelled (module `Store`):

- Redis is a map from keys to entries. Each entry carries an absolute expiry time.
- A clock `now` goes with the map. A key reads as absent once `now` has reached its expiry.
- Keys are a datatype with one constructor per namespace: `qr:{id}`, `qr:pending:{id}`, `qr:token:{id}` and `session:{userId}:{token}`.

How a handler is modelled:

- Each handler has a pure function that gives the response and the store afterwards.
- The function's contract states each error exit and what success writes.
- It also states that a failing request leaves the store as it was, and which keys can change.
- Each handler also has a method that takes the shared `Redis` object. The method performs the gets, sets and dels in the source's order, and its postcondition ties it to the function.
- Properties that span several requests are lemmas: at-most-once consumption, token rotation, logout revoking refresh, and the handshake end to end.

What is treated as an opaque parameter (an oracle):

- The token library: `sign`, `verify` and `decode`.
- The password comparison.
- The user collection, modelled as a read-only sequence of users.

The chat screens:

- The pure list operations live in module `Messages`: deduplicating append, loading the outbox, clearing pending flags, backup restore and the conversation filter.
- The screens themselves are classes. Their methods update the list, the outbox, the online state and the one-flush-per-connection flag.
- Messages emitted on the socket are recorded in a ghost sequence.

## Model

| member | source | states |
|---|---|---|
| Store.PutReadsBack | apps/web/app/api/auth/qr/generate/route.ts:21 | `SET k v EX ttl`: the value reads back until `now + ttl` and is absent from then on. Every other key reads as before. |
| Store.RemoveHides | apps/web/app/api/auth/qr/poll/route.ts:59 | `DEL k`: the key reads as absent at every time. Every other key reads as before. |
| Store.ExpiryIsFinal | apps/web/app/api/auth/qr/verify/route.ts:46 | A key that has expired stays absent at every later time. |
| Store.OverwriteForgets | apps/web/app/api/auth/qr/verify/route.ts:42-46 | Two stores that differ only at key `k` are equal after `k` is overwritten. |
| Store.Redis.Set | apps/web/app/api/auth/qr/generate/route.ts:21 | The new map is the old one with `k` written with expiry `now + ttl`. |
| Store.Redis.Del | apps/web/app/api/auth/qr/poll/route.ts:59 | The new map is the old one without `k`. |
| Api.FindFirst | apps/web/app/api/auth/qr/verify/route.ts:23 | A query's answer: a result is a stored user the query accepts. None exactly when the query accepts no stored user. |
| Api.FindById | apps/web/app/api/auth/qr/verify/route.ts:23 | `User.findById`: a result is a stored user with that id. None exactly when no stored user has the id. |
| Api.FindByEmail | apps/web/app/api/auth/login/route.ts:12 | `User.findOne({ email })`: a result is a stored user with that email. None exactly when no stored user has it. |
| QrGenerateRoute.BearerToken | apps/web/app/api/auth/qr/generate/route.ts:8 | `header?.split(" ")[1]`: "" without a header. Otherwise the result is the whole second space-separated field: it never contains a space, it is a prefix of what follows the header's first space, and it stops only at the next space or at the end of the header. So "Bearer a b" gives "a", and a header with no space gives "". |
| QrGenerateRoute.BearerTokenOfHeader | apps/web/app/api/auth/qr/generate/route.ts:8 | The header `"<scheme> <token>"` yields exactly `<token>`, which is what `split(" ")[1]` extracts. |
| QrGenerateRoute.Generate | apps/web/app/api/auth/qr/generate/route.ts:8-23 | A missing bearer token gives 401 "Unauthorized". A token that does not verify to an object gives 401 "Invalid token". Both leave the store unchanged. Success happens exactly when the token verifies. It answers with the session id, and the record `{pending, caller's userId}` reads back under that id for 120 s, then is gone. No other key changes, and well-formedness is kept. |
| QrGenerateRoute.Post | apps/web/app/api/auth/qr/generate/route.ts:6-28 | The handler's response and new store are those of `Generate`. |
| QrVerifyRoute.Verify | apps/web/app/api/auth/qr/verify/route.ts:11-48 | A missing field gives 400 "Missing fields". An absent session gives 404 "Session expired or invalid". An unknown user gives 404 "User not found". None of these changes the store. Success happens exactly when all three checks pass. The record then reads back as `{authenticated, supplied userId, supplied key}` for 60 s, then is gone. Only `qr:{sessionId}` changes. |
| QrVerifyRoute.VerifyIgnoresRecordContents | apps/web/app/api/auth/qr/verify/route.ts:16-46 | The stored record's status and owner are never consulted. Two stores differing only in that record give the same response, and the same store on success. So an authenticated record is overwritten again, and generate's owner is replaced. |
| QrVerifyRoute.Post | apps/web/app/api/auth/qr/verify/route.ts:6-54 | The handler's response and new store are those of `Verify`. |
| QrPollRoute.StoredRecord | apps/web/app/api/auth/qr/poll/route.ts:16-23 | The parsed record exactly when `qr:{sessionId}` is live and holds a record, and that record is what the key reads. |
| QrPollRoute.RecordOwner | apps/web/app/api/auth/qr/poll/route.ts:31 | `User.findById(sessionData.userId)`: a result is a stored user whose id is the record's userId. None exactly when the record has no userId or no stored user has it. |
| QrPollRoute.Poll | apps/web/app/api/auth/qr/poll/route.ts:12-64 | A missing id gives 400. An absent record gives `expired`, a pending record `pending`, and any other status `unknown`, all without a change. An authenticated record with a missing user gives 404, and the record is kept. The authenticated answer happens exactly when the record is authenticated and its owner exists. It carries a token for that owner and the stored key unchanged, and deletes only `qr:{sessionId}`. No session marker is written on any path. |
| QrPollRoute.PollConsumesOnce | apps/web/app/api/auth/qr/poll/route.ts:59 | After a poll hands out the token, a later poll of the same id, at any time, answers `expired` and changes nothing. |
| QrPollRoute.Get | apps/web/app/api/auth/qr/poll/route.ts:7-70 | The handler's response and new store are those of `Poll`. |
| QrClaimRoute.Claim | apps/web/app/api/auth/qr/claim/route.ts:12-51 | A missing id gives 400 "Missing session ID". An absent record gives 400 "Invalid or expired QR code". A record without a user gives 400 "Invalid session data". An unknown user gives 404. None of these changes the store. On success the response holds the token and the owner's profile. The marker for that token holds 'valid' until `now + 604800`, the QR record is deleted, and nothing else changes. |
| QrClaimRoute.ClaimIgnoresStatus | apps/web/app/api/auth/qr/claim/route.ts:22-34 | Changing only the stored status changes neither the response nor the store a successful claim leaves. Pending and authenticated records are claimed alike. |
| QrClaimRoute.ClaimConsumesOnce | apps/web/app/api/auth/qr/claim/route.ts:40 | After a successful claim, a second claim with the same id fails with 400 "Invalid or expired QR code" and changes nothing. |
| QrClaimRoute.Post | apps/web/app/api/auth/qr/claim/route.ts:7-57 | The handler's response and new store are those of `Claim`. |
| RefreshRoute.RefreshSubject | apps/web/app/api/auth/refresh/route.ts:17-30 | The user the handler continues with is never blank. It is taken from the verified payload, or from the unverified decode when only expiry failed. Every other outcome gives none. |
| RefreshRoute.Refresh | apps/web/app/api/auth/refresh/route.ts:9-54 | A missing token gives 401 "No token provided". A failed verification or a payload without a user gives 401 "Invalid token". An absent marker gives 401 "Session expired or invalid". Every failure is 401 and leaves the store unchanged. On success it answers a new token signed over the userId only. The new marker holds 'valid' for 604800 s, and the old marker is gone when the tokens differ. Other users' and tokens' markers are untouched. |
| RefreshRoute.OldTokenIsRevoked | apps/web/app/api/auth/refresh/route.ts:49-50 | Once refreshed into a different token, the old token never refreshes again, whatever its signature says. |
| RefreshRoute.NewTokenRefreshes | apps/web/app/api/auth/refresh/route.ts:50 | The new token refreshes in turn during its marker's 7 days, provided it is not empty and its payload then names the same user as the old token. |
| RefreshRoute.SameTokenIsNotRevoked | apps/web/app/api/auth/refresh/route.ts:49-50 | If `sign` returned the old token again, the del-then-set would leave its marker in place, and it would still refresh. |
| RefreshRoute.Post | apps/web/app/api/auth/refresh/route.ts:5-59 | The handler's response and new store are those of `Refresh`. |
| LoginRoute.Login | apps/web/app/api/auth/login/route.ts:12-36 | Success happens exactly when the email is found and a password is given that matches. An unknown email or a wrong password gives the same 401 "Invalid credentials". A known email with no password makes bcrypt reject and the catch answer 500 "Server error". None of these changes the store. On success the response holds the token and the matched user. The store gains exactly the marker for that token, readable for 7 days. |
| LoginRoute.Post | apps/web/app/api/auth/login/route.ts:7-38 | The handler's response and new store are those of `Login`. |
| LogoutRoute.LogoutSubject | apps/web/app/api/auth/logout/route.ts:14-15 | A user exactly when the unverified decode gives a payload with a non-blank userId. The user is that userId. |
| LogoutRoute.Logout | apps/web/app/api/auth/logout/route.ts:9-19 | A missing token gives 400, and every other call answers success. Nothing is ever written. A token whose unverified payload names a user loses its marker and nothing else. Any other token leaves the store unchanged. |
| LogoutRoute.LogoutIsIdempotent | apps/web/app/api/auth/logout/route.ts:15-19 | A second logout answers the same and changes nothing. |
| LogoutRoute.Post | apps/web/app/api/auth/logout/route.ts:5-24 | The handler's response and new store are those of `Logout`. |
| QrCreateRoute.Create | apps/web/app/api/auth/qr/route.ts:5-9 | Needs no authentication. Answers the id it used, writes "1" under `qr:pending:{id}`, readable for 120 s, and touches no other key. |
| QrCreateRoute.Get | apps/web/app/api/auth/qr/route.ts:5-9 | The handler's response and new store are those of `Create`. |
| QrScanRoute.Scan | apps/web/app/api/auth/qr/scan/route.ts:9-27 | Success happens exactly when the pending key is present. Otherwise it answers 400 "QR expired" with no change. On success it signs a token for the supplied userId, unchecked. It deletes the pending key, stores that same token under `qr:token:{qr}` for 120 s, and changes only those two keys. |
| QrScanRoute.ScanConsumesOnce | apps/web/app/api/auth/qr/scan/route.ts:22 | A second scan of the same code fails with "QR expired". |
| QrScanRoute.Post | apps/web/app/api/auth/qr/scan/route.ts:5-32 | The handler's response and new store are those of `Scan`. |
| QrCheckRoute.Check | apps/web/app/api/auth/qr/check/route.ts:5-10 | A missing `qr` answers null. Otherwise it answers the value under `qr:token:{qr}` exactly when that key is unexpired, and null otherwise. |
| QrCheckRoute.NothingBeforeScan | apps/web/app/api/auth/qr/check/route.ts:8 | A freshly created code with only its pending key has no token to hand out. |
| QrCheckRoute.CheckSeesScannedToken | apps/web/app/api/auth/qr/check/route.ts:8-10 | Until the token key expires, every check answers the token the scan returned. Checking consumes nothing. |
| QrCheckRoute.Get | apps/web/app/api/auth/qr/check/route.ts:4-11 | The handler only reads. Its answer is that of `Check`. |
| Protocol.HandshakeHandsOverKeyOnce | apps/web/app/api/auth/qr/poll/route.ts:29-61 | generate, then verify within 2 minutes, then poll within 60 s: poll answers a token for the user verify named and the key exactly as verify received it. Any later poll answers `expired`. |
| Protocol.UnansweredSessionExpires | apps/web/app/api/auth/qr/verify/route.ts:18-20 | Two minutes after generate with no verify, verify answers 404 and poll answers `expired`, and neither changes anything. |
| Protocol.AbsentIsIndistinguishable | apps/web/app/api/auth/qr/poll/route.ts:19-21 | A poll of an id never created and a poll of an expired id answer alike. |
| Protocol.NoParseFailures | apps/web/app/api/auth/qr/poll/route.ts:23 | In a store every handler keeps well formed, `JSON.parse` in poll and claim never fails. |
| Protocol.LoginTokenRefreshes | apps/web/app/api/auth/refresh/route.ts:33-38 | A login token refreshes while its 7-day marker lives, provided it is not empty and its payload then names the user who logged in. |
| Protocol.ClaimTokenRefreshes | apps/web/app/api/auth/refresh/route.ts:33-38 | A QR-claim token refreshes while its 7-day marker lives, provided it is not empty and its payload then names the record's owner. |
| Protocol.LogoutRevokesRefresh | apps/web/app/api/auth/logout/route.ts:16 | After logout the token no longer refreshes, even when it has expired. |
| Messages.AppendIfNew | apps/web/app/chat/page.tsx:93-97 | The list is unchanged exactly when the id is already listed. Otherwise the message is appended at the end. Afterwards the id is listed, and unique ids stay unique. |
| Messages.AppendIfNewIdempotent | apps/mobile/app/chat.tsx:88-92 | Delivering the same message twice lists it once. |
| Messages.AsPending | apps/web/app/chat/page.tsx:159-163 | Same length as the outbox, and each entry is the outbox entry decrypted and marked pending. |
| Messages.Unlisted | apps/web/app/chat/page.tsx:165-166 | Keeps exactly the entries whose ids are not yet listed. A single entry is kept alone or dropped, as its id says. Unique ids in the entries stay unique. |
| Messages.UnlistedOfConcat | apps/web/app/chat/page.tsx:166 | Filtering a concatenation concatenates the filtered parts. With the one-entry case of `Unlisted`, this fixes the order and the repeats the filter keeps. |
| Messages.LoadPending | apps/web/app/chat/page.tsx:158-169 | The old list is a prefix of the result. What follows it is exactly `Unlisted` of the decrypted, pending outbox, in outbox order. Every added entry is decrypted, pending, and was not listed before. Every outbox id ends up listed. Unique ids in the list and in the outbox give unique ids in the result. |
| Messages.MarkAllSent | apps/web/app/chat/page.tsx:188-190 | Same length, every message not pending, and every other field unchanged. |
| Messages.MarkAllSentFacts | apps/mobile/app/chat.tsx:177-179 | After clearing no message is pending, every id stays in place, unique ids stay unique, and clearing again changes nothing. |
| Messages.Restore | apps/mobile/app/chat.tsx:296-300 | Same length as the backup, and each message is decrypted and not pending. |
| Messages.Conversation | apps/web/app/chat/page.tsx:305-309 | The result holds exactly the listed messages between the user and the peer. |
| Messages.ConversationOfConcat | apps/mobile/app/chat.tsx:317-321 | The filter keeps list order: filtering a concatenation concatenates the filtered parts. |
| Messages.ConversationSymmetric | apps/mobile/app/chat.tsx:317-321 | Both parties of a conversation see the same messages. |
| Messages.ConversationAfterFlush | apps/web/app/chat/page.tsx:188-190 | A flush changes a conversation only in its pending flags. |
| WebChatPage.ChatPage.constructor | apps/web/app/chat/page.tsx:26-36 | First render: empty list, no user, no peer, online, flag unset, outbox as stored. |
| WebChatPage.ChatPage.SignIn | apps/web/app/chat/page.tsx:53-54 | After `/api/auth/me` answers, the user id is set. |
| WebChatPage.ChatPage.SelectPeer | apps/web/app/chat/page.tsx:367-369 | Clicking a user selects them as the peer. |
| WebChatPage.ChatPage.HandleMessage | apps/web/app/chat/page.tsx:87-97 | The decrypted message is appended unless its id is listed, and unique ids stay unique. |
| WebChatPage.ChatPage.LoadPendingMessages | apps/web/app/chat/page.tsx:154-171 | With no outbox the list is unchanged. Otherwise the list is that of `LoadPending`. |
| WebChatPage.ChatPage.SendPendingMessages | apps/web/app/chat/page.tsx:177-192 | Emits the outbox entries in order and removes the outbox. It clears every pending flag and changes no other field. With no outbox, nothing changes except that the outbox stays absent. |
| WebChatPage.ChatPage.SendMessage | apps/web/app/chat/page.tsx:194-224 | Does nothing without text, a user or a peer. Online, it emits the encrypted message and appends the plain one as not pending. Offline, it pushes the encrypted message onto the outbox and appends the plain one as pending. The text is cleared, and unique ids stay unique given a fresh id. |
| WebChatPage.ChatPage.OnConnect | apps/web/app/chat/page.tsx:100-106 | Online and connected, with the flag set. The outbox is flushed only when the flag was unset. |
| WebChatPage.ChatPage.OnDisconnect | apps/web/app/chat/page.tsx:108-112 | Offline, and the flag is reset, so the next connect flushes. |
| WebChatPage.ChatPage.CurrentChatMessages | apps/web/app/chat/page.tsx:305-309 | `currentChatMessages`: exactly the listed messages between the user and the selected peer. Order follows from `Messages.Conversation` and `Messages.ConversationOfConcat`. |
| MobileChatScreen.ListenerDecision | apps/mobile/app/chat.tsx:152-160 | Flush exactly when connected, signed in and not yet flushed. Reset the flag exactly when offline. |
| MobileChatScreen.StaleListenerNeverFlushes | apps/mobile/app/chat.tsx:150-161 | With the userId seen at mount, the callback never flushes. |
| MobileChatScreen.StaleListenerMissesLoadedUser | apps/mobile/app/chat.tsx:155 | With user "u1" loaded and the device back online, the installed callback does nothing, where the current userId would flush. |
| MobileChatScreen.ChatScreen.constructor | apps/mobile/app/chat.tsx:32-39 | First render: empty list, no user, no receiver, online, flag unset, outbox as stored. |
| MobileChatScreen.ChatScreen.CheckAuthAndLoad | apps/mobile/app/chat.tsx:47-59 | Without a stored token or user id, the user is left unchanged. Otherwise the stored id becomes the user. |
| MobileChatScreen.ChatScreen.SelectPeer | apps/mobile/app/chat.tsx:358-378 | Opening and closing a conversation sets the receiver. |
| MobileChatScreen.ChatScreen.HandleMessage | apps/mobile/app/chat.tsx:82-92 | The decrypted message is appended unless its id is listed, and unique ids stay unique. |
| MobileChatScreen.ChatScreen.SendPendingMessages | apps/mobile/app/chat.tsx:166-181 | Emits each outbox entry in order, removes the outbox and clears every pending flag. |
| MobileChatScreen.ChatScreen.SendMessage | apps/mobile/app/chat.tsx:183-214 | Does nothing without text, user or receiver. Online, it emits and appends as not pending. Offline, it pushes onto the stored outbox and appends as pending. The text is cleared. |
| MobileChatScreen.ChatScreen.OnConnect | apps/mobile/app/chat.tsx:95-104 | Online with the flag set. The outbox is flushed only when the flag was unset. |
| MobileChatScreen.ChatScreen.OnDisconnect | apps/mobile/app/chat.tsx:106-110 | Offline, and the flag is reset. |
| MobileChatScreen.ChatScreen.ApplyNetworkChange | apps/mobile/app/chat.tsx:151-161 | Records the connection state, then flushes and sets the flag, or resets it, or does nothing, as `ListenerDecision` says for the userId it sees. |
| MobileChatScreen.ChatScreen.OnNetworkChangeAsWritten | apps/mobile/app/chat.tsx:150-161 | As installed at mount: records the state and resets the flag when offline. It never emits and never changes the list or the outbox. |
| MobileChatScreen.ChatScreen.OnNetworkChange | apps/mobile/app/chat.tsx:150-161 | Reads the current userId. Back online with a user loaded and the flag unset, it flushes once and sets the flag. Offline, it resets the flag. In the remaining cases the flag is kept. Outside a flush, the list, the outbox and the emitted messages never change. |
| MobileChatScreen.ChatScreen.ImportBackup | apps/mobile/app/chat.tsx:266-315 | A canceled pick, a missing file, a failed read or parse, or a backup without a `messages` array leaves the list unchanged. Otherwise the list becomes the restored backup. |
| MobileChatScreen.ChatScreen.CurrentChatMessages | apps/mobile/app/chat.tsx:317-321 | `currentChatMessages`: exactly the listed messages between the user and the receiver. Order follows from `Messages.Conversation` and `Messages.ConversationOfConcat`. |

## Left out

- Redis or database failures are not modelled, nor are the answers of the `catch` blocks they lead to. Those answers are 500 in every handler except refresh, whose `catch` answers 401 "Invalid token".
- A request body that is not valid JSON is not modelled. In the source `await req.json()` then throws: verify, claim, login, logout and scan answer 500, and refresh answers 401 "Invalid token".
- Two 500 answers are modelled. One is a `qr:` value that is not a record, and `Protocol.NoParseFailures` shows it cannot arise. The other is a login without a password.
- QrVerifyRoute.Verify: the 404 "User not found" exit covers well-formed user ids only. A client-supplied `userId` that is not a 24-digit hexadecimal ObjectId (such as "u1") makes `User.findById` throw a cast error, and the `catch` answers 500 "Internal server error"; the store is unchanged either way. Poll looks up only ids whose records verify wrote, and verify writes a record only after its own lookup of that id succeeded.
- QrClaimRoute.Claim: the 404 "User not found" exit covers well-formed user ids only. The legacy scan route signs a token over any client-supplied `userId` with the same secret that `verifyToken` uses, and generate stores that token's `userId` as the pending record's owner. Claiming such a session with a non-ObjectId owner (such as "u1") makes `User.findById` throw, and the `catch` answers 500 "Internal server error" where the model answers 404. The store is unchanged either way.
- Concurrency is not modelled. Each handler is one atomic step, so races between a handler's get and its set, such as two refreshes of one token, are out of scope.
- JWT signing and verification, bcrypt, and the AES and RSA key handling of `apps/web/lib/auth.ts` and the two `crypto.ts` files are parameters (`Jwt`, `passwordMatches`, `encrypt`, `decrypt`). Refresh verifies with `JWT_SECRET` alone while `signToken` falls back to a built-in secret; that difference lives inside the `verify` parameter.
- uuids, `Date.now()` and `Math.random()` are parameters of the handlers and methods. The clock is `Redis.now`.
- Keys are a datatype, so the model does not capture collisions between flattened key strings. For example, a client-supplied session id `pending:x` would address the same Redis key as the legacy `qr:pending:x`.
- A missing request field is modelled as the empty string, except login's `password`. A scan without a `qr` field therefore uses the key for "" rather than the source's `qr:pending:undefined`.
- LoginRoute.Login: a request without an `email` is looked up as the email "". What the database answers for a filter with an undefined value is not modelled.
- A message without a `pending` field is modelled as not pending.
- The cookie that poll sets on its response is not modelled, nor is the `_id`/`id` naming of the returned user.
- The "join" emits, the socket connection itself and the server fan-out are left out. Only "send-message" emits are recorded.
- Rendering, toasts and styles are left out, as are the periodic token refresh timers and `handleLogout` of both screens (network calls and clearing storage).
- MobileChatScreen.ChatScreen.CheckAuthAndLoad: the navigation `router.replace("/qr-login")` taken without a stored token or user id is not modelled (navigation is outside the screen's state), nor is the user-list fetch `fetchUsers` (a network call) or `connectSocket`.
- The web page's backup import and export and the mobile `exportBackup` (file I/O) are left out. The mobile import is modelled from the point where the file has been picked and parsed.
- The polling and scanning screens (`apps/web/app/qr/page.tsx`, `apps/mobile/app/qr-login.tsx`) are not part of this model.
- RefreshRoute.OldTokenIsRevoked: holds only for a new token different from the old one and a payload that names the same user at both times. Both are facts about the token library that the model cannot fix.
- Protocol.LogoutRevokesRefresh: assumes refresh and logout read the same user from the token.

## Findings

| source | as written | input that shows it | evidently intended | confidence | as-written member | corrected member |
|---|---|---|---|---|---|---|
| apps/mobile/app/chat.tsx:150-161 | The NetInfo callback is installed once by the mount effect (line 43), so it reads the `userId` of the first render, which is null. `connected && userId && !hasSentPending.current` is then always false, and a reconnect seen by NetInfo never flushes the outbox. | User "u1" loaded, outbox non-empty, flag unset, NetInfo reports connected: nothing is emitted. | Flush once when connected, signed in and not yet flushed, using the current user. | not executed; high | MobileChatScreen.ChatScreen.OnNetworkChangeAsWritten | MobileChatScreen.ChatScreen.OnNetworkChange |
