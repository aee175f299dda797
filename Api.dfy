/**
 * What the route handlers share: the token library and the user collection,
 * both as oracles, and the shape of an HTTP response.
 */
module Api {
  import opened Wrappers
  import opened Store

  /** A token payload. A field the payload does not carry is None. */
  datatype Claims = Claims(userId: Option<string>, email: Option<string>, role: Option<string>)

  /** The outcomes of `jwt.verify(token, secret)`: a verified object payload,
      a verified string payload, the expiry error, or any other error. */
  datatype Verdict = Verified(claims: Claims) | VerifiedText | TokenExpired | Rejected

  /** The token library as an oracle.
      `sign(claims, expiresIn, issuedAt)`: the token signed over `claims`;
      `verify(token, now)`: the verdict on `token` at time `now`;
      `decode(token)`: the payload without any check, None when the token
      does not decode to an object. */
  datatype Jwt = Jwt(
    sign: (Claims, nat, int) -> string,
    verify: (string, int) -> Verdict,
    decode: string -> Option<Claims>)

  /** A document of the user collection. */
  datatype User = User(id: string, name: string, email: string, role: string, passwordHash: string)

  /** The `user` object the handlers return; poll leaves out the name. */
  datatype PublicUser = PublicUser(id: string, name: Option<string>, email: string, role: string)

  /** The JSON bodies the handlers answer with. */
  datatype Body =
    | Error(message: string)                      // { error }
    | Success                                     // { success: true }
    | SessionCreated(sessionId: string)           // { sessionId }
    | PollStatus(status: string)                  // { status: 'expired' | 'pending' | 'unknown' }
    | PollAuthenticated(user: PublicUser, token: string, encryptedPrivateKey: Option<string>)
    | LoggedIn(token: string, user: PublicUser)   // { success: true, token, user }
    | Refreshed(token: string)                    // { token }
    | QrIssued(qr: string)                        // { qr }
    | ScanAccepted(token: string)                 // { success: true, token }
    | TokenLookup(stored: Option<Value>)          // { token } (null when absent)

  datatype Response = Response(status: int, body: Body)

  /** One handler invocation: the response and the store afterwards. */
  datatype Step = Step(response: Response, entries: Entries)

  /** Expiry of a session marker: 7 days. */
  const SessionTtl: nat := 604800
  /** Lifetime of a token from `signToken` ('15m'). */
  const AccessTokenLifetime: nat := 900

  /** An error response that leaves the store as it was. */
  function Fail(status: int, message: string, m: Entries): Step
  {
    Step(Response(status, Error(message)), m)
  }

  /** The payload `signToken` is given for a user. */
  function UserClaims(u: User): Claims
  {
    Claims(Some(u.id), Some(u.email), Some(u.role))
  }

  function Profile(u: User): PublicUser
  {
    PublicUser(u.id, Some(u.name), u.email, u.role)
  }

  /** `session:{userId}:{token}` = 'valid' with the 7-day expiry. */
  function WriteMarker(m: Entries, now: int, userId: string, token: string): Entries
  {
    Put(m, now, Session(userId, token), Text("valid"), SessionTtl)
  }

  /** The first user `matches` accepts, as a query on the collection answers. */
  function FindFirst(users: seq<User>, matches: User -> bool): (r: Option<User>)
    ensures r.Some? ==> r.value in users && matches(r.value)
    ensures r.None? <==> forall u | u in users :: !matches(u)
  {
    if users == [] then None
    else if matches(users[0]) then Some(users[0])
    else FindFirst(users[1..], matches)
  }

  /** `User.findById(id)`. */
  function FindById(users: seq<User>, id: string): (r: Option<User>)
    ensures r.Some? ==> r.value in users && r.value.id == id
    ensures r.None? <==> forall u | u in users :: u.id != id
  {
    FindFirst(users, (u: User) => u.id == id)
  }

  /** `User.findOne({ email })`. */
  function FindByEmail(users: seq<User>, email: string): (r: Option<User>)
    ensures r.Some? ==> r.value in users && r.value.email == email
    ensures r.None? <==> forall u | u in users :: u.email != email
  {
    FindFirst(users, (u: User) => u.email == email)
  }
}
