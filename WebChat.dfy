/** The web chat page (apps/web/app/chat/page.tsx) without its rendering:
    the message list, the offline outbox in local storage and the flag that
    lets one flush happen per connection. */
module WebChatPage {
  import opened Wrappers
  import opened Messages

  class ChatPage {
    var messages: seq<Message>
    var text: string
    var userId: Option<string>
    /** `selectedUser?._id` */
    var selectedPeer: Option<string>
    var isOnline: bool
    /** `socket.connected` */
    var connected: bool
    /** `hasSentPending.current` */
    var hasSentPending: bool
    /** localStorage "pendingMessages": None when the item is absent. */
    var outbox: Option<seq<Message>>
    /** Every message emitted as "send-message", in order. */
    ghost var emitted: seq<Message>

    /** The page as first rendered, with whatever the outbox already holds. */
    constructor (stored: Option<seq<Message>>)
      ensures messages == [] && text == "" && userId == None && selectedPeer == None
      ensures isOnline && !connected && !hasSentPending
      ensures outbox == stored && emitted == []
    {
      messages, text, userId, selectedPeer := [], "", None, None;
      isOnline, connected, hasSentPending := true, false, false;
      outbox, emitted := stored, [];
    }

    /** The mount effect once `/api/auth/me` has answered with the user `id`. */
    method SignIn(id: string)
      modifies this`userId
      ensures userId == Some(id)
    {
      userId := Some(id);
    }

    /** Clicking a user in the sidebar selects that user as the peer. */
    method SelectPeer(peer: string)
      modifies this`selectedPeer
      ensures selectedPeer == Some(peer)
    {
      selectedPeer := Some(peer);
    }

    /** `handleMessage`: decrypt an incoming message and add it unless its id is listed. */
    method HandleMessage(msg: Message, decrypt: string -> string)
      modifies this`messages
      ensures messages == AppendIfNew(old(messages), msg.(content := decrypt(msg.content)))
      ensures UniqueIds(old(messages)) ==> UniqueIds(messages)
    {
      messages := AppendIfNew(messages, msg.(content := decrypt(msg.content)));
    }

    /** `loadPendingMessages`, run on mount. */
    method LoadPendingMessages(decrypt: string -> string)
      modifies this`messages
      ensures outbox.None? ==> messages == old(messages)
      ensures outbox.Some? ==> messages == LoadPending(old(messages), outbox.value, decrypt)
    {
      if outbox.Some? {
        messages := LoadPending(messages, outbox.value, decrypt);
      }
    }

    /** `sendPendingMessages`: emit every outbox entry in order, remove the
        outbox, and clear the pending flag of every listed message. */
    method SendPendingMessages()
      modifies this`messages, this`outbox, this`emitted
      ensures outbox == None
      ensures old(outbox).None? ==> messages == old(messages) && emitted == old(emitted)
      ensures old(outbox).Some? ==>
                emitted == old(emitted) + old(outbox).value && messages == MarkAllSent(old(messages))
    {
      if outbox.Some? {
        var pendingMsgs := outbox.value;
        var i := 0;
        while i < |pendingMsgs|
          invariant 0 <= i <= |pendingMsgs|
          invariant emitted == old(emitted) + pendingMsgs[..i]
          invariant messages == old(messages) && outbox == old(outbox)
        {
          emitted := emitted + [pendingMsgs[i]];
          i := i + 1;
        }
        outbox := None;
        messages := MarkAllSent(messages);
      }
    }

    /** `sendMessage`, with `id` the generated `${userId}-${Date.now()}-${Math.random()}`. */
    method SendMessage(id: string, encrypt: string -> string)
      modifies this`messages, this`outbox, this`emitted, this`text
      ensures (old(text) == "" || !Nonblank(userId) || selectedPeer.None?) ==>
                messages == old(messages) && outbox == old(outbox) && emitted == old(emitted) && text == old(text)
      ensures (old(text) != "" && Nonblank(userId) && selectedPeer.Some?) ==>
                var sent := Message(id, userId.value, selectedPeer.value, encrypt(old(text)), false);
                && text == ""
                && (isOnline && connected ==>
                      && emitted == old(emitted) + [sent]
                      && messages == old(messages) + [sent.(content := old(text))]
                      && outbox == old(outbox))
                && (!(isOnline && connected) ==>
                      && outbox == Some((if old(outbox).Some? then old(outbox).value else []) + [sent])
                      && messages == old(messages) + [sent.(content := old(text), pending := true)]
                      && emitted == old(emitted))
      ensures UniqueIds(old(messages)) && !HasId(old(messages), id) ==> UniqueIds(messages)
    {
      if text == "" || !Nonblank(userId) || selectedPeer.None? {
        return;
      }
      var newMessage := Message(id, userId.value, selectedPeer.value, encrypt(text), false);
      if isOnline && connected {
        emitted := emitted + [newMessage];
        messages := messages + [newMessage.(content := text)];
      } else {
        var pendingMsgs := if outbox.Some? then outbox.value else [];
        outbox := Some(pendingMsgs + [newMessage]);
        messages := messages + [newMessage.(content := text, pending := true)];
      }
      text := "";
    }

    /** The socket's "connect" handler: flush only when no flush has happened
        since the last disconnect. */
    method OnConnect()
      modifies this`isOnline, this`connected, this`hasSentPending, this`messages, this`outbox, this`emitted
      ensures isOnline && connected && hasSentPending
      ensures old(hasSentPending) ==>
                messages == old(messages) && outbox == old(outbox) && emitted == old(emitted)
      ensures !old(hasSentPending) ==> outbox == None
      ensures !old(hasSentPending) && old(outbox).None? ==> messages == old(messages) && emitted == old(emitted)
      ensures !old(hasSentPending) && old(outbox).Some? ==>
                emitted == old(emitted) + old(outbox).value && messages == MarkAllSent(old(messages))
    {
      isOnline, connected := true, true;
      if !hasSentPending {
        SendPendingMessages();
        hasSentPending := true;
      }
    }

    /** The socket's "disconnect" handler: offline, and the next connect may flush. */
    method OnDisconnect()
      modifies this`isOnline, this`connected, this`hasSentPending
      ensures !isOnline && !connected && !hasSentPending
    {
      isOnline, connected, hasSentPending := false, false, false;
    }

    /** `currentChatMessages`. */
    function CurrentChatMessages(): (r: seq<Message>)
      reads this
      ensures forall x | x in r :: x in messages && Between(x, userId, selectedPeer)
      ensures forall x | x in messages && Between(x, userId, selectedPeer) :: x in r
    {
      Conversation(messages, userId, selectedPeer)
    }
  }
}
