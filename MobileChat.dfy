/** The mobile chat screen (apps/mobile/app/chat.tsx) without its rendering:
    the message list, the outbox in AsyncStorage, the one-flush-per-connection
    flag shared by the socket and network-status listeners, and backup import. */
module MobileChatScreen {
  import opened Wrappers
  import opened Messages

  /** What the network-status callback does. */
  datatype ListenerAction = FlushOutbox | ResetFlag | NoAction

  /** The NetInfo callback's decision, given the `userId` it sees: flush when
      connected, signed in and not yet flushed; reset the flag when offline. */
  function ListenerDecision(isConnected: bool, seenUserId: Option<string>, hasSentPending: bool): (a: ListenerAction)
    ensures a == FlushOutbox <==> isConnected && Nonblank(seenUserId) && !hasSentPending
    ensures a == ResetFlag <==> !isConnected
  {
    if isConnected && Nonblank(seenUserId) && !hasSentPending then FlushOutbox
    else if !isConnected then ResetFlag
    else NoAction
  }

  /** The `userId` the NetInfo callback captures: the listener is installed
      by the mount effect, so it closes over the first render's state, null. */
  const MountUserId: Option<string> := None

  /** As written, the callback never flushes, whatever the connection, the
      flag, or the userId the screen has loaded since. */
  lemma StaleListenerNeverFlushes(isConnected: bool, hasSentPending: bool)
    ensures ListenerDecision(isConnected, MountUserId, hasSentPending) != FlushOutbox
  {
  }

  /** The concrete case: a user "u1" has loaded, the device comes back
      online and nothing has been flushed yet. The callback as installed
      does nothing; reading the current userId it would flush. */
  lemma StaleListenerMissesLoadedUser()
    ensures ListenerDecision(true, MountUserId, false) == NoAction
    ensures ListenerDecision(true, Some("u1"), false) == FlushOutbox
  {
  }

  /** The result of picking and parsing a backup file. */
  datatype BackupFile =
    | Canceled                                  // the picker was dismissed
    | NoAsset                                   // no file or no uri
    | Unreadable                                // reading or JSON.parse threw
    | Parsed(messages: Option<seq<Message>>)    // None: `messages` missing or not an array

  class ChatScreen {
    var messages: seq<Message>
    var text: string
    var userId: Option<string>
    var receiverId: Option<string>
    var isOnline: bool
    /** `socket.connected` */
    var connected: bool
    /** `hasSentPending.current` */
    var hasSentPending: bool
    /** AsyncStorage "pendingMessages": None when the item is absent. */
    var outbox: Option<seq<Message>>
    /** Every message emitted as "send-message", in order. */
    ghost var emitted: seq<Message>

    /** The screen as first rendered, with whatever the outbox already holds. */
    constructor (stored: Option<seq<Message>>)
      ensures messages == [] && text == "" && userId == None && receiverId == None
      ensures isOnline && !connected && !hasSentPending
      ensures outbox == stored && emitted == []
    {
      messages, text, userId, receiverId := [], "", None, None;
      isOnline, connected, hasSentPending := true, false, false;
      outbox, emitted := stored, [];
    }

    /** `checkAuthAndLoad`: without a stored token and user id the user is
        left as it was; otherwise it takes the stored user id. */
    method CheckAuthAndLoad(token: Option<string>, storedUserId: Option<string>)
      modifies this`userId
      ensures (Nonblank(token) && Nonblank(storedUserId)) ==> userId == storedUserId
      ensures !(Nonblank(token) && Nonblank(storedUserId)) ==> userId == old(userId)
    {
      if !Nonblank(token) || !Nonblank(storedUserId) {
        return;
      }
      userId := storedUserId;
    }

    /** Tapping a user opens the conversation; the back button closes it (None). */
    method SelectPeer(peer: Option<string>)
      modifies this`receiverId
      ensures receiverId == peer
    {
      receiverId := peer;
    }

    /** `handleMessage`: decrypt an incoming message and add it unless its id is listed. */
    method HandleMessage(msg: Message, decrypt: string -> string)
      modifies this`messages
      ensures messages == AppendIfNew(old(messages), msg.(content := decrypt(msg.content)))
      ensures UniqueIds(old(messages)) ==> UniqueIds(messages)
    {
      messages := AppendIfNew(messages, msg.(content := decrypt(msg.content)));
    }

    /** `sendPendingMessages`: emit every outbox entry in order, remove the
        outbox, and clear the pending flag of every listed message. */
    method SendPendingMessages()
      modifies this`messages, this`outbox, this`emitted
      ensures outbox == None
      ensures old(outbox).None? ==> messages == old(messages) && emitted == old(emitted)
      ensures old(outbox).Some? ==>
                emitted == old(emitted) + old(outbox).value && messages == MarkAllSent(old(messages))
    {
      if outbox.Some? {
        var pendingMsgs := outbox.value;
        var i := 0;
        while i < |pendingMsgs|
          invariant 0 <= i <= |pendingMsgs|
          invariant emitted == old(emitted) + pendingMsgs[..i]
          invariant messages == old(messages) && outbox == old(outbox)
        {
          emitted := emitted + [pendingMsgs[i]];
          i := i + 1;
        }
        outbox := None;
        messages := MarkAllSent(messages);
      }
    }

    /** `sendMessage`, with `id` the generated `${userId}-${Date.now()}-${Math.random()}`. */
    method SendMessage(id: string, encrypt: string -> string)
      modifies this`messages, this`outbox, this`emitted, this`text
      ensures (old(text) == "" || !Nonblank(userId) || !Nonblank(receiverId)) ==>
                messages == old(messages) && outbox == old(outbox) && emitted == old(emitted) && text == old(text)
      ensures (old(text) != "" && Nonblank(userId) && Nonblank(receiverId)) ==>
                var sent := Message(id, userId.value, receiverId.value, encrypt(old(text)), false);
                && text == ""
                && (isOnline && connected ==>
                      && emitted == old(emitted) + [sent]
                      && messages == old(messages) + [sent.(content := old(text))]
                      && outbox == old(outbox))
                && (!(isOnline && connected) ==>
                      && outbox == Some((if old(outbox).Some? then old(outbox).value else []) + [sent])
                      && messages == old(messages) + [sent.(content := old(text), pending := true)]
                      && emitted == old(emitted))
      ensures UniqueIds(old(messages)) && !HasId(old(messages), id) ==> UniqueIds(messages)
    {
      if text == "" || !Nonblank(userId) || !Nonblank(receiverId) {
        return;
      }
      var newMessage := Message(id, userId.value, receiverId.value, encrypt(text), false);
      if isOnline && connected {
        emitted := emitted + [newMessage];
        messages := messages + [newMessage.(content := text)];
      } else {
        var pendingMsgs := if outbox.Some? then outbox.value else [];
        outbox := Some(pendingMsgs + [newMessage]);
        messages := messages + [newMessage.(content := text, pending := true)];
      }
      text := "";
    }

    /** The socket's "connect" handler: flush only when no flush has happened
        since the flag was last reset. */
    method OnConnect()
      modifies this`isOnline, this`connected, this`hasSentPending, this`messages, this`outbox, this`emitted
      ensures isOnline && connected && hasSentPending
      ensures old(hasSentPending) ==>
                messages == old(messages) && outbox == old(outbox) && emitted == old(emitted)
      ensures !old(hasSentPending) ==> outbox == None
      ensures !old(hasSentPending) && old(outbox).None? ==> messages == old(messages) && emitted == old(emitted)
      ensures !old(hasSentPending) && old(outbox).Some? ==>
                emitted == old(emitted) + old(outbox).value && messages == MarkAllSent(old(messages))
    {
      isOnline, connected := true, true;
      if !hasSentPending {
        SendPendingMessages();
        hasSentPending := true;
      }
    }

    /** The socket's "disconnect" handler. */
    method OnDisconnect()
      modifies this`isOnline, this`connected, this`hasSentPending
      ensures !isOnline && !connected && !hasSentPending
    {
      isOnline, connected, hasSentPending := false, false, false;
    }

    /** The NetInfo callback acting on the userId `seenUserId`. */
    method ApplyNetworkChange(isConnected: bool, seenUserId: Option<string>)
      modifies this`isOnline, this`hasSentPending, this`messages, this`outbox, this`emitted
      ensures isOnline == isConnected
      ensures ListenerDecision(isConnected, seenUserId, old(hasSentPending)) == FlushOutbox ==>
                && hasSentPending && outbox == None
                && (old(outbox).None? ==> messages == old(messages) && emitted == old(emitted))
                && (old(outbox).Some? ==>
                      emitted == old(emitted) + old(outbox).value && messages == MarkAllSent(old(messages)))
      ensures ListenerDecision(isConnected, seenUserId, old(hasSentPending)) == ResetFlag ==>
                !hasSentPending && messages == old(messages) && outbox == old(outbox) && emitted == old(emitted)
      ensures ListenerDecision(isConnected, seenUserId, old(hasSentPending)) == NoAction ==>
                hasSentPending == old(hasSentPending)
                && messages == old(messages) && outbox == old(outbox) && emitted == old(emitted)
    {
      isOnline := isConnected;
      match ListenerDecision(isConnected, seenUserId, hasSentPending) {
        case FlushOutbox =>
          SendPendingMessages();
          hasSentPending := true;
        case ResetFlag =>
          hasSentPending := false;
        case NoAction =>
      }
    }

    /** The NetInfo callback as the source installs it: it reads the
        mount-time userId, so it only ever records the status and resets the
        flag, and never flushes the outbox. */
    method OnNetworkChangeAsWritten(isConnected: bool)
      modifies this`isOnline, this`hasSentPending, this`messages, this`outbox, this`emitted
      ensures isOnline == isConnected
      ensures hasSentPending == (isConnected && old(hasSentPending))
      ensures messages == old(messages) && outbox == old(outbox) && emitted == old(emitted)
    {
      StaleListenerNeverFlushes(isConnected, hasSentPending);
      ApplyNetworkChange(isConnected, MountUserId);
    }

    /** The NetInfo callback reading the current userId: back online with a
        user loaded and the flag unset, it flushes once and sets the flag;
        offline, it resets the flag. */
    method OnNetworkChange(isConnected: bool)
      modifies this`isOnline, this`hasSentPending, this`messages, this`outbox, this`emitted
      ensures isOnline == isConnected
      ensures (isConnected && Nonblank(userId) && !old(hasSentPending)) ==>
                && hasSentPending && outbox == None
                && (old(outbox).None? ==> messages == old(messages) && emitted == old(emitted))
                && (old(outbox).Some? ==>
                      emitted == old(emitted) + old(outbox).value && messages == MarkAllSent(old(messages)))
      ensures !isConnected ==>
                !hasSentPending && messages == old(messages) && outbox == old(outbox) && emitted == old(emitted)
      ensures (isConnected && (!Nonblank(userId) || old(hasSentPending))) ==>
                hasSentPending == old(hasSentPending)
                && messages == old(messages) && outbox == old(outbox) && emitted == old(emitted)
    {
      ApplyNetworkChange(isConnected, userId);
    }

    /** `importBackup` once the file is picked: a backup without a `messages`
        array, or a failed read, leaves the list alone; otherwise the list is
        replaced by the restored messages. */
    method ImportBackup(file: BackupFile, decrypt: string -> string)
      modifies this`messages
      ensures (file.Parsed? && file.messages.Some?) ==> messages == Restore(file.messages.value, decrypt)
      ensures !(file.Parsed? && file.messages.Some?) ==> messages == old(messages)
    {
      if file.Parsed? && file.messages.Some? {
        messages := Restore(file.messages.value, decrypt);
      }
    }

    /** `currentChatMessages`. */
    function CurrentChatMessages(): (r: seq<Message>)
      reads this
      ensures forall x | x in r :: x in messages && Between(x, userId, receiverId)
      ensures forall x | x in messages && Between(x, userId, receiverId) :: x in r
    {
      Conversation(messages, userId, receiverId)
    }
  }
}
