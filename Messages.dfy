/**
 * The message list both chat screens keep, as the pure updaters they pass to
 * `setMessages`, and the conversation filter they render.
 */
module Messages {
  import opened Wrappers

  /** A chat message. `pending` false also stands for an absent flag. */
  datatype Message = Message(id: string, senderId: string, receiverId: string, content: string, pending: bool)

  predicate HasId(msgs: seq<Message>, id: string)
  {
    exists i | 0 <= i < |msgs| :: msgs[i].id == id
  }

  /** No two listed messages share an id. */
  ghost predicate UniqueIds(msgs: seq<Message>)
  {
    forall i, j | 0 <= i < j < |msgs| :: msgs[i].id != msgs[j].id
  }

  /** The `handleMessage` updater: a message whose id is listed is dropped,
      any other is appended. */
  function AppendIfNew(prev: seq<Message>, msg: Message): (r: seq<Message>)
    ensures r == prev <==> HasId(prev, msg.id)
    ensures !HasId(prev, msg.id) ==> r == prev + [msg]
    ensures HasId(r, msg.id)
    ensures UniqueIds(prev) ==> UniqueIds(r)
  {
    if HasId(prev, msg.id) then prev
    else
      var r := prev + [msg];
      assert r[|prev|].id == msg.id;
      r
  }

  /** Receiving the same message twice is the same as receiving it once
      (the socket server echoes every message back to its sender too). */
  lemma AppendIfNewIdempotent(prev: seq<Message>, msg: Message)
    ensures AppendIfNew(AppendIfNew(prev, msg), msg) == AppendIfNew(prev, msg)
  {
  }

  /** The outbox entries as `loadPendingMessages` lists them: decrypted and pending. */
  function AsPending(outbox: seq<Message>, decrypt: string -> string): (r: seq<Message>)
    ensures |r| == |outbox|
    ensures forall i | 0 <= i < |r| :: r[i] == outbox[i].(content := decrypt(outbox[i].content), pending := true)
  {
    seq(|outbox|, i requires 0 <= i < |outbox| => outbox[i].(content := decrypt(outbox[i].content), pending := true))
  }

  /** The entries of `entries` whose id `prev` does not list, in order. */
  function Unlisted(prev: seq<Message>, entries: seq<Message>): (r: seq<Message>)
    ensures |r| <= |entries|
    ensures forall x | x in r :: x in entries && !HasId(prev, x.id)
    ensures forall x | x in entries && !HasId(prev, x.id) :: x in r
    ensures UniqueIds(entries) ==> UniqueIds(r)
    ensures |entries| == 1 ==> r == (if HasId(prev, entries[0].id) then [] else entries)
  {
    if entries == [] then []
    else
      var rest := Unlisted(prev, entries[1..]);
      assert forall x | x in entries[1..] :: x in entries;
      if HasId(prev, entries[0].id) then rest
      else
        var r := [entries[0]] + rest;
        assert UniqueIds(entries) ==> UniqueIds(r) by {
          if UniqueIds(entries) {
            UniqueIdsTail(entries);
            NotInTail(entries);
            forall i, j | 0 <= i < j < |r| ensures r[i].id != r[j].id {
              if i == 0 { assert r[j] in rest; }
            }
          }
        }
        r
  }

  /** The filter keeps order and repeats: filtering a concatenation is
      concatenating the filtered parts. */
  lemma {:induction false} UnlistedOfConcat(prev: seq<Message>, a: seq<Message>, b: seq<Message>)
    ensures Unlisted(prev, a + b) == Unlisted(prev, a) + Unlisted(prev, b)
  {
    if a == [] {
      assert a + b == b;
    } else {
      assert (a + b)[1..] == a[1..] + b;
      UnlistedOfConcat(prev, a[1..], b);
    }
  }

  lemma UniqueIdsTail(s: seq<Message>)
    requires s != [] && UniqueIds(s)
    ensures UniqueIds(s[1..])
  {
    forall i, j | 0 <= i < j < |s| - 1 ensures s[1..][i].id != s[1..][j].id {
      assert s[1..][i] == s[i + 1] && s[1..][j] == s[j + 1];
    }
  }

  lemma NotInTail(s: seq<Message>)
    requires s != [] && UniqueIds(s)
    ensures forall x | x in s[1..] :: x.id != s[0].id
  {
    forall x | x in s[1..] ensures x.id != s[0].id {
      var k :| 0 <= k < |s[1..]| && s[1..][k] == x;
      assert s[k + 1] == x;
    }
  }

  /** The `loadPendingMessages` updater: the list, followed by those outbox
      entries (decrypted, marked pending) whose id the list did not have. */
  function LoadPending(prev: seq<Message>, outbox: seq<Message>, decrypt: string -> string): (r: seq<Message>)
    ensures prev <= r
    ensures r[|prev|..] == Unlisted(prev, AsPending(outbox, decrypt))
    ensures forall x | x in r[|prev|..] :: x.pending && !HasId(prev, x.id) && x in AsPending(outbox, decrypt)
    ensures forall i | 0 <= i < |outbox| && !HasId(prev, outbox[i].id) ::
              outbox[i].(content := decrypt(outbox[i].content), pending := true) in r[|prev|..]
    ensures UniqueIds(prev) && UniqueIds(outbox) ==> UniqueIds(r)
  {
    var added := Unlisted(prev, AsPending(outbox, decrypt));
    var r := prev + added;
    assert r[|prev|..] == added;
    assert forall i | 0 <= i < |outbox| :: AsPending(outbox, decrypt)[i].id == outbox[i].id;
    assert UniqueIds(outbox) ==> UniqueIds(AsPending(outbox, decrypt));
    assert UniqueIds(prev) && UniqueIds(added) ==> UniqueIds(r) by {
      if UniqueIds(prev) && UniqueIds(added) {
        forall i, j | 0 <= i < j < |r| ensures r[i].id != r[j].id {
          if i < |prev| && j >= |prev| {
            assert r[j] in added;
            assert !HasId(prev, r[j].id);
          } else if i >= |prev| {
            assert r[i] == added[i - |prev|] && r[j] == added[j - |prev|];
          }
        }
      }
    }
    r
  }

  /** The flush updater: every listed message loses its pending flag. */
  function MarkAllSent(msgs: seq<Message>): (r: seq<Message>)
    ensures |r| == |msgs|
    ensures forall i | 0 <= i < |r| :: r[i] == msgs[i].(pending := false)
  {
    seq(|msgs|, i requires 0 <= i < |msgs| => msgs[i].(pending := false))
  }

  /** After a flush nothing is pending, ids are kept in place, and a second
      flush changes nothing. */
  lemma MarkAllSentFacts(msgs: seq<Message>)
    ensures forall x | x in MarkAllSent(msgs) :: !x.pending
    ensures forall i | 0 <= i < |msgs| :: MarkAllSent(msgs)[i].id == msgs[i].id
    ensures UniqueIds(msgs) ==> UniqueIds(MarkAllSent(msgs))
    ensures MarkAllSent(MarkAllSent(msgs)) == MarkAllSent(msgs)
  {
  }

  /** The backup restore of the mobile screen: each message decrypted, not pending. */
  function Restore(backup: seq<Message>, decrypt: string -> string): (r: seq<Message>)
    ensures |r| == |backup|
    ensures forall i | 0 <= i < |r| ::
              r[i] == backup[i].(content := decrypt(backup[i].content), pending := false)
  {
    seq(|backup|, i requires 0 <= i < |backup| => backup[i].(content := decrypt(backup[i].content), pending := false))
  }

  /** A message belongs to the conversation of `me` and `peer`; a null user
      or no selected peer matches nothing. */
  predicate Between(msg: Message, me: Option<string>, peer: Option<string>)
  {
    me.Some? && peer.Some? &&
    ((msg.senderId == me.value && msg.receiverId == peer.value) ||
     (msg.senderId == peer.value && msg.receiverId == me.value))
  }

  /** `currentChatMessages`: the messages between `me` and `peer`, in list order. */
  function Conversation(msgs: seq<Message>, me: Option<string>, peer: Option<string>): (r: seq<Message>)
    ensures |r| <= |msgs|
    ensures forall x | x in r :: x in msgs && Between(x, me, peer)
    ensures forall x | x in msgs && Between(x, me, peer) :: x in r
  {
    if msgs == [] then []
    else
      var rest := Conversation(msgs[1..], me, peer);
      assert forall x | x in msgs[1..] :: x in msgs;
      if Between(msgs[0], me, peer) then [msgs[0]] + rest else rest
  }

  /** The filter keeps list order: filtering a concatenation is concatenating
      the filtered parts. */
  lemma {:induction false} ConversationOfConcat(a: seq<Message>, b: seq<Message>, me: Option<string>, peer: Option<string>)
    ensures Conversation(a + b, me, peer) == Conversation(a, me, peer) + Conversation(b, me, peer)
  {
    if a == [] {
      assert a + b == b;
    } else {
      assert (a + b)[1..] == a[1..] + b;
      ConversationOfConcat(a[1..], b, me, peer);
    }
  }

  /** Both parties see the same conversation. */
  lemma {:induction false} ConversationSymmetric(msgs: seq<Message>, me: Option<string>, peer: Option<string>)
    ensures Conversation(msgs, me, peer) == Conversation(msgs, peer, me)
  {
    if msgs != [] {
      ConversationSymmetric(msgs[1..], me, peer);
    }
  }

  /** A flush changes no conversation beyond the pending flags. */
  lemma {:induction false} ConversationAfterFlush(msgs: seq<Message>, me: Option<string>, peer: Option<string>)
    ensures Conversation(MarkAllSent(msgs), me, peer) == MarkAllSent(Conversation(msgs, me, peer))
  {
    if msgs != [] {
      assert MarkAllSent(msgs)[1..] == MarkAllSent(msgs[1..]);
      ConversationAfterFlush(msgs[1..], me, peer);
      var rest := Conversation(msgs[1..], me, peer);
      if Between(msgs[0], me, peer) {
        assert MarkAllSent([msgs[0]] + rest) == [msgs[0].(pending := false)] + MarkAllSent(rest);
      }
    }
  }
}
