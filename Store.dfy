/**
 * The Redis instance the route handlers share: one key-value map in which
 * every entry carries an absolute expiry time, plus the server clock.
 * A key reads as absent once the clock has reached its expiry time.
 */
module Store {
  import opened Wrappers

  /** The `status` field of a QR session record (packages/shared/types.ts).
      The handlers only ever store Pending and Authenticated. */
  datatype QrStatus = Pending | Scanned | Authenticated | Expired

  /** The JSON object stored under `qr:{sessionId}`. */
  datatype QrRecord = QrRecord(status: QrStatus, userId: Option<string>, encryptedPrivateKey: Option<string>)

  /** One constructor per key namespace. */
  datatype Key =
    | Qr(sessionId: string)                  // qr:{sessionId}
    | QrPending(qrId: string)                // qr:pending:{qrId}
    | QrToken(qrId: string)                  // qr:token:{qrId}
    | Session(userId: string, token: string) // session:{userId}:{token}

  /** A stored value: a QR session record (JSON text in Redis) or a plain string. */
  datatype Value = Record(rec: QrRecord) | Text(text: string)

  datatype Entry = Entry(value: Value, expiresAt: int)

  type Entries = map<Key, Entry>

  /** `GET k` at time `now`. */
  function Lookup(m: Entries, now: int, k: Key): Option<Value>
  {
    if k in m && now < m[k].expiresAt then Some(m[k].value) else None
  }

  /** `SET k v EX ttl` at time `now`: overwrites value and expiry. */
  function Put(m: Entries, now: int, k: Key, v: Value, ttl: nat): Entries
  {
    m[k := Entry(v, now + ttl)]
  }

  /** `DEL k`. */
  function Remove(m: Entries, k: Key): Entries
  {
    m - {k}
  }

  /** JavaScript truthiness of a `redis.get` result: null and "" are falsy. */
  predicate Truthy(v: Option<Value>)
  {
    v.Some? && (v.value.Record? || v.value.text != "")
  }

  /** Every key outside `ks` holds the same entry (or is absent) in both maps. */
  predicate SameExcept(m: Entries, m': Entries, ks: set<Key>)
  {
    m - ks == m' - ks
  }

  /** Records live exactly under `qr:{id}` keys; every other key holds a string. */
  predicate WellFormed(m: Entries)
  {
    forall k | k in m :: k.Qr? <==> m[k].value.Record?
  }

  /** What SET promises: the value reads back until the expiry it set, and is
      gone from then on; every other key reads as before. */
  lemma PutReadsBack(m: Entries, now: int, k: Key, v: Value, ttl: nat, t: int, k': Key)
    ensures Lookup(Put(m, now, k, v, ttl), t, k) == (if t < now + ttl then Some(v) else None)
    ensures k' != k ==> Lookup(Put(m, now, k, v, ttl), t, k') == Lookup(m, t, k')
  {
  }

  /** What DEL promises: the key reads as absent at every time; every other
      key reads as before. */
  lemma RemoveHides(m: Entries, k: Key, t: int, k': Key)
    ensures Lookup(Remove(m, k), t, k) == None
    ensures k' != k ==> Lookup(Remove(m, k), t, k') == Lookup(m, t, k')
  {
  }

  /** An entry never comes back by itself: absent at `t` means absent later. */
  lemma ExpiryIsFinal(m: Entries, k: Key, t: int, t': int)
    requires t <= t'
    requires Lookup(m, t, k) == None
    ensures Lookup(m, t', k) == None
  {
  }

  /** Overwriting a key erases every difference the two maps had there. */
  lemma OverwriteForgets(m1: Entries, m2: Entries, k: Key, e: Entry)
    requires SameExcept(m1, m2, {k})
    ensures m1[k := e] == m2[k := e]
  {
    var a, b := m1[k := e], m2[k := e];
    forall k' | k' in a ensures k' in b && a[k'] == b[k'] {
      if k' != k { assert k' in m1 - {k}; }
    }
    forall k' | k' in b ensures k' in a {
      if k' != k { assert k' in m2 - {k}; }
    }
  }

  /** The Redis client object the handlers call. */
  class Redis {
    var entries: Entries
    var now: int

    constructor ()
      ensures entries == map[] && now == 0
    {
      entries := map[];
      now := 0;
    }

    function Get(k: Key): Option<Value>
      reads this
    {
      Lookup(entries, now, k)
    }

    method Set(k: Key, v: Value, ttl: nat)
      modifies this`entries
      ensures entries == Put(old(entries), now, k, v, ttl)
    {
      entries := Put(entries, now, k, v, ttl);
    }

    method Del(k: Key)
      modifies this`entries
      ensures entries == Remove(old(entries), k)
    {
      entries := Remove(entries, k);
    }
  }
}
