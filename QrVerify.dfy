/** POST /api/auth/qr/verify: the claimant attaches its user and key material to a QR session. */
module QrVerifyRoute {
  import opened Wrappers
  import opened Store
  import opened Api

  /** How long an authenticated record waits for the initiator's poll: 60 seconds. */
  const AuthenticatedTtl: nat := 60

  /** The record verify stores: status authenticated, the supplied user and key. */
  function AuthenticatedRecord(userId: string, encryptedPrivateKey: string): Value
  {
    Record(QrRecord(Authenticated, Some(userId), Some(encryptedPrivateKey)))
  }

  /** The request passes the field check: none of the three is missing or empty. */
  predicate FieldsPresent(sessionId: string, userId: string, encryptedPrivateKey: string)
  {
    sessionId != "" && userId != "" && encryptedPrivateKey != ""
  }

  /** The handler's effect at time `now`. A missing body field is "". */
  function Verify(m: Entries, now: int, users: seq<User>, sessionId: string, userId: string,
                  encryptedPrivateKey: string): (s: Step)
    ensures !FieldsPresent(sessionId, userId, encryptedPrivateKey) ==> s == Fail(400, "Missing fields", m)
    ensures (FieldsPresent(sessionId, userId, encryptedPrivateKey) && !Truthy(Lookup(m, now, Qr(sessionId)))) ==>
              s == Fail(404, "Session expired or invalid", m)
    ensures (FieldsPresent(sessionId, userId, encryptedPrivateKey) && Truthy(Lookup(m, now, Qr(sessionId)))
             && FindById(users, userId).None?) ==>
              s == Fail(404, "User not found", m)
    ensures s.response.status == 200 <==>
              FieldsPresent(sessionId, userId, encryptedPrivateKey)
              && Truthy(Lookup(m, now, Qr(sessionId))) && FindById(users, userId).Some?
    ensures s.response.status != 200 ==> s.entries == m
    ensures s.response.status == 200 ==>
              && s.response.body == Success
              && (forall t | now <= t < now + AuthenticatedTtl ::
                    Lookup(s.entries, t, Qr(sessionId)) == Some(AuthenticatedRecord(userId, encryptedPrivateKey)))
              && (forall t | t >= now + AuthenticatedTtl :: Lookup(s.entries, t, Qr(sessionId)) == None)
    ensures SameExcept(m, s.entries, {Qr(sessionId)})
    ensures WellFormed(m) ==> WellFormed(s.entries)
  {
    if !FieldsPresent(sessionId, userId, encryptedPrivateKey) then Fail(400, "Missing fields", m)
    else if !Truthy(Lookup(m, now, Qr(sessionId))) then Fail(404, "Session expired or invalid", m)
    else if FindById(users, userId).None? then Fail(404, "User not found", m)
    else Step(Response(200, Success),
              Put(m, now, Qr(sessionId), AuthenticatedRecord(userId, encryptedPrivateKey), AuthenticatedTtl))
  }

  /** Verify looks only at whether the record is there, never at what it holds:
      two stores that differ only in the (present) record at `qr:{sessionId}`
      give the same response and the same store afterwards. In particular a
      record that is already authenticated is overwritten again, and the
      owner stored by generate is replaced by the supplied userId. */
  lemma VerifyIgnoresRecordContents(m1: Entries, m2: Entries, now: int, users: seq<User>,
                                    sessionId: string, userId: string, encryptedPrivateKey: string)
    requires SameExcept(m1, m2, {Qr(sessionId)})
    requires Truthy(Lookup(m1, now, Qr(sessionId))) && Truthy(Lookup(m2, now, Qr(sessionId)))
    ensures Verify(m1, now, users, sessionId, userId, encryptedPrivateKey).response
         == Verify(m2, now, users, sessionId, userId, encryptedPrivateKey).response
    ensures (FieldsPresent(sessionId, userId, encryptedPrivateKey) && FindById(users, userId).Some?) ==>
              (Verify(m1, now, users, sessionId, userId, encryptedPrivateKey).entries
               == Verify(m2, now, users, sessionId, userId, encryptedPrivateKey).entries)
  {
    if FieldsPresent(sessionId, userId, encryptedPrivateKey) && FindById(users, userId).Some? {
      var k := Qr(sessionId);
      var e := Entry(AuthenticatedRecord(userId, encryptedPrivateKey), now + AuthenticatedTtl);
      OverwriteForgets(m1, m2, k, e);
    }
  }

  method Post(redis: Redis, users: seq<User>, sessionId: string, userId: string, encryptedPrivateKey: string)
    returns (r: Response)
    modifies redis`entries
    ensures Step(r, redis.entries) == Verify(old(redis.entries), redis.now, users, sessionId, userId, encryptedPrivateKey)
  {
    if sessionId == "" || userId == "" || encryptedPrivateKey == "" {
      return Response(400, Error("Missing fields"));
    }
    var sessionKey := Qr(sessionId);
    var sessionData := redis.Get(sessionKey);
    if !Truthy(sessionData) {
      return Response(404, Error("Session expired or invalid"));
    }
    var user := FindById(users, userId);
    if user.None? {
      return Response(404, Error("User not found"));
    }
    redis.Set(sessionKey, AuthenticatedRecord(userId, encryptedPrivateKey), AuthenticatedTtl);
    r := Response(200, Success);
  }
}
