/** POST /api/auth/qr/claim: a device presents a QR session id and is signed
    in as the user stored in that session, in one call. */
module QrClaimRoute {
  import opened Wrappers
  import opened Store
  import opened Api
  import QrPollRoute

  /** The handler's effect at time `now`. A missing sessionId is "". */
  function Claim(m: Entries, now: int, users: seq<User>, jwt: Jwt, sessionId: string): (s: Step)
    ensures sessionId == "" ==> s == Fail(400, "Missing session ID", m)
    ensures (sessionId != "" && !Truthy(Lookup(m, now, Qr(sessionId)))) ==>
              s == Fail(400, "Invalid or expired QR code", m)
    ensures (sessionId != "" && QrPollRoute.StoredRecord(m, now, sessionId).Some?
             && !Nonblank(QrPollRoute.StoredRecord(m, now, sessionId).value.userId)) ==>
              s == Fail(400, "Invalid session data", m)
    ensures (sessionId != "" && QrPollRoute.StoredRecord(m, now, sessionId).Some?
             && Nonblank(QrPollRoute.StoredRecord(m, now, sessionId).value.userId)
             && QrPollRoute.RecordOwner(users, QrPollRoute.StoredRecord(m, now, sessionId).value).None?) ==>
              s == Fail(404, "User not found", m)
    ensures s.response.status == 200 <==>
              sessionId != "" && QrPollRoute.StoredRecord(m, now, sessionId).Some?
              && Nonblank(QrPollRoute.StoredRecord(m, now, sessionId).value.userId)
              && QrPollRoute.RecordOwner(users, QrPollRoute.StoredRecord(m, now, sessionId).value).Some?
    ensures s.response.status != 200 ==> s.entries == m
    ensures s.response.status == 200 ==>
              var rec := QrPollRoute.StoredRecord(m, now, sessionId).value;
              var u := QrPollRoute.RecordOwner(users, rec).value;
              var token := jwt.sign(UserClaims(u), AccessTokenLifetime, now);
              && rec.userId == Some(u.id)
              && s.response.body == LoggedIn(token, Profile(u))
              && (Session(u.id, token) in s.entries
                  && s.entries[Session(u.id, token)] == Entry(Text("valid"), now + SessionTtl))
              && Qr(sessionId) !in s.entries
              && SameExcept(m, s.entries, {Qr(sessionId), Session(u.id, token)})
    ensures WellFormed(m) ==> WellFormed(s.entries)
  {
    if sessionId == "" then Fail(400, "Missing session ID", m)
    else
      var sessionData := Lookup(m, now, Qr(sessionId));
      if !Truthy(sessionData) then Fail(400, "Invalid or expired QR code", m)
      else if sessionData.value.Text? then Fail(500, "Internal server error", m)
      else
        var rec := sessionData.value.rec;
        if !Nonblank(rec.userId) then Fail(400, "Invalid session data", m)
        else
          var user := FindById(users, rec.userId.value);
          if user.None? then Fail(404, "User not found", m)
          else
            var u := user.value;
            var token := jwt.sign(UserClaims(u), AccessTokenLifetime, now);
            Step(Response(200, LoggedIn(token, Profile(u))),
                 Remove(WriteMarker(m, now, u.id, token), Qr(sessionId)))
  }

  /** A claim never looks at the status: whatever status the record carries,
      the response depends only on the stored owner, and a successful claim
      leaves the same store behind. */
  lemma ClaimIgnoresStatus(m: Entries, now: int, users: seq<User>, jwt: Jwt, sessionId: string,
                           rec: QrRecord, status: QrStatus, ttl: nat)
    ensures var m1 := Put(m, now, Qr(sessionId), Record(rec), ttl);
            var m2 := Put(m, now, Qr(sessionId), Record(rec.(status := status)), ttl);
            && Claim(m1, now, users, jwt, sessionId).response == Claim(m2, now, users, jwt, sessionId).response
            && (Claim(m1, now, users, jwt, sessionId).response.status == 200 ==>
                  Claim(m1, now, users, jwt, sessionId).entries == Claim(m2, now, users, jwt, sessionId).entries)
  {
    var m1 := Put(m, now, Qr(sessionId), Record(rec), ttl);
    var m2 := Put(m, now, Qr(sessionId), Record(rec.(status := status)), ttl);
    if sessionId != "" && ttl > 0 && Nonblank(rec.userId) && FindById(users, rec.userId.value).Some? {
      var u := FindById(users, rec.userId.value).value;
      var token := jwt.sign(UserClaims(u), AccessTokenLifetime, now);
      var k := Qr(sessionId);
      assert Lookup(m1, now, k) == Some(Record(rec));
      assert Lookup(m2, now, k) == Some(Record(rec.(status := status)));
      assert Remove(WriteMarker(m1, now, u.id, token), k) == Remove(WriteMarker(m, now, u.id, token), k) by {
        PutThenRemove(m, now, k, Record(rec), ttl, Session(u.id, token), Entry(Text("valid"), now + SessionTtl));
      }
      assert Remove(WriteMarker(m2, now, u.id, token), k) == Remove(WriteMarker(m, now, u.id, token), k) by {
        PutThenRemove(m, now, k, Record(rec.(status := status)), ttl, Session(u.id, token),
                      Entry(Text("valid"), now + SessionTtl));
      }
    }
  }

  /** Writing `k` and then deleting it is the same as only deleting it. */
  lemma PutThenRemove(m: Entries, now: int, k: Key, v: Value, ttl: nat, k': Key, e: Entry)
    requires k' != k
    ensures Remove(Put(m, now, k, v, ttl)[k' := e], k) == Remove(m[k' := e], k)
  {
    var a, b := Remove(Put(m, now, k, v, ttl)[k' := e], k), Remove(m[k' := e], k);
    assert a.Keys == b.Keys;
  }

  /** At most once: after a successful claim, a second claim with the same id
      fails, at any time, and changes nothing. */
  lemma ClaimConsumesOnce(m: Entries, now: int, later: int, users: seq<User>, users': seq<User>,
                          jwt: Jwt, jwt': Jwt, sessionId: string)
    requires Claim(m, now, users, jwt, sessionId).response.status == 200
    ensures var m' := Claim(m, now, users, jwt, sessionId).entries;
            Claim(m', later, users', jwt', sessionId) == Fail(400, "Invalid or expired QR code", m')
  {
  }

  method Post(redis: Redis, users: seq<User>, jwt: Jwt, sessionId: string) returns (r: Response)
    modifies redis`entries
    ensures Step(r, redis.entries) == Claim(old(redis.entries), redis.now, users, jwt, sessionId)
  {
    if sessionId == "" {
      return Response(400, Error("Missing session ID"));
    }
    var sessionData := redis.Get(Qr(sessionId));
    if !Truthy(sessionData) {
      return Response(400, Error("Invalid or expired QR code"));
    }
    if sessionData.value.Text? {
      return Response(500, Error("Internal server error"));
    }
    var userId := sessionData.value.rec.userId;
    if !Nonblank(userId) {
      return Response(400, Error("Invalid session data"));
    }
    var user := FindById(users, userId.value);
    if user.None? {
      return Response(404, Error("User not found"));
    }
    var token := jwt.sign(UserClaims(user.value), AccessTokenLifetime, redis.now);
    redis.Set(Session(user.value.id, token), Text("valid"), SessionTtl);
    redis.Del(Qr(sessionId));
    r := Response(200, LoggedIn(token, Profile(user.value)));
  }
}
