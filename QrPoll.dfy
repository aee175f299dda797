/** GET /api/auth/qr/poll: the initiator asks how its QR session stands and,
    once it is authenticated, collects the token and the key material. */
module QrPollRoute {
  import opened Wrappers
  import opened Store
  import opened Api

  /** The record under `qr:{sessionId}` at time `now`, if one is there. */
  function StoredRecord(m: Entries, now: int, sessionId: string): (r: Option<QrRecord>)
    ensures r.Some? <==> Lookup(m, now, Qr(sessionId)).Some? && Lookup(m, now, Qr(sessionId)).value.Record?
    ensures r.Some? ==> Lookup(m, now, Qr(sessionId)) == Some(Record(r.value))
  {
    var v := Lookup(m, now, Qr(sessionId));
    if v.Some? && v.value.Record? then Some(v.value.rec) else None
  }

  /** `User.findById(sessionData.userId)`; a record without a user finds nobody. */
  function RecordOwner(users: seq<User>, rec: QrRecord): (r: Option<User>)
    ensures r.Some? ==> r.value in users && rec.userId == Some(r.value.id)
    ensures r.None? <==> rec.userId.None? || forall u | u in users :: u.id != rec.userId.value
  {
    if rec.userId.Some? then FindById(users, rec.userId.value) else None
  }

  /** The payload poll hands over: the user without the name. */
  function PollProfile(u: User): PublicUser
  {
    PublicUser(u.id, None, u.email, u.role)
  }

  /** The handler's effect at time `now`. A string that is not a record under
      a `qr:` key makes `JSON.parse` throw, which the catch turns into 500. */
  function Poll(m: Entries, now: int, users: seq<User>, jwt: Jwt, sessionId: string): (s: Step)
    ensures sessionId == "" ==> s == Fail(400, "Missing sessionId", m)
    ensures (sessionId != "" && !Truthy(Lookup(m, now, Qr(sessionId)))) ==>
              s == Step(Response(200, PollStatus("expired")), m)
    ensures (sessionId != "" && StoredRecord(m, now, sessionId).Some?
             && StoredRecord(m, now, sessionId).value.status == Pending) ==>
              s == Step(Response(200, PollStatus("pending")), m)
    ensures (sessionId != "" && StoredRecord(m, now, sessionId).Some?
             && StoredRecord(m, now, sessionId).value.status !in {Pending, Authenticated}) ==>
              s == Step(Response(200, PollStatus("unknown")), m)
    ensures (sessionId != "" && StoredRecord(m, now, sessionId).Some?
             && StoredRecord(m, now, sessionId).value.status == Authenticated
             && RecordOwner(users, StoredRecord(m, now, sessionId).value).None?) ==>
              s == Fail(404, "User not found", m)
    ensures s.response.body.PollAuthenticated? <==>
              sessionId != "" && StoredRecord(m, now, sessionId).Some?
              && StoredRecord(m, now, sessionId).value.status == Authenticated
              && RecordOwner(users, StoredRecord(m, now, sessionId).value).Some?
    ensures s.response.body.PollAuthenticated? ==>
              var rec := StoredRecord(m, now, sessionId).value;
              var u := RecordOwner(users, rec).value;
              && rec.userId == Some(u.id)
              && s.response == Response(200, PollAuthenticated(PollProfile(u),
                                          jwt.sign(UserClaims(u), AccessTokenLifetime, now),
                                          rec.encryptedPrivateKey))
              && s.entries == Remove(m, Qr(sessionId))
    ensures !s.response.body.PollAuthenticated? ==> s.entries == m
    ensures SameExcept(m, s.entries, {Qr(sessionId)})
    ensures WellFormed(m) ==> WellFormed(s.entries)
  {
    if sessionId == "" then Fail(400, "Missing sessionId", m)
    else
      var sessionData := Lookup(m, now, Qr(sessionId));
      if !Truthy(sessionData) then Step(Response(200, PollStatus("expired")), m)
      else if sessionData.value.Text? then Fail(500, "Internal server error", m)
      else
        var rec := sessionData.value.rec;
        if rec.status == Pending then Step(Response(200, PollStatus("pending")), m)
        else if rec.status == Authenticated then
          var user := RecordOwner(users, rec);
          if user.None? then Fail(404, "User not found", m)
          else
            var token := jwt.sign(UserClaims(user.value), AccessTokenLifetime, now);
            Step(Response(200, PollAuthenticated(PollProfile(user.value), token, rec.encryptedPrivateKey)),
                 Remove(m, Qr(sessionId)))
        else Step(Response(200, PollStatus("unknown")), m)
  }

  /** At most once: after a poll that handed out the token, every later poll
      of the same session, at any time, reports `expired` and changes nothing. */
  lemma PollConsumesOnce(m: Entries, now: int, later: int, users: seq<User>, users': seq<User>,
                         jwt: Jwt, jwt': Jwt, sessionId: string)
    requires Poll(m, now, users, jwt, sessionId).response.body.PollAuthenticated?
    ensures var m' := Poll(m, now, users, jwt, sessionId).entries;
            Poll(m', later, users', jwt', sessionId) == Step(Response(200, PollStatus("expired")), m')
  {
  }

  method Get(redis: Redis, users: seq<User>, jwt: Jwt, sessionId: string) returns (r: Response)
    modifies redis`entries
    ensures Step(r, redis.entries) == Poll(old(redis.entries), redis.now, users, jwt, sessionId)
  {
    if sessionId == "" {
      return Response(400, Error("Missing sessionId"));
    }
    var sessionKey := Qr(sessionId);
    var sessionDataStr := redis.Get(sessionKey);
    if !Truthy(sessionDataStr) {
      return Response(200, PollStatus("expired"));
    }
    if sessionDataStr.value.Text? {
      return Response(500, Error("Internal server error"));
    }
    var sessionData := sessionDataStr.value.rec;
    if sessionData.status == Pending {
      return Response(200, PollStatus("pending"));
    }
    if sessionData.status == Authenticated {
      var user := RecordOwner(users, sessionData);
      if user.None? {
        return Response(404, Error("User not found"));
      }
      var token := jwt.sign(UserClaims(user.value), AccessTokenLifetime, redis.now);
      r := Response(200, PollAuthenticated(PollProfile(user.value), token, sessionData.encryptedPrivateKey));
      redis.Del(sessionKey);
      return;
    }
    r := Response(200, PollStatus("unknown"));
  }
}
