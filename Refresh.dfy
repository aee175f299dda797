/** POST /api/auth/refresh: rotate a session token against its marker. */
module RefreshRoute {
  import opened Wrappers
  import opened Store
  import opened Api

  /** The userId the handler goes on with, or None when it answers "Invalid
      token": a verified payload is used as it is; an expired token falls
      back to the unverified decode; every other failure is thrown and caught. */
  function RefreshSubject(jwt: Jwt, token: string, now: int): (r: Option<string>)
    ensures r.Some? ==> r.value != ""
    ensures jwt.verify(token, now).Verified? ==>
              r == (if Nonblank(jwt.verify(token, now).claims.userId) then jwt.verify(token, now).claims.userId else None)
    ensures jwt.verify(token, now).TokenExpired? ==>
              (r.Some? <==> jwt.decode(token).Some? && Nonblank(jwt.decode(token).value.userId))
              && (r.Some? ==> r == jwt.decode(token).value.userId)
    ensures (jwt.verify(token, now).VerifiedText? || jwt.verify(token, now).Rejected?) ==> r.None?
  {
    match jwt.verify(token, now)
    case Verified(c) => if Nonblank(c.userId) then c.userId else None
    case TokenExpired =>
      var d := jwt.decode(token);
      if d.Some? && Nonblank(d.value.userId) then d.value.userId else None
    case VerifiedText => None
    case Rejected => None
  }

  /** The payload of a refreshed token: the userId and nothing else. */
  function RefreshClaims(userId: string): Claims
  {
    Claims(Some(userId), None, None)
  }

  /** The handler's effect at time `now`. A missing token is "". */
  function Refresh(m: Entries, now: int, jwt: Jwt, token: string): (s: Step)
    ensures token == "" ==> s == Fail(401, "No token provided", m)
    ensures (token != "" && RefreshSubject(jwt, token, now).None?) ==> s == Fail(401, "Invalid token", m)
    ensures (token != "" && RefreshSubject(jwt, token, now).Some?
             && !Truthy(Lookup(m, now, Session(RefreshSubject(jwt, token, now).value, token)))) ==>
              s == Fail(401, "Session expired or invalid", m)
    ensures s.response.status == 200 <==>
              token != "" && RefreshSubject(jwt, token, now).Some?
              && Truthy(Lookup(m, now, Session(RefreshSubject(jwt, token, now).value, token)))
    ensures s.response.status != 200 ==> s.response.status == 401 && s.entries == m
    ensures s.response.status == 200 ==>
              var userId := RefreshSubject(jwt, token, now).value;
              var newToken := jwt.sign(RefreshClaims(userId), SessionTtl, now);
              && s.response.body == Refreshed(newToken)
              && (Session(userId, newToken) in s.entries
                  && s.entries[Session(userId, newToken)] == Entry(Text("valid"), now + SessionTtl))
              && (newToken != token ==> Session(userId, token) !in s.entries)
              && SameExcept(m, s.entries, {Session(userId, token), Session(userId, newToken)})
    ensures WellFormed(m) ==> WellFormed(s.entries)
  {
    if token == "" then Fail(401, "No token provided", m)
    else
      var decoded := RefreshSubject(jwt, token, now);
      if decoded.None? then Fail(401, "Invalid token", m)
      else
        var sessionKey := Session(decoded.value, token);
        if !Truthy(Lookup(m, now, sessionKey)) then Fail(401, "Session expired or invalid", m)
        else
          var newToken := jwt.sign(RefreshClaims(decoded.value), SessionTtl, now);
          Step(Response(200, Refreshed(newToken)), WriteMarker(Remove(m, sessionKey), now, decoded.value, newToken))
  }

  /** Rotation: once a token has been refreshed into a different token, the
      old token never refreshes again (as long as it still names the same
      user), whatever its signature says. */
  lemma OldTokenIsRevoked(m: Entries, now: int, later: int, jwt: Jwt, token: string)
    requires Refresh(m, now, jwt, token).response.status == 200
    requires Refresh(m, now, jwt, token).response.body.token != token
    requires RefreshSubject(jwt, token, later).Some? ==>
               RefreshSubject(jwt, token, later) == RefreshSubject(jwt, token, now)
    ensures Refresh(Refresh(m, now, jwt, token).entries, later, jwt, token).response.status == 401
  {
  }

  /** The new token refreshes in turn for the 7 days its marker lives,
      provided its payload names the same user. */
  lemma NewTokenRefreshes(m: Entries, now: int, later: int, jwt: Jwt, token: string)
    requires Refresh(m, now, jwt, token).response.status == 200
    requires now <= later < now + SessionTtl
    requires Refresh(m, now, jwt, token).response.body.token != ""
    requires RefreshSubject(jwt, Refresh(m, now, jwt, token).response.body.token, later)
          == RefreshSubject(jwt, token, now)
    ensures var s := Refresh(m, now, jwt, token);
            Refresh(s.entries, later, jwt, s.response.body.token).response.status == 200
  {
  }

  /** If the signer returned the old token again, the delete-then-set would
      leave the very same marker in place and the old token would keep
      refreshing: the rotation depends on the new token being fresh. */
  lemma SameTokenIsNotRevoked(m: Entries, now: int, jwt: Jwt, token: string)
    requires Refresh(m, now, jwt, token).response.status == 200
    requires Refresh(m, now, jwt, token).response.body.token == token
    ensures Refresh(Refresh(m, now, jwt, token).entries, now, jwt, token).response.status == 200
  {
  }

  method Post(redis: Redis, jwt: Jwt, token: string) returns (r: Response)
    modifies redis`entries
    ensures Step(r, redis.entries) == Refresh(old(redis.entries), redis.now, jwt, token)
  {
    if token == "" {
      return Response(401, Error("No token provided"));
    }
    var decoded: Option<string>;
    match jwt.verify(token, redis.now) {
      case Verified(c) =>
        decoded := c.userId;
      case TokenExpired =>
        var d := jwt.decode(token);
        decoded := if d.Some? then d.value.userId else None;
      case VerifiedText =>
        decoded := None;
      case Rejected =>
        // jwt.verify throws, the error is rethrown and the outer catch answers
        return Response(401, Error("Invalid token"));
    }
    if !Nonblank(decoded) {
      return Response(401, Error("Invalid token"));
    }
    var sessionKey := Session(decoded.value, token);
    var isValid := redis.Get(sessionKey);
    if !Truthy(isValid) {
      return Response(401, Error("Session expired or invalid"));
    }
    var newToken := jwt.sign(RefreshClaims(decoded.value), SessionTtl, redis.now);
    redis.Del(sessionKey);
    redis.Set(Session(decoded.value, newToken), Text("valid"), SessionTtl);
    r := Response(200, Refreshed(newToken));
  }
}
