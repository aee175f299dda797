/** POST /api/auth/logout: drop the marker of a token. */
module LogoutRoute {
  import opened Wrappers
  import opened Store
  import opened Api

  /** The userId of the unverified payload, if it carries one. */
  function LogoutSubject(jwt: Jwt, token: string): (r: Option<string>)
    ensures r.Some? <==> jwt.decode(token).Some? && Nonblank(jwt.decode(token).value.userId)
    ensures r.Some? ==> r == jwt.decode(token).value.userId && r.value != ""
  {
    var d := jwt.decode(token);
    if d.Some? && Nonblank(d.value.userId) then d.value.userId else None
  }

  /** The handler's effect. A missing token is "". */
  function Logout(m: Entries, jwt: Jwt, token: string): (s: Step)
    ensures token == "" ==> s == Fail(400, "No token provided", m)
    ensures token != "" ==> s.response == Response(200, Success)
    ensures forall k | k in s.entries :: k in m && s.entries[k] == m[k]
    ensures (token != "" && LogoutSubject(jwt, token).Some?) ==>
              && Session(LogoutSubject(jwt, token).value, token) !in s.entries
              && SameExcept(m, s.entries, {Session(LogoutSubject(jwt, token).value, token)})
    ensures LogoutSubject(jwt, token).None? ==> s.entries == m
    ensures WellFormed(m) ==> WellFormed(s.entries)
  {
    if token == "" then Fail(400, "No token provided", m)
    else
      var decoded := LogoutSubject(jwt, token);
      Step(Response(200, Success), if decoded.Some? then Remove(m, Session(decoded.value, token)) else m)
  }

  /** Logging out twice answers the same and the second call changes nothing. */
  lemma LogoutIsIdempotent(m: Entries, jwt: Jwt, token: string)
    ensures var s := Logout(m, jwt, token);
            Logout(s.entries, jwt, token) == s
  {
  }

  method Post(redis: Redis, jwt: Jwt, token: string) returns (r: Response)
    modifies redis`entries
    ensures Step(r, redis.entries) == Logout(old(redis.entries), jwt, token)
  {
    if token == "" {
      return Response(400, Error("No token provided"));
    }
    var decoded := jwt.decode(token);
    if decoded.Some? && Nonblank(decoded.value.userId) {
      redis.Del(Session(decoded.value.userId.value, token));
    }
    r := Response(200, Success);
  }
}
