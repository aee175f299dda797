/** POST /api/auth/login: password sign-in. */
module LoginRoute {
  import opened Wrappers
  import opened Store
  import opened Api

  /** The handler's effect at time `now`; `passwordMatches(password, hash)`
      stands for the bcrypt comparison. A request without a `password` field
      has `password == None`: bcrypt rejects the missing argument, and the
      catch answers 500. */
  function Login(m: Entries, now: int, users: seq<User>, jwt: Jwt, passwordMatches: (string, string) -> bool,
                 email: string, password: Option<string>): (s: Step)
    ensures s.response.status == 200 <==>
              && FindByEmail(users, email).Some? && password.Some?
              && passwordMatches(password.value, FindByEmail(users, email).value.passwordHash)
    ensures (FindByEmail(users, email).Some? && password.None?) ==> s == Fail(500, "Server error", m)
    ensures (s.response.status != 200 && !(FindByEmail(users, email).Some? && password.None?)) ==>
              s == Fail(401, "Invalid credentials", m)
    ensures s.response.status == 200 ==>
              var u := FindByEmail(users, email).value;
              var token := jwt.sign(UserClaims(u), AccessTokenLifetime, now);
              && u.email == email
              && s.response.body == LoggedIn(token, Profile(u))
              && s.entries == WriteMarker(m, now, u.id, token)
              && (forall t | now <= t < now + SessionTtl :: Lookup(s.entries, t, Session(u.id, token)) == Some(Text("valid")))
              && SameExcept(m, s.entries, {Session(u.id, token)})
    ensures WellFormed(m) ==> WellFormed(s.entries)
  {
    var user := FindByEmail(users, email);
    if user.None? then Fail(401, "Invalid credentials", m)
    else if password.None? then Fail(500, "Server error", m)
    else if !passwordMatches(password.value, user.value.passwordHash) then Fail(401, "Invalid credentials", m)
    else
      var token := jwt.sign(UserClaims(user.value), AccessTokenLifetime, now);
      Step(Response(200, LoggedIn(token, Profile(user.value))), WriteMarker(m, now, user.value.id, token))
  }

  method Post(redis: Redis, users: seq<User>, jwt: Jwt, passwordMatches: (string, string) -> bool,
              email: string, password: Option<string>) returns (r: Response)
    modifies redis`entries
    ensures Step(r, redis.entries) == Login(old(redis.entries), redis.now, users, jwt, passwordMatches, email, password)
  {
    var user := FindByEmail(users, email);
    if user.None? {
      return Response(401, Error("Invalid credentials"));
    }
    if password.None? {
      // bcrypt.compare rejects a missing argument; the catch answers 500
      return Response(500, Error("Server error"));
    }
    var isMatch := passwordMatches(password.value, user.value.passwordHash);
    if !isMatch {
      return Response(401, Error("Invalid credentials"));
    }
    var token := jwt.sign(UserClaims(user.value), AccessTokenLifetime, redis.now);
    redis.Set(Session(user.value.id, token), Text("valid"), SessionTtl);
    r := Response(200, LoggedIn(token, Profile(user.value)));
  }
}
