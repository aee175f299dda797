/** Properties of the handlers taken together: the QR handshake end to end,
    expiry of unanswered sessions, and the life of a session marker. */
module Protocol {
  import opened Wrappers
  import opened Store
  import opened Api
  import QrGenerateRoute
  import QrVerifyRoute
  import QrPollRoute
  import QrClaimRoute
  import RefreshRoute
  import LoginRoute
  import LogoutRoute

  /** generate -> verify -> poll within the time windows: poll returns the
      key material exactly as verify received it, a token for the user verify
      named (which replaced the initiator as owner), and consumes the record,
      so a further poll at any time reports expired. */
  lemma HandshakeHandsOverKeyOnce(m: Entries, t0: int, t1: int, t2: int, t3: int, users: seq<User>, jwt: Jwt,
                                  authorization: Option<string>, sessionId: string, userId: string, key: string)
    requires QrGenerateRoute.Generate(m, t0, jwt, authorization, sessionId).response.status == 200
    requires t0 <= t1 < t0 + QrGenerateRoute.PendingTtl
    requires QrVerifyRoute.FieldsPresent(sessionId, userId, key) && FindById(users, userId).Some?
    requires t1 <= t2 < t1 + QrVerifyRoute.AuthenticatedTtl
    ensures var g := QrGenerateRoute.Generate(m, t0, jwt, authorization, sessionId);
            var v := QrVerifyRoute.Verify(g.entries, t1, users, sessionId, userId, key);
            var p := QrPollRoute.Poll(v.entries, t2, users, jwt, sessionId);
            var u := FindById(users, userId).value;
            && v.response == Response(200, Success)
            && p.response == Response(200, PollAuthenticated(QrPollRoute.PollProfile(u),
                                        jwt.sign(UserClaims(u), AccessTokenLifetime, t2), Some(key)))
            && QrPollRoute.Poll(p.entries, t3, users, jwt, sessionId).response == Response(200, PollStatus("expired"))
  {
    var g := QrGenerateRoute.Generate(m, t0, jwt, authorization, sessionId);
    assert Truthy(Lookup(g.entries, t1, Qr(sessionId)));
    var v := QrVerifyRoute.Verify(g.entries, t1, users, sessionId, userId, key);
    assert QrPollRoute.StoredRecord(v.entries, t2, sessionId) == Some(QrRecord(Authenticated, Some(userId), Some(key)));
  }

  /** A session nobody answers within 2 minutes is gone: verify reports it as
      missing and poll as expired, and neither changes the store. */
  lemma UnansweredSessionExpires(m: Entries, t0: int, t: int, users: seq<User>, jwt: Jwt,
                                 authorization: Option<string>, sessionId: string, userId: string, key: string)
    requires QrGenerateRoute.Generate(m, t0, jwt, authorization, sessionId).response.status == 200
    requires t >= t0 + QrGenerateRoute.PendingTtl
    requires QrVerifyRoute.FieldsPresent(sessionId, userId, key)
    ensures var g := QrGenerateRoute.Generate(m, t0, jwt, authorization, sessionId);
            && QrVerifyRoute.Verify(g.entries, t, users, sessionId, userId, key)
                 == Fail(404, "Session expired or invalid", g.entries)
            && QrPollRoute.Poll(g.entries, t, users, jwt, sessionId)
                 == Step(Response(200, PollStatus("expired")), g.entries)
  {
  }

  /** Absent looks the same whatever the cause: a poll of an id that was
      never created, that expired, or that was consumed answers alike. */
  lemma AbsentIsIndistinguishable(m1: Entries, m2: Entries, t1: int, t2: int, users: seq<User>, jwt: Jwt,
                                  sessionId: string)
    requires sessionId != ""
    requires Qr(sessionId) !in m1
    requires Qr(sessionId) in m2 && m2[Qr(sessionId)].expiresAt <= t2
    ensures QrPollRoute.Poll(m1, t1, users, jwt, sessionId).response
         == QrPollRoute.Poll(m2, t2, users, jwt, sessionId).response
         == Response(200, PollStatus("expired"))
  {
  }

  /** In a store every handler keeps well formed, poll and claim never hit
      the parse failure. */
  lemma NoParseFailures(m: Entries, now: int, users: seq<User>, jwt: Jwt, sessionId: string)
    requires WellFormed(m)
    ensures QrPollRoute.Poll(m, now, users, jwt, sessionId).response.status != 500
    ensures QrClaimRoute.Claim(m, now, users, jwt, sessionId).response.status != 500
  {
    var k := Qr(sessionId);
    if k in m { assert m[k].value.Record?; }
  }

  /** A token from login refreshes while its 7-day marker lives. */
  lemma LoginTokenRefreshes(m: Entries, now: int, later: int, users: seq<User>, jwt: Jwt,
                            passwordMatches: (string, string) -> bool, email: string, password: Option<string>)
    requires LoginRoute.Login(m, now, users, jwt, passwordMatches, email, password).response.status == 200
    requires now <= later < now + SessionTtl
    requires var s := LoginRoute.Login(m, now, users, jwt, passwordMatches, email, password);
             && s.response.body.token != ""
             && RefreshRoute.RefreshSubject(jwt, s.response.body.token, later) == Some(FindByEmail(users, email).value.id)
    ensures var s := LoginRoute.Login(m, now, users, jwt, passwordMatches, email, password);
            RefreshRoute.Refresh(s.entries, later, jwt, s.response.body.token).response.status == 200
  {
  }

  /** A token from a QR claim refreshes while its 7-day marker lives. */
  lemma ClaimTokenRefreshes(m: Entries, now: int, later: int, users: seq<User>, jwt: Jwt, sessionId: string)
    requires QrClaimRoute.Claim(m, now, users, jwt, sessionId).response.status == 200
    requires now <= later < now + SessionTtl
    requires var s := QrClaimRoute.Claim(m, now, users, jwt, sessionId);
             && s.response.body.token != ""
             && RefreshRoute.RefreshSubject(jwt, s.response.body.token, later) == Some(s.response.body.user.id)
    ensures var s := QrClaimRoute.Claim(m, now, users, jwt, sessionId);
            RefreshRoute.Refresh(s.entries, later, jwt, s.response.body.token).response.status == 200
  {
  }

  /** After logout, the token no longer refreshes, even an expired token, as
      long as its payload names the same user for both handlers. */
  lemma LogoutRevokesRefresh(m: Entries, later: int, jwt: Jwt, token: string)
    requires RefreshRoute.RefreshSubject(jwt, token, later).Some? ==>
               RefreshRoute.RefreshSubject(jwt, token, later) == LogoutRoute.LogoutSubject(jwt, token)
    ensures RefreshRoute.Refresh(LogoutRoute.Logout(m, jwt, token).entries, later, jwt, token).response.status == 401
  {
  }
}
