/** POST /api/auth/qr/generate: the signed-in initiator opens a QR session. */
module QrGenerateRoute {
  import opened Wrappers
  import opened Store
  import opened Api

  /** How long a pending QR session can be scanned: 2 minutes. */
  const PendingTtl: nat := 120

  /** The characters of `s` before its first space. */
  function UpToSpace(s: string): (w: string)
    ensures w <= s && ' ' !in w
    ensures |w| < |s| ==> s[|w|] == ' '
  {
    if s == [] || s[0] == ' ' then [] else [s[0]] + UpToSpace(s[1..])
  }

  /** The characters of `s` after its first space; None when it has none. */
  function AfterSpace(s: string): (r: Option<string>)
    ensures r.None? <==> ' ' !in s
    ensures r.Some? ==> |r.value| < |s|
  {
    if s == [] then None
    else if s[0] == ' ' then Some(s[1..])
    else AfterSpace(s[1..])
  }

  /** `header?.split(" ")[1]`: the second space-separated field of the
      Authorization header, "" when the header or the field is missing. */
  function BearerToken(header: Option<string>): (r: string)
    ensures header.None? ==> r == ""
    ensures ' ' !in r
    ensures r != "" ==> header.Some? && AfterSpace(header.value).Some? && r <= AfterSpace(header.value).value
    ensures header.Some? && AfterSpace(header.value).Some? ==>
              var rest := AfterSpace(header.value).value;
              r <= rest && (|r| < |rest| ==> rest[|r|] == ' ')
  {
    if header.None? then ""
    else match AfterSpace(header.value)
      case None => ""
      case Some(rest) => UpToSpace(rest)
  }

  /** A header `"<scheme> <token>"` yields exactly the token. */
  lemma {:induction false} BearerTokenOfHeader(scheme: string, token: string)
    requires ' ' !in scheme && ' ' !in token
    ensures BearerToken(Some(scheme + " " + token)) == token
  {
    AfterSpaceSkipsWord(scheme, token);
    UpToSpaceWhole(token);
  }

  lemma {:induction false} AfterSpaceSkipsWord(word: string, rest: string)
    requires ' ' !in word
    ensures AfterSpace(word + " " + rest) == Some(rest)
  {
    if word != [] {
      assert (word + " " + rest)[1..] == word[1..] + " " + rest;
      AfterSpaceSkipsWord(word[1..], rest);
    } else {
      assert (word + " " + rest)[1..] == rest;
    }
  }

  lemma {:induction false} UpToSpaceWhole(s: string)
    requires ' ' !in s
    ensures UpToSpace(s) == s
  {
    if s != [] {
      UpToSpaceWhole(s[1..]);
    }
  }

  /** The handler's effect on the store at time `now`; `sessionId` is the fresh uuid. */
  function Generate(m: Entries, now: int, jwt: Jwt, authorization: Option<string>, sessionId: string): (s: Step)
    ensures BearerToken(authorization) == "" ==> s == Fail(401, "Unauthorized", m)
    ensures (BearerToken(authorization) != "" && !jwt.verify(BearerToken(authorization), now).Verified?) ==>
              s == Fail(401, "Invalid token", m)
    ensures s.response.status == 200 <==>
              BearerToken(authorization) != "" && jwt.verify(BearerToken(authorization), now).Verified?
    ensures s.response.status != 200 ==> s.entries == m
    ensures s.response.status == 200 ==>
              && s.response.body == SessionCreated(sessionId)
              && (forall t | now <= t < now + PendingTtl ::
                    Lookup(s.entries, t, Qr(sessionId))
                      == Some(Record(QrRecord(Pending, jwt.verify(BearerToken(authorization), now).claims.userId, None))))
              && (forall t | t >= now + PendingTtl :: Lookup(s.entries, t, Qr(sessionId)) == None)
    ensures SameExcept(m, s.entries, {Qr(sessionId)})
    ensures WellFormed(m) ==> WellFormed(s.entries)
  {
    var token := BearerToken(authorization);
    if token == "" then Fail(401, "Unauthorized", m)
    else
      var decoded := jwt.verify(token, now);
      if !decoded.Verified? then Fail(401, "Invalid token", m)
      else
        Step(Response(200, SessionCreated(sessionId)),
             Put(m, now, Qr(sessionId), Record(QrRecord(Pending, decoded.claims.userId, None)), PendingTtl))
  }

  method Post(redis: Redis, jwt: Jwt, authorization: Option<string>, sessionId: string) returns (r: Response)
    modifies redis`entries
    ensures Step(r, redis.entries) == Generate(old(redis.entries), redis.now, jwt, authorization, sessionId)
  {
    var token := BearerToken(authorization);
    if token == "" {
      return Response(401, Error("Unauthorized"));
    }
    var decoded := jwt.verify(token, redis.now);
    if !decoded.Verified? {
      return Response(401, Error("Invalid token"));
    }
    redis.Set(Qr(sessionId), Record(QrRecord(Pending, decoded.claims.userId, None)), PendingTtl);
    r := Response(200, SessionCreated(sessionId));
  }
}
