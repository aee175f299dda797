/** GET /api/auth/qr (legacy flow): open a pending QR code, no sign-in needed. */
module QrCreateRoute {
  import opened Wrappers
  import opened Store
  import opened Api

  /** How long a legacy QR code, and then its token, stays readable: 2 minutes. */
  const LegacyTtl: nat := 120

  /** The handler's effect at time `now`; `qrId` is the fresh uuid. */
  function Create(m: Entries, now: int, qrId: string): (s: Step)
    ensures s.response == Response(200, QrIssued(qrId))
    ensures forall t | now <= t < now + LegacyTtl :: Lookup(s.entries, t, QrPending(qrId)) == Some(Text("1"))
    ensures forall t | t >= now + LegacyTtl :: Lookup(s.entries, t, QrPending(qrId)) == None
    ensures SameExcept(m, s.entries, {QrPending(qrId)})
    ensures WellFormed(m) ==> WellFormed(s.entries)
  {
    Step(Response(200, QrIssued(qrId)), Put(m, now, QrPending(qrId), Text("1"), LegacyTtl))
  }

  method Get(redis: Redis, qrId: string) returns (r: Response)
    modifies redis`entries
    ensures Step(r, redis.entries) == Create(old(redis.entries), redis.now, qrId)
  {
    redis.Set(QrPending(qrId), Text("1"), LegacyTtl);
    r := Response(200, QrIssued(qrId));
  }
}

/** POST /api/auth/qr/scan (legacy flow): the phone turns a pending code into a token. */
module QrScanRoute {
  import opened Wrappers
  import opened Store
  import opened Api
  import QrCreateRoute

  /** Lifetime of the token scan signs ('1d'). */
  const ScanTokenLifetime: nat := 86400

  /** The payload scan signs: the client-supplied userId, unchecked. */
  function ScanClaims(userId: string): Claims
  {
    Claims(Some(userId), None, None)
  }

  /** The handler's effect at time `now`. */
  function Scan(m: Entries, now: int, jwt: Jwt, qr: string, userId: string): (s: Step)
    ensures s.response.status == 200 <==> Truthy(Lookup(m, now, QrPending(qr)))
    ensures s.response.status != 200 ==> s == Fail(400, "QR expired", m)
    ensures s.response.status == 200 ==>
              var token := jwt.sign(ScanClaims(userId), ScanTokenLifetime, now);
              && s.response.body == ScanAccepted(token)
              && QrPending(qr) !in s.entries
              && (forall t | now <= t < now + QrCreateRoute.LegacyTtl ::
                    Lookup(s.entries, t, QrToken(qr)) == Some(Text(token)))
              && (forall t | t >= now + QrCreateRoute.LegacyTtl :: Lookup(s.entries, t, QrToken(qr)) == None)
              && SameExcept(m, s.entries, {QrPending(qr), QrToken(qr)})
    ensures WellFormed(m) ==> WellFormed(s.entries)
  {
    if !Truthy(Lookup(m, now, QrPending(qr))) then Fail(400, "QR expired", m)
    else
      var token := jwt.sign(ScanClaims(userId), ScanTokenLifetime, now);
      Step(Response(200, ScanAccepted(token)),
           Put(Remove(m, QrPending(qr)), now, QrToken(qr), Text(token), QrCreateRoute.LegacyTtl))
  }

  /** A code scans at most once: the second scan, at any time, fails. */
  lemma ScanConsumesOnce(m: Entries, now: int, later: int, jwt: Jwt, jwt': Jwt, qr: string,
                         userId: string, userId': string)
    requires Scan(m, now, jwt, qr, userId).response.status == 200
    ensures var m' := Scan(m, now, jwt, qr, userId).entries;
            Scan(m', later, jwt', qr, userId') == Fail(400, "QR expired", m')
  {
  }

  method Post(redis: Redis, jwt: Jwt, qr: string, userId: string) returns (r: Response)
    modifies redis`entries
    ensures Step(r, redis.entries) == Scan(old(redis.entries), redis.now, jwt, qr, userId)
  {
    var exists_ := redis.Get(QrPending(qr));
    if !Truthy(exists_) {
      return Response(400, Error("QR expired"));
    }
    var token := jwt.sign(ScanClaims(userId), ScanTokenLifetime, redis.now);
    redis.Del(QrPending(qr));
    redis.Set(QrToken(qr), Text(token), QrCreateRoute.LegacyTtl);
    r := Response(200, ScanAccepted(token));
  }
}

/** GET /api/auth/qr/check (legacy flow): the desktop reads the scanned token. */
module QrCheckRoute {
  import opened Wrappers
  import opened Store
  import opened Api
  import QrCreateRoute
  import QrScanRoute

  /** The handler's answer at time `now`; it only reads. A missing `qr` is "". */
  function Check(m: Entries, now: int, qr: string): (r: Response)
    ensures r.status == 200 && r.body.TokenLookup?
    ensures qr == "" ==> r.body.stored.None?
    ensures qr != "" ==> (r.body.stored.Some? <==> QrToken(qr) in m && now < m[QrToken(qr)].expiresAt)
    ensures r.body.stored.Some? ==> r.body.stored.value == m[QrToken(qr)].value
  {
    if qr == "" then Response(200, TokenLookup(None))
    else Response(200, TokenLookup(Lookup(m, now, QrToken(qr))))
  }

  /** Before any scan, a freshly created code has no token to hand out. */
  lemma NothingBeforeScan(m: Entries, now: int, later: int, qrId: string)
    requires Lookup(m, later, QrToken(qrId)) == None
    ensures Check(QrCreateRoute.Create(m, now, qrId).entries, later, qrId).body.stored == None
  {
  }

  /** After a scan, every check until the token key expires answers the token
      the scan returned: checking consumes nothing. */
  lemma CheckSeesScannedToken(m: Entries, now: int, later: int, jwt: Jwt, qr: string, userId: string)
    requires QrScanRoute.Scan(m, now, jwt, qr, userId).response.status == 200
    requires qr != ""
    requires now <= later < now + QrCreateRoute.LegacyTtl
    ensures var s := QrScanRoute.Scan(m, now, jwt, qr, userId);
            Check(s.entries, later, qr).body.stored == Some(Text(s.response.body.token))
  {
  }

  method Get(redis: Redis, qr: string) returns (r: Response)
    ensures r == Check(redis.entries, redis.now, qr)
  {
    if qr == "" {
      return Response(200, TokenLookup(None));
    }
    var token := redis.Get(QrToken(qr));
    r := Response(200, TokenLookup(token));
  }
}
