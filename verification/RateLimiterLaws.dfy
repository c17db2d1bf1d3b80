/** What the limiter does over whole runs of requests. */
module RateLimiterLaws {
  import opened Common
  import opened RateLimiter

  datatype Request = Request(now: real, ip: Ip, victim: Option<Ip>)

  function EmptyLimiter(): Limiter { Limiter(map[], 0, 0, 0) }

  predicate Run(l: Limiter, from: real, reqs: seq<Request>, cfg: Config)
    decreases |reqs|
  {
    reqs == [] ||
    (var r := reqs[0];
     && from <= r.now && Allowed(l, r.now, r.ip, r.victim, cfg)
     && Run(After(l, r.now, r.ip, r.victim, cfg), r.now, reqs[1..], cfg))
  }

  function Final(l: Limiter, reqs: seq<Request>, cfg: Config): Limiter
    decreases |reqs|
  {
    if reqs == [] then l else Final(Next(l, reqs[0], cfg), reqs[1..], cfg)
  }

  function Next(l: Limiter, r: Request, cfg: Config): Limiter { After(l, r.now, r.ip, r.victim, cfg) }

  function Granted(l: Limiter, r: Request, cfg: Config): bool { Decision(l, r.now, r.ip, r.victim, cfg) }

  function Decisions(l: Limiter, reqs: seq<Request>, cfg: Config): seq<bool>
    decreases |reqs|
  {
    if reqs == [] then [] else [Granted(l, reqs[0], cfg)] + Decisions(Next(l, reqs[0], cfg), reqs[1..], cfg)
  }

  // ---- what every request keeps -------------------------------------------------------------

  predicate BucketOk(b: Bucket, now: real, cfg: Config) {
    0.0 <= b.tokens <= cfg.capacity as real && b.lastRefill == b.lastTouch <= now
  }

  predicate Valid(l: Limiter, now: real, cfg: Config) {
    && (forall ip :: ip in l.table ==> BucketOk(l.table[ip], now, cfg))
    && (cfg.maxTracked > 0 ==> |l.table| <= cfg.maxTracked)
  }

  lemma RefillBounds(b: Bucket, now: real, cfg: Config)
    requires BucketOk(b, now, cfg) && Enabled(cfg)
    ensures b.tokens <= Refilled(b, now, cfg) <= cfg.capacity as real
  {
    assert Since(b.lastRefill, now) * cfg.refill as real >= 0.0;
  }

  lemma InsertSize(table: Table, ip: Ip, b: Bucket)
    ensures |table[ip := b]| == |table| + if ip in table then 0 else 1
  {
    assert table[ip := b].Keys == table.Keys + {ip};
    assert |table[ip := b]| == |table[ip := b].Keys| && |table| == |table.Keys|;
  }

  lemma RemoveSize(table: Table, ip: Ip)
    requires ip in table
    ensures |table - {ip}| == |table| - 1
  {
    assert (table - {ip}).Keys == table.Keys - {ip};
    assert |table - {ip}| == |(table - {ip}).Keys| && |table| == |table.Keys|;
  }

  lemma RoomySize(l: Limiter, now: real, ip: Ip, victim: Option<Ip>, cfg: Config)
    requires Allowed(l, now, ip, victim, cfg)
    ensures |Roomy(l, now, victim, cfg)| + (if victim.Some? then 1 else 0) == |Kept(l.table, now, cfg)|
  {
    if victim.Some? { RemoveSize(Kept(l.table, now, cfg), victim.value); }
  }

  lemma SizeStep(l: Limiter, now: real, ip: Ip, victim: Option<Ip>, cfg: Config)
    requires Allowed(l, now, ip, victim, cfg) && (cfg.maxTracked > 0 ==> |l.table| <= cfg.maxTracked)
    ensures cfg.maxTracked > 0 ==> |After(l, now, ip, victim, cfg).table| <= cfg.maxTracked
  {
    KeptShrinks(l.table, now, cfg);
    RoomySize(l, now, ip, victim, cfg);
    var room := Roomy(l, now, victim, cfg);
    InsertSize(room, ip, Spend(room, ip, now, cfg)[ip]);
  }

  lemma BucketsStep(l: Limiter, from: real, now: real, ip: Ip, victim: Option<Ip>, cfg: Config)
    requires Enabled(cfg) && Valid(l, from, cfg) && from <= now && Allowed(l, now, ip, victim, cfg)
    ensures forall x :: x in After(l, now, ip, victim, cfg).table ==> BucketOk(After(l, now, ip, victim, cfg).table[x], now, cfg)
  {
    var room := Roomy(l, now, victim, cfg);
    if ip in room { RefillBounds(room[ip], now, cfg); }
  }

  lemma ValidStep(l: Limiter, from: real, r: Request, cfg: Config)
    requires Enabled(cfg) && Valid(l, from, cfg) && from <= r.now && Allowed(l, r.now, r.ip, r.victim, cfg)
    ensures Valid(Next(l, r, cfg), r.now, cfg)
  {
    BucketsStep(l, from, r.now, r.ip, r.victim, cfg);
    SizeStep(l, r.now, r.ip, r.victim, cfg);
  }

  function EndTime(from: real, reqs: seq<Request>): real {
    if reqs == [] then from else reqs[|reqs| - 1].now
  }

  /** In every run all buckets stay within bounds and the table never outgrows the cap. */
  lemma {:induction false} RunValid(l: Limiter, from: real, reqs: seq<Request>, cfg: Config)
    requires Enabled(cfg) && Valid(l, from, cfg) && Run(l, from, reqs, cfg)
    ensures Valid(Final(l, reqs, cfg), EndTime(from, reqs), cfg)
    decreases |reqs|
  {
    if reqs != [] {
      ValidStep(l, from, reqs[0], cfg);
      RunValid(Next(l, reqs[0], cfg), reqs[0].now, reqs[1..], cfg);
    }
  }

  lemma {:induction false} RunSplit(l: Limiter, from: real, a: seq<Request>, b: seq<Request>, cfg: Config)
    requires Run(l, from, a + b, cfg)
    ensures Run(l, from, a, cfg) && Run(Final(l, a, cfg), EndTime(from, a), b, cfg)
    decreases |a|
  {
    if a == [] {
      assert a + b == b;
    } else {
      assert (a + b)[1..] == a[1..] + b;
      RunSplit(Next(l, a[0], cfg), a[0].now, a[1..], b, cfg);
    }
  }

  // ---- accounting ---------------------------------------------------------------------------

  function Inserts(l: Limiter, r: Request, cfg: Config): nat {
    if CapRefused(l, r.now, r.ip, cfg) || r.ip in Kept(l.table, r.now, cfg) then 0 else 1
  }

  function Inserted(l: Limiter, reqs: seq<Request>, cfg: Config): nat
    decreases |reqs|
  {
    if reqs == [] then 0 else Inserts(l, reqs[0], cfg) + Inserted(Next(l, reqs[0], cfg), reqs[1..], cfg)
  }

  function Accounted(l: Limiter): nat { |l.table| + l.idle + l.lru }

  lemma AccountStep(l: Limiter, r: Request, cfg: Config)
    requires Allowed(l, r.now, r.ip, r.victim, cfg)
    ensures Accounted(Next(l, r, cfg)) == Accounted(l) + Inserts(l, r, cfg)
  {
    KeptShrinks(l.table, r.now, cfg);
    RoomySize(l, r.now, r.ip, r.victim, cfg);
    var room := Roomy(l, r.now, r.victim, cfg);
    InsertSize(room, r.ip, Spend(room, r.ip, r.now, cfg)[r.ip]);
  }

  /** Every bucket ever inserted is still tracked, idled out, or was evicted at the cap. */
  lemma {:induction false} BucketsAccounted(l: Limiter, from: real, reqs: seq<Request>, cfg: Config)
    requires Run(l, from, reqs, cfg)
    ensures Accounted(l) + Inserted(l, reqs, cfg) == Accounted(Final(l, reqs, cfg))
    decreases |reqs|
  {
    if reqs != [] {
      AccountStep(l, reqs[0], cfg);
      BucketsAccounted(Next(l, reqs[0], cfg), reqs[0].now, reqs[1..], cfg);
    }
  }

  /** Requests at which the full table gave up a bucket. */
  function Evictions(reqs: seq<Request>): nat {
    if reqs == [] then 0 else (if reqs[0].victim.Some? then 1 else 0) + Evictions(reqs[1..])
  }

  /** Requests refused because the table was full of throttled buckets. */
  function Refusals(l: Limiter, reqs: seq<Request>, cfg: Config): nat
    decreases |reqs|
  {
    if reqs == [] then 0
    else (if CapRefused(l, reqs[0].now, reqs[0].ip, cfg) then 1 else 0) + Refusals(Next(l, reqs[0], cfg), reqs[1..], cfg)
  }

  /** Each statistic counts its own events: cap evictions, cap refusals, and for the rest idle evictions. */
  lemma {:induction false} StatisticsCount(l: Limiter, from: real, reqs: seq<Request>, cfg: Config)
    requires Run(l, from, reqs, cfg)
    ensures var f := Final(l, reqs, cfg);
      && f.lru == l.lru + Evictions(reqs) && f.refused == l.refused + Refusals(l, reqs, cfg)
      && f.idle == l.idle + (|l.table| + Inserted(l, reqs, cfg) - |f.table| - Evictions(reqs))
    decreases |reqs|
  {
    BucketsAccounted(l, from, reqs, cfg);
    if reqs != [] {
      StatisticsCount(Next(l, reqs[0], cfg), reqs[0].now, reqs[1..], cfg);
    }
  }

  lemma SingleTokenStep(l: Limiter, from: real, r: Request, cfg: Config)
    requires Enabled(cfg) && cfg.capacity == 1 && Valid(l, from, cfg) && AllThrottled(l.table)
    requires from <= r.now && Allowed(l, r.now, r.ip, r.victim, cfg)
    ensures r.victim.None? && AllThrottled(Next(l, r, cfg).table)
    ensures CapRefused(l, r.now, r.ip, cfg) <==> NeedsRoom(Kept(l.table, r.now, cfg), r.ip, cfg)
  {
    assert AllThrottled(Kept(l.table, r.now, cfg));
    var room := Roomy(l, r.now, r.victim, cfg);
    if r.ip in room { RefillBounds(room[r.ip], r.now, cfg); }
  }

  /**
   With a burst of one, every stored bucket stays below a token, so no bucket is ever evicted at the
   cap: a full table takes a new address only after some bucket idles out.
   */
  lemma {:induction false} BurstOfOneNeverEvicts(l: Limiter, from: real, reqs: seq<Request>, cfg: Config)
    requires Enabled(cfg) && cfg.capacity == 1 && Valid(l, from, cfg) && AllThrottled(l.table) && Run(l, from, reqs, cfg)
    ensures Final(l, reqs, cfg).lru == l.lru && AllThrottled(Final(l, reqs, cfg).table)
    ensures forall i :: 0 <= i < |reqs| ==> reqs[i].victim.None?
    decreases |reqs|
  {
    if reqs != [] {
      var r := reqs[0];
      SingleTokenStep(l, from, r, cfg);
      ValidStep(l, from, r, cfg);
      BurstOfOneNeverEvicts(Next(l, r, cfg), r.now, reqs[1..], cfg);
    }
  }

  // ---- the admission bound ------------------------------------------------------------------

  predicate TtlRefills(cfg: Config) { cfg.refill * cfg.ttl >= cfg.capacity }

  function Admits(l: Limiter, r: Request, ip: Ip, cfg: Config): nat {
    if r.ip == ip && Granted(l, r, cfg) then 1 else 0
  }

  function Admitted(l: Limiter, reqs: seq<Request>, ip: Ip, cfg: Config): nat
    decreases |reqs|
  {
    if reqs == [] then 0 else Admits(l, reqs[0], ip, cfg) + Admitted(Next(l, reqs[0], cfg), reqs[1..], ip, cfg)
  }

  function EvictionsOf(reqs: seq<Request>, ip: Ip): nat {
    if reqs == [] then 0 else (if reqs[0].victim == Some(ip) then 1 else 0) + EvictionsOf(reqs[1..], ip)
  }

  lemma IdleMeansFull(b: Bucket, now: real, cfg: Config)
    requires Enabled(cfg) && TtlRefills(cfg) && BucketOk(b, now, cfg) && Since(b.lastTouch, now) >= cfg.ttl as real
    ensures Refilled(b, now, cfg) == cfg.capacity as real
  {
    Scale(cfg.ttl as real, Since(b.lastTouch, now), cfg.refill as real);
    assert (cfg.refill * cfg.ttl) as real == cfg.ttl as real * cfg.refill as real;
  }

  lemma Scale(a: real, b: real, k: real)
    requires a <= b && k >= 0.0
    ensures a * k <= b * k
  {
    assert (b - a) * k >= 0.0;
  }

  /** The tokens an address could spend now, against what it can spend after the request. */
  lemma PotentialStep(l: Limiter, from: real, r: Request, ip: Ip, cfg: Config)
    requires Enabled(cfg) && TtlRefills(cfg) && Valid(l, from, cfg) && from <= r.now && Allowed(l, r.now, r.ip, r.victim, cfg)
    ensures Admits(l, r, ip, cfg) as real + Available(Next(l, r, cfg).table, ip, r.now, cfg)
         <= Available(l.table, ip, r.now, cfg) + if r.victim == Some(ip) then (cfg.capacity - 1) as real else 0.0
  {
    if ip in l.table {
      RefillBounds(l.table[ip], r.now, cfg);
      if ip !in Kept(l.table, r.now, cfg) { IdleMeansFull(l.table[ip], r.now, cfg); }
    }
  }

  lemma PotentialGrowth(l: Limiter, from: real, now: real, later: real, ip: Ip, cfg: Config)
    requires Enabled(cfg) && Valid(l, from, cfg) && from <= now <= later
    ensures Available(l.table, ip, later, cfg) <= Available(l.table, ip, now, cfg) + (later - now) * cfg.refill as real
  {
    var gain := Product(later - now, cfg.refill as real);
    if ip in l.table {
      var b := l.table[ip];
      var early := Product(now - b.lastRefill, cfg.refill as real);
      Distribute(now - b.lastRefill, later - now, cfg.refill as real);
      assert Refilled(b, later, cfg) == Min(b.tokens + (early + gain), cfg.capacity as real);
    }
  }

  lemma Product(a: real, k: real) returns (p: real)
    requires a >= 0.0 && k >= 0.0
    ensures p == a * k >= 0.0
  {
    p := a * k;
  }

  lemma Distribute(a: real, b: real, k: real)
    ensures (a + b) * k == a * k + b * k
  {
  }

  function Gap(a: Request, b: Request, cfg: Config): real { (b.now - a.now) * cfg.refill as real }

  function Forgiven(r: Request, ip: Ip, cfg: Config): real
    requires cfg.capacity >= 1
  {
    if r.victim == Some(ip) then (cfg.capacity - 1) as real else 0.0
  }

  /** Tokens an address gains over a run: the refill between requests and what evictions forgive. */
  function Gained(reqs: seq<Request>, ip: Ip, cfg: Config): real
    requires reqs != [] && cfg.capacity >= 1
  {
    Forgiven(reqs[0], ip, cfg) +
    if |reqs| == 1 then 0.0 else Gap(reqs[0], reqs[1], cfg) + Gained(reqs[1..], ip, cfg)
  }

  lemma {:induction false} GainedTotal(reqs: seq<Request>, ip: Ip, cfg: Config)
    requires reqs != [] && cfg.capacity >= 1
    ensures Gained(reqs, ip, cfg) == Gap(reqs[0], reqs[|reqs| - 1], cfg) + (cfg.capacity - 1) as real * EvictionsOf(reqs, ip) as real
    decreases |reqs|
  {
    var rest, spare := reqs[1..], (cfg.capacity - 1) as real;
    if rest == [] {
      assert EvictionsOf(rest, ip) == 0;
    } else {
      GainedTotal(rest, ip, cfg);
      assert rest[|rest| - 1] == reqs[|reqs| - 1];
      GapsAdd(reqs[0], rest[0], reqs[|reqs| - 1], cfg);
      var k := EvictionsOf(rest, ip) as real;
      assert spare * (k + 1.0) == spare * k + spare;
    }
  }

  lemma GapsAdd(a: Request, b: Request, c: Request, cfg: Config)
    ensures Gap(a, b, cfg) + Gap(b, c, cfg) == Gap(a, c, cfg)
  {
    var x, y, z, k := a.now, b.now, c.now, cfg.refill as real;
    assert (y - x) * k + (z - y) * k == (z - x) * k;
  }

  lemma GapGrowth(l: Limiter, a: Request, b: Request, ip: Ip, cfg: Config)
    requires Enabled(cfg) && Valid(l, a.now, cfg) && a.now <= b.now
    ensures Available(l.table, ip, b.now, cfg) <= Available(l.table, ip, a.now, cfg) + Gap(a, b, cfg)
  {
    PotentialGrowth(l, a.now, a.now, b.now, ip, cfg);
  }

  lemma {:induction false} PotentialRun(l: Limiter, from: real, reqs: seq<Request>, ip: Ip, cfg: Config)
    requires Enabled(cfg) && TtlRefills(cfg) && Valid(l, from, cfg) && Run(l, from, reqs, cfg) && reqs != []
    ensures Admitted(l, reqs, ip, cfg) as real <= Available(l.table, ip, reqs[0].now, cfg) + Gained(reqs, ip, cfg)
    decreases |reqs|
  {
    var r, rest := reqs[0], reqs[1..];
    var l' := Next(l, r, cfg);
    ValidStep(l, from, r, cfg);
    PotentialStep(l, from, r, ip, cfg);
    if rest == [] {
      if ip in l'.table { RefillBounds(l'.table[ip], r.now, cfg); }
    } else {
      PotentialRun(l', r.now, rest, ip, cfg);
      GapGrowth(l', r, rest[0], ip, cfg);
    }
  }

  lemma AvailableAtMostFull(l: Limiter, from: real, now: real, ip: Ip, cfg: Config)
    requires Enabled(cfg) && Valid(l, from, cfg) && from <= now
    ensures 0.0 <= Available(l.table, ip, now, cfg) <= cfg.capacity as real
  {
    if ip in l.table { RefillBounds(l.table[ip], now, cfg); }
  }

  /**
   The admission bound. In any window of any run, one address is admitted at most capacity + refill x
   (length of the window) times, plus capacity - 1 for each time the full table evicted its bucket.
   */
  lemma AdmissionBound(before: seq<Request>, window: seq<Request>, ip: Ip, cfg: Config)
    requires Enabled(cfg) && TtlRefills(cfg) && Run(EmptyLimiter(), 0.0, before + window, cfg) && window != []
    ensures Admitted(Final(EmptyLimiter(), before, cfg), window, ip, cfg) as real
         <= cfg.capacity as real + Gap(window[0], window[|window| - 1], cfg)
          + (cfg.capacity - 1) as real * EvictionsOf(window, ip) as real
  {
    var l, from := Final(EmptyLimiter(), before, cfg), EndTime(0.0, before);
    RunSplit(EmptyLimiter(), 0.0, before, window, cfg);
    RunValid(EmptyLimiter(), 0.0, before, cfg);
    PotentialRun(l, from, window, ip, cfg);
    GainedTotal(window, ip, cfg);
    AvailableAtMostFull(l, from, window[0].now, ip, cfg);
  }

  // ---- against the ideal bucket -------------------------------------------------------------

  /** The same requests against buckets that are never forgotten. */
  function IdealDecisions(table: Table, reqs: seq<Request>, cfg: Config): seq<bool>
    decreases |reqs|
  {
    if reqs == [] then []
    else var r := reqs[0];
      [Available(table, r.ip, r.now, cfg) >= 1.0] + IdealDecisions(Spend(table, r.ip, r.now, cfg), reqs[1..], cfg)
  }

  predicate TimeOrdered(from: real, reqs: seq<Request>)
    decreases |reqs|
  {
    reqs == [] || (from <= reqs[0].now && reqs[0].victim.None? && TimeOrdered(reqs[0].now, reqs[1..]))
  }

  /** What the limiter forgot is full again; what it remembers is exact. */
  predicate Shadows(table: Table, ideal: Table, now: real, cfg: Config) {
    && (forall ip :: ip in ideal ==> BucketOk(ideal[ip], now, cfg))
    && (forall ip :: ip in table ==> ip in ideal && table[ip] == ideal[ip])
    && (forall ip :: ip in ideal && ip !in table ==> Refilled(ideal[ip], now, cfg) == cfg.capacity as real)
  }

  lemma StaysFull(b: Bucket, now: real, later: real, cfg: Config)
    requires Enabled(cfg) && BucketOk(b, now, cfg) && now <= later && Refilled(b, now, cfg) == cfg.capacity as real
    ensures Refilled(b, later, cfg) == cfg.capacity as real
  {
    var early, late, k := now - b.lastRefill, later - b.lastRefill, cfg.refill as real;
    Scale(early, late, k);
    assert Since(b.lastRefill, now) == early && Since(b.lastRefill, later) == late;
    assert Refilled(b, now, cfg) == Min(b.tokens + early * k, cfg.capacity as real);
    assert Refilled(b, later, cfg) == Min(b.tokens + late * k, cfg.capacity as real);
  }

  lemma ShadowsLater(table: Table, ideal: Table, now: real, later: real, cfg: Config)
    requires Enabled(cfg) && TtlRefills(cfg) && Shadows(table, ideal, now, cfg) && now <= later
    ensures Shadows(Kept(table, later, cfg), ideal, later, cfg)
  {
    forall ip | ip in ideal && ip !in Kept(table, later, cfg)
      ensures Refilled(ideal[ip], later, cfg) == cfg.capacity as real
    {
      if ip in table { IdleMeansFull(ideal[ip], later, cfg); } else { StaysFull(ideal[ip], now, later, cfg); }
    }
  }

  lemma ShadowsSpend(table: Table, ideal: Table, now: real, ip: Ip, cfg: Config)
    requires Enabled(cfg) && Shadows(table, ideal, now, cfg)
    ensures Available(table, ip, now, cfg) == Available(ideal, ip, now, cfg)
    ensures Shadows(Spend(table, ip, now, cfg), Spend(ideal, ip, now, cfg), now, cfg)
  {
    if ip in ideal { RefillBounds(ideal[ip], now, cfg); }
  }

  lemma {:induction false} ShadowRun(l: Limiter, ideal: Table, from: real, reqs: seq<Request>, cfg: Config)
    requires Enabled(cfg) && TtlRefills(cfg) && cfg.maxTracked == 0
    requires Shadows(l.table, ideal, from, cfg) && TimeOrdered(from, reqs)
    ensures Decisions(l, reqs, cfg) == IdealDecisions(ideal, reqs, cfg)
    decreases |reqs|
  {
    if reqs != [] {
      var r := reqs[0];
      ShadowsLater(l.table, ideal, from, r.now, cfg);
      ShadowsSpend(Kept(l.table, r.now, cfg), ideal, r.now, r.ip, cfg);
      ShadowRun(Next(l, r, cfg), Spend(ideal, r.ip, r.now, cfg), r.now, reqs[1..], cfg);
    }
  }

  // ---- and when it does not agree -----------------------------------------------------------

  function Burst(now: real, k: nat): seq<Request> {
    if k == 0 then [] else [Request(now, 0, None)] + Burst(now, k - 1)
  }

  /** What the limiter will grant address 0 at `now`, after its idle pass. */
  function Offer(l: Limiter, now: real, cfg: Config): real { Available(Kept(l.table, now, cfg), 0, now, cfg) }

  lemma OfferStep(l: Limiter, now: real, cfg: Config)
    requires Enabled(cfg) && cfg.maxTracked == 0 && Offer(l, now, cfg) >= 1.0
    ensures var r := Request(now, 0, None);
      && Granted(l, r, cfg) && 0 in Next(l, r, cfg).table && Next(l, r, cfg).table[0].lastTouch == now
      && (Offer(Next(l, r, cfg), now, cfg) == cfg.capacity as real
          || Offer(Next(l, r, cfg), now, cfg) == Min(Offer(l, now, cfg) - 1.0, cfg.capacity as real))
  {
  }

  lemma {:induction false} BurstGranted(l: Limiter, now: real, k: nat, cfg: Config)
    requires Enabled(cfg) && cfg.maxTracked == 0 && k as real <= Offer(l, now, cfg) && k <= cfg.capacity
    ensures |Decisions(l, Burst(now, k), cfg)| == k
    ensures forall i :: 0 <= i < k ==> Decisions(l, Burst(now, k), cfg)[i]
    ensures k > 0 ==> 0 in Final(l, Burst(now, k), cfg).table && Final(l, Burst(now, k), cfg).table[0].lastTouch == now
    decreases k
  {
    if k > 0 {
      var r := Request(now, 0, None);
      assert Burst(now, k)[1..] == Burst(now, k - 1);
      OfferStep(l, now, cfg);
      BurstGranted(Next(l, r, cfg), now, k - 1, cfg);
      if k == 1 { assert Burst(now, 0) == []; }
    }
  }

  function IdealFinal(table: Table, reqs: seq<Request>, cfg: Config): Table
    decreases |reqs|
  {
    if reqs == [] then table else IdealFinal(Spend(table, reqs[0].ip, reqs[0].now, cfg), reqs[1..], cfg)
  }

  lemma {:induction false} BurstDrains(ideal: Table, now: real, k: nat, cfg: Config)
    requires Enabled(cfg) && k as real <= Available(ideal, 0, now, cfg)
    requires 0 in ideal ==> BucketOk(ideal[0], now, cfg)
    ensures Available(IdealFinal(ideal, Burst(now, k), cfg), 0, now, cfg) == Available(ideal, 0, now, cfg) - k as real
    ensures k > 0 ==>
      && 0 in IdealFinal(ideal, Burst(now, k), cfg)
      && IdealFinal(ideal, Burst(now, k), cfg)[0] == Bucket(Available(ideal, 0, now, cfg) - k as real, now, now)
    decreases k
  {
    if k > 0 {
      assert Burst(now, k)[1..] == Burst(now, k - 1);
      if 0 in ideal { RefillBounds(ideal[0], now, cfg); }
      BurstDrains(Spend(ideal, 0, now, cfg), now, k - 1, cfg);
      if k == 1 { assert Burst(now, 0) == []; }
    }
  }

  lemma {:induction false} DecisionsAppend(l: Limiter, a: seq<Request>, b: seq<Request>, cfg: Config)
    ensures Decisions(l, a + b, cfg) == Decisions(l, a, cfg) + Decisions(Final(l, a, cfg), b, cfg)
    decreases |a|
  {
    if a == [] {
      assert a + b == b;
    } else {
      assert (a + b)[1..] == a[1..] + b;
      DecisionsAppend(Next(l, a[0], cfg), a[1..], b, cfg);
    }
  }

  lemma {:induction false} IdealAppend(t: Table, a: seq<Request>, b: seq<Request>, cfg: Config)
    ensures IdealDecisions(t, a + b, cfg) == IdealDecisions(t, a, cfg) + IdealDecisions(IdealFinal(t, a, cfg), b, cfg)
    ensures |IdealDecisions(t, a, cfg)| == |a|
    decreases |a|
  {
    if a == [] {
      assert a + b == b;
    } else {
      assert (a + b)[1..] == a[1..] + b;
      IdealAppend(Spend(t, a[0].ip, a[0].now, cfg), a[1..], b, cfg);
    }
  }

  lemma {:induction false} BurstOrdered(from: real, now: real, k: nat, after: seq<Request>)
    requires from <= now && TimeOrdered(now, after)
    ensures TimeOrdered(from, Burst(now, k) + after) && |Burst(now, k)| == k
    decreases k
  {
    if k == 0 {
      assert Burst(now, 0) + after == after;
      if after != [] { assert from <= after[0].now; }
    } else {
      BurstOrdered(now, now, k - 1, after);
      assert (Burst(now, k) + after)[1..] == Burst(now, k - 1) + after;
    }
  }

  /** One full burst, one TTL of silence, then one request more than the silence refilled. */
  function Witness(cfg: Config): seq<Request> {
    Burst(0.0, cfg.capacity) + (Burst(cfg.ttl as real, cfg.refill * cfg.ttl) + Burst(cfg.ttl as real, 1))
  }

  lemma BurstSplit(now: real, a: nat)
    ensures Burst(now, a) + Burst(now, 1) == Burst(now, a + 1)
    decreases a
  {
    if a > 0 {
      BurstSplit(now, a - 1);
      assert Burst(now, a) + Burst(now, 1) == [Request(now, 0, None)] + (Burst(now, a - 1) + Burst(now, 1));
    } else {
      assert Burst(now, 0) + Burst(now, 1) == Burst(now, 1);
    }
  }

  lemma WitnessGranted(cfg: Config)
    requires Enabled(cfg) && !TtlRefills(cfg) && cfg.maxTracked == 0
    ensures var d := Decisions(EmptyLimiter(), Witness(cfg), cfg); d != [] && d[|d| - 1]
  {
    var l, again := EmptyLimiter(), cfg.refill * cfg.ttl + 1;
    var first := Burst(0.0, cfg.capacity);
    BurstSplit(cfg.ttl as real, cfg.refill * cfg.ttl);
    BurstGranted(l, 0.0, cfg.capacity, cfg);
    BurstGranted(Final(l, first, cfg), cfg.ttl as real, again, cfg);
    DecisionsAppend(l, first, Burst(cfg.ttl as real, again), cfg);
  }

  lemma DrainedThenIdle(cfg: Config)
    requires Enabled(cfg) && !TtlRefills(cfg)
    ensures var t := IdealFinal(map[], Burst(0.0, cfg.capacity), cfg);
      && 0 in t && BucketOk(t[0], cfg.ttl as real, cfg)
      && Available(t, 0, cfg.ttl as real, cfg) == (cfg.refill * cfg.ttl) as real
  {
    BurstDrains(map[], 0.0, cfg.capacity, cfg);
    var t := IdealFinal(map[], Burst(0.0, cfg.capacity), cfg);
    assert t[0] == Bucket(0.0, 0.0, 0.0);
    var gain := Product(cfg.ttl as real, cfg.refill as real);
    assert gain == (cfg.refill * cfg.ttl) as real;
    assert Refilled(t[0], cfg.ttl as real, cfg) == Min(gain, cfg.capacity as real);
  }

  lemma WitnessRefusedByIdeal(cfg: Config)
    requires Enabled(cfg) && !TtlRefills(cfg)
    ensures var d := IdealDecisions(map[], Witness(cfg), cfg); d != [] && !d[|d| - 1]
  {
    var first, second, last := Burst(0.0, cfg.capacity), Burst(cfg.ttl as real, cfg.refill * cfg.ttl), Burst(cfg.ttl as real, 1);
    var t := IdealFinal(map[], first, cfg);
    DrainedThenIdle(cfg);
    BurstDrains(t, cfg.ttl as real, cfg.refill * cfg.ttl, cfg);
    IdealAppend(map[], first, second + last, cfg);
    IdealAppend(t, second, last, cfg);
    assert last == [Request(cfg.ttl as real, 0, None)] + Burst(cfg.ttl as real, 0);
  }

  lemma WitnessOrdered(cfg: Config)
    ensures TimeOrdered(0.0, Witness(cfg))
  {
    var ttl, again := cfg.ttl as real, cfg.refill * cfg.ttl;
    BurstOrdered(ttl, ttl, 1, []);
    assert Burst(ttl, 1) + [] == Burst(ttl, 1);
    BurstOrdered(0.0, ttl, again, Burst(ttl, 1));
    BurstOrdered(0.0, 0.0, cfg.capacity, Burst(ttl, again) + Burst(ttl, 1));
  }

  ghost predicate AgreesWithIdeal(cfg: Config) {
    forall reqs :: TimeOrdered(0.0, reqs) ==> Decisions(EmptyLimiter(), reqs, cfg) == IdealDecisions(map[], reqs, cfg)
  }

  /**
   Without a tracking cap, the evicting limiter decides exactly like a bucket that never forgets, on
   every time-ordered sequence of requests, if and only if a bucket can refill within the TTL.
   */
  lemma AgreesIffTtlRefills(cfg: Config)
    requires Enabled(cfg) && cfg.maxTracked == 0
    ensures AgreesWithIdeal(cfg) <==> TtlRefills(cfg)
  {
    if TtlRefills(cfg) {
      forall reqs | TimeOrdered(0.0, reqs)
        ensures Decisions(EmptyLimiter(), reqs, cfg) == IdealDecisions(map[], reqs, cfg)
      {
        ShadowRun(EmptyLimiter(), map[], 0.0, reqs, cfg);
      }
    } else {
      WitnessGranted(cfg);
      WitnessRefusedByIdeal(cfg);
      WitnessOrdered(cfg);
    }
  }
}
