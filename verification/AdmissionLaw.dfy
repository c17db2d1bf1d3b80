/**
 The token bucket without tokens: which requests must be granted, in terms of the earlier answers and
 their times alone.
 */
module AdmissionLaw {
  import opened Common
  import opened RateLimiter
  import opened RateLimiterLaws

  /** A request that has been answered. */
  datatype Answer = Answer(now: real, ip: Ip, ok: bool)

  /** Admissions of an address from the answer at `from` on. */
  function AdmittedSince(past: seq<Answer>, ip: Ip, from: nat): nat {
    if |past| <= from then 0
    else
      var last := past[|past| - 1];
      AdmittedSince(past[..|past| - 1], ip, from) + if last.ip == ip && last.ok then 1 else 0
  }

  /** The refill since an answer. */
  function Gain(a: Answer, now: real, cfg: Config): real { (now - a.now) * cfg.refill as real }

  /** The capacity plus that refill. */
  function Budget(a: Answer, now: real, cfg: Config): real { cfg.capacity as real + Gain(a, now, cfg) }

  /**
   The law: a request is to be granted if and only if, counted from every earlier request of the same
   address, it keeps the admissions within the capacity plus the refill of the time since.
   */
  predicate Permits(past: seq<Answer>, ip: Ip, now: real, cfg: Config) {
    forall j :: 0 <= j < |past| && past[j].ip == ip ==>
      (AdmittedSince(past, ip, j) + 1) as real <= Budget(past[j], now, cfg)
  }

  /** Every decision follows the law, given the answers before it. */
  predicate Lawful(past: seq<Answer>, reqs: seq<Request>, decisions: seq<bool>, cfg: Config)
    decreases |reqs|
  {
    && |decisions| == |reqs|
    && (reqs == [] ||
        (var r := reqs[0];
         && (decisions[0] <==> Permits(past, r.ip, r.now, cfg))
         && Lawful(past + [Answer(r.now, r.ip, decisions[0])], reqs[1..], decisions[1..], cfg)))
  }

  /** The law leaves no choice. */
  lemma {:induction false} LawfulIsUnique(past: seq<Answer>, reqs: seq<Request>, d: seq<bool>, e: seq<bool>, cfg: Config)
    requires Lawful(past, reqs, d, cfg) && Lawful(past, reqs, e, cfg)
    ensures d == e
    decreases |reqs|
  {
    if reqs != [] {
      LawfulIsUnique(past + [Answer(reqs[0].now, reqs[0].ip, d[0])], reqs[1..], d[1..], e[1..], cfg);
      assert d == [d[0]] + d[1..] && e == [e[0]] + e[1..];
    }
  }

  // ---- what a bucket holds ------------------------------------------------------------------

  /** What the answer at `j` leaves an address at `now`. */
  function Room(past: seq<Answer>, ip: Ip, j: nat, now: real, cfg: Config): real
    requires j < |past|
  {
    Budget(past[j], now, cfg) - AdmittedSince(past, ip, j) as real
  }

  /** No answer, and not the capacity either, leaves less than `x`. */
  predicate Leaves(past: seq<Answer>, ip: Ip, now: real, x: real, cfg: Config) {
    x <= cfg.capacity as real && forall j :: 0 <= j < |past| && past[j].ip == ip ==> x <= Room(past, ip, j, now, cfg)
  }

  predicate Holds(table: Table, ip: Ip, now: real, x: real, cfg: Config) { x <= Available(table, ip, now, cfg) }

  /** A never-forgetting table offers every address exactly what the answers leave it. */
  ghost predicate Level(table: Table, past: seq<Answer>, last: real, cfg: Config) {
    && (forall ip :: ip in table ==> BucketOk(table[ip], last, cfg))
    && (forall ip, now, x :: now >= last ==> (Holds(table, ip, now, x, cfg) <==> Leaves(past, ip, now, x, cfg)))
  }

  lemma SinceSnoc(past: seq<Answer>, a: Answer, ip: Ip, j: nat)
    requires j <= |past|
    ensures AdmittedSince(past + [a], ip, j) == AdmittedSince(past, ip, j) + if a.ip == ip && a.ok then 1 else 0
    ensures j == |past| ==> AdmittedSince(past, ip, j) == 0
  {
    assert (past + [a])[..|past|] == past;
  }

  function Spent(a: Answer): real { if a.ok then 1.0 else 0.0 }

  lemma RoomSnoc(past: seq<Answer>, a: Answer, j: nat, now: real, cfg: Config)
    requires j < |past|
    ensures Room(past + [a], a.ip, j, now, cfg)
         == Room(past, a.ip, j, a.now, cfg) + Gain(a, now, cfg) - Spent(a)
  {
    SinceSnoc(past, a, a.ip, j);
    Distribute(a.now - past[j].now, now - a.now, cfg.refill as real);
  }

  lemma RoomLast(past: seq<Answer>, a: Answer, now: real, cfg: Config)
    ensures Room(past + [a], a.ip, |past|, now, cfg) == Budget(a, now, cfg) - Spent(a)
  {
    SinceSnoc(past, a, a.ip, |past|);
  }

  /** One more answer of the same address: what is left now was left then, before the spending and the gain. */
  lemma LeavesSnoc(past: seq<Answer>, a: Answer, now: real, x: real, cfg: Config)
    requires now >= a.now
    ensures var gain := Gain(a, now, cfg);
      Leaves(past + [a], a.ip, now, x, cfg) <==> x <= cfg.capacity as real && Leaves(past, a.ip, a.now, x + Spent(a) - gain, cfg)
  {
    var next, gain := past + [a], Gain(a, now, cfg);
    var y := x + Spent(a) - gain;
    RoomLast(past, a, now, cfg);
    assert next[|past|] == a;
    forall j | 0 <= j < |past|
      ensures next[j] == past[j] && (x <= Room(next, a.ip, j, now, cfg) <==> y <= Room(past, a.ip, j, a.now, cfg))
    {
      RoomSnoc(past, a, j, now, cfg);
    }
  }

  lemma LeavesOther(past: seq<Answer>, a: Answer, ip: Ip, now: real, x: real, cfg: Config)
    requires ip != a.ip
    ensures Leaves(past + [a], ip, now, x, cfg) <==> Leaves(past, ip, now, x, cfg)
  {
    var next := past + [a];
    assert next[|past|] == a;
    forall j | 0 <= j < |past| ensures next[j] == past[j] && Room(next, ip, j, now, cfg) == Room(past, ip, j, now, cfg) {
      SinceSnoc(past, a, ip, j);
    }
  }

  /** What a bucket holds after a request, in terms of what it held at it. */
  lemma HoldsSpend(table: Table, a: Answer, now: real, x: real, cfg: Config)
    requires now >= a.now && a.ok == (Available(table, a.ip, a.now, cfg) >= 1.0)
    ensures var gain := Gain(a, now, cfg);
      Holds(Spend(table, a.ip, a.now, cfg), a.ip, now, x, cfg)
      <==> x <= cfg.capacity as real && Holds(table, a.ip, a.now, x + Spent(a) - gain, cfg)
  {
    var t := Available(table, a.ip, a.now, cfg);
    var next := Spend(table, a.ip, a.now, cfg);
    RefilledIs(next[a.ip], a, now, cfg);
    assert next[a.ip].tokens == t - Spent(a);
    MinHolds(x, t, Spent(a), Gain(a, now, cfg), cfg.capacity as real);
  }

  lemma RefilledIs(b: Bucket, a: Answer, now: real, cfg: Config)
    requires now >= b.lastRefill == a.now
    ensures Refilled(b, now, cfg) == Min(b.tokens + Gain(a, now, cfg), cfg.capacity as real)
  {
  }

  lemma MinHolds(x: real, t: real, spent: real, gain: real, full: real)
    ensures x <= Min(t - spent + gain, full) <==> x <= full && x + spent - gain <= t
  {
  }

  lemma OneMore(n: nat, limit: real)
    ensures (n + 1) as real <= limit <==> 1.0 <= limit - n as real
  {
    assert (n + 1) as real == n as real + 1.0;
  }

  lemma PermitsIsLeaving(past: seq<Answer>, ip: Ip, now: real, cfg: Config)
    requires cfg.capacity >= 1
    ensures Permits(past, ip, now, cfg) <==> Leaves(past, ip, now, 1.0, cfg)
  {
    forall j | 0 <= j < |past|
      ensures ((AdmittedSince(past, ip, j) + 1) as real <= Budget(past[j], now, cfg)) <==> 1.0 <= Room(past, ip, j, now, cfg)
    {
      OneMore(AdmittedSince(past, ip, j), Budget(past[j], now, cfg));
    }
  }

  lemma LevelStep(table: Table, past: seq<Answer>, last: real, a: Answer, cfg: Config)
    requires Enabled(cfg) && Level(table, past, last, cfg) && last <= a.now && a.ok == (Available(table, a.ip, a.now, cfg) >= 1.0)
    ensures Level(Spend(table, a.ip, a.now, cfg), past + [a], a.now, cfg)
  {
    var next := Spend(table, a.ip, a.now, cfg);
    if a.ip in table { RefillBounds(table[a.ip], a.now, cfg); }
    forall ip, now, x | now >= a.now
      ensures Holds(next, ip, now, x, cfg) <==> Leaves(past + [a], ip, now, x, cfg)
    {
      if ip == a.ip {
        HoldsSpend(table, a, now, x, cfg);
        LeavesSnoc(past, a, now, x, cfg);
        assert Holds(table, ip, a.now, x + Spent(a) - Gain(a, now, cfg), cfg)
          <==> Leaves(past, ip, a.now, x + Spent(a) - Gain(a, now, cfg), cfg);
      } else {
        LeavesOther(past, a, ip, now, x, cfg);
        assert Holds(next, ip, now, x, cfg) <==> Holds(table, ip, now, x, cfg);
      }
    }
  }

  // ---- the law of the limiter ---------------------------------------------------------------

  lemma {:induction false} IdealIsLawful(table: Table, past: seq<Answer>, last: real, reqs: seq<Request>, cfg: Config)
    requires Enabled(cfg) && Level(table, past, last, cfg) && TimeOrdered(last, reqs)
    ensures Lawful(past, reqs, IdealDecisions(table, reqs, cfg), cfg)
    decreases |reqs|
  {
    if reqs != [] {
      var r, d := reqs[0], IdealDecisions(table, reqs, cfg);
      var a := Answer(r.now, r.ip, d[0]);
      assert Holds(table, r.ip, r.now, 1.0, cfg) <==> Leaves(past, r.ip, r.now, 1.0, cfg);
      PermitsIsLeaving(past, r.ip, r.now, cfg);
      LevelStep(table, past, last, a, cfg);
      IdealIsLawful(Spend(table, r.ip, r.now, cfg), past + [a], r.now, reqs[1..], cfg);
      assert d[1..] == IdealDecisions(Spend(table, r.ip, r.now, cfg), reqs[1..], cfg);
    }
  }

  lemma LevelStart(cfg: Config)
    ensures Level(map[], [], 0.0, cfg)
  {
  }

  lemma RefillingIsLawful(reqs: seq<Request>, cfg: Config)
    requires Enabled(cfg) && cfg.maxTracked == 0 && TtlRefills(cfg) && TimeOrdered(0.0, reqs)
    ensures Lawful([], reqs, Decisions(EmptyLimiter(), reqs, cfg), cfg)
  {
    LevelStart(cfg);
    ShadowRun(EmptyLimiter(), map[], 0.0, reqs, cfg);
    IdealIsLawful(map[], [], 0.0, reqs, cfg);
  }

  /** Two lists of decisions that end differently cannot both follow the law. */
  lemma OneEnding(reqs: seq<Request>, d: seq<bool>, e: seq<bool>, cfg: Config)
    requires Lawful([], reqs, e, cfg) && d != [] && e != [] && d[|d| - 1] != e[|e| - 1]
    ensures !Lawful([], reqs, d, cfg)
  {
    if Lawful([], reqs, d, cfg) { LawfulIsUnique([], reqs, d, e, cfg); }
  }

  lemma ForgettingIsUnlawful(cfg: Config)
    requires Enabled(cfg) && cfg.maxTracked == 0 && !TtlRefills(cfg)
    ensures !Lawful([], Witness(cfg), Decisions(EmptyLimiter(), Witness(cfg), cfg), cfg)
  {
    var reqs := Witness(cfg);
    LevelStart(cfg);
    WitnessOrdered(cfg);
    IdealIsLawful(map[], [], 0.0, reqs, cfg);
    WitnessGranted(cfg);
    WitnessRefusedByIdeal(cfg);
    OneEnding(reqs, Decisions(EmptyLimiter(), reqs, cfg), IdealDecisions(map[], reqs, cfg), cfg);
  }

  ghost predicate AlwaysLawful(cfg: Config) {
    forall reqs :: TimeOrdered(0.0, reqs) ==> Lawful([], reqs, Decisions(EmptyLimiter(), reqs, cfg), cfg)
  }

  /**
   Without a tracking cap, the limiter grants exactly the requests the law permits, on every
   time-ordered sequence, if and only if a bucket can refill within the TTL.
   */
  lemma LawfulIffTtlRefills(cfg: Config)
    requires Enabled(cfg) && cfg.maxTracked == 0
    ensures AlwaysLawful(cfg) <==> TtlRefills(cfg)
  {
    if TtlRefills(cfg) {
      forall reqs | TimeOrdered(0.0, reqs) ensures Lawful([], reqs, Decisions(EmptyLimiter(), reqs, cfg), cfg) {
        RefillingIsLawful(reqs, cfg);
      }
    } else {
      WitnessOrdered(cfg);
      ForgettingIsUnlawful(cfg);
    }
  }
}
