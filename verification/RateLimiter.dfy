/**
 The per-IP accept rate limiter: a token bucket per address in a table bounded by an idle TTL and by
 a cap on tracked addresses. Tokens and times are reals; requests arrive in time order.
 */
module RateLimiter {
  import opened Common

  type Ip = nat

  /** `capacity` is the burst raised to at least one; a zero refill disables the limiter outright. */
  datatype Config = Config(capacity: nat, refill: nat, ttl: nat, maxTracked: nat)

  predicate Enabled(cfg: Config) { cfg.capacity >= 1 && cfg.refill >= 1 }

  datatype Bucket = Bucket(tokens: real, lastRefill: real, lastTouch: real)

  type Table = map<Ip, Bucket>

  datatype Limiter = Limiter(table: Table, idle: nat, lru: nat, refused: nat)

  // ---- one request --------------------------------------------------------------------------

  function Since(from: real, to: real): real { if to >= from then to - from else 0.0 }

  function Min(a: real, b: real): real { if a <= b then a else b }

  function Refilled(b: Bucket, now: real, cfg: Config): real {
    Min(b.tokens + Since(b.lastRefill, now) * cfg.refill as real, cfg.capacity as real)
  }

  function Kept(table: Table, now: real, cfg: Config): Table {
    map ip | ip in table && Since(table[ip].lastTouch, now) < cfg.ttl as real :: table[ip]
  }

  predicate NeedsRoom(kept: Table, ip: Ip, cfg: Config) {
    cfg.maxTracked > 0 && |kept| >= cfg.maxTracked && ip !in kept
  }

  predicate AllThrottled(table: Table) { forall ip :: ip in table ==> table[ip].tokens < 1.0 }

  /** The bucket a full table gives up: unthrottled, most stored tokens, oldest touch among equals. */
  predicate Victim(table: Table, v: Ip) {
    && v in table && table[v].tokens >= 1.0
    && forall ip :: ip in table ==>
         table[ip].tokens < table[v].tokens || (table[ip].tokens == table[v].tokens && table[v].lastTouch <= table[ip].lastTouch)
  }

  /** `victim` is the choice the scan of the hash map makes; only ties leave it open. */
  predicate Allowed(l: Limiter, now: real, ip: Ip, victim: Option<Ip>, cfg: Config) {
    var kept := Kept(l.table, now, cfg);
    if NeedsRoom(kept, ip, cfg) && !AllThrottled(kept) then victim.Some? && Victim(kept, victim.value)
    else victim.None?
  }

  predicate CapRefused(l: Limiter, now: real, ip: Ip, cfg: Config) {
    var kept := Kept(l.table, now, cfg);
    NeedsRoom(kept, ip, cfg) && AllThrottled(kept)
  }

  function Roomy(l: Limiter, now: real, victim: Option<Ip>, cfg: Config): Table {
    var kept := Kept(l.table, now, cfg);
    if victim.Some? then kept - {victim.value} else kept
  }

  function Available(table: Table, ip: Ip, now: real, cfg: Config): real {
    if ip in table then Refilled(table[ip], now, cfg) else cfg.capacity as real
  }

  function Spend(table: Table, ip: Ip, now: real, cfg: Config): Table {
    var t := Available(table, ip, now, cfg);
    table[ip := Bucket(if t >= 1.0 then t - 1.0 else t, now, now)]
  }

  function Decision(l: Limiter, now: real, ip: Ip, victim: Option<Ip>, cfg: Config): bool {
    !CapRefused(l, now, ip, cfg) && Available(Roomy(l, now, victim, cfg), ip, now, cfg) >= 1.0
  }

  function After(l: Limiter, now: real, ip: Ip, victim: Option<Ip>, cfg: Config): Limiter {
    var kept := Kept(l.table, now, cfg);
    KeptShrinks(l.table, now, cfg);
    var idle := l.idle + (|l.table| - |kept|);
    if CapRefused(l, now, ip, cfg) then Limiter(kept, idle, l.lru, l.refused + 1)
    else Limiter(Spend(Roomy(l, now, victim, cfg), ip, now, cfg), idle,
                 l.lru + if victim.Some? then 1 else 0, l.refused)
  }

  lemma KeptShrinks(table: Table, now: real, cfg: Config)
    ensures |Kept(table, now, cfg)| <= |table|
  {
    SubmapSize(Kept(table, now, cfg), table);
  }

  lemma SubmapSize(a: Table, b: Table)
    requires a.Keys <= b.Keys
    ensures |a| <= |b|
  {
    SubsetSize(a.Keys, b.Keys);
    assert |a| == |a.Keys| && |b| == |b.Keys|;
  }

  lemma SubsetSize(a: set<Ip>, b: set<Ip>)
    requires a <= b
    ensures |a| <= |b|
  {
    assert |b - a| == |b| - |a * b| && a * b == a;
  }

  // ---- the limiter object -------------------------------------------------------------------

  class LimiterInner {
    var buckets: Table
    var idleEvictions: nat
    var lruEvictions: nat
    var capRefused: nat

    function View(): Limiter
      reads this
    {
      Limiter(buckets, idleEvictions, lruEvictions, capRefused)
    }

    constructor ()
      ensures View() == Limiter(map[], 0, 0, 0)
    {
      buckets, idleEvictions, lruEvictions, capRefused := map[], 0, 0, 0;
    }

    method EvictIdle(now: real, cfg: Config)
      modifies this`buckets, this`idleEvictions
      ensures buckets == Kept(old(buckets), now, cfg)
      ensures idleEvictions == old(idleEvictions) + (|old(buckets)| - |buckets|)
    {
      var before := |buckets|;
      KeptShrinks(buckets, now, cfg);
      buckets := Kept(buckets, now, cfg);
      idleEvictions := idleEvictions + (before - |buckets|);
    }

    /** Scans the map in whatever order it yields, keeping the best candidate seen so far. */
    method EvictAtCap() returns (victim: Option<Ip>)
      modifies this`buckets, this`lruEvictions
      ensures victim.None? <==> AllThrottled(old(buckets))
      ensures victim.None? ==> buckets == old(buckets) && lruEvictions == old(lruEvictions)
      ensures victim.Some? ==>
        && Victim(old(buckets), victim.value)
        && buckets == old(buckets) - {victim.value} && lruEvictions == old(lruEvictions) + 1
    {
      var rest := buckets.Keys;
      var best: Option<Ip> := None;
      var allThrottled := true;
      while rest != {}
        invariant rest <= buckets.Keys && (best.None? <==> rest == buckets.Keys)
        invariant allThrottled <==> forall ip :: ip in buckets && ip !in rest ==> buckets[ip].tokens < 1.0
        invariant best.Some? ==> best.value in buckets && best.value !in rest
        invariant best.Some? ==> forall ip :: ip in buckets && ip !in rest ==>
          || buckets[ip].tokens < buckets[best.value].tokens
          || (buckets[ip].tokens == buckets[best.value].tokens && buckets[best.value].lastTouch <= buckets[ip].lastTouch)
        decreases |rest|
      {
        var ip :| ip in rest;
        rest := rest - {ip};
        var b := buckets[ip];
        if b.tokens >= 1.0 { allThrottled := false; }
        if best.Some? {
          var c := buckets[best.value];
          if b.tokens > c.tokens || (b.tokens == c.tokens && b.lastTouch < c.lastTouch) { best := Some(ip); }
        } else {
          best := Some(ip);
        }
      }
      if allThrottled { return None; }
      buckets := buckets - {best.value};
      lruEvictions := lruEvictions + 1;
      return best;
    }

    method TryTakeAt(now: real, ip: Ip, cfg: Config) returns (ok: bool, victim: Option<Ip>)
      modifies this
      ensures Allowed(old(View()), now, ip, victim, cfg)
      ensures ok == Decision(old(View()), now, ip, victim, cfg)
      ensures View() == After(old(View()), now, ip, victim, cfg)
    {
      EvictIdle(now, cfg);
      victim := None;
      if cfg.maxTracked > 0 && |buckets| >= cfg.maxTracked && ip !in buckets {
        victim := EvictAtCap();
        if victim.None? {
          capRefused := capRefused + 1;
          return false, None;
        }
      }
      if ip !in buckets {
        buckets := buckets[ip := Bucket(cfg.capacity as real, now, now)];
      }
      var b := buckets[ip];
      var tokens := Refilled(b, now, cfg);
      ok := tokens >= 1.0;
      buckets := buckets[ip := Bucket(if ok then tokens - 1.0 else tokens, now, now)];
    }
  }
}
