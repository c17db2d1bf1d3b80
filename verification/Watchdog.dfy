/**
 Crash backoff for one worker role: exits within five seconds of the last spawn or adoption double the
 respawn delay up to thirty seconds; a slow exit or an upgrade commit resets it. Times in milliseconds.
 */
module Watchdog {
  import opened Common

  const INITIAL_BACKOFF: nat := 200
  const MAX_BACKOFF: nat := 30000
  const HEALTHY_UPTIME: nat := 5000
  const FLAP_THRESHOLD: nat := 4
  const FAIL_THRESHOLD: nat := 5

  datatype HealthState = Healthy | Backoff | Flapping | Failed

  datatype Event = Spawned(now: nat) | AdoptedAt(now: nat) | Exited(code: Option<int>, now: nat)

  function Min(a: nat, b: nat): nat { if a <= b then a else b }

  class WatchdogState {
    var consecutiveFastExits: nat
    var nextBackoff: nat
    var lastSpawnedAt: Option<nat>
    var totalRestarts: nat
    ghost const seed: nat
    ghost var history: seq<Event>

    /** The live fields say of the history exactly what the laws below say of it. */
    ghost predicate Valid()
      reads this
    {
      && consecutiveFastExits == FastRun(history)
      && nextBackoff == Delay(seed, history)
      && lastSpawnedAt == LastStart(history)
      && totalRestarts == Spawns(history)
    }

    /** Seeded roles start at 200 ms; an entry made on the fly by `or_default` starts at zero. */
    constructor (seeded: bool)
      ensures Valid() && history == [] && seed == (if seeded then INITIAL_BACKOFF else 0)
    {
      consecutiveFastExits, nextBackoff := 0, if seeded then INITIAL_BACKOFF else 0;
      lastSpawnedAt, totalRestarts := None, 0;
      seed, history := if seeded then INITIAL_BACKOFF else 0, [];
    }

    method RecordSpawn(now: nat)
      requires Valid()
      modifies this
      ensures Valid() && history == old(history) + [Spawned(now)]
    {
      lastSpawnedAt := Some(now);
      totalRestarts := totalRestarts + 1;
      history := history + [Spawned(now)];
      assert history[..|history| - 1] == old(history);
    }

    method RecordAdoption(now: nat)
      requires Valid()
      modifies this
      ensures Valid() && history == old(history) + [AdoptedAt(now)]
    {
      lastSpawnedAt := Some(now);
      history := history + [AdoptedAt(now)];
      assert history[..|history| - 1] == old(history);
    }

    method ApplyExit(code: Option<int>, uptime: nat)
      modifies this`consecutiveFastExits, this`nextBackoff
      ensures var fast := code != Some(UPGRADE_COMMIT_EXIT_CODE) && uptime < HEALTHY_UPTIME;
        && consecutiveFastExits == (if fast then old(consecutiveFastExits) + 1 else 0)
        && nextBackoff == (if fast then Min(2 * old(nextBackoff), MAX_BACKOFF) else INITIAL_BACKOFF)
    {
      if code == Some(UPGRADE_COMMIT_EXIT_CODE) {
        consecutiveFastExits, nextBackoff := 0, INITIAL_BACKOFF;
        return;
      }
      if uptime < HEALTHY_UPTIME {
        consecutiveFastExits := consecutiveFastExits + 1;
        nextBackoff := Min(nextBackoff * 2, MAX_BACKOFF);
      } else {
        consecutiveFastExits, nextBackoff := 0, INITIAL_BACKOFF;
      }
    }

    method RecordExit(code: Option<int>, now: nat) returns (backoff: nat)
      requires Valid()
      modifies this
      ensures Valid() && history == old(history) + [Exited(code, now)] && backoff == nextBackoff
      ensures seed == 200 ==> backoff == Min(200 * Pow2(FastRun(history)), 30000)
    {
      ApplyExit(code, if lastSpawnedAt.Some? then Elapsed(lastSpawnedAt.value, now) else 0);
      ExitRecorded(seed, history, code, now);
      history := history + [Exited(code, now)];
      backoff := nextBackoff;
    }

    /** Failed exactly on a trailing run of five fast exits; healthy again while the worker stays up. */
    method Health(now: nat) returns (s: HealthState)
      requires Valid()
      ensures s == HealthAfter(history, now)
      ensures s.Failed? <==> FastRun(history) >= 5
      ensures s.Flapping? <==> FastRun(history) == 4 && !UpFor(history, now, 5000)
      ensures s.Backoff? <==> 1 <= FastRun(history) <= 3 && !UpFor(history, now, 5000)
      ensures s.Healthy? <==> FastRun(history) == 0 || (FastRun(history) <= 4 && UpFor(history, now, 5000))
    {
      if consecutiveFastExits >= FAIL_THRESHOLD { return Failed; }
      if lastSpawnedAt.Some? && Elapsed(lastSpawnedAt.value, now) >= HEALTHY_UPTIME { return Healthy; }
      if consecutiveFastExits == 0 { return Healthy; }
      if consecutiveFastExits >= FLAP_THRESHOLD { return Flapping; }
      return Backoff;
    }
  }

  // ---- the laws, in terms of the history ----------------------------------------------------

  function Init(h: seq<Event>): seq<Event>
    requires h != []
  {
    h[..|h| - 1]
  }

  function Last(h: seq<Event>): Event
    requires h != []
  {
    h[|h| - 1]
  }

  /** When the running worker was last spawned or adopted. */
  function LastStart(h: seq<Event>): Option<nat> {
    if h == [] then None else if Last(h).Exited? then LastStart(Init(h)) else Some(Last(h).now)
  }

  function Spawns(h: seq<Event>): nat {
    if h == [] then 0 else Spawns(Init(h)) + if Last(h).Spawned? then 1 else 0
  }

  /** An exit that was fast and not an upgrade commit. */
  predicate FastExit(before: seq<Event>, e: Event)
    requires e.Exited?
  {
    var start := LastStart(before);
    e.code != Some(UPGRADE_COMMIT_EXIT_CODE) && (start.Some? ==> Elapsed(start.value, e.now) < HEALTHY_UPTIME)
  }

  /** Length of the trailing run of fast exits. */
  function FastRun(h: seq<Event>): nat {
    if h == [] then 0
    else if !Last(h).Exited? then FastRun(Init(h))
    else if FastExit(Init(h), Last(h)) then FastRun(Init(h)) + 1
    else 0
  }

  /** The delay as the exits change it one by one: doubled and capped, or reset. */
  function Delay(seed: nat, h: seq<Event>): nat {
    if h == [] then seed
    else if !Last(h).Exited? then Delay(seed, Init(h))
    else if FastExit(Init(h), Last(h)) then Min(2 * Delay(seed, Init(h)), MAX_BACKOFF)
    else INITIAL_BACKOFF
  }

  /** Some exit was slow or an upgrade commit. */
  predicate EverReset(h: seq<Event>) {
    h != [] && ((Last(h).Exited? && !FastExit(Init(h), Last(h))) || EverReset(Init(h)))
  }

  /** The worker was last started at least so long ago. */
  predicate UpFor(h: seq<Event>, now: nat, ms: nat) {
    LastStart(h).Some? && Elapsed(LastStart(h).value, now) >= ms
  }

  function HealthAfter(h: seq<Event>, now: nat): HealthState {
    var k, start := FastRun(h), LastStart(h);
    if k >= FAIL_THRESHOLD then Failed
    else if k == 0 || (start.Some? && Elapsed(start.value, now) >= HEALTHY_UPTIME) then Healthy
    else if k >= FLAP_THRESHOLD then Flapping
    else Backoff
  }

  lemma DoubleCapped(x: nat)
    ensures Min(2 * Min(x, MAX_BACKOFF), MAX_BACKOFF) == Min(2 * x, MAX_BACKOFF)
  {
  }

  lemma DoubleAgain(base: nat, k: nat)
    ensures Min(2 * Min(base * Pow2(k), MAX_BACKOFF), MAX_BACKOFF) == Min(base * Pow2(k + 1), MAX_BACKOFF)
  {
    assert base * Pow2(k + 1) == 2 * (base * Pow2(k));
    DoubleCapped(base * Pow2(k));
  }

  /**
   The closed form of the delay after any history: the start value, or 200 ms once some exit has
   reset it, doubled once per trailing fast exit and capped.
   */
  lemma {:induction false} DelayClosedForm(seed: nat, h: seq<Event>)
    requires seed <= MAX_BACKOFF
    ensures Delay(seed, h) == Min((if EverReset(h) then INITIAL_BACKOFF else seed) * Pow2(FastRun(h)), MAX_BACKOFF)
    decreases |h|
  {
    if h != [] {
      DelayClosedForm(seed, Init(h));
      if Last(h).Exited? && FastExit(Init(h), Last(h)) {
        DoubleAgain(if EverReset(Init(h)) then INITIAL_BACKOFF else seed, FastRun(Init(h)));
      }
    }
  }

  /**
   For a seeded role the delay after any history is min(200 x 2^k, 30000) ms, with k the trailing run
   of fast exits: it never drops below the initial delay, grows with the run and is capped.
   */
  lemma SeededBackoff(h: seq<Event>)
    ensures Delay(INITIAL_BACKOFF, h) == Min(200 * Pow2(FastRun(h)), 30000)
    ensures INITIAL_BACKOFF <= Delay(INITIAL_BACKOFF, h) <= MAX_BACKOFF
    ensures Delay(INITIAL_BACKOFF, h) == MAX_BACKOFF <==> FastRun(h) >= 8
  {
    DelayClosedForm(INITIAL_BACKOFF, h);
    if FastRun(h) >= 8 { PowMonotone(8, FastRun(h)); } else { PowMonotone(FastRun(h), 7); }
    assert Pow2(8) == 256 by { assert Pow2(4) == 16; }
    assert Pow2(7) == 128 by { assert Pow2(4) == 16; }
  }

  /** One more exit, in terms of the history before it. */
  lemma ExitRecorded(seed: nat, h: seq<Event>, code: Option<int>, now: nat)
    ensures var h', fast := h + [Exited(code, now)], FastExit(h, Exited(code, now));
      && LastStart(h') == LastStart(h) && Spawns(h') == Spawns(h)
      && FastRun(h') == (if fast then FastRun(h) + 1 else 0)
      && Delay(seed, h') == (if fast then Min(2 * Delay(seed, h), MAX_BACKOFF) else INITIAL_BACKOFF)
      && (seed == INITIAL_BACKOFF ==> Delay(seed, h') == Min(INITIAL_BACKOFF * Pow2(FastRun(h')), MAX_BACKOFF))
  {
    var h' := h + [Exited(code, now)];
    assert Init(h') == h && Last(h') == Exited(code, now);
    if seed == INITIAL_BACKOFF { SeededBackoff(h'); }
  }

  /** A worker that is spawned and dies at once, `k` times over. */
  function Crashes(k: nat): seq<Event> {
    if k == 0 then [] else Crashes(k - 1) + [Spawned(0)] + [Exited(None, 0)]
  }

  lemma {:induction false} CrashesRun(k: nat)
    ensures FastRun(Crashes(k)) == k && (k > 0 ==> LastStart(Crashes(k)) == Some(0))
    decreases k
  {
    if k > 0 {
      CrashesRun(k - 1);
      var spawned := Crashes(k - 1) + [Spawned(0)];
      assert Init(spawned) == Crashes(k - 1);
      assert Init(Crashes(k)) == spawned;
    }
  }

  /** Failed does not mean respawning at the maximum delay: the fifth crash waits 6.4 seconds. */
  lemma FailedBelowTheCap()
    ensures HealthAfter(Crashes(FAIL_THRESHOLD), 0).Failed?
    ensures Delay(INITIAL_BACKOFF, Crashes(FAIL_THRESHOLD)) == 6400 < MAX_BACKOFF
  {
    CrashesRun(FAIL_THRESHOLD);
    SeededBackoff(Crashes(FAIL_THRESHOLD));
    assert Pow2(5) == 32 by { assert Pow2(3) == 8; }
  }

  /** Exactly when a failed role is not yet at the maximum delay. */
  lemma FailedAtTheCap(h: seq<Event>, now: nat)
    requires HealthAfter(h, now).Failed?
    ensures Delay(INITIAL_BACKOFF, h) == MAX_BACKOFF <==> FastRun(h) >= FAIL_THRESHOLD + 3
  {
    SeededBackoff(h);
  }
}
