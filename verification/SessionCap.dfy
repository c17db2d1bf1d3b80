/**
 The lock-free cap on concurrent sessions: any number of threads interleave loads, compare-exchanges
 and guard drops on one 64-bit counter.
 */
module SessionCap {
  import opened Common

  type Tid = nat

  /** `seen` is what the thread loaded, `at` how many writes the counter had had by then. */
  datatype Pc = Idle | Loaded(seen: nat, at: nat)

  datatype Outcome =
    | Granted(tid: Tid)
    | Refused(tid: Tid, liveAtLoad: nat)
    | Retried(tid: Tid, at: nat, upTo: nat)

  /** `writers` lists, in order, the threads that changed the counter; `live` counts the guards. */
  datatype Cap = Cap(cap: nat, counter: nat, live: nat, pcs: map<Tid, Pc>, writers: seq<Tid>, log: seq<Outcome>)

  datatype Step = AddUncapped(tid: Tid) | Load(tid: Tid) | Exchange(tid: Tid) | DropGuard(tid: Tid)

  function PcOf(s: Cap, tid: Tid): Pc { if tid in s.pcs then s.pcs[tid] else Idle }

  predicate CanStep(s: Cap, step: Step) {
    match step
    case AddUncapped(t) => s.cap == 0 && PcOf(s, t).Idle?
    case Load(t) => s.cap > 0 && PcOf(s, t).Idle?
    case Exchange(t) => PcOf(s, t).Loaded?
    case DropGuard(t) => s.live > 0 && PcOf(s, t).Idle?   // the guards move freely between threads
  }

  function Do(s: Cap, step: Step): Cap
    requires CanStep(s, step)
  {
    match step
    case AddUncapped(t) =>
      s.(counter := (s.counter + 1) % WORD, live := s.live + 1, writers := s.writers + [t], log := s.log + [Granted(t)])
    case Load(t) =>
      if s.counter >= s.cap then s.(log := s.log + [Refused(t, s.live)])
      else s.(pcs := s.pcs[t := Loaded(s.counter, |s.writers|)])
    case Exchange(t) =>
      var pc := PcOf(s, t);
      if s.counter == pc.seen then
        s.(counter := (s.counter + 1) % WORD, live := s.live + 1, pcs := s.pcs[t := Idle],
           writers := s.writers + [t], log := s.log + [Granted(t)])
      else s.(pcs := s.pcs[t := Idle], log := s.log + [Retried(t, pc.at, |s.writers|)])
    case DropGuard(t) =>
      s.(counter := (s.counter + WORD - 1) % WORD, live := s.live - 1, writers := s.writers + [t])
  }

  function Start(cap: nat): Cap { Cap(cap, 0, 0, map[], [], []) }

  /** A loaded value is current until somebody else writes. */
  predicate PcOk(s: Cap, t: Tid) {
    var pc := PcOf(s, t);
    pc.Loaded? ==>
      && pc.at <= |s.writers| && pc.seen < s.cap && t !in s.writers[pc.at..]
      && (pc.at == |s.writers| ==> s.counter == pc.seen)
  }

  /** Refused only when full; retried only because another thread wrote in between. */
  predicate OutcomeOk(s: Cap, o: Outcome) {
    match o
    case Granted(_) => true
    case Refused(_, live) => s.cap > 0 && live == s.cap
    case Retried(t, at, upTo) => at < upTo <= |s.writers| && s.writers[at] != t
  }

  ghost predicate Inv(s: Cap) {
    && s.cap < WORD && s.counter == s.live % WORD
    && (s.cap > 0 ==> s.live <= s.cap)
    && (forall t :: PcOk(s, t))
    && (forall i :: 0 <= i < |s.log| ==> OutcomeOk(s, s.log[i]))
  }

  lemma WordUp(live: nat)
    ensures (live % WORD + 1) % WORD == (live + 1) % WORD
  {
  }

  lemma WordDown(live: nat)
    requires live > 0
    ensures (live % WORD + WORD - 1) % WORD == (live - 1) % WORD
  {
  }

  lemma CountStep(s: Cap, step: Step)
    requires Inv(s) && CanStep(s, step)
    ensures var s' := Do(s, step); s'.counter == s'.live % WORD && (s.cap > 0 ==> s'.live <= s.cap)
  {
    WordUp(s.live);
    if s.live > 0 { WordDown(s.live); }
    if step.Exchange? {
      assert PcOk(s, step.tid);
      if s.cap > 0 { assert s.live % WORD == s.live; }
    }
  }

  lemma PcStep(s: Cap, step: Step, t: Tid)
    requires Inv(s) && CanStep(s, step)
    ensures PcOk(Do(s, step), t)
  {
    assert PcOk(s, t);
    var s' := Do(s, step);
    if t != step.tid && PcOf(s, t).Loaded? {
      var at := PcOf(s, t).at;
      assert s'.writers[at..] == s.writers[at..] + s'.writers[|s.writers|..];
    }
  }

  lemma LogStep(s: Cap, step: Step)
    requires Inv(s) && CanStep(s, step)
    ensures var s' := Do(s, step); forall i :: 0 <= i < |s'.log| ==> OutcomeOk(s', s'.log[i])
  {
    var s', t := Do(s, step), step.tid;
    assert PcOk(s, t);
    if step.Exchange? && s.counter != PcOf(s, t).seen {
      var at := PcOf(s, t).at;
      assert s.writers[at..][0] == s.writers[at];
    }
    forall i | 0 <= i < |s.log| ensures OutcomeOk(s', s.log[i]) { assert OutcomeOk(s, s.log[i]); }
  }

  lemma StepInv(s: Cap, step: Step)
    requires Inv(s) && CanStep(s, step)
    ensures Inv(Do(s, step))
  {
    CountStep(s, step);
    forall t ensures PcOk(Do(s, step), t) { PcStep(s, step, t); }
    LogStep(s, step);
  }

  predicate Runnable(s: Cap, steps: seq<Step>)
    decreases |steps|
  {
    steps == [] || (CanStep(s, steps[0]) && Runnable(Do(s, steps[0]), steps[1..]))
  }

  function End(s: Cap, steps: seq<Step>): Cap
    requires Runnable(s, steps)
    decreases |steps|
  {
    if steps == [] then s else End(Do(s, steps[0]), steps[1..])
  }

  lemma {:induction false} RunInv(s: Cap, steps: seq<Step>)
    requires Inv(s) && Runnable(s, steps)
    ensures Inv(End(s, steps)) && End(s, steps).cap == s.cap
    decreases |steps|
  {
    if steps != [] {
      StepInv(s, steps[0]);
      RunInv(Do(s, steps[0]), steps[1..]);
    }
  }

  /**
   Under any interleaving the counter is the number of live guards (modulo the word when uncapped)
   and never passes a non-zero cap; a thread is refused only when the cap was full at its own load,
   and loops only because another thread wrote between its load and its exchange.
   */
  lemma EveryInterleaving(cap: nat, steps: seq<Step>)
    requires cap < WORD && Runnable(Start(cap), steps)
    ensures var s := End(Start(cap), steps);
      && s.counter == s.live % WORD
      && (cap > 0 ==> s.live <= cap && s.counter == s.live)
      && (forall i :: 0 <= i < |s.log| && s.log[i].Refused? ==> cap > 0 && s.log[i].liveAtLoad == cap)
      && (forall i :: 0 <= i < |s.log| && s.log[i].Retried? ==>
            s.log[i].at < s.log[i].upTo <= |s.writers| && s.writers[s.log[i].at] != s.log[i].tid)
  {
    RunInv(Start(cap), steps);
    var s := End(Start(cap), steps);
    forall i | 0 <= i < |s.log| ensures OutcomeOk(s, s.log[i]) {}
  }

  // ---- the retry loop -----------------------------------------------------------------------

  lemma {:induction false} RunSnoc(s: Cap, steps: seq<Step>, step: Step)
    requires Runnable(s, steps) && CanStep(End(s, steps), step)
    ensures Runnable(s, steps + [step]) && End(s, steps + [step]) == Do(End(s, steps), step)
    decreases |steps|
  {
    if steps == [] {
      assert steps + [step] == [step] && [step][1..] == [];
    } else {
      assert (steps + [step])[1..] == steps[1..] + [step];
      RunSnoc(Do(s, steps[0]), steps[1..], step);
    }
  }

  /** `s` is where the machine stands after `steps`. */
  ghost predicate Reached(start: Cap, steps: seq<Step>, s: Cap) {
    Runnable(start, steps) && End(start, steps) == s && Inv(s) && s.cap == start.cap
  }

  method Advance(ghost start: Cap, ghost steps: seq<Step>, s: Cap, step: Step) returns (s': Cap, ghost steps': seq<Step>)
    requires Reached(start, steps, s) && CanStep(s, step)
    ensures s' == Do(s, step) && steps' == steps + [step] && Reached(start, steps', s')
  {
    RunSnoc(start, steps, step);
    StepInv(s, step);
    s' := Do(s, step);
    steps' := steps + [step];
  }

  /** Whatever the other threads do meanwhile, as far as they can do it. */
  method Interfere(ghost start: Cap, ghost steps: seq<Step>, s: Cap, t: Tid, others: seq<Step>) returns (s': Cap, ghost steps': seq<Step>)
    requires Reached(start, steps, s)
    ensures Reached(start, steps', s') && PcOf(s', t) == PcOf(s, t) && steps <= steps'
    ensures others == [] ==> s' == s
  {
    s', steps' := s, steps;
    for k := 0 to |others|
      invariant Reached(start, steps', s') && PcOf(s', t) == PcOf(s, t) && steps <= steps'
      invariant k == 0 ==> s' == s
    {
      if others[k].tid != t && CanStep(s', others[k]) {
        s', steps' := Advance(start, steps', s', others[k]);
      }
    }
  }

  datatype Acquired = Guard | Full | StillTrying

  /**
   One call, against any interference: `others[k]` is what the other threads do between the load and
   the exchange of attempt `k`. It makes only steps of the machine; a guard means one more live
   guard, within the cap; a refusal means the cap was full at this very load; and the loop is still
   trying only if every attempt so far met interference.
   */
  method TryAcquire(start: Cap, t: Tid, others: seq<seq<Step>>) returns (s: Cap, result: Acquired, ghost steps: seq<Step>)
    requires Inv(start) && PcOf(start, t).Idle?
    ensures Reached(start, steps, s) && PcOf(s, t).Idle?
    ensures result.Guard? ==> s.live >= 1 && (s.cap > 0 ==> s.live <= s.cap) && s.log != [] && s.log[|s.log| - 1] == Granted(t)
    ensures result.Full? ==> s.cap > 0 && s.live == s.cap && s.log != [] && s.log[|s.log| - 1] == Refused(t, s.cap)
    ensures result.StillTrying? ==> forall k :: 0 <= k < |others| ==> others[k] != []
    ensures start.cap == 0 ==> result.Guard? && s.live == start.live + 1
  {
    s, steps := start, [];
    if s.cap == 0 {
      s, steps := Advance(start, steps, s, AddUncapped(t));
      return s, Guard, steps;
    }
    var k := 0;
    while k < |others|
      invariant k <= |others| && Reached(start, steps, s) && PcOf(s, t).Idle?
      invariant forall j :: 0 <= j < k ==> others[j] != []
    {
      s, steps := Advance(start, steps, s, Load(t));
      if PcOf(s, t).Idle? {
        assert OutcomeOk(s, s.log[|s.log| - 1]);
        return s, Full, steps;
      }
      s, steps := Interfere(start, steps, s, t, others[k]);
      var current := s.counter == PcOf(s, t).seen;
      s, steps := Advance(start, steps, s, Exchange(t));
      if current { return s, Guard, steps; }
      k := k + 1;
    }
    return s, StillTrying, steps;
  }
}
