/**
 The supervisor's loop for one worker role: spawn, wait for the exit, and after an upgrade commit
 (exit code 23) hold the respawn back until the successor is adopted and later lost, or never shows up.
 Times are in milliseconds; every poll is a snapshot of the role's control link.
 */
module Supervision {
  import opened Common
  import opened WorkerLink

  const SUCCESSOR_WAIT_TIMEOUT: nat := 5000
  const SUCCESSOR_LOSS_GRACE: nat := 3000

  datatype Poll = Poll(now: nat, connected: bool, generation: Option<nat>, pid: Option<nat>)

  function Snapshot(now: nat, l: Link): Poll { Poll(now, l.writer.Some?, l.generation, l.pid) }

  predicate Above(p: Poll, g: nat) { p.generation.Some? && p.generation.value > g }

  predicate NoneAbove(polls: seq<Poll>, g: nat) { forall i :: 0 <= i < |polls| ==> !Above(polls[i], g) }

  predicate AllBefore(polls: seq<Poll>, deadline: nat) { forall i :: 0 <= i < |polls| ==> polls[i].now < deadline }

  // ---- waiting for the successor ------------------------------------------------------------

  /** `used` is the number of polls the outcome took; `Pending` means the polls ran out first. */
  datatype WaitOutcome = Pending | Adopted(generation: nat, used: nat) | TimedOut(used: nat)

  function WaitResult(polls: seq<Poll>, base: nat, deadline: nat, k: nat): (o: WaitOutcome)
    requires k <= |polls|
    ensures !o.Pending? ==> k < o.used <= |polls|
    decreases |polls| - k
  {
    if k == |polls| then Pending
    else if Above(polls[k], base) then Adopted(polls[k].generation.value, k + 1)
    else if polls[k].now >= deadline then TimedOut(k + 1)
    else WaitResult(polls, base, deadline, k + 1)
  }

  method WaitForSuccessor(polls: seq<Poll>, base: nat, start: nat) returns (o: WaitOutcome)
    ensures o == WaitResult(polls, base, start + SUCCESSOR_WAIT_TIMEOUT, 0)
  {
    var deadline, k := start + SUCCESSOR_WAIT_TIMEOUT, 0;
    while k < |polls|
      invariant k <= |polls| && WaitResult(polls, base, deadline, 0) == WaitResult(polls, base, deadline, k)
    {
      var seen := polls[k].generation;
      k := k + 1;
      if seen.Some? && seen.value > base { return Adopted(seen.value, k); }
      if polls[k - 1].now >= deadline { return TimedOut(k); }
    }
    return Pending;
  }

  /** Adopted: the first generation above the baseline. Timed out: none in all that time. */
  lemma {:induction false} WaitMeans(polls: seq<Poll>, base: nat, deadline: nat, k: nat)
    requires k <= |polls| && NoneAbove(polls[..k], base) && AllBefore(polls[..k], deadline)
    ensures match WaitResult(polls, base, deadline, k)
      case Pending => NoneAbove(polls, base) && AllBefore(polls, deadline)
      case Adopted(g, used) =>
        && 0 < used <= |polls| && polls[used - 1].generation == Some(g) && g > base
        && NoneAbove(polls[..used - 1], base) && AllBefore(polls[..used - 1], deadline)
      case TimedOut(used) =>
        0 < used <= |polls| && polls[used - 1].now >= deadline && NoneAbove(polls[..used], base)
    decreases |polls| - k
  {
    if k == |polls| {
      assert polls[..k] == polls;
    } else if !Above(polls[k], base) {
      assert polls[..k + 1] == polls[..k] + [polls[k]];
      if polls[k].now < deadline { WaitMeans(polls, base, deadline, k + 1); }
    }
  }

  // ---- watching an adopted successor --------------------------------------------------------

  datatype MonitorOutcome = Watching | Readopted(generation: nat, used: nat) | Lost(used: nat)

  function Absence(absent: Option<nat>, p: Poll): Option<nat> {
    if p.connected then None else if absent.None? then Some(p.now) else absent
  }

  function MonitorResult(polls: seq<Poll>, g: nat, absent: Option<nat>, k: nat): (o: MonitorOutcome)
    requires k <= |polls|
    ensures !o.Watching? ==> k < o.used <= |polls|
    decreases |polls| - k
  {
    if k == |polls| then Watching
    else
      var p := polls[k];
      if Above(p, g) then Readopted(p.generation.value, k + 1)
      else if !p.connected && absent.Some? && Elapsed(absent.value, p.now) >= SUCCESSOR_LOSS_GRACE then Lost(k + 1)
      else MonitorResult(polls, g, Absence(absent, p), k + 1)
  }

  /** The pid the last connected poll before `k` reported, if any did. */
  function PidAt(polls: seq<Poll>, from: nat, k: nat, pid0: Option<nat>): Option<nat>
    requires k <= |polls|
  {
    if k <= from then pid0
    else if polls[k - 1].connected && polls[k - 1].pid.Some? then polls[k - 1].pid
    else PidAt(polls, from, k - 1, pid0)
  }

  method MonitorSuccessor(polls: seq<Poll>, from: nat, g: nat, pid0: Option<nat>) returns (o: MonitorOutcome, pid: Option<nat>)
    requires from <= |polls|
    ensures o == MonitorResult(polls, g, None, from)
    ensures pid == PidAt(polls, from, if o.Watching? then |polls| else o.used - 1, pid0)
  {
    var absentSince: Option<nat>, k := None, from;
    pid := pid0;
    while k < |polls|
      invariant from <= k <= |polls|
      invariant MonitorResult(polls, g, None, from) == MonitorResult(polls, g, absentSince, k)
      invariant pid == PidAt(polls, from, k, pid0)
    {
      var p := polls[k];
      k := k + 1;
      if p.generation.Some? && p.generation.value > g { return Readopted(p.generation.value, k), pid; }
      if p.connected {
        absentSince := None;
        if p.pid.Some? { pid := p.pid; }
      } else if absentSince.None? {
        absentSince := Some(p.now);
      } else if Elapsed(absentSince.value, p.now) >= SUCCESSOR_LOSS_GRACE {
        return Lost(k), pid;
      }
    }
    return Watching, pid;
  }

  /** No writer and nothing newer, poll after poll, for at least the grace. */
  predicate GoneFrom(polls: seq<Poll>, j: int, used: int, g: nat) {
    && 0 <= j < used <= |polls|
    && NoneAbove(polls[j..used], g) && (forall i :: j <= i < used ==> !polls[i].connected)
    && Elapsed(polls[j].now, polls[used - 1].now) >= 3000
  }

  predicate Gone(polls: seq<Poll>, from: int, used: int, g: nat) {
    exists j :: from <= j < used && GoneFrom(polls, j, used, g)
  }

  /** How the absence stamp relates to the polls before `k`. */
  ghost predicate AbsentRun(polls: seq<Poll>, from: int, k: int, g: nat, absent: Option<nat>) {
    && 0 <= from <= k <= |polls|
    && (absent.Some? ==> exists j :: from <= j < k && absent.value == polls[j].now
                           && NoneAbove(polls[j..k], g) && forall i :: j <= i < k ==> !polls[i].connected)
  }

  lemma AbsentStep(polls: seq<Poll>, from: int, k: int, g: nat, absent: Option<nat>)
    requires AbsentRun(polls, from, k, g, absent) && k < |polls| && !Above(polls[k], g)
    ensures AbsentRun(polls, from, k + 1, g, Absence(absent, polls[k]))
    ensures !polls[k].connected && absent.Some? && Elapsed(absent.value, polls[k].now) >= SUCCESSOR_LOSS_GRACE
      ==> Gone(polls, from, k + 1, g)
  {
    if !polls[k].connected {
      var j := k;
      if absent.Some? {
        j :| from <= j < k && absent.value == polls[j].now && NoneAbove(polls[j..k], g)
          && forall i :: j <= i < k ==> !polls[i].connected;
        assert polls[j..k + 1] == polls[j..k] + [polls[k]];
      }
      assert NoneAbove(polls[j..k + 1], g);
      if absent.Some? && Elapsed(absent.value, polls[k].now) >= SUCCESSOR_LOSS_GRACE {
        assert GoneFrom(polls, j, k + 1, g);
      }
    }
  }

  /**
   Re-adopted: the first strictly higher generation. Lost: a stretch of polls with no writer and no
   newer generation that spans the loss grace; a poll that sees the writer back starts it over.
   */
  lemma {:induction false} MonitorMeans(polls: seq<Poll>, from: nat, g: nat, absent: Option<nat>, k: nat)
    requires AbsentRun(polls, from, k, g, absent)
    ensures match MonitorResult(polls, g, absent, k)
      case Watching => true
      case Readopted(g', used) => k < used <= |polls| && g' > g && polls[used - 1].generation == Some(g')
      case Lost(used) => k < used <= |polls| && Gone(polls, from, used, g)
    decreases |polls| - k
  {
    if k < |polls| && !Above(polls[k], g) {
      AbsentStep(polls, from, k, g, absent);
      var lost := !polls[k].connected && absent.Some? && Elapsed(absent.value, polls[k].now) >= SUCCESSOR_LOSS_GRACE;
      if lost {
        assert MonitorResult(polls, g, absent, k) == Lost(k + 1);
      } else {
        MonitorMeans(polls, from, g, Absence(absent, polls[k]), k + 1);
      }
    }
  }

  predicate Ordered(polls: seq<Poll>) { forall i, j :: 0 <= i <= j < |polls| ==> polls[i].now <= polls[j].now }

  /** The unbroken absence before `k` began at `j`. */
  predicate AbsentSince(polls: seq<Poll>, from: int, k: int, j: int) {
    0 <= from <= j < k <= |polls| && (j == from || polls[j - 1].connected) && forall i :: j <= i < k ==> !polls[i].connected
  }

  /** The absence stamp is the start of that absence, if there is one. */
  ghost predicate Stamped(polls: seq<Poll>, from: int, k: int, absent: Option<nat>) {
    && 0 <= from <= k <= |polls|
    && if absent.None? then k == from || polls[k - 1].connected
       else exists j :: AbsentSince(polls, from, k, j) && absent.value == polls[j].now
  }

  lemma NotGoneYet(polls: seq<Poll>, from: int, k: int, g: nat, absent: Option<nat>)
    requires Ordered(polls) && Stamped(polls, from, k, absent) && k < |polls|
    requires polls[k].connected || absent.None? || Elapsed(absent.value, polls[k].now) < SUCCESSOR_LOSS_GRACE
    ensures !Gone(polls, from, k + 1, g) && Stamped(polls, from, k + 1, Absence(absent, polls[k]))
  {
    var j := k;
    if absent.Some? { j :| AbsentSince(polls, from, k, j) && absent.value == polls[j].now; }
    if !polls[k].connected { assert AbsentSince(polls, from, k + 1, j); }
  }

  /** Nothing in these polls could have ended the watch: nothing newer, and no absence of the whole grace. */
  ghost predicate Uneventful(polls: seq<Poll>, from: int, k: int, until: int, g: nat) {
    && (forall i :: k <= i < until && 0 <= i < |polls| ==> !Above(polls[i], g))
    && (forall u :: k < u <= until ==> !Gone(polls, from, u, g))
  }

  /** The watch ends at the first poll that shows a newer generation or completes an absence, and not before. */
  lemma {:induction false} MonitorIsPrompt(polls: seq<Poll>, from: nat, g: nat, absent: Option<nat>, k: nat)
    requires Ordered(polls) && Stamped(polls, from, k, absent)
    ensures Uneventful(polls, from, k, EndOfWatch(polls, g, absent, k), g)
    decreases |polls| - k
  {
    if k < |polls| && !Above(polls[k], g) {
      if polls[k].connected || absent.None? || Elapsed(absent.value, polls[k].now) < SUCCESSOR_LOSS_GRACE {
        NotGoneYet(polls, from, k, g, absent);
        MonitorIsPrompt(polls, from, g, Absence(absent, polls[k]), k + 1);
        OneMore(polls, from, k, EndOfWatch(polls, g, absent, k), g);
      }
    }
  }

  function EndOfWatch(polls: seq<Poll>, g: nat, absent: Option<nat>, k: nat): int
    requires k <= |polls|
  {
    var o := MonitorResult(polls, g, absent, k);
    if o.Watching? then |polls| else o.used - 1
  }

  lemma OneMore(polls: seq<Poll>, from: int, k: int, until: int, g: nat)
    requires 0 <= k < |polls| && !Above(polls[k], g) && !Gone(polls, from, k + 1, g) && Uneventful(polls, from, k + 1, until, g)
    ensures Uneventful(polls, from, k, until, g)
  {
  }

  // ---- a chain of adoptions -----------------------------------------------------------------

  /** A generation taken over, and how many polls had been read by then. */
  datatype Adoption = Adoption(generation: nat, used: nat)

  /** The last poll read before the adoption showed that generation. */
  predicate SawIt(polls: seq<Poll>, a: Adoption) {
    0 < a.used <= |polls| && polls[a.used - 1].generation == Some(a.generation)
  }

  /** Adopted one after the other: all seen, all above the baseline, generations strictly increasing. */
  predicate Chain(polls: seq<Poll>, base: nat, chain: seq<Adoption>) {
    && (forall i :: 0 <= i < |chain| ==> SawIt(polls, chain[i]) && chain[i].generation > base)
    && (forall i, j :: 0 <= i < j < |chain| ==> chain[i].generation < chain[j].generation && chain[i].used < chain[j].used)
  }

  /** After the adoption, no writer and nothing newer for the whole grace. */
  ghost predicate LostAfter(polls: seq<Poll>, a: Adoption) { exists u :: Gone(polls, a.used, u, a.generation) }

  /** The successors held one after the other, and whether the last of them was lost in the end. */
  datatype Held = Held(chain: seq<Adoption>, lost: bool)

  function HoldResult(polls: seq<Poll>, a: Adoption): Held
    requires a.used <= |polls|
    decreases |polls| - a.used
  {
    match MonitorResult(polls, a.generation, None, a.used)
    case Watching => Held([a], false)
    case Lost(_) => Held([a], true)
    case Readopted(g, used) => var rest := HoldResult(polls, Adoption(g, used)); Held([a] + rest.chain, rest.lost)
  }

  method SuperviseAdopted(polls: seq<Poll>, first: Adoption) returns (h: Held)
    requires first.used <= |polls|
    ensures h == HoldResult(polls, first)
  {
    var current, done: seq<Adoption> := first, [];
    while true
      invariant first.used <= current.used <= |polls|
      invariant var rest := HoldResult(polls, current);
        HoldResult(polls, first) == Held(done + rest.chain, rest.lost)
      decreases |polls| - current.used
    {
      var reported := if current.used > 0 then polls[current.used - 1].pid else None;
      var outcome, _ := MonitorSuccessor(polls, current.used, current.generation, reported);
      match outcome
      case Watching => return Held(done + [current], false);
      case Lost(_) => return Held(done + [current], true);
      case Readopted(g, k) =>
        var rest := HoldResult(polls, Adoption(g, k));
        assert done + ([current] + rest.chain) == done + [current] + rest.chain;
        done, current := done + [current], Adoption(g, k);
    }
  }

  lemma Prepend(polls: seq<Poll>, base: nat, a: Adoption, rest: seq<Adoption>)
    requires SawIt(polls, a) && a.generation > base && Chain(polls, a.generation, rest)
    requires forall i :: 0 <= i < |rest| ==> rest[i].used > a.used
    ensures Chain(polls, base, [a] + rest)
  {
  }

  /**
   What an adoption chain means: strictly increasing reports, and at the end a real absence that began
   after the last adoption. With time-ordered polls the last successor is given up exactly then.
   */
  lemma {:induction false} HoldMeans(polls: seq<Poll>, base: nat, a: Adoption)
    requires SawIt(polls, a) && a.generation > base
    ensures var h := HoldResult(polls, a);
      && h.chain != [] && h.chain[0] == a && Chain(polls, base, h.chain)
      && (h.lost ==> LostAfter(polls, h.chain[|h.chain| - 1]))
      && (Ordered(polls) && LostAfter(polls, h.chain[|h.chain| - 1]) ==> h.lost)
    decreases |polls| - a.used
  {
    var g, used := a.generation, a.used;
    MonitorMeans(polls, used, g, None, used);
    var o := MonitorResult(polls, g, None, used);
    if o.Readopted? {
      var next := Adoption(o.generation, o.used);
      HoldMeans(polls, g, next);
      var rest := HoldResult(polls, next);
      Prepend(polls, base, a, rest.chain);
      assert ([a] + rest.chain)[|rest.chain|] == rest.chain[|rest.chain| - 1];
    } else if o.Watching? && Ordered(polls) {
      MonitorIsPrompt(polls, used, g, None, used);
      assert forall u :: Gone(polls, used, u, g) ==> used < u <= |polls|;
    }
  }

  // ---- the role loop ------------------------------------------------------------------------

  /**
   One turn of the loop: whether we own the child, the generation in the link when it went live, its
   exit, and what the polls after the exit saw. An adopted pid's exit code is never observed.
   */
  datatype Turn = Turn(owned: bool, linkGeneration: Option<nat>, code: int, exitAt: nat, polls: seq<Poll>)

  function ExitCode(t: Turn): int { if t.owned then t.code else 0 }

  function Baseline(t: Turn, current: nat): nat {
    if t.linkGeneration.Some? then t.linkGeneration.value else current
  }

  /** No successor in five seconds of polls. */
  predicate NeverShowed(t: Turn, base: nat) {
    exists used :: 0 < used <= |t.polls| && NoneAbove(t.polls[..used], base)
      && t.polls[used - 1].now >= t.exitAt + 5000
  }

  /** Adopted, and after the last adoption gone from the link for the whole grace. */
  ghost predicate AdoptedThenLost(t: Turn, chain: seq<Adoption>) {
    chain != [] && LostAfter(t.polls, chain[|chain| - 1])
  }

  /** When the loop may go on to its next fresh spawn. */
  ghost predicate MayRespawn(t: Turn, base: nat, chain: seq<Adoption>) {
    ExitCode(t) == UPGRADE_COMMIT_EXIT_CODE ==> NeverShowed(t, base) || AdoptedThenLost(t, chain)
  }

  /** The verdict on a committed exit: held back, or free to respawn; and who was adopted. */
  function Verdict(t: Turn, base: nat): (v: Held) {
    match WaitResult(t.polls, base, t.exitAt + SUCCESSOR_WAIT_TIMEOUT, 0)
    case Pending => Held([], false)
    case TimedOut(_) => Held([], true)
    case Adopted(g, used) => HoldResult(t.polls, Adoption(g, used))
  }

  method AfterCommit(t: Turn, base: nat) returns (v: Held)
    ensures v == Verdict(t, base)
  {
    var o := WaitForSuccessor(t.polls, base, t.exitAt);
    match o
    case Pending => return Held([], false);
    case TimedOut(_) => return Held([], true);
    case Adopted(g, used) => v := SuperviseAdopted(t.polls, Adoption(g, used));
  }

  lemma StillWaiting(t: Turn, base: nat, k: nat)
    requires k <= |t.polls| && AllBefore(t.polls[..k], t.exitAt + SUCCESSOR_WAIT_TIMEOUT)
    requires k == |t.polls| || Above(t.polls[k], base)
    ensures !NeverShowed(t, base)
  {
    assert forall i :: 0 <= i < k ==> t.polls[..k][i] == t.polls[i];
    if k < |t.polls| {
      forall used | k < used <= |t.polls| ensures !NoneAbove(t.polls[..used], base) {
        assert t.polls[..used][k] == t.polls[k];
      }
    }
  }

  /**
   After a commit: adopted generations are above the baseline and were seen; the verdict is to respawn
   only if no successor showed up in time or the last one was lost after its adoption, and with
   time-ordered polls exactly then.
   */
  lemma VerdictMeans(t: Turn, base: nat)
    requires ExitCode(t) == UPGRADE_COMMIT_EXIT_CODE
    ensures var v := Verdict(t, base);
      && Chain(t.polls, base, v.chain)
      && (v.lost ==> MayRespawn(t, base, v.chain)) && (v.lost && v.chain != [] ==> AdoptedThenLost(t, v.chain))
      && (Ordered(t.polls) && MayRespawn(t, base, v.chain) ==> v.lost)
  {
    WaitMeans(t.polls, base, t.exitAt + SUCCESSOR_WAIT_TIMEOUT, 0);
    match WaitResult(t.polls, base, t.exitAt + SUCCESSOR_WAIT_TIMEOUT, 0)
    case Pending =>
      assert t.polls[..|t.polls|] == t.polls;
      StillWaiting(t, base, |t.polls|);
    case TimedOut(_) =>
    case Adopted(g, used) =>
      StillWaiting(t, base, used - 1);
      HoldMeans(t.polls, base, Adoption(g, used));
  }

  /** What the loop does with one turn. */
  function Handled(t: Turn, base: nat): Held {
    if ExitCode(t) == UPGRADE_COMMIT_EXIT_CODE then Verdict(t, base) else Held([], true)
  }

  lemma HandledMeans(t: Turn, base: nat)
    ensures var v := Handled(t, base);
      && Chain(t.polls, base, v.chain)
      && (v.lost ==> MayRespawn(t, base, v.chain)) && (v.lost && v.chain != [] ==> AdoptedThenLost(t, v.chain))
      && (Ordered(t.polls) && MayRespawn(t, base, v.chain) ==> v.lost)
  {
    if ExitCode(t) == UPGRADE_COMMIT_EXIT_CODE { VerdictMeans(t, base); }
  }

  /** The poll at `k` comes while the loop still waits for a successor. */
  predicate InTime(t: Turn, k: int) { 0 <= k < |t.polls| && AllBefore(t.polls[..k], t.exitAt + 5000) }

  /** Held is exactly who reports a generation above `floor` in time, and nobody at or below it. */
  ghost predicate HeldAbove(t: Turn, floor: nat, h: Held) {
    && (forall i :: 0 <= i < |h.chain| ==> h.chain[i].generation > floor)
    && (forall k :: InTime(t, k) && Above(t.polls[k], floor) ==> h.chain != [] && h.chain[0].used <= k + 1)
    && (h.chain != [] ==> InTime(t, h.chain[0].used - 1))
  }

  lemma NobodyInTime(t: Turn, base: nat, used: nat)
    requires 0 < used <= |t.polls| && NoneAbove(t.polls[..used], base) && t.polls[used - 1].now >= t.exitAt + 5000
    ensures forall k :: InTime(t, k) ==> !Above(t.polls[k], base)
  {
    forall k | InTime(t, k) ensures !Above(t.polls[k], base) {
      assert forall i :: 0 <= i < k ==> t.polls[..k][i] == t.polls[i];
      assert k < used;
      assert t.polls[..used][k] == t.polls[k];
    }
  }

  lemma FirstIsFirst(t: Turn, base: nat, k: nat, used: nat)
    requires k < |t.polls| && Above(t.polls[k], base) && 0 < used <= |t.polls| && NoneAbove(t.polls[..used - 1], base)
    ensures used <= k + 1
  {
    assert forall i :: 0 <= i < used - 1 ==> t.polls[..used - 1][i] == t.polls[i];
  }

  lemma VerdictAbove(t: Turn, base: nat)
    ensures HeldAbove(t, base, Verdict(t, base))
  {
    var deadline := t.exitAt + SUCCESSOR_WAIT_TIMEOUT;
    WaitMeans(t.polls, base, deadline, 0);
    var o := WaitResult(t.polls, base, deadline, 0);
    if o.TimedOut? {
      NobodyInTime(t, base, o.used);
    } else if o.Adopted? {
      HoldMeans(t.polls, base, Adoption(o.generation, o.used));
      forall k | InTime(t, k) && Above(t.polls[k], base) ensures o.used <= k + 1 { FirstIsFirst(t, base, k, o.used); }
    }
  }

  predicate Committed(t: Turn) { t.owned && t.code == 23 }

  /** The generation the outgoing worker is known to have had. */
  function Floor(t: Turn): nat { if t.linkGeneration.Some? then t.linkGeneration.value else 0 }

  /**
   What a turn comes to. A commit is followed by whoever reports above the outgoing worker's
   generation in time (above 0 if the link had none), and by a respawn only if nobody does or the last
   one held was gone for the grace after its adoption; any other exit leads straight to a respawn.
   */
  ghost predicate TurnMeans(t: Turn, h: Held) {
    && Chain(t.polls, Floor(t), h.chain)
    && (Committed(t) ==>
          && (t.linkGeneration.None? ==> HeldAbove(t, 0, h))
          && (t.linkGeneration.Some? ==> HeldAbove(t, t.linkGeneration.value, h))
          && (h.lost ==> if h.chain == [] then NeverShowed(t, Floor(t)) else AdoptedThenLost(t, h.chain))
          && (Ordered(t.polls) && AdoptedThenLost(t, h.chain) ==> h.lost)
          && (NeverShowed(t, Floor(t)) ==> h.lost))
    && (!Committed(t) ==> h.chain == [] && h.lost)
  }

  /** The baseline of a turn is its floor wherever it matters. */
  lemma BaselineIsFloor(t: Turn, adoptedGen: nat)
    ensures Handled(t, Baseline(t, if t.owned then 0 else adoptedGen)) == Handled(t, Floor(t))
  {
  }

  lemma HandledIs(t: Turn)
    ensures TurnMeans(t, Handled(t, Floor(t)))
  {
    if Committed(t) {
      VerdictMeans(t, Floor(t));
      VerdictAbove(t, Floor(t));
      NeverShowedIsLost(t, Floor(t));
    }
  }

  lemma NeverShowedIsLost(t: Turn, base: nat)
    ensures NeverShowed(t, base) ==> Verdict(t, base) == Held([], true)
    ensures Verdict(t, base) == Held([], true) ==> NeverShowed(t, base)
    ensures Verdict(t, base).chain == [] && Verdict(t, base).lost ==> NeverShowed(t, base)
  {
    WaitMeans(t.polls, base, t.exitAt + SUCCESSOR_WAIT_TIMEOUT, 0);
    match WaitResult(t.polls, base, t.exitAt + SUCCESSOR_WAIT_TIMEOUT, 0)
    case Pending =>
      assert t.polls[..|t.polls|] == t.polls;
      StillWaiting(t, base, |t.polls|);
    case TimedOut(_) =>
    case Adopted(g, used) =>
      StillWaiting(t, base, used - 1);
      HoldMeans(t.polls, base, Adoption(g, used));
  }

  /**
   The role loop over any history of turns. It takes turn after turn, each as `TurnMeans` says, and goes
   on to the next fresh spawn exactly as long as they let it. The generation carried over from a
   supervisor upgrade plays no part: an adopted process is never seen to commit.
   */
  method SuperviseRole(turns: seq<Turn>, adoptedGen: nat) returns (n: nat, held: seq<Held>)
    requires forall i :: 1 <= i < |turns| ==> turns[i].owned
    ensures |held| == n <= |turns|
    ensures forall i :: 0 <= i < n ==> TurnMeans(turns[i], held[i])
    ensures forall i :: 0 <= i < n ==> held[i] == Handled(turns[i], Floor(turns[i]))
    ensures forall i :: 0 <= i < n - 1 ==> held[i].lost
    ensures n < |turns| ==> n > 0 && !held[n - 1].lost
  {
    n, held := RoleLoop(turns, adoptedGen);
    forall i | 0 <= i < n ensures TurnMeans(turns[i], held[i]) { HandledIs(turns[i]); }
  }

  method RoleLoop(turns: seq<Turn>, adoptedGen: nat) returns (n: nat, held: seq<Held>)
    requires forall i :: 1 <= i < |turns| ==> turns[i].owned
    ensures |held| == n <= |turns|
    ensures forall i :: 0 <= i < n ==> held[i] == Handled(turns[i], Floor(turns[i]))
    ensures forall i :: 0 <= i < n - 1 ==> held[i].lost
    ensures n < |turns| ==> n > 0 && !held[n - 1].lost
  {
    var currentGeneration := adoptedGen;
    n, held := 0, [];
    while n < |turns|
      invariant |held| == n <= |turns| && (n == 0 ==> currentGeneration == adoptedGen)
      invariant forall i :: 0 <= i < n ==> held[i] == Handled(turns[i], Floor(turns[i])) && held[i].lost
    {
      var t := turns[n];
      if t.owned { currentGeneration := 0; }
      var base := if t.linkGeneration.Some? then t.linkGeneration.value else currentGeneration;
      var v := Held([], true);
      if ExitCode(t) == UPGRADE_COMMIT_EXIT_CODE { v := AfterCommit(t, base); }
      BaselineIsFloor(t, adoptedGen);
      held, n := held + [v], n + 1;
      if !v.lost { return; }
    }
  }

  /** Some poll sees the writer in every stretch of the loss grace. */
  ghost predicate ShortAbsences(polls: seq<Poll>) {
    forall j, k :: (0 <= j <= k < |polls| && Elapsed(polls[j].now, polls[k].now) >= SUCCESSOR_LOSS_GRACE
                    ==> exists i :: j <= i <= k && polls[i].connected)
  }

  /** Shorter absences never cause a respawn: a turn that adopted anybody keeps standing down. */
  lemma ShortAbsenceIsHarmless(t: Turn, base: nat)
    requires ShortAbsences(t.polls)
    ensures Handled(t, base).chain != [] ==> !Handled(t, base).lost
  {
    HandledMeans(t, base);
    var chain := Handled(t, base).chain;
    if chain != [] { NotLostAfter(t.polls, chain[|chain| - 1]); }
  }

  lemma SeenBetween(polls: seq<Poll>, j: int, u: int, g: nat)
    requires ShortAbsences(polls)
    ensures !GoneFrom(polls, j, u, g)
  {
    if 0 <= j < u <= |polls| && Elapsed(polls[j].now, polls[u - 1].now) >= SUCCESSOR_LOSS_GRACE {
      var i :| j <= i <= u - 1 && polls[i].connected;
    }
  }

  lemma NotLostAfter(polls: seq<Poll>, a: Adoption)
    requires ShortAbsences(polls)
    ensures !LostAfter(polls, a)
  {
    forall u, j ensures !GoneFrom(polls, j, u, a.generation) { SeenBetween(polls, j, u, a.generation); }
  }

  // ---- what the polls read ------------------------------------------------------------------

  /** Every poll is a snapshot of the link after some interleaving of its events. */
  ghost predicate FromLink(polls: seq<Poll>, runs: seq<seq<Event>>) {
    |polls| == |runs| && forall i :: 0 <= i < |polls| ==>
      Possible(Fresh(), runs[i]) && polls[i] == Snapshot(polls[i].now, After(Fresh(), runs[i]).link)
  }

  /** Every generation the role loop adopted was really reported on the link, with no owner's disconnect since. */
  lemma AdoptedWasReported(t: Turn, base: nat, runs: seq<seq<Event>>, k: nat) returns (pid: nat)
    requires FromLink(t.polls, runs) && k < |Handled(t, base).chain|
    ensures var a := Handled(t, base).chain[k];
      && 0 < a.used <= |runs| && Possible(Fresh(), runs[a.used - 1])
      && LiveReport(After(Fresh(), runs[a.used - 1]).log, a.generation, pid)
  {
    HandledMeans(t, base);
    var a := Handled(t, base).chain[k];
    EveryLinkRun(runs[a.used - 1]);
    pid := After(Fresh(), runs[a.used - 1]).link.pid.value;
  }

  /** Nobody connected, the writer was taken for a terminal message, or the owning connection is gone. */
  ghost predicate Unreachable(h: History) { h.accepts == 0 || WriterTaken(h.log) || OwnerGone(h.log) }

  /**
   A successor is given up only after the link was unreachable at every poll of the grace; and where no
   terminal message was sent to it, that means its connection was torn down.
   */
  lemma LostMeansUnreachable(polls: seq<Poll>, runs: seq<seq<Event>>, a: Adoption) returns (j: nat, u: nat)
    requires FromLink(polls, runs) && LostAfter(polls, a)
    ensures a.used <= j < u <= |runs| && Elapsed(polls[j].now, polls[u - 1].now) >= SUCCESSOR_LOSS_GRACE
    ensures forall i :: j <= i < u ==> Possible(Fresh(), runs[i]) && Unreachable(After(Fresh(), runs[i]))
    ensures forall i :: j <= i < u ==>
      var h := After(Fresh(), runs[i]);
      1 <= h.accepts < WORD && !WriterTaken(h.log) ==> h.accepts in h.gone
  {
    u :| Gone(polls, a.used, u, a.generation);
    j :| a.used <= j < u && GoneFrom(polls, j, u, a.generation);
    forall i | j <= i < u
      ensures Unreachable(After(Fresh(), runs[i]))
      ensures var h := After(Fresh(), runs[i]);
        1 <= h.accepts < WORD && !WriterTaken(h.log) ==> h.accepts in h.gone
    {
      MissingWriter(runs[i]);
    }
  }

  /** The link as it stands, polled twice across the grace. */
  function TwoPolls(h: History, t: nat): seq<Poll> { [Snapshot(t, h.link), Snapshot(t + SUCCESSOR_LOSS_GRACE, h.link)] }

  /**
   In every reachable state of a link with nothing newer on it, the monitor gives the successor up
   after the grace if and only if a terminal message took its writer or its connection is gone; so a
   connected successor is given up exactly when a terminal message was sent to it.
   */
  lemma TakenWriterLooksLost(es: seq<Event>, g: nat, t: nat)
    requires Possible(Fresh(), es) && 1 <= After(Fresh(), es).accepts < WORD
    requires var l := After(Fresh(), es).link; l.generation.Some? ==> l.generation.value <= g
    ensures var h := After(Fresh(), es);
      && (MonitorResult(TwoPolls(h, t), g, None, 0).Lost? <==> WriterTaken(h.log) || h.accepts in h.gone)
      && (h.accepts !in h.gone ==> (MonitorResult(TwoPolls(h, t), g, None, 0).Lost? <==> WriterTaken(h.log)))
  {
    MissingWriter(es);
    var h := After(Fresh(), es);
    var polls := TwoPolls(h, t);
    if h.link.writer.None? {
      assert MonitorResult(polls, g, Some(t), 1) == Lost(2);
    } else {
      assert MonitorResult(polls, g, None, 1) == Watching;
    }
  }
}
