/**
 The supervisor's rolling upgrade: walk the roles one by one, wait for each to report a higher
 generation, optionally watch it as a canary, stop at the first failure, and stream progress frames
 that the admin command folds into its exit status.
 */
module RollingUpgrade {
  import opened Common
  import W = Watchdog

  datatype Role = Processor | Plain | Scanner | Tls

  datatype UpgradePhase = Starting | Done | Timeout | Skipped | CanaryAborted

  datatype Frame =
    | StepFrame(worker: Role, phase: UpgradePhase, before: Option<nat>, after: Option<nat>, ok: bool)
    | Complete(allOk: bool)
    | ErrorFrame
    | OtherFrame

  /** One turn of the status loop: the clock, then what the status query brought. */
  datatype StatusPoll = StatusPoll(now: nat, generation: Option<nat>)

  datatype CanaryTick = CanaryTick(now: nat, state: W.HealthState)

  /** Everything the walk learns from the outside about one role. Times in milliseconds. */
  datatype RoleWorld = RoleWorld(
    baseline: W.HealthState, pre: Option<nat>, sentAt: nat, polls: seq<StatusPoll>, watchFrom: nat, ticks: seq<CanaryTick>)

  function PollMillis(role: Role): nat { if role.Tls? then 10000 else 5000 }

  function Rank(s: W.HealthState): nat {
    match s
    case Healthy => 0
    case Backoff => 1
    case Flapping => 2
    case Failed => 3
  }

  /** The clock passes the deadline of either loop while it is being polled. */
  predicate ClockRuns(role: Role, w: RoleWorld, canary: Option<nat>) {
    && (exists i :: 0 <= i < |w.polls| && w.polls[i].now > w.sentAt + PollMillis(role))
    && (canary.Some? ==> exists i :: 0 <= i < |w.ticks| && w.ticks[i].now >= w.watchFrom + 1000 * canary.value)
  }

  // ---- one role -----------------------------------------------------------------------------

  datatype Attempt = NoLink | Expired | Committed(after: nat)

  /** A new generation seen by the poll at `i`, with the deadline still ahead at every poll up to it. */
  predicate CommitsAt(role: Role, w: RoleWorld, i: int) {
    && w.pre.Some? && 0 <= i < |w.polls| && w.polls[i].generation.Some? && w.polls[i].generation.value > w.pre.value
    && forall j :: 0 <= j <= i ==> w.polls[j].now <= w.sentAt + if role.Tls? then 10000 else 5000
  }

  predicate FirstCommit(role: Role, w: RoleWorld, i: int) {
    CommitsAt(role, w, i) && forall j :: 0 <= j < i ==> !CommitsAt(role, w, j)
  }

  /** What a finished attempt says about the polls. */
  ghost predicate AttemptMeans(role: Role, w: RoleWorld, a: Attempt) {
    match a
    case NoLink => w.pre.None?
    case Expired => w.pre.Some? && forall i :: !CommitsAt(role, w, i)
    case Committed(after) =>
      exists i :: FirstCommit(role, w, i) && w.polls[i].generation == Some(after)
  }

  /** The role's state got worse than its baseline while it was watched. */
  predicate RegressesAt(w: RoleWorld, secs: nat, i: int) {
    && 0 <= i < |w.ticks| && Rank(w.ticks[i].state) > Rank(w.baseline)
    && forall j :: 0 <= j <= i ==> w.ticks[j].now < w.watchFrom + 1000 * secs
  }

  function AttemptFrames(role: Role, pre: Option<nat>, a: Attempt): seq<Frame> {
    match a
    case NoLink => [StepFrame(role, Skipped, None, None, false)]
    case Expired => [StepFrame(role, Starting, pre, None, true), StepFrame(role, Timeout, pre, None, false)]
    case Committed(g) => [StepFrame(role, Starting, pre, None, true), StepFrame(role, Done, pre, Some(g), true)]
  }

  datatype Tally = Tally(committed: nat, timedOut: nat, skipped: nat, canaryAborted: nat)

  const ZERO: Tally := Tally(0, 0, 0, 0)

  function Counted(t: Tally, a: Attempt): Tally {
    match a
    case NoLink => t.(skipped := t.skipped + 1)
    case Expired => t.(timedOut := t.timedOut + 1)
    case Committed(_) => t.(committed := t.committed + 1)
  }

  /** The progress sink and the counters a walk writes to. */
  class Progress {
    var frames: seq<Frame>
    var tallies: map<Role, Tally>

    function Of(role: Role): Tally
      reads this
    {
      if role in tallies then tallies[role] else ZERO
    }

    constructor ()
      ensures frames == [] && tallies == map[]
    {
      frames, tallies := [], map[];
    }

    method Notify(f: Frame)
      modifies this`frames
      ensures frames == old(frames) + [f]
    {
      frames := frames + [f];
    }

    method Count(role: Role, a: Attempt)
      modifies this`tallies
      ensures tallies == old(tallies)[role := Counted(old(Of(role)), a)]
    {
      tallies := tallies[role := Counted(Of(role), a)];
    }

    method UpgradeOne(role: Role, w: RoleWorld) returns (a: Attempt)
      requires exists i :: 0 <= i < |w.polls| && w.polls[i].now > w.sentAt + PollMillis(role)
      modifies this
      ensures AttemptMeans(role, w, a)
      ensures frames == old(frames) + AttemptFrames(role, w.pre, a)
      ensures tallies == old(tallies)[role := Counted(old(Of(role)), a)]
    {
      if w.pre.None? {
        Count(role, NoLink);
        Notify(StepFrame(role, Skipped, None, None, false));
        return NoLink;
      }
      Notify(StepFrame(role, Starting, w.pre, None, true));
      var deadline, k := w.sentAt + PollMillis(role), 0;
      while k < |w.polls|
        invariant 0 <= k <= |w.polls| && forall i :: 0 <= i < k ==> w.polls[i].now <= deadline
        invariant forall i :: 0 <= i < k ==> !CommitsAt(role, w, i)
      {
        if w.polls[k].now > deadline { break; }
        var g := w.polls[k].generation;
        if g.Some? && g.value > w.pre.value {
          Count(role, Committed(g.value));
          Notify(StepFrame(role, Done, w.pre, g, true));
          assert FirstCommit(role, w, k);
          return Committed(g.value);
        }
        k := k + 1;
      }
      Count(role, Expired);
      Notify(StepFrame(role, Timeout, w.pre, None, false));
      return Expired;
    }

    /** True when the watched window stayed clean. */
    method CanaryObserve(role: Role, w: RoleWorld, secs: nat) returns (clean: bool)
      requires exists i :: 0 <= i < |w.ticks| && w.ticks[i].now >= w.watchFrom + 1000 * secs
      modifies this
      ensures clean <==> forall i :: !RegressesAt(w, secs, i)
      ensures clean ==> frames == old(frames) && tallies == old(tallies)
      ensures !clean ==>
        && frames == old(frames) + [StepFrame(role, CanaryAborted, None, None, false)]
        && tallies == old(tallies)[role := old(Of(role)).(canaryAborted := old(Of(role)).canaryAborted + 1)]
    {
      var deadline, k := w.watchFrom + 1000 * secs, 0;
      while w.ticks[k].now < deadline
        invariant 0 <= k < |w.ticks| && forall i :: 0 <= i < k ==> w.ticks[i].now < deadline && !RegressesAt(w, secs, i)
        invariant frames == old(frames) && tallies == old(tallies)
        decreases |w.ticks| - k
      {
        if Rank(w.ticks[k].state) > Rank(w.baseline) {
          tallies := tallies[role := Of(role).(canaryAborted := Of(role).canaryAborted + 1)];
          Notify(StepFrame(role, CanaryAborted, None, None, false));
          assert RegressesAt(w, secs, k);
          return false;
        }
        k := k + 1;
      }
      return true;
    }
  }

  // ---- the walk -----------------------------------------------------------------------------

  datatype OnlyRole = AllRoles | Only(role: Role) | UnknownRole

  datatype Request = Request(includeTls: bool, canary: Option<nat>, only: OnlyRole)

  function Targets(req: Request): seq<Role> {
    match req.only
    case AllRoles => if req.includeTls then [Processor, Plain, Scanner, Tls] else [Processor, Plain, Scanner]
    case Only(role) => [role]
    case UnknownRole => []
  }

  datatype Outcome = Outcome(role: Role, pre: Option<nat>, attempt: Attempt, aborted: bool)

  predicate Ok(o: Outcome) { o.attempt.Committed? && !o.aborted }

  function OutcomeFrames(o: Outcome): seq<Frame> {
    AttemptFrames(o.role, o.pre, o.attempt) + if o.aborted then [StepFrame(o.role, CanaryAborted, None, None, false)] else []
  }

  function StepFrames(outcomes: seq<Outcome>): seq<Frame> {
    if outcomes == [] then [] else StepFrames(outcomes[..|outcomes| - 1]) + OutcomeFrames(outcomes[|outcomes| - 1])
  }

  /** What a role's outcome says about the role. */
  ghost predicate OutcomeMeans(o: Outcome, w: RoleWorld, canary: Option<nat>) {
    && o.pre == w.pre && AttemptMeans(o.role, w, o.attempt)
    && (o.aborted <==> o.attempt.Committed? && canary.Some? && exists i :: RegressesAt(w, canary.value, i))
  }

  function Tallied(t: Tally, o: Outcome): Tally {
    var c := Counted(t, o.attempt);
    if o.aborted then c.(canaryAborted := c.canaryAborted + 1) else c
  }

  /** Attempted one role after the other, in order, and stopped at the first failure. */
  predicate Walked(targets: seq<Role>, outcomes: seq<Outcome>, allOk: bool) {
    && |outcomes| <= |targets|
    && (forall i :: 0 <= i < |outcomes| ==> outcomes[i].role == targets[i])
    && (forall i :: 0 <= i < |outcomes| - 1 ==> Ok(outcomes[i]))
    && (allOk <==> |outcomes| == |targets| && forall i :: 0 <= i < |outcomes| ==> Ok(outcomes[i]))
    && (!allOk ==> outcomes != [] && !Ok(outcomes[|outcomes| - 1]))
  }

  method WalkRole(p: Progress, role: Role, w: RoleWorld, canary: Option<nat>) returns (o: Outcome)
    requires ClockRuns(role, w, canary)
    modifies p
    ensures o.role == role && OutcomeMeans(o, w, canary)
    ensures p.frames == old(p.frames) + OutcomeFrames(o)
    ensures p.tallies == old(p.tallies)[role := Tallied(old(p.Of(role)), o)]
  {
    var a := p.UpgradeOne(role, w);
    o := Outcome(role, w.pre, a, false);
    if a.Committed? && canary.Some? {
      var clean := p.CanaryObserve(role, w, canary.value);
      o := o.(aborted := !clean);
    }
  }

  function TallyAll(tallies: map<Role, Tally>, outcomes: seq<Outcome>): map<Role, Tally> {
    if outcomes == [] then tallies
    else
      var rest, o := TallyAll(tallies, outcomes[..|outcomes| - 1]), outcomes[|outcomes| - 1];
      rest[o.role := Tallied(TallyOf(rest, o.role), o)]
  }

  function TallyOf(tallies: map<Role, Tally>, role: Role): Tally { if role in tallies then tallies[role] else ZERO }

  lemma WalkSnoc(tallies: map<Role, Tally>, outcomes: seq<Outcome>, o: Outcome)
    ensures StepFrames(outcomes + [o]) == StepFrames(outcomes) + OutcomeFrames(o)
    ensures TallyAll(tallies, outcomes + [o])
         == TallyAll(tallies, outcomes)[o.role := Tallied(TallyOf(TallyAll(tallies, outcomes), o.role), o)]
  {
    assert (outcomes + [o])[..|outcomes|] == outcomes;
  }

  /** A walk in progress: everything before the last role succeeded. */
  predicate Walking(targets: seq<Role>, outcomes: seq<Outcome>, allOk: bool) {
    && |outcomes| <= |targets|
    && (forall i :: 0 <= i < |outcomes| ==> outcomes[i].role == targets[i])
    && (forall i :: 0 <= i < |outcomes| - 1 ==> Ok(outcomes[i]))
    && (if outcomes == [] then allOk else allOk <==> Ok(outcomes[|outcomes| - 1]))
  }

  lemma WalkingOn(targets: seq<Role>, outcomes: seq<Outcome>, o: Outcome)
    requires Walking(targets, outcomes, true) && |outcomes| < |targets| && o.role == targets[|outcomes|]
    ensures Walking(targets, outcomes + [o], Ok(o))
  {
  }

  lemma WalkingDone(targets: seq<Role>, outcomes: seq<Outcome>, allOk: bool)
    requires Walking(targets, outcomes, allOk) && (|outcomes| == |targets| || !allOk)
    ensures Walked(targets, outcomes, allOk)
  {
  }

  /** The walk proper: the roles in order, each counted, until one fails. */
  method Walk(p: Progress, targets: seq<Role>, canary: Option<nat>, world: map<Role, RoleWorld>) returns (allOk: bool, outcomes: seq<Outcome>)
    requires forall r :: r in targets ==> r in world && ClockRuns(r, world[r], canary)
    modifies p
    ensures p.frames == old(p.frames) + StepFrames(outcomes) && p.tallies == TallyAll(old(p.tallies), outcomes)
    ensures Walked(targets, outcomes, allOk)
    ensures forall i :: 0 <= i < |outcomes| ==> OutcomeMeans(outcomes[i], world[targets[i]], canary)
  {
    outcomes, allOk := [], true;
    var k := 0;
    while k < |targets| && allOk
      invariant |outcomes| == k && Walking(targets, outcomes, allOk)
      invariant p.frames == old(p.frames) + StepFrames(outcomes) && p.tallies == TallyAll(old(p.tallies), outcomes)
      invariant forall i :: 0 <= i < k ==> OutcomeMeans(outcomes[i], world[targets[i]], canary)
    {
      var o := WalkRole(p, targets[k], world[targets[k]], canary);
      WalkSnoc(old(p.tallies), outcomes, o);
      Assoc(old(p.frames), StepFrames(outcomes), OutcomeFrames(o));
      WalkingOn(targets, outcomes, o);
      outcomes, k, allOk := outcomes + [o], k + 1, Ok(o);
    }
    WalkingDone(targets, outcomes, allOk);
  }

  /**
   The whole request: a held lock or an unknown role yields a single failed completion; otherwise the
   targets are walked, and one completion frame closes the stream.
   */
  method RollingUpgrade(p: Progress, lockFree: bool, req: Request, world: map<Role, RoleWorld>) returns (allOk: bool, outcomes: seq<Outcome>)
    requires forall r :: r in Targets(req) ==> r in world && ClockRuns(r, world[r], req.canary)
    modifies p
    ensures p.frames == old(p.frames) + StepFrames(outcomes) + [Complete(allOk)]
    ensures CliSucceeds(StepFrames(outcomes) + [Complete(allOk)]) <==> allOk
    ensures p.tallies == TallyAll(old(p.tallies), outcomes)
    ensures !lockFree || req.only.UnknownRole? ==> !allOk && outcomes == []
    ensures lockFree && !req.only.UnknownRole? ==> Walked(Targets(req), outcomes, allOk)
    ensures forall i :: 0 <= i < |outcomes| ==> i < |Targets(req)| && OutcomeMeans(outcomes[i], world[Targets(req)[i]], req.canary)
  {
    if !lockFree || req.only.UnknownRole? {
      p.Notify(Complete(false));
      CliAgreesWithSupervisor(Targets(req), [], false);
      return false, [];
    }
    allOk, outcomes := Walk(p, Targets(req), req.canary, world);
    CliAgreesWithSupervisor(Targets(req), outcomes, allOk);
    p.Notify(Complete(allOk));
  }

  lemma {:induction false} UntouchedTally(tallies: map<Role, Tally>, outcomes: seq<Outcome>, role: Role)
    requires forall i :: 0 <= i < |outcomes| ==> outcomes[i].role != role
    ensures TallyOf(TallyAll(tallies, outcomes), role) == TallyOf(tallies, role)
    decreases |outcomes|
  {
    if outcomes != [] { UntouchedTally(tallies, outcomes[..|outcomes| - 1], role); }
  }

  /**
   Per walk, every attempted role gets exactly one of committed, timed out and skipped, and a canary
   abort only on top of a commit.
   */
  lemma {:induction false} CountedOnce(targets: seq<Role>, tallies: map<Role, Tally>, outcomes: seq<Outcome>, i: nat)
    requires i < |outcomes| <= |targets| && forall k :: 0 <= k < |outcomes| ==> outcomes[k].role == targets[k]
    requires forall k, m :: 0 <= k < m < |targets| ==> targets[k] != targets[m]
    requires outcomes[i].aborted ==> outcomes[i].attempt.Committed?
    ensures var t, t' := TallyOf(tallies, targets[i]), TallyOf(TallyAll(tallies, outcomes), targets[i]);
      && t'.committed + t'.timedOut + t'.skipped == t.committed + t.timedOut + t.skipped + 1
      && t.canaryAborted <= t'.canaryAborted <= t.canaryAborted + (t'.committed - t.committed)
      && t'.committed == t.committed + (if outcomes[i].attempt.Committed? then 1 else 0)
      && t'.timedOut == t.timedOut + (if outcomes[i].attempt.Expired? then 1 else 0)
      && t'.skipped == t.skipped + (if outcomes[i].attempt.NoLink? then 1 else 0)
      && t'.canaryAborted == t.canaryAborted + (if outcomes[i].aborted then 1 else 0)
    decreases |outcomes|
  {
    var n := |outcomes| - 1;
    var init := outcomes[..n];
    assert outcomes[n].role == targets[n];
    if i == n {
      UntouchedTally(tallies, init, targets[n]);
    } else {
      CountedOnce(targets, tallies, init, i);
    }
  }

  function Position(r: Role): nat {
    match r
    case Processor => 0
    case Plain => 1
    case Scanner => 2
    case Tls => 3
  }

  /**
   Who is upgraded, and in which order: without a role, everybody but the TLS acceptor, and it too if
   asked for, the processor first and TLS last; with a role, that one alone; nobody twice.
   */
  lemma TargetsAre(req: Request)
    ensures forall r :: r in Targets(req) <==> IsTarget(req, r)
    ensures forall i, j :: 0 <= i < j < |Targets(req)| ==> Position(Targets(req)[i]) < Position(Targets(req)[j])
  {
    forall r ensures r in Targets(req) <==> IsTarget(req, r) {
      match r
      case Processor =>
      case Plain =>
      case Scanner =>
      case Tls =>
    }
  }

  predicate IsTarget(req: Request, r: Role) {
    match req.only
    case AllRoles => r.Tls? ==> req.includeTls
    case Only(role) => r == role
    case UnknownRole => false
  }

  /** The rank orders health as the watchdog does: of two equally old workers, more fast exits never rank better. */
  lemma RankFollowsCrashes(h1: seq<W.Event>, h2: seq<W.Event>, now: nat)
    requires W.LastStart(h1) == W.LastStart(h2) && W.FastRun(h1) <= W.FastRun(h2)
    ensures Rank(W.HealthAfter(h1, now)) <= Rank(W.HealthAfter(h2, now))
  {
  }

  /** And no two states rank alike. */
  lemma RanksDiffer(a: W.HealthState, b: W.HealthState)
    ensures Rank(a) == Rank(b) <==> a == b
    ensures Rank(a) < Rank(b) <==> a != b && (a.Healthy? || b.Failed? || (a.Backoff? && b.Flapping?))
  {
  }

  /** The frames of an outcome tell everything about it. */
  lemma FramesDetermine(a: Outcome, b: Outcome)
    requires a.aborted ==> a.attempt.Committed?
    requires b.aborted ==> b.attempt.Committed?
    requires (a.attempt.NoLink? <==> a.pre.None?) && (b.attempt.NoLink? <==> b.pre.None?)
    requires OutcomeFrames(a) == OutcomeFrames(b)
    ensures a == b
  {
    assert OutcomeFrames(a)[0] == AttemptFrames(a.role, a.pre, a.attempt)[0];
    assert OutcomeFrames(b)[0] == AttemptFrames(b.role, b.pre, b.attempt)[0];
    if !a.attempt.NoLink? {
      assert OutcomeFrames(a)[1] == AttemptFrames(a.role, a.pre, a.attempt)[1];
    }
    if !b.attempt.NoLink? {
      assert OutcomeFrames(b)[1] == AttemptFrames(b.role, b.pre, b.attempt)[1];
    }
    assert |OutcomeFrames(a)| == |OutcomeFrames(b)|;
  }

  // ---- the canary as documented -------------------------------------------------------------

  /** The documented trigger: any state other than healthy while the role is watched. */
  predicate UnhealthyAt(w: RoleWorld, secs: nat, i: int) {
    && 0 <= i < |w.ticks| && !w.ticks[i].state.Healthy?
    && forall j :: 0 <= j <= i ==> w.ticks[j].now < w.watchFrom + 1000 * secs
  }

  ghost predicate Aborts(w: RoleWorld, secs: nat) { exists i :: RegressesAt(w, secs, i) }

  ghost predicate AbortsAsDocumented(w: RoleWorld, secs: nat) { exists i :: UnhealthyAt(w, secs, i) }

  /** The walk gets to the canary: the role commits, and the clock passes both deadlines. */
  ghost predicate Watched(role: Role, w: RoleWorld, secs: nat) {
    ClockRuns(role, w, Some(secs)) && exists i :: FirstCommit(role, w, i)
  }

  /** A role that commits its upgrade at once and stays in exactly the state it was in before. */
  function Unchanged(baseline: W.HealthState): RoleWorld {
    RoleWorld(baseline, Some(0), 0, [StatusPoll(0, Some(1)), StatusPoll(20000, Some(1))],
              100, [CanaryTick(300, baseline), CanaryTick(1100, baseline)])
  }

  lemma UnchangedIsWatched(role: Role, baseline: W.HealthState)
    ensures Watched(role, Unchanged(baseline), 1)
    ensures !Aborts(Unchanged(baseline), 1) && (!baseline.Healthy? ==> AbortsAsDocumented(Unchanged(baseline), 1))
  {
    var w := Unchanged(baseline);
    assert FirstCommit(role, w, 0);
    assert w.polls[1].now > w.sentAt + PollMillis(role) && w.ticks[1].now >= w.watchFrom + 1000;
    if !baseline.Healthy? { assert UnhealthyAt(w, 1, 0); }
  }

  /**
   On everything it gets to watch, the canary aborts as documented if and only if the role was healthy
   before its upgrade.
   */
  lemma CanaryAsDocumented(role: Role, baseline: W.HealthState)
    ensures (forall w: RoleWorld, secs: nat :: w.baseline == baseline && Watched(role, w, secs)
               ==> (Aborts(w, secs) <==> AbortsAsDocumented(w, secs)))
       <==> baseline.Healthy?
  {
    if baseline.Healthy? {
      forall w: RoleWorld, secs: nat | w.baseline == baseline ensures Aborts(w, secs) <==> AbortsAsDocumented(w, secs) {
        assert forall i :: RegressesAt(w, secs, i) <==> UnhealthyAt(w, secs, i);
      }
    } else {
      UnchangedIsWatched(role, baseline);
      assert Unchanged(baseline).baseline == baseline;
    }
  }

  // ---- the admin command --------------------------------------------------------------------

  /** A completion that claims success, with nothing but successful steps before it. */
  predicate SucceedsAt(frames: seq<Frame>, i: int) {
    0 <= i < |frames| && frames[i] == Complete(true) && forall j :: 0 <= j < i ==> frames[j].StepFrame? && frames[j].ok
  }

  ghost predicate CliSucceeds(frames: seq<Frame>) { exists i :: SucceedsAt(frames, i) }

  /** Reads frames until a verdict; the end of the stream without one is a failure. */
  method StreamUpgrade(frames: seq<Frame>) returns (ok: bool)
    ensures ok <==> CliSucceeds(frames)
  {
    var overallOk, k := true, 0;
    while k < |frames|
      invariant k <= |frames| && forall j :: 0 <= j < k ==> frames[j].StepFrame?
      invariant overallOk <==> forall j :: 0 <= j < k ==> frames[j].ok
    {
      match frames[k] {
        case StepFrame(_, _, _, _, stepOk) => if !stepOk { overallOk := false; }
        case Complete(allOk) =>
          if allOk && overallOk { assert SucceedsAt(frames, k); }
          return allOk && overallOk;
        case _ => return false;
      }
      k := k + 1;
    }
    return false;
  }

  lemma {:induction false} StepsOnly(outcomes: seq<Outcome>)
    ensures forall f :: f in StepFrames(outcomes) ==> f.StepFrame?
    ensures (forall i :: 0 <= i < |outcomes| ==> Ok(outcomes[i])) ==> forall f :: f in StepFrames(outcomes) ==> f.ok
    decreases |outcomes|
  {
    if outcomes != [] { StepsOnly(outcomes[..|outcomes| - 1]); }
  }

  /** A verdict on a request: of a walk over the targets, or an outright refusal. */
  predicate Answered(targets: seq<Role>, outcomes: seq<Outcome>, allOk: bool) {
    Walked(targets, outcomes, allOk) || (outcomes == [] && !allOk)
  }

  /** The command succeeds on the frames of a request exactly when the supervisor said it did. */
  lemma CliAgreesWithSupervisor(targets: seq<Role>, outcomes: seq<Outcome>, allOk: bool)
    requires Answered(targets, outcomes, allOk)
    ensures CliSucceeds(StepFrames(outcomes) + [Complete(allOk)]) <==> allOk
  {
    StepsOnly(outcomes);
    var steps := StepFrames(outcomes);
    var frames := steps + [Complete(allOk)];
    assert forall j :: 0 <= j < |steps| ==> frames[j] == steps[j] && steps[j] in steps;
    if allOk { assert SucceedsAt(frames, |steps|); }
  }

  /** And it never succeeds on a stream that was cut short. */
  lemma TruncatedStreamFails(targets: seq<Role>, outcomes: seq<Outcome>, allOk: bool, k: nat)
    requires Answered(targets, outcomes, allOk) && k <= |StepFrames(outcomes)|
    ensures !CliSucceeds((StepFrames(outcomes) + [Complete(allOk)])[..k])
  {
    StepsOnly(outcomes);
    var steps := StepFrames(outcomes);
    var cut := (steps + [Complete(allOk)])[..k];
    assert forall j :: 0 <= j < k ==> cut[j] == steps[j] && steps[j] in steps;
  }
}
