/** What the two-process upgrade guarantees over whole runs, and what a rollback restores. */
module UpgradeLaws {
  import opened Common
  import opened LinesCodec
  import opened Session
  import opened Payload
  import opened Restart
  import opened UpgradeProtocol
  import E = EchoTask

  // ---- what it means ------------------------------------------------------------------------

  /** What a session's current task owes its client, wherever it runs. */
  predicate Served(w: Wire, t: Task) {
    w.sent <= Owed(w) && (E.Quiet(E.Conn(w, t)) && !w.closed ==> w.sent == Echo(w.received))
  }

  lemma SoundIsServed(w: Wire, t: Task)
    requires Inv(w, t)
    ensures Served(w, t)
  {
    SentIsPrefix(w, t);
    if E.Quiet(E.Conn(w, t)) { QuietIsComplete(w, t); }
  }

  /**
   Safety of the whole system. Over any number of upgrades, committed or rolled back, with sessions
   running all the while: no session ever has a task in both processes, and every client whose session
   was not already carried on by a discarded child has received a prefix of its echo, and all of it
   whenever its session waits for input.
   */
  lemma EveryUpgradeRun(steps: seq<Step>, fd: Fd)
    requires Runnable(steps) && fd in End(steps).wires
    ensures var s := End(steps);
      && !(fd in s.parentTasks && fd in s.childTasks)
      && (fd !in s.tainted ==>
            && s.wires[fd].sent <= Owed(s.wires[fd])
            && (fd in s.parentTasks ==> Served(s.wires[fd], s.parentTasks[fd]))
            && (fd in s.childTasks ==> Served(s.wires[fd], s.childTasks[fd])))
  {
    RunKeepsInv(steps);
    var s := End(steps);
    assert SessionOk(At(s, fd), Still(s));
    if fd !in s.tainted {
      if fd in s.parentTasks { SoundIsServed(s.wires[fd], s.parentTasks[fd]); }
      if fd in s.childTasks { SoundIsServed(s.wires[fd], s.childTasks[fd]); }
    }
  }

  lemma {:induction false} PrefixRuns(steps: seq<Step>, k: nat)
    requires Runnable(steps) && k <= |steps|
    ensures Runnable(steps[..k])
    decreases |steps|
  {
    if k < |steps| {
      PrefixRuns(Init(steps), k);
      assert Init(steps)[..k] == steps[..k];
    } else {
      assert steps[..k] == steps;
    }
  }

  /** The drain going on at the end of the run began at `b`. */
  predicate DrainBegan(steps: seq<Step>, b: nat) {
    b < |steps| && steps[b].BeginDrain? && forall i :: b < i < |steps| ==> !steps[i].BeginDrain?
  }

  lemma StillDraining(s: System, e: Step)
    requires CanStep(s, e) && Do(s, e).parent.Draining?
    ensures if e.BeginDrain? then Do(s, e).parent.targets == RunningFds(s.parentTasks) else Do(s, e).parent == s.parent
  {
  }

  lemma {:induction false} TargetsWereRunning(steps: seq<Step>, b: nat)
    requires Runnable(steps) && DrainBegan(steps, b) && End(steps).parent.Draining?
    ensures Runnable(steps[..b]) && End(steps).parent.targets == RunningFds(End(steps[..b]).parentTasks)
    decreases |steps|
  {
    PrefixRuns(steps, b);
    StillDraining(End(Init(steps)), Last(steps));
    assert Init(steps)[..b] == steps[..b];
    if b == |steps| - 1 {
      assert steps[..b] == Init(steps);
    } else {
      TargetsWereRunning(Init(steps), b);
    }
  }

  lemma AllAccountedFor(s: System, source: Source, fd: Fd)
    requires PhasesOk(s) && CanStep(s, SpawnChild(source)) && fd in s.parent.targets
    ensures fd in s.handoffs || fd in s.dropped || (fd in s.parentTasks && s.parentTasks[fd].phase.Ended?)
  {
  }

  /**
   The drain forgets nobody: when the child is spawned, every session that was running when the drain
   began has a record, had ended by itself, or had a socket that could not be handed over.
   */
  lemma DrainIsComplete(steps: seq<Step>, source: Source, b: nat, fd: Fd)
    requires Runnable(steps) && CanStep(End(steps), SpawnChild(source)) && DrainBegan(steps, b)
    ensures Runnable(steps[..b])
    ensures var was, s := End(steps[..b]), End(steps);
      fd in was.parentTasks && !was.parentTasks[fd].phase.Ended? ==>
        fd in s.handoffs || fd in s.dropped || (fd in s.parentTasks && s.parentTasks[fd].phase.Ended?)
  {
    RunKeepsInv(steps);
    TargetsWereRunning(steps, b);
    if fd in End(steps).parent.targets { AllAccountedFor(End(steps), source, fd); }
  }

  /** The payload came through the pipe, or the environment held one that parses. */
  predicate FromPipeOrParsed(c: Channel) { c.source.FromPipe? || Parse(c.source.text).Some? }

  /**
   What ready means. In every run, a child that got past its startup has adopted or declined exactly
   the sessions that were handed over, if and only if its payload came through the pipe or parsed (or
   there was nothing to hand over); and then the pipe was written and closed completely.
   */
  lemma ReadyMeansHandedOver(steps: seq<Step>)
    requires Runnable(steps) && (End(steps).child.Adopting? || End(steps).child.Ready?)
    ensures var s := End(steps);
      && (s.childTasks.Keys + s.declined == s.handoffs.Keys <==> FromPipeOrParsed(s.channel) || s.payload == [])
      && s.childTasks.Keys !! s.declined
      && (s.channel.source.FromPipe? ==> s.channel.end.Complete? && Parse(s.channel.text) == Some(s.payload))
  {
    RunKeepsInv(steps);
    HandedOver(End(steps));
  }

  lemma HandedOver(s: System)
    requires PipeOk(s) && (s.child.Adopting? || s.child.Ready?)
    ensures s.childTasks.Keys + s.declined == s.handoffs.Keys <==> FromPipeOrParsed(s.channel) || s.payload == []
    ensures s.childTasks.Keys !! s.declined
    ensures s.channel.source.FromPipe? ==> s.channel.end.Complete? && Parse(s.channel.text) == Some(s.payload)
  {
    if s.channel.source.FromPipe? { RoundTrip(s.payload); }
    if !Parses(s.channel) && s.payload != [] {
      assert s.payload[|s.payload| - 1].fd in s.handoffs;
    }
  }

  /** A commit leaves the live successor exactly the records that it could read and did not decline, as sound tasks. */
  lemma CommitHandsOver(steps: seq<Step>)
    requires Runnable(steps) && CanStep(End(steps), Commit) && !End(steps).child.Dead?
    ensures var s := End(steps); var s' := Do(s, Commit);
      && s'.parentTasks.Keys == (if FromPipeOrParsed(s.channel) then s.handoffs.Keys - s.declined else {})
      && forall fd :: fd in s'.parentTasks && fd !in s'.tainted ==> fd in s'.wires && Inv(s'.wires[fd], s'.parentTasks[fd])
  {
    RunKeepsInv(steps);
    var s := End(steps);
    RoundTrip(s.payload);
    forall fd | fd in s.childTasks && fd !in s.tainted
      ensures fd in s.wires && Inv(s.wires[fd], s.childTasks[fd])
    {
      assert SessionOk(At(s, fd), Still(s));
    }
  }

  /**
   A rollback restarts every record whose socket can be rebuilt, as it was captured. Its byte and line
   accounting is sound if and only if the discarded child neither received nor sent a byte of it; and
   its client keeps getting what a session promises, in every continuation, if and only if the record
   still fits the socket, as it does when nothing moved.
   */
  lemma RollbackRestores(steps: seq<Step>, declined: set<Fd>, fd: Fd)
    requires Runnable(steps) && CanStep(End(steps), Readopt(declined))
    requires fd in End(steps).handoffs && fd !in declined && fd !in End(steps).tainted
    ensures var s := End(steps); var s' := Do(s, Readopt(declined)); var h := s.handoffs[fd];
      && fd in s'.parentTasks && s'.parentTasks[fd] == Adopted(h)
      && fd in s'.wires && s'.wires == s.wires && fd in s.base
      && (Inv(s.wires[fd], Adopted(h)) <==> SameTraffic(s.base[fd], s.wires[fd]))
      && (fd in s'.tainted <==> !SameTraffic(s.base[fd], s.wires[fd]))
      && (KeepsPromise(E.Conn(s.wires[fd], Adopted(h))) <==> RestartOk(s.wires[fd], h))
      && (SameTraffic(s.base[fd], s.wires[fd]) ==> RestartOk(s.wires[fd], h))
  {
    RunKeepsInv(steps);
    var s := End(steps);
    assert SessionOk(At(s, fd), Still(s));
    RollbackExact(s.base[fd], s.handoffs[fd], s.wires[fd]);
    RestartKeepsPromiseIff(s.wires[fd], s.handoffs[fd]);
    if SameTraffic(s.base[fd], s.wires[fd]) { SoundRecordFits(s.wires[fd], s.handoffs[fd]); }
  }

  /** Declined records are not restarted, and no other session is disturbed. */
  lemma RollbackDeclines(steps: seq<Step>, declined: set<Fd>)
    requires Runnable(steps) && CanStep(End(steps), Readopt(declined))
    ensures var s := End(steps); var s' := Do(s, Readopt(declined));
      && s'.parentTasks.Keys == s.parentTasks.Keys + (s.handoffs.Keys - declined)
      && forall fd :: fd in s.parentTasks ==> fd !in s.handoffs && s'.parentTasks[fd] == s.parentTasks[fd]
  {
    RunKeepsInv(steps);
    var s := End(steps);
    forall fd | fd in s.parentTasks ensures fd !in s.handoffs { assert SessionOk(At(s, fd), Still(s)); }
  }

  /** The record still fits the socket. */
  ghost predicate Fits(s: System, fd: Fd) { fd in s.wires && fd in s.handoffs && RestartOk(s.wires[fd], s.handoffs[fd]) }

  // ---- a restart that breaks its promise, as a run of the system ----------------------------

  /** A run of one session in the old process is a run of the system. */
  lemma {:induction false} Lift(steps: seq<Step>, fd: Fd, run: seq<E.Action>) returns (longer: seq<Step>)
    requires Runnable(steps) && !End(steps).parent.Exited? && fd in End(steps).wires && fd in End(steps).parentTasks
    requires E.Runnable(E.Conn(End(steps).wires[fd], End(steps).parentTasks[fd]), run) && forall a :: a in run ==> a.Io?
    ensures Runnable(longer) && steps <= longer
    ensures forall i :: |steps| <= i < |longer| ==> longer[i].ParentIo? && longer[i].fd == fd
    ensures var c := E.Final(E.Conn(End(steps).wires[fd], End(steps).parentTasks[fd]), run);
      && fd in End(longer).wires && End(longer).wires[fd] == c.wire
      && fd in End(longer).parentTasks && End(longer).parentTasks[fd] == c.task
    decreases |run|
  {
    if run == [] {
      longer := steps;
    } else {
      var step := ParentIo(fd, run[0].event);
      RunSnoc(steps, step);
      longer := Lift(steps + [step], fd, run[1..]);
    }
  }

  /**
   After a rollback that left a record not fitting its socket, the old process alone can go on in such
   a way that the client sees it: a wrong byte, a missing line, or an end without the whole echo.
   */
  lemma RollbackBreaks(steps: seq<Step>, declined: set<Fd>, fd: Fd) returns (longer: seq<Step>)
    requires Runnable(steps) && CanStep(End(steps), Readopt(declined))
    requires fd in End(steps).handoffs && fd !in declined && fd !in End(steps).tainted
    requires !Fits(End(steps), fd)
    ensures Runnable(longer) && steps + [Readopt(declined)] <= longer
    ensures forall i :: |steps| < i < |longer| ==> longer[i].ParentIo? && longer[i].fd == fd
    ensures var s := End(longer);
      fd in s.wires && fd in s.parentTasks && !Kept(E.Conn(s.wires[fd], s.parentTasks[fd]))
  {
    RollbackRestores(steps, declined, fd);
    RunSnoc(steps, Readopt(declined));
    var c := E.Conn(End(steps).wires[fd], Adopted(End(steps).handoffs[fd]));
    var run :| E.Runnable(c, run) && (forall a :: a in run ==> Clean(a)) && !Kept(E.Final(c, run));
    longer := Lift(steps + [Readopt(declined)], fd, run);
  }

  // ---- the order of the protocol ------------------------------------------------------------

  predicate SinceSpawn(steps: seq<Step>, k: int) {
    0 <= k < |steps| && forall i :: k < i < |steps| ==> !steps[i].SpawnChild?
  }

  /** The writer wrote the whole payload and closed the pipe. */
  ghost predicate Closed(steps: seq<Step>) { exists w :: SinceSpawn(steps, w) && steps[w].CloseWriter? }

  /** The child read its payload; from a pipe, after that. */
  ghost predicate ReadIn(steps: seq<Step>, piped: bool) {
    exists a :: SinceSpawn(steps, a) && steps[a].ChildReads? && (piped ==> Closed(steps[..a]))
  }

  /** And signalled ready after that. */
  ghost predicate ReadyIn(steps: seq<Step>, piped: bool) {
    exists r :: SinceSpawn(steps, r) && steps[r].ChildReady? && ReadIn(steps[..r], piped)
  }

  ghost predicate ReapedIn(steps: seq<Step>) { exists r :: SinceSpawn(steps, r) && steps[r].Reap? }

  lemma SnocOrder(steps: seq<Step>, e: Step)
    requires !e.SpawnChild?
    ensures Closed(steps) ==> Closed(steps + [e])
    ensures forall piped :: ReadIn(steps, piped) ==> ReadIn(steps + [e], piped)
    ensures forall piped :: ReadyIn(steps, piped) ==> ReadyIn(steps + [e], piped)
    ensures ReapedIn(steps) ==> ReapedIn(steps + [e])
  {
    var next := steps + [e];
    assert forall k :: 0 <= k < |steps| ==> next[k] == steps[k] && next[..k] == steps[..k];
    assert forall k :: SinceSpawn(steps, k) ==> SinceSpawn(next, k);
  }

  ghost predicate Ordered(s: System, steps: seq<Step>) {
    && (!s.child.Absent? && s.channel.end.Complete? ==> Closed(steps))
    && (s.child.Adopting? || s.child.Ready? ==> ReadIn(steps, s.channel.source.FromPipe?))
    && (s.readyPipe ==> ReadyIn(steps, s.channel.source.FromPipe?))
    && (s.parent.Reaped? ==> ReapedIn(steps))
  }

  /** The child gets past its startup only on a payload it could read to the end. */
  lemma OrderOfReading(s: System, steps: seq<Step>, e: Step)
    requires Ordered(s, steps) && PipeOk(s) && CanStep(s, e) && e.ChildReads? && Do(s, e).child.Adopting?
    ensures ReadIn(steps + [e], s.channel.source.FromPipe?)
  {
    WhatTheChildReads(s.payload, s.channel);
    var next := steps + [e];
    assert next[..|steps|] == steps && next[|steps|] == e;
    assert SinceSpawn(next, |steps|);
  }

  lemma OrderOfSignal(s: System, steps: seq<Step>, e: Step)
    requires Ordered(s, steps) && CanStep(s, e) && (e.ChildReady? || e.CloseWriter? || e.Reap?)
    ensures e.ChildReady? ==> ReadyIn(steps + [e], s.channel.source.FromPipe?)
    ensures e.CloseWriter? ==> Closed(steps + [e])
    ensures e.Reap? ==> ReapedIn(steps + [e])
  {
    var next := steps + [e];
    assert next[..|steps|] == steps && next[|steps|] == e;
    assert SinceSpawn(next, |steps|);
  }

  /** How a step can change what the order speaks of. */
  predicate FollowsInChild(s: System, e: Step, s': System) {
    && (e.SpawnChild? ==> s'.child.Booting? && !s'.readyPipe && s'.parent.Waiting?)
    && (!e.SpawnChild? && s.child.Absent? ==> s'.child.Absent?)
    && (s'.child.Adopting? || s'.child.Ready? ==> s.child.Adopting? || s.child.Ready? || e.ChildReads?)
    && (s'.readyPipe ==> s.readyPipe || e.ChildReady?)
    && (s'.parent.Reaped? ==> s.parent.Reaped? || e.Reap?)
  }

  predicate FollowsInPipe(s: System, e: Step, s': System) {
    && (e.SpawnChild? ==> s'.channel.end.Open?)
    && (!e.SpawnChild? ==> s'.channel.source == s.channel.source)
    && (!e.SpawnChild? && s'.channel.end.Complete? ==> s.channel.end.Complete? || e.CloseWriter?)
  }

  lemma ChildFollows(s: System, e: Step)
    requires PhasesOk(s) && CanStep(s, e)
    ensures FollowsInChild(s, e, Do(s, e))
  {
  }

  lemma PipeFollows(s: System, e: Step)
    requires CanStep(s, e)
    ensures FollowsInPipe(s, e, Do(s, e))
  {
  }

  lemma OrderStep(s: System, steps: seq<Step>, e: Step, s': System)
    requires Ordered(s, steps) && PhasesOk(s) && PipeOk(s) && CanStep(s, e) && FollowsInChild(s, e, s') && FollowsInPipe(s, e, s')
    requires e.ChildReads? && s'.child.Adopting? ==> ReadIn(steps + [e], s.channel.source.FromPipe?)
    requires s'.child.Ready? ==> s.child.Adopting? || s.child.Ready?
    ensures Ordered(s', steps + [e])
  {
    if !e.SpawnChild? { SnocOrder(steps, e); }
    if e.ChildReady? || e.CloseWriter? || e.Reap? { OrderOfSignal(s, steps, e); }
  }

  lemma RunOrderedStep(s: System, steps: seq<Step>, e: Step)
    requires Ordered(s, steps) && PhasesOk(s) && PipeOk(s) && CanStep(s, e)
    ensures Ordered(Do(s, e), steps + [e])
  {
    ChildFollows(s, e);
    PipeFollows(s, e);
    if e.ChildReads? && Do(s, e).child.Adopting? { OrderOfReading(s, steps, e); }
    OrderStep(s, steps, e, Do(s, e));
  }

  lemma {:induction false} RunOrdered(steps: seq<Step>)
    requires Runnable(steps)
    ensures Ordered(End(steps), steps)
    decreases |steps|
  {
    if steps != [] {
      RunOrdered(Init(steps));
      RunKeepsInv(Init(steps));
      RunOrderedStep(End(Init(steps)), Init(steps), Last(steps));
      assert Init(steps) + [Last(steps)] == steps;
    }
  }

  /**
   The two phases. The old process commits only after this very child read its payload to the end and
   signalled ready; a payload that came through the pipe had been written and closed before that, so
   awaiting the writer cannot fail any more. It re-adopts only after this child was reaped.
   */
  lemma TwoPhaseOrder(steps: seq<Step>)
    requires Runnable(steps)
    ensures var s := End(steps);
      && (CanStep(s, Commit) ==> ReadyIn(steps, s.channel.source.FromPipe?) && (s.channel.source.FromPipe? ==> s.channel.end.Complete?))
      && (s.parent.Reaped? ==> ReapedIn(steps) && s.childTasks == map[])
  {
    RunOrdered(steps);
    RunKeepsInv(steps);
  }

  // ---- how processes exit -------------------------------------------------------------------

  function ExitsOf(steps: seq<Step>): seq<int> {
    if steps == [] then []
    else
      var before, e := ExitsOf(Init(steps)), Last(steps);
      if e.Commit? then before + [23] else if e.SpawnFails? || e.RollbackFails? then before + [1] else before
  }

  function Commits(steps: seq<Step>): nat {
    if steps == [] then 0 else Commits(Init(steps)) + if Last(steps).Commit? then 1 else 0
  }

  lemma NoExit(s: System, e: Step)
    requires CanStep(s, e) && !e.Commit? && !e.SpawnFails? && !e.RollbackFails?
    ensures Do(s, e).exits == s.exits && Do(s, e).generation == s.generation
    ensures !s.parent.Exited? ==> !Do(s, e).parent.Exited?
  {
    match e
    case Connect(_, _, _) =>
    case ParentIo(_, _) =>
    case ChildIo(_, _) =>
    case BeginDrain =>
    case CaptureSession(_, _) =>
    case CaptureFails(_) =>
    case SpawnChild(_) =>
    case WriteToken =>
    case CloseWriter =>
    case WriterFails =>
    case ChildReads(_) =>
    case ChildReady =>
    case ChildDies =>
    case GiveUp =>
    case Reap =>
    case Readopt(_) =>
  }

  lemma OneExit(s: System, e: Step)
    requires CanStep(s, e) && (e.Commit? || e.SpawnFails? || e.RollbackFails?)
    ensures Do(s, e).exits == s.exits + [if e.Commit? then 23 else 1]
    ensures Do(s, e).generation == s.generation + if e.Commit? then 1 else 0
  {
  }

  /** Nothing happens after the last process has exited. */
  lemma ExitedIsFinal(s: System, e: Step)
    requires PhasesOk(s) && s.parent.Exited?
    ensures !CanStep(s, e)
  {
  }

  lemma WhoExits(s: System, e: Step)
    requires CanStep(s, e) && (e.Commit? || e.SpawnFails? || e.RollbackFails?)
    ensures Do(s, e).parent == if !e.Commit? then Exited(1) else if s.child.Dead? then Exited(23) else Serving
  {
  }

  lemma {:induction false} RunExits(steps: seq<Step>)
    requires Runnable(steps)
    ensures End(steps).exits == ExitsOf(steps) && End(steps).generation == Commits(steps)
    decreases |steps|
  {
    if steps != [] {
      RunExits(Init(steps));
      var s, e := End(Init(steps)), Last(steps);
      if e.Commit? || e.SpawnFails? || e.RollbackFails? { OneExit(s, e); } else { NoExit(s, e); }
    }
  }

  /**
   Exit codes. In every run the serving processes exited with 23 once per commit, with 1 once per
   failed spawn or rollback, and not otherwise; every commit came after this child's ready; and when
   the last process is gone, the last step says why: 23 exactly for a commit whose child had died.
   */
  lemma ExitCodes(steps: seq<Step>)
    requires Runnable(steps)
    ensures var s := End(steps);
      && s.exits == ExitsOf(steps) && s.generation == Commits(steps)
      && (s.parent.Exited? ==> steps != [] && (s.parent.code == 23 || s.parent.code == 1))
      && (s.parent == Exited(23) <==> steps != [] && Last(steps).Commit? && End(Init(steps)).child.Dead?)
      && (s.parent == Exited(1) <==> steps != [] && (Last(steps).SpawnFails? || Last(steps).RollbackFails?))
  {
    RunExits(steps);
    if steps != [] {
      var s, e := End(Init(steps)), Last(steps);
      RunKeepsInv(Init(steps));
      if s.parent.Exited? { ExitedIsFinal(s, e); }
      if e.Commit? || e.SpawnFails? || e.RollbackFails? { WhoExits(s, e); } else { NoExit(s, e); }
    }
  }

  /** Every commit of a run, and so every exit with 23, came after its own child had signalled ready. */
  lemma CommitsAfterReady(steps: seq<Step>, k: nat)
    requires Runnable(steps) && k < |steps| && steps[k].Commit?
    ensures Runnable(steps[..k]) && ReadyIn(steps[..k], End(steps[..k]).channel.source.FromPipe?)
  {
    PrefixRuns(steps, k);
    PrefixRuns(steps, k + 1);
    assert Init(steps[..k + 1]) == steps[..k] && Last(steps[..k + 1]) == steps[k];
    TwoPhaseOrder(steps[..k]);
  }
}
