/**
 The two-process upgrade of the processor: drain the sessions, spawn a successor, stream the handoff
 records to it, and either commit (exit 23 after the ready ack) or kill, reap and re-adopt.

 Sessions keep running, in whichever process holds their task, between the steps of the protocol;
 the successor starts its session tasks before it signals ready.
 */
module UpgradeProtocol {
  import opened Common
  import opened LinesCodec
  import opened Session
  import opened Payload
  import opened Restart

  type Fd = nat

  datatype ParentPhase =
    | Serving
    | Draining(targets: set<Fd>)   // cancels sent, handoffs awaited
    | Waiting                      // child spawned, ready pipe watched
    | Killing                      // no ack: child killed, not reaped yet
    | Reaped
    | Exited(code: int)

  datatype ChildPhase = Absent | Booting | Adopting | Ready | Dead

  /** The writer's end of the session pipe. */
  datatype PipeEnd = Open | Complete | Broken

  /** Where the child finds its payload; only an image that predates the pipe uses the environment. */
  datatype Source = FromPipe | FromEnv(text: seq<Token>)

  /** How the payload gets to the child: `text` is what has been written to the session pipe. */
  datatype Channel = Channel(source: Source, text: seq<Token>, end: PipeEnd)

  datatype System = System(
    generation: nat,
    exits: seq<int>,                  // exit codes of the processes that served so far
    parent: ParentPhase,
    child: ChildPhase,
    payload: seq<SessionHandoff>,     // the drained records, in the order they were collected
    channel: Channel,
    readyPipe: bool,                  // "ok" is in the ready pipe
    wires: map<Fd, Wire>,
    parentTasks: map<Fd, Task>,
    childTasks: map<Fd, Task>,
    handoffs: map<Fd, SessionHandoff>, // the drained records, by descriptor
    base: map<Fd, Wire>,              // each drained session's wire when it was captured
    dropped: set<Fd>,                 // sessions whose socket could not be handed over
    declined: set<Fd>,                // records the child refused one by one
    tainted: set<Fd>)                 // sessions a discarded child had already carried on

  datatype Step =
    | Connect(fd: Fd, buffered: seq<byte>, atEof: bool)
    | ParentIo(fd: Fd, event: Event)
    | ChildIo(fd: Fd, event: Event)
    | BeginDrain
    | CaptureSession(fd: Fd, handoff: SessionHandoff)
    | CaptureFails(fd: Fd)            // the descriptor could not be prepared: the session is lost
    | SpawnChild(source: Source)
    | SpawnFails
    | WriteToken
    | CloseWriter
    | WriterFails
    | ChildReads(declined: set<Fd>)   // at EOF: parse, and decline single records for schema or descriptor
    | ChildReady
    | ChildDies
    | Commit
    | GiveUp                          // EOF, a bad ack or the timeout, whatever the child is doing
    | Reap
    | Readopt(declined: set<Fd>)      // sockets that cannot be rebuilt are closed one by one
    | RollbackFails                   // the listener cannot be rebuilt

  predicate Running(t: Task) { !t.phase.Ended? }

  function RunningFds(tasks: map<Fd, Task>): set<Fd> { set fd | fd in tasks && Running(tasks[fd]) }

  predicate CanStep(s: System, step: Step) {
    match step
    case Connect(fd, buffered, atEof) => !s.parent.Exited? && fd !in s.wires && (atEof ==> buffered == [])
    case ParentIo(fd, e) => !s.parent.Exited? && fd in s.parentTasks && fd in s.wires && Enabled(s.wires[fd], s.parentTasks[fd], e)
    case ChildIo(fd, e) => fd in s.childTasks && fd in s.wires && Enabled(s.wires[fd], s.childTasks[fd], e)
    case BeginDrain => s.parent.Serving? && s.child.Absent?
    case CaptureSession(fd, h) =>
      && s.parent.Draining? && fd in s.parent.targets && fd in s.parentTasks && fd in s.wires && CanCancel(s.parentTasks[fd])
      && h.partialLine == s.parentTasks[fd].readBuf && h.pendingWrite == s.parentTasks[fd].writeBuf
      && h.linesEchoed == s.parentTasks[fd].echoed && h.fd == fd
    case CaptureFails(fd) => s.parent.Draining? && fd in s.parent.targets && fd in s.parentTasks && CanCancel(s.parentTasks[fd])
    case SpawnChild(source) =>
      && s.parent.Draining? && (forall fd :: fd in s.parent.targets && fd in s.parentTasks ==> !Running(s.parentTasks[fd]))
      && (source.FromEnv? && Parse(source.text).Some? ==> Parse(source.text).value == s.payload)
    case SpawnFails => s.parent.Draining? && forall fd :: fd in s.parent.targets && fd in s.parentTasks ==> !Running(s.parentTasks[fd])
    case WriteToken => Writing(s)
    case CloseWriter =>
      (s.parent.Waiting? || s.parent.Killing?) && Writable(s.channel) && s.channel.text == Serialize(s.payload)
    case WriterFails => Writing(s)
    case ChildReads(declined) => s.child.Booting? && AtEof(s.channel)
    case ChildReady => s.child.Adopting?
    case ChildDies => s.child.Booting? || s.child.Adopting? || s.child.Ready?
    case Commit => s.parent.Waiting? && s.readyPipe
    case GiveUp => s.parent.Waiting?
    case Reap => s.parent.Killing?
    case Readopt(_) => s.parent.Reaped?
    case RollbackFails => s.parent.Reaped?
  }

  predicate Writable(c: Channel) { c.source.FromPipe? && c.end.Open? }

  /** The child can read to the end. */
  predicate AtEof(c: Channel) { c.source.FromEnv? || !c.end.Open? }

  /** The writer still has something to write. */
  predicate Writing(s: System) {
    && (s.parent.Waiting? || s.parent.Killing?) && Writable(s.channel)
    && s.channel.text <= Serialize(s.payload) && s.channel.text != Serialize(s.payload)
  }

  function Sent(c: Channel, all: seq<Token>): Channel
    requires c.text <= all && c.text != all
  {
    c.(text := c.text + [all[|c.text|]])
  }

  /** What the child reads. */
  function Text(c: Channel): seq<Token> { if c.source.FromPipe? then c.text else c.source.text }

  /** The child has a payload it can parse. */
  predicate Parses(c: Channel) { Parse(Text(c)).Some? }

  function TasksFor(records: map<Fd, SessionHandoff>, declined: set<Fd>): map<Fd, Task> {
    map fd | fd in records && fd !in declined :: Adopted(records[fd])
  }

  /** The child's startup: records that parse are adopted; a bad pipe kills it, a bad environment does not. */
  function ReadPayload(s: System, declined: set<Fd>): System {
    match Parse(Text(s.channel))
    case Some(hs) =>
      s.(child := Adopting, declined := declined * ByFd(hs).Keys, childTasks := TasksFor(ByFd(hs), declined))
    case None =>
      if s.channel.source.FromPipe? then s.(child := Dead) else s.(child := Adopting, declined := {}, childTasks := map[])
  }

  /** The old process fails and takes its drained sessions with it. */
  function Abandon(s: System): System {
    s.(parent := Exited(1), exits := s.exits + [1], parentTasks := map[], payload := [], handoffs := map[], base := map[])
  }

  function Do(s: System, step: Step): System
    requires CanStep(s, step)
  {
    match step
    case Connect(fd, buffered, atEof) =>
      s.(wires := s.wires[fd := FreshWire(buffered, atEof)], parentTasks := s.parentTasks[fd := FreshTask(buffered, atEof)])
    case ParentIo(fd, e) =>
      s.(wires := s.wires[fd := NextWire(s.wires[fd], s.parentTasks[fd], e)],
         parentTasks := s.parentTasks[fd := NextTask(s.wires[fd], s.parentTasks[fd], e)])
    case ChildIo(fd, e) =>
      s.(wires := s.wires[fd := NextWire(s.wires[fd], s.childTasks[fd], e)],
         childTasks := s.childTasks[fd := NextTask(s.wires[fd], s.childTasks[fd], e)])
    case BeginDrain => s.(parent := Draining(RunningFds(s.parentTasks)), dropped := {})
    case CaptureSession(fd, h) =>
      var w := CaptureWire(s.wires[fd], s.parentTasks[fd]);
      s.(wires := s.wires[fd := w], parentTasks := s.parentTasks - {fd},
         payload := s.payload + [h], handoffs := s.handoffs[fd := h], base := s.base[fd := w])
    case CaptureFails(fd) => s.(parentTasks := s.parentTasks - {fd}, dropped := s.dropped + {fd})
    case SpawnChild(source) =>
      s.(parent := Waiting, child := Booting, channel := Channel(source, [], Open), readyPipe := false)
    case SpawnFails => Abandon(s)
    case WriteToken => s.(channel := Sent(s.channel, Serialize(s.payload)))
    case CloseWriter => s.(channel := s.channel.(end := Complete))
    case WriterFails => s.(channel := s.channel.(end := Broken))
    case ChildReads(declined) => ReadPayload(s, declined)
    case ChildReady => s.(child := Ready, readyPipe := true)
    case ChildDies => s.(child := Dead, childTasks := map[])
    case Commit =>
      var next := s.(generation := s.generation + 1, exits := s.exits + [UPGRADE_COMMIT_EXIT_CODE], child := Absent, readyPipe := false,
                     parentTasks := s.childTasks, childTasks := map[], payload := [], handoffs := map[], base := map[]);
      if s.child.Dead? then next.(parent := Exited(UPGRADE_COMMIT_EXIT_CODE)) else next.(parent := Serving)
    case GiveUp => s.(parent := Killing)
    case Reap => s.(parent := Reaped, child := Absent, childTasks := map[], readyPipe := false)
    case Readopt(declined) =>
      s.(parent := Serving, payload := [], handoffs := map[], base := map[], tainted := s.tainted + Touched(s),
         parentTasks := s.parentTasks + TasksFor(s.handoffs, declined))
    case RollbackFails => Abandon(s)
  }

  /** Drained sessions whose socket has moved since they were captured. */
  function Touched(s: System): set<Fd> {
    set fd | fd in s.base && fd in s.wires && !SameTraffic(s.base[fd], s.wires[fd])
  }

  predicate SameTraffic(a: Wire, b: Wire) { a.received == b.received && a.sent == b.sent }

  /** How a session's wire can move while its record is out. */
  predicate Extends(a: Wire, b: Wire) {
    && a.received <= b.received && a.sent <= b.sent && a.interrupted == b.interrupted
    && (a.closed ==> b.closed && b.received == a.received)
  }

  // ---- the invariant ------------------------------------------------------------------------

  function Get<V>(m: map<Fd, V>, fd: Fd): Option<V> { if fd in m then Some(m[fd]) else None }

  /** Everything the system holds about one session. */
  datatype Local = Local(wire: Option<Wire>, inParent: Option<Task>, inChild: Option<Task>,
                         record: Option<SessionHandoff>, base: Option<Wire>, tainted: bool)

  function At(s: System, fd: Fd): Local {
    Local(Get(s.wires, fd), Get(s.parentTasks, fd), Get(s.childTasks, fd),
          Get(s.handoffs, fd), Get(s.base, fd), fd in s.tainted)
  }

  /** No child has had a chance to run a drained session yet. */
  predicate Still(s: System) { (s.child.Absent? || s.child.Booting?) && !s.parent.Reaped? }

  predicate Placed(l: Local, still: bool) {
    && (l.inParent.Some? ==> l.wire.Some? && l.record.None?)
    && (l.inChild.Some? ==> l.record.Some?)
    && (l.record.Some? <==> l.base.Some?)
    && (l.record.Some? ==> l.wire.Some? && Extends(l.base.value, l.wire.value))
    && (l.record.Some? && still ==> l.base == l.wire)
  }

  predicate Sound(l: Local) {
    && (l.wire.Some? ==> l.wire.value.sent <= Owed(l.wire.value))
    && (l.wire.Some? && l.inParent.Some? ==> Inv(l.wire.value, l.inParent.value))
    && (l.wire.Some? && l.inChild.Some? ==> Inv(l.wire.value, l.inChild.value))
    && (l.record.Some? && l.base.Some? ==> Inv(l.base.value, Adopted(l.record.value)))
  }

  predicate SessionOk(l: Local, still: bool) { Placed(l, still) && (!l.tainted ==> Sound(l)) }

  predicate PhasesOk(s: System) {
    && (s.parent.Serving? || s.parent.Exited? ==> s.payload == [])
    && (s.parent.Draining? ==> s.parent.targets <= s.parentTasks.Keys + s.handoffs.Keys + s.dropped)
    && (s.parent.Waiting? || s.parent.Killing? <==> !s.child.Absent?)
    && (s.childTasks != map[] ==> s.child.Adopting? || s.child.Ready?)
    && (s.readyPipe ==> s.child.Ready? || s.child.Dead?)
    && (s.parent.Exited? ==> s.parentTasks == map[] && s.childTasks == map[])
  }

  /** The pipe holds a part of the payload, all of it when it was closed properly. */
  predicate ChannelOk(payload: seq<SessionHandoff>, c: Channel) {
    if c.source.FromPipe? then
      && c.text <= Serialize(payload)
      && (c.end.Complete? ==> c.text == Serialize(payload))
      && (c.end.Broken? ==> c.text != Serialize(payload))
    else Parse(c.source.text).Some? ==> Parse(c.source.text).value == payload
  }

  /** A child past its startup: a piped payload arrived whole. */
  predicate Arrived(c: Channel) { c.source.FromPipe? ==> c.end.Complete? }

  /** Adopted and declined sessions against those handed over. */
  predicate Split(handed: set<Fd>, adopted: set<Fd>, declined: set<Fd>, parsed: bool) {
    if parsed then declined <= handed && adopted == handed - declined else declined == {} && adopted == {}
  }

  predicate PipeOk(s: System) {
    && s.handoffs == ByFd(s.payload)
    && (!s.child.Absent? ==> ChannelOk(s.payload, s.channel))
    && (s.child.Adopting? || s.child.Ready? || s.readyPipe ==> Arrived(s.channel))
    && (s.child.Adopting? || s.child.Ready? ==> Split(s.handoffs.Keys, s.childTasks.Keys, s.declined, Parses(s.channel)))
  }

  ghost predicate SystemInv(s: System) {
    PhasesOk(s) && PipeOk(s) && forall fd :: SessionOk(At(s, fd), Still(s))
  }

  function Start(): System {
    System(0, [], Serving, Absent, [], Channel(FromPipe, [], Open), false, map[], map[], map[], map[], map[], {}, {}, {})
  }

  function Init(steps: seq<Step>): seq<Step>
    requires steps != []
  {
    steps[..|steps| - 1]
  }

  function Last(steps: seq<Step>): Step
    requires steps != []
  {
    steps[|steps| - 1]
  }

  predicate Runnable(steps: seq<Step>)
    decreases |steps|, 0
  {
    steps == [] || (Runnable(Init(steps)) && CanStep(End(Init(steps)), Last(steps)))
  }

  /** Where the system stands after a run. */
  function End(steps: seq<Step>): System
    requires Runnable(steps)
    decreases |steps|, 1
  {
    if steps == [] then Start() else Do(End(Init(steps)), Last(steps))
  }

  lemma RunSnoc(steps: seq<Step>, step: Step)
    requires Runnable(steps) && CanStep(End(steps), step)
    ensures Runnable(steps + [step]) && End(steps + [step]) == Do(End(steps), step)
  {
    assert Init(steps + [step]) == steps;
  }

  // ---- every step keeps it ------------------------------------------------------------------

  lemma FreshOk(buffered: seq<byte>, atEof: bool)
    ensures Inv(FreshWire(buffered, atEof), FreshTask(buffered, atEof))
    ensures FreshWire(buffered, atEof).sent <= Owed(FreshWire(buffered, atEof))
  {
    FreshInv(buffered, atEof);
    SentIsPrefix(FreshWire(buffered, atEof), FreshTask(buffered, atEof));
  }

  lemma StepOk(w: Wire, t: Task, e: Event)
    requires Inv(w, t) && Enabled(w, t, e)
    ensures Inv(NextWire(w, t, e), NextTask(w, t, e)) && NextWire(w, t, e).sent <= Owed(NextWire(w, t, e))
  {
    StepInv(w, t, e);
    SentIsPrefix(NextWire(w, t, e), NextTask(w, t, e));
  }

  lemma StepExtends(a: Wire, w: Wire, t: Task, e: Event)
    requires Extends(a, w) && Enabled(w, t, e)
    ensures Extends(a, NextWire(w, t, e))
  {
  }

  lemma ParentIoOk(l: Local, still: bool, e: Event)
    requires SessionOk(l, still) && l.wire.Some? && l.inParent.Some? && l.inChild.None? && Enabled(l.wire.value, l.inParent.value, e)
    ensures SessionOk(l.(wire := Some(NextWire(l.wire.value, l.inParent.value, e)),
                         inParent := Some(NextTask(l.wire.value, l.inParent.value, e))), still)
  {
    if !l.tainted { StepOk(l.wire.value, l.inParent.value, e); }
  }

  lemma ChildIoOk(l: Local, e: Event)
    requires SessionOk(l, false) && l.wire.Some? && l.inChild.Some? && Enabled(l.wire.value, l.inChild.value, e)
    ensures SessionOk(l.(wire := Some(NextWire(l.wire.value, l.inChild.value, e)),
                         inChild := Some(NextTask(l.wire.value, l.inChild.value, e))), false)
  {
    if !l.tainted { StepOk(l.wire.value, l.inChild.value, e); }
    StepExtends(l.base.value, l.wire.value, l.inChild.value, e);
  }

  /** The session a step works on, when it works on one. */
  lemma MoverOk(s: System, step: Step)
    requires SystemInv(s) && CanStep(s, step)
    requires step.Connect? || step.ParentIo? || step.ChildIo? || step.CaptureSession? || step.CaptureFails?
    ensures SessionOk(At(Do(s, step), step.fd), Still(s))
  {
    var l := At(s, step.fd);
    assert SessionOk(l, Still(s));
    match step
    case Connect(_, buffered, atEof) => FreshOk(buffered, atEof);
    case ParentIo(_, e) => ParentIoOk(l, Still(s), e);
    case ChildIo(_, e) => ChildIoOk(l, e);
    case CaptureSession(_, h) => CaptureOk(l, h);
    case CaptureFails(_) =>
  }

  lemma CaptureOk(l: Local, h: SessionHandoff)
    requires SessionOk(l, true) && l.wire.Some? && l.inParent.Some? && l.inChild.None? && CanCancel(l.inParent.value)
    requires var t := l.inParent.value; h.partialLine == t.readBuf && h.pendingWrite == t.writeBuf && h.linesEchoed == t.echoed
    ensures var w := CaptureWire(l.wire.value, l.inParent.value);
      SessionOk(Local(Some(w), None, None, Some(h), Some(w), l.tainted), true)
  {
    if !l.tainted {
      HandoffInv(l.wire.value, l.inParent.value, h);
      SentIsPrefix(CaptureWire(l.wire.value, l.inParent.value), Adopted(h));
    }
  }

  lemma OthersUntouched(s: System, step: Step, fd: Fd)
    requires CanStep(s, step)
    requires step.Connect? || step.ParentIo? || step.ChildIo? || step.CaptureSession? || step.CaptureFails?
    requires fd != step.fd
    ensures At(Do(s, step), fd) == At(s, fd)
  {
  }

  lemma IoPipeOk(s: System, s': System)
    requires PhasesOk(s) && PipeOk(s)
    requires s' == s.(wires := s'.wires, parentTasks := s'.parentTasks, childTasks := s'.childTasks, dropped := s'.dropped)
    requires s.parentTasks.Keys - s'.dropped <= s'.parentTasks.Keys && s.dropped <= s'.dropped && s'.childTasks.Keys == s.childTasks.Keys
    requires s.parent.Exited? ==> s'.parentTasks == map[]
    ensures PhasesOk(s') && PipeOk(s')
  {
    if s.childTasks == map[] { assert s'.childTasks.Keys == {}; }
  }

  lemma CapturePipeOk(s: System, fd: Fd, h: SessionHandoff)
    requires PhasesOk(s) && PipeOk(s) && CanStep(s, CaptureSession(fd, h))
    ensures PhasesOk(Do(s, CaptureSession(fd, h))) && PipeOk(Do(s, CaptureSession(fd, h)))
  {
    ByFdSnoc(s.payload, h);
  }

  lemma MovePipeOk(s: System, step: Step)
    requires SystemInv(s) && CanStep(s, step)
    requires step.Connect? || step.ParentIo? || step.ChildIo? || step.CaptureSession? || step.CaptureFails?
    ensures PhasesOk(Do(s, step)) && PipeOk(Do(s, step))
  {
    if step.CaptureSession? { CapturePipeOk(s, step.fd, step.handoff); } else { IoPipeOk(s, Do(s, step)); }
  }

  lemma MoveInv(s: System, step: Step)
    requires SystemInv(s) && CanStep(s, step)
    requires step.Connect? || step.ParentIo? || step.ChildIo? || step.CaptureSession? || step.CaptureFails?
    ensures SystemInv(Do(s, step))
  {
    var s' := Do(s, step);
    MovePipeOk(s, step);
    forall fd ensures SessionOk(At(s', fd), Still(s')) {
      if fd == step.fd { MoverOk(s, step); } else { OthersUntouched(s, step, fd); }
    }
  }

  /** At EOF a payload parses exactly when all of it came through. */
  lemma WhatTheChildReads(payload: seq<SessionHandoff>, c: Channel)
    requires ChannelOk(payload, c) && AtEof(c)
    ensures Parses(c) ==> Parse(Text(c)).value == payload
    ensures c.source.FromPipe? ==> (Parses(c) <==> c.end.Complete?)
  {
    if c.source.FromPipe? {
      RoundTrip(payload);
      if c.end.Broken? { CutShort(payload, c.text); }
    }
  }

  lemma AdoptedSplit(records: map<Fd, SessionHandoff>, declined: set<Fd>)
    ensures Split(records.Keys, TasksFor(records, declined).Keys, declined * records.Keys, true)
  {
  }

  /** The child fails to start, starts without sessions, or starts with those it did not decline. */
  lemma ReadPayloadIs(s: System, declined: set<Fd>)
    requires PhasesOk(s) && PipeOk(s) && CanStep(s, ChildReads(declined))
    ensures var s' := ReadPayload(s, declined);
      || (s' == s.(child := Dead) && s.channel.source.FromPipe?)
      || (s' == s.(child := Adopting, declined := {}, childTasks := map[]) && s.channel.source.FromEnv? && !Parses(s.channel))
      || (s' == s.(child := Adopting, declined := declined * s.handoffs.Keys, childTasks := TasksFor(s.handoffs, declined))
          && Arrived(s.channel) && Parses(s.channel))
  {
    WhatTheChildReads(s.payload, s.channel);
  }

  lemma ReadPayloadOk(s: System, declined: set<Fd>)
    requires PhasesOk(s) && PipeOk(s) && CanStep(s, ChildReads(declined))
    ensures PhasesOk(ReadPayload(s, declined)) && PipeOk(ReadPayload(s, declined))
  {
    ReadPayloadIs(s, declined);
    AdoptedSplit(s.handoffs, declined);
    assert s.childTasks == map[];
  }

  lemma ReadLocal(s: System, declined: set<Fd>, fd: Fd)
    requires PhasesOk(s) && PipeOk(s) && CanStep(s, ChildReads(declined))
    ensures var l, l' := At(s, fd), At(ReadPayload(s, declined), fd);
      l' == l.(inChild := None) || (l.record.Some? && l' == l.(inChild := Some(Adopted(l.record.value))))
  {
    ReadPayloadIs(s, declined);
  }

  lemma AdoptOk(l: Local, l': Local)
    requires SessionOk(l, true)
    requires l' == l.(inChild := None) || (l.record.Some? && l' == l.(inChild := Some(Adopted(l.record.value))))
    ensures SessionOk(l', false)
  {
  }

  lemma ChildReadsInv(s: System, declined: set<Fd>)
    requires SystemInv(s) && CanStep(s, ChildReads(declined))
    ensures SystemInv(Do(s, ChildReads(declined)))
  {
    ReadPayloadOk(s, declined);
    forall fd ensures SessionOk(At(ReadPayload(s, declined), fd), false) {
      assert SessionOk(At(s, fd), Still(s));
      ReadLocal(s, declined, fd);
      AdoptOk(At(s, fd), At(ReadPayload(s, declined), fd));
    }
  }

  lemma TakeOverOk(l: Local, still: bool)
    requires SessionOk(l, still)
    ensures SessionOk(Local(l.wire, l.inChild, None, None, None, l.tainted), true)
  {
  }

  lemma CommitInv(s: System)
    requires SystemInv(s) && CanStep(s, Commit)
    ensures SystemInv(Do(s, Commit))
  {
    var s' := Do(s, Commit);
    assert PhasesOk(s') && PipeOk(s') && Still(s');
    forall fd ensures SessionOk(At(s', fd), true) {
      assert SessionOk(At(s, fd), Still(s));
      TakeOverOk(At(s, fd), Still(s));
      assert At(s', fd) == Local(At(s, fd).wire, At(s, fd).inChild, None, None, None, At(s, fd).tainted);
    }
  }

  lemma ReadoptOk(l: Local)
    requires SessionOk(l, false) && l.record.Some? && l.inChild.None?
    ensures var touched := !SameTraffic(l.base.value, l.wire.value);
      SessionOk(Local(l.wire, Some(Adopted(l.record.value)), None, None, None, l.tainted || touched), true)
  {
    if !l.tainted { RollbackExact(l.base.value, l.record.value, l.wire.value); }
  }

  lemma ReadoptInv(s: System, declined: set<Fd>)
    requires SystemInv(s) && CanStep(s, Readopt(declined))
    ensures SystemInv(Do(s, Readopt(declined)))
  {
    var s' := Do(s, Readopt(declined));
    forall fd ensures SessionOk(At(s', fd), Still(s')) {
      assert SessionOk(At(s, fd), Still(s));
      if fd in s.handoffs && fd !in declined {
        ReadoptOk(At(s, fd));
      } else if fd !in s.handoffs {
        assert At(s', fd) == At(s, fd);
      }
    }
  }

  lemma ChannelStepOk(payload: seq<SessionHandoff>, c: Channel, c': Channel)
    requires ChannelOk(payload, c) && Writable(c)
    requires || (c.text != Serialize(payload) && (c' == Sent(c, Serialize(payload)) || c' == c.(end := Broken)))
             || (c.text == Serialize(payload) && c' == c.(end := Complete))
    ensures ChannelOk(payload, c')
  {
  }

  lemma PipeInv(s: System, step: Step)
    requires SystemInv(s) && CanStep(s, step) && (step.WriteToken? || step.CloseWriter? || step.WriterFails?)
    ensures SystemInv(Do(s, step))
  {
    var s' := Do(s, step);
    ChannelStepOk(s.payload, s.channel, s'.channel);
    assert s' == s.(channel := s'.channel);
    assert !s.child.Adopting? && !s.child.Ready? && !s.readyPipe;
    forall fd ensures SessionOk(At(s', fd), Still(s')) {
      assert SessionOk(At(s, fd), Still(s));
      assert At(s', fd) == At(s, fd);
    }
  }

  lemma PhaseStepOk(s: System, step: Step)
    requires SystemInv(s) && CanStep(s, step)
    requires step.BeginDrain? || step.SpawnChild? || step.ChildReady? || step.GiveUp?
    ensures PhasesOk(Do(s, step)) && PipeOk(Do(s, step)) && Still(Do(s, step)) == Still(s)
  {
  }

  lemma PhaseInv(s: System, step: Step)
    requires SystemInv(s) && CanStep(s, step)
    requires step.BeginDrain? || step.SpawnChild? || step.ChildReady? || step.GiveUp?
    ensures SystemInv(Do(s, step))
  {
    PhaseStepOk(s, step);
    forall fd ensures SessionOk(At(Do(s, step), fd), Still(s)) {
      assert SessionOk(At(s, fd), Still(s));
      SameLocals(s, step, fd);
    }
  }

  lemma SameLocals(s: System, step: Step, fd: Fd)
    requires CanStep(s, step)
    requires step.BeginDrain? || step.SpawnChild? || step.ChildReady? || step.GiveUp?
    ensures At(Do(s, step), fd) == At(s, fd)
  {
  }

  lemma AbandonInv(s: System)
    requires SystemInv(s) && s.childTasks == map[] && s.child.Absent? && !s.readyPipe
    ensures SystemInv(Abandon(s))
  {
    var s' := Abandon(s);
    assert PhasesOk(s') && PipeOk(s');
    forall fd ensures SessionOk(At(s', fd), Still(s')) {
      assert SessionOk(At(s, fd), Still(s));
      assert At(s', fd) == Local(At(s, fd).wire, None, None, None, None, At(s, fd).tainted);
    }
  }

  lemma DeathInv(s: System, step: Step)
    requires SystemInv(s) && CanStep(s, step) && (step.ChildDies? || step.Reap?)
    ensures SystemInv(Do(s, step))
  {
    var s' := Do(s, step);
    assert PhasesOk(s') && PipeOk(s') && !Still(s');
    forall fd ensures SessionOk(At(s', fd), false) {
      assert SessionOk(At(s, fd), Still(s));
      assert At(s', fd) == At(s, fd).(inChild := None);
    }
  }

  lemma StepKeepsInv(s: System, step: Step)
    requires SystemInv(s) && CanStep(s, step)
    ensures SystemInv(Do(s, step))
  {
    match step
    case Connect(_, _, _) => MoveInv(s, step);
    case ParentIo(_, _) => MoveInv(s, step);
    case ChildIo(_, _) => MoveInv(s, step);
    case CaptureSession(_, _) => MoveInv(s, step);
    case CaptureFails(_) => MoveInv(s, step);
    case ChildReads(declined) => ChildReadsInv(s, declined);
    case WriteToken => PipeInv(s, step);
    case CloseWriter => PipeInv(s, step);
    case WriterFails => PipeInv(s, step);
    case Commit => CommitInv(s);
    case Readopt(declined) => ReadoptInv(s, declined);
    case SpawnFails => AbandonInv(s);
    case RollbackFails => AbandonInv(s);
    case ChildDies => DeathInv(s, step);
    case Reap => DeathInv(s, step);
    case _ => PhaseInv(s, step);
  }

  lemma {:induction false} RunKeepsInv(steps: seq<Step>)
    requires Runnable(steps)
    ensures SystemInv(End(steps))
    decreases |steps|
  {
    if steps != [] {
      RunKeepsInv(Init(steps));
      StepKeepsInv(End(Init(steps)), Last(steps));
    }
  }

  // ---- rollback -----------------------------------------------------------------------------

  /** The same line count over a longer stream means nothing was added to it. */
  lemma SameCountSameStream(c: seq<byte>, x: seq<byte>, last: bool, last': bool,
                            out: seq<byte>, out': seq<byte>, count: nat)
    requires EchoOf(c, last, out, count) && EchoOf(c + x, last', out', count)
    requires last ==> x == []
    ensures x == [] && out == out'
  {
    if AtBoundary(c) && out == Echo(c) && count == Lines(c) {
      EchoAppend(c, x);
      assert c + [] == c;
    } else {
      assert c + x == c;
    }
  }

  /**
   Rebuilding a task from its record is exact if and only if no byte was received or sent since the
   record was made.
   */
  lemma RollbackExact(w0: Wire, h: SessionHandoff, w1: Wire)
    requires Inv(w0, Adopted(h)) && Extends(w0, w1)
    ensures Inv(w1, Adopted(h)) <==> SameTraffic(w0, w1)
  {
    if SameTraffic(w0, w1) {
      SameBytes(w0, Adopted(h), w1, Adopted(h));
    } else if Inv(w1, Adopted(h)) {
      SoundTwiceSameTraffic(w0, h, w1);
    }
  }

  lemma ConsumedExtends(w0: Wire, t: Task, w1: Wire)
    requires w0.received <= w1.received && |t.readBuf| <= |w0.received|
    ensures Consumed(w0, t) <= Consumed(w1, t)
    ensures Consumed(w1, t) == Consumed(w0, t) + Consumed(w1, t)[|Consumed(w0, t)|..]
  {
  }

  lemma SoundTwiceSameTraffic(w0: Wire, h: SessionHandoff, w1: Wire)
    requires Inv(w0, Adopted(h)) && Inv(w1, Adopted(h)) && Extends(w0, w1)
    ensures SameTraffic(w0, w1)
  {
    var t := Adopted(h);
    var c0, c1 := Consumed(w0, t), Consumed(w1, t);
    ConsumedExtends(w0, t, w1);
    var x := c1[|c0|..];
    SameCountSameStream(c0, x, w0.closed && t.readBuf == [], w1.closed && t.readBuf == [],
                        w0.sent + Pending(t), w1.sent + Pending(t), t.echoed + w0.interrupted + InSend(t));
    SameEnd(w0.sent, w1.sent, Pending(t));
  }
}
