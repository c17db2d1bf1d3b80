/**
 The byte bridge between a client and the processor: two copy loops, an idle watchdog and the upgrade
 cancel share one stop token and quiesce at a frame boundary, within a drain grace.
 */
module Bridge {
  import opened Common

  const FRAME: nat := 8192

  /** Where one copy loop stands. */
  datatype Phase =
    | Selecting                               // before a read: the only place a stop is observed
    | Writing(frame: seq<byte>, done: nat)    // inside `write_all`
    | Stopped(writeFailed: bool)

  datatype Dir = Dir(phase: Phase, read: seq<byte>, written: seq<byte>)

  datatype Exit = Running | Ended | Cancelled

  datatype Bridge = Bridge(
    dirs: seq<Dir>, stop: bool,
    upgradeSent: bool, senderDropped: bool, listening: bool, upgrade: bool, exit: Exit)

  datatype Step =
    | Read(d: nat, frame: seq<byte>)
    | EndOfInput(d: nat)          // EOF or a read error
    | SeeStop(d: nat)
    | Write(d: nat, n: nat)
    | WriteFails(d: nat)
    | IdleTimeout
    | SendCancel                  // the upgrade fires its oneshot
    | DropSender                  // or drops it
    | TakeCancel                  // the cancel bridge consumes it
    | CancelBridgeStops
    | GraceElapses
    | AllJoined

  predicate CanStep(b: Bridge, step: Step) {
    && b.exit.Running?
    && match step
       case Read(d, frame) => d < |b.dirs| && b.dirs[d].phase.Selecting? && !b.stop && 1 <= |frame| <= FRAME
       case EndOfInput(d) => d < |b.dirs| && b.dirs[d].phase.Selecting? && !b.stop
       case SeeStop(d) => d < |b.dirs| && b.dirs[d].phase.Selecting? && b.stop
       case Write(d, n) => d < |b.dirs| && b.dirs[d].phase.Writing? && 1 <= n <= |b.dirs[d].phase.frame| - b.dirs[d].phase.done
                           && 0 <= b.dirs[d].phase.done
       case WriteFails(d) => d < |b.dirs| && b.dirs[d].phase.Writing?
       case IdleTimeout => !b.stop
       case SendCancel => !b.upgradeSent && !b.senderDropped
       case DropSender => !b.upgradeSent && !b.senderDropped
       case TakeCancel => b.listening && b.upgradeSent
       case CancelBridgeStops => b.listening && b.stop
       case GraceElapses => b.stop
       case AllJoined => b.stop && !b.listening && forall d :: 0 <= d < |b.dirs| ==> b.dirs[d].phase.Stopped?
  }

  function Stop(b: Bridge): Bridge { b.(stop := true) }

  function With(b: Bridge, d: nat, dir: Dir): Bridge
    requires d < |b.dirs|
  {
    b.(dirs := b.dirs[d := dir])
  }

  function Wrote(dir: Dir, n: nat): Dir
    requires dir.phase.Writing? && dir.phase.done + n <= |dir.phase.frame|
  {
    var k := dir.phase.done + n;
    Dir(if k == |dir.phase.frame| then Selecting else Writing(dir.phase.frame, k), dir.read,
        dir.written + dir.phase.frame[dir.phase.done..k])
  }

  function Leave(b: Bridge): Bridge { b.(exit := if b.upgrade then Cancelled else Ended) }

  predicate AllStopped(b: Bridge) { forall d :: 0 <= d < |b.dirs| ==> b.dirs[d].phase.Stopped? }

  function Do(b: Bridge, step: Step): Bridge
    requires CanStep(b, step)
  {
    match step
    case Read(d, frame) => With(b, d, Dir(Writing(frame, 0), b.dirs[d].read + frame, b.dirs[d].written))
    case EndOfInput(d) => Stop(With(b, d, b.dirs[d].(phase := Stopped(false))))
    case SeeStop(d) => With(b, d, b.dirs[d].(phase := Stopped(false)))
    case Write(d, n) => With(b, d, Wrote(b.dirs[d], n))
    case WriteFails(d) => Stop(With(b, d, b.dirs[d].(phase := Stopped(true))))
    case IdleTimeout => Stop(b)
    case SendCancel => b.(upgradeSent := true)
    case DropSender => b.(senderDropped := true)
    case TakeCancel => Stop(b.(listening := false, upgrade := true))
    case CancelBridgeStops => b.(listening := false)
    case GraceElapses => Leave(b)
    case AllJoined => Leave(b)
  }

  function Start(): Bridge {
    Bridge([Dir(Selecting, [], []), Dir(Selecting, [], [])], false, false, false, true, false, Running)
  }

  // ---- the invariant ------------------------------------------------------------------------

  /** Bytes read and not yet written: at most the one frame in hand, and none between frames. */
  predicate DirOk(dir: Dir) {
    && dir.written <= dir.read && |dir.read| - |dir.written| <= FRAME
    && match dir.phase
       case Selecting => dir.written == dir.read
       case Writing(frame, done) =>
         0 <= done < |frame| <= FRAME && dir.read == dir.written + frame[done..]
       case Stopped(failed) => failed <==> dir.written != dir.read
  }

  predicate Inv(b: Bridge) {
    && |b.dirs| == 2 && DirOk(b.dirs[0]) && DirOk(b.dirs[1])
    && (b.upgrade ==> b.upgradeSent && b.stop && !b.listening)
    && (!b.stop ==> b.listening && b.exit.Running? && !b.dirs[0].phase.Stopped? && !b.dirs[1].phase.Stopped?)
    && (b.exit.Cancelled? ==> b.upgrade) && (b.exit.Ended? ==> !b.upgrade)
  }

  lemma WroteOk(dir: Dir, n: nat)
    requires DirOk(dir) && dir.phase.Writing? && 1 <= n <= |dir.phase.frame| - dir.phase.done
    ensures DirOk(Wrote(dir, n)) && Wrote(dir, n).read == dir.read
  {
    var f, i := dir.phase.frame, dir.phase.done;
    assert f[i..] == f[i..i + n] + f[i + n..];
    assert dir.written + (f[i..i + n] + f[i + n..]) == dir.written + f[i..i + n] + f[i + n..];
  }

  lemma ReadOk(dir: Dir, frame: seq<byte>)
    requires DirOk(dir) && dir.phase.Selecting? && 1 <= |frame| <= FRAME
    ensures DirOk(Dir(Writing(frame, 0), dir.read + frame, dir.written))
  {
    assert frame[0..] == frame;
  }

  lemma CopyInv(b: Bridge, step: Step)
    requires Inv(b) && CanStep(b, step) && (step.Read? || step.Write? || step.SeeStop?)
    ensures Inv(Do(b, step))
  {
    match step
    case Read(d, frame) => ReadOk(b.dirs[d], frame);
    case Write(d, n) => WroteOk(b.dirs[d], n);
    case SeeStop(d) =>
  }

  lemma LeaveLoopInv(b: Bridge, step: Step)
    requires Inv(b) && CanStep(b, step) && (step.EndOfInput? || step.WriteFails?)
    ensures Inv(Do(b, step))
  {
    var dir := b.dirs[step.d];
    var left := dir.(phase := Stopped(step.WriteFails?));
    if step.WriteFails? { assert dir.phase.frame[dir.phase.done..] != []; }
    assert DirOk(left);
    var b' := Do(b, step);
    assert b'.dirs == b.dirs[step.d := left];
  }

  lemma StopInv(b: Bridge, step: Step)
    requires Inv(b) && CanStep(b, step) && (step.EndOfInput? || step.WriteFails? || step.IdleTimeout? || step.TakeCancel?)
    ensures Inv(Do(b, step))
  {
    if step.EndOfInput? || step.WriteFails? { LeaveLoopInv(b, step); }
  }

  lemma StepInv(b: Bridge, step: Step)
    requires Inv(b) && CanStep(b, step)
    ensures Inv(Do(b, step))
  {
    if step.Read? || step.Write? || step.SeeStop? {
      CopyInv(b, step);
    } else if step.EndOfInput? || step.WriteFails? || step.IdleTimeout? || step.TakeCancel? {
      StopInv(b, step);
    }
  }

  function Init(steps: seq<Step>): seq<Step>
    requires steps != []
  {
    steps[..|steps| - 1]
  }

  function Last(steps: seq<Step>): Step
    requires steps != []
  {
    steps[|steps| - 1]
  }

  predicate Runnable(steps: seq<Step>)
    decreases |steps|, 0
  {
    steps == [] || (Runnable(Init(steps)) && CanStep(End(Init(steps)), Last(steps)))
  }

  /** Where the bridge stands after a run. */
  function End(steps: seq<Step>): Bridge
    requires Runnable(steps)
    decreases |steps|, 1
  {
    if steps == [] then Start() else Do(End(Init(steps)), Last(steps))
  }

  lemma RunSnoc(steps: seq<Step>, step: Step)
    requires Runnable(steps) && CanStep(End(steps), step)
    ensures Runnable(steps + [step]) && End(steps + [step]) == Do(End(steps), step)
  {
    assert Init(steps + [step]) == steps;
  }

  lemma {:induction false} RunInv(steps: seq<Step>)
    requires Runnable(steps)
    ensures Inv(End(steps))
    decreases |steps|
  {
    if steps != [] {
      RunInv(Init(steps));
      StepInv(End(Init(steps)), Last(steps));
    }
  }

  // ---- the run, read from its steps alone ---------------------------------------------------

  /** The bytes a direction took, in order. */
  function BytesRead(steps: seq<Step>, d: nat): seq<byte> {
    if steps == [] then []
    else BytesRead(Init(steps), d) + if Last(steps).Read? && Last(steps).d == d then Last(steps).frame else []
  }

  /** How much of its frame a direction has still to write. */
  function InHand(steps: seq<Step>, d: nat): int {
    if steps == [] then 0
    else
      var before, e := InHand(Init(steps), d), Last(steps);
      if e.Read? && e.d == d then |e.frame| else if e.Write? && e.d == d then before - e.n else before
  }

  predicate CancelsToken(e: Step) { e.EndOfInput? || e.WriteFails? || e.IdleTimeout? || e.TakeCancel? }

  /** A loop takes nothing once the token is cancelled. */
  predicate NoReadAfterStop(steps: seq<Step>) {
    forall i, j :: 0 <= i < j < |steps| && CancelsToken(steps[i]) ==> !steps[j].Read?
  }

  predicate DirTraced(dir: Dir, steps: seq<Step>, d: nat) {
    && dir.read == BytesRead(steps, d)
    && |dir.read| - |dir.written| == InHand(steps, d)
    && (dir.phase == Stopped(true) <==> WriteFails(d) in steps)
  }

  predicate Traced(b: Bridge, steps: seq<Step>) {
    && (b.stop <==> exists i :: 0 <= i < |steps| && CancelsToken(steps[i]))
    && (b.upgrade <==> TakeCancel in steps)
    && (b.exit.Running? || (steps != [] && (Last(steps).AllJoined? || Last(steps).GraceElapses?)))
    && (!b.exit.Running? && Last(steps).AllJoined? ==> AllStopped(b))
    && NoReadAfterStop(steps)
  }

  lemma InSnoc(steps: seq<Step>, e: Step)
    requires steps != []
    ensures e in steps <==> e in Init(steps) || e == Last(steps)
  {
    assert steps == Init(steps) + [Last(steps)];
  }

  predicate Moves(e: Step, d: nat) {
    (e.Read? || e.EndOfInput? || e.SeeStop? || e.Write? || e.WriteFails?) && e.d == d
  }

  lemma Elsewhere(b: Bridge, e: Step, d: nat)
    requires d < 2 && Inv(b) && CanStep(b, e) && !Moves(e, d)
    ensures |Do(b, e).dirs| == 2 && Do(b, e).dirs[d] == b.dirs[d]
  {
  }

  /** What a direction's own step does to it. */
  function Moved(dir: Dir, e: Step): Dir {
    match e
    case Read(_, frame) => Dir(Writing(frame, 0), dir.read + frame, dir.written)
    case Write(_, n) => if dir.phase.Writing? && dir.phase.done + n <= |dir.phase.frame| then Wrote(dir, n) else dir
    case WriteFails(_) => dir.(phase := Stopped(true))
    case _ => dir.(phase := Stopped(false))
  }

  lemma Here(b: Bridge, e: Step, d: nat)
    requires d < 2 && Inv(b) && CanStep(b, e) && Moves(e, d)
    ensures |Do(b, e).dirs| == 2 && Do(b, e).dirs[d] == Moved(b.dirs[d], e) && !b.dirs[d].phase.Stopped?
    ensures e.Read? ==> b.dirs[d].written == b.dirs[d].read
    ensures e.Write? ==> b.dirs[d].phase.Writing? && b.dirs[d].phase.done + e.n <= |b.dirs[d].phase.frame|
  {
  }

  lemma DirStep(b: Bridge, steps: seq<Step>, d: nat)
    requires d < 2 && steps != [] && Inv(b) && CanStep(b, Last(steps)) && DirTraced(b.dirs[d], Init(steps), d)
    ensures |Do(b, Last(steps)).dirs| == 2 && DirTraced(Do(b, Last(steps)).dirs[d], steps, d)
  {
    InSnoc(steps, WriteFails(d));
    if Moves(Last(steps), d) { Here(b, Last(steps), d); } else { Elsewhere(b, Last(steps), d); }
  }

  lemma TraceStep(b: Bridge, steps: seq<Step>)
    requires steps != [] && Inv(b) && CanStep(b, Last(steps)) && Traced(b, Init(steps))
    ensures Traced(Do(b, Last(steps)), steps)
  {
    var e := Last(steps);
    InSnoc(steps, TakeCancel);
    assert forall i :: 0 <= i < |steps| - 1 ==> steps[i] == Init(steps)[i];
    if CancelsToken(e) { assert CancelsToken(steps[|steps| - 1]); }
  }

  lemma {:induction false} RunTraced(steps: seq<Step>)
    requires Runnable(steps)
    ensures Traced(End(steps), steps)
    ensures |End(steps).dirs| == 2 && DirTraced(End(steps).dirs[0], steps, 0) && DirTraced(End(steps).dirs[1], steps, 1)
    decreases |steps|
  {
    if steps != [] {
      RunTraced(Init(steps));
      RunInv(Init(steps));
      var b := End(Init(steps));
      DirStep(b, steps, 0);
      DirStep(b, steps, 1);
      TraceStep(b, steps);
    }
  }

  /** The direction's write failed, or the grace ran out while it was inside a frame. */
  predicate LosesBytes(steps: seq<Step>, d: nat)
    requires steps != []
  {
    WriteFails(d) in steps || (Last(steps).GraceElapses? && InHand(steps, d) > 0)
  }

  /**
   When the bridge has exited: each direction wrote a prefix of the bytes it took, in order, short by
   at most one frame, and short at all exactly when its write failed or the grace ran out while it was
   inside a frame; neither direction took a byte after the token was cancelled; and the exit is
   `Cancelled` exactly when the upgrade cancel was consumed.
   */
  lemma EveryBridgeRun(steps: seq<Step>, d: nat)
    requires d < 2 && Runnable(steps) && !End(steps).exit.Running?
    ensures var b := End(steps);
      && |b.dirs| == 2 && b.dirs[d].read == BytesRead(steps, d)
      && b.dirs[d].written <= BytesRead(steps, d) && |BytesRead(steps, d)| - |b.dirs[d].written| <= FRAME
      && steps != [] && (b.dirs[d].written != BytesRead(steps, d) <==> LosesBytes(steps, d))
      && NoReadAfterStop(steps)
      && (b.exit.Cancelled? <==> TakeCancel in steps)
  {
    RunInv(steps);
    RunTraced(steps);
    var dir := End(steps).dirs[d];
    if dir.phase.Writing? { assert dir.phase.frame[dir.phase.done..] != []; }
  }

  /** `Cancelled` alone does not promise a quiesced stream: the grace can cut a frame off. */
  lemma CancelledCanLoseAFrame() returns (steps: seq<Step>)
    ensures Runnable(steps) && End(steps).exit.Cancelled?
    ensures var b := End(steps); b.dirs != [] && b.dirs[0].written != b.dirs[0].read
  {
    var one: seq<byte> := [1];
    var reading := With(Start(), 0, Dir(Writing(one, 0), one, []));
    assert [] + one == one;
    steps := Push([], Read(0, one), reading);
    steps := Push(steps, SendCancel, reading.(upgradeSent := true));
    var stopped := Stop(reading.(upgradeSent := true, listening := false, upgrade := true));
    steps := Push(steps, TakeCancel, stopped);
    steps := Push(steps, GraceElapses, Leave(stopped));
  }

  lemma Push(steps: seq<Step>, step: Step, next: Bridge) returns (steps': seq<Step>)
    requires Runnable(steps) && CanStep(End(steps), step) && Do(End(steps), step) == next
    ensures Runnable(steps') && End(steps') == next
  {
    RunSnoc(steps, step);
    steps' := steps + [step];
  }

  // ---- one copy loop as a program -----------------------------------------------------------

  datatype Outside = Chunk(bytes: seq<byte>) | InputEnds | Room(n: nat) | WriteError | StopFires

  /**
   One direction, driven by a script of outside events: read a frame, write all of it, look at the
   stop token only in between. The loop makes exactly the steps of the machine's direction 0.
   */
  class CopyLoop {
    var read: seq<byte>
    var written: seq<byte>
    var phase: Phase
    var stop: bool
    var script: seq<Outside>
    ghost var steps: seq<Step>

    ghost predicate Valid()
      reads this
    {
      && Runnable(steps) && Inv(End(steps)) && End(steps).exit.Running?
      && End(steps).dirs[0] == Dir(phase, read, written) && End(steps).stop == stop
    }

    constructor (script: seq<Outside>)
      ensures Valid() && this.script == script && phase.Selecting? && steps == []
    {
      read, written, phase, stop := [], [], Selecting, false;
      this.script, steps := script, [];
    }

    ghost method Log(step: Step)
      requires Runnable(steps) && Inv(End(steps)) && CanStep(End(steps), step)
      requires var b := Do(End(steps), step);
        b.exit.Running? && |b.dirs| == 2 && b.dirs[0] == Dir(phase, read, written) && b.stop == stop
      modifies this`steps
      ensures Valid()
    {
      RunSnoc(steps, step);
      StepInv(End(steps), step);
      steps := steps + [step];
    }

    /** The token fires from outside: another loop, the idle watchdog or the upgrade. */
    method FireStop()
      requires Valid()
      modifies this`stop, this`steps
      ensures Valid() && stop
    {
      if !stop {
        stop := true;
        Log(IdleTimeout);
      }
    }

    method TakeFrame(frame: seq<byte>)
      requires Valid() && phase.Selecting? && !stop && 1 <= |frame| <= FRAME
      modifies this`read, this`phase, this`steps
      ensures Valid() && read == old(read) + frame && phase == Writing(frame, 0)
    {
      read, phase := read + frame, Writing(frame, 0);
      Log(Read(0, frame));
    }

    method EndInput()
      requires Valid() && phase.Selecting? && !stop
      modifies this`phase, this`stop, this`steps
      ensures Valid() && phase == Stopped(false) && stop
    {
      phase, stop := Stopped(false), true;
      Log(EndOfInput(0));
    }

    /** Waits for a frame; the stop branch is polled first. */
    method Select()
      requires Valid() && phase.Selecting? && (stop || script != [])
      modifies this
      ensures Valid() && (phase.Selecting? || phase.Writing? || phase == Stopped(false))
      ensures if old(stop) then phase.Stopped? && read == old(read) && script == old(script) else script == old(script)[1..]
      ensures !old(stop) ==>
        match old(script)[0]
        case Chunk(bytes) =>
          read == old(read) + (if |bytes| < 8192 then bytes else bytes[..8192]) && (bytes != [] ==> phase.Writing?)
        case InputEnds => phase.Stopped? && stop && read == old(read)
        case StopFires => phase.Selecting? && stop && read == old(read)
        case _ => phase.Selecting? && !stop && read == old(read)
    {
      if stop {
        phase := Stopped(false);
        Log(SeeStop(0));
        return;
      }
      var io := script[0];
      script := script[1..];
      match io
      case Chunk(bytes) =>
        if bytes != [] { TakeFrame(if |bytes| < FRAME then bytes else bytes[..FRAME]); }
      case InputEnds => EndInput();
      case StopFires => FireStop();
      case _ =>
    }

    method Advance(n: nat)
      requires Valid() && phase.Writing? && 1 <= n <= |phase.frame| - phase.done
      modifies this`written, this`phase, this`steps
      ensures Valid() && (phase.Selecting? || phase.Writing?)
      ensures written == old(written) + old(phase.frame)[old(phase.done)..old(phase.done) + n]
    {
      var frame, done := phase.frame, phase.done;
      ghost var before := Dir(phase, read, written);
      written := written + frame[done..done + n];
      phase := if done + n == |frame| then Selecting else Writing(frame, done + n);
      assert Dir(phase, read, written) == Wrote(before, n);
      Here(End(steps), Write(0, n), 0);
      Log(Write(0, n));
    }

    method FailWrite()
      requires Valid() && phase.Writing?
      modifies this`phase, this`stop, this`steps
      ensures Valid() && phase == Stopped(true) && stop
    {
      phase, stop := Stopped(true), true;
      Log(WriteFails(0));
    }

    /** One poll of `write_all`: the stop token is not looked at here. */
    method WriteSome()
      requires Valid() && phase.Writing? && script != []
      modifies this
      ensures Valid() && script == old(script)[1..] && read == old(read)
      ensures phase.Selecting? || phase.Writing? || phase == Stopped(true)
      ensures match old(script)[0]
        case Room(room) =>
          var left := |old(phase).frame| - old(phase).done;
          |written| == |old(written)| + (if room < left then room else left) && !phase.Stopped?
        case WriteError => phase.Stopped? && stop && written == old(written)
        case StopFires => phase == old(phase) && stop && written == old(written)
        case _ => phase == old(phase) && stop == old(stop) && written == old(written)
    {
      var io := script[0];
      script := script[1..];
      match io
      case Room(room) =>
        var left := |phase.frame| - phase.done;
        if room > 0 { Advance(if room < left then room else left); }
      case WriteError => FailWrite();
      case StopFires => FireStop();
      case _ =>
    }

    /** Runs until the loop stops or the outside falls silent. */
    method Run()
      requires Valid() && phase.Selecting?
      modifies this
      ensures Valid() && (phase.Stopped? || script == [])
      ensures written <= read && |read| - |written| <= FRAME
      ensures phase.Selecting? || phase == Stopped(false) ==> written == read
    {
      while !phase.Stopped?
        invariant Valid()
        decreases |script|, if phase.Stopped? then 0 else 1
      {
        if script == [] && !(phase.Selecting? && stop) { return; }
        if phase.Selecting? { Select(); } else { WriteSome(); }
      }
    }
  }
}
