/**
 Whole runs of a session: any mix of chunked input, decoding, partial flushes and any number of
 cancel/handoff/adopt cycles, and the task body that produces such runs.
 */
module EchoTask {
  import opened Common
  import opened LinesCodec
  import opened Session

  datatype Conn = Conn(wire: Wire, task: Task)

  /** `Upgrade` is one full cycle: cancel, capture both buffers, rebuild the task from the record. */
  datatype Action = Io(event: Event) | Upgrade

  predicate CanAct(c: Conn, a: Action) {
    match a
    case Io(e) => Enabled(c.wire, c.task, e)
    case Upgrade => CanCancel(c.task)
  }

  function Act(c: Conn, a: Action): Conn
    requires CanAct(c, a)
  {
    match a
    case Io(e) => Conn(NextWire(c.wire, c.task, e), NextTask(c.wire, c.task, e))
    case Upgrade => Conn(CaptureWire(c.wire, c.task), Adopted(Capture(c.task, 0, 0, "", "", 1)))
  }

  predicate Runnable(c: Conn, run: seq<Action>)
    decreases |run|
  {
    run == [] || (CanAct(c, run[0]) && Runnable(Act(c, run[0]), run[1..]))
  }

  function Final(c: Conn, run: seq<Action>): Conn
    requires Runnable(c, run)
    decreases |run|
  {
    if run == [] then c else Final(Act(c, run[0]), run[1..])
  }

  function Fresh(buffered: seq<byte>, atEof: bool): Conn {
    Conn(FreshWire(buffered, atEof), FreshTask(buffered, atEof))
  }

  predicate Good(c: Conn) { Inv(c.wire, c.task) }

  predicate Quiet(c: Conn) { c.task.phase.Reading? && !c.task.readable }

  lemma ActGood(c: Conn, a: Action)
    requires Good(c) && CanAct(c, a)
    ensures Good(Act(c, a))
  {
    match a
    case Io(e) => StepInv(c.wire, c.task, e);
    case Upgrade => HandoffInv(c.wire, c.task, Capture(c.task, 0, 0, "", "", 1));
  }

  lemma {:induction false} RunGood(c: Conn, run: seq<Action>)
    requires Good(c) && Runnable(c, run)
    ensures Good(Final(c, run))
    decreases |run|
  {
    if run != [] {
      ActGood(c, run[0]);
      RunGood(Act(c, run[0]), run[1..]);
    }
  }

  /**
   The session law. In every run, however the input was chunked, the writes were split and however
   often the session was handed over, the client has received a prefix of the echo of what it sent;
   whenever the session waits for input, it has received all of it.
   */
  lemma EverySessionRun(buffered: seq<byte>, atEof: bool, run: seq<Action>)
    requires Runnable(Fresh(buffered, atEof), run)
    ensures var c := Final(Fresh(buffered, atEof), run);
      && c.wire.sent <= Owed(c.wire)
      && (Quiet(c) && !c.wire.closed ==> c.wire.sent == Echo(c.wire.received))
  {
    FreshInv(buffered, atEof);
    RunGood(Fresh(buffered, atEof), run);
    var c := Final(Fresh(buffered, atEof), run);
    SentIsPrefix(c.wire, c.task);
    if Quiet(c) { QuietIsComplete(c.wire, c.task); }
  }

  /** Upgrades are invisible: the same input gives the same output, with or without them. */
  lemma UpgradesAreInvisible(b1: seq<byte>, run1: seq<Action>, b2: seq<byte>, run2: seq<Action>)
    requires Runnable(Fresh(b1, false), run1) && Runnable(Fresh(b2, false), run2)
    requires var c1, c2 := Final(Fresh(b1, false), run1), Final(Fresh(b2, false), run2);
      && Quiet(c1) && Quiet(c2) && !c1.wire.closed && !c2.wire.closed
      && c1.wire.received == c2.wire.received
    ensures Final(Fresh(b1, false), run1).wire.sent == Final(Fresh(b2, false), run2).wire.sent
  {
    EverySessionRun(b1, false, run1);
    EverySessionRun(b2, false, run2);
  }

  // ---- line accounting ----------------------------------------------------------------------

  function Encoded(run: seq<Action>): nat {
    if run == [] then 0 else Encodes(run[0]) + Encoded(run[1..])
  }

  function Encodes(a: Action): nat { if a == Io(Feed) then 1 else 0 }

  /** Upgrades of the run that cut a `send` short. */
  function CutShort(c: Conn, run: seq<Action>): nat
    requires Runnable(c, run)
    decreases |run|
  {
    if run == [] then 0 else CutsSend(c, run[0]) + CutShort(Act(c, run[0]), run[1..])
  }

  function CutsSend(c: Conn, a: Action): nat {
    if a.Upgrade? && !c.task.phase.Reading? then 1 else 0
  }

  function SendInProgress(c: Conn): nat {
    if c.task.phase.Sending? || c.task.phase == Ended(true) then 1 else 0
  }

  lemma CountStep(c: Conn, a: Action)
    requires CanAct(c, a) && (c.task.phase.Feeding? ==> c.task.writeBuf == [])
    requires c.task.phase.Sending? ==> c.task.writeBuf != []
    ensures Encodes(a) + c.task.echoed + SendInProgress(c)
         == Act(c, a).task.echoed + CutsSend(c, a) + SendInProgress(Act(c, a))
  {
    match a
    case Io(e) =>
    case Upgrade =>
  }

  lemma {:induction false} CountRun(c: Conn, run: seq<Action>)
    requires Good(c) && Runnable(c, run)
    ensures Encoded(run) + c.task.echoed + SendInProgress(c)
         == Final(c, run).task.echoed + CutShort(c, run) + SendInProgress(Final(c, run))
    decreases |run|
  {
    if run != [] {
      ActGood(c, run[0]);
      CountStep(c, run[0]);
      CountRun(Act(c, run[0]), run[1..]);
    }
  }

  /** Lines encoded but not counted are exactly the sends an upgrade cut short, plus one in progress. */
  lemma EncodedMinusEchoed(buffered: seq<byte>, atEof: bool, run: seq<Action>)
    requires Runnable(Fresh(buffered, atEof), run)
    ensures var c0 := Fresh(buffered, atEof);
      Encoded(run) - Final(c0, run).task.echoed == CutShort(c0, run) + SendInProgress(Final(c0, run))
  {
    FreshInv(buffered, atEof);
    CountRun(Fresh(buffered, atEof), run);
  }

  // ---- progress without the client ----------------------------------------------------------

  predicate Internal(a: Action) { a.Io? && (a.event.Take? || a.event.Feed? || a.event.Flush?) }

  /** Bounds the steps a session can take with no further input. */
  function Work(c: Conn): nat {
    var t := c.task;
    var held := if t.phase.Feeding? then |t.phase.line| + 2 else 0;
    if t.phase.Ended? then 0
    else 4 * |t.readBuf| + |t.writeBuf| + held + (if t.readable then 1 else 0)
  }

  lemma WorkShrinks(c: Conn, a: Action)
    requires CanAct(c, a) && Internal(a)
    ensures Work(Act(c, a)) < Work(c)
    ensures Act(c, a).wire.received == c.wire.received && Act(c, a).wire.closed == c.wire.closed
  {
    match a.event
    case Take => var d := if c.task.eof then DecodeEof(c.task.readBuf) else Decode(c.task.readBuf);
    case Feed =>
    case Flush(n) =>
  }

  /** Unless it waits for input or is over, a session can move as soon as the socket takes a byte. */
  lemma NeverStuck(c: Conn) returns (a: Action)
    requires Good(c) && !Quiet(c) && !c.task.phase.Ended?
    ensures Internal(a) && CanAct(c, a)
  {
    a := Io(if c.task.phase.Reading? then Take else if c.task.phase.Feeding? then Feed else Flush(1));
  }

  /** No internal step is left. */
  ghost predicate Drained(c: Conn) { forall a :: Internal(a) ==> !CanAct(c, a) }

  lemma DrainedIsQuiet(c: Conn)
    requires Good(c) && Drained(c)
    ensures Quiet(c) || c.task.phase.Ended?
  {
    if !Quiet(c) && !c.task.phase.Ended? { var a := NeverStuck(c); }
  }

  predicate AllEchoed(w: Wire) {
    w.sent == Echo(w.received) || (w.closed && w.sent == FullEcho(w.received))
  }

  lemma EndsComplete(c: Conn, a: Action)
    requires Good(c) && CanAct(c, a) && Internal(a)
    ensures Act(c, a).task.phase.Ended? ==> AllEchoed(Act(c, a).wire)
  {
    if a.event.Take? && Taken(c.task).phase.Ended? { StopIsComplete(c.wire, c.task); }
  }

  /**
   An adopted session needs nothing more from its client: every run of internal steps is bounded, and
   where none is left the pending write and every buffered line have been echoed.
   */
  lemma {:induction false} AdoptedDrains(c: Conn, run: seq<Action>)
    requires Good(c) && Runnable(c, run) && (c.task.phase.Ended? ==> AllEchoed(c.wire))
    requires forall a :: a in run ==> Internal(a)
    ensures |run| <= Work(c)
    ensures Final(c, run).wire.received == c.wire.received
    ensures Drained(Final(c, run)) ==> AllEchoed(Final(c, run).wire)
    decreases |run|
  {
    if run == [] {
      if Drained(c) && !c.task.phase.Ended? {
        DrainedIsQuiet(c);
        QuietIsComplete(c.wire, c.task);
      }
    } else {
      ActGood(c, run[0]);
      WorkShrinks(c, run[0]);
      EndsComplete(c, run[0]);
      AdoptedDrains(Act(c, run[0]), run[1..]);
    }
  }

  // ---- the task body ------------------------------------------------------------------------

  lemma {:induction false} RunSnoc(c: Conn, run: seq<Action>, a: Action)
    requires Runnable(c, run) && CanAct(Final(c, run), a)
    ensures Runnable(c, run + [a]) && Final(c, run + [a]) == Act(Final(c, run), a)
    decreases |run|
  {
    if run == [] {
      assert run + [a] == [a] && [a][1..] == [];
    } else {
      assert (run + [a])[1..] == run[1..] + [a];
      RunSnoc(Act(c, run[0]), run[1..], a);
    }
  }

  /** What the outside world does next: the socket, or the upgrade that wants this session. */
  datatype Outside =
    | Readable(chunk: seq<byte>) | AtEof | ReadFails | Writable(room: nat) | WriteFails | CancelSent

  /** Of the events before, some prefix is used up, and a cancel was heard if it was among them. */
  ghost predicate Heard(before: seq<Outside>, after: seq<Outside>, was: bool, now: bool) {
    && |after| <= |before| && after == before[|before| - |after|..]
    && (now <==> was || CancelSent in before[..|before| - |after|])
  }

  lemma HeardNext(before: seq<Outside>, after: seq<Outside>, was: bool, now: bool)
    requires Heard(before, after, was, now) && after != []
    ensures Heard(before, after[1..], was, now || after[0].CancelSent?)
  {
    var n := |before| - |after|;
    assert before[..n + 1] == before[..n] + [after[0]];
  }

  lemma HeardOn(before: seq<Outside>, mid: seq<Outside>, after: seq<Outside>, was: bool, heard: bool, now: bool)
    requires Heard(before, mid, was, heard) && Heard(mid, after, heard, now)
    ensures Heard(before, after, was, now)
  {
    var n, k := |before| - |mid|, |mid| - |after|;
    assert before[..n + k] == before[..n] + mid[..k];
  }

  /**
   The body of a session task, driven by a script of outside events. `run` records the steps of the
   small-step machine it has made, so that every theorem about runs holds of this code.
   */
  class SessionTask {
    var wire: Wire
    var readBuf: seq<byte>
    var writeBuf: seq<byte>
    var readable: bool
    var eof: bool
    var echoed: nat
    var phase: Phase
    var cancelled: bool
    var script: seq<Outside>
    ghost const start: Conn
    ghost var run: seq<Action>

    ghost function View(): Conn
      reads this`wire, this`readBuf, this`writeBuf, this`readable, this`eof, this`phase, this`echoed
    {
      Conn(wire, Task(readBuf, writeBuf, readable, eof, phase, echoed))
    }

    ghost predicate Valid()
      reads this`wire, this`readBuf, this`writeBuf, this`readable, this`eof, this`phase, this`echoed, this`run
    {
      Runnable(start, run) && Final(start, run) == View() && Good(View())
    }

    ghost method Log(e: Event, before: Conn)
      requires Runnable(start, run) && Final(start, run) == before && Good(before)
      requires Enabled(before.wire, before.task, e) && View() == Act(before, Io(e))
      modifies this`run
      ensures Valid() && run == old(run) + [Io(e)]
    {
      RunSnoc(start, run, Io(e));
      ActGood(before, Io(e));
      run := run + [Io(e)];
    }

    constructor (wire: Wire, task: Task, script: seq<Outside>)
      requires Inv(wire, task) && (task.phase.Flushing? || task.phase.Reading?)
      ensures Valid() && start == Conn(wire, task) && View() == start && this.script == script && !cancelled
    {
      this.wire, this.script, cancelled := wire, script, false;
      readBuf, writeBuf, readable, eof := task.readBuf, task.writeBuf, task.readable, task.eof;
      echoed, phase := task.echoed, task.phase;
      start, run := Conn(wire, task), [];
    }

    method WriteOut(n: nat)
      requires Valid() && (phase.Flushing? || phase.Sending?) && 1 <= n <= |writeBuf|
      modifies this`wire, this`writeBuf, this`phase, this`echoed, this`run
      ensures Valid() && (phase == old(phase) || phase.Reading?)
      ensures wire.sent == old(wire.sent) + old(writeBuf)[..n] && writeBuf == old(writeBuf)[n..]
    {
      ghost var before := View();
      wire := wire.(sent := wire.sent + writeBuf[..n]);
      writeBuf := writeBuf[n..];
      if writeBuf == [] {
        if phase.Sending? { echoed := echoed + 1; }
        phase := Reading;
      }
      assert View().task == Flushed(before.task.(writeBuf := before.task.writeBuf[n..]));
      Log(Flush(n), before);
    }

    method FailWrite()
      requires Valid() && (phase.Flushing? || phase.Sending?)
      modifies this`phase, this`run
      ensures Valid() && phase.Ended?
    {
      ghost var before := View();
      phase := Ended(phase.Sending?);
      Log(WriteError, before);
    }

    /** One poll of a flush: writes what the socket has room for, and hears of a cancel. */
    method PollFlush()
      requires Valid() && (phase.Flushing? || phase.Sending?) && script != []
      modifies this
      ensures Valid() && script == old(script)[1..]
      ensures phase == old(phase) || phase.Reading? || phase.Ended?
      ensures cancelled == (old(cancelled) || old(script)[0].CancelSent?)
      ensures match old(script)[0]
        case Writable(room) =>
          var n := if room < |old(writeBuf)| then room else |old(writeBuf)|;
          wire.sent == old(wire.sent) + old(writeBuf)[..n] && writeBuf == old(writeBuf)[n..]
        case WriteFails => phase.Ended?
        case _ => View() == old(View())
    {
      var io := script[0];
      script := script[1..];
      match io
      case Writable(room) =>
        if room > 0 { WriteOut(if room < |writeBuf| then room else |writeBuf|); }
      case WriteFails => FailWrite();
      case CancelSent => cancelled := true;
      case _ =>
    }

    /** One poll of the stream while the buffer may hold a frame. */
    method PollDecode()
      requires Valid() && phase.Reading? && readable
      modifies this`readBuf, this`readable, this`phase, this`run
      ensures Valid()
      ensures phase.Feeding? || phase.Ended? || (phase.Reading? && !readable)
    {
      ghost var before := View();
      match if eof then DecodeEof(readBuf) else Decode(readBuf) {
        case Line(line, rest) => readBuf, phase := rest, Feeding(line);
        case Bad => phase := Ended(false);
        case NeedMore => if eof { phase := Ended(false); } else { readable := false; }
      }
      Log(Take, before);
    }

    method TakeIn(chunk: seq<byte>)
      requires Valid() && phase.Reading? && !readable && chunk != [] && !wire.closed
      modifies this`wire, this`readBuf, this`readable, this`eof, this`run
      ensures Valid() && readable
      ensures wire.received == old(wire.received) + chunk && readBuf == old(readBuf) + chunk
    {
      ghost var before := View();
      wire := wire.(received := wire.received + chunk);
      readBuf, readable, eof := readBuf + chunk, true, false;
      Log(Receive(chunk), before);
    }

    method SeeEof()
      requires Valid() && phase.Reading? && !readable
      modifies this`wire, this`readable, this`eof, this`phase, this`run
      ensures Valid() && wire.closed && if old(eof) then phase.Ended? else phase.Reading? && eof && readable
    {
      ghost var before := View();
      wire := wire.(closed := true);
      if eof { phase := Ended(false); } else { eof, readable := true, true; }
      Log(ReceiveEof, before);
    }

    method FailRead()
      requires Valid() && phase.Reading? && !readable
      modifies this`phase, this`run
      ensures Valid() && phase.Ended?
    {
      ghost var before := View();
      phase := Ended(false);
      Log(ReadError, before);
    }

    /** What the socket brings to a stream that waits for it. */
    method OnRead(io: Outside)
      requires Valid() && phase.Reading? && !readable
      modifies this`wire, this`readBuf, this`readable, this`eof, this`phase, this`run
      ensures Valid() && (phase.Reading? || phase.Ended?)
      ensures io.Readable? && io.chunk != [] && !old(wire.closed) ==>
        wire.received == old(wire.received) + io.chunk && readBuf == old(readBuf) + io.chunk && readable
      ensures io.AtEof? ==> wire.closed && if old(eof) then phase.Ended? else eof && readable
      ensures io.ReadFails? ==> phase.Ended?
      ensures !io.AtEof? && !io.ReadFails? && !(io.Readable? && io.chunk != [] && !old(wire.closed)) ==> View() == old(View())
    {
      if io.Readable? && io.chunk != [] && !wire.closed {
        TakeIn(io.chunk);
      } else if io.AtEof? {
        SeeEof();
      } else if io.ReadFails? {
        FailRead();
      }
    }

    /** One poll of the stream while it needs the socket; the poll may also bring a cancel. */
    method PollRead()
      requires Valid() && phase.Reading? && !readable && script != []
      modifies this
      ensures Valid() && script == old(script)[1..] && (phase.Reading? || phase.Ended?)
      ensures cancelled == (old(cancelled) || old(script)[0].CancelSent?)
      ensures var io := old(script)[0];
        && (io.Readable? && io.chunk != [] && !old(wire.closed) ==>
              wire.received == old(wire.received) + io.chunk && readBuf == old(readBuf) + io.chunk && readable)
        && (io.AtEof? ==> wire.closed && if old(eof) then phase.Ended? else eof && readable)
        && (io.ReadFails? ==> phase.Ended?)
        && (io.CancelSent? || io.Writable? || io.WriteFails? ==> View() == old(View()))
    {
      var io := script[0];
      script := script[1..];
      if io.CancelSent? { cancelled := true; }
      OnRead(io);
    }

    method FlushInherited()
      requires Valid() && (phase.Flushing? || phase.Reading?)
      modifies this
      ensures Valid() && (phase.Reading? || phase.Ended? || (phase.Flushing? && script == []))
      ensures Heard(old(script), script, old(cancelled), cancelled)
    {
      while phase.Flushing? && script != []
        invariant Valid() && (phase.Flushing? || phase.Reading? || phase.Ended?)
        invariant Heard(old(script), script, old(cancelled), cancelled)
        decreases |script|
      {
        HeardNext(old(script), script, old(cancelled), cancelled);
        PollFlush();
      }
    }

    /** `send` encodes at once: a taken line never waits outside the buffers. */
    method FeedLine()
      requires Valid() && phase.Feeding?
      modifies this`writeBuf, this`phase, this`run
      ensures Valid() && phase.Sending?
    {
      ghost var taken := View();
      writeBuf, phase := writeBuf + Encode(phase.line), Sending;
      Log(Feed, taken);
    }

    /** One turn of the echo loop, between two polls. */
    method EchoTurn()
      requires Valid() && (phase.Reading? || phase.Sending?)
      requires phase.Sending? || !readable ==> script != []
      modifies this
      ensures Valid() && (phase.Reading? || phase.Sending? || phase.Ended?)
      ensures if old(phase).Reading? && old(readable) then script == old(script) && cancelled == old(cancelled) && !(phase.Reading? && readable)
              else script == old(script)[1..] && cancelled == (old(cancelled) || old(script)[0].CancelSent?)
    {
      if phase.Sending? {
        PollFlush();
      } else if readable {
        DecodeAndFeed();
      } else {
        PollRead();
      }
    }

    method DecodeAndFeed()
      requires Valid() && phase.Reading? && readable
      modifies this`readBuf, this`readable, this`phase, this`run, this`writeBuf
      ensures Valid() && (phase.Sending? || phase.Ended? || (phase.Reading? && !readable))
    {
      PollDecode();
      if phase.Feeding? { FeedLine(); }
    }

    /** Hands over exactly when a cancel was heard and the stream has not ended. */
    method EchoLoop() returns (handoff: bool)
      requires Valid() && phase.Reading?
      modifies this
      ensures Valid() && (phase.Reading? || phase.Sending? || phase.Ended?)
      ensures Heard(old(script), script, old(cancelled), cancelled)
      ensures handoff <==> cancelled && !phase.Ended?
      ensures !handoff ==> phase.Ended? || script == []
    {
      while !phase.Ended?
        invariant Valid() && (phase.Reading? || phase.Sending? || phase.Ended?)
        invariant Heard(old(script), script, old(cancelled), cancelled)
        decreases |script|, if phase.Reading? && readable then 1 else 0
      {
        if phase.Sending? || !readable {
          if cancelled { return true; }
          if script == [] { return false; }
          HeardNext(old(script), script, old(cancelled), cancelled);
        }
        EchoTurn();
      }
      return false;
    }

    /**
     The whole task: complete the inherited flush, then echo line by line until the stream ends, the
     outside falls silent or an upgrade cancels the task. A task is handed over exactly if a cancel was
     among the events it got and it is past its inherited flush and not over; and never with a line in
     its hands.
     */
    method Body() returns (handoff: bool)
      requires Valid() && (phase.Flushing? || phase.Reading?)
      modifies this
      ensures Valid()
      ensures Heard(old(script), script, old(cancelled), cancelled)
      ensures handoff <==> cancelled && !phase.Ended? && !phase.Flushing?
      ensures handoff ==> CanCancel(View().task) && !phase.Feeding?
      ensures !handoff ==> phase.Ended? || script == []
      ensures wire.sent <= Owed(wire)
    {
      FlushInherited();
      handoff := false;
      if phase.Reading? {
        ghost var mid, heard := script, cancelled;
        handoff := EchoLoop();
        HeardOn(old(script), mid, script, old(cancelled), heard, cancelled);
      }
      SentIsPrefix(wire, View().task);
    }
  }
}
