/**
 One processor session as a small-step machine: socket -> read buffer -> line -> write buffer ->
 socket, interruptible by an upgrade at any suspension point.

 A `Wire` is what the kernel and the client know; a `Task` is what lives in the memory of the process
 that runs the session. An upgrade keeps the first and rebuilds the second from a handoff record.
 */
module Session {
  import opened Common
  import opened LinesCodec

  /** Above this many buffered bytes `send` flushes before it encodes (the framing library's boundary). */
  const BACKPRESSURE: nat := 8 * 1024

  /** `interrupted` counts the handoffs that cut a `send` short. */
  datatype Wire = Wire(received: seq<byte>, sent: seq<byte>, closed: bool, interrupted: nat)

  datatype Phase =
    | Flushing                   // finishing the echo an adopted session inherited
    | Reading                    // inside `framed.next()`
    | Feeding(line: seq<byte>)   // inside `send`, before the line is encoded
    | Sending                    // inside `send`, flushing
    | Ended(midSend: bool)

  datatype Task = Task(readBuf: seq<byte>, writeBuf: seq<byte>, readable: bool, eof: bool,
                       phase: Phase, echoed: nat)

  datatype Event =
    | Receive(chunk: seq<byte>)
    | ReceiveEof
    | ReadError
    | Take                       // decode the next frame out of the read buffer
    | Feed                       // encode the taken line into the write buffer
    | Flush(n: nat)
    | WriteError

  datatype Transport = Uds | Tcp

  datatype SessionHandoff = SessionHandoff(
    fd: nat, transport: Transport, partialLine: seq<byte>, pendingWrite: seq<byte>,
    linesEchoed: nat, connectedAt: nat, peer: string, ident: Option<string>, traceId: string, version: nat)

  // ---- transitions --------------------------------------------------------------------------

  predicate InFlush(t: Task) {
    t.phase.Flushing? || t.phase.Sending? || (t.phase.Feeding? && |t.writeBuf| >= BACKPRESSURE)
  }

  predicate Enabled(w: Wire, t: Task, e: Event) {
    match e
    case Receive(chunk) => t.phase.Reading? && !t.readable && !w.closed && chunk != []
    case ReceiveEof => t.phase.Reading? && !t.readable
    case ReadError => t.phase.Reading? && !t.readable
    case Take => t.phase.Reading? && t.readable
    case Feed => t.phase.Feeding? && |t.writeBuf| < BACKPRESSURE
    case Flush(n) => InFlush(t) && 1 <= n <= |t.writeBuf|
    case WriteError => InFlush(t)
  }

  function NextWire(w: Wire, t: Task, e: Event): Wire
    requires Enabled(w, t, e)
  {
    match e
    case Receive(chunk) => w.(received := w.received + chunk)
    case ReceiveEof => w.(closed := true)
    case Flush(n) => w.(sent := w.sent + t.writeBuf[..n])
    case _ => w
  }

  function NextTask(w: Wire, t: Task, e: Event): Task
    requires Enabled(w, t, e)
  {
    match e
    case Receive(chunk) => t.(readBuf := t.readBuf + chunk, readable := true, eof := false)
    case ReceiveEof => if t.eof then t.(phase := Ended(false)) else t.(eof := true, readable := true)
    case ReadError => t.(phase := Ended(false))
    case Take => Taken(t)
    case Feed => t.(writeBuf := t.writeBuf + Encode(t.phase.line), phase := Sending)
    case Flush(n) => Flushed(t.(writeBuf := t.writeBuf[n..]))
    case WriteError => t.(phase := Ended(t.phase.Sending?))
  }

  function Taken(t: Task): Task {
    match if t.eof then DecodeEof(t.readBuf) else Decode(t.readBuf)
    case Line(line, rest) => t.(readBuf := rest, phase := Feeding(line))
    case Bad => t.(phase := Ended(false))
    case NeedMore => if t.eof then t.(phase := Ended(false)) else t.(readable := false)
  }

  /** The counter moves in the same poll in which `send` completes. */
  function Flushed(t: Task): Task {
    if t.writeBuf != [] || t.phase.Feeding? then t
    else if t.phase.Sending? then t.(phase := Reading, echoed := t.echoed + 1)
    else t.(phase := Reading)
  }

  /** The suspension points of the `select!` that watches for an upgrade cancel. */
  predicate CanCancel(t: Task) {
    t.phase.Reading? || t.phase.Sending? || (t.phase.Feeding? && |t.writeBuf| >= BACKPRESSURE)
  }

  /** What the captured record keeps of a task: its two buffers and its counter, nothing else. */
  function Capture(t: Task, fd: nat, connectedAt: nat, peer: string, traceId: string, version: nat): SessionHandoff {
    SessionHandoff(fd, Uds, t.readBuf, t.writeBuf, t.echoed, connectedAt, peer, None, traceId, version)
  }

  function CaptureWire(w: Wire, t: Task): Wire {
    if t.phase.Reading? then w else w.(interrupted := w.interrupted + 1)
  }

  /** A task built from a handoff: both buffers replayed, decoding resumes before the next read. */
  function Adopted(h: SessionHandoff): Task {
    Task(h.partialLine, h.pendingWrite, h.partialLine != [], false,
         if h.pendingWrite != [] then Flushing else Reading, h.linesEchoed)
  }

  /** A session right after its preamble; bytes behind the preamble may already be buffered. */
  function FreshWire(buffered: seq<byte>, atEof: bool): Wire { Wire(buffered, [], atEof, 0) }

  function FreshTask(buffered: seq<byte>, atEof: bool): Task {
    Task(buffered, [], true, atEof, Reading, 0)
  }

  // ---- the invariant ------------------------------------------------------------------------

  /** Echo bytes that exist but are not on the socket yet. */
  function Pending(t: Task): seq<byte> {
    t.writeBuf + if t.phase.Feeding? then Encode(t.phase.line) else []
  }

  function InSend(t: Task): nat {
    if t.phase.Feeding? || t.phase.Sending? || t.phase == Ended(true) then 1 else 0
  }

  function Consumed(w: Wire, t: Task): seq<byte>
    requires |t.readBuf| <= |w.received|
  {
    w.received[..|w.received| - |t.readBuf|]
  }

  /** `out` is the echo of `c`, a run of whole lines or (when `last`) a whole finished stream. */
  predicate EchoOf(c: seq<byte>, last: bool, out: seq<byte>, count: nat) {
    || (AtBoundary(c) && out == Echo(c) && count == Lines(c))
    || (last && Tail(c).Line? && out == FullEcho(c) && count == Lines(c) + 1)
  }

  /** Nothing lost, torn, duplicated or reordered, and every line accounted for. */
  predicate Balanced(w: Wire, t: Task)
    requires |t.readBuf| <= |w.received|
  {
    EchoOf(Consumed(w, t), w.closed && t.readBuf == [],
           w.sent + Pending(t), t.echoed + w.interrupted + InSend(t))
  }

  predicate Inv(w: Wire, t: Task) {
    && |t.readBuf| <= |w.received|
    && w.received == Consumed(w, t) + t.readBuf
    && Balanced(w, t)
    && (t.phase.Reading? || t.phase.Feeding? ==> t.writeBuf == [])
    && (t.phase.Flushing? || t.phase.Sending? ==> t.writeBuf != [])
    && (t.eof ==> w.closed)
    && (!t.readable ==> Decode(t.readBuf).NeedMore?)
  }

  function Owed(w: Wire): seq<byte> {
    if w.closed then FullEcho(w.received) else Echo(w.received)
  }

  // ---- every step keeps it ------------------------------------------------------------------

  lemma FreshInv(buffered: seq<byte>, atEof: bool)
    ensures Inv(FreshWire(buffered, atEof), FreshTask(buffered, atEof))
  {
    var w, t := FreshWire(buffered, atEof), FreshTask(buffered, atEof);
    assert Consumed(w, t) == [];
  }

  /** Taking one complete line moves the boundary past it and owes one more encoded line. */
  lemma TakeLineEcho(c: seq<byte>, buf: seq<byte>, out: seq<byte>, count: nat)
    requires Decode(buf).Line? && EchoOf(c, false, out, count)
    ensures EchoOf(c + (buf[..FirstLf(buf)] + [LF]), false, out + Encode(Decode(buf).line), count + 1)
  {
    var raw := buf[..FirstLf(buf)];
    DecodedLine(buf);
    OneLine(raw, Decode(buf).line, Decode(buf).rest);
    EchoAppend(c, raw + [LF]);
  }

  lemma TakeTailEcho(c: seq<byte>, buf: seq<byte>, out: seq<byte>, count: nat)
    requires Decode(buf).NeedMore? && DecodeEof(buf).Line? && EchoOf(c, false, out, count)
    ensures EchoOf(c + buf, true, out + Encode(DecodeEof(buf).line), count + 1)
  {
    EchoAppend(c, buf);
    assert Echo(c) + [] == Echo(c);
  }

  /** Between two lines the echo on the socket is the whole echo so far. */
  lemma AtRest(w: Wire, t: Task)
    requires Inv(w, t) && t.phase.Reading?
    ensures EchoOf(Consumed(w, t), w.closed && t.readBuf == [], w.sent, t.echoed + w.interrupted)
  {
    assert w.sent + Pending(t) == w.sent;
  }

  /** Moving bytes from the buffer to the consumed part. */
  lemma Consume(w: Wire, t: Task, took: seq<byte>, t': Task)
    requires |t.readBuf| <= |w.received| && w.received == Consumed(w, t) + t.readBuf && t.readBuf == took + t'.readBuf
    ensures |t'.readBuf| <= |w.received| && Consumed(w, t') == Consumed(w, t) + took
    ensures w.received == Consumed(w, t') + t'.readBuf
  {
    assert w.received == (Consumed(w, t) + took) + t'.readBuf;
  }

  /** A line leaves the read buffer: from here on it is owed as encoded bytes. */
  lemma TakeBytes(w: Wire, t: Task, took: seq<byte>, rest: seq<byte>, line: seq<byte>)
    requires Inv(w, t) && t.phase.Reading? && t.readable && t.readBuf == took + rest
    requires EchoOf(Consumed(w, t) + took, w.closed && rest == [], w.sent + Encode(line), t.echoed + w.interrupted + 1)
    ensures Inv(w, t.(readBuf := rest, phase := Feeding(line)))
  {
    var t' := t.(readBuf := rest, phase := Feeding(line));
    Consume(w, t, took, t');
    assert Pending(t') == Encode(line);
  }

  lemma TakeLineInv(w: Wire, t: Task)
    requires Inv(w, t) && Enabled(w, t, Take) && Decode(t.readBuf).Line?
    ensures Inv(w, Taken(t))
  {
    var buf := t.readBuf;
    var line, raw := Decode(buf).line, buf[..FirstLf(buf)];
    DecodedLine(buf);
    AtRest(w, t);
    TakeLineEcho(Consumed(w, t), buf, w.sent, t.echoed + w.interrupted);
    TakeBytes(w, t, raw + [LF], Decode(buf).rest, line);
  }

  lemma TakeTailInv(w: Wire, t: Task)
    requires Inv(w, t) && Enabled(w, t, Take) && t.eof
    requires Decode(t.readBuf).NeedMore? && DecodeEof(t.readBuf).Line?
    ensures Inv(w, Taken(t))
  {
    var buf := t.readBuf;
    assert buf != [] && buf + [] == buf;
    AtRest(w, t);
    TakeTailEcho(Consumed(w, t), buf, w.sent, t.echoed + w.interrupted);
    TakeBytes(w, t, buf, [], DecodeEof(buf).line);
  }

  /** A step that moves no byte in or out of the session's total, and no count, keeps the balance. */
  lemma SameBytes(w: Wire, t: Task, w': Wire, t': Task)
    requires |t.readBuf| <= |w.received| && Balanced(w, t)
    requires w'.received == w.received && w'.interrupted == w.interrupted && (w.closed ==> w'.closed)
    requires t'.readBuf == t.readBuf && t'.echoed + InSend(t') == t.echoed + InSend(t)
    requires w'.sent + Pending(t') == w.sent + Pending(t)
    ensures Consumed(w', t') == Consumed(w, t) && Balanced(w', t')
  {
  }

  lemma TakeNothingInv(w: Wire, t: Task)
    requires Inv(w, t) && Enabled(w, t, Take)
    requires Taken(t).phase == Ended(false) || Taken(t) == t.(readable := false)
    ensures Inv(w, Taken(t))
  {
    var t' := Taken(t);
    assert t' == t.(phase := t'.phase, readable := t'.readable);
    SameBytes(w, t, w, t');
  }

  lemma TakeInv(w: Wire, t: Task)
    requires Inv(w, t) && Enabled(w, t, Take)
    ensures Inv(w, Taken(t))
  {
    if Decode(t.readBuf).Line? {
      TakeLineInv(w, t);
    } else if t.eof && DecodeEof(t.readBuf).Line? {
      TakeTailInv(w, t);
    } else {
      TakeNothingInv(w, t);
    }
  }

  lemma FeedInv(w: Wire, t: Task)
    requires Inv(w, t) && Enabled(w, t, Feed)
    ensures Inv(w, NextTask(w, t, Feed))
  {
    var t' := NextTask(w, t, Feed);
    assert Pending(t') == Pending(t);
    SameBytes(w, t, w, t');
  }

  lemma FinishInv(w: Wire, t: Task, e: Event)
    requires Inv(w, t) && Enabled(w, t, e) && (e.ReceiveEof? || e.ReadError? || e.WriteError?)
    ensures Inv(NextWire(w, t, e), NextTask(w, t, e))
  {
    var w', t' := NextWire(w, t, e), NextTask(w, t, e);
    assert t' == t.(phase := t'.phase, readable := t'.readable, eof := t'.eof);
    assert Pending(t') == Pending(t) && InSend(t') == InSend(t);
    SameBytes(w, t, w', t');
  }

  lemma ReceiveInv(w: Wire, t: Task, chunk: seq<byte>)
    requires Inv(w, t) && Enabled(w, t, Receive(chunk))
    ensures Inv(NextWire(w, t, Receive(chunk)), NextTask(w, t, Receive(chunk)))
  {
    var w', t' := NextWire(w, t, Receive(chunk)), NextTask(w, t, Receive(chunk));
    assert Consumed(w', t') == Consumed(w, t);
    assert w'.received == Consumed(w, t) + t'.readBuf;
  }

  lemma FlushInv(w: Wire, t: Task, n: nat)
    requires Inv(w, t) && Enabled(w, t, Flush(n))
    ensures Inv(NextWire(w, t, Flush(n)), NextTask(w, t, Flush(n)))
  {
    var w', t' := NextWire(w, t, Flush(n)), NextTask(w, t, Flush(n));
    assert !t.phase.Feeding?;
    assert t'.writeBuf == t.writeBuf[n..] && w'.sent == w.sent + t.writeBuf[..n];
    FlushBytes(w.sent, t.writeBuf, n);
    assert Pending(t) == t.writeBuf && Pending(t') == t'.writeBuf;
    SameBytes(w, t, w', t');
  }

  lemma FlushBytes(sent: seq<byte>, buf: seq<byte>, n: nat)
    requires n <= |buf|
    ensures sent + buf[..n] + buf[n..] == sent + buf
  {
  }

  /** The session engine keeps the invariant at every step. */
  lemma StepInv(w: Wire, t: Task, e: Event)
    requires Inv(w, t) && Enabled(w, t, e)
    ensures Inv(NextWire(w, t, e), NextTask(w, t, e))
  {
    match e
    case Receive(chunk) => ReceiveInv(w, t, chunk);
    case Flush(n) => FlushInv(w, t, n);
    case Take => TakeInv(w, t);
    case Feed => FeedInv(w, t);
    case _ => FinishInv(w, t, e);
  }

  /**
   Capturing a cancelled task and rebuilding it from the record loses nothing: at a suspension point
   no line is held outside the two buffers, because the write buffer is empty whenever a line has
   been taken and not yet encoded.
   */
  lemma HandoffInv(w: Wire, t: Task, h: SessionHandoff)
    requires Inv(w, t) && CanCancel(t)
    requires h.partialLine == t.readBuf && h.pendingWrite == t.writeBuf && h.linesEchoed == t.echoed
    ensures !t.phase.Feeding?
    ensures Inv(CaptureWire(w, t), Adopted(h))
  {
    var w', t' := CaptureWire(w, t), Adopted(h);
    assert Consumed(w', t') == Consumed(w, t);
    assert Pending(t') == Pending(t);
    assert FirstLf([]) == 0;
  }

  // ---- what the invariant means for the client ----------------------------------------------

  /** At every moment the client has received a prefix of the echo it is owed. */
  lemma SentIsPrefix(w: Wire, t: Task)
    requires Inv(w, t)
    ensures w.sent <= w.sent + Pending(t) <= Owed(w)
  {
    var c := Consumed(w, t);
    assert w.received == c + t.readBuf;
    EchoMonotone(c, t.readBuf);
    if t.readBuf == [] { assert c == w.received; }
  }

  /** A session waiting for input has echoed every complete line it was ever sent. */
  lemma QuietIsComplete(w: Wire, t: Task)
    requires Inv(w, t) && t.phase.Reading? && !t.readable
    ensures w.sent == Echo(w.received) || (w.closed && w.sent == FullEcho(w.received))
    ensures !w.closed ==> t.echoed + w.interrupted == Lines(w.received)
  {
    var c := Consumed(w, t);
    assert w.sent + Pending(t) == w.sent;
    if AtBoundary(c) && w.sent == Echo(c) {
      EchoAppend(c, t.readBuf);
      assert Echo(c) + [] == Echo(c);
    } else {
      assert c == w.received;
    }
  }

  /**
   A session that stops by itself (end of file, or a line the codec rejects) has echoed everything it
   owed; at a clean end of file that includes the unterminated last line.
   */
  lemma StopIsComplete(w: Wire, t: Task)
    requires Inv(w, t) && Enabled(w, t, Take) && Taken(t).phase.Ended?
    ensures w.sent == Echo(w.received) || (w.closed && w.sent == FullEcho(w.received))
    ensures t.eof && Decode(t.readBuf).NeedMore? ==> w.sent == FullEcho(w.received)
  {
    var c := Consumed(w, t);
    assert w.sent + Pending(t) == w.sent;
    if AtBoundary(c) && w.sent == Echo(c) {
      EchoAppend(c, t.readBuf);
      assert Echo(c) + [] == Echo(c);
    } else {
      assert c == w.received;
    }
  }
}
