/**
 A session restarted from a handoff record over whatever its socket has seen since: exactly when will
 it still give its client what a session promises?
 */
module Restart {
  import opened Common
  import opened LinesCodec
  import opened Session
  import opened EchoTask

  // ---- unfinished lines ---------------------------------------------------------------------

  /** Nothing can be added to this unfinished line that the codec would accept. */
  ghost predicate Dead(s: seq<byte>) { forall z :: Echo(s + z) == [] }

  lemma BadIsDead(s: seq<byte>)
    requires Decode(s).Bad?
    ensures Dead(s)
  {
    forall z ensures Echo(s + z) == [] { BadStays(s, z); }
  }

  lemma NoLine(s: seq<byte>)
    ensures Echo(s) == [] <==> !Decode(s).Line?
    ensures Echo(s) == [] ==> Rest(s) == s
  {
  }

  lemma DeadStays(s: seq<byte>, z: seq<byte>)
    requires Dead(s)
    ensures Dead(s + z) && Echo(s + z) == [] && Rest(s + z) == s + z
  {
    forall y ensures Echo(s + z + y) == [] { Assoc(s, z, y); }
    NoLine(s + z);
  }

  lemma FirstLfAfter(s: seq<byte>, z: seq<byte>)
    requires LF !in s
    ensures FirstLf(s + z) == |s| + FirstLf(z)
  {
    assert forall i :: 0 <= i < |s| ==> (s + z)[i] == s[i] && s[i] in s;
    assert forall i :: 0 <= i < |z| ==> (s + z)[|s| + i] == z[i];
  }

  lemma LineNeedsLf(s: seq<byte>)
    requires Decode(s).Line?
    ensures LF in s
  {
  }

  lemma CutAt(z: seq<byte>, k: nat)
    requires k < |z|
    ensures z == z[..k] + [z[k]] + z[k + 1..]
  {
  }

  lemma Parts(z: seq<byte>)
    requires LF in z
    ensures var k := FirstLf(z); k < |z| && LF !in z[..k] && z == z[..k] + [LF] + z[k + 1..]
  {
    var k := FirstLf(z);
    assert k < |z|;
    CutAt(z, k);
  }

  lemma TooLong(raw: seq<byte>, rest: seq<byte>)
    requires LF !in raw && |raw| > MAX_LENGTH
    ensures !Decode(raw + [LF] + rest).Line?
  {
    FirstLfOf(raw, rest);
  }

  lemma DecodedAfter(s: seq<byte>, u: seq<byte>, v: seq<byte>)
    requires LF !in s + u && Decode(s + (u + [LF] + v)).Line?
    ensures |s| + |u| <= MAX_LENGTH && Utf8(WithoutCr(s + u))
    ensures Echo(s + (u + [LF] + v)) == Encode(WithoutCr(s + u)) + Echo(v)
  {
    Assoc(s, u + [LF], v);
    Assoc(s, u, [LF]);
    if |s + u| > MAX_LENGTH { TooLong(s + u, v); }
    DecodeOf(s + u, v);
  }

  /** The line an unfinished start and its continuation make. */
  lemma LineAfter(s: seq<byte>, z: seq<byte>)
    requires Decode(s).NeedMore? && Echo(s + z) != []
    ensures LF in z
    ensures var k := FirstLf(z);
      && k < |z| && |s| + k <= MAX_LENGTH && Utf8(WithoutCr(s + z[..k]))
      && Echo(s + z) == Encode(WithoutCr(s + z[..k])) + Echo(z[k + 1..])
  {
    Unfinished(s);
    NoLine(s + z);
    LineNeedsLf(s + z);
    Parts(z);
    var u, v := z[..FirstLf(z)], z[FirstLf(z) + 1..];
    assert LF !in s + u;
    DecodedAfter(s, u, v);
  }

  lemma SameTextSameStart(a: seq<byte>, b: seq<byte>, u: seq<byte>)
    requires WithoutCr(a + u) == WithoutCr(b + u) && u != []
    ensures a == b
  {
    assert (a + u)[|a + u| - 1] == u[|u| - 1] == (b + u)[|b + u| - 1];
    assert a + u == b + u;
    assert a == (a + u)[..|a|] && b == (b + u)[..|b|];
  }

  const TELLTALE: seq<byte> := [121, LF]

  lemma Telltale()
    ensures FirstLf(TELLTALE) == 1 && TELLTALE[..1] == [121] && TELLTALE[2..] == []
  {
  }

  lemma EchoPlain(s: seq<byte>, x: byte)
    requires Utf8(s) && |s| < MAX_LENGTH && LF !in s && x < 0x80 && x != LF && x != CR
    ensures Echo(s + [x] + [LF]) == s + [x] + [LF]
  {
    var raw := s + [x];
    Utf8Ascii(s, x);
    assert WithoutCr(raw) == raw;
    OneLine(raw, raw, []);
  }

  lemma TelltaleAfter(s: seq<byte>)
    ensures s + TELLTALE == s + [121] + [LF]
  {
  }

  lemma EchoTelltale(s: seq<byte>)
    requires Utf8(s) && |s| < MAX_LENGTH && LF !in s
    ensures Echo(s + TELLTALE) == s + TELLTALE
  {
    TelltaleAfter(s);
    EchoPlain(s, 121);
  }

  lemma CrUnfinished(s: seq<byte>)
    requires |s| < MAX_LENGTH && LF !in s
    ensures Decode(s + [CR]).NeedMore?
  {
    FirstLfAfter(s, [CR]);
  }

  /** A CR at the end of an unfinished line shows as soon as something other than LF follows it. */
  lemma CrShows(s: seq<byte>)
    requires Utf8(s) && |s| < MAX_LENGTH && LF !in s
    ensures Echo(s + TELLTALE) != Echo(s + [CR] + TELLTALE)
  {
    EchoTelltale(s);
    CrUnfinished(s);
    if Echo(s + [CR] + TELLTALE) != [] {
      LineAfter(s + [CR], TELLTALE);
      Telltale();
      NoBytes();
      assert |WithoutCr(s + [CR] + [121])| == |s| + 2;
    }
  }

  /** Two different unfinished lines that give the same text now are one CR apart. */
  lemma OneCrApart(a: seq<byte>, b: seq<byte>)
    requires a != b && WithoutCr(a) == WithoutCr(b)
    ensures (b == a + [CR] && WithoutCr(a) == a) || (a == b + [CR] && WithoutCr(b) == b)
  {
    if EndsInCr(a) { assert a == WithoutCr(a) + [CR]; }
    if EndsInCr(b) { assert b == WithoutCr(b) + [CR]; }
  }

  predicate EndsInCr(s: seq<byte>) { s != [] && s[|s| - 1] == CR }

  /** Different unfinished lines can be told apart by what follows, unless neither can be accepted any more. */
  lemma Distinguish(a: seq<byte>, b: seq<byte>) returns (z: seq<byte>)
    requires Decode(a).NeedMore? && Decode(b).NeedMore? && a != b && !(Dead(a) && Dead(b))
    ensures Echo(a + z) != Echo(b + z)
  {
    if Dead(a) {
      z :| Echo(b + z) != [];
    } else {
      z :| Echo(a + z) != [];
      if Echo(a + z) == Echo(b + z) { z := TellApart(a, b, z); }
    }
  }

  /** If they give the same text at some point, that point is right here. */
  lemma SameTextNow(a: seq<byte>, b: seq<byte>, z: seq<byte>)
    requires Decode(a).NeedMore? && Decode(b).NeedMore? && a != b && Echo(a + z) == Echo(b + z) != []
    ensures WithoutCr(a) == WithoutCr(b) && Utf8(WithoutCr(a))
  {
    LineAfter(a, z);
    LineAfter(b, z);
    var u, v := z[..FirstLf(z)], z[FirstLf(z) + 1..];
    var x, y := WithoutCr(a + u), WithoutCr(b + u);
    Assoc(x, [LF], Echo(v));
    Assoc(y, [LF], Echo(v));
    SameEnd(x, y, [LF] + Echo(v));
    if u != [] { SameTextSameStart(a, b, u); }
    assert a + [] == a && b + [] == b;
  }

  lemma TellApart(a: seq<byte>, b: seq<byte>, z0: seq<byte>) returns (z: seq<byte>)
    requires Decode(a).NeedMore? && Decode(b).NeedMore? && a != b && Echo(a + z0) == Echo(b + z0) != []
    ensures Echo(a + z) != Echo(b + z)
  {
    SameTextNow(a, b, z0);
    OneCrApart(a, b);
    Unfinished(a);
    Unfinished(b);
    z := TELLTALE;
    if b == a + [CR] { CrShows(a); } else { CrShows(b); }
  }

  lemma SameEnd(a: seq<byte>, b: seq<byte>, c: seq<byte>)
    requires a + c == b + c
    ensures a == b
  {
    assert |a| == |b|;
    assert a == (a + c)[..|a|] && b == (b + c)[..|a|];
  }

  // ---- what a session promises its client ---------------------------------------------------

  /** No I/O error and no upgrade. */
  predicate Clean(a: Action) { a.Io? && !a.event.ReadError? && !a.event.WriteError? }

  /** A prefix of the echo at all times, all complete lines when it waits, everything when it ends. */
  predicate Kept(c: Conn) {
    && c.wire.sent <= Owed(c.wire)
    && (Quiet(c) && !c.wire.closed ==> c.wire.sent == Echo(c.wire.received))
    && (c.task.phase.Ended? ==> c.wire.sent == Owed(c.wire))
  }

  ghost predicate KeepsPromise(c: Conn) {
    forall run :: Runnable(c, run) && (forall a :: a in run ==> Clean(a)) ==> Kept(Final(c, run))
  }

  lemma PromiseStep(c: Conn, a: Action)
    requires KeepsPromise(c) && CanAct(c, a) && Clean(a)
    ensures KeepsPromise(Act(c, a))
  {
    forall run | Runnable(Act(c, a), run) && (forall x :: x in run ==> Clean(x)) ensures Kept(Final(Act(c, a), run)) {
      assert ([a] + run)[1..] == run;
      assert Runnable(c, [a] + run) && Final(c, [a] + run) == Final(Act(c, a), run);
    }
  }

  lemma {:induction false} PromiseRun(c: Conn, run: seq<Action>)
    requires KeepsPromise(c) && Runnable(c, run) && forall a :: a in run ==> Clean(a)
    ensures KeepsPromise(Final(c, run)) && Kept(Final(c, run))
    decreases |run|
  {
    if run == [] {
      assert Final(c, run) == c;
    } else {
      PromiseStep(c, run[0]);
      PromiseRun(Act(c, run[0]), run[1..]);
    }
  }

  // ---- the state condition ------------------------------------------------------------------

  /** All the session will ever send if nothing more arrives. */
  function Coming(c: Conn): seq<byte> {
    c.wire.sent + Pending(c.task) + if c.wire.closed then FullEcho(c.task.readBuf) else Echo(c.task.readBuf)
  }

  /** The buffered unfinished line is the client's, or it makes no difference any more. */
  ghost predicate SameLine(buffered: seq<byte>, received: seq<byte>) {
    var a, b := Rest(buffered), Rest(received);
    Decode(a).Bad? || a == b || (Dead(a) && Dead(b))
  }

  ghost predicate CaughtUp(c: Conn) {
    Coming(c) == Owed(c.wire) && (c.wire.closed || SameLine(c.task.readBuf, c.wire.received))
  }

  /** How the fields of a task hang together, whatever its socket has seen. */
  predicate Shape(c: Conn) {
    var t := c.task;
    && (if t.phase.Flushing? || t.phase.Sending? then t.writeBuf != [] else t.writeBuf == [])
    && (t.eof ==> c.wire.closed && t.readable)
    && (!t.readable ==> Decode(t.readBuf).NeedMore?)
    && (t.phase.Ended? ==> FullEcho(t.readBuf) == [] && (c.wire.closed || Decode(t.readBuf).Bad?))
  }

  lemma FullEchoLine(buf: seq<byte>)
    ensures Decode(buf).Line? ==> FullEcho(buf) == Encode(Decode(buf).line) + FullEcho(Decode(buf).rest)
    ensures !Decode(buf).Line? ==> FullEcho(buf) == if DecodeEof(buf).Line? then Encode(DecodeEof(buf).line) else []
  {
    if Decode(buf).Line? {
      var line, rest := Decode(buf).line, Decode(buf).rest;
      Assoc(Encode(line), Echo(rest), if Tail(rest).Line? then Encode(Tail(rest).line) else []);
    }
  }

  /** What a decode takes out of the buffer becomes pending. */
  lemma TakenBytes(t: Task)
    requires t.phase.Reading? && t.writeBuf == []
    ensures FullEcho(t.readBuf) == Pending(Taken(t)) + FullEcho(Taken(t).readBuf) || Taken(t).readBuf == t.readBuf
    ensures Decode(t.readBuf).Line? ==> Echo(t.readBuf) == Pending(Taken(t)) + Echo(Taken(t).readBuf)
    ensures Decode(t.readBuf).Line? || !t.eof ==> Rest(Taken(t).readBuf) == Rest(t.readBuf)
    ensures !Taken(t).phase.Feeding? ==> Taken(t) == t.(phase := Taken(t).phase, readable := Taken(t).readable)
  {
    FullEchoLine(t.readBuf);
    NoBytes();
    if Taken(t).phase.Feeding? { assert Pending(Taken(t)) == Encode(Taken(t).phase.line); }
    assert FullEcho([]) == [];
  }

  lemma TakeKeeps(c: Conn)
    requires Shape(c) && CanAct(c, Io(Take))
    ensures var c' := Act(c, Io(Take));
      Shape(c') && Coming(c') == Coming(c) && (!c.wire.closed ==> Rest(c'.task.readBuf) == Rest(c.task.readBuf))
  {
    var t, t' := c.task, Taken(c.task);
    TakenBytes(t);
    TakenShape(c);
    assert Pending(t) == [] && c.wire.sent + [] == c.wire.sent;
    if t'.phase.Feeding? {
      Assoc(c.wire.sent, Pending(t'), if c.wire.closed then FullEcho(t'.readBuf) else Echo(t'.readBuf));
    }
  }

  lemma TakenShape(c: Conn)
    requires Shape(c) && CanAct(c, Io(Take))
    ensures Shape(Act(c, Io(Take)))
    ensures Taken(c.task).phase.Feeding? ==> |Taken(c.task).readBuf| < |c.task.readBuf| && (Decode(c.task.readBuf).Line? || c.task.eof)
  {
    FullEchoLine(c.task.readBuf);
  }

  lemma SendKeeps(c: Conn, a: Action)
    requires Shape(c) && CanAct(c, a) && (a == Io(Feed) || (a.Io? && a.event.Flush?))
    ensures Shape(Act(c, a)) && Coming(Act(c, a)) == Coming(c)
  {
    var c' := Act(c, a);
    if a.event.Flush? {
      FlushBytes(c.wire.sent, c.task.writeBuf, a.event.n);
      assert Pending(c.task) == c.task.writeBuf && Pending(c'.task) == c'.task.writeBuf;
    } else {
      assert Pending(c'.task) == Pending(c.task);
    }
    assert c'.wire.sent + Pending(c'.task) == c.wire.sent + Pending(c.task);
  }

  lemma InternalKeeps(c: Conn, a: Action)
    requires Shape(c) && CanAct(c, a) && Internal(a)
    ensures var c' := Act(c, a);
      && Shape(c') && Coming(c') == Coming(c) && c'.task.eof == c.task.eof
      && c'.wire.received == c.wire.received && c'.wire.closed == c.wire.closed
      && (!c.wire.closed ==> Rest(c'.task.readBuf) == Rest(c.task.readBuf))
  {
    if a.event.Take? { TakeKeeps(c); } else { SendKeeps(c, a); }
  }

  // ---- enough -------------------------------------------------------------------------------

  lemma QuietEmpty(c: Conn)
    requires Shape(c) && Quiet(c)
    ensures Coming(c) == c.wire.sent + if c.wire.closed then FullEcho(c.task.readBuf) else []
    ensures Rest(c.task.readBuf) == c.task.readBuf
  {
    Unfinished(c.task.readBuf);
    assert c.wire.sent + Pending(c.task) == c.wire.sent;
  }

  lemma ReceiveCaughtUp(c: Conn, z: seq<byte>)
    requires Shape(c) && CaughtUp(c) && CanAct(c, Io(Receive(z)))
    ensures Shape(Act(c, Io(Receive(z)))) && CaughtUp(Act(c, Io(Receive(z))))
  {
    var buf, got := c.task.readBuf, c.wire.received;
    QuietEmpty(c);
    EchoSplit(got, z);
    var c' := Act(c, Io(Receive(z)));
    assert c'.wire.sent + Pending(c'.task) == c.wire.sent;
    if Dead(buf) && Dead(Rest(got)) {
      DeadStays(buf, z);
      DeadStays(Rest(got), z);
    }
  }

  lemma TailIsALine(s: seq<byte>)
    requires Decode(s).NeedMore? && DecodeEof(s).Line?
    ensures Echo(s + [LF]) != []
  {
    Unfinished(s);
    DecodeOf(s, []);
    assert s + [LF] + [] == s + [LF];
  }

  lemma DeadHasNoTail(s: seq<byte>)
    requires Dead(s)
    ensures FullEcho(s) == []
  {
    assert s + [] == s;
    NoLine(s);
    FullEchoLine(s);
    if Decode(s).NeedMore? && DecodeEof(s).Line? { TailIsALine(s); }
  }

  lemma EofCaughtUp(c: Conn)
    requires Shape(c) && CaughtUp(c) && CanAct(c, Io(ReceiveEof))
    ensures Shape(Act(c, Io(ReceiveEof))) && CaughtUp(Act(c, Io(ReceiveEof)))
  {
    var buf, got := c.task.readBuf, c.wire.received;
    QuietEmpty(c);
    var c' := Act(c, Io(ReceiveEof));
    assert c'.wire.sent + Pending(c'.task) == c.wire.sent;
    if !c.wire.closed {
      assert FullEcho(buf) == if Tail(buf).Line? then Encode(Tail(buf).line) else [];
      if Dead(buf) && Dead(Rest(got)) {
        DeadHasNoTail(buf);
        DeadHasNoTail(Rest(got));
        RestOfRest(got);
      }
    }
  }

  lemma RestOfRest(s: seq<byte>)
    ensures Rest(Rest(s)) == Rest(s) && Echo(Rest(s)) == [] && Tail(Rest(s)) == Tail(s)
  {
  }

  lemma CleanStep(c: Conn, a: Action)
    requires Shape(c) && CaughtUp(c) && CanAct(c, a) && Clean(a)
    ensures Shape(Act(c, a)) && CaughtUp(Act(c, a))
  {
    match a.event
    case Receive(z) => ReceiveCaughtUp(c, z);
    case ReceiveEof => EofCaughtUp(c);
    case _ => InternalKeeps(c, a);
  }

  lemma CaughtUpKept(c: Conn)
    requires Shape(c) && CaughtUp(c)
    ensures Kept(c)
  {
    assert c.wire.sent <= Coming(c);
    if Quiet(c) { QuietEmpty(c); }
    if c.task.phase.Ended? {
      assert Echo(c.task.readBuf) == [];
      assert c.wire.sent + Pending(c.task) == c.wire.sent;
    }
  }

  lemma {:induction false} CaughtUpRun(c: Conn, run: seq<Action>)
    requires Shape(c) && CaughtUp(c) && Runnable(c, run) && forall a :: a in run ==> Clean(a)
    ensures Kept(Final(c, run))
    decreases |run|
  {
    if run == [] {
      CaughtUpKept(c);
    } else {
      CleanStep(c, run[0]);
      CaughtUpRun(Act(c, run[0]), run[1..]);
    }
  }

  // ---- and necessary ------------------------------------------------------------------------

  /** Left to itself, a session sends everything that is coming. */
  lemma {:induction false} DrainRun(c: Conn) returns (run: seq<Action>)
    requires Shape(c)
    ensures Runnable(c, run) && forall a :: a in run ==> Clean(a)
    ensures var c' := Final(c, run);
      && Shape(c') && Coming(c') == Coming(c) && (Quiet(c') || c'.task.phase.Ended?) && c'.task.eof == c.task.eof
      && c'.wire.received == c.wire.received && c'.wire.closed == c.wire.closed
      && (!c.wire.closed ==> Rest(c'.task.readBuf) == Rest(c.task.readBuf))
    decreases Work(c)
  {
    if Quiet(c) || c.task.phase.Ended? { return []; }
    var a := Io(if c.task.phase.Reading? then Take else if c.task.phase.Feeding? then Feed else Flush(1));
    WorkShrinks(c, a);
    InternalKeeps(c, a);
    var rest := DrainRun(Act(c, a));
    run := [a] + rest;
    assert run[1..] == rest;
  }

  lemma PromisedOpen(c: Conn)
    requires Shape(c) && KeepsPromise(c) && !c.wire.closed
    ensures Coming(c) == Echo(c.wire.received)
  {
    var run := DrainRun(c);
    PromiseRun(c, run);
    var c' := Final(c, run);
    if Quiet(c') { QuietEmpty(c'); } else { EndedEmpty(c'); }
  }

  lemma EndedEmpty(c: Conn)
    requires Shape(c) && c.task.phase.Ended?
    ensures Coming(c) == c.wire.sent
  {
    assert Echo(c.task.readBuf) == [];
    assert c.wire.sent + Pending(c.task) == c.wire.sent;
  }

  lemma PromisedEof(c: Conn)
    requires Shape(c) && KeepsPromise(c) && c.task.eof
    ensures Coming(c) == FullEcho(c.wire.received)
  {
    var run := DrainRun(c);
    PromiseRun(c, run);
    EndedEmpty(Final(c, run));
  }

  lemma PromisedClosed(c: Conn)
    requires Shape(c) && KeepsPromise(c) && c.wire.closed
    ensures Coming(c) == FullEcho(c.wire.received)
  {
    var run := DrainRun(c);
    PromiseRun(c, run);
    var c' := Final(c, run);
    if Quiet(c') {
      var c'' := Act(c', Io(ReceiveEof));
      assert Pending(c''.task) == Pending(c'.task);
      PromiseStep(c', Io(ReceiveEof));
      PromisedEof(c'');
    } else {
      EndedEmpty(c');
    }
  }

  /** A quiet session is still right after any next chunk. */
  lemma PromisedNext(c: Conn, z: seq<byte>)
    requires Shape(c) && KeepsPromise(c) && Quiet(c) && !c.wire.closed && z != []
    ensures Echo(c.task.readBuf + z) == Echo(Rest(c.wire.received) + z)
  {
    PromisedOpen(c);
    QuietEmpty(c);
    var c' := Act(c, Io(Receive(z)));
    PromiseStep(c, Io(Receive(z)));
    assert Pending(c'.task) == [] && c'.wire.sent + [] == c'.wire.sent;
    PromisedOpen(c');
    EchoSplit(c.wire.received, z);
    SameStart(c.wire.sent, Echo(c.task.readBuf + z), Echo(Rest(c.wire.received) + z));
  }

  lemma SameStart(a: seq<byte>, b: seq<byte>, c: seq<byte>)
    requires a + b == a + c
    ensures b == c
  {
    assert b == (a + b)[|a|..] && c == (a + c)[|a|..];
  }

  lemma PromisedLine(c: Conn)
    requires Shape(c) && KeepsPromise(c) && Quiet(c) && !c.wire.closed
    ensures SameLine(c.task.readBuf, c.wire.received)
  {
    QuietEmpty(c);
    Unfinished(c.task.readBuf);
    var a, b := c.task.readBuf, Rest(c.wire.received);
    assert a + [] == a && b + [] == b && Echo(b) == [];
    if Decode(b).Bad? {
      BadIsDead(b);
      if !Dead(a) {
        var z :| Echo(a + z) != [];
        PromisedNext(c, z);
      }
    } else if a != b && !(Dead(a) && Dead(b)) {
      var z := Distinguish(a, b);
      PromisedNext(c, z);
    }
  }

  lemma MustCatchUp(c: Conn)
    requires Shape(c) && KeepsPromise(c)
    ensures CaughtUp(c)
  {
    if c.wire.closed {
      PromisedClosed(c);
    } else {
      PromisedOpen(c);
      var run := DrainRun(c);
      PromiseRun(c, run);
      var c' := Final(c, run);
      if Quiet(c') { PromisedLine(c'); }
    }
  }

  // ---- a restart ----------------------------------------------------------------------------

  /**
   What the record still holds completes exactly the echo the client is owed, and its unfinished line
   is the client's. On a closed stream the last line counts as finished.
   */
  ghost predicate RestartOk(w: Wire, h: SessionHandoff) {
    if w.closed then w.sent + h.pendingWrite + FullEcho(h.partialLine) == FullEcho(w.received)
    else w.sent + h.pendingWrite + Echo(h.partialLine) == Echo(w.received) && SameLine(h.partialLine, w.received)
  }

  /**
   For any record over any socket: the restarted session keeps the session's promise in every
   continuation if and only if the record fits the socket.
   */
  lemma RestartKeepsPromiseIff(w: Wire, h: SessionHandoff)
    ensures KeepsPromise(Conn(w, Adopted(h))) <==> RestartOk(w, h)
  {
    var c := Conn(w, Adopted(h));
    NoBytes();
    assert Pending(c.task) == h.pendingWrite;
    assert Shape(c);
    if RestartOk(w, h) {
      forall run | Runnable(c, run) && (forall a :: a in run ==> Clean(a)) ensures Kept(Final(c, run)) {
        CaughtUpRun(c, run);
      }
    } else if KeepsPromise(c) {
      MustCatchUp(c);
    }
  }

  /** A record over the socket it was made for fits. */
  lemma SoundRecordFits(w: Wire, h: SessionHandoff)
    requires Inv(w, Adopted(h))
    ensures RestartOk(w, h)
  {
    var t := Adopted(h);
    var c := Consumed(w, t);
    assert Pending(t) == h.pendingWrite;
    NoBytes();
    if AtBoundary(c) && w.sent + Pending(t) == Echo(c) {
      EchoAppend(c, t.readBuf);
      FullEchoAppend(c, t.readBuf);
    } else {
      assert c == w.received && FullEcho([]) == [];
      assert FullEcho(c) + [] == FullEcho(c);
    }
  }

  lemma FullEchoAppend(c: seq<byte>, s: seq<byte>)
    requires AtBoundary(c)
    ensures FullEcho(c + s) == Echo(c) + FullEcho(s)
  {
    EchoAppend(c, s);
    Assoc(Echo(c), Echo(s), if Tail(s).Line? then Encode(Tail(s).line) else []);
  }

  /**
   Traffic in between need not hurt: if the record's buffers were empty, whole lines that came in and
   were echoed completely leave the record fitting. Only its line count is then out of date.
   */
  lemma WholeLinesAreHarmless(w: Wire, h: SessionHandoff, x: seq<byte>)
    requires Inv(w, Adopted(h)) && !w.closed && h.partialLine == [] && h.pendingWrite == [] && AtBoundary(x)
    ensures RestartOk(w.(received := w.received + x, sent := w.sent + Echo(x)), h)
  {
    SoundRecordFits(w, h);
    NoBytes();
    EchoSplit(w.received, x);
    assert Rest(w.received) == [] || Dead([]);
    NotDead();
    assert [] + x == x;
    assert w.sent + [] + [] == w.sent;
  }

  lemma NotDead()
    ensures !Dead([])
  {
    assert Decode([LF]) == Line([], []);
    assert [] + [LF] == [LF];
    assert Echo([] + [LF]) != [];
  }
}
