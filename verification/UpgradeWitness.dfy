/** Runs of the upgrade that lose or repeat what a client was owed. */
module UpgradeWitness {
  import opened Common
  import opened LinesCodec
  import opened Session
  import opened Payload
  import opened UpgradeProtocol

  const A_LINE: seq<byte> := [97, 10]

  lemma ALine()
    ensures Decode(A_LINE) == Line([97], []) && Echo(A_LINE) == A_LINE && FullEcho(A_LINE) == A_LINE
  {
    assert FirstLf(A_LINE) == 1;
    assert A_LINE[..1] == [97] && A_LINE[2..] == [];
    assert Utf8([97]);
    assert Echo([]) == [] && Rest(A_LINE) == [];
  }

  lemma Push(steps: seq<Step>, step: Step, next: System) returns (steps': seq<Step>)
    requires Runnable(steps) && CanStep(End(steps), step) && Do(End(steps), step) == next
    ensures Runnable(steps') && End(steps') == next
  {
    RunSnoc(steps, step);
    steps' := steps + [step];
  }

  const MID_SEND: Task := Task([], A_LINE, true, false, Sending, 0)
  const RECORD: SessionHandoff := SessionHandoff(0, Uds, [], A_LINE, 0, 0, "peer", None, "trace", 1)

  /** Session 0 with its line taken out of the read buffer and not yet encoded. */
  function LineTaken(): System {
    Start().(wires := map[0 := Wire(A_LINE, [], false, 0)],
             parentTasks := map[0 := Task([], [], true, false, Feeding([97]), 0)])
  }

  lemma ReachLineTaken() returns (steps: seq<Step>)
    ensures Runnable(steps) && End(steps) == LineTaken()
  {
    ALine();
    var t := FreshTask(A_LINE, false);
    assert Taken(t) == Task([], [], true, false, Feeding([97]), 0);
    steps := Push([], Connect(0, A_LINE, false), LineTaken().(parentTasks := map[0 := t]));
    steps := Push(steps, ParentIo(0, Take), LineTaken());
  }

  /** Session 0 alone: in the middle of its first send when the drain begins. */
  function DrainedMidSend(): System {
    Start().(parent := Draining({0}), wires := map[0 := Wire(A_LINE, [], false, 0)], parentTasks := map[0 := MID_SEND])
  }

  lemma ReachMidSend() returns (steps: seq<Step>)
    ensures Runnable(steps) && End(steps) == DrainedMidSend().(parent := Serving)
  {
    steps := ReachLineTaken();
    assert [] + Encode([97]) == A_LINE;
    steps := Push(steps, ParentIo(0, Feed), DrainedMidSend().(parent := Serving));
  }

  lemma ReachDraining() returns (steps: seq<Step>)
    ensures Runnable(steps) && End(steps) == DrainedMidSend()
  {
    steps := ReachMidSend();
    assert RunningFds(map[0 := MID_SEND]) == {0};
    steps := Push(steps, BeginDrain, DrainedMidSend());
  }

  /** The drain is over and nothing runs in the parent. */
  function AllCaptured(): System {
    var w := Wire(A_LINE, [], false, 1);
    Start().(parent := Draining({0}), payload := [RECORD], wires := map[0 := w], handoffs := map[0 := RECORD], base := map[0 := w])
  }

  lemma ReachCaptured() returns (steps: seq<Step>)
    ensures Runnable(steps) && End(steps) == AllCaptured()
  {
    steps := ReachDraining();
    assert CaptureWire(Wire(A_LINE, [], false, 0), MID_SEND) == Wire(A_LINE, [], false, 1);
    assert map[0 := MID_SEND] - {0} == map[];
    steps := Push(steps, CaptureSession(0, RECORD), AllCaptured());
  }

  /**
   A child of an image that still passes the payload in the environment signals ready on a payload it
   cannot parse, and the commit loses the session.
   */
  lemma UnreadableEnvironmentLosesSessions() returns (steps: seq<Step>)
    ensures Runnable(steps) && CanStep(End(steps), Commit)
    ensures 0 in End(steps).handoffs && Do(End(steps), Commit).parentTasks == map[]
  {
    steps := ReachUnreadable();
    assert Parse([]).None?;
    steps := Push(steps, ChildReads({}), Unreadable().(child := Adopting));
    steps := Push(steps, ChildReady, Unreadable().(child := Ready, readyPipe := true));
  }

  function Unreadable(): System {
    AllCaptured().(parent := Waiting, child := Booting, channel := Channel(FromEnv([]), [], Open))
  }

  lemma ReachUnreadable() returns (steps: seq<Step>)
    ensures Runnable(steps) && End(steps) == Unreadable()
  {
    steps := ReachCaptured();
    steps := Push(steps, SpawnChild(FromEnv([])), Unreadable());
  }

  /** The payload is on its way. */
  function Spawned(): System { AllCaptured().(parent := Waiting, child := Booting) }

  function Piped(text: seq<Token>): System { Spawned().(channel := Channel(FromPipe, text, Open)) }

  function Written(): System { Spawned().(channel := Channel(FromPipe, Serialize([RECORD]), Complete)) }

  lemma PushToken(steps: seq<Step>, n: nat) returns (steps': seq<Step>)
    requires Runnable(steps) && n < 3 && |Serialize([RECORD])| == 3 && End(steps) == Piped(Serialize([RECORD])[..n])
    ensures Runnable(steps') && End(steps') == Piped(Serialize([RECORD])[..n + 1])
  {
    var all := Serialize([RECORD]);
    assert all[..n] + [all[n]] == all[..n + 1];
    assert |all[..n]| == n;
    steps' := Push(steps, WriteToken, Piped(all[..n + 1]));
  }

  lemma ReachWritten() returns (steps: seq<Step>)
    ensures Runnable(steps) && End(steps) == Written()
  {
    steps := ReachCaptured();
    var all := Serialize([RECORD]);
    steps := Push(steps, SpawnChild(FromPipe), Spawned());
    assert all[..0] == [] && all[..3] == all;
    steps := PushToken(steps, 0);
    steps := PushToken(steps, 1);
    steps := PushToken(steps, 2);
    steps := Push(steps, CloseWriter, Written());
  }

  /** The same session in the hands of a child that has not signalled ready. */
  function InTheChild(): System {
    Written().(child := Adopting, childTasks := map[0 := Adopted(RECORD)])
  }

  lemma OneByFd(h: SessionHandoff)
    ensures ByFd([h]) == map[h.fd := h]
  {
    ByFdSnoc([], h);
    assert [] + [h] == [h];
  }

  lemma OneTask(h: SessionHandoff)
    ensures TasksFor(map[h.fd := h], {}) == map[h.fd := Adopted(h)]
  {
  }

  lemma ReadsOne(s: System, h: SessionHandoff)
    requires Parse(Text(s.channel)) == Some([h])
    ensures ReadPayload(s, {}) == s.(child := Adopting, declined := {}, childTasks := map[h.fd := Adopted(h)])
  {
    OneByFd(h);
    OneTask(h);
    assert {} * ByFd([h]).Keys == {};
  }

  lemma ReachChild() returns (steps: seq<Step>)
    ensures Runnable(steps) && End(steps) == InTheChild()
  {
    steps := ReachWritten();
    RoundTrip([RECORD]);
    ReadsOne(Written(), RECORD);
    steps := Push(steps, ChildReads({}), InTheChild());
  }

  lemma FlushWhole(w: Wire)
    requires w.received == A_LINE
    ensures Enabled(w, Adopted(RECORD), Flush(2))
    ensures NextWire(w, Adopted(RECORD), Flush(2)) == w.(sent := w.sent + A_LINE)
    ensures NextTask(w, Adopted(RECORD), Flush(2)) == Task([], [], false, false, Reading, 0)
  {
    assert A_LINE[..2] == A_LINE && A_LINE[2..] == [];
  }

  /** The child has echoed the line, then was killed and reaped. */
  function Discarded(): System {
    InTheChild().(parent := Reaped, child := Absent, childTasks := map[], wires := map[0 := Wire(A_LINE, A_LINE, false, 1)])
  }

  lemma ReachDiscarded() returns (steps: seq<Step>)
    ensures Runnable(steps) && End(steps) == Discarded()
  {
    steps := ReachChild();
    var s1 := InTheChild().(wires := map[0 := Wire(A_LINE, A_LINE, false, 1)],
                            childTasks := map[0 := Task([], [], false, false, Reading, 0)]);
    FlushWhole(Wire(A_LINE, [], false, 1));
    assert [] + A_LINE == A_LINE;
    steps := Push(steps, ChildIo(0, Flush(2)), s1);
    steps := Push(steps, GiveUp, s1.(parent := Killing));
    steps := Push(steps, Reap, Discarded());
  }

  /** The old process has taken the session back, from before the echo. */
  function TakenBack(): System {
    Discarded().(parent := Serving, payload := [], handoffs := map[], base := map[], tainted := {0},
                 parentTasks := map[0 := Adopted(RECORD)])
  }

  lemma ReachTakenBack() returns (steps: seq<Step>)
    ensures Runnable(steps) && End(steps) == TakenBack()
  {
    steps := ReachDiscarded();
    assert Touched(Discarded()) == {0};
    OneTask(RECORD);
    steps := Push(steps, Readopt({}), TakenBack());
  }

  /** A client that sends one line while an upgrade starts and fails can be echoed twice. */
  lemma RollbackCanEchoTwice() returns (steps: seq<Step>)
    ensures Runnable(steps) && 0 in End(steps).wires
    ensures var w := End(steps).wires[0];
      w.received == A_LINE && w.sent == A_LINE + A_LINE && !(w.sent <= Owed(w))
  {
    steps := ReachTakenBack();
    var w := Wire(A_LINE, A_LINE + A_LINE, false, 1);
    FlushWhole(TakenBack().wires[0]);
    steps := Push(steps, ParentIo(0, Flush(2)),
                  TakenBack().(wires := map[0 := w], parentTasks := map[0 := Task([], [], false, false, Reading, 0)]));
    ALine();
  }
}
