/**
 The supervisor's control link to one worker role: a shared object that accepted connections, their
 reader tasks, status queries and terminal sends all step on, fenced by a 64-bit connection epoch.
 */
module WorkerLink {
  import opened Common

  /** Connections are numbered from 1 in the order they were accepted. */
  type Conn = nat

  datatype Link = Link(writer: Option<Conn>, pending: bool, generation: Option<nat>, pid: Option<nat>, epoch: nat)

  datatype Event =
    | Accept                                         // install the writer, bump the epoch
    | Report(conn: Conn, generation: nat, pid: nat)  // not fenced by the epoch
    | Teardown(conn: Conn)                           // the reader's last act
    | TakeWriter                                     // send_shutdown / send_upgrade
    | Query                                          // install the pending slot
    | QueryTimeout

  /** The link with its whole history. */
  datatype History = History(link: Link, accepts: nat, gone: set<Conn>, log: seq<Event>)

  function Fresh(): History { History(Link(None, false, None, None, 0), 0, {}, []) }

  function EpochOf(conn: Conn): nat { conn % WORD }

  predicate Owns(l: Link, conn: Conn) { l.epoch == EpochOf(conn) }

  predicate CanHappen(h: History, e: Event) {
    match e
    case Report(conn, _, _) => 1 <= conn <= h.accepts && conn !in h.gone
    case Teardown(conn) => 1 <= conn <= h.accepts && conn !in h.gone
    case _ => true
  }

  function Apply(l: Link, accepts: nat, e: Event): Link {
    match e
    case Accept => l.(epoch := (l.epoch + 1) % WORD, writer := Some(accepts + 1))
    case Report(_, g, pid) => l.(generation := Some(g), pid := Some(pid), pending := false)
    case Teardown(conn) => if Owns(l, conn) then l.(writer := None, generation := None, pid := None) else l
    case TakeWriter => l.(pending := false, writer := None)
    case Query => if l.writer.Some? then l.(pending := true) else l
    case QueryTimeout => l.(pending := false)
  }

  function Happen(h: History, e: Event): History
    requires CanHappen(h, e)
  {
    History(Apply(h.link, h.accepts, e), if e.Accept? then h.accepts + 1 else h.accepts,
            if e.Teardown? then h.gone + {e.conn} else h.gone, h.log + [e])
  }

  // ---- the shared object --------------------------------------------------------------------

  class ControlLink {
    var writer: Option<Conn>
    var pending: bool
    var lastGeneration: Option<nat>
    var lastPid: Option<nat>
    var connEpoch: nat

    ghost function View(): Link
      reads this
    {
      Link(writer, pending, lastGeneration, lastPid, connEpoch)
    }

    constructor ()
      ensures View() == Fresh().link
    {
      writer, pending, lastGeneration, lastPid, connEpoch := None, false, None, None, 0;
    }

    method AcceptConn(conn: Conn) returns (myEpoch: nat)
      requires conn >= 1 && connEpoch == EpochOf(conn - 1)
      modifies this
      ensures View() == Apply(old(View()), conn - 1, Accept) && myEpoch == EpochOf(conn)
    {
      connEpoch := (connEpoch + 1) % WORD;
      writer := Some(conn);
      myEpoch := connEpoch;
    }

    method StatusReport(conn: Conn, generation: nat, pid: nat)
      modifies this
      ensures forall n :: View() == Apply(old(View()), n, Report(conn, generation, pid))
    {
      lastGeneration, lastPid := Some(generation), Some(pid);
      if pending { pending := false; }
    }

    /** Only the connection that still owns the link clears it. */
    method ReaderEnds(conn: Conn, myEpoch: nat)
      requires myEpoch == EpochOf(conn)
      modifies this
      ensures forall n :: View() == Apply(old(View()), n, Teardown(conn))
    {
      if connEpoch == myEpoch {
        writer, lastGeneration, lastPid := None, None, None;
      }
    }

    method Take() returns (w: Option<Conn>)
      modifies this
      ensures w == old(writer) && forall n :: View() == Apply(old(View()), n, TakeWriter)
    {
      pending := false;
      w := writer;
      writer := None;
    }
  }

  // ---- every interleaving -------------------------------------------------------------------

  predicate Reports(log: seq<Event>, i: int, generation: nat, pid: nat) {
    0 <= i < |log| && log[i].Report? && log[i].generation == generation && log[i].pid == pid
  }

  /** The connections accepted up to a point of the log. */
  function AcceptsIn(log: seq<Event>): nat {
    if log == [] then 0 else AcceptsIn(log[..|log| - 1]) + if log[|log| - 1].Accept? then 1 else 0
  }

  /** The event at `i` was the teardown of the connection that owned the link. */
  predicate OwningTeardown(log: seq<Event>, i: int) {
    0 <= i < |log| && log[i].Teardown? && EpochOf(log[i].conn) == EpochOf(AcceptsIn(log[..i]))
  }

  /** After `i` nothing was reported and no owner went away. */
  predicate LastWord(log: seq<Event>, i: int) {
    0 <= i && forall j :: i < j < |log| ==> !log[j].Report? && !OwningTeardown(log, j)
  }

  /** The latest report, and no owner has gone away since. */
  ghost predicate LiveReport(log: seq<Event>, generation: nat, pid: nat) {
    exists i :: Reports(log, i, generation, pid) && LastWord(log, i)
  }

  /** No newer connection was accepted after `i`. */
  predicate LastAcceptBefore(log: seq<Event>, i: int) { 0 <= i && forall j :: i < j < |log| ==> !log[j].Accept? }

  /** Since the latest accept, somebody took the writer to send a terminal message. */
  ghost predicate WriterTaken(log: seq<Event>) {
    exists i :: 0 <= i < |log| && log[i].TakeWriter? && LastAcceptBefore(log, i)
  }

  /** Since the latest accept, the connection that owns the link was torn down. */
  ghost predicate OwnerGone(log: seq<Event>) { exists i :: OwningTeardown(log, i) && LastAcceptBefore(log, i) }

  /** Why there may be no writer. */
  ghost predicate WriterInv(h: History) {
    && (h.link.writer.None? <==> h.accepts == 0 || WriterTaken(h.log) || OwnerGone(h.log))
    && (forall conn :: conn in h.gone ==> 1 <= conn <= h.accepts)
    && (1 <= h.accepts < WORD ==> (OwnerGone(h.log) <==> h.accepts in h.gone))
    && (h.link.pending <==> Asked(h.log))
  }

  ghost predicate Inv(h: History) {
    && h.link.epoch == EpochOf(h.accepts) && AcceptsIn(h.log) == h.accepts
    && (h.link.writer.Some? ==> h.link.writer == Some(h.accepts))
    && (h.link.generation.Some? <==> h.link.pid.Some?)
    && (forall g: nat, pid: nat :: LiveReport(h.log, g, pid) <==> h.link.generation == Some(g) && h.link.pid == Some(pid))
  }

  /** Somebody is connected, and nobody has taken the writer. */
  ghost predicate Reachable(log: seq<Event>) { AcceptsIn(log) > 0 && !WriterTaken(log) && !OwnerGone(log) }

  /** A status query was sent over a writer, and neither answered nor given up since. */
  predicate OpenQuery(log: seq<Event>, i: int) {
    && 0 <= i < |log| && log[i].Query?
    && forall j :: i < j < |log| ==> !log[j].Report? && !log[j].TakeWriter? && !log[j].QueryTimeout?
  }

  ghost predicate Asked(log: seq<Event>) { exists i :: OpenQuery(log, i) && Reachable(log[..i]) }

  lemma LogSnoc(log: seq<Event>, e: Event, i: int)
    requires 0 <= i < |log|
    ensures (log + [e])[..i] == log[..i] && (log + [e])[..|log|] == log
    ensures OwningTeardown(log + [e], i) == OwningTeardown(log, i)
  {
    assert (log + [e])[i] == log[i];
  }

  lemma LastWordSnoc(log: seq<Event>, e: Event, i: int)
    requires 0 <= i < |log|
    ensures LastWord(log + [e], i) <==> !e.Report? && !OwningTeardown(log + [e], |log|) && LastWord(log, i)
  {
    var next := log + [e];
    assert next[|log|] == e;
    forall j | i < j < |log| ensures next[j] == log[j] && (OwningTeardown(next, j) <==> OwningTeardown(log, j)) {
      LogSnoc(log, e, j);
    }
  }

  /** A report supersedes the one before; an owning teardown cancels it; nothing else matters. */
  lemma ReportSnoc(log: seq<Event>, e: Event, generation: nat, pid: nat)
    ensures LiveReport(log + [e], generation, pid)
      <==> if e.Report? then e.generation == generation && e.pid == pid
           else !OwningTeardown(log + [e], |log|) && LiveReport(log, generation, pid)
  {
    var next := log + [e];
    assert next[|log|] == e && LastWord(next, |log|);
    assert Reports(next, |log|, generation, pid) <==> e.Report? && e.generation == generation && e.pid == pid;
    forall i | 0 <= i < |log|
      ensures Reports(next, i, generation, pid) <==> Reports(log, i, generation, pid)
      ensures LastWord(next, i) <==> !e.Report? && !OwningTeardown(next, |log|) && LastWord(log, i)
    {
      LastWordSnoc(log, e, i);
    }
  }

  lemma EventInv(h: History, e: Event)
    requires Inv(h) && CanHappen(h, e)
    ensures Inv(Happen(h, e))
  {
    var h' := Happen(h, e);
    assert h'.log[..|h.log|] == h.log;
    forall g: nat, pid: nat ensures LiveReport(h'.log, g, pid) <==> h'.link.generation == Some(g) && h'.link.pid == Some(pid) {
      ReportSnoc(h.log, e, g, pid);
    }
  }

  lemma AskedSnoc(log: seq<Event>, e: Event)
    ensures Asked(log + [e])
      <==> (e.Query? && Reachable(log)) || (!e.Report? && !e.TakeWriter? && !e.QueryTimeout? && Asked(log))
  {
    var next := log + [e];
    assert next[|log|] == e && next[..|log|] == log;
    if e.Query? { assert OpenQuery(next, |log|); }
    forall i | 0 <= i < |log|
      ensures next[..i] == log[..i]
      ensures OpenQuery(next, i) <==> !e.Report? && !e.TakeWriter? && !e.QueryTimeout? && OpenQuery(log, i)
    {
      assert forall j :: 0 <= j < |log| ==> next[j] == log[j];
    }
  }

  lemma AcceptsKept(log: seq<Event>, e: Event, i: int)
    requires 0 <= i < |log|
    ensures LastAcceptBefore(log + [e], i) <==> !e.Accept? && LastAcceptBefore(log, i)
  {
    var next := log + [e];
    assert next[|log|] == e;
    assert forall j :: 0 <= j < |log| ==> next[j] == log[j];
  }

  lemma TakenSnoc(log: seq<Event>, e: Event)
    ensures WriterTaken(log + [e]) <==> e.TakeWriter? || (!e.Accept? && WriterTaken(log))
  {
    var next := log + [e];
    assert next[|log|] == e;
    if e.TakeWriter? { assert LastAcceptBefore(next, |log|); }
    forall i | 0 <= i < |log| ensures next[i] == log[i] && (LastAcceptBefore(next, i) <==> !e.Accept? && LastAcceptBefore(log, i)) {
      AcceptsKept(log, e, i);
    }
  }

  lemma GoneSnoc(log: seq<Event>, e: Event)
    ensures OwnerGone(log + [e]) <==> OwningTeardown(log + [e], |log|) || (!e.Accept? && OwnerGone(log))
  {
    var next := log + [e];
    assert next[|log|] == e;
    if OwningTeardown(next, |log|) { assert LastAcceptBefore(next, |log|); }
    forall i | 0 <= i < |log|
      ensures (OwningTeardown(next, i) <==> OwningTeardown(log, i)) && (LastAcceptBefore(next, i) <==> !e.Accept? && LastAcceptBefore(log, i))
    {
      LogSnoc(log, e, i);
      AcceptsKept(log, e, i);
    }
  }

  lemma WriterStep(h: History, e: Event)
    requires Inv(h) && WriterInv(h) && CanHappen(h, e)
    ensures WriterInv(Happen(h, e))
  {
    TakenSnoc(h.log, e);
    GoneSnoc(h.log, e);
    AskedSnoc(h.log, e);
    assert (h.log + [e])[..|h.log|] == h.log;
    if e.Teardown? { SameEpoch(h.accepts, e.conn); }
  }

  predicate Possible(h: History, es: seq<Event>)
    decreases |es|
  {
    es == [] || (CanHappen(h, es[0]) && Possible(Happen(h, es[0]), es[1..]))
  }

  function After(h: History, es: seq<Event>): History
    requires Possible(h, es)
    decreases |es|
  {
    if es == [] then h else After(Happen(h, es[0]), es[1..])
  }

  lemma {:induction false} RunInv(h: History, es: seq<Event>)
    requires Inv(h) && WriterInv(h) && Possible(h, es)
    ensures Inv(After(h, es)) && WriterInv(After(h, es))
    decreases |es|
  {
    if es != [] {
      EventInv(h, es[0]);
      WriterStep(h, es[0]);
      RunInv(Happen(h, es[0]), es[1..]);
    }
  }

  /**
   Whatever the interleaving of accepts, reports, disconnects and writer takes: a present writer is
   the latest accepted connection's; the recorded generation and pid are exactly those of the latest
   report, unless an owner's disconnect came after it, and then there are none; and a query is pending
   exactly if one was sent and neither answered, given up nor displaced since.
   */
  lemma EveryLinkRun(es: seq<Event>)
    requires Possible(Fresh(), es)
    ensures var h := After(Fresh(), es);
      && (h.link.writer.Some? ==> h.link.writer == Some(h.accepts))
      && (forall g: nat, pid: nat :: h.link.generation == Some(g) && h.link.pid == Some(pid) <==> LiveReport(h.log, g, pid))
      && (h.link.generation.None? <==> h.link.pid.None?)
      && (h.link.pending <==> Asked(h.log))
  {
    RunInv(Fresh(), es);
  }

  /** In particular, nothing is recorded exactly when no report is live. */
  lemma NothingRecorded(es: seq<Event>)
    requires Possible(Fresh(), es)
    ensures After(Fresh(), es).link.generation.None? <==> forall g: nat, pid: nat :: !LiveReport(After(Fresh(), es).log, g, pid)
  {
    EveryLinkRun(es);
    var h := After(Fresh(), es);
    if h.link.generation.Some? { assert LiveReport(h.log, h.link.generation.value, h.link.pid.value); }
  }

  lemma {:induction false} LogIsRun(h: History, es: seq<Event>)
    requires Possible(h, es)
    ensures After(h, es).log == h.log + es
    decreases |es|
  {
    if es != [] {
      LogIsRun(Happen(h, es[0]), es[1..]);
      assert h.log + [es[0]] + es[1..] == h.log + es;
    }
  }

  /**
   What a missing writer means, in every interleaving: nobody connected yet, or since the latest accept
   the writer was taken for a terminal message or the owning connection was torn down. Below 2^64
   accepts, "no writer" therefore means "the latest connection is gone" if and only if no terminal
   message was sent to it while it is still there.
   */
  lemma MissingWriter(es: seq<Event>)
    requires Possible(Fresh(), es)
    ensures var h := After(Fresh(), es);
      && (h.link.writer.None? <==> h.accepts == 0 || WriterTaken(h.log) || OwnerGone(h.log))
      && (1 <= h.accepts < WORD ==> (h.link.writer.None? <==> WriterTaken(h.log) || h.accepts in h.gone))
      && (1 <= h.accepts < WORD && !WriterTaken(h.log) ==> (h.link.writer.None? <==> h.accepts in h.gone))
  {
    RunInv(Fresh(), es);
  }

  /** Nobody connects and nobody sends a terminal message. */
  predicate Undisturbed(es: seq<Event>) { forall e :: e in es ==> !e.Accept? && !e.TakeWriter? }

  lemma {:induction false} UndisturbedRun(h: History, es: seq<Event>)
    requires Inv(h) && WriterInv(h) && Possible(h, es) && Undisturbed(es)
    ensures var h' := After(h, es);
      && h'.accepts == h.accepts && h.gone <= h'.gone && WriterInv(h')
      && (WriterTaken(h'.log) <==> WriterTaken(h.log))
    decreases |es|
  {
    if es != [] {
      EventInv(h, es[0]);
      WriterStep(h, es[0]);
      TakenSnoc(h.log, es[0]);
      UndisturbedRun(Happen(h, es[0]), es[1..]);
    }
  }

  /** From `h` on, a missing writer will always mean that the current connection is gone. */
  ghost predicate AbsenceIsReal(h: History) {
    forall es :: Possible(h, es) && Undisturbed(es) && After(h, es).link.writer.None? ==> h.accepts in After(h, es).gone
  }

  /**
   In every reachable state of a link below 2^64 accepts: absence will be real, however the connection
   goes on, if and only if no terminal message took its writer while it is still connected.
   */
  lemma AbsenceIsRealIff(es: seq<Event>)
    requires Possible(Fresh(), es) && 1 <= After(Fresh(), es).accepts < WORD
    ensures var h := After(Fresh(), es);
      AbsenceIsReal(h) <==> !WriterTaken(h.log) || h.accepts in h.gone
  {
    var h := After(Fresh(), es);
    RunInv(Fresh(), es);
    if !WriterTaken(h.log) || h.accepts in h.gone {
      forall more | Possible(h, more) && Undisturbed(more) && After(h, more).link.writer.None?
        ensures h.accepts in After(h, more).gone
      {
        UndisturbedRun(h, more);
      }
    } else {
      assert Possible(h, []) && Undisturbed([]) && After(h, []) == h;
    }
  }

  /**
   The epoch fence. A reader's teardown clears writer, generation and pid if it is the latest
   connection, or trails it by a whole multiple of 2^64 accepts; otherwise it changes nothing. Below
   2^64 accepts a stale reader is always harmless.
   */
  lemma TeardownFence(es: seq<Event>, conn: Conn)
    requires Possible(Fresh(), es) && CanHappen(After(Fresh(), es), Teardown(conn))
    ensures var h := After(Fresh(), es); var l := Happen(h, Teardown(conn)).link;
      && ((h.accepts - conn) % WORD == 0 ==> l == h.link.(writer := None, generation := None, pid := None))
      && ((h.accepts - conn) % WORD != 0 ==> l == h.link)
      && (h.accepts < WORD ==> ((h.accepts - conn) % WORD == 0 <==> conn == h.accepts))
  {
    RunInv(Fresh(), es);
    SameEpoch(After(Fresh(), es).accepts, conn);
  }

  lemma SameEpoch(a: nat, b: nat)
    requires b <= a
    ensures EpochOf(a) == EpochOf(b) <==> (a - b) % WORD == 0
  {
  }
}
