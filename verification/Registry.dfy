/**
 The processor's session registry: live sessions under never-reused ids, sidecar metadata by peer,
 and the drain / re-adopt loops an upgrade runs over them.
 */
module Registry {
  import opened Common
  import opened Session

  const SCHEMA_VERSION: nat := 1
  const MIN_COMPATIBLE_VERSION: nat := 1

  predicate SchemaCompatible(v: nat) { MIN_COMPATIBLE_VERSION <= v <= SCHEMA_VERSION }

  datatype Metadata = Metadata(peer: string, ident: Option<string>, traceId: string)

  datatype Live = Live(task: Task, fd: nat, connectedAt: nat, peer: string, traceId: string)

  function Record(l: Live): SessionHandoff {
    Capture(l.task, l.fd, l.connectedAt, l.peer, l.traceId, SCHEMA_VERSION)
  }

  function Revive(h: SessionHandoff): Live { Live(Adopted(h), h.fd, h.connectedAt, h.peer, h.traceId) }

  function IdentOf(metadata: map<string, Metadata>, peer: string): Option<string> {
    if peer in metadata then metadata[peer].ident else None
  }

  function Enrich(h: SessionHandoff, metadata: map<string, Metadata>): SessionHandoff {
    if h.peer in metadata then h.(ident := metadata[h.peer].ident) else h
  }

  /** The same conversation: socket, identity, both buffers and the line count. */
  predicate SameSession(a: Live, b: Live) {
    && a.(task := b.task) == b
    && a.task.readBuf == b.task.readBuf && a.task.writeBuf == b.task.writeBuf && a.task.echoed == b.task.echoed
  }

  predicate Adoptable(h: SessionHandoff, usable: set<nat>) { h.transport.Uds? && h.fd in usable }

  function WithIdent(metadata: map<string, Metadata>, h: SessionHandoff): map<string, Metadata> {
    if h.ident.None? then metadata else metadata[h.peer := Metadata(h.peer, h.ident, h.traceId)]
  }

  function Adoptables(hs: seq<SessionHandoff>, usable: set<nat>): seq<SessionHandoff> {
    if hs == [] then []
    else
      var rest := Adoptables(hs[..|hs| - 1], usable);
      var h := hs[|hs| - 1];
      if Adoptable(h, usable) then rest + [h] else rest
  }

  /** The registry after the records got the ids from `next` on, in order. */
  function Numbered(sessions: map<nat, Live>, next: nat, hs: seq<SessionHandoff>): map<nat, Live> {
    if hs == [] then sessions
    else Numbered(sessions, next, hs[..|hs| - 1])[next + |hs| - 1 := Revive(hs[|hs| - 1])]
  }

  function WithIdents(metadata: map<string, Metadata>, hs: seq<SessionHandoff>): map<string, Metadata> {
    if hs == [] then metadata else WithIdent(WithIdents(metadata, hs[..|hs| - 1]), hs[|hs| - 1])
  }

  function Compatible(hs: seq<SessionHandoff>): seq<SessionHandoff> {
    if hs == [] then []
    else
      var rest := Compatible(hs[..|hs| - 1]);
      var h := hs[|hs| - 1];
      if SchemaCompatible(h.version) then rest + [h] else rest
  }

  class SessionRegistry {
    var nextId: nat
    var sessions: map<nat, Live>
    var metadata: map<string, Metadata>

    ghost predicate Valid()
      reads this
    {
      forall id :: id in sessions ==> id < nextId
    }

    constructor ()
      ensures Valid() && nextId == 0 && sessions == map[] && metadata == map[]
    {
      nextId, sessions, metadata := 0, map[], map[];
    }

    method Spawn(l: Live) returns (id: nat)
      requires Valid()
      modifies this`nextId, this`sessions
      ensures Valid() && id == old(nextId) && nextId == id + 1
      ensures id !in old(sessions) && sessions == old(sessions)[id := l]
    {
      id := nextId;
      nextId := nextId + 1;
      sessions := sessions[id := l];
    }

    /** A task whose echo loop ended: drop its entry, and the peer's metadata with the last session. */
    method Finish(id: nat, peer: string)
      requires Valid()
      modifies this`sessions, this`metadata
      ensures Valid() && sessions == old(sessions) - {id}
      ensures metadata == if exists k :: k in sessions && sessions[k].peer == peer then old(metadata) else old(metadata) - {peer}
    {
      sessions := sessions - {id};
      if !exists k :: k in sessions && sessions[k].peer == peer {
        metadata := metadata - {peer};
      }
    }

    /**
     Takes every session out of the registry and collects the records of those whose task answered
     the cancel, in whatever order the map yields them.
     */
    method Drain(answers: set<nat>) returns (handoffs: seq<SessionHandoff>, order: seq<nat>)
      requires Valid()
      modifies this`sessions
      ensures Valid() && sessions == map[]
      ensures |order| == |handoffs| && forall i, j :: 0 <= i < j < |order| ==> order[i] != order[j]
      ensures forall id :: id in order <==> id in old(sessions) && id in answers
      ensures forall i :: 0 <= i < |order| ==>
        order[i] in old(sessions) && handoffs[i] == Enrich(Record(old(sessions)[order[i]]), metadata)
    {
      var taken := sessions;
      sessions := map[];
      var pending := taken.Keys;
      handoffs, order := [], [];
      while pending != {}
        invariant sessions == map[] && pending <= taken.Keys && |order| == |handoffs|
        invariant forall id :: id in order <==> id in taken && id !in pending && id in answers
        invariant forall i, j :: 0 <= i < j < |order| ==> order[i] != order[j]
        invariant forall i :: 0 <= i < |order| ==>
          order[i] in taken && handoffs[i] == Enrich(Record(taken[order[i]]), metadata)
        decreases |pending|
      {
        var id :| id in pending;
        pending := pending - {id};
        if id in answers {
          handoffs := handoffs + [Enrich(Record(taken[id]), metadata)];
          order := order + [id];
        }
      }
    }

    /** Restores records one by one: metadata first, then a fresh id for each usable socket. */
    method Readopt(handoffs: seq<SessionHandoff>, usable: set<nat>)
      requires Valid()
      modifies this
      ensures Valid() && nextId == old(nextId) + |Adoptables(handoffs, usable)|
      ensures metadata == WithIdents(old(metadata), handoffs)
      ensures sessions == Numbered(old(sessions), old(nextId), Adoptables(handoffs, usable))
    {
      var k := 0;
      while k < |handoffs|
        invariant k <= |handoffs| && Valid()
        invariant nextId == old(nextId) + |Adoptables(handoffs[..k], usable)|
        invariant metadata == WithIdents(old(metadata), handoffs[..k])
        invariant sessions == Numbered(old(sessions), old(nextId), Adoptables(handoffs[..k], usable))
      {
        var h := handoffs[k];
        assert handoffs[..k + 1][..k] == handoffs[..k];
        if h.ident.Some? {
          metadata := metadata[h.peer := Metadata(h.peer, h.ident, h.traceId)];
        }
        if Adoptable(h, usable) {
          var done := Adoptables(handoffs[..k], usable);
          assert (done + [h])[..|done|] == done;
          var _ := Spawn(Revive(h));
        }
        k := k + 1;
      }
      assert handoffs[..k] == handoffs;
    }

    /** The successor's side: records of an unknown schema are skipped one by one, before anything else. */
    method AdoptInflight(payload: seq<SessionHandoff>, usable: set<nat>)
      requires Valid() && sessions == map[] && nextId == 0 && metadata == map[]
      modifies this
      ensures Valid() && nextId == |Adoptables(Compatible(payload), usable)|
      ensures sessions == Numbered(map[], 0, Adoptables(Compatible(payload), usable))
      ensures metadata == WithIdents(map[], Compatible(payload))
    {
      var kept, k := [], 0;
      while k < |payload|
        invariant k <= |payload| && kept == Compatible(payload[..k])
      {
        assert payload[..k + 1][..k] == payload[..k];
        if SchemaCompatible(payload[k].version) { kept := kept + [payload[k]]; }
        k := k + 1;
      }
      assert payload[..k] == payload;
      Readopt(kept, usable);
    }

    /** Old tasks that end late, when their ids are no longer in the registry. */
    method FinishLate(late: seq<(nat, string)>)
      requires Valid() && forall k :: 0 <= k < |late| ==> late[k].0 !in sessions
      modifies this`sessions, this`metadata
      ensures Valid() && sessions == old(sessions) && Faded(old(metadata), metadata)
      ensures forall id :: id in sessions ==> IdentOf(metadata, sessions[id].peer) == IdentOf(old(metadata), sessions[id].peer)
    {
      for k := 0 to |late|
        invariant Valid() && sessions == old(sessions) && Faded(old(metadata), metadata)
        invariant forall id :: id in sessions ==> IdentOf(metadata, sessions[id].peer) == IdentOf(old(metadata), sessions[id].peer)
      {
        Finish(late[k].0, late[k].1);
      }
    }

    /**
     A rollback whose child never ran: drain, then re-adopt, with tasks that had ended by themselves
     still cleaning up in between (`during`) and afterwards (`late`). Every session whose task answered
     is back under a fresh id with the same socket, identity, buffers, count and ident annotation, and
     no late task removes it.
     */
    method Rollback(answers: set<nat>, usable: set<nat>, during: seq<(nat, string)>, late: seq<(nat, string)>) returns (order: seq<nat>)
      requires Valid()
      requires forall id :: id in sessions ==> sessions[id].fd in usable
      requires forall k :: 0 <= k < |late| ==> late[k].0 < nextId
      modifies this
      ensures Valid() && forall i, j :: 0 <= i < j < |order| ==> order[i] != order[j]
      ensures forall id :: id in order <==> id in old(sessions) && id in answers
      ensures forall id :: id in sessions <==> old(nextId) <= id < old(nextId) + |order|
      ensures forall i :: 0 <= i < |order| ==> order[i] in old(sessions) && SameSession(sessions[old(nextId) + i], old(sessions)[order[i]])
      ensures forall id :: id in sessions ==> IdentOf(metadata, sessions[id].peer) == IdentOf(old(metadata), sessions[id].peer)
    {
      var handoffs;
      ghost var live, known := sessions, metadata;
      handoffs, order := Drain(answers);
      FinishLate(during);
      RecordsRevive(live, known, order, handoffs, usable);
      Restore(handoffs, usable, known);
      FinishLate(late);
    }

    /** Re-adopts drained records into the emptied registry. */
    method Restore(handoffs: seq<SessionHandoff>, usable: set<nat>, ghost known: map<string, Metadata>)
      requires Valid() && sessions == map[] && Faded(known, metadata)
      requires forall i :: 0 <= i < |handoffs| ==>
        Adoptable(handoffs[i], usable) && handoffs[i].ident == IdentOf(known, handoffs[i].peer)
      modifies this
      ensures Valid() && forall id :: id in sessions <==> old(nextId) <= id < old(nextId) + |handoffs|
      ensures forall i :: 0 <= i < |handoffs| ==> sessions[old(nextId) + i] == Revive(handoffs[i])
      ensures forall id :: id in sessions ==> IdentOf(metadata, sessions[id].peer) == IdentOf(known, sessions[id].peer)
    {
      AllAdoptable(handoffs, usable);
      NumberedIs(nextId, handoffs);
      RestoredIdents(known, metadata, nextId, handoffs);
      Readopt(handoffs, usable);
    }
  }

  lemma RestoredIdents(known: map<string, Metadata>, metadata: map<string, Metadata>, next: nat, hs: seq<SessionHandoff>)
    requires Faded(known, metadata) && forall i :: 0 <= i < |hs| ==> hs[i].ident == IdentOf(known, hs[i].peer)
    ensures var back := Numbered(map[], next, hs);
      forall id :: id in back ==> IdentOf(WithIdents(metadata, hs), back[id].peer) == IdentOf(known, back[id].peer)
  {
    IdentsRestored(known, metadata, hs);
    NumberedIs(next, hs);
    var back := Numbered(map[], next, hs);
    forall id | id in back ensures IdentOf(WithIdents(metadata, hs), back[id].peer) == IdentOf(known, back[id].peer) {
      assert back[next + (id - next)] == Revive(hs[id - next]);
    }
  }

  /** Fresh consecutive ids restart every record, and nothing else is there. */
  lemma {:induction false} NumberedIs(next: nat, hs: seq<SessionHandoff>)
    ensures forall id :: id in Numbered(map[], next, hs) <==> next <= id < next + |hs|
    ensures forall i :: 0 <= i < |hs| ==> Numbered(map[], next, hs)[next + i] == Revive(hs[i])
    decreases |hs|
  {
    if hs != [] { NumberedIs(next, hs[..|hs| - 1]); }
  }

  lemma {:induction false} AllAdoptable(hs: seq<SessionHandoff>, usable: set<nat>)
    requires forall i :: 0 <= i < |hs| ==> Adoptable(hs[i], usable)
    ensures Adoptables(hs, usable) == hs
    decreases |hs|
  {
    if hs != [] { AllAdoptable(hs[..|hs| - 1], usable); }
  }

  lemma RecordsRevive(live: map<nat, Live>, known: map<string, Metadata>, order: seq<nat>, hs: seq<SessionHandoff>, usable: set<nat>)
    requires |order| == |hs| && forall id :: id in live ==> live[id].fd in usable
    requires forall i :: 0 <= i < |order| ==> order[i] in live && hs[i] == Enrich(Record(live[order[i]]), known)
    ensures forall i :: 0 <= i < |hs| ==> SameSession(Revive(hs[i]), live[order[i]])
    ensures forall i :: 0 <= i < |hs| ==> Adoptable(hs[i], usable) && hs[i].ident == IdentOf(known, hs[i].peer)
  {
    forall i | 0 <= i < |hs|
      ensures SameSession(Revive(hs[i]), live[order[i]])
      ensures Adoptable(hs[i], usable) && hs[i].ident == IdentOf(known, hs[i].peer)
    {
      RecordRoundTrip(live[order[i]], known);
    }
  }

  /** Ident annotations may have been dropped, and none was changed. */
  ghost predicate Faded(before: map<string, Metadata>, after: map<string, Metadata>) {
    forall peer :: IdentOf(after, peer).Some? ==> IdentOf(after, peer) == IdentOf(before, peer)
  }

  /** The records bring back every annotation of their peers, even one dropped since the drain. */
  lemma {:induction false} IdentsRestored(known: map<string, Metadata>, metadata: map<string, Metadata>, hs: seq<SessionHandoff>)
    requires Faded(known, metadata) && forall i :: 0 <= i < |hs| ==> hs[i].ident == IdentOf(known, hs[i].peer)
    ensures Faded(known, WithIdents(metadata, hs))
    ensures forall i :: 0 <= i < |hs| ==> IdentOf(WithIdents(metadata, hs), hs[i].peer) == IdentOf(known, hs[i].peer)
    decreases |hs|
  {
    if hs != [] {
      var init, h := hs[..|hs| - 1], hs[|hs| - 1];
      IdentsRestored(known, metadata, init);
      forall i | 0 <= i < |hs| ensures IdentOf(WithIdents(metadata, hs), hs[i].peer) == IdentOf(known, hs[i].peer) {
        if i < |init| { assert init[i] == hs[i]; }
      }
    }
  }

  /** The record of a session revives to the same session, whatever the sidecar knew about it. */
  lemma RecordRoundTrip(l: Live, metadata: map<string, Metadata>)
    ensures SameSession(Revive(Enrich(Record(l), metadata)), l)
    ensures Enrich(Record(l), metadata).ident == IdentOf(metadata, l.peer)
    ensures SchemaCompatible(Enrich(Record(l), metadata).version)
  {
  }

  // ---- who is adopted -----------------------------------------------------------------------

  /** A record the successor can take over: a schema it knows, and a local socket it can rebuild. */
  predicate Wanted(h: SessionHandoff, usable: set<nat>) { h.version == 1 && h.transport == Uds && h.fd in usable }

  function WantedIn(hs: seq<SessionHandoff>, usable: set<nat>): nat {
    if hs == [] then 0 else WantedIn(hs[..|hs| - 1], usable) + if Wanted(hs[|hs| - 1], usable) then 1 else 0
  }

  function Taken(payload: seq<SessionHandoff>, usable: set<nat>): seq<SessionHandoff> { Adoptables(Compatible(payload), usable) }

  lemma TakenSnoc(payload: seq<SessionHandoff>, h: SessionHandoff, usable: set<nat>)
    ensures Taken(payload + [h], usable) == if Wanted(h, usable) then Taken(payload, usable) + [h] else Taken(payload, usable)
  {
    assert (payload + [h])[..|payload|] == payload;
    var kept := Compatible(payload);
    if SchemaCompatible(h.version) { assert (kept + [h])[..|kept|] == kept; }
  }

  /** Exactly the wanted records are adopted, each once and in payload order: a bad one costs no other. */
  lemma {:induction false} TakenExactly(payload: seq<SessionHandoff>, usable: set<nat>)
    ensures |Taken(payload, usable)| == WantedIn(payload, usable)
    ensures forall i :: 0 <= i < |payload| && Wanted(payload[i], usable) ==>
      var at := WantedIn(payload[..i], usable); at < |Taken(payload, usable)| && Taken(payload, usable)[at] == payload[i]
    decreases |payload|
  {
    if payload != [] {
      var init, h := payload[..|payload| - 1], payload[|payload| - 1];
      TakenExactly(init, usable);
      TakenSnoc(init, h, usable);
      assert init + [h] == payload;
      forall i | 0 <= i < |payload| && Wanted(payload[i], usable)
        ensures var at := WantedIn(payload[..i], usable); at < |Taken(payload, usable)| && Taken(payload, usable)[at] == payload[i]
      {
        if i < |init| { assert init[..i] == payload[..i] && init[i] == payload[i]; }
      }
    }
  }

  /** A rollback judges records by their sockets alone. */
  lemma ReadoptedExactly(hs: seq<SessionHandoff>, usable: set<nat>)
    requires forall i :: 0 <= i < |hs| ==> hs[i].version == 1
    ensures Adoptables(hs, usable) == Taken(hs, usable)
  {
    AllCompatible(hs);
  }

  lemma {:induction false} AllCompatible(hs: seq<SessionHandoff>)
    requires forall i :: 0 <= i < |hs| ==> hs[i].version == 1
    ensures Compatible(hs) == hs
    decreases |hs|
  {
    if hs != [] {
      AllCompatible(hs[..|hs| - 1]);
      assert hs[..|hs| - 1] + [hs[|hs| - 1]] == hs;
    }
  }

  predicate Annotates(h: SessionHandoff, peer: string) { h.peer == peer && h.ident.Some? }

  lemma OtherPeerKept(metadata: map<string, Metadata>, h: SessionHandoff, peer: string)
    requires !Annotates(h, peer)
    ensures peer in WithIdent(metadata, h) <==> peer in metadata
    ensures peer in metadata ==> WithIdent(metadata, h)[peer] == metadata[peer]
  {
  }

  /** The last record with an ident decides what is known of its peer, ident and trace id. */
  lemma {:induction false} LastIdentWins(metadata: map<string, Metadata>, hs: seq<SessionHandoff>, i: nat)
    requires i < |hs| && hs[i].ident.Some? && forall j :: i < j < |hs| ==> !Annotates(hs[j], hs[i].peer)
    ensures hs[i].peer in WithIdents(metadata, hs)
    ensures WithIdents(metadata, hs)[hs[i].peer] == Metadata(hs[i].peer, hs[i].ident, hs[i].traceId)
    decreases |hs|
  {
    var init, last := hs[..|hs| - 1], hs[|hs| - 1];
    if i < |init| {
      assert init[i] == hs[i] && forall j :: i < j < |init| ==> init[j] == hs[j];
      LastIdentWins(metadata, init, i);
      OtherPeerKept(WithIdents(metadata, init), last, hs[i].peer);
    }
  }

  /** Peers without such a record keep what was known of them. */
  lemma {:induction false} NoIdentNoChange(metadata: map<string, Metadata>, hs: seq<SessionHandoff>, peer: string)
    requires forall i :: 0 <= i < |hs| ==> !Annotates(hs[i], peer)
    ensures peer in WithIdents(metadata, hs) <==> peer in metadata
    ensures peer in metadata ==> WithIdents(metadata, hs)[peer] == metadata[peer]
    decreases |hs|
  {
    if hs != [] {
      NoIdentNoChange(metadata, hs[..|hs| - 1], peer);
      OtherPeerKept(WithIdents(metadata, hs[..|hs| - 1]), hs[|hs| - 1], peer);
    }
  }
}
