/**
 The session payload an upgrade streams to its child: a JSON array of handoff records, seen here as an
 opening bracket, one token per record and a closing bracket.
 */
module Payload {
  import opened Common
  import opened Session

  datatype Token = Begin | Item(record: SessionHandoff) | Finish

  function Items(hs: seq<SessionHandoff>): (ts: seq<Token>)
    ensures |ts| == |hs| && forall i :: 0 <= i < |hs| ==> ts[i] == Item(hs[i])
  {
    seq(|hs|, i requires 0 <= i < |hs| => Item(hs[i]))
  }

  function Serialize(hs: seq<SessionHandoff>): seq<Token> { [Begin] + Items(hs) + [Finish] }

  function Parse(text: seq<Token>): Option<seq<SessionHandoff>> {
    var n := |text|;
    if n >= 2 && text[0] == Begin && text[n - 1] == Finish && forall i :: 0 < i < n - 1 ==> text[i].Item?
    then Some(seq(n - 2, i requires 0 <= i < n - 2 => text[i + 1].record))
    else None
  }

  /** What was serialized is what is parsed. */
  lemma RoundTrip(hs: seq<SessionHandoff>)
    ensures Parse(Serialize(hs)) == Some(hs)
  {
    var text := Serialize(hs);
    assert forall i :: 0 < i < |text| - 1 ==> text[i] == Items(hs)[i - 1];
    assert Parse(text).value == hs;
  }

  /** A payload cut short anywhere does not parse. */
  lemma CutShort(hs: seq<SessionHandoff>, text: seq<Token>)
    requires text <= Serialize(hs) && text != Serialize(hs)
    ensures Parse(text).None?
  {
    if |text| >= 2 {
      assert text[|text| - 1] == Serialize(hs)[|text| - 1] == Items(hs)[|text| - 2];
    }
  }

  /** The records by descriptor. */
  function ByFd(hs: seq<SessionHandoff>): map<nat, SessionHandoff> {
    if hs == [] then map[] else ByFd(hs[..|hs| - 1])[hs[|hs| - 1].fd := hs[|hs| - 1]]
  }

  lemma ByFdSnoc(hs: seq<SessionHandoff>, h: SessionHandoff)
    ensures ByFd(hs + [h]) == ByFd(hs)[h.fd := h]
  {
    assert (hs + [h])[..|hs|] == hs;
  }
}
