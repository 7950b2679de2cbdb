/** Sorted drafts become rows: numbered from zero, with provenance and replacement ranges moved to the new positions. */
module PortableRelocation {
  import opened Outcomes
  import opened Text
  import opened Sequences
  import opened Canonical
  import opened PortableEmission

  /** The position of the first draft that represents a canonical sequence. */
  function OriginIndex(stream: seq<Emission>, origin: int): (r: Option<nat>)
    ensures r.Some? ==> r.value < |stream| && origin in stream[r.value].origins
    ensures r.None? ==> forall i :: 0 <= i < |stream| ==> origin !in stream[i].origins
  {
    if stream == [] then None
    else
      var before := OriginIndex(stream[..|stream| - 1], origin);
      if before.Some? then before
      else if origin in Last(stream).origins then Some(|stream| - 1)
      else None
  }

  predicate CarriesCall(row: Row, id: string) {
    row.kind == ToolCallRow && NonEmptyString(row.data.callId) == Some(id)
  }

  /** The position of the last tool/call draft with an identifier. */
  function CallIndex(stream: seq<Emission>, id: string): (r: Option<nat>)
    ensures r.Some? ==> r.value < |stream| && CarriesCall(stream[r.value].row, id)
    ensures r.None? ==> forall i :: 0 <= i < |stream| ==> !CarriesCall(stream[i].row, id)
  {
    if stream == [] then None
    else if CarriesCall(Last(stream).row, id) then Some(|stream| - 1)
    else CallIndex(stream[..|stream| - 1], id)
  }

  predicate Relocatable(stream: seq<Emission>, x: Emission) {
    && (x.row.sourceSeqs.Some? ==> forall s :: s in x.row.sourceSeqs.value ==> OriginIndex(stream, s).Some?)
    && (x.resultCallId.Some? ==> CallIndex(stream, x.resultCallId.value).Some?)
  }

  function MovedBound(stream: seq<Emission>, bound: Option<int>): Option<int> {
    if bound.Some?
        && OriginIndex(stream, bound.value).Some? then Some(OriginIndex(stream, bound.value).value) else bound
  }

  function Rebased(stream: seq<Emission>, surface: SurfaceOp): SurfaceOp {
    match surface
    case Replace(start, end, body) => Replace(MovedBound(stream, start), MovedBound(stream, end), body)
    case _ => surface
  }

  function MovedSeq(stream: seq<Emission>, s: int): int {
    match OriginIndex(stream, s)
    case Some(i) => i
    case None => s
  }

  function MovedSeqs(stream: seq<Emission>): int -> int {
    (s: int) => MovedSeq(stream, s)
  }

  function SourceSeqs(stream: seq<Emission>, x: Emission): Option<seq<int>>
    requires Relocatable(stream, x)
  {
    if x.resultCallId.Some? then Some([CallIndex(stream, x.resultCallId.value).value])
    else if x.row.sourceSeqs.Some? then Some(Map(x.row.sourceSeqs.value, MovedSeqs(stream)))
    else None
  }

  function Relocate(stream: seq<Emission>, x: Emission, position: nat): Row
    requires Relocatable(stream, x)
  {
    x.row.(seqNumber := position, sourceSeqs := SourceSeqs(stream, x), surface := Rebased(stream, x.row.surface))
  }

  predicate AllRelocatable(stream: seq<Emission>) {
    forall x :: x in stream ==> Relocatable(stream, x)
  }

  function Rows(stream: seq<Emission>): (r: seq<Row>)
    requires AllRelocatable(stream)
    ensures |r| == |stream|
    ensures forall i :: 0 <= i < |r| ==> r[i] == Relocate(stream, stream[i], i)
  {
    seq(|stream|, i requires 0 <= i < |stream| => Relocate(stream, stream[i], i))
  }

  // ----- the two tables and the final pass of the source

  ghost predicate OriginTable(stream: seq<Emission>, table: map<int, nat>) {
    forall o :: OriginIndex(stream, o) == if o in table then Some(table[o]) else None
  }

  ghost predicate CallTable(stream: seq<Emission>, table: map<string, nat>) {
    forall id :: CallIndex(stream, id) == if id in table then Some(table[id]) else None
  }

  function RebaseBound(bound: Option<int>, sequenceMap: map<int, nat>): Option<int> {
    if bound.Some? && bound.value in sequenceMap then Some(sequenceMap[bound.value]) else bound
  }

  function RebaseSurfaceOp(surface: SurfaceOp, sequenceMap: map<int, nat>): (r: SurfaceOp)
    ensures forall stream :: OriginTable(stream, sequenceMap) ==> r == Rebased(stream, surface)
  {
    match surface
    case Replace(start, end, body) => Replace(RebaseBound(start, sequenceMap), RebaseBound(end, sequenceMap), body)
    case _ => surface
  }

  method RecordOrigins(stream: seq<Emission>, i: nat, before: map<int, nat>) returns (table: map<int, nat>)
    requires i < |stream| && OriginTable(stream[..i], before)
    ensures OriginTable(stream[..i + 1], table)
  {
    table := before;
    var origins := stream[i].origins;
    for k := 0 to |origins|
      invariant forall o :: o in table <==> o in before || o in origins[..k]
      invariant forall o :: o in table ==> table[o] == if o in before then before[o] else i
    {
      if origins[k] !in table {
        table := table[origins[k] := i];
      }
    }
    assert origins[..|origins|] == origins;
    assert stream[..i + 1][..i] == stream[..i] && Last(stream[..i + 1]) == stream[i];
  }

  method IndexDrafts(stream: seq<Emission>) returns (sequenceMap: map<int, nat>, callSequenceById: map<string, nat>)
    ensures OriginTable(stream, sequenceMap) && CallTable(stream, callSequenceById)
  {
    sequenceMap := map[];
    callSequenceById := map[];
    for i := 0 to |stream|
      invariant OriginTable(stream[..i], sequenceMap)
      invariant CallTable(stream[..i], callSequenceById)
    {
      sequenceMap := RecordOrigins(stream, i, sequenceMap);
      assert stream[..i + 1][..i] == stream[..i] && Last(stream[..i + 1]) == stream[i];
      if stream[i].row.kind == ToolCallRow {
        var callId := NonEmptyString(stream[i].row.data.callId);
        if callId.Some? {
          callSequenceById := callSequenceById[callId.value := i];
        }
      }
    }
    assert stream[..|stream|] == stream;
  }

  method RelocateSeqs(seqs: seq<int>, stream: seq<Emission>, sequenceMap: map<int, nat>) returns (r: Result<seq<int>>)
    requires OriginTable(stream, sequenceMap)
    ensures r.Ok? <==> forall s :: s in seqs ==> OriginIndex(stream, s).Some?
    ensures r.Ok? ==> r.value == Map(seqs, MovedSeqs(stream))
  {
    var moved: seq<int> := [];
    for k := 0 to |seqs|
      invariant moved == Map(seqs[..k], MovedSeqs(stream))
      invariant forall s :: s in seqs[..k] ==> OriginIndex(stream, s).Some?
    {
      if seqs[k] !in sequenceMap {
        assert seqs[k] in seqs && OriginIndex(stream, seqs[k]).None?;
        return Err("source sequence has no materialized target");
      }
      moved := moved + [sequenceMap[seqs[k]]];
    }
    assert seqs[..|seqs|] == seqs;
    return Ok(moved);
  }

  method RelocateDrafts(stream: seq<Emission>) returns (r: Result<seq<Row>>)
    ensures r.Ok? <==> AllRelocatable(stream)
    ensures r.Ok? ==> r.value == Rows(stream)
  {
    var sequenceMap, callSequenceById := IndexDrafts(stream);
    var rows: seq<Row> := [];
    for i := 0 to |stream|
      invariant |rows| == i
      invariant forall k :: 0 <= k < i ==> Relocatable(stream, stream[k]) && rows[k] == Relocate(stream, stream[k], k)
    {
      var x := stream[i];
      assert x in stream;
      var sourceSeqs: Option<seq<int>> := None;
      if x.row.sourceSeqs.Some? {
        var moved := RelocateSeqs(x.row.sourceSeqs.value, stream, sequenceMap);
        if moved.Err? {
          return Err(moved.fault);
        }
        sourceSeqs := Some(moved.value);
      }
      if x.resultCallId.Some? {
        if x.resultCallId.value !in callSequenceById {
          return Err("lost tool call");
        }
        sourceSeqs := Some([callSequenceById[x.resultCallId.value]]);
      }
      rows := rows
          + [x.row.(seqNumber := i, sourceSeqs := sourceSeqs, surface := RebaseSurfaceOp(x.row.surface, sequenceMap))];
    }
    return Ok(rows);
  }
}
