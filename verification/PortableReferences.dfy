/** The stored records of a portable projection: their provenance and their replaced ranges name the same events. */
module PortableReferences {
  import opened Outcomes
  import opened Sequences
  import opened Canonical
  import opened PortableEmission
  import opened Provenance
  import opened PortableOrder
  import opened PortableAcceptance
  import opened PortableRelocation
  import opened PortableMaterialize
  import opened PortableTheorems
  import opened PortableRows

  // ----- what a reference names

  /** The position is the first at which the event of this sequence is represented. */
  ghost predicate NamesFirst(stream: seq<Emission>, named: int, position: int) {
    && 0 <= position < |stream| && named in stream[position].origins
    && forall p :: 0 <= p < position ==> named !in stream[p].origins
  }

  /** The sequences that stored provenance stands for: each single one, and all of each range. */
  ghost predicate StandsFor(entries: seq<SeqEntry>, seqs: seq<int>)
    decreases |entries|, 0
  {
    if entries == [] then seqs == []
    else
      var init := entries[..|entries| - 1];
      match Last(entries)
      case Single(value) => seqs != [] && Last(seqs) == value && StandsFor(init, seqs[..|seqs| - 1])
      case Range(start, end) => if start <= end then StandsForRange(init, start, end, seqs) else StandsFor(init, seqs)
      case BadEntry => StandsFor(init, seqs)
  }

  ghost predicate StandsForRange(init: seq<SeqEntry>, start: int, end: int, seqs: seq<int>)
    decreases |init|, 1
  {
    var before := |seqs| - (end - start + 1);
    && start <= end && 0 <= before
    && (forall i :: before <= i < |seqs| ==> seqs[i] == start + (i - before))
    && StandsFor(init, seqs[..before])
  }

  lemma {:induction false} ExpandedStandsFor(entries: seq<SeqEntry>)
    ensures StandsFor(entries, FlatMap(entries, ExpandAll()))
  {
    if entries != [] {
      var init, last := entries[..|entries| - 1], Last(entries);
      ExpandedStandsFor(init);
      var before, all := FlatMap(init, ExpandAll()), FlatMap(entries, ExpandAll());
      assert all == before + Expand(last) && before + [] == before;
      assert all[..|before|] == before;
    }
  }

  ghost predicate BoundMoves(stream: seq<Emission>, named: Option<int>, moved: Option<int>) {
    match named
    case None => moved == None
    case Some(s) =>
      if exists p :: NamesFirst(stream, s, p) then moved.Some? && NamesFirst(stream, s, moved.value) else moved == named
  }

  ghost predicate SurfaceMoves(stream: seq<Emission>, named: SurfaceOp, moved: SurfaceOp) {
    match named
    case Replace(start, end, body) =>
      && moved.Replace? && moved.body == body
      && BoundMoves(stream, start, moved.start) && BoundMoves(stream, end, moved.end)
    case _ => moved == named
  }

  ghost predicate SeqsMove(stream: seq<Emission>, named: Option<seq<int>>, moved: Option<seq<int>>) {
    match named
    case None => moved == None
    case Some(seqs) =>
      && moved.Some? && |moved.value| == |seqs|
      && forall k :: 0 <= k < |seqs| ==> NamesFirst(stream, seqs[k], moved.value[k])
  }

  // ----- relocation

  lemma {:induction false} OriginIndexIsFirst(stream: seq<Emission>, s: int)
    ensures OriginIndex(stream, s).Some? <==> exists p :: NamesFirst(stream, s, p)
    ensures OriginIndex(stream, s).Some? ==> NamesFirst(stream, s, OriginIndex(stream, s).value)
  {
    if stream != [] {
      var init := stream[..|stream| - 1];
      OriginIndexIsFirst(init, s);
      if OriginIndex(init, s).Some? {
        assert NamesFirst(stream, s, OriginIndex(init, s).value);
      } else if s in Last(stream).origins {
        assert NamesFirst(stream, s, |stream| - 1);
      }
    }
  }

  lemma BoundMovesRight(stream: seq<Emission>, bound: Option<int>)
    ensures BoundMoves(stream, bound, MovedBound(stream, bound))
  {
    hide OriginIndex, NamesFirst;
    if bound.Some? {
      OriginIndexIsFirst(stream, bound.value);
    }
  }

  /** A draft that answers no call keeps naming the events that it named. */
  ghost predicate Follows(stream: seq<Emission>, row: Row, x: Emission) {
    && Moved(row, x.row) && SurfaceMoves(stream, x.row.surface, row.surface)
    && (x.resultCallId == None ==> SeqsMove(stream, x.row.sourceSeqs, row.sourceSeqs))
  }

  lemma RowFollows(stream: seq<Emission>, i: nat)
    requires AllRelocatable(stream) && i < |stream|
    ensures Follows(stream, Rows(stream)[i], stream[i])
  {
    hide OriginIndex, CallIndex, NamesFirst, BoundMoves;
    var x := stream[i];
    assert x in stream;
    RowsMoved(stream);
    if x.row.surface.Replace? {
      BoundMovesRight(stream, x.row.surface.start);
      BoundMovesRight(stream, x.row.surface.end);
    }
    if x.resultCallId.None? && x.row.sourceSeqs.Some? {
      var seqs := x.row.sourceSeqs.value;
      forall k | 0 <= k < |seqs|
        ensures NamesFirst(stream, seqs[k], MovedSeq(stream, seqs[k]))
      {
        assert seqs[k] in seqs;
        OriginIndexIsFirst(stream, seqs[k]);
      }
    }
  }

  lemma {:induction false} FollowsFilter(rows: seq<Row>, drafts: seq<Emission>, stream: seq<Emission>, k: RowType)
    requires |rows| == |drafts| && forall i :: 0 <= i < |rows| ==> Follows(stream, rows[i], drafts[i])
    ensures var kept, emitted := Filter(rows, RowInFamily(k)), Filter(drafts, InFamily(k));
            |kept| == |emitted| && forall i :: 0 <= i < |kept| ==> Follows(stream, kept[i], emitted[i])
  {
    hide Follows;
    if rows != [] {
      FollowsFilter(rows[..|rows| - 1], drafts[..|drafts| - 1], stream, k);
      FollowsKind(stream, Last(rows), Last(drafts));
    }
  }

  lemma FollowsKind(stream: seq<Emission>, row: Row, x: Emission)
    requires Follows(stream, row, x)
    ensures row.kind == x.row.kind
  {
  }

  // ----- stored records

  /** A stored record that is kept as it was. */
  predicate IsStored(e: CanonicalEvent) {
    e.kind.Metadata? && e.raw.Envelope?
  }

  /** The draft of a stored record carries its provenance and its surface. */
  ghost predicate Carries(x: Emission, e: CanonicalEvent) {
    IsStored(e) ==>
      && x.resultCallId == None && x.origins == [e.sequence] && x.row.surface == e.raw.surface
      && match e.raw.provenance
         case None => x.row.sourceSeqs == None
         case Some(entries) => x.row.sourceSeqs.Some? && StandsFor(entries, x.row.sourceSeqs.value)
  }

  ghost function ShownAndCarried(events: seq<CanonicalEvent>, createdAt: int, k: RowType):
      (Emission, CanonicalEvent) -> bool {
    (x: Emission, e: CanonicalEvent) => Shows(events, createdAt, k, x.row, e) && Carries(x, e)
  }

  lemma StoredCarries(plan: Plan, e: CanonicalEvent, k: RowType)
    requires k.Extension? && IsStored(e)
    ensures |Part(plan, e, k)| == 1 ==> Carries(Part(plan, e, k)[0], e)
  {
    if e.raw.provenance.Some? {
      ExpandedStandsFor(e.raw.provenance.value);
    }
  }

  /** The row of a stored record names the same events as the record, at the places where they now are. */
  ghost predicate ReferencesStay(stream: seq<Emission>, row: Row, e: CanonicalEvent)
    requires IsStored(e)
  {
    && SurfaceMoves(stream, e.raw.surface, row.surface)
    && match e.raw.provenance
       case None => row.sourceSeqs == None
       case Some(entries) => exists named :: StandsFor(entries, named) && SeqsMove(stream, Some(named), row.sourceSeqs)
  }

  lemma CarriedFollows(stream: seq<Emission>, row: Row, x: Emission, e: CanonicalEvent)
    requires Follows(stream, row, x) && Carries(x, e) && IsStored(e)
    ensures ReferencesStay(stream, row, e)
  {
  }

  /**
   * In the projection of a compilable history, the row of each stored record refers to the events that the record
   * referred to, each at the first row that represents it.
   */
  lemma StoredReferencesFollow(events: seq<CanonicalEvent>, createdAt: int, j: nat)
    requires Compilable(events, createdAt) && Guarded(events)
    requires j < |Filter(events, CallsForIn(events, Extension("")))|
    requires IsStored(Filter(events, CallsForIn(events, Extension("")))[j])
    ensures var stream := Stream(PlanFor(events, createdAt));
            var kept := Filter(Rows(stream), RowInFamily(Extension("")));
            j < |kept| && ReferencesStay(stream, kept[j], Filter(events, CallsForIn(events, Extension("")))[j])
  {
    hide Writable, MatchedCall, Answerable, ValidPlan, Part, Shows, CallsFor, Moved, Turns, Carries, Follows, IsStored,
        ReferencesStay;
    var k := Extension("");
    var plan := PlanFor(events, createdAt);
    CompilablePlan(events, createdAt);
    RelocatedAnswerable(plan);
    forall e | e in plan.events
      ensures var part := Part(plan, e, k);
              if CallsForIn(events, k)(e) then |part| == 1 && ShownAndCarried(events, createdAt, k)(part[0], e)
              else part == []
    {
      if MatchedCall(plan.events, e) {
        MatchedWritable(events, createdAt, e);
      }
      RightPartOf(plan, k, e);
      CarriesAnyway(plan, e, k);
    }
    FamilyMirrors(plan, k, CallsForIn(events, k), ShownAndCarried(events, createdAt, k));
    var stream := Stream(plan);
    forall i | 0 <= i < |stream|
      ensures Follows(stream, Rows(stream)[i], stream[i])
    {
      RowFollows(stream, i);
    }
    FollowsFilter(Rows(stream), stream, stream, k);
    var emitted, sources := Filter(stream, InFamily(k)), Filter(events, CallsForIn(events, k));
    assert ShownAndCarried(events, createdAt, k)(emitted[j], sources[j]);
    CarriedFollows(stream, Filter(Rows(stream), RowInFamily(k))[j], emitted[j], sources[j]);
  }

  lemma CarriesAnyway(plan: Plan, e: CanonicalEvent, k: RowType)
    requires k.Extension?
    ensures |Part(plan, e, k)| == 1 ==> Carries(Part(plan, e, k)[0], e)
  {
    hide Part;
    if IsStored(e) {
      StoredCarries(plan, e, k);
    }
  }
}
