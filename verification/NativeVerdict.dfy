/** When a native history is projected: its records are readable, its sequences fit, and its references hold. */
module NativeVerdict {
  import opened Outcomes
  import opened Sequences
  import opened Canonical
  import opened PortableEmission
  import opened Provenance
  import opened PortableRelocation
  import opened PortableReferences
  import opened PortableLinks
  import opened NativeRelocation
  import opened Materialize

  /** How many sequences an event takes: one for each chunk of a packed record. */
  function Taken(e: CanonicalEvent): nat {
    if e.kind != Other && e.raw.Packed? then |e.raw.payload| else 1
  }

  predicate Takes(e: CanonicalEvent, s: int) {
    e.sequence <= s < e.sequence + Taken(e)
  }

  /** Packed records hold as many times as chunks after the first, and stored provenance can be read. */
  predicate IsReadable(e: CanonicalEvent) {
    e.kind != Other ==>
      && (e.raw.Packed? ==> e.raw.payload != [] && |e.raw.deltas| + 1 == |e.raw.payload|)
      && (e.raw.Envelope? && e.raw.provenance.Some? ==> Decodes(e.raw.provenance.value, e.sequence))
  }

  /** Every event takes its sequences after those of the events before it. */
  ghost predicate SequencesFit(events: seq<CanonicalEvent>) {
    && (forall i :: 0 <= i < |events| ==> 0 <= events[i].sequence)
    && forall i, j :: 0 <= i < j < |events| ==> events[i].sequence + Taken(events[i]) <= events[j].sequence
  }

  predicate Brings(e: CanonicalEvent) {
    e.kind != Other && e.raw.Envelope? && e.raw.provenance.Some?
  }

  ghost predicate IsTaken(events: seq<CanonicalEvent>, s: int) {
    exists d :: d in events && Takes(d, s)
  }

  ghost predicate NamesWell(events: seq<CanonicalEvent>, e: CanonicalEvent) {
    Brings(e) ==>
      exists named :: StandsFor(e.raw.provenance.value, named) && forall s :: s in named ==> IsTaken(events, s)
  }

  /** Stored provenance names sequences that events take. */
  ghost predicate NamesTaken(events: seq<CanonicalEvent>) {
    forall e :: e in events ==> NamesWell(events, e)
  }

  ghost predicate NativeProjectable(events: seq<CanonicalEvent>) {
    (forall e :: e in events ==> IsReadable(e)) && SequencesFit(events) && NamesTaken(events)
  }

  lemma ReadableExactly(e: CanonicalEvent)
    ensures ReadableNative(e) <==> IsReadable(e)
  {
  }

  // ----- the sequences of one event

  ghost predicate HasOrigins(own: seq<Emission>, first: int, count: nat) {
    && (forall i :: 0 <= i < |own| && own[i].origins != [] ==>
          |own[i].origins| == 1 && first <= own[i].origins[0] < first + count)
    && (forall i, j :: 0 <= i < j < |own| && own[i].origins != [] && own[j].origins != []
         ==> own[i].origins[0] < own[j].origins[0])
    && forall s :: first <= s < first + count ==> Represents(own, s)
  }

  ghost predicate Represents(own: seq<Emission>, s: int) {
    exists x :: x in own && x.origins == [s]
  }

  lemma ChunkOrigins(raw: RawPayload, sequence: int)
    requires WellPacked(raw)
    ensures HasOrigins(ChunkDrafts(raw, sequence), sequence, |raw.payload|)
  {
    var own := ChunkDrafts(raw, sequence);
    forall s | sequence <= s < sequence + |raw.payload|
      ensures Represents(own, s)
    {
      var x := own[s - sequence];
      assert x in own && x.origins == [s];
    }
  }

  lemma OriginsOf(createdAt: int, e: CanonicalEvent)
    requires ReadableNative(e)
    ensures HasOrigins(NativeDraftsOf(createdAt, e), e.sequence, Taken(e)) && Taken(e) > 0
  {
    hide SynthesizedRow, InsertedMessage, EnvelopeRow, Decodes;
    var own := NativeDraftsOf(createdAt, e);
    if e.kind != Other && e.raw.Packed? {
      ChunkOrigins(e.raw, e.sequence);
    } else {
      var x := own[|own| - 1];
      assert x in own && x.origins == [e.sequence];
    }
  }

  lemma JoinedIncrease(a: seq<Emission>, b: seq<Emission>)
    requires OriginsIncrease(a) && OriginsIncrease(b) && AllBefore(a, b)
    ensures OriginsIncrease(a + b)
  {
    var all := a + b;
    forall i, j | 0 <= i < j < |all| && all[i].origins != [] && all[j].origins != []
      ensures all[i].origins[0] < all[j].origins[0]
    {
      if i < |a| <= j {
        assert all[i] in a && all[j] in b;
      }
    }
  }

  lemma IncreaseJoined(a: seq<Emission>, b: seq<Emission>)
    ensures OriginsIncrease(a + b) <==>
              OriginsIncrease(a) && OriginsIncrease(b) && AllBefore(a, b)
  {
    var all := a + b;
    assert forall i :: 0 <= i < |a| ==> all[i] == a[i];
    if OriginsIncrease(a) && OriginsIncrease(b) && AllBefore(a, b) {
      JoinedIncrease(a, b);
    }
    if OriginsIncrease(all) {
      forall i | 0 <= i < |a| && a[i].origins != []
        ensures 0 <= a[i].origins[0]
      {
        assert all[i] == a[i];
      }
      forall i, j | 0 <= i < j < |a| && a[i].origins != [] && a[j].origins != []
        ensures a[i].origins[0] < a[j].origins[0]
      {
        assert all[i] == a[i] && all[j] == a[j];
      }
      forall i | 0 <= i < |b| && b[i].origins != []
        ensures 0 <= b[i].origins[0]
      {
        assert all[|a| + i] == b[i];
      }
      forall i, j | 0 <= i < j < |b| && b[i].origins != [] && b[j].origins != []
        ensures b[i].origins[0] < b[j].origins[0]
      {
        assert all[|a| + i] == b[i] && all[|a| + j] == b[j];
      }
      forall x, y | x in a && y in b && x.origins != [] && y.origins != []
        ensures x.origins[0] < y.origins[0]
      {
        var i :| 0 <= i < |a| && a[i] == x;
        var j :| 0 <= j < |b| && b[j] == y;
        assert all[i] == x && all[|a| + j] == y;
      }
    }
  }

  ghost predicate HasOrigin(drafts: seq<Emission>, s: int) {
    exists x :: x in drafts && s in x.origins
  }

  /** Origins of a draft list are the sequences that its events take. */
  ghost predicate OriginsTaken(events: seq<CanonicalEvent>, drafts: seq<Emission>) {
    forall s :: HasOrigin(drafts, s) <==> IsTaken(events, s)
  }

  lemma {:induction false} DraftOrigins(events: seq<CanonicalEvent>, createdAt: int)
    requires forall e :: e in events ==> ReadableNative(e)
    ensures OriginsTaken(events, Drafts(events, createdAt))
    ensures forall x :: x in Drafts(events, createdAt) ==> |x.origins| <= 1
  {
    hide NativeDraftsOf, ReadableNative, Takes;
    if events != [] {
      var init, e := events[..|events| - 1], Last(events);
      DraftOrigins(init, createdAt);
      OriginsOf(createdAt, e);
      var before, own := Drafts(init, createdAt), NativeDraftsOf(createdAt, e);
      OwnTaken(own, e);
      assert forall x :: x in Drafts(events, createdAt) <==> x in before || x in own;
      assert forall d :: d in events <==> d in init || d == e;
      OriginsJoined(init, e, before, own);
    }
  }

  lemma OwnTaken(own: seq<Emission>, e: CanonicalEvent)
    requires HasOrigins(own, e.sequence, Taken(e))
    ensures forall s :: HasOrigin(own, s) <==> Takes(e, s)
    ensures forall x :: x in own ==> |x.origins| <= 1
  {
    forall s
      ensures HasOrigin(own, s) <==> Takes(e, s)
    {
      if Takes(e, s) {
        assert Represents(own, s);
        var x :| x in own && x.origins == [s];
        assert s in x.origins;
      }
    }
  }

  lemma OriginsJoined(init: seq<CanonicalEvent>, e: CanonicalEvent, before: seq<Emission>, own: seq<Emission>)
    requires OriginsTaken(init, before)
    requires forall s :: HasOrigin(own, s) <==> Takes(e, s)
    ensures OriginsTaken(init + [e], before + own)
  {
    hide Takes;
    forall s
      ensures HasOrigin(before + own, s) <==> IsTaken(init + [e], s)
    {
      if x :| x in before + own && s in x.origins {
        if x in before {
          assert HasOrigin(before, s);
          var d :| d in init && Takes(d, s);
          assert d in init + [e];
        } else {
          assert HasOrigin(own, s);
          assert e in init + [e];
        }
      }
      if d :| d in init + [e] && Takes(d, s) {
        if d in init {
          assert IsTaken(init, s);
          var x :| x in before && s in x.origins;
          assert x in before + own;
        } else {
          assert HasOrigin(own, s);
          var x :| x in own && s in x.origins;
          assert x in before + own;
        }
      }
    }
  }

  // ----- the whole

  lemma FitMore(init: seq<CanonicalEvent>, e: CanonicalEvent)
    ensures SequencesFit(init + [e]) <==>
              && SequencesFit(init) && 0 <= e.sequence
              && forall d :: d in init ==> d.sequence + Taken(d) <= e.sequence
  {
    var all := init + [e];
    if SequencesFit(all) {
      forall i, j | 0 <= i < j < |init|
        ensures init[i].sequence + Taken(init[i]) <= init[j].sequence
      {
        assert all[i] == init[i] && all[j] == init[j];
      }
      forall d | d in init
        ensures d.sequence + Taken(d) <= e.sequence
      {
        var i :| 0 <= i < |init| && init[i] == d;
        assert all[i] == d && all[|init|] == e;
      }
      assert all[|init|] == e;
      assert forall i :: 0 <= i < |init| ==> init[i] == all[i];
    }
  }

  lemma {:induction false} IncreaseExactly(events: seq<CanonicalEvent>, createdAt: int)
    requires forall e :: e in events ==> ReadableNative(e)
    ensures OriginsIncrease(Drafts(events, createdAt)) <==> SequencesFit(events)
  {
    hide NativeDraftsOf, ReadableNative, OriginsIncrease, SequencesFit;
    if events == [] {
      NothingFits(createdAt);
    } else {
      var init, e := events[..|events| - 1], Last(events);
      IncreaseExactly(init, createdAt);
      assert events == init + [e];
      FitMore(init, e);
      IncreaseJoined(Drafts(init, createdAt), NativeDraftsOf(createdAt, e));
      OriginsOf(createdAt, e);
      DraftOrigins(init, createdAt);
      OwnIncreases(NativeDraftsOf(createdAt, e), e);
      forall d | d in init
        ensures Taken(d) > 0
      {
        OriginsOf(createdAt, d);
      }
      AfterAll(init, e, Drafts(init, createdAt), NativeDraftsOf(createdAt, e));
    }
  }

  lemma NothingFits(createdAt: int)
    ensures OriginsIncrease(Drafts([], createdAt)) && SequencesFit([])
  {
  }

  lemma OwnIncreases(own: seq<Emission>, e: CanonicalEvent)
    requires HasOrigins(own, e.sequence, Taken(e)) && Taken(e) > 0
    ensures OriginsIncrease(own) <==> 0 <= e.sequence
  {
    assert Represents(own, e.sequence);
    var x :| x in own && x.origins == [e.sequence];
    var i :| 0 <= i < |own| && own[i] == x;
  }

  ghost predicate AllBefore(before: seq<Emission>, own: seq<Emission>) {
    forall x, y :: x in before && y in own && x.origins != [] && y.origins != [] ==> x.origins[0] < y.origins[0]
  }

  lemma AfterAll(init: seq<CanonicalEvent>, e: CanonicalEvent, before: seq<Emission>, own: seq<Emission>)
    requires OriginsTaken(init, before) && HasOrigins(own, e.sequence, Taken(e)) && Taken(e) > 0
    requires forall x :: x in before ==> |x.origins| <= 1
    requires forall d :: d in init ==> Taken(d) > 0
    ensures AllBefore(before, own) <==> forall d :: d in init ==> d.sequence + Taken(d) <= e.sequence
  {
    hide Taken;
    OwnTaken(own, e);
    if AllBefore(before, own) {
      assert Represents(own, e.sequence);
      var y :| y in own && y.origins == [e.sequence];
      forall d | d in init
        ensures d.sequence + Taken(d) <= e.sequence
      {
        var s := d.sequence + Taken(d) - 1;
        assert Takes(d, s) && IsTaken(init, s);
        assert HasOrigin(before, s);
        var x :| x in before && s in x.origins;
        assert x.origins[0] == s;
      }
    }
    if forall d :: d in init ==> d.sequence + Taken(d) <= e.sequence {
      forall x, y | x in before && y in own && x.origins != [] && y.origins != []
        ensures x.origins[0] < y.origins[0]
      {
        var s, t := x.origins[0], y.origins[0];
        assert s in x.origins && t in y.origins;
        assert HasOrigin(before, s) && HasOrigin(own, t);
        var d :| d in init && Takes(d, s);
        assert Takes(e, t);
      }
    }
  }

  lemma FoundExactly(events: seq<CanonicalEvent>, createdAt: int, s: int)
    requires forall e :: e in events ==> ReadableNative(e)
    ensures OriginIndex(Drafts(events, createdAt), s).Some? <==> IsTaken(events, s)
  {
    hide Drafts, ReadableNative, Takes;
    DraftOrigins(events, createdAt);
    var drafts := Drafts(events, createdAt);
    assert HasOrigin(drafts, s) <==> IsTaken(events, s);
    if x :| x in drafts && s in x.origins {
      var i :| 0 <= i < |drafts| && drafts[i] == x;
    }
    if OriginIndex(drafts, s).Some? {
      assert drafts[OriginIndex(drafts, s).value] in drafts;
    }
  }

  /** Provenance among the drafts of an event is that of its envelope. */
  lemma SourcesOf(createdAt: int, e: CanonicalEvent)
    requires ReadableNative(e)
    ensures forall x :: x in NativeDraftsOf(createdAt, e) && x.row.sourceSeqs.Some? ==>
              Brings(e) && x.row.sourceSeqs.value == FlatMap(e.raw.provenance.value, ExpandAll())
    ensures Brings(e) ==>
              exists x :: x in NativeDraftsOf(createdAt, e)
                && x.row.sourceSeqs == Some(FlatMap(e.raw.provenance.value, ExpandAll()))
  {
    hide Decodes, MessageBlocks;
    if Brings(e) {
      assert NativeDraftsOf(createdAt, e)[0] in NativeDraftsOf(createdAt, e);
    }
  }

  lemma SourcedExactly(events: seq<CanonicalEvent>, createdAt: int)
    requires forall e :: e in events ==> ReadableNative(e)
    ensures (forall x :: x in Drafts(events, createdAt) ==> Sourced(Drafts(events, createdAt), x))
            <==> NamesTaken(events)
  {
    hide ReadableNative, Takes, NativeDraftsOf, StandsFor, Brings;
    var drafts := Drafts(events, createdAt);
    FlatMapMembership(events, NativeDrafts(createdAt));
    if forall x :: x in drafts ==> Sourced(drafts, x) {
      forall e | e in events && Brings(e)
        ensures NamesWell(events, e)
      {
        BringsRaw(e);
        SourcesOf(createdAt, e);
        var named := FlatMap(e.raw.provenance.value, ExpandAll());
        var x :| x in NativeDraftsOf(createdAt, e) && x.row.sourceSeqs == Some(named);
        assert x in NativeDrafts(createdAt)(e);
        ExpandedStandsFor(e.raw.provenance.value);
        forall s | s in named
          ensures IsTaken(events, s)
        {
          assert x in drafts && Sourced(drafts, x);
          FoundExactly(events, createdAt, s);
        }
      }
    }
    if NamesTaken(events) {
      forall x | x in drafts
        ensures Sourced(drafts, x)
      {
        var e :| e in events && x in NativeDrafts(createdAt)(e);
        SourcesOf(createdAt, e);
        if x.row.sourceSeqs.Some? {
          BringsRaw(e);
          NamedFound(events, createdAt, e);
        }
      }
    }
  }

  lemma BringsRaw(e: CanonicalEvent)
    requires Brings(e)
    ensures e.raw.Envelope? && e.raw.provenance.Some?
  {
  }

  lemma NamedFound(events: seq<CanonicalEvent>, createdAt: int, e: CanonicalEvent)
    requires (forall d :: d in events ==> ReadableNative(d)) && NamesTaken(events) && e in events && Brings(e)
    ensures forall s :: s in FlatMap(e.raw.provenance.value, ExpandAll())
              ==> OriginIndex(Drafts(events, createdAt), s).Some?
  {
    hide ReadableNative, Takes, Drafts, StandsFor;
    assert NamesWell(events, e);
    var named :| StandsFor(e.raw.provenance.value, named) && forall s :: s in named ==> IsTaken(events, s);
    StandsForOne(e.raw.provenance.value, named);
    forall s | s in named
      ensures OriginIndex(Drafts(events, createdAt), s).Some?
    {
      FoundExactly(events, createdAt, s);
    }
  }

  /**
   * A native history is projected exactly if its records are readable, every event takes its sequences after those
   * before it, and stored provenance names sequences that are taken.
   */
  lemma NativeExactly(events: seq<CanonicalEvent>, createdAt: int)
    ensures NativeCompilable(events, createdAt) <==> NativeProjectable(events)
  {
    hide ReadableNative, IsReadable, SequencesFit, NamesTaken, Drafts, OriginsIncrease;
    forall e
      ensures ReadableNative(e) <==> IsReadable(e)
    {
      ReadableExactly(e);
    }
    if forall e :: e in events ==> ReadableNative(e) {
      IncreaseExactly(events, createdAt);
      SourcedExactly(events, createdAt);
      var drafts := Drafts(events, createdAt);
      assert (forall i :: 0 <= i < |drafts| ==> Sourced(drafts, drafts[i]))
          <==> forall x :: x in drafts ==> Sourced(drafts, x);
    }
  }

  lemma NativeProjectedExactly(events: seq<CanonicalEvent>, createdAt: int)
    ensures NativeProjection(events, createdAt) <==> !HasPortable(events) && NativeProjectable(events)
  {
    hide NativeProjectable, NativeCompilable, HasPortable;
    NativeExactly(events, createdAt);
  }
}
