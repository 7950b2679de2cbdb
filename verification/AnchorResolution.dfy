/** Resolving a stable reference against a projected session, and why anchors of the portable projection resolve. */
module AnchorResolution {
  import opened Outcomes
  import opened Text
  import opened Sequences
  import opened Sorting
  import opened Canonical
  import opened CoordinateRuns
  import opened PortableEmission
  import opened PortableOrder
  import opened PortableRelocation
  import opened PortableAnchors
  import opened PortableMaterialize

  datatype Reference = Reference(logicalSessionId: string, legacyNativeSessionId: Option<string>,
      logicalAnchorId: Option<string>)

  /** A session payload; an alias whose target is not a string maps to None. */
  datatype Payload = Payload(logicalSessionId: string, headerId: string, aliases: map<string, Option<string>>,
      rows: seq<Row>)

  datatype Resolution = Unavailable | Resolved(nativeSessionId: string, nativeAnchorId: Option<string>)

  function HasMessageId(id: string): Row -> bool {
    (row: Row) => IsMessageRow(row) && MessageId(row) == Some(id)
  }

  function MessagesWith(rows: seq<Row>, id: string): seq<Row> {
    Filter(rows, HasMessageId(id))
  }

  /** The message an anchor leads to: through its alias if it has one, and only when exactly one message answers. */
  function ResolveAnchor(aliases: map<string, Option<string>>, rows: seq<Row>, anchor: string): Option<string> {
    if !NonBlank(anchor) then None
    else if anchor in aliases && NonEmptyString(aliases[anchor]).None? then None
    else
      var target := if anchor in aliases then aliases[anchor].value else anchor;
      if target != anchor && MessagesWith(rows, anchor) != [] then None
      else if |MessagesWith(rows, target)| != 1 then None
      else Some(target)
  }

  /** Counts the messages an anchor leads to, refusing an alias that would redirect a real message. */
  method ResolveAnchorByScan(aliases: map<string, Option<string>>, rows: seq<Row>, anchor: string)
      returns (r: Option<string>)
    ensures r == ResolveAnchor(aliases, rows, anchor)
  {
    if !NonBlank(anchor) {
      return None;
    }
    var nativeAnchorId := anchor;
    if anchor in aliases {
      var target := aliases[anchor];
      if NonEmptyString(target).None? {
        return None;
      }
      nativeAnchorId := target.value;
    }
    var matches := 0;
    for i := 0 to |rows|
      invariant matches == |MessagesWith(rows[..i], nativeAnchorId)|
      invariant nativeAnchorId != anchor ==> MessagesWith(rows[..i], anchor) == []
    {
      assert rows[..i + 1][..i] == rows[..i] && Last(rows[..i + 1]) == rows[i];
      if IsMessageRow(rows[i]) {
        if MessageId(rows[i]) == Some(anchor) && nativeAnchorId != anchor {
          FilterMembership(rows, HasMessageId(anchor));
          assert rows[i] in rows && rows[i] in MessagesWith(rows, anchor);
          return None;
        }
        if MessageId(rows[i]) == Some(nativeAnchorId) {
          matches := matches + 1;
        }
      }
    }
    assert rows[..|rows|] == rows;
    if matches != 1 {
      return None;
    }
    return Some(nativeAnchorId);
  }

  /** A message row with this identity. */
  predicate IsMessageWith(row: Row, id: string) {
    IsMessageRow(row) && row.data.message.Some? && row.data.message.value.id == Some(id)
  }

  /** The row is the only message with this identity. */
  ghost predicate IsOnlyMessageWith(rows: seq<Row>, i: int, id: string) {
    && 0 <= i < |rows| && IsMessageWith(rows[i], id)
    && forall j :: 0 <= j < |rows| && j != i ==> !IsMessageWith(rows[j], id)
  }

  lemma {:induction false} NoMatchExactly(rows: seq<Row>, id: string)
    ensures MessagesWith(rows, id) == [] <==> forall i :: 0 <= i < |rows| ==> !IsMessageWith(rows[i], id)
  {
    if rows != [] {
      var init := rows[..|rows| - 1];
      NoMatchExactly(init, id);
      assert forall i :: 0 <= i < |init| ==> init[i] == rows[i];
    }
  }

  lemma {:induction false} TheOneMatch(rows: seq<Row>, id: string) returns (i: int)
    requires |MessagesWith(rows, id)| == 1
    ensures IsOnlyMessageWith(rows, i, id)
  {
    var init, n := rows[..|rows| - 1], |rows| - 1;
    if IsMessageWith(rows[n], id) {
      NoMatchExactly(init, id);
      i := n;
    } else {
      i := TheOneMatch(init, id);
    }
    assert forall j :: 0 <= j < n ==> init[j] == rows[j];
  }

  lemma {:induction false} OnlyOneMatches(rows: seq<Row>, i: int, id: string)
    requires IsOnlyMessageWith(rows, i, id)
    ensures |MessagesWith(rows, id)| == 1
  {
    var init, n := rows[..|rows| - 1], |rows| - 1;
    assert forall j :: 0 <= j < n ==> init[j] == rows[j];
    if i == n {
      NoMatchExactly(init, id);
    } else {
      OnlyOneMatches(init, i, id);
    }
  }

  /**
   * An anchor resolves exactly to its alias, or without one to itself, where a single message has that identity; and an
   * alias never leads away from a message that has the anchor's own identity.
   */
  lemma ResolveAnchorExactly(aliases: map<string, Option<string>>, rows: seq<Row>, anchor: string, target: string)
    ensures ResolveAnchor(aliases, rows, anchor) == Some(target)
            <==> && NonBlank(anchor)
                 && (if anchor in aliases then aliases[anchor] == Some(target) && NonBlank(target)
                     else target == anchor)
                 && (exists i :: IsOnlyMessageWith(rows, i, target))
                 && (target != anchor ==> forall i :: 0 <= i < |rows| ==> !IsMessageWith(rows[i], anchor))
  {
    hide MessagesWith, IsMessageWith, IsOnlyMessageWith;
    NoMatchExactly(rows, anchor);
    if |MessagesWith(rows, target)| == 1 {
      var i := TheOneMatch(rows, target);
    }
    if i :| IsOnlyMessageWith(rows, i, target) {
      OnlyOneMatches(rows, i, target);
    }
  }

  /** What a reference resolves to, given the sessions a reader can open; None stands for no reader. */
  function Resolve(reference: Reference, derivedNativeId: string, reader: Option<map<string, Payload>>): Resolution {
    var nativeSessionId := OrElse(reference.legacyNativeSessionId, derivedNativeId);
    if !NonBlank(nativeSessionId) then Unavailable
    else if reader.None? then
      if reference.logicalAnchorId.None? then Resolved(nativeSessionId, None) else Unavailable
    else if nativeSessionId !in reader.value then Unavailable
    else
      var payload := reader.value[nativeSessionId];
      if payload.logicalSessionId != reference.logicalSessionId || payload.headerId != nativeSessionId then Unavailable
      else if reference.logicalAnchorId.None? then Resolved(nativeSessionId, None)
      else
        var anchor := ResolveAnchor(payload.aliases, payload.rows, reference.logicalAnchorId.value);
        if anchor.None? then Unavailable else Resolved(nativeSessionId, anchor)
  }

  method ResolveRc1Reference(reference: Reference, derivedNativeId: string, reader: Option<map<string, Payload>>)
      returns (r: Resolution)
    ensures r == Resolve(reference, derivedNativeId, reader)
  {
    var nativeSessionId := OrElse(reference.legacyNativeSessionId, derivedNativeId);
    if !NonBlank(nativeSessionId) {
      return Unavailable;
    }
    if reader.None? {
      return if reference.logicalAnchorId.None? then Resolved(nativeSessionId, None) else Unavailable;
    }
    if nativeSessionId !in reader.value {
      return Unavailable;
    }
    var payload := reader.value[nativeSessionId];
    if payload.logicalSessionId != reference.logicalSessionId || payload.headerId != nativeSessionId {
      return Unavailable;
    }
    var nativeAnchorId := reference.logicalAnchorId;
    if nativeAnchorId.Some? {
      nativeAnchorId := ResolveAnchorByScan(payload.aliases, payload.rows, nativeAnchorId.value);
      if nativeAnchorId.None? {
        return Unavailable;
      }
    }
    return Resolved(nativeSessionId, nativeAnchorId);
  }

  /** The session that a reference leads to is the stored one if it names one, else the derived one. */
  predicate LeadsToSession(reference: Reference, derivedNativeId: string, id: string) {
    && NonBlank(id)
    && match reference.legacyNativeSessionId
       case Some(legacy) => id == legacy
       case None => id == derivedNativeId
  }

  /** The session can be read, is the one meant, and is that of its header. */
  predicate IsMeant(reference: Reference, sessions: map<string, Payload>, id: string) {
    id in sessions && sessions[id].logicalSessionId == reference.logicalSessionId && sessions[id].headerId == id
  }

  /**
   * A reference without an anchor resolves to its session; without a reader only such a reference resolves. With an
   * anchor it resolves to the message of the session to which the anchor resolves.
   */
  lemma ReferenceExactly(reference: Reference, derivedNativeId: string, reader: Option<map<string, Payload>>,
      id: string, anchor: Option<string>)
    ensures Resolve(reference, derivedNativeId, reader) == Resolved(id, anchor)
            <==> && LeadsToSession(reference, derivedNativeId, id)
                 && (reader.Some? ==> IsMeant(reference, reader.value, id))
                 && (reference.logicalAnchorId.Some? <==> anchor.Some?)
                 && (anchor.Some? ==>
                       && reader.Some?
                       && ResolveAnchor(reader.value[id].aliases, reader.value[id].rows,
                            reference.logicalAnchorId.value) == anchor)
  {
    hide ResolveAnchor, NonBlank;
  }

  // ----- anchors of the portable projection

  function AsTarget(aliases: map<string, string>): map<string, Option<string>> {
    map a | a in aliases :: Some(aliases[a])
  }

  /** The aliases of a compiled projection. */
  function AliasesOf(events: seq<CanonicalEvent>, createdAt: int): map<string, string>
    requires Compilable(events, createdAt)
  {
    PushAll(events, Ok(EMPTY_SINK), Pushes(PlanFor(events, createdAt))).value.aliases
  }

  function RowsOf(events: seq<CanonicalEvent>, createdAt: int): seq<Row>
    requires Compilable(events, createdAt)
  {
    Rows(Stream(PlanFor(events, createdAt)))
  }

  lemma StreamMessagesDistinct(plan: Plan)
    requires ValidPlan(plan) && DistinctMessages(Pushes(plan))
    ensures DistinctMessages(Stream(plan))
  {
    hide Pushes, Stream, IsMessageRow, IdOf;
    var pushes, stream := Pushes(plan), Stream(plan);
    PushesRearranged(plan);
    SameMembers(pushes, stream);
    StreamOrdered(plan);
    forall i, j | 0 <= i < j < |stream| && IsMessageRow(stream[i].row) && IsMessageRow(stream[j].row)
      ensures IdOf(stream[i]) != IdOf(stream[j])
    {
      assert Before()(stream[i], stream[j]);
      assert stream[i] in pushes && stream[j] in pushes;
      var k :| 0 <= k < |pushes| && pushes[k] == stream[i];
      var l :| 0 <= l < |pushes| && pushes[l] == stream[j];
    }
  }

  lemma {:induction false} NoneMatches(rows: seq<Row>, id: string)
    requires forall i :: 0 <= i < |rows| ==> !HasMessageId(id)(rows[i])
    ensures MessagesWith(rows, id) == []
  {
    if rows != [] {
      NoneMatches(rows[..|rows| - 1], id);
    }
  }

  lemma {:induction false} OneMatches(rows: seq<Row>, id: string, at: nat)
    requires at < |rows| && HasMessageId(id)(rows[at])
    requires forall i :: 0 <= i < |rows| && i != at ==> !HasMessageId(id)(rows[i])
    ensures |MessagesWith(rows, id)| == 1
  {
    var init := rows[..|rows| - 1];
    if at == |rows| - 1 {
      NoneMatches(init, id);
    } else {
      OneMatches(init, id, at);
    }
  }

  /** Exactly one row of the output carries the identity of an emitted message. */
  lemma MessageIsUnique(events: seq<CanonicalEvent>, createdAt: int, at: nat)
    requires Compilable(events, createdAt)
    requires at < |RowsOf(events, createdAt)| && IsMessageRow(RowsOf(events, createdAt)[at])
    ensures var rows := RowsOf(events, createdAt);
            && MessageId(rows[at]).Some? && NonBlank(MessageId(rows[at]).value)
            && |MessagesWith(rows, MessageId(rows[at]).value)| == 1
  {
    var plan := PlanFor(events, createdAt);
    CompilablePlan(events, createdAt);
    PushedMessages(events, Pushes(plan));
    StreamMessagesDistinct(plan);
    var stream, rows := Stream(plan), RowsOf(events, createdAt);
    assert stream[at] in stream;
    var id := IdOf(stream[at]);
    forall i | 0 <= i < |rows| && i != at
      ensures !HasMessageId(id)(rows[i])
    {
      RelocatedMessage(stream, i);
      assert stream[i] in stream;
      assert IsMessageRow(stream[i].row) ==> IdOf(stream[i]) != id;
    }
    RelocatedMessage(stream, at);
    OneMatches(rows, id, at);
  }

  lemma RelocatedMessage(stream: seq<Emission>, i: nat)
    requires AllRelocatable(stream) && i < |stream|
    ensures IsMessageRow(Rows(stream)[i]) == IsMessageRow(stream[i].row)
    ensures MessageId(Rows(stream)[i]) == MessageId(stream[i].row)
  {
  }

  lemma AliasLeadsTo(events: seq<CanonicalEvent>, createdAt: int, at: nat, anchor: string)
    requires Compilable(events, createdAt)
    requires at < |RowsOf(events, createdAt)| && IsMessageRow(RowsOf(events, createdAt)[at])
    requires anchor in AnchorsTo(events, Stream(PlanFor(events, createdAt))[at])
    ensures anchor in AliasesOf(events, createdAt)
    ensures Some(AliasesOf(events, createdAt)[anchor]) == MessageId(RowsOf(events, createdAt)[at])
  {
    var plan := PlanFor(events, createdAt);
    CompilablePlan(events, createdAt);
    RelocatedMessage(Stream(plan), at);
    assert Stream(plan)[at] in Stream(plan);
    PushedAlias(plan, Stream(plan)[at], anchor);
  }

  lemma PushedAlias(plan: Plan, x: Emission, anchor: string)
    requires ValidPlan(plan) && PushAll(plan.events, Ok(EMPTY_SINK), Pushes(plan)).Ok?
    requires x in Stream(plan) && IsMessageRow(x.row) && anchor in AnchorsTo(plan.events, x)
    ensures var aliases := PushAll(plan.events, Ok(EMPTY_SINK), Pushes(plan)).value.aliases;
            anchor in aliases && Some(aliases[anchor]) == MessageId(x.row)
  {
    PushesRearranged(plan);
    SameMembers(Pushes(plan), Stream(plan));
    AliasOfPushed(plan.events, Pushes(plan), x, anchor);
  }

  lemma AliasOfPushed(events: seq<CanonicalEvent>, xs: seq<Emission>, x: Emission, anchor: string)
    requires PushAll(events, Ok(EMPTY_SINK), xs).Ok?
    requires x in xs && IsMessageRow(x.row) && anchor in AnchorsTo(events, x)
    ensures var aliases := PushAll(events, Ok(EMPTY_SINK), xs).value.aliases;
            anchor in aliases && Some(aliases[anchor]) == MessageId(x.row)
  {
    PushedAnchors(events, xs);
    PushedMessages(events, xs);
  }

  /** Every anchor recorded for an emitted message resolves to that message; blank anchors never resolve. */
  lemma AnchorResolves(events: seq<CanonicalEvent>, createdAt: int, at: nat, anchor: string)
    requires Compilable(events, createdAt)
    requires at < |RowsOf(events, createdAt)| && IsMessageRow(RowsOf(events, createdAt)[at])
    requires anchor in AnchorsTo(events, Stream(PlanFor(events, createdAt))[at])
    ensures ResolveAnchor(AsTarget(AliasesOf(events, createdAt)), RowsOf(events, createdAt), anchor)
         == if NonBlank(anchor) then MessageId(RowsOf(events, createdAt)[at]) else None
  {
    AliasLeadsTo(events, createdAt, at, anchor);
    MessageIsUnique(events, createdAt, at);
    if NonBlank(anchor) && AliasesOf(events, createdAt)[anchor] != anchor {
      NotAMessage(events, createdAt, anchor);
    }
  }

  /** An alias that leads elsewhere is not the identity of any message of the output. */
  lemma NotAMessage(events: seq<CanonicalEvent>, createdAt: int, anchor: string)
    requires Compilable(events, createdAt)
    requires anchor in AliasesOf(events, createdAt) && AliasesOf(events, createdAt)[anchor] != anchor
    ensures MessagesWith(RowsOf(events, createdAt), anchor) == []
  {
    var plan := PlanFor(events, createdAt);
    var stream, rows := Stream(plan), RowsOf(events, createdAt);
    CompilablePlan(events, createdAt);
    PushedAnchors(events, Pushes(plan));
    PushesRearranged(plan);
    SameMembers(Pushes(plan), stream);
    forall i | 0 <= i < |rows|
      ensures !HasMessageId(anchor)(rows[i])
    {
      RelocatedMessage(stream, i);
      assert stream[i] in stream;
      assert IdOf(stream[i]) in AnchorsTo(events, stream[i]);
    }
    NoneMatches(rows, anchor);
  }

  lemma InOrderCompilable(events: seq<CanonicalEvent>, createdAt: int)
    requires Compilable(events, createdAt)
    ensures InOrder(events) && AllRelocatable(Stream(PlanFor(events, createdAt)))
  {
  }

  lemma OwnAnchors(events: seq<CanonicalEvent>, x: Emission, e: CanonicalEvent)
    requires InOrder(events) && e in events && e.sequence in x.origins
    ensures forall a :: a in AnchorsOf(e) ==> a in AnchorsTo(events, x)
  {
    var d := EventAt(events, e.sequence);
    SameSequence(events, d.value, e);
    FlatMapMembership(x.origins, OriginAnchors(events));
    assert forall a :: a in AnchorsOf(e) ==> a in OriginAnchors(events)(e.sequence);
  }

  /**
   * The event identifier and the historical message identifier of every event that contributed to an emitted message
   * resolve to that message.
   */
  lemma ContributorsResolve(events: seq<CanonicalEvent>, createdAt: int, at: nat, e: CanonicalEvent)
    requires Compilable(events, createdAt) && e in events
    requires at < |RowsOf(events, createdAt)| && IsMessageRow(RowsOf(events, createdAt)[at])
    requires e.sequence in Stream(PlanFor(events, createdAt))[at].origins
    ensures var aliases, rows := AsTarget(AliasesOf(events, createdAt)), RowsOf(events, createdAt);
            var historical := NonEmptyString(e.content.message.id);
            && MessageId(rows[at]).Some?
            && ResolveAnchor(aliases, rows, e.id) == (if NonBlank(e.id) then MessageId(rows[at]) else None)
            && (historical.Some? ==> ResolveAnchor(aliases, rows, historical.value) == MessageId(rows[at]))
            && ResolveAnchor(aliases, rows, MessageId(rows[at]).value) == MessageId(rows[at])
            && |MessagesWith(rows, MessageId(rows[at]).value)| == 1
  {
    hide ResolveAnchor, MessagesWith, Stream, Compilable, FlatMap, PlanFor;
    var x := Stream(PlanFor(events, createdAt))[at];
    InOrderCompilable(events, createdAt);
    OwnAnchors(events, x, e);
    assert AnchorsOf(e)[0] == e.id;
    MessageIsUnique(events, createdAt, at);
    RelocatedMessage(Stream(PlanFor(events, createdAt)), at);
    AnchorResolves(events, createdAt, at, e.id);
    AnchorResolves(events, createdAt, at, IdOf(x));
    var historical := NonEmptyString(e.content.message.id);
    if historical.Some? {
      assert AnchorsOf(e)[1] == historical.value;
      AnchorResolves(events, createdAt, at, historical.value);
    }
  }
}
