/** The guarantees of the portable projection: acceptance, correlation and origin coverage of its rows. */
module PortableTheorems {
  import opened Outcomes
  import opened Text
  import opened Sequences
  import opened Canonical
  import opened CoordinateRuns
  import opened SessionInvariants
  import opened PortableEmission
  import opened PortableOrder
  import opened PortableAcceptance
  import opened PortableRelocation
  import opened PortableAnchors
  import opened PortableMaterialize

  // ----- which event an emission of the stream belongs to

  lemma InStream(plan: Plan, e: CanonicalEvent, x: Emission)
    requires e in plan.events && x in BundleOf(plan, e)
    ensures x in Stream(plan)
  {
    FlatMapMembership(plan.events, Bundle(plan));
  }

  lemma FromStream(plan: Plan, x: Emission) returns (e: CanonicalEvent)
    requires x in Stream(plan)
    ensures e in plan.events && x in BundleOf(plan, e)
  {
    FlatMapMembership(plan.events, Bundle(plan));
    e :| e in plan.events && x in Bundle(plan)(e);
  }

  lemma Located(plan: Plan, e: CanonicalEvent) returns (turn: Group, step: Group)
    requires ValidPlan(plan) && e in plan.events && IsModel(e)
    ensures turn in plan.turns && step in Steps(turn) && e in step.members && e in turn.members
    ensures BundleOf(plan, e) == TurnOf(plan, turn, e)
    ensures InnerOf(plan, turn, e) == StepOf(plan, turn, step, e)
  {
    turn := TurnHolding(plan, e);
    step := StepHolding(plan, turn, e);
    EmittedAt(plan, turn, step, e);
  }

  lemma EmittedAt(plan: Plan, turn: Group, step: Group, e: CanonicalEvent)
    requires ValidPlan(plan) && turn in plan.turns && step in Steps(turn) && e in step.members
    ensures e in plan.events && e in turn.members && IsModel(e)
    ensures BundleOf(plan, e) == TurnOf(plan, turn, e)
    ensures InnerOf(plan, turn, e) == StepOf(plan, turn, step, e)
  {
    hide TurnOf, StepOf;
    StepMember(plan, turn, step, e);
    TurnMember(plan, turn, e);
  }

  /** Rows that open and close turns and steps represent no event. */
  predicate IsBoundary(x: Emission) {
    x.origins == [] && x.row.kind in {TurnStart, TurnEnd, StepStart, StepEnd}
  }

  lemma StepParts(plan: Plan, turn: Group, step: Group, e: CanonicalEvent, x: Emission)
    ensures x in CoreOf(plan, turn, step, e) ==> x in StepOf(plan, turn, step, e)
    ensures x in StepOf(plan, turn, step, e) ==> x in CoreOf(plan, turn, step, e) || IsBoundary(x)
  {
  }

  lemma TurnParts(plan: Plan, turn: Group, e: CanonicalEvent, x: Emission)
    ensures x in InnerOf(plan, turn, e) ==> x in TurnOf(plan, turn, e)
    ensures x in TurnOf(plan, turn, e) ==> x in InnerOf(plan, turn, e) || IsBoundary(x)
  {
  }

  /** The emission of a tool event is in the stream. */
  lemma ToolInStream(plan: Plan, e: CanonicalEvent) returns (turn: Group, step: Group)
    requires ValidPlan(plan) && e in plan.events && (e.kind == ToolCall || e.kind == ToolResult)
    ensures turn in plan.turns && step in Steps(turn) && e in step.members
    ensures |ToolDraft(plan, turn, step, e)| == 1 && ToolDraft(plan, turn, step, e)[0] in Stream(plan)
  {
    hide Stream, BundleOf, InnerOf, TurnOf, StepOf, AssistantOf, ValidPlan;
    turn, step := Located(plan, e);
    OneToolDraft(plan, turn, step, e);
    var x := ToolDraft(plan, turn, step, e)[0];
    BundleCore(plan, turn, step, e, x);
    InStream(plan, e, x);
  }

  lemma OneToolDraft(plan: Plan, turn: Group, step: Group, e: CanonicalEvent)
    requires e.kind == ToolCall || e.kind == ToolResult
    ensures |ToolDraft(plan, turn, step, e)| == 1 && ToolDraft(plan, turn, step, e)[0] in CoreOf(plan, turn, step, e)
  {
    hide AssistantOf;
    assert ToolDraft(plan, turn, step, e)[0] in ToolDraft(plan, turn, step, e);
  }

  /** Tool rows of the stream come from correlated tool events and from nothing else. */
  lemma ToolRowOrigin(plan: Plan, x: Emission) returns (e: CanonicalEvent, turn: Group, step: Group)
    requires ValidPlan(plan) && Guarded(plan.events)
    requires x in Stream(plan) && (x.row.kind == ToolCallRow || x.row.kind == ToolResultRow)
    ensures e in plan.events && turn in plan.turns && step in Steps(turn) && e in step.members
    ensures ToolDraft(plan, turn, step, e) == [x]
    ensures x.row.kind == ToolCallRow ==> MatchedCall(plan.events, e)
    ensures x.row.kind == ToolResultRow ==> MatchedResult(plan.events, e)
  {
    hide BundleOf, InnerOf, TurnOf, StepOf, CoreOf, ToolDraft, MatchedCall, MatchedResult;
    e := FromStream(plan, x);
    if !IsModel(e) {
      NoToolRows(plan, e, x);
    }
    turn, step := Located(plan, e);
    BundleCore(plan, turn, step, e, x);
    ToolRowsOfCore(plan, turn, step, e, x);
  }

  lemma BundleCore(plan: Plan, turn: Group, step: Group, e: CanonicalEvent, x: Emission)
    requires BundleOf(plan, e) == TurnOf(plan, turn, e) && InnerOf(plan, turn, e) == StepOf(plan, turn, step, e)
    ensures x in CoreOf(plan, turn, step, e) ==> x in BundleOf(plan, e)
    ensures x in BundleOf(plan, e) ==> x in CoreOf(plan, turn, step, e) || IsBoundary(x)
  {
    TurnParts(plan, turn, e, x);
    StepParts(plan, turn, step, e, x);
  }

  lemma ToolRowsOfCore(plan: Plan, turn: Group, step: Group, e: CanonicalEvent, x: Emission)
    requires x in CoreOf(plan, turn, step, e) && (x.row.kind == ToolCallRow || x.row.kind == ToolResultRow)
    ensures ToolDraft(plan, turn, step, e) == [x]
    ensures x.row.kind == ToolCallRow ==> MatchedCall(plan.events, e)
    ensures x.row.kind == ToolResultRow ==> MatchedResult(plan.events, e)
  {
    assert x in ToolDraft(plan, turn, step, e);
  }

  lemma NoToolRows(plan: Plan, e: CanonicalEvent, x: Emission)
    requires Guarded(plan.events) && ValidPlan(plan)
    requires e in plan.events && !IsModel(e) && x in BundleOf(plan, e)
    ensures x.row.kind != ToolCallRow && x.row.kind != ToolResultRow
  {
    if IsUser(e) {
      TurnParts(plan, TurnAt(plan, TurnCoord(e).ordinal), e, x);
    } else if e.kind == Other {
      GroupLedByMember(plan.groups, e);
      GroupRowNeutral(plan, GroupLedBy(plan.groups, e));
    }
  }

  // ----- acceptance

  lemma SameAdvance(st: Lifecycle, a: Row, b: Row)
    requires a.kind == b.kind && a.data == b.data && (a.surface == Append <==> b.surface == Append)
    ensures Advance(st, a) == Advance(st, b)
  {
  }

  lemma {:induction false} LifecycleOfRows(rows: seq<Row>, stream: seq<Emission>)
    requires |rows| == |stream|
    requires forall i :: 0 <= i < |rows| ==> rows[i].kind == stream[i].row.kind && rows[i].data == stream[i].row.data
                                             && (rows[i].surface == Append <==> stream[i].row.surface == Append)
    ensures AdvanceAll(Ok(FRESH), rows) == Run(Ok(FRESH), stream)
  {
    hide Run;
    if rows == [] {
      RunNone(Ok(FRESH));
    } else {
      hide Advance;
      var init := stream[..|stream| - 1];
      LifecycleOfRows(rows[..|rows| - 1], init);
      assert stream == init + [Last(stream)];
      RunConcat(Ok(FRESH), init, [Last(stream)]);
      var before := Run(Ok(FRESH), init);
      if before.Ok? {
        RunOne(before.value, Last(stream));
        SameAdvance(before.value, Last(rows), Last(stream).row);
      } else {
        RunFailed(before, [Last(stream)]);
      }
    }
  }

  /** A result that was relocated names a call identifier that is not blank. */
  lemma RelocatedAnswerable(plan: Plan)
    requires ValidPlan(plan) && AllRelocatable(Stream(plan))
    ensures Answerable(plan.events)
  {
    forall e | e in plan.events && MatchedResult(plan.events, e)
      ensures NonBlank(StrictCallId(e).value)
    {
      var turn, step := ToolInStream(plan, e);
      var x := ToolDraft(plan, turn, step, e)[0];
      assert Relocatable(Stream(plan), x);
    }
  }

  /**
   * Whatever the materializer returns passes the session checker exactly when every correlated call precedes its
   * result.
   */
  lemma PortableOutputAccepted(events: seq<CanonicalEvent>, createdAt: int)
    requires Compilable(events, createdAt) && Guarded(events)
    ensures Accepted(Rows(Stream(PlanFor(events, createdAt)))) <==> CallsPrecedeResults(events)
  {
    var plan := PlanFor(events, createdAt);
    CompilablePlan(events, createdAt);
    RelocatedAnswerable(plan);
    StreamAccepted(plan);
    LifecycleOfRows(Rows(Stream(plan)), Stream(plan));
  }

  // ----- correlation

  lemma CallRowIdentity(plan: Plan, turn: Group, step: Group, c: CanonicalEvent)
    requires Answerable(plan.events) && c in plan.events && MatchedCall(plan.events, c)
    ensures CallIdOf(c) == StrictCallId(c).value
            && CarriesCall(ToolDraft(plan, turn, step, c)[0].row, StrictCallId(c).value)
            && ToolDraft(plan, turn, step, c)[0].source == c.sequence
  {
    BlankFree(plan, c);
  }

  /** A result of the stream was matched, and waits for the call of its identifier. */
  lemma ResultOrigin(plan: Plan, x: Emission) returns (r: CanonicalEvent, id: string)
    requires ValidPlan(plan) && Guarded(plan.events) && Answerable(plan.events) && x in Stream(plan)
            && x.row.kind == ToolResultRow
    ensures r in plan.events && MatchedResult(plan.events, r) && StrictCallId(r) == Some(id) && x.source == r.sequence
    ensures x.resultCallId == Some(id) && AnsweredCall(x.row) == Some(id)
  {
    hide Stream, ValidPlan, Guarded, Answerable, Matched;
    var turn, step;
    r, turn, step := ToolRowOrigin(plan, x);
    id := StrictCallId(r).value;
    BlankFree(plan, r);
  }

  /** A relocated result names the last call row of its identifier. */
  lemma RelocatedResult(stream: seq<Emission>, j: nat, id: string) returns (i: nat)
    requires AllRelocatable(stream) && j < |stream| && stream[j].resultCallId == Some(id)
    ensures i < |stream| && Rows(stream)[j].sourceSeqs == Some([i]) && CarriesCall(stream[i].row, id)
    ensures AnsweredCall(Rows(stream)[j]) == AnsweredCall(stream[j].row)
    ensures forall k :: 0 <= k < |stream| ==>
              Rows(stream)[k].kind == stream[k].row.kind && Rows(stream)[k].data == stream[k].row.data
                  && Rows(stream)[k].seqNumber == k
  {
    hide CarriesCall, AnsweredCall;
    assert stream[j] in stream && Relocatable(stream, stream[j]);
    i := CallIndex(stream, id).value;
    forall k | 0 <= k < |stream|
      ensures Rows(stream)[k] == Relocate(stream, stream[k], k)
    {
      assert stream[k] in stream;
    }
    SameAnswer(stream[j].row, Rows(stream)[j]);
  }

  lemma SameAnswer(a: Row, b: Row)
    requires a.data == b.data
    ensures AnsweredCall(a) == AnsweredCall(b)
  {
  }

  /**
   * In the output a tool result names exactly the row of its call, and that row lies before it when the call came
   * first.
   */
  lemma ResultNamesItsCall(events: seq<CanonicalEvent>, createdAt: int, j: nat) returns (i: nat)
    requires Compilable(events, createdAt) && Guarded(events)
    requires var rows := Rows(Stream(PlanFor(events, createdAt))); j < |rows| && rows[j].kind == ToolResultRow
    ensures var rows := Rows(Stream(PlanFor(events, createdAt)));
            && i < |rows|
            && rows[j].sourceSeqs == Some([i])
            && rows[i].kind == ToolCallRow
            && rows[i].seqNumber == i
            && rows[i].data.callId.Some? && rows[i].data.callId == AnsweredCall(rows[j])
            && (forall k :: 0 <= k < |rows| && rows[k].kind == ToolCallRow && rows[k].data.callId == rows[i].data.callId
                 ==> k == i)
            && (CallsPrecedeResults(events) ==> i < j)
  {
    hide TurnPlannable, Stream, MatchedCall, PushAll, ValidPlan, Guarded, CallsPrecedeResults, Answerable, Matched,
        MatchedResult;
    hide AnsweredCall, CallIndex, PlanFor, Relocate;
    var plan := PlanFor(events, createdAt);
    SamePlanEvents(events, createdAt);
    CompilablePlan(events, createdAt);
    RelocatedAnswerable(plan);
    assert Stream(plan)[j] in Stream(plan) && Rows(Stream(plan))[j] == Relocate(Stream(plan), Stream(plan)[j], j);
    SameRow(Stream(plan), j);
    var r, id := ResultOrigin(plan, Stream(plan)[j]);
    i := RelocatedResult(Stream(plan), j, id);
    CallRowsUnique(plan, i, id);
    if CallsPrecedeResults(events) {
      CallBeforeResult(plan, i, j, r, id);
    }
  }

  lemma SamePlanEvents(events: seq<CanonicalEvent>, createdAt: int)
    ensures PlanFor(events, createdAt).events == events && PlanFor(events, createdAt).turns == Turns(events)
  {
  }

  lemma SameRow(stream: seq<Emission>, j: nat)
    requires AllRelocatable(stream) && j < |stream|
    ensures Rows(stream)[j].kind == stream[j].row.kind && Rows(stream)[j].data == stream[j].row.data
  {
    assert stream[j] in stream;
  }

  lemma CallBeforeResult(plan: Plan, i: nat, j: nat, r: CanonicalEvent, id: string)
    requires ValidPlan(plan) && Guarded(plan.events) && Answerable(plan.events) && CallsPrecedeResults(plan.events)
    requires i < |Stream(plan)| && j < |Stream(plan)|
    requires CarriesCall(Stream(plan)[i].row, id)
    requires r in plan.events && MatchedResult(plan.events, r) && StrictCallId(r).value == id
            && Stream(plan)[j].source == r.sequence
    ensures i < j
  {
    hide Stream, ToolDraft, Guarded, Matched;
    StreamOrdered(plan);
    assert j < i ==> Before()(Stream(plan)[j], Stream(plan)[i]);
    assert Stream(plan)[i] in Stream(plan);
    var c, turn, step := ToolRowOrigin(plan, Stream(plan)[i]);
    CallRowIdentity(plan, turn, step, c);
    MatchedCallIs(plan.events, id, c);
    assert AnsweredInOrder(plan.events, r);
  }

  /** Each identifier is carried by at most one tool/call row. */
  lemma CallRowsUnique(plan: Plan, i: nat, id: string)
    requires ValidPlan(plan) && Guarded(plan.events) && Answerable(plan.events)
    requires i < |Stream(plan)| && CarriesCall(Stream(plan)[i].row, id)
    ensures forall k ::
              && 0 <= k < |Stream(plan)|
              && Stream(plan)[k].row.kind == ToolCallRow
              && Stream(plan)[k].row.data.callId == Some(id)
              ==> k == i
  {
    var stream := Stream(plan);
    StreamOrdered(plan);
    forall k | 0 <= k < |stream| && stream[k].row.kind == ToolCallRow && stream[k].row.data.callId == Some(id)
      ensures k == i
    {
      assert stream[k] in stream && stream[i] in stream;
      var c, turn, step := ToolRowOrigin(plan, stream[k]);
      var d, turn', step' := ToolRowOrigin(plan, stream[i]);
      CallRowIdentity(plan, turn, step, c);
      CallRowIdentity(plan, turn', step', d);
      assert (k < i ==> Before()(stream[k], stream[i])) && (i < k ==> Before()(stream[i], stream[k]));
      MatchedCallIs(plan.events, id, c);
      MatchedCallIs(plan.events, id, d);
    }
  }
}
