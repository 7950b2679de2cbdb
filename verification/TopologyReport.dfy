/**
 * What a plan reports, in terms of the planned events: every reason with the events and the call it names, the calls
 * left open, the order and the numbers of the listing, and the diagnostics.
 */
module TopologyReport {
  import opened Outcomes
  import opened Sequences
  import opened Canonical
  import opened TopologyPlanner
  import opened TopologyReasons
  import opened TopologyVerdict
  import Listing = TopologyListing

  // ----- calls left open

  /** The n-th event is the first call of its identifier, and no result answers it. */
  predicate LeftOpen(planned: seq<CanonicalEvent>, n: nat)
    requires n < |planned|
  {
    && planned[n].kind == ToolCall && StrictCallId(planned[n]).Some?
    && FirstWith(planned, Calls(StrictCallId(planned[n]).value)) == Some(n)
    && IsOpen(planned, StrictCallId(planned[n]).value)
  }

  function OpenUpTo(planned: seq<CanonicalEvent>, n: nat): (r: seq<OpenCall>)
    requires n <= |planned|
  {
    if n == 0 then []
    else
      var open := LeftOpen(planned, n - 1);
      OpenUpTo(planned, n - 1)
      + if open then [OpenCall(StrictCallId(planned[n - 1]).value, planned[n - 1].id)] else []
  }

  lemma OpenMore(planned: seq<CanonicalEvent>, p: CanonicalEvent, n: nat)
    requires n < |planned|
    ensures LeftOpen(planned + [p], n)
            <==> LeftOpen(planned, n) && !(p.kind == ToolResult && StrictCallId(p) == StrictCallId(planned[n]))
  {
    hide FirstWith, AnsweredAfter;
    if planned[n].kind == ToolCall && StrictCallId(planned[n]).Some? {
      var id := StrictCallId(planned[n]).value;
      FirstMore(planned, p, Calls(id));
      AnsweredMore(planned, p, n, id);
      NoneAt(planned, Calls(id), n);
    }
  }

  lemma NoneAt(planned: seq<CanonicalEvent>, p: CanonicalEvent -> bool, n: nat)
    requires n < |planned| && p(planned[n])
    ensures FirstWith(planned, p).Some?
  {
  }

  lemma {:induction false} OpenUpToMore(planned: seq<CanonicalEvent>, p: CanonicalEvent, n: nat)
    requires n <= |planned|
    ensures OpenUpTo(planned + [p], n)
            == if p.kind == ToolResult && StrictCallId(p).Some?
               then Without(OpenUpTo(planned, n), StrictCallId(p).value)
               else OpenUpTo(planned, n)
  {
    hide LeftOpen, StrictCallId;
    if n > 0 {
      OpenUpToMore(planned, p, n - 1);
      OpenMore(planned, p, n - 1);
      assert (planned + [p])[n - 1] == planned[n - 1];
      if LeftOpen(planned, n - 1) {
        IdOfOpen(planned, n - 1);
        var id := StrictCallId(planned[n - 1]).value;
        if p.kind == ToolResult && StrictCallId(p).Some? {
          var call := OpenCall(id, planned[n - 1].id);
          WithoutMore(OpenUpTo(planned, n - 1), call, StrictCallId(p).value);
          assert StrictCallId(p) == StrictCallId(planned[n - 1]) <==> StrictCallId(p).value == id;
          assert OpenUpTo(planned, n) == OpenUpTo(planned, n - 1) + [call];
        }
      } else {
        assert OpenUpTo(planned, n) == OpenUpTo(planned, n - 1);
      }
    }
  }

  lemma WithoutMore(open: seq<OpenCall>, call: OpenCall, callId: string)
    ensures Without(open + [call], callId) == Without(open, callId) + if call.callId == callId then [] else [call]
  {
    assert (open + [call])[..|open|] == open;
  }

  lemma IdOfOpen(planned: seq<CanonicalEvent>, n: nat)
    requires n < |planned| && LeftOpen(planned, n)
    ensures StrictCallId(planned[n]).Some?
  {
  }

  lemma {:induction false} WithoutNone(open: seq<OpenCall>, callId: string)
    requires forall k :: 0 <= k < |open| ==> open[k].callId != callId
    ensures Without(open, callId) == open
  {
    if open != [] {
      WithoutNone(open[..|open| - 1], callId);
    }
  }

  lemma LastOpen(planned: seq<CanonicalEvent>, p: CanonicalEvent, tools: Tools)
    requires p.kind == ToolCall && StrictCallId(p).Some? ==> RemembersCall(tools, planned, StrictCallId(p).value)
    ensures LeftOpen(planned + [p], |planned|) <==> OpensCall(tools, p)
  {
    hide FirstWith, AnsweredAfter;
    if p.kind == ToolCall && StrictCallId(p).Some? {
      FirstMore(planned, p, Calls(StrictCallId(p).value));
      NotYetAnswered(planned + [p], StrictCallId(p).value);
    }
  }

  /** The calls reported open are, in order, the first calls of their identifiers that no result answers. */
  lemma {:induction false} OpenCallsExactly(events: seq<CanonicalEvent>)
    ensures OpenCallsOf(events) == OpenUpTo(Planned(events), |events|)
  {
    hide PlanAll, LeftOpen, PlannedEvent, RemembersCall;
    if events != [] {
      var init, e := events[..|events| - 1], Last(events);
      var s, p := PlanAll(init), PlannedEvent(PlanAll(init), e);
      OpenCallsExactly(init);
      PlanRemembers(init);
      SameCall(s, e);
      assert Planned(events) == Planned(init) + [p];
      OpenUpToMore(Planned(init), p, |init|);
      LastOpen(Planned(init), p, s.tools);
      OpenCallsListed(init);
      if p.kind == ToolResult && StrictCallId(p).Some? && !AnswersCall(s.tools, e) {
        WithoutNone(OpenCallsOf(init), StrictCallId(p).value);
      }
    }
  }

  lemma SameCall(s: Planner, e: CanonicalEvent)
    ensures var p := PlannedEvent(s, e);
            && StrictCallId(p) == StrictCallId(e) && p.kind == e.kind && p.id == e.id
            && IsConversation(p) == IsConversation(e)
  {
    hide Locate, TopologyOf;
  }

  /** While a call is open, its event is the first call of its identifier. */
  lemma CallEventIs(events: seq<CanonicalEvent>, callId: string)
    requires IsOpen(Planned(events), callId)
    ensures CallEvents(OpenCallsOf(events), callId)
            == [Planned(events)[FirstWith(Planned(events), Calls(callId)).value].id]
  {
    hide PlanAll, FirstWith, AnsweredAfter, Planned, OpenCallsOf;
    var first := FirstWith(Planned(events), Calls(callId)).value;
    OpenCallsExactly(events);
    OpenCallsListed(events);
    OpenAt(Planned(events), |events|, first);
    var open := OpenCallsOf(events);
    var k :| 0 <= k < |open| && open[k] == OpenCall(callId, Planned(events)[first].id);
    OneCallEvent(open, k);
  }

  lemma {:induction false} OpenAt(planned: seq<CanonicalEvent>, n: nat, i: nat)
    requires i < n <= |planned| && LeftOpen(planned, i)
    ensures OpenCall(StrictCallId(planned[i]).value, planned[i].id) in OpenUpTo(planned, n)
  {
    hide FirstWith, IsOpen;
    if i < n - 1 {
      OpenAt(planned, n - 1, i);
    }
  }

  // ----- reasons

  function Blame(failed: bool, code: Issue, eventIds: seq<string>, callId: Option<string>): seq<Reason> {
    if failed then [Reason(code, eventIds, callId)] else []
  }

  /** Coordinates are compared with those of the first planned event of the same ordinal, turn, step, and both. */
  function CoordinateReasons(before: seq<CanonicalEvent>, p: CanonicalEvent): seq<Reason> {
    Blame(Differs(before, AtOrdinal(TurnCoord(p).ordinal), TurnId, TurnCoord(p).id), TurnConflict, [p.id], None)
    + Blame(Differs(before, AtTurn(TurnCoord(p).id), TurnOrdinal, TurnCoord(p).ordinal), TurnConflict, [p.id], None)
    + Blame(Differs(before, AtStep(StepCoord(p).id), StepPlace, StepPlace(p)), StepConflict, [p.id], None)
    + Blame(Differs(before, AtPlace(PlaceIn(p)), StepOrdinal, StepCoord(p).ordinal), StepConflict, [p.id], None)
  }

  /** A call names itself, a result itself, and a result away from its call that call too. */
  function ToolReasons(before: seq<CanonicalEvent>, p: CanonicalEvent): seq<Reason> {
    match StrictCallId(p)
    case None => Blame(p.kind == ToolCall, MissingCallId, [p.id], None)
        + Blame(p.kind == ToolResult, MissingResultId, [p.id], None)
    case Some(id) =>
      var first := FirstWith(before, Calls(id));
      if p.kind == ToolCall then Blame(first.Some?, DuplicateCallId, [p.id], Some(id))
      else if p.kind == ToolResult && !IsOpen(before, id) then [Reason(OrphanResult, [p.id], Some(id))]
      else if p.kind == ToolResult
      then Blame(PlaceIn(before[first.value]) != PlaceIn(p), StepConflict, [before[first.value].id, p.id], Some(id))
      else []
  }

  /** What the n-th event is blamed for. */
  function ReasonsAt(events: seq<CanonicalEvent>, planned: seq<CanonicalEvent>, n: nat): seq<Reason>
    requires n < |planned| == |events|
  {
    var brought, before, p := events[n].topology, planned[..n], planned[n];
    if !IsConversation(p) then []
    else
      Blame(brought.Some? && Some(brought.value.phase) != PhaseOf(p.kind), PhaseMismatch, [p.id], None)
      + CoordinateReasons(before, p) + ToolReasons(before, p)
  }

  function ReasonsUpTo(events: seq<CanonicalEvent>, planned: seq<CanonicalEvent>, n: nat): seq<Reason>
    requires n <= |planned| == |events|
  {
    if n == 0 then [] else ReasonsUpTo(events, planned, n - 1) + ReasonsAt(events, planned, n - 1)
  }

  lemma NamedBlame(failed: bool, code: Issue, eventIds: seq<string>, callId: Option<string>)
    ensures Named(IssueIf(failed, code), eventIds, callId) == Blame(failed, code, eventIds, callId)
  {
  }

  lemma NamedConcat(a: seq<Issue>, b: seq<Issue>, eventIds: seq<string>, callId: Option<string>)
    ensures Named(a + b, eventIds, callId) == Named(a, eventIds, callId) + Named(b, eventIds, callId)
  {
  }

  lemma CoordinatesNamed(t: Tables, before: seq<CanonicalEvent>, p: CanonicalEvent)
    requires Remembers(t, before)
    ensures Named(Conflicts(t, TurnCoord(p), StepCoord(p)), [p.id], None) == CoordinateReasons(before, p)
  {
    hide FirstWith, Named, IssueIf, Blame;
    var turn, step, at := TurnCoord(p), StepCoord(p), PlaceIn(p);
    assert RecallsOrdinal(t, before, turn.ordinal) && RecallsTurn(t, before, turn.id);
    assert RecallsStep(t, before, step.id) && RecallsPlace(t, before, at);
    var a := turn.ordinal in t.turnByOrdinal && t.turnByOrdinal[turn.ordinal] != turn.id;
    var b := turn.id in t.ordinalByTurn && t.ordinalByTurn[turn.id] != turn.ordinal;
    var c := step.id in t.stepCoordinates && t.stepCoordinates[step.id] != (turn.id, step.ordinal);
    var d := at in t.stepOrdinals && t.stepOrdinals[at] != step.ordinal;
    FourNamed(a, b, c, d, [p.id]);
  }

  lemma FourNamed(a: bool, b: bool, c: bool, d: bool, eventIds: seq<string>)
    ensures Named(IssueIf(a, TurnConflict) + IssueIf(b, TurnConflict) + IssueIf(c, StepConflict)
                + IssueIf(d, StepConflict), eventIds, None)
            == Blame(a, TurnConflict, eventIds, None) + Blame(b, TurnConflict, eventIds, None)
               + Blame(c, StepConflict, eventIds, None) + Blame(d, StepConflict, eventIds, None)
  {
    hide Named, IssueIf, Blame;
    var p, q, r, s := IssueIf(a, TurnConflict), IssueIf(b, TurnConflict), IssueIf(c, StepConflict),
        IssueIf(d, StepConflict);
    NamedConcat(p + q + r, s, eventIds, None);
    NamedConcat(p + q, r, eventIds, None);
    NamedConcat(p, q, eventIds, None);
    NamedBlame(a, TurnConflict, eventIds, None);
    NamedBlame(b, TurnConflict, eventIds, None);
    NamedBlame(c, StepConflict, eventIds, None);
    NamedBlame(d, StepConflict, eventIds, None);
  }

  lemma ToolsNamed(events: seq<CanonicalEvent>, e: CanonicalEvent, p: CanonicalEvent)
    requires p.kind == e.kind && StrictCallId(p) == StrictCallId(e) && p.id == e.id
    ensures var tools := PlanAll(events).tools;
            var misplaced := AnswersCall(tools, e) && tools.pending[StrictCallId(e).value] != PlaceIn(p);
            Named(ToolIssues(tools, e, PlaceIn(p)),
                (if misplaced then CallEvents(OpenCallsOf(events), StrictCallId(e).value) else []) + [e.id],
                StrictCallId(e))
            == ToolReasons(Planned(events), p)
  {
    hide FirstWith, AnsweredAfter, PlanAll, Planned, OpenCallsOf, CallEvents, Named, StrictCallId;
    PlanRemembers(events);
    if StrictCallId(e).Some? {
      assert RemembersCall(PlanAll(events).tools, Planned(events), StrictCallId(e).value);
      if e.kind == ToolResult && IsOpen(Planned(events), StrictCallId(e).value) {
        CallEventIs(events, StrictCallId(e).value);
      }
    }
    var tools := PlanAll(events).tools;
    var misplaced := AnswersCall(tools, e) && tools.pending[StrictCallId(e).value] != PlaceIn(p);
    var ids := (if misplaced then CallEvents(OpenCallsOf(events), StrictCallId(e).value) else []) + [e.id];
    ToolIssuesNamed(tools, e, PlaceIn(p), ids);
    if misplaced {
      assert ids == [Planned(events)[FirstWith(Planned(events), Calls(StrictCallId(e).value)).value].id, p.id];
    } else {
      assert ids == [p.id];
    }
    if AnswersCall(tools, e) {
      assert ToolReasons(Planned(events), p) == Named(ToolIssues(tools, e, PlaceIn(p)), ids, StrictCallId(e));
    }
  }

  lemma ToolIssuesNamed(tools: Tools, e: CanonicalEvent, place: Place, ids: seq<string>)
    ensures var id := StrictCallId(e);
            Named(ToolIssues(tools, e, place), ids, id)
            == if e.kind == ToolCall then Blame(id.None?, MissingCallId, ids, id)
                   + Blame(id.Some? && id.value in tools.seen, DuplicateCallId, ids, id)
               else if e.kind == ToolResult then Blame(id.None?, MissingResultId, ids, id)
                   + Blame(id.Some? && id.value !in tools.pending, OrphanResult, ids, id)
                   + Blame(AnswersCall(tools, e) && tools.pending[id.value] != place, StepConflict, ids, id)
               else []
  {
    hide StrictCallId;
  }

  lemma NextReasons(init: seq<CanonicalEvent>, e: CanonicalEvent)
    ensures var p := PlannedEvent(PlanAll(init), e);
            ReasonsNext(PlanAll(init), OpenCallsOf(init), e)
            == if !IsConversation(p) then []
               else Blame(e.topology.Some? && Some(e.topology.value.phase) != PhaseOf(p.kind), PhaseMismatch, [p.id],
                       None) + CoordinateReasons(Planned(init), p) + ToolReasons(Planned(init), p)
  {
    hide PlanAll, Planned, OpenCallsOf, Locate, TopologyOf, Conflicts, ToolIssues, PlannedEvent, CoordinateReasons,
        ToolReasons, Remembers, RemembersCall, CallEvents, AnswersCall, Named, IssueIf, Blame;
    var s, p := PlanAll(init), PlannedEvent(PlanAll(init), e);
    SameCall(s, e);
    if IsConversation(e) {
      PlanRemembers(init);
      EntersItself(s, e);
      NamedConcat(IssueIf(WrongPhase(e), PhaseMismatch), Conflicts(s.tables, TurnCoord(p), StepCoord(p)), [e.id], None);
      NamedBlame(WrongPhase(e), PhaseMismatch, [e.id], None);
      CoordinatesNamed(s.tables, Planned(init), p);
      ToolsNamed(init, e, p);
    }
  }

  lemma {:induction false} ReasonsPrefix(events: seq<CanonicalEvent>, planned: seq<CanonicalEvent>, m: nat, n: nat)
    requires n <= m <= |planned| == |events|
    ensures ReasonsUpTo(events[..m], planned[..m], n) == ReasonsUpTo(events, planned, n)
  {
    hide ReasonsAt;
    if n > 0 {
      ReasonsPrefix(events, planned, m, n - 1);
      ReasonsAtPrefix(events, planned, m, n - 1);
    }
  }

  lemma ReasonsAtPrefix(events: seq<CanonicalEvent>, planned: seq<CanonicalEvent>, m: nat, n: nat)
    requires n < m <= |planned| == |events|
    ensures ReasonsAt(events[..m], planned[..m], n) == ReasonsAt(events, planned, n)
  {
    hide CoordinateReasons, ToolReasons;
    assert planned[..m][..n] == planned[..n];
  }

  lemma {:induction false} NotedExactly(events: seq<CanonicalEvent>)
    ensures NotedReasons(events) == ReasonsUpTo(events, Planned(events), |events|)
  {
    hide PlanAll, OpenCallsOf, ReasonsNext, Planned, CoordinateReasons, ToolReasons, PlannedEvent;
    if events != [] {
      var n := |events| - 1;
      var init := events[..n];
      NotedExactly(init);
      PlannedAt(events, n);
      ReasonsPrefix(events, Planned(events), n, n);
      NextReasons(init, Last(events));
      SameCall(PlanAll(init), Last(events));
    }
  }

  /**
   * The reasons against a plan are, in order, the defects of its events, each with the events and the call it is about,
   * and after them the calls left open.
   */
  lemma ReasonsExactly(events: seq<CanonicalEvent>)
    ensures ReasonsOf(events)
            == ReasonsUpTo(events, Planned(events), |events|)
               + Map(OpenUpTo(Planned(events), |events|),
                   (call: OpenCall) => Reason(UnclosedCall, [call.eventId], Some(call.callId)))
  {
    hide NotedReasons, OpenCallsOf, Planned, OpenUpTo, ReasonsUpTo;
    NotedExactly(events);
    OpenCallsExactly(events);
  }

  // ----- the listing

  /** What is listed once per key: the key and number of each listed item are those of its first event, in order. */
  ghost predicate InOrder(planned: seq<CanonicalEvent>, keys: seq<CanonicalEvent -> bool>) {
    && (forall k :: 0 <= k < |keys| ==> FirstWith(planned, keys[k]).Some?)
    && forall j, k :: 0 <= j < k < |keys| ==> FirstWith(planned, keys[j]).value < FirstWith(planned, keys[k]).value
  }

  lemma FirstMoreOrder(planned: seq<CanonicalEvent>, e: CanonicalEvent, keys: seq<CanonicalEvent -> bool>)
    requires InOrder(planned, keys)
    ensures InOrder(planned + [e], keys)
    ensures forall k :: 0 <= k < |keys| ==> FirstWith(planned + [e], keys[k]) == FirstWith(planned, keys[k])
  {
    hide FirstWith;
    forall k | 0 <= k < |keys|
      ensures FirstWith(planned + [e], keys[k]) == FirstWith(planned, keys[k])
    {
      FirstMore(planned, e, keys[k]);
    }
  }

  lemma FirstNow(planned: seq<CanonicalEvent>, e: CanonicalEvent, keys: seq<CanonicalEvent -> bool>,
      key: CanonicalEvent -> bool)
    requires InOrder(planned, keys) && key(e) && FirstWith(planned, key).None?
    ensures InOrder(planned + [e], keys + [key]) && FirstWith(planned + [e], key) == Some(|planned|)
  {
    hide FirstWith;
    FirstMoreOrder(planned, e, keys);
    FirstMore(planned, e, key);
    var more, all := planned + [e], keys + [key];
    forall k | 0 <= k < |all|
      ensures FirstWith(more, all[k]).Some?
      ensures FirstWith(more, all[k]).value < |planned| <==> k < |keys|
    {
      assert k < |keys| ==> all[k] == keys[k];
    }
  }

  function TurnKeys(turns: seq<ListedTurn>): seq<CanonicalEvent -> bool> {
    seq(|turns|, k requires 0 <= k < |turns| => AtTurn(turns[k].id))
  }

  function StepKeys(steps: seq<ListedStep>, turnId: string): seq<CanonicalEvent -> bool> {
    seq(|steps|, k requires 0 <= k < |steps| => AtPlace((turnId, steps[k].id)))
  }

  ghost predicate TurnsShown(turns: seq<ListedTurn>, planned: seq<CanonicalEvent>) {
    && InOrder(planned, TurnKeys(turns))
    && (forall k :: 0 <= k < |turns| ==>
          && FirstWith(planned, AtTurn(turns[k].id)).Some?
          && turns[k].ordinal == TurnCoord(planned[FirstWith(planned, AtTurn(turns[k].id)).value]).ordinal)
    && forall k :: 0 <= k < |turns| ==> StepsShown(turns[k].steps, planned, turns[k].id)
  }

  ghost predicate StepsShown(steps: seq<ListedStep>, planned: seq<CanonicalEvent>, turnId: string) {
    && InOrder(planned, StepKeys(steps, turnId))
    && forall k :: 0 <= k < |steps| ==>
         && FirstWith(planned, AtPlace((turnId, steps[k].id))).Some?
         && steps[k].ordinal == StepCoord(planned[FirstWith(planned, AtPlace((turnId, steps[k].id))).value]).ordinal
  }

  lemma NoneListed(planned: seq<CanonicalEvent>, some: CanonicalEvent -> bool, key: CanonicalEvent -> bool)
    requires Listing.IdsIn(planned, some) == [] && forall e :: some(e) <==> key(e)
    ensures FirstWith(planned, key).None?
  {
    var first := FirstWith(planned, key);
    if first.Some? {
      Occurs(planned, some, first.value);
    }
  }

  lemma Occurs(planned: seq<CanonicalEvent>, some: CanonicalEvent -> bool, i: nat)
    requires i < |planned| && some(planned[i])
    ensures Listing.IdsIn(planned, some) != []
  {
    FilterMembership(planned, some);
    assert planned[i] in Filter(planned, some);
  }

  lemma StepShown(steps: seq<ListedStep>, planned: seq<CanonicalEvent>, e: CanonicalEvent)
    requires IsConversation(e) && StepsShown(steps, planned, TurnCoord(e).id)
    requires Listing.ListsSteps(steps, planned, TurnCoord(e).id)
    ensures StepsShown(ListStep(steps, StepCoord(e), e.id), planned + [e], TurnCoord(e).id)
  {
    hide FirstWith, Listing.IdsIn;
    var turnId, step := TurnCoord(e).id, StepCoord(e);
    var more := ListStep(steps, step, e.id);
    OtherStepsShown(steps, planned, e, turnId);
    if StepIndex(steps, step.id).None? {
      NoneListed(planned, Listing.InStepOf(turnId, step.id), AtPlace((turnId, step.id)));
      FirstNow(planned, e, StepKeys(steps, turnId), AtPlace((turnId, step.id)));
      assert StepKeys(more, turnId) == StepKeys(steps, turnId) + [AtPlace((turnId, step.id))];
    } else {
      assert StepKeys(more, turnId) == StepKeys(steps, turnId);
    }
  }

  lemma OtherStepsShown(steps: seq<ListedStep>, planned: seq<CanonicalEvent>, e: CanonicalEvent, turnId: string)
    requires StepsShown(steps, planned, turnId)
    ensures StepsShown(steps, planned + [e], turnId)
  {
    hide FirstWith;
    var keys := StepKeys(steps, turnId);
    FirstMoreOrder(planned, e, keys);
    forall k | 0 <= k < |steps|
      ensures FirstWith(planned + [e], AtPlace((turnId, steps[k].id)))
              == FirstWith(planned, AtPlace((turnId, steps[k].id)))
    {
      assert keys[k] == AtPlace((turnId, steps[k].id));
    }
  }

  lemma TurnShown(turns: seq<ListedTurn>, planned: seq<CanonicalEvent>, e: CanonicalEvent)
    requires IsConversation(e) && TurnsShown(turns, planned) && Listing.Lists(turns, planned)
    ensures TurnsShown(ListTurn(turns, TurnCoord(e), StepCoord(e), e.id), planned + [e])
  {
    hide FirstWith, Listing.IdsIn, StepsShown, ListStep, TurnCoord, StepCoord;
    var turn := TurnCoord(e);
    var more := ListTurn(turns, turn, StepCoord(e), e.id);
    var keys := TurnKeys(turns);
    FirstMoreOrder(planned, e, keys);
    forall k | 0 <= k < |turns|
      ensures FirstWith(planned + [e], AtTurn(turns[k].id)) == FirstWith(planned, AtTurn(turns[k].id))
    {
      assert keys[k] == AtTurn(turns[k].id);
    }
    if TurnIndex(turns, turn.id).None? {
      assert Listing.Unlisted(planned, turn.id);
      NoneListed(planned, Listing.InTurnOf(turn.id), AtTurn(turn.id));
      FirstNow(planned, e, keys, AtTurn(turn.id));
      assert TurnKeys(more) == keys + [AtTurn(turn.id)];
    } else {
      assert TurnKeys(more) == keys;
    }
    forall k | 0 <= k < |more|
      ensures StepsShown(more[k].steps, planned + [e], more[k].id)
    {
      if k == |turns| {
        NoSteps(planned, turn.id);
        assert Listing.Unlisted(planned, turn.id);
        StepShown([], planned, e);
      } else if TurnIndex(turns, turn.id) == Some(k) {
        StepShown(turns[k].steps, planned, e);
      } else {
        OtherStepsShown(turns[k].steps, planned, e, turns[k].id);
      }
    }
  }

  lemma NoSteps(planned: seq<CanonicalEvent>, turnId: string)
    ensures StepsShown([], planned, turnId)
    ensures Listing.Unlisted(planned, turnId) ==> Listing.ListsSteps([], planned, turnId)
  {
  }

  lemma StillShown(turns: seq<ListedTurn>, planned: seq<CanonicalEvent>, e: CanonicalEvent)
    requires TurnsShown(turns, planned)
    ensures TurnsShown(turns, planned + [e])
  {
    hide FirstWith, StepsShown;
    var keys := TurnKeys(turns);
    FirstMoreOrder(planned, e, keys);
    forall k | 0 <= k < |turns|
      ensures FirstWith(planned + [e], AtTurn(turns[k].id)) == FirstWith(planned, AtTurn(turns[k].id))
      ensures StepsShown(turns[k].steps, planned + [e], turns[k].id)
    {
      assert keys[k] == AtTurn(turns[k].id);
      OtherStepsShown(turns[k].steps, planned, e, turns[k].id);
    }
  }

  /**
   * Turns are listed in the order of their first events, with the number that the first event shows, and so are the
   * steps of each turn.
   */
  lemma {:induction false} ListingInOrder(events: seq<CanonicalEvent>)
    ensures TurnsShown(ListingOf(events), Planned(events))
  {
    hide TurnsShown, Listing.Lists, PlanAll, Locate, TopologyOf, ListTurn, PlannedEvent;
    if events == [] {
      NoTurns();
    } else {
      var init, e := events[..|events| - 1], Last(events);
      var p := PlannedEvent(PlanAll(init), e);
      ListingInOrder(init);
      Listing.ListingIsComplete(init);
      assert Planned(events) == Planned(init) + [p];
      if IsConversation(e) {
        EntersItself(PlanAll(init), e);
        TurnShown(ListingOf(init), Planned(init), p);
      } else {
        StillShown(ListingOf(init), Planned(init), p);
      }
    }
  }

  lemma NoTurns()
    ensures TurnsShown([], [])
  {
  }

  // ----- the diagnostics

  function Carries(codes: set<Issue>): Reason -> bool {
    (r: Reason) => r.code in codes
  }

  function Number<T>(s: seq<T>, p: T -> bool): nat {
    |Filter(s, p)|
  }

  function OfKind(kind: EventKind): CanonicalEvent -> bool {
    (e: CanonicalEvent) => e.kind == kind
  }

  function StepsOf(turn: ListedTurn): seq<ListedStep> {
    turn.steps
  }

  const AGAINST_RESULTS := {MissingResultId, OrphanResult}

  const AGAINST_COORDINATES := {PhaseMismatch, TurnConflict, StepConflict}

  lemma NumberMore<T>(a: seq<T>, b: seq<T>, p: T -> bool)
    ensures Number(a + b, p) == Number(a, p) + Number(b, p)
  {
    FilterConcat(a, b, p);
  }

  lemma {:induction false} AllCount<T>(s: seq<T>, p: T -> bool)
    requires forall x :: x in s ==> p(x)
    ensures Number(s, p) == |s|
  {
    if s != [] {
      AllCount(s[..|s| - 1], p);
    }
  }

  lemma {:induction false} NoneCount<T>(s: seq<T>, p: T -> bool)
    requires forall x :: x in s ==> !p(x)
    ensures Number(s, p) == 0
  {
    if s != [] {
      NoneCount(s[..|s| - 1], p);
    }
  }

  /** How many reasons of an event are against results and against coordinates. */
  lemma NextCounts(s: Planner, open: seq<OpenCall>, e: CanonicalEvent)
    requires IsConversation(e)
    ensures var at, noted := TopologyOf(Locate(s.course, s.tools, e), e), ReasonsNext(s, open, e);
            var misplaced := AnswersCall(s.tools, e) && s.tools.pending[StrictCallId(e).value] != PlaceFor(at);
            && Number(noted, Carries(AGAINST_RESULTS))
               == (if e.kind == ToolResult && !AnswersCall(s.tools, e) then 1 else 0)
            && Number(noted, Carries(AGAINST_COORDINATES))
               == (if WrongPhase(e) then 1 else 0) + |Conflicts(s.tables, at.turn, at.step.value)|
                  + (if misplaced then 1 else 0)
  {
    hide Locate, TopologyOf, CallEvents, WrongPhase, Filter, StrictCallId;
    var at := TopologyOf(Locate(s.course, s.tools, e), e);
    var misplaced := AnswersCall(s.tools, e) && s.tools.pending[StrictCallId(e).value] != PlaceFor(at);
    var ids := (if misplaced then CallEvents(open, StrictCallId(e).value) else []) + [e.id];
    var phase, conflicts := IssueIf(WrongPhase(e), PhaseMismatch), Conflicts(s.tables, at.turn, at.step.value);
    var tools := Named(ToolIssues(s.tools, e, PlaceFor(at)), ids, StrictCallId(e));
    ConflictCounts(s.tables, phase, at.turn, at.step.value, [e.id]);
    ToolCounts(s.tools, e, PlaceFor(at), ids);
    NumberMore(Named(phase + conflicts, [e.id], None), tools, Carries(AGAINST_RESULTS));
    NumberMore(Named(phase + conflicts, [e.id], None), tools, Carries(AGAINST_COORDINATES));
  }

  lemma ConflictCounts(t: Tables, phase: seq<Issue>, turn: Coord, step: Coord, eventIds: seq<string>)
    requires forall code :: code in phase ==> code == PhaseMismatch
    ensures var noted := Named(phase + Conflicts(t, turn, step), eventIds, None);
            && Number(noted, Carries(AGAINST_RESULTS)) == 0
            && Number(noted, Carries(AGAINST_COORDINATES)) == |phase| + |Conflicts(t, turn, step)|
  {
    hide Filter;
    var conflicts := Conflicts(t, turn, step);
    var noted := Named(phase + conflicts, eventIds, None);
    assert forall code :: code in conflicts ==> code == TurnConflict || code == StepConflict;
    forall r | r in noted
      ensures r.code in AGAINST_COORDINATES && r.code !in AGAINST_RESULTS
    {
      assert r.code in phase + conflicts;
    }
    NoneCount(noted, Carries(AGAINST_RESULTS));
    AllCount(noted, Carries(AGAINST_COORDINATES));
  }

  lemma ToolCounts(tools: Tools, e: CanonicalEvent, place: Place, ids: seq<string>)
    ensures var noted := Named(ToolIssues(tools, e, place), ids, StrictCallId(e));
            && Number(noted, Carries(AGAINST_RESULTS))
               == (if e.kind == ToolResult && !AnswersCall(tools, e) then 1 else 0)
            && Number(noted, Carries(AGAINST_COORDINATES))
               == if AnswersCall(tools, e) && tools.pending[StrictCallId(e).value] != place then 1 else 0
  {
    hide StrictCallId, Filter;
    var issues := ToolIssues(tools, e, place);
    var noted := Named(issues, ids, StrictCallId(e));
    if e.kind == ToolResult && !AnswersCall(tools, e) {
      AllCount(noted, Carries(AGAINST_RESULTS));
      NoneCount(noted, Carries(AGAINST_COORDINATES));
    } else {
      NoneCount(noted, Carries(AGAINST_RESULTS));
      if e.kind == ToolResult {
        AllCount(noted, Carries(AGAINST_COORDINATES));
      } else {
        NoneCount(noted, Carries(AGAINST_COORDINATES));
      }
    }
  }

  ghost predicate Tallied(events: seq<CanonicalEvent>) {
    var c, noted := CountsOf(events), NotedReasons(events);
    && c.conversational == Number(events, IsConversation) && c.calls == Number(events, OfKind(ToolCall))
    && c.nameless == Number(events, NamelessCall())
    && c.matched + c.orphans == Number(events, OfKind(ToolResult))
    && c.orphans == Number(noted, Carries(AGAINST_RESULTS))
    && c.conflicts == Number(noted, Carries(AGAINST_COORDINATES))
  }

  function NamelessCall(): CanonicalEvent -> bool {
    (e: CanonicalEvent) => e.kind == ToolCall && StrictCallId(e).None?
  }

  lemma {:induction false} CountsTallied(events: seq<CanonicalEvent>)
    ensures Tallied(events)
  {
    hide PlanAll, Locate, TopologyOf, ReasonsNext, Conflicts, OpenCallsOf, StrictCallId, AnswersCall, WrongPhase;
    if events != [] {
      var init, e := events[..|events| - 1], Last(events);
      CountsTallied(init);
      OneTallied(events);
    }
  }

  lemma OneTallied(events: seq<CanonicalEvent>)
    requires events != [] && Tallied(events[..|events| - 1])
    ensures Tallied(events)
  {
    hide PlanAll, Locate, TopologyOf, ReasonsNext, Conflicts, OpenCallsOf, StrictCallId, WrongPhase;
    var init, e := events[..|events| - 1], Last(events);
    var s, open := PlanAll(init), OpenCallsOf(init);
    NumberMore(NotedReasons(init), ReasonsNext(s, open, e), Carries(AGAINST_RESULTS));
    NumberMore(NotedReasons(init), ReasonsNext(s, open, e), Carries(AGAINST_COORDINATES));
    if IsConversation(e) {
      NextCounts(s, open, e);
    } else {
      NoReasons(s, open, e);
    }
  }

  lemma NoReasons(s: Planner, open: seq<OpenCall>, e: CanonicalEvent)
    requires !IsConversation(e)
    ensures ReasonsNext(s, open, e) == [] && e.kind != ToolCall && e.kind != ToolResult
  {
  }

  lemma {:induction false} AsManyKeys(open: seq<OpenCall>, keys: set<string>)
    requires DistinctCalls(open) && forall id :: id in keys <==> exists k :: 0 <= k < |open| && open[k].callId == id
    ensures |keys| == |open|
  {
    if open == [] {
      assert keys == {};
    } else {
      var init, last := open[..|open| - 1], Last(open).callId;
      assert open[|open| - 1].callId == last;
      forall id
        ensures id in keys - {last} <==> exists k :: 0 <= k < |init| && init[k].callId == id
      {
        if id in keys - {last} {
          var k :| 0 <= k < |open| && open[k].callId == id;
          assert init[k].callId == id;
        }
        if k :| 0 <= k < |init| && init[k].callId == id {
          assert open[k].callId == id;
        }
      }
      AsManyKeys(init, keys - {last});
    }
  }

  lemma AsManyPending(open: seq<OpenCall>, tools: Tools)
    requires Lists(open, tools)
    ensures |tools.pending| == |open|
  {
    AsManyKeys(open, tools.pending.Keys);
    Listing.KeysSize(tools.pending);
  }

  lemma {:induction false} StepsCounted(turns: seq<ListedTurn>)
    ensures StepsIn(turns) == |FlatMap(turns, StepsOf)|
  {
    if turns != [] {
      StepsCounted(turns[..|turns| - 1]);
    }
  }

  lemma UnclosedCounts(open: seq<OpenCall>)
    ensures Number(Map(open, Unclosed), Carries(AGAINST_RESULTS)) == 0
    ensures Number(Map(open, Unclosed), Carries(AGAINST_COORDINATES)) == 0
  {
    NoneCount(Map(open, Unclosed), Carries(AGAINST_RESULTS));
    NoneCount(Map(open, Unclosed), Carries(AGAINST_COORDINATES));
  }

  /** The diagnostics number the events by kind, the listed turns and steps, and the reasons given. */
  lemma DiagnosticsExactly(events: seq<CanonicalEvent>)
    ensures var d, reasons := DiagnosticsOf(events), ReasonsOf(events);
            && d.inputEvents == |events| && d.conversational == Number(events, IsConversation)
            && d.unassigned == |events| - d.conversational
            && d.turns == |ListingOf(events)| && d.steps == |FlatMap(ListingOf(events), StepsOf)|
            && d.calls == Number(events, OfKind(ToolCall))
            && d.matched + d.orphans == Number(events, OfKind(ToolResult))
            && d.orphans == Number(reasons, Carries(AGAINST_RESULTS))
            && d.unclosed == |OpenUpTo(Planned(events), |events|)| + Number(events, NamelessCall())
            && d.conflicts == Number(reasons, Carries(AGAINST_COORDINATES))
  {
    hide PlanAll, Planned, CountsOf, NotedReasons, OpenCallsOf, ListingOf, Lists, OpenUpTo, Number;
    CountsTallied(events);
    var noted, open := NotedReasons(events), OpenCallsOf(events);
    NumberMore(noted, Map(open, Unclosed), Carries(AGAINST_RESULTS));
    NumberMore(noted, Map(open, Unclosed), Carries(AGAINST_COORDINATES));
    UnclosedCounts(open);
    OpenCallsExactly(events);
    OpenCallsListed(events);
    AsManyPending(open, PlanAll(events).tools);
    StepsCounted(ListingOf(events));
  }
}
