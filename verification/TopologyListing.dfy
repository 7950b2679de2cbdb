/**
 * What a plan lists and counts: every planned event once under its turn and step, and every tool call accounted for.
 */
module TopologyListing {
  import opened Outcomes
  import opened Sequences
  import opened Canonical
  import opened TopologyPlanner

  function EventId(e: CanonicalEvent): string {
    e.id
  }

  function InTurnOf(turnId: string): CanonicalEvent -> bool {
    (e: CanonicalEvent) => IsConversation(e) && TurnCoord(e).id == turnId
  }

  function InStepOf(turnId: string, stepId: string): CanonicalEvent -> bool {
    (e: CanonicalEvent) => IsConversation(e) && TurnCoord(e).id == turnId && StepCoord(e).id == stepId
  }

  function IdsIn(planned: seq<CanonicalEvent>, p: CanonicalEvent -> bool): seq<string> {
    Map(Filter(planned, p), EventId)
  }

  lemma IdsMore(planned: seq<CanonicalEvent>, e: CanonicalEvent, p: CanonicalEvent -> bool)
    ensures IdsIn(planned + [e], p) == IdsIn(planned, p) + if p(e) then [e.id] else []
  {
    assert (planned + [e])[..|planned|] == planned;
  }

  /** The steps of a turn hold its planned events by step identity, and miss none. */
  ghost predicate ListsSteps(steps: seq<ListedStep>, planned: seq<CanonicalEvent>, turnId: string) {
    && (forall j, k :: 0 <= j < k < |steps| ==> steps[j].id != steps[k].id)
    && (forall k :: 0 <= k < |steps| ==> steps[k].eventIds == IdsIn(planned, InStepOf(turnId, steps[k].id)))
    && forall id :: (forall k :: 0 <= k < |steps| ==> steps[k].id != id) ==> IdsIn(planned, InStepOf(turnId, id)) == []
  }

  ghost predicate ListsTurn(turn: ListedTurn, planned: seq<CanonicalEvent>) {
    turn.eventIds == IdsIn(planned, InTurnOf(turn.id)) && ListsSteps(turn.steps, planned, turn.id)
  }

  ghost predicate Unlisted(planned: seq<CanonicalEvent>, turnId: string) {
    IdsIn(planned, InTurnOf(turnId)) == [] && forall stepId :: IdsIn(planned, InStepOf(turnId, stepId)) == []
  }

  ghost predicate Lists(turns: seq<ListedTurn>, planned: seq<CanonicalEvent>) {
    && (forall j, k :: 0 <= j < k < |turns| ==> turns[j].id != turns[k].id)
    && (forall k :: 0 <= k < |turns| ==> ListsTurn(turns[k], planned))
    && forall id :: (forall k :: 0 <= k < |turns| ==> turns[k].id != id) ==> Unlisted(planned, id)
  }

  ghost predicate DistinctSteps(steps: seq<ListedStep>) {
    forall j, k :: 0 <= j < k < |steps| ==> steps[j].id != steps[k].id
  }

  /** One more event enters the step of its identity, or opens it at the end. */
  lemma StepEntered(steps: seq<ListedStep>, step: Coord, eventId: string) returns (at: nat)
    requires DistinctSteps(steps)
    ensures var more := ListStep(steps, step, eventId);
            && DistinctSteps(more) && at < |more| <= |steps| + 1 && |steps| <= |more| && more[at].id == step.id
            && more[at].eventIds == (if at < |steps| then steps[at].eventIds else []) + [eventId]
            && (forall k :: 0 <= k < |more| && k != at ==> k < |steps| && more[k] == steps[k])
            && (at < |steps| ==> more[at].id == steps[at].id)
    ensures at == |steps| ==> forall k :: 0 <= k < |steps| ==> steps[k].id != step.id
  {
    var found := StepIndex(steps, step.id);
    at := if found.Some? then found.value else |steps|;
    assert [eventId] == [] + [eventId];
  }

  lemma StepListed(steps: seq<ListedStep>, planned: seq<CanonicalEvent>, e: CanonicalEvent)
    requires ListsSteps(steps, planned, TurnCoord(e).id) && IsConversation(e)
    ensures ListsSteps(ListStep(steps, StepCoord(e), e.id), planned + [e], TurnCoord(e).id)
  {
    hide TurnCoord, StepCoord, IdsIn, IsConversation, ListStep;
    var turnId, step := TurnCoord(e).id, StepCoord(e);
    assert DistinctSteps(steps);
    var at := StepEntered(steps, step, e.id);
    var more := ListStep(steps, step, e.id);
    forall id
      ensures IdsIn(planned + [e], InStepOf(turnId, id)) == IdsIn(planned, InStepOf(turnId, id))
              + if step.id == id then [e.id] else []
    {
      IdsMore(planned, e, InStepOf(turnId, id));
    }
    forall k | 0 <= k < |more|
      ensures more[k].eventIds == IdsIn(planned + [e], InStepOf(turnId, more[k].id))
    {
      if k != at {
        assert more[k].id != more[at].id;
      }
    }
    forall id | forall k :: 0 <= k < |more| ==> more[k].id != id
      ensures IdsIn(planned + [e], InStepOf(turnId, id)) == []
    {
      assert more[at].id != id;
      forall k | 0 <= k < |steps|
        ensures steps[k].id != id
      {
        assert more[k].id == steps[k].id;
      }
    }
  }

  lemma OtherSteps(steps: seq<ListedStep>, planned: seq<CanonicalEvent>, e: CanonicalEvent, turnId: string)
    requires ListsSteps(steps, planned, turnId) && (IsConversation(e) ==> TurnCoord(e).id != turnId)
    ensures ListsSteps(steps, planned + [e], turnId)
  {
    hide TurnCoord, StepCoord, IdsIn, IsConversation;
    forall id
      ensures IdsIn(planned + [e], InStepOf(turnId, id)) == IdsIn(planned, InStepOf(turnId, id))
    {
      IdsMore(planned, e, InStepOf(turnId, id));
    }
  }

  lemma NewTurnListed(planned: seq<CanonicalEvent>, e: CanonicalEvent)
    requires IsConversation(e) && Unlisted(planned, TurnCoord(e).id)
    ensures ListsTurn(ListedTurn(TurnCoord(e).id, TurnCoord(e).ordinal, [e.id], ListStep([], StepCoord(e), e.id)),
            planned + [e])
  {
    hide IdsIn, ListStep;
    IdsMore(planned, e, InTurnOf(TurnCoord(e).id));
    StepListed([], planned, e);
  }

  lemma SameTurnListed(turn: ListedTurn, planned: seq<CanonicalEvent>, e: CanonicalEvent)
    requires IsConversation(e) && ListsTurn(turn, planned) && turn.id == TurnCoord(e).id
    ensures ListsTurn(turn.(eventIds := turn.eventIds + [e.id], steps := ListStep(turn.steps, StepCoord(e), e.id)),
            planned + [e])
  {
    hide IdsIn, ListStep;
    IdsMore(planned, e, InTurnOf(turn.id));
    StepListed(turn.steps, planned, e);
  }

  lemma OtherTurnListed(turn: ListedTurn, planned: seq<CanonicalEvent>, e: CanonicalEvent)
    requires ListsTurn(turn, planned) && (IsConversation(e) ==> turn.id != TurnCoord(e).id)
    ensures ListsTurn(turn, planned + [e])
  {
    hide IdsIn;
    IdsMore(planned, e, InTurnOf(turn.id));
    OtherSteps(turn.steps, planned, e, turn.id);
  }

  lemma StillUnlisted(planned: seq<CanonicalEvent>, e: CanonicalEvent, turnId: string)
    requires Unlisted(planned, turnId) && (IsConversation(e) ==> turnId != TurnCoord(e).id)
    ensures Unlisted(planned + [e], turnId)
  {
    hide IdsIn;
    IdsMore(planned, e, InTurnOf(turnId));
    forall stepId
      ensures IdsIn(planned + [e], InStepOf(turnId, stepId)) == []
    {
      IdsMore(planned, e, InStepOf(turnId, stepId));
    }
  }

  lemma TurnListed(turns: seq<ListedTurn>, planned: seq<CanonicalEvent>, e: CanonicalEvent)
    requires Lists(turns, planned) && IsConversation(e)
    ensures Lists(ListTurn(turns, TurnCoord(e), StepCoord(e), e.id), planned + [e])
  {
    hide TurnCoord, StepCoord, IsConversation, ListStep, ListsTurn, Unlisted;
    var turn := TurnCoord(e);
    var more := ListTurn(turns, turn, StepCoord(e), e.id);
    forall k | 0 <= k < |more|
      ensures ListsTurn(more[k], planned + [e])
      ensures k < |turns| ==> more[k].id == turns[k].id
    {
      if k == |turns| {
        NewTurnListed(planned, e);
      } else if TurnIndex(turns, turn.id) == Some(k) {
        SameTurnListed(turns[k], planned, e);
      } else {
        OtherTurnListed(turns[k], planned, e);
      }
    }
    forall id | forall k :: 0 <= k < |more| ==> more[k].id != id
      ensures Unlisted(planned + [e], id)
    {
      forall k | 0 <= k < |turns|
        ensures turns[k].id != id
      {
        assert more[k].id == turns[k].id;
      }
      var at := TurnIndex(turns, turn.id);
      assert more[if at.Some? then at.value else |turns|].id == turn.id;
      StillUnlisted(planned, e, id);
    }
  }

  lemma NotListed(turns: seq<ListedTurn>, planned: seq<CanonicalEvent>, e: CanonicalEvent)
    requires Lists(turns, planned) && !IsConversation(e)
    ensures Lists(turns, planned + [e])
  {
    hide IsConversation, ListsTurn, Unlisted;
    forall k | 0 <= k < |turns|
      ensures ListsTurn(turns[k], planned + [e])
    {
      OtherTurnListed(turns[k], planned, e);
    }
    forall id | forall k :: 0 <= k < |turns| ==> turns[k].id != id
      ensures Unlisted(planned + [e], id)
    {
      StillUnlisted(planned, e, id);
    }
  }

  /** A plan lists each turn once with exactly its planned events in order, and within it each step likewise. */
  lemma {:induction false} ListingIsComplete(events: seq<CanonicalEvent>)
    ensures Lists(ListingOf(events), Planned(events))
  {
    hide Lists, PlanNext, Locate, ListTurn;
    if events == [] {
      NothingListed();
    } else {
      var init, e := events[..|events| - 1], Last(events);
      ListingIsComplete(init);
      var p := PlannedEvent(PlanAll(init), e);
      assert Planned(events) == Planned(init) + [p];
      if IsConversation(e) {
        TurnListed(ListingOf(init), Planned(init), p);
      } else {
        NotListed(ListingOf(init), Planned(init), p);
      }
    }
  }

  lemma NothingListed()
    ensures Lists([], [])
  {
  }

  // ----- tool calls

  function Duplicates(issues: seq<Issue>): nat {
    multiset(issues)[DuplicateCallId]
  }

  /** Calls are matched, waiting, without identity, or repeated. */
  ghost predicate Accounted(s: Planner, counts: Counts) {
    && s.tools.pending.Keys <= s.tools.seen
    && counts.calls == counts.matched + |s.tools.pending| + counts.nameless + Duplicates(s.issues)
  }

  lemma DuplicatesMore(a: seq<Issue>, b: seq<Issue>)
    ensures Duplicates(a + b) == Duplicates(a) + Duplicates(b)
  {
  }

  lemma NoDuplicates(issues: seq<Issue>)
    requires DuplicateCallId !in issues
    ensures Duplicates(issues) == 0
  {
  }

  lemma OneIssue(failed: bool, issue: Issue)
    ensures Duplicates(IssueIf(failed, issue)) == if failed && issue == DuplicateCallId then 1 else 0
    ensures |IssueIf(failed, issue)| == if failed then 1 else 0
  {
  }

  lemma DuplicatesOfTools(tools: Tools, e: CanonicalEvent, place: Place)
    ensures Duplicates(ToolIssues(tools, e, place)) == if e.kind == ToolCall && StrictCallId(e).Some?
            && StrictCallId(e).value in tools.seen then 1 else 0
  {
    hide StrictCallId, IssueIf, Duplicates;
    if e.kind == ToolCall {
      var a, b := IssueIf(StrictCallId(e).None?, MissingCallId),
          IssueIf(StrictCallId(e).Some? && StrictCallId(e).value in tools.seen, DuplicateCallId);
      DuplicatesMore(a, b);
      OneIssue(StrictCallId(e).None?, MissingCallId);
      OneIssue(StrictCallId(e).Some? && StrictCallId(e).value in tools.seen, DuplicateCallId);
    } else if e.kind == ToolResult {
      NoDuplicatesIn(tools, e, place);
    } else {
      NoDuplicates([]);
    }
  }

  lemma NoDuplicatesIn(tools: Tools, e: CanonicalEvent, place: Place)
    requires e.kind == ToolResult
    ensures Duplicates(ToolIssues(tools, e, place)) == 0
  {
    hide StrictCallId;
    NoDuplicates(ToolIssues(tools, e, place));
  }

  lemma NewDuplicates(s: Planner, e: CanonicalEvent)
    requires IsConversation(e)
    ensures Duplicates(PlanNext(s, e).issues) ==
              Duplicates(s.issues)
                  + if e.kind == ToolCall && StrictCallId(e).Some?
                  && StrictCallId(e).value in s.tools.seen then 1 else 0
  {
    hide StrictCallId, Duplicates, ToolIssues, Conflicts, Locate, Track, Register, IssueIf;
    var topology := TopologyOf(Locate(s.course, s.tools, e), e);
    var phase := IssueIf(WrongPhase(e), PhaseMismatch);
    var conflicts := Conflicts(s.tables, topology.turn, topology.step.value);
    var tools := ToolIssues(s.tools, e, PlaceFor(topology));
    OneIssue(WrongPhase(e), PhaseMismatch);
    ConflictsAreNot(s.tables, topology.turn, topology.step.value);
    DuplicatesOfTools(s.tools, e, PlaceFor(topology));
    DuplicatesMore(phase, conflicts);
    DuplicatesMore(phase + conflicts, tools);
    DuplicatesMore(s.issues, phase + conflicts + tools);
  }

  lemma ConflictsAreNot(t: Tables, turn: Coord, step: Coord)
    ensures Duplicates(Conflicts(t, turn, step)) == 0
  {
    NoDuplicates(Conflicts(t, turn, step));
  }

  lemma PendingSize(tools: Tools, e: CanonicalEvent, place: Place)
    requires tools.pending.Keys <= tools.seen
    ensures Track(tools, e, place).pending.Keys <= Track(tools, e, place).seen
    ensures |Track(tools, e, place).pending| ==
              |tools.pending| + (if OpensCall(tools, e) then 1 else 0) - (if AnswersCall(tools, e) then 1 else 0)
  {
    hide StrictCallId;
    var next := Track(tools, e, place);
    if OpensCall(tools, e) {
      assert next.pending.Keys == tools.pending.Keys + {StrictCallId(e).value};
    } else if AnswersCall(tools, e) {
      assert next.pending.Keys == tools.pending.Keys - {StrictCallId(e).value};
    }
    KeysSize(next.pending);
    KeysSize(tools.pending);
  }

  lemma KeysSize(m: map<string, Place>)
    ensures |m| == |m.Keys|
  {
  }

  lemma OneAccounted(s: Planner, counts: Counts, e: CanonicalEvent)
    requires Accounted(s, counts)
    ensures Accounted(PlanNext(s, e), CountOne(s, counts, e))
  {
    hide StrictCallId, Duplicates, ToolIssues, Conflicts, Locate, Track, Register;
    if IsConversation(e) {
      NewDuplicates(s, e);
      PendingSize(s.tools, e, PlaceFor(TopologyOf(Locate(s.course, s.tools, e), e)));
    }
  }

  /** The diagnostics add up: every tool call is matched, unclosed or repeated. */
  lemma {:induction false} CallsAreAccounted(events: seq<CanonicalEvent>)
    ensures Accounted(PlanAll(events), CountsOf(events))
    ensures DiagnosticsOf(events).calls
            == DiagnosticsOf(events).matched + DiagnosticsOf(events).unclosed + Duplicates(PlanAll(events).issues)
  {
    hide PlanNext, CountOne, Duplicates;
    if events == [] {
      NoDuplicates([]);
    } else {
      CallsAreAccounted(events[..|events| - 1]);
      OneAccounted(PlanAll(events[..|events| - 1]), CountsOf(events[..|events| - 1]), Last(events));
    }
  }

  /** In an eligible plan the diagnostics show as many results as calls and nothing amiss. */
  lemma {:induction false} NothingAmiss(events: seq<CanonicalEvent>)
    requires PlanAll(events).issues == []
    ensures CountsOf(events).nameless == 0 && CountsOf(events).orphans == 0 && CountsOf(events).conflicts == 0
  {
    hide Locate, Track, Register;
    if events != [] {
      NothingAmiss(events[..|events| - 1]);
    }
  }

  lemma EligibleDiagnostics(events: seq<CanonicalEvent>)
    requires Eligible(events)
    ensures var d := DiagnosticsOf(events);
            d.calls == d.matched && d.unclosed == 0 && d.orphans == 0 && d.conflicts == 0
  {
    hide CountsOf, PlanAll;
    CallsAreAccounted(events);
    NothingAmiss(events);
    NoDuplicates([]);
  }
}
