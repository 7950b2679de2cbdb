/** A history the planner calls eligible and the projection refuses: a user message while a call is outstanding. */
module SteeredCall {
  import opened Outcomes
  import opened Sequences
  import opened Canonical
  import opened CoordinateRuns
  import opened PortableEmission
  import opened Materialize
  import opened TopologyPlanner
  import opened TopologyOutline
  import opened TopologySteps
  import opened SteeringCrossing
  import opened PlannedProjection

  const TURN := Coord("t", 0)

  function InTurn(id: string, sequence: int, kind: EventKind, phase: Phase): CanonicalEvent {
    CanonicalEvent(id, sequence, kind, Some(Topology(TURN, None, phase)),
                   Content(MessageView(None, None, Some("m"), None, NoSource, None, None), None,
                           ToolView(Some("c"), Some("n"), Some("a"), Some("o"), false), ""),
                   NoRaw)
  }

  const CALL := InTurn("k", 0, ToolCall, ToolCallPhase)
  const STEER := InTurn("u", 1, UserMessage, UserPhase)
  const ANSWER := InTurn("a", 2, AssistantMessage, AssistantPhase)
  const RESULT := InTurn("r", 3, ToolResult, ToolResultPhase)
  const STEERED := [CALL, STEER, ANSWER, RESULT]

  const STEP := DerivedStep("t", 0)
  const PLACE: Place := (TURN.id, STEP.id)

  /** The planner in the first step of the turn, with the call open or answered. */
  ghost predicate InStep(s: Planner, open: bool) {
    && s.course == Course(Some(Cursor(TURN, STEP)), 1, !open) && s.issues == []
    && s.tables == Register(START.tables, TURN, STEP)
    && s.tools == if open then Tools.Tools(map["c" := PLACE], map[PLACE := 1], {PLACE}, {"c"})
                  else Tools.Tools(map[], map[], {PLACE}, {"c"})
  }

  lemma CallOpens()
    ensures InStep(PlanNext(START, CALL), true)
  {
    hide StepId;
  }

  /** The open call keeps message and answer in its step. */
  lemma CallHolds(s: Planner, e: CanonicalEvent)
    requires InStep(s, true) && (e == STEER || e == ANSWER)
    ensures InStep(PlanNext(s, e), true)
    ensures PlannedEvent(s, e).topology == Some(Topology(TURN, Some(STEP), PhaseOf(e.kind).value))
  {
    hide StepId;
  }

  lemma ResultCloses(s: Planner)
    requires InStep(s, true)
    ensures InStep(PlanNext(s, RESULT), false)
  {
    hide StepId;
    assert map["c" := PLACE] - {"c"} == map[] && map[PLACE := 1 as nat] - {PLACE} == map[];
  }

  lemma Prefixes()
    ensures STEERED[..4] == STEERED && STEERED[..3] == [CALL, STEER, ANSWER] && STEERED[..2] == [CALL, STEER]
    ensures STEERED[..1] == [CALL] && STEERED[..0] == []
  {
  }

  lemma PlanOne(events: seq<CanonicalEvent>, e: CanonicalEvent)
    ensures PlanAll(events + [e]) == PlanNext(PlanAll(events), e)
  {
    assert (events + [e])[..|events|] == events;
  }

  lemma SteeredPlan()
    ensures InStep(PlanAll([CALL]), true) && InStep(PlanAll([CALL, STEER]), true) && Eligible(STEERED)
  {
    hide PlanNext, PlanAll;
    assert [] + [CALL] == [CALL] && [CALL] + [STEER] == [CALL, STEER];
    assert [CALL, STEER] + [ANSWER] == [CALL, STEER, ANSWER] && [CALL, STEER, ANSWER] + [RESULT] == STEERED;
    StartsEmpty();
    PlanOne([], CALL);
    CallOpens();
    PlanOne([CALL], STEER);
    CallHolds(PlanAll([CALL]), STEER);
    PlanOne([CALL, STEER], ANSWER);
    CallHolds(PlanAll([CALL, STEER]), ANSWER);
    PlanOne([CALL, STEER, ANSWER], RESULT);
    ResultCloses(PlanAll([CALL, STEER, ANSWER]));
  }

  lemma StartsEmpty()
    ensures PlanAll([]) == START
  {
  }

  /** The message finds the call open, and the answer follows in the step of the call. */
  lemma SteeredSteers()
    ensures SteersInto(STEERED, TURN, STEP, 1, 2)
  {
    hide PlanAll, PlanNext, Planned, PlannedEvent, StepId;
    Prefixes();
    SteeredPlan();
    PlannedAt(STEERED, 1);
    PlannedAt(STEERED, 2);
    CallHolds(PlanAll([CALL]), STEER);
    CallHolds(PlanAll([CALL, STEER]), ANSWER);
    OutlineFollowsPlanner([CALL]);
    FewerIssues(STEERED, 1);
    WaitingIsOutstanding([CALL], PLACE);
  }

  lemma SteeredIds()
    ensures DistinctIds(STEERED) && InOrder(STEERED) && forall id :: IsFree(STEERED, id)
  {
    assert "k"[0] != "u"[0] && "k"[0] != "a"[0] && "k"[0] != "r"[0] && "u"[0] != "a"[0] && "u"[0] != "r"[0]
        && "a"[0] != "r"[0];
  }

  /** Eligible, in sequence, and refused. */
  lemma SteeredCallIsRefused(createdAt: int)
    ensures Eligible(STEERED) && !PortableProjection(Applied(STEERED), createdAt)
  {
    hide PlanAll, Planned, Applied, Eligible, StepId, SteersInto, IsFree, Turns, Steps, InSequence, TurnsInSequence,
        CrossesSteering, InOrder, DistinctIds, Numbered;
    SteeredPlan();
    SteeredIds();
    SteeredSteers();
    AppliedIsPlanned(STEERED);
    if PortableProjection(Applied(STEERED), createdAt) {
      ProjectedComeInSequence(STEERED, createdAt);
      EachInSequence(STEERED, "");
      var turn, step := WhereItLands(STEERED, 2, TURN, STEP);
      FreeTurnCrossesExactly(STEERED, turn, step);
      SamePlan(Planned(STEERED), createdAt);
    }
  }

  lemma WhereItLands(events: seq<CanonicalEvent>, j: nat, turn: Coord, step: Coord) returns (t: Group, s: Group)
    requires exists i :: SteersInto(events, turn, step, i, j)
    ensures t in Turns(Planned(events)) && t.coord == turn && s in Steps(t) && s.coord == step
  {
    hide Planned;
    var e := Planned(events)[j];
    PlannedSequences(events);
    FilterMembership(Planned(events), IsConversation);
    RunCoordOf(Filter(Planned(events), IsConversation), TurnCoord, e);
    var k :| 0 <= k < |Turns(Planned(events))| && Turns(Planned(events))[k].coord == turn
        && e in Turns(Planned(events))[k].members;
    t := Turns(Planned(events))[k];
    FilterMembership(t.members, IsModel);
    RunCoordOf(Filter(t.members, IsModel), StepCoord, e);
    var l :| 0 <= l < |Steps(t)| && Steps(t)[l].coord == step && e in Steps(t)[l].members;
    s := Steps(t)[l];
  }
}
