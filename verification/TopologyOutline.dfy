/**
 * When planned turns and steps are the ones the projection collects: exactly when one pass over the input, which keeps
 * the coordinates met so far and the place where an event without its own would go, finds every event at the last
 * coordinate or at the next one.
 */
module TopologyOutline {
  import opened Sequences
  import opened Canonical
  import opened CoordinateRuns
  import opened PortableEmission
  import opened TopologyPlanner

  /** The last coordinate met, or one with the next ordinal and an identity not met. */
  predicate Continues(known: seq<Coord>, c: Coord) {
    || (known != [] && Last(known) == c)
    || (c.ordinal == |known| && forall k :: 0 <= k < |known| ==> known[k].id != c.id)
  }

  function Entered(known: seq<Coord>, c: Coord): seq<Coord> {
    if known != [] && Last(known) == c then known else known + [c]
  }

  /** The turns met, the steps of the last one that have model events, where the planner stands, and its calls. */
  datatype Outline = Outline(turns: seq<Coord>, steps: seq<Coord>, course: Course, tools: Tools)

  const BLANK := Outline([], [], START.course, START.tools)

  /** Where an event goes: to its own coordinates, or to those carried over from earlier events. */
  function Landing(o: Outline, e: CanonicalEvent): (r: Topology)
    requires IsConversation(e)
    ensures r.step.Some?
  {
    TopologyOf(Locate(o.course, o.tools, e), e)
  }

  function StepsThere(o: Outline, turn: Coord): seq<Coord> {
    if o.turns != [] && Last(o.turns) == turn then o.steps else []
  }

  predicate TurnFits(o: Outline, e: CanonicalEvent) {
    IsConversation(e) ==> Continues(o.turns, Landing(o, e).turn)
  }

  predicate StepFits(o: Outline, e: CanonicalEvent) {
    IsModel(e) ==> Continues(StepsThere(o, Landing(o, e).turn), Landing(o, e).step.value)
  }

  function OutlineNext(o: Outline, e: CanonicalEvent): Outline {
    if !IsConversation(e) then o
    else
      var at := Landing(o, e);
      var there := StepsThere(o, at.turn);
      var course := Locate(o.course, o.tools, e);
      Outline(Entered(o.turns, at.turn),
              if IsModel(e) then Entered(there, at.step.value) else there,
              course.(advance := course.advance || CompletesStep(o.tools, e, PlaceFor(at))),
              Track(o.tools, e, PlaceFor(at)))
  }

  function OutlineOf(events: seq<CanonicalEvent>): Outline {
    if events == [] then BLANK else OutlineNext(OutlineOf(events[..|events| - 1]), Last(events))
  }

  /** No event returns to an earlier turn, skips one, or takes the identity of another. */
  predicate TurnsInSequence(events: seq<CanonicalEvent>) {
    events == []
    || (TurnsInSequence(events[..|events| - 1]) && TurnFits(OutlineOf(events[..|events| - 1]), Last(events)))
  }

  /** The same of the steps of one turn, for its model events. */
  predicate StepsInSequence(events: seq<CanonicalEvent>, turnId: string) {
    events == []
    || (var init, e := events[..|events| - 1], Last(events);
        && StepsInSequence(init, turnId)
        && (IsModel(e) && Landing(OutlineOf(init), e).turn.id == turnId ==> StepFits(OutlineOf(init), e)))
  }

  predicate InSequence(events: seq<CanonicalEvent>) {
    events == []
    || (var o := OutlineOf(events[..|events| - 1]);
        InSequence(events[..|events| - 1]) && TurnFits(o, Last(events)) && StepFits(o, Last(events)))
  }

  // ----- coordinates of groups

  function CoordOf(): Group -> Coord {
    (g: Group) => g.coord
  }

  function Coords(groups: seq<Group>): seq<Coord> {
    Map(groups, CoordOf())
  }

  lemma ExtendedCoords(runs: seq<Group>, c: Coord, e: CanonicalEvent)
    ensures Coords(Extend(runs, c, e)) == Entered(Coords(runs), c)
  {
    var more := Extend(runs, c, e);
    assert runs != [] ==> Last(Coords(runs)) == Last(runs).coord;
    assert forall k :: 0 <= k < |Entered(Coords(runs), c)| ==> Coords(more)[k] == Entered(Coords(runs), c)[k];
  }

  /** Numbered groups stay numbered exactly when they are continued. */
  lemma ExtendedNumbered(runs: seq<Group>, c: Coord, e: CanonicalEvent)
    ensures Numbered(Extend(runs, c, e)) <==> Numbered(runs) && Continues(Coords(runs), c)
  {
    var more := Extend(runs, c, e);
    assert forall k :: 0 <= k < |runs| ==> more[k].coord == runs[k].coord && Coords(runs)[k] == runs[k].coord;
    if runs != [] && Last(runs).coord == c {
      assert |more| == |runs|;
      if Numbered(more) {
        assert Numbered(runs);
      }
    } else {
      assert more[|runs|].coord == c && |more| == |runs| + 1;
      if Numbered(more) {
        forall k | 0 <= k < |runs|
          ensures Coords(runs)[k].id != c.id
        {
          assert more[k].coord.id != more[|runs|].coord.id;
        }
      }
    }
  }

  // ----- the pass follows the planner

  lemma {:induction false} OutlineFollowsPlanner(events: seq<CanonicalEvent>)
    ensures OutlineOf(events).course == PlanAll(events).course && OutlineOf(events).tools == PlanAll(events).tools
  {
    hide Locate, Track, TopologyOf, CompletesStep, Register, Conflicts, ToolIssues;
    if events != [] {
      OutlineFollowsPlanner(events[..|events| - 1]);
    }
  }

  lemma TurnsMore(events: seq<CanonicalEvent>)
    requires events != []
    ensures var init := events[..|events| - 1];
            var p := PlannedEvent(PlanAll(init), Last(events));
            Turns(Planned(events)) == if IsConversation(Last(events)) then Extend(Turns(Planned(init)), TurnCoord(p), p)
                else Turns(Planned(init))
  {
    hide PlanAll, Locate;
    var init := events[..|events| - 1];
    var p := PlannedEvent(PlanAll(init), Last(events));
    assert Planned(events)[..|init|] == Planned(init);
    assert IsConversation(p) == IsConversation(Last(events));
    if IsConversation(p) {
      RunsSnoc(Filter(Planned(init), IsConversation), p, TurnCoord);
    }
  }

  lemma StepsMore(c: Coord, members: seq<CanonicalEvent>, e: CanonicalEvent)
    ensures Steps(Group(c, members + [e])) == if IsModel(e) then Extend(Steps(Group(c, members)), StepCoord(e), e)
            else Steps(Group(c, members))
  {
    assert (members + [e])[..|members|] == members;
    if IsModel(e) {
      RunsSnoc(Filter(members, IsModel), e, StepCoord);
    }
  }

  lemma NoSteps(c: Coord)
    ensures Steps(Group(c, [])) == []
  {
    assert Filter([], IsModel) == [];
  }

  lemma NoTurns()
    ensures Turns([]) == []
  {
    assert Filter([], IsConversation) == [];
  }

  /** The turn an event is added to: the last one, or a new one. */
  function Joined(runs: seq<Group>, turn: Coord): Group {
    if runs != [] && Last(runs).coord == turn then Last(runs) else Group(turn, [])
  }

  lemma ExtendJoined(runs: seq<Group>, turn: Coord, e: CanonicalEvent)
    ensures var more := Extend(runs, turn, e);
            more != [] && Last(more) == Group(turn, Joined(runs, turn).members + [e])
            && (if runs != []
                 && Last(runs).coord == turn then more[..|more| - 1] == runs[..|runs| - 1]
                 else more[..|more| - 1] == runs)
  {
  }

  /** The planned event is where the pass says it lands. */
  lemma PlannedLanding(events: seq<CanonicalEvent>, e: CanonicalEvent)
    requires IsConversation(e)
    ensures var p := PlannedEvent(PlanAll(events), e);
            && TurnCoord(p) == Landing(OutlineOf(events), e).turn
            && StepCoord(p) == Landing(OutlineOf(events), e).step.value
            && IsModel(p) == IsModel(e) && IsConversation(p)
  {
    hide Locate, TopologyOf, PlanAll, OutlineOf;
    OutlineFollowsPlanner(events);
  }

  /** What the pass keeps of turns is what the planned turns are. */
  ghost predicate Outlines(o: Outline, runs: seq<Group>) {
    o.turns == Coords(runs) && (if runs == [] then o.steps == [] else o.steps == Coords(Steps(Last(runs))))
  }

  lemma JoinedSteps(o: Outline, runs: seq<Group>, turn: Coord)
    requires Outlines(o, runs)
    ensures Coords(Steps(Joined(runs, turn))) == StepsThere(o, turn) && Joined(runs, turn).coord == turn
  {
    hide Steps;
    NoSteps(turn);
  }

  /** The steps of the turn that an event enters. */
  lemma StepsEntered(runs: seq<Group>, turn: Coord, p: CanonicalEvent)
    ensures var before, after := Steps(Joined(runs, turn)), Steps(Last(Extend(runs, turn, p)));
            after == if IsModel(p) then Extend(before, StepCoord(p), p) else before
  {
    hide Steps;
    ExtendJoined(runs, turn, p);
    StepsMore(turn, Joined(runs, turn).members, p);
    assert Joined(runs, turn) == Group(turn, Joined(runs, turn).members);
  }

  lemma OutlinesMore(o: Outline, runs: seq<Group>, e: CanonicalEvent, p: CanonicalEvent)
    requires Outlines(o, runs) && IsConversation(e) && IsModel(p) == IsModel(e)
    requires TurnCoord(p) == Landing(o, e).turn && StepCoord(p) == Landing(o, e).step.value
    ensures Outlines(OutlineNext(o, e), Extend(runs, TurnCoord(p), p))
  {
    hide Steps, Locate, Track, TopologyOf, CompletesStep, Coords, Entered, Landing, TurnCoord, StepCoord, IsModel,
        StepsThere, Joined;
    var turn := TurnCoord(p);
    ExtendedCoords(runs, turn, p);
    JoinedSteps(o, runs, turn);
    StepsEntered(runs, turn, p);
    ExtendedCoords(Steps(Joined(runs, turn)), StepCoord(p), p);
  }

  lemma {:induction false} OutlineIsPlanned(events: seq<CanonicalEvent>)
    ensures Outlines(OutlineOf(events), Turns(Planned(events)))
  {
    hide Outlines, OutlineNext, PlanAll, PlannedEvent, Planned, TurnCoord, StepCoord, IsModel, Turns;
    if events == [] {
      NothingOutlined();
    } else {
      var init, e := events[..|events| - 1], Last(events);
      OutlineIsPlanned(init);
      TurnsMore(events);
      if IsConversation(e) {
        PlannedLanding(init, e);
        OutlinesMore(OutlineOf(init), Turns(Planned(init)), e, PlannedEvent(PlanAll(init), e));
      } else {
        NotOutlined(OutlineOf(init), e);
      }
    }
  }

  lemma NotOutlined(o: Outline, e: CanonicalEvent)
    requires !IsConversation(e)
    ensures OutlineNext(o, e) == o && TurnFits(o, e) && StepFits(o, e)
  {
  }

  lemma NothingOutlined()
    ensures Outlines(BLANK, Turns(Planned([]))) && Planned([]) == []
  {
    NoTurns();
  }

  // ----- the exact conditions

  /** The planned turns are numbered from zero without a repeated identity exactly when they come in sequence. */
  lemma {:induction false} TurnsNumberedExactly(events: seq<CanonicalEvent>)
    ensures Numbered(Turns(Planned(events))) <==> TurnsInSequence(events)
  {
    hide Numbered, PlanAll, PlannedEvent, Planned, TurnCoord, StepCoord, Turns, OutlineOf, Landing, Continues;
    if events == [] {
      NothingOutlined();
      NothingNumbered();
    } else {
      var init, e := events[..|events| - 1], Last(events);
      TurnsNumberedExactly(init);
      OutlineIsPlanned(init);
      TurnsMore(events);
      if IsConversation(e) {
        var p := PlannedEvent(PlanAll(init), e);
        PlannedLanding(init, e);
        ExtendedNumbered(Turns(Planned(init)), TurnCoord(p), p);
      }
    }
  }

  lemma NothingNumbered()
    ensures Numbered(Turns([])) && Numbered([])
  {
    NoTurns();
  }

  /** A turn not met yet has no steps to be out of sequence. */
  lemma {:induction false} UnmetInSequence(events: seq<CanonicalEvent>, turnId: string)
    requires forall k :: 0 <= k < |OutlineOf(events).turns| ==> OutlineOf(events).turns[k].id != turnId
    ensures StepsInSequence(events, turnId)
  {
    hide Landing, StepFits, Locate, Track, CompletesStep;
    if events != [] {
      var init, e := events[..|events| - 1], Last(events);
      var before, after := OutlineOf(init).turns, OutlineOf(events).turns;
      forall k | 0 <= k < |before|
        ensures before[k].id != turnId
      {
        assert after[k] == before[k];
      }
      UnmetInSequence(init, turnId);
      if IsConversation(e) {
        assert Last(after) == Landing(OutlineOf(init), e).turn;
      }
    }
  }

  /** The steps of a planned turn are numbered exactly when they come in sequence, whatever other turns do. */
  lemma {:induction false} StepsNumberedExactly(events: seq<CanonicalEvent>, turn: Group)
    requires Numbered(Turns(Planned(events))) && turn in Turns(Planned(events))
    ensures Numbered(Steps(turn)) <==> StepsInSequence(events, turn.coord.id)
    decreases |events|, 0
  {
    hide Numbered, PlanAll, PlannedEvent, Planned, TurnCoord, StepCoord, Turns, OutlineOf, Landing, Continues, Steps,
        IsModel;
    if events == [] {
      NothingOutlined();
      NoTurns();
    } else {
      var init, e := events[..|events| - 1], Last(events);
      TurnsMore(events);
      if IsConversation(e) {
        var p := PlannedEvent(PlanAll(init), e);
        PlannedLanding(init, e);
        ExtendedNumbered(Turns(Planned(init)), TurnCoord(p), p);
        if turn == Last(Turns(Planned(events))) {
          LastTurnExactly(init, e, turn);
        } else {
          OtherTurn(Turns(Planned(init)), TurnCoord(p), p, turn);
          StepsNumberedExactly(init, turn);
        }
      } else {
        StepsNumberedExactly(init, turn);
        NotModel(e);
      }
    }
  }

  lemma NotModel(e: CanonicalEvent)
    requires !IsConversation(e)
    ensures !IsModel(e)
  {
  }

  lemma OtherTurn(runs: seq<Group>, c: Coord, p: CanonicalEvent, turn: Group)
    requires Numbered(Extend(runs, c, p)) && turn in Extend(runs, c, p) && turn != Last(Extend(runs, c, p))
    ensures turn in runs && turn.coord.id != c.id
  {
    var more := Extend(runs, c, p);
    ExtendJoined(runs, c, p);
    var k :| 0 <= k < |more| && more[k] == turn;
    assert more[..|more| - 1][k] == turn;
    assert Last(more) == more[|more| - 1];
  }

  lemma LastTurnExactly(init: seq<CanonicalEvent>, e: CanonicalEvent, turn: Group)
    requires IsConversation(e)
    requires var p := PlannedEvent(PlanAll(init), e);
             Numbered(Extend(Turns(Planned(init)), TurnCoord(p), p))
             && turn == Last(Extend(Turns(Planned(init)), TurnCoord(p), p))
    ensures Numbered(Steps(turn)) <==> StepsInSequence(init + [e], turn.coord.id)
    decreases |init|, 2
  {
    hide Numbered, PlanAll, PlannedEvent, Planned, TurnCoord, StepCoord, Turns, OutlineOf, Landing, Continues, Steps,
        IsModel;
    var p, runs := PlannedEvent(PlanAll(init), e), Turns(Planned(init));
    assert (init + [e])[..|init|] == init;
    PlannedLanding(init, e);
    OutlineIsPlanned(init);
    ExtendedNumbered(runs, TurnCoord(p), p);
    ExtendJoined(runs, TurnCoord(p), p);
    StepsEntered(runs, TurnCoord(p), p);
    JoinedSteps(OutlineOf(init), runs, TurnCoord(p));
    JoinedExactly(init, TurnCoord(p));
    if IsModel(p) {
      ExtendedNumbered(Steps(Joined(runs, TurnCoord(p))), StepCoord(p), p);
    }
  }

  lemma JoinedExactly(init: seq<CanonicalEvent>, c: Coord)
    requires Numbered(Turns(Planned(init))) && Continues(Coords(Turns(Planned(init))), c)
    ensures Numbered(Steps(Joined(Turns(Planned(init)), c))) <==> StepsInSequence(init, c.id)
    decreases |init|, 1
  {
    hide Numbered, PlanAll, Planned, Turns, OutlineOf, Steps;
    var runs := Turns(Planned(init));
    OutlineIsPlanned(init);
    if runs != [] && Last(runs).coord == c {
      StepsNumberedExactly(init, Last(runs));
    } else {
      NoSteps(c);
      NothingNumbered();
      UnmetInSequence(init, c.id);
    }
  }

  /** Turns and steps are numbered as the projection wants them. */
  ghost predicate Collectable(planned: seq<CanonicalEvent>) {
    Numbered(Turns(planned)) && forall turn :: turn in Turns(planned) ==> Numbered(Steps(turn))
  }

  lemma {:induction false} EachInSequence(events: seq<CanonicalEvent>, id: string)
    requires InSequence(events)
    ensures TurnsInSequence(events) && StepsInSequence(events, id)
  {
    hide OutlineOf, TurnFits, StepFits;
    if events != [] {
      EachInSequence(events[..|events| - 1], id);
    }
  }

  lemma {:induction false} TogetherInSequence(events: seq<CanonicalEvent>)
    requires TurnsInSequence(events) && forall id :: StepsInSequence(events, id)
    ensures InSequence(events)
  {
    hide OutlineOf, TurnFits, StepFits;
    if events != [] {
      var init, e := events[..|events| - 1], Last(events);
      forall id
        ensures StepsInSequence(init, id)
      {
        assert StepsInSequence(events, id);
      }
      TogetherInSequence(init);
      if IsModel(e) {
        assert StepsInSequence(events, Landing(OutlineOf(init), e).turn.id);
      } else {
        NoStepToFit(OutlineOf(init), e);
      }
    }
  }

  lemma NoStepToFit(o: Outline, e: CanonicalEvent)
    requires !IsModel(e)
    ensures StepFits(o, e)
  {
  }

  /**
   * What the planner writes has turns and steps that the projection collects exactly when the input comes in sequence.
   */
  lemma CollectableExactly(events: seq<CanonicalEvent>)
    ensures Collectable(Planned(events)) <==> InSequence(events)
  {
    hide Numbered, Planned, Turns, OutlineOf, Steps, StepsInSequence, TurnsInSequence, InSequence;
    TurnsNumberedExactly(events);
    if InSequence(events) {
      EachInSequence(events, "");
    }
    if TurnsInSequence(events) {
      forall turn | turn in Turns(Planned(events))
        ensures Numbered(Steps(turn)) <==> StepsInSequence(events, turn.coord.id)
      {
        StepsNumberedExactly(events, turn);
      }
      if InSequence(events) {
        forall turn | turn in Turns(Planned(events))
          ensures Numbered(Steps(turn))
        {
          EachInSequence(events, turn.coord.id);
        }
      } else if Collectable(Planned(events)) {
        forall id
          ensures StepsInSequence(events, id)
        {
          MetOrUnmet(events, id);
        }
        TogetherInSequence(events);
      }
    }
  }

  lemma MetOrUnmet(events: seq<CanonicalEvent>, id: string)
    ensures StepsInSequence(events, id) || exists turn :: turn in Turns(Planned(events)) && turn.coord.id == id
  {
    hide Planned, Turns, OutlineOf, Steps, StepsInSequence;
    OutlineIsPlanned(events);
    var runs := Turns(Planned(events));
    if forall k :: 0 <= k < |runs| ==> runs[k].coord.id != id {
      UnmetInSequence(events, id);
    } else {
      var k :| 0 <= k < |runs| && runs[k].coord.id == id;
      assert runs[k] in runs;
    }
  }
}
