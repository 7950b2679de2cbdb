/** Histories and turns that always come in sequence: steps left to the planner, and turns left to it as well. */
module TopologySteps {
  import opened Text
  import opened Sequences
  import opened Canonical
  import opened CoordinateRuns
  import opened PortableEmission
  import opened TopologyPlanner
  import opened TopologyOutline

  // ----- identities of steps

  lemma StepIdInjective(turnId: string, m: nat, n: nat)
    requires StepId(turnId, m) == StepId(turnId, n)
    ensures m == n
  {
    var prefix := turnId + ":step:";
    assert StepId(turnId, m)[|prefix|..] == Digits(m) && StepId(turnId, n)[|prefix|..] == Digits(n);
    DigitsInjective(m, n);
  }

  function DerivedStep(turnId: string, n: nat): Coord {
    Coord(StepId(turnId, n), n)
  }

  ghost predicate DerivedSteps(turnId: string, steps: seq<Coord>) {
    forall k :: 0 <= k < |steps| ==> steps[k] == DerivedStep(turnId, k)
  }

  /** The last derived step and the one after it continue the derived steps. */
  lemma DerivedContinues(turnId: string, steps: seq<Coord>, n: nat)
    requires DerivedSteps(turnId, steps) && (n == |steps| || n + 1 == |steps|)
    ensures Continues(steps, DerivedStep(turnId, n))
    ensures DerivedSteps(turnId, Entered(steps, DerivedStep(turnId, n)))
            && |Entered(steps, DerivedStep(turnId, n))| == n + 1
  {
    hide StepId;
    if n + 1 == |steps| {
      assert Last(steps) == steps[n];
    } else {
      forall k | 0 <= k < |steps|
        ensures steps[k].id != StepId(turnId, n)
      {
        if steps[k].id == StepId(turnId, n) {
          StepIdInjective(turnId, k, n);
        }
      }
    }
  }

  // ----- the pass in a turn that is free of explicit steps

  ghost predicate Known(turns: seq<Coord>, turnId: string) {
    exists k :: 0 <= k < |turns| && turns[k].id == turnId
  }

  /** The planner stands in the last turn, and model work was done in turns already met. */
  ghost predicate Stands(o: Outline) {
    && (forall place :: place in o.tools.worked ==> Known(o.turns, place.0))
    && (if o.turns == [] then o.course.cursor.None?
        else
          && o.course.cursor.Some? && o.course.cursor.value.turn == Last(o.turns)
          && Last(o.turns).ordinal < o.course.nextTurn)
  }

  /** In the free turn the planner stands at the last derived step, or at the next, which had no model work. */
  ghost predicate StandsFree(o: Outline, turnId: string) {
    o.turns != [] && Last(o.turns).id == turnId && o.course.cursor.Some? ==>
      var n := o.course.cursor.value.step.ordinal;
      && DerivedSteps(turnId, o.steps) && o.course.cursor.value.step == DerivedStep(turnId, n)
      && (n == |o.steps| || n + 1 == |o.steps|) && (o.course.advance ==> n + 1 == |o.steps|)
      && forall m: nat :: (turnId, StepId(turnId, m)) in o.tools.worked ==> m < |o.steps|
  }

  lemma TrackedWork(tools: Tools, e: CanonicalEvent, place: Place)
    ensures Track(tools, e, place).worked == tools.worked + if WorksModel(e) then {place} else {}
    ensures CompletesStep(tools, e, place) ==> IsModel(e)
    ensures WorksModel(e) ==> IsModel(e)
  {
  }

  /** An event whose turn fits is entered in the turn where the planner stands. */
  lemma LandsWhereItStands(o: Outline, e: CanonicalEvent)
    requires Stands(o) && IsConversation(e) && TurnFits(o, e)
    ensures Locate(o.course, o.tools, e).cursor.value.turn == Landing(o, e).turn
    ensures Landing(o, e).step.value == Locate(o.course, o.tools, e).cursor.value.step
    ensures Last(OutlineNext(o, e).turns) == Landing(o, e).turn
    ensures Landing(o, e).turn.ordinal < Locate(o.course, o.tools, e).nextTurn
  {
    hide Track, CompletesStep;
    if o.turns != [] {
      assert Last(o.turns) == o.turns[|o.turns| - 1];
    }
  }

  lemma EnteredKnown(turns: seq<Coord>, c: Coord, turnId: string)
    requires Known(turns, turnId) || c.id == turnId
    ensures Known(Entered(turns, c), turnId)
  {
    var more := Entered(turns, c);
    if c.id == turnId {
      assert more[|more| - 1].id == turnId;
    } else {
      var k :| 0 <= k < |turns| && turns[k].id == turnId;
      assert more[k].id == turnId;
    }
  }

  lemma StandsNext(o: Outline, e: CanonicalEvent)
    requires Stands(o) && IsConversation(e) && TurnFits(o, e)
    ensures Stands(OutlineNext(o, e))
  {
    hide Locate, Track, CompletesStep, Landing, Continues, Known;
    LandsWhereItStands(o, e);
    var at := Landing(o, e);
    TrackedWork(o.tools, e, PlaceFor(at));
    forall place | place in OutlineNext(o, e).tools.worked
      ensures Known(OutlineNext(o, e).turns, place.0)
    {
      EnteredKnown(o.turns, at.turn, place.0);
    }
  }

  /** Where an event without a step of its own lands in a free turn. */
  lemma LandsFree(o: Outline, e: CanonicalEvent, turnId: string)
    requires Stands(o) && StandsFree(o, turnId) && IsConversation(e) && TurnFits(o, e) && !HasExplicitStep(e)
    requires Landing(o, e).turn.id == turnId
    ensures var at, there := Landing(o, e), StepsThere(o, Landing(o, e).turn);
            var n := at.step.value.ordinal;
            && at.step.value == DerivedStep(turnId, n) && DerivedSteps(turnId, there)
            && (n == |there| || n + 1 == |there|)
            && (Locate(o.course, o.tools, e).advance ==> n + 1 == |there|)
  {
    hide StepId, Track, CompletesStep;
    LandsWhereItStands(o, e);
    var at := Landing(o, e);
    if o.turns != [] && Last(o.turns).id == turnId && at.turn == Last(o.turns) {
      var c := o.course.cursor.value;
      assert PlaceOf(c) == (turnId, StepId(turnId, c.step.ordinal));
      assert StepsThere(o, at.turn) == o.steps;
      assert at.step.value == c.step || at.step.value == OpenTurn(at.turn).step || at.step.value == NextStep(c).step;
      assert at.step.value == NextStep(c).step ==> c.step.ordinal + 1 == |o.steps|;
      assert at.step.value != c.step && at.step.value == OpenTurn(at.turn).step ==> o.steps == [];
    } else {
      assert StepsThere(o, at.turn) == [];
      assert at.step.value == DerivedStep(turnId, 0);
    }
  }

  lemma WorkedFree(o: Outline, e: CanonicalEvent, turnId: string, m: nat)
    requires Stands(o) && StandsFree(o, turnId) && IsConversation(e) && TurnFits(o, e)
    requires Landing(o, e).turn.id == turnId
    requires Landing(o, e).step.value.id == StepId(turnId, Landing(o, e).step.value.ordinal)
    requires (turnId, StepId(turnId, m)) in Track(o.tools, e, PlaceFor(Landing(o, e))).worked
    ensures m < |StepsThere(o, Landing(o, e).turn)| || (m == Landing(o, e).step.value.ordinal && IsModel(e))
  {
    hide StepId, Track, CompletesStep, Locate, TopologyOf;
    var at := Landing(o, e);
    TrackedWork(o.tools, e, PlaceFor(at));
    if (turnId, StepId(turnId, m)) in o.tools.worked {
      assert Known(o.turns, turnId);
    } else {
      StepIdInjective(turnId, m, at.step.value.ordinal);
    }
  }

  /** In a free turn every model event fits, and the planner stands there as before. */
  lemma FreeNext(o: Outline, e: CanonicalEvent, turnId: string)
    requires Stands(o) && StandsFree(o, turnId) && IsConversation(e) && TurnFits(o, e)
    requires HasExplicitStep(e) ==> TurnCoord(e).id != turnId
    ensures StandsFree(OutlineNext(o, e), turnId)
    ensures Landing(o, e).turn.id == turnId ==> StepFits(o, e)
  {
    hide StepId, Track, CompletesStep, Locate, Continues, StepsThere, DerivedSteps;
    LandsWhereItStands(o, e);
    if Landing(o, e).turn.id == turnId {
      assert !HasExplicitStep(e);
      LandsFree(o, e, turnId);
      var at, there := Landing(o, e), StepsThere(o, Landing(o, e).turn);
      DerivedContinues(turnId, there, at.step.value.ordinal);
      TrackedWork(o.tools, e, PlaceFor(at));
      forall m: nat | (turnId, StepId(turnId, m)) in OutlineNext(o, e).tools.worked
        ensures m < |OutlineNext(o, e).steps|
      {
        WorkedFree(o, e, turnId, m);
      }
    }
  }

  /** No event of the turn brings a step of its own. */
  predicate IsFree(events: seq<CanonicalEvent>, turnId: string) {
    forall i :: 0 <= i < |events| && IsConversation(events[i]) && HasExplicitStep(events[i])
        ==> TurnCoord(events[i]).id != turnId
  }

  lemma {:induction false} FreeInSequence(events: seq<CanonicalEvent>, turnId: string)
    requires TurnsInSequence(events) && IsFree(events, turnId)
    ensures Stands(OutlineOf(events)) && StandsFree(OutlineOf(events), turnId) && StepsInSequence(events, turnId)
  {
    hide Stands, StandsFree, OutlineNext, TurnFits, StepFits, Landing;
    if events == [] {
      NothingStands(turnId);
    } else {
      var init, e := events[..|events| - 1], Last(events);
      assert forall i :: 0 <= i < |init| ==> init[i] == events[i];
      FreeInSequence(init, turnId);
      assert events[|events| - 1] == e;
      if IsConversation(e) {
        StandsNext(OutlineOf(init), e);
        FreeNext(OutlineOf(init), e, turnId);
      } else {
        NotOutlined(OutlineOf(init), e);
      }
    }
  }

  lemma NothingStands(turnId: string)
    ensures Stands(BLANK) && StandsFree(BLANK, turnId)
  {
  }

  /** Planned members of a turn are located; each was located by the planner or is as it came. */
  lemma PlannedMember(events: seq<CanonicalEvent>, turn: Group, e: CanonicalEvent) returns (i: nat)
    requires turn in Turns(Planned(events)) && e in turn.members
    ensures i < |events| && IsConversation(events[i]) && Planned(events)[i] == e && TurnCoord(e) == turn.coord
            && HasStep(e)
    ensures HasExplicitStep(events[i]) ==> e == events[i]
  {
    hide Planned;
    var turns := Turns(Planned(events));
    var k :| 0 <= k < |turns| && turns[k] == turn;
    RunMember(Filter(Planned(events), IsConversation), TurnCoord, k, e);
    FilterMembership(Planned(events), IsConversation);
    i :| 0 <= i < |Planned(events)| && Planned(events)[i] == e;
    PlanningKeepsEvents(events, i);
  }

  /**
   * The planner's own steps can be projected: in numbered turns every event is located, and a turn in which no event
   * brings a step of its own has its steps numbered from zero without a repeated identity.
   */
  lemma PlannedStepsAreNumbered(events: seq<CanonicalEvent>, turn: Group)
    requires TurnsInSequence(events) && turn in Turns(Planned(events))
    ensures IsFree(events, turn.coord.id) ==> Numbered(Steps(turn))
    ensures forall e :: e in turn.members ==> HasStep(e)
  {
    hide Planned, PlanAll, Numbered, Steps, IsFree;
    if IsFree(events, turn.coord.id) {
      FreeInSequence(events, turn.coord.id);
      TurnsNumberedExactly(events);
      StepsNumberedExactly(events, turn);
    }
    forall e | e in turn.members
      ensures HasStep(e)
    {
      var i := PlannedMember(events, turn, e);
    }
  }

  // ----- turns whose events all bring their steps

  predicate BroughtTo(e: CanonicalEvent, turn: Coord) {
    IsModel(e) && e.topology.Some? && e.topology.value.turn == turn
  }

  function ModelOf(turn: Coord): CanonicalEvent -> bool {
    (e: CanonicalEvent) => BroughtTo(e, turn)
  }

  /** Every event that lands in the turn brings its own step. */
  ghost predicate IsExplicit(events: seq<CanonicalEvent>, turn: Coord) {
    forall i :: 0 <= i < |events| && IsConversation(events[i]) && TurnCoord(Planned(events)[i]) == turn
            ==> HasExplicitStep(events[i])
  }

  /** Planning neither adds to what such a turn was brought nor takes from it. */
  lemma BroughtStays(events: seq<CanonicalEvent>, turn: Coord, i: nat)
    requires IsExplicit(events, turn) && i < |events|
    ensures var e, p := events[i], Planned(events)[i];
            BroughtTo(p, turn) == BroughtTo(e, turn) && (BroughtTo(p, turn) ==> p == e)
  {
    hide Planned;
    PlanningKeepsEvents(events, i);
    if IsConversation(events[i]) && events[i].topology.Some? {
      BroughtTurnStays(events, i);
    }
  }

  lemma {:induction false} BroughtTurnStays(events: seq<CanonicalEvent>, i: nat)
    requires i < |events| && IsConversation(events[i]) && events[i].topology.Some?
    ensures TurnCoord(Planned(events)[i]) == TurnCoord(events[i])
  {
    hide PlanAll, Locate;
    if i < |events| - 1 {
      BroughtTurnStays(events[..|events| - 1], i);
    }
  }

  lemma {:induction false} FilterAlike(s: seq<CanonicalEvent>, t: seq<CanonicalEvent>, p: CanonicalEvent -> bool)
    requires |s| == |t| && forall i :: 0 <= i < |s| ==> p(s[i]) == p(t[i]) && (p(s[i]) ==> s[i] == t[i])
    ensures Filter(s, p) == Filter(t, p)
  {
    if s != [] {
      FilterAlike(s[..|s| - 1], t[..|t| - 1], p);
    }
  }

  lemma {:induction false} ModelFilter(s: seq<CanonicalEvent>, turn: Coord)
    requires forall e :: e in s && IsConversation(e) ==> e.topology.Some?
    ensures Filter(Filter(Filter(s, IsConversation), AtCoord(TurnCoord, turn)), IsModel) == Filter(s, ModelOf(turn))
  {
    if s != [] {
      var init, e := s[..|s| - 1], Last(s);
      ModelFilter(init, turn);
      assert e in s && forall d :: d in init ==> d in s;
      var here := Filter(Filter(init, IsConversation), AtCoord(TurnCoord, turn));
      if IsConversation(e) {
        FilterConcat(Filter(init, IsConversation), [e], AtCoord(TurnCoord, turn));
        FilterOne(e, AtCoord(TurnCoord, turn));
        if TurnCoord(e) == turn {
          FilterConcat(here, [e], IsModel);
          FilterOne(e, IsModel);
        }
      }
    }
  }

  lemma FilterOne(e: CanonicalEvent, p: CanonicalEvent -> bool)
    ensures Filter([e], p) == if p(e) then [e] else []
  {
    assert [e][..0] == [];
  }

  /** In numbered turns the model events of a turn are those at its coordinate. */
  lemma ModelsOfTurn(planned: seq<CanonicalEvent>, turn: Group)
    requires Numbered(Turns(planned)) && turn in Turns(planned)
    requires forall e :: e in planned && IsConversation(e) ==> e.topology.Some?
    ensures Filter(turn.members, IsModel) == Filter(planned, ModelOf(turn.coord))
  {
    var entries := Filter(planned, IsConversation);
    RunsHomogeneous(entries, TurnCoord);
    RunsFlatten(entries, TurnCoord);
    var k :| 0 <= k < |Turns(planned)| && Turns(planned)[k] == turn;
    FilterFlatten(Runs(entries, TurnCoord), TurnCoord, k);
    ModelFilter(planned, turn.coord);
  }

  /**
   * A turn whose events all bring their steps keeps them: its steps are the runs of those brought, and they are
   * numbered exactly when those are.
   */
  lemma ExplicitTurnsKeepTheirSteps(events: seq<CanonicalEvent>, turn: Group)
    requires TurnsInSequence(events) && turn in Turns(Planned(events)) && IsExplicit(events, turn.coord)
    ensures Steps(turn) == Runs(Filter(events, ModelOf(turn.coord)), StepCoord)
    ensures Numbered(Runs(Filter(events, ModelOf(turn.coord)), StepCoord)) <==> StepsInSequence(events, turn.coord.id)
  {
    hide Planned, PlanAll, Numbered, IsExplicit, BroughtTo, Turns;
    TurnsNumberedExactly(events);
    forall i | 0 <= i < |events|
      ensures var e, p := events[i], Planned(events)[i];
              BroughtTo(p, turn.coord) == BroughtTo(e, turn.coord) && (BroughtTo(p, turn.coord) ==> p == e)
    {
      BroughtStays(events, turn.coord, i);
    }
    FilterAlike(Planned(events), events, ModelOf(turn.coord));
    forall e | e in Planned(events) && IsConversation(e)
      ensures e.topology.Some?
    {
      var i :| 0 <= i < |events| && Planned(events)[i] == e;
      PlanningKeepsEvents(events, i);
    }
    ModelsOfTurn(Planned(events), turn);
    StepsNumberedExactly(events, turn);
  }

  // ----- histories without any topology

  ghost predicate Untold(events: seq<CanonicalEvent>) {
    (forall i :: 0 <= i < |events| ==> events[i].topology.None?) && DistinctIds(events)
  }

  ghost predicate NamedAfter(turn: Coord, events: seq<CanonicalEvent>) {
    exists i :: 0 <= i < |events| && turn.id == "mcsf-turn:" + events[i].id
  }

  /** The turns met were opened by events, one after the other. */
  ghost predicate TurnsDerived(o: Outline, events: seq<CanonicalEvent>) {
    && o.course.nextTurn == |o.turns|
    && (if o.turns == [] then o.course.cursor.None?
        else o.course.cursor.Some? && o.course.cursor.value.turn == Last(o.turns))
    && forall k :: 0 <= k < |o.turns| ==> NamedAfter(o.turns[k], events)
  }

  lemma SameName(a: string, b: string)
    requires "mcsf-turn:" + a == "mcsf-turn:" + b
    ensures a == b
  {
    assert ("mcsf-turn:" + a)[10..] == a && ("mcsf-turn:" + b)[10..] == b;
  }

  lemma NamedStays(turn: Coord, events: seq<CanonicalEvent>, e: CanonicalEvent)
    requires NamedAfter(turn, events)
    ensures NamedAfter(turn, events + [e])
  {
    var i :| 0 <= i < |events| && turn.id == "mcsf-turn:" + events[i].id;
    assert (events + [e])[i] == events[i];
  }

  /** A turn opened by one more event is none of those met. */
  lemma NewName(turn: Coord, events: seq<CanonicalEvent>, e: CanonicalEvent)
    requires NamedAfter(turn, events) && DistinctIds(events + [e])
    ensures turn.id != "mcsf-turn:" + e.id
  {
    var i :| 0 <= i < |events| && turn.id == "mcsf-turn:" + events[i].id;
    assert (events + [e])[i] == events[i] && (events + [e])[|events|] == e;
    if turn.id == "mcsf-turn:" + e.id {
      SameName(events[i].id, e.id);
    }
  }

  lemma UntoldNext(o: Outline, events: seq<CanonicalEvent>, e: CanonicalEvent)
    requires TurnsDerived(o, events) && Untold(events + [e]) && IsConversation(e)
    ensures TurnFits(o, e) && TurnsDerived(OutlineNext(o, e), events + [e])
    ensures IsUser(e) || o.turns == [] ==> Landing(o, e).turn == Coord("mcsf-turn:" + e.id, |o.turns|)
    ensures !IsUser(e) && o.turns != [] ==> Landing(o, e).turn == Last(o.turns)
  {
    hide Track, CompletesStep, NamedAfter, DistinctIds;
    assert (events + [e])[|events|] == e;
    forall k | 0 <= k < |o.turns|
      ensures o.turns[k].id != "mcsf-turn:" + e.id && NamedAfter(o.turns[k], events + [e])
    {
      NewName(o.turns[k], events, e);
      NamedStays(o.turns[k], events, e);
    }
    OpenedBy(events, e, |o.turns|);
  }

  lemma OpenedBy(events: seq<CanonicalEvent>, e: CanonicalEvent, n: nat)
    ensures NamedAfter(Coord("mcsf-turn:" + e.id, n), events + [e])
  {
    assert (events + [e])[|events|] == e;
  }

  lemma {:induction false} UntoldTurns(events: seq<CanonicalEvent>)
    requires Untold(events)
    ensures TurnsDerived(OutlineOf(events), events) && TurnsInSequence(events)
  {
    hide TurnsDerived, OutlineNext, TurnFits;
    if events == [] {
      NothingDerived();
    } else {
      var init, e := events[..|events| - 1], Last(events);
      assert events == init + [e];
      UntoldTurns(init);
      if IsConversation(e) {
        UntoldNext(OutlineOf(init), init, e);
      } else {
        NotOutlined(OutlineOf(init), e);
        DerivedStays(OutlineOf(init), init, e);
      }
    }
  }

  lemma DerivedStays(o: Outline, events: seq<CanonicalEvent>, e: CanonicalEvent)
    requires TurnsDerived(o, events)
    ensures TurnsDerived(o, events + [e])
  {
    forall k | 0 <= k < |o.turns|
      ensures NamedAfter(o.turns[k], events + [e])
    {
      NamedStays(o.turns[k], events, e);
    }
  }

  lemma NothingDerived()
    ensures TurnsDerived(BLANK, [])
  {
  }

  /** A history without any topology comes in sequence, so its planned turns and steps are collected. */
  lemma UntoldHistoriesArePlannable(events: seq<CanonicalEvent>)
    requires Untold(events)
    ensures InSequence(events) && Collectable(Planned(events))
    ensures forall turn :: turn in Turns(Planned(events)) ==> forall e :: e in turn.members ==> HasStep(e)
  {
    hide Planned, PlanAll, Numbered, Steps, OutlineOf, Turns, Collectable, InSequence;
    UntoldTurns(events);
    forall id
      ensures StepsInSequence(events, id)
    {
      FreeInSequence(events, id);
    }
    TogetherInSequence(events);
    CollectableExactly(events);
    forall turn | turn in Turns(Planned(events))
      ensures forall e :: e in turn.members ==> HasStep(e)
    {
      PlannedStepsAreNumbered(events, turn);
    }
  }
}
