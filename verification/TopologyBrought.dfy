/**
 * What is left to check of an eligible plan: the coordinates that events bring. The planner has compared identities,
 * and what it derives itself is in sequence wherever it stands in line.
 */
module TopologyBrought {
  import opened Sequences
  import opened Canonical
  import opened TopologyPlanner
  import opened TopologyCorrelation
  import opened TopologyOutline
  import opened TopologySteps

  /** The last coordinate met, or one with the next ordinal. */
  predicate Follows(known: seq<Coord>, c: Coord) {
    (known != [] && Last(known) == c) || c.ordinal == |known|
  }

  /** The step where the planner stands is the last one of its turn or has the next ordinal. */
  predicate InLine(o: Outline) {
    o.course.cursor.Some? ==> Follows(o.steps, o.course.cursor.value.step)
  }

  predicate TurnFollows(o: Outline, e: CanonicalEvent) {
    IsConversation(e) && e.topology.Some? ==> Follows(o.turns, e.topology.value.turn)
  }

  predicate StepFollows(o: Outline, e: CanonicalEvent) {
    IsModel(e) ==> Follows(StepsThere(o, Landing(o, e).turn), Landing(o, e).step.value)
  }

  /** Every turn brought follows, and so does every step that a model event brings or finds out of line. */
  predicate BroughtInSequence(events: seq<CanonicalEvent>) {
    events == []
    || (var o, e := OutlineOf(events[..|events| - 1]), Last(events);
        && BroughtInSequence(events[..|events| - 1])
        && TurnFollows(o, e) && (HasExplicitStep(e) || !InLine(o) ==> StepFollows(o, e)))
  }

  // ----- what the planner has compared

  /** Ordinals of the coordinates met are their places, and the planner's tables hold them. */
  ghost predicate Registered(o: Outline, t: Tables) {
    && (forall k :: 0 <= k < |o.turns| ==>
          o.turns[k].ordinal == k && o.turns[k].id in t.ordinalByTurn && t.ordinalByTurn[o.turns[k].id] == k)
    && (o.turns == [] ==> o.steps == [])
    && forall k :: 0 <= k < |o.steps| ==>
         && o.steps[k].ordinal == k && o.steps[k].id in t.stepCoordinates
         && t.stepCoordinates[o.steps[k].id] == (Last(o.turns).id, k)
  }

  lemma KnownStays(o: Outline, e: CanonicalEvent)
    requires IsConversation(e) && o.turns != []
    ensures |o.turns| <= |OutlineNext(o, e).turns|
    ensures forall k :: 0 <= k < |o.turns| ==> OutlineNext(o, e).turns[k] == o.turns[k]
  {
    hide Landing, Track, Locate;
  }

  lemma TurnContinues(o: Outline, t: Tables, turn: Coord, step: Coord)
    requires Registered(o, t) && Conflicts(t, turn, step) == [] && Follows(o.turns, turn)
    ensures Continues(o.turns, turn)
  {
  }

  lemma StepContinues(o: Outline, t: Tables, turn: Coord, step: Coord)
    requires Registered(o, t) && Conflicts(t, turn, step) == [] && Follows(StepsThere(o, turn), step)
    ensures Continues(StepsThere(o, turn), step)
  {
  }

  lemma RegisteredTurns(o: Outline, t: Tables, turn: Coord, step: Coord)
    requires Registered(o, t) && Conflicts(t, turn, step) == [] && Continues(o.turns, turn)
    ensures var turns, after := Entered(o.turns, turn), Register(t, turn, step);
            forall k :: 0 <= k < |turns| ==>
              turns[k].ordinal == k && turns[k].id in after.ordinalByTurn && after.ordinalByTurn[turns[k].id] == k
  {
  }

  lemma RegisteredSteps(o: Outline, t: Tables, turn: Coord, step: Coord)
    requires Registered(o, t) && Conflicts(t, turn, step) == [] && Continues(StepsThere(o, turn), step)
    ensures var steps, after := Entered(StepsThere(o, turn), step), Register(t, turn, step);
            forall k :: 0 <= k < |steps| ==>
              && steps[k].ordinal == k && steps[k].id in after.stepCoordinates
              && after.stepCoordinates[steps[k].id] == (turn.id, k)
  {
  }

  lemma RegisteredThere(o: Outline, t: Tables, turn: Coord, step: Coord)
    requires Registered(o, t)
    ensures var steps, after := StepsThere(o, turn), Register(t, turn, step);
            forall k :: 0 <= k < |steps| ==>
              && steps[k].ordinal == k && steps[k].id in after.stepCoordinates
              && after.stepCoordinates[steps[k].id] == (turn.id, k)
  {
  }

  lemma RegisteredNext(o: Outline, t: Tables, e: CanonicalEvent)
    requires Registered(o, t) && IsConversation(e) && TurnFits(o, e) && StepFits(o, e)
    requires Conflicts(t, Landing(o, e).turn, Landing(o, e).step.value) == []
    ensures Registered(OutlineNext(o, e), Register(t, Landing(o, e).turn, Landing(o, e).step.value))
  {
    hide Landing, Track, Locate, CompletesStep, Conflicts, Register, Continues, StepsThere, Registered;
    var at := Landing(o, e);
    RegisteredTurns(o, t, at.turn, at.step.value);
    if IsModel(e) {
      RegisteredSteps(o, t, at.turn, at.step.value);
    } else {
      RegisteredThere(o, t, at.turn, at.step.value);
    }
    assert Last(Entered(o.turns, at.turn)) == at.turn;
    AssembleRegistered(OutlineNext(o, e), Register(t, at.turn, at.step.value));
  }

  lemma AssembleRegistered(o: Outline, t: Tables)
    requires o.turns != []
    requires forall k :: 0 <= k < |o.turns| ==>
               o.turns[k].ordinal == k && o.turns[k].id in t.ordinalByTurn && t.ordinalByTurn[o.turns[k].id] == k
    requires forall k :: 0 <= k < |o.steps| ==>
               && o.steps[k].ordinal == k && o.steps[k].id in t.stepCoordinates
               && t.stepCoordinates[o.steps[k].id] == (Last(o.turns).id, k)
    ensures Registered(o, t)
  {
  }

  // ----- what the planner derives

  ghost predicate MetStep(steps: seq<Coord>, id: string) {
    exists k :: 0 <= k < |steps| && steps[k].id == id
  }

  /** The next turn is the next number, a step to be left is the last one, and steps with model work have been met. */
  ghost predicate Derives(o: Outline) {
    && o.course.nextTurn == |o.turns|
    && (o.course.advance ==> o.course.cursor.Some? && o.steps != [] && o.course.cursor.value.step == Last(o.steps))
    && (o.turns != [] ==> forall id :: (Last(o.turns).id, id) in o.tools.worked ==> MetStep(o.steps, id))
  }

  /** A turn that the planner names itself has the next number. */
  lemma DerivedTurnFollows(o: Outline, e: CanonicalEvent)
    requires Stands(o) && Derives(o) && IsConversation(e) && TurnFollows(o, e)
    ensures Follows(o.turns, Landing(o, e).turn)
  {
    hide Track, StepId;
  }

  /** Where the planner stands in line, an event without a step of its own goes to the last step or the next. */
  lemma DerivedStepFollows(o: Outline, e: CanonicalEvent)
    requires Stands(o) && Derives(o) && InLine(o) && IsConversation(e) && TurnFits(o, e) && !HasExplicitStep(e)
    requires forall k :: 0 <= k < |o.steps| ==> o.steps[k].ordinal == k
    ensures StepFollows(o, e)
  {
    hide Track, StepId;
    LandsWhereItStands(o, e);
    if o.steps != [] {
      assert Last(o.steps) == o.steps[|o.steps| - 1];
    }
  }

  lemma DerivesNext(o: Outline, e: CanonicalEvent)
    requires Stands(o) && Derives(o) && IsConversation(e) && TurnFits(o, e)
    requires forall k :: 0 <= k < |o.turns| ==> o.turns[k].ordinal == k
    ensures Derives(OutlineNext(o, e))
  {
    hide StepId, Track, CompletesStep, Locate, Continues, StepsThere, MetStep, Stands, Landing;
    LandsWhereItStands(o, e);
    TrackedWork(o.tools, e, PlaceFor(Landing(o, e)));
    NextNumber(o, e);
    NextAdvance(o, e);
    NextWorked(o, e);
  }

  lemma NextNumber(o: Outline, e: CanonicalEvent)
    requires Stands(o) && Derives(o) && IsConversation(e) && TurnFits(o, e)
    requires forall k :: 0 <= k < |o.turns| ==> o.turns[k].ordinal == k
    ensures Locate(o.course, o.tools, e).nextTurn == |OutlineNext(o, e).turns|
  {
    hide StepId, Track, CompletesStep;
    if o.turns != [] {
      assert Last(o.turns) == o.turns[|o.turns| - 1];
    }
  }

  lemma NextAdvance(o: Outline, e: CanonicalEvent)
    requires Stands(o) && Derives(o) && IsConversation(e) && TurnFits(o, e)
    ensures var next := OutlineNext(o, e);
            next.course.advance ==>
              next.course.cursor.Some? && next.steps != [] && next.course.cursor.value.step == Last(next.steps)
  {
    hide StepId, Track;
    LandsWhereItStands(o, e);
    TrackedWork(o.tools, e, PlaceFor(Landing(o, e)));
  }

  lemma NextWorked(o: Outline, e: CanonicalEvent)
    requires Stands(o) && Derives(o) && IsConversation(e) && TurnFits(o, e)
    ensures var next := OutlineNext(o, e);
            forall id :: (Last(next.turns).id, id) in next.tools.worked ==> MetStep(next.steps, id)
  {
    hide StepId, Track, CompletesStep, Locate, Landing;
    var next, at := OutlineNext(o, e), Landing(o, e);
    TrackedWork(o.tools, e, PlaceFor(at));
    var there := StepsThere(o, at.turn);
    forall id | (Last(next.turns).id, id) in next.tools.worked
      ensures MetStep(next.steps, id)
    {
      if (at.turn.id, id) in o.tools.worked {
        assert Known(o.turns, at.turn.id);
        var k :| 0 <= k < |o.steps| && o.steps[k].id == id;
        assert next.steps[k].id == id;
      } else {
        assert next.steps[|next.steps| - 1].id == id;
      }
    }
  }

  // ----- the whole

  ghost predicate Sound(o: Outline, t: Tables) {
    Stands(o) && Derives(o) && Registered(o, t)
  }

  lemma EventInSequence(o: Outline, t: Tables, e: CanonicalEvent)
    requires Sound(o, t) && IsConversation(e) && TurnFollows(o, e)
    requires HasExplicitStep(e) || !InLine(o) ==> StepFollows(o, e)
    requires Conflicts(t, Landing(o, e).turn, Landing(o, e).step.value) == []
    ensures TurnFits(o, e) && StepFits(o, e)
    ensures Sound(OutlineNext(o, e), Register(t, Landing(o, e).turn, Landing(o, e).step.value))
  {
    hide Locate, Landing, Track, Stands, Derives, Follows, Continues, Conflicts, Register, OutlineNext, StepsThere;
    var at := Landing(o, e);
    DerivedTurnFollows(o, e);
    TurnContinues(o, t, at.turn, at.step.value);
    if !HasExplicitStep(e) && InLine(o) {
      DerivedStepFollows(o, e);
    }
    if IsModel(e) {
      StepContinues(o, t, at.turn, at.step.value);
    }
    StandsNext(o, e);
    DerivesNext(o, e);
    RegisteredNext(o, t, e);
  }

  lemma PlanRegisters(events: seq<CanonicalEvent>, e: CanonicalEvent)
    requires PlanNext(PlanAll(events), e).issues == []
    ensures PlanAll(events).issues == []
    ensures IsConversation(e) ==>
              var at := Landing(OutlineOf(events), e);
              && Conflicts(PlanAll(events).tables, at.turn, at.step.value) == []
              && PlanNext(PlanAll(events), e).tables == Register(PlanAll(events).tables, at.turn, at.step.value)
  {
    hide PlanAll, OutlineOf, Locate, Conflicts, Register, Track, ToolIssues;
    PlanIssues(PlanAll(events), e);
    OutlineFollowsPlanner(events);
  }

  lemma {:induction false} BroughtSuffices(events: seq<CanonicalEvent>)
    requires PlanAll(events).issues == [] && BroughtInSequence(events)
    ensures InSequence(events) && Sound(OutlineOf(events), PlanAll(events).tables)
  {
    hide Sound, PlanNext, OutlineNext, TurnFits, StepFits, InLine, Landing, TurnFollows, StepFollows, Conflicts,
        Register;
    if events == [] {
      NothingSound();
    } else {
      var init, e := events[..|events| - 1], Last(events);
      PlanRegisters(init, e);
      BroughtSuffices(init);
      if IsConversation(e) {
        EventInSequence(OutlineOf(init), PlanAll(init).tables, e);
      } else {
        NotOutlined(OutlineOf(init), e);
        NotPlanned(PlanAll(init), e);
      }
    }
  }

  lemma NotPlanned(s: Planner, e: CanonicalEvent)
    requires !IsConversation(e)
    ensures PlanNext(s, e) == s
  {
  }

  lemma NothingSound()
    ensures Sound(BLANK, START.tables)
  {
  }

  lemma FittingFollows(o: Outline, e: CanonicalEvent)
    requires TurnFits(o, e) && StepFits(o, e)
    ensures TurnFollows(o, e) && StepFollows(o, e)
  {
    hide Locate, StepsThere;
  }

  lemma {:induction false} BroughtNeeded(events: seq<CanonicalEvent>)
    requires InSequence(events)
    ensures BroughtInSequence(events)
  {
    hide OutlineOf, TurnFits, StepFits, InLine, TurnFollows, StepFollows;
    if events != [] {
      BroughtNeeded(events[..|events| - 1]);
      FittingFollows(OutlineOf(events[..|events| - 1]), Last(events));
    }
  }

  /** An eligible plan is in sequence exactly when the coordinates brought follow, by their ordinals alone. */
  lemma EligibleNeedsBroughtOrdinals(events: seq<CanonicalEvent>)
    requires Eligible(events)
    ensures InSequence(events) <==> BroughtInSequence(events)
  {
    hide PlanAll, InSequence, BroughtInSequence;
    if InSequence(events) {
      BroughtNeeded(events);
    } else if BroughtInSequence(events) {
      BroughtSuffices(events);
    }
  }

  // ----- histories in which user messages bring no step

  /** Every turn brought follows, and so does every step brought. */
  predicate PlainlyInSequence(events: seq<CanonicalEvent>) {
    events == []
    || (var o, e := OutlineOf(events[..|events| - 1]), Last(events);
        && PlainlyInSequence(events[..|events| - 1])
        && TurnFollows(o, e) && (HasExplicitStep(e) ==> StepFollows(o, e)))
  }

  /** The step where the planner stands is in its tables. */
  ghost predicate Placed(o: Outline, t: Tables) {
    o.course.cursor.Some? ==>
      var c := o.course.cursor.value;
      c.step.id in t.stepCoordinates && t.stepCoordinates[c.step.id] == (c.turn.id, c.step.ordinal)
  }

  lemma PlacedNext(o: Outline, t: Tables, e: CanonicalEvent)
    requires Stands(o) && IsConversation(e) && TurnFits(o, e)
    requires Conflicts(t, Landing(o, e).turn, Landing(o, e).step.value) == []
    ensures Placed(OutlineNext(o, e), Register(t, Landing(o, e).turn, Landing(o, e).step.value))
  {
    hide Locate, Landing, Track, CompletesStep, Continues, Stands;
    LandsWhereItStands(o, e);
  }

  /** A model event leaves the planner at the last step of the turn. */
  lemma ModelStaysInLine(o: Outline, e: CanonicalEvent)
    requires Stands(o) && IsModel(e) && TurnFits(o, e)
    ensures InLine(OutlineNext(o, e))
  {
    hide Locate, Landing, Track, CompletesStep, Continues, Stands, StepsThere;
    LandsWhereItStands(o, e);
  }

  /** A user message without a step leaves it in line: only a step that has been met is left for the next. */
  lemma UserStaysInLine(o: Outline, t: Tables, e: CanonicalEvent)
    requires Sound(o, t) && Placed(o, t) && InLine(o) && IsUser(e) && !HasExplicitStep(e) && TurnFits(o, e)
    ensures InLine(OutlineNext(o, e))
  {
    hide StepId, Track, CompletesStep;
    LandsWhereItStands(o, e);
    if o.course.cursor.Some? && PlaceOf(o.course.cursor.value) in o.tools.worked {
      LeftStepIsLast(o, t);
    }
  }

  lemma LeftStepIsLast(o: Outline, t: Tables)
    requires Sound(o, t) && Placed(o, t) && InLine(o) && o.course.cursor.Some?
    requires PlaceOf(o.course.cursor.value) in o.tools.worked
    ensures o.steps != [] && Last(o.steps) == o.course.cursor.value.step
            && o.course.cursor.value.step.ordinal + 1 == |o.steps|
  {
    var c := o.course.cursor.value;
    assert MetStep(o.steps, c.step.id);
    var k :| 0 <= k < |o.steps| && o.steps[k].id == c.step.id;
    assert Last(o.steps) == o.steps[|o.steps| - 1];
  }

  lemma {:induction false} PlainlySuffices(events: seq<CanonicalEvent>)
    requires PlanAll(events).issues == [] && PlainlyInSequence(events)
    requires forall i :: 0 <= i < |events| && IsUser(events[i]) ==> !HasExplicitStep(events[i])
    ensures BroughtInSequence(events) && InSequence(events) && Sound(OutlineOf(events), PlanAll(events).tables)
    ensures InLine(OutlineOf(events)) && Placed(OutlineOf(events), PlanAll(events).tables)
  {
    hide Sound, PlanNext, OutlineNext, TurnFits, StepFits, InLine, Landing, TurnFollows, StepFollows, Conflicts,
        Register, Placed;
    if events == [] {
      NothingSound();
      NothingPlaced();
    } else {
      var init, e := events[..|events| - 1], Last(events);
      assert forall i :: 0 <= i < |init| ==> init[i] == events[i];
      assert events[|events| - 1] == e;
      PlanRegisters(init, e);
      PlainlySuffices(init);
      if IsConversation(e) {
        EventInSequence(OutlineOf(init), PlanAll(init).tables, e);
        SoundStands(OutlineOf(init), PlanAll(init).tables);
        PlacedNext(OutlineOf(init), PlanAll(init).tables, e);
        if IsModel(e) {
          ModelStaysInLine(OutlineOf(init), e);
        } else {
          UserStaysInLine(OutlineOf(init), PlanAll(init).tables, e);
        }
      } else {
        NotOutlined(OutlineOf(init), e);
        NotPlanned(PlanAll(init), e);
      }
    }
  }

  lemma SoundStands(o: Outline, t: Tables)
    requires Sound(o, t)
    ensures Stands(o)
  {
  }

  lemma NothingPlaced()
    ensures InLine(BLANK) && Placed(BLANK, START.tables)
  {
  }

  lemma {:induction false} PlainlyNeeded(events: seq<CanonicalEvent>)
    requires BroughtInSequence(events)
    ensures PlainlyInSequence(events)
  {
    hide OutlineOf, InLine, TurnFollows, StepFollows;
    if events != [] {
      PlainlyNeeded(events[..|events| - 1]);
    }
  }

  /** When user messages bring no step, the turns brought and the steps that model events bring decide. */
  lemma EligibleNeedsModelSteps(events: seq<CanonicalEvent>)
    requires Eligible(events)
    requires forall i :: 0 <= i < |events| && IsUser(events[i]) ==> !HasExplicitStep(events[i])
    ensures InSequence(events) <==> PlainlyInSequence(events)
  {
    hide PlanAll, InSequence, BroughtInSequence, PlainlyInSequence, OutlineOf;
    if InSequence(events) {
      BroughtNeeded(events);
      PlainlyNeeded(events);
    } else if PlainlyInSequence(events) {
      PlainlySuffices(events);
    }
  }
}
