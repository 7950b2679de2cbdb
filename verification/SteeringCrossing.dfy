/**
 * When a planned step has output on both sides of a user message: in a turn that is left to the planner, exactly when
 * the message came while a call of that step was outstanding and the step went on afterwards.
 */
module SteeringCrossing {
  import opened Sequences
  import opened Canonical
  import opened CoordinateRuns
  import opened PortableEmission
  import opened TopologyPlanner
  import opened TopologyCorrelation
  import opened TopologyOutline
  import opened TopologySteps

  // ----- waiting steps have open calls

  function PendingAt(pending: map<string, Place>, place: Place): set<string> {
    set id | id in pending && pending[id] == place
  }

  lemma PendingMore(pending: map<string, Place>, id: string, place: Place, p: Place)
    requires id !in pending
    ensures PendingAt(pending[id := place], p) == PendingAt(pending, p) + if p == place then {id} else {}
    ensures |PendingAt(pending[id := place], p)| == |PendingAt(pending, p)| + if p == place then 1 else 0
  {
    assert PendingAt(pending[id := place], p) == PendingAt(pending, p) + if p == place then {id} else {};
  }

  ghost predicate WaitsAt(tools: Tools, place: Place) {
    && (place in tools.waiting <==> PendingAt(tools.pending, place) != {})
    && (place in tools.waiting ==> tools.waiting[place] == |PendingAt(tools.pending, place)|)
  }

  /** The planner counts the open calls of each step. */
  ghost predicate Waits(tools: Tools) {
    (forall id :: id in tools.pending ==> id in tools.seen) && forall place :: WaitsAt(tools, place)
  }

  lemma CallWaitsAt(tools: Tools, e: CanonicalEvent, place: Place, p: Place)
    requires WaitsAt(tools, p) && OpensCall(tools, e) && StrictCallId(e).value !in tools.pending
    ensures WaitsAt(Track(tools, e, place), p)
  {
    hide PendingAt;
    var id, after := StrictCallId(e).value, Track(tools, e, place);
    assert after.pending == tools.pending[id := place];
    PendingMore(tools.pending, id, place, p);
  }

  lemma AnswerWaitsAt(tools: Tools, e: CanonicalEvent, place: Place, p: Place)
    requires WaitsAt(tools, p) && AnswersCall(tools, e)
    ensures WaitsAt(Track(tools, e, place), p)
  {
    var id, after := StrictCallId(e).value, Track(tools, e, place);
    var call := tools.pending[id];
    assert PendingAt(after.pending, p) == PendingAt(tools.pending, p) - if p == call then {id} else {};
    if p == call {
      assert id in PendingAt(tools.pending, p);
      assert |PendingAt(after.pending, p)| == |PendingAt(tools.pending, p)| - 1;
    }
  }

  lemma OtherWaitsAt(tools: Tools, e: CanonicalEvent, place: Place, p: Place)
    requires WaitsAt(tools, p) && !OpensCall(tools, e) && !AnswersCall(tools, e)
    ensures WaitsAt(Track(tools, e, place), p)
  {
    assert PendingAt(Track(tools, e, place).pending, p) == PendingAt(tools.pending, p);
  }

  lemma TrackSees(tools: Tools, e: CanonicalEvent, place: Place)
    requires forall id :: id in tools.pending ==> id in tools.seen
    ensures forall id :: id in Track(tools, e, place).pending ==> id in Track(tools, e, place).seen
  {
  }

  lemma TrackWaits(tools: Tools, e: CanonicalEvent, place: Place)
    requires Waits(tools)
    ensures Waits(Track(tools, e, place))
  {
    hide WaitsAt, Track, AnswersCall;
    TrackSees(tools, e, place);
    forall p
      ensures WaitsAt(Track(tools, e, place), p)
    {
      if OpensCall(tools, e) {
        CallWaitsAt(tools, e, place, p);
      } else if AnswersCall(tools, e) {
        AnswerWaitsAt(tools, e, place, p);
      } else {
        OtherWaitsAt(tools, e, place, p);
      }
    }
  }

  lemma {:induction false} PlanWaits(events: seq<CanonicalEvent>)
    ensures Waits(OutlineOf(events).tools)
  {
    hide Waits, Track, Locate, TopologyOf;
    if events == [] {
      NothingWaits();
    } else {
      var init, e := events[..|events| - 1], Last(events);
      PlanWaits(init);
      if IsConversation(e) {
        TrackWaits(OutlineOf(init).tools, e, PlaceFor(Landing(OutlineOf(init), e)));
      }
    }
  }

  lemma NothingWaits()
    ensures Waits(START.tools)
  {
  }

  /** A call of the step has no result so far. */
  ghost predicate Outstanding(planned: seq<CanonicalEvent>, place: Place) {
    exists c :: c in planned && c.kind == ToolCall && HasExplicitStep(c) && PlaceOfEvent(c) == place
             && StrictCallId(c).Some? && ResultsWith(planned, StrictCallId(c).value) == []
  }

  lemma WaitingIsOutstanding(events: seq<CanonicalEvent>, place: Place)
    requires InOrder(events) && PlanAll(events).issues == [] && place in OutlineOf(events).tools.waiting
    ensures Outstanding(Planned(events), place)
  {
    hide PlanAll, Planned, OutlineOf;
    PlanWaits(events);
    OutlineFollowsPlanner(events);
    assert WaitsAt(PlanAll(events).tools, place);
    var id :| id in PendingAt(PlanAll(events).tools.pending, place);
    AllTracked(events, id);
    FilterMembership(Planned(events), IsCallWith(id));
    var c := CallsWith(Planned(events), id)[0];
    assert c in CallsWith(Planned(events), id);
  }

  // ----- the planner's course through a free turn

  /** The pass after the first n events. */
  function At(events: seq<CanonicalEvent>, n: nat): Outline
    requires n <= |events|
  {
    OutlineOf(events[..n])
  }

  lemma AtNext(events: seq<CanonicalEvent>, n: nat)
    requires n < |events|
    ensures At(events, n + 1) == OutlineNext(At(events, n), events[n])
    ensures TurnsInSequence(events[..n + 1]) ==> TurnsInSequence(events[..n]) && TurnFits(At(events, n), events[n])
  {
    hide OutlineNext, TurnFits;
    assert events[..n + 1][..n] == events[..n] && Last(events[..n + 1]) == events[n];
  }

  lemma {:induction false} TurnsBefore(events: seq<CanonicalEvent>, n: nat)
    requires n <= |events| && TurnsInSequence(events)
    ensures TurnsInSequence(events[..n])
    decreases |events| - n
  {
    if n < |events| {
      TurnsBefore(events, n + 1);
      AtNext(events, n);
    } else {
      assert events[..n] == events;
    }
  }

  /** What holds before each event of a history with a free turn. */
  lemma FreeAt(events: seq<CanonicalEvent>, turnId: string, n: nat)
    requires n <= |events| && TurnsInSequence(events) && IsFree(events, turnId)
    ensures Stands(At(events, n)) && StandsFree(At(events, n), turnId)
    ensures n < |events| ==> TurnFits(At(events, n), events[n])
  {
    hide Stands, StandsFree, TurnFits, OutlineOf;
    TurnsBefore(events, n);
    assert forall i :: 0 <= i < n ==> events[..n][i] == events[i];
    FreeInSequence(events[..n], turnId);
    if n < |events| {
      TurnsBefore(events, n + 1);
      AtNext(events, n);
    }
  }

  ghost predicate In(o: Outline, turnId: string) {
    o.turns != [] && Last(o.turns).id == turnId
  }

  function StepNumber(o: Outline): nat {
    if o.course.cursor.Some? then o.course.cursor.value.step.ordinal else 0
  }

  /** One event of a turn that has been met finds the planner in it and does not take it back. */
  lemma ProgressNext(o: Outline, e: CanonicalEvent, turnId: string)
    requires Stands(o) && IsConversation(e) && TurnFits(o, e) && Known(o.turns, turnId)
    requires In(OutlineNext(o, e), turnId) && (HasExplicitStep(e) ==> TurnCoord(e).id != turnId)
    ensures In(o, turnId) && StepNumber(o) <= StepNumber(OutlineNext(o, e)) && Landing(o, e).turn == Last(o.turns)
  {
    hide StepId, Track, CompletesStep;
    LandsWhereItStands(o, e);
  }

  lemma KnownNext(o: Outline, e: CanonicalEvent, turnId: string)
    requires Known(o.turns, turnId)
    ensures Known(OutlineNext(o, e).turns, turnId)
  {
    hide Known, Track, Locate, Landing, CompletesStep;
    if IsConversation(e) {
      EnteredKnown(o.turns, Landing(o, e).turn, turnId);
    }
  }

  lemma {:induction false} StaysKnown(events: seq<CanonicalEvent>, turnId: string, m: nat, n: nat)
    requires m <= n <= |events| && Known(At(events, m).turns, turnId)
    ensures Known(At(events, n).turns, turnId)
  {
    hide Known, At;
    if m < n {
      StaysKnown(events, turnId, m, n - 1);
      AtNext(events, n - 1);
      KnownNext(At(events, n - 1), events[n - 1], turnId);
    }
  }

  lemma {:induction false} Progress(events: seq<CanonicalEvent>, turnId: string, m: nat, n: nat)
    requires m <= n <= |events| && TurnsInSequence(events) && IsFree(events, turnId)
    requires Known(At(events, m).turns, turnId) && In(At(events, n), turnId)
    ensures In(At(events, m), turnId) && StepNumber(At(events, m)) <= StepNumber(At(events, n))
  {
    hide Known, At, OutlineNext, Stands, StandsFree, TurnFits, In, StepNumber;
    if m < n {
      var e := events[n - 1];
      FreeAt(events, turnId, n - 1);
      AtNext(events, n - 1);
      if IsConversation(e) {
        StaysKnown(events, turnId, m, n - 1);
        ProgressNext(At(events, n - 1), e, turnId);
      } else {
        NotOutlined(At(events, n - 1), e);
      }
      Progress(events, turnId, m, n - 1);
    }
  }

  /** A user message leaves a step that had model work and has no open call. */
  lemma UserLeaves(o: Outline, e: CanonicalEvent)
    requires Stands(o) && o.turns != [] && IsUser(e) && TurnFits(o, e) && Landing(o, e).turn == Last(o.turns)
    requires !HasExplicitStep(e) && PlaceOf(o.course.cursor.value) in o.tools.worked
    requires PlaceOf(o.course.cursor.value) !in o.tools.waiting
    ensures StepNumber(OutlineNext(o, e)) == StepNumber(o) + 1
  {
    hide StepId, Track, CompletesStep;
  }

  // ----- planned events by their index

  /** The index of an event that lands in the step. */
  ghost predicate LandsIn(events: seq<CanonicalEvent>, i: nat, turn: Coord, step: Coord) {
    i < |events| && IsConversation(events[i])
    && TurnCoord(Planned(events)[i]) == turn && StepCoord(Planned(events)[i]) == step
  }

  lemma LandedAt(events: seq<CanonicalEvent>, i: nat)
    requires i < |events| && IsConversation(events[i])
    ensures var at := Landing(At(events, i), events[i]);
            TurnCoord(Planned(events)[i]) == at.turn && StepCoord(Planned(events)[i]) == at.step.value
  {
    hide PlanAll, Planned, PlannedEvent, OutlineOf, Landing;
    PlannedAt(events, i);
    PlannedLanding(events[..i], events[i]);
  }

  /** After an event that does model work in a free turn, the planner stands at its step, which has had work. */
  lemma WorkedAt(events: seq<CanonicalEvent>, i: nat, turn: Coord, step: Coord)
    requires TurnsInSequence(events) && IsFree(events, turn.id) && LandsIn(events, i, turn, step)
    ensures var after := At(events, i + 1);
            && In(after, turn.id) && Last(after.turns) == turn && after.course.cursor.Some?
            && after.course.cursor.value.step == step
            && (WorksModel(events[i]) ==> (turn.id, step.id) in after.tools.worked)
  {
    hide Planned, At, Landing, Track, Locate, CompletesStep, Stands, StandsFree, TurnFits;
    LandedAt(events, i);
    FreeAt(events, turn.id, i);
    AtNext(events, i);
    LandsWhereItStands(At(events, i), events[i]);
    TrackedWork(At(events, i).tools, events[i], PlaceFor(Landing(At(events, i), events[i])));
  }

  lemma {:induction false} StaysWorked(events: seq<CanonicalEvent>, place: Place, m: nat, n: nat)
    requires m <= n <= |events| && place in At(events, m).tools.worked
    ensures place in At(events, n).tools.worked
  {
    hide At, Landing, Track, Locate;
    if m < n {
      StaysWorked(events, place, m, n - 1);
      AtNext(events, n - 1);
      var o, e := At(events, n - 1), events[n - 1];
      if IsConversation(e) {
        TrackedWork(o.tools, e, PlaceFor(Landing(o, e)));
      }
    }
  }

  /** Output of a step on both sides of a user message of its turn: the message found a call of the step open. */
  lemma BothSidesWait(events: seq<CanonicalEvent>, turn: Coord, step: Coord, a: nat, i: nat, b: nat)
    requires TurnsInSequence(events) && IsFree(events, turn.id) && a < i < b
    requires LandsIn(events, a, turn, step) && LandsIn(events, b, turn, step) && WorksModel(events[a])
    requires IsUser(events[i]) && TurnCoord(Planned(events)[i]) == turn
    ensures (turn.id, step.id) in At(events, i).tools.waiting
  {
    hide Planned, At, Landing, OutlineNext, TurnFits, LandsIn;
    LandsInRange(events, a, turn, step);
    LandsInRange(events, b, turn, step);
    WorkedAt(events, a, turn, step);
    WorkedAt(events, b, turn, step);
    InKnown(At(events, a + 1), turn.id);
    StaysKnown(events, turn.id, a + 1, i);
    StaysKnown(events, turn.id, a + 1, i + 1);
    Progress(events, turn.id, i + 1, b + 1);
    Progress(events, turn.id, i, b + 1);
    Progress(events, turn.id, a + 1, i);
    StaysWorked(events, (turn.id, step.id), a + 1, i);
    FreeAt(events, turn.id, i);
    AtNext(events, i);
    LandedAt(events, i);
    FreeUser(events, i, turn);
    FreeAt(events, turn.id, b + 1);
    StandsAtDerived(At(events, b + 1), turn.id);
    SteeredAt(At(events, i), events[i], turn, step);
  }

  lemma LandsInRange(events: seq<CanonicalEvent>, i: nat, turn: Coord, step: Coord)
    requires LandsIn(events, i, turn, step)
    ensures i < |events| && IsConversation(events[i])
  {
  }

  lemma FreeUser(events: seq<CanonicalEvent>, i: nat, turn: Coord)
    requires i < |events| && IsFree(events, turn.id) && IsConversation(events[i])
    requires TurnCoord(Planned(events)[i]) == turn
    ensures !HasExplicitStep(events[i])
  {
    hide Planned;
    if HasExplicitStep(events[i]) {
      BroughtTurnStays(events, i);
    }
  }

  lemma StandsAtDerived(o: Outline, turnId: string)
    requires StandsFree(o, turnId) && In(o, turnId) && o.course.cursor.Some?
    ensures o.course.cursor.value.step == DerivedStep(turnId, o.course.cursor.value.step.ordinal)
  {
  }

  lemma InKnown(o: Outline, turnId: string)
    requires In(o, turnId)
    ensures Known(o.turns, turnId)
  {
    assert o.turns[|o.turns| - 1].id == turnId;
  }

  lemma SteeredAt(o: Outline, e: CanonicalEvent, turn: Coord, step: Coord)
    requires Stands(o) && StandsFree(o, turn.id) && In(o, turn.id) && IsUser(e) && TurnFits(o, e)
    requires !HasExplicitStep(e) && Landing(o, e).turn == turn
    requires StepNumber(o) == step.ordinal && StepNumber(OutlineNext(o, e)) <= step.ordinal
    requires step == DerivedStep(turn.id, step.ordinal) && (turn.id, step.id) in o.tools.worked
    ensures (turn.id, step.id) in o.tools.waiting
  {
    hide StepId, Track, CompletesStep, Locate;
    assert Known(o.turns, turn.id) by {
      InKnown(o, turn.id);
    }
    assert Last(o.turns) == turn;
    if (turn.id, step.id) !in o.tools.waiting {
      UserLeaves(o, e);
    }
  }

  // ----- the steps of the projection

  /** In a collected history the members of a turn are the events that land there. */
  lemma TurnMembers(planned: seq<CanonicalEvent>, turn: Group, e: CanonicalEvent)
    requires Numbered(Turns(planned)) && turn in Turns(planned)
    ensures e in turn.members <==> e in planned && IsConversation(e) && TurnCoord(e) == turn.coord
  {
    var entries := Filter(planned, IsConversation);
    FilterMembership(planned, IsConversation);
    GroupMembers(entries, TurnCoord, turn, e);
  }

  /** What feeds a step is the model work that lands there. */
  lemma Feeding(planned: seq<CanonicalEvent>, turn: Group, step: Group, e: CanonicalEvent)
    requires Numbered(Turns(planned)) && turn in Turns(planned) && Numbered(Steps(turn)) && step in Steps(turn)
    ensures e in AssistantEvents(planned, step) <==>
              (e in planned && IsModel(e) && TurnCoord(e) == turn.coord && StepCoord(e) == step.coord
               && FeedsAssistant(planned, e))
  {
    FilterMembership(step.members, Feeds(planned));
    FilterMembership(turn.members, IsModel);
    GroupMembers(Filter(turn.members, IsModel), StepCoord, step, e);
    TurnMembers(planned, turn, e);
  }

  /** Coordinates of numbered groups are told apart by their identities. */
  lemma SameGroup(entries: seq<CanonicalEvent>, coord: CanonicalEvent -> Coord, group: Group, e: CanonicalEvent)
    requires Numbered(Runs(entries, coord)) && group in Runs(entries, coord) && e in entries
    requires coord(e).id == group.coord.id
    ensures coord(e) == group.coord
  {
    var runs := Runs(entries, coord);
    RunCoordOf(entries, coord, e);
    var j :| 0 <= j < |runs| && runs[j].coord == coord(e) && e in runs[j].members;
    var k :| 0 <= k < |runs| && runs[k] == group;
  }

  lemma PlaceIsCoord(planned: seq<CanonicalEvent>, turn: Group, step: Group, e: CanonicalEvent)
    requires Numbered(Turns(planned)) && turn in Turns(planned) && Numbered(Steps(turn)) && step in Steps(turn)
    requires e in planned && IsModel(e) && HasExplicitStep(e) && PlaceOfEvent(e) == (turn.coord.id, step.coord.id)
    ensures TurnCoord(e) == turn.coord && StepCoord(e) == step.coord
  {
    FilterMembership(planned, IsConversation);
    SameGroup(Filter(planned, IsConversation), TurnCoord, turn, e);
    TurnMembers(planned, turn, e);
    FilterMembership(turn.members, IsModel);
    SameGroup(Filter(turn.members, IsModel), StepCoord, step, e);
  }

  lemma EligibleFeeds(events: seq<CanonicalEvent>, i: nat)
    requires InOrder(events) && Eligible(events) && i < |events|
    ensures FeedsAssistant(Planned(events), Planned(events)[i]) == WorksModel(events[i])
  {
    hide Planned, PlanAll, Matched, Eligible;
    PlanningKeepsEvents(events, i);
    if events[i].kind == ToolCall {
      EligibleIsCorrelated(events, i);
    }
  }

  /**
   * The i-th event is a user message of the turn that finds a call of the step open, and the j-th works in the step.
   */
  ghost predicate SteersInto(events: seq<CanonicalEvent>, turn: Coord, step: Coord, i: nat, j: nat) {
    && i < j < |events| && IsUser(events[i]) && TurnCoord(Planned(events)[i]) == turn
    && Outstanding(Planned(events[..i]), (turn.id, step.id))
    && WorksModel(events[j]) && LandsIn(events, j, turn, step)
  }

  /** The sequences of planned events are those of the input. */
  lemma PlannedSequences(events: seq<CanonicalEvent>)
    ensures forall i :: 0 <= i < |events| ==>
              Planned(events)[i].sequence == events[i].sequence && Planned(events)[i].kind == events[i].kind
  {
    hide Planned;
    forall i | 0 <= i < |events|
      ensures Planned(events)[i].sequence == events[i].sequence && Planned(events)[i].kind == events[i].kind
    {
      PlanningKeepsEvents(events, i);
    }
  }

  ghost predicate SetOut(events: seq<CanonicalEvent>, turn: Group, step: Group) {
    && InOrder(events) && Eligible(events) && TurnsInSequence(events) && IsFree(events, turn.coord.id)
    && turn in Turns(Planned(events)) && step in Steps(turn)
  }

  lemma SetOutNumbered(events: seq<CanonicalEvent>, turn: Group, step: Group)
    requires SetOut(events, turn, step)
    ensures Numbered(Turns(Planned(events))) && Numbered(Steps(turn))
  {
    hide Planned, Numbered, Turns, Steps, Eligible, InOrder;
    TurnsNumberedExactly(events);
    FreeInSequence(events, turn.coord.id);
    StepsNumberedExactly(events, turn);
  }

  /** A fed index: what feeds the step is the planned event of one. */
  lemma FeedingIndex(events: seq<CanonicalEvent>, turn: Group, step: Group, e: CanonicalEvent) returns (i: nat)
    requires SetOut(events, turn, step) && e in AssistantEvents(Planned(events), step)
    ensures LandsIn(events, i, turn.coord, step.coord) && WorksModel(events[i]) && Planned(events)[i] == e
  {
    hide Planned, Numbered, Turns, Steps, Eligible, InOrder, AssistantEvents, FeedsAssistant, TurnsInSequence, IsFree;
    SetOutNumbered(events, turn, step);
    Feeding(Planned(events), turn, step, e);
    i :| 0 <= i < |Planned(events)| && Planned(events)[i] == e;
    PlanningKeepsEvents(events, i);
    EligibleFeeds(events, i);
  }

  lemma IndexFeeds(events: seq<CanonicalEvent>, turn: Group, step: Group, i: nat)
    requires SetOut(events, turn, step) && LandsIn(events, i, turn.coord, step.coord) && WorksModel(events[i])
    ensures Planned(events)[i] in AssistantEvents(Planned(events), step)
  {
    hide Planned, Numbered, Turns, Steps, Eligible, InOrder, AssistantEvents, FeedsAssistant, TurnsInSequence, IsFree;
    SetOutNumbered(events, turn, step);
    PlanningKeepsEvents(events, i);
    EligibleFeeds(events, i);
    Feeding(Planned(events), turn, step, Planned(events)[i]);
  }

  lemma FeedingInOrder(planned: seq<CanonicalEvent>, turn: Group, step: Group)
    requires InOrder(planned) && turn in Turns(planned) && step in Steps(turn)
    ensures InOrder(AssistantEvents(planned, step))
  {
    FilterIncreasing(planned, IsConversation);
    var k :| 0 <= k < |Turns(planned)| && Turns(planned)[k] == turn;
    RunInOrder(Filter(planned, IsConversation), TurnCoord, k);
    FilterIncreasing(turn.members, IsModel);
    var j :| 0 <= j < |Steps(turn)| && Steps(turn)[j] == step;
    RunInOrder(Filter(turn.members, IsModel), StepCoord, j);
    FilterIncreasing(step.members, Feeds(planned));
  }

  lemma IndexOrder(events: seq<CanonicalEvent>, i: nat, j: nat)
    requires InOrder(events) && i < |events| && j < |events|
    ensures Planned(events)[i].sequence < Planned(events)[j].sequence <==> i < j
  {
    hide Planned;
    PlannedSequences(events);
  }

  /** The outstanding call is one that feeds the step. */
  lemma OutstandingIndex(events: seq<CanonicalEvent>, turn: Group, step: Group, i: nat) returns (a: nat)
    requires SetOut(events, turn, step) && i < |events|
    requires Outstanding(Planned(events[..i]), (turn.coord.id, step.coord.id))
    ensures a < i && Planned(events)[a] in AssistantEvents(Planned(events), step)
  {
    hide Planned, Numbered, Turns, Steps, Eligible, AssistantEvents, TurnsInSequence, IsFree, FeedsAssistant, InOrder;
    var planned := Planned(events);
    SetOutNumbered(events, turn, step);
    PlannedAt(events, i);
    PlannedSequences(events);
    var c :| c in Planned(events[..i]) && c.kind == ToolCall && HasExplicitStep(c)
        && PlaceOfEvent(c) == (turn.coord.id, step.coord.id);
    a :| 0 <= a < |planned[..i]| && planned[..i][a] == c;
    assert planned[a] == c && c in planned;
    PlaceIsCoord(planned, turn, step, c);
    IndexFeeds(events, turn, step, a);
  }

  /** What an open call before the message and work after it make of the step. */
  lemma SteeringCrosses(events: seq<CanonicalEvent>, turn: Group, step: Group, i: nat, j: nat)
    requires SetOut(events, turn, step) && SteersInto(events, turn.coord, step.coord, i, j)
    ensures CrossesSteering(Planned(events), turn, step)
  {
    hide Planned, Numbered, Turns, Steps, Eligible, AssistantEvents, TurnsInSequence, IsFree, FeedsAssistant,
        Outstanding, InOrder, LandsIn;
    var planned, feeding := Planned(events), AssistantEvents(Planned(events), step);
    SetOutNumbered(events, turn, step);
    PlannedSequences(events);
    var a := OutstandingIndex(events, turn, step, i);
    IndexFeeds(events, turn, step, j);
    PlannedInOrder(events);
    FeedingInOrder(planned, turn, step);
    IndexOrder(events, a, i);
    IndexOrder(events, i, j);
    TurnMembers(planned, turn, planned[i]);
    Ends(feeding, planned[a], planned[j]);
  }

  lemma PlannedInOrder(events: seq<CanonicalEvent>)
    requires InOrder(events)
    ensures InOrder(Planned(events))
  {
    hide Planned;
    PlannedSequences(events);
  }

  lemma Ends(feeding: seq<CanonicalEvent>, first: CanonicalEvent, last: CanonicalEvent)
    requires InOrder(feeding) && first in feeding && last in feeding && first.sequence < last.sequence
    ensures |feeding| > 1 && feeding[0].sequence <= first.sequence && last.sequence <= Last(feeding).sequence
  {
    EndsInOrder(feeding, first);
    EndsInOrder(feeding, last);
  }

  /** A crossed message found a call of the step open, and the step went on after it. */
  lemma CrossingSteers(events: seq<CanonicalEvent>, turn: Group, step: Group) returns (i: nat, j: nat)
    requires SetOut(events, turn, step) && CrossesSteering(Planned(events), turn, step)
    ensures SteersInto(events, turn.coord, step.coord, i, j)
  {
    hide Planned, Numbered, Turns, Steps, PlanAll, AssistantEvents, TurnsInSequence, IsFree, FeedsAssistant,
        Outstanding, InOrder, LandsIn;
    var planned, feeding := Planned(events), AssistantEvents(Planned(events), step);
    SetOutNumbered(events, turn, step);
    PlannedSequences(events);
    var u :| u in turn.members && IsUser(u) && feeding[0].sequence < u.sequence < Last(feeding).sequence;
    assert feeding[0] in feeding && Last(feeding) in feeding;
    var a := FeedingIndex(events, turn, step, feeding[0]);
    j := FeedingIndex(events, turn, step, Last(feeding));
    LandsInRange(events, a, turn.coord, step.coord);
    LandsInRange(events, j, turn.coord, step.coord);
    TurnMembers(planned, turn, u);
    i :| 0 <= i < |planned| && planned[i] == u;
    IndexOrder(events, a, i);
    IndexOrder(events, i, j);
    BothSidesWait(events, turn.coord, step.coord, a, i, j);
    FewerInOrder(events, i);
    FewerIssues(events, i);
    WaitingIsOutstanding(events[..i], (turn.coord.id, step.coord.id));
  }

  lemma FewerInOrder(events: seq<CanonicalEvent>, n: nat)
    requires InOrder(events) && n <= |events|
    ensures InOrder(events[..n])
  {
  }

  lemma {:induction false} FewerIssues(events: seq<CanonicalEvent>, n: nat)
    requires PlanAll(events).issues == [] && n <= |events|
    ensures PlanAll(events[..n]).issues == []
  {
    hide PlanNext;
    if n < |events| {
      var init := events[..|events| - 1];
      PlanIssues(PlanAll(init), Last(events));
      FewerIssues(init, n);
      assert init[..n] == events[..n];
    } else {
      assert events[..n] == events;
    }
  }

  /**
   * A step of an eligible plan, in a turn whose events leave their steps to the planner, crosses steering exactly when
   * a user message came while a call of the step was outstanding and model work of the step followed.
   */
  lemma FreeTurnCrossesExactly(events: seq<CanonicalEvent>, turn: Group, step: Group)
    requires InOrder(events) && Eligible(events) && TurnsInSequence(events) && IsFree(events, turn.coord.id)
    requires turn in Turns(Planned(events)) && step in Steps(turn)
    ensures CrossesSteering(Planned(events), turn, step)
            <==> exists i, j :: SteersInto(events, turn.coord, step.coord, i, j)
  {
    hide Planned, Eligible, TurnsInSequence, IsFree, CrossesSteering, SteersInto, InOrder, Turns, Steps;
    assert SetOut(events, turn, step);
    if CrossesSteering(Planned(events), turn, step) {
      var i, j := CrossingSteers(events, turn, step);
    } else if i, j :| SteersInto(events, turn.coord, step.coord, i, j) {
      SteeringCrosses(events, turn, step, i, j);
    }
  }
}
