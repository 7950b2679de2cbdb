/**
 * Where the planner puts an event, told from the events and their planned coordinates alone: which turn and step it
 * joins, and when it opens the next one.
 */
module TopologyPlacing {
  import opened Outcomes
  import opened Text
  import opened Sequences
  import opened Canonical
  import opened TopologyPlanner
  import opened TopologyVerdict
  import opened SteeringCrossing

  // ----- what lies before a place in the plan

  /** The conversation event that comes before the place. */
  ghost predicate IsPrevious(p: seq<CanonicalEvent>, n: nat, q: int)
    requires n <= |p|
  {
    0 <= q < n && IsConversation(p[q]) && forall k :: q < k < n ==> !IsConversation(p[k])
  }

  /** The event brings its step, or is the first of its stretch of one turn, or is a user message without a turn. */
  ghost predicate SetsTurn(events: seq<CanonicalEvent>, p: seq<CanonicalEvent>, j: int)
    requires 0 <= j < |p| == |events|
  {
    && IsConversation(p[j])
    && (|| (events[j].topology.Some? && events[j].topology.value.step.Some?)
        || (events[j].topology.None? && events[j].kind == UserMessage)
        || forall q :: IsPrevious(p, j, q) ==> TurnCoord(p[q]).id != TurnCoord(p[j]).id)
  }

  /** The last event before the place that set the turn. */
  ghost predicate Governs(events: seq<CanonicalEvent>, p: seq<CanonicalEvent>, n: nat, l: int)
    requires n <= |p| == |events|
  {
    0 <= l < n && SetsTurn(events, p, l) && forall k :: l < k < n ==> !SetsTurn(events, p, k)
  }

  /** The event opened the step it lies in. */
  ghost predicate OpensStep(events: seq<CanonicalEvent>, p: seq<CanonicalEvent>, j: int)
    requires 0 <= j < |p| == |events|
  {
    && IsConversation(p[j])
    && (SetsTurn(events, p, j) || exists q :: IsPrevious(p, j, q) && StepCoord(p[q]) != StepCoord(p[j]))
  }

  /** The call was made at this turn and step, the first of its identity, and is not answered yet. */
  ghost predicate IsOutstanding(p: seq<CanonicalEvent>, n: nat, id: string, place: Place)
    requires n <= |p|
  {
    exists c :: && 0 <= c < n && PlaceIn(p[c]) == place && IsCallOf(p[c], id)
                && (forall k :: 0 <= k < c ==> !IsCallOf(p[k], id))
                && forall k :: c < k < n ==> !Answers(p[k], id)
  }

  ghost predicate IsCallOf(e: CanonicalEvent, id: string) {
    e.kind == ToolCall && StrictCallId(e) == Some(id)
  }

  ghost predicate HasOutstanding(p: seq<CanonicalEvent>, n: nat, place: Place)
    requires n <= |p|
  {
    exists id :: IsOutstanding(p, n, id, place)
  }

  /** A result in the step of its call that leaves no other call of that step outstanding. */
  ghost predicate AnswersLast(p: seq<CanonicalEvent>, r: int)
    requires 0 <= r < |p|
  {
    && p[r].kind == ToolResult && StrictCallId(p[r]).Some?
    && IsOutstanding(p, r, StrictCallId(p[r]).value, PlaceIn(p[r]))
    && forall id :: IsOutstanding(p, r, id, PlaceIn(p[r])) ==> id == StrictCallId(p[r]).value
  }

  /** All calls of a step were answered, and no step was opened since. */
  ghost predicate StepIsDone(events: seq<CanonicalEvent>, p: seq<CanonicalEvent>, n: nat)
    requires n <= |p| == |events|
  {
    exists r :: 0 <= r < n && IsConversation(p[r]) && AnswersLast(p, r) && NoneOpenedSince(events, p, r, n)
  }

  ghost predicate NoneOpenedSince(events: seq<CanonicalEvent>, p: seq<CanonicalEvent>, r: int, n: nat)
    requires 0 <= r && n <= |p| == |events|
  {
    forall j :: r < j < n ==> !OpensStep(events, p, j)
  }

  ghost predicate Works(e: CanonicalEvent) {
    e.kind in {Reasoning, AssistantMessage, ToolCall}
  }

  ghost predicate HasWork(p: seq<CanonicalEvent>, n: nat, place: Place)
    requires n <= |p|
  {
    exists j :: 0 <= j < n && Works(p[j]) && PlaceIn(p[j]) == place
  }

  /** The first ordinal above all turns before the place. */
  ghost predicate IsNextTurn(p: seq<CanonicalEvent>, n: nat, ordinal: nat)
    requires n <= |p|
  {
    && (forall j :: 0 <= j < n && IsConversation(p[j]) ==> TurnCoord(p[j]).ordinal < ordinal)
    && (ordinal > 0 ==> exists j :: 0 <= j < n && IsConversation(p[j]) && TurnCoord(p[j]).ordinal == ordinal - 1)
  }

  // ----- where an event goes

  ghost predicate StepFollows(p: seq<CanonicalEvent>, i: nat, q: int, moves: bool)
    requires i < |p| && 0 <= q < i
  {
    var before, at := StepCoord(p[q]), StepCoord(p[i]);
    if moves then
      at.ordinal == before.ordinal + 1 && at.id == TurnCoord(p[i]).id + ":step:" + Digits(before.ordinal + 1)
    else at == before
  }

  ghost predicate OpensTurnAt(p: seq<CanonicalEvent>, i: nat)
    requires i < |p|
  {
    StepCoord(p[i]).ordinal == 0 && StepCoord(p[i]).id == TurnCoord(p[i]).id + ":step:" + Digits(0)
  }

  /**
   * An event keeps the coordinates it brings. Without a step of its own it joins the step before it in its turn, unless
   * model work follows a step whose calls are all answered, or a user message follows model work without outstanding
   * calls; then it opens the next step. A user message without a turn opens the next turn, and other events without one
   * stay in the turn they are in.
   */
  ghost predicate IsPlaced(events: seq<CanonicalEvent>, p: seq<CanonicalEvent>, i: nat)
    requires i < |p| == |events|
  {
    var e := events[i];
    && p[i].topology.Some? && p[i].topology.value.step.Some?
    && match e.topology
       case Some(t) =>
         && TurnCoord(p[i]) == t.turn && p[i].topology.value.phase == t.phase
         && (if t.step.Some? then StepCoord(p[i]) == t.step.value
             else if exists q :: IsPrevious(p, i, q) && TurnCoord(p[q]).id == t.turn.id then
               exists q :: && IsPrevious(p, i, q) && TurnCoord(p[q]).id == t.turn.id
                 && StepFollows(p, i, q, MovesInTurn(events, p, i, q))
             else OpensTurnAt(p, i))
       case None =>
         && Some(p[i].topology.value.phase) == PhaseOf(e.kind)
         && (if e.kind == UserMessage || forall q :: !IsPrevious(p, i, q) then
               && TurnCoord(p[i]).id == "mcsf-turn:" + e.id && IsNextTurn(p, i, TurnCoord(p[i]).ordinal)
               && OpensTurnAt(p, i)
             else
               && (exists l :: Governs(events, p, i, l) && TurnCoord(p[i]) == TurnCoord(p[l]))
               && exists q :: IsPrevious(p, i, q) && StepFollows(p, i, q, Works(e) && StepIsDone(events, p, i)))
  }

  ghost predicate MovesInTurn(events: seq<CanonicalEvent>, p: seq<CanonicalEvent>, i: nat, q: int)
    requires i < |p| == |events| && 0 <= q < i
  {
    || (events[i].kind == UserMessage && HasWork(p, i, PlaceIn(p[q])) && !HasOutstanding(p, i, PlaceIn(p[q])))
    || (Works(events[i]) && StepIsDone(events, p, i))
  }

  // ----- the state of the planner

  ghost predicate CourseAt(events: seq<CanonicalEvent>, p: seq<CanonicalEvent>, n: nat, c: Course)
    requires n <= |p| == |events|
  {
    && (c.cursor.None? <==> forall q :: !IsPrevious(p, n, q))
    && (c.cursor.Some? ==>
          && (exists q :: IsPrevious(p, n, q))
          && (forall q :: IsPrevious(p, n, q) ==>
                c.cursor.value.step == StepCoord(p[q]) && c.cursor.value.turn.id == TurnCoord(p[q]).id)
          && exists l :: Governs(events, p, n, l) && c.cursor.value.turn == TurnCoord(p[l]))
    && IsNextTurn(p, n, c.nextTurn)
    && (c.advance <==> StepIsDone(events, p, n))
  }

  ghost predicate ToolsAt(p: seq<CanonicalEvent>, n: nat, tools: Tools)
    requires n <= |p|
  {
    && Waits(tools)
    && (forall id, place :: id in tools.pending && tools.pending[id] == place <==> IsOutstanding(p, n, id, place))
    && (forall place :: place in tools.worked <==> HasWork(p, n, place))
  }

  lemma OutstandingIs(planned: seq<CanonicalEvent>, tools: Tools, id: string, place: Place)
    requires RemembersCall(tools, planned, id)
    ensures id in tools.pending && tools.pending[id] == place <==> IsOutstanding(planned, |planned|, id, place)
  {
    var first := FirstWith(planned, Calls(id));
    forall k | 0 <= k < |planned|
      ensures Calls(id)(planned[k]) <==> IsCallOf(planned[k], id)
    {
    }
    if id in tools.pending {
      assert IsOutstanding(planned, |planned|, id, tools.pending[id]);
    }
  }

  /** Outstanding calls before a place depend on what lies before it. */
  lemma OutstandingPrefix(p: seq<CanonicalEvent>, n: nat, id: string, place: Place)
    requires n <= |p|
    ensures IsOutstanding(p, n, id, place) <==> IsOutstanding(p[..n], n, id, place)
  {
  }

  // ----- one event further

  lemma PreviousFurther(p: seq<CanonicalEvent>, n: nat, q: int)
    requires n < |p|
    ensures IsPrevious(p, n + 1, q) <==> if IsConversation(p[n]) then q == n else IsPrevious(p, n, q)
  {
  }

  lemma OnePrevious(p: seq<CanonicalEvent>, n: nat, q: int, other: int)
    requires n <= |p| && IsPrevious(p, n, q) && IsPrevious(p, n, other)
    ensures q == other
  {
  }

  lemma GovernsFurther(events: seq<CanonicalEvent>, p: seq<CanonicalEvent>, n: nat, l: int)
    requires n < |p| == |events|
    ensures Governs(events, p, n + 1, l) <==> if SetsTurn(events, p, n) then l == n else Governs(events, p, n, l)
  {
    hide SetsTurn;
  }

  lemma DoneFurther(events: seq<CanonicalEvent>, p: seq<CanonicalEvent>, n: nat)
    requires n < |p| == |events|
    ensures StepIsDone(events, p, n + 1)
            <==> (IsConversation(p[n]) && AnswersLast(p, n)) || (!OpensStep(events, p, n) && StepIsDone(events, p, n))
  {
    hide OpensStep, AnswersLast;
    if IsConversation(p[n]) && AnswersLast(p, n) {
      assert NoneOpenedSince(events, p, n, n + 1);
    }
    if StepIsDone(events, p, n) && !OpensStep(events, p, n) {
      var r :| 0 <= r < n && IsConversation(p[r]) && AnswersLast(p, r) && NoneOpenedSince(events, p, r, n);
      assert NoneOpenedSince(events, p, r, n + 1);
    }
    var next := n + 1;
    if StepIsDone(events, p, next) {
      var r :| 0 <= r < next && IsConversation(p[r]) && AnswersLast(p, r) && NoneOpenedSince(events, p, r, next);
      if r < n {
        assert NoneOpenedSince(events, p, r, n);
      }
    }
  }

  lemma WorkFurther(p: seq<CanonicalEvent>, n: nat, place: Place)
    requires n < |p|
    ensures HasWork(p, n + 1, place) <==> HasWork(p, n, place) || (Works(p[n]) && PlaceIn(p[n]) == place)
  {
  }

  lemma NextTurnFurther(p: seq<CanonicalEvent>, n: nat, ordinal: nat)
    requires n < |p| && IsNextTurn(p, n, ordinal)
    ensures IsNextTurn(p, n + 1, if IsConversation(p[n]) then Max(ordinal, TurnCoord(p[n]).ordinal + 1) else ordinal)
  {
  }

  /** The planner completes a step exactly at a result that leaves no call of the step outstanding. */
  lemma CompletesExactly(p: seq<CanonicalEvent>, n: nat, tools: Tools, e: CanonicalEvent)
    requires n < |p| && ToolsAt(p, n, tools) && p[n].kind == e.kind && StrictCallId(p[n]) == StrictCallId(e)
    ensures CompletesStep(tools, e, PlaceIn(p[n])) <==> AnswersLast(p, n)
  {
    hide IsOutstanding, HasWork;
    var place := PlaceIn(p[n]);
    assert WaitsAt(tools, place);
    if e.kind == ToolResult && StrictCallId(e).Some? {
      var id := StrictCallId(e).value;
      if id in tools.pending && tools.pending[id] == place {
        assert id in PendingAt(tools.pending, place);
        if |PendingAt(tools.pending, place)| == 1 {
          OnlyOne(PendingAt(tools.pending, place), id);
          forall other | IsOutstanding(p, n, other, place)
            ensures other == id
          {
            assert other in PendingAt(tools.pending, place);
          }
        }
        if AnswersLast(p, n) {
          forall other | other in PendingAt(tools.pending, place)
            ensures other == id
          {
            assert IsOutstanding(p, n, other, place);
          }
          assert PendingAt(tools.pending, place) == {id};
        }
      }
    }
  }

  lemma OnlyOne(s: set<string>, id: string)
    requires id in s && |s| == 1
    ensures s == {id}
  {
    assert |s - {id}| == 0;
  }

  /** A step waits exactly while a call of it is outstanding. */
  lemma WaitingExactly(p: seq<CanonicalEvent>, n: nat, tools: Tools, place: Place)
    requires n <= |p| && ToolsAt(p, n, tools)
    ensures place in tools.waiting <==> HasOutstanding(p, n, place)
  {
    hide IsOutstanding, HasWork;
    assert WaitsAt(tools, place);
    if place in tools.waiting {
      var id :| id in PendingAt(tools.pending, place);
      assert IsOutstanding(p, n, id, place);
    }
    if HasOutstanding(p, n, place) {
      var id :| IsOutstanding(p, n, id, place);
      assert id in PendingAt(tools.pending, place);
    }
  }

  /** How the planner's course lies to the event it has just placed. */
  lemma LocatedExactly(events: seq<CanonicalEvent>, p: seq<CanonicalEvent>, n: nat, s: Planner)
    requires n < |p| == |events| && IsConversation(events[n]) && p[n] == PlannedEvent(s, events[n])
    requires CourseAt(events, p, n, s.course) && ToolsAt(p, n, s.tools)
    ensures var r := Locate(s.course, s.tools, events[n]);
            && r.cursor.value.step == StepCoord(p[n]) && r.cursor.value.turn.id == TurnCoord(p[n]).id
            && (SetsTurn(events, p, n) ==> r.cursor.value.turn == TurnCoord(p[n]))
            && (!SetsTurn(events, p, n) ==> s.course.cursor.Some? && r.cursor.value.turn == s.course.cursor.value.turn)
            && (r.advance <==> s.course.advance && !OpensStep(events, p, n))
            && r.nextTurn == Max(s.course.nextTurn, TurnCoord(p[n]).ordinal + 1)
  {
    hide IsOutstanding, HasWork, StepIsDone, Waits, WorksModel;
    var c, e := s.course, events[n];
    if c.cursor.Some? {
      var q :| IsPrevious(p, n, q);
      forall other | IsPrevious(p, n, other)
        ensures other == q
      {
        OnePrevious(p, n, q, other);
      }
      assert TurnCoord(p[q]).ordinal < c.nextTurn;
      var l :| Governs(events, p, n, l) && c.cursor.value.turn == TurnCoord(p[l]);
      GovernorBefore(events, p, n, l, c.nextTurn);
    }
  }

  lemma GovernorBefore(events: seq<CanonicalEvent>, p: seq<CanonicalEvent>, n: nat, l: int, ordinal: nat)
    requires n <= |p| == |events| && Governs(events, p, n, l) && IsNextTurn(p, n, ordinal)
    ensures TurnCoord(p[l]).ordinal < ordinal
  {
  }

  lemma CourseFurther(events: seq<CanonicalEvent>, p: seq<CanonicalEvent>, n: nat, s: Planner)
    requires n < |p| == |events| && IsConversation(events[n]) && p[n] == PlannedEvent(s, events[n])
    requires CourseAt(events, p, n, s.course) && ToolsAt(p, n, s.tools)
    ensures CourseAt(events, p, n + 1, PlanNext(s, events[n]).course)
  {
    hide IsOutstanding, HasWork, StepIsDone, Waits, Locate, OpensStep, AnswersLast, SetsTurn, CompletesStep,
        IsNextTurn;
    LocatedExactly(events, p, n, s);
    EntersItself(s, events[n]);
    SameCallId(s, events[n]);
    CompletesExactly(p, n, s.tools, events[n]);
    DoneFurther(events, p, n);
    NextTurnFurther(p, n, s.course.nextTurn);
    PreviousFurther(p, n, n);
    var next := n + 1;
    forall q | IsPrevious(p, next, q)
      ensures q == n
    {
      PreviousFurther(p, n, q);
    }
    if SetsTurn(events, p, n) {
      GovernsFurther(events, p, n, n);
    } else {
      var l :| Governs(events, p, n, l) && s.course.cursor.value.turn == TurnCoord(p[l]);
      GovernsFurther(events, p, n, l);
    }
  }

  lemma SameCallId(s: Planner, e: CanonicalEvent)
    ensures StrictCallId(PlannedEvent(s, e)) == StrictCallId(e) && PlannedEvent(s, e).kind == e.kind
  {
    hide Locate, TopologyOf;
  }

  lemma OutsideFurther(events: seq<CanonicalEvent>, p: seq<CanonicalEvent>, n: nat, c: Course)
    requires n < |p| == |events| && !IsConversation(p[n]) && CourseAt(events, p, n, c)
    ensures CourseAt(events, p, n + 1, c)
  {
    hide IsOutstanding, HasWork, StepIsDone, AnswersLast, IsNextTurn;
    DoneFurther(events, p, n);
    NextTurnFurther(p, n, c.nextTurn);
    var next := n + 1;
    forall q
      ensures IsPrevious(p, next, q) <==> IsPrevious(p, n, q)
    {
      PreviousFurther(p, n, q);
    }
    if c.cursor.Some? {
      var l :| Governs(events, p, n, l) && c.cursor.value.turn == TurnCoord(p[l]);
      GovernsFurther(events, p, n, l);
    }
  }

  lemma OutstandingShown(events: seq<CanonicalEvent>, n: nat, id: string, place: Place)
    requires n <= |events|
    ensures var tools := PlanAll(events[..n]).tools;
            id in tools.pending && tools.pending[id] == place <==> IsOutstanding(Planned(events), n, id, place)
  {
    hide IsOutstanding, RemembersCall, PlanAll, Planned, Remembers;
    PlannedAt(events, n);
    PlanRemembers(events[..n]);
    OutstandingIs(Planned(events[..n]), PlanAll(events[..n]).tools, id, place);
    OutstandingPrefix(Planned(events), n, id, place);
  }

  /** The tools the planner remembers are what the plan shows. */
  lemma ToolsShown(events: seq<CanonicalEvent>, n: nat)
    requires n <= |events|
    ensures ToolsAt(Planned(events), n, PlanAll(events[..n]).tools)
  {
    hide IsOutstanding, HasWork, Waits, PlanAll, Planned;
    ToolsWait(events[..n]);
    forall id, place
      ensures id in PlanAll(events[..n]).tools.pending && PlanAll(events[..n]).tools.pending[id] == place
              <==> IsOutstanding(Planned(events), n, id, place)
    {
      OutstandingShown(events, n, id, place);
    }
    WorkShown(events, n);
  }

  lemma {:induction false} ToolsWait(events: seq<CanonicalEvent>)
    ensures Waits(PlanAll(events).tools)
  {
    hide Waits, Track, Locate, TopologyOf;
    if events == [] {
      NothingWaits();
    } else {
      var init, e := events[..|events| - 1], Last(events);
      ToolsWait(init);
      if IsConversation(e) {
        TrackWaits(PlanAll(init).tools, e,
            PlaceFor(TopologyOf(Locate(PlanAll(init).course, PlanAll(init).tools, e), e)));
      }
    }
  }

  lemma {:induction false} WorkShown(events: seq<CanonicalEvent>, n: nat)
    requires n <= |events|
    ensures forall place :: place in PlanAll(events[..n]).tools.worked <==> HasWork(Planned(events), n, place)
  {
    hide HasWork, Locate, TopologyOf, Planned;
    if n > 0 {
      WorkShown(events, n - 1);
      var s, e, p := PlanAll(events[..n - 1]), events[n - 1], Planned(events);
      assert events[..n][..n - 1] == events[..n - 1] && Last(events[..n]) == e;
      PlannedAt(events, n - 1);
      SameCallId(s, e);
      forall place
        ensures place in PlanAll(events[..n]).tools.worked <==> HasWork(p, n, place)
      {
        WorkFurther(p, n - 1, place);
        if IsConversation(e) {
          EntersItself(s, e);
          TrackWorks(s.tools, e, PlaceIn(p[n - 1]), place);
        }
      }
    } else {
      NoWork(Planned(events));
    }
  }

  lemma TrackWorks(tools: Tools, e: CanonicalEvent, at: Place, place: Place)
    ensures place in Track(tools, e, at).worked <==> place in tools.worked || (Works(e) && place == at)
  {
  }

  lemma NoWork(p: seq<CanonicalEvent>)
    ensures forall place :: !HasWork(p, 0, place)
  {
  }

  lemma {:induction false} CourseShown(events: seq<CanonicalEvent>, n: nat)
    requires n <= |events|
    ensures CourseAt(events, Planned(events), n, PlanAll(events[..n]).course)
  {
    hide CourseAt, ToolsAt, Locate, TopologyOf, Planned, Track, Register, Conflicts, ToolIssues;
    if n > 0 {
      CourseShown(events, n - 1);
      var s, e, p := PlanAll(events[..n - 1]), events[n - 1], Planned(events);
      assert events[..n][..n - 1] == events[..n - 1] && Last(events[..n]) == e;
      PlannedAt(events, n - 1);
      ToolsShown(events, n - 1);
      SameCallId(s, e);
      if IsConversation(e) {
        CourseFurther(events, p, n - 1, s);
      } else {
        OutsidePlanned(s, e);
        OutsideFurther(events, p, n - 1, s.course);
      }
    } else {
      NoCourse(events, Planned(events));
    }
  }

  lemma NoCourse(events: seq<CanonicalEvent>, p: seq<CanonicalEvent>)
    requires |p| == |events|
    ensures CourseAt(events, p, 0, START.course)
  {
  }

  lemma PlacedBy(events: seq<CanonicalEvent>, p: seq<CanonicalEvent>, n: nat, s: Planner)
    requires n < |p| == |events| && IsConversation(events[n]) && p[n] == PlannedEvent(s, events[n])
    requires CourseAt(events, p, n, s.course) && ToolsAt(p, n, s.tools)
    ensures IsPlaced(events, p, n)
  {
    hide IsOutstanding, HasWork, StepIsDone, Waits, HasOutstanding, Governs, IsNextTurn;
    var c, e := s.course, events[n];
    if c.cursor.Some? {
      var q :| IsPrevious(p, n, q);
      forall other | IsPrevious(p, n, other)
        ensures other == q
      {
        OnePrevious(p, n, q, other);
      }
      WaitingExactly(p, n, s.tools, PlaceIn(p[q]));
    }
  }

  /** Every conversation event is placed so. */
  lemma PlacedExactly(events: seq<CanonicalEvent>, i: nat)
    requires i < |events| && IsConversation(events[i])
    ensures IsPlaced(events, Planned(events), i)
  {
    hide IsPlaced, CourseAt, ToolsAt, Locate, TopologyOf, PlanAll, Planned, PlannedEvent;
    PlannedAt(events, i);
    CourseShown(events, i);
    ToolsShown(events, i);
    PlacedBy(events, Planned(events), i, PlanAll(events[..i]));
  }
}
