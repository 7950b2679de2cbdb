/** Planner and projection together: an eligible plan that projects is accepted by the session checker. */
module PlannedProjection {
  import opened Outcomes
  import opened Sequences
  import opened Canonical
  import opened CoordinateRuns
  import opened SessionInvariants
  import opened PortableEmission
  import opened PortableRelocation
  import opened PortableMaterialize
  import opened PortableTranscript
  import opened Materialize
  import opened TopologyPlanner
  import opened TopologyCorrelation
  import opened TopologyOutline
  import opened TopologySteps
  import opened SteeringCrossing

  /** What the projection accepts as a sequence was one before planning, with distinct identities. */
  lemma ProjectedSequence(events: seq<CanonicalEvent>, createdAt: int)
    requires PortableProjection(Applied(events), createdAt)
    ensures InOrder(events) && DistinctIds(events)
  {
    hide Applied, HasPortable, TurnsPlanned, ReadableEvent, AllRelocatable, PlanFor, TurnPlannable;
    var applied := Applied(events);
    assert ValidSequence(applied);
    forall i | 0 <= i < |events|
      ensures applied[i].sequence == events[i].sequence && applied[i].id == events[i].id
    {
      ApplyingKeepsEvents(events, i);
    }
  }

  /**
   * Whatever an eligible plan projects to passes the session checker and keeps the conversation: the order of calls and
   * results that acceptance needs is what the planner has checked.
   */
  lemma EligiblePlansAreAccepted(events: seq<CanonicalEvent>, createdAt: int)
    requires Eligible(events) && PortableProjection(Applied(events), createdAt)
    ensures Accepted(Rows(Stream(PlanFor(Applied(events), createdAt))))
    ensures Transcript(Rows(Stream(PlanFor(Applied(events), createdAt)))) == CanonicalTranscript(Applied(events))
  {
    hide Planned, Applied, Eligible, PortableProjection, PlanFor, Accepted;
    ProjectedSequence(events, createdAt);
    AppliedIsPlanned(events);
    EligibleCallsPrecedeResults(events);
    PortableProjectionCorrect(Applied(events), createdAt);
  }

  // ----- turns and steps of a planned history

  /** The projection finds turns and steps: every conversation event is located, and both are numbered. */
  ghost predicate Collected(events: seq<CanonicalEvent>) {
    TurnsPlanned(events)
    && forall turn :: turn in Turns(events) ==>
         Numbered(Steps(turn)) && forall e :: e in Filter(turn.members, IsModel) ==> HasStep(e)
  }

  lemma {:induction false} EligiblePhases(events: seq<CanonicalEvent>, i: nat)
    requires PlanAll(events).issues == [] && i < |events| && IsConversation(events[i])
    ensures HasTurn(Planned(events)[i])
  {
    hide PlanNext, PlannedEvent, Locate;
    var init, e := events[..|events| - 1], Last(events);
    PlanIssues(PlanAll(init), e);
    if i < |init| {
      EligiblePhases(init, i);
    } else {
      RightPhase(PlanAll(init), e);
    }
  }

  lemma RightPhase(s: Planner, e: CanonicalEvent)
    requires IsConversation(e) && !WrongPhase(e)
    ensures HasTurn(PlannedEvent(s, e))
  {
  }

  lemma PlannedLocated(events: seq<CanonicalEvent>, turn: Group)
    requires turn in Turns(Planned(events))
    ensures forall e :: e in Filter(turn.members, IsModel) ==> HasStep(e)
  {
    hide Planned;
    FilterMembership(turn.members, IsModel);
    forall e | e in turn.members
      ensures HasStep(e)
    {
      var i := PlannedMember(events, turn, e);
    }
  }

  /**
   * The turns and steps that an eligible plan writes are collected by the projection exactly when the history comes in
   * sequence.
   */
  lemma EligiblePlansAreCollectedExactly(events: seq<CanonicalEvent>)
    requires Eligible(events) && DistinctIds(events)
    ensures Collected(Applied(events)) <==> InSequence(events)
  {
    hide Planned, Applied, PlanAll, Numbered, Turns, Steps, HasTurn, HasStep, InSequence;
    AppliedIsPlanned(events);
    CollectableExactly(events);
    FilterMembership(Planned(events), IsConversation);
    forall e | e in Filter(Planned(events), IsConversation)
      ensures HasTurn(e)
    {
      var i :| 0 <= i < |Planned(events)| && Planned(events)[i] == e;
      PlanningKeepsEvents(events, i);
      EligiblePhases(events, i);
    }
    forall turn | turn in Turns(Planned(events))
      ensures forall e :: e in Filter(turn.members, IsModel) ==> HasStep(e)
    {
      PlannedLocated(events, turn);
    }
  }

  /** Eligible or not, a plan that projects comes from a history in sequence. */
  lemma ProjectedComeInSequence(events: seq<CanonicalEvent>, createdAt: int)
    requires PortableProjection(Applied(events), createdAt)
    ensures InSequence(events)
  {
    hide Planned, Applied, Numbered, Turns, Steps, InSequence, AllRelocatable, StepWritable;
    ProjectedSequence(events, createdAt);
    AppliedIsPlanned(events);
    CollectableExactly(events);
    SamePlan(Planned(events), createdAt);
    forall turn | turn in Turns(Planned(events))
      ensures Numbered(Steps(turn))
    {
      assert TurnPlannable(Planned(events), turn);
    }
  }

  lemma SamePlan(events: seq<CanonicalEvent>, createdAt: int)
    ensures PlanFor(events, createdAt).turns == Turns(events)
  {
  }

  /**
   * A turn of an eligible plan that leaves its steps to the planner can be written exactly when the content of its
   * events can, and no user message came while a call was outstanding whose step went on afterwards.
   */
  lemma FreeTurnsArePlannableExactly(events: seq<CanonicalEvent>, turn: Group)
    requires InOrder(events) && Eligible(events) && TurnsInSequence(events) && IsFree(events, turn.coord.id)
    requires turn in Turns(Planned(events))
    ensures TurnPlannable(Planned(events), turn) <==>
              forall step :: step in Steps(turn) ==>
                (forall i, j :: !SteersInto(events, turn.coord, step.coord, i, j))
                    && forall e :: e in AssistantEvents(Planned(events), step) ==> Writable(Planned(events), e)
  {
    hide Planned, Eligible, TurnsInSequence, IsFree, CrossesSteering, SteersInto, InOrder, Turns, Steps, Numbered,
        AssistantEvents, Writable, HasStep;
    PlannedLocated(events, turn);
    PlannedStepsAreNumbered(events, turn);
    forall step | step in Steps(turn)
      ensures CrossesSteering(Planned(events), turn, step)
              <==> exists i, j :: SteersInto(events, turn.coord, step.coord, i, j)
    {
      FreeTurnCrossesExactly(events, turn, step);
    }
  }

  lemma PlannedPhases(events: seq<CanonicalEvent>)
    requires Untold(events)
    ensures forall e :: e in Filter(Planned(events), IsConversation) ==> HasTurn(e)
  {
    hide Planned;
    FilterMembership(Planned(events), IsConversation);
    forall e | e in Filter(Planned(events), IsConversation)
      ensures HasTurn(e)
    {
      var i :| 0 <= i < |Planned(events)| && Planned(events)[i] == e;
      PlanningKeepsEvents(events, i);
      UntoldPhase(events, i);
    }
  }

  lemma {:induction false} UntoldPhase(events: seq<CanonicalEvent>, i: nat)
    requires i < |events| && IsConversation(events[i]) && events[i].topology.None?
    ensures Planned(events)[i].topology.Some?
            && Some(Planned(events)[i].topology.value.phase) == PhaseOf(events[i].kind)
  {
    hide PlanAll, Locate;
    if i < |events| - 1 {
      UntoldPhase(events[..|events| - 1], i);
    }
  }

  /** In a history without topology only the first event of a planned turn can be a user message. */
  ghost predicate UsersLead(runs: seq<Group>) {
    forall k, i :: 0 <= k < |runs| && 0 < i < |runs[k].members| ==> !IsUser(runs[k].members[i])
  }

  lemma UserOpensTurn(o: Outline, runs: seq<Group>, events: seq<CanonicalEvent>, e: CanonicalEvent, p: CanonicalEvent)
    requires TurnsDerived(o, events) && Outlines(o, runs) && UsersLead(runs)
    requires Untold(events + [e]) && IsConversation(e) && IsUser(p) == IsUser(e) && TurnCoord(p) == Landing(o, e).turn
    ensures UsersLead(Extend(runs, TurnCoord(p), p))
  {
    hide Landing, TurnsDerived, TurnFits;
    UntoldNext(o, events, e);
    var turn := TurnCoord(p);
    var more := Extend(runs, turn, p);
    ExtendJoined(runs, turn, p);
    if IsUser(e) && runs != [] {
      assert o.turns[|runs| - 1] == Last(runs).coord;
      OpensAnew(o, events, e);
    }
    forall k, i | 0 <= k < |more| && 0 < i < |more[k].members|
      ensures !IsUser(more[k].members[i])
    {
      if k < |more| - 1 {
        assert more[k] == more[..|more| - 1][k] == runs[k];
      }
    }
  }

  lemma OpensAnew(o: Outline, events: seq<CanonicalEvent>, e: CanonicalEvent)
    requires TurnsDerived(o, events) && DistinctIds(events + [e]) && o.turns != []
    ensures Last(o.turns).id != "mcsf-turn:" + e.id
  {
    NewName(o.turns[|o.turns| - 1], events, e);
  }

  lemma {:induction false} UsersLeadTurns(events: seq<CanonicalEvent>)
    requires Untold(events)
    ensures UsersLead(Turns(Planned(events)))
  {
    hide UsersLead, PlannedEvent, TurnsDerived, Numbered, Outlines;
    if events == [] {
      NobodyLeads();
    } else {
      var init, e := events[..|events| - 1], Last(events);
      assert events == init + [e];
      UsersLeadTurns(init);
      UntoldTurns(init);
      OutlineIsPlanned(init);
      TurnsMore(events);
      if IsConversation(e) {
        PlannedLanding(init, e);
        PlannedKind(PlanAll(init), e);
        UserOpensTurn(OutlineOf(init), Turns(Planned(init)), init, e, PlannedEvent(PlanAll(init), e));
      }
    }
  }

  lemma PlannedKind(s: Planner, e: CanonicalEvent)
    ensures PlannedEvent(s, e).kind == e.kind
  {
  }

  lemma NobodyLeads()
    ensures UsersLead(Turns([]))
  {
    assert Filter([], IsConversation) == [];
  }

  /** So nothing is said in a step before a user message of its turn. */
  lemma UntoldNeverCrosses(events: seq<CanonicalEvent>, turn: Group, step: Group)
    requires Untold(events) && InOrder(events) && turn in Turns(Planned(events)) && step in Steps(turn)
    ensures !CrossesSteering(Planned(events), turn, step)
  {
    hide Planned, Numbered, Untold, AssistantEvents;
    var planned := Planned(events);
    UsersLeadTurns(events);
    forall i | 0 <= i < |events|
      ensures planned[i].sequence == events[i].sequence
    {
      PlanningKeepsEvents(events, i);
    }
    TurnsInOrder(planned);
    if CrossesSteering(planned, turn, step) {
      var u :| u in turn.members && IsUser(u) && AssistantEvents(planned, step)[0].sequence < u.sequence;
      assert u == turn.members[0];
      var f := AssistantEvents(planned, step)[0];
      FeedsInTurn(planned, turn, step, f);
      assert false;
    }
  }

  lemma FeedsInTurn(events: seq<CanonicalEvent>, turn: Group, step: Group, f: CanonicalEvent)
    requires InOrder(turn.members) && step in Steps(turn) && f in AssistantEvents(events, step)
    ensures f in turn.members && turn.members[0].sequence <= f.sequence
  {
    FilterMembership(step.members, Feeds(events));
    var k :| 0 <= k < |Steps(turn)| && Steps(turn)[k] == step;
    RunMember(Filter(turn.members, IsModel), StepCoord, k, f);
    FilterMembership(turn.members, IsModel);
  }

  /**
   * A history without any topology is planned into turns that the projection accepts: whether a turn can be written
   * depends on the content of its events alone.
   */
  lemma UntoldHistoriesHavePlannedTurns(events: seq<CanonicalEvent>)
    requires Untold(events) && InOrder(events)
    ensures TurnsPlanned(Planned(events))
    ensures forall turn :: turn in Turns(Planned(events)) ==>
              (TurnPlannable(Planned(events), turn) <==>
                 forall step :: step in Steps(turn) ==> forall e :: e in AssistantEvents(Planned(events), step)
                                                         ==> Writable(Planned(events), e))
  {
    hide Planned, Numbered, Steps, HasTurn, HasStep, AssistantEvents, Writable, Untold, InOrder, CrossesSteering;
    PlannedPhases(events);
    UntoldHistoriesArePlannable(events);
    forall turn | turn in Turns(Planned(events))
      ensures forall e :: e in Filter(turn.members, IsModel) ==> HasStep(e)
      ensures forall step :: step in Steps(turn) ==> !CrossesSteering(Planned(events), turn, step)
    {
      FilterMembership(turn.members, IsModel);
      forall step | step in Steps(turn)
        ensures !CrossesSteering(Planned(events), turn, step)
      {
        UntoldNeverCrosses(events, turn, step);
      }
    }
  }
}
