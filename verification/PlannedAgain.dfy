/** Planning a planned history changes nothing: its coordinates are all explicit, and the planner keeps those. */
module PlannedAgain {
  import opened Outcomes
  import opened Sequences
  import opened Canonical
  import opened TopologyPlanner
  import opened TopologyCorrelation
  import opened TopologyOutline

  lemma ExplicitStays(s: Planner, e: CanonicalEvent)
    requires IsConversation(e) ==> HasExplicitStep(e)
    ensures PlannedEvent(s, e) == e
  {
  }

  /** What the planner keeps besides its course is the same for an event and for its planned form. */
  lemma PlansAlike(s: Planner, again: Planner, e: CanonicalEvent)
    requires s.tables == again.tables && s.tools == again.tools && s.issues == again.issues
    ensures var p := PlannedEvent(s, e);
            && PlanNext(s, e).tables == PlanNext(again, p).tables
            && PlanNext(s, e).tools == PlanNext(again, p).tools
            && PlanNext(s, e).issues == PlanNext(again, p).issues
  {
    hide Track, ToolIssues, Register, Conflicts, Locate;
    if IsConversation(e) {
      var p := PlannedEvent(s, e);
      var at := TopologyOf(Locate(s.course, s.tools, e), e);
      assert p.topology == Some(at) && at.step.Some?;
      assert TopologyOf(Locate(again.course, again.tools, p), p) == at;
      TrackIgnoresTopology(s.tools, e, p, PlaceFor(at));
      assert WrongPhase(p) == WrongPhase(e);
    }
  }

  lemma {:induction false} PlansAgain(events: seq<CanonicalEvent>)
    ensures var s, again := PlanAll(events), PlanAll(Planned(events));
            s.tables == again.tables && s.tools == again.tools && s.issues == again.issues
  {
    hide PlanNext, PlannedEvent;
    if events != [] {
      var init, e := events[..|events| - 1], Last(events);
      PlansAgain(init);
      assert Planned(events)[..|init|] == Planned(init);
      assert Last(Planned(events)) == PlannedEvent(PlanAll(init), e);
      PlansAlike(PlanAll(init), PlanAll(Planned(init)), e);
    }
  }

  /** Planned events are located, so a second plan keeps them. */
  lemma PlannedTwice(events: seq<CanonicalEvent>)
    ensures Planned(Planned(events)) == Planned(events)
  {
    hide Planned;
    var planned := Planned(events);
    forall i | 0 <= i < |planned|
      ensures Planned(planned)[i] == planned[i]
    {
      PlanningKeepsEvents(events, i);
      PlanningKeepsEvents(planned, i);
    }
  }

  lemma {:induction false} TableAgain(events: seq<CanonicalEvent>, table: map<string, Topology>)
    requires forall i :: 0 <= i < |events| && IsConversation(events[i]) ==>
               events[i].id in table && events[i].topology == Some(table[events[i].id]) && HasExplicitStep(events[i])
    ensures forall id :: id in TopologyById(events) ==> id in table && TopologyById(events)[id] == table[id]
  {
    hide PlanAll, PlannedEvent;
    if events != [] {
      var init, e := events[..|events| - 1], Last(events);
      assert forall i :: 0 <= i < |init| ==> init[i] == events[i];
      TableAgain(init, table);
      assert events[|events| - 1] == e;
      if IsConversation(e) {
        ExplicitStays(PlanAll(init), e);
      }
    }
  }

  lemma {:induction false} TableLocated(events: seq<CanonicalEvent>)
    ensures forall id :: id in TopologyById(events) ==> TopologyById(events)[id].step.Some?
  {
    hide PlanAll, Locate;
    if events != [] {
      TableLocated(events[..|events| - 1]);
    }
  }

  /** Planning and writing the plan twice is doing it once, repeated identities included. */
  lemma AppliedTwice(events: seq<CanonicalEvent>)
    ensures Applied(Applied(events)) == Applied(events)
  {
    hide TopologyById;
    var applied, table := Applied(events), TopologyById(events);
    TableLocated(events);
    forall i | 0 <= i < |events| && IsConversation(applied[i])
      ensures applied[i].id in table && applied[i].topology == Some(table[applied[i].id]) && HasExplicitStep(applied[i])
    {
      InTable(events, i);
    }
    TableAgain(applied, table);
    forall i | 0 <= i < |applied|
      ensures Applied(applied)[i] == applied[i]
    {
      assert applied[i] == Labelled(table, events[i]);
    }
  }

  /** A planned history is judged as before, and comes in sequence as before. */
  lemma JudgedAsBefore(events: seq<CanonicalEvent>)
    ensures Eligible(Planned(events)) <==> Eligible(events)
    ensures InSequence(Planned(events)) <==> InSequence(events)
  {
    hide PlanAll, Planned, InSequence, Collectable;
    PlansAgain(events);
    PlannedTwice(events);
    CollectableExactly(events);
    CollectableExactly(Planned(events));
  }
}
