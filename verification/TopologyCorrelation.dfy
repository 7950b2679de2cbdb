/** When the planner finds nothing to object to, every tool call is answered once, later, and in its own step. */
module TopologyCorrelation {
  import opened Sequences
  import opened Canonical
  import opened PortableEmission
  import opened PortableAcceptance
  import opened TopologyPlanner

  predicate IsTool(e: CanonicalEvent) {
    e.kind == ToolCall || e.kind == ToolResult
  }

  function PlaceOfEvent(e: CanonicalEvent): Place
    requires HasExplicitStep(e)
  {
    (e.topology.value.turn.id, e.topology.value.step.value.id)
  }

  /** What the planner's tables say about one identifier is what the planned events show. */
  ghost predicate TrackedAt(s: Tools, planned: seq<CanonicalEvent>, id: string) {
    var calls, results := CallsWith(planned, id), ResultsWith(planned, id);
    && |calls| == (if id in s.seen then 1 else 0)
    && |results| == (if id in s.seen && id !in s.pending then 1 else 0)
    && (id in s.pending ==> id in s.seen && HasExplicitStep(calls[0]) && s.pending[id] == PlaceOfEvent(calls[0]))
    && (id in s.seen && id !in s.pending ==> SameStep(calls[0], results[0]) && calls[0].sequence < results[0].sequence)
  }

  // ----- one more event

  lemma CallsMore(planned: seq<CanonicalEvent>, e: CanonicalEvent, id: string)
    ensures CallsWith(planned + [e], id) == CallsWith(planned, id) + if IsCallWith(id)(e) then [e] else []
    ensures ResultsWith(planned + [e], id) == ResultsWith(planned, id) + if IsResultWith(id)(e) then [e] else []
  {
    assert (planned + [e])[..|planned|] == planned;
  }

  lemma CallTracked(s: Tools, planned: seq<CanonicalEvent>, e: CanonicalEvent, id: string)
    requires TrackedAt(s, planned, id) && e.kind == ToolCall && HasExplicitStep(e)
    requires ToolIssues(s, e, PlaceOfEvent(e)) == []
    ensures StrictCallId(e).Some? && TrackedAt(Track(s, e, PlaceOfEvent(e)), planned + [e], id)
  {
    CallsMore(planned, e, id);
  }

  lemma ResultTracked(s: Tools, planned: seq<CanonicalEvent>, e: CanonicalEvent, id: string)
    requires TrackedAt(s, planned, id) && e.kind == ToolResult && HasExplicitStep(e)
    requires forall d :: d in planned ==> d.sequence < e.sequence
    requires ToolIssues(s, e, PlaceOfEvent(e)) == []
    ensures StrictCallId(e).Some? && TrackedAt(Track(s, e, PlaceOfEvent(e)), planned + [e], id)
  {
    hide Remaining;
    CallsMore(planned, e, id);
    FilterMembership(planned, IsCallWith(id));
    if id in s.pending {
      assert CallsWith(planned, id)[0] in CallsWith(planned, id);
    }
  }

  lemma OtherTracked(s: Tools, planned: seq<CanonicalEvent>, e: CanonicalEvent, place: Place, id: string)
    requires TrackedAt(s, planned, id) && !IsTool(e)
    ensures TrackedAt(s, planned + [e], id) && TrackedAt(Track(s, e, place), planned + [e], id)
  {
    CallsMore(planned, e, id);
  }

  lemma TrackTracked(s: Tools, planned: seq<CanonicalEvent>, e: CanonicalEvent, id: string)
    requires TrackedAt(s, planned, id) && HasExplicitStep(e)
    requires forall d :: d in planned ==> d.sequence < e.sequence
    requires ToolIssues(s, e, PlaceOfEvent(e)) == []
    ensures IsTool(e) ==> StrictCallId(e).Some?
    ensures TrackedAt(Track(s, e, PlaceOfEvent(e)), planned + [e], id)
  {
    hide TrackedAt, Track, ToolIssues;
    if e.kind == ToolCall {
      CallTracked(s, planned, e, id);
    } else if e.kind == ToolResult {
      ResultTracked(s, planned, e, id);
    } else {
      OtherTracked(s, planned, e, PlaceOfEvent(e), id);
    }
  }

  lemma TrackIgnoresTopology(s: Tools, e: CanonicalEvent, planned: CanonicalEvent, place: Place)
    requires planned.(topology := e.topology) == e
    ensures Track(s, e, place) == Track(s, planned, place) && ToolIssues(s, e, place) == ToolIssues(s, planned, place)
  {
    assert StrictCallId(e) == StrictCallId(planned);
  }

  lemma NoIssues(before: seq<Issue>, phase: seq<Issue>, conflicts: seq<Issue>, tools: seq<Issue>)
    requires before + (phase + conflicts + tools) == []
    ensures before == [] && phase == [] && conflicts == [] && tools == []
  {
    assert |before + (phase + conflicts + tools)| == |before| + |phase| + |conflicts| + |tools|;
  }

  lemma PlanIssues(s: Planner, e: CanonicalEvent)
    requires PlanNext(s, e).issues == []
    ensures s.issues == []
    ensures IsConversation(e) ==>
              var topology := TopologyOf(Locate(s.course, s.tools, e), e);
              ToolIssues(s.tools, e, PlaceFor(topology)) == []
                  && Conflicts(s.tables, topology.turn, topology.step.value) == [] && !WrongPhase(e)
  {
    hide Locate, Register, Track, ToolIssues, Conflicts;
    if IsConversation(e) {
      var topology := TopologyOf(Locate(s.course, s.tools, e), e);
      NoIssues(s.issues, IssueIf(WrongPhase(e), PhaseMismatch), Conflicts(s.tables, topology.turn, topology.step.value),
          ToolIssues(s.tools, e, PlaceFor(topology)));
    }
  }

  lemma PlanTracked(s: Planner, planned: seq<CanonicalEvent>, e: CanonicalEvent, id: string)
    requires TrackedAt(s.tools, planned, id)
    requires forall d :: d in planned ==> d.sequence < e.sequence
    requires PlanNext(s, e).issues == []
    ensures IsTool(e) ==> StrictCallId(e).Some?
    ensures TrackedAt(PlanNext(s, e).tools, planned + [PlannedEvent(s, e)], id)
  {
    hide TrackedAt, Locate, Register, Track, ToolIssues, Conflicts;
    PlanIssues(s, e);
    var p := PlannedEvent(s, e);
    if IsConversation(e) {
      TrackIgnoresTopology(s.tools, e, p, PlaceOfEvent(p));
      TrackTracked(s.tools, planned, p, id);
      assert StrictCallId(e) == StrictCallId(p);
    } else {
      OtherTracked(s.tools, planned, e, ("", ""), id);
    }
  }

  // ----- the whole

  lemma PlannedBefore(events: seq<CanonicalEvent>)
    requires InOrder(events) && events != []
    ensures forall d :: d in Planned(events[..|events| - 1]) ==> d.sequence < Last(events).sequence
    ensures InOrder(events[..|events| - 1])
  {
    hide PlanAll, Planned;
    var init := events[..|events| - 1];
    forall d | d in Planned(init)
      ensures d.sequence < Last(events).sequence
    {
      var i :| 0 <= i < |init| && Planned(init)[i] == d;
      PlanningKeepsEvents(init, i);
      assert init[i] == events[i];
    }
  }

  lemma {:induction false} AllTracked(events: seq<CanonicalEvent>, id: string)
    requires InOrder(events) && PlanAll(events).issues == []
    ensures TrackedAt(PlanAll(events).tools, Planned(events), id)
    ensures forall e :: e in events && IsTool(e) ==> StrictCallId(e).Some?
  {
    hide TrackedAt, PlanNext, PlannedEvent;
    if events == [] {
      NothingTracked(id);
    } else {
      var init, e := events[..|events| - 1], Last(events);
      PlanIssues(PlanAll(init), e);
      PlannedBefore(events);
      AllTracked(init, id);
      PlanTracked(PlanAll(init), Planned(init), e, id);
      assert events == init + [e];
    }
  }

  lemma NothingTracked(id: string)
    ensures TrackedAt(START.tools, [], id)
  {
  }

  lemma {:induction false} SeenCalls(events: seq<CanonicalEvent>, e: CanonicalEvent)
    requires InOrder(events) && Eligible(events) && e in events && IsTool(e)
    ensures StrictCallId(e).Some? && StrictCallId(e).value in PlanAll(events).tools.seen
  {
    hide PlanAll, Planned;
    AllTracked(events, "");
    var id := StrictCallId(e).value;
    AllTracked(events, id);
    var i :| 0 <= i < |events| && events[i] == e;
    PlanningKeepsEvents(events, i);
    var p := Planned(events)[i];
    assert p in Planned(events) && StrictCallId(p) == StrictCallId(e) && p.kind == e.kind;
    FilterMembership(Planned(events), IsCallWith(id));
    FilterMembership(Planned(events), IsResultWith(id));
    if e.kind == ToolCall {
      assert p in CallsWith(Planned(events), id);
    } else {
      assert p in ResultsWith(Planned(events), id);
    }
  }

  /** In an eligible plan every tool call and every tool result is correlated, and the call comes first. */
  lemma EligibleIsCorrelated(events: seq<CanonicalEvent>, i: nat)
    requires InOrder(events) && Eligible(events) && i < |events| && IsTool(events[i])
    ensures var e := Planned(events)[i];
            && StrictCallId(e).Some? && Matched(Planned(events), StrictCallId(e).value)
            && CallFor(Planned(events), StrictCallId(e).value).sequence < ResultsWith(Planned(events),
               StrictCallId(e).value)[0].sequence
  {
    hide PlanAll, Planned;
    assert events[i] in events;
    SeenCalls(events, events[i]);
    PlanningKeepsEvents(events, i);
    AllTracked(events, StrictCallId(events[i]).value);
  }

  /** The order of calls and results that the projection needs is what eligibility checks. */
  lemma EligibleCallsPrecedeResults(events: seq<CanonicalEvent>)
    requires InOrder(events) && Eligible(events)
    ensures CallsPrecedeResults(Planned(events))
  {
    hide PlanAll, Planned;
    forall e | e in Planned(events) && MatchedResult(Planned(events), e)
      ensures AnsweredInOrder(Planned(events), e)
    {
      var i :| 0 <= i < |Planned(events)| && Planned(events)[i] == e;
      PlanningKeepsEvents(events, i);
      EligibleIsCorrelated(events, i);
      MatchedCallIs(Planned(events), StrictCallId(e).value, e);
    }
  }
}
