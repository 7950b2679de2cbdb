/**
 * What a plan reports: its entries are the planned events, and its reasons decide and explain whether it is eligible.
 */
module TopologyReasons {
  import opened Outcomes
  import opened Sequences
  import opened Canonical
  import opened TopologyPlanner

  // ----- entries

  function EntryOf(e: CanonicalEvent): PlannedEntry {
    PlannedEntry(e.id, e.sequence, e.kind, OrElse(e.topology, Topology(Coord("", 0), None, UserPhase)))
  }

  /** The plan has one entry for each conversation event, in order, with the topology that the event is given. */
  lemma {:induction false} EntriesArePlanned(events: seq<CanonicalEvent>)
    ensures EntriesOf(events) == Map(Filter(Planned(events), IsConversation), EntryOf)
  {
    hide Locate, PlanAll;
    if events != [] {
      var init, e := events[..|events| - 1], Last(events);
      EntriesArePlanned(init);
      var p := PlannedEvent(PlanAll(init), e);
      assert Planned(events)[..|init|] == Planned(init) && Last(Planned(events)) == p;
      assert IsConversation(p) == IsConversation(e);
    }
  }

  // ----- reasons and issues

  function CodeOf(r: Reason): Issue {
    r.code
  }

  lemma MappedConcat(a: seq<Reason>, b: seq<Reason>)
    ensures Map(a + b, CodeOf) == Map(a, CodeOf) + Map(b, CodeOf)
  {
  }

  lemma NamedCodes(issues: seq<Issue>, eventIds: seq<string>, callId: Option<string>)
    ensures Map(Named(issues, eventIds, callId), CodeOf) == issues
  {
  }

  lemma NextCodes(s: Planner, open: seq<OpenCall>, e: CanonicalEvent)
    ensures PlanNext(s, e).issues == s.issues + Map(ReasonsNext(s, open, e), CodeOf)
  {
    hide Locate, Track, Register, Conflicts, ToolIssues, Named, CallEvents, WrongPhase;
    if IsConversation(e) {
      var at := TopologyOf(Locate(s.course, s.tools, e), e);
      var noted, tools := IssueIf(WrongPhase(e), PhaseMismatch) + Conflicts(s.tables, at.turn, at.step.value),
          ToolIssues(s.tools, e, PlaceFor(at));
      var misplaced := AnswersCall(s.tools, e) && s.tools.pending[StrictCallId(e).value] != PlaceFor(at);
      var ids := (if misplaced then CallEvents(open, StrictCallId(e).value) else []) + [e.id];
      NamedCodes(noted, [e.id], None);
      NamedCodes(tools, ids, StrictCallId(e));
      MappedConcat(Named(noted, [e.id], None), Named(tools, ids, StrictCallId(e)));
    }
  }

  /** The reasons noted on the way have the codes of the issues, in order. */
  lemma {:induction false} NotedCodes(events: seq<CanonicalEvent>)
    ensures Map(NotedReasons(events), CodeOf) == PlanAll(events).issues
  {
    hide PlanNext, ReasonsNext;
    if events != [] {
      var init := events[..|events| - 1];
      NotedCodes(init);
      NextCodes(PlanAll(init), OpenCallsOf(init), Last(events));
      MappedConcat(NotedReasons(init), ReasonsNext(PlanAll(init), OpenCallsOf(init), Last(events)));
    }
  }

  // ----- open calls

  /** One entry for each call that waits. */
  ghost predicate Lists(open: seq<OpenCall>, tools: Tools) {
    && DistinctCalls(open)
    && (forall k :: 0 <= k < |open| ==> open[k].callId in tools.pending)
    && (forall id :: id in tools.pending ==> id in tools.seen && exists k :: 0 <= k < |open| && open[k].callId == id)
  }

  ghost predicate DistinctCalls(open: seq<OpenCall>) {
    forall j, k :: 0 <= j < k < |open| ==> open[j].callId != open[k].callId
  }

  lemma {:induction false} WithoutOne(open: seq<OpenCall>, callId: string)
    ensures forall c :: c in Without(open, callId) <==> c in open && c.callId != callId
  {
    if open != [] {
      WithoutOne(open[..|open| - 1], callId);
      assert open == open[..|open| - 1] + [Last(open)];
    }
  }

  lemma {:induction false} WithoutDistinct(open: seq<OpenCall>, callId: string)
    requires DistinctCalls(open)
    ensures DistinctCalls(Without(open, callId))
  {
    if open != [] {
      var init := open[..|open| - 1];
      WithoutDistinct(init, callId);
      WithoutOne(init, callId);
      var rest := Without(init, callId);
      forall k | 0 <= k < |rest|
        ensures rest[k].callId != Last(open).callId
      {
        assert rest[k] in init;
        var j :| 0 <= j < |init| && init[j] == rest[k];
        assert open[j] == init[j];
      }
    }
  }

  lemma OpenedListed(open: seq<OpenCall>, tools: Tools, e: CanonicalEvent, place: Place)
    requires Lists(open, tools) && OpensCall(tools, e)
    ensures Lists(OpenNext(tools, open, e), Track(tools, e, place))
  {
    var more, after := OpenNext(tools, open, e), Track(tools, e, place);
    forall id | id in after.pending
      ensures exists k :: 0 <= k < |more| && more[k].callId == id
    {
      if id in tools.pending {
        var k :| 0 <= k < |open| && open[k].callId == id;
        assert more[k].callId == id;
      } else {
        assert more[|open|].callId == id;
      }
    }
  }

  lemma AnsweredListed(open: seq<OpenCall>, tools: Tools, e: CanonicalEvent, place: Place)
    requires Lists(open, tools) && AnswersCall(tools, e)
    ensures Lists(OpenNext(tools, open, e), Track(tools, e, place))
  {
    var answered := StrictCallId(e).value;
    WithoutOne(open, answered);
    WithoutDistinct(open, answered);
    var rest, after := OpenNext(tools, open, e), Track(tools, e, place);
    forall k | 0 <= k < |rest|
      ensures rest[k].callId in after.pending
    {
      assert rest[k] in open;
      var j :| 0 <= j < |open| && open[j] == rest[k];
    }
    forall id | id in after.pending
      ensures exists k :: 0 <= k < |rest| && rest[k].callId == id
    {
      var j :| 0 <= j < |open| && open[j].callId == id;
      assert open[j] in rest;
      var k :| 0 <= k < |rest| && rest[k] == open[j];
    }
  }

  lemma {:induction false} OpenCallsListed(events: seq<CanonicalEvent>)
    ensures Lists(OpenCallsOf(events), PlanAll(events).tools)
  {
    hide Lists, Locate, OpenNext, Track, TopologyOf, OpensCall, AnswersCall;
    if events == [] {
      NothingListed();
    } else {
      var init, e := events[..|events| - 1], Last(events);
      OpenCallsListed(init);
      var s := PlanAll(init);
      if IsConversation(e) {
        var place := PlaceFor(TopologyOf(Locate(s.course, s.tools, e), e));
        if OpensCall(s.tools, e) {
          OpenedListed(OpenCallsOf(init), s.tools, e, place);
        } else if AnswersCall(s.tools, e) {
          AnsweredListed(OpenCallsOf(init), s.tools, e, place);
        } else {
          OtherListed(OpenCallsOf(init), s.tools, e, place);
        }
      } else {
        NoToolListed(OpenCallsOf(init), s.tools, e);
      }
    }
  }

  lemma OtherListed(open: seq<OpenCall>, tools: Tools, e: CanonicalEvent, place: Place)
    requires Lists(open, tools) && !OpensCall(tools, e) && !AnswersCall(tools, e)
    ensures Lists(OpenNext(tools, open, e), Track(tools, e, place))
  {
  }

  lemma NoToolListed(open: seq<OpenCall>, tools: Tools, e: CanonicalEvent)
    requires !IsConversation(e)
    ensures OpenNext(tools, open, e) == open
  {
  }

  lemma NothingListed()
    ensures Lists([], START.tools)
  {
  }

  /** A plan is eligible exactly when it gives no reason. */
  lemma ReasonsDecide(events: seq<CanonicalEvent>)
    ensures ReasonsOf(events) == [] <==> Eligible(events)
  {
    hide PlanAll, NotedReasons, OpenCallsOf;
    NotedCodes(events);
    OpenCallsListed(events);
    var open, pending := OpenCallsOf(events), PlanAll(events).tools.pending;
    assert |ReasonsOf(events)| == |PlanAll(events).issues| + |open|;
    if open != [] {
      assert open[0].callId in pending;
    }
    if pending != map[] {
      var id :| id in pending;
    }
  }

  // ----- what reasons name

  ghost predicate HasCall(events: seq<CanonicalEvent>, c: OpenCall) {
    exists i :: 0 <= i < |events| && events[i].id == c.eventId && events[i].kind == ToolCall
            && StrictCallId(events[i]) == Some(c.callId)
            && forall j :: i < j < |events| && events[j].kind == ToolResult
                 ==> StrictCallId(events[j]) != Some(c.callId)
  }

  lemma HasCallStays(events: seq<CanonicalEvent>, c: OpenCall)
    requires events != [] && HasCall(events[..|events| - 1], c)
    requires Last(events).kind == ToolResult ==> StrictCallId(Last(events)) != Some(c.callId)
    ensures HasCall(events, c)
  {
    var init := events[..|events| - 1];
    var i :| 0 <= i < |init| && init[i].id == c.eventId && init[i].kind == ToolCall
        && StrictCallId(init[i]) == Some(c.callId)
        && forall j :: i < j < |init| && init[j].kind == ToolResult ==> StrictCallId(init[j]) != Some(c.callId);
    assert events[i] == init[i];
    forall j | i < j < |events| && events[j].kind == ToolResult
      ensures StrictCallId(events[j]) != Some(c.callId)
    {
      assert j < |init| ==> events[j] == init[j];
    }
  }

  /** Every call reported open is a call of the history that no later result answers. */
  lemma {:induction false} OpenCallsAreOpen(events: seq<CanonicalEvent>, c: OpenCall)
    requires c in OpenCallsOf(events)
    ensures HasCall(events, c)
  {
    hide HasCall, PlanAll;
    var init, e := events[..|events| - 1], Last(events);
    var s := PlanAll(init);
    OpenCallsListed(init);
    if AnswersCall(s.tools, e) {
      WithoutOne(OpenCallsOf(init), StrictCallId(e).value);
    }
    if c in OpenCallsOf(init) {
      OpenCallsAreOpen(init, c);
      var k :| 0 <= k < |OpenCallsOf(init)| && OpenCallsOf(init)[k] == c;
      assert c.callId in s.tools.pending;
      HasCallStays(events, c);
    } else {
      LastCallIsOpen(events, c);
    }
  }

  lemma LastCallIsOpen(events: seq<CanonicalEvent>, c: OpenCall)
    requires events != [] && Last(events).kind == ToolCall && StrictCallId(Last(events)) == Some(c.callId)
            && Last(events).id == c.eventId
    ensures HasCall(events, c)
  {
    assert events[|events| - 1] == Last(events);
  }

  ghost predicate IsEvent(events: seq<CanonicalEvent>, id: string) {
    exists i :: 0 <= i < |events| && events[i].id == id
  }

  lemma {:induction false} CallEventsAreListed(open: seq<OpenCall>, callId: string)
    ensures forall id :: id in CallEvents(open, callId) ==>
              exists c :: c in open && c.eventId == id && c.callId == callId
  {
    if open != [] {
      var init := open[..|open| - 1];
      CallEventsAreListed(init, callId);
      assert open == init + [Last(open)];
      forall id | id in CallEvents(open, callId)
        ensures exists c :: c in open && c.eventId == id && c.callId == callId
      {
        if id in CallEvents(init, callId) {
          var c :| c in init && c.eventId == id && c.callId == callId;
          assert c in open;
        } else {
          assert Last(open) in open;
        }
      }
    }
  }

  lemma NextNamesEvents(events: seq<CanonicalEvent>, r: Reason, id: string)
    requires events != [] && id in r.eventIds
    requires var init := events[..|events| - 1]; r in ReasonsNext(PlanAll(init), OpenCallsOf(init), Last(events))
    ensures IsEvent(events, id)
  {
    hide PlanAll, Locate, Conflicts, ToolIssues, OpenCallsOf;
    var init, e := events[..|events| - 1], Last(events);
    if id == e.id {
      assert events[|events| - 1].id == id;
    } else {
      CallEventsAreListed(OpenCallsOf(init), StrictCallId(e).value);
      var c :| c in OpenCallsOf(init) && c.eventId == id;
      OpenCallsAreOpen(init, c);
      var i :| 0 <= i < |init| && init[i].id == c.eventId;
      assert events[i] == init[i];
    }
  }

  lemma {:induction false} NotedNameEvents(events: seq<CanonicalEvent>, r: Reason, id: string)
    requires r in NotedReasons(events) && id in r.eventIds
    ensures IsEvent(events, id)
  {
    hide PlanAll, ReasonsNext, OpenCallsOf;
    var init := events[..|events| - 1];
    if r in NotedReasons(init) {
      NotedNameEvents(init, r, id);
      var i :| 0 <= i < |init| && init[i].id == id;
      assert events[i] == init[i];
    } else {
      NextNamesEvents(events, r, id);
    }
  }

  /** Every event that a reason names is one of the history. */
  lemma ReasonsNameEvents(events: seq<CanonicalEvent>, r: Reason, id: string)
    requires r in ReasonsOf(events) && id in r.eventIds
    ensures IsEvent(events, id)
  {
    hide NotedReasons, OpenCallsOf;
    if r in NotedReasons(events) {
      NotedNameEvents(events, r, id);
    } else {
      var k :| 0 <= k < |OpenCallsOf(events)| && Unclosed(OpenCallsOf(events)[k]) == r;
      OpenCallsAreOpen(events, OpenCallsOf(events)[k]);
      var i :| 0 <= i < |events| && events[i].id == OpenCallsOf(events)[k].eventId;
    }
  }

  /** A call that waits is reported by exactly one event. */
  lemma {:induction false} OneCallEvent(open: seq<OpenCall>, k: nat)
    requires k < |open| && DistinctCalls(open)
    ensures CallEvents(open, open[k].callId) == [open[k].eventId]
  {
    var init := open[..|open| - 1];
    if k < |init| {
      OneCallEvent(init, k);
    } else {
      NoCallEvent(init, open[k].callId);
    }
  }

  lemma {:induction false} NoCallEvent(open: seq<OpenCall>, callId: string)
    requires forall k :: 0 <= k < |open| ==> open[k].callId != callId
    ensures CallEvents(open, callId) == []
  {
    if open != [] {
      NoCallEvent(open[..|open| - 1], callId);
    }
  }

  /** A result away from its call is blamed together with the one event of that call. */
  lemma MisplacedIsBlamedWithItsCall(events: seq<CanonicalEvent>, e: CanonicalEvent) returns (c: OpenCall)
    requires AnswersCall(PlanAll(events).tools, e)
    ensures c in OpenCallsOf(events) && c.callId == StrictCallId(e).value && HasCall(events, c)
    ensures CallEvents(OpenCallsOf(events), c.callId) == [c.eventId]
  {
    hide PlanAll, OpenCallsOf, HasCall;
    OpenCallsListed(events);
    var open := OpenCallsOf(events);
    var k :| 0 <= k < |open| && open[k].callId == StrictCallId(e).value;
    c := open[k];
    OpenCallsAreOpen(events, c);
    OneCallEvent(open, k);
  }
}
