/** The portable materializer in the form of the source: tables, pushes, a sort, and a final relocation. */
module PortableMaterialize {
  import opened Outcomes
  import opened Text
  import opened Sequences
  import opened Sorting
  import opened Canonical
  import opened CoordinateRuns
  import opened Provenance
  import opened OtherGroups
  import opened PortableEmission
  import opened PortableOrder
  import opened PortableRelocation
  import opened PortableAnchors

  // ----- when the materializer succeeds

  ghost predicate ValidSequence(events: seq<CanonicalEvent>) {
    && InOrder(events)
    && (forall i :: 0 <= i < |events| ==> 0 <= events[i].sequence)
    && DistinctIds(events)
  }

  ghost predicate TurnsPlanned(events: seq<CanonicalEvent>) {
    (forall e :: e in Filter(events, IsConversation) ==> HasTurn(e)) && Numbered(Turns(events))
  }

  ghost predicate TurnPlannable(events: seq<CanonicalEvent>, turn: Group) {
    && (forall e :: e in Filter(turn.members, IsModel) ==> HasStep(e))
    && Numbered(Steps(turn))
    && forall step :: step in Steps(turn) ==> StepWritable(events, turn, step)
  }

  predicate ReadableEvent(e: CanonicalEvent) {
    e.kind.Metadata? && e.raw.Envelope? && e.raw.provenance.Some? ==> Decodes(e.raw.provenance.value, e.sequence)
  }

  function PlanFor(events: seq<CanonicalEvent>, createdAt: int): Plan {
    Plan(events, createdAt, Turns(events), GroupsOf(Turns(events), events))
  }

  ghost predicate Compilable(events: seq<CanonicalEvent>, createdAt: int) {
    var plan := PlanFor(events, createdAt);
    && ValidSequence(events)
    && TurnsPlanned(events)
    && (forall e :: e in events ==> ReadableEvent(e))
    && (forall turn :: turn in plan.turns ==> TurnPlannable(events, turn))
    && PushAll(events, Ok(EMPTY_SINK), Pushes(plan)).Ok?
    && AllRelocatable(Stream(plan))
  }

  lemma CompilablePlan(events: seq<CanonicalEvent>, createdAt: int)
    requires ValidSequence(events) && TurnsPlanned(events)
    requires forall turn :: turn in Turns(events) ==> TurnPlannable(events, turn)
    ensures ValidPlan(PlanFor(events, createdAt))
  {
  }

  // ----- checks and tables

  method ValidateCanonicalSequence(events: seq<CanonicalEvent>) returns (r: Result<()>)
    ensures r.Ok? <==> ValidSequence(events)
  {
    var previous := -1;
    var ids: set<string> := {};
    for i := 0 to |events|
      invariant previous == if i == 0 then -1 else events[i - 1].sequence
      invariant forall k :: 0 <= k < i ==> 0 <= events[k].sequence <= previous
      invariant forall j, k :: 0 <= j < k < i
                 ==> events[j].sequence < events[k].sequence && events[j].id != events[k].id
      invariant forall id :: id in ids <==> exists k :: 0 <= k < i && events[k].id == id
    {
      var event := events[i];
      if event.sequence <= previous {
        return Err("event sequence is not strictly increasing");
      }
      if event.id in ids {
        return Err("repeated event ID");
      }
      ids := ids + {event.id};
      previous := event.sequence;
    }
    return Ok(());
  }

  /** Calls or results found so far under each identifier. */
  ghost predicate Listed(seen: seq<CanonicalEvent>, table: map<string, seq<CanonicalEvent>>, isCall: bool) {
    && (forall id :: id in table ==> table[id] == if isCall then CallsWith(seen, id) else ResultsWith(seen, id))
    && (forall id :: id !in table ==> (if isCall then CallsWith(seen, id) else ResultsWith(seen, id)) == [])
  }

  /** One more call or result under its identifier. */
  function AddTool(table: map<string, seq<CanonicalEvent>>, id: string, entry: CanonicalEvent): map<string,
      seq<CanonicalEvent>> {
    table[id := (if id in table then table[id] else []) + [entry]]
  }

  lemma FilterSnoc(seen: seq<CanonicalEvent>, entry: CanonicalEvent, p: CanonicalEvent -> bool)
    ensures Filter(seen + [entry], p) == Filter(seen, p) + if p(entry) then [entry] else []
  {
    assert (seen + [entry])[..|seen|] == seen;
  }

  lemma ToolsMore(seen: seq<CanonicalEvent>, entry: CanonicalEvent, id: string)
    ensures CallsWith(seen + [entry], id) == CallsWith(seen, id)
            + if entry.kind == ToolCall && StrictCallId(entry) == Some(id) then [entry] else []
    ensures ResultsWith(seen + [entry], id) == ResultsWith(seen, id)
            + if entry.kind == ToolResult && StrictCallId(entry) == Some(id) then [entry] else []
  {
    FilterSnoc(seen, entry, IsCallWith(id));
    FilterSnoc(seen, entry, IsResultWith(id));
  }

  lemma ListedMore(seen: seq<CanonicalEvent>, entry: CanonicalEvent, table: map<string, seq<CanonicalEvent>>,
      isCall: bool)
    requires Listed(seen, table, isCall)
    ensures var fits := entry.kind == (if isCall then ToolCall else ToolResult) && StrictCallId(entry).Some?;
            Listed(seen + [entry], if fits then AddTool(table, StrictCallId(entry).value, entry) else table, isCall)
  {
    hide StrictCallId, CallsWith, ResultsWith;
    forall id
      ensures CallsWith(seen + [entry], id) == CallsWith(seen, id)
              + if entry.kind == ToolCall && StrictCallId(entry) == Some(id) then [entry] else []
      ensures ResultsWith(seen + [entry], id) == ResultsWith(seen, id)
              + if entry.kind == ToolResult && StrictCallId(entry) == Some(id) then [entry] else []
    {
      ToolsMore(seen, entry, id);
    }
  }

  method ListTools(topologized: seq<CanonicalEvent>)
      returns (callsById: map<string, seq<CanonicalEvent>>, resultsById: map<string, seq<CanonicalEvent>>)
    ensures Listed(topologized, callsById, true) && Listed(topologized, resultsById, false)
  {
    hide Listed;
    callsById := map[];
    resultsById := map[];
    NothingListed();
    for i := 0 to |topologized|
      invariant Listed(topologized[..i], callsById, true)
      invariant Listed(topologized[..i], resultsById, false)
    {
      var entry := topologized[i];
      ListedMore(topologized[..i], entry, callsById, true);
      ListedMore(topologized[..i], entry, resultsById, false);
      assert topologized[..i + 1] == topologized[..i] + [entry];
      var callId := StrictCallId(entry);
      if callId.Some? {
        if entry.kind == ToolCall {
          callsById := AddTool(callsById, callId.value, entry);
        } else if entry.kind == ToolResult {
          resultsById := AddTool(resultsById, callId.value, entry);
        }
      }
    }
    assert topologized[..|topologized|] == topologized;
  }

  lemma NothingListed()
    ensures Listed([], map[], true) && Listed([], map[], false)
  {
  }

  /** The identifiers whose single call and single result share a step. */
  method MatchTools(events: seq<CanonicalEvent>, topologized: seq<CanonicalEvent>) returns (matched: set<string>)
    requires topologized == Filter(events, IsConversation)
    ensures forall id :: id in matched <==> Matched(events, id)
  {
    hide Listed, Matched, SameStep;
    var callsById, resultsById := ListTools(topologized);
    matched := set id | id in callsById && id in resultsById
                        && |callsById[id]| == 1 && |resultsById[id]| == 1
                           && SameStep(callsById[id][0], resultsById[id][0]);
    forall id
      ensures id in matched <==> Matched(events, id)
    {
      SameTools(events, id);
      MatchedInTables(events, topologized, callsById, resultsById, id);
    }
  }

  /** Conversation events are all that calls and results are taken from. */
  lemma SameTools(events: seq<CanonicalEvent>, id: string)
    ensures CallsWith(Filter(events, IsConversation), id) == CallsWith(events, id)
    ensures ResultsWith(Filter(events, IsConversation), id) == ResultsWith(events, id)
  {
    FilterFilter(events, IsConversation, IsCallWith(id));
    FilterFilter(events, IsConversation, IsResultWith(id));
  }

  lemma MatchedInTables(
      events: seq<CanonicalEvent>, seen: seq<CanonicalEvent>,
      calls: map<string, seq<CanonicalEvent>>, results: map<string, seq<CanonicalEvent>>, id: string)
    requires Listed(seen, calls, true) && Listed(seen, results, false)
    requires CallsWith(seen, id) == CallsWith(events, id) && ResultsWith(seen, id) == ResultsWith(events, id)
    ensures Matched(events, id) <==>
              && id in calls && id in results
              && |calls[id]| == 1 && |results[id]| == 1 && SameStep(calls[id][0], results[id][0])
  {
    hide SameStep, CallsWith, ResultsWith;
  }

  lemma {:induction false} FilterFilter<T>(s: seq<T>, p: T -> bool, q: T -> bool)
    requires forall x :: x in s && q(x) ==> p(x)
    ensures Filter(Filter(s, p), q) == Filter(s, q)
  {
    if s != [] {
      FilterFilter(s[..|s| - 1], p, q);
      if p(Last(s)) {
        assert (Filter(s[..|s| - 1], p) + [Last(s)])[..|Filter(s[..|s| - 1], p)|] == Filter(s[..|s| - 1], p);
      }
    }
  }

  // ----- the assistant message of a step

  function ReasoningBlocks(e: CanonicalEvent): Result<seq<Block>> {
    if forall b :: b in MessageBlocks(e) ==> b.ReasoningBlock? || b.TextBlock?
    then Ok(Map(MessageBlocks(e), AsReasoning))
    else Err("reasoning event contains a non-text block")
  }

  /** What one feeding event writes, refused when its content does not fit the message. */
  method WriteBlocks(events: seq<CanonicalEvent>, event: CanonicalEvent) returns (r: Result<seq<Block>>)
    requires FeedsAssistant(events, event)
    ensures r.Ok? <==> Writable(events, event)
    ensures r.Ok? ==> r.value == OwnBlocks(events, event)
  {
    if event.kind == Reasoning {
      return ReasoningBlocks(event);
    }
    if event.kind == AssistantMessage {
      var own := MessageBlocks(event);
      if exists b :: b in own && (b.ToolCallBlock? || b.ToolResultBlock?) {
        return Err("assistant event embeds tool protocol blocks");
      }
      return Ok(own);
    }
    var name := NonEmptyString(event.content.tool.name);
    if name.None? || event.content.tool.arguments.None? {
      return Err("tool call lacks its exact call_id, name or arguments");
    }
    return Ok([ToolCallBlock(StrictCallId(event).value, name.value, event.content.tool.arguments.value)]);
  }

  method AssistantContentBlocks(events: seq<CanonicalEvent>, feeding: seq<CanonicalEvent>)
      returns (r: Result<seq<Block>>)
    requires forall e :: e in feeding ==> FeedsAssistant(events, e)
    ensures r.Ok? <==> forall e :: e in feeding ==> Writable(events, e)
    ensures r.Ok? ==> r.value == FlatMap(feeding, Own(events))
  {
    hide OwnBlocks, FeedsAssistant, Writable;
    var blocks: seq<Block> := [];
    for i := 0 to |feeding|
      invariant blocks == FlatMap(feeding[..i], Own(events))
      invariant forall k :: 0 <= k < i ==> Writable(events, feeding[k])
    {
      assert feeding[i] in feeding;
      assert feeding[..i + 1][..i] == feeding[..i] && Last(feeding[..i + 1]) == feeding[i];
      var own :- WriteBlocks(events, feeding[i]);
      blocks := blocks + own;
    }
    assert feeding[..|feeding|] == feeding;
    return Ok(blocks);
  }

  // ----- pushes

  lemma PushAllOne(events: seq<CanonicalEvent>, sink: Sink, x: Emission)
    ensures PushAll(events, Ok(sink), [x]) == Push(events, sink, x)
  {
    assert [x][..0] == [];
    assert PushAll(events, Ok(sink), []) == Ok(sink);
  }

  lemma PushOneMore<A>(events: seq<CanonicalEvent>, sink: Result<Sink>, s: seq<A>, f: A -> seq<Emission>, k: nat)
    requires k < |s|
    ensures PushAll(events, sink, FlatMap(s[..k + 1], f))
            == PushAll(events, PushAll(events, sink, FlatMap(s[..k], f)), f(s[k]))
  {
    assert s[..k + 1][..k] == s[..k] && Last(s[..k + 1]) == s[k];
    PushAllConcat(events, sink, FlatMap(s[..k], f), f(s[k]));
  }

  /** Pushing on from a prefix: success extends the prefix, failure fails the whole. */
  lemma Resumed<A>(events: seq<CanonicalEvent>, start: Result<Sink>, s: seq<A>, f: A -> seq<Emission>, k: nat,
      part: seq<Emission>, next: Result<Sink>)
    requires k < |s| && f(s[k]) == part
    requires PushAll(events, PushAll(events, start, FlatMap(s[..k], f)), part) == next
    ensures PushAll(events, start, FlatMap(s[..k + 1], f)) == next
    ensures next.Err? ==> PushAll(events, start, FlatMap(s, f)).Err?
  {
    PushOneMore(events, start, s, f, k);
    if next.Err? {
      assert s == s[..k + 1] + s[k + 1..];
      FlatMapConcat(s[..k + 1], s[k + 1..], f);
      PushAllConcat(events, start, FlatMap(s[..k + 1], f), FlatMap(s[k + 1..], f));
      PushFailed(events, next, FlatMap(s[k + 1..], f));
    }
  }

  method PushGroups(plan: Plan, start: Sink) returns (r: Result<Sink>)
    ensures r.Ok? <==> PushAll(plan.events, Ok(start), FlatMap(plan.groups, GroupEmissions(plan))).Ok?
    ensures r.Ok? ==> r == PushAll(plan.events, Ok(start), FlatMap(plan.groups, GroupEmissions(plan)))
  {
    var sink := start;
    for k := 0 to |plan.groups|
      invariant PushAll(plan.events, Ok(start), FlatMap(plan.groups[..k], GroupEmissions(plan))) == Ok(sink)
    {
      var group := plan.groups[k];
      if group != [] {
        var x := Emission(group[0].sequence, 0, GroupRow(plan.createdAt, group), Map(group, SequenceOf), None);
        PushAllOne(plan.events, sink, x);
        var pushed := Push(plan.events, sink, x);
        Resumed(plan.events, Ok(start), plan.groups, GroupEmissions(plan), k, [x], pushed);
        if pushed.Err? {
          return pushed;
        }
        sink := pushed.value;
      } else {
        Resumed(plan.events, Ok(start), plan.groups, GroupEmissions(plan), k, [], Ok(sink));
      }
    }
    assert plan.groups[..|plan.groups|] == plan.groups;
    return Ok(sink);
  }

  method ReadProvenance(e: CanonicalEvent) returns (readable: bool)
    requires e.kind.Metadata?
    ensures readable == ReadableEvent(e)
  {
    if e.raw.Envelope? && e.raw.provenance.Some? {
      var decoded := DecodeSourceEventSeqs(e.raw.provenance.value, e.sequence);
      return decoded.Ok?;
    }
    return true;
  }

  lemma Unread(e: CanonicalEvent)
    requires !e.kind.Metadata?
    ensures ReadableEvent(e)
  {
  }

  lemma PushNothing(events: seq<CanonicalEvent>, sink: Sink)
    ensures PushAll(events, Ok(sink), []) == Ok(sink)
  {
  }

  lemma NothingPushed(plan: Plan, start: Sink)
    ensures PushAll(plan.events, Ok(start), FlatMap(plan.events[..0], MetadataEmissions(plan))) == Ok(start)
  {
  }

  method PushMetadata(plan: Plan, start: Sink) returns (r: Result<Sink>)
    ensures r.Ok?
            <==> (forall e :: e in plan.events ==> ReadableEvent(e))
                  && PushAll(plan.events, Ok(start), FlatMap(plan.events, MetadataEmissions(plan))).Ok?
    ensures r.Ok? ==> r == PushAll(plan.events, Ok(start), FlatMap(plan.events, MetadataEmissions(plan)))
  {
    hide Push, PushAll, PlainRow, ReadableEvent, FlatMap;
    var sink := start;
    NothingPushed(plan, start);
    for k := 0 to |plan.events|
      invariant forall i :: 0 <= i < k ==> ReadableEvent(plan.events[i])
      invariant PushAll(plan.events, Ok(start), FlatMap(plan.events[..k], MetadataEmissions(plan))) == Ok(sink)
    {
      var event := plan.events[k];
      assert event in plan.events;
      if event.kind.Metadata? {
        var readable := ReadProvenance(event);
        if !readable {
          return Err("sourceEventSeqs is invalid");
        }
        var x := Emission(event.sequence, 0, PlainRow(plan.createdAt, event), [event.sequence], None);
        PushAllOne(plan.events, sink, x);
        var pushed := Push(plan.events, sink, x);
        Resumed(plan.events, Ok(start), plan.events, MetadataEmissions(plan), k, [x], pushed);
        if pushed.Err? {
          return pushed;
        }
        sink := pushed.value;
      } else {
        Unread(event);
        PushNothing(plan.events, sink);
        Resumed(plan.events, Ok(start), plan.events, MetadataEmissions(plan), k, [], Ok(sink));
      }
    }
    assert plan.events[..|plan.events|] == plan.events;
    return Ok(sink);
  }

  method PushUsers(plan: Plan, turn: Group, start: Sink) returns (r: Result<Sink>)
    ensures r.Ok? <==> PushAll(plan.events, Ok(start), FlatMap(turn.members, UserEmissions(plan))).Ok?
    ensures r.Ok? ==> r == PushAll(plan.events, Ok(start), FlatMap(turn.members, UserEmissions(plan)))
  {
    var sink := start;
    for k := 0 to |turn.members|
      invariant PushAll(plan.events, Ok(start), FlatMap(turn.members[..k], UserEmissions(plan))) == Ok(sink)
    {
      var event := turn.members[k];
      if event.kind == UserMessage {
        var x := Emission(event.sequence, 0, UserRow(plan.createdAt, event), [event.sequence], None);
        PushAllOne(plan.events, sink, x);
        var pushed := Push(plan.events, sink, x);
        Resumed(plan.events, Ok(start), turn.members, UserEmissions(plan), k, [x], pushed);
        if pushed.Err? {
          return pushed;
        }
        sink := pushed.value;
      } else {
        Resumed(plan.events, Ok(start), turn.members, UserEmissions(plan), k, [], Ok(sink));
      }
    }
    assert turn.members[..|turn.members|] == turn.members;
    return Ok(sink);
  }

  method PushTools(plan: Plan, turn: Group, step: Group, matched: set<string>, start: Sink) returns (r: Result<Sink>)
    requires forall id :: id in matched <==> Matched(plan.events, id)
    ensures r.Ok? <==> PushAll(plan.events, Ok(start), FlatMap(step.members, ToolEmissions(plan, turn, step))).Ok?
    ensures r.Ok? ==> r == PushAll(plan.events, Ok(start), FlatMap(step.members, ToolEmissions(plan, turn, step)))
  {
    var sink := start;
    for k := 0 to |step.members|
      invariant PushAll(plan.events, Ok(start), FlatMap(step.members[..k], ToolEmissions(plan, turn, step))) == Ok(sink)
    {
      var event := step.members[k];
      if event.kind == ToolCall || event.kind == ToolResult {
        var callId := StrictCallId(event);
        var row := if event.kind == ToolCall then
                     if callId.Some? && callId.value in matched
                     then CallRow(plan.createdAt, NativeTurn(turn), NativeStep(step), event)
                     else EvidenceRow(plan.createdAt, "maintenance/unclosed-tool-call",
                         UnclosedReason(plan.events, event), event)
                   else
                     if callId.Some? && callId.value in matched
                     then ResultRow(plan.createdAt, NativeTurn(turn), NativeStep(step), event)
                     else EvidenceRow(plan.createdAt, "maintenance/orphan-tool-result",
                         OrphanReason(plan.events, event), event);
        var x := Emission(event.sequence, 0, row, [event.sequence], if row.kind == ToolResultRow then callId else None);
        assert ToolDraft(plan, turn, step, event) == [x];
        PushAllOne(plan.events, sink, x);
        var pushed := Push(plan.events, sink, x);
        Resumed(plan.events, Ok(start), step.members, ToolEmissions(plan, turn, step), k, [x], pushed);
        if pushed.Err? {
          return pushed;
        }
        sink := pushed.value;
      } else {
        Resumed(plan.events, Ok(start), step.members, ToolEmissions(plan, turn, step), k, [], Ok(sink));
      }
    }
    assert step.members[..|step.members|] == step.members;
    return Ok(sink);
  }

  /** Pushes in sequence: each part succeeds or the whole fails. */
  method PushPart(plan: Plan, start: Sink, part: seq<Emission>) returns (r: Result<Sink>)
    requires |part| <= 1
    ensures r == PushAll(plan.events, Ok(start), part)
  {
    if part == [] {
      return Ok(start);
    }
    PushAllOne(plan.events, start, part[0]);
    assert part == [part[0]];
    return Push(plan.events, start, part[0]);
  }

  lemma FourParts(events: seq<CanonicalEvent>, sink: Result<Sink>, a: seq<Emission>, b: seq<Emission>, c: seq<Emission>,
      d: seq<Emission>)
    ensures PushAll(events, sink, a + b + c + d)
            == PushAll(events, PushAll(events, PushAll(events, PushAll(events, sink, a), b), c), d)
    ensures PushAll(events, sink, a).Err? ==> PushAll(events, sink, a + b + c + d).Err?
    ensures PushAll(events, PushAll(events, sink, a), b).Err? ==> PushAll(events, sink, a + b + c + d).Err?
    ensures PushAll(events, PushAll(events, PushAll(events, sink, a), b), c).Err?
            ==> PushAll(events, sink, a + b + c + d).Err?
  {
    PushAllConcat(events, sink, a + b + c, d);
    PushAllConcat(events, sink, a + b, c);
    PushAllConcat(events, sink, a, b);
    var afterA := PushAll(events, sink, a);
    var afterB := PushAll(events, afterA, b);
    var afterC := PushAll(events, afterB, c);
    if afterA.Err? {
      PushFailed(events, afterA, b);
    }
    if afterB.Err? {
      PushFailed(events, afterB, c);
    }
    if afterC.Err? {
      PushFailed(events, afterC, d);
    }
  }

  method PushStep(plan: Plan, turn: Group, step: Group, matched: set<string>, start: Sink) returns (r: Result<Sink>)
    requires forall id :: id in matched <==> Matched(plan.events, id)
    requires step.members != [] && InOrder(step.members)
    ensures r.Ok?
            <==> StepWritable(plan.events, turn, step)
                  && PushAll(plan.events, Ok(start), StepDrafts(plan, turn, step)).Ok?
    ensures r.Ok? ==> r == PushAll(plan.events, Ok(start), StepDrafts(plan, turn, step))
  {
    FourParts(plan.events, Ok(start), StepStartOf(plan, turn, step), AssistantEmissions(plan, turn, step),
              FlatMap(step.members, ToolEmissions(plan, turn, step)), StepEndOf(plan, turn, step));
    var begun := PushPart(plan, start, StepStartOf(plan, turn, step));
    if begun.Err? {
      return begun;
    }
    var feeding := AssistantEvents(plan.events, step);
    AssistantEventsShape(plan, step);
    if CrossesSteering(plan.events, turn, step) {
      return Err("step crosses a user steering boundary");
    }
    var blocks := AssistantContentBlocks(plan.events, feeding);
    if blocks.Err? {
      return Err(blocks.fault);
    }
    var assistant: Result<Sink> := begun;
    if |blocks.value| > 0 {
      assert feeding != [];
      var x := Emission(feeding[0].sequence, -200, AssistantRow(plan, turn, step), Map(feeding, SequenceOf), None);
      assistant := PushPart(plan, begun.value, [x]);
      assert AssistantEmissions(plan, turn, step) == [x];
    } else {
      assert AssistantEmissions(plan, turn, step) == [];
    }
    if assistant.Err? {
      return assistant;
    }
    var tools := PushTools(plan, turn, step, matched, assistant.value);
    if tools.Err? {
      return tools;
    }
    r := PushPart(plan, tools.value, StepEndOf(plan, turn, step));
  }

  ghost predicate StepsWritable(events: seq<CanonicalEvent>, turn: Group, steps: seq<Group>) {
    steps == [] || (StepsWritable(events, turn, steps[..|steps| - 1]) && StepWritable(events, turn, Last(steps)))
  }

  lemma {:induction false} EveryStepWritable(events: seq<CanonicalEvent>, turn: Group, steps: seq<Group>)
    ensures StepsWritable(events, turn, steps) <==> forall step :: step in steps ==> StepWritable(events, turn, step)
  {
    if steps != [] {
      EveryStepWritable(events, turn, steps[..|steps| - 1]);
      assert forall step :: step in steps <==> step in steps[..|steps| - 1] || step == Last(steps);
    }
  }

  lemma {:induction false} UnwritablePrefix(events: seq<CanonicalEvent>, turn: Group, steps: seq<Group>, k: nat)
    requires k <= |steps| && !StepsWritable(events, turn, steps[..k])
    ensures !StepsWritable(events, turn, steps)
  {
    if k < |steps| {
      assert steps[..|steps| - 1][..k] == steps[..k];
      UnwritablePrefix(events, turn, steps[..|steps| - 1], k);
    } else {
      assert steps[..k] == steps;
    }
  }

  ghost predicate TurnsPlannable(events: seq<CanonicalEvent>, turns: seq<Group>) {
    turns == [] || (TurnsPlannable(events, turns[..|turns| - 1]) && TurnPlannable(events, Last(turns)))
  }

  lemma {:induction false} EveryTurnPlannable(events: seq<CanonicalEvent>, turns: seq<Group>)
    ensures TurnsPlannable(events, turns) <==> forall turn :: turn in turns ==> TurnPlannable(events, turn)
  {
    if turns != [] {
      EveryTurnPlannable(events, turns[..|turns| - 1]);
      assert forall turn :: turn in turns <==> turn in turns[..|turns| - 1] || turn == Last(turns);
    }
  }

  lemma {:induction false} UnplannablePrefix(events: seq<CanonicalEvent>, turns: seq<Group>, k: nat)
    requires k <= |turns| && !TurnsPlannable(events, turns[..k])
    ensures !TurnsPlannable(events, turns)
  {
    if k < |turns| {
      assert turns[..|turns| - 1][..k] == turns[..k];
      UnplannablePrefix(events, turns[..|turns| - 1], k);
    } else {
      assert turns[..k] == turns;
    }
  }

  method PushSteps(plan: Plan, turn: Group, steps: seq<Group>, matched: set<string>, start: Sink)
      returns (r: Result<Sink>)
    requires forall id :: id in matched <==> Matched(plan.events, id)
    requires forall step :: step in steps ==> step.members != [] && InOrder(step.members)
    ensures r.Ok? <==> StepsWritable(plan.events, turn, steps)
                       && PushAll(plan.events, Ok(start), FlatMap(steps, StepPushes(plan, turn))).Ok?
    ensures r.Ok? ==> r == PushAll(plan.events, Ok(start), FlatMap(steps, StepPushes(plan, turn)))
  {
    hide Push, StepWritable, StepDrafts;
    var sink := start;
    for k := 0 to |steps|
      invariant StepsWritable(plan.events, turn, steps[..k])
      invariant PushAll(plan.events, Ok(start), FlatMap(steps[..k], StepPushes(plan, turn))) == Ok(sink)
    {
      assert steps[k] in steps;
      assert steps[..k + 1][..k] == steps[..k] && Last(steps[..k + 1]) == steps[k];
      var pushed := PushStep(plan, turn, steps[k], matched, sink);
      Resumed(plan.events, Ok(start), steps, StepPushes(plan, turn), k, StepDrafts(plan, turn, steps[k]),
          PushAll(plan.events, Ok(sink), StepDrafts(plan, turn, steps[k])));
      if pushed.Err? {
        if !StepWritable(plan.events, turn, steps[k]) {
          UnwritablePrefix(plan.events, turn, steps, k + 1);
        }
        return pushed;
      }
      sink := pushed.value;
    }
    assert steps[..|steps|] == steps;
    return Ok(sink);
  }

  lemma StepsOfTurn(turn: Group)
    requires InOrder(turn.members)
    ensures InOrder(Filter(turn.members, IsModel))
    ensures forall step :: step in Steps(turn) ==> step.members != [] && InOrder(step.members)
  {
    FilterIncreasing(turn.members, IsModel);
    forall step | step in Steps(turn)
      ensures step.members != [] && InOrder(step.members)
    {
      var k :| 0 <= k < |Steps(turn)| && Steps(turn)[k] == step;
      RunInOrder(Filter(turn.members, IsModel), StepCoord, k);
    }
  }

  method PushTurn(plan: Plan, turn: Group, matched: set<string>, start: Sink) returns (r: Result<Sink>)
    requires forall id :: id in matched <==> Matched(plan.events, id)
    requires InOrder(turn.members)
    ensures r.Ok? <==> TurnPlannable(plan.events, turn) && PushAll(plan.events, Ok(start), TurnDrafts(plan, turn)).Ok?
    ensures r.Ok? ==> r == PushAll(plan.events, Ok(start), TurnDrafts(plan, turn))
  {
    EveryStepWritable(plan.events, turn, Steps(turn));
    FourParts(plan.events, Ok(start), TurnStartOf(plan, turn), FlatMap(turn.members, UserEmissions(plan)),
              FlatMap(Steps(turn), StepPushes(plan, turn)), TurnEndOf(plan, turn));
    var begun := PushPart(plan, start, TurnStartOf(plan, turn));
    if begun.Err? {
      return begun;
    }
    var users := PushUsers(plan, turn, begun.value);
    if users.Err? {
      return users;
    }
    StepsOfTurn(turn);
    var steps := CollectGroups(Filter(turn.members, IsModel), StepCoord, HasStep);
    if steps.Err? {
      return Err(steps.fault);
    }
    var stepped := PushSteps(plan, turn, steps.value, matched, users.value);
    if stepped.Err? {
      return stepped;
    }
    r := PushPart(plan, stepped.value, TurnEndOf(plan, turn));
  }

  method PushTurns(plan: Plan, matched: set<string>, start: Sink) returns (r: Result<Sink>)
    requires forall id :: id in matched <==> Matched(plan.events, id)
    requires forall turn :: turn in plan.turns ==> InOrder(turn.members)
    ensures r.Ok? <==> TurnsPlannable(plan.events, plan.turns)
                       && PushAll(plan.events, Ok(start), FlatMap(plan.turns, TurnPushes(plan))).Ok?
    ensures r.Ok? ==> r == PushAll(plan.events, Ok(start), FlatMap(plan.turns, TurnPushes(plan)))
  {
    hide Push, TurnPlannable, TurnDrafts;
    var sink := start;
    for k := 0 to |plan.turns|
      invariant TurnsPlannable(plan.events, plan.turns[..k])
      invariant PushAll(plan.events, Ok(start), FlatMap(plan.turns[..k], TurnPushes(plan))) == Ok(sink)
    {
      assert plan.turns[k] in plan.turns;
      assert plan.turns[..k + 1][..k] == plan.turns[..k] && Last(plan.turns[..k + 1]) == plan.turns[k];
      var pushed := PushTurn(plan, plan.turns[k], matched, sink);
      Resumed(plan.events, Ok(start), plan.turns, TurnPushes(plan), k, TurnDrafts(plan, plan.turns[k]),
          PushAll(plan.events, Ok(sink), TurnDrafts(plan, plan.turns[k])));
      if pushed.Err? {
        if !TurnPlannable(plan.events, plan.turns[k]) {
          UnplannablePrefix(plan.events, plan.turns, k + 1);
        }
        return pushed;
      }
      sink := pushed.value;
    }
    assert plan.turns[..|plan.turns|] == plan.turns;
    return Ok(sink);
  }

  // ----- the whole

  lemma ThreeParts(events: seq<CanonicalEvent>, sink: Result<Sink>, a: seq<Emission>, b: seq<Emission>,
      c: seq<Emission>)
    ensures PushAll(events, sink, a + b + c) == PushAll(events, PushAll(events, PushAll(events, sink, a), b), c)
    ensures PushAll(events, sink, a).Err? ==> PushAll(events, sink, a + b + c).Err?
    ensures PushAll(events, PushAll(events, sink, a), b).Err? ==> PushAll(events, sink, a + b + c).Err?
  {
    FourParts(events, sink, a, b, c, []);
    assert a + b + c + [] == a + b + c;
  }

  lemma TurnsInOrder(events: seq<CanonicalEvent>)
    requires InOrder(events)
    ensures InOrder(Filter(events, IsConversation))
    ensures forall turn :: turn in Turns(events) ==> InOrder(turn.members)
  {
    FilterIncreasing(events, IsConversation);
    forall turn | turn in Turns(events)
      ensures InOrder(turn.members)
    {
      var k :| 0 <= k < |Turns(events)| && Turns(events)[k] == turn;
      RunInOrder(Filter(events, IsConversation), TurnCoord, k);
    }
  }

  /** Pushes everything the plan calls for, in the order of the source. */
  method PushEverything(plan: Plan, matched: set<string>) returns (r: Result<Sink>)
    requires forall id :: id in matched <==> Matched(plan.events, id)
    requires forall turn :: turn in plan.turns ==> InOrder(turn.members)
    ensures r.Ok? <==> (forall e :: e in plan.events ==> ReadableEvent(e))
                       && (forall turn :: turn in plan.turns ==> TurnPlannable(plan.events, turn))
                       && PushAll(plan.events, Ok(EMPTY_SINK), Pushes(plan)).Ok?
    ensures r.Ok? ==> r == PushAll(plan.events, Ok(EMPTY_SINK), Pushes(plan))
  {
    EveryTurnPlannable(plan.events, plan.turns);
    ThreeParts(plan.events, Ok(EMPTY_SINK), FlatMap(plan.groups, GroupEmissions(plan)),
               FlatMap(plan.events, MetadataEmissions(plan)), FlatMap(plan.turns, TurnPushes(plan)));
    var grouped := PushGroups(plan, EMPTY_SINK);
    if grouped.Err? {
      return grouped;
    }
    var plain := PushMetadata(plan, grouped.value);
    if plain.Err? {
      return plain;
    }
    r := PushTurns(plan, matched, plain.value);
  }

  /**
   * Compiles canonical events to RC1 rows and anchor aliases. It succeeds exactly on compilable input, and its rows are
   * then the relocated one-pass stream of the events.
   */
  method MaterializePortable(events: seq<CanonicalEvent>, createdAt: int)
      returns (r: Result<(seq<Row>, map<string, string>)>)
    ensures r.Ok? <==> Compilable(events, createdAt)
    ensures r.Ok? ==> r.value.0 == Rows(Stream(PlanFor(events, createdAt)))
    ensures r.Ok? ==> r.value.1 == PushAll(events, Ok(EMPTY_SINK), Pushes(PlanFor(events, createdAt))).value.aliases
  {
    var sequenced := ValidateCanonicalSequence(events);
    if sequenced.Err? {
      return Err(sequenced.fault);
    }
    TurnsInOrder(events);
    var turns := CollectGroups(Filter(events, IsConversation), TurnCoord, HasTurn);
    if turns.Err? {
      return Err(turns.fault);
    }
    RunsFlatten(Filter(events, IsConversation), TurnCoord);
    var matched := MatchTools(events, FlatMap(turns.value, MembersOf()));
    var groups := CollectPortableOtherGroups(events, turns.value);
    var plan := Plan(events, createdAt, turns.value, groups);
    assert plan == PlanFor(events, createdAt);
    var sink := PushEverything(plan, matched);
    if sink.Err? {
      return Err(sink.fault);
    }
    CompilablePlan(events, createdAt);
    PushedDrafts(events, Pushes(plan));
    SortedPushesAreStream(plan);
    var drafts := Sort(sink.value.drafts, DraftLe());
    var rows := RelocateDrafts(Map(drafts, EmissionOf));
    if rows.Err? {
      return Err(rows.fault);
    }
    return Ok((rows.value, sink.value.aliases));
  }
}
