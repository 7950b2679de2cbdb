/**
 * The projection preserves the conversation: its messages, read in order, are the canonical blocks in canonical order.
 */
module PortableTranscript {
  import opened Outcomes
  import opened Sequences
  import opened Canonical
  import opened CoordinateRuns
  import opened PortableEmission
  import opened PortableOrder
  import opened PortableAcceptance
  import opened PortableRelocation
  import opened PortableMaterialize

  datatype Item = Said(id: string, blocks: seq<Block>) | Wrote(block: Block)

  function AsWrote(block: Block): Item {
    Wrote(block)
  }

  /** What a row adds to the transcript: a user message, or the blocks of an assistant message. */
  function RowItems(row: Row): seq<Item> {
    if row.surface != Append then []
    else match row.data.message
      case None => []
      case Some(message) =>
        if row.kind == UserMessageRow then [Said(OrElse(message.id, ""), message.content)]
        else if row.kind == AssistantMessageRow then Map(message.content, AsWrote)
        else []
  }

  function Transcript(rows: seq<Row>): seq<Item> {
    FlatMap(rows, RowItems)
  }

  /** What a canonical event contributes to the conversation. */
  function EventItems(events: seq<CanonicalEvent>, e: CanonicalEvent): seq<Item> {
    if IsUser(e) then [Said(MessageIdOf(e), MessageBlocks(e))]
    else if FeedsAssistant(events, e) then Map(OwnBlocks(events, e), AsWrote)
    else []
  }

  function Contribution(events: seq<CanonicalEvent>): CanonicalEvent -> seq<Item> {
    (e: CanonicalEvent) => EventItems(events, e)
  }

  function CanonicalTranscript(events: seq<CanonicalEvent>): seq<Item> {
    FlatMap(events, Contribution(events))
  }

  // ----- items of emissions

  function EmissionItems(x: Emission): seq<Item> {
    RowItems(x.row)
  }

  function BundleItems(plan: Plan): CanonicalEvent -> seq<Item> {
    (e: CanonicalEvent) => FlatMap(BundleOf(plan, e), EmissionItems)
  }

  lemma {:induction false} TranscriptOfRows(rows: seq<Row>, stream: seq<Emission>)
    requires |rows| == |stream|
    requires forall i :: 0 <= i < |rows| ==> RowItems(rows[i]) == EmissionItems(stream[i])
    ensures Transcript(rows) == FlatMap(stream, EmissionItems)
  {
    if rows != [] {
      TranscriptOfRows(rows[..|rows| - 1], stream[..|stream| - 1]);
      assert RowItems(Last(rows)) == EmissionItems(Last(stream));
    }
  }

  lemma Silent(xs: seq<Emission>)
    requires forall x :: x in xs ==> EmissionItems(x) == []
    ensures FlatMap(xs, EmissionItems) == []
  {
    FlatMapEmpty(xs, EmissionItems);
  }

  lemma OneEmission(x: Emission)
    ensures FlatMap([x], EmissionItems) == EmissionItems(x)
  {
    SingletonFlatMap(x, EmissionItems);
  }

  /** Rows that open and close turns and steps say nothing. */
  lemma TurnItems(plan: Plan, turn: Group, e: CanonicalEvent)
    ensures FlatMap(TurnOf(plan, turn, e), EmissionItems) == FlatMap(InnerOf(plan, turn, e), EmissionItems)
  {
    var open := if turn.members != [] && turn.members[0] == e then TurnStartOf(plan, turn) else [];
    var close := if turn.members != [] && Last(turn.members) == e then TurnEndOf(plan, turn) else [];
    Enclosed(open, InnerOf(plan, turn, e), close);
  }

  lemma StepItems(plan: Plan, turn: Group, step: Group, e: CanonicalEvent)
    ensures FlatMap(StepOf(plan, turn, step, e), EmissionItems) == FlatMap(CoreOf(plan, turn, step, e), EmissionItems)
  {
    var open := if step.members != [] && step.members[0] == e then StepStartOf(plan, turn, step) else [];
    var close := if step.members != [] && Last(step.members) == e then StepEndOf(plan, turn, step) else [];
    Enclosed(open, CoreOf(plan, turn, step, e), close);
  }

  lemma Enclosed(open: seq<Emission>, inner: seq<Emission>, close: seq<Emission>)
    requires forall x :: x in open || x in close ==> EmissionItems(x) == []
    ensures FlatMap(open + inner + close, EmissionItems) == FlatMap(inner, EmissionItems)
  {
    FlatMapConcat(open + inner, close, EmissionItems);
    FlatMapConcat(open, inner, EmissionItems);
    Silent(open);
    Silent(close);
  }

  /** Written at the first event that feeds the step's message: all blocks of the step. */
  function WrittenAt(plan: Plan, step: Group, e: CanonicalEvent): seq<Item> {
    var feeding := AssistantEvents(plan.events, step);
    if feeding != [] && feeding[0] == e then Map(StepBlocks(plan.events, step), AsWrote) else []
  }

  lemma CoreItems(plan: Plan, turn: Group, step: Group, e: CanonicalEvent)
    ensures FlatMap(CoreOf(plan, turn, step, e), EmissionItems) == WrittenAt(plan, step, e)
  {
    hide AssistantOf, ToolDraft, WrittenAt, EmissionItems;
    FlatMapConcat(AssistantOf(plan, turn, step, e), ToolDraft(plan, turn, step, e), EmissionItems);
    ToolsSilent(plan, turn, step, e);
    AssistantItems(plan, turn, step, e);
  }

  lemma ToolsSilent(plan: Plan, turn: Group, step: Group, e: CanonicalEvent)
    ensures FlatMap(ToolDraft(plan, turn, step, e), EmissionItems) == []
  {
    hide MatchedCall, MatchedResult, UnclosedReason, OrphanReason;
    Silent(ToolDraft(plan, turn, step, e));
  }

  lemma AssistantItems(plan: Plan, turn: Group, step: Group, e: CanonicalEvent)
    ensures FlatMap(AssistantOf(plan, turn, step, e), EmissionItems) == WrittenAt(plan, step, e)
  {
    var assistant := AssistantOf(plan, turn, step, e);
    if assistant != [] {
      assert assistant == [assistant[0]];
      OneEmission(assistant[0]);
    }
  }

  /** What the stream says at an event of a turn. */
  function SaidAt(plan: Plan, turn: Group): CanonicalEvent -> seq<Item> {
    (e: CanonicalEvent) => SaidBy(plan, turn, e)
  }

  function SaidBy(plan: Plan, turn: Group, e: CanonicalEvent): seq<Item> {
    if IsUser(e) then EventItems(plan.events, e) else WrittenAt(plan, StepAt(turn, StepCoord(e).ordinal), e)
  }

  lemma BundleSays(plan: Plan, turn: Group, e: CanonicalEvent)
    requires ValidPlan(plan) && turn in plan.turns && e in turn.members
    ensures BundleItems(plan)(e) == SaidBy(plan, turn, e)
  {
    hide TurnOf, StepOf, CoreOf, WrittenAt, FlatMap;
    TurnMember(plan, turn, e);
    TurnItems(plan, turn, e);
    if IsUser(e) {
      var x := UserDraft(plan, e)[0];
      assert InnerOf(plan, turn, e) == [x];
      OneEmission(x);
    } else {
      var step := StepAt(turn, StepCoord(e).ordinal);
      StepItems(plan, turn, step, e);
      CoreItems(plan, turn, step, e);
    }
  }

  lemma OutsideSaysNothing(plan: Plan, e: CanonicalEvent)
    requires ValidPlan(plan) && Guarded(plan.events) && e in plan.events && !IsConversation(e)
    ensures BundleItems(plan)(e) == [] && EventItems(plan.events, e) == []
  {
    if e.kind == Other {
      GroupLedByMember(plan.groups, e);
    }
    forall x | x in BundleOf(plan, e)
      ensures EmissionItems(x) == []
    {
    }
    Silent(BundleOf(plan, e));
  }

  // ----- within a turn

  /** Some event before has started the message of this event's step. */
  predicate Started(events: seq<CanonicalEvent>, done: seq<CanonicalEvent>, e: CanonicalEvent) {
    exists f :: f in done && IsModel(f) && FeedsAssistant(events, f) && StepCoord(f) == StepCoord(e)
  }

  /** Blocks already written by the stream although their event is still to come. */
  function OwedBy(events: seq<CanonicalEvent>, done: seq<CanonicalEvent>, e: CanonicalEvent): seq<Item> {
    if IsModel(e) && FeedsAssistant(events, e) && Started(events, done, e) then EventItems(events, e) else []
  }

  function Owed(events: seq<CanonicalEvent>, done: seq<CanonicalEvent>): CanonicalEvent -> seq<Item> {
    (e: CanonicalEvent) => OwedBy(events, done, e)
  }

  lemma StepOfEvent(plan: Plan, turn: Group, e: CanonicalEvent) returns (k: nat)
    requires ValidPlan(plan) && turn in plan.turns && e in turn.members && IsModel(e)
    ensures k < |Steps(turn)| && e in Steps(turn)[k].members && Steps(turn)[k] == StepAt(turn, StepCoord(e).ordinal)
    ensures k == StepCoord(e).ordinal && Steps(turn)[k].coord == StepCoord(e)
  {
    FilterMembership(turn.members, IsModel);
    RunCoordOf(Filter(turn.members, IsModel), StepCoord, e);
    k :| 0 <= k < |Steps(turn)| && Steps(turn)[k].coord == StepCoord(e) && e in Steps(turn)[k].members;
  }

  lemma FeedingOf(plan: Plan, turn: Group, e: CanonicalEvent) returns (step: Group)
    requires ValidPlan(plan) && turn in plan.turns && e in turn.members && IsModel(e) && FeedsAssistant(plan.events, e)
    ensures step in Steps(turn) && step == StepAt(turn, StepCoord(e).ordinal) && step.coord == StepCoord(e)
    ensures var feeding := AssistantEvents(plan.events, step);
            && e in feeding && InOrder(feeding) && feeding[0] in turn.members && IsModel(feeding[0])
               && FeedsAssistant(plan.events, feeding[0])
            && StepCoord(feeding[0]) == StepCoord(e)
            && feeding[0].sequence <= e.sequence <= Last(feeding).sequence
  {
    var k := StepOfEvent(plan, turn, e);
    step := Steps(turn)[k];
    StepShape(plan, turn, step);
    AssistantEventsShape(plan, step);
    var feeding := AssistantEvents(plan.events, step);
    EndsInOrder(feeding, e);
    assert feeding[0] in feeding;
    StepMember(plan, turn, step, feeding[0]);
  }

  /** Blocks owed across a user message would mean that their step crosses that message. */
  lemma OwedMeansCrossing(plan: Plan, turn: Group, done: seq<CanonicalEvent>, u: CanonicalEvent, f: CanonicalEvent)
      returns (step: Group)
    requires ValidPlan(plan) && turn in plan.turns
    requires u in turn.members && IsUser(u) && f in turn.members && u.sequence < f.sequence
    requires forall d :: d in done ==> d in turn.members && d.sequence < u.sequence
    requires IsModel(f) && FeedsAssistant(plan.events, f) && Started(plan.events, done, f)
    ensures step in Steps(turn) && CrossesSteering(plan.events, turn, step)
  {
    var g :| g in done && IsModel(g) && FeedsAssistant(plan.events, g) && StepCoord(g) == StepCoord(f);
    step := FeedingOf(plan, turn, f);
    var step' := FeedingOf(plan, turn, g);
    assert step' == step;
  }

  /** Nothing is owed across a user message: the steering check has refused such steps. */
  lemma NothingOwedAtUser(plan: Plan, turn: Group, done: seq<CanonicalEvent>, u: CanonicalEvent, f: CanonicalEvent)
    requires ValidPlan(plan) && turn in plan.turns && TurnPlannable(plan.events, turn)
    requires u in turn.members && IsUser(u) && f in turn.members && u.sequence < f.sequence
    requires forall d :: d in done ==> d in turn.members && d.sequence < u.sequence
    ensures OwedBy(plan.events, done, f) == []
  {
    if IsModel(f) && FeedsAssistant(plan.events, f) && Started(plan.events, done, f) {
      var step := OwedMeansCrossing(plan, turn, done, u, f);
    }
  }

  /** The event is the first to feed the message of its step. */
  predicate Leads(plan: Plan, turn: Group, e: CanonicalEvent) {
    var feeding := AssistantEvents(plan.events, StepAt(turn, StepCoord(e).ordinal));
    feeding != [] && feeding[0] == e
  }

  /** Nothing is owed when a step begins to write: the steps before it are over. */
  lemma NothingOwedAtStart(plan: Plan, turn: Group, done: seq<CanonicalEvent>, e: CanonicalEvent, f: CanonicalEvent)
    requires ValidPlan(plan) && turn in plan.turns
    requires e in turn.members && IsModel(e) && FeedsAssistant(plan.events, e) && f in turn.members
            && e.sequence < f.sequence
    requires Leads(plan, turn, e)
    requires forall d :: d in done ==> d in turn.members && d.sequence < e.sequence
    ensures OwedBy(plan.events, done, f) == []
  {
    hide ValidPlan, FeedsAssistant, TurnCoord, StepCoord, Steps, AssistantEvents;
    if IsModel(f) && FeedsAssistant(plan.events, f) && Started(plan.events, done, f) {
      var g :| g in done && IsModel(g) && FeedsAssistant(plan.events, g) && StepCoord(g) == StepCoord(f);
      BetweenSteps(plan, turn, g, e, f);
      var step := FeedingOf(plan, turn, g);
    }
  }

  /** What lies between two events of a step belongs to that step. */
  lemma BetweenSteps(plan: Plan, turn: Group, g: CanonicalEvent, e: CanonicalEvent, f: CanonicalEvent)
    requires ValidPlan(plan) && turn in plan.turns
    requires g in turn.members && e in turn.members && f in turn.members && g.sequence < e.sequence < f.sequence
    requires IsModel(g) && IsModel(e) && IsModel(f) && StepCoord(g) == StepCoord(f)
    ensures StepCoord(e) == StepCoord(f)
  {
    hide StepCoord;
    var k := StepOfEvent(plan, turn, e);
    var l := StepOfEvent(plan, turn, f);
    var m := StepOfEvent(plan, turn, g);
    TurnShape(plan, turn);
    FilterIncreasing(turn.members, IsModel);
    if k < l {
      RunsSeparated(Filter(turn.members, IsModel), StepCoord, k, m, e, g);
    } else if l < k {
      RunsSeparated(Filter(turn.members, IsModel), StepCoord, l, k, f, e);
    }
  }

  lemma {:induction false} MapFlatMap(s: seq<CanonicalEvent>, own: CanonicalEvent -> seq<Block>,
      contribution: CanonicalEvent -> seq<Item>)
    requires forall e :: e in s ==> contribution(e) == Map(own(e), AsWrote)
    ensures Map(FlatMap(s, own), AsWrote) == FlatMap(s, contribution)
  {
    if s != [] {
      MapFlatMap(s[..|s| - 1], own, contribution);
      assert Map(FlatMap(s, own), AsWrote) == Map(FlatMap(s[..|s| - 1], own), AsWrote) + Map(own(Last(s)), AsWrote);
    }
  }

  /** What the events feeding one step contribute. */
  function FedBy(events: seq<CanonicalEvent>, c: Coord, e: CanonicalEvent): seq<Item> {
    if IsModel(e) && FeedsAssistant(events, e) && StepCoord(e) == c then EventItems(events, e) else []
  }

  function OfStep(events: seq<CanonicalEvent>, c: Coord): CanonicalEvent -> seq<Item> {
    (e: CanonicalEvent) => FedBy(events, c, e)
  }

  /** The message of a step holds what the events of that step contribute, in order. */
  lemma StepWrites(plan: Plan, turn: Group, k: nat)
    requires ValidPlan(plan) && turn in plan.turns && k < |Steps(turn)|
    ensures var step := Steps(turn)[k];
            Map(StepBlocks(plan.events, step), AsWrote) == FlatMap(turn.members, OfStep(plan.events, step.coord))
  {
    var step := Steps(turn)[k];
    var models := Filter(turn.members, IsModel);
    StepShape(plan, turn, step);
    AssistantEventsShape(plan, step);
    forall e | e in AssistantEvents(plan.events, step)
      ensures OfStep(plan.events, step.coord)(e) == Map(Own(plan.events)(e), AsWrote)
    {
      StepMember(plan, turn, step, e);
    }
    MapFlatMap(AssistantEvents(plan.events, step), Own(plan.events), OfStep(plan.events, step.coord));
    FlatMapFilter(step.members, Feeds(plan.events), OfStep(plan.events, step.coord));
    RunsHomogeneous(models, StepCoord);
    RunsFlatten(models, StepCoord);
    FilterFlatten(Steps(turn), StepCoord, k);
    FlatMapFilter(models, AtCoord(StepCoord, step.coord), OfStep(plan.events, step.coord));
    FlatMapFilter(turn.members, IsModel, OfStep(plan.events, step.coord));
  }

  ghost predicate SplitAt(turn: Group, done: seq<CanonicalEvent>, e: CanonicalEvent, rest: seq<CanonicalEvent>) {
    && turn.members == done + [e] + rest
    && (forall d :: d in done ==> d in turn.members && d.sequence < e.sequence)
    && (forall f :: f in rest ==> f in turn.members && e.sequence < f.sequence)
    && e in turn.members
  }

  lemma SplitTurn(turn: Group, i: nat)
    requires InOrder(turn.members) && i < |turn.members|
    ensures SplitAt(turn, turn.members[..i], turn.members[i], turn.members[i + 1..])
  {
    var members := turn.members;
    assert members == members[..i] + [members[i]] + members[i + 1..];
    forall d | d in members[..i]
      ensures d in members && d.sequence < members[i].sequence
    {
      var k :| 0 <= k < i && members[..i][k] == d;
    }
    forall f | f in members[i + 1..]
      ensures f in members && members[i].sequence < f.sequence
    {
      var k :| 0 <= k < |members| - i - 1 && members[i + 1..][k] == f;
    }
  }

  /** An event that feeds no message leaves what is owed as it was. */
  lemma PassOver(plan: Plan, turn: Group, done: seq<CanonicalEvent>, e: CanonicalEvent, rest: seq<CanonicalEvent>)
    requires ValidPlan(plan) && turn in plan.turns && TurnPlannable(plan.events, turn)
    requires SplitAt(turn, done, e, rest) && !(IsModel(e) && FeedsAssistant(plan.events, e))
    ensures FlatMap([e] + rest, Owed(plan.events, done)) == FlatMap(rest, Owed(plan.events, done + [e]))
    ensures SaidBy(plan, turn, e) == EventItems(plan.events, e)
    ensures IsUser(e) ==> FlatMap(rest, Owed(plan.events, done + [e])) == []
    ensures !IsUser(e) ==> EventItems(plan.events, e) == []
  {
    TurnMember(plan, turn, e);
    OwedAhead(plan.events, done, e, rest);
    forall f | f in rest
      ensures OwedBy(plan.events, done, f) == OwedBy(plan.events, done + [e], f)
    {
      assert Started(plan.events, done + [e], f) <==> Started(plan.events, done, f);
    }
    FlatMapCongruence(rest, Owed(plan.events, done), Owed(plan.events, done + [e]));
    if IsUser(e) {
      forall f | f in rest
        ensures Owed(plan.events, done)(f) == []
      {
        NothingOwedAtUser(plan, turn, done, e, f);
      }
      FlatMapEmpty(rest, Owed(plan.events, done));
    } else {
      SilentModel(plan, turn, e);
    }
  }

  lemma SilentModel(plan: Plan, turn: Group, e: CanonicalEvent)
    requires ValidPlan(plan) && turn in plan.turns && e in turn.members && IsModel(e) && !FeedsAssistant(plan.events, e)
    ensures SaidBy(plan, turn, e) == []
  {
    var k := StepOfEvent(plan, turn, e);
    StepShape(plan, turn, Steps(turn)[k]);
    AssistantEventsShape(plan, Steps(turn)[k]);
    var feeding := AssistantEvents(plan.events, Steps(turn)[k]);
    assert feeding != [] ==> feeding[0] in feeding;
  }

  lemma OwedAhead(events: seq<CanonicalEvent>, done: seq<CanonicalEvent>, e: CanonicalEvent, rest: seq<CanonicalEvent>)
    ensures FlatMap([e] + rest, Owed(events, done)) == OwedBy(events, done, e) + FlatMap(rest, Owed(events, done))
  {
    FlatMapCons([e] + rest, Owed(events, done));
    assert ([e] + rest)[1..] == rest;
  }

  /** An event of a message already written pays off its own share. */
  lemma PayOff(plan: Plan, turn: Group, done: seq<CanonicalEvent>, e: CanonicalEvent, rest: seq<CanonicalEvent>)
    requires ValidPlan(plan) && turn in plan.turns
    requires SplitAt(turn, done, e, rest) && IsModel(e) && FeedsAssistant(plan.events, e)
    requires !Leads(plan, turn, e)
    ensures FlatMap([e] + rest, Owed(plan.events, done))
            == EventItems(plan.events, e) + FlatMap(rest, Owed(plan.events, done + [e]))
    ensures SaidBy(plan, turn, e) == []
  {
    var step := FeedingOf(plan, turn, e);
    var first := AssistantEvents(plan.events, step)[0];
    assert first in turn.members && first != e && first.sequence <= e.sequence;
    assert first in done;
    OwedAhead(plan.events, done, e, rest);
    assert Started(plan.events, done, e);
    forall f | f in rest
      ensures OwedBy(plan.events, done, f) == OwedBy(plan.events, done + [e], f)
    {
      assert StepCoord(e) == StepCoord(f) ==> StepCoord(first) == StepCoord(f);
    }
    FlatMapCongruence(rest, Owed(plan.events, done), Owed(plan.events, done + [e]));
  }

  /** The first event of a message has the whole message written; the rest of it is then owed. */
  lemma Begin(plan: Plan, turn: Group, done: seq<CanonicalEvent>, e: CanonicalEvent, rest: seq<CanonicalEvent>)
    requires ValidPlan(plan) && turn in plan.turns
    requires SplitAt(turn, done, e, rest) && IsModel(e) && FeedsAssistant(plan.events, e)
    requires Leads(plan, turn, e)
    ensures FlatMap([e] + rest, Owed(plan.events, done)) == []
    ensures SaidBy(plan, turn, e) == EventItems(plan.events, e) + FlatMap(rest, Owed(plan.events, done + [e]))
  {
    var k := StepOfEvent(plan, turn, e);
    var step := FeedingOf(plan, turn, e);
    NothingBefore(plan, turn, done, e);
    forall f | f in [e] + rest
      ensures Owed(plan.events, done)(f) == []
    {
      if f in rest {
        NothingOwedAtStart(plan, turn, done, e, f);
      }
    }
    FlatMapEmpty([e] + rest, Owed(plan.events, done));
    StepWrites(plan, turn, k);
    var of := OfStep(plan.events, step.coord);
    FlatMapConcat(done + [e], rest, of);
    FlatMapConcat(done, [e], of);
    SingletonFlatMap(e, of);
    FlatMapEmpty(done, of);
    forall f | f in rest
      ensures of(f) == Owed(plan.events, done + [e])(f)
    {
      OwedByThisStep(plan, turn, done, e, f);
    }
    FlatMapCongruence(rest, of, Owed(plan.events, done + [e]));
  }

  /** Before the first event of a message nothing feeds its step. */
  lemma NothingBefore(plan: Plan, turn: Group, done: seq<CanonicalEvent>, e: CanonicalEvent)
    requires ValidPlan(plan) && turn in plan.turns
    requires e in turn.members && IsModel(e) && FeedsAssistant(plan.events, e)
    requires Leads(plan, turn, e)
    requires forall d :: d in done ==> d in turn.members && d.sequence < e.sequence
    ensures forall d :: d in done ==> FedBy(plan.events, StepCoord(e), d) == []
    ensures !Started(plan.events, done, e)
  {
    forall d | d in done && IsModel(d) && FeedsAssistant(plan.events, d)
      ensures StepCoord(d) != StepCoord(e)
    {
      var step := FeedingOf(plan, turn, d);
    }
  }

  lemma OwedByThisStep(plan: Plan, turn: Group, done: seq<CanonicalEvent>, e: CanonicalEvent, f: CanonicalEvent)
    requires ValidPlan(plan) && turn in plan.turns
    requires e in turn.members && IsModel(e) && FeedsAssistant(plan.events, e) && f in turn.members
            && e.sequence < f.sequence
    requires Leads(plan, turn, e)
    requires forall d :: d in done ==> d in turn.members && d.sequence < e.sequence
    ensures FedBy(plan.events, StepCoord(e), f) == OwedBy(plan.events, done + [e], f)
  {
    NothingOwedAtStart(plan, turn, done, e, f);
    assert e in done + [e];
    if Started(plan.events, done + [e], f) && !Started(plan.events, done, f) {
      assert StepCoord(f) == StepCoord(e);
    }
  }

  lemma OneMoreSays(plan: Plan, turn: Group, done: seq<CanonicalEvent>, e: CanonicalEvent, rest: seq<CanonicalEvent>)
    requires ValidPlan(plan) && turn in plan.turns && TurnPlannable(plan.events, turn)
    requires SplitAt(turn, done, e, rest)
    ensures FlatMap([e] + rest, Owed(plan.events, done)) + SaidBy(plan, turn, e)
         == EventItems(plan.events, e) + FlatMap(rest, Owed(plan.events, done + [e]))
  {
    if IsModel(e) && FeedsAssistant(plan.events, e) {
      if Leads(plan, turn, e) {
        Begin(plan, turn, done, e, rest);
      } else {
        PayOff(plan, turn, done, e, rest);
      }
    } else {
      PassOver(plan, turn, done, e, rest);
    }
  }

  /** What the stream has said after a prefix of a turn: what the prefix contributed, and what is owed to the rest. */
  lemma {:induction false} PrefixSays(plan: Plan, turn: Group, done: seq<CanonicalEvent>, rest: seq<CanonicalEvent>)
    requires ValidPlan(plan) && turn in plan.turns && TurnPlannable(plan.events, turn)
    requires turn.members == done + rest
    ensures FlatMap(done, SaidAt(plan, turn))
            == FlatMap(done, Contribution(plan.events)) + FlatMap(rest, Owed(plan.events, done))
    decreases |done|
  {
    if done == [] {
      FlatMapEmpty(rest, Owed(plan.events, []));
    } else {
      var init, e := done[..|done| - 1], Last(done);
      assert done == init + [e];
      assert turn.members == init + ([e] + rest);
      PrefixSays(plan, turn, init, [e] + rest);
      TurnShape(plan, turn);
      SplitTurn(turn, |init|);
      assert turn.members[|init| + 1..] == rest && turn.members[..|init|] == init;
      OneMoreSays(plan, turn, init, e, rest);
      Reassociated(FlatMap(init, SaidAt(plan, turn)), FlatMap(init, Contribution(plan.events)),
          FlatMap([e] + rest, Owed(plan.events, init)),
                   SaidBy(plan, turn, e), EventItems(plan.events, e), FlatMap(rest, Owed(plan.events, done)));
    }
  }

  lemma Reassociated(said: seq<Item>, contributed: seq<Item>, owed: seq<Item>, now: seq<Item>, own: seq<Item>,
      later: seq<Item>)
    requires said == contributed + owed && owed + now == own + later
    ensures said + now == (contributed + own) + later
  {
    assert said + now == contributed + (owed + now);
  }

  lemma TurnSays(plan: Plan, turn: Group)
    requires ValidPlan(plan) && turn in plan.turns && TurnPlannable(plan.events, turn)
    ensures FlatMap(turn.members, SaidAt(plan, turn)) == FlatMap(turn.members, Contribution(plan.events))
  {
    assert turn.members == turn.members + [];
    PrefixSays(plan, turn, turn.members, []);
  }

  // ----- the whole

  function TurnContribution(plan: Plan): Group -> seq<Item> {
    (turn: Group) => FlatMap(turn.members, Contribution(plan.events))
  }

  lemma StreamSays(plan: Plan)
    requires ValidPlan(plan) && Guarded(plan.events)
    requires forall turn :: turn in plan.turns ==> TurnPlannable(plan.events, turn)
    ensures FlatMap(Stream(plan), EmissionItems) == CanonicalTranscript(plan.events)
  {
    FlatMapFlatMap(plan.events, Bundle(plan), EmissionItems, BundleItems(plan));
    forall e | e in plan.events && !IsConversation(e)
      ensures BundleItems(plan)(e) == [] && Contribution(plan.events)(e) == []
    {
      OutsideSaysNothing(plan, e);
    }
    FlatMapFilter(plan.events, IsConversation, BundleItems(plan));
    FlatMapFilter(plan.events, IsConversation, Contribution(plan.events));
    RunsFlatten(Filter(plan.events, IsConversation), TurnCoord);
    forall turn | turn in plan.turns
      ensures FlatMap(MembersOf()(turn), BundleItems(plan)) == TurnContribution(plan)(turn)
    {
      forall e | e in turn.members
        ensures BundleItems(plan)(e) == SaidAt(plan, turn)(e)
      {
        BundleSays(plan, turn, e);
      }
      FlatMapCongruence(turn.members, BundleItems(plan), SaidAt(plan, turn));
      TurnSays(plan, turn);
    }
    FlatMapFlatMap(plan.turns, MembersOf(), BundleItems(plan), TurnContribution(plan));
    FlatMapFlatMap(plan.turns, MembersOf(), Contribution(plan.events), TurnContribution(plan));
  }

  /**
   * The projection preserves the conversation: user messages and assistant blocks of the output, read in order, are the
   * user, reasoning, assistant and correlated call blocks of the canonical events in canonical order.
   */
  lemma TranscriptPreserved(events: seq<CanonicalEvent>, createdAt: int)
    requires Compilable(events, createdAt) && Guarded(events)
    ensures Transcript(Rows(Stream(PlanFor(events, createdAt)))) == CanonicalTranscript(events)
  {
    var plan := PlanFor(events, createdAt);
    CompilablePlan(events, createdAt);
    var rows, stream := Rows(Stream(plan)), Stream(plan);
    forall i | 0 <= i < |rows|
      ensures RowItems(rows[i]) == EmissionItems(stream[i])
    {
      RelocatedSays(stream, stream[i], i);
    }
    TranscriptOfRows(rows, stream);
    StreamSays(plan);
  }

  lemma RelocatedSays(stream: seq<Emission>, x: Emission, position: nat)
    requires Relocatable(stream, x)
    ensures RowItems(Relocate(stream, x, position)) == EmissionItems(x)
  {
  }
}
