/**
 * What a portable history must bring to be projected: coordinates in sequence and contents that fit their messages,
 * both stated on the canonical events alone.
 */
module PortableContents {
  import opened Outcomes
  import opened Text
  import opened Sequences
  import opened Canonical
  import opened CoordinateRuns
  import opened PortableEmission
  import opened PortableOrder
  import opened PortableAcceptance
  import opened PortableMaterialize
  import opened PortableTheorems
  import opened PortableRows

  // ----- coordinates

  /** The coordinate of the entry before, or the next number under an identity not used before. */
  ghost predicate Follows(entries: seq<CanonicalEvent>, coord: CanonicalEvent -> Coord, i: nat)
    requires i < |entries|
  {
    if i == 0 then coord(entries[0]).ordinal == 0
    else
      || coord(entries[i]) == coord(entries[i - 1])
      || (coord(entries[i]).ordinal == coord(entries[i - 1]).ordinal + 1
          && forall j :: 0 <= j < i ==> coord(entries[j]).id != coord(entries[i]).id)
  }

  ghost predicate InSequence(entries: seq<CanonicalEvent>, coord: CanonicalEvent -> Coord) {
    forall i :: 0 <= i < |entries| ==> Follows(entries, coord, i)
  }

  lemma SequenceMore(entries: seq<CanonicalEvent>, coord: CanonicalEvent -> Coord)
    requires entries != []
    ensures InSequence(entries, coord)
            <==> InSequence(entries[..|entries| - 1], coord) && Follows(entries, coord, |entries| - 1)
  {
    var init := entries[..|entries| - 1];
    forall i | 0 <= i < |init|
      ensures Follows(init, coord, i) <==> Follows(entries, coord, i)
    {
      assert forall j :: 0 <= j <= i ==> init[j] == entries[j];
    }
  }

  lemma LastRun(entries: seq<CanonicalEvent>, coord: CanonicalEvent -> Coord)
    requires entries != []
    ensures var runs := Runs(entries, coord); runs != [] && Last(runs).coord == coord(Last(entries))
  {
  }

  lemma RunIds(entries: seq<CanonicalEvent>, coord: CanonicalEvent -> Coord, id: string)
    ensures (forall k :: 0 <= k < |Runs(entries, coord)| ==> Runs(entries, coord)[k].coord.id != id)
            <==> forall j :: 0 <= j < |entries| ==> coord(entries[j]).id != id
  {
    var runs := Runs(entries, coord);
    if k :| 0 <= k < |runs| && runs[k].coord.id == id {
      RunsHomogeneous(entries, coord);
      assert runs[k].members[0] in runs[k].members;
      RunMember(entries, coord, k, runs[k].members[0]);
    }
    if j :| 0 <= j < |entries| && coord(entries[j]).id == id {
      RunCoordOf(entries, coord, entries[j]);
    }
  }

  lemma NumberedMore(runs: seq<Group>, c: Coord, e: CanonicalEvent)
    requires runs != []
    ensures Numbered(Extend(runs, c, e))
            <==> && Numbered(runs)
                 && (|| Last(runs).coord == c
                     || (c.ordinal == Last(runs).coord.ordinal + 1
                         && forall k :: 0 <= k < |runs| ==> runs[k].coord.id != c.id))
  {
    var more := Extend(runs, c, e);
    forall k | 0 <= k < |runs|
      ensures more[k].coord == runs[k].coord
    {
    }
    if Last(runs).coord == c {
      assert |more| == |runs|;
    } else {
      assert more == runs + [Group(c, [e])];
      if Numbered(more) {
        assert more[|runs|].coord == c;
      }
    }
  }

  /** Groups are numbered exactly if each entry keeps the coordinate before it or moves on to the next one. */
  lemma {:induction false} NumberedExactly(entries: seq<CanonicalEvent>, coord: CanonicalEvent -> Coord)
    ensures Numbered(Runs(entries, coord)) <==> InSequence(entries, coord)
  {
    hide Follows;
    if entries != [] {
      var init, e := entries[..|entries| - 1], Last(entries);
      NumberedExactly(init, coord);
      SequenceMore(entries, coord);
      if init == [] {
        FirstRun(e, coord);
        assert entries == [e];
      } else {
        LastRun(init, coord);
        RunIds(init, coord, coord(e).id);
        NumberedMore(Runs(init, coord), coord(e), e);
        FollowsLast(entries, coord);
      }
    }
  }

  lemma FirstRun(e: CanonicalEvent, coord: CanonicalEvent -> Coord)
    ensures Numbered(Runs([e], coord)) <==> Follows([e], coord, 0)
  {
    assert [e][..0] == [];
    assert Runs([e], coord) == [Group(coord(e), [e])];
    assert Runs([e], coord)[0].coord == coord(e);
  }

  lemma FollowsLast(entries: seq<CanonicalEvent>, coord: CanonicalEvent -> Coord)
    requires |entries| > 1
    ensures var init, e := entries[..|entries| - 1], Last(entries);
            Follows(entries, coord, |entries| - 1)
            <==> || coord(Last(init)) == coord(e)
                 || (coord(e).ordinal == coord(Last(init)).ordinal + 1
                     && forall j :: 0 <= j < |init| ==> coord(init[j]).id != coord(e).id)
  {
    var init := entries[..|entries| - 1];
    assert forall j :: 0 <= j < |init| ==> entries[j] == init[j];
  }

  /** The events of the turn of an event that work on a step. */
  function ModelInTurn(e: CanonicalEvent): CanonicalEvent -> bool {
    (d: CanonicalEvent) => IsModel(d) && TurnCoord(d) == TurnCoord(e)
  }

  /** Every conversation event has a turn, and the turns follow each other. */
  ghost predicate TurnsFollow(events: seq<CanonicalEvent>) {
    && (forall e :: e in events && IsConversation(e) ==>
          e.topology.Some? && Some(e.topology.value.phase) == PhaseOf(e.kind))
    && InSequence(Filter(events, IsConversation), TurnCoord)
  }

  /** Within each turn every event of the model has a step, and the steps follow each other. */
  ghost predicate StepsFollow(events: seq<CanonicalEvent>) {
    && (forall e :: e in events && IsModel(e) ==> e.topology.Some? && e.topology.value.step.Some?)
    && forall e :: e in events && IsConversation(e) ==> InSequence(Filter(events, ModelInTurn(e)), StepCoord)
  }

  lemma TurnsExactly(events: seq<CanonicalEvent>)
    ensures TurnsPlanned(events) <==> TurnsFollow(events)
  {
    hide InSequence;
    FilterMembership(events, IsConversation);
    NumberedExactly(Filter(events, IsConversation), TurnCoord);
  }

  lemma ModelEvents(events: seq<CanonicalEvent>, turn: Group, e: CanonicalEvent)
    requires InOrder(events) && Numbered(Turns(events)) && turn in Turns(events) && e in turn.members
    ensures Filter(turn.members, IsModel) == Filter(events, ModelInTurn(e))
    ensures e in events && IsConversation(e)
  {
    FilterMembership(events, IsConversation);
    var entries := Filter(events, IsConversation);
    GroupMembers(entries, TurnCoord, turn, e);
    TurnsInOrder(events);
    FilterIncreasing(turn.members, IsModel);
    FilterMembership(turn.members, IsModel);
    FilterIncreasing(events, ModelInTurn(e));
    FilterMembership(events, ModelInTurn(e));
    forall d
      ensures d in Filter(turn.members, IsModel) <==> d in Filter(events, ModelInTurn(e))
    {
      GroupMembers(entries, TurnCoord, turn, d);
    }
    SameIncreasing(Filter(turn.members, IsModel), Filter(events, ModelInTurn(e)));
  }

  ghost predicate StepsPlanned(turn: Group) {
    (forall e :: e in Filter(turn.members, IsModel) ==> HasStep(e)) && Numbered(Steps(turn))
  }

  lemma HoldingTurn(events: seq<CanonicalEvent>, e: CanonicalEvent) returns (turn: Group)
    requires e in events && IsConversation(e)
    ensures turn in Turns(events) && e in turn.members
  {
    FilterMembership(events, IsConversation);
    RunCoordOf(Filter(events, IsConversation), TurnCoord, e);
    var k :| 0 <= k < |Turns(events)| && Turns(events)[k].coord == TurnCoord(e) && e in Turns(events)[k].members;
    turn := Turns(events)[k];
  }

  lemma TurnNotEmpty(events: seq<CanonicalEvent>, turn: Group)
    requires turn in Turns(events)
    ensures turn.members != []
  {
    RunsHomogeneous(Filter(events, IsConversation), TurnCoord);
  }

  lemma StepsExactly(events: seq<CanonicalEvent>)
    requires InOrder(events) && Numbered(Turns(events))
    ensures (forall turn :: turn in Turns(events) ==> StepsPlanned(turn)) <==> StepsFollow(events)
  {
    hide InSequence, Numbered, Turns, InOrder;
    if StepsFollow(events) {
      forall turn | turn in Turns(events)
        ensures StepsPlanned(turn)
      {
        TurnNotEmpty(events, turn);
        var e := turn.members[0];
        assert e in turn.members;
        ModelEvents(events, turn, e);
        FilterMembership(events, ModelInTurn(e));
        NumberedExactly(Filter(turn.members, IsModel), StepCoord);
      }
    }
    if forall turn :: turn in Turns(events) ==> StepsPlanned(turn) {
      forall e | e in events && IsConversation(e)
        ensures InSequence(Filter(events, ModelInTurn(e)), StepCoord) && (IsModel(e) ==> HasStep(e))
      {
        var turn := HoldingTurn(events, e);
        ModelEvents(events, turn, e);
        FilterMembership(turn.members, IsModel);
        NumberedExactly(Filter(turn.members, IsModel), StepCoord);
      }
    }
  }

  // ----- contents

  predicate IsTextual(b: Block) {
    b.TextBlock? || b.ReasoningBlock?
  }

  predicate IsToolBlock(b: Block) {
    b.ToolCallBlock? || b.ToolResultBlock?
  }

  /** Reasoning is textual, messages hold no tool blocks, and calls with a result have a name and arguments. */
  ghost predicate IsWritable(events: seq<CanonicalEvent>, e: CanonicalEvent) {
    && (e.kind == Reasoning ==> exists own :: SaysOwnContent(e, own) && forall b :: b in own ==> IsTextual(b))
    && (e.kind == AssistantMessage ==>
          exists own :: SaysOwnContent(e, own) && forall b :: b in own ==> !IsToolBlock(b))
    && (IsPairedCall(events, e) ==>
          e.content.tool.name.Some? && NonBlank(e.content.tool.name.value) && e.content.tool.arguments.Some?)
  }

  lemma OwnContentIs(e: CanonicalEvent, own: seq<Block>)
    ensures SaysOwnContent(e, own) <==> own == MessageBlocks(e)
  {
    MessageBlocksAre(e);
  }

  lemma WritableExactly(events: seq<CanonicalEvent>, e: CanonicalEvent)
    requires InOrder(events) && e in events
    ensures Writable(events, e) <==> IsWritable(events, e)
  {
    hide MessageBlocks, SaysOwnContent, Matched, IsPairedCall;
    MatchedIsPaired(events, e);
    OwnContentIs(e, MessageBlocks(e));
    forall own | SaysOwnContent(e, own)
      ensures own == MessageBlocks(e)
    {
      OwnContentIs(e, own);
    }
  }

  /** No user message comes between two events of one message of a step. */
  ghost predicate NotSteeredWithin(events: seq<CanonicalEvent>) {
    forall a, u, b :: a in events && u in events && b in events ==> !Steers(events, a, u, b)
  }

  ghost predicate Steers(events: seq<CanonicalEvent>, a: CanonicalEvent, u: CanonicalEvent, b: CanonicalEvent) {
    && Speaks(events, a) && Speaks(events, b) && InStepOf(a, b) && u.kind == UserMessage && SameTurn(u, a)
    && a.sequence < u.sequence < b.sequence
  }

  lemma SpeakersOfStep(plan: Plan, turn: Group, step: Group)
    requires ValidPlan(plan) && turn in plan.turns && step in Steps(turn)
    ensures InOrder(AssistantEvents(plan.events, step))
    ensures forall e :: e in AssistantEvents(plan.events, step)
              <==> e in step.members && e in plan.events && Speaks(plan.events, e)
  {
    hide Speaks, FeedsAssistant;
    StepShape(plan, turn, step);
    AssistantEventsShape(plan, step);
    forall e
      ensures e in AssistantEvents(plan.events, step)
              <==> e in step.members && e in plan.events && Speaks(plan.events, e)
    {
      if e in step.members {
        StepMember(plan, turn, step, e);
        TurnMember(plan, turn, e);
        SpeaksIsFeeds(plan, e);
      }
    }
  }

  lemma CrossesExactly(plan: Plan, turn: Group, step: Group)
    requires ValidPlan(plan) && turn in plan.turns && step in Steps(turn)
    ensures CrossesSteering(plan.events, turn, step)
            <==> exists a, u, b :: a in step.members && b in step.members && u in plan.events
                   && Steers(plan.events, a, u, b)
  {
    hide Speaks, AssistantEvents, Steps, ValidPlan;
    SpeakersOfStep(plan, turn, step);
    var feeding := AssistantEvents(plan.events, step);
    if CrossesSteering(plan.events, turn, step) {
      var a, b := feeding[0], Last(feeding);
      assert a in feeding && b in feeding;
      var u :| u in turn.members && IsUser(u) && a.sequence < u.sequence < b.sequence;
      TurnMember(plan, turn, u);
      SameStepMembers(plan, turn, step, a, b);
      assert Steers(plan.events, a, u, b);
    }
    if a, u, b :| a in step.members && b in step.members && u in plan.events && Steers(plan.events, a, u, b) {
      SameStepMembers(plan, turn, step, a, b);
      InTurn(plan, turn, a, u);
      assert a in feeding && b in feeding;
      assert feeding[0].sequence <= a.sequence && b.sequence <= Last(feeding).sequence by {
        FirstAndLast(feeding, a);
        FirstAndLast(feeding, b);
      }
    }
  }

  lemma FirstAndLast(feeding: seq<CanonicalEvent>, e: CanonicalEvent)
    requires InOrder(feeding) && e in feeding
    ensures feeding[0].sequence <= e.sequence <= Last(feeding).sequence
  {
  }

  lemma SameStepMembers(plan: Plan, turn: Group, step: Group, a: CanonicalEvent, b: CanonicalEvent)
    requires ValidPlan(plan) && turn in plan.turns && step in Steps(turn) && a in step.members && b in step.members
    ensures a in plan.events && b in plan.events && InStepOf(a, b) && TurnCoord(a) == turn.coord && IsConversation(a)
  {
    StepMember(plan, turn, step, a);
    StepMember(plan, turn, step, b);
    TurnMember(plan, turn, a);
    TurnMember(plan, turn, b);
  }

  lemma InTurn(plan: Plan, turn: Group, a: CanonicalEvent, u: CanonicalEvent)
    requires ValidPlan(plan) && turn in plan.turns && TurnCoord(a) == turn.coord && u in plan.events && SameTurn(u, a)
    ensures u in turn.members
  {
    var other := TurnHolding(plan, u);
    TurnMember(plan, other, u);
    var k :| 0 <= k < |plan.turns| && plan.turns[k] == turn;
    var j :| 0 <= j < |plan.turns| && plan.turns[j] == other;
  }

  ghost predicate StepsOfPlanWritable(plan: Plan) {
    forall turn, step :: turn in plan.turns && step in Steps(turn) ==> StepWritable(plan.events, turn, step)
  }

  lemma ContentsExactly(plan: Plan)
    requires ValidPlan(plan)
    ensures StepsOfPlanWritable(plan)
            <==> (forall e :: e in plan.events ==> IsWritable(plan.events, e)) && NotSteeredWithin(plan.events)
  {
    hide ValidPlan, IsWritable, Steers, Writable, CrossesSteering, Steps, Speaks, AssistantEvents;
    if StepsOfPlanWritable(plan) {
      forall e | e in plan.events
        ensures IsWritable(plan.events, e)
      {
        WritableInStep(plan, e);
      }
      forall a, u, b | a in plan.events && u in plan.events && b in plan.events
        ensures !Steers(plan.events, a, u, b)
      {
        if Steers(plan.events, a, u, b) {
          SteersInStep(plan, a, u, b);
        }
      }
    }
    if (forall e :: e in plan.events ==> IsWritable(plan.events, e)) && NotSteeredWithin(plan.events) {
      forall turn, step | turn in plan.turns && step in Steps(turn)
        ensures StepWritable(plan.events, turn, step)
      {
        CrossesExactly(plan, turn, step);
        SpeakersOfStep(plan, turn, step);
        EachWritable(plan, AssistantEvents(plan.events, step));
        NoneSteers(plan, turn, step);
      }
    }
  }

  lemma NoneSteers(plan: Plan, turn: Group, step: Group)
    requires ValidPlan(plan) && turn in plan.turns && step in Steps(turn) && NotSteeredWithin(plan.events)
    ensures !CrossesSteering(plan.events, turn, step)
  {
    hide ValidPlan, Steers, CrossesSteering, Steps;
    CrossesExactly(plan, turn, step);
    if a, u, b :| a in step.members && b in step.members && u in plan.events && Steers(plan.events, a, u, b) {
      SameStepMembers(plan, turn, step, a, b);
    }
  }

  lemma EachWritable(plan: Plan, feeding: seq<CanonicalEvent>)
    requires ValidPlan(plan) && forall e :: e in feeding ==> e in plan.events && IsWritable(plan.events, e)
    ensures forall e :: e in feeding ==> Writable(plan.events, e)
  {
    hide IsWritable, Writable;
    forall e | e in feeding
      ensures Writable(plan.events, e)
    {
      WritableExactly(plan.events, e);
    }
  }

  lemma WritableInStep(plan: Plan, e: CanonicalEvent)
    requires ValidPlan(plan) && StepsOfPlanWritable(plan) && e in plan.events
    ensures IsWritable(plan.events, e)
  {
    hide Matched, Steps, CrossesSteering, AssistantEvents, FeedsAssistant, Turns;
    WritableExactly(plan.events, e);
    SpeaksIsFeeds(plan, e);
    if FeedsAssistant(plan.events, e) {
      FeedsModel(plan.events, e);
      var turn, step := Located(plan, e);
      SpeakersOfStep(plan, turn, step);
      assert StepWritable(plan.events, turn, step);
    } else {
      SilentWritable(plan.events, e);
    }
  }

  lemma FeedsModel(events: seq<CanonicalEvent>, e: CanonicalEvent)
    requires FeedsAssistant(events, e)
    ensures IsModel(e)
  {
    hide Matched;
  }

  lemma SilentWritable(events: seq<CanonicalEvent>, e: CanonicalEvent)
    requires !FeedsAssistant(events, e)
    ensures Writable(events, e)
  {
    hide Matched;
  }

  lemma SteersInStep(plan: Plan, a: CanonicalEvent, u: CanonicalEvent, b: CanonicalEvent)
    requires ValidPlan(plan) && a in plan.events && u in plan.events && b in plan.events
    requires Steers(plan.events, a, u, b)
    ensures !StepsOfPlanWritable(plan)
  {
    hide ValidPlan, Speaks, CrossesSteering, Steps, AssistantEvents;
    var turn, step := StepIs(plan, a);
    assert InStepOf(a, a) && InStepOf(b, a);
    CrossesExactly(plan, turn, step);
    assert !StepWritable(plan.events, turn, step);
  }
}
