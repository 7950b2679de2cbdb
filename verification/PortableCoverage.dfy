/** Which canonical events the rows of the projection represent, and under which anchors their messages are found. */
module PortableCoverage {
  import opened Sequences
  import opened Sorting
  import opened Canonical
  import opened CoordinateRuns
  import opened OtherGroups
  import opened PortableEmission
  import opened PortableOrder
  import opened PortableMaterialize
  import opened PortableTheorems

  /** A reasoning or assistant event of a step whose message came out empty. */
  ghost predicate Mute(plan: Plan, e: CanonicalEvent) {
    && (e.kind == Reasoning || e.kind == AssistantMessage)
    && exists turn, step :: turn in plan.turns && step in Steps(turn) && e in step.members
         && StepBlocks(plan.events, step) == []
  }

  ghost predicate Represented(plan: Plan, e: CanonicalEvent) {
    exists x :: x in Stream(plan) && e.sequence in x.origins
  }

  lemma GroupMember(plan: Plan, group: seq<CanonicalEvent>, f: CanonicalEvent)
    requires ValidPlan(plan) && group in plan.groups && f in group
    ensures f in plan.events && f.kind == Other
  {
    GroupsPartition(plan.turns, plan.events);
    FlatMapMembership(plan.groups, Itself());
    assert f in Itself()(group);
    SameMembers(FlatMap(plan.groups, Itself()), Filter(plan.events, IsOther));
    FilterMembership(plan.events, IsOther);
  }

  lemma GroupHolding(plan: Plan, e: CanonicalEvent) returns (group: seq<CanonicalEvent>)
    requires ValidPlan(plan) && e in plan.events && e.kind == Other
    ensures group in plan.groups && e in group
  {
    GroupsPartition(plan.turns, plan.events);
    FlatMapMembership(plan.groups, Itself());
    SameMembers(FlatMap(plan.groups, Itself()), Filter(plan.events, IsOther));
    FilterMembership(plan.events, IsOther);
    group :| group in plan.groups && e in Itself()(group);
  }

  lemma OtherRepresented(plan: Plan, e: CanonicalEvent)
    requires ValidPlan(plan) && e in plan.events && e.kind == Other
    ensures Represented(plan, e)
  {
    var group := GroupHolding(plan, e);
    GroupsLed(plan.turns, plan.events);
    var k :| 0 <= k < |plan.groups| && plan.groups[k] == group;
    GroupLedByHead(plan.groups, plan.events, k);
    var x := GroupDraft(plan, group)[0];
    assert x in BundleOf(plan, group[0]);
    InStream(plan, group[0], x);
    MapMember(group, SequenceOf, e);
  }

  lemma MapMember<A, B>(s: seq<A>, f: A -> B, a: A)
    requires a in s
    ensures f(a) in Map(s, f)
  {
    var i :| 0 <= i < |s| && s[i] == a;
    assert Map(s, f)[i] == f(a);
  }

  lemma FedRepresented(plan: Plan, e: CanonicalEvent)
    requires ValidPlan(plan) && e in plan.events && (e.kind == Reasoning || e.kind == AssistantMessage)
            && !Mute(plan, e)
    ensures Represented(plan, e)
  {
    hide BundleOf, InnerOf, TurnOf, StepOf, ToolDraft, StepBlocks, MatchedCall;
    var turn, step := Located(plan, e);
    StepShape(plan, turn, step);
    AssistantEventsShape(plan, step);
    var feeding := AssistantEvents(plan.events, step);
    assert e in feeding && StepBlocks(plan.events, step) != [];
    var first := feeding[0];
    assert first in feeding;
    EmittedAt(plan, turn, step, first);
    var x := AssistantEmissions(plan, turn, step)[0];
    assert x in AssistantOf(plan, turn, step, first);
    BundleCore(plan, turn, step, first, x);
    InStream(plan, first, x);
    MapMember(feeding, SequenceOf, e);
  }

  lemma PlainRepresented(plan: Plan, e: CanonicalEvent)
    requires ValidPlan(plan) && e in plan.events
    requires e.kind.Metadata? || IsUser(e) || e.kind == ToolCall || e.kind == ToolResult
    ensures Represented(plan, e)
  {
    if e.kind.Metadata? {
      var x := MetadataDraft(plan, e)[0];
      assert x in BundleOf(plan, e);
      InStream(plan, e, x);
    } else if IsUser(e) {
      var x := UserDraft(plan, e)[0];
      TurnParts(plan, TurnAt(plan, TurnCoord(e).ordinal), e, x);
      InStream(plan, e, x);
    } else {
      var turn, step := ToolInStream(plan, e);
    }
  }

  /** A mute event is the origin of no row. */
  lemma MuteUnrepresented(plan: Plan, e: CanonicalEvent, x: Emission)
    requires ValidPlan(plan) && e in plan.events && Mute(plan, e) && x in Stream(plan)
    ensures e.sequence !in x.origins
  {
    if e.sequence in x.origins {
      var d := FromStream(plan, x);
      if IsModel(d) {
        MuteModel(plan, e, d, x);
      } else if d.kind == Other {
        MuteOther(plan, e, d, x);
      } else if IsUser(d) {
        TurnParts(plan, TurnAt(plan, TurnCoord(d).ordinal), d, x);
        SameSequence(plan.events, d, e);
      } else {
        SameSequence(plan.events, d, e);
      }
    }
  }

  lemma MuteOther(plan: Plan, e: CanonicalEvent, d: CanonicalEvent, x: Emission)
    requires ValidPlan(plan) && e in plan.events && e.kind != Other
    requires d in plan.events && d.kind == Other && x in BundleOf(plan, d)
    ensures e.sequence !in x.origins
  {
    GroupLedByMember(plan.groups, d);
    var group := GroupLedBy(plan.groups, d);
    if e.sequence in x.origins {
      var i :| 0 <= i < |group| && group[i].sequence == e.sequence;
      GroupMember(plan, group, group[i]);
      SameSequence(plan.events, group[i], e);
    }
  }

  lemma MuteModel(plan: Plan, e: CanonicalEvent, d: CanonicalEvent, x: Emission)
    requires ValidPlan(plan) && e in plan.events && Mute(plan, e)
    requires d in plan.events && IsModel(d) && x in BundleOf(plan, d)
    ensures e.sequence !in x.origins
  {
    var turn, step := Located(plan, d);
    BundleCore(plan, turn, step, d, x);
    if x in ToolDraft(plan, turn, step, d) {
      ToolOrigin(plan, turn, step, e, d, x);
    } else if x in AssistantOf(plan, turn, step, d) {
      FeedingOrigin(plan, turn, step, e, x);
    }
  }

  lemma ToolOrigin(plan: Plan, turn: Group, step: Group, e: CanonicalEvent, d: CanonicalEvent, x: Emission)
    requires InOrder(plan.events) && e in plan.events && d in plan.events
            && (e.kind == Reasoning || e.kind == AssistantMessage)
    requires x in ToolDraft(plan, turn, step, d)
    ensures e.sequence !in x.origins
  {
    assert x.origins == [d.sequence];
    if d.sequence == e.sequence {
      SameSequence(plan.events, d, e);
    }
  }

  lemma FeedingOrigin(plan: Plan, turn: Group, step: Group, e: CanonicalEvent, x: Emission)
    requires ValidPlan(plan) && e in plan.events && Mute(plan, e) && turn in plan.turns && step in Steps(turn)
    requires x in AssistantEmissions(plan, turn, step)
    ensures e.sequence !in x.origins
  {
    var feeding := AssistantEvents(plan.events, step);
    StepShape(plan, turn, step);
    AssistantEventsShape(plan, step);
    if e.sequence in x.origins {
      var i :| 0 <= i < |feeding| && feeding[i].sequence == e.sequence;
      var f := feeding[i];
      assert f in feeding;
      StepMember(plan, turn, step, f);
      TurnMember(plan, turn, f);
      SameSequence(plan.events, f, e);
      MuteStep(plan, e, turn, step);
    }
  }

  lemma MuteStep(plan: Plan, e: CanonicalEvent, turn: Group, step: Group)
    requires ValidPlan(plan) && Mute(plan, e) && turn in plan.turns && step in Steps(turn) && e in step.members
    ensures StepBlocks(plan.events, step) == []
  {
    var turn', step' :| turn' in plan.turns && step' in Steps(turn') && e in step'.members
        && StepBlocks(plan.events, step') == [];
    StepMember(plan, turn, step, e);
    StepMember(plan, turn', step', e);
    TurnMember(plan, turn, e);
    TurnMember(plan, turn', e);
  }

  /** Every canonical event is the origin of some row, except exactly those whose step wrote an empty message. */
  lemma EveryEventRepresented(events: seq<CanonicalEvent>, createdAt: int, e: CanonicalEvent)
    requires Compilable(events, createdAt) && e in events
    ensures Represented(PlanFor(events, createdAt), e) <==> !Mute(PlanFor(events, createdAt), e)
  {
    var plan := PlanFor(events, createdAt);
    CompilablePlan(events, createdAt);
    if Mute(plan, e) {
      forall x | x in Stream(plan)
        ensures e.sequence !in x.origins
      {
        MuteUnrepresented(plan, e, x);
      }
    } else if e.kind == Other {
      OtherRepresented(plan, e);
    } else if e.kind == Reasoning || e.kind == AssistantMessage {
      FedRepresented(plan, e);
    } else {
      PlainRepresented(plan, e);
    }
  }
}
