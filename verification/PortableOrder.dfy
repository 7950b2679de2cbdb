/** Pushing turn by turn and sorting by position yields the one-pass stream of the canonical events. */
module PortableOrder {
  import opened Sequences
  import opened Sorting
  import opened Canonical
  import opened CoordinateRuns
  import opened OtherGroups
  import opened PortableEmission

  /** The plan is the one its events determine, and its turns and steps are numbered from zero. */
  ghost predicate ValidPlan(plan: Plan) {
    && InOrder(plan.events)
    && plan.turns == Turns(plan.events)
    && plan.groups == GroupsOf(plan.turns, plan.events)
    && Numbered(plan.turns)
    && forall turn :: turn in plan.turns ==> Numbered(Steps(turn))
  }

  /** The strict order of draft positions: source sequence, then rank. */
  function Before(): (Emission, Emission) -> bool {
    (a: Emission, b: Emission) => a.source < b.source || (a.source == b.source && a.rank < b.rank)
  }

  // ----- members of turns and steps

  lemma TurnMember(plan: Plan, turn: Group, e: CanonicalEvent)
    requires ValidPlan(plan) && turn in plan.turns && e in turn.members
    ensures e in plan.events && IsConversation(e) && TurnCoord(e) == turn.coord
    ensures TurnAt(plan, TurnCoord(e).ordinal) == turn
  {
    var k :| 0 <= k < |plan.turns| && plan.turns[k] == turn;
    RunMember(Filter(plan.events, IsConversation), TurnCoord, k, e);
    FilterMembership(plan.events, IsConversation);
  }

  lemma TurnShape(plan: Plan, turn: Group)
    requires ValidPlan(plan) && turn in plan.turns
    ensures turn.members != [] && InOrder(turn.members)
  {
    var k :| 0 <= k < |plan.turns| && plan.turns[k] == turn;
    FilterIncreasing(plan.events, IsConversation);
    RunInOrder(Filter(plan.events, IsConversation), TurnCoord, k);
  }

  lemma StepMember(plan: Plan, turn: Group, step: Group, e: CanonicalEvent)
    requires ValidPlan(plan) && turn in plan.turns && step in Steps(turn) && e in step.members
    ensures e in turn.members && IsModel(e) && StepCoord(e) == step.coord
    ensures StepAt(turn, StepCoord(e).ordinal) == step
  {
    var k :| 0 <= k < |Steps(turn)| && Steps(turn)[k] == step;
    RunMember(Filter(turn.members, IsModel), StepCoord, k, e);
    FilterMembership(turn.members, IsModel);
  }

  lemma StepShape(plan: Plan, turn: Group, step: Group)
    requires ValidPlan(plan) && turn in plan.turns && step in Steps(turn)
    ensures step.members != [] && InOrder(step.members)
  {
    TurnShape(plan, turn);
    var k :| 0 <= k < |Steps(turn)| && Steps(turn)[k] == step;
    FilterIncreasing(turn.members, IsModel);
    RunInOrder(Filter(turn.members, IsModel), StepCoord, k);
  }

  lemma AssistantEventsShape(plan: Plan, step: Group)
    requires InOrder(step.members)
    ensures InOrder(AssistantEvents(plan.events, step))
    ensures forall e :: e in AssistantEvents(plan.events, step) <==> e in step.members && FeedsAssistant(plan.events, e)
  {
    FilterIncreasing(step.members, Feeds(plan.events));
    FilterMembership(step.members, Feeds(plan.events));
  }

  // ----- each level emits the same drafts as its pushes

  function AssistantAt(plan: Plan, turn: Group, step: Group): CanonicalEvent -> seq<Emission> {
    (e: CanonicalEvent) => AssistantOf(plan, turn, step, e)
  }

  lemma AssistantOnce(plan: Plan, turn: Group, step: Group)
    requires InOrder(step.members)
    ensures FlatMap(step.members, AssistantAt(plan, turn, step)) == AssistantEmissions(plan, turn, step)
  {
    InOrderDistinct(step.members);
    AssistantEventsShape(plan, step);
    var feeding := AssistantEvents(plan.events, step);
    if feeding == [] {
      FlatMapEmpty(step.members, AssistantAt(plan, turn, step));
    } else {
      FlatMapOnce(step.members, feeding[0], AssistantEmissions(plan, turn, step), AssistantAt(plan, turn, step));
      assert feeding[0] in feeding;
    }
  }

  lemma StepRearranged(plan: Plan, turn: Group, step: Group)
    requires step.members != [] && InOrder(step.members)
    ensures multiset(StepOutputOf(plan, turn, step)) == multiset(StepDrafts(plan, turn, step))
  {
    StepBracket(plan, turn, step);
    AssistantOnce(plan, turn, step);
    FlatMapSplit(step.members, CoreEmissions(plan, turn, step), AssistantAt(plan, turn, step),
        ToolEmissions(plan, turn, step));
  }

  lemma StepBracket(plan: Plan, turn: Group, step: Group)
    requires step.members != [] && InOrder(step.members)
    ensures FlatMap(step.members, StepEmissions(plan, turn, step))
         == StepStartOf(plan, turn, step) + FlatMap(step.members, CoreEmissions(plan, turn, step))
             + StepEndOf(plan, turn, step)
  {
    InOrderDistinct(step.members);
    FlatMapBracket(step.members, StepStartOf(plan, turn, step), StepEndOf(plan, turn, step),
                   StepEmissions(plan, turn, step), CoreEmissions(plan, turn, step));
  }

  lemma TurnBracket(plan: Plan, turn: Group)
    requires turn.members != [] && InOrder(turn.members)
    ensures FlatMap(turn.members, TurnEmissions(plan, turn))
         == TurnStartOf(plan, turn) + FlatMap(turn.members, InnerEmissions(plan, turn)) + TurnEndOf(plan, turn)
  {
    InOrderDistinct(turn.members);
    FlatMapBracket(turn.members, TurnStartOf(plan, turn), TurnEndOf(plan, turn),
                   TurnEmissions(plan, turn), InnerEmissions(plan, turn));
  }

  /** The part of a turn emitted by its model events. */
  function ModelOf(plan: Plan, turn: Group, e: CanonicalEvent): seq<Emission> {
    if IsUser(e) then [] else StepOf(plan, turn, StepAt(turn, StepCoord(e).ordinal), e)
  }

  function ModelEmissions(plan: Plan, turn: Group): CanonicalEvent -> seq<Emission> {
    (e: CanonicalEvent) => ModelOf(plan, turn, e)
  }

  function StepOutputOf(plan: Plan, turn: Group, step: Group): seq<Emission> {
    FlatMap(step.members, StepEmissions(plan, turn, step))
  }

  function StepOutput(plan: Plan, turn: Group): Group -> seq<Emission> {
    (step: Group) => StepOutputOf(plan, turn, step)
  }

  /** The model events of a turn, taken in order, emit its steps one after the other. */
  lemma ModelByStep(plan: Plan, turn: Group)
    requires ValidPlan(plan) && turn in plan.turns
    ensures FlatMap(turn.members, ModelEmissions(plan, turn)) == FlatMap(Steps(turn), StepOutput(plan, turn))
  {
    forall e | e in turn.members && !IsModel(e)
      ensures ModelOf(plan, turn, e) == []
    {
      TurnMember(plan, turn, e);
      assert IsUser(e);
    }
    FlatMapFilter(turn.members, IsModel, ModelEmissions(plan, turn));
    RunsFlatten(Filter(turn.members, IsModel), StepCoord);
    forall step | step in Steps(turn)
      ensures FlatMap(MembersOf()(step), ModelEmissions(plan, turn)) == StepOutputOf(plan, turn, step)
    {
      forall e | e in step.members
        ensures ModelOf(plan, turn, e) == StepOf(plan, turn, step, e)
      {
        StepMember(plan, turn, step, e);
      }
      FlatMapCongruence(step.members, ModelEmissions(plan, turn), StepEmissions(plan, turn, step));
    }
    FlatMapFlatMap(Steps(turn), MembersOf(), ModelEmissions(plan, turn), StepOutput(plan, turn));
  }

  lemma TurnRearranged(plan: Plan, turn: Group)
    requires ValidPlan(plan) && turn in plan.turns
    ensures multiset(FlatMap(turn.members, TurnEmissions(plan, turn))) == multiset(TurnDrafts(plan, turn))
  {
    hide InnerOf, UserDraft, ModelOf, StepOutputOf, StepDrafts, TurnStartOf, TurnEndOf, TurnOf, ValidPlan, Steps;
    TurnShape(plan, turn);
    TurnBracket(plan, turn);
    forall e | e in turn.members
      ensures multiset(InnerOf(plan, turn, e)) == multiset(UserDraft(plan, e)) + multiset(ModelOf(plan, turn, e))
    {
      InnerSplits(plan, turn, e);
    }
    FlatMapSplit(turn.members, InnerEmissions(plan, turn), UserEmissions(plan), ModelEmissions(plan, turn));
    ModelByStep(plan, turn);
    forall step | step in Steps(turn)
      ensures multiset(StepOutputOf(plan, turn, step)) == multiset(StepDrafts(plan, turn, step))
    {
      StepShape(plan, turn, step);
      StepRearranged(plan, turn, step);
    }
    FlatMapRearranged(Steps(turn), StepOutput(plan, turn), StepPushes(plan, turn));
  }

  lemma InnerSplits(plan: Plan, turn: Group, e: CanonicalEvent)
    ensures multiset(InnerOf(plan, turn, e)) == multiset(UserDraft(plan, e)) + multiset(ModelOf(plan, turn, e))
  {
    hide StepOf;
  }

  // ----- the whole plan

  function ConversationOf(plan: Plan, e: CanonicalEvent): seq<Emission> {
    if IsConversation(e) then TurnOf(plan, TurnAt(plan, TurnCoord(e).ordinal), e) else []
  }

  function ConversationEmissions(plan: Plan): CanonicalEvent -> seq<Emission> {
    (e: CanonicalEvent) => ConversationOf(plan, e)
  }

  function TurnOutputOf(plan: Plan, turn: Group): seq<Emission> {
    FlatMap(turn.members, TurnEmissions(plan, turn))
  }

  function TurnOutput(plan: Plan): Group -> seq<Emission> {
    (turn: Group) => TurnOutputOf(plan, turn)
  }

  lemma ConversationByTurn(plan: Plan)
    requires ValidPlan(plan)
    ensures FlatMap(plan.events, ConversationEmissions(plan)) == FlatMap(plan.turns, TurnOutput(plan))
  {
    FlatMapFilter(plan.events, IsConversation, ConversationEmissions(plan));
    RunsFlatten(Filter(plan.events, IsConversation), TurnCoord);
    forall turn | turn in plan.turns
      ensures FlatMap(MembersOf()(turn), ConversationEmissions(plan)) == TurnOutputOf(plan, turn)
    {
      forall e | e in turn.members
        ensures ConversationOf(plan, e) == TurnOf(plan, turn, e)
      {
        TurnMember(plan, turn, e);
      }
      FlatMapCongruence(turn.members, ConversationEmissions(plan), TurnEmissions(plan, turn));
    }
    FlatMapFlatMap(plan.turns, MembersOf(), ConversationEmissions(plan), TurnOutput(plan));
  }

  function LedOf(plan: Plan, e: CanonicalEvent): seq<Emission> {
    if e.kind == Other then GroupDraft(plan, GroupLedBy(plan.groups, e)) else []
  }

  function LedEmissions(plan: Plan): CanonicalEvent -> seq<Emission> {
    (e: CanonicalEvent) => LedOf(plan, e)
  }

  lemma {:induction false} GroupLedByHead(groups: seq<seq<CanonicalEvent>>, events: seq<CanonicalEvent>, k: nat)
    requires Led(groups, events) && k < |groups|
    ensures GroupLedBy(groups, groups[k][0]) == groups[k]
  {
    if k < |groups| - 1 {
      GroupLedByHead(groups[..|groups| - 1], events, k);
    }
  }

  lemma {:induction false} GroupLedByMember(groups: seq<seq<CanonicalEvent>>, e: CanonicalEvent)
    ensures GroupLedBy(groups, e) == [] || (GroupLedBy(groups, e) in groups && GroupLedBy(groups, e)[0] == e)
  {
    if groups != [] {
      GroupLedByMember(groups[..|groups| - 1], e);
    }
  }

  lemma {:induction false} FlatMapOrdered(events: seq<CanonicalEvent>, f: CanonicalEvent -> seq<Emission>)
    requires InOrder(events)
    requires forall e :: e in events ==> Ordered(f(e), Before()) && forall x :: x in f(e) ==> x.source == e.sequence
    ensures Ordered(FlatMap(events, f), Before())
    ensures forall x :: x in FlatMap(events, f) ==> events != [] && x.source <= Last(events).sequence
  {
    if events != [] {
      var init, last := events[..|events| - 1], Last(events);
      FlatMapOrdered(init, f);
      var front, rear := FlatMap(init, f), f(last);
      forall x | x in front
        ensures x.source < last.sequence
      {
        LastIsLargest(events, Last(init));
      }
      forall i, j | 0 <= i < j < |front + rear|
        ensures Before()((front + rear)[i], (front + rear)[j])
      {
        if i < |front| <= j {
          assert (front + rear)[i] in front && (front + rear)[j] in rear;
        }
      }
    }
  }

  lemma {:induction false} GroupsOrdered(plan: Plan, groups: seq<seq<CanonicalEvent>>)
    requires Led(groups, plan.events)
    ensures Ordered(FlatMap(groups, GroupEmissions(plan)), Before())
    ensures forall x :: x in FlatMap(groups, GroupEmissions(plan))
              ==> groups != [] && x.source <= Last(groups)[0].sequence
  {
    if groups != [] {
      var init := groups[..|groups| - 1];
      GroupsOrdered(plan, init);
      assert init != [] ==> Last(init) == groups[|groups| - 2];
    }
  }

  lemma LedMembership(plan: Plan, x: Emission)
    requires Led(plan.groups, plan.events)
    ensures x in FlatMap(plan.events, LedEmissions(plan)) <==> x in FlatMap(plan.groups, GroupEmissions(plan))
  {
    FlatMapMembership(plan.events, LedEmissions(plan));
    FlatMapMembership(plan.groups, GroupEmissions(plan));
    if e :| e in plan.events && x in LedOf(plan, e) {
      GroupLedByMember(plan.groups, e);
      assert GroupLedBy(plan.groups, e) in plan.groups;
    }
    if group :| group in plan.groups && x in GroupDraft(plan, group) {
      var k :| 0 <= k < |plan.groups| && plan.groups[k] == group;
      GroupLedByHead(plan.groups, plan.events, k);
      assert group[0] in plan.events && x in LedOf(plan, group[0]);
    }
  }

  lemma OthersByGroup(plan: Plan)
    requires ValidPlan(plan)
    ensures FlatMap(plan.events, LedEmissions(plan)) == FlatMap(plan.groups, GroupEmissions(plan))
  {
    GroupsLed(plan.turns, plan.events);
    forall e | e in plan.events
      ensures Ordered(LedOf(plan, e), Before()) && forall x :: x in LedOf(plan, e) ==> x.source == e.sequence
    {
      GroupLedByMember(plan.groups, e);
      assert |LedOf(plan, e)| <= 1;
    }
    FlatMapOrdered(plan.events, LedEmissions(plan));
    GroupsOrdered(plan, plan.groups);
    forall x
      ensures x in FlatMap(plan.events, LedEmissions(plan)) <==> x in FlatMap(plan.groups, GroupEmissions(plan))
    {
      LedMembership(plan, x);
    }
    OrderedUnique(FlatMap(plan.events, LedEmissions(plan)), FlatMap(plan.groups, GroupEmissions(plan)), Before());
  }

  function NonConversationOf(plan: Plan, e: CanonicalEvent): seq<Emission> {
    LedOf(plan, e) + MetadataDraft(plan, e)
  }

  function NonConversation(plan: Plan): CanonicalEvent -> seq<Emission> {
    (e: CanonicalEvent) => NonConversationOf(plan, e)
  }

  lemma StreamParts(plan: Plan)
    ensures multiset(Stream(plan)) == multiset(FlatMap(plan.events, ConversationEmissions(plan)))
                                      + multiset(FlatMap(plan.events, LedEmissions(plan)))
                                      + multiset(FlatMap(plan.events, MetadataEmissions(plan)))
  {
    forall e | e in plan.events
      ensures multiset(BundleOf(plan, e)) == multiset(ConversationOf(plan, e)) + multiset(NonConversationOf(plan, e))
    {
      if IsConversation(e) {
        assert NonConversationOf(plan, e) == [];
      } else {
        assert ConversationOf(plan, e) == [];
        assert BundleOf(plan, e) == NonConversationOf(plan, e);
      }
    }
    FlatMapSplit(plan.events, Bundle(plan), ConversationEmissions(plan), NonConversation(plan));
    FlatMapSplit(plan.events, NonConversation(plan), LedEmissions(plan), MetadataEmissions(plan));
  }

  /** The pushes are a rearrangement of the stream. */
  lemma PushesRearranged(plan: Plan)
    requires ValidPlan(plan)
    ensures multiset(Pushes(plan)) == multiset(Stream(plan))
  {
    StreamParts(plan);
    OthersByGroup(plan);
    ConversationByTurn(plan);
    forall turn | turn in plan.turns
      ensures multiset(TurnOutputOf(plan, turn)) == multiset(TurnDrafts(plan, turn))
    {
      TurnRearranged(plan, turn);
    }
    FlatMapRearranged(plan.turns, TurnOutput(plan), TurnPushes(plan));
  }

  // ----- the stream is strictly ordered by position

  ghost predicate At(emissions: seq<Emission>, sequence: int, low: int, high: int) {
    && Ordered(emissions, Before())
    && forall x :: x in emissions ==> x.source == sequence && low <= x.rank <= high
  }

  lemma AtConcat(a: seq<Emission>, b: seq<Emission>, sequence: int, low: int, mid: int, mid': int, high: int)
    requires At(a, sequence, low, mid) && At(b, sequence, mid', high) && low <= mid < mid' <= high
    ensures At(a + b, sequence, low, high)
  {
    forall i, j | 0 <= i < j < |a + b|
      ensures Before()((a + b)[i], (a + b)[j])
    {
      if i < |a| <= j {
        assert (a + b)[i] in a && (a + b)[j] in b;
      }
    }
  }

  lemma StepEmissionsOrdered(plan: Plan, turn: Group, step: Group, e: CanonicalEvent)
    ensures At(StepOf(plan, turn, step, e), e.sequence, -300, 300)
  {
    var open := if step.members != [] && step.members[0] == e then StepStartOf(plan, turn, step) else [];
    var close := if step.members != [] && Last(step.members) == e then StepEndOf(plan, turn, step) else [];
    var core := CoreOf(plan, turn, step, e);
    AtConcat(AssistantOf(plan, turn, step, e), ToolDraft(plan, turn, step, e), e.sequence, -200, -200, 0, 0);
    AtConcat(open, core, e.sequence, -300, -300, -200, 0);
    AtConcat(open + core, close, e.sequence, -300, 0, 300, 300);
  }

  lemma TurnEmissionsOrdered(plan: Plan, turn: Group, e: CanonicalEvent)
    ensures At(TurnOf(plan, turn, e), e.sequence, -400, 400)
  {
    var open := if turn.members != [] && turn.members[0] == e then TurnStartOf(plan, turn) else [];
    var close := if turn.members != [] && Last(turn.members) == e then TurnEndOf(plan, turn) else [];
    var inner := InnerOf(plan, turn, e);
    StepEmissionsOrdered(plan, turn, StepAt(turn, StepCoord(e).ordinal), e);
    AtConcat(open, inner, e.sequence, -400, -400, -300, 300);
    AtConcat(open + inner, close, e.sequence, -400, 300, 400, 400);
  }

  lemma StreamOrdered(plan: Plan)
    requires InOrder(plan.events)
    ensures Ordered(Stream(plan), Before())
  {
    forall e | e in plan.events
      ensures Ordered(BundleOf(plan, e), Before()) && forall x :: x in BundleOf(plan, e) ==> x.source == e.sequence
    {
      TurnEmissionsOrdered(plan, TurnAt(plan, TurnCoord(e).ordinal), e);
      GroupLedByMember(plan.groups, e);
    }
    FlatMapOrdered(plan.events, Bundle(plan));
  }

  // ----- sorting the drafts

  datatype Draft = Draft(emission: Emission, insertionOrder: nat)

  /** The drafts with their insertion order. */
  function Numbering(emissions: seq<Emission>): (r: seq<Draft>)
    ensures |r| == |emissions|
    ensures forall i :: 0 <= i < |r| ==> r[i] == Draft(emissions[i], i)
  {
    seq(|emissions|, i requires 0 <= i < |emissions| => Draft(emissions[i], i))
  }

  function DraftLe(): (Draft, Draft) -> bool {
    (a: Draft, b: Draft) =>
      if a.emission.source != b.emission.source then a.emission.source < b.emission.source
      else if a.emission.rank != b.emission.rank then a.emission.rank < b.emission.rank
      else a.insertionOrder <= b.insertionOrder
  }

  function EmissionOf(d: Draft): Emission {
    d.emission
  }

  function Without<A>(a: seq<A>, k: nat): seq<A>
    requires k < |a|
  {
    a[..k] + a[k + 1..]
  }

  lemma {:induction false} MapRearranged<A, B>(a: seq<A>, b: seq<A>, f: A -> B)
    requires multiset(a) == multiset(b)
    ensures multiset(Map(a, f)) == multiset(Map(b, f))
    decreases |a|
  {
    SameMembers(a, b);
    assert |multiset(a)| == |multiset(b)|;
    if a != [] {
      assert a[0] in a;
      var k :| 0 <= k < |b| && b[k] == a[0];
      MapWithoutOne(a, 0, f);
      MapWithoutOne(b, k, f);
      MapRearranged(Without(a, 0), Without(b, k), f);
    }
  }

  lemma MapWithoutOne<A, B>(a: seq<A>, k: nat, f: A -> B)
    requires k < |a|
    ensures multiset(Without(a, k)) == multiset(a) - multiset{a[k]}
    ensures multiset(Map(a, f)) == multiset(Map(Without(a, k), f)) + multiset{f(a[k])}
  {
    MultisetWithoutOne(a, k);
    MultisetWithoutOne(Map(a, f), k);
    assert Map(Without(a, k), f) == Without(Map(a, f), k);
  }

  lemma MultisetWithoutOne<A>(a: seq<A>, k: nat)
    requires k < |a|
    ensures multiset(a) == multiset(Without(a, k)) + multiset{a[k]}
  {
    assert a == a[..k] + [a[k]] + a[k + 1..];
  }

  lemma NumberingSorted(emissions: seq<Emission>)
    ensures multiset(Map(Sort(Numbering(emissions), DraftLe()), EmissionOf)) == multiset(emissions)
    ensures var emitted := Map(Sort(Numbering(emissions), DraftLe()), EmissionOf);
            forall i, j :: 0 <= i < j < |emitted| ==> !Before()(emitted[j], emitted[i])
  {
    var drafts := Numbering(emissions);
    var sorted := Sort(drafts, DraftLe());
    SortOrdered(drafts, DraftLe());
    MapRearranged(sorted, drafts, EmissionOf);
    assert Map(drafts, EmissionOf) == emissions;
    forall i, j | 0 <= i < j < |sorted|
      ensures !Before()(sorted[j].emission, sorted[i].emission)
    {
      assert DraftLe()(sorted[i], sorted[j]);
    }
  }

  lemma PositionsDecide(emitted: seq<Emission>, stream: seq<Emission>)
    requires multiset(emitted) == multiset(stream)
    requires Ordered(stream, Before())
    requires forall i, j :: 0 <= i < j < |emitted| ==> !Before()(emitted[j], emitted[i])
    ensures emitted == stream
  {
    SortedPermutation(emitted, stream, Before());
  }

  /** Sorting the numbered pushes by position gives the stream, whatever order they were pushed in. */
  lemma SortedPushesAreStream(plan: Plan)
    requires ValidPlan(plan)
    ensures Map(Sort(Numbering(Pushes(plan)), DraftLe()), EmissionOf) == Stream(plan)
  {
    NumberingSorted(Pushes(plan));
    PushesRearranged(plan);
    StreamOrdered(plan);
    PositionsDecide(Map(Sort(Numbering(Pushes(plan)), DraftLe()), EmissionOf), Stream(plan));
  }
}
