/**
 * When the messages of a portable projection can be told apart: every message has a name, and no anchor leads to two of
 * them, whatever order they are pushed in.
 */
module PortableMessages {
  import opened Outcomes
  import opened Text
  import opened Sequences
  import opened Sorting
  import opened Canonical
  import opened CoordinateRuns
  import opened PortableEmission
  import opened PortableOrder
  import opened PortableAcceptance
  import opened PortableAnchors
  import opened PortableTheorems
  import opened PortableRows

  // ----- pushes

  ghost predicate IsNamed(x: Emission) {
    IsMessageRow(x.row) ==> MessageId(x.row).Some? && NonBlank(MessageId(x.row).value)
  }

  /** Two messages to which one anchor leads. */
  ghost predicate Clash(events: seq<CanonicalEvent>, x: Emission, y: Emission) {
    IsMessageRow(x.row) && IsMessageRow(y.row) && exists a :: a in AnchorsTo(events, x) && a in AnchorsTo(events, y)
  }

  ghost predicate Apart(events: seq<CanonicalEvent>, xs: seq<Emission>) {
    && (forall x :: x in xs ==> IsNamed(x))
    && forall i, j :: 0 <= i < j < |xs| ==> !Clash(events, xs[i], xs[j])
  }

  lemma {:induction false} AddedExactly(aliases: map<string, string>, anchors: seq<string>, target: string)
    ensures AddAnchors(aliases, anchors, target).Ok? <==>
              forall a :: a in anchors && a in aliases ==> aliases[a] == target
  {
    if anchors != [] {
      var init, last := anchors[..|anchors| - 1], Last(anchors);
      AddedExactly(aliases, init, target);
      assert anchors == init + [last];
      if AddAnchors(aliases, init, target).Ok? {
        AnchorsAdded(aliases, init, target);
      }
    }
  }

  lemma PushedOne(events: seq<CanonicalEvent>, sink: Sink, x: Emission)
    ensures Push(events, sink, x).Ok? <==>
              IsMessageRow(x.row) ==>
                && MessageId(x.row).Some? && NonBlank(MessageId(x.row).value)
                && MessageId(x.row).value !in sink.messageIds
                && forall a :: a in AnchorsTo(events, x) && a in sink.aliases
                     ==> sink.aliases[a] == MessageId(x.row).value
  {
    hide NonBlank, AddAnchors, AnchorsTo;
    if IsMessageRow(x.row) && MessageId(x.row).Some? {
      AddedExactly(sink.aliases, AnchorsTo(events, x), MessageId(x.row).value);
    }
  }

  lemma ApartMore(events: seq<CanonicalEvent>, init: seq<Emission>, x: Emission)
    ensures Apart(events, init + [x]) <==>
              Apart(events, init) && IsNamed(x) && forall y :: y in init ==> !Clash(events, y, x)
  {
    hide Clash, IsNamed;
    var all := init + [x];
    assert forall y :: y in all <==> y in init || y == x;
    if Apart(events, all) {
      forall y | y in init
        ensures !Clash(events, y, x)
      {
        var i :| 0 <= i < |init| && init[i] == y;
        assert !Clash(events, all[i], all[|init|]);
      }
      forall i, j | 0 <= i < j < |init|
        ensures !Clash(events, init[i], init[j])
      {
        assert !Clash(events, all[i], all[j]);
      }
    }
  }

  lemma ClashOrClear(events: seq<CanonicalEvent>, init: seq<Emission>, sink: Sink, x: Emission)
    requires PushAll(events, Ok(EMPTY_SINK), init) == Ok(sink) && IsMessageRow(x.row)
    requires MessageId(x.row).Some? && NonBlank(MessageId(x.row).value)
    ensures MessageId(x.row).value !in sink.messageIds
            && (forall a :: a in AnchorsTo(events, x) && a in sink.aliases
                 ==> sink.aliases[a] == MessageId(x.row).value)
            <==> forall y :: y in init ==> !Clash(events, y, x)
  {
    hide PushAll, NonBlank, IsMessageRow, MessageId, AnchorsTo;
    PushedMessages(events, init);
    PushedAnchors(events, init);
    var id := MessageId(x.row).value;
    NameLeads(events, x);
    if y :| y in init && Clash(events, y, x) {
      var a :| a in AnchorsTo(events, y) && a in AnchorsTo(events, x);
      assert sink.aliases[a] == IdOf(y) && IdOf(y) in sink.messageIds;
    }
    if id in sink.messageIds {
      var y :| y in init && IsMessageRow(y.row) && IdOf(y) == id;
      NameLeads(events, y);
      assert Clash(events, y, x);
    }
    if a :| a in AnchorsTo(events, x) && a in sink.aliases {
      var y :| y in init && IsMessageRow(y.row) && a in AnchorsTo(events, y);
      assert Clash(events, y, x);
    }
  }

  lemma NameLeads(events: seq<CanonicalEvent>, x: Emission)
    ensures IdOf(x) in AnchorsTo(events, x)
  {
    assert AnchorsTo(events, x)[0] == IdOf(x);
  }

  lemma {:induction false} PushedExactly(events: seq<CanonicalEvent>, xs: seq<Emission>)
    ensures PushAll(events, Ok(EMPTY_SINK), xs).Ok? <==> Apart(events, xs)
  {
    hide Push, Clash, AnchorsTo, IsMessageRow, NonBlank;
    if xs != [] {
      var init, x := xs[..|xs| - 1], Last(xs);
      PushedExactly(events, init);
      assert xs == init + [x];
      ApartMore(events, init, x);
      var before := PushAll(events, Ok(EMPTY_SINK), init);
      if before.Ok? {
        PushedOne(events, before.value, x);
        if !IsMessageRow(x.row) {
          NoClash(events, init, x);
        } else if IsNamed(x) {
          ClashOrClear(events, init, before.value, x);
        }
      }
    }
  }

  lemma NoClash(events: seq<CanonicalEvent>, init: seq<Emission>, x: Emission)
    requires !IsMessageRow(x.row)
    ensures forall y :: !Clash(events, y, x)
  {
  }

  // ----- the order does not matter

  ghost predicate ApartMembers(events: seq<CanonicalEvent>, xs: seq<Emission>) {
    && (forall x :: x in xs ==> IsNamed(x))
    && forall x, y :: x in xs && y in xs && x != y ==> !Clash(events, x, y)
  }

  lemma ClashBoth(events: seq<CanonicalEvent>, x: Emission, y: Emission)
    ensures Clash(events, x, y) == Clash(events, y, x)
  {
  }

  lemma DistinctApart(events: seq<CanonicalEvent>, xs: seq<Emission>)
    requires Distinct(xs)
    ensures Apart(events, xs) <==> ApartMembers(events, xs)
  {
    hide Clash, IsNamed;
    if Apart(events, xs) {
      forall x, y | x in xs && y in xs && x != y
        ensures !Clash(events, x, y)
      {
        var i :| 0 <= i < |xs| && xs[i] == x;
        var j :| 0 <= j < |xs| && xs[j] == y;
        ClashBoth(events, x, y);
        assert i < j ==> !Clash(events, xs[i], xs[j]);
        assert j < i ==> !Clash(events, xs[j], xs[i]);
      }
    }
  }

  lemma {:induction false} Twice<T>(s: seq<T>, i: nat, j: nat)
    requires i < j < |s| && s[i] == s[j]
    ensures multiset(s)[s[i]] >= 2
  {
    assert s == s[..j] + s[j..];
    assert s[..j][i] == s[i] && s[j..][0] == s[j];
    assert multiset(s) == multiset(s[..j]) + multiset(s[j..]);
    assert s[i] in multiset(s[..j]) && s[j] in multiset(s[j..]);
  }

  lemma {:induction false} OnceEach<T>(s: seq<T>, x: T)
    requires Distinct(s)
    ensures multiset(s)[x] <= 1
  {
    if s != [] {
      var init, last := s[..|s| - 1], Last(s);
      OnceEach(init, x);
      assert s == init + [last];
      assert last !in init;
    }
  }

  lemma StillDistinct<T>(a: seq<T>, b: seq<T>)
    requires multiset(a) == multiset(b) && Distinct(b)
    ensures Distinct(a)
    ensures forall x :: x in a <==> x in b
  {
    forall i, j | 0 <= i < j < |a|
      ensures a[i] != a[j]
    {
      if a[i] == a[j] {
        Twice(a, i, j);
        OnceEach(b, a[i]);
      }
    }
    forall x
      ensures x in a <==> x in b
    {
      assert x in multiset(a) <==> x in multiset(b);
    }
  }

  lemma PushesApart(plan: Plan)
    requires ValidPlan(plan)
    ensures PushAll(plan.events, Ok(EMPTY_SINK), Pushes(plan)).Ok? <==> ApartMembers(plan.events, Stream(plan))
  {
    hide Clash, IsNamed, Pushes, Stream, PushAll;
    PushedExactly(plan.events, Pushes(plan));
    PushesRearranged(plan);
    StreamOrdered(plan);
    StrictDistinct(Stream(plan));
    StillDistinct(Pushes(plan), Stream(plan));
    DistinctApart(plan.events, Pushes(plan));
  }

  lemma StrictDistinct(stream: seq<Emission>)
    requires Ordered(stream, Before())
    ensures Distinct(stream)
  {
    forall i, j | 0 <= i < j < |stream|
      ensures stream[i] != stream[j]
    {
      assert Before()(stream[i], stream[j]);
    }
  }

  // ----- messages, by the events that call for them

  ghost predicate HasMessage(events: seq<CanonicalEvent>, k: RowType, e: CanonicalEvent) {
    && (k == UserMessageRow || k == AssistantMessageRow || k == ToolResultRow)
    && e in events && CallsFor(events, k, e)
  }

  /** The event is told in the message. */
  ghost predicate Contributes(events: seq<CanonicalEvent>, k: RowType, e: CanonicalEvent, d: CanonicalEvent) {
    d in events && if k == AssistantMessageRow then Speakers(events, e)(d) else d == e
  }

  function OwnName(e: CanonicalEvent): string {
    if e.content.message.id.Some? && NonBlank(e.content.message.id.value) then e.content.message.id.value else e.id
  }

  /** A message is named after its only message event, else after its step, and a result after its event. */
  ghost function NameOf(events: seq<CanonicalEvent>, k: RowType, e: CanonicalEvent): string {
    if k == ToolResultRow then e.id
    else if k == AssistantMessageRow
        && !(e.kind == AssistantMessage && forall d :: Contributes(events, k, e, d) ==> d == e)
    then "mcsf:" + TurnCoord(e).id + ":" + StepCoord(e).id + ":assistant"
    else OwnName(e)
  }

  /** A message is found under its name, and under the identities of the events told in it. */
  ghost predicate LeadsTo(events: seq<CanonicalEvent>, k: RowType, e: CanonicalEvent, anchor: string) {
    || anchor == NameOf(events, k, e)
    || exists d :: Contributes(events, k, e, d)
         && (anchor == d.id || (d.content.message.id == Some(anchor) && NonBlank(anchor)))
  }

  ghost predicate AreFound(events: seq<CanonicalEvent>, k: RowType, e: CanonicalEvent, k': RowType, e': CanonicalEvent,
      anchor: string) {
    && HasMessage(events, k, e) && HasMessage(events, k', e')
    && LeadsTo(events, k, e, anchor) && LeadsTo(events, k', e', anchor)
  }

  /** Every message has a name, and no anchor leads to two messages. */
  ghost predicate MessagesApart(events: seq<CanonicalEvent>) {
    && (forall k, e :: HasMessage(events, k, e) ==> NonBlank(NameOf(events, k, e)))
    && forall k, e, k', e', anchor :: AreFound(events, k, e, k', e', anchor) ==> k == k' && e == e'
  }

  lemma Found(events: seq<CanonicalEvent>, d: CanonicalEvent)
    requires InOrder(events) && d in events
    ensures EventAt(events, d.sequence) == Some(d)
  {
    var found := EventAt(events, d.sequence);
    if found.Some? {
      SameSequence(events, found.value, d);
    }
  }

  /** The anchors of an emission that represents these events. */
  lemma AnchorsAre(events: seq<CanonicalEvent>, x: Emission, told: seq<CanonicalEvent>, a: string)
    requires InOrder(events) && x.origins == Map(told, SequenceOf) && forall d :: d in told ==> d in events
    ensures a in AnchorsTo(events, x) <==>
              || a == IdOf(x)
              || exists d :: d in told && (a == d.id || (d.content.message.id == Some(a) && NonBlank(a)))
  {
    hide NonBlank;
    FlatMapMembership(x.origins, OriginAnchors(events));
    if s :| s in x.origins && a in OriginAnchors(events)(s) {
      var i :| 0 <= i < |told| && told[i].sequence == s;
      Found(events, told[i]);
      assert told[i] in told;
    }
    if d :| d in told && (a == d.id || (d.content.message.id == Some(a) && NonBlank(a))) {
      Found(events, d);
      var i :| 0 <= i < |told| && told[i] == d;
      assert x.origins[i] == d.sequence && d.sequence in x.origins;
      AnchorOf(d, a);
      assert a in OriginAnchors(events)(d.sequence);
    }
    assert a in AnchorsTo(events, x) <==> a == IdOf(x) || a in FlatMap(x.origins, OriginAnchors(events));
  }

  lemma AnchorOf(d: CanonicalEvent, a: string)
    requires a == d.id || (d.content.message.id == Some(a) && NonBlank(a))
    ensures a in AnchorsOf(d)
  {
    assert AnchorsOf(d)[0] == d.id;
    if d.content.message.id == Some(a) && NonBlank(a) {
      assert AnchorsOf(d)[1] == a;
    }
  }

  /** The emission of a message, and the events told in it. */
  ghost predicate Tells(plan: Plan, k: RowType, e: CanonicalEvent, x: Emission, told: seq<CanonicalEvent>) {
    && Part(plan, e, k) == [x] && x.source == e.sequence && x.row.kind == k && IsMessageRow(x.row)
    && MessageId(x.row) == Some(NameOf(plan.events, k, e)) && x.origins == Map(told, SequenceOf)
    && forall d :: d in told <==> Contributes(plan.events, k, e, d)
  }

  lemma UserTells(plan: Plan, e: CanonicalEvent) returns (x: Emission)
    requires HasMessage(plan.events, UserMessageRow, e)
    ensures Tells(plan, UserMessageRow, e, x, [e])
  {
    hide NonBlank, MessageBlocks;
    x := Part(plan, e, UserMessageRow)[0];
    assert [e][0] == e;
    assert Map([e], SequenceOf) == [e.sequence];
  }

  lemma ResultTells(plan: Plan, e: CanonicalEvent) returns (x: Emission)
    requires ValidPlan(plan) && HasMessage(plan.events, ToolResultRow, e)
    ensures Tells(plan, ToolResultRow, e, x, [e])
  {
    hide NonBlank, Matched, Paired, Numbered, Steps, Turns;
    MatchedIsPaired(plan.events, e);
    x := Part(plan, e, ToolResultRow)[0];
    assert [e][0] == e;
    assert Map([e], SequenceOf) == [e.sequence];
  }

  lemma AssistantTells(plan: Plan, e: CanonicalEvent) returns (x: Emission, told: seq<CanonicalEvent>)
    requires ValidPlan(plan) && HasMessage(plan.events, AssistantMessageRow, e)
    ensures Tells(plan, AssistantMessageRow, e, x, told)
  {
    hide NonBlank, Speaks, AssistantEvents, Filter, Speakers, ValidPlan, SaidInStep, StepBlocks, AssistantId, NameOf,
        AssistantSource, Steps;
    var turn, step := StepIs(plan, e);
    FeedingIs(plan, turn, step, e);
    LeadingEvent(plan, AssistantEvents(plan.events, step), e);
    told := AssistantEvents(plan.events, step);
    FilterMembership(plan.events, Speakers(plan.events, e));
    Said(plan, step, e);
    SpeakersInOrder(plan, e);
    AssistantNamed(plan.events, turn, step, e, told);
    x := AssistantEmissions(plan, turn, step)[0];
    assert AssistantEmissions(plan, turn, step) == [x];
    assert Part(plan, e, AssistantMessageRow) == [x];
  }

  lemma Said(plan: Plan, step: Group, e: CanonicalEvent)
    requires AssistantEvents(plan.events, step) == Filter(plan.events, Speakers(plan.events, e))
    ensures StepBlocks(plan.events, step) == SaidInStep(plan.events, e)
  {
  }

  lemma SpeakersInOrder(plan: Plan, e: CanonicalEvent)
    requires ValidPlan(plan)
    ensures InOrder(Filter(plan.events, Speakers(plan.events, e)))
  {
    FilterIncreasing(plan.events, Speakers(plan.events, e));
  }

  lemma AssistantNamed(events: seq<CanonicalEvent>, turn: Group, step: Group, e: CanonicalEvent,
      told: seq<CanonicalEvent>)
    requires turn.coord == TurnCoord(e) && step.coord == StepCoord(e)
    requires told != [] && told[0] == e && InOrder(told)
    requires forall d :: d in told <==> Contributes(events, AssistantMessageRow, e, d)
    ensures AssistantId(turn, step, told) == NameOf(events, AssistantMessageRow, e)
  {
    hide NonBlank, Contributes;
    if |told| > 1 {
      assert told[1] in told && told[0].sequence < told[1].sequence;
    } else {
      assert told == [e];
    }
  }

  lemma MessageTells(plan: Plan, k: RowType, e: CanonicalEvent) returns (x: Emission, told: seq<CanonicalEvent>)
    requires ValidPlan(plan) && HasMessage(plan.events, k, e)
    ensures Tells(plan, k, e, x, told)
  {
    hide ValidPlan, CallsFor, Tells;
    if k == UserMessageRow {
      x := UserTells(plan, e);
      told := [e];
    } else if k == ToolResultRow {
      x := ResultTells(plan, e);
      told := [e];
    } else {
      x, told := AssistantTells(plan, e);
    }
  }

  lemma ToldInStream(plan: Plan, k: RowType, e: CanonicalEvent, x: Emission, told: seq<CanonicalEvent>)
    requires ValidPlan(plan) && Guarded(plan.events) && e in plan.events && Tells(plan, k, e, x, told)
    ensures x in Stream(plan)
    ensures forall a :: a in AnchorsTo(plan.events, x) <==> LeadsTo(plan.events, k, e, a)
  {
    hide Part, BundleOf, Stream, AnchorsTo, Contributes, IsMessageRow, NameOf, Filter;
    KeptOfBundle(plan, e, k);
    FilterMembership(BundleOf(plan, e), InFamily(k));
    assert x in Part(plan, e, k);
    InStream(plan, e, x);
    InOrderEvents(plan);
    forall d | d in told
      ensures d in plan.events
    {
      Contributor(plan.events, k, e, d);
    }
    forall a
      ensures a in AnchorsTo(plan.events, x) <==> LeadsTo(plan.events, k, e, a)
    {
      AnchorsAre(plan.events, x, told, a);
    }
  }

  lemma InOrderEvents(plan: Plan)
    requires ValidPlan(plan)
    ensures InOrder(plan.events)
  {
  }

  lemma Contributor(events: seq<CanonicalEvent>, k: RowType, e: CanonicalEvent, d: CanonicalEvent)
    requires Contributes(events, k, e, d)
    ensures d in events
  {
  }

  lemma FamilyIsKind(k: RowType, x: Emission)
    requires k == x.row.kind
    ensures InFamily(k)(x)
  {
  }

  /** Every message of the stream is that of an event which calls for it. */
  lemma MessageCalled(plan: Plan, x: Emission) returns (k: RowType, e: CanonicalEvent, told: seq<CanonicalEvent>)
    requires ValidPlan(plan) && Guarded(plan.events) && x in Stream(plan) && IsMessageRow(x.row)
    ensures HasMessage(plan.events, k, e) && Tells(plan, k, e, x, told)
  {
    hide Part, BundleOf, Stream, Filter, CallsFor, Tells, ValidPlan, Guarded;
    k := x.row.kind;
    e := FromStream(plan, x);
    KeptOfBundle(plan, e, k);
    FilterMembership(BundleOf(plan, e), InFamily(k));
    FamilyIsKind(k, x);
    assert x in Part(plan, e, k);
    CalledWhenPart(plan, k, e);
    var own;
    own, told := MessageTells(plan, k, e);
    assert own == x by {
      TellsPart(plan, k, e, own, told);
    }
  }

  lemma TellsPart(plan: Plan, k: RowType, e: CanonicalEvent, x: Emission, told: seq<CanonicalEvent>)
    requires Tells(plan, k, e, x, told)
    ensures Part(plan, e, k) == [x]
  {
    hide Part, Contributes, NameOf;
  }

  lemma CalledWhenPart(plan: Plan, k: RowType, e: CanonicalEvent)
    requires ValidPlan(plan) && e in plan.events && Part(plan, e, k) != []
    requires k == UserMessageRow || k == AssistantMessageRow || k == ToolResultRow
    ensures CallsFor(plan.events, k, e)
  {
    if k == UserMessageRow {
      RightUser(plan, e);
    } else if k == AssistantMessageRow {
      RightAssistant(plan, e);
    } else {
      ResultCalled(plan, e);
    }
  }

  lemma ResultCalled(plan: Plan, e: CanonicalEvent)
    requires ValidPlan(plan) && e in plan.events && Part(plan, e, ToolResultRow) != []
    ensures IsPairedResult(plan.events, e)
  {
    hide Matched, Paired, Numbered, Steps, Turns, IsPairedResult, ToolDraft;
    MatchedIsPaired(plan.events, e);
  }

  /** The pushes succeed exactly if the messages can be told apart. */
  lemma MessagesExactly(plan: Plan)
    requires ValidPlan(plan) && Guarded(plan.events)
    ensures PushAll(plan.events, Ok(EMPTY_SINK), Pushes(plan)).Ok? <==> MessagesApart(plan.events)
  {
    hide ValidPlan, Guarded, Stream, Pushes, PushAll, Tells, LeadsTo, HasMessage, NameOf, Clash, NonBlank;
    PushesApart(plan);
    if ApartMembers(plan.events, Stream(plan)) {
      AllApart(plan);
    }
    if MessagesApart(plan.events) {
      forall x | x in Stream(plan)
        ensures IsNamed(x)
      {
        if IsMessageRow(x.row) {
          var k, e, told := MessageCalled(plan, x);
          NamedAs(plan, k, e, x, told);
        }
      }
      forall x, y | x in Stream(plan) && y in Stream(plan) && x != y
        ensures !Clash(plan.events, x, y)
      {
        NoneClash(plan, x, y);
      }
    }
  }

  lemma NamedAs(plan: Plan, k: RowType, e: CanonicalEvent, x: Emission, told: seq<CanonicalEvent>)
    requires Tells(plan, k, e, x, told)
    ensures IsMessageRow(x.row) && MessageId(x.row) == Some(NameOf(plan.events, k, e))
    ensures x.source == e.sequence && x.row.kind == k
  {
    hide Part, Contributes, NameOf, IsMessageRow;
  }

  lemma AllApart(plan: Plan)
    requires ValidPlan(plan) && Guarded(plan.events) && ApartMembers(plan.events, Stream(plan))
    ensures MessagesApart(plan.events)
  {
    hide ValidPlan, Guarded, Stream, Tells, LeadsTo, NameOf, AnchorsTo, NonBlank, CallsFor;
    InOrderEvents(plan);
    forall k, e | HasMessage(plan.events, k, e)
      ensures NonBlank(NameOf(plan.events, k, e))
    {
      var x, told := MessageTells(plan, k, e);
      ToldInStream(plan, k, e, x, told);
      NamedAs(plan, k, e, x, told);
      assert IsNamed(x);
    }
    forall k, e, k', e', anchor | AreFound(plan.events, k, e, k', e', anchor)
      ensures k == k' && e == e'
    {
      var x, told := MessageTells(plan, k, e);
      var y, told' := MessageTells(plan, k', e');
      ToldInStream(plan, k, e, x, told);
      ToldInStream(plan, k', e', y, told');
      NamedAs(plan, k, e, x, told);
      NamedAs(plan, k', e', y, told');
      assert anchor in AnchorsTo(plan.events, x) && anchor in AnchorsTo(plan.events, y);
      assert Clash(plan.events, x, y);
      assert x == y;
      SameSequence(plan.events, e, e');
    }
  }

  lemma NoneClash(plan: Plan, x: Emission, y: Emission)
    requires ValidPlan(plan) && Guarded(plan.events) && MessagesApart(plan.events)
    requires x in Stream(plan) && y in Stream(plan) && x != y
    ensures !Clash(plan.events, x, y)
  {
    hide ValidPlan, Guarded, Stream, Tells, LeadsTo, NameOf, AnchorsTo, HasMessage, NonBlank, Part, IsMessageRow;
    if IsMessageRow(x.row) && IsMessageRow(y.row) {
      var k, e, told := MessageCalled(plan, x);
      var k', e', told' := MessageCalled(plan, y);
      TellsPart(plan, k, e, x, told);
      TellsPart(plan, k', e', y, told');
      InEvents(plan.events, k, e);
      InEvents(plan.events, k', e');
      ToldInStream(plan, k, e, x, told);
      ToldInStream(plan, k', e', y, told');
      assert k != k' || e != e';
      forall a
        ensures !(a in AnchorsTo(plan.events, x) && a in AnchorsTo(plan.events, y))
      {
        assert !AreFound(plan.events, k, e, k', e', a);
      }
    }
  }

  lemma InEvents(events: seq<CanonicalEvent>, k: RowType, e: CanonicalEvent)
    requires HasMessage(events, k, e)
    ensures e in events
  {
    hide CallsFor;
  }
}
