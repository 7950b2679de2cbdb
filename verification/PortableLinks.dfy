/** Where the links of a portable projection lead: which calls are found, and which sequences provenance may name. */
module PortableLinks {
  import opened Outcomes
  import opened Text
  import opened Sequences
  import opened Canonical
  import opened CoordinateRuns
  import opened PortableEmission
  import opened Provenance
  import opened PortableOrder
  import opened PortableAcceptance
  import opened PortableRelocation
  import opened PortableTheorems
  import opened PortableCoverage
  import opened PortableRows
  import opened PortableReferences

  // ----- references

  /** The sequence of an event that is shown; reasoning and messages are shown unless their step says nothing. */
  ghost predicate IsReferable(events: seq<CanonicalEvent>, s: int) {
    exists d :: d in events && d.sequence == s
            && (d.kind == Reasoning || d.kind == AssistantMessage ==> SaidInStep(events, d) != [])
  }

  /** Stored provenance names events that are shown. */
  ghost predicate ReferencesHold(events: seq<CanonicalEvent>) {
    forall e :: e in events && IsStored(e) && e.raw.provenance.Some? ==>
      exists named :: StandsFor(e.raw.provenance.value, named) && forall s :: s in named ==> IsReferable(events, s)
  }

  /** Calls and results that belong together carry an identifier that is not blank. */
  ghost predicate IdentifiersGiven(events: seq<CanonicalEvent>) {
    forall e :: e in events && IsPairedResult(events, e) ==>
      e.content.tool.callId.Some? && NonBlank(e.content.tool.callId.value)
  }

  lemma {:induction false} StandsForOne(entries: seq<SeqEntry>, named: seq<int>)
    requires StandsFor(entries, named)
    ensures named == FlatMap(entries, ExpandAll())
  {
    if entries != [] {
      var init := entries[..|entries| - 1];
      match Last(entries)
      case Single(value) =>
        StandsForOne(init, named[..|named| - 1]);
        assert named == named[..|named| - 1] + [value];
      case Range(start, end) =>
        if start <= end {
          var before := |named| - (end - start + 1);
          StandsForOne(init, named[..before]);
          assert named == named[..before] + Span(start, end);
        } else {
          StandsForOne(init, named);
        }
      case BadEntry => StandsForOne(init, named);
    }
  }

  lemma IdentifiersExactly(events: seq<CanonicalEvent>)
    requires InOrder(events)
    ensures Answerable(events) <==> IdentifiersGiven(events)
  {
    hide Matched, IsPairedResult, NonBlank;
    forall e | e in events
      ensures MatchedResult(events, e) == IsPairedResult(events, e)
      ensures MatchedResult(events, e) ==> StrictCallId(e) == e.content.tool.callId
    {
      MatchedIsPaired(events, e);
    }
  }

  lemma MuteExactly(plan: Plan, e: CanonicalEvent)
    requires ValidPlan(plan) && e in plan.events && (e.kind == Reasoning || e.kind == AssistantMessage)
    ensures Mute(plan, e) <==> SaidInStep(plan.events, e) == []
  {
    hide ValidPlan, Steps, StepBlocks, Speaks;
    var turn, step := StepIs(plan, e);
    assert e in step.members;
    FeedingIs(plan, turn, step, e);
    assert StepBlocks(plan.events, step) == SaidInStep(plan.events, e) by {
      SaidByFeeding(plan, step, e);
    }
    if Mute(plan, e) {
      MuteStep(plan, e, turn, step);
    }
  }

  lemma SaidByFeeding(plan: Plan, step: Group, e: CanonicalEvent)
    requires AssistantEvents(plan.events, step) == Filter(plan.events, Speakers(plan.events, e))
    ensures StepBlocks(plan.events, step) == SaidInStep(plan.events, e)
  {
  }

  /** What an emission represents are events of the history. */
  lemma OriginIsEvent(plan: Plan, x: Emission, s: int)
    requires ValidPlan(plan) && x in Stream(plan) && s in x.origins
    ensures exists d :: d in plan.events && d.sequence == s
  {
    hide Stream, BundleOf, TurnOf, StepOf, InnerOf;
    var e := FromStream(plan, x);
    if IsModel(e) {
      var turn, step := Located(plan, e);
      BundleCore(plan, turn, step, e, x);
      ModelOrigin(plan, turn, step, e, x, s);
    } else if IsUser(e) {
      UserOrigin(plan, e, x, s);
    } else if e.kind == Other {
      OtherOrigin(plan, e, x, s);
    } else {
      MetadataOrigin(plan, e, x, s);
    }
  }

  lemma MetadataOrigin(plan: Plan, e: CanonicalEvent, x: Emission, s: int)
    requires e.kind.Metadata? && x in BundleOf(plan, e) && s in x.origins
    ensures s == e.sequence
  {
    hide PlainRow, TurnOf, GroupDraft;
  }

  lemma UserOrigin(plan: Plan, e: CanonicalEvent, x: Emission, s: int)
    requires IsUser(e) && x in BundleOf(plan, e) && s in x.origins
    ensures s == e.sequence
  {
    TurnParts(plan, TurnAt(plan, TurnCoord(e).ordinal), e, x);
  }

  lemma OtherOrigin(plan: Plan, e: CanonicalEvent, x: Emission, s: int)
    requires ValidPlan(plan) && e.kind == Other && x in BundleOf(plan, e) && s in x.origins
    ensures exists d :: d in plan.events && d.sequence == s
  {
    GroupLedByMember(plan.groups, e);
    var group := GroupLedBy(plan.groups, e);
    var i :| 0 <= i < |group| && group[i].sequence == s;
    GroupMember(plan, group, group[i]);
  }

  lemma ModelOrigin(plan: Plan, turn: Group, step: Group, e: CanonicalEvent, x: Emission, s: int)
    requires ValidPlan(plan) && turn in plan.turns && step in Steps(turn) && e in plan.events
    requires x in CoreOf(plan, turn, step, e) && s in x.origins
    ensures exists d :: d in plan.events && d.sequence == s
  {
    hide Steps, ValidPlan, ToolDraft, AssistantOf;
    if x in ToolDraft(plan, turn, step, e) {
      ToolItself(plan, turn, step, e, x, s);
    } else {
      var d := FeedingEvent(plan, turn, step, e, x, s);
      StepMember(plan, turn, step, d);
      TurnMember(plan, turn, d);
    }
  }

  lemma ToolItself(plan: Plan, turn: Group, step: Group, e: CanonicalEvent, x: Emission, s: int)
    requires x in ToolDraft(plan, turn, step, e) && s in x.origins
    ensures s == e.sequence
  {
    hide Matched, UnclosedReason, OrphanReason;
  }

  lemma FeedingEvent(plan: Plan, turn: Group, step: Group, e: CanonicalEvent, x: Emission, s: int)
      returns (d: CanonicalEvent)
    requires x in AssistantOf(plan, turn, step, e) && s in x.origins
    ensures d in step.members && d.sequence == s
  {
    hide FeedsAssistant, StepBlocks, AssistantSource, AssistantId;
    var feeding := AssistantEvents(plan.events, step);
    FilterMembership(step.members, Feeds(plan.events));
    var i :| 0 <= i < |feeding| && feeding[i].sequence == s;
    d := feeding[i];
    assert d in feeding;
  }

  lemma ReferableExactly(plan: Plan, s: int)
    requires ValidPlan(plan)
    ensures OriginIndex(Stream(plan), s).Some? <==> IsReferable(plan.events, s)
  {
    hide Stream, ValidPlan, SaidInStep;
    var stream := Stream(plan);
    if OriginIndex(stream, s).Some? {
      var x := stream[OriginIndex(stream, s).value];
      OriginIsEvent(plan, x, s);
      var d :| d in plan.events && d.sequence == s;
      if d.kind == Reasoning || d.kind == AssistantMessage {
        MuteExactly(plan, d);
        if Mute(plan, d) {
          MuteUnrepresented(plan, d, x);
        }
      }
    }
    if IsReferable(plan.events, s) {
      var d :| d in plan.events && d.sequence == s
          && (d.kind == Reasoning || d.kind == AssistantMessage ==> SaidInStep(plan.events, d) != []);
      ShownRepresented(plan, d);
      var x :| x in stream && d.sequence in x.origins;
    }
  }

  lemma ShownRepresented(plan: Plan, d: CanonicalEvent)
    requires ValidPlan(plan) && d in plan.events
    requires d.kind == Reasoning || d.kind == AssistantMessage ==> SaidInStep(plan.events, d) != []
    ensures Represented(plan, d)
  {
    hide ValidPlan, Represented, SaidInStep;
    if d.kind == Reasoning || d.kind == AssistantMessage {
      MuteExactly(plan, d);
      FedRepresented(plan, d);
    } else if d.kind == Other {
      OtherRepresented(plan, d);
    } else {
      PlainRepresented(plan, d);
    }
  }

  // ----- relocation

  /** Only stored records bring provenance, and only results that belong to a call wait for one. */
  ghost predicate LinksOf(plan: Plan, x: Emission, e: CanonicalEvent) {
    && (x.row.sourceSeqs.Some? ==>
          IsStored(e) && e.raw.provenance.Some?
          && x.row.sourceSeqs.value == FlatMap(e.raw.provenance.value, ExpandAll()))
    && (x.resultCallId.Some? ==> MatchedResult(plan.events, e) && x.resultCallId == StrictCallId(e))
  }

  predicate Unlinked(x: Emission) {
    x.row.sourceSeqs.None? && x.resultCallId.None?
  }

  lemma LinksAre(plan: Plan, x: Emission) returns (e: CanonicalEvent)
    requires ValidPlan(plan) && x in Stream(plan)
    ensures e in plan.events && LinksOf(plan, x, e)
  {
    hide Stream, BundleOf, TurnOf, StepOf, InnerOf, CoreOf, LinksOf, ValidPlan;
    e := FromStream(plan, x);
    if IsModel(e) {
      var turn, step := Located(plan, e);
      TurnLinks(plan, turn, e, x);
      StepLinks(plan, turn, step, e, x);
      CoreLinks(plan, turn, step, e, x);
    } else {
      OtherLinks(plan, e, x);
    }
  }

  lemma TurnLinks(plan: Plan, turn: Group, e: CanonicalEvent, x: Emission)
    requires x in TurnOf(plan, turn, e)
    ensures x in InnerOf(plan, turn, e) || Unlinked(x)
  {
    hide InnerOf;
  }

  lemma StepLinks(plan: Plan, turn: Group, step: Group, e: CanonicalEvent, x: Emission)
    ensures x in StepOf(plan, turn, step, e) ==> x in CoreOf(plan, turn, step, e) || Unlinked(x)
  {
    hide CoreOf;
  }

  lemma CoreLinks(plan: Plan, turn: Group, step: Group, e: CanonicalEvent, x: Emission)
    ensures x in CoreOf(plan, turn, step, e) || Unlinked(x) ==> LinksOf(plan, x, e)
  {
    hide Matched, UnclosedReason, OrphanReason, AssistantOf, IsStored;
    if x in AssistantOf(plan, turn, step, e) {
      AssistantUnlinked(plan, turn, step, e, x);
    }
  }

  lemma AssistantUnlinked(plan: Plan, turn: Group, step: Group, e: CanonicalEvent, x: Emission)
    requires x in AssistantOf(plan, turn, step, e)
    ensures Unlinked(x)
  {
    hide AssistantEvents, StepBlocks, AssistantId, AssistantSource;
  }

  lemma OtherLinks(plan: Plan, e: CanonicalEvent, x: Emission)
    requires !IsModel(e) && x in BundleOf(plan, e)
    ensures LinksOf(plan, x, e)
  {
    hide Matched, TurnOf, StepOf, MessageBlocks;
    if IsUser(e) {
      TurnLinks(plan, TurnAt(plan, TurnCoord(e).ordinal), e, x);
    } else if e.kind == Other {
      GroupLedByMember(plan.groups, e);
    }
  }

  /** A matched call that is not blank has its row. */
  lemma CallIsFound(plan: Plan, id: string)
    requires ValidPlan(plan) && Answerable(plan.events) && Matched(plan.events, id)
    requires exists r :: r in plan.events && MatchedResult(plan.events, r) && StrictCallId(r) == Some(id)
    ensures CallIndex(Stream(plan), id).Some?
  {
    hide Stream, ToolDraft, ValidPlan, CarriesCall, Matched;
    var c := CallFor(plan.events, id);
    MatchedCallIs(plan.events, id, c);
    var turn, step := ToolInStream(plan, c);
    CallRowIdentity(plan, turn, step, c);
  }

  /** Every draft can be relocated exactly if identifiers are given and stored provenance names what is shown. */
  lemma RelocatableExactly(plan: Plan)
    requires ValidPlan(plan)
    ensures AllRelocatable(Stream(plan)) <==> IdentifiersGiven(plan.events) && ReferencesHold(plan.events)
  {
    hide Stream, ValidPlan, Answerable, IdentifiersGiven, ReferencesHold, Relocatable;
    InOrderPlan(plan);
    IdentifiersExactly(plan.events);
    if AllRelocatable(Stream(plan)) {
      RelocatedAnswerable(plan);
      RelocatedReferences(plan);
    }
    if IdentifiersGiven(plan.events) && ReferencesHold(plan.events) {
      forall x | x in Stream(plan)
        ensures Relocatable(Stream(plan), x)
      {
        var e := LinksAre(plan, x);
        LinkedRelocatable(plan, x, e);
      }
    }
  }

  lemma InOrderPlan(plan: Plan)
    requires ValidPlan(plan)
    ensures InOrder(plan.events)
  {
  }

  lemma LinkedRelocatable(plan: Plan, x: Emission, e: CanonicalEvent)
    requires ValidPlan(plan) && Answerable(plan.events) && ReferencesHold(plan.events)
    requires e in plan.events && LinksOf(plan, x, e)
    ensures Relocatable(Stream(plan), x)
  {
    hide Stream, ValidPlan, Answerable, IsReferable, StandsFor, Matched;
    if x.row.sourceSeqs.Some? {
      var named :| StandsFor(e.raw.provenance.value, named) && forall s :: s in named ==> IsReferable(plan.events, s);
      StandsForOne(e.raw.provenance.value, named);
      forall s | s in x.row.sourceSeqs.value
        ensures OriginIndex(Stream(plan), s).Some?
      {
        ReferableExactly(plan, s);
      }
    }
    if x.resultCallId.Some? {
      CallIsFound(plan, x.resultCallId.value);
    }
  }

  lemma RelocatedReferences(plan: Plan)
    requires ValidPlan(plan) && AllRelocatable(Stream(plan))
    ensures ReferencesHold(plan.events)
  {
    hide Stream, ValidPlan, IsReferable, StandsFor;
    forall e | e in plan.events && IsStored(e) && e.raw.provenance.Some?
      ensures exists named ::
                StandsFor(e.raw.provenance.value, named) && forall s :: s in named ==> IsReferable(plan.events, s)
    {
      var x := MetadataDraft(plan, e)[0];
      StoredInStream(plan, e, x);
      var named := FlatMap(e.raw.provenance.value, ExpandAll());
      ExpandedStandsFor(e.raw.provenance.value);
      forall s | s in named
        ensures IsReferable(plan.events, s)
      {
        assert Relocatable(Stream(plan), x);
        ReferableExactly(plan, s);
      }
    }
  }

  lemma StoredInStream(plan: Plan, e: CanonicalEvent, x: Emission)
    requires e in plan.events && e.kind.Metadata? && MetadataDraft(plan, e) == [x]
    ensures x in Stream(plan)
  {
    hide MetadataDraft, Stream, TurnOf, GroupDraft;
    assert x in BundleOf(plan, e);
    InStream(plan, e, x);
  }
}
