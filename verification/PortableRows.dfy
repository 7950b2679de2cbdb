/**
 * What each row of the projection shows, in terms of the canonical events alone: the rows of each type, in order, are
 * those of the events that call for one, and their fields are the fields of those events.
 */
module PortableRows {
  import opened Outcomes
  import opened Text
  import opened Sequences
  import opened Canonical
  import opened CoordinateRuns
  import opened OtherGroups
  import opened PortableEmission
  import opened PortableOrder
  import opened PortableAcceptance
  import opened PortableRelocation
  import opened PortableMaterialize
  import opened PortableTheorems

  // ----- rows against events

  /** The rows are those of the events, one each, in order. */
  ghost predicate Mirrors<A, B>(rows: seq<A>, sources: seq<B>, shows: (A, B) -> bool) {
    |rows| == |sources| && forall k :: 0 <= k < |rows| ==> shows(rows[k], sources[k])
  }

  lemma {:induction false} MirrorFlatMap(events: seq<CanonicalEvent>, f: CanonicalEvent -> seq<Emission>,
      p: Emission -> bool, q: CanonicalEvent -> bool, shows: (Emission, CanonicalEvent) -> bool)
    requires forall e :: e in events ==>
               var kept := Filter(f(e), p); if q(e) then |kept| == 1 && shows(kept[0], e) else kept == []
    ensures Mirrors(Filter(FlatMap(events, f), p), Filter(events, q), shows)
  {
    if events != [] {
      var init, e := events[..|events| - 1], Last(events);
      assert events == init + [e];
      MirrorFlatMap(init, f, p, q, shows);
      FilterConcat(FlatMap(init, f), f(e), p);
    }
  }

  /** Types of rows; all extensions count as one. */
  predicate SameFamily(k: RowType, kind: RowType) {
    if k.Extension? then kind.Extension? else kind == k
  }

  function InFamily(k: RowType): Emission -> bool {
    (x: Emission) => SameFamily(k, x.row.kind)
  }

  function RowInFamily(k: RowType): Row -> bool {
    (row: Row) => SameFamily(k, row.kind)
  }

  /** The type of row that a tool event calls for. */
  function ToolFamily(plan: Plan, e: CanonicalEvent): RowType {
    if MatchedCall(plan.events, e) then ToolCallRow
    else if MatchedResult(plan.events, e) then ToolResultRow
    else Extension("")
  }

  function Opening(group: Group, e: CanonicalEvent, part: seq<Emission>): seq<Emission> {
    if group.members != [] && group.members[0] == e then part else []
  }

  function Closing(group: Group, e: CanonicalEvent, part: seq<Emission>): seq<Emission> {
    if group.members != [] && Last(group.members) == e then part else []
  }

  /** What an event has the stream emit in one family. */
  function Part(plan: Plan, e: CanonicalEvent, k: RowType): seq<Emission> {
    if IsConversation(e) then
      var turn := TurnAt(plan, TurnCoord(e).ordinal);
      var step := StepAt(turn, StepCoord(e).ordinal);
      match k
      case TurnStart => Opening(turn, e, TurnStartOf(plan, turn))
      case TurnEnd => Closing(turn, e, TurnEndOf(plan, turn))
      case StepStart => if IsModel(e) then Opening(step, e, StepStartOf(plan, turn, step)) else []
      case StepEnd => if IsModel(e) then Closing(step, e, StepEndOf(plan, turn, step)) else []
      case UserMessageRow => UserDraft(plan, e)
      case AssistantMessageRow => if IsModel(e) then AssistantOf(plan, turn, step, e) else []
      case _ => if SameFamily(k, ToolFamily(plan, e)) then ToolDraft(plan, turn, step, e) else []
    else if k.Extension? then BundleOf(plan, e) else []
  }

  lemma FilterAtMostOne(part: seq<Emission>, p: Emission -> bool)
    requires |part| <= 1
    ensures Filter(part, p) == if part != [] && p(part[0]) then part else []
  {
    if part != [] {
      assert part[..0] == [] && part == [part[0]];
    }
  }

  lemma FilterThree(a: seq<Emission>, b: seq<Emission>, c: seq<Emission>, p: Emission -> bool)
    ensures Filter(a + b + c, p) == Filter(a, p) + Filter(b, p) + Filter(c, p)
  {
    FilterConcat(a + b, c, p);
    FilterConcat(a, b, p);
  }

  /** At most one emission, of the given type. */
  predicate Only(part: seq<Emission>, kind: RowType) {
    |part| <= 1 && forall x :: x in part ==> SameFamily(kind, x.row.kind)
  }

  lemma KeptAlone(part: seq<Emission>, kind: RowType, k: RowType)
    requires Only(part, kind)
    ensures Filter(part, InFamily(k)) == if SameFamily(k, kind) then part else []
  {
    hide Filter;
    FilterAtMostOne(part, InFamily(k));
    if part != [] {
      assert part[0] in part;
    }
  }

  lemma BoundariesAreOnly(plan: Plan, turn: Group, step: Group)
    ensures Only(TurnStartOf(plan, turn), TurnStart) && Only(TurnEndOf(plan, turn), TurnEnd)
    ensures Only(StepStartOf(plan, turn, step), StepStart) && Only(StepEndOf(plan, turn, step), StepEnd)
  {
  }

  lemma AssistantIsOnly(plan: Plan, turn: Group, step: Group, e: CanonicalEvent)
    ensures Only(AssistantOf(plan, turn, step, e), AssistantMessageRow)
  {
    hide StepBlocks, AssistantSource, AssistantId, AssistantEvents;
  }

  lemma ToolIsOnly(plan: Plan, turn: Group, step: Group, e: CanonicalEvent)
    ensures Only(ToolDraft(plan, turn, step, e), ToolFamily(plan, e))
  {
    hide Matched, UnclosedReason, OrphanReason;
  }

  lemma KeptOfCore(plan: Plan, turn: Group, step: Group, e: CanonicalEvent, k: RowType)
    ensures Filter(CoreOf(plan, turn, step, e), InFamily(k))
            == if k == AssistantMessageRow then AssistantOf(plan, turn, step, e)
               else if SameFamily(k, ToolFamily(plan, e)) then ToolDraft(plan, turn, step, e) else []
  {
    hide AssistantOf, ToolDraft, Matched, Filter, InFamily, Only;
    AssistantIsOnly(plan, turn, step, e);
    ToolIsOnly(plan, turn, step, e);
    FilterConcat(AssistantOf(plan, turn, step, e), ToolDraft(plan, turn, step, e), InFamily(k));
    KeptAlone(AssistantOf(plan, turn, step, e), AssistantMessageRow, k);
    KeptAlone(ToolDraft(plan, turn, step, e), ToolFamily(plan, e), k);
  }

  lemma KeptOfStep(plan: Plan, turn: Group, step: Group, e: CanonicalEvent, k: RowType)
    ensures Filter(StepOf(plan, turn, step, e), InFamily(k))
            == (if k == StepStart then Opening(step, e, StepStartOf(plan, turn, step)) else [])
               + Filter(CoreOf(plan, turn, step, e), InFamily(k))
               + if k == StepEnd then Closing(step, e, StepEndOf(plan, turn, step)) else []
  {
    hide CoreOf, StepStartOf, StepEndOf, Filter, InFamily;
    BoundariesAreOnly(plan, turn, step);
    var open := Opening(step, e, StepStartOf(plan, turn, step));
    var close := Closing(step, e, StepEndOf(plan, turn, step));
    FilterThree(open, CoreOf(plan, turn, step, e), close, InFamily(k));
    KeptAlone(open, StepStart, k);
    KeptAlone(close, StepEnd, k);
  }

  lemma KeptOfTurn(plan: Plan, turn: Group, e: CanonicalEvent, k: RowType)
    ensures Filter(TurnOf(plan, turn, e), InFamily(k))
            == (if k == TurnStart then Opening(turn, e, TurnStartOf(plan, turn)) else [])
               + Filter(InnerOf(plan, turn, e), InFamily(k))
               + if k == TurnEnd then Closing(turn, e, TurnEndOf(plan, turn)) else []
  {
    hide InnerOf, TurnStartOf, TurnEndOf, Filter, InFamily;
    BoundariesAreOnly(plan, turn, turn);
    var open := Opening(turn, e, TurnStartOf(plan, turn));
    var close := Closing(turn, e, TurnEndOf(plan, turn));
    FilterThree(open, InnerOf(plan, turn, e), close, InFamily(k));
    KeptAlone(open, TurnStart, k);
    KeptAlone(close, TurnEnd, k);
  }

  lemma KeptOfBundle(plan: Plan, e: CanonicalEvent, k: RowType)
    requires ValidPlan(plan) && Guarded(plan.events) && e in plan.events
    ensures Filter(BundleOf(plan, e), InFamily(k)) == Part(plan, e, k)
  {
    hide TurnOf, InnerOf, StepOf, CoreOf, AssistantOf, ToolDraft, TurnStartOf, TurnEndOf, StepStartOf, StepEndOf,
        MatchedCall, MatchedResult, ValidPlan;
    if IsConversation(e) {
      var turn := TurnAt(plan, TurnCoord(e).ordinal);
      KeptOfTurn(plan, turn, e, k);
      KeptInside(plan, turn, e, k);
    } else {
      OutsideIsExtension(plan, e);
      FilterAtMostOne(BundleOf(plan, e), InFamily(k));
    }
  }

  lemma UserIsOnly(plan: Plan, e: CanonicalEvent)
    ensures Only(UserDraft(plan, e), UserMessageRow)
    ensures forall turn, step :: IsUser(e) ==> ToolDraft(plan, turn, step, e) == []
  {
  }

  lemma KeptInside(plan: Plan, turn: Group, e: CanonicalEvent, k: RowType)
    requires IsConversation(e) && turn == TurnAt(plan, TurnCoord(e).ordinal)
    ensures Filter(InnerOf(plan, turn, e), InFamily(k))
            == if k == TurnStart || k == TurnEnd then [] else Part(plan, e, k)
  {
    hide StepOf, CoreOf, AssistantOf, StepStartOf, StepEndOf, Matched, TurnStartOf, TurnEndOf, ToolDraft, Filter,
        InFamily;
    if IsUser(e) {
      UserIsOnly(plan, e);
      KeptAlone(UserDraft(plan, e), UserMessageRow, k);
    } else {
      var step := StepAt(turn, StepCoord(e).ordinal);
      KeptOfStep(plan, turn, step, e, k);
      KeptOfCore(plan, turn, step, e, k);
    }
  }

  lemma OutsideIsExtension(plan: Plan, e: CanonicalEvent)
    requires ValidPlan(plan) && Guarded(plan.events) && e in plan.events && !IsConversation(e)
    ensures |BundleOf(plan, e)| <= 1 && forall x :: x in BundleOf(plan, e) ==> x.row.kind.Extension?
  {
    if e.kind == Other {
      GroupLedByMember(plan.groups, e);
    }
  }

  /** The rows of a family are those of the events, when each event's part is right. */
  lemma FamilyMirrors(plan: Plan, k: RowType, q: CanonicalEvent -> bool, shows: (Emission, CanonicalEvent) -> bool)
    requires ValidPlan(plan) && Guarded(plan.events)
    requires forall e :: e in plan.events ==>
               var part := Part(plan, e, k); if q(e) then |part| == 1 && shows(part[0], e) else part == []
    ensures Mirrors(Filter(Stream(plan), InFamily(k)), Filter(plan.events, q), shows)
  {
    hide Part, BundleOf, ValidPlan;
    forall e | e in plan.events
      ensures var kept := Filter(Bundle(plan)(e), InFamily(k));
              if q(e) then |kept| == 1 && shows(kept[0], e) else kept == []
    {
      KeptOfBundle(plan, e, k);
    }
    MirrorFlatMap(plan.events, Bundle(plan), InFamily(k), q, shows);
  }

  // ----- the events that call for a row, by their own fields

  /** The call and the result are the only ones with their identifier, and share turn and step. */
  ghost predicate Paired(events: seq<CanonicalEvent>, c: CanonicalEvent, r: CanonicalEvent) {
    && c in events && r in events && c.kind == ToolCall && r.kind == ToolResult
    && StrictCallId(c).Some? && StrictCallId(c) == StrictCallId(r)
    && c.topology.Some? && r.topology.Some? && c.topology.value.turn.id == r.topology.value.turn.id
    && c.topology.value.step.Some? && r.topology.value.step.Some?
    && c.topology.value.step.value.id == r.topology.value.step.value.id
    && (forall d :: d in events && d.kind == ToolCall && StrictCallId(d) == StrictCallId(c) ==> d == c)
    && (forall d :: d in events && d.kind == ToolResult && StrictCallId(d) == StrictCallId(r) ==> d == r)
  }

  ghost predicate IsPairedCall(events: seq<CanonicalEvent>, c: CanonicalEvent) {
    exists r :: r in events && Paired(events, c, r)
  }

  ghost predicate IsPairedResult(events: seq<CanonicalEvent>, r: CanonicalEvent) {
    exists c :: c in events && Paired(events, c, r)
  }

  ghost predicate Unique(events: seq<CanonicalEvent>, p: CanonicalEvent -> bool, e: CanonicalEvent) {
    e in events && p(e) && forall d :: d in events && p(d) ==> d == e
  }

  lemma NoneKept(events: seq<CanonicalEvent>, p: CanonicalEvent -> bool)
    ensures Filter(events, p) == [] <==> forall e :: e in events ==> !p(e)
  {
    FilterMembership(events, p);
    if Filter(events, p) != [] {
      assert Filter(events, p)[0] in Filter(events, p);
    }
  }

  lemma OneKept(events: seq<CanonicalEvent>, p: CanonicalEvent -> bool)
    requires |Filter(events, p)| == 1
    ensures Unique(events, p, Filter(events, p)[0])
  {
    FilterMembership(events, p);
    var e := Filter(events, p)[0];
    assert Filter(events, p) == [e] && e in Filter(events, p);
    forall d | d in events && p(d)
      ensures d == e
    {
      assert d in Filter(events, p);
    }
  }

  lemma AllOne(kept: seq<CanonicalEvent>, e: CanonicalEvent)
    requires InOrder(kept) && kept != [] && forall k :: 0 <= k < |kept| ==> kept[k] == e
    ensures kept == [e]
  {
    assert |kept| > 1 ==> kept[0].sequence < kept[1].sequence;
  }

  lemma UniqueKept(events: seq<CanonicalEvent>, p: CanonicalEvent -> bool, e: CanonicalEvent)
    requires InOrder(events) && Unique(events, p, e)
    ensures Filter(events, p) == [e]
  {
    FilterMembership(events, p);
    FilterIncreasing(events, p);
    var kept := Filter(events, p);
    assert e in kept && forall k :: 0 <= k < |kept| ==> kept[k] in kept;
    AllOne(kept, e);
  }

  lemma MatchedPair(events: seq<CanonicalEvent>, id: string) returns (c: CanonicalEvent, r: CanonicalEvent)
    requires Matched(events, id)
    ensures Paired(events, c, r) && StrictCallId(c) == Some(id)
  {
    c, r := CallsWith(events, id)[0], ResultsWith(events, id)[0];
    OneKept(events, IsCallWith(id));
    OneKept(events, IsResultWith(id));
    forall d | d in events && d.kind == ToolCall && StrictCallId(d) == StrictCallId(c)
      ensures d == c
    {
      assert IsCallWith(id)(d);
    }
    forall d | d in events && d.kind == ToolResult && StrictCallId(d) == StrictCallId(r)
      ensures d == r
    {
      assert IsResultWith(id)(d);
    }
  }

  lemma PairedIsMatched(events: seq<CanonicalEvent>, c: CanonicalEvent, r: CanonicalEvent)
    requires InOrder(events) && Paired(events, c, r)
    ensures MatchedCall(events, c) && MatchedResult(events, r)
  {
    var id := StrictCallId(c).value;
    UniqueKept(events, IsCallWith(id), c);
    UniqueKept(events, IsResultWith(id), r);
  }

  /** Matching, stated on the events. */
  lemma MatchedIsPaired(events: seq<CanonicalEvent>, e: CanonicalEvent)
    requires InOrder(events) && e in events
    ensures MatchedCall(events, e) <==> IsPairedCall(events, e)
    ensures MatchedResult(events, e) <==> IsPairedResult(events, e)
  {
    hide Matched, Paired;
    if MatchedCall(events, e) || MatchedResult(events, e) {
      var c, r := MatchedPair(events, StrictCallId(e).value);
      PairIsItself(events, c, r, e);
    }
    if r :| r in events && Paired(events, e, r) {
      PairedIsMatched(events, e, r);
    }
    if c :| c in events && Paired(events, c, e) {
      PairedIsMatched(events, c, e);
    }
  }

  lemma PairIsItself(events: seq<CanonicalEvent>, c: CanonicalEvent, r: CanonicalEvent, e: CanonicalEvent)
    requires Paired(events, c, r) && e in events && StrictCallId(e) == StrictCallId(c)
    ensures c in events && r in events && (e.kind == ToolCall ==> e == c) && (e.kind == ToolResult ==> e == r)
  {
  }

  // ----- which events call for a row of each type

  predicate SameTurn(d: CanonicalEvent, e: CanonicalEvent) {
    IsConversation(d) && IsConversation(e) && TurnCoord(d) == TurnCoord(e)
  }

  predicate InStepOf(d: CanonicalEvent, e: CanonicalEvent) {
    IsModel(d) && IsModel(e) && TurnCoord(d) == TurnCoord(e) && StepCoord(d) == StepCoord(e)
  }

  /** The event says something in an assistant message. */
  ghost predicate Speaks(events: seq<CanonicalEvent>, e: CanonicalEvent) {
    e.kind == Reasoning || e.kind == AssistantMessage || IsPairedCall(events, e)
  }

  /** The events of the message of a step. */
  ghost function Speakers(events: seq<CanonicalEvent>, e: CanonicalEvent): CanonicalEvent -> bool {
    (d: CanonicalEvent) => InStepOf(d, e) && Speaks(events, d)
  }

  ghost function SaidInStep(events: seq<CanonicalEvent>, e: CanonicalEvent): seq<Block> {
    FlatMap(Filter(events, Speakers(events, e)), Own(events))
  }

  ghost predicate IsLeader(events: seq<CanonicalEvent>, e: CanonicalEvent) {
    exists group :: group in GroupsOf(Turns(events), events) && group != [] && group[0] == e
  }

  ghost predicate CallsFor(events: seq<CanonicalEvent>, k: RowType, e: CanonicalEvent) {
    match k
    case TurnStart => IsConversation(e) && forall d :: d in events && SameTurn(d, e) ==> e.sequence <= d.sequence
    case TurnEnd => IsConversation(e) && forall d :: d in events && SameTurn(d, e) ==> d.sequence <= e.sequence
    case StepStart => IsModel(e) && forall d :: d in events && InStepOf(d, e) ==> e.sequence <= d.sequence
    case StepEnd => IsModel(e) && forall d :: d in events && InStepOf(d, e) ==> d.sequence <= e.sequence
    case UserMessageRow => e.kind == UserMessage
    case AssistantMessageRow =>
      && IsModel(e) && Speaks(events, e) && SaidInStep(events, e) != []
      && forall d :: d in events && InStepOf(d, e) && Speaks(events, d) ==> e.sequence <= d.sequence
    case ToolCallRow => IsPairedCall(events, e)
    case ToolResultRow => IsPairedResult(events, e)
    case Extension(_) =>
      || (e.kind == ToolCall && !IsPairedCall(events, e)) || (e.kind == ToolResult && !IsPairedResult(events, e))
      || e.kind.Metadata? || (e.kind == Other && IsLeader(events, e))
    case _ => false
  }

  // ----- what the rows show

  predicate Stamped(createdAt: int, row: Row, e: CanonicalEvent) {
    row.time == createdAt + e.sequence
  }

  /** Turn and step are numbered from one in the runtime. */
  predicate Numbers(row: Row, e: CanonicalEvent) {
    row.data.turn == Some(TurnCoord(e).ordinal + 1) && row.data.step == Some(StepCoord(e).ordinal + 1)
  }

  predicate ShowsUser(row: Row, e: CanonicalEvent) {
    && row.surface == Append && !row.ignorable && row.data.message.Some?
    && row.data.message.value.content == MessageBlocks(e) && row.data.message.value.source == UserSource
    && row.data.message.value.id == Some(OrElse(NonEmptyString(e.content.message.id), e.id))
  }

  predicate ShowsCall(row: Row, e: CanonicalEvent) {
    && Numbers(row, e) && row.surface == NoSurface && !row.ignorable && row.data.message.None?
    && row.data.callId == e.content.tool.callId && e.content.tool.callId.Some?
    && e.content.tool.name.Some? && e.content.tool.arguments.Some?
    && row.data.detail == Invocation(e.content.tool.name.value, e.content.tool.arguments.value)
  }

  predicate ShowsResult(row: Row, e: CanonicalEvent) {
    && Numbers(row, e) && row.surface == Append && !row.ignorable && row.data.message.Some?
    && e.content.tool.callId.Some?
    && row.data.message.value.content
       == [ToolResultBlock(e.content.tool.callId.value, OrElse(e.content.tool.outputText, ""), e.content.tool.isError)]
    && row.data.message.value.id == Some(e.id)
    && row.data.message.value.source == ToolSource(e.content.tool.callId)
  }

  predicate Attributed(e: CanonicalEvent) {
    && (e.kind == Reasoning || e.kind == AssistantMessage)
    && e.content.message.source.ModelSource?
    && NonBlank(e.content.message.source.provider) && NonBlank(e.content.message.source.model)
  }

  predicate FirstAttributed(speakers: seq<CanonicalEvent>, k: nat)
    requires k < |speakers|
  {
    Attributed(speakers[k]) && forall j :: 0 <= j < k ==> !Attributed(speakers[j])
  }

  /** A message is attributed to the first of its events that names a model, else to the import. */
  predicate RightSource(speakers: seq<CanonicalEvent>, source: Source) {
    || (source == ModelSource("codex", "imported") && forall k :: 0 <= k < |speakers| ==> !Attributed(speakers[k]))
    || exists k :: 0 <= k < |speakers| && FirstAttributed(speakers, k) && source == speakers[k].content.message.source
  }

  ghost predicate ShowsMessage(events: seq<CanonicalEvent>, row: Row, e: CanonicalEvent) {
    var speakers := Filter(events, Speakers(events, e));
    && Numbers(row, e) && row.surface == Append && !row.ignorable && row.data.message.Some?
    && row.data.message.value.content == SaidInStep(events, e)
    && RightSource(speakers, row.data.message.value.source)
    && row.data.message.value.id
       == Some(if speakers == [e] && e.kind == AssistantMessage then OrElse(NonEmptyString(e.content.message.id), e.id)
               else "mcsf:" + TurnCoord(e).id + ":" + StepCoord(e).id + ":assistant")
  }

  ghost predicate OtherWith(events: seq<CanonicalEvent>, kind: EventKind, e: CanonicalEvent) {
    exists d :: d in events && d != e && d.kind == kind && StrictCallId(d) == StrictCallId(e)
  }

  ghost predicate AreTwo(kind: EventKind, e: CanonicalEvent, a: CanonicalEvent, b: CanonicalEvent) {
    && a != b && a.kind == kind && b.kind == kind
    && StrictCallId(a) == StrictCallId(e) && StrictCallId(b) == StrictCallId(e)
  }

  ghost predicate HasTwo(events: seq<CanonicalEvent>, kind: EventKind, e: CanonicalEvent) {
    exists a, b :: a in events && b in events && AreTwo(kind, e, a, b)
  }

  ghost function WhyUnclosed(events: seq<CanonicalEvent>, e: CanonicalEvent): string {
    if StrictCallId(e).None? then "missing-call-id"
    else if OtherWith(events, ToolCall, e) then "duplicate-call-id"
    else if !OtherWith(events, ToolResult, e) then "unclosed-tool-call"
    else if HasTwo(events, ToolResult, e) then "ambiguous-tool-results"
    else "cross-step-tool-result"
  }

  ghost function WhyOrphan(events: seq<CanonicalEvent>, e: CanonicalEvent): string {
    if StrictCallId(e).None? then "missing-call-id"
    else if !OtherWith(events, ToolCall, e) then "missing-correlated-tool-call"
    else if HasTwo(events, ToolCall, e) then "ambiguous-tool-calls"
    else if OtherWith(events, ToolResult, e) then "ambiguous-tool-results"
    else "cross-step-tool-call"
  }

  predicate ShowsEvidence(row: Row, e: CanonicalEvent, name: string, reason: string) {
    && row.kind == Extension(name) && row.ignorable && row.surface == NoSurface
    && row.data.detail == Evidence(reason, StrictCallId(e), e.id, e.content)
  }

  predicate ShowsGroup(detail: Detail, group: seq<CanonicalEvent>) {
    if |group| == 1 then detail == Summary(group[0].content)
    else
      && detail.Grouping? && |detail.items| == |group|
      && forall i :: 0 <= i < |group| ==> detail.items[i] == (group[i].id, group[i].sequence)
  }

  /** A record outside the conversation: its stored envelope as it was, or a summary of its content. */
  ghost predicate ShowsRecord(events: seq<CanonicalEvent>, createdAt: int, row: Row, e: CanonicalEvent) {
    if e.kind.Metadata? && e.raw.Envelope? then
      && row.kind == e.raw.kind && row.time == e.raw.time && row.data == e.raw.data
      && (row.ignorable <==>
            e.raw.ignorable || (e.raw.kind == Extension("dsh-runtime/detail") && e.raw.surface == NoSurface))
    else
      && Stamped(createdAt, row, e) && row.ignorable && row.surface == NoSurface
      && (e.kind.Metadata? ==>
            row.kind == Extension("maintenance/" + e.kind.name) && row.data.detail == Summary(e.content))
      && (e.kind == Other ==>
            row.kind == Extension("maintenance/other")
            && exists group :: group in GroupsOf(Turns(events), events) && group != [] && group[0] == e
                   && ShowsGroup(row.data.detail, group))
  }

  ghost predicate Shows(events: seq<CanonicalEvent>, createdAt: int, k: RowType, row: Row, e: CanonicalEvent) {
    match k
    case Extension(_) =>
      if e.kind == ToolCall then
        Stamped(createdAt, row, e)
        && ShowsEvidence(row, e, "maintenance/unclosed-tool-call", WhyUnclosed(events, e))
      else if e.kind == ToolResult then
        Stamped(createdAt, row, e) && ShowsEvidence(row, e, "maintenance/orphan-tool-result", WhyOrphan(events, e))
      else ShowsRecord(events, createdAt, row, e)
    case UserMessageRow => Stamped(createdAt, row, e) && ShowsUser(row, e)
    case AssistantMessageRow => Stamped(createdAt, row, e) && ShowsMessage(events, row, e)
    case ToolCallRow => Stamped(createdAt, row, e) && ShowsCall(row, e)
    case ToolResultRow => Stamped(createdAt, row, e) && ShowsResult(row, e)
    case _ =>
      && Stamped(createdAt, row, e) && !row.ignorable && row.surface == NoSurface && row.data.message.None?
      && row.data.turn == Some(TurnCoord(e).ordinal + 1)
      && row.data.step == (if k == StepStart || k == StepEnd then Some(StepCoord(e).ordinal + 1) else None)
      && row.data.detail == (if k == TurnEnd then OpaqueDetail("completed") else NoDetail)
  }

  ghost function CallsForIn(events: seq<CanonicalEvent>, k: RowType): CanonicalEvent -> bool {
    (e: CanonicalEvent) => CallsFor(events, k, e)
  }

  // ----- the parts are right

  /** Events of a plan with their turn. */
  lemma TurnIs(plan: Plan, e: CanonicalEvent) returns (turn: Group)
    requires ValidPlan(plan) && e in plan.events && IsConversation(e)
    ensures turn in plan.turns && turn == TurnAt(plan, TurnCoord(e).ordinal) && turn.coord == TurnCoord(e)
    ensures turn.members != [] && InOrder(turn.members)
    ensures forall d :: d in turn.members <==> d in plan.events && SameTurn(d, e)
  {
    turn := TurnHolding(plan, e);
    TurnMember(plan, turn, e);
    TurnShape(plan, turn);
    FilterMembership(plan.events, IsConversation);
    forall d
      ensures d in turn.members <==> d in plan.events && SameTurn(d, e)
    {
      GroupMembers(Filter(plan.events, IsConversation), TurnCoord, turn, d);
    }
  }

  lemma StepIs(plan: Plan, e: CanonicalEvent) returns (turn: Group, step: Group)
    requires ValidPlan(plan) && e in plan.events && IsModel(e)
    ensures turn in plan.turns && turn == TurnAt(plan, TurnCoord(e).ordinal) && turn.coord == TurnCoord(e)
    ensures step in Steps(turn) && step == StepAt(turn, StepCoord(e).ordinal) && step.coord == StepCoord(e)
    ensures step.members != [] && InOrder(step.members)
    ensures forall d :: d in step.members <==> d in plan.events && InStepOf(d, e)
  {
    turn := TurnIs(plan, e);
    step := StepHolding(plan, turn, e);
    StepMember(plan, turn, step, e);
    StepShape(plan, turn, step);
    FilterMembership(turn.members, IsModel);
    forall d
      ensures d in step.members <==> d in plan.events && InStepOf(d, e)
    {
      GroupMembers(Filter(turn.members, IsModel), StepCoord, step, d);
    }
  }

  lemma EdgesInOrder(members: seq<CanonicalEvent>, e: CanonicalEvent)
    requires InOrder(members) && e in members
    ensures members[0] == e <==> forall d :: d in members ==> e.sequence <= d.sequence
    ensures Last(members) == e <==> forall d :: d in members ==> d.sequence <= e.sequence
  {
    assert members[0] in members && Last(members) in members;
    EndsInOrder(members, e);
  }

  ghost predicate RightPart(plan: Plan, k: RowType, e: CanonicalEvent) {
    var part := Part(plan, e, k);
    if CallsFor(plan.events, k, e) then |part| == 1 && Shows(plan.events, plan.createdAt, k, part[0].row, e)
    else part == []
  }

  /** The first and the last event of a turn call for its boundaries. */
  lemma TurnEdgeCalls(events: seq<CanonicalEvent>, members: seq<CanonicalEvent>, k: RowType, e: CanonicalEvent)
    requires members != [] && InOrder(members) && e in members && IsConversation(e) && (k == TurnStart || k == TurnEnd)
    requires forall d :: d in members <==> d in events && SameTurn(d, e)
    ensures CallsFor(events, k, e) <==> if k == TurnStart then members[0] == e else Last(members) == e
  {
    hide SameTurn;
    EdgesInOrder(members, e);
  }

  lemma TurnEdgeShows(plan: Plan, k: RowType, turn: Group, e: CanonicalEvent)
    requires IsConversation(e) && turn.members != [] && turn.coord == TurnCoord(e) && (k == TurnStart || k == TurnEnd)
    requires turn == TurnAt(plan, TurnCoord(e).ordinal)
    ensures var part := Part(plan, e, k);
            if (if k == TurnStart then turn.members[0] == e else Last(turn.members) == e) then
              |part| == 1 && Shows(plan.events, plan.createdAt, k, part[0].row, e)
            else part == []
  {
    hide TurnAt, StepAt, TurnCoord, StepCoord, IsConversation, WhyUnclosed, WhyOrphan, ShowsRecord, ShowsMessage;
  }

  lemma NoEdge(plan: Plan, k: RowType, e: CanonicalEvent)
    requires k == TurnStart || k == TurnEnd || k == StepStart || k == StepEnd
    requires !IsModel(e) && (k == TurnStart || k == TurnEnd ==> !IsConversation(e))
    ensures !CallsFor(plan.events, k, e) && Part(plan, e, k) == []
  {
    hide TurnAt, StepAt, SameTurn, InStepOf;
  }

  lemma RightTurnEdge(plan: Plan, k: RowType, e: CanonicalEvent)
    requires ValidPlan(plan) && e in plan.events && (k == TurnStart || k == TurnEnd)
    ensures RightPart(plan, k, e)
  {
    hide Part, CallsFor, Shows, ValidPlan, InOrder, IsConversation, IsModel, TurnAt;
    if IsConversation(e) {
      var turn := TurnIs(plan, e);
      assert e in turn.members by {
        SameTurnItself(e);
      }
      TurnEdgeCalls(plan.events, turn.members, k, e);
      TurnEdgeShows(plan, k, turn, e);
    } else {
      OutsideIsNoModel(e);
      NoEdge(plan, k, e);
    }
  }

  lemma SameTurnItself(e: CanonicalEvent)
    requires IsConversation(e)
    ensures SameTurn(e, e) && (IsModel(e) ==> InStepOf(e, e))
  {
  }

  lemma OutsideIsNoModel(e: CanonicalEvent)
    ensures !IsConversation(e) ==> !IsModel(e)
    ensures IsModel(e) ==> IsConversation(e)
  {
  }

  lemma StepEdgeCalls(events: seq<CanonicalEvent>, members: seq<CanonicalEvent>, k: RowType, e: CanonicalEvent)
    requires members != [] && InOrder(members) && e in members && IsModel(e) && (k == StepStart || k == StepEnd)
    requires forall d :: d in members <==> d in events && InStepOf(d, e)
    ensures CallsFor(events, k, e) <==> if k == StepStart then members[0] == e else Last(members) == e
  {
    hide InStepOf;
    EdgesInOrder(members, e);
  }

  lemma StepEdgeShows(plan: Plan, k: RowType, turn: Group, step: Group, e: CanonicalEvent)
    requires IsConversation(e) && IsModel(e) && step.members != [] && (k == StepStart || k == StepEnd)
    requires turn.coord == TurnCoord(e) && turn == TurnAt(plan, TurnCoord(e).ordinal)
    requires step.coord == StepCoord(e) && step == StepAt(turn, StepCoord(e).ordinal)
    ensures var part := Part(plan, e, k);
            if (if k == StepStart then step.members[0] == e else Last(step.members) == e) then
              |part| == 1 && Shows(plan.events, plan.createdAt, k, part[0].row, e)
            else part == []
  {
    hide TurnAt, StepAt, TurnCoord, StepCoord, IsConversation, IsModel, WhyUnclosed, WhyOrphan, ShowsRecord,
        ShowsMessage;
  }

  lemma RightStepEdge(plan: Plan, k: RowType, e: CanonicalEvent)
    requires ValidPlan(plan) && e in plan.events && (k == StepStart || k == StepEnd)
    ensures RightPart(plan, k, e)
  {
    hide Part, CallsFor, Shows, ValidPlan, InOrder, IsConversation, IsModel, TurnAt, StepAt;
    OutsideIsNoModel(e);
    if IsModel(e) {
      var turn, step := StepIs(plan, e);
      assert e in step.members by {
        SameTurnItself(e);
      }
      StepEdgeCalls(plan.events, step.members, k, e);
      StepEdgeShows(plan, k, turn, step, e);
    } else {
      NoEdge(plan, k, e);
    }
  }

  lemma RightUser(plan: Plan, e: CanonicalEvent)
    ensures RightPart(plan, UserMessageRow, e)
  {
  }

  /** Increasing sequences of the same events are equal. */
  lemma {:induction false} SameIncreasing(a: seq<CanonicalEvent>, b: seq<CanonicalEvent>)
    requires InOrder(a) && InOrder(b) && forall e :: e in a <==> e in b
    ensures a == b
  {
    if a != [] && b != [] {
      var x, y := Last(a), Last(b);
      assert x in a && y in b;
      EndsInOrder(a, y);
      EndsInOrder(b, x);
      assert x == y by {
        SameSequence(a, x, y);
      }
      WithoutLast(a);
      WithoutLast(b);
      var fewer, fewer' := a[..|a| - 1], b[..|b| - 1];
      forall e
        ensures e in fewer <==> e in fewer'
      {
        assert e in a <==> e in b;
      }
      SameIncreasing(fewer, fewer');
      assert a == fewer + [x] && b == fewer' + [x];
    } else {
      NoMembers(a);
      NoMembers(b);
    }
  }

  lemma NoMembers(s: seq<CanonicalEvent>)
    ensures s == [] <==> forall e :: e !in s
  {
    if s != [] {
      assert s[0] in s;
    }
  }

  lemma WithoutLast(a: seq<CanonicalEvent>)
    requires InOrder(a) && a != []
    ensures forall e :: e in a[..|a| - 1] <==> e in a && e != Last(a)
  {
    var init := a[..|a| - 1];
    assert a == init + [Last(a)];
    assert forall k :: 0 <= k < |init| ==> init[k] == a[k] && a[k].sequence < Last(a).sequence;
  }

  lemma SpeaksIsFeeds(plan: Plan, e: CanonicalEvent)
    requires ValidPlan(plan) && e in plan.events
    ensures Speaks(plan.events, e) == FeedsAssistant(plan.events, e)
  {
    hide Matched, Paired;
    MatchedIsPaired(plan.events, e);
  }

  /** The events of a step's message. */
  lemma FeedingIs(plan: Plan, turn: Group, step: Group, e: CanonicalEvent)
    requires ValidPlan(plan) && e in plan.events && IsModel(e)
    requires InOrder(step.members) && forall d :: d in step.members <==> d in plan.events && InStepOf(d, e)
    ensures AssistantEvents(plan.events, step) == Filter(plan.events, Speakers(plan.events, e))
  {
    hide FeedsAssistant, Speaks, InStepOf;
    var feeding, speakers := AssistantEvents(plan.events, step), Filter(plan.events, Speakers(plan.events, e));
    FilterIncreasing(step.members, Feeds(plan.events));
    FilterMembership(step.members, Feeds(plan.events));
    FilterIncreasing(plan.events, Speakers(plan.events, e));
    FilterMembership(plan.events, Speakers(plan.events, e));
    forall d
      ensures d in feeding <==> d in speakers
    {
      if d in plan.events {
        SpeaksIsFeeds(plan, d);
      }
    }
    SameIncreasing(feeding, speakers);
  }

  lemma {:induction false} SourceIsRight(feeding: seq<CanonicalEvent>)
    ensures RightSource(feeding, AssistantSource(feeding))
  {
    if feeding != [] && !Attributed(feeding[0]) {
      SourceIsRight(feeding[1..]);
      var rest, source := feeding[1..], AssistantSource(feeding[1..]);
      if k: nat :| k < |rest| && FirstAttributed(rest, k) && source == rest[k].content.message.source {
        assert feeding[k + 1] == rest[k];
        assert forall j :: 0 < j < k + 1 ==> feeding[j] == rest[j - 1];
        assert FirstAttributed(feeding, k + 1);
      } else {
        assert forall j :: 0 < j < |feeding| ==> feeding[j] == rest[j - 1];
      }
    } else if feeding != [] {
      assert FirstAttributed(feeding, 0);
    }
  }

  lemma MessageShows(plan: Plan, turn: Group, step: Group, e: CanonicalEvent)
    requires AssistantEvents(plan.events, step) == Filter(plan.events, Speakers(plan.events, e))
    requires AssistantEvents(plan.events, step) != [] && AssistantEvents(plan.events, step)[0] == e
    requires turn.coord == TurnCoord(e) && step.coord == StepCoord(e)
    ensures Stamped(plan.createdAt, AssistantRow(plan, turn, step), e)
            && ShowsMessage(plan.events, AssistantRow(plan, turn, step), e)
  {
    hide AssistantSource, RightSource, Own, Speakers, Filter, FlatMap, AssistantEvents;
    SourceIsRight(AssistantEvents(plan.events, step));
    assert |AssistantEvents(plan.events, step)| == 1 <==> AssistantEvents(plan.events, step) == [e];
  }

  lemma RightAssistant(plan: Plan, e: CanonicalEvent)
    requires ValidPlan(plan) && e in plan.events
    ensures RightPart(plan, AssistantMessageRow, e)
  {
    hide Speaks, AssistantRow, ShowsMessage, AssistantEvents, Filter, FlatMap, Speakers, Own, ValidPlan;
    if IsModel(e) {
      var turn, step := StepIs(plan, e);
      FeedingIs(plan, turn, step, e);
      LeadingEvent(plan, AssistantEvents(plan.events, step), e);
      if AssistantEvents(plan.events, step) != [] && AssistantEvents(plan.events, step)[0] == e {
        MessageShows(plan, turn, step, e);
      }
    }
  }

  lemma LeadingEvent(plan: Plan, feeding: seq<CanonicalEvent>, e: CanonicalEvent)
    requires ValidPlan(plan) && e in plan.events && IsModel(e)
    requires feeding == Filter(plan.events, Speakers(plan.events, e))
    ensures feeding != [] && feeding[0] == e
            <==> Speaks(plan.events, e)
                 && forall d ::
                      d in plan.events && InStepOf(d, e) && Speaks(plan.events, d) ==> e.sequence <= d.sequence
  {
    hide Speaks;
    FilterMembership(plan.events, Speakers(plan.events, e));
    FilterIncreasing(plan.events, Speakers(plan.events, e));
    if feeding != [] {
      assert feeding[0] in feeding;
      if e in feeding {
        EdgesInOrder(feeding, e);
      }
    }
    assert InStepOf(e, e);
  }

  lemma CallShows(createdAt: int, turn: int, step: int, e: CanonicalEvent)
    requires turn == TurnCoord(e).ordinal + 1 && step == StepCoord(e).ordinal + 1
    requires StrictCallId(e).Some? && NonBlank(StrictCallId(e).value)
    requires NonEmptyString(e.content.tool.name).Some? && e.content.tool.arguments.Some?
    ensures Stamped(createdAt, CallRow(createdAt, turn, step, e), e) && ShowsCall(CallRow(createdAt, turn, step, e), e)
  {
    hide NonBlank;
  }

  lemma ResultShows(createdAt: int, turn: int, step: int, e: CanonicalEvent)
    requires turn == TurnCoord(e).ordinal + 1 && step == StepCoord(e).ordinal + 1
    requires StrictCallId(e).Some? && NonBlank(StrictCallId(e).value)
    ensures Stamped(createdAt, ResultRow(createdAt, turn, step, e), e)
            && ShowsResult(ResultRow(createdAt, turn, step, e), e)
  {
    hide NonBlank;
  }

  lemma RightTool(plan: Plan, k: RowType, e: CanonicalEvent)
    requires ValidPlan(plan) && Answerable(plan.events) && e in plan.events && (k == ToolCallRow || k == ToolResultRow)
    requires MatchedCall(plan.events, e) ==> Writable(plan.events, e)
    ensures RightPart(plan, k, e)
  {
    hide Paired, Matched, Numbered, Turns, CallRow, ResultRow, ShowsCall, ShowsResult, IsPairedCall, IsPairedResult,
        Answerable, Steps, EvidenceRow, UnclosedReason, OrphanReason, StrictCallId;
    MatchedIsPaired(plan.events, e);
    if MatchedCall(plan.events, e) || MatchedResult(plan.events, e) {
      BlankFree(plan, e);
      var turn, step := StepIs(plan, e);
      if MatchedCall(plan.events, e) {
        CallShows(plan.createdAt, NativeTurn(turn), NativeStep(step), e);
      } else {
        ResultShows(plan.createdAt, NativeTurn(turn), NativeStep(step), e);
      }
    }
  }

  predicate HasCallId(kind: EventKind, id: string, d: CanonicalEvent) {
    d.kind == kind && StrictCallId(d) == Some(id)
  }

  lemma CountsTell(events: seq<CanonicalEvent>, kind: EventKind, e: CanonicalEvent, p: CanonicalEvent -> bool)
    requires InOrder(events) && StrictCallId(e).Some? && kind != e.kind
    requires forall d :: p(d) == HasCallId(kind, StrictCallId(e).value, d)
    ensures |Filter(events, p)| == 0 <==> !OtherWith(events, kind, e)
    ensures |Filter(events, p)| > 1 <==> HasTwo(events, kind, e)
  {
    NoneKept(events, p);
    FilterMembership(events, p);
    FilterIncreasing(events, p);
    var kept := Filter(events, p);
    if kept != [] {
      assert kept[0] in kept && p(kept[0]);
    }
    if |kept| > 1 {
      assert kept[1] in kept && p(kept[1]) && kept[0].sequence < kept[1].sequence;
      assert AreTwo(kind, e, kept[0], kept[1]);
    }
    if a, b :| a in events && b in events && AreTwo(kind, e, a, b) {
      assert p(a) && p(b) && a in kept && b in kept;
      TwoOfThem(kept, a, b);
    }
    if d :| d in events && d != e && d.kind == kind && StrictCallId(d) == StrictCallId(e) {
      assert p(d);
    }
  }

  lemma TwoOfThem(kept: seq<CanonicalEvent>, a: CanonicalEvent, b: CanonicalEvent)
    requires a in kept && b in kept && a != b
    ensures |kept| > 1
  {
  }

  lemma OthersTell(events: seq<CanonicalEvent>, e: CanonicalEvent, p: CanonicalEvent -> bool)
    requires InOrder(events) && e in events && StrictCallId(e).Some?
    requires forall d :: p(d) == HasCallId(e.kind, StrictCallId(e).value, d)
    ensures |Filter(events, p)| != 1 <==> OtherWith(events, e.kind, e)
  {
    FilterMembership(events, p);
    var kept := Filter(events, p);
    assert p(e) && e in kept;
    if |kept| == 1 {
      assert kept == [e];
    } else if !OtherWith(events, e.kind, e) {
      assert Unique(events, p, e);
      UniqueKept(events, p, e);
    }
  }

  lemma UnclosedReasonIs(events: seq<CanonicalEvent>, e: CanonicalEvent)
    requires InOrder(events) && e in events && e.kind == ToolCall
    ensures UnclosedReason(events, e) == WhyUnclosed(events, e)
  {
    hide Filter, OtherWith, HasTwo;
    if StrictCallId(e).Some? {
      OthersTell(events, e, IsCallWith(StrictCallId(e).value));
      CountsTell(events, ToolResult, e, IsResultWith(StrictCallId(e).value));
    }
  }

  lemma OrphanReasonIs(events: seq<CanonicalEvent>, e: CanonicalEvent)
    requires InOrder(events) && e in events && e.kind == ToolResult
    ensures OrphanReason(events, e) == WhyOrphan(events, e)
  {
    hide Filter, OtherWith, HasTwo;
    if StrictCallId(e).Some? {
      OthersTell(events, e, IsResultWith(StrictCallId(e).value));
      CountsTell(events, ToolCall, e, IsCallWith(StrictCallId(e).value));
    }
  }

  lemma RightEvidence(plan: Plan, e: CanonicalEvent, k: RowType)
    requires ValidPlan(plan) && e in plan.events && k.Extension? && IsConversation(e)
    ensures RightPart(plan, k, e)
  {
    hide Paired, Matched, UnclosedReason, OrphanReason, WhyUnclosed, WhyOrphan, IsPairedCall, IsPairedResult;
    MatchedIsPaired(plan.events, e);
    if e.kind == ToolCall {
      UnclosedReasonIs(plan.events, e);
    } else if e.kind == ToolResult {
      OrphanReasonIs(plan.events, e);
    }
  }

  lemma RightMetadata(plan: Plan, e: CanonicalEvent, k: RowType)
    requires k.Extension? && e.kind.Metadata?
    ensures RightPart(plan, k, e)
  {
  }

  lemma LedGroup(plan: Plan, e: CanonicalEvent)
    requires ValidPlan(plan)
    ensures GroupLedBy(plan.groups, e) != [] <==> IsLeader(plan.events, e)
    ensures GroupLedBy(plan.groups, e) != []
            ==> GroupLedBy(plan.groups, e) in plan.groups && GroupLedBy(plan.groups, e)[0] == e
  {
    GroupLedByMember(plan.groups, e);
    GroupsLed(plan.turns, plan.events);
    if IsLeader(plan.events, e) {
      var group :| group in GroupsOf(Turns(plan.events), plan.events) && group != [] && group[0] == e;
      var k :| 0 <= k < |plan.groups| && plan.groups[k] == group;
      GroupLedByHead(plan.groups, plan.events, k);
    }
  }

  lemma GroupShows(plan: Plan, e: CanonicalEvent, group: seq<CanonicalEvent>)
    requires ValidPlan(plan) && group in plan.groups && group != [] && group[0] == e && e.kind == Other
    ensures ShowsRecord(plan.events, plan.createdAt, GroupRow(plan.createdAt, group), e)
  {
    hide Turns, Numbered, InOrder;
    assert group in GroupsOf(Turns(plan.events), plan.events);
    assert ShowsGroup(GroupRow(plan.createdAt, group).data.detail, group);
  }

  lemma RightOther(plan: Plan, e: CanonicalEvent, k: RowType)
    requires ValidPlan(plan) && e in plan.events && k.Extension? && e.kind == Other
    ensures RightPart(plan, k, e)
  {
    hide ValidPlan, GroupRow, ShowsRecord, IsLeader, GroupLedBy;
    LedGroup(plan, e);
    if GroupLedBy(plan.groups, e) != [] {
      GroupShows(plan, e, GroupLedBy(plan.groups, e));
    }
  }

  lemma RightNothing(plan: Plan, e: CanonicalEvent, k: RowType)
    requires k == AssistantChunk || k == RequestHeader || k == RequestContext || k == EndSeed
    ensures RightPart(plan, k, e)
  {
    hide Matched;
  }

  lemma RightPartOf(plan: Plan, k: RowType, e: CanonicalEvent)
    requires ValidPlan(plan) && Answerable(plan.events) && Guarded(plan.events) && e in plan.events
    requires MatchedCall(plan.events, e) ==> Writable(plan.events, e)
    ensures RightPart(plan, k, e)
  {
    hide RightPart, ValidPlan, Answerable, MatchedCall, Writable;
    match k
    case TurnStart => RightTurnEdge(plan, k, e);
    case TurnEnd => RightTurnEdge(plan, k, e);
    case StepStart => RightStepEdge(plan, k, e);
    case StepEnd => RightStepEdge(plan, k, e);
    case UserMessageRow => RightUser(plan, e);
    case AssistantMessageRow => RightAssistant(plan, e);
    case ToolCallRow => RightTool(plan, k, e);
    case ToolResultRow => RightTool(plan, k, e);
    case Extension(_) =>
      if IsConversation(e) {
        RightEvidence(plan, e, k);
      } else if e.kind == Other {
        RightOther(plan, e, k);
      } else {
        RightMetadata(plan, e, k);
      }
    case _ => RightNothing(plan, e, k);
  }

  // ----- the rows

  ghost function EmissionShows(events: seq<CanonicalEvent>, createdAt: int, k: RowType):
      (Emission, CanonicalEvent) -> bool {
    (x: Emission, e: CanonicalEvent) => Shows(events, createdAt, k, x.row, e)
  }

  ghost function RowShows(events: seq<CanonicalEvent>, createdAt: int, k: RowType): (Row, CanonicalEvent) -> bool {
    (row: Row, e: CanonicalEvent) => Shows(events, createdAt, k, row, e)
  }

  /** The same but for position, provenance and the range that a row replaces. */
  predicate Moved(row: Row, before: Row) {
    && row.kind == before.kind && row.time == before.time && row.data == before.data
    && row.ignorable == before.ignorable
    && (row.surface == before.surface || (row.surface.Replace? && before.surface.Replace?))
  }

  lemma MovedShows(events: seq<CanonicalEvent>, createdAt: int, k: RowType, row: Row, before: Row, e: CanonicalEvent)
    requires Moved(row, before)
    ensures Shows(events, createdAt, k, row, e) == Shows(events, createdAt, k, before, e)
  {
    hide RightSource, SaidInStep, Speakers, WhyUnclosed, WhyOrphan;
  }

  lemma {:induction false} MovedFilter(rows: seq<Row>, stream: seq<Emission>, k: RowType)
    requires |rows| == |stream| && forall i :: 0 <= i < |rows| ==> Moved(rows[i], stream[i].row)
    ensures var kept, emitted := Filter(rows, RowInFamily(k)), Filter(stream, InFamily(k));
            |kept| == |emitted| && forall i :: 0 <= i < |kept| ==> Moved(kept[i], emitted[i].row)
  {
    if rows != [] {
      MovedFilter(rows[..|rows| - 1], stream[..|stream| - 1], k);
    }
  }

  lemma RowsMoved(stream: seq<Emission>)
    requires AllRelocatable(stream)
    ensures forall i :: 0 <= i < |stream| ==> Moved(Rows(stream)[i], stream[i].row)
  {
    forall i | 0 <= i < |stream|
      ensures Moved(Rows(stream)[i], stream[i].row)
    {
      assert stream[i] in stream;
    }
  }

  lemma MatchedFeeds(events: seq<CanonicalEvent>, step: Group, e: CanonicalEvent)
    requires MatchedCall(events, e) && e in step.members
    ensures e in AssistantEvents(events, step)
  {
    hide Matched;
    FilterMembership(step.members, Feeds(events));
  }

  lemma TurnsWritable(events: seq<CanonicalEvent>, createdAt: int, turn: Group, step: Group, e: CanonicalEvent)
    requires Compilable(events, createdAt) && turn in PlanFor(events, createdAt).turns && step in Steps(turn)
    requires e in AssistantEvents(events, step)
    ensures Writable(events, e)
  {
    hide Writable, AssistantEvents, Pushes, AllRelocatable, Steps, CrossesSteering;
    assert TurnPlannable(events, turn);
    assert StepWritable(events, turn, step);
  }

  lemma CompilableIsValid(events: seq<CanonicalEvent>, createdAt: int)
    requires Compilable(events, createdAt)
    ensures ValidPlan(PlanFor(events, createdAt)) && PlanFor(events, createdAt).events == events
  {
    hide AllRelocatable, Pushes;
    CompilablePlan(events, createdAt);
  }

  lemma MatchedIsModel(events: seq<CanonicalEvent>, e: CanonicalEvent)
    requires MatchedCall(events, e)
    ensures IsModel(e)
  {
    hide Matched;
  }

  lemma MatchedWritable(events: seq<CanonicalEvent>, createdAt: int, e: CanonicalEvent)
    requires Compilable(events, createdAt) && e in events && MatchedCall(events, e)
    ensures Writable(events, e)
  {
    hide MatchedCall, Writable, Compilable, PlanFor, ValidPlan, AssistantEvents, IsModel, IsConversation;
    CompilableIsValid(events, createdAt);
    MatchedIsModel(events, e);
    var turn, step := StepIs(PlanFor(events, createdAt), e);
    OutsideIsNoModel(e);
    SameTurnItself(e);
    assert e in step.members;
    MatchedFeeds(events, step, e);
    TurnsWritable(events, createdAt, turn, step, e);
  }

  /**
   * The rows of each type, read in order, are those of the events that call for one, in canonical order, and show what
   * those events hold.
   */
  lemma RowsMirrorEvents(events: seq<CanonicalEvent>, createdAt: int, k: RowType)
    requires Compilable(events, createdAt) && Guarded(events)
    ensures Mirrors(Filter(Rows(Stream(PlanFor(events, createdAt))), RowInFamily(k)),
                    Filter(events, CallsForIn(events, k)), RowShows(events, createdAt, k))
  {
    hide Writable, MatchedCall, Answerable, ValidPlan, Part, Shows, CallsFor, Moved, Turns;
    var plan := PlanFor(events, createdAt);
    CompilablePlan(events, createdAt);
    RelocatedAnswerable(plan);
    forall e | e in plan.events
      ensures var part := Part(plan, e, k);
              if CallsForIn(events, k)(e) then |part| == 1 && EmissionShows(events, createdAt, k)(part[0], e)
              else part == []
    {
      if MatchedCall(events, e) {
        MatchedWritable(events, createdAt, e);
      }
      RightPartOf(plan, k, e);
    }
    FamilyMirrors(plan, k, CallsForIn(events, k), EmissionShows(events, createdAt, k));
    RowsMoved(Stream(plan));
    MovedFilter(Rows(Stream(plan)), Stream(plan), k);
    MirrorsMoved(events, createdAt, k, Rows(Stream(plan)), Stream(plan));
  }

  lemma MirrorsMoved(events: seq<CanonicalEvent>, createdAt: int, k: RowType, rows: seq<Row>, stream: seq<Emission>)
    requires var kept, emitted := Filter(rows, RowInFamily(k)), Filter(stream, InFamily(k));
             |kept| == |emitted| && forall i :: 0 <= i < |kept| ==> Moved(kept[i], emitted[i].row)
    requires Mirrors(Filter(stream, InFamily(k)), Filter(events, CallsForIn(events, k)),
               EmissionShows(events, createdAt, k))
    ensures Mirrors(Filter(rows, RowInFamily(k)), Filter(events, CallsForIn(events, k)), RowShows(events, createdAt, k))
  {
    hide Shows, CallsFor, Moved;
    var kept, emitted := Filter(rows, RowInFamily(k)), Filter(stream, InFamily(k));
    var sources := Filter(events, CallsForIn(events, k));
    forall i | 0 <= i < |kept|
      ensures RowShows(events, createdAt, k)(kept[i], sources[i])
    {
      assert EmissionShows(events, createdAt, k)(emitted[i], sources[i]);
      MovedShows(events, createdAt, k, kept[i], emitted[i].row, sources[i]);
    }
  }

  // ----- tool rows

  function IsOfType(k: RowType): Row -> bool {
    (row: Row) => row.kind == k
  }

  ghost function PairedResults(events: seq<CanonicalEvent>): CanonicalEvent -> bool {
    (e: CanonicalEvent) => IsPairedResult(events, e)
  }

  ghost function PairedCalls(events: seq<CanonicalEvent>): CanonicalEvent -> bool {
    (e: CanonicalEvent) => IsPairedCall(events, e)
  }

  lemma {:induction false} FilterSame<T>(s: seq<T>, p: T -> bool, q: T -> bool)
    requires forall x :: x in s ==> p(x) == q(x)
    ensures Filter(s, p) == Filter(s, q)
  {
    if s != [] {
      FilterSame(s[..|s| - 1], p, q);
    }
  }

  lemma MirroredAt<A, B>(rows: seq<A>, sources: seq<B>, shows: (A, B) -> bool, j: nat)
    requires Mirrors(rows, sources, shows) && j < |rows|
    ensures j < |sources| && shows(rows[j], sources[j])
  {
  }

  /** Tool results, read in order, are the paired results in canonical order, each with its text and its error mark. */
  lemma ToolResultsShown(events: seq<CanonicalEvent>, createdAt: int, j: nat)
    requires Compilable(events, createdAt) && Guarded(events)
    ensures var shown := Filter(Rows(Stream(PlanFor(events, createdAt))), IsOfType(ToolResultRow));
            var results := Filter(events, PairedResults(events));
            |shown| == |results|
            && (j < |shown| ==>
                  var message, tool := shown[j].data.message, results[j].content.tool;
                  message.Some? && tool.callId.Some?
                      && message.value.content
                         == [ToolResultBlock(tool.callId.value, OrElse(tool.outputText, ""), tool.isError)])
  {
    hide Paired, Compilable, IsPairedResult, Rows, Stream, PlanFor, Filter, Mirrors, Numbers, AllRelocatable;
    var rows := AllRows(events, createdAt);
    RowsMirrorEvents(events, createdAt, ToolResultRow);
    FilterSame(rows, RowInFamily(ToolResultRow), IsOfType(ToolResultRow));
    FilterSame(events, CallsForIn(events, ToolResultRow), PairedResults(events));
    var shown, results := Filter(rows, IsOfType(ToolResultRow)), Filter(events, PairedResults(events));
    MirrorsLength(shown, results, RowShows(events, createdAt, ToolResultRow));
    if j < |shown| {
      MirroredAt(shown, results, RowShows(events, createdAt, ToolResultRow), j);
    }
  }

  ghost function AllRows(events: seq<CanonicalEvent>, createdAt: int): seq<Row>
    requires Compilable(events, createdAt)
  {
    Rows(Stream(PlanFor(events, createdAt)))
  }

  lemma MirrorsLength<A, B>(rows: seq<A>, sources: seq<B>, shows: (A, B) -> bool)
    requires Mirrors(rows, sources, shows)
    ensures |rows| == |sources|
  {
  }

  /** The message of a step is led by one of its events. */
  lemma MessageLeader(events: seq<CanonicalEvent>, c: CanonicalEvent) returns (e: CanonicalEvent)
    requires InOrder(events) && IsPairedCall(events, c) && c in events
    ensures e in events && CallsFor(events, AssistantMessageRow, e) && InStepOf(e, c)
    ensures forall block :: block in OwnBlocks(events, c) ==> block in SaidInStep(events, e)
  {
    hide IsPairedCall;
    var speakers := Filter(events, Speakers(events, c));
    FilterMembership(events, Speakers(events, c));
    FilterIncreasing(events, Speakers(events, c));
    assert c in speakers by {
      SpeaksItself(events, c);
    }
    e := speakers[0];
    assert e in speakers && InStepOf(e, c);
    EndsInOrder(speakers, e);
    SameSpeakers(events, e, c);
    FlatMapMembership(speakers, Own(events));
    MatchedIsPaired(events, c);
    assert OwnBlocks(events, c)[0] in Own(events)(c);
    assert SaidInStep(events, e) == FlatMap(speakers, Own(events));
    assert OwnBlocks(events, c)[0] in SaidInStep(events, e);
    forall d | d in events && InStepOf(d, e) && Speaks(events, d)
      ensures e.sequence <= d.sequence
    {
      assert d in speakers;
      EndsInOrder(speakers, d);
    }
  }

  lemma SpeaksItself(events: seq<CanonicalEvent>, c: CanonicalEvent)
    requires IsPairedCall(events, c)
    ensures IsModel(c) && InStepOf(c, c) && Speaks(events, c)
  {
  }

  lemma SameSpeakers(events: seq<CanonicalEvent>, e: CanonicalEvent, c: CanonicalEvent)
    requires InStepOf(e, c)
    ensures Filter(events, Speakers(events, e)) == Filter(events, Speakers(events, c))
  {
    hide Speaks;
    FilterSame(events, Speakers(events, e), Speakers(events, c));
  }

  /** The row stands for the message of a step in which the call is written. */
  predicate Announces(message: Row, call: Row) {
    && message.kind == AssistantMessageRow && message.data.message.Some?
    && message.data.turn == call.data.turn && message.data.step == call.data.step
    && call.data.callId.Some? && call.data.detail.Invocation?
    && ToolCallBlock(call.data.callId.value, call.data.detail.name, call.data.detail.arguments)
       in message.data.message.value.content
  }

  /** The row of the message in which a paired call is written. */
  lemma MessageRowOf(events: seq<CanonicalEvent>, createdAt: int, c: CanonicalEvent) returns (message: Row)
    requires Compilable(events, createdAt) && Guarded(events) && IsPairedCall(events, c) && c in events
    ensures message in AllRows(events, createdAt) && message.kind == AssistantMessageRow && Numbers(message, c)
    ensures message.data.message.Some?
            && forall block :: block in OwnBlocks(events, c) ==> block in message.data.message.value.content
  {
    hide IsPairedCall, Rows, Stream, PlanFor, Filter, Mirrors, AllRelocatable, Paired, RightSource, SaidInStep,
        OwnBlocks, CallsFor, Compilable, Guarded, Shows, AllRows;
    InOrderWhenCompilable(events, createdAt);
    var e := MessageLeader(events, c);
    message := MirrorOf(events, createdAt, AssistantMessageRow, e);
    MessageRowShows(events, createdAt, message, e);
  }

  /** The row of an event that calls for one. */
  lemma MirrorOf(events: seq<CanonicalEvent>, createdAt: int, k: RowType, e: CanonicalEvent) returns (row: Row)
    requires Compilable(events, createdAt) && Guarded(events) && e in events && CallsFor(events, k, e)
    ensures row in AllRows(events, createdAt) && SameFamily(k, row.kind) && Shows(events, createdAt, k, row, e)
  {
    hide Rows, Stream, PlanFor, Filter, Mirrors, AllRelocatable, CallsFor, Compilable, Guarded, Shows, AllRows;
    var rows := AllRows(events, createdAt);
    AllRowsMirror(events, createdAt, k);
    FilterMembership(events, CallsForIn(events, k));
    FilterMembership(rows, RowInFamily(k));
    var kept, sources := Filter(rows, RowInFamily(k)), Filter(events, CallsForIn(events, k));
    MirrorsLength(kept, sources, RowShows(events, createdAt, k));
    var m :| 0 <= m < |sources| && sources[m] == e;
    MirroredAt(kept, sources, RowShows(events, createdAt, k), m);
    row := kept[m];
    assert row in kept;
  }

  lemma MessageRowShows(events: seq<CanonicalEvent>, createdAt: int, row: Row, e: CanonicalEvent)
    requires Shows(events, createdAt, AssistantMessageRow, row, e)
    ensures Numbers(row, e) && row.data.message.Some?
            && row.data.message.value.content == SaidInStep(events, e)
  {
    hide RightSource, SaidInStep;
  }

  lemma InOrderWhenCompilable(events: seq<CanonicalEvent>, createdAt: int)
    requires Compilable(events, createdAt)
    ensures InOrder(events)
  {
    hide AllRelocatable;
    CompilablePlan(events, createdAt);
  }

  /**
   * Tool calls, read in order, are the paired calls in canonical order, each with its identifier, name and arguments,
   * and each is written so in the message of its step.
   */
  lemma ToolCallsShown(events: seq<CanonicalEvent>, createdAt: int, j: nat)
    requires Compilable(events, createdAt) && Guarded(events)
    ensures var shown := Filter(AllRows(events, createdAt), IsOfType(ToolCallRow));
            var calls := Filter(events, PairedCalls(events));
            |shown| == |calls|
            && (j < |shown| ==>
                  var data, tool := shown[j].data, calls[j].content.tool;
                  && tool.callId.Some? && tool.name.Some? && tool.arguments.Some?
                  && data.callId == tool.callId && data.detail == Invocation(tool.name.value, tool.arguments.value)
                  && exists message :: message in AllRows(events, createdAt) && Announces(message, shown[j]))
  {
    hide Paired, Compilable, IsPairedCall, AllRows, Filter, Mirrors;
    var rows := AllRows(events, createdAt);
    AllRowsMirror(events, createdAt, ToolCallRow);
    FilterSame(rows, RowInFamily(ToolCallRow), IsOfType(ToolCallRow));
    FilterSame(events, CallsForIn(events, ToolCallRow), PairedCalls(events));
    var shown, calls := Filter(rows, IsOfType(ToolCallRow)), Filter(events, PairedCalls(events));
    MirrorsLength(shown, calls, RowShows(events, createdAt, ToolCallRow));
    if j < |shown| {
      MirroredAt(shown, calls, RowShows(events, createdAt, ToolCallRow), j);
      FilterMembership(events, PairedCalls(events));
      assert calls[j] in calls;
      FilterMembership(rows, IsOfType(ToolCallRow));
      var message := MessageRowOf(events, createdAt, calls[j]);
      InOrderWhenCompilable(events, createdAt);
      OwnOfCall(events, calls[j]);
      assert Announces(message, shown[j]);
    }
  }

  lemma AllRowsMirror(events: seq<CanonicalEvent>, createdAt: int, k: RowType)
    requires Compilable(events, createdAt) && Guarded(events)
    ensures Mirrors(Filter(AllRows(events, createdAt), RowInFamily(k)), Filter(events, CallsForIn(events, k)),
                    RowShows(events, createdAt, k))
  {
    hide Rows, Stream, PlanFor, Filter, Mirrors, AllRelocatable, Guarded;
    RowsMirrorEvents(events, createdAt, k);
  }

  lemma OwnOfCall(events: seq<CanonicalEvent>, c: CanonicalEvent)
    requires InOrder(events) && c in events && IsPairedCall(events, c)
    requires c.content.tool.callId.Some? && c.content.tool.name.Some? && c.content.tool.arguments.Some?
    ensures ToolCallBlock(c.content.tool.callId.value, c.content.tool.name.value, c.content.tool.arguments.value)
         in OwnBlocks(events, c)
  {
    hide Matched, Paired;
    MatchedIsPaired(events, c);
  }

  // ----- the blocks of an event

  /** The text of a message without blocks: its own if it is not blank, else the bare content. */
  predicate IsTextOf(e: CanonicalEvent, text: Option<string>) {
    match e.content.message.text
    case Some(own) => if NonBlank(own) then text == Some(own) else text == e.content.bareText
    case None => text == e.content.bareText
  }

  /** A message's own blocks; else its text and then its attachments, each a block; and never no block at all. */
  ghost predicate SaysOwnContent(e: CanonicalEvent, blocks: seq<Block>) {
    match e.content.message.blocks
    case Some(own) => blocks == own
    case None =>
      exists text: Option<string> :: IsTextOf(e, text) &&
        match (text, e.content.message.attachmentText)
        case (Some(t), Some(a)) => blocks == [TextBlock(t), TextBlock(a)]
        case (Some(t), None) => blocks == [TextBlock(t)]
        case (None, Some(a)) => blocks == [TextBlock(a)]
        case (None, None) => blocks == [TextBlock("")]
  }

  lemma MessageBlocksAre(e: CanonicalEvent)
    ensures SaysOwnContent(e, MessageBlocks(e))
  {
    var text := if NonEmptyString(e.content.message.text).Some? then e.content.message.text else e.content.bareText;
    assert IsTextOf(e, text);
  }

  /** Texts of reasoning become reasoning; other blocks stay. */
  ghost predicate AsThought(own: seq<Block>, said: seq<Block>) {
    && |said| == |own|
    && forall k :: 0 <= k < |own| ==> said[k] == match own[k] case TextBlock(t) => ReasoningBlock(t) case block => block
  }

  /** What an event says in the message of its step. */
  lemma OwnBlocksAre(events: seq<CanonicalEvent>, e: CanonicalEvent)
    requires InOrder(events) && e in events && (MatchedCall(events, e) ==> Writable(events, e))
    ensures match e.kind
            case Reasoning => exists own :: SaysOwnContent(e, own) && AsThought(own, OwnBlocks(events, e))
            case AssistantMessage => SaysOwnContent(e, OwnBlocks(events, e))
            case ToolCall =>
              if IsPairedCall(events, e) then
                && e.content.tool.callId.Some? && e.content.tool.name.Some? && e.content.tool.arguments.Some?
                && OwnBlocks(events, e)
                   == [ToolCallBlock(e.content.tool.callId.value, e.content.tool.name.value,
                         e.content.tool.arguments.value)]
              else OwnBlocks(events, e) == []
            case _ => OwnBlocks(events, e) == []
  {
    hide Matched, IsPairedCall, SaysOwnContent, MessageBlocks;
    MessageBlocksAre(e);
    MatchedIsPaired(events, e);
    if e.kind == Reasoning {
      assert AsThought(MessageBlocks(e), OwnBlocks(events, e));
    }
  }
}
