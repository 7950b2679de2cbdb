/** What the portable materializer emits, in the order it pushes it, and in the order of the conversation. */
module PortableEmission {
  import opened Outcomes
  import opened Text
  import opened Sequences
  import opened Canonical
  import opened CoordinateRuns
  import opened Provenance

  /** A positioned draft without its insertion order. */
  datatype Emission = Emission(source: int, rank: int, row: Row, origins: seq<int>, resultCallId: Option<string>)

  /** The canonical events with the turns and the groups of other events found in them. */
  datatype Plan = Plan(events: seq<CanonicalEvent>, createdAt: int, turns: seq<Group>, groups: seq<seq<CanonicalEvent>>)

  // ----- turns and steps

  function Turns(events: seq<CanonicalEvent>): seq<Group> {
    Runs(Filter(events, IsConversation), TurnCoord)
  }

  function Steps(turn: Group): seq<Group> {
    Runs(Filter(turn.members, IsModel), StepCoord)
  }

  // ----- correlation of calls and results

  function IsCallWith(id: string): CanonicalEvent -> bool {
    (e: CanonicalEvent) => e.kind == ToolCall && StrictCallId(e) == Some(id)
  }

  function IsResultWith(id: string): CanonicalEvent -> bool {
    (e: CanonicalEvent) => e.kind == ToolResult && StrictCallId(e) == Some(id)
  }

  function CallsWith(events: seq<CanonicalEvent>, id: string): seq<CanonicalEvent> {
    Filter(events, IsCallWith(id))
  }

  function ResultsWith(events: seq<CanonicalEvent>, id: string): seq<CanonicalEvent> {
    Filter(events, IsResultWith(id))
  }

  predicate SameStep(a: CanonicalEvent, b: CanonicalEvent) {
    && a.topology.Some? && b.topology.Some?
    && a.topology.value.turn.id == b.topology.value.turn.id
    && a.topology.value.step.Some? && b.topology.value.step.Some?
    && a.topology.value.step.value.id == b.topology.value.step.value.id
  }

  /** One call and one result carry this identifier, and both lie in one step. */
  predicate Matched(events: seq<CanonicalEvent>, id: string) {
    && |CallsWith(events, id)| == 1
    && |ResultsWith(events, id)| == 1
    && SameStep(CallsWith(events, id)[0], ResultsWith(events, id)[0])
  }

  predicate MatchedCall(events: seq<CanonicalEvent>, e: CanonicalEvent) {
    e.kind == ToolCall && StrictCallId(e).Some? && Matched(events, StrictCallId(e).value)
  }

  predicate MatchedResult(events: seq<CanonicalEvent>, e: CanonicalEvent) {
    e.kind == ToolResult && StrictCallId(e).Some? && Matched(events, StrictCallId(e).value)
  }

  // ----- the one assistant message of a step

  /** The event feeds the assistant message of its step. */
  predicate FeedsAssistant(events: seq<CanonicalEvent>, e: CanonicalEvent) {
    e.kind == Reasoning || e.kind == AssistantMessage || MatchedCall(events, e)
  }

  function Feeds(events: seq<CanonicalEvent>): CanonicalEvent -> bool {
    (e: CanonicalEvent) => FeedsAssistant(events, e)
  }

  function AssistantEvents(events: seq<CanonicalEvent>, step: Group): seq<CanonicalEvent> {
    Filter(step.members, Feeds(events))
  }

  function AsReasoning(block: Block): Block {
    if block.TextBlock? then ReasoningBlock(block.text) else block
  }

  /** The blocks an event contributes to the transcript of assistant output. */
  function OwnBlocks(events: seq<CanonicalEvent>, e: CanonicalEvent): seq<Block> {
    if e.kind == Reasoning then Map(MessageBlocks(e), AsReasoning)
    else if e.kind == AssistantMessage then MessageBlocks(e)
    else if MatchedCall(events, e) then
      [ToolCallBlock(StrictCallId(e).value, OrElse(e.content.tool.name, ""), OrElse(e.content.tool.arguments, ""))]
    else []
  }

  function Own(events: seq<CanonicalEvent>): CanonicalEvent -> seq<Block> {
    (e: CanonicalEvent) => OwnBlocks(events, e)
  }

  /** The event can be written into an assistant message. */
  predicate Writable(events: seq<CanonicalEvent>, e: CanonicalEvent) {
    && (e.kind == Reasoning ==> forall b :: b in MessageBlocks(e) ==> b.ReasoningBlock? || b.TextBlock?)
    && (e.kind == AssistantMessage ==> forall b :: b in MessageBlocks(e) ==> !b.ToolCallBlock? && !b.ToolResultBlock?)
    && (MatchedCall(events, e) ==> NonEmptyString(e.content.tool.name).Some? && e.content.tool.arguments.Some?)
  }

  function StepBlocks(events: seq<CanonicalEvent>, step: Group): seq<Block> {
    FlatMap(AssistantEvents(events, step), Own(events))
  }

  /** A user message lies strictly between the first and the last assistant event of the step. */
  predicate CrossesSteering(events: seq<CanonicalEvent>, turn: Group, step: Group) {
    var feeding := AssistantEvents(events, step);
    |feeding| > 1
    && exists u :: u in turn.members && IsUser(u) && feeding[0].sequence < u.sequence < Last(feeding).sequence
  }

  predicate StepWritable(events: seq<CanonicalEvent>, turn: Group, step: Group) {
    && !CrossesSteering(events, turn, step)
    && forall e :: e in AssistantEvents(events, step) ==> Writable(events, e)
  }

  const IMPORTED := ModelSource("codex", "imported")

  function AssistantSource(feeding: seq<CanonicalEvent>): Source {
    if feeding == [] then IMPORTED
    else
      var e := feeding[0];
      if (e.kind == AssistantMessage || e.kind == Reasoning) && e.content.message.source.ModelSource?
         && NonBlank(e.content.message.source.provider) && NonBlank(e.content.message.source.model)
      then e.content.message.source
      else AssistantSource(feeding[1..])
  }

  function MessageIdOf(e: CanonicalEvent): string {
    OrElse(NonEmptyString(e.content.message.id), e.id)
  }

  function AssistantId(turn: Group, step: Group, feeding: seq<CanonicalEvent>): string {
    if |feeding| == 1 && feeding[0].kind == AssistantMessage then MessageIdOf(feeding[0])
    else "mcsf:" + turn.coord.id + ":" + step.coord.id + ":assistant"
  }

  // ----- rows

  function Boundary(kind: RowType, time: int, turn: int, step: Option<int>): Row {
    Row(kind, 0, time,
        RowData(Some(turn), step, None, None, if kind == TurnEnd then OpaqueDetail("completed") else NoDetail), false,
        None, NoSurface)
  }

  function NativeTurn(turn: Group): int {
    turn.coord.ordinal + 1
  }

  function NativeStep(step: Group): int {
    step.coord.ordinal + 1
  }

  function FirstOf(group: Group): int
    requires group.members != []
  {
    group.members[0].sequence
  }

  function LastOf(group: Group): int
    requires group.members != []
  {
    Last(group.members).sequence
  }

  function UserRow(createdAt: int, e: CanonicalEvent): Row {
    Row(UserMessageRow, 0, createdAt + e.sequence,
        RowData(None, None, None, Some(Message(Some(MessageIdOf(e)), MessageBlocks(e), UserSource)), NoDetail),
        false, None, Append)
  }

  function AssistantRow(plan: Plan, turn: Group, step: Group): Row
    requires AssistantEvents(plan.events, step) != []
  {
    var feeding := AssistantEvents(plan.events, step);
    Row(AssistantMessageRow, 0, plan.createdAt + feeding[0].sequence,
        RowData(Some(NativeTurn(turn)), Some(NativeStep(step)), None,
                Some(Message(Some(AssistantId(turn, step, feeding)), StepBlocks(plan.events, step),
                    AssistantSource(feeding))), NoDetail),
        false, None, Append)
  }

  function CallIdOf(e: CanonicalEvent): string {
    OrElse(NonEmptyString(e.content.tool.callId), e.id)
  }

  function CallRow(createdAt: int, turn: int, step: int, e: CanonicalEvent): Row {
    var tool := e.content.tool;
    Row(ToolCallRow, 0, createdAt + e.sequence,
        RowData(Some(turn), Some(step), Some(CallIdOf(e)), None,
                Invocation(OrElse(NonEmptyString(tool.name), "codex-tool"), OrElse(tool.arguments, ""))),
        false, None, NoSurface)
  }

  function ResultRow(createdAt: int, turn: int, step: int, e: CanonicalEvent): Row {
    var tool := e.content.tool;
    var callId := CallIdOf(e);
    Row(ToolResultRow, 0, createdAt + e.sequence,
        RowData(Some(turn), Some(step), None,
                Some(Message(Some(e.id), [ToolResultBlock(callId, OrElse(tool.outputText, ""), tool.isError)],
                    ToolSource(Some(callId)))), NoDetail),
        false, None, Append)
  }

  function EvidenceRow(createdAt: int, name: string, reason: string, e: CanonicalEvent): Row {
    Row(Extension(name), 0, createdAt + e.sequence,
        RowData(None, None, None, None, Evidence(reason, StrictCallId(e), e.id, e.content)), true, None, NoSurface)
  }

  function UnclosedReason(events: seq<CanonicalEvent>, e: CanonicalEvent): string {
    match StrictCallId(e)
    case None => "missing-call-id"
    case Some(id) =>
      if |CallsWith(events, id)| != 1 then "duplicate-call-id"
      else if |ResultsWith(events, id)| == 0 then "unclosed-tool-call"
      else if |ResultsWith(events, id)| != 1 then "ambiguous-tool-results"
      else "cross-step-tool-result"
  }

  function OrphanReason(events: seq<CanonicalEvent>, e: CanonicalEvent): string {
    match StrictCallId(e)
    case None => "missing-call-id"
    case Some(id) =>
      if |CallsWith(events, id)| == 0 then "missing-correlated-tool-call"
      else if |CallsWith(events, id)| != 1 then "ambiguous-tool-calls"
      else if |ResultsWith(events, id)| != 1 then "ambiguous-tool-results"
      else "cross-step-tool-call"
  }

  predicate IsDetail(kind: RowType) {
    kind == Extension("dsh-runtime/detail")
  }

  /** The row of an event that is not part of the conversation: its own envelope, or a maintenance row. */
  function PlainRow(createdAt: int, e: CanonicalEvent): Row {
    match e.kind
    case Metadata(name) =>
      (match e.raw
       case Envelope(kind, time, data, ignorable, provenance, surface) =>
         Row(kind, e.sequence, time, data, ignorable || (IsDetail(kind) && surface.NoSurface?),
             if provenance.Some? then Some(FlatMap(provenance.value, ExpandAll())) else None, surface)
       case _ =>
         Row(Extension("maintenance/" + name), e.sequence, createdAt + e.sequence,
             RowData(None, None, None, None, Summary(e.content)), true, None, NoSurface))
    case _ =>
      Row(Extension("maintenance/other"), e.sequence, createdAt + e.sequence,
          RowData(None, None, None, None, Summary(e.content)), true, None, NoSurface)
  }

  function IdAndSequence(e: CanonicalEvent): (string, int) {
    (e.id, e.sequence)
  }

  function SequenceOf(e: CanonicalEvent): int {
    e.sequence
  }

  function GroupRow(createdAt: int, group: seq<CanonicalEvent>): Row
    requires group != []
  {
    if |group| == 1 then PlainRow(createdAt, group[0])
    else Row(Extension("maintenance/other"), 0, createdAt + group[0].sequence,
             RowData(None, None, None, None, Grouping(Map(group, IdAndSequence))), true, None, NoSurface)
  }

  // ----- pushes, in the order of the source

  function GroupDraft(plan: Plan, group: seq<CanonicalEvent>): seq<Emission> {
    if group == [] then []
    else [Emission(group[0].sequence, 0, GroupRow(plan.createdAt, group), Map(group, SequenceOf), None)]
  }

  function GroupEmissions(plan: Plan): seq<CanonicalEvent> -> seq<Emission> {
    (group: seq<CanonicalEvent>) => GroupDraft(plan, group)
  }

  function MetadataDraft(plan: Plan, e: CanonicalEvent): seq<Emission> {
    if e.kind.Metadata? then [Emission(e.sequence, 0, PlainRow(plan.createdAt, e), [e.sequence], None)] else []
  }

  function MetadataEmissions(plan: Plan): CanonicalEvent -> seq<Emission> {
    (e: CanonicalEvent) => MetadataDraft(plan, e)
  }

  function UserDraft(plan: Plan, e: CanonicalEvent): seq<Emission> {
    if IsUser(e) then [Emission(e.sequence, 0, UserRow(plan.createdAt, e), [e.sequence], None)] else []
  }

  function UserEmissions(plan: Plan): CanonicalEvent -> seq<Emission> {
    (e: CanonicalEvent) => UserDraft(plan, e)
  }

  /** The row of a tool call or result: the correlated pair, or evidence of what could not be correlated. */
  function ToolDraft(plan: Plan, turn: Group, step: Group, e: CanonicalEvent): seq<Emission> {
    if e.kind == ToolCall then
      if MatchedCall(plan.events, e)
      then [Emission(e.sequence, 0, CallRow(plan.createdAt, NativeTurn(turn), NativeStep(step), e), [e.sequence], None)]
      else [Emission(e.sequence, 0,
          EvidenceRow(plan.createdAt, "maintenance/unclosed-tool-call", UnclosedReason(plan.events, e), e),
          [e.sequence], None)]
    else if e.kind == ToolResult then
      if MatchedResult(plan.events, e)
      then [Emission(e.sequence, 0, ResultRow(plan.createdAt, NativeTurn(turn), NativeStep(step), e), [e.sequence],
          StrictCallId(e))]
      else [Emission(e.sequence, 0,
          EvidenceRow(plan.createdAt, "maintenance/orphan-tool-result", OrphanReason(plan.events, e), e), [e.sequence],
          None)]
    else []
  }

  function ToolEmissions(plan: Plan, turn: Group, step: Group): CanonicalEvent -> seq<Emission> {
    (e: CanonicalEvent) => ToolDraft(plan, turn, step, e)
  }

  function AssistantEmissions(plan: Plan, turn: Group, step: Group): seq<Emission> {
    var feeding := AssistantEvents(plan.events, step);
    if feeding == [] || StepBlocks(plan.events, step) == [] then []
    else [Emission(feeding[0].sequence, -200, AssistantRow(plan, turn, step), Map(feeding, SequenceOf), None)]
  }

  function StepStartOf(plan: Plan, turn: Group, step: Group): seq<Emission> {
    if step.members == [] then [] else
      [Emission(FirstOf(step), -300,
          Boundary(StepStart, plan.createdAt + FirstOf(step), NativeTurn(turn), Some(NativeStep(step))), [], None)]
  }

  function StepEndOf(plan: Plan, turn: Group, step: Group): seq<Emission> {
    if step.members == [] then [] else
      [Emission(LastOf(step), 300,
          Boundary(StepEnd, plan.createdAt + LastOf(step), NativeTurn(turn), Some(NativeStep(step))), [], None)]
  }

  function TurnStartOf(plan: Plan, turn: Group): seq<Emission> {
    if turn.members == [] then [] else
      [Emission(FirstOf(turn), -400, Boundary(TurnStart, plan.createdAt + FirstOf(turn), NativeTurn(turn), None), [],
          None)]
  }

  function TurnEndOf(plan: Plan, turn: Group): seq<Emission> {
    if turn.members == [] then [] else
      [Emission(LastOf(turn), 400, Boundary(TurnEnd, plan.createdAt + LastOf(turn), NativeTurn(turn), None), [], None)]
  }

  function StepDrafts(plan: Plan, turn: Group, step: Group): seq<Emission> {
    StepStartOf(plan, turn, step)
    + AssistantEmissions(plan, turn, step)
    + FlatMap(step.members, ToolEmissions(plan, turn, step))
    + StepEndOf(plan, turn, step)
  }

  function StepPushes(plan: Plan, turn: Group): Group -> seq<Emission> {
    (step: Group) => StepDrafts(plan, turn, step)
  }

  function TurnDrafts(plan: Plan, turn: Group): seq<Emission> {
    TurnStartOf(plan, turn)
    + FlatMap(turn.members, UserEmissions(plan))
    + FlatMap(Steps(turn), StepPushes(plan, turn))
    + TurnEndOf(plan, turn)
  }

  function TurnPushes(plan: Plan): Group -> seq<Emission> {
    (turn: Group) => TurnDrafts(plan, turn)
  }

  function Pushes(plan: Plan): seq<Emission> {
    FlatMap(plan.groups, GroupEmissions(plan))
    + FlatMap(plan.events, MetadataEmissions(plan))
    + FlatMap(plan.turns, TurnPushes(plan))
  }

  // ----- the same emissions, event by event in canonical order

  /** The assistant message of a step stands where the first event that feeds it stood. */
  function AssistantOf(plan: Plan, turn: Group, step: Group, e: CanonicalEvent): seq<Emission> {
    var feeding := AssistantEvents(plan.events, step);
    if feeding != [] && feeding[0] == e then AssistantEmissions(plan, turn, step) else []
  }

  function CoreOf(plan: Plan, turn: Group, step: Group, e: CanonicalEvent): seq<Emission> {
    AssistantOf(plan, turn, step, e)
    + ToolDraft(plan, turn, step, e)
  }

  function CoreEmissions(plan: Plan, turn: Group, step: Group): CanonicalEvent -> seq<Emission> {
    (e: CanonicalEvent) => CoreOf(plan, turn, step, e)
  }

  function StepOf(plan: Plan, turn: Group, step: Group, e: CanonicalEvent): seq<Emission> {
    (if step.members != [] && step.members[0] == e then StepStartOf(plan, turn, step) else [])
    + CoreOf(plan, turn, step, e)
    + (if step.members != [] && Last(step.members) == e then StepEndOf(plan, turn, step) else [])
  }

  function StepEmissions(plan: Plan, turn: Group, step: Group): CanonicalEvent -> seq<Emission> {
    (e: CanonicalEvent) => StepOf(plan, turn, step, e)
  }

  function StepAt(turn: Group, ordinal: nat): Group {
    if ordinal < |Steps(turn)| then Steps(turn)[ordinal] else Group(Coord("", 0), [])
  }

  function InnerOf(plan: Plan, turn: Group, e: CanonicalEvent): seq<Emission> {
    if IsUser(e) then UserDraft(plan, e) else StepOf(plan, turn, StepAt(turn, StepCoord(e).ordinal), e)
  }

  function InnerEmissions(plan: Plan, turn: Group): CanonicalEvent -> seq<Emission> {
    (e: CanonicalEvent) => InnerOf(plan, turn, e)
  }

  function TurnOf(plan: Plan, turn: Group, e: CanonicalEvent): seq<Emission> {
    (if turn.members != [] && turn.members[0] == e then TurnStartOf(plan, turn) else [])
    + InnerOf(plan, turn, e)
    + (if turn.members != [] && Last(turn.members) == e then TurnEndOf(plan, turn) else [])
  }

  function TurnEmissions(plan: Plan, turn: Group): CanonicalEvent -> seq<Emission> {
    (e: CanonicalEvent) => TurnOf(plan, turn, e)
  }

  function TurnAt(plan: Plan, ordinal: nat): Group {
    if ordinal < |plan.turns| then plan.turns[ordinal] else Group(Coord("", 0), [])
  }

  function GroupLedBy(groups: seq<seq<CanonicalEvent>>, e: CanonicalEvent): seq<CanonicalEvent> {
    if groups == [] then []
    else if Last(groups) != [] && Last(groups)[0] == e then Last(groups)
    else GroupLedBy(groups[..|groups| - 1], e)
  }

  /** Everything emitted at the sequence of one event. */
  function BundleOf(plan: Plan, e: CanonicalEvent): seq<Emission> {
    if IsConversation(e) then TurnOf(plan, TurnAt(plan, TurnCoord(e).ordinal), e)
    else if e.kind == Other then GroupDraft(plan, GroupLedBy(plan.groups, e))
    else MetadataDraft(plan, e)
  }

  function Bundle(plan: Plan): CanonicalEvent -> seq<Emission> {
    (e: CanonicalEvent) => BundleOf(plan, e)
  }

  /** One pass over the canonical events, emitting as it goes. */
  function Stream(plan: Plan): seq<Emission> {
    FlatMap(plan.events, Bundle(plan))
  }
}
