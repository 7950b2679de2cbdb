/** Canonical conversation events (MCSF v1) as the RC1 adapter reads them, and the RC1 rows it writes. */
module Canonical {
  import opened Outcomes
  import opened Text

  datatype EventKind =
    | UserMessage
    | Reasoning
    | AssistantMessage
    | ToolCall
    | ToolResult
    | Other
    | Metadata(name: string) // annotation, sticker, obsidian-reference, attachment, system-metadata, opaque-unknown

  datatype Phase = UserPhase | ReasoningPhase | AssistantPhase | ToolCallPhase | ToolResultPhase

  datatype Coord = Coord(id: string, ordinal: nat)

  /** The topology extension; step identity and step ordinal are both null or both present. */
  datatype Topology = Topology(turn: Coord, step: Option<Coord>, phase: Phase)

  datatype Block =
    | TextBlock(text: string)
    | ReasoningBlock(text: string)
    | ToolCallBlock(id: string, name: string, arguments: string)
    | ToolResultBlock(toolCallId: string, text: string, isError: bool)
    | OpaqueBlock(body: string)

  datatype Source =
    | NoSource
    | UserSource
    | ModelSource(provider: string, model: string)
    | ToolSource(callId: Option<string>)

  /** The message view of an event's content: content.message when it is a record, else content itself. */
  datatype MessageView = MessageView(
    id: Option<string>,
    blocks: Option<seq<Block>>,
    text: Option<string>,
    attachmentText: Option<string>,
    source: Source,
    turn: Option<int>, // coordinates of an assistant message kept in its envelope
    step: Option<int>)

  /** The tool view of an event's content. */
  datatype ToolView = ToolView(
    callId: Option<string>,
    name: Option<string>,
    arguments: Option<string>,
    outputText: Option<string>,
    isError: bool)

  datatype Content = Content(message: MessageView, bareText: Option<string>, tool: ToolView, body: string)

  datatype CanonicalEvent = CanonicalEvent(
    id: string,
    sequence: int,
    kind: EventKind,
    topology: Option<Topology>, // None when the extension is absent or malformed
    content: Content,
    raw: RawPayload)

  // ----- rows of an RC1 session

  datatype RowType =
    | TurnStart
    | TurnEnd
    | StepStart
    | StepEnd
    | UserMessageRow
    | AssistantChunk
    | AssistantMessageRow
    | ToolCallRow
    | ToolResultRow
    | RequestHeader
    | RequestContext
    | EndSeed
    | Extension(name: string)

  datatype SurfaceOp =
    | NoSurface
    | Append
    | Replace(start: Option<int>, end: Option<int>, body: string)
    | OpaqueSurface(body: string)

  datatype Message = Message(id: Option<string>, content: seq<Block>, source: Source)

  datatype Detail =
    | NoDetail
    | Invocation(name: string, arguments: string)
    | Evidence(reason: string, callId: Option<string>, eventId: string, content: Content)
    | Summary(content: Content)
    | Grouping(items: seq<(string, int)>)
    | OpaqueDetail(body: string)

  /** Row data: the fields the checker and the resolver read, and everything else. */
  datatype RowData = RowData(
    turn: Option<int>,
    step: Option<int>,
    callId: Option<string>,
    message: Option<Message>,
    detail: Detail)

  datatype Row = Row(
    kind: RowType,
    seqNumber: int,
    time: int,
    data: RowData,
    ignorable: bool,
    sourceSeqs: Option<seq<int>>,
    surface: SurfaceOp)

  /** Provenance as stored: single sequences and inclusive ranges. */
  datatype SeqEntry = Single(value: int) | Range(start: int, end: int) | BadEntry

  datatype ChunkTag = TextChunks | ReasoningChunks | ToolCallChunks

  /**
   * rawPayload: absent, an RC1 event envelope, or a packed row of streamed chunks (which may carry a sequence of its
   * own).
   */
  datatype RawPayload =
    | NoRaw
    | Envelope(kind: RowType, time: int, data: RowData, ignorable: bool, provenance: Option<seq<SeqEntry>>,
        surface: SurfaceOp)
    | Packed(tag: ChunkTag, sequenced: bool, time: int, turn: int, step: int, index: int, callId: string,
        name: Option<string>, payload: seq<string>, deltas: seq<int>)

  /** Rows of the runtime that say nothing in the conversation. */
  const NATIVE_METADATA: seq<string> := [
    "session/title", "session/title-llm-request", "model/selection", "permission/preset",
    "sandbox/mode", "approval/policy", "agent/inbox/spliced", "dsh-runtime/detail"]

  // ----- views

  function PhaseOf(kind: EventKind): Option<Phase> {
    match kind
    case UserMessage => Some(UserPhase)
    case Reasoning => Some(ReasoningPhase)
    case AssistantMessage => Some(AssistantPhase)
    case ToolCall => Some(ToolCallPhase)
    case ToolResult => Some(ToolResultPhase)
    case _ => None
  }

  predicate IsConversation(e: CanonicalEvent) {
    PhaseOf(e.kind).Some?
  }

  predicate IsUser(e: CanonicalEvent) {
    e.kind == UserMessage
  }

  /** A conversation event that belongs to a model step. */
  predicate IsModel(e: CanonicalEvent) {
    IsConversation(e) && e.kind != UserMessage
  }

  function TurnCoord(e: CanonicalEvent): Coord {
    if e.topology.Some? then e.topology.value.turn else Coord("", 0)
  }

  function StepCoord(e: CanonicalEvent): Coord {
    if e.topology.Some? && e.topology.value.step.Some? then e.topology.value.step.value else Coord("", 0)
  }

  /** rawEnvelope finds a type, a sequence, a time and data. */
  predicate HasEnvelope(e: CanonicalEvent) {
    e.raw.Envelope? || (e.raw.Packed? && e.raw.sequenced)
  }

  /** A topology is present and its phase agrees with the kind of event. */
  predicate HasTurn(e: CanonicalEvent) {
    e.topology.Some? && Some(e.topology.value.phase) == PhaseOf(e.kind)
  }

  predicate HasStep(e: CanonicalEvent) {
    e.topology.Some? && e.topology.value.step.Some?
  }

  /** The call identifier used to correlate calls and results. */
  function StrictCallId(e: CanonicalEvent): (r: Option<string>)
    ensures r.Some? ==> |r.value| > 0
  {
    match e.content.tool.callId
    case Some(id) => if |id| > 0 then Some(id) else None
    case None => None
  }

  /** The content blocks of a message event; an explicit array is taken as it is, even when empty. */
  function MessageBlocks(e: CanonicalEvent): seq<Block> {
    var message := e.content.message;
    if message.blocks.Some? then message.blocks.value
    else
      var nonBlank := NonEmptyString(message.text);
      var text := if nonBlank.Some? then nonBlank else e.content.bareText;
      var blocks :=
        (if text.Some? then [TextBlock(text.value)] else [])
        + (if message.attachmentText.Some? then [TextBlock(message.attachmentText.value)] else []);
      if blocks != [] then blocks else [TextBlock("")]
  }

  /** The time of a packed member: the start plus the deltas before it. */
  function TimeAt(time: int, deltas: seq<int>, index: nat): int
    requires index <= |deltas|
  {
    if index == 0 then time else TimeAt(time, deltas, index - 1) + deltas[index - 1]
  }

  ghost predicate DistinctIds(events: seq<CanonicalEvent>) {
    forall i, j :: 0 <= i < j < |events| ==> events[i].id != events[j].id
  }

  ghost predicate InOrder(events: seq<CanonicalEvent>) {
    forall i, j :: 0 <= i < j < |events| ==> events[i].sequence < events[j].sequence
  }
}
