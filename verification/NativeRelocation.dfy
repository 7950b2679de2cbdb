/** Projection of native histories: envelopes are renumbered and every reference follows its event. */
module NativeRelocation {
  import opened Outcomes
  import opened Text
  import opened Sequences
  import opened Canonical
  import opened Provenance
  import opened PortableEmission
  import opened PortableRelocation

  // ----- drafts of one event

  function ChunkBlock(tag: ChunkTag, text: string, callId: string, name: Option<string>): Block {
    match tag
    case TextChunks => TextBlock(text)
    case ReasoningChunks => ReasoningBlock(text)
    case ToolCallChunks => ToolCallBlock(callId, OrElse(name, ""), text)
  }

  predicate WellPacked(raw: RawPayload) {
    raw.Packed? && raw.payload != [] && |raw.deltas| == |raw.payload| - 1
  }

  function ChunkRow(raw: RawPayload, sequence: int, index: nat): Row
    requires WellPacked(raw) && index < |raw.payload|
  {
    Row(AssistantChunk, sequence + index, TimeAt(raw.time, raw.deltas, index),
        RowData(Some(raw.turn), Some(raw.step), None,
                Some(Message(None, [ChunkBlock(raw.tag, raw.payload[index], raw.callId, raw.name)], NoSource)),
                    OpaqueDetail("chunk")),
        false, None, NoSurface)
  }

  function ChunkDraft(raw: RawPayload, sequence: int, index: nat): Emission
    requires WellPacked(raw) && index < |raw.payload|
  {
    Emission(sequence, 0, ChunkRow(raw, sequence, index), [sequence + index], None)
  }

  function ChunkDrafts(raw: RawPayload, sequence: int): (r: seq<Emission>)
    requires WellPacked(raw)
    ensures |r| == |raw.payload|
    ensures forall i :: 0 <= i < |r| ==> r[i] == ChunkDraft(raw, sequence, i)
  {
    seq(|raw.payload|, i requires 0 <= i < |raw.payload| => ChunkDraft(raw, sequence, i))
  }

  /** Expands a packed row member by member, keeping the running time. */
  method PackedStorageEvents(raw: RawPayload, sequence: int) returns (r: Result<seq<Emission>>)
    requires raw.Packed?
    ensures r.Ok? <==> WellPacked(raw)
    ensures r.Ok? ==> r.value == ChunkDrafts(raw, sequence)
  {
    if |raw.payload| == 0 || |raw.deltas| != |raw.payload| - 1 {
      return Err("malformed canonical storage row");
    }
    var output: seq<Emission> := [];
    var time := raw.time;
    for index := 0 to |raw.payload|
      invariant output == ChunkDrafts(raw, sequence)[..index]
      invariant time == TimeAt(raw.time, raw.deltas, if index == 0 then 0 else index - 1)
    {
      if index > 0 {
        time := time + raw.deltas[index - 1];
      }
      var row := Row(AssistantChunk, sequence + index, time,
                     RowData(Some(raw.turn), Some(raw.step), None,
                             Some(Message(None, [ChunkBlock(raw.tag, raw.payload[index], raw.callId, raw.name)],
                                 NoSource)), OpaqueDetail("chunk")),
                     false, None, NoSurface);
      output := output + [Emission(sequence, 0, row, [sequence + index], None)];
    }
    return Ok(output);
  }

  function EnvelopeRow(e: CanonicalEvent): Row
    requires e.raw.Envelope?
  {
    var raw := e.raw;
    Row(raw.kind, e.sequence, raw.time, raw.data, raw.ignorable || (IsDetail(raw.kind) && raw.surface.NoSurface?),
        if raw.provenance.Some? then Some(FlatMap(raw.provenance.value, ExpandAll())) else None, raw.surface)
  }

  /** The row synthesized for an event without an envelope. */
  function SynthesizedRow(createdAt: int, e: CanonicalEvent): Row {
    match e.kind
    case UserMessage => UserRow(createdAt, e).(seqNumber := e.sequence)
    case AssistantMessage =>
      Row(AssistantMessageRow, e.sequence, createdAt + e.sequence,
          RowData(Some(OrElse(e.content.message.turn, 0)), Some(OrElse(e.content.message.step, 0)), None,
                  Some(Message(Some(MessageIdOf(e)), MessageBlocks(e), AssistantSource([e]))), NoDetail),
          false, None, Append)
    case ToolCall => CallRow(createdAt, 0, 0, e).(seqNumber := e.sequence)
    case ToolResult => ResultRow(createdAt, 0, 0, e).(seqNumber := e.sequence)
    case Reasoning => Row(Extension("maintenance/reasoning"), e.sequence, createdAt + e.sequence,
                          RowData(None, None, None, None, Summary(e.content)), true, None, NoSurface)
    case Metadata(name) => Row(Extension("maintenance/" + name), e.sequence, createdAt + e.sequence,
                               RowData(None, None, None, None, Summary(e.content)), true, None, NoSurface)
    case Other => Row(Extension("maintenance/other"), e.sequence, createdAt + e.sequence,
                      RowData(None, None, None, None, Summary(e.content)), true, None, NoSurface)
  }

  /** The assistant message inserted before a synthesized tool call. */
  function InsertedMessage(createdAt: int, e: CanonicalEvent): Row {
    var tool := e.content.tool;
    Row(AssistantMessageRow, e.sequence, createdAt + e.sequence,
        RowData(Some(0), Some(0), None,
                Some(Message(Some(e.id + ":assistant-tool-call"),
                             [ToolCallBlock(CallIdOf(e), OrElse(NonEmptyString(tool.name), "codex-tool"),
                                 OrElse(tool.arguments, ""))], IMPORTED)), NoDetail),
        false, None, Append)
  }

  predicate ReadableNative(e: CanonicalEvent) {
    e.kind == Other
    || (e.raw.Packed? && WellPacked(e.raw))
    || (e.raw.Envelope? && (e.raw.provenance.Some? ==> Decodes(e.raw.provenance.value, e.sequence)))
    || e.raw.NoRaw?
  }

  function NativeDraftsOf(createdAt: int, e: CanonicalEvent): seq<Emission> {
    if e.kind != Other && e.raw.Packed? then
      if WellPacked(e.raw) then ChunkDrafts(e.raw, e.sequence) else []
    else if e.kind != Other && e.raw.Envelope? then
      [Emission(e.sequence, 0, EnvelopeRow(e), [e.sequence], None)]
    else if e.kind == ToolCall then
      [Emission(e.sequence, 0, InsertedMessage(createdAt, e), [], None),
       Emission(e.sequence, 0, SynthesizedRow(createdAt, e), [e.sequence], None)]
    else
      [Emission(e.sequence, 0, SynthesizedRow(createdAt, e), [e.sequence], if e.kind == ToolResult
          then Some(CallIdOf(e)) else None)]
  }

  function NativeDrafts(createdAt: int): CanonicalEvent -> seq<Emission> {
    (e: CanonicalEvent) => NativeDraftsOf(createdAt, e)
  }

  function Drafts(events: seq<CanonicalEvent>, createdAt: int): seq<Emission> {
    FlatMap(events, NativeDrafts(createdAt))
  }

  // ----- relocation

  predicate OneOrigin(x: Emission) {
    |x.origins| <= 1
  }

  /** Origins strictly increase over the drafts that have one. */
  predicate OriginsIncrease(drafts: seq<Emission>) {
    && (forall i :: 0 <= i < |drafts| && drafts[i].origins != [] ==> 0 <= drafts[i].origins[0])
    && forall i, j :: 0 <= i < j < |drafts| && drafts[i].origins != [] && drafts[j].origins != []
         ==> drafts[i].origins[0] < drafts[j].origins[0]
  }

  predicate Sourced(drafts: seq<Emission>, x: Emission) {
    x.row.sourceSeqs.Some? ==> forall s :: s in x.row.sourceSeqs.value ==> OriginIndex(drafts, s).Some?
  }

  function OrphanRow(x: Emission, position: nat): Row
    requires x.resultCallId.Some?
  {
    Row(Extension("maintenance/orphan-tool-result"), position, x.row.time,
        RowData(None, None, x.resultCallId, x.row.data.message, OpaqueDetail("missing-correlated-tool-call")), true,
            None, NoSurface)
  }

  function RelocateNative(drafts: seq<Emission>, x: Emission, position: nat): Row {
    if x.resultCallId.Some? then
      match CallIndex(drafts, x.resultCallId.value)
      case None => OrphanRow(x, position)
      case Some(call) =>
          x.row.(seqNumber := position, sourceSeqs := Some([call]), surface := Rebased(drafts, x.row.surface))
    else
      x.row.(seqNumber := position,
             sourceSeqs := if x.row.sourceSeqs.Some? then Some(Map(x.row.sourceSeqs.value, MovedSeqs(drafts)))
                 else None,
             surface := Rebased(drafts, x.row.surface))
  }

  function NativeRows(drafts: seq<Emission>): (r: seq<Row>)
    ensures |r| == |drafts|
    ensures forall i :: 0 <= i < |r| ==> r[i] == RelocateNative(drafts, drafts[i], i)
  {
    seq(|drafts|, i requires 0 <= i < |drafts| => RelocateNative(drafts, drafts[i], i))
  }

  predicate Relocates(drafts: seq<Emission>) {
    OriginsIncrease(drafts) && forall i :: 0 <= i < |drafts| ==> Sourced(drafts, drafts[i])
  }

  predicate NativeCompilable(events: seq<CanonicalEvent>, createdAt: int) {
    (forall e :: e in events ==> ReadableNative(e)) && Relocates(Drafts(events, createdAt))
  }

  // ----- the passes of the source

  method CollectDrafts(events: seq<CanonicalEvent>, createdAt: int) returns (r: Result<seq<Emission>>)
    ensures r.Ok? <==> forall e :: e in events ==> ReadableNative(e)
    ensures r.Ok? ==> r.value == Drafts(events, createdAt)
  {
    var drafts: seq<Emission> := [];
    for i := 0 to |events|
      invariant drafts == FlatMap(events[..i], NativeDrafts(createdAt))
      invariant forall k :: 0 <= k < i ==> ReadableNative(events[k])
    {
      var event := events[i];
      assert event in events;
      assert events[..i + 1][..i] == events[..i] && Last(events[..i + 1]) == event;
      if event.kind != Other && event.raw.Packed? {
        var packed := PackedStorageEvents(event.raw, event.sequence);
        if packed.Err? {
          return packed;
        }
        drafts := drafts + packed.value;
      } else {
        if event.kind != Other && event.raw.Envelope? && event.raw.provenance.Some? {
          var decoded := DecodeSourceEventSeqs(event.raw.provenance.value, event.sequence);
          if decoded.Err? {
            return Err(decoded.fault);
          }
        }
        drafts := drafts + NativeDraftsOf(createdAt, event);
      }
    }
    assert events[..|events|] == events;
    return Ok(drafts);
  }

  method CheckOrigins(drafts: seq<Emission>) returns (r: Result<()>)
    ensures r.Ok? <==> OriginsIncrease(drafts)
  {
    var previousOrigin := -1;
    for i := 0 to |drafts|
      invariant OriginsIncrease(drafts[..i])
      invariant previousOrigin >= -1
      invariant previousOrigin == -1 || exists k :: 0 <= k < i && drafts[k].origins != []
                                         && drafts[k].origins[0] == previousOrigin
      invariant forall k :: 0 <= k < i && drafts[k].origins != [] ==> drafts[k].origins[0] <= previousOrigin
    {
      if drafts[i].origins != [] {
        if drafts[i].origins[0] <= previousOrigin {
          return Err("event sequence is not strictly increasing");
        }
        previousOrigin := drafts[i].origins[0];
      }
    }
    assert drafts[..|drafts|] == drafts;
    return Ok(());
  }

  /** Renumbers a native history. */
  method MaterializeNativeEnvelopeEvents(events: seq<CanonicalEvent>, createdAt: int) returns (r: Result<seq<Row>>)
    ensures r.Ok? <==> NativeCompilable(events, createdAt)
    ensures r.Ok? ==> r.value == NativeRows(Drafts(events, createdAt))
  {
    var drafts :- CollectDrafts(events, createdAt);
    var _ :- CheckOrigins(drafts);
    var sequenceMap, callSequenceById := IndexDrafts(drafts);
    var rows: seq<Row> := [];
    for i := 0 to |drafts|
      invariant |rows| == i
      invariant forall k :: 0 <= k < i ==> Sourced(drafts, drafts[k]) && rows[k] == RelocateNative(drafts, drafts[k], k)
    {
      var x := drafts[i];
      var sourceSeqs: Option<seq<int>> := None;
      if x.row.sourceSeqs.Some? {
        var moved :- RelocateSeqs(x.row.sourceSeqs.value, drafts, sequenceMap);
        sourceSeqs := Some(moved);
      }
      if x.resultCallId.Some? {
        if x.resultCallId.value !in callSequenceById {
          rows := rows + [OrphanRow(x, i)];
        } else {
          rows := rows
              + [x.row.(seqNumber := i, sourceSeqs := Some([callSequenceById[x.resultCallId.value]]),
              surface := RebaseSurfaceOp(x.row.surface, sequenceMap))];
        }
      } else {
        rows := rows
            + [x.row.(seqNumber := i, sourceSeqs := sourceSeqs,
            surface := RebaseSurfaceOp(x.row.surface, sequenceMap))];
      }
    }
    return Ok(rows);
  }
}
