/**
 * What each row of a native projection shows: the rows of an event follow those of the events before it, and their
 * fields are the fields of the event or of its stored envelope.
 */
module NativeShown {
  import opened Outcomes
  import opened Text
  import opened Sequences
  import opened Canonical
  import opened PortableEmission
  import opened PortableRelocation
  import opened PortableRows
  import opened NativeRelocation

  /** One row for each chunk of a packed record, two for a call without an envelope, and one otherwise. */
  function RowCount(e: CanonicalEvent): nat {
    if e.kind != Other && e.raw.Packed? then |e.raw.payload| else if e.kind == ToolCall && e.raw.NoRaw? then 2 else 1
  }

  function RowsBefore(events: seq<CanonicalEvent>, i: nat): nat
    requires i <= |events|
  {
    if i == 0 then 0 else RowsBefore(events, i - 1) + RowCount(events[i - 1])
  }

  // ----- what the rows of one event show

  /** What is given, unless it is blank. */
  function Given(value: Option<string>, otherwise: string): string {
    if value.Some? && NonBlank(value.value) then value.value else otherwise
  }

  predicate InStepZero(row: Row) {
    row.data.turn == Some(0) && row.data.step == Some(0)
  }

  /** The chunk of a member, and its time after that of the member before. */
  predicate ShowsChunk(rows: seq<Row>, raw: RawPayload, j: nat)
    requires raw.Packed? && |rows| == |raw.payload| == |raw.deltas| + 1 && j < |rows|
  {
    var row, text := rows[j], raw.payload[j];
    && row.kind == AssistantChunk && !row.ignorable && row.surface == NoSurface
    && row.time == (if j == 0 then raw.time else rows[j - 1].time + raw.deltas[j - 1])
    && row.data.turn == Some(raw.turn) && row.data.step == Some(raw.step) && row.data.message.Some?
    && |row.data.message.value.content| == 1
    && match raw.tag
       case TextChunks => row.data.message.value.content[0] == TextBlock(text)
       case ReasoningChunks => row.data.message.value.content[0] == ReasoningBlock(text)
       case ToolCallChunks => row.data.message.value.content[0] == ToolCallBlock(raw.callId, OrElse(raw.name, ""), text)
  }

  /** A stored envelope comes back as it was; a detail without a surface becomes ignorable. */
  predicate ShowsEnvelope(row: Row, raw: RawPayload)
    requires raw.Envelope?
  {
    && row.kind == raw.kind && row.time == raw.time && row.data == raw.data
    && (row.ignorable <==>
          raw.ignorable || (raw.kind == Extension("dsh-runtime/detail") && raw.surface == NoSurface))
    && (!raw.surface.Replace? ==> row.surface == raw.surface)
  }

  ghost predicate ShowsAssistant(row: Row, e: CanonicalEvent) {
    && row.kind == AssistantMessageRow && row.surface == Append && !row.ignorable && row.data.message.Some?
    && row.data.turn == Some(OrElse(e.content.message.turn, 0))
    && row.data.step == Some(OrElse(e.content.message.step, 0))
    && row.data.message.value.id == Some(Given(e.content.message.id, e.id))
    && SaysOwnContent(e, row.data.message.value.content)
    && row.data.message.value.source
       == if Attributed(e) then e.content.message.source else ModelSource("codex", "imported")
  }

  ghost predicate ShowsUserMessage(row: Row, e: CanonicalEvent) {
    && row.kind == UserMessageRow && row.surface == Append && !row.ignorable && row.data.message.Some?
    && row.data.message.value.id == Some(Given(e.content.message.id, e.id))
    && SaysOwnContent(e, row.data.message.value.content) && row.data.message.value.source == UserSource
  }

  /** A message that announces the call, and the call. */
  predicate ShowsCallPair(message: Row, row: Row, e: CanonicalEvent) {
    var id, name := Given(e.content.tool.callId, e.id), Given(e.content.tool.name, "codex-tool");
    var arguments := OrElse(e.content.tool.arguments, "");
    && message.kind == AssistantMessageRow && message.surface == Append && !message.ignorable && InStepZero(message)
    && message.data.message
       == Some(Message(Some(e.id + ":assistant-tool-call"), [ToolCallBlock(id, name, arguments)],
                 ModelSource("codex", "imported")))
    && row.kind == ToolCallRow && row.surface == NoSurface && !row.ignorable && InStepZero(row)
    && row.data.callId == Some(id) && row.data.message.None? && row.data.detail == Invocation(name, arguments)
  }

  /** The result, or a record of it where no call of its identity was projected. */
  predicate ShowsSingleResult(row: Row, e: CanonicalEvent) {
    var id := Given(e.content.tool.callId, e.id);
    && row.data.message
       == Some(Message(Some(e.id), [ToolResultBlock(id, OrElse(e.content.tool.outputText, ""), e.content.tool.isError)],
                 ToolSource(Some(id))))
    && if row.kind == ToolResultRow then row.surface == Append && !row.ignorable && InStepZero(row)
       else
         && row.kind == Extension("maintenance/orphan-tool-result") && row.surface == NoSurface && row.ignorable
         && row.data.callId == Some(id) && row.data.detail == OpaqueDetail("missing-correlated-tool-call")
  }

  predicate ShowsSummary(row: Row, e: CanonicalEvent) {
    && row.surface == NoSurface && row.ignorable && row.data.detail == Summary(e.content) && row.data.message.None?
    && match e.kind
       case Reasoning => row.kind == Extension("maintenance/reasoning")
       case Metadata(name) => row.kind == Extension("maintenance/" + name)
       case _ => row.kind == Extension("maintenance/other")
  }

  ghost predicate ShowsNative(createdAt: int, rows: seq<Row>, e: CanonicalEvent) {
    && |rows| == RowCount(e)
    && if e.kind != Other && e.raw.Packed? then
         |e.raw.deltas| + 1 == |rows| && forall j :: 0 <= j < |rows| ==> ShowsChunk(rows, e.raw, j)
       else if e.kind != Other && e.raw.Envelope? then ShowsEnvelope(rows[0], e.raw)
       else
         && (forall row :: row in rows ==> row.time == createdAt + e.sequence)
         && match e.kind
            case UserMessage => ShowsUserMessage(rows[0], e)
            case AssistantMessage => ShowsAssistant(rows[0], e)
            case ToolCall => ShowsCallPair(rows[0], rows[1], e)
            case ToolResult => ShowsSingleResult(rows[0], e)
            case _ => ShowsSummary(rows[0], e)
  }

  // ----- the drafts of one event

  function RowOf(x: Emission): Row {
    x.row
  }

  lemma ChunksShow(raw: RawPayload, sequence: int, j: nat)
    requires WellPacked(raw) && j < |raw.payload|
    ensures ShowsChunk(Map(ChunkDrafts(raw, sequence), RowOf), raw, j)
  {
  }

  lemma DraftsShow(createdAt: int, e: CanonicalEvent)
    requires ReadableNative(e)
    ensures ShowsNative(createdAt, Map(NativeDraftsOf(createdAt, e), RowOf), e)
  {
    hide ShowsNative, NativeDraftsOf, WellPacked;
    if e.kind != Other && e.raw.Packed? {
      ChunksHave(createdAt, e);
    } else if e.kind == UserMessage || e.kind == AssistantMessage {
      MessageHas(createdAt, e);
    } else if e.kind == ToolCall || e.kind == ToolResult {
      ToolHas(createdAt, e);
    } else {
      SummaryHas(createdAt, e);
    }
  }

  lemma MessageHas(createdAt: int, e: CanonicalEvent)
    requires (e.kind == UserMessage || e.kind == AssistantMessage) && !e.raw.Packed?
    ensures ShowsNative(createdAt, Map(NativeDraftsOf(createdAt, e), RowOf), e)
  {
    hide MessageBlocks, SaysOwnContent, NonBlank;
    MessageBlocksAre(e);
    var rows := Map(NativeDraftsOf(createdAt, e), RowOf);
    assert |rows| == 1;
    if e.kind == AssistantMessage && e.raw.NoRaw? {
      SourceOfOne(e);
      assert ShowsAssistant(rows[0], e);
    }
  }

  lemma SourceOfOne(e: CanonicalEvent)
    ensures AssistantSource([e])
            == if Attributed(e) then e.content.message.source else ModelSource("codex", "imported")
  {
    assert [e][1..] == [];
  }

  lemma ToolHas(createdAt: int, e: CanonicalEvent)
    requires (e.kind == ToolCall || e.kind == ToolResult) && !e.raw.Packed?
    ensures ShowsNative(createdAt, Map(NativeDraftsOf(createdAt, e), RowOf), e)
  {
    hide NonBlank;
  }

  lemma SummaryHas(createdAt: int, e: CanonicalEvent)
    requires e.kind == Reasoning || e.kind.Metadata? || e.kind == Other
    requires e.kind != Other ==> !e.raw.Packed?
    ensures ShowsNative(createdAt, Map(NativeDraftsOf(createdAt, e), RowOf), e)
  {
  }

  lemma ChunksHave(createdAt: int, e: CanonicalEvent)
    requires e.kind != Other && e.raw.Packed? && WellPacked(e.raw)
    ensures ShowsNative(createdAt, Map(NativeDraftsOf(createdAt, e), RowOf), e)
  {
    hide ShowsChunk;
    forall j | 0 <= j < |e.raw.payload|
      ensures ShowsChunk(Map(ChunkDrafts(e.raw, e.sequence), RowOf), e.raw, j)
    {
      ChunksShow(e.raw, e.sequence, j);
    }
  }

  // ----- the whole

  lemma {:induction false} DraftsBefore(events: seq<CanonicalEvent>, createdAt: int, i: nat)
    requires i <= |events| && forall e :: e in events ==> ReadableNative(e)
    ensures |Drafts(events, createdAt)| == RowsBefore(events, |events|)
    ensures RowsBefore(events, i) <= |Drafts(events, createdAt)|
    ensures Drafts(events, createdAt)[..RowsBefore(events, i)] == Drafts(events[..i], createdAt)
  {
    hide NativeDraftsOf, ReadableNative;
    if events != [] {
      var init, e := events[..|events| - 1], Last(events);
      DraftsShow(createdAt, e);
      var n := if i < |events| then i else |init|;
      DraftsBefore(init, createdAt, n);
      RowsBeforePrefix(events, |init|, n);
      RowsBeforePrefix(events, |init|, |init|);
      assert init[..n] == events[..n];
      if i == |events| {
        assert events[..i] == events;
      }
    }
  }

  lemma {:induction false} RowsBeforePrefix(events: seq<CanonicalEvent>, m: nat, i: nat)
    requires i <= m <= |events|
    ensures RowsBefore(events[..m], i) == RowsBefore(events, i)
  {
    if i > 0 {
      RowsBeforePrefix(events, m, i - 1);
    }
  }

  lemma DraftsSnoc(events: seq<CanonicalEvent>, createdAt: int)
    requires events != []
    ensures Drafts(events, createdAt)
            == Drafts(events[..|events| - 1], createdAt) + NativeDraftsOf(createdAt, Last(events))
  {
  }

  lemma Between(s: seq<Emission>, a: nat, b: nat, before: seq<Emission>, own: seq<Emission>)
    requires a <= b <= |s| && s[..a] == before && s[..b] == before + own
    ensures s[a..b] == own
  {
    assert s[a..b] == s[..b][a..];
    assert |before| == a;
  }

  lemma DraftsAt(events: seq<CanonicalEvent>, createdAt: int, i: nat)
    requires i < |events| && forall e :: e in events ==> ReadableNative(e)
    ensures RowsBefore(events, i) + RowCount(events[i]) <= |Drafts(events, createdAt)|
    ensures Drafts(events, createdAt)[RowsBefore(events, i)..RowsBefore(events, i) + RowCount(events[i])]
            == NativeDraftsOf(createdAt, events[i])
  {
    hide NativeDraftsOf, ReadableNative, Drafts, RowCount;
    DraftsBefore(events, createdAt, i);
    DraftsBefore(events, createdAt, i + 1);
    var more := events[..i + 1];
    assert more[..i] == events[..i] && Last(more) == events[i];
    DraftsSnoc(more, createdAt);
    Between(Drafts(events, createdAt), RowsBefore(events, i), RowsBefore(events, i + 1), Drafts(events[..i], createdAt),
        NativeDraftsOf(createdAt, events[i]));
  }

  /** Renumbering and relocation touch nothing else. */
  lemma RelocationKeeps(drafts: seq<Emission>, x: Emission, position: nat)
    ensures var row := RelocateNative(drafts, x, position);
            && row.time == x.row.time
            && (x.resultCallId.None? ==>
                  && row.kind == x.row.kind && row.data == x.row.data && row.ignorable == x.row.ignorable
                  && (!x.row.surface.Replace? ==> row.surface == x.row.surface))
  {
  }

  ghost predicate IsRelocated(drafts: seq<Emission>, x: Emission, row: Row) {
    exists position: nat :: row == RelocateNative(drafts, x, position)
  }

  lemma RelocatedShow(createdAt: int, drafts: seq<Emission>, own: seq<Emission>, rows: seq<Row>, e: CanonicalEvent)
    requires own == NativeDraftsOf(createdAt, e) && |rows| == |own| && ReadableNative(e)
    requires forall j :: 0 <= j < |own| ==> IsRelocated(drafts, own[j], rows[j])
    ensures ShowsNative(createdAt, rows, e)
  {
    hide RelocateNative, NativeDraftsOf, ReadableNative, ShowsNative;
    DraftsShow(createdAt, e);
    var before := Map(own, RowOf);
    forall j | 0 <= j < |own|
      ensures rows[j].time == before[j].time && (own[j].resultCallId.None? ==> Keeps(before[j], rows[j]))
    {
      assert IsRelocated(drafts, own[j], rows[j]);
      var position: nat :| rows[j] == RelocateNative(drafts, own[j], position);
      RelocationKeeps(drafts, own[j], position);
    }
    OnlyResultsWait(createdAt, e);
    if own != [] && own[0].resultCallId.Some? {
      assert IsRelocated(drafts, own[0], rows[0]);
      var position: nat :| rows[0] == RelocateNative(drafts, own[0], position);
      ResultRelocated(createdAt, drafts, e, position);
      assert rows == [rows[0]];
    } else {
      KeptShows(createdAt, before, rows, e);
    }
  }

  predicate Keeps(before: Row, row: Row) {
    && row.kind == before.kind && row.time == before.time && row.data == before.data
    && row.ignorable == before.ignorable && (!before.surface.Replace? ==> row.surface == before.surface)
  }

  lemma OnlyResultsWait(createdAt: int, e: CanonicalEvent)
    ensures var own := NativeDraftsOf(createdAt, e);
            && (forall x :: x in own && x.resultCallId.Some? ==>
                  own == [x] && e.kind == ToolResult && e.raw.NoRaw?)
  {
  }

  lemma ResultRelocated(createdAt: int, drafts: seq<Emission>, e: CanonicalEvent, position: nat)
    requires e.kind == ToolResult && e.raw.NoRaw?
    ensures ShowsNative(createdAt, [RelocateNative(drafts, NativeDraftsOf(createdAt, e)[0], position)], e)
  {
    hide CallIndex, NonBlank;
  }

  lemma KeptShows(createdAt: int, before: seq<Row>, rows: seq<Row>, e: CanonicalEvent)
    requires ShowsNative(createdAt, before, e) && |rows| == |before|
    requires forall j :: 0 <= j < |rows| ==> Keeps(before[j], rows[j])
    ensures ShowsNative(createdAt, rows, e)
  {
    hide SaysOwnContent, Given;
    if e.kind != Other && e.raw.Packed? {
      forall j | 0 <= j < |rows|
        ensures ShowsChunk(rows, e.raw, j)
      {
        assert ShowsChunk(before, e.raw, j);
      }
    } else {
      assert before[0] in before;
      if |rows| == 2 {
        assert before[1] in before;
      }
    }
  }

  lemma PieceRelocated(drafts: seq<Emission>, start: nat, end: nat)
    requires start <= end <= |drafts|
    ensures var own, rows := drafts[start..end], NativeRows(drafts)[start..end];
            forall j :: 0 <= j < |own| ==> IsRelocated(drafts, own[j], rows[j])
  {
    hide RelocateNative;
    var own, rows := drafts[start..end], NativeRows(drafts)[start..end];
    forall j | 0 <= j < |own|
      ensures IsRelocated(drafts, own[j], rows[j])
    {
      assert rows[j] == RelocateNative(drafts, own[j], start + j);
    }
  }

  /** The rows of each event, in order and without rows between them, show its fields. */
  lemma NativeRowsShow(events: seq<CanonicalEvent>, createdAt: int, i: nat)
    requires NativeCompilable(events, createdAt) && i < |events|
    ensures var rows, start := NativeRows(Drafts(events, createdAt)), RowsBefore(events, i);
            && |rows| == RowsBefore(events, |events|) && start + RowCount(events[i]) <= |rows|
            && ShowsNative(createdAt, rows[start..start + RowCount(events[i])], events[i])
  {
    hide NativeDraftsOf, ReadableNative, RelocateNative, Drafts, Relocates, ShowsNative, RowCount, IsRelocated;
    var drafts := Drafts(events, createdAt);
    DraftsBefore(events, createdAt, i);
    DraftsAt(events, createdAt, i);
    var start, end := RowsBefore(events, i), RowsBefore(events, i) + RowCount(events[i]);
    var own, rows := drafts[start..end], NativeRows(drafts)[start..end];
    PieceRelocated(drafts, start, end);
    RelocatedShow(createdAt, drafts, own, rows, events[i]);
  }
}
