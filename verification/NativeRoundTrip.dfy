/** Capturing a native history and projecting it again gives the history back; renumbering keeps every reference. */
module NativeRoundTrip {
  import opened Outcomes
  import opened Sequences
  import opened Canonical
  import opened Provenance
  import opened SessionInvariants
  import opened PortableEmission
  import opened PortableRelocation
  import opened NativeRelocation

  // ----- renumbering is an order isomorphism

  ghost predicate SingleOrigins(drafts: seq<Emission>) {
    forall k :: 0 <= k < |drafts| ==> OneOrigin(drafts[k])
  }

  lemma SameOrigin(drafts: seq<Emission>, p: nat, i: nat)
    requires OriginsIncrease(drafts) && p < |drafts| && i < |drafts|
    requires drafts[p].origins != [] && drafts[i].origins != [] && drafts[p].origins[0] == drafts[i].origins[0]
    ensures p == i
  {
  }

  lemma OnlyOrigin(x: Emission, origin: int)
    requires OneOrigin(x) && origin in x.origins
    ensures x.origins == [origin]
  {
  }

  lemma OriginFoundAt(drafts: seq<Emission>, i: nat)
    requires OriginsIncrease(drafts) && i < |drafts| && SingleOrigins(drafts) && drafts[i].origins != []
    ensures OriginIndex(drafts, drafts[i].origins[0]) == Some(i)
  {
    var origin := drafts[i].origins[0];
    assert origin in drafts[i].origins;
    var p := OriginIndex(drafts, origin).value;
    OnlyOrigin(drafts[p], origin);
    SameOrigin(drafts, p, i);
  }

  lemma {:induction false} DraftsSingle(events: seq<CanonicalEvent>, createdAt: int)
    ensures SingleOrigins(Drafts(events, createdAt))
  {
    if events != [] {
      DraftsSingle(events[..|events| - 1], createdAt);
    }
  }

  /**
   * New positions order the represented events as their old sequences did, and each old sequence leads to its own row.
   */
  lemma RenumberingIsOrderIsomorphism(events: seq<CanonicalEvent>, createdAt: int, i: nat, j: nat)
    requires NativeCompilable(events, createdAt)
    requires i < |Drafts(events, createdAt)| && j < |Drafts(events, createdAt)|
    requires Drafts(events, createdAt)[i].origins != [] && Drafts(events, createdAt)[j].origins != []
    ensures var drafts := Drafts(events, createdAt);
            && (drafts[i].origins[0] < drafts[j].origins[0] <==> i < j)
            && MovedSeq(drafts, drafts[i].origins[0]) == i
            && NativeRows(drafts)[i].seqNumber == i
  {
    DraftsSingle(events, createdAt);
    OriginFoundAt(Drafts(events, createdAt), i);
  }

  /** A relocated reference names the row of the event it named before; inserted rows are never named. */
  lemma ReferencesFollowEvents(events: seq<CanonicalEvent>, createdAt: int, i: nat, k: nat)
    requires NativeCompilable(events, createdAt)
    requires i < |Drafts(events, createdAt)|
    requires var x := Drafts(events, createdAt)[i];
            x.resultCallId.None? && x.row.sourceSeqs.Some? && k < |x.row.sourceSeqs.value|
    ensures var drafts := Drafts(events, createdAt);
            var row := NativeRows(drafts)[i];
            && row.sourceSeqs.Some? && k < |row.sourceSeqs.value|
            && 0 <= row.sourceSeqs.value[k] < |drafts|
            && drafts[row.sourceSeqs.value[k]].origins == [drafts[i].row.sourceSeqs.value[k]]
  {
    hide Drafts, FlatMap, CallIndex;
    DraftsSingle(events, createdAt);
    var drafts := Drafts(events, createdAt);
    var x := drafts[i];
    var s := x.row.sourceSeqs.value[k];
    assert s in x.row.sourceSeqs.value;
    assert Sourced(drafts, x);
  }

  /** A bound moves with the event it names, and stays when it names none. */
  ghost predicate BoundFollows(drafts: seq<Emission>, before: Option<int>, after: Option<int>) {
    && (forall p :: 0 <= p < |drafts| && before.Some? && drafts[p].origins == [before.value] ==> after == Some(p))
    && ((forall p :: 0 <= p < |drafts| ==> before.None? || drafts[p].origins != [before.value]) ==> after == before)
  }

  lemma MovedBoundFollows(drafts: seq<Emission>, bound: Option<int>)
    requires OriginsIncrease(drafts) && SingleOrigins(drafts)
    ensures BoundFollows(drafts, bound, MovedBound(drafts, bound))
  {
    forall p | 0 <= p < |drafts| && bound.Some? && drafts[p].origins == [bound.value]
      ensures MovedBound(drafts, bound) == Some(p)
    {
      OriginFoundAt(drafts, p);
    }
    if bound.Some? && OriginIndex(drafts, bound.value).Some? {
      var p := OriginIndex(drafts, bound.value).value;
      OnlyOrigin(drafts[p], bound.value);
    }
  }

  /** The ends of a replaced range move with their events; an end that names no event stays as it was. */
  lemma ReplacedRangesFollowEvents(events: seq<CanonicalEvent>, createdAt: int, i: nat)
    requires NativeCompilable(events, createdAt)
    requires i < |Drafts(events, createdAt)|
    requires Drafts(events, createdAt)[i].resultCallId.None? && Drafts(events, createdAt)[i].row.surface.Replace?
    ensures var drafts := Drafts(events, createdAt);
            var before, after := drafts[i].row.surface, NativeRows(drafts)[i].surface;
            && after.Replace? && after.body == before.body
            && BoundFollows(drafts, before.start, after.start)
            && BoundFollows(drafts, before.end, after.end)
  {
    var drafts := Drafts(events, createdAt);
    DraftsSingle(events, createdAt);
    MovedBoundFollows(drafts, drafts[i].row.surface.start);
    MovedBoundFollows(drafts, drafts[i].row.surface.end);
  }

  // ----- results and inserted messages

  /**
   * A draft that waits for its call is a result of that call; one without an origin is an inserted assistant message.
   */
  ghost predicate WellDrafted(x: Emission) {
    && (x.resultCallId.Some? ==> x.row.kind == ToolResultRow && AnsweredCall(x.row) == x.resultCallId)
    && (x.origins == [] ==> x.row.kind == AssistantMessageRow && x.resultCallId.None?)
  }

  lemma {:induction false} DraftsWellDrafted(events: seq<CanonicalEvent>, createdAt: int)
    ensures forall x :: x in Drafts(events, createdAt) ==> WellDrafted(x)
  {
    hide ChunkDraft;
    if events != [] {
      DraftsWellDrafted(events[..|events| - 1], createdAt);
      var e := Last(events);
      if e.raw.Packed? && WellPacked(e.raw) {
        ChunksWellDrafted(e.raw, e.sequence);
      }
    }
  }

  lemma ChunksWellDrafted(raw: RawPayload, sequence: int)
    requires WellPacked(raw)
    ensures forall x :: x in ChunkDrafts(raw, sequence) ==> WellDrafted(x)
  {
  }

  lemma {:induction false} LastCall(drafts: seq<Emission>, id: string, k: nat)
    requires k < |drafts| && CarriesCall(drafts[k].row, id)
    ensures CallIndex(drafts, id).Some? && k <= CallIndex(drafts, id).value
  {
    if !CarriesCall(Last(drafts).row, id) {
      LastCall(drafts[..|drafts| - 1], id, k);
    }
  }

  /**
   * A projected result stays a result exactly when a call of its identity was projected, and then names the last such
   * call; otherwise it becomes one ignorable record at the same place.
   */
  lemma ResultsFollowTheirCalls(events: seq<CanonicalEvent>, createdAt: int, i: nat)
    requires i < |Drafts(events, createdAt)| && Drafts(events, createdAt)[i].resultCallId.Some?
    ensures var rows, id := NativeRows(Drafts(events, createdAt)), Drafts(events, createdAt)[i].resultCallId.value;
            && rows[i].seqNumber == i
            && (rows[i].kind == ToolResultRow <==> exists k :: 0 <= k < |rows| && CarriesCall(rows[k], id))
            && (rows[i].kind == ToolResultRow ==>
                  && rows[i].sourceSeqs.Some? && |rows[i].sourceSeqs.value| == 1
                     && 0 <= rows[i].sourceSeqs.value[0] < |rows|
                  && CarriesCall(rows[rows[i].sourceSeqs.value[0]], id) && AnsweredCall(rows[i]) == Some(id)
                  && forall k :: rows[i].sourceSeqs.value[0] < k < |rows| ==> !CarriesCall(rows[k], id))
            && (rows[i].kind != ToolResultRow ==>
                  rows[i].kind == Extension("maintenance/orphan-tool-result") && rows[i].ignorable
                      && rows[i].data.callId == Some(id))
  {
    hide Drafts, NativeRows, WellDrafted, CarriesCall, AnsweredCall;
    DraftsWellDrafted(events, createdAt);
    DraftsFollow(Drafts(events, createdAt), i);
  }

  lemma DraftsFollow(drafts: seq<Emission>, i: nat)
    requires i < |drafts| && drafts[i].resultCallId.Some? && forall x :: x in drafts ==> WellDrafted(x)
    ensures var rows, id := NativeRows(drafts), drafts[i].resultCallId.value;
            && |rows| == |drafts| && rows[i].seqNumber == i
            && (rows[i].kind == ToolResultRow <==> exists k :: 0 <= k < |rows| && CarriesCall(rows[k], id))
            && (rows[i].kind == ToolResultRow ==>
                  && rows[i].sourceSeqs.Some? && |rows[i].sourceSeqs.value| == 1
                     && 0 <= rows[i].sourceSeqs.value[0] < |rows|
                  && CarriesCall(rows[rows[i].sourceSeqs.value[0]], id) && AnsweredCall(rows[i]) == Some(id)
                  && forall k :: rows[i].sourceSeqs.value[0] < k < |rows| ==> !CarriesCall(rows[k], id))
            && (rows[i].kind != ToolResultRow ==>
                  rows[i].kind == Extension("maintenance/orphan-tool-result") && rows[i].ignorable
                      && rows[i].data.callId == Some(id))
  {
    var rows, id := NativeRows(drafts), drafts[i].resultCallId.value;
    assert WellDrafted(drafts[i]);
    forall k | 0 <= k < |rows|
      ensures CarriesCall(rows[k], id) <==> CarriesCall(drafts[k].row, id)
      ensures CarriesCall(rows[k], id) ==> CallIndex(drafts, id).Some? && k <= CallIndex(drafts, id).value
    {
      assert WellDrafted(drafts[k]);
      SameCalls(drafts, k, id);
      if CarriesCall(drafts[k].row, id) {
        LastCall(drafts, id, k);
      }
    }
  }

  lemma SameCalls(drafts: seq<Emission>, k: nat, id: string)
    requires k < |drafts| && WellDrafted(drafts[k])
    ensures CarriesCall(NativeRows(drafts)[k], id) <==> CarriesCall(drafts[k].row, id)
  {
  }

  /** Only assistant messages are inserted, and each stands directly before the call it announces. */
  lemma {:induction false} InsertedMessagesAnnounceCalls(events: seq<CanonicalEvent>, createdAt: int, i: nat)
    requires i < |Drafts(events, createdAt)| && Drafts(events, createdAt)[i].origins == []
    ensures var drafts := Drafts(events, createdAt);
            && i + 1 < |drafts| && drafts[i + 1].row.kind == ToolCallRow && drafts[i + 1].row.data.callId.Some?
            && drafts[i].row.kind == AssistantMessageRow && drafts[i].row.data.message.Some?
            && |drafts[i].row.data.message.value.content| == 1
            && drafts[i].row.data.message.value.content[0].ToolCallBlock?
            && drafts[i].row.data.message.value.content[0].id == drafts[i + 1].row.data.callId.value
            && drafts[i + 1].row.data.detail
               == Invocation(drafts[i].row.data.message.value.content[0].name,
               drafts[i].row.data.message.value.content[0].arguments)
  {
    var init, e := events[..|events| - 1], Last(events);
    var before, own := Drafts(init, createdAt), NativeDraftsOf(createdAt, e);
    assert Drafts(events, createdAt) == before + own;
    if i < |before| {
      InsertedMessagesAnnounceCalls(init, createdAt, i);
      assert Drafts(events, createdAt)[i + 1] == before[i + 1];
    } else {
      assert own[i - |before|].origins == [];
    }
  }

  // ----- capture in native mode

  /** The canonical kind of a native row; None stands for opaque-unknown, which is held out as an other event. */
  function KindOf(kind: RowType): Option<EventKind> {
    match kind
    case UserMessageRow => Some(UserMessage)
    case AssistantMessageRow => Some(AssistantMessage)
    case AssistantChunk => Some(Reasoning)
    case ToolCallRow => Some(ToolCall)
    case ToolResultRow => Some(ToolResult)
    case Extension(name) =>
      if name in NATIVE_METADATA || name == "maintenance/other" then Some(Metadata("system-metadata"))
      else if Contains(name, "annotation") then Some(Metadata("annotation"))
      else if Contains(name, "sticker") then Some(Metadata("sticker"))
      else if Contains(name, "obsidian") || Contains(name, "reference") then Some(Metadata("obsidian-reference"))
      else None
    case _ => Some(Metadata("system-metadata"))
  }

  predicate HeldOut(row: Row) {
    KindOf(row.kind).None?
  }

  function AsSingle(s: int): SeqEntry {
    Single(s)
  }

  function EmptyContent(body: string): Content {
    Content(MessageView(None, None, None, None, NoSource, None, None), None, ToolView(None, None, None, None, false),
        body)
  }

  /** The canonical event of one native row. */
  function Capture(idOf: int -> string): Row -> CanonicalEvent {
    (row: Row) =>
      if HeldOut(row) then
        CanonicalEvent(idOf(row.seqNumber), row.seqNumber, Other, None, EmptyContent("unsupported-source-event"), NoRaw)
      else
        CanonicalEvent(idOf(row.seqNumber), row.seqNumber, KindOf(row.kind).value, None, EmptyContent("data"),
                       Envelope(row.kind, row.time, row.data, row.ignorable,
                                if row.sourceSeqs.Some? then Some(Map(row.sourceSeqs.value, AsSingle))
                                    else None, row.surface))
  }

  function Captured(rows: seq<Row>, idOf: int -> string): seq<CanonicalEvent> {
    Map(rows, Capture(idOf))
  }

  method NormalizeRc1Append(rows: seq<Row>, idOf: int -> string)
      returns (events: seq<CanonicalEvent>, heldOutTypes: seq<RowType>)
    ensures events == Captured(rows, idOf)
    ensures forall kind :: kind in heldOutTypes <==> exists row :: row in rows && HeldOut(row) && row.kind == kind
  {
    events := [];
    heldOutTypes := [];
    for i := 0 to |rows|
      invariant events == Captured(rows[..i], idOf)
      invariant forall kind :: kind in heldOutTypes
                 <==> exists k :: 0 <= k < i && HeldOut(rows[k]) && rows[k].kind == kind
    {
      var row := rows[i];
      if HeldOut(row) {
        heldOutTypes := heldOutTypes + [row.kind];
      }
      events := events + [Capture(idOf)(row)];
    }
    assert rows[..|rows|] == rows;
  }

  // ----- the round trip

  predicate Dense(rows: seq<Row>) {
    forall i :: 0 <= i < |rows| ==> rows[i].seqNumber == i
  }

  /** Provenance the projection can read back: no more entries than earlier positions, and all naming existing rows. */
  predicate WellSourced(rows: seq<Row>, row: Row) {
    !HeldOut(row) && row.sourceSeqs.Some? ==>
      && |row.sourceSeqs.value| <= (if row.sourceSeqs.value == [] then 0 else row.seqNumber)
      && forall s :: s in row.sourceSeqs.value ==> 0 <= s < |rows|
  }

  /**
   * A row as it comes back: itself, with the ignorable marker repaired, or one ignorable record for an unknown type.
   */
  function Restored(createdAt: int, row: Row): Row {
    if HeldOut(row) then
      Row(Extension("maintenance/other"), row.seqNumber, createdAt + row.seqNumber,
          RowData(None, None, None, None, Summary(EmptyContent("unsupported-source-event"))), true, None, NoSurface)
    else row.(ignorable := row.ignorable || (IsDetail(row.kind) && row.surface.NoSurface?))
  }

  function CapturedDraft(createdAt: int, row: Row): Emission {
    Emission(row.seqNumber, 0, Restored(createdAt, row), [row.seqNumber], None)
  }

  function DraftOfRow(createdAt: int): Row -> Emission {
    (row: Row) => CapturedDraft(createdAt, row)
  }

  lemma {:induction false} SinglesExpand(seqs: seq<int>)
    ensures FlatMap(Map(seqs, AsSingle), ExpandAll()) == seqs
  {
    if seqs != [] {
      var init := seqs[..|seqs| - 1];
      SinglesExpand(init);
      assert Map(seqs, AsSingle)[..|seqs| - 1] == Map(init, AsSingle);
      assert seqs == init + [Last(seqs)];
    }
  }

  lemma {:induction false} SinglesReadable(seqs: seq<int>, eventSeq: int)
    ensures AllReadable(Map(seqs, AsSingle), eventSeq)
            <==> |seqs| <= (if seqs == [] then 0 else eventSeq) && forall s :: s in seqs ==> 0 <= s
  {
    if seqs != [] {
      var init := seqs[..|seqs| - 1];
      SinglesReadable(init, eventSeq);
      SinglesExpand(init);
      var entries := Map(seqs, AsSingle);
      assert entries[..|entries| - 1] == Map(init, AsSingle);
      assert Last(entries) == Single(Last(seqs));
      assert AllReadable(entries, eventSeq)
          <==> AllReadable(Map(init, AsSingle), eventSeq) && Readable(Single(Last(seqs)), |init|, eventSeq);
      assert seqs == init + [Last(seqs)];
      NonNegativeSnoc(init, Last(seqs));
    }
  }

  lemma NonNegativeSnoc(init: seq<int>, last: int)
    ensures (forall s :: s in init + [last] ==> 0 <= s) <==> (forall s :: s in init ==> 0 <= s) && 0 <= last
  {
    assert last in init + [last];
    assert forall s :: s in init ==> s in init + [last];
    assert forall s :: s in init + [last] ==> s in init || s == last;
  }

  lemma SinglesDecode(seqs: seq<int>, eventSeq: int)
    ensures Decodes(Map(seqs, AsSingle), eventSeq)
            <==> |seqs| <= (if seqs == [] then 0 else eventSeq) && forall s :: s in seqs ==> 0 <= s
  {
    SinglesReadable(seqs, eventSeq);
  }

  lemma CapturedDraftsOf(createdAt: int, row: Row, idOf: int -> string)
    ensures NativeDraftsOf(createdAt, Capture(idOf)(row)) == [CapturedDraft(createdAt, row)]
  {
    if row.sourceSeqs.Some? {
      SinglesExpand(row.sourceSeqs.value);
    }
  }

  lemma {:induction false} CapturedDrafts(rows: seq<Row>, createdAt: int, idOf: int -> string)
    ensures Drafts(Captured(rows, idOf), createdAt) == Map(rows, DraftOfRow(createdAt))
  {
    if rows != [] {
      var init := rows[..|rows| - 1];
      CapturedDrafts(init, createdAt, idOf);
      assert Captured(rows, idOf)[..|rows| - 1] == Captured(init, idOf);
      CapturedDraftsOf(createdAt, Last(rows), idOf);
    }
  }

  lemma {:induction false} DenseOrigins(drafts: seq<Emission>)
    requires forall i :: 0 <= i < |drafts| ==> drafts[i].origins == [i]
    ensures OriginsIncrease(drafts)
    ensures forall s :: OriginIndex(drafts, s) == if 0 <= s < |drafts| then Some(s) else None
  {
    if drafts != [] {
      DenseOrigins(drafts[..|drafts| - 1]);
    }
  }

  lemma CapturedSourced(rows: seq<Row>, createdAt: int, idOf: int -> string, i: nat)
    requires Dense(rows) && i < |rows|
    ensures ReadableNative(Capture(idOf)(rows[i]))
            && Sourced(Map(rows, DraftOfRow(createdAt)), CapturedDraft(createdAt, rows[i]))
            <==> WellSourced(rows, rows[i])
  {
    DenseOrigins(Map(rows, DraftOfRow(createdAt)));
    if rows[i].sourceSeqs.Some? {
      SinglesDecode(rows[i].sourceSeqs.value, i);
    }
  }

  /** A captured history projects again exactly when its provenance is well formed. */
  lemma CapturedCompilable(rows: seq<Row>, createdAt: int, idOf: int -> string)
    requires Dense(rows)
    ensures NativeCompilable(Captured(rows, idOf), createdAt) <==> forall row :: row in rows ==> WellSourced(rows, row)
  {
    var events, drafts := Captured(rows, idOf), Map(rows, DraftOfRow(createdAt));
    CapturedDrafts(rows, createdAt, idOf);
    DenseOrigins(drafts);
    forall i | 0 <= i < |rows|
      ensures ReadableNative(events[i]) && Sourced(drafts, drafts[i]) <==> WellSourced(rows, rows[i])
    {
      CapturedSourced(rows, createdAt, idOf, i);
    }
    assert (forall e :: e in events ==> ReadableNative(e)) <==> forall i :: 0 <= i < |events|
                                                                 ==> ReadableNative(events[i]);
  }

  lemma DenseRelocation(drafts: seq<Emission>, x: Emission, i: nat)
    requires forall k :: 0 <= k < |drafts| ==> drafts[k].origins == [k]
    requires i < |drafts| && x.resultCallId.None? && x.row.seqNumber == i && Sourced(drafts, x)
    ensures RelocateNative(drafts, x, i) == x.row
  {
    DenseOrigins(drafts);
    if x.row.sourceSeqs.Some? {
      var seqs := x.row.sourceSeqs.value;
      forall k | 0 <= k < |seqs|
        ensures MovedSeqs(drafts)(seqs[k]) == seqs[k]
      {
        assert seqs[k] in seqs;
      }
      assert Map(seqs, MovedSeqs(drafts)) == seqs;
    }
  }

  /**
   * Capturing a dense native history and projecting it again is the identity, up to the ignorable marker and the rows
   * of unknown types, each of which comes back as one ignorable row at its own index.
   */
  lemma NativeRoundTrip(rows: seq<Row>, createdAt: int, idOf: int -> string)
    requires Dense(rows) && forall row :: row in rows ==> WellSourced(rows, row)
    ensures var projected := NativeRows(Drafts(Captured(rows, idOf), createdAt));
            && |projected| == |rows|
            && forall i :: 0 <= i < |rows| ==> projected[i] == Restored(createdAt, rows[i])
  {
    CapturedDrafts(rows, createdAt, idOf);
    var drafts := Map(rows, DraftOfRow(createdAt));
    forall i | 0 <= i < |rows|
      ensures RelocateNative(drafts, drafts[i], i) == Restored(createdAt, rows[i])
    {
      CapturedSourced(rows, createdAt, idOf, i);
      DenseRelocation(drafts, drafts[i], i);
    }
  }

  // ----- acceptance carries over

  lemma {:induction false} RestoredLifecycle(rows: seq<Row>, restored: seq<Row>, createdAt: int)
    requires |rows| == |restored| && forall i :: 0 <= i < |rows| ==> restored[i] == Restored(createdAt, rows[i])
    ensures AdvanceAll(Ok(FRESH), restored) == AdvanceAll(Ok(FRESH), rows)
  {
    if rows != [] {
      RestoredLifecycle(rows[..|rows| - 1], restored[..|rows| - 1], createdAt);
      var row := Last(rows);
      assert Last(restored) == Restored(createdAt, row);
      assert HeldOut(row) ==> row.kind.Extension?;
    }
  }

  /** The session checker gives the projected history the verdict it gave the captured one. */
  lemma AcceptanceCarriesOver(rows: seq<Row>, createdAt: int, idOf: int -> string)
    requires Dense(rows) && forall row :: row in rows ==> WellSourced(rows, row)
    ensures Accepted(NativeRows(Drafts(Captured(rows, idOf), createdAt))) <==> Accepted(rows)
  {
    NativeRoundTrip(rows, createdAt, idOf);
    var projected := NativeRows(Drafts(Captured(rows, idOf), createdAt));
    RestoredLifecycle(rows, projected, createdAt);
  }
}
