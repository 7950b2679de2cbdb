/**
 * Capture of native rows as canonical events, in native and in portable mode, and the conversion of a natively captured
 * history to portable events. Rows are JSON values here, because the conversion reads into their data.
 */
module PortableCapture {
  import opened Outcomes
  import opened Sequences
  import opened RuntimeArtifact
  import opened ForkBoundary
  import Canonical
  import Json = ExactJson

  /**
   * What the host supplies: JSON.stringify, the content digest, the evidence store if there is one, and the identity
   * and source given to a row by its sequence.
   */
  datatype Keeper = Keeper(
    stringify: Json.Json -> Json.Text,
    digest: Json.Json -> string,
    evidence: Option<Json.Json -> Json.Json>,
    idOf: int -> string,
    sourceOf: int -> Source)

  datatype Mode = Native | Portable

  datatype Event = Event(
    id: string,
    sequence: int,
    source: Source,
    kind: string,
    role: string,
    content: Json.Json,
    digest: string,
    raw: Option<Json.Json>,
    eventType: Option<Json.Text>, // the dshEventType extension
    heldOut: bool,
    portable: bool, // the portableFromRc1 extension
    topology: bool) // whether a topology extension is present

  const CORE: seq<string> := ["user/message", "assistant/message", "tool/call", "tool/result"]

  const CONTROL: seq<string> := [
    "turn/start", "turn/end", "step/start", "step/end", "request/header", "request/context", "session/end-seed"]

  predicate Among(t: Json.Text, names: seq<string>) {
    exists k :: 0 <= k < |names| && t == Units(names[k])
  }

  predicate Named(t: Json.Text, name: string) {
    t == Units(name)
  }

  predicate IsCore(t: Json.Text) {
    Named(t, "user/message") || Named(t, "assistant/message") || Named(t, "tool/call") || Named(t, "tool/result")
  }

  /** Rows that portable histories leave to the evidence store. */
  predicate IsEvidenceOnly(t: Json.Text) {
    Among(t, Canonical.NATIVE_METADATA) || Among(t, CONTROL) || Named(t, "assistant/chunk")
  }

  predicate IsNativeEvent(v: Json.Json) {
    v.Object? && IsString(Get(v, "type")) && IsSafeInteger(Get(v, "seq")) && IsSafeInteger(Get(v, "time"))
        && Has(v, "data")
  }

  function TypeOf(v: Json.Json): Json.Text
    requires IsNativeEvent(v)
  {
    Get(v, "type").value.text
  }

  function SeqOf(v: Json.Json): int
    requires IsNativeEvent(v)
  {
    IntegerOf(Get(v, "seq"))
  }

  function DataOf(v: Json.Json): Json.Json
    requires IsNativeEvent(v)
  {
    Get(v, "data").value
  }

  /** Kind and role of a native row; None for types without a known meaning. */
  function IdentityOf(t: Json.Text): Option<(string, string)> {
    if Among(t, CONTROL) || Among(t, Canonical.NATIVE_METADATA)
        || Named(t, "maintenance/other") then Some(("system-metadata", "system"))
    else if Named(t, "user/message") then Some(("user-message", "user"))
    else if Named(t, "assistant/message") then Some(("assistant-message", "assistant"))
    else if Named(t, "assistant/chunk") then Some(("reasoning", "assistant"))
    else if Named(t, "tool/call") then Some(("tool-call", "assistant"))
    else if Named(t, "tool/result") then Some(("tool-result", "tool"))
    else if Contains(t, Units("annotation")) then Some(("annotation", "system"))
    else if Contains(t, Units("sticker")) then Some(("sticker", "system"))
    else if Contains(t, Units("obsidian"))
        || Contains(t, Units("reference")) then Some(("obsidian-reference", "system"))
    else None
  }

  // ----- portable content

  function NonEmpty(v: Option<Json.Json>): Option<Json.Json> {
    if IsString(v) && v.value.text != [] then v else None
  }

  function First(a: Option<Json.Json>, b: Option<Json.Json>): Option<Json.Json> {
    if a.Some? then a else b
  }

  function Record(v: Option<Json.Json>): Option<Json.Json> {
    if v.Some? && v.value.Object? then v else None
  }

  function Within(v: Option<Json.Json>, key: string): Option<Json.Json> {
    if v.Some? then Get(v.value, key) else None
  }

  predicate IsToolBlock(block: Json.Json) {
    block.Object?
        && (Get(block, "type") == Some(Json.Chars(Units("tool-call")))
        || Get(block, "type") == Some(Json.Chars(Units("tool-result"))))
  }

  predicate StaysSpoken(block: Json.Json) {
    !IsToolBlock(block)
  }

  /** The message of a row; an assistant message without the tool blocks that rows of their own repeat. */
  function MessageContent(v: Json.Json): Json.Json
    requires IsNativeEvent(v)
  {
    var data := DataOf(v);
    if !data.Object? then data
    else
      var message := if Record(Get(data, "message")).Some? then Get(data, "message").value else data;
      if !Named(TypeOf(v), "assistant/message") || Get(message, "content").None?
          || !Get(message, "content").value.Array? then message
      else Json.Object(Replaced(message.fields, Units("content"),
          Json.Array(Filter(Get(message, "content").value.items, StaysSpoken))))
  }

  function BlockText(keeper: Keeper, block: Json.Json): Json.Text {
    if block.Chars? then block.text
    else if !block.Object? then keeper.stringify(block)
    else if IsString(Get(block, "text")) then Get(block, "text").value.text
    else if Get(block, "type") == Some(Json.Chars(Units("image"))) then Units("[DSH 工具图像输出]")
    else keeper.stringify(block)
  }

  function Joined(keeper: Keeper, blocks: seq<Json.Json>): Json.Text {
    if blocks == [] then []
    else if |blocks| == 1 then BlockText(keeper, blocks[0])
    else Joined(keeper, blocks[..|blocks| - 1]) + [10] + BlockText(keeper, Last(blocks))
  }

  function TextFromBlocks(keeper: Keeper, v: Option<Json.Json>): Json.Text {
    match v
    case None => []
    case Some(Chars(text)) => text
    case Some(Array(items)) => Joined(keeper, items)
    case Some(other) => keeper.stringify(other)
  }

  function FirstResult(blocks: seq<Json.Json>): Option<Json.Json> {
    if blocks == [] then None
    else if blocks[0].Object? && Get(blocks[0], "type") == Some(Json.Chars(Units("tool-result"))) then Some(blocks[0])
    else FirstResult(blocks[1..])
  }

  function ToolResultContent(keeper: Keeper, v: Json.Json): Option<Json.Json>
    requires IsNativeEvent(v)
  {
    var data := Record(Some(DataOf(v)));
    var message := Record(Within(data, "message"));
    var source := Record(Within(message, "source"));
    var content := Within(message, "content");
    var block := if content.Some? && content.value.Array? then FirstResult(content.value.items) else None;
    var callId :=
        First(NonEmpty(Within(block, "toolCallId")),
        First(NonEmpty(Within(source, "callId")), NonEmpty(Within(data, "callId"))));
    if data.None? || callId.None? then None
    else
      var meta := Record(Within(data, "meta"));
      var name := First(NonEmpty(Within(meta, "name")), NonEmpty(Within(data, "name")));
      var own := Within(block, "content");
      var output := if own.Some? && !own.value.Null? then own else Within(data, "content");
      var failed := Within(block, "isError") == Some(Json.Boolean(true)) || Within(data, "error").Some?;
      Some(Json.Object(
             [Pair("callId", callId.value), Pair("name", OrElse(name, Json.Chars(Units("dsh-tool")))),
              Pair("protocol", OrElse(NonEmpty(Within(meta, "protocol")), Json.Chars(Units("dsh")))),
              Pair("outputText", Json.Chars(TextFromBlocks(keeper, output)))]
             + if failed then [Pair("isError", Json.Boolean(true))] else []))
  }

  function ToolCallContent(v: Json.Json): Option<Json.Json>
    requires IsNativeEvent(v)
  {
    var data := DataOf(v);
    if NonEmpty(Get(data, "callId")).None? || NonEmpty(Get(data, "name")).None?
        || !IsString(Get(data, "arguments")) then None
    else Some(Json.Object([Pair("callId", Get(data, "callId").value), Pair("name", Get(data, "name").value),
                           Pair("protocol", Json.Chars(Units("dsh"))),
                               Pair("arguments", Get(data, "arguments").value)]))
  }

  /** What a conversation row says, free of its native envelope; None when it is of another type or lacks a field. */
  function CoreContent(keeper: Keeper, v: Json.Json): Option<Json.Json>
    requires IsNativeEvent(v)
  {
    if Named(TypeOf(v), "user/message") || Named(TypeOf(v), "assistant/message") then Some(MessageContent(v))
    else if Named(TypeOf(v), "tool/call") then ToolCallContent(v)
    else if Named(TypeOf(v), "tool/result") then ToolResultContent(keeper, v)
    else None
  }

  lemma {:induction false} LookupReplaced(fields: seq<Json.Field>, key: Json.Text, value: Json.Json)
    requires Lookup(fields, key).Some?
    ensures Lookup(Replaced(fields, key, value), key) == Some(value)
  {
    if fields[0].key != key {
      assert Replaced(fields, key, value)[1..] == Replaced(fields[1..], key, value);
      LookupReplaced(fields[1..], key, value);
    }
  }

  /** A portable assistant message keeps its blocks in order, without those that tool rows repeat. */
  lemma ToolBlocksGone(v: Json.Json)
    requires IsNativeEvent(v) && Named(TypeOf(v), "assistant/message") && DataOf(v).Object?
    requires var message := if Record(Get(DataOf(v), "message")).Some? then Get(DataOf(v), "message").value
            else DataOf(v);
             Get(message, "content").Some? && Get(message, "content").value.Array?
    ensures var message := if Record(Get(DataOf(v), "message")).Some? then Get(DataOf(v), "message").value
            else DataOf(v);
            var kept := Filter(Get(message, "content").value.items, StaysSpoken);
            && Get(MessageContent(v), "content") == Some(Json.Array(kept))
            && forall block :: block in kept <==> block in Get(message, "content").value.items && !IsToolBlock(block)
  {
    hide IsNativeEvent;
    var message := if Record(Get(DataOf(v), "message")).Some? then Get(DataOf(v), "message").value else DataOf(v);
    var items := Get(message, "content").value.items;
    LookupReplaced(message.fields, Units("content"), Json.Array(Filter(items, StaysSpoken)));
    FilterMembership(items, StaysSpoken);
  }

  predicate Malformed(keeper: Keeper, v: Json.Json)
    requires IsNativeEvent(v)
  {
    IsCore(TypeOf(v)) && CoreContent(keeper, v).None?
  }

  /** The card that stands for a row without portable content. */
  function OtherContent(reason: string, t: Json.Text, title: string, summary: Json.Text,
      reference: Json.Json): Json.Json {
    Json.Object([Pair("schemaVersion", AsNumber(1)), Pair("type", Json.Chars(Units("other"))),
        Pair("reason", Json.Chars(Units(reason))),
                 Pair("sourceKind", Json.Chars(Units("dsh-rc1/") + t)), Pair("label", Json.Chars(Units(title))),
                 Pair("summary", Json.Chars(summary)), Pair("evidenceRef", reference)])
  }

  function UnsupportedContent(t: Json.Text, reference: Json.Json): Json.Json {
    OtherContent("unsupported-source-event", t, "未映射的 Rc1 记录",
                 Units("MCSF v1 没有 ") + t + Units(" 的公共语义；该记录仅作为维护卡片展示。"), reference)
  }

  function IsolatedContent(t: Json.Text): Json.Json {
    OtherContent("adapter-evidence", t, "无法安全续写的 RC1 记录",
                 t + Units(" 缺少 RC1 公共字段，已从模型上下文隔离；原始证据仍保留在旧版本。"), Json.Null)
  }

  // ----- capture

  predicate Withheld(keeper: Keeper, mode: Mode, v: Json.Json)
    requires IsNativeEvent(v)
  {
    IdentityOf(TypeOf(v)).None? || (mode.Portable? && (IsEvidenceOnly(TypeOf(v)) || Malformed(keeper, v)))
  }

  function ReferenceOf(keeper: Keeper, v: Json.Json): Json.Json {
    if keeper.evidence.Some? then keeper.evidence.value(v) else Json.Null
  }

  function CaptureOne(keeper: Keeper, mode: Mode, v: Json.Json): seq<Event>
    requires IsNativeEvent(v)
  {
    var t, s := TypeOf(v), SeqOf(v);
    var portable := if mode.Portable? then CoreContent(keeper, v) else None;
    if mode.Portable? && IsEvidenceOnly(t) then []
    else if Withheld(keeper, mode, v) then
      var content := UnsupportedContent(t, ReferenceOf(keeper, v));
      [Event(keeper.idOf(s), s, keeper.sourceOf(s), "other", "unknown", content, keeper.digest(content), None, Some(t),
          true, false, false)]
    else
      var identity, content := IdentityOf(t).value, OrElse(portable, DataOf(v));
      [Event(keeper.idOf(s), s, keeper.sourceOf(s), identity.0, identity.1, content, keeper.digest(content),
             if portable.Some? then None else Some(v), Some(t), false, portable.Some?, false)]
  }

  ghost predicate AllNative(values: seq<Json.Json>) {
    forall i :: 0 <= i < |values| ==> IsNativeEvent(values[i])
  }

  function CaptureAll(keeper: Keeper, mode: Mode, values: seq<Json.Json>): seq<Event>
    requires AllNative(values)
  {
    if values == [] then []
        else CaptureAll(keeper, mode, values[..|values| - 1]) + CaptureOne(keeper, mode, Last(values))
  }

  /** The types of the withheld rows, in order. */
  function HeldOutTypes(keeper: Keeper, mode: Mode, values: seq<Json.Json>): seq<Json.Text>
    requires AllNative(values)
  {
    if values == [] then []
    else
      HeldOutTypes(keeper, mode, values[..|values| - 1])
      + if Withheld(keeper, mode, Last(values)) then [TypeOf(Last(values))] else []
  }

  /** The references under which the withheld rows are stored, in order. */
  function References(keeper: Keeper, mode: Mode, values: seq<Json.Json>): seq<Json.Json>
    requires AllNative(values)
  {
    if values == [] then []
    else
      References(keeper, mode, values[..|values| - 1])
      + if Withheld(keeper, mode, Last(values))
          && keeper.evidence.Some? then [ReferenceOf(keeper, Last(values))] else []
  }

  datatype Appended = Appended(events: seq<Event>, heldOutTypes: seq<Json.Text>, references: seq<Json.Json>)

  /** One row: the event, if any, whether it is held out, and the reference it is stored under. */
  method CaptureRow(keeper: Keeper, mode: Mode, value: Json.Json)
      returns (captured: seq<Event>, heldOut: bool, reference: Json.Json)
    requires IsNativeEvent(value)
    ensures captured == CaptureOne(keeper, mode, value) && heldOut == Withheld(keeper, mode, value)
    ensures heldOut ==> reference == ReferenceOf(keeper, value)
  {
    hide IsNativeEvent, CoreContent, IdentityOf, IsEvidenceOnly, IsCore, UnsupportedContent;
    var t, s, identity := TypeOf(value), SeqOf(value), IdentityOf(TypeOf(value));
    var portable := if mode.Portable? then CoreContent(keeper, value) else None;
    var evidenceOnly := mode.Portable? && IsEvidenceOnly(t);
    heldOut := identity.None? || evidenceOnly || (mode.Portable? && IsCore(t) && portable.None?);
    reference := if heldOut && keeper.evidence.Some? then keeper.evidence.value(value) else Json.Null;
    if evidenceOnly {
      captured := [];
    } else if heldOut {
      var content := UnsupportedContent(t, reference);
      captured := [Event(keeper.idOf(s), s, keeper.sourceOf(s), "other", "unknown", content, keeper.digest(content),
          None, Some(t), true, false, false)];
    } else {
      var content := OrElse(portable, DataOf(value));
      captured := [Event(keeper.idOf(s), s, keeper.sourceOf(s), identity.value.0, identity.value.1, content,
          keeper.digest(content),
                         if portable.Some? then None else Some(value), Some(t), false, portable.Some?, false)];
    }
  }

  method NormalizeAppend(keeper: Keeper, mode: Mode, values: seq<Json.Json>) returns (r: Result<Appended>)
    ensures r.Ok? <==> AllNative(values)
    ensures r.Ok?
            ==> r.value == Appended(CaptureAll(keeper, mode, values), HeldOutTypes(keeper, mode, values),
            References(keeper, mode, values))
  {
    hide IsNativeEvent, CaptureOne, Withheld;
    var events: seq<Event> := [];
    var heldOutTypes: seq<Json.Text> := [];
    var references: seq<Json.Json> := [];
    for i := 0 to |values|
      invariant AllNative(values[..i]) && events == CaptureAll(keeper, mode, values[..i])
      invariant heldOutTypes == HeldOutTypes(keeper, mode, values[..i])
              && references == References(keeper, mode, values[..i])
    {
      var value := values[i];
      assert values[..i + 1][..i] == values[..i] && Last(values[..i + 1]) == value;
      if !IsNativeEvent(value) {
        return Err("Rc1 append contains an invalid SessionEvent envelope");
      }
      var captured, heldOut, reference := CaptureRow(keeper, mode, value);
      if heldOut {
        heldOutTypes := heldOutTypes + [TypeOf(value)];
        if keeper.evidence.Some? {
          references := references + [reference];
        }
      }
      events := events + captured;
    }
    assert values[..|values|] == values;
    return Ok(Appended(events, heldOutTypes, references));
  }

  // ----- conversion of a captured history

  function KeptType(e: Event): Option<Json.Text> {
    if e.raw.Some? && IsNativeEvent(e.raw.value) then Some(TypeOf(e.raw.value)) else e.eventType
  }

  function CoreIdentity(t: Json.Text): (string, string)
    requires IsCore(t)
  {
    if Named(t, "user/message") then ("user-message", "user")
    else if Named(t, "assistant/message") then ("assistant-message", "assistant")
    else if Named(t, "tool/call") then ("tool-call", "assistant")
    else ("tool-result", "tool")
  }

  /** The event with its portable content in place of the envelope. */
  function Spoken(keeper: Keeper, e: Event, t: Json.Text, content: Json.Json): Event
    requires IsCore(t)
  {
    e.(kind := CoreIdentity(t).0, role := CoreIdentity(t).1, content := content, digest := keeper.digest(content),
       raw := None, topology := false, portable := true)
  }

  /** The event as a card, for want of portable content. */
  function Isolated(keeper: Keeper, e: Event, t: Json.Text): Event {
    e.(kind := "other", role := "unknown", content := IsolatedContent(t), digest := keeper.digest(IsolatedContent(t)),
       raw := None, topology := false, portable := true, heldOut := true)
  }

  function PortableOf(keeper: Keeper): Event -> seq<Event> {
    (e: Event) =>
      if KeptType(e).Some? && IsEvidenceOnly(KeptType(e).value) then []
      else if e.raw.None? || !IsNativeEvent(e.raw.value) || !IsCore(TypeOf(e.raw.value)) then [e.(topology := false)]
      else
        var t, portable := TypeOf(e.raw.value), CoreContent(keeper, e.raw.value);
        if portable.Some? then [Spoken(keeper, e, t, portable.value)] else [Isolated(keeper, e, t)]
  }

  function Portableized(keeper: Keeper, events: seq<Event>): seq<Event> {
    FlatMap(events, PortableOf(keeper))
  }

  method PortableizeRc1CanonicalHistory(keeper: Keeper, events: seq<Event>) returns (result: seq<Event>)
    ensures result == Portableized(keeper, events)
  {
    hide CoreContent, IsEvidenceOnly, IsNativeEvent, IsCore, IsolatedContent;
    result := [];
    for i := 0 to |events|
      invariant result == Portableized(keeper, events[..i])
    {
      var event := events[i];
      assert events[..i + 1][..i] == events[..i];
      var eventType := event.eventType;
      var raw := event.raw.Some? && IsNativeEvent(event.raw.value);
      if raw {
        eventType := Some(TypeOf(event.raw.value));
      }
      if eventType.Some? && IsEvidenceOnly(eventType.value) {
        continue;
      }
      if raw && IsCore(TypeOf(event.raw.value)) {
        var portable := CoreContent(keeper, event.raw.value);
        var t := TypeOf(event.raw.value);
        result := result
            + [if portable.Some? then Spoken(keeper, event, t, portable.value) else Isolated(keeper, event, t)];
        continue;
      }
      result := result + [event.(topology := false)];
    }
    assert events[..|events|] == events;
  }

  // ----- the two ways to a portable history

  lemma CoreIsNotEvidence(t: Json.Text)
    requires IsCore(t)
    ensures !IsEvidenceOnly(t) && IdentityOf(t) == Some(CoreIdentity(t))
  {
    assert Units("user/message")[0] == 117 && Units("assistant/message")[0] == 97 && Units("tool/call")[0] == 116
        && Units("tool/result")[0] == 116;
    assert Units("tool/call")[1] == 111 && Units("tool/result")[1] == 111;
    assert Units("turn/start")[1] == 117 && Units("turn/end")[1] == 117;
    assert Units("approval/policy")[1] == 112 && Units("agent/inbox/spliced")[1] == 103;
  }

  lemma EvidenceIsKnown(t: Json.Text)
    requires IsEvidenceOnly(t)
    ensures IdentityOf(t).Some?
  {
  }

  /** One row: both ways keep it under the same identity, and differ only on a malformed conversation row. */
  lemma OneRowAgrees(keeper: Keeper, v: Json.Json)
    requires IsNativeEvent(v)
    ensures var captured, converted := CaptureOne(keeper, Portable, v),
            Portableized(keeper, CaptureOne(keeper, Native, v));
            && |captured| == |converted| <= 1
            && (captured == converted <==> !Malformed(keeper, v))
            && (captured != [] ==>
                  && captured[0].id == converted[0].id
                  && captured[0].kind == converted[0].kind
                  && captured[0].raw == converted[0].raw)
  {
    hide CoreContent, IsNativeEvent, IdentityOf, CoreIdentity, IsEvidenceOnly, UnsupportedContent, IsolatedContent;
    var t := TypeOf(v);
    var native := CaptureOne(keeper, Native, v);
    ConvertedOne(keeper, native[0]);
    assert native == [native[0]];
    if IsCore(t) {
      CoreIsNotEvidence(t);
    } else if IsEvidenceOnly(t) {
      EvidenceIsKnown(t);
    } else {
      OnlyCoreSpeaks(keeper, v);
    }
  }

  lemma OnlyCoreSpeaks(keeper: Keeper, v: Json.Json)
    requires IsNativeEvent(v) && !IsCore(TypeOf(v))
    ensures CoreContent(keeper, v).None?
  {
  }

  lemma ConvertedOne(keeper: Keeper, e: Event)
    ensures Portableized(keeper, [e]) == PortableOf(keeper)(e)
  {
    hide PortableOf;
    assert [e][..0] == [] && Last([e]) == e;
    assert FlatMap([e], PortableOf(keeper)) == [] + PortableOf(keeper)(e);
  }

  predicate SameEvent(captured: Event, converted: Event) {
    captured.id == converted.id && captured.kind == converted.kind && captured.raw == converted.raw
  }

  /**
   * Capturing in portable mode and converting a native capture give events of the same identities and kinds; they give
   * the same history exactly when no conversation row lacks a field.
   */
  lemma {:induction false} CapturesAgree(keeper: Keeper, values: seq<Json.Json>)
    requires AllNative(values)
    ensures var captured, converted := CaptureAll(keeper, Portable, values),
            Portableized(keeper, CaptureAll(keeper, Native, values));
            && |captured| == |converted|
            && (forall i :: 0 <= i < |captured| ==> SameEvent(captured[i], converted[i]))
            && (captured == converted <==> forall v :: v in values ==> !Malformed(keeper, v))
  {
    hide CaptureOne, Malformed, PortableOf;
    if values != [] {
      var init, last := values[..|values| - 1], Last(values);
      assert values == init + [last];
      CapturesAgree(keeper, init);
      OneRowAgrees(keeper, last);
      FlatMapConcat(CaptureAll(keeper, Native, init), CaptureOne(keeper, Native, last), PortableOf(keeper));
      SameEnds(CaptureAll(keeper, Portable, init), CaptureOne(keeper, Portable, last),
               Portableized(keeper, CaptureAll(keeper, Native, init)),
                   Portableized(keeper, CaptureOne(keeper, Native, last)));
    }
  }

  lemma SameEnds(a: seq<Event>, x: seq<Event>, b: seq<Event>, y: seq<Event>)
    requires |a| == |b| && |x| == |y|
    ensures a + x == b + y <==> a == b && x == y
  {
    if a + x == b + y {
      assert a == (a + x)[..|a|] && b == (b + y)[..|a|];
      assert x == (a + x)[|a|..] && y == (b + y)[|a|..];
    }
  }

  /** A valid row of a call that names no call. */
  const NAMELESS_CALL: Json.Json := Json.Object([
    Pair("type", Json.Chars(Units("tool/call"))), Pair("seq", AsNumber(0)), Pair("time", AsNumber(0)),
        Pair("data", Json.Object([]))])

  lemma NamelessCallIsMalformed(keeper: Keeper)
    ensures IsNativeEvent(NAMELESS_CALL) && Malformed(keeper, NAMELESS_CALL)
  {
    var t, n, d := Json.Chars(Units("tool/call")), AsNumber(0), Json.Object([]);
    FourFields(t, n, n, d);
    assert Units("tool/call")[1] == 111 && Units("user/message")[1] == 115 && Units("assistant/message")[1] == 115;
    LookupNone(Units("callId"));
    assert Get(d, "callId") == None;
  }

  /** On that row the two ways to a portable history part. */
  lemma NamelessCallDiffers(keeper: Keeper)
    ensures AllNative([NAMELESS_CALL])
    ensures CaptureAll(keeper, Portable, [NAMELESS_CALL]) != Portableized(keeper,
            CaptureAll(keeper, Native, [NAMELESS_CALL]))
  {
    hide IsNativeEvent, Malformed;
    NamelessCallIsMalformed(keeper);
    CapturesAgree(keeper, [NAMELESS_CALL]);
  }

  // ----- what converted histories are like

  /** No native conversation or control row is left, and no coordinates. */
  predicate Cleared(e: Event) {
    && !e.topology
    && (KeptType(e).Some? ==> !IsEvidenceOnly(KeptType(e).value))
    && (e.raw.Some? && IsNativeEvent(e.raw.value) ==> !IsCore(TypeOf(e.raw.value)))
  }

  lemma ConvertedIsCleared(keeper: Keeper, e: Event)
    requires e.raw.Some? && IsNativeEvent(e.raw.value) && e.eventType.Some? ==> e.eventType == Some(TypeOf(e.raw.value))
    ensures forall r :: r in PortableOf(keeper)(e)
              ==> Cleared(r) && r.source == e.source && r.id == e.id && r.sequence == e.sequence
    ensures |PortableOf(keeper)(e)| <= 1
  {
    hide CoreContent, IsEvidenceOnly, IsNativeEvent, IsolatedContent, IsCore, CoreIdentity;
  }

  lemma ClearedStays(keeper: Keeper, e: Event)
    requires Cleared(e)
    ensures PortableOf(keeper)(e) == [e]
  {
  }

  /** The extension names the type of the row, where both are present. */
  ghost predicate WellTyped(events: seq<Event>) {
    forall e :: e in events && e.raw.Some? && IsNativeEvent(e.raw.value) && e.eventType.Some?
        ==> e.eventType == Some(TypeOf(e.raw.value))
  }

  lemma {:induction false} ConversionClears(keeper: Keeper, events: seq<Event>)
    requires WellTyped(events)
    ensures forall r :: r in Portableized(keeper, events) ==> Cleared(r)
  {
    hide PortableOf, Cleared;
    if events != [] {
      assert events == events[..|events| - 1] + [Last(events)];
      ConversionClears(keeper, events[..|events| - 1]);
      ConvertedIsCleared(keeper, Last(events));
    }
  }

  lemma {:induction false} ClearedHistoryStays(keeper: Keeper, events: seq<Event>)
    requires forall e :: e in events ==> Cleared(e)
    ensures Portableized(keeper, events) == events
  {
    hide PortableOf, Cleared;
    if events != [] {
      assert events == events[..|events| - 1] + [Last(events)];
      ClearedHistoryStays(keeper, events[..|events| - 1]);
      ClearedStays(keeper, Last(events));
    }
  }

  /** Converting twice is converting once. */
  lemma ConversionSettles(keeper: Keeper, events: seq<Event>)
    requires WellTyped(events)
    ensures Portableized(keeper, Portableized(keeper, events)) == Portableized(keeper, events)
  {
    ConversionClears(keeper, events);
    ClearedHistoryStays(keeper, Portableized(keeper, events));
  }

  function SourceOf(e: Event): Source {
    e.source
  }

  lemma {:induction false} ConversionLeavesOut(keeper: Keeper, events: seq<Event>)
    requires WellTyped(events)
    ensures Subsequence(Map(Portableized(keeper, events), SourceOf), Map(events, SourceOf))
  {
    hide PortableOf, Cleared;
    if events != [] {
      var init, last := events[..|events| - 1], Last(events);
      assert events == init + [last];
      ConversionLeavesOut(keeper, init);
      ConvertedIsCleared(keeper, last);
      var whole, part := Map(events, SourceOf), Map(Portableized(keeper, events), SourceOf);
      assert whole[..|whole| - 1] == Map(init, SourceOf);
      if PortableOf(keeper)(last) == [] {
        assert Portableized(keeper, events) == Portableized(keeper, init);
      } else {
        assert part[..|part| - 1] == Map(Portableized(keeper, init), SourceOf);
      }
    }
  }

  lemma {:induction false} IdentitiesLeftOut(part: seq<Source>, whole: seq<Source>)
    requires Identified(whole) && Subsequence(part, whole)
    ensures Identified(part) && Subsequence(Identities(part), Identities(whole))
    decreases |whole|
  {
    if part != [] {
      var init := whole[..|whole| - 1];
      assert Identities(whole)[..|init|] == Identities(init);
      if Last(part) == Last(whole) && Subsequence(part[..|part| - 1], init) {
        IdentitiesLeftOut(part[..|part| - 1], init);
        assert part == part[..|part| - 1] + [Last(part)];
        assert Identities(part)[..|part| - 1] == Identities(part[..|part| - 1]);
      } else {
        IdentitiesLeftOut(part, init);
      }
    }
  }

  /** A history with distinct sources, converted, is a repair within the boundary of the history itself. */
  lemma ConversionStaysWithinBoundary(keeper: Keeper, events: seq<Event>)
    requires WellTyped(events) && Identified(Map(events, SourceOf)) && Distinct(Identities(Map(events, SourceOf)))
    ensures WithinBoundary(Map(events, SourceOf), Map(Portableized(keeper, events), SourceOf))
  {
    ConversionLeavesOut(keeper, events);
    IdentitiesLeftOut(Map(Portableized(keeper, events), SourceOf), Map(events, SourceOf));
  }

  lemma {:induction false} CapturesAreTyped(keeper: Keeper, mode: Mode, values: seq<Json.Json>)
    requires AllNative(values)
    ensures WellTyped(CaptureAll(keeper, mode, values))
  {
    hide CoreContent, IsEvidenceOnly, IsNativeEvent;
    if values != [] {
      CapturesAreTyped(keeper, mode, values[..|values| - 1]);
    }
  }
}
