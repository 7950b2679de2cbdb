/** What capture and conversion make of a native row, told from the fields of the row and of the content alone. */
module CapturedContent {
  import opened Outcomes
  import opened Sequences
  import opened RuntimeArtifact
  import opened StoredRecords
  import opened PortableCapture
  import Canonical
  import Json = ExactJson

  // ----- values

  /** The type is one of these names. */
  ghost predicate IsOneOf(t: Json.Text, names: set<string>) {
    exists name :: name in names && t == Units(name)
  }

  /** The value is a string that is not empty. */
  ghost predicate NamesIt(v: Option<Json.Json>) {
    v.Some? && v.value.Chars? && v.value.text != []
  }

  /** The first of the values that is a string and not empty. */
  ghost predicate IsFirstName(v: Json.Json, candidates: seq<Option<Json.Json>>) {
    exists k :: && 0 <= k < |candidates| && NamesIt(candidates[k]) && candidates[k] == Some(v)
                && forall j :: 0 <= j < k ==> !NamesIt(candidates[j])
  }

  ghost predicate NobodyNames(candidates: seq<Option<Json.Json>>) {
    forall k :: 0 <= k < |candidates| ==> !NamesIt(candidates[k])
  }

  /** A field of an object; nothing when there is no object. */
  ghost function At(v: Option<Json.Json>, key: string): Option<Json.Json> {
    match v case None => None case Some(record) => Get(record, key)
  }

  ghost function ObjectOnly(v: Option<Json.Json>): Option<Json.Json> {
    match v case Some(Object(fields)) => v case _ => None
  }

  // ----- the text of a tool's output

  ghost predicate BlockSays(keeper: Keeper, block: Json.Json, text: Json.Text) {
    match block
    case Chars(own) => text == own
    case Object(_) =>
      (match Get(block, "text")
       case Some(Chars(own)) => text == own
       case _ => text == if Is(Get(block, "type"), "image") then Units("[DSH 工具图像输出]") else keeper.stringify(block))
    case _ => text == keeper.stringify(block)
  }

  /** The texts of the blocks, one per line. */
  ghost predicate BlocksSay(keeper: Keeper, blocks: seq<Json.Json>, text: Json.Text) {
    if |blocks| == 0 then text == []
    else if |blocks| == 1 then BlockSays(keeper, blocks[0], text)
    else exists front, last :: && text == front + [10] + last && BlockSays(keeper, Last(blocks), last)
                               && BlocksSay(keeper, blocks[..|blocks| - 1], front)
  }

  ghost predicate OutputSays(keeper: Keeper, output: Option<Json.Json>, text: Json.Text) {
    match output
    case None => text == []
    case Some(Chars(own)) => text == own
    case Some(Array(blocks)) => BlocksSay(keeper, blocks, text)
    case Some(other) => text == keeper.stringify(other)
  }

  lemma BlockTextSays(keeper: Keeper, block: Json.Json)
    ensures BlockSays(keeper, block, BlockText(keeper, block))
  {
  }

  lemma {:induction false} JoinedSays(keeper: Keeper, blocks: seq<Json.Json>)
    ensures BlocksSay(keeper, blocks, Joined(keeper, blocks))
  {
    hide BlockSays, BlockText;
    if |blocks| == 1 {
      BlockTextSays(keeper, blocks[0]);
    } else if blocks != [] {
      var front, last := Joined(keeper, blocks[..|blocks| - 1]), BlockText(keeper, Last(blocks));
      JoinedSays(keeper, blocks[..|blocks| - 1]);
      BlockTextSays(keeper, Last(blocks));
      assert Joined(keeper, blocks) == front + [10] + last;
    }
  }

  lemma TextSays(keeper: Keeper, output: Option<Json.Json>)
    ensures OutputSays(keeper, output, TextFromBlocks(keeper, output))
  {
    if output.Some? && output.value.Array? {
      JoinedSays(keeper, output.value.items);
    }
  }

  // ----- portable content

  /** The first block of the list that is a tool result. */
  ghost predicate IsFirstResult(blocks: seq<Json.Json>, block: Option<Json.Json>) {
    match block
    case None => forall k :: 0 <= k < |blocks| ==> !IsResultBlock(blocks[k])
    case Some(found) =>
      exists k :: && 0 <= k < |blocks| && blocks[k] == found && IsResultBlock(found)
                  && forall j :: 0 <= j < k ==> !IsResultBlock(blocks[j])
  }

  ghost predicate IsResultBlock(block: Json.Json) {
    block.Object? && Is(Get(block, "type"), "tool-result")
  }

  lemma {:induction false} FirstResultIs(blocks: seq<Json.Json>)
    ensures IsFirstResult(blocks, FirstResult(blocks))
  {
    if blocks != [] {
      FirstResultIs(blocks[1..]);
      if IsResultBlock(blocks[0]) {
        assert IsFirstResult(blocks, Some(blocks[0]));
      } else if FirstResult(blocks[1..]).Some? {
        var k :| && 0 <= k < |blocks[1..]| && blocks[1..][k] == FirstResult(blocks).value
                 && forall j :: 0 <= j < k ==> !IsResultBlock(blocks[1..][j]);
        assert blocks[k + 1] == blocks[1..][k];
        assert forall j :: 0 <= j < k + 1 ==> !IsResultBlock(blocks[j]);
      } else {
        assert forall k :: 1 <= k < |blocks| ==> blocks[k] == blocks[1..][k - 1];
      }
    }
  }

  /** The result block of a row's message. */
  ghost predicate ResultBlockOf(data: Json.Json, block: Option<Json.Json>) {
    match At(ObjectOnly(Get(data, "message")), "content")
    case Some(Array(blocks)) => IsFirstResult(blocks, block)
    case _ => block == None
  }

  ghost function Candidates(data: Json.Json, block: Option<Json.Json>): seq<Option<Json.Json>> {
    [At(block, "toolCallId"), At(ObjectOnly(At(ObjectOnly(Get(data, "message")), "source")), "callId"),
     Get(data, "callId")]
  }

  /** The content of a tool result: which call it answers, the tool's name and protocol, its output and its failure. */
  ghost predicate ResultSays(keeper: Keeper, data: Json.Json, block: Option<Json.Json>, content: Json.Json) {
    var meta := ObjectOnly(Get(data, "meta"));
    var own := At(block, "content");
    && content.Object?
    && Get(content, "callId").Some? && IsFirstName(Get(content, "callId").value, Candidates(data, block))
    && Get(content, "name").Some?
    && IsFirstName(Get(content, "name").value,
         [At(meta, "name"), Get(data, "name"), Some(Json.Chars(Units("dsh-tool")))])
    && Get(content, "protocol").Some?
    && IsFirstName(Get(content, "protocol").value, [At(meta, "protocol"), Some(Json.Chars(Units("dsh")))])
    && IsString(Get(content, "outputText"))
    && OutputSays(keeper, if own.Some? && own != Some(Json.Null) then own else Get(data, "content"),
         Get(content, "outputText").value.text)
    && Get(content, "isError")
       == (if At(block, "isError") == Some(Json.Boolean(true)) || Get(data, "error").Some?
           then Some(Json.Boolean(true)) else None)
  }

  lemma FirstNameIs(a: Option<Json.Json>, b: Option<Json.Json>, c: Option<Json.Json>)
    ensures var r := First(NonEmpty(a), First(NonEmpty(b), NonEmpty(c)));
            && (r.None? <==> NobodyNames([a, b, c]))
            && (r.Some? ==> IsFirstName(r.value, [a, b, c]))
  {
    var all := [a, b, c];
    assert all[0] == a && all[1] == b && all[2] == c;
    if NamesIt(a) {
      assert IsFirstName(a.value, all);
    } else if NamesIt(b) {
      assert IsFirstName(b.value, all);
    } else if NamesIt(c) {
      assert IsFirstName(c.value, all);
    }
  }

  lemma ResultKeysDiffer()
    ensures Units("callId") !in {Units("name"), Units("protocol"), Units("outputText"), Units("isError"),
                                 Units("arguments")}
    ensures Units("name") !in {Units("protocol"), Units("outputText"), Units("isError"), Units("arguments")}
    ensures Units("protocol") !in {Units("outputText"), Units("isError"), Units("arguments")}
    ensures Units("outputText") !in {Units("isError"), Units("arguments")}
  {
    assert |Units("callId")| == 6 && |Units("name")| == 4 && |Units("protocol")| == 8 && |Units("outputText")| == 10;
    assert |Units("isError")| == 7 && |Units("arguments")| == 9;
  }

  lemma FourthField(a: Json.Field, b: Json.Field, c: Json.Field, d: Json.Field, rest: seq<Json.Field>)
    requires a.key !in {b.key, c.key, d.key} && b.key !in {c.key, d.key} && c.key != d.key
    ensures var fields := [a, b, c, d] + rest;
            && Lookup(fields, a.key) == Some(a.value) && Lookup(fields, b.key) == Some(b.value)
            && Lookup(fields, c.key) == Some(c.value) && Lookup(fields, d.key) == Some(d.value)
            && forall key: Json.Text ::
                 key !in {a.key, b.key, c.key, d.key} ==> Lookup(fields, key) == Lookup(rest, key)
  {
    assert [a, b, c, d] + rest == [a] + ([b] + ([c] + ([d] + rest)));
    forall key: Json.Text
      ensures Lookup([a, b, c, d] + rest, key)
              == if key == a.key then Some(a.value) else if key == b.key then Some(b.value)
                 else if key == c.key then Some(c.value) else if key == d.key then Some(d.value) else Lookup(rest, key)
    {
      hide Lookup;
      LookupMore(a, [b] + ([c] + ([d] + rest)), key);
      LookupMore(b, [c] + ([d] + rest), key);
      LookupMore(c, [d] + rest, key);
      LookupMore(d, rest, key);
    }
  }

  lemma NamedOrDefault(a: Option<Json.Json>, b: Option<Json.Json>, default: string)
    requires default != ""
    ensures IsFirstName(OrElse(First(NonEmpty(a), NonEmpty(b)), Json.Chars(Units(default))),
              [a, b, Some(Json.Chars(Units(default)))])
  {
    var all := [a, b, Some(Json.Chars(Units(default)))];
    assert all[0] == a && all[1] == b && |Units(default)| == |default| && NamesIt(all[2]);
    var k := if NamesIt(a) then 0 else if NamesIt(b) then 1 else 2;
    assert all[k] == Some(OrElse(First(NonEmpty(a), NonEmpty(b)), Json.Chars(Units(default))));
  }

  lemma NamedOrElse(a: Option<Json.Json>, default: string)
    requires default != ""
    ensures IsFirstName(OrElse(NonEmpty(a), Json.Chars(Units(default))), [a, Some(Json.Chars(Units(default)))])
  {
    var all := [a, Some(Json.Chars(Units(default)))];
    assert all[0] == a && |Units(default)| == |default| && NamesIt(all[1]);
    var k := if NamesIt(a) then 0 else 1;
    assert all[k] == Some(OrElse(NonEmpty(a), Json.Chars(Units(default))));
  }

  lemma ResultObject(callId: Json.Json, name: Json.Json, protocol: Json.Json, text: Json.Json, failed: bool)
    ensures var rest := if failed then [Pair("isError", Json.Boolean(true))] else [];
            var content := Json.Object(
              [Pair("callId", callId), Pair("name", name), Pair("protocol", protocol), Pair("outputText", text)]
              + rest);
            && Get(content, "callId") == Some(callId) && Get(content, "name") == Some(name)
            && Get(content, "protocol") == Some(protocol) && Get(content, "outputText") == Some(text)
            && Get(content, "isError") == (if failed then Some(Json.Boolean(true)) else None)
  {
    hide Units, Lookup;
    ResultKeysDiffer();
    var rest := if failed then [Pair("isError", Json.Boolean(true))] else [];
    FourthField(Pair("callId", callId), Pair("name", name), Pair("protocol", protocol), Pair("outputText", text), rest);
    LookupNone(Units("isError"));
    LookupMore(Pair("isError", Json.Boolean(true)), [], Units("isError"));
    assert [Pair("isError", Json.Boolean(true))] + [] == [Pair("isError", Json.Boolean(true))];
  }

  /** The result block that the content is built from. */
  ghost function BlockOf(data: Json.Json): Option<Json.Json> {
    match At(ObjectOnly(Get(data, "message")), "content")
    case Some(Array(items)) => FirstResult(items)
    case _ => None
  }

  ghost function CallOf(data: Json.Json): Option<Json.Json> {
    First(NonEmpty(At(BlockOf(data), "toolCallId")),
      First(NonEmpty(At(ObjectOnly(At(ObjectOnly(Get(data, "message")), "source")), "callId")),
        NonEmpty(Get(data, "callId"))))
  }

  ghost function OutputOf(data: Json.Json): Option<Json.Json> {
    var own := At(BlockOf(data), "content");
    if own.Some? && own != Some(Json.Null) then own else Get(data, "content")
  }

  ghost predicate Failed(data: Json.Json) {
    At(BlockOf(data), "isError") == Some(Json.Boolean(true)) || Get(data, "error").Some?
  }

  lemma ContentIsBuilt(keeper: Keeper, v: Json.Json)
    requires IsNativeEvent(v) && Get(v, "data").value.Object?
    ensures var data := Get(v, "data").value;
            var meta := ObjectOnly(Get(data, "meta"));
            ToolResultContent(keeper, v)
            == if CallOf(data).None? then None
               else Some(Json.Object(
                      [Pair("callId", CallOf(data).value),
                       Pair("name", OrElse(First(NonEmpty(At(meta, "name")), NonEmpty(Get(data, "name"))),
                                           Json.Chars(Units("dsh-tool")))),
                       Pair("protocol", OrElse(NonEmpty(At(meta, "protocol")), Json.Chars(Units("dsh")))),
                       Pair("outputText", Json.Chars(TextFromBlocks(keeper, OutputOf(data))))]
                      + if Failed(data) then [Pair("isError", Json.Boolean(true))] else []))
  {
    hide Units, Get, FirstResult, TextFromBlocks, NonEmpty, IsNativeEvent;
  }

  /** A tool result is portable exactly if something names its call, and then says what its row says. */
  lemma ToolResultExactly(keeper: Keeper, v: Json.Json) returns (block: Option<Json.Json>)
    requires IsNativeEvent(v) && Get(v, "data").value.Object?
    ensures var data := Get(v, "data").value;
            var content := ToolResultContent(keeper, v);
            && ResultBlockOf(data, block)
            && (content.None? <==> NobodyNames(Candidates(data, block)))
            && (content.Some? ==> ResultSays(keeper, data, block, content.value))
  {
    var data := Get(v, "data").value;
    hide Units, Get, IsNativeEvent, IsFirstResult, FirstResult, IsFirstName, NobodyNames, TextFromBlocks, OutputSays,
        NamesIt, NonEmpty, ToolResultContent, First;
    block := BlockOf(data);
    var list := At(ObjectOnly(Get(data, "message")), "content");
    if list.Some? && list.value.Array? {
      FirstResultIs(list.value.items);
    }
    FirstNameIs(At(block, "toolCallId"), At(ObjectOnly(At(ObjectOnly(Get(data, "message")), "source")), "callId"),
        Get(data, "callId"));
    ContentIsBuilt(keeper, v);
    if CallOf(data).Some? {
      var meta := ObjectOnly(Get(data, "meta"));
      NamedOrDefault(At(meta, "name"), Get(data, "name"), "dsh-tool");
      NamedOrElse(At(meta, "protocol"), "dsh");
      TextSays(keeper, OutputOf(data));
      ResultObject(CallOf(data).value,
          OrElse(First(NonEmpty(At(meta, "name")), NonEmpty(Get(data, "name"))), Json.Chars(Units("dsh-tool"))),
          OrElse(NonEmpty(At(meta, "protocol")), Json.Chars(Units("dsh"))),
          Json.Chars(TextFromBlocks(keeper, OutputOf(data))), Failed(data));
    }
  }

  /** A tool call is portable exactly if it has identity, name and arguments, and then says these. */
  lemma ToolCallExactly(v: Json.Json)
    requires IsNativeEvent(v)
    ensures var data := Get(v, "data").value;
            var content := ToolCallContent(v);
            && (content.Some? <==> NamesIt(Get(data, "callId")) && NamesIt(Get(data, "name"))
                                   && IsString(Get(data, "arguments")))
            && (content.Some? ==>
                  && Get(content.value, "callId") == Get(data, "callId")
                  && Get(content.value, "name") == Get(data, "name")
                  && Is(Get(content.value, "protocol"), "dsh")
                  && Get(content.value, "arguments") == Get(data, "arguments"))
  {
    var data := Get(v, "data").value;
    hide Units, Lookup, IsNativeEvent;
    if ToolCallContent(v).Some? {
      ResultKeysDiffer();
      var a, b, c, d := Pair("callId", Get(data, "callId").value), Pair("name", Get(data, "name").value),
          Pair("protocol", Json.Chars(Units("dsh"))), Pair("arguments", Get(data, "arguments").value);
      FourthField(a, b, c, d, []);
      assert [a, b, c, d] + [] == [a, b, c, d];
    }
  }

  /**
   * The message of a conversation row: that of its data, or the data; and in an assistant's the blocks that rows of
   * their own repeat are left out, with every other block and every other field as it was.
   */
  ghost predicate MessageSays(assistant: bool, data: Json.Json, content: Json.Json) {
    if !data.Object? then content == data
    else
      var message := match ObjectOnly(Get(data, "message")) case None => data case Some(own) => own;
      match Get(message, "content")
      case Some(Array(blocks)) =>
        if assistant then
          && content.Object? && |content.fields| == |message.fields|
          && (forall key: Json.Text | key != Units("content") ::
                Lookup(content.fields, key) == Lookup(message.fields, key))
          && Get(content, "content").Some? && Get(content, "content").value.Array?
          && LeavesToolBlocks(blocks, Get(content, "content").value.items)
        else content == message
      case _ => content == message
  }

  ghost predicate IsToolItem(block: Json.Json) {
    block.Object? && (Is(Get(block, "type"), "tool-call") || Is(Get(block, "type"), "tool-result"))
  }

  /** The blocks in order, without those of tools. */
  ghost predicate LeavesToolBlocks(blocks: seq<Json.Json>, kept: seq<Json.Json>) {
    if blocks == [] then kept == []
    else
      var init := blocks[..|blocks| - 1];
      if IsToolItem(Last(blocks)) then LeavesToolBlocks(init, kept)
      else kept != [] && Last(kept) == Last(blocks) && LeavesToolBlocks(init, kept[..|kept| - 1])
  }

  lemma {:induction false} FilterLeavesToolBlocks(blocks: seq<Json.Json>)
    ensures LeavesToolBlocks(blocks, Filter(blocks, StaysSpoken))
  {
    if blocks != [] {
      FilterLeavesToolBlocks(blocks[..|blocks| - 1]);
    }
  }

  lemma MessageExactly(v: Json.Json)
    requires IsNativeEvent(v)
    ensures MessageSays(Is(Get(v, "type"), "assistant/message"), Get(v, "data").value, MessageContent(v))
  {
    var data, assistant := Get(v, "data").value, Is(Get(v, "type"), "assistant/message");
    assert Named(TypeOf(v), "assistant/message") == assistant;
    hide Units, Lookup, IsNativeEvent, LeavesToolBlocks;
    if data.Object? {
      var message := match ObjectOnly(Get(data, "message")) case None => data case Some(own) => own;
      if Get(message, "content").Some? && Get(message, "content").value.Array? && assistant {
        var blocks := Get(message, "content").value.items;
        var kept := Json.Array(Filter(blocks, StaysSpoken));
        FilterLeavesToolBlocks(blocks);
        LookupReplaced(message.fields, Units("content"), kept);
        forall key: Json.Text | key != Units("content")
          ensures Lookup(Replaced(message.fields, Units("content"), kept), key) == Lookup(message.fields, key)
        {
          OtherKeysStay(message.fields, Units("content"), kept, key);
        }
      }
    }
  }

  // ----- kinds of rows

  /** Rows of the session's machinery, which say nothing in the conversation. */
  ghost predicate IsBackground(t: Json.Text) {
    IsOneOf(t, {"turn/start", "turn/end", "step/start", "step/end", "request/header", "request/context",
                "session/end-seed", "session/title", "session/title-llm-request", "model/selection",
                "permission/preset", "sandbox/mode", "approval/policy", "agent/inbox/spliced", "dsh-runtime/detail"})
  }

  ghost predicate IsConversation(t: Json.Text) {
    IsOneOf(t, {"user/message", "assistant/message", "tool/call", "tool/result"})
  }

  ghost predicate Mentions(t: Json.Text, word: string) {
    exists front, back :: t == front + Units(word) + back
  }

  /** The kind and the role of a row, by its type; other types are unknown. */
  ghost predicate KindIs(t: Json.Text, kind: string, role: string) {
    if IsBackground(t) || t == Units("maintenance/other") then kind == "system-metadata" && role == "system"
    else if t == Units("user/message") then kind == "user-message" && role == "user"
    else if t == Units("assistant/message") then kind == "assistant-message" && role == "assistant"
    else if t == Units("assistant/chunk") then kind == "reasoning" && role == "assistant"
    else if t == Units("tool/call") then kind == "tool-call" && role == "assistant"
    else if t == Units("tool/result") then kind == "tool-result" && role == "tool"
    else
      && role == "system"
      && if Mentions(t, "annotation") then kind == "annotation"
         else if Mentions(t, "sticker") then kind == "sticker"
         else kind == "obsidian-reference" && (Mentions(t, "obsidian") || Mentions(t, "reference"))
  }

  lemma AmongExactly(t: Json.Text, names: seq<string>)
    ensures Among(t, names) <==> IsOneOf(t, set k | 0 <= k < |names| :: names[k])
  {
  }

  lemma BackgroundExactly(t: Json.Text)
    ensures IsBackground(t) <==> Among(t, CONTROL) || Among(t, Canonical.NATIVE_METADATA)
  {
    hide Units;
    var all := {"turn/start", "turn/end", "step/start", "step/end", "request/header", "request/context",
                "session/end-seed", "session/title", "session/title-llm-request", "model/selection",
                "permission/preset", "sandbox/mode", "approval/policy", "agent/inbox/spliced", "dsh-runtime/detail"};
    forall name
      ensures name in all <==> name in CONTROL || name in Canonical.NATIVE_METADATA
    {
      InControl(name);
      InMetadata(name);
    }
    if IsBackground(t) {
      var name :| name in all && t == Units(name);
      if name in CONTROL {
        var k :| 0 <= k < |CONTROL| && CONTROL[k] == name;
      } else {
        var k :| 0 <= k < |Canonical.NATIVE_METADATA| && Canonical.NATIVE_METADATA[k] == name;
      }
    }
  }

  lemma InControl(name: string)
    ensures name in CONTROL
            <==> name in {"turn/start", "turn/end", "step/start", "step/end", "request/header", "request/context",
                          "session/end-seed"}
  {
    assert CONTROL[0] in CONTROL && CONTROL[1] in CONTROL && CONTROL[2] in CONTROL && CONTROL[3] in CONTROL
        && CONTROL[4] in CONTROL && CONTROL[5] in CONTROL && CONTROL[6] in CONTROL;
  }

  lemma InMetadata(name: string)
    ensures name in Canonical.NATIVE_METADATA
            <==> name in {"session/title", "session/title-llm-request", "model/selection", "permission/preset",
                          "sandbox/mode", "approval/policy", "agent/inbox/spliced", "dsh-runtime/detail"}
  {
    var names := Canonical.NATIVE_METADATA;
    assert names[0] in names && names[1] in names && names[2] in names && names[3] in names && names[4] in names
        && names[5] in names && names[6] in names && names[7] in names;
  }

  lemma MentionsExactly(t: Json.Text, word: string)
    ensures Contains(t, Units(word)) <==> Mentions(t, word)
  {
    hide Units;
    var part := Units(word);
    if i :| 0 <= i <= |t| && OccursAt(t, part, i) {
      assert t == t[..i] + part + t[i + |part|..];
    }
    if front, back :| t == front + part + back {
      assert t[|front|..|front| + |part|] == part;
      assert OccursAt(t, part, |front|);
    }
  }

  /** The table of kinds. */
  lemma KindExactly(t: Json.Text, kind: string, role: string)
    ensures IdentityOf(t) == Some((kind, role)) <==> KindIs(t, kind, role)
    ensures IdentityOf(t).None? <==> forall any, anyRole :: !KindIs(t, any, anyRole)
  {
    hide Units, IsBackground, Among, Contains, Mentions;
    BackgroundExactly(t);
    MentionsExactly(t, "annotation");
    MentionsExactly(t, "sticker");
    MentionsExactly(t, "obsidian");
    MentionsExactly(t, "reference");
    if IdentityOf(t).Some? {
      assert KindIs(t, IdentityOf(t).value.0, IdentityOf(t).value.1);
    }
  }

  // ----- what is captured

  /** The row's content in a portable history: that of its message, its call or its result. */
  ghost predicate SaysPortable(keeper: Keeper, v: Json.Json, content: Json.Json)
    requires IsNativeEvent(v)
  {
    var t, data := Get(v, "type"), Get(v, "data").value;
    if Is(t, "user/message") || Is(t, "assistant/message") then
      MessageSays(Is(t, "assistant/message"), data, content)
    else if Is(t, "tool/call") then
      && content.Object? && Get(content, "callId") == Get(data, "callId") && Get(content, "name") == Get(data, "name")
      && Is(Get(content, "protocol"), "dsh") && Get(content, "arguments") == Get(data, "arguments")
    else exists block :: ResultBlockOf(data, block) && ResultSays(keeper, data, block, content)
  }

  /** The row has what a portable history needs of it. */
  ghost predicate HasPortable(v: Json.Json)
    requires IsNativeEvent(v)
  {
    var t, data := Get(v, "type"), Get(v, "data").value;
    if Is(t, "user/message") || Is(t, "assistant/message") then true
    else if Is(t, "tool/call") then
      NamesIt(Get(data, "callId")) && NamesIt(Get(data, "name")) && IsString(Get(data, "arguments"))
    else
      && Is(t, "tool/result") && data.Object?
      && exists block :: ResultBlockOf(data, block) && !NobodyNames(Candidates(data, block))
  }

  lemma OneResultBlock(data: Json.Json, a: Option<Json.Json>, b: Option<Json.Json>)
    requires ResultBlockOf(data, a) && ResultBlockOf(data, b)
    ensures a == b
  {
  }

  /** Portable content exists exactly for rows that have what is needed, and says what the row says. */
  lemma PortableExactly(keeper: Keeper, v: Json.Json)
    requires IsNativeEvent(v)
    ensures CoreContent(keeper, v).Some? <==> HasPortable(v)
    ensures CoreContent(keeper, v).Some? ==> SaysPortable(keeper, v, CoreContent(keeper, v).value)
  {
    var data := Get(v, "data").value;
    var t := TypeOf(v);
    assert Get(v, "type") == Some(Json.Chars(t));
    hide Units, Get, IsNativeEvent, MessageContent, MessageSays, ToolResultContent, ResultSays, ResultBlockOf,
        NobodyNames, Candidates, NamesIt;
    CoreNamesDiffer();
    if Named(t, "user/message") || Named(t, "assistant/message") {
      MessageExactly(v);
    } else if Named(t, "tool/call") {
      ToolCallExactly(v);
      assert ToolCallContent(v).Some? ==> ToolCallContent(v).value.Object?;
    } else if Named(t, "tool/result") {
      if data.Object? {
        var block := ToolResultExactly(keeper, v);
        forall other | ResultBlockOf(data, other)
          ensures other == block
        {
          OneResultBlock(data, other, block);
        }
      } else {
        NoResultWithoutData(keeper, v);
      }
    }
  }

  lemma NoResultWithoutData(keeper: Keeper, v: Json.Json)
    requires IsNativeEvent(v) && !Get(v, "data").value.Object?
    ensures ToolResultContent(keeper, v).None?
  {
  }

  lemma CoreNamesDiffer()
    ensures Units("tool/call") !in {Units("user/message"), Units("assistant/message"), Units("tool/result")}
    ensures Units("tool/result") !in {Units("user/message"), Units("assistant/message")}
    ensures Units("user/message") != Units("assistant/message")
  {
    assert |Units("tool/call")| == 9 && |Units("tool/result")| == 11 && |Units("user/message")| == 12;
    assert |Units("assistant/message")| == 17;
  }

  /** A card that names the type of the row it stands for, and where the row is kept. */
  ghost predicate IsCard(content: Json.Json, reason: string, t: Json.Text, title: string, summary: Json.Text,
      reference: Json.Json) {
    && content.Object? && |content.fields| == 7
    && Get(content, "schemaVersion") == Some(Json.Numeric(Json.Integer(1))) && Is(Get(content, "type"), "other")
    && Is(Get(content, "reason"), reason) && Is(Get(content, "label"), title)
    && Get(content, "sourceKind") == Some(Json.Chars(Units("dsh-rc1/") + t))
    && Get(content, "summary") == Some(Json.Chars(summary)) && Get(content, "evidenceRef") == Some(reference)
  }

  lemma CardKeysDiffer()
    ensures |Units("schemaVersion")| == 13 && |Units("type")| == 4 && |Units("reason")| == 6
    ensures |Units("sourceKind")| == 10 && |Units("label")| == 5 && |Units("summary")| == 7
    ensures |Units("evidenceRef")| == 11
  {
  }

  lemma CardIs(reason: string, t: Json.Text, title: string, summary: Json.Text, reference: Json.Json)
    ensures IsCard(OtherContent(reason, t, title, summary, reference), reason, t, title, summary, reference)
  {
    hide Units, Lookup;
    CardKeysDiffer();
    var fields := OtherContent(reason, t, title, summary, reference).fields;
    assert Json.DistinctKeys(fields) by {
      assert forall i :: 0 <= i < 7 ==> |fields[i].key| == [13, 4, 6, 10, 5, 7, 11][i];
    }
    LookupAt(fields, 0);
    LookupAt(fields, 1);
    LookupAt(fields, 2);
    LookupAt(fields, 3);
    LookupAt(fields, 4);
    LookupAt(fields, 5);
    LookupAt(fields, 6);
  }

  ghost predicate IsUnknown(t: Json.Text) {
    forall kind, role :: !KindIs(t, kind, role)
  }

  /** Rows that a portable history does without. */
  ghost predicate LeftToEvidence(t: Json.Text) {
    IsBackground(t) || t == Units("assistant/chunk")
  }

  /** A row that an event stands for as a card. */
  ghost predicate ShownAsCard(mode: Mode, v: Json.Json)
    requires IsNativeEvent(v)
  {
    var t := Get(v, "type").value.text;
    IsUnknown(t) || (mode.Portable? && IsConversation(t) && !HasPortable(v))
  }

  /** The event of a row: its identity and source, its kind by its type, and its data or what is portable of it. */
  ghost predicate IsCaptureOf(keeper: Keeper, mode: Mode, v: Json.Json, e: Event)
    requires IsNativeEvent(v)
  {
    var t, s := Get(v, "type").value.text, IntegerOf(Get(v, "seq"));
    && e.id == keeper.idOf(s) && e.sequence == s && e.source == keeper.sourceOf(s) && e.eventType == Some(t)
    && e.digest == keeper.digest(e.content) && !e.topology
    && if ShownAsCard(mode, v) then
         && e.kind == "other" && e.role == "unknown" && e.heldOut && !e.portable && e.raw == None
         && IsCard(e.content, "unsupported-source-event", t, "未映射的 Rc1 记录",
              Units("MCSF v1 没有 ") + t + Units(" 的公共语义；该记录仅作为维护卡片展示。"), KeptUnder(keeper, v))
       else
         && KindIs(t, e.kind, e.role) && !e.heldOut
         && if mode.Portable? && IsConversation(t) then
              e.portable && e.raw == None && SaysPortable(keeper, v, e.content)
            else !e.portable && e.raw == Some(v) && Some(e.content) == Get(v, "data")
  }

  /** Where the evidence store keeps a row. */
  ghost function KeptUnder(keeper: Keeper, v: Json.Json): Json.Json {
    match keeper.evidence case None => Json.Null case Some(put) => put(v)
  }

  ghost predicate IsHeldOut(mode: Mode, v: Json.Json)
    requires IsNativeEvent(v)
  {
    ShownAsCard(mode, v) || (mode.Portable? && LeftToEvidence(Get(v, "type").value.text))
  }

  /** The events, the types held out and the references under which they are kept, row by row. */
  ghost predicate CapturedFrom(keeper: Keeper, mode: Mode, values: seq<Json.Json>, r: Appended)
    requires AllNative(values)
  {
    if values == [] then r == Appended([], [], [])
    else
      var init, v := values[..|values| - 1], Last(values);
      exists before: Appended ::
        && CapturedFrom(keeper, mode, init, before)
        && (if mode.Portable? && LeftToEvidence(Get(v, "type").value.text) then r.events == before.events
            else |r.events| == |before.events| + 1 && r.events[..|before.events|] == before.events
                 && IsCaptureOf(keeper, mode, v, Last(r.events)))
        && r.heldOutTypes == before.heldOutTypes + (if IsHeldOut(mode, v) then [Get(v, "type").value.text] else [])
        && r.references
           == before.references + (if IsHeldOut(mode, v) && keeper.evidence.Some? then [KeptUnder(keeper, v)] else [])
  }

  lemma ConversationExactly(t: Json.Text)
    ensures IsConversation(t) <==> IsCore(t)
    ensures LeftToEvidence(t) <==> IsEvidenceOnly(t)
    ensures IsConversation(t) ==> !LeftToEvidence(t)
  {
    hide Units, Among, IsBackground;
    BackgroundExactly(t);
    if IsCore(t) {
      CoreIsNotEvidence(t);
      assert "user/message" in {"user/message", "assistant/message", "tool/call", "tool/result"};
    }
  }

  /** What is withheld is what is held out: the cards, and in a portable history the rows left to the evidence. */
  lemma WithheldExactly(keeper: Keeper, mode: Mode, v: Json.Json)
    requires IsNativeEvent(v)
    ensures Withheld(keeper, mode, v) <==> IsHeldOut(mode, v)
    ensures mode.Portable? && LeftToEvidence(TypeOf(v)) <==> mode.Portable? && IsEvidenceOnly(TypeOf(v))
    ensures !(mode.Portable? && LeftToEvidence(TypeOf(v))) ==> (Withheld(keeper, mode, v) <==> ShownAsCard(mode, v))
    ensures !ShownAsCard(mode, v) ==> IdentityOf(TypeOf(v)).Some?
  {
    var t := TypeOf(v);
    assert t == Get(v, "type").value.text;
    hide Units, Get, IsNativeEvent, IsCore, IsConversation, LeftToEvidence, IsEvidenceOnly, CoreContent, HasPortable,
        SaysPortable, KindIs, IdentityOf;
    ConversationExactly(t);
    PortableExactly(keeper, v);
    if IdentityOf(t).Some? {
      KindExactly(t, IdentityOf(t).value.0, IdentityOf(t).value.1);
    } else {
      KindExactly(t, "", "");
    }
  }

  lemma CardCaptured(keeper: Keeper, mode: Mode, v: Json.Json)
    requires IsNativeEvent(v) && ShownAsCard(mode, v) && Withheld(keeper, mode, v)
    requires !(mode.Portable? && IsEvidenceOnly(TypeOf(v)))
    ensures |CaptureOne(keeper, mode, v)| == 1 && IsCaptureOf(keeper, mode, v, CaptureOne(keeper, mode, v)[0])
  {
    var t := TypeOf(v);
    assert t == Get(v, "type").value.text && SeqOf(v) == IntegerOf(Get(v, "seq"));
    hide Units, Get, IsNativeEvent, IsEvidenceOnly, CoreContent, ShownAsCard, Withheld, KindIs, IsCard, OtherContent,
        IdentityOf;
    CardIs("unsupported-source-event", t, "未映射的 Rc1 记录",
        Units("MCSF v1 没有 ") + t + Units(" 的公共语义；该记录仅作为维护卡片展示。"), ReferenceOf(keeper, v));
  }

  lemma RowCaptured(keeper: Keeper, mode: Mode, v: Json.Json)
    requires IsNativeEvent(v) && !ShownAsCard(mode, v) && !Withheld(keeper, mode, v) && IdentityOf(TypeOf(v)).Some?
    requires !(mode.Portable? && IsEvidenceOnly(TypeOf(v)))
    ensures |CaptureOne(keeper, mode, v)| == 1 && IsCaptureOf(keeper, mode, v, CaptureOne(keeper, mode, v)[0])
  {
    var t := TypeOf(v);
    assert t == Get(v, "type").value.text && SeqOf(v) == IntegerOf(Get(v, "seq"));
    assert Get(v, "data") == Some(DataOf(v));
    if !IsConversation(t) {
      ConversationExactly(t);
      OnlyCoreSpeaks(keeper, v);
    }
    assert IsConversation(t) && mode.Portable? ==> HasPortable(v);
    hide Units, Get, IsNativeEvent, IsConversation, IsEvidenceOnly, CoreContent, HasPortable, SaysPortable, KindIs,
        IsCard, IdentityOf, ShownAsCard, Withheld;
    PortableExactly(keeper, v);
    KindExactly(t, IdentityOf(t).value.0, IdentityOf(t).value.1);
  }

  lemma OneCaptureExactly(keeper: Keeper, mode: Mode, v: Json.Json)
    requires IsNativeEvent(v)
    ensures var t, captured := Get(v, "type").value.text, CaptureOne(keeper, mode, v);
            && (Withheld(keeper, mode, v) <==> IsHeldOut(mode, v))
            && if mode.Portable? && LeftToEvidence(t) then captured == []
               else |captured| == 1 && IsCaptureOf(keeper, mode, v, captured[0])
  {
    assert Get(v, "type").value.text == TypeOf(v);
    WithheldExactly(keeper, mode, v);
    if mode.Portable? && IsEvidenceOnly(TypeOf(v)) {
      hide IsEvidenceOnly, Withheld, LeftToEvidence, IsNativeEvent, IsHeldOut;
      assert CaptureOne(keeper, mode, v) == [];
    } else if ShownAsCard(mode, v) {
      CardCaptured(keeper, mode, v);
    } else {
      RowCaptured(keeper, mode, v);
    }
  }

  /** What capture returns, row by row. */
  lemma {:induction false} CaptureExactly(keeper: Keeper, mode: Mode, values: seq<Json.Json>)
    requires AllNative(values)
    ensures CapturedFrom(keeper, mode, values, Appended(CaptureAll(keeper, mode, values),
              HeldOutTypes(keeper, mode, values), References(keeper, mode, values)))
  {
    hide IsNativeEvent, IsCaptureOf, IsHeldOut, LeftToEvidence, Withheld, CaptureOne;
    if values != [] {
      var init, v := values[..|values| - 1], Last(values);
      CaptureExactly(keeper, mode, init);
      OneCaptureExactly(keeper, mode, v);
      var before := Appended(CaptureAll(keeper, mode, init), HeldOutTypes(keeper, mode, init),
          References(keeper, mode, init));
      assert CapturedFrom(keeper, mode, init, before);
    }
  }

  // ----- what is converted

  /** The type of the row behind an event: that of its envelope, or the one it was captured with. */
  ghost predicate ComesFromType(e: Event, t: Json.Text) {
    if e.raw.Some? && IsNativeEvent(e.raw.value) then Get(e.raw.value, "type") == Some(Json.Chars(t))
    else e.eventType == Some(t)
  }

  /** The event stands for a row that a portable history does without. */
  ghost predicate IsLeftOut(e: Event) {
    exists t :: ComesFromType(e, t) && LeftToEvidence(t)
  }

  /** The event carries the envelope of a conversation row. */
  ghost predicate WrapsConversation(e: Event) {
    && e.raw.Some? && IsNativeEvent(e.raw.value)
    && IsConversation(Get(e.raw.value, "type").value.text)
  }

  /** A converted event: without coordinates, and free of its envelope if that was of a conversation row. */
  ghost predicate IsConversionOf(keeper: Keeper, e: Event, r: Event) {
    if !WrapsConversation(e) then r == e.(topology := false)
    else
      var v := e.raw.value;
      var t := Get(v, "type").value.text;
      && r.id == e.id && r.sequence == e.sequence && r.source == e.source && r.eventType == e.eventType
      && !r.topology && r.portable && r.raw == None && r.digest == keeper.digest(r.content)
      && if HasPortable(v) then
           KindIs(t, r.kind, r.role) && r.heldOut == e.heldOut && SaysPortable(keeper, v, r.content)
         else
           && r.kind == "other" && r.role == "unknown" && r.heldOut
           && IsCard(r.content, "adapter-evidence", t, "无法安全续写的 RC1 记录",
                t + Units(" 缺少 RC1 公共字段，已从模型上下文隔离；原始证据仍保留在旧版本。"), Json.Null)
  }

  /** Events of background rows are left out, every other event is converted, in order. */
  ghost predicate ConvertedFrom(keeper: Keeper, events: seq<Event>, result: seq<Event>) {
    if events == [] then result == []
    else
      var init, e := events[..|events| - 1], Last(events);
      if IsLeftOut(e) then ConvertedFrom(keeper, init, result)
      else
        && result != [] && IsConversionOf(keeper, e, Last(result))
        && ConvertedFrom(keeper, init, result[..|result| - 1])
  }

  lemma KeptTypeExactly(e: Event)
    ensures forall t :: ComesFromType(e, t) <==> KeptType(e) == Some(t)
    ensures WrapsConversation(e) <==> e.raw.Some? && IsNativeEvent(e.raw.value) && IsCore(TypeOf(e.raw.value))
  {
    if e.raw.Some? && IsNativeEvent(e.raw.value) {
      ConversationExactly(TypeOf(e.raw.value));
    }
    hide IsConversation, IsCore;
  }

  lemma SpokenExactly(keeper: Keeper, e: Event)
    requires WrapsConversation(e) && IsCore(TypeOf(e.raw.value))
    ensures var v, t := e.raw.value, TypeOf(e.raw.value);
            if CoreContent(keeper, v).Some? then
              IsConversionOf(keeper, e, Spoken(keeper, e, t, CoreContent(keeper, v).value))
            else IsConversionOf(keeper, e, Isolated(keeper, e, t))
  {
    var v := e.raw.value;
    var t := TypeOf(v);
    assert Get(v, "type").value.text == t;
    CoreIsNotEvidence(t);
    hide Units, Get, IsNativeEvent, IsCore, IsConversation, CoreContent, HasPortable, SaysPortable, KindIs, IsCard,
        OtherContent, IdentityOf, CoreIdentity;
    PortableExactly(keeper, v);
    KindExactly(t, CoreIdentity(t).0, CoreIdentity(t).1);
    CardIs("adapter-evidence", t, "无法安全续写的 RC1 记录",
        t + Units(" 缺少 RC1 公共字段，已从模型上下文隔离；原始证据仍保留在旧版本。"), Json.Null);
  }

  lemma OneConversionExactly(keeper: Keeper, e: Event)
    ensures if IsLeftOut(e) then PortableOf(keeper)(e) == []
            else |PortableOf(keeper)(e)| == 1 && IsConversionOf(keeper, e, PortableOf(keeper)(e)[0])
  {
    hide Units, Get, IsNativeEvent, IsCore, IsConversation, CoreContent, LeftToEvidence, IsEvidenceOnly, ComesFromType,
        IsConversionOf, Spoken, Isolated, KeptType, TypeOf;
    KeptTypeExactly(e);
    if KeptType(e).Some? {
      ConversationExactly(KeptType(e).value);
    }
    if WrapsConversation(e) {
      SpokenExactly(keeper, e);
    } else {
      PlainConversion(keeper, e);
    }
  }

  lemma PlainConversion(keeper: Keeper, e: Event)
    requires !WrapsConversation(e)
    ensures IsConversionOf(keeper, e, e.(topology := false))
  {
  }

  /** What conversion returns, event by event. */
  lemma {:induction false} ConversionExactly(keeper: Keeper, events: seq<Event>)
    ensures ConvertedFrom(keeper, events, Portableized(keeper, events))
  {
    hide PortableOf, IsConversionOf, IsLeftOut;
    if events != [] {
      var init, e := events[..|events| - 1], Last(events);
      ConversionExactly(keeper, init);
      OneConversionExactly(keeper, e);
      var before := Portableized(keeper, init);
      var more := PortableOf(keeper)(e);
      assert Portableized(keeper, events) == before + more;
      assert more == [] ==> before + more == before;
      assert (before + more)[..|before|] == before;
    }
  }
}
