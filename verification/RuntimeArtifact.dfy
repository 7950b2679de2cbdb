/** Decoding of a runtime artifact: frames to bytes, bytes to lines, lines to the header and the events of a session. */
module RuntimeArtifact {
  import opened Outcomes
  import opened Sequences
  import opened Canonical
  import opened Provenance
  import opened Lines
  import opened ZstdFrames
  import Json = ExactJson

  const MAX_ARTIFACT_BYTES := 64 * 1024 * 1024
  const MAX_DECOMPRESSED_BYTES := 256 * 1024 * 1024
  const MAX_JSONL_LINES := 1000001
  const MAX_JSONL_LINE_BYTES := 8 * 1024 * 1024

  /** What the host supplies: decompression of one frame under an output limit, and parsing of one line. */
  datatype Host = Host(inflate: (seq<Byte>, nat) -> Option<seq<Byte>>, parse: seq<Byte> -> Option<Json.Json>)

  datatype Decoded = Decoded(header: Json.Json, events: seq<Json.Json>)

  // ----- access to JSON objects

  function Units(s: string): Json.Text {
    seq(|s|, i requires 0 <= i < |s| => (s[i] as int) % 0x10000)
  }

  function Lookup(fields: seq<Json.Field>, key: Json.Text): Option<Json.Json> {
    if fields == [] then None
    else if fields[0].key == key then Some(fields[0].value)
    else Lookup(fields[1..], key)
  }

  /** The property of an object; None when it is missing or the value is not an object. */
  function Get(v: Json.Json, key: string): Option<Json.Json> {
    if v.Object? then Lookup(v.fields, Units(key)) else None
  }

  predicate Has(v: Json.Json, key: string) {
    Get(v, key).Some?
  }

  predicate IsString(v: Option<Json.Json>) {
    v.Some? && v.value.Chars?
  }

  predicate IsNumber(v: Option<Json.Json>) {
    v.Some? && v.value.Numeric?
  }

  /** Number.isSafeInteger; minus zero is one. */
  predicate IsSafeInteger(v: Option<Json.Json>) {
    IsNumber(v) && (v.value.number.NegativeZero? || (v.value.number.Integer? && Json.Safe(v.value.number.value)))
  }

  function IntegerOf(v: Option<Json.Json>): int
    requires IsSafeInteger(v)
  {
    if v.value.number.Integer? then v.value.number.value else 0
  }

  /** A safe integer that is neither negative nor minus zero. */
  predicate IsCount(v: Option<Json.Json>) {
    IsSafeInteger(v) && v.value.number.Integer? && v.value.number.value >= 0
  }

  function AsNumber(n: int): Json.Json {
    Json.Numeric(Json.Integer(n))
  }

  predicate HasExactKeys(v: Json.Json, keys: seq<string>) {
    v.Object? && |v.fields| == |keys| && forall k :: 0 <= k < |keys| ==> Has(v, keys[k])
  }

  // ----- from frames to bytes

  /**
   * What decoding appends for one frame: a nonempty run of complete lines, and exactly one line for the first frame.
   */
  function InflateFrame(host: Host, bytes: seq<Byte>, before: seq<Byte>, frame: Frame): Result<seq<Byte>>
    requires frame.start <= frame.end <= |bytes| && |before| <= MAX_DECOMPRESSED_BYTES
  {
    match host.inflate(bytes[frame.start..frame.end], MAX_DECOMPRESSED_BYTES - |before|)
    case None => Err("Rc1 Zstandard frame failed checksum or decompression")
    case Some(output) =>
      if |before| + |output| > MAX_DECOMPRESSED_BYTES then Err("Rc1 artifact exceeds decompression limit")
      else if output == []
          || Last(output) != NEWLINE then Err("Rc1 Zstandard frame does not end at a JSONL record boundary")
      else if before == []
          && NEWLINE in output[..|output| - 1]
          then Err("Rc1 Zstandard header frame must contain exactly one SessionHeader row")
      else Ok(before + output)
  }

  predicate FramesWithin(bytes: seq<Byte>, frames: seq<Frame>) {
    forall f :: f in frames ==> f.start <= f.end <= |bytes|
  }

  function InflateAll(host: Host, bytes: seq<Byte>, frames: seq<Frame>): (r: Result<seq<Byte>>)
    requires FramesWithin(bytes, frames)
    ensures r.Ok? ==> |r.value| <= MAX_DECOMPRESSED_BYTES && (frames != [] <==> r.value != [])
  {
    if frames == [] then Ok([])
    else
      match InflateAll(host, bytes, frames[..|frames| - 1])
      case Err(fault) => Err(fault)
      case Ok(before) => InflateFrame(host, bytes, before, Last(frames))
  }

  function Content(host: Host, bytes: seq<Byte>, compressed: bool): Result<seq<Byte>> {
    if !compressed then Ok(bytes)
    else
      match ScanFrames(bytes, 0)
      case Err(fault) => Err(fault)
      case Ok(frames) =>
        if frames == [] then Err("Rc1 Zstandard artifact has no complete header frame")
        else
          ScannedEndToEnd(bytes, 0);
          InflateAll(host, bytes, frames)
  }

  // ----- from bytes to lines

  predicate WithinLimits(lines: seq<seq<Byte>>) {
    |lines| <= MAX_JSONL_LINES && forall k :: 0 <= k < |lines| ==> |lines[k]| <= MAX_JSONL_LINE_BYTES
  }

  // ----- from lines to events

  const HEADER_KEYS: seq<string> :=
      ["type", "version", "id", "createdAt", "cwd", "parentSession", "seedLength", "origin", "delegationDepth",
      "agentPreset"]

  predicate OptionalString(v: Json.Json, key: string) {
    Has(v, key) ==> IsString(Get(v, key))
  }

  /** A physical session header of the audited format. */
  predicate IsStorageHeader(v: Json.Json) {
    && v.Object?
    && (forall k :: 0 <= k < |v.fields|
         ==> exists j :: 0 <= j < |HEADER_KEYS| && v.fields[k].key == Units(HEADER_KEYS[j]))
    && Get(v, "type") == Some(Json.Chars(Units("session")))
    && (Get(v, "version") == Some(AsNumber(0)) || Get(v, "version") == Some(Json.Numeric(Json.NegativeZero)))
    && IsString(Get(v, "id")) && Get(v, "id").value.text != []
    && IsCount(Get(v, "createdAt")) && IsCount(Get(v, "delegationDepth"))
    && OptionalString(v, "cwd") && OptionalString(v, "parentSession") && OptionalString(v, "agentPreset")
    && (Has(v, "seedLength") ==> IsCount(Get(v, "seedLength")))
    && (Has(v, "origin") ==> Get(v, "origin") == Some(Json.Chars(Units("subagent"))))
  }

  /** The envelope of an event at its place in the log. */
  predicate IsEventAt(v: Json.Json, expectedSeq: int) {
    && IsString(Get(v, "type"))
    && Get(v, "seq") == Some(AsNumber(expectedSeq)) && Json.Safe(expectedSeq) && expectedSeq >= 0
    && IsSafeInteger(Get(v, "time"))
    && Has(v, "data")
  }

  function EntryOf(v: Json.Json): SeqEntry {
    if IsSafeInteger(Some(v)) then Single(IntegerOf(Some(v)))
    else if v.Array? && |v.items| == 2 && IsSafeInteger(Some(v.items[0])) && IsSafeInteger(Some(v.items[1]))
    then Range(IntegerOf(Some(v.items[0])), IntegerOf(Some(v.items[1])))
    else BadEntry
  }

  function Replaced(fields: seq<Json.Field>, key: Json.Text, value: Json.Json): (r: seq<Json.Field>)
    ensures |r| == |fields|
  {
    Map(fields, (f: Json.Field) => if f.key == key then Json.Field(key, value) else f)
  }

  /** The record with its provenance written out. */
  function Expanded(v: Json.Json): Result<Json.Json> {
    if !v.Object? then Err("Rc1 storage record must be a JSON object")
    else if !Has(v, "sourceEventSeqs") then Ok(v)
    else if !IsSafeInteger(Get(v, "seq"))
        || IntegerOf(Get(v, "seq")) < 0 then Err("Stored Rc1 event has invalid seq provenance")
    else if !Get(v, "sourceEventSeqs").value.Array? then Err("sourceEventSeqs must be an array")
    else
      match Decode(Map(Get(v, "sourceEventSeqs").value.items, EntryOf), IntegerOf(Get(v, "seq")))
      case Err(fault) => Err(fault)
      case Ok(seqs) => Ok(Json.Object(Replaced(v.fields, Units("sourceEventSeqs"), Json.Array(Map(seqs, AsNumber)))))
  }

  /** A row of streamed chunks: first sequence, first time, and one text and one delta for each further member. */
  datatype PackedRow = PackedRow(tag: ChunkTag, seq0: nat, time0: int, data: Json.Json, payload: seq<Json.Json>,
      dt: seq<int>)

  function TagOf(v: Json.Json): Option<ChunkTag> {
    var tag := Get(v, "type");
    if tag == Some(Json.Chars(Units("text-chunks"))) then Some(TextChunks)
    else if tag == Some(Json.Chars(Units("reasoning-chunks"))) then Some(ReasoningChunks)
    else if tag == Some(Json.Chars(Units("tool-call-chunks"))) then Some(ToolCallChunks)
    else None
  }

  function PayloadKey(tag: ChunkTag): string {
    if tag == ToolCallChunks then "args" else "texts"
  }

  function DataKeys(tag: ChunkTag, named: bool): seq<string> {
    if tag != ToolCallChunks then ["turn", "step", "index", "dt", "texts"]
    else if named then ["turn", "step", "index", "id", "name", "dt", "args"]
    else ["turn", "step", "index", "id", "dt", "args"]
  }

  predicate IsPackedData(tag: ChunkTag, data: Json.Json) {
    && HasExactKeys(data, DataKeys(tag, Has(data, "name")))
    && IsNumber(Get(data, "turn")) && IsNumber(Get(data, "step")) && IsNumber(Get(data, "index"))
    && (tag == ToolCallChunks ==> IsString(Get(data, "id")) && OptionalString(data, "name"))
    && Get(data, PayloadKey(tag)).Some? && Get(data, PayloadKey(tag)).value.Array?
    && Get(data, "dt").Some? && Get(data, "dt").value.Array?
  }

  predicate IsPackedList(payload: seq<Json.Json>, dt: seq<Json.Json>) {
    && payload != [] && (forall k :: 0 <= k < |payload| ==> payload[k].Chars?)
    && |dt| == |payload| - 1 && forall k :: 0 <= k < |dt| ==> IsSafeInteger(Some(dt[k]))
  }

  function Deltas(dt: seq<Json.Json>): (r: seq<int>)
    requires forall k :: 0 <= k < |dt| ==> IsSafeInteger(Some(dt[k]))
    ensures |r| == |dt|
  {
    seq(|dt|, k requires 0 <= k < |dt| => IntegerOf(Some(dt[k])))
  }

  const MALFORMED := "Malformed storage row"

  function ReadPacked(tag: ChunkTag, v: Json.Json): (r: Result<PackedRow>)
    ensures r.Ok? ==> r.value.payload != [] && |r.value.dt| == |r.value.payload| - 1
  {
    if !HasExactKeys(v, ["type", "seq0", "time0", "data"]) then Err(MALFORMED)
    else if !IsSafeInteger(Get(v, "seq0")) || IntegerOf(Get(v, "seq0")) < 0
        || !IsSafeInteger(Get(v, "time0")) then Err(MALFORMED)
    else
      var data := OrElse(Get(v, "data"), Json.Null);
      if !IsPackedData(tag, data) then Err(MALFORMED)
      else
        var payload, dt := Get(data, PayloadKey(tag)).value.items, Get(data, "dt").value.items;
        var seq0, time0 := IntegerOf(Get(v, "seq0")), IntegerOf(Get(v, "time0"));
        if !IsPackedList(payload, dt) || |payload| - 1 > Json.MAX_SAFE - seq0 then Err(MALFORMED)
        else if !SafeTimes(time0, Deltas(dt)) then Err(MALFORMED)
        else Ok(PackedRow(tag, seq0, time0, data, payload, Deltas(dt)))
  }

  predicate SafeTimes(time0: int, dt: seq<int>) {
    forall k :: 0 <= k <= |dt| ==> Json.Safe(TimeAt(time0, dt, k))
  }

  function Pair(key: string, value: Json.Json): Json.Field {
    Json.Field(Units(key), value)
  }

  function ChunkOf(row: PackedRow, text: Json.Json): Json.Json {
    var index := Pair("index", OrElse(Get(row.data, "index"), Json.Null));
    match row.tag
    case TextChunks => Json.Object([Pair("type", Json.Chars(Units("text-delta"))), index, Pair("text", text)])
    case ReasoningChunks => Json.Object([Pair("type", Json.Chars(Units("reasoning-delta"))), index, Pair("text", text)])
    case ToolCallChunks =>
      var id := Pair("id", OrElse(Get(row.data, "id"), Json.Null));
      var name := if Has(row.data, "name") then [Pair("name", Get(row.data, "name").value)] else [];
      Json.Object([Pair("type", Json.Chars(Units("tool-call-delta"))), index, id] + name
          + [Pair("argumentsDelta", text)])
  }

  function ChunkEvent(row: PackedRow, seqNumber: int, time: int, text: Json.Json): Json.Json {
    Json.Object([
      Pair("type", Json.Chars(Units("assistant/chunk"))),
      Pair("seq", AsNumber(seqNumber)),
      Pair("time", AsNumber(time)),
      Pair("data", Json.Object([Pair("turn", OrElse(Get(row.data, "turn"), Json.Null)),
                                Pair("step", OrElse(Get(row.data, "step"), Json.Null)),
                                Pair("chunk", ChunkOf(row, text))]))])
  }

  function Unpacked(row: PackedRow): (r: seq<Json.Json>)
    requires |row.dt| == |row.payload| - 1
    ensures |r| == |row.payload|
    ensures forall i :: 0 <= i < |r|
              ==> r[i] == ChunkEvent(row, row.seq0 + i, TimeAt(row.time0, row.dt, i), row.payload[i])
  {
    seq(|row.payload|, i requires 0 <= i < |row.payload| =>
        ChunkEvent(row, row.seq0 + i, TimeAt(row.time0, row.dt, i), row.payload[i]))
  }

  /** The events stored in one record. */
  function DecodeStorageRecord(v: Json.Json): Result<seq<Json.Json>> {
    match Expanded(v)
    case Err(fault) => Err(fault)
    case Ok(expanded) =>
      match TagOf(expanded)
      case None => Ok([expanded])
      case Some(tag) =>
        match ReadPacked(tag, expanded)
        case Err(fault) => Err(fault)
        case Ok(row) => Ok(Unpacked(row))
  }

  predicate EventsFollow(events: seq<Json.Json>, first: int) {
    forall k :: 0 <= k < |events| ==> IsEventAt(events[k], first + k)
  }

  /** The events of one line, if they continue the log at this length. */
  function LineEvents(host: Host, line: seq<Byte>, length: nat): (r: Result<seq<Json.Json>>)
    ensures r.Ok? ==> EventsFollow(r.value, length)
  {
    if line == [] then Err("Rc1 artifact contains an empty event row")
    else
      match host.parse(line)
      case None => Err("Rc1 event row is not valid JSON")
      case Some(json) =>
        match DecodeStorageRecord(json)
        case Err(fault) => Err(fault)
        case Ok(more) => if EventsFollow(more, length) then Ok(more) else Err("Rc1 event sequence gap")
  }

  function EventsOf(host: Host, lines: seq<seq<Byte>>): Result<seq<Json.Json>> {
    if lines == [] then Ok([])
    else
      match EventsOf(host, lines[..|lines| - 1])
      case Err(fault) => Err(fault)
      case Ok(events) =>
        match LineEvents(host, Last(lines), |events|)
        case Err(fault) => Err(fault)
        case Ok(more) => Ok(events + more)
  }

  function HeaderOfLine(host: Host, line: seq<Byte>): Result<Json.Json> {
    if line == [] then Err("Rc1 artifact is header-less")
    else
      match host.parse(line)
      case None => Err("Rc1 session header is not valid JSON")
      case Some(header) => if IsStorageHeader(header) then Ok(header)
          else Err("Rc1 artifact contains an invalid SessionHeader")
  }

  function DecodeLines(host: Host, lines: seq<seq<Byte>>): Result<Decoded> {
    if lines == [] then Err("Rc1 artifact has no complete header line")
    else if !WithinLimits(lines) then Err("Rc1 JSONL artifact exceeds its limits")
    else
      match HeaderOfLine(host, lines[0])
      case Err(fault) => Err(fault)
      case Ok(header) =>
        match EventsOf(host, lines[1..])
        case Err(fault) => Err(fault)
        case Ok(events) => Ok(Decoded(header, events))
  }

  function DecodeArtifact(host: Host, bytes: seq<Byte>, compressed: bool): Result<Decoded> {
    if |bytes| > MAX_ARTIFACT_BYTES then Err("Rc1 artifact is not a bounded regular file")
    else
      match Content(host, bytes, compressed)
      case Err(fault) => Err(fault)
      case Ok(content) => DecodeLines(host, SplitLines(content).lines)
  }

  // ----- the loops of the source

  /** Cuts the content into its complete lines, under the limits on their length and number. */
  method CollectLines(content: seq<Byte>) returns (r: Result<seq<seq<Byte>>>)
    ensures r.Ok? <==> WithinLimits(SplitLines(content).lines)
    ensures r.Ok? ==> r.value == SplitLines(content).lines
  {
    var lines: seq<seq<Byte>> := [];
    var start := 0;
    var newline := IndexOf(content, start);
    while newline != -1
      invariant 0 <= start <= |content|
      invariant SplitLines(content[..start]) == Split(lines, [])
      invariant WithinLimits(lines)
      invariant newline == -1 ==> NEWLINE !in content[start..]
      invariant newline != -1
              ==> start <= newline < |content| && content[newline] == NEWLINE && NEWLINE !in content[start..newline]
      decreases |content| - start
    {
      SplitLine(content, start, newline);
      LinesGrow(content, newline + 1);
      assert SplitLines(content).lines[|lines|] == content[start..newline];
      if newline - start > MAX_JSONL_LINE_BYTES {
        return Err("Rc1 JSONL line exceeds size limit");
      }
      lines := lines + [content[start..newline]];
      if |lines| > MAX_JSONL_LINES {
        return Err("Rc1 JSONL artifact exceeds line limit");
      }
      start := newline + 1;
      newline := IndexOf(content, start);
    }
    assert content[start..|content|] == content[start..];
    SplitPlain(content, start, |content|);
    assert content[..|content|] == content;
    return Ok(lines);
  }

  /** Reads the events of the rows after the header, each at the place where the log stands. */
  method CollectEvents(host: Host, lines: seq<seq<Byte>>) returns (r: Result<seq<Json.Json>>)
    ensures r == EventsOf(host, lines)
  {
    var events: seq<Json.Json> := [];
    for index := 0 to |lines|
      invariant EventsOf(host, lines[..index]) == Ok(events)
    {
      assert lines[..index + 1][..index] == lines[..index] && Last(lines[..index + 1]) == lines[index];
      var more := LineEvents(host, lines[index], |events|);
      if more.Err? {
        EventsFail(host, lines, index + 1);
        return Err(more.fault);
      }
      events := events + more.value;
    }
    assert lines[..|lines|] == lines;
    return Ok(events);
  }

  lemma {:induction false} EventsFail(host: Host, lines: seq<seq<Byte>>, n: nat)
    requires n <= |lines| && EventsOf(host, lines[..n]).Err?
    ensures EventsOf(host, lines) == EventsOf(host, lines[..n])
  {
    if n < |lines| {
      assert lines[..|lines| - 1][..n] == lines[..n];
      EventsFail(host, lines[..|lines| - 1], n);
    } else {
      assert lines[..n] == lines;
    }
  }

  method DecodeArtifactJsonl(host: Host, content: seq<Byte>) returns (r: Result<Decoded>)
    ensures r.Ok? <==> DecodeLines(host, SplitLines(content).lines).Ok?
    ensures r.Ok? ==> r == DecodeLines(host, SplitLines(content).lines)
  {
    var lines :- CollectLines(content);
    if lines == [] {
      return Err("Rc1 artifact has no complete header line");
    }
    var header :- HeaderOfLine(host, lines[0]);
    var events :- CollectEvents(host, lines[1..]);
    return Ok(Decoded(header, events));
  }

  method DecodeArtifactBytes(host: Host, bytes: seq<Byte>, compressed: bool) returns (r: Result<seq<Byte>>)
    ensures r == Content(host, bytes, compressed)
  {
    if !compressed {
      return Ok(bytes);
    }
    hide InflateFrame;
    var frames :- ScanZstdFrames(bytes);
    ScannedEndToEnd(bytes, 0);
    if frames == [] {
      return Err("Rc1 Zstandard artifact has no complete header frame");
    }
    var decoded: seq<Byte> := [];
    for k := 0 to |frames|
      invariant FramesWithin(bytes, frames[..k]) && InflateAll(host, bytes, frames[..k]) == Ok(decoded)
    {
      assert frames[..k + 1][..k] == frames[..k] && Last(frames[..k + 1]) == frames[k];
      var more := InflateFrame(host, bytes, decoded, frames[k]);
      if more.Err? {
        InflateFails(host, bytes, frames, k + 1);
        return more;
      }
      decoded := more.value;
    }
    assert frames[..|frames|] == frames;
    return Ok(decoded);
  }

  lemma {:induction false} InflateFails(host: Host, bytes: seq<Byte>, frames: seq<Frame>, n: nat)
    requires n <= |frames| && FramesWithin(bytes, frames) && InflateAll(host, bytes, frames[..n]).Err?
    ensures InflateAll(host, bytes, frames) == InflateAll(host, bytes, frames[..n])
  {
    if n < |frames| {
      assert frames[..|frames| - 1][..n] == frames[..n];
      InflateFails(host, bytes, frames[..|frames| - 1], n);
    } else {
      assert frames[..n] == frames;
    }
  }

  /** Expands a packed row member by member, keeping the running time. */
  method UnpackRow(row: PackedRow) returns (events: seq<Json.Json>)
    requires |row.dt| == |row.payload| - 1
    ensures events == Unpacked(row)
  {
    hide ChunkEvent, Unpacked;
    events := [];
    var time := row.time0;
    for index := 0 to |row.payload|
      invariant events == Unpacked(row)[..index]
      invariant time == TimeAt(row.time0, row.dt, if index == 0 then 0 else index - 1)
    {
      if index > 0 {
        time := time + row.dt[index - 1];
      }
      assert Unpacked(row)[..index + 1] == Unpacked(row)[..index] + [Unpacked(row)[index]];
      events := events + [ChunkEvent(row, row.seq0 + index, time, row.payload[index])];
    }
  }

  // ----- what decoding guarantees

  /** Decoded events are numbered from zero without a gap. */
  lemma {:induction false} EventsDense(host: Host, lines: seq<seq<Byte>>)
    requires EventsOf(host, lines).Ok?
    ensures EventsFollow(EventsOf(host, lines).value, 0)
  {
    if lines != [] {
      EventsDense(host, lines[..|lines| - 1]);
    }
  }

  function Sum(s: seq<int>): int {
    if s == [] then 0 else Sum(s[..|s| - 1]) + Last(s)
  }

  lemma {:induction false} TimesAreSums(time0: int, dt: seq<int>, k: nat)
    requires k <= |dt|
    ensures TimeAt(time0, dt, k) == time0 + Sum(dt[..k])
  {
    if k > 0 {
      TimesAreSums(time0, dt, k - 1);
      assert dt[..k][..k - 1] == dt[..k - 1];
    }
  }

  lemma LookupMore(field: Json.Field, rest: seq<Json.Field>, key: Json.Text)
    ensures Lookup([field] + rest, key) == if field.key == key then Some(field.value) else Lookup(rest, key)
  {
    assert ([field] + rest)[1..] == rest;
  }

  lemma EventKeysDiffer()
    ensures Units("type") != Units("seq") && Units("time") != Units("seq") && Units("data") != Units("seq")
    ensures Units("type") != Units("time") && Units("type") != Units("data") && Units("time") != Units("data")
  {
    assert |Units("type")| == 4 && |Units("seq")| == 3 && |Units("time")| == 4 && |Units("data")| == 4;
    assert Units("type")[0] == ('t' as int) && Units("type")[1] == ('y' as int);
    assert Units("time")[0] == ('t' as int) && Units("time")[1] == ('i' as int) && Units("data")[0] == ('d' as int);
  }

  lemma FourFields(a: Json.Json, b: Json.Json, c: Json.Json, d: Json.Json)
    ensures var v := Json.Object([Pair("type", a), Pair("seq", b), Pair("time", c), Pair("data", d)]);
            Get(v, "type") == Some(a) && Get(v, "seq") == Some(b) && Get(v, "time") == Some(c)
                && Get(v, "data") == Some(d)
  {
    EventKeysDiffer();
    var t, s, m, x := Pair("type", a), Pair("seq", b), Pair("time", c), Pair("data", d);
    assert [t, s, m, x] == [t] + [s, m, x] && [s, m, x] == [s] + [m, x] && [m, x] == [m] + [x] && [x] == [x] + [];
    forall key
      ensures Lookup([t, s, m, x], key) == if key == t.key then Some(a) else if key == s.key then Some(b)
                                           else if key == m.key then Some(c) else if key == x.key then Some(d) else None
    {
      hide Lookup;
      LookupMore(t, [s, m, x], key);
      LookupMore(s, [m, x], key);
      LookupMore(m, [x], key);
      LookupMore(x, [], key);
      LookupNone(key);
    }
  }

  lemma LookupNone(key: Json.Text)
    ensures Lookup([], key) == None
  {
  }

  /** A packed row stands for dense sequences, prefix-sum times and its texts in order, and each member is an event. */
  lemma PackedRowExpands(row: PackedRow, i: nat)
    requires |row.dt| == |row.payload| - 1 && i < |row.payload|
    requires |row.payload| - 1 <= Json.MAX_SAFE - row.seq0 && SafeTimes(row.time0, row.dt)
    ensures var event := Unpacked(row)[i];
            && |Unpacked(row)| == |row.payload|
            && Get(event, "type") == Some(Json.Chars(Units("assistant/chunk")))
            && Get(event, "seq") == Some(AsNumber(row.seq0 + i))
            && Get(event, "time") == Some(AsNumber(row.time0 + Sum(row.dt[..i])))
            && IsEventAt(event, row.seq0 + i)
  {
    hide Get, Units, ChunkOf, TimeAt, Sum;
    TimesAreSums(row.time0, row.dt, i);
    var data := Json.Object([Pair("turn", OrElse(Get(row.data, "turn"), Json.Null)),
                             Pair("step", OrElse(Get(row.data, "step"), Json.Null)),
                             Pair("chunk", ChunkOf(row, row.payload[i]))]);
    FourFields(Json.Chars(Units("assistant/chunk")), AsNumber(row.seq0 + i), AsNumber(TimeAt(row.time0, row.dt, i)),
        data);
  }

  // ----- torn tails

  lemma {:induction false} EventsCut(host: Host, lines: seq<seq<Byte>>, n: nat)
    requires n <= |lines| && EventsOf(host, lines).Ok?
    ensures EventsOf(host, lines[..n]).Ok? && EventsOf(host, lines[..n]).value <= EventsOf(host, lines).value
  {
    if n < |lines| {
      EventsCut(host, lines[..|lines| - 1], n);
      assert lines[..|lines| - 1][..n] == lines[..n];
    } else {
      assert lines[..n] == lines;
    }
  }

  /** Fewer lines, but the header among them: the same header and a prefix of the events. */
  lemma LinesCut(host: Host, lines: seq<seq<Byte>>, fewer: seq<seq<Byte>>)
    requires DecodeLines(host, lines).Ok? && fewer <= lines && fewer != []
    ensures var all, some := DecodeLines(host, lines), DecodeLines(host, fewer);
            some.Ok? && some.value.header == all.value.header && some.value.events <= all.value.events
  {
    EventsCut(host, lines[1..], |fewer| - 1);
    assert lines[1..][..|fewer| - 1] == fewer[1..];
  }

  lemma {:induction false} InflateCut(host: Host, bytes: seq<Byte>, n: nat, frames: seq<Frame>, kept: seq<Frame>)
    requires n <= |bytes| && kept <= frames && FramesWithin(bytes, frames) && FramesWithin(bytes[..n], kept)
    requires InflateAll(host, bytes, frames).Ok?
    ensures InflateAll(host, bytes[..n], kept).Ok?
            && InflateAll(host, bytes[..n], kept).value <= InflateAll(host, bytes, frames).value
  {
    if |kept| < |frames| {
      InflateCut(host, bytes, n, frames[..|frames| - 1], kept);
    } else if kept != [] {
      assert kept == frames;
      InflateCut(host, bytes, n, frames[..|frames| - 1], kept[..|kept| - 1]);
      InflateSame(host, bytes, n, kept[..|kept| - 1]);
      assert bytes[..n][Last(kept).start..Last(kept).end] == bytes[Last(kept).start..Last(kept).end];
    }
  }

  lemma {:induction false} InflateSame(host: Host, bytes: seq<Byte>, n: nat, frames: seq<Frame>)
    requires n <= |bytes| && FramesWithin(bytes, frames) && FramesWithin(bytes[..n], frames)
    ensures InflateAll(host, bytes[..n], frames) == InflateAll(host, bytes, frames)
  {
    if frames != [] {
      InflateSame(host, bytes, n, frames[..|frames| - 1]);
      assert Last(frames) in frames;
      assert bytes[..n][Last(frames).start..Last(frames).end] == bytes[Last(frames).start..Last(frames).end];
    }
  }

  lemma {:induction false} UpToPrefix(frames: seq<Frame>, n: nat)
    ensures UpTo(frames, n) <= frames
    ensures forall f :: f in UpTo(frames, n) ==> f.end <= n
  {
    if frames != [] {
      UpToPrefix(frames[1..], n);
    }
  }

  /** The header survives a cut: its line, or the frame that holds it, is complete. */
  predicate HeaderKept(bytes: seq<Byte>, n: nat, compressed: bool)
    requires n <= |bytes|
  {
    if compressed then ScanFrames(bytes, 0).Ok? && ScanFrames(bytes, 0).value != []
        && ScanFrames(bytes, 0).value[0].end <= n
    else NEWLINE in bytes[..n]
  }

  lemma ContentCut(host: Host, bytes: seq<Byte>, compressed: bool, n: nat)
    requires n <= |bytes| && Content(host, bytes, compressed).Ok?
    ensures compressed ==> (Content(host, bytes[..n], true).Ok? <==> HeaderKept(bytes, n, true))
    ensures Content(host, bytes[..n], compressed).Ok?
            ==> Content(host, bytes[..n], compressed).value <= Content(host, bytes, compressed).value
  {
    if compressed {
      var frames := ScanFrames(bytes, 0).value;
      FramesCut(bytes, 0, n);
      ScannedEndToEnd(bytes, 0);
      ScannedEndToEnd(bytes[..n], 0);
      UpToPrefix(frames, n);
      InflateCut(host, bytes, n, frames, UpTo(frames, n));
    }
  }

  lemma InflatedEndsLine(host: Host, bytes: seq<Byte>, frames: seq<Frame>)
    requires FramesWithin(bytes, frames) && frames != [] && InflateAll(host, bytes, frames).Ok?
    ensures Last(InflateAll(host, bytes, frames).value) == NEWLINE
  {
  }

  /**
   * A torn tail is harmless. Cut an artifact that decodes at any byte: what is left decodes exactly when the header was
   * complete, and then to the same header and a prefix of the events.
   */
  lemma TornTail(host: Host, bytes: seq<Byte>, compressed: bool, n: nat)
    requires n <= |bytes| && DecodeArtifact(host, bytes, compressed).Ok?
    ensures var all, some := DecodeArtifact(host, bytes, compressed), DecodeArtifact(host, bytes[..n], compressed);
            && (some.Ok? <==> HeaderKept(bytes, n, compressed))
            && (some.Ok? ==> some.value.header == all.value.header && some.value.events <= all.value.events)
  {
    hide DecodeLines, InflateAll;
    ContentCut(host, bytes, compressed, n);
    var content := Content(host, bytes, compressed).value;
    if Content(host, bytes[..n], compressed).Ok? {
      var kept := Content(host, bytes[..n], compressed).value;
      HasLine(kept);
      if compressed {
        ScannedEndToEnd(bytes[..n], 0);
        InflatedEndsLine(host, bytes[..n], ScanFrames(bytes[..n], 0).value);
        assert NEWLINE in kept;
      }
      LinesGrow(content, |kept|);
      assert content[..|kept|] == kept;
      CutDecodes(host, SplitLines(content).lines, SplitLines(kept).lines);
    }
  }

  lemma CutDecodes(host: Host, lines: seq<seq<Byte>>, fewer: seq<seq<Byte>>)
    requires DecodeLines(host, lines).Ok? && fewer <= lines
    ensures var all, some := DecodeLines(host, lines), DecodeLines(host, fewer);
            && (some.Ok? <==> fewer != [])
            && (some.Ok? ==> some.value.header == all.value.header && some.value.events <= all.value.events)
  {
    if fewer != [] {
      LinesCut(host, lines, fewer);
    }
  }
}
