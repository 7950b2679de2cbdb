/** What a stored record stands for, field by field, and that decoding keeps values a JSON parser can give. */
module StoredRecords {
  import opened Outcomes
  import opened Sequences
  import opened Canonical
  import opened Provenance
  import opened RuntimeArtifact
  import Json = ExactJson

  // ----- objects written field by field

  lemma {:induction false} LookupFinds(fields: seq<Json.Field>, key: Json.Text)
    ensures Lookup(fields, key).Some? <==> Json.HasKey(fields, key)
    ensures Lookup(fields, key).Some?
            ==> exists k :: 0 <= k < |fields| && fields[k].key == key && Lookup(fields, key).value == fields[k].value
  {
    if fields != [] {
      LookupFinds(fields[1..], key);
      if fields[0].key != key && Json.HasKey(fields, key) {
        var k :| 0 <= k < |fields| && fields[k].key == key;
        assert fields[1..][k - 1] == fields[k];
      }
      if fields[0].key != key && Lookup(fields, key).Some? {
        var k :| 0 <= k < |fields[1..]| && fields[1..][k].key == key
            && Lookup(fields, key).value == fields[1..][k].value;
        assert fields[k + 1] == fields[1..][k];
      }
    }
  }

  lemma LookupAt(fields: seq<Json.Field>, k: nat)
    requires Json.DistinctKeys(fields) && k < |fields|
    ensures Lookup(fields, fields[k].key) == Some(fields[k].value)
  {
    LookupFinds(fields, fields[k].key);
  }

  /** Keys of different length, or different at their start, differ. */
  lemma KeysApart(k: string, l: string)
    requires |k| != |l| || exists i :: 0 <= i < |k| && k[i] as int < 0x10000 && l[i] as int < 0x10000 && k[i] != l[i]
    ensures Units(k) != Units(l)
  {
    if |k| == |l| {
      var i :| 0 <= i < |k| && k[i] as int < 0x10000 && l[i] as int < 0x10000 && k[i] != l[i];
      assert Units(k)[i] == k[i] as int && Units(l)[i] == l[i] as int;
    } else {
      assert |Units(k)| == |k| && |Units(l)| == |l|;
    }
  }

  lemma GetFirst(key: string, value: Json.Json, rest: seq<Json.Field>)
    ensures Get(Json.Object([Pair(key, value)] + rest), key) == Some(value)
  {
    hide Units;
    LookupMore(Pair(key, value), rest, Units(key));
  }

  lemma GetLater(first: Json.Field, rest: seq<Json.Field>, key: string)
    requires first.key != Units(key)
    ensures Get(Json.Object([first] + rest), key) == Get(Json.Object(rest), key)
  {
    hide Units;
    LookupMore(first, rest, Units(key));
  }

  lemma ThreeFields(a: string, x: Json.Json, b: string, y: Json.Json, c: string, z: Json.Json)
    requires Units(a) != Units(b) && Units(a) != Units(c) && Units(b) != Units(c)
    ensures var v := Json.Object([Pair(a, x), Pair(b, y), Pair(c, z)]);
            Get(v, a) == Some(x) && Get(v, b) == Some(y) && Get(v, c) == Some(z)
  {
    hide Units, Get;
    var f, g, h := Pair(a, x), Pair(b, y), Pair(c, z);
    assert [f, g, h] == [f] + [g, h] && [g, h] == [g] + [h] && [h] == [h] + [];
    GetFirst(a, x, [g, h]);
    GetLater(f, [g, h], b);
    GetFirst(b, y, [h]);
    GetLater(f, [g, h], c);
    GetLater(g, [h], c);
    GetFirst(c, z, []);
  }

  lemma {:induction false} OtherKeysStay(fields: seq<Json.Field>, key: Json.Text, value: Json.Json, other: Json.Text)
    requires key != other
    ensures Lookup(Replaced(fields, key, value), other) == Lookup(fields, other)
  {
    if fields != [] {
      OtherKeysStay(fields[1..], key, value, other);
      assert Replaced(fields, key, value)[1..] == Replaced(fields[1..], key, value);
    }
  }

  // ----- packed rows

  ghost predicate Is(v: Option<Json.Json>, text: string) {
    v == Some(Json.Chars(Units(text)))
  }

  /** The chunk of one member: its kind from the row, its index and text, and for a call its identity and name. */
  ghost predicate IsMember(tag: ChunkTag, data: Json.Json, text: Json.Json, chunk: Json.Json) {
    && chunk.Object? && Get(chunk, "index") == Get(data, "index")
    && match tag
       case TextChunks => Is(Get(chunk, "type"), "text-delta") && Get(chunk, "text") == Some(text)
       case ReasoningChunks => Is(Get(chunk, "type"), "reasoning-delta") && Get(chunk, "text") == Some(text)
       case ToolCallChunks =>
         && Is(Get(chunk, "type"), "tool-call-delta") && Get(chunk, "argumentsDelta") == Some(text)
         && Get(chunk, "id") == Get(data, "id") && Get(chunk, "name") == Get(data, "name")
  }

  lemma ChunkKeysDiffer()
    ensures Units("type") != Units("index") && Units("type") != Units("text") && Units("index") != Units("text")
    ensures Units("id") !in {Units("type"), Units("index"), Units("name"), Units("argumentsDelta")}
    ensures Units("name") !in {Units("type"), Units("index"), Units("argumentsDelta")}
    ensures Units("argumentsDelta") !in {Units("type"), Units("index")}
    ensures Units("turn") !in {Units("step"), Units("chunk")} && Units("step") != Units("chunk")
  {
    assert |Units("type")| == 4 && |Units("text")| == 4 && |Units("index")| == 5 && |Units("id")| == 2;
    assert |Units("name")| == 4 && |Units("argumentsDelta")| == 14 && |Units("chunk")| == 5;
    assert Units("type")[2] == ('p' as int) && Units("text")[2] == ('x' as int) && Units("name")[2] == ('m' as int);
    assert |Units("turn")| == 4 && |Units("step")| == 4;
    assert Units("turn")[0] == ('t' as int) && Units("step")[0] == ('s' as int);
  }

  lemma CallChunk(row: PackedRow, text: Json.Json)
    requires row.tag == ToolCallChunks && Get(row.data, "index").Some? && Get(row.data, "id").Some?
    ensures IsMember(ToolCallChunks, row.data, text, ChunkOf(row, text))
  {
    hide Units, Get;
    ChunkKeysDiffer();
    var chunk := ChunkOf(row, text);
    var t, i := Pair("type", Json.Chars(Units("tool-call-delta"))), Pair("index", Get(row.data, "index").value);
    var d, a := Pair("id", Get(row.data, "id").value), Pair("argumentsDelta", text);
    var name := if Has(row.data, "name") then [Pair("name", Get(row.data, "name").value)] else [];
    assert chunk.fields == [t] + ([i] + ([d] + (name + [a])));
    assert [a] == [a] + [];
    GetFirst("type", t.value, [i] + ([d] + (name + [a])));
    GetLater(t, [i] + ([d] + (name + [a])), "index");
    GetFirst("index", i.value, [d] + (name + [a]));
    GetLater(t, [i] + ([d] + (name + [a])), "id");
    GetLater(i, [d] + (name + [a]), "id");
    GetFirst("id", d.value, name + [a]);
    TailOfCall(t, i, d, name + [a], "name");
    TailOfCall(t, i, d, name + [a], "argumentsDelta");
    if name != [] {
      GetFirst("name", name[0].value, [a]);
      GetLater(name[0], [a], "argumentsDelta");
    } else {
      assert name + [a] == [a];
      GetLater(a, [], "name");
      GetNone("name");
    }
    GetFirst("argumentsDelta", text, []);
  }

  lemma GetNone(key: string)
    ensures Get(Json.Object([]), key) == None
  {
  }

  lemma TailOfCall(t: Json.Field, i: Json.Field, d: Json.Field, rest: seq<Json.Field>, key: string)
    requires Units(key) !in {t.key, i.key, d.key}
    ensures Get(Json.Object([t] + ([i] + ([d] + rest))), key) == Get(Json.Object(rest), key)
  {
    hide Units, Get;
    GetLater(t, [i] + ([d] + rest), key);
    GetLater(i, [d] + rest, key);
    GetLater(d, rest, key);
  }

  lemma ChunkIsMember(row: PackedRow, text: Json.Json)
    requires Get(row.data, "index").Some? && (row.tag == ToolCallChunks ==> Get(row.data, "id").Some?)
    ensures IsMember(row.tag, row.data, text, ChunkOf(row, text))
  {
    hide Units, Get;
    ChunkKeysDiffer();
    if row.tag == ToolCallChunks {
      CallChunk(row, text);
    } else {
      var kind := if row.tag == TextChunks then "text-delta" else "reasoning-delta";
      ThreeFields("type", Json.Chars(Units(kind)), "index", Get(row.data, "index").value, "text", text);
    }
  }

  /** The member of a packed row: its envelope, the turn and step of the row, and its chunk. */
  ghost predicate MemberEvent(tag: ChunkTag, data: Json.Json, text: Json.Json, event: Json.Json) {
    && Is(Get(event, "type"), "assistant/chunk")
    && Get(event, "data").Some?
    && Get(Get(event, "data").value, "turn") == Get(data, "turn")
    && Get(Get(event, "data").value, "step") == Get(data, "step")
    && Get(Get(event, "data").value, "chunk").Some?
    && IsMember(tag, data, text, Get(Get(event, "data").value, "chunk").value)
  }

  lemma MemberIs(row: PackedRow, seqNumber: int, time: int, text: Json.Json)
    requires Get(row.data, "index").Some? && Get(row.data, "turn").Some? && Get(row.data, "step").Some?
    requires row.tag == ToolCallChunks ==> Get(row.data, "id").Some?
    ensures var event := ChunkEvent(row, seqNumber, time, text);
            && MemberEvent(row.tag, row.data, text, event)
            && Get(event, "seq") == Some(AsNumber(seqNumber)) && Get(event, "time") == Some(AsNumber(time))
  {
    hide Units, Get, ChunkOf, IsMember;
    ChunkKeysDiffer();
    ChunkIsMember(row, text);
    ThreeFields("turn", Get(row.data, "turn").value, "step", Get(row.data, "step").value, "chunk", ChunkOf(row, text));
    FourFields(Json.Chars(Units("assistant/chunk")), AsNumber(seqNumber), AsNumber(time),
        Json.Object([Pair("turn", Get(row.data, "turn").value), Pair("step", Get(row.data, "step").value),
                     Pair("chunk", ChunkOf(row, text))]));
  }

  // ----- stored records

  /** The record with its provenance written out has the same value at every other key. */
  lemma ExpandedKeeps(v: Json.Json, key: string)
    requires Expanded(v).Ok? && Units(key) != Units("sourceEventSeqs")
    ensures v.Object? && Expanded(v).value.Object? && Get(Expanded(v).value, key) == Get(v, key)
  {
    hide Units;
    if Has(v, "sourceEventSeqs") {
      var entries := Map(Get(v, "sourceEventSeqs").value.items, EntryOf);
      var seqs := Decode(entries, IntegerOf(Get(v, "seq"))).value;
      OtherKeysStay(v.fields, Units("sourceEventSeqs"), Json.Array(Map(seqs, AsNumber)), Units(key));
    }
  }

  lemma RecordKeysDiffer()
    ensures forall key :: key in {"type", "seq", "seq0", "time0", "data"} ==> Units(key) != Units("sourceEventSeqs")
    ensures Units("text-chunks") !in {Units("reasoning-chunks"), Units("tool-call-chunks")}
    ensures Units("reasoning-chunks") != Units("tool-call-chunks")
  {
    assert |Units("sourceEventSeqs")| == 15;
    assert |Units("text-chunks")| == 11 && |Units("reasoning-chunks")| == 16;
    assert Units("reasoning-chunks")[0] == ('r' as int) && Units("tool-call-chunks")[0] == ('t' as int);
    assert |Units("tool-call-chunks")| == 16;
  }

  /** The rows that hold several events, and what they hold. */
  ghost predicate Holds(v: Json.Json, tag: ChunkTag) {
    match tag
    case TextChunks => Is(Get(v, "type"), "text-chunks")
    case ReasoningChunks => Is(Get(v, "type"), "reasoning-chunks")
    case ToolCallChunks => Is(Get(v, "type"), "tool-call-chunks")
  }

  ghost predicate IsList(v: Option<Json.Json>) {
    v.Some? && v.value.Array?
  }

  /** The texts and the time steps of a packed row are lists, and there is one step between any two members. */
  ghost predicate HasMembers(data: Json.Json, texts: seq<Json.Json>, steps: seq<Json.Json>, tag: ChunkTag) {
    && Get(data, if tag == ToolCallChunks then "args" else "texts") == Some(Json.Array(texts))
    && Get(data, "dt") == Some(Json.Array(steps))
    && |steps| + 1 == |texts| && forall k :: 0 <= k < |steps| ==> IsSafeInteger(Some(steps[k]))
  }

  /** The members of a packed row in order: consecutive sequences, the running time, and one chunk of its data each. */
  ghost predicate Unfolds(v: Json.Json, tag: ChunkTag, texts: seq<Json.Json>, steps: seq<Json.Json>,
      events: seq<Json.Json>)
    requires Get(v, "data").Some? && HasMembers(Get(v, "data").value, texts, steps, tag)
  {
    && IsSafeInteger(Get(v, "seq0")) && IsSafeInteger(Get(v, "time0")) && |events| == |texts|
    && (forall i :: 0 <= i < |events| ==> MemberEvent(tag, Get(v, "data").value, texts[i], events[i]))
    && (forall i :: 0 <= i < |events| ==> Get(events[i], "seq") == Some(AsNumber(IntegerOf(Get(v, "seq0")) + i)))
    && (forall i :: 0 <= i < |events| ==> IsSafeInteger(Get(events[i], "time")))
    && IntegerOf(Get(events[0], "time")) == IntegerOf(Get(v, "time0"))
    && forall i, j :: 0 <= i < |steps| && j == i + 1
         ==> IntegerOf(Get(events[j], "time")) == IntegerOf(Get(events[i], "time")) + IntegerOf(Some(steps[i]))
  }

  lemma TagIs(v: Json.Json, tag: ChunkTag)
    ensures TagOf(v) == Some(tag) <==> Holds(v, tag)
  {
    hide Units;
    RecordKeysDiffer();
  }

  lemma ReadPackedIs(tag: ChunkTag, v: Json.Json)
    requires ReadPacked(tag, v).Ok?
    ensures var row := ReadPacked(tag, v).value;
            && row.tag == tag && Get(v, "data") == Some(row.data)
            && Get(row.data, "dt").Some? && Get(row.data, "dt").value.Array?
            && HasMembers(row.data, row.payload, Get(row.data, "dt").value.items, tag)
            && IsSafeInteger(Get(v, "seq0")) && IsSafeInteger(Get(v, "time0"))
            && row.seq0 == IntegerOf(Get(v, "seq0")) && row.time0 == IntegerOf(Get(v, "time0"))
            && |row.dt| + 1 == |row.payload| && SafeTimes(row.time0, row.dt)
            && (forall k :: 0 <= k < |row.dt| ==> row.dt[k] == IntegerOf(Some(Get(row.data, "dt").value.items[k])))
            && Get(row.data, "index").Some? && Get(row.data, "turn").Some? && Get(row.data, "step").Some?
            && (tag == ToolCallChunks ==> Get(row.data, "id").Some?)
  {
    hide Units, Get, HasExactKeys;
    HasEvery(v, ["type", "seq0", "time0", "data"], 3);
  }

  lemma HasEvery(v: Json.Json, keys: seq<string>, k: nat)
    requires HasExactKeys(v, keys) && k < |keys|
    ensures Get(v, keys[k]).Some?
  {
  }

  /** A packed row unfolds to its members. */
  lemma PackedRecord(v: Json.Json, tag: ChunkTag)
    requires DecodeStorageRecord(v).Ok? && Holds(v, tag)
    ensures Get(v, "data").Some?
    ensures exists texts, steps ::
              && HasMembers(Get(v, "data").value, texts, steps, tag)
              && Unfolds(v, tag, texts, steps, DecodeStorageRecord(v).value)
  {
    hide Units, Get, ReadPacked, Unpacked, Expanded, TagOf, ChunkEvent, MemberEvent;
    var expanded := Expanded(v).value;
    RecordKeysDiffer();
    ExpandedKeeps(v, "type");
    ExpandedKeeps(v, "seq0");
    ExpandedKeeps(v, "time0");
    ExpandedKeeps(v, "data");
    TagIs(expanded, tag);
    ReadPackedIs(tag, expanded);
    var row := ReadPacked(tag, expanded).value;
    UnpackedUnfolds(v, row, Get(row.data, "dt").value.items);
  }

  lemma UnpackedUnfolds(v: Json.Json, row: PackedRow, steps: seq<Json.Json>)
    requires |row.dt| + 1 == |row.payload| && Get(v, "data") == Some(row.data)
    requires HasMembers(row.data, row.payload, steps, row.tag) && SafeTimes(row.time0, row.dt)
    requires IsSafeInteger(Get(v, "seq0")) && row.seq0 == IntegerOf(Get(v, "seq0"))
    requires IsSafeInteger(Get(v, "time0")) && row.time0 == IntegerOf(Get(v, "time0"))
    requires forall k :: 0 <= k < |row.dt| ==> row.dt[k] == IntegerOf(Some(steps[k]))
    requires Get(row.data, "index").Some? && Get(row.data, "turn").Some? && Get(row.data, "step").Some?
    requires row.tag == ToolCallChunks ==> Get(row.data, "id").Some?
    ensures Unfolds(v, row.tag, row.payload, steps, Unpacked(row))
  {
    hide Units, Get, Unpacked, MemberEvent, SafeTimes, TimeAt;
    var events := Unpacked(row);
    forall i | 0 <= i < |events|
      ensures MemberEvent(row.tag, row.data, row.payload[i], events[i])
      ensures Get(events[i], "seq") == Some(AsNumber(row.seq0 + i))
      ensures IsSafeInteger(Get(events[i], "time"))
              && IntegerOf(Get(events[i], "time")) == TimeAt(row.time0, row.dt, i)
    {
      MemberAt(row, i);
    }
    FirstTime(row.time0, row.dt);
    forall i, j | 0 <= i < |steps| && j == i + 1
      ensures IntegerOf(Get(events[j], "time")) == IntegerOf(Get(events[i], "time")) + IntegerOf(Some(steps[i]))
    {
      NextTime(row.time0, row.dt, i);
    }
  }

  lemma FirstTime(time0: int, dt: seq<int>)
    ensures TimeAt(time0, dt, 0) == time0
  {
  }

  lemma NextTime(time0: int, dt: seq<int>, i: nat)
    requires i < |dt|
    ensures TimeAt(time0, dt, i + 1) == TimeAt(time0, dt, i) + dt[i]
  {
  }

  lemma MemberAt(row: PackedRow, i: nat)
    requires |row.dt| + 1 == |row.payload| && i < |row.payload| && SafeTimes(row.time0, row.dt)
    requires Get(row.data, "index").Some? && Get(row.data, "turn").Some? && Get(row.data, "step").Some?
    requires row.tag == ToolCallChunks ==> Get(row.data, "id").Some?
    ensures var event := Unpacked(row)[i];
            && MemberEvent(row.tag, row.data, row.payload[i], event)
            && Get(event, "seq") == Some(AsNumber(row.seq0 + i))
            && Get(event, "time") == Some(AsNumber(TimeAt(row.time0, row.dt, i)))
            && Json.Safe(TimeAt(row.time0, row.dt, i))
  {
    hide Units, Get, ChunkEvent, MemberEvent, TimeAt;
    MemberIs(row, row.seq0 + i, TimeAt(row.time0, row.dt, i), row.payload[i]);
  }

  // ----- which packed rows are read

  /** The times of the members: the first as stored, each later one a step after the one before. */
  ghost predicate RunsBySteps(times: seq<int>, time0: int, steps: seq<Json.Json>) {
    && |times| == |steps| + 1 && times[0] == time0
    && (forall k :: 0 <= k < |steps| ==> IsSafeInteger(Some(steps[k])))
    && (forall k, l :: 0 <= k < |steps| && l == k + 1 ==> times[l] == times[k] + IntegerOf(Some(steps[k])))
    && forall k :: 0 <= k < |times| ==> Json.Safe(times[k])
  }

  /** The data of a packed row: its coordinates, the identity of a call, and nothing beside them and the members. */
  ghost predicate IsDataOf(tag: ChunkTag, data: Json.Json) {
    && data.Object? && IsNumber(Get(data, "turn")) && IsNumber(Get(data, "step")) && IsNumber(Get(data, "index"))
    && match tag
       case ToolCallChunks =>
         && IsString(Get(data, "id")) && (Get(data, "name").None? || Get(data, "name").value.Chars?)
         && |data.fields| == (if Get(data, "name").Some? then 7 else 6)
       case _ => |data.fields| == 5
  }

  /** A row of the four packed fields whose members all get a sequence and a time. */
  ghost predicate Packed(v: Json.Json, tag: ChunkTag, texts: seq<Json.Json>, steps: seq<Json.Json>, times: seq<int>) {
    && v.Object? && |v.fields| == 4 && Holds(v, tag)
    && Get(v, "data").Some? && IsDataOf(tag, Get(v, "data").value)
    && HasMembers(Get(v, "data").value, texts, steps, tag) && (forall k :: 0 <= k < |texts| ==> texts[k].Chars?)
    && IsSafeInteger(Get(v, "seq0")) && 0 <= IntegerOf(Get(v, "seq0"))
    && IntegerOf(Get(v, "seq0")) + |steps| <= 9007199254740991
    && IsSafeInteger(Get(v, "time0")) && RunsBySteps(times, IntegerOf(Get(v, "time0")), steps)
  }

  lemma TimesRun(time0: int, steps: seq<Json.Json>, times: seq<int>)
    requires forall k :: 0 <= k < |steps| ==> IsSafeInteger(Some(steps[k]))
    ensures RunsBySteps(times, time0, steps)
            ==> SafeTimes(time0, Deltas(steps))
    ensures SafeTimes(time0, Deltas(steps))
            ==> RunsBySteps(seq(|steps| + 1, k requires 0 <= k <= |steps| => TimeAt(time0, Deltas(steps), k)), time0,
                    steps)
  {
    hide IsSafeInteger, Json.Safe;
    if RunsBySteps(times, time0, steps) {
      forall k | 0 <= k <= |steps|
        ensures TimeAt(time0, Deltas(steps), k) == times[k]
      {
        SameTimes(time0, steps, times, k);
      }
    }
  }

  lemma {:induction false} SameTimes(time0: int, steps: seq<Json.Json>, times: seq<int>, k: nat)
    requires RunsBySteps(times, time0, steps) && k <= |steps|
    ensures TimeAt(time0, Deltas(steps), k) == times[k]
  {
    if k > 0 {
      SameTimes(time0, steps, times, k - 1);
      assert Deltas(steps)[k - 1] == IntegerOf(Some(steps[k - 1]));
    }
  }

  lemma {:induction false} KeyFound(fields: seq<Json.Field>, key: Json.Text) returns (k: nat)
    requires Lookup(fields, key).Some?
    ensures k < |fields| && fields[k].key == key
  {
    if fields[0].key == key {
      k := 0;
    } else {
      k := KeyFound(fields[1..], key);
      k := k + 1;
    }
  }

  /** Four fields that hold the four keys of a packed row hold no provenance. */
  lemma NoRoomForProvenance(v: Json.Json)
    requires v.Object? && |v.fields| == 4
    requires Has(v, "type") && Has(v, "seq0") && Has(v, "time0") && Has(v, "data")
    ensures !Has(v, "sourceEventSeqs")
  {
    if Has(v, "sourceEventSeqs") {
      hide Units, Lookup;
      PackedKeysDiffer();
      var a := KeyFound(v.fields, Units("type"));
      var b := KeyFound(v.fields, Units("seq0"));
      var c := KeyFound(v.fields, Units("time0"));
      var d := KeyFound(v.fields, Units("data"));
      var e := KeyFound(v.fields, Units("sourceEventSeqs"));
      assert false;
    }
  }

  lemma PackedKeysDiffer()
    ensures Units("type") !in {Units("seq0"), Units("time0"), Units("data"), Units("sourceEventSeqs")}
    ensures Units("seq0") !in {Units("time0"), Units("data"), Units("sourceEventSeqs")}
    ensures Units("time0") !in {Units("data"), Units("sourceEventSeqs")} && Units("data") != Units("sourceEventSeqs")
  {
    assert |Units("type")| == 4 && |Units("seq0")| == 4 && |Units("time0")| == 5 && |Units("data")| == 4;
    assert |Units("sourceEventSeqs")| == 15;
    assert Units("type")[0] == ('t' as int) && Units("seq0")[0] == ('s' as int) && Units("data")[0] == ('d' as int);
  }

  /** A packed row is read exactly when it has this form. */
  lemma PackedExactly(v: Json.Json, tag: ChunkTag)
    requires Holds(v, tag)
    ensures DecodeStorageRecord(v).Ok? <==> exists texts, steps, times :: Packed(v, tag, texts, steps, times)
  {
    hide Units, Get, ReadPacked, Unpacked, Expanded, TagOf, Packed;
    TagIs(v, tag);
    if DecodeStorageRecord(v).Ok? {
      var expanded := Expanded(v).value;
      PackedIsExpanded(v, tag);
      ReadIsPacked(v, tag);
    }
    if texts, steps, times :| Packed(v, tag, texts, steps, times) {
      PackedIsRead(v, tag, texts, steps, times);
    }
  }

  lemma PackedIsExpanded(v: Json.Json, tag: ChunkTag)
    requires Holds(v, tag) && DecodeStorageRecord(v).Ok?
    ensures Expanded(v).value == v && ReadPacked(tag, v).Ok?
  {
    hide Units, Get, ReadPacked, Expanded, TagOf, Unpacked;
    RecordKeysDiffer();
    var expanded := Expanded(v).value;
    ExpandedKeeps(v, "type");
    ExpandedKeeps(v, "seq0");
    ExpandedKeeps(v, "time0");
    ExpandedKeeps(v, "data");
    TagIs(expanded, tag);
    ReadHasFour(tag, expanded);
    ExpandedLength(v);
    NoRoomForProvenance(v);
    NotExpanded(v);
  }

  lemma ReadHasFour(tag: ChunkTag, v: Json.Json)
    requires ReadPacked(tag, v).Ok?
    ensures v.Object? && |v.fields| == 4
    ensures Has(v, "type") && Has(v, "seq0") && Has(v, "time0") && Has(v, "data")
  {
    hide Units, Get, IsPackedData, IsPackedList, SafeTimes;
    HasEvery(v, ["type", "seq0", "time0", "data"], 0);
    HasEvery(v, ["type", "seq0", "time0", "data"], 1);
    HasEvery(v, ["type", "seq0", "time0", "data"], 2);
    HasEvery(v, ["type", "seq0", "time0", "data"], 3);
  }

  lemma ExpandedLength(v: Json.Json)
    requires Expanded(v).Ok?
    ensures v.Object? && Expanded(v).value.Object? && |Expanded(v).value.fields| == |v.fields|
  {
  }

  lemma NotExpanded(v: Json.Json)
    requires v.Object? && !Has(v, "sourceEventSeqs")
    ensures Expanded(v) == Ok(v)
  {
  }

  lemma ReadIsPacked(v: Json.Json, tag: ChunkTag)
    requires Holds(v, tag) && ReadPacked(tag, v).Ok?
    ensures exists texts, steps, times :: Packed(v, tag, texts, steps, times)
  {
    hide Units, Get, SafeTimes, Deltas, RunsBySteps;
    ReadHasFour(tag, v);
    ReadPackedIs(tag, v);
    var row := ReadPacked(tag, v).value;
    var steps := Get(row.data, "dt").value.items;
    TimesRun(row.time0, steps, []);
    DataIs(tag, row.data);
    assert Packed(v, tag, row.payload, steps,
        seq(|steps| + 1, k requires 0 <= k <= |steps| => TimeAt(row.time0, Deltas(steps), k)));
  }

  lemma DataIs(tag: ChunkTag, data: Json.Json)
    ensures IsPackedData(tag, data) ==> IsDataOf(tag, data)
    ensures IsDataOf(tag, data) && IsList(Get(data, if tag == ToolCallChunks then "args" else "texts"))
            && IsList(Get(data, "dt"))
            ==> IsPackedData(tag, data)
  {
    hide Units, Get;
  }

  lemma PackedIsRead(v: Json.Json, tag: ChunkTag, texts: seq<Json.Json>, steps: seq<Json.Json>, times: seq<int>)
    requires Packed(v, tag, texts, steps, times)
    ensures DecodeStorageRecord(v).Ok?
  {
    hide Units, Get, SafeTimes, Deltas, RunsBySteps, IsDataOf, IsPackedData, TagOf, Expanded;
    DataIs(tag, Get(v, "data").value);
    TimesRun(IntegerOf(Get(v, "time0")), steps, times);
    TagIs(v, tag);
    assert Has(v, "type");
    NoRoomForProvenance(v);
    NotExpanded(v);
  }

  // ----- plain records and provenance

  /** The numbers that a list of stored provenance stands for: each number itself, each pair all between its ends. */
  ghost predicate Spells(items: seq<Json.Json>, seqs: seq<int>)
    decreases |items|, 0
  {
    if items == [] then seqs == []
    else
      var init, item := items[..|items| - 1], Last(items);
      if IsSafeInteger(Some(item)) then
        seqs != [] && Last(seqs) == IntegerOf(Some(item)) && Spells(init, seqs[..|seqs| - 1])
      else
        && item.Array? && |item.items| == 2
        && IsSafeInteger(Some(item.items[0])) && IsSafeInteger(Some(item.items[1]))
        && SpellsRange(init, IntegerOf(Some(item.items[0])), IntegerOf(Some(item.items[1])), seqs)
  }

  ghost predicate SpellsRange(init: seq<Json.Json>, start: int, end: int, seqs: seq<int>)
    decreases |init|, 1
  {
    var before := |seqs| - (end - start + 1);
    && start <= end && 0 <= before
    && (forall i :: before <= i < |seqs| ==> seqs[i] == start + (i - before))
    && Spells(init, seqs[..before])
  }

  lemma {:induction false} DecodedSpells(items: seq<Json.Json>, eventSeq: int)
    requires AllReadable(Map(items, EntryOf), eventSeq)
    ensures Spells(items, FlatMap(Map(items, EntryOf), ExpandAll()))
  {
    hide EntryOf;
    if items != [] {
      var entries, init, item := Map(items, EntryOf), items[..|items| - 1], Last(items);
      assert entries[..|entries| - 1] == Map(init, EntryOf) && Last(entries) == EntryOf(item);
      DecodedSpells(init, eventSeq);
      ExpandSpells(init, item, FlatMap(Map(init, EntryOf), ExpandAll()), eventSeq);
      assert items == init + [item];
    }
  }

  lemma ExpandSpells(init: seq<Json.Json>, item: Json.Json, before: seq<int>, eventSeq: int)
    requires Spells(init, before) && Readable(EntryOf(item), |before|, eventSeq)
    ensures Spells(init + [item], before + Expand(EntryOf(item)))
  {
    var items, seqs := init + [item], before + Expand(EntryOf(item));
    assert items[..|items| - 1] == init && Last(items) == item;
    assert seqs[..|before|] == before;
  }

  lemma NoTag(v: Json.Json)
    requires !Holds(v, TextChunks) && !Holds(v, ReasoningChunks) && !Holds(v, ToolCallChunks)
    ensures TagOf(v) == None
  {
  }

  /** A record that is not packed is one event: the record itself, with its provenance written out in full. */
  lemma PlainRecord(v: Json.Json)
    requires DecodeStorageRecord(v).Ok?
    requires !Holds(v, TextChunks) && !Holds(v, ReasoningChunks) && !Holds(v, ToolCallChunks)
    ensures |DecodeStorageRecord(v).value| == 1 && v.Object?
    ensures var event := DecodeStorageRecord(v).value[0];
            && event.Object? && |event.fields| == |v.fields|
            && (forall key :: Units(key) != Units("sourceEventSeqs") ==> Get(event, key) == Get(v, key))
            && (Has(v, "sourceEventSeqs") ==>
                  && IsList(Get(v, "sourceEventSeqs"))
                  && exists seqs :: && Spells(Get(v, "sourceEventSeqs").value.items, seqs)
                                    && Get(event, "sourceEventSeqs") == Some(Json.Array(Map(seqs, AsNumber))))
            && (!Has(v, "sourceEventSeqs") ==> event == v)
  {
    hide Units, ReadPacked, Unpacked;
    var expanded := Expanded(v).value;
    RecordKeysDiffer();
    ExpandedKeeps(v, "type");
    NoTag(expanded);
    forall key | Units(key) != Units("sourceEventSeqs")
      ensures Get(expanded, key) == Get(v, key)
    {
      ExpandedKeeps(v, key);
    }
    if Has(v, "sourceEventSeqs") {
      var items := Get(v, "sourceEventSeqs").value.items;
      var seqs := FlatMap(Map(items, EntryOf), ExpandAll());
      DecodedSpells(items, IntegerOf(Get(v, "seq")));
      ReplacedKey(v.fields, Units("sourceEventSeqs"), Json.Array(Map(seqs, AsNumber)));
    }
  }

  lemma {:induction false} ReplacedKey(fields: seq<Json.Field>, key: Json.Text, value: Json.Json)
    requires Lookup(fields, key).Some?
    ensures Lookup(Replaced(fields, key, value), key) == Some(value)
  {
    if fields[0].key != key {
      ReplacedKey(fields[1..], key, value);
      assert Replaced(fields, key, value)[1..] == Replaced(fields[1..], key, value);
    }
  }

  // ----- decoding keeps values a parser can give

  ghost predicate Clean(rows: seq<Json.Json>) {
    forall k :: 0 <= k < |rows| ==> Json.WellFormed(rows[k])
  }

  lemma {:induction false} DecodedSafe(items: seq<Json.Json>, eventSeq: int)
    requires AllReadable(Map(items, EntryOf), eventSeq)
    ensures forall x :: x in FlatMap(Map(items, EntryOf), ExpandAll()) ==> Json.Safe(x)
  {
    if items != [] {
      var entries, init := Map(items, EntryOf), items[..|items| - 1];
      assert entries[..|entries| - 1] == Map(init, EntryOf) && Last(entries) == EntryOf(Last(items));
      DecodedSafe(init, eventSeq);
      forall x | x in Expand(EntryOf(Last(items)))
        ensures Json.Safe(x)
      {
      }
    }
  }

  lemma ExpandedWellFormed(v: Json.Json)
    requires Json.WellFormed(v) && Expanded(v).Ok?
    ensures Json.WellFormed(Expanded(v).value)
  {
    hide Units, Get, EntryOf;
    if Has(v, "sourceEventSeqs") {
      var items, eventSeq := Get(v, "sourceEventSeqs").value.items, IntegerOf(Get(v, "seq"));
      var seqs := Decode(Map(items, EntryOf), eventSeq).value;
      DecodedSafe(items, eventSeq);
      var value := Json.Array(Map(seqs, AsNumber));
      forall i | 0 <= i < |seqs|
        ensures Json.WellFormed(value.items[i])
      {
        assert seqs[i] in seqs;
      }
      assert Expanded(v).value == Json.Object(Replaced(v.fields, Units("sourceEventSeqs"), value));
      ReplacedWellFormed(v.fields, Units("sourceEventSeqs"), value);
    }
  }

  lemma ReplacedWellFormed(fields: seq<Json.Field>, key: Json.Text, value: Json.Json)
    requires Json.WellFormed(Json.Object(fields)) && Json.WellFormed(value)
    ensures Json.WellFormed(Json.Object(Replaced(fields, key, value)))
  {
  }

  lemma {:induction false} FoundWellFormed(fields: seq<Json.Field>, key: Json.Text)
    requires forall k :: 0 <= k < |fields| ==> Json.WellFormed(fields[k].value)
    ensures Lookup(fields, key).Some? ==> Json.WellFormed(Lookup(fields, key).value)
  {
    if fields != [] {
      FoundWellFormed(fields[1..], key);
    }
  }

  lemma GetWellFormed(v: Json.Json, key: string)
    requires Json.WellFormed(v)
    ensures Json.WellFormed(OrElse(Get(v, key), Json.Null))
  {
    if v.Object? {
      FoundWellFormed(v.fields, Units(key));
    }
  }

  lemma ChunkWellFormed(row: PackedRow, text: Json.Json)
    requires Json.WellFormed(row.data) && Json.WellFormed(text)
    ensures Json.WellFormed(ChunkOf(row, text))
  {
    hide Units, Get;
    ChunkKeysDiffer();
    GetWellFormed(row.data, "index");
    if row.tag == ToolCallChunks {
      CallChunkWellFormed(row, text);
    }
  }

  lemma CallChunkWellFormed(row: PackedRow, text: Json.Json)
    requires Json.WellFormed(row.data) && Json.WellFormed(text) && row.tag == ToolCallChunks
    ensures Json.WellFormed(ChunkOf(row, text))
  {
    hide Units, Get;
    ChunkKeysDiffer();
    GetWellFormed(row.data, "index");
    GetWellFormed(row.data, "id");
    GetWellFormed(row.data, "name");
    var fields := ChunkOf(row, text).fields;
    if Has(row.data, "name") {
      assert fields[3].key == Units("name") && fields[4].key == Units("argumentsDelta") && |fields| == 5;
    } else {
      assert fields[3].key == Units("argumentsDelta") && |fields| == 4;
    }
    assert fields[0].key == Units("type") && fields[1].key == Units("index") && fields[2].key == Units("id");
  }

  lemma MemberWellFormed(row: PackedRow, seqNumber: int, time: int, text: Json.Json)
    requires Json.WellFormed(row.data) && Json.WellFormed(text) && Json.Safe(seqNumber) && Json.Safe(time)
    ensures Json.WellFormed(ChunkEvent(row, seqNumber, time, text))
  {
    hide Units, Get, ChunkOf;
    ChunkKeysDiffer();
    EventKeysDiffer();
    ChunkWellFormed(row, text);
    GetWellFormed(row.data, "turn");
    GetWellFormed(row.data, "step");
    var data := Json.Object([Pair("turn", OrElse(Get(row.data, "turn"), Json.Null)),
                             Pair("step", OrElse(Get(row.data, "step"), Json.Null)),
                             Pair("chunk", ChunkOf(row, text))]);
    assert Json.WellFormed(data);
  }

  /** Decoding a record that a parser gave gives events that a parser could give. */
  lemma RecordWellFormed(v: Json.Json)
    requires Json.WellFormed(v) && DecodeStorageRecord(v).Ok?
    ensures Clean(DecodeStorageRecord(v).value)
  {
    hide Units, Get, ReadPacked, Unpacked, Expanded, ChunkEvent;
    ExpandedWellFormed(v);
    var expanded := Expanded(v).value;
    if TagOf(expanded).Some? {
      var row := ReadPacked(TagOf(expanded).value, expanded).value;
      ReadPackedIs(TagOf(expanded).value, expanded);
      GetWellFormed(expanded, "data");
      PayloadWellFormed(row);
      SequencesSafe(TagOf(expanded).value, expanded);
      forall i | 0 <= i < |row.payload|
        ensures Json.WellFormed(Unpacked(row)[i])
      {
        assert Json.Safe(TimeAt(row.time0, row.dt, i));
        MemberWellFormed(row, row.seq0 + i, TimeAt(row.time0, row.dt, i), row.payload[i]);
      }
    }
  }

  lemma PayloadWellFormed(row: PackedRow)
    requires Json.WellFormed(row.data)
    requires Get(row.data, if row.tag == ToolCallChunks then "args" else "texts") == Some(Json.Array(row.payload))
    ensures Clean(row.payload)
  {
    hide Units, Get;
    GetWellFormed(row.data, if row.tag == ToolCallChunks then "args" else "texts");
  }

  lemma SequencesSafe(tag: ChunkTag, v: Json.Json)
    requires ReadPacked(tag, v).Ok?
    ensures ReadPacked(tag, v).value.seq0 + |ReadPacked(tag, v).value.payload| - 1 <= Json.MAX_SAFE
  {
    hide Units, Get;
  }
}
