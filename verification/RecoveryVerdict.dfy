/**
 * When recovery accepts an artifact and what it then recovers, told from the fields of the stored header, the mapping
 * and the rows alone.
 */
module RecoveryVerdict {
  import opened Outcomes
  import opened Sequences
  import opened RuntimeArtifact
  import opened ArtifactPaths
  import opened Lines
  import opened RuntimeRecovery
  import opened StoredRecords
  import Json = ExactJson

  // ----- objects, key by key

  /** Both missing, or equal as the printer shows them. */
  ghost predicate AlikeAt(a: Option<Json.Json>, b: Option<Json.Json>) {
    match (a, b)
    case (Some(x), Some(y)) => Json.Alike(x, y, false)
    case _ => a.None? && b.None?
  }

  ghost predicate AlikeByKey(f: seq<Json.Field>, g: seq<Json.Field>) {
    forall key: Json.Text :: AlikeAt(Lookup(f, key), Lookup(g, key))
  }

  /** Objects are alike exactly when they are alike at every key. */
  lemma ObjectsAlikeByKey(f: seq<Json.Field>, g: seq<Json.Field>)
    requires Json.DistinctKeys(f) && Json.DistinctKeys(g)
    ensures Json.Alike(Json.Object(f), Json.Object(g), false) <==> AlikeByKey(f, g)
  {
    if Json.Alike(Json.Object(f), Json.Object(g), false) {
      forall key: Json.Text
        ensures AlikeAt(Lookup(f, key), Lookup(g, key))
      {
        LookupFinds(f, key);
        LookupFinds(g, key);
      }
    }
    if AlikeByKey(f, g) {
      AlikeFromKeys(f, g);
    }
  }

  lemma AlikeFromKeys(f: seq<Json.Field>, g: seq<Json.Field>)
    requires Json.DistinctKeys(f) && Json.DistinctKeys(g) && AlikeByKey(f, g)
    ensures Json.Alike(Json.Object(f), Json.Object(g), false)
  {
    KeysFound(f, g);
    KeysFound(g, f);
    forall i, j | 0 <= i < |f| && 0 <= j < |g| && f[i].key == g[j].key
      ensures Json.Alike(f[i].value, g[j].value, false)
    {
      LookupAt(f, i);
      LookupAt(g, j);
      assert AlikeAt(Lookup(f, f[i].key), Lookup(g, f[i].key));
    }
  }

  lemma KeysFound(f: seq<Json.Field>, g: seq<Json.Field>)
    requires Json.DistinctKeys(f)
    requires forall key: Json.Text :: Lookup(f, key).Some? ==> Lookup(g, key).Some?
    ensures forall i :: 0 <= i < |f| ==> Json.HasKey(g, f[i].key)
  {
    forall i | 0 <= i < |f|
      ensures Json.HasKey(g, f[i].key)
    {
      LookupAt(f, i);
      LookupFinds(g, f[i].key);
    }
  }

  lemma {:induction false} LookupAppended(fields: seq<Json.Field>, last: Json.Field, key: Json.Text)
    ensures Lookup(fields + [last], key)
            == if Lookup(fields, key).Some? then Lookup(fields, key)
               else if last.key == key then Some(last.value) else None
  {
    if fields == [] {
      assert [last][1..] == [];
    } else {
      LookupAppended(fields[1..], last, key);
      assert (fields + [last])[1..] == fields[1..] + [last];
    }
  }

  lemma {:induction false} LookupKept(fields: seq<Json.Field>, keys: set<Json.Text>, key: Json.Text)
    ensures Lookup(Filter(fields, KeepOthers(keys)), key) == if key in keys then None else Lookup(fields, key)
  {
    if fields != [] {
      var init, last := fields[..|fields| - 1], Last(fields);
      LookupKept(init, keys, key);
      assert fields == init + [last];
      LookupAppended(init, last, key);
      LookupAppended(Filter(init, KeepOthers(keys)), last, key);
    }
  }

  lemma {:induction false} KeptWellFormed(fields: seq<Json.Field>, keys: set<Json.Text>)
    requires Json.WellFormed(Json.Object(fields))
    ensures Json.WellFormed(Json.Object(Filter(fields, KeepOthers(keys))))
  {
    if fields != [] {
      var init, last := fields[..|fields| - 1], Last(fields);
      forall k | 0 <= k < |init|
        ensures Json.WellFormed(init[k].value)
      {
        assert init[k] == fields[k];
      }
      KeptWellFormed(init, keys);
      FilterMembership(init, KeepOthers(keys));
      forall f | f in Filter(init, KeepOthers(keys))
        ensures f.key != last.key
      {
        var k :| 0 <= k < |init| && init[k] == f;
      }
    }
  }

  lemma AppendedWellFormed(fields: seq<Json.Field>, last: Json.Field)
    requires Json.WellFormed(Json.Object(fields)) && Json.WellFormed(last.value)
    requires Lookup(fields, last.key).None?
    ensures Json.WellFormed(Json.Object(fields + [last]))
  {
    LookupFinds(fields, last.key);
  }

  // ----- headers

  /**
   * The stored header is that of the mapping: every other field agrees, a missing depth counts as zero, the session is
   * seeded exactly when a seed length is stored, and the working directory may differ only below the managed root.
   */
  ghost predicate HeadersAgree(paths: Paths, stored: Json.Json, public: Json.Json)
    requires stored.Object? && public.Object?
  {
    && (forall key: Json.Text :: AgreeAt(stored, public, key))
    && DepthAgrees(stored, public)
    && Get(public, "isSeeded") == Some(Json.Boolean(Get(stored, "seedLength").Some?))
    && (AlikeAt(Get(stored, "cwd"), Get(public, "cwd")) || MovedBelowRoot(paths, stored))
  }

  ghost predicate DepthAgrees(stored: Json.Json, public: Json.Json) {
    AlikeAt(Get(stored, "delegationDepth"),
        if Get(public, "delegationDepth").Some? then Get(public, "delegationDepth")
        else Some(Json.Numeric(Json.Integer(0))))
  }

  ghost predicate MovedBelowRoot(paths: Paths, stored: Json.Json) {
    IsString(Get(stored, "cwd")) && paths.managed(Get(stored, "cwd").value.text)
  }

  ghost predicate AgreeAt(stored: Json.Json, public: Json.Json, key: Json.Text)
    requires stored.Object? && public.Object?
  {
    key !in {Units("type"), Units("seedLength"), Units("isSeeded"), Units("delegationDepth"), Units("cwd")}
    ==> AlikeAt(Lookup(stored.fields, key), Lookup(public.fields, key))
  }

  lemma HeaderKeysDiffer()
    ensures Units("isSeeded") != Units("seedLength")
    ensures Units("type") !in {Units("isSeeded"), Units("seedLength"), Units("delegationDepth"), Units("cwd")}
    ensures Units("delegationDepth") !in {Units("isSeeded"), Units("seedLength"), Units("cwd")}
    ensures Units("cwd") !in {Units("isSeeded"), Units("seedLength")}
    ensures forall j :: 0 <= j < |HEADER_KEYS| ==> Units(HEADER_KEYS[j]) != Units("isSeeded")
  {
    assert |Units("isSeeded")| == 8 && |Units("seedLength")| == 10 && |Units("type")| == 4;
    assert |Units("delegationDepth")| == 15 && |Units("cwd")| == 3;
    forall j | 0 <= j < |HEADER_KEYS|
      ensures |Units(HEADER_KEYS[j])| != 8
    {
    }
  }

  /** The stored header as a session header, key by key. */
  lemma NativeLookup(stored: Json.Json, key: Json.Text)
    requires IsStorageHeader(stored)
    ensures Lookup(NativeHeader(stored).fields, key)
            == if key == Units("isSeeded") then Some(Json.Boolean(Get(stored, "seedLength").Some?))
               else if key in {Units("type"), Units("seedLength")} then None else Lookup(stored.fields, key)
  {
    hide Lookup, Units, Filter;
    HeaderKeysDiffer();
    var keys := {Units("type"), Units("seedLength")};
    LookupKept(stored.fields, keys, key);
    LookupAppended(Filter(stored.fields, KeepOthers(keys)), Pair("isSeeded", Json.Boolean(Has(stored, "seedLength"))),
        key);
    LookupFinds(stored.fields, Units("isSeeded"));
  }

  lemma NativeWellFormed(stored: Json.Json)
    requires IsStorageHeader(stored) && Json.WellFormed(stored)
    ensures Json.WellFormed(NativeHeader(stored))
  {
    hide Lookup, Units, Filter;
    HeaderKeysDiffer();
    var keys := {Units("type"), Units("seedLength")};
    KeptWellFormed(stored.fields, keys);
    LookupKept(stored.fields, keys, Units("isSeeded"));
    LookupFinds(stored.fields, Units("isSeeded"));
    AppendedWellFormed(Filter(stored.fields, KeepOthers(keys)),
        Pair("isSeeded", Json.Boolean(Has(stored, "seedLength"))));
  }

  lemma PersistedLookup(header: Json.Json, key: Json.Text)
    requires header.Object?
    ensures Lookup(Persisted(header).fields, key)
            == if key == Units("delegationDepth") && Get(header, "delegationDepth").None?
               then Some(Json.Numeric(Json.Integer(0))) else Lookup(header.fields, key)
  {
    hide Lookup, Units;
    LookupAppended(header.fields, Pair("delegationDepth", AsNumber(0)), key);
  }

  lemma PersistedWellFormed(header: Json.Json)
    requires header.Object? && Json.WellFormed(header)
    ensures Json.WellFormed(Persisted(header))
  {
    hide Lookup, Units;
    if !Has(header, "delegationDepth") {
      AppendedWellFormed(header.fields, Pair("delegationDepth", AsNumber(0)));
    }
  }

  /** Comparing two headers compares them key by key. */
  lemma SameByKey(a: Json.Json, b: Json.Json)
    requires a.Object? && b.Object? && Json.WellFormed(a) && Json.WellFormed(b)
    ensures Json.SameJson(a, b) <==> AlikeByKey(a.fields, b.fields)
  {
    hide AlikeAt, AlikeByKey;
    Json.SameJsonDecides(a, b);
    ObjectsAlikeByKey(a.fields, b.fields);
    assert a == Json.Object(a.fields) && b == Json.Object(b.fields);
  }

  lemma CwdForgotten(v: Json.Json, key: Json.Text)
    requires v.Object?
    ensures Lookup(WithoutCwd(v).fields, key) == if key == Units("cwd") then None else Lookup(v.fields, key)
    ensures Json.WellFormed(v) ==> Json.WellFormed(WithoutCwd(v))
  {
    hide Lookup, Units, Filter, Json.WellFormed;
    LookupKept(v.fields, {Units("cwd")}, key);
    assert v == Json.Object(v.fields);
    if Json.WellFormed(v) {
      KeptWellFormed(v.fields, {Units("cwd")});
    }
  }

  ghost predicate AlikeButFor(f: seq<Json.Field>, g: seq<Json.Field>, left: Json.Text) {
    forall key: Json.Text | key != left :: AlikeAt(Lookup(f, key), Lookup(g, key))
  }

  lemma CwdIgnored(a: Json.Json, b: Json.Json)
    requires a.Object? && b.Object?
    ensures AlikeByKey(WithoutCwd(a).fields, WithoutCwd(b).fields) <==> AlikeButFor(a.fields, b.fields, Units("cwd"))
  {
    hide Lookup, Units, WithoutCwd, Json.Alike;
    forall key: Json.Text
      ensures Lookup(WithoutCwd(a).fields, key) == if key == Units("cwd") then None else Lookup(a.fields, key)
      ensures Lookup(WithoutCwd(b).fields, key) == if key == Units("cwd") then None else Lookup(b.fields, key)
    {
      CwdForgotten(a, key);
      CwdForgotten(b, key);
    }
    if AlikeByKey(WithoutCwd(a).fields, WithoutCwd(b).fields) {
      forall key: Json.Text | key != Units("cwd")
        ensures AlikeAt(Lookup(a.fields, key), Lookup(b.fields, key))
      {
        assert AlikeAt(Lookup(WithoutCwd(a).fields, key), Lookup(WithoutCwd(b).fields, key));
      }
    }
  }

  lemma SameButForCwd(a: Json.Json, b: Json.Json)
    requires a.Object? && b.Object? && Json.WellFormed(a) && Json.WellFormed(b)
    ensures Json.SameJson(WithoutCwd(a), WithoutCwd(b)) <==> AlikeButFor(a.fields, b.fields, Units("cwd"))
  {
    hide Lookup, Units, WithoutCwd, AlikeByKey, AlikeButFor, Json.Print;
    CwdForgotten(a, []);
    CwdForgotten(b, []);
    SameByKey(WithoutCwd(a), WithoutCwd(b));
    CwdIgnored(a, b);
  }

  /** What the comparison asks of one key. */
  ghost predicate KeyAgrees(stored: Json.Json, public: Json.Json, key: Json.Text)
    requires stored.Object? && public.Object?
  {
    if key == Units("isSeeded") then Get(public, "isSeeded") == Some(Json.Boolean(Get(stored, "seedLength").Some?))
    else if key == Units("delegationDepth") then DepthAgrees(stored, public)
    else if key == Units("cwd") then AlikeAt(Get(stored, "cwd"), Get(public, "cwd"))
    else AgreeAt(stored, public, key)
  }

  lemma ComparedAt(paths: Paths, stored: Json.Json, public: Json.Json, id: Json.Text, key: Json.Text)
    requires IsStorageHeader(stored) && IsLogicalHeader(paths, public, id)
    ensures AlikeAt(Lookup(NativeHeader(stored).fields, key), Lookup(Persisted(public).fields, key))
            <==> KeyAgrees(stored, public, key)
  {
    hide Lookup, Units, NativeHeader, Persisted;
    HeaderKeysDiffer();
    NativeLookup(stored, key);
    PersistedLookup(public, key);
    assert Lookup(public.fields, Units("type")).None? && Lookup(public.fields, Units("seedLength")).None?;
  }

  lemma ComparedByKey(paths: Paths, stored: Json.Json, public: Json.Json, id: Json.Text)
    requires IsStorageHeader(stored) && IsLogicalHeader(paths, public, id)
    ensures AlikeByKey(NativeHeader(stored).fields, Persisted(public).fields)
            <==> forall key: Json.Text :: KeyAgrees(stored, public, key)
    ensures AlikeButFor(NativeHeader(stored).fields, Persisted(public).fields, Units("cwd"))
            <==> forall key: Json.Text | key != Units("cwd") :: KeyAgrees(stored, public, key)
  {
    hide Lookup, Units, Persisted, NativeHeader, AlikeAt, KeyAgrees;
    forall key: Json.Text
      ensures AlikeAt(Lookup(NativeHeader(stored).fields, key), Lookup(Persisted(public).fields, key))
              <==> KeyAgrees(stored, public, key)
    {
      ComparedAt(paths, stored, public, id, key);
    }
  }

  lemma AgreeByKey(paths: Paths, stored: Json.Json, public: Json.Json)
    requires stored.Object? && public.Object?
    ensures HeadersAgree(paths, stored, public)
            <==> && (forall key: Json.Text | key != Units("cwd") :: KeyAgrees(stored, public, key))
                 && (KeyAgrees(stored, public, Units("cwd")) || MovedBelowRoot(paths, stored))
  {
    hide Lookup, Units, Json.Alike, AlikeAt, DepthAgrees;
    HeaderKeysDiffer();
    if HeadersAgree(paths, stored, public) {
      forall key: Json.Text | key != Units("cwd")
        ensures KeyAgrees(stored, public, key)
      {
        assert AgreeAt(stored, public, key);
      }
    }
    if forall key: Json.Text | key != Units("cwd") :: KeyAgrees(stored, public, key) {
      assert KeyAgrees(stored, public, Units("isSeeded")) && KeyAgrees(stored, public, Units("delegationDepth"));
      forall key: Json.Text
        ensures AgreeAt(stored, public, key)
      {
        assert key != Units("cwd") ==> KeyAgrees(stored, public, key);
      }
    }
  }

  /** The comparison of headers, in terms of their fields. */
  lemma HeadersAgreeExactly(paths: Paths, stored: Json.Json, public: Json.Json, id: Json.Text)
    requires IsStorageHeader(stored) && IsLogicalHeader(paths, public, id)
    requires Json.WellFormed(stored) && Json.WellFormed(public)
    ensures SameRuntimeHeader(paths, NativeHeader(stored), public) <==> HeadersAgree(paths, stored, public)
  {
    hide Lookup, Units, WithoutCwd, Persisted, NativeHeader, AlikeByKey, AlikeButFor, KeyAgrees, HeadersAgree,
        Json.Print;
    NativeWellFormed(stored);
    PersistedWellFormed(public);
    SameByKey(NativeHeader(stored), Persisted(public));
    SameButForCwd(NativeHeader(stored), Persisted(public));
    ComparedByKey(paths, stored, public, id);
    AgreeByKey(paths, stored, public);
    HeaderKeysDiffer();
    NativeLookup(stored, Units("cwd"));
  }

  // ----- inherited events

  /** The number of inherited events a mapping states: that of its metadata, and none without metadata or seed. */
  lemma InheritedExactly(header: Json.Json, metadata: Option<Json.Json>, n: int)
    ensures InheritedCount(header, metadata) == Some(n)
            <==> match metadata
                 case None => Get(header, "isSeeded") != Some(Json.Boolean(true)) && n == 0
                 case Some(v) =>
                   && v == Json.Object([Json.Field(Units("inheritedEventCount"), Json.Numeric(Json.Integer(n)))])
                   && 0 <= n && Json.Safe(n) && (Get(header, "isSeeded") == Some(Json.Boolean(true)) || n == 0)
  {
    hide Units;
    if metadata.Some? && metadata.value.Object? && |metadata.value.fields| == 1 {
      var fields := metadata.value.fields;
      assert fields == [fields[0]] && fields[1..] == [];
      assert fields[0] == Json.Field(fields[0].key, fields[0].value);
      assert Lookup(fields, Units("inheritedEventCount"))
          == if fields[0].key == Units("inheritedEventCount") then Some(fields[0].value) else None;
    }
    if metadata.Some? && metadata.value
        == Json.Object([Json.Field(Units("inheritedEventCount"), Json.Numeric(Json.Integer(n)))]) {
      assert HasExactKeys(metadata.value, ["inheritedEventCount"]);
    }
  }

  /** The seed length stored is the number of inherited events that the metadata of the mapping states. */
  ghost predicate SeedAgrees(m: Mapping, stored: Json.Json) {
    match Get(stored, "seedLength")
    case None => true
    case Some(length) => m.metadata.Some? && Get(m.metadata.value, "inheritedEventCount") == Some(length)
  }

  lemma SeedAgreesExactly(paths: Paths, m: Mapping, stored: Json.Json)
    requires IsMapping(paths, m) && IsStorageHeader(stored)
    requires Get(m.header, "isSeeded") == Some(Json.Boolean(Get(stored, "seedLength").Some?))
    ensures InheritedCount(m.header, m.metadata) == Some(SeedLength(stored)) <==> SeedAgrees(m, stored)
  {
    hide Units, IsLogicalHeader, EventsFollow;
    var n := InheritedCount(m.header, m.metadata).value;
    InheritedExactly(m.header, m.metadata, n);
    if m.metadata.Some? {
      var field := Json.Field(Units("inheritedEventCount"), Json.Numeric(Json.Integer(n)));
      assert [field][0] == field && Lookup([field], Units("inheritedEventCount")) == Some(field.value);
    }
  }

  // ----- one artifact

  /** A row of the preparation of a session, before anybody continues it. */
  ghost predicate Prepares(row: Json.Json) {
    exists name :: Get(row, "type") == Some(Json.Chars(Units(name)))
                   && name in {"session/end-seed", "permission/preset", "sandbox/mode", "approval/policy"}
  }

  lemma PreludeExactly(row: Json.Json)
    ensures IsPrelude(row) <==> Prepares(row)
  {
    if IsPrelude(row) {
      var k :| 0 <= k < |PRELUDE_TYPES| && Get(row, "type") == Some(Json.Chars(Units(PRELUDE_TYPES[k])));
    }
    if Prepares(row) {
      var name :| Get(row, "type") == Some(Json.Chars(Units(name)))
          && name in {"session/end-seed", "permission/preset", "sandbox/mode", "approval/policy"};
      assert PRELUDE_TYPES[0] == "session/end-seed" && PRELUDE_TYPES[1] == "permission/preset";
      assert PRELUDE_TYPES[2] == "sandbox/mode" && PRELUDE_TYPES[3] == "approval/policy";
      var k :| 0 <= k < |PRELUDE_TYPES| && PRELUDE_TYPES[k] == name;
    }
  }

  /** The stored header is the session's, and its first rows are the committed ones. */
  ghost predicate Accepted(paths: Paths, m: Mapping, d: Decoded)
    requires d.header.Object? && m.header.Object?
  {
    && HeadersAgree(paths, d.header, m.header) && SeedAgrees(m, d.header)
    && |m.committed| <= |d.events|
    && forall k :: 0 <= k < |m.committed| ==> Json.Alike(d.events[k], m.committed[k], false)
  }

  /** Some row behind the committed ones is not preparation. */
  ghost predicate Continues(m: Mapping, d: Decoded) {
    exists k :: |m.committed| <= k < |d.events| && !Prepares(d.events[k])
  }

  /** The operation carries the identities of the mapping and all rows behind the committed ones. */
  ghost predicate Carries(m: Mapping, d: Decoded, op: Recovered) {
    && op.nativeId == m.nativeId && op.logicalId == m.logicalId
    && op.baseVersion == m.baseVersion && op.instanceId == m.instanceId
    && op.first == |m.committed| && op.revision == |d.events| == |m.committed| + |op.events|
    && forall k :: 0 <= k < |op.events| ==> op.events[k] == d.events[|m.committed| + k]
  }

  lemma PrefixExactly(events: seq<Json.Json>, committed: seq<Json.Json>)
    requires Clean(events) && Clean(committed)
    ensures PrefixKept(events, committed)
            <==> |committed| <= |events|
                 && forall k :: 0 <= k < |committed| ==> Json.Alike(events[k], committed[k], false)
  {
    hide Json.SameJson, Json.Alike;
    if |committed| <= |events| {
      forall k | 0 <= k < |committed|
        ensures Json.SameJson(events[k], committed[k]) <==> Json.Alike(events[k], committed[k], false)
      {
        Json.SameJsonDecides(events[k], committed[k]);
      }
    }
  }

  /** Recovery accepts an artifact of a mapped session exactly when header, seed length and committed rows agree. */
  lemma AcceptedExactly(paths: Paths, m: Mapping, d: Decoded)
    requires IsMapping(paths, m) && IsStorageHeader(d.header)
    requires Json.WellFormed(d.header) && Json.WellFormed(m.header) && Clean(d.events) && Clean(m.committed)
    ensures RecoverTail(paths, m, d).Ok? <==> Accepted(paths, m, d)
  {
    hide HeadersAgree, SeedAgrees, PrefixKept, SameRuntimeHeader, InheritedCount, EventsFollow, Json.Alike,
        AllPrelude, Json.WellFormed, Units, Lookup;
    HeadersAgreeExactly(paths, d.header, m.header, m.nativeId);
    PrefixExactly(d.events, m.committed);
    if HeadersAgree(paths, d.header, m.header) {
      SeedStated(paths, d.header, m.header);
      SeedAgreesExactly(paths, m, d.header);
    }
  }

  lemma SeedStated(paths: Paths, stored: Json.Json, public: Json.Json)
    requires stored.Object? && public.Object? && HeadersAgree(paths, stored, public)
    ensures Get(public, "isSeeded") == Some(Json.Boolean(Get(stored, "seedLength").Some?))
  {
  }

  lemma PreludeTail(m: Mapping, d: Decoded)
    requires |m.committed| <= |d.events|
    ensures Continues(m, d) <==> !AllPrelude(d.events[|m.committed|..])
  {
    hide IsPrelude, Prepares;
    var tail := d.events[|m.committed|..];
    forall k | 0 <= k < |tail|
      ensures IsPrelude(tail[k]) <==> Prepares(d.events[|m.committed| + k])
    {
      PreludeExactly(tail[k]);
    }
    if k :| |m.committed| <= k < |d.events| && !Prepares(d.events[k]) {
      assert !IsPrelude(tail[k - |m.committed|]);
    }
  }

  /** What is recovered from an accepted artifact: nothing unless somebody continued it, and then all of its tail. */
  lemma RecoveredExactly(paths: Paths, m: Mapping, d: Decoded, op: Recovered)
    requires IsStorageHeader(d.header) && 0 <= m.revision == |m.committed|
    requires RecoverTail(paths, m, d).Ok?
    ensures RecoverTail(paths, m, d) == Ok(None) <==> !Continues(m, d)
    ensures RecoverTail(paths, m, d) == Ok(Some(op)) <==> Continues(m, d) && Carries(m, d, op)
  {
    hide SameRuntimeHeader, NativeHeader, InheritedCount, SeedLength, IsStorageHeader, AllPrelude, PrefixKept,
        Continues;
    assert |m.committed| <= |d.events|;
    PreludeTail(m, d);
    NothingIsPrelude();
    if Carries(m, d, op) {
      assert op.events == d.events[|m.committed|..];
    }
  }

  lemma NothingIsPrelude()
    ensures AllPrelude([])
  {
  }

  // ----- all artifacts

  /** Every row of the artifact, and its header, is a value that a JSON parser can give. */
  ghost predicate Parsed(host: Host, artifact: Artifact) {
    var d := DecodeArtifact(host, artifact.bytes, artifact.compressed);
    d.Ok? ==> Json.WellFormed(d.value.header) && Clean(d.value.events)
  }

  /** Parsing never repeats a key, and every number has one form. */
  ghost predicate ParsesWell(host: Host) {
    forall line :: host.parse(line).Some? ==> Json.WellFormed(host.parse(line).value)
  }

  lemma {:induction false} EventsClean(host: Host, lines: seq<seq<Byte>>)
    requires ParsesWell(host) && EventsOf(host, lines).Ok?
    ensures Clean(EventsOf(host, lines).value)
  {
    hide DecodeStorageRecord, EventsFollow, Json.WellFormed;
    if lines != [] {
      EventsClean(host, lines[..|lines| - 1]);
      RecordWellFormed(host.parse(Last(lines)).value);
    }
  }

  /** Whatever decodes consists of such values. */
  lemma DecodedIsParsed(host: Host, artifact: Artifact)
    requires ParsesWell(host)
    ensures Parsed(host, artifact)
  {
    hide EventsOf, Content, IsStorageHeader, Json.WellFormed;
    if DecodeArtifact(host, artifact.bytes, artifact.compressed).Ok? {
      EventsClean(host, SplitLines(Content(host, artifact.bytes, artifact.compressed).value).lines[1..]);
    }
  }

  ghost predicate Prepared(d: Decoded) {
    forall k :: 0 <= k < |d.events| ==> Prepares(d.events[k])
  }

  /** The artifact lies in its session's directory, below that of its project or the one for sessions without any. */
  ghost predicate LiesRight(paths: Paths, place: Place, header: Json.Json)
    requires IsStorageHeader(header)
  {
    match Get(header, "cwd")
    case None => paths.same(place, Place(Units("_no-cwd"), SegmentOf(Get(header, "id").value.text)))
    case Some(cwd) =>
      cwd.text != [] && paths.same(place, Place(KeyOf(cwd.text), SegmentOf(Get(header, "id").value.text)))
  }

  ghost predicate MappingsFit(paths: Paths, mappings: map<Json.Text, Mapping>) {
    forall id :: id in mappings
                 ==> && mappings[id].nativeId == id && IsMapping(paths, mappings[id])
                     && Json.WellFormed(mappings[id].header) && Clean(mappings[id].committed)
  }

  /** The artifact decodes, lies where it should, and is accepted for its session; an unmapped one is preparation. */
  ghost predicate Fits(host: Host, paths: Paths, mappings: map<Json.Text, Mapping>, artifact: Artifact)
    requires MappingsFit(paths, mappings)
  {
    var d := DecodeArtifact(host, artifact.bytes, artifact.compressed);
    && d.Ok? && IsStorageHeader(d.value.header) && LiesRight(paths, artifact.place, d.value.header)
    && (if IdOf(d.value) in mappings then Accepted(paths, mappings[IdOf(d.value)], d.value) else Prepared(d.value))
  }

  ghost predicate IsContinued(host: Host, mappings: map<Json.Text, Mapping>, artifact: Artifact) {
    && SessionOf(host, artifact).Some? && SessionOf(host, artifact).value in mappings
    && Continues(mappings[SessionOf(host, artifact).value],
         DecodeArtifact(host, artifact.bytes, artifact.compressed).value)
  }

  /** One operation for each artifact of a mapped session that somebody continued, in the order of the artifacts. */
  ghost predicate RecoveredFrom(host: Host, mappings: map<Json.Text, Mapping>, artifacts: seq<Artifact>,
      operations: seq<Recovered>) {
    if artifacts == [] then operations == []
    else
      var init, artifact := artifacts[..|artifacts| - 1], Last(artifacts);
      if IsContinued(host, mappings, artifact) then
        && operations != []
        && Carries(mappings[SessionOf(host, artifact).value],
             DecodeArtifact(host, artifact.bytes, artifact.compressed).value, Last(operations))
        && RecoveredFrom(host, mappings, init, operations[..|operations| - 1])
      else RecoveredFrom(host, mappings, init, operations)
  }

  lemma PreparedExactly(d: Decoded)
    ensures AllPrelude(d.events) <==> Prepared(d)
  {
    hide IsPrelude, Prepares;
    forall k | 0 <= k < |d.events|
      ensures IsPrelude(d.events[k]) <==> Prepares(d.events[k])
    {
      PreludeExactly(d.events[k]);
    }
  }

  lemma PlaceExactly(paths: Paths, place: Place, header: Json.Json)
    requires IsStorageHeader(header)
    ensures ExpectedPlace(header).Some? && paths.same(place, ExpectedPlace(header).value)
            <==> LiesRight(paths, place, header)
  {
    hide SegmentOf, KeyOf;
  }

  /** One artifact of the run: what it must meet, and what it adds. */
  lemma ArtifactExactly(host: Host, paths: Paths, mappings: map<Json.Text, Mapping>, before: Progress,
      artifact: Artifact)
    requires Mapped(mappings) && MappingsFit(paths, mappings) && Parsed(host, artifact)
    ensures RecoverArtifact(host, paths, mappings, before, artifact).Ok?
            <==> Fits(host, paths, mappings, artifact) && SessionOf(host, artifact).value !in before.seen
    ensures RecoverArtifact(host, paths, mappings, before, artifact).Ok?
            ==> SessionOf(host, artifact).Some?
                && RecoverArtifact(host, paths, mappings, before, artifact).value.seen
                   == before.seen + {SessionOf(host, artifact).value}
    ensures RecoverArtifact(host, paths, mappings, before, artifact).Ok?
            ==> var operations := RecoverArtifact(host, paths, mappings, before, artifact).value.operations;
                if IsContinued(host, mappings, artifact) then
                  && |operations| == |before.operations| + 1 && before.operations == operations[..|before.operations|]
                  && Carries(mappings[SessionOf(host, artifact).value],
                       DecodeArtifact(host, artifact.bytes, artifact.compressed).value, Last(operations))
                else operations == before.operations
  {
    hide IsStorageHeader, RecoverTail, DecodeArtifact, AllPrelude, ExpectedPlace, LiesRight, Accepted, Prepared,
        Continues, Carries, IsMapping, Clean, Json.WellFormed;
    if DecodeArtifact(host, artifact.bytes, artifact.compressed).Ok? {
      var d := DecodeArtifact(host, artifact.bytes, artifact.compressed).value;
      DecodedHeader(host, artifact.bytes, artifact.compressed);
      PlaceExactly(paths, artifact.place, d.header);
      PreparedExactly(d);
      if IdOf(d) in mappings {
        AcceptedExactly(paths, mappings[IdOf(d)], d);
        TailExactly(paths, mappings[IdOf(d)], d);
      }
    }
  }

  lemma TailExactly(paths: Paths, m: Mapping, d: Decoded)
    requires IsStorageHeader(d.header) && 0 <= m.revision == |m.committed|
    ensures var tail := RecoverTail(paths, m, d);
            tail.Ok?
            ==> (tail.value.None? <==> !Continues(m, d)) && (tail.value.Some? ==> Carries(m, d, tail.value.value))
  {
    hide RecoverTail, Carries, Continues, IsStorageHeader;
    var tail := RecoverTail(paths, m, d);
    if tail.Ok? {
      if tail.value.Some? {
        RecoveredExactly(paths, m, d, tail.value.value);
      } else {
        RecoveredExactly(paths, m, d, Recovered([], 0, 0, "", None, None, []));
      }
    }
  }

  ghost predicate AllFit(host: Host, paths: Paths, mappings: map<Json.Text, Mapping>, artifacts: seq<Artifact>)
    requires MappingsFit(paths, mappings)
  {
    && (forall k :: 0 <= k < |artifacts| ==> Fits(host, paths, mappings, artifacts[k]))
    && forall j, k :: 0 <= j < k < |artifacts| ==> SessionOf(host, artifacts[j]) != SessionOf(host, artifacts[k])
  }

  lemma FitOneMore(host: Host, paths: Paths, mappings: map<Json.Text, Mapping>, artifacts: seq<Artifact>,
      artifact: Artifact)
    requires MappingsFit(paths, mappings)
    ensures AllFit(host, paths, mappings, artifacts + [artifact])
            <==> && AllFit(host, paths, mappings, artifacts) && Fits(host, paths, mappings, artifact)
                 && forall j :: 0 <= j < |artifacts| ==> SessionOf(host, artifacts[j]) != SessionOf(host, artifact)
  {
    hide Fits, SessionOf, MappingsFit;
    var more := artifacts + [artifact];
    assert more[|artifacts|] == artifact && forall k :: 0 <= k < |artifacts| ==> more[k] == artifacts[k];
    if AllFit(host, paths, mappings, more) {
      forall j | 0 <= j < |artifacts|
        ensures SessionOf(host, artifacts[j]) != SessionOf(host, artifact)
      {
        assert SessionOf(host, more[j]) != SessionOf(host, more[|artifacts|]);
      }
      forall k | 0 <= k < |artifacts|
        ensures Fits(host, paths, mappings, artifacts[k])
      {
        assert Fits(host, paths, mappings, more[k]);
      }
      assert Fits(host, paths, mappings, more[|artifacts|]);
    }
  }

  lemma FittingHasSession(host: Host, paths: Paths, mappings: map<Json.Text, Mapping>, artifact: Artifact)
    requires MappingsFit(paths, mappings) && Fits(host, paths, mappings, artifact)
    ensures SessionOf(host, artifact).Some?
  {
  }

  ghost predicate SeenAre(host: Host, artifacts: seq<Artifact>, seen: set<Json.Text>) {
    forall id :: id in seen <==> exists k :: 0 <= k < |artifacts| && SessionOf(host, artifacts[k]) == Some(id)
  }

  lemma SeenOneMore(host: Host, artifacts: seq<Artifact>, artifact: Artifact, seen: set<Json.Text>, id: Json.Text)
    requires SeenAre(host, artifacts, seen) && SessionOf(host, artifact) == Some(id)
    ensures SeenAre(host, artifacts + [artifact], seen + {id})
    ensures id !in seen
            <==> forall j :: 0 <= j < |artifacts| ==> SessionOf(host, artifacts[j]) != SessionOf(host, artifact)
  {
    hide SessionOf;
    var more := artifacts + [artifact];
    assert more[|artifacts|] == artifact && forall k :: 0 <= k < |artifacts| ==> more[k] == artifacts[k];
  }

  /**
   * Recovery as a whole: it succeeds exactly when every artifact fits and no two belong to one session, and then gives
   * one operation for each session that somebody continued.
   */
  lemma {:induction false} RecoveryExactly(host: Host, paths: Paths, mappings: map<Json.Text, Mapping>,
      artifacts: seq<Artifact>)
    requires Mapped(mappings) && MappingsFit(paths, mappings) && ParsesWell(host)
    ensures RecoverAll(host, paths, mappings, artifacts).Ok? <==> AllFit(host, paths, mappings, artifacts)
    ensures RecoverAll(host, paths, mappings, artifacts).Ok?
            ==> && SeenAre(host, artifacts, RecoverAll(host, paths, mappings, artifacts).value.seen)
                && RecoveredFrom(host, mappings, artifacts,
                     RecoverAll(host, paths, mappings, artifacts).value.operations)
  {
    hide RecoverArtifact, Fits, SessionOf, IsContinued, Carries, Mapped, MappingsFit, Parsed, SeenAre;
    if artifacts == [] {
      NoneSeen(host);
    } else {
      var init, artifact := artifacts[..|artifacts| - 1], Last(artifacts);
      assert artifacts == init + [artifact];
      RecoveryExactly(host, paths, mappings, init);
      FitOneMore(host, paths, mappings, init, artifact);
      if RecoverAll(host, paths, mappings, init).Ok? {
        var before := RecoverAll(host, paths, mappings, init).value;
        DecodedIsParsed(host, artifact);
        ArtifactExactly(host, paths, mappings, before, artifact);
        if Fits(host, paths, mappings, artifact) {
          FittingHasSession(host, paths, mappings, artifact);
          SeenOneMore(host, init, artifact, before.seen, SessionOf(host, artifact).value);
        }
      }
    }
  }

  lemma NoneSeen(host: Host)
    ensures SeenAre(host, [], {})
  {
  }
}
