/**
 * Recovering the durable tail of a run: the events that reached the run's own artifact but not the committed log. The
 * committed prefix must be found unchanged in the artifact before anything behind it is recovered.
 */
module RuntimeRecovery {
  import opened Outcomes
  import opened Sequences
  import opened Lines
  import opened RuntimeArtifact
  import opened ArtifactPaths
  import opened RuntimeAppend
  import Json = ExactJson

  /** The committed state of one native session. */
  datatype Mapping = Mapping(
    nativeId: Json.Text,
    logicalId: string,
    baseVersion: Option<string>,
    revision: int,
    header: Json.Json,
    committed: seq<Json.Json>,
    metadata: Option<Json.Json>,
    instanceId: Option<string>)

  datatype Artifact = Artifact(place: Place, bytes: seq<Byte>, compressed: bool)

  /** Path arithmetic of the host. */
  datatype Paths = Paths(
    absolute: Json.Text -> bool,
    managed: Json.Text -> bool, // a directory below the run's own managed root
    same: (Place, Place) -> bool) // two directories below the root; Windows ignores case

  datatype Recovered = Recovered(nativeId: Json.Text, first: nat, revision: nat, logicalId: string,
      baseVersion: Option<string>, instanceId: Option<string>, events: seq<Json.Json>)

  const PRELUDE_TYPES: seq<string> := ["session/end-seed", "permission/preset", "sandbox/mode", "approval/policy"]

  /** A row that is written while a session is being prepared, before anybody continues it. */
  predicate IsPrelude(v: Json.Json) {
    exists k :: 0 <= k < |PRELUDE_TYPES| && Get(v, "type") == Some(Json.Chars(Units(PRELUDE_TYPES[k])))
  }

  predicate AllPrelude(events: seq<Json.Json>) {
    forall k :: 0 <= k < |events| ==> IsPrelude(events[k])
  }

  // ----- mappings

  predicate IsSeeded(header: Json.Json) {
    Get(header, "isSeeded") == Some(Json.Boolean(true))
  }

  predicate IsLogicalHeader(paths: Paths, v: Json.Json, id: Json.Text) {
    && v.Object? && !Has(v, "type") && !Has(v, "seedLength")
    && (Get(v, "version") == Some(AsNumber(0)) || Get(v, "version") == Some(Json.Numeric(Json.NegativeZero)))
    && Get(v, "id") == Some(Json.Chars(id))
    && IsCount(Get(v, "createdAt"))
    && Has(v, "isSeeded") && Get(v, "isSeeded").value.Boolean?
    && (Has(v, "cwd") ==> IsString(Get(v, "cwd")) && paths.absolute(Get(v, "cwd").value.text))
    && OptionalString(v, "parentSession") && OptionalString(v, "agentPreset")
    && (Has(v, "origin") ==> Get(v, "origin") == Some(Json.Chars(Units("subagent"))))
    && (Has(v, "delegationDepth") ==> IsCount(Get(v, "delegationDepth")))
  }

  /** How many events the session inherited; None when header and metadata do not agree. */
  function InheritedCount(header: Json.Json, metadata: Option<Json.Json>): Option<int> {
    var stated :=
      if metadata.None? then (if IsSeeded(header) then None else Some(0))
      else if HasExactKeys(metadata.value, ["inheritedEventCount"])
          && IsCount(Get(metadata.value, "inheritedEventCount"))
      then Some(IntegerOf(Get(metadata.value, "inheritedEventCount")))
      else None;
    if stated.Some? && !IsSeeded(header) && stated.value != 0 then None else stated
  }

  predicate IsMapping(paths: Paths, m: Mapping) {
    && 0 <= m.revision == |m.committed|
    && IsLogicalHeader(paths, m.header, m.nativeId)
    && InheritedCount(m.header, m.metadata).Some?
    && EventsFollow(m.committed, 0)
  }

  // ----- headers

  function KeepOthers(keys: set<Json.Text>): Json.Field -> bool {
    (f: Json.Field) => f.key !in keys
  }

  /** The physical header as a session header. */
  function NativeHeader(storage: Json.Json): (r: Json.Json)
    requires storage.Object?
    ensures r.Object?
  {
    Json.Object(Filter(storage.fields, KeepOthers({Units("type"), Units("seedLength")}))
        + [Pair("isSeeded", Json.Boolean(Has(storage, "seedLength")))])
  }

  function WithoutCwd(v: Json.Json): (r: Json.Json)
    requires v.Object?
    ensures r.Object?
  {
    Json.Object(Filter(v.fields, KeepOthers({Units("cwd")})))
  }

  /** The mapped header with the delegation depth the writer stores when there is none. */
  function Persisted(header: Json.Json): (r: Json.Json)
    requires header.Object?
    ensures r.Object?
  {
    if Has(header, "delegationDepth") then header
        else Json.Object(header.fields + [Pair("delegationDepth", AsNumber(0))])
  }

  predicate SameRuntimeHeader(paths: Paths, runtime: Json.Json, mapping: Json.Json)
    requires runtime.Object?
  {
    && mapping.Object?
    && (|| Json.SameJson(runtime, Persisted(mapping))
        || (&& IsString(Get(runtime, "cwd")) && paths.managed(Get(runtime, "cwd").value.text)
            && Json.SameJson(WithoutCwd(runtime), WithoutCwd(Persisted(mapping)))))
  }

  function SeedLength(storage: Json.Json): int
    requires IsStorageHeader(storage)
  {
    if Has(storage, "seedLength") then IntegerOf(Get(storage, "seedLength")) else 0
  }

  // ----- one artifact

  predicate PrefixKept(events: seq<Json.Json>, committed: seq<Json.Json>) {
    |committed| <= |events| && forall k :: 0 <= k < |committed| ==> Json.SameJson(events[k], committed[k])
  }

  /** The tail of a mapped artifact; None when there is nothing but preparation behind the committed prefix. */
  function RecoverTail(paths: Paths, m: Mapping, d: Decoded): Result<Option<Recovered>>
    requires IsStorageHeader(d.header) && 0 <= m.revision == |m.committed|
  {
    if !SameRuntimeHeader(paths, NativeHeader(d.header), m.header) then Err("Rc1 SessionHeader was rewritten")
    else if InheritedCount(m.header, m.metadata) != Some(SeedLength(d.header))
        then Err("Rc1 inherited event count was rewritten")
    else if |d.events| < m.revision then Err("Rc1 artifact lost committed events")
    else if !PrefixKept(d.events, m.committed) then Err("Rc1 committed prefix differs")
    else
      var tail := d.events[m.revision..];
      if tail == [] || AllPrelude(tail) then Ok(None)
      else Ok(Some(Recovered(m.nativeId, m.revision, |d.events|, m.logicalId, m.baseVersion, m.instanceId, tail)))
  }

  datatype Progress = Progress(seen: set<Json.Text>, operations: seq<Recovered>)

  function IdOf(d: Decoded): Json.Text
    requires IsStorageHeader(d.header)
  {
    Get(d.header, "id").value.text
  }

  lemma DecodedHeader(host: Host, bytes: seq<Byte>, compressed: bool)
    requires DecodeArtifact(host, bytes, compressed).Ok?
    ensures IsStorageHeader(DecodeArtifact(host, bytes, compressed).value.header)
    ensures EventsFollow(DecodeArtifact(host, bytes, compressed).value.events, 0)
  {
    hide IsStorageHeader, LineEvents;
    EventsDense(host, SplitLines(Content(host, bytes, compressed).value).lines[1..]);
  }

  ghost predicate Mapped(mappings: map<Json.Text, Mapping>) {
    forall id :: id in mappings
        ==> mappings[id].nativeId == id && 0 <= mappings[id].revision == |mappings[id].committed|
  }

  function RecoverArtifact(host: Host, paths: Paths, mappings: map<Json.Text, Mapping>, before: Progress,
      artifact: Artifact): Result<Progress>
    requires Mapped(mappings)
  {
    match DecodeArtifact(host, artifact.bytes, artifact.compressed)
    case Err(fault) => Err(fault)
    case Ok(d) =>
      DecodedHeader(host, artifact.bytes, artifact.compressed);
      var id := IdOf(d);
      if id in before.seen then Err("Duplicate Rc1 artifact")
      else if ExpectedPlace(d.header).None?
          || !paths.same(artifact.place, ExpectedPlace(d.header).value)
          then Err("Rc1 artifact path does not match SessionHeader")
      else
        var after := before.(seen := before.seen + {id});
        if id !in mappings then
          if AllPrelude(d.events) then Ok(after) else Err("No committed mapping exists")
        else
          match RecoverTail(paths, mappings[id], d)
          case Err(fault) => Err(fault)
          case Ok(None) => Ok(after)
          case Ok(Some(op)) => Ok(after.(operations := after.operations + [op]))
  }

  function RecoverAll(host: Host, paths: Paths, mappings: map<Json.Text, Mapping>,
      artifacts: seq<Artifact>): Result<Progress>
    requires Mapped(mappings)
  {
    if artifacts == [] then Ok(Progress({}, []))
    else
      match RecoverAll(host, paths, mappings, artifacts[..|artifacts| - 1])
      case Err(fault) => Err(fault)
      case Ok(before) => RecoverArtifact(host, paths, mappings, before, Last(artifacts))
  }

  // ----- the loops of the source

  /** The sessions are mappings of different native sessions. */
  ghost predicate IsMappings(paths: Paths, sessions: seq<Mapping>) {
    && (forall i :: 0 <= i < |sessions| ==> IsMapping(paths, sessions[i]))
    && (forall i, j :: 0 <= i < j < |sessions| ==> sessions[i].nativeId != sessions[j].nativeId)
  }

  function ById(sessions: seq<Mapping>): map<Json.Text, Mapping> {
    if sessions == [] then map[] else ById(sessions[..|sessions| - 1])[Last(sessions).nativeId := Last(sessions)]
  }

  lemma {:induction false} ByIdMapped(paths: Paths, sessions: seq<Mapping>)
    requires forall i :: 0 <= i < |sessions| ==> IsMapping(paths, sessions[i])
    ensures Mapped(ById(sessions))
    ensures forall id :: id in ById(sessions) <==> exists i :: 0 <= i < |sessions| && sessions[i].nativeId == id
  {
    hide IsLogicalHeader, InheritedCount;
    if sessions != [] {
      ByIdMapped(paths, sessions[..|sessions| - 1]);
    }
  }

  /** Each session is found under its identity. */
  lemma {:induction false} EachIsFound(paths: Paths, sessions: seq<Mapping>)
    requires IsMappings(paths, sessions)
    ensures forall i :: 0 <= i < |sessions|
              ==> sessions[i].nativeId in ById(sessions) && ById(sessions)[sessions[i].nativeId] == sessions[i]
  {
    hide IsMapping;
    if sessions != [] {
      EachIsFound(paths, sessions[..|sessions| - 1]);
    }
  }

  method NormalizeMappings(paths: Paths, sessions: seq<Mapping>) returns (r: Result<map<Json.Text, Mapping>>)
    ensures r.Ok? <==> IsMappings(paths, sessions)
    ensures r.Ok? ==> r.value == ById(sessions) && Mapped(r.value)
  {
    hide IsMapping;
    var mappings: map<Json.Text, Mapping> := map[];
    for i := 0 to |sessions|
      invariant mappings == ById(sessions[..i])
      invariant IsMappings(paths, sessions[..i])
    {
      assert sessions[..i + 1][..i] == sessions[..i] && Last(sessions[..i + 1]) == sessions[i];
      ByIdMapped(paths, sessions[..i]);
      if !IsMapping(paths, sessions[i]) {
        return Err("Invalid Rc1 mapping");
      }
      if sessions[i].nativeId in mappings {
        return Err("Duplicate native session mapping");
      }
      mappings := mappings[sessions[i].nativeId := sessions[i]];
    }
    assert sessions[..|sessions|] == sessions;
    ByIdMapped(paths, sessions);
    return Ok(mappings);
  }

  lemma {:induction false} RecoveryFails(host: Host, paths: Paths, mappings: map<Json.Text, Mapping>,
      artifacts: seq<Artifact>, n: nat)
    requires Mapped(mappings) && n <= |artifacts| && RecoverAll(host, paths, mappings, artifacts[..n]).Err?
    ensures RecoverAll(host, paths, mappings, artifacts) == RecoverAll(host, paths, mappings, artifacts[..n])
  {
    hide RecoverArtifact;
    if n < |artifacts| {
      assert artifacts[..|artifacts| - 1][..n] == artifacts[..n];
      RecoveryFails(host, paths, mappings, artifacts[..|artifacts| - 1], n);
    } else {
      assert artifacts[..n] == artifacts;
    }
  }

  method RecoverRc1RuntimeTail(host: Host, paths: Paths, sessions: seq<Mapping>, artifacts: seq<Artifact>)
      returns (r: Result<seq<Recovered>>)
    ensures r.Ok? ==> IsMappings(paths, sessions) && Mapped(ById(sessions))
    ensures r.Ok?
            ==> RecoverAll(host, paths, ById(sessions), artifacts).Ok?
                && r.value == RecoverAll(host, paths, ById(sessions), artifacts).value.operations
    ensures r.Err?
            ==> !IsMappings(paths, sessions)
                || (Mapped(ById(sessions)) && RecoverAll(host, paths, ById(sessions), artifacts).Err?)
  {
    hide RecoverArtifact, IsMappings, Mapped;
    var mappings :- NormalizeMappings(paths, sessions);
    var progress := Progress({}, []);
    for i := 0 to |artifacts|
      invariant RecoverAll(host, paths, mappings, artifacts[..i]) == Ok(progress)
    {
      assert artifacts[..i + 1][..i] == artifacts[..i] && Last(artifacts[..i + 1]) == artifacts[i];
      var next := RecoverArtifact(host, paths, mappings, progress, artifacts[i]);
      if next.Err? {
        RecoveryFails(host, paths, mappings, artifacts, i + 1);
        return Err(next.fault);
      }
      progress := next.value;
    }
    assert artifacts[..|artifacts|] == artifacts;
    return Ok(progress.operations);
  }

  // ----- what recovery guarantees

  ghost predicate ComesFrom(host: Host, paths: Paths, mappings: map<Json.Text, Mapping>, artifact: Artifact,
      op: Recovered) {
    var d := DecodeArtifact(host, artifact.bytes, artifact.compressed);
    && d.Ok? && IsStorageHeader(d.value.header) && EventsFollow(d.value.events, 0)
    && IdOf(d.value) == op.nativeId && op.nativeId in mappings
    && 0 <= mappings[op.nativeId].revision == |mappings[op.nativeId].committed|
    && RecoverTail(paths, mappings[op.nativeId], d.value) == Ok(Some(op))
  }

  ghost predicate Grounded(host: Host, paths: Paths, mappings: map<Json.Text, Mapping>, artifacts: seq<Artifact>,
      p: Progress) {
    && (forall k :: 0 <= k < |p.operations|
         ==> p.operations[k].nativeId in p.seen && HasSource(host, paths, mappings, artifacts, p.operations[k]))
    && (forall j, k :: 0 <= j < k < |p.operations| ==> p.operations[j].nativeId != p.operations[k].nativeId)
  }

  ghost predicate HasSource(host: Host, paths: Paths, mappings: map<Json.Text, Mapping>, artifacts: seq<Artifact>,
      op: Recovered) {
    exists i :: 0 <= i < |artifacts| && ComesFrom(host, paths, mappings, artifacts[i], op)
  }

  lemma SourceStays(host: Host, paths: Paths, mappings: map<Json.Text, Mapping>, artifacts: seq<Artifact>,
      artifact: Artifact, op: Recovered)
    ensures HasSource(host, paths, mappings, artifacts, op)
            ==> HasSource(host, paths, mappings, artifacts + [artifact], op)
    ensures ComesFrom(host, paths, mappings, artifact, op)
            ==> HasSource(host, paths, mappings, artifacts + [artifact], op)
  {
    hide ComesFrom;
    var more := artifacts + [artifact];
    assert more[|artifacts|] == artifact && forall i :: 0 <= i < |artifacts| ==> more[i] == artifacts[i];
  }

  /** Every recovered operation is the tail of one artifact of its own session, and no session is recovered twice. */
  lemma {:induction false} OperationsComeFromArtifacts(host: Host, paths: Paths, mappings: map<Json.Text, Mapping>,
      artifacts: seq<Artifact>)
    requires Mapped(mappings) && RecoverAll(host, paths, mappings, artifacts).Ok?
    ensures Grounded(host, paths, mappings, artifacts, RecoverAll(host, paths, mappings, artifacts).value)
  {
    hide RecoverArtifact, HasSource, ComesFrom, Mapped;
    if artifacts != [] {
      var init, artifact := artifacts[..|artifacts| - 1], Last(artifacts);
      OperationsComeFromArtifacts(host, paths, mappings, init);
      var before, after := RecoverAll(host, paths, mappings, init).value,
          RecoverAll(host, paths, mappings, artifacts).value;
      OneArtifact(host, paths, mappings, before, artifact);
      forall k | 0 <= k < |after.operations|
        ensures after.operations[k].nativeId in after.seen
                && HasSource(host, paths, mappings, artifacts, after.operations[k])
      {
        assert k < |before.operations| ==> after.operations[k] == before.operations[k];
        SourceStays(host, paths, mappings, init, artifact, after.operations[k]);
        assert artifacts == init + [artifact];
      }
    }
  }

  lemma OneArtifact(host: Host, paths: Paths, mappings: map<Json.Text, Mapping>, before: Progress, artifact: Artifact)
    requires Mapped(mappings) && RecoverArtifact(host, paths, mappings, before, artifact).Ok?
    ensures var after := RecoverArtifact(host, paths, mappings, before, artifact).value;
            && before.seen <= after.seen && before.operations <= after.operations
            && |after.operations| <= |before.operations| + 1
            && (|after.operations| > |before.operations| ==>
                  && ComesFrom(host, paths, mappings, artifact, Last(after.operations))
                  && Last(after.operations).nativeId in after.seen && Last(after.operations).nativeId !in before.seen)
  {
    hide IsStorageHeader, SameRuntimeHeader, NativeHeader, DecodeArtifact, PrefixKept, AllPrelude;
    DecodedHeader(host, artifact.bytes, artifact.compressed);
  }

  /** An artifact that is read lies in the directory named after its session, up to what the host ignores in names. */
  ghost predicate Placed(host: Host, fold: Json.Text -> Json.Text, artifact: Artifact, seen: set<Json.Text>) {
    var d := DecodeArtifact(host, artifact.bytes, artifact.compressed);
    && d.Ok? && IsStorageHeader(d.value.header) && IdOf(d.value) in seen
    && fold(artifact.place.session) == fold(SegmentOf(IdOf(d.value)))
  }

  /** Equal directories have equal names after folding; folding is the identity where case counts. */
  ghost predicate FoldsNames(paths: Paths, fold: Json.Text -> Json.Text) {
    forall p, q :: paths.same(p, q) ==> fold(p.session) == fold(q.session)
  }

  lemma OnePlaced(host: Host, paths: Paths, fold: Json.Text -> Json.Text, mappings: map<Json.Text, Mapping>,
      before: Progress, artifact: Artifact)
    requires Mapped(mappings) && RecoverArtifact(host, paths, mappings, before, artifact).Ok? && FoldsNames(paths, fold)
    ensures var after := RecoverArtifact(host, paths, mappings, before, artifact).value;
            && before.seen <= after.seen && Placed(host, fold, artifact, after.seen)
            && IdOf(DecodeArtifact(host, artifact.bytes, artifact.compressed).value) !in before.seen
  {
    hide IsStorageHeader, RecoverTail, DecodeArtifact, AllPrelude, SegmentOf;
    DecodedHeader(host, artifact.bytes, artifact.compressed);
  }

  /** The session whose artifact lies here. */
  function SessionOf(host: Host, artifact: Artifact): Option<Json.Text> {
    match DecodeArtifact(host, artifact.bytes, artifact.compressed)
    case Err(_) => None
    case Ok(d) => if IsStorageHeader(d.header) then Some(IdOf(d)) else None
  }

  /** A recovery that returns has read every artifact in its session's directory, and no session twice. */
  lemma {:induction false} OneArtifactPerSession(
      host: Host, paths: Paths, fold: Json.Text -> Json.Text, mappings: map<Json.Text, Mapping>,
          artifacts: seq<Artifact>)
    requires Mapped(mappings) && RecoverAll(host, paths, mappings, artifacts).Ok? && FoldsNames(paths, fold)
    ensures forall k :: 0 <= k < |artifacts|
              ==> Placed(host, fold, artifacts[k], RecoverAll(host, paths, mappings, artifacts).value.seen)
    ensures forall j, k :: 0 <= j < k < |artifacts| ==> SessionOf(host, artifacts[j]) != SessionOf(host, artifacts[k])
  {
    hide RecoverArtifact, Mapped, DecodeArtifact, IsStorageHeader, SegmentOf, FoldsNames;
    if artifacts != [] {
      var init := artifacts[..|artifacts| - 1];
      OneArtifactPerSession(host, paths, fold, mappings, init);
      OnePlaced(host, paths, fold, mappings, RecoverAll(host, paths, mappings, init).value, Last(artifacts));
      assert forall k :: 0 <= k < |init| ==> artifacts[k] == init[k];
    }
  }

  /** Where case counts, the directory's name reads back to the session, and no name is read twice. */
  lemma OneDirectoryPerSession(host: Host, paths: Paths, mappings: map<Json.Text, Mapping>, artifacts: seq<Artifact>)
    requires Mapped(mappings) && RecoverAll(host, paths, mappings, artifacts).Ok?
    requires forall p, q :: paths.same(p, q) ==> p == q
    ensures forall k :: 0 <= k < |artifacts|
              ==> SessionOf(host, artifacts[k]) == Some(ReadBack(artifacts[k].place.session))
    ensures forall j, k :: 0 <= j < k < |artifacts| ==> artifacts[j].place.session != artifacts[k].place.session
  {
    hide RecoverAll, Mapped, DecodeArtifact, IsStorageHeader, SegmentOf, ReadBack;
    var fold := (s: Json.Text) => s;
    OneArtifactPerSession(host, paths, fold, mappings, artifacts);
    forall k | 0 <= k < |artifacts|
      ensures SessionOf(host, artifacts[k]) == Some(ReadBack(artifacts[k].place.session))
    {
      SegmentReadsBack(SessionOf(host, artifacts[k]).value);
    }
  }

  /** The operation that delivers a recovered tail. */
  function AsOperation(runId: string, observedAt: string, op: Recovered): Operation {
    Operation(runId, op.nativeId, op.revision, op.logicalId, op.events, observedAt)
  }

  lemma FollowingHasSeq(events: seq<Json.Json>, from: nat)
    requires EventsFollow(events, 0) && from <= |events|
    ensures ContiguousFrom(events[from..], from)
  {
    forall k | 0 <= k < |events| - from
      ensures HasSeq(events[from..][k], from + k)
    {
      assert IsEventAt(events[from + k], 0 + (from + k));
    }
  }

  /**
   * Recovery is exact. Take a log that starts with the committed prefix and has reached any point of the artifact:
   * applying the recovered operation is accepted and gives exactly the events of the artifact.
   */
  lemma RecoveryIsExact(paths: Paths, m: Mapping, d: Decoded, session: Session, runId: string, observedAt: string)
    requires IsStorageHeader(d.header) && EventsFollow(d.events, 0) && 0 <= m.revision == |m.committed|
    requires RecoverTail(paths, m, d).Ok? && RecoverTail(paths, m, d).value.Some?
    requires session.logicalId == m.logicalId
    requires m.revision <= |session.events| <= |d.events|
            && SameEvents(session.events[m.revision..], d.events[m.revision..|session.events|])
    ensures var op := AsOperation(runId, observedAt, RecoverTail(paths, m, d).value.value);
            && op.revision == |d.events|
            && ApplyAppend(session, op).Ok?
            && ApplyAppend(session, op).value.events == session.events + d.events[|session.events|..]
  {
    hide SameEvents, SameRuntimeHeader, NativeHeader, PrefixKept, AllPrelude, ContiguousFrom, EventsFollow,
        IsStorageHeader;
    var op := AsOperation(runId, observedAt, RecoverTail(paths, m, d).value.value);
    var length := |session.events|;
    assert op.events == d.events[m.revision..];
    assert op.events[..length - m.revision] == d.events[m.revision..length];
    assert op.events[length - m.revision..] == d.events[length..];
    FollowingHasSeq(d.events, length);
    assert length == |d.events| ==> session.events + d.events[length..] == session.events;
  }

  /** After the artifact has been committed, recovering once more yields nothing. */
  lemma RecoveryIsAFixpoint(paths: Paths, m: Mapping, d: Decoded, committed: seq<Json.Json>)
    requires IsStorageHeader(d.header) && 0 <= m.revision == |m.committed|
    requires RecoverTail(paths, m, d).Ok?
    requires |committed| == |d.events| && forall k :: 0 <= k < |committed| ==> Json.SameJson(d.events[k], committed[k])
    ensures RecoverTail(paths, m.(revision := |committed|, committed := committed), d) == Ok(None)
  {
  }

  /**
   * Nothing is recovered exactly when the header and the prefix are intact and the tail is empty or all preparation.
   */
  lemma NothingToRecover(paths: Paths, m: Mapping, d: Decoded)
    requires IsStorageHeader(d.header) && 0 <= m.revision == |m.committed|
    ensures RecoverTail(paths, m, d) == Ok(None) <==>
              && SameRuntimeHeader(paths, NativeHeader(d.header), m.header)
              && InheritedCount(m.header, m.metadata) == Some(SeedLength(d.header))
              && PrefixKept(d.events, m.committed)
              && AllPrelude(d.events[m.revision..])
  {
  }

  /** The tail of a torn artifact is delivered by the tail of the whole one: torn first, whole later, same log. */
  lemma TornThenWhole(paths: Paths, m: Mapping, torn: Decoded, whole: Decoded, session: Session, runId: string,
      observedAt: string)
    requires IsStorageHeader(whole.header) && EventsFollow(whole.events, 0) && 0 <= m.revision == |m.committed|
    requires torn.header == whole.header && torn.events <= whole.events
    requires RecoverTail(paths, m, torn).Ok? && RecoverTail(paths, m, torn).value.Some?
    requires session.logicalId == m.logicalId && |session.events| == m.revision
    requires forall k :: 0 <= k < |whole.events| ==> Json.WellFormed(whole.events[k])
    ensures RecoverTail(paths, m, whole).Ok?
    ensures RecoverTail(paths, m, whole).value.Some?
    ensures var early := AsOperation(runId, observedAt, RecoverTail(paths, m, torn).value.value);
            var late := AsOperation(runId, observedAt, RecoverTail(paths, m, whole).value.value);
            Deliver(Deliver(session, early), late).events == session.events + whole.events[m.revision..]
  {
    hide SameEvents, SameRuntimeHeader, NativeHeader, IsStorageHeader, EventsFollow, ApplyAppend, IsPrelude;
    assert torn.events == whole.events[..|torn.events|];
    TornEventsFollow(whole.events, |torn.events|);
    TailNotPrelude(torn.events, whole.events, m.revision);
    assert torn.events[m.revision..m.revision] == [] && session.events[m.revision..] == [];
    NoEvents();
    RecoveryIsExact(paths, m, torn, session, runId, observedAt);
    DeliveryKeepsSession(session, AsOperation(runId, observedAt, RecoverTail(paths, m, torn).value.value));
    var middle := Deliver(session, AsOperation(runId, observedAt, RecoverTail(paths, m, torn).value.value));
    assert middle.events == session.events + torn.events[m.revision..];
    assert middle.events[m.revision..] == torn.events[m.revision..] == whole.events[m.revision..|torn.events|];
    SameSlice(whole.events, m.revision, |torn.events|);
    RecoveryIsExact(paths, m, whole, middle, runId, observedAt);
    assert torn.events[m.revision..] + whole.events[|torn.events|..] == whole.events[m.revision..];
  }

  lemma DeliveryKeepsSession(session: Session, op: Operation)
    ensures Deliver(session, op).logicalId == session.logicalId
  {
  }

  lemma NoEvents()
    ensures SameEvents([], [])
  {
  }

  lemma TornEventsFollow(events: seq<Json.Json>, n: nat)
    requires EventsFollow(events, 0) && n <= |events|
    ensures EventsFollow(events[..n], 0)
  {
  }

  lemma TailNotPrelude(torn: seq<Json.Json>, whole: seq<Json.Json>, from: nat)
    requires torn <= whole && from <= |torn| && !AllPrelude(torn[from..])
    ensures !AllPrelude(whole[from..]) && whole[from..] != []
  {
    var k :| 0 <= k < |torn[from..]| && !IsPrelude(torn[from..][k]);
    assert whole[from..][k] == torn[from..][k];
  }
}
