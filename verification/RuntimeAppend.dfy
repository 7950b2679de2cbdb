/**
 * Appending to a projected session: an operation carries the events that lead up to its revision, and delivering it
 * late, twice, early or after a partial application never damages the log.
 */
module RuntimeAppend {
  import opened Outcomes
  import opened Sequences
  import opened RuntimeArtifact
  import Json = ExactJson

  datatype Operation = Operation(runId: string, nativeId: Json.Text, revision: int, logicalId: string,
      events: seq<Json.Json>, observedAt: string)

  datatype Session = Session(logicalId: string, baseVersion: Option<string>, updatedAt: string, events: seq<Json.Json>)

  /** What an accepted operation appends; nothing is left of one that was applied before. */
  datatype Verdict = Verdict(appended: seq<Json.Json>, alreadyApplied: bool)

  predicate HasSeq(v: Json.Json, n: int) {
    || Get(v, "seq") == Some(AsNumber(n))
    || (n == 0 && Get(v, "seq") == Some(Json.Numeric(Json.NegativeZero)))
  }

  predicate ContiguousFrom(events: seq<Json.Json>, from: int) {
    forall k :: 0 <= k < |events| ==> HasSeq(events[k], from + k)
  }

  /** isDeepStrictEqual, event by event. */
  predicate SameEvents(a: seq<Json.Json>, b: seq<Json.Json>) {
    |a| == |b| && forall k :: 0 <= k < |a| ==> Json.Alike(a[k], b[k], true)
  }

  function StartOf(op: Operation): int {
    op.revision - |op.events|
  }

  /** The log stands inside the operation and agrees with the part of it that was applied. */
  predicate Resumes(log: seq<Json.Json>, op: Operation) {
    && op.events != []
    && 0 <= StartOf(op) <= |log| <= op.revision
    && SameEvents(log[StartOf(op)..], op.events[..|log| - StartOf(op)])
  }

  function ValidateAppend(session: Session, op: Operation): Result<Verdict> {
    var log := session.events;
    if session.logicalId != op.logicalId then Err("Rc1 append logical session does not match the projection")
    else if Resumes(log, op) then
      var appended := op.events[|log| - StartOf(op)..];
      if ContiguousFrom(appended, |log|) then Ok(Verdict(appended, appended == []))
      else Err("Rc1 append event sequence is not contiguous")
    else if op.revision != |log| + |op.events| then Err("Rc1 native revision mismatch")
    else if !ContiguousFrom(op.events, |log|) then Err("Rc1 append event sequence is not contiguous")
    else Ok(Verdict(op.events, false))
  }

  function ApplyAppend(session: Session, op: Operation): Result<Session> {
    match ValidateAppend(session, op)
    case Err(fault) => Err(fault)
    case Ok(verdict) =>
      if verdict.alreadyApplied then Ok(session)
      else Ok(session.(updatedAt := op.observedAt, events := session.events + verdict.appended))
  }

  // ----- any operation, any session

  /**
   * An accepted operation leaves the log exactly at its revision, keeps what was there, and adds a suffix of its
   * events.
   */
  lemma AcceptedReachesRevision(session: Session, op: Operation)
    requires ApplyAppend(session, op).Ok?
    ensures var log := ApplyAppend(session, op).value.events;
            && |log| == op.revision && session.events <= log
            && |log| - |session.events| <= |op.events|
            && log[|session.events|..] == op.events[|op.events| - (|log| - |session.events|)..]
  {
    var verdict := ValidateAppend(session, op).value;
    assert session.events + [] == session.events;
    assert (session.events + verdict.appended)[|session.events|..] == verdict.appended;
  }

  /** A log numbered without a gap stays so. */
  lemma AcceptedStaysDense(session: Session, op: Operation)
    requires ApplyAppend(session, op).Ok? && ContiguousFrom(session.events, 0)
    ensures ContiguousFrom(ApplyAppend(session, op).value.events, 0)
  {
    hide HasSeq, Resumes;
    var verdict := ValidateAppend(session, op).value;
    assert ContiguousFrom(verdict.appended, |session.events|);
    var log := session.events + verdict.appended;
    forall k | 0 <= k < |log|
      ensures HasSeq(log[k], k)
    {
      if k >= |session.events| {
        assert HasSeq(verdict.appended[k - |session.events|], |session.events| + (k - |session.events|));
      }
    }
  }

  /** The event has this sequence number; minus zero counts as zero. */
  ghost predicate Numbered(v: Json.Json, n: int) {
    && Get(v, "seq").Some? && Get(v, "seq").value.Numeric?
    && (Get(v, "seq").value.number == Json.Integer(n) || (n == 0 && Get(v, "seq").value.number == Json.NegativeZero))
  }

  /**
   * The log stands within the events of the operation: those it has reached are there already, the others are numbered
   * on from it.
   */
  ghost predicate StandsWithin(session: Session, op: Operation) {
    var log, start := session.events, op.revision - |op.events|;
    && op.logicalId == session.logicalId && 0 <= start <= |log| <= op.revision
    && forall i :: 0 <= i < |op.events|
         ==> if start + i < |log| then Json.Alike(log[start + i], op.events[i], true)
             else Numbered(op.events[i], start + i)
  }

  /**
   * An append is accepted exactly when the log stands within it; then only the new events and the time change, and not
   * even the time when everything was applied before.
   */
  lemma AppendExactly(session: Session, op: Operation)
    ensures ApplyAppend(session, op).Ok? <==> StandsWithin(session, op)
    ensures ApplyAppend(session, op).Ok?
            ==> var after := ApplyAppend(session, op).value;
                && after.logicalId == session.logicalId && after.baseVersion == session.baseVersion
                && after.events == session.events + op.events[|op.events| - (op.revision - |session.events|)..]
                && after.updatedAt
                   == (if op.events != [] && op.revision == |session.events| then session.updatedAt else op.observedAt)
  {
    hide SameEvents, ContiguousFrom, StandsWithin;
    var log, start := session.events, StartOf(op);
    StandsExactly(session, op);
    if 0 <= start <= |log| <= op.revision {
      if op.events != [] && op.revision == |log| {
        NothingFollows(op.events[|log| - start..], |log|);
        assert log + [] == log;
      }
      if start == |log| {
        assert op.events[0..] == op.events;
        NothingOverlaps(log[|log|..], op.events[..0]);
      }
      if op.events == [] {
        NothingFollows(op.events, |log|);
        NothingOverlaps(log[|log|..], op.events[..0]);
      }
    }
  }

  lemma NothingFollows(events: seq<Json.Json>, from: int)
    ensures events == [] ==> ContiguousFrom(events, from)
  {
  }

  lemma NothingOverlaps(a: seq<Json.Json>, b: seq<Json.Json>)
    ensures a == [] && b == [] ==> SameEvents(a, b)
  {
  }

  lemma StandsExactly(session: Session, op: Operation)
    ensures StandsWithin(session, op)
            <==> && op.logicalId == session.logicalId && 0 <= StartOf(op) <= |session.events| <= op.revision
                 && SameEvents(session.events[StartOf(op)..], op.events[..|session.events| - StartOf(op)])
                 && ContiguousFrom(op.events[|session.events| - StartOf(op)..], |session.events|)
  {
    hide HasSeq, Numbered, SameEvents, ContiguousFrom;
    var log, start := session.events, StartOf(op);
    if 0 <= start <= |log| <= op.revision {
      OverlapExactly(log, op.events, start);
      RestExactly(op.events, start, |log| - start);
      NumberedAlike(op.events, start);
    }
  }

  lemma OverlapExactly(log: seq<Json.Json>, events: seq<Json.Json>, start: nat)
    requires start <= |log| <= start + |events|
    ensures SameEvents(log[start..], events[..|log| - start])
            <==> forall i :: 0 <= i < |events| && start + i < |log| ==> Json.Alike(log[start + i], events[i], true)
  {
    var a, b := log[start..], events[..|log| - start];
    assert forall i :: 0 <= i < |b| ==> b[i] == events[i] && a[i] == log[start + i];
    if SameEvents(a, b) {
      forall i | 0 <= i < |events| && start + i < |log|
        ensures Json.Alike(log[start + i], events[i], true)
      {
        assert Json.Alike(a[i], b[i], true);
      }
    }
  }

  lemma RestExactly(events: seq<Json.Json>, start: nat, done: nat)
    requires done <= |events|
    ensures ContiguousFrom(events[done..], start + done)
            <==> forall i :: 0 <= i < |events| && done <= i ==> HasSeq(events[i], start + i)
  {
    hide HasSeq;
    var rest := events[done..];
    if ContiguousFrom(rest, start + done) {
      forall i | 0 <= i < |events| && done <= i
        ensures HasSeq(events[i], start + i)
      {
        assert HasSeq(rest[i - done], start + done + (i - done));
      }
    }
    if forall i :: 0 <= i < |events| && done <= i ==> HasSeq(events[i], start + i) {
      forall j | 0 <= j < |rest|
        ensures HasSeq(rest[j], start + done + j)
      {
        assert rest[j] == events[done + j];
      }
    }
  }

  lemma NumberedAlike(events: seq<Json.Json>, start: int)
    ensures forall i :: 0 <= i < |events| ==> (HasSeq(events[i], start + i) <==> Numbered(events[i], start + i))
  {
    hide Get;
  }

  // ----- a chain of operations under any delivery schedule

  function Total(ops: seq<Operation>): nat {
    if ops == [] then 0 else Total(ops[..|ops| - 1]) + |Last(ops).events|
  }

  function EventsOfOp(op: Operation): seq<Json.Json> {
    op.events
  }

  /** The log once every operation has been applied. */
  function Complete(base: seq<Json.Json>, ops: seq<Operation>): seq<Json.Json> {
    base + FlatMap(ops, EventsOfOp)
  }

  /** Operations of one session that lead on from each other, numbered without a gap. */
  ghost predicate Chained(base: seq<Json.Json>, ops: seq<Operation>, logicalId: string) {
    && (forall i :: 0 <= i < |ops| ==> ops[i].logicalId == logicalId && ops[i].revision == |base| + Total(ops[..i + 1]))
    && (forall k :: |base| <= k < |Complete(base, ops)| ==>
          HasSeq(Complete(base, ops)[k], k) && Json.WellFormed(Complete(base, ops)[k]))
  }

  function Deliver(session: Session, op: Operation): Session {
    match ApplyAppend(session, op)
    case Ok(after) => after
    case Err(_) => session
  }

  predicate Names(schedule: seq<nat>, ops: seq<Operation>) {
    forall k :: 0 <= k < |schedule| ==> schedule[k] < |ops|
  }

  function DeliverAll(session: Session, ops: seq<Operation>, schedule: seq<nat>): Session
    requires Names(schedule, ops)
  {
    if schedule == [] then session
    else Deliver(DeliverAll(session, ops, schedule[..|schedule| - 1]), ops[Last(schedule)])
  }

  /** How far the log stands after an operation arrives at a log of this length. */
  function Reach(length: int, op: Operation): int {
    if StartOf(op) <= length <= op.revision then op.revision else length
  }

  lemma {:induction false} TotalIsLength(ops: seq<Operation>)
    ensures Total(ops) == |FlatMap(ops, EventsOfOp)|
  {
    if ops != [] {
      TotalIsLength(ops[..|ops| - 1]);
    }
  }

  lemma TotalStep(ops: seq<Operation>, i: nat)
    requires i < |ops|
    ensures Total(ops[..i + 1]) == Total(ops[..i]) + |ops[i].events|
  {
    assert ops[..i + 1][..i] == ops[..i] && Last(ops[..i + 1]) == ops[i];
  }

  /** The events of an operation lie in the complete log between its start and its revision. */
  lemma PlaceInLog(base: seq<Json.Json>, ops: seq<Operation>, logicalId: string, i: nat)
    requires Chained(base, ops, logicalId) && i < |ops|
    ensures |base| <= StartOf(ops[i]) <= ops[i].revision <= |Complete(base, ops)|
    ensures Complete(base, ops)[StartOf(ops[i])..ops[i].revision] == ops[i].events
  {
    TotalStep(ops, i);
    TotalIsLength(ops[..i]);
    SplitComplete(base, ops, i);
    Middle(base + FlatMap(ops[..i], EventsOfOp), ops[i].events, FlatMap(ops[i + 1..], EventsOfOp));
  }

  lemma SplitComplete(base: seq<Json.Json>, ops: seq<Operation>, i: nat)
    requires i < |ops|
    ensures Complete(base, ops)
            == base + FlatMap(ops[..i], EventsOfOp) + ops[i].events + FlatMap(ops[i + 1..], EventsOfOp)
  {
    assert ops == ops[..i + 1] + ops[i + 1..];
    FlatMapConcat(ops[..i + 1], ops[i + 1..], EventsOfOp);
    assert ops[..i + 1][..i] == ops[..i] && Last(ops[..i + 1]) == ops[i];
    Regroup(base, FlatMap(ops[..i], EventsOfOp), ops[i].events, FlatMap(ops[i + 1..], EventsOfOp));
  }

  lemma Regroup(a: seq<Json.Json>, b: seq<Json.Json>, c: seq<Json.Json>, d: seq<Json.Json>)
    ensures a + ((b + c) + d) == a + b + c + d
  {
  }

  lemma Middle(before: seq<Json.Json>, own: seq<Json.Json>, after: seq<Json.Json>)
    ensures (before + own + after)[|before|..|before| + |own|] == own
  {
  }

  lemma SameSlice(full: seq<Json.Json>, from: nat, to: nat)
    requires from <= to <= |full| && forall k :: from <= k < to ==> Json.WellFormed(full[k])
    ensures SameEvents(full[from..to], full[from..to])
  {
    forall k | 0 <= k < to - from
      ensures Json.Alike(full[from..to][k], full[from..to][k], true)
    {
      Json.AlikeReflexive(full[from + k], true);
    }
  }

  /** What is still missing of an operation continues the log. */
  lemma RestOfOperation(full: seq<Json.Json>, start: nat, length: nat, revision: nat)
    requires start <= length <= revision <= |full|
    ensures full[start..revision][..length - start] == full[start..length]
    ensures full[start..revision][length - start..] == full[length..revision]
    ensures full[..length] + full[length..revision] == full[..revision]
    ensures full[..length][start..] == full[start..length]
  {
  }

  /**
   * One delivery to a log that is a prefix of the complete one: the operation is accepted exactly when the log stands
   * between its start and its revision, and then the log stands at that revision.
   */
  lemma DeliverOne(base: seq<Json.Json>, ops: seq<Operation>, session: Session, i: nat, length: nat)
    requires Chained(base, ops, session.logicalId) && i < |ops|
    requires |base| <= length <= |Complete(base, ops)| && session.events == Complete(base, ops)[..length]
    ensures ApplyAppend(session, ops[i]).Ok? <==> StartOf(ops[i]) <= length <= ops[i].revision
    ensures |base| <= Reach(length, ops[i]) <= |Complete(base, ops)|
    ensures Deliver(session, ops[i]).events == Complete(base, ops)[..Reach(length, ops[i])]
    ensures Deliver(session, ops[i]).logicalId == session.logicalId
  {
    hide HasSeq, Complete, SameEvents;
    var full, op := Complete(base, ops), ops[i];
    PlaceInLog(base, ops, session.logicalId, i);
    if StartOf(op) <= length <= op.revision {
      RestOfOperation(full, StartOf(op), length, op.revision);
      SameSlice(full, StartOf(op), length);
      RestContiguous(full, length, op.revision);
    }
  }

  lemma RestContiguous(full: seq<Json.Json>, from: nat, to: nat)
    requires from <= to <= |full| && forall k :: from <= k < |full| ==> HasSeq(full[k], k)
    ensures ContiguousFrom(full[from..to], from)
  {
  }

  function LengthAfter(length: int, ops: seq<Operation>, schedule: seq<nat>): int
    requires Names(schedule, ops)
  {
    if schedule == [] then length
    else Reach(LengthAfter(length, ops, schedule[..|schedule| - 1]), ops[Last(schedule)])
  }

  /**
   * Whatever the schedule - duplicates, stale retries, early arrivals - the log is a prefix of the complete one, of the
   * length the accepted operations give it.
   */
  lemma {:induction false} AnySchedule(base: seq<Json.Json>, ops: seq<Operation>, session: Session, schedule: seq<nat>)
    requires Chained(base, ops, session.logicalId) && session.events == base
    requires Names(schedule, ops)
    ensures |base| <= LengthAfter(|base|, ops, schedule) <= |Complete(base, ops)|
    ensures DeliverAll(session, ops, schedule).events == Complete(base, ops)[..LengthAfter(|base|, ops, schedule)]
    ensures DeliverAll(session, ops, schedule).logicalId == session.logicalId
  {
    hide Chained, Reach, Deliver;
    if schedule == [] {
      assert Complete(base, ops)[..|base|] == base;
    } else {
      var init := schedule[..|schedule| - 1];
      AnySchedule(base, ops, session, init);
      DeliverOne(base, ops, DeliverAll(session, ops, init), Last(schedule), LengthAfter(|base|, ops, init));
    }
  }

  /** How many operations, in order, a schedule delivers at least once after their predecessors. */
  function InOrderCount(schedule: seq<nat>): nat {
    if schedule == [] then 0
    else
      var before := InOrderCount(schedule[..|schedule| - 1]);
      if Last(schedule) == before then before + 1 else before
  }

  lemma {:induction false} InOrderReached(base: seq<Json.Json>, ops: seq<Operation>, session: Session,
      schedule: seq<nat>)
    requires Chained(base, ops, session.logicalId) && session.events == base
    requires Names(schedule, ops)
    ensures InOrderCount(schedule) <= |ops|
    ensures LengthAfter(|base|, ops, schedule) >= |base| + Total(ops[..InOrderCount(schedule)])
  {
    if schedule != [] {
      var init := schedule[..|schedule| - 1];
      InOrderReached(base, ops, session, init);
      AnySchedule(base, ops, session, init);
      if Last(schedule) == InOrderCount(init) {
        TotalStep(ops, Last(schedule));
      }
    }
  }

  /** At-least-once delivery in order, with anything else mixed in, gives the complete log. */
  lemma AtLeastOnce(base: seq<Json.Json>, ops: seq<Operation>, session: Session, schedule: seq<nat>)
    requires Chained(base, ops, session.logicalId) && session.events == base
    requires Names(schedule, ops)
    requires InOrderCount(schedule) == |ops|
    ensures DeliverAll(session, ops, schedule).events == Complete(base, ops)
  {
    AnySchedule(base, ops, session, schedule);
    InOrderReached(base, ops, session, schedule);
    assert ops[..|ops|] == ops;
    TotalIsLength(ops);
    assert Complete(base, ops)[..|Complete(base, ops)|] == Complete(base, ops);
  }
}
