/** The RC1 session checker: rows are numbered increasingly and their turn, step and tool lifecycles nest. */
module SessionInvariants {
  import opened Outcomes
  import opened Sequences
  import opened Canonical

  datatype Lifecycle = Lifecycle(
    nextTurn: int,
    nextStep: int,
    openTurn: Option<int>,
    openStep: Option<int>,
    pending: set<string>)

  const FRESH := Lifecycle(1, 1, None, None, {})

  predicate NamesOpenStep(row: Row, st: Lifecycle) {
    && row.data.turn.Some? && row.data.step.Some?
    && row.data.turn == st.openTurn && row.data.step == st.openStep
  }

  /** The call a tool result answers: message.source.callId. */
  function AnsweredCall(row: Row): Option<string> {
    match row.data.message
    case Some(Message(_, _, ToolSource(callId))) => callId
    case _ => None
  }

  /** One row against the open turn, the open step and the pending calls. */
  function Advance(st: Lifecycle, row: Row): Result<Lifecycle> {
    match row.kind
    case TurnStart =>
      if row.data.turn.None? then Err("no valid turn")
      else if st.openTurn.Some? then Err("turn/start while a turn is open")
      else if row.data.turn.value != st.nextTurn then Err("turn/start out of order")
      else Ok(st.(openTurn := row.data.turn, nextStep := 1))
    case TurnEnd =>
      if row.data.turn.None? then Err("no valid turn")
      else if row.data.turn != st.openTurn then Err("turn/end does not match the open turn")
      else if st.openStep.Some? then Err("turn/end while a step is open")
      else Ok(st.(openTurn := None, nextTurn := st.nextTurn + 1))
    case StepStart =>
      if row.data.turn.None? || row.data.step.None? then Err("no valid coordinates")
      else if row.data.turn != st.openTurn then Err("step/start does not match the open turn")
      else if st.openStep.Some? then Err("step/start while a step is open")
      else if row.data.step.value != st.nextStep then Err("step/start out of order")
      else Ok(st.(openStep := row.data.step))
    case StepEnd =>
      if !NamesOpenStep(row, st) then Err("step/end names another step")
      else Ok(st.(pending := {}, openStep := None, nextStep := st.nextStep + 1))
    case AssistantChunk =>
      if NamesOpenStep(row, st) then Ok(st) else Err("assistant/chunk names another step")
    case AssistantMessageRow =>
      if NamesOpenStep(row, st) then Ok(st) else Err("assistant/message names another step")
    case ToolCallRow =>
      if !NamesOpenStep(row, st) then Err("tool/call names another step")
      else if row.data.callId.None? || row.data.callId.value == "" then Err("tool/call has no callId")
      else Ok(st.(pending := st.pending + {row.data.callId.value}))
    case ToolResultRow =>
      if row.surface != Append then
        if st.openTurn.None? then Err("replacement tool/result is outside a turn") else Ok(st)
      else if !NamesOpenStep(row, st) then Err("tool/result names another step")
      else
        var callId := AnsweredCall(row);
        if callId.None? || callId.value !in st.pending then Err("tool/result has no pending tool/call")
        else Ok(st.(pending := st.pending - {callId.value}))
    case RequestHeader => if st.openTurn.None? then Err("request/header is outside a turn") else Ok(st)
    case RequestContext => if st.openTurn.None? then Err("request/context is outside a turn") else Ok(st)
    case UserMessageRow => Ok(st)
    case EndSeed => Ok(st)
    case Extension(_) => Ok(st)
  }

  function AdvanceAll(st: Result<Lifecycle>, rows: seq<Row>): Result<Lifecycle> {
    if rows == [] then st
    else
      var before := AdvanceAll(st, rows[..|rows| - 1]);
      if before.Ok? then Advance(before.value, Last(rows)) else before
  }

  predicate StrictlyNumbered(rows: seq<Row>) {
    && (rows != [] ==> 0 <= rows[0].seqNumber)
    && forall i, j :: 0 <= i < j < |rows| ==> rows[i].seqNumber < rows[j].seqNumber
  }

  /** What the checker accepts. */
  predicate Accepted(rows: seq<Row>) {
    StrictlyNumbered(rows) && AdvanceAll(Ok(FRESH), rows).Ok?
  }

  lemma {:induction false} AdvanceAllConcat(st: Result<Lifecycle>, a: seq<Row>, b: seq<Row>)
    ensures AdvanceAll(st, a + b) == AdvanceAll(AdvanceAll(st, a), b)
  {
    if b == [] {
      assert a + b == a;
    } else {
      assert (a + b)[..|a + b| - 1] == a + b[..|b| - 1];
      AdvanceAllConcat(st, a, b[..|b| - 1]);
    }
  }

  lemma {:induction false} FailureStays(st: Result<Lifecycle>, rows: seq<Row>)
    requires st.Err?
    ensures AdvanceAll(st, rows) == st
  {
    if rows != [] {
      FailureStays(st, rows[..|rows| - 1]);
    }
  }

  lemma OneMoreNumbered(rows: seq<Row>, i: nat)
    requires i < |rows| && StrictlyNumbered(rows[..i])
    ensures StrictlyNumbered(rows[..i + 1])
            <==> (if i == 0 then 0 <= rows[0].seqNumber else rows[i - 1].seqNumber < rows[i].seqNumber)
  {
    var before, after := rows[..i], rows[..i + 1];
    assert forall k :: 0 <= k < i ==> before[k] == after[k] == rows[k];
    assert after[i] == rows[i] && (i > 0 ==> after[i - 1] == rows[i - 1] == before[i - 1]);
  }

  lemma NothingNumbered()
    ensures StrictlyNumbered([])
  {
  }

  lemma FewerNumbered(rows: seq<Row>, i: nat)
    requires i <= |rows| && StrictlyNumbered(rows)
    ensures StrictlyNumbered(rows[..i])
  {
    assert forall k :: 0 <= k < i ==> rows[..i][k] == rows[k];
  }

  /** A failure on the way is a failure of the whole. */
  lemma FailsEarly(rows: seq<Row>, i: nat)
    requires i <= |rows| && AdvanceAll(Ok(FRESH), rows[..i]).Err?
    ensures AdvanceAll(Ok(FRESH), rows).Err?
  {
    AdvanceAllConcat(Ok(FRESH), rows[..i], rows[i..]);
    FailureStays(AdvanceAll(Ok(FRESH), rows[..i]), rows[i..]);
    assert rows == rows[..i] + rows[i..];
  }

  /** Walks the rows once, as the source does, and accepts exactly the accepted sessions. */
  method AssertSessionInvariants(rows: seq<Row>) returns (r: Result<()>)
    ensures r.Ok? <==> Accepted(rows)
  {
    hide Advance, StrictlyNumbered;
    var lastSeq := -1;
    var st := FRESH;
    NothingNumbered();
    for i := 0 to |rows|
      invariant AdvanceAll(Ok(FRESH), rows[..i]) == Ok(st)
      invariant StrictlyNumbered(rows[..i])
      invariant lastSeq == if i == 0 then -1 else rows[i - 1].seqNumber
    {
      var row := rows[i];
      assert rows[..i + 1][..i] == rows[..i] && Last(rows[..i + 1]) == row;
      OneMoreNumbered(rows, i);
      if row.seqNumber <= lastSeq {
        if StrictlyNumbered(rows) {
          FewerNumbered(rows, i + 1);
        }
        return Err("seq must strictly increase");
      }
      lastSeq := row.seqNumber;
      var next := Advance(st, row);
      if next.Err? {
        FailsEarly(rows, i + 1);
        return Err(next.fault);
      }
      st := next.value;
    }
    assert rows[..|rows|] == rows;
    return Ok(());
  }
}
