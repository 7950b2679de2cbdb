/** The sessions that the checker accepts, told row by row from the rows before, without its running state. */
module SessionLifecycles {
  import opened Outcomes
  import opened Sequences
  import opened Canonical
  import opened SessionInvariants

  // ----- what is open before a row

  /** The last turn boundary before the place is the start of this turn. */
  ghost predicate InTurn(rows: seq<Row>, i: nat, turn: int)
    requires i <= |rows|
  {
    exists s :: TurnFrom(rows, s, i, turn)
  }

  ghost predicate TurnFrom(rows: seq<Row>, s: int, i: nat, turn: int)
    requires i <= |rows|
  {
    && 0 <= s < i && rows[s].kind == TurnStart && rows[s].data.turn == Some(turn)
    && forall j :: s < j < i ==> rows[j].kind != TurnStart && rows[j].kind != TurnEnd
  }

  /** The last step boundary before the place is the start of this step. */
  ghost predicate InStep(rows: seq<Row>, i: nat, step: int)
    requires i <= |rows|
  {
    exists s :: StepFrom(rows, s, i, step)
  }

  ghost predicate StepFrom(rows: seq<Row>, s: int, i: nat, step: int)
    requires i <= |rows|
  {
    && 0 <= s < i && rows[s].kind == StepStart && rows[s].data.step == Some(step)
    && forall j :: s < j < i ==> rows[j].kind != StepStart && rows[j].kind != StepEnd
  }

  /** An appended tool result that answers this call. */
  ghost predicate AnswersCall(row: Row, callId: string) {
    && row.kind == ToolResultRow && row.surface == Append
    && row.data.message.Some? && row.data.message.value.source == ToolSource(Some(callId))
  }

  /** The call was made in the step that is open, and no result has answered it. */
  ghost predicate Awaits(rows: seq<Row>, i: nat, callId: string)
    requires i <= |rows|
  {
    exists c :: WaitsFrom(rows, c, i, callId)
  }

  ghost predicate WaitsFrom(rows: seq<Row>, c: int, i: nat, callId: string)
    requires i <= |rows|
  {
    && 0 <= c < i && rows[c].kind == ToolCallRow && rows[c].data.callId == Some(callId)
    && forall j :: c < j < i ==> rows[j].kind != StepEnd && !AnswersCall(rows[j], callId)
  }

  ghost function TurnsBefore(rows: seq<Row>, i: nat): nat
    requires i <= |rows|
  {
    if i == 0 then 0 else TurnsBefore(rows, i - 1) + if rows[i - 1].kind == TurnStart then 1 else 0
  }

  /** The steps started since the last start of a turn. */
  ghost function StepsBefore(rows: seq<Row>, i: nat): nat
    requires i <= |rows|
  {
    if i == 0 || rows[i - 1].kind == TurnStart then 0
    else StepsBefore(rows, i - 1) + if rows[i - 1].kind == StepStart then 1 else 0
  }

  // ----- what a row must meet

  /** The row lies in the step whose turn and number it names. */
  ghost predicate LiesInItsStep(rows: seq<Row>, i: nat)
    requires i < |rows|
  {
    && rows[i].data.turn.Some? && InTurn(rows, i, rows[i].data.turn.value)
    && rows[i].data.step.Some? && InStep(rows, i, rows[i].data.step.value)
  }

  ghost predicate InSomeTurn(rows: seq<Row>, i: nat)
    requires i <= |rows|
  {
    exists turn :: InTurn(rows, i, turn)
  }

  ghost predicate InSomeStep(rows: seq<Row>, i: nat)
    requires i <= |rows|
  {
    exists step :: InStep(rows, i, step)
  }

  /**
   * Turns and steps are numbered from one and nest; what the model and its tools write lies in the step it names; calls
   * have a name, and results answer a call of their step that waits; replaced results and requests lie in some turn.
   */
  ghost predicate Lawful(rows: seq<Row>, i: nat)
    requires i < |rows|
  {
    var data := rows[i].data;
    match rows[i].kind
    case TurnStart => data.turn == Some(1 + TurnsBefore(rows, i)) && !InSomeTurn(rows, i)
    case TurnEnd => data.turn.Some? && InTurn(rows, i, data.turn.value) && !InSomeStep(rows, i)
    case StepStart =>
      && data.turn.Some? && InTurn(rows, i, data.turn.value)
      && data.step == Some(1 + StepsBefore(rows, i)) && !InSomeStep(rows, i)
    case StepEnd => LiesInItsStep(rows, i)
    case AssistantChunk => LiesInItsStep(rows, i)
    case AssistantMessageRow => LiesInItsStep(rows, i)
    case ToolCallRow => LiesInItsStep(rows, i) && data.callId.Some? && data.callId.value != ""
    case ToolResultRow =>
      if rows[i].surface != Append then InSomeTurn(rows, i)
      else LiesInItsStep(rows, i) && exists callId :: AnswersCall(rows[i], callId) && Awaits(rows, i, callId)
    case RequestHeader => InSomeTurn(rows, i)
    case RequestContext => InSomeTurn(rows, i)
    case _ => true
  }

  ghost predicate Increasing(rows: seq<Row>) {
    && (forall i :: 0 <= i < |rows| ==> 0 <= rows[i].seqNumber)
    && forall i, j :: 0 <= i < j < |rows| ==> rows[i].seqNumber < rows[j].seqNumber
  }

  // ----- one row further

  lemma TurnFurther(rows: seq<Row>, i: nat, turn: int)
    requires i < |rows|
    ensures InTurn(rows, i + 1, turn)
            <==> if rows[i].kind == TurnStart then rows[i].data.turn == Some(turn)
                 else rows[i].kind != TurnEnd && InTurn(rows, i, turn)
  {
    if rows[i].kind == TurnStart && rows[i].data.turn == Some(turn) {
      assert TurnFrom(rows, i, i + 1, turn);
    }
    if s :| TurnFrom(rows, s, i, turn) {
      assert rows[i].kind != TurnStart && rows[i].kind != TurnEnd ==> TurnFrom(rows, s, i + 1, turn);
    }
    var next := i + 1;
    if s :| TurnFrom(rows, s, next, turn) {
      assert s < i ==> TurnFrom(rows, s, i, turn);
    }
  }

  lemma StepFurther(rows: seq<Row>, i: nat, step: int)
    requires i < |rows|
    ensures InStep(rows, i + 1, step)
            <==> if rows[i].kind == StepStart then rows[i].data.step == Some(step)
                 else rows[i].kind != StepEnd && InStep(rows, i, step)
  {
    if rows[i].kind == StepStart && rows[i].data.step == Some(step) {
      assert StepFrom(rows, i, i + 1, step);
    }
    if s :| StepFrom(rows, s, i, step) {
      assert rows[i].kind != StepStart && rows[i].kind != StepEnd ==> StepFrom(rows, s, i + 1, step);
    }
    var next := i + 1;
    if s :| StepFrom(rows, s, next, step) {
      assert s < i ==> StepFrom(rows, s, i, step);
    }
  }

  lemma CallFurther(rows: seq<Row>, i: nat, callId: string)
    requires i < |rows|
    ensures Awaits(rows, i + 1, callId)
            <==> (rows[i].kind == ToolCallRow && rows[i].data.callId == Some(callId))
                 || (rows[i].kind != StepEnd && !AnswersCall(rows[i], callId) && Awaits(rows, i, callId))
  {
    if rows[i].kind == ToolCallRow && rows[i].data.callId == Some(callId) {
      assert WaitsFrom(rows, i, i + 1, callId);
    }
    if c :| WaitsFrom(rows, c, i, callId) {
      assert rows[i].kind != StepEnd && !AnswersCall(rows[i], callId) ==> WaitsFrom(rows, c, i + 1, callId);
    }
    var next := i + 1;
    if c :| WaitsFrom(rows, c, next, callId) {
      assert c < i ==> WaitsFrom(rows, c, i, callId);
    }
  }

  // ----- the state of the checker

  /** The checker's state is what the rows before say. */
  ghost predicate Matches(rows: seq<Row>, i: nat, st: Lifecycle)
    requires i <= |rows|
  {
    && (forall turn :: st.openTurn == Some(turn) <==> InTurn(rows, i, turn))
    && (forall step :: st.openStep == Some(step) <==> InStep(rows, i, step))
    && (forall callId :: callId in st.pending <==> Awaits(rows, i, callId))
    && st.nextTurn == TurnsBefore(rows, i) + (if st.openTurn.Some? then 0 else 1)
    && (st.openTurn.Some? ==> st.nextStep == StepsBefore(rows, i) + (if st.openStep.Some? then 0 else 1))
    && (st.openTurn.None? ==> st.openStep.None?)
  }

  lemma OpenExactly(rows: seq<Row>, i: nat, st: Lifecycle)
    requires i <= |rows| && Matches(rows, i, st)
    ensures InSomeTurn(rows, i) <==> st.openTurn.Some?
    ensures InSomeStep(rows, i) <==> st.openStep.Some?
  {
    hide InTurn, InStep, Awaits;
    if st.openTurn.Some? {
      assert InTurn(rows, i, st.openTurn.value);
    }
    if st.openStep.Some? {
      assert InStep(rows, i, st.openStep.value);
    }
  }

  lemma LawfulExactly(rows: seq<Row>, i: nat, st: Lifecycle)
    requires i < |rows| && Matches(rows, i, st)
    ensures Advance(st, rows[i]).Ok? <==> Lawful(rows, i)
  {
    hide InTurn, InStep, Awaits, InSomeTurn, InSomeStep;
    OpenExactly(rows, i, st);
    assert NamesOpenStep(rows[i], st) <==> LiesInItsStep(rows, i);
    if rows[i].kind == ToolResultRow && rows[i].surface == Append && AnsweredCall(rows[i]).Some? {
      assert AnswersCall(rows[i], AnsweredCall(rows[i]).value);
    }
  }

  lemma MatchesFurther(rows: seq<Row>, i: nat, st: Lifecycle)
    requires i < |rows| && Matches(rows, i, st) && Advance(st, rows[i]).Ok?
    ensures Matches(rows, i + 1, Advance(st, rows[i]).value)
  {
    hide InTurn, InStep, Awaits;
    var more := Advance(st, rows[i]).value;
    forall turn
      ensures more.openTurn == Some(turn) <==> InTurn(rows, i + 1, turn)
    {
      TurnFurther(rows, i, turn);
    }
    forall step
      ensures more.openStep == Some(step) <==> InStep(rows, i + 1, step)
    {
      StepFurther(rows, i, step);
    }
    forall callId
      ensures callId in more.pending <==> Awaits(rows, i + 1, callId)
    {
      CallFurther(rows, i, callId);
    }
  }

  lemma {:induction false} RowsExactly(rows: seq<Row>, n: nat)
    requires n <= |rows|
    ensures AdvanceAll(Ok(FRESH), rows[..n]).Ok? <==> forall i :: 0 <= i < n ==> Lawful(rows, i)
    ensures AdvanceAll(Ok(FRESH), rows[..n]).Ok? ==> Matches(rows, n, AdvanceAll(Ok(FRESH), rows[..n]).value)
  {
    hide Advance, Lawful, Matches;
    if n == 0 {
      NothingOpen(rows);
    } else {
      RowsExactly(rows, n - 1);
      assert rows[..n][..n - 1] == rows[..n - 1] && Last(rows[..n]) == rows[n - 1];
      var before := AdvanceAll(Ok(FRESH), rows[..n - 1]);
      if before.Ok? {
        LawfulExactly(rows, n - 1, before.value);
        if Advance(before.value, rows[n - 1]).Ok? {
          MatchesFurther(rows, n - 1, before.value);
        }
      }
    }
  }

  lemma NothingOpen(rows: seq<Row>)
    ensures Matches(rows, 0, FRESH)
  {
  }

  lemma NumberedExactly(rows: seq<Row>)
    ensures StrictlyNumbered(rows) <==> Increasing(rows)
  {
  }

  /** The checker accepts exactly the sessions of increasing sequence numbers in which every row is lawful. */
  lemma AcceptedExactly(rows: seq<Row>)
    ensures Accepted(rows) <==> Increasing(rows) && forall i :: 0 <= i < |rows| ==> Lawful(rows, i)
  {
    hide AdvanceAll, Lawful, StrictlyNumbered, Increasing;
    RowsExactly(rows, |rows|);
    assert rows[..|rows|] == rows;
    NumberedExactly(rows);
  }
}
