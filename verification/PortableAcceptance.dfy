/** The stream of a plan passes the session checker exactly when every correlated call precedes its result. */
module PortableAcceptance {
  import opened Outcomes
  import opened Text
  import opened Sequences
  import opened Canonical
  import opened CoordinateRuns
  import opened SessionInvariants
  import opened PortableEmission
  import opened PortableOrder

  // ----- running the checker over emissions

  function RowOf(x: Emission): Row {
    x.row
  }

  function Run(st: Result<Lifecycle>, emissions: seq<Emission>): Result<Lifecycle> {
    AdvanceAll(st, Map(emissions, RowOf))
  }

  lemma RunConcat(st: Result<Lifecycle>, a: seq<Emission>, b: seq<Emission>)
    ensures Run(st, a + b) == Run(Run(st, a), b)
  {
    assert Map(a + b, RowOf) == Map(a, RowOf) + Map(b, RowOf);
    AdvanceAllConcat(st, Map(a, RowOf), Map(b, RowOf));
  }

  lemma RunFailed(st: Result<Lifecycle>, emissions: seq<Emission>)
    requires st.Err?
    ensures Run(st, emissions) == st
  {
    FailureStays(st, Map(emissions, RowOf));
  }

  lemma RunNone(st: Result<Lifecycle>)
    ensures Run(st, []) == st
  {
  }

  lemma RunOne(st: Lifecycle, x: Emission)
    ensures Run(Ok(st), [x]) == Advance(st, x.row)
  {
    assert Map([x], RowOf) == [x.row];
    assert [x.row][..0] == [];
    assert AdvanceAll(Ok(st), []) == Ok(st);
  }

  lemma RunSnoc(st: Result<Lifecycle>, s: seq<CanonicalEvent>, f: CanonicalEvent -> seq<Emission>, i: nat)
    requires i < |s|
    ensures Run(st, FlatMap(s[..i + 1], f)) == Run(Run(st, FlatMap(s[..i], f)), f(s[i]))
  {
    assert s[..i + 1][..i] == s[..i] && Last(s[..i + 1]) == s[i];
    RunConcat(st, FlatMap(s[..i], f), f(s[i]));
  }

  /** Rows the checker does not look at. */
  predicate Neutral(row: Row) {
    row.kind.Extension? || row.kind == UserMessageRow
  }

  lemma {:induction false} RunNeutral(st: Result<Lifecycle>, emissions: seq<Emission>)
    requires forall x :: x in emissions ==> Neutral(x.row)
    ensures Run(st, emissions) == st
  {
    if emissions == [] {
      RunNone(st);
    } else {
      var init, last := emissions[..|emissions| - 1], Last(emissions);
      RunNeutral(st, init);
      assert emissions == init + [last];
      RunConcat(st, init, [last]);
      if st.Ok? {
        RunOne(st.value, last);
      } else {
        RunFailed(st, [last]);
      }
    }
  }

  /** Emissions that are equal or neutral drive the checker alike. */
  lemma {:induction false} RunSkipping(st: Result<Lifecycle>, s: seq<CanonicalEvent>,
      f: CanonicalEvent -> seq<Emission>, g: CanonicalEvent -> seq<Emission>)
    requires forall e :: e in s ==> f(e) == g(e) || (g(e) == [] && forall x :: x in f(e) ==> Neutral(x.row))
    ensures Run(st, FlatMap(s, f)) == Run(st, FlatMap(s, g))
  {
    if s != [] {
      var init, last := s[..|s| - 1], Last(s);
      assert last in s;
      RunSkipping(st, init, f, g);
      RunConcat(st, FlatMap(init, f), f(last));
      RunConcat(st, FlatMap(init, g), g(last));
      if f(last) != g(last) {
        RunNeutral(Run(st, FlatMap(init, f)), f(last));
        RunNone(Run(st, FlatMap(init, g)));
      }
    }
  }

  // ----- calls and results

  /** The single call carrying an identifier. */
  function CallFor(events: seq<CanonicalEvent>, id: string): CanonicalEvent
    requires Matched(events, id)
  {
    CallsWith(events, id)[0]
  }

  predicate AnsweredInOrder(events: seq<CanonicalEvent>, e: CanonicalEvent) {
    MatchedResult(events, e) ==> CallFor(events, StrictCallId(e).value).sequence < e.sequence
  }

  /** Every correlated call precedes its result. */
  predicate CallsPrecedeResults(events: seq<CanonicalEvent>) {
    forall e :: e in events ==> AnsweredInOrder(events, e)
  }

  /** Correlated results carry a call identifier that is not blank. */
  predicate Answerable(events: seq<CanonicalEvent>) {
    forall e :: e in events && MatchedResult(events, e) ==> NonBlank(StrictCallId(e).value)
  }

  lemma MatchedCallIs(events: seq<CanonicalEvent>, id: string, e: CanonicalEvent)
    requires Matched(events, id)
    ensures CallFor(events, id) in events && CallFor(events, id).kind == ToolCall
            && StrictCallId(CallFor(events, id)) == Some(id)
    ensures e in events && e.kind == ToolCall && StrictCallId(e) == Some(id) ==> e == CallFor(events, id)
    ensures ResultsWith(events, id)[0] in events && ResultsWith(events, id)[0].kind == ToolResult
            && StrictCallId(ResultsWith(events, id)[0]) == Some(id)
    ensures e in events && e.kind == ToolResult && StrictCallId(e) == Some(id) ==> e == ResultsWith(events, id)[0]
  {
    FilterMembership(events, IsCallWith(id));
    FilterMembership(events, IsResultWith(id));
    assert CallsWith(events, id)[0] in CallsWith(events, id);
    assert ResultsWith(events, id)[0] in ResultsWith(events, id);
    if e in CallsWith(events, id) {
      assert CallsWith(events, id) == [CallFor(events, id)];
    }
    if e in ResultsWith(events, id) {
      assert ResultsWith(events, id) == [ResultsWith(events, id)[0]];
    }
  }

  lemma TurnHolding(plan: Plan, e: CanonicalEvent) returns (turn: Group)
    requires ValidPlan(plan) && e in plan.events && IsConversation(e)
    ensures turn in plan.turns && e in turn.members
  {
    FilterMembership(plan.events, IsConversation);
    RunCoordOf(Filter(plan.events, IsConversation), TurnCoord, e);
    var k :| 0 <= k < |plan.turns| && plan.turns[k].coord == TurnCoord(e) && e in plan.turns[k].members;
    turn := plan.turns[k];
  }

  lemma StepHolding(plan: Plan, turn: Group, e: CanonicalEvent) returns (step: Group)
    requires ValidPlan(plan) && turn in plan.turns && e in turn.members && IsModel(e)
    ensures step in Steps(turn) && e in step.members
  {
    FilterMembership(turn.members, IsModel);
    RunCoordOf(Filter(turn.members, IsModel), StepCoord, e);
    var k :| 0 <= k < |Steps(turn)| && Steps(turn)[k].coord == StepCoord(e) && e in Steps(turn)[k].members;
    step := Steps(turn)[k];
  }

  /** The call answered by a result of a step lies in that step. */
  lemma CallInStep(plan: Plan, turn: Group, step: Group, r: CanonicalEvent)
    requires ValidPlan(plan) && turn in plan.turns && step in Steps(turn) && r in step.members
    requires MatchedResult(plan.events, r)
    ensures CallFor(plan.events, StrictCallId(r).value) in step.members
  {
    var id := StrictCallId(r).value;
    var c := CallFor(plan.events, id);
    MatchedCallIs(plan.events, id, r);
    MatchedCallIs(plan.events, id, c);
    StepMember(plan, turn, step, r);
    TurnMember(plan, turn, r);
    var turn' := TurnHolding(plan, c);
    TurnMember(plan, turn', c);
    assert turn' == turn;
    var step' := StepHolding(plan, turn, c);
    StepMember(plan, turn, step', c);
    assert step' == step;
  }

  // ----- one step

  predicate CalledBy(events: seq<CanonicalEvent>, done: seq<CanonicalEvent>, id: string) {
    exists c :: c in done && MatchedCall(events, c) && StrictCallId(c).value == id
  }

  predicate AnsweredBy(events: seq<CanonicalEvent>, done: seq<CanonicalEvent>, id: string) {
    exists r :: r in done && MatchedResult(events, r) && StrictCallId(r).value == id
  }

  /** The calls made and not yet answered. */
  ghost predicate PendingAfter(plan: Plan, done: seq<CanonicalEvent>, pending: set<string>) {
    forall id :: id in pending <==> CalledBy(plan.events, done, id) && !AnsweredBy(plan.events, done, id)
  }

  function OpenStep(turn: int, step: int, pending: set<string>): Lifecycle {
    Lifecycle(turn, step, Some(turn), Some(step), pending)
  }

  lemma CoreOfCall(plan: Plan, turn: Group, step: Group, e: CanonicalEvent, pending: set<string>)
    requires e.kind == ToolCall
    requires MatchedCall(plan.events, e) ==> NonBlank(StrictCallId(e).value)
    ensures Run(Ok(OpenStep(NativeTurn(turn), NativeStep(step), pending)), ToolDraft(plan, turn, step, e))
         == Ok(OpenStep(NativeTurn(turn), NativeStep(step), if MatchedCall(plan.events, e)
             then pending + {StrictCallId(e).value} else pending))
  {
    var x := ToolDraft(plan, turn, step, e)[0];
    assert ToolDraft(plan, turn, step, e) == [x];
    RunOne(OpenStep(NativeTurn(turn), NativeStep(step), pending), x);
  }

  lemma CoreOfResult(plan: Plan, turn: Group, step: Group, e: CanonicalEvent, pending: set<string>)
    requires e.kind == ToolResult
    requires MatchedResult(plan.events, e) ==> NonBlank(StrictCallId(e).value)
    ensures var out := Run(Ok(OpenStep(NativeTurn(turn), NativeStep(step), pending)), ToolDraft(plan, turn, step, e));
            && (out.Ok? <==> (MatchedResult(plan.events, e) ==> StrictCallId(e).value in pending))
            && (out.Ok? ==> out
                             == Ok(OpenStep(NativeTurn(turn), NativeStep(step), if MatchedResult(plan.events, e)
                             then pending - {StrictCallId(e).value} else pending)))
  {
    var x := ToolDraft(plan, turn, step, e)[0];
    assert ToolDraft(plan, turn, step, e) == [x];
    RunOne(OpenStep(NativeTurn(turn), NativeStep(step), pending), x);
  }

  lemma AssistantKeeps(plan: Plan, turn: Group, step: Group, e: CanonicalEvent, pending: set<string>)
    ensures var st := Ok(OpenStep(NativeTurn(turn), NativeStep(step), pending));
            Run(st, AssistantOf(plan, turn, step, e)) == st
  {
    var st := OpenStep(NativeTurn(turn), NativeStep(step), pending);
    var emitted := AssistantOf(plan, turn, step, e);
    if emitted == [] {
      RunNone(Ok(st));
    } else {
      assert emitted == [emitted[0]];
      RunOne(st, emitted[0]);
    }
  }

  /** What one event of a step does to the open step. */
  lemma CoreAdvances(plan: Plan, turn: Group, step: Group, e: CanonicalEvent, pending: set<string>)
    requires MatchedCall(plan.events, e) || MatchedResult(plan.events, e) ==> NonBlank(StrictCallId(e).value)
    ensures var out := Run(Ok(OpenStep(NativeTurn(turn), NativeStep(step), pending)), CoreOf(plan, turn, step, e));
            && (out.Ok? <==> (MatchedResult(plan.events, e) ==> StrictCallId(e).value in pending))
            && (out.Ok? ==> out == Ok(OpenStep(NativeTurn(turn), NativeStep(step),
                  if MatchedCall(plan.events, e) then pending + {StrictCallId(e).value}
                  else if MatchedResult(plan.events, e) then pending - {StrictCallId(e).value}
                  else pending)))
  {
    var st := Ok(OpenStep(NativeTurn(turn), NativeStep(step), pending));
    RunConcat(st, AssistantOf(plan, turn, step, e), ToolDraft(plan, turn, step, e));
    AssistantKeeps(plan, turn, step, e, pending);
    if e.kind == ToolCall {
      CoreOfCall(plan, turn, step, e, pending);
    } else if e.kind == ToolResult {
      CoreOfResult(plan, turn, step, e, pending);
    } else {
      assert ToolDraft(plan, turn, step, e) == [];
      RunNone(st);
    }
  }

  lemma BlankFree(plan: Plan, e: CanonicalEvent)
    requires Answerable(plan.events) && e in plan.events
    requires MatchedCall(plan.events, e) || MatchedResult(plan.events, e)
    ensures NonBlank(StrictCallId(e).value)
  {
    var id := StrictCallId(e).value;
    MatchedCallIs(plan.events, id, e);
    assert MatchedResult(plan.events, ResultsWith(plan.events, id)[0]);
  }

  /** A result finds its call pending exactly when the call came earlier. */
  lemma PendingMeansEarlier(plan: Plan, turn: Group, step: Group, i: nat, pending: set<string>)
    requires ValidPlan(plan) && turn in plan.turns && step in Steps(turn) && i < |step.members|
    requires PendingAfter(plan, step.members[..i], pending)
    requires MatchedResult(plan.events, step.members[i])
    ensures StrictCallId(step.members[i]).value in pending <==> AnsweredInOrder(plan.events, step.members[i])
  {
    var r := step.members[i];
    var id := StrictCallId(r).value;
    var c := CallFor(plan.events, id);
    StepShape(plan, turn, step);
    CallInStep(plan, turn, step, r);
    StepMember(plan, turn, step, r);
    TurnMember(plan, turn, r);
    MatchedCallIs(plan.events, id, r);
    var k :| 0 <= k < |step.members| && step.members[k] == c;
    assert MatchedCall(plan.events, c);
    if k < i {
      assert step.members[..i][k] == c;
    }
    forall x | x in step.members[..i]
      ensures MatchedCall(plan.events, x) && StrictCallId(x).value == id ==> k < i
      ensures !(MatchedResult(plan.events, x) && StrictCallId(x).value == id)
    {
      var m :| 0 <= m < i && step.members[..i][m] == x;
      StepMember(plan, turn, step, x);
      TurnMember(plan, turn, x);
      MatchedCallIs(plan.events, id, x);
      assert step.members[m].sequence < step.members[i].sequence;
    }
  }

  lemma PendingGrows(plan: Plan, done: seq<CanonicalEvent>, e: CanonicalEvent, pending: set<string>,
      pending': set<string>)
    requires PendingAfter(plan, done, pending)
    requires pending' == if MatchedCall(plan.events, e) then pending + {StrictCallId(e).value}
                         else if MatchedResult(plan.events, e) then pending - {StrictCallId(e).value}
                         else pending
    requires MatchedCall(plan.events, e) ==> forall r :: r in done && MatchedResult(plan.events, r)
                                              ==> StrictCallId(r).value != StrictCallId(e).value
    ensures PendingAfter(plan, done + [e], pending')
  {
    forall id
      ensures id in pending' <==> CalledBy(plan.events, done + [e], id) && !AnsweredBy(plan.events, done + [e], id)
    {
      CalledSnoc(plan.events, done, e, id);
      assert id in pending <==> CalledBy(plan.events, done, id) && !AnsweredBy(plan.events, done, id);
    }
  }

  lemma CalledSnoc(events: seq<CanonicalEvent>, done: seq<CanonicalEvent>, e: CanonicalEvent, id: string)
    ensures CalledBy(events, done + [e], id)
            <==> CalledBy(events, done, id) || (MatchedCall(events, e) && StrictCallId(e).value == id)
    ensures AnsweredBy(events, done + [e], id)
            <==> AnsweredBy(events, done, id) || (MatchedResult(events, e) && StrictCallId(e).value == id)
  {
    assert e in done + [e];
    assert forall x :: x in done ==> x in done + [e];
    assert forall x :: x in done + [e] ==> x in done || x == e;
  }

  /** The open step after the events so far, if every result among them was answered in order. */
  ghost predicate StepState(plan: Plan, turn: Group, step: Group, done: seq<CanonicalEvent>, out: Result<Lifecycle>) {
    && (out.Ok? <==> AllAnswered(plan.events, done))
    && (out.Ok? ==> out.value == OpenStep(NativeTurn(turn), NativeStep(step), out.value.pending)
                     && PendingAfter(plan, done, out.value.pending))
  }

  predicate AllAnswered(events: seq<CanonicalEvent>, done: seq<CanonicalEvent>) {
    forall e :: e in done ==> AnsweredInOrder(events, e)
  }

  lemma AllAnsweredSnoc(events: seq<CanonicalEvent>, done: seq<CanonicalEvent>, e: CanonicalEvent)
    ensures AllAnswered(events, done + [e]) <==> AllAnswered(events, done) && AnsweredInOrder(events, e)
  {
    assert e in done + [e];
    assert forall x :: x in done ==> x in done + [e];
    assert forall x :: x in done + [e] ==> x in done || x == e;
  }

  /** Running the events of a step: it goes through exactly when the results so far were answered in order. */
  lemma {:induction false} StepRuns(plan: Plan, turn: Group, step: Group, i: nat)
    requires ValidPlan(plan) && Answerable(plan.events)
    requires turn in plan.turns && step in Steps(turn) && i <= |step.members|
    ensures StepState(plan, turn, step, step.members[..i],
                      Run(Ok(OpenStep(NativeTurn(turn), NativeStep(step), {})),
                          FlatMap(step.members[..i], CoreEmissions(plan, turn, step))))
  {
    hide Run, CoreOf, MatchedCall, MatchedResult, AnsweredInOrder, Steps, Matched, ValidPlan, Answerable;
    var start := Ok(OpenStep(NativeTurn(turn), NativeStep(step), {}));
    if i == 0 {
      RunNone(start);
    } else {
      StepRuns(plan, turn, step, i - 1);
      RunSnoc(start, step.members, CoreEmissions(plan, turn, step), i - 1);
      StepRunsOn(plan, turn, step, i - 1, Run(start, FlatMap(step.members[..i - 1], CoreEmissions(plan, turn, step))));
      assert step.members[..i] == step.members[..i - 1] + [step.members[i - 1]];
    }
  }

  lemma StepRunsOn(plan: Plan, turn: Group, step: Group, i: nat, before: Result<Lifecycle>)
    requires ValidPlan(plan) && Answerable(plan.events)
    requires turn in plan.turns && step in Steps(turn) && i < |step.members|
    requires StepState(plan, turn, step, step.members[..i], before)
    ensures StepState(plan, turn, step, step.members[..i] + [step.members[i]],
            Run(before, CoreOf(plan, turn, step, step.members[i])))
  {
    var e, done := step.members[i], step.members[..i];
    AllAnsweredSnoc(plan.events, done, e);
    if before.Err? {
      RunFailed(before, CoreOf(plan, turn, step, e));
    } else {
      var pending := before.value.pending;
      StepAnswers(plan, turn, step, i, pending);
      var out := Run(before, CoreOf(plan, turn, step, e));
      if out.Ok? {
        ResultsComeLater(plan, turn, step, i);
        PendingGrows(plan, done, e, pending, out.value.pending);
      }
    }
  }

  lemma StepAnswers(plan: Plan, turn: Group, step: Group, i: nat, pending: set<string>)
    requires ValidPlan(plan) && Answerable(plan.events)
    requires turn in plan.turns && step in Steps(turn) && i < |step.members|
    requires PendingAfter(plan, step.members[..i], pending)
    ensures var e := step.members[i];
            var out := Run(Ok(OpenStep(NativeTurn(turn), NativeStep(step), pending)), CoreOf(plan, turn, step, e));
            && (out.Ok? <==> AnsweredInOrder(plan.events, e))
            && (out.Ok? ==> out == Ok(OpenStep(NativeTurn(turn), NativeStep(step),
                  if MatchedCall(plan.events, e) then pending + {StrictCallId(e).value}
                  else if MatchedResult(plan.events, e) then pending - {StrictCallId(e).value}
                  else pending)))
  {
    var e := step.members[i];
    StepMember(plan, turn, step, e);
    TurnMember(plan, turn, e);
    if MatchedCall(plan.events, e) || MatchedResult(plan.events, e) {
      BlankFree(plan, e);
    }
    CoreAdvances(plan, turn, step, e, pending);
    if MatchedResult(plan.events, e) {
      PendingMeansEarlier(plan, turn, step, i, pending);
    }
  }

  /** When the results so far were answered in order, none of them belongs to a call still to come. */
  lemma ResultsComeLater(plan: Plan, turn: Group, step: Group, i: nat)
    requires ValidPlan(plan) && turn in plan.turns && step in Steps(turn) && i < |step.members|
    requires AllAnswered(plan.events, step.members[..i])
    ensures MatchedCall(plan.events, step.members[i]) ==>
              forall r :: r in step.members[..i] && MatchedResult(plan.events, r)
                  ==> StrictCallId(r).value != StrictCallId(step.members[i]).value
  {
    var e := step.members[i];
    StepShape(plan, turn, step);
    StepMember(plan, turn, step, e);
    TurnMember(plan, turn, e);
    forall r | r in step.members[..i] && MatchedCall(plan.events, e) && MatchedResult(plan.events, r)
      ensures StrictCallId(r).value != StrictCallId(e).value
    {
      var m :| 0 <= m < i && step.members[..i][m] == r;
      MatchedCallIs(plan.events, StrictCallId(e).value, e);
    }
  }

  // ----- one turn

  function InTurn(turn: int, nextStep: int): Lifecycle {
    Lifecycle(turn, nextStep, Some(turn), None, {})
  }

  lemma StepBoundaries(plan: Plan, turn: Group, step: Group, pending: set<string>)
    requires step.members != []
    ensures Run(Ok(InTurn(NativeTurn(turn), NativeStep(step))), StepStartOf(plan, turn, step))
            == Ok(OpenStep(NativeTurn(turn), NativeStep(step), {}))
    ensures Run(Ok(OpenStep(NativeTurn(turn), NativeStep(step), pending)), StepEndOf(plan, turn, step))
            == Ok(InTurn(NativeTurn(turn), NativeStep(step) + 1))
  {
    RunOne(InTurn(NativeTurn(turn), NativeStep(step)), StepStartOf(plan, turn, step)[0]);
    RunOne(OpenStep(NativeTurn(turn), NativeStep(step), pending), StepEndOf(plan, turn, step)[0]);
  }

  predicate StepInOrder(events: seq<CanonicalEvent>, step: Group) {
    forall e :: e in step.members ==> AnsweredInOrder(events, e)
  }

  lemma StepAccepted(plan: Plan, turn: Group, step: Group)
    requires ValidPlan(plan) && Answerable(plan.events)
    requires turn in plan.turns && step in Steps(turn)
    ensures var out := Run(Ok(InTurn(NativeTurn(turn), NativeStep(step))), StepOutputOf(plan, turn, step));
            && (out.Ok? <==> StepInOrder(plan.events, step))
            && (out.Ok? ==> out.value == InTurn(NativeTurn(turn), NativeStep(step) + 1))
  {
    var start := Ok(InTurn(NativeTurn(turn), NativeStep(step)));
    StepShape(plan, turn, step);
    StepBracket(plan, turn, step);
    var core := FlatMap(step.members, CoreEmissions(plan, turn, step));
    RunConcat(start, StepStartOf(plan, turn, step) + core, StepEndOf(plan, turn, step));
    RunConcat(start, StepStartOf(plan, turn, step), core);
    StepBoundaries(plan, turn, step, {});
    StepRuns(plan, turn, step, |step.members|);
    assert step.members[..|step.members|] == step.members;
    var mid := Run(Ok(OpenStep(NativeTurn(turn), NativeStep(step), {})), core);
    if mid.Ok? {
      StepBoundaries(plan, turn, step, mid.value.pending);
    } else {
      RunFailed(mid, StepEndOf(plan, turn, step));
    }
  }

  lemma {:induction false} StepsRun(plan: Plan, turn: Group, steps: seq<Group>)
    requires ValidPlan(plan) && Answerable(plan.events) && turn in plan.turns
    requires steps <= Steps(turn)
    ensures var out := Run(Ok(InTurn(NativeTurn(turn), 1)), FlatMap(steps, StepOutput(plan, turn)));
            && (out.Ok? <==> forall step :: step in steps ==> StepInOrder(plan.events, step))
            && (out.Ok? ==> out.value == InTurn(NativeTurn(turn), |steps| + 1))
  {
    var start := Ok(InTurn(NativeTurn(turn), 1));
    if steps == [] {
      RunNone(start);
    } else {
      var done, step := steps[..|steps| - 1], Last(steps);
      StepsRun(plan, turn, done);
      StepsSnoc(plan, turn, steps, Run(start, FlatMap(done, StepOutput(plan, turn))));
      RunConcat(start, FlatMap(done, StepOutput(plan, turn)), StepOutputOf(plan, turn, step));
      assert forall x :: x in steps <==> x in done || x == step;
    }
  }

  lemma StepsSnoc(plan: Plan, turn: Group, steps: seq<Group>, before: Result<Lifecycle>)
    requires ValidPlan(plan) && Answerable(plan.events) && turn in plan.turns
    requires steps <= Steps(turn) && steps != []
    requires before.Ok? ==> before.value == InTurn(NativeTurn(turn), |steps|)
    ensures var out := Run(before, StepOutputOf(plan, turn, Last(steps)));
            && (out.Ok? <==> before.Ok? && StepInOrder(plan.events, Last(steps)))
            && (out.Ok? ==> out.value == InTurn(NativeTurn(turn), |steps| + 1))
  {
    var step := Last(steps);
    assert step == Steps(turn)[|steps| - 1];
    assert step in Steps(turn);
    if before.Err? {
      RunFailed(before, StepOutputOf(plan, turn, step));
    } else {
      assert NativeStep(step) == |steps|;
      StepAccepted(plan, turn, step);
    }
  }

  predicate TurnInOrder(events: seq<CanonicalEvent>, turn: Group) {
    forall e :: e in turn.members ==> AnsweredInOrder(events, e)
  }

  lemma TurnByStepsInOrder(plan: Plan, turn: Group)
    requires ValidPlan(plan) && turn in plan.turns
    ensures TurnInOrder(plan.events, turn) <==> forall step :: step in Steps(turn) ==> StepInOrder(plan.events, step)
  {
    if TurnInOrder(plan.events, turn) {
      forall step, e | step in Steps(turn) && e in step.members
        ensures AnsweredInOrder(plan.events, e)
      {
        StepMember(plan, turn, step, e);
      }
    }
    if forall step :: step in Steps(turn) ==> StepInOrder(plan.events, step) {
      forall e | e in turn.members
        ensures AnsweredInOrder(plan.events, e)
      {
        if MatchedResult(plan.events, e) {
          TurnMember(plan, turn, e);
          var step := StepHolding(plan, turn, e);
          assert StepInOrder(plan.events, step);
        }
      }
    }
  }

  /** Users interleave with the steps of a turn without disturbing them. */
  lemma InnerRuns(plan: Plan, turn: Group)
    requires ValidPlan(plan) && Answerable(plan.events) && turn in plan.turns
    ensures var out := Run(Ok(InTurn(NativeTurn(turn), 1)), FlatMap(turn.members, InnerEmissions(plan, turn)));
            && (out.Ok? <==> TurnInOrder(plan.events, turn))
            && (out.Ok? ==> out.value == InTurn(NativeTurn(turn), |Steps(turn)| + 1))
  {
    var start := Ok(InTurn(NativeTurn(turn), 1));
    RunSkipping(start, turn.members, InnerEmissions(plan, turn), ModelEmissions(plan, turn));
    ModelByStep(plan, turn);
    StepsRun(plan, turn, Steps(turn));
    TurnByStepsInOrder(plan, turn);
  }

  ghost predicate BetweenTurns(st: Lifecycle, turn: int) {
    st == Lifecycle(turn, st.nextStep, None, None, {})
  }

  lemma TurnBoundaries(plan: Plan, turn: Group, st: Lifecycle, nextStep: int)
    requires turn.members != [] && BetweenTurns(st, NativeTurn(turn))
    ensures Run(Ok(st), TurnStartOf(plan, turn)) == Ok(InTurn(NativeTurn(turn), 1))
    ensures Run(Ok(InTurn(NativeTurn(turn), nextStep)), TurnEndOf(plan, turn))
            == Ok(Lifecycle(NativeTurn(turn) + 1, nextStep, None, None, {}))
  {
    RunOne(st, TurnStartOf(plan, turn)[0]);
    RunOne(InTurn(NativeTurn(turn), nextStep), TurnEndOf(plan, turn)[0]);
  }

  lemma TurnAccepted(plan: Plan, turn: Group, st: Lifecycle)
    requires ValidPlan(plan) && Answerable(plan.events) && turn in plan.turns
    requires BetweenTurns(st, NativeTurn(turn))
    ensures var out := Run(Ok(st), TurnOutputOf(plan, turn));
            && (out.Ok? <==> TurnInOrder(plan.events, turn))
            && (out.Ok? ==> BetweenTurns(out.value, NativeTurn(turn) + 1))
  {
    TurnShape(plan, turn);
    TurnBracket(plan, turn);
    var inner := FlatMap(turn.members, InnerEmissions(plan, turn));
    RunConcat(Ok(st), TurnStartOf(plan, turn) + inner, TurnEndOf(plan, turn));
    RunConcat(Ok(st), TurnStartOf(plan, turn), inner);
    TurnBoundaries(plan, turn, st, |Steps(turn)| + 1);
    InnerRuns(plan, turn);
    var mid := Run(Ok(InTurn(NativeTurn(turn), 1)), inner);
    if mid.Err? {
      RunFailed(mid, TurnEndOf(plan, turn));
    }
  }

  lemma MoreTurnsInOrder(events: seq<CanonicalEvent>, turns: seq<Group>)
    requires turns != []
    ensures (forall turn :: turn in turns ==> TurnInOrder(events, turn)) <==>
              (forall turn :: turn in turns[..|turns| - 1] ==> TurnInOrder(events, turn))
                  && TurnInOrder(events, Last(turns))
  {
    hide TurnInOrder;
    assert turns == turns[..|turns| - 1] + [Last(turns)];
  }

  lemma OutputSnoc(plan: Plan, turns: seq<Group>)
    requires turns != []
    ensures Run(Ok(FRESH), FlatMap(turns, TurnOutput(plan)))
         == Run(Run(Ok(FRESH), FlatMap(turns[..|turns| - 1], TurnOutput(plan))), TurnOutputOf(plan, Last(turns)))
  {
    hide Run, TurnOutputOf;
    RunConcat(Ok(FRESH), FlatMap(turns[..|turns| - 1], TurnOutput(plan)), TurnOutputOf(plan, Last(turns)));
  }

  lemma {:induction false} TurnsRun(plan: Plan, turns: seq<Group>)
    requires ValidPlan(plan) && Answerable(plan.events) && turns <= plan.turns
    ensures var out := Run(Ok(FRESH), FlatMap(turns, TurnOutput(plan)));
            && (out.Ok? <==> forall turn :: turn in turns ==> TurnInOrder(plan.events, turn))
            && (out.Ok? ==> BetweenTurns(out.value, |turns| + 1))
  {
    if turns == [] {
      RunNone(Ok(FRESH));
    } else {
      hide Run, FlatMap, ValidPlan, Answerable, TurnOutputOf, TurnInOrder, BetweenTurns;
      var done := turns[..|turns| - 1];
      TurnsRun(plan, done);
      OutputSnoc(plan, turns);
      TurnsSnoc(plan, turns, Run(Ok(FRESH), FlatMap(done, TurnOutput(plan))));
      MoreTurnsInOrder(plan.events, turns);
    }
  }

  lemma TurnsSnoc(plan: Plan, turns: seq<Group>, before: Result<Lifecycle>)
    requires ValidPlan(plan) && Answerable(plan.events) && turns <= plan.turns && turns != []
    requires before.Ok? ==> BetweenTurns(before.value, |turns|)
    ensures var out := Run(before, TurnOutputOf(plan, Last(turns)));
            && (out.Ok? <==> before.Ok? && TurnInOrder(plan.events, Last(turns)))
            && (out.Ok? ==> BetweenTurns(out.value, |turns| + 1))
  {
    var turn := Last(turns);
    assert turn == plan.turns[|turns| - 1];
    assert turn in plan.turns;
    if before.Err? {
      RunFailed(before, TurnOutputOf(plan, turn));
    } else {
      assert NativeTurn(turn) == |turns|;
      TurnAccepted(plan, turn, before.value);
    }
  }

  lemma EventsByTurnsInOrder(plan: Plan)
    requires ValidPlan(plan)
    ensures CallsPrecedeResults(plan.events) <==> forall turn :: turn in plan.turns ==> TurnInOrder(plan.events, turn)
  {
    if CallsPrecedeResults(plan.events) {
      forall turn, e | turn in plan.turns && e in turn.members
        ensures AnsweredInOrder(plan.events, e)
      {
        TurnMember(plan, turn, e);
      }
    }
    if forall turn :: turn in plan.turns ==> TurnInOrder(plan.events, turn) {
      forall e | e in plan.events
        ensures AnsweredInOrder(plan.events, e)
      {
        if MatchedResult(plan.events, e) {
          var turn := TurnHolding(plan, e);
          assert TurnInOrder(plan.events, turn);
        }
      }
    }
  }

  /** Events outside the conversation never yield rows that the checker looks at. */
  predicate Guarded(events: seq<CanonicalEvent>) {
    forall e :: e in events && e.kind.Metadata? && e.raw.Envelope? ==> e.raw.kind.Extension?
  }

  /** The stream goes through the checker exactly when every correlated call precedes its result. */
  lemma StreamAccepted(plan: Plan)
    requires ValidPlan(plan) && Answerable(plan.events) && Guarded(plan.events)
    ensures Run(Ok(FRESH), Stream(plan)).Ok? <==> CallsPrecedeResults(plan.events)
  {
    forall e | e in plan.events
      ensures BundleOf(plan, e) == ConversationOf(plan, e)
           || (ConversationOf(plan, e) == [] && forall x :: x in BundleOf(plan, e) ==> Neutral(x.row))
    {
      GroupLedByMember(plan.groups, e);
      if e.kind == Other {
        GroupRowNeutral(plan, GroupLedBy(plan.groups, e));
      }
    }
    RunSkipping(Ok(FRESH), plan.events, Bundle(plan), ConversationEmissions(plan));
    ConversationByTurn(plan);
    TurnsRun(plan, plan.turns);
    EventsByTurnsInOrder(plan);
  }

  lemma GroupRowNeutral(plan: Plan, group: seq<CanonicalEvent>)
    requires group == [] || group[0].kind == Other
    ensures forall x :: x in GroupDraft(plan, group) ==> Neutral(x.row)
  {
  }
}
