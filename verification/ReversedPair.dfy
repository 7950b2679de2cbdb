/** A history that the materializer accepts and the session checker refuses: a result that precedes its call. */
module ReversedPair {
  import opened Outcomes
  import opened Text
  import opened Sequences
  import opened Sorting
  import opened Canonical
  import opened CoordinateRuns
  import opened OtherGroups
  import opened SessionInvariants
  import opened PortableEmission
  import opened PortableOrder
  import opened PortableAcceptance
  import opened PortableRelocation
  import opened PortableAnchors
  import opened PortableMaterialize
  import opened Materialize

  function ToolEvent(id: string, sequence: int, kind: EventKind, phase: Phase): CanonicalEvent {
    CanonicalEvent(id, sequence, kind, Some(Topology(Coord("t", 0), Some(Coord("s", 0)), phase)),
                   Content(MessageView(None, None, None, None, NoSource, None, None), None,
                           ToolView(Some("c"), Some("n"), Some("a"), Some("o"), false), ""),
                   NoRaw)
  }

  const RESULT := ToolEvent("r", 0, ToolResult, ToolResultPhase)
  const CALL := ToolEvent("k", 1, ToolCall, ToolCallPhase)
  const REVERSED := [RESULT, CALL]
  const STEP := Group(Coord("s", 0), REVERSED)
  const TURN := Group(Coord("t", 0), REVERSED)

  lemma FilterTwo<T>(a: T, b: T, p: T -> bool)
    ensures Filter([a, b], p) == (if p(a) then [a] else []) + (if p(b) then [b] else [])
  {
    assert [a, b][..1] == [a] && [a][..0] == [];
    assert Filter([a], p) == if p(a) then [a] else [];
  }

  lemma FlatMapTwo<A, B>(a: A, b: A, f: A -> seq<B>)
    ensures FlatMap([a, b], f) == f(a) + f(b)
  {
    assert [a, b][..1] == [a];
    SingletonFlatMap(a, f);
  }

  lemma RunsTwo(a: CanonicalEvent, b: CanonicalEvent, coord: CanonicalEvent -> Coord)
    requires coord(a) == coord(b)
    ensures Runs([a, b], coord) == [Group(coord(a), [a, b])]
  {
    assert [a, b][..1] == [a] && [a][..0] == [];
    var runs := [Group(coord(a), [a])];
    assert Runs([], coord) == [];
    assert Runs([a], coord) == runs;
    assert Last(runs).members + [b] == [a, b] && runs[..0] == [];
    assert Extend(runs, coord(b), b) == [Group(coord(a), [a, b])];
  }

  lemma BothKept(p: CanonicalEvent -> bool)
    requires p(RESULT) && p(CALL)
    ensures Filter(REVERSED, p) == REVERSED
  {
    FilterTwo(RESULT, CALL, p);
  }

  lemma ReversedTurns()
    ensures Filter(REVERSED, IsConversation) == REVERSED
    ensures Turns(REVERSED) == [TURN]
    ensures Filter(REVERSED, IsModel) == REVERSED
    ensures Steps(TURN) == [STEP]
  {
    BothKept(IsConversation);
    BothKept(IsModel);
    RunsTwo(RESULT, CALL, TurnCoord);
    RunsTwo(RESULT, CALL, StepCoord);
  }

  lemma ReversedMatched()
    ensures Matched(REVERSED, "c") && CallFor(REVERSED, "c") == CALL
    ensures MatchedCall(REVERSED, CALL) && MatchedResult(REVERSED, RESULT)
  {
    FilterTwo(RESULT, CALL, IsCallWith("c"));
    FilterTwo(RESULT, CALL, IsResultWith("c"));
  }

  lemma ReversedFeeding()
    ensures AssistantEvents(REVERSED, STEP) == [CALL]
    ensures StepBlocks(REVERSED, STEP) == [ToolCallBlock("c", "n", "a")]
  {
    ReversedMatched();
    FilterTwo(RESULT, CALL, Feeds(REVERSED));
    SingletonFlatMap(CALL, Own(REVERSED));
  }

  lemma Letters()
    ensures NonBlank("c") && NonBlank("n") && NonBlank("r") && NonBlank("k")
  {
    assert !IsTrimmed("c"[0]) && !IsTrimmed("n"[0]) && !IsTrimmed("r"[0]) && !IsTrimmed("k"[0]);
  }

  lemma ReversedPlannable()
    ensures TurnPlannable(REVERSED, TURN)
  {
    ReversedTurns();
    ReversedFeeding();
    Letters();
  }

  const PLAN := Plan(REVERSED, 0, [TURN], [])

  lemma ReversedPlan()
    ensures PlanFor(REVERSED, 0) == PLAN && ValidPlan(PLAN)
  {
    ReversedTurns();
    ReversedPlannable();
    var init := REVERSED[..1];
    assert init == [RESULT] && init[..0] == [] && Last(init) == RESULT && Last(REVERSED) == CALL;
    assert CollectAll([TURN], []) == Progress([], map[], None);
    assert CollectAll([TURN], init) == Progress([], map[], None);
    assert CollectAll([TURN], REVERSED) == Progress([], map[], None);
  }

  const ASSISTANT_ID := "mcsf:" + "t" + ":" + "s" + ":assistant"

  function Assistant(): Emission {
    Emission(1, -200, Row(AssistantMessageRow, 0, 1,
                          RowData(Some(1), Some(1), None,
                              Some(Message(Some(ASSISTANT_ID), [ToolCallBlock("c", "n", "a")], IMPORTED)), NoDetail),
                          false, None, Append), [1], None)
  }

  function Answer(): Emission {
    Emission(0, 0, ResultRow(0, 1, 1, RESULT), [0], Some("c"))
  }

  function Invoked(): Emission {
    Emission(1, 0, CallRow(0, 1, 1, CALL), [1], None)
  }

  lemma ReversedStep()
    ensures StepDrafts(PLAN, TURN, STEP)
            == StepStartOf(PLAN, TURN, STEP) + [Assistant()] + [Answer(), Invoked()] + StepEndOf(PLAN, TURN, STEP)
  {
    ReversedMatched();
    ReversedFeeding();
    assert [CALL][1..] == [];
    assert AssistantSource([]) == IMPORTED;
    assert AssistantSource([CALL]) == IMPORTED;
    assert Map([CALL], SequenceOf) == [1];
    assert AssistantId(TURN, STEP, [CALL]) == ASSISTANT_ID;
    assert AssistantEmissions(PLAN, TURN, STEP) == [Assistant()];
    FlatMapTwo(RESULT, CALL, ToolEmissions(PLAN, TURN, STEP));
    assert ToolDraft(PLAN, TURN, STEP, RESULT) == [Answer()];
    assert ToolDraft(PLAN, TURN, STEP, CALL) == [Invoked()];
  }

  lemma ReversedPushes()
    ensures Pushes(PLAN) == TurnStartOf(PLAN, TURN) + StepDrafts(PLAN, TURN, STEP) + TurnEndOf(PLAN, TURN)
  {
    hide StepDrafts, TurnStartOf, TurnEndOf, Turns, Filter;
    ReversedTurns();
    FlatMapTwo(RESULT, CALL, UserEmissions(PLAN));
    FlatMapTwo(RESULT, CALL, MetadataEmissions(PLAN));
    SingletonFlatMap(STEP, StepPushes(PLAN, TURN));
    SingletonFlatMap(TURN, TurnPushes(PLAN));
    assert FlatMap(PLAN.groups, GroupEmissions(PLAN)) == [];
  }

  lemma PushPlain(sink: Sink, x: Emission)
    requires !IsMessageRow(x.row)
    ensures PushAll(REVERSED, Ok(sink), [x]) == Ok(sink.(drafts := sink.drafts + [Draft(x, |sink.drafts|)]))
  {
    PushAllOne(REVERSED, sink, x);
  }

  lemma ReversedAnchors()
    ensures AnchorsTo(REVERSED, Assistant()) == [ASSISTANT_ID, "k"]
    ensures AnchorsTo(REVERSED, Answer()) == ["r", "r"]
    ensures NonBlank(ASSISTANT_ID)
  {
    SingletonFlatMap(1, OriginAnchors(REVERSED));
    SingletonFlatMap(0, OriginAnchors(REVERSED));
    assert Last(REVERSED) == CALL;
    assert REVERSED[..1] == [RESULT];
    assert EventAt(REVERSED, 1) == Some(CALL);
    assert EventAt([RESULT], 0) == Some(RESULT);
    assert EventAt(REVERSED, 0) == Some(RESULT);
    Letters();
    assert ASSISTANT_ID[0] == 'm' && !IsTrimmed(ASSISTANT_ID[0]);
  }

  lemma AddTwo(aliases: map<string, string>, a: string, b: string, target: string)
    requires a !in aliases && b !in aliases
    requires a == target || b == target
    ensures AddAnchors(aliases, [a, b], target) == Ok(aliases[a := target][b := target])
  {
    assert [a, b][..1] == [a] && [a][..0] == [];
    assert AddAnchors(aliases, [], target) == Ok(aliases);
    assert AddAnchors(aliases, [a], target) == Ok(aliases[a := target]);
  }

  lemma AssistantPushed(sink: Sink)
    requires sink.messageIds == {} && sink.aliases == map[]
    ensures Push(REVERSED, sink, Assistant()).Ok?
    ensures var next := Push(REVERSED, sink, Assistant()).value;
            next.messageIds == {ASSISTANT_ID} && "r" !in next.messageIds && "r" !in next.aliases
  {
    hide AnchorsTo, AddAnchors;
    ReversedAnchors();
    AddTwo(sink.aliases, ASSISTANT_ID, "k", ASSISTANT_ID);
    assert ASSISTANT_ID != "r" && ASSISTANT_ID[0] == 'm';
  }

  lemma AnswerPushed(sink: Sink)
    requires "r" !in sink.messageIds && "r" !in sink.aliases
    ensures Push(REVERSED, sink, Answer()).Ok?
  {
    hide AnchorsTo, AddAnchors;
    ReversedAnchors();
    Letters();
    AddTwo(sink.aliases, "r", "r", "r");
  }

  lemma ReversedMessages(sink: Sink)
    requires sink.messageIds == {} && sink.aliases == map[]
    ensures PushAll(REVERSED, Ok(sink), [Assistant()]).Ok?
    ensures var next := PushAll(REVERSED, Ok(sink), [Assistant()]).value;
            PushAll(REVERSED, Ok(next), [Answer(), Invoked()]).Ok?
  {
    hide Push, PushAll;
    AssistantPushed(sink);
    PushAllOne(REVERSED, sink, Assistant());
    var next := Push(REVERSED, sink, Assistant()).value;
    AnswerPushed(next);
    PushAllOne(REVERSED, next, Answer());
    assert [Answer(), Invoked()] == [Answer()] + [Invoked()];
    PushAllConcat(REVERSED, Ok(next), [Answer()], [Invoked()]);
    PushPlain(Push(REVERSED, next, Answer()).value, Invoked());
  }

  lemma ReversedPushed()
    ensures PushAll(REVERSED, Ok(EMPTY_SINK), Pushes(PLAN)).Ok?
  {
    ReversedPushes();
    ReversedStep();
    var a, b, d, e := TurnStartOf(PLAN, TURN), StepStartOf(PLAN, TURN, STEP), StepEndOf(PLAN, TURN, STEP),
        TurnEndOf(PLAN, TURN);
    ThreeParts(REVERSED, Ok(EMPTY_SINK), a, StepDrafts(PLAN, TURN, STEP), e);
    PushPlain(EMPTY_SINK, a[0]);
    assert a == [a[0]] && b == [b[0]] && d == [d[0]] && e == [e[0]];
    var s1 := PushAll(REVERSED, Ok(EMPTY_SINK), a).value;
    FourParts(REVERSED, Ok(s1), b, [Assistant()], [Answer(), Invoked()], d);
    PushPlain(s1, b[0]);
    var s2 := PushAll(REVERSED, Ok(s1), b).value;
    ReversedMessages(s2);
    var s3 := PushAll(REVERSED, Ok(s2), [Assistant()]).value;
    var s4 := PushAll(REVERSED, Ok(s3), [Answer(), Invoked()]).value;
    PushPlain(s4, d[0]);
    var s5 := PushAll(REVERSED, Ok(s4), d).value;
    PushPlain(s5, e[0]);
  }

  predicate Plain(x: Emission) {
    x.row.sourceSeqs.None? && (x.resultCallId.None? || x.resultCallId == Some("c"))
  }

  lemma ReversedPlain()
    ensures forall x :: x in Pushes(PLAN) ==> Plain(x)
    ensures Invoked() in Pushes(PLAN)
  {
    hide Pushes, StepDrafts;
    ReversedPushes();
    ReversedStep();
    var a, b, d, e := TurnStartOf(PLAN, TURN), StepStartOf(PLAN, TURN, STEP), StepEndOf(PLAN, TURN, STEP),
        TurnEndOf(PLAN, TURN);
    assert forall x :: x in a || x in b || x in d || x in e ==> Plain(x);
    assert Invoked() in [Answer(), Invoked()];
  }

  lemma PlainRelocates(stream: seq<Emission>)
    requires forall x :: x in stream ==> Plain(x)
    requires Invoked() in stream
    ensures AllRelocatable(stream)
  {
    Letters();
    var i :| 0 <= i < |stream| && stream[i] == Invoked();
    assert CarriesCall(stream[i].row, "c");
  }

  lemma ReversedRelocates()
    ensures AllRelocatable(Stream(PLAN))
  {
    ReversedPlain();
    ReversedPlan();
    PushesRearranged(PLAN);
    SameMembers(Pushes(PLAN), Stream(PLAN));
    PlainRelocates(Stream(PLAN));
  }

  lemma ReversedCompilable()
    ensures Compilable(REVERSED, 0)
  {
    hide Pushes, Stream, PushAll, AllRelocatable, Runs, Filter, TurnPlannable, ValidPlan, PlanFor;
    ReversedTurns();
    ReversedPlannable();
    ReversedPlan();
    ReversedPushed();
    ReversedRelocates();
  }

  lemma ReversedProjects()
    ensures PortableProjection(REVERSED, 0)
  {
    hide Compilable;
    ReversedCompilable();
    assert RESULT in REVERSED && IsConversation(RESULT) && !HasEnvelope(RESULT);
  }

  lemma ReversedOutOfOrder()
    ensures !CallsPrecedeResults(REVERSED)
  {
    ReversedMatched();
    assert RESULT in REVERSED;
    assert !AnsweredInOrder(REVERSED, RESULT);
  }

  /** The result of the pair precedes its call: the projection succeeds and the session checker refuses it. */
  lemma ReversedPairIsRefused()
    ensures PortableProjection(REVERSED, 0)
    ensures AllRelocatable(Stream(PlanFor(REVERSED, 0))) && !Accepted(Rows(Stream(PlanFor(REVERSED, 0))))
  {
    ReversedProjects();
    ReversedOutOfOrder();
    PortableProjectionCorrect(REVERSED, 0);
  }
}
