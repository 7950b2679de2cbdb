/**
 * Histories the planner calls eligible. What decides whether they are projected is the sequence of their coordinates,
 * not whether a turn has steps of both kinds.
 */
module MixedTurn {
  import opened Outcomes
  import opened Text
  import opened Canonical
  import opened Materialize
  import opened TopologyPlanner
  import opened TopologyOutline
  import opened PlannedProjection

  function Said(id: string, sequence: int, kind: EventKind, turn: nat, step: Option<Coord>,
      phase: Phase): CanonicalEvent
  {
    CanonicalEvent(id, sequence, kind, Some(Topology(Coord("t", turn), step, phase)),
                   Content(MessageView(None, None, Some("m"), None, NoSource, None, None), None,
                           ToolView(None, None, None, None, false), ""),
                   NoRaw)
  }

  const THOUGHT := Said("r", 0, Reasoning, 0, None, ReasoningPhase)

  /** An answer that brings its step. */
  function Answer(turn: nat, ordinal: nat): CanonicalEvent {
    Said("k", 1, AssistantMessage, turn, Some(Coord("x", ordinal)), AssistantPhase)
  }

  const MIXED := [THOUGHT, Answer(0, 0)]
  const CONTINUED := [THOUGHT, Answer(0, 1)]

  predicate Unobjected(s: Planner) {
    s.issues == [] && s.tools.pending == map[]
  }

  lemma ThoughtPlanned()
    ensures Unobjected(PlanNext(START, THOUGHT))
    ensures PlanNext(START, THOUGHT).tables == Register(START.tables, Coord("t", 0), Coord(StepId("t", 0), 0))
  {
    hide Digits, Register;
  }

  lemma AnswerPlanned(s: Planner, ordinal: nat)
    requires Unobjected(s) && s.tables == Register(START.tables, Coord("t", 0), Coord(StepId("t", 0), 0))
    ensures Unobjected(PlanNext(s, Answer(0, ordinal)))
  {
    hide Digits, StepId;
    DerivedName();
  }

  lemma DerivedName()
    ensures StepId("t", 0) != "x"
  {
    assert |StepId("t", 0)| > 1;
  }

  lemma TwoEvents(a: CanonicalEvent, b: CanonicalEvent)
    ensures PlanAll([a, b]) == PlanNext(PlanNext(START, a), b)
    ensures OutlineOf([a, b]) == OutlineNext(OutlineNext(BLANK, a), b)
    ensures InSequence([a, b])
            <==> (TurnFits(BLANK, a) && StepFits(BLANK, a)
                  && TurnFits(OutlineNext(BLANK, a), b) && StepFits(OutlineNext(BLANK, a), b))
  {
    hide PlanNext, OutlineNext, TurnFits, StepFits;
    assert [a, b][..1] == [a] && [a][..0] == [];
    assert PlanAll([]) == START && PlanAll([a]) == PlanNext(START, a);
    assert OutlineOf([]) == BLANK && OutlineOf([a]) == OutlineNext(BLANK, a);
    assert InSequence([a]) <==> TurnFits(BLANK, a) && StepFits(BLANK, a);
  }

  /** The reasoning gets the first derived step. */
  lemma ThoughtOutlined()
    ensures TurnFits(BLANK, THOUGHT) && StepFits(BLANK, THOUGHT)
    ensures OutlineNext(BLANK, THOUGHT).turns == [Coord("t", 0)]
            && OutlineNext(BLANK, THOUGHT).steps == [Coord(StepId("t", 0), 0)]
  {
    hide Digits, StepId, Track;
  }

  lemma AnswerFits(o: Outline, ordinal: nat)
    requires o.turns == [Coord("t", 0)] && o.steps == [Coord(StepId("t", 0), 0)]
    ensures TurnFits(o, Answer(0, ordinal)) && (StepFits(o, Answer(0, ordinal)) <==> ordinal == 1)
  {
    hide Digits, StepId;
    DerivedName();
  }

  /** A derived step followed by one that is brought is always eligible, and in sequence when the ordinals are. */
  lemma MixedTurnExactly(ordinal: nat)
    ensures Eligible([THOUGHT, Answer(0, ordinal)]) && DistinctIds([THOUGHT, Answer(0, ordinal)])
    ensures InSequence([THOUGHT, Answer(0, ordinal)]) <==> ordinal == 1
  {
    hide Digits, PlanNext, Register, OutlineNext, TurnFits, StepFits, Said;
    TwoEvents(THOUGHT, Answer(0, ordinal));
    ThoughtPlanned();
    AnswerPlanned(PlanNext(START, THOUGHT), ordinal);
    ThoughtOutlined();
    AnswerFits(OutlineNext(BLANK, THOUGHT), ordinal);
    NamesApart(ordinal);
  }

  lemma NamesApart(ordinal: nat)
    ensures DistinctIds([THOUGHT, Answer(0, ordinal)])
  {
    assert "r"[0] != "k"[0];
  }

  /** One answer is always eligible, and in sequence when it brings the first step of the first turn. */
  lemma LoneAnswerExactly(turn: nat, ordinal: nat)
    ensures Eligible([Answer(turn, ordinal)]) && DistinctIds([Answer(turn, ordinal)])
    ensures InSequence([Answer(turn, ordinal)]) <==> turn == 0 && ordinal == 0
  {
    var e := Answer(turn, ordinal);
    assert [e][..0] == [];
    assert PlanAll([]) == START && OutlineOf([]) == BLANK && InSequence([]);
    assert PlanAll([e]) == PlanNext(START, e);
    assert InSequence([e]) <==> TurnFits(BLANK, e) && StepFits(BLANK, e);
  }

  /** Eligibility does not make a turn with steps of both kinds projectable. */
  lemma MixedTurnIsRefused(createdAt: int)
    ensures Eligible(MIXED) && !PortableProjection(Applied(MIXED), createdAt)
  {
    hide PortableProjection, Eligible, InSequence, Applied;
    MixedTurnExactly(0);
    if PortableProjection(Applied(MIXED), createdAt) {
      ProjectedComeInSequence(MIXED, createdAt);
    }
  }

  /** Nor does it make a turn without derived steps projectable, or a single turn. */
  lemma LateAnswersAreRefused(turn: nat, ordinal: nat, createdAt: int)
    requires turn > 0 || ordinal > 0
    ensures Eligible([Answer(turn, ordinal)]) && !PortableProjection(Applied([Answer(turn, ordinal)]), createdAt)
  {
    hide PortableProjection, Eligible, InSequence, Applied;
    LoneAnswerExactly(turn, ordinal);
    if PortableProjection(Applied([Answer(turn, ordinal)]), createdAt) {
      ProjectedComeInSequence([Answer(turn, ordinal)], createdAt);
    }
  }

  /** And a turn with steps of both kinds can be collected. */
  lemma MixedTurnIsCollected()
    ensures Eligible(CONTINUED) && Collected(Applied(CONTINUED))
  {
    hide Eligible, InSequence, Applied, Collected;
    MixedTurnExactly(1);
    EligiblePlansAreCollectedExactly(CONTINUED);
  }
}
