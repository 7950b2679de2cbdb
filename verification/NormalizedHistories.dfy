/**
 * What the planner makes of a normalized rollout, whose events bring their turn and no step: it is collected exactly
 * when no event returns to an earlier turn.
 */
module NormalizedHistories {
  import opened Outcomes
  import opened Sequences
  import opened Canonical
  import opened TopologyPlanner
  import opened TopologyOutline
  import opened TopologySteps
  import Codex = CodexNormalizer

  function PhaseAs(phase: Codex.Phase): Phase {
    match phase
    case UserPhase => UserPhase
    case AssistantPhase => AssistantPhase
    case CallPhase => ToolCallPhase
    case ResultPhase => ToolResultPhase
    case ReasoningPhase => ReasoningPhase
  }

  /** The canonical event of a normalized one: its kind has the phase, and its turn comes without a step. */
  predicate Records(e: CanonicalEvent, n: Codex.Event) {
    match n.topology
    case Some(t) =>
      && PhaseOf(e.kind) == Some(PhaseAs(t.phase))
      && e.topology == Some(Topology(Coord(t.turnId, t.ordinal), None, PhaseAs(t.phase)))
    case None => !IsConversation(e)
  }

  ghost predicate AllRecorded(events: seq<CanonicalEvent>, normalized: seq<Codex.Event>) {
    |events| == |normalized| && forall i :: 0 <= i < |events| ==> Records(events[i], normalized[i])
  }

  /** Between two events of one turn every event is of that turn. */
  ghost predicate NoReturn(normalized: seq<Codex.Event>) {
    forall i, m, j ::
      && 0 <= i < m < j < |normalized|
      && normalized[i].topology.Some? && normalized[m].topology.Some? && normalized[j].topology.Some?
      && normalized[i].topology.value.turnId == normalized[j].topology.value.turnId
      ==> normalized[m].topology.value.turnId == normalized[i].topology.value.turnId
  }

  function LastTurn(normalized: seq<Codex.Event>): Option<Codex.Topology> {
    if normalized == [] then None
    else if Last(normalized).topology.Some? then Last(normalized).topology
    else LastTurn(normalized[..|normalized| - 1])
  }

  /** Each event continues the last turn or opens one not used. */
  predicate Unbroken(normalized: seq<Codex.Event>) {
    normalized == []
    || (var init, last := normalized[..|normalized| - 1], Last(normalized).topology;
        && Unbroken(init)
        && (last.None? || last.value.turnId !in Codex.TurnsUsed(init)
            || (LastTurn(init).Some? && LastTurn(init).value.turnId == last.value.turnId)))
  }

  lemma {:induction false} LastTurnAt(normalized: seq<Codex.Event>) returns (m: nat)
    requires LastTurn(normalized).Some?
    ensures m < |normalized| && normalized[m].topology == LastTurn(normalized)
    ensures forall k :: m < k < |normalized| ==> normalized[k].topology.None?
  {
    if Last(normalized).topology.Some? {
      m := |normalized| - 1;
    } else {
      m := LastTurnAt(normalized[..|normalized| - 1]);
    }
  }

  lemma {:induction false} NoLastTurn(normalized: seq<Codex.Event>)
    ensures LastTurn(normalized).None? <==> forall k :: 0 <= k < |normalized| ==> normalized[k].topology.None?
  {
    if normalized != [] {
      NoLastTurn(normalized[..|normalized| - 1]);
      assert Last(normalized) == normalized[|normalized| - 1];
    }
  }

  lemma FewerReturn(normalized: seq<Codex.Event>)
    requires NoReturn(normalized) && normalized != []
    ensures NoReturn(normalized[..|normalized| - 1])
  {
    var init := normalized[..|normalized| - 1];
    assert forall i :: 0 <= i < |init| ==> init[i] == normalized[i];
  }

  lemma {:induction false} UnbrokenNeeded(normalized: seq<Codex.Event>)
    requires NoReturn(normalized)
    ensures Unbroken(normalized)
  {
    if normalized != [] {
      var init, last := normalized[..|normalized| - 1], Last(normalized).topology;
      FewerReturn(normalized);
      UnbrokenNeeded(init);
      if last.Some? && last.value.turnId in Codex.TurnsUsed(init) {
        var i :| 0 <= i < |init| && init[i].topology.Some? && init[i].topology.value.turnId == last.value.turnId;
        NoLastTurn(init);
        var m := LastTurnAt(init);
        assert init[i] == normalized[i] && init[m] == normalized[m];
        assert normalized[|normalized| - 1].topology == last;
      }
    }
  }

  lemma {:induction false} UnbrokenSuffices(normalized: seq<Codex.Event>)
    requires Unbroken(normalized)
    ensures NoReturn(normalized)
  {
    if normalized != [] {
      var init, last := normalized[..|normalized| - 1], Last(normalized).topology;
      UnbrokenSuffices(init);
      forall i, m, j | 0 <= i < m < j < |normalized|
          && normalized[i].topology.Some? && normalized[m].topology.Some? && normalized[j].topology.Some?
          && normalized[i].topology.value.turnId == normalized[j].topology.value.turnId
        ensures normalized[m].topology.value.turnId == normalized[i].topology.value.turnId
      {
        assert init[i] == normalized[i] && init[m] == normalized[m];
        if j < |init| {
          assert init[j] == normalized[j];
        } else {
          assert init[i].topology.value.turnId in Codex.TurnsUsed(init);
          var l := LastTurnAt(init);
          assert init[l].topology.value.turnId == last.value.turnId;
        }
      }
    }
  }

  // ----- the pass over the history

  /** Turn identities and ordinals determine each other, and a turn first used gets the next ordinal. */
  ghost predicate Dense(normalized: seq<Codex.Event>) {
    forall i, j ::
      0 <= i < |normalized| && 0 <= j < |normalized| && normalized[i].topology.Some? && normalized[j].topology.Some? ==>
        var a, b := normalized[i].topology.value, normalized[j].topology.value;
        && (a.turnId == b.turnId ==> a.ordinal == b.ordinal)
        && (a.turnId !in Codex.TurnsUsed(normalized[..i]) ==> a.ordinal == |Codex.TurnsUsed(normalized[..i])|)
  }

  lemma NormalizedIsDense(reader: Codex.Reader, items: seq<Codex.Item>)
    ensures Dense(Codex.Normalize(reader, items, |items|).events)
  {
    hide Codex.Normalize, Codex.TurnsUsed;
    var normalized := Codex.Normalize(reader, items, |items|).events;
    forall i, j | 0 <= i < |normalized| && 0 <= j < |normalized|
        && normalized[i].topology.Some? && normalized[j].topology.Some?
      ensures var a, b := normalized[i].topology.value, normalized[j].topology.value;
              && (a.turnId == b.turnId ==> a.ordinal == b.ordinal)
              && (a.turnId !in Codex.TurnsUsed(normalized[..i]) ==> a.ordinal == |Codex.TurnsUsed(normalized[..i])|)
    {
      Codex.TurnsAndOrdinalsCorrespond(reader, items, i, j);
    }
  }

  lemma FewerDense(normalized: seq<Codex.Event>)
    requires Dense(normalized) && normalized != []
    ensures Dense(normalized[..|normalized| - 1])
  {
    hide Codex.TurnsUsed;
    var init := normalized[..|normalized| - 1];
    assert forall i :: 0 <= i < |init| ==> init[i] == normalized[i] && init[..i] == normalized[..i];
  }

  function CoordAt(t: Codex.Topology): Coord {
    Coord(t.turnId, t.ordinal)
  }

  /** The pass has met the turns used, and the last one met is the last one used. */
  ghost predicate Matches(o: Outline, normalized: seq<Codex.Event>) {
    && (forall id :: Known(o.turns, id) <==> id in Codex.TurnsUsed(normalized))
    && |o.turns| == |Codex.TurnsUsed(normalized)|
    && (if o.turns == [] then LastTurn(normalized).None?
        else LastTurn(normalized).Some? && CoordAt(LastTurn(normalized).value) == Last(o.turns))
  }

  lemma BroughtLanding(o: Outline, e: CanonicalEvent, n: Codex.Event)
    requires Records(e, n) && n.topology.Some?
    ensures IsConversation(e) && Landing(o, e).turn == CoordAt(n.topology.value) && !HasExplicitStep(e)
  {
  }

  /** One more event fits exactly when it continues the last turn or opens one not used. */
  lemma FitsExactly(o: Outline, normalized: seq<Codex.Event>, e: CanonicalEvent)
    requires normalized != [] && Dense(normalized) && Records(e, Last(normalized)) && Last(normalized).topology.Some?
    requires Matches(o, normalized[..|normalized| - 1])
    ensures var init, t := normalized[..|normalized| - 1], Last(normalized).topology.value;
            TurnFits(o, e) <==>
              (t.turnId !in Codex.TurnsUsed(init)
               || (LastTurn(init).Some? && LastTurn(init).value.turnId == t.turnId))
  {
    hide Landing, Codex.TurnsUsed, LastTurn;
    var init, t := normalized[..|normalized| - 1], Last(normalized).topology.value;
    assert normalized[|normalized| - 1].topology == Some(t) && normalized[..|normalized| - 1] == init;
    BroughtLanding(o, e, Last(normalized));
    assert t.turnId !in Codex.TurnsUsed(init) ==> t.ordinal == |Codex.TurnsUsed(init)|;
    if LastTurn(init).Some? {
      var m := LastTurnAt(init);
      assert normalized[m] == init[m];
    }
    assert Known(o.turns, t.turnId) <==> t.turnId in Codex.TurnsUsed(init);
    if o.turns != [] {
      assert Known(o.turns, Last(o.turns).id) by {
        assert o.turns[|o.turns| - 1].id == Last(o.turns).id;
      }
    }
  }

  lemma MatchesNext(o: Outline, normalized: seq<Codex.Event>, e: CanonicalEvent)
    requires normalized != [] && Records(e, Last(normalized)) && Last(normalized).topology.Some?
    requires Matches(o, normalized[..|normalized| - 1]) && TurnFits(o, e)
    ensures Matches(OutlineNext(o, e), normalized)
  {
    hide Landing, Locate, Track, CompletesStep, Codex.TurnsUsed;
    var t := Last(normalized).topology.value;
    var init := normalized[..|normalized| - 1];
    BroughtLanding(o, e, Last(normalized));
    var more := OutlineNext(o, e).turns;
    assert normalized == init + [Last(normalized)];
    Codex.UsedGrows(init, Last(normalized));
    forall id
      ensures Known(more, id) <==> id in Codex.TurnsUsed(normalized)
    {
      EnteredExactly(o.turns, CoordAt(t), id);
    }
    if o.turns != [] && Last(o.turns) == CoordAt(t) {
      assert o.turns[|o.turns| - 1].id == t.turnId;
      assert Known(o.turns, t.turnId);
    } else {
      assert !Known(o.turns, t.turnId);
    }
  }

  lemma EnteredExactly(turns: seq<Coord>, c: Coord, id: string)
    ensures Known(Entered(turns, c), id) <==> Known(turns, id) || id == c.id
  {
    if Known(turns, id) || id == c.id {
      EnteredKnown(turns, c, id);
    }
  }

  lemma {:induction false} NormalizedTurns(events: seq<CanonicalEvent>, normalized: seq<Codex.Event>)
    requires AllRecorded(events, normalized) && Dense(normalized)
    ensures TurnsInSequence(events) <==> Unbroken(normalized)
    ensures TurnsInSequence(events) ==> Matches(OutlineOf(events), normalized)
  {
    hide Dense, Matches, TurnFits, OutlineNext, Codex.TurnsUsed;
    if events == [] {
      NothingMatches();
    } else {
      var init, e := events[..|events| - 1], Last(events);
      var before, n := normalized[..|normalized| - 1], Last(normalized);
      assert forall i :: 0 <= i < |init| ==> init[i] == events[i] && before[i] == normalized[i];
      assert Records(events[|events| - 1], normalized[|events| - 1]);
      FewerDense(normalized);
      NormalizedTurns(init, before);
      if n.topology.Some? {
        if TurnsInSequence(init) {
          FitsExactly(OutlineOf(init), normalized, e);
          if TurnFits(OutlineOf(init), e) {
            MatchesNext(OutlineOf(init), normalized, e);
          }
        }
      } else {
        NotOutlined(OutlineOf(init), e);
        SilentMatches(OutlineOf(init), normalized);
      }
    }
  }

  lemma NothingMatches()
    ensures Matches(BLANK, [])
  {
  }

  lemma SilentMatches(o: Outline, normalized: seq<Codex.Event>)
    requires normalized != [] && Last(normalized).topology.None?
    ensures Matches(o, normalized[..|normalized| - 1]) ==> Matches(o, normalized)
  {
    assert Codex.TurnsUsed(normalized) == Codex.TurnsUsed(normalized[..|normalized| - 1]);
  }

  /** A normalized rollout is planned into turns and steps that are collected exactly when it returns to no turn. */
  lemma NormalizedComeInSequence(reader: Codex.Reader, items: seq<Codex.Item>, events: seq<CanonicalEvent>)
    requires AllRecorded(events, Codex.Normalize(reader, items, |items|).events)
    ensures InSequence(events) <==> NoReturn(Codex.Normalize(reader, items, |items|).events)
  {
    hide Codex.Normalize, NoReturn, InSequence, TurnsInSequence, StepsInSequence;
    var normalized := Codex.Normalize(reader, items, |items|).events;
    NormalizedIsDense(reader, items);
    NormalizedTurns(events, normalized);
    if NoReturn(normalized) {
      UnbrokenNeeded(normalized);
    } else if Unbroken(normalized) {
      UnbrokenSuffices(normalized);
    }
    if InSequence(events) {
      EachInSequence(events, "");
    } else if TurnsInSequence(events) {
      forall id
        ensures StepsInSequence(events, id)
      {
        NoStepsBrought(events, normalized, id);
        FreeInSequence(events, id);
      }
      TogetherInSequence(events);
    }
  }

  lemma NoStepsBrought(events: seq<CanonicalEvent>, normalized: seq<Codex.Event>, turnId: string)
    requires AllRecorded(events, normalized)
    ensures IsFree(events, turnId)
  {
    forall i | 0 <= i < |events| && IsConversation(events[i])
      ensures !HasExplicitStep(events[i])
    {
      assert Records(events[i], normalized[i]);
    }
  }
}
