/**
 * When a history is eligible, and what each defect of it is called: phases, coordinates and calls are compared with the
 * planned events themselves.
 */
module TopologyVerdict {
  import opened Outcomes
  import opened Sequences
  import opened Canonical
  import opened TopologyPlanner
  import opened TopologyCorrelation
  import opened TopologyReasons

  // ----- the first event of a kind

  function FirstWith(events: seq<CanonicalEvent>, p: CanonicalEvent -> bool): (r: Option<nat>)
    ensures r.Some? ==> r.value < |events| && p(events[r.value]) && forall i :: 0 <= i < r.value ==> !p(events[i])
    ensures r.None? ==> forall i :: 0 <= i < |events| ==> !p(events[i])
  {
    if events == [] then None
    else
      var before := FirstWith(events[..|events| - 1], p);
      if before.Some? then before else if p(events[|events| - 1]) then Some(|events| - 1) else None
  }

  function AtOrdinal(ordinal: nat): CanonicalEvent -> bool {
    (e: CanonicalEvent) => IsConversation(e) && TurnCoord(e).ordinal == ordinal
  }

  function AtTurn(id: string): CanonicalEvent -> bool {
    (e: CanonicalEvent) => IsConversation(e) && TurnCoord(e).id == id
  }

  function AtStep(id: string): CanonicalEvent -> bool {
    (e: CanonicalEvent) => IsConversation(e) && StepCoord(e).id == id
  }

  function AtPlace(place: Place): CanonicalEvent -> bool {
    (e: CanonicalEvent) => IsConversation(e) && PlaceIn(e) == place
  }

  function Calls(id: string): CanonicalEvent -> bool {
    (e: CanonicalEvent) => e.kind == ToolCall && StrictCallId(e) == Some(id)
  }

  function PlaceIn(e: CanonicalEvent): Place {
    (TurnCoord(e).id, StepCoord(e).id)
  }

  predicate Answers(e: CanonicalEvent, id: string) {
    e.kind == ToolResult && StrictCallId(e) == Some(id)
  }

  predicate AnsweredAfter(planned: seq<CanonicalEvent>, f: nat, id: string) {
    exists j :: f < j < |planned| && Answers(planned[j], id)
  }

  // ----- what the planner remembers is what the planned events show

  /** An entry of a table is what the first event with that key shows. */
  predicate Recalls<V(==)>(known: bool, value: V, planned: seq<CanonicalEvent>, p: CanonicalEvent -> bool,
      shows: CanonicalEvent -> V) {
    var first := FirstWith(planned, p);
    (known <==> first.Some?) && (known ==> value == shows(planned[first.value]))
  }

  function TurnId(e: CanonicalEvent): string {
    TurnCoord(e).id
  }

  function TurnOrdinal(e: CanonicalEvent): nat {
    TurnCoord(e).ordinal
  }

  function StepOrdinal(e: CanonicalEvent): nat {
    StepCoord(e).ordinal
  }

  function StepPlace(e: CanonicalEvent): (string, nat) {
    (TurnCoord(e).id, StepCoord(e).ordinal)
  }

  predicate RecallsOrdinal(t: Tables, planned: seq<CanonicalEvent>, o: nat) {
    Recalls(o in t.turnByOrdinal, if o in t.turnByOrdinal then t.turnByOrdinal[o] else "", planned, AtOrdinal(o),
        TurnId)
  }

  predicate RecallsTurn(t: Tables, planned: seq<CanonicalEvent>, id: string) {
    Recalls(id in t.ordinalByTurn, if id in t.ordinalByTurn then t.ordinalByTurn[id] else 0, planned, AtTurn(id),
        TurnOrdinal)
  }

  predicate RecallsStep(t: Tables, planned: seq<CanonicalEvent>, id: string) {
    Recalls(id in t.stepCoordinates, if id in t.stepCoordinates then t.stepCoordinates[id] else ("", 0), planned,
        AtStep(id), StepPlace)
  }

  predicate RecallsPlace(t: Tables, planned: seq<CanonicalEvent>, place: Place) {
    Recalls(place in t.stepOrdinals, if place in t.stepOrdinals then t.stepOrdinals[place] else 0, planned,
        AtPlace(place), StepOrdinal)
  }

  ghost predicate Remembers(t: Tables, planned: seq<CanonicalEvent>) {
    && (forall o: nat :: RecallsOrdinal(t, planned, o)) && (forall id :: RecallsTurn(t, planned, id))
    && (forall id :: RecallsStep(t, planned, id)) && (forall place :: RecallsPlace(t, planned, place))
  }

  ghost predicate RemembersCall(s: Tools, planned: seq<CanonicalEvent>, id: string) {
    var first := FirstWith(planned, Calls(id));
    && (id in s.seen <==> first.Some?)
    && (id in s.pending <==> first.Some? && !AnsweredAfter(planned, first.value, id))
    && (id in s.pending ==> s.pending[id] == PlaceIn(planned[first.value]))
  }

  lemma FirstMore(planned: seq<CanonicalEvent>, e: CanonicalEvent, p: CanonicalEvent -> bool)
    ensures FirstWith(planned + [e], p)
            == if FirstWith(planned, p).Some? then FirstWith(planned, p) else if p(e) then Some(|planned|) else None
  {
    assert (planned + [e])[..|planned|] == planned;
  }

  lemma RecallsMore<V>(known: bool, value: V, after: bool, value': V, planned: seq<CanonicalEvent>, e: CanonicalEvent,
      p: CanonicalEvent -> bool, shows: CanonicalEvent -> V)
    requires Recalls(known, value, planned, p, shows)
    requires after == (known || p(e)) && value' == if known then value else if p(e) then shows(e) else value'
    ensures Recalls(after, value', planned + [e], p, shows)
  {
    FirstMore(planned, e, p);
  }

  lemma TablesRemember(t: Tables, planned: seq<CanonicalEvent>, e: CanonicalEvent)
    requires Remembers(t, planned) && IsConversation(e)
    ensures Remembers(Register(t, TurnCoord(e), StepCoord(e)), planned + [e])
  {
    hide Recalls;
    var after := Register(t, TurnCoord(e), StepCoord(e));
    forall o: nat
      ensures RecallsOrdinal(after, planned + [e], o)
    {
      assert RecallsOrdinal(t, planned, o);
      RecallsMore(o in t.turnByOrdinal, if o in t.turnByOrdinal then t.turnByOrdinal[o] else "",
          o in after.turnByOrdinal, if o in after.turnByOrdinal then after.turnByOrdinal[o] else "",
          planned, e, AtOrdinal(o), TurnId);
    }
    forall id
      ensures RecallsTurn(after, planned + [e], id)
    {
      assert RecallsTurn(t, planned, id);
      RecallsMore(id in t.ordinalByTurn, if id in t.ordinalByTurn then t.ordinalByTurn[id] else 0,
          id in after.ordinalByTurn, if id in after.ordinalByTurn then after.ordinalByTurn[id] else 0,
          planned, e, AtTurn(id), TurnOrdinal);
    }
    StepsRemember(t, planned, e);
  }

  lemma StepsRemember(t: Tables, planned: seq<CanonicalEvent>, e: CanonicalEvent)
    requires Remembers(t, planned) && IsConversation(e)
    ensures var after := Register(t, TurnCoord(e), StepCoord(e));
            (forall id :: RecallsStep(after, planned + [e], id))
            && forall place :: RecallsPlace(after, planned + [e], place)
  {
    hide Recalls;
    var after := Register(t, TurnCoord(e), StepCoord(e));
    forall id
      ensures RecallsStep(after, planned + [e], id)
    {
      assert RecallsStep(t, planned, id);
      RecallsMore(id in t.stepCoordinates, if id in t.stepCoordinates then t.stepCoordinates[id] else ("", 0),
          id in after.stepCoordinates, if id in after.stepCoordinates then after.stepCoordinates[id] else ("", 0),
          planned, e, AtStep(id), StepPlace);
    }
    forall place
      ensures RecallsPlace(after, planned + [e], place)
    {
      assert RecallsPlace(t, planned, place);
      RecallsMore(place in t.stepOrdinals, if place in t.stepOrdinals then t.stepOrdinals[place] else 0,
          place in after.stepOrdinals, if place in after.stepOrdinals then after.stepOrdinals[place] else 0,
          planned, e, AtPlace(place), StepOrdinal);
    }
  }

  lemma AnsweredMore(planned: seq<CanonicalEvent>, e: CanonicalEvent, f: nat, id: string)
    requires f < |planned|
    ensures AnsweredAfter(planned + [e], f, id) <==> AnsweredAfter(planned, f, id) || Answers(e, id)
  {
    var more := planned + [e];
    if j :| f < j < |planned| && Answers(planned[j], id) {
      assert more[j] == planned[j];
    }
    if Answers(e, id) {
      assert more[|planned|] == e;
    }
  }

  lemma CallRemembered(s: Tools, planned: seq<CanonicalEvent>, e: CanonicalEvent, id: string)
    requires RemembersCall(s, planned, id)
    ensures RemembersCall(Track(s, e, PlaceIn(e)), planned + [e], id)
  {
    hide FirstWith, AnsweredAfter;
    FirstMore(planned, e, Calls(id));
    var first := FirstWith(planned, Calls(id));
    if first.Some? {
      AnsweredMore(planned, e, first.value, id);
    } else {
      NotYetAnswered(planned + [e], id);
    }
  }

  lemma NotYetAnswered(planned: seq<CanonicalEvent>, id: string)
    requires planned != []
    ensures !AnsweredAfter(planned, |planned| - 1, id)
  {
  }

  lemma OutsiderRecalls<V>(known: bool, value: V, planned: seq<CanonicalEvent>, e: CanonicalEvent,
      p: CanonicalEvent -> bool, shows: CanonicalEvent -> V)
    requires Recalls(known, value, planned, p, shows) && !p(e)
    ensures Recalls(known, value, planned + [e], p, shows)
  {
    FirstMore(planned, e, p);
  }

  lemma OutsiderRemembered(t: Tables, planned: seq<CanonicalEvent>, e: CanonicalEvent)
    requires Remembers(t, planned) && !IsConversation(e)
    ensures Remembers(t, planned + [e])
  {
    hide Recalls;
    forall o: nat
      ensures RecallsOrdinal(t, planned + [e], o)
    {
      assert RecallsOrdinal(t, planned, o);
      OutsiderRecalls(o in t.turnByOrdinal, if o in t.turnByOrdinal then t.turnByOrdinal[o] else "", planned, e,
          AtOrdinal(o), TurnId);
    }
    forall id
      ensures RecallsTurn(t, planned + [e], id) && RecallsStep(t, planned + [e], id)
    {
      assert RecallsTurn(t, planned, id) && RecallsStep(t, planned, id);
      OutsiderRecalls(id in t.ordinalByTurn, if id in t.ordinalByTurn then t.ordinalByTurn[id] else 0, planned, e,
          AtTurn(id), TurnOrdinal);
      OutsiderRecalls(id in t.stepCoordinates, if id in t.stepCoordinates then t.stepCoordinates[id] else ("", 0),
          planned, e, AtStep(id), StepPlace);
    }
    forall place
      ensures RecallsPlace(t, planned + [e], place)
    {
      assert RecallsPlace(t, planned, place);
      OutsiderRecalls(place in t.stepOrdinals, if place in t.stepOrdinals then t.stepOrdinals[place] else 0, planned, e,
          AtPlace(place), StepOrdinal);
    }
  }

  lemma OutsiderCall(s: Tools, planned: seq<CanonicalEvent>, e: CanonicalEvent, id: string)
    requires RemembersCall(s, planned, id) && !IsConversation(e)
    ensures RemembersCall(s, planned + [e], id)
  {
    hide FirstWith, AnsweredAfter;
    FirstMore(planned, e, Calls(id));
    var first := FirstWith(planned, Calls(id));
    if first.Some? {
      AnsweredMore(planned, e, first.value, id);
    }
  }

  lemma NothingRemembered()
    ensures Remembers(START.tables, []) && forall id :: RemembersCall(START.tools, [], id)
  {
  }

  /** The planned event stands where the planner enters it. */
  lemma EntersItself(s: Planner, e: CanonicalEvent)
    requires IsConversation(e)
    ensures var p, at := PlannedEvent(s, e), TopologyOf(Locate(s.course, s.tools, e), e);
            && TurnCoord(p) == at.turn && StepCoord(p) == at.step.value && PlaceIn(p) == PlaceFor(at)
            && IsConversation(p) && p.kind == e.kind && p.(topology := e.topology) == e
  {
    hide Locate;
  }

  lemma {:induction false} PlanRemembers(events: seq<CanonicalEvent>)
    ensures Remembers(PlanAll(events).tables, Planned(events))
    ensures forall id :: RemembersCall(PlanAll(events).tools, Planned(events), id)
  {
    hide Remembers, RemembersCall, Locate, TopologyOf, Track, Register, Conflicts, ToolIssues, PlannedEvent;
    if events == [] {
      NothingRemembered();
    } else {
      var init, e := events[..|events| - 1], Last(events);
      var s, p := PlanAll(init), PlannedEvent(PlanAll(init), Last(events));
      PlanRemembers(init);
      assert Planned(events) == Planned(init) + [p];
      if IsConversation(e) {
        EntersItself(s, e);
        TablesRemember(s.tables, Planned(init), p);
        TrackIgnoresTopology(s.tools, e, p, PlaceIn(p));
        forall id
          ensures RemembersCall(PlanAll(events).tools, Planned(events), id)
        {
          CallRemembered(s.tools, Planned(init), p, id);
        }
      } else {
        OutsidePlanned(s, e);
        OutsiderRemembered(s.tables, Planned(init), e);
        forall id
          ensures RemembersCall(PlanAll(events).tools, Planned(events), id)
        {
          OutsiderCall(s.tools, Planned(init), e, id);
        }
      }
    }
  }

  lemma OutsidePlanned(s: Planner, e: CanonicalEvent)
    requires !IsConversation(e)
    ensures PlannedEvent(s, e) == e && PlanNext(s, e) == s
  {
  }

  // ----- which code an event gets

  /** Before the event came the first one with that key, and it shows something else. */
  predicate Differs<V(==)>(planned: seq<CanonicalEvent>, p: CanonicalEvent -> bool, shows: CanonicalEvent -> V,
      value: V) {
    var first := FirstWith(planned, p);
    first.Some? && shows(planned[first.value]) != value
  }

  /** The call that a result answers: the first of its identifier, if no result answered it before. */
  predicate IsOpen(planned: seq<CanonicalEvent>, id: string) {
    var first := FirstWith(planned, Calls(id));
    first.Some? && !AnsweredAfter(planned, first.value, id)
  }

  predicate HasCode(planned: seq<CanonicalEvent>, e: CanonicalEvent, p: CanonicalEvent, code: Issue) {
    var id := StrictCallId(p);
    match code
    case PhaseMismatch => e.topology.Some? && Some(e.topology.value.phase) != PhaseOf(e.kind)
    case TurnConflict =>
      || Differs(planned, AtOrdinal(TurnCoord(p).ordinal), TurnId, TurnCoord(p).id)
      || Differs(planned, AtTurn(TurnCoord(p).id), TurnOrdinal, TurnCoord(p).ordinal)
    case StepConflict =>
      || Differs(planned, AtStep(StepCoord(p).id), StepPlace, StepPlace(p))
      || Differs(planned, AtPlace(PlaceIn(p)), StepOrdinal, StepCoord(p).ordinal)
      || (p.kind == ToolResult && id.Some? && IsOpen(planned, id.value)
          && PlaceIn(planned[FirstWith(planned, Calls(id.value)).value]) != PlaceIn(p))
    case MissingCallId => p.kind == ToolCall && id.None?
    case DuplicateCallId => p.kind == ToolCall && id.Some? && FirstWith(planned, Calls(id.value)).Some?
    case MissingResultId => p.kind == ToolResult && id.None?
    case OrphanResult => p.kind == ToolResult && id.Some? && !IsOpen(planned, id.value)
    case UnclosedCall => false
  }

  lemma ConflictCodes(t: Tables, planned: seq<CanonicalEvent>, p: CanonicalEvent)
    requires Remembers(t, planned)
    ensures var noted := Conflicts(t, TurnCoord(p), StepCoord(p));
            && (TurnConflict in noted <==>
                  Differs(planned, AtOrdinal(TurnCoord(p).ordinal), TurnId, TurnCoord(p).id)
                  || Differs(planned, AtTurn(TurnCoord(p).id), TurnOrdinal, TurnCoord(p).ordinal))
            && (StepConflict in noted <==>
                  Differs(planned, AtStep(StepCoord(p).id), StepPlace, StepPlace(p))
                  || Differs(planned, AtPlace(PlaceIn(p)), StepOrdinal, StepCoord(p).ordinal))
            && forall code :: code in noted ==> code == TurnConflict || code == StepConflict
  {
    hide FirstWith;
    assert RecallsOrdinal(t, planned, TurnCoord(p).ordinal) && RecallsTurn(t, planned, TurnCoord(p).id);
    assert RecallsStep(t, planned, StepCoord(p).id) && RecallsPlace(t, planned, PlaceIn(p));
  }

  lemma ToolCodes(s: Tools, planned: seq<CanonicalEvent>, p: CanonicalEvent)
    requires forall id :: RemembersCall(s, planned, id)
    ensures var noted, id := ToolIssues(s, p, PlaceIn(p)), StrictCallId(p);
            && (MissingCallId in noted <==> p.kind == ToolCall && id.None?)
            && (DuplicateCallId in noted <==>
                  p.kind == ToolCall && id.Some? && FirstWith(planned, Calls(id.value)).Some?)
            && (MissingResultId in noted <==> p.kind == ToolResult && id.None?)
            && (OrphanResult in noted <==> p.kind == ToolResult && id.Some? && !IsOpen(planned, id.value))
            && (StepConflict in noted <==>
                  p.kind == ToolResult && id.Some? && IsOpen(planned, id.value)
                  && PlaceIn(planned[FirstWith(planned, Calls(id.value)).value]) != PlaceIn(p))
            && PhaseMismatch !in noted && TurnConflict !in noted && UnclosedCall !in noted
  {
    hide FirstWith, AnsweredAfter;
    if StrictCallId(p).Some? {
      assert RemembersCall(s, planned, StrictCallId(p).value);
    }
  }

  /** The issues noted at an event. */
  function NotedAt(s: Planner, e: CanonicalEvent): seq<Issue> {
    if !IsConversation(e) then []
    else
      var at := TopologyOf(Locate(s.course, s.tools, e), e);
      IssueIf(WrongPhase(e), PhaseMismatch) + Conflicts(s.tables, at.turn, at.step.value)
      + ToolIssues(s.tools, e, PlaceFor(at))
  }

  /** Each defect of an event has its code, and no event has a code without the defect. */
  lemma CodesExactly(events: seq<CanonicalEvent>, e: CanonicalEvent, code: Issue)
    ensures PlanNext(PlanAll(events), e).issues == PlanAll(events).issues + NotedAt(PlanAll(events), e)
    ensures code in NotedAt(PlanAll(events), e)
            <==> IsConversation(e) && HasCode(Planned(events), e, PlannedEvent(PlanAll(events), e), code)
  {
    hide PlanAll, Planned, Locate, TopologyOf, Track, Register, Conflicts, ToolIssues, PlannedEvent, Differs, IsOpen,
        Remembers, RemembersCall, FirstWith;
    var s, p := PlanAll(events), PlannedEvent(PlanAll(events), e);
    if IsConversation(e) {
      PlanRemembers(events);
      EntersItself(s, e);
      TrackIgnoresTopology(s.tools, e, p, PlaceIn(p));
      ConflictCodes(s.tables, Planned(events), p);
      ToolCodes(s.tools, Planned(events), p);
    }
  }

  // ----- eligibility

  /** The i-th event of the history has the defect. */
  ghost predicate CodeAt(events: seq<CanonicalEvent>, i: nat, code: Issue) {
    && i < |events| && IsConversation(events[i])
    && HasCode(Planned(events)[..i], events[i], Planned(events)[i], code)
  }

  ghost predicate Flawless(events: seq<CanonicalEvent>, i: nat) {
    forall code :: !CodeAt(events, i, code)
  }

  ghost predicate NoCodes(events: seq<CanonicalEvent>) {
    forall i: nat :: i < |events| ==> Flawless(events, i)
  }

  lemma CodeAtPrefix(events: seq<CanonicalEvent>, n: nat, i: nat, code: Issue)
    requires i < n <= |events|
    ensures CodeAt(events[..n], i, code) <==> CodeAt(events, i, code)
  {
    hide HasCode, Planned;
    PlannedAt(events, n);
    assert Planned(events[..n])[..i] == Planned(events)[..i];
  }

  lemma {:induction false} NoIssuesExactly(events: seq<CanonicalEvent>)
    ensures PlanAll(events).issues == [] <==> NoCodes(events)
  {
    hide CodeAt, PlanNext;
    if events != [] {
      var init, e := events[..|events| - 1], Last(events);
      NoIssuesExactly(init);
      forall code
        ensures code in NotedAt(PlanAll(init), e) <==> CodeAt(events, |init|, code)
      {
        LastCode(events, code);
      }
      forall i: nat | i < |init|
        ensures Flawless(init, i) <==> Flawless(events, i)
      {
        forall code
          ensures CodeAt(init, i, code) <==> CodeAt(events, i, code)
        {
          CodeAtPrefix(events, |init|, i, code);
        }
      }
      CodesExactly(init, e, UnclosedCall);
      NoneNoted(NotedAt(PlanAll(init), e));
      assert NotedAt(PlanAll(init), e) == [] <==> Flawless(events, |init|);
      hide Flawless;
      assert NoCodes(events) <==> NoCodes(init) && Flawless(events, |init|);
    }
  }

  lemma NoneNoted(noted: seq<Issue>)
    ensures noted == [] <==> forall code :: code !in noted
  {
    if noted != [] {
      assert noted[0] in noted;
    }
  }

  lemma LastCode(events: seq<CanonicalEvent>, code: Issue)
    requires events != []
    ensures var init := events[..|events| - 1];
            code in NotedAt(PlanAll(init), Last(events)) <==> CodeAt(events, |init|, code)
  {
    hide HasCode, Planned, NotedAt, PlanNext, PlanAll;
    var init := events[..|events| - 1];
    PlannedAt(events, |init|);
    CodesExactly(init, Last(events), code);
  }

  ghost predicate PhasesRight(events: seq<CanonicalEvent>) {
    forall i :: 0 <= i < |events| && IsConversation(events[i]) && events[i].topology.Some? ==>
      Some(events[i].topology.value.phase) == PhaseOf(events[i].kind)
  }

  ghost predicate AgreeOn(a: CanonicalEvent, b: CanonicalEvent) {
    && (TurnCoord(a).id == TurnCoord(b).id <==> TurnCoord(a).ordinal == TurnCoord(b).ordinal)
    && (StepCoord(a).id == StepCoord(b).id ==>
          TurnCoord(a).id == TurnCoord(b).id && StepCoord(a).ordinal == StepCoord(b).ordinal)
  }

  /** Turn identities and ordinals determine each other, and a step identity its turn and its ordinal. */
  ghost predicate CoordinatesAgree(planned: seq<CanonicalEvent>) {
    forall i, j :: 0 <= i < j < |planned| && IsConversation(planned[i]) && IsConversation(planned[j])
        ==> AgreeOn(planned[i], planned[j])
  }

  ghost predicate CoordinatesFit(planned: seq<CanonicalEvent>, i: nat) {
    i < |planned| && IsConversation(planned[i]) ==>
      var before, p := planned[..i], planned[i];
      && !Differs(before, AtOrdinal(TurnCoord(p).ordinal), TurnId, TurnCoord(p).id)
      && !Differs(before, AtTurn(TurnCoord(p).id), TurnOrdinal, TurnCoord(p).ordinal)
      && !Differs(before, AtStep(StepCoord(p).id), StepPlace, StepPlace(p))
      && !Differs(before, AtPlace(PlaceIn(p)), StepOrdinal, StepCoord(p).ordinal)
  }

  /** The first event with a key, seen from any event with that key, is one and the same. */
  lemma FirstStays(planned: seq<CanonicalEvent>, p: CanonicalEvent -> bool, i: nat, n: nat)
    requires i < n <= |planned| && p(planned[i])
    ensures FirstWith(planned[..n], p).Some? && FirstWith(planned[..n], p).value <= i
    ensures FirstWith(planned[..i], p).Some? ==> FirstWith(planned[..n], p) == FirstWith(planned[..i], p)
    ensures FirstWith(planned[..i], p).None? ==> FirstWith(planned[..n], p) == Some(i)
  {
    var late, early := FirstWith(planned[..n], p), FirstWith(planned[..i], p);
    assert planned[..n][i] == planned[i];
    assert forall k :: 0 <= k < i ==> planned[..n][k] == planned[..i][k];
  }

  /** Where nothing differs from the first event with its key, any two events with one key show the same. */
  lemma SameShown<V>(planned: seq<CanonicalEvent>, p: CanonicalEvent -> bool, shows: CanonicalEvent -> V, i: nat,
      j: nat)
    requires i < j < |planned| && p(planned[i]) && p(planned[j])
    requires !Differs(planned[..i], p, shows, shows(planned[i])) && !Differs(planned[..j], p, shows, shows(planned[j]))
    ensures shows(planned[i]) == shows(planned[j])
  {
    hide FirstWith;
    FirstStays(planned, p, i, j);
    var f := FirstWith(planned[..j], p).value;
    if FirstWith(planned[..i], p).Some? {
      assert planned[..i][f] == planned[f] == planned[..j][f];
    } else {
      assert planned[..j][i] == planned[i];
    }
  }

  lemma FitAgrees(planned: seq<CanonicalEvent>, i: nat, j: nat)
    requires i < j < |planned| && IsConversation(planned[i]) && IsConversation(planned[j])
    requires CoordinatesFit(planned, i) && CoordinatesFit(planned, j)
    ensures AgreeOn(planned[i], planned[j])
  {
    hide Differs, FirstWith;
    var a, b := planned[i], planned[j];
    if TurnCoord(a).id == TurnCoord(b).id {
      SameShown(planned, AtTurn(TurnCoord(b).id), TurnOrdinal, i, j);
    }
    if TurnCoord(a).ordinal == TurnCoord(b).ordinal {
      SameShown(planned, AtOrdinal(TurnCoord(b).ordinal), TurnId, i, j);
    }
    if StepCoord(a).id == StepCoord(b).id {
      SameShown(planned, AtStep(StepCoord(b).id), StepPlace, i, j);
    }
  }

  lemma AgreeFits(planned: seq<CanonicalEvent>, j: nat)
    requires CoordinatesAgree(planned) && j < |planned|
    ensures CoordinatesFit(planned, j)
  {
    hide FirstWith;
    if IsConversation(planned[j]) {
      var p, before := planned[j], planned[..j];
      forall i | 0 <= i < j && IsConversation(before[i])
        ensures AgreeOn(before[i], p)
      {
        assert before[i] == planned[i];
      }
      FirstSound(before, AtOrdinal(TurnCoord(p).ordinal));
      FirstSound(before, AtTurn(TurnCoord(p).id));
      FirstSound(before, AtStep(StepCoord(p).id));
      FirstSound(before, AtPlace(PlaceIn(p)));
    }
  }

  lemma FirstSound(planned: seq<CanonicalEvent>, p: CanonicalEvent -> bool)
    ensures FirstWith(planned, p).Some?
            ==> FirstWith(planned, p).value < |planned| && p(planned[FirstWith(planned, p).value])
  {
  }

  lemma CoordinatesExactly(planned: seq<CanonicalEvent>)
    ensures (forall i: nat :: i < |planned| ==> CoordinatesFit(planned, i)) <==> CoordinatesAgree(planned)
  {
    hide CoordinatesFit, AgreeOn;
    if forall i: nat :: i < |planned| ==> CoordinatesFit(planned, i) {
      forall i, j | 0 <= i < j < |planned| && IsConversation(planned[i]) && IsConversation(planned[j])
        ensures AgreeOn(planned[i], planned[j])
      {
        FitAgrees(planned, i, j);
      }
    }
    if CoordinatesAgree(planned) {
      forall i: nat | i < |planned|
        ensures CoordinatesFit(planned, i)
      {
        AgreeFits(planned, i);
      }
    }
  }

  // ----- calls and results

  /** The j-th event is the result of the call at i: the same identifier, turn and step. */
  predicate ResultOf(planned: seq<CanonicalEvent>, i: nat, j: nat)
    requires i < |planned| && j < |planned|
  {
    && planned[i].kind == ToolCall && planned[j].kind == ToolResult
    && StrictCallId(planned[i]).Some? && StrictCallId(planned[i]) == StrictCallId(planned[j])
    && PlaceIn(planned[i]) == PlaceIn(planned[j])
  }

  /** Every call and every result has an identifier, which no other call, respectively result, carries. */
  ghost predicate CallsIdentified(planned: seq<CanonicalEvent>) {
    && (forall i :: 0 <= i < |planned| && IsTool(planned[i]) ==> StrictCallId(planned[i]).Some?)
    && forall i, j :: 0 <= i < j < |planned| && IsTool(planned[i]) && planned[i].kind == planned[j].kind
         ==> StrictCallId(planned[i]) != StrictCallId(planned[j])
  }

  ghost predicate IsAnswered(planned: seq<CanonicalEvent>, i: nat)
    requires i < |planned|
  {
    exists j :: i < j < |planned| && ResultOf(planned, i, j)
  }

  ghost predicate IsAnswering(planned: seq<CanonicalEvent>, j: nat)
    requires j < |planned|
  {
    exists i :: 0 <= i < j && ResultOf(planned, i, j)
  }

  /** Every call has its result later, in its turn and step, and every result is one of these. */
  ghost predicate CallsAnswered(planned: seq<CanonicalEvent>) {
    && (forall i :: 0 <= i < |planned| && planned[i].kind == ToolCall ==> IsAnswered(planned, i))
    && (forall j :: 0 <= j < |planned| && planned[j].kind == ToolResult ==> IsAnswering(planned, j))
  }

  /** No defect of calls and results at the event. */
  ghost predicate ToolFits(planned: seq<CanonicalEvent>, i: nat)
    requires i < |planned|
  {
    var before, p := planned[..i], planned[i];
    var id := StrictCallId(p);
    && (p.kind == ToolCall ==> id.Some? && FirstWith(before, Calls(id.value)).None?)
    && (p.kind == ToolResult ==>
          && id.Some? && IsOpen(before, id.value)
          && PlaceIn(before[FirstWith(before, Calls(id.value)).value]) == PlaceIn(p))
  }

  lemma FirstIsOnly(planned: seq<CanonicalEvent>, i: nat, n: nat, id: string)
    requires i < n <= |planned| && Calls(id)(planned[i]) && CallsIdentified(planned)
    ensures FirstWith(planned[..n], Calls(id)) == Some(i)
  {
    hide FirstWith;
    FirstStays(planned, Calls(id), i, n);
    var f := FirstWith(planned[..n], Calls(id)).value;
    assert planned[..n][f] == planned[f];
  }

  lemma FitsWhenAnswered(planned: seq<CanonicalEvent>, i: nat)
    requires CallsIdentified(planned) && CallsAnswered(planned) && i < |planned|
    ensures ToolFits(planned, i)
  {
    hide FirstWith;
    var before, p := planned[..i], planned[i];
    assert forall k :: 0 <= k < i ==> before[k] == planned[k];
    if p.kind == ToolResult {
      assert IsAnswering(planned, i);
      var c :| 0 <= c < i && ResultOf(planned, c, i);
      FirstIsOnly(planned, c, i, StrictCallId(p).value);
    }
  }

  lemma IdentifiedWhenFits(planned: seq<CanonicalEvent>)
    requires forall i: nat :: i < |planned| ==> ToolFits(planned, i)
    ensures CallsIdentified(planned)
  {
    hide FirstWith;
    forall i, j | 0 <= i < j < |planned| && IsTool(planned[i]) && planned[i].kind == planned[j].kind
      ensures StrictCallId(planned[i]) != StrictCallId(planned[j])
    {
      assert ToolFits(planned, i) && ToolFits(planned, j);
      var id := StrictCallId(planned[i]).value;
      if StrictCallId(planned[i]) == StrictCallId(planned[j]) {
        if planned[i].kind == ToolCall {
          FirstStays(planned, Calls(id), i, j);
        } else {
          TwiceAnswered(planned, i, j, id);
        }
      }
    }
    forall i | 0 <= i < |planned| && IsTool(planned[i])
      ensures StrictCallId(planned[i]).Some?
    {
      assert ToolFits(planned, i);
    }
  }

  lemma TwiceAnswered(planned: seq<CanonicalEvent>, i: nat, j: nat, id: string)
    requires i < j < |planned| && Answers(planned[i], id) && IsOpen(planned[..i], id)
    ensures !IsOpen(planned[..j], id)
  {
    hide FirstWith;
    var f := FirstWith(planned[..i], Calls(id)).value;
    assert planned[..i][f] == planned[f];
    FirstStays(planned, Calls(id), f, i);
    FirstStays(planned, Calls(id), f, j);
    assert planned[..j][i] == planned[i];
  }

  lemma AnsweringWhenFits(planned: seq<CanonicalEvent>, j: nat)
    requires j < |planned| && ToolFits(planned, j) && planned[j].kind == ToolResult
    ensures IsAnswering(planned, j)
  {
    hide FirstWith;
    var c := FirstWith(planned[..j], Calls(StrictCallId(planned[j]).value)).value;
    assert planned[..j][c] == planned[c];
    assert ResultOf(planned, c, j);
  }

  /** Open calls are the ones without a result. */
  lemma AnsweredWhenClosed(planned: seq<CanonicalEvent>, i: nat)
    requires i < |planned| && planned[i].kind == ToolCall
    requires forall k: nat :: k < |planned| ==> ToolFits(planned, k)
    requires forall id :: !IsOpen(planned, id)
    ensures IsAnswered(planned, i)
  {
    hide FirstWith;
    IdentifiedWhenFits(planned);
    var id := StrictCallId(planned[i]).value;
    assert planned[..|planned|] == planned;
    FirstIsOnly(planned, i, |planned|, id);
    assert !IsOpen(planned, id);
    var j :| i < j < |planned| && Answers(planned[j], id);
    assert ToolFits(planned, j);
    FirstIsOnly(planned, i, j, id);
    assert planned[..j][i] == planned[i];
    assert ResultOf(planned, i, j);
  }

  lemma ClosedWhenAnswered(planned: seq<CanonicalEvent>, id: string)
    requires CallsIdentified(planned) && CallsAnswered(planned)
    ensures !IsOpen(planned, id)
  {
    hide FirstWith;
    var first := FirstWith(planned, Calls(id));
    if first.Some? {
      assert IsAnswered(planned, first.value);
      var j :| first.value < j < |planned| && ResultOf(planned, first.value, j);
      assert Answers(planned[j], id);
    }
  }

  lemma ToolsExactly(planned: seq<CanonicalEvent>)
    ensures (forall i: nat :: i < |planned| ==> ToolFits(planned, i)) && (forall id :: !IsOpen(planned, id))
            <==> CallsIdentified(planned) && CallsAnswered(planned)
  {
    hide ToolFits, IsOpen, IsAnswered, IsAnswering;
    if (forall i: nat :: i < |planned| ==> ToolFits(planned, i)) && (forall id :: !IsOpen(planned, id)) {
      IdentifiedWhenFits(planned);
      forall i | 0 <= i < |planned| && planned[i].kind == ToolCall
        ensures IsAnswered(planned, i)
      {
        AnsweredWhenClosed(planned, i);
      }
      forall j | 0 <= j < |planned| && planned[j].kind == ToolResult
        ensures IsAnswering(planned, j)
      {
        AnsweringWhenFits(planned, j);
      }
    }
    if CallsIdentified(planned) && CallsAnswered(planned) {
      forall i: nat | i < |planned|
        ensures ToolFits(planned, i)
      {
        FitsWhenAnswered(planned, i);
      }
      forall id
        ensures !IsOpen(planned, id)
      {
        ClosedWhenAnswered(planned, id);
      }
    }
  }

  // ----- the whole

  ghost predicate PhaseFits(e: CanonicalEvent) {
    IsConversation(e) && e.topology.Some? ==> Some(e.topology.value.phase) == PhaseOf(e.kind)
  }

  lemma NoCodesAt(events: seq<CanonicalEvent>, i: nat)
    requires i < |events|
    ensures Flawless(events, i)
            <==> PhaseFits(events[i]) && CoordinatesFit(Planned(events), i) && ToolFits(Planned(events), i)
  {
    hide Planned, FirstWith, Differs, IsOpen;
    PlanningKeepsEvents(events, i);
    if IsConversation(events[i]) {
      forall code
        ensures CodeAt(events, i, code) <==> HasCode(Planned(events)[..i], events[i], Planned(events)[i], code)
      {
      }
      EachCode(Planned(events), events[i], i);
    }
  }

  lemma EachCode(planned: seq<CanonicalEvent>, e: CanonicalEvent, i: nat)
    requires i < |planned| && IsConversation(planned[i]) && IsConversation(e)
    ensures (forall code :: !HasCode(planned[..i], e, planned[i], code))
            <==> PhaseFits(e) && CoordinatesFit(planned, i) && ToolFits(planned, i)
  {
    hide FirstWith, Differs, IsOpen;
    var before, p := planned[..i], planned[i];
    if forall code :: !HasCode(before, e, p, code) {
      assert !HasCode(before, e, p, PhaseMismatch) && !HasCode(before, e, p, TurnConflict)
          && !HasCode(before, e, p, StepConflict) && !HasCode(before, e, p, MissingCallId)
          && !HasCode(before, e, p, DuplicateCallId) && !HasCode(before, e, p, MissingResultId)
          && !HasCode(before, e, p, OrphanResult);
    }
  }

  lemma PendingExactly(events: seq<CanonicalEvent>)
    ensures PlanAll(events).tools.pending == map[] <==> forall id :: !IsOpen(Planned(events), id)
  {
    hide PlanAll, Planned, FirstWith;
    PlanRemembers(events);
    var pending := PlanAll(events).tools.pending;
    forall id
      ensures id in pending <==> IsOpen(Planned(events), id)
    {
      assert RemembersCall(PlanAll(events).tools, Planned(events), id);
    }
    if pending != map[] {
      var id :| id in pending;
      assert IsOpen(Planned(events), id);
    }
  }

  /**
   * A history is eligible exactly when the phases brought are those of the kinds, planned coordinates agree, calls and
   * results are identified, and every call is answered later in its turn and step.
   */
  lemma EligibleExactly(events: seq<CanonicalEvent>)
    ensures Eligible(events)
            <==> PhasesRight(events) && CoordinatesAgree(Planned(events)) && CallsIdentified(Planned(events))
                 && CallsAnswered(Planned(events))
  {
    hide PlanAll, Planned, Flawless, CoordinatesFit, ToolFits, IsOpen, PhaseFits, CoordinatesAgree, CallsIdentified,
        CallsAnswered;
    NoIssuesExactly(events);
    PendingExactly(events);
    CoordinatesExactly(Planned(events));
    ToolsExactly(Planned(events));
    forall i: nat | i < |events|
      ensures Flawless(events, i)
              <==> PhaseFits(events[i]) && CoordinatesFit(Planned(events), i) && ToolFits(Planned(events), i)
    {
      NoCodesAt(events, i);
    }
    PhasesFit(events);
    if NoCodes(events) {
      assert forall i: nat :: i < |events| ==>
          PhaseFits(events[i]) && CoordinatesFit(Planned(events), i) && ToolFits(Planned(events), i);
    }
  }

  lemma PhasesFit(events: seq<CanonicalEvent>)
    ensures PhasesRight(events) <==> forall i: nat :: i < |events| ==> PhaseFits(events[i])
  {
  }

  /** A call is reported open exactly when it is the first of its identifier and no result follows. */
  lemma UnclosedExactly(events: seq<CanonicalEvent>, id: string)
    ensures id in PlanAll(events).tools.pending <==> IsOpen(Planned(events), id)
    ensures (exists c :: c in OpenCallsOf(events) && c.callId == id) <==> IsOpen(Planned(events), id)
  {
    hide PlanAll, Planned, FirstWith, OpenCallsOf;
    PlanRemembers(events);
    assert RemembersCall(PlanAll(events).tools, Planned(events), id);
    OpenCallsListed(events);
    var open := OpenCallsOf(events);
    if id in PlanAll(events).tools.pending {
      var k :| 0 <= k < |open| && open[k].callId == id;
      assert open[k] in open;
    }
  }
}
