/**
 * The topology planner: it gives conversation events their turn and step, follows tool calls to their results, and
 * lists what keeps the conversation from being continued.
 */
module TopologyPlanner {
  import opened Outcomes
  import opened Text
  import opened Sequences
  import opened Canonical

  datatype Cursor = Cursor(turn: Coord, step: Coord)

  datatype Issue =
    | PhaseMismatch
    | TurnConflict
    | StepConflict
    | MissingCallId
    | MissingResultId
    | DuplicateCallId
    | OrphanResult
    | UnclosedCall

  /** Turn and step of a call that waits for its result. */
  type Place = (string, string)

  /** Where the planner stands: the step being filled, the next turn number, and whether model work opens a new step. */
  datatype Course = Course(cursor: Option<Cursor>, nextTurn: nat, advance: bool)

  /** Coordinates entered so far. */
  datatype Tables = Tables(
    turnByOrdinal: map<nat, string>,
    ordinalByTurn: map<string, nat>,
    stepCoordinates: map<string, (string, nat)>,
    stepOrdinals: map<Place, nat>)

  /** Calls seen, calls waiting for a result, how many wait in each step, and the steps with model work. */
  datatype Tools = Tools(pending: map<string, Place>, waiting: map<Place, nat>, worked: set<Place>, seen: set<string>)

  datatype Planner = Planner(course: Course, tables: Tables, tools: Tools, issues: seq<Issue>)

  const START :=
      Planner(Course(None, 0, false), Tables.Tables(map[], map[], map[], map[]), Tools.Tools(map[], map[], {}, {}), [])

  function StepId(turnId: string, ordinal: nat): string {
    turnId + ":step:" + Digits(ordinal)
  }

  function OpenTurn(turn: Coord): Cursor {
    Cursor(turn, Coord(StepId(turn.id, 0), 0))
  }

  function NextStep(c: Cursor): Cursor {
    c.(step := Coord(StepId(c.turn.id, c.step.ordinal + 1), c.step.ordinal + 1))
  }

  function PlaceOf(c: Cursor): Place {
    (c.turn.id, c.step.id)
  }

  /** The phases that do model work; a tool result does not. */
  predicate WorksModel(e: CanonicalEvent) {
    e.kind == Reasoning || e.kind == AssistantMessage || e.kind == ToolCall
  }

  function Max(a: nat, b: nat): nat {
    if a < b then b else a
  }

  predicate HasExplicitStep(e: CanonicalEvent) {
    e.topology.Some? && e.topology.value.step.Some?
  }

  /**
   * Where an event goes: its own coordinates if it has both, else those of the cursor, moved on as the phase requires.
   */
  function Locate(c: Course, tools: Tools, e: CanonicalEvent): (r: Course)
    ensures r.cursor.Some?
  {
    match e.topology
    case Some(t) =>
      var next := Max(c.nextTurn, t.turn.ordinal + 1);
      if t.step.Some? then Course(Some(Cursor(t.turn, t.step.value)), next, false)
      else if c.cursor.None? || c.cursor.value.turn.id != t.turn.id then Course(Some(OpenTurn(t.turn)), next, false)
      else if IsUser(e) && PlaceOf(c.cursor.value) in tools.worked && PlaceOf(c.cursor.value) !in tools.waiting
      then Course(Some(NextStep(c.cursor.value)), next, false)
      else if c.advance && WorksModel(e) then Course(Some(NextStep(c.cursor.value)), next, false)
      else c.(nextTurn := next)
    case None =>
      if IsUser(e)
          || c.cursor.None? then Course(Some(OpenTurn(Coord("mcsf-turn:" + e.id, c.nextTurn))), c.nextTurn + 1, false)
      else if c.advance && WorksModel(e) then Course(Some(NextStep(c.cursor.value)), c.nextTurn, false)
      else c
  }

  /** The topology written on an event; a turn given by the event keeps its own ordinal and phase. */
  function TopologyOf(c: Course, e: CanonicalEvent): (r: Topology)
    requires c.cursor.Some? && PhaseOf(e.kind).Some?
    ensures r.step.Some?
  {
    match e.topology
    case Some(t) => t.(step := Some(if t.step.Some? then t.step.value else c.cursor.value.step))
    case None => Topology(c.cursor.value.turn, Some(c.cursor.value.step), PhaseOf(e.kind).value)
  }

  function IssueIf(failed: bool, issue: Issue): seq<Issue> {
    if failed then [issue] else []
  }

  predicate WrongPhase(e: CanonicalEvent) {
    e.topology.Some? && Some(e.topology.value.phase) != PhaseOf(e.kind)
  }

  /** Each table keeps what it was first told. */
  function Register(t: Tables, turn: Coord, step: Coord): Tables {
    Tables.Tables(
      if turn.ordinal in t.turnByOrdinal then t.turnByOrdinal else t.turnByOrdinal[turn.ordinal := turn.id],
      if turn.id in t.ordinalByTurn then t.ordinalByTurn else t.ordinalByTurn[turn.id := turn.ordinal],
      if step.id in t.stepCoordinates then t.stepCoordinates else t.stepCoordinates[step.id := (turn.id, step.ordinal)],
      if (turn.id, step.id) in t.stepOrdinals then t.stepOrdinals
          else t.stepOrdinals[(turn.id, step.id) := step.ordinal])
  }

  /** Coordinates that contradict the tables. */
  function Conflicts(t: Tables, turn: Coord, step: Coord): seq<Issue> {
    IssueIf(turn.ordinal in t.turnByOrdinal && t.turnByOrdinal[turn.ordinal] != turn.id, TurnConflict)
    + IssueIf(turn.id in t.ordinalByTurn && t.ordinalByTurn[turn.id] != turn.ordinal, TurnConflict)
    + IssueIf(step.id in t.stepCoordinates && t.stepCoordinates[step.id] != (turn.id, step.ordinal), StepConflict)
    + IssueIf((turn.id, step.id) in t.stepOrdinals && t.stepOrdinals[(turn.id, step.id)] != step.ordinal, StepConflict)
  }

  predicate OpensCall(tools: Tools, e: CanonicalEvent) {
    e.kind == ToolCall && StrictCallId(e).Some? && StrictCallId(e).value !in tools.seen
  }

  predicate AnswersCall(tools: Tools, e: CanonicalEvent) {
    e.kind == ToolResult && StrictCallId(e).Some? && StrictCallId(e).value in tools.pending
  }

  function Remaining(tools: Tools, place: Place): int {
    (if place in tools.waiting then tools.waiting[place] as int else 1) - 1
  }

  function Track(tools: Tools, e: CanonicalEvent, place: Place): Tools {
    var worked := if WorksModel(e) then tools.worked + {place} else tools.worked;
    if OpensCall(tools, e) then
      var id := StrictCallId(e).value;
      Tools.Tools(tools.pending[id := place],
                  tools.waiting[place := (if place in tools.waiting then tools.waiting[place] else 0) + 1],
                  worked, tools.seen + {id})
    else if AnswersCall(tools, e) then
      var id := StrictCallId(e).value;
      var call := tools.pending[id];
      var remaining := Remaining(tools, call);
      Tools.Tools(tools.pending - {id}, if remaining <= 0 then tools.waiting - {call}
          else tools.waiting[call := remaining], worked, tools.seen)
    else tools.(worked := worked)
  }

  function ToolIssues(tools: Tools, e: CanonicalEvent, place: Place): seq<Issue> {
    if e.kind == ToolCall then
      IssueIf(StrictCallId(e).None?, MissingCallId)
      + IssueIf(StrictCallId(e).Some? && StrictCallId(e).value in tools.seen, DuplicateCallId)
    else if e.kind == ToolResult then
      IssueIf(StrictCallId(e).None?, MissingResultId)
      + IssueIf(StrictCallId(e).Some? && StrictCallId(e).value !in tools.pending, OrphanResult)
      + IssueIf(AnswersCall(tools, e) && tools.pending[StrictCallId(e).value] != place, StepConflict)
    else []
  }

  /** The last open call of its step has been answered there. */
  predicate CompletesStep(tools: Tools, e: CanonicalEvent, place: Place) {
    AnswersCall(tools, e) && tools.pending[StrictCallId(e).value] == place && Remaining(tools, place) == 0
  }

  /** A conversation event gets its planned topology; the others stay as they are. */
  function PlannedEvent(s: Planner, e: CanonicalEvent): CanonicalEvent {
    if IsConversation(e) then e.(topology := Some(TopologyOf(Locate(s.course, s.tools, e), e))) else e
  }

  function PlaceFor(topology: Topology): Place
    requires topology.step.Some?
  {
    (topology.turn.id, topology.step.value.id)
  }

  /** One event of the input. */
  function PlanNext(s: Planner, e: CanonicalEvent): Planner {
    if !IsConversation(e) then s
    else
      var course := Locate(s.course, s.tools, e);
      var topology := TopologyOf(course, e);
      var place := PlaceFor(topology);
      Planner(course.(advance := course.advance || CompletesStep(s.tools, e, place)),
              Register(s.tables, topology.turn, topology.step.value),
              Track(s.tools, e, place),
              s.issues + (IssueIf(WrongPhase(e), PhaseMismatch)
                  + Conflicts(s.tables, topology.turn, topology.step.value) + ToolIssues(s.tools, e, place)))
  }

  function PlanAll(events: seq<CanonicalEvent>): Planner {
    if events == [] then START else PlanNext(PlanAll(events[..|events| - 1]), Last(events))
  }

  /** The events with their planned topology. */
  function Planned(events: seq<CanonicalEvent>): (r: seq<CanonicalEvent>)
    ensures |r| == |events|
  {
    if events == [] then []
    else Planned(events[..|events| - 1]) + [PlannedEvent(PlanAll(events[..|events| - 1]), Last(events))]
  }

  /** Nothing keeps the conversation from being continued: no issue was noted and no call is left open. */
  predicate Eligible(events: seq<CanonicalEvent>) {
    PlanAll(events).issues == [] && PlanAll(events).tools.pending == map[]
  }

  lemma {:induction false} PlannedAt(events: seq<CanonicalEvent>, n: nat)
    requires n <= |events|
    ensures Planned(events)[..n] == Planned(events[..n])
    ensures n < |events| ==> Planned(events)[n] == PlannedEvent(PlanAll(events[..n]), events[n])
  {
    hide PlanAll, PlannedEvent;
    if n < |events| {
      var init := events[..|events| - 1];
      assert Planned(events)[..|init|] == Planned(init);
      if n < |init| {
        PlannedAt(init, n);
        assert init[..n] == events[..n] && init[n] == events[n];
        assert Planned(events)[..n] == Planned(init)[..n];
      } else {
        assert Planned(events)[..n] == Planned(init);
      }
    } else {
      assert events[..n] == events;
    }
  }

  // ----- writing the plan on the events

  /** The planned topologies by event identity; for a repeated identity the last one counts. */
  function TopologyById(events: seq<CanonicalEvent>): map<string, Topology> {
    if events == [] then map[]
    else
      var init, e := events[..|events| - 1], Last(events);
      var planned := PlannedEvent(PlanAll(init), e);
      if IsConversation(e)
          && planned.topology.Some? then TopologyById(init)[e.id := planned.topology.value] else TopologyById(init)
  }

  function Labelled(table: map<string, Topology>, e: CanonicalEvent): CanonicalEvent {
    if e.id in table then e.(topology := Some(table[e.id])) else e
  }

  /** The events as the planner returns them: each with the topology planned for its identity. */
  function Applied(events: seq<CanonicalEvent>): (r: seq<CanonicalEvent>)
    ensures |r| == |events|
  {
    var table := TopologyById(events);
    seq(|events|, i requires 0 <= i < |events| => Labelled(table, events[i]))
  }

  // ----- the listing and the diagnostics of a plan

  datatype ListedStep = ListedStep(id: string, ordinal: nat, eventIds: seq<string>)

  datatype ListedTurn = ListedTurn(id: string, ordinal: nat, eventIds: seq<string>, steps: seq<ListedStep>)

  function StepIndex(steps: seq<ListedStep>, id: string): (r: Option<nat>)
    ensures r.Some? ==> r.value < |steps| && steps[r.value].id == id
    ensures r.None? ==> forall k :: 0 <= k < |steps| ==> steps[k].id != id
  {
    if steps == [] then None else if Last(steps).id == id then Some(|steps| - 1)
        else StepIndex(steps[..|steps| - 1], id)
  }

  function TurnIndex(turns: seq<ListedTurn>, id: string): (r: Option<nat>)
    ensures r.Some? ==> r.value < |turns| && turns[r.value].id == id
    ensures r.None? ==> forall k :: 0 <= k < |turns| ==> turns[k].id != id
  {
    if turns == [] then None else if Last(turns).id == id then Some(|turns| - 1)
        else TurnIndex(turns[..|turns| - 1], id)
  }

  function ListStep(steps: seq<ListedStep>, step: Coord, eventId: string): seq<ListedStep> {
    match StepIndex(steps, step.id)
    case None => steps + [ListedStep(step.id, step.ordinal, [eventId])]
    case Some(k) => steps[k := steps[k].(eventIds := steps[k].eventIds + [eventId])]
  }

  function ListTurn(turns: seq<ListedTurn>, turn: Coord, step: Coord, eventId: string): seq<ListedTurn> {
    match TurnIndex(turns, turn.id)
    case None => turns + [ListedTurn(turn.id, turn.ordinal, [eventId], ListStep([], step, eventId))]
    case Some(k) =>
        turns[k := turns[k].(eventIds := turns[k].eventIds + [eventId],
        steps := ListStep(turns[k].steps, step, eventId))]
  }

  /** The turns and steps of a plan in the order in which they were first met. */
  function ListingOf(events: seq<CanonicalEvent>): seq<ListedTurn> {
    if events == [] then []
    else
      var init, e := events[..|events| - 1], Last(events);
      if !IsConversation(e) then ListingOf(init)
      else
        var topology := TopologyOf(Locate(PlanAll(init).course, PlanAll(init).tools, e), e);
        ListTurn(ListingOf(init), topology.turn, topology.step.value, e.id)
  }

  /** An event of the plan, with the topology planned for it. */
  datatype PlannedEntry = PlannedEntry(eventId: string, sequence: int, kind: EventKind, topology: Topology)

  function EntriesOf(events: seq<CanonicalEvent>): seq<PlannedEntry> {
    if events == [] then []
    else
      var init, e := events[..|events| - 1], Last(events);
      if !IsConversation(e) then EntriesOf(init)
      else
        EntriesOf(init)
        + [PlannedEntry(e.id, e.sequence, e.kind, TopologyOf(Locate(PlanAll(init).course, PlanAll(init).tools, e), e))]
  }

  // ----- why a plan is blocked

  /** An issue with the events and the call it is about. */
  datatype Reason = Reason(code: Issue, eventIds: seq<string>, callId: Option<string>)

  /** A call that waits, in the order of the table of calls. */
  datatype OpenCall = OpenCall(callId: string, eventId: string)

  function Without(open: seq<OpenCall>, callId: string): (r: seq<OpenCall>)
    ensures |r| <= |open|
  {
    if open == [] then []
    else
      var rest := Without(open[..|open| - 1], callId);
      if Last(open).callId == callId then rest else rest + [Last(open)]
  }

  function OpenNext(tools: Tools, open: seq<OpenCall>, e: CanonicalEvent): seq<OpenCall> {
    if OpensCall(tools, e) then open + [OpenCall(StrictCallId(e).value, e.id)]
    else if AnswersCall(tools, e) then Without(open, StrictCallId(e).value)
    else open
  }

  function OpenCallsOf(events: seq<CanonicalEvent>): seq<OpenCall> {
    if events == [] then []
    else OpenNext(PlanAll(events[..|events| - 1]).tools, OpenCallsOf(events[..|events| - 1]), Last(events))
  }

  function Named(issues: seq<Issue>, eventIds: seq<string>, callId: Option<string>): (r: seq<Reason>)
    ensures |r| == |issues|
    ensures forall k :: 0 <= k < |r| ==> r[k] == Reason(issues[k], eventIds, callId)
  {
    seq(|issues|, k requires 0 <= k < |issues| => Reason(issues[k], eventIds, callId))
  }

  /** The events of the calls that wait under an identifier. */
  function CallEvents(open: seq<OpenCall>, callId: string): seq<string> {
    if open == [] then []
    else
      CallEvents(open[..|open| - 1], callId) + if Last(open).callId == callId then [Last(open).eventId] else []
  }

  /** What one event is blamed for; a result away from its call is blamed together with it. */
  function ReasonsNext(s: Planner, open: seq<OpenCall>, e: CanonicalEvent): seq<Reason> {
    if !IsConversation(e) then []
    else
      var at := TopologyOf(Locate(s.course, s.tools, e), e);
      var misplaced := AnswersCall(s.tools, e) && s.tools.pending[StrictCallId(e).value] != PlaceFor(at);
      Named(IssueIf(WrongPhase(e), PhaseMismatch) + Conflicts(s.tables, at.turn, at.step.value), [e.id], None)
      + Named(ToolIssues(s.tools, e, PlaceFor(at)),
              (if misplaced then CallEvents(open, StrictCallId(e).value) else []) + [e.id], StrictCallId(e))
  }

  function NotedReasons(events: seq<CanonicalEvent>): seq<Reason> {
    if events == [] then []
    else
      var init := events[..|events| - 1];
      NotedReasons(init) + ReasonsNext(PlanAll(init), OpenCallsOf(init), Last(events))
  }

  function Unclosed(call: OpenCall): Reason {
    Reason(UnclosedCall, [call.eventId], Some(call.callId))
  }

  /** Everything noted on the way, then the calls left open. */
  function ReasonsOf(events: seq<CanonicalEvent>): seq<Reason> {
    NotedReasons(events) + Map(OpenCallsOf(events), Unclosed)
  }

  // ----- the diagnostics

  datatype Counts = Counts(conversational: nat, calls: nat, nameless: nat, matched: nat, orphans: nat, conflicts: nat)

  function CountOne(s: Planner, before: Counts, e: CanonicalEvent): Counts {
    if !IsConversation(e) then before
    else
      var topology := TopologyOf(Locate(s.course, s.tools, e), e);
      var misplaced := AnswersCall(s.tools, e) && s.tools.pending[StrictCallId(e).value] != PlaceFor(topology);
      Counts(before.conversational + 1,
             before.calls + (if e.kind == ToolCall then 1 else 0),
             before.nameless + (if e.kind == ToolCall && StrictCallId(e).None? then 1 else 0),
             before.matched + (if AnswersCall(s.tools, e) then 1 else 0),
             before.orphans + (if e.kind == ToolResult && !AnswersCall(s.tools, e) then 1 else 0),
             before.conflicts + (if WrongPhase(e) then 1 else 0)
             + |Conflicts(s.tables, topology.turn, topology.step.value)| + (if misplaced then 1 else 0))
  }

  function CountsOf(events: seq<CanonicalEvent>): Counts {
    if events == [] then Counts(0, 0, 0, 0, 0, 0)
    else CountOne(PlanAll(events[..|events| - 1]), CountsOf(events[..|events| - 1]), Last(events))
  }

  datatype Diagnostics = Diagnostics(
    inputEvents: nat,
    conversational: nat,
    unassigned: int,
    turns: nat,
    steps: nat,
    calls: nat,
    matched: nat,
    orphans: nat,
    unclosed: nat,
    conflicts: nat)

  function StepsIn(turns: seq<ListedTurn>): nat {
    if turns == [] then 0 else StepsIn(turns[..|turns| - 1]) + |Last(turns).steps|
  }

  function DiagnosticsOf(events: seq<CanonicalEvent>): Diagnostics {
    var turns, counts := ListingOf(events), CountsOf(events);
    Diagnostics(|events|, counts.conversational, |events| - counts.conversational, |turns|, StepsIn(turns),
                counts.calls, counts.matched, counts.orphans, |PlanAll(events).tools.pending| + counts.nameless,
                    counts.conflicts)
  }

  /** The conversation can be continued exactly when there is no reason against it. */
  datatype Plan = Plan(entries: seq<PlannedEntry>, turns: seq<ListedTurn>, reasons: seq<Reason>,
      diagnostics: Diagnostics)

  method WithPlannedConversationTopology(events: seq<CanonicalEvent>) returns (planned: seq<CanonicalEvent>, plan: Plan)
    ensures planned == Applied(events)
    ensures plan == Plan(EntriesOf(events), ListingOf(events), ReasonsOf(events), DiagnosticsOf(events))
  {
    hide PlanNext, Locate, TopologyOf, CountOne, ListTurn, ReasonsNext, OpenNext;
    var table: map<string, Topology> := map[];
    var entries: seq<PlannedEntry> := [];
    var turns: seq<ListedTurn> := [];
    var reasons: seq<Reason> := [];
    var open: seq<OpenCall> := [];
    var counts := Counts(0, 0, 0, 0, 0, 0);
    var s := START;
    for i := 0 to |events|
      invariant s == PlanAll(events[..i]) && table == TopologyById(events[..i])
      invariant turns == ListingOf(events[..i]) && counts == CountsOf(events[..i])
      invariant entries == EntriesOf(events[..i])
      invariant reasons == NotedReasons(events[..i]) && open == OpenCallsOf(events[..i])
    {
      assert events[..i + 1][..i] == events[..i] && Last(events[..i + 1]) == events[i];
      var event := events[i];
      counts := CountOne(s, counts, event);
      reasons := reasons + ReasonsNext(s, open, event);
      open := OpenNext(s.tools, open, event);
      if IsConversation(event) {
        var topology := TopologyOf(Locate(s.course, s.tools, event), event);
        table := table[event.id := topology];
        turns := ListTurn(turns, topology.turn, topology.step.value, event.id);
        entries := entries + [PlannedEntry(event.id, event.sequence, event.kind, topology)];
      }
      s := PlanNext(s, event);
    }
    assert events[..|events|] == events;
    var steps := 0;
    for k := 0 to |turns|
      invariant steps == StepsIn(turns[..k])
    {
      assert turns[..k + 1][..k] == turns[..k];
      steps := steps + |turns[k].steps|;
    }
    assert turns[..|turns|] == turns;
    plan := Plan(entries, turns, reasons + Map(open, Unclosed),
                 Diagnostics(|events|, counts.conversational, |events| - counts.conversational, |turns|, steps,
                             counts.calls, counts.matched, counts.orphans, |s.tools.pending| + counts.nameless,
                                 counts.conflicts));
    planned := [];
    for i := 0 to |events|
      invariant planned == Applied(events)[..i]
    {
      planned := planned + [Labelled(table, events[i])];
    }
  }

  lemma {:induction false} TableIds(events: seq<CanonicalEvent>, id: string)
    requires id in TopologyById(events)
    ensures exists i :: 0 <= i < |events| && events[i].id == id && IsConversation(events[i])
  {
    var init, e := events[..|events| - 1], Last(events);
    if id == e.id && IsConversation(e) {
      assert events[|events| - 1].id == id;
    } else {
      TableIds(init, id);
      var i :| 0 <= i < |init| && init[i].id == id && IsConversation(init[i]);
      assert events[i] == init[i];
    }
  }

  lemma {:induction false} TableAt(events: seq<CanonicalEvent>, i: nat)
    requires DistinctIds(events) && i < |events|
    ensures Labelled(TopologyById(events), events[i]) == Planned(events)[i]
  {
    hide PlanAll, Locate;
    var init, e := events[..|events| - 1], Last(events);
    if i < |init| {
      TableAt(init, i);
      assert events[i] == init[i] && events[i].id != e.id;
    } else if !IsConversation(e) && e.id in TopologyById(init) {
      TableIds(init, e.id);
    }
  }

  /** With distinct identities every event gets the topology planned at its own place. */
  lemma AppliedIsPlanned(events: seq<CanonicalEvent>)
    requires DistinctIds(events)
    ensures Applied(events) == Planned(events)
  {
    hide Planned, TopologyById, Labelled;
    forall i | 0 <= i < |events|
      ensures Applied(events)[i] == Planned(events)[i]
    {
      TableAt(events, i);
    }
  }

  /** Identities, order, kinds and contents stay in any case. */
  lemma ApplyingKeepsEvents(events: seq<CanonicalEvent>, i: nat)
    requires i < |events|
    ensures Applied(events)[i].(topology := events[i].topology) == events[i]
    ensures IsConversation(events[i]) ==> Applied(events)[i].topology.Some?
  {
    hide TopologyById;
    if IsConversation(events[i]) {
      InTable(events, i);
    }
  }

  lemma {:induction false} InTable(events: seq<CanonicalEvent>, i: nat)
    requires i < |events| && IsConversation(events[i])
    ensures events[i].id in TopologyById(events)
  {
    hide PlanAll, Locate;
    if i < |events| - 1 {
      InTable(events[..|events| - 1], i);
    }
  }

  /** Planning changes no identity, order, kind or content, and explicit coordinates stay. */
  lemma {:induction false} PlanningKeepsEvents(events: seq<CanonicalEvent>, i: nat)
    requires i < |events|
    ensures Planned(events)[i].(topology := events[i].topology) == events[i]
    ensures IsConversation(events[i]) ==> Planned(events)[i].topology.Some? && HasExplicitStep(Planned(events)[i])
    ensures IsConversation(events[i]) && HasExplicitStep(events[i]) ==> Planned(events)[i] == events[i]
    ensures !IsConversation(events[i]) ==> Planned(events)[i] == events[i]
  {
    hide PlanAll, Locate;
    if i < |events| - 1 {
      PlanningKeepsEvents(events[..|events| - 1], i);
    }
  }
}
