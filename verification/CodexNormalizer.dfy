/** Classification of the envelopes of a Codex rollout, and the conversational turns it assigns to them. */
module CodexNormalizer {
  import opened Outcomes
  import opened Text
  import opened Sequences

  /** The fields of a payload that the normalizer looks at; strings are None when absent or empty. */
  datatype Payload = Payload(
    kind: Option<string>,
    role: Option<string>,
    turnId: Option<string>,
    passthroughTurnId: Option<string>,
    callId: Option<string>,
    replacement: Option<seq<Option<Payload>>>, // replacement_history; entries that are no records are None
    body: string)

  datatype Envelope = Envelope(timestamp: Option<string>, kind: string, payload: Payload)

  /** An envelope with its place in the rollout; the last compaction opens the active part. */
  datatype Item = Item(envelope: Envelope, index: string, boundary: bool)

  /** What the text of a message amounts to. */
  datatype Reading = NotAMessage | Blank | ImportedMetadata | ImportedRecord | UserSaid | AssistantSaid | OtherRole

  /** Reading of texts: messages, reasoning, and the legacy patch warning. */
  datatype Reader = Reader(message: Payload -> Reading, hasReasoning: Payload -> bool, warns: Payload -> bool)

  datatype Phase = UserPhase | AssistantPhase | CallPhase | ResultPhase | ReasoningPhase

  datatype Topology = Topology(turnId: string, ordinal: nat, phase: Phase, explicit: bool)

  /** Why an event that is shown is no conversation. */
  datatype OtherReason = Unsupported | OrphanResult

  datatype Event = Event(item: Item, sequence: nat, topology: Option<Topology>, other: Option<OtherReason>)

  // ----- the active part of a rollout

  predicate Compacts(e: Envelope) {
    e.kind == "compacted" && e.payload.replacement.Some?
  }

  function LastCompaction(envelopes: seq<Envelope>): (r: Option<nat>)
    ensures r.Some? ==> r.value < |envelopes| && Compacts(envelopes[r.value])
    ensures r.Some? ==> forall k :: r.value < k < |envelopes| ==> !Compacts(envelopes[k])
    ensures r.None? ==> forall k :: 0 <= k < |envelopes| ==> !Compacts(envelopes[k])
  {
    if envelopes == [] then None
    else if Compacts(Last(envelopes)) then Some(|envelopes| - 1)
    else LastCompaction(envelopes[..|envelopes| - 1])
  }

  predicate Portable(p: Option<Payload>) {
    p.Some? && p.value.kind != Some("compaction")
        && !(p.value.kind == Some("message") && p.value.role == Some("developer"))
  }

  function ReplacementAt(boundary: Envelope, at: nat, history: seq<Option<Payload>>, k: nat): seq<Item>
    requires k < |history|
  {
    if Portable(history[k])
    then [Item(Envelope(boundary.timestamp, "response_item", history[k].value),
        Digits(at) + ":replacement:" + Digits(k), false)]
    else []
  }

  lemma OneReplacement(boundary: Envelope, at: nat, history: seq<Option<Payload>>, k: nat)
    requires k < |history|
    ensures ReplacementAt(boundary, at, history, k) ==
            if Portable(history[k])
                then [Item(Envelope(boundary.timestamp, "response_item", history[k].value),
                Digits(at) + ":replacement:" + Digits(k), false)] else []
  {
  }

  function Replacements(boundary: Envelope, at: nat, history: seq<Option<Payload>>): seq<Item> {
    if history == [] then []
    else Replacements(boundary, at, history[..|history| - 1]) + ReplacementAt(boundary, at, history, |history| - 1)
  }

  function Rows(envelopes: seq<Envelope>, from: nat): (r: seq<Item>)
    requires from <= |envelopes|
    ensures |r| == |envelopes| - from
  {
    seq(|envelopes| - from, i requires 0 <= i < |envelopes| - from =>
        Item(envelopes[from + i], Digits(from + i), false))
  }

  /** What is replayed: everything, or the last compaction, its replacement history and what follows it. */
  function Active(envelopes: seq<Envelope>): seq<Item> {
    match LastCompaction(envelopes)
    case None => Rows(envelopes, 0)
    case Some(at) =>
      [Item(envelopes[at], Digits(at), true)]
      + Replacements(envelopes[at], at, envelopes[at].payload.replacement.value)
      + Rows(envelopes, at + 1)
  }

  method ActiveCodexEnvelopes(envelopes: seq<Envelope>) returns (active: seq<Item>)
    ensures active == Active(envelopes)
  {
    hide Digits, ReplacementAt;
    var compacted: Option<nat> := None;
    for index := 0 to |envelopes|
      invariant compacted == LastCompaction(envelopes[..index])
    {
      assert envelopes[..index + 1][..index] == envelopes[..index] && Last(envelopes[..index + 1]) == envelopes[index];
      if envelopes[index].kind == "compacted" && envelopes[index].payload.replacement.Some? {
        compacted := Some(index);
      }
    }
    assert envelopes[..|envelopes|] == envelopes;
    if compacted.None? {
      return Rows(envelopes, 0);
    }
    var at := compacted.value;
    var boundary := envelopes[at];
    var history := boundary.payload.replacement.value;
    active := [Item(boundary, Digits(at), true)];
    ghost var head := active;
    for k := 0 to |history|
      invariant active == head + Replacements(boundary, at, history[..k])
    {
      assert history[..k + 1][..k] == history[..k];
      OneReplacement(boundary, at, history[..k + 1], k);
      if history[k].None? {
        continue;
      }
      if history[k].value.kind == Some("compaction") {
        continue;
      }
      if history[k].value.kind == Some("message") && history[k].value.role == Some("developer") {
        continue;
      }
      active := active
          + [Item(Envelope(boundary.timestamp, "response_item", history[k].value),
          Digits(at) + ":replacement:" + Digits(k), false)];
    }
    assert history[..|history|] == history;
    ghost var front := active;
    for index := at + 1 to |envelopes|
      invariant active == front + Rows(envelopes, at + 1)[..index - (at + 1)]
    {
      active := active + [Item(envelopes[index], Digits(index), false)];
    }
  }

  // ----- turns

  datatype Turns = Turns(active: Option<string>, explicit: bool, current: Option<string>, ordinals: map<string, nat>)

  const NO_TURNS := Turns(None, false, None, map[])

  predicate StartsTurn(e: Envelope) {
    || (e.kind == "turn_context" && e.payload.turnId.Some?)
    || (e.kind == "event_msg" && (e.payload.kind == Some("task_started") || e.payload.kind == Some("turn_started"))
         && e.payload.turnId.Some?)
  }

  predicate EndsTurn(e: Envelope, active: Option<string>) {
    && e.kind == "event_msg"
    && (e.payload.kind == Some("task_complete") || e.payload.kind == Some("turn_complete")
         || e.payload.kind == Some("turn_aborted"))
    && (e.payload.turnId.None? || e.payload.turnId == active)
  }

  function Before(t: Turns, e: Envelope): Turns {
    if StartsTurn(e) then t.(active := e.payload.turnId, explicit := true) else t
  }

  function After(t: Turns, e: Envelope): Turns {
    if EndsTurn(e, t.active) then t.(active := None, explicit := false) else t
  }

  /**
   * The turn of an item: the running task, else the passed-through turn, else for replies the current one, else its
   * own.
   */
  function TurnFor(t: Turns, item: Item, phase: Phase): string {
    if t.active.Some? then t.active.value
    else if item.envelope.payload.passthroughTurnId.Some? then item.envelope.payload.passthroughTurnId.value
    else if phase != UserPhase && t.current.Some? then t.current.value
    else "codex-turn:" + item.index
  }

  predicate IsExplicit(t: Turns, item: Item) {
    item.envelope.payload.passthroughTurnId.Some? || (t.active.Some? && t.explicit)
  }

  function OrdinalOf(t: Turns, turnId: string): nat {
    if turnId in t.ordinals then t.ordinals[turnId] else |t.ordinals|
  }

  function Assigned(t: Turns, turnId: string): Turns {
    t.(current := Some(turnId), ordinals := t.ordinals[turnId := OrdinalOf(t, turnId)])
  }

  function TopologyFor(t: Turns, item: Item, phase: Phase): Topology {
    var turnId := TurnFor(t, item, phase);
    Topology(turnId, OrdinalOf(t, turnId), phase, IsExplicit(t, item))
  }

  class TurnAssignment {
    var activeTurnId: Option<string>
    var activeTurnIsExplicit: bool
    var currentConversationTurnId: Option<string>
    var turnOrdinals: map<string, nat>

    function State(): Turns
      reads this
    {
      Turns(activeTurnId, activeTurnIsExplicit, currentConversationTurnId, turnOrdinals)
    }

    constructor ()
      ensures State() == NO_TURNS
    {
      activeTurnId, activeTurnIsExplicit, currentConversationTurnId, turnOrdinals := None, false, None, map[];
    }

    method UpdateTurnBoundaryBefore(e: Envelope)
      modifies this
      ensures State() == Before(old(State()), e)
    {
      if e.kind == "turn_context" {
        if e.payload.turnId.Some? {
          activeTurnId, activeTurnIsExplicit := e.payload.turnId, true;
        }
        return;
      }
      if e.kind != "event_msg" {
        return;
      }
      if e.payload.kind != Some("task_started") && e.payload.kind != Some("turn_started") {
        return;
      }
      if e.payload.turnId.Some? {
        activeTurnId, activeTurnIsExplicit := e.payload.turnId, true;
      }
    }

    method UpdateTurnBoundaryAfter(e: Envelope)
      modifies this
      ensures State() == After(old(State()), e)
    {
      if e.kind != "event_msg" {
        return;
      }
      if e.payload.kind == Some("task_complete") || e.payload.kind == Some("turn_complete")
          || e.payload.kind == Some("turn_aborted") {
        if e.payload.turnId.None? || e.payload.turnId == activeTurnId {
          activeTurnId, activeTurnIsExplicit := None, false;
        }
      }
    }

    method AssignTopology(item: Item, phase: Phase) returns (topology: Topology)
      modifies this
      ensures topology == TopologyFor(old(State()), item, phase)
      ensures State() == Assigned(old(State()), topology.turnId)
    {
      var payloadTurnId := item.envelope.payload.passthroughTurnId;
      var turnId := if activeTurnId.Some? then activeTurnId else payloadTurnId;
      var explicit := payloadTurnId.Some? || (turnId.Some? && activeTurnIsExplicit && activeTurnId.Some?);
      if turnId.None? && phase != UserPhase {
        turnId := currentConversationTurnId;
      }
      if turnId.None? {
        turnId := Some("codex-turn:" + item.index);
        explicit := false;
      }
      currentConversationTurnId := turnId;
      var ordinal := |turnOrdinals|;
      if turnId.value in turnOrdinals {
        ordinal := turnOrdinals[turnId.value];
      } else {
        turnOrdinals := turnOrdinals[turnId.value := ordinal];
      }
      return Topology(turnId.value, ordinal, phase, explicit);
    }
  }

  // ----- verdicts

  datatype Verdict =
    | Evidence // kept out of the events
    | BoundaryEvidence // likewise, and it may end a turn
    | Canonical(phase: Phase)
    | VisibleRecord // an imported record, shown as an other event
    | Preserved(orphan: bool) // an unsupported envelope, shown as an other event

  const EVIDENCE_KINDS: set<string> := {"event_msg", "turn_context", "token_usage_record", "world_state", "compacted"}

  predicate IsCallKind(kind: Option<string>) {
    kind == Some("function_call") || kind == Some("custom_tool_call")
  }

  predicate IsOutputKind(kind: Option<string>) {
    kind == Some("function_call_output") || kind == Some("custom_tool_call_output")
  }

  /** The call that the nearest earlier response item makes. */
  function PriorCall(items: seq<Item>, before: nat): Option<string>
    requires before <= |items|
  {
    if before == 0 then None
    else
      var e := items[before - 1].envelope;
      if e.kind != "response_item" then PriorCall(items, before - 1)
      else if IsCallKind(e.payload.kind) then e.payload.callId
      else None
  }

  predicate ShowsPatch(e: Envelope, callId: string) {
    e.kind == "event_msg" && e.payload.callId == Some(callId)
        && (e.payload.kind == Some("patch_apply_begin") || e.payload.kind == Some("patch_apply_end"))
  }

  /** The next response item is the output of the call, and a patch was seen on the way. */
  predicate AnsweredByPatch(items: seq<Item>, from: nat, callId: string, patched: bool)
    requires from <= |items|
    decreases |items| - from
  {
    if from == |items| then false
    else
      var e := items[from].envelope;
      var seen := patched || ShowsPatch(e, callId);
      if e.kind != "response_item" then AnsweredByPatch(items, from + 1, callId, seen)
      else seen && e.payload.callId == Some(callId) && IsOutputKind(e.payload.kind)
  }

  predicate IsLegacyPatchWarning(reader: Reader, items: seq<Item>, k: nat)
    requires k < |items|
  {
    && items[k].envelope.kind == "response_item" && reader.warns(items[k].envelope.payload)
    && PriorCall(items, k).Some? && AnsweredByPatch(items, k + 1, PriorCall(items, k).value, false)
  }

  /** A tool item needs the identifier of its call. */
  function ToolPhase(p: Payload): Option<Phase> {
    if p.callId.None? then None
    else if IsCallKind(p.kind) then Some(CallPhase)
    else if IsOutputKind(p.kind) then Some(ResultPhase)
    else None
  }

  function MessageVerdict(reader: Reader, p: Payload): Option<Verdict> {
    if p.kind != Some("message") then None
    else
      match reader.message(p)
      case NotAMessage => None
      case Blank => Some(Evidence)
      case ImportedMetadata => Some(Evidence)
      case ImportedRecord => Some(VisibleRecord)
      case UserSaid => Some(Canonical(UserPhase))
      case AssistantSaid => Some(Canonical(AssistantPhase))
      case OtherRole => Some(Evidence)
  }

  function VerdictOf(reader: Reader, items: seq<Item>, k: nat): Verdict
    requires k < |items|
  {
    var e := items[k].envelope;
    var p := e.payload;
    if e.kind == "session_meta" || items[k].boundary then Evidence
    else if e.kind == "response_item" then
      if IsLegacyPatchWarning(reader, items, k) then Evidence
      else if MessageVerdict(reader, p).Some? then MessageVerdict(reader, p).value
      else if ToolPhase(p).Some? then Canonical(ToolPhase(p).value)
      else if p.kind == Some("reasoning") then (if reader.hasReasoning(p) then Canonical(ReasoningPhase) else Evidence)
      else Preserved(IsOutputKind(p.kind))
    else if e.kind in EVIDENCE_KINDS then BoundaryEvidence
    else Preserved(false)
  }

  // ----- normalization

  function SourceKind(e: Envelope): string {
    "codex/" + e.kind + (if e.payload.kind.Some? then ":" + e.payload.kind.value else "")
  }

  function Counted(kinds: map<string, nat>, kind: string): map<string, nat> {
    kinds[kind := (if kind in kinds then kinds[kind] else 0) + 1]
  }

  datatype Outcome = Outcome(turns: Turns, events: seq<Event>, canonical: nat, evidenceOnly: nat, other: nat,
      kinds: map<string, nat>)

  const NOTHING := Outcome(NO_TURNS, [], 0, 0, 0, map[])

  function ReasonOf(orphan: bool): OtherReason {
    if orphan then OrphanResult else Unsupported
  }

  function Apply(o: Outcome, item: Item, verdict: Verdict): Outcome {
    var turns := Before(o.turns, item.envelope);
    var counted := o.(kinds := Counted(o.kinds, SourceKind(item.envelope)));
    match verdict
    case Evidence => counted.(turns := turns, evidenceOnly := o.evidenceOnly + 1)
    case BoundaryEvidence => counted.(turns := After(turns, item.envelope), evidenceOnly := o.evidenceOnly + 1)
    case Canonical(phase) =>
      var topology := TopologyFor(turns, item, phase);
      counted.(turns := Assigned(turns, topology.turnId),
          events := o.events + [Event(item, |o.events|, Some(topology), None)], canonical := o.canonical + 1)
    case VisibleRecord =>
      counted.(turns := turns, events := o.events + [Event(item, |o.events|, None, Some(Unsupported))],
          other := o.other + 1)
    case Preserved(orphan) =>
      counted.(turns := After(turns, item.envelope),
          events := o.events + [Event(item, |o.events|, None, Some(ReasonOf(orphan)))], other := o.other + 1)
  }

  /** The state of the loop after the first n items. */
  function Normalize(reader: Reader, items: seq<Item>, n: nat): Outcome
    requires n <= |items|
  {
    if n == 0 then NOTHING else Apply(Normalize(reader, items, n - 1), items[n - 1], VerdictOf(reader, items, n - 1))
  }

  method NormalizeCodexObservation(reader: Reader, envelopes: seq<Envelope>) returns (o: Outcome)
    ensures o == Normalize(reader, Active(envelopes), |Active(envelopes)|)
  {
    hide VerdictOf, Before, After, TopologyFor, Assigned, Counted, SourceKind;
    var active := ActiveCodexEnvelopes(envelopes);
    var turnState := new TurnAssignment();
    var events: seq<Event> := [];
    var canonical, evidenceOnly, other := 0, 0, 0;
    var kinds: map<string, nat> := map[];
    for k := 0 to |active|
      invariant Normalize(reader, active, k)
              == Outcome(turnState.State(), events, canonical, evidenceOnly, other, kinds)
    {
      var item := active[k];
      kinds := Counted(kinds, SourceKind(item.envelope));
      turnState.UpdateTurnBoundaryBefore(item.envelope);
      match VerdictOf(reader, active, k) {
        case Evidence =>
          evidenceOnly := evidenceOnly + 1;
        case BoundaryEvidence =>
          evidenceOnly := evidenceOnly + 1;
          turnState.UpdateTurnBoundaryAfter(item.envelope);
        case Canonical(phase) =>
          var topology := turnState.AssignTopology(item, phase);
          events := events + [Event(item, |events|, Some(topology), None)];
          canonical := canonical + 1;
        case VisibleRecord =>
          events := events + [Event(item, |events|, None, Some(Unsupported))];
          other := other + 1;
        case Preserved(orphan) =>
          events := events + [Event(item, |events|, None, Some(ReasonOf(orphan)))];
          other := other + 1;
          turnState.UpdateTurnBoundaryAfter(item.envelope);
      }
    }
    return Outcome(turnState.State(), events, canonical, evidenceOnly, other, kinds);
  }

  // ----- every active envelope is accounted for

  /** How many of the first n items have a source kind. */
  function CountOf(items: seq<Item>, n: nat, kind: string): nat
    requires n <= |items|
  {
    if n == 0 then 0 else CountOf(items, n - 1, kind) + if SourceKind(items[n - 1].envelope) == kind then 1 else 0
  }

  /**
   * Each active envelope is canonical, evidence only or other, events are the canonical and the other ones, numbered in
   * order, and the tally of source kinds counts each kind.
   */
  lemma {:induction false} EveryEnvelopeAccountedFor(reader: Reader, items: seq<Item>, n: nat)
    requires n <= |items|
    ensures var o := Normalize(reader, items, n);
            && n == o.canonical + o.evidenceOnly + o.other
            && |o.events| == o.canonical + o.other
            && (forall i :: 0 <= i < |o.events| ==> o.events[i].sequence == i)
            && (forall kind :: (if kind in o.kinds then o.kinds[kind] else 0) == CountOf(items, n, kind))
  {
    hide VerdictOf, Apply, SourceKind;
    if n > 0 {
      EveryEnvelopeAccountedFor(reader, items, n - 1);
      StepAccounted(Normalize(reader, items, n - 1), items[n - 1], VerdictOf(reader, items, n - 1));
    }
  }

  /** One item is counted once, under its kind, and adds at most one event. */
  lemma StepAccounted(o: Outcome, item: Item, verdict: Verdict)
    ensures var more := Apply(o, item, verdict);
            && more.canonical + more.evidenceOnly + more.other == o.canonical + o.evidenceOnly + o.other + 1
            && |more.events| + o.canonical + o.other == |o.events| + more.canonical + more.other
            && o.events <= more.events
            && (forall i :: |o.events| <= i < |more.events| ==> more.events[i].sequence == i)
            && more.kinds == Counted(o.kinds, SourceKind(item.envelope))
  {
    hide Before, After, TopologyFor, Assigned, SourceKind, Counted;
  }

  /** Where the event of an item stands: the events of the items before it, in order. */
  predicate Yields(verdict: Verdict) {
    verdict.Canonical? || verdict.VisibleRecord? || verdict.Preserved?
  }

  function YieldingItems(reader: Reader, items: seq<Item>, n: nat): seq<Item>
    requires n <= |items|
  {
    if n == 0 then []
    else YieldingItems(reader, items, n - 1) + if Yields(VerdictOf(reader, items, n - 1)) then [items[n - 1]] else []
  }

  function ItemOf(e: Event): Item {
    e.item
  }

  /** The events are those of the yielding items, in the order of the rollout. */
  lemma {:induction false} EventsInOrder(reader: Reader, items: seq<Item>, n: nat)
    requires n <= |items|
    ensures Map(Normalize(reader, items, n).events, ItemOf) == YieldingItems(reader, items, n)
  {
    hide VerdictOf, Before, After, TopologyFor, Assigned, Counted;
    if n > 0 {
      EventsInOrder(reader, items, n - 1);
    }
  }

  // ----- turns

  function TurnsUsed(events: seq<Event>): set<string> {
    set i | 0 <= i < |events| && events[i].topology.Some? :: events[i].topology.value.turnId
  }

  /** The topology of an event names a turn of the table: one used before, or the next number. */
  predicate PlacedAt(ordinals: map<string, nat>, topology: Option<Topology>, before: set<string>) {
    topology.Some? ==>
      && topology.value.turnId in ordinals && topology.value.ordinal == ordinals[topology.value.turnId]
      && (if topology.value.turnId in before then topology.value.ordinal < |before|
           else topology.value.ordinal == |before|)
  }

  predicate EveryPlaced(ordinals: map<string, nat>, events: seq<Event>) {
    events == []
        || (EveryPlaced(ordinals, events[..|events| - 1])
        && PlacedAt(ordinals, Last(events).topology, TurnsUsed(events[..|events| - 1])))
  }

  ghost predicate DenseTable(ordinals: map<string, nat>) {
    && (forall id :: id in ordinals ==> ordinals[id] < |ordinals|)
    && (forall a, b :: a in ordinals && b in ordinals && ordinals[a] == ordinals[b] ==> a == b)
  }

  /** Ordinals number the turns of the events in the order in which they are first used, densely from zero. */
  ghost predicate Numbered(t: Turns, events: seq<Event>) {
    t.ordinals.Keys == TurnsUsed(events) && DenseTable(t.ordinals) && EveryPlaced(t.ordinals, events)
  }

  lemma UsedGrows(events: seq<Event>, e: Event)
    ensures TurnsUsed(events + [e]) == TurnsUsed(events) + if e.topology.Some? then {e.topology.value.turnId} else {}
  {
    var more := events + [e];
    assert forall i :: 0 <= i < |events| ==> more[i] == events[i];
    if e.topology.Some? {
      assert more[|events|].topology.value.turnId in TurnsUsed(more);
    }
  }

  lemma PlacedMore(ordinals: map<string, nat>, events: seq<Event>, e: Event)
    requires EveryPlaced(ordinals, events) && PlacedAt(ordinals, e.topology, TurnsUsed(events))
    ensures EveryPlaced(ordinals, events + [e])
  {
    assert (events + [e])[..|events|] == events;
  }

  lemma {:induction false} PlacedStays(ordinals: map<string, nat>, more: map<string, nat>, events: seq<Event>)
    requires EveryPlaced(ordinals, events) && forall id :: id in ordinals ==> id in more && more[id] == ordinals[id]
    ensures EveryPlaced(more, events)
  {
    if events != [] {
      PlacedStays(ordinals, more, events[..|events| - 1]);
    }
  }

  lemma NumberedKeeps(t: Turns, t': Turns, events: seq<Event>, e: Event)
    requires Numbered(t, events) && t'.ordinals == t.ordinals && e.topology.None?
    ensures Numbered(t', events + [e])
  {
    hide EveryPlaced, TurnsUsed, DenseTable;
    UsedGrows(events, e);
    PlacedMore(t.ordinals, events, e);
  }

  lemma DenserTable(ordinals: map<string, nat>, id: string)
    requires DenseTable(ordinals) && id !in ordinals
    ensures DenseTable(ordinals[id := |ordinals|])
  {
    var more := ordinals[id := |ordinals|];
    assert more.Keys == ordinals.Keys + {id};
    assert |more| == |more.Keys| && |ordinals| == |ordinals.Keys|;
  }

  lemma NumberedGrows(t: Turns, events: seq<Event>, e: Event)
    requires Numbered(t, events) && e.topology.Some?
            && e.topology.value.ordinal == OrdinalOf(t, e.topology.value.turnId)
    ensures Numbered(Assigned(t, e.topology.value.turnId), events + [e])
  {
    hide EveryPlaced, TurnsUsed;
    var id := e.topology.value.turnId;
    var more := Assigned(t, id).ordinals;
    UsedGrows(events, e);
    assert |t.ordinals| == |t.ordinals.Keys|;
    if id in t.ordinals {
      assert more == t.ordinals;
    } else {
      DenserTable(t.ordinals, id);
    }
    assert more.Keys == t.ordinals.Keys + {id};
    PlacedStays(t.ordinals, more, events);
    PlacedMore(more, events, e);
  }

  lemma {:induction false} PlacedEvent(ordinals: map<string, nat>, events: seq<Event>, i: nat)
    requires EveryPlaced(ordinals, events) && i < |events|
    ensures PlacedAt(ordinals, events[i].topology, TurnsUsed(events[..i]))
  {
    if i < |events| - 1 {
      PlacedEvent(ordinals, events[..|events| - 1], i);
      assert events[..|events| - 1][..i] == events[..i];
    }
  }

  lemma {:induction false} TurnsNumbered(reader: Reader, items: seq<Item>, n: nat)
    requires n <= |items|
    ensures Numbered(Normalize(reader, items, n).turns, Normalize(reader, items, n).events)
  {
    hide VerdictOf, Numbered, Counted;
    if n == 0 {
      NothingNumbered();
    } else {
      TurnsNumbered(reader, items, n - 1);
      StepNumbered(Normalize(reader, items, n - 1), items[n - 1], VerdictOf(reader, items, n - 1));
    }
  }

  lemma NothingNumbered()
    ensures Numbered(NO_TURNS, [])
  {
  }

  lemma SameOrdinals(t: Turns, t': Turns, events: seq<Event>)
    requires Numbered(t, events) && t'.ordinals == t.ordinals
    ensures Numbered(t', events)
  {
  }

  lemma StepNumbered(o: Outcome, item: Item, verdict: Verdict)
    requires Numbered(o.turns, o.events)
    ensures Numbered(Apply(o, item, verdict).turns, Apply(o, item, verdict).events)
  {
    hide Numbered, Counted;
    var turns := Before(o.turns, item.envelope);
    SameOrdinals(o.turns, turns, o.events);
    match verdict
    case Canonical(phase) =>
      NumberedGrows(turns, o.events, Event(item, |o.events|, Some(TopologyFor(turns, item, phase)), None));
    case VisibleRecord =>
      NumberedKeeps(turns, turns, o.events, Event(item, |o.events|, None, Some(Unsupported)));
    case Preserved(orphan) =>
      NumberedKeeps(turns, After(turns, item.envelope), o.events,
          Event(item, |o.events|, None, Some(ReasonOf(orphan))));
    case BoundaryEvidence =>
      SameOrdinals(turns, After(turns, item.envelope), o.events);
    case Evidence =>
  }

  /**
   * Among the events, turn identities and ordinals determine each other, and ordinals are given out densely in the
   * order in which turns are first used.
   */
  lemma TurnsAndOrdinalsCorrespond(reader: Reader, items: seq<Item>, i: nat, j: nat)
    requires var events := Normalize(reader, items, |items|).events;
             i < |events| && j < |events| && events[i].topology.Some? && events[j].topology.Some?
    ensures var events := Normalize(reader, items, |items|).events;
            var a, b := events[i].topology.value, events[j].topology.value;
            && (a.turnId == b.turnId <==> a.ordinal == b.ordinal)
            && (if a.turnId in TurnsUsed(events[..i]) then a.ordinal < |TurnsUsed(events[..i])|
                 else a.ordinal == |TurnsUsed(events[..i])|)
  {
    hide Normalize, TurnsUsed, EveryPlaced;
    TurnsNumbered(reader, items, |items|);
    var o := Normalize(reader, items, |items|);
    PlacedEvent(o.turns.ordinals, o.events, i);
    PlacedEvent(o.turns.ordinals, o.events, j);
  }

  /** The task running when an item is read, by the boundaries of the rollout alone. */
  function TaskAt(items: seq<Item>, n: nat): Option<string>
    requires n <= |items|
  {
    if n == 0 then None
    else
      var e := items[n - 1].envelope;
      var task := TaskAt(items, n - 1);
      if StartsTurn(e) then e.payload.turnId
      else if EndsTurn(e, task) then None
      else task
  }

  /** Only the last compaction is a boundary item. */
  predicate BoundariesCompact(items: seq<Item>) {
    forall k :: 0 <= k < |items| && items[k].boundary ==> items[k].envelope.kind == "compacted"
  }

  lemma {:induction false} BoundedTask(reader: Reader, items: seq<Item>, n: nat)
    requires n <= |items| && BoundariesCompact(items)
    ensures Normalize(reader, items, n).turns.active == TaskAt(items, n)
  {
    hide IsLegacyPatchWarning, MessageVerdict, ToolPhase, Counted, SourceKind;
    if n > 0 {
      BoundedTask(reader, items, n - 1);
    }
  }

  lemma {:induction false} ReplacementsPlain(boundary: Envelope, at: nat, history: seq<Option<Payload>>)
    ensures forall k :: 0 <= k < |Replacements(boundary, at, history)|
              ==> !Replacements(boundary, at, history)[k].boundary
  {
    if history != [] {
      ReplacementsPlain(boundary, at, history[..|history| - 1]);
    }
  }

  lemma ActiveBoundaries(envelopes: seq<Envelope>)
    ensures BoundariesCompact(Active(envelopes))
  {
    var compacted := LastCompaction(envelopes);
    if compacted.Some? {
      ReplacementsPlain(envelopes[compacted.value], compacted.value,
          envelopes[compacted.value].payload.replacement.value);
    }
  }

  /** The turn the normalizer works in is the task running at that point of the rollout. */
  lemma TaskIsActiveTurn(reader: Reader, envelopes: seq<Envelope>, n: nat)
    requires n <= |Active(envelopes)|
    ensures Normalize(reader, Active(envelopes), n).turns.active == TaskAt(Active(envelopes), n)
  {
    ActiveBoundaries(envelopes);
    BoundedTask(reader, Active(envelopes), n);
  }

  /** What is said while one task runs belongs to that task's turn, whatever its own metadata name. */
  lemma ItemsShareTheirTask(reader: Reader, envelopes: seq<Envelope>, k: nat, task: string)
    requires k < |Active(envelopes)| && VerdictOf(reader, Active(envelopes), k).Canonical?
    requires TaskAt(Active(envelopes), k) == Some(task)
    ensures var event := Last(Normalize(reader, Active(envelopes), k + 1).events);
            event.item == Active(envelopes)[k] && event.topology.Some? && event.topology.value.turnId == task
  {
    hide Active;
    ActiveBoundaries(envelopes);
    BoundedTask(reader, Active(envelopes), k);
  }

  // ----- compaction

  lemma LastCompactionIs(envelopes: seq<Envelope>, at: nat)
    requires at < |envelopes| && Compacts(envelopes[at]) && forall k :: at < k < |envelopes| ==> !Compacts(envelopes[k])
    ensures LastCompaction(envelopes) == Some(at)
  {
    var r := LastCompaction(envelopes);
  }

  /**
   * What lies before the last compaction is irrelevant: equally long rollouts that agree from there on normalize alike.
   */
  lemma BeforeCompactionIsIrrelevant(reader: Reader, a: seq<Envelope>, b: seq<Envelope>, at: nat)
    requires |a| == |b| && at < |a| && a[at..] == b[at..]
    requires Compacts(a[at]) && forall k :: at < k < |a| ==> !Compacts(a[k])
    ensures Active(a) == Active(b)
    ensures Normalize(reader, Active(a), |Active(a)|) == Normalize(reader, Active(b), |Active(b)|)
  {
    assert forall k :: at <= k < |a| ==> a[k] == a[at..][k - at] && b[k] == b[at..][k - at];
    LastCompactionIs(a, at);
    LastCompactionIs(b, at);
    assert Rows(a, at + 1) == Rows(b, at + 1);
  }
}
