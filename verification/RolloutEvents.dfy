/** What becomes of each envelope of a rollout, told from the envelopes and the reading of their texts alone. */
module RolloutEvents {
  import opened Outcomes
  import opened Text
  import opened Sequences
  import opened CodexNormalizer

  // ----- what an item amounts to

  /** Between two response items there is nothing but other envelopes. */
  ghost predicate Adjacent(items: seq<Item>, from: int, to: int) {
    0 <= from < to < |items| && forall j :: from < j < to ==> items[j].envelope.kind != "response_item"
  }

  ghost predicate CallsIn(item: Item, callId: string) {
    && item.envelope.kind == "response_item" && item.envelope.payload.callId == Some(callId)
    && item.envelope.payload.kind in {Some("function_call"), Some("custom_tool_call")}
  }

  ghost predicate AnswersIn(item: Item, callId: string) {
    && item.envelope.kind == "response_item" && item.envelope.payload.callId == Some(callId)
    && item.envelope.payload.kind in {Some("function_call_output"), Some("custom_tool_call_output")}
  }

  ghost predicate PatchesIn(item: Item, callId: string) {
    && item.envelope.kind == "event_msg" && item.envelope.payload.callId == Some(callId)
    && item.envelope.payload.kind in {Some("patch_apply_begin"), Some("patch_apply_end")}
  }

  /** A warning between a call and its output, before which a patch of that call was reported. */
  ghost predicate IsPatchNotice(reader: Reader, items: seq<Item>, k: nat)
    requires k < |items|
  {
    && items[k].envelope.kind == "response_item" && reader.warns(items[k].envelope.payload)
    && exists before, after, callId ::
         && Adjacent(items, before, k) && Adjacent(items, k, after)
         && CallsIn(items[before], callId) && AnswersIn(items[after], callId)
         && exists j :: k < j < after && PatchesIn(items[j], callId)
  }

  /** The phase of the conversation that an item shows. */
  ghost predicate Shows(reader: Reader, items: seq<Item>, k: nat, phase: Phase)
    requires k < |items|
  {
    var p := items[k].envelope.payload;
    && items[k].envelope.kind == "response_item" && !items[k].boundary && !IsPatchNotice(reader, items, k)
    && match phase
       case UserPhase => p.kind == Some("message") && reader.message(p) == UserSaid
       case AssistantPhase => p.kind == Some("message") && reader.message(p) == AssistantSaid
       case CallPhase => p.kind in {Some("function_call"), Some("custom_tool_call")} && p.callId != None
       case ResultPhase => p.kind in {Some("function_call_output"), Some("custom_tool_call_output")} && p.callId != None
       case ReasoningPhase => p.kind == Some("reasoning") && reader.hasReasoning(p)
  }

  /** An item that is shown without being conversation, and why. */
  ghost predicate IsOther(reader: Reader, items: seq<Item>, k: nat, reason: OtherReason)
    requires k < |items|
  {
    var e := items[k].envelope;
    && !items[k].boundary && !IsPatchNotice(reader, items, k)
    && (|| (e.kind == "response_item"
            && e.payload.kind in {Some("function_call_output"), Some("custom_tool_call_output")}
            && e.payload.callId == None && reason == OrphanResult)
        || (e.kind == "response_item" && IsUnsupported(reader, e.payload) && reason == Unsupported)
        || (e.kind !in {"response_item", "session_meta", "event_msg", "turn_context", "token_usage_record",
                        "world_state", "compacted"} && reason == Unsupported))
  }

  /** A record imported to be seen, an unreadable message, a call without identity, or an unknown item. */
  ghost predicate IsUnsupported(reader: Reader, p: Payload) {
    match p.kind
    case None => true
    case Some(kind) =>
      if kind == "message" then reader.message(p) in {ImportedRecord, NotAMessage}
      else if kind == "function_call" || kind == "custom_tool_call" then p.callId == None
      else kind !in {"function_call_output", "custom_tool_call_output", "reasoning"}
  }

  lemma {:induction false} PriorCallFinds(items: seq<Item>, before: nat)
    requires before <= |items|
    ensures PriorCall(items, before).Some?
            ==> exists b :: && 0 <= b < before && CallsIn(items[b], PriorCall(items, before).value)
                            && forall j :: b < j < before ==> items[j].envelope.kind != "response_item"
  {
    if before > 0 {
      PriorCallFinds(items, before - 1);
      if PriorCall(items, before).Some? && items[before - 1].envelope.kind != "response_item" {
        var b :| && 0 <= b < before - 1 && CallsIn(items[b], PriorCall(items, before).value)
                 && forall j :: b < j < before - 1 ==> items[j].envelope.kind != "response_item";
        assert forall j :: b < j < before ==> items[j].envelope.kind != "response_item";
      } else if PriorCall(items, before).Some? {
        assert CallsIn(items[before - 1], PriorCall(items, before).value);
      }
    }
  }

  lemma {:induction false} PriorCallIs(items: seq<Item>, before: nat, b: nat, callId: string)
    requires b < before <= |items| && CallsIn(items[b], callId)
    requires forall j :: b < j < before ==> items[j].envelope.kind != "response_item"
    ensures PriorCall(items, before) == Some(callId)
  {
    if b < before - 1 {
      PriorCallIs(items, before - 1, b, callId);
    }
  }

  ghost predicate PatchedAnswer(items: seq<Item>, from: nat, callId: string, patched: bool, after: int) {
    && from <= after < |items| && AnswersIn(items[after], callId)
    && (forall j :: from <= j < after ==> items[j].envelope.kind != "response_item")
    && (patched || exists j :: from <= j < after && PatchesIn(items[j], callId))
  }

  lemma {:induction false} AnsweredExactly(items: seq<Item>, from: nat, callId: string, patched: bool)
    requires from <= |items|
    ensures AnsweredByPatch(items, from, callId, patched)
            <==> exists after :: PatchedAnswer(items, from, callId, patched, after)
    decreases |items| - from
  {
    if from < |items| {
      var seen := patched || ShowsPatch(items[from].envelope, callId);
      assert seen <==> patched || PatchesIn(items[from], callId);
      var next := from + 1;
      AnsweredExactly(items, next, callId, seen);
      if items[from].envelope.kind == "response_item" {
        if AnsweredByPatch(items, from, callId, patched) {
          assert PatchedAnswer(items, from, callId, patched, from);
        }
        if after :| PatchedAnswer(items, from, callId, patched, after) {
          assert after == from;
        }
      } else {
        if after :| PatchedAnswer(items, next, callId, seen, after) {
          assert PatchedAnswer(items, from, callId, patched, after);
        }
        if after :| PatchedAnswer(items, from, callId, patched, after) {
          assert after != from;
          assert PatchedAnswer(items, next, callId, seen, after);
        }
      }
    }
  }

  /** The search for the call before and the output after a warning finds exactly such notices. */
  lemma PatchNoticeExactly(reader: Reader, items: seq<Item>, k: nat)
    requires k < |items|
    ensures IsLegacyPatchWarning(reader, items, k) <==> IsPatchNotice(reader, items, k)
    ensures IsPatchNotice(reader, items, k) ==> items[k].envelope.kind == "response_item"
  {
    hide PriorCall, AnsweredByPatch, CallsIn, AnswersIn, PatchesIn;
    if IsLegacyPatchWarning(reader, items, k) {
      var callId := PriorCall(items, k).value;
      PriorCallFinds(items, k);
      var b :| && 0 <= b < k && CallsIn(items[b], callId)
               && forall j :: b < j < k ==> items[j].envelope.kind != "response_item";
      AnsweredExactly(items, k + 1, callId, false);
      var after :| PatchedAnswer(items, k + 1, callId, false, after);
      assert Adjacent(items, b, k) && Adjacent(items, k, after);
    }
    if IsPatchNotice(reader, items, k) {
      var before, after, callId :|
        && Adjacent(items, before, k) && Adjacent(items, k, after)
        && CallsIn(items[before], callId) && AnswersIn(items[after], callId)
        && exists j :: k < j < after && PatchesIn(items[j], callId);
      PriorCallIs(items, k, before, callId);
      AnsweredExactly(items, k + 1, callId, false);
      assert PatchedAnswer(items, k + 1, callId, false, after);
    }
  }

  // ----- one item

  lemma PhaseExactly(reader: Reader, items: seq<Item>, k: nat, phase: Phase)
    requires k < |items|
    ensures VerdictOf(reader, items, k) == Canonical(phase) <==> Shows(reader, items, k, phase)
  {
    hide IsLegacyPatchWarning, IsPatchNotice;
    PatchNoticeExactly(reader, items, k);
  }

  ghost predicate ShownFor(verdict: Verdict, reason: OtherReason) {
    || (verdict.Preserved? && reason == if verdict.orphan then OrphanResult else Unsupported)
    || (verdict.VisibleRecord? && reason == Unsupported)
  }

  lemma OtherExactly(reader: Reader, items: seq<Item>, k: nat, reason: OtherReason)
    requires k < |items|
    ensures ShownFor(VerdictOf(reader, items, k), reason) <==> IsOther(reader, items, k, reason)
  {
    hide IsLegacyPatchWarning, IsPatchNotice;
    PatchNoticeExactly(reader, items, k);
    var e := items[k].envelope;
    if items[k].boundary || e.kind == "session_meta" || IsPatchNotice(reader, items, k) {
      assert !IsOther(reader, items, k, reason);
    } else if e.kind == "response_item" {
      ResponseOther(reader, e.payload);
      assert IsOther(reader, items, k, reason) <==>
          (IsOutputKind(e.payload.kind) && e.payload.callId == None && reason == OrphanResult)
          || (IsUnsupported(reader, e.payload) && reason == Unsupported);
    } else {
      assert e.kind in EVIDENCE_KINDS
          <==> e.kind in {"event_msg", "turn_context", "token_usage_record", "world_state", "compacted"};
    }
  }

  lemma ResponseOther(reader: Reader, p: Payload)
    ensures IsUnsupported(reader, p)
            <==> MessageVerdict(reader, p) == Some(VisibleRecord)
                 || (&& MessageVerdict(reader, p).None? && ToolPhase(p).None? && p.kind != Some("reasoning")
                     && !IsOutputKind(p.kind))
    ensures p.kind in {Some("function_call_output"), Some("custom_tool_call_output")} <==> IsOutputKind(p.kind)
  {
  }

  // ----- all items

  ghost predicate Talks(reader: Reader, items: seq<Item>, k: nat)
    requires k < |items|
  {
    exists phase :: Shows(reader, items, k, phase)
  }

  ghost predicate IsShownOnly(reader: Reader, items: seq<Item>, k: nat)
    requires k < |items|
  {
    exists reason :: IsOther(reader, items, k, reason)
  }

  /** The event of an item: conversation in its phase, or an other event for its reason. */
  ghost predicate EventFor(reader: Reader, items: seq<Item>, k: nat, event: Event)
    requires k < |items|
  {
    && event.item == items[k]
    && match event.topology
       case Some(topology) => Shows(reader, items, k, topology.phase) && event.other == None
       case None => event.other != None && IsOther(reader, items, k, event.other.value)
  }

  /** The events so far are those of the items at these places, which are all that talk or are shown. */
  ghost predicate EventsAt(reader: Reader, items: seq<Item>, n: nat, events: seq<Event>, at: seq<nat>)
    requires n <= |items|
  {
    && |at| == |events|
    && (forall i :: 0 <= i < |at| ==> at[i] < n && EventFor(reader, items, at[i], events[i]))
    && (forall i, j :: 0 <= i < j < |at| ==> at[i] < at[j])
    && (forall i :: 0 <= i < |events| ==> events[i].sequence == i)
    && forall k :: 0 <= k < n ==> (k in at <==> Talks(reader, items, k) || IsShownOnly(reader, items, k))
  }

  lemma VerdictKinds(reader: Reader, items: seq<Item>, k: nat)
    requires k < |items|
    ensures var verdict := VerdictOf(reader, items, k);
            && (verdict.Canonical? <==> Talks(reader, items, k))
            && (verdict.Preserved? || verdict.VisibleRecord? <==> IsShownOnly(reader, items, k))
            && (verdict.Canonical? ==> Shows(reader, items, k, verdict.phase))
            && forall reason :: ShownFor(verdict, reason) ==> IsOther(reader, items, k, reason)
  {
    hide VerdictOf, Shows, IsOther;
    var verdict := VerdictOf(reader, items, k);
    forall phase
      ensures verdict == Canonical(phase) <==> Shows(reader, items, k, phase)
    {
      PhaseExactly(reader, items, k, phase);
    }
    forall reason
      ensures ShownFor(verdict, reason) <==> IsOther(reader, items, k, reason)
    {
      OtherExactly(reader, items, k, reason);
    }
    if verdict.Preserved? || verdict.VisibleRecord? {
      var reason := if verdict.Preserved? && verdict.orphan then OrphanResult else Unsupported;
      assert ShownFor(verdict, reason);
    }
    if verdict.Canonical? {
      assert verdict == Canonical(verdict.phase);
    }
  }

  lemma StepAt(reader: Reader, items: seq<Item>, n: nat, events: seq<Event>, at: seq<nat>, more: seq<Event>,
      longer: seq<nat>)
    requires n < |items| && EventsAt(reader, items, n, events, at)
    requires if Talks(reader, items, n) || IsShownOnly(reader, items, n) then
        && |more| == |events| + 1 && more[..|events|] == events && longer == at + [n]
        && EventFor(reader, items, n, Last(more)) && Last(more).sequence == |events|
      else more == events && longer == at
    ensures EventsAt(reader, items, n + 1, more, longer)
  {
    hide EventFor, Talks, IsShownOnly;
    assert forall i :: 0 <= i < |events| ==> more[i] == events[i] && longer[i] == at[i];
    forall k | 0 <= k < n + 1
      ensures k in longer <==> Talks(reader, items, k) || IsShownOnly(reader, items, k)
    {
      assert k in longer <==> k in at || (k == n && |longer| > |at|);
    }
  }

  /** The events of a rollout are exactly those of the items that talk or are shown, in order and each as it reads. */
  lemma {:induction false} EventsExactly(reader: Reader, items: seq<Item>, n: nat) returns (at: seq<nat>)
    requires n <= |items|
    ensures EventsAt(reader, items, n, Normalize(reader, items, n).events, at)
  {
    hide VerdictOf, Apply, Talks, IsShownOnly, Shows, IsOther, EventsAt;
    if n == 0 {
      at := [];
      NoEvents(reader, items);
    } else {
      var before := EventsExactly(reader, items, n - 1);
      VerdictKinds(reader, items, n - 1);
      at := if Talks(reader, items, n - 1) || IsShownOnly(reader, items, n - 1) then before + [n - 1] else before;
      var o, verdict := Normalize(reader, items, n - 1), VerdictOf(reader, items, n - 1);
      EventAdded(o, items[n - 1], verdict);
      StepAt(reader, items, n - 1, o.events, before, Apply(o, items[n - 1], verdict).events, at);
    }
  }

  lemma NoEvents(reader: Reader, items: seq<Item>)
    ensures EventsAt(reader, items, 0, [], [])
  {
  }

  /** What one verdict adds to the events. */
  lemma EventAdded(o: Outcome, item: Item, verdict: Verdict)
    ensures var more := Apply(o, item, verdict).events;
            if verdict.Canonical? || verdict.Preserved? || verdict.VisibleRecord? then
              && |more| == |o.events| + 1 && more[..|o.events|] == o.events
              && Last(more).item == item && Last(more).sequence == |o.events|
              && (if verdict.Canonical? then
                    Last(more).topology.Some? && Last(more).topology.value.phase == verdict.phase
                    && Last(more).other == None
                  else
                    Last(more).topology.None? && Last(more).other.Some? && ShownFor(verdict, Last(more).other.value))
            else more == o.events
  {
    hide Before, After, Assigned, Counted, SourceKind, TurnFor, OrdinalOf, IsExplicit;
  }

  // ----- how many there are

  /** How often something holds of the first items. */
  ghost function HowMany(n: nat, holds: int -> bool): nat {
    if n == 0 then 0 else HowMany(n - 1, holds) + if holds(n - 1) then 1 else 0
  }

  ghost function Talking(reader: Reader, items: seq<Item>): int -> bool {
    k => 0 <= k < |items| && Talks(reader, items, k)
  }

  ghost function ShownOnly(reader: Reader, items: seq<Item>): int -> bool {
    k => 0 <= k < |items| && IsShownOnly(reader, items, k)
  }

  /** The counts of the summary: what talks is canonical, what is shown only is other, all else is evidence. */
  lemma {:induction false} CountsExactly(reader: Reader, items: seq<Item>, n: nat)
    requires n <= |items|
    ensures var o := Normalize(reader, items, n);
            && o.canonical == HowMany(n, Talking(reader, items))
            && o.other == HowMany(n, ShownOnly(reader, items))
            && o.evidenceOnly == n - o.canonical - o.other
  {
    hide VerdictOf, Talks, IsShownOnly, Before, After, Assigned, Counted, SourceKind, TopologyFor;
    if n > 0 {
      CountsExactly(reader, items, n - 1);
      VerdictKinds(reader, items, n - 1);
    }
  }

  /** The kind under which an envelope is tallied: its own, followed by that of its payload if it has one. */
  predicate TalliedAs(e: Envelope, kind: string) {
    match e.payload.kind
    case None => kind == "codex/" + e.kind
    case Some(inner) => kind == "codex/" + e.kind + ":" + inner
  }

  ghost function TalliedUnder(items: seq<Item>, kind: string): int -> bool {
    k => 0 <= k < |items| && TalliedAs(items[k].envelope, kind)
  }

  /** The tally holds for each kind how many of the items are of it, and no kind of which there is none. */
  lemma {:induction false} KindsExactly(reader: Reader, items: seq<Item>, n: nat, kind: string)
    requires n <= |items|
    ensures var kinds, number := Normalize(reader, items, n).kinds, HowMany(n, TalliedUnder(items, kind));
            (kind in kinds <==> number > 0) && (kind in kinds ==> kinds[kind] == number)
  {
    hide VerdictOf, Apply, SourceKind;
    if n > 0 {
      KindsExactly(reader, items, n - 1, kind);
      StepAccounted(Normalize(reader, items, n - 1), items[n - 1], VerdictOf(reader, items, n - 1));
      TalliedExactly(items[n - 1].envelope, kind);
    }
  }

  lemma TalliedExactly(e: Envelope, kind: string)
    ensures TalliedAs(e, kind) <==> SourceKind(e) == kind
  {
    if e.payload.kind.Some? {
      assert "codex/" + e.kind + (":" + e.payload.kind.value) == "codex/" + e.kind + ":" + e.payload.kind.value;
    } else {
      assert "codex/" + e.kind + "" == "codex/" + e.kind;
    }
  }

  // ----- which turn an item belongs to

  ghost predicate OpensTask(e: Envelope, task: string) {
    && e.payload.turnId == Some(task)
    && (e.kind == "turn_context"
        || (e.kind == "event_msg" && e.payload.kind in {Some("task_started"), Some("turn_started")}))
  }

  /** The end of this task, or of whichever task is running. */
  ghost predicate EndsTask(e: Envelope, task: string) {
    && e.kind == "event_msg" && e.payload.kind in {Some("task_complete"), Some("turn_complete"), Some("turn_aborted")}
    && (e.payload.turnId == None || e.payload.turnId == Some(task))
  }

  /** A task that was opened before this place, with no other opened and no end of it read since. */
  ghost predicate IsRunning(items: seq<Item>, n: nat, task: string)
    requires n <= |items|
  {
    exists s :: 0 <= s < n && OpensTask(items[s].envelope, task) && KeepsRunning(items, s, n, task)
  }

  ghost predicate KeepsRunning(items: seq<Item>, s: int, n: nat, task: string)
    requires n <= |items| && 0 <= s
  {
    forall j :: s < j < n ==> !EndsTask(items[j].envelope, task) && forall other :: !OpensTask(items[j].envelope, other)
  }

  lemma OpensExactly(e: Envelope, task: string)
    ensures OpensTask(e, task) <==> StartsTurn(e) && e.payload.turnId == Some(task)
    ensures StartsTurn(e) <==> exists other :: OpensTask(e, other)
  {
    if StartsTurn(e) {
      assert OpensTask(e, e.payload.turnId.value);
    }
  }

  lemma EndsExactly(e: Envelope, task: string)
    ensures EndsTask(e, task) <==> EndsTurn(e, Some(task))
    ensures EndsTask(e, task) ==> !StartsTurn(e)
  {
  }

  /** The task that the boundaries of the rollout leave running. */
  lemma {:induction false} RunningExactly(items: seq<Item>, n: nat, task: string)
    requires n <= |items|
    ensures TaskAt(items, n) == Some(task) <==> IsRunning(items, n, task)
  {
    hide OpensTask, EndsTask, StartsTurn, EndsTurn;
    if n > 0 {
      var e := items[n - 1].envelope;
      RunningExactly(items, n - 1, task);
      OpensExactly(e, task);
      EndsExactly(e, task);
      if TaskAt(items, n) == Some(task) {
        if StartsTurn(e) {
          assert OpensTask(items[n - 1].envelope, task) && KeepsRunning(items, n - 1, n, task);
        } else {
          StillRunning(items, n - 1, task);
        }
      }
      if s :| 0 <= s < n && OpensTask(items[s].envelope, task) && KeepsRunning(items, s, n, task) {
        if s < n - 1 {
          assert KeepsRunning(items, s, n - 1, task);
        }
      }
    }
  }

  lemma StillRunning(items: seq<Item>, n: nat, task: string)
    requires n < |items| && IsRunning(items, n, task)
    requires !EndsTask(items[n].envelope, task) && forall other :: !OpensTask(items[n].envelope, other)
    ensures IsRunning(items, n + 1, task)
  {
    var s :| 0 <= s < n && OpensTask(items[s].envelope, task) && KeepsRunning(items, s, n, task);
    assert KeepsRunning(items, s, n + 1, task);
  }

  /** The turn that the last conversation event before was given. */
  ghost predicate LastTurn(events: seq<Event>, turnId: string) {
    exists i :: && 0 <= i < |events| && events[i].topology.Some? && events[i].topology.value.turnId == turnId
                && forall j :: i < j < |events| ==> events[j].topology == None
  }

  lemma LastTurnAppended(events: seq<Event>, e: Event, turnId: string)
    ensures LastTurn(events + [e], turnId)
            <==> if e.topology.Some? then e.topology.value.turnId == turnId else LastTurn(events, turnId)
  {
    var more := events + [e];
    assert more[|events|] == e && forall j :: 0 <= j < |events| ==> more[j] == events[j];
    if LastTurn(events, turnId) && e.topology.None? {
      var i :| && 0 <= i < |events| && events[i].topology.Some? && events[i].topology.value.turnId == turnId
               && forall j :: i < j < |events| ==> events[j].topology == None;
      assert more[i].topology.Some? && forall j :: i < j < |more| ==> more[j].topology == None;
    }
    if LastTurn(more, turnId) {
      var i :| && 0 <= i < |more| && more[i].topology.Some? && more[i].topology.value.turnId == turnId
               && forall j :: i < j < |more| ==> more[j].topology == None;
      assert e.topology.Some? ==> i == |events|;
    }
  }

  /** The normalizer remembers the turn of its last conversation event, and takes running tasks for explicit. */
  lemma {:induction false} TurnsRemembered(reader: Reader, items: seq<Item>, n: nat)
    requires n <= |items|
    ensures var o := Normalize(reader, items, n);
            && (forall turnId :: o.turns.current == Some(turnId) <==> LastTurn(o.events, turnId))
            && o.turns.explicit == o.turns.active.Some?
  {
    hide VerdictOf, Counted, SourceKind, LastTurn, TurnFor, OrdinalOf, IsExplicit;
    if n == 0 {
      forall turnId
        ensures !LastTurn([], turnId)
      {
        NoTurn(turnId);
      }
    } else {
      TurnsRemembered(reader, items, n - 1);
      var o, more := Normalize(reader, items, n - 1), Normalize(reader, items, n);
      forall turnId
        ensures more.turns.current == Some(turnId) <==> LastTurn(more.events, turnId)
      {
        if |more.events| > |o.events| {
          LastTurnAppended(o.events, Last(more.events), turnId);
        }
      }
    }
  }

  lemma NoTurn(turnId: string)
    ensures !LastTurn([], turnId)
  {
  }

  /**
   * The turn of a conversation item: the running task's; else the one its metadata names; else, unless the user speaks,
   * that of the conversation before it; else one of its own. It is explicit when a task runs or metadata names it.
   */
  ghost predicate InItsTurn(items: seq<Item>, k: nat, before: seq<Event>, topology: Topology)
    requires k < |items|
  {
    var named := items[k].envelope.payload.passthroughTurnId;
    && (topology.explicit <==> named != None || exists task :: IsRunning(items, k, task))
    && (IsRunning(items, k, topology.turnId)
        || (&& (forall task :: !IsRunning(items, k, task))
            && match named
               case Some(turnId) => topology.turnId == turnId
               case None => InTurnBefore(items[k], before, topology)))
  }

  ghost predicate InTurnBefore(item: Item, before: seq<Event>, topology: Topology) {
    if topology.phase != UserPhase && exists turnId :: LastTurn(before, turnId) then LastTurn(before, topology.turnId)
    else topology.turnId == "codex-turn:" + item.index
  }

  lemma TurnExactly(reader: Reader, items: seq<Item>, k: nat, phase: Phase)
    requires k < |items| && BoundariesCompact(items) && Shows(reader, items, k, phase)
    ensures var o := Normalize(reader, items, k);
            var more := Normalize(reader, items, k + 1);
            && |more.events| == |o.events| + 1 && Last(more.events).topology.Some?
            && Last(more.events).topology.value.phase == phase
            && InItsTurn(items, k, o.events, Last(more.events).topology.value)
  {
    hide VerdictOf, Counted, SourceKind, LastTurn, OrdinalOf, Normalize, IsRunning, Shows;
    PhaseExactly(reader, items, k, phase);
    StepIs(reader, items, k);
    TurnsRemembered(reader, items, k);
    BoundedTask(reader, items, k);
    ResponsesBoundNothing(reader, items, k, phase);
    forall task
      ensures TaskAt(items, k) == Some(task) <==> IsRunning(items, k, task)
    {
      RunningExactly(items, k, task);
    }
    var o := Normalize(reader, items, k);
    var topology := TopologyFor(o.turns, items[k], phase);
    if o.turns.active.Some? {
      assert IsRunning(items, k, o.turns.active.value);
    } else if o.turns.current.Some? {
      assert LastTurn(o.events, o.turns.current.value);
    }
  }

  lemma StepIs(reader: Reader, items: seq<Item>, k: nat)
    requires k < |items|
    ensures Normalize(reader, items, k + 1)
            == Apply(Normalize(reader, items, k), items[k], VerdictOf(reader, items, k))
  {
  }

  lemma ResponsesBoundNothing(reader: Reader, items: seq<Item>, k: nat, phase: Phase)
    requires k < |items| && Shows(reader, items, k, phase)
    ensures forall t :: Before(t, items[k].envelope) == t
  {
  }

  /** So it is for every conversation item that is replayed. */
  lemma ReplayedInTurn(reader: Reader, envelopes: seq<Envelope>, k: nat, phase: Phase)
    requires k < |Active(envelopes)| && Shows(reader, Active(envelopes), k, phase)
    ensures var items := Active(envelopes);
            var o := Normalize(reader, items, k);
            var more := Normalize(reader, items, k + 1);
            && |more.events| == |o.events| + 1 && Last(more.events).topology.Some?
            && Last(more.events).topology.value.phase == phase
            && InItsTurn(items, k, o.events, Last(more.events).topology.value)
  {
    hide Active, Normalize, Shows, InItsTurn;
    ActiveBoundaries(envelopes);
    TurnExactly(reader, Active(envelopes), k, phase);
  }

  // ----- what is replayed

  /** An entry of a replacement history that a model can be given again. */
  ghost predicate CanReplay(entry: Option<Payload>) {
    match entry
    case None => false
    case Some(p) => p.kind != Some("compaction") && (p.kind == Some("message") ==> p.role != Some("developer"))
  }

  /** The items of a replacement history: exactly the entries that can be replayed, in order, as response items. */
  ghost predicate ReplaysHistory(boundary: Envelope, at: nat, history: seq<Option<Payload>>, items: seq<Item>,
      from: seq<nat>) {
    && |from| == |items| && (forall i, j :: 0 <= i < j < |from| ==> from[i] < from[j])
    && (forall j :: j in from <==> 0 <= j < |history| && CanReplay(history[j]))
    && forall i :: 0 <= i < |items|
         ==> from[i] < |history| && history[from[i]].Some?
             && items[i] == Item(Envelope(boundary.timestamp, "response_item", history[from[i]].value),
                                 Digits(at) + ":replacement:" + Digits(from[i]), false)
  }

  lemma {:induction false} ReplacementsExactly(boundary: Envelope, at: nat, history: seq<Option<Payload>>)
      returns (from: seq<nat>)
    ensures ReplaysHistory(boundary, at, history, Replacements(boundary, at, history), from)
  {
    hide Digits, ReplaysHistory, ReplacementAt;
    if history == [] {
      from := [];
      NothingReplayed(boundary, at);
    } else {
      var n := |history| - 1;
      var before := ReplacementsExactly(boundary, at, history[..n]);
      from := if CanReplay(history[n]) then before + [n] else before;
      ReplaysOneMore(boundary, at, history, Replacements(boundary, at, history[..n]), before);
    }
  }

  lemma NothingReplayed(boundary: Envelope, at: nat)
    ensures ReplaysHistory(boundary, at, [], [], [])
  {
  }

  lemma ReplaysOneMore(boundary: Envelope, at: nat, history: seq<Option<Payload>>, items: seq<Item>, from: seq<nat>)
    requires history != [] && ReplaysHistory(boundary, at, history[..|history| - 1], items, from)
    ensures var n := |history| - 1;
            ReplaysHistory(boundary, at, history, items + ReplacementAt(boundary, at, history, n),
              if CanReplay(history[n]) then from + [n] else from)
  {
    hide Digits;
    var n := |history| - 1;
    var more := items + ReplacementAt(boundary, at, history, n);
    var longer := if CanReplay(history[n]) then from + [n] else from;
    assert forall j :: 0 <= j < n ==> history[..n][j] == history[j];
    forall j
      ensures j in longer <==> 0 <= j < |history| && CanReplay(history[j])
    {
      assert j in longer <==> j in from || (j == n && CanReplay(history[n]));
    }
    forall i | 0 <= i < |from|
      ensures from[i] < n
    {
      assert from[i] in from;
    }
  }

  ghost predicate CompactsAt(envelopes: seq<Envelope>, at: int) {
    && 0 <= at < |envelopes| && envelopes[at].kind == "compacted" && envelopes[at].payload.replacement != None
  }

  ghost predicate ReplaysRows(envelopes: seq<Envelope>, from: nat, items: seq<Item>) {
    && from + |items| == |envelopes|
    && forall i :: 0 <= i < |items| ==> items[i] == Item(envelopes[from + i], Digits(from + i), false)
  }

  /** What is replayed without a compaction: every envelope. */
  lemma WholeReplay(envelopes: seq<Envelope>)
    requires forall at :: !CompactsAt(envelopes, at)
    ensures ReplaysRows(envelopes, 0, Active(envelopes))
  {
    if LastCompaction(envelopes).Some? {
      assert CompactsAt(envelopes, LastCompaction(envelopes).value);
    }
  }

  /** What is replayed with compactions: the last one as a boundary, its history, and every envelope behind it. */
  lemma CompactedReplay(envelopes: seq<Envelope>, at: nat) returns (from: seq<nat>)
    requires CompactsAt(envelopes, at) && forall later :: at < later ==> !CompactsAt(envelopes, later)
    ensures var history, items := envelopes[at].payload.replacement.value, Active(envelopes);
            var behind := 1 + |from|;
            && behind <= |items| && items[0] == Item(envelopes[at], Digits(at), true)
            && ReplaysHistory(envelopes[at], at, history, items[1..behind], from)
            && ReplaysRows(envelopes, at + 1, items[behind..])
  {
    forall k | at < k < |envelopes|
      ensures !Compacts(envelopes[k])
    {
      assert !CompactsAt(envelopes, k);
    }
    LastCompactionIs(envelopes, at);
    var history := envelopes[at].payload.replacement.value;
    from := ReplacementsExactly(envelopes[at], at, history);
    var head, middle, tail := [Item(envelopes[at], Digits(at), true)], Replacements(envelopes[at], at, history),
        Rows(envelopes, at + 1);
    assert Active(envelopes) == head + middle + tail;
    assert (head + middle + tail)[1..1 + |from|] == middle && (head + middle + tail)[1 + |from|..] == tail;
  }
}
