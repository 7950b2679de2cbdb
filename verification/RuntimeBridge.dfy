/** The runtime bridge: which runs are attached, bound and draining, and where their appends go. */
module RuntimeBridge {
  import opened Outcomes
  import opened Sequences
  import opened RuntimeAppend
  import Json = ExactJson

  const ADAPTER_ID := "dsh-rc1"

  datatype Handle = Handle(runId: string, adapterId: string)

  /** An append handler is known by a number. */
  datatype BridgeState = BridgeState(registrations: map<string, string>, handlers: map<string, nat>,
      draining: set<string>)

  const IDLE := BridgeState(map[], map[], {})

  /** The parts of the bridge's methods that run without waiting for the registrar. */
  datatype Action =
    | FinishAttach(runId: string, registrationId: string)
    | Drain(handle: Handle)
    | Bind(handle: Handle, handler: nat)
    | FinishDetach(runId: string)

  predicate Attached(st: BridgeState, handle: Handle) {
    handle.adapterId == ADAPTER_ID && handle.runId in st.registrations
  }

  function Step(st: BridgeState, action: Action): BridgeState {
    match action
    case FinishAttach(runId, registrationId) => st.(registrations := st.registrations[runId := registrationId])
    case Drain(handle) => if Attached(st, handle) then st.(draining := st.draining + {handle.runId}) else st
    case Bind(handle, handler) =>
      if Attached(st, handle)
          && handle.runId !in st.handlers then st.(handlers := st.handlers[handle.runId := handler]) else st
    case FinishDetach(runId) =>
      BridgeState(st.registrations - {runId}, st.handlers - {runId}, st.draining - {runId})
  }

  function Steps(st: BridgeState, actions: seq<Action>): BridgeState {
    if actions == [] then st else Step(Steps(st, actions[..|actions| - 1]), Last(actions))
  }

  /** The handler an append is given to. */
  function Submit(st: BridgeState, runId: string): Result<nat> {
    if runId in st.draining then Err("Rc1 runtime is draining and rejects new appends")
    else if runId !in st.handlers then Err("Rc1 append handler is not bound")
    else Ok(st.handlers[runId])
  }

  /** Only attached runs have handlers or drain. */
  predicate Consistent(st: BridgeState) {
    st.handlers.Keys <= st.registrations.Keys && st.draining <= st.registrations.Keys
  }

  class Projection {
    var sessions: map<Json.Text, Session>

    constructor (sessions: map<Json.Text, Session>)
      ensures this.sessions == sessions
    {
      this.sessions := sessions;
    }

    method ReadSession(nativeId: Json.Text) returns (r: Result<Session>)
      ensures r == if nativeId in sessions then Ok(sessions[nativeId]) else Err("ENOENT")
    {
      return if nativeId in sessions then Ok(sessions[nativeId]) else Err("ENOENT");
    }

    method ReplaceSession(nativeId: Json.Text, session: Session)
      modifies this
      ensures sessions == old(sessions)[nativeId := session]
    {
      sessions := sessions[nativeId := session];
    }
  }

  class Rc1RuntimeBridge {
    var registrations: map<string, string>
    var appendHandlers: map<string, nat>
    var drainingRuns: set<string>

    function State(): BridgeState
      reads this
    {
      BridgeState(registrations, appendHandlers, drainingRuns)
    }

    ghost predicate Valid()
      reads this
    {
      Consistent(State())
    }

    constructor ()
      ensures Valid() && State() == IDLE
    {
      registrations := map[];
      appendHandlers := map[];
      drainingRuns := {};
    }

    /** The check made before the registrar is asked to attach. */
    method BeginAttach(runId: string) returns (r: Result<()>)
      ensures r.Ok? <==> runId !in registrations
    {
      if runId in registrations {
        return Err("Rc1 runtime is already attached");
      }
      return Ok(());
    }

    method FinishAttach(runId: string, registrationId: string)
      requires Valid()
      modifies this
      ensures Valid() && State() == Step(old(State()), Action.FinishAttach(runId, registrationId))
    {
      registrations := registrations[runId := registrationId];
    }

    method Registration(handle: Handle) returns (r: Result<string>)
      ensures r == if Attached(State(), handle) then Ok(registrations[handle.runId])
              else Err("Rc1 runtime is not attached")
    {
      if handle.adapterId != ADAPTER_ID || handle.runId !in registrations {
        return Err("Rc1 runtime is not attached");
      }
      return Ok(registrations[handle.runId]);
    }

    method Drain(handle: Handle) returns (r: Result<string>)
      requires Valid()
      modifies this
      ensures Valid() && State() == Step(old(State()), Action.Drain(handle))
      ensures r.Ok? <==> Attached(old(State()), handle)
      ensures r.Ok? ==> r.value == registrations[handle.runId]
    {
      var registration :- Registration(handle);
      drainingRuns := drainingRuns + {handle.runId};
      return Ok(registration);
    }

    method FinishDetach(runId: string)
      requires Valid()
      modifies this
      ensures Valid() && State() == Step(old(State()), Action.FinishDetach(runId))
    {
      registrations := registrations - {runId};
      appendHandlers := appendHandlers - {runId};
      drainingRuns := drainingRuns - {runId};
    }

    method BindAppendHandler(handle: Handle, handler: nat) returns (r: Result<()>)
      requires Valid()
      modifies this
      ensures Valid() && State() == Step(old(State()), Action.Bind(handle, handler))
      ensures r.Ok? <==> Attached(old(State()), handle) && handle.runId !in old(appendHandlers)
    {
      var _ :- Registration(handle);
      if handle.runId in appendHandlers {
        return Err("Rc1 append handler is already bound");
      }
      appendHandlers := appendHandlers[handle.runId := handler];
      return Ok(());
    }

    method SubmitAppend(op: Operation) returns (r: Result<nat>)
      ensures r == Submit(State(), op.runId)
    {
      if op.runId in drainingRuns {
        return Err("Rc1 runtime is draining and rejects new appends");
      }
      if op.runId !in appendHandlers {
        return Err("Rc1 append handler is not bound");
      }
      return Ok(appendHandlers[op.runId]);
    }

    method ValidateAppend(handle: Handle, op: Operation, projection: Projection) returns (r: Result<(Session, Verdict)>)
      ensures r.Ok? <==>
                && Attached(State(), handle) && handle.runId == op.runId
                && op.nativeId in projection.sessions
                   && RuntimeAppend.ValidateAppend(projection.sessions[op.nativeId], op).Ok?
      ensures r.Ok?
              ==> r.value == (projection.sessions[op.nativeId],
              RuntimeAppend.ValidateAppend(projection.sessions[op.nativeId], op).value)
    {
      var _ :- Registration(handle);
      if handle.runId != op.runId {
        return Err("Rc1 append belongs to another runtime handle");
      }
      var session :- projection.ReadSession(op.nativeId);
      var verdict :- RuntimeAppend.ValidateAppend(session, op);
      return Ok((session, verdict));
    }

    /**
     * Applies an append to the projection: exactly the session it names changes, and only if the append is accepted.
     */
    method ApplyAppend(handle: Handle, op: Operation, projection: Projection) returns (r: Result<()>)
      modifies projection
      ensures State() == old(State())
      ensures r.Ok? <==>
                && Attached(State(), handle) && handle.runId == op.runId
                && op.nativeId in old(projection.sessions)
                   && RuntimeAppend.ApplyAppend(old(projection.sessions)[op.nativeId], op).Ok?
      ensures r.Ok?
              ==> projection.sessions
                  == old(projection.sessions)[op.nativeId := Deliver(old(projection.sessions)[op.nativeId], op)]
      ensures r.Err? ==> projection.sessions == old(projection.sessions)
    {
      var validated :- ValidateAppend(handle, op, projection);
      var (session, verdict) := validated;
      if verdict.alreadyApplied {
        assert projection.sessions == old(projection.sessions)[op.nativeId := session];
        return Ok(());
      }
      projection.ReplaceSession(op.nativeId,
          session.(updatedAt := op.observedAt, events := session.events + verdict.appended));
      return Ok(());
    }
  }

  // ----- over every run of the bridge

  lemma {:induction false} AlwaysConsistent(actions: seq<Action>)
    ensures Consistent(Steps(IDLE, actions))
  {
    if actions != [] {
      AlwaysConsistent(actions[..|actions| - 1]);
    }
  }

  predicate Detaches(actions: seq<Action>, runId: string) {
    exists k :: 0 <= k < |actions| && actions[k] == FinishDetach(runId)
  }

  /** A draining run refuses every append until it is detached, whatever else happens meanwhile. */
  lemma {:induction false} DrainingStaysClosed(st: BridgeState, actions: seq<Action>, runId: string)
    requires runId in st.draining && !Detaches(actions, runId)
    ensures runId in Steps(st, actions).draining && Submit(Steps(st, actions), runId).Err?
  {
    if actions != [] {
      var init := actions[..|actions| - 1];
      assert forall k :: 0 <= k < |init| ==> init[k] == actions[k];
      DrainingStaysClosed(st, init, runId);
    }
  }

  ghost predicate BoundAt(actions: seq<Action>, k: nat, runId: string, handler: nat) {
    && k < |actions|
    && actions[k] == Bind(Handle(runId, ADAPTER_ID), handler)
    && Attached(Steps(IDLE, actions[..k]), Handle(runId, ADAPTER_ID))
    && forall j :: k < j < |actions| ==> actions[j] != FinishDetach(runId)
  }

  /** The handler that receives an append was bound while the run was attached, and the run was not detached since. */
  lemma {:induction false} HandlerWasBound(actions: seq<Action>, runId: string) returns (k: nat)
    requires runId in Steps(IDLE, actions).handlers
    ensures BoundAt(actions, k, runId, Steps(IDLE, actions).handlers[runId])
  {
    var init := actions[..|actions| - 1];
    if runId in Steps(IDLE, init).handlers {
      k := HandlerWasBound(init, runId);
      assert forall j :: 0 <= j < |init| ==> init[j] == actions[j];
      assert init[..k] == actions[..k];
    } else {
      k := |actions| - 1;
    }
  }

  /** A second binding never replaces the first: the handler stays until the run is detached. */
  lemma {:induction false} FirstHandlerStays(st: BridgeState, actions: seq<Action>, runId: string)
    requires runId in st.handlers && !Detaches(actions, runId)
    ensures runId in Steps(st, actions).handlers && Steps(st, actions).handlers[runId] == st.handlers[runId]
  {
    if actions != [] {
      var init := actions[..|actions| - 1];
      assert forall k :: 0 <= k < |init| ==> init[k] == actions[k];
      FirstHandlerStays(st, init, runId);
    }
  }

  /** What the bridge knows of one run: its registration, its handler, and whether it drains. */
  datatype View = View(registration: Option<string>, handler: Option<nat>, drains: bool)

  function ViewOf(st: BridgeState, runId: string): View {
    View(if runId in st.registrations then Some(st.registrations[runId]) else None,
        if runId in st.handlers then Some(st.handlers[runId]) else None, runId in st.draining)
  }

  /** Only an action of the run itself, through a handle of this adapter, changes what the bridge knows of a run. */
  lemma OneRunChanges(st: BridgeState, action: Action, runId: string)
    ensures var before, after := ViewOf(st, runId), ViewOf(Step(st, action), runId);
            match action
            case FinishAttach(r, id) => after == if r == runId then before.(registration := Some(id)) else before
            case Drain(h) =>
              after == if h == Handle(runId, "dsh-rc1") && before.registration.Some? then before.(drains := true)
                       else before
            case Bind(h, handler) =>
              after == if h == Handle(runId, "dsh-rc1") && before.registration.Some? && before.handler.None?
                       then before.(handler := Some(handler)) else before
            case FinishDetach(r) => after == if r == runId then View(None, None, false) else before
  {
  }

  /** An append goes to a handler that was bound for its run and since then neither detached nor drained. */
  lemma SubmittedWasBound(actions: seq<Action>, runId: string) returns (k: nat)
    requires Submit(Steps(IDLE, actions), runId).Ok?
    ensures BoundAt(actions, k, runId, Submit(Steps(IDLE, actions), runId).value)
    ensures forall j :: k < j < |actions| ==> actions[j] != Drain(Handle(runId, "dsh-rc1"))
  {
    k := HandlerWasBound(actions, runId);
    forall j | k < j < |actions|
      ensures actions[j] != Drain(Handle(runId, "dsh-rc1"))
    {
      if actions[j] == Drain(Handle(runId, "dsh-rc1")) {
        DrainedSince(actions, k, j, runId, Steps(IDLE, actions).handlers[runId]);
      }
    }
  }

  lemma DrainedSince(actions: seq<Action>, k: nat, j: nat, runId: string, handler: nat)
    requires k < j < |actions| && BoundAt(actions, k, runId, handler)
    requires actions[j] == Drain(Handle(runId, "dsh-rc1"))
    ensures runId in Steps(IDLE, actions).draining
  {
    hide Steps, Step;
    StaysRegistered(actions, k, j, runId);
    var rest := actions[j + 1..];
    OneMoreStep(IDLE, actions, j);
    OneRunChanges(Steps(IDLE, actions[..j]), actions[j], runId);
    StepsJoin(IDLE, actions[..j + 1], rest);
    assert actions[..j + 1] + rest == actions;
    assert forall i :: 0 <= i < |rest| ==> rest[i] == actions[j + 1 + i];
    DrainingStaysClosed(Steps(IDLE, actions[..j + 1]), rest, runId);
  }

  lemma OneMoreStep(st: BridgeState, actions: seq<Action>, j: nat)
    requires j < |actions|
    ensures Steps(st, actions[..j + 1]) == Step(Steps(st, actions[..j]), actions[j])
  {
    assert actions[..j + 1][..j] == actions[..j] && Last(actions[..j + 1]) == actions[j];
  }

  lemma {:induction false} StaysRegistered(actions: seq<Action>, k: nat, j: nat, runId: string)
    requires k <= j <= |actions| && runId in Steps(IDLE, actions[..k]).registrations
    requires forall i :: k < i < |actions| ==> actions[i] != FinishDetach(runId)
    requires k < |actions| && actions[k] != FinishDetach(runId)
    ensures runId in Steps(IDLE, actions[..j]).registrations
  {
    hide Steps, Step;
    if k < j {
      StaysRegistered(actions, k, j - 1, runId);
      OneMoreStep(IDLE, actions, j - 1);
      OneRunChanges(Steps(IDLE, actions[..j - 1]), actions[j - 1], runId);
    }
  }

  lemma {:induction false} StepsJoin(st: BridgeState, a: seq<Action>, b: seq<Action>)
    ensures Steps(st, a + b) == Steps(Steps(st, a), b)
  {
    if b == [] {
      assert a + b == a;
    } else {
      assert (a + b)[..|a + b| - 1] == a + b[..|b| - 1];
      StepsJoin(st, a, b[..|b| - 1]);
    }
  }
}
