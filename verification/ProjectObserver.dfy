/**
 * The polling observer. Its methods are asynchronous, so each is given as the pieces that run without waiting;
 * timeouts, passes under way and calls that wait for a pass are part of the state.
 */
module ProjectObserver {
  import opened Outcomes
  import opened Sequences

  datatype Status = Stopped | Idle | Syncing | Error

  /** The last call of start or stop that had an effect. */
  datatype LastCall = NeverCalled | Started | StopCalled

  /** A polling loop that reschedules itself once a pass has settled. */
  datatype Loop = Loop(lifecycle: nat, pass: nat)

  datatype Observer = Observer(
    running: bool,
    lifecycle: nat,
    timer: Option<nat>,
    active: Option<nat>,
    controller: nat,
    status: Status,
    timeouts: multiset<nat>, // pending timeouts, by the lifecycle they were set for
    loops: set<Loop>,
    live: map<nat, nat>, // passes under way, with the controller whose signal they follow
    nextPass: nat,
    aborted: set<nat>, // controllers
    starts: map<nat, nat>, // start calls waiting for a pass, by lifecycle
    stops: map<nat, Option<nat>>,
    last: LastCall)

  const FRESH := Observer(false, 0, None, None, 0, Stopped, multiset{}, {}, map[], 0, {}, map[], map[], NeverCalled)

  datatype Action =
    | StartCall
    | StartResume(lifecycle: nat)
    | StopCall
    | StopResume(lifecycle: nat)
    | Tick
    | TimerFires(lifecycle: nat)
    | Settle(pass: nat, ok: bool)
    | Reschedule(loop: Loop)

  predicate Enabled(s: Observer, action: Action) {
    match action
    case StartResume(l) => l in s.starts && s.starts[l] !in s.live
    case StopResume(l) => l in s.stops && (s.stops[l].Some? ==> s.stops[l].value !in s.live)
    case TimerFires(l) => l in s.timeouts
    case Settle(pass, _) => pass in s.live
    case Reschedule(loop) => loop in s.loops && loop.pass !in s.live
    case _ => true
  }

  function Scheduled(s: Observer, l: nat): Observer {
    if !s.running || l != s.lifecycle then s
    else s.(timer := Some(l), timeouts := s.timeouts + multiset{l})
  }

  /** A start that is still the last call takes effect. */
  function Begun(s: Observer, l: nat): Observer {
    if l != s.lifecycle then s
    else Scheduled(s.(running := true, controller := s.controller + 1, status := Idle), l)
  }

  /** Concurrent callers share one pass; a pass begun under an aborted signal reports nothing. */
  function Ticked(s: Observer): Observer {
    if s.active.Some? then s
    else s.(active := Some(s.nextPass), live := s.live[s.nextPass := s.controller], nextPass := s.nextPass + 1,
            status := if s.controller in s.aborted then s.status else Syncing)
  }

  function StartCalled(s: Observer): Observer {
    if s.running then s
    else
      var l := s.lifecycle + 1;
      var called := s.(lifecycle := l, last := Started);
      if s.active.Some? then called.(starts := s.starts[l := s.active.value]) else Begun(called, l)
  }

  function Halted(s: Observer): Observer {
    s.(lifecycle := s.lifecycle + 1, last := StopCalled, running := false, timer := None,
       timeouts := if s.timer.Some? then s.timeouts - multiset{s.timer.value} else s.timeouts,
       aborted := s.aborted + {s.controller}, stops := s.stops[s.lifecycle + 1 := s.active])
  }

  function HaltFinished(s: Observer, l: nat): Observer {
    s.(stops := s.stops - {l}, status := if l == s.lifecycle then Stopped else s.status)
  }

  function Fired(s: Observer, l: nat): Observer {
    var fired := s.(timeouts := s.timeouts - multiset{l});
    if !s.running || l != s.lifecycle then fired
    else
      var ticked := Ticked(fired.(timer := None));
      ticked.(loops := s.loops + {Loop(l, ticked.active.value)})
  }

  function Settled(s: Observer, pass: nat, ok: bool): Observer
    requires pass in s.live
  {
    s.(live := s.live - {pass}, active := None,
       status := if s.live[pass] in s.aborted then s.status else if ok then Idle else Error)
  }

  function Step(s: Observer, action: Action): Observer
    requires Enabled(s, action)
  {
    match action
    case StartCall => StartCalled(s)
    case StartResume(l) => Begun(s.(starts := s.starts - {l}), l)
    case StopCall => Halted(s)
    case StopResume(l) => HaltFinished(s, l)
    case Tick => Ticked(s)
    case TimerFires(l) => Fired(s, l)
    case Settle(pass, ok) => Settled(s, pass, ok)
    case Reschedule(loop) => Scheduled(s.(loops := s.loops - {loop}), loop.lifecycle)
  }

  function Run(actions: seq<Action>): Option<Observer> {
    if actions == [] then Some(FRESH)
    else
      var before := Run(actions[..|actions| - 1]);
      if before.Some? && Enabled(before.value, Last(actions)) then Some(Step(before.value, Last(actions))) else None
  }

  // ----- the class

  class CodexProjectObserver {
    var running: bool
    var lifecycle: nat
    var timer: Option<nat>
    var active: Option<nat>
    var controller: nat
    var status: Status
    // what the event loop still holds
    var timeouts: multiset<nat>
    var loops: set<Loop>
    var live: map<nat, nat>
    var nextPass: nat
    var aborted: set<nat>
    var starts: map<nat, nat>
    var stops: map<nat, Option<nat>>
    ghost var last: LastCall

    ghost function State(): Observer
      reads this
    {
      Observer(running, lifecycle, timer, active, controller, status, timeouts, loops, live, nextPass, aborted, starts,
          stops, last)
    }

    constructor ()
      ensures State() == FRESH
    {
      running, lifecycle, timer, active, controller, status := false, 0, None, None, 0, Stopped;
      timeouts, loops, live, nextPass, aborted, starts, stops, last := multiset{}, {}, map[], 0, {}, map[], map[],
          NeverCalled;
    }

    method Schedule(l: nat)
      modifies this
      ensures State() == Scheduled(old(State()), l)
    {
      if !running || l != lifecycle {
        return;
      }
      timer := Some(l);
      timeouts := timeouts + multiset{l};
    }

    method FinishStart(l: nat)
      modifies this
      ensures State() == Begun(old(State()), l)
    {
      if l != lifecycle {
        return;
      }
      running := true;
      controller := controller + 1;
      status := Idle;
      Schedule(l);
    }

    method Start()
      modifies this
      ensures State() == Step(old(State()), StartCall)
    {
      if running {
        return;
      }
      lifecycle := lifecycle + 1;
      last := Started;
      if active.Some? {
        starts := starts[lifecycle := active.value];
        return;
      }
      FinishStart(lifecycle);
    }

    method ResumeStart(l: nat)
      requires Enabled(State(), StartResume(l))
      modifies this
      ensures State() == Step(old(State()), StartResume(l))
    {
      starts := starts - {l};
      FinishStart(l);
    }

    method CancelTimer()
      modifies this`timer, this`timeouts
      ensures timer == None
      ensures timeouts == if old(timer).Some? then old(timeouts) - multiset{old(timer).value} else old(timeouts)
    {
      if timer.Some? {
        timeouts := timeouts - multiset{timer.value};
      }
      timer := None;
    }

    method Stop()
      modifies this
      ensures State() == Halted(old(State()))
    {
      CancelTimer();
      lifecycle := lifecycle + 1;
      last := StopCalled;
      running := false;
      aborted := aborted + {controller};
      stops := stops[lifecycle := active];
    }

    method ResumeStop(l: nat)
      requires Enabled(State(), StopResume(l))
      modifies this
      ensures State() == Step(old(State()), StopResume(l))
    {
      stops := stops - {l};
      if l == lifecycle {
        status := Stopped;
      }
    }

    method TickPass() returns (pass: nat)
      modifies this
      ensures State() == Ticked(old(State())) && Some(pass) == active
    {
      if active.Some? {
        return active.value;
      }
      pass := nextPass;
      live := live[pass := controller];
      nextPass := nextPass + 1;
      active := Some(pass);
      if controller !in aborted {
        status := Syncing;
      }
    }

    method FireTimer(l: nat)
      requires Enabled(State(), TimerFires(l))
      modifies this
      ensures State() == Fired(old(State()), l)
    {
      timeouts := timeouts - multiset{l};
      if !running || l != lifecycle {
        return;
      }
      timer := None;
      var pass := TickPass();
      loops := loops + {Loop(l, pass)};
    }

    method SettlePass(pass: nat, ok: bool)
      requires Enabled(State(), Settle(pass, ok))
      modifies this
      ensures State() == Step(old(State()), Settle(pass, ok))
    {
      if live[pass] !in aborted {
        status := if ok then Idle else Error;
      }
      live := live - {pass};
      active := None;
    }

    method ResumeLoop(loop: Loop)
      requires Enabled(State(), Reschedule(loop))
      modifies this
      ensures State() == Step(old(State()), Reschedule(loop))
    {
      loops := loops - {loop};
      Schedule(loop.lifecycle);
    }
  }

  // ----- what every state keeps

  ghost predicate OnePass(s: Observer) {
    && s.live.Keys == (if s.active.Some? then {s.active.value} else {})
    && (s.active.Some? ==> s.active.value < s.nextPass)
  }

  /** The only pending timeout is the one the observer knows of, set for the current lifecycle. */
  ghost predicate OneTimer(s: Observer) {
    && s.timeouts == (if s.timer.Some? then multiset{s.timer.value} else multiset{})
    && (s.timer.Some? ==> s.running && s.timer.value == s.lifecycle)
  }

  /** A running observer polls through its timer or through exactly one loop of the current lifecycle. */
  ghost predicate OneLoop(s: Observer) {
    && (forall loop :: loop in s.loops ==> loop.lifecycle <= s.lifecycle)
    && (forall a, b :: a in s.loops && b in s.loops && a.lifecycle == s.lifecycle && b.lifecycle == s.lifecycle
         ==> a == b)
    && (s.timer.Some? ==> forall loop :: loop in s.loops ==> loop.lifecycle < s.lifecycle)
    && (s.running && s.timer.None? ==> exists loop :: loop in s.loops && loop.lifecycle == s.lifecycle)
    && (!s.running ==> forall loop :: loop in s.loops && loop.lifecycle == s.lifecycle ==> false)
  }

  ghost predicate Signals(s: Observer) {
    && (forall c :: c in s.aborted ==> c <= s.controller)
    && (forall p :: p in s.live ==> s.live[p] <= s.controller)
  }

  /**
   * The observer runs as the last call of start or stop asks, once that call has resumed; after a stop no pass reports
   * except the one the stop waits for.
   */
  ghost predicate Calls(s: Observer) {
    && (forall l :: l in s.starts ==> l <= s.lifecycle)
    && (forall l :: l in s.stops ==> l <= s.lifecycle)
    && match s.last
       case NeverCalled => !s.running && s.lifecycle == 0 && s.starts == map[] && s.stops == map[]
       case Started => (s.running <==> s.lifecycle !in s.starts) && s.lifecycle !in s.stops
       case StopCalled =>
         && !s.running && s.lifecycle !in s.starts && s.controller in s.aborted
         && (forall p :: p in s.live && s.live[p] !in s.aborted
              ==> s.lifecycle in s.stops && s.stops[s.lifecycle].Some? && s.stops[s.lifecycle].value == p)
         && (s.lifecycle !in s.stops ==> s.status == Stopped)
  }

  ghost predicate Sound(s: Observer) {
    OnePass(s) && OneTimer(s) && OneLoop(s) && Signals(s) && Calls(s)
  }

  lemma BegunSound(s: Observer, l: nat)
    requires OnePass(s) && OneTimer(s) && OneLoop(s) && Signals(s) && !s.running && l <= s.lifecycle
    requires l != s.lifecycle ==> Calls(s)
    requires l == s.lifecycle ==> s.last == Started && l !in s.starts && l !in s.stops
    requires l == s.lifecycle
            ==> (forall k :: k in s.starts ==> k <= s.lifecycle) && (forall k :: k in s.stops ==> k <= s.lifecycle)
    ensures Sound(Begun(s, l))
  {
  }

  lemma StartSound(s: Observer)
    requires Sound(s)
    ensures Sound(StartCalled(s))
  {
    if !s.running && s.active.None? {
      var called := s.(lifecycle := s.lifecycle + 1, last := Started);
      BegunSound(called, s.lifecycle + 1);
    }
  }

  lemma ResumeStartSound(s: Observer, l: nat)
    requires Sound(s) && l in s.starts && s.starts[l] !in s.live
    ensures Sound(Begun(s.(starts := s.starts - {l}), l))
  {
    var resumed := s.(starts := s.starts - {l});
    if l == s.lifecycle {
      BegunSound(resumed, l);
    }
  }

  lemma StopSound(s: Observer)
    requires Sound(s)
    ensures Sound(Halted(s))
  {
  }

  lemma ResumeStopSound(s: Observer, l: nat)
    requires Sound(s) && Enabled(s, StopResume(l))
    ensures Sound(HaltFinished(s, l))
  {
  }

  lemma TickSound(s: Observer)
    requires Sound(s)
    ensures Sound(Ticked(s)) && Ticked(s).active.Some?
  {
  }

  lemma FireSound(s: Observer, l: nat)
    requires Sound(s) && l in s.timeouts
    ensures Sound(Fired(s, l))
  {
    assert s.timer == Some(l);
    assert s.timeouts - multiset{l} == multiset{};
  }

  lemma SettleSound(s: Observer, pass: nat, ok: bool)
    requires Sound(s) && pass in s.live
    ensures Sound(Settled(s, pass, ok))
  {
  }

  lemma RescheduleSound(s: Observer, loop: Loop)
    requires Sound(s) && loop in s.loops
    ensures Sound(Scheduled(s.(loops := s.loops - {loop}), loop.lifecycle))
  {
  }

  lemma StepSound(s: Observer, action: Action)
    requires Sound(s) && Enabled(s, action)
    ensures Sound(Step(s, action))
  {
    hide Sound, StartCalled, Begun, Halted, HaltFinished, Ticked, Fired, Settled, Scheduled;
    match action
    case StartCall => StartSound(s);
    case StartResume(l) => ResumeStartSound(s, l);
    case StopCall => StopSound(s);
    case StopResume(l) => ResumeStopSound(s, l);
    case Tick => TickSound(s);
    case TimerFires(l) => FireSound(s, l);
    case Settle(pass, ok) => SettleSound(s, pass, ok);
    case Reschedule(loop) => RescheduleSound(s, loop);
  }

  lemma {:induction false} AlwaysSound(actions: seq<Action>)
    requires Run(actions).Some?
    ensures Sound(Run(actions).value)
  {
    hide Sound, Step;
    if actions == [] {
      FreshSound();
    } else {
      AlwaysSound(actions[..|actions| - 1]);
      StepSound(Run(actions[..|actions| - 1]).value, Last(actions));
    }
  }

  lemma FreshSound()
    ensures Sound(FRESH)
  {
  }

  // ----- over every interleaving

  lemma {:induction false} SetOfAtMostOne(m: map<nat, nat>, active: Option<nat>)
    requires m.Keys == if active.Some? then {active.value} else {}
    ensures |m| <= 1
  {
    assert |m| == |m.Keys|;
  }

  /** At most one pass is under way, and the observer knows it. */
  lemma AtMostOnePass(actions: seq<Action>)
    requires Run(actions).Some?
    ensures |Run(actions).value.live| <= 1
    ensures forall p :: p in Run(actions).value.live <==> Run(actions).value.active == Some(p)
  {
    hide Run;
    AlwaysSound(actions);
    SetOfAtMostOne(Run(actions).value.live, Run(actions).value.active);
  }

  /** A way in which polling goes on: a pending timeout, or a loop that will reschedule itself. */
  datatype Poll = ByTimer | ByLoop(loop: Loop)

  predicate Polls(s: Observer, poll: Poll) {
    match poll
    case ByTimer => s.lifecycle in s.timeouts
    case ByLoop(loop) => loop in s.loops && loop.lifecycle == s.lifecycle
  }

  /**
   * While the observer runs there is exactly one polling loop of its lifecycle, and while it does not there is none.
   */
  lemma ExactlyOneLoop(actions: seq<Action>)
    requires Run(actions).Some?
    ensures var s := Run(actions).value;
            && (s.running <==> exists poll :: Polls(s, poll))
            && (forall a, b :: Polls(s, a) && Polls(s, b) ==> a == b)
            && s.timeouts[s.lifecycle] <= 1
            && forall l :: l in s.timeouts ==> l == s.lifecycle
  {
    hide Run;
    AlwaysSound(actions);
    var s := Run(actions).value;
    if s.running {
      if s.timer.Some? {
        assert Polls(s, ByTimer);
      } else {
        var loop :| loop in s.loops && loop.lifecycle == s.lifecycle;
        assert Polls(s, ByLoop(loop));
      }
    }
  }

  /** A loop of an earlier lifecycle never sets a timer again, nor does any loop of an observer that was stopped. */
  lemma StaleLoopsEnd(s: Observer, loop: Loop)
    requires Enabled(s, Reschedule(loop))
    ensures loop.lifecycle != s.lifecycle || !s.running ==> Step(s, Reschedule(loop)) == s.(loops := s.loops - {loop})
    ensures loop.lifecycle == s.lifecycle && s.running ==> Step(s, Reschedule(loop)).timer == Some(s.lifecycle)
  {
  }

  /** Once every call has resumed, the observer is running or stopped according to the last one that had an effect. */
  lemma SettlesAsAsked(actions: seq<Action>)
    requires Run(actions).Some?
    requires Run(actions).value.starts == map[] && Run(actions).value.stops == map[]
    ensures var s := Run(actions).value;
            && (s.running <==> s.last == Started)
            && (s.last == StopCalled ==> s.status == Stopped && s.timeouts == multiset{} && s.timer.None?)
  {
    hide Run;
    AlwaysSound(actions);
  }

  /**
   * After a stop has resumed, no interleaving of ticks, timers and passes changes the reported status before the next
   * call.
   */
  lemma StoppedStaysSilent(actions: seq<Action>, later: seq<Action>)
    requires Run(actions + later).Some? && Run(actions).Some?
    requires Run(actions).value.last == StopCalled && Run(actions).value.lifecycle !in Run(actions).value.stops
    requires StartCall !in later && StopCall !in later
    ensures Run(actions + later).value.status == Stopped
  {
    hide Sound, Step;
    if later == [] {
      assert actions + later == actions;
      AlwaysSound(actions);
      StoppedStatus(Run(actions).value);
    } else {
      var init := later[..|later| - 1];
      assert (actions + later)[..|actions + later| - 1] == actions + init;
      SilentRun(actions, init);
      AlwaysSound(actions + later);
      StepKeepsStopped(Run(actions + init).value, Last(later));
      StoppedStatus(Run(actions + later).value);
    }
  }

  predicate HaltedFor(s: Observer, lifecycle: nat) {
    s.last == StopCalled && s.lifecycle == lifecycle && lifecycle !in s.stops
  }

  lemma StoppedStatus(s: Observer)
    requires Sound(s) && HaltedFor(s, s.lifecycle)
    ensures s.status == Stopped
  {
  }

  lemma StepKeepsStopped(s: Observer, action: Action)
    requires Enabled(s, action) && HaltedFor(s, s.lifecycle) && action != StartCall && action != StopCall
    ensures HaltedFor(Step(s, action), s.lifecycle)
  {
  }

  lemma {:induction false} SilentRun(actions: seq<Action>, later: seq<Action>)
    requires Run(actions + later).Some? && Run(actions).Some?
    requires HaltedFor(Run(actions).value, Run(actions).value.lifecycle)
    requires StartCall !in later && StopCall !in later
    ensures HaltedFor(Run(actions + later).value, Run(actions + later).value.lifecycle)
  {
    hide Step, HaltedFor;
    if later == [] {
      assert actions + later == actions;
    } else {
      var init := later[..|later| - 1];
      assert (actions + later)[..|actions + later| - 1] == actions + init;
      SilentRun(actions, init);
      StepKeepsStopped(Run(actions + init).value, Last(later));
      SameLifecycle(Step(Run(actions + init).value, Last(later)), Run(actions + init).value.lifecycle);
    }
  }

  lemma SameLifecycle(s: Observer, l: nat)
    requires HaltedFor(s, l)
    ensures HaltedFor(s, s.lifecycle)
  {
  }
}
