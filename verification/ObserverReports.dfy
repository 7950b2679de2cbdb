/** What the observer reports: its status over every interleaving, told by the last action that reported one. */
module ObserverReports {
  import opened Outcomes
  import opened Sequences
  import opened ProjectObserver

  /**
   * The actions that report a status: a start that takes effect, the end of the last stop, and the begin and the end of
   * a pass under a signal that is not aborted.
   */
  ghost predicate Reports(s: Observer, action: Action, status: Status) {
    match status
    case Stopped => action == StopResume(s.lifecycle)
    case Idle =>
      || (action == StartCall && !s.running && s.active == None)
      || action == StartResume(s.lifecycle)
      || (exists pass :: pass in s.live && s.live[pass] !in s.aborted && action == Settle(pass, true))
    case Error => exists pass :: pass in s.live && s.live[pass] !in s.aborted && action == Settle(pass, false)
    case Syncing =>
      && s.active == None && s.controller !in s.aborted
      && (action == Tick || (action == TimerFires(s.lifecycle) && s.running))
  }

  lemma StatusStep(s: Observer, action: Action, status: Status)
    requires Enabled(s, action)
    ensures Reports(s, action, status) ==> Step(s, action).status == status
    ensures (forall any :: !Reports(s, action, any)) ==> Step(s, action).status == s.status
  {
    if action.Settle? && s.live[action.pass] !in s.aborted {
      assert Reports(s, action, if action.ok then Idle else Error);
    }
    assert action.StartCall? && !s.running && s.active == None ==> Reports(s, action, Idle);
    assert action == StartResume(s.lifecycle) ==> Reports(s, action, Idle);
    assert action == StopResume(s.lifecycle) ==> Reports(s, action, Stopped);
    if (action == Tick || (action == TimerFires(s.lifecycle) && s.running)) && s.active == None
        && s.controller !in s.aborted {
      assert Reports(s, action, Syncing);
    }
  }

  /** The k-th action of a run reports the status. */
  ghost predicate ReportsAt(actions: seq<Action>, k: int, status: Status) {
    0 <= k < |actions| && Run(actions[..k]).Some? && Reports(Run(actions[..k]).value, actions[k], status)
  }

  ghost predicate LastReport(actions: seq<Action>, k: int, status: Status) {
    && 0 <= k < |actions| && ReportsAt(actions, k, status)
    && forall j, any :: k < j < |actions| ==> !ReportsAt(actions, j, any)
  }

  ghost predicate NeverReported(actions: seq<Action>) {
    forall j, any :: 0 <= j < |actions| ==> !ReportsAt(actions, j, any)
  }

  lemma ReportsBefore(actions: seq<Action>, k: int, status: Status)
    requires 0 <= k < |actions| - 1
    ensures ReportsAt(actions, k, status) <==> ReportsAt(actions[..|actions| - 1], k, status)
  {
    assert actions[..|actions| - 1][..k] == actions[..k];
  }

  /** The status is the one last reported, and stopped before anything is. */
  lemma {:induction false} StatusIsLastReport(actions: seq<Action>) returns (k: int)
    requires Run(actions).Some?
    ensures if k < 0 then NeverReported(actions) && Run(actions).value.status == Stopped
            else LastReport(actions, k, Run(actions).value.status)
  {
    hide Reports, Step, Enabled, ReportsAt;
    if actions == [] {
      k := -1;
    } else {
      var n := |actions| - 1;
      var init := actions[..n];
      k := StatusIsLastReport(init);
      forall j, any | 0 <= j < n
        ensures ReportsAt(actions, j, any) <==> ReportsAt(init, j, any)
      {
        ReportsBefore(actions, j, any);
      }
      StatusStepAt(actions, Run(actions).value.status);
      if any :| ReportsAt(actions, n, any) {
        StatusStepAt(actions, any);
        k := n;
      }
    }
  }

  lemma StatusStepAt(actions: seq<Action>, status: Status)
    requires actions != [] && Run(actions).Some?
    ensures var n := |actions| - 1;
            && (ReportsAt(actions, n, status) ==> Run(actions).value.status == status)
            && Run(actions[..n]).Some?
            && ((forall any :: !ReportsAt(actions, n, any))
                 ==> Run(actions).value.status == Run(actions[..n]).value.status)
  {
    hide Reports, Step;
    var n := |actions| - 1;
    var s := Run(actions[..n]).value;
    StatusStep(s, actions[n], status);
    if forall any :: !ReportsAt(actions, n, any) {
      forall any
        ensures !Reports(s, actions[n], any)
      {
        assert !ReportsAt(actions, n, any);
      }
    }
  }

  /** The signal of a running observer is not aborted, so that the passes it begins report. */
  lemma {:induction false} RunningReports(actions: seq<Action>)
    requires Run(actions).Some? && Run(actions).value.running
    ensures Run(actions).value.controller !in Run(actions).value.aborted
  {
    hide Sound, Step;
    if actions != [] {
      var init := actions[..|actions| - 1];
      AlwaysSound(init);
      SignalsOf(Run(init).value);
      if Run(init).value.running {
        RunningReports(init);
      }
      RunningStep(Run(init).value, Last(actions));
    }
  }

  lemma RunningStep(s: Observer, action: Action)
    requires Enabled(s, action) && forall c :: c in s.aborted ==> c <= s.controller
    requires s.running ==> s.controller !in s.aborted
    ensures Step(s, action).running ==> Step(s, action).controller !in Step(s, action).aborted
  {
  }

  lemma SignalsOf(s: Observer)
    requires Sound(s)
    ensures forall c :: c in s.aborted ==> c <= s.controller
  {
  }
}
