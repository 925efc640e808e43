/** The monitor loop of one service, step by step, as a refinement of `SupervisorSpec`. */
module MonitorThread {
  import opened Basics
  import opened Service
  import opened SupervisorSpec
  import ServiceInvariant
  import R = Reaper

  /** The record of one service while its monitor works on it: the shared runtime, the receiving
      end of its control channel, and the locals of the loop. */
  class ServiceMonitor {
    const cfg: ServiceConfig
    const exits: R.ExitRegistry
    var rt: Runtime
    var queue: seq<CtlMsg>
    var tracked: Option<int>
    var scheduled: bool
    var streak: u32
    var exited: bool
    var phase: Phase
    var now: nat
    ghost var journal: Journal

    ghost function View(): Ctx
      reads this, exits
    {
      Ctx(Svc(rt, queue, Monitor(tracked, scheduled, streak, exited, phase), journal), exits.Snapshot())
    }

    constructor (cfg: ServiceConfig, exits: R.ExitRegistry, rt: Runtime, queue: seq<CtlMsg>, mon: Monitor,
                 now: nat, ghost journal: Journal)
      ensures this.cfg == cfg && this.exits == exits && this.now == now
      ensures View() == Ctx(Svc(rt, queue, mon, journal), exits.Snapshot())
    {
      this.cfg, this.exits, this.rt, this.queue, this.now := cfg, exits, rt, queue, now;
      this.tracked, this.scheduled, this.streak, this.exited := mon.tracked, mon.scheduled, mon.streak, mon.exited;
      this.phase, this.journal := mon.phase, journal;
    }

    method PushEventInto(e: RuntimeEvent)
      modifies this`rt, this`journal
      ensures View() == old(View()).(s := Record(old(View()).s, e))
    {
      var events := rt.events;
      if |events| >= EVENT_RING_CAP {
        events := events[1..];
      }
      rt := rt.(events := events + [e]);
      journal := Event(journal, e);
    }

    method ApplyState(state: ServiceState, pid: Option<int>)
      modifies this`rt, this`journal
      ensures View() == old(View()).(s := SetState(old(View()).s, state, pid, now))
    {
      var before := rt.state;
      if before != state {
        PushEventInto(RuntimeEvent(now, StateChange, Some(before), Some(state), None));
      }
      rt := rt.(state := state);
      if pid.Some? {
        rt := rt.(pid := pid);
      } else if !state.KeepsPid() {
        rt := rt.(pid := None);
      }
      if state.Running? {
        if rt.runningSince.None? {
          rt := rt.(runningSince := Some(now));
        }
      } else {
        rt := rt.(runningSince := None);
      }
    }

    method CountRestart()
      modifies this`rt, this`journal
      ensures View() == old(View()).(s := BumpRestarts(old(View()).s, now))
    {
      rt := rt.(restarts := SatInc(rt.restarts));
      PushEventInto(RuntimeEvent(now, Restarted, None, None, None));
    }

    method CountLivenessFailure(reason: string)
      modifies this`rt, this`journal
      ensures View() == old(View()).(s := BumpLivenessFailures(old(View()).s, reason, now))
    {
      rt := rt.(livenessFailures := SatInc(rt.livenessFailures));
      PushEventInto(RuntimeEvent(now, LivenessFailed, None, None, Some(reason)));
    }

    method ScheduleLiveness()
      modifies this`scheduled
      ensures View() == old(View()).(s := Schedule(old(View()).s, cfg))
    {
      scheduled := cfg.livenessProbe.Some?;
    }

    method RunCommand(run: ShellRun) returns (code: int)
      modifies exits
      ensures (exits.Snapshot(), code) == RunShell(old(exits.Snapshot()), run)
    {
      match run
      case NoShell =>
        code := 1;
      case Ran(pid, c, hint, arrivals) =>
        for i := 0 to |arrivals|
          invariant exits.Snapshot() == R.PublishAll(old(exits.Snapshot()), arrivals[..i])
        {
          assert arrivals[..i + 1][..i] == arrivals[..i];
          exits.Record(arrivals[i]);
        }
        assert arrivals[..|arrivals|] == arrivals;
        exits.Record(R.Arrival(pid, c, hint));
        var taken := exits.TakeExit(pid);
        code := c;
    }

    method StopChild(env: StopEnv)
      modifies this`tracked, this`journal, exits
      ensures View() == StopTracked(old(View()), cfg, env)
    {
      var child := tracked;
      tracked := None;
      var stop := cfg.ResolveStop();
      if stop.Some? {
        journal := Commanded(journal, stop.value);
        var code := RunCommand(env.shell);
      }
      if child.Some? {
        journal := ChildStopped(journal, child.value);
        var code := exits.WaitTakeExit(child.value, env.arrivals);
      }
    }

    method FindUnmetDeps(states: map<string, ServiceState>) returns (r: Result<seq<string>, string>)
      ensures r == UnmetDeps(states, cfg.dependsOn)
      ensures r == Ok([]) <==> forall d :: d in cfg.dependsOn ==> d in states && states[d] in {Running, Succeeded}
    {
      ServiceInvariant.CheckPassesIff(states, cfg.dependsOn);
      var unmet: seq<string> := [];
      for i := 0 to |cfg.dependsOn|
        invariant UnmetDeps(states, cfg.dependsOn[..i]) == Ok(unmet)
      {
        var dep := cfg.dependsOn[i];
        assert cfg.dependsOn[..i + 1][..i] == cfg.dependsOn[..i];
        if dep !in states {
          UnmetDepsStops(states, cfg.dependsOn, i + 1);
          return Err(dep);
        }
        if !states[dep].Ready() {
          unmet := unmet + [dep];
        }
      }
      assert cfg.dependsOn[..|cfg.dependsOn|] == cfg.dependsOn;
      r := Ok(unmet);
    }

    method StartProcess(states: map<string, ServiceState>, force: bool, env: StartEnv) returns (ok: bool)
      modifies this, exits
      ensures now == old(now)
      ensures (View(), ok) == DoStart(old(View()), cfg, states, force, env, now)
    {
      journal := Entered(journal, tracked);
      if !rt.enabled {
        ApplyState(Disabled, None);
        return false;
      }
      var unmet := FindUnmetDeps(states[cfg.name := rt.state]);
      if unmet.Err? {
        return false;
      }
      if !force && unmet.value != [] {
        ApplyState(WaitingForDependency, None);
        return true;
      }
      ApplyState(Starting, None);
      ok := LaunchProcess(states, force, env);
    }

    method LaunchProcess(states: map<string, ServiceState>, force: bool, env: StartEnv) returns (ok: bool)
      modifies this, exits
      ensures now == old(now)
      ensures (View(), ok) == Launch(old(View()), cfg, states, force, env, now)
    {
      if !cfg.CanStart() || env.SpawnError? {
        return false;
      }
      var command := cfg.ResolveStart().value;
      journal := Spawned(journal, env.pid, force, command, cfg.dependsOn, states[cfg.name := rt.state]);
      var code := exits.WaitTakeExit(env.pid, env.arrivals);
      if cfg.daemon {
        if code.Some? {
          if cfg.startWaitSecs == 0 && cfg.IsSuccess(code.value) {
            ApplyState(Running, None);
            tracked := None;
            return true;
          }
          ApplyState(Failed, None);
          return false;
        }
        ApplyState(Running, Some(env.pid));
        tracked := Some(env.pid);
        journal := Adopted(journal, env.pid);
        return true;
      }
      if code.None? {
        var late := exits.WaitTakeExit(env.pid, env.late);
        ApplyState(Failed, None);
        return false;
      }
      tracked := None;
      ok := cfg.IsSuccess(code.value);
      ApplyState(if ok then Succeeded else Failed, None);
    }

    method StartReporting(states: map<string, ServiceState>, force: bool, env: StartEnv)
      modifies this, exits
      ensures now == old(now)
      ensures View() == StartOrFail(old(View()), cfg, states, force, env, now)
    {
      var ok := StartProcess(states, force, env);
      if !ok {
        ApplyState(Failed, None);
      }
    }

    /** Report an exit; `again` says that a restart has been announced. */
    method HandleExit(stopAll: bool, code: int) returns (again: bool)
      modifies this`rt, this`journal
      ensures now == old(now)
      ensures var (s, r) := OnProcessExit(old(View()).s, cfg, stopAll, code, now);
              View() == old(View()).(s := s) && again == r
    {
      ApplyState(Pending, None);
      var success := cfg.IsSuccess(code);
      if !cfg.daemon {
        ApplyState(if success then Succeeded else Failed, None);
        return false;
      }
      if !(cfg.restartPolicy.ShouldRestart(success) && rt.enabled && !stopAll) {
        ApplyState(if success then Succeeded else Failed, None);
        return false;
      }
      ApplyState(Restarting, None);
      CountRestart();
      again := true;
    }

    method CheckLiveness(states: map<string, ServiceState>, env: TickEnv)
      modifies this, exits
      ensures now == old(now)
      ensures View() == MaybeLiveness(old(View()), cfg, states, env, now)
    {
      if cfg.livenessProbe.None? {
        scheduled := false;
        return;
      }
      var state := rt.state;
      if !(state.Running? || state.Succeeded? || state.Failed?) || !rt.enabled {
        return;
      }
      if !scheduled {
        ScheduleLiveness();
        return;
      }
      if env.due {
        Probed(cfg.livenessProbe.value, states, env);
      }
    }

    method Probed(probe: Probe, states: map<string, ServiceState>, env: TickEnv)
      modifies this, exits
      ensures now == old(now)
      ensures View() == AfterProbe(old(View()), cfg, probe, states, env, now)
    {
      if env.probe.ProbeOk? {
        var state := rt.state;
        streak := 0;
        journal := ProbePassed(journal);
        if state.Failed? && !cfg.daemon {
          ApplyState(Succeeded, None);
        }
        return;
      }
      streak := SatInc(streak);
      journal := ProbeFailed(journal);
      CountLivenessFailure(env.probe.reason);
      if streak < probe.Threshold() {
        return;
      }
      RestartUnhealthy(states, env);
    }

    method RestartUnhealthy(states: map<string, ServiceState>, env: TickEnv)
      modifies this, exits
      ensures now == old(now)
      ensures View() == LivenessRestart(old(View()), cfg, states, env, now)
    {
      journal := ThresholdHit(journal, streak);
      streak := 0;
      ApplyState(Restarting, None);
      CountRestart();
      StopChild(env.stop);
      StartReporting(states, false, env.restart);
      ScheduleLiveness();
    }

    method Leave(env: StopEnv)
      modifies this, exits
      ensures now == old(now)
      ensures View() == LeaveLoop(old(View()), cfg, env, now)
    {
      StopChild(env);
      exited := true;
      ApplyState(Stopped, None);
    }

    method OnStop(env: StopEnv)
      modifies this, exits
      ensures now == old(now)
      ensures View() == HandleStop(old(View()), cfg, env, now)
    {
      journal := Accepted(journal, Stop);
      streak := 0;
      ApplyState(Stopping, None);
      StopChild(env);
      scheduled := false;
      if rt.enabled {
        ApplyState(Stopped, None);
      } else {
        ApplyState(Disabled, None);
      }
    }

    method OnRestart(states: map<string, ServiceState>, env: TickEnv)
      modifies this, exits
      ensures now == old(now)
      ensures View() == HandleRestart(old(View()), cfg, states, env, now)
    {
      journal := Accepted(journal, Restart);
      streak := 0;
      StopChild(env.stop);
      var restart := cfg.ResolveRestart();
      if restart.Some? {
        journal := Commanded(journal, restart.value);
        var code := RunCommand(env.shell);
        if cfg.daemon && cfg.IsSuccess(code) {
          ApplyState(Running, None);
          ScheduleLiveness();
          return;
        }
      }
      StartReporting(states, false, env.start);
      ScheduleLiveness();
    }

    method OnStart(states: map<string, ServiceState>, force: bool, env: TickEnv)
      modifies this, exits
      ensures now == old(now)
      ensures View() == HandleStart(old(View()), cfg, states, force, env, now)
    {
      if tracked.Some? {
        return;
      }
      journal := Accepted(journal, Start(force));
      streak := 0;
      StartReporting(states, force, env.start);
      ScheduleLiveness();
    }

    /** The tracked child has exited with `code`. */
    method Forget(code: int)
      requires tracked.Some?
      modifies this`tracked, this`streak, this`journal
      ensures var s := old(View()).s;
              View() == old(View()).(s := ResetStreak(Track(s, None).(journal := ExitTaken(s.journal, old(tracked).value, code))))
    {
      journal := ExitTaken(journal, tracked.value, code);
      tracked := None;
      streak := 0;
    }

    method LookAtChild(stopAll: bool)
      modifies this, exits
      ensures now == old(now)
      ensures View() == Look(old(View()), cfg, stopAll, now)
    {
      if tracked.None? {
        phase := if stopAll then Watching else Retrying;
        return;
      }
      var code := exits.TakeExit(tracked.value);
      if code.None? {
        phase := Watching;
        return;
      }
      Forget(code.value);
      var again := HandleExit(stopAll, code.value);
      if again {
        phase := BackingOff(cfg);
        return;
      }
      ScheduleLiveness();
      phase := Watching;
    }

    /** Try again what the back-off or the missing dependencies put off. */
    method StartAgain(states: map<string, ServiceState>, env: StartEnv)
      modifies this, exits
      ensures now == old(now)
      ensures View() == Resume(old(View()), cfg, states, env, now)
    {
      StartReporting(states, false, env);
      ScheduleLiveness();
    }

    method RetryWaiting(states: map<string, ServiceState>, env: StartEnv)
      modifies this, exits
      ensures now == old(now)
      ensures View() == Retry(old(View()), cfg, states, env, now)
    {
      if rt.state.WaitingForDependency? {
        StartAgain(states, env);
      }
    }

    /** The head of the loop. */
    method ReceiveOrLeave(stopAll: bool, env: StopEnv)
      modifies this, exits
      ensures now == old(now)
      ensures View() == Receive(old(View()), cfg, stopAll, env, now)
    {
      if stopAll {
        Leave(env);
      } else if queue != [] {
        phase := Handling(queue[0]);
        queue := queue[1..];
      } else {
        phase := Looking;
      }
    }

    method Handle(msg: CtlMsg, states: map<string, ServiceState>, env: TickEnv)
      modifies this, exits
      ensures now == old(now)
      ensures View() == HandleMessage(old(View()), msg, cfg, states, env, now)
    {
      match msg
      case Quit => Leave(env.stop);
      case Stop => OnStop(env.stop);
      case Restart => OnRestart(states, env);
      case Start(force) => OnStart(states, force, env);
    }

    /** One step of the loop; after a back-off, `cfg` is the definition read before it. */
    method Step(states: map<string, ServiceState>, stopAll: bool, env: TickEnv)
      requires phase.BackingOff? ==> phase.cfg == cfg
      modifies this, exits
      ensures now == old(now)
      ensures View() == Tick(old(View()), cfg, states, stopAll, env, now)
    {
      if exited {
        return;
      }
      match phase
      case Top =>
        ReceiveOrLeave(stopAll, env.stop);
      case Handling(msg) =>
        Handle(msg, states, env);
        phase := Top;
      case Looking =>
        LookAtChild(stopAll);
      case BackingOff(_) =>
        StartAgain(states, env.start);
        phase := Watching;
      case Retrying =>
        RetryWaiting(states, env.start);
        phase := Watching;
      case Watching =>
        phase := if stopAll then Top else Probing;
      case Probing =>
        CheckLiveness(states, env);
        phase := Top;
    }
  }

  /** After a back-off only the definition read before it counts. */
  lemma BackOffIgnores(c: Ctx, a: ServiceConfig, b: ServiceConfig, states: map<string, ServiceState>, stopAll: bool,
                       env: TickEnv, now: nat)
    requires c.s.mon.phase.BackingOff?
    ensures Tick(c, a, states, stopAll, env, now) == Tick(c, b, states, stopAll, env, now)
  {
  }

  /** An unknown name among the first `k` decides the result. */
  lemma {:induction false} UnmetDepsStops(states: map<string, ServiceState>, deps: seq<string>, k: nat)
    requires k <= |deps| && UnmetDeps(states, deps[..k]).Err?
    ensures UnmetDeps(states, deps) == UnmetDeps(states, deps[..k])
    decreases |deps| - k
  {
    if k < |deps| {
      assert deps[..k + 1][..k] == deps[..k];
      UnmetDepsStops(states, deps, k + 1);
    } else {
      assert deps[..k] == deps;
    }
  }
}
