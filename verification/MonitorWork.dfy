/** What monitor work never does: touch the queue or the flag, spawn twice, or act on an exit it has not taken. */
module MonitorWork {
  import opened Basics
  import opened Service
  import opened SupervisorSpec
  import opened ServiceInvariant
  import R = Reaper

  /** The control queue, the enabled flag and the place outside or inside the loop are left alone. */
  ghost predicate Untouched(s: Svc, s': Svc) {
    s'.queue == s.queue && s'.rt.enabled == s.rt.enabled && s'.mon.exited == s.mon.exited
  }

  /** So many more attempts to start, and nothing else that is counted. */
  ghost predicate Counted(s: Svc, s': Svc, attempts: nat) {
    && Attempts(s'.journal) == Attempts(s.journal) + attempts
    && ChildStops(s'.journal) == ChildStops(s.journal) && Probes(s'.journal) == Probes(s.journal)
    && s'.rt.restarts == s.rt.restarts && s'.rt.livenessFailures == s.rt.livenessFailures
    && s'.mon.streak == s.mon.streak
  }

  /** Nothing but reporting. */
  ghost predicate Quiet(s: Svc, s': Svc, pid: int) {
    && Untouched(s, s') && Spawns(s'.journal) == Spawns(s.journal) && ActedOn(s'.journal, pid) == ActedOn(s.journal, pid)
    && Attempts(s'.journal) == Attempts(s.journal)
    && ChildStops(s'.journal) == ChildStops(s.journal) && Probes(s'.journal) == Probes(s.journal)
  }

  /** At most `most` spawns, and every exit of `pid` acted on in between was taken in between. */
  ghost predicate Within(c: Ctx, c': Ctx, most: nat, pid: int) {
    && Spawns(c.s.journal) <= Spawns(c'.s.journal) <= Spawns(c.s.journal) + most
    && ActedOn(c.s.journal, pid) <= ActedOn(c'.s.journal, pid)
    && ActedOn(c'.s.journal, pid) - ActedOn(c.s.journal, pid) <= R.Takes(c'.reg.trace, pid) - R.Takes(c.reg.trace, pid)
  }

  ghost predicate Works(c: Ctx, c': Ctx, most: nat, pid: int) {
    Untouched(c.s, c'.s) && Within(c, c', most, pid)
  }

  // ----- the registry -----

  lemma {:induction false} PublishAllTakesNothing(r: R.Registry, arrivals: seq<R.Arrival>, pid: int)
    ensures R.Takes(R.PublishAll(r, arrivals).trace, pid) == R.Takes(r.trace, pid)
    decreases |arrivals|
  {
    if arrivals != [] {
      PublishAllTakesNothing(r, arrivals[..|arrivals| - 1], pid);
    }
  }

  lemma WaitTakes(r: R.Registry, p: int, arrivals: seq<R.Arrival>, pid: int)
    ensures R.Takes(R.WaitTake(r, p, arrivals).0.trace, pid) >= R.Takes(r.trace, pid)
  {
    PublishAllTakesNothing(r, arrivals, pid);
  }

  lemma RunShellTakes(r: R.Registry, run: ShellRun, pid: int)
    ensures R.Takes(RunShell(r, run).0.trace, pid) >= R.Takes(r.trace, pid)
  {
    if run.Ran? {
      PublishAllTakesNothing(r, run.arrivals, pid);
      var r1 := R.PublishAll(r, run.arrivals);
      assert R.Takes(R.Publish(r1, R.Arrival(run.pid, run.code, run.hint)).trace, pid) == R.Takes(r1.trace, pid);
    }
  }

  // ----- starting -----

  lemma SetStateIsQuiet(s: Svc, state: ServiceState, pid': Option<int>, now: nat, pid: int)
    ensures Quiet(s, SetState(s, state, pid', now), pid) && Counted(s, SetState(s, state, pid', now), 0)
  {
  }

  lemma OutcomeIsQuiet(s: Svc, cfg: ServiceConfig, child: int, code: Option<int>, now: nat, pid: int)
    ensures Quiet(s, DaemonOutcome(s, cfg, child, code, now).0, pid) && Counted(s, DaemonOutcome(s, cfg, child, code, now).0, 0)
    ensures Quiet(s, JobOutcome(s, cfg, code, now).0, pid) && Counted(s, JobOutcome(s, cfg, code, now).0, 0)
  {
    SetStateIsQuiet(s, Running, Some(child), now, pid);
    SetStateIsQuiet(s, Running, None, now, pid);
    SetStateIsQuiet(s, Failed, None, now, pid);
    SetStateIsQuiet(Track(s, None), Failed, None, now, pid);
    SetStateIsQuiet(Track(s, None), Succeeded, None, now, pid);
  }

  /** The spawn itself: exactly one when the command resolves and the process starts. */
  lemma LaunchWorks(c: Ctx, cfg: ServiceConfig, states: map<string, ServiceState>, force: bool, env: StartEnv, now: nat, pid: int)
    ensures var c', spawned := Launch(c, cfg, states, force, env, now).0, if cfg.CanStart() && env.Child? then 1 else 0;
            Works(c, c', spawned, pid) && Spawns(c'.s.journal) == Spawns(c.s.journal) + spawned && Counted(c.s, c'.s, 0)
  {
    if cfg.CanStart() && env.Child? {
      var s := c.s.(journal := Spawned(c.s.journal, env.pid, force, cfg.ResolveStart().value, cfg.dependsOn,
                                       states[cfg.name := c.s.rt.state]));
      var (reg, code) := R.WaitTake(c.reg, env.pid, env.arrivals);
      WaitTakes(c.reg, env.pid, env.arrivals, pid);
      WaitTakes(reg, env.pid, env.late, pid);
      OutcomeIsQuiet(s, cfg, env.pid, code, now, pid);
    }
  }

  /** Whether a start gets past its checks. */
  ghost predicate Launches(s: Svc, cfg: ServiceConfig, states: map<string, ServiceState>, force: bool) {
    var unmet := UnmetDeps(states[cfg.name := s.rt.state], cfg.dependsOn);
    s.rt.enabled && unmet.Ok? && (force || unmet.value == [])
  }

  lemma DoStartWorks(c: Ctx, cfg: ServiceConfig, states: map<string, ServiceState>, force: bool, env: StartEnv, now: nat, pid: int)
    ensures var c' := DoStart(c, cfg, states, force, env, now).0;
            var spawned := if Launches(c.s, cfg, states, force) && cfg.CanStart() && env.Child? then 1 else 0;
            Works(c, c', spawned, pid) && Spawns(c'.s.journal) == Spawns(c.s.journal) + spawned && Counted(c.s, c'.s, 1)
  {
    var s := c.s.(journal := Entered(c.s.journal, c.s.mon.tracked));
    SetStateIsQuiet(s, if s.rt.enabled then WaitingForDependency else Disabled, None, now, pid);
    SetStateIsQuiet(s, Starting, None, now, pid);
    LaunchWorks(Ctx(SetState(s, Starting, None, now), c.reg), cfg, states, force, env, now, pid);
  }

  lemma StartOrFailWorks(c: Ctx, cfg: ServiceConfig, states: map<string, ServiceState>, force: bool, env: StartEnv, now: nat, pid: int)
    ensures var c' := StartOrFail(c, cfg, states, force, env, now);
            var spawned := if Launches(c.s, cfg, states, force) && cfg.CanStart() && env.Child? then 1 else 0;
            Works(c, c', spawned, pid) && Spawns(c'.s.journal) == Spawns(c.s.journal) + spawned && Counted(c.s, c'.s, 1)
  {
    DoStartWorks(c, cfg, states, force, env, now, pid);
    SetStateIsQuiet(DoStart(c, cfg, states, force, env, now).0.s, Failed, None, now, pid);
  }

  // ----- messages -----

  lemma CommandWorks(c: Ctx, command: Option<string>, run: ShellRun, pid: int)
    ensures Works(c, Command(c, command, run).0, 0, pid) && Counted(c.s, Command(c, command, run).0.s, 0)
  {
    RunShellTakes(c.reg, run, pid);
  }

  lemma StopTrackedWorks(c: Ctx, cfg: ServiceConfig, env: StopEnv, pid: int)
    ensures Works(c, StopTracked(c, cfg, env), 0, pid)
  {
    CommandWorks(c, cfg.ResolveStop(), env.shell, pid);
    if c.s.mon.tracked.Some? {
      WaitTakes(Command(c, cfg.ResolveStop(), env.shell).0.reg, c.s.mon.tracked.value, env.arrivals, pid);
    }
  }

  /** Leaving the loop spawns nothing and acts on nothing; it keeps queue and flag. */
  lemma LeaveLoopWorks(c: Ctx, cfg: ServiceConfig, env: StopEnv, now: nat, pid: int)
    ensures var c' := LeaveLoop(c, cfg, env, now);
            Within(c, c', 0, pid) && c'.s.rt.enabled == c.s.rt.enabled && c'.s.queue == c.s.queue
  {
    StopTrackedWorks(c, cfg, env, pid);
    var s := StopTracked(c, cfg, env).s;
    SetStateIsQuiet(s.(mon := s.mon.(exited := true)), Stopped, None, now, pid);
  }

  lemma HandleStopWorks(c: Ctx, cfg: ServiceConfig, env: StopEnv, now: nat, pid: int)
    ensures Works(c, HandleStop(c, cfg, env, now), 0, pid)
  {
    var c0 := c.(s := SetState(Accept(c.s, Stop), Stopping, None, now));
    SetStateIsQuiet(Accept(c.s, Stop), Stopping, None, now, pid);
    StopTrackedWorks(c0, cfg, env, pid);
    var s1 := StopTracked(c0, cfg, env).s;
    var s2 := s1.(mon := s1.mon.(scheduled := false));
    SetStateIsQuiet(s2, if s2.rt.enabled then Stopped else Disabled, None, now, pid);
  }

  lemma HandleRestartWorks(c: Ctx, cfg: ServiceConfig, states: map<string, ServiceState>, env: TickEnv, now: nat, pid: int)
    ensures Works(c, HandleRestart(c, cfg, states, env, now), 1, pid)
  {
    var c0 := c.(s := Accept(c.s, Restart));
    StopTrackedWorks(c0, cfg, env.stop, pid);
    var c1 := StopTracked(c0, cfg, env.stop);
    CommandWorks(c1, cfg.ResolveRestart(), env.shell, pid);
    var c2 := Command(c1, cfg.ResolveRestart(), env.shell).0;
    SetStateIsQuiet(c2.s, Running, None, now, pid);
    StartOrFailWorks(c2, cfg, states, false, env.start, now, pid);
  }

  /** What a message may start. */
  function Starts(msg: CtlMsg): nat {
    if msg.Start? || msg.Restart? then 1 else 0
  }

  lemma HandleMessageWorks(c: Ctx, msg: CtlMsg, cfg: ServiceConfig, states: map<string, ServiceState>,
                           env: TickEnv, now: nat, pid: int)
    requires !msg.Quit?
    ensures Works(c, HandleMessage(c, msg, cfg, states, env, now), Starts(msg), pid)
  {
    match msg
    case Stop => HandleStopWorks(c, cfg, env.stop, now, pid);
    case Restart => HandleRestartWorks(c, cfg, states, env, now, pid);
    case Start(force) => StartOrFailWorks(c.(s := Accept(c.s, msg)), cfg, states, force, env.start, now, pid);
  }

  // ----- exits and probes -----

  lemma OnProcessExitIsQuiet(s: Svc, cfg: ServiceConfig, stopAll: bool, code: int, now: nat, pid: int)
    ensures Quiet(s, OnProcessExit(s, cfg, stopAll, code, now).0, pid)
  {
    var s1 := SetState(s, Pending, None, now);
    SetStateIsQuiet(s, Pending, None, now, pid);
    SetStateIsQuiet(s1, if cfg.IsSuccess(code) then Succeeded else Failed, None, now, pid);
    SetStateIsQuiet(s1, Restarting, None, now, pid);
  }

  /** The one place where an exit is acted on: it has just been taken. */
  lemma LookWorks(c: Ctx, cfg: ServiceConfig, stopAll: bool, now: nat, pid: int)
    ensures Works(c, Look(c, cfg, stopAll, now), 0, pid)
  {
    if c.s.mon.tracked.Some? {
      var child := c.s.mon.tracked.value;
      var code := R.Take(c.reg, child).1;
      if code.Some? {
        var s := ResetStreak(Track(c.s, None).(journal := ExitTaken(c.s.journal, child, code.value)));
        OnProcessExitIsQuiet(s, cfg, stopAll, code.value, now, pid);
      }
    }
  }

  lemma LivenessRestartWorks(c: Ctx, cfg: ServiceConfig, states: map<string, ServiceState>, env: TickEnv, now: nat, pid: int)
    ensures Works(c, LivenessRestart(c, cfg, states, env, now), 1, pid)
  {
    var s1 := ResetStreak(c.s.(journal := ThresholdHit(c.s.journal, c.s.mon.streak)));
    var s2 := BumpRestarts(SetState(s1, Restarting, None, now), now);
    SetStateIsQuiet(s1, Restarting, None, now, pid);
    StopTrackedWorks(c.(s := s2), cfg, env.stop, pid);
    StartOrFailWorks(StopTracked(c.(s := s2), cfg, env.stop), cfg, states, false, env.restart, now, pid);
  }

  lemma FailureIsQuiet(s: Svc, reason: string, now: nat, pid: int)
    ensures var s' := AfterFailure(s, reason, now);
            && Untouched(s, s') && Spawns(s'.journal) == Spawns(s.journal) && ActedOn(s'.journal, pid) == ActedOn(s.journal, pid)
            && Probes(s'.journal) == Probes(s.journal) + 1 && Attempts(s'.journal) == Attempts(s.journal)
  {
  }

  lemma FailedProbeWorks(c: Ctx, cfg: ServiceConfig, states: map<string, ServiceState>, env: TickEnv, reason: string, now: nat, pid: int)
    ensures Works(c, LivenessRestart(c.(s := AfterFailure(c.s, reason, now)), cfg, states, env, now), 1, pid)
    ensures Works(c, c.(s := AfterFailure(c.s, reason, now)), 1, pid)
  {
    FailureIsQuiet(c.s, reason, now, pid);
    LivenessRestartWorks(c.(s := AfterFailure(c.s, reason, now)), cfg, states, env, now, pid);
  }

  lemma MaybeLivenessWorks(c: Ctx, cfg: ServiceConfig, states: map<string, ServiceState>, env: TickEnv, now: nat, pid: int)
    ensures Works(c, MaybeLiveness(c, cfg, states, env, now), 1, pid)
  {
    if env.probe.ProbeFail? {
      FailedProbeWorks(c, cfg, states, env, env.probe.reason, now, pid);
    } else {
      SetStateIsQuiet(ResetStreak(c.s.(journal := ProbePassed(c.s.journal))), Succeeded, None, now, pid);
    }
  }

  // ----- one step -----

  /** The start a monitor is committed to: it has one in hand, is backing off before one, or has read the stop
      flag as clear for a retry or a probe. */
  function Committed(s: Svc): nat {
    if s.mon.exited then 0
    else
      match s.mon.phase
      case Handling(msg) => Starts(msg)
      case BackingOff(_) => 1
      case Retrying => 1
      case Probing => 1
      case _ => 0
  }

  /** Past the head of the loop, and but for a quit, a step spawns at most what was committed. */
  lemma TickWorks(c: Ctx, cfg: ServiceConfig, states: map<string, ServiceState>, stopAll: bool, env: TickEnv, now: nat, pid: int)
    requires !c.s.mon.exited && !c.s.mon.phase.Top? && c.s.mon.phase != Handling(Quit)
    ensures Works(c, Tick(c, cfg, states, stopAll, env, now), Committed(c.s), pid)
  {
    match c.s.mon.phase
    case Handling(msg) => HandleMessageWorks(c, msg, cfg, states, env, now, pid);
    case Looking => LookWorks(c, cfg, stopAll, now, pid);
    case BackingOff(was) => StartOrFailWorks(c, was, states, false, env.start, now, pid);
    case Retrying => StartOrFailWorks(c, cfg, states, false, env.start, now, pid);
    case Watching =>
    case Probing => MaybeLivenessWorks(c, cfg, states, env, now, pid);
  }

  /** Every step, wherever it starts: no more spawns than committed, no exit acted on but a taken one, and the
      enabled flag as before. */
  lemma TickIsWithin(c: Ctx, cfg: ServiceConfig, states: map<string, ServiceState>, stopAll: bool, env: TickEnv, now: nat, pid: int)
    ensures var c' := Tick(c, cfg, states, stopAll, env, now);
            Within(c, c', Committed(c.s), pid) && c'.s.rt.enabled == c.s.rt.enabled
  {
    if !c.s.mon.exited {
      if c.s.mon.phase.Top? || c.s.mon.phase == Handling(Quit) {
        LeaveLoopWorks(c, cfg, env.stop, now, pid);
      } else {
        TickWorks(c, cfg, states, stopAll, env, now, pid);
      }
    }
  }

  /** The places of an iteration, in order: where a monitor stands after each step. */
  lemma TickMovesOn(c: Ctx, cfg: ServiceConfig, states: map<string, ServiceState>, stopAll: bool, env: TickEnv, now: nat)
    requires !c.s.mon.exited
    ensures var mon, mon' := c.s.mon, Tick(c, cfg, states, stopAll, env, now).s.mon;
            && (mon'.exited <==> (mon.phase.Top? && stopAll) || mon.phase == Handling(Quit))
            && (mon.phase.Top? && !stopAll ==> mon'.phase == if c.s.queue == [] then Looking else Handling(c.s.queue[0]))
            && (mon.phase.Looking? && mon.tracked.None? ==> mon'.phase == if stopAll then Watching else Retrying)
            && (mon.phase.Looking? && mon.tracked.Some? ==> mon'.phase.Watching? || mon'.phase == BackingOff(cfg))
            && (mon.phase.BackingOff? || mon.phase.Retrying? ==> mon'.phase.Watching?)
            && (mon.phase.Watching? ==> mon'.phase == if stopAll then Top else Probing)
            && (mon.phase.Probing? || (mon.phase.Handling? && !mon'.exited) ==> mon'.phase.Top?)
  {
    if (c.s.mon.phase.Top? && stopAll) || c.s.mon.phase == Handling(Quit) {
      LeaveLoopWorks(c, cfg, env.stop, now, 0);
    } else {
      if !c.s.mon.phase.Top? {
        TickWorks(c, cfg, states, stopAll, env, now, 0);
      }
    }
  }
}
