/** Where requests, messages, exits and probes lead: what a caller can rely on, case by case. */
module Outcomes {
  import opened Basics
  import opened Service
  import opened SupervisorSpec
  import opened ServiceInvariant
  import opened SupervisorRuns
  import opened DependencyGating
  import opened MonitorWork
  import R = Reaper

  // ----- starting -----

  /** A start is one attempt; it stops no child, runs no probe and counts no restart. */
  lemma StartIsOneAttempt(c: Ctx, cfg: ServiceConfig, states: map<string, ServiceState>, force: bool, env: StartEnv, now: nat)
    ensures Counted(c.s, StartOrFail(c, cfg, states, force, env, now).s, 1)
  {
    StartOrFailWorks(c, cfg, states, force, env, now, 0);
  }

  /** Everything a start needs before it spawns, and a spawn that works. */
  ghost predicate Spawning(c: Ctx, cfg: ServiceConfig, states: map<string, ServiceState>, force: bool, env: StartEnv) {
    && c.s.rt.enabled && DepsAllow(states[cfg.name := c.s.rt.state], cfg.dependsOn, force)
    && (cfg.startCmd.Some? || cfg.cmd.Some?) && env.Child?
  }

  /** The exit of the new child, if it comes within the waiting time. */
  function EarlyExit(c: Ctx, env: StartEnv): Option<int> {
    if env.Child? then R.WaitTake(c.reg, env.pid, env.arrivals).1 else None
  }

  ghost predicate StaysUp(cfg: ServiceConfig, code: Option<int>) {
    cfg.daemon && (code.None? || (cfg.startWaitSecs == 0 && code.value in cfg.successExitCodes))
  }

  ghost predicate FinishesWell(cfg: ServiceConfig, code: Option<int>) {
    !cfg.daemon && code.Some? && code.value in cfg.successExitCodes
  }

  /** Where a start ends. Running: a daemon that stayed up, or one that forked and left
      successfully when no waiting time is configured. Succeeded: a job that finished well in time.
      Waiting: an enabled, unforced service with known dependencies that are not all ready.
      Failed: everything else, a disabled service included. Only a daemon that stayed up becomes the tracked
      child; a daemon that forked and left, and a job that has exited, leave none. */
  lemma StartEndsIn(c: Ctx, cfg: ServiceConfig, states: map<string, ServiceState>, force: bool, env: StartEnv, now: nat)
    ensures var s := StartOrFail(c, cfg, states, force, env, now).s;
            var view, code := states[cfg.name := c.s.rt.state], EarlyExit(c, env);
            var up := Spawning(c, cfg, states, force, env) && StaysUp(cfg, code);
            var done := Spawning(c, cfg, states, force, env) && FinishesWell(cfg, code);
            var waits := c.s.rt.enabled && DepsAllow(view, cfg.dependsOn, true) && !DepsAllow(view, cfg.dependsOn, force);
            var left := Spawning(c, cfg, states, force, env) && code.Some? && (up || !cfg.daemon);
            && s.rt.state == (if up then Running else if done then Succeeded else if waits then WaitingForDependency else Failed)
            && s.mon.tracked == (if up && code.None? then Some(env.pid) else if left then None else c.s.mon.tracked)
  {
    var view := states[cfg.name := c.s.rt.state];
    DepsAllowIff(view, cfg.dependsOn, force);
    DepsAllowIff(view, cfg.dependsOn, true);
    var s := c.s.(journal := Entered(c.s.journal, c.s.mon.tracked));
  }

  // ----- an exit of the tracked child -----

  /** The restart policy in terms of the exit code. */
  ghost predicate WantsRestart(cfg: ServiceConfig, code: int) {
    cfg.restartPolicy.Always? || (cfg.restartPolicy.OnError? && code !in cfg.successExitCodes)
  }

  /** When the tracked child has exited, its exit is taken. A restart is announced, and counted, exactly for an
      enabled daemon whose policy asks for it outside shutdown; otherwise the exit code alone decides the state. */
  lemma ExitLeadsTo(c: Ctx, cfg: ServiceConfig, stopAll: bool, now: nat)
    requires c.s.mon.tracked.Some? && c.s.mon.tracked.value in c.reg.exits
    ensures var c', code := Look(c, cfg, stopAll, now), c.reg.exits[c.s.mon.tracked.value];
            var s := c'.s;
            var again := cfg.daemon && c.s.rt.enabled && !stopAll && WantsRestart(cfg, code);
            && s.mon.tracked.None? && c.s.mon.tracked.value !in c'.reg.exits && s.mon.streak == 0
            && s.mon.phase == (if again then BackingOff(cfg) else Watching)
            && s.rt.restarts == (if again then SatInc(c.s.rt.restarts) else c.s.rt.restarts)
            && s.rt.state == (if again then Restarting else if code in cfg.successExitCodes then Succeeded else Failed)
            && (!again ==> s.rt.pid.None?)
            && Attempts(s.journal) == Attempts(c.s.journal) && Spawns(s.journal) == Spawns(c.s.journal)
  {
    var pid := c.s.mon.tracked.value;
    var s0 := ResetStreak(Track(c.s, None).(journal := ExitTaken(c.s.journal, pid, c.reg.exits[pid])));
    var s := SetState(s0, Pending, None, now);
    SetStateIsQuiet(s0, Pending, None, now, 0);
    SetStateIsQuiet(s, Restarting, None, now, 0);
    SetStateIsQuiet(s, Succeeded, None, now, 0);
    SetStateIsQuiet(s, Failed, None, now, 0);
  }

  /** After the back-off there is exactly one attempt, under the definition read at the exit, whether or not the
      stop flag has risen in between. */
  lemma BackOffLeadsTo(c: Ctx, cfg: ServiceConfig, states: map<string, ServiceState>, stopAll: bool, env: TickEnv, now: nat)
    requires !c.s.mon.exited && c.s.mon.phase.BackingOff?
    ensures var s := Tick(c, cfg, states, stopAll, env, now).s;
            && s.mon.phase.Watching? && Counted(c.s, s, 1)
            && Spawns(s.journal) == Spawns(c.s.journal)
                                    + if Spawning(c, c.s.mon.phase.cfg, states, false, env.start) then 1 else 0
  {
    var was := c.s.mon.phase.cfg;
    StartIsOneAttempt(c, was, states, false, env.start, now);
    StartSpawnsIff(c, was, states, false, env.start, now);
  }

  // ----- messages -----

  lemma StopTrackedStops(c: Ctx, cfg: ServiceConfig, env: StopEnv)
    ensures var s := StopTracked(c, cfg, env).s;
            && s.mon == c.s.mon.(tracked := None) && s.rt == c.s.rt && s.queue == c.s.queue
            && ChildStops(s.journal) == ChildStops(c.s.journal) + (if c.s.mon.tracked.Some? then 1 else 0)
            && Attempts(s.journal) == Attempts(c.s.journal) && Probes(s.journal) == Probes(c.s.journal)
            && Spawns(s.journal) == Spawns(c.s.journal)
  {
  }

  /** A stop takes the child, the pid, the probe schedule and the streak away, starts nothing, and
      leaves Stopped or, for a disabled service, Disabled. */
  lemma StopLeadsTo(c: Ctx, cfg: ServiceConfig, env: StopEnv, now: nat)
    ensures var s := HandleStop(c, cfg, env, now).s;
            && s.mon == Monitor(None, false, 0, c.s.mon.exited, c.s.mon.phase) && s.rt.pid.None? && s.queue == c.s.queue
            && s.rt.state == (if c.s.rt.enabled then Stopped else Disabled)
            && ChildStops(s.journal) == ChildStops(c.s.journal) + (if c.s.mon.tracked.Some? then 1 else 0)
            && Attempts(s.journal) == Attempts(c.s.journal) && Spawns(s.journal) == Spawns(c.s.journal)
  {
    var c0 := c.(s := SetState(Accept(c.s, Stop), Stopping, None, now));
    SetStateIsQuiet(Accept(c.s, Stop), Stopping, None, now, 0);
    StopTrackedStops(c0, cfg, env);
    var s1 := StopTracked(c0, cfg, env).s;
    var s2 := s1.(mon := s1.mon.(scheduled := false));
    SetStateIsQuiet(s2, if s2.rt.enabled then Stopped else Disabled, None, now, 0);
  }

  /** The code a restart command yields; failing to run it counts as 1. */
  function CommandCode(run: ShellRun): int {
    if run.Ran? then run.code else 1
  }

  /** The restart command resolves, and succeeds for a daemon: no start follows. */
  ghost predicate RestartsByCommand(cfg: ServiceConfig, env: TickEnv) {
    && (cfg.restartCmd.Some? || cfg.cmd.Some? || (cfg.stopCmd.Some? && cfg.startCmd.Some?))
    && cfg.daemon && CommandCode(env.shell) in cfg.successExitCodes
  }

  /** A restart stops the child; a daemon whose restart command succeeds is Running without a tracked
      child and without a start attempt, and everything else gets exactly one attempt. */
  lemma RestartLeadsTo(c: Ctx, cfg: ServiceConfig, states: map<string, ServiceState>, env: TickEnv, now: nat)
    ensures var s := HandleRestart(c, cfg, states, env, now).s;
            var byCommand := RestartsByCommand(cfg, env);
            && ChildStops(s.journal) == ChildStops(c.s.journal) + (if c.s.mon.tracked.Some? then 1 else 0)
            && Attempts(s.journal) == Attempts(c.s.journal) + (if byCommand then 0 else 1)
            && (byCommand ==> s.rt.state.Running? && s.mon.tracked.None?)
            && s.mon.streak == 0 && s.rt.restarts == c.s.rt.restarts
  {
    var c0 := c.(s := Accept(c.s, Restart));
    StopTrackedStops(c0, cfg, env.stop);
    var c1 := StopTracked(c0, cfg, env.stop);
    var c2 := Command(c1, cfg.ResolveRestart(), env.shell).0;
    CommandWorks(c1, cfg.ResolveRestart(), env.shell, 0);
    SetStateIsQuiet(c2.s, Running, None, now, 0);
    StartIsOneAttempt(c2, cfg, states, false, env.start, now);
  }

  // ----- probes -----

  /** When the monitor has to probe. */
  ghost predicate ProbeDue(s: Svc, cfg: ServiceConfig, env: TickEnv) {
    && cfg.livenessProbe.Some? && s.rt.state in {Running, Succeeded, Failed}
    && s.rt.enabled && s.mon.scheduled && env.due
  }

  /** The streak after one more failure reaches the threshold. */
  ghost predicate Fires(s: Svc, cfg: ServiceConfig, env: TickEnv) {
    && ProbeDue(s, cfg, env) && env.probe.ProbeFail?
    && (s.mon.streak + 1 >= cfg.livenessProbe.value.failureThreshold || s.mon.streak == 0xFFFF_FFFF)
  }

  lemma LivenessRestartIsOneAttempt(c: Ctx, cfg: ServiceConfig, states: map<string, ServiceState>, env: TickEnv, now: nat)
    ensures var s := LivenessRestart(c, cfg, states, env, now).s;
            && Attempts(s.journal) == Attempts(c.s.journal) + 1 && Probes(s.journal) == Probes(c.s.journal)
            && s.rt.restarts == SatInc(c.s.rt.restarts) && s.rt.livenessFailures == c.s.rt.livenessFailures
            && s.mon.streak == 0
  {
    var s1 := ResetStreak(c.s.(journal := ThresholdHit(c.s.journal, c.s.mon.streak)));
    var s2 := BumpRestarts(SetState(s1, Restarting, None, now), now);
    SetStateIsQuiet(s1, Restarting, None, now, 0);
    StopTrackedStops(c.(s := s2), cfg, env.stop);
    StartIsOneAttempt(StopTracked(c.(s := s2), cfg, env.stop), cfg, states, false, env.restart, now);
  }

  /** A probe runs exactly when it is due. A failure is counted; it restarts the service, and counts
      a restart, exactly when it completes the threshold, and otherwise only lengthens the streak. A
      success clears the streak and turns a failed job into a succeeded one. */
  lemma ProbeLeadsTo(c: Ctx, cfg: ServiceConfig, states: map<string, ServiceState>, env: TickEnv, now: nat)
    ensures var s := MaybeLiveness(c, cfg, states, env, now).s;
            var due, fires := ProbeDue(c.s, cfg, env), Fires(c.s, cfg, env);
            && Probes(s.journal) == Probes(c.s.journal) + (if due then 1 else 0)
            && Attempts(s.journal) == Attempts(c.s.journal) + (if fires then 1 else 0)
            && s.rt.restarts == (if fires then SatInc(c.s.rt.restarts) else c.s.rt.restarts)
            && s.rt.livenessFailures == (if due && env.probe.ProbeFail? then SatInc(c.s.rt.livenessFailures) else c.s.rt.livenessFailures)
            && s.mon.streak == (if !due then c.s.mon.streak else if env.probe.ProbeOk? || fires then 0 else SatInc(c.s.mon.streak))
            && (!fires ==> s.mon.tracked == c.s.mon.tracked
                           && s.rt.state == if due && env.probe.ProbeOk? && c.s.rt.state.Failed? && !cfg.daemon
                                            then Succeeded else c.s.rt.state)
  {
    if env.probe.ProbeFail? {
      var s1 := AfterFailure(c.s, env.probe.reason, now);
      FailureIsQuiet(c.s, env.probe.reason, now, 0);
      LivenessRestartIsOneAttempt(c.(s := s1), cfg, states, env, now);
    }
  }

  // ----- requests -----

  lemma HeldIs(w: World, deps: seq<string>)
    requires forall d :: d in deps ==> d in w.services
    ensures var held, unmet := HeldBy(w, deps), UnmetDeps(w.States(), deps);
            unmet.Ok? && (forall d :: d in unmet.value <==> d in held) && (unmet.value == [] <==> held == {})
  {
    UnmetDepsMeaning(w.States(), deps);
    CheckPassesIff(w.States(), deps);
  }

  /** The dependencies that are neither Running nor Succeeded. */
  function HeldBy(w: World, deps: seq<string>): set<string>
    requires forall d :: d in deps ==> d in w.services
  {
    set d | d in deps && w.services[d].rt.state !in {Running, Succeeded}
  }

  /** A start request succeeds exactly for an enabled service with known dependencies whose monitor still
      listens; the reply lists exactly the dependencies that are not ready, and says whether they will be waited for. */
  lemma StartReplyMeaning(w: World, n: string, force: bool)
    requires Named(w)
    ensures var r := StartService(w, n, force).1;
            var askable := n in w.services && w.services[n].rt.enabled
                           && forall d :: d in Find(w.config, n).value.dependsOn ==> d in w.services;
            && (r.Ok? <==> askable && !w.services[n].mon.exited)
            && (r == Err(ChannelClosed(n)) <==> askable && w.services[n].mon.exited)
            && (r.Ok? ==>
                  var held := HeldBy(w, Find(w.config, n).value.dependsOn);
                  && (r.value.StartingNow? <==> held == {})
                  && (r.value.WaitingOn? <==> held != {} && !force)
                  && (held != {} ==> forall d :: d in r.value.unmet <==> d in held))
  {
    if n in w.services {
      var deps := Find(w.config, n).value.dependsOn;
      UnmetDepsMeaning(w.States(), deps);
      if forall d :: d in deps ==> d in w.services {
        HeldIs(w, deps);
      }
    }
  }

  /** Following a flag: Disabled exactly when it is off, one message appended for a monitor that still
      listens, the monitor left alone. */
  lemma FollowMeaning(s: Svc, enabled: bool, now: nat)
    ensures var s' := Follow(s, enabled, now);
            && s'.rt.enabled == enabled && (s'.rt.state.Disabled? <==> !enabled)
            && (enabled && !s.rt.state.Disabled? ==> s'.rt == s.rt.(enabled := true))
            && s'.queue == s.queue + (if s.mon.exited then [] else [if enabled then Start(false) else Stop])
            && s'.mon == s.mon
  {
  }

  /** A toggle succeeds exactly for a configured service whose override could be written and whose monitor
      still listens. The configured flag changes in any case. A successful write sets the flag in the override
      and at runtime, and touches no other service; a failed write leaves every service and the override as
      they were. */
  lemma ToggleMeaning(w: World, n: string, enabled: bool, written: bool)
    requires Named(w)
    ensures var (w', r) := SetEnabled(w, n, enabled, written);
            && (r.Ok? <==> n in w.services && written && !w.services[n].mon.exited)
            && (r == Err(ChannelClosed(n)) <==> n in w.services && written && w.services[n].mon.exited)
            && (n in w.services ==> Find(w'.config, n).Some? && Find(w'.config, n).value.enabled == enabled)
            && (if n in w.services && written then
                  && w'.services == w.services[n := Follow(w.services[n], enabled, w.now)]
                  && w'.overrides == w.overrides[n := enabled]
                else
                  w'.services == w.services && w'.overrides == w.overrides)
  {
    if n in w.services {
      FlagIsFound(w.config, n, enabled);
    }
  }

  lemma FlagIsFound(config: seq<ServiceConfig>, n: string, enabled: bool)
    requires Distinct(Names(config)) && n in NameSet(config)
    ensures var svc := Find(WithEnabled(config, n, enabled), n); svc.Some? && svc.value.enabled == enabled
  {
    var i := Position(config, n);
    WithEnabledIs(config, i, enabled);
    FindAt(config[i := config[i].(enabled := enabled)], i);
  }
}
