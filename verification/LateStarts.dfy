/** Shutdown does not keep a monitor from a start it is committed to: one run from boot for each way to be committed. */
module LateStarts {
  import opened Basics
  import opened Service
  import opened SupervisorSpec
  import opened SupervisorRuns
  import opened MonitorWork
  import opened SpawnSteps
  import opened Shutdown
  import Outcomes
  import SelfDependency
  import R = Reaper

  /** A plain daemon without dependencies. */
  ghost predicate PlainDaemon(svc: ServiceConfig) {
    svc.enabled && svc.daemon && svc.dependsOn == [] && svc.CanStart()
  }

  /** The service stands in the world as given, and no exit is held. */
  ghost predicate Stands(w: World, svc: ServiceConfig, state: ServiceState, tracked: Option<int>, phase: Phase, queue: seq<CtlMsg>) {
    && !w.stopAll && svc.name in w.services && Find(w.config, svc.name) == Some(svc) && w.reg.exits == map[]
    && StandsAs(w.services[svc.name], svc, state, tracked, phase, queue)
  }

  ghost predicate StandsAs(s: Svc, svc: ServiceConfig, state: ServiceState, tracked: Option<int>, phase: Phase, queue: seq<CtlMsg>) {
    && s.rt.enabled && s.rt.state == state && s.queue == queue && !s.mon.exited
    && s.mon.tracked == tracked && s.mon.phase == phase && s.mon.streak == 0
    && (s.mon.scheduled <==> svc.livenessProbe.Some? && state.Running?)
  }

  /** Every spawn succeeds and stays up. */
  ghost predicate StaysUp(env: TickEnv, pid: int) {
    env.start == Child(pid, [], [])
  }

  lemma Then(w: World, actions: seq<Action>, a: Action)
    ensures Run(w, actions + [a]) == Next(Run(w, actions), a)
  {
    assert (actions + [a])[..|actions|] == actions;
  }

  lemma TwoTicks(w: World, actions: seq<Action>, n: string, env: TickEnv)
    ensures var t := ATick(n, env);
            Run(w, actions + [t, t]) == TickService(TickService(Run(w, actions), n, env), n, env)
  {
    var t := ATick(n, env);
    Then(w, actions, t);
    Then(w, actions + [t], t);
    assert actions + [t] + [t] == actions + [t, t];
  }

  lemma ThreeTicks(w: World, actions: seq<Action>, n: string, env: TickEnv)
    ensures var t := ATick(n, env);
            Run(w, actions + [t, t, t]) == TickService(TickService(TickService(Run(w, actions), n, env), n, env), n, env)
  {
    var t := ATick(n, env);
    TwoTicks(w, actions, n, env);
    Then(w, actions + [t, t], t);
    assert actions + [t, t] + [t] == actions + [t, t, t];
  }

  // ----- the run, step by step -----

  lemma Booted(svc: ServiceConfig)
    requires PlainDaemon(svc)
    ensures Stands(Boot([svc], map[], [svc.name]), svc, Pending, None, Top, [Start(false)])
  {
    assert Names([svc])[0] == svc.name && [svc][0] == svc;
    assert [svc.name][..0] == [] && [] + [Start(false)] == [Start(false)];
    assert SendAll(Initial([svc], map[]), [], Start(false)) == Initial([svc], map[]);
  }

  lemma TakesMessage(w: World, svc: ServiceConfig, env: TickEnv)
    requires Stands(w, svc, Pending, None, Top, [Start(false)])
    ensures Stands(TickService(w, svc.name, env), svc, Pending, None, Handling(Start(false)), [])
  {
  }

  lemma StartRuns(c: Ctx, svc: ServiceConfig, states: map<string, ServiceState>, env: TickEnv, now: nat, pid: int)
    requires PlainDaemon(svc) && StaysUp(env, pid) && c.reg.exits == map[]
    requires StandsAs(c.s, svc, Pending, None, Handling(Start(false)), [])
    ensures var c' := Tick(c, svc, states, false, env, now);
            StandsAs(c'.s, svc, Running, Some(pid), Top, []) && c'.reg == c.reg
  {
    SelfDependency.NothingToTake(c.reg, pid);
  }

  lemma Started(w: World, svc: ServiceConfig, env: TickEnv, pid: int)
    requires PlainDaemon(svc) && StaysUp(env, pid)
    requires Stands(w, svc, Pending, None, Handling(Start(false)), [])
    ensures Stands(TickService(w, svc.name, env), svc, Running, Some(pid), Top, [])
  {
    StartRuns(Ctx(w.services[svc.name], w.reg), svc, w.States(), env, w.now, pid);
  }

  /** Boot and two steps: the daemon runs. */
  lemma BootRuns(svc: ServiceConfig, env: TickEnv, pid: int)
    requires PlainDaemon(svc) && StaysUp(env, pid)
    ensures var n, w, t := svc.name, Boot([svc], map[], [svc.name]), ATick(svc.name, env);
            && Stands(Run(w, [t]), svc, Pending, None, Handling(Start(false)), [])
            && Stands(Run(w, [t, t]), svc, Running, Some(pid), Top, [])
  {
    var w, t := Boot([svc], map[], [svc.name]), ATick(svc.name, env);
    Booted(svc);
    TakesMessage(w, svc, env);
    Then(w, [], t);
    Then(w, [t], t);
    assert [] + [t] == [t] && [t] + [t] == [t, t];
    Started(Run(w, [t]), svc, env, pid);
  }

  lemma Moves(w: World, svc: ServiceConfig, env: TickEnv, pid: int, from: Phase, to: Phase)
    requires Stands(w, svc, Running, Some(pid), from, [])
    requires (from == Top && to == Looking) || (from == Looking && to == Watching) || (from == Watching && to == Probing)
    ensures Stands(TickService(w, svc.name, env), svc, Running, Some(pid), to, [])
  {
  }

  /** The child has exited and the exit is there to be taken. */
  ghost predicate Exited(w: World, svc: ServiceConfig, pid: int, phase: Phase) {
    && !w.stopAll && svc.name in w.services && Find(w.config, svc.name) == Some(svc) && pid in w.reg.exits
    && StandsAs(w.services[svc.name], svc, Running, Some(pid), phase, [])
  }

  ghost predicate BacksOff(w: World, svc: ServiceConfig) {
    && !w.stopAll && svc.name in w.services && Find(w.config, svc.name) == Some(svc)
    && w.services[svc.name].rt.enabled && !w.services[svc.name].mon.exited
    && w.services[svc.name].mon.phase == BackingOff(svc)
  }

  lemma LooksAtExit(w: World, svc: ServiceConfig, env: TickEnv, pid: int)
    requires Exited(w, svc, pid, Top)
    ensures Exited(TickService(w, svc.name, env), svc, pid, Looking)
  {
  }

  lemma BeginsBackOff(w: World, svc: ServiceConfig, env: TickEnv, pid: int)
    requires PlainDaemon(svc) && svc.restartPolicy.Always? && Exited(w, svc, pid, Looking)
    ensures BacksOff(TickService(w, svc.name, env), svc)
  {
    Outcomes.ExitLeadsTo(Ctx(w.services[svc.name], w.reg), svc, false, w.now);
    LookWorks(Ctx(w.services[svc.name], w.reg), svc, false, w.now, pid);
  }

  // ----- the flag rises -----

  lemma ShutdownQueues(w: World, a: Action)
    requires a.AShutdown?
    ensures OnlyQueued(w, Next(w, a)) && Next(w, a).config == w.config
  {
    StopAllOnlyQueues(w, a.order);
  }

  lemma SpawnsThere(w: World, w': World, a: Action, n: string)
    requires OnlyQueued(w, w') && w'.config == w.config && StepSpawns(w, a, n)
    ensures SpawnsInStep(w', a, n) == 1
  {
    GuardsAgree(w, w', a, n);
    SpawnsInStepIff(w', a, n);
  }

  lemma Late(w: World, actions: seq<Action>, shutdown: Action, a: Action, n: string)
    requires shutdown.AShutdown? && StepSpawns(Run(w, actions), a, n)
    ensures SpawnsInStep(Run(w, actions + [shutdown]), a, n) == 1
  {
    var w1 := Run(w, actions);
    ShutdownQueues(w1, shutdown);
    SpawnsThere(w1, Next(w1, shutdown), a, n);
    Then(w, actions, shutdown);
  }

  lemma InHandSpawns(w: World, svc: ServiceConfig, env: TickEnv)
    requires PlainDaemon(svc) && env.start.Child?
    requires Stands(w, svc, Pending, None, Handling(Start(false)), [])
    ensures StepSpawns(w, ATick(svc.name, env), svc.name)
  {
  }

  /** A message has been received: the start in hand still happens. */
  lemma StartInHand(svc: ServiceConfig, env: TickEnv, pid: int, order: seq<string>)
    requires PlainDaemon(svc) && StaysUp(env, pid)
    ensures var n, t := svc.name, ATick(svc.name, env);
            SpawnsInStep(Run(Boot([svc], map[], [n]), [t] + [AShutdown(order)]), t, n) == 1
  {
    var n, w, t := svc.name, Boot([svc], map[], [svc.name]), ATick(svc.name, env);
    BootRuns(svc, env, pid);
    InHandSpawns(Run(w, [t]), svc, env);
    Late(w, [t], AShutdown(order), t, n);
  }

  lemma BackOffSpawns(w: World, svc: ServiceConfig, env: TickEnv)
    requires PlainDaemon(svc) && env.start.Child? && BacksOff(w, svc)
    ensures StepSpawns(w, ATick(svc.name, env), svc.name)
  {
  }

  lemma Reaped(w: World, svc: ServiceConfig, pid: int, exit: R.Arrival)
    requires Stands(w, svc, Running, Some(pid), Top, []) && exit.pid == pid
    ensures Exited(Next(w, AReap(exit)), svc, pid, Top)
  {
  }

  /** The exit is reaped while the daemon runs, and two steps later its restart is announced. */
  lemma ExitBacksOff(w: World, svc: ServiceConfig, env: TickEnv, pid: int, exit: R.Arrival)
    requires PlainDaemon(svc) && svc.restartPolicy.Always? && exit.pid == pid
    requires Stands(w, svc, Running, Some(pid), Top, [])
    ensures BacksOff(TickService(TickService(Next(w, AReap(exit)), svc.name, env), svc.name, env), svc)
  {
    var n, w1 := svc.name, Next(w, AReap(exit));
    Reaped(w, svc, pid, exit);
    LooksAtExit(w1, svc, env, pid);
    BeginsBackOff(TickService(w1, n, env), svc, env, pid);
  }

  lemma ExitBacksOffAfter(w: World, actions: seq<Action>, svc: ServiceConfig, env: TickEnv, pid: int, exit: R.Arrival)
    requires PlainDaemon(svc) && svc.restartPolicy.Always? && env.start.Child? && exit.pid == pid
    requires Stands(Run(w, actions), svc, Running, Some(pid), Top, [])
    ensures var t := ATick(svc.name, env);
            StepSpawns(Run(w, actions + [AReap(exit), t, t]), t, svc.name)
  {
    var t := ATick(svc.name, env);
    ExitBacksOff(Run(w, actions), svc, env, pid, exit);
    Then(w, actions, AReap(exit));
    TwoTicks(w, actions + [AReap(exit)], svc.name, env);
    assert actions + [AReap(exit)] + [t, t] == actions + [AReap(exit), t, t];
    BackOffSpawns(Run(w, actions + [AReap(exit), t, t]), svc, env);
  }

  /** The daemon has exited and its monitor backs off: the restart still happens. */
  lemma RestartAfterBackOff(svc: ServiceConfig, env: TickEnv, pid: int, exit: R.Arrival, order: seq<string>)
    requires PlainDaemon(svc) && svc.restartPolicy.Always? && StaysUp(env, pid) && exit.pid == pid
    ensures var n, t := svc.name, ATick(svc.name, env);
            SpawnsInStep(Run(Boot([svc], map[], [n]), [t, t] + [AReap(exit), t, t] + [AShutdown(order)]), t, n) == 1
  {
    var w, t := Boot([svc], map[], [svc.name]), ATick(svc.name, env);
    BootRuns(svc, env, pid);
    ExitBacksOffAfter(w, [t, t], svc, env, pid, exit);
    Late(w, [t, t] + [AReap(exit), t, t], AShutdown(order), t, svc.name);
  }

  // ----- a probe -----

  lemma Probes(w: World, svc: ServiceConfig, env: TickEnv, pid: int)
    requires Stands(w, svc, Running, Some(pid), Top, [])
    ensures Stands(TickService(TickService(TickService(w, svc.name, env), svc.name, env), svc.name, env),
                   svc, Running, Some(pid), Probing, [])
  {
    var n := svc.name;
    Moves(w, svc, env, pid, Top, Looking);
    var w1 := TickService(w, n, env);
    Moves(w1, svc, env, pid, Looking, Watching);
    Moves(TickService(w1, n, env), svc, env, pid, Watching, Probing);
  }

  /** A daemon whose first failed probe restarts it, and a step at which that happens. */
  ghost predicate FailsProbe(svc: ServiceConfig, env: TickEnv) {
    && svc.livenessProbe.Some? && svc.livenessProbe.value.Threshold() == 1
    && env.due && env.probe.ProbeFail? && env.restart.Child?
  }

  lemma FailedProbeSpawns(w: World, svc: ServiceConfig, env: TickEnv, pid: int)
    requires PlainDaemon(svc) && FailsProbe(svc, env) && Stands(w, svc, Running, Some(pid), Probing, [])
    ensures StepSpawns(w, ATick(svc.name, env), svc.name)
  {
  }

  lemma ProbeSpawnsAfter(w: World, actions: seq<Action>, svc: ServiceConfig, env: TickEnv, pid: int)
    requires PlainDaemon(svc) && FailsProbe(svc, env)
    requires Stands(Run(w, actions), svc, Running, Some(pid), Top, [])
    ensures var t := ATick(svc.name, env);
            StepSpawns(Run(w, actions + [t, t, t]), t, svc.name)
  {
    var t := ATick(svc.name, env);
    Probes(Run(w, actions), svc, env, pid);
    ThreeTicks(w, actions, svc.name, env);
    FailedProbeSpawns(Run(w, actions + [t, t, t]), svc, env, pid);
  }

  /** The monitor has found the flag clear and is about to probe: the probe fails, and the restart happens. */
  lemma RestartByProbe(svc: ServiceConfig, env: TickEnv, pid: int, order: seq<string>)
    requires PlainDaemon(svc) && FailsProbe(svc, env) && StaysUp(env, pid)
    ensures var n, t := svc.name, ATick(svc.name, env);
            SpawnsInStep(Run(Boot([svc], map[], [n]), [t, t] + [t, t, t] + [AShutdown(order)]), t, n) == 1
  {
    var w, t := Boot([svc], map[], [svc.name]), ATick(svc.name, env);
    BootRuns(svc, env, pid);
    ProbeSpawnsAfter(w, [t, t], svc, env, pid);
    Late(w, [t, t] + [t, t, t], AShutdown(order), t, svc.name);
  }

  // ----- a retry -----

  /** A service that waits for the plain daemon `dep`; as a background service it is asked to start first. */
  ghost predicate Dependent(svc: ServiceConfig, dep: ServiceConfig) {
    && svc.enabled && svc.CanStart() && svc.dependsOn == [dep.name] && dep.name != svc.name && svc.livenessProbe.None?
    && svc.background && !dep.background && PlainDaemon(dep)
  }

  /** A step of one monitor that takes no exit leaves another service as it stands. */
  lemma Aside(w: World, m: string, env: TickEnv, svc: ServiceConfig, state: ServiceState, tracked: Option<int>, phase: Phase, queue: seq<CtlMsg>)
    requires m != svc.name && Stands(w, svc, state, tracked, phase, queue)
    requires TickService(w, m, env).reg.exits == map[]
    ensures Stands(TickService(w, m, env), svc, state, tracked, phase, queue)
  {
  }

  lemma Before(config: seq<ServiceConfig>, svc: ServiceConfig)
    requires Find(config, svc.name) == Some(svc) && svc.enabled
    ensures Stands(Initial(config, map[]), svc, Pending, None, Top, [])
  {
  }

  lemma AskedToStart(w: World, svc: ServiceConfig)
    requires Stands(w, svc, Pending, None, Top, [])
    ensures Stands(w.Send(svc.name, Start(false)), svc, Pending, None, Top, [Start(false)])
  {
    assert [] + [Start(false)] == [Start(false)];
  }

  lemma BootedPair(svc: ServiceConfig, dep: ServiceConfig)
    requires Dependent(svc, dep)
    ensures var w := Boot([svc, dep], map[], [svc.name, dep.name]);
            Stands(w, svc, Pending, None, Top, [Start(false)]) && Stands(w, dep, Pending, None, Top, [Start(false)])
  {
    var w := Initial([svc, dep], map[]);
    assert Names([svc, dep])[0] == svc.name && Names([svc, dep])[1] == dep.name;
    FindAt([svc, dep], 0);
    FindAt([svc, dep], 1);
    Before([svc, dep], svc);
    Before([svc, dep], dep);
    AskedToStart(w, svc);
    AskedToStart(w.Send(svc.name, Start(false)), dep);
    TwoSends(w, svc.name, dep.name, Start(false));
  }

  lemma TwoSends(w: World, n: string, m: string, msg: CtlMsg)
    ensures SendAll(w, [n, m], msg) == w.Send(n, msg).Send(m, msg)
  {
    assert [n, m][..1] == [n] && [n][..0] == [];
    assert SendAll(w, [], msg) == w;
    assert SendAll(w, [n], msg) == w.Send(n, msg);
  }

  lemma OneDep(states: map<string, ServiceState>, n: string)
    requires n in states
    ensures UnmetDeps(states, [n]) == Ok(if states[n] in {Running, Succeeded} then [] else [n])
  {
    var none: seq<string> := [];
    assert [n][..|[n]| - 1] == none && none + [n] == [n];
    assert UnmetDeps(states, none) == Ok(none);
  }

  /** The check finds the dependency not ready. */
  lemma HeldBack(c: Ctx, svc: ServiceConfig, dep: ServiceConfig, states: map<string, ServiceState>, env: TickEnv, now: nat)
    requires Dependent(svc, dep) && StandsAs(c.s, svc, Pending, None, Handling(Start(false)), [])
    requires dep.name in states && states[dep.name] !in {Running, Succeeded}
    ensures var c' := Tick(c, svc, states, false, env, now);
            StandsAs(c'.s, svc, WaitingForDependency, None, Top, []) && c'.reg == c.reg
  {
    OneDep(states[svc.name := Pending], dep.name);
  }

  lemma BeginsToWait(w: World, svc: ServiceConfig, dep: ServiceConfig, env: TickEnv)
    requires Dependent(svc, dep) && Stands(w, svc, Pending, None, Handling(Start(false)), [])
    requires Stands(w, dep, Pending, None, Top, [Start(false)])
    ensures var w' := TickService(w, svc.name, env);
            Stands(w', svc, WaitingForDependency, None, Top, []) && Stands(w', dep, Pending, None, Top, [Start(false)])
  {
    HeldBack(Ctx(w.services[svc.name], w.reg), svc, dep, w.States(), env, w.now);
    Aside(w, svc.name, env, dep, Pending, None, Top, [Start(false)]);
  }

  /** The other service receives its message. */
  lemma TakesAside(w: World, n: ServiceConfig, m: ServiceConfig, env: TickEnv, state: ServiceState, queue: seq<CtlMsg>)
    requires n.name != m.name && Stands(w, n, Pending, None, Top, [Start(false)]) && Stands(w, m, state, None, Top, queue)
    ensures var w' := TickService(w, n.name, env);
            Stands(w', n, Pending, None, Handling(Start(false)), []) && Stands(w', m, state, None, Top, queue)
  {
    TakesMessage(w, n, env);
    Aside(w, n.name, env, m, state, None, Top, queue);
  }

  lemma Waits(w: World, svc: ServiceConfig, dep: ServiceConfig, env: TickEnv)
    requires Dependent(svc, dep) && Stands(w, svc, Pending, None, Top, [Start(false)])
    requires Stands(w, dep, Pending, None, Top, [Start(false)])
    ensures var w' := TickService(TickService(w, svc.name, env), svc.name, env);
            Stands(w', svc, WaitingForDependency, None, Top, []) && Stands(w', dep, Pending, None, Top, [Start(false)])
  {
    TakesAside(w, svc, dep, env, Pending, [Start(false)]);
    BeginsToWait(TickService(w, svc.name, env), svc, dep, env);
  }

  lemma DepStarts(w: World, svc: ServiceConfig, dep: ServiceConfig, env: TickEnv, pid: int)
    requires Dependent(svc, dep) && StaysUp(env, pid) && Stands(w, svc, WaitingForDependency, None, Top, [])
    requires Stands(w, dep, Pending, None, Handling(Start(false)), [])
    ensures var w' := TickService(w, dep.name, env);
            Stands(w', svc, WaitingForDependency, None, Top, []) && Stands(w', dep, Running, Some(pid), Top, [])
  {
    Started(w, dep, env, pid);
    Aside(w, dep.name, env, svc, WaitingForDependency, None, Top, []);
  }

  lemma DepRuns(w: World, svc: ServiceConfig, dep: ServiceConfig, env: TickEnv, pid: int)
    requires Dependent(svc, dep) && StaysUp(env, pid)
    requires Stands(w, svc, WaitingForDependency, None, Top, []) && Stands(w, dep, Pending, None, Top, [Start(false)])
    ensures var w' := TickService(TickService(w, dep.name, env), dep.name, env);
            Stands(w', svc, WaitingForDependency, None, Top, []) && Stands(w', dep, Running, Some(pid), Top, [])
  {
    TakesAside(w, dep, svc, env, WaitingForDependency, []);
    DepStarts(TickService(w, dep.name, env), svc, dep, env, pid);
  }

  lemma WaitingMoves(w: World, svc: ServiceConfig, env: TickEnv, from: Phase, to: Phase)
    requires Stands(w, svc, WaitingForDependency, None, from, [])
    requires (from == Top && to == Looking) || (from == Looking && to == Retrying)
    ensures Stands(TickService(w, svc.name, env), svc, WaitingForDependency, None, to, [])
  {
  }

  lemma WillRetry(w: World, svc: ServiceConfig, dep: ServiceConfig, env: TickEnv, pid: int)
    requires Dependent(svc, dep)
    requires Stands(w, svc, WaitingForDependency, None, Top, []) && Stands(w, dep, Running, Some(pid), Top, [])
    ensures var w' := TickService(TickService(w, svc.name, env), svc.name, env);
            Stands(w', svc, WaitingForDependency, None, Retrying, []) && Stands(w', dep, Running, Some(pid), Top, [])
  {
    var w1 := TickService(w, svc.name, env);
    WaitingMoves(w, svc, env, Top, Looking);
    Aside(w, svc.name, env, dep, Running, Some(pid), Top, []);
    WaitingMoves(w1, svc, env, Looking, Retrying);
    Aside(w1, svc.name, env, dep, Running, Some(pid), Top, []);
  }

  lemma RetrySpawns(w: World, svc: ServiceConfig, dep: ServiceConfig, env: TickEnv, pid: int)
    requires Dependent(svc, dep) && env.start.Child?
    requires Stands(w, svc, WaitingForDependency, None, Retrying, []) && Stands(w, dep, Running, Some(pid), Top, [])
    ensures StepSpawns(w, ATick(svc.name, env), svc.name)
  {
    ReadyNow(Ctx(w.services[svc.name], w.reg), svc, dep, w.States(), env);
  }

  lemma ReadyNow(c: Ctx, svc: ServiceConfig, dep: ServiceConfig, states: map<string, ServiceState>, env: TickEnv)
    requires Dependent(svc, dep) && StandsAs(c.s, svc, WaitingForDependency, None, Retrying, [])
    requires env.start.Child? && dep.name in states && states[dep.name] in {Running, Succeeded}
    ensures WillSpawn(c, svc, states, env)
  {
  }

  /** The dependency has come up, and the monitor has found the flag clear and is about to retry: the waiting
      service still starts. */
  lemma StartByRetry(svc: ServiceConfig, dep: ServiceConfig, env: TickEnv, pid: int, order: seq<string>)
    requires Dependent(svc, dep) && StaysUp(env, pid)
    ensures var s, d, w := ATick(svc.name, env), ATick(dep.name, env), Boot([svc, dep], map[], [svc.name, dep.name]);
            SpawnsInStep(Run(w, [s, s] + [d, d] + [s, s] + [AShutdown(order)]), s, svc.name) == 1
  {
    var s, d := ATick(svc.name, env), ATick(dep.name, env);
    var w := Boot([svc, dep], map[], [svc.name, dep.name]);
    BootedPair(svc, dep);
    Waits(w, svc, dep, env);
    TwoTicks(w, [], svc.name, env);
    assert [] + [s, s] == [s, s];
    DepRuns(Run(w, [s, s]), svc, dep, env, pid);
    TwoTicks(w, [s, s], dep.name, env);
    WillRetry(Run(w, [s, s] + [d, d]), svc, dep, env, pid);
    TwoTicks(w, [s, s] + [d, d], svc.name, env);
    RetrySpawns(Run(w, [s, s] + [d, d] + [s, s]), svc, dep, env, pid);
    Late(w, [s, s] + [d, d] + [s, s], AShutdown(order), s, svc.name);
  }
}
