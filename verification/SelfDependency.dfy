/** The one way an unforced spawn can miss a ready dependency: a service that depends on itself. */
module SelfDependency {
  import opened Basics
  import opened Service
  import opened SupervisorSpec
  import opened ServiceInvariant
  import opened SupervisorRuns
  import opened SupervisorTheorems
  import R = Reaper

  /** Unforced spawns at which some dependency was not ready. */
  function UnreadySpawns(j: Journal): nat {
    match j
    case Created(_) => 0
    case Spawned(prev, _, force, _, deps, states) =>
      UnreadySpawns(prev) + if !force && !AllReady(states, deps) then 1 else 0
    case _ => UnreadySpawns(j.prev)
  }

  predicate AllReady(states: map<string, ServiceState>, deps: seq<string>) {
    forall d :: d in deps ==> d in states && states[d] in {Running, Succeeded}
  }

  /** Unforced spawns under a definition that lists the service itself. */
  function SelfSpawns(j: Journal, n: string): nat {
    match j
    case Created(_) => 0
    case Spawned(prev, _, force, _, deps, _) => SelfSpawns(prev, n) + if !force && n in deps then 1 else 0
    case _ => SelfSpawns(j.prev, n)
  }

  lemma {:induction false} GatedUnready(j: Journal, n: string)
    requires Gated(j, n)
    ensures UnreadySpawns(j) == SelfSpawns(j, n)
  {
    match j
    case Created(_) =>
    case Spawned(prev, _, _, _, _, _) => GatedUnready(prev, n);
    case _ => GatedUnready(j.prev, n);
  }

  /** In every run, the unforced spawns with an unready dependency are exactly those of a definition that lists
      the service itself. */
  lemma UnreadyExactlyWithSelf(p: Past, n: string)
    requires p.Legal(map[])
    ensures n in p.Present().services ==>
              var j := p.Present().services[n].journal; UnreadySpawns(j) == SelfSpawns(j, n)
  {
    SpawnsAreGated(p, n);
    if n in p.Present().services {
      GatedUnready(p.Present().services[n].journal, n);
    }
  }

  // ----- a run that reaches it -----

  /** A plain daemon that lists itself, with nothing but a start command. */
  ghost predicate SelfDaemon(svc: ServiceConfig) {
    && svc.enabled && svc.daemon && svc.dependsOn == [svc.name]
    && svc.startCmd.Some? && svc.cmd.None? && svc.stopCmd.None? && svc.restartCmd.None?
  }

  /** Every spawn succeeds and stays up; no other exit is reaped. */
  ghost predicate StaysUp(env: TickEnv, pid: int) {
    env.start == Child(pid, [], []) && env.stop.arrivals == []
  }

  /** What the run needs to know between two steps. */
  ghost predicate Stands(c: Ctx, state: ServiceState, tracked: Option<int>, phase: Phase, queue: seq<CtlMsg>, bad: nat) {
    && c.s.rt.state == state && c.s.rt.enabled && c.s.queue == queue
    && c.s.mon.tracked == tracked && c.s.mon.phase == phase && !c.s.mon.exited
    && UnreadySpawns(c.s.journal) == bad && c.reg.exits == map[]
  }

  lemma SetStateBad(s: Svc, state: ServiceState, pid: Option<int>, now: nat)
    ensures UnreadySpawns(SetState(s, state, pid, now).journal) == UnreadySpawns(s.journal)
  {
  }

  lemma NothingToTake(reg: R.Registry, pid: int)
    requires reg.exits == map[]
    ensures R.WaitTake(reg, pid, []) == (reg, None)
  {
  }

  lemma SelfView(states: map<string, ServiceState>, n: string, state: ServiceState)
    ensures UnmetDeps(states[n := state], [n]) == Ok(if state in {Running, Succeeded} then [] else [n])
  {
    var view, none: seq<string> := states[n := state], [];
    assert [n][..|[n]| - 1] == none && none + [n] == [n];
    assert UnmetDeps(view, none) == Ok(none);
  }

  lemma LaunchStays(c: Ctx, cfg: ServiceConfig, states: map<string, ServiceState>, force: bool, env: TickEnv, now: nat,
                    pid: int, phase: Phase, queue: seq<CtlMsg>, bad: nat)
    requires SelfDaemon(cfg) && StaysUp(env, pid) && Stands(c, Starting, None, phase, queue, bad)
    ensures var (c', ok) := Launch(c, cfg, states, force, env.start, now);
            ok && Stands(c', Running, Some(pid), phase, queue, bad + if force then 0 else 1)
  {
    SelfView(states, cfg.name, Starting);
    NothingToTake(c.reg, pid);
    var s := c.s.(journal := Spawned(c.s.journal, pid, force, cfg.ResolveStart().value, cfg.dependsOn, states[cfg.name := Starting]));
    assert Launch(c, cfg, states, force, env.start, now) == (Ctx(DaemonOutcome(s, cfg, pid, None, now).0, c.reg), true);
    UpAndRunning(s, cfg, pid, now);
  }

  /** A daemon whose exit does not come is adopted. */
  lemma UpAndRunning(s: Svc, cfg: ServiceConfig, pid: int, now: nat)
    ensures var (s', ok) := DaemonOutcome(s, cfg, pid, None, now);
            && ok && s'.rt.state.Running? && s'.rt.enabled == s.rt.enabled && s'.queue == s.queue
            && s'.mon == s.mon.(tracked := Some(pid)) && UnreadySpawns(s'.journal) == UnreadySpawns(s.journal)
  {
    SetStateBad(s, Running, Some(pid), now);
  }

  /** An unforced start before the service runs: it waits for itself. */
  lemma WaitsForItself(c: Ctx, cfg: ServiceConfig, states: map<string, ServiceState>, env: TickEnv, now: nat, queue: seq<CtlMsg>)
    requires SelfDaemon(cfg) && Stands(c, Pending, None, Handling(Start(false)), queue, 0)
    ensures Stands(Tick(c, cfg, states, false, env, now), WaitingForDependency, None, Top, queue, 0)
  {
    SelfView(states, cfg.name, Pending);
    var s := Accept(c.s, Start(false)).(journal := Entered(Accept(c.s, Start(false)).journal, None));
    SetStateBad(s, WaitingForDependency, None, now);
  }

  lemma ForcedRuns(c: Ctx, cfg: ServiceConfig, states: map<string, ServiceState>, env: TickEnv, now: nat, pid: int)
    requires SelfDaemon(cfg) && StaysUp(env, pid) && Stands(c, WaitingForDependency, None, Handling(Start(true)), [], 0)
    ensures Stands(Tick(c, cfg, states, false, env, now), Running, Some(pid), Top, [], 0)
  {
    SelfView(states, cfg.name, WaitingForDependency);
    var s := Accept(c.s, Start(true)).(journal := Entered(Accept(c.s, Start(true)).journal, None));
    SetStateBad(s, Starting, None, now);
    LaunchStays(Ctx(SetState(s, Starting, None, now), c.reg), cfg, states, true, env, now, pid, Handling(Start(true)), [], 0);
  }

  /** A restart of the running service: the check passes, because it is running; the spawn happens while it
      is starting. */
  lemma RestartSpawnsUnready(c: Ctx, cfg: ServiceConfig, states: map<string, ServiceState>, env: TickEnv, now: nat,
                             before: int, pid: int)
    requires SelfDaemon(cfg) && StaysUp(env, pid) && Stands(c, Running, Some(before), Handling(Restart), [], 0)
    ensures Stands(Tick(c, cfg, states, false, env, now), Running, Some(pid), Top, [], 1)
  {
    SelfView(states, cfg.name, Running);
    var c0 := c.(s := Accept(c.s, Restart));
    var c1 := StopTracked(c0, cfg, env.stop);
    assert Stands(c1, Running, None, Handling(Restart), [], 0);
    var s := c1.s.(journal := Entered(c1.s.journal, None));
    SetStateBad(s, Starting, None, now);
    LaunchStays(Ctx(SetState(s, Starting, None, now), c1.reg), cfg, states, false, env, now, pid, Handling(Restart), [], 0);
  }

  /** The service stands in the world as given. */
  ghost predicate StandsIn(w: World, svc: ServiceConfig, state: ServiceState, tracked: Option<int>, phase: Phase,
                           queue: seq<CtlMsg>, bad: nat)
  {
    && !w.stopAll && svc.name in w.services && Find(w.config, svc.name) == Some(svc)
    && Stands(Ctx(w.services[svc.name], w.reg), state, tracked, phase, queue, bad)
  }

  lemma AddedAlone(svc: ServiceConfig)
    requires SelfDaemon(svc)
    ensures StandsIn(Reload(Boot([], map[], []), [svc]), svc, Pending, None, Top, [Start(false)], 0)
  {
    var w0 := Boot([], map[], []);
    assert Names([svc])[0] == svc.name && [svc][0] == svc;
    assert NameSet([]) == {};
    ReloadAt(w0, [svc]);
    assert Reload(w0, [svc]).services[svc.name] == Enqueue(Fresh(true), Start(false));
  }

  lemma KnownIsOk(states: map<string, ServiceState>, n: string)
    requires n in states
    ensures UnmetDeps(states, [n]).Ok?
  {
    var none: seq<string> := [];
    assert [n][..|[n]| - 1] == none;
    assert UnmetDeps(states, none) == Ok(none);
  }

  lemma ForceRequested(w: World, svc: ServiceConfig)
    requires SelfDaemon(svc) && StandsIn(w, svc, Pending, None, Top, [Start(false)], 0)
    ensures StandsIn(StartService(w, svc.name, true).0, svc, Pending, None, Top, [Start(false), Start(true)], 0)
  {
    KnownIsOk(w.States(), svc.name);
    assert [Start(false)] + [Start(true)] == [Start(false), Start(true)];
    assert StartService(w, svc.name, true).0 == w.Send(svc.name, Start(true));
  }

  /** A reload adds the service, and a forced start is requested. */
  lemma AddedAndForced(svc: ServiceConfig)
    requires SelfDaemon(svc)
    ensures var w := StartService(Reload(Boot([], map[], []), [svc]), svc.name, true).0;
            StandsIn(w, svc, Pending, None, Top, [Start(false), Start(true)], 0)
  {
    AddedAlone(svc);
    ForceRequested(Reload(Boot([], map[], []), [svc]), svc);
  }

  lemma FirstFour(w: World, svc: ServiceConfig, env: TickEnv, pid: int)
    requires SelfDaemon(svc) && StaysUp(env, pid)
    requires StandsIn(w, svc, Pending, None, Top, [Start(false), Start(true)], 0)
    ensures StandsIn(Run(w, [ATick(svc.name, env), ATick(svc.name, env), ATick(svc.name, env), ATick(svc.name, env)]),
                     svc, Running, Some(pid), Top, [], 0)
  {
    var n := svc.name;
    assert [Start(false), Start(true)] == [Start(false)] + [Start(true)] && [Start(true)] == [Start(true)] + [];
    var w1 := TickService(w, n, env);
    WaitsForItself(Ctx(w1.services[n], w1.reg), svc, w1.States(), env, w1.now, [Start(true)]);
    var w2 := TickService(w1, n, env);
    var w3 := TickService(w2, n, env);
    ForcedRuns(Ctx(w3.services[n], w3.reg), svc, w3.States(), env, w3.now, pid);
    FourTicks(w, n, env);
  }

  lemma FourTicks(w: World, n: string, env: TickEnv)
    ensures var t := ATick(n, env);
            Run(w, [t, t, t, t]) == TickService(TickService(TickService(TickService(w, n, env), n, env), n, env), n, env)
  {
    var t := ATick(n, env);
    assert [t, t, t, t][..3] == [t, t, t] && [t, t, t][..2] == [t, t] && [t, t][..1] == [t] && [t][..0] == [];
    assert Run(w, [t]) == Next(Run(w, []), t);
    assert Run(w, [t, t]) == Next(Run(w, [t]), t);
    assert Run(w, [t, t, t]) == Next(Run(w, [t, t]), t);
  }

  lemma RestartAfter(w: World, svc: ServiceConfig, env: TickEnv, before: int, pid: int)
    requires SelfDaemon(svc) && StaysUp(env, pid) && StandsIn(w, svc, Running, Some(before), Top, [], 0)
    ensures var w' := TickService(TickService(RestartService(w, svc.name).0, svc.name, env), svc.name, env);
            StandsIn(w', svc, Running, Some(pid), Top, [], 1)
  {
    var n, w1 := svc.name, RestartService(w, svc.name).0;
    assert [] + [Restart] == [Restart] + [];
    assert StandsIn(w1, svc, Running, Some(before), Top, [Restart] + [], 0);
    var w2 := TickService(w1, n, env);
    RestartSpawnsUnready(Ctx(w2.services[n], w2.reg), svc, w2.States(), env, w2.now, before, pid);
  }

  /** A reload brings in a service that lists itself; a forced start and a restart then make one unforced
      spawn at which a dependency, namely the service itself, is not ready. */
  lemma SelfDependencySpawnsUnready(svc: ServiceConfig, env: TickEnv, env2: TickEnv, pid: int, pid2: int)
    requires SelfDaemon(svc) && StaysUp(env, pid) && StaysUp(env2, pid2)
    ensures var n, t := svc.name, ATick(svc.name, env);
            var w1 := StartService(Reload(Boot([], map[], []), [svc]), n, true).0;
            var w2 := RestartService(Run(w1, [t, t, t, t]), n).0;
            var w3 := TickService(TickService(w2, n, env2), n, env2);
            n in w3.services && UnreadySpawns(w3.services[n].journal) == 1
  {
    AddedAndForced(svc);
    var w1 := StartService(Reload(Boot([], map[], []), [svc]), svc.name, true).0;
    FirstFour(w1, svc, env, pid);
    var t := ATick(svc.name, env);
    RestartAfter(Run(w1, [t, t, t, t]), svc, env2, pid, pid2);
  }
}
