/** Stopped services stay stopped until asked; waiting services start exactly when they may. */
module DependencyGating {
  import opened Basics
  import opened Service
  import opened SupervisorSpec
  import opened ServiceInvariant
  import opened SupervisorRuns
  import opened MonitorWork

  // ----- leaving a service alone -----

  /** `services` lists `n` with the definition and the flag of `cfg`. */
  ghost predicate Alike(services: seq<ServiceConfig>, n: string, cfg: ServiceConfig) {
    var svc := Find(services, n);
    svc.Some? && DefinitionEq(svc.value, cfg) && svc.value.enabled == cfg.enabled
  }

  /** Nobody addresses `n`: no request, no enable call, no reload that changes its definition. */
  ghost predicate LeavesAlone(a: Action, n: string, cfg: ServiceConfig) {
    match a
    case AStart(m, _) => m != n
    case AStop(m) => m != n
    case ARestart(m) => m != n
    case ASetEnabled(m, _, _) => m != n
    case AReload(services) => Distinct(Names(services)) && Alike(services, n, cfg)
    case ATick(_, _) => true
    case AReap(_) => true
    case AElapse(_) => true
    case AShutdown(_) => false
  }

  ghost predicate Present(w: World, n: string, cfg: ServiceConfig) {
    !w.stopAll && n in w.services && Alike(w.config, n, cfg)
  }

  /** `n` is there as before, with the same record. */
  ghost predicate Same(w: World, w': World, n: string, cfg: ServiceConfig) {
    Present(w, n, cfg) && Present(w', n, cfg) && w'.services[n] == w.services[n]
  }

  lemma SetEnabledElsewhere(w: World, m: string, enabled: bool, written: bool, n: string, cfg: ServiceConfig)
    requires Named(w) && m != n && Present(w, n, cfg)
    ensures Same(w, SetEnabled(w, m, enabled, written).0, n, cfg)
  {
    if m in NameSet(w.config) {
      var i := Position(w.config, m);
      WithEnabledIs(w.config, i, enabled);
      var k := Position(w.config, n);
      FindAt(w.config, k);
      FindAt(WithEnabled(w.config, m, enabled), k);
    }
  }

  lemma ReloadElsewhere(w: World, services: seq<ServiceConfig>, n: string, cfg: ServiceConfig)
    requires Named(w) && Present(w, n, cfg)
    requires Distinct(Names(services)) && Alike(services, n, cfg)
    ensures Same(w, Reload(w, services), n, cfg)
  {
    ReloadAt(w, services);
    var i := Position(services, n);
    FindAt(services, i);
    assert Reload(w, services).services[n] == Kept(w.services[n], Find(w.config, n).value, services[i], w.now);
  }

  lemma RequestElsewhere(w: World, m: string, force: bool, n: string, cfg: ServiceConfig)
    requires Present(w, n, cfg) && m != n
    ensures Same(w, StartService(w, m, force).0, n, cfg)
    ensures Same(w, StopService(w, m).0, n, cfg) && Same(w, RestartService(w, m).0, n, cfg)
  {
    RequestsOnlySend(w, m, force);
  }

  lemma TickElsewhere(w: World, m: string, env: TickEnv, n: string, cfg: ServiceConfig)
    requires Present(w, n, cfg) && m != n
    ensures Same(w, TickService(w, m, env), n, cfg)
  {
  }

  /** What leaves a service alone, and is no step of its monitor, does not touch it. */
  lemma Elsewhere(w: World, a: Action, n: string, cfg: ServiceConfig)
    requires Named(w) && Present(w, n, cfg) && LeavesAlone(a, n, cfg) && !(a.ATick? && a.n == n)
    ensures Same(w, Next(w, a), n, cfg)
  {
    match a
    case AStart(m, force) => RequestElsewhere(w, m, force, n, cfg);
    case AStop(m) => RequestElsewhere(w, m, false, n, cfg);
    case ARestart(m) => RequestElsewhere(w, m, false, n, cfg);
    case ASetEnabled(m, enabled, written) => SetEnabledElsewhere(w, m, enabled, written, n, cfg);
    case AReload(services) => ReloadElsewhere(w, services, n, cfg);
    case ATick(m, env) => TickElsewhere(w, m, env, n, cfg);
    case AReap(arrival) =>
    case AElapse(secs) =>
  }

  /** A step of the monitor of `n` is a step on its record. */
  lemma OwnTick(w: World, n: string, env: TickEnv, cfg: ServiceConfig)
    requires Present(w, n, cfg)
    ensures var c := Ctx(w.services[n], w.reg);
            var w' := TickService(w, n, env);
            Present(w', n, cfg) && w'.services[n] == Tick(c, Find(w.config, n).value, w.States(), false, env, w.now).s
  {
  }

  /** No message in hand or queued, no restart under way. */
  ghost predicate Idle(s: Svc) {
    s.queue == [] && !s.mon.exited && !s.mon.phase.Handling? && !s.mon.phase.BackingOff?
  }

  // ----- stopped services -----

  ghost predicate AtRest(s: Svc) {
    s.rt.state.Stopped? && Idle(s)
  }

  /** Equal except for the probe schedule and the place in the loop. */
  ghost predicate Unmoved(s: Svc, s': Svc) {
    s' == s.(mon := s.mon.(scheduled := s'.mon.scheduled, phase := s'.mon.phase))
  }

  lemma StoppedTickIsIdle(c: Ctx, cfg: ServiceConfig, states: map<string, ServiceState>, env: TickEnv, now: nat)
    requires AtRest(c.s) && Settled(c.s)
    ensures var c' := Tick(c, cfg, states, false, env, now);
            AtRest(c'.s) && Unmoved(c.s, c'.s) && c'.reg == c.reg
  {
  }

  lemma RestingNext(w: World, a: Action, n: string, cfg: ServiceConfig)
    requires Healthy(w) && Present(w, n, cfg) && AtRest(w.services[n]) && LeavesAlone(a, n, cfg)
    ensures var w' := Next(w, a);
            Present(w', n, cfg) && AtRest(w'.services[n]) && Unmoved(w.services[n], w'.services[n])
  {
    if a.ATick? && a.n == n {
      assert Inv(w.services[n], n, None);
      OwnTick(w, n, a.env, cfg);
      StoppedTickIsIdle(Ctx(w.services[n], w.reg), Find(w.config, n).value, w.States(), a.env, w.now);
    } else {
      Elsewhere(w, a, n, cfg);
    }
  }

  /** Whatever else happens, dependencies becoming ready included, a stopped service that nobody
      addresses is exactly as it was: not started, no child, no new event. */
  lemma {:induction false} StoppedStaysStopped(w: World, actions: seq<Action>, n: string, cfg: ServiceConfig)
    requires Healthy(w) && Present(w, n, cfg) && AtRest(w.services[n])
    requires forall a :: a in actions ==> LeavesAlone(a, n, cfg)
    ensures var w' := Run(w, actions);
            && Healthy(w') && Present(w', n, cfg)
            && AtRest(w'.services[n]) && Unmoved(w.services[n], w'.services[n])
    decreases |actions|
  {
    if actions != [] {
      var k := |actions| - 1;
      assert actions[k] in actions;
      StoppedStaysStopped(w, actions[..k], n, cfg);
      NextIsHealthy(Run(w, actions[..k]), actions[k]);
      RestingNext(Run(w, actions[..k]), actions[k], n, cfg);
    }
  }

  // ----- when a start spawns -----

  /** The dependency part of a start: everything is known, and ready unless forced. */
  ghost predicate DepsAllow(view: map<string, ServiceState>, deps: seq<string>, force: bool) {
    && (forall d :: d in deps ==> d in view)
    && (force || forall d :: d in deps ==> d in view && view[d] in {Running, Succeeded})
  }

  lemma DepsAllowIff(view: map<string, ServiceState>, deps: seq<string>, force: bool)
    ensures DepsAllow(view, deps, force) <==>
            var unmet := UnmetDeps(view, deps); unmet.Ok? && (force || unmet.value == [])
  {
    UnmetDepsMeaning(view, deps);
    CheckPassesIff(view, deps);
  }

  /** A start request spawns exactly when the service is enabled, every dependency is known, and
      it is forced or every dependency is ready. Otherwise nothing runs. */
  lemma StartSpawnsIff(c: Ctx, cfg: ServiceConfig, states: map<string, ServiceState>, force: bool, env: StartEnv, now: nat)
    ensures Spawns(StartOrFail(c, cfg, states, force, env, now).s.journal) == Spawns(c.s.journal)
            + if c.s.rt.enabled && DepsAllow(states[cfg.name := c.s.rt.state], cfg.dependsOn, force)
                 && (cfg.startCmd.Some? || cfg.cmd.Some?) && env.Child? then 1 else 0
  {
    DepsAllowIff(states[cfg.name := c.s.rt.state], cfg.dependsOn, force);
    StartOrFailWorks(c, cfg, states, force, env, now, 0);
  }

  // ----- a self-dependency -----

  /** When the dependency check of a start passes, all dependencies are still ready at the spawn if and only if
      the service does not list itself: by then it has left its own ready state. */
  lemma ReadyAtSpawnIff(s: Svc, cfg: ServiceConfig, states: map<string, ServiceState>)
    requires UnmetDeps(states[cfg.name := s.rt.state], cfg.dependsOn) == Ok([])
    ensures DepsAllow(states[cfg.name := Starting], cfg.dependsOn, false) <==> cfg.name !in cfg.dependsOn
  {
    CheckPassesIff(states[cfg.name := s.rt.state], cfg.dependsOn);
  }

  // ----- waiting services -----

  ghost predicate Waits(s: Svc) {
    s.rt.state.WaitingForDependency? && s.rt.enabled && Idle(s)
  }

  /** Every dependency exists and some dependency is not ready. */
  ghost predicate Held(view: map<string, ServiceState>, deps: seq<string>) {
    DepsAllow(view, deps, true) && !DepsAllow(view, deps, false)
  }

  /** Nothing happened but attempts to start. */
  ghost predicate NothingSpawned(s: Svc, s': Svc) {
    s'.rt == s.rt && s'.queue == s.queue && s'.mon.tracked == s.mon.tracked && Spawns(s'.journal) == Spawns(s.journal)
  }

  /** A held start leaves the service waiting; any other start ends the wait. */
  lemma ResumeWaitsIff(c: Ctx, cfg: ServiceConfig, states: map<string, ServiceState>, env: StartEnv, now: nat)
    requires c.s.rt.state.WaitingForDependency? && c.s.rt.enabled && c.s.rt.runningSince.None?
    ensures var held := Held(states[cfg.name := c.s.rt.state], cfg.dependsOn);
            var c' := Resume(c, cfg, states, env, now);
            && (c'.s.rt.state.WaitingForDependency? <==> held)
            && (held ==> NothingSpawned(c.s, c'.s) && c'.s.mon.exited == c.s.mon.exited)
  {
    var view := states[cfg.name := c.s.rt.state];
    DepsAllowIff(view, cfg.dependsOn, true);
    DepsAllowIff(view, cfg.dependsOn, false);
    var s := c.s.(journal := Entered(c.s.journal, c.s.mon.tracked));
  }

  /** A step of a waiting service ends the wait exactly when it is a retry that nothing holds back. */
  lemma WaitingTickIff(c: Ctx, cfg: ServiceConfig, states: map<string, ServiceState>, env: TickEnv, now: nat)
    requires Waits(c.s) && Inv(c.s, cfg.name, None)
    ensures var held := c.s.mon.phase.Retrying? ==> Held(states[cfg.name := c.s.rt.state], cfg.dependsOn);
            var s' := Tick(c, cfg, states, false, env, now).s;
            (Waits(s') <==> held) && (held ==> NothingSpawned(c.s, s'))
  {
    if c.s.mon.phase.Retrying? {
      ResumeWaitsIff(c, cfg, states, env.start, now);
    } else {
      WaitingStepIsIdle(c, cfg, states, env, now);
    }
  }

  /** Outside a retry, a waiting service only moves on in its loop. */
  lemma WaitingStepIsIdle(c: Ctx, cfg: ServiceConfig, states: map<string, ServiceState>, env: TickEnv, now: nat)
    requires Waits(c.s) && Settled(c.s) && !c.s.mon.phase.Retrying?
    ensures Waits(Tick(c, cfg, states, false, env, now).s) && Unmoved(c.s, Tick(c, cfg, states, false, env, now).s)
  {
  }

  /** A retry that nothing holds back spawns the service. */
  lemma RetrySpawns(c: Ctx, cfg: ServiceConfig, states: map<string, ServiceState>, env: TickEnv, now: nat)
    requires Waits(c.s) && c.s.mon.phase.Retrying? && cfg.CanStart() && env.start.Child?
    requires DepsAllow(states[cfg.name := c.s.rt.state], cfg.dependsOn, false)
    ensures Spawns(Tick(c, cfg, states, false, env, now).s.journal) == Spawns(c.s.journal) + 1
  {
    StartSpawnsIff(c, cfg, states, false, env.start, now);
  }

  ghost predicate WaitsIn(w: World, n: string) {
    n in w.services && Waits(w.services[n])
  }

  /** If the next step of `n` is a retry, some dependency holds it back. */
  ghost predicate HeldIn(w: World, n: string) {
    n in w.services && Find(w.config, n).Some? && w.services[n].mon.phase.Retrying? ==>
      Held(w.States(), Find(w.config, n).value.dependsOn)
  }

  ghost predicate WaitsAt(w: World, actions: seq<Action>, n: string, k: nat) {
    k <= |actions| ==> WaitsIn(Run(w, actions[..k]), n)
  }

  ghost predicate HeldAt(w: World, actions: seq<Action>, n: string, k: nat) {
    k < |actions| && actions[k].ATick? && actions[k].n == n ==> HeldIn(Run(w, actions[..k]), n)
  }

  ghost predicate AlwaysWaits(w: World, actions: seq<Action>, n: string) {
    forall k :: WaitsAt(w, actions, n, k)
  }

  ghost predicate HeldThroughout(w: World, actions: seq<Action>, n: string) {
    forall k :: HeldAt(w, actions, n, k)
  }

  ghost predicate WaitingFrom(w: World, n: string, cfg: ServiceConfig, s: Svc) {
    Healthy(w) && Present(w, n, cfg) && WaitsIn(w, n) && NothingSpawned(s, w.services[n])
  }

  lemma WaitingOwnStep(w: World, n: string, env: TickEnv, cfg: ServiceConfig)
    requires Present(w, n, cfg) && WaitsIn(w, n) && Inv(w.services[n], n, None)
    ensures var w' := TickService(w, n, env);
            && Present(w', n, cfg) && (WaitsIn(w', n) <==> HeldIn(w, n))
            && (WaitsIn(w', n) ==> NothingSpawned(w.services[n], w'.services[n]))
  {
    assert w.States()[n := w.services[n].rt.state] == w.States();
    OwnTick(w, n, env, cfg);
    WaitingTickIff(Ctx(w.services[n], w.reg), Find(w.config, n).value, w.States(), env, w.now);
  }

  lemma WaitingStepIff(w: World, a: Action, n: string, cfg: ServiceConfig, s: Svc)
    requires WaitingFrom(w, n, cfg, s) && LeavesAlone(a, n, cfg)
    ensures WaitingFrom(Next(w, a), n, cfg, s) <==> (a.ATick? && a.n == n ==> HeldIn(w, n))
    ensures WaitingFrom(Next(w, a), n, cfg, s) <==> WaitsIn(Next(w, a), n)
  {
    assert Validated(a);
    NextIsHealthy(w, a);
    if a.ATick? && a.n == n {
      WaitingOwnStep(w, n, a.env, cfg);
    } else {
      Elsewhere(w, a, n, cfg);
    }
  }

  ghost predicate HeldOrWaits(w: World, actions: seq<Action>, n: string, k: nat) {
    HeldAt(w, actions, n, k) || WaitsAt(w, actions, n, k + 1)
  }

  lemma HeldStep(w: World, actions: seq<Action>, n: string, cfg: ServiceConfig, k: nat, s: Svc)
    requires k < |actions| && LeavesAlone(actions[k], n, cfg)
    requires WaitingFrom(Run(w, actions[..k]), n, cfg, s)
    requires HeldOrWaits(w, actions, n, k)
    ensures WaitingFrom(Run(w, actions[..k + 1]), n, cfg, s)
  {
    RunSnoc(w, actions, k);
    WaitingStepIff(Run(w, actions[..k]), actions[k], n, cfg, s);
  }

  lemma {:induction false} HeldWaits(w: World, actions: seq<Action>, n: string, cfg: ServiceConfig, k: nat, s: Svc)
    requires WaitingFrom(w, n, cfg, s) && k <= |actions|
    requires forall a :: a in actions ==> LeavesAlone(a, n, cfg)
    requires forall i :: HeldOrWaits(w, actions, n, i)
    ensures WaitingFrom(Run(w, actions[..k]), n, cfg, s)
  {
    if k == 0 {
      assert actions[..0] == [];
    } else {
      HeldWaits(w, actions, n, cfg, k - 1, s);
      assert actions[k - 1] in actions && HeldOrWaits(w, actions, n, k - 1);
      HeldStep(w, actions, n, cfg, k - 1, s);
    }
  }

  /** Over every run that leaves a waiting service alone, it keeps waiting, and spawns nothing, if and only if
      at each of its retries every dependency exists and some dependency is not ready. */
  lemma WaitsExactlyWhileHeld(w: World, actions: seq<Action>, n: string, cfg: ServiceConfig)
    requires Healthy(w) && Present(w, n, cfg) && Waits(w.services[n])
    requires forall a :: a in actions ==> LeavesAlone(a, n, cfg)
    ensures AlwaysWaits(w, actions, n) <==> HeldThroughout(w, actions, n)
    ensures HeldThroughout(w, actions, n) ==>
              n in Run(w, actions).services && NothingSpawned(w.services[n], Run(w, actions).services[n])
  {
    var s := w.services[n];
    assert actions[..|actions|] == actions;
    if HeldThroughout(w, actions, n) {
      assert forall k :: HeldAt(w, actions, n, k) ==> HeldOrWaits(w, actions, n, k);
      forall k: nat | k <= |actions|
        ensures WaitsAt(w, actions, n, k)
      {
        HeldWaits(w, actions, n, cfg, k, s);
      }
      HeldWaits(w, actions, n, cfg, |actions|, s);
    }
    if AlwaysWaits(w, actions, n) {
      assert forall k: nat :: WaitsAt(w, actions, n, k + 1) ==> HeldOrWaits(w, actions, n, k);
      forall k: nat | k < |actions|
        ensures HeldAt(w, actions, n, k)
      {
        HeldWaits(w, actions, n, cfg, k, s);
        RunSnoc(w, actions, k);
        assert actions[k] in actions;
        assert WaitsAt(w, actions, n, k + 1);
        WaitingStepIff(Run(w, actions[..k]), actions[k], n, cfg, s);
      }
    }
  }

  // ----- how soon -----

  /** Steps of a waiting service until its retry is over. */
  function StepsToRetry(s: Svc): nat {
    match s.mon.phase
    case Retrying => 1
    case Looking => 2
    case Top => 3
    case Probing => 4
    case Watching => 5
    case _ => 0
  }

  /** If step `k` is a retry of the waiting service, every dependency is ready and the spawn works. */
  ghost predicate OpenAt(w: World, actions: seq<Action>, n: string, cfg: ServiceConfig, k: nat) {
    k < |actions| && actions[k].ATick? && actions[k].n == n ==> OpenIn(Run(w, actions[..k]), actions[k].env, n, cfg)
  }

  ghost predicate OpenIn(w: World, env: TickEnv, n: string, cfg: ServiceConfig) {
    WaitsIn(w, n) && w.services[n].mon.phase.Retrying? ==> DepsAllow(w.States(), cfg.dependsOn, false) && env.start.Child?
  }

  /** Spawned since it stood as `s`, or still waiting and so many steps nearer to its retry. */
  ghost predicate SpawnedOrNearer(w: World, n: string, s: Svc, steps: nat) {
    n in w.services && (SpawnedSince(w.services[n], s) || NearerToRetry(w.services[n], s, steps))
  }

  ghost predicate SpawnedSince(s': Svc, s: Svc) {
    Spawns(s'.journal) > Spawns(s.journal)
  }

  ghost predicate NearerToRetry(s': Svc, s: Svc, steps: nat) {
    Waits(s') && Spawns(s'.journal) == Spawns(s.journal) && StepsToRetry(s') + steps <= StepsToRetry(s)
  }

  /** Outside a retry, each step brings it nearer. */
  lemma WaitingTickNears(c: Ctx, cfg: ServiceConfig, states: map<string, ServiceState>, env: TickEnv, now: nat)
    requires Waits(c.s) && Settled(c.s) && !c.s.mon.phase.Retrying?
    ensures StepsToRetry(Tick(c, cfg, states, false, env, now).s) + 1 == StepsToRetry(c.s)
  {
  }

  lemma OwnStepNearsRetry(w: World, n: string, env: TickEnv, cfg: ServiceConfig)
    requires Healthy(w) && Present(w, n, cfg) && WaitsIn(w, n) && OpenIn(w, env, n, cfg) && cfg.CanStart()
    ensures var s' := TickService(w, n, env).services[n];
            SpawnedSince(s', w.services[n]) || NearerToRetry(s', w.services[n], 1)
  {
    var c, now := Ctx(w.services[n], w.reg), Find(w.config, n).value;
    assert Inv(w.services[n], n, None);
    OwnTick(w, n, env, cfg);
    if w.services[n].mon.phase.Retrying? {
      assert w.States()[n := w.services[n].rt.state] == w.States();
      RetrySpawns(c, now, w.States(), env, w.now);
    } else {
      WaitingStepIsIdle(c, now, w.States(), env, w.now);
      WaitingTickNears(c, now, w.States(), env, w.now);
    }
  }

  lemma SpawnedStep(w: World, a: Action, n: string, cfg: ServiceConfig, s: Svc, steps: nat)
    requires Healthy(w) && Present(w, n, cfg) && SpawnedOrNearer(w, n, s, steps) && LeavesAlone(a, n, cfg) && cfg.CanStart()
    requires a.ATick? && a.n == n ==> OpenIn(w, a.env, n, cfg)
    ensures Healthy(Next(w, a)) && Present(Next(w, a), n, cfg)
    ensures SpawnedOrNearer(Next(w, a), n, s, steps + if a.ATick? && a.n == n then 1 else 0)
  {
    NextIsHealthy(w, a);
    if a.ATick? && a.n == n {
      OwnTick(w, n, a.env, cfg);
      TickIsWithin(Ctx(w.services[n], w.reg), Find(w.config, n).value, w.States(), false, a.env, w.now, 0);
      if WaitsIn(w, n) {
        OwnStepNearsRetry(w, n, a.env, cfg);
      }
    } else {
      Elsewhere(w, a, n, cfg);
    }
  }

  lemma {:induction false} RunNearsRetry(w: World, actions: seq<Action>, n: string, cfg: ServiceConfig)
    requires Healthy(w) && Present(w, n, cfg) && WaitsIn(w, n) && cfg.CanStart()
    requires forall a :: a in actions ==> LeavesAlone(a, n, cfg)
    requires forall k :: OpenAt(w, actions, n, cfg, k)
    ensures Healthy(Run(w, actions)) && Present(Run(w, actions), n, cfg)
    ensures SpawnedOrNearer(Run(w, actions), n, w.services[n], StepsOf(actions, n))
    decreases |actions|
  {
    if actions != [] {
      var k := |actions| - 1;
      assert actions[k] in actions && OpenAt(w, actions, n, cfg, k);
      OpenBefore(w, actions, n, cfg, k);
      RunNearsRetry(w, actions[..k], n, cfg);
      SpawnedStep(Run(w, actions[..k]), actions[k], n, cfg, w.services[n], StepsOf(actions[..k], n));
    }
  }

  lemma OpenBefore(w: World, actions: seq<Action>, n: string, cfg: ServiceConfig, k: nat)
    requires k <= |actions| && forall i :: OpenAt(w, actions, n, cfg, i)
    ensures forall i :: OpenAt(w, actions[..k], n, cfg, i)
  {
    forall i: nat | i < k
      ensures OpenAt(w, actions[..k], n, cfg, i)
    {
      assert OpenAt(w, actions, n, cfg, i);
      assert actions[..k][..i] == actions[..i];
    }
  }

  lemma RetryIsNear(s: Svc)
    requires Waits(s)
    ensures 0 < StepsToRetry(s) <= 5
  {
  }

  /** A waiting service that is left alone is spawned within five of its steps, if its dependencies are ready at
      its retry and the spawn works. */
  lemma SpawnsInTime(w: World, actions: seq<Action>, n: string, cfg: ServiceConfig)
    requires Healthy(w) && Present(w, n, cfg) && WaitsIn(w, n) && cfg.CanStart()
    requires forall a :: a in actions ==> LeavesAlone(a, n, cfg)
    requires forall k :: OpenAt(w, actions, n, cfg, k)
    ensures 0 < StepsToRetry(w.services[n]) <= 5
    ensures StepsOf(actions, n) >= StepsToRetry(w.services[n]) ==> SpawnedIn(Run(w, actions), n, w.services[n])
  {
    RetryIsNear(w.services[n]);
    RunNearsRetry(w, actions, n, cfg);
    if StepsOf(actions, n) >= StepsToRetry(w.services[n]) {
      NearEnoughSpawned(Run(w, actions), n, w.services[n], StepsOf(actions, n));
    }
  }

  ghost predicate SpawnedIn(w: World, n: string, s: Svc) {
    n in w.services && SpawnedSince(w.services[n], s)
  }

  lemma NearEnoughSpawned(w: World, n: string, s: Svc, steps: nat)
    requires SpawnedOrNearer(w, n, s, steps) && steps >= StepsToRetry(s)
    ensures SpawnedIn(w, n, s)
  {
  }
}
