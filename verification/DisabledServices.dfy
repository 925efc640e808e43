/** A disabled service is down, or a stop that will take it down is the last thing queued for it. */
module DisabledServices {
  import opened Basics
  import opened Service
  import opened SupervisorSpec
  import opened SupervisorRuns
  import opened MonitorWork

  /** Messages not yet acted on: the one in hand, then the queue. */
  function Unhandled(s: Svc): seq<CtlMsg> {
    (if s.mon.phase.Handling? then [s.mon.phase.msg] else []) + s.queue
  }

  ghost predicate StopIsLast(s: Svc) {
    var q := Unhandled(s);
    q != [] && q[|q| - 1].Stop?
  }

  /** Disabled, without a child, and with nothing left that could start one. */
  ghost predicate Down(s: Svc) {
    Unhandled(s) == [] && s.rt.state.Disabled? && s.mon.tracked.None? && !s.mon.phase.BackingOff?
  }

  /** The promise: a disabled service is down or about to be stopped. */
  ghost predicate Promised(s: Svc) {
    !s.rt.enabled ==> StopIsLast(s) || Down(s)
  }

  ghost predicate AllPromised(w: World) {
    forall n :: n in w.services ==> Promised(w.services[n])
  }

  /** The promise, for a monitor that listens and is not about to leave. */
  ghost predicate Obedient(s: Svc) {
    !s.mon.exited && (forall m :: m in Unhandled(s) ==> !m.Quit?) && Promised(s)
  }

  ghost predicate AllObedient(w: World) {
    !w.stopAll && forall n :: n in w.services ==> Obedient(w.services[n])
  }

  ghost predicate Agrees(config: seq<ServiceConfig>, n: string, s: Svc) {
    Find(config, n).Some? && s.rt.enabled == Find(config, n).value.enabled
  }

  /** The runtime flag of every service equals the configured flag. */
  ghost predicate InStep(w: World) {
    Named(w) && forall n :: n in w.services ==> Agrees(w.config, n, w.services[n])
  }

  // ----- one service -----

  /** A service that is down stays down: a step moves the loop on and can only clear the probe schedule. */
  lemma DownTickIsIdle(c: Ctx, cfg: ServiceConfig, states: map<string, ServiceState>, env: TickEnv, now: nat)
    requires Down(c.s) && !c.s.mon.exited
    ensures var c' := Tick(c, cfg, states, false, env, now);
            && Down(c'.s) && c'.reg == c.reg
            && c'.s == c.s.(mon := c.s.mon.(scheduled := c'.s.mon.scheduled, phase := c'.s.mon.phase))
  {
  }

  /** A step acts on the message in hand or on none. */
  lemma TickHandles(c: Ctx, cfg: ServiceConfig, states: map<string, ServiceState>, env: TickEnv, now: nat)
    requires !c.s.mon.exited && c.s.mon.phase != Handling(Quit)
    ensures var s' := Tick(c, cfg, states, false, env, now).s;
            && !s'.mon.exited
            && Unhandled(s') == if c.s.mon.phase.Handling? then Unhandled(c.s)[1..] else Unhandled(c.s)
  {
    if c.s.mon.phase.Top? {
      if c.s.queue != [] {
        assert [c.s.queue[0]] + c.s.queue[1..] == c.s.queue;
      }
    } else {
      TickWorks(c, cfg, states, false, env, now, 0);
    }
  }

  lemma HandledStopIsDown(c: Ctx, cfg: ServiceConfig, states: map<string, ServiceState>, env: TickEnv, now: nat)
    requires !c.s.mon.exited && c.s.mon.phase == Handling(Stop) && c.s.queue == [] && !c.s.rt.enabled
    ensures Down(Tick(c, cfg, states, false, env, now).s)
  {
    HandleStopWorks(c, cfg, env.stop, now, 0);
  }

  /** The last queued stop takes a disabled service down; earlier messages cannot get past it. */
  lemma TickObeys(c: Ctx, cfg: ServiceConfig, states: map<string, ServiceState>, env: TickEnv, now: nat)
    requires Obedient(c.s)
    ensures var s' := Tick(c, cfg, states, false, env, now).s;
            Obedient(s') && s'.rt.enabled == c.s.rt.enabled
  {
    var q := Unhandled(c.s);
    assert c.s.mon.phase.Handling? ==> c.s.mon.phase.msg == q[0] && q[0] in q;
    TickHandles(c, cfg, states, env, now);
    TickIsWithin(c, cfg, states, false, env, now, 0);
    assert forall m :: m in q[if q == [] then 0 else 1..] ==> m in q;
    if !c.s.rt.enabled {
      if Down(c.s) {
        DownTickIsIdle(c, cfg, states, env, now);
      } else if c.s.mon.phase.Handling? && c.s.queue == [] {
        HandledStopIsDown(c, cfg, states, env, now);
      }
    }
  }

  lemma FollowObeys(s: Svc, enabled: bool, now: nat)
    requires Obedient(s)
    ensures Obedient(Follow(s, enabled, now))
  {
  }

  lemma KeptFlag(s: Svc, was: ServiceConfig, svc: ServiceConfig, now: nat)
    ensures Kept(s, was, svc, now).rt.enabled == svc.enabled <==> was.enabled != svc.enabled || s.rt.enabled == svc.enabled
  {
  }

  /** A reload keeps the promise for a service exactly when it does not restart one whose runtime flag is
      off although both configurations say it is enabled; then it keeps the service obedient. */
  lemma KeptObeysIff(s: Svc, was: ServiceConfig, svc: ServiceConfig, now: nat)
    requires Obedient(s)
    ensures Promised(Kept(s, was, svc, now)) <==>
            !(!s.rt.enabled && was.enabled && svc.enabled && !DefinitionEq(was, svc))
    ensures Promised(Kept(s, was, svc, now)) ==> Obedient(Kept(s, was, svc, now))
  {
    FollowObeys(s, svc.enabled, now);
  }

  // ----- all services: obedience -----

  lemma SendObeys(w: World, n: string, msg: CtlMsg)
    requires AllObedient(w)
    requires n in w.services ==> !msg.Quit? && (msg.Stop? || w.services[n].rt.enabled)
    ensures AllObedient(w.Send(n, msg))
  {
  }

  /** Written or not, a toggle keeps every service obedient. */
  lemma SetEnabledObeys(w: World, n: string, enabled: bool, written: bool)
    requires AllObedient(w)
    ensures AllObedient(SetEnabled(w, n, enabled, written).0)
  {
    if n in w.services {
      FollowObeys(w.services[n], enabled, w.now);
    }
  }

  lemma TickServiceObeys(w: World, n: string, env: TickEnv)
    requires AllObedient(w)
    ensures AllObedient(TickService(w, n, env))
  {
    if n in w.services && Find(w.config, n).Some? {
      var c := Ctx(w.services[n], w.reg);
      var cfg := Find(w.config, n).value;
      TickObeys(c, cfg, w.States(), env, w.now);
    }
  }

  /** The reload would restart `svc`, which both configurations call enabled and whose runtime flag is off. */
  ghost predicate RestartsDisabled(w: World, svc: ServiceConfig) {
    var was := Find(w.config, svc.name);
    && was.Some? && svc.name in w.services && !w.services[svc.name].rt.enabled
    && was.value.enabled && svc.enabled && !DefinitionEq(was.value, svc)
  }

  /** Every reload leaves such services alone; nothing else can do harm. */
  ghost predicate Harmless(w: World, a: Action) {
    a.AReload? ==> forall svc :: svc in a.services ==> !RestartsDisabled(w, svc)
  }

  lemma ReloadObeysAt(w: World, services: seq<ServiceConfig>, i: nat)
    requires Named(w) && AllObedient(w) && Distinct(Names(services)) && i < |services|
    ensures services[i].name in Reload(w, services).services
    ensures Promised(Reload(w, services).services[services[i].name]) <==> !RestartsDisabled(w, services[i])
    ensures !RestartsDisabled(w, services[i]) ==> Obedient(Reload(w, services).services[services[i].name])
  {
    ReloadAt(w, services);
    var n := services[i].name;
    if n in NameSet(w.config) {
      KeptObeysIff(w.services[n], Find(w.config, n).value, services[i], w.now);
    }
  }

  /** A reload keeps the promise for all services exactly when it is harmless. */
  lemma ReloadObeysIff(w: World, services: seq<ServiceConfig>)
    requires Named(w) && AllObedient(w) && Distinct(Names(services))
    ensures AllPromised(Reload(w, services)) <==> Harmless(w, AReload(services))
    ensures Harmless(w, AReload(services)) ==> AllObedient(Reload(w, services))
  {
    ReloadAt(w, services);
    if Harmless(w, AReload(services)) {
      forall n | n in Reload(w, services).services
        ensures Obedient(Reload(w, services).services[n])
      {
        var i := Position(services, n);
        assert services[i] in services;
        ReloadObeysAt(w, services, i);
      }
    } else {
      var svc :| svc in services && RestartsDisabled(w, svc);
      var i :| 0 <= i < |services| && services[i] == svc;
      ReloadObeysAt(w, services, i);
    }
  }

  /** No shutdown, and reloads carry validated configurations. */
  ghost predicate Peaceful(a: Action) {
    !a.AShutdown? && Validated(a)
  }

  lemma ObedientIsPromised(w: World)
    requires AllObedient(w)
    ensures AllPromised(w)
  {
  }

  lemma RequestObeys(w: World, n: string, force: bool)
    requires AllObedient(w)
    ensures AllObedient(StartService(w, n, force).0)
    ensures AllObedient(StopService(w, n).0) && AllObedient(RestartService(w, n).0)
  {
    RequestsOnlySend(w, n, force);
    if n in w.services {
      SendObeys(w, n, Stop);
      if w.services[n].rt.enabled {
        SendObeys(w, n, Start(force));
        SendObeys(w, n, Restart);
      }
    }
  }

  /** One step keeps the promise for all services exactly when it is harmless. */
  lemma NextObeysIff(w: World, a: Action)
    requires Named(w) && AllObedient(w) && Peaceful(a)
    ensures AllPromised(Next(w, a)) <==> Harmless(w, a)
    ensures Harmless(w, a) ==> AllObedient(Next(w, a))
  {
    match a
    case AStart(n, force) =>
      RequestObeys(w, n, force);
      ObedientIsPromised(Next(w, a));
    case AStop(n) =>
      RequestObeys(w, n, false);
      ObedientIsPromised(Next(w, a));
    case ARestart(n) =>
      RequestObeys(w, n, false);
      ObedientIsPromised(Next(w, a));
    case ASetEnabled(n, enabled, written) =>
      SetEnabledObeys(w, n, enabled, written);
      ObedientIsPromised(Next(w, a));
    case AReload(services) => ReloadObeysIff(w, services);
    case ATick(n, env) =>
      TickServiceObeys(w, n, env);
      ObedientIsPromised(Next(w, a));
    case AReap(arrival) => ObedientIsPromised(w);
    case AElapse(secs) => ObedientIsPromised(w);
  }

  ghost predicate PromisedAt(w: World, actions: seq<Action>, k: nat) {
    k <= |actions| ==> AllPromised(Run(w, actions[..k]))
  }

  ghost predicate HarmlessAt(w: World, actions: seq<Action>, k: nat) {
    k < |actions| ==> Harmless(Run(w, actions[..k]), actions[k])
  }

  ghost predicate AlwaysPromised(w: World, actions: seq<Action>) {
    forall k :: PromisedAt(w, actions, k)
  }

  ghost predicate AlwaysHarmless(w: World, actions: seq<Action>) {
    forall k :: HarmlessAt(w, actions, k)
  }

  lemma ObeyingStep(w: World, actions: seq<Action>, k: nat)
    requires k < |actions| && Peaceful(actions[k])
    requires Healthy(Run(w, actions[..k])) && AllObedient(Run(w, actions[..k]))
    ensures Healthy(Run(w, actions[..k + 1]))
    ensures PromisedAt(w, actions, k + 1) <==> HarmlessAt(w, actions, k)
    ensures HarmlessAt(w, actions, k) ==> AllObedient(Run(w, actions[..k + 1]))
  {
    RunSnoc(w, actions, k);
    NextIsHealthy(Run(w, actions[..k]), actions[k]);
    NextObeysIff(Run(w, actions[..k]), actions[k]);
  }

  /** While every state keeps the promise, or every reload is harmless, the monitors listen. */
  lemma {:induction false} RunObeys(w: World, actions: seq<Action>, k: nat)
    requires Healthy(w) && AllObedient(w) && k <= |actions|
    requires forall a :: a in actions ==> Peaceful(a)
    requires AlwaysHarmless(w, actions) || AlwaysPromised(w, actions)
    ensures Healthy(Run(w, actions[..k])) && AllObedient(Run(w, actions[..k]))
  {
    if k > 0 {
      RunObeys(w, actions, k - 1);
      assert actions[k - 1] in actions;
      assert HarmlessAt(w, actions, k - 1) || PromisedAt(w, actions, k);
      ObeyingStep(w, actions, k - 1);
    }
  }

  /** The promise holds for every service, all through a run, if and only if every reload of the run is
      harmless in the state in which it happens. */
  lemma RunPromisedIff(w: World, actions: seq<Action>)
    requires Healthy(w) && AllObedient(w)
    requires forall a :: a in actions ==> Peaceful(a)
    ensures AlwaysPromised(w, actions) <==> AlwaysHarmless(w, actions)
  {
    if AlwaysHarmless(w, actions) {
      forall k: nat | k <= |actions|
        ensures PromisedAt(w, actions, k)
      {
        RunObeys(w, actions, k);
      }
    }
    if AlwaysPromised(w, actions) {
      forall k: nat | k < |actions|
        ensures HarmlessAt(w, actions, k)
      {
        RunObeys(w, actions, k);
        assert actions[k] in actions;
        assert PromisedAt(w, actions, k + 1);
        ObeyingStep(w, actions, k);
      }
    }
  }

  // ----- all services: the two flags -----

  /** The configured flags after `get_mut(n).enabled = enabled`. */
  lemma FlagIsSet(w: World, n: string, enabled: bool, m: string, s: Svc)
    requires Named(w) && n in NameSet(w.config) && m in w.services
    ensures Agrees(WithEnabled(w.config, n, enabled), m, s) <==>
            if m == n then s.rt.enabled == enabled else Agrees(w.config, m, s)
  {
    var i := Position(w.config, n);
    WithEnabledIs(w.config, i, enabled);
    var k := Position(w.config, m);
    FindAt(WithEnabled(w.config, n, enabled), k);
    FindAt(w.config, k);
  }

  lemma FlagKeepsNamed(w: World, n: string, enabled: bool)
    requires Named(w) && n in w.services
    ensures Named(w.(config := WithEnabled(w.config, n, enabled)))
  {
    var i := Position(w.config, n);
    WithEnabledIs(w.config, i, enabled);
    assert NameSet(WithEnabled(w.config, n, enabled)) == NameSet(w.config);
  }

  lemma PutInStep(w: World, n: string, s: Svc)
    requires InStep(w) && n in w.services && s.rt.enabled == w.services[n].rt.enabled
    ensures InStep(w.Put(n, s))
  {
    var w' := w.Put(n, s);
    assert w'.services.Keys == w.services.Keys;
    forall m | m in w'.services
      ensures Agrees(w'.config, m, w'.services[m])
    {
      assert Agrees(w.config, m, w.services[m]);
    }
  }

  lemma FollowedInStep(w: World, n: string, s: Svc, w': World)
    requires InStep(w) && n in w.services
    requires w'.services == w.services[n := s]
    requires w'.config == WithEnabled(w.config, n, s.rt.enabled)
    ensures InStep(w')
  {
    FlagKeepsNamed(w, n, s.rt.enabled);
    assert w'.services.Keys == w.services.Keys;
    forall m | m in w'.services
      ensures Agrees(w'.config, m, w'.services[m])
    {
      FlagIsSet(w, n, s.rt.enabled, m, w'.services[m]);
      assert Agrees(w.config, m, w.services[m]);
    }
  }

  lemma ToggleInStep(w: World, n: string, enabled: bool)
    requires InStep(w)
    ensures InStep(SetEnabled(w, n, enabled, true).0)
  {
    if n in NameSet(w.config) {
      var s := Follow(w.services[n], enabled, w.now);
      FollowedInStep(w, n, s, SetEnabled(w, n, enabled, true).0);
    }
  }

  /** A failed override write is harmless exactly when there was nothing to change. */
  lemma FailedWriteInStepIff(w: World, n: string, enabled: bool)
    requires InStep(w)
    ensures InStep(SetEnabled(w, n, enabled, false).0) <==>
            n !in NameSet(w.config) || Find(w.config, n).value.enabled == enabled
  {
    if n in NameSet(w.config) {
      var w' := SetEnabled(w, n, enabled, false).0;
      forall m | m in w.services
        ensures m != n ==> Agrees(w'.config, m, w'.services[m])
      {
        FlagIsSet(w, n, enabled, m, w.services[m]);
        assert Agrees(w.config, m, w.services[m]);
      }
      assert n in w.services && Agrees(w.config, n, w.services[n]);
      FlagIsSet(w, n, enabled, n, w.services[n]);
      FlagKeepsNamed(w, n, enabled);
    }
  }

  lemma ReloadInStep(w: World, services: seq<ServiceConfig>)
    requires InStep(w) && Distinct(Names(services))
    ensures InStep(Reload(w, services))
  {
    ReloadAt(w, services);
    var w' := Reload(w, services);
    forall n | n in w'.services
      ensures Agrees(w'.config, n, w'.services[n])
    {
      var i := Position(services, n);
      FindAt(services, i);
      if n in Names(w.config) {
        assert Agrees(w.config, n, w.services[n]);
        KeptFlag(w.services[n], Find(w.config, n).value, services[i], w.now);
      }
    }
  }

  lemma QueuedInStep(w: World, w': World)
    requires InStep(w) && w'.config == w.config && OnlyQueued(w, w')
    ensures InStep(w')
  {
    forall n | n in w'.services
      ensures Agrees(w'.config, n, w'.services[n])
    {
      assert Agrees(w.config, n, w.services[n]);
    }
  }

  lemma TickServiceInStep(w: World, n: string, env: TickEnv)
    requires InStep(w)
    ensures InStep(TickService(w, n, env))
  {
    if n in w.services && Find(w.config, n).Some? {
      var c := Ctx(w.services[n], w.reg);
      var cfg := Find(w.config, n).value;
      TickIsWithin(c, cfg, w.States(), w.stopAll, env, w.now, 0);
      PutInStep(w, n, Tick(c, cfg, w.States(), w.stopAll, env, w.now).s);
    }
  }

  /** A toggle that changes the configured flag and then cannot write the override. */
  ghost predicate HalfDone(w: World, a: Action) {
    && a.ASetEnabled? && !a.written
    && a.n in NameSet(w.config) && Find(w.config, a.n).value.enabled != a.enabled
  }

  /** One step of any kind keeps runtime and configured flags equal exactly when it is not half done. */
  lemma NextInStepIff(w: World, a: Action)
    requires InStep(w) && Validated(a)
    ensures InStep(Next(w, a)) <==> !HalfDone(w, a)
  {
    match a
    case AStart(n, force) =>
      RequestsOnlySend(w, n, force);
      RequestOnlyQueues(w, n, force);
      QueuedInStep(w, Next(w, a));
    case AStop(n) =>
      RequestsOnlySend(w, n, false);
      RequestOnlyQueues(w, n, false);
      QueuedInStep(w, Next(w, a));
    case ARestart(n) =>
      RequestsOnlySend(w, n, false);
      RequestOnlyQueues(w, n, false);
      QueuedInStep(w, Next(w, a));
    case ASetEnabled(n, enabled, written) =>
      if written {
        ToggleInStep(w, n, enabled);
      } else {
        FailedWriteInStepIff(w, n, enabled);
      }
    case AReload(services) => ReloadInStep(w, services);
    case ATick(n, env) => TickServiceInStep(w, n, env);
    case AReap(arrival) =>
    case AElapse(secs) =>
    case AShutdown(order) =>
      StopAllOnlyQueues(w, order);
      QueuedInStep(w, StopAll(w, order));
  }

  ghost predicate InStepAt(w: World, actions: seq<Action>, k: nat) {
    k <= |actions| ==> InStep(Run(w, actions[..k]))
  }

  ghost predicate DoneAt(w: World, actions: seq<Action>, k: nat) {
    k < |actions| ==> !HalfDone(Run(w, actions[..k]), actions[k])
  }

  ghost predicate AlwaysInStep(w: World, actions: seq<Action>) {
    forall k :: InStepAt(w, actions, k)
  }

  ghost predicate NeverHalfDone(w: World, actions: seq<Action>) {
    forall k :: DoneAt(w, actions, k)
  }

  lemma {:induction false} WholeIsInStep(w: World, actions: seq<Action>, k: nat)
    requires InStep(w) && k <= |actions| && NeverHalfDone(w, actions)
    requires forall a :: a in actions ==> Validated(a)
    ensures InStep(Run(w, actions[..k]))
  {
    if k > 0 {
      WholeIsInStep(w, actions, k - 1);
      RunSnoc(w, actions, k - 1);
      assert actions[k - 1] in actions && DoneAt(w, actions, k - 1);
      NextInStepIff(Run(w, actions[..k - 1]), actions[k - 1]);
    }
  }

  /** Runtime and configured flags agree all through a run, shutdown included, if and only if no toggle
      of the run is half done. */
  lemma RunInStepIff(w: World, actions: seq<Action>)
    requires InStep(w)
    requires forall a :: a in actions ==> Validated(a)
    ensures AlwaysInStep(w, actions) <==> NeverHalfDone(w, actions)
  {
    if NeverHalfDone(w, actions) {
      forall k: nat | k <= |actions|
        ensures InStepAt(w, actions, k)
      {
        WholeIsInStep(w, actions, k);
      }
    }
    if AlwaysInStep(w, actions) {
      forall k: nat | k < |actions|
        ensures DoneAt(w, actions, k)
      {
        RunSnoc(w, actions, k);
        assert actions[k] in actions;
        assert InStepAt(w, actions, k) && InStepAt(w, actions, k + 1);
        NextInStepIff(Run(w, actions[..k]), actions[k]);
      }
    }
  }

  // ----- runs from boot -----

  lemma InitialObeys(config: seq<ServiceConfig>, overrides: map<string, bool>)
    requires Distinct(Names(config))
    ensures InStep(Initial(config, overrides)) && AllObedient(Initial(config, overrides))
  {
    var w := Initial(config, overrides);
    assert w.services.Keys == NameSet(config);
    forall n | n in w.services
      ensures Agrees(config, n, w.services[n]) && Obedient(w.services[n])
    {
      FreshObeys(Find(config, n).value.enabled);
    }
  }

  lemma FreshObeys(enabled: bool)
    ensures Obedient(Fresh(enabled))
  {
  }

  /** Boot asks only enabled services to start. */
  lemma {:induction false} BootObeys(config: seq<ServiceConfig>, overrides: map<string, bool>, order: seq<string>)
    requires Distinct(Names(config))
    requires forall n :: n in order && n in Names(config) ==> Find(config, n).value.enabled
    ensures var w := Boot(config, overrides, order);
            InStep(w) && AllObedient(w) && w.config == config
    decreases |order|
  {
    if order == [] {
      InitialObeys(config, overrides);
    } else {
      var k := |order| - 1;
      assert forall n :: n in order[..k] ==> n in order;
      BootObeys(config, overrides, order[..k]);
      assert order[k] in order;
      var w := Boot(config, overrides, order[..k]);
      assert order[k] in w.services ==> Agrees(w.config, order[k], w.services[order[k]]);
      SendObeys(w, order[k], Start(false));
      SendOnlyQueues(w, order[k], Start(false));
      QueuedInStep(w, w.Send(order[k], Start(false)));
    }
  }

  /** The promise, for every run after boot without shutdown: all through it, a disabled service is down
      or about to be stopped if and only if no reload restarts a service whose runtime flag is off while
      both configurations call it enabled. */
  lemma DisabledInEveryRunIff(config: seq<ServiceConfig>, overrides: map<string, bool>,
                              order: seq<string>, actions: seq<Action>)
    requires Distinct(Names(config))
    requires forall n :: n in order && n in Names(config) ==> Find(config, n).value.enabled
    requires forall a :: a in actions ==> Peaceful(a)
    ensures var w := Boot(config, overrides, order);
            AlwaysPromised(w, actions) <==> AlwaysHarmless(w, actions)
  {
    BootObeys(config, overrides, order);
    BootIsHealthy(config, overrides, order);
    RunPromisedIff(Boot(config, overrides, order), actions);
  }

  /** In particular, the promise holds in every run in which no toggle is half done. */
  lemma DisabledInEveryRun(config: seq<ServiceConfig>, overrides: map<string, bool>,
                           order: seq<string>, actions: seq<Action>)
    requires Distinct(Names(config))
    requires forall n :: n in order && n in Names(config) ==> Find(config, n).value.enabled
    requires forall a :: a in actions ==> Peaceful(a)
    requires NeverHalfDone(Boot(config, overrides, order), actions)
    ensures var w := Run(Boot(config, overrides, order), actions);
            InStep(w) && AllPromised(w)
  {
    var w := Boot(config, overrides, order);
    BootObeys(config, overrides, order);
    RunInStepIff(w, actions);
    forall k: nat | k < |actions|
      ensures HarmlessAt(w, actions, k)
    {
      assert InStepAt(w, actions, k);
    }
    DisabledInEveryRunIff(config, overrides, order, actions);
    assert actions[..|actions|] == actions;
    assert InStepAt(w, actions, |actions|) && PromisedAt(w, actions, |actions|);
  }

  // ----- how soon -----

  /** Steps until the loop is back at its head. */
  function ToTop(phase: Phase): nat {
    match phase
    case Top => 0
    case Handling(_) => 1
    case Looking => 4
    case BackingOff(_) => 3
    case Retrying => 3
    case Watching => 2
    case Probing => 1
  }

  /** Steps until every message now queued has been acted on. */
  function StepsLeft(s: Svc): nat {
    ToTop(s.mon.phase) + 2 * |s.queue|
  }

  ghost predicate DownOrSoon(s: Svc, k: int) {
    Obedient(s) && !s.rt.enabled && (Down(s) || StepsLeft(s) <= k)
  }

  lemma SettleTick(c: Ctx, cfg: ServiceConfig, states: map<string, ServiceState>, env: TickEnv, now: nat, k: nat)
    requires DownOrSoon(c.s, k + 1)
    ensures DownOrSoon(Tick(c, cfg, states, false, env, now).s, k)
  {
    TickObeys(c, cfg, states, env, now);
    if Down(c.s) {
      DownTickIsIdle(c, cfg, states, env, now);
    } else if !c.s.mon.phase.Top? {
      assert c.s.mon.phase.Handling? ==> c.s.mon.phase.msg in Unhandled(c.s);
      TickWorks(c, cfg, states, false, env, now, 0);
    }
  }

  ghost predicate Settling(w: World, n: string, k: int) {
    !w.stopAll && n in w.services && Find(w.config, n).Some? && DownOrSoon(w.services[n], k)
  }

  lemma SettleStep(w: World, n: string, env: TickEnv, k: nat)
    requires Settling(w, n, k + 1)
    ensures Settling(TickService(w, n, env), n, k)
  {
    SettleTick(Ctx(w.services[n], w.reg), Find(w.config, n).value, w.States(), env, w.now, k);
  }

  function Ticks(n: string, envs: seq<TickEnv>): (r: seq<Action>)
    ensures |r| == |envs|
  {
    seq(|envs|, i requires 0 <= i < |envs| => ATick(n, envs[i]))
  }

  lemma LastTick(w: World, n: string, envs: seq<TickEnv>)
    requires envs != []
    ensures var k := |envs| - 1;
            Run(w, Ticks(n, envs)) == TickService(Run(w, Ticks(n, envs[..k])), n, envs[k])
  {
    assert Ticks(n, envs)[..|envs| - 1] == Ticks(n, envs[..|envs| - 1]);
  }

  lemma {:induction false} SettlesBy(w: World, n: string, envs: seq<TickEnv>, k: nat)
    requires Settling(w, n, |envs| + k)
    ensures Settling(Run(w, Ticks(n, envs)), n, k)
    decreases |envs|
  {
    if envs != [] {
      var last := |envs| - 1;
      SettlesBy(w, n, envs[..last], k + 1);
      LastTick(w, n, envs);
      SettleStep(Run(w, Ticks(n, envs[..last])), n, envs[last], k);
    }
  }

  /** A disabled service is down once its monitor has finished its iteration and spent two steps on each
      queued message, and it stays down. */
  lemma DisableSettles(w: World, n: string, envs: seq<TickEnv>)
    requires Named(w) && AllObedient(w)
    requires n in w.services && !w.services[n].rt.enabled && |envs| >= StepsLeft(w.services[n])
    ensures n in Run(w, Ticks(n, envs)).services && Down(Run(w, Ticks(n, envs)).services[n])
  {
    SettlesBy(w, n, envs, 0);
  }
}
