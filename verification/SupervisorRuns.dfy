/** Invariants of the whole supervisor over every run. */
module SupervisorRuns {
  import opened Basics
  import opened Service
  import opened SupervisorSpec
  import opened ServiceInvariant
  import R = Reaper

  function ThresholdOf(ts: map<string, nat>, n: string): Option<nat> {
    if n in ts then Some(ts[n]) else None
  }

  /** The configured names are distinct and are exactly the monitored services. */
  ghost predicate Named(w: World) {
    Distinct(Names(w.config)) && w.services.Keys == NameSet(w.config)
  }

  ghost predicate ServiceOk(w: World, n: string, ts: map<string, nat>)
    requires n in w.services
  {
    Inv(w.services[n], n, ThresholdOf(ts, n))
  }

  /** `ts` fixes the failure threshold of some services for the whole run. */
  ghost predicate Fixed(services: seq<ServiceConfig>, ts: map<string, nat>) {
    && (forall n :: n in ts ==> ts[n] > 0)
    && (forall svc :: svc in services ==> FixedThreshold(svc, ThresholdOf(ts, svc.name)))
  }

  /** The invariant of every reachable supervisor state. */
  ghost predicate Sound(w: World, ts: map<string, nat>) {
    && Named(w)
    && R.Valid(w.reg)
    && Fixed(w.config, ts)
    && forall n :: n in w.services ==> ServiceOk(w, n, ts)
  }

  /** What a caller guarantees: reloads carry validated configurations with the fixed thresholds. */
  ghost predicate Allowed(a: Action, ts: map<string, nat>) {
    a.AReload? ==> Distinct(Names(a.services)) && Fixed(a.services, ts)
  }

  // ----- reload, one service at a time -----

  lemma {:induction false} ReloadEachKeeps(w: World, previous: seq<ServiceConfig>, services: seq<ServiceConfig>)
    ensures ReloadEach(w, previous, services) == w.(services := ReloadEach(w, previous, services).services)
    ensures forall n :: n !in Names(services) ==>
              && (n in ReloadEach(w, previous, services).services <==> n in w.services)
              && (n in w.services ==> ReloadEach(w, previous, services).services[n] == w.services[n])
    decreases |services|
  {
    if services != [] {
      var k := |services| - 1;
      ReloadEachKeeps(w, previous, services[..k]);
      assert Names(services) == Names(services[..k]) + [services[k].name];
    }
  }

  /** With distinct names, each service is treated on its own, whatever the order. */
  lemma {:induction false} ReloadEachAt(w: World, previous: seq<ServiceConfig>, services: seq<ServiceConfig>, i: nat)
    requires i < |services| && Distinct(Names(services))
    ensures var n, w', w1 := services[i].name, ReloadEach(w, previous, services), ReloadOne(w, previous, services[i]);
            (n in w'.services <==> n in w1.services) && (n in w1.services ==> w'.services[n] == w1.services[n])
    decreases |services|
  {
    var k := |services| - 1;
    var rest := services[..k];
    assert Names(rest) == Names(services)[..k];
    assert Names(services)[i] == services[i].name && Names(services)[k] == services[k].name;
    if i < k {
      ReloadEachAt(w, previous, rest, i);
      assert rest[i] == services[i];
    } else {
      assert services[k].name !in Names(rest);
      ReloadEachKeeps(w, previous, rest);
    }
  }

  lemma Position(services: seq<ServiceConfig>, n: string) returns (i: nat)
    requires n in NameSet(services)
    ensures i < |services| && services[i].name == n
  {
    i :| 0 <= i < |Names(services)| && Names(services)[i] == n;
  }

  /** What a reload leaves at each service of the new configuration. */
  function Reloaded(w: World, svc: ServiceConfig): Svc
    requires svc.name in Names(w.config) ==> svc.name in w.services
  {
    match Find(w.config, svc.name)
    case None => Added(svc)
    case Some(was) => Kept(w.services[svc.name], was, svc, w.now)
  }

  /** Reload, service by service: the name sets agree again and each record is determined alone. */
  lemma ReloadAt(w: World, services: seq<ServiceConfig>)
    requires Named(w) && Distinct(Names(services))
    ensures Named(Reload(w, services))
    ensures Reload(w, services) == w.(config := services, services := Reload(w, services).services)
    ensures forall i :: 0 <= i < |services| ==>
              && (services[i].name in Names(w.config) ==> services[i].name in w.services)
              && services[i].name in Reload(w, services).services
              && Reload(w, services).services[services[i].name] == Reloaded(w, services[i])
  {
    var w1 := w.(config := services, services := w.services - (NameSet(w.config) - NameSet(services)));
    var w' := Reload(w, services);
    ReloadEachKeeps(w1, w.config, services);
    forall i | 0 <= i < |services|
      ensures services[i].name in Names(w.config) ==> services[i].name in w.services
      ensures services[i].name in w'.services && w'.services[services[i].name] == Reloaded(w, services[i])
    {
      ReloadEachAt(w1, w.config, services, i);
    }
    forall n
      ensures n in w'.services <==> n in NameSet(services)
    {
      if n in NameSet(services) {
        var i := Position(services, n);
      }
    }
  }

  // ----- every step keeps the invariant -----

  lemma PutKeeps(w: World, n: string, s: Svc, ts: map<string, nat>)
    requires Sound(w, ts) && n in w.services
    requires Inv(s, n, ThresholdOf(ts, n))
    ensures Sound(w.Put(n, s), ts)
  {
    var w' := w.Put(n, s);
    assert w'.services.Keys == w.services.Keys;
    forall m | m in w'.services
      ensures ServiceOk(w', m, ts)
    {
      assert ServiceOk(w, m, ts);
    }
  }

  lemma SendKeeps(w: World, n: string, msg: CtlMsg, ts: map<string, nat>)
    requires Sound(w, ts)
    ensures Sound(w.Send(n, msg), ts)
  {
    if n in w.services {
      assert ServiceOk(w, n, ts);
      EnqueueKeeps(w.services[n], msg, n, ThresholdOf(ts, n));
      PutKeeps(w, n, Enqueue(w.services[n], msg), ts);
    }
  }

  /** Flipping the flag of the service found first touches nothing else. */
  lemma {:induction false} WithEnabledFirst(config: seq<ServiceConfig>, i: nat, enabled: bool)
    requires i < |config| && forall k :: 0 <= k < i ==> config[k].name != config[i].name
    ensures WithEnabled(config, config[i].name, enabled) == config[i := config[i].(enabled := enabled)]
  {
    if i > 0 {
      var tail := config[1..];
      WithEnabledFirst(tail, i - 1, enabled);
      assert config == [config[0]] + tail;
    }
  }

  lemma WithEnabledIs(config: seq<ServiceConfig>, i: nat, enabled: bool)
    requires i < |config| && Distinct(Names(config))
    ensures WithEnabled(config, config[i].name, enabled) == config[i := config[i].(enabled := enabled)]
    ensures Names(config[i := config[i].(enabled := enabled)]) == Names(config)
  {
    assert forall k :: 0 <= k < i ==> Names(config)[k] == config[k].name;
    WithEnabledFirst(config, i, enabled);
  }

  /** The parts of the state that no service record depends on. */
  lemma GlobalsKeep(w: World, v: World, ts: map<string, nat>)
    requires Sound(w, ts)
    requires v.services == w.services && R.Valid(v.reg)
    requires Names(v.config) == Names(w.config) && Fixed(v.config, ts)
    ensures Sound(v, ts)
  {
    forall n | n in v.services
      ensures ServiceOk(v, n, ts)
    {
      assert ServiceOk(w, n, ts);
    }
  }

  lemma SetEnabledKeeps(w: World, n: string, enabled: bool, written: bool, ts: map<string, nat>)
    requires Sound(w, ts)
    ensures Sound(SetEnabled(w, n, enabled, written).0, ts)
  {
    if n in NameSet(w.config) {
      var i := Position(w.config, n);
      WithEnabledIs(w.config, i, enabled);
      var config := w.config[i := w.config[i].(enabled := enabled)];
      assert Fixed(config, ts) by {
        assert FixedThreshold(w.config[i], ThresholdOf(ts, n));
        assert forall svc :: svc in config ==> svc in w.config || svc == config[i];
      }
      var w2 := w.(config := config, overrides := w.overrides[n := enabled]);
      GlobalsKeep(w, w.(config := config), ts);
      GlobalsKeep(w, w2, ts);
      assert ServiceOk(w2, n, ts);
      FollowKeeps(w2.services[n], enabled, w.now, n, ThresholdOf(ts, n));
      PutKeeps(w2, n, Follow(w2.services[n], enabled, w.now), ts);
    }
  }

  lemma FreshIsSound(enabled: bool, n: string, t: Option<nat>)
    requires t.Some? ==> t.value > 0
    ensures Inv(Fresh(enabled), n, t)
  {
  }

  lemma ReloadKeeps(w: World, services: seq<ServiceConfig>, ts: map<string, nat>)
    requires Sound(w, ts) && Distinct(Names(services)) && Fixed(services, ts)
    ensures Sound(Reload(w, services), ts)
  {
    ReloadAt(w, services);
    forall n | n in Reload(w, services).services
      ensures ServiceOk(Reload(w, services), n, ts)
    {
      var i := Position(services, n);
      var t := ThresholdOf(ts, n);
      assert services[i] in services;
      if n in Names(w.config) {
        assert ServiceOk(w, n, ts);
        KeptKeeps(w.services[n], Find(w.config, n).value, services[i], w.now, n, t);
      } else {
        FreshIsSound(services[i].enabled, n, t);
        EnqueueKeeps(Fresh(services[i].enabled), Start(false), n, t);
      }
    }
  }

  /** A service's record and the registry move together. */
  lemma StepKeeps(w: World, n: string, c: Ctx, ts: map<string, nat>)
    requires Sound(w, ts) && n in w.services && Steady(c, n, ThresholdOf(ts, n))
    ensures Sound(w.Put(n, c.s).(reg := c.reg), ts)
  {
    PutKeeps(w, n, c.s, ts);
    GlobalsKeep(w.Put(n, c.s), w.Put(n, c.s).(reg := c.reg), ts);
  }

  lemma TickServiceKeeps(w: World, n: string, env: TickEnv, ts: map<string, nat>)
    requires Sound(w, ts)
    ensures Sound(TickService(w, n, env), ts)
  {
    if n in w.services && Find(w.config, n).Some? {
      assert ServiceOk(w, n, ts);
      var cfg := Find(w.config, n).value;
      var c := Ctx(w.services[n], w.reg);
      TickKeeps(c, cfg, w.States(), w.stopAll, env, w.now, ThresholdOf(ts, n));
      StepKeeps(w, n, Tick(c, cfg, w.States(), w.stopAll, env, w.now), ts);
    }
  }

  lemma {:induction false} SendAllKeeps(w: World, names: seq<string>, msg: CtlMsg, ts: map<string, nat>)
    requires Sound(w, ts)
    ensures Sound(SendAll(w, names, msg), ts)
    decreases |names|
  {
    if names != [] {
      SendAllKeeps(w, names[..|names| - 1], msg, ts);
      SendKeeps(SendAll(w, names[..|names| - 1], msg), names[|names| - 1], msg, ts);
    }
  }

  lemma StopAllKeeps(w: World, order: seq<string>, ts: map<string, nat>)
    requires Sound(w, ts)
    ensures Sound(StopAll(w, order), ts)
  {
    GlobalsKeep(w, w.(stopAll := true), ts);
    SendAllKeeps(w.(stopAll := true), order, Stop, ts);
    SendAllKeeps(SendAll(w.(stopAll := true), order, Stop), order, Quit, ts);
  }

  /** A request either fails without effect or appends one message. */
  lemma RequestsOnlySend(w: World, n: string, force: bool)
    ensures StartService(w, n, force).0 == if StartService(w, n, force).1.Ok? then w.Send(n, Start(force)) else w
    ensures StopService(w, n).0 == if StopService(w, n).1.Ok? then w.Send(n, Stop) else w
    ensures RestartService(w, n).0 == if RestartService(w, n).1.Ok? then w.Send(n, Restart) else w
  {
  }

  /** One step of any kind keeps the invariant of all services and of the registry. */
  lemma NextKeeps(w: World, a: Action, ts: map<string, nat>)
    requires Sound(w, ts) && Allowed(a, ts)
    ensures Sound(Next(w, a), ts)
  {
    match a
    case AStart(n, force) =>
      RequestsOnlySend(w, n, force);
      SendKeeps(w, n, Start(force), ts);
    case AStop(n) =>
      RequestsOnlySend(w, n, false);
      SendKeeps(w, n, Stop, ts);
    case ARestart(n) =>
      RequestsOnlySend(w, n, false);
      SendKeeps(w, n, Restart, ts);
    case ASetEnabled(n, enabled, written) => SetEnabledKeeps(w, n, enabled, written, ts);
    case AReload(services) => ReloadKeeps(w, services, ts);
    case ATick(n, env) => TickServiceKeeps(w, n, env, ts);
    case AReap(arrival) =>
      R.PublishKeepsValid(w.reg, arrival);
      GlobalsKeep(w, w.(reg := R.Publish(w.reg, arrival)), ts);
    case AElapse(secs) => GlobalsKeep(w, w.(now := w.now + secs), ts);
    case AShutdown(order) => StopAllKeeps(w, order, ts);
  }

  lemma InitialIsSound(config: seq<ServiceConfig>, overrides: map<string, bool>, ts: map<string, nat>)
    requires Distinct(Names(config)) && Fixed(config, ts)
    ensures Sound(Initial(config, overrides), ts)
  {
    var w := Initial(config, overrides);
    forall n | n in w.services
      ensures ServiceOk(w, n, ts)
    {
      FreshIsSound(Find(config, n).value.enabled, n, ThresholdOf(ts, n));
    }
  }

  lemma BootIsSound(config: seq<ServiceConfig>, overrides: map<string, bool>, order: seq<string>, ts: map<string, nat>)
    requires Distinct(Names(config)) && Fixed(config, ts)
    ensures Sound(Boot(config, overrides, order), ts)
  {
    InitialIsSound(config, overrides, ts);
    SendAllKeeps(Initial(config, overrides), order, Start(false), ts);
  }

  lemma RunSnoc(w: World, actions: seq<Action>, k: nat)
    requires k < |actions|
    ensures Run(w, actions[..k + 1]) == Next(Run(w, actions[..k]), actions[k])
  {
    assert actions[..k + 1][..k] == actions[..k];
  }

  /** The invariant holds in every state of every run that follows boot. */
  lemma {:induction false} RunIsSound(w: World, actions: seq<Action>, ts: map<string, nat>)
    requires Sound(w, ts)
    requires forall a :: a in actions ==> Allowed(a, ts)
    ensures Sound(Run(w, actions), ts)
    decreases |actions|
  {
    if actions != [] {
      var k := |actions| - 1;
      assert actions[k] in actions;
      RunIsSound(w, actions[..k], ts);
      NextKeeps(Run(w, actions[..k]), actions[k], ts);
    }
  }

  /** Steps of `n` in a run. */
  function StepsOf(actions: seq<Action>, n: string): nat
    decreases |actions|
  {
    if actions == [] then 0
    else
      var k := |actions| - 1;
      StepsOf(actions[..k], n) + if actions[k].ATick? && actions[k].n == n then 1 else 0
  }

  // ----- the same without fixed thresholds -----

  /** Named, with a valid registry and every service in its invariant. */
  ghost predicate Healthy(w: World) {
    Named(w) && R.Valid(w.reg) && forall n :: n in w.services ==> Inv(w.services[n], n, None)
  }

  ghost predicate Validated(a: Action) {
    a.AReload? ==> Distinct(Names(a.services))
  }

  lemma HealthyIsSound(w: World)
    ensures Healthy(w) <==> Sound(w, map[])
  {
    assert Sound(w, map[]) ==> forall n :: n in w.services ==> ServiceOk(w, n, map[]);
  }

  lemma NextIsHealthy(w: World, a: Action)
    requires Healthy(w) && Validated(a)
    ensures Healthy(Next(w, a))
  {
    HealthyIsSound(w);
    assert Allowed(a, map[]);
    NextKeeps(w, a, map[]);
    HealthyIsSound(Next(w, a));
  }

  lemma BootIsHealthy(config: seq<ServiceConfig>, overrides: map<string, bool>, order: seq<string>)
    requires Distinct(Names(config))
    ensures Healthy(Boot(config, overrides, order))
  {
    BootIsSound(config, overrides, order, map[]);
    HealthyIsSound(Boot(config, overrides, order));
  }

  lemma RunIsHealthy(w: World, actions: seq<Action>)
    requires Healthy(w) && forall a :: a in actions ==> Validated(a)
    ensures Healthy(Run(w, actions))
  {
    HealthyIsSound(w);
    assert forall a :: a in actions ==> Allowed(a, map[]);
    RunIsSound(w, actions, map[]);
    HealthyIsSound(Run(w, actions));
  }

  // ----- what happens to a service outside its own monitor -----

  /** Nothing new, or one more event. */
  ghost predicate Grown(j: Journal, j': Journal) {
    j' == j || (j'.Event? && j'.prev == j)
  }

  /** A service that stays keeps its monitor's place and gains at most an event; one that is new has no past. */
  ghost predicate Passed(w: World, w': World, n: string) {
    n in w'.services ==>
      if n in w.services then
        Grown(w.services[n].journal, w'.services[n].journal) && w'.services[n].mon == w.services[n].mon
      else
        w'.services[n].journal.Created? && w'.services[n].mon == Fresh(true).mon
  }

  /** The same services, each with its history and its place. */
  ghost predicate OnlyQueued(w: World, w': World) {
    && w'.services.Keys == w.services.Keys
    && forall n :: n in w.services ==> w'.services[n] == w.services[n].(queue := w'.services[n].queue)
  }

  lemma SendOnlyQueues(w: World, m: string, msg: CtlMsg)
    ensures OnlyQueued(w, w.Send(m, msg)) && w.Send(m, msg) == w.(services := w.Send(m, msg).services)
  {
    assert w.Send(m, msg).services.Keys == w.services.Keys;
  }

  lemma {:induction false} SendAllOnlyQueues(w: World, names: seq<string>, msg: CtlMsg)
    ensures OnlyQueued(w, SendAll(w, names, msg)) && SendAll(w, names, msg) == w.(services := SendAll(w, names, msg).services)
    decreases |names|
  {
    if names != [] {
      var k := |names| - 1;
      SendAllOnlyQueues(w, names[..k], msg);
      SendOnlyQueues(SendAll(w, names[..k], msg), names[k], msg);
    }
  }

  lemma StopAllOnlyQueues(w: World, order: seq<string>)
    ensures OnlyQueued(w, StopAll(w, order))
    ensures StopAll(w, order) == w.(stopAll := true, services := StopAll(w, order).services)
  {
    var w0 := w.(stopAll := true);
    SendAllOnlyQueues(w0, order, Stop);
    SendAllOnlyQueues(SendAll(w0, order, Stop), order, Quit);
  }

  lemma RequestOnlyQueues(w: World, m: string, force: bool)
    ensures OnlyQueued(w, StartService(w, m, force).0)
    ensures OnlyQueued(w, StopService(w, m).0) && OnlyQueued(w, RestartService(w, m).0)
  {
    RequestsOnlySend(w, m, force);
    SendOnlyQueues(w, m, Start(force));
    SendOnlyQueues(w, m, Stop);
    SendOnlyQueues(w, m, Restart);
  }

  lemma KeptGrows(s: Svc, was: ServiceConfig, svc: ServiceConfig, now: nat)
    ensures Grown(s.journal, Kept(s, was, svc, now).journal) && Kept(s, was, svc, now).mon == s.mon
  {
  }

  lemma TogglePasses(w: World, m: string, enabled: bool, written: bool, n: string)
    ensures Passed(w, SetEnabled(w, m, enabled, written).0, n)
    ensures SetEnabled(w, m, enabled, written).0.services.Keys == w.services.Keys
  {
    assert m in w.services ==> w.services[m := Follow(w.services[m], enabled, w.now)].Keys == w.services.Keys;
  }

  lemma ReloadPasses(w: World, services: seq<ServiceConfig>, n: string)
    requires Named(w) && Distinct(Names(services))
    ensures Passed(w, Reload(w, services), n)
    ensures n in Reload(w, services).services <==> n in Names(services)
  {
    ReloadAt(w, services);
    assert n in NameSet(services) <==> n in Names(services);
    if n in Names(services) {
      var i := Position(services, n);
      if n in w.services {
        KeptGrows(w.services[n], Find(w.config, n).value, services[i], w.now);
      }
    }
  }

  lemma RequestPasses(w: World, m: string, force: bool, n: string)
    ensures Passed(w, StartService(w, m, force).0, n) && OnlyQueued(w, StartService(w, m, force).0)
    ensures Passed(w, StopService(w, m).0, n) && OnlyQueued(w, StopService(w, m).0)
    ensures Passed(w, RestartService(w, m).0, n) && OnlyQueued(w, RestartService(w, m).0)
    ensures StartService(w, m, force).0.stopAll == StopService(w, m).0.stopAll == RestartService(w, m).0.stopAll == w.stopAll
  {
    RequestsOnlySend(w, m, force);
    RequestOnlyQueues(w, m, force);
  }

  /** Whatever is not a step of its own monitor leaves a service its past and its place. */
  lemma OthersPass(w: World, a: Action, n: string)
    requires Named(w) && Validated(a) && !(a.ATick? && a.n == n)
    ensures Passed(w, Next(w, a), n)
    ensures n in w.services && (a.AReload? ==> n in Names(a.services)) ==> n in Next(w, a).services
    ensures w.stopAll ==> Next(w, a).stopAll
  {
    match a
    case AStart(m, force) => RequestPasses(w, m, force, n);
    case AStop(m) => RequestPasses(w, m, false, n);
    case ARestart(m) => RequestPasses(w, m, false, n);
    case ASetEnabled(m, enabled, written) => TogglePasses(w, m, enabled, written, n);
    case AReload(services) =>
      ReloadAt(w, services);
      ReloadPasses(w, services, n);
    case ATick(m, env) =>
    case AReap(arrival) =>
    case AElapse(secs) =>
    case AShutdown(order) => StopAllOnlyQueues(w, order);
  }
}
