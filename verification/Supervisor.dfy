/** The supervisor object: its maps and channels, refined step by step from `SupervisorSpec`. */
module Supervisor {
  import opened Basics
  import opened Service
  import opened SupervisorSpec
  import SupervisorRuns
  import Requests
  import MonitorThread
  import BootOrder
  import TopoSort
  import Paths
  import R = Reaper

  class Supervisor {
    const exits: R.ExitRegistry
    var config: seq<ServiceConfig>
    var runtimes: map<string, Runtime>
    var ctl: map<string, seq<CtlMsg>>
    var monitors: map<string, Monitor>
    var overrides: map<string, bool>
    var stopAll: bool
    var now: nat
    ghost var world: World
    ghost var sends: seq<Sent>

    /** Runtimes, control channels and monitor threads carry the same names, and together with the
        remaining fields they are the abstract state. */
    ghost predicate Valid()
      reads this, exits
    {
      MapsValid() && world.reg == exits.Snapshot()
    }

    /** The same without the exit registry. */
    ghost predicate MapsValid()
      reads this
    {
      && world.config == config && world.overrides == overrides && world.stopAll == stopAll && world.now == now
      && runtimes.Keys == world.services.Keys && ctl.Keys == world.services.Keys && monitors.Keys == world.services.Keys
      && (forall n :: n in world.services ==> Holds(n, world.services[n]))
    }

    /** The maps hold the record `s` for service `n`. */
    ghost predicate Holds(n: string, s: Svc)
      reads this
    {
      && n in runtimes && n in ctl && n in monitors
      && runtimes[n] == s.rt && ctl[n] == s.queue && monitors[n] == s.mon
    }

    /** A fresh record for every configured service; the exit registry is process-wide. */
    constructor (config: seq<ServiceConfig>, overrides: map<string, bool>, exits: R.ExitRegistry)
      requires Distinct(Names(config)) && exits.Snapshot() == R.EMPTY_REGISTRY
      ensures Valid() && this.exits == exits
      ensures world == Initial(config, overrides)
    {
      this.exits, this.config, this.overrides, stopAll, now := exits, config, overrides, false, 0;
      runtimes, ctl, monitors := map[], map[], map[];
      world := World(config, map[], overrides, R.EMPTY_REGISTRY, false, 0);
      new;
      AddRecords(config);
      RecordedIsInitial(config, overrides);
      assert world.services == Initial(config, overrides).services;
    }

    method AddRecords(services: seq<ServiceConfig>)
      requires Valid()
      modifies this`runtimes, this`ctl, this`monitors, this`world
      ensures Valid() && world == old(world).(services := Recorded(old(world).services, services))
    {
      for i := 0 to |services|
        invariant Valid() && world == old(world).(services := Recorded(old(world).services, services[..i]))
      {
        assert services[..i + 1][..i] == services[..i];
        AddRecord(services[i].name, services[i].enabled);
      }
      assert services[..|services|] == services;
    }

    /** Write one service's record back into the maps. */
    method Store(n: string, rt: Runtime, queue: seq<CtlMsg>, mon: Monitor, ghost journal: Journal)
      requires Valid()
      modifies this`runtimes, this`ctl, this`monitors, this`world
      ensures Valid() && world == old(world).Put(n, Svc(rt, queue, mon, journal))
    {
      runtimes := runtimes[n := rt];
      ctl := ctl[n := queue];
      monitors := monitors[n := mon];
      world := world.Put(n, Svc(rt, queue, mon, journal));
    }

    /** A fresh runtime, channel and monitor thread. */
    method AddRecord(n: string, enabled: bool)
      requires Valid()
      modifies this`runtimes, this`ctl, this`monitors, this`world
      ensures Valid() && world == old(world).Put(n, Fresh(enabled))
    {
      Store(n, NewRuntime(enabled), [], Monitor(None, false, 0, false, Top), Created(enabled));
    }

    /** Send a message; the monitor that would receive it may have left. Every attempt is logged. */
    method SendTo(n: string, msg: CtlMsg) returns (r: Result<(), Error>)
      requires Valid()
      modifies this`ctl, this`world, this`sends
      ensures Valid() && (world, r) == SendCtl(old(world), n, msg)
      ensures world == old(world).Send(n, msg) && sends == old(sends) + [Sent(n, msg)]
      ensures (r.Ok? <==> n in ctl && !monitors[n].exited)
      ensures ctl == if r.Ok? then old(ctl)[n := old(ctl)[n] + [msg]] else old(ctl)
    {
      sends := sends + [Sent(n, msg)];
      if n !in ctl {
        return Err(UnknownService(n));
      }
      assert Holds(n, world.services[n]);
      if monitors[n].exited {
        SendToExited(world, n, msg);
        return Err(ChannelClosed(n));
      }
      PushMessage(n, msg);
      r := Ok(());
    }

    method PushMessage(n: string, msg: CtlMsg)
      requires Valid() && n in world.services && !world.services[n].mon.exited
      modifies this`ctl, this`world
      ensures Valid() && world == old(world).Send(n, msg)
      ensures ctl == old(ctl)[n := old(ctl)[n] + [msg]]
    {
      assert Holds(n, world.services[n]);
      ctl := ctl[n := ctl[n] + [msg]];
      world := world.Send(n, msg);
    }

    method SendEach(names: seq<string>, msg: CtlMsg)
      requires Valid()
      modifies this`ctl, this`world, this`sends
      ensures Valid() && world == SendAll(old(world), names, msg)
      ensures sends == old(sends) + SentTo(names, msg)
    {
      for i := 0 to |names|
        invariant Valid() && world == SendAll(old(world), names[..i], msg)
        invariant sends == old(sends) + SentTo(names[..i], msg)
      {
        assert names[..i + 1][..i] == names[..i];
        var sent := SendTo(names[i], msg);
        SentOneMore(old(sends), names, i, msg);
      }
      assert names[..|names|] == names;
    }

    /** Boot: background services first, then the foreground ones; a bad graph starts nothing. */
    method Boot() returns (r: Result<(), TopoSort.GraphError>, ghost order: seq<string>)
      requires Valid() && world == Initial(config, overrides) && Distinct(Names(config))
      modifies this`ctl, this`world, this`sends
      ensures Valid() && world == SupervisorSpec.Boot(config, overrides, order)
      ensures r.Ok? <==> TopoSort.DepsKnown(config) && Paths.Acyclic(TopoSort.DependencyEdges(config))
      ensures forall n :: n in order && n in Names(config) ==> Find(config, n).value.enabled
      ensures if r.Ok? then BootOrder.IsBootSequence(config, order) else order == []
      ensures sends == old(sends) + SentTo(order, Start(false))
    {
      var parts, sorted := BootOrder.PartitionBoot(config);
      if parts.Err? {
        order := [];
        return Err(parts.error), [];
      }
      var (foreground, background) := parts.value;
      order := background + foreground;
      SendStarts(background, foreground);
      assert BootOrder.IsPartition(config, sorted, foreground, background);
      r := Ok(());
    }

    method SendStarts(first: seq<string>, second: seq<string>)
      requires Valid()
      modifies this`ctl, this`world, this`sends
      ensures Valid() && world == SendAll(old(world), first + second, Start(false))
      ensures sends == old(sends) + SentTo(first + second, Start(false))
    {
      SendEach(first, Start(false));
      SendEach(second, Start(false));
      SendAllAppend(old(world), first, second, Start(false));
      SentToAppend(first, second, Start(false));
      Associate(old(sends), SentTo(first, Start(false)), SentTo(second, Start(false)));
    }

    method RequestStart(n: string, force: bool) returns (r: Result<StartReply, Error>)
      requires Valid()
      modifies this`ctl, this`world, this`sends
      ensures Valid() && (world, r) == StartService(old(world), n, force)
      ensures ctl == if r.Ok? then old(ctl)[n := old(ctl)[n] + [Start(force)]] else old(ctl)
    {
      if n !in runtimes {
        return Err(UnknownService(n));
      }
      if !runtimes[n].enabled {
        return Err(ServiceDisabled(n));
      }
      var cfg := Find(config, n);
      if cfg.None? {
        return Err(UnknownService(n));
      }
      var states := map m | m in runtimes :: runtimes[m].state;
      assert states == world.States();
      var unmet := UnmetDeps(states, cfg.value.dependsOn);
      if unmet.Err? {
        return Err(UnknownService(unmet.error));
      }
      var sent := SendTo(n, Start(force));
      if sent.Err? {
        return Err(sent.error);
      }
      r := Ok(if unmet.value == [] then StartingNow else if force then ForcedPast(unmet.value) else WaitingOn(unmet.value));
    }

    method RequestStop(n: string) returns (r: Result<(), Error>)
      requires Valid()
      modifies this`ctl, this`world, this`sends
      ensures Valid() && (world, r) == StopService(old(world), n)
      ensures r.Ok? <==> n in ctl && !monitors[n].exited
      ensures ctl == if r.Ok? then old(ctl)[n := old(ctl)[n] + [Stop]] else old(ctl)
    {
      r := SendTo(n, Stop);
    }

    method RequestRestart(n: string) returns (r: Result<(), Error>)
      requires Valid()
      modifies this`ctl, this`world, this`sends
      ensures Valid() && (world, r) == RestartService(old(world), n)
      ensures r.Ok? <==> n in ctl && runtimes[n].enabled && !monitors[n].exited
      ensures ctl == if r.Ok? then old(ctl)[n := old(ctl)[n] + [Restart]] else old(ctl)
    {
      if n !in runtimes {
        return Err(UnknownService(n));
      }
      if !runtimes[n].enabled {
        return Err(ServiceDisabled(n));
      }
      r := SendTo(n, Restart);
    }

    /** Flip the runtime flag, adjust the state, and tell the monitor. */
    method ApplyEnabled(n: string, enabled: bool)
      requires Valid() && n in runtimes
      modifies this`runtimes, this`ctl, this`monitors, this`world
      ensures Valid()
      ensures world == old(world).Put(n, Follow(old(world).services[n], enabled, now))
    {
      assert Holds(n, world.services[n]);
      var rt := runtimes[n].(enabled := enabled);
      var next := if !enabled then Some(Disabled) else if rt.state.Disabled? then Some(Pending) else None;
      if next.Some? {
        if rt.state != next.value {
          rt := rt.(events := PushEvent(rt.events, RuntimeEvent(now, StateChange, Some(rt.state), Some(next.value), None)));
        }
        rt := rt.(state := next.value,
                  pid := NextPid(rt.pid, next.value, None),
                  runningSince := NextSince(rt.runningSince, next.value, now));
      }
      ghost var followed := Follow(world.services[n], enabled, now);
      assert followed.rt == rt && followed.mon == monitors[n];
      var msg := if enabled then Start(false) else Stop;
      Store(n, rt, if monitors[n].exited then ctl[n] else ctl[n] + [msg], monitors[n], followed.journal);
    }

    /** `cfg.get_mut(n).enabled = enabled`. */
    method SetConfigured(n: string, enabled: bool)
      requires n in Names(config)
      modifies this`config
      ensures config == WithEnabled(old(config), n, enabled)
    {
      var i := 0;
      while config[i].name != n
        invariant 0 <= i < |config| && config == old(config)
        invariant forall k :: 0 <= k < i ==> config[k].name != n
        decreases |config| - i
      {
        i := i + 1;
      }
      SupervisorRuns.WithEnabledFirst(config, i, enabled);
      config := config[i := config[i].(enabled := enabled)];
    }

    /** Enable or disable a service; `written` is the outcome of the override file I/O. */
    method RequestEnabled(n: string, enabled: bool, written: bool) returns (r: Result<(), Error>)
      requires Valid()
      modifies this`config, this`overrides, this`runtimes, this`ctl, this`monitors, this`world
      ensures Valid() && (world, r) == SetEnabled(old(world), n, enabled, written)
    {
      if Find(config, n).None? {
        return Err(UnknownService(n));
      }
      SetConfigured(n, enabled);
      world := world.(config := config);
      if !written {
        return Err(OverrideIo);
      }
      overrides := overrides[n := enabled];
      world := world.(overrides := overrides);
      if n !in runtimes {
        return Err(UnknownService(n));
      }
      assert Holds(n, world.services[n]);
      var closed := monitors[n].exited;
      ApplyEnabled(n, enabled);
      r := if closed then Err(ChannelClosed(n)) else Ok(());
    }

    method RemoveOne(n: string)
      requires Valid()
      modifies this`runtimes, this`ctl, this`monitors, this`world
      ensures Valid() && world == old(world).(services := old(world).services - {n})
    {
      ctl, runtimes, monitors := ctl - {n}, runtimes - {n}, monitors - {n};
      world := world.(services := world.services - {n});
      forall m | m in world.services
        ensures Holds(m, world.services[m])
      {
        assert old(Holds(m, world.services[m]));
      }
    }

    /** Drop the records of services that left the configuration, in any order. */
    method RemoveRecords(names: set<string>)
      requires Valid()
      modifies this`runtimes, this`ctl, this`monitors, this`world
      ensures Valid()
      ensures world == old(world).(services := old(world).services - names)
    {
      var todo := names;
      while todo != {}
        invariant Valid() && todo <= names
        invariant world == old(world).(services := old(world).services - (names - todo))
        decreases todo
      {
        ghost var some := Pick(todo);
        var n :| n in todo;
        RemoveOne(n);
        RemoveOneMore(old(world).services, names, todo - {n}, n);
        assert names - todo == names - (todo - {n}) - {n};
        todo := todo - {n};
      }
      assert names - todo == names;
    }

    method AddService(svc: ServiceConfig)
      requires Valid()
      modifies this`runtimes, this`ctl, this`monitors, this`world, this`sends
      ensures Valid() && world == old(world).Put(svc.name, Added(svc))
      ensures old(runtimes).Keys <= runtimes.Keys
    {
      AddRecord(svc.name, svc.enabled);
      if svc.enabled {
        var sent := SendTo(svc.name, Start(false));
      }
      AddedIs(old(world), svc);
    }

    /** Bring one service of the new configuration up to date. */
    method UpdateOne(previous: seq<ServiceConfig>, svc: ServiceConfig)
      requires Valid() && (svc.name in Names(previous) ==> svc.name in runtimes)
      modifies this`runtimes, this`ctl, this`monitors, this`world, this`sends
      ensures Valid() && world == ReloadOne(old(world), previous, svc)
      ensures old(runtimes).Keys <= runtimes.Keys
    {
      var was := Find(previous, svc.name);
      if was.None? {
        AddService(svc);
        return;
      }
      if was.value.enabled != svc.enabled {
        ApplyEnabled(svc.name, svc.enabled);
      }
      if !DefinitionEq(was.value, svc) && svc.enabled {
        var sent := SendTo(svc.name, Restart);
      }
      KeptIs(old(world), svc.name, was.value, svc);
    }

    method UpdateEach(previous: seq<ServiceConfig>, services: seq<ServiceConfig>)
      requires Valid()
      requires forall svc :: svc in services && svc.name in Names(previous) ==> svc.name in runtimes
      modifies this`runtimes, this`ctl, this`monitors, this`world, this`sends
      ensures Valid() && world == ReloadEach(old(world), previous, services)
    {
      for i := 0 to |services|
        invariant Valid() && world == ReloadEach(old(world), previous, services[..i])
        invariant old(runtimes).Keys <= runtimes.Keys
      {
        assert services[..i + 1][..i] == services[..i];
        assert services[i] in services;
        UpdateOne(previous, services[i]);
      }
      assert services[..|services|] == services;
    }

    /** Apply a newly loaded configuration. */
    method ApplyReload(services: seq<ServiceConfig>)
      requires Valid() && runtimes.Keys == NameSet(config)
      modifies this`config, this`runtimes, this`ctl, this`monitors, this`world, this`sends
      ensures Valid() && world == Reload(old(world), services)
    {
      var previous := config;
      RemoveRecords(NameSet(previous) - NameSet(services));
      assert runtimes.Keys == NameSet(previous) * NameSet(services);
      config := services;
      world := world.(config := services);
      forall svc | svc in services && svc.name in Names(previous)
        ensures svc.name in runtimes
      {
        var i :| 0 <= i < |services| && services[i] == svc;
      }
      UpdateEach(previous, services);
    }

    /** One step of the monitor of `n`: its record is checked out, worked on, and put back. */
    method RunMonitor(n: string, env: TickEnv)
      requires Valid()
      modifies this`runtimes, this`ctl, this`monitors, this`world, exits
      ensures Valid() && world == TickService(old(world), n, env)
    {
      var cfg := Find(config, n);
      if n !in runtimes || cfg.None? {
        return;
      }
      var states := map m | m in runtimes :: runtimes[m].state;
      StatesAre(states);
      assert Holds(n, world.services[n]);
      var rt, queue, mon;
      ghost var journal;
      rt, queue, mon, journal := WorkOn(cfg.value, runtimes[n], ctl[n], monitors[n], world.services[n].journal, states, env);
      PutBack(n, rt, queue, mon, journal);
    }

    /** The record goes back into the maps, and the registry is as the step left it. */
    method PutBack(n: string, rt: Runtime, queue: seq<CtlMsg>, mon: Monitor, ghost journal: Journal)
      requires MapsValid()
      modifies this`runtimes, this`ctl, this`monitors, this`world
      ensures Valid() && world == old(world).Put(n, Svc(rt, queue, mon, journal)).(reg := exits.Snapshot())
    {
      world := world.(reg := exits.Snapshot());
      Store(n, rt, queue, mon, journal);
    }

    /** The step itself, on a record taken out of the maps. */
    method WorkOn(cfg: ServiceConfig, rt: Runtime, queue: seq<CtlMsg>, mon: Monitor, ghost journal: Journal,
                  states: map<string, ServiceState>, env: TickEnv)
      returns (rt': Runtime, queue': seq<CtlMsg>, mon': Monitor, ghost journal': Journal)
      modifies exits
      ensures Ctx(Svc(rt', queue', mon', journal'), exits.Snapshot())
              == Tick(Ctx(Svc(rt, queue, mon, journal), old(exits.Snapshot())), cfg, states, stopAll, env, now)
    {
      var held := if mon.phase.BackingOff? then mon.phase.cfg else cfg;
      ghost var c := Ctx(Svc(rt, queue, mon, journal), exits.Snapshot());
      if mon.phase.BackingOff? {
        MonitorThread.BackOffIgnores(c, held, cfg, states, stopAll, env, now);
      }
      var m := new MonitorThread.ServiceMonitor(held, exits, rt, queue, mon, now, journal);
      m.Step(states, stopAll, env);
      rt', queue', journal' := m.rt, m.queue, m.journal;
      mon' := Monitor(m.tracked, m.scheduled, m.streak, m.exited, m.phase);
    }

    lemma StatesAre(states: map<string, ServiceState>)
      requires Valid() && states.Keys == runtimes.Keys && forall m :: m in runtimes ==> states[m] == runtimes[m].state
      ensures states == world.States()
    {
      forall m | m in world.services
        ensures states[m] == world.services[m].rt.state
      {
        assert Holds(m, world.services[m]);
      }
    }

    /** The order of the stops: dependents first, or the reverse of the configuration when it cannot be sorted. */
    method StopOrder() returns (order: seq<string>)
      ensures Sortable(config) ==> BootOrder.IsShutdownOrder(config, order)
      ensures !Sortable(config) ==> order == BootOrder.Reversed(Names(config))
      ensures forall n :: n in order <==> n in Names(config)
      ensures Distinct(Names(config)) ==> Distinct(order)
    {
      var sorted := BootOrder.ShutdownOrder(config);
      order := if sorted.Ok? then sorted.value else BootOrder.Reversed(Names(config));
      ReversedHasSame(Names(config));
    }

    /** Send everyone a stop, and then everyone a quit. */
    method SendStops(order: seq<string>)
      requires Valid()
      modifies this`ctl, this`world, this`sends
      ensures Valid() && world == SendAll(SendAll(old(world), order, Stop), order, Quit)
      ensures sends == old(sends) + (SentTo(order, Stop) + SentTo(order, Quit))
    {
      SendEach(order, Stop);
      SendEach(order, Quit);
      Associate(old(sends), SentTo(order, Stop), SentTo(order, Quit));
    }

    /** Raise the stop flag, then send every monitor a stop and a quit in shutdown order. */
    method StopAllOrdered() returns (ghost order: seq<string>)
      requires Valid()
      modifies this`stopAll, this`ctl, this`world, this`sends
      ensures Valid() && world == StopAll(old(world), order)
      ensures Sortable(config) ==> BootOrder.IsShutdownOrder(config, order)
      ensures !Sortable(config) ==> order == BootOrder.Reversed(Names(config))
      ensures forall n :: n in order <==> n in Names(config)
      ensures ShutdownLog(config, old(sends), sends)
      ensures Distinct(Names(config)) ==>
                forall n :: n in old(world).services && n in Names(config) ==> ToldToLeave(old(world), world, n)
    {
      stopAll := true;
      world := world.(stopAll := true);
      var names := StopOrder();
      order := names;
      SendStops(names);
      ShutdownSends(config, old(sends), order);
      if Distinct(Names(config)) {
        EveryoneIsTold(old(world), order);
      }
    }
  }

  /** One fresh record per service, in order. */
  ghost function Recorded(start: map<string, Svc>, services: seq<ServiceConfig>): map<string, Svc>
    decreases |services|
  {
    if services == [] then start
    else
      var k := |services| - 1;
      Recorded(start, services[..k])[services[k].name := Fresh(services[k].enabled)]
  }

  lemma {:induction false} RecordedHas(services: seq<ServiceConfig>, n: string)
    ensures n in Recorded(map[], services) <==> n in Names(services)
    decreases |services|
  {
    if services != [] {
      var k := |services| - 1;
      RecordedHas(services[..k], n);
      assert Names(services) == Names(services[..k]) + [services[k].name];
    }
  }

  lemma {:induction false} RecordedAt(services: seq<ServiceConfig>, i: nat)
    requires i < |services| && Distinct(Names(services))
    ensures services[i].name in Recorded(map[], services)
    ensures Recorded(map[], services)[services[i].name] == Fresh(services[i].enabled)
    decreases |services|
  {
    var k := |services| - 1;
    if i < k {
      assert Names(services)[i] != Names(services)[k];
      assert Names(services[..k]) == Names(services)[..k];
      RecordedAt(services[..k], i);
    }
  }

  lemma RecordedIsInitial(config: seq<ServiceConfig>, overrides: map<string, bool>)
    requires Distinct(Names(config))
    ensures Recorded(map[], config) == Initial(config, overrides).services
  {
    forall n
      ensures n in Recorded(map[], config) <==> n in Names(config)
      ensures n in Names(config) ==> Recorded(map[], config)[n] == Fresh(Find(config, n).value.enabled)
    {
      RecordedHas(config, n);
      if n in Names(config) {
        var i := SupervisorRuns.Position(config, n);
        FindAt(config, i);
        RecordedAt(config, i);
      }
    }
  }

  lemma RemoveOneMore(services: map<string, Svc>, names: set<string>, todo: set<string>, n: string)
    requires n in names && n !in todo && todo <= names
    ensures services - (names - todo - {n}) - {n} == services - (names - todo)
  {
  }

  /** A fresh record, then the first start request. */
  lemma AddedIs(w: World, svc: ServiceConfig)
    ensures var w1 := w.Put(svc.name, Fresh(svc.enabled));
            w.Put(svc.name, Added(svc)) == if svc.enabled then w1.Send(svc.name, Start(false)) else w1
  {
    var n := svc.name;
    assert svc.enabled ==> w.services[n := Fresh(true)][n := Added(svc)] == w.services[n := Added(svc)];
  }

  /** Flag first, then restart: the two messages a kept service may get. */
  lemma KeptIs(w: World, n: string, was: ServiceConfig, svc: ServiceConfig)
    requires n in w.services
    ensures var w1 := if was.enabled != svc.enabled then w.Put(n, Follow(w.services[n], svc.enabled, w.now)) else w;
            w.Put(n, Kept(w.services[n], was, svc, w.now))
            == if !DefinitionEq(was, svc) && svc.enabled then w1.Send(n, Restart) else w1
  {
    assert w.services[n := w.services[n]] == w.services;
  }

  lemma SendToExited(w: World, n: string, msg: CtlMsg)
    requires n in w.services && w.services[n].mon.exited
    ensures w.Send(n, msg) == w
  {
    assert w.services[n := w.services[n]] == w.services;
  }

  lemma {:induction false} SendAllAppend(w: World, a: seq<string>, b: seq<string>, msg: CtlMsg)
    ensures SendAll(SendAll(w, a, msg), b, msg) == SendAll(w, a + b, msg)
    decreases |b|
  {
    if b == [] {
      assert a + b == a;
    } else {
      var k := |b| - 1;
      SendAllAppend(w, a, b[..k], msg);
      assert (a + b)[..|a + b| - 1] == a + b[..k];
    }
  }

  lemma ReversedHasSame(s: seq<string>)
    ensures forall n :: n in BootOrder.Reversed(s) <==> n in s
  {
    var r := BootOrder.Reversed(s);
    forall n | n in s
      ensures n in r
    {
      var k :| 0 <= k < |s| && s[k] == n;
      assert r[|s| - 1 - k] == n;
    }
  }

  // ----- what has been sent -----

  datatype Sent = Sent(name: string, msg: CtlMsg)

  /** One message to each name, in order. */
  function SentTo(names: seq<string>, msg: CtlMsg): (r: seq<Sent>)
    ensures |r| == |names|
    ensures forall i :: 0 <= i < |r| ==> r[i] == Sent(names[i], msg)
  {
    seq(|names|, i requires 0 <= i < |names| => Sent(names[i], msg))
  }

  lemma SentOneMore(before: seq<Sent>, names: seq<string>, i: nat, msg: CtlMsg)
    requires i < |names|
    ensures before + SentTo(names[..i], msg) + [Sent(names[i], msg)] == before + SentTo(names[..i + 1], msg)
  {
    assert SentTo(names[..i + 1], msg) == SentTo(names[..i], msg) + [Sent(names[i], msg)];
  }

  lemma SentToAppend(a: seq<string>, b: seq<string>, msg: CtlMsg)
    ensures SentTo(a + b, msg) == SentTo(a, msg) + SentTo(b, msg)
  {
  }

  /** Every stop goes out before every quit, and nothing else does. */
  ghost predicate StopsFirst(log: seq<Sent>) {
    && (forall i :: 0 <= i < |log| ==> log[i].msg == Stop || log[i].msg == Quit)
    && (forall i, j :: 0 <= i < j < |log| && log[i].msg == Quit ==> log[j].msg == Quit)
  }

  /** The stop to a service goes out before the stop to anything it depends on. */
  ghost predicate DependentsFirst(config: seq<ServiceConfig>, log: seq<Sent>) {
    forall svc, i, j ::
      svc in config && 0 <= i < |log| && 0 <= j < |log|
      && log[i] == Sent(svc.name, Stop) && log[j].msg == Stop && log[j].name in svc.dependsOn ==>
        i < j
  }

  /** The configuration has a start order. */
  ghost predicate Sortable(config: seq<ServiceConfig>) {
    TopoSort.DepsKnown(config) && Paths.Acyclic(TopoSort.DependencyEdges(config)) && Distinct(Names(config))
  }

  /** What a shutdown has sent: stops before quits and, in a sortable configuration, dependents first. */
  ghost predicate ShutdownLog(config: seq<ServiceConfig>, before: seq<Sent>, after: seq<Sent>) {
    before <= after && StopsFirst(after[|before|..]) && (Sortable(config) ==> DependentsFirst(config, after[|before|..]))
  }

  lemma ShutdownSends(config: seq<ServiceConfig>, before: seq<Sent>, order: seq<string>)
    requires Sortable(config) ==> BootOrder.IsShutdownOrder(config, order)
    ensures ShutdownLog(config, before, before + (SentTo(order, Stop) + SentTo(order, Quit)))
  {
    var log := SentTo(order, Stop) + SentTo(order, Quit);
    assert (before + log)[|before|..] == log;
    if Sortable(config) {
      SentDependentsFirst(config, order);
    }
  }

  lemma SentDependentsFirst(config: seq<ServiceConfig>, order: seq<string>)
    requires BootOrder.IsShutdownOrder(config, order)
    ensures DependentsFirst(config, SentTo(order, Stop) + SentTo(order, Quit))
  {
    var log := SentTo(order, Stop) + SentTo(order, Quit);
    forall svc, i, j | svc in config && 0 <= i < |log| && 0 <= j < |log| && log[i] == Sent(svc.name, Stop)
                       && log[j].msg == Stop && log[j].name in svc.dependsOn
      ensures i < j
    {
      assert i < |order| && j < |order|;
      TopoSort.PairsMeaning(config, (order[i], order[j]));
    }
  }

  /** A stop and a quit stand behind whatever was queued, if the monitor listens, and nothing else has changed. */
  ghost predicate ToldToLeave(w: World, w': World, n: string) {
    && n in w.services && n in w'.services
    && w'.services[n] == w.services[n].(
         queue := w.services[n].queue + if w.services[n].mon.exited then [] else [Stop, Quit])
  }

  lemma EveryoneIsTold(w: World, order: seq<string>)
    requires Distinct(order)
    ensures forall n :: n in w.services && n in order ==> ToldToLeave(w, StopAll(w, order), n)
  {
    forall n | n in w.services && n in order
      ensures ToldToLeave(w, StopAll(w, order), n)
    {
      Requests.StopAllMeaning(w, order, n);
    }
  }
}
