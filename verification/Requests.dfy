/** What each request, toggle, reload and boot does to the supervisor, field by field. */
module Requests {
  import opened Basics
  import opened Service
  import opened SupervisorSpec
  import opened SupervisorRuns
  import opened ServiceInvariant
  import R = Reaper

  /** `n` has one more message in its queue, and nothing else is different. */
  ghost predicate OneMore(w: World, w': World, n: string, msg: CtlMsg) {
    && n in w.services
    && w' == w.(services := w.services[n := w.services[n].(queue := w.services[n].queue + [msg])])
  }

  // ----- start, stop, restart -----

  /** A stop is refused exactly for an unknown name and for a monitor that has left. */
  lemma StopRequestMeaning(w: World, n: string)
    ensures var (w', r) := StopService(w, n);
            && (r.Ok? <==> n in w.services && !w.services[n].mon.exited)
            && (r == Err(UnknownService(n)) <==> n !in w.services)
            && (r == Err(ChannelClosed(n)) <==> n in w.services && w.services[n].mon.exited)
            && (if r.Ok? then OneMore(w, w', n, Stop) else w' == w)
  {
  }

  /** A restart is refused for an unknown name, a disabled service, and a monitor that has left. */
  lemma RestartRequestMeaning(w: World, n: string)
    ensures var (w', r) := RestartService(w, n);
            && (r.Ok? <==> n in w.services && w.services[n].rt.enabled && !w.services[n].mon.exited)
            && (r == Err(UnknownService(n)) <==> n !in w.services)
            && (r == Err(ServiceDisabled(n)) <==> n in w.services && !w.services[n].rt.enabled)
            && (r == Err(ChannelClosed(n)) <==> n in w.services && w.services[n].rt.enabled && w.services[n].mon.exited)
            && (if r.Ok? then OneMore(w, w', n, Restart) else w' == w)
  {
  }

  /** A start is refused, in this order, for an unknown name, a disabled service, an unknown dependency (naming the
      first), and a monitor that has left. */
  lemma StartRequestMeaning(w: World, n: string, force: bool)
    requires Named(w)
    ensures var (w', r) := StartService(w, n, force);
            && (if n !in w.services then r == Err(UnknownService(n))
                else if !w.services[n].rt.enabled then r == Err(ServiceDisabled(n))
                else
                  var deps := Find(w.config, n).value.dependsOn;
                  if exists d :: d in deps && d !in w.services then
                    exists k :: 0 <= k < |deps| && deps[k] !in w.services && r == Err(UnknownService(deps[k]))
                                && forall i :: 0 <= i < k ==> deps[i] in w.services
                  else if w.services[n].mon.exited then r == Err(ChannelClosed(n))
                  else r.Ok?)
            && (if r.Ok? then OneMore(w, w', n, Start(force)) else w' == w)
  {
    if n in w.services {
      UnmetDepsMeaning(w.States(), Find(w.config, n).value.dependsOn);
      FirstUnknown(w.States(), Find(w.config, n).value.dependsOn);
    }
  }

  lemma {:induction false} FirstUnknown(states: map<string, ServiceState>, deps: seq<string>)
    ensures UnmetDeps(states, deps).Err? ==>
              exists k :: 0 <= k < |deps| && deps[k] !in states && UnmetDeps(states, deps).error == deps[k]
                          && forall i :: 0 <= i < k ==> deps[i] in states
    decreases |deps|
  {
    if deps != [] {
      var last := |deps| - 1;
      FirstUnknown(states, deps[..last]);
      if UnmetDeps(states, deps[..last]).Err? {
        var k :| 0 <= k < last && deps[..last][k] !in states && UnmetDeps(states, deps[..last]).error == deps[..last][k]
                 && forall i :: 0 <= i < k ==> deps[..last][i] in states;
        assert deps[k] == deps[..last][k];
        assert forall i :: 0 <= i < k ==> deps[i] == deps[..last][i];
      } else {
        UnmetDepsMeaning(states, deps[..last]);
        assert forall i :: 0 <= i < last ==> deps[i] in deps[..last];
      }
    }
  }

  // ----- enabling and disabling -----

  /** The runtime record after the flag has been set: off is Disabled at once; on turns Disabled into Pending, keeps
      every other state, and starts no clock. */
  lemma FlagMeaning(s: Svc, enabled: bool, now: nat)
    requires |s.rt.events| <= 16
    ensures var rt := SetEnabledFlag(s, enabled, now).rt;
            && rt.enabled == enabled
            && rt.state == (if !enabled then Disabled else if s.rt.state == Disabled then Pending else s.rt.state)
            && rt.restarts == s.rt.restarts && rt.livenessFailures == s.rt.livenessFailures
            && (rt.state == s.rt.state ==> rt.events == s.rt.events)
            && (rt.state != s.rt.state ==>
                  && rt.pid == None && rt.runningSince == None
                  && rt.events == LastN(s.rt.events, 15)
                                  + [RuntimeEvent(now, StateChange, Some(s.rt.state), Some(rt.state), None)])
            && (enabled && s.rt.state != Disabled ==> rt == s.rt.(enabled := true))
    ensures SetEnabledFlag(s, enabled, now).mon == s.mon && SetEnabledFlag(s, enabled, now).queue == s.queue
  {
  }

  /** Setting a configured flag changes that flag and no other field of any service. */
  lemma ConfiguredFlag(config: seq<ServiceConfig>, n: string, enabled: bool)
    requires Distinct(Names(config))
    ensures var config' := WithEnabled(config, n, enabled);
            && |config'| == |config|
            && forall i :: 0 <= i < |config| ==>
                 config'[i] == if config[i].name == n then config[i].(enabled := enabled) else config[i]
  {
    if n in NameSet(config) {
      var i := Position(config, n);
      WithEnabledIs(config, i, enabled);
      assert forall k :: 0 <= k < |config| && k != i ==> Names(config)[k] != Names(config)[i];
    } else {
      NotConfigured(config, n, enabled);
    }
  }

  lemma {:induction false} NotConfigured(config: seq<ServiceConfig>, n: string, enabled: bool)
    requires n !in Names(config)
    ensures WithEnabled(config, n, enabled) == config
    ensures forall i :: 0 <= i < |config| ==> config[i].name != n
  {
    if config != [] {
      assert Names(config)[0] == config[0].name && Names(config[1..]) == Names(config)[1..];
      NotConfigured(config[1..], n, enabled);
      assert config == [config[0]] + config[1..];
      assert forall i :: 0 <= i < |config| ==> Names(config)[i] == config[i].name;
    }
  }

  /** A toggle, by its outcome: an unknown name changes nothing; otherwise the configured flag of `n` changes; a failed
      write ends it there, and a good one reaches the override and the service. */
  lemma EnabledMeaning(w: World, n: string, enabled: bool, written: bool)
    requires Named(w)
    ensures var (w', r) := SetEnabled(w, n, enabled, written);
            && r == (if n !in w.services then Err(UnknownService(n)) else if !written then Err(OverrideIo)
                     else if w.services[n].mon.exited then Err(ChannelClosed(n)) else Ok(()))
            && w'.config == WithEnabled(w.config, n, enabled)
            && w'.reg == w.reg && w'.stopAll == w.stopAll && w'.now == w.now
            && w'.overrides == (if n in w.services && written then w.overrides[n := enabled] else w.overrides)
            && w'.services == (if n in w.services && written then w.services[n := Toggled(w.services[n], enabled, w.now)] else w.services)
  {
    if n in w.services {
      FollowIsToggled(w.services[n], enabled, w.now);
    } else {
      NotConfigured(w.config, n, enabled);
    }
  }

  lemma FollowIsToggled(s: Svc, enabled: bool, now: nat)
    ensures Follow(s, enabled, now) == Toggled(s, enabled, now)
  {
    assert s.queue + [] == s.queue;
  }

  /** A service after a toggle: its flag is set, and one message has been sent, if anybody listens. */
  function Toggled(s: Svc, enabled: bool, now: nat): Svc {
    SetEnabledFlag(s, enabled, now).(
      queue := s.queue + if s.mon.exited then [] else [if enabled then Start(false) else Stop])
  }

  // ----- reload -----

  /** Equal in every field a reload compares: all but the enabled flag and the cached identity. */
  ghost predicate SameFields(a: ServiceConfig, b: ServiceConfig) {
    && a.name == b.name && a.daemon == b.daemon && a.restartPolicy == b.restartPolicy
    && a.successExitCodes == b.successExitCodes && a.startWaitSecs == b.startWaitSecs
    && a.background == b.background && a.orderPriority == b.orderPriority && a.dependsOn == b.dependsOn
    && a.cmd == b.cmd && a.startCmd == b.startCmd && a.stopCmd == b.stopCmd && a.restartCmd == b.restartCmd
    && a.livenessProbe == b.livenessProbe && a.labels == b.labels && a.execution == b.execution
  }

  lemma DefinitionEqIff(a: ServiceConfig, b: ServiceConfig)
    ensures DefinitionEq(a, b) <==> SameFields(a, b)
  {
  }

  /** What a reload sends to a service it keeps: a start or stop when the flag has changed, and then a restart when
      another field has changed and the service is enabled. */
  function ReloadMessages(was: ServiceConfig, svc: ServiceConfig, same: bool): seq<CtlMsg> {
    (if was.enabled == svc.enabled then [] else if svc.enabled then [Start(false)] else [Stop])
    + if !same && svc.enabled then [Restart] else []
  }

  /** A kept service gets those messages, follows a changed flag, and is otherwise left alone. */
  ghost predicate IsKept(s: Svc, s': Svc, was: ServiceConfig, svc: ServiceConfig, now: nat) {
    && s'.queue == s.queue + (if s.mon.exited then [] else ReloadMessages(was, svc, SameFields(was, svc)))
    && s'.rt == (if was.enabled == svc.enabled then s.rt else SetEnabledFlag(s, svc.enabled, now).rt)
    && s'.mon == s.mon
  }

  /** A new service: pending or disabled, never run, asked to start when enabled. */
  ghost predicate IsAdded(s: Svc, svc: ServiceConfig) {
    && s.rt == Runtime(if svc.enabled then Pending else Disabled, None, 0, 0, svc.enabled, None, [])
    && s.queue == (if svc.enabled then [Start(false)] else [])
    && s.mon == Monitor(None, false, 0, false, Top)
  }

  lemma KeptMeaning(s: Svc, was: ServiceConfig, svc: ServiceConfig, now: nat)
    ensures IsKept(s, Kept(s, was, svc, now), was, svc, now)
  {
    DefinitionEqIff(was, svc);
    assert s.queue + [] == s.queue;
  }

  lemma AddedMeaning(svc: ServiceConfig)
    ensures IsAdded(Added(svc), svc)
  {
    assert [] + [Start(false)] == [Start(false)];
  }

  /** What a reload does: afterwards exactly the services of the new configuration are there; each is new, or has
      been kept with the messages its changes ask for. */
  lemma ReloadMeaning(w: World, services: seq<ServiceConfig>, n: string)
    requires Named(w) && Distinct(Names(services))
    ensures var w' := Reload(w, services);
            && (n in w'.services <==> n in Names(services))
            && w' == w.(config := services, services := w'.services)
            && (n in Names(services) ==>
                  if n in w.services then
                    IsKept(w.services[n], w'.services[n], Find(w.config, n).value, Find(services, n).value, w.now)
                  else IsAdded(w'.services[n], Find(services, n).value))
  {
    ReloadPasses(w, services, n);
    ReloadAt(w, services);
    if n in NameSet(services) {
      var i := Position(services, n);
      FindAt(services, i);
      AddedMeaning(services[i]);
      if n in w.services {
        KeptMeaning(w.services[n], Find(w.config, n).value, services[i], w.now);
      }
    }
  }

  // ----- sending to many -----

  /** What arrives at one service when a message goes to each name once. */
  lemma {:induction false} SendAllAt(w: World, names: seq<string>, msg: CtlMsg, n: string)
    requires Distinct(names) && n in w.services
    ensures n in SendAll(w, names, msg).services
    ensures SendAll(w, names, msg).services[n]
            == w.services[n].(queue := w.services[n].queue + if n in names && !w.services[n].mon.exited then [msg] else [])
    decreases |names|
  {
    if names == [] {
      assert w.services[n].queue + [] == w.services[n].queue;
    } else {
      var k := |names| - 1;
      SendAllAt(w, names[..k], msg, n);
      assert names == names[..k] + [names[k]];
      assert names[k] == n ==> n !in names[..k];
      assert w.services[n].queue + [] + [msg] == w.services[n].queue + [msg];
    }
  }

  /** Fresh as at boot, with these messages. */
  ghost predicate IsFresh(s: Svc, enabled: bool, queue: seq<CtlMsg>) {
    && s.rt == Runtime(if enabled then Pending else Disabled, None, 0, 0, enabled, None, [])
    && s.mon == Monitor(None, false, 0, false, Top)
    && s.queue == queue
  }

  lemma InitialMeaning(config: seq<ServiceConfig>, overrides: map<string, bool>, n: string)
    ensures var w := Initial(config, overrides);
            && w == World(config, w.services, overrides, R.Registry(map[], R.Empty), false, 0)
            && (n in w.services <==> n in Names(config))
            && (n in Names(config) ==> IsFresh(w.services[n], Find(config, n).value.enabled, []))
  {
  }

  /** Boot: every configured service has a fresh record; exactly those in `order` are asked to start. */
  lemma BootMeaning(config: seq<ServiceConfig>, overrides: map<string, bool>, order: seq<string>, n: string)
    requires Distinct(Names(config)) && Distinct(order)
    ensures var w := Boot(config, overrides, order);
            && w == World(config, w.services, overrides, R.Registry(map[], R.Empty), false, 0)
            && (n in w.services <==> n in Names(config))
            && (n in Names(config) ==>
                  IsFresh(w.services[n], Find(config, n).value.enabled, if n in order then [Start(false)] else []))
  {
    var w0 := Initial(config, overrides);
    InitialMeaning(config, overrides, n);
    SendAllOnlyQueues(w0, order, Start(false));
    if n in Names(config) {
      AskedToStart(w0, order, n, Find(config, n).value.enabled);
    }
  }

  lemma AskedToStart(w: World, order: seq<string>, n: string, enabled: bool)
    requires Distinct(order) && n in w.services && IsFresh(w.services[n], enabled, [])
    ensures var w' := SendAll(w, order, Start(false));
            n in w'.services && IsFresh(w'.services[n], enabled, if n in order then [Start(false)] else [])
  {
    SendAllAt(w, order, Start(false), n);
    assert [] + [Start(false)] == [Start(false)];
  }

  /** Shutdown: every service in `order` whose monitor listens has a stop and a quit behind what was queued, and
      nothing else about it changes. */
  lemma StopAllMeaning(w: World, order: seq<string>, n: string)
    requires Distinct(order)
    ensures var w' := StopAll(w, order);
            && w' == w.(stopAll := true, services := w'.services)
            && (n in w'.services <==> n in w.services)
            && (n in w.services ==>
                  w'.services[n] == w.services[n].(
                    queue := w.services[n].queue + if n in order && !w.services[n].mon.exited then [Stop, Quit] else []))
  {
    StopAllOnlyQueues(w, order);
    if n in w.services {
      var w0 := w.(stopAll := true);
      var w1 := SendAll(w0, order, Stop);
      SendAllAt(w0, order, Stop, n);
      SendAllAt(w1, order, Quit, n);
      assert w.services[n].queue + [Stop] + [Quit] == w.services[n].queue + [Stop, Quit];
      assert w.services[n].queue + [] + [] == w.services[n].queue + [];
    }
  }

  // ----- one step -----

  /** A monitor step changes the record of its own service, and the exit registry; nothing else. */
  lemma StepTouchesOnly(w: World, n: string, env: TickEnv)
    requires Named(w)
    ensures var w' := TickService(w, n, env);
            && w' == w.(services := w'.services, reg := w'.reg)
            && w'.services.Keys == w.services.Keys
            && (forall m :: m in w.services && m != n ==> w'.services[m] == w.services[m])
            && (n !in w.services ==> w' == w)
  {
  }
}
