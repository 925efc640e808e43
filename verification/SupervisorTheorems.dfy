/** The supervisor's promises, read off the invariant for every reachable state. */
module SupervisorTheorems {
  import opened Basics
  import opened Service
  import opened SupervisorSpec
  import opened ServiceInvariant
  import opened SupervisorRuns
  import DisabledServices
  import R = Reaper

  /** What has happened since the process started: the configuration it booted with, the order of boot's
      sends, and everything after them. */
  datatype Past = Past(config: seq<ServiceConfig>, overrides: map<string, bool>, order: seq<string>, actions: seq<Action>) {
    function Present(): World {
      Run(Boot(config, overrides, order), actions)
    }

    /** Distinct names at boot, validated reloads, and fixed failure thresholds where `ts` gives one. */
    ghost predicate Legal(ts: map<string, nat>) {
      Distinct(Names(config)) && Fixed(config, ts) && forall a :: a in actions ==> Allowed(a, ts)
    }
  }

  lemma PresentIsSound(p: Past, ts: map<string, nat>)
    requires p.Legal(ts)
    ensures Sound(p.Present(), ts)
  {
    BootIsSound(p.config, p.overrides, p.order, ts);
    RunIsSound(Boot(p.config, p.overrides, p.order), p.actions, ts);
  }

  /** The invariant of each service, over every run. */
  lemma ServiceIsSound(p: Past, n: string, ts: map<string, nat>)
    requires p.Legal(ts)
    ensures n in p.Present().services ==> Inv(p.Present().services[n], n, ThresholdOf(ts, n))
  {
    PresentIsSound(p, ts);
    assert n in p.Present().services ==> ServiceOk(p.Present(), n, ts);
  }

  /** The event ring is the end of the full history, whose state changes chain to the present. */
  lemma EventRing(p: Past, n: string)
    requires p.Legal(map[])
    ensures n in p.Present().services ==>
              var s := p.Present().services[n];
              && s.rt.events == LastN(Events(s.journal), 16)
              && |s.rt.events| <= 16
              && StateAfter(s.journal) == Some(s.rt.state)
              && s.rt.restarts == Saturated(AllRestarts(s.journal))
  {
    ServiceIsSound(p, n, map[]);
    if n in p.Present().services {
      RingIsLast(p.Present().services[n].journal);
    }
  }

  /** Uptime runs from the event with which the present run of Running began. The pid shown is that of the child
      last adopted, unless a state has been entered since in which a pid means nothing; and it is the tracked
      child's whenever there is one. */
  lemma ReportedPid(p: Past, n: string)
    requires p.Legal(map[])
    ensures n in p.Present().services ==>
              var s := p.Present().services[n];
              && (s.rt.runningSince.Some? <==> s.rt.state.Running?)
              && s.rt.runningSince == RunningSince(s.journal) && s.rt.pid == PidShown(s.journal)
              && (s.rt.pid.Some? ==> s.rt.state in {Running, Starting, Restarting, WaitingForDependency})
              && (s.rt.pid.Some? && s.mon.tracked.Some? ==> s.rt.pid == s.mon.tracked)
  {
    ServiceIsSound(p, n, map[]);
  }

  /** At most one child per service: the tracked pid is the adopted child that was neither stopped
      nor had its exit taken, and no start was ever entered while a child was tracked. */
  lemma OneChildAtATime(p: Past, n: string)
    requires p.Legal(map[])
    ensures n in p.Present().services ==>
              var s := p.Present().services[n];
              s.mon.tracked == ChildOf(s.journal) && OneChild(s.journal)
  {
    ServiceIsSound(p, n, map[]);
  }

  /** At every unforced spawn in the whole history each dependency was Running or Succeeded, except the
      service itself where it depends on itself. */
  lemma SpawnsAreGated(p: Past, n: string)
    requires p.Legal(map[])
    ensures n in p.Present().services ==> Gated(p.Present().services[n].journal, n)
  {
    ServiceIsSound(p, n, map[]);
  }

  /** The streak counts the failures in a row, never reaches the threshold between steps, and a
      liveness restart has fired exactly at each threshold-th failure in a row. */
  lemma ProbeStreak(p: Past, n: string, threshold: nat)
    requires 0 < threshold <= U32_MAX && p.Legal(map[n := threshold])
    ensures n in p.Present().services ==>
              var s := p.Present().services[n];
              && s.mon.streak == FailuresInARow(s.journal) < threshold
              && FiresAt(s.journal, threshold)
              && s.rt.livenessFailures == Saturated(AllFailures(s.journal))
  {
    ServiceIsSound(p, n, map[n := threshold]);
  }

  /** Every published exit is taken at most once; the rest is still held or was dropped for space. */
  lemma ExitsActedOnOnce(p: Past, pid: int)
    requires p.Legal(map[])
    ensures var reg := p.Present().reg;
            var t := reg.trace;
            && R.Takes(t, pid) + R.Losses(t, pid) <= R.Publications(t, pid)
            && (R.Publications(t, pid) == R.Takes(t, pid) + R.Losses(t, pid) <==> pid !in reg.exits)
            && |reg.exits| <= 4096
  {
    PresentIsSound(p, map[]);
    R.ExitsAreConserved(p.Present().reg.trace, pid);
  }

  /** Names of configuration and monitored services agree after any run. */
  lemma NamesAgree(p: Past)
    requires p.Legal(map[])
    ensures p.Present().services.Keys == NameSet(p.Present().config) && Distinct(Names(p.Present().config))
  {
    PresentIsSound(p, map[]);
  }

  /** An enable call that cannot write the override, then a reload with a changed definition:
      the runtime flag stays off, yet a restart is queued. */
  lemma FailedWriteQueuesRestart(svc: ServiceConfig, changed: ServiceConfig)
    requires !svc.enabled && changed == svc.(enabled := true, orderPriority := svc.orderPriority + 1)
    ensures var w := Reload(SetEnabled(Boot([svc], map[], []), svc.name, true, false).0, [changed]);
            && svc.name in w.services && w.services[svc.name] == Enqueue(Fresh(false), Restart)
            && Find(w.config, svc.name) == Some(changed) && !w.stopAll
  {
    var n := svc.name;
    var w0 := Boot([svc], map[], []);
    var enabled := svc.(enabled := true);
    assert Names([svc])[0] == n && Names([enabled])[0] == n && Names([changed])[0] == n;
    var w1 := SetEnabled(w0, n, true, false).0;
    assert WithEnabled([svc], n, true) == [enabled];
    assert NameSet([enabled]) == {n} && NameSet([svc]) == {n};
    ReloadAt(w1, [changed]);
    assert [changed][0] == changed;
  }

  /** A queued restart brings a disabled daemon up when its restart command succeeds. */
  lemma RestartRunsDisabled(c: Ctx, cfg: ServiceConfig, states: map<string, ServiceState>, env: TickEnv, now: nat)
    requires c.s == Enqueue(Fresh(false), Restart)
    requires cfg.daemon && cfg.CanRestart() && env.shell.Ran? && cfg.IsSuccess(env.shell.code)
    ensures Received(Tick(c, cfg, states, false, env, now).s)
    ensures var s := Tick(Tick(c, cfg, states, false, env, now), cfg, states, false, env, now).s;
            !s.rt.enabled && s.rt.state.Running? && s.queue == [] && s.mon.phase.Top?
  {
    assert c.s.queue == [Restart] && c.s.queue[1..] == [];
  }

  /** A fresh, disabled service with a restart in hand. */
  ghost predicate Received(s: Svc) {
    s == Fresh(false).(mon := Fresh(false).mon.(phase := Handling(Restart)))
  }

  lemma HandledRestartRuns(c: Ctx, cfg: ServiceConfig, states: map<string, ServiceState>, env: TickEnv, now: nat)
    requires Received(c.s)
    requires cfg.daemon && cfg.CanRestart() && env.shell.Ran? && cfg.IsSuccess(env.shell.code)
    ensures var s := Tick(c, cfg, states, false, env, now).s;
            !s.rt.enabled && s.rt.state.Running? && s.queue == [] && s.mon.phase.Top?
  {
  }

  /** Reloads are not always harmless: a failed enable, a reload and two steps of the monitor leave a
      disabled service running with nothing queued. */
  lemma FailedWriteCanRunDisabled(svc: ServiceConfig, env: TickEnv)
    requires !svc.enabled && svc.daemon && svc.CanRestart()
    requires env.shell.Ran? && svc.IsSuccess(env.shell.code)
    ensures var changed := svc.(enabled := true, orderPriority := svc.orderPriority + 1);
            var w := Reload(SetEnabled(Boot([svc], map[], []), svc.name, true, false).0, [changed]);
            var w' := TickService(TickService(w, svc.name, env), svc.name, env);
            && svc.name in w'.services
            && !w'.services[svc.name].rt.enabled && w'.services[svc.name].rt.state.Running?
            && !DisabledServices.StopIsLast(w'.services[svc.name])
            && !DisabledServices.Down(w'.services[svc.name])
  {
    var n := svc.name;
    var changed := svc.(enabled := true, orderPriority := svc.orderPriority + 1);
    FailedWriteQueuesRestart(svc, changed);
    var w := Reload(SetEnabled(Boot([svc], map[], []), n, true, false).0, [changed]);
    RestartRunsDisabled(Ctx(w.services[n], w.reg), changed, w.States(), env, w.now);
    var w1 := TickService(w, n, env);
    assert w1.services[n] == Tick(Ctx(w.services[n], w.reg), changed, w.States(), false, env, w.now).s;
    HandledRestartRuns(Ctx(w1.services[n], w1.reg), changed, w1.States(), env, w1.now);
  }

}
