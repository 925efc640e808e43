/** Exits acted on by the monitors, counted against exits taken from the registry. */
module ExitAccounting {
  import opened Basics
  import opened Service
  import opened SupervisorSpec
  import opened ServiceInvariant
  import opened SupervisorRuns
  import opened MonitorWork
  import Outcomes
  import R = Reaper

  // ----- exits that arrive during monitor work -----

  /** What is reaped while a shell command runs, the command itself included. */
  function ShellArrivals(run: ShellRun): seq<R.Arrival> {
    match run
    case NoShell => []
    case Ran(pid, code, hint, arrivals) => arrivals + [R.Arrival(pid, code, hint)]
  }

  /** A shell command publishes everything reaped meanwhile, takes its own exit and nothing else, and yields its code. */
  lemma ShellAccounts(reg: R.Registry, run: ShellRun, pid: int)
    ensures var (reg', code) := RunShell(reg, run);
            && R.Publications(reg'.trace, pid) == R.Publications(reg.trace, pid) + R.Arriving(ShellArrivals(run), pid)
            && R.Takes(reg'.trace, pid) == R.Takes(reg.trace, pid) + (if run.Ran? && run.pid == pid then 1 else 0)
            && code == if run.Ran? then run.code else 1
  {
    if run.Ran? {
      var a := R.Arrival(run.pid, run.code, run.hint);
      var r1 := R.PublishAll(reg, run.arrivals);
      R.PublishAllAccounts(reg, run.arrivals, pid);
      R.PublishCounts(r1, a, pid);
      ArrivingAppend(run.arrivals, [a], pid);
      assert [a][..0] == [] && R.Arriving([], pid) == 0;
    }
  }

  /** What is reaped while a child is stopped. */
  function StopArrivals(cfg: ServiceConfig, tracked: bool, env: StopEnv): seq<R.Arrival> {
    (if cfg.stopCmd.Some? || cfg.cmd.Some? then ShellArrivals(env.shell) else []) + if tracked then env.arrivals else []
  }

  lemma {:induction false} ArrivingAppend(a: seq<R.Arrival>, b: seq<R.Arrival>, pid: int)
    ensures R.Arriving(a + b, pid) == R.Arriving(a, pid) + R.Arriving(b, pid)
    decreases |b|
  {
    if b == [] {
      assert a + b == a;
    } else {
      var k := |b| - 1;
      ArrivingAppend(a, b[..k], pid);
      assert (a + b)[..|a + b| - 1] == a + b[..k];
    }
  }

  /** Stopping a child publishes everything reaped meanwhile. */
  lemma StopAccounts(c: Ctx, cfg: ServiceConfig, env: StopEnv, pid: int)
    ensures R.Publications(StopTracked(c, cfg, env).reg.trace, pid)
            == R.Publications(c.reg.trace, pid) + R.Arriving(StopArrivals(cfg, c.s.mon.tracked.Some?, env), pid)
  {
    var c1 := Command(c, cfg.ResolveStop(), env.shell).0;
    ShellAccounts(c.reg, env.shell, pid);
    if c.s.mon.tracked.Some? {
      R.WaitAccounts(c1.reg, c.s.mon.tracked.value, env.arrivals, pid);
    }
    ArrivingAppend(if cfg.CanStop() then ShellArrivals(env.shell) else [], if c.s.mon.tracked.Some? then env.arrivals else [], pid);
  }

  /** What is reaped while a start waits for its child; a job that is late is terminated and waited for again. */
  function StartArrivals(c: Ctx, cfg: ServiceConfig, env: StartEnv): seq<R.Arrival> {
    if env.SpawnError? then []
    else env.arrivals + if !cfg.daemon && Outcomes.EarlyExit(c, env).None? then env.late else []
  }

  /** A spawn publishes everything reaped meanwhile, and takes the exit of its child if it comes in time. */
  lemma StartAccounts(c: Ctx, cfg: ServiceConfig, states: map<string, ServiceState>, force: bool, env: StartEnv, now: nat, pid: int)
    requires cfg.CanStart()
    ensures R.Publications(Launch(c, cfg, states, force, env, now).0.reg.trace, pid)
            == R.Publications(c.reg.trace, pid) + R.Arriving(StartArrivals(c, cfg, env), pid)
    ensures Outcomes.EarlyExit(c, env).Some? ==>
              R.Takes(Launch(c, cfg, states, force, env, now).0.reg.trace, pid)
              == R.Takes(c.reg.trace, pid) + if pid == env.pid then 1 else 0
  {
    if env.Child? {
      var (reg, code) := R.WaitTake(c.reg, env.pid, env.arrivals);
      R.WaitAccounts(c.reg, env.pid, env.arrivals, pid);
      R.WaitAccounts(reg, env.pid, env.late, pid);
      ArrivingAppend(env.arrivals, if !cfg.daemon && code.None? then env.late else [], pid);
    }
  }

  // ----- exits acted on -----

  /** Only a step of its own monitor makes a service act on an exit. */
  lemma OnlyStepsAct(w: World, a: Action, n: string, pid: int)
    requires Named(w) && Validated(a) && !(a.ATick? && a.n == n) && n in Next(w, a).services
    ensures ActedOn(Next(w, a).services[n].journal, pid)
            == if n in w.services then ActedOn(w.services[n].journal, pid) else 0
  {
    OthersPass(w, a, n);
  }

  /** Exits of `pid` acted on in one step. */
  function ActedOnInStep(w: World, a: Action, pid: int): nat {
    var w' := Next(w, a);
    if a.ATick? && a.n in w.services && a.n in w'.services then
      SatSub(ActedOn(w'.services[a.n].journal, pid), ActedOn(w.services[a.n].journal, pid))
    else 0
  }

  /** Exits of `pid` acted on in a run by whatever services there are on the way. */
  function ActedOnInRun(w: World, actions: seq<Action>, pid: int): nat
    decreases |actions|
  {
    if actions == [] then 0
    else
      var k := |actions| - 1;
      ActedOnInRun(w, actions[..k], pid) + ActedOnInStep(Run(w, actions[..k]), actions[k], pid)
  }

  lemma OwnStepPaid(w: World, n: string, env: TickEnv, pid: int)
    ensures ActedOnInStep(w, ATick(n, env), pid) + R.Takes(w.reg.trace, pid) <= R.Takes(TickService(w, n, env).reg.trace, pid)
  {
    if n in w.services && Find(w.config, n).Some? {
      TickIsWithin(Ctx(w.services[n], w.reg), Find(w.config, n).value, w.States(), w.stopAll, env, w.now, pid);
    }
  }

  lemma OthersTakeNothing(w: World, a: Action, pid: int)
    requires Named(w) && Validated(a) && !a.ATick?
    ensures R.Takes(Next(w, a).reg.trace, pid) == R.Takes(w.reg.trace, pid)
  {
    match a
    case AStart(n, force) => RequestsOnlySend(w, n, force);
    case AStop(n) => RequestsOnlySend(w, n, false);
    case ARestart(n) => RequestsOnlySend(w, n, false);
    case ASetEnabled(n, enabled, written) =>
    case AReload(services) => ReloadAt(w, services);
    case AReap(arrival) => assert R.Takes(R.Publish(w.reg, arrival).trace, pid) == R.Takes(w.reg.trace, pid);
    case AElapse(secs) =>
    case AShutdown(order) => StopAllOnlyQueues(w, order);
  }

  /** In every run, no more exits of a pid are acted on than are taken for it. */
  lemma {:induction false} ActedOnAreTaken(w: World, actions: seq<Action>, pid: int)
    requires Healthy(w)
    requires forall a :: a in actions ==> Validated(a)
    ensures Healthy(Run(w, actions))
    ensures ActedOnInRun(w, actions, pid) + R.Takes(w.reg.trace, pid) <= R.Takes(Run(w, actions).reg.trace, pid)
    decreases |actions|
  {
    if actions != [] {
      var k := |actions| - 1;
      assert actions[k] in actions;
      ActedOnAreTaken(w, actions[..k], pid);
      var w1 := Run(w, actions[..k]);
      NextIsHealthy(w1, actions[k]);
      if actions[k].ATick? {
        OwnStepPaid(w1, actions[k].n, actions[k].env, pid);
      } else {
        OthersTakeNothing(w1, actions[k], pid);
      }
    }
  }

  /** From boot on, each published exit is acted on at most once, by all services together. */
  lemma EachExitActedOnOnce(config: seq<ServiceConfig>, overrides: map<string, bool>, order: seq<string>,
                            actions: seq<Action>, pid: int)
    requires Distinct(Names(config))
    requires forall a :: a in actions ==> Validated(a)
    ensures var w := Boot(config, overrides, order);
            var t := Run(w, actions).reg.trace;
            ActedOnInRun(w, actions, pid) + R.Losses(t, pid) <= R.Publications(t, pid)
  {
    var w := Boot(config, overrides, order);
    BootIsHealthy(config, overrides, order);
    ActedOnAreTaken(w, actions, pid);
    R.ExitsAreConserved(Run(w, actions).reg.trace, pid);
  }
}
