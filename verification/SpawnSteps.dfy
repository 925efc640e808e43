/** Which monitor steps spawn a child: exactly those that meet the guards of their place in the loop. */
module SpawnSteps {
  import opened Basics
  import opened Service
  import opened SupervisorSpec
  import opened ServiceInvariant
  import opened MonitorWork
  import opened Outcomes
  import DependencyGating

  // ----- one step -----

  /** What a step needs to spawn, by its place in the loop. */
  ghost predicate WillSpawn(c: Ctx, cfg: ServiceConfig, states: map<string, ServiceState>, env: TickEnv) {
    && !c.s.mon.exited
    && match c.s.mon.phase
       case Handling(Start(force)) => c.s.mon.tracked.None? && Spawning(c, cfg, states, force, env.start)
       case Handling(Restart) => !RestartsByCommand(cfg, env) && Spawning(c, cfg, states, false, env.start)
       case BackingOff(was) => Spawning(c, was, states, false, env.start)
       case Retrying => c.s.rt.state.WaitingForDependency? && Spawning(c, cfg, states, false, env.start)
       case Probing => Fires(c.s, cfg, env) && Spawning(Restarted(c), cfg, states, false, env.restart)
       case _ => false
  }

  /** The service as a liveness restart leaves it to the start. */
  function Restarted(c: Ctx): Ctx {
    c.(s := c.s.(rt := c.s.rt.(state := Restarting)))
  }

  /** A restart in hand stops the child and then starts, unless the restart command did. */
  lemma RestartSpawnsIff(c: Ctx, cfg: ServiceConfig, states: map<string, ServiceState>, env: TickEnv, now: nat)
    ensures Spawns(HandleRestart(c, cfg, states, env, now).s.journal) == Spawns(c.s.journal)
            + if !RestartsByCommand(cfg, env) && Spawning(c, cfg, states, false, env.start) then 1 else 0
  {
    var c0 := c.(s := Accept(c.s, Restart));
    StopTrackedStops(c0, cfg, env.stop);
    var c1 := StopTracked(c0, cfg, env.stop);
    var c2 := Command(c1, cfg.ResolveRestart(), env.shell).0;
    CommandWorks(c1, cfg.ResolveRestart(), env.shell, 0);
    SetStateIsQuiet(c2.s, Running, None, now, 0);
    DependencyGating.StartSpawnsIff(c2, cfg, states, false, env.start, now);
  }

  lemma LivenessRestartSpawnsIff(c: Ctx, cfg: ServiceConfig, states: map<string, ServiceState>, env: TickEnv, now: nat)
    ensures Spawns(LivenessRestart(c, cfg, states, env, now).s.journal) == Spawns(c.s.journal)
            + if Spawning(Restarted(c), cfg, states, false, env.restart) then 1 else 0
  {
    var s1 := ResetStreak(c.s.(journal := ThresholdHit(c.s.journal, c.s.mon.streak)));
    var s2 := BumpRestarts(SetState(s1, Restarting, None, now), now);
    SetStateIsQuiet(s1, Restarting, None, now, 0);
    StopTrackedStops(c.(s := s2), cfg, env.stop);
    DependencyGating.StartSpawnsIff(StopTracked(c.(s := s2), cfg, env.stop), cfg, states, false, env.restart, now);
  }

  lemma ProbeSpawnsIff(c: Ctx, cfg: ServiceConfig, states: map<string, ServiceState>, env: TickEnv, now: nat)
    ensures Spawns(MaybeLiveness(c, cfg, states, env, now).s.journal) == Spawns(c.s.journal)
            + if Fires(c.s, cfg, env) && Spawning(Restarted(c), cfg, states, false, env.restart) then 1 else 0
  {
    if env.probe.ProbeFail? {
      FailureIsQuiet(c.s, env.probe.reason, now, 0);
      LivenessRestartSpawnsIff(c.(s := AfterFailure(c.s, env.probe.reason, now)), cfg, states, env, now);
    } else {
      SetStateIsQuiet(ResetStreak(c.s.(journal := ProbePassed(c.s.journal))), Succeeded, None, now, 0);
    }
  }

  lemma HandlingSpawnsIff(c: Ctx, cfg: ServiceConfig, states: map<string, ServiceState>, env: TickEnv, now: nat)
    requires !c.s.mon.exited && c.s.mon.phase.Handling?
    ensures Spawns(HandleMessage(c, c.s.mon.phase.msg, cfg, states, env, now).s.journal) == Spawns(c.s.journal)
            + if WillSpawn(c, cfg, states, env) then 1 else 0
  {
    match c.s.mon.phase.msg
    case Quit => LeaveLoopWorks(c, cfg, env.stop, now, 0);
    case Stop => StopLeadsTo(c, cfg, env.stop, now);
    case Restart => RestartSpawnsIff(c, cfg, states, env, now);
    case Start(force) =>
      DependencyGating.StartSpawnsIff(c.(s := Accept(c.s, Start(force))), cfg, states, force, env.start, now);
  }

  /** A step spawns exactly when it meets the guards of its place in the loop, and then once. The stop flag is
      not among them: it only decides which place comes next. */
  lemma TickSpawnsIff(c: Ctx, cfg: ServiceConfig, states: map<string, ServiceState>, stopAll: bool, env: TickEnv, now: nat)
    ensures Spawns(Tick(c, cfg, states, stopAll, env, now).s.journal) == Spawns(c.s.journal)
            + if WillSpawn(c, cfg, states, env) then 1 else 0
  {
    if !c.s.mon.exited {
      match c.s.mon.phase
      case Top => LeaveLoopWorks(c, cfg, env.stop, now, 0);
      case Handling(msg) => HandlingSpawnsIff(c, cfg, states, env, now);
      case Looking => LookWorks(c, cfg, stopAll, now, 0);
      case BackingOff(was) => DependencyGating.StartSpawnsIff(c, was, states, false, env.start, now);
      case Retrying => DependencyGating.StartSpawnsIff(c, cfg, states, false, env.start, now);
      case Watching =>
      case Probing => ProbeSpawnsIff(c, cfg, states, env, now);
    }
  }

  // ----- over a run -----

  function SpawnsOf(w: World, n: string): nat {
    if n in w.services then Spawns(w.services[n].journal) else 0
  }

  /** Spawns of `n` in one step. */
  function SpawnsInStep(w: World, a: Action, n: string): nat {
    if a.ATick? && a.n == n then SatSub(SpawnsOf(Next(w, a), n), SpawnsOf(w, n)) else 0
  }

  /** Spawns of `n` in a run, step by step, through removals and returns. */
  function SpawnsInRun(w: World, actions: seq<Action>, n: string): nat
    decreases |actions|
  {
    if actions == [] then 0
    else
      var k := |actions| - 1;
      SpawnsInRun(w, actions[..k], n) + SpawnsInStep(Run(w, actions[..k]), actions[k], n)
  }

  /** The step `a` of the monitor of `n` meets its guards. */
  ghost predicate StepSpawns(w: World, a: Action, n: string) {
    && a.ATick? && a.n == n && n in w.services && Find(w.config, n).Some?
    && WillSpawn(Ctx(w.services[n], w.reg), Find(w.config, n).value, w.States(), a.env)
  }

  lemma SpawnsInStepIff(w: World, a: Action, n: string)
    ensures SpawnsInStep(w, a, n) == if StepSpawns(w, a, n) then 1 else 0
  {
    if a.ATick? && a.n == n && n in w.services && Find(w.config, n).Some? {
      TickSpawnsIff(Ctx(w.services[n], w.reg), Find(w.config, n).value, w.States(), w.stopAll, a.env, w.now);
    }
  }

  ghost predicate SpawnsAt(w: World, actions: seq<Action>, n: string, k: nat) {
    k < |actions| && StepSpawns(Run(w, actions[..k]), actions[k], n)
  }

  /** The steps of a run that meet their guards. */
  ghost function SpawningSteps(w: World, actions: seq<Action>, n: string): set<nat> {
    set k: nat | k < |actions| && SpawnsAt(w, actions, n, k)
  }

  lemma SpawnsAtPrefix(w: World, actions: seq<Action>, n: string, k: nat, i: nat)
    requires i < k <= |actions|
    ensures SpawnsAt(w, actions[..k], n, i) <==> SpawnsAt(w, actions, n, i)
  {
    assert actions[..k][..i] == actions[..i];
  }

  lemma StepsSoFar(w: World, actions: seq<Action>, n: string, k: nat)
    requires |actions| == k + 1
    ensures SpawningSteps(w, actions, n)
            == SpawningSteps(w, actions[..k], n) + if SpawnsAt(w, actions, n, k) then {k} else {}
  {
    forall i: nat
      ensures i in SpawningSteps(w, actions, n) <==>
              i in SpawningSteps(w, actions[..k], n) || (i == k && SpawnsAt(w, actions, n, k))
    {
      if i < k {
        SpawnsAtPrefix(w, actions, n, k, i);
      }
    }
  }

  lemma {:induction false} SpawnsAreCounted(w: World, actions: seq<Action>, n: string)
    ensures SpawnsInRun(w, actions, n) == |SpawningSteps(w, actions, n)|
    decreases |actions|
  {
    if actions != [] {
      var k := |actions| - 1;
      SpawnsAreCounted(w, actions[..k], n);
      StepsSoFar(w, actions, n, k);
      assert k !in SpawningSteps(w, actions[..k], n);
      SpawnsInStepIff(Run(w, actions[..k]), actions[k], n);
    }
  }

  /** A run spawns a service exactly as often as a step of its monitor meets its guards; in particular it
      spawns nothing if and only if no step does. */
  lemma SpawnsInRunIff(w: World, actions: seq<Action>, n: string)
    ensures SpawnsInRun(w, actions, n) == |SpawningSteps(w, actions, n)|
    ensures SpawnsInRun(w, actions, n) == 0 <==> forall k: nat :: !SpawnsAt(w, actions, n, k)
  {
    SpawnsAreCounted(w, actions, n);
    if k: nat :| SpawnsAt(w, actions, n, k) {
      assert k in SpawningSteps(w, actions, n);
    }
  }
}
