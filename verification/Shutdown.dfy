/** After the stop flag is raised: each monitor spawns at most what it was already committed to, and leaves without a child. */
module Shutdown {
  import opened Basics
  import opened Service
  import opened SupervisorSpec
  import opened SupervisorRuns
  import opened ServiceInvariant
  import opened MonitorWork
  import opened SpawnSteps
  import Outcomes
  import R = Reaper

  /** Stopped, without a child or a pid, and out of the loop. */
  ghost predicate Gone(s: Svc) {
    s.mon.exited && s.rt.state.Stopped? && s.mon.tracked.None? && s.rt.pid.None?
  }

  /** Leaving the loop stops the child, if there is one, and spawns nothing. */
  lemma LeaveLoopIsGone(c: Ctx, cfg: ServiceConfig, env: StopEnv, now: nat)
    ensures var s := LeaveLoop(c, cfg, env, now).s;
            && Gone(s) && Spawns(s.journal) == Spawns(c.s.journal)
            && ChildStops(s.journal) == ChildStops(c.s.journal) + if c.s.mon.tracked.Some? then 1 else 0
  {
    Outcomes.StopTrackedStops(c, cfg, env);
    var s := StopTracked(c, cfg, env).s;
    SetStateIsQuiet(s.(mon := s.mon.(exited := true)), Stopped, None, now, 0);
  }

  // ----- a monitor that has left has no child -----

  ghost predicate EmptyHanded(s: Svc) {
    s.mon.exited ==> s.mon.tracked.None?
  }

  ghost predicate AllEmptyHanded(w: World) {
    forall n :: n in w.services ==> EmptyHanded(w.services[n])
  }

  lemma TickIsEmptyHanded(c: Ctx, cfg: ServiceConfig, states: map<string, ServiceState>, stopAll: bool, env: TickEnv, now: nat)
    requires EmptyHanded(c.s)
    ensures EmptyHanded(Tick(c, cfg, states, stopAll, env, now).s)
  {
    if !c.s.mon.exited {
      if c.s.mon.phase.Top? || c.s.mon.phase == Handling(Quit) {
        LeaveLoopIsGone(c, cfg, env.stop, now);
      } else {
        TickWorks(c, cfg, states, stopAll, env, now, 0);
      }
    }
  }

  lemma NextEmptyHanded(w: World, a: Action)
    requires Named(w) && Validated(a) && AllEmptyHanded(w)
    ensures AllEmptyHanded(Next(w, a))
  {
    var w' := Next(w, a);
    forall n | n in w'.services
      ensures EmptyHanded(w'.services[n])
    {
      if a.ATick? && a.n == n {
        OwnStepEmptyHanded(w, n, a.env);
      } else {
        OthersPass(w, a, n);
      }
    }
  }

  lemma OwnStepEmptyHanded(w: World, n: string, env: TickEnv)
    requires n in w.services && EmptyHanded(w.services[n])
    ensures var w' := TickService(w, n, env); n in w'.services && EmptyHanded(w'.services[n])
  {
    if Find(w.config, n).Some? {
      TickIsEmptyHanded(Ctx(w.services[n], w.reg), Find(w.config, n).value, w.States(), w.stopAll, env, w.now);
    }
  }

  /** In every run, the monitor of a configured service that has left its loop tracks no child. */
  lemma {:induction false} LeftWithoutChild(config: seq<ServiceConfig>, overrides: map<string, bool>, order: seq<string>,
                                            actions: seq<Action>)
    requires Distinct(Names(config))
    requires forall a :: a in actions ==> Validated(a)
    ensures var w := Run(Boot(config, overrides, order), actions);
            Healthy(w) && AllEmptyHanded(w)
    decreases |actions|
  {
    if actions == [] {
      BootIsHealthy(config, overrides, order);
      SendAllOnlyQueues(Initial(config, overrides), order, Start(false));
    } else {
      var k := |actions| - 1;
      assert actions[k] in actions;
      LeftWithoutChild(config, overrides, order, actions[..k]);
      var w := Run(Boot(config, overrides, order), actions[..k]);
      NextIsHealthy(w, actions[k]);
      NextEmptyHanded(w, actions[k]);
    }
  }

  // ----- spawns -----

  /** A step spawns exactly when it meets its guards, which takes a commitment; and under the flag it commits
      to nothing new. */
  lemma TickSpawns(c: Ctx, cfg: ServiceConfig, states: map<string, ServiceState>, stopAll: bool, env: TickEnv, now: nat)
    ensures var s' := Tick(c, cfg, states, stopAll, env, now).s;
            && Spawns(s'.journal) == Spawns(c.s.journal) + (if WillSpawn(c, cfg, states, env) then 1 else 0)
            && (WillSpawn(c, cfg, states, env) ==> Committed(c.s) == 1)
            && (stopAll && !c.s.mon.exited ==> Committed(s') == 0)
  {
    TickSpawnsIff(c, cfg, states, stopAll, env, now);
    if stopAll && c.s.mon.phase.Looking? {
      LookUnderFlag(c, cfg, now);
    }
  }

  lemma LookUnderFlag(c: Ctx, cfg: ServiceConfig, now: nat)
    ensures Look(c, cfg, true, now).s.mon.phase.Watching?
  {
    if c.s.mon.tracked.Some? && c.s.mon.tracked.value in c.reg.exits {
      Outcomes.ExitLeadsTo(c, cfg, true, now);
    }
  }

  // ----- spawns over a run -----

  function CommittedOf(w: World, n: string): nat {
    if n in w.services then Committed(w.services[n]) else 0
  }

  /** Only a step of its own monitor spawns a service, or commits it to a start. */
  lemma OnlyStepsSpawn(w: World, a: Action, n: string)
    requires Named(w) && Validated(a) && !(a.ATick? && a.n == n)
    ensures var w' := Next(w, a);
            && CommittedOf(w', n) <= CommittedOf(w, n)
            && SpawnsOf(w', n) == if n in w.services && n in w'.services then SpawnsOf(w, n) else 0
  {
    OthersPass(w, a, n);
  }

  lemma OwnStepSpawns(w: World, n: string, env: TickEnv)
    requires Named(w) && w.stopAll
    ensures var w' := TickService(w, n, env);
            && w'.stopAll && CommittedOf(w', n) == 0
            && SatSub(SpawnsOf(w', n), SpawnsOf(w, n)) <= CommittedOf(w, n)
  {
    if n in w.services && Find(w.config, n).Some? {
      TickSpawns(Ctx(w.services[n], w.reg), Find(w.config, n).value, w.States(), true, env, w.now);
    }
  }

  /** Once the flag is up, no run spawns a service more often than its monitor was committed to at that moment:
      at most once, and not at all when it was between iterations. Requests, toggles, reloads, and removing and
      adding the service again do not change that. After one step the monitor is committed to nothing. */
  lemma {:induction false} SpawnsAfterShutdown(w: World, actions: seq<Action>, n: string)
    requires Healthy(w) && w.stopAll
    requires forall a :: a in actions ==> Validated(a)
    ensures var w' := Run(w, actions);
            && Healthy(w') && w'.stopAll
            && SpawnsInRun(w, actions, n) + CommittedOf(w', n) <= CommittedOf(w, n) <= 1
            && (StepsOf(actions, n) > 0 ==> CommittedOf(w', n) == 0)
    decreases |actions|
  {
    if actions != [] {
      var k := |actions| - 1;
      assert actions[k] in actions;
      SpawnsAfterShutdown(w, actions[..k], n);
      var w1 := Run(w, actions[..k]);
      NextIsHealthy(w1, actions[k]);
      if actions[k].ATick? && actions[k].n == n {
        OwnStepSpawns(w1, n, actions[k].env);
      } else {
        OnlyStepsSpawn(w1, actions[k], n);
        OthersPass(w1, actions[k], n);
      }
    }
  }

  lemma QueueIsNoGuard(c: Ctx, queue: seq<CtlMsg>, reg: R.Registry, cfg: ServiceConfig, states: map<string, ServiceState>, env: TickEnv)
    ensures WillSpawn(Ctx(c.s.(queue := queue), reg), cfg, states, env) <==> WillSpawn(c, cfg, states, env)
  {
  }

  /** Neither the queues nor the flag are among the guards of a step. */
  lemma GuardsAgree(w: World, w': World, a: Action, n: string)
    requires OnlyQueued(w, w') && w'.config == w.config
    ensures StepSpawns(w', a, n) <==> StepSpawns(w, a, n)
  {
    assert w'.States() == w.States();
    if a.ATick? && a.n == n && n in w.services && Find(w.config, n).Some? {
      QueueIsNoGuard(Ctx(w.services[n], w.reg), w'.services[n].queue, w'.reg, Find(w.config, n).value, w.States(), a.env);
    }
  }

  /** Raising the flag between two steps does not keep the second one from spawning. */
  lemma SpawnAfterFlag(w: World, a: Action, n: string, order: seq<string>)
    ensures StopAll(w, order).stopAll && (StepSpawns(StopAll(w, order), a, n) <==> StepSpawns(w, a, n))
  {
    StopAllOnlyQueues(w, order);
    GuardsAgree(w, StopAll(w, order), a, n);
  }

  /** Under the flag a monitor is committed to whatever its next step will spawn. */
  lemma SpawnIsCommitted(w: World, a: Action, n: string)
    ensures StepSpawns(w, a, n) ==> CommittedOf(w, n) == 1
  {
  }

  /** Exactly when a run under the flag spawns a service: when the first step of its monitor meets the guards of
      its place in the loop, which is then one of the four that lie behind the last look at the flag. Every later
      step spawns nothing. */
  lemma SpawnsAfterShutdownIff(w: World, actions: seq<Action>, n: string)
    requires Healthy(w) && w.stopAll
    requires forall a :: a in actions ==> Validated(a)
    ensures SpawnsInRun(w, actions, n) == 1 <==> exists k: nat :: SpawnsAt(w, actions, n, k)
    ensures SpawnsInRun(w, actions, n) == 0 <==> !exists k: nat :: SpawnsAt(w, actions, n, k)
    ensures forall k: nat :: SpawnsAt(w, actions, n, k) ==> StepsOf(actions[..k], n) == 0
  {
    SpawnsInRunIff(w, actions, n);
    SpawnsAfterShutdown(w, actions, n);
    forall k: nat | SpawnsAt(w, actions, n, k)
      ensures StepsOf(actions[..k], n) == 0
    {
      SpawnsAfterShutdown(w, actions[..k], n);
      SpawnIsCommitted(Run(w, actions[..k]), actions[k], n);
    }
  }

  // ----- leaving -----

  /** A monitor that comes to the head of its loop while the flag is up leaves it, stopped and without a child. */
  lemma TickLeaves(w: World, n: string, env: TickEnv)
    requires Named(w) && w.stopAll && n in w.services
    requires !w.services[n].mon.exited && w.services[n].mon.phase.Top?
    ensures n in TickService(w, n, env).services && Gone(TickService(w, n, env).services[n])
  {
    LeaveLoopIsGone(Ctx(w.services[n], w.reg), Find(w.config, n).value, env.stop, w.now);
  }

  /** Steps a monitor still makes under the flag. */
  function StepsToLeave(s: Svc): nat {
    if s.mon.exited then 0
    else
      match s.mon.phase
      case Top => 1
      case Handling(_) => 2
      case Watching => 2
      case Probing => 2
      case Looking => 3
      case BackingOff(_) => 3
      case Retrying => 3
  }

  lemma TickNearsLeaving(c: Ctx, cfg: ServiceConfig, states: map<string, ServiceState>, env: TickEnv, now: nat)
    requires !c.s.mon.exited
    ensures StepsToLeave(Tick(c, cfg, states, true, env, now).s) < StepsToLeave(c.s)
  {
    if c.s.mon.phase.Top? || c.s.mon.phase == Handling(Quit) {
      LeaveLoopIsGone(c, cfg, env.stop, now);
    } else {
      TickWorks(c, cfg, states, true, env, now, 0);
      if c.s.mon.phase.Looking? {
        LookUnderFlag(c, cfg, now);
      }
    }
  }

  /** `n` is still there, and has left or is `steps` steps nearer to leaving. */
  ghost predicate Nearer(w: World, w': World, n: string, steps: nat)
    requires n in w.services
  {
    && w'.stopAll && n in w'.services
    && (w'.services[n].mon.exited || StepsToLeave(w'.services[n]) + steps <= StepsToLeave(w.services[n]))
    && (w.services[n].mon.exited ==> w'.services[n].mon.exited)
  }

  lemma OwnStepNearsLeaving(w: World, n: string, env: TickEnv)
    requires Named(w) && w.stopAll && n in w.services
    ensures Nearer(w, TickService(w, n, env), n, 1)
  {
    if !w.services[n].mon.exited {
      TickNearsLeaving(Ctx(w.services[n], w.reg), Find(w.config, n).value, w.States(), env, w.now);
    }
  }

  lemma LeavingStep(w: World, a: Action, n: string)
    requires Named(w) && w.stopAll && n in w.services
    requires Validated(a) && (a.AReload? ==> n in Names(a.services))
    ensures Nearer(w, Next(w, a), n, if a.ATick? && a.n == n then 1 else 0)
  {
    if a.ATick? && a.n == n {
      OwnStepNearsLeaving(w, n, a.env);
    } else {
      OthersPass(w, a, n);
    }
  }

  lemma NearerAgain(w0: World, w: World, w': World, n: string, a: nat, b: nat)
    requires n in w0.services && Nearer(w0, w, n, a) && Nearer(w, w', n, b)
    ensures Nearer(w0, w', n, a + b)
  {
  }

  lemma {:induction false} RunNearsLeaving(w: World, actions: seq<Action>, n: string)
    requires Healthy(w) && w.stopAll && n in w.services
    requires forall a :: a in actions ==> Validated(a) && (a.AReload? ==> n in Names(a.services))
    ensures Healthy(Run(w, actions)) && Nearer(w, Run(w, actions), n, StepsOf(actions, n))
    decreases |actions|
  {
    if actions != [] {
      var k := |actions| - 1;
      assert actions[k] in actions;
      RunNearsLeaving(w, actions[..k], n);
      var w1 := Run(w, actions[..k]);
      NextIsHealthy(w1, actions[k]);
      LeavingStep(w1, actions[k], n);
      NearerAgain(w, w1, Next(w1, actions[k]), n, StepsOf(actions[..k], n), if actions[k].ATick? && actions[k].n == n then 1 else 0);
    }
  }

  /** Once the flag is up, every monitor that stays configured leaves its loop within three of its steps,
      whatever else happens. */
  lemma LeavesInTime(w: World, actions: seq<Action>, n: string)
    requires Healthy(w) && w.stopAll && n in w.services
    requires forall a :: a in actions ==> Validated(a) && (a.AReload? ==> n in Names(a.services))
    ensures StepsToLeave(w.services[n]) <= 3
    ensures StepsOf(actions, n) >= StepsToLeave(w.services[n]) ==>
              n in Run(w, actions).services && Run(w, actions).services[n].mon.exited
  {
    RunNearsLeaving(w, actions, n);
    if StepsOf(actions, n) >= StepsToLeave(w.services[n]) {
      NearEnoughHasLeft(w, Run(w, actions), n, StepsOf(actions, n));
    }
  }

  lemma NearEnoughHasLeft(w: World, w': World, n: string, steps: nat)
    requires n in w.services && Nearer(w, w', n, steps) && steps >= StepsToLeave(w.services[n])
    ensures n in w'.services && w'.services[n].mon.exited
  {
  }
}
