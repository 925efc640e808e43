/** What each piece of monitor work leaves in the history: the states it reports, in order, and the commands it runs. */
module Histories {
  import opened Basics
  import opened Service
  import opened SupervisorSpec
  import opened ServiceInvariant
  import opened DependencyGating
  import opened Outcomes
  import R = Reaper

  /** One thing that is reported. */
  datatype Note = Enters(state: ServiceState) | CountsRestart | CountsFailure(reason: string)

  function StateOf(from: ServiceState, notes: seq<Note>): ServiceState
    decreases |notes|
  {
    if notes == [] then from
    else
      var k := |notes| - 1;
      if notes[k].Enters? then notes[k].state else StateOf(from, notes[..k])
  }

  /** The event of one note; entering the present state is none. */
  function Report(now: nat, from: ServiceState, note: Note): seq<RuntimeEvent> {
    match note
    case Enters(state) => if state == from then [] else [RuntimeEvent(now, StateChange, Some(from), Some(state), None)]
    case CountsRestart => [RuntimeEvent(now, Restarted, None, None, None)]
    case CountsFailure(reason) => [RuntimeEvent(now, LivenessFailed, None, None, Some(reason))]
  }

  /** The events of those notes, all at the same time. */
  function Reports(now: nat, from: ServiceState, notes: seq<Note>): seq<RuntimeEvent>
    decreases |notes|
  {
    if notes == [] then []
    else
      var k := |notes| - 1;
      Reports(now, from, notes[..k]) + Report(now, StateOf(from, notes[..k]), notes[k])
  }

  /** From `s` to `s'` exactly these notes have been reported and these commands run. */
  ghost predicate Told(s: Svc, s': Svc, now: nat, notes: seq<Note>, commands: seq<string>) {
    && s'.rt.state == StateOf(s.rt.state, notes)
    && Events(s'.journal) == Events(s.journal) + Reports(now, s.rt.state, notes)
    && Commands(s'.journal) == Commands(s.journal) + commands
  }

  lemma {:induction false} StateOfAppend(from: ServiceState, a: seq<Note>, b: seq<Note>)
    ensures StateOf(from, a + b) == StateOf(StateOf(from, a), b)
    decreases |b|
  {
    if b == [] {
      assert a + b == a;
    } else {
      var k := |b| - 1;
      StateOfAppend(from, a, b[..k]);
      assert (a + b)[..|a + b| - 1] == a + b[..k];
    }
  }

  lemma {:induction false} ReportsAppend(now: nat, from: ServiceState, a: seq<Note>, b: seq<Note>)
    ensures Reports(now, from, a + b) == Reports(now, from, a) + Reports(now, StateOf(from, a), b)
    decreases |b|
  {
    var mid := StateOf(from, a);
    if b == [] {
      assert a + b == a;
    } else {
      var k := |b| - 1;
      ReportsAppend(now, from, a, b[..k]);
      StateOfAppend(from, a, b[..k]);
      assert (a + b)[..|a + b| - 1] == a + b[..k];
      Associate(Reports(now, from, a), Reports(now, mid, b[..k]), Report(now, StateOf(mid, b[..k]), b[k]));
    }
  }

  /** One thing after the other. */
  lemma ToldThen(s: Svc, mid: Svc, s': Svc, now: nat, a: seq<Note>, b: seq<Note>, ca: seq<string>, cb: seq<string>)
    requires Told(s, mid, now, a, ca) && Told(mid, s', now, b, cb)
    ensures Told(s, s', now, a + b, ca + cb)
  {
    StateOfAppend(s.rt.state, a, b);
    ReportsAppend(now, s.rt.state, a, b);
    Associate(Events(s.journal), Reports(now, s.rt.state, a), Reports(now, mid.rt.state, b));
    Associate(Commands(s.journal), ca, cb);
  }

  lemma OneNote(now: nat, from: ServiceState, note: Note)
    ensures StateOf(from, [note]) == if note.Enters? then note.state else from
    ensures Reports(now, from, [note]) == Report(now, from, note)
  {
    assert [note][..0] == [];
    assert Reports(now, from, []) == [];
  }

  lemma Nothing(s: Svc, s': Svc, now: nat)
    requires s'.rt.state == s.rt.state && Events(s'.journal) == Events(s.journal) && Commands(s'.journal) == Commands(s.journal)
    ensures Told(s, s', now, [], [])
  {
  }

  /** A state change is told by its name, and leaves everything but the runtime record alone. */
  lemma SetStateTells(s: Svc, state: ServiceState, pid: Option<int>, now: nat)
    ensures var s' := SetState(s, state, pid, now);
            && Told(s, s', now, [Enters(state)], [])
            && s' == s.(rt := s'.rt, journal := s'.journal)
            && s'.rt == s.rt.(state := state, pid := s'.rt.pid, runningSince := s'.rt.runningSince, events := s'.rt.events)
  {
    OneNote(now, s.rt.state, Enters(state));
  }

  lemma BumpRestartsTells(s: Svc, now: nat)
    ensures var s' := BumpRestarts(s, now);
            && Told(s, s', now, [CountsRestart], [])
            && s' == s.(rt := s'.rt, journal := s'.journal)
            && s'.rt == s.rt.(restarts := s'.rt.restarts, events := s'.rt.events)
  {
    OneNote(now, s.rt.state, CountsRestart);
  }

  lemma FailureTells(s: Svc, reason: string, now: nat)
    ensures Told(s, AfterFailure(s, reason, now), now, [CountsFailure(reason)], [])
  {
    OneNote(now, s.rt.state, CountsFailure(reason));
  }

  // ----- stopping -----

  /** The stop command of a definition, if it has one. */
  function StopCommands(cfg: ServiceConfig): seq<string> {
    if cfg.stopCmd.Some? then [cfg.stopCmd.value]
    else if cfg.cmd.Some? then [cfg.cmd.value + " stop"]
    else []
  }

  /** Stopping runs the stop command, child or no child, and reports nothing. */
  lemma StopTrackedTells(c: Ctx, cfg: ServiceConfig, env: StopEnv, now: nat)
    ensures var s' := StopTracked(c, cfg, env).s;
            && Told(c.s, s', now, [], StopCommands(cfg))
            && s' == c.s.(mon := c.s.mon.(tracked := None), journal := s'.journal)
  {
  }

  /** A stop message: Stopping, the stop command, then Stopped or, for a disabled service, Disabled. */
  lemma StopTells(c: Ctx, cfg: ServiceConfig, env: StopEnv, now: nat)
    ensures Told(c.s, HandleStop(c, cfg, env, now).s, now,
                 [Enters(Stopping), Enters(if c.s.rt.enabled then Stopped else Disabled)], StopCommands(cfg))
  {
    var s0 := Accept(c.s, Stop);
    Nothing(c.s, s0, now);
    SetStateTells(s0, Stopping, None, now);
    var c1 := c.(s := SetState(s0, Stopping, None, now));
    ToldThen(c.s, s0, c1.s, now, [], [Enters(Stopping)], [], []);
    StopTrackedTells(c1, cfg, env, now);
    var c2 := StopTracked(c1, cfg, env);
    ToldThen(c.s, c1.s, c2.s, now, [Enters(Stopping)], [], [], StopCommands(cfg));
    var s2 := c2.s.(mon := c2.s.mon.(scheduled := false));
    var last := if c.s.rt.enabled then Stopped else Disabled;
    Nothing(c2.s, s2, now);
    ToldThen(c.s, c2.s, s2, now, [Enters(Stopping)], [], StopCommands(cfg), []);
    SetStateTells(s2, last, None, now);
    ToldThen(c.s, s2, SetState(s2, last, None, now), now, [Enters(Stopping)], [Enters(last)], StopCommands(cfg), []);
    assert [Enters(Stopping)] + [] == [Enters(Stopping)] && [] + [Enters(Stopping)] == [Enters(Stopping)];
    assert [Enters(Stopping)] + [Enters(last)] == [Enters(Stopping), Enters(last)];
    assert [] + StopCommands(cfg) == StopCommands(cfg) && StopCommands(cfg) + [] == StopCommands(cfg);
  }

  /** Leaving the loop runs the stop command and reports Stopped. */
  lemma LeaveTells(c: Ctx, cfg: ServiceConfig, env: StopEnv, now: nat)
    ensures var s' := LeaveLoop(c, cfg, env, now).s;
            && Told(c.s, s', now, [Enters(Stopped)], StopCommands(cfg))
            && s'.queue == c.s.queue && s'.rt.enabled == c.s.rt.enabled
            && s'.mon == c.s.mon.(tracked := None, exited := true)
  {
    StopTrackedTells(c, cfg, env, now);
    var s1 := StopTracked(c, cfg, env).s;
    var s2 := s1.(mon := s1.mon.(exited := true));
    Nothing(s1, s2, now);
    ToldThen(c.s, s1, s2, now, [], [], StopCommands(cfg), []);
    SetStateTells(s2, Stopped, None, now);
    ToldThen(c.s, s2, SetState(s2, Stopped, None, now), now, [], [Enters(Stopped)], StopCommands(cfg), []);
    assert [] + [Enters(Stopped)] == [Enters(Stopped)] && StopCommands(cfg) + [] == StopCommands(cfg);
  }

  // ----- starting -----

  /** The command of a spawn. */
  function StartCommands(cfg: ServiceConfig): seq<string> {
    if cfg.startCmd.Some? then [cfg.startCmd.value]
    else if cfg.cmd.Some? then [cfg.cmd.value + " start"]
    else []
  }

  /** What a start reports. */
  ghost function StartNotes(c: Ctx, cfg: ServiceConfig, states: map<string, ServiceState>, force: bool, env: StartEnv): seq<Note> {
    var view, code := states[cfg.name := c.s.rt.state], EarlyExit(c, env);
    if !c.s.rt.enabled then [Enters(Disabled), Enters(Failed)]
    else if !DepsAllow(view, cfg.dependsOn, true) then [Enters(Failed)]
    else if !DepsAllow(view, cfg.dependsOn, force) then [Enters(WaitingForDependency)]
    else if Spawning(c, cfg, states, force, env) && StaysUp(cfg, code) then [Enters(Starting), Enters(Running)]
    else if Spawning(c, cfg, states, force, env) && FinishesWell(cfg, code) then [Enters(Starting), Enters(Succeeded)]
    else [Enters(Starting), Enters(Failed)]
  }

  ghost function SpawnCommands(c: Ctx, cfg: ServiceConfig, states: map<string, ServiceState>, force: bool, env: StartEnv): seq<string> {
    if Spawning(c, cfg, states, force, env) then StartCommands(cfg) else []
  }

  lemma SameStateTells(s: Svc, s': Svc, now: nat, notes: seq<Note>, commands: seq<string>)
    requires Told(s, s', now, notes, commands)
    ensures Told(s, SetState(s', s'.rt.state, None, now), now, notes, commands)
  {
  }

  /** What a child's first moments make of the service. */
  function Outcome(cfg: ServiceConfig, code: Option<int>): ServiceState {
    if cfg.daemon then
      if code.None? || (cfg.startWaitSecs == 0 && code.value in cfg.successExitCodes) then Running else Failed
    else if code.Some? && code.value in cfg.successExitCodes then Succeeded
    else Failed
  }

  lemma DaemonOutcomeTells(s: Svc, cfg: ServiceConfig, pid: int, code: Option<int>, now: nat)
    requires cfg.daemon
    ensures var (s', ok) := DaemonOutcome(s, cfg, pid, code, now);
            Told(s, s', now, [Enters(Outcome(cfg, code))], []) && (ok <==> !Outcome(cfg, code).Failed?)
  {
    SetStateTells(s, Running, Some(pid), now);
    SetStateTells(s, Running, None, now);
    SetStateTells(s, Failed, None, now);
  }

  lemma JobOutcomeTells(s: Svc, cfg: ServiceConfig, code: Option<int>, now: nat)
    requires !cfg.daemon
    ensures var (s', ok) := JobOutcome(s, cfg, code, now);
            Told(s, s', now, [Enters(Outcome(cfg, code))], []) && (ok <==> !Outcome(cfg, code).Failed?)
  {
    SetStateTells(s, Failed, None, now);
    SetStateTells(Track(s, None), Failed, None, now);
    SetStateTells(Track(s, None), Succeeded, None, now);
  }

  lemma LaunchTells(c: Ctx, cfg: ServiceConfig, states: map<string, ServiceState>, force: bool, env: StartEnv, now: nat)
    requires cfg.CanStart() && env.Child?
    ensures var (c', ok) := Launch(c, cfg, states, force, env, now);
            && Told(c.s, c'.s, now, [Enters(Outcome(cfg, EarlyExit(c, env)))], StartCommands(cfg))
            && (ok <==> !Outcome(cfg, EarlyExit(c, env)).Failed?)
  {
    var s := c.s.(journal := Spawned(c.s.journal, env.pid, force, cfg.ResolveStart().value, cfg.dependsOn,
                                     states[cfg.name := c.s.rt.state]));
    var code := EarlyExit(c, env);
    var c', ok := Launch(c, cfg, states, force, env, now).0, Launch(c, cfg, states, force, env, now).1;
    assert Told(c.s, s, now, [], StartCommands(cfg));
    if cfg.daemon {
      DaemonOutcomeTells(s, cfg, env.pid, code, now);
    } else {
      JobOutcomeTells(s, cfg, code, now);
    }
    ToldThen(c.s, s, c'.s, now, [], [Enters(Outcome(cfg, code))], StartCommands(cfg), []);
    assert [] + [Enters(Outcome(cfg, code))] == [Enters(Outcome(cfg, code))] && StartCommands(cfg) + [] == StartCommands(cfg);
  }

  /** The part of a start behind the checks. */
  lemma StartingTells(s: Svc, reg: R.Registry, cfg: ServiceConfig, states: map<string, ServiceState>, force: bool,
                      env: StartEnv, now: nat)
    ensures var can := cfg.CanStart() && env.Child?;
            var c := Ctx(SetState(s, Starting, None, now), reg);
            var (c1, ok) := Launch(c, cfg, states, force, env, now);
            var s' := if ok then c1.s else SetState(c1.s, Failed, None, now);
            Told(s, s', now,
                 [Enters(Starting), Enters(if can then Outcome(cfg, EarlyExit(c, env)) else Failed)],
                 if can then StartCommands(cfg) else [])
  {
    var c := Ctx(SetState(s, Starting, None, now), reg);
    SetStateTells(s, Starting, None, now);
    var (c1, ok) := Launch(c, cfg, states, force, env, now);
    if cfg.CanStart() && env.Child? {
      var note := Enters(Outcome(cfg, EarlyExit(c, env)));
      LaunchTells(c, cfg, states, force, env, now);
      ToldThen(s, c.s, c1.s, now, [Enters(Starting)], [note], [], StartCommands(cfg));
      assert [Enters(Starting)] + [note] == [Enters(Starting), note] && [] + StartCommands(cfg) == StartCommands(cfg);
      SameStateTells(s, c1.s, now, [Enters(Starting), note], StartCommands(cfg));
    } else {
      SetStateTells(c.s, Failed, None, now);
      ToldThen(s, c.s, SetState(c.s, Failed, None, now), now, [Enters(Starting)], [Enters(Failed)], [], []);
      assert [Enters(Starting)] + [Enters(Failed)] == [Enters(Starting), Enters(Failed)];
    }
  }

  lemma DisabledStartTells(s: Svc, now: nat)
    ensures Told(s, SetState(SetState(s, Disabled, None, now), Failed, None, now), now, [Enters(Disabled), Enters(Failed)], [])
  {
    var s1 := SetState(s, Disabled, None, now);
    SetStateTells(s, Disabled, None, now);
    SetStateTells(s1, Failed, None, now);
    ToldThen(s, s1, SetState(s1, Failed, None, now), now, [Enters(Disabled)], [Enters(Failed)], [], []);
    assert [Enters(Disabled)] + [Enters(Failed)] == [Enters(Disabled), Enters(Failed)];
  }

  /** A start, by the checks it passes. */
  lemma StartUnfolds(c: Ctx, cfg: ServiceConfig, states: map<string, ServiceState>, force: bool, env: StartEnv, now: nat)
    ensures var view, s := states[cfg.name := c.s.rt.state], c.s.(journal := Entered(c.s.journal, c.s.mon.tracked));
            var s', (c1, ok) := StartOrFail(c, cfg, states, force, env, now).s,
                                Launch(Ctx(SetState(s, Starting, None, now), c.reg), cfg, states, force, env, now);
            s' == if !c.s.rt.enabled then SetState(SetState(s, Disabled, None, now), Failed, None, now)
                  else if !DepsAllow(view, cfg.dependsOn, true) then SetState(s, Failed, None, now)
                  else if !DepsAllow(view, cfg.dependsOn, force) then SetState(s, WaitingForDependency, None, now)
                  else if ok then c1.s else SetState(c1.s, Failed, None, now)
  {
    DepsAllowIff(states[cfg.name := c.s.rt.state], cfg.dependsOn, force);
    DepsAllowIff(states[cfg.name := c.s.rt.state], cfg.dependsOn, true);
  }

  /** What a start reports and runs, for every combination of flag, dependencies, command, spawn and exit. */
  lemma StartTells(c: Ctx, cfg: ServiceConfig, states: map<string, ServiceState>, force: bool, env: StartEnv, now: nat)
    ensures Told(c.s, StartOrFail(c, cfg, states, force, env, now).s, now,
                 StartNotes(c, cfg, states, force, env), SpawnCommands(c, cfg, states, force, env))
  {
    var s := c.s.(journal := Entered(c.s.journal, c.s.mon.tracked));
    StartUnfolds(c, cfg, states, force, env, now);
    DisabledStartTells(s, now);
    SetStateTells(s, Failed, None, now);
    SetStateTells(s, WaitingForDependency, None, now);
    StartingTells(s, c.reg, cfg, states, force, env, now);
    NotesAre(c, cfg, states, force, env, now);
  }

  /** The notes behind the checks, in terms of the outcome. */
  lemma NotesAre(c: Ctx, cfg: ServiceConfig, states: map<string, ServiceState>, force: bool, env: StartEnv, now: nat)
    ensures var can, code := cfg.CanStart() && env.Child?, EarlyExit(c, env);
            c.s.rt.enabled && DepsAllow(states[cfg.name := c.s.rt.state], cfg.dependsOn, force) ==>
              && StartNotes(c, cfg, states, force, env) == [Enters(Starting), Enters(if can then Outcome(cfg, code) else Failed)]
              && SpawnCommands(c, cfg, states, force, env) == if can then StartCommands(cfg) else []
  {
  }

  /** Everything but the tracked child and the report is as before. */
  ghost predicate OnlyTracks(s: Svc, s': Svc) {
    s'.queue == s.queue && s'.rt.enabled == s.rt.enabled && s'.mon == s.mon.(tracked := s'.mon.tracked)
  }

  lemma OutcomeOnlyTracks(s: Svc, cfg: ServiceConfig, pid: int, code: Option<int>, now: nat)
    ensures OnlyTracks(s, DaemonOutcome(s, cfg, pid, code, now).0) && OnlyTracks(s, JobOutcome(s, cfg, code, now).0)
  {
  }

  lemma LaunchOnlyTracks(c: Ctx, cfg: ServiceConfig, states: map<string, ServiceState>, force: bool, env: StartEnv, now: nat)
    ensures OnlyTracks(c.s, Launch(c, cfg, states, force, env, now).0.s)
  {
    if cfg.CanStart() && env.Child? {
      var s := c.s.(journal := Spawned(c.s.journal, env.pid, force, cfg.ResolveStart().value, cfg.dependsOn,
                                       states[cfg.name := c.s.rt.state]));
      OutcomeOnlyTracks(s, cfg, env.pid, EarlyExit(c, env), now);
    }
  }

  /** A start leaves everything else about the monitor alone. */
  lemma StartKeepsRest(c: Ctx, cfg: ServiceConfig, states: map<string, ServiceState>, force: bool, env: StartEnv, now: nat)
    ensures OnlyTracks(c.s, StartOrFail(c, cfg, states, force, env, now).s)
  {
    var s := c.s.(journal := Entered(c.s.journal, c.s.mon.tracked));
    StartUnfolds(c, cfg, states, force, env, now);
    LaunchOnlyTracks(Ctx(SetState(s, Starting, None, now), c.reg), cfg, states, force, env, now);
  }

  /** A start message for a service without a child, and a start after a back-off or a wait. */
  lemma StartMessageTells(c: Ctx, cfg: ServiceConfig, states: map<string, ServiceState>, force: bool, env: TickEnv, now: nat)
    requires c.s.mon.tracked.None?
    ensures var s' := HandleStart(c, cfg, states, force, env, now).s;
            && Told(c.s, s', now, StartNotes(c, cfg, states, force, env.start), SpawnCommands(c, cfg, states, force, env.start))
            && s'.queue == c.s.queue && s'.rt.enabled == c.s.rt.enabled
            && s'.mon == c.s.mon.(tracked := s'.mon.tracked, scheduled := cfg.livenessProbe.Some?, streak := 0)
    ensures var s' := Resume(c, cfg, states, env.start, now).s;
            && Told(c.s, s', now, StartNotes(c, cfg, states, false, env.start), SpawnCommands(c, cfg, states, false, env.start))
            && s'.queue == c.s.queue && s'.rt.enabled == c.s.rt.enabled
            && s'.mon == c.s.mon.(tracked := s'.mon.tracked, scheduled := cfg.livenessProbe.Some?)
  {
    var c0 := c.(s := Accept(c.s, Start(force)));
    StartTells(c0, cfg, states, force, env.start, now);
    StartKeepsRest(c0, cfg, states, force, env.start, now);
    SameStart(c0, c, cfg, states, force, env.start);
    StartTells(c, cfg, states, false, env.start, now);
    StartKeepsRest(c, cfg, states, false, env.start, now);
  }

  // ----- exits, restarts and probes -----

  /** What the look at an exit makes of the service, with the exit reported. */
  lemma LookIs(c: Ctx, cfg: ServiceConfig, stopAll: bool, now: nat)
    requires c.s.mon.tracked.Some? && c.s.mon.tracked.value in c.reg.exits
    ensures var code := c.reg.exits[c.s.mon.tracked.value];
            var s0 := ResetStreak(Track(c.s, None).(journal := ExitTaken(c.s.journal, c.s.mon.tracked.value, code)));
            var (s1, again) := OnProcessExit(s0, cfg, stopAll, code, now);
            && again == (cfg.daemon && c.s.rt.enabled && !stopAll && WantsRestart(cfg, code))
            && OnlyTracks(s0, s1)
            && Look(c, cfg, stopAll, now).s ==
               s1.(mon := s1.mon.(scheduled := if again then c.s.mon.scheduled else cfg.livenessProbe.Some?,
                                  phase := if again then BackingOff(cfg) else Watching))
  {
  }

  lemma ProcessExitTells(s: Svc, cfg: ServiceConfig, stopAll: bool, code: int, now: nat)
    ensures var again := cfg.daemon && s.rt.enabled && !stopAll && WantsRestart(cfg, code);
            Told(s, OnProcessExit(s, cfg, stopAll, code, now).0, now,
                 if again then [Enters(Pending), Enters(Restarting), CountsRestart]
                 else [Enters(Pending), Enters(if code in cfg.successExitCodes then Succeeded else Failed)], [])
  {
    var s1 := SetState(s, Pending, None, now);
    SetStateTells(s, Pending, None, now);
    if cfg.daemon && s.rt.enabled && !stopAll && WantsRestart(cfg, code) {
      AnnouncesRestart(s1, now);
      ToldThen(s, s1, BumpRestarts(SetState(s1, Restarting, None, now), now), now,
               [Enters(Pending)], [Enters(Restarting), CountsRestart], [], []);
      assert [Enters(Pending)] + [Enters(Restarting), CountsRestart] == [Enters(Pending), Enters(Restarting), CountsRestart];
    } else {
      var last := if code in cfg.successExitCodes then Succeeded else Failed;
      SetStateTells(s1, last, None, now);
      ToldThen(s, s1, SetState(s1, last, None, now), now, [Enters(Pending)], [Enters(last)], [], []);
      assert [Enters(Pending)] + [Enters(last)] == [Enters(Pending), Enters(last)];
    }
  }

  /** An exit is reported as Pending first; then the restart is announced and counted, or the outcome is reported. */
  lemma ExitTells(c: Ctx, cfg: ServiceConfig, stopAll: bool, now: nat)
    requires c.s.mon.tracked.Some? && c.s.mon.tracked.value in c.reg.exits
    ensures var s', code := Look(c, cfg, stopAll, now).s, c.reg.exits[c.s.mon.tracked.value];
            var again := cfg.daemon && c.s.rt.enabled && !stopAll && WantsRestart(cfg, code);
            && Told(c.s, s', now,
                    if again then [Enters(Pending), Enters(Restarting), CountsRestart]
                    else [Enters(Pending), Enters(if code in cfg.successExitCodes then Succeeded else Failed)], [])
            && s'.queue == c.s.queue && s'.rt.enabled == c.s.rt.enabled
            && s'.mon == Monitor(None, if again then c.s.mon.scheduled else cfg.livenessProbe.Some?, 0, c.s.mon.exited,
                                 if again then BackingOff(cfg) else Watching)
  {
    var pid := c.s.mon.tracked.value;
    var s0 := ResetStreak(Track(c.s, None).(journal := ExitTaken(c.s.journal, pid, c.reg.exits[pid])));
    ProcessExitTells(s0, cfg, stopAll, c.reg.exits[pid], now);
    LookIs(c, cfg, stopAll, now);
  }

  /** Nothing to do: a running child is left alone, and a service that does not wait is not retried. */
  lemma NothingToDo(c: Ctx, cfg: ServiceConfig, states: map<string, ServiceState>, stopAll: bool, env: TickEnv, now: nat)
    ensures c.s.mon.tracked.Some? && c.s.mon.tracked.value !in c.reg.exits ==> Look(c, cfg, stopAll, now) == At(c, Watching)
    ensures !c.s.rt.state.WaitingForDependency? ==> Retry(c, cfg, states, env.start, now) == c
    ensures c.s.mon.tracked.Some? ==> forall force :: HandleMessage(c, Start(force), cfg, states, env, now) == c
    ensures c.s.mon.exited ==> Tick(c, cfg, states, stopAll, env, now) == c
  {
  }

  lemma AnnouncesRestart(s: Svc, now: nat)
    ensures Told(s, BumpRestarts(SetState(s, Restarting, None, now), now), now, [Enters(Restarting), CountsRestart], [])
  {
    var s1 := SetState(s, Restarting, None, now);
    SetStateTells(s, Restarting, None, now);
    BumpRestartsTells(s1, now);
    ToldThen(s, s1, BumpRestarts(s1, now), now, [Enters(Restarting)], [CountsRestart], [], []);
    assert [Enters(Restarting)] + [CountsRestart] == [Enters(Restarting), CountsRestart];
  }

  /** The restart command: its own, the verb, or stop and start in one. */
  function RestartCommands(cfg: ServiceConfig): seq<string> {
    if cfg.restartCmd.Some? then [cfg.restartCmd.value]
    else if cfg.cmd.Some? then [cfg.cmd.value + " restart"]
    else if cfg.stopCmd.Some? && cfg.startCmd.Some? then [cfg.stopCmd.value + " && " + cfg.startCmd.value]
    else []
  }

  lemma CommandTells(c: Ctx, command: Option<string>, run: ShellRun, now: nat)
    ensures var s' := Command(c, command, run).0.s;
            && Told(c.s, s', now, [], if command.Some? then [command.value] else [])
            && s' == c.s.(journal := s'.journal)
  {
  }

  /** A restart message up to the start: the stop command, then the restart command. */
  lemma RestartBegins(c: Ctx, cfg: ServiceConfig, env: TickEnv, now: nat)
    ensures var s2 := Command(StopTracked(c.(s := Accept(c.s, Restart)), cfg, env.stop), cfg.ResolveRestart(), env.shell).0.s;
            && Told(c.s, s2, now, [], StopCommands(cfg) + RestartCommands(cfg))
            && s2 == c.s.(mon := c.s.mon.(tracked := None, streak := 0), journal := s2.journal)
  {
    var c0 := c.(s := Accept(c.s, Restart));
    StopTrackedTells(c0, cfg, env.stop, now);
    var c1 := StopTracked(c0, cfg, env.stop);
    CommandTells(c1, cfg.ResolveRestart(), env.shell, now);
    ToldThen(c0.s, c1.s, Command(c1, cfg.ResolveRestart(), env.shell).0.s, now, [], [], StopCommands(cfg), RestartCommands(cfg));
  }

  /** A restart message: the stop command, the restart command, and, unless that one brought a daemon up, a start. */
  lemma RestartTells(c: Ctx, cfg: ServiceConfig, states: map<string, ServiceState>, env: TickEnv, now: nat)
    ensures var s', byCommand := HandleRestart(c, cfg, states, env, now).s, RestartsByCommand(cfg, env);
            var next := Ctx(c.s, Command(StopTracked(c, cfg, env.stop), cfg.ResolveRestart(), env.shell).0.reg);
            && Told(c.s, s', now,
                    if byCommand then [Enters(Running)] else StartNotes(next, cfg, states, false, env.start),
                    StopCommands(cfg) + RestartCommands(cfg)
                    + if byCommand then [] else SpawnCommands(next, cfg, states, false, env.start))
            && s'.queue == c.s.queue && s'.rt.enabled == c.s.rt.enabled
            && s'.mon == c.s.mon.(tracked := s'.mon.tracked, scheduled := cfg.livenessProbe.Some?, streak := 0)
  {
    var c2 := Command(StopTracked(c.(s := Accept(c.s, Restart)), cfg, env.stop), cfg.ResolveRestart(), env.shell).0;
    var next := Ctx(c.s, Command(StopTracked(c, cfg, env.stop), cfg.ResolveRestart(), env.shell).0.reg);
    var commands := StopCommands(cfg) + RestartCommands(cfg);
    RestartBegins(c, cfg, env, now);
    SetStateTells(c2.s, Running, None, now);
    ToldThen(c.s, c2.s, SetState(c2.s, Running, None, now), now, [], [Enters(Running)], commands, []);
    var started := StartOrFail(c2, cfg, states, false, env.start, now).s;
    StartTells(c2, cfg, states, false, env.start, now);
    StartKeepsRest(c2, cfg, states, false, env.start, now);
    SameStart(c2, next, cfg, states, false, env.start);
    var notes, spawn := StartNotes(next, cfg, states, false, env.start), SpawnCommands(next, cfg, states, false, env.start);
    ToldThen(c.s, c2.s, started, now, [], notes, commands, spawn);
    assert [] + [Enters(Running)] == [Enters(Running)] && [] + notes == notes && commands + [] == commands;
    RestartIs(c, cfg, states, env, now);
  }

  lemma RestartIs(c: Ctx, cfg: ServiceConfig, states: map<string, ServiceState>, env: TickEnv, now: nat)
    ensures var c2 := Command(StopTracked(c.(s := Accept(c.s, Restart)), cfg, env.stop), cfg.ResolveRestart(), env.shell).0;
            HandleRestart(c, cfg, states, env, now).s ==
            Schedule(if RestartsByCommand(cfg, env) then SetState(c2.s, Running, None, now)
                     else StartOrFail(c2, cfg, states, false, env.start, now).s, cfg)
  {
  }

  /** What a start reports depends only on the state, the flag and the exits held. */
  lemma SameStart(c: Ctx, d: Ctx, cfg: ServiceConfig, states: map<string, ServiceState>, force: bool, env: StartEnv)
    requires c.s.rt.state == d.s.rt.state && c.s.rt.enabled == d.s.rt.enabled && c.reg == d.reg
    ensures StartNotes(c, cfg, states, force, env) == StartNotes(d, cfg, states, force, env)
    ensures SpawnCommands(c, cfg, states, force, env) == SpawnCommands(d, cfg, states, force, env)
  {
  }

  // ----- probes -----

  /** The service as a liveness restart leaves it to the start. */
  function ToRestart(c: Ctx, cfg: ServiceConfig, env: TickEnv): Ctx {
    Ctx(c.s.(rt := c.s.rt.(state := Restarting)), StopTracked(c, cfg, env.stop).reg)
  }

  /** What a probe reports: nothing, a healed job, a failure, or a failure and a restart. */
  ghost function ProbeNotes(c: Ctx, cfg: ServiceConfig, states: map<string, ServiceState>, env: TickEnv): seq<Note> {
    if !ProbeDue(c.s, cfg, env) then []
    else if env.probe.ProbeOk? then if c.s.rt.state.Failed? && !cfg.daemon then [Enters(Succeeded)] else []
    else if !Fires(c.s, cfg, env) then [CountsFailure(env.probe.reason)]
    else [CountsFailure(env.probe.reason), Enters(Restarting), CountsRestart]
         + StartNotes(ToRestart(c, cfg, env), cfg, states, false, env.restart)
  }

  /** A liveness restart up to the start. */
  function Announced(c: Ctx, cfg: ServiceConfig, env: TickEnv, now: nat): Ctx {
    var s1 := ResetStreak(c.s.(journal := ThresholdHit(c.s.journal, c.s.mon.streak)));
    StopTracked(c.(s := BumpRestarts(SetState(s1, Restarting, None, now), now)), cfg, env.stop)
  }

  lemma AnnouncedTells(c: Ctx, cfg: ServiceConfig, env: TickEnv, now: nat)
    ensures var c' := Announced(c, cfg, env, now);
            && Told(c.s, c'.s, now, [Enters(Restarting), CountsRestart], StopCommands(cfg))
            && c'.s.queue == c.s.queue && c'.s.rt.enabled == c.s.rt.enabled && c'.s.rt.state.Restarting?
            && c'.s.mon == c.s.mon.(tracked := None, streak := 0) && c'.reg == StopTracked(c, cfg, env.stop).reg
  {
    var s1 := ResetStreak(c.s.(journal := ThresholdHit(c.s.journal, c.s.mon.streak)));
    var c2 := c.(s := BumpRestarts(SetState(s1, Restarting, None, now), now));
    AnnouncesRestart(s1, now);
    SetStateTells(s1, Restarting, None, now);
    BumpRestartsTells(SetState(s1, Restarting, None, now), now);
    StopTrackedTells(c2, cfg, env.stop, now);
    var announced := [Enters(Restarting), CountsRestart];
    ToldThen(s1, c2.s, StopTracked(c2, cfg, env.stop).s, now, announced, [], [], StopCommands(cfg));
    assert announced + [] == announced && [] + StopCommands(cfg) == StopCommands(cfg);
  }

  lemma LivenessRestartTells(c: Ctx, cfg: ServiceConfig, states: map<string, ServiceState>, env: TickEnv, now: nat)
    ensures var s', next := LivenessRestart(c, cfg, states, env, now).s, ToRestart(c, cfg, env);
            && Told(c.s, s', now, [Enters(Restarting), CountsRestart] + StartNotes(next, cfg, states, false, env.restart),
                    StopCommands(cfg) + SpawnCommands(next, cfg, states, false, env.restart))
            && s'.queue == c.s.queue && s'.rt.enabled == c.s.rt.enabled
            && s'.mon == c.s.mon.(tracked := s'.mon.tracked, scheduled := cfg.livenessProbe.Some?, streak := 0)
  {
    var c3 := Announced(c, cfg, env, now);
    var announced := [Enters(Restarting), CountsRestart];
    AnnouncedTells(c, cfg, env, now);
    StartTells(c3, cfg, states, false, env.restart, now);
    StartKeepsRest(c3, cfg, states, false, env.restart, now);
    SameStart(c3, ToRestart(c, cfg, env), cfg, states, false, env.restart);
    ToldThen(c.s, c3.s, StartOrFail(c3, cfg, states, false, env.restart, now).s, now, announced,
             StartNotes(c3, cfg, states, false, env.restart), StopCommands(cfg), SpawnCommands(c3, cfg, states, false, env.restart));
  }

  lemma FiringIs(c: Ctx, cfg: ServiceConfig, states: map<string, ServiceState>, env: TickEnv, now: nat)
    requires Fires(c.s, cfg, env)
    ensures MaybeLiveness(c, cfg, states, env, now)
            == LivenessRestart(c.(s := AfterFailure(c.s, env.probe.reason, now)), cfg, states, env, now)
  {
  }

  lemma AfterFailureKeeps(c: Ctx, cfg: ServiceConfig, env: TickEnv, now: nat)
    requires env.probe.ProbeFail?
    ensures var s' := AfterFailure(c.s, env.probe.reason, now);
            && s'.queue == c.s.queue && s'.rt.enabled == c.s.rt.enabled && s'.rt.state == c.s.rt.state
            && s'.mon == c.s.mon.(streak := s'.mon.streak)
            && ToRestart(c.(s := s'), cfg, env).reg == ToRestart(c, cfg, env).reg
  {
  }

  /** The probe that completes the threshold. */
  lemma FiringTells(c: Ctx, cfg: ServiceConfig, states: map<string, ServiceState>, env: TickEnv, now: nat)
    requires Fires(c.s, cfg, env)
    ensures var s' := MaybeLiveness(c, cfg, states, env, now).s;
            && Told(c.s, s', now, ProbeNotes(c, cfg, states, env),
                    StopCommands(cfg) + SpawnCommands(ToRestart(c, cfg, env), cfg, states, false, env.restart))
            && s'.queue == c.s.queue && s'.rt.enabled == c.s.rt.enabled
            && s'.mon == c.s.mon.(tracked := s'.mon.tracked, scheduled := true, streak := 0)
  {
    var reason := env.probe.reason;
    var c1 := c.(s := AfterFailure(c.s, reason, now));
    FiringIs(c, cfg, states, env, now);
    FailureTells(c.s, reason, now);
    AfterFailureKeeps(c, cfg, env, now);
    LivenessRestartTells(c1, cfg, states, env, now);
    SameStart(ToRestart(c1, cfg, env), ToRestart(c, cfg, env), cfg, states, false, env.restart);
    var notes := StartNotes(ToRestart(c, cfg, env), cfg, states, false, env.restart);
    var commands := StopCommands(cfg) + SpawnCommands(ToRestart(c, cfg, env), cfg, states, false, env.restart);
    var last := LivenessRestart(c1, cfg, states, env, now).s;
    ToldThen(c.s, c1.s, last, now, [CountsFailure(reason)], [Enters(Restarting), CountsRestart] + notes, [], commands);
    assert [CountsFailure(reason)] + ([Enters(Restarting), CountsRestart] + notes)
        == [CountsFailure(reason), Enters(Restarting), CountsRestart] + notes;
    assert [] + commands == commands;
  }

  /** The probe part without a restart: what it makes of the service. */
  lemma NotFiringIs(c: Ctx, cfg: ServiceConfig, states: map<string, ServiceState>, env: TickEnv, now: nat)
    requires !Fires(c.s, cfg, env)
    ensures var s' := MaybeLiveness(c, cfg, states, env, now).s;
            var active := c.s.rt.state in {Running, Succeeded, Failed} && c.s.rt.enabled;
            var passed := ResetStreak(c.s.(journal := ProbePassed(c.s.journal)));
            var probed := if !ProbeDue(c.s, cfg, env) then c.s
                          else if env.probe.ProbeFail? then AfterFailure(c.s, env.probe.reason, now)
                          else if c.s.rt.state.Failed? && !cfg.daemon then SetState(passed, Succeeded, None, now)
                          else passed;
            s' == probed.(mon := probed.mon.(scheduled := cfg.livenessProbe.Some? && (active || c.s.mon.scheduled)))
  {
  }

  /** Every other way through the probe part. */
  lemma NotFiringTells(c: Ctx, cfg: ServiceConfig, states: map<string, ServiceState>, env: TickEnv, now: nat)
    requires !Fires(c.s, cfg, env)
    ensures var s' := MaybeLiveness(c, cfg, states, env, now).s;
            var active := c.s.rt.state in {Running, Succeeded, Failed} && c.s.rt.enabled;
            && Told(c.s, s', now, ProbeNotes(c, cfg, states, env), [])
            && s'.queue == c.s.queue && s'.rt.enabled == c.s.rt.enabled
            && s'.mon == c.s.mon.(streak := s'.mon.streak, scheduled := cfg.livenessProbe.Some? && (active || c.s.mon.scheduled))
  {
    NotFiringIs(c, cfg, states, env, now);
    if !ProbeDue(c.s, cfg, env) {
      Nothing(c.s, c.s, now);
    } else if env.probe.ProbeFail? {
      FailureTells(c.s, env.probe.reason, now);
      AfterFailureKeeps(c, cfg, env, now);
    } else {
      var passed := ResetStreak(c.s.(journal := ProbePassed(c.s.journal)));
      Nothing(c.s, passed, now);
      SetStateTells(passed, Succeeded, None, now);
    }
  }

  /** What the probe part of a step reports and runs, and whether a next probe is scheduled after it. */
  lemma ProbeTells(c: Ctx, cfg: ServiceConfig, states: map<string, ServiceState>, env: TickEnv, now: nat)
    ensures var s', fires := MaybeLiveness(c, cfg, states, env, now).s, Fires(c.s, cfg, env);
            var active := c.s.rt.state in {Running, Succeeded, Failed} && c.s.rt.enabled;
            && Told(c.s, s', now, ProbeNotes(c, cfg, states, env),
                    if fires then StopCommands(cfg) + SpawnCommands(ToRestart(c, cfg, env), cfg, states, false, env.restart) else [])
            && s'.queue == c.s.queue && s'.rt.enabled == c.s.rt.enabled
            && s'.mon == c.s.mon.(tracked := s'.mon.tracked, streak := s'.mon.streak,
                                  scheduled := cfg.livenessProbe.Some? && (active || c.s.mon.scheduled))
  {
    if Fires(c.s, cfg, env) {
      FiringTells(c, cfg, states, env, now);
    } else {
      NotFiringTells(c, cfg, states, env, now);
    }
  }
}
