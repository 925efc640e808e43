/** What every operation keeps about one service, in terms of its journal. */
module ServiceInvariant {
  import opened Basics
  import opened Service
  import opened SupervisorSpec
  import R = Reaper

  // ----- reading a journal -----

  /** All lifecycle events ever recorded, oldest first. */
  function Events(j: Journal): seq<RuntimeEvent> {
    match j
    case Created(_) => []
    case Event(prev, e) => Events(prev) + [e]
    case _ => Events(j.prev)
  }

  /** What a ring fed with those events holds. */
  function Ring(j: Journal): seq<RuntimeEvent> {
    match j
    case Created(_) => []
    case Event(prev, e) => PushEvent(Ring(prev), e)
    case _ => Ring(j.prev)
  }

  /** The ring holds the last events. */
  lemma {:induction false} RingIsLast(j: Journal)
    ensures Ring(j) == LastN(Events(j), EVENT_RING_CAP)
  {
    match j
    case Created(_) =>
    case Event(prev, e) =>
      RingIsLast(prev);
    case _ => RingIsLast(j.prev);
  }

  /** Follow the state-change events from creation; `None` when they do not chain. */
  function StateAfter(j: Journal): Option<ServiceState> {
    match j
    case Created(enabled) => Some(if enabled then Pending else Disabled)
    case Event(prev, e) =>
      if !e.kind.StateChange? then StateAfter(prev)
      else if e.from.Some? && e.from != e.to && StateAfter(prev) == e.from then e.to
      else None
    case _ => StateAfter(j.prev)
  }

  /** Probe failures since the last success, restart, accepted message or process exit. */
  function FailuresInARow(j: Journal): nat {
    match j
    case Created(_) => 0
    case ProbeFailed(prev) => FailuresInARow(prev) + 1
    case ProbePassed(_) => 0
    case ThresholdHit(_, _) => 0
    case Accepted(_, _) => 0
    case ExitTaken(_, _, _) => 0
    case _ => FailuresInARow(j.prev)
  }

  function AllFailures(j: Journal): nat {
    match j
    case Created(_) => 0
    case ProbeFailed(prev) => AllFailures(prev) + 1
    case _ => AllFailures(j.prev)
  }

  function AllRestarts(j: Journal): nat {
    match j
    case Created(_) => 0
    case Event(prev, e) => AllRestarts(prev) + if e.kind.Restarted? then 1 else 0
    case _ => AllRestarts(j.prev)
  }

  /** Spawns the journal records. */
  function Spawns(j: Journal): nat {
    match j
    case Created(_) => 0
    case Spawned(prev, _, _, _, _, _) => Spawns(prev) + 1
    case _ => Spawns(j.prev)
  }

  /** Exits of `pid` the service has acted on. */
  function ActedOn(j: Journal, pid: int): nat {
    match j
    case Created(_) => 0
    case ExitTaken(prev, p, _) => ActedOn(prev, pid) + if p == pid then 1 else 0
    case _ => ActedOn(j.prev, pid)
  }

  /** Every command handed to a shell or spawned, oldest first. */
  function Commands(j: Journal): seq<string> {
    match j
    case Created(_) => []
    case Commanded(prev, command) => Commands(prev) + [command]
    case Spawned(prev, _, _, command, _, _) => Commands(prev) + [command]
    case _ => Commands(j.prev)
  }

  /** When the present run of `Running` began. */
  function RunningSince(j: Journal): Option<nat> {
    match j
    case Created(_) => None
    case Event(prev, e) =>
      if !e.kind.StateChange? then RunningSince(prev) else if e.to == Some(Running) then Some(e.ts) else None
    case _ => RunningSince(j.prev)
  }

  /** The child last adopted, unless a state outside these four has been entered since. */
  function PidShown(j: Journal): Option<int> {
    match j
    case Created(_) => None
    case Adopted(_, pid) => Some(pid)
    case Event(prev, e) =>
      if e.kind.StateChange? && !(e.to.Some? && e.to.value in {Running, Starting, Restarting, WaitingForDependency}) then None
      else PidShown(prev)
    case _ => PidShown(j.prev)
  }

  /** Start attempts the journal records. */
  function Attempts(j: Journal): nat {
    match j
    case Created(_) => 0
    case Entered(prev, _) => Attempts(prev) + 1
    case _ => Attempts(j.prev)
  }

  /** Children stopped on purpose. */
  function ChildStops(j: Journal): nat {
    match j
    case Created(_) => 0
    case ChildStopped(prev, _) => ChildStops(prev) + 1
    case _ => ChildStops(j.prev)
  }

  /** Liveness probes run. */
  function Probes(j: Journal): nat {
    match j
    case Created(_) => 0
    case ProbePassed(prev) => Probes(prev) + 1
    case ProbeFailed(prev) => Probes(prev) + 1
    case _ => Probes(j.prev)
  }

  /** The child the service has according to its history. */
  function ChildOf(j: Journal): Option<int> {
    match j
    case Created(_) => None
    case Adopted(_, pid) => Some(pid)
    case ExitTaken(_, _, _) => None
    case ChildStopped(_, _) => None
    case _ => ChildOf(j.prev)
  }

  /** One child at a time: a start is entered and a child adopted only without a child, and
      only the current child is stopped or has its exit taken. */
  predicate OneChild(j: Journal) {
    match j
    case Created(_) => true
    case Entered(prev, tracked) => OneChild(prev) && tracked.None? && ChildOf(prev).None?
    case Adopted(prev, _) => OneChild(prev) && ChildOf(prev).None?
    case ExitTaken(prev, pid, _) => OneChild(prev) && ChildOf(prev) == Some(pid)
    case ChildStopped(prev, pid) => OneChild(prev) && ChildOf(prev) == Some(pid)
    case _ => OneChild(j.prev)
  }

  /** At every unforced spawn each dependency was Running or Succeeded, except the service itself, if it
      lists itself. */
  ghost predicate Gated(j: Journal, n: string) {
    match j
    case Created(_) => true
    case Spawned(prev, _, force, _, deps, states) =>
      Gated(prev, n)
      && (force || forall d :: d in deps ==> d in states && (states[d] in {Running, Succeeded} <==> d != n))
    case _ => Gated(j.prev, n)
  }

  /** Liveness restarts fire exactly at `threshold` failures in a row: each one had that many, and
      with that many, nothing else happens first but the recording of the failure. */
  predicate FiresAt(j: Journal, threshold: nat) {
    match j
    case Created(_) => true
    case ThresholdHit(prev, streak) =>
      FiresAt(prev, threshold) && streak == threshold && FailuresInARow(prev) == threshold
    case Event(prev, _) => FiresAt(prev, threshold)
    case _ => FiresAt(j.prev, threshold) && FailuresInARow(j.prev) < threshold
  }

  // ----- the invariant -----

  /** The runtime record agrees with the journal. */
  ghost predicate Recorded(s: Svc) {
    && s.rt.events == Ring(s.journal)
    && StateAfter(s.journal) == Some(s.rt.state)
    && s.rt.livenessFailures == Saturated(AllFailures(s.journal))
    && s.rt.restarts == Saturated(AllRestarts(s.journal))
    && s.mon.streak == Saturated(FailuresInARow(s.journal))
    && s.rt.runningSince == RunningSince(s.journal)
    && s.rt.pid == PidShown(s.journal)
  }

  /** The pid and the uptime are only reported where they make sense. */
  ghost predicate Reported(s: Svc) {
    && (s.rt.runningSince.Some? <==> s.rt.state.Running?)
    && (s.rt.pid.Some? ==> s.rt.state.KeepsPid())
    && (s.mon.tracked.Some? && s.rt.pid.Some? ==> s.rt.pid == s.mon.tracked)
  }

  ghost predicate Supervised(s: Svc, n: string) {
    && s.mon.tracked == ChildOf(s.journal)
    && OneChild(s.journal)
    && Gated(s.journal, n)
  }

  /** With a fixed failure threshold: the streak stays below it, and restarts fire exactly at it. */
  ghost predicate Probed(s: Svc, t: Option<nat>) {
    t.Some? ==> FailuresInARow(s.journal) < t.value && FiresAt(s.journal, t.value)
  }

  ghost predicate Core(s: Svc, n: string) {
    Recorded(s) && Reported(s) && Supervised(s, n)
  }

  ghost predicate Base(s: Svc, n: string, t: Option<nat>) {
    Core(s, n) && Probed(s, t)
  }

  /** Between monitor steps a child is only tracked in these states. */
  ghost predicate Settled(s: Svc) {
    s.mon.tracked.Some? ==> s.rt.state.Running? || s.rt.state.Disabled? || s.rt.state.Pending?
  }

  /** Where a start is next, there is no child. */
  ghost predicate Placed(mon: Monitor, n: string) {
    && (mon.phase.BackingOff? ==> mon.tracked.None? && mon.phase.cfg.name == n)
    && (mon.phase.Retrying? ==> mon.tracked.None?)
  }

  ghost predicate Inv(s: Svc, n: string, t: Option<nat>) {
    Base(s, n, t) && Settled(s) && Placed(s.mon, n)
  }

  /** The service's probe, if it has one, uses the threshold `t`. */
  predicate FixedThreshold(cfg: ServiceConfig, t: Option<nat>) {
    t.Some? && cfg.livenessProbe.Some? ==> cfg.livenessProbe.value.Threshold() == t.value
  }

  // ----- the runtime record -----

  lemma SetStateKeeps(s: Svc, state: ServiceState, now: nat, n: string, t: Option<nat>)
    requires Base(s, n, t)
    ensures Base(SetState(s, state, None, now), n, t)
  {
  }

  /** A daemon that stayed up is reported with its pid and adopted. */
  lemma AdoptKeeps(s: Svc, pid: int, now: nat, n: string, t: Option<nat>)
    requires Base(s, n, t) && s.mon.tracked.None?
    ensures Base(Adopt(SetState(s, Running, Some(pid), now), pid), n, t)
  {
  }

  lemma RestartingKeeps(s: Svc, now: nat, n: string, t: Option<nat>)
    requires Base(s, n, t)
    ensures Base(BumpRestarts(SetState(s, Restarting, None, now), now), n, t)
  {
    SetStateKeeps(s, Restarting, now, n, t);
  }

  function AfterFailure(s: Svc, reason: string, now: nat): Svc {
    BumpLivenessFailures(
      s.(mon := s.mon.(streak := SatInc(s.mon.streak)), journal := ProbeFailed(s.journal)), reason, now)
  }

  lemma FailureIsRecorded(s: Svc, reason: string, now: nat, n: string, t: Option<nat>)
    requires Base(s, n, t)
    ensures var s1 := AfterFailure(s, reason, now);
            && Core(s1, n)
            && FailuresInARow(s1.journal) == FailuresInARow(s.journal) + 1
            && (t.Some? ==> FiresAt(s1.journal, t.value))
  {
  }

  /** A failed probe: streak, counter and ring move together; at the threshold the streak restarts. */
  lemma FailedProbeKeeps(s: Svc, reason: string, now: nat, n: string, t: Option<nat>)
    requires Base(s, n, t)
    requires t.Some? ==> t.value <= U32_MAX
    ensures var s1 := AfterFailure(s, reason, now);
            && (t.None? || s1.mon.streak < t.value ==> Base(s1, n, t))
            && (t.None? || s1.mon.streak >= t.value ==>
                  Base(ResetStreak(s1.(journal := ThresholdHit(s1.journal, s1.mon.streak))), n, t))
  {
    FailureIsRecorded(s, reason, now, n, t);
  }

  /** The queue is no part of the invariant. */
  lemma EnqueueKeeps(s: Svc, msg: CtlMsg, n: string, t: Option<nat>)
    requires Inv(s, n, t)
    ensures Inv(Enqueue(s, msg), n, t)
  {
  }

  lemma FollowKeeps(s: Svc, enabled: bool, now: nat, n: string, t: Option<nat>)
    requires Inv(s, n, t)
    ensures Inv(Follow(s, enabled, now), n, t)
  {
    EnqueueKeeps(SetEnabledFlag(s, enabled, now), if enabled then Start(false) else Stop, n, t);
  }

  lemma KeptKeeps(s: Svc, was: ServiceConfig, svc: ServiceConfig, now: nat, n: string, t: Option<nat>)
    requires Inv(s, n, t)
    ensures Inv(Kept(s, was, svc, now), n, t)
  {
    FollowKeeps(s, svc.enabled, now, n, t);
    var s1 := if was.enabled != svc.enabled then Follow(s, svc.enabled, now) else s;
    EnqueueKeeps(s1, Restart, n, t);
  }

  // ----- the exit registry -----

  lemma RunShellKeeps(reg: R.Registry, run: ShellRun)
    requires R.Valid(reg)
    ensures R.Valid(RunShell(reg, run).0)
  {
    if run.Ran? {
      R.PublishAllKeepsValid(reg, run.arrivals);
      var r1 := R.PublishAll(reg, run.arrivals);
      R.PublishKeepsValid(r1, R.Arrival(run.pid, run.code, run.hint));
      R.TakeKeepsValid(R.Publish(r1, R.Arrival(run.pid, run.code, run.hint)), run.pid);
    }
  }

  // ----- monitor operations -----

  ghost predicate Good(c: Ctx, n: string, t: Option<nat>) {
    Base(c.s, n, t) && R.Valid(c.reg)
  }

  lemma CommandKeeps(c: Ctx, command: Option<string>, run: ShellRun, n: string, t: Option<nat>)
    requires Good(c, n, t)
    ensures var c' := Command(c, command, run).0;
            Good(c', n, t) && c'.s == c.s.(journal := c'.s.journal)
  {
    RunShellKeeps(c.reg, run);
  }

  lemma StopTrackedKeeps(c: Ctx, cfg: ServiceConfig, env: StopEnv, n: string, t: Option<nat>)
    requires Good(c, n, t)
    ensures var c' := StopTracked(c, cfg, env);
            Good(c', n, t) && c'.s.mon.tracked.None? && c'.s.rt == c.s.rt && c'.s.queue == c.s.queue
  {
    CommandKeeps(c, cfg.ResolveStop(), env.shell, n, t);
    if c.s.mon.tracked.Some? {
      R.WaitTakeKeepsValid(Command(c, cfg.ResolveStop(), env.shell).0.reg, c.s.mon.tracked.value, env.arrivals);
    }
  }

  /** The check fails exactly on an unknown dependency, and names one; otherwise it lists the dependencies that
      are neither Running nor Succeeded. */
  lemma {:induction false} UnmetDepsMeaning(states: map<string, ServiceState>, deps: seq<string>)
    ensures UnmetDeps(states, deps).Err? <==> exists d :: d in deps && d !in states
    ensures UnmetDeps(states, deps).Err? ==> UnmetDeps(states, deps).error in deps && UnmetDeps(states, deps).error !in states
    ensures UnmetDeps(states, deps).Ok? ==>
              forall d :: d in UnmetDeps(states, deps).value <==> d in deps && d in states && states[d] !in {Running, Succeeded}
    decreases |deps|
  {
    if deps != [] {
      var k := |deps| - 1;
      assert deps == deps[..k] + [deps[k]];
      UnmetDepsMeaning(states, deps[..k]);
    }
  }

  /** The check passes exactly when every dependency is known and Running or Succeeded. */
  lemma CheckPassesIff(states: map<string, ServiceState>, deps: seq<string>)
    ensures UnmetDeps(states, deps) == Ok([]) <==> forall d :: d in deps ==> d in states && states[d] in {Running, Succeeded}
  {
    UnmetDepsMeaning(states, deps);
    var unmet := UnmetDeps(states, deps);
    if unmet.Ok? && unmet.value != [] {
      assert unmet.value[0] in unmet.value;
    }
  }

  /** The list keeps the order and the repetitions of the declaration; the first unknown name is the error. */
  lemma {:induction false} UnmetDepsAppend(states: map<string, ServiceState>, a: seq<string>, b: seq<string>)
    ensures var unmet, ua, ub := UnmetDeps(states, a + b), UnmetDeps(states, a), UnmetDeps(states, b);
            unmet == if ua.Err? then ua else if ub.Err? then ub else Ok(ua.value + ub.value)
    decreases |b|
  {
    if b == [] {
      assert a + b == a;
      if UnmetDeps(states, a).Ok? {
        assert UnmetDeps(states, a).value + [] == UnmetDeps(states, a).value;
      }
    } else {
      var k := |b| - 1;
      UnmetDepsAppend(states, a, b[..k]);
      assert (a + b)[..|a + b| - 1] == a + b[..k];
      var ua, ub := UnmetDeps(states, a), UnmetDeps(states, b[..k]);
      if ua.Ok? && ub.Ok? {
        Associate(ua.value, ub.value, [b[k]]);
      }
    }
  }

  lemma DaemonOutcomeKeeps(s: Svc, cfg: ServiceConfig, pid: int, code: Option<int>, now: nat, n: string, t: Option<nat>)
    requires Base(s, n, t) && s.mon.tracked.None?
    ensures var (s', ok) := DaemonOutcome(s, cfg, pid, code, now);
            Base(s', n, t) && Settled(s') && (!ok ==> s'.mon.tracked.None?)
  {
    if code.None? {
      AdoptKeeps(s, pid, now, n, t);
    } else {
      SetStateKeeps(s, Running, now, n, t);
      SetStateKeeps(s, Failed, now, n, t);
    }
  }

  lemma JobOutcomeKeeps(s: Svc, cfg: ServiceConfig, code: Option<int>, now: nat, n: string, t: Option<nat>)
    requires Base(s, n, t) && s.mon.tracked.None?
    ensures var (s', ok) := JobOutcome(s, cfg, code, now);
            Base(s', n, t) && s'.mon.tracked.None?
  {
    assert Track(s, None) == s;
    SetStateKeeps(s, Succeeded, now, n, t);
    SetStateKeeps(s, Failed, now, n, t);
  }

  /** From here on `Starting` is set and the dependency check is behind us. */
  lemma LaunchKeeps(c: Ctx, cfg: ServiceConfig, states: map<string, ServiceState>, force: bool,
                    env: StartEnv, now: nat, t: Option<nat>)
    requires Good(c, cfg.name, t) && c.s.mon.tracked.None? && c.s.rt.state.Starting?
    requires force || forall d :: d in cfg.dependsOn && d != cfg.name ==> d in states && states[d] in {Running, Succeeded}
    ensures var (c', ok) := Launch(c, cfg, states, force, env, now);
            Good(c', cfg.name, t) && Settled(c'.s) && (!ok ==> c'.s.mon.tracked.None?)
  {
    if cfg.CanStart() && env.Child? {
      var s := c.s.(journal := Spawned(c.s.journal, env.pid, force, cfg.ResolveStart().value, cfg.dependsOn,
                                       states[cfg.name := c.s.rt.state]));
      assert Base(s, cfg.name, t);
      R.WaitTakeKeepsValid(c.reg, env.pid, env.arrivals);
      var (reg, code) := R.WaitTake(c.reg, env.pid, env.arrivals);
      R.WaitTakeKeepsValid(reg, env.pid, env.late);
      if cfg.daemon {
        DaemonOutcomeKeeps(s, cfg, env.pid, code, now, cfg.name, t);
      } else {
        JobOutcomeKeeps(s, cfg, code, now, cfg.name, t);
      }
    }
  }

  lemma DoStartKeeps(c: Ctx, cfg: ServiceConfig, states: map<string, ServiceState>, force: bool,
                     env: StartEnv, now: nat, t: Option<nat>)
    requires Good(c, cfg.name, t) && c.s.mon.tracked.None?
    ensures var (c', ok) := DoStart(c, cfg, states, force, env, now);
            Good(c', cfg.name, t) && Settled(c'.s) && (!ok ==> c'.s.mon.tracked.None?)
  {
    var s := c.s.(journal := Entered(c.s.journal, c.s.mon.tracked));
    assert Base(s, cfg.name, t);
    var view := states[cfg.name := s.rt.state];
    CheckPassesIff(view, cfg.dependsOn);
    SetStateKeeps(s, Disabled, now, cfg.name, t);
    SetStateKeeps(s, WaitingForDependency, now, cfg.name, t);
    SetStateKeeps(s, Starting, now, cfg.name, t);
    var unmet := UnmetDeps(view, cfg.dependsOn);
    if s.rt.enabled && unmet.Ok? && (force || unmet.value == []) {
      LaunchKeeps(Ctx(SetState(s, Starting, None, now), c.reg), cfg, states, force, env, now, t);
    }
  }

  lemma StartOrFailKeeps(c: Ctx, cfg: ServiceConfig, states: map<string, ServiceState>, force: bool,
                         env: StartEnv, now: nat, t: Option<nat>)
    requires Good(c, cfg.name, t) && c.s.mon.tracked.None?
    ensures var c' := StartOrFail(c, cfg, states, force, env, now);
            Good(c', cfg.name, t) && Settled(c'.s)
  {
    DoStartKeeps(c, cfg, states, force, env, now, t);
    var (c1, ok) := DoStart(c, cfg, states, force, env, now);
    if !ok {
      SetStateKeeps(c1.s, Failed, now, cfg.name, t);
    }
  }

  lemma OnProcessExitKeeps(s0: Svc, cfg: ServiceConfig, stopAll: bool, code: int, now: nat, t: Option<nat>)
    requires Base(s0, cfg.name, t) && s0.mon.tracked.None?
    ensures var s := OnProcessExit(s0, cfg, stopAll, code, now).0;
            Base(s, cfg.name, t) && s.mon.tracked.None?
  {
    var n := cfg.name;
    SetStateKeeps(s0, Pending, now, n, t);
    var s := SetState(s0, Pending, None, now);
    SetStateKeeps(s, if cfg.IsSuccess(code) then Succeeded else Failed, now, n, t);
    RestartingKeeps(s, now, n, t);
  }

  lemma LivenessRestartKeeps(c: Ctx, cfg: ServiceConfig, states: map<string, ServiceState>,
                             env: TickEnv, now: nat, t: Option<nat>)
    requires R.Valid(c.reg)
    requires Base(ResetStreak(c.s.(journal := ThresholdHit(c.s.journal, c.s.mon.streak))), cfg.name, t)
    ensures var c' := LivenessRestart(c, cfg, states, env, now);
            Good(c', cfg.name, t) && Settled(c'.s)
  {
    var n := cfg.name;
    var s1 := ResetStreak(c.s.(journal := ThresholdHit(c.s.journal, c.s.mon.streak)));
    RestartingKeeps(s1, now, n, t);
    var c1 := c.(s := BumpRestarts(SetState(s1, Restarting, None, now), now));
    StopTrackedKeeps(c1, cfg, env.stop, n, t);
    StartOrFailKeeps(StopTracked(c1, cfg, env.stop), cfg, states, false, env.restart, now, t);
  }

  lemma AfterProbeKeeps(c: Ctx, cfg: ServiceConfig, probe: Probe, states: map<string, ServiceState>,
                        env: TickEnv, now: nat, t: Option<nat>)
    requires Good(c, cfg.name, t) && Settled(c.s)
    requires t.Some? ==> t.value == probe.Threshold()
    ensures var c' := AfterProbe(c, cfg, probe, states, env, now);
            Good(c', cfg.name, t) && Settled(c'.s)
  {
    var n := cfg.name;
    var s := c.s;
    match env.probe
    case ProbeOk =>
      var s1 := ResetStreak(s.(journal := ProbePassed(s.journal)));
      assert Base(s1, n, t);
      SetStateKeeps(s1, Succeeded, now, n, t);
    case ProbeFail(reason) =>
      FailedProbeKeeps(s, reason, now, n, t);
      var s1 := AfterFailure(s, reason, now);
      if s1.mon.streak >= probe.Threshold() {
        LivenessRestartKeeps(c.(s := s1), cfg, states, env, now, t);
      }
  }

  lemma MaybeLivenessKeeps(c: Ctx, cfg: ServiceConfig, states: map<string, ServiceState>,
                           env: TickEnv, now: nat, t: Option<nat>)
    requires FixedThreshold(cfg, t)
    requires Good(c, cfg.name, t) && Settled(c.s)
    ensures var c' := MaybeLiveness(c, cfg, states, env, now);
            Good(c', cfg.name, t) && Settled(c'.s)
  {
    if cfg.livenessProbe.Some? {
      AfterProbeKeeps(c, cfg, cfg.livenessProbe.value, states, env, now, t);
    }
  }

  lemma HandleMessageKeeps(c: Ctx, msg: CtlMsg, cfg: ServiceConfig, states: map<string, ServiceState>,
                           env: TickEnv, now: nat, t: Option<nat>)
    requires Good(c, cfg.name, t) && Settled(c.s)
    ensures var c' := HandleMessage(c, msg, cfg, states, env, now);
            Good(c', cfg.name, t) && Settled(c'.s)
  {
    match msg
    case Quit => LeaveLoopKeeps(c, cfg, env.stop, now, t);
    case Stop => HandleStopKeeps(c, cfg, env.stop, now, t);
    case Restart => HandleRestartKeeps(c, cfg, states, env, now, t);
    case Start(force) =>
      assert Base(Accept(c.s, msg), cfg.name, t);
      if c.s.mon.tracked.None? {
        StartOrFailKeeps(c.(s := Accept(c.s, msg)), cfg, states, force, env.start, now, t);
      }
  }

  lemma LeaveLoopKeeps(c: Ctx, cfg: ServiceConfig, env: StopEnv, now: nat, t: Option<nat>)
    requires Good(c, cfg.name, t)
    ensures var c' := LeaveLoop(c, cfg, env, now);
            Good(c', cfg.name, t) && c'.s.mon.tracked.None? && c'.s.rt.state.Stopped?
  {
    StopTrackedKeeps(c, cfg, env, cfg.name, t);
    var s := StopTracked(c, cfg, env).s;
    SetStateKeeps(s.(mon := s.mon.(exited := true)), Stopped, now, cfg.name, t);
  }

  lemma AcceptKeeps(s: Svc, msg: CtlMsg, n: string, t: Option<nat>)
    requires Base(s, n, t)
    ensures Base(Accept(s, msg), n, t)
  {
  }

  lemma HandleStopKeeps(c: Ctx, cfg: ServiceConfig, env: StopEnv, now: nat, t: Option<nat>)
    requires Good(c, cfg.name, t)
    ensures var c' := HandleStop(c, cfg, env, now);
            && Good(c', cfg.name, t) && c'.s.mon.tracked.None? && c'.s.queue == c.s.queue
            && c'.s.rt.state == (if c.s.rt.enabled then Stopped else Disabled)
  {
    var n := cfg.name;
    assert Base(Accept(c.s, Stop), n, t);
    SetStateKeeps(Accept(c.s, Stop), Stopping, now, n, t);
    var c0 := c.(s := SetState(Accept(c.s, Stop), Stopping, None, now));
    StopTrackedKeeps(c0, cfg, env, n, t);
    var c1 := StopTracked(c0, cfg, env);
    SetStateKeeps(c1.s.(mon := c1.s.mon.(scheduled := false)),
                  if c1.s.rt.enabled then Stopped else Disabled, now, n, t);
  }

  lemma HandleRestartKeeps(c: Ctx, cfg: ServiceConfig, states: map<string, ServiceState>,
                           env: TickEnv, now: nat, t: Option<nat>)
    requires Good(c, cfg.name, t)
    ensures var c' := HandleRestart(c, cfg, states, env, now);
            Good(c', cfg.name, t) && Settled(c'.s)
  {
    var n := cfg.name;
    AcceptKeeps(c.s, Restart, n, t);
    var c0 := c.(s := Accept(c.s, Restart));
    StopTrackedKeeps(c0, cfg, env.stop, n, t);
    var c1 := StopTracked(c0, cfg, env.stop);
    CommandKeeps(c1, cfg.ResolveRestart(), env.shell, n, t);
    var (c2, code) := Command(c1, cfg.ResolveRestart(), env.shell);
    if cfg.CanRestart() && cfg.daemon && cfg.IsSuccess(code) {
      SetStateKeeps(c2.s, Running, now, n, t);
    } else {
      StartOrFailKeeps(c2, cfg, states, false, env.start, now, t);
    }
  }

  /** The invariant of a service together with that of the registry. */
  ghost predicate Steady(c: Ctx, n: string, t: Option<nat>) {
    Inv(c.s, n, t) && R.Valid(c.reg)
  }

  lemma AtKeeps(c: Ctx, phase: Phase, n: string, t: Option<nat>)
    requires Good(c, n, t) && Settled(c.s) && Placed(c.s.mon.(phase := phase), n)
    ensures Steady(At(c, phase), n, t)
  {
  }

  lemma TakenKeeps(s: Svc, pid: int, code: int, n: string, t: Option<nat>)
    requires Base(s, n, t) && s.mon.tracked == Some(pid)
    ensures Base(ResetStreak(Track(s, None).(journal := ExitTaken(s.journal, pid, code))), n, t)
  {
  }

  lemma LookKeeps(c: Ctx, cfg: ServiceConfig, stopAll: bool, now: nat, t: Option<nat>)
    requires Good(c, cfg.name, t) && Settled(c.s)
    ensures Steady(Look(c, cfg, stopAll, now), cfg.name, t)
  {
    var n := cfg.name;
    match c.s.mon.tracked
    case Some(pid) =>
      R.TakeKeepsValid(c.reg, pid);
      var (reg, code) := R.Take(c.reg, pid);
      AtKeeps(c, Watching, n, t);
      if code.Some? {
        TakenKeeps(c.s, pid, code.value, n, t);
        var s := ResetStreak(Track(c.s, None).(journal := ExitTaken(c.s.journal, pid, code.value)));
        OnProcessExitKeeps(s, cfg, stopAll, code.value, now, t);
      }
    case None =>
      AtKeeps(c, if stopAll then Watching else Retrying, n, t);
  }

  lemma ResumeKeeps(c: Ctx, cfg: ServiceConfig, states: map<string, ServiceState>, env: StartEnv, now: nat, t: Option<nat>)
    requires Good(c, cfg.name, t) && c.s.mon.tracked.None?
    ensures var c' := Resume(c, cfg, states, env, now);
            Good(c', cfg.name, t) && Settled(c'.s)
  {
    StartOrFailKeeps(c, cfg, states, false, env, now, t);
  }

  lemma ReceiveKeeps(c: Ctx, cfg: ServiceConfig, stopAll: bool, env: StopEnv, now: nat, t: Option<nat>)
    requires Steady(c, cfg.name, t) && c.s.mon.phase.Top?
    ensures Steady(Receive(c, cfg, stopAll, env, now), cfg.name, t)
  {
    if stopAll {
      LeaveLoopKeeps(c, cfg, env, now, t);
    }
  }

  /** Every step of the monitor loop keeps the invariant of its service. */
  lemma TickKeeps(c: Ctx, cfg: ServiceConfig, states: map<string, ServiceState>, stopAll: bool,
                  env: TickEnv, now: nat, t: Option<nat>)
    requires FixedThreshold(cfg, t) && Steady(c, cfg.name, t)
    ensures Steady(Tick(c, cfg, states, stopAll, env, now), cfg.name, t)
  {
    var n := cfg.name;
    if !c.s.mon.exited {
      match c.s.mon.phase
      case Top => ReceiveKeeps(c, cfg, stopAll, env.stop, now, t);
      case Handling(msg) =>
        HandleMessageKeeps(c, msg, cfg, states, env, now, t);
        AtKeeps(HandleMessage(c, msg, cfg, states, env, now), Top, n, t);
      case Looking => LookKeeps(c, cfg, stopAll, now, t);
      case BackingOff(was) =>
        ResumeKeeps(c, was, states, env.start, now, t);
        AtKeeps(Resume(c, was, states, env.start, now), Watching, n, t);
      case Retrying =>
        ResumeKeeps(c, cfg, states, env.start, now, t);
        AtKeeps(Retry(c, cfg, states, env.start, now), Watching, n, t);
      case Watching => AtKeeps(c, if stopAll then Top else Probing, n, t);
      case Probing =>
        MaybeLivenessKeeps(c, cfg, states, env, now, t);
        AtKeeps(MaybeLiveness(c, cfg, states, env, now), Top, n, t);
    }
  }
}
