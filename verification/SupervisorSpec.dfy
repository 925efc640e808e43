/**
 What each supervisor operation does to the state, as functions.

 One service is a `Svc`: its shared runtime record, its control queue, the locals of its
 monitor thread, and a journal of everything observable that happened to it. A `World` is the
 whole supervisor. Clocks, child exits, shell commands and probe outcomes are inputs.
 */
module SupervisorSpec {
  import opened Basics
  import opened Service
  import R = Reaper

  const EVENT_RING_CAP: nat := 16

  datatype CtlMsg = Start(force: bool) | Stop | Restart | Quit

  datatype Runtime = Runtime(
    state: ServiceState,
    pid: Option<int>,
    restarts: u32,
    livenessFailures: u32,
    enabled: bool,
    runningSince: Option<nat>,
    events: seq<RuntimeEvent>)

  /** Where a monitor loop stands. An iteration is cut wherever the code reads the stop flag and
      then acts on it, and where it sleeps before a restart: in between, anything may happen. */
  datatype Phase =
    | Top
    | Handling(msg: CtlMsg)
    | Looking
    | BackingOff(cfg: ServiceConfig)
    | Retrying
    | Watching
    | Probing

  /** Locals of one monitor loop; `scheduled` says whether a next probe time is set. */
  datatype Monitor = Monitor(tracked: Option<int>, scheduled: bool, streak: u32, exited: bool, phase: Phase)

  /** History of one service, newest last. */
  datatype Journal =
    | Created(enabled: bool)
    | Event(prev: Journal, event: RuntimeEvent)
    | Accepted(prev: Journal, msg: CtlMsg)
    | Entered(prev: Journal, tracked: Option<int>)
    | Commanded(prev: Journal, command: string)
    | Spawned(prev: Journal, pid: int, force: bool, command: string, deps: seq<string>, states: map<string, ServiceState>)
    | Adopted(prev: Journal, pid: int)
    | ExitTaken(prev: Journal, pid: int, code: int)
    | ChildStopped(prev: Journal, pid: int)
    | ProbePassed(prev: Journal)
    | ProbeFailed(prev: Journal)
    | ThresholdHit(prev: Journal, streak: u32)

  datatype Svc = Svc(rt: Runtime, queue: seq<CtlMsg>, mon: Monitor, journal: Journal)

  /** A service together with the exit registry its monitor drains. */
  datatype Ctx = Ctx(s: Svc, reg: R.Registry)

  // ----- inputs from outside -----

  /** One short-lived shell command and the exits reaped while it ran. */
  datatype ShellRun = NoShell | Ran(pid: int, code: int, hint: int, arrivals: seq<R.Arrival>)

  datatype StopEnv = StopEnv(shell: ShellRun, arrivals: seq<R.Arrival>)

  /** A spawn attempt; `late` are the exits reaped while a timed-out job is terminated. */
  datatype StartEnv = SpawnError | Child(pid: int, arrivals: seq<R.Arrival>, late: seq<R.Arrival>)

  datatype ProbeOutcome = ProbeOk | ProbeFail(reason: string)

  datatype TickEnv = TickEnv(
    stop: StopEnv,
    shell: ShellRun,
    start: StartEnv,
    due: bool,
    probe: ProbeOutcome,
    restart: StartEnv)

  // ----- the shared runtime record -----

  function NewRuntime(enabled: bool): Runtime {
    Runtime(if enabled then Pending else Disabled, None, 0, 0, enabled, None, [])
  }

  function PushEvent(events: seq<RuntimeEvent>, e: RuntimeEvent): seq<RuntimeEvent> {
    (if |events| >= EVENT_RING_CAP then events[1..] else events) + [e]
  }

  function Record(s: Svc, e: RuntimeEvent): Svc {
    s.(rt := s.rt.(events := PushEvent(s.rt.events, e)), journal := Event(s.journal, e))
  }

  function NextPid(current: Option<int>, state: ServiceState, pid: Option<int>): Option<int> {
    if pid.Some? then pid else if state.KeepsPid() then current else None
  }

  function NextSince(current: Option<nat>, state: ServiceState, now: nat): Option<nat> {
    if !state.Running? then None else if current.None? then Some(now) else current
  }

  function SetState(s: Svc, state: ServiceState, pid: Option<int>, now: nat): Svc {
    var s1 := if s.rt.state == state then s
              else Record(s, RuntimeEvent(now, StateChange, Some(s.rt.state), Some(state), None));
    s1.(rt := s1.rt.(state := state,
                     pid := NextPid(s.rt.pid, state, pid),
                     runningSince := NextSince(s.rt.runningSince, state, now)))
  }

  function BumpRestarts(s: Svc, now: nat): Svc {
    Record(s.(rt := s.rt.(restarts := SatInc(s.rt.restarts))), RuntimeEvent(now, Restarted, None, None, None))
  }

  function BumpLivenessFailures(s: Svc, reason: string, now: nat): Svc {
    Record(s.(rt := s.rt.(livenessFailures := SatInc(s.rt.livenessFailures))),
           RuntimeEvent(now, LivenessFailed, None, None, Some(reason)))
  }

  function SetEnabledFlag(s: Svc, enabled: bool, now: nat): Svc {
    var s1 := s.(rt := s.rt.(enabled := enabled));
    if !enabled then SetState(s1, Disabled, None, now)
    else if s.rt.state.Disabled? then SetState(s1, Pending, None, now)
    else s1
  }

  /** Dependencies that are not ready, in order; the first unknown name is an error. */
  function UnmetDeps(states: map<string, ServiceState>, deps: seq<string>): Result<seq<string>, string>
    decreases |deps|
  {
    if deps == [] then Ok([]) else
      match UnmetDeps(states, deps[..|deps| - 1])
      case Err(e) => Err(e)
      case Ok(unmet) =>
        var dep := deps[|deps| - 1];
        if dep !in states then Err(dep)
        else if states[dep].Ready() then Ok(unmet)
        else Ok(unmet + [dep])
  }

  // ----- monitor operations on one service -----

  function Track(s: Svc, tracked: Option<int>): Svc {
    s.(mon := s.mon.(tracked := tracked))
  }

  function Adopt(s: Svc, pid: int): Svc {
    Track(s, Some(pid)).(journal := Adopted(s.journal, pid))
  }

  function Schedule(s: Svc, cfg: ServiceConfig): Svc {
    s.(mon := s.mon.(scheduled := cfg.livenessProbe.Some?))
  }

  function At(c: Ctx, phase: Phase): Ctx {
    c.(s := c.s.(mon := c.s.mon.(phase := phase)))
  }

  function ResetStreak(s: Svc): Svc {
    s.(mon := s.mon.(streak := 0))
  }

  /** A shell command run to completion; a spawn failure counts as exit code 1. */
  function RunShell(reg: R.Registry, run: ShellRun): (R.Registry, int) {
    match run
    case NoShell => (reg, 1)
    case Ran(pid, code, hint, arrivals) =>
      (R.Take(R.Publish(R.PublishAll(reg, arrivals), R.Arrival(pid, code, hint)), pid).0, code)
  }

  /** Run a resolved command, if there is one, and say with which code it ended. */
  function Command(c: Ctx, command: Option<string>, run: ShellRun): (Ctx, int) {
    match command
    case None => (c, 1)
    case Some(text) =>
      var (reg, code) := RunShell(c.reg, run);
      (Ctx(c.s.(journal := Commanded(c.s.journal, text)), reg), code)
  }

  /** Run the stop command, whether or not there is a child; then end the child. */
  function StopTracked(c: Ctx, cfg: ServiceConfig, env: StopEnv): Ctx {
    var c1 := Command(c, cfg.ResolveStop(), env.shell).0;
    match c.s.mon.tracked
    case None => c1
    case Some(pid) =>
      Ctx(Track(c1.s, None).(journal := ChildStopped(c1.s.journal, pid)), R.WaitTake(c1.reg, pid, env.arrivals).0)
  }

  function DoStart(c: Ctx, cfg: ServiceConfig, states: map<string, ServiceState>, force: bool,
                   env: StartEnv, now: nat): (Ctx, bool)
  {
    var s := c.s.(journal := Entered(c.s.journal, c.s.mon.tracked));
    var unmet := UnmetDeps(states[cfg.name := s.rt.state], cfg.dependsOn);
    if !s.rt.enabled then
      (Ctx(SetState(s, Disabled, None, now), c.reg), false)
    else if unmet.Err? then
      (Ctx(s, c.reg), false)
    else if !force && unmet.value != [] then
      (Ctx(SetState(s, WaitingForDependency, None, now), c.reg), true)
    else
      Launch(Ctx(SetState(s, Starting, None, now), c.reg), cfg, states, force, env, now)
  }

  function Launch(c: Ctx, cfg: ServiceConfig, states: map<string, ServiceState>, force: bool,
                  env: StartEnv, now: nat): (Ctx, bool)
  {
    if !cfg.CanStart() || env.SpawnError? then (c, false)
    else
      var s := c.s.(journal := Spawned(c.s.journal, env.pid, force, cfg.ResolveStart().value, cfg.dependsOn,
                                       states[cfg.name := c.s.rt.state]));
      var (reg, code) := R.WaitTake(c.reg, env.pid, env.arrivals);
      if cfg.daemon then
        var (s', ok) := DaemonOutcome(s, cfg, env.pid, code, now);
        (Ctx(s', reg), ok)
      else
        var (s', ok) := JobOutcome(s, cfg, code, now);
        (Ctx(s', if code.None? then R.WaitTake(reg, env.pid, env.late).0 else reg), ok)
  }

  /** A daemon that is still up after the grace period becomes the tracked child. */
  function DaemonOutcome(s: Svc, cfg: ServiceConfig, pid: int, code: Option<int>, now: nat): (Svc, bool) {
    if code.None? then
      (Adopt(SetState(s, Running, Some(pid), now), pid), true)
    else if cfg.startWaitSecs == 0 && cfg.IsSuccess(code.value) then
      (Track(SetState(s, Running, None, now), None), true)
    else
      (SetState(s, Failed, None, now), false)
  }

  /** A job must finish in time and with a success code; a late one is terminated. */
  function JobOutcome(s: Svc, cfg: ServiceConfig, code: Option<int>, now: nat): (Svc, bool) {
    if code.None? then
      (SetState(s, Failed, None, now), false)
    else if cfg.IsSuccess(code.value) then
      (SetState(Track(s, None), Succeeded, None, now), true)
    else
      (SetState(Track(s, None), Failed, None, now), false)
  }

  /** Every caller turns an error from `do_start` into the state `Failed`. */
  function StartOrFail(c: Ctx, cfg: ServiceConfig, states: map<string, ServiceState>, force: bool,
                       env: StartEnv, now: nat): Ctx
  {
    var (c1, ok) := DoStart(c, cfg, states, force, env, now);
    if ok then c1 else c1.(s := SetState(c1.s, Failed, None, now))
  }

  /** Report the exit; either that is all, or a restart is announced and the back-off begins. */
  function OnProcessExit(s0: Svc, cfg: ServiceConfig, stopAll: bool, code: int, now: nat): (Svc, bool) {
    var s := SetState(s0, Pending, None, now);
    var success := cfg.IsSuccess(code);
    if !cfg.daemon || !cfg.restartPolicy.ShouldRestart(success) || !s.rt.enabled || stopAll then
      (SetState(s, if success then Succeeded else Failed, None, now), false)
    else
      (BumpRestarts(SetState(s, Restarting, None, now), now), true)
  }

  function MaybeLiveness(c: Ctx, cfg: ServiceConfig, states: map<string, ServiceState>,
                         env: TickEnv, now: nat): Ctx
  {
    var s := c.s;
    if cfg.livenessProbe.None? then
      c.(s := s.(mon := s.mon.(scheduled := false)))
    else if !(s.rt.state.Running? || s.rt.state.Succeeded? || s.rt.state.Failed?) || !s.rt.enabled then
      c
    else if !s.mon.scheduled then
      c.(s := Schedule(s, cfg))
    else if !env.due then
      c
    else
      AfterProbe(c, cfg, cfg.livenessProbe.value, states, env, now)
  }

  function AfterProbe(c: Ctx, cfg: ServiceConfig, probe: Probe, states: map<string, ServiceState>,
                      env: TickEnv, now: nat): Ctx
  {
    var s := c.s;
    match env.probe
    case ProbeOk =>
      var s1 := ResetStreak(s.(journal := ProbePassed(s.journal)));
      c.(s := if s.rt.state.Failed? && !cfg.daemon then SetState(s1, Succeeded, None, now) else s1)
    case ProbeFail(reason) =>
      var streak := SatInc(s.mon.streak);
      var s1 := BumpLivenessFailures(
        s.(mon := s.mon.(streak := streak), journal := ProbeFailed(s.journal)), reason, now);
      if streak < probe.Threshold() then c.(s := s1)
      else LivenessRestart(c.(s := s1), cfg, states, env, now)
  }

  function LivenessRestart(c: Ctx, cfg: ServiceConfig, states: map<string, ServiceState>,
                           env: TickEnv, now: nat): Ctx
  {
    var s1 := ResetStreak(c.s.(journal := ThresholdHit(c.s.journal, c.s.mon.streak)));
    var s2 := BumpRestarts(SetState(s1, Restarting, None, now), now);
    var c1 := StopTracked(c.(s := s2), cfg, env.stop);
    var c2 := StartOrFail(c1, cfg, states, false, env.restart, now);
    c2.(s := Schedule(c2.s, cfg))
  }

  function Accept(s: Svc, msg: CtlMsg): Svc {
    ResetStreak(s.(journal := Accepted(s.journal, msg)))
  }

  function HandleStop(c: Ctx, cfg: ServiceConfig, env: StopEnv, now: nat): Ctx {
    var c1 := StopTracked(c.(s := SetState(Accept(c.s, Stop), Stopping, None, now)), cfg, env);
    c1.(s := SetState(c1.s.(mon := c1.s.mon.(scheduled := false)),
                      if c1.s.rt.enabled then Stopped else Disabled, None, now))
  }

  function HandleRestart(c: Ctx, cfg: ServiceConfig, states: map<string, ServiceState>,
                         env: TickEnv, now: nat): Ctx
  {
    var c1 := StopTracked(c.(s := Accept(c.s, Restart)), cfg, env.stop);
    var (c2, code) := Command(c1, cfg.ResolveRestart(), env.shell);
    if cfg.CanRestart() && cfg.daemon && cfg.IsSuccess(code) then
      c2.(s := Schedule(SetState(c2.s, Running, None, now), cfg))
    else
      var c3 := StartOrFail(c2, cfg, states, false, env.start, now);
      c3.(s := Schedule(c3.s, cfg))
  }

  function HandleStart(c: Ctx, cfg: ServiceConfig, states: map<string, ServiceState>, force: bool,
                       env: TickEnv, now: nat): Ctx
  {
    if c.s.mon.tracked.Some? then c
    else
      var c1 := StartOrFail(c.(s := Accept(c.s, Start(force))), cfg, states, force, env.start, now);
      c1.(s := Schedule(c1.s, cfg))
  }

  /** Stop whatever runs, report `Stopped` and leave the monitor loop. */
  function LeaveLoop(c: Ctx, cfg: ServiceConfig, env: StopEnv, now: nat): Ctx {
    var c1 := StopTracked(c, cfg, env);
    c1.(s := SetState(c1.s.(mon := c1.s.mon.(exited := true)), Stopped, None, now))
  }

  function HandleMessage(c: Ctx, msg: CtlMsg, cfg: ServiceConfig, states: map<string, ServiceState>,
                         env: TickEnv, now: nat): Ctx
  {
    match msg
    case Quit => LeaveLoop(c, cfg, env.stop, now)
    case Stop => HandleStop(c, cfg, env.stop, now)
    case Restart => HandleRestart(c, cfg, states, env, now)
    case Start(force) => HandleStart(c, cfg, states, force, env, now)
  }

  /** No message arrived: look at the child, or decide to retry a start that waits. */
  function Look(c: Ctx, cfg: ServiceConfig, stopAll: bool, now: nat): Ctx {
    match c.s.mon.tracked
    case Some(pid) =>
      var (reg, code) := R.Take(c.reg, pid);
      if code.None? then At(c, Watching)
      else
        var s := ResetStreak(Track(c.s, None).(journal := ExitTaken(c.s.journal, pid, code.value)));
        var (s1, again) := OnProcessExit(s, cfg, stopAll, code.value, now);
        if again then At(Ctx(s1, reg), BackingOff(cfg)) else At(Ctx(Schedule(s1, cfg), reg), Watching)
    case None =>
      At(c, if stopAll then Watching else Retrying)
  }

  /** Start again after the back-off, under the definition read when the child exited. */
  function Resume(c: Ctx, cfg: ServiceConfig, states: map<string, ServiceState>, env: StartEnv, now: nat): Ctx {
    var c1 := StartOrFail(c, cfg, states, false, env, now);
    c1.(s := Schedule(c1.s, cfg))
  }

  function Retry(c: Ctx, cfg: ServiceConfig, states: map<string, ServiceState>, env: StartEnv, now: nat): Ctx {
    if c.s.rt.state.WaitingForDependency? then Resume(c, cfg, states, env, now) else c
  }

  /** Leave when the flag is up; otherwise receive a message, or find that there is none. */
  function Receive(c: Ctx, cfg: ServiceConfig, stopAll: bool, env: StopEnv, now: nat): Ctx {
    if stopAll then LeaveLoop(c, cfg, env, now)
    else if c.s.queue != [] then At(c.(s := c.s.(queue := c.s.queue[1..])), Handling(c.s.queue[0]))
    else At(c, Looking)
  }

  /** One step of the monitor loop; an iteration has two to five. */
  function Tick(c: Ctx, cfg: ServiceConfig, states: map<string, ServiceState>, stopAll: bool,
                env: TickEnv, now: nat): Ctx
  {
    if c.s.mon.exited then c
    else
      match c.s.mon.phase
      case Top => Receive(c, cfg, stopAll, env.stop, now)
      case Handling(msg) => At(HandleMessage(c, msg, cfg, states, env, now), Top)
      case Looking => Look(c, cfg, stopAll, now)
      case BackingOff(was) => At(Resume(c, was, states, env.start, now), Watching)
      case Retrying => At(Retry(c, cfg, states, env.start, now), Watching)
      case Watching => At(c, if stopAll then Top else Probing)
      case Probing => At(MaybeLiveness(c, cfg, states, env, now), Top)
  }

  // ----- the whole supervisor -----

  /** `services` joins the runtime map, the control channels and the monitors by name. */
  datatype World = World(
    config: seq<ServiceConfig>,
    services: map<string, Svc>,
    overrides: map<string, bool>,
    reg: R.Registry,
    stopAll: bool,
    now: nat)
  {
    function Put(n: string, s: Svc): World {
      this.(services := services[n := s])
    }

    function States(): map<string, ServiceState> {
      map n | n in services :: services[n].rt.state
    }

    function Send(n: string, msg: CtlMsg): World {
      if n in services then Put(n, Enqueue(services[n], msg)) else this
    }
  }

  /** Put a message into the channel; once the monitor has left, nobody holds the other end. */
  function Enqueue(s: Svc, msg: CtlMsg): Svc {
    if s.mon.exited then s else s.(queue := s.queue + [msg])
  }

  datatype Error = UnknownService(name: string) | ServiceDisabled(name: string) | ChannelClosed(name: string) | OverrideIo

  /** `send_ctl`: the name must be known and its monitor must still listen. */
  function SendCtl(w: World, n: string, msg: CtlMsg): (World, Result<(), Error>) {
    if n !in w.services then (w, Err(UnknownService(n)))
    else if w.services[n].mon.exited then (w, Err(ChannelClosed(n)))
    else (w.Send(n, msg), Ok(()))
  }

  /** What `start` tells the caller. */
  datatype StartReply = StartingNow | ForcedPast(unmet: seq<string>) | WaitingOn(unmet: seq<string>)

  function StartService(w: World, n: string, force: bool): (World, Result<StartReply, Error>) {
    if n !in w.services then (w, Err(UnknownService(n)))
    else if !w.services[n].rt.enabled then (w, Err(ServiceDisabled(n)))
    else
      match Find(w.config, n)
      case None => (w, Err(UnknownService(n)))
      case Some(cfg) =>
        match UnmetDeps(w.States(), cfg.dependsOn)
        case Err(dep) => (w, Err(UnknownService(dep)))
        case Ok(unmet) =>
          var (w1, sent) := SendCtl(w, n, Start(force));
          if sent.Err? then (w1, Err(sent.error))
          else (w1, Ok(if unmet == [] then StartingNow else if force then ForcedPast(unmet) else WaitingOn(unmet)))
  }

  function StopService(w: World, n: string): (World, Result<(), Error>) {
    SendCtl(w, n, Stop)
  }

  function RestartService(w: World, n: string): (World, Result<(), Error>) {
    if n !in w.services then (w, Err(UnknownService(n)))
    else if !w.services[n].rt.enabled then (w, Err(ServiceDisabled(n)))
    else SendCtl(w, n, Restart)
  }

  /** `get_mut(name).enabled = enabled`: the first service of that name. */
  function WithEnabled(config: seq<ServiceConfig>, n: string, enabled: bool): (r: seq<ServiceConfig>)
    ensures |r| == |config|
  {
    if config == [] then []
    else if config[0].name == n then [config[0].(enabled := enabled)] + config[1..]
    else [config[0]] + WithEnabled(config[1..], n, enabled)
  }

  /** Flip the flag, adjust the state, and ask the monitor to follow. */
  function Follow(s: Svc, enabled: bool, now: nat): Svc {
    Enqueue(SetEnabledFlag(s, enabled, now), if enabled then Start(false) else Stop)
  }

  /** Enable or disable; `written` says whether the override file could be read and written. */
  function SetEnabled(w: World, n: string, enabled: bool, written: bool): (World, Result<(), Error>) {
    if Find(w.config, n).None? then (w, Err(UnknownService(n)))
    else
      var w1 := w.(config := WithEnabled(w.config, n, enabled));
      if !written then (w1, Err(OverrideIo))
      else
        var w2 := w1.(overrides := w1.overrides[n := enabled]);
        if n !in w2.services then (w2, Err(UnknownService(n)))
        else
          (w2.Put(n, Follow(w2.services[n], enabled, w.now)),
           if w2.services[n].mon.exited then Err(ChannelClosed(n)) else Ok(()))
  }

  function Fresh(enabled: bool): Svc {
    Svc(NewRuntime(enabled), [], Monitor(None, false, 0, false, Top), Created(enabled))
  }

  /** A service the reload adds: a fresh record and, when enabled, a first start request. */
  function Added(svc: ServiceConfig): Svc {
    if svc.enabled then Enqueue(Fresh(true), Start(false)) else Fresh(false)
  }

  /** A service the reload keeps: follow the enabled flag, restart when the definition changed. */
  function Kept(s: Svc, was: ServiceConfig, svc: ServiceConfig, now: nat): Svc {
    var s1 := if was.enabled != svc.enabled then Follow(s, svc.enabled, now) else s;
    if !DefinitionEq(was, svc) && svc.enabled then Enqueue(s1, Restart) else s1
  }

  /** Bring one service of the new configuration up to date with its previous definition. */
  function ReloadOne(w: World, previous: seq<ServiceConfig>, svc: ServiceConfig): World {
    match Find(previous, svc.name)
    case None => w.Put(svc.name, Added(svc))
    case Some(was) =>
      if svc.name in w.services then w.Put(svc.name, Kept(w.services[svc.name], was, svc, w.now)) else w
  }

  function ReloadEach(w: World, previous: seq<ServiceConfig>, services: seq<ServiceConfig>): World
    decreases |services|
  {
    if services == [] then w
    else ReloadOne(ReloadEach(w, previous, services[..|services| - 1]), previous, services[|services| - 1])
  }

  function Reload(w: World, services: seq<ServiceConfig>): World {
    var w1 := w.(config := services, services := w.services - (NameSet(w.config) - NameSet(services)));
    ReloadEach(w1, w.config, services)
  }

  /** One monitor step of service `n`; every monitored service is in the configuration. */
  function TickService(w: World, n: string, env: TickEnv): World {
    var cfg := Find(w.config, n);
    if n !in w.services || cfg.None? then w
    else
      var c := Tick(Ctx(w.services[n], w.reg), cfg.value, w.States(), w.stopAll, env, w.now);
      w.Put(n, c.s).(reg := c.reg)
  }

  function SendAll(w: World, names: seq<string>, msg: CtlMsg): World
    decreases |names|
  {
    if names == [] then w else SendAll(w, names[..|names| - 1], msg).Send(names[|names| - 1], msg)
  }

  function StopAll(w: World, order: seq<string>): World {
    SendAll(SendAll(w.(stopAll := true), order, Stop), order, Quit)
  }

  // ----- runs -----

  datatype Action =
    | AStart(n: string, force: bool)
    | AStop(n: string)
    | ARestart(n: string)
    | ASetEnabled(n: string, enabled: bool, written: bool)
    | AReload(services: seq<ServiceConfig>)
    | ATick(n: string, env: TickEnv)
    | AReap(arrival: R.Arrival)
    | AElapse(secs: nat)
    | AShutdown(order: seq<string>)

  function Next(w: World, a: Action): World {
    match a
    case AStart(n, force) => StartService(w, n, force).0
    case AStop(n) => StopService(w, n).0
    case ARestart(n) => RestartService(w, n).0
    case ASetEnabled(n, enabled, written) => SetEnabled(w, n, enabled, written).0
    case AReload(services) => Reload(w, services)
    case ATick(n, env) => TickService(w, n, env)
    case AReap(arrival) => w.(reg := R.Publish(w.reg, arrival))
    case AElapse(secs) => w.(now := w.now + secs)
    case AShutdown(order) => StopAll(w, order)
  }

  function Run(w: World, actions: seq<Action>): World
    decreases |actions|
  {
    if actions == [] then w else Next(Run(w, actions[..|actions| - 1]), actions[|actions| - 1])
  }

  /** Before boot: one fresh record per service, no message sent. */
  function Initial(config: seq<ServiceConfig>, overrides: map<string, bool>): World {
    World(config, map n | n in NameSet(config) :: Fresh(Find(config, n).value.enabled),
          overrides, R.EMPTY_REGISTRY, false, 0)
  }

  /** Boot sends one unforced start to each name, in order. */
  function Boot(config: seq<ServiceConfig>, overrides: map<string, bool>, order: seq<string>): World {
    SendAll(Initial(config, overrides), order, Start(false))
  }
}
