/** Service definitions, states and lifecycle events as the supervisor sees them. */
module Service {
  import opened Basics

  datatype ServiceState =
    | Pending | Starting | Running | Succeeded | Failed
    | Stopping | Stopped | Restarting | Disabled | WaitingForDependency
  {
    /** A dependency in this state lets its dependents start. */
    predicate Ready() {
      Running? || Succeeded?
    }

    /** `set_state` without a pid keeps the reported pid only in these states. */
    predicate KeepsPid() {
      Running? || Starting? || Restarting? || WaitingForDependency?
    }
  }

  datatype RestartPolicy = Always | OnError | Never {
    predicate ShouldRestart(success: bool) {
      match this
      case Always => true
      case OnError => !success
      case Never => false
    }
  }

  datatype Probe = Probe(target: string, interval: nat, timeout: nat, failureThreshold: u32) {
    function Threshold(): nat {
      Max(failureThreshold, 1)
    }
  }

  /** Fields that only matter to process execution and to definition comparison. */
  datatype Execution = Execution(
    restartBackoff: nat,
    shutdownWaitSecs: nat,
    env: map<string, string>,
    cwd: string,
    securityContext: Option<string>)

  datatype ServiceConfig = ServiceConfig(
    name: string,
    enabled: bool,
    daemon: bool,
    restartPolicy: RestartPolicy,
    successExitCodes: seq<int>,
    startWaitSecs: nat,
    background: bool,
    orderPriority: nat,
    dependsOn: seq<string>,
    cmd: Option<string>,
    startCmd: Option<string>,
    stopCmd: Option<string>,
    restartCmd: Option<string>,
    livenessProbe: Option<Probe>,
    labels: map<string, string>,
    execution: Execution,
    resolvedSecurity: Option<string>)
  {
    predicate IsSuccess(code: int) {
      code in successExitCodes
    }

    function ResolveStart(): Option<string> {
      if startCmd.Some? then startCmd else WithVerb(cmd, " start")
    }

    function ResolveStop(): Option<string> {
      if stopCmd.Some? then stopCmd else WithVerb(cmd, " stop")
    }

    /** Without a command of its own, a restart is a stop and then a start. */
    function ResolveRestart(): Option<string> {
      if restartCmd.Some? then restartCmd
      else if cmd.Some? then WithVerb(cmd, " restart")
      else if ResolveStop().None? || ResolveStart().None? then None
      else Some(ResolveStop().value + " && " + ResolveStart().value)
    }

    predicate CanStart() {
      ResolveStart().Some?
    }

    predicate CanStop() {
      ResolveStop().Some?
    }

    predicate CanRestart() {
      ResolveRestart().Some?
    }
  }

  function WithVerb(cmd: Option<string>, verb: string): Option<string> {
    if cmd.Some? then Some(cmd.value + verb) else None
  }

  /** Definition equality on reload: the enabled flag and the cached identity are ignored. */
  predicate DefinitionEq(a: ServiceConfig, b: ServiceConfig) {
    a.(enabled := true, resolvedSecurity := None) == b.(enabled := true, resolvedSecurity := None)
  }

  function Names(services: seq<ServiceConfig>): (r: seq<string>)
    ensures |r| == |services|
    ensures forall i :: 0 <= i < |r| ==> r[i] == services[i].name
  {
    seq(|services|, i requires 0 <= i < |services| => services[i].name)
  }

  function NameSet(services: seq<ServiceConfig>): set<string> {
    set n | n in Names(services)
  }

  /** First service carrying a name, as `Config::get` finds it. */
  function Find(services: seq<ServiceConfig>, name: string): (r: Option<ServiceConfig>)
    ensures r.Some? <==> name in Names(services)
    ensures r.Some? ==> r.value in services && r.value.name == name
  {
    if services == [] then None
    else if services[0].name == name then Some(services[0])
    else
      assert services == [services[0]] + services[1..];
      assert forall i :: 0 < i < |services| ==> Names(services)[i] == Names(services[1..])[i - 1];
      Find(services[1..], name)
  }

  /** With distinct names, `Find` returns the service at that position. */
  lemma {:induction false} FindAt(services: seq<ServiceConfig>, i: nat)
    requires i < |services| && Distinct(Names(services))
    ensures Find(services, services[i].name) == Some(services[i])
  {
    assert Names(services)[i] == services[i].name;
    if i > 0 {
      assert Names(services)[0] != Names(services)[i];
      assert Names(services[1..]) == Names(services)[1..];
      FindAt(services[1..], i - 1);
    }
  }

  datatype EventKind = StateChange | Restarted | LivenessFailed

  datatype RuntimeEvent = RuntimeEvent(
    ts: nat,
    kind: EventKind,
    from: Option<ServiceState>,
    to: Option<ServiceState>,
    detail: Option<string>)
}
