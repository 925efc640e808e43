/**
 The bounded registry of child exits that the central reaper fills and the monitors drain.
 A trace records every publication, loss and take, so that conservation can be stated.
 */
module Reaper {
  import opened Basics

  const MAX_EXIT_REGISTRY_ENTRIES: nat := 4096

  /** Everything that ever happened to the registry, newest last. */
  datatype Trace =
    | Empty
    | Published(prev: Trace, pid: int, code: int)
    | Dropped(prev: Trace, pid: int)
    | Taken(prev: Trace, pid: int, code: int)

  datatype Registry = Registry(exits: map<int, int>, trace: Trace)

  /** An exit the reaper publishes; `hint` stands for the hash map's iteration order. */
  datatype Arrival = Arrival(pid: int, code: int, hint: int)

  const EMPTY_REGISTRY := Registry(map[], Empty)

  lemma {:induction false} LeastKeyExists(keys: set<int>)
    requires keys != {}
    ensures exists m :: m in keys && forall k :: k in keys ==> m <= k
    decreases keys
  {
    var k := Pick(keys);
    if keys != {k} {
      var rest := keys - {k};
      LeastKeyExists(rest);
      var m :| m in rest && forall k' :: k' in rest ==> m <= k';
      var least := if k <= m then k else m;
      assert forall k' :: k' in keys ==> k' == k || k' in rest;
      assert least in keys;
    }
  }

  /** The key that is dropped when the registry is full: any key can be chosen through `hint`. */
  function Victim(keys: set<int>, hint: int): (v: int)
    requires keys != {}
    ensures v in keys
    ensures hint in keys ==> v == hint
  {
    if hint in keys then hint
    else
      LeastKeyExists(keys);
      var m :| m in keys && forall k :: k in keys ==> m <= k;
      m
  }

  function Publish(r: Registry, a: Arrival): Registry {
    if a.pid in r.exits then
      Registry(r.exits[a.pid := a.code], Published(Dropped(r.trace, a.pid), a.pid, a.code))
    else if |r.exits| >= MAX_EXIT_REGISTRY_ENTRIES then
      var v := Victim(r.exits.Keys, a.hint);
      Registry((r.exits - {v})[a.pid := a.code], Published(Dropped(r.trace, v), a.pid, a.code))
    else
      Registry(r.exits[a.pid := a.code], Published(r.trace, a.pid, a.code))
  }

  function PublishAll(r: Registry, arrivals: seq<Arrival>): Registry
    decreases |arrivals|
  {
    if arrivals == [] then r else Publish(PublishAll(r, arrivals[..|arrivals| - 1]), arrivals[|arrivals| - 1])
  }

  function Take(r: Registry, pid: int): (Registry, Option<int>) {
    if pid in r.exits then
      (Registry(r.exits - {pid}, Taken(r.trace, pid, r.exits[pid])), Some(r.exits[pid]))
    else
      (r, None)
  }

  /** Blocking take: exits keep arriving until `pid` shows up or the wait gives up. */
  function WaitTake(r: Registry, pid: int, arrivals: seq<Arrival>): (Registry, Option<int>) {
    Take(PublishAll(r, arrivals), pid)
  }

  // ----- what the trace says, without looking at the map -----

  /** The published and not yet consumed exit code of `pid`. */
  function Outstanding(t: Trace, pid: int): Option<int> {
    match t
    case Empty => None
    case Published(prev, p, c) => if p == pid then Some(c) else Outstanding(prev, pid)
    case Dropped(prev, p) => if p == pid then None else Outstanding(prev, pid)
    case Taken(prev, p, _) => if p == pid then None else Outstanding(prev, pid)
  }

  function Publications(t: Trace, pid: int): nat {
    match t
    case Empty => 0
    case Published(prev, p, _) => Publications(prev, pid) + if p == pid then 1 else 0
    case Dropped(prev, _) => Publications(prev, pid)
    case Taken(prev, _, _) => Publications(prev, pid)
  }

  function Losses(t: Trace, pid: int): nat {
    match t
    case Empty => 0
    case Published(prev, _, _) => Losses(prev, pid)
    case Dropped(prev, p) => Losses(prev, pid) + if p == pid then 1 else 0
    case Taken(prev, _, _) => Losses(prev, pid)
  }

  function Takes(t: Trace, pid: int): nat {
    match t
    case Empty => 0
    case Published(prev, _, _) => Takes(prev, pid)
    case Dropped(prev, _) => Takes(prev, pid)
    case Taken(prev, p, _) => Takes(prev, pid) + if p == pid then 1 else 0
  }

  /** Every entry of the trace was possible when it happened: a take or a loss consumes
      exactly one outstanding exit, and nothing is published over an outstanding one. */
  predicate Orderly(t: Trace) {
    match t
    case Empty => true
    case Published(prev, p, _) => Orderly(prev) && Outstanding(prev, p).None?
    case Dropped(prev, p) => Orderly(prev) && Outstanding(prev, p).Some?
    case Taken(prev, p, c) => Orderly(prev) && Outstanding(prev, p) == Some(c)
  }

  /** The registry holds exactly the outstanding exits, and never more than its bound. */
  ghost predicate Valid(r: Registry) {
    && |r.exits| <= MAX_EXIT_REGISTRY_ENTRIES
    && Orderly(r.trace)
    && forall pid :: Outstanding(r.trace, pid) == if pid in r.exits then Some(r.exits[pid]) else None
  }

  /** Dropping an entry to make room keeps the map and the trace in step. */
  lemma DropKeepsValid(r: Registry, pid: int)
    requires Valid(r) && pid in r.exits
    ensures Valid(Registry(r.exits - {pid}, Dropped(r.trace, pid)))
    ensures |r.exits - {pid}| < |r.exits|
  {
    assert (r.exits - {pid}).Keys == r.exits.Keys - {pid};
    assert |(r.exits - {pid}).Keys| == |r.exits.Keys| - 1;
  }

  lemma AddKeepsValid(r: Registry, pid: int, code: int)
    requires Valid(r) && pid !in r.exits && |r.exits| < MAX_EXIT_REGISTRY_ENTRIES
    ensures Valid(Registry(r.exits[pid := code], Published(r.trace, pid, code)))
  {
    assert r.exits[pid := code].Keys == r.exits.Keys + {pid};
    assert |r.exits[pid := code].Keys| == |r.exits.Keys| + 1;
  }

  lemma PublishKeepsValid(r: Registry, a: Arrival)
    requires Valid(r)
    ensures Valid(Publish(r, a))
    ensures Outstanding(Publish(r, a).trace, a.pid) == Some(a.code)
  {
    if a.pid !in r.exits && |r.exits| < MAX_EXIT_REGISTRY_ENTRIES {
      AddKeepsValid(r, a.pid, a.code);
    } else {
      var v := if a.pid in r.exits then a.pid else Victim(r.exits.Keys, a.hint);
      DropKeepsValid(r, v);
      AddKeepsValid(Registry(r.exits - {v}, Dropped(r.trace, v)), a.pid, a.code);
      assert (r.exits - {a.pid})[a.pid := a.code] == r.exits[a.pid := a.code];
    }
  }

  /** Publishing loses an exit only when its pid is already held, or when the registry is full: then any one of the
      held exits, as `hint` chooses. */
  lemma PublishLosesIff(r: Registry, a: Arrival, pid: int)
    requires Valid(r)
    ensures var lost := Losses(Publish(r, a).trace, pid) - Losses(r.trace, pid);
            && Publications(Publish(r, a).trace, pid) == Publications(r.trace, pid) + (if a.pid == pid then 1 else 0)
            && Takes(Publish(r, a).trace, pid) == Takes(r.trace, pid)
            && 0 <= lost <= 1 && (lost == 1 ==> pid in r.exits)
            && (a.pid in r.exits ==> (lost == 1 <==> pid == a.pid))
            && (a.pid !in r.exits && |r.exits| < 4096 ==> lost == 0)
            && (a.pid !in r.exits && |r.exits| == 4096 && a.hint in r.exits ==> (lost == 1 <==> pid == a.hint))
  {
  }

  lemma PublishCounts(r: Registry, a: Arrival, pid: int)
    ensures Publications(Publish(r, a).trace, pid) == Publications(r.trace, pid) + if a.pid == pid then 1 else 0
    ensures Takes(Publish(r, a).trace, pid) == Takes(r.trace, pid)
    ensures a.pid in Publish(r, a).exits
  {
  }

  /** Exits of `pid` among the arrivals. */
  function Arriving(arrivals: seq<Arrival>, pid: int): nat
    decreases |arrivals|
  {
    if arrivals == [] then 0
    else Arriving(arrivals[..|arrivals| - 1], pid) + if arrivals[|arrivals| - 1].pid == pid then 1 else 0
  }

  /** Every exit that arrives during a wait is published; the one waited for is taken if it is there. */
  lemma {:induction false} WaitAccounts(r: Registry, p: int, arrivals: seq<Arrival>, pid: int)
    ensures var (r', code) := WaitTake(r, p, arrivals);
            && Publications(r'.trace, pid) == Publications(r.trace, pid) + Arriving(arrivals, pid)
            && Takes(r'.trace, pid) == Takes(r.trace, pid) + if pid == p && code.Some? then 1 else 0
  {
    PublishAllAccounts(r, arrivals, pid);
  }

  lemma {:induction false} PublishAllAccounts(r: Registry, arrivals: seq<Arrival>, pid: int)
    ensures Publications(PublishAll(r, arrivals).trace, pid) == Publications(r.trace, pid) + Arriving(arrivals, pid)
    ensures Takes(PublishAll(r, arrivals).trace, pid) == Takes(r.trace, pid)
    decreases |arrivals|
  {
    if arrivals != [] {
      PublishAllAccounts(r, arrivals[..|arrivals| - 1], pid);
    }
  }

  lemma {:induction false} PublishAllKeepsValid(r: Registry, arrivals: seq<Arrival>)
    requires Valid(r)
    ensures Valid(PublishAll(r, arrivals))
    decreases |arrivals|
  {
    if arrivals != [] {
      PublishAllKeepsValid(r, arrivals[..|arrivals| - 1]);
      PublishKeepsValid(PublishAll(r, arrivals[..|arrivals| - 1]), arrivals[|arrivals| - 1]);
    }
  }

  /** A take hands out the latest published code of that pid, and only once. */
  lemma TakeKeepsValid(r: Registry, pid: int)
    requires Valid(r)
    ensures Valid(Take(r, pid).0)
    ensures Take(r, pid).1 == Outstanding(r.trace, pid)
    ensures Take(Take(r, pid).0, pid).1 == None
  {
    assert (r.exits - {pid}).Keys == r.exits.Keys - {pid};
    assert |(r.exits - {pid}).Keys| <= |r.exits.Keys|;
  }

  lemma WaitTakeKeepsValid(r: Registry, pid: int, arrivals: seq<Arrival>)
    requires Valid(r)
    ensures Valid(WaitTake(r, pid, arrivals).0)
  {
    PublishAllKeepsValid(r, arrivals);
    TakeKeepsValid(PublishAll(r, arrivals), pid);
  }

  /** Conservation: a published exit is taken once, lost once, or still held. */
  lemma {:induction false} ExitsAreConserved(t: Trace, pid: int)
    requires Orderly(t)
    ensures Publications(t, pid) == Takes(t, pid) + Losses(t, pid) + if Outstanding(t, pid).Some? then 1 else 0
  {
    if !t.Empty? {
      ExitsAreConserved(t.prev, pid);
    }
  }

  /** The registry object shared by the reaper thread and all monitors. */
  class ExitRegistry {
    var exits: map<int, int>
    ghost var trace: Trace

    ghost function Snapshot(): Registry
      reads this
    {
      Registry(exits, trace)
    }

    constructor ()
      ensures Snapshot() == EMPTY_REGISTRY
    {
      exits, trace := map[], Empty;
    }

    method Record(a: Arrival)
      modifies this
      ensures Snapshot() == Publish(old(Snapshot()), a)
    {
      if |exits| >= MAX_EXIT_REGISTRY_ENTRIES && a.pid !in exits {
        var victim := Victim(exits.Keys, a.hint);
        exits := exits - {victim};
        trace := Dropped(trace, victim);
      } else if a.pid in exits {
        trace := Dropped(trace, a.pid);
      }
      exits := exits[a.pid := a.code];
      trace := Published(trace, a.pid, a.code);
    }

    method TakeExit(pid: int) returns (code: Option<int>)
      modifies this
      ensures (Snapshot(), code) == Take(old(Snapshot()), pid)
    {
      if pid in exits {
        code := Some(exits[pid]);
        trace := Taken(trace, pid, exits[pid]);
        exits := exits - {pid};
      } else {
        code := None;
      }
    }

    method WaitTakeExit(pid: int, arrivals: seq<Arrival>) returns (code: Option<int>)
      modifies this
      ensures (Snapshot(), code) == WaitTake(old(Snapshot()), pid, arrivals)
    {
      for i := 0 to |arrivals|
        invariant Snapshot() == PublishAll(old(Snapshot()), arrivals[..i])
      {
        Record(arrivals[i]);
        assert arrivals[..i + 1][..i] == arrivals[..i];
      }
      assert arrivals[..|arrivals|] == arrivals;
      code := TakeExit(pid);
    }
  }
}
