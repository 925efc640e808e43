/** What the sorted order means: least among all, independent of input order, and its two uses. */
module BootOrder {
  import opened Basics
  import opened Service
  import opened Paths
  import opened StartOrder
  import opened TopoSort

  // ----- the order is the least one -----

  lemma {:induction false} FirstDifference(a: seq<string>, b: seq<string>) returns (k: nat)
    requires |a| == |b| && a != b
    ensures k < |a| && a[k] != b[k] && a[..k] == b[..k]
  {
    if a[0] != b[0] {
      k := 0;
    } else {
      assert a == [a[0]] + a[1..] && b == [b[0]] + b[1..];
      var j := FirstDifference(a[1..], b[1..]);
      k := j + 1;
      assert a[..k] == [a[0]] + a[1..][..j] && b[..k] == [b[0]] + b[1..][..j];
    }
  }

  lemma SameLength(services: seq<ServiceConfig>, a: seq<string>, b: seq<string>)
    requires IsTopological(services, a) && IsTopological(services, b)
    ensures |a| == |b|
  {
    SetOfSeq(a);
    SetOfSeq(b);
    assert forall i :: 0 <= i < |a| ==> a[i] in Names(services);
    assert forall i :: 0 <= i < |b| ==> b[i] in Names(services);
    DistinctFits(a, set x | x in b);
    DistinctFits(b, set x | x in a);
  }

  /** Greedy choices give the lexicographically least topological order by (priority, name). */
  lemma GreedyIsLeast(services: seq<ServiceConfig>, order: seq<string>, other: seq<string>)
    requires IsTopological(services, order) && IsGreedy(services, order)
    requires IsTopological(services, other)
    ensures LexLeq(services, order, other)
  {
    SameLength(services, order, other);
    if order != other {
      var k := FirstDifference(order, other);
      assert ReadyAfter(services, other[k], other[..k]);
      KeyLessIff(KeyOf(services, order[k]), KeyOf(services, other[k]));
    }
  }

  /** Two orders that are both least are equal. */
  lemma LeastIsUnique(services: seq<ServiceConfig>, a: seq<string>, b: seq<string>)
    requires IsTopological(services, a) && IsGreedy(services, a)
    requires IsTopological(services, b) && IsGreedy(services, b)
    ensures a == b
  {
    SameLength(services, a, b);
    if a != b {
      var k := FirstDifference(a, b);
      assert ReadyAfter(services, b[k], b[..k]) && ReadyAfter(services, a[k], a[..k]);
      KeyTotal(KeyOf(services, a[k]), KeyOf(services, b[k]));
    }
  }

  ghost predicate SameServices(a: seq<ServiceConfig>, b: seq<ServiceConfig>) {
    forall svc :: svc in a <==> svc in b
  }

  lemma SameNames(a: seq<ServiceConfig>, b: seq<ServiceConfig>, n: string)
    requires SameServices(a, b) && n in Names(a)
    ensures n in Names(b)
  {
    var i :| 0 <= i < |Names(a)| && Names(a)[i] == n;
    assert a[i] in b;
    var j :| 0 <= j < |b| && b[j] == a[i];
    assert Names(b)[j] == n;
  }

  lemma SamePrio(a: seq<ServiceConfig>, b: seq<ServiceConfig>, n: string)
    requires SameServices(a, b) && Distinct(Names(a)) && Distinct(Names(b)) && n in Names(a)
    ensures Prio(a, n) == Prio(b, n)
  {
    var i :| 0 <= i < |Names(a)| && Names(a)[i] == n;
    assert a[i] in b;
    var j :| 0 <= j < |b| && b[j] == a[i];
    PrioAt(a, i);
    PrioAt(b, j);
  }

  lemma SamePairs(a: seq<ServiceConfig>, b: seq<ServiceConfig>, e: Edge)
    requires SameServices(a, b)
    ensures e in Pairs(a) <==> e in Pairs(b)
  {
    PairsMeaning(a, e);
    PairsMeaning(b, e);
  }

  lemma SameReady(a: seq<ServiceConfig>, b: seq<ServiceConfig>, n: string, done: seq<string>)
    requires SameServices(a, b) && ReadyAfter(a, n, done)
    ensures ReadyAfter(b, n, done)
  {
    SameNames(a, b, n);
    forall d | (n, d) in Pairs(b)
      ensures d in done
    {
      SamePairs(a, b, (n, d));
    }
  }

  lemma TransferOrder(a: seq<ServiceConfig>, b: seq<ServiceConfig>, order: seq<string>)
    requires SameServices(a, b) && Distinct(Names(a)) && Distinct(Names(b))
    requires IsTopological(a, order) && IsGreedy(a, order)
    ensures IsTopological(b, order) && IsGreedy(b, order)
  {
    forall n
      ensures n in order <==> n in Names(b)
    {
      if n in Names(a) {
        SameNames(a, b, n);
      }
      if n in Names(b) {
        SameNames(b, a, n);
      }
    }
    forall k | 0 <= k < |order|
      ensures ReadyAfter(b, order[k], order[..k])
    {
      SameReady(a, b, order[k], order[..k]);
    }
    forall k, n | 0 <= k < |order| && ReadyAfter(b, n, order[..k])
      ensures n == order[k] || KeyLess(KeyOf(b, order[k]), KeyOf(b, n))
    {
      SameReady(b, a, n, order[..k]);
      assert order[k] in order;
      SamePrio(a, b, order[k]);
      SamePrio(a, b, n);
    }
  }

  /** The result depends only on which services there are, not on how they are listed. */
  lemma OrderIgnoresListing(a: seq<ServiceConfig>, b: seq<ServiceConfig>, orderA: seq<string>, orderB: seq<string>)
    requires SameServices(a, b) && Distinct(Names(a)) && Distinct(Names(b))
    requires IsTopological(a, orderA) && IsGreedy(a, orderA)
    requires IsTopological(b, orderB) && IsGreedy(b, orderB)
    ensures orderA == orderB
  {
    TransferOrder(b, a, orderB);
    LeastIsUnique(a, orderA, orderB);
  }

  // ----- boot partition -----

  /** An enabled service of the given kind. */
  predicate StartsAtBoot(services: seq<ServiceConfig>, n: string, background: bool) {
    var svc := Find(services, n);
    svc.Some? && svc.value.enabled && svc.value.background == background
  }

  /** The enabled services of one kind, in the given order. */
  function Select(services: seq<ServiceConfig>, order: seq<string>, background: bool): seq<string>
    decreases |order|
  {
    if order == [] then []
    else
      var k := |order| - 1;
      Select(services, order[..k], background)
      + if StartsAtBoot(services, order[k], background) then [order[k]] else []
  }

  /** Indices of `sub` in `s`, increasing. */
  ghost predicate Subsequence(sub: seq<string>, s: seq<string>)
    decreases |s|
  {
    || sub == []
    || (s != [] && sub[|sub| - 1] == s[|s| - 1] && Subsequence(sub[..|sub| - 1], s[..|s| - 1]))
    || (s != [] && Subsequence(sub, s[..|s| - 1]))
  }

  /** Selecting keeps the order and picks exactly the enabled services of that kind. */
  lemma {:induction false} SelectMeaning(services: seq<ServiceConfig>, order: seq<string>, background: bool)
    ensures Subsequence(Select(services, order, background), order)
    ensures forall n :: n in Select(services, order, background) <==>
              n in order && StartsAtBoot(services, n, background)
    decreases |order|
  {
    if order != [] {
      var k := |order| - 1;
      SelectMeaning(services, order[..k], background);
      assert order == order[..k] + [order[k]];
      var rest := Select(services, order[..k], background);
      var all := Select(services, order, background);
      if all != rest {
        assert all[..|all| - 1] == rest;
      }
    }
  }

  /** Walk the order and sort the enabled services into the two lists. */
  method Split(services: seq<ServiceConfig>, order: seq<string>) returns (foreground: seq<string>, background: seq<string>)
    ensures foreground == Select(services, order, false)
    ensures background == Select(services, order, true)
  {
    foreground, background := [], [];
    for i := 0 to |order|
      invariant foreground == Select(services, order[..i], false)
      invariant background == Select(services, order[..i], true)
    {
      var name := order[i];
      assert order[..i + 1][..i] == order[..i];
      var svc := Find(services, name);
      if svc.None? || !svc.value.enabled {
        continue;
      }
      if svc.value.background {
        background := background + [name];
      } else {
        foreground := foreground + [name];
      }
    }
    assert order[..|order|] == order;
  }

  /** `order` is the least topological order, and the two lists split its enabled services by kind. */
  ghost predicate IsPartition(services: seq<ServiceConfig>, order: seq<string>, foreground: seq<string>, background: seq<string>) {
    && IsTopological(services, order) && IsGreedy(services, order)
    && Subsequence(foreground, order) && Subsequence(background, order)
    && (forall n :: n in foreground <==> StartsAtBoot(services, n, false))
    && (forall n :: n in background <==> StartsAtBoot(services, n, true))
  }

  /** All background services first, then all foreground ones, each kind in sorted order. */
  ghost predicate IsBootSequence(services: seq<ServiceConfig>, order: seq<string>) {
    exists sorted, foreground, background ::
      IsPartition(services, sorted, foreground, background) && order == background + foreground
  }

  /** Foreground and background split exactly the enabled services, each in sorted order. */
  method PartitionBoot(services: seq<ServiceConfig>)
    returns (r: Result<(seq<string>, seq<string>), GraphError>, ghost order: seq<string>)
    ensures r.Ok? <==> Distinct(Names(services)) && DepsKnown(services) && Acyclic(DependencyEdges(services))
    ensures r.Ok? ==> IsPartition(services, order, r.value.0, r.value.1)
  {
    var sorted := TopologicalSort(services);
    if sorted.Err? {
      return Err(sorted.error), [];
    }
    order := sorted.value;
    var foreground, background := Split(services, sorted.value);
    SelectedAre(services, order, false);
    SelectedAre(services, order, true);
    r := Ok((foreground, background));
  }

  lemma SelectedAre(services: seq<ServiceConfig>, order: seq<string>, background: bool)
    requires IsTopological(services, order)
    ensures Subsequence(Select(services, order, background), order)
    ensures forall n :: n in Select(services, order, background) <==> StartsAtBoot(services, n, background)
  {
    SelectMeaning(services, order, background);
    forall n | StartsAtBoot(services, n, background)
      ensures n in order
    {
      assert n in Names(services);
    }
  }

  // ----- what boot sends, service by service -----

  lemma {:induction false} SubsequenceKeepsOrder(sub: seq<string>, s: seq<string>, i: nat, j: nat) returns (a: nat, b: nat)
    requires Subsequence(sub, s) && i < j < |sub|
    ensures a < b < |s| && s[a] == sub[i] && s[b] == sub[j]
    decreases |s|
  {
    var k, last := |s| - 1, |sub| - 1;
    if Subsequence(sub, s[..k]) {
      a, b := SubsequenceKeepsOrder(sub, s[..k], i, j);
    } else if j < last {
      a, b := SubsequenceKeepsOrder(sub[..last], s[..k], i, j);
    } else {
      a := SubsequenceIn(sub[..last], s[..k], i);
      b := k;
    }
  }

  lemma {:induction false} SubsequenceIn(sub: seq<string>, s: seq<string>, i: nat) returns (a: nat)
    requires Subsequence(sub, s) && i < |sub|
    ensures a < |s| && s[a] == sub[i]
    decreases |s|
  {
    var k, last := |s| - 1, |sub| - 1;
    if Subsequence(sub, s[..k]) {
      a := SubsequenceIn(sub, s[..k], i);
    } else if i < last {
      a := SubsequenceIn(sub[..last], s[..k], i);
    } else {
      a := k;
    }
  }

  lemma SubsequenceDistinct(sub: seq<string>, s: seq<string>)
    requires Subsequence(sub, s) && Distinct(s)
    ensures Distinct(sub)
  {
    forall i, j | 0 <= i < j < |sub|
      ensures sub[i] != sub[j]
    {
      var a, b := SubsequenceKeepsOrder(sub, s, i, j);
    }
  }

  lemma PartitionDistinct(services: seq<ServiceConfig>, sorted: seq<string>, foreground: seq<string>, background: seq<string>)
    requires IsPartition(services, sorted, foreground, background)
    ensures Distinct(background + foreground)
  {
    SubsequenceDistinct(foreground, sorted);
    SubsequenceDistinct(background, sorted);
    assert forall k :: 0 <= k < |background| ==> background[k] in background;
    assert forall k :: 0 <= k < |foreground| ==> foreground[k] in foreground;
  }

  /** Where a service of either kind stands. */
  lemma InBlock(services: seq<ServiceConfig>, sorted: seq<string>, foreground: seq<string>, background: seq<string>, i: nat, a: nat)
    requires IsPartition(services, sorted, foreground, background) && Distinct(Names(services))
    requires i < |services| && a < |background + foreground| && (background + foreground)[a] == services[i].name
    ensures services[i].enabled && (services[i].background <==> a < |background|)
  {
    FindAt(services, i);
    if a < |background| {
      assert background[a] in background;
    } else {
      assert foreground[a - |background|] in foreground;
    }
  }

  /** Boot starts exactly the enabled services, each once, and every background service before every foreground one. */
  lemma BootSequenceMeaning(services: seq<ServiceConfig>, order: seq<string>, i: nat)
    requires IsBootSequence(services, order) && Distinct(Names(services)) && i < |services|
    ensures Distinct(order)
    ensures services[i].name in order <==> services[i].enabled
    ensures services[i].background ==>
              forall j, a, b :: 0 <= j < |services| && 0 <= a < b < |order| && order[a] == services[j].name
                                && order[b] == services[i].name ==>
                                  services[j].background
  {
    var sorted, foreground, background :|
      IsPartition(services, sorted, foreground, background) && order == background + foreground;
    PartitionDistinct(services, sorted, foreground, background);
    FindAt(services, i);
    forall j, a, b | 0 <= j < |services| && 0 <= a < b < |order| && order[a] == services[j].name
                     && order[b] == services[i].name && services[i].background
      ensures services[j].background
    {
      InBlock(services, sorted, foreground, background, i, b);
      InBlock(services, sorted, foreground, background, j, a);
    }
  }

  /** In a part of a topological order, dependencies come first. */
  lemma DependenciesFirstIn(services: seq<ServiceConfig>, sorted: seq<string>, part: seq<string>, a: nat, b: nat)
    requires IsTopological(services, sorted) && Subsequence(part, sorted)
    requires a < |part| && b < |part| && (part[a], part[b]) in Pairs(services)
    ensures b < a
  {
    var x := SubsequenceIn(part, sorted, a);
    assert ReadyAfter(services, sorted[x], sorted[..x]);
    var z :| 0 <= z < x && sorted[z] == part[b];
    if a < b {
      var u, v := SubsequenceKeepsOrder(part, sorted, a, b);
    }
  }

  /** Within a kind, a service is started after the services of that kind it depends on. */
  lemma BootAfterDependencies(services: seq<ServiceConfig>, order: seq<string>, i: nat, j: nat, a: nat, b: nat)
    requires IsBootSequence(services, order) && Distinct(Names(services)) && i < |services| && j < |services|
    requires services[j].name in services[i].dependsOn && services[i].background == services[j].background
    requires a < |order| && b < |order| && order[a] == services[i].name && order[b] == services[j].name
    ensures b < a
  {
    var sorted, foreground, background :|
      IsPartition(services, sorted, foreground, background) && order == background + foreground;
    InBlock(services, sorted, foreground, background, i, a);
    InBlock(services, sorted, foreground, background, j, b);
    assert services[i] in services;
    PairsMeaning(services, (services[i].name, services[j].name));
    if services[i].background {
      DependenciesFirstIn(services, sorted, background, a, b);
    } else {
      DependenciesFirstIn(services, sorted, foreground, a - |background|, b - |background|);
    }
  }

  // ----- shutdown order -----

  function Reversed(s: seq<string>): (r: seq<string>)
    ensures |r| == |s|
    ensures forall i :: 0 <= i < |s| ==> r[i] == s[|s| - 1 - i]
  {
    if s == [] then [] else Reversed(s[1..]) + [s[0]]
  }

  /** Every service once, and every dependent before what it depends on. */
  ghost predicate IsShutdownOrder(services: seq<ServiceConfig>, order: seq<string>) {
    && Distinct(order)
    && (forall n :: n in order <==> n in Names(services))
    && (forall i, j :: 0 <= i < |order| && 0 <= j < |order| && (order[i], order[j]) in Pairs(services) ==> i < j)
  }

  lemma ReversedIsShutdown(services: seq<ServiceConfig>, order: seq<string>)
    requires IsTopological(services, order)
    ensures IsShutdownOrder(services, Reversed(order))
  {
    var r := Reversed(order);
    forall n
      ensures n in r <==> n in order
    {
      if n in order {
        var k :| 0 <= k < |order| && order[k] == n;
        assert r[|order| - 1 - k] == n;
      }
    }
    forall i, j | 0 <= i < |r| && 0 <= j < |r| && (r[i], r[j]) in Pairs(services)
      ensures i < j
    {
    }
  }

  method ShutdownOrder(services: seq<ServiceConfig>) returns (r: Result<seq<string>, GraphError>)
    ensures r.Ok? <==> Distinct(Names(services)) && DepsKnown(services) && Acyclic(DependencyEdges(services))
    ensures r.Ok? ==> IsShutdownOrder(services, r.value)
    ensures r.Ok? ==> exists order :: IsTopological(services, order) && IsGreedy(services, order) && r.value == Reversed(order)
  {
    var sorted := TopologicalSort(services);
    if sorted.Err? {
      return Err(sorted.error);
    }
    ReversedIsShutdown(services, sorted.value);
    r := Ok(Reversed(sorted.value));
  }
}
