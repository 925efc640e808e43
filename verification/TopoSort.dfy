/** Priority topological sort of services (Kahn's algorithm), boot partition and shutdown order. */
module TopoSort {
  import opened Basics
  import opened Service
  import opened Paths
  import opened StartOrder

  datatype GraphError = UnknownDependency(service: string, dep: string) | Cycle(service: string)

  // ----- the graph, as the list of (service, dependency) entries in the order they are read -----

  function PairsOf(svc: ServiceConfig, k: nat): seq<Edge>
    requires k <= |svc.dependsOn|
  {
    if k == 0 then [] else PairsOf(svc, k - 1) + [(svc.name, svc.dependsOn[k - 1])]
  }

  function Pairs(services: seq<ServiceConfig>): seq<Edge>
    decreases |services|
  {
    if services == [] then []
    else
      var last := services[|services| - 1];
      Pairs(services[..|services| - 1]) + PairsOf(last, |last.dependsOn|)
  }

  function EdgeSet(pairs: seq<Edge>): set<Edge> {
    set e | e in pairs
  }

  /** `(a, b)` is an edge when `a` depends on `b`. */
  function DependencyEdges(services: seq<ServiceConfig>): set<Edge> {
    EdgeSet(Pairs(services))
  }

  predicate DepsKnown(services: seq<ServiceConfig>) {
    forall e :: e in Pairs(services) ==> e.1 in Names(services)
  }

  lemma {:induction false} PairsOfMeaning(svc: ServiceConfig, k: nat, e: Edge)
    requires k <= |svc.dependsOn|
    ensures e in PairsOf(svc, k) <==> e.0 == svc.name && e.1 in svc.dependsOn[..k]
  {
    if k > 0 {
      PairsOfMeaning(svc, k - 1, e);
      assert svc.dependsOn[..k] == svc.dependsOn[..k - 1] + [svc.dependsOn[k - 1]];
    }
  }

  /** The entries are exactly the declared dependencies. */
  lemma {:induction false} PairsMeaning(services: seq<ServiceConfig>, e: Edge)
    ensures e in Pairs(services) <==> exists svc :: svc in services && svc.name == e.0 && e.1 in svc.dependsOn
    decreases |services|
  {
    if services != [] {
      var k := |services| - 1;
      PairsMeaning(services[..k], e);
      PairsOfMeaning(services[k], |services[k].dependsOn|, e);
      assert services[k].dependsOn[..|services[k].dependsOn|] == services[k].dependsOn;
      assert services == services[..k] + [services[k]];
    }
  }

  /** Entries of `c` whose dependency is not among `done`. */
  function Open(pairs: seq<Edge>, c: string, done: seq<string>): nat
    decreases |pairs|
  {
    if pairs == [] then 0
    else
      var e := pairs[|pairs| - 1];
      Open(pairs[..|pairs| - 1], c, done) + if e.0 == c && e.1 !in done then 1 else 0
  }

  /** Entries "`c` depends on `d`". */
  function Multiplicity(pairs: seq<Edge>, c: string, d: string): nat
    decreases |pairs|
  {
    if pairs == [] then 0
    else
      var e := pairs[|pairs| - 1];
      Multiplicity(pairs[..|pairs| - 1], c, d) + if e == (c, d) then 1 else 0
  }

  function Count(s: seq<string>, x: string): nat
    decreases |s|
  {
    if s == [] then 0 else Count(s[..|s| - 1], x) + if s[|s| - 1] == x then 1 else 0
  }

  lemma {:induction false} OpenIsZeroIff(pairs: seq<Edge>, c: string, done: seq<string>)
    ensures Open(pairs, c, done) == 0 <==> forall d :: (c, d) in pairs ==> d in done
    decreases |pairs|
  {
    if pairs != [] {
      var k := |pairs| - 1;
      OpenIsZeroIff(pairs[..k], c, done);
      assert pairs == pairs[..k] + [pairs[k]];
      assert (c, pairs[k].1) in pairs ==> pairs[k].0 == c || (c, pairs[k].1) in pairs[..k];
      assert forall d :: (c, d) in pairs <==> (c, d) in pairs[..k] || (c, d) == pairs[k];
    }
  }

  /** Finishing `n` closes exactly the entries that name it. */
  lemma {:induction false} OpenStep(pairs: seq<Edge>, c: string, done: seq<string>, n: string)
    requires n !in done
    ensures Open(pairs, c, done) == Open(pairs, c, done + [n]) + Multiplicity(pairs, c, n)
    decreases |pairs|
  {
    if pairs != [] {
      OpenStep(pairs[..|pairs| - 1], c, done, n);
    }
  }

  lemma {:induction false} CountFront(s: seq<string>, i: nat, x: string)
    requires i < |s|
    ensures Count(s[i..], x) == Count(s[i + 1..], x) + if s[i] == x then 1 else 0
    decreases |s|
  {
    var k := |s| - 1;
    assert s[i..][..|s[i..]| - 1] == s[i..k];
    if i < k {
      CountFront(s[..k], i, x);
      assert s[..k][i..] == s[i..k] && s[..k][i + 1..] == s[i + 1..k];
      assert s[i + 1..][..|s[i + 1..]| - 1] == s[i + 1..k];
    } else {
      assert s[i..k] == [] && s[i + 1..] == [];
    }
  }

  lemma {:induction false} CountPositive(s: seq<string>, x: string)
    ensures Count(s, x) > 0 <==> x in s
    decreases |s|
  {
    if s != [] {
      CountPositive(s[..|s| - 1], x);
      assert s == s[..|s| - 1] + [s[|s| - 1]];
    }
  }

  // ----- what a correct order is -----

  /** Priority of a name; the last definition wins, as in the map built from the list. */
  function Prio(services: seq<ServiceConfig>, n: string): nat
    decreases |services|
  {
    if services == [] then 100
    else
      var k := |services| - 1;
      if services[k].name == n then services[k].orderPriority else Prio(services[..k], n)
  }

  function KeyOf(services: seq<ServiceConfig>, n: string): Key {
    (Prio(services, n), n)
  }

  /** `n` can go next after `done`. */
  ghost predicate ReadyAfter(services: seq<ServiceConfig>, n: string, done: seq<string>) {
    n in Names(services) && n !in done && forall d :: (n, d) in Pairs(services) ==> d in done
  }

  /** A permutation of the services in which dependencies come first. */
  ghost predicate IsTopological(services: seq<ServiceConfig>, order: seq<string>) {
    && Distinct(order)
    && (forall n :: n in order <==> n in Names(services))
    && (forall k :: 0 <= k < |order| ==> ReadyAfter(services, order[k], order[..k]))
  }

  /** At every position stands the least service that could go there. */
  ghost predicate IsGreedy(services: seq<ServiceConfig>, order: seq<string>) {
    forall k, n :: 0 <= k < |order| && ReadyAfter(services, n, order[..k]) ==>
      n == order[k] || KeyLess(KeyOf(services, order[k]), KeyOf(services, n))
  }

  /** Equal, or smaller at the first difference. */
  ghost predicate LexLeq(services: seq<ServiceConfig>, a: seq<string>, b: seq<string>) {
    || a == b
    || exists k :: && 0 <= k < |a| && k < |b| && a[..k] == b[..k]
                   && (Prio(services, a[k]) < Prio(services, b[k])
                       || (Prio(services, a[k]) == Prio(services, b[k]) && NotAfter(a[k], b[k])))
  }

  /** `n` is configured, not done, and depends only on what is done. */
  ghost predicate MayStart(services: seq<ServiceConfig>, n: string, done: seq<string>) {
    var svc := Find(services, n);
    svc.Some? && n !in done && forall d :: d in svc.value.dependsOn ==> d in done
  }

  /** A lower `orderPriority`, or the same and not the later name. */
  ghost predicate Earlier(services: seq<ServiceConfig>, a: string, b: string) {
    var x, y := Find(services, a), Find(services, b);
    && x.Some? && y.Some?
    && (x.value.orderPriority < y.value.orderPriority
        || (x.value.orderPriority == y.value.orderPriority && NotAfter(a, b)))
  }

  /** Each service may start where it stands, and nothing that may start there should come earlier. */
  ghost predicate ByPriority(services: seq<ServiceConfig>, order: seq<string>) {
    && (forall k :: 0 <= k < |order| ==> MayStart(services, order[k], order[..k]))
    && (forall k, n :: 0 <= k < |order| && MayStart(services, n, order[..k]) ==> Earlier(services, order[k], n))
  }

  lemma {:induction false} PrioAt(services: seq<ServiceConfig>, i: nat)
    requires i < |services| && Distinct(Names(services))
    ensures Prio(services, services[i].name) == services[i].orderPriority
    decreases |services|
  {
    var k := |services| - 1;
    if i < k {
      assert Names(services)[i] != Names(services)[k];
      assert Names(services[..k]) == Names(services)[..k];
      PrioAt(services[..k], i);
    }
  }

  lemma NamedOnce(services: seq<ServiceConfig>, i: nat, svc: ServiceConfig)
    requires Distinct(Names(services)) && i < |services| && svc in services && svc.name == services[i].name
    ensures svc == services[i]
  {
    var j :| 0 <= j < |services| && services[j] == svc;
    assert Names(services)[j] == Names(services)[i];
  }

  lemma PairsOfNamed(services: seq<ServiceConfig>, i: nat, d: string)
    requires Distinct(Names(services)) && i < |services|
    ensures (services[i].name, d) in Pairs(services) <==> d in services[i].dependsOn
  {
    var e: Edge := (services[i].name, d);
    PairsMeaning(services, e);
    assert services[i] in services;
    if svc :| svc in services && svc.name == e.0 && e.1 in svc.dependsOn {
      NamedOnce(services, i, svc);
    }
  }

  /** With distinct names, the graph and the priorities are what the definitions say. */
  lemma DefinitionSays(services: seq<ServiceConfig>, n: string, done: seq<string>)
    requires Distinct(Names(services)) && n in Names(services)
    ensures MayStart(services, n, done) <==> ReadyAfter(services, n, done)
    ensures Prio(services, n) == Find(services, n).value.orderPriority
  {
    var i :| 0 <= i < |Names(services)| && Names(services)[i] == n;
    FindAt(services, i);
    PrioAt(services, i);
    forall d
      ensures (n, d) in Pairs(services) <==> d in services[i].dependsOn
    {
      PairsOfNamed(services, i, d);
    }
  }

  lemma GreedyIsByPriority(services: seq<ServiceConfig>, order: seq<string>)
    requires Distinct(Names(services)) && IsTopological(services, order) && IsGreedy(services, order)
    ensures ByPriority(services, order)
  {
    forall k | 0 <= k < |order|
      ensures MayStart(services, order[k], order[..k])
    {
      assert order[k] in order;
      DefinitionSays(services, order[k], order[..k]);
    }
    forall k, n | 0 <= k < |order| && MayStart(services, n, order[..k])
      ensures Earlier(services, order[k], n)
    {
      assert order[k] in order;
      DefinitionSays(services, order[k], order[..k]);
      DefinitionSays(services, n, order[..k]);
      KeyLessIff(KeyOf(services, order[k]), KeyOf(services, n));
    }
  }

  // ----- building indegrees and adjacency -----

  ghost predicate DegreeIs(pairs: seq<Edge>, indegree: map<string, nat>, c: string) {
    c in indegree ==> indegree[c] == Open(pairs, c, [])
  }

  /** The list of `d` names `c` as often as `c` lists the dependency `d`. */
  ghost predicate ListIs(pairs: seq<Edge>, adj: map<string, seq<string>>, c: string, d: string) {
    c in adj && d in adj ==> Count(adj[d], c) == Multiplicity(pairs, c, d)
  }

  ghost predicate GraphOf(names: set<string>, pairs: seq<Edge>,
                          indegree: map<string, nat>, adj: map<string, seq<string>>)
  {
    && indegree.Keys == adj.Keys == names
    && (forall c :: DegreeIs(pairs, indegree, c))
    && (forall c, d :: ListIs(pairs, adj, c, d))
    && (forall d, c :: d in adj && c in adj[d] ==> c in indegree)
  }

  /** Reading one more dependency entry. */
  lemma AddEdge(names: set<string>, pairs: seq<Edge>, indegree: map<string, nat>,
                adj: map<string, seq<string>>, s: string, dep: string)
    requires GraphOf(names, pairs, indegree, adj) && s in indegree && dep in adj
    ensures GraphOf(names, pairs + [(s, dep)], indegree[s := indegree[s] + 1], adj[dep := adj[dep] + [s]])
  {
    var pairs' := pairs + [(s, dep)];
    assert pairs'[..|pairs|] == pairs;
    var indegree', adj' := indegree[s := indegree[s] + 1], adj[dep := adj[dep] + [s]];
    assert indegree'.Keys == indegree.Keys && adj'.Keys == adj.Keys;
    assert (adj[dep] + [s])[..|adj[dep]|] == adj[dep];
    forall c
      ensures DegreeIs(pairs', indegree', c)
    {
      assert DegreeIs(pairs, indegree, c);
    }
    forall c, d
      ensures ListIs(pairs', adj', c, d)
    {
      assert ListIs(pairs, adj, c, d);
    }
    forall d, c | d in adj' && c in adj'[d]
      ensures c in indegree'
    {
      if d == dep && c != s {
        assert c in adj[dep];
      }
    }
  }

  method InitGraph(services: seq<ServiceConfig>) returns (indegree: map<string, nat>, adj: map<string, seq<string>>)
    ensures GraphOf(NameSet(services), [], indegree, adj)
  {
    indegree, adj := map[], map[];
    for i := 0 to |services|
      invariant indegree.Keys == adj.Keys == (set n | n in Names(services)[..i])
      invariant forall n :: n in indegree ==> indegree[n] == 0 && adj[n] == []
    {
      indegree := indegree[services[i].name := 0];
      adj := adj[services[i].name := []];
      assert Names(services)[..i + 1] == Names(services)[..i] + [services[i].name];
    }
    assert Names(services)[..|services|] == Names(services);
  }

  /** One known dependency entry: a new edge out of `dep`, one more open dependency of `s`. */
  method ReadEntry(ghost names: set<string>, ghost pairs: seq<Edge>, s: string, dep: string,
                   indegree0: map<string, nat>, adj0: map<string, seq<string>>)
    returns (indegree: map<string, nat>, adj: map<string, seq<string>>)
    requires GraphOf(names, pairs, indegree0, adj0) && s in names && dep in adj0
    ensures GraphOf(names, pairs + [(s, dep)], indegree, adj)
  {
    AddEdge(names, pairs, indegree0, adj0, s, dep);
    adj := adj0[dep := adj0[dep] + [s]];
    indegree := indegree0[s := indegree0[s] + 1];
  }

  /** `before`, followed by the first `k` entries of `svc`. */
  ghost function Extended(before: seq<Edge>, svc: ServiceConfig, k: nat): seq<Edge>
    requires k <= |svc.dependsOn|
  {
    if k == 0 then before else Extended(before, svc, k - 1) + [(svc.name, svc.dependsOn[k - 1])]
  }

  lemma {:induction false} ExtendedIs(before: seq<Edge>, svc: ServiceConfig, k: nat)
    requires k <= |svc.dependsOn|
    ensures Extended(before, svc, k) == before + PairsOf(svc, k)
  {
    if k > 0 {
      ExtendedIs(before, svc, k - 1);
      Associate(before, PairsOf(svc, k - 1), [(svc.name, svc.dependsOn[k - 1])]);
    }
  }

  /** Read the dependency entries of one service, up to the first unknown name. */
  method ReadService(ghost names: set<string>, ghost before: seq<Edge>, svc: ServiceConfig,
                     indegree0: map<string, nat>, adj0: map<string, seq<string>>)
    returns (bad: nat, indegree: map<string, nat>, adj: map<string, seq<string>>)
    requires GraphOf(names, before, indegree0, adj0) && svc.name in names
    ensures bad <= |svc.dependsOn|
    ensures forall k :: 0 <= k < bad ==> svc.dependsOn[k] in names
    ensures bad < |svc.dependsOn| ==> svc.dependsOn[bad] !in names
    ensures GraphOf(names, Extended(before, svc, bad), indegree, adj)
  {
    indegree, adj := indegree0, adj0;
    bad := 0;
    while bad < |svc.dependsOn| && svc.dependsOn[bad] in adj
      invariant bad <= |svc.dependsOn|
      invariant forall k :: 0 <= k < bad ==> svc.dependsOn[k] in names
      invariant GraphOf(names, Extended(before, svc, bad), indegree, adj)
    {
      indegree, adj := ReadEntry(names, Extended(before, svc, bad), svc.name, svc.dependsOn[bad], indegree, adj);
      bad := bad + 1;
    }
  }

  method BuildGraph(services: seq<ServiceConfig>)
    returns (bad: Option<GraphError>, indegree: map<string, nat>, adj: map<string, seq<string>>)
    ensures bad.None? <==> DepsKnown(services)
    ensures bad.Some? ==>
              && bad.value.UnknownDependency?
              && (bad.value.service, bad.value.dep) in Pairs(services) && bad.value.dep !in Names(services)
    ensures bad.None? ==> GraphOf(NameSet(services), Pairs(services), indegree, adj)
  {
    indegree, adj := InitGraph(services);
    bad := None;
    for i := 0 to |services|
      invariant bad.None?
      invariant DepsKnownUpTo(services, i)
      invariant GraphOf(NameSet(services), Pairs(services[..i]), indegree, adj)
    {
      var svc := services[i];
      assert Names(services)[i] == svc.name;
      var k: nat;
      k, indegree, adj := ReadService(NameSet(services), Pairs(services[..i]), svc, indegree, adj);
      if k < |svc.dependsOn| {
        UnknownIsListed(services, i, k);
        return Some(UnknownDependency(svc.name, svc.dependsOn[k])), indegree, adj;
      }
      assert services[..i + 1][..i] == services[..i];
      ExtendedIs(Pairs(services[..i]), svc, k);
      PairsKnown(services, i);
    }
    assert services[..|services|] == services;
  }

  predicate DepsKnownUpTo(services: seq<ServiceConfig>, i: nat)
    requires i <= |services|
  {
    forall e :: e in Pairs(services[..i]) ==> e.1 in Names(services)
  }

  lemma PairsKnown(services: seq<ServiceConfig>, i: nat)
    requires i < |services| && DepsKnownUpTo(services, i)
    requires forall k :: 0 <= k < |services[i].dependsOn| ==> services[i].dependsOn[k] in Names(services)
    ensures DepsKnownUpTo(services, i + 1)
  {
    assert services[..i + 1][..i] == services[..i];
    forall e | e in Pairs(services[..i + 1])
      ensures e.1 in Names(services)
    {
      PairsOfMeaning(services[i], |services[i].dependsOn|, e);
    }
  }

  lemma UnknownIsListed(services: seq<ServiceConfig>, i: nat, k: nat)
    requires i < |services| && k < |services[i].dependsOn|
    ensures (services[i].name, services[i].dependsOn[k]) in Pairs(services)
  {
    PairsMeaning(services, (services[i].name, services[i].dependsOn[k]));
    assert services[i] in services && services[i].dependsOn[k] in services[i].dependsOn;
  }

  // ----- the main loop -----

  /** `ready` holds exactly the keys of unfinished services with no open entry. */
  ghost predicate ReadyIs(services: seq<ServiceConfig>, order: seq<string>, indegree: map<string, nat>, ready: set<Key>) {
    && (forall c :: c in indegree ==> (KeyOf(services, c) in ready <==> c !in order && indegree[c] == 0))
    && (forall k :: k in ready ==> k.1 in indegree && k == KeyOf(services, k.1))
  }

  ghost predicate Ordered(services: seq<ServiceConfig>, order: seq<string>) {
    && Distinct(order)
    && (forall k :: 0 <= k < |order| ==> ReadyAfter(services, order[k], order[..k]))
    && IsGreedy(services, order)
  }

  ghost predicate Counts(pairs: seq<Edge>, order: seq<string>, indegree: map<string, nat>, pending: seq<string>) {
    forall c :: c in indegree ==> indegree[c] == Open(pairs, c, order) + Count(pending, c)
  }

  /** Release the children of a finished service one entry at a time; no count goes below zero. */
  method Relax(services: seq<ServiceConfig>, ghost pairs: seq<Edge>, ghost order: seq<string>, children: seq<string>,
               indegree0: map<string, nat>, ready0: set<Key>)
    returns (indegree: map<string, nat>, ready: set<Key>)
    requires forall c :: c in children ==> c in indegree0
    requires Counts(pairs, order, indegree0, children)
    requires ReadyIs(services, order, indegree0, ready0)
    requires forall c :: c in order && c in indegree0 ==> indegree0[c] == 0
    ensures indegree.Keys == indegree0.Keys
    ensures Counts(pairs, order, indegree, [])
    ensures ReadyIs(services, order, indegree, ready)
  {
    indegree, ready := indegree0, ready0;
    assert children[0..] == children;
    for i := 0 to |children|
      invariant indegree.Keys == indegree0.Keys
      invariant Counts(pairs, order, indegree, children[i..])
      invariant ReadyIs(services, order, indegree, ready)
      invariant forall c :: c in order && c in indegree ==> indegree[c] == 0
    {
      var c := children[i];
      assert c in children;
      CountPositive(children[i..], c);
      assert children[i..][0] == c;
      forall x
        ensures Count(children[i..], x) == Count(children[i + 1..], x) + if c == x then 1 else 0
      {
        CountFront(children, i, x);
      }
      indegree := indegree[c := indegree[c] - 1];
      if indegree[c] == 0 {
        ready := ready + {KeyOf(services, c)};
      }
    }
    assert children[|children|..] == [];
  }

  /** The popped service may stand next, and it is the least that may. */
  lemma OrderedStep(services: seq<ServiceConfig>, order: seq<string>, indegree: map<string, nat>, ready: set<Key>, n: string)
    requires Ordered(services, order)
    requires indegree.Keys == (set x | x in Names(services))
    requires Counts(Pairs(services), order, indegree, [])
    requires ReadyIs(services, order, indegree, ready)
    requires IsLeast(ready, KeyOf(services, n)) && n in indegree
    ensures Ordered(services, order + [n]) && n !in order
  {
    var order' := order + [n];
    OpenIsZeroIff(Pairs(services), n, order);
    forall k | 0 <= k < |order'|
      ensures ReadyAfter(services, order'[k], order'[..k])
    {
      assert order'[..k] == if k < |order| then order[..k] else order;
    }
    forall k, c | 0 <= k < |order'| && ReadyAfter(services, c, order'[..k])
      ensures c == order'[k] || KeyLess(KeyOf(services, order'[k]), KeyOf(services, c))
    {
      if k < |order| {
        assert order'[..k] == order[..k];
      } else {
        assert order'[..k] == order;
        OpenIsZeroIff(Pairs(services), c, order);
        assert KeyOf(services, c) in ready;
      }
    }
  }

  /** A finished service has no open entry left. */
  lemma FinishedIsClosed(services: seq<ServiceConfig>, order: seq<string>, c: string)
    requires Ordered(services, order) && c in order
    ensures Open(Pairs(services), c, order) == 0
  {
    var k :| 0 <= k < |order| && order[k] == c;
    assert ReadyAfter(services, order[k], order[..k]);
    OpenIsZeroIff(Pairs(services), c, order);
  }

  /** Finish `n`: its children's entries move from "open" to "about to be released". */
  lemma FinishStep(services: seq<ServiceConfig>, order: seq<string>, indegree: map<string, nat>,
                   adj: map<string, seq<string>>, n: string)
    requires Counts(Pairs(services), order, indegree, [])
    requires n !in order && n in adj
    requires forall c :: c in indegree ==> Count(adj[n], c) == Multiplicity(Pairs(services), c, n)
    ensures Counts(Pairs(services), order + [n], indegree, adj[n])
  {
    forall c | c in indegree
      ensures indegree[c] == Open(Pairs(services), c, order + [n]) + Count(adj[n], c)
    {
      OpenStep(Pairs(services), c, order, n);
    }
  }

  // ----- how the sort ends -----

  /** A full-length order uses every name exactly once. */
  lemma FullOrder(services: seq<ServiceConfig>, order: seq<string>)
    requires Distinct(order) && |order| == |services|
    requires forall k :: 0 <= k < |order| ==> order[k] in Names(services)
    ensures Distinct(Names(services))
    ensures forall n :: n in Names(services) ==> n in order
  {
    var names := Names(services);
    forall i, j | 0 <= i < j < |names|
      ensures names[i] != names[j]
    {
      if names[i] == names[j] {
        var others := names[..j] + names[j + 1..];
        var pool := set n | n in others;
        assert forall n :: n in names ==> n in pool by {
          assert names == names[..j] + [names[j]] + names[j + 1..];
          assert names[i] in names[..j];
        }
        SetOfSeq(others);
        DistinctFits(order, pool);
      }
    }
    forall n | n in names
      ensures n in order
    {
      if n !in order {
        var pool := (set x | x in names) - {n};
        SetOfSeq(names);
        DistinctFits(order, pool);
      }
    }
  }

  lemma {:induction false} SetOfSeq(s: seq<string>)
    ensures |set x | x in s| <= |s|
    decreases |s|
  {
    if s == [] {
      assert (set x | x in s) == {};
    } else {
      var k := |s| - 1;
      SetOfSeq(s[..k]);
      assert s == s[..k] + [s[k]];
      assert (set x | x in s) == (set x | x in s[..k]) + {s[k]};
    }
  }

  /** A topological order excludes cycles: positions drop along dependencies. */
  lemma TopologicalIsAcyclic(services: seq<ServiceConfig>, order: seq<string>)
    requires IsTopological(services, order)
    ensures Acyclic(DependencyEdges(services))
  {
    var rank := map n | n in order :: Position(order, n);
    forall a, b | (a, b) in DependencyEdges(services)
      ensures a in rank && b in rank && rank[b] < rank[a]
    {
      PairsMeaning(services, (a, b));
      var svc :| svc in services && svc.name == a && b in svc.dependsOn;
      var i :| 0 <= i < |services| && services[i] == svc;
      assert Names(services)[i] == a;
      var k := Position(order, a);
      assert ReadyAfter(services, order[k], order[..k]);
      assert b in order[..k];
      var j :| 0 <= j < k && order[j] == b;
      assert Position(order, b) == j by {
        assert order[Position(order, b)] == order[j];
      }
    }
    RankedIsAcyclic(DependencyEdges(services), rank);
  }

  /** Where a name stands in an order. */
  function Position(order: seq<string>, n: string): (k: nat)
    requires n in order
    ensures k < |order| && order[k] == n
  {
    if order[0] == n then 0 else 1 + Position(order[1..], n)
  }

  /** Services with open entries when nothing is ready: each waits for another of them. */
  lemma LeftoverIsStuck(services: seq<ServiceConfig>, order: seq<string>, indegree: map<string, nat>, n: string)
    requires DepsKnown(services) && Ordered(services, order)
    requires indegree.Keys == (set x | x in Names(services))
    requires Counts(Pairs(services), order, indegree, [])
    requires ReadyIs(services, order, indegree, {})
    requires n in indegree && indegree[n] > 0
    ensures LeadsToCycle(DependencyEdges(services), n)
  {
    var edges := DependencyEdges(services);
    var stuck := set c | c in indegree && indegree[c] > 0;
    forall x | x in stuck
      ensures HasNext(edges, stuck, x)
    {
      OpenIsZeroIff(Pairs(services), x, order);
      var d :| (x, d) in Pairs(services) && d !in order;
      assert d in indegree;
      assert KeyOf(services, d) !in {};
      assert d in stuck && (x, d) in edges;
    }
    StuckLeadsToCycle(edges, stuck, n);
  }

  /** Short of services although nothing is ready: with distinct names, something is left over. */
  lemma LeftoverExists(services: seq<ServiceConfig>, order: seq<string>, indegree: map<string, nat>)
    requires Distinct(Names(services)) && Ordered(services, order) && |order| != |services|
    requires indegree.Keys == (set x | x in Names(services))
    requires ReadyIs(services, order, indegree, {})
    ensures exists n :: n in indegree && indegree[n] > 0
  {
    var names := Names(services);
    assert forall k :: 0 <= k < |order| ==> ReadyAfter(services, order[k], order[..k]);
    if forall n :: n in names ==> n in order {
      var pool := set n | n in order;
      DistinctFits(names, pool);
      SetOfSeq(order);
      SetOfSeq(names);
      DistinctFits(order, set n | n in names);
      assert false;
    }
    var n :| n in names && n !in order;
    assert n in indegree && KeyOf(services, n) !in {};
  }

  /** The sort succeeds exactly on distinct, closed, acyclic configurations, and then returns a
      topological order that is least at every position; otherwise it names a culprit. */
  method TopologicalSort(services: seq<ServiceConfig>) returns (r: Result<seq<string>, GraphError>)
    ensures r.Ok? <==> Distinct(Names(services)) && DepsKnown(services) && Acyclic(DependencyEdges(services))
    ensures r.Ok? ==> IsTopological(services, r.value) && IsGreedy(services, r.value) && ByPriority(services, r.value)
    ensures r.Err? && r.error.UnknownDependency? ==>
              (r.error.service, r.error.dep) in Pairs(services) && r.error.dep !in Names(services)
    ensures r.Err? && r.error.Cycle? ==>
              DepsKnown(services)
              && if Acyclic(DependencyEdges(services)) then !Distinct(Names(services)) && r.error == Cycle("unknown")
                 else LeadsToCycle(DependencyEdges(services), r.error.service)
    ensures DepsKnown(services) && Acyclic(DependencyEdges(services)) && !Distinct(Names(services)) ==>
              r == Err(Cycle("unknown"))
  {
    var bad, indegree, adj := BuildGraph(services);
    if bad.Some? {
      return Err(bad.value);
    }
    var order, left := Drain(services, indegree, adj);
    if |order| != |services| {
      var leftover := set n | n in left && left[n] > 0;
      assert forall n :: n in left && left[n] > 0 ==> n in leftover;
      assert Distinct(Names(services)) ==> leftover != {} by {
        if Distinct(Names(services)) {
          LeftoverExists(services, order, left);
          var n :| n in left && left[n] > 0;
          assert n in leftover;
        }
      }
      if leftover == {} {
        AllFinished(services, order, left);
        return Err(Cycle("unknown"));
      }
      ghost var culprit := Pick(leftover);
      var involved :| involved in leftover;
      LeftoverIsStuck(services, order, left, involved);
      return Err(Cycle(involved));
    }
    OrderedIsTopological(services, order);
    TopologicalIsAcyclic(services, order);
    GreedyIsByPriority(services, order);
    r := Ok(order);
  }

  /** When no service is left over, the order is complete and there is no cycle. */
  lemma AllFinished(services: seq<ServiceConfig>, order: seq<string>, indegree: map<string, nat>)
    requires Progress(services, order, indegree, {}) && forall n :: n in indegree ==> indegree[n] == 0
    ensures Acyclic(DependencyEdges(services))
  {
    forall n
      ensures n in order <==> n in Names(services)
    {
      if n in order {
        var k :| 0 <= k < |order| && order[k] == n;
        assert ReadyAfter(services, order[k], order[..k]);
      }
      if n in Names(services) {
        assert n in indegree;
        assert KeyOf(services, n) !in {};
      }
    }
    TopologicalIsAcyclic(services, order);
  }

  lemma OrderedIsTopological(services: seq<ServiceConfig>, order: seq<string>)
    requires Ordered(services, order) && |order| == |services|
    ensures IsTopological(services, order) && Distinct(Names(services))
  {
    forall k | 0 <= k < |order|
      ensures order[k] in Names(services)
    {
      assert ReadyAfter(services, order[k], order[..k]);
    }
    FullOrder(services, order);
  }

  /** The state between two pops. */
  ghost predicate Progress(services: seq<ServiceConfig>, order: seq<string>, indegree: map<string, nat>, ready: set<Key>) {
    && Ordered(services, order)
    && indegree.Keys == (set x | x in Names(services))
    && Counts(Pairs(services), order, indegree, [])
    && ReadyIs(services, order, indegree, ready)
  }

  /** Each adjacency list names every dependent as often as it lists the dependency. */
  ghost predicate AdjacencyOf(services: seq<ServiceConfig>, adj: map<string, seq<string>>) {
    && adj.Keys == (set x | x in Names(services))
    && (forall c, d :: c in adj && d in adj ==> Count(adj[d], c) == Multiplicity(Pairs(services), c, d))
    && (forall d, c :: d in adj && c in adj[d] ==> c in adj)
  }

  lemma ClosedWhenDone(services: seq<ServiceConfig>, order: seq<string>, indegree: map<string, nat>, ready: set<Key>, n: string)
    requires Progress(services, order, indegree, ready) && KeyOf(services, n) in ready && n in indegree
    ensures forall c :: c in order + [n] && c in indegree ==> indegree[c] == 0
  {
    forall c | c in order && c in indegree
      ensures indegree[c] == 0
    {
      FinishedIsClosed(services, order, c);
    }
  }

  /** One pop: the least ready service is finished and its dependents are released. */
  method PopOne(services: seq<ServiceConfig>, order: seq<string>, indegree: map<string, nat>, ready: set<Key>,
                adj: map<string, seq<string>>)
    returns (n: string, indegree': map<string, nat>, ready': set<Key>)
    requires Progress(services, order, indegree, ready) && AdjacencyOf(services, adj) && ready != {}
    ensures n in Names(services) && n !in order
    ensures Progress(services, order + [n], indegree', ready')
    ensures forall k :: k in ready ==>
              Prio(services, n) < k.0 || (Prio(services, n) == k.0 && NotAfter(n, k.1))
  {
    var m, rest := PopFirst(ready);
    n := m.1;
    OrderedStep(services, order, indegree, ready, n);
    FinishStep(services, order, indegree, adj, n);
    ClosedWhenDone(services, order, indegree, ready, n);
    assert ReadyIs(services, order + [n], indegree, rest);
    indegree', ready' := Relax(services, Pairs(services), order + [n], adj[n], indegree, rest);
  }

  function InitiallyReady(services: seq<ServiceConfig>, indegree: map<string, nat>): set<Key> {
    set c | c in indegree && indegree[c] == 0 :: KeyOf(services, c)
  }

  lemma GraphStarts(services: seq<ServiceConfig>, indegree: map<string, nat>, adj: map<string, seq<string>>)
    requires GraphOf(NameSet(services), Pairs(services), indegree, adj)
    ensures AdjacencyOf(services, adj)
    ensures Progress(services, [], indegree, InitiallyReady(services, indegree))
  {
    var pairs := Pairs(services);
    forall c | c in indegree
      ensures indegree[c] == Open(pairs, c, []) + Count([], c)
    {
      assert DegreeIs(pairs, indegree, c);
    }
    forall c, d | c in adj && d in adj
      ensures Count(adj[d], c) == Multiplicity(pairs, c, d)
    {
      assert ListIs(pairs, adj, c, d);
    }
  }

  lemma OneMore(order: seq<string>, n: string)
    ensures (set x | x in order + [n]) == (set x | x in order) + {n}
  {
  }

  /** Pop the least ready service until none is ready. */
  method Drain(services: seq<ServiceConfig>, indegree0: map<string, nat>, adj: map<string, seq<string>>)
    returns (order: seq<string>, indegree: map<string, nat>)
    requires GraphOf(NameSet(services), Pairs(services), indegree0, adj)
    ensures Progress(services, order, indegree, {})
  {
    indegree := indegree0;
    order := [];
    var ready := InitiallyReady(services, indegree);
    GraphStarts(services, indegree, adj);
    while ready != {}
      invariant Progress(services, order, indegree, ready)
      decreases (set x | x in Names(services)) - (set x | x in order)
    {
      var n;
      n, indegree, ready := PopOne(services, order, indegree, ready, adj);
      OneMore(order, n);
      order := order + [n];
    }
  }
}
