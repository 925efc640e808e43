/** The dependency neighbourhood that `describe` collects by breadth-first search. */
module Describe {
  import opened Service
  import opened Paths
  import T = TopoSort

  type Adjacency = map<string, seq<string>>

  function Get(m: Adjacency, k: string): seq<string> {
    if k in m then m[k] else []
  }

  function Push(m: Adjacency, k: string, x: string): Adjacency {
    m[k := Get(m, k) + [x]]
  }

  /** Dependency edges taken in either direction. */
  function Undirected(edges: set<Edge>): (r: set<Edge>) {
    edges + (set e | e in edges :: (e.1, e.0))
  }

  /** Connected to `a` through dependencies in either direction. */
  ghost predicate Connected(services: seq<ServiceConfig>, a: string, b: string) {
    Reaches(Undirected(T.DependencyEdges(services)), a, b)
  }

  /** `forward` lists dependents, `reverse` lists dependencies, for the entries read so far. */
  ghost predicate AdjacencyOf(pairs: seq<Edge>, forward: Adjacency, reverse: Adjacency) {
    forall s, d ::
      && (d in Get(reverse, s) <==> (s, d) in pairs)
      && (s in Get(forward, d) <==> (s, d) in pairs)
  }

  lemma PushKeeps(pairs: seq<Edge>, forward: Adjacency, reverse: Adjacency, s: string, d: string)
    requires AdjacencyOf(pairs, forward, reverse)
    ensures AdjacencyOf(pairs + [(s, d)], Push(forward, d, s), Push(reverse, s, d))
  {
  }

  method ReadEntry(ghost pairs: seq<Edge>, s: string, d: string, forward0: Adjacency, reverse0: Adjacency)
    returns (forward: Adjacency, reverse: Adjacency)
    requires AdjacencyOf(pairs, forward0, reverse0)
    ensures AdjacencyOf(pairs + [(s, d)], forward, reverse)
  {
    PushKeeps(pairs, forward0, reverse0, s, d);
    forward := Push(forward0, d, s);
    reverse := Push(reverse0, s, d);
  }

  method ReadService(ghost before: seq<Edge>, svc: ServiceConfig, forward0: Adjacency, reverse0: Adjacency)
    returns (forward: Adjacency, reverse: Adjacency)
    requires AdjacencyOf(before, forward0, reverse0)
    ensures AdjacencyOf(before + T.PairsOf(svc, |svc.dependsOn|), forward, reverse)
  {
    forward, reverse := forward0, reverse0;
    assert before + T.PairsOf(svc, 0) == before;
    for k := 0 to |svc.dependsOn|
      invariant AdjacencyOf(before + T.PairsOf(svc, k), forward, reverse)
    {
      ghost var pairs := before + T.PairsOf(svc, k);
      forward, reverse := ReadEntry(pairs, svc.name, svc.dependsOn[k], forward, reverse);
      assert before + T.PairsOf(svc, k + 1) == pairs + [(svc.name, svc.dependsOn[k])];
    }
  }

  method BuildAdjacency(services: seq<ServiceConfig>) returns (forward: Adjacency, reverse: Adjacency)
    ensures AdjacencyOf(T.Pairs(services), forward, reverse)
  {
    forward, reverse := map[], map[];
    for i := 0 to |services|
      invariant AdjacencyOf(T.Pairs(services[..i]), forward, reverse)
    {
      assert services[..i + 1][..i] == services[..i];
      forward, reverse := ReadService(T.Pairs(services[..i]), services[i], forward, reverse);
    }
    assert services[..|services|] == services;
  }

  /** Mark the names not seen yet and put them at the end of the queue. */
  method Enlist(names: seq<string>, visited0: set<string>, queue0: seq<string>)
    returns (visited: set<string>, queue: seq<string>)
    ensures forall x :: x in visited <==> x in visited0 || x in names
    ensures forall x :: x in queue <==> x in queue0 || (x in names && x !in visited0)
    ensures visited == visited0 ==> queue == queue0
    ensures queue0 <= queue
  {
    visited, queue := visited0, queue0;
    for i := 0 to |names|
      invariant forall x :: x in visited <==> x in visited0 || x in names[..i]
      invariant forall x :: x in queue <==> x in queue0 || (x in names[..i] && x !in visited0)
      invariant visited0 <= visited
      invariant visited == visited0 ==> queue == queue0
      invariant queue0 <= queue
    {
      assert names[..i + 1] == names[..i] + [names[i]];
      if names[i] !in visited {
        visited := visited + {names[i]};
        queue := queue + [names[i]];
        assert names[i] in visited && names[i] !in visited0;
      }
    }
    assert names[..|names|] == names;
  }

  /** Dependency entries with at least one end in `nodes`, as (dependency, dependent). */
  ghost predicate EdgesTouching(pairs: seq<Edge>, nodes: set<string>, edges: set<Edge>) {
    forall d, s :: (d, s) in edges <==> (s, d) in pairs && (s in nodes || d in nodes)
  }

  /** What holds between two dequeues. */
  ghost predicate Searching(pairs: seq<Edge>, name: string, done: set<string>, visited: set<string>,
                            queue: seq<string>, edges: set<Edge>)
  {
    && name in visited
    && (forall x :: x in visited <==> x in done || x in queue)
    && (forall s, d :: (s, d) in pairs && s in done ==> d in visited)
    && (forall s, d :: (s, d) in pairs && d in done ==> s in visited)
    && (forall x :: x in visited ==> Reaches(Undirected(T.EdgeSet(pairs)), name, x))
    && EdgesTouching(pairs, done, edges)
  }

  lemma NeighbourReached(pairs: seq<Edge>, name: string, cur: string, x: string)
    requires Reaches(Undirected(T.EdgeSet(pairs)), name, cur)
    requires (cur, x) in pairs || (x, cur) in pairs
    ensures Reaches(Undirected(T.EdgeSet(pairs)), name, x)
  {
    ReachesStep(Undirected(T.EdgeSet(pairs)), name, cur, x);
  }

  /** `deps` and `children` are the two neighbour lists of `cur`. */
  ghost predicate Neighbours(pairs: seq<Edge>, cur: string, deps: seq<string>, children: seq<string>) {
    forall x :: (x in deps <==> (cur, x) in pairs) && (x in children <==> (x, cur) in pairs)
  }

  function EdgesOf(cur: string, deps: seq<string>, children: seq<string>): set<Edge> {
    (set d | d in deps :: (d, cur)) + (set s | s in children :: (cur, s))
  }

  lemma EdgesStep(pairs: seq<Edge>, done: set<string>, edges: set<Edge>, cur: string,
                  deps: seq<string>, children: seq<string>)
    requires EdgesTouching(pairs, done, edges) && Neighbours(pairs, cur, deps, children)
    ensures EdgesTouching(pairs, done + {cur}, edges + EdgesOf(cur, deps, children))
  {
  }

  lemma SearchStep(pairs: seq<Edge>, name: string, done: set<string>, visited0: set<string>, queue0: seq<string>,
                   edges0: set<Edge>, deps: seq<string>, children: seq<string>, visited: set<string>, queue: seq<string>)
    requires Searching(pairs, name, done, visited0, queue0, edges0) && queue0 != []
    requires Neighbours(pairs, queue0[0], deps, children)
    requires forall x :: x in visited <==> x in visited0 || x in deps || x in children
    requires forall x :: x in queue <==> x in queue0[1..] || ((x in deps || x in children) && x !in visited0)
    ensures Searching(pairs, name, done + {queue0[0]}, visited, queue, edges0 + EdgesOf(queue0[0], deps, children))
  {
    var cur := queue0[0];
    assert forall x :: x in queue0 <==> x == cur || x in queue0[1..];
    EdgesStep(pairs, done, edges0, cur, deps, children);
    forall x | x in visited
      ensures Reaches(Undirected(T.EdgeSet(pairs)), name, x)
    {
      if x !in visited0 {
        NeighbourReached(pairs, name, cur, x);
      }
    }
  }

  /** Dequeue one service and look at it from both sides. */
  method VisitOne(ghost pairs: seq<Edge>, name: string, forward: Adjacency, reverse: Adjacency, ghost done: set<string>,
                  visited0: set<string>, queue0: seq<string>, edges0: set<Edge>)
    returns (visited: set<string>, queue: seq<string>, edges: set<Edge>)
    requires AdjacencyOf(pairs, forward, reverse)
    requires Searching(pairs, name, done, visited0, queue0, edges0) && queue0 != []
    ensures Searching(pairs, name, done + {queue0[0]}, visited, queue, edges)
    ensures visited0 <= visited
    ensures visited == visited0 ==> |queue| < |queue0|
    ensures forall x :: x in visited ==> x in visited0 || (x, queue0[0]) in pairs || (queue0[0], x) in pairs
  {
    var cur := queue0[0];
    var deps, children := Get(reverse, cur), Get(forward, cur);
    assert Neighbours(pairs, cur, deps, children);
    visited, queue := Enlist(deps, visited0, queue0[1..]);
    ghost var visited1 := visited;
    visited, queue := Enlist(children, visited, queue);
    assert visited == visited0 ==> visited1 == visited0;
    edges := edges0 + EdgesOf(cur, deps, children);
    SearchStep(pairs, name, done, visited0, queue0, edges0, deps, children, visited, queue);
  }

  /** The search visits exactly the services connected to the subject in either direction, and
      collects exactly the dependency edges that touch them. */
  method Subgraph(services: seq<ServiceConfig>, name: string) returns (visited: set<string>, edges: set<Edge>)
    ensures forall x :: x in visited <==> Connected(services, name, x)
    ensures EdgesTouching(T.Pairs(services), visited, edges)
    ensures forall e :: e in edges ==> e.0 in visited && e.1 in visited
  {
    var forward, reverse := BuildAdjacency(services);
    ghost var pairs := T.Pairs(services);
    ghost var universe := {name} + (set e | e in pairs :: e.0) + (set e | e in pairs :: e.1);
    visited, edges := {name}, {};
    var queue := [name];
    ghost var done: set<string> := {};
    ReachesSelf(Undirected(T.EdgeSet(pairs)), name);
    while queue != []
      invariant Searching(pairs, name, done, visited, queue, edges)
      invariant visited <= universe
      decreases universe - visited, |queue|
    {
      ghost var visited0 := visited;
      ghost var cur := queue[0];
      visited, queue, edges := VisitOne(pairs, name, forward, reverse, done, visited, queue, edges);
      done := done + {cur};
      forall x | x in visited
        ensures x in universe
      {
        if x !in visited0 {
          assert (x, cur) in pairs || (cur, x) in pairs;
        }
      }
      assert visited != visited0 ==> universe - visited < universe - visited0;
    }
    assert visited == done;
    forall x | Connected(services, name, x)
      ensures x in visited
    {
      var p :| PathBetween(Undirected(T.DependencyEdges(services)), p, name, x);
      ClosedContainsReachable(Undirected(T.DependencyEdges(services)), visited, p);
    }
  }
}
