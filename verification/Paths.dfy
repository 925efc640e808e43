/** Paths and cycles in finite directed graphs over names. */
module Paths {
  import opened Basics

  type Edge = (string, string)

  ghost predicate IsPath(edges: set<Edge>, p: seq<string>) {
    |p| >= 1 && forall i :: 0 <= i < |p| - 1 ==> (p[i], p[i + 1]) in edges
  }

  ghost predicate PathBetween(edges: set<Edge>, p: seq<string>, a: string, b: string) {
    IsPath(edges, p) && p[0] == a && p[|p| - 1] == b
  }

  ghost predicate Reaches(edges: set<Edge>, a: string, b: string) {
    exists p :: PathBetween(edges, p, a, b)
  }

  /** A walk with at least one edge that ends where it began. */
  ghost predicate IsCycle(edges: set<Edge>, p: seq<string>) {
    IsPath(edges, p) && |p| >= 2 && p[0] == p[|p| - 1]
  }

  ghost predicate Acyclic(edges: set<Edge>) {
    forall p :: !IsCycle(edges, p)
  }

  /** From `n` one can walk to a node that lies on a cycle. */
  ghost predicate LeadsToCycle(edges: set<Edge>, n: string) {
    exists p, c :: IsCycle(edges, c) && PathBetween(edges, p, n, c[0])
  }

  lemma ReachesSelf(edges: set<Edge>, a: string)
    ensures Reaches(edges, a, a)
  {
    assert PathBetween(edges, [a], a, a);
  }

  lemma ReachesStep(edges: set<Edge>, a: string, b: string, c: string)
    requires Reaches(edges, a, b) && (b, c) in edges
    ensures Reaches(edges, a, c)
  {
    var p :| PathBetween(edges, p, a, b);
    assert PathBetween(edges, p + [c], a, c);
  }

  /** Everything reachable from inside a successor-closed set is inside it. */
  lemma {:induction false} ClosedContainsReachable(edges: set<Edge>, closed: set<string>, p: seq<string>)
    requires IsPath(edges, p) && p[0] in closed
    requires forall a, b :: a in closed && (a, b) in edges ==> b in closed
    ensures p[|p| - 1] in closed
    decreases |p|
  {
    if |p| > 1 {
      assert (p[0], p[1]) in edges;
      ClosedContainsReachable(edges, closed, p[1..]);
    }
  }

  /** Distinct elements of a finite set are no more than the set has. */
  lemma {:induction false} DistinctFits(s: seq<string>, pool: set<string>)
    requires Distinct(s) && forall i :: 0 <= i < |s| ==> s[i] in pool
    ensures |s| <= |pool|
    decreases |s|
  {
    if s != [] {
      var k := |s| - 1;
      assert forall i :: 0 <= i < k ==> s[..k][i] in pool - {s[k]};
      DistinctFits(s[..k], pool - {s[k]});
    }
  }

  ghost predicate HasNext(edges: set<Edge>, stuck: set<string>, x: string) {
    exists y :: y in stuck && (x, y) in edges
  }

  /** Every node of the set has a successor in the set. */
  ghost predicate NoExit(edges: set<Edge>, stuck: set<string>) {
    forall x {:trigger HasNext(edges, stuck, x)} :: x in stuck ==> HasNext(edges, stuck, x)
  }

  /** In a set where every node has a successor, one can walk forever. */
  lemma {:induction false} LongWalk(edges: set<Edge>, stuck: set<string>, n: string, length: nat) returns (p: seq<string>)
    requires n in stuck && length >= 1
    requires NoExit(edges, stuck)
    ensures IsPath(edges, p) && |p| == length && p[0] == n
    ensures forall i :: 0 <= i < |p| ==> p[i] in stuck
    decreases length
  {
    if length == 1 {
      p := [n];
    } else {
      var q := LongWalk(edges, stuck, n, length - 1);
      assert HasNext(edges, stuck, q[|q| - 1]);
      var y :| y in stuck && (q[|q| - 1], y) in edges;
      p := q + [y];
    }
  }

  /** A set in which every node has a successor leads every node of it to a cycle. */
  lemma StuckLeadsToCycle(edges: set<Edge>, stuck: set<string>, n: string)
    requires n in stuck
    requires NoExit(edges, stuck)
    ensures LeadsToCycle(edges, n)
  {
    var p := LongWalk(edges, stuck, n, |stuck| + 1);
    if Distinct(p) {
      DistinctFits(p, stuck);
    }
    var i, j :| 0 <= i < j < |p| && p[i] == p[j];
    var cycle := p[i..j + 1];
    assert IsCycle(edges, cycle);
    assert PathBetween(edges, p[..i + 1], n, cycle[0]);
  }

  /** A rank that drops along every edge excludes cycles. */
  lemma {:induction false} RankDrops(edges: set<Edge>, rank: map<string, int>, p: seq<string>)
    requires IsPath(edges, p)
    requires forall a, b :: (a, b) in edges ==> a in rank && b in rank && rank[b] < rank[a]
    ensures |p| >= 2 ==> p[0] in rank && p[|p| - 1] in rank && rank[p[|p| - 1]] < rank[p[0]]
    decreases |p|
  {
    if |p| >= 2 {
      assert (p[0], p[1]) in edges;
      RankDrops(edges, rank, p[1..]);
    }
  }

  lemma RankedIsAcyclic(edges: set<Edge>, rank: map<string, int>)
    requires forall a, b :: (a, b) in edges ==> a in rank && b in rank && rank[b] < rank[a]
    ensures Acyclic(edges)
  {
    forall p
      ensures !IsCycle(edges, p)
    {
      if IsCycle(edges, p) {
        RankDrops(edges, rank, p);
      }
    }
  }
}
