/**
 Dependency graphs, shared by the DAG scheduler and the `jobs:` compiler: a node
 maps to the list of nodes it depends on. A path runs from a node towards its
 dependencies and stays inside the graph, so a dependency that names no node of
 the graph is on no path.
 */
module Graphs {

  type Graph = map<string, seq<string>>

  predicate NoDuplicates<T(==)>(s: seq<T>) {
    forall i, j | 0 <= i < j < |s| :: s[i] != s[j]
  }

  function Elements<T>(s: seq<T>): (r: set<T>) {
    set x | x in s
  }

  ghost predicate Closed(g: Graph) {
    forall n, d | n in g && d in g[n] :: d in g
  }

  ghost predicate IsPath(g: Graph, p: seq<string>) {
    && |p| >= 1
    && (forall i | 0 <= i < |p| :: p[i] in g)
    && (forall i | 0 <= i < |p| - 1 :: p[i + 1] in g[p[i]])
  }

  ghost predicate IsCycle(g: Graph, p: seq<string>) {
    IsPath(g, p) && |p| >= 2 && p[0] == p[|p| - 1]
  }

  ghost predicate Acyclic(g: Graph) {
    forall p :: !IsCycle(g, p)
  }

  /** k is the number of nodes on the longest path of g. */
  ghost predicate IsLongestChain(g: Graph, k: nat) {
    && (exists p :: IsPath(g, p) && |p| == k)
    && (forall p | IsPath(g, p) :: |p| <= k)
  }

  /** Every path that starts at n has at most k nodes. */
  ghost predicate DepthAtMost(g: Graph, n: string, k: nat) {
    forall p | IsPath(g, p) && p[0] == n :: |p| <= k
  }

  /** order lists every node once, each after all of its dependencies in g. */
  ghost predicate Topological(g: Graph, order: seq<string>) {
    && NoDuplicates(order)
    && (forall n :: n in g <==> n in order)
    && (forall i, d | 0 <= i < |order| && order[i] in g && d in g[order[i]] && d in g :: d in order[..i])
  }

  lemma {:induction false} DistinctCount<T>(s: seq<T>)
    requires NoDuplicates(s)
    ensures |Elements(s)| == |s|
  {
    if s == [] {
      assert Elements(s) == {};
    } else {
      var init, last := s[..|s| - 1], s[|s| - 1];
      DistinctCount(init);
      assert Elements(s) == Elements(init) + {last};
      assert last !in init;
    }
  }

  lemma SubsetCount<T>(a: set<T>, b: set<T>)
    requires a <= b
    ensures |a| <= |b|
    ensures |a| == |b| ==> a == b
  {
    assert b == a + (b - a);
    assert |b| == |a| + |b - a|;
  }

  lemma SubPath(g: Graph, p: seq<string>, i: nat, j: nat)
    requires IsPath(g, p) && i < j <= |p|
    ensures IsPath(g, p[i..j])
  {
  }

  lemma ExtendPath(g: Graph, n: string, p: seq<string>)
    requires IsPath(g, p) && n in g && p[0] in g[n]
    ensures IsPath(g, [n] + p)
  {
    var q := [n] + p;
    forall i | 0 <= i < |q| - 1 ensures q[i + 1] in g[q[i]] {
      if i > 0 { assert q[i] == p[i - 1] && q[i + 1] == p[i]; }
    }
  }

  /** A path of an acyclic graph visits no node twice. */
  lemma AcyclicPathDistinct(g: Graph, p: seq<string>)
    requires Acyclic(g) && IsPath(g, p)
    ensures NoDuplicates(p)
  {
    hide IsCycle, IsPath;
    forall i, j | 0 <= i < j < |p| ensures p[i] != p[j] {
      if p[i] == p[j] { RepeatIsCycle(g, p, i, j); }
    }
  }

  lemma RepeatIsCycle(g: Graph, p: seq<string>, i: nat, j: nat)
    requires IsPath(g, p) && i < j < |p| && p[i] == p[j]
    ensures IsCycle(g, p[i..j + 1])
  {
    SubPath(g, p, i, j + 1);
  }

  lemma AcyclicPathBound(g: Graph, p: seq<string>)
    requires Acyclic(g) && IsPath(g, p)
    ensures |p| <= |g|
  {
    AcyclicPathDistinct(g, p);
    DistinctCount(p);
    SubsetCount(Elements(p), g.Keys);
  }

  ghost predicate DependsInside(g: Graph, u: set<string>, n: string)
    requires n in g
  {
    exists d :: d in g[n] && d in u
  }

  /** Inside a set where every node has a dependency in the set, paths never have to end. */
  lemma {:induction false} WalkInside(g: Graph, u: set<string>, start: string, k: nat) returns (p: seq<string>)
    requires u <= g.Keys && start in u
    requires forall n | n in u :: DependsInside(g, u, n)
    ensures IsPath(g, p) && |p| == k + 1 && p[0] == start
    decreases k
  {
    if k == 0 {
      p := [start];
    } else {
      assert DependsInside(g, u, start);
      var d :| d in g[start] && d in u;
      var rest := WalkInside(g, u, d, k - 1);
      ExtendPath(g, start, rest);
      p := [start] + rest;
    }
  }

  /** The progress argument: a non-empty set of nodes that all wait on one another holds a cycle. */
  lemma StuckSetHasCycle(g: Graph, u: set<string>)
    requires u <= g.Keys && u != {}
    requires forall n | n in u :: DependsInside(g, u, n)
    ensures !Acyclic(g)
  {
    var start :| start in u;
    var p := WalkInside(g, u, start, |g|);
    if Acyclic(g) {
      AcyclicPathBound(g, p);
    }
  }

  function IndexOf(order: seq<string>, n: string): (i: nat)
    requires n in order
    ensures i < |order| && order[i] == n
    ensures forall k | 0 <= k < i :: order[k] != n
  {
    if order[0] == n then 0 else 1 + IndexOf(order[1..], n)
  }

  /** Along a path the position in a topological order only goes down. */
  lemma {:induction false} PathDescends(g: Graph, order: seq<string>, p: seq<string>)
    requires Topological(g, order) && IsPath(g, p)
    ensures |p| >= 2 ==> IndexOf(order, p[|p| - 1]) < IndexOf(order, p[0])
  {
    if |p| >= 2 {
      var i := IndexOf(order, p[0]);
      assert p[1] in g[order[i]];
      assert p[1] in order[..i];
      var k :| 0 <= k < i && order[k] == p[1];
      assert IndexOf(order, p[1]) == k;
      if |p| > 2 {
        assert IsPath(g, p[1..]) by { SubPath(g, p, 1, |p|); }
        PathDescends(g, order, p[1..]);
      }
    }
  }

  lemma TopologicalMeansAcyclic(g: Graph, order: seq<string>)
    requires Topological(g, order)
    ensures Acyclic(g)
  {
    forall p ensures !IsCycle(g, p) {
      if IsCycle(g, p) { PathDescends(g, order, p); }
    }
  }

  /** A node is one deeper than its deepest dependency in the graph. */
  lemma DepthStep(g: Graph, n: string, k: nat)
    requires n in g
    ensures DepthAtMost(g, n, k + 1) <==> forall d | d in g[n] && d in g :: DepthAtMost(g, d, k)
  {
    if DepthAtMost(g, n, k + 1) {
      forall d, p | d in g[n] && d in g && IsPath(g, p) && p[0] == d ensures |p| <= k {
        ExtendPath(g, n, p);
        assert ([n] + p)[0] == n;
      }
    }
    if forall d | d in g[n] && d in g :: DepthAtMost(g, d, k) {
      forall p | IsPath(g, p) && p[0] == n ensures |p| <= k + 1 {
        if |p| > 1 {
          SubPath(g, p, 1, |p|);
          assert DepthAtMost(g, p[1], k);
          assert p[1..][0] == p[1];
        }
      }
    }
  }
}
