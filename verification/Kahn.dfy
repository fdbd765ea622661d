/**
 The two Kahn traversals of the dag package: detectCycle (dag/validate.go) and
 maxChainDepth (dag/dynamic.go). Both count unmet dependencies with
 multiplicity, take the roots in whatever order a Go map yields them, and
 release a step when its last dependency is dequeued.
 */
module Kahn {
  import opened Graphs
  import opened Dag

  const MAX_CHAIN_STEPS := 10000

  function Lookup(m: map<string, seq<string>>, key: string): seq<string> {
    if key in m then m[key] else []
  }

  ghost function Count(s: seq<string>, x: string): nat {
    if s == [] then 0 else Count(s[..|s| - 1], x) + if s[|s| - 1] == x then 1 else 0
  }

  lemma CountPush(s: seq<string>, y: string, x: string)
    ensures Count(s + [y], x) == Count(s, x) + if x == y then 1 else 0
  {
    assert (s + [y])[..|s|] == s;
  }

  lemma {:induction false} CountTake(s: seq<string>, j: nat, x: string)
    requires j <= |s|
    ensures Count(s[..j], x) <= Count(s, x)
    ensures Count(s, x) > 0 <==> x in s
  {
    if s != [] {
      var init := s[..|s| - 1];
      assert s == init + [s[|s| - 1]];
      CountTake(init, if j < |s| then j else |init|, x);
      assert j < |s| ==> s[..j] == init[..j];
      assert j == |s| ==> s[..j] == s;
    }
  }

  /** dependents inverts g: n is listed under d as often as n depends on d. */
  ghost predicate Inverts(g: Graph, dependents: map<string, seq<string>>) {
    forall d, n :: Count(Lookup(dependents, d), n) == Count(Lookup(g, n), d)
  }

  ghost predicate Counted(g: Graph, inDegree: map<string, int>) {
    inDegree.Keys == g.Keys && forall n | n in g :: inDegree[n] == |g[n]|
  }

  lemma AddOneDep(g: Graph, id: string, dep: string, dependents: map<string, seq<string>>)
    requires Inverts(g, dependents)
    ensures Inverts(AddDeps(g, id, [dep]), dependents[dep := Lookup(dependents, dep) + [id]])
  {
    var g', dependents' := AddDeps(g, id, [dep]), dependents[dep := Lookup(dependents, dep) + [id]];
    forall d, n ensures Count(Lookup(dependents', d), n) == Count(Lookup(g', n), d) {
      CountPush(Lookup(dependents, dep), id, n);
      CountPush(Lookup(g, id), dep, d);
      assert Count(Lookup(dependents, d), n) == Count(Lookup(g, n), d);
    }
  }

  lemma AddDepsOnce(g: Graph, id: string, deps: seq<string>, j: nat)
    requires j < |deps|
    ensures AddDeps(AddDeps(g, id, deps[..j]), id, [deps[j]]) == AddDeps(g, id, deps[..j + 1])
  {
    var own := if id in g then g[id] else [];
    assert own + deps[..j] + [deps[j]] == own + deps[..j + 1];
  }

  lemma AddNoDeps(g: Graph, id: string, dependents: map<string, seq<string>>)
    requires Inverts(g, dependents)
    ensures Inverts(AddDeps(g, id, []), dependents)
  {
    var g' := AddDeps(g, id, []);
    forall d, n ensures Count(Lookup(dependents, d), n) == Count(Lookup(g', n), d) {
      assert Lookup(g', n) == Lookup(g, n);
    }
  }

  /** The shared first loop: in-degrees and the inverted edges of the step list. */
  method BuildInDegrees(steps: seq<StepDef>) returns (inDegree: map<string, int>, dependents: map<string, seq<string>>)
    ensures Counted(DepGraph(steps), inDegree)
    ensures Inverts(DepGraph(steps), dependents)
  {
    inDegree, dependents := map[], map[];
    for i := 0 to |steps|
      invariant Counted(DepGraph(steps[..i]), inDegree)
      invariant Inverts(DepGraph(steps[..i]), dependents)
    {
      var s := steps[i];
      ghost var g := DepGraph(steps[..i]);
      if s.id !in inDegree {
        inDegree := inDegree[s.id := 0];
      }
      assert s.dependsOn[..0] == [];
      AddNoDeps(g, s.id, dependents);
      for j := 0 to |s.dependsOn|
        invariant Counted(AddDeps(g, s.id, s.dependsOn[..j]), inDegree)
        invariant Inverts(AddDeps(g, s.id, s.dependsOn[..j]), dependents)
      {
        var dep := s.dependsOn[j];
        ghost var partial := AddDeps(g, s.id, s.dependsOn[..j]);
        AddOneDep(partial, s.id, dep, dependents);
        AddDepsOnce(g, s.id, s.dependsOn, j);
        inDegree := inDegree[s.id := inDegree[s.id] + 1];
        dependents := dependents[dep := Lookup(dependents, dep) + [s.id]];
      }
      assert s.dependsOn[..|s.dependsOn|] == s.dependsOn;
      assert steps[..i + 1][..i] == steps[..i];
    }
    assert steps[..|steps|] == steps;
  }

  /** How many entries of deps are not done yet. */
  ghost function Remaining(deps: seq<string>, done: set<string>): nat {
    if deps == [] then 0
    else Remaining(deps[..|deps| - 1], done) + if deps[|deps| - 1] in done then 0 else 1
  }

  lemma {:induction false} RemainingFacts(deps: seq<string>, done: set<string>)
    ensures Remaining(deps, done) == 0 <==> forall d | d in deps :: d in done
    ensures Remaining(deps, {}) == |deps|
  {
    if deps != [] {
      RemainingFacts(deps[..|deps| - 1], done);
      assert deps == deps[..|deps| - 1] + [deps[|deps| - 1]];
    }
  }

  lemma {:induction false} RemainingDrop(deps: seq<string>, done: set<string>, node: string)
    requires node !in done
    ensures Remaining(deps, done) == Remaining(deps, done + {node}) + Count(deps, node)
  {
    if deps != [] {
      RemainingDrop(deps[..|deps| - 1], done, node);
      assert deps == deps[..|deps| - 1] + [deps[|deps| - 1]];
    }
  }

  /** Between two dequeues: order is dequeued, queue is exactly the released rest. */
  ghost predicate Between(g: Graph, inDegree: map<string, int>, queue: seq<string>, order: seq<string>) {
    && NoDuplicates(order + queue)
    && inDegree.Keys == g.Keys
    && (forall n | n in g :: inDegree[n] == Remaining(g[n], Elements(order)))
    && (forall n :: n in order + queue <==> n in g && inDegree[n] == 0)
    && (forall i, d | 0 <= i < |order| && order[i] in g && d in g[order[i]] :: d in order[..i])
  }

  /** While node's dependents are released: the first j of them have been counted down. */
  ghost predicate Releasing(g: Graph, inDegree: map<string, int>, queue: seq<string>, order: seq<string>,
                            node: string, children: seq<string>, j: nat)
  {
    && j <= |children|
    && NoDuplicates(order + [node] + queue)
    && inDegree.Keys == g.Keys
    && (forall n | n in g :: inDegree[n] == Remaining(g[n], Elements(order)) - Count(children[..j], n))
    && (forall n :: n in order + [node] + queue <==> n in g && inDegree[n] == 0)
    && (forall n :: Count(children, n) == Count(Lookup(g, n), node))
    && node in g && Remaining(g[node], Elements(order)) == 0
    && (forall i, d | 0 <= i < |order| && order[i] in g && d in g[order[i]] :: d in order[..i])
  }

  lemma Dequeue(g: Graph, inDegree: map<string, int>, queue: seq<string>, order: seq<string>,
                dependents: map<string, seq<string>>)
    requires Between(g, inDegree, queue, order) && queue != [] && Inverts(g, dependents)
    ensures Releasing(g, inDegree, queue[1..], order, queue[0], Lookup(dependents, queue[0]), 0)
  {
    var children := Lookup(dependents, queue[0]);
    assert order + [queue[0]] + queue[1..] == order + queue;
    assert queue[0] in order + queue;
    assert children[..0] == [];
  }

  lemma NotYetDequeued(order: seq<string>, node: string, queue: seq<string>)
    requires NoDuplicates(order + [node] + queue)
    ensures node !in order
  {
    var all := order + [node] + queue;
    forall k | 0 <= k < |order| ensures order[k] != node {
      assert all[k] == order[k] && all[|order|] == node;
    }
  }

  /** The child being counted down is still waiting on at least one dependency. */
  lemma ChildWaits(g: Graph, inDegree: map<string, int>, queue: seq<string>, order: seq<string>,
                   node: string, children: seq<string>, j: nat)
    requires Releasing(g, inDegree, queue, order, node, children, j) && j < |children|
    ensures children[j] in g && children[j] in inDegree && inDegree[children[j]] >= 1
    ensures children[j] !in order + [node] + queue
  {
    var c := children[j];
    CountTake(children, j + 1, c);
    assert children[..j + 1] == children[..j] + [c];
    CountPush(children[..j], c, c);
    NotYetDequeued(order, node, queue);
    RemainingDrop(g[c], Elements(order), node);
  }

  lemma Released(a: seq<string>, c: string)
    requires NoDuplicates(a) && c !in a
    ensures NoDuplicates(a + [c])
    ensures forall n :: n in a + [c] <==> n in a || n == c
  {
  }

  /** What one count-down of the inner loop changes. */
  lemma ReleaseChild(g: Graph, inDegree: map<string, int>, queue: seq<string>, order: seq<string>,
                     node: string, children: seq<string>, j: nat, inDegree': map<string, int>)
    requires Releasing(g, inDegree, queue, order, node, children, j) && j < |children|
    requires children[j] in inDegree && inDegree' == inDegree[children[j] := inDegree[children[j]] - 1]
    ensures inDegree'[children[j]] == 0 ==> Releasing(g, inDegree', queue + [children[j]], order, node, children, j + 1)
    ensures inDegree'[children[j]] != 0 ==> Releasing(g, inDegree', queue, order, node, children, j + 1)
  {
    var c := children[j];
    ChildWaits(g, inDegree, queue, order, node, children, j);
    forall n | n in g ensures inDegree'[n] == Remaining(g[n], Elements(order)) - Count(children[..j + 1], n) {
      assert children[..j + 1] == children[..j] + [c];
      CountPush(children[..j], c, n);
    }
    Released(order + [node] + queue, c);
    assert order + [node] + (queue + [c]) == order + [node] + queue + [c];
  }

  lemma FinishNode(g: Graph, inDegree: map<string, int>, queue: seq<string>, order: seq<string>,
                   node: string, children: seq<string>)
    requires Releasing(g, inDegree, queue, order, node, children, |children|)
    ensures Between(g, inDegree, queue, order + [node])
    ensures forall d | d in g[node] :: d in order
  {
    var order' := order + [node];
    assert children[..|children|] == children;
    assert Elements(order') == Elements(order) + {node};
    NotYetDequeued(order, node, queue);
    forall n | n in g ensures inDegree[n] == Remaining(g[n], Elements(order')) {
      RemainingDrop(g[n], Elements(order), node);
      assert Count(children, n) == Count(Lookup(g, n), node);
    }
    RemainingFacts(g[node], Elements(order));
    forall i, d | 0 <= i < |order'| && order'[i] in g && d in g[order'[i]] ensures d in order'[..i] {
      if i < |order| {
        assert order'[..i] == order[..i] && d in order[..i];
      } else {
        assert order'[..i] == order;
      }
    }
  }

  /** The map iteration that seeds the queue: any order of the keys. */
  method Roots(inDegree: map<string, int>) returns (queue: seq<string>)
    ensures NoDuplicates(queue)
    ensures forall n :: n in queue <==> n in inDegree && inDegree[n] == 0
  {
    queue := [];
    var rest := inDegree.Keys;
    while rest != {}
      invariant rest <= inDegree.Keys
      invariant NoDuplicates(queue)
      invariant forall n :: n in queue <==> n in inDegree && n !in rest && inDegree[n] == 0
      decreases |rest|
    {
      var id :| id in rest;
      rest := rest - {id};
      if inDegree[id] == 0 {
        Released(queue, id);
        queue := queue + [id];
      }
    }
  }

  lemma Start(g: Graph, inDegree: map<string, int>, queue: seq<string>)
    requires Counted(g, inDegree) && NoDuplicates(queue)
    requires forall n :: n in queue <==> n in inDegree && inDegree[n] == 0
    ensures Between(g, inDegree, queue, [])
  {
    assert [] + queue == queue;
    assert Elements<string>([]) == {};
    forall n | n in g ensures inDegree[n] == Remaining(g[n], {}) {
      RemainingFacts(g[n], {});
    }
  }

  /** Nothing dequeued twice, so the traversal is bounded by the node count. */
  lemma OrderBound(g: Graph, inDegree: map<string, int>, queue: seq<string>, order: seq<string>)
    requires Between(g, inDegree, queue, order)
    ensures |order| + |queue| <= |g|
    ensures |order| == |g| ==> Elements(order) == g.Keys
  {
    var all := order + queue;
    DistinctCount(all);
    SubsetCount(Elements(all), g.Keys);
    assert NoDuplicates(order) by {
      forall i, j | 0 <= i < j < |order| ensures order[i] != order[j] {
        assert all[i] == order[i] && all[j] == order[j];
      }
    }
    DistinctCount(order);
    assert Elements(order) <= g.Keys by {
      forall n | n in order ensures n in g { assert n in all; }
    }
    SubsetCount(Elements(order), g.Keys);
  }

  /** An exhausted queue has drained everything when nothing waits in a circle. */
  lemma Drained(g: Graph, inDegree: map<string, int>, order: seq<string>)
    requires Between(g, inDegree, [], order)
    requires Closed(g) && Acyclic(g)
    ensures Topological(g, order)
  {
    assert order + [] == order;
    var u := g.Keys - Elements(order);
    if u != {} {
      forall n | n in u ensures DependsInside(g, u, n) {
        RemainingFacts(g[n], Elements(order));
        var d :| d in g[n] && d !in order;
        assert d in u;
      }
      StuckSetHasCycle(g, u);
    }
    forall n ensures n in g <==> n in order {
      assert n in g ==> n !in u;
    }
  }

  /** A drained traversal that dequeued every node did so in a topological order, and the graph is sound. */
  lemma DrainedMeansSound(g: Graph, inDegree: map<string, int>, order: seq<string>)
    requires Between(g, inDegree, [], order) && |order| == |g|
    ensures Topological(g, order) && Closed(g) && Acyclic(g)
  {
    OrderBound(g, inDegree, [], order);
    assert order + [] == order;
    forall n, d | n in g && d in g[n] ensures d in g {
      assert n in Elements(order);
      var i :| 0 <= i < |order| && order[i] == n;
      assert d in order[..i];
      assert d in Elements(order);
    }
    forall n ensures n in g <==> n in order {
      assert n in order <==> n in Elements(order);
    }
    assert Topological(g, order);
    TopologicalMeansAcyclic(g, order);
  }

  /**
   Reports ok exactly when IDs are unique, every dependency names a step and no
   step transitively waits on itself, for any step list.
   */
  method DetectCycle(steps: seq<StepDef>) returns (ok: bool)
    ensures ok <==> NoDuplicates(Ids(steps)) && Closed(DepGraph(steps)) && Acyclic(DepGraph(steps))
  {
    hide Between, Releasing, Inverts, Counted;
    ghost var g := DepGraph(steps);
    DepGraphNodes(steps);
    var inDegree, dependents := BuildInDegrees(steps);
    var queue := Roots(inDegree);
    Start(g, inDegree, queue);
    var visited := 0;
    ghost var order := [];
    while |queue| > 0
      invariant Between(g, inDegree, queue, order) && visited == |order|
      decreases |g| - |order|
    {
      OrderBound(g, inDegree, queue, order);
      Dequeue(g, inDegree, queue, order, dependents);
      var node := queue[0];
      queue := queue[1..];
      visited := visited + 1;
      var children := Lookup(dependents, node);
      for j := 0 to |children|
        invariant Releasing(g, inDegree, queue, order, node, children, j)
      {
        var child := children[j];
        ChildWaits(g, inDegree, queue, order, node, children, j);
        ReleaseChild(g, inDegree, queue, order, node, children, j, inDegree[child := inDegree[child] - 1]);
        inDegree := inDegree[child := inDegree[child] - 1];
        if inDegree[child] == 0 {
          queue := queue + [child];
        }
      }
      FinishNode(g, inDegree, queue, order, node, children);
      order := order + [node];
    }
    OrderBound(g, inDegree, queue, order);
    ok := visited == |steps|;
    if ok {
      DrainedMeansSound(g, inDegree, order);
    } else if Closed(g) && Acyclic(g) {
      Drained(g, inDegree, order);
      DistinctCount(order);
      assert Elements(order) == g.Keys;
    }
  }

  function DepthOf(depth: map<string, nat>, n: string): nat {
    if n in depth then depth[n] else 0
  }

  ghost predicate HasPathFrom(g: Graph, n: string, k: nat) {
    exists p :: IsPath(g, p) && p[0] == n && |p| == k
  }

  /** Recorded depths are lengths of real chains, and exceed those of every dequeued dependency. */
  ghost predicate Depths(g: Graph, depth: map<string, nat>, order: seq<string>) {
    && (forall n | n in depth :: n in g && depth[n] >= 1 && HasPathFrom(g, n, depth[n]))
    && (forall n, d | n in g && d in g[n] && d in order :: DepthOf(depth, n) > DepthOf(depth, d))
  }

  /** The released steps all have a depth, and maxDepth is the largest over the dequeued ones. */
  ghost predicate Deepest(depth: map<string, nat>, released: seq<string>, order: seq<string>, maxDepth: nat) {
    && (forall n | n in released :: n in depth)
    && (forall n | n in order :: DepthOf(depth, n) <= maxDepth)
    && (order != [] ==> exists n :: n in order && DepthOf(depth, n) == maxDepth)
  }

  ghost predicate Raised(depth: map<string, nat>, children: seq<string>, j: nat, node: string) {
    j <= |children| && forall k | 0 <= k < j :: DepthOf(depth, children[k]) > DepthOf(depth, node)
  }

  lemma NothingRaised(depth: map<string, nat>, children: seq<string>, node: string)
    ensures Raised(depth, children, 0, node)
  {
  }

  lemma RootDepths(g: Graph, inDegree: map<string, int>, queue: seq<string>, depth: map<string, nat>)
    requires Between(g, inDegree, queue, [])
    requires depth == map n | n in queue :: 1
    ensures Depths(g, depth, []) && Deepest(depth, [] + queue, [], 0)
  {
    forall n | n in depth ensures n in g && HasPathFrom(g, n, 1) {
      assert n in [] + queue;
      assert IsPath(g, [n]) && [n][0] == n;
    }
  }

  lemma NewDeepest(depth: map<string, nat>, queue: seq<string>, order: seq<string>, maxDepth: nat, maxDepth': nat)
    requires Deepest(depth, order + queue, order, maxDepth) && queue != []
    requires maxDepth' == if DepthOf(depth, queue[0]) > maxDepth then DepthOf(depth, queue[0]) else maxDepth
    requires order == [] ==> maxDepth == 0
    ensures Deepest(depth, order + [queue[0]] + queue[1..], order + [queue[0]], maxDepth')
  {
    assert order + [queue[0]] + queue[1..] == order + queue;
    var order' := order + [queue[0]];
    assert queue[0] in order' && queue[0] in order + queue;
    if order == [] || maxDepth' != maxDepth {
      assert DepthOf(depth, queue[0]) == maxDepth';
    } else {
      var n :| n in order && DepthOf(depth, n) == maxDepth;
      assert n in order';
    }
  }

  /** Raising a waiting child's depth past its dequeued dependency disturbs no settled depth. */
  lemma RaiseChild(g: Graph, depth: map<string, nat>, queue: seq<string>, order: seq<string>, maxDepth: nat,
                   node: string, children: seq<string>, j: nat, depth': map<string, nat>)
    requires Depths(g, depth, order) && Deepest(depth, order + [node] + queue, order + [node], maxDepth)
    requires Raised(depth, children, j, node) && j < |children|
    requires children[j] in g && node in g[children[j]] && children[j] !in order + [node] + queue
    requires var c := children[j];
             depth' == if DepthOf(depth, node) + 1 > DepthOf(depth, c) then depth[c := DepthOf(depth, node) + 1]
               else depth
    ensures Depths(g, depth', order) && Deepest(depth', order + [node] + queue, order + [node], maxDepth)
    ensures Raised(depth', children, j + 1, node) && children[j] in depth'
  {
    hide Depths, IsPath;
    assert node in order + [node] && node in order + [node] + queue;
    RaiseKeepsDepths(g, depth, order, node, children[j], depth');
    RaiseKeepsDeepest(depth, order + [node] + queue, order + [node], maxDepth, children[j], depth');
  }

  lemma RaiseKeepsDepths(g: Graph, depth: map<string, nat>, order: seq<string>, node: string, c: string,
                         depth': map<string, nat>)
    requires Depths(g, depth, order) && node in depth && c in g && node in g[c] && c !in order
    requires depth' == if DepthOf(depth, node) + 1 > DepthOf(depth, c) then depth[c := DepthOf(depth, node) + 1]
        else depth
    ensures Depths(g, depth', order)
  {
    var p :| IsPath(g, p) && p[0] == node && |p| == depth[node];
    ExtendPath(g, c, p);
    assert ([c] + p)[0] == c;
    assert HasPathFrom(g, c, depth[node] + 1);
    hide IsPath, HasPathFrom;
    forall n, d | n in g && d in g[n] && d in order ensures DepthOf(depth', n) > DepthOf(depth', d) {
      assert DepthOf(depth, n) > DepthOf(depth, d);
    }
  }

  lemma RaiseKeepsDeepest(depth: map<string, nat>, released: seq<string>, order: seq<string>, maxDepth: nat, c: string,
                          depth': map<string, nat>)
    requires Deepest(depth, released, order, maxDepth) && c !in order && order != []
    requires depth'.Keys >= depth.Keys && forall n | n != c :: DepthOf(depth', n) == DepthOf(depth, n)
    ensures Deepest(depth', released, order, maxDepth)
  {
    var m :| m in order && DepthOf(depth, m) == maxDepth;
    assert DepthOf(depth', m) == maxDepth;
  }

  lemma NodeInParents(g: Graph, inDegree: map<string, int>, queue: seq<string>, order: seq<string>,
                      node: string, children: seq<string>, j: nat)
    requires Releasing(g, inDegree, queue, order, node, children, j)
    ensures forall n | n in g :: node in g[n] <==> n in children
  {
    forall n | n in g ensures node in g[n] <==> n in children {
      CountTake(children, 0, n);
      CountTake(g[n], 0, node);
      assert Count(children, n) == Count(Lookup(g, n), node);
    }
  }

  lemma {:induction false} PathWithinDepth(g: Graph, depth: map<string, nat>, order: seq<string>, p: seq<string>)
    requires Depths(g, depth, order) && Topological(g, order) && IsPath(g, p)
    requires forall n | n in order :: n in depth
    ensures |p| <= DepthOf(depth, p[0])
  {
    if |p| > 1 {
      SubPath(g, p, 1, |p|);
      PathWithinDepth(g, depth, order, p[1..]);
      assert p[1] in g[p[0]] && p[1] in order;
    }
  }

  lemma DepthsAreLongest(g: Graph, depth: map<string, nat>, order: seq<string>, maxDepth: nat)
    requires Depths(g, depth, order) && Topological(g, order) && order != []
    requires Deepest(depth, order, order, maxDepth)
    ensures IsLongestChain(g, maxDepth)
  {
    var n :| n in order && DepthOf(depth, n) == maxDepth;
    assert HasPathFrom(g, n, maxDepth);
    forall p | IsPath(g, p) ensures |p| <= maxDepth {
      PathWithinDepth(g, depth, order, p);
      assert p[0] in order;
    }
  }

  /**
   The length of the longest dependency chain, whatever order the roots come in;
   order is the dequeue order: every step once, after everything it depends on.
   */
  method MaxChainDepth(steps: seq<StepDef>) returns (maxDepth: nat, ghost order: seq<string>)
    requires 0 < |steps| <= MAX_CHAIN_STEPS
    requires Closed(DepGraph(steps)) && Acyclic(DepGraph(steps))
    ensures IsLongestChain(DepGraph(steps), maxDepth)
    ensures Topological(DepGraph(steps), order)
  {
    hide Between, Releasing, Inverts, Counted, Depths, Deepest, Raised, Topological, Closed, Acyclic, DepGraph;
    ghost var g := DepGraph(steps);
    var inDegree, dependents := BuildInDegrees(steps);
    var queue := Roots(inDegree);
    var depth: map<string, nat> := map n | n in queue :: 1;
    Start(g, inDegree, queue);
    RootDepths(g, inDegree, queue, depth);
    maxDepth, order := 0, [];
    while |queue| > 0
      invariant Between(g, inDegree, queue, order)
      invariant Depths(g, depth, order) && Deepest(depth, order + queue, order, maxDepth)
      invariant order == [] ==> maxDepth == 0
      decreases |g| - |order|
    {
      OrderBound(g, inDegree, queue, order);
      Dequeue(g, inDegree, queue, order, dependents);
      var node := queue[0];
      NewDeepest(depth, queue, order, maxDepth, if DepthOf(depth, node) > maxDepth then DepthOf(depth, node)
        else maxDepth);
      queue := queue[1..];
      if DepthOf(depth, node) > maxDepth {
        maxDepth := DepthOf(depth, node);
      }
      var children := Lookup(dependents, node);
      NothingRaised(depth, children, node);
      for j := 0 to |children|
        invariant Releasing(g, inDegree, queue, order, node, children, j)
        invariant Depths(g, depth, order) && Deepest(depth, order + [node] + queue, order + [node], maxDepth)
        invariant Raised(depth, children, j, node)
      {
        ghost var depth0 := depth;
        var child := children[j];
        ChildWaits(g, inDegree, queue, order, node, children, j);
        NodeInParents(g, inDegree, queue, order, node, children, j);
        ReleaseChild(g, inDegree, queue, order, node, children, j, inDegree[child := inDegree[child] - 1]);
        inDegree := inDegree[child := inDegree[child] - 1];
        var childDepth := DepthOf(depth, node) + 1;
        if childDepth > DepthOf(depth, child) {
          depth := depth[child := childDepth];
        }
        RaiseChild(g, depth0, queue, order, maxDepth, node, children, j, depth);
        if inDegree[child] == 0 {
          ReleasedChildHasDepth(depth, order, node, queue, child, maxDepth);
          queue := queue + [child];
        }
      }
      NodeInParents(g, inDegree, queue, order, node, children, |children|);
      FinishNode(g, inDegree, queue, order, node, children);
      FinishDepth(g, depth, order, node, children);
      order := order + [node];
    }
    DepGraphNodes(steps);
    assert steps[0].id in Ids(steps);
    Drained(g, inDegree, order);
    assert order + queue == order;
    DepthsAreLongest(g, depth, order, maxDepth);
  }

  lemma ReleasedChildHasDepth(depth: map<string, nat>, order: seq<string>, node: string, queue: seq<string>,
                              c: string, maxDepth: nat)
    requires Deepest(depth, order + [node] + queue, order + [node], maxDepth) && c in depth
    ensures Deepest(depth, order + [node] + (queue + [c]), order + [node], maxDepth)
  {
    assert order + [node] + (queue + [c]) == order + [node] + queue + [c];
    var m :| m in order + [node] && DepthOf(depth, m) == maxDepth;
  }

  lemma FinishDepth(g: Graph, depth: map<string, nat>, order: seq<string>, node: string, children: seq<string>)
    requires Depths(g, depth, order)
    requires forall n | n in g :: node in g[n] <==> n in children
    requires Raised(depth, children, |children|, node)
    ensures Depths(g, depth, order + [node])
  {
  }
}
