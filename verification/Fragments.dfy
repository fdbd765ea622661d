/**
 Planner fragments (dag/dynamic.go): validating a generated step list, renaming
 it under the planner's ID, and grafting it into a running workflow the way the
 engine does (internal/engine/planner.go: namespace, validate, wire the entry
 steps to the planner, append, rebuild the effective definition).
 */
module Fragments {
  import opened Graphs
  import opened Dag
  import Kahn
  import opened Scheduler

  // ---------------------------------------------------------------- renaming

  function Qualify(planner: string, id: string): string {
    planner + "." + id
  }

  function Unqualify(planner: string, id: string): string
    requires |id| > |planner|
  {
    id[|planner| + 1..]
  }

  lemma QualifyInverse(planner: string, id: string)
    ensures Unqualify(planner, Qualify(planner, id)) == id
  {
    assert Qualify(planner, id)[|planner| + 1..] == id;
  }

  lemma QualifyInjective(planner: string, a: string, b: string)
    ensures Qualify(planner, a) == Qualify(planner, b) <==> a == b
  {
    QualifyInverse(planner, a);
    QualifyInverse(planner, b);
  }

  function QualifyAll(planner: string, ids: seq<string>): seq<string> {
    seq(|ids|, i requires 0 <= i < |ids| => Qualify(planner, ids[i]))
  }

  function Renamed(planner: string, s: StepDef): StepDef {
    s.(id := Qualify(planner, s.id), stepType := Normal, dependsOn := QualifyAll(planner, s.dependsOn))
  }

  function Namespaced(planner: string, fragment: seq<StepDef>): seq<StepDef> {
    seq(|fragment|, i requires 0 <= i < |fragment| => Renamed(planner, fragment[i]))
  }

  method NamespaceFragment(planner: string, fragment: seq<StepDef>) returns (result: seq<StepDef>)
    requires planner != "" && fragment != []
    ensures result == Namespaced(planner, fragment)
    ensures |result| == |fragment| && forall i | 0 <= i < |fragment| ::
              && result[i] == fragment[i].(id := planner + "." + fragment[i].id, stepType := Normal,
                                           dependsOn := result[i].dependsOn)
              && |result[i].dependsOn| == |fragment[i].dependsOn|
              && forall j | 0 <= j < |fragment[i].dependsOn| ::
                   result[i].dependsOn[j] == planner + "." + fragment[i].dependsOn[j]
  {
    result := fragment;
    for i := 0 to |fragment|
      invariant |result| == |fragment|
      invariant forall k | 0 <= k < i :: result[k] == Renamed(planner, fragment[k])
      invariant forall k | i <= k < |fragment| :: result[k] == fragment[k]
    {
      var step := fragment[i].(id := Qualify(planner, fragment[i].id), stepType := Normal);
      if |fragment[i].dependsOn| > 0 {
        var deps := fragment[i].dependsOn;
        for j := 0 to |deps|
          invariant |deps| == |fragment[i].dependsOn|
          invariant forall k | 0 <= k < j :: deps[k] == Qualify(planner, fragment[i].dependsOn[k])
          invariant forall k | j <= k < |deps| :: deps[k] == fragment[i].dependsOn[k]
        {
          deps := deps[j := Qualify(planner, deps[j])];
        }
        assert deps == QualifyAll(planner, fragment[i].dependsOn);
        step := step.(dependsOn := deps);
      } else {
        assert fragment[i].dependsOn == QualifyAll(planner, fragment[i].dependsOn);
      }
      result := result[i := step];
    }
  }

  /** g' is g with every node and every dependency qualified, and nothing more. */
  ghost predicate RenamesGraph(planner: string, g: Graph, g': Graph) {
    && (forall n | n in g :: Qualify(planner, n) in g' && g'[Qualify(planner, n)] == QualifyAll(planner, g[n]))
    && (forall m | m in g' :: exists n :: n in g && m == Qualify(planner, n))
  }

  lemma AddRenamedStep(planner: string, g: Graph, g': Graph, s: StepDef)
    requires RenamesGraph(planner, g, g')
    ensures RenamesGraph(planner, AddDeps(g, s.id, s.dependsOn),
                         AddDeps(g', Qualify(planner, s.id), QualifyAll(planner, s.dependsOn)))
  {
    var h, h' := AddDeps(g, s.id, s.dependsOn), AddDeps(g', Qualify(planner, s.id), QualifyAll(planner, s.dependsOn));
    var own := if s.id in g then g[s.id] else [];
    assert s.id in g <==> Qualify(planner, s.id) in g' by {
      if Qualify(planner, s.id) in g' {
        var n :| n in g && Qualify(planner, s.id) == Qualify(planner, n);
        QualifyInjective(planner, s.id, n);
      }
    }
    assert QualifyAll(planner, own) + QualifyAll(planner, s.dependsOn) == QualifyAll(planner, own + s.dependsOn);
    forall n | n in h ensures Qualify(planner, n) in h' && h'[Qualify(planner, n)] == QualifyAll(planner, h[n]) {
      QualifyInjective(planner, s.id, n);
    }
    forall m | m in h' ensures exists n :: n in h && m == Qualify(planner, n) {
      if m in g' {
        var n :| n in g && m == Qualify(planner, n);
        assert n in h;
      } else {
        assert s.id in h;
      }
    }
  }

  lemma {:induction false} NamespacedGraph(planner: string, fragment: seq<StepDef>)
    ensures RenamesGraph(planner, DepGraph(fragment), DepGraph(Namespaced(planner, fragment)))
  {
    if fragment != [] {
      var init, last := fragment[..|fragment| - 1], fragment[|fragment| - 1];
      NamespacedGraph(planner, init);
      assert Namespaced(planner, fragment)[..|fragment| - 1] == Namespaced(planner, init);
      AddRenamedStep(planner, DepGraph(init), DepGraph(Namespaced(planner, init)), last);
    }
  }

  lemma PathForward(planner: string, g: Graph, g': Graph, p: seq<string>)
    requires RenamesGraph(planner, g, g') && IsPath(g, p)
    ensures IsPath(g', QualifyAll(planner, p))
  {
    var q := QualifyAll(planner, p);
    forall i | 0 <= i < |q| - 1 ensures q[i + 1] in g'[q[i]] {
      var k :| 0 <= k < |g[p[i]]| && g[p[i]][k] == p[i + 1];
      assert g'[q[i]][k] == q[i + 1];
    }
  }

  lemma PathBack(planner: string, g: Graph, g': Graph, q: seq<string>) returns (p: seq<string>)
    requires RenamesGraph(planner, g, g') && IsPath(g', q)
    ensures IsPath(g, p) && q == QualifyAll(planner, p)
  {
    forall m | m in g' ensures |m| > |planner| && Unqualify(planner, m) in g &&
      m == Qualify(planner, Unqualify(planner, m)) {
      var n :| n in g && m == Qualify(planner, n);
      QualifyInverse(planner, n);
    }
    p := seq(|q|, i requires 0 <= i < |q| => Unqualify(planner, q[i]));
    forall i | 0 <= i < |p| - 1 ensures p[i + 1] in g[p[i]] {
      assert q[i + 1] in g'[q[i]];
      var k :| 0 <= k < |g[p[i]]| && QualifyAll(planner, g[p[i]])[k] == q[i + 1];
      QualifyInverse(planner, g[p[i]][k]);
    }
  }

  lemma RenamedCycles(planner: string, g: Graph, g': Graph)
    requires RenamesGraph(planner, g, g')
    ensures Acyclic(g) <==> Acyclic(g')
  {
    forall p | IsCycle(g, p) ensures !Acyclic(g') {
      PathForward(planner, g, g', p);
      assert IsCycle(g', QualifyAll(planner, p));
    }
    forall q | IsCycle(g', q) ensures !Acyclic(g) {
      var p := PathBack(planner, g, g', q);
      QualifyInjective(planner, p[0], p[|p| - 1]);
      assert IsCycle(g, p);
    }
  }

  lemma RenamedClosed(planner: string, g: Graph, g': Graph)
    requires RenamesGraph(planner, g, g')
    ensures Closed(g) <==> Closed(g')
  {
    if Closed(g) {
      forall m, e | m in g' && e in g'[m] ensures e in g' {
        var n :| n in g && m == Qualify(planner, n);
        var k :| 0 <= k < |g'[m]| && g'[m][k] == e;
        assert e == Qualify(planner, g[n][k]) && g[n][k] in g[n];
      }
    }
    if Closed(g') {
      forall n, d | n in g && d in g[n] ensures d in g {
        var k :| 0 <= k < |g[n]| && g[n][k] == d;
        assert g'[Qualify(planner, n)][k] == Qualify(planner, d);
        assert Qualify(planner, d) in g'[Qualify(planner, n)] && Qualify(planner, d) in g';
        var n' :| n' in g && Qualify(planner, d) == Qualify(planner, n');
        QualifyInjective(planner, d, n');
      }
    }
  }

  lemma RenamedDepth(planner: string, g: Graph, g': Graph, k: nat)
    requires RenamesGraph(planner, g, g')
    ensures IsLongestChain(g, k) <==> IsLongestChain(g', k)
  {
    if IsLongestChain(g, k) {
      var p :| IsPath(g, p) && |p| == k;
      PathForward(planner, g, g', p);
      forall q | IsPath(g', q) ensures |q| <= k {
        var p' := PathBack(planner, g, g', q);
      }
      assert |QualifyAll(planner, p)| == k;
    }
    if IsLongestChain(g', k) {
      var q :| IsPath(g', q) && |q| == k;
      var p := PathBack(planner, g, g', q);
      forall p' | IsPath(g, p') ensures |p'| <= k {
        PathForward(planner, g, g', p');
        assert |QualifyAll(planner, p')| <= k;
      }
      assert |p| == k;
    }
  }

  lemma RenamedIds(planner: string, fragment: seq<StepDef>)
    ensures NoDuplicates(Ids(fragment)) <==> NoDuplicates(Ids(Namespaced(planner, fragment)))
  {
    var ids, ids' := Ids(fragment), Ids(Namespaced(planner, fragment));
    forall i, j | 0 <= i < j < |fragment| ensures ids[i] == ids[j] <==> ids'[i] == ids'[j] {
      QualifyInjective(planner, ids[i], ids[j]);
    }
  }

  /** Namespacing is a renaming: uniqueness, closure, acyclicity and depth hold before it exactly when after it. */
  lemma NamespacingPreservesStructure(planner: string, fragment: seq<StepDef>)
    ensures var f' := Namespaced(planner, fragment);
            && (NoDuplicates(Ids(fragment)) <==> NoDuplicates(Ids(f')))
            && (Closed(DepGraph(fragment)) <==> Closed(DepGraph(f')))
            && (Acyclic(DepGraph(fragment)) <==> Acyclic(DepGraph(f')))
            && (forall k: nat :: IsLongestChain(DepGraph(fragment), k) <==> IsLongestChain(DepGraph(f'), k))
  {
    var g, g' := DepGraph(fragment), DepGraph(Namespaced(planner, fragment));
    NamespacedGraph(planner, fragment);
    RenamedIds(planner, fragment);
    RenamedClosed(planner, g, g');
    RenamedCycles(planner, g, g');
    forall k: nat ensures IsLongestChain(g, k) <==> IsLongestChain(g', k) {
      RenamedDepth(planner, g, g', k);
    }
  }

  // ---------------------------------------------------------------- validation

  datatype PlannerConfig = PlannerConfig(maxSteps: int, maxDepth: int, allowedTasks: seq<string>)

  /** dispatchOk is the shared charset rule on a step's task and worker group. */
  predicate TasksOk(fragment: seq<StepDef>, allowed: seq<string>, dispatchOk: (string, string) -> bool) {
    forall s | s in fragment ::
      s.task != "" && dispatchOk(s.task, s.workerGroup) && (|allowed| > 0 ==> s.task in allowed)
  }

  /** Everything asked of a fragment but the IDs it may use, in terms of the graph it describes. */
  ghost predicate StructureOk(fragment: seq<StepDef>, cfg: PlannerConfig, dispatchOk: (string, string) -> bool) {
    && 0 < |fragment| <= cfg.maxSteps
    && NoDuplicates(Ids(fragment))
    && TasksOk(fragment, cfg.allowedTasks, dispatchOk)
    && Closed(DepGraph(fragment)) && Acyclic(DepGraph(fragment))
    && (cfg.maxDepth > 0 ==> forall p | IsPath(DepGraph(fragment), p) :: |p| <= cfg.maxDepth)
  }

  ghost predicate ValidFragment(fragment: seq<StepDef>, cfg: PlannerConfig, existing: set<string>,
                                dispatchOk: (string, string) -> bool)
  {
    && StructureOk(fragment, cfg, dispatchOk)
    && forall s | s in fragment :: s.id != "" && s.id !in existing
  }

  /** Every step has a task that may be dispatched and, if a list is given, is on it. */
  method ValidateFragmentTasks(fragment: seq<StepDef>, allowed: seq<string>, dispatchOk: (string, string) -> bool)
    returns (ok: bool)
    requires fragment != []
    ensures ok <==> forall i | 0 <= i < |fragment| ::
              fragment[i].task != "" && dispatchOk(fragment[i].task, fragment[i].workerGroup)
              && (allowed == [] || fragment[i].task in allowed)
    ensures ok <==> TasksOk(fragment, allowed, dispatchOk)
  {
    for i := 0 to |fragment|
      invariant forall k | 0 <= k < i ::
                  fragment[k].task != "" && dispatchOk(fragment[k].task, fragment[k].workerGroup)
                  && (allowed == [] || fragment[k].task in allowed)
    {
      var step := fragment[i];
      assert step in fragment;
      if step.task == "" || !dispatchOk(step.task, step.workerGroup) {
        return false;
      }
      if |allowed| > 0 && step.task !in allowed {
        return false;
      }
    }
    ok := true;
  }

  method ValidateFragmentIds(fragment: seq<StepDef>, existing: set<string>) returns (ok: bool)
    ensures ok <==> (forall s | s in fragment :: s.id != "" && s.id !in existing) && NoDuplicates(Ids(fragment))
  {
    var seen: set<string> := {};
    for i := 0 to |fragment|
      invariant seen == set s | s in fragment[..i] :: s.id
      invariant forall s | s in fragment[..i] :: s.id != "" && s.id !in existing
      invariant NoDuplicates(Ids(fragment[..i]))
    {
      var step := fragment[i];
      assert fragment[..i + 1] == fragment[..i] + [step];
      if step.id == "" || step.id in existing {
        return false;
      }
      if step.id in seen {
        var t :| t in fragment[..i] && t.id == step.id;
        var k :| 0 <= k < i && fragment[k] == t;
        assert Ids(fragment)[k] == Ids(fragment)[i];
        return false;
      }
      assert forall k | 0 <= k < i :: Ids(fragment[..i])[k] != step.id by {
        forall k | 0 <= k < i ensures Ids(fragment[..i])[k] != step.id { assert fragment[k] in fragment[..i]; }
      }
      assert Ids(fragment[..i + 1]) == Ids(fragment[..i]) + [step.id];
      seen := seen + {step.id};
    }
    assert fragment[..|fragment|] == fragment;
    ok := true;
  }

  lemma DepsNamed(fragment: seq<StepDef>)
    ensures Closed(DepGraph(fragment)) <==> forall s, d | s in fragment && d in s.dependsOn :: d in Ids(fragment)
  {
    var g := DepGraph(fragment);
    DepGraphNodes(fragment);
    if Closed(g) {
      forall s, d | s in fragment && d in s.dependsOn ensures d in Ids(fragment) {
        DepGraphEdge(fragment, s.id, d);
        assert s.id in g && d in g[s.id];
      }
    }
    if forall s, d | s in fragment && d in s.dependsOn :: d in Ids(fragment) {
      forall n, d | n in g && d in g[n] ensures d in g {
        DepGraphEdge(fragment, n, d);
      }
    }
  }

  method ValidateFragmentDeps(fragment: seq<StepDef>) returns (ok: bool)
    ensures ok <==> Closed(DepGraph(fragment))
  {
    DepsNamed(fragment);
    var ids := Elements(Ids(fragment));
    for i := 0 to |fragment|
      invariant forall s, d | s in fragment[..i] && d in s.dependsOn :: d in Ids(fragment)
    {
      var step := fragment[i];
      for j := 0 to |step.dependsOn|
        invariant forall d | d in step.dependsOn[..j] :: d in Ids(fragment)
      {
        if step.dependsOn[j] !in ids {
          assert step in fragment && step.dependsOn[j] in step.dependsOn;
          return false;
        }
        assert step.dependsOn[..j + 1] == step.dependsOn[..j] + [step.dependsOn[j]];
      }
      assert step.dependsOn[..|step.dependsOn|] == step.dependsOn;
      assert fragment[..i + 1] == fragment[..i] + [step];
    }
    assert fragment[..|fragment|] == fragment;
    ok := true;
  }

  datatype Verdict = Accepted | Refused | Panicked

  /**
   Accepts a fragment exactly when it is valid; the depth bound is checked
   against the true longest chain. The depth computation panics on more steps
   than it allows, which is reached exactly by a fragment sound in all else.
   */
  method ValidateFragment(fragment: seq<StepDef>, cfg: PlannerConfig, existing: set<string>,
                          dispatchOk: (string, string) -> bool)
    returns (verdict: Verdict)
    requires 0 < cfg.maxSteps
    ensures verdict.Panicked? <==>
            && cfg.maxDepth > 0 && |fragment| > Kahn.MAX_CHAIN_STEPS
            && ValidFragment(fragment, cfg.(maxDepth := 0), existing, dispatchOk)
    ensures !verdict.Panicked? ==> (verdict.Accepted? <==> ValidFragment(fragment, cfg, existing, dispatchOk))
    ensures !verdict.Panicked? ==>
              (verdict.Accepted? <==>
               && 0 < |fragment| <= cfg.maxSteps && NoDuplicates(Ids(fragment))
               && (forall i | 0 <= i < |fragment| ::
                     && fragment[i].id != "" && fragment[i].id !in existing
                     && fragment[i].task != "" && dispatchOk(fragment[i].task, fragment[i].workerGroup)
                     && (cfg.allowedTasks == [] || fragment[i].task in cfg.allowedTasks))
               && (forall s, d | s in fragment && d in s.dependsOn :: d in Ids(fragment))
               && Acyclic(DepGraph(fragment))
               && (cfg.maxDepth > 0 ==> forall p | IsPath(DepGraph(fragment), p) :: |p| <= cfg.maxDepth))
  {
    hide IsPath, Acyclic, Closed, NoDuplicates, DepGraph, TasksOk;
    DepsNamed(fragment);
    if |fragment| == 0 || |fragment| > cfg.maxSteps {
      return Refused;
    }
    var idsOk := ValidateFragmentIds(fragment, existing);
    if !idsOk {
      return Refused;
    }
    var tasksOk := ValidateFragmentTasks(fragment, cfg.allowedTasks, dispatchOk);
    if !tasksOk {
      return Refused;
    }
    var depsOk := ValidateFragmentDeps(fragment);
    if !depsOk {
      return Refused;
    }
    var acyclic := Kahn.DetectCycle(fragment);
    if !acyclic {
      return Refused;
    }
    if cfg.maxDepth > 0 {
      if |fragment| > Kahn.MAX_CHAIN_STEPS {
        return Panicked;
      }
      ghost var order;
      var depth;
      depth, order := Kahn.MaxChainDepth(fragment);
      if depth > cfg.maxDepth {
        return Refused;
      }
    }
    verdict := Accepted;
  }

  lemma RenamedTasks(planner: string, fragment: seq<StepDef>, allowed: seq<string>,
                     dispatchOk: (string, string) -> bool)
    ensures TasksOk(fragment, allowed, dispatchOk) <==> TasksOk(Namespaced(planner, fragment), allowed, dispatchOk)
  {
    var f' := Namespaced(planner, fragment);
    assert forall i | 0 <= i < |fragment| :: fragment[i] in fragment && f'[i] in f';
  }

  lemma RenamedPathBound(planner: string, g: Graph, g': Graph, k: int)
    requires RenamesGraph(planner, g, g')
    ensures (forall p | IsPath(g, p) :: |p| <= k) <==> (forall q | IsPath(g', q) :: |q| <= k)
  {
    if forall p | IsPath(g, p) :: |p| <= k {
      forall q | IsPath(g', q) ensures |q| <= k { var p := PathBack(planner, g, g', q); }
    }
    if forall q | IsPath(g', q) :: |q| <= k {
      forall p | IsPath(g, p) ensures |p| <= k {
        PathForward(planner, g, g', p);
        assert |QualifyAll(planner, p)| <= k;
      }
    }
  }

  lemma StructureSurvivesRenaming(planner: string, fragment: seq<StepDef>, cfg: PlannerConfig,
                                  dispatchOk: (string, string) -> bool)
    ensures StructureOk(fragment, cfg, dispatchOk) <==> StructureOk(Namespaced(planner, fragment), cfg, dispatchOk)
  {
    hide Acyclic, Closed, NoDuplicates, TasksOk, DepGraph, IsPath, IsLongestChain;
    var f' := Namespaced(planner, fragment);
    NamespacingPreservesStructure(planner, fragment);
    NamespacedGraph(planner, fragment);
    RenamedTasks(planner, fragment, cfg.allowedTasks, dispatchOk);
    RenamedPathBound(planner, DepGraph(fragment), DepGraph(f'), cfg.maxDepth);
  }

  /**
   The engine validates the namespaced fragment. That verdict is the raw
   fragment's structural verdict plus freshness of the qualified IDs; the
   empty-ID check has no effect there, because a qualified ID is never empty.
   */
  lemma ValidatingAfterNamespacing(planner: string, fragment: seq<StepDef>, cfg: PlannerConfig, existing: set<string>,
                                   dispatchOk: (string, string) -> bool)
    ensures ValidFragment(Namespaced(planner, fragment), cfg, existing, dispatchOk) <==>
            && StructureOk(fragment, cfg, dispatchOk)
            && forall s | s in fragment :: Qualify(planner, s.id) !in existing
  {
    hide StructureOk;
    var f' := Namespaced(planner, fragment);
    StructureSurvivesRenaming(planner, fragment, cfg, dispatchOk);
    assert forall i | 0 <= i < |fragment| ::
      fragment[i] in fragment && f'[i] in f' && f'[i].id == Qualify(planner, fragment[i].id);
  }

  /** So a fragment refused for an empty ID is accepted once it is namespaced. */
  lemma EmptyIdSlipsThrough()
    ensures var f, cfg := [PlainStep("", [])], PlannerConfig(1, 0, []);
            && !ValidFragment(f, cfg, {}, (t, w) => true)
            && ValidFragment(Namespaced("p", f), cfg, {}, (t, w) => true)
  {
    var f, cfg := [PlainStep("", [])], PlannerConfig(1, 0, []);
    assert f[0] in f;
    var g := DepGraph(f);
    DepGraphNodes(f);
    DepGraphAt(f, 0);
    assert Topological(g, [""]);
    TopologicalMeansAcyclic(g, [""]);
    ValidatingAfterNamespacing("p", f, cfg, {}, (t, w) => true);
  }

  // ---------------------------------------------------------------- grafting

  function EffectiveSteps(steps: seq<StepDef>, dynamicSteps: seq<StepDef>): seq<StepDef> {
    if |dynamicSteps| == 0 then steps else steps + dynamicSteps
  }

  function EffectiveDef(def: WorkflowDef, dynamicSteps: seq<StepDef>): WorkflowDef {
    if |dynamicSteps| == 0 then def
    else
      var all := EffectiveSteps(def.steps, dynamicSteps);
      def.(steps := all, auxSteps := BuildAuxSteps(all))
  }

  /** Entry steps of the fragment wait on the planner. */
  function WireEntrySteps(planner: string, fragment: seq<StepDef>): seq<StepDef> {
    seq(|fragment|, i requires 0 <= i < |fragment| =>
      if fragment[i].dependsOn == [] then fragment[i].(dependsOn := [planner]) else fragment[i])
  }

  /** The in-place loop that wires them. */
  method WireEntries(planner: string, fragment: seq<StepDef>) returns (wired: seq<StepDef>)
    ensures wired == WireEntrySteps(planner, fragment)
    ensures |wired| == |fragment| && forall i | 0 <= i < |fragment| ::
              wired[i] == fragment[i].(dependsOn := if fragment[i].dependsOn == [] then [planner]
                                                    else fragment[i].dependsOn)
  {
    wired := fragment;
    for i := 0 to |fragment|
      invariant |wired| == |fragment|
      invariant forall k | 0 <= k < i :: wired[k] == WireEntrySteps(planner, fragment)[k]
      invariant forall k | i <= k < |fragment| :: wired[k] == fragment[k]
    {
      if |wired[i].dependsOn| == 0 {
        wired := wired[i := wired[i].(dependsOn := [planner])];
      }
    }
  }

  /** The steps a planner adds to the run. */
  function Grafted(planner: string, fragment: seq<StepDef>): seq<StepDef> {
    WireEntrySteps(planner, Namespaced(planner, fragment))
  }

  /** The planner is a step of def, and the fragment is structurally sound under fresh qualified IDs. */
  ghost predicate Graftable(def: WorkflowDef, planner: string, fragment: seq<StepDef>) {
    && fragment != []
    && planner in Ids(def.steps)
    && NoDuplicates(Ids(fragment)) && Closed(DepGraph(fragment)) && Acyclic(DepGraph(fragment))
    && forall s | s in fragment :: Qualify(planner, s.id) !in Ids(def.steps)
  }

  lemma GraftedIds(planner: string, fragment: seq<StepDef>)
    ensures Ids(Grafted(planner, fragment)) == Ids(Namespaced(planner, fragment))
    ensures Ids(Namespaced(planner, fragment)) == QualifyAll(planner, Ids(fragment))
  {
  }

  lemma JoinedIds(a: seq<StepDef>, b: seq<StepDef>)
    requires NoDuplicates(Ids(a)) && NoDuplicates(Ids(b))
    requires forall id | id in Ids(b) :: id !in Ids(a)
    ensures Ids(a + b) == Ids(a) + Ids(b)
    ensures NoDuplicates(Ids(a + b))
  {
    assert Ids(a + b) == Ids(a) + Ids(b);
    forall i, j | 0 <= i < j < |a + b| ensures Ids(a + b)[i] != Ids(a + b)[j] {
      if i < |a| <= j {
        assert Ids(b)[j - |a|] in Ids(b) && Ids(a)[i] in Ids(a);
      } else if |a| <= i {
        assert Ids(b)[i - |a|] != Ids(b)[j - |a|];
      }
    }
  }

  /** The grafted graph is the static one beside the fragment's, whose entry nodes lead back to the planner. */
  ghost predicate Splits(all: Graph, base: Graph, added: Graph, planner: string) {
    && planner in base
    && (forall n :: n in all <==> n in base || n in added)
    && (forall n | n in base :: n !in added && all[n] == base[n])
    && (forall n | n in added :: all[n] == (if added[n] == [] then [planner] else added[n]))
  }

  lemma GraftedIdsFresh(def: WorkflowDef, planner: string, fragment: seq<StepDef>)
    requires Graftable(def, planner, fragment)
    ensures forall id | id in Ids(Grafted(planner, fragment)) :: id !in Ids(def.steps)
  {
    hide Acyclic, Closed, NoDuplicates;
    var dyn := Grafted(planner, fragment);
    forall i | 0 <= i < |dyn| ensures Ids(dyn)[i] !in Ids(def.steps) {
      assert Ids(dyn)[i] == Qualify(planner, fragment[i].id) && fragment[i] in fragment;
    }
  }

  lemma GraftedUnique(def: WorkflowDef, planner: string, fragment: seq<StepDef>)
    requires WellFormed(def) && Graftable(def, planner, fragment)
    ensures var all := def.steps + Grafted(planner, fragment);
            NoDuplicates(Ids(all)) && Ids(all) == Ids(def.steps) + Ids(Namespaced(planner, fragment))
    ensures NoDuplicates(Ids(Namespaced(planner, fragment)))
  {
    hide Acyclic, Closed;
    GraftedIds(planner, fragment);
    RenamedIds(planner, fragment);
    GraftedIdsFresh(def, planner, fragment);
    JoinedIds(def.steps, Grafted(planner, fragment));
  }

  lemma StaticNode(def: WorkflowDef, dyn: seq<StepDef>, n: string)
    requires NoDuplicates(Ids(def.steps)) && NoDuplicates(Ids(def.steps + dyn)) && n in DepGraph(def.steps)
    ensures n in DepGraph(def.steps + dyn) && DepGraph(def.steps + dyn)[n] == DepGraph(def.steps)[n]
  {
    hide NoDuplicates;
    DepGraphNodes(def.steps);
    var i :| 0 <= i < |def.steps| && Ids(def.steps)[i] == n;
    DepGraphAt(def.steps, i);
    DepGraphAt(def.steps + dyn, i);
  }

  lemma AddedNode(def: WorkflowDef, planner: string, fragment: seq<StepDef>, n: string)
    requires NoDuplicates(Ids(Namespaced(planner, fragment))) &&
        NoDuplicates(Ids(def.steps + Grafted(planner, fragment)))
    requires n in DepGraph(Namespaced(planner, fragment))
    ensures var all, ns := DepGraph(def.steps + Grafted(planner, fragment)), Namespaced(planner, fragment);
            n in all && all[n] == if DepGraph(ns)[n] == [] then [planner] else DepGraph(ns)[n]
  {
    hide NoDuplicates, DepGraph;
    var ns := Namespaced(planner, fragment);
    DepGraphNodes(ns);
    var i :| 0 <= i < |ns| && Ids(ns)[i] == n;
    DepGraphAt(ns, i);
    DepGraphAt(def.steps + WireEntrySteps(planner, ns), |def.steps| + i);
  }

  lemma GraftNodes(def: WorkflowDef, planner: string, fragment: seq<StepDef>)
    requires WellFormed(def) && Graftable(def, planner, fragment)
    ensures var all, base, added := DepGraph(def.steps + Grafted(planner, fragment)), DepGraph(def.steps),
        DepGraph(Namespaced(planner, fragment));
            && planner in base
            && (forall n :: n in all <==> n in base || n in added)
            && (forall n | n in base :: n !in added)
  {
    hide Acyclic, Closed, NoDuplicates, DepGraph, Namespaced, Grafted, QualifyAll, Qualify;
    GraftedUnique(def, planner, fragment);
    GraftedIdsFresh(def, planner, fragment);
    GraftedIds(planner, fragment);
    DepGraphNodes(def.steps + Grafted(planner, fragment));
    DepGraphNodes(def.steps);
    DepGraphNodes(Namespaced(planner, fragment));
  }

  lemma GraftSplits(def: WorkflowDef, planner: string, fragment: seq<StepDef>)
    requires WellFormed(def) && Graftable(def, planner, fragment)
    ensures Splits(DepGraph(def.steps + Grafted(planner, fragment)), DepGraph(def.steps),
                   DepGraph(Namespaced(planner, fragment)), planner)
  {
    hide Acyclic, Closed, NoDuplicates, DepGraph, Namespaced, Grafted, Ids, Graftable;
    GraftedUnique(def, planner, fragment);
    GraftNodes(def, planner, fragment);
    forall n | n in DepGraph(def.steps) { StaticNode(def, Grafted(planner, fragment), n); }
    forall n | n in DepGraph(Namespaced(planner, fragment)) { AddedNode(def, planner, fragment, n); }
  }

  /** A path that reaches a static step never leaves the static steps again. */
  lemma {:induction false} StaticTail(all: Graph, base: Graph, added: Graph, planner: string, p: seq<string>, i: nat,
                                      j: nat)
    requires Splits(all, base, added, planner) && Closed(base) && IsPath(all, p)
    requires i <= j < |p| && p[i] in base
    ensures p[j] in base
    decreases j - i
  {
    if i < j {
      assert p[i + 1] in all[p[i]];
      StaticTail(all, base, added, planner, p, i + 1, j);
    }
  }

  /** A cycle through a static step is a cycle of static steps. */
  lemma StaticCycle(all: Graph, base: Graph, added: Graph, planner: string, p: seq<string>, i: nat)
    requires Splits(all, base, added, planner) && Closed(base) && IsCycle(all, p) && i < |p| && p[i] in base
    ensures IsCycle(base, p)
  {
    StaticTail(all, base, added, planner, p, i, |p| - 1);
    forall j | 0 <= j < |p| ensures p[j] in base {
      StaticTail(all, base, added, planner, p, 0, j);
    }
  }

  lemma AddedCycle(all: Graph, base: Graph, added: Graph, planner: string, p: seq<string>)
    requires Splits(all, base, added, planner) && IsCycle(all, p) && forall i | 0 <= i < |p| :: p[i] !in base
    ensures IsCycle(added, p)
  {
    forall j | 0 <= j < |p| - 1 ensures p[j + 1] in added[p[j]] {
      assert p[j + 1] in all[p[j]];
    }
  }

  lemma SplitAcyclic(all: Graph, base: Graph, added: Graph, planner: string)
    requires Splits(all, base, added, planner) && Closed(base) && Acyclic(base) && Acyclic(added)
    ensures Acyclic(all)
  {
    hide Splits, Closed, IsCycle;
    forall p ensures !IsCycle(all, p) {
      if IsCycle(all, p) {
        if i :| 0 <= i < |p| && p[i] in base {
          StaticCycle(all, base, added, planner, p, i);
        } else {
          AddedCycle(all, base, added, planner, p);
        }
      }
    }
  }

  /** Grafting a sound fragment leaves a sound definition. */
  lemma GraftWellFormed(def: WorkflowDef, planner: string, fragment: seq<StepDef>)
    requires WellFormed(def) && Graftable(def, planner, fragment)
    ensures WellFormed(EffectiveDef(def, Grafted(planner, fragment)))
  {
    var all, base, added := DepGraph(def.steps + Grafted(planner, fragment)), DepGraph(def.steps),
                           DepGraph(Namespaced(planner, fragment));
    GraftedUnique(def, planner, fragment);
    GraftSplits(def, planner, fragment);
    NamespacingPreservesStructure(planner, fragment);
    SplitAcyclic(all, base, added, planner);
    forall n, d | n in all && d in all[n] ensures d in all {
    }
  }

  /** The auxiliary targets a fragment names. They are not renamed with the steps. */
  function FragmentTargets(fragment: seq<StepDef>): set<string> {
    BuildAuxSteps(fragment)
  }

  lemma GraftAux(def: WorkflowDef, planner: string, fragment: seq<StepDef>)
    requires fragment != [] && def.auxSteps == BuildAuxSteps(def.steps)
    ensures EffectiveDef(def, Grafted(planner, fragment)).auxSteps == def.auxSteps + FragmentTargets(fragment)
  {
    var dyn := Grafted(planner, fragment);
    assert forall i | 0 <= i < |fragment| ::
        dyn[i] in dyn && fragment[i] in fragment &&
        dyn[i].onFailure == fragment[i].onFailure && dyn[i].compensate == fragment[i].compensate;
    assert BuildAuxSteps(dyn) == FragmentTargets(fragment);
    AuxConcat(def.steps, dyn);
  }

  lemma AuxConcat(a: seq<StepDef>, b: seq<StepDef>)
    ensures BuildAuxSteps(a + b) == BuildAuxSteps(a) + BuildAuxSteps(b)
  {
  }

  lemma StepListed(steps: seq<StepDef>, s: StepDef)
    requires s in steps
    ensures s.id in Ids(steps)
  {
    var i :| 0 <= i < |steps| && steps[i] == s;
    assert Ids(steps)[i] == s.id;
  }

  lemma FragmentDepNamed(fragment: seq<StepDef>, i: nat, k: nat)
    requires Closed(DepGraph(fragment)) && i < |fragment| && k < |fragment[i].dependsOn|
    ensures exists j :: 0 <= j < |fragment| && fragment[j].id == fragment[i].dependsOn[k]
  {
    hide DepGraph, Closed;
    DepsNamed(fragment);
    var d := fragment[i].dependsOn[k];
    assert fragment[i] in fragment && d in fragment[i].dependsOn && d in Ids(fragment);
    var j :| 0 <= j < |fragment| && Ids(fragment)[j] == d;
    assert fragment[j].id == fragment[i].dependsOn[k];
  }

  lemma GraftedLength(def: WorkflowDef, planner: string, fragment: seq<StepDef>)
    requires Graftable(def, planner, fragment)
    ensures fragment != [] && |Grafted(planner, fragment)| == |fragment|
  {
  }

  lemma QualifiedDepFresh(def: WorkflowDef, planner: string, fragment: seq<StepDef>, i: nat, d: string)
    requires Graftable(def, planner, fragment) && i < |fragment| && d in fragment[i].dependsOn
    ensures Qualify(planner, d) !in Ids(def.steps) && Qualify(planner, d) in Ids(Grafted(planner, fragment))
  {
    hide Acyclic, Closed, NoDuplicates;
    var k :| 0 <= k < |fragment[i].dependsOn| && fragment[i].dependsOn[k] == d;
    FragmentDepNamed(fragment, i, k);
    var j :| 0 <= j < |fragment| && fragment[j].id == d;
    assert fragment[j] in fragment;
    assert Ids(Grafted(planner, fragment))[j] == Qualify(planner, d);
  }

  /**
   A grafted step is the fragment's under its qualified ID and as a normal step. It
   waits on the planner if it is an entry step, and on qualified IDs otherwise.
   */
  lemma GraftedStep(planner: string, fragment: seq<StepDef>, i: nat)
    requires i < |fragment|
    ensures var s, x := Grafted(planner, fragment)[i], fragment[i];
            && s in Grafted(planner, fragment) && x in fragment
            && s == x.(id := Qualify(planner, x.id), stepType := Normal, dependsOn := s.dependsOn)
            && (x.dependsOn == [] ==> s.dependsOn == [planner])
            && (x.dependsOn != [] ==> s.dependsOn == QualifyAll(planner, x.dependsOn))
  {
  }

  /**
   An entry step's planner, or the dependencies of any other fragment step, are
   not auxiliary steps still to be triggered.
   */
  predicate FragmentStepFlows(def: WorkflowDef, planner: string, targets: set<string>, run: Run, x: StepDef) {
    if x.dependsOn == [] then planner in def.auxSteps + targets ==> !StatusOf(run, planner).Pending?
    else forall d | d in x.dependsOn :: Qualify(planner, d) !in targets
  }

  /**
   What the graft must respect, in terms of the definition, the run and the raw
   fragment: no static step still to start waits on a step that is, or that the
   fragment makes, an auxiliary one still to be triggered; and the same for the
   fragment's own steps under their qualified IDs.
   */
  predicate GraftFlows(def: WorkflowDef, planner: string, fragment: seq<StepDef>, run: Run) {
    var targets := FragmentTargets(fragment);
    && (forall s, d | s in def.steps && s.id !in def.auxSteps + targets && StatusOf(run, s.id).Pending? &&
         d in s.dependsOn ::
          d in def.auxSteps + targets ==> !StatusOf(run, d).Pending?)
    && (forall x | x in fragment && Qualify(planner, x.id) !in targets ::
         FragmentStepFlows(def, planner, targets, run, x))
  }

  /** No step that is auxiliary after the graft has a skip condition. */
  predicate NoTargetSkip(def: WorkflowDef, planner: string, fragment: seq<StepDef>) {
    var targets := FragmentTargets(fragment);
    && (forall s | s in def.steps && s.id in def.auxSteps + targets :: s.skipIf.None?)
    && (forall x | x in fragment && Qualify(planner, x.id) in targets :: x.skipIf.None?)
  }

  lemma GraftedStepFlows(def: WorkflowDef, planner: string, fragment: seq<StepDef>, run: Run, run': Run, i: nat)
    requires Graftable(def, planner, fragment) && i < |fragment|
    requires forall id | id in def.auxSteps :: id in Ids(def.steps)
    requires forall id | id in Ids(def.steps) :: StatusOf(run', id) == StatusOf(run, id)
    requires forall s | s in Grafted(planner, fragment) :: StatusOf(run', s.id) == Pending
    ensures var targets, s := FragmentTargets(fragment), Grafted(planner, fragment)[i];
            && (s.id in def.auxSteps + targets <==> Qualify(planner, fragment[i].id) in targets)
            && (FragmentStepFlows(def, planner, targets, run, fragment[i]) <==>
                forall d | d in s.dependsOn :: d in def.auxSteps + targets ==> !StatusOf(run', d).Pending?)
  {
    hide Grafted, QualifyAll, Qualify, StatusOf, FragmentTargets;
    GraftedLength(def, planner, fragment);
    var s, x := Grafted(planner, fragment)[i], fragment[i];
    GraftedStep(planner, fragment, i);
    if x.dependsOn != [] {
      forall d | d in x.dependsOn
        ensures Qualify(planner, d) in s.dependsOn && Qualify(planner, d) !in def.auxSteps
        ensures StatusOf(run', Qualify(planner, d)).Pending?
      {
        QualifiedDepFresh(def, planner, fragment, i, d);
        QualifiedIn(planner, x.dependsOn, d);
        PendingById(planner, fragment, run', Qualify(planner, d));
      }
      forall q | q in s.dependsOn ensures exists d :: d in x.dependsOn && Qualify(planner, d) == q {
        QualifiedFrom(planner, x.dependsOn, q);
      }
    }
  }

  lemma QualifiedIn(planner: string, ids: seq<string>, d: string)
    requires d in ids
    ensures Qualify(planner, d) in QualifyAll(planner, ids)
  {
    var k :| 0 <= k < |ids| && ids[k] == d;
    assert QualifyAll(planner, ids)[k] == Qualify(planner, d);
  }

  lemma QualifiedFrom(planner: string, ids: seq<string>, q: string)
    requires q in QualifyAll(planner, ids)
    ensures exists d :: d in ids && Qualify(planner, d) == q
  {
    var k :| 0 <= k < |ids| && QualifyAll(planner, ids)[k] == q;
    assert ids[k] in ids && Qualify(planner, ids[k]) == q;
  }

  lemma PendingById(planner: string, fragment: seq<StepDef>, run: Run, id: string)
    requires id in Ids(Grafted(planner, fragment))
    requires forall s | s in Grafted(planner, fragment) :: StatusOf(run, s.id) == Pending
    ensures StatusOf(run, id) == Pending
  {
    var dyn := Grafted(planner, fragment);
    var i :| 0 <= i < |dyn| && Ids(dyn)[i] == id;
    assert dyn[i] in dyn;
  }

  lemma StaticStepStatuses(def: WorkflowDef, run: Run, run': Run, s: StepDef)
    requires WellFormed(def) && s in def.steps
    requires forall id | id in Ids(def.steps) :: StatusOf(run', id) == StatusOf(run, id)
    ensures StatusOf(run', s.id) == StatusOf(run, s.id)
    ensures forall d | d in s.dependsOn :: StatusOf(run', d) == StatusOf(run, d)
  {
    hide Acyclic, NoDuplicates, StatusOf;
    StepListed(def.steps, s);
    DepsNamed(def.steps);
  }

  /** A step of the augmented definition that is normal and still to start waits on nothing still to be triggered. */
  predicate Flows(aux: set<string>, run: Run, s: StepDef) {
    s.id !in aux && StatusOf(run, s.id).Pending? ==>
      forall d | d in s.dependsOn :: d in aux ==> !StatusOf(run, d).Pending?
  }

  lemma GraftFlowBySteps(def: WorkflowDef, dyn: seq<StepDef>, run: Run)
    requires dyn != []
    ensures var e := EffectiveDef(def, dyn);
            FlowClear(e, run) <==>
            (forall s | s in def.steps :: Flows(e.auxSteps, run, s)) && forall i | 0 <= i < |dyn| ::
              Flows(e.auxSteps, run, dyn[i])
  {
    hide StatusOf, BuildAuxSteps;
    var e := EffectiveDef(def, dyn);
    assert forall s :: s in e.steps <==> s in def.steps || s in dyn;
    if FlowClear(e, run) {
      forall i | 0 <= i < |dyn| ensures Flows(e.auxSteps, run, dyn[i]) { assert dyn[i] in e.steps; }
    }
  }

  lemma GraftFlowIff(def: WorkflowDef, planner: string, fragment: seq<StepDef>, run: Run, run': Run)
    requires WellFormed(def) && Graftable(def, planner, fragment)
    requires def.auxSteps == BuildAuxSteps(def.steps) && forall id | id in def.auxSteps :: id in Ids(def.steps)
    requires forall id | id in Ids(def.steps) :: StatusOf(run', id) == StatusOf(run, id)
    requires forall s | s in Grafted(planner, fragment) :: StatusOf(run', s.id) == Pending
    ensures FlowClear(EffectiveDef(def, Grafted(planner, fragment)), run') <==> GraftFlows(def, planner, fragment, run)
  {
    hide WellFormed, Graftable, BuildAuxSteps, Grafted, FragmentTargets, FragmentStepFlows, Ids, StatusOf,
      EffectiveDef, FlowClear;
    var targets, dyn := FragmentTargets(fragment), Grafted(planner, fragment);
    var aux := def.auxSteps + targets;
    GraftedLength(def, planner, fragment);
    GraftAux(def, planner, fragment);
    GraftFlowBySteps(def, dyn, run');
    forall s | s in def.steps
      ensures Flows(aux, run', s) <==> Flows(aux, run, s)
    {
      StaticStepStatuses(def, run, run', s);
    }
    forall i | 0 <= i < |dyn|
      ensures Flows(aux, run', dyn[i]) <==>
              (Qualify(planner, fragment[i].id) !in targets ==>
                FragmentStepFlows(def, planner, targets, run, fragment[i]))
    {
      assert dyn[i] in dyn;
      GraftedStepFlows(def, planner, fragment, run, run', i);
    }
    assert forall x :: x in fragment <==> exists i :: 0 <= i < |fragment| && fragment[i] == x;
  }

  /**
   When grafting leaves a definition with no normal step waiting on an auxiliary
   one: a condition on the definition, the planner and the raw fragment. The
   targets are raw names, so they reach static steps.
   */
  lemma GraftKeepsFlowIff(def: WorkflowDef, planner: string, fragment: seq<StepDef>)
    requires WellFormed(def) && Graftable(def, planner, fragment)
    requires def.auxSteps == BuildAuxSteps(def.steps) && forall id | id in def.auxSteps :: id in Ids(def.steps)
    ensures NoAuxDeps(EffectiveDef(def, Grafted(planner, fragment))) <==> GraftFlows(def, planner, fragment, map[])
  {
    hide WellFormed, Graftable, BuildAuxSteps, Grafted, EffectiveDef, GraftFlows, Ids;
    GraftFlowIff(def, planner, fragment, map[], map[]);
  }

  /** The run after the fragment's steps were recorded as pending. */
  function WithPending(run: Run, ids: seq<string>): Run {
    run + map id | id in ids :: Pending
  }

  lemma PendingElsewhere(def: WorkflowDef, planner: string, fragment: seq<StepDef>, run: Run)
    requires Graftable(def, planner, fragment)
    ensures var run' := WithPending(run, Ids(Grafted(planner, fragment)));
            && (forall id | id in Ids(def.steps) :: StatusOf(run', id) == StatusOf(run, id))
            && (forall s | s in Grafted(planner, fragment) :: StatusOf(run', s.id) == Pending)
  {
    var dyn := Grafted(planner, fragment);
    GraftedIdsFresh(def, planner, fragment);
    forall s | s in dyn ensures s.id in Ids(dyn) {
      var i :| 0 <= i < |dyn| && dyn[i] == s;
      assert Ids(dyn)[i] == s.id;
    }
  }

  /** Pending newcomers and new auxiliary names disturb neither the dependency invariant nor the absence of trouble. */
  lemma PendingKeepsRun(def: WorkflowDef, dyn: seq<StepDef>, run: Run, run': Run)
    requires WellFormed(def) && def.auxSteps <= EffectiveDef(def, dyn).auxSteps
    requires forall id | id in Ids(def.steps) :: StatusOf(run', id) == StatusOf(run, id)
    requires forall s | s in dyn :: StatusOf(run', s.id) == Pending
    ensures DependencyClosed(def, run) ==> DependencyClosed(EffectiveDef(def, dyn), run')
    ensures Untroubled(def, run) ==> Untroubled(EffectiveDef(def, dyn), run')
  {
    hide WellFormed, Ids;
    forall s | s in def.steps
      ensures StatusOf(run', s.id) == StatusOf(run, s.id)
      ensures DepsCompleted(s.dependsOn, CompletedSet(run)) ==> DepsCompleted(s.dependsOn, CompletedSet(run'))
    {
      StaticStepStatuses(def, run, run', s);
      assert forall d | d in s.dependsOn :: d in CompletedSet(run) ==> d in CompletedSet(run');
    }
  }

  lemma GraftSkips(def: WorkflowDef, planner: string, fragment: seq<StepDef>)
    requires Graftable(def, planner, fragment) && NoTargetSkip(def, planner, fragment)
    requires def.auxSteps == BuildAuxSteps(def.steps) && forall id | id in def.auxSteps :: id in Ids(def.steps)
    ensures NoAuxSkip(EffectiveDef(def, Grafted(planner, fragment)))
  {
    hide Acyclic, Closed, NoDuplicates, BuildAuxSteps, FragmentTargets;
    var dyn := Grafted(planner, fragment);
    GraftAux(def, planner, fragment);
    forall i | 0 <= i < |dyn| ensures dyn[i].id in def.auxSteps + FragmentTargets(fragment) ==> dyn[i].skipIf.None? {
      GraftedStep(planner, fragment, i);
    }
  }

  // ---------------------------------------------------------------- skip conditions

  /** The static definition with the fragment's targets among its auxiliary steps. */
  function Widened(def: WorkflowDef, fragment: seq<StepDef>): WorkflowDef {
    def.(auxSteps := def.auxSteps + FragmentTargets(fragment))
  }

  /**
   A chain of fragment steps, each waiting on the next, that ends in a target
   without a skip condition, or in an entry step of a planner that is itself stuck.
   */
  ghost predicate FragmentStuckVia(def: WorkflowDef, planner: string, fragment: seq<StepDef>, run: Run,
                                   p: seq<string>) {
    && IsPath(DepGraph(fragment), p)
    && var last := p[|p| - 1];
       || TargetedUnstartable(planner, fragment, last)
       || (DepGraph(fragment)[last] == [] && Stuck(Widened(def, fragment), run, planner))
  }

  ghost predicate TargetedUnstartable(planner: string, fragment: seq<StepDef>, id: string) {
    Qualify(planner, id) in FragmentTargets(fragment) && forall x | x in fragment && x.id == id :: x.skipIf.None?
  }

  ghost predicate FragmentStuck(def: WorkflowDef, planner: string, fragment: seq<StepDef>, run: Run, id: string) {
    exists p :: FragmentStuckVia(def, planner, fragment, run, p) && p != [] && p[0] == id
  }

  /** No normal step of the definition or of the raw fragment is stuck. */
  ghost predicate NoneStuck(def: WorkflowDef, planner: string, fragment: seq<StepDef>, run: Run) {
    var targets := FragmentTargets(fragment);
    && (forall s | s in def.steps && s.id !in def.auxSteps + targets :: !Stuck(Widened(def, fragment), run, s.id))
    && (forall x | x in fragment && Qualify(planner, x.id) !in targets ::
          !FragmentStuck(def, planner, fragment, run, x.id))
  }

  lemma BasePath(all: Graph, base: Graph, added: Graph, planner: string, p: seq<string>)
    requires Splits(all, base, added, planner) && Closed(base) && p != [] && p[0] in base
    ensures IsPath(all, p) <==> IsPath(base, p)
  {
    if IsPath(all, p) {
      forall i | 0 <= i < |p| ensures p[i] in base { StaticTail(all, base, added, planner, p, 0, i); }
      assert forall i | 0 <= i < |p| - 1 :: p[i + 1] in all[p[i]] && all[p[i]] == base[p[i]];
    }
  }

  /** A path from an added node stays among the added nodes, or leaves them at an entry node for the planner. */
  lemma {:induction false} SplitPath(all: Graph, base: Graph, added: Graph, planner: string, q: seq<string>)
    returns (k: nat)
    requires Splits(all, base, added, planner) && Closed(base) && Closed(added) && IsPath(all, q) && q[0] in added
    ensures q != [] && 0 < k <= |q| && IsPath(added, q[..k])
    ensures k < |q| ==> added[q[k - 1]] == [] && q[k] == planner && IsPath(base, q[k..])
    decreases |q|
  {
    hide IsPath, Splits, Closed;
    k := 1;
    FirstStep(all, base, added, planner, q);
    if |q| > 1 {
      if added[q[0]] == [] {
        BasePath(all, base, added, planner, q[1..]);
      } else {
        var m := SplitPath(all, base, added, planner, q[1..]);
        k := m + 1;
        assert q[..k] == [q[0]] + q[1..][..m] && q[k..] == q[1..][m..];
        ExtendPath(added, q[0], q[1..][..m]);
      }
    }
  }

  lemma FirstStep(all: Graph, base: Graph, added: Graph, planner: string, q: seq<string>)
    requires Splits(all, base, added, planner) && Closed(added) && IsPath(all, q) && q[0] in added
    ensures q != [] && IsPath(added, q[..1]) && planner in base
    ensures |q| > 1 ==>
              IsPath(all, q[1..])
              && if added[q[0]] == [] then q[1] == planner else q[1] in added && q[1] in added[q[0]]
  {
    if |q| > 1 {
      assert q[1] in all[q[0]];
      SubPath(all, q, 1, |q|);
      assert q[1..|q|] == q[1..];
    }
  }

  lemma JoinPath(all: Graph, base: Graph, added: Graph, planner: string, q: seq<string>, r: seq<string>)
    requires Splits(all, base, added, planner) && IsPath(added, q)
    requires r != [] ==> added[q[|q| - 1]] == [] && IsPath(base, r) && r[0] == planner
    ensures IsPath(all, q + r)
  {
    var p := q + r;
    forall i | 0 <= i < |p| - 1 ensures p[i + 1] in all[p[i]] {
      if i < |q| - 1 {
        assert q[i + 1] in added[q[i]];
      } else if i >= |q| {
        assert r[i - |q| + 1] in base[r[i - |q|]];
      }
    }
  }

  /** The run before a graft and the run after it: the same statuses, and the fragment's steps pending. */
  ghost predicate GraftedRun(def: WorkflowDef, planner: string, fragment: seq<StepDef>, run: Run, run': Run) {
    && WellFormed(def) && Graftable(def, planner, fragment)
    && def.auxSteps == BuildAuxSteps(def.steps) && (forall id | id in def.auxSteps :: id in Ids(def.steps))
    && (forall id | id in Ids(def.steps) :: StatusOf(run', id) == StatusOf(run, id))
    && (forall s | s in Grafted(planner, fragment) :: StatusOf(run', s.id) == Pending)
  }

  /** The graphs of a graft. */
  lemma GraftGraphs(def: WorkflowDef, planner: string, fragment: seq<StepDef>)
    requires WellFormed(def) && Graftable(def, planner, fragment)
    ensures var e, ns := EffectiveDef(def, Grafted(planner, fragment)), Namespaced(planner, fragment);
            && e.steps == def.steps + Grafted(planner, fragment)
            && Splits(DepGraph(e.steps), DepGraph(def.steps), DepGraph(ns), planner)
            && RenamesGraph(planner, DepGraph(fragment), DepGraph(ns))
            && Closed(DepGraph(def.steps)) && Closed(DepGraph(ns))
    ensures forall n :: n in DepGraph(def.steps) <==> n in Ids(def.steps)
  {
    hide Acyclic, NoDuplicates, Splits, RenamesGraph, DepGraph, Namespaced, Grafted, IsLongestChain;
    assert |Grafted(planner, fragment)| == |fragment| && fragment != [] by { GraftedLength(def, planner, fragment); }
    GraftSplits(def, planner, fragment);
    NamespacedGraph(planner, fragment);
    NamespacingPreservesStructure(planner, fragment);
    DepGraphNodes(def.steps);
  }

  /** What ends a stuck chain: an auxiliary step that no skip condition can finish. */
  ghost predicate Unstartable(steps: seq<StepDef>, aux: set<string>, id: string) {
    id in aux && forall s | s in steps && s.id == id :: s.skipIf.None?
  }

  lemma UnstartableStatic(def: WorkflowDef, planner: string, fragment: seq<StepDef>, aux: set<string>, id: string)
    requires Graftable(def, planner, fragment) && id in Ids(def.steps)
    ensures Unstartable(def.steps + Grafted(planner, fragment), aux, id) <==> Unstartable(def.steps, aux, id)
  {
    hide Graftable, Grafted;
    GraftedIdsFresh(def, planner, fragment);
    forall s | s in Grafted(planner, fragment) ensures s.id != id { StepListed(Grafted(planner, fragment), s); }
  }

  lemma UnstartableAdded(def: WorkflowDef, planner: string, fragment: seq<StepDef>, id: string)
    requires Graftable(def, planner, fragment) && id in Ids(fragment)
    requires forall a | a in def.auxSteps :: a in Ids(def.steps)
    ensures Unstartable(def.steps + Grafted(planner, fragment), def.auxSteps + FragmentTargets(fragment),
                        Qualify(planner, id)) <==>
            TargetedUnstartable(planner, fragment, id)
  {
    hide Graftable, FragmentTargets, Grafted, Qualify;
    var dyn, q := Grafted(planner, fragment), Qualify(planner, id);
    var k :| 0 <= k < |fragment| && Ids(fragment)[k] == id;
    FreshId(def, planner, fragment, fragment[k]);
    forall s | s in def.steps ensures s.id != q { StepListed(def.steps, s); }
    assert forall s :: s in def.steps + dyn <==> s in def.steps || s in dyn;
    SkipsKept(planner, fragment, id);
  }

  lemma SkipsKept(planner: string, fragment: seq<StepDef>, id: string)
    ensures (forall s | s in Grafted(planner, fragment) && s.id == Qualify(planner, id) :: s.skipIf.None?) <==>
            forall x | x in fragment && x.id == id :: x.skipIf.None?
  {
    hide Qualify, Grafted;
    var dyn, q := Grafted(planner, fragment), Qualify(planner, id);
    assert |dyn| == |fragment| by { GraftedIds(planner, fragment); }
    forall i | 0 <= i < |dyn|
      ensures dyn[i].skipIf == fragment[i].skipIf && (dyn[i].id == q <==> fragment[i].id == id)
    {
      GraftedStep(planner, fragment, i);
      QualifyInjective(planner, fragment[i].id, id);
    }
    forall s | s in dyn && s.id == q ensures exists x :: x in fragment && x.id == id && x.skipIf == s.skipIf {
      var i :| 0 <= i < |dyn| && dyn[i] == s;
      assert fragment[i] in fragment;
    }
    forall x | x in fragment && x.id == id ensures exists s :: s in dyn && s.id == q && s.skipIf == x.skipIf {
      var i :| 0 <= i < |fragment| && fragment[i] == x;
      assert dyn[i] in dyn;
    }
  }

  lemma StaticStuckVia(def: WorkflowDef, planner: string, fragment: seq<StepDef>, run: Run, run': Run, p: seq<string>)
    requires GraftedRun(def, planner, fragment, run, run') && p != [] && p[0] in Ids(def.steps)
    ensures StuckVia(EffectiveDef(def, Grafted(planner, fragment)), run', p) <==>
            StuckVia(Widened(def, fragment), run, p)
  {
    hide WellFormed, Graftable, BuildAuxSteps, Grafted, FragmentTargets, Ids, StatusOf, EffectiveDef, DepGraph, Splits,
      RenamesGraph, Namespaced, Closed;
    var e := EffectiveDef(def, Grafted(planner, fragment));
    assert fragment != [] by { GraftedLength(def, planner, fragment); }
    GraftAux(def, planner, fragment);
    GraftGraphs(def, planner, fragment);
    BasePath(DepGraph(e.steps), DepGraph(def.steps), DepGraph(Namespaced(planner, fragment)), planner, p);
    if IsPath(DepGraph(def.steps), p) {
      UnstartableStatic(def, planner, fragment, e.auxSteps, p[|p| - 1]);
    }
  }

  lemma StaticStuckIff(def: WorkflowDef, planner: string, fragment: seq<StepDef>, run: Run, run': Run, id: string)
    requires GraftedRun(def, planner, fragment, run, run') && id in Ids(def.steps)
    ensures Stuck(EffectiveDef(def, Grafted(planner, fragment)), run', id) <==> Stuck(Widened(def, fragment), run, id)
  {
    hide GraftedRun, StuckVia, EffectiveDef, Grafted, Widened, Ids;
    forall p | p != [] && p[0] == id
      ensures StuckVia(EffectiveDef(def, Grafted(planner, fragment)), run', p) <==>
              StuckVia(Widened(def, fragment), run, p)
    {
      StaticStuckVia(def, planner, fragment, run, run', p);
    }
  }

  lemma PendingAlong(planner: string, fragment: seq<StepDef>, run: Run, p: seq<string>)
    requires forall s | s in Grafted(planner, fragment) :: StatusOf(run, s.id) == Pending
    requires IsPath(DepGraph(fragment), p)
    ensures forall i | 0 <= i < |p| :: p[i] in Ids(fragment) && StatusOf(run, Qualify(planner, p[i])).Pending?
  {
    hide DepGraph, StatusOf, Grafted, Qualify;
    DepGraphNodes(fragment);
    forall i | 0 <= i < |p| ensures p[i] in Ids(fragment) && StatusOf(run, Qualify(planner, p[i])).Pending? {
      assert p[i] in DepGraph(fragment);
      GraftedIds(planner, fragment);
      QualifiedIn(planner, Ids(fragment), p[i]);
      PendingById(planner, fragment, run, Qualify(planner, p[i]));
    }
  }

  /** A stuck fragment step's chain, continued by the planner's if it ends in an entry step. */
  lemma FragmentStuckGoesOn(def: WorkflowDef, planner: string, fragment: seq<StepDef>, run: Run, run': Run,
                            p: seq<string>) returns (q: seq<string>)
    requires GraftedRun(def, planner, fragment, run, run') && FragmentStuckVia(def, planner, fragment, run, p)
    ensures StuckVia(EffectiveDef(def, Grafted(planner, fragment)), run', q)
    ensures q != [] && p != [] && q[0] == Qualify(planner, p[0])
  {
    hide WellFormed, BuildAuxSteps, Grafted, FragmentTargets, Ids, StatusOf, EffectiveDef, DepGraph, Splits, Qualify,
      Namespaced, Closed, Graftable, Widened;
    var e, ns := EffectiveDef(def, Grafted(planner, fragment)), Namespaced(planner, fragment);
    var all, base, added := DepGraph(e.steps), DepGraph(def.steps), DepGraph(ns);
    GraftGraphs(def, planner, fragment);
    PathForward(planner, DepGraph(fragment), added, p);
    PendingAlong(planner, fragment, run', p);
    var last := p[|p| - 1];
    q := QualifyAll(planner, p);
    if TargetedUnstartable(planner, fragment, last) {
      JoinPath(all, base, added, planner, q, []);
      assert q + [] == q;
      assert fragment != [] by { GraftedLength(def, planner, fragment); }
      GraftAux(def, planner, fragment);
      UnstartableAdded(def, planner, fragment, last);
    } else {
      var r :| StuckVia(Widened(def, fragment), run, r) && r != [] && r[0] == planner;
      PlannerListed(def, planner, fragment);
      StaticStuckVia(def, planner, fragment, run, run', r);
      BasePath(all, base, added, planner, r);
      JoinPath(all, base, added, planner, q, r);
      q := q + r;
    }
  }

  lemma PlannerListed(def: WorkflowDef, planner: string, fragment: seq<StepDef>)
    requires Graftable(def, planner, fragment)
    ensures planner in Ids(def.steps)
  {
  }

  /** A stuck grafted step's chain is one of the fragment, followed by one of the planner if it leaves the fragment. */
  lemma FragmentStuckComesFrom(def: WorkflowDef, planner: string, fragment: seq<StepDef>, run: Run, run': Run,
                               q: seq<string>) returns (p: seq<string>)
    requires GraftedRun(def, planner, fragment, run, run')
    requires StuckVia(EffectiveDef(def, Grafted(planner, fragment)), run', q)
    requires q[0] in DepGraph(Namespaced(planner, fragment))
    ensures FragmentStuckVia(def, planner, fragment, run, p) && p != [] && Qualify(planner, p[0]) == q[0]
  {
    hide WellFormed, BuildAuxSteps, Grafted, FragmentTargets, Ids, StatusOf, EffectiveDef, DepGraph, Splits, Qualify,
      Namespaced, Closed, Graftable, Widened;
    var e, ns := EffectiveDef(def, Grafted(planner, fragment)), Namespaced(planner, fragment);
    var all, base, added := DepGraph(e.steps), DepGraph(def.steps), DepGraph(ns);
    GraftGraphs(def, planner, fragment);
    var k := SplitPath(all, base, added, planner, q);
    p := PathBack(planner, DepGraph(fragment), added, q[..k]);
    PendingAlong(planner, fragment, run', p);
    var last := p[|p| - 1];
    assert q[..k][k - 1] == Qualify(planner, last) && q[k - 1] == Qualify(planner, last);
    if k == |q| {
      assert fragment != [] by { GraftedLength(def, planner, fragment); }
      GraftAux(def, planner, fragment);
      UnstartableAdded(def, planner, fragment, last);
    } else {
      var r := q[k..];
      PlannerListed(def, planner, fragment);
      BasePath(all, base, added, planner, r);
      assert StuckVia(e, run', r);
      StaticStuckVia(def, planner, fragment, run, run', r);
      assert added[Qualify(planner, last)] == QualifyAll(planner, DepGraph(fragment)[last]);
    }
  }

  lemma FragmentStuckIff(def: WorkflowDef, planner: string, fragment: seq<StepDef>, run: Run, run': Run, id: string)
    requires GraftedRun(def, planner, fragment, run, run') && id in Ids(fragment)
    ensures Stuck(EffectiveDef(def, Grafted(planner, fragment)), run', Qualify(planner, id)) <==>
            FragmentStuck(def, planner, fragment, run, id)
  {
    hide GraftedRun, StuckVia, FragmentStuckVia, EffectiveDef, Grafted, Qualify, DepGraph, Namespaced;
    var e := EffectiveDef(def, Grafted(planner, fragment));
    if p :| FragmentStuckVia(def, planner, fragment, run, p) && p != [] && p[0] == id {
      var q := FragmentStuckGoesOn(def, planner, fragment, run, run', p);
    }
    if q :| StuckVia(e, run', q) && q != [] && q[0] == Qualify(planner, id) {
      NamespacedListed(planner, fragment, id);
      var p := FragmentStuckComesFrom(def, planner, fragment, run, run', q);
      QualifyInjective(planner, p[0], id);
    }
  }

  lemma NamespacedListed(planner: string, fragment: seq<StepDef>, id: string)
    requires id in Ids(fragment)
    ensures Qualify(planner, id) in DepGraph(Namespaced(planner, fragment))
  {
    hide DepGraph, Qualify, Namespaced;
    GraftedIds(planner, fragment);
    QualifiedIn(planner, Ids(fragment), id);
    DepGraphNodes(Namespaced(planner, fragment));
  }

  /** The augmented run's stuck steps, told from the definition, the run and the raw fragment. */
  lemma NoneStuckIff(def: WorkflowDef, planner: string, fragment: seq<StepDef>, run: Run, run': Run)
    requires GraftedRun(def, planner, fragment, run, run')
    ensures var e := EffectiveDef(def, Grafted(planner, fragment));
            (forall s | s in e.steps && s.id !in e.auxSteps :: !Stuck(e, run', s.id)) <==>
            NoneStuck(def, planner, fragment, run)
  {
    hide WellFormed, BuildAuxSteps, Grafted, FragmentTargets, Ids, StatusOf, EffectiveDef, DepGraph, Qualify, Splits,
      Namespaced, Closed, Graftable, Widened, Stuck, FragmentStuck, RenamesGraph;
    var e, dyn, targets := EffectiveDef(def, Grafted(planner, fragment)), Grafted(planner, fragment),
                          FragmentTargets(fragment);
    assert fragment != [] && |dyn| == |fragment| by { GraftedLength(def, planner, fragment); }
    GraftAux(def, planner, fragment);
    GraftGraphs(def, planner, fragment);
    forall s | s in def.steps ensures Stuck(e, run', s.id) <==> Stuck(Widened(def, fragment), run, s.id) {
      StepListed(def.steps, s);
      StaticStuckIff(def, planner, fragment, run, run', s.id);
    }
    forall i | 0 <= i < |dyn|
      ensures dyn[i].id == Qualify(planner, fragment[i].id) && fragment[i] in fragment && dyn[i] in dyn
      ensures Stuck(e, run', dyn[i].id) <==> FragmentStuck(def, planner, fragment, run, fragment[i].id)
      ensures dyn[i].id in e.auxSteps <==> dyn[i].id in targets
    {
      GraftedStep(planner, fragment, i);
      StepListed(fragment, fragment[i]);
      FragmentStuckIff(def, planner, fragment, run, run', fragment[i].id);
      FreshId(def, planner, fragment, fragment[i]);
    }
    assert forall s :: s in e.steps <==> s in def.steps || s in dyn;
  }

  lemma FreshId(def: WorkflowDef, planner: string, fragment: seq<StepDef>, x: StepDef)
    requires Graftable(def, planner, fragment) && x in fragment
    ensures Qualify(planner, x.id) !in Ids(def.steps)
  {
  }

  /**
   A graft in the middle of an untroubled run: nothing already finished or in
   flight is disturbed, the dependency invariant carries over to the augmented
   definition, and the augmented run can be driven to completion without a
   failure exactly when no normal step is stuck, which where no auxiliary step has
   a skip condition is when the graft respects the flow.
   */
  lemma GraftContinuesRun(def: WorkflowDef, planner: string, fragment: seq<StepDef>, run: Run)
    requires WellFormed(def) && Graftable(def, planner, fragment) && Untroubled(def, run)
    requires def.auxSteps == BuildAuxSteps(def.steps) && forall id | id in def.auxSteps :: id in Ids(def.steps)
    ensures var e, run' := EffectiveDef(def, Grafted(planner, fragment)),
        WithPending(run, Ids(Grafted(planner, fragment)));
            && (forall id | id in Ids(def.steps) :: StatusOf(run', id) == StatusOf(run, id))
            && (DependencyClosed(def, run) ==> DependencyClosed(e, run'))
            && (CanCompleteFrom(e, run') <==> NoneStuck(def, planner, fragment, run))
            && (GraftFlows(def, planner, fragment, run) ==> CanCompleteFrom(e, run'))
            && (NoTargetSkip(def, planner, fragment) && CanCompleteFrom(e, run') ==>
                 GraftFlows(def, planner, fragment, run))
  {
    hide WellFormed, DependencyClosed, Untroubled, Grafted, Legal, NoFailure, IsComplete, BuildAuxSteps, GraftFlows,
      NoTargetSkip, FragmentTargets, EffectiveDef, WithPending, Ids, FlowClear, NoAuxSkip, Graftable, Stuck,
      CanCompleteFrom, NoneStuck;
    var dyn := Grafted(planner, fragment);
    var e, run' := EffectiveDef(def, dyn), WithPending(run, Ids(dyn));
    GraftWellFormed(def, planner, fragment);
    assert def.auxSteps <= e.auxSteps by {
      assert fragment != [] by { GraftedLength(def, planner, fragment); }
      GraftAux(def, planner, fragment);
    }
    PendingElsewhere(def, planner, fragment, run);
    PendingKeepsRun(def, dyn, run, run');
    GraftFlowIff(def, planner, fragment, run, run');
    NoneStuckIff(def, planner, fragment, run, run');
    CompletesFromIff(e, run');
    ClearIffUnstuck(e, run');
    if NoTargetSkip(def, planner, fragment) { GraftSkips(def, planner, fragment); }
  }

  // ---------------------------------------------------------------- reapplying a graft

  lemma ListedTwice(a: seq<StepDef>, b: seq<StepDef>, keep: StepDef -> bool, s: StepDef)
    requires s in a && s in b && keep(s)
    ensures multiset(Filter(a + b, keep))[s] >= 2
  {
    FilterConcat(a, b, keep);
    FilterMembers(a, keep);
    FilterMembers(b, keep);
    var fa, fb := Filter(a, keep), Filter(b, keep);
    assert s in multiset(fa) && s in multiset(fb);
    assert multiset(fa + fb) == multiset(fa) + multiset(fb);
  }

  /**
   The engine rebuilds the effective definition from one that is already
   effective, with the whole list of dynamic steps. IDs stay unique exactly when
   no earlier fragment was grafted.
   */
  lemma ReappliedIdsUniqueIff(def: WorkflowDef, earlier: seq<StepDef>, added: seq<StepDef>)
    requires NoDuplicates(Ids(def.steps + earlier + added)) && added != []
    ensures var twice := EffectiveDef(EffectiveDef(def, earlier), earlier + added);
            NoDuplicates(Ids(twice.steps)) <==> earlier == []
  {
    var twice := EffectiveDef(EffectiveDef(def, earlier), earlier + added);
    if earlier == [] {
      assert twice.steps == def.steps + earlier + added;
    } else {
      assert twice.steps == def.steps + earlier + (earlier + added);
      var i := |def.steps|;
      assert Ids(twice.steps)[i] == Ids(twice.steps)[i + |earlier|];
    }
  }

  /** And then every earlier dynamic step that is ready is resolved as ready twice. */
  lemma ReappliedReadyTwice(def: WorkflowDef, earlier: seq<StepDef>, added: seq<StepDef>,
                            completed: set<string>, queued: set<string>, s: StepDef)
    requires s in earlier
    requires IsReady(EffectiveDef(EffectiveDef(def, earlier), earlier + added), completed, queued, s)
    ensures multiset(Ready(EffectiveDef(EffectiveDef(def, earlier), earlier + added), completed, queued))[s] >= 2
  {
    var twice := EffectiveDef(EffectiveDef(def, earlier), earlier + added);
    assert twice.steps == (def.steps + earlier) + (earlier + added);
    ListedTwice(def.steps + earlier, earlier + added, t => IsReady(twice, completed, queued, t), s);
  }
}
