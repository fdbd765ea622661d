/**
 Saga compensation: the chain dag.ResolveCompensateChain promises (dag/resolve.go)
 and the order in which the engine really dispatches it
 (internal/engine/recovery_manager.go).
 */
module Compensation {
  import opened Graphs
  import opened Dag
  import opened Scheduler

  const ZERO_STEP := StepDef("", "", [], Normal, None, "", "", "", 0, 0, map[])

  /** The lookup table of the source: the last step with the ID, or the zero step. */
  function ById(steps: seq<StepDef>, id: string): StepDef {
    if steps == [] then ZERO_STEP
    else if steps[|steps| - 1].id == id then steps[|steps| - 1]
    else ById(steps[..|steps| - 1], id)
  }

  predicate IsCompensable(completed: set<string>, s: StepDef) {
    s.compensate != "" && s.id in completed
  }

  /** Completed steps that have a compensation, in definition order. */
  function Compensable(def: WorkflowDef, completed: set<string>): seq<StepDef> {
    Filter(def.steps, s => IsCompensable(completed, s))
  }

  function Targets(steps: seq<StepDef>): (r: seq<string>)
    ensures |r| == |steps|
    ensures forall i | 0 <= i < |steps| :: r[i] == steps[i].compensate
  {
    seq(|steps|, i requires 0 <= i < |steps| => steps[i].compensate)
  }

  function Reverse<T>(s: seq<T>): (r: seq<T>)
    ensures |r| == |s|
    ensures forall i | 0 <= i < |s| :: r[i] == s[|s| - 1 - i]
  {
    seq(|s|, i requires 0 <= i < |s| => s[|s| - 1 - i])
  }

  /** Every compensation names a step of the definition, and no two steps share one. */
  ghost predicate TargetsDistinct(def: WorkflowDef) {
    && NoDuplicates(Ids(def.steps))
    && (forall s | s in def.steps && s.compensate != "" :: s.compensate in Ids(def.steps))
    && (forall s, t | s in def.steps && t in def.steps && s.compensate != "" && s.compensate == t.compensate :: s == t)
  }

  lemma {:induction false} ByIdFinds(steps: seq<StepDef>, id: string)
    ensures id in Ids(steps) ==> ById(steps, id) in steps && ById(steps, id).id == id
    ensures id !in Ids(steps) ==> ById(steps, id) == ZERO_STEP
    ensures forall i | 0 <= i < |steps| && steps[i].id == id && (forall j | i < j < |steps| :: steps[j].id != id) ::
              ById(steps, id) == steps[i]
  {
    if steps != [] {
      var init := steps[..|steps| - 1];
      ByIdFinds(init, id);
      assert Ids(steps) == Ids(init) + [steps[|steps| - 1].id];
      forall i | 0 <= i < |steps| && steps[i].id == id && (forall j | i < j < |steps| :: steps[j].id != id)
        ensures ById(steps, id) == steps[i]
      {
        if i < |steps| - 1 { assert init[i] == steps[i]; }
      }
    }
  }

  /** Each link waits on the previous one only. */
  function Link(targets: seq<StepDef>, i: nat): StepDef
    requires i < |targets|
  {
    targets[i].(dependsOn := if i == 0 then [] else [targets[i - 1].id])
  }

  function ForwardTargets(def: WorkflowDef, sources: seq<StepDef>): seq<StepDef> {
    seq(|sources|, k requires 0 <= k < |sources| => ById(def.steps, sources[k].compensate))
  }

  /** The compensation chain: the targets in reverse definition order, linked one behind the other. */
  function Chain(def: WorkflowDef, completed: set<string>): seq<StepDef> {
    var targets := Reverse(ForwardTargets(def, Compensable(def, completed)));
    seq(|targets|, i requires 0 <= i < |targets| => Link(targets, i))
  }

  method IndexById(steps: seq<StepDef>) returns (byId: map<string, StepDef>)
    ensures forall id :: (if id in byId then byId[id] else ZERO_STEP) == ById(steps, id)
  {
    byId := map[];
    for i := 0 to |steps|
      invariant forall id :: (if id in byId then byId[id] else ZERO_STEP) == ById(steps[..i], id)
    {
      assert steps[..i + 1][..i] == steps[..i];
      byId := byId[steps[i].id := steps[i]];
    }
    assert steps[..|steps|] == steps;
  }

  method CollectTargets(def: WorkflowDef, completed: set<string>) returns (ordered: seq<StepDef>)
    ensures ordered == ForwardTargets(def, Compensable(def, completed))
  {
    var byId := IndexById(def.steps);
    ordered := [];
    ghost var keep := (s: StepDef) => IsCompensable(completed, s);
    for i := 0 to |def.steps|
      invariant ordered == ForwardTargets(def, Filter(def.steps[..i], keep))
    {
      var step := def.steps[i];
      assert def.steps[..i + 1][..i] == def.steps[..i];
      if step.compensate == "" {
        continue;
      }
      if step.id !in completed {
        continue;
      }
      ordered := ordered + [if step.compensate in byId then byId[step.compensate] else ZERO_STEP];
      assert Filter(def.steps[..i + 1], keep) == Filter(def.steps[..i], keep) + [step];
    }
    assert def.steps[..|def.steps|] == def.steps;
  }

  /** The two-index swap loop. */
  method ReverseInPlace<T>(s: seq<T>) returns (r: seq<T>)
    ensures r == Reverse(s)
  {
    r := s;
    var lo, hi := 0, |r| - 1;
    while lo < hi
      invariant 0 <= lo <= hi + 1 && lo + hi == |r| - 1 && |r| == |s|
      invariant forall k | 0 <= k < lo || hi < k < |r| :: r[k] == s[|s| - 1 - k]
      invariant forall k | lo <= k <= hi :: r[k] == s[k]
    {
      r := r[lo := r[hi]][hi := r[lo]];
      lo, hi := lo + 1, hi - 1;
    }
  }

  method ResolveCompensateChain(def: WorkflowDef, completed: set<string>) returns (chain: seq<StepDef>)
    ensures chain == Chain(def, completed)
  {
    var ordered := CollectTargets(def, completed);
    if |ordered| == 0 {
      return [];
    }
    ordered := ReverseInPlace(ordered);
    chain := [];
    for i := 0 to |ordered|
      invariant |chain| == i
      invariant forall k | 0 <= k < i :: chain[k] == Link(ordered, k)
    {
      var link := ordered[i].(dependsOn := []);
      if i > 0 {
        link := link.(dependsOn := [chain[i - 1].id]);
      }
      chain := chain + [link];
    }
  }

  // ---------------------------------------------------------------- what the chain is

  lemma CompensableFacts(def: WorkflowDef, completed: set<string>)
    requires TargetsDistinct(def)
    ensures var c := Compensable(def, completed);
            && NoDuplicates(c)
            && NoDuplicates(Targets(c))
            && (forall s :: s in c <==> s in def.steps && IsCompensable(completed, s))
            && (forall i | 0 <= i < |c| :: ById(def.steps, c[i].compensate).id == c[i].compensate)
  {
    var keep := (s: StepDef) => IsCompensable(completed, s);
    var c := Compensable(def, completed);
    FilterMembers(def.steps, keep);
    FilterNoDuplicates(def.steps, keep);
    forall i | 0 <= i < |c| ensures ById(def.steps, c[i].compensate).id == c[i].compensate {
      assert c[i] in c;
      ByIdFinds(def.steps, c[i].compensate);
    }
    forall i, j | 0 <= i < j < |c| ensures Targets(c)[i] != Targets(c)[j] {
      assert c[i] in c && c[j] in c && c[i] != c[j];
    }
  }

  lemma {:induction false} FilterNoDuplicates(steps: seq<StepDef>, keep: StepDef -> bool)
    requires NoDuplicates(Ids(steps))
    ensures NoDuplicates(Filter(steps, keep))
  {
    if steps != [] {
      var init, last := steps[..|steps| - 1], steps[|steps| - 1];
      forall i, j | 0 <= i < j < |init| ensures Ids(init)[i] != Ids(init)[j] {
        assert Ids(steps)[i] != Ids(steps)[j];
      }
      FilterNoDuplicates(init, keep);
      FilterMembers(init, keep);
      assert last !in init by {
        forall i | 0 <= i < |init| ensures init[i] != last { assert Ids(steps)[i] != Ids(steps)[|steps| - 1]; }
      }
    }
  }

  /**
   The chain runs exactly the compensations of the completed steps, each once,
   in reverse definition order.
   */
  lemma ChainListsTargetsReversed(def: WorkflowDef, completed: set<string>)
    requires TargetsDistinct(def)
    ensures Ids(Chain(def, completed)) == Reverse(Targets(Compensable(def, completed)))
    ensures NoDuplicates(Ids(Chain(def, completed)))
    ensures forall id :: id in Ids(Chain(def, completed)) <==>
                         exists s :: s in def.steps && s.id in completed && s.compensate != "" && s.compensate == id
  {
    hide Reverse, NoDuplicates, TargetsDistinct;
    ChainIds(def, completed);
    CompensableFacts(def, completed);
    ReverseKeeps(Targets(Compensable(def, completed)));
    hide Chain, Compensable;
    TargetMembers(def, completed);
  }

  lemma ChainIds(def: WorkflowDef, completed: set<string>)
    requires TargetsDistinct(def)
    ensures Ids(Chain(def, completed)) == Reverse(Targets(Compensable(def, completed)))
  {
    CompensableFacts(def, completed);
    hide Compensable, TargetsDistinct, NoDuplicates, ById, IsCompensable;
    var c, ids := Compensable(def, completed), Ids(Chain(def, completed));
    forall i | 0 <= i < |ids| ensures ids[i] == Reverse(Targets(c))[i] {
      assert ById(def.steps, c[|c| - 1 - i].compensate).id == c[|c| - 1 - i].compensate;
    }
  }

  lemma ReverseKeeps<T>(t: seq<T>)
    ensures NoDuplicates(t) ==> NoDuplicates(Reverse(t))
    ensures forall x :: x in Reverse(t) <==> x in t
  {
    var r := Reverse(t);
    if NoDuplicates(t) {
      forall i, j | 0 <= i < j < |r| ensures r[i] != r[j] { assert t[|t| - 1 - j] != t[|t| - 1 - i]; }
    }
    forall x | x in t ensures x in r {
      var k :| 0 <= k < |t| && t[k] == x;
      assert r[|t| - 1 - k] == x;
    }
  }

  lemma TargetMembers(def: WorkflowDef, completed: set<string>)
    requires TargetsDistinct(def)
    ensures forall id :: id in Targets(Compensable(def, completed)) <==>
                         exists s :: s in def.steps && s.id in completed && s.compensate != "" && s.compensate == id
  {
    CompensableFacts(def, completed);
    var c := Compensable(def, completed);
    hide Compensable, TargetsDistinct, NoDuplicates;
    forall id ensures id in Targets(c) <==> exists s ::
      s in def.steps && s.id in completed && s.compensate != "" && s.compensate == id {
      if id in Targets(c) {
        var i :| 0 <= i < |c| && Targets(c)[i] == id;
        assert c[i] in c;
      }
      if s :| s in def.steps && s.id in completed && s.compensate != "" && s.compensate == id {
        assert s in c;
        var k :| 0 <= k < |c| && c[k] == s;
        assert Targets(c)[k] == id;
      }
    }
  }

  lemma LinkAt(def: WorkflowDef, completed: set<string>, i: nat)
    requires i < |Chain(def, completed)|
    ensures var c, chain := Compensable(def, completed), Chain(def, completed);
            && |chain| == |c|
            && chain[i] == ById(def.steps, c[|c| - 1 - i].compensate).(
                 dependsOn := if i == 0 then [] else [chain[i - 1].id])
  {
    hide Compensable, ById;
  }

  /**
   What each link is: the step of the definition that its ID names, waiting on the
   previous link alone, and the first on nothing.
   */
  lemma ChainSteps(def: WorkflowDef, completed: set<string>, i: nat)
    requires TargetsDistinct(def) && i < |Chain(def, completed)|
    ensures var chain := Chain(def, completed);
            && chain[i].dependsOn == (if i == 0 then [] else [chain[i - 1].id])
            && exists t :: t in def.steps && t.id == chain[i].id && chain[i] == t.(dependsOn := chain[i].dependsOn)
  {
    hide Compensable, NoDuplicates, ById, Chain, TargetsDistinct, Ids;
    LinkAt(def, completed, i);
    var c := Compensable(def, completed);
    var s := c[|c| - 1 - i];
    TargetFound(def, completed, s);
    var t := ById(def.steps, s.compensate);
    assert t in def.steps && Chain(def, completed)[i] == t.(dependsOn := Chain(def, completed)[i].dependsOn);
  }

  lemma TargetFound(def: WorkflowDef, completed: set<string>, s: StepDef)
    requires TargetsDistinct(def) && s in Compensable(def, completed)
    ensures ById(def.steps, s.compensate) in def.steps
  {
    hide ById;
    FilterMembers(def.steps, t => IsCompensable(completed, t));
    ByIdFinds(def.steps, s.compensate);
  }

  predicate LinkedAt(steps: seq<StepDef>, j: nat)
    requires j < |steps|
  {
    steps[j].dependsOn == if j == 0 then [] else [steps[j - 1].id]
  }

  /** Each step waits on the one before it, and the first on nothing. */
  ghost predicate Linked(steps: seq<StepDef>) {
    forall j | 0 <= j < |steps| :: LinkedAt(steps, j)
  }

  lemma NodeLink(steps: seq<StepDef>, i: nat, d: string)
    requires NoDuplicates(Ids(steps)) && Linked(steps) && i < |steps|
    requires steps[i].id in DepGraph(steps) && d in DepGraph(steps)[steps[i].id]
    ensures i > 0 && d == steps[i - 1].id
  {
    hide DepGraph, NoDuplicates, Ids;
    DepGraphAt(steps, i);
    assert LinkedAt(steps, i);
  }

  /** A path of linked steps goes back one step at a time. */
  lemma {:induction false} PathGoesBack(steps: seq<StepDef>, p: seq<string>, i: nat, k: nat)
    requires NoDuplicates(Ids(steps)) && Linked(steps) && IsPath(DepGraph(steps), p)
    requires k < |p| && i < |steps| && steps[i].id == p[0]
    ensures k <= i && p[k] == steps[i - k].id
    decreases k
  {
    hide DepGraph, NoDuplicates, Ids, Linked;
    if k > 0 {
      PathGoesBack(steps, p, i, k - 1);
      assert p[k - 1 + 1] in DepGraph(steps)[p[k - 1]];
      NodeLink(steps, i - (k - 1), p[k]);
    }
  }

  lemma LinkedWellFormed(def: WorkflowDef)
    requires NoDuplicates(Ids(def.steps)) && Linked(def.steps)
    ensures WellFormed(def)
  {
    hide DepGraph, Linked, IsPath;
    var steps := def.steps;
    DepGraphNodes(steps);
    forall n, d | n in DepGraph(steps) && d in DepGraph(steps)[n] ensures d in DepGraph(steps) {
      var j := NodeOfSteps(steps, n);
      NodeLink(steps, j, d);
      assert d == Ids(steps)[j - 1];
    }
    forall p ensures !IsCycle(DepGraph(steps), p) {
      if IsCycle(DepGraph(steps), p) { NoCycleBack(steps, p); }
    }
  }

  lemma NoCycleBack(steps: seq<StepDef>, p: seq<string>)
    requires NoDuplicates(Ids(steps)) && Linked(steps) && IsPath(DepGraph(steps), p) && |p| >= 2
    ensures p[0] != p[|p| - 1]
  {
    hide DepGraph, Linked;
    var j := NodeOfSteps(steps, p[0]);
    PathGoesBack(steps, p, j, |p| - 1);
    assert Ids(steps)[j] != Ids(steps)[j - (|p| - 1)];
  }

  lemma ChainWellFormed(def: WorkflowDef, completed: set<string>)
    requires TargetsDistinct(def)
    ensures WellFormed(ChainDef(def, completed))
  {
    hide Chain, TargetsDistinct, WellFormed;
    ChainListsTargetsReversed(def, completed);
    forall j | 0 <= j < |Chain(def, completed)| ensures LinkedAt(Chain(def, completed), j) {
      ChainSteps(def, completed, j);
    }
    LinkedWellFormed(ChainDef(def, completed));
  }

  /** The chain can be driven to completion, from its start and from any untroubled point of its run. */
  lemma ChainCanFinish(def: WorkflowDef, completed: set<string>, run: Run) returns (actions: seq<Action>)
    requires TargetsDistinct(def) && Untroubled(ChainDef(def, completed), run)
    ensures Legal(ChainDef(def, completed), run, actions) && NoFailure(actions)
    ensures forall id | id in Ids(Chain(def, completed)) ::
              id in CompletedSet(After(ChainDef(def, completed), run, actions))
  {
    hide Chain, TargetsDistinct, WellFormed, Untroubled, Legal, NoFailure, After;
    var cd := ChainDef(def, completed);
    ChainWellFormed(def, completed);
    forall s | s in cd.steps && s.id !in cd.auxSteps ensures !Stuck(cd, run, s.id) {}
    actions := CanFinish(cd, run);
    forall id | id in Ids(cd.steps) ensures id in CompletedSet(After(cd, run, actions)) {
      var i :| 0 <= i < |cd.steps| && Ids(cd.steps)[i] == id;
      assert cd.steps[i] in cd.steps;
    }
  }

  /** The chain as a workflow of its own, run by the ordinary resolution. */
  function ChainDef(def: WorkflowDef, completed: set<string>): WorkflowDef {
    WorkflowDef(def.name, Chain(def, completed), {}, 0)
  }

  ghost predicate Runnable(cd: WorkflowDef, run: Run, i: nat)
    requires i < |cd.steps|
  {
    && cd.steps[i].id !in CompletedSet(run)
    && (DepsCompleted(cd.steps[i].dependsOn, CompletedSet(run)) || StatusOf(run, cd.steps[i].id) != Pending)
  }

  lemma {:induction false} EarlierLinksDone(def: WorkflowDef, completed: set<string>, run: Run, i: nat, j: nat)
    requires i < j < |Chain(def, completed)|
    requires DependencyClosed(ChainDef(def, completed), run)
    requires StatusOf(run, Chain(def, completed)[j].id) != Pending ||
             DepsCompleted(Chain(def, completed)[j].dependsOn, CompletedSet(run))
    ensures Chain(def, completed)[i].id in CompletedSet(run)
    decreases j
  {
    var cd := ChainDef(def, completed);
    var chain := cd.steps;
    assert chain[j] in chain;
    assert chain[j].dependsOn == [chain[j - 1].id];
    assert chain[j - 1].id in chain[j].dependsOn;
    if i < j - 1 {
      EarlierLinksDone(def, completed, run, i, j - 1);
    }
  }

  /** Where each step waits on one other at most, a recovery never skips ahead. */
  lemma {:induction false} LinksHarmless(cd: WorkflowDef, run: Run, actions: seq<Action>)
    requires cd.auxSteps == {} && NoDuplicates(Ids(cd.steps)) && Legal(cd, run, actions)
    requires forall s | s in cd.steps :: |s.dependsOn| <= 1
    ensures HarmlessThroughout(cd, run, actions)
    decreases |actions|
  {
    hide Next;
    if actions != [] {
      LinksHarmless(cd, Next(cd, run, actions[0]), actions[1..]);
      LinkHarmless(cd, run, actions[0]);
    }
  }

  lemma LinkHarmless(cd: WorkflowDef, run: Run, a: Action)
    requires cd.auxSteps == {} && NoDuplicates(Ids(cd.steps)) && Enabled(cd, run, a)
    requires forall s | s in cd.steps :: |s.dependsOn| <= 1
    ensures Harmless(cd, run, a)
  {
    if a.Complete? && Recovering(cd, run, a.id).Some? {
      var f := Recovering(cd, run, a.id).value;
      forall s, d | s in cd.steps && s.id in Dragged(cd, run, a.id) && d in s.dependsOn
        ensures d in CompletedSet(run) + {a.id, f.id} + Dragged(cd, run, a.id)
      {
        var run1 := run[a.id := Completed][f.id := Recovered];
        var t :| t in cd.steps && PendingDependent(run1, f.id, t) && t.id == s.id;
        SameStep(cd, s, t);
      }
    }
  }

  lemma RunnableMeans(cd: WorkflowDef, run: Run, i: nat)
    requires i < |cd.steps| && Runnable(cd, run, i)
    ensures cd.steps[i].id !in CompletedSet(run)
    ensures StatusOf(run, cd.steps[i].id) != Pending || DepsCompleted(cd.steps[i].dependsOn, CompletedSet(run))
  {
  }

  /** In every run of the chain at most one compensation is ready or in flight at any time. */
  lemma ChainRunsOneAtATime(def: WorkflowDef, completed: set<string>, actions: seq<Action>, i: nat, j: nat)
    requires TargetsDistinct(def)
    requires Legal(ChainDef(def, completed), map[], actions)
    requires i < |Chain(def, completed)| && j < |Chain(def, completed)|
    requires Runnable(ChainDef(def, completed), After(ChainDef(def, completed), map[], actions), i)
    requires Runnable(ChainDef(def, completed), After(ChainDef(def, completed), map[], actions), j)
    ensures i == j
  {
    hide Runnable, Legal, After, NoDuplicates, TargetsDistinct;
    var cd := ChainDef(def, completed);
    var end := After(cd, map[], actions);
    ChainListsTargetsReversed(def, completed);
    LinksHarmless(cd, map[], actions);
    RunClosedIff(cd, map[], actions);
    RunnableMeans(cd, end, i);
    RunnableMeans(cd, end, j);
    if i < j { EarlierLinksDone(def, completed, end, i, j); }
    if j < i { EarlierLinksDone(def, completed, end, j, i); }
  }

  // ---------------------------------------------------------------- order against dependencies

  ghost predicate DependsOn(def: WorkflowDef, a: string, b: string) {
    exists p :: IsPath(DepGraph(def.steps), p) && |p| >= 2 && p[0] == a && p[|p| - 1] == b
  }

  /** s and t are both compensated, and s depends on t. */
  ghost predicate CompensatedPair(def: WorkflowDef, completed: set<string>, s: StepDef, t: StepDef) {
    && s in def.steps && IsCompensable(completed, s)
    && t in def.steps && IsCompensable(completed, t)
    && DependsOn(def, s.id, t.id)
  }

  predicate CompensatedBefore(def: WorkflowDef, completed: set<string>, s: StepDef, t: StepDef) {
    var ids := Ids(Chain(def, completed));
    s.compensate in ids && t.compensate in ids && IndexOf(ids, s.compensate) < IndexOf(ids, t.compensate)
  }

  /** Every completed step is compensated before the completed steps it transitively depends on. */
  ghost predicate DependentsFirst(def: WorkflowDef, completed: set<string>) {
    forall s, t | CompensatedPair(def, completed, s, t) :: CompensatedBefore(def, completed, s, t)
  }

  /** The definition lists each completed compensable step after those it transitively depends on. */
  ghost predicate ListedAfterDependencies(def: WorkflowDef, completed: set<string>) {
    forall s, t | CompensatedPair(def, completed, s, t) :: DefIndex(def, t) < DefIndex(def, s)
  }

  function DefIndex(def: WorkflowDef, s: StepDef): nat
    requires s in def.steps
  {
    var i :| 0 <= i < |def.steps| && def.steps[i] == s;
    assert Ids(def.steps)[i] == s.id;
    IndexOf(Ids(def.steps), s.id)
  }

  lemma DefIndexAt(def: WorkflowDef, i: nat)
    requires NoDuplicates(Ids(def.steps)) && i < |def.steps|
    ensures DefIndex(def, def.steps[i]) == i
  {
    assert Ids(def.steps)[i] == def.steps[i].id;
  }

  /** Filtering keeps the definition order. */
  lemma {:induction false} FilterKeepsOrder(steps: seq<StepDef>, keep: StepDef -> bool, i: nat, j: nat)
    returns (k: nat, l: nat)
    requires i < j < |Filter(steps, keep)|
    ensures k < l < |steps| && steps[k] == Filter(steps, keep)[i] && steps[l] == Filter(steps, keep)[j]
  {
    var init, last := steps[..|steps| - 1], steps[|steps| - 1];
    if j < |Filter(init, keep)| {
      k, l := FilterKeepsOrder(init, keep, i, j);
    } else {
      l := |steps| - 1;
      FilterMembers(init, keep);
      assert Filter(steps, keep)[i] in Filter(init, keep);
      k :| 0 <= k < |init| && init[k] == Filter(steps, keep)[i];
    }
  }

  lemma ChainPosition(def: WorkflowDef, completed: set<string>, i: nat)
    requires TargetsDistinct(def) && i < |Compensable(def, completed)|
    ensures var ids := Ids(Chain(def, completed));
            var target := Compensable(def, completed)[i].compensate;
            target in ids && IndexOf(ids, target) == |ids| - 1 - i
  {
    hide Chain, Compensable, TargetsDistinct, NoDuplicates, IndexOf;
    ChainListsTargetsReversed(def, completed);
    CompensableFacts(def, completed);
    IndexInReverse(Targets(Compensable(def, completed)), i);
  }

  lemma IndexInReverse(t: seq<string>, i: nat)
    requires NoDuplicates(t) && i < |t|
    ensures t[i] in Reverse(t) && IndexOf(Reverse(t), t[i]) == |t| - 1 - i
  {
    ReverseKeeps(t);
    assert Reverse(t)[|t| - 1 - i] == t[i];
  }

  lemma PositionsMirror(def: WorkflowDef, completed: set<string>, s: StepDef, t: StepDef)
    requires TargetsDistinct(def)
    requires s in def.steps && IsCompensable(completed, s) && t in def.steps && IsCompensable(completed, t)
    ensures CompensatedBefore(def, completed, s, t) <==> DefIndex(def, t) < DefIndex(def, s)
  {
    var c := Compensable(def, completed);
    CompensableFacts(def, completed);
    var i :| 0 <= i < |c| && c[i] == s;
    var j :| 0 <= j < |c| && c[j] == t;
    ChainPosition(def, completed, i);
    ChainPosition(def, completed, j);
    var keep := (s: StepDef) => IsCompensable(completed, s);
    if i < j {
      var k, l := FilterKeepsOrder(def.steps, keep, i, j);
      DefIndexAt(def, k);
      DefIndexAt(def, l);
    } else if j < i {
      var k, l := FilterKeepsOrder(def.steps, keep, j, i);
      DefIndexAt(def, k);
      DefIndexAt(def, l);
    }
  }

  /** Compensation undoes dependents first exactly when the definition lists dependencies first. */
  lemma DependentsFirstIff(def: WorkflowDef, completed: set<string>)
    requires TargetsDistinct(def)
    ensures DependentsFirst(def, completed) <==> ListedAfterDependencies(def, completed)
  {
    hide CompensatedBefore, DefIndex, DependsOn;
    forall s, t | CompensatedPair(def, completed, s, t)
      ensures CompensatedBefore(def, completed, s, t) <==> DefIndex(def, t) < DefIndex(def, s)
    {
      PositionsMirror(def, completed, s, t);
    }
  }

  /** In particular whenever the definition order is topological. */
  lemma TopologicalOrderSuffices(def: WorkflowDef, completed: set<string>)
    requires TargetsDistinct(def) && Topological(DepGraph(def.steps), Ids(def.steps))
    ensures DependentsFirst(def, completed)
  {
    DependentsFirstIff(def, completed);
    forall s, t | CompensatedPair(def, completed, s, t)
      ensures DefIndex(def, t) < DefIndex(def, s)
    {
      var p :| IsPath(DepGraph(def.steps), p) && |p| >= 2 && p[0] == s.id && p[|p| - 1] == t.id;
      PathDescends(DepGraph(def.steps), Ids(def.steps), p);
    }
  }

  /** A dependent listed before its dependency is undone after it. */
  lemma OutOfOrder(def: WorkflowDef, completed: set<string>, i: nat, j: nat)
    requires TargetsDistinct(def) && i < j < |def.steps| && CompensatedPair(def, completed, def.steps[i], def.steps[j])
    ensures !DependentsFirst(def, completed)
  {
    hide DependsOn, DefIndex, CompensatedBefore, DependentsFirst;
    DependentsFirstIff(def, completed);
    DefIndexAt(def, i);
    DefIndexAt(def, j);
  }

  // ---------------------------------------------------------------- the engine's dispatch order

  predicate TargetQueued(run: Run, s: StepDef) {
    s.compensate != "" && StatusOf(run, s.compensate).Queued?
  }

  function QueuedTargets(def: WorkflowDef, run: Run): set<string> {
    set s | s in def.steps && TargetQueued(run, s) :: s.compensate
  }

  /** The compensation published when another one completes: the first queued one in definition order. */
  method NextCompensation(def: WorkflowDef, run: Run) returns (next: Option<string>)
    ensures next == NextQueued(def, run)
    ensures next.Some? <==> exists i :: 0 <= i < |def.steps| && TargetQueued(run, def.steps[i])
    ensures forall i | 0 <= i < |def.steps| && def.steps[i].compensate != ""
                       && StatusOf(run, def.steps[i].compensate).Queued?
                       && (forall j | 0 <= j < i :: !TargetQueued(run, def.steps[j])) ::
              next == Some(def.steps[i].compensate)
  {
    NextIsListedFirst(def, run);
    ghost var keep := (s: StepDef) => TargetQueued(run, s);
    for i := 0 to |def.steps|
      invariant Filter(def.steps[..i], keep) == []
    {
      var step := def.steps[i];
      assert def.steps[..i + 1][..i] == def.steps[..i];
      if step.compensate == "" {
        continue;
      }
      if !StatusOf(run, step.compensate).Queued? {
        continue;
      }
      assert Filter(def.steps[..i + 1], keep) == [step];
      FirstOfPrefix(def.steps, i + 1, keep);
      return Some(step.compensate);
    }
    assert def.steps[..|def.steps|] == def.steps;
    next := None;
  }

  function NextQueued(def: WorkflowDef, run: Run): Option<string> {
    var queued := Filter(def.steps, s => TargetQueued(run, s));
    if queued == [] then None else Some(queued[0].compensate)
  }

  lemma NextIsListedFirst(def: WorkflowDef, run: Run)
    ensures NextQueued(def, run).Some? <==> exists i :: 0 <= i < |def.steps| && TargetQueued(run, def.steps[i])
    ensures forall i | 0 <= i < |def.steps| && TargetQueued(run, def.steps[i])
                       && (forall j | 0 <= j < i :: !TargetQueued(run, def.steps[j])) ::
              NextQueued(def, run) == Some(def.steps[i].compensate)
  {
    var keep := (s: StepDef) => TargetQueued(run, s);
    FilterMembers(def.steps, keep);
    forall i | 0 <= i < |def.steps| && TargetQueued(run, def.steps[i])
               && (forall j | 0 <= j < i :: !TargetQueued(run, def.steps[j]))
      ensures NextQueued(def, run) == Some(def.steps[i].compensate)
    {
      FilterFirst(def.steps, keep, i);
    }
    if NextQueued(def, run).Some? { var k := FilterSome(def.steps, keep); }
    if i :| 0 <= i < |def.steps| && TargetQueued(run, def.steps[i]) {
      assert def.steps[i] in def.steps;
      assert def.steps[i] in Filter(def.steps, keep);
    }
  }

  lemma NextQueuedIsTarget(def: WorkflowDef, run: Run)
    ensures NextQueued(def, run).Some? ==> NextQueued(def, run).value in QueuedTargets(def, run)
  {
    var keep := (s: StepDef) => TargetQueued(run, s);
    FilterMembers(def.steps, keep);
    if Filter(def.steps, keep) != [] {
      assert Filter(def.steps, keep)[0] in Filter(def.steps, keep);
    }
  }

  /** What is dispatched from here on, each completion triggering the next dispatch. */
  function EngineRest(def: WorkflowDef, run: Run): seq<string>
    decreases QueuedTargets(def, run)
  {
    var next := NextQueued(def, run);
    if next.None? then []
    else
      NextQueuedIsTarget(def, run);
      assert QueuedTargets(def, run[next.value := Completed]) < QueuedTargets(def, run) by {
        assert next.value !in QueuedTargets(def, run[next.value := Completed]);
      }
      [next.value] + EngineRest(def, run[next.value := Completed])
  }

  /** All chain steps are marked queued, the chain's head is published, and the rest follow. */
  function EngineOrder(def: WorkflowDef, completed: set<string>, run: Run): seq<string> {
    var ids := Ids(Chain(def, completed));
    if ids == [] then []
    else
      var marked := run + map id | id in ids :: Queued;
      [ids[0]] + EngineRest(def, marked[ids[0] := Completed])
  }

  lemma {:induction false} FilterTwice(steps: seq<StepDef>, p: StepDef -> bool, q: StepDef -> bool)
    requires forall s | s in steps && q(s) :: p(s)
    ensures Filter(Filter(steps, p), q) == Filter(steps, q)
  {
    if steps != [] {
      var init, last := steps[..|steps| - 1], steps[|steps| - 1];
      assert last in steps;
      FilterTwice(init, p, q);
      var fi := Filter(init, p);
      if p(last) {
        assert (fi + [last])[..|fi|] == fi;
      } else {
        assert !q(last) && fi + [] == fi;
      }
    }
  }

  lemma {:induction false} FilterNoneOrAll(steps: seq<StepDef>, p: StepDef -> bool)
    ensures (forall s | s in steps :: !p(s)) ==> Filter(steps, p) == []
    ensures (forall s | s in steps :: p(s)) ==> Filter(steps, p) == steps
  {
    if steps != [] {
      FilterNoneOrAll(steps[..|steps| - 1], p);
      assert steps == steps[..|steps| - 1] + [steps[|steps| - 1]];
    }
  }

  lemma OutsideStretch(c: seq<StepDef>, lo: nat, hi: nat, k: nat)
    requires NoDuplicates(c) && lo <= hi <= |c| && k < |c| && !(lo <= k < hi)
    ensures c[k] !in c[lo..hi]
  {
    forall j | 0 <= j < hi - lo ensures c[lo..hi][j] != c[k] {
      assert c[lo..hi][j] == c[lo + j];
    }
  }

  lemma NoneOutside(c: seq<StepDef>, lo: nat, hi: nat, from: nat, to: nat, q: StepDef -> bool)
    requires lo <= hi <= |c| && NoDuplicates(c)
    requires forall s | s in c :: q(s) <==> s in c[lo..hi]
    requires from <= to <= |c| && (to <= lo || hi <= from)
    ensures Filter(c[from..to], q) == []
  {
    var r := c[from..to];
    forall s | s in r ensures !q(s) {
      var k :| 0 <= k < |r| && r[k] == s;
      assert c[from + k] == s;
      OutsideStretch(c, lo, hi, from + k);
    }
    FilterNoneOrAll(r, q);
  }

  lemma StretchOf(c: seq<StepDef>, lo: nat, hi: nat, q: StepDef -> bool)
    requires lo <= hi <= |c| && NoDuplicates(c)
    requires forall s | s in c :: q(s) <==> s in c[lo..hi]
    ensures Filter(c, q) == c[lo..hi]
  {
    hide NoDuplicates, Filter;
    NoneOutside(c, lo, hi, 0, lo, q);
    NoneOutside(c, lo, hi, hi, |c|, q);
    assert Filter(c[lo..hi], q) == c[lo..hi] by {
      forall s | s in c[lo..hi] ensures q(s) { assert s in c; }
      FilterNoneOrAll(c[lo..hi], q);
    }
    InThree(c, lo, hi, q);
  }

  lemma ThreeParts<T>(c: seq<T>, lo: nat, hi: nat)
    requires lo <= hi <= |c|
    ensures c == c[0..lo] + c[lo..hi] + c[hi..|c|]
  {
  }

  lemma InThree(c: seq<StepDef>, lo: nat, hi: nat, q: StepDef -> bool)
    requires lo <= hi <= |c|
    ensures Filter(c, q) == Filter(c[0..lo], q) + Filter(c[lo..hi], q) + Filter(c[hi..|c|], q)
  {
    hide Filter;
    ThreeParts(c, lo, hi);
    var x, y, z := c[0..lo], c[lo..hi], c[hi..|c|];
    FilterConcat(x + y, z, q);
    FilterConcat(x, y, q);
  }

  /** Selecting a stretch of a filtered list selects that stretch, in order. */
  lemma FilterStretch(steps: seq<StepDef>, keep: StepDef -> bool, lo: nat, hi: nat, q: StepDef -> bool)
    requires lo <= hi <= |Filter(steps, keep)| && NoDuplicates(Filter(steps, keep))
    requires forall s | s in steps :: q(s) <==> s in Filter(steps, keep)[lo..hi]
    ensures Filter(steps, q) == Filter(steps, keep)[lo..hi]
  {
    var c := Filter(steps, keep);
    FilterMembers(steps, keep);
    assert forall s | s in c[lo..hi] :: s in c;
    FilterTwice(steps, keep, q);
    StretchOf(c, lo, hi, q);
  }

  /** Exactly the compensations of this stretch of the completed steps are still queued. */
  ghost predicate QueuedExactly(def: WorkflowDef, run: Run, sources: seq<StepDef>) {
    forall s | s in def.steps :: TargetQueued(run, s) <==> s in sources
  }

  /** The next dispatch is the first of the queued stretch, and its completion shortens the stretch. */
  lemma NextIsFirst(def: WorkflowDef, completed: set<string>, run: Run, lo: nat, hi: nat)
    requires TargetsDistinct(def) && lo <= hi <= |Compensable(def, completed)|
    requires QueuedExactly(def, run, Compensable(def, completed)[lo..hi])
    ensures NextQueued(def, run) == if lo < hi then Some(Compensable(def, completed)[lo].compensate) else None
  {
    hide Filter, TargetsDistinct, NoDuplicates, IsCompensable, TargetQueued;
    CompensableFacts(def, completed);
    FilterStretch(def.steps, s => IsCompensable(completed, s), lo, hi, s => TargetQueued(run, s));
  }

  lemma CompletionShortens(def: WorkflowDef, completed: set<string>, run: Run, lo: nat, hi: nat)
    requires TargetsDistinct(def) && lo < hi <= |Compensable(def, completed)|
    requires QueuedExactly(def, run, Compensable(def, completed)[lo..hi])
    ensures var c := Compensable(def, completed);
            QueuedExactly(def, run[c[lo].compensate := Completed], c[lo + 1..hi])
  {
    var c := Compensable(def, completed);
    CompensableFacts(def, completed);
    var run' := run[c[lo].compensate := Completed];
    hide Compensable, TargetsDistinct, IsCompensable, ById;
    assert c[lo..hi] == [c[lo]] + c[lo + 1..hi];
    forall s | s in def.steps ensures TargetQueued(run', s) <==> s in c[lo + 1..hi] {
      if s.compensate == c[lo].compensate {
        forall j | lo + 1 <= j < hi ensures c[j] != s { assert Targets(c)[j] != Targets(c)[lo]; }
      } else {
        assert TargetQueued(run', s) <==> TargetQueued(run, s);
      }
    }
  }

  lemma {:induction false} RestIsForward(def: WorkflowDef, completed: set<string>, run: Run, lo: nat, hi: nat)
    requires TargetsDistinct(def)
    requires lo <= hi <= |Compensable(def, completed)|
    requires QueuedExactly(def, run, Compensable(def, completed)[lo..hi])
    ensures EngineRest(def, run) == Targets(Compensable(def, completed))[lo..hi]
    decreases hi - lo
  {
    hide TargetsDistinct, Compensable, QueuedExactly, NextQueued, QueuedTargets;
    NextIsFirst(def, completed, run, lo, hi);
    if lo < hi {
      CompletionShortens(def, completed, run, lo, hi);
      RestIsForward(def, completed, run[Compensable(def, completed)[lo].compensate := Completed], lo + 1, hi);
    }
  }

  /** No compensation has been triggered yet. */
  ghost predicate NothingQueued(def: WorkflowDef, run: Run) {
    forall s | s in def.steps :: !TargetQueued(run, s)
  }

  /** After the head of the chain is published, the engine walks the definition forwards. */
  lemma EngineOrderIs(def: WorkflowDef, completed: set<string>, run: Run)
    requires TargetsDistinct(def) && NothingQueued(def, run)
    requires Compensable(def, completed) != []
    ensures var t := Targets(Compensable(def, completed));
            EngineOrder(def, completed, run) == [t[|t| - 1]] + t[..|t| - 1]
  {
    hide Chain, Compensable, ById, NoDuplicates, TargetsDistinct, NothingQueued, TargetQueued, EngineRest;
    var c := Compensable(def, completed);
    var n := |c|;
    CompensableFacts(def, completed);
    ChainListsTargetsReversed(def, completed);
    var ids := Ids(Chain(def, completed));
    var marked := run + map id | id in ids :: Queued;
    var started := marked[ids[0] := Completed];
    forall s | s in def.steps ensures TargetQueued(started, s) <==> s in c[0..n - 1] {
      StillQueued(def, completed, run, s);
    }
    RestIsForward(def, completed, started, 0, n - 1);
    assert Targets(c)[0..n - 1] == Targets(c)[..n - 1];
  }

  lemma StillQueued(def: WorkflowDef, completed: set<string>, run: Run, s: StepDef)
    requires TargetsDistinct(def) && NothingQueued(def, run)
    requires Compensable(def, completed) != [] && s in def.steps
    ensures var c, ids := Compensable(def, completed), Ids(Chain(def, completed));
            |ids| == |c| &&
            (TargetQueued((run + map id | id in ids :: Queued)[ids[0] := Completed], s) <==> s in c[0..|c| - 1])
  {
    var c, ids := Compensable(def, completed), Ids(Chain(def, completed));
    CompensableFacts(def, completed);
    ChainListsTargetsReversed(def, completed);
    assert ids[0] == c[|c| - 1].compensate;
    assert c[|c| - 1] in c;
    hide Chain, Compensable, TargetsDistinct, Ids;
    if s in c[0..|c| - 1] {
      var k :| 0 <= k < |c| - 1 && c[k] == s;
      assert s in c && Targets(c)[k] != Targets(c)[|c| - 1];
      assert s.compensate in ids;
    }
    if s.compensate != "" && s.compensate in ids && s.compensate != ids[0] {
      var t :| t in def.steps && t.id in completed && t.compensate == s.compensate;
      assert s in c;
      var k :| 0 <= k < |c| && c[k] == s;
      assert k != |c| - 1;
      assert c[0..|c| - 1][k] == s;
    }
  }

  lemma RotatedIsReversedIff<T>(t: seq<T>)
    requires NoDuplicates(t) && t != []
    ensures [t[|t| - 1]] + t[..|t| - 1] == Reverse(t) <==> |t| <= 2
  {
    var rotated := [t[|t| - 1]] + t[..|t| - 1];
    if |t| > 2 {
      assert rotated[1] == t[0] && Reverse(t)[1] == t[|t| - 2];
    }
  }

  /** The engine follows the promised chain exactly when at most two steps are compensated. */
  lemma EngineFollowsChainIff(def: WorkflowDef, completed: set<string>, run: Run)
    requires TargetsDistinct(def) && NothingQueued(def, run)
    ensures EngineOrder(def, completed, run) == Ids(Chain(def, completed)) <==> |Compensable(def, completed)| <= 2
  {
    hide Compensable, Chain, EngineOrder, TargetsDistinct, NothingQueued, Ids, Targets, Reverse, NoDuplicates;
    if Compensable(def, completed) == [] {
      NothingToUndo(def, completed, run);
    } else {
      ChainListsTargetsReversed(def, completed);
      EngineOrderIs(def, completed, run);
      CompensableFacts(def, completed);
      RotatedIsReversedIff(Targets(Compensable(def, completed)));
    }
  }

  lemma NothingToUndo(def: WorkflowDef, completed: set<string>, run: Run)
    requires TargetsDistinct(def) && Compensable(def, completed) == []
    ensures EngineOrder(def, completed, run) == [] == Ids(Chain(def, completed))
  {
    ChainListsTargetsReversed(def, completed);
  }

  // ---------------------------------------------------------------- the engine's order against dependencies

  predicate EngineBefore(def: WorkflowDef, completed: set<string>, run: Run, s: StepDef, t: StepDef) {
    var order := EngineOrder(def, completed, run);
    s.compensate in order && t.compensate in order && IndexOf(order, s.compensate) < IndexOf(order, t.compensate)
  }

  /** The engine undoes every compensated step before those it depends on. */
  ghost predicate EngineDependentsFirst(def: WorkflowDef, completed: set<string>, run: Run) {
    forall s, t | CompensatedPair(def, completed, s, t) :: EngineBefore(def, completed, run, s, t)
  }

  /** No compensated step is listed after this one. */
  ghost predicate ListedLast(def: WorkflowDef, completed: set<string>, s: StepDef)
    requires s in def.steps
  {
    forall t | t in def.steps && IsCompensable(completed, t) :: DefIndex(def, t) <= DefIndex(def, s)
  }

  /** The last one listed goes first, and then the others in the order they are listed. */
  predicate Ahead(i: nat, j: nat, n: nat) {
    i != j && (i == n - 1 || (j != n - 1 && i < j))
  }

  lemma RotatedPosition(t: seq<string>, i: nat)
    requires NoDuplicates(t) && i < |t|
    ensures var rotated := [t[|t| - 1]] + t[..|t| - 1];
            t[i] in rotated && IndexOf(rotated, t[i]) == if i == |t| - 1 then 0 else i + 1
  {
    var rotated := [t[|t| - 1]] + t[..|t| - 1];
    var k := if i == |t| - 1 then 0 else i + 1;
    assert rotated[k] == t[i];
    forall a, b | 0 <= a < b < |rotated| ensures rotated[a] != rotated[b] {
      assert rotated[b] == t[b - 1] && (a == 0 || rotated[a] == t[a - 1]);
    }
  }

  lemma EnginePosition(def: WorkflowDef, completed: set<string>, run: Run, i: nat, j: nat)
    requires TargetsDistinct(def) && NothingQueued(def, run)
    requires i < |Compensable(def, completed)| && j < |Compensable(def, completed)|
    ensures var c := Compensable(def, completed);
            EngineBefore(def, completed, run, c[i], c[j]) <==> Ahead(i, j, |c|)
  {
    hide Compensable, EngineOrder, IndexOf, NoDuplicates, TargetsDistinct, NothingQueued;
    EngineOrderIs(def, completed, run);
    CompensableFacts(def, completed);
    RotatedPosition(Targets(Compensable(def, completed)), i);
    RotatedPosition(Targets(Compensable(def, completed)), j);
  }

  /** Positions among the compensated steps follow the definition. */
  lemma ListedOrder(def: WorkflowDef, completed: set<string>, i: nat, j: nat)
    requires TargetsDistinct(def) && i < |Compensable(def, completed)| && j < |Compensable(def, completed)|
    ensures var c := Compensable(def, completed);
            c[i] in def.steps && c[j] in def.steps && (DefIndex(def, c[i]) < DefIndex(def, c[j]) <==> i < j)
  {
    hide DefIndex;
    var keep := (s: StepDef) => IsCompensable(completed, s);
    CompensableFacts(def, completed);
    var c := Compensable(def, completed);
    assert c[i] in c && c[j] in c;
    if i < j {
      var k, l := FilterKeepsOrder(def.steps, keep, i, j);
      DefIndexAt(def, k);
      DefIndexAt(def, l);
    } else if j < i {
      var k, l := FilterKeepsOrder(def.steps, keep, j, i);
      DefIndexAt(def, k);
      DefIndexAt(def, l);
    }
  }

  lemma LastListed(def: WorkflowDef, completed: set<string>, i: nat)
    requires TargetsDistinct(def) && i < |Compensable(def, completed)|
    ensures Compensable(def, completed)[i] in def.steps
    ensures ListedLast(def, completed, Compensable(def, completed)[i]) <==> i == |Compensable(def, completed)| - 1
  {
    hide DefIndex;
    CompensableFacts(def, completed);
    var c := Compensable(def, completed);
    hide Compensable;
    var n := |c|;
    ListedOrder(def, completed, i, n - 1);
    if i == n - 1 {
      forall t | t in def.steps && IsCompensable(completed, t) ensures DefIndex(def, t) <= DefIndex(def, c[i]) {
        assert t in c;
        var k :| 0 <= k < n && c[k] == t;
        ListedOrder(def, completed, i, k);
      }
    } else {
      assert c[n - 1] in c;
    }
  }

  /**
   The engine undoes dependents first exactly when every compensated step that
   depends on another is the last one listed, or is listed before it while the
   other is not the last.
   */
  lemma EngineDependentsFirstIff(def: WorkflowDef, completed: set<string>, run: Run)
    requires TargetsDistinct(def) && NothingQueued(def, run)
    ensures EngineDependentsFirst(def, completed, run) <==>
            forall s, t | CompensatedPair(def, completed, s, t) ::
              s != t && (ListedLast(def, completed, s) ||
                (!ListedLast(def, completed, t) && DefIndex(def, s) < DefIndex(def, t)))
  {
    hide EngineBefore, DefIndex, DependsOn, ListedLast, TargetsDistinct, NothingQueued;
    forall s, t | CompensatedPair(def, completed, s, t)
      ensures EngineBefore(def, completed, run, s, t) <==>
              s != t && (ListedLast(def, completed, s) ||
                (!ListedLast(def, completed, t) && DefIndex(def, s) < DefIndex(def, t)))
    {
      EnginePairOrder(def, completed, run, s, t);
    }
  }

  lemma EnginePairOrder(def: WorkflowDef, completed: set<string>, run: Run, s: StepDef, t: StepDef)
    requires TargetsDistinct(def) && NothingQueued(def, run)
    requires s in def.steps && IsCompensable(completed, s) && t in def.steps && IsCompensable(completed, t)
    ensures EngineBefore(def, completed, run, s, t) <==>
            s != t && (ListedLast(def, completed, s) ||
              (!ListedLast(def, completed, t) && DefIndex(def, s) < DefIndex(def, t)))
  {
    hide EngineBefore, DefIndex, ListedLast, Compensable, TargetsDistinct, NothingQueued;
    var c := Compensable(def, completed);
    CompensableFacts(def, completed);
    var i :| 0 <= i < |c| && c[i] == s;
    var j :| 0 <= j < |c| && c[j] == t;
    EnginePosition(def, completed, run, i, j);
    ListedOrder(def, completed, i, j);
    LastListed(def, completed, i);
    LastListed(def, completed, j);
    assert i == j <==> s == t;
  }
}
