/**
 Ready-step resolution (dag/resolve.go) and the runs the engine drives with it.
 The engine derives the completed and queued sets from step statuses
 (internal/engine/orchestrator.go), marks skipped steps, dispatches ready ones
 and completes or fails what it dispatched; a run is any interleaving of those.
 */
module Scheduler {
  import opened Graphs
  import opened Dag

  // ---------------------------------------------------------------- resolution

  predicate DepsCompleted(deps: seq<string>, completed: set<string>) {
    forall d | d in deps :: d in completed
  }

  predicate IsReady(def: WorkflowDef, completed: set<string>, queued: set<string>, s: StepDef) {
    && s.id !in completed && s.id !in queued
    && s.id !in def.auxSteps
    && DepsCompleted(s.dependsOn, completed)
  }

  /** holds names the steps whose SkipIf condition is true of the current outputs. */
  predicate IsSkippable(completed: set<string>, queued: set<string>, holds: set<string>, s: StepDef) {
    && s.id !in completed && s.id !in queued
    && s.skipIf.Some?
    && DepsCompleted(s.dependsOn, completed)
    && s.id in holds
  }

  function Filter(steps: seq<StepDef>, keep: StepDef -> bool): seq<StepDef> {
    if steps == [] then []
    else
      var last := steps[|steps| - 1];
      Filter(steps[..|steps| - 1], keep) + if keep(last) then [last] else []
  }

  lemma {:induction false} FilterMembers(steps: seq<StepDef>, keep: StepDef -> bool)
    ensures forall s :: s in Filter(steps, keep) <==> s in steps && keep(s)
  {
    if steps != [] {
      FilterMembers(steps[..|steps| - 1], keep);
      assert steps == steps[..|steps| - 1] + [steps[|steps| - 1]];
    }
  }

  lemma {:induction false} FilterConcat(a: seq<StepDef>, b: seq<StepDef>, keep: StepDef -> bool)
    ensures Filter(a + b, keep) == Filter(a, keep) + Filter(b, keep)
  {
    if b == [] {
      assert a + b == a;
    } else {
      FilterConcat(a, b[..|b| - 1], keep);
      assert (a + b)[..|a + b| - 1] == a + b[..|b| - 1];
    }
  }

  function Ready(def: WorkflowDef, completed: set<string>, queued: set<string>): seq<StepDef> {
    Filter(def.steps, s => IsReady(def, completed, queued, s))
  }

  function Skippable(def: WorkflowDef, completed: set<string>, queued: set<string>, holds: set<string>): seq<StepDef> {
    Filter(def.steps, s => IsSkippable(completed, queued, holds, s))
  }

  method ResolveReady(def: WorkflowDef, completed: set<string>, queued: set<string>) returns (ready: seq<StepDef>)
    ensures ready == Ready(def, completed, queued)
    ensures forall s :: s in ready <==>
              && s in def.steps && s.id !in completed && s.id !in queued && s.id !in def.auxSteps
              && forall d | d in s.dependsOn :: d in completed
  {
    ready := [];
    ghost var keep := (s: StepDef) => IsReady(def, completed, queued, s);
    for i := 0 to |def.steps|
      invariant ready == Filter(def.steps[..i], keep)
    {
      var step := def.steps[i];
      assert def.steps[..i + 1][..i] == def.steps[..i];
      if step.id in completed || step.id in queued {
        continue;
      }
      if step.id in def.auxSteps {
        continue;
      }
      if DepsCompleted(step.dependsOn, completed) {
        ready := ready + [step];
      }
    }
    assert def.steps[..|def.steps|] == def.steps;
    FilterMembers(def.steps, keep);
  }

  method ResolveSkipped(def: WorkflowDef, completed: set<string>, queued: set<string>, holds: set<string>)
    returns (skipped: seq<StepDef>)
    ensures skipped == Skippable(def, completed, queued, holds)
    ensures forall s :: s in skipped <==>
              && s in def.steps && s.skipIf.Some? && s.id in holds && s.id !in completed && s.id !in queued
              && forall d | d in s.dependsOn :: d in completed
    ensures forall s | s in skipped && s.id !in def.auxSteps :: s in Ready(def, completed, queued)
  {
    skipped := [];
    ghost var keep := (s: StepDef) => IsSkippable(completed, queued, holds, s);
    for i := 0 to |def.steps|
      invariant skipped == Filter(def.steps[..i], keep)
    {
      var step := def.steps[i];
      assert def.steps[..i + 1][..i] == def.steps[..i];
      if step.id in completed || step.id in queued {
        continue;
      }
      if step.skipIf.None? {
        continue;
      }
      if DepsCompleted(step.dependsOn, completed) {
        if step.id in holds {
          skipped := skipped + [step];
        }
      }
    }
    assert def.steps[..|def.steps|] == def.steps;
    FilterMembers(def.steps, keep);
    FilterMembers(def.steps, s => IsReady(def, completed, queued, s));
  }

  /** Complete: every step is completed, except auxiliary ones that were never triggered. */
  predicate IsComplete(def: WorkflowDef, completed: set<string>) {
    forall s | s in def.steps :: s.id in completed || s.id in def.auxSteps
  }

  // ---------------------------------------------------------------- well-formed definitions

  function BuildAuxSteps(steps: seq<StepDef>): set<string> {
    (set s | s in steps && s.onFailure != "" :: s.onFailure) +
    (set s | s in steps && s.compensate != "" :: s.compensate)
  }

  /** The auxiliary steps are exactly the declared failure handlers and compensations. */
  method CollectAuxSteps(steps: seq<StepDef>) returns (aux: set<string>)
    ensures aux == BuildAuxSteps(steps)
    ensures forall id :: id in aux <==> id != "" && exists s :: s in steps && (s.onFailure == id || s.compensate == id)
  {
    aux := {};
    for i := 0 to |steps|
      invariant aux == BuildAuxSteps(steps[..i])
    {
      assert steps[..i + 1] == steps[..i] + [steps[i]];
      if steps[i].onFailure != "" {
        aux := aux + {steps[i].onFailure};
      }
      if steps[i].compensate != "" {
        aux := aux + {steps[i].compensate};
      }
    }
    assert steps[..|steps|] == steps;
  }

  /** Unique IDs and an acyclic, closed dependency relation: what detectCycle and its siblings establish. */
  ghost predicate WellFormed(def: WorkflowDef) {
    && NoDuplicates(Ids(def.steps))
    && Closed(DepGraph(def.steps))
    && Acyclic(DepGraph(def.steps))
  }

  /** No step of the normal flow waits on a step that only a failure triggers. */
  predicate NoAuxDeps(def: WorkflowDef) {
    forall s, d | s in def.steps && s.id !in def.auxSteps && d in s.dependsOn :: d !in def.auxSteps
  }

  lemma StepNode(def: WorkflowDef, s: StepDef)
    requires NoDuplicates(Ids(def.steps)) && s in def.steps
    ensures s.id in DepGraph(def.steps) && DepGraph(def.steps)[s.id] == s.dependsOn
  {
    var i :| 0 <= i < |def.steps| && def.steps[i] == s;
    DepGraphAt(def.steps, i);
  }

  lemma NodeStep(def: WorkflowDef, n: string) returns (s: StepDef)
    requires NoDuplicates(Ids(def.steps)) && n in DepGraph(def.steps)
    ensures s in def.steps && s.id == n && DepGraph(def.steps)[n] == s.dependsOn
  {
    DepGraphNodes(def.steps);
    var i :| 0 <= i < |def.steps| && Ids(def.steps)[i] == n;
    DepGraphAt(def.steps, i);
    s := def.steps[i];
  }

  /** No unfinished normal step waits on an unfinished auxiliary step. */
  predicate AuxDepsDone(def: WorkflowDef, completed: set<string>) {
    forall s, d | s in def.steps && s.id !in def.auxSteps && s.id !in completed && d in s.dependsOn ::
      d in def.auxSteps ==> d in completed
  }

  /**
   The scheduler is never stuck: while some normal step is unfinished and none is
   in flight, some step is ready.
   */
  lemma NeverStuck(def: WorkflowDef, completed: set<string>, queued: set<string>)
    requires WellFormed(def) && AuxDepsDone(def, completed)
    requires !IsComplete(def, completed)
    requires forall s | s in def.steps && s.id in queued :: s.id in completed
    ensures Ready(def, completed, queued) != []
  {
    var g := DepGraph(def.steps);
    var u := set s | s in def.steps && s.id !in completed && s.id !in def.auxSteps :: s.id;
    var s0 :| s0 in def.steps && s0.id !in completed && s0.id !in def.auxSteps;
    assert s0.id in u;
    FilterMembers(def.steps, s => IsReady(def, completed, queued, s));
    if Ready(def, completed, queued) == [] {
      forall n | n in u ensures n in g && DependsInside(g, u, n) {
        var s :| s in def.steps && s.id == n && s.id !in completed && s.id !in def.auxSteps;
        StepNode(def, s);
        assert !IsReady(def, completed, queued, s);
        var d :| d in s.dependsOn && d !in completed;
        var t := NodeStep(def, d);
        assert d in u;
      }
      StuckSetHasCycle(g, u);
    }
  }

  // ---------------------------------------------------------------- runs

  datatype Status = Pending | Queued | Running | Completed | Failed | Skipped | Cancelled | Recovered

  type Run = map<string, Status>

  function StatusOf(run: Run, id: string): Status {
    if id in run then run[id] else Pending
  }

  predicate InFlight(st: Status) {
    st.Queued? || st.Running?
  }

  function CompletedSet(run: Run): set<string> {
    set id | id in run && (run[id].Completed? || run[id].Skipped? || run[id].Recovered?)
  }

  function QueuedSet(run: Run): set<string> {
    set id | id in run && (InFlight(run[id]) || run[id].Completed? || run[id].Failed? || run[id].Skipped?)
  }

  /**
   One engine action. Complete includes the recovery a completed handler brings
   about, and Trigger is the direct dispatch of a handler or a compensation.
   */
  datatype Action =
    | Dispatch(id: string)
    | Skip(id: string, holds: set<string>)
    | Start(id: string)
    | Complete(id: string)
    | Fail(id: string)
    | Trigger(id: string)

  /** A step has failed that names this handler, or whose failure undoes a completed step with it. */
  predicate Triggered(def: WorkflowDef, run: Run, id: string) {
    exists s | s in def.steps && StatusOf(run, s.id).Failed? ::
      s.onFailure == id || exists t | t in def.steps && t.id in CompletedSet(run) :: t.compensate == id
  }

  ghost predicate Enabled(def: WorkflowDef, run: Run, a: Action) {
    match a
    case Dispatch(id) => id in Ids(Ready(def, CompletedSet(run), QueuedSet(run)))
    case Skip(id, holds) => id in Ids(Skippable(def, CompletedSet(run), QueuedSet(run), holds))
    case Start(id) => StatusOf(run, id) == Queued
    case Complete(id) => InFlight(StatusOf(run, id))
    case Fail(id) => InFlight(StatusOf(run, id))
    case Trigger(id) => id in def.auxSteps && Triggered(def, run, id)
  }

  predicate IsPlanner(def: WorkflowDef, id: string) {
    exists s | s in def.steps :: s.id == id && s.stepType == Planner
  }

  predicate NamesHandler(run: Run, id: string, s: StepDef) {
    s.onFailure == id && StatusOf(run, s.id).Failed?
  }

  /** The failed steps that name this handler, in definition order. */
  function Handled(def: WorkflowDef, run: Run, id: string): seq<StepDef> {
    Filter(def.steps, s => NamesHandler(run, id, s))
  }

  predicate PendingDependent(run: Run, id: string, s: StepDef) {
    id in s.dependsOn && StatusOf(run, s.id).Pending?
  }

  function PendingOn(steps: seq<StepDef>, run: Run, id: string): set<string> {
    set s | s in steps && PendingDependent(run, id, s) :: s.id
  }

  function Skipping(run: Run, ids: set<string>): Run {
    run + map w | w in ids :: Skipped
  }

  /** The first failed step of this handler is recovered, and whatever waits on it is skipped. */
  function AfterRecovery(def: WorkflowDef, run: Run, id: string): Run {
    var failed := Handled(def, run, id);
    if failed == [] then run
    else
      var run1 := run[failed[0].id := Recovered];
      Skipping(run1, PendingOn(def.steps, run1, failed[0].id))
  }

  function Next(def: WorkflowDef, run: Run, a: Action): Run {
    match a
    case Dispatch(id) => run[id := Queued]
    case Skip(id, _) => run[id := Skipped]
    case Start(id) => run[id := Running]
    case Complete(id) =>
      if IsPlanner(def, id) then run[id := Completed] else AfterRecovery(def, run[id := Completed], id)
    case Fail(id) => run[id := Failed]
    case Trigger(id) => run[id := Queued]
  }

  ghost predicate Legal(def: WorkflowDef, run: Run, actions: seq<Action>)
    decreases |actions|
  {
    actions == [] || (Enabled(def, run, actions[0]) && Legal(def, Next(def, run, actions[0]), actions[1..]))
  }

  function After(def: WorkflowDef, run: Run, actions: seq<Action>): Run
    decreases |actions|
  {
    if actions == [] then run else After(def, Next(def, run, actions[0]), actions[1..])
  }

  /** Step k is the first failed step that names this handler. */
  ghost predicate FirstHandled(def: WorkflowDef, run: Run, id: string, k: nat) {
    && k < |def.steps| && def.steps[k].onFailure == id && StatusOf(run, def.steps[k].id).Failed?
    && forall j | 0 <= j < k :: def.steps[j].onFailure != id || !StatusOf(run, def.steps[j].id).Failed?
  }

  /**
   The in-place loop of the recovery: with no failed step of this handler nothing
   changes; otherwise the first one is recovered, its pending dependents are
   skipped, and every other status stays.
   */
  method RecoverIfOnFailure(def: WorkflowDef, run: Run, id: string) returns (r: Run)
    ensures r == AfterRecovery(def, run, id)
    ensures (forall k: nat :: !FirstHandled(def, run, id, k)) ==> r == run
    ensures forall k: nat, x | FirstHandled(def, run, id, k) ::
              StatusOf(r, x) == if x == def.steps[k].id then Recovered
                                else if StatusOf(run, x).Pending?
                                        && (exists s | s in def.steps :: s.id == x && def.steps[k].id in s.dependsOn)
                                then Skipped
                                else StatusOf(run, x)
  {
    RecoveryIs(def, run, id);
    hide FirstHandled;
    ghost var handles := (s: StepDef) => NamesHandler(run, id, s);
    for i := 0 to |def.steps|
      invariant Filter(def.steps[..i], handles) == []
    {
      var step := def.steps[i];
      assert def.steps[..i + 1][..i] == def.steps[..i];
      if step.onFailure == id && StatusOf(run, step.id).Failed? {
        assert Filter(def.steps[..i + 1], handles) == [step];
        FirstOfPrefix(def.steps, i + 1, handles);
        r := SkipDependents(def, run[step.id := Recovered], step.id);
        return;
      }
    }
    assert def.steps[..|def.steps|] == def.steps;
    r := run;
  }

  lemma {:induction false} FilterNone(steps: seq<StepDef>, keep: StepDef -> bool)
    requires forall j | 0 <= j < |steps| :: !keep(steps[j])
    ensures Filter(steps, keep) == []
  {
    if steps != [] { FilterNone(steps[..|steps| - 1], keep); }
  }

  lemma {:induction false} FilterFirst(steps: seq<StepDef>, keep: StepDef -> bool, k: nat)
    requires k < |steps| && keep(steps[k]) && forall j | 0 <= j < k :: !keep(steps[j])
    ensures Filter(steps, keep) != [] && Filter(steps, keep)[0] == steps[k]
  {
    if k == |steps| - 1 {
      FilterNone(steps[..k], keep);
    } else {
      FilterFirst(steps[..|steps| - 1], keep, k);
    }
  }

  lemma {:induction false} FilterSome(steps: seq<StepDef>, keep: StepDef -> bool) returns (k: nat)
    requires Filter(steps, keep) != []
    ensures k < |steps| && keep(steps[k]) && forall j | 0 <= j < k :: !keep(steps[j])
  {
    var init := steps[..|steps| - 1];
    if Filter(init, keep) != [] {
      k := FilterSome(init, keep);
    } else {
      k := |steps| - 1;
      FilterMembers(init, keep);
      forall j | 0 <= j < k ensures !keep(steps[j]) { assert steps[j] == init[j] && init[j] in init; }
    }
  }

  /** What a recovery does, step by step. */
  lemma RecoveryIs(def: WorkflowDef, run: Run, id: string)
    ensures (forall k: nat :: !FirstHandled(def, run, id, k)) ==> AfterRecovery(def, run, id) == run
    ensures forall k: nat, x | FirstHandled(def, run, id, k) ::
              StatusOf(AfterRecovery(def, run, id), x) ==
              if x == def.steps[k].id then Recovered
              else if StatusOf(run, x).Pending?
                      && (exists s | s in def.steps :: s.id == x && def.steps[k].id in s.dependsOn)
              then Skipped
              else StatusOf(run, x)
  {
    var keep := (s: StepDef) => NamesHandler(run, id, s);
    if Handled(def, run, id) != [] {
      var k := FilterSome(def.steps, keep);
      assert FirstHandled(def, run, id, k);
    }
    forall k: nat, x | FirstHandled(def, run, id, k)
      ensures StatusOf(AfterRecovery(def, run, id), x) ==
              if x == def.steps[k].id then Recovered
              else if StatusOf(run, x).Pending?
                      && (exists s | s in def.steps :: s.id == x && def.steps[k].id in s.dependsOn)
              then Skipped
              else StatusOf(run, x)
    {
      FilterFirst(def.steps, keep, k);
      RecoveredFrom(def, run, def.steps[k].id, x);
    }
  }

  lemma RecoveredFrom(def: WorkflowDef, run: Run, f: string, x: string)
    ensures var run1 := run[f := Recovered];
            StatusOf(Skipping(run1, PendingOn(def.steps, run1, f)), x) ==
            if x == f then Recovered
            else if StatusOf(run, x).Pending? && (exists s | s in def.steps :: s.id == x && f in s.dependsOn)
            then Skipped
            else StatusOf(run, x)
  {
  }

  method SkipDependents(def: WorkflowDef, run: Run, id: string) returns (r: Run)
    ensures r == Skipping(run, PendingOn(def.steps, run, id))
  {
    hide PendingOn, Skipping;
    r := run;
    NothingSkipped(run, id);
    for i := 0 to |def.steps|
      invariant r == Skipping(run, PendingOn(def.steps[..i], run, id))
    {
      var s := def.steps[i];
      SkippedMore(def.steps, run, id, i);
      if id in s.dependsOn && StatusOf(r, s.id).Pending? {
        r := r[s.id := Skipped];
      }
    }
    assert def.steps[..|def.steps|] == def.steps;
  }

  lemma NothingSkipped(run: Run, id: string)
    ensures Skipping(run, PendingOn([], run, id)) == run
  {
  }

  /** One more step seen: it is skipped if it is a pending dependent, once. */
  lemma SkippedMore(steps: seq<StepDef>, run: Run, id: string, i: nat)
    requires i < |steps|
    ensures var r, s := Skipping(run, PendingOn(steps[..i], run, id)), steps[i];
            Skipping(run, PendingOn(steps[..i + 1], run, id)) ==
            if id in s.dependsOn && StatusOf(r, s.id).Pending? then r[s.id := Skipped] else r
  {
    assert steps[..i + 1] == steps[..i] + [steps[i]];
    var before, more := PendingOn(steps[..i], run, id), PendingOn(steps[..i + 1], run, id);
    assert more == before + if PendingDependent(run, id, steps[i]) then {steps[i].id} else {};
    SkipOne(run, before, steps[i].id);
  }

  lemma SkipOne(run: Run, ids: set<string>, id: string)
    ensures Skipping(run, ids + {id}) == Skipping(run, ids)[id := Skipped]
    ensures StatusOf(Skipping(run, ids), id).Pending? <==> StatusOf(run, id).Pending? && id !in ids
    ensures id in ids ==> Skipping(run, ids)[id := Skipped] == Skipping(run, ids)
  {
  }

  lemma {:induction false} FirstOfPrefix(steps: seq<StepDef>, n: nat, keep: StepDef -> bool)
    requires n <= |steps| && Filter(steps[..n], keep) != []
    ensures Filter(steps, keep) != [] && Filter(steps, keep)[0] == Filter(steps[..n], keep)[0]
  {
    if n == |steps| {
      assert steps[..n] == steps;
    } else {
      var init := steps[..|steps| - 1];
      assert init[..n] == steps[..n];
      FirstOfPrefix(init, n, keep);
    }
  }

  lemma ReadyId(def: WorkflowDef, completed: set<string>, queued: set<string>, id: string) returns (s: StepDef)
    requires id in Ids(Ready(def, completed, queued))
    ensures s in def.steps && s.id == id && IsReady(def, completed, queued, s)
  {
    var ready := Ready(def, completed, queued);
    var i :| 0 <= i < |ready| && Ids(ready)[i] == id;
    FilterMembers(def.steps, s => IsReady(def, completed, queued, s));
    s := ready[i];
  }

  lemma ReadyEnables(def: WorkflowDef, run: Run, s: StepDef)
    requires s in def.steps && IsReady(def, CompletedSet(run), QueuedSet(run), s)
    ensures Enabled(def, run, Dispatch(s.id))
  {
    var ready := Ready(def, CompletedSet(run), QueuedSet(run));
    FilterMembers(def.steps, s => IsReady(def, CompletedSet(run), QueuedSet(run), s));
    var i :| 0 <= i < |ready| && ready[i] == s;
    assert Ids(ready)[i] == s.id;
  }

  lemma SkippableId(def: WorkflowDef, completed: set<string>, queued: set<string>, holds: set<string>, id: string)
    returns (s: StepDef)
    requires id in Ids(Skippable(def, completed, queued, holds))
    ensures s in def.steps && s.id == id && IsSkippable(completed, queued, holds, s)
  {
    var skipped := Skippable(def, completed, queued, holds);
    var i :| 0 <= i < |skipped| && Ids(skipped)[i] == id;
    FilterMembers(def.steps, s => IsSkippable(completed, queued, holds, s));
    s := skipped[i];
  }

  lemma SameStep(def: WorkflowDef, s: StepDef, t: StepDef)
    requires NoDuplicates(Ids(def.steps)) && s in def.steps && t in def.steps && s.id == t.id
    ensures s == t
  {
    var i :| 0 <= i < |def.steps| && def.steps[i] == s;
    var j :| 0 <= j < |def.steps| && def.steps[j] == t;
    assert Ids(def.steps)[i] == Ids(def.steps)[j];
  }

  // ---------------------------------------------------------------- dependencies over runs

  /** The step that completing this one recovers. */
  function Recovering(def: WorkflowDef, run: Run, id: string): Option<StepDef> {
    var failed := Handled(def, run[id := Completed], id);
    if IsPlanner(def, id) || failed == [] then None else Some(failed[0])
  }

  /** What is skipped with it. */
  function Dragged(def: WorkflowDef, run: Run, id: string): set<string> {
    match Recovering(def, run, id)
    case None => {}
    case Some(f) => PendingOn(def.steps, run[id := Completed][f.id := Recovered], f.id)
  }

  /** What completing a step does: it is done, and at most one failed step is recovered. */
  lemma Completing(def: WorkflowDef, run: Run, id: string)
    requires InFlight(StatusOf(run, id))
    ensures match Recovering(def, run, id)
            case None => Next(def, run, Complete(id)) == run[id := Completed]
            case Some(f) =>
              && f in def.steps && f.onFailure == id && f.id != id && StatusOf(run, f.id).Failed?
              && Next(def, run, Complete(id)) ==
                 Skipping(run[id := Completed][f.id := Recovered], Dragged(def, run, id))
    ensures forall w | w in Dragged(def, run, id) :: StatusOf(run, w).Pending? && w != id
    ensures (forall s | s in def.steps :: !StatusOf(run, s.id).Failed?) ==> Recovering(def, run, id).None?
    ensures Recovering(def, run, id).None? ==> Dragged(def, run, id) == {}
  {
    var run1 := run[id := Completed];
    var failed := Handled(def, run1, id);
    FilterMembers(def.steps, s => NamesHandler(run1, id, s));
    if failed != [] { assert failed[0] in failed; }
  }

  lemma CompletedByCompleting(def: WorkflowDef, run: Run, id: string)
    requires InFlight(StatusOf(run, id))
    ensures CompletedSet(Next(def, run, Complete(id))) == CompletedSet(run) + {id} + Dragged(def, run, id) +
            match Recovering(def, run, id) case None => {} case Some(f) => {f.id}
  {
    Completing(def, run, id);
    hide Next, Dragged, Recovering;
  }

  /** The completed set after a step, for every action. */
  lemma CompletedAfter(def: WorkflowDef, run: Run, a: Action)
    requires Enabled(def, run, a)
    ensures a.Dispatch? || a.Start? || a.Fail? ==> CompletedSet(Next(def, run, a)) == CompletedSet(run)
    ensures a.Skip? ==> CompletedSet(Next(def, run, a)) == CompletedSet(run) + {a.id}
    ensures a.Trigger? ==> CompletedSet(Next(def, run, a)) == CompletedSet(run) - {a.id}
    ensures a.Complete? ==>
              CompletedSet(Next(def, run, a)) == CompletedSet(run) + {a.id} + Dragged(def, run, a.id) +
              match Recovering(def, run, a.id) case None => {} case Some(f) => {f.id}
  {
    hide AfterRecovery, Dragged, Recovering;
    match a {
      case Dispatch(id) => var s := ReadyId(def, CompletedSet(run), QueuedSet(run), id);
      case Complete(id) => CompletedByCompleting(def, run, id);
      case _ =>
    }
  }

  function NormalDone(def: WorkflowDef, run: Run): set<string> {
    CompletedSet(run) - def.auxSteps
  }

  predicate WaitsOnNormal(def: WorkflowDef, s: StepDef) {
    forall d | d in s.dependsOn :: d !in def.auxSteps
  }

  /** A step that has been dispatched: in flight, done, failed or recovered. */
  predicate Dispatched(st: Status) {
    !st.Pending? && !st.Skipped? && !st.Cancelled?
  }

  /** Whatever was dispatched, and waits on normal steps only, has everything it depends on finished. */
  ghost predicate DispatchedClosed(def: WorkflowDef, run: Run) {
    forall s | s in def.steps && s.id !in def.auxSteps && WaitsOnNormal(def, s) && Dispatched(StatusOf(run, s.id)) ::
      DepsCompleted(s.dependsOn, CompletedSet(run))
  }

  /** A step newly dispatched was ready. */
  lemma NewlyDispatched(def: WorkflowDef, run: Run, a: Action, s: StepDef)
    requires NoDuplicates(Ids(def.steps)) && Enabled(def, run, a) && s in def.steps && s.id !in def.auxSteps
    requires Dispatched(StatusOf(Next(def, run, a), s.id)) && !Dispatched(StatusOf(run, s.id))
    ensures DepsCompleted(s.dependsOn, CompletedSet(run))
  {
    match a {
      case Dispatch(id) =>
        var t := ReadyId(def, CompletedSet(run), QueuedSet(run), id);
        SameStep(def, s, t);
      case Complete(id) => Completing(def, run, id);
      case _ =>
    }
  }

  lemma StepKeepsDispatched(def: WorkflowDef, run: Run, a: Action)
    requires NoDuplicates(Ids(def.steps)) && DispatchedClosed(def, run) && Enabled(def, run, a)
    ensures DispatchedClosed(def, Next(def, run, a))
    ensures NormalDone(def, run) <= NormalDone(def, Next(def, run, a))
  {
    hide Next, Enabled;
    var run' := Next(def, run, a);
    assert NormalDone(def, run) <= NormalDone(def, run') by { CompletedAfter(def, run, a); TriggerIsAux(def, run, a); }
    forall s | s in def.steps && s.id !in def.auxSteps && WaitsOnNormal(def, s) && Dispatched(StatusOf(run', s.id))
      ensures DepsCompleted(s.dependsOn, CompletedSet(run'))
    {
      if !Dispatched(StatusOf(run, s.id)) { NewlyDispatched(def, run, a, s); }
      forall d | d in s.dependsOn ensures d in CompletedSet(run') { assert d in NormalDone(def, run); }
    }
  }

  lemma TriggerIsAux(def: WorkflowDef, run: Run, a: Action)
    requires Enabled(def, run, a)
    ensures a.Trigger? ==> a.id in def.auxSteps
  {
  }

  /**
   Over every run, failures, recoveries and re-queued handlers included: a
   completed normal step stays completed, and a dispatched one that waits on
   normal steps has everything it depends on finished.
   */
  lemma {:induction false} RunKeepsDependencies(def: WorkflowDef, run: Run, actions: seq<Action>)
    requires NoDuplicates(Ids(def.steps)) && DispatchedClosed(def, run) && Legal(def, run, actions)
    ensures DispatchedClosed(def, After(def, run, actions))
    ensures NormalDone(def, run) <= NormalDone(def, After(def, run, actions))
    decreases |actions|
  {
    hide Next, Enabled, DispatchedClosed, NormalDone;
    if actions != [] {
      StepKeepsDispatched(def, run, actions[0]);
      RunKeepsDependencies(def, Next(def, run, actions[0]), actions[1..]);
    }
  }

  // ---------------------------------------------------------------- when steps move

  predicate Finished(st: Status) {
    st.Completed? || st.Skipped? || st.Recovered?
  }

  /** A step with this ID is neither started nor finished, and everything it waits on has finished. */
  ghost predicate Waiting(def: WorkflowDef, run: Run, s: StepDef) {
    && s in def.steps && (StatusOf(run, s.id).Pending? || StatusOf(run, s.id).Cancelled?)
    && forall d | d in s.dependsOn :: Finished(StatusOf(run, d))
  }

  /**
   When the engine may take each action, in terms of statuses alone: it dispatches
   a waiting step that is not auxiliary, skips one whose condition holds, and
   starts, completes or fails what it dispatched.
   */
  lemma EnabledIff(def: WorkflowDef, run: Run, id: string, holds: set<string>)
    ensures Enabled(def, run, Dispatch(id)) <==>
            exists s :: Waiting(def, run, s) && s.id == id && id !in def.auxSteps
    ensures Enabled(def, run, Skip(id, holds)) <==>
            exists s :: Waiting(def, run, s) && s.id == id && s.skipIf.Some? && id in holds
    ensures Enabled(def, run, Start(id)) <==> StatusOf(run, id).Queued?
    ensures Enabled(def, run, Complete(id)) <==> StatusOf(run, id).Queued? || StatusOf(run, id).Running?
    ensures Enabled(def, run, Fail(id)) <==> StatusOf(run, id).Queued? || StatusOf(run, id).Running?
  {
    hide Filter;
    WaitingIs(def, run, holds);
    if Enabled(def, run, Dispatch(id)) { var s := ReadyId(def, CompletedSet(run), QueuedSet(run), id); }
    if Enabled(def, run, Skip(id, holds)) {
      var s := SkippableId(def, CompletedSet(run), QueuedSet(run), holds, id);
    }
    if s :| Waiting(def, run, s) && s.id == id && id !in def.auxSteps { ReadyEnables(def, run, s); }
    if s :| Waiting(def, run, s) && s.id == id && s.skipIf.Some? && id in holds {
      SkippableListed(def, CompletedSet(run), QueuedSet(run), holds, s);
    }
  }

  lemma WaitingIs(def: WorkflowDef, run: Run, holds: set<string>)
    ensures forall s | s in def.steps ::
              && (IsReady(def, CompletedSet(run), QueuedSet(run), s) <==>
                  Waiting(def, run, s) && s.id !in def.auxSteps)
              && (IsSkippable(CompletedSet(run), QueuedSet(run), holds, s) <==>
                  Waiting(def, run, s) && s.skipIf.Some? && s.id in holds)
  {
    assert forall d :: d in CompletedSet(run) <==> Finished(StatusOf(run, d));
    assert forall x :: x !in CompletedSet(run) && x !in QueuedSet(run) <==>
                       StatusOf(run, x).Pending? || StatusOf(run, x).Cancelled?;
  }

  lemma SkippableListed(def: WorkflowDef, completed: set<string>, queued: set<string>, holds: set<string>, s: StepDef)
    requires s in def.steps && IsSkippable(completed, queued, holds, s)
    ensures s.id in Ids(Skippable(def, completed, queued, holds))
  {
    FilterMembers(def.steps, t => IsSkippable(completed, queued, holds, t));
    var skippable := Skippable(def, completed, queued, holds);
    var i :| 0 <= i < |skippable| && skippable[i] == s;
    assert Ids(skippable)[i] == s.id;
  }

  // ---------------------------------------------------------------- how statuses change

  /** Completing this step recovers step k. */
  ghost predicate Recovers(def: WorkflowDef, run: Run, id: string, k: nat) {
    && k < |def.steps| && (forall s | s in def.steps && s.id == id :: s.stepType != Planner)
    && FirstHandled(def, run[id := Completed], id, k)
  }

  /** Step x is pending and waits on step k, which completing this step recovers. */
  ghost predicate SkippedWith(def: WorkflowDef, run: Run, id: string, x: string) {
    exists k: nat :: Recovers(def, run, id, k) && x != def.steps[k].id && x != id && StatusOf(run, x).Pending?
                && exists s | s in def.steps :: s.id == x && def.steps[k].id in s.dependsOn
  }

  /**
   How any action changes any step's status, for all of them: each status is
   reached by its own action, a recovery reaches the first failed step of the
   handler and skips what waits on it, and nothing else moves.
   */
  lemma StatusAfter(def: WorkflowDef, run: Run, a: Action, x: string)
    requires Enabled(def, run, a)
    ensures var before, after := StatusOf(run, x), StatusOf(Next(def, run, a), x);
            && (a == Dispatch(x) || a == Trigger(x) ==> after == Queued)
            && (a == Start(x) ==> after == Running) && (a == Fail(x) ==> after == Failed)
            && (a == Complete(x) ==> after == Completed)
            && (a.Skip? && a.id == x ==> after == Skipped)
            && (a.id != x && !a.Complete? ==> after == before)
            && (a.id != x && a.Complete? ==>
                  after == if exists k: nat :: Recovers(def, run, a.id, k) && def.steps[k].id == x then Recovered
                           else if SkippedWith(def, run, a.id, x) then Skipped
                           else before)
  {
    if a.Complete? {
      CompletionStatus(def, run, a.id, x);
    }
  }

  lemma CompletionStatus(def: WorkflowDef, run: Run, id: string, x: string)
    requires InFlight(StatusOf(run, id))
    ensures StatusOf(Next(def, run, Complete(id)), x) ==
            if x == id then Completed
            else if exists k: nat :: Recovers(def, run, id, k) && def.steps[k].id == x then Recovered
            else if SkippedWith(def, run, id, x) then Skipped
            else StatusOf(run, x)
  {
    hide AfterRecovery, FirstHandled;
    var run1 := run[id := Completed];
    RecoveryIs(def, run1, id);
    if k: nat :| FirstHandled(def, run1, id, k) {
      OneFirst(def, run1, id, k);
      if !IsPlanner(def, id) {
        assert Recovers(def, run, id, k);
        assert def.steps[k].id != id by { NotItself(def, run, id, k); }
      }
    }
  }

  lemma OneFirst(def: WorkflowDef, run: Run, id: string, k: nat)
    requires FirstHandled(def, run, id, k)
    ensures k < |def.steps| && forall j: nat | FirstHandled(def, run, id, j) :: j == k
  {
  }

  lemma NotItself(def: WorkflowDef, run: Run, id: string, k: nat)
    requires FirstHandled(def, run[id := Completed], id, k)
    ensures def.steps[k].id != id
  {
  }

  predicate HoldsOwn(a: Action) {
    a.Skip? ==> a.id in a.holds
  }

  /** A step is skipped on its own only while its condition holds. */
  lemma SkipHolds(def: WorkflowDef, run: Run, a: Action)
    requires Enabled(def, run, a)
    ensures HoldsOwn(a)
  {
    if a.Skip? { var s := SkippableId(def, CompletedSet(run), QueuedSet(run), a.holds, a.id); }
  }

  /** While nothing fails, and no condition holds of a step that is skipped, no step becomes skipped. */
  lemma {:induction false} SkippedOnlyIfHolds(def: WorkflowDef, run: Run, actions: seq<Action>, x: string)
    requires Untroubled(def, run) && Legal(def, run, actions) && NoFailure(actions)
    requires forall a | a in actions && a.Skip? :: a.id !in a.holds
    ensures StatusOf(After(def, run, actions), x).Skipped? ==> StatusOf(run, x).Skipped?
    decreases |actions|
  {
    hide Next, Enabled, Untroubled;
    if actions != [] {
      var a := actions[0];
      assert a in actions;
      SkipHolds(def, run, a);
      StepUntroubled(def, run, a);
      NoneSkipped(def, run, a, x);
      SkippedOnlyIfHolds(def, Next(def, run, a), actions[1..], x);
    }
  }

  lemma NoneSkipped(def: WorkflowDef, run: Run, a: Action, x: string)
    requires Untroubled(def, run) && Enabled(def, run, a) && !a.Skip?
    ensures StatusOf(Next(def, run, a), x).Skipped? ==> StatusOf(run, x).Skipped?
  {
    if a.Complete? { Completing(def, run, a.id); }
  }

  /** An auxiliary step is dispatched only when a failed step names it, or a failure undoes what it compensates. */
  lemma TriggerNeedsFailure(def: WorkflowDef, run: Run, id: string)
    ensures Enabled(def, run, Trigger(id)) <==>
            && id in def.auxSteps
            && exists s :: s in def.steps && StatusOf(run, s.id).Failed?
                 && (s.onFailure == id
                     || exists t :: t in def.steps && t.compensate == id
                                    && (StatusOf(run, t.id).Completed? || StatusOf(run, t.id).Skipped?
                                        || StatusOf(run, t.id).Recovered?))
  {
  }

  /** Everything started, skipped steps included, has its dependencies finished. */
  ghost predicate DependencyClosed(def: WorkflowDef, run: Run) {
    forall s | s in def.steps && s.id !in def.auxSteps && StatusOf(run, s.id) != Pending ::
      DepsCompleted(s.dependsOn, CompletedSet(run))
  }

  /**
   A completion that recovers a step is harmless if whatever is skipped with it
   has its other dependencies finished, or skipped too. Re-queuing a handler is
   harmless if it was not done or nothing started waits on it.
   */
  ghost predicate Harmless(def: WorkflowDef, run: Run, a: Action) {
    match a
    case Complete(id) =>
      (match Recovering(def, run, id)
       case None => true
       case Some(f) =>
         forall s, d | s in def.steps && s.id !in def.auxSteps && s.id in Dragged(def, run, id) && d in s.dependsOn ::
           d in CompletedSet(run) + {id, f.id} + Dragged(def, run, id))
    case Trigger(id) =>
      id in CompletedSet(run) ==>
        forall s | s in def.steps && s.id !in def.auxSteps && StatusOf(run, s.id) != Pending :: id !in s.dependsOn
    case _ => true
  }

  lemma NewlyStarted(def: WorkflowDef, run: Run, a: Action, s: StepDef)
    requires NoDuplicates(Ids(def.steps)) && Enabled(def, run, a) && s in def.steps && s.id !in def.auxSteps
    requires StatusOf(Next(def, run, a), s.id) != Pending && StatusOf(run, s.id) == Pending
    ensures DepsCompleted(s.dependsOn, CompletedSet(run)) || (a.Complete? && s.id in Dragged(def, run, a.id))
    ensures !a.Trigger?
  {
    match a {
      case Dispatch(id) =>
        var t := ReadyId(def, CompletedSet(run), QueuedSet(run), id);
        SameStep(def, s, t);
      case Skip(id, holds) =>
        var t := SkippableId(def, CompletedSet(run), QueuedSet(run), holds, id);
        SameStep(def, s, t);
      case Complete(id) => Completing(def, run, id);
      case _ =>
    }
  }

  /** A started step stays started, and a dragged one becomes so. */
  lemma StaysStarted(def: WorkflowDef, run: Run, a: Action, id: string)
    requires Enabled(def, run, a)
    ensures StatusOf(run, id) != Pending ==> StatusOf(Next(def, run, a), id) != Pending
    ensures a.Complete? && id in Dragged(def, run, a.id) ==> StatusOf(Next(def, run, a), id) != Pending
  {
    if a.Complete? { Completing(def, run, a.id); }
  }

  lemma Dragless(def: WorkflowDef, run: Run, a: Action)
    requires Enabled(def, run, a) && a.Complete?
    ensures Recovering(def, run, a.id).None? ==> Dragged(def, run, a.id) == {}
  {
    Completing(def, run, a.id);
  }

  /** Exactly the harmless steps keep a closed run closed. */
  lemma ClosedAfterIff(def: WorkflowDef, run: Run, a: Action)
    requires NoDuplicates(Ids(def.steps)) && DependencyClosed(def, run) && Enabled(def, run, a)
    ensures DependencyClosed(def, Next(def, run, a)) <==> Harmless(def, run, a)
  {
    hide Next, Enabled, Recovering, Dragged, IsPlanner;
    var run' := Next(def, run, a);
    CompletedAfter(def, run, a);
    if a.Complete? { Dragless(def, run, a); }
    if Harmless(def, run, a) {
      forall s | s in def.steps && s.id !in def.auxSteps && StatusOf(run', s.id) != Pending
        ensures DepsCompleted(s.dependsOn, CompletedSet(run'))
      {
        if StatusOf(run, s.id) == Pending { NewlyStarted(def, run, a, s); }
        forall d | d in s.dependsOn ensures d in CompletedSet(run') {
          if a.Complete? && s.id in Dragged(def, run, a.id) {
            assert d in CompletedSet(run) + {a.id, Recovering(def, run, a.id).value.id} + Dragged(def, run, a.id);
          } else {
            assert d in CompletedSet(run);
          }
        }
      }
    }
    if DependencyClosed(def, run') {
      forall s | s in def.steps ensures StatusOf(run, s.id) != Pending ==> StatusOf(run', s.id) != Pending
        ensures a.Complete? && s.id in Dragged(def, run, a.id) ==> StatusOf(run', s.id) != Pending
      {
        StaysStarted(def, run, a, s.id);
      }
    }
  }

  ghost predicate ClosedThroughout(def: WorkflowDef, run: Run, actions: seq<Action>)
    decreases |actions|
  {
    && DependencyClosed(def, run)
    && (actions != [] ==> ClosedThroughout(def, Next(def, run, actions[0]), actions[1..]))
  }

  ghost predicate HarmlessThroughout(def: WorkflowDef, run: Run, actions: seq<Action>)
    decreases |actions|
  {
    actions != [] ==>
      Harmless(def, run, actions[0]) && HarmlessThroughout(def, Next(def, run, actions[0]), actions[1..])
  }

  /** A run stays closed under dependencies exactly when each of its steps is harmless. */
  lemma {:induction false} RunClosedIff(def: WorkflowDef, run: Run, actions: seq<Action>)
    requires NoDuplicates(Ids(def.steps)) && DependencyClosed(def, run) && Legal(def, run, actions)
    ensures ClosedThroughout(def, run, actions) <==> HarmlessThroughout(def, run, actions)
    ensures HarmlessThroughout(def, run, actions) ==> DependencyClosed(def, After(def, run, actions))
    decreases |actions|
  {
    hide Next, Enabled, DependencyClosed, Harmless;
    if actions != [] {
      ClosedAfterIff(def, run, actions[0]);
      if DependencyClosed(def, Next(def, run, actions[0])) {
        RunClosedIff(def, Next(def, run, actions[0]), actions[1..]);
      }
    }
  }

  function Dispatches(actions: seq<Action>, id: string): nat {
    if actions == [] then 0
    else (if actions[0] == Dispatch(id) then 1 else 0) + Dispatches(actions[1..], id)
  }

  predicate Dispatchable(st: Status) {
    st.Pending? || st.Cancelled?
  }

  lemma LeavesPending(def: WorkflowDef, run: Run, a: Action, id: string)
    requires Enabled(def, run, a)
    ensures !Dispatchable(StatusOf(run, id)) ==> a != Dispatch(id) && !Dispatchable(StatusOf(Next(def, run, a), id))
    ensures a == Dispatch(id) ==> StatusOf(Next(def, run, a), id) == Queued
  {
    if a == Dispatch(id) {
      var s := ReadyId(def, CompletedSet(run), QueuedSet(run), id);
      assert !Dispatchable(StatusOf(run, id)) ==> id in CompletedSet(run) + QueuedSet(run);
    }
    if a.Complete? { Completing(def, run, a.id); }
  }

  /** No run dispatches a step twice through ready resolution. */
  lemma {:induction false} DispatchedAtMostOnce(def: WorkflowDef, run: Run, actions: seq<Action>, id: string)
    requires Legal(def, run, actions)
    ensures Dispatches(actions, id) <= 1
    ensures !Dispatchable(StatusOf(run, id)) ==> Dispatches(actions, id) == 0
    decreases |actions|
  {
    hide Next, Enabled;
    if actions != [] {
      LeavesPending(def, run, actions[0], id);
      DispatchedAtMostOnce(def, Next(def, run, actions[0]), actions[1..], id);
    }
  }

  // ---------------------------------------------------------------- finishing

  ghost predicate NoFailure(actions: seq<Action>) {
    forall a | a in actions :: !a.Fail?
  }

  ghost predicate Untroubled(def: WorkflowDef, run: Run) {
    forall s | s in def.steps :: !StatusOf(run, s.id).Failed? && !StatusOf(run, s.id).Cancelled?
  }

  /** No normal step still to start waits on an auxiliary step still to be triggered. */
  predicate FlowClear(def: WorkflowDef, run: Run) {
    forall s, d | s in def.steps && s.id !in def.auxSteps && StatusOf(run, s.id).Pending? && d in s.dependsOn ::
      d in def.auxSteps ==> !StatusOf(run, d).Pending?
  }

  /**
   A chain of pending steps, each waiting on the next, that ends in an auxiliary
   step only a failure starts: one without a skip condition.
   */
  ghost predicate StuckVia(def: WorkflowDef, run: Run, p: seq<string>) {
    && IsPath(DepGraph(def.steps), p) && (forall i | 0 <= i < |p| :: StatusOf(run, p[i]).Pending?)
    && p[|p| - 1] in def.auxSteps && forall s | s in def.steps && s.id == p[|p| - 1] :: s.skipIf.None?
  }

  ghost predicate Stuck(def: WorkflowDef, run: Run, id: string) {
    exists p :: StuckVia(def, run, p) && p != [] && p[0] == id
  }

  /** No step of a chain but the last has everything done that it waits on. */
  lemma ChainWaits(def: WorkflowDef, run: Run, p: seq<string>, i: nat, t: StepDef)
    requires WellFormed(def) && StuckVia(def, run, p) && i < |p| - 1 && t in def.steps && t.id == p[i]
    ensures !DepsCompleted(t.dependsOn, CompletedSet(run))
  {
    hide Acyclic, Closed, NoDuplicates, DepGraph;
    StepNode(def, t);
    assert p[i + 1] in DepGraph(def.steps)[p[i]];
  }

  lemma ChainStepStays(def: WorkflowDef, run: Run, a: Action, p: seq<string>, i: nat)
    requires WellFormed(def) && Untroubled(def, run) && StuckVia(def, run, p) && i < |p|
    requires Enabled(def, run, a) && !a.Fail?
    ensures StatusOf(Next(def, run, a), p[i]).Pending?
  {
    hide WellFormed, IsPath, DepGraph;
    match a {
      case Dispatch(id) =>
        var t := ReadyId(def, CompletedSet(run), QueuedSet(run), id);
        if id == p[i] && i < |p| - 1 { ChainWaits(def, run, p, i, t); }
      case Skip(id, holds) =>
        var t := SkippableId(def, CompletedSet(run), QueuedSet(run), holds, id);
        if id == p[i] && i < |p| - 1 { ChainWaits(def, run, p, i, t); }
      case Complete(id) => Completing(def, run, id);
      case _ =>
    }
  }

  lemma StepUntroubled(def: WorkflowDef, run: Run, a: Action)
    requires Untroubled(def, run) && Enabled(def, run, a) && !a.Fail?
    ensures Untroubled(def, Next(def, run, a))
  {
    if a.Complete? { Completing(def, run, a.id); }
  }

  lemma StepStaysStuck(def: WorkflowDef, run: Run, a: Action, p: seq<string>)
    requires WellFormed(def) && Untroubled(def, run) && StuckVia(def, run, p) && Enabled(def, run, a) && !a.Fail?
    ensures Untroubled(def, Next(def, run, a)) && StuckVia(def, Next(def, run, a), p)
  {
    hide WellFormed, IsPath, DepGraph, Next, Enabled, Untroubled;
    StepUntroubled(def, run, a);
    forall i | 0 <= i < |p| ensures StatusOf(Next(def, run, a), p[i]).Pending? { ChainStepStays(def, run, a, p, i); }
  }

  /** While nothing fails, nothing triggers the auxiliary step, so no step of the chain ever starts. */
  lemma {:induction false} StaysStuck(def: WorkflowDef, run: Run, actions: seq<Action>, p: seq<string>)
    requires WellFormed(def) && Untroubled(def, run) && StuckVia(def, run, p)
    requires Legal(def, run, actions) && NoFailure(actions)
    ensures StuckVia(def, After(def, run, actions), p)
    decreases |actions|
  {
    hide WellFormed, Next, Enabled, Untroubled, StuckVia;
    if actions != [] {
      assert actions[0] in actions;
      StepStaysStuck(def, run, actions[0], p);
      StaysStuck(def, Next(def, run, actions[0]), actions[1..], p);
    }
  }

  /** What is in flight, and what is pending and not stuck. */
  ghost function Work(def: WorkflowDef, run: Run): set<string> {
    set s | s in def.steps && InWork(def, run, s.id) :: s.id
  }

  ghost predicate InWork(def: WorkflowDef, run: Run, id: string) {
    InFlight(StatusOf(run, id)) || (StatusOf(run, id).Pending? && !Stuck(def, run, id))
  }

  /** A step that moves one ID on leaves no more to do, and less if that one is now done. */
  lemma WorkShrinks(def: WorkflowDef, run: Run, a: Action, s: StepDef, st: Status)
    requires WellFormed(def) && Untroubled(def, run) && Enabled(def, run, a) && !a.Fail? && s in def.steps
    requires Next(def, run, a) == run[s.id := st] && !st.Pending? && InWork(def, run, s.id)
    ensures Work(def, run[s.id := st]) <= Work(def, run)
    ensures !InFlight(st) ==> Work(def, run[s.id := st]) < Work(def, run)
  {
    hide WellFormed, Next, Enabled, Untroubled, StuckVia;
    var run' := run[s.id := st];
    assert s.id in Work(def, run);
    forall t | t in def.steps && InWork(def, run', t.id) ensures InWork(def, run, t.id) {
      if t.id != s.id && StatusOf(run, t.id).Pending? && Stuck(def, run, t.id) {
        var p :| StuckVia(def, run, p) && p != [] && p[0] == t.id;
        StepStaysStuck(def, run, a, p);
      }
    }
  }

  lemma UnstuckStays(def: WorkflowDef, run: Run, id: string, st: Status, x: string)
    requires !st.Pending? && Stuck(def, run[id := st], x)
    ensures Stuck(def, run, x)
  {
    hide DepGraph, IsPath;
    var p :| StuckVia(def, run[id := st], p) && p != [] && p[0] == x;
    assert forall i | 0 <= i < |p| :: StatusOf(run[id := st], p[i]).Pending?;
    assert StuckVia(def, run, p);
  }

  /** Waiting on a stuck step is being stuck. */
  lemma StuckOn(def: WorkflowDef, run: Run, x: string, d: string)
    requires x in DepGraph(def.steps) && d in DepGraph(def.steps)[x] && StatusOf(run, x).Pending? && Stuck(def, run, d)
    ensures Stuck(def, run, x)
  {
    hide DepGraph;
    var p :| StuckVia(def, run, p) && p != [] && p[0] == d;
    var q := [x] + p;
    forall i | 0 <= i < |q| - 1 ensures q[i + 1] in DepGraph(def.steps)[q[i]] {
      if i > 0 { assert p[i] in DepGraph(def.steps)[p[i - 1]]; }
    }
    assert StuckVia(def, run, q) && q[0] == x;
  }

  lemma DoneUnlessPending(def: WorkflowDef, run: Run, d: string)
    requires WellFormed(def) && Untroubled(def, run) && d in DepGraph(def.steps)
    requires forall s | s in def.steps :: !InFlight(StatusOf(run, s.id))
    ensures StatusOf(run, d).Pending? || d in CompletedSet(run)
  {
    hide Acyclic, Closed;
    var t := NodeStep(def, d);
  }

  /** With nothing in flight, some step that is pending and not stuck has everything done that it waits on. */
  lemma SomeNext(def: WorkflowDef, run: Run) returns (s: StepDef)
    requires WellFormed(def) && Untroubled(def, run) && Work(def, run) != {}
    requires forall s | s in def.steps :: !InFlight(StatusOf(run, s.id))
    ensures s in def.steps && StatusOf(run, s.id).Pending? && !Stuck(def, run, s.id)
    ensures DepsCompleted(s.dependsOn, CompletedSet(run))
  {
    hide Untroubled, Stuck, Acyclic, DepGraph, NoDuplicates;
    var g, u := DepGraph(def.steps), Work(def, run);
    forall t | t in def.steps ensures t.id in g { StepNode(def, t); }
    if forall n | n in u :: DependsInside(g, u, n) { StuckSetHasCycle(g, u); }
    var n :| n in u && !DependsInside(g, u, n);
    s :| s in def.steps && InWork(def, run, s.id) && s.id == n;
    StepNode(def, s);
    forall d | d in s.dependsOn ensures d in CompletedSet(run) {
      assert d in g;
      DoneUnlessPending(def, run, d);
      if StatusOf(run, d).Pending? { PendingDepStuck(def, run, s.id, d); }
    }
  }

  lemma PendingDepStuck(def: WorkflowDef, run: Run, x: string, d: string)
    requires WellFormed(def) && x in DepGraph(def.steps) && d in DepGraph(def.steps)[x]
    requires StatusOf(run, x).Pending? && StatusOf(run, d).Pending?
    requires !DependsInside(DepGraph(def.steps), Work(def, run), x)
    ensures Stuck(def, run, x)
  {
    hide Acyclic, NoDuplicates, DepGraph, Stuck;
    assert d in DepGraph(def.steps);
    var t := NodeStep(def, d);
    assert d !in Work(def, run);
    StuckOn(def, run, x, d);
  }

  lemma SkipEnables(def: WorkflowDef, run: Run, s: StepDef) returns (holds: set<string>)
    requires s in def.steps && s.skipIf.Some?
    requires StatusOf(run, s.id).Pending? && DepsCompleted(s.dependsOn, CompletedSet(run))
    ensures Enabled(def, run, Skip(s.id, holds)) && Next(def, run, Skip(s.id, holds)) == run[s.id := Skipped]
  {
    holds := {s.id};
    var completed, queued := CompletedSet(run), QueuedSet(run);
    SkippableListed(def, completed, queued, holds, s);
  }

  lemma LoneStuck(def: WorkflowDef, run: Run, s: StepDef)
    requires WellFormed(def) && s in def.steps && s.id in def.auxSteps && s.skipIf.None? && StatusOf(run, s.id).Pending?
    ensures Stuck(def, run, s.id)
  {
    hide Acyclic, Closed, DepGraph;
    StepNode(def, s);
    forall t | t in def.steps && t.id == s.id ensures t == s { SameStep(def, s, t); }
    assert StuckVia(def, run, [s.id]);
  }

  lemma LegalOne(def: WorkflowDef, run: Run, a: Action)
    requires Enabled(def, run, a)
    ensures Legal(def, run, [a]) && After(def, run, [a]) == Next(def, run, a)
  {
    hide Next, Enabled;
    assert [a][1..] == [];
  }

  /** Nothing left to do, and no normal step stuck: complete. */
  lemma DoneMeansComplete(def: WorkflowDef, run: Run)
    requires Untroubled(def, run) && Work(def, run) == {}
    requires forall s | s in def.steps && s.id !in def.auxSteps :: !Stuck(def, run, s.id)
    ensures IsComplete(def, CompletedSet(run))
  {
    hide Stuck;
    forall s | s in def.steps && s.id !in def.auxSteps ensures s.id in CompletedSet(run) {
      assert s.id !in Work(def, run);
    }
  }

  lemma MoveOn(def: WorkflowDef, run: Run, s: StepDef) returns (first: seq<Action>, st: Status)
    requires WellFormed(def) && Untroubled(def, run) && s in def.steps
    requires StatusOf(run, s.id).Pending? && !Stuck(def, run, s.id) && DepsCompleted(s.dependsOn, CompletedSet(run))
    ensures !st.Pending? && Legal(def, run, first) && NoFailure(first) && After(def, run, first) == run[s.id := st]
    ensures Work(def, run[s.id := st]) < Work(def, run) && Untroubled(def, run[s.id := st])
  {
    hide WellFormed, Stuck, Work, Next, Enabled, Untroubled, Legal, After;
    if s.id in def.auxSteps {
      if s.skipIf.None? { LoneStuck(def, run, s); }
      var holds := SkipEnables(def, run, s);
      var a := Skip(s.id, holds);
      WorkShrinks(def, run, a, s, Skipped);
      StepUntroubled(def, run, a);
      first, st := [a], Skipped;
      LegalOne(def, run, a);
    } else {
      var run1 := run[s.id := Queued];
      DispatchEnables(def, run, s);
      WorkShrinks(def, run, Dispatch(s.id), s, Queued);
      StepUntroubled(def, run, Dispatch(s.id));
      FinishOne(def, run1, s);
      assert run1[s.id := Completed] == run[s.id := Completed];
      first, st := [Dispatch(s.id)] + [Complete(s.id)], Completed;
      LegalOne(def, run, Dispatch(s.id));
      LegalOne(def, run1, Complete(s.id));
      LegalConcat(def, run, [Dispatch(s.id)], [Complete(s.id)]);
    }
  }

  lemma DispatchEnables(def: WorkflowDef, run: Run, s: StepDef)
    requires s in def.steps && s.id !in def.auxSteps
    requires StatusOf(run, s.id).Pending? && DepsCompleted(s.dependsOn, CompletedSet(run))
    ensures Enabled(def, run, Dispatch(s.id)) && Next(def, run, Dispatch(s.id)) == run[s.id := Queued]
  {
    ReadyEnables(def, run, s);
  }

  lemma FinishOne(def: WorkflowDef, run: Run, s: StepDef)
    requires WellFormed(def) && Untroubled(def, run) && s in def.steps && InFlight(StatusOf(run, s.id))
    ensures Enabled(def, run, Complete(s.id)) && Next(def, run, Complete(s.id)) == run[s.id := Completed]
    ensures Work(def, run[s.id := Completed]) < Work(def, run) && Untroubled(def, run[s.id := Completed])
  {
    hide WellFormed, Work, Stuck;
    Completing(def, run, s.id);
    WorkShrinks(def, run, Complete(s.id), s, Completed);
  }

  /** From every untroubled state in which no normal step is stuck, the rest can be finished without a failure. */
  lemma {:induction false} CanFinish(def: WorkflowDef, run: Run) returns (actions: seq<Action>)
    requires WellFormed(def) && Untroubled(def, run)
    requires forall s | s in def.steps && s.id !in def.auxSteps :: !Stuck(def, run, s.id)
    ensures Legal(def, run, actions) && NoFailure(actions)
    ensures IsComplete(def, CompletedSet(After(def, run, actions)))
    decreases Work(def, run)
  {
    hide WellFormed, Untroubled, Stuck, Work, IsComplete, Next, Enabled;
    if Work(def, run) == {} {
      DoneMeansComplete(def, run);
      actions := [];
    } else {
      var first, s, st;
      if t :| t in def.steps && InFlight(StatusOf(run, t.id)) {
        FinishOne(def, run, t);
        s, first, st := t, [Complete(t.id)], Completed;
        LegalOne(def, run, Complete(t.id));
      } else {
        s := SomeNext(def, run);
        first, st := MoveOn(def, run, s);
      }
      var run' := run[s.id := st];
      forall t | t in def.steps && t.id !in def.auxSteps ensures !Stuck(def, run', t.id) {
        if Stuck(def, run', t.id) { UnstuckStays(def, run, s.id, st, t.id); }
      }
      var rest := CanFinish(def, run');
      actions := first + rest;
      LegalConcat(def, run, first, rest);
    }
  }

  lemma {:induction false} LegalConcat(def: WorkflowDef, run: Run, first: seq<Action>, rest: seq<Action>)
    requires Legal(def, run, first) && Legal(def, After(def, run, first), rest)
    ensures Legal(def, run, first + rest) && After(def, run, first + rest) == After(def, After(def, run, first), rest)
    decreases |first|
  {
    hide Next, Enabled;
    if first == [] {
      assert first + rest == rest;
    } else {
      assert (first + rest)[1..] == first[1..] + rest;
      LegalConcat(def, Next(def, run, first[0]), first[1..], rest);
    }
  }

  /** The run can be driven to completion without a failure. */
  ghost predicate CanCompleteFrom(def: WorkflowDef, run: Run) {
    exists actions ::
      Legal(def, run, actions) && NoFailure(actions) && IsComplete(def, CompletedSet(After(def, run, actions)))
  }

  /**
   Exactly when an untroubled run can complete with no further failure: no normal
   step waits, through pending steps, on a pending auxiliary step that cannot be
   skipped.
   */
  lemma CompletesFromIff(def: WorkflowDef, run: Run)
    requires WellFormed(def) && Untroubled(def, run)
    ensures CanCompleteFrom(def, run) <==>
            forall s | s in def.steps && s.id !in def.auxSteps :: !Stuck(def, run, s.id)
  {
    hide WellFormed, Untroubled, StuckVia, Legal, NoFailure;
    if forall s | s in def.steps && s.id !in def.auxSteps :: !Stuck(def, run, s.id) {
      var actions := CanFinish(def, run);
    } else {
      var s, p :| s in def.steps && s.id !in def.auxSteps && StuckVia(def, run, p) && p != [] && p[0] == s.id;
      forall actions | Legal(def, run, actions) && NoFailure(actions)
        ensures !IsComplete(def, CompletedSet(After(def, run, actions)))
      {
        StaysStuck(def, run, actions, p);
        FirstPending(def, After(def, run, actions), p);
      }
    }
  }

  lemma FirstPending(def: WorkflowDef, run: Run, p: seq<string>)
    requires StuckVia(def, run, p)
    ensures StatusOf(run, p[0]).Pending?
  {
  }

  predicate NoAuxSkip(def: WorkflowDef) {
    forall s | s in def.steps && s.id in def.auxSteps :: s.skipIf.None?
  }

  /** Along a path from a normal step to an auxiliary one, some normal step waits on an auxiliary one. */
  lemma {:induction false} Crossing(def: WorkflowDef, p: seq<string>, i: nat) returns (k: nat)
    requires i < |p| && p[i] !in def.auxSteps && p[|p| - 1] in def.auxSteps
    ensures i <= k < |p| - 1 && p[k] !in def.auxSteps && p[k + 1] in def.auxSteps
    decreases |p| - i
  {
    if p[i + 1] in def.auxSteps {
      k := i;
    } else {
      k := Crossing(def, p, i + 1);
    }
  }

  lemma StuckNotClear(def: WorkflowDef, run: Run, p: seq<string>)
    requires WellFormed(def) && StuckVia(def, run, p) && p[0] !in def.auxSteps
    ensures !FlowClear(def, run)
  {
    hide Acyclic, Closed, DepGraph;
    var k := Crossing(def, p, 0);
    var t := NodeStep(def, p[k]);
    assert p[k + 1] in DepGraph(def.steps)[p[k]];
  }

  lemma NotClearStuck(def: WorkflowDef, run: Run) returns (s: StepDef)
    requires WellFormed(def) && NoAuxSkip(def) && !FlowClear(def, run)
    ensures s in def.steps && s.id !in def.auxSteps && Stuck(def, run, s.id)
  {
    hide Acyclic, DepGraph;
    var t, d :| t in def.steps && t.id !in def.auxSteps && StatusOf(run, t.id).Pending? && d in t.dependsOn
                && d in def.auxSteps && StatusOf(run, d).Pending?;
    s := t;
    StepNode(def, s);
    assert StuckVia(def, run, [s.id, d]);
  }

  /** Where no auxiliary step can be skipped, it is enough to look at each step's own dependencies. */
  lemma ClearIffUnstuck(def: WorkflowDef, run: Run)
    requires WellFormed(def)
    ensures FlowClear(def, run) ==> forall s | s in def.steps && s.id !in def.auxSteps :: !Stuck(def, run, s.id)
    ensures NoAuxSkip(def) && (forall s | s in def.steps && s.id !in def.auxSteps :: !Stuck(def, run, s.id)) ==>
              FlowClear(def, run)
  {
    hide WellFormed, StuckVia, FlowClear, NoAuxSkip;
    if FlowClear(def, run) {
      forall s, p | s in def.steps && s.id !in def.auxSteps && p != [] && p[0] == s.id ensures !StuckVia(def, run, p) {
        if StuckVia(def, run, p) { StuckNotClear(def, run, p); }
      }
    } else if NoAuxSkip(def) {
      var s := NotClearStuck(def, run);
    }
  }

  ghost predicate CanComplete(def: WorkflowDef) {
    CanCompleteFrom(def, map[])
  }

  /** In particular from the start, where none can be skipped: exactly when no normal step waits on an auxiliary one. */
  lemma CompletesIffNoAuxDeps(def: WorkflowDef)
    requires WellFormed(def) && NoAuxSkip(def)
    ensures CanComplete(def) <==> NoAuxDeps(def)
  {
    hide WellFormed, CanCompleteFrom, Stuck;
    CompletesFromIff(def, map[]);
    ClearIffUnstuck(def, map[]);
  }

  // ---------------------------------------------------------------- rounds

  /** The completed set after k rounds of resolving the ready steps and completing all of them. */
  function Rounds(def: WorkflowDef, k: nat): set<string> {
    if k == 0 then {}
    else
      var before := Rounds(def, k - 1);
      before + (set s | s in Ready(def, before, {}) :: s.id)
  }

  ghost predicate FinishedBy(def: WorkflowDef, k: nat, s: StepDef) {
    s.id !in def.auxSteps && DepthAtMost(DepGraph(def.steps), s.id, k)
  }

  /** A step finishes in the round its deepest dependency chain dictates, neither earlier nor later. */
  lemma {:induction false} RoundsFollowDepth(def: WorkflowDef, k: nat)
    requires NoDuplicates(Ids(def.steps)) && Closed(DepGraph(def.steps)) && NoAuxDeps(def)
    ensures forall s | s in def.steps :: s.id in Rounds(def, k) <==> FinishedBy(def, k, s)
  {
    if k == 0 {
      forall s | s in def.steps ensures !FinishedBy(def, 0, s) {
        StepNode(def, s);
        assert IsPath(DepGraph(def.steps), [s.id]) && [s.id][0] == s.id;
      }
    } else {
      RoundsFollowDepth(def, k - 1);
      forall s | s in def.steps ensures s.id in Rounds(def, k) <==> FinishedBy(def, k, s) {
        RoundStep(def, k, s);
      }
    }
  }

  /** s is in the next round's set exactly when it was there or is ready now. */
  lemma RoundMembers(def: WorkflowDef, k: nat, s: StepDef)
    requires NoDuplicates(Ids(def.steps)) && k > 0 && s in def.steps
    ensures s.id in Rounds(def, k) <==> s.id in Rounds(def, k - 1) || IsReady(def, Rounds(def, k - 1), {}, s)
  {
    var before := Rounds(def, k - 1);
    FilterMembers(def.steps, s => IsReady(def, before, {}, s));
    if s.id in Rounds(def, k) && s.id !in before {
      var t :| t in Ready(def, before, {}) && t.id == s.id;
      SameStep(def, s, t);
    }
    if IsReady(def, before, {}, s) {
      assert s in Ready(def, before, {});
    }
  }

  lemma RoundStep(def: WorkflowDef, k: nat, s: StepDef)
    requires NoDuplicates(Ids(def.steps)) && Closed(DepGraph(def.steps)) && NoAuxDeps(def)
    requires k > 0 && s in def.steps
    requires forall t | t in def.steps :: t.id in Rounds(def, k - 1) <==> FinishedBy(def, k - 1, t)
    ensures s.id in Rounds(def, k) <==> FinishedBy(def, k, s)
  {
    var g, before := DepGraph(def.steps), Rounds(def, k - 1);
    RoundMembers(def, k, s);
    StepNode(def, s);
    DepthStep(g, s.id, k - 1);
    if s.id !in def.auxSteps {
      forall d | d in s.dependsOn ensures d in before <==> DepthAtMost(g, d, k - 1) {
        var t := NodeStep(def, d);
        assert FinishedBy(def, k - 1, t) <==> DepthAtMost(g, d, k - 1);
      }
      assert s.id in before ==> DepthAtMost(g, s.id, k) by {
        assert s.id in before ==> FinishedBy(def, k - 1, s);
      }
    } else {
      assert !FinishedBy(def, k - 1, s);
    }
  }

  /** Without auxiliary steps, k rounds finish the run exactly when no chain is longer than k. */
  lemma FinishesInLongestChainRounds(def: WorkflowDef, longest: nat, k: nat)
    requires WellFormed(def) && def.auxSteps == {}
    requires IsLongestChain(DepGraph(def.steps), longest)
    ensures IsComplete(def, Rounds(def, k)) <==> longest <= k
    ensures longest <= |def.steps|
  {
    var g := DepGraph(def.steps);
    RoundsFollowDepth(def, k);
    var p :| IsPath(g, p) && |p| == longest;
    AcyclicPathBound(g, p);
    DepGraphNodes(def.steps);
    if IsComplete(def, Rounds(def, k)) {
      var s := NodeStep(def, p[0]);
      assert FinishedBy(def, k, s);
    }
    if longest <= k {
      forall s | s in def.steps ensures s.id in Rounds(def, k) {
        assert FinishedBy(def, k, s);
      }
    }
  }

  /** So as many rounds as there are steps always suffice. */
  lemma FinishesInStepCountRounds(def: WorkflowDef)
    requires WellFormed(def) && def.auxSteps == {}
    ensures IsComplete(def, Rounds(def, |def.steps|))
  {
    var g := DepGraph(def.steps);
    DepGraphNodes(def.steps);
    RoundsFollowDepth(def, |def.steps|);
    forall s | s in def.steps ensures s.id in Rounds(def, |def.steps|) {
      forall p | IsPath(g, p) && p[0] == s.id ensures |p| <= |def.steps| {
        AcyclicPathBound(g, p);
      }
      assert FinishedBy(def, |def.steps|, s);
    }
  }

  // ---------------------------------------------------------------- what validation admits

  /** The structural part of dag.Validate: IDs, references, auxiliary targets, cycles. */
  ghost predicate Validated(def: WorkflowDef) {
    && WellFormed(def)
    && def.auxSteps == BuildAuxSteps(def.steps)
    && (forall s | s in def.steps && s.onFailure != "" ::
          s.onFailure != s.id && exists t :: t in def.steps && t.id == s.onFailure && t.dependsOn == [])
    && (forall s | s in def.steps && s.compensate != "" ::
          s.compensate != s.id && exists t :: t in def.steps && t.id == s.compensate && t.dependsOn == [])
  }

  function PlainStep(id: string, dependsOn: seq<string>): StepDef {
    StepDef(id, "t", dependsOn, Normal, None, "", "", "", 0, 0, map[])
  }

  ghost predicate Moves(def: WorkflowDef, run: Run, a: Action, run': Run) {
    Enabled(def, run, a) && Next(def, run, a) == run'
  }

  lemma {:induction false} LegalOn(def: WorkflowDef, run: Run, actions: seq<Action>, a: Action, run': Run)
    requires Legal(def, run, actions) && Moves(def, After(def, run, actions), a, run')
    ensures Legal(def, run, actions + [a]) && After(def, run, actions + [a]) == run'
    decreases |actions|
  {
    hide Next, Enabled;
    if actions == [] {
      assert (actions + [a])[1..] == [];
    } else {
      LegalOn(def, Next(def, run, actions[0]), actions[1..], a, run');
      assert (actions + [a])[1..] == actions[1..] + [a];
    }
  }

  lemma MovesReady(def: WorkflowDef, run: Run, s: StepDef)
    requires s in def.steps && IsReady(def, CompletedSet(run), QueuedSet(run), s)
    ensures Moves(def, run, Dispatch(s.id), run[s.id := Queued])
  {
    ReadyEnables(def, run, s);
  }

  lemma MovesComplete(def: WorkflowDef, run: Run, id: string)
    requires InFlight(StatusOf(run, id)) && forall s | s in def.steps :: !StatusOf(run, s.id).Failed?
    ensures Moves(def, run, Complete(id), run[id := Completed])
  {
    Completing(def, run, id);
  }

  /** With one failed step, its handler's completion recovers it. */
  lemma MovesRecover(def: WorkflowDef, run: Run, f: StepDef)
    requires f in def.steps && f.onFailure != f.id && StatusOf(run, f.id).Failed? &&
        InFlight(StatusOf(run, f.onFailure))
    requires !IsPlanner(def, f.onFailure) && forall s | s in def.steps && StatusOf(run, s.id).Failed? :: s == f
    ensures var run1 := run[f.onFailure := Completed][f.id := Recovered];
            Moves(def, run, Complete(f.onFailure), Skipping(run1, PendingOn(def.steps, run1, f.id)))
  {
    var run1 := run[f.onFailure := Completed];
    var failed := Handled(def, run1, f.onFailure);
    FilterMembers(def.steps, s => NamesHandler(run1, f.onFailure, s));
    assert f in failed && failed[0] in failed;
    Completing(def, run, f.onFailure);
  }
}
