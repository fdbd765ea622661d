/**
 Two definitions whose compensation goes wrong: one the chain undoes in the wrong
 order, and one the engine undoes in another order than the chain.
 */
module CompensationCases {
  import opened Graphs
  import opened Dag
  import opened Scheduler
  import opened Compensation

  /** What a run has done so far, and where it stands. */
  ghost predicate Reached(def: WorkflowDef, actions: seq<Action>, run: Run) {
    Legal(def, map[], actions) && After(def, map[], actions) == run
  }

  lemma Starts(def: WorkflowDef)
    ensures Reached(def, [], map[])
  {
  }

  lemma Reaches(def: WorkflowDef, actions: seq<Action>, run: Run, a: Action, run': Run)
    requires Reached(def, actions, run) && Moves(def, run, a, run')
    ensures Reached(def, actions + [a], run')
  {
    LegalOn(def, map[], actions, a, run');
  }

  /** Dispatches a ready step and completes it. */
  lemma Finishes(def: WorkflowDef, actions: seq<Action>, run: Run, s: StepDef)
    requires Reached(def, actions, run) && s in def.steps && IsReady(def, CompletedSet(run), QueuedSet(run), s)
    requires forall t | t in def.steps :: !StatusOf(run, t.id).Failed?
    ensures Reached(def, actions + [Dispatch(s.id)] + [Complete(s.id)], run[s.id := Completed])
  {
    hide Reached, Moves;
    MovesReady(def, run, s);
    Reaches(def, actions, run, Dispatch(s.id), run[s.id := Queued]);
    MovesComplete(def, run[s.id := Queued], s.id);
    assert run[s.id := Queued][s.id := Completed] == run[s.id := Completed];
    Reaches(def, actions + [Dispatch(s.id)], run[s.id := Queued], Complete(s.id), run[s.id := Completed]);
  }

  /** Dispatches a ready step and fails it. */
  lemma Fails(def: WorkflowDef, actions: seq<Action>, run: Run, s: StepDef)
    requires Reached(def, actions, run) && s in def.steps && IsReady(def, CompletedSet(run), QueuedSet(run), s)
    ensures Reached(def, actions + [Dispatch(s.id)] + [Fail(s.id)], run[s.id := Failed])
  {
    hide Reached;
    MovesReady(def, run, s);
    Reaches(def, actions, run, Dispatch(s.id), run[s.id := Queued]);
    assert run[s.id := Queued][s.id := Failed] == run[s.id := Failed];
    assert Moves(def, run[s.id := Queued], Fail(s.id), run[s.id := Failed]);
    Reaches(def, actions + [Dispatch(s.id)], run[s.id := Queued], Fail(s.id), run[s.id := Failed]);
  }

  // ---------------------------------------------------------------- a dependent listed first

  /**
   b depends on a but is listed first; u undoes a and v undoes b, and c may fail
   after both. Nothing in validation or Build reorders them.
   */
  const LISTED_FIRST: WorkflowDef :=
    WorkflowDef("w", [PlainStep("b", ["a"]).(compensate := "v"), PlainStep("a", []).(compensate := "u"),
                      PlainStep("c", ["b"]), PlainStep("u", []), PlainStep("v", [])], {"u", "v"}, 0)

  lemma ListedSteps()
    ensures var steps := LISTED_FIRST.steps;
            && (forall s | s in steps ::
                 s == steps[0] || s == steps[1] || s == steps[2] || s == steps[3] || s == steps[4])
            && steps[0] in steps && steps[1] in steps && steps[2] in steps && steps[3] in steps && steps[4] in steps
            && Ids(steps) == ["b", "a", "c", "u", "v"]
  {
  }

  const LISTED_GRAPH: Graph := map["b" := ["a"], "a" := [], "c" := ["b"], "u" := [], "v" := []]

  lemma ListedGraph()
    ensures DepGraph(LISTED_FIRST.steps) == LISTED_GRAPH && NoDuplicates(Ids(LISTED_FIRST.steps))
  {
    hide DepGraph;
    ListedSteps();
    GraphOfSteps(LISTED_FIRST.steps, LISTED_GRAPH);
  }

  lemma ListedSound()
    ensures Closed(LISTED_GRAPH) && Acyclic(LISTED_GRAPH)
  {
    hide Acyclic;
    var order := ["a", "b", "c", "u", "v"];
    assert order[..1] == ["a"] && order[..2] == ["a", "b"];
    assert Topological(LISTED_GRAPH, order);
    TopologicalMeansAcyclic(LISTED_GRAPH, order);
  }

  lemma ListedTargets()
    ensures TargetsDistinct(LISTED_FIRST)
  {
    hide Ids, NoDuplicates, DepGraph;
    ListedSteps();
    ListedGraph();
    var steps, ids := LISTED_FIRST.steps, ["b", "a", "c", "u", "v"];
    assert ids[3] in ids && ids[4] in ids;
    assert forall s | s in steps && s.compensate != "" :: s == steps[0] || s == steps[1];
    assert steps[0].compensate == "v" && steps[1].compensate == "u";
  }

  lemma ListedAux()
    ensures BuildAuxSteps(LISTED_FIRST.steps) == {"u", "v"}
  {
    ListedSteps();
    var steps := LISTED_FIRST.steps;
    assert steps[0].compensate == "v" && steps[1].compensate == "u";
  }

  lemma ListedValid()
    ensures Validated(LISTED_FIRST)
  {
    hide WellFormed, BuildAuxSteps;
    ListedSteps();
    ListedWellFormed();
    ListedAux();
  }

  lemma ListedWellFormed()
    ensures WellFormed(LISTED_FIRST)
  {
    hide DepGraph, Acyclic, Closed, NoDuplicates, Ids;
    ListedGraph();
    ListedSound();
  }

  lemma ListedPair()
    ensures CompensatedPair(LISTED_FIRST, {"a", "b"}, LISTED_FIRST.steps[0], LISTED_FIRST.steps[1])
  {
    hide DepGraph;
    ListedSteps();
    assert DependsOn(LISTED_FIRST, "b", "a") by {
      ListedGraph();
      var p := ["b", "a"];
      assert IsPath(DepGraph(LISTED_FIRST.steps), p) && p[0] == "b" && p[|p| - 1] == "a";
    }
    hide DependsOn;
  }

  /** A run that completes a and b and then fails, which is where compensation starts. */
  lemma ListedRun() returns (actions: seq<Action>)
    ensures Reached(LISTED_FIRST, actions, map["a" := Completed, "b" := Completed, "c" := Failed])
  {
    hide Reached;
    var def := LISTED_FIRST;
    ListedSteps();
    Starts(def);
    Finishes(def, [], map[], def.steps[1]);
    actions := [] + [Dispatch("a")] + [Complete("a")];
    Finishes(def, actions, map["a" := Completed], def.steps[0]);
    actions := actions + [Dispatch("b")] + [Complete("b")];
    assert map["a" := Completed]["b" := Completed] == map["a" := Completed, "b" := Completed];
    Fails(def, actions, map["a" := Completed, "b" := Completed], def.steps[2]);
    actions := actions + [Dispatch("c")] + [Fail("c")];
    assert map["a" := Completed, "b" := Completed]["c" := Failed] == map["a" := Completed, "b" := Completed,
      "c" := Failed];
  }

  /**
   The definition order is the caller's insertion order, so a valid definition
   whose run completes a and b and then fails compensates a before b.
   */
  lemma InsertionOrderCanUndoDependencyFirst() returns (actions: seq<Action>, run: Run)
    ensures Validated(LISTED_FIRST) && Reached(LISTED_FIRST, actions, run)
    ensures CompletedSet(run) == {"a", "b"} && StatusOf(run, "c").Failed?
    ensures !DependentsFirst(LISTED_FIRST, CompletedSet(run))
  {
    hide Validated, DependentsFirst, Reached, CompensatedPair, TargetsDistinct;
    ListedValid();
    ListedTargets();
    ListedPair();
    OutOfOrder(LISTED_FIRST, {"a", "b"}, 0, 1);
    actions := ListedRun();
    run := map["a" := Completed, "b" := Completed, "c" := Failed];
    assert CompletedSet(run) == {"a", "b"};
  }

  // ---------------------------------------------------------------- three compensations

  /** c needs b needs a, each with a compensation; d may fail after all three. */
  const THREE_UNDONE: WorkflowDef :=
    WorkflowDef("w", UNDOABLE + OTHERS, {"u", "v", "w"}, 0)

  const UNDOABLE: seq<StepDef> :=
    [PlainStep("a", []).(compensate := "u"), PlainStep("b", ["a"]).(compensate := "v"),
      PlainStep("c", ["b"]).(compensate := "w")]

  const OTHERS: seq<StepDef> := [PlainStep("d", ["c"]), PlainStep("u", []), PlainStep("v", []), PlainStep("w", [])]

  lemma ThreeSteps()
    ensures var steps := THREE_UNDONE.steps;
            && |steps| == 7 && Ids(steps) == ["a", "b", "c", "d", "u", "v", "w"]
            && (forall s | s in steps :: s in UNDOABLE || s in OTHERS)
            && (forall s | s in UNDOABLE :: s == UNDOABLE[0] || s == UNDOABLE[1] || s == UNDOABLE[2])
            && (forall s | s in OTHERS :: s == OTHERS[0] || s == OTHERS[1] || s == OTHERS[2] || s == OTHERS[3])
            && steps[0] == UNDOABLE[0] && steps[1] == UNDOABLE[1] && steps[2] == UNDOABLE[2] && steps[3] == OTHERS[0]
  {
  }

  lemma ThreeTargets()
    ensures TargetsDistinct(THREE_UNDONE)
  {
    hide Ids;
    ThreeSteps();
    ThreeDistinct();
    var ids := ["a", "b", "c", "d", "u", "v", "w"];
    assert ids[4] in ids && ids[5] in ids && ids[6] in ids;
  }

  lemma ThreeDistinct()
    ensures NoDuplicates(["a", "b", "c", "d", "u", "v", "w"])
  {
  }

  const THREE_GRAPH: Graph := map["a" := [], "b" := ["a"], "c" := ["b"], "d" := ["c"], "u" := [], "v" := [], "w" := []]

  lemma ThreeSound()
    ensures Closed(THREE_GRAPH) && Acyclic(THREE_GRAPH)
  {
    hide Acyclic;
    var order := ["a", "b", "c", "d", "u", "v", "w"];
    assert order[..1] == ["a"] && order[..2] == ["a", "b"] && order[..3] == ["a", "b", "c"];
    assert Topological(THREE_GRAPH, order);
    TopologicalMeansAcyclic(THREE_GRAPH, order);
  }

  lemma ThreeWellFormed()
    ensures WellFormed(THREE_UNDONE)
  {
    hide DepGraph, Acyclic, Closed, NoDuplicates, Ids;
    ThreeSteps();
    ThreeDistinct();
    var steps := THREE_UNDONE.steps;
    assert steps[4] == OTHERS[1] && steps[5] == OTHERS[2] && steps[6] == OTHERS[3];
    GraphOfSteps(steps, THREE_GRAPH);
    ThreeSound();
  }

  lemma ThreeCompensable()
    ensures Compensable(THREE_UNDONE, {"a", "b", "c"}) == UNDOABLE
    ensures Targets(UNDOABLE) == ["u", "v", "w"]
  {
    hide Filter;
    ThreeSteps();
    var keep := (s: StepDef) => IsCompensable({"a", "b", "c"}, s);
    FilterConcat(UNDOABLE, OTHERS, keep);
    FilterNoneOrAll(UNDOABLE, keep);
    FilterNoneOrAll(OTHERS, keep);
  }

  lemma ThreeUndone(run: Run)
    requires run == map["a" := Completed, "b" := Completed, "c" := Completed, "d" := Failed]
    ensures Ids(Chain(THREE_UNDONE, CompletedSet(run))) == ["w", "v", "u"]
    ensures EngineOrder(THREE_UNDONE, CompletedSet(run), run) == ["w", "u", "v"]
  {
    hide Compensable, EngineOrder, Chain, TargetsDistinct, Targets, Reverse, NothingQueued, Ids, CompletedSet;
    ThreeQuiet(run);
    ThreeTargets();
    ThreeCompensable();
    ThreeOrders();
    ChainListsTargetsReversed(THREE_UNDONE, {"a", "b", "c"});
    EngineOrderIs(THREE_UNDONE, {"a", "b", "c"}, run);
  }

  lemma ThreeQuiet(run: Run)
    requires run == map["a" := Completed, "b" := Completed, "c" := Completed, "d" := Failed]
    ensures CompletedSet(run) == {"a", "b", "c"} && NothingQueued(THREE_UNDONE, run)
  {
    ThreeSteps();
  }

  lemma ThreeOrders()
    ensures Reverse(["u", "v", "w"]) == ["w", "v", "u"]
    ensures var t := ["u", "v", "w"]; [t[|t| - 1]] + t[..|t| - 1] == ["w", "u", "v"]
  {
  }

  /** And a run that gets there. */
  lemma ThreeRun() returns (actions: seq<Action>)
    ensures Reached(THREE_UNDONE, actions, map["a" := Completed, "b" := Completed, "c" := Completed, "d" := Failed])
  {
    hide Reached;
    var def := THREE_UNDONE;
    ThreeSteps();
    Starts(def);
    Finishes(def, [], map[], def.steps[0]);
    actions := [] + [Dispatch("a")] + [Complete("a")];
    Finishes(def, actions, map["a" := Completed], def.steps[1]);
    actions := actions + [Dispatch("b")] + [Complete("b")];
    assert map["a" := Completed]["b" := Completed] == map["a" := Completed, "b" := Completed];
    Finishes(def, actions, map["a" := Completed, "b" := Completed], def.steps[2]);
    actions := actions + [Dispatch("c")] + [Complete("c")];
    var run := map["a" := Completed, "b" := Completed, "c" := Completed];
    assert map["a" := Completed, "b" := Completed]["c" := Completed] == run;
    Fails(def, actions, run, def.steps[3]);
    actions := actions + [Dispatch("d")] + [Fail("d")];
    assert run["d" := Failed] == map["a" := Completed, "b" := Completed, "c" := Completed, "d" := Failed];
  }

  /**
   A run after which the chain undoes c, b, a, while the engine undoes c and then
   a, on which b was built, before b.
   */
  lemma ThreeCompensationsDiverge() returns (actions: seq<Action>, run: Run)
    ensures WellFormed(THREE_UNDONE) && TargetsDistinct(THREE_UNDONE) && Reached(THREE_UNDONE, actions, run)
    ensures Ids(Chain(THREE_UNDONE, CompletedSet(run))) == ["w", "v", "u"]
    ensures EngineOrder(THREE_UNDONE, CompletedSet(run), run) == ["w", "u", "v"]
  {
    hide WellFormed, TargetsDistinct, Reached, Chain, EngineOrder, Ids;
    ThreeWellFormed();
    ThreeTargets();
    actions := ThreeRun();
    run := map["a" := Completed, "b" := Completed, "c" := Completed, "d" := Failed];
    ThreeUndone(run);
  }
}
