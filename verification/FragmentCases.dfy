/**
 Runs that show where a graft goes wrong: a failure target that is not renamed
 reaches a static step, and a second planner re-grafts the first one's steps.
 */
module FragmentCases {
  import opened Graphs
  import opened Dag
  import opened Scheduler
  import opened Fragments

  // ---------------------------------------------------------------- an unrenamed target

  /** The planner p, then a, then b. */
  const PLANNED: WorkflowDef :=
    WorkflowDef("w", [PlainStep("p", []).(stepType := Planner), PlainStep("a", ["p"]), PlainStep("b", ["a"])], {}, 0)

  /** A planned step whose OnFailure names the static step a. */
  const REACHING: seq<StepDef> := [PlainStep("x", []).(onFailure := "a")]

  const PLAN_DONE: Run := map["p" := Completed]

  lemma PlannedSteps()
    ensures var steps := PLANNED.steps;
            && (forall s | s in steps :: s == steps[0] || s == steps[1] || s == steps[2])
            && steps[0] in steps && steps[1] in steps && steps[2] in steps
            && Ids(steps) == ["p", "a", "b"] && Elements(Ids(steps)) == {"p", "a", "b"}
  {
  }

  const PLANNED_GRAPH: Graph := map["p" := [], "a" := ["p"], "b" := ["a"]]

  lemma PlannedGraph()
    ensures DepGraph(PLANNED.steps) == PLANNED_GRAPH && NoDuplicates(Ids(PLANNED.steps))
  {
    hide DepGraph;
    PlannedSteps();
    GraphOfSteps(PLANNED.steps, PLANNED_GRAPH);
  }

  lemma PlannedSound()
    ensures Closed(PLANNED_GRAPH) && Acyclic(PLANNED_GRAPH)
  {
    hide Acyclic;
    var order := ["p", "a", "b"];
    assert order[..1] == ["p"] && order[..2] == ["p", "a"];
    assert Topological(PLANNED_GRAPH, order);
    TopologicalMeansAcyclic(PLANNED_GRAPH, order);
  }

  lemma PlannedWellFormed()
    ensures WellFormed(PLANNED)
  {
    hide DepGraph, Acyclic, Closed, NoDuplicates, Ids;
    PlannedGraph();
    PlannedSound();
  }

  lemma PlannedValidated()
    ensures Validated(PLANNED) && NoAuxSkip(PLANNED)
  {
    hide WellFormed;
    PlannedWellFormed();
    PlannedSteps();
    assert BuildAuxSteps(PLANNED.steps) == {};
  }

  lemma PlannedMoves()
    ensures Moves(PLANNED, map[], Dispatch("p"), map["p" := Queued])
    ensures Moves(PLANNED, map["p" := Queued], Complete("p"), PLAN_DONE)
  {
    PlannedSteps();
    MovesReady(PLANNED, map[], PLANNED.steps[0]);
  }

  lemma PlannedRun()
    ensures var actions := [Dispatch("p"), Complete("p")];
            Legal(PLANNED, map[], actions) && After(PLANNED, map[], actions) == PLAN_DONE
  {
    hide Moves, Next, Enabled;
    PlannedMoves();
    LegalOn(PLANNED, map[], [], Dispatch("p"), map["p" := Queued]);
    assert [] + [Dispatch("p")] == [Dispatch("p")];
    LegalOn(PLANNED, map[], [Dispatch("p")], Complete("p"), PLAN_DONE);
    assert [Dispatch("p")] + [Complete("p")] == [Dispatch("p"), Complete("p")];
  }

  lemma ReachingStructure()
    ensures NoDuplicates(Ids(REACHING)) && Closed(DepGraph(REACHING)) && Acyclic(DepGraph(REACHING))
  {
    var g := DepGraph(REACHING);
    assert Ids(REACHING) == ["x"];
    DepGraphNodes(REACHING);
    DepGraphAt(REACHING, 0);
    assert Topological(g, ["x"]);
    TopologicalMeansAcyclic(g, ["x"]);
  }

  /** The fragment passes every check the engine makes of it. */
  lemma ReachingAccepted()
    ensures ValidFragment(Namespaced("p", REACHING), PlannerConfig(1, 0, []), Elements(Ids(PLANNED.steps)),
        (t, w) => true)
    ensures Graftable(PLANNED, "p", REACHING)
  {
    hide NoDuplicates, Closed, Acyclic, DepGraph;
    ReachingStructure();
    PlannedSteps();
    assert |Qualify("p", "x")| == 3;
    assert "p" in Ids(PLANNED.steps);
    assert TasksOk(REACHING, [], (t, w) => true);
    ValidatingAfterNamespacing("p", REACHING, PlannerConfig(1, 0, []), Elements(Ids(PLANNED.steps)), (t, w) => true);
  }

  lemma ReachingTargets()
    ensures FragmentTargets(REACHING) == {"a"} && NoTargetSkip(PLANNED, "p", REACHING)
    ensures !GraftFlows(PLANNED, "p", REACHING, PLAN_DONE)
  {
    PlannedSteps();
    assert REACHING[0] in REACHING;
    var s := PLANNED.steps[2];
    assert s.id !in {"a"} && StatusOf(PLAN_DONE, s.id).Pending? && "a" in s.dependsOn &&
      StatusOf(PLAN_DONE, "a").Pending?;
  }

  lemma PlanUntroubled()
    ensures Untroubled(PLANNED, PLAN_DONE) && FlowClear(PLANNED, PLAN_DONE) && PLANNED.auxSteps == {}
  {
    PlannedSteps();
  }

  /**
   The planner has just completed, and the run could go on to completion. After
   grafting an accepted fragment it cannot unless a step fails: the fragment's
   target makes the static step a auxiliary, a is still pending, and b waits on it.
   */
  lemma UnrenamedTargetBlocksRun() returns (actions: seq<Action>)
    ensures Validated(PLANNED) && Legal(PLANNED, map[], actions) && After(PLANNED, map[], actions) == PLAN_DONE
    ensures ValidFragment(Namespaced("p", REACHING), PlannerConfig(1, 0, []), Elements(Ids(PLANNED.steps)),
        (t, w) => true)
    ensures CanCompleteFrom(PLANNED, PLAN_DONE)
    ensures var dyn := Grafted("p", REACHING);
            !CanCompleteFrom(EffectiveDef(PLANNED, dyn), WithPending(PLAN_DONE, Ids(dyn)))
  {
    hide CanCompleteFrom, WellFormed, Untroubled, Stuck, FlowClear, Graftable, ValidFragment, NoAuxSkip, Legal,
      GraftFlows, NoTargetSkip, Ids, BuildAuxSteps;
    actions := [Dispatch("p"), Complete("p")];
    PlannedValidated();
    PlannedRun();
    ReachingAccepted();
    ReachingTargets();
    PlanUntroubled();
    CompletesFromIff(PLANNED, PLAN_DONE);
    ClearIffUnstuck(PLANNED, PLAN_DONE);
    GraftContinuesRun(PLANNED, "p", REACHING, PLAN_DONE);
  }

  // ---------------------------------------------------------------- two planners

  const TWO_PLANNERS: WorkflowDef :=
    WorkflowDef("w", [PlainStep("p", []).(stepType := Planner), PlainStep("q", []).(stepType := Planner)], {}, 0)

  /** The steps each planner materializes from a one-step fragment x. */
  const FIRST: seq<StepDef> := Grafted("p", [PlainStep("x", [])])
  const SECOND: seq<StepDef> := Grafted("q", [PlainStep("x", [])])

  lemma FirstSecond()
    ensures FIRST == [PlainStep("p.x", ["p"])] && SECOND == [PlainStep("q.x", ["q"])]
  {
    assert Qualify("p", "x") == "p.x" && Qualify("q", "x") == "q.x";
  }

  const BOTH_PLANNED: Run := map["p" := Completed, "q" := Completed, "p.x" := Pending]

  lemma PlannersMove()
    ensures Moves(TWO_PLANNERS, map[], Dispatch("p"), map["p" := Queued])
    ensures Moves(TWO_PLANNERS, map["p" := Queued], Dispatch("q"), map["p" := Queued, "q" := Queued])
    ensures Moves(TWO_PLANNERS, map["p" := Queued, "q" := Queued], Complete("p"), map["p" := Completed, "q" := Queued])
  {
    var def := TWO_PLANNERS;
    assert def.steps[0] in def.steps && def.steps[1] in def.steps;
    MovesReady(def, map[], def.steps[0]);
    MovesReady(def, map["p" := Queued], def.steps[1]);
  }

  lemma PlannersRun()
    ensures var actions := [Dispatch("p"), Dispatch("q"), Complete("p")];
            && Legal(TWO_PLANNERS, map[], actions)
            && After(TWO_PLANNERS, map[], actions) == map["p" := Completed, "q" := Queued]
  {
    hide Moves, Next, Enabled;
    PlannersMove();
    LegalOn(TWO_PLANNERS, map[], [], Dispatch("p"), map["p" := Queued]);
    assert [] + [Dispatch("p")] == [Dispatch("p")];
    LegalOn(TWO_PLANNERS, map[], [Dispatch("p")], Dispatch("q"), map["p" := Queued, "q" := Queued]);
    assert [Dispatch("p")] + [Dispatch("q")] == [Dispatch("p"), Dispatch("q")];
    LegalOn(TWO_PLANNERS, map[], [Dispatch("p"), Dispatch("q")], Complete("p"), map["p" := Completed, "q" := Queued]);
    assert [Dispatch("p"), Dispatch("q")] + [Complete("p")] == [Dispatch("p"), Dispatch("q"), Complete("p")];
  }

  lemma SecondPlannerCompletes()
    ensures Moves(EffectiveDef(TWO_PLANNERS, FIRST), WithPending(map["p" := Completed, "q" := Queued], ["p.x"]),
                  Complete("q"), BOTH_PLANNED)
  {
    hide Qualify, Grafted, IsPlanner, WithPending, EffectiveDef, AfterRecovery;
    SecondPlans();
    FirstPending();
    assert map["p" := Completed, "q" := Queued, "p.x" := Pending]["q" := Completed] == BOTH_PLANNED;
  }

  lemma SecondPlans()
    ensures IsPlanner(EffectiveDef(TWO_PLANNERS, FIRST), "q")
  {
    hide Qualify, Grafted, BuildAuxSteps;
    FirstSecond();
    var e := EffectiveDef(TWO_PLANNERS, FIRST);
    assert e.steps[1] in e.steps && e.steps[1].id == "q";
  }

  lemma FirstPending()
    ensures WithPending(map["p" := Completed, "q" := Queued], ["p.x"]) ==
            map["p" := Completed, "q" := Queued, "p.x" := Pending]
  {
  }

  lemma FirstReady()
    ensures FIRST[0] in FIRST
    ensures var twice := EffectiveDef(EffectiveDef(TWO_PLANNERS, FIRST), FIRST + SECOND);
            var run := WithPending(BOTH_PLANNED, ["q.x"]);
            IsReady(twice, CompletedSet(run), QueuedSet(run), FIRST[0])
  {
    hide Qualify, Grafted;
    FirstSecond();
    var twice := EffectiveDef(EffectiveDef(TWO_PLANNERS, FIRST), FIRST + SECOND);
    assert forall s | s in twice.steps :: s.onFailure == "" && s.compensate == "";
    assert twice.auxSteps == {};
  }

  /**
   The first planner's step is recorded but not yet dispatched when the second
   planner completes, as after a crash between the two: the effective definition
   then lists that step twice, and the resolver returns it as ready twice.
   */
  lemma SecondGraftListsTwice() returns (actions: seq<Action>)
    ensures Legal(TWO_PLANNERS, map[], actions) &&
        After(TWO_PLANNERS, map[], actions) == map["p" := Completed, "q" := Queued]
    ensures Moves(EffectiveDef(TWO_PLANNERS, FIRST), WithPending(map["p" := Completed, "q" := Queued], Ids(FIRST)),
                  Complete("q"), BOTH_PLANNED)
    ensures var twice := EffectiveDef(EffectiveDef(TWO_PLANNERS, FIRST), FIRST + SECOND);
            var run := WithPending(BOTH_PLANNED, Ids(SECOND));
            && !NoDuplicates(Ids(twice.steps))
            && multiset(Ready(twice, CompletedSet(run), QueuedSet(run)))[FIRST[0]] >= 2
  {
    hide Moves, Legal, After, EffectiveDef, Ready, IsReady, WithPending, NoDuplicates, Qualify, Grafted;
    actions := [Dispatch("p"), Dispatch("q"), Complete("p")];
    PlannersRun();
    FirstSecond();
    assert Ids(FIRST) == ["p.x"] && Ids(SECOND) == ["q.x"];
    SecondPlannerCompletes();
    FirstReady();
    var run := WithPending(BOTH_PLANNED, ["q.x"]);
    ReappliedReadyTwice(TWO_PLANNERS, FIRST, SECOND, CompletedSet(run), QueuedSet(run), FIRST[0]);
    PlannersUnique();
    ReappliedIdsUniqueIff(TWO_PLANNERS, FIRST, SECOND);
  }

  lemma PlannersUnique()
    ensures NoDuplicates(Ids(TWO_PLANNERS.steps + FIRST + SECOND))
  {
    hide Qualify, Grafted;
    FirstSecond();
    assert Ids(TWO_PLANNERS.steps + FIRST + SECOND) == ["p", "q", "p.x", "q.x"];
  }
}
