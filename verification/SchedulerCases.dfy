/**
 Definitions and runs that show where the scheduler's promises end: a recovery
 that lets a step start early, a handler queued again after it completed, and a
 definition that only a failure completes.
 */
module SchedulerCases {
  import opened Graphs
  import opened Dag
  import opened Scheduler

  // ---------------------------------------------------------------- a recovery that runs ahead

  /** f has the handler h; s needs f and g, t needs s. */
  const RECOVERS_EARLY: WorkflowDef :=
    WorkflowDef("w", [PlainStep("f", []).(onFailure := "h"), PlainStep("g", []), PlainStep("s", ["f", "g"]),
                      PlainStep("t", ["s"]), PlainStep("h", [])], {"h"}, 0)

  lemma EarlySteps()
    ensures var steps := RECOVERS_EARLY.steps;
            && (forall x | x in steps ::
                 x == steps[0] || x == steps[1] || x == steps[2] || x == steps[3] || x == steps[4])
            && steps[0] in steps && steps[1] in steps && steps[2] in steps && steps[3] in steps && steps[4] in steps
            && Ids(steps) == ["f", "g", "s", "t", "h"]
  {
  }

  const EARLY_GRAPH: Graph := map["f" := [], "g" := [], "s" := ["f", "g"], "t" := ["s"], "h" := []]

  lemma EarlyGraph()
    ensures DepGraph(RECOVERS_EARLY.steps) == EARLY_GRAPH && NoDuplicates(Ids(RECOVERS_EARLY.steps))
  {
    hide DepGraph;
    EarlySteps();
    GraphOfSteps(RECOVERS_EARLY.steps, EARLY_GRAPH);
  }

  lemma EarlySound()
    ensures Closed(EARLY_GRAPH) && Acyclic(EARLY_GRAPH)
  {
    hide Acyclic;
    var order := ["f", "g", "s", "t", "h"];
    assert order[..2] == ["f", "g"] && order[..3] == ["f", "g", "s"];
    assert Topological(EARLY_GRAPH, order);
    TopologicalMeansAcyclic(EARLY_GRAPH, order);
  }

  lemma EarlyWellFormed()
    ensures WellFormed(RECOVERS_EARLY)
  {
    hide DepGraph, Acyclic, Closed, NoDuplicates, Ids;
    EarlyGraph();
    EarlySound();
  }

  lemma EarlyValidated()
    ensures Validated(RECOVERS_EARLY)
  {
    hide WellFormed;
    EarlyWellFormed();
    EarlySteps();
    assert BuildAuxSteps(RECOVERS_EARLY.steps) == {"h"};
  }

  lemma EarlyDispatch()
    ensures Moves(RECOVERS_EARLY, map[], Dispatch("f"), map["f" := Queued])
    ensures Moves(RECOVERS_EARLY, map["f" := Queued], Dispatch("g"), map["f" := Queued, "g" := Queued])
  {
    EarlySteps();
    MovesReady(RECOVERS_EARLY, map[], RECOVERS_EARLY.steps[0]);
    MovesReady(RECOVERS_EARLY, map["f" := Queued], RECOVERS_EARLY.steps[1]);
  }

  lemma EarlyFail()
    ensures Moves(RECOVERS_EARLY, map["f" := Queued, "g" := Queued], Fail("f"), map["f" := Failed, "g" := Queued])
    ensures Moves(RECOVERS_EARLY, map["f" := Failed, "g" := Queued], Trigger("h"),
        map["f" := Failed, "g" := Queued, "h" := Queued])
  {
    EarlySteps();
  }

  const STUCK_RUN: Run := map["f" := Recovered, "g" := Queued, "h" := Completed]

  lemma EarlyDragged()
    ensures PendingOn(RECOVERS_EARLY.steps, STUCK_RUN, "f") == {"s"}
  {
    EarlySteps();
    assert PendingDependent(STUCK_RUN, "f", RECOVERS_EARLY.steps[2]);
  }

  lemma EarlyOnlyFailed()
    ensures var def, run := RECOVERS_EARLY, map["f" := Failed, "g" := Queued, "h" := Queued];
            && def.steps[0] in def.steps && !IsPlanner(def, "h")
            && forall s | s in def.steps && StatusOf(run, s.id).Failed? :: s == def.steps[0]
  {
    EarlySteps();
  }

  lemma EarlyRecover()
    ensures Moves(RECOVERS_EARLY, map["f" := Failed, "g" := Queued, "h" := Queued], Complete("h"),
                  map["f" := Recovered, "g" := Queued, "h" := Completed, "s" := Skipped])
  {
    hide Moves, PendingOn, IsPlanner;
    var def, run := RECOVERS_EARLY, map["f" := Failed, "g" := Queued, "h" := Queued];
    EarlyOnlyFailed();
    EarlyDragged();
    MovesRecover(def, run, def.steps[0]);
    assert run["h" := Completed]["f" := Recovered] == STUCK_RUN;
    assert Skipping(STUCK_RUN, {"s"}) == map["f" := Recovered, "g" := Queued, "h" := Completed, "s" := Skipped];
  }

  lemma EarlyAhead()
    ensures Moves(RECOVERS_EARLY, map["f" := Recovered, "g" := Queued, "h" := Completed, "s" := Skipped], Dispatch("t"),
                  map["f" := Recovered, "g" := Queued, "h" := Completed, "s" := Skipped, "t" := Queued])
  {
    EarlySteps();
    MovesReady(RECOVERS_EARLY, map["f" := Recovered, "g" := Queued, "h" := Completed, "s" := Skipped],
      RECOVERS_EARLY.steps[3]);
  }

  /**
   A validated definition and a run in which t is dispatched while g, which it
   depends on through s, is still in flight: recovering f skips s at once.
   */
  lemma RecoveryRunsAhead() returns (actions: seq<Action>)
    ensures Validated(RECOVERS_EARLY) && Legal(RECOVERS_EARLY, map[], actions)
    ensures var run := After(RECOVERS_EARLY, map[], actions);
            StatusOf(run, "t").Queued? && StatusOf(run, "g").Queued? && !DependencyClosed(RECOVERS_EARLY, run)
  {
    hide Validated, Moves, Legal, Next, Enabled;
    EarlyValidated();
    var def := RECOVERS_EARLY;
    actions := [];
    assert Legal(def, map[], []) && After(def, map[], []) == map[] by { NoActions(def); }
    EarlyDispatch();
    LegalOn(def, map[], actions, Dispatch("f"), map["f" := Queued]);
    actions := actions + [Dispatch("f")];
    LegalOn(def, map[], actions, Dispatch("g"), map["f" := Queued, "g" := Queued]);
    actions := actions + [Dispatch("g")];
    EarlyFail();
    LegalOn(def, map[], actions, Fail("f"), map["f" := Failed, "g" := Queued]);
    actions := actions + [Fail("f")];
    LegalOn(def, map[], actions, Trigger("h"), map["f" := Failed, "g" := Queued, "h" := Queued]);
    actions := actions + [Trigger("h")];
    EarlyRecover();
    LegalOn(def, map[], actions, Complete("h"), map["f" := Recovered, "g" := Queued, "h" := Completed, "s" := Skipped]);
    actions := actions + [Complete("h")];
    EarlyAhead();
    var run := map["f" := Recovered, "g" := Queued, "h" := Completed, "s" := Skipped, "t" := Queued];
    LegalOn(def, map[], actions, Dispatch("t"), run);
    actions := actions + [Dispatch("t")];
    EarlyOpen(run);
  }

  lemma EarlyOpen(run: Run)
    requires run == map["f" := Recovered, "g" := Queued, "h" := Completed, "s" := Skipped, "t" := Queued]
    ensures !DependencyClosed(RECOVERS_EARLY, run)
  {
    EarlySteps();
    var s := RECOVERS_EARLY.steps[2];
    assert "g" in s.dependsOn && "g" !in CompletedSet(run);
  }

  lemma NoActions(def: WorkflowDef)
    ensures Legal(def, map[], []) && After(def, map[], []) == map[]
  {
  }

  // ---------------------------------------------------------------- a handler that is queued again

  /** f and g share the handler h. */
  const SHARES_HANDLER: WorkflowDef :=
    WorkflowDef("w", [PlainStep("f", []).(onFailure := "h"), PlainStep("g", []).(onFailure := "h"), PlainStep("h", [])],
                {"h"}, 0)

  lemma SharedSteps()
    ensures var steps := SHARES_HANDLER.steps;
            && (forall x | x in steps :: x == steps[0] || x == steps[1] || x == steps[2])
            && steps[0] in steps && steps[1] in steps && steps[2] in steps
  {
  }

  const HANDLED: Run := map["f" := Recovered, "g" := Queued, "h" := Completed]

  lemma SharedFails()
    ensures Moves(SHARES_HANDLER, map[], Dispatch("f"), map["f" := Queued])
    ensures Moves(SHARES_HANDLER, map["f" := Queued], Dispatch("g"), map["f" := Queued, "g" := Queued])
    ensures Moves(SHARES_HANDLER, map["f" := Queued, "g" := Queued], Fail("f"), map["f" := Failed, "g" := Queued])
    ensures Moves(SHARES_HANDLER, map["f" := Failed, "g" := Queued], Trigger("h"),
                  map["f" := Failed, "g" := Queued, "h" := Queued])
  {
    SharedSteps();
    MovesReady(SHARES_HANDLER, map[], SHARES_HANDLER.steps[0]);
    MovesReady(SHARES_HANDLER, map["f" := Queued], SHARES_HANDLER.steps[1]);
  }

  lemma SharedAlone()
    ensures var def, run := SHARES_HANDLER, map["f" := Failed, "g" := Queued, "h" := Queued];
            && def.steps[0] in def.steps && !IsPlanner(def, "h")
            && (forall s | s in def.steps && StatusOf(run, s.id).Failed? :: s == def.steps[0])
            && PendingOn(def.steps, HANDLED, "f") == {}
  {
    SharedSteps();
  }

  lemma SharedRecovers()
    ensures Moves(SHARES_HANDLER, map["f" := Failed, "g" := Queued, "h" := Queued], Complete("h"), HANDLED)
  {
    hide Moves, PendingOn, IsPlanner;
    var def, run := SHARES_HANDLER, map["f" := Failed, "g" := Queued, "h" := Queued];
    SharedAlone();
    MovesRecover(def, run, def.steps[0]);
    assert run["h" := Completed]["f" := Recovered] == HANDLED;
    assert Skipping(HANDLED, {}) == HANDLED;
  }

  lemma SharedFailsAgain()
    ensures Moves(SHARES_HANDLER, HANDLED, Fail("g"), map["f" := Recovered, "g" := Failed, "h" := Completed])
    ensures Moves(SHARES_HANDLER, map["f" := Recovered, "g" := Failed, "h" := Completed], Trigger("h"),
                  map["f" := Recovered, "g" := Failed, "h" := Queued])
  {
    SharedSteps();
  }

  /** A run in which a completed handler is queued again, and so leaves the completed set. */
  lemma HandlerLeavesCompleted() returns (before: seq<Action>, after: seq<Action>)
    ensures Legal(SHARES_HANDLER, map[], before) && before <= after && Legal(SHARES_HANDLER, map[], after)
    ensures "h" in CompletedSet(After(SHARES_HANDLER, map[], before))
    ensures "h" !in CompletedSet(After(SHARES_HANDLER, map[], after))
  {
    hide Moves, Legal, Next, Enabled;
    var def := SHARES_HANDLER;
    NoActions(def);
    before := [];
    SharedFails();
    LegalOn(def, map[], before, Dispatch("f"), map["f" := Queued]);
    before := before + [Dispatch("f")];
    LegalOn(def, map[], before, Dispatch("g"), map["f" := Queued, "g" := Queued]);
    before := before + [Dispatch("g")];
    LegalOn(def, map[], before, Fail("f"), map["f" := Failed, "g" := Queued]);
    before := before + [Fail("f")];
    LegalOn(def, map[], before, Trigger("h"), map["f" := Failed, "g" := Queued, "h" := Queued]);
    before := before + [Trigger("h")];
    SharedRecovers();
    LegalOn(def, map[], before, Complete("h"), HANDLED);
    before := before + [Complete("h")];
    SharedFailsAgain();
    LegalOn(def, map[], before, Fail("g"), map["f" := Recovered, "g" := Failed, "h" := Completed]);
    after := before + [Fail("g")];
    LegalOn(def, map[], after, Trigger("h"), map["f" := Recovered, "g" := Failed, "h" := Queued]);
    after := after + [Trigger("h")];
  }

  // ---------------------------------------------------------------- a definition that waits on its handler

  /** Step b waits on h, which only the failure of a dispatches. */
  const WAITS_ON_HANDLER: WorkflowDef :=
    WorkflowDef("w", [PlainStep("a", []).(onFailure := "h"), PlainStep("h", []), PlainStep("b", ["h"])], {"h"}, 0)

  lemma HandlerGraph()
    ensures WellFormed(WAITS_ON_HANDLER)
  {
    var steps := WAITS_ON_HANDLER.steps;
    var g, order := DepGraph(steps), ["a", "h", "b"];
    assert Ids(steps) == order;
    DepGraphNodes(steps);
    DepGraphAt(steps, 0);
    DepGraphAt(steps, 1);
    DepGraphAt(steps, 2);
    assert order[..2] == ["a", "h"];
    assert Topological(g, order);
    TopologicalMeansAcyclic(g, order);
  }

  /** Validation admits a definition that cannot complete when nothing fails. */
  lemma ValidationAdmitsADeadEnd()
    ensures Validated(WAITS_ON_HANDLER)
    ensures !CanComplete(WAITS_ON_HANDLER)
  {
    hide Acyclic, Closed, DepGraph, CanComplete;
    var def := WAITS_ON_HANDLER;
    var a, h, b := def.steps[0], def.steps[1], def.steps[2];
    HandlerGraph();
    assert a in def.steps && h in def.steps && b in def.steps;
    assert forall s | s in def.steps :: s == a || s == h || s == b;
    assert BuildAuxSteps(def.steps) == {"h"};
    CompletesIffNoAuxDeps(def);
    assert "h" in b.dependsOn;
  }

  lemma HandlerSteps()
    ensures var steps := WAITS_ON_HANDLER.steps;
            && (forall x | x in steps :: x == steps[0] || x == steps[1] || x == steps[2])
            && steps[0] in steps && steps[1] in steps && steps[2] in steps
  {
  }

  lemma HandlerFails()
    ensures Moves(WAITS_ON_HANDLER, map[], Dispatch("a"), map["a" := Queued])
    ensures Moves(WAITS_ON_HANDLER, map["a" := Queued], Fail("a"), map["a" := Failed])
    ensures Moves(WAITS_ON_HANDLER, map["a" := Failed], Trigger("h"), map["a" := Failed, "h" := Queued])
  {
    HandlerSteps();
    MovesReady(WAITS_ON_HANDLER, map[], WAITS_ON_HANDLER.steps[0]);
  }

  lemma HandlerRecovers()
    ensures Moves(WAITS_ON_HANDLER, map["a" := Failed, "h" := Queued], Complete("h"),
        map["a" := Recovered, "h" := Completed])
  {
    hide Moves;
    var def, run := WAITS_ON_HANDLER, map["a" := Failed, "h" := Queued];
    var run1 := map["a" := Recovered, "h" := Completed];
    HandlerSteps();
    MovesRecover(def, run, def.steps[0]);
    assert run["h" := Completed]["a" := Recovered] == run1;
    assert PendingOn(def.steps, run1, "a") == {};
    assert Skipping(run1, {}) == run1;
  }

  lemma HandlerFinishes()
    ensures Moves(WAITS_ON_HANDLER, map["a" := Recovered, "h" := Completed], Dispatch("b"),
                  map["a" := Recovered, "h" := Completed, "b" := Queued])
    ensures Moves(WAITS_ON_HANDLER, map["a" := Recovered, "h" := Completed, "b" := Queued], Complete("b"),
                  map["a" := Recovered, "h" := Completed, "b" := Completed])
    ensures IsComplete(WAITS_ON_HANDLER, CompletedSet(map["a" := Recovered, "h" := Completed, "b" := Completed]))
  {
    HandlerSteps();
    MovesReady(WAITS_ON_HANDLER, map["a" := Recovered, "h" := Completed], WAITS_ON_HANDLER.steps[2]);
    MovesComplete(WAITS_ON_HANDLER, map["a" := Recovered, "h" := Completed, "b" := Queued], "b");
  }

  /** Only a failure gets it through: when a fails, its handler runs and b follows. */
  lemma FailureLiftsTheDeadEnd() returns (actions: seq<Action>)
    ensures Legal(WAITS_ON_HANDLER, map[], actions)
    ensures IsComplete(WAITS_ON_HANDLER, CompletedSet(After(WAITS_ON_HANDLER, map[], actions)))
  {
    hide Moves, Legal, Next, Enabled, IsComplete;
    var def := WAITS_ON_HANDLER;
    NoActions(def);
    actions := [];
    HandlerFails();
    LegalOn(def, map[], actions, Dispatch("a"), map["a" := Queued]);
    actions := actions + [Dispatch("a")];
    LegalOn(def, map[], actions, Fail("a"), map["a" := Failed]);
    actions := actions + [Fail("a")];
    LegalOn(def, map[], actions, Trigger("h"), map["a" := Failed, "h" := Queued]);
    actions := actions + [Trigger("h")];
    HandlerRecovers();
    LegalOn(def, map[], actions, Complete("h"), map["a" := Recovered, "h" := Completed]);
    actions := actions + [Complete("h")];
    HandlerFinishes();
    LegalOn(def, map[], actions, Dispatch("b"), map["a" := Recovered, "h" := Completed, "b" := Queued]);
    actions := actions + [Dispatch("b")];
    LegalOn(def, map[], actions, Complete("b"), map["a" := Recovered, "h" := Completed, "b" := Completed]);
    actions := actions + [Complete("b")];
  }
}
