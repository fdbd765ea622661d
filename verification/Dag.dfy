/**
 The workflow definition types of dag/types.go, reduced to the fields the
 scheduler, the fragment grafting and the compensation logic read. An unset
 OnFailure or Compensate is the empty string, as in the source.
 */
module Dag {
  import opened Graphs

  datatype Option<+T> = None | Some(value: T)

  datatype StepType =
    | Normal | AgentLoop | SubWorkflow | Agent | Map | Sleep | WaitForEvent | Approval | Planner | Respond

  /** A SkipIf condition. Whether it holds is decided from the run's step outputs. */
  datatype ParentCond = ParentCond(stepId: string, field: string, op: string, value: string)

  datatype StepDef = StepDef(
    id: string,
    task: string,
    dependsOn: seq<string>,
    stepType: StepType,
    skipIf: Option<ParentCond>,
    onFailure: string,
    compensate: string,
    workerGroup: string,
    timeout: int,
    retries: int,
    metadata: map<string, string>)

  datatype WorkflowDef = WorkflowDef(name: string, steps: seq<StepDef>, auxSteps: set<string>, timeout: int)

  function Ids(steps: seq<StepDef>): (r: seq<string>)
    ensures |r| == |steps|
    ensures forall i | 0 <= i < |steps| :: r[i] == steps[i].id
  {
    seq(|steps|, i requires 0 <= i < |steps| => steps[i].id)
  }

  function AddDeps(g: Graph, id: string, deps: seq<string>): Graph {
    g[id := (if id in g then g[id] else []) + deps]
  }

  /** The dependency graph of a step list; steps that share an ID share a node. */
  function DepGraph(steps: seq<StepDef>): Graph {
    if steps == [] then map[]
    else
      var last := steps[|steps| - 1];
      AddDeps(DepGraph(steps[..|steps| - 1]), last.id, last.dependsOn)
  }

  lemma {:induction false} DepGraphNodes(steps: seq<StepDef>)
    ensures forall n :: n in DepGraph(steps) <==> n in Ids(steps)
    ensures |DepGraph(steps)| <= |steps|
    ensures |DepGraph(steps)| == |steps| <==> NoDuplicates(Ids(steps))
  {
    if steps != [] {
      var init, last := steps[..|steps| - 1], steps[|steps| - 1];
      DepGraphNodes(init);
      assert Ids(steps) == Ids(init) + [last.id];
      assert DepGraph(steps).Keys == DepGraph(init).Keys + {last.id};
      if last.id in Ids(init) {
        var i :| 0 <= i < |init| && Ids(init)[i] == last.id;
        assert Ids(steps)[i] == Ids(steps)[|steps| - 1];
      } else {
        assert |DepGraph(steps)| == |DepGraph(init)| + 1;
        if NoDuplicates(Ids(init)) { assert NoDuplicates(Ids(steps)); }
        if NoDuplicates(Ids(steps)) {
          forall i, j | 0 <= i < j < |init| ensures Ids(init)[i] != Ids(init)[j] {
            assert Ids(steps)[i] != Ids(steps)[j];
          }
        }
      }
    }
  }

  /** A node's dependencies are those of the steps with its ID. */
  lemma {:induction false} DepGraphEdge(steps: seq<StepDef>, n: string, d: string)
    ensures (n in DepGraph(steps) && d in DepGraph(steps)[n]) <==> exists s ::
        s in steps && s.id == n && d in s.dependsOn
  {
    if steps != [] {
      var init, last := steps[..|steps| - 1], steps[|steps| - 1];
      DepGraphEdge(init, n, d);
      assert steps == init + [last];
    }
  }

  /** With unique IDs a node's dependencies are exactly its step's DependsOn. */
  lemma {:induction false} DepGraphAt(steps: seq<StepDef>, i: nat)
    requires NoDuplicates(Ids(steps)) && i < |steps|
    ensures steps[i].id in DepGraph(steps) && DepGraph(steps)[steps[i].id] == steps[i].dependsOn
  {
    var init, last := steps[..|steps| - 1], steps[|steps| - 1];
    assert Ids(steps) == Ids(init) + [last.id];
    assert NoDuplicates(Ids(init)) by {
      forall a, b | 0 <= a < b < |init| ensures Ids(init)[a] != Ids(init)[b] {
        assert Ids(steps)[a] != Ids(steps)[b];
      }
    }
    DepGraphNodes(init);
    if i < |init| {
      DepGraphAt(init, i);
      assert Ids(steps)[i] != Ids(steps)[|steps| - 1];
    } else {
      assert last.id !in Ids(init) by {
        forall a | 0 <= a < |init| ensures Ids(init)[a] != last.id {
          assert Ids(steps)[a] != Ids(steps)[|steps| - 1];
        }
      }
      assert [] + last.dependsOn == last.dependsOn;
    }
  }

  lemma NodeOfSteps(steps: seq<StepDef>, n: string) returns (i: nat)
    requires NoDuplicates(Ids(steps)) && n in DepGraph(steps)
    ensures i < |steps| && steps[i].id == n && DepGraph(steps)[n] == steps[i].dependsOn
  {
    hide DepGraph, NoDuplicates;
    DepGraphNodes(steps);
    i :| i < |steps| && Ids(steps)[i] == n;
    DepGraphAt(steps, i);
  }

  lemma SameMap(a: Graph, b: Graph)
    requires |b| <= |a| && forall n | n in a :: n in b && a[n] == b[n]
    ensures a == b
  {
    assert a.Keys <= b.Keys;
    SubsetCount(a.Keys, b.Keys);
  }

  /** With unique IDs the graph is determined step by step. */
  lemma GraphOfSteps(steps: seq<StepDef>, g: Graph)
    requires NoDuplicates(Ids(steps)) && |g| <= |steps|
    requires forall i | 0 <= i < |steps| :: steps[i].id in g && g[steps[i].id] == steps[i].dependsOn
    ensures DepGraph(steps) == g
  {
    hide DepGraph, NoDuplicates, Ids;
    assert |DepGraph(steps)| == |steps| by { DepGraphNodes(steps); }
    forall n | n in DepGraph(steps) ensures n in g && DepGraph(steps)[n] == g[n] {
      var i := NodeOfSteps(steps, n);
    }
    SameMap(DepGraph(steps), g);
  }
}
