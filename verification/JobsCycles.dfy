/**
 The needs checks of the `jobs:` compiler (ci/jobs_compile.go): unknown needs,
 and the explicit-stack depth-first search that reports every needs cycle.
 */
module JobsCycles {
  import opened Graphs
  import opened Dag
  import opened Diagnostics
  import opened JobsGuard
  import opened JobsSpec
  import opened JobsParse

  /** The needs relation over the declared jobs. */
  function NeedsGraph(p: ParsedJobs): Graph {
    map id | id in p.jobs :: p.jobs[id].needs
  }

  // ---------------------------------------------------------------- unknown needs

  /** The job needs something that is not a job. */
  predicate Undeclared(p: ParsedJobs, id: string, need: string) {
    id in p.jobs && need in p.jobs[id].needs && need !in p.jobs
  }

  ghost predicate ReportsNeed(p: ParsedJobs, d: Diagnostic, id: string, need: string) {
    && Undeclared(p, id, need) && p.jobs[id].needsKey.Some?
    && d == DiagAt(p.jobs[id].needsKey.value, "jobs." + id + ".needs", UnknownNeed(id, need))
  }

  /** Reports each need that is not a job, at the needs key of the job that has it, and nothing else. */
  method NeedsDiagnostics(p: ParsedJobs, diags: seq<Diagnostic>)
    returns (r: seq<Diagnostic>, ghost raised: seq<Diagnostic>)
    requires Bounded(diags) && JobsInv(p)
    ensures r == AddAll(diags, raised)
    ensures forall id, need | Undeclared(p, id, need) :: exists d :: d in raised && ReportsNeed(p, d, id, need)
    ensures forall d | d in raised :: exists id, need :: ReportsNeed(p, d, id, need)
    ensures raised == [] <==> Closed(NeedsGraph(p))
    ensures |diags| < DIAGNOSTICS_MAX ==> (r == diags <==> Closed(NeedsGraph(p)))
  {
    hide AddAll, AddDiagnostic, JobsInv, ReportsNeed, Elements;
    r, raised := diags, [];
    NothingAdded(diags);
    IdsAreJobs(p);
    NeedsGraphy(p);
    var declared := Elements(p.ids);
    DeclaredAreJobs(p);
    for i := 0 to |p.ids|
      invariant r == AddAll(diags, raised)
      invariant forall k, need | 0 <= k < i && Undeclared(p, p.ids[k], need) :: exists d ::
          d in raised && ReportsNeed(p, d, p.ids[k], need)
      invariant forall d | d in raised :: exists id, need :: ReportsNeed(p, d, id, need)
    {
      ghost var more;
      r, more := JobNeeds(p, p.ids[i], declared, r);
      AddAllConcat(diags, raised, more);
      raised := raised + more;
    }
    forall id, need | Undeclared(p, id, need) ensures exists d :: d in raised && ReportsNeed(p, d, id, need) {
      var k :| 0 <= k < |p.ids| && p.ids[k] == id;
    }
    SilentMeansClosed(p, raised);
    LengthTellsBelowCap(diags, raised);
  }

  /** The undeclared needs of one job. */
  method JobNeeds(p: ParsedJobs, id: string, declared: set<string>, diags: seq<Diagnostic>)
    returns (r: seq<Diagnostic>, ghost raised: seq<Diagnostic>)
    requires Bounded(diags) && id in p.jobs && declared == p.jobs.Keys
    requires p.jobs[id].needs != [] ==> p.jobs[id].needsKey.Some?
    ensures r == AddAll(diags, raised)
    ensures forall need | Undeclared(p, id, need) :: exists d :: d in raised && ReportsNeed(p, d, id, need)
    ensures forall d | d in raised :: exists i, need :: ReportsNeed(p, d, i, need)
  {
    hide AddAll, AddDiagnostic;
    var job := p.jobs[id];
    r, raised := diags, [];
    NothingAdded(diags);
    for j := 0 to |job.needs|
      invariant r == AddAll(diags, raised)
      invariant forall k | 0 <= k < j && job.needs[k] !in p.jobs :: exists d ::
          d in raised && ReportsNeed(p, d, id, job.needs[k])
      invariant forall d | d in raised :: exists i, need :: ReportsNeed(p, d, i, need)
    {
      if job.needs[j] !in declared {
        var d := DiagAt(job.needsKey.value, "jobs." + id + ".needs", UnknownNeed(id, job.needs[j]));
        assert ReportsNeed(p, d, id, job.needs[j]);
        AddAllOne(diags, raised, d);
        r, raised := AddDiagnostic(r, d), raised + [d];
        assert d in raised;
      }
    }
  }

  lemma DeclaredAreJobs(p: ParsedJobs)
    requires JobsInv(p)
    ensures Elements(p.ids) == p.jobs.Keys
  {
  }

  lemma SilentMeansClosed(p: ParsedJobs, raised: seq<Diagnostic>)
    requires JobsInv(p)
    requires forall id, need | Undeclared(p, id, need) :: exists d :: d in raised && ReportsNeed(p, d, id, need)
    requires forall d | d in raised :: exists id, need :: ReportsNeed(p, d, id, need)
    ensures raised == [] <==> Closed(NeedsGraph(p))
  {
    hide JobsInv;
    var g := NeedsGraph(p);
    if raised == [] {
      forall n, d | n in g && d in g[n] ensures d in g { assert !Undeclared(p, n, d); }
    } else {
      assert raised[0] in raised;
      var id, need :| ReportsNeed(p, raised[0], id, need);
      assert id in g && need in g[id] && need !in g;
    }
  }

  // ---------------------------------------------------------------- search state

  datatype Color = White | Gray | Black

  datatype Frame = Frame(id: string, next: nat)

  function ColorOf(color: map<string, Color>, id: string): Color {
    if id in color then color[id] else White
  }

  function FrameIds(stack: seq<Frame>): (r: seq<string>)
    ensures |r| == |stack|
    ensures forall i | 0 <= i < |stack| :: r[i] == stack[i].id
  {
    seq(|stack|, i requires 0 <= i < |stack| => stack[i].id)
  }

  /** Gray is on the stack, black is finished; the stack is a path of distinct unfinished jobs. */
  ghost predicate Searching(g: Graph, color: map<string, Color>, stack: seq<Frame>, order: seq<string>) {
    && NoDuplicates(FrameIds(stack)) && NoDuplicates(order)
    && (forall id :: ColorOf(color, id) == Gray <==> id in FrameIds(stack))
    && (forall id :: ColorOf(color, id) == Black <==> id in order)
    && (forall k | 0 <= k < |stack| :: stack[k].id in g && stack[k].next <= |g[stack[k].id]|)
    && (forall k | 0 <= k < |stack| - 1 :: stack[k].next >= 1 && g[stack[k].id][stack[k].next - 1] == stack[k + 1].id)
    && (forall id | id in order :: id in g)
  }

  /** Needs a frame is done with; the need it descended into is not done yet. */
  function Explored(stack: seq<Frame>, k: nat): int
    requires k < |stack|
  {
    if k == |stack| - 1 then stack[k].next else stack[k].next - 1
  }

  /** While nothing was reported: everything explored is finished, and finished jobs follow their needs. */
  ghost predicate Settled(g: Graph, stack: seq<Frame>, order: seq<string>) {
    && (forall i, d | 0 <= i < |order| && order[i] in g && d in g[order[i]] && d in g :: d in order[..i])
    && (forall k, m | 0 <= k < |stack| && stack[k].id in g && 0 <= m < Explored(stack, k) && m < |g[stack[k].id]| ::
          g[stack[k].id][m] in g ==> g[stack[k].id][m] in order)
  }

  function Advanced(stack: seq<Frame>): seq<Frame>
    requires stack != []
  {
    var top := stack[|stack| - 1];
    stack[|stack| - 1 := Frame(top.id, top.next + 1)]
  }

  lemma AdvancedIds(stack: seq<Frame>)
    requires stack != []
    ensures FrameIds(Advanced(stack)) == FrameIds(stack)
  {
  }

  lemma AdvanceKeeps(g: Graph, color: map<string, Color>, stack: seq<Frame>, order: seq<string>)
    requires Searching(g, color, stack, order) && stack != []
    requires stack[|stack| - 1].next < |g[stack[|stack| - 1].id]|
    ensures Searching(g, color, Advanced(stack), order)
  {
    AdvancedIds(stack);
  }

  /** Stepping over a need that is finished or not a job. */
  lemma StepOverSettles(g: Graph, color: map<string, Color>, stack: seq<Frame>, order: seq<string>)
    requires Searching(g, color, stack, order) && stack != [] && Settled(g, stack, order)
    requires var top := stack[|stack| - 1];
             top.next < |g[top.id]| && (g[top.id][top.next] in g ==> g[top.id][top.next] in order)
    ensures Settled(g, Advanced(stack), order)
  {
    var s' := Advanced(stack);
    forall k, m | 0 <= k < |s'| && s'[k].id in g && 0 <= m < Explored(s', k) && m < |g[s'[k].id]|
      ensures g[s'[k].id][m] in g ==> g[s'[k].id][m] in order
    {
      if k < |stack| - 1 || m < stack[k].next {
        assert 0 <= m < Explored(stack, k);
      }
    }
  }

  /** Descending into an unvisited job. */
  lemma PushKeeps(g: Graph, color: map<string, Color>, stack: seq<Frame>, order: seq<string>, need: string)
    requires Searching(g, color, stack, order) && stack != []
    requires var top := stack[|stack| - 1]; top.next >= 1 && g[top.id][top.next - 1] == need
    requires need in g && ColorOf(color, need) == White
    ensures Searching(g, color[need := Gray], stack + [Frame(need, 0)], order)
  {
    assert FrameIds(stack + [Frame(need, 0)]) == FrameIds(stack) + [need];
    assert need !in FrameIds(stack) && need !in order;
  }

  lemma PushSettles(g: Graph, stack: seq<Frame>, order: seq<string>, need: string)
    requires stack != [] && Settled(g, stack, order) && stack[|stack| - 1].id in g
    requires stack[|stack| - 1].next < |g[stack[|stack| - 1].id]|
    ensures Settled(g, Advanced(stack) + [Frame(need, 0)], order)
  {
    var s' := Advanced(stack) + [Frame(need, 0)];
    forall k, m | 0 <= k < |s'| && s'[k].id in g && 0 <= m < Explored(s', k) && m < |g[s'[k].id]|
      ensures g[s'[k].id][m] in g ==> g[s'[k].id][m] in order
    {
      assert k < |stack| && 0 <= m < Explored(stack, k);
    }
  }

  /** Finishing the top job. */
  lemma PopKeeps(g: Graph, color: map<string, Color>, stack: seq<Frame>, order: seq<string>)
    requires Searching(g, color, stack, order) && stack != []
    ensures var top := stack[|stack| - 1];
            Searching(g, color[top.id := Black], stack[..|stack| - 1], order + [top.id])
  {
    var top, rest := stack[|stack| - 1], stack[..|stack| - 1];
    assert FrameIds(stack) == FrameIds(rest) + [top.id];
    assert FrameIds(stack)[|stack| - 1] == top.id;
    assert top.id in FrameIds(stack) && top.id !in order;
    assert top.id !in FrameIds(rest) by {
      forall k | 0 <= k < |rest|
        ensures FrameIds(rest)[k] != top.id { assert FrameIds(stack)[k] != FrameIds(stack)[|stack| - 1]; }
    }
    assert NoDuplicates(FrameIds(rest)) by {
      forall i, j | 0 <= i < j < |rest| ensures FrameIds(rest)[i] != FrameIds(rest)[j] {
        assert FrameIds(stack)[i] != FrameIds(stack)[j];
      }
    }
    var color' := color[top.id := Black];
    forall id ensures ColorOf(color', id) == Gray <==> id in FrameIds(rest) {
      assert id != top.id ==> (id in FrameIds(stack) <==> id in FrameIds(rest));
    }
    forall id ensures ColorOf(color', id) == Black <==> id in order + [top.id] {}
  }

  lemma PopSettles(g: Graph, color: map<string, Color>, stack: seq<Frame>, order: seq<string>)
    requires Searching(g, color, stack, order) && stack != [] && Settled(g, stack, order)
    requires stack[|stack| - 1].next == |g[stack[|stack| - 1].id]|
    ensures Settled(g, stack[..|stack| - 1], order + [stack[|stack| - 1].id])
  {
    var top, rest := stack[|stack| - 1], stack[..|stack| - 1];
    var order' := order + [top.id];
    forall i, d | 0 <= i < |order'| && order'[i] in g && d in g[order'[i]] && d in g ensures d in order'[..i] {
      if i < |order| {
        assert order'[..i] == order[..i];
      } else {
        var m :| 0 <= m < |g[top.id]| && g[top.id][m] == d;
        assert 0 <= m < Explored(stack, |stack| - 1);
        assert order'[..i] == order;
      }
    }
    forall k, m | 0 <= k < |rest| && rest[k].id in g && 0 <= m < Explored(rest, k) && m < |g[rest[k].id]|
      ensures g[rest[k].id][m] in g ==> g[rest[k].id][m] in order'
    {
      if k == |rest| - 1 && m == rest[k].next - 1 {
        assert g[rest[k].id][m] == top.id;
      } else {
        assert 0 <= m < Explored(stack, k);
      }
    }
  }

  // ---------------------------------------------------------------- step count

  function NextOf(next: map<string, nat>, id: string): nat {
    if id in next then next[id] else 0
  }

  /** Needs visited so far, over all jobs. */
  function Visited(ids: seq<string>, next: map<string, nat>): nat {
    if ids == [] then 0 else Visited(ids[..|ids| - 1], next) + NextOf(next, ids[|ids| - 1])
  }

  function EdgeCount(ids: seq<string>, g: Graph): nat
    requires forall id | id in ids :: id in g
  {
    if ids == [] then 0 else EdgeCount(ids[..|ids| - 1], g) + |g[ids[|ids| - 1]]|
  }

  lemma {:induction false} VisitedNone(ids: seq<string>)
    ensures Visited(ids, map[]) == 0
  {
    if ids != [] { VisitedNone(ids[..|ids| - 1]); }
  }

  lemma {:induction false} VisitedOneMore(ids: seq<string>, next: map<string, nat>, id: string)
    requires NoDuplicates(ids)
    ensures Visited(ids, next[id := NextOf(next, id) + 1]) == Visited(ids, next) + if id in ids then 1 else 0
  {
    if ids != [] {
      VisitedOneMore(ids[..|ids| - 1], next, id);
      assert ids == ids[..|ids| - 1] + [ids[|ids| - 1]];
    }
  }

  lemma {:induction false} VisitedBound(ids: seq<string>, g: Graph, next: map<string, nat>)
    requires forall id | id in ids :: id in g && NextOf(next, id) <= |g[id]|
    ensures Visited(ids, next) <= EdgeCount(ids, g)
  {
    if ids != [] { VisitedBound(ids[..|ids| - 1], g, next); }
  }

  ghost predicate Counted(ids: seq<string>, g: Graph, stack: seq<Frame>, order: seq<string>, next: map<string, nat>,
                          steps: nat) {
    && (forall k | 0 <= k < |stack| :: NextOf(next, stack[k].id) == stack[k].next)
    && (forall id | id !in order && id !in FrameIds(stack) :: NextOf(next, id) == 0)
    && (forall id | id in g :: NextOf(next, id) <= |g[id]|)
    && steps == Visited(ids, next) + |order|
  }

  // ---------------------------------------------------------------- reports

  /** A reported path runs along needs, repeats only its closing job, and ends with a back edge. */
  ghost predicate SimpleCycle(g: Graph, path: seq<string>) {
    IsCycle(g, path) && NoDuplicates(path[..|path| - 1])
  }

  function ClosingJob(path: seq<string>): string
    requires |path| >= 2
  {
    path[|path| - 2]
  }

  function ClosingNeed(path: seq<string>): string
    requires |path| >= 2
  {
    path[|path| - 1]
  }

  predicate SameClosingEdge(a: seq<string>, b: seq<string>) {
    |a| >= 2 && |b| >= 2 && ClosingJob(a) == ClosingJob(b) && ClosingNeed(a) == ClosingNeed(b)
  }

  ghost predicate ClosedBefore(g: Graph, next: map<string, nat>, path: seq<string>) {
    |path| >= 2 && ClosingJob(path) in g && exists m ::
      0 <= m < NextOf(next, ClosingJob(path)) && m < |g[ClosingJob(path)]| &&
        g[ClosingJob(path)][m] == ClosingNeed(path)
  }

  ghost predicate Reported(g: Graph, next: map<string, nat>, cycles: seq<seq<string>>) {
    && (forall i | 0 <= i < |cycles| :: SimpleCycle(g, cycles[i]) && ClosedBefore(g, next, cycles[i]))
    && (forall i, j | 0 <= i < j < |cycles| :: !SameClosingEdge(cycles[i], cycles[j]))
  }

  ghost predicate ReportsCycle(p: ParsedJobs, d: Diagnostic, path: seq<string>) {
    |path| >= 2 && ClosingJob(path) in p.jobs && p.jobs[ClosingJob(path)].needsKey.Some?
    && d == DiagAt(p.jobs[ClosingJob(path)].needsKey.value, "jobs." + ClosingJob(path) + ".needs", NeedsCycle(path))
  }

  lemma ReportedLater(g: Graph, next: map<string, nat>, later: map<string, nat>, cycles: seq<seq<string>>)
    requires Reported(g, next, cycles)
    requires forall id :: NextOf(next, id) <= NextOf(later, id)
    ensures Reported(g, later, cycles)
  {
    hide SimpleCycle, SameClosingEdge;
    forall i | 0 <= i < |cycles| ensures ClosedBefore(g, later, cycles[i]) {
      var c := cycles[i];
      assert ClosedBefore(g, next, c);
      var m :| 0 <= m < NextOf(next, ClosingJob(c)) && m < |g[ClosingJob(c)]| && g[ClosingJob(c)][m] == ClosingNeed(c);
      assert m < NextOf(later, ClosingJob(c));
    }
  }

  /** The stack from the gray job up, closed by the need back to it, is a simple cycle. */
  lemma BackEdgeClosesCycle(g: Graph, color: map<string, Color>, stack: seq<Frame>, order: seq<string>, start: nat)
    requires Searching(g, color, stack, order) && start < |stack|
    requires var top := stack[|stack| - 1]; top.next < |g[top.id]| && g[top.id][top.next] == stack[start].id
    ensures SimpleCycle(g, FrameIds(stack)[start..] + [stack[start].id])
  {
    var ids := FrameIds(stack);
    var path := ids[start..] + [stack[start].id];
    assert path[..|path| - 1] == ids[start..];
    forall i | 0 <= i < |path| - 1 ensures path[i] in g && path[i + 1] in g[path[i]] {
      assert path[i] == stack[start + i].id;
      if i < |path| - 2 {
        assert path[i + 1] == stack[start + i + 1].id;
        assert g[stack[start + i].id][stack[start + i].next - 1] == stack[start + i + 1].id;
      }
    }
    assert path[|path| - 1] == path[0];
  }

  lemma NewClosingEdge(g: Graph, next: map<string, nat>, cycles: seq<seq<string>>, path: seq<string>, id: string,
                       m: nat)
    requires Reported(g, next, cycles) && SimpleCycle(g, path)
    requires id in g && NoDuplicates(g[id]) && NextOf(next, id) == m < |g[id]|
    requires ClosingJob(path) == id && ClosingNeed(path) == g[id][m]
    ensures Reported(g, next[id := m + 1], cycles + [path])
  {
    var later := next[id := m + 1];
    ReportedLater(g, next, later, cycles);
    assert ClosedBefore(g, later, path) by { assert NextOf(later, id) == m + 1; }
    forall i | 0 <= i < |cycles| ensures !SameClosingEdge(cycles[i], path) {
      var c := cycles[i];
      assert ClosedBefore(g, next, c);
      var from := ClosingJob(c);
      var k :| 0 <= k < NextOf(next, from) && k < |g[from]| && g[from][k] == ClosingNeed(c);
      assert from == id ==> k < m && g[id][k] != g[id][m];
    }
  }

  // ---------------------------------------------------------------- the search

  ghost predicate Graphy(ids: seq<string>, g: Graph) {
    && NoDuplicates(ids) && (forall id :: id in ids <==> id in g)
    && (forall id | id in g :: NoDuplicates(g[id]))
  }

  ghost predicate SearchInv(ids: seq<string>, g: Graph, color: map<string, Color>, stack: seq<Frame>,
                            order: seq<string>, next: map<string, nat>, cycles: seq<seq<string>>, steps: nat)
  {
    && Searching(g, color, stack, order)
    && Counted(ids, g, stack, order, next, steps)
    && Reported(g, next, cycles)
    && (cycles == [] ==> Settled(g, stack, order))
  }

  lemma SearchStarts(ids: seq<string>, g: Graph)
    ensures SearchInv(ids, g, map[], [], [], map[], [], 0)
  {
    VisitedNone(ids);
  }

  lemma RootPushed(ids: seq<string>, g: Graph, color: map<string, Color>, order: seq<string>,
                   next: map<string, nat>, cycles: seq<seq<string>>, steps: nat, root: string)
    requires SearchInv(ids, g, color, [], order, next, cycles, steps)
    requires root in g && ColorOf(color, root) == White
    ensures SearchInv(ids, g, color[root := Gray], [Frame(root, 0)], order, next, cycles, steps)
  {
    hide Reported;
    assert FrameIds([Frame(root, 0)]) == [root];
  }

  lemma Popped(ids: seq<string>, g: Graph, color: map<string, Color>, stack: seq<Frame>,
               order: seq<string>, next: map<string, nat>, cycles: seq<seq<string>>, steps: nat)
    requires SearchInv(ids, g, color, stack, order, next, cycles, steps) && stack != []
    requires stack[|stack| - 1].id in g && stack[|stack| - 1].next >= |g[stack[|stack| - 1].id]|
    ensures var id := stack[|stack| - 1].id;
            SearchInv(ids, g, color[id := Black], stack[..|stack| - 1], order + [id], next, cycles, steps + 1)
  {
    hide Reported, Settled;
    var top, rest := stack[|stack| - 1], stack[..|stack| - 1];
    PopKeeps(g, color, stack, order);
    if cycles == [] { PopSettles(g, color, stack, order); }
    assert Counted(ids, g, rest, order + [top.id], next, steps + 1) by {
      assert FrameIds(stack) == FrameIds(rest) + [top.id];
    }
  }

  lemma SteppedOver(ids: seq<string>, g: Graph, color: map<string, Color>, stack: seq<Frame>,
                    order: seq<string>, next: map<string, nat>, cycles: seq<seq<string>>, steps: nat)
    requires SearchInv(ids, g, color, stack, order, next, cycles, steps) && Graphy(ids, g) && stack != []
    requires stack[|stack| - 1].id in g && stack[|stack| - 1].next < |g[stack[|stack| - 1].id]|
    ensures var top := stack[|stack| - 1];
            && Searching(g, color, Advanced(stack), order)
            && Counted(ids, g, Advanced(stack), order, next[top.id := top.next + 1], steps + 1)
            && Reported(g, next[top.id := top.next + 1], cycles)
  {
    hide Reported, Settled;
    var top := stack[|stack| - 1];
    AdvanceKeeps(g, color, stack, order);
    ReportedLater(g, next, next[top.id := top.next + 1], cycles);
    assert Counted(ids, g, Advanced(stack), order, next[top.id := top.next + 1], steps + 1) by {
      VisitedOneMore(ids, next, top.id);
      AdvancedIds(stack);
      forall k | 0 <= k < |stack| - 1 ensures stack[k].id != top.id {
        assert FrameIds(stack)[k] != FrameIds(stack)[|stack| - 1];
      }
    }
  }

  lemma Descended(ids: seq<string>, g: Graph, color: map<string, Color>, stack: seq<Frame>,
                  order: seq<string>, next: map<string, nat>, cycles: seq<seq<string>>, steps: nat)
    requires SearchInv(ids, g, color, stack, order, next, cycles, steps) && Graphy(ids, g) && stack != []
    requires stack[|stack| - 1].id in g && stack[|stack| - 1].next < |g[stack[|stack| - 1].id]|
    requires var top := stack[|stack| - 1]; g[top.id][top.next] in g && ColorOf(color, g[top.id][top.next]) == White
    ensures var top := stack[|stack| - 1]; var need := g[top.id][top.next];
            SearchInv(ids, g, color[need := Gray], Advanced(stack) + [Frame(need, 0)], order,
                      next[top.id := top.next + 1], cycles, steps + 1)
  {
    hide Reported, Settled;
    var top := stack[|stack| - 1];
    var need, stack', next' := g[top.id][top.next], Advanced(stack), next[top.id := top.next + 1];
    SteppedOver(ids, g, color, stack, order, next, cycles, steps);
    PushKeeps(g, color, stack', order, need);
    if cycles == [] { PushSettles(g, stack, order, need); }
    assert Counted(ids, g, stack' + [Frame(need, 0)], order, next', steps + 1) by {
      assert FrameIds(stack' + [Frame(need, 0)]) == FrameIds(stack') + [need];
      assert need !in order && need !in FrameIds(stack');
    }
  }

  /** Every declared job finished and nothing reported: the finishing order is topological. */
  lemma SearchEnds(ids: seq<string>, g: Graph, color: map<string, Color>, order: seq<string>,
                   next: map<string, nat>, cycles: seq<seq<string>>, steps: nat)
    requires SearchInv(ids, g, color, [], order, next, cycles, steps) && Graphy(ids, g)
    requires forall id | id in ids :: ColorOf(color, id) != White
    ensures cycles == [] <==> Acyclic(g)
  {
    hide NoDuplicates;
    if cycles == [] {
      forall n ensures n in g <==> n in order { assert n in FrameIds([]) <==> false; }
      TopologicalMeansAcyclic(g, order);
    } else {
      assert IsCycle(g, cycles[0]);
    }
  }

  lemma StepBound(ids: seq<string>, g: Graph, color: map<string, Color>, stack: seq<Frame>,
                  order: seq<string>, next: map<string, nat>, cycles: seq<seq<string>>, steps: nat)
    requires SearchInv(ids, g, color, stack, order, next, cycles, steps) && Graphy(ids, g)
    ensures forall id | id in ids :: id in g
    ensures steps <= EdgeCount(ids, g) + |ids|
  {
    VisitedBound(ids, g, next);
    DistinctCount(order);
    DistinctCount(ids);
    assert Elements(order) <= Elements(ids);
    SubsetCount(Elements(order), Elements(ids));
  }

  /** Names the path from the gray job back to itself. */
  method CycleDiagnostic(p: ParsedJobs, stack: seq<Frame>, closing: string) returns (d: Diagnostic, ghost start: nat)
    requires stack != [] && closing in FrameIds(stack)
    requires stack[|stack| - 1].id in p.jobs && p.jobs[stack[|stack| - 1].id].needsKey.Some?
    ensures start < |stack| && stack[start].id == closing
    ensures ReportsCycle(p, d, FrameIds(stack)[start..] + [closing])
  {
    var first := 0;
    while stack[first].id != closing
      invariant first < |stack|
      invariant closing !in FrameIds(stack)[..first]
      decreases |stack| - first
    {
      assert FrameIds(stack)[..first + 1] == FrameIds(stack)[..first] + [stack[first].id];
      assert FrameIds(stack)[..|stack|] == FrameIds(stack);
      first := first + 1;
    }
    start := first;
    var path := [];
    for i := first to |stack|
      invariant path == FrameIds(stack)[first..i]
    {
      path := path + [stack[i].id];
    }
    path := path + [closing];
    assert path == FrameIds(stack)[first..] + [closing];
    var id := stack[|stack| - 1].id;
    assert path[|path| - 2] == id;
    d := DiagAt(p.jobs[id].needsKey.value, "jobs." + id + ".needs", NeedsCycle(path));
  }

  lemma Reportable(ids: seq<string>, g: Graph, color: map<string, Color>, stack: seq<Frame>, order: seq<string>,
                   next: map<string, nat>, cycles: seq<seq<string>>, steps: nat, start: nat)
    requires SearchInv(ids, g, color, stack, order, next, cycles, steps) && Graphy(ids, g) && stack != []
    requires stack[|stack| - 1].id in g && stack[|stack| - 1].next < |g[stack[|stack| - 1].id]|
    requires start < |stack| && stack[start].id == g[stack[|stack| - 1].id][stack[|stack| - 1].next]
    ensures var top := stack[|stack| - 1];
            SearchInv(ids, g, color, Advanced(stack), order, next[top.id := top.next + 1],
                      cycles + [FrameIds(stack)[start..] + [stack[start].id]], steps + 1)
  {
    hide Settled, Reported, NoDuplicates;
    var top := stack[|stack| - 1];
    var path := FrameIds(stack)[start..] + [stack[start].id];
    SteppedOver(ids, g, color, stack, order, next, cycles, steps);
    BackEdgeClosesCycle(g, color, stack, order, start);
    assert path[|path| - 2] == top.id;
    NewClosingEdge(g, next, cycles, path, top.id, top.next);
  }

  lemma Skipped(ids: seq<string>, g: Graph, color: map<string, Color>, stack: seq<Frame>, order: seq<string>,
                next: map<string, nat>, cycles: seq<seq<string>>, steps: nat)
    requires SearchInv(ids, g, color, stack, order, next, cycles, steps) && Graphy(ids, g) && stack != []
    requires stack[|stack| - 1].id in g && stack[|stack| - 1].next < |g[stack[|stack| - 1].id]|
    requires var top := stack[|stack| - 1]; g[top.id][top.next] in g ==> ColorOf(color, g[top.id][top.next]) == Black
    ensures var top := stack[|stack| - 1];
            SearchInv(ids, g, color, Advanced(stack), order, next[top.id := top.next + 1], cycles, steps + 1)
  {
    SteppedOver(ids, g, color, stack, order, next, cycles, steps);
    if cycles == [] { StepOverSettles(g, color, stack, order); }
  }

  lemma TopInGraph(ids: seq<string>, g: Graph, color: map<string, Color>, stack: seq<Frame>, order: seq<string>,
                   next: map<string, nat>, cycles: seq<seq<string>>, steps: nat)
    requires SearchInv(ids, g, color, stack, order, next, cycles, steps) && stack != []
    ensures stack[|stack| - 1].id in g
    ensures forall id :: ColorOf(color, id) == Gray ==> id in FrameIds(stack)
  {
  }

  lemma NeedsGraphy(p: ParsedJobs)
    requires JobsInv(p)
    ensures Graphy(p.ids, NeedsGraph(p))
    ensures forall id | id in p.jobs && p.jobs[id].needs != [] :: p.jobs[id].needsKey.Some?
  {
  }

  ghost predicate NoneWhitened(before: map<string, Color>, after: map<string, Color>) {
    forall id :: ColorOf(before, id) != White ==> ColorOf(after, id) != White
  }

  ghost predicate AllReport(p: ParsedJobs, raised: seq<Diagnostic>, cycles: seq<seq<string>>) {
    |raised| == |cycles| && forall k | 0 <= k < |raised| :: ReportsCycle(p, raised[k], cycles[k])
  }

  lemma IdsAreJobs(p: ParsedJobs)
    requires JobsInv(p)
    ensures forall id :: id in p.ids <==> id in p.jobs
  {
  }

  /** Searches everything reachable from one unvisited job. */
  method SearchFrom(p: ParsedJobs, root: string, color0: map<string, Color>, steps0: nat, stepMax: nat,
                    diags: seq<Diagnostic>,
                    r0: seq<Diagnostic>, ghost order0: seq<string>, ghost next0: map<string, nat>,
                    ghost cycles0: seq<seq<string>>, ghost raised0: seq<Diagnostic>)
    returns (color: map<string, Color>, steps: nat, r: seq<Diagnostic>, ghost order: seq<string>,
             ghost next: map<string, nat>, ghost cycles: seq<seq<string>>, ghost raised: seq<Diagnostic>)
    requires Bounded(diags) && JobsInv(p) && root in p.jobs && ColorOf(color0, root) == White
    requires forall id | id in p.ids :: id in NeedsGraph(p)
    requires stepMax == 2 * (|p.ids| + EdgeCount(p.ids, NeedsGraph(p))) + 1
    requires SearchInv(p.ids, NeedsGraph(p), color0, [], order0, next0, cycles0, steps0)
    requires r0 == AddAll(diags, raised0) && AllReport(p, raised0, cycles0)
    ensures SearchInv(p.ids, NeedsGraph(p), color, [], order, next, cycles, steps)
    ensures r == AddAll(diags, raised) && AllReport(p, raised, cycles)
    ensures NoneWhitened(color0, color) && ColorOf(color, root) != White
  {
    hide AddAll, AddDiagnostic, JobsInv, SearchInv, Graphy, ReportsCycle, EdgeCount;
    ghost var g := NeedsGraph(p);
    NeedsGraphy(p);
    steps, r, order, next, cycles, raised := steps0, r0, order0, next0, cycles0, raised0;
    RootPushed(p.ids, g, color0, order, next, cycles, steps, root);
    var stack := [Frame(root, 0)];
    color := color0[root := Gray];
    while stack != []
      invariant SearchInv(p.ids, g, color, stack, order, next, cycles, steps)
      invariant r == AddAll(diags, raised) && AllReport(p, raised, cycles)
      invariant NoneWhitened(color0, color) && ColorOf(color, root) != White
      decreases stepMax - steps
    {
      StepBound(p.ids, g, color, stack, order, next, cycles, steps);
      TopInGraph(p.ids, g, color, stack, order, next, cycles, steps);
      steps := steps + 1;
      assert steps <= stepMax;
      var top := stack[|stack| - 1];
      var needs := p.jobs[top.id].needs;
      if top.next >= |needs| {
        Popped(p.ids, g, color, stack, order, next, cycles, steps - 1);
        color, stack, order := color[top.id := Black], stack[..|stack| - 1], order + [top.id];
      } else {
        var need := needs[top.next];
        if need in p.jobs && ColorOf(color, need) == White {
          Descended(p.ids, g, color, stack, order, next, cycles, steps - 1);
          color, stack := color[need := Gray], Advanced(stack) + [Frame(need, 0)];
        } else if need in p.jobs && ColorOf(color, need) == Gray {
          var d;
          ghost var start;
          AdvancedIds(stack);
          d, start := CycleDiagnostic(p, Advanced(stack), need);
          Reportable(p.ids, g, color, stack, order, next, cycles, steps - 1, start);
          AddAllOne(diags, raised, d);
          r, raised := AddDiagnostic(r, d), raised + [d];
          cycles := cycles + [FrameIds(stack)[start..] + [need]];
          stack := Advanced(stack);
        } else {
          Skipped(p.ids, g, color, stack, order, next, cycles, steps - 1);
          stack := Advanced(stack);
        }
        next := next[top.id := top.next + 1];
      }
    }
  }

  lemma EdgesOf(ids: seq<string>, g: Graph, i: nat)
    requires i < |ids| && forall id | id in ids :: id in g
    ensures EdgeCount(ids[..i + 1], g) == EdgeCount(ids[..i], g) + |g[ids[i]]|
  {
    assert ids[..i + 1][..i] == ids[..i];
  }

  /**
   Reports exactly the back edges of an explicit-stack depth-first search: each
   report is a real cycle, no closing edge is reported twice, and nothing is
   reported exactly when the needs are acyclic. The traversal stays within the
   bound whose breach is an internal error.
   */
  method CycleDiagnostics(p: ParsedJobs, diags: seq<Diagnostic>)
    returns (r: seq<Diagnostic>, ghost raised: seq<Diagnostic>, ghost cycles: seq<seq<string>>)
    requires Bounded(diags) && JobsInv(p)
    ensures r == AddAll(diags, raised) && AllReport(p, raised, cycles)
    ensures raised == [] <==> Acyclic(NeedsGraph(p))
    ensures |diags| < DIAGNOSTICS_MAX ==> (r == diags <==> Acyclic(NeedsGraph(p)))
    ensures |r| < DIAGNOSTICS_MAX ==> forall k | |diags| <= k < |r| ::
              r[k].message.NeedsCycle? && SimpleCycle(NeedsGraph(p), r[k].message.path)
    ensures forall i | 0 <= i < |cycles| :: SimpleCycle(NeedsGraph(p), cycles[i])
    ensures forall i, j | 0 <= i < j < |cycles| :: !SameClosingEdge(cycles[i], cycles[j])
  {
    hide AddAll, AddDiagnostic, JobsInv, SearchInv, Graphy, ReportsCycle, SimpleCycle, SameClosingEdge, ClosedBefore;
    ghost var g := NeedsGraph(p);
    NeedsGraphy(p);
    IdsAreJobs(p);
    r, raised, cycles := diags, [], [];
    NothingAdded(diags);
    var color: map<string, Color> := map[];
    var edgeCount := 0;
    for i := 0 to |p.ids|
      invariant edgeCount == EdgeCount(p.ids[..i], g)
    {
      EdgesOf(p.ids, g, i);
      edgeCount := edgeCount + |p.jobs[p.ids[i]].needs|;
    }
    assert p.ids[..|p.ids|] == p.ids;
    var stepMax := 2 * (|p.ids| + edgeCount) + 1;
    var steps := 0;
    ghost var order: seq<string>, next: map<string, nat> := [], map[];
    SearchStarts(p.ids, g);
    for i := 0 to |p.ids|
      invariant SearchInv(p.ids, g, color, [], order, next, cycles, steps)
      invariant r == AddAll(diags, raised) && AllReport(p, raised, cycles)
      invariant forall k | 0 <= k < i :: ColorOf(color, p.ids[k]) != White
    {
      if ColorOf(color, p.ids[i]) == White {
        color, steps, r, order, next, cycles, raised :=
          SearchFrom(p, p.ids[i], color, steps, stepMax, diags, r, order, next, cycles, raised);
      }
    }
    SearchEnds(p.ids, g, color, order, next, cycles, steps);
    ReportedCycles(p.ids, g, color, order, next, cycles, steps);
    LengthTellsBelowCap(diags, raised);
    MessagesAreCycles(p, raised, cycles);
  }

  lemma MessagesAreCycles(p: ParsedJobs, raised: seq<Diagnostic>, cycles: seq<seq<string>>)
    requires AllReport(p, raised, cycles) && forall i | 0 <= i < |cycles| :: SimpleCycle(NeedsGraph(p), cycles[i])
    ensures forall k | 0 <= k < |raised| ::
        raised[k].message.NeedsCycle? && SimpleCycle(NeedsGraph(p), raised[k].message.path)
  {
    hide SimpleCycle;
    forall k | 0 <= k < |raised|
      ensures raised[k].message.NeedsCycle? && SimpleCycle(NeedsGraph(p), raised[k].message.path)
    {
      assert ReportsCycle(p, raised[k], cycles[k]);
    }
  }

  lemma ReportedCycles(ids: seq<string>, g: Graph, color: map<string, Color>, order: seq<string>,
                       next: map<string, nat>, cycles: seq<seq<string>>, steps: nat)
    requires SearchInv(ids, g, color, [], order, next, cycles, steps)
    ensures forall i | 0 <= i < |cycles| :: SimpleCycle(g, cycles[i])
    ensures forall i, j | 0 <= i < j < |cycles| :: !SameClosingEdge(cycles[i], cycles[j])
  {
    hide SimpleCycle, SameClosingEdge;
  }
}
