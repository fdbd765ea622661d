/**
 The smallest `jobs:` document: one job of one step. Whatever the job is called
 and runs, the compiler's passes accept it, and read from it what it says.
 */
module SmallestSpec {
  import opened Graphs
  import opened Dag
  import opened Diagnostics
  import opened JobsGuard
  import opened JobsSpec
  import opened JobsParse
  import opened JobsCycles
  import opened JobsCompile
  import opened StringOrder

  function Scalar(value: string): Node {
    Node(ScalarNode, "!!str", value, 0, 0, NotAnInt, [])
  }

  function Mapping(content: seq<Node>): Node {
    Node(MappingNode, "!!map", "", 0, 0, NotAnInt, content)
  }

  function List(content: seq<Node>): Node {
    Node(SequenceNode, "!!seq", "", 0, 0, NotAnInt, content)
  }

  /** One job of one step. */
  function SmallJob(command: string): Node {
    Mapping([Scalar("steps"), List([Mapping([Scalar("run"), Scalar(command)])])])
  }

  function SmallSpec(id: string, command: string): Node {
    Mapping([Scalar("jobs"), Mapping([Scalar(id), SmallJob(command)])])
  }

  lemma SmallJobSound(command: string)
    requires command != "" && !ContainsExpression(command)
    ensures JobSound(SmallJob(command))
  {
    hide ContainsExpression;
    var step := Mapping([Scalar("run"), Scalar(command)]);
    assert step.content[0].value == "run";
    assert StepSound(step);
    var node := SmallJob(command);
    assert node.content[0].value == "steps" && node.content[1].content == [step];
  }

  lemma SmallSpecSound(id: string, command: string)
    requires JobIdMatches(id) && command != "" && !ContainsExpression(command)
    ensures SpecSound(SmallSpec(id, command), true)
  {
    hide ContainsExpression, JobIdMatches, JobSound;
    SmallJobSound(command);
    var jobs := Mapping([Scalar(id), SmallJob(command)]);
    assert JobsSound(jobs);
    assert TopPairSound(Scalar("jobs"), jobs, true);
    assert SmallSpec(id, command).content == [Scalar("jobs"), jobs];
  }

  lemma SmallJobSays(id: string, command: string)
    requires JobIdMatches(id) && command != "" && !ContainsExpression(command)
    ensures JobsOf(Mapping([Scalar(id), SmallJob(command)])).Keys == {id}
    ensures var job := JobsOf(Mapping([Scalar(id), SmallJob(command)]))[id];
            && job.needs == [] && job.env == EMPTY_ENV && job.timeout == DEFAULT_CHECK_TIMEOUT && job.retries == 0
            && |job.steps| == 1 && job.steps[0].run == command && job.steps[0].env == EMPTY_ENV
            && job == JobOf(Scalar(id), SmallJob(command))
  {
    hide ContainsExpression, JobIdMatches, Decimal;
    var jobs, node := Mapping([Scalar(id), SmallJob(command)]), SmallJob(command);
    var step := Mapping([Scalar("run"), Scalar(command)]);
    assert JobsUpTo(jobs.content, 0) == map[];
    assert JobUpTo(Scalar(id), node.content, 0) == EmptyJob(Scalar(id));
    forall field ensures StepOf(step, field).run == command && StepOf(step, field).env == EMPTY_ENV {
      assert StepUpTo(step.content, 0, field) == EMPTY_STEP;
    }
    forall field ensures |StepsOf(List([step]), field)| == 1
      ensures StepsOf(List([step]), field)[0].run == command && StepsOf(List([step]), field)[0].env == EMPTY_ENV
    {
      StepsInOrder([step], 1, field);
    }
  }

  lemma SmallSpecParts(id: string, command: string)
    requires JobIdMatches(id)
    ensures var doc, jobs := SmallSpec(id, command), Mapping([Scalar(id), SmallJob(command)]);
            && Value(doc.content, |doc.content|, "jobs") == Some(jobs)
            && EnvAt(doc.content, |doc.content|, "env") == EMPTY_ENV && Sort(IdsOf(jobs)) == [id]
  {
    hide JobIdMatches, SmallJob;
    var jobs := Mapping([Scalar(id), SmallJob(command)]);
    assert IdsUpTo(jobs.content, 0) == [];
    assert [id][..0] == [];
    assert "jobs"[0] != "env"[0];
    assert Value(SmallSpec(id, command).content, 0, "env").None?;
  }

  /** What it says: this job, with this command, the default limits and nothing else. */
  lemma SmallSpecSays(id: string, command: string)
    requires JobIdMatches(id) && command != "" && !ContainsExpression(command)
    ensures var spec := SpecOf(SmallSpec(id, command));
            && spec.env == EMPTY_ENV && spec.ids == [id] && spec.jobs.Keys == {id}
            && spec.jobs[id].needs == [] && spec.jobs[id].env == EMPTY_ENV
            && spec.jobs[id].timeout == DEFAULT_CHECK_TIMEOUT && spec.jobs[id].retries == 0
            && |spec.jobs[id].steps| == 1 && spec.jobs[id].steps[0].run == command
            && spec.jobs[id].steps[0].env == EMPTY_ENV
            && spec.jobs[id] == JobOf(Scalar(id), SmallJob(command))
  {
    hide ContainsExpression, JobIdMatches, JobsOf, IdsOf, Sort, Value, EnvAt, SmallSpec, SmallJob;
    SmallSpecParts(id, command);
    SmallJobSays(id, command);
  }

  lemma PathNeeds(g: Graph, p: seq<string>)
    requires IsPath(g, p) && |p| >= 2
    ensures p[0] in g && g[p[0]] != []
  {
    assert p[0 + 1] in g[p[0]];
  }

  lemma NoNeedsNoCycle(g: Graph)
    requires forall n | n in g :: g[n] == []
    ensures Closed(g) && Acyclic(g)
  {
    forall p ensures !IsCycle(g, p) {
      if IsCycle(g, p) { PathNeeds(g, p); }
    }
  }

  lemma OneJobEncodes(p: ParsedJobs, encode: JobPayload -> Option<string>, id: string)
    requires p.ids == [id]
    ensures AllEncode(p, encode) <==> EncodesWithin(p, encode, id)
  {
    hide PayloadOf;
    assert [id][..0] == [] && [id][0] == id;
    assert EncodedTotal(p, encode, [], false) == 0;
    assert EncodedTotal(p, encode, [id], false) == EncodedSize(p, encode, id);
    if AllEncode(p, encode) { assert EncodesWithin(p, encode, p.ids[0]); }
  }

  /** The passes raise nothing on it exactly when its payload encodes within its bound. */
  lemma SmallSpecPassesIff(id: string, command: string, encode: JobPayload -> Option<string>)
    requires JobIdMatches(id) && command != "" && !ContainsExpression(command)
    ensures PassesClean(SmallSpec(id, command), true, true, encode) <==>
            EncodesWithin(SpecOf(SmallSpec(id, command)), encode, id)
  {
    hide ContainsExpression, JobIdMatches, SpecOf, SpecSound, Closed, Acyclic, SmallSpec, AllEncode, EncodesWithin;
    var spec := SpecOf(SmallSpec(id, command));
    SmallSpecSound(id, command);
    SmallSpecSays(id, command);
    NoNeedsNoCycle(NeedsGraph(spec));
    forall x | x in spec.jobs ensures !Conflicted(Levels(spec, spec.jobs[x])) {
      assert forall i | 0 <= i < |Levels(spec, spec.jobs[x])| :: Levels(spec, spec.jobs[x])[i].secretNames == {};
    }
    OneJobEncodes(spec, encode, id);
  }

  lemma SmallSpecClean(id: string, command: string)
    ensures WellFormed(SmallSpec(id, command)) && Clean(SmallSpec(id, command))
    ensures Walked(SmallSpec(id, command)) <= NODE_MAX
    ensures MappingKey(SmallSpec(id, command).content, "checks").None?
  {
    var step := Mapping([Scalar("run"), Scalar(command)]);
    var job, doc := SmallJob(command), SmallSpec(id, command);
    var jobs := Mapping([Scalar(id), job]);
    assert job == Mapping([Scalar("steps"), List([step])]) && doc == Mapping([Scalar("jobs"), jobs]);
    PairNode(Scalar("run"), Scalar(command));
    ListNode(step);
    PairNode(Scalar("steps"), List([step]));
    PairNode(Scalar(id), job);
    PairNode(Scalar("jobs"), jobs);
    assert "jobs"[0] != "checks"[0];
    assert doc.content[2..] == [];
  }

  lemma PairNode(k: Node, v: Node)
    requires WellFormed(k) && WellFormed(v) && Clean(k) && Clean(v)
    ensures WellFormed(Mapping([k, v])) && Clean(Mapping([k, v]))
    ensures Walked(Mapping([k, v])) == 1 + Walked(k) + Walked(v)
  {
    hide WellFormed, Clean;
    PairOk(k, v);
    assert [k, v][..1] == [k] && [k][..0] == [];
    assert WalkedAll([]) == 0 && WalkedAll([k]) == Walked(k) && WalkedAll([k, v]) == Walked(k) + Walked(v);
  }

  lemma PairOk(k: Node, v: Node)
    requires WellFormed(k) && WellFormed(v) && Clean(k) && Clean(v)
    ensures WellFormed(Mapping([k, v])) && Clean(Mapping([k, v]))
  {
    var node := Mapping([k, v]);
    forall j | 0 <= j < |node.content| - 1 && j % 2 == 0 ensures !RepeatsKey(node.content, j) { assert j == 0; }
  }

  lemma ListNode(item: Node)
    requires WellFormed(item) && Clean(item)
    ensures WellFormed(List([item])) && Clean(List([item])) && Walked(List([item])) == 1 + Walked(item)
  {
    assert [item][..0] == [];
    assert WalkedAll([]) == 0 && WalkedAll([item]) == Walked(item);
  }

  /** The definition it compiles to: one step that waits on nothing, with the default limits. */
  function SmallDef(name: string, namespace: string, id: string, payload: string): WorkflowDef {
    var step := StepDef(id, namespace + "." + JOB_TASK_SUFFIX, [], Normal, None, "", "", namespace,
                        DEFAULT_CHECK_TIMEOUT, 0, map[JOB_METADATA_KEY := payload]);
    WorkflowDef(name, [step], {}, WORKFLOW_TIMEOUT)
  }

  /** The text its job's payload encodes to. */
  ghost predicate SmallPayload(id: string, command: string, encode: JobPayload -> Option<string>, text: string) {
    exists pay :: Carries(pay, EMPTY_ENV, JobOf(Scalar(id), SmallJob(command))) && encode(pay) == Some(text)
  }

  lemma SmallPayloadIs(id: string, command: string, encode: JobPayload -> Option<string>, spec: ParsedJobs,
                       text: string)
    requires id in spec.jobs && spec.env == EMPTY_ENV && spec.jobs[id] == JobOf(Scalar(id), SmallJob(command))
    ensures SmallPayload(id, command, encode, text) <==> encode(PayloadOf(spec, spec.jobs[id])) == Some(text)
  {
    hide Carries, PayloadOf, JobOf;
    forall pay ensures Carries(pay, EMPTY_ENV, spec.jobs[id]) <==> pay == PayloadOf(spec, spec.jobs[id]) {
      CarriesIff(spec, spec.jobs[id], pay);
    }
  }

  lemma SmallDefIs(name: string, namespace: string, encode: JobPayload -> Option<string>, spec: ParsedJobs, id: string,
                   text: string)
    requires AllEncode(spec, encode) && spec.ids == [id] && spec.jobs.Keys == {id} && spec.jobs[id].needs == []
    requires spec.jobs[id].timeout == DEFAULT_CHECK_TIMEOUT && spec.jobs[id].retries == 0
    requires encode(PayloadOf(spec, spec.jobs[id])) == Some(text)
    ensures DefOf(name, namespace, spec, encode) == SmallDef(name, namespace, id, text)
  {
    hide PayloadOf, EncodedTotal;
    assert [id][..0] == [] && SequentialTime(spec, []) == 0;
    assert SequentialTime(spec, [id]) == DEFAULT_CHECK_TIMEOUT;
    var def := DefOf(name, namespace, spec, encode);
    assert def.steps == [def.steps[0]];
  }

  /** It compiles exactly when its payload encodes within its bound and its definition is valid and small enough. */
  lemma SmallSpecCompilesIff(name: string, id: string, command: string, namespace: string,
                             encode: JobPayload -> Option<string>, validate: WorkflowDef -> Option<Diagnostic>,
                             defSize: WorkflowDef -> nat)
    requires JobIdMatches(id) && command != "" && !ContainsExpression(command)
    ensures Compiles(name, SmallSpec(id, command), namespace, true, true, encode, validate, defSize) <==>
            exists text ::
              && SmallPayload(id, command, encode, text) && |text| <= JOB_PAYLOAD_MAX_BYTES
              && validate(SmallDef(name, namespace, id, text)).None?
              && defSize(SmallDef(name, namespace, id, text)) <= JOBS_DEF_MAX_BYTES
  {
    hide ContainsExpression, JobIdMatches, SpecOf, SmallSpec, AllEncode, Walked, Clean, MappingKey, SmallDef, DefOf,
      SmallPayload, PayloadOf, JobOf, SpecSound, Closed, Acyclic, Conflicted;
    var doc := SmallSpec(id, command);
    var spec := SpecOf(doc);
    SmallSpecClean(id, command);
    SmallSpecPassesIff(id, command, encode);
    SmallSpecSays(id, command);
    OneJobEncodes(spec, encode, id);
    forall text
      ensures SmallPayload(id, command, encode, text) <==> encode(PayloadOf(spec, spec.jobs[id])) == Some(text)
    {
      SmallPayloadIs(id, command, encode, spec, text);
    }
    if EncodesWithin(spec, encode, id) {
      SmallDefIs(name, namespace, encode, spec, id, encode(PayloadOf(spec, spec.jobs[id])).value);
    }
  }
}
