/**
 Compiles a parsed `jobs:` spec into a workflow definition
 (ci/jobs_compile.go): secret conflicts, job payloads, steps, the workflow
 timeout, and the whole pipeline. JSON encoding, the `on:` parser, the namespace
 check and dag.Validate enter as parameters.
 */
module JobsCompile {
  import opened Graphs
  import opened Dag
  import opened Diagnostics
  import opened JobsGuard
  import opened JobsSpec
  import opened JobsParse
  import opened JobsCycles
  import opened StringOrder
  import Scheduler

  const JOB_PAYLOAD_MAX_BYTES := 64 * 1024
  const JOBS_DEF_MAX_BYTES := 768 * 1024
  const HOUR := 60 * MINUTE
  const JOBS_WORKFLOW_TIMEOUT_MAX := 365 * 24 * HOUR
  const WORKFLOW_TIMEOUT := 45 * MINUTE
  const JOB_METADATA_KEY := "ci.job"
  const JOB_TASK_SUFFIX := "job"

  // ---------------------------------------------------------------- secret conflicts

  function StepEnvs(steps: seq<ParsedStep>): (r: seq<EnvValues>)
    ensures |r| == |steps|
    ensures forall i | 0 <= i < |steps| :: r[i] == steps[i].env
  {
    seq(|steps|, i requires 0 <= i < |steps| => steps[i].env)
  }

  /** The env blocks whose entries reach a job: the workflow's, the job's, each step's. */
  function Levels(p: ParsedJobs, job: ParsedJob): seq<EnvValues> {
    [p.env, job.env] + StepEnvs(job.steps)
  }

  ghost predicate SecretIn(levels: seq<EnvValues>, key: string) {
    exists i :: 0 <= i < |levels| && key in levels[i].secretNames
  }

  ghost predicate PlainIn(levels: seq<EnvValues>, key: string) {
    exists i :: 0 <= i < |levels| && key in levels[i].plain
  }

  /** Some variable is a secret at one level and a plain value at another. */
  ghost predicate Conflicted(levels: seq<EnvValues>) {
    exists key :: SecretIn(levels, key) && PlainIn(levels, key)
  }

  ghost predicate ConflictAt(levels: seq<EnvValues>, i: nat, key: string) {
    i < |levels| && key in levels[i].plain && SecretIn(levels, key)
  }

  function ConflictDiag(level: EnvValues, key: string, id: string): Diagnostic
    requires key in level.keyNodes
  {
    DiagAt(level.keyNodes[key], level.field + "." + key, SecretConflict(key, id))
  }

  /** Keys of a map, each once and in order. */
  method SortedKeys(values: map<string, string>) returns (keys: seq<string>)
    ensures NoDuplicates(keys) && Sorted(keys)
    ensures forall k :: k in keys <==> k in values
  {
    keys := [];
    var rest := values.Keys;
    while rest != {}
      invariant rest <= values.Keys && NoDuplicates(keys)
      invariant forall k :: k in keys <==> k in values && k !in rest
    {
      var k :| k in rest;
      keys, rest := keys + [k], rest - {k};
    }
    SortKeeps(keys);
    keys := SortStrings(keys);
  }

  method LevelConflicts(levels: seq<EnvValues>, i: nat, secret: set<string>, id: string, diags: seq<Diagnostic>)
    returns (found: bool, r: seq<Diagnostic>, ghost raised: seq<Diagnostic>)
    requires Bounded(diags) && i < |levels| && EnvInv(levels[i])
    requires forall k :: k in secret <==> SecretIn(levels, k)
    ensures r == AddAll(diags, raised)
    ensures found <==> raised != []
    ensures forall key | ConflictAt(levels, i, key) ::
        key in levels[i].keyNodes && ConflictDiag(levels[i], key, id) in raised
    ensures raised != [] ==> exists key :: ConflictAt(levels, i, key)
  {
    hide AddAll, AddDiagnostic, SecretIn, NoDuplicates;
    found, r, raised := false, diags, [];
    NothingAdded(diags);
    var level := levels[i];
    var keys := SortedKeys(level.plain);
    for j := 0 to |keys|
      invariant r == AddAll(diags, raised)
      invariant found <==> raised != []
      invariant forall k | 0 <= k < j && keys[k] in secret ::
                  keys[k] in level.keyNodes && ConflictDiag(level, keys[k], id) in raised
      invariant raised != [] ==> exists key :: ConflictAt(levels, i, key)
    {
      var key := keys[j];
      assert key in keys;
      if key in secret {
        assert ConflictAt(levels, i, key);
        var d := ConflictDiag(level, key, id);
        AddAllOne(diags, raised, d);
        found, r, raised := true, AddDiagnostic(r, d), raised + [d];
      }
    }
    forall key | ConflictAt(levels, i, key) ensures key in level.keyNodes && ConflictDiag(level, key, id) in raised {
      var k :| 0 <= k < |keys| && keys[k] == key;
    }
  }

  /** Every conflicting entry of one job is reported, and nothing else. */
  method JobConflicts(levels: seq<EnvValues>, id: string, diags: seq<Diagnostic>)
    returns (found: bool, r: seq<Diagnostic>, ghost raised: seq<Diagnostic>)
    requires Bounded(diags) && forall i | 0 <= i < |levels| :: EnvInv(levels[i])
    ensures r == AddAll(diags, raised)
    ensures found <==> raised != []
    ensures found <==> Conflicted(levels)
    ensures forall i: nat, key | ConflictAt(levels, i, key) ::
              key in levels[i].keyNodes && ConflictDiag(levels[i], key, id) in raised
  {
    hide AddAll, AddDiagnostic;
    var secret: set<string> := {};
    for i := 0 to |levels|
      invariant forall k :: k in secret <==> SecretIn(levels[..i], k)
    {
      secret := secret + levels[i].secretNames;
      SecretInNext(levels, i);
    }
    assert levels[..|levels|] == levels;
    found, r, raised := false, diags, [];
    NothingAdded(diags);
    for i := 0 to |levels|
      invariant r == AddAll(diags, raised)
      invariant found <==> raised != []
      invariant forall k: nat, key | k < i && ConflictAt(levels, k, key) ::
                  key in levels[k].keyNodes && ConflictDiag(levels[k], key, id) in raised
      invariant raised != [] ==> exists k: nat, key :: ConflictAt(levels, k, key)
    {
      var more;
      ghost var others;
      more, r, others := LevelConflicts(levels, i, secret, id, r);
      AddAllConcat(diags, raised, others);
      found, raised := found || more, raised + others;
    }
    ConflictSomewhere(levels);
  }

  lemma SecretInNext(levels: seq<EnvValues>, i: nat)
    requires i < |levels|
    ensures forall k :: SecretIn(levels[..i + 1], k) <==> SecretIn(levels[..i], k) || k in levels[i].secretNames
  {
    forall k ensures SecretIn(levels[..i + 1], k) <==> SecretIn(levels[..i], k) || k in levels[i].secretNames {
      if SecretIn(levels[..i], k) {
        var j :| 0 <= j < i && k in levels[..i][j].secretNames;
        assert levels[..i + 1][j] == levels[..i][j];
      }
      if k in levels[i].secretNames { assert levels[..i + 1][i] == levels[i]; }
      if SecretIn(levels[..i + 1], k) {
        var j :| 0 <= j < i + 1 && k in levels[..i + 1][j].secretNames;
        if j < i { assert levels[..i][j] == levels[..i + 1][j]; }
      }
    }
  }

  lemma ConflictSomewhere(levels: seq<EnvValues>)
    ensures Conflicted(levels) <==> exists i: nat, key :: ConflictAt(levels, i, key)
  {
    if Conflicted(levels) {
      var key :| SecretIn(levels, key) && PlainIn(levels, key);
      var i :| 0 <= i < |levels| && key in levels[i].plain;
      assert ConflictAt(levels, i, key);
    }
    if i: nat, key :| ConflictAt(levels, i, key) {
      assert PlainIn(levels, key);
    }
  }

  lemma LevelsInv(p: ParsedJobs, id: string)
    requires JobsInv(p) && id in p.jobs
    ensures forall i | 0 <= i < |Levels(p, p.jobs[id])| :: EnvInv(Levels(p, p.jobs[id])[i])
  {
    hide JobIdMatches;
    var job := p.jobs[id];
    assert JobInv(job);
    forall i | 0 <= i < |Levels(p, job)| ensures EnvInv(Levels(p, job)[i]) {
      if i >= 2 { assert job.steps[i - 2] in job.steps; }
    }
  }

  /** A job stays ok exactly when no variable reaching it is both secret and plain. */
  ghost predicate Screened(p: ParsedJobs, q: ParsedJobs, n: nat)
    requires n <= |p.ids|
  {
    && q == p.(jobs := q.jobs) && q.jobs.Keys == p.jobs.Keys
    && forall id | id in p.jobs :: q.jobs[id] ==
         if id in p.ids[..n] then p.jobs[id].(ok := p.jobs[id].ok && !Conflicted(Levels(p, p.jobs[id]))) else p.jobs[id]
  }

  lemma ScreenedNone(p: ParsedJobs)
    ensures Screened(p, p, 0)
  {
  }

  lemma ScreenedNext(p: ParsedJobs, q: ParsedJobs, n: nat, found: bool)
    requires JobsInv(p) && n < |p.ids| && Screened(p, q, n) && p.ids[n] in p.jobs
    requires found <==> Conflicted(Levels(p, p.jobs[p.ids[n]]))
    ensures p.ids[n] in q.jobs && q.jobs[p.ids[n]] == p.jobs[p.ids[n]]
    ensures Screened(p, if found then q.(jobs := q.jobs[p.ids[n] := q.jobs[p.ids[n]].(ok := false)]) else q, n + 1)
  {
    hide Conflicted, JobIdMatches, JobInv;
    var id := p.ids[n];
    assert p.ids[..n + 1] == p.ids[..n] + [id];
    assert id !in p.ids[..n];
  }

  lemma ScreenedAll(p: ParsedJobs, q: ParsedJobs)
    requires JobsInv(p) && Screened(p, q, |p.ids|)
    ensures JobsInv(q) && NeedsGraph(q) == NeedsGraph(p) && q.ids == p.ids && q.jobsKey == p.jobsKey
    ensures forall id | id in p.jobs ::
              q.jobs[id] == p.jobs[id].(ok := p.jobs[id].ok && !Conflicted(Levels(p, p.jobs[id])))
  {
    hide JobIdMatches, Conflicted;
    assert p.ids[..|p.ids|] == p.ids;
    forall id | id in q.jobs ensures JobIdMatches(id) && JobInv(q.jobs[id]) { assert JobInv(p.jobs[id]); }
  }

  /** The screen changes nothing but ok flags. */
  lemma ScreenedSays(p: ParsedJobs, q: ParsedJobs, content: seq<Node>, n: nat)
    requires JobsInv(p) && Screened(p, q, |p.ids|) && n <= |content| && SpecSays(p, content, n)
    ensures SpecSays(q, content, n)
  {
    hide Conflicted, JobsOf, IdsOf, EnvOf, Value, JobInv, JobIdMatches;
    ScreenedAll(p, q);
    assert q.jobs.Keys == p.jobs.Keys;
    assert p.jobs == map[] ==> q.jobs == map[];
  }

  /** A job that is still ok after the screen has no conflict left. */
  lemma OkUnconflicted(p: ParsedJobs, q: ParsedJobs)
    requires JobsInv(p) && Screened(p, q, |p.ids|)
    ensures forall id | id in q.jobs && q.jobs[id].ok :: !Conflicted(Levels(q, q.jobs[id]))
  {
    hide JobsInv, Conflicted;
    ScreenedAll(p, q);
    forall id | id in q.jobs && q.jobs[id].ok ensures !Conflicted(Levels(q, q.jobs[id])) {
      assert Levels(q, q.jobs[id]) == Levels(p, p.jobs[id]);
    }
  }

  method SecretConflictDiagnostics(p: ParsedJobs, diags: seq<Diagnostic>)
    returns (q: ParsedJobs, r: seq<Diagnostic>, ghost raised: seq<Diagnostic>)
    requires Bounded(diags) && JobsInv(p)
    ensures r == AddAll(diags, raised)
    ensures Screened(p, q, |p.ids|)
    ensures raised == [] <==> forall id | id in p.jobs :: !Conflicted(Levels(p, p.jobs[id]))
  {
    hide AddAll, AddDiagnostic, JobsInv, Conflicted, Screened, EnvInv;
    q, r, raised := p, diags, [];
    NothingAdded(diags);
    ScreenedNone(p);
    IdsAreJobs(p);
    for i := 0 to |p.ids|
      invariant Screened(p, q, i)
      invariant r == AddAll(diags, raised)
      invariant raised == [] <==> forall k | 0 <= k < i :: !Conflicted(Levels(p, p.jobs[p.ids[k]]))
    {
      var id := p.ids[i];
      var found;
      ghost var more;
      LevelsInv(p, id);
      found, r, more := JobConflicts(Levels(p, p.jobs[id]), id, r);
      AddAllConcat(diags, raised, more);
      raised := raised + more;
      ScreenedNext(p, q, i, found);
      if found { q := q.(jobs := q.jobs[id := q.jobs[id].(ok := false)]); }
    }
  }

  // ---------------------------------------------------------------- payloads

  /** Secrets are name sets here: the source sorts each list, without duplicates. */
  datatype StepPayload = StepPayload(name: string, run: string, env: map<string, string>, workingDir: string,
                                     secrets: set<string>)

  datatype JobPayload = JobPayload(
    name: string, env: map<string, string>, workingDir: string, environ: string, secrets: set<string>,
      steps: seq<StepPayload>)

  function StepPayloads(steps: seq<ParsedStep>): (r: seq<StepPayload>)
    ensures |r| == |steps|
    ensures forall i | 0 <= i < |steps| ::
              r[i] == StepPayload(steps[i].name, steps[i].run, steps[i].env.plain, steps[i].workingDir,
                steps[i].env.secretNames)
  {
    seq(|steps|, i requires 0 <= i < |steps| =>
      StepPayload(steps[i].name, steps[i].run, steps[i].env.plain, steps[i].workingDir, steps[i].env.secretNames))
  }

  /** What a job's payload says: the job's env over the workflow's, and the secrets of both. */
  function PayloadOf(p: ParsedJobs, job: ParsedJob): JobPayload {
    JobPayload(job.name, p.env.plain + job.env.plain, job.workingDir, job.environ,
               p.env.secretNames + job.env.secretNames, StepPayloads(job.steps))
  }

  /**
   What a payload carries, field by field: the env has the keys of both levels, the
   job's values where it has them and the workflow's elsewhere; the secrets of
   both levels; and every step's own.
   */
  ghost predicate Carries(pay: JobPayload, env: EnvValues, job: ParsedJob) {
    && pay.name == job.name && pay.workingDir == job.workingDir && pay.environ == job.environ
    && (forall k :: k in pay.env <==> k in env.plain || k in job.env.plain)
    && (forall k | k in job.env.plain :: pay.env[k] == job.env.plain[k])
    && (forall k | k in env.plain && k !in job.env.plain :: pay.env[k] == env.plain[k])
    && (forall k :: k in pay.secrets <==> k in env.secretNames || k in job.env.secretNames)
    && |pay.steps| == |job.steps|
    && forall i | 0 <= i < |job.steps| ::
         && pay.steps[i].name == job.steps[i].name && pay.steps[i].run == job.steps[i].run
         && pay.steps[i].workingDir == job.steps[i].workingDir && pay.steps[i].env == job.steps[i].env.plain
         && pay.steps[i].secrets == job.steps[i].env.secretNames
  }

  /** Nothing but the payload carries that. */
  lemma CarriesIff(p: ParsedJobs, job: ParsedJob, pay: JobPayload)
    ensures Carries(pay, p.env, job) <==> pay == PayloadOf(p, job)
  {
    var said := PayloadOf(p, job);
    assert Carries(said, p.env, job);
    if Carries(pay, p.env, job) {
      assert pay.env == said.env;
      assert pay.secrets == said.secrets;
      assert pay.steps == said.steps;
    }
  }

  /** What a runner sees in the job and in any of its steps never has one name both ways. */
  ghost predicate SecretsSeparate(pay: JobPayload) {
    && pay.env.Keys !! pay.secrets
    && (forall i | 0 <= i < |pay.steps| :: pay.steps[i].env.Keys !! pay.secrets && pay.env.Keys !! pay.steps[i].secrets)
    && (forall i, j | 0 <= i < |pay.steps| && 0 <= j < |pay.steps| :: pay.steps[i].env.Keys !! pay.steps[j].secrets)
  }

  lemma LevelsSeparate(levels: seq<EnvValues>, i: nat, j: nat)
    requires !Conflicted(levels) && i < |levels| && j < |levels|
    ensures levels[i].plain.Keys !! levels[j].secretNames
  {
    forall k | k in levels[j].secretNames ensures k !in levels[i].plain {
      assert SecretIn(levels, k);
      assert k in levels[i].plain ==> PlainIn(levels, k);
    }
  }

  /** The secret checks leave a payload in which no secret is also a plain value. */
  lemma UnconflictedIffSeparate(p: ParsedJobs, job: ParsedJob)
    ensures !Conflicted(Levels(p, job)) <==> SecretsSeparate(PayloadOf(p, job))
  {
    var levels, pay := Levels(p, job), PayloadOf(p, job);
    if !Conflicted(levels) {
      forall i, j | 0 <= i < |levels| && 0 <= j < |levels| ensures levels[i].plain.Keys !! levels[j].secretNames {
        LevelsSeparate(levels, i, j);
      }
      assert levels[0].plain.Keys !! levels[0].secretNames && levels[0].plain.Keys !! levels[1].secretNames;
      assert levels[1].plain.Keys !! levels[0].secretNames && levels[1].plain.Keys !! levels[1].secretNames;
      forall i | 0 <= i < |pay.steps|
        ensures pay.steps[i].env.Keys !! pay.secrets && pay.env.Keys !! pay.steps[i].secrets
      {
        assert levels[i + 2] == job.steps[i].env;
        assert levels[i + 2].plain.Keys !! levels[0].secretNames && levels[i + 2].plain.Keys !! levels[1].secretNames;
        assert levels[0].plain.Keys !! levels[i + 2].secretNames && levels[1].plain.Keys !! levels[i + 2].secretNames;
      }
      forall i, j | 0 <= i < |pay.steps| && 0 <= j < |pay.steps| ensures pay.steps[i].env.Keys !! pay.steps[j].secrets {
        assert levels[i + 2].plain.Keys !! levels[j + 2].secretNames;
      }
    }
    if SecretsSeparate(pay) { SeparateMeansUnconflicted(p, job); }
  }

  lemma SeparateMeansUnconflicted(p: ParsedJobs, job: ParsedJob)
    requires SecretsSeparate(PayloadOf(p, job))
    ensures !Conflicted(Levels(p, job))
  {
    var levels, pay := Levels(p, job), PayloadOf(p, job);
    forall key | SecretIn(levels, key) ensures !PlainIn(levels, key) {
      var j :| 0 <= j < |levels| && key in levels[j].secretNames;
      forall i | 0 <= i < |levels| ensures key !in levels[i].plain {
        if i < 2 {
          assert key in levels[i].plain ==> key in pay.env;
          if j >= 2 { assert pay.steps[j - 2].secrets == levels[j].secretNames; }
        } else {
          assert pay.steps[i - 2].env == levels[i].plain;
          if j >= 2 { assert pay.steps[j - 2].secrets == levels[j].secretNames; }
        }
      }
    }
  }

  /** Copies a map's entries over another's, key by key. */
  method CopyInto(env: map<string, string>, values: map<string, string>) returns (r: map<string, string>)
    ensures r == env + values
  {
    r := env;
    var rest := values.Keys;
    while rest != {}
      invariant rest <= values.Keys
      invariant r == env + (values - rest)
    {
      var key :| key in rest;
      r, rest := r[key := values[key]], rest - {key};
    }
    assert values - {} == values;
  }

  /** Builds the payload; a secret that is also a plain value is an internal error no caller reaches. */
  method BuildJobPayload(p: ParsedJobs, job: ParsedJob) returns (pay: JobPayload)
    requires !Conflicted(Levels(p, job))
    ensures pay == PayloadOf(p, job)
    ensures Carries(pay, p.env, job)
  {
    hide Conflicted, Levels, Carries;
    var env := CopyInto(map[], p.env.plain);
    env := CopyInto(env, job.env.plain);
    assert env == p.env.plain + job.env.plain;
    var names := p.env.secretNames + job.env.secretNames;
    assert SecretsSeparate(PayloadOf(p, job)) by { UnconflictedIffSeparate(p, job); }
    var secrets: set<string> := {};
    var rest := names;
    while rest != {}
      invariant rest <= names && secrets == names - rest
    {
      var name :| name in rest;
      assert name !in env;
      secrets, rest := secrets + {name}, rest - {name};
    }
    var steps := [];
    for i := 0 to |job.steps|
      invariant steps == StepPayloads(job.steps)[..i]
    {
      var step := job.steps[i];
      steps := steps + [StepPayload(step.name, step.run, step.env.plain, step.workingDir, step.env.secretNames)];
    }
    pay := JobPayload(job.name, env, job.workingDir, job.environ, secrets, steps);
    CarriesIff(p, job, pay);
  }

  function PayloadSize(payloads: map<string, string>, id: string): nat {
    if id in payloads then |payloads[id]| else 0
  }

  function TotalSize(ids: seq<string>, payloads: map<string, string>): nat {
    if ids == [] then 0 else TotalSize(ids[..|ids| - 1], payloads) + PayloadSize(payloads, ids[|ids| - 1])
  }

  lemma {:induction false} TotalSizeOther(ids: seq<string>, payloads: map<string, string>, id: string, encoded: string)
    requires id !in ids
    ensures TotalSize(ids, payloads[id := encoded]) == TotalSize(ids, payloads)
  {
    if ids != [] { TotalSizeOther(ids[..|ids| - 1], payloads, id, encoded); }
  }

  /** Payloads of the first n jobs: only ok jobs are encoded, each faithfully and within its bound. */
  ghost predicate Encoded(p: ParsedJobs, encode: JobPayload -> Option<string>, payloads: map<string, string>) {
    forall id | id in payloads ::
      && id in p.jobs && p.jobs[id].ok
      && encode(PayloadOf(p, p.jobs[id])) == Some(payloads[id]) && |payloads[id]| <= JOB_PAYLOAD_MAX_BYTES
  }

  predicate AllOk(p: ParsedJobs) {
    forall id | id in p.jobs :: p.jobs[id].ok
  }

  lemma EncodedMore(p: ParsedJobs, encode: JobPayload -> Option<string>, payloads: map<string, string>, id: string,
                    encoded: string)
    requires Encoded(p, encode, payloads) && id in p.jobs && p.jobs[id].ok
    requires encode(PayloadOf(p, p.jobs[id])) == Some(encoded) && |encoded| <= JOB_PAYLOAD_MAX_BYTES
    ensures Encoded(p, encode, payloads[id := encoded])
  {
  }

  /** One more payload: the sizes of the jobs up to and including the next one. */
  lemma SizeWith(ids: seq<string>, payloads: map<string, string>, i: nat, encoded: string)
    requires i < |ids| && ids[i] !in ids[..i] && payloads.Keys <= Elements(ids[..i])
    ensures TotalSize(ids[..i + 1], payloads) == TotalSize(ids[..i], payloads)
    ensures TotalSize(ids[..i + 1], payloads[ids[i] := encoded]) == TotalSize(ids[..i], payloads) + |encoded|
    ensures Elements(ids[..i + 1]) == Elements(ids[..i]) + {ids[i]}
  {
    assert ids[..i + 1][..i] == ids[..i];
    assert ids[..i + 1] == ids[..i] + [ids[i]];
    TotalSizeOther(ids[..i], payloads, ids[i], encoded);
  }

  /** The job's payload encodes within its bound. */
  ghost predicate EncodesWithin(p: ParsedJobs, encode: JobPayload -> Option<string>, id: string) {
    && id in p.jobs && encode(PayloadOf(p, p.jobs[id])).Some?
    && |encode(PayloadOf(p, p.jobs[id])).value| <= JOB_PAYLOAD_MAX_BYTES
  }

  ghost function EncodedSize(p: ParsedJobs, encode: JobPayload -> Option<string>, id: string): nat {
    if id in p.jobs && encode(PayloadOf(p, p.jobs[id])).Some? then |encode(PayloadOf(p, p.jobs[id])).value| else 0
  }

  /** The bytes of the payloads of these jobs; the pass counts ok jobs only. */
  ghost function EncodedTotal(p: ParsedJobs, encode: JobPayload -> Option<string>, ids: seq<string>,
                              okOnly: bool): nat {
    if ids == [] then 0
    else
      var id := ids[|ids| - 1];
      EncodedTotal(p, encode, ids[..|ids| - 1], okOnly) +
      if okOnly && id in p.jobs && !p.jobs[id].ok then 0 else EncodedSize(p, encode, id)
  }

  /** Every ok job encodes within its bound, and all of them together within the definition's. */
  ghost predicate OkJobsEncode(p: ParsedJobs, encode: JobPayload -> Option<string>) {
    && (forall id | id in p.jobs && p.jobs[id].ok :: EncodesWithin(p, encode, id))
    && EncodedTotal(p, encode, p.ids, true) <= JOBS_DEF_MAX_BYTES
  }

  /** What the pass knows of the first i jobs while it has raised nothing. */
  ghost predicate PaidUpTo(p: ParsedJobs, encode: JobPayload -> Option<string>, payloads: map<string, string>,
                           total: nat,
                           i: nat)
    requires i <= |p.ids|
  {
    && (forall k | 0 <= k < i && p.ids[k] in p.jobs && p.jobs[p.ids[k]].ok :: p.ids[k] in payloads)
    && total == EncodedTotal(p, encode, p.ids[..i], true)
  }

  lemma PaidSkips(p: ParsedJobs, encode: JobPayload -> Option<string>, payloads: map<string, string>, total: nat,
                  i: nat)
    requires i < |p.ids| && p.ids[i] in p.jobs && !p.jobs[p.ids[i]].ok && PaidUpTo(p, encode, payloads, total, i)
    ensures PaidUpTo(p, encode, payloads, total, i + 1)
  {
    hide EncodedSize;
    assert p.ids[..i + 1][..i] == p.ids[..i];
  }

  lemma PaidNext(p: ParsedJobs, encode: JobPayload -> Option<string>, payloads: map<string, string>, total: nat, i: nat,
                 encoded: string)
    requires i < |p.ids| && p.ids[i] in p.jobs && p.jobs[p.ids[i]].ok && PaidUpTo(p, encode, payloads, total, i)
    requires encode(PayloadOf(p, p.jobs[p.ids[i]])) == Some(encoded)
    ensures PaidUpTo(p, encode, payloads[p.ids[i] := encoded], total + |encoded|, i + 1)
    ensures total + |encoded| == EncodedTotal(p, encode, p.ids[..i + 1], true)
  {
    hide PayloadOf;
    assert p.ids[..i + 1][..i] == p.ids[..i];
  }

  lemma {:induction false} EncodedTotalGrows(p: ParsedJobs, encode: JobPayload -> Option<string>, ids: seq<string>,
                                             okOnly: bool, i: nat)
    requires i <= |ids|
    ensures EncodedTotal(p, encode, ids[..i], okOnly) <= EncodedTotal(p, encode, ids, okOnly)
    decreases |ids|
  {
    hide EncodedSize;
    if i == |ids| {
      assert ids[..i] == ids;
    } else {
      EncodedTotalGrows(p, encode, ids[..|ids| - 1], okOnly, i);
      assert ids[..|ids| - 1][..i] == ids[..i];
    }
  }

  /** The bytes of jobs add up, and one job's are those of what its payload encodes to. */
  lemma {:induction false} SizesAdd(p: ParsedJobs, encode: JobPayload -> Option<string>, a: seq<string>, b: seq<string>)
    ensures EncodedTotal(p, encode, a + b, false) ==
            EncodedTotal(p, encode, a, false) + EncodedTotal(p, encode, b, false)
    ensures forall id, pay, text | id in p.jobs && Carries(pay, p.env, p.jobs[id]) && encode(pay) == Some(text) ::
              EncodedTotal(p, encode, [id], false) == |text|
  {
    hide EncodedSize, Carries;
    if b == [] {
      assert a + b == a;
    } else {
      SizesAdd(p, encode, a, b[..|b| - 1]);
      assert (a + b)[..|a + b| - 1] == a + b[..|b| - 1];
    }
    forall id, pay, text | id in p.jobs && Carries(pay, p.env, p.jobs[id]) && encode(pay) == Some(text)
      ensures EncodedTotal(p, encode, [id], false) == |text|
    {
      CarriesIff(p, p.jobs[id], pay);
      assert [id][..0] == [];
      OneSize(p, encode, id, text);
    }
  }

  lemma OneSize(p: ParsedJobs, encode: JobPayload -> Option<string>, id: string, text: string)
    requires id in p.jobs && encode(PayloadOf(p, p.jobs[id])) == Some(text)
    ensures EncodedSize(p, encode, id) == |text|
  {
    hide PayloadOf;
  }

  lemma TooLargeMeansNot(p: ParsedJobs, encode: JobPayload -> Option<string>, i: nat)
    requires i <= |p.ids| && EncodedTotal(p, encode, p.ids[..i], true) > JOBS_DEF_MAX_BYTES
    ensures !OkJobsEncode(p, encode)
  {
    hide EncodedTotal;
    EncodedTotalGrows(p, encode, p.ids, true, i);
  }

  lemma PaidAll(p: ParsedJobs, encode: JobPayload -> Option<string>, payloads: map<string, string>, total: nat)
    requires JobsInv(p) && PaidUpTo(p, encode, payloads, total, |p.ids|) && Encoded(p, encode, payloads)
    requires total <= JOBS_DEF_MAX_BYTES
    ensures OkJobsEncode(p, encode) && forall id | id in p.jobs && p.jobs[id].ok :: id in payloads
  {
    hide EncodedTotal, PayloadOf, JobInv, JobIdMatches;
    assert p.ids[..|p.ids|] == p.ids;
    forall id | id in p.jobs && p.jobs[id].ok ensures id in payloads && EncodesWithin(p, encode, id) {
      assert id in p.ids;
      var k :| 0 <= k < |p.ids| && p.ids[k] == id;
    }
  }

  lemma NotWithinMeansNot(p: ParsedJobs, encode: JobPayload -> Option<string>, id: string)
    requires id in p.jobs && p.jobs[id].ok && !EncodesWithin(p, encode, id)
    ensures !OkJobsEncode(p, encode)
  {
    hide EncodesWithin, EncodedTotal;
  }

  lemma NothingPaid(p: ParsedJobs, encode: JobPayload -> Option<string>)
    ensures PaidUpTo(p, encode, map[], 0, 0)
  {
    assert p.ids[..0] == [];
  }

  function DefTooLarge(p: ParsedJobs): Diagnostic
    requires p.jobsKey.Some?
  {
    DiagAt(p.jobsKey.value, "jobs", Other("the compiled workflow is too large"))
  }

  /** Encodes one job: its payload, or the problem it raises. */
  method EncodeJob(p: ParsedJobs, id: string, encode: JobPayload -> Option<string>)
    returns (encoded: string, problem: Option<Diagnostic>)
    requires id in p.jobs && !Conflicted(Levels(p, p.jobs[id]))
    ensures problem.None? <==> EncodesWithin(p, encode, id)
    ensures problem.None? ==> encode(PayloadOf(p, p.jobs[id])) == Some(encoded)
  {
    hide PayloadOf, Conflicted;
    var job := p.jobs[id];
    encoded, problem := "", None;
    var pay := BuildJobPayload(p, job);
    match encode(pay) {
      case None => problem := Some(DiagAt(job.idNode, "jobs." + id, Other("the job does not encode")));
      case Some(text) =>
        encoded := text;
        if |text| > JOB_PAYLOAD_MAX_BYTES {
          problem := Some(DiagAt(job.idNode, "jobs." + id, Other("the job is too large")));
        }
    }
  }

  /**
   Encodes the ok jobs until the cap is reached. Below the cap it is silent
   exactly when they all encode within their bounds, and then none is missing;
   at the cap it does nothing.
   */
  method JobPayloads(p: ParsedJobs, encode: JobPayload -> Option<string>, diags: seq<Diagnostic>)
    returns (payloads: map<string, string>, r: seq<Diagnostic>, ghost raised: seq<Diagnostic>)
    requires Bounded(diags) && JobsInv(p) && p.jobsKey.Some?
    requires forall id | id in p.jobs && p.jobs[id].ok :: !Conflicted(Levels(p, p.jobs[id]))
    ensures r == AddAll(diags, raised)
    ensures raised == [] <==> |diags| >= DIAGNOSTICS_MAX || OkJobsEncode(p, encode)
    ensures Encoded(p, encode, payloads)
    ensures payloads != map[] ==> |diags| < DIAGNOSTICS_MAX
    ensures TotalSize(p.ids, payloads) <= JOBS_DEF_MAX_BYTES
    ensures |diags| < DIAGNOSTICS_MAX && raised == [] ==> forall id | id in p.jobs && p.jobs[id].ok :: id in payloads
  {
    hide AddAll, AddDiagnostic, JobsInv, PayloadOf, NoDuplicates, Encoded, TotalSize, Elements, Bounded, Conflicted,
      Levels, PaidUpTo, OkJobsEncode, EncodedTotal, EncodesWithin;
    payloads, r, raised := map[], diags, [];
    NothingAdded(diags);
    PayloadsStart(p, encode);
    NothingPaid(p, encode);
    IdsAreJobs(p);
    IdsOnce(p);
    var total: nat := 0;
    for i := 0 to |p.ids|
      invariant r == AddAll(diags, raised)
      invariant |diags| >= DIAGNOSTICS_MAX ==> raised == [] && payloads == map[]
      invariant |diags| < DIAGNOSTICS_MAX && raised == [] ==> PaidUpTo(p, encode, payloads, total, i)
      invariant raised != [] ==> !OkJobsEncode(p, encode)
      invariant Encoded(p, encode, payloads)
      invariant payloads.Keys <= Elements(p.ids[..i])
      invariant total == TotalSize(p.ids[..i], payloads) <= JOBS_DEF_MAX_BYTES
    {
      var id := p.ids[i];
      SizeWith(p.ids, payloads, i, "");
      LengthTellsBelowCap(diags, raised);
      if p.jobs[id].ok && |r| < DIAGNOSTICS_MAX {
        var encoded, problem := EncodeJob(p, id, encode);
        if problem.Some? {
          NotWithinMeansNot(p, encode, id);
          AddAllOne(diags, raised, problem.value);
          r, raised := AddDiagnostic(r, problem.value), raised + [problem.value];
        } else {
          if raised == [] { PaidNext(p, encode, payloads, total, i, encoded); }
          total := total + |encoded|;
          if total > JOBS_DEF_MAX_BYTES {
            if raised == [] { TooLargeMeansNot(p, encode, i + 1); }
            AddAllOne(diags, raised, DefTooLarge(p));
            r, raised := AddDiagnostic(r, DefTooLarge(p)), raised + [DefTooLarge(p)];
            SizeOfPrefix(p.ids, payloads, i);
            return;
          }
          SizeWith(p.ids, payloads, i, encoded);
          EncodedWithin(p, encode, id, encoded);
          EncodedMore(p, encode, payloads, id, encoded);
          payloads := payloads[id := encoded];
        }
      } else if !p.jobs[id].ok && |diags| < DIAGNOSTICS_MAX && raised == [] {
        PaidSkips(p, encode, payloads, total, i);
      }
    }
    assert p.ids[..|p.ids|] == p.ids;
    if |diags| < DIAGNOSTICS_MAX && raised == [] { PaidAll(p, encode, payloads, total); }
  }

  lemma EncodedWithin(p: ParsedJobs, encode: JobPayload -> Option<string>, id: string, encoded: string)
    requires EncodesWithin(p, encode, id) && encode(PayloadOf(p, p.jobs[id])) == Some(encoded)
    ensures |encoded| <= JOB_PAYLOAD_MAX_BYTES
  {
    hide PayloadOf;
  }

  lemma PayloadsStart(p: ParsedJobs, encode: JobPayload -> Option<string>)
    ensures Encoded(p, encode, map[]) && TotalSize([], map[]) == 0 && Elements<string>([]) == {}
  {
  }

  lemma IdsOnce(p: ParsedJobs)
    requires JobsInv(p)
    ensures forall i | 0 <= i < |p.ids| :: p.ids[i] !in p.ids[..i]
  {
  }

  lemma {:induction false} SizeOfPrefix(ids: seq<string>, payloads: map<string, string>, i: nat)
    requires i <= |ids| && payloads.Keys <= Elements(ids[..i]) && forall k | 0 <= k < |ids| :: ids[k] !in ids[..k]
    ensures TotalSize(ids, payloads) == TotalSize(ids[..i], payloads)
    decreases |ids|
  {
    if i < |ids| {
      var init, last := ids[..|ids| - 1], ids[|ids| - 1];
      assert init[..i] == ids[..i];
      assert last !in payloads by { assert last !in init; }
      forall k | 0 <= k < |init| ensures init[k] !in init[..k] { assert init[..k] == ids[..k]; }
      SizeOfPrefix(init, payloads, i);
    } else {
      assert ids[..i] == ids;
    }
  }

  // ---------------------------------------------------------------- steps

  function JobStep(p: ParsedJobs, payloads: map<string, string>, namespace: string, id: string): StepDef
    requires id in p.jobs && id in payloads
  {
    var job := p.jobs[id];
    StepDef(id, namespace + "." + JOB_TASK_SUFFIX, job.needs, Normal, None, "", "", namespace, job.timeout, job.retries,
            map[JOB_METADATA_KEY := payloads[id]])
  }

  ghost predicate BuiltFrom(p: ParsedJobs, payloads: map<string, string>, namespace: string, ids: seq<string>,
                            steps: seq<StepDef>) {
    && |steps| == |ids|
    && forall i | 0 <= i < |ids| ::
         ids[i] in p.jobs && ids[i] in payloads && steps[i] == JobStep(p, payloads, namespace, ids[i])
  }

  method BuildJobSteps(p: ParsedJobs, payloads: map<string, string>, namespace: string) returns (steps: seq<StepDef>)
    requires JobsInv(p) && payloads.Keys == p.jobs.Keys && namespace != ""
    ensures BuiltFrom(p, payloads, namespace, p.ids, steps)
    ensures |steps| == |p.ids| && forall i | 0 <= i < |steps| ::
              && steps[i].id == p.ids[i] && p.ids[i] in p.jobs && steps[i].dependsOn == p.jobs[p.ids[i]].needs
              && steps[i].timeout == p.jobs[p.ids[i]].timeout && steps[i].retries == p.jobs[p.ids[i]].retries
              && steps[i].metadata == map[JOB_METADATA_KEY := payloads[p.ids[i]]]
              && steps[i].task == namespace + "." + JOB_TASK_SUFFIX && steps[i].workerGroup == namespace
              && steps[i].stepType == Normal && steps[i].skipIf.None?
              && steps[i].onFailure == "" && steps[i].compensate == ""
  {
    hide JobsInv;
    IdsAreJobs(p);
    steps := [];
    for i := 0 to |p.ids|
      invariant BuiltFrom(p, payloads, namespace, p.ids[..i], steps)
    {
      var id := p.ids[i];
      steps := steps + [JobStep(p, payloads, namespace, id)];
    }
    assert p.ids[..|p.ids|] == p.ids;
  }

  /** The steps' dependency graph is the jobs' needs relation. */
  lemma StepsKeepNeeds(p: ParsedJobs, payloads: map<string, string>, namespace: string, steps: seq<StepDef>)
    requires JobsInv(p) && BuiltFrom(p, payloads, namespace, p.ids, steps)
    ensures Ids(steps) == p.ids && DepGraph(steps) == NeedsGraph(p)
  {
    hide JobIdMatches, JobInv, DepGraph;
    assert Ids(steps) == p.ids;
    DepGraphNodes(steps);
    forall n | n in NeedsGraph(p) ensures n in DepGraph(steps) && DepGraph(steps)[n] == NeedsGraph(p)[n] {
      assert n in p.ids;
      var i :| 0 <= i < |p.ids| && p.ids[i] == n;
      DepGraphAt(steps, i);
    }
    assert DepGraph(steps).Keys == NeedsGraph(p).Keys;
  }

  // ---------------------------------------------------------------- timeout

  /** Time for one job with all its retries. */
  function JobTime(p: ParsedJobs, id: string): int {
    if id in p.jobs then p.jobs[id].timeout * (1 + p.jobs[id].retries) else 0
  }

  function SequentialTime(p: ParsedJobs, ids: seq<string>): int {
    if ids == [] then 0 else SequentialTime(p, ids[..|ids| - 1]) + JobTime(p, ids[|ids| - 1])
  }

  lemma JobTimeFits(p: ParsedJobs, id: string)
    requires JobsInv(p) && id in p.jobs
    ensures JobTime(p, id) == p.jobs[id].timeout * (1 + p.jobs[id].retries)
    ensures 0 < JobTime(p, id) < 0x8000_0000_0000_0000
    ensures p.jobs[id].timeout > 0 && p.jobs[id].retries >= 0
  {
    assert JobInv(p.jobs[id]);
    ProductFits(p.jobs[id].timeout, 1 + p.jobs[id].retries);
  }

  lemma ProductFits(timeout: int, attempts: int)
    requires 0 < timeout <= JOB_TIMEOUT_MINUTES_MAX * MINUTE && 0 < attempts <= 1 + RETRY_ATTEMPT_COUNT_MAX
    ensures 0 < timeout * attempts < 0x8000_0000_0000_0000
  {
    var most, tries := JOB_TIMEOUT_MINUTES_MAX * MINUTE, 1 + RETRY_ATTEMPT_COUNT_MAX;
    assert timeout * attempts <= most * attempts;
    assert most * attempts <= most * tries;
  }

  lemma {:induction false} SequentialTimeGrows(p: ParsedJobs, ids: seq<string>, i: nat)
    requires JobsInv(p) && i <= |ids|
    ensures 0 <= SequentialTime(p, ids[..i]) <= SequentialTime(p, ids)
    decreases |ids|
  {
    hide JobsInv, JobTime;
    if i == |ids| {
      assert ids[..i] == ids;
      if ids != [] {
        SequentialTimeGrows(p, ids[..|ids| - 1], |ids| - 1);
        assert ids[..|ids| - 1][..|ids| - 1] == ids[..|ids| - 1];
        JobTimePositive(p, ids[|ids| - 1]);
      }
    } else {
      SequentialTimeGrows(p, ids[..|ids| - 1], i);
      assert ids[..|ids| - 1][..i] == ids[..i];
      JobTimePositive(p, ids[|ids| - 1]);
    }
  }

  lemma JobTimePositive(p: ParsedJobs, id: string)
    requires JobsInv(p)
    ensures JobTime(p, id) >= 0
  {
    if id in p.jobs { JobTimeFits(p, id); }
  }

  /** A year at most, the default at least. */
  function TimeoutFor(total: int): int {
    if total >= JOBS_WORKFLOW_TIMEOUT_MAX then JOBS_WORKFLOW_TIMEOUT_MAX
    else if total < WORKFLOW_TIMEOUT then WORKFLOW_TIMEOUT
    else total
  }

  /** The time of jobs in sequence adds up, and one job's is its timeout once and once more for each retry. */
  lemma {:induction false} TimesAdd(p: ParsedJobs, a: seq<string>, b: seq<string>)
    ensures SequentialTime(p, a + b) == SequentialTime(p, a) + SequentialTime(p, b)
    ensures forall id | id in p.jobs ::
              SequentialTime(p, [id]) == p.jobs[id].timeout + p.jobs[id].retries * p.jobs[id].timeout
    ensures SequentialTime(p, []) == 0
  {
    if b == [] {
      assert a + b == a;
    } else {
      TimesAdd(p, a, b[..|b| - 1]);
      assert (a + b)[..|a + b| - 1] == a + b[..|b| - 1];
    }
    forall id | id in p.jobs
      ensures SequentialTime(p, [id]) == p.jobs[id].timeout + p.jobs[id].retries * p.jobs[id].timeout
    {
      assert [id][..0] == [];
      Distribute(p.jobs[id].timeout, p.jobs[id].retries);
    }
  }

  lemma Distribute(timeout: int, retries: int)
    ensures timeout * (1 + retries) == timeout + retries * timeout
  {
  }

  /** Long enough for the total, unless that is a year, and no longer than the total, unless that is short. */
  lemma TimeoutSaturates(total: int)
    ensures WORKFLOW_TIMEOUT <= TimeoutFor(total) <= JOBS_WORKFLOW_TIMEOUT_MAX
    ensures TimeoutFor(total) < JOBS_WORKFLOW_TIMEOUT_MAX ==> total <= TimeoutFor(total)
    ensures TimeoutFor(total) > WORKFLOW_TIMEOUT ==> TimeoutFor(total) <= total
  {
  }

  /**
   The summed time, saturated at a year and never below the default; no step
   overflows int64.
   */
  method JobsWorkflowTimeout(p: ParsedJobs) returns (timeout: int)
    requires JobsInv(p) && p.ids != []
    ensures timeout == TimeoutFor(SequentialTime(p, p.ids))
    ensures WORKFLOW_TIMEOUT <= timeout <= JOBS_WORKFLOW_TIMEOUT_MAX
    ensures timeout < JOBS_WORKFLOW_TIMEOUT_MAX ==> SequentialTime(p, p.ids) <= timeout
    ensures timeout > WORKFLOW_TIMEOUT ==> timeout <= SequentialTime(p, p.ids)
  {
    hide JobsInv, JobTime;
    TimeoutSaturates(SequentialTime(p, p.ids));
    IdsAreJobs(p);
    var total := 0;
    for i := 0 to |p.ids|
      invariant total == SequentialTime(p, p.ids[..i])
      invariant 0 <= total < JOBS_WORKFLOW_TIMEOUT_MAX
    {
      var id := p.ids[i];
      var job := p.jobs[id];
      JobTimeFits(p, id);
      assert job.timeout > 0 && job.retries >= 0;
      var per := job.timeout * (1 + job.retries);
      assert 0 < per < 0x8000_0000_0000_0000;
      assert p.ids[..i + 1][..i] == p.ids[..i];
      if per >= JOBS_WORKFLOW_TIMEOUT_MAX || total >= JOBS_WORKFLOW_TIMEOUT_MAX - per {
        SequentialTimeGrows(p, p.ids, i + 1);
        return JOBS_WORKFLOW_TIMEOUT_MAX;
      }
      total := total + per;
    }
    assert p.ids[..|p.ids|] == p.ids;
    timeout := if total < WORKFLOW_TIMEOUT then WORKFLOW_TIMEOUT else total;
  }

  lemma {:induction false} TimeWithout(p: ParsedJobs, xs: seq<string>, k: nat)
    requires k < |xs|
    ensures SequentialTime(p, xs) == SequentialTime(p, xs[..k] + xs[k + 1..]) + JobTime(p, xs[k])
    decreases |xs|
  {
    hide JobTime;
    var init, last := xs[..|xs| - 1], xs[|xs| - 1];
    if k == |xs| - 1 {
      assert xs[..k] + xs[k + 1..] == init;
    } else {
      TimeWithout(p, init, k);
      var rest := xs[..k] + xs[k + 1..];
      assert rest[..|rest| - 1] == init[..k] + init[k + 1..];
      assert rest[|rest| - 1] == last;
    }
  }

  lemma {:induction false} DistinctTimeBound(p: ParsedJobs, xs: seq<string>, ids: seq<string>)
    requires JobsInv(p) && NoDuplicates(xs) && NoDuplicates(ids)
    requires forall x | x in xs :: x in ids
    ensures SequentialTime(p, xs) <= SequentialTime(p, ids)
    decreases |ids|
  {
    hide JobsInv, JobTime;
    if ids == [] {
      DistinctCount(xs);
      assert Elements(xs) <= {};
    } else {
      var init, last := ids[..|ids| - 1], ids[|ids| - 1];
      assert ids == init + [last];
      JobTimePositive(p, last);
      if last in xs {
        var k :| 0 <= k < |xs| && xs[k] == last;
        var rest := xs[..k] + xs[k + 1..];
        TimeWithout(p, xs, k);
        forall x | x in rest ensures x in init { assert x in xs && x != last; }
        DistinctTimeBound(p, rest, init);
      } else {
        forall x | x in xs ensures x in init {}
        DistinctTimeBound(p, xs, init);
      }
    }
  }

  /** Any chain of needs, every job taking all its attempts, fits in the sequential time. */
  lemma ChainFits(p: ParsedJobs, chain: seq<string>)
    requires JobsInv(p) && Acyclic(NeedsGraph(p)) && IsPath(NeedsGraph(p), chain)
    ensures SequentialTime(p, chain) <= SequentialTime(p, p.ids)
  {
    hide JobIdMatches, JobInv, SequentialTime;
    AcyclicPathDistinct(NeedsGraph(p), chain);
    forall x | x in chain ensures x in p.ids { assert x in NeedsGraph(p); }
    DistinctTimeBound(p, chain, p.ids);
  }

  // ---------------------------------------------------------------- the pipeline

  datatype Outcome = Compiled(def: WorkflowDef) | Rejected(diags: seq<Diagnostic>)

  /** What the document says, as one value; its ok flags are unset. */
  ghost function SpecOf(doc: Node): ParsedJobs {
    var n := |doc.content|;
    var jobs := Value(doc.content, n, "jobs");
    ParsedJobs(EnvAt(doc.content, n, "env"), if jobs.Some? then JobsOf(jobs.value) else map[],
               MappingKey(doc.content, "jobs"), if jobs.Some? then Sort(IdsOf(jobs.value)) else [])
  }

  /** The same spec but for the ok flags and the node of its jobs key. */
  ghost predicate SameSpec(p: ParsedJobs, q: ParsedJobs) {
    p.env == q.env && p.ids == q.ids && SameJobs(p.jobs, q.jobs)
  }

  lemma SaysIsSpec(p: ParsedJobs, doc: Node)
    requires SpecSays(p, doc.content, |doc.content|)
    ensures SameSpec(p, SpecOf(doc))
  {
    hide JobsOf, IdsOf, EnvAt, Value;
  }

  lemma SameJobsAt(p: ParsedJobs, q: ParsedJobs, id: string)
    requires SameSpec(p, q) && id in p.jobs
    ensures id in q.jobs && Levels(p, p.jobs[id]) == Levels(q, q.jobs[id])
    ensures PayloadOf(p, p.jobs[id]) == PayloadOf(q, q.jobs[id])
    ensures p.jobs[id].needs == q.jobs[id].needs && p.jobs[id].timeout == q.jobs[id].timeout
    ensures p.jobs[id].retries == q.jobs[id].retries
  {
    assert p.jobs[id].(ok := false) == q.jobs[id].(ok := false);
  }

  lemma SameGraph(p: ParsedJobs, q: ParsedJobs)
    requires SameSpec(p, q)
    ensures NeedsGraph(p) == NeedsGraph(q)
    ensures (forall id | id in p.jobs :: !Conflicted(Levels(p, p.jobs[id]))) <==>
            forall id | id in q.jobs :: !Conflicted(Levels(q, q.jobs[id]))
  {
    hide Levels, PayloadOf, Conflicted;
    forall id | id in p.jobs
      ensures id in q.jobs && p.jobs[id].needs == q.jobs[id].needs && Levels(p, p.jobs[id]) == Levels(q, q.jobs[id])
    {
      SameJobsAt(p, q, id);
    }
  }

  lemma {:induction false} SameTimes(p: ParsedJobs, q: ParsedJobs, ids: seq<string>)
    requires SameSpec(p, q)
    ensures SequentialTime(p, ids) == SequentialTime(q, ids)
  {
    hide SameSpec;
    if ids != [] {
      SameTimes(p, q, ids[..|ids| - 1]);
      SameTime(p, q, ids[|ids| - 1]);
    }
  }

  lemma SameTime(p: ParsedJobs, q: ParsedJobs, id: string)
    requires SameSpec(p, q)
    ensures JobTime(p, id) == JobTime(q, id)
  {
    if id in p.jobs { SameJobsAt(p, q, id); }
  }

  lemma {:induction false} SameTotals(p: ParsedJobs, q: ParsedJobs, encode: JobPayload -> Option<string>,
                                      ids: seq<string>)
    requires SameSpec(p, q) && AllOk(p)
    ensures EncodedTotal(p, encode, ids, true) == EncodedTotal(q, encode, ids, false)
  {
    hide SameSpec, PayloadOf;
    if ids != [] {
      SameTotals(p, q, encode, ids[..|ids| - 1]);
      SameEncoding(p, q, encode, ids[|ids| - 1]);
    }
  }

  lemma SameEncoding(p: ParsedJobs, q: ParsedJobs, encode: JobPayload -> Option<string>, id: string)
    requires SameSpec(p, q)
    ensures EncodesWithin(p, encode, id) == EncodesWithin(q, encode, id)
    ensures EncodedSize(p, encode, id) == EncodedSize(q, encode, id)
  {
    if id in p.jobs { SameJobsAt(p, q, id); }
  }

  /** Every job of the spec encodes within its bound, and all of them together within the definition's. */
  ghost predicate AllEncode(p: ParsedJobs, encode: JobPayload -> Option<string>) {
    && (forall i | 0 <= i < |p.ids| :: EncodesWithin(p, encode, p.ids[i]))
    && EncodedTotal(p, encode, p.ids, false) <= JOBS_DEF_MAX_BYTES
  }

  /** With every flag set, the pass asks exactly what the spec must meet. */
  lemma FlaggedAllEncode(p: ParsedJobs, spec: ParsedJobs, encode: JobPayload -> Option<string>)
    requires JobsInv(p) && SameSpec(p, spec) && AllOk(p)
    ensures OkJobsEncode(p, encode) <==> AllEncode(spec, encode)
  {
    hide EncodesWithin, EncodedTotal, JobIdMatches, JobInv, AllOk, SameJobs;
    SameTotals(p, spec, encode, p.ids);
    forall i | 0 <= i < |p.ids|
      ensures EncodesWithin(p, encode, p.ids[i]) == EncodesWithin(spec, encode, p.ids[i])
      ensures p.ids[i] in p.jobs
    {
      assert p.ids[i] in p.ids;
      SameEncoding(p, spec, encode, p.ids[i]);
    }
    assert forall id | id in p.jobs :: p.jobs[id].ok by { FlagsSet(p); }
    forall id | id in p.jobs ensures exists i :: 0 <= i < |p.ids| && p.ids[i] == id { assert id in p.ids; }
  }

  lemma FlagsSet(p: ParsedJobs)
    requires AllOk(p)
    ensures forall id | id in p.jobs :: p.jobs[id].ok
  {
  }

  /** The step of one job, straight from the spec. */
  ghost function SpecStep(p: ParsedJobs, encode: JobPayload -> Option<string>, namespace: string, id: string): StepDef
    requires EncodesWithin(p, encode, id)
  {
    var job := p.jobs[id];
    StepDef(id, namespace + "." + JOB_TASK_SUFFIX, job.needs, Normal, None, "", "", namespace, job.timeout, job.retries,
            map[JOB_METADATA_KEY := encode(PayloadOf(p, job)).value])
  }

  /** The definition a document compiles to. */
  ghost function DefOf(name: string, namespace: string, p: ParsedJobs,
                       encode: JobPayload -> Option<string>): WorkflowDef
    requires AllEncode(p, encode)
  {
    WorkflowDef(name, seq(|p.ids|, i requires 0 <= i < |p.ids| => SpecStep(p, encode, namespace, p.ids[i])), {},
                TimeoutFor(SequentialTime(p, p.ids)))
  }

  lemma BuiltIsDef(q: ParsedJobs, spec: ParsedJobs, encode: JobPayload -> Option<string>, namespace: string,
                   payloads: map<string, string>, def: WorkflowDef)
    requires SameSpec(q, spec) && AllEncode(spec, encode) && Encoded(q, encode, payloads)
    requires BuiltFrom(q, payloads, namespace, q.ids, def.steps) && def.auxSteps == {}
    requires def.timeout == TimeoutFor(SequentialTime(q, q.ids))
    ensures def == DefOf(def.name, namespace, spec, encode)
  {
    hide SameSpec, PayloadOf, TimeoutFor, SequentialTime, EncodedTotal;
    assert q.ids == spec.ids by { SameIds(q, spec); }
    SameTimes(q, spec, q.ids);
    var said := DefOf(def.name, namespace, spec, encode);
    forall i | 0 <= i < |q.ids| ensures def.steps[i] == said.steps[i] {
      SameJobsAt(q, spec, q.ids[i]);
    }
    assert def.steps == said.steps;
  }

  lemma SameIds(p: ParsedJobs, q: ParsedJobs)
    requires SameSpec(p, q)
    ensures p.ids == q.ids
  {
  }

  /** The passes over the document have nothing to report. */
  ghost predicate PassesClean(doc: Node, namespaceOk: bool, onOk: bool, encode: JobPayload -> Option<string>) {
    var spec := SpecOf(doc);
    && SpecSound(doc, onOk) && namespaceOk
    && Closed(NeedsGraph(spec)) && Acyclic(NeedsGraph(spec))
    && (forall id | id in spec.jobs :: !Conflicted(Levels(spec, spec.jobs[id])))
    && AllEncode(spec, encode)
  }

  /**
   When a document compiles, in terms of the document and the parameters: no
   checks key, no alias or repeated key, within the node budget, every key known
   and every value of its kind, needs declared and without cycle, no variable
   both secret and plain for one job, payloads within their bounds, and the
   definition it describes valid and small enough.
   */
  ghost predicate Compiles(name: string, doc: Node, namespace: string, namespaceOk: bool, onOk: bool,
                           encode: JobPayload -> Option<string>, validate: WorkflowDef -> Option<Diagnostic>,
                           defSize: WorkflowDef -> nat)
  {
    && MappingKey(doc.content, "checks").None? && Clean(doc) && Walked(doc) <= NODE_MAX
    && PassesClean(doc, namespaceOk, onOk, encode)
    && var def := DefOf(name, namespace, SpecOf(doc), encode);
       validate(def).None? && defSize(def) <= JOBS_DEF_MAX_BYTES
  }

  /** The passes raised nothing exactly when the document's passes are clean. */
  lemma SilentIffClean(doc: Node, p: ParsedJobs, q: ParsedJobs, namespaceOk: bool, onOk: bool,
                       encode: JobPayload -> Option<string>, raised: seq<Diagnostic>,
                       raisedBy: map<string, seq<Diagnostic>>, payloadsSilent: bool)
    requires JobsInv(p) && SpecSays(p, doc.content, |doc.content|) && (raised == [] <==> SpecSound(doc, onOk))
    requires raised == [] ==> FlagsHonest(p.jobs, raisedBy) && RaisedWithin(raisedBy, raised)
    requires Screened(p, q, |p.ids|)
    requires AllOk(q) ==> (payloadsSilent <==> OkJobsEncode(q, encode))
    ensures PassesClean(doc, namespaceOk, onOk, encode) <==>
            && raised == [] && namespaceOk && Closed(NeedsGraph(p)) && Acyclic(NeedsGraph(p))
            && (forall id | id in p.jobs :: !Conflicted(Levels(p, p.jobs[id]))) && payloadsSilent
  {
    hide SpecSound, Closed, Acyclic, Conflicted, Levels, AllEncode, OkJobsEncode, FlagsHonest, RaisedWithin, JobsInv,
      Screened, SpecSays, SameSpec, SpecOf, AllOk, Runnable, SecretsSeparate, PayloadOf;
    SaysIsSpec(p, doc);
    SameGraph(p, SpecOf(doc));
    if raised == [] && forall id | id in p.jobs :: !Conflicted(Levels(p, p.jobs[id])) {
      CleanJobs(p, q, raised, raisedBy);
      ScreenedAll(p, q);
      ScreenedSays(p, q, doc.content, |doc.content|);
      SaysIsSpec(q, doc);
      FlaggedAllEncode(q, SpecOf(doc), encode);
    }
  }

  /** The definition says what the spec says: same jobs, same order between them, each job carried whole. */
  ghost predicate Faithful(p: ParsedJobs, encode: JobPayload -> Option<string>, namespace: string, def: WorkflowDef) {
    && JobsInv(p) && Ids(def.steps) == p.ids && DepGraph(def.steps) == NeedsGraph(p)
    && forall s | s in def.steps :: FaithfulStep(p, encode, namespace, s)
  }

  ghost predicate FaithfulStep(p: ParsedJobs, encode: JobPayload -> Option<string>, namespace: string, s: StepDef) {
    && s.id in p.jobs && Runnable(p.jobs[s.id]) && JOB_METADATA_KEY in s.metadata
    && (exists pay :: Carries(pay, p.env, p.jobs[s.id]) && SecretsSeparate(pay)
                      && encode(pay) == Some(s.metadata[JOB_METADATA_KEY]))
    && s.timeout == p.jobs[s.id].timeout && s.retries == p.jobs[s.id].retries
    && s.workerGroup == namespace && s.task == namespace + "." + JOB_TASK_SUFFIX && s.stepType == Normal
    && s.skipIf == None && s.onFailure == "" && s.compensate == ""
  }

  lemma StepFaithful(p: ParsedJobs, encode: JobPayload -> Option<string>, namespace: string,
                     payloads: map<string, string>, id: string)
    requires id in p.jobs && id in payloads && Encoded(p, encode, payloads)
    requires Runnable(p.jobs[id]) && SecretsSeparate(PayloadOf(p, p.jobs[id]))
    ensures FaithfulStep(p, encode, namespace, JobStep(p, payloads, namespace, id))
  {
    hide Runnable, SecretsSeparate, PayloadOf, Carries;
    CarriesIff(p, p.jobs[id], PayloadOf(p, p.jobs[id]));
  }

  /** No chain of the compiled workflow outlasts its timeout, short of the one-year ceiling. */
  ghost predicate ChainsFit(p: ParsedJobs, def: WorkflowDef) {
    && (def.timeout < JOBS_WORKFLOW_TIMEOUT_MAX ==>
          forall chain | IsPath(DepGraph(def.steps), chain) :: SequentialTime(p, chain) <= def.timeout)
    && WORKFLOW_TIMEOUT <= def.timeout <= JOBS_WORKFLOW_TIMEOUT_MAX
    && (def.timeout > WORKFLOW_TIMEOUT ==> def.timeout <= SequentialTime(p, Ids(def.steps)))
  }

  lemma OwnProblemShows(raisedBy: map<string, seq<Diagnostic>>, raised: seq<Diagnostic>, id: string)
    requires RaisedWithin(raisedBy, raised) && id in raisedBy
    ensures raisedBy[id] != [] ==> raised != []
  {
    if raisedBy[id] != [] { assert raisedBy[id][0] in raised; }
  }

  /** A clean compilation's jobs are ok, runnable and free of secret conflicts. */
  lemma CleanJobs(p: ParsedJobs, q: ParsedJobs, raised: seq<Diagnostic>, raisedBy: map<string, seq<Diagnostic>>)
    requires JobsInv(p) && FlagsHonest(p.jobs, raisedBy) && RaisedWithin(raisedBy, raised) && raised == []
    requires Screened(p, q, |p.ids|) && forall id | id in p.jobs :: !Conflicted(Levels(p, p.jobs[id]))
    ensures AllOk(q)
    ensures forall id | id in q.jobs :: Runnable(q.jobs[id]) && SecretsSeparate(PayloadOf(q, q.jobs[id]))
  {
    hide JobsInv, Conflicted, Runnable, SecretsSeparate, PayloadOf;
    ScreenedAll(p, q);
    forall id | id in q.jobs
      ensures q.jobs[id].ok && Runnable(q.jobs[id]) && SecretsSeparate(PayloadOf(q, q.jobs[id]))
    {
      OwnProblemShows(raisedBy, raised, id);
      assert q.jobs[id] == p.jobs[id] && Levels(q, q.jobs[id]) == Levels(p, p.jobs[id]);
      UnconflictedIffSeparate(q, q.jobs[id]);
    }
  }

  lemma BuildsFaithfully(p: ParsedJobs, encode: JobPayload -> Option<string>, namespace: string,
                         payloads: map<string, string>, def: WorkflowDef)
    requires JobsInv(p) && Encoded(p, encode, payloads) && BuiltFrom(p, payloads, namespace, p.ids, def.steps)
    requires forall id | id in p.jobs :: Runnable(p.jobs[id]) && SecretsSeparate(PayloadOf(p, p.jobs[id]))
    requires Closed(NeedsGraph(p)) && Acyclic(NeedsGraph(p)) && def.auxSteps == {}
    ensures Faithful(p, encode, namespace, def) && DepGraph(def.steps) == NeedsGraph(p) && Ids(def.steps) == p.ids
    ensures Scheduler.WellFormed(def) && Scheduler.IsComplete(def, Scheduler.Rounds(def, |def.steps|))
  {
    hide JobIdMatches, JobInv, DepGraph, Closed, Acyclic, Runnable, SecretsSeparate, PayloadOf, FaithfulStep, Encoded;
    StepsKeepNeeds(p, payloads, namespace, def.steps);
    Scheduler.FinishesInStepCountRounds(def);
    forall s | s in def.steps ensures FaithfulStep(p, encode, namespace, s) {
      var i :| 0 <= i < |def.steps| && def.steps[i] == s;
      StepFaithful(p, encode, namespace, payloads, p.ids[i]);
    }
  }

  lemma TimeoutCovers(p: ParsedJobs, def: WorkflowDef)
    requires JobsInv(p) && Acyclic(NeedsGraph(p)) && DepGraph(def.steps) == NeedsGraph(p) && Ids(def.steps) == p.ids
    requires def.timeout < JOBS_WORKFLOW_TIMEOUT_MAX ==> SequentialTime(p, p.ids) <= def.timeout
    requires WORKFLOW_TIMEOUT <= def.timeout <= JOBS_WORKFLOW_TIMEOUT_MAX
    requires def.timeout > WORKFLOW_TIMEOUT ==> def.timeout <= SequentialTime(p, p.ids)
    ensures ChainsFit(p, def)
  {
    hide JobsInv, DepGraph, Acyclic, SequentialTime, NeedsGraph, IsPath;
    if def.timeout < JOBS_WORKFLOW_TIMEOUT_MAX {
      forall chain | IsPath(DepGraph(def.steps), chain) ensures SequentialTime(p, chain) <= def.timeout {
        ChainFits(p, chain);
      }
    }
  }

  lemma AllPaid(p: ParsedJobs, encode: JobPayload -> Option<string>, payloads: map<string, string>)
    requires AllOk(p) && Encoded(p, encode, payloads) && forall id | id in p.jobs && p.jobs[id].ok :: id in payloads
    ensures payloads.Keys == p.jobs.Keys
  {
    hide PayloadOf;
  }

  /** The conditions are met but for validation and size, and the definition is the one the document describes. */
  lemma DefIsDocuments(doc: Node, q: ParsedJobs, encode: JobPayload -> Option<string>, namespace: string,
                       payloads: map<string, string>, def: WorkflowDef)
    requires SpecSays(q, doc.content, |doc.content|) && AllEncode(SpecOf(doc), encode) && Encoded(q, encode, payloads)
    requires BuiltFrom(q, payloads, namespace, q.ids, def.steps) && def.auxSteps == {}
    requires def.timeout == TimeoutFor(SequentialTime(q, q.ids))
    ensures def == DefOf(def.name, namespace, SpecOf(doc), encode)
  {
    hide SpecSays, SpecOf, SameSpec, Encoded, BuiltFrom, AllEncode;
    SaysIsSpec(q, doc);
    BuiltIsDef(q, SpecOf(doc), encode, namespace, payloads, def);
  }

  /**
   Compiles exactly the documents that meet the conditions, each to the
   definition it describes, and otherwise returns the capped list of problems.
   */
  method CompileJobs(name: string, doc: Node, namespace: string, namespaceProblem: Option<Diagnostic>,
                     onProblem: Option<Diagnostic>, encode: JobPayload -> Option<string>,
                     validate: WorkflowDef -> Option<Diagnostic>, defSize: WorkflowDef -> nat)
    returns (out: Outcome, ghost parsed: ParsedJobs, ghost problems: seq<Diagnostic>)
    requires name != "" && doc.kind.MappingNode? && WellFormed(doc) && MappingKey(doc.content, "jobs").Some?
    requires namespace == "" ==> namespaceProblem.Some?
    ensures out.Compiled? <==>
            Compiles(name, doc, namespace, namespaceProblem.None?, onProblem.None?, encode, validate, defSize)
    ensures out.Compiled? ==> out.def == DefOf(name, namespace, SpecOf(doc), encode)
    ensures out.Compiled? <==> problems == []
    ensures out.Rejected? ==> out.diags == AddAll([], problems) && out.diags != []
    ensures out.Compiled? ==> SpecSays(parsed, doc.content, |doc.content|)
    ensures out.Compiled? ==> forall id | id in parsed.jobs :: SoundJob(doc, id)
    ensures out.Compiled? ==>
              && MappingKey(doc.content, "checks").None? && Clean(doc) && Walked(doc) <= NODE_MAX
              && namespaceProblem.None? && out.def.name == name
              && validate(out.def).None? && defSize(out.def) <= JOBS_DEF_MAX_BYTES
    ensures out.Compiled? ==> out.def.steps != [] && Faithful(parsed, encode, namespace, out.def)
    ensures out.Compiled? ==>
              && Scheduler.WellFormed(out.def) && out.def.auxSteps == {}
              && Scheduler.IsComplete(out.def, Scheduler.Rounds(out.def, |out.def.steps|))
    ensures out.Compiled? ==> ChainsFit(parsed, out.def)
  {
    hide AddAll, AddDiagnostic, WellFormed, Clean, JobsInv, FlagsHonest, RaisedWithin, Screened, Conflicted, Encoded,
      Closed, Acyclic, Faithful, ChainsFit, Runnable, SecretsSeparate, PayloadOf, BuiltFrom, SpecSound, OkJobsEncode,
      Scheduler.WellFormed, Scheduler.IsComplete, AllOk, TotalSize, MappingKey, AllReport, SimpleCycle,
      SameClosingEdge, SpecSays, DefOf, SpecOf, AllEncode, PassesClean, TimeoutFor, SoundJob;
    parsed := ParsedJobs(EMPTY_ENV, map[], None, []);
    if MappingKey(doc.content, "checks").Some? {
      var key := MappingKey(doc.content, "jobs").value;
      var d := DiagAt(key, "jobs", Other("a spec uses either jobs: or checks:, not both"));
      AddOne([], d);
      LengthTellsBelowCap([], [d]);
      return Rejected(AddDiagnostic([], d)), parsed, [d];
    }
    var diags;
    diags, problems := JobsDocumentDiagnostics(doc);
    if |diags| > 0 { return Rejected(diags), parsed, problems; }
    var p, q, payloads;
    p, q, payloads, diags, problems := RunPasses(doc, namespaceProblem, onProblem, encode);
    parsed := q;
    LengthTellsBelowCap([], problems);
    if |diags| > 0 {
      PassesFail(name, doc, namespace, namespaceProblem.None?, onProblem.None?, encode, validate, defSize);
      return Rejected(diags), parsed, problems;
    }
    AllEncodeOf(doc, namespaceProblem.None?, onProblem.None?, encode);
    var steps := BuildJobSteps(q, payloads, namespace);
    var timeout := JobsWorkflowTimeout(q);
    var def := WorkflowDef(name, steps, {}, timeout);
    DefIsDocuments(doc, q, encode, namespace, payloads, def);
    BuildsFaithfully(q, encode, namespace, payloads, def);
    TimeoutSaturates(SequentialTime(q, q.ids));
    TimeoutCovers(q, def);
    match validate(def) {
      case Some(problem) =>
        AddOne([], problem);
        LengthTellsBelowCap([], [problem]);
        return Rejected(AddDiagnostic([], problem)), parsed, [problem];
      case None =>
    }
    if defSize(def) > JOBS_DEF_MAX_BYTES {
      AddOne([], DefTooLarge(q));
      LengthTellsBelowCap([], [DefTooLarge(q)]);
      return Rejected(AddDiagnostic([], DefTooLarge(q))), parsed, [DefTooLarge(q)];
    }
    out := Compiled(def);
  }

  lemma PassesFail(name: string, doc: Node, namespace: string, namespaceOk: bool, onOk: bool,
                   encode: JobPayload -> Option<string>, validate: WorkflowDef -> Option<Diagnostic>,
                   defSize: WorkflowDef -> nat)
    requires !PassesClean(doc, namespaceOk, onOk, encode)
    ensures !Compiles(name, doc, namespace, namespaceOk, onOk, encode, validate, defSize)
  {
    hide PassesClean;
  }

  lemma AllEncodeOf(doc: Node, namespaceOk: bool, onOk: bool, encode: JobPayload -> Option<string>)
    requires PassesClean(doc, namespaceOk, onOk, encode)
    ensures AllEncode(SpecOf(doc), encode) && namespaceOk
  {
    hide AllEncode, SpecOf, SpecSound, Closed, Acyclic, Conflicted;
  }

  /** What is encoded is sound: the payload pass does nothing at the cap, and below it a job's flag is its own. */
  lemma EncodedAreSound(doc: Node, p: ParsedJobs, q: ParsedJobs, encode: JobPayload -> Option<string>,
                        payloads: map<string, string>, raised: seq<Diagnostic>, before: seq<Diagnostic>,
                        raisedBy: map<string, seq<Diagnostic>>)
    requires JobsInv(p) && JobsJudged(raisedBy, doc.content, |doc.content|) && Screened(p, q, |p.ids|)
    requires |AddAll([], raised)| < DIAGNOSTICS_MAX ==> FlagsHonest(p.jobs, raisedBy)
    requires |raised| <= |before| && Encoded(q, encode, payloads)
    requires payloads != map[] ==> |AddAll([], before)| < DIAGNOSTICS_MAX
    ensures forall id | id in payloads :: SoundJob(doc, id)
  {
    hide AddAll, JobsInv, SoundAt, PayloadOf, Runnable, Conflicted, Value;
    ScreenedAll(p, q);
    CapKeepsFirstProblems(raised);
    CapKeepsFirstProblems(before);
    forall id | id in payloads ensures SoundJob(doc, id) {
      assert p.jobs[id].ok && raisedBy[id] == [];
    }
  }

  /** The passes between the document's screen and the definition. */
  method RunPasses(doc: Node, namespaceProblem: Option<Diagnostic>, onProblem: Option<Diagnostic>,
                   encode: JobPayload -> Option<string>)
    returns (p: ParsedJobs, q: ParsedJobs, payloads: map<string, string>, diags: seq<Diagnostic>,
             ghost problems: seq<Diagnostic>)
    requires doc.kind.MappingNode? && WellFormed(doc) && Clean(doc) && MappingKey(doc.content, "jobs").Some?
    ensures diags == AddAll([], problems)
    ensures problems == [] <==> PassesClean(doc, namespaceProblem.None?, onProblem.None?, encode)
    ensures JobsInv(q) && q.jobsKey.Some? && SpecSays(q, doc.content, |doc.content|) && Encoded(q, encode, payloads)
    ensures forall id | id in payloads :: SoundJob(doc, id)
    ensures problems == [] ==>
              && q.ids != [] && payloads.Keys == q.jobs.Keys && Closed(NeedsGraph(q)) && Acyclic(NeedsGraph(q))
              && forall id | id in q.jobs :: Runnable(q.jobs[id]) && SecretsSeparate(PayloadOf(q, q.jobs[id]))
  {
    hide AddAll, AddDiagnostic, WellFormed, Clean, JobsInv, FlagsHonest, RaisedWithin, Screened, Conflicted, Encoded,
      Closed, Acyclic, Runnable, SecretsSeparate, PayloadOf, SpecSound, OkJobsEncode, AllOk, TotalSize, MappingKey,
      AllReport, SimpleCycle, SameClosingEdge, SpecSays, PassesClean, NeedsGraph, SoundJob, JobsJudged;
    ghost var more, raisedBy, cycles;
    p, diags, problems, raisedBy := ParseJobsSpec(doc, onProblem);
    ghost var raised := problems;
    LengthTellsBelowCap([], raised);
    if namespaceProblem.Some? {
      AddAllOne([], problems, namespaceProblem.value);
      diags, problems := AddDiagnostic(diags, namespaceProblem.value), problems + [namespaceProblem.value];
    }
    diags, more := NeedsDiagnostics(p, diags);
    AddAllConcat([], problems, more);
    problems := problems + more;
    diags, more, cycles := CycleDiagnostics(p, diags);
    AddAllConcat([], problems, more);
    problems := problems + more;
    q, diags, more := SecretConflictDiagnostics(p, diags);
    AddAllConcat([], problems, more);
    problems := problems + more;
    ScreenedAll(p, q);
    ScreenedSays(p, q, doc.content, |doc.content|);
    OkUnconflicted(p, q);
    ghost var before := problems;
    LengthTellsBelowCap([], before);
    payloads, diags, more := JobPayloads(q, encode, diags);
    EncodedAreSound(doc, p, q, encode, payloads, raised, before, raisedBy);
    AddAllConcat([], problems, more);
    problems := problems + more;
    SilentIffClean(doc, p, q, namespaceProblem.None?, onProblem.None?, encode, raised, raisedBy,
                   if before == [] then more == [] else OkJobsEncode(q, encode));
    if problems == [] {
      CleanJobs(p, q, raised, raisedBy);
      AllPaid(q, encode, payloads);
    }
  }
}
