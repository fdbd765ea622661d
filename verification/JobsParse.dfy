/**
 Parsing a screened `jobs:` document (ci/jobs.go). Every parser returns the
 diagnostics it was given extended by the problems it raised; raised is that
 list of problems before the cap, and the parsed job's ok flag is compared
 against it.
 */
module JobsParse {
  import opened Graphs
  import opened Dag
  import opened Diagnostics
  import opened JobsGuard
  import opened JobsSpec
  import opened StringOrder

  // ---------------------------------------------------------------- levels and strings

  predicate KnownKey(key: Node, allowed: set<string>) {
    key.tag == "!!merge" || key.value in allowed || IsUnsupported(key.value)
  }

  method UnknownFieldDiagnostics(node: Node, allowed: set<string>, field: string, diags: seq<Diagnostic>)
    returns (r: seq<Diagnostic>, ghost raised: seq<Diagnostic>)
    requires Bounded(diags)
    requires node.kind.MappingNode? && |node.content| % 2 == 0
    ensures r == AddAll(diags, raised)
    ensures raised == [] <==> forall i | 0 <= i < |node.content| && i % 2 == 0 :: KnownKey(node.content[i], allowed)
  {
    hide IsUnsupported, AddAll, AddDiagnostic;
    r, raised := diags, [];
    NothingAdded(diags);
    var i := 0;
    while i + 1 < |node.content|
      invariant i % 2 == 0 && i <= |node.content|
      invariant r == AddAll(diags, raised)
      invariant raised == [] <==> forall j | 0 <= j < i && j % 2 == 0 :: KnownKey(node.content[j], allowed)
    {
      var key := node.content[i];
      if !KnownKey(key, allowed) {
        var d := DiagAt(key, field, Other("unknown field"));
        AddAllOne(diags, raised, d);
        r, raised := AddDiagnostic(r, d), raised + [d];
      }
      assert forall j | 0 <= j < i + 2 && j % 2 == 0 :: j < i || j == i;
      i := i + 2;
    }
  }

  predicate SupportedKey(key: Node) {
    key.tag != "!!merge" && !IsUnsupported(key.value)
  }

  method UnsupportedKeyDiagnostics(node: Node, field: string, diags: seq<Diagnostic>)
    returns (r: seq<Diagnostic>, ghost raised: seq<Diagnostic>)
    requires Bounded(diags)
    requires node.kind.MappingNode? && |node.content| % 2 == 0
    ensures r == AddAll(diags, raised)
    ensures raised == [] <==> forall i | 0 <= i < |node.content| && i % 2 == 0 :: SupportedKey(node.content[i])
  {
    hide IsUnsupported, AddAll, AddDiagnostic;
    r, raised := diags, [];
    NothingAdded(diags);
    var i := 0;
    while i + 1 < |node.content|
      invariant i % 2 == 0 && i <= |node.content|
      invariant r == AddAll(diags, raised)
      invariant raised == [] <==> forall j | 0 <= j < i && j % 2 == 0 :: SupportedKey(node.content[j])
    {
      var key := node.content[i];
      if key.tag == "!!merge" {
        var d := DiagAt(key, field, Other("merge keys are not supported in a jobs: spec"));
        AddAllOne(diags, raised, d);
        r, raised := AddDiagnostic(r, d), raised + [d];
      } else if IsUnsupported(key.value) {
        var d := DiagAt(key, field, Other("not supported"));
        AddAllOne(diags, raised, d);
        r, raised := AddDiagnostic(r, d), raised + [d];
      }
      assert forall j | 0 <= j < i + 2 && j % 2 == 0 :: j < i || j == i;
      i := i + 2;
    }
  }

  lemma AddOne(diags: seq<Diagnostic>, d: Diagnostic)
    requires Bounded(diags)
    ensures AddDiagnostic(diags, d) == AddAll(diags, [d])
  {
    AddAllOne(diags, [], d);
    assert [] + [d] == [d];
  }

  lemma NothingAdded(diags: seq<Diagnostic>)
    requires Bounded(diags)
    ensures AddAll(diags, []) == diags
  {
  }

  /** Reports merge, unsupported and unknown keys; silent exactly when every key of the level is an allowed one. */
  method JobsLevelKeys(node: Node, allowed: set<string>, field: string, diags: seq<Diagnostic>)
    returns (r: seq<Diagnostic>, ghost raised: seq<Diagnostic>)
    requires Bounded(diags)
    requires node.kind.MappingNode? && |node.content| % 2 == 0
    requires forall k | k in allowed :: !IsUnsupported(k)
    ensures r == AddAll(diags, raised)
    ensures raised == [] <==> LevelKeysOk(node.content, allowed)
  {
    hide IsUnsupported, AddAll, AddDiagnostic;
    ghost var more;
    r, raised := UnsupportedKeyDiagnostics(node, field, diags);
    ghost var first := raised;
    r, more := UnknownFieldDiagnostics(node, allowed, field, r);
    AddAllConcat(diags, raised, more);
    raised := raised + more;
    assert forall key :: LevelKeyOk(key, allowed) <==> SupportedKey(key) && KnownKey(key, allowed);
  }

  method ParseJobsString(node: Node, field: string, diags: seq<Diagnostic>)
    returns (v: string, r: seq<Diagnostic>, ghost raised: seq<Diagnostic>)
    requires Bounded(diags)
    ensures r == AddAll(diags, raised)
    ensures raised == [] <==> StringSound(node)
    ensures v == StringOf(node)
    ensures v == if node.kind.ScalarNode? && !ContainsExpression(node.value) then node.value else ""
    ensures raised == [] <==> node.kind.ScalarNode? && !ContainsExpression(node.value)
  {
    if !node.kind.ScalarNode? {
      var d := DiagAt(node, field, Other("must be a string"));
      AddOne(diags, d);
      return "", AddDiagnostic(diags, d), [d];
    }
    if ContainsExpression(node.value) {
      var d := DiagAt(node, field, Other("expressions are not supported"));
      AddOne(diags, d);
      return "", AddDiagnostic(diags, d), [d];
    }
    return node.value, diags, [];
  }

  // ---------------------------------------------------------------- env

  /** Files one pair as plain or secret, or raises one problem and files it as neither. */
  method ParseJobsEnvEntry(env: EnvValues, key: Node, val: Node, diags: seq<Diagnostic>)
    returns (e: EnvValues, r: seq<Diagnostic>, ghost raised: seq<Diagnostic>)
    requires Bounded(diags) && EnvInv(env)
    ensures r == AddAll(diags, raised) && |raised| <= 1
    ensures raised == [] <==> EntryOk(key, val)
    ensures raised == [] <==>
            && key.kind.ScalarNode? && EnvKeyMatches(key.value) && val.kind.ScalarNode?
            && (|| !ContainsExpression(val.value)
                || exists before, after :: References(val.value, before, key.value, after))
    ensures EnvInv(e) && e == WithEntry(env, key, val)
  {
    EntryOkIff(key, val);
    hide References;
    e := env;
    var problem: Option<Diagnostic> := None;
    if ContainsExpression(key.value) {
      problem := Some(DiagAt(key, env.field, Other("expressions are not supported")));
    } else if !key.kind.ScalarNode? || !EnvKeyMatches(key.value) {
      problem := Some(DiagAt(key, env.field, Other("env var name must match the pattern")));
    } else if !val.kind.ScalarNode? {
      problem := Some(DiagAt(val, env.field + "." + key.value, Other("must be a string")));
    } else {
      e := e.(keyNodes := e.keyNodes[key.value := key]);
      match SecretRef(val.value) {
        case None =>
          if ContainsExpression(val.value) {
            problem := Some(DiagAt(val, env.field + "." + key.value, Other("expressions are not supported")));
          } else {
            e := e.(plain := e.plain[key.value := val.value]);
          }
        case Some(name) =>
          if name != key.value {
            problem := Some(DiagAt(val, env.field + "." + key.value, Other("a secret must be bound to its own name")));
          } else {
            e := e.(secretNames := e.secretNames + {key.value});
          }
      }
    }
    if problem.Some? {
      AddOne(diags, problem.value);
      return e, AddDiagnostic(diags, problem.value), [problem.value];
    }
    return e, diags, [];
  }

  /** Silent exactly on a sound block; in one without repeated keys no name is filed both as plain and as secret. */
  method ParseJobsEnv(node: Node, field: string, diags: seq<Diagnostic>)
    returns (env: EnvValues, r: seq<Diagnostic>, ghost raised: seq<Diagnostic>)
    requires Bounded(diags)
    requires node.kind.MappingNode? ==> |node.content| % 2 == 0
    ensures r == AddAll(diags, raised)
    ensures raised == [] <==> EnvSound(node)
    ensures EnvInv(env) && env == EnvOf(node, field)
    ensures KeysDistinct(node.content) ==> env.plain.Keys !! env.secretNames
  {
    hide AddAll, AddDiagnostic, EntryOk, WithEntry, Pairs, KeysDistinct;
    env, r, raised := EMPTY_ENV.(field := field), diags, [];
    NothingAdded(diags);
    if node.kind.ScalarNode? && node.tag == "!!null" {
      return;
    }
    if !node.kind.MappingNode? {
      var d := DiagAt(node, field, Other("must be a mapping"));
      AddOne(diags, d);
      return env, AddDiagnostic(diags, d), [d];
    }
    NoPairs(node.content, EntryOk);
    var i := 0;
    while i + 1 < |node.content|
      invariant i % 2 == 0 && i <= |node.content|
      invariant r == AddAll(diags, raised)
      invariant raised == [] <==> Pairs(node.content, i, EntryOk)
      invariant EnvInv(env) && env == EnvUpTo(node.content, i, field)
    {
      ghost var more;
      env, r, more := ParseJobsEnvEntry(env, node.content[i], node.content[i + 1], r);
      AddAllConcat(diags, raised, more);
      raised := raised + more;
      PairsNext(node.content, i, EntryOk);
      i := i + 2;
    }
    FiledOnce(node.content, field);
  }

  // ---------------------------------------------------------------- scalar fields

  /** Silent exactly on a job id or a list of them; a repeated need is kept once. */
  method ParseNeeds(node: Node, field: string, diags: seq<Diagnostic>)
    returns (needs: seq<string>, r: seq<Diagnostic>, ghost raised: seq<Diagnostic>)
    requires Bounded(diags)
    ensures r == AddAll(diags, raised)
    ensures raised == [] <==> NeedsSound(node)
    ensures NoDuplicates(needs) && needs == NeedsOf(node)
    ensures raised == [] <==>
            || (node.kind.ScalarNode? && node.tag != "!!null")
            || (node.kind.SequenceNode? && forall item | item in node.content :: item.kind.ScalarNode?)
    ensures !node.kind.SequenceNode? ==>
              needs == if node.kind.ScalarNode? && node.tag != "!!null" then [node.value] else []
    ensures node.kind.SequenceNode? ==>
              forall v :: v in needs <==> exists n :: n in node.content && n.kind.ScalarNode? && n.value == v
  {
    hide AddAll, AddDiagnostic;
    r, raised, needs := diags, [], [];
    NothingAdded(diags);
    if node.kind.ScalarNode? && node.tag != "!!null" {
      return [node.value], diags, [];
    }
    if !node.kind.SequenceNode? {
      var d := DiagAt(node, field, Other("must be a job id or a list of job ids"));
      AddOne(diags, d);
      return [], AddDiagnostic(diags, d), [d];
    }
    var listed: set<string> := {};
    for i := 0 to |node.content|
      invariant r == AddAll(diags, raised)
      invariant raised == [] <==> forall n | n in node.content[..i] :: n.kind.ScalarNode?
      invariant (forall v :: v in listed <==> v in needs) && needs == NeedsUpTo(node.content, i)
    {
      var item := node.content[i];
      assert node.content[..i + 1] == node.content[..i] + [item];
      if !item.kind.ScalarNode? {
        var d := DiagAt(item, field, Other("entries must be job ids"));
        AddAllOne(diags, raised, d);
        r, raised := AddDiagnostic(r, d), raised + [d];
        continue;
      }
      if item.value !in listed {
        listed := listed + {item.value};
        needs := needs + [item.value];
      }
    }
    assert node.content[..|node.content|] == node.content;
    NeedsMembers(node.content, |node.content|);
  }

  method ParseTimeoutMinutes(node: Node, field: string, fallback: int, diags: seq<Diagnostic>)
    returns (timeout: int, r: seq<Diagnostic>, ghost raised: seq<Diagnostic>)
    requires Bounded(diags) && 0 < fallback <= JOB_TIMEOUT_MINUTES_MAX * MINUTE
    ensures r == AddAll(diags, raised)
    ensures 0 < timeout <= JOB_TIMEOUT_MINUTES_MAX * MINUTE && timeout == TimeoutOf(node, fallback)
    ensures raised == [] <==> MinutesOk(node)
    ensures raised == [] <==>
            node.kind.ScalarNode? && node.tag == "!!int" && node.decoded.Int? && 1 <= node.decoded.value <= 360
    ensures timeout == if raised == [] then node.decoded.value * MINUTE else fallback
  {
    if !node.kind.ScalarNode? || node.tag != "!!int" || node.decoded.NotAnInt? {
      var d := DiagAt(node, field, Other("must be a positive integer number of minutes"));
      AddOne(diags, d);
      return fallback, AddDiagnostic(diags, d), [d];
    }
    var minutes := node.decoded.value;
    if minutes < 1 || minutes > JOB_TIMEOUT_MINUTES_MAX {
      var d := DiagAt(node, field, Other("out of range"));
      AddOne(diags, d);
      return fallback, AddDiagnostic(diags, d), [d];
    }
    return minutes * MINUTE, diags, [];
  }

  method ParseRetries(node: Node, field: string, diags: seq<Diagnostic>)
    returns (retries: int, r: seq<Diagnostic>, ghost raised: seq<Diagnostic>)
    requires Bounded(diags)
    ensures r == AddAll(diags, raised)
    ensures 0 <= retries <= RETRY_ATTEMPT_COUNT_MAX && retries == RetriesOf(node)
    ensures raised == [] <==> RetriesOk(node)
    ensures raised == [] <==>
            node.kind.ScalarNode? && node.tag == "!!int" && node.decoded.Int? && 0 <= node.decoded.value <= 100_000
    ensures retries == if raised == [] then node.decoded.value else 0
  {
    if !node.kind.ScalarNode? || node.tag != "!!int" || node.decoded.NotAnInt? {
      var d := DiagAt(node, field, Other("must be an integer"));
      AddOne(diags, d);
      return 0, AddDiagnostic(diags, d), [d];
    }
    if node.decoded.value < 0 || node.decoded.value > RETRY_ATTEMPT_COUNT_MAX {
      var d := DiagAt(node, field, Other("out of range"));
      AddOne(diags, d);
      return 0, AddDiagnostic(diags, d), [d];
    }
    return node.decoded.value, diags, [];
  }

  // ---------------------------------------------------------------- steps and jobs

  lemma {:induction false} MappingKeyFinds(content: seq<Node>, key: string)
    requires |content| % 2 == 0
    ensures MappingKey(content, key).Some? <==> HasKeyBefore(content, |content|, key)
    decreases |content|
  {
    if |content| >= 2 && content[0].value != key {
      MappingKeyFinds(content[2..], key);
      if HasKeyBefore(content, |content|, key) {
        var j :| 0 <= j < |content| && j + 1 < |content| && j % 2 == 0 && content[j].value == key;
        assert content[2..][j - 2].value == key;
      }
      if HasKeyBefore(content[2..], |content[2..]|, key) {
        var j :| 0 <= j < |content[2..]| && j + 1 < |content[2..]| && j % 2 == 0 && content[2..][j].value == key;
        assert content[j + 2].value == key;
      }
    }
  }

  /** One more pair seen: it is the only new place a key can be. */
  lemma OneMorePair(content: seq<Node>, i: nat, key: string)
    requires i % 2 == 0 && i + 1 < |content|
    ensures HasKeyBefore(content, i + 2, key) <==> HasKeyBefore(content, i, key) || content[i].value == key
  {
    if HasKeyBefore(content, i + 2, key) {
      var j :| 0 <= j < i + 2 && j + 1 < |content| && j % 2 == 0 && content[j].value == key;
      assert j < i || j == i;
    }
  }

  /** Silent exactly on a sound step, and then it has a command to run. */
  method ParseStep(node: Node, field: string, diags: seq<Diagnostic>)
    returns (step: ParsedStep, r: seq<Diagnostic>, ghost raised: seq<Diagnostic>)
    requires Bounded(diags) && WellFormed(node)
    ensures r == AddAll(diags, raised)
    ensures raised == [] <==> StepSound(node)
    ensures EnvInv(step.env) && step == StepOf(node, field)
    ensures raised == [] ==> step.run != ""
  {
    hide AddAll, AddDiagnostic, IsUnsupported, ContainsExpression, WithStepField, StepPairSound, LevelKeysOk, Pairs;
    step, r, raised := EMPTY_STEP, diags, [];
    NothingAdded(diags);
    if !node.kind.MappingNode? {
      var d := DiagAt(node, field, Other("must be a mapping"));
      AddOne(diags, d);
      return step, AddDiagnostic(diags, d), [d];
    }
    AllowedKeysSupported();
    r, raised := JobsLevelKeys(node, STEP_ALLOWED, field, diags);
    ghost var keysOk := LevelKeysOk(node.content, STEP_ALLOWED);
    NoPairs(node.content, StepPairSound);
    var i := 0;
    while i + 1 < |node.content|
      invariant i % 2 == 0 && i <= |node.content|
      invariant r == AddAll(diags, raised)
      invariant raised == [] <==> keysOk && Pairs(node.content, i, StepPairSound)
      invariant EnvInv(step.env) && step == StepUpTo(node.content, i, field)
      invariant raised == [] && HasKeyBefore(node.content, i, "run") ==> step.run != ""
    {
      var key, val := node.content[i], node.content[i + 1];
      step, r, raised := ParseStepField(step, key, val, field, diags, r, raised);
      OneMorePair(node.content, i, "run");
      PairsNext(node.content, i, StepPairSound);
      i := i + 2;
    }
    MappingKeyFinds(node.content, "run");
    if MappingKey(node.content, "run").None? {
      var d := DiagAt(node, field, Other("step has no run"));
      AddAllOne(diags, raised, d);
      r, raised := AddDiagnostic(r, d), raised + [d];
    }
  }

  /** The switch of ParseStep's loop; raised so far is extended by what this field raises. */
  method ParseStepField(step: ParsedStep, key: Node, val: Node, field: string, ghost diags: seq<Diagnostic>,
                        current: seq<Diagnostic>, ghost before: seq<Diagnostic>)
    returns (s: ParsedStep, r: seq<Diagnostic>, ghost raised: seq<Diagnostic>)
    requires Bounded(diags) && current == AddAll(diags, before)
    requires EnvInv(step.env) && WellFormed(val)
    ensures r == AddAll(diags, raised) && before <= raised
    ensures raised == [] <==> before == [] && StepPairSound(key, val)
    ensures EnvInv(s.env) && s == WithStepField(step, key, val, field)
    ensures raised == [] ==> if key.value == "run" then s.run != "" else s.run == step.run
  {
    hide AddAll, AddDiagnostic, IsUnsupported, ContainsExpression, EnvOf, EnvSound;
    s, r, raised := step, current, before;
    ghost var more := [];
    if key.value == "name" {
      var name;
      name, r, more := ParseJobsString(val, field + ".name", r);
      s := s.(name := name);
      AddAllConcat(diags, before, more);
      raised := before + more;
    } else if key.value == "run" {
      var run;
      var runBefore := |r|;
      ghost var r0 := r;
      run, r, more := ParseJobsString(val, field + ".run", r);
      s := s.(run := run);
      AddAllConcat(diags, before, more);
      raised := before + more;
      if more == [] { NothingAdded(r0); }
      if |r| == runBefore && s.run == "" {
        var d := DiagAt(val, field, Other("step has no run"));
        AddAllOne(diags, raised, d);
        r, raised := AddDiagnostic(r, d), raised + [d];
      }
    } else if key.value == "working-directory" {
      var dir;
      dir, r, more := ParseJobsString(val, field + ".working-directory", r);
      s := s.(workingDir := dir);
      AddAllConcat(diags, before, more);
      raised := before + more;
    } else if key.value == "env" {
      var env;
      env, r, more := ParseJobsEnv(val, field + ".env", r);
      s := s.(env := env);
      AddAllConcat(diags, before, more);
      raised := before + more;
    }
  }

  predicate StepsHaveRun(steps: seq<ParsedStep>) {
    forall s | s in steps :: s.run != ""
  }

  predicate StepsInv(steps: seq<ParsedStep>) {
    forall s | s in steps :: EnvInv(s.env)
  }

  method ParseSteps(steps: seq<ParsedStep>, node: Node, field: string, diags: seq<Diagnostic>)
    returns (all: seq<ParsedStep>, r: seq<Diagnostic>, ghost raised: seq<Diagnostic>)
    requires Bounded(diags) && WellFormed(node) && StepsInv(steps)
    ensures r == AddAll(diags, raised)
    ensures raised == [] <==> StepsSound(node)
    ensures StepsInv(all) && all == steps + StepsOf(node, field)
    ensures raised == [] ==> all != [] && (StepsHaveRun(steps) ==> StepsHaveRun(all))
  {
    hide AddAll, AddDiagnostic, WellFormed, StepOf, Decimal, StepSound;
    all, r, raised := steps, diags, [];
    NothingAdded(diags);
    if !node.kind.SequenceNode? {
      var d := DiagAt(node, field, Other("must be a list of steps"));
      AddOne(diags, d);
      return all, AddDiagnostic(diags, d), [d];
    }
    if |node.content| == 0 {
      var d := DiagAt(node, field, Other("job has no steps"));
      AddOne(diags, d);
      return all, AddDiagnostic(diags, d), [d];
    }
    ChildrenWellFormed(node);
    for i := 0 to |node.content|
      invariant r == AddAll(diags, raised)
      invariant raised == [] <==> forall item | item in node.content[..i] :: StepSound(item)
      invariant |all| == |steps| + i && StepsInv(all) && all == steps + StepsUpTo(node.content, i, field)
      invariant raised == [] && StepsHaveRun(steps) ==> StepsHaveRun(all)
    {
      var step;
      ghost var more;
      ghost var r0 := r;
      step, r, more := ParseStep(node.content[i], field + "[" + Decimal(i) + "]", r);
      AddAllConcat(diags, raised, more);
      raised := raised + more;
      all := all + [step];
      assert node.content[..i + 1] == node.content[..i] + [node.content[i]];
    }
    assert node.content[..|node.content|] == node.content;
  }

  lemma ChildrenWellFormed(node: Node)
    requires WellFormed(node)
    ensures forall i | 0 <= i < |node.content| :: WellFormed(node.content[i])
    ensures node.kind.MappingNode? ==> |node.content| % 2 == 0
    ensures node.kind.MappingNode? || node.kind.SequenceNode? ==> node.value == ""
  {
    forall i | 0 <= i < |node.content| ensures WellFormed(node.content[i]) { assert node.content[i] in node.content; }
  }

  /** The switch of ParseJob's loop. */
  method ParseJobField(job: ParsedJob, key: Node, val: Node, field: string, ghost diags: seq<Diagnostic>,
                       current: seq<Diagnostic>, ghost before: seq<Diagnostic>)
    returns (j: ParsedJob, r: seq<Diagnostic>, ghost raised: seq<Diagnostic>)
    requires Bounded(diags) && current == AddAll(diags, before)
    requires JobInv(job) && WellFormed(val)
    ensures r == AddAll(diags, raised) && before <= raised
    ensures raised == [] <==> before == [] && JobPairSound(key, val)
    ensures JobInv(j) && j == WithJobField(job, key, val, field)
    ensures raised == [] && StepsHaveRun(job.steps) ==>
              StepsHaveRun(j.steps) && (if key.value == "steps" then j.steps != [] else j.steps == job.steps)
  {
    hide AddAll, AddDiagnostic, ContainsExpression, WellFormed, StringOf, NeedsOf, EnvOf, StepsOf, TimeoutOf,
      RetriesOf, StringSound, NeedsSound, MinutesOk, RetriesOk, EnvSound, StepsSound;
    ChildrenWellFormed(val);
    j, r, raised := job, current, before;
    ghost var more := [];
    if key.value == "name" {
      var v;
      v, r, more := ParseJobsString(val, field + ".name", r);
      j := j.(name := v);
    } else if key.value == "needs" {
      var v;
      v, r, more := ParseNeeds(val, field + ".needs", r);
      j := j.(needsKey := Some(key), needs := v);
    } else if key.value == "timeout-minutes" {
      var v;
      v, r, more := ParseTimeoutMinutes(val, field + ".timeout-minutes", j.timeout, r);
      j := j.(timeout := v);
    } else if key.value == "retries" {
      var v;
      v, r, more := ParseRetries(val, field + ".retries", r);
      j := j.(retries := v);
    } else if key.value == "env" {
      var v;
      v, r, more := ParseJobsEnv(val, field + ".env", r);
      j := j.(env := v);
    } else if key.value == "environment" {
      var v;
      v, r, more := ParseJobsString(val, field + ".environment", r);
      j := j.(environ := v);
    } else if key.value == "working-directory" {
      var v;
      v, r, more := ParseJobsString(val, field + ".working-directory", r);
      j := j.(workingDir := v);
    } else if key.value == "steps" {
      var v;
      v, r, more := ParseSteps(j.steps, val, field + ".steps", r);
      j := j.(steps := v);
    }
    AddAllConcat(diags, before, more);
    raised := before + more;
    if more == [] { NothingAdded(current); }
  }

  /** The job a worker can run: at least one step, and every step has a command. */
  predicate Runnable(job: ParsedJob) {
    job.steps != [] && StepsHaveRun(job.steps)
  }

  /**
   Parses one job: silent exactly on a sound one, which is runnable. Below the
   cap ok says so; once the cap is reached ok says nothing.
   */
  method ParseJob(idNode: Node, node: Node, diags: seq<Diagnostic>)
    returns (job: ParsedJob, r: seq<Diagnostic>, ghost raised: seq<Diagnostic>)
    requires Bounded(diags) && JobIdMatches(idNode.value) && WellFormed(node)
    ensures r == AddAll(diags, raised)
    ensures raised == [] <==> JobSound(node)
    ensures JobInv(job) && job.(ok := false) == JobOf(idNode, node)
    ensures |diags| < DIAGNOSTICS_MAX ==> (job.ok <==> raised == [])
    ensures raised == [] ==> Runnable(job)
  {
    hide AddAll, AddDiagnostic, IsUnsupported, WellFormed, JobIdMatches, WithJobField, JobPairSound, LevelKeysOk, Pairs;
    var field := "jobs." + idNode.value;
    job := EmptyJob(idNode);
    if !node.kind.MappingNode? {
      var d := DiagAt(node, field, Other("must be a mapping"));
      AddOne(diags, d);
      return job, AddDiagnostic(diags, d), [d];
    }
    var before := |diags|;
    ChildrenWellFormed(node);
    AllowedKeysSupported();
    r, raised := JobsLevelKeys(node, JOB_ALLOWED, field, diags);
    ghost var keysOk := LevelKeysOk(node.content, JOB_ALLOWED);
    NoPairs(node.content, JobPairSound);
    var i := 0;
    while i + 1 < |node.content|
      invariant i % 2 == 0 && i <= |node.content|
      invariant r == AddAll(diags, raised)
      invariant raised == [] <==> keysOk && Pairs(node.content, i, JobPairSound)
      invariant JobInv(job) && job == JobUpTo(idNode, node.content, i)
      invariant raised == [] ==>
                  StepsHaveRun(job.steps) && (HasKeyBefore(node.content, i, "steps") ==> job.steps != [])
    {
      job, r, raised := ParseJobField(job, node.content[i], node.content[i + 1], field, diags, r, raised);
      OneMorePair(node.content, i, "steps");
      PairsNext(node.content, i, JobPairSound);
      i := i + 2;
    }
    MappingKeyFinds(node.content, "steps");
    if MappingKey(node.content, "steps").None? {
      var d := DiagAt(idNode, field, Other("job has no steps"));
      AddAllOne(diags, raised, d);
      r, raised := AddDiagnostic(r, d), raised + [d];
    }
    LengthTellsBelowCap(diags, raised);
    job := job.(ok := |r| == before);
  }

  // ---------------------------------------------------------------- the document

  /** In a screened mapping a named key occurs once: the duplicate-id panic has no input that reaches it. */
  lemma KeyOnce(node: Node, i: nat)
    requires WellFormed(node) && Clean(node) && node.kind.MappingNode?
    requires i % 2 == 0 && i + 1 < |node.content| && node.content[i].value != ""
    ensures !HasKeyBefore(node.content, i, node.content[i].value)
  {
    assert node.content[i] in node.content;
    assert Clean(node.content[i]) && WellFormed(node.content[i]);
    assert node.content[i].kind.ScalarNode?;
    assert !RepeatsKey(node.content, i);
  }

  /** What each job's ok flag is worth: raisedBy records the problems of every job's own parse. */
  ghost predicate FlagsHonest(jobs: map<string, ParsedJob>, raisedBy: map<string, seq<Diagnostic>>) {
    && raisedBy.Keys == jobs.Keys
    && forall id | id in jobs :: (jobs[id].ok <==> raisedBy[id] == []) && (jobs[id].ok ==> Runnable(jobs[id]))
  }

  /** Every job's own problems are among the problems raised for the document. */
  ghost predicate RaisedWithin(raisedBy: map<string, seq<Diagnostic>>, raised: seq<Diagnostic>) {
    forall id, d | id in raisedBy && d in raisedBy[id] :: d in raised
  }

  /** The recorded problems are each job's own: a job has none exactly when its node is sound. */
  ghost predicate Judged(raisedBy: map<string, seq<Diagnostic>>, content: seq<Node>, n: nat)
    requires n <= |content|
  {
    forall id | id in raisedBy :: raisedBy[id] == [] <==> SoundAt(content, n, id)
  }

  /** The same of the jobs among the document's first n nodes. */
  ghost predicate JobsJudged(raisedBy: map<string, seq<Diagnostic>>, content: seq<Node>, n: nat)
    requires n <= |content|
  {
    match Value(content, n, "jobs")
    case None => raisedBy == map[]
    case Some(v) => Judged(raisedBy, v.content, |v.content|)
  }

  lemma NoneJudged(content: seq<Node>)
    ensures Judged(map[], content, 0) && Judged(map[], content, |content|)
  {
  }

  lemma JudgedSkips(raisedBy: map<string, seq<Diagnostic>>, content: seq<Node>, i: nat)
    requires i + 1 < |content| && Judged(raisedBy, content, i) && content[i].value !in raisedBy
    ensures Judged(raisedBy, content, i + 2)
  {
    forall id | id in raisedBy ensures Value(content, i + 2, id) == Value(content, i, id) {}
  }

  lemma JudgedNext(raisedBy: map<string, seq<Diagnostic>>, content: seq<Node>, i: nat, raised: seq<Diagnostic>)
    requires i + 1 < |content| && Judged(raisedBy, content, i) && content[i].value !in raisedBy
    requires raised == [] <==> JobSound(content[i + 1])
    ensures Judged(raisedBy[content[i].value := raised], content, i + 2)
  {
    JudgedSkips(raisedBy, content, i);
  }

  lemma NoJobsJudged(content: seq<Node>)
    ensures JobsJudged(map[], content, 0)
  {
  }

  lemma JobsJudgedNext(raisedBy: map<string, seq<Diagnostic>>, content: seq<Node>, i: nat,
                       before: map<string, seq<Diagnostic>>)
    requires i + 1 < |content| && JobsJudged(before, content, i)
    requires if content[i].value == "jobs" then Judged(raisedBy, content[i + 1].content, |content[i + 1].content|)
             else raisedBy == before
    ensures JobsJudged(raisedBy, content, i + 2)
  {
    hide Judged;
  }

  method ParseJobsMap(p0: ParsedJobs, node: Node, diags: seq<Diagnostic>)
    returns (p: ParsedJobs, r: seq<Diagnostic>, ghost raised: seq<Diagnostic>,
             ghost raisedBy: map<string, seq<Diagnostic>>)
    requires Bounded(diags) && WellFormed(node) && Clean(node)
    requires JobsInv(p0) && p0.ids == [] && p0.jobs == map[]
    ensures r == AddAll(diags, raised)
    ensures raised == [] <==> JobsSound(node)
    ensures JobsInv(p) && p.env == p0.env && p.jobsKey == p0.jobsKey
    ensures SameJobs(p.jobs, JobsOf(node)) && p.ids == IdsOf(node)
    ensures |r| < DIAGNOSTICS_MAX ==> FlagsHonest(p.jobs, raisedBy)
    ensures RaisedWithin(raisedBy, raised) && Judged(raisedBy, node.content, |node.content|)
    ensures raised == [] ==> p.ids != []
  {
    hide AddAll, AddDiagnostic, WellFormed, Clean, JobIdMatches, JobInv, FlagsHonest, Runnable, JobOf, SameJobs,
      RaisedWithin, Pairs, JobSound, Judged, JobsInv, HasKeyBefore;
    p, r, raised, raisedBy := p0, diags, [], map[];
    NothingAdded(diags);
    NoFlags();
    NoJobsSaid();
    NoneJudged(node.content);
    if !node.kind.MappingNode? {
      var d := DiagAt(node, "jobs", Other("jobs must be a mapping of job id to job"));
      AddOne(diags, d);
      return p, AddDiagnostic(diags, d), [d], map[];
    }
    if |node.content| == 0 {
      var d := DiagAt(node, "jobs", Other("spec has no jobs"));
      AddOne(diags, d);
      return p, AddDiagnostic(diags, d), [d], map[];
    }
    ChildrenWellFormed(node);
    NoPairs(node.content, NamedJobSound);
    var i := 0;
    while i + 1 < |node.content|
      invariant i % 2 == 0 && i <= |node.content|
      invariant r == AddAll(diags, raised)
      invariant raised == [] <==> Pairs(node.content, i, NamedJobSound)
      invariant JobsInv(p) && p.env == p0.env && p.jobsKey == p0.jobsKey
      invariant SameJobs(p.jobs, JobsUpTo(node.content, i)) && p.ids == IdsUpTo(node.content, i)
      invariant forall id | id in p.jobs :: id != "" && HasKeyBefore(node.content, i, id)
      invariant |r| < DIAGNOSTICS_MAX ==> FlagsHonest(p.jobs, raisedBy)
      invariant RaisedWithin(raisedBy, raised)
      invariant raisedBy.Keys == p.jobs.Keys && Judged(raisedBy, node.content, i)
      invariant raised == [] ==> |p.ids| == i / 2
    {
      var idNode := node.content[i];
      assert idNode.value !in p.jobs by {
        if idNode.value != "" { KeyOnce(node, i); }
      }
      forall id | id in p.jobs ensures HasKeyBefore(node.content, i + 2, id) { OneMorePair(node.content, i, id); }
      OneMorePair(node.content, i, idNode.value);
      PairsNext(node.content, i, NamedJobSound);
      if !idNode.kind.ScalarNode? || !JobIdMatches(idNode.value) {
        var d := DiagAt(idNode, "jobs", Other("job id must match the pattern"));
        AddAllOne(diags, raised, d);
        LengthTellsBelowCap(r, [d]);
        AddOne(r, d);
        RaisedLater(raisedBy, raised, [d]);
        JudgedSkips(raisedBy, node.content, i);
        r, raised := AddDiagnostic(r, d), raised + [d];
      } else {
        var job;
        ghost var more;
        ghost var r0 := r;
        job, r, more := ParseJob(idNode, node.content[i + 1], r);
        AddAllConcat(diags, raised, more);
        LengthTellsBelowCap(r0, more);
        if |r| < DIAGNOSTICS_MAX { FlagAdded(p.jobs, raisedBy, idNode.value, job, more); }
        RaisedMore(raisedBy, raised, idNode.value, more);
        JudgedNext(raisedBy, node.content, i, more);
        raised := raised + more;
        raisedBy := raisedBy[idNode.value := more];
        JobIdNonEmpty(idNode.value);
        SameWith(p.jobs, JobsUpTo(node.content, i), idNode.value, job, JobOf(idNode, node.content[i + 1]));
        AddJob(p, idNode.value, job);
        p := p.(jobs := p.jobs[idNode.value := job], ids := p.ids + [idNode.value]);
      }
      i := i + 2;
    }
  }

  lemma NoJobsSaid()
    ensures SameJobs(map[], map[]) && forall raised :: RaisedWithin(map[], raised)
  {
  }

  lemma SameWith(a: map<string, ParsedJob>, b: map<string, ParsedJob>, id: string, job: ParsedJob, said: ParsedJob)
    requires SameJobs(a, b) && job.(ok := false) == said.(ok := false)
    ensures SameJobs(a[id := job], b[id := said])
  {
  }

  lemma RaisedLater(raisedBy: map<string, seq<Diagnostic>>, raised: seq<Diagnostic>, more: seq<Diagnostic>)
    requires RaisedWithin(raisedBy, raised)
    ensures RaisedWithin(raisedBy, raised + more)
  {
  }

  lemma RaisedWas(raisedBy: map<string, seq<Diagnostic>>, raised: seq<Diagnostic>, more: seq<Diagnostic>)
    requires RaisedWithin(raisedBy, more)
    ensures RaisedWithin(raisedBy, raised + more)
  {
  }

  lemma RaisedMore(raisedBy: map<string, seq<Diagnostic>>, raised: seq<Diagnostic>, id: string, more: seq<Diagnostic>)
    requires RaisedWithin(raisedBy, raised)
    ensures RaisedWithin(raisedBy[id := more], raised + more)
  {
  }

  lemma NoFlags()
    ensures FlagsHonest(map[], map[])
  {
  }

  lemma FlagAdded(jobs: map<string, ParsedJob>, raisedBy: map<string, seq<Diagnostic>>, id: string,
                  job: ParsedJob, raised: seq<Diagnostic>)
    requires FlagsHonest(jobs, raisedBy)
    requires (job.ok <==> raised == []) && (job.ok ==> Runnable(job))
    ensures FlagsHonest(jobs[id := job], raisedBy[id := raised])
  {
    hide Runnable;
  }

  lemma JobIdNonEmpty(id: string)
    requires JobIdMatches(id)
    ensures id != ""
  {
  }

  lemma AddJob(p: ParsedJobs, id: string, job: ParsedJob)
    requires JobsInv(p) && id !in p.jobs && JobIdMatches(id) && JobInv(job)
    ensures JobsInv(p.(jobs := p.jobs[id := job], ids := p.ids + [id]))
  {
  }

  /** The switch of ParseJobsSpec's loop. */
  method ParseTopField(p: ParsedJobs, key: Node, val: Node, onProblem: Option<Diagnostic>, diags: seq<Diagnostic>,
                       ghost before: map<string, seq<Diagnostic>>)
    returns (q: ParsedJobs, r: seq<Diagnostic>, ghost raised: seq<Diagnostic>,
             ghost raisedBy: map<string, seq<Diagnostic>>)
    requires Bounded(diags) && WellFormed(val) && Clean(val)
    requires JobsInv(p) && (key.value == "jobs" ==> p.ids == [] && p.jobs == map[])
    ensures r == AddAll(diags, raised)
    ensures raised == [] <==> TopPairSound(key, val, onProblem.None?)
    ensures JobsInv(q) && q.env == if key.value == "env" then EnvOf(val, "env") else p.env
    ensures if key.value == "jobs"
            then SameJobs(q.jobs, JobsOf(val)) && q.ids == IdsOf(val) && q.jobsKey == Some(key)
            else q == p.(env := q.env) && raisedBy == before
    ensures key.value == "jobs" ==>
              && (|r| < DIAGNOSTICS_MAX ==> FlagsHonest(q.jobs, raisedBy))
              && RaisedWithin(raisedBy, raised) && (raised == [] ==> q.ids != [])
              && Judged(raisedBy, val.content, |val.content|)
  {
    hide AddAll, AddDiagnostic, WellFormed, Clean, JobIdMatches, JobInv, ContainsExpression, EnvOf, JobsOf, IdsOf,
      SameJobs, RaisedWithin, FlagsHonest, EnvSound, StringSound, JobsSound, Judged;
    q, r, raised, raisedBy := p, diags, [], before;
    NothingAdded(diags);
    if key.value == "on" {
      if onProblem.Some? {
        AddOne(r, onProblem.value);
        r, raised := AddDiagnostic(r, onProblem.value), [onProblem.value];
      }
    } else if key.value == "env" {
      var env;
      ChildrenWellFormed(val);
      env, r, raised := ParseJobsEnv(val, "env", r);
      q := q.(env := env);
    } else if key.value == "name" {
      var name;
      name, r, raised := ParseJobsString(val, "name", r);
    } else if key.value == "jobs" {
      q := q.(jobsKey := Some(key));
      q, r, raised, raisedBy := ParseJobsMap(q, val, r);
    }
  }

  lemma NoKeyYet(content: seq<Node>, key: string)
    ensures !HasKeyBefore(content, 0, key)
  {
  }

  lemma NothingGathered(content: seq<Node>)
    ensures Gathered(ParsedJobs(EMPTY_ENV, map[], None, []), content, 0)
    ensures JobsInv(ParsedJobs(EMPTY_ENV, map[], None, []))
  {
  }

  lemma GatheredNext(p: ParsedJobs, q: ParsedJobs, content: seq<Node>, i: nat)
    requires i + 1 < |content| && Gathered(p, content, i)
    requires var key, val := content[i], content[i + 1];
             && q.env == (if key.value == "env" then EnvOf(val, "env") else p.env)
             && if key.value == "jobs" then SameJobs(q.jobs, JobsOf(val)) && q.ids == IdsOf(val)
                else q.jobs == p.jobs && q.ids == p.ids
    ensures Gathered(q, content, i + 2)
  {
    hide EnvOf, JobsOf, IdsOf, SameJobs;
  }

  /**
   Parses the whole document, silent exactly when it is sound. onProblem is the
   problem parseOn raises for the `on:` value, if any.
   */
  method ParseJobsSpec(doc: Node, onProblem: Option<Diagnostic>)
    returns (p: ParsedJobs, r: seq<Diagnostic>, ghost raised: seq<Diagnostic>,
             ghost raisedBy: map<string, seq<Diagnostic>>)
    requires doc.kind.MappingNode? && WellFormed(doc) && Clean(doc)
    requires MappingKey(doc.content, "jobs").Some?
    ensures r == AddAll([], raised)
    ensures raised == [] <==> SpecSound(doc, onProblem.None?)
    ensures JobsInv(p) && p.jobsKey.Some? && SpecSays(p, doc.content, |doc.content|)
    ensures |r| < DIAGNOSTICS_MAX ==> FlagsHonest(p.jobs, raisedBy)
    ensures RaisedWithin(raisedBy, raised) && JobsJudged(raisedBy, doc.content, |doc.content|)
    ensures raised == [] ==> p.ids != []
  {
    hide AddAll, AddDiagnostic, IsUnsupported, WellFormed, Clean, JobIdMatches, JobInv, ContainsExpression, EnvOf,
      JobsOf, IdsOf, SameJobs, RaisedWithin, FlagsHonest, Pairs, LevelKeysOk, TopPairSound, Judged,
      JobsJudged, Gathered, JobsInv, SpecSays, HasKeyBefore;
    p, raisedBy := ParsedJobs(EMPTY_ENV, map[], None, []), map[];
    NoFlags();
    NoJobsSaid();
    ChildrenWellFormed(doc);
    AllowedKeysSupported();
    r, raised := JobsLevelKeys(doc, TOP_ALLOWED, "spec", []);
    ghost var keysOk, rule := LevelKeysOk(doc.content, TOP_ALLOWED), TopRule(onProblem.None?);
    NoPairs(doc.content, rule);
    NoJobsJudged(doc.content);
    NothingGathered(doc.content);
    NoKeyYet(doc.content, "jobs");
    var i := 0;
    while i + 1 < |doc.content|
      invariant i % 2 == 0 && i <= |doc.content|
      invariant r == AddAll([], raised)
      invariant raised == [] <==> keysOk && Pairs(doc.content, i, rule)
      invariant JobsInv(p) && Gathered(p, doc.content, i)
      invariant if HasKeyBefore(doc.content, i, "jobs") then p.jobsKey.Some? && (raised == [] ==> p.ids != [])
                else p.jobs == map[] && p.ids == []
      invariant |r| < DIAGNOSTICS_MAX ==> FlagsHonest(p.jobs, raisedBy)
      invariant RaisedWithin(raisedBy, raised) && JobsJudged(raisedBy, doc.content, i)
    {
      var key, val := doc.content[i], doc.content[i + 1];
      ghost var more;
      ghost var p0, r0, judged := p, r, raisedBy;
      ChildClean(doc, i + 1);
      OneMorePair(doc.content, i, "jobs");
      PairsNext(doc.content, i, rule);
      if key.value == "jobs" { KeyOnce(doc, i); }
      p, r, more, raisedBy := ParseTopField(p, key, val, onProblem, r, raisedBy);
      GatheredNext(p0, p, doc.content, i);
      JobsJudgedNext(raisedBy, doc.content, i, judged);
      if more == [] { NothingAdded(r0); }
      AddAllConcat([], raised, more);
      LengthTellsBelowCap(r0, more);
      if key.value != "jobs" { RaisedLater(raisedBy, raised, more); } else { RaisedWas(raisedBy, raised, more); }
      raised := raised + more;
      i := i + 2;
    }
    MappingKeyFinds(doc.content, "jobs");
    SortedIds(p, doc.content);
    var ids := SortStrings(p.ids);
    p := p.(ids := ids);
  }

  /** Sorting the ids is all that is left to do. */
  lemma SortedIds(p: ParsedJobs, content: seq<Node>)
    requires JobsInv(p) && Gathered(p, content, |content|)
    ensures JobsInv(p.(ids := Sort(p.ids))) && SpecSays(p.(ids := Sort(p.ids)), content, |content|)
    ensures p.ids != [] <==> Sort(p.ids) != []
  {
    hide JobIdMatches, JobInv, NoDuplicates, Sorted, EnvAt, Value, JobsOf, IdsOf, SameJobs;
    SortKeeps(p.ids);
  }

  lemma ChildClean(node: Node, i: nat)
    requires Clean(node) && i < |node.content|
    ensures Clean(node.content[i])
  {
    assert node.content[i] in node.content;
  }
}
