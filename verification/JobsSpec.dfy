/**
 What a `jobs:` document says (ci/jobs.go): the values its parsers read from a
 node tree, and the trees they read without a problem.
 */
module JobsSpec {
  import opened Graphs
  import opened Dag
  import opened JobsGuard
  import opened StringOrder

  // Durations are nanoseconds, as in Go.
  const MINUTE := 60_000_000_000
  const JOB_TIMEOUT_MINUTES_MAX := 360
  const DEFAULT_CHECK_TIMEOUT := 15 * MINUTE
  const RETRY_ATTEMPT_COUNT_MAX := 100_000

  const UNSUPPORTED_KEYS: set<string> := {
    "uses", "if", "strategy", "matrix", "container", "services", "runs-on", "outputs", "permissions",
    "concurrency", "defaults", "shell", "continue-on-error"
  }
  const TOP_ALLOWED: set<string> := {"on", "env", "jobs", "name"}
  const JOB_ALLOWED: set<string> := {
    "name", "needs", "timeout-minutes", "retries", "env", "environment", "working-directory", "steps"
  }
  const STEP_ALLOWED: set<string> := {"name", "run", "env", "working-directory"}

  predicate IsUnsupported(key: string) {
    key in UNSUPPORTED_KEYS
  }

  lemma AllowedKeysSupported()
    ensures forall k | k in TOP_ALLOWED :: !IsUnsupported(k)
    ensures forall k | k in JOB_ALLOWED :: !IsUnsupported(k)
    ensures forall k | k in STEP_ALLOWED :: !IsUnsupported(k)
  {
  }

  // ---------------------------------------------------------------- patterns

  predicate IsLetterOrUnderscore(c: char) {
    'a' <= c <= 'z' || 'A' <= c <= 'Z' || c == '_'
  }

  predicate IsDigit(c: char) {
    '0' <= c <= '9'
  }

  predicate EnvKeyMatches(s: string) {
    |s| > 0 && IsLetterOrUnderscore(s[0]) && forall c | c in s :: IsLetterOrUnderscore(c) || IsDigit(c)
  }

  predicate JobIdMatches(s: string) {
    |s| > 0 && IsLetterOrUnderscore(s[0]) && forall c | c in s :: IsLetterOrUnderscore(c) || IsDigit(c) || c == '-'
  }

  predicate ContainsExpression(s: string) {
    |s| >= 3 && (s[..3] == "${{" || ContainsExpression(s[1..]))
  }

  predicate IsSpace(c: char) {
    c == ' ' || c == '\t' || c == '\n' || c == '\r' || c == '\U{000C}'
  }

  function Trim(s: string): string {
    if s == [] then s
    else if IsSpace(s[0]) then Trim(s[1..])
    else if IsSpace(s[|s| - 1]) then Trim(s[..|s| - 1])
    else s
  }

  /** The NAME of a value that is entirely a secrets expression. */
  function SecretRef(s: string): Option<string> {
    if |s| < 5 || s[..3] != "${{" || s[|s| - 2..] != "}}" then None
    else
      var inner := Trim(s[3..|s| - 2]);
      if |inner| > 8 && inner[..8] == "secrets." && EnvKeyMatches(inner[8..]) then Some(inner[8..]) else None
  }

  predicate OpensAt(s: string, i: nat) {
    i + 3 <= |s| && s[i..i + 3] == "${{"
  }

  /** A text contains an expression exactly when the opening marker occurs in it. */
  lemma {:induction false} ContainsExpressionIff(s: string)
    ensures ContainsExpression(s) <==> exists i: nat :: OpensAt(s, i)
  {
    if |s| >= 3 {
      ContainsExpressionIff(s[1..]);
      assert OpensAt(s, 0) <==> s[..3] == "${{" by { assert s[0..0 + 3] == s[..3]; }
      forall i: nat ensures OpensAt(s[1..], i) <==> OpensAt(s, i + 1) {
        if i + 4 <= |s| { assert s[1..][i..i + 3] == s[i + 1..i + 1 + 3]; }
      }
      if i: nat :| OpensAt(s, i) {
        if i > 0 { assert OpensAt(s[1..], i - 1); }
      }
    }
  }

  predicate Spaces(s: string) {
    forall c | c in s :: IsSpace(c)
  }

  /** A text is a secret's reference: the name, spaces around it, and the two markers. */
  predicate References(s: string, before: string, name: string, after: string) {
    Spaces(before) && Spaces(after) && EnvKeyMatches(name) && s == "${{" + before + "secrets." + name + after + "}}"
  }

  lemma {:induction false} Trimmed(s: string) returns (before: string, after: string)
    ensures Spaces(before) && Spaces(after) && s == before + Trim(s) + after
    decreases |s|
  {
    before, after := "", "";
    if s != [] {
      if IsSpace(s[0]) {
        before, after := Trimmed(s[1..]);
        assert s == [s[0]] + s[1..];
        before := [s[0]] + before;
      } else if IsSpace(s[|s| - 1]) {
        var rest := s[..|s| - 1];
        before, after := Trimmed(rest);
        assert s == rest + [s[|s| - 1]];
        after := after + [s[|s| - 1]];
        assert s == before + Trim(s) + after;
      } else {
        assert s == "" + s + "";
      }
    }
  }

  lemma {:induction false} TrimOf(before: string, core: string, after: string)
    requires Spaces(before) && Spaces(after) && core != [] && !IsSpace(core[0]) && !IsSpace(core[|core| - 1])
    ensures Trim(before + core + after) == core
    decreases |before| + |after|
  {
    var s := before + core + after;
    if before != [] {
      assert s[0] == before[0] && s[1..] == before[1..] + core + after;
      TrimOf(before[1..], core, after);
    } else if after != [] {
      assert s[0] == core[0] && s[|s| - 1] == after[|after| - 1];
      assert s[..|s| - 1] == before + core + after[..|after| - 1];
      TrimOf(before, core, after[..|after| - 1]);
    } else {
      assert s == core;
    }
  }

  /** What a secret's reference is, and which secret it names. */
  lemma SecretRefIff(s: string, name: string)
    ensures SecretRef(s) == Some(name) <==> exists before, after :: References(s, before, name, after)
  {
    hide Trim;
    if SecretRef(s) == Some(name) {
      var inner := s[3..|s| - 2];
      var before, after := Trimmed(inner);
      var core := Trim(inner);
      assert core == "secrets." + name by { assert core == core[..8] + core[8..]; }
      assert s == s[..3] + inner + s[|s| - 2..];
      assert References(s, before, name, after);
    }
    if before, after :| References(s, before, name, after) { ReferenceNames(s, before, name, after); }
  }

  lemma ReferenceNames(s: string, before: string, name: string, after: string)
    requires References(s, before, name, after)
    ensures SecretRef(s) == Some(name)
  {
    hide Trim;
    var core := "secrets." + name;
    assert core[|core| - 1] == name[|name| - 1] && name[|name| - 1] in name;
    TrimOf(before, core, after);
    assert s == "${{" + (before + core + after) + "}}";
    assert s[3..|s| - 2] == before + core + after;
    assert core[..8] == "secrets." && core[8..] == name;
  }

  // ---------------------------------------------------------------- parsed values

  /** One env block: plain entries, and the keys bound to the secret of their own name. */
  datatype EnvValues = EnvValues(field: string, plain: map<string, string>, secretNames: set<string>,
                                 keyNodes: map<string, Node>)

  datatype ParsedStep = ParsedStep(name: string, run: string, workingDir: string, env: EnvValues)

  datatype ParsedJob = ParsedJob(
    idNode: Node,
    needsKey: Option<Node>,
    needs: seq<string>,
    name: string,
    timeout: int,
    retries: int,
    env: EnvValues,
    environ: string,
    workingDir: string,
    steps: seq<ParsedStep>,
    ok: bool)

  datatype ParsedJobs = ParsedJobs(env: EnvValues, jobs: map<string, ParsedJob>, jobsKey: Option<Node>,
                                   ids: seq<string>)

  const EMPTY_ENV := EnvValues("", map[], {}, map[])

  predicate EnvInv(env: EnvValues) {
    env.plain.Keys <= env.keyNodes.Keys
  }

  predicate JobInv(job: ParsedJob) {
    && NoDuplicates(job.needs)
    && (job.needs != [] ==> job.needsKey.Some?)
    && 0 < job.timeout <= JOB_TIMEOUT_MINUTES_MAX * MINUTE
    && 0 <= job.retries <= RETRY_ATTEMPT_COUNT_MAX
    && EnvInv(job.env)
    && forall s | s in job.steps :: EnvInv(s.env)
  }

  ghost predicate JobsInv(p: ParsedJobs) {
    && NoDuplicates(p.ids)
    && (forall id :: id in p.ids <==> id in p.jobs)
    && (forall id | id in p.jobs :: JobIdMatches(id) && JobInv(p.jobs[id]))
    && EnvInv(p.env)
  }

  function MappingKey(content: seq<Node>, key: string): Option<Node> {
    if |content| < 2 then None
    else if content[0].value == key then Some(content[0])
    else MappingKey(content[2..], key)
  }

  // ---------------------------------------------------------------- what a document says

  function StringOf(node: Node): string {
    if node.kind.ScalarNode? && !ContainsExpression(node.value) then node.value else ""
  }

  /** The scalar entries of a list, each kept where it first occurs. */
  function NeedsUpTo(content: seq<Node>, n: nat): seq<string>
    requires n <= |content|
  {
    if n == 0 then []
    else
      var before := NeedsUpTo(content, n - 1);
      var item := content[n - 1];
      if item.kind.ScalarNode? && item.value !in before then before + [item.value] else before
  }

  function NeedsOf(node: Node): seq<string> {
    if node.kind.ScalarNode? && node.tag != "!!null" then [node.value]
    else if node.kind.SequenceNode? then NeedsUpTo(node.content, |node.content|)
    else []
  }

  predicate MinutesOk(node: Node) {
    && node.kind.ScalarNode? && node.tag == "!!int" && node.decoded.Int?
    && 1 <= node.decoded.value <= JOB_TIMEOUT_MINUTES_MAX
  }

  function TimeoutOf(node: Node, fallback: int): int {
    if MinutesOk(node) then node.decoded.value * MINUTE else fallback
  }

  predicate RetriesOk(node: Node) {
    && node.kind.ScalarNode? && node.tag == "!!int" && node.decoded.Int?
    && 0 <= node.decoded.value <= RETRY_ATTEMPT_COUNT_MAX
  }

  function RetriesOf(node: Node): int {
    if RetriesOk(node) then node.decoded.value else 0
  }

  /** What an env entry contributes: an error, a plain value, or its own secret. */
  predicate EntryOk(key: Node, val: Node) {
    && !ContainsExpression(key.value)
    && key.kind.ScalarNode? && EnvKeyMatches(key.value)
    && val.kind.ScalarNode?
    && (match SecretRef(val.value)
        case None => !ContainsExpression(val.value)
        case Some(name) => name == key.value)
  }

  lemma NoExpressionInKey(s: string)
    requires EnvKeyMatches(s)
    ensures !ContainsExpression(s)
  {
    ContainsExpressionIff(s);
    forall i: nat ensures !OpensAt(s, i) {
      if i + 3 <= |s| { assert s[i..i + 3][0] == s[i] && s[i] in s; }
    }
  }

  /** An entry is accepted when its key names a variable and its value is a plain text or its own secret. */
  lemma EntryOkIff(key: Node, val: Node)
    ensures EntryOk(key, val) <==>
            && key.kind.ScalarNode? && EnvKeyMatches(key.value) && val.kind.ScalarNode?
            && (|| !ContainsExpression(val.value)
                || exists before, after :: References(val.value, before, key.value, after))
  {
    hide ContainsExpression, References, EnvKeyMatches;
    SecretRefIff(val.value, key.value);
    if EnvKeyMatches(key.value) { NoExpressionInKey(key.value); }
    ReferenceIsExpression(val.value);
  }

  lemma ReferenceIsExpression(s: string)
    ensures SecretRef(s).Some? ==> ContainsExpression(s)
  {
  }

  predicate EntryNamed(key: Node, val: Node) {
    !ContainsExpression(key.value) && key.kind.ScalarNode? && EnvKeyMatches(key.value) && val.kind.ScalarNode?
  }

  predicate PlainEntry(key: Node, val: Node) {
    EntryOk(key, val) && SecretRef(val.value).None?
  }

  predicate SecretEntry(key: Node, val: Node) {
    EntryOk(key, val) && SecretRef(val.value).Some?
  }

  function WithEntry(env: EnvValues, key: Node, val: Node): EnvValues {
    env.(keyNodes := if EntryNamed(key, val) then env.keyNodes[key.value := key] else env.keyNodes,
         plain := if PlainEntry(key, val) then env.plain[key.value := val.value] else env.plain,
         secretNames := if SecretEntry(key, val) then env.secretNames + {key.value} else env.secretNames)
  }

  function EnvUpTo(content: seq<Node>, n: nat, field: string): EnvValues
    requires n <= |content|
  {
    if n < 2 then EMPTY_ENV.(field := field)
    else WithEntry(EnvUpTo(content, n - 2, field), content[n - 2], content[n - 1])
  }

  function EnvOf(node: Node, field: string): EnvValues {
    if node.kind.MappingNode? then EnvUpTo(node.content, |node.content|, field) else EMPTY_ENV.(field := field)
  }

  function WithStepField(step: ParsedStep, key: Node, val: Node, field: string): ParsedStep {
    if key.value == "name" then step.(name := StringOf(val))
    else if key.value == "run" then step.(run := StringOf(val))
    else if key.value == "working-directory" then step.(workingDir := StringOf(val))
    else if key.value == "env" then step.(env := EnvOf(val, field + ".env"))
    else step
  }

  const EMPTY_STEP := ParsedStep("", "", "", EMPTY_ENV)

  function StepUpTo(content: seq<Node>, n: nat, field: string): ParsedStep
    requires n <= |content|
  {
    if n < 2 then EMPTY_STEP
    else WithStepField(StepUpTo(content, n - 2, field), content[n - 2], content[n - 1], field)
  }

  function StepOf(node: Node, field: string): ParsedStep {
    if node.kind.MappingNode? then StepUpTo(node.content, |node.content|, field) else EMPTY_STEP
  }

  function Digit(d: nat): char
    requires d < 10
  {
    "0123456789"[d]
  }

  function Decimal(n: nat): string {
    if n < 10 then [Digit(n)] else Decimal(n / 10) + [Digit(n % 10)]
  }

  function StepsUpTo(content: seq<Node>, n: nat, field: string): seq<ParsedStep>
    requires n <= |content|
  {
    if n == 0 then []
    else StepsUpTo(content, n - 1, field) + [StepOf(content[n - 1], field + "[" + Decimal(n - 1) + "]")]
  }

  function StepsOf(node: Node, field: string): seq<ParsedStep> {
    if node.kind.SequenceNode? then StepsUpTo(node.content, |node.content|, field) else []
  }

  function WithJobField(job: ParsedJob, key: Node, val: Node, field: string): ParsedJob {
    if key.value == "name" then job.(name := StringOf(val))
    else if key.value == "needs" then job.(needsKey := Some(key), needs := NeedsOf(val))
    else if key.value == "timeout-minutes" then job.(timeout := TimeoutOf(val, job.timeout))
    else if key.value == "retries" then job.(retries := RetriesOf(val))
    else if key.value == "env" then job.(env := EnvOf(val, field + ".env"))
    else if key.value == "environment" then job.(environ := StringOf(val))
    else if key.value == "working-directory" then job.(workingDir := StringOf(val))
    else if key.value == "steps" then job.(steps := job.steps + StepsOf(val, field + ".steps"))
    else job
  }

  function EmptyJob(idNode: Node): ParsedJob {
    ParsedJob(idNode, None, [], "", DEFAULT_CHECK_TIMEOUT, 0, EMPTY_ENV, "", "", [], false)
  }

  function JobUpTo(idNode: Node, content: seq<Node>, n: nat): (job: ParsedJob)
    requires n <= |content|
    ensures !job.ok && job.idNode == idNode
  {
    if n < 2 then EmptyJob(idNode)
    else WithJobField(JobUpTo(idNode, content, n - 2), content[n - 2], content[n - 1], "jobs." + idNode.value)
  }

  /** The job a mapping describes, whatever problems it also has; ok is left unset. */
  function JobOf(idNode: Node, node: Node): ParsedJob {
    if node.kind.MappingNode? then JobUpTo(idNode, node.content, |node.content|) else EmptyJob(idNode)
  }

  predicate JobIdOk(idNode: Node) {
    idNode.kind.ScalarNode? && JobIdMatches(idNode.value)
  }

  function IdsUpTo(content: seq<Node>, n: nat): seq<string>
    requires n <= |content|
  {
    if n < 2 then []
    else IdsUpTo(content, n - 2) + if JobIdOk(content[n - 2]) then [content[n - 2].value] else []
  }

  function JobsUpTo(content: seq<Node>, n: nat): map<string, ParsedJob>
    requires n <= |content|
  {
    if n < 2 then map[]
    else
      var before := JobsUpTo(content, n - 2);
      if JobIdOk(content[n - 2]) then before[content[n - 2].value := JobOf(content[n - 2], content[n - 1])] else before
  }

  function JobsOf(node: Node): map<string, ParsedJob> {
    if node.kind.MappingNode? then JobsUpTo(node.content, |node.content|) else map[]
  }

  function IdsOf(node: Node): seq<string> {
    if node.kind.MappingNode? then IdsUpTo(node.content, |node.content|) else []
  }

  /** Equal but for the ok flags. */
  ghost predicate SameJobs(a: map<string, ParsedJob>, b: map<string, ParsedJob>) {
    a.Keys == b.Keys && forall id | id in a :: a[id].(ok := false) == b[id].(ok := false)
  }

  /** The value of the last pair with this key among the first n nodes. */
  function Value(content: seq<Node>, n: nat, key: string): Option<Node>
    requires n <= |content|
  {
    if n < 2 then None else if content[n - 2].value == key then Some(content[n - 1]) else Value(content, n - 2, key)
  }

  function EnvAt(content: seq<Node>, n: nat, field: string): EnvValues
    requires n <= |content|
  {
    match Value(content, n, "env") case None => EMPTY_ENV case Some(v) => EnvOf(v, field)
  }

  /** What the loop over the document's keys has gathered from the first n nodes: env, jobs, and ids in their order. */
  ghost predicate Gathered(p: ParsedJobs, content: seq<Node>, n: nat)
    requires n <= |content|
  {
    && p.env == EnvAt(content, n, "env")
    && (match Value(content, n, "jobs")
        case None => p.jobs == map[] && p.ids == []
        case Some(v) => SameJobs(p.jobs, JobsOf(v)) && p.ids == IdsOf(v))
  }

  /** The parsed spec is what the document's env and jobs say, with the job ids sorted. */
  ghost predicate SpecSays(p: ParsedJobs, content: seq<Node>, n: nat)
    requires n <= |content|
  {
    && p.env == EnvAt(content, n, "env")
    && (match Value(content, n, "jobs")
        case None => p.jobs == map[] && p.ids == []
        case Some(v) => SameJobs(p.jobs, JobsOf(v)) && p.ids == Sort(IdsOf(v)))
  }

  function TextAt(content: seq<Node>, n: nat, key: string): string
    requires n <= |content|
  {
    match Value(content, n, key) case None => "" case Some(v) => StringOf(v)
  }

  /** Every text of a parsed job is read from the key that names it. */
  lemma {:induction false} JobTextsFromKeys(idNode: Node, content: seq<Node>, n: nat)
    requires n <= |content|
    ensures var job := JobUpTo(idNode, content, n);
            && job.name == TextAt(content, n, "name")
            && job.environ == TextAt(content, n, "environment")
            && job.workingDir == TextAt(content, n, "working-directory")
  {
    hide StringOf, NeedsOf, EnvOf, StepsOf, TimeoutOf, RetriesOf;
    if n >= 2 { JobTextsFromKeys(idNode, content, n - 2); }
  }

  /** So are its needs and retries. */
  lemma {:induction false} JobNeedsFromKeys(idNode: Node, content: seq<Node>, n: nat)
    requires n <= |content|
    ensures var job := JobUpTo(idNode, content, n);
            && job.needs == (match Value(content, n, "needs") case None => [] case Some(v) => NeedsOf(v))
            && job.retries == (match Value(content, n, "retries") case None => 0 case Some(v) => RetriesOf(v))
  {
    hide StringOf, NeedsOf, EnvOf, StepsOf, TimeoutOf, RetriesOf;
    if n >= 2 { JobNeedsFromKeys(idNode, content, n - 2); }
  }

  /** So is its env. */
  lemma {:induction false} JobEnvFromKey(idNode: Node, content: seq<Node>, n: nat)
    requires n <= |content|
    ensures JobUpTo(idNode, content, n).env == EnvAt(content, n, "jobs." + idNode.value + ".env")
  {
    hide StringOf, NeedsOf, EnvOf, StepsOf, TimeoutOf, RetriesOf;
    if n >= 2 { JobEnvFromKey(idNode, content, n - 2); }
  }

  /** The timeout is the default without its key, and the stated minutes with an acceptable one. */
  lemma {:induction false} JobTimeoutFromKey(idNode: Node, content: seq<Node>, n: nat)
    requires n <= |content|
    ensures match Value(content, n, "timeout-minutes")
            case None => JobUpTo(idNode, content, n).timeout == DEFAULT_CHECK_TIMEOUT
            case Some(v) => MinutesOk(v) ==> JobUpTo(idNode, content, n).timeout == v.decoded.value * MINUTE
  {
    hide StringOf, NeedsOf, EnvOf, StepsOf, RetriesOf, MinutesOk;
    if n >= 2 { JobTimeoutFromKey(idNode, content, n - 2); }
  }

  lemma StepsOfPair(idNode: Node, content: seq<Node>, n: nat)
    requires 2 <= n <= |content|
    ensures JobUpTo(idNode, content, n).steps == JobUpTo(idNode, content, n - 2).steps +
            if content[n - 2].value == "steps" then StepsOf(content[n - 1], "jobs." + idNode.value + ".steps") else []
  {
    hide StringOf, NeedsOf, EnvOf, StepsOf, TimeoutOf, RetriesOf;
  }

  /** A steps key that occurs once gives all the job's steps, in order. */
  lemma {:induction false} JobStepsFromKey(idNode: Node, content: seq<Node>, n: nat)
    requires n <= |content|
    requires forall i, j | 0 <= i < j < n && i % 2 == n % 2 == j % 2 && content[i].value == "steps" ::
               content[j].value != "steps"
    ensures JobUpTo(idNode, content, n).steps ==
            match Value(content, n, "steps") case None => [] case Some(v) =>
              StepsOf(v, "jobs." + idNode.value + ".steps")
  {
    hide JobUpTo, StepsOf;
    if n < 2 {
      NoStepsYet(idNode, content, n);
    } else {
      JobStepsFromKey(idNode, content, n - 2);
      StepsOfPair(idNode, content, n);
      if content[n - 2].value == "steps" { NoValue(content, n - 2, "steps"); }
    }
  }

  lemma NoStepsYet(idNode: Node, content: seq<Node>, n: nat)
    requires n <= |content| && n < 2
    ensures JobUpTo(idNode, content, n).steps == []
  {
  }

  lemma {:induction false} NoValue(content: seq<Node>, n: nat, key: string)
    requires n <= |content| && forall i | 0 <= i < n && i % 2 == n % 2 :: content[i].value != key
    ensures Value(content, n, key).None?
  {
    if n >= 2 { NoValue(content, n - 2, key); }
  }

  // ---------------------------------------------------------------- what env and steps say

  /** The pair at i enters k as a plain value. */
  predicate PlainAt(content: seq<Node>, i: nat, k: string) {
    i + 1 < |content| && content[i].value == k && PlainEntry(content[i], content[i + 1])
  }

  predicate SecretAt(content: seq<Node>, i: nat, k: string) {
    i + 1 < |content| && content[i].value == k && SecretEntry(content[i], content[i + 1])
  }

  /** The last of the first n nodes' pairs to enter k as a plain value is the one at i. */
  ghost predicate LastPlain(content: seq<Node>, n: nat, i: nat, k: string) {
    i < n && i % 2 == 0 && PlainAt(content, i, k) && forall j | i < j < n && j % 2 == 0 :: !PlainAt(content, j, k)
  }

  lemma PlainPair(content: seq<Node>, i: nat, k: string)
    requires i + 1 < |content|
    ensures PlainAt(content, i, k) <==> content[i].value == k && PlainEntry(content[i], content[i + 1])
  {
    hide PlainEntry;
  }

  lemma {:induction false} PlainFrom(content: seq<Node>, n: nat, field: string, k: string) returns (i: nat)
    requires n <= |content| && n % 2 == 0 && k in EnvUpTo(content, n, field).plain
    ensures LastPlain(content, n, i, k) && content[i + 1].value == EnvUpTo(content, n, field).plain[k]
  {
    hide PlainAt, PlainEntry;
    PlainPair(content, n - 2, k);
    if PlainAt(content, n - 2, k) {
      i := n - 2;
    } else {
      i := PlainFrom(content, n - 2, field, k);
      assert forall j | i < j < n && j % 2 == 0 :: j < n - 2 || j == n - 2;
    }
  }

  lemma {:induction false} PlainOf(content: seq<Node>, n: nat, field: string, k: string, i: nat)
    requires n <= |content| && n % 2 == 0 && LastPlain(content, n, i, k)
    ensures k in EnvUpTo(content, n, field).plain && EnvUpTo(content, n, field).plain[k] == content[i + 1].value
  {
    hide PlainAt, PlainEntry;
    PlainPair(content, n - 2, k);
    if i == n - 2 {
    } else {
      assert i < n - 2 && !PlainAt(content, n - 2, k);
      PlainOf(content, n - 2, field, k, i);
    }
  }

  /** A variable has a plain value exactly when some accepted entry gives it one, and then the last such entry's. */
  lemma EnvPlainIff(content: seq<Node>, n: nat, field: string, k: string, v: string)
    requires n <= |content| && n % 2 == 0
    ensures var plain := EnvUpTo(content, n, field).plain;
            (k in plain && plain[k] == v) <==> exists i :: LastPlain(content, n, i, k) && content[i + 1].value == v
  {
    hide PlainAt, EnvUpTo;
    if k in EnvUpTo(content, n, field).plain {
      var i := PlainFrom(content, n, field, k);
    }
    forall i: nat | LastPlain(content, n, i, k)
      ensures k in EnvUpTo(content, n, field).plain && EnvUpTo(content, n, field).plain[k] == content[i + 1].value
    {
      PlainOf(content, n, field, k, i);
    }
  }

  /** A variable is a secret exactly when some accepted entry binds it to the secret of its own name. */
  lemma {:induction false} EnvSecretIff(content: seq<Node>, n: nat, field: string, k: string)
    requires n <= |content| && n % 2 == 0
    ensures k in EnvUpTo(content, n, field).secretNames <==>
            exists i :: 0 <= i < n && i % 2 == 0 && SecretAt(content, i, k)
    ensures forall i: nat | SecretAt(content, i, k) :: SecretRef(content[i + 1].value) == Some(k)
  {
    hide SecretRef, ContainsExpression;
    if n >= 2 {
      EnvSecretIff(content, n - 2, field, k);
      if i :| 0 <= i < n && i % 2 == 0 && SecretAt(content, i, k) { assert i < n - 2 || i == n - 2; }
      if SecretAt(content, n - 2, k) { assert (n - 2) % 2 == 0; }
    }
  }

  /** In a block without repeated keys no variable is both plain and secret. */
  lemma FiledOnce(content: seq<Node>, field: string)
    requires |content| % 2 == 0
    ensures var env := EnvUpTo(content, |content|, field);
            KeysDistinct(content) ==> env.plain.Keys !! env.secretNames
  {
    hide EnvUpTo, SecretRef, ContainsExpression, EnvKeyMatches, KeysDistinct;
    var env := EnvUpTo(content, |content|, field);
    if k :| k in env.plain.Keys && k in env.secretNames {
      var i := PlainFrom(content, |content|, field, k);
      EnvSecretIff(content, |content|, field, k);
      var j :| 0 <= j < |content| && j % 2 == 0 && SecretAt(content, j, k);
      assert i != j;
      TwoKeys(content, if i < j then i else j, if i < j then j else i);
    }
  }

  lemma TwoKeys(content: seq<Node>, i: nat, j: nat)
    requires i < j < |content| - 1 && i % 2 == 0 && j % 2 == 0
    requires content[j].kind.ScalarNode? && content[i].value == content[j].value
    ensures !KeysDistinct(content)
  {
    assert RepeatsKey(content, j);
  }

  /** Needs are the scalar entries of their list, each once. */
  lemma {:induction false} NeedsMembers(content: seq<Node>, n: nat)
    requires n <= |content|
    ensures NoDuplicates(NeedsUpTo(content, n))
    ensures forall v :: v in NeedsUpTo(content, n) <==>
                        exists item :: item in content[..n] && item.kind.ScalarNode? && item.value == v
    ensures content[..|content|] == content
  {
    if n > 0 {
      NeedsMembers(content, n - 1);
      assert content[..n] == content[..n - 1] + [content[n - 1]];
    }
  }

  /** Every field of a parsed step is read from the key that names it. */
  lemma {:induction false} StepFromKeys(content: seq<Node>, n: nat, field: string)
    requires n <= |content|
    ensures var step := StepUpTo(content, n, field);
            && step.name == TextAt(content, n, "name")
            && step.run == TextAt(content, n, "run")
            && step.workingDir == TextAt(content, n, "working-directory")
            && step.env == EnvAt(content, n, field + ".env")
  {
    hide StringOf, EnvOf;
    if n >= 2 { StepFromKeys(content, n - 2, field); }
  }

  /** A list of steps gives one step for each entry, in order. */
  lemma {:induction false} StepsInOrder(content: seq<Node>, n: nat, field: string)
    requires n <= |content|
    ensures |StepsUpTo(content, n, field)| == n
    ensures forall i | 0 <= i < n ::
              StepsUpTo(content, n, field)[i] == StepOf(content[i], field + "[" + Decimal(i) + "]")
  {
    hide StepOf, Decimal;
    if n > 0 { StepsInOrder(content, n - 1, field); }
  }

  predicate JobPair(content: seq<Node>, i: nat, id: string) {
    i + 1 < |content| && content[i].kind.ScalarNode? && content[i].value == id && JobIdMatches(id)
  }

  /** The last of the first n nodes' pairs that gives this job is the one at i. */
  ghost predicate LastJobPair(content: seq<Node>, n: nat, i: nat, id: string) {
    i < n && i % 2 == 0 && JobPair(content, i, id) && forall j | i < j < n && j % 2 == 0 :: !JobPair(content, j, id)
  }

  lemma JobPairNext(content: seq<Node>, n: nat, id: string)
    requires 2 <= n <= |content|
    ensures var last := JobPair(content, n - 2, id);
            && (id in JobsUpTo(content, n) <==> id in JobsUpTo(content, n - 2) || last)
            && (id in IdsUpTo(content, n) <==> id in IdsUpTo(content, n - 2) || last)
            && (id in JobsUpTo(content, n) ==>
                  JobsUpTo(content, n)[id] == if last then JobOf(content[n - 2], content[n - 1])
                                              else JobsUpTo(content, n - 2)[id])
  {
    hide JobOf, JobIdMatches;
  }

  lemma LastJobPairNext(content: seq<Node>, n: nat, i: nat, id: string)
    requires 2 <= n <= |content| && n % 2 == 0 && LastJobPair(content, n, i, id)
    ensures i == n - 2 || (LastJobPair(content, n - 2, i, id) && !JobPair(content, n - 2, id))
  {
    hide JobPair;
  }

  /** The job of an ID is the one of the last pair whose key is that ID and a valid one. */
  lemma {:induction false} JobsFromPairs(content: seq<Node>, n: nat, id: string)
    requires n <= |content| && n % 2 == 0
    ensures id in JobsUpTo(content, n) <==> exists i: nat :: i < n && i % 2 == 0 && JobPair(content, i, id)
    ensures id in IdsUpTo(content, n) <==> id in JobsUpTo(content, n)
    ensures forall i: nat | LastJobPair(content, n, i, id) ::
              && i + 1 < |content| && id in JobsUpTo(content, n)
              && JobsUpTo(content, n)[id] == JobOf(content[i], content[i + 1])
  {
    if n >= 2 {
      hide JobOf, JobPair, JobsUpTo, IdsUpTo, LastJobPair;
      JobsFromPairs(content, n - 2, id);
      JobPairNext(content, n, id);
      if i: nat :| i < n && i % 2 == 0 && JobPair(content, i, id) { assert i < n - 2 || i == n - 2; }
      if JobPair(content, n - 2, id) { assert (n - 2) % 2 == 0; }
      forall i: nat | LastJobPair(content, n, i, id)
        ensures i + 1 < |content| && id in JobsUpTo(content, n)
        ensures JobsUpTo(content, n)[id] == JobOf(content[i], content[i + 1])
      {
        LastJobPairNext(content, n, i, id);
        LastIsPair(content, n, i, id);
      }
    }
  }

  lemma LastIsPair(content: seq<Node>, n: nat, i: nat, id: string)
    requires LastJobPair(content, n, i, id)
    ensures i + 1 < |content| && JobPair(content, i, id)
  {
  }

  // ---------------------------------------------------------------- what raises no problem

  predicate LevelKeyOk(key: Node, allowed: set<string>) {
    key.tag != "!!merge" && key.value in allowed
  }

  ghost predicate HasKeyBefore(content: seq<Node>, i: nat, key: string) {
    exists j :: 0 <= j < i && j + 1 < |content| && j % 2 == 0 && content[j].value == key
  }

  ghost predicate LevelKeysOk(content: seq<Node>, allowed: set<string>) {
    forall i | 0 <= i < |content| && i % 2 == 0 :: LevelKeyOk(content[i], allowed)
  }

  /** Every pair among the first n nodes is as the rule says. */
  ghost predicate Pairs(content: seq<Node>, n: nat, rule: (Node, Node) -> bool) {
    forall i | 0 <= i < n && i % 2 == 0 && i + 1 < |content| :: rule(content[i], content[i + 1])
  }

  lemma PairsNext(content: seq<Node>, i: nat, rule: (Node, Node) -> bool)
    requires i % 2 == 0 && i + 1 < |content|
    ensures Pairs(content, i + 2, rule) <==> Pairs(content, i, rule) && rule(content[i], content[i + 1])
  {
    assert forall j | 0 <= j < i + 2 && j % 2 == 0 :: j < i || j == i;
  }

  lemma NoPairs(content: seq<Node>, rule: (Node, Node) -> bool)
    ensures Pairs(content, 0, rule)
  {
  }

  predicate StringSound(node: Node) {
    node.kind.ScalarNode? && !ContainsExpression(node.value)
  }

  ghost predicate EnvSound(node: Node) {
    || (node.kind.ScalarNode? && node.tag == "!!null")
    || (node.kind.MappingNode? && Pairs(node.content, |node.content|, EntryOk))
  }

  ghost predicate NeedsSound(node: Node) {
    || (node.kind.ScalarNode? && node.tag != "!!null")
    || (node.kind.SequenceNode? && forall item | item in node.content :: item.kind.ScalarNode?)
  }

  ghost predicate StepPairSound(key: Node, val: Node) {
    && (key.value in {"name", "working-directory"} ==> StringSound(val))
    && (key.value == "run" ==> StringSound(val) && val.value != "")
    && (key.value == "env" ==> EnvSound(val))
  }

  /** A mapping of known keys, each with a value of its kind, among them a command to run. */
  ghost predicate StepSound(node: Node) {
    && node.kind.MappingNode? && LevelKeysOk(node.content, STEP_ALLOWED)
    && Pairs(node.content, |node.content|, StepPairSound)
    && HasKeyBefore(node.content, |node.content|, "run")
  }

  ghost predicate StepsSound(node: Node) {
    node.kind.SequenceNode? && node.content != [] && forall item | item in node.content :: StepSound(item)
  }

  ghost predicate JobPairSound(key: Node, val: Node) {
    && (key.value in {"name", "environment", "working-directory"} ==> StringSound(val))
    && (key.value == "needs" ==> NeedsSound(val))
    && (key.value == "timeout-minutes" ==> MinutesOk(val))
    && (key.value == "retries" ==> RetriesOk(val))
    && (key.value == "env" ==> EnvSound(val))
    && (key.value == "steps" ==> StepsSound(val))
  }

  ghost predicate JobSound(node: Node) {
    && node.kind.MappingNode? && LevelKeysOk(node.content, JOB_ALLOWED)
    && Pairs(node.content, |node.content|, JobPairSound)
    && HasKeyBefore(node.content, |node.content|, "steps")
  }

  // ---------------------------------------------------------------- nothing sound is lost

  lemma {:induction false} ValuePair(content: seq<Node>, n: nat, key: string) returns (i: nat)
    requires n <= |content| && n % 2 == 0 && Value(content, n, key).Some?
    ensures i + 1 < |content| && i < n && i % 2 == 0 && content[i].value == key
    ensures content[i + 1] == Value(content, n, key).value
  {
    if content[n - 2].value == key { i := n - 2; } else { i := ValuePair(content, n - 2, key); }
  }

  lemma SoundValue(content: seq<Node>, key: string, rule: (Node, Node) -> bool) returns (k: Node)
    requires |content| % 2 == 0 && Pairs(content, |content|, rule) && Value(content, |content|, key).Some?
    ensures k.value == key && rule(k, Value(content, |content|, key).value)
  {
    var i := ValuePair(content, |content|, key);
    k := content[i];
  }

  /** The text under this key, if there is one, is a scalar without an expression, and is what was read. */
  predicate TextKept(content: seq<Node>, key: string, text: string) {
    match Value(content, |content|, key)
    case None => text == ""
    case Some(v) => v.kind.ScalarNode? && !ContainsExpression(v.value) && text == v.value
  }

  lemma {:induction false} EntriesFiled(content: seq<Node>, n: nat, field: string)
    requires n <= |content| && n % 2 == 0 && Pairs(content, n, EntryOk)
    ensures var env := EnvUpTo(content, n, field);
            forall i | 0 <= i < n && i % 2 == 0 :: content[i].value in env.plain || content[i].value in env.secretNames
  {
    hide SecretRef, ContainsExpression, EnvKeyMatches;
    if n >= 2 {
      EntriesFiled(content, n - 2, field);
      var env := EnvUpTo(content, n, field);
      assert EntryOk(content[n - 2], content[n - 1]);
      forall i | 0 <= i < n && i % 2 == 0 ensures content[i].value in env.plain || content[i].value in env.secretNames {
        assert i < n - 2 || i == n - 2;
      }
    }
  }

  /** An env block is empty or a mapping, and every entry of it is a value or a secret of the env that was read. */
  predicate EnvKept(content: seq<Node>, env: EnvValues) {
    match Value(content, |content|, "env")
    case None => env.plain == map[] && env.secretNames == {}
    case Some(v) =>
      || (v.kind.ScalarNode? && v.tag == "!!null" && env.plain == map[] && env.secretNames == {})
      || (v.kind.MappingNode? && forall i | 0 <= i < |v.content| - 1 && i % 2 == 0 ::
            v.content[i].value in env.plain || v.content[i].value in env.secretNames)
  }

  lemma SoundEnvKept(content: seq<Node>, field: string)
    requires Value(content, |content|, "env").Some? ==> EnvSound(Value(content, |content|, "env").value)
    requires Value(content, |content|, "env").Some? ==> WellFormed(Value(content, |content|, "env").value)
    ensures EnvKept(content, EnvAt(content, |content|, field))
  {
    hide EntryOk, Value;
    if Value(content, |content|, "env").Some? {
      var v := Value(content, |content|, "env").value;
      if v.kind.MappingNode? { EntriesFiled(v.content, |v.content|, field); }
    }
  }

  ghost predicate StepKept(node: Node, step: ParsedStep) {
    && TextKept(node.content, "name", step.name) && TextKept(node.content, "run", step.run) && step.run != ""
    && TextKept(node.content, "working-directory", step.workingDir) && EnvKept(node.content, step.env)
  }

  lemma {:induction false} ValueWithin(content: seq<Node>, n: nat, key: string)
    requires n <= |content| && Value(content, n, key).Some?
    ensures Value(content, n, key).value in content
  {
    if content[n - 2].value != key { ValueWithin(content, n - 2, key); }
  }

  /** Of a sound step everything is kept: every text is read as it stands, there is a command, and no entry is lost. */
  lemma SoundStepLosesNothing(node: Node, field: string)
    requires StepSound(node) && WellFormed(node)
    ensures StepKept(node, StepOf(node, field))
  {
    hide ContainsExpression, EnvSound, EnvKept, EnvAt, Pairs, LevelKeysOk;
    var c := node.content;
    StepFromKeys(c, |c|, field);
    forall key | key in {"name", "run", "working-directory"} ensures TextKept(c, key, TextAt(c, |c|, key)) {
      if Value(c, |c|, key).Some? { var k := SoundValue(c, key, StepPairSound); }
    }
    KeyValued(c, "run");
    var k := SoundValue(c, "run", StepPairSound);
    if Value(c, |c|, "env").Some? {
      var e := SoundValue(c, "env", StepPairSound);
      ValueWithin(c, |c|, "env");
    }
    SoundEnvKept(c, field + ".env");
  }

  lemma {:induction false} KeyValued(content: seq<Node>, key: string)
    requires |content| % 2 == 0 && HasKeyBefore(content, |content|, key)
    ensures Value(content, |content|, key).Some?
  {
    var j :| 0 <= j < |content| && j + 1 < |content| && j % 2 == 0 && content[j].value == key;
    ValueFrom(content, |content|, key, j);
  }

  lemma {:induction false} ValueFrom(content: seq<Node>, n: nat, key: string, j: nat)
    requires n <= |content| && n % 2 == 0 && j < n && j % 2 == 0 && content[j].value == key
    ensures Value(content, n, key).Some?
  {
    if content[n - 2].value != key { ValueFrom(content, n - 2, key, j); }
  }

  /** Needs are one ID or a list of IDs, and every one of them is read. */
  ghost predicate NeedsKept(content: seq<Node>, needs: seq<string>) {
    match Value(content, |content|, "needs")
    case None => needs == []
    case Some(v) =>
      || (v.kind.ScalarNode? && needs == [v.value])
      || (v.kind.SequenceNode?
          && forall item | item in v.content :: item.kind.ScalarNode? && item.value in needs)
  }

  ghost predicate NumbersKept(content: seq<Node>, job: ParsedJob) {
    && (match Value(content, |content|, "timeout-minutes")
        case None => job.timeout == DEFAULT_CHECK_TIMEOUT
        case Some(v) => v.tag == "!!int" && v.decoded.Int? && job.timeout == v.decoded.value * MINUTE)
    && (match Value(content, |content|, "retries")
        case None => job.retries == 0
        case Some(v) => v.tag == "!!int" && v.decoded.Int? && job.retries == v.decoded.value)
  }

  ghost predicate TextsKept(content: seq<Node>, job: ParsedJob) {
    && TextKept(content, "name", job.name) && TextKept(content, "environment", job.environ)
    && TextKept(content, "working-directory", job.workingDir)
  }

  lemma SoundTexts(idNode: Node, node: Node)
    requires JobSound(node) && WellFormed(node)
    ensures TextsKept(node.content, JobOf(idNode, node))
  {
    hide ContainsExpression, Pairs, LevelKeysOk, NeedsSound, EnvSound, StepsSound;
    var c := node.content;
    JobTextsFromKeys(idNode, c, |c|);
    forall key | key in {"name", "environment", "working-directory"} ensures TextKept(c, key, TextAt(c, |c|, key)) {
      if Value(c, |c|, key).Some? { var k := SoundValue(c, key, JobPairSound); }
    }
  }

  lemma SoundNumbers(idNode: Node, node: Node)
    requires JobSound(node) && WellFormed(node)
    ensures NumbersKept(node.content, JobOf(idNode, node)) && NeedsKept(node.content, JobOf(idNode, node).needs)
  {
    hide ContainsExpression, Pairs, LevelKeysOk, EnvSound, StepsSound, StringSound, JobUpTo;
    var c := node.content;
    JobTimeoutFromKey(idNode, c, |c|);
    JobNeedsFromKeys(idNode, c, |c|);
    if Value(c, |c|, "timeout-minutes").Some? { var k := SoundValue(c, "timeout-minutes", JobPairSound); }
    if Value(c, |c|, "retries").Some? { var k := SoundValue(c, "retries", JobPairSound); }
    if Value(c, |c|, "needs").Some? {
      var k := SoundValue(c, "needs", JobPairSound);
      var v := Value(c, |c|, "needs").value;
      NeedsMembers(v.content, |v.content|);
    }
  }

  lemma SoundEnv(idNode: Node, node: Node)
    requires JobSound(node) && WellFormed(node)
    ensures EnvKept(node.content, JobOf(idNode, node).env)
  {
    hide ContainsExpression, Pairs, LevelKeysOk, EnvSound, StepsSound, StringSound, JobUpTo, NeedsSound, EnvKept;
    var c := node.content;
    JobEnvFromKey(idNode, c, |c|);
    if Value(c, |c|, "env").Some? {
      var k := SoundValue(c, "env", JobPairSound);
      ValueWithin(c, |c|, "env");
    }
    SoundEnvKept(c, "jobs." + idNode.value + ".env");
  }

  /**
   Of a sound job everything is kept: its texts, needs, timeout and retries are
   what the document says, and no entry of its env is lost.
   */
  lemma SoundJobLosesNothing(idNode: Node, node: Node)
    requires JobSound(node) && WellFormed(node)
    ensures var job := JobOf(idNode, node);
            && TextsKept(node.content, job) && NumbersKept(node.content, job)
            && NeedsKept(node.content, job.needs) && EnvKept(node.content, job.env)
  {
    hide JobSound, JobOf, TextsKept, NumbersKept, NeedsKept, EnvKept;
    SoundTexts(idNode, node);
    SoundNumbers(idNode, node);
    SoundEnv(idNode, node);
  }

  /** Its steps are one for each entry of its list, which is not empty, and of each of them everything is kept. */
  lemma SoundJobKeepsSteps(idNode: Node, node: Node)
    requires JobSound(node) && WellFormed(node) && Clean(node)
    ensures Value(node.content, |node.content|, "steps").Some?
    ensures var v, steps := Value(node.content, |node.content|, "steps").value, JobOf(idNode, node).steps;
            && v.kind.SequenceNode? && |steps| == |v.content| && steps != []
            && forall i | 0 <= i < |steps| :: StepKept(v.content[i], steps[i])
  {
    hide ContainsExpression, Pairs, EnvSound, StringSound, JobUpTo, NeedsSound, StepSound, StepKept, StepOf,
      KeysDistinct, MinutesOk, RetriesOk, LevelKeysOk, Clean;
    var c := node.content;
    assert KeysDistinct(c) by { CleanNode(node); }
    ScalarKeys(node, JOB_ALLOWED);
    KeyValued(c, "steps");
    var k := SoundValue(c, "steps", JobPairSound);
    OneSteps(c);
    JobStepsFromKey(idNode, c, |c|);
    var v, field := Value(c, |c|, "steps").value, "jobs." + idNode.value + ".steps";
    ValueWithin(c, |c|, "steps");
    StepsInOrder(v.content, |v.content|, field);
    forall i | 0 <= i < |v.content| ensures StepKept(v.content[i], StepsOf(v, field)[i]) {
      assert v.content[i] in v.content;
      SoundStepLosesNothing(v.content[i], field + "[" + Decimal(i) + "]");
    }
  }

  /** In a clean mapping every known key is a scalar. */
  lemma ScalarKeys(node: Node, allowed: set<string>)
    requires node.kind.MappingNode? && WellFormed(node) && Clean(node) && LevelKeysOk(node.content, allowed)
    requires "" !in allowed
    ensures forall i | 0 <= i < |node.content| && i % 2 == 0 :: node.content[i].kind.ScalarNode?
  {
    forall i | 0 <= i < |node.content| && i % 2 == 0 ensures node.content[i].kind.ScalarNode? {
      var key := node.content[i];
      assert key in node.content && LevelKeyOk(key, allowed);
      assert WellFormed(key) && Clean(key);
    }
  }

  lemma OneSteps(content: seq<Node>)
    requires KeysDistinct(content) && |content| % 2 == 0
    requires forall i | 0 <= i < |content| && i % 2 == 0 :: content[i].kind.ScalarNode?
    ensures forall i, j | 0 <= i < j < |content| && i % 2 == |content| % 2 == j % 2 && content[i].value == "steps" ::
              content[j].value != "steps"
  {
    forall i, j | 0 <= i < j < |content| && i % 2 == |content| % 2 == j % 2 && content[i].value == "steps"
      ensures content[j].value != "steps"
    {
      assert !RepeatsKey(content, j);
    }
  }

  ghost predicate NamedJobSound(key: Node, val: Node) {
    JobIdOk(key) && JobSound(val)
  }

  ghost predicate JobsSound(node: Node) {
    node.kind.MappingNode? && node.content != [] && Pairs(node.content, |node.content|, NamedJobSound)
  }

  /** The job of this id among the first n nodes of a jobs mapping is sound. */
  ghost predicate SoundAt(content: seq<Node>, n: nat, id: string)
    requires n <= |content|
  {
    Value(content, n, id).Some? && JobSound(Value(content, n, id).value)
  }

  /** The document's job of this id is sound. */
  ghost predicate SoundJob(doc: Node, id: string) {
    var jobs := Value(doc.content, |doc.content|, "jobs");
    jobs.Some? && SoundAt(jobs.value.content, |jobs.value.content|, id)
  }

  ghost predicate TopPairSound(key: Node, val: Node, onOk: bool) {
    && (key.value == "on" ==> onOk)
    && (key.value == "env" ==> EnvSound(val))
    && (key.value == "name" ==> StringSound(val))
    && (key.value == "jobs" ==> JobsSound(val))
  }

  ghost function TopRule(onOk: bool): (Node, Node) -> bool {
    (key, val) => TopPairSound(key, val, onOk)
  }

  /** The document raises no problem of its own: known keys, each with a value of its kind. */
  ghost predicate SpecSound(doc: Node, onOk: bool) {
    && LevelKeysOk(doc.content, TOP_ALLOWED)
    && Pairs(doc.content, |doc.content|, TopRule(onOk))
  }
}
