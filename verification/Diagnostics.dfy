/**
 The capped diagnostic list of ci/diagnostics.go. Every pass of the compiler
 threads one list through addDiagnostic, so the list a pass returns is the list
 it was given extended by the problems it raised, up to the cap.
 */
module Diagnostics {

  const DIAGNOSTICS_MAX := 100

  datatype Message =
    | TooManyErrors
    | AliasUnsupported(name: string)
    | DuplicateKey(key: string)
    | TooManyNodes
    | UnknownNeed(job: string, need: string)
    | NeedsCycle(path: seq<string>)
    | SecretConflict(key: string, job: string)
    | Other(text: string)

  datatype Diagnostic = Diagnostic(line: int, column: int, field: string, message: Message)

  const SENTINEL := Diagnostic(0, 0, "", TooManyErrors)

  /** A list some sequence of additions can produce: short of the cap, or the cap and its sentinel. */
  predicate Bounded(diags: seq<Diagnostic>) {
    |diags| < DIAGNOSTICS_MAX || |diags| == DIAGNOSTICS_MAX + 1
  }

  function AddDiagnostic(diags: seq<Diagnostic>, d: Diagnostic): (r: seq<Diagnostic>)
    requires Bounded(diags)
    ensures Bounded(r) && diags <= r
  {
    if |diags| >= DIAGNOSTICS_MAX then diags
    else
      var extended := diags + [d];
      if |extended| == DIAGNOSTICS_MAX then extended + [SENTINEL] else extended
  }

  function AddAll(diags: seq<Diagnostic>, raised: seq<Diagnostic>): (r: seq<Diagnostic>)
    requires Bounded(diags)
    ensures Bounded(r)
  {
    if raised == [] then diags
    else AddDiagnostic(AddAll(diags, raised[..|raised| - 1]), raised[|raised| - 1])
  }

  lemma {:induction false} AddAllConcat(diags: seq<Diagnostic>, a: seq<Diagnostic>, b: seq<Diagnostic>)
    requires Bounded(diags)
    ensures AddAll(AddAll(diags, a), b) == AddAll(diags, a + b)
  {
    if b == [] {
      assert a + b == a;
    } else {
      AddAllConcat(diags, a, b[..|b| - 1]);
      assert (a + b)[..|a + b| - 1] == a + b[..|b| - 1];
    }
  }

  lemma AddAllOne(diags: seq<Diagnostic>, raised: seq<Diagnostic>, d: Diagnostic)
    requires Bounded(diags)
    ensures AddDiagnostic(AddAll(diags, raised), d) == AddAll(diags, raised + [d])
  {
    assert (raised + [d])[..|raised|] == raised;
  }

  /** What the cap does to a whole compilation's problems: the first hundred, then one sentinel. */
  lemma {:induction false} CapKeepsFirstProblems(problems: seq<Diagnostic>)
    ensures AddAll([], problems) ==
            if |problems| < DIAGNOSTICS_MAX then problems else problems[..DIAGNOSTICS_MAX] + [SENTINEL]
  {
    if problems != [] {
      var init := problems[..|problems| - 1];
      CapKeepsFirstProblems(init);
      assert problems == init + [problems[|problems| - 1]];
      if |problems| > DIAGNOSTICS_MAX { assert problems[..DIAGNOSTICS_MAX] == init[..DIAGNOSTICS_MAX]; }
      if |problems| == DIAGNOSTICS_MAX { assert problems[..DIAGNOSTICS_MAX] == problems; }
    }
  }

  /**
   Below the cap the list's length tells whether anything was raised; from the
   cap on it no longer does.
   */
  lemma {:induction false} LengthTellsBelowCap(diags: seq<Diagnostic>, raised: seq<Diagnostic>)
    requires Bounded(diags)
    ensures diags <= AddAll(diags, raised)
    ensures |AddAll(diags, raised)| == |diags| <==> raised == [] || |diags| >= DIAGNOSTICS_MAX
    ensures |AddAll(diags, raised)| < DIAGNOSTICS_MAX ==> AddAll(diags, raised) == diags + raised
  {
    if raised != [] {
      LengthTellsBelowCap(diags, raised[..|raised| - 1]);
      assert raised == raised[..|raised| - 1] + [raised[|raised| - 1]];
    }
  }
}
