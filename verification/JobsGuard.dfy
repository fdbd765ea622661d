/**
 The YAML node tree the `jobs:` compiler walks and the screen it runs first
 (ci/jobs_guard.go). The screen walks the tree with an explicit stack and a node
 budget, so the compiler never follows an alias and never sees a key twice.
 */
module JobsGuard {
  import opened Diagnostics

  const NODE_MAX := 1048576

  datatype Kind = MappingNode | SequenceNode | ScalarNode | AliasNode

  datatype Decoded = NotAnInt | Int(value: int)

  /** decoded is what decoding the scalar into an int yields. */
  datatype Node = Node(kind: Kind, tag: string, value: string, line: int, column: int, decoded: Decoded,
                       content: seq<Node>)

  function DiagAt(node: Node, field: string, message: Message): Diagnostic {
    Diagnostic(node.line, node.column, field, message)
  }

  /** What yaml.v3 guarantees: mappings hold pairs, only scalars and aliases carry a value. */
  predicate WellFormed(node: Node) {
    && (node.kind.MappingNode? ==> |node.content| % 2 == 0)
    && (node.kind.MappingNode? || node.kind.SequenceNode? ==> node.value == "")
    && forall n | n in node.content :: WellFormed(n)
  }

  /** A scalar key repeats the value of an earlier key of the same mapping. */
  predicate RepeatsKey(content: seq<Node>, j: nat)
    requires j < |content|
  {
    content[j].kind.ScalarNode? && exists i :: 0 <= i < j && i % 2 == 0 && content[i].value == content[j].value
  }

  predicate KeysDistinct(content: seq<Node>) {
    forall j | 0 <= j < |content| - 1 && j % 2 == 0 :: !RepeatsKey(content, j)
  }

  /** No alias and no repeated scalar key anywhere below. */
  predicate Clean(node: Node) {
    && !node.kind.AliasNode?
    && (node.kind.MappingNode? ==> KeysDistinct(node.content))
    && forall n | n in node.content :: Clean(n)
  }

  /** The node is doc or below it. */
  ghost predicate Within(n: Node, doc: Node)
    decreases doc
  {
    n == doc || exists child | child in doc.content :: Within(n, child)
  }

  /** Neither an alias nor a mapping with two keys alike, the later of them a scalar. */
  ghost predicate Plain(n: Node) {
    && !n.kind.AliasNode?
    && (n.kind.MappingNode? ==>
          forall i, j | 0 <= i < j < |n.content| - 1 && i % 2 == 0 && j % 2 == 0 && n.content[j].kind.ScalarNode? ::
            n.content[i].value != n.content[j].value)
  }

  lemma PlainIff(n: Node)
    ensures Plain(n) <==> !n.kind.AliasNode? && (n.kind.MappingNode? ==> KeysDistinct(n.content))
  {
    if n.kind.MappingNode? && KeysDistinct(n.content) {
      forall i, j | 0 <= i < j < |n.content| - 1 && i % 2 == 0 && j % 2 == 0 && n.content[j].kind.ScalarNode?
        ensures n.content[i].value != n.content[j].value
      {
        assert !RepeatsKey(n.content, j);
      }
    }
  }

  /** A tree is clean exactly when every node in it is plain. */
  lemma {:induction false} CleanIff(doc: Node)
    ensures Clean(doc) <==> forall n | Within(n, doc) :: Plain(n)
    decreases doc
  {
    hide Plain;
    PlainIff(doc);
    forall child | child in doc.content ensures Clean(child) <==> forall n | Within(n, child) :: Plain(n) {
      CleanIff(child);
    }
    if forall n | Within(n, doc) :: Plain(n) {
      assert Within(doc, doc);
      forall child, n | child in doc.content && Within(n, child) ensures Plain(n) { assert Within(n, doc); }
    }
  }

  predicate AllClean(nodes: seq<Node>) {
    forall n | n in nodes :: Clean(n)
  }

  lemma CleanConcat(a: seq<Node>, b: seq<Node>)
    ensures AllClean(a + b) <==> AllClean(a) && AllClean(b)
  {
    assert forall n :: n in a + b <==> n in a || n in b;
  }

  lemma CleanNode(node: Node)
    ensures Clean(node) <==>
            !node.kind.AliasNode? && (node.kind.MappingNode? ==> KeysDistinct(node.content)) && AllClean(node.content)
    ensures AllClean([node]) <==> Clean(node)
  {
  }

  /** Nodes the walk visits below and including node; an alias is not entered. */
  ghost function Walked(node: Node): nat {
    1 + if node.kind.AliasNode? then 0 else WalkedAll(node.content)
  }

  ghost function WalkedAll(nodes: seq<Node>): nat {
    if nodes == [] then 0 else WalkedAll(nodes[..|nodes| - 1]) + Walked(nodes[|nodes| - 1])
  }

  lemma {:induction false} WalkedConcat(a: seq<Node>, b: seq<Node>)
    ensures WalkedAll(a + b) == WalkedAll(a) + WalkedAll(b)
  {
    if b == [] {
      assert a + b == a;
    } else {
      WalkedConcat(a, b[..|b| - 1]);
      assert (a + b)[..|a + b| - 1] == a + b[..|b| - 1];
    }
  }

  method DuplicateKeyDiagnostics(node: Node, diags: seq<Diagnostic>)
    returns (r: seq<Diagnostic>, ghost raised: seq<Diagnostic>)
    requires Bounded(diags)
    requires node.kind.MappingNode? && |node.content| % 2 == 0
    ensures r == AddAll(diags, raised)
    ensures raised == [] <==> KeysDistinct(node.content)
    ensures |diags| < DIAGNOSTICS_MAX ==> (r == diags <==> KeysDistinct(node.content))
  {
    hide AddAll, AddDiagnostic, RepeatsKey, KeyBefore;
    r, raised := diags, [];
    NothingRaised(diags);
    var seen: set<string> := {};
    NoKeyBefore(node.content);
    var i := 0;
    while i + 1 < |node.content|
      invariant i % 2 == 0 && i <= |node.content|
      invariant r == AddAll(diags, raised)
      invariant forall v :: v in seen <==> KeyBefore(node.content, i, v)
      invariant raised == [] <==> forall j | 0 <= j < i && j % 2 == 0 :: !RepeatsKey(node.content, j)
    {
      var key := node.content[i];
      RepeatIsKeyBefore(node.content, i);
      if key.kind.ScalarNode? && key.value in seen {
        var d := DiagAt(key, key.value, DuplicateKey(key.value));
        AddAllOne(diags, raised, d);
        r := AddDiagnostic(r, d);
        raised := raised + [d];
      }
      seen := seen + {key.value};
      KeyBeforeNext(node.content, i);
      assert forall j | 0 <= j < i + 2 && j % 2 == 0 :: j < i || j == i;
      i := i + 2;
    }
    LengthTellsBelowCap(diags, raised);
  }

  lemma NothingRaised(diags: seq<Diagnostic>)
    requires Bounded(diags)
    ensures AddAll(diags, []) == diags
  {
  }

  /** The key at an even position below i. */
  ghost predicate KeyBefore(content: seq<Node>, i: nat, key: string)
    requires i <= |content|
  {
    exists k :: 0 <= k < i && k % 2 == 0 && content[k].value == key
  }

  lemma NoKeyBefore(content: seq<Node>)
    ensures forall v :: !KeyBefore(content, 0, v)
  {
  }

  lemma RepeatIsKeyBefore(content: seq<Node>, i: nat)
    requires i + 1 < |content| && i % 2 == 0
    ensures RepeatsKey(content, i) <==> content[i].kind.ScalarNode? && KeyBefore(content, i, content[i].value)
  {
  }

  lemma KeyBeforeNext(content: seq<Node>, i: nat)
    requires i + 1 < |content| && i % 2 == 0
    ensures forall v :: KeyBefore(content, i + 2, v) <==> KeyBefore(content, i, v) || v == content[i].value
  {
    forall v ensures KeyBefore(content, i + 2, v) <==> KeyBefore(content, i, v) || v == content[i].value {
      if KeyBefore(content, i, v) {
        var k :| 0 <= k < i && k % 2 == 0 && content[k].value == v;
      }
      if KeyBefore(content, i + 2, v) {
        var k :| 0 <= k < i + 2 && k % 2 == 0 && content[k].value == v;
        assert k < i || k == i;
      }
    }
  }

  /** The screen is silent exactly when the tree is clean and fits the node budget. */
  method JobsDocumentDiagnostics(doc: Node) returns (r: seq<Diagnostic>, ghost raised: seq<Diagnostic>)
    requires doc.kind.MappingNode? && WellFormed(doc)
    ensures r == AddAll([], raised)
    ensures raised == [] <==> Clean(doc) && Walked(doc) <= NODE_MAX
    ensures r == [] <==> Clean(doc) && Walked(doc) <= NODE_MAX
  {
    r, raised := [], [];
    var stack := [doc];
    CleanNode(doc);
    var visited := 0;
    while |stack| > 0
      invariant r == AddAll([], raised)
      invariant visited <= NODE_MAX
      invariant visited + WalkedAll(stack) == Walked(doc)
      invariant forall n | n in stack :: WellFormed(n)
      invariant Clean(doc) <==> raised == [] && AllClean(stack)
      decreases WalkedAll(stack)
    {
      if visited >= NODE_MAX {
        var d := DiagAt(doc, "spec", TooManyNodes);
        AddAllOne([], raised, d);
        LengthTellsBelowCap([], raised + [d]);
        return AddDiagnostic(r, d), raised + [d];
      }
      var node := stack[|stack| - 1];
      ghost var below := stack[..|stack| - 1];
      assert stack == below + [node] && node in stack;
      assert WellFormed(node);
      CleanConcat(below, [node]);
      CleanNode(node);
      stack := stack[..|stack| - 1];
      visited := visited + 1;
      if node.kind.AliasNode? {
        var d := DiagAt(node, "spec", AliasUnsupported(node.value));
        AddAllOne([], raised, d);
        r := AddDiagnostic(r, d);
        raised := raised + [d];
      } else {
        if node.kind.MappingNode? {
          ghost var more;
          var r0 := r;
          r, more := DuplicateKeyDiagnostics(node, r0);
          AddAllConcat([], raised, more);
          raised := raised + more;
        }
        WalkedConcat(stack, node.content);
        CleanConcat(stack, node.content);
        stack := stack + node.content;
      }
    }
    LengthTellsBelowCap([], raised);
  }
}
