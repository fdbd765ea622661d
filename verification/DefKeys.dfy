/** The version keys of the workflow_defs bucket (dag/defkey.go). */
module DefKeys {
  import opened Dag

  const INFIX := ".v."
  const HASH_LENGTH := 64

  predicate IsHexDigit(c: char) {
    '0' <= c <= '9' || 'a' <= c <= 'f'
  }

  predicate IsHash(s: string) {
    |s| == HASH_LENGTH && forall i | 0 <= i < |s| :: IsHexDigit(s[i])
  }

  function DefVersionKey(name: string, hash: string): string
    requires name != "" && hash != ""
  {
    name + INFIX + hash
  }

  /** The pattern is anchored at the end only: some prefix, possibly empty, then the infix and a hash. */
  predicate IsDefVersionKey(key: string) {
    |key| >= |INFIX| + HASH_LENGTH
    && key[|key| - HASH_LENGTH - |INFIX|..|key| - HASH_LENGTH] == INFIX
    && IsHash(key[|key| - HASH_LENGTH..])
  }

  /** Succeeds on exactly the version keys of this name, and returns the hash they were made from. */
  method DefHashFromVersionKey(key: string, name: string) returns (hash: Option<string>)
    requires name != ""
    ensures forall h :: hash == Some(h) <==> IsHash(h) && key == DefVersionKey(name, h)
  {
    var prefix := name + INFIX;
    if |key| != |prefix| + HASH_LENGTH {
      return None;
    }
    if key[..|prefix|] != prefix {
      return None;
    }
    var candidate := key[|prefix|..];
    if !IsHash(candidate) {
      return None;
    }
    assert key == prefix + candidate;
    hash := Some(candidate);
  }

  /** A version key determines its name and its hash, so retention never counts another workflow's key. */
  lemma KeyHasOneOwner(name: string, hash: string, other: string, otherHash: string)
    requires name != "" && other != "" && IsHash(hash) && IsHash(otherHash)
    ensures DefVersionKey(name, hash) == DefVersionKey(other, otherHash) <==> name == other && hash == otherHash
  {
    var key := DefVersionKey(name, hash);
    if key == DefVersionKey(other, otherHash) {
      assert key[..|name|] == name && key[..|other|] == other;
      assert key[|name| + |INFIX|..] == hash && key[|other| + |INFIX|..] == otherHash;
    }
  }

  /** Names the registry accepts never collide with any version key; the bare infix-and-hash string is refused too. */
  lemma ShapeIsKeyOrNameless(key: string)
    ensures IsDefVersionKey(key) <==>
            (exists h :: IsHash(h) && key == INFIX + h) ||
              (exists n, h :: n != "" && IsHash(h) && key == DefVersionKey(n, h))
  {
    if IsDefVersionKey(key) {
      var n, h := key[..|key| - HASH_LENGTH - |INFIX|], key[|key| - HASH_LENGTH..];
      assert key == n + INFIX + h;
      if n == "" { assert key == INFIX + h; } else { assert key == DefVersionKey(n, h); }
    }
    if h :| IsHash(h) && key == INFIX + h { assert key[|INFIX|..] == h; }
    if n, h :| n != "" && IsHash(h) && key == DefVersionKey(n, h) {
      assert key[|n|..|n| + |INFIX|] == INFIX && key[|n| + |INFIX|..] == h;
    }
  }

  /** The prefix alone does not identify an owner: "a.v" keeps its versions under the prefix of "a". */
  lemma PrefixIsAmbiguous(name: string, hash: string)
    requires name != "" && IsHash(hash)
    ensures name + INFIX <= DefVersionKey(name + ".v", hash)
    ensures forall h | IsHash(h) :: DefVersionKey(name + ".v", hash) != DefVersionKey(name, h)
  {
    var key := DefVersionKey(name + ".v", hash);
    assert key[..|name| + 3] == name + INFIX;
    forall h | IsHash(h) ensures key != DefVersionKey(name, h) {
      KeyHasOneOwner(name + ".v", hash, name, h);
    }
  }
}
