/** The level-folding Merkle root shared by the ledger, the block header and the
chunk manifest. An odd level repeats its last node, so the root does not bind
every list; `RootExact` says exactly which lists share a root, and
`RootBindsDistinct` that among lists without repetition none do. */
module Merkle {
  import opened Base

  /** The 64 bytes hashed into an inner node. */
  function PairBytes(a: Hash, b: Hash): (s: seq<byte>)
    ensures |s| == 64 && s[..32] == a && s[32..] == b
  {
    a + b
  }

  function Pair(a: Hash, b: Hash): Hash {
    Sha(PairBytes(a, b))
  }

  /** The right sibling of node `2k`: itself when the level is odd and ends there. */
  function Right(level: seq<Hash>, k: nat): Hash
    requires 2 * k < |level|
  {
    if 2 * k + 1 < |level| then level[2 * k + 1] else level[2 * k]
  }

  function Fold(level: seq<Hash>): (next: seq<Hash>)
    ensures |next| == (|level| + 1) / 2
  {
    seq((|level| + 1) / 2, k requires 0 <= k < (|level| + 1) / 2 => Pair(level[2 * k], Right(level, k)))
  }

  function Root(level: seq<Hash>): Hash
    requires level != []
    decreases |level|
  {
    if |level| == 1 then level[0] else Root(Fold(level))
  }

  /** Root over hashes in the given order; the empty list has the zero root. */
  function RootOrZero(hashes: seq<Hash>): Hash {
    if hashes == [] then ZERO_HASH else Root(hashes)
  }

  /** One pass of the inner loop: pairs of a level, left to right. */
  method FoldLevel(level: seq<Hash>) returns (next: seq<Hash>)
    ensures next == Fold(level)
  {
    next := [];
    var i := 0;
    while i < |level|
      invariant i == 2 * |next| <= |level| + 1
      invariant forall k :: 0 <= k < |next| ==> next[k] == Pair(level[2 * k], Right(level, k))
    {
      var a := level[i];
      var b := if i + 1 < |level| then level[i + 1] else level[i];
      next := next + [Sha(PairBytes(a, b))];
      i := i + 2;
    }
  }

  method MerkleRootHashes(hashes: seq<Hash>) returns (root: Hash)
    ensures root == RootOrZero(hashes)
  {
    if hashes == [] {
      return ZERO_HASH;
    }
    var level := hashes;
    while |level| > 1
      invariant level != [] && Root(level) == Root(hashes)
      decreases |level|
    {
      level := FoldLevel(level);
    }
    return level[0];
  }

  // ---- What is hashed, and what comes out above the leaves ----

  function PairInput(level: seq<Hash>, k: nat): seq<byte>
    requires 2 * k < |level|
  {
    PairBytes(level[2 * k], Right(level, k))
  }

  ghost function Inputs(level: seq<Hash>): set<seq<byte>>
    decreases |level|
  {
    if |level| <= 1 then {}
    else (set k | 0 <= k < |Fold(level)| :: PairInput(level, k)) + Inputs(Fold(level))
  }

  ghost function Upper(level: seq<Hash>): set<Hash>
    decreases |level|
  {
    if |level| <= 1 then {} else (set h | h in Fold(level)) + Upper(Fold(level))
  }

  ghost predicate Distinct<T>(s: seq<T>) {
    forall i, j :: 0 <= i < j < |s| ==> s[i] != s[j]
  }

  /** No node of `a` reappears above the leaves of `b`. */
  ghost predicate Apart(a: seq<Hash>, b: seq<Hash>) {
    forall x :: x in a ==> x !in Upper(b)
  }

  lemma PairInjective(a: seq<Hash>, i: nat, b: seq<Hash>, j: nat, inputs: set<seq<byte>>)
    requires |a| > 1 && |b| > 1 && i < |Fold(a)| && j < |Fold(b)|
    requires Inputs(a) <= inputs && Inputs(b) <= inputs && CollisionFree(inputs)
    requires Fold(a)[i] == Fold(b)[j]
    ensures a[2 * i] == b[2 * j] && Right(a, i) == Right(b, j)
  {
    assert PairInput(a, i) in Inputs(a) && PairInput(b, j) in Inputs(b);
  }

  /** A level of distinct nodes folds into a level of distinct nodes. */
  lemma FoldDistinct(level: seq<Hash>, inputs: set<seq<byte>>)
    requires |level| > 1 && Distinct(level)
    requires Inputs(level) <= inputs && CollisionFree(inputs)
    ensures Distinct(Fold(level))
  {
    forall i, j | 0 <= i < j < |Fold(level)|
      ensures Fold(level)[i] != Fold(level)[j]
    {
      if Fold(level)[i] == Fold(level)[j] {
        PairInjective(level, i, level, j, inputs);
      }
    }
  }

  /** Every node above the leaves is the digest of a pair whose left part sits one level below. */
  lemma {:induction false} UpperIsPair(level: seq<Hash>, h: Hash) returns (left: Hash, right: Hash)
    requires h in Upper(level)
    ensures h == Pair(left, right) && PairBytes(left, right) in Inputs(level)
    ensures left in level || left in Upper(level)
    decreases |level|
  {
    var next := Fold(level);
    if h in next {
      var k :| 0 <= k < |next| && next[k] == h;
      left, right := level[2 * k], Right(level, k);
      assert PairBytes(left, right) == PairInput(level, k);
    } else {
      left, right := UpperIsPair(next, h);
    }
  }

  lemma FoldNotUpper(a: seq<Hash>, k: nat, b: seq<Hash>, inputs: set<seq<byte>>)
    requires |a| > 1 && |b| > 1 && k < |Fold(a)| && Apart(a, b)
    requires Inputs(a) <= inputs && Inputs(b) <= inputs && CollisionFree(inputs)
    ensures Fold(a)[k] !in Upper(Fold(b))
  {
    var x := Fold(a)[k];
    if x in Upper(Fold(b)) {
      assert PairInput(a, k) in Inputs(a);
      assert a[2 * k] in a;
      var left, right := UpperIsPair(Fold(b), x);
    }
  }

  lemma FoldApart(a: seq<Hash>, b: seq<Hash>, inputs: set<seq<byte>>)
    requires |a| > 1 && |b| > 1 && Apart(a, b)
    requires Inputs(a) <= inputs && Inputs(b) <= inputs && CollisionFree(inputs)
    ensures Apart(Fold(a), Fold(b))
  {
    forall k | 0 <= k < |Fold(a)|
      ensures Fold(a)[k] !in Upper(Fold(b))
    {
      FoldNotUpper(a, k, b, inputs);
    }
  }

  lemma {:induction false} RootInUpper(level: seq<Hash>)
    requires |level| > 1
    ensures Root(level) in Upper(level)
    decreases |level|
  {
    if |Fold(level)| > 1 {
      RootInUpper(Fold(level));
    }
  }

  /** Lists without repetition, of any two lengths, have equal roots only if they are equal. */
  lemma {:induction false} RootBindsDistinct(a: seq<Hash>, b: seq<Hash>, inputs: set<seq<byte>>)
    requires a != [] && b != [] && Distinct(a) && Distinct(b)
    requires Inputs(a) <= inputs && Inputs(b) <= inputs && CollisionFree(inputs)
    requires Apart(a, b) && Apart(b, a)
    requires Root(a) == Root(b)
    ensures a == b
    decreases |a| + |b|
  {
    if |a| == 1 && |b| == 1 {
    } else if |a| == 1 {
      assert a[0] in a;
      RootInUpper(b);
    } else if |b| == 1 {
      assert b[0] in b;
      RootInUpper(a);
    } else {
      FoldDistinct(a, inputs);
      FoldDistinct(b, inputs);
      FoldApart(a, b, inputs);
      FoldApart(b, a, inputs);
      RootBindsDistinct(Fold(a), Fold(b), inputs);
      UnfoldDistinct(a, b, inputs);
    }
  }

  lemma Half(i: nat) returns (k: nat)
    ensures i == 2 * k || i == 2 * k + 1
  {
    k := i / 2;
  }

  lemma UnfoldAt(a: seq<Hash>, b: seq<Hash>, i: nat, inputs: set<seq<byte>>)
    requires |a| > 1 && |b| > 1 && i < |a| && i < |b|
    requires Inputs(a) <= inputs && Inputs(b) <= inputs && CollisionFree(inputs)
    requires Fold(a) == Fold(b)
    ensures a[i] == b[i]
  {
    var k := Half(i);
    UnfoldPair(a, b, i, k, inputs);
  }

  lemma UnfoldPair(a: seq<Hash>, b: seq<Hash>, i: nat, k: nat, inputs: set<seq<byte>>)
    requires |a| > 1 && |b| > 1 && i < |a| && i < |b| && 2 * k <= i
    requires Inputs(a) <= inputs && Inputs(b) <= inputs && CollisionFree(inputs)
    requires Fold(a) == Fold(b)
    ensures a[2 * k] == b[2 * k] && Right(a, k) == Right(b, k)
  {
    PairInjective(a, k, b, k, inputs);
  }

  /** The last pair repeats a node exactly when the level is odd. */
  lemma UnfoldLength(a: seq<Hash>, b: seq<Hash>, inputs: set<seq<byte>>)
    requires |a| > 1 && |b| > 1 && Distinct(a) && Distinct(b)
    requires Inputs(a) <= inputs && Inputs(b) <= inputs && CollisionFree(inputs)
    requires Fold(a) == Fold(b)
    ensures |a| == |b|
  {
    var last := |Fold(a)| - 1;
    assert 2 * last + 1 <= |a| <= 2 * last + 2 && 2 * last + 1 <= |b| <= 2 * last + 2;
    PairInjective(a, last, b, last, inputs);
  }

  lemma UnfoldDistinct(a: seq<Hash>, b: seq<Hash>, inputs: set<seq<byte>>)
    requires |a| > 1 && |b| > 1 && Distinct(a) && Distinct(b)
    requires Inputs(a) <= inputs && Inputs(b) <= inputs && CollisionFree(inputs)
    requires Fold(a) == Fold(b)
    ensures a == b
  {
    UnfoldLength(a, b, inputs);
    forall i | 0 <= i < |a|
      ensures a[i] == b[i]
    {
      UnfoldAt(a, b, i, inputs);
    }
  }

  // ---- Exactly which lists share a root ----

  function Depth(n: nat): nat
    requires n > 0
  {
    if n == 1 then 0 else 1 + Depth((n + 1) / 2)
  }

  function Pow2(d: nat): nat {
    if d == 0 then 1 else 2 * Pow2(d - 1)
  }

  /** Which of `n` leaves stands at position `j` of the full tree. */
  function LeafAt(n: nat, j: nat): (i: nat)
    requires n > 0
    ensures i < n
    decreases n
  {
    if n == 1 then 0
    else
      var k := LeafAt((n + 1) / 2, j / 2);
      if 2 * k + j % 2 < n then 2 * k + j % 2 else 2 * k
  }

  /** The leaves of the full tree the folding builds, repetitions included. */
  function Padded(level: seq<Hash>): seq<Hash>
    requires level != []
  {
    seq(Pow2(Depth(|level|)), j requires 0 <= j < Pow2(Depth(|level|)) => level[LeafAt(|level|, j)])
  }

  lemma LeafAtPair(n: nat, j: nat)
    requires n > 1
    ensures var k := LeafAt((n + 1) / 2, j);
            LeafAt(n, 2 * j) == 2 * k && LeafAt(n, 2 * j + 1) == if 2 * k + 1 < n then 2 * k + 1 else 2 * k
  {
    assert (2 * j) / 2 == j && (2 * j) % 2 == 0;
    assert (2 * j + 1) / 2 == j && (2 * j + 1) % 2 == 1;
  }

  lemma PaddedLength(level: seq<Hash>)
    requires |level| > 1
    ensures |Padded(level)| == 2 * |Padded(Fold(level))|
  {
  }

  lemma PaddedPair(level: seq<Hash>, j: nat, k: nat)
    requires |level| > 1 && 2 * j + 1 < |Padded(level)| && k == LeafAt((|level| + 1) / 2, j)
    ensures Padded(level)[2 * j] == level[2 * k] && Padded(level)[2 * j + 1] == Right(level, k)
  {
    LeafAtPair(|level|, j);
  }

  /** Padding and folding commute: node `j` of the folded tree is the pair of leaves `2j` and `2j + 1`. */
  lemma PaddedFold(level: seq<Hash>, j: nat)
    requires |level| > 1 && 2 * j + 1 < |Padded(level)|
    ensures j < |Padded(Fold(level))|
    ensures Padded(Fold(level))[j] == Pair(Padded(level)[2 * j], Padded(level)[2 * j + 1])
    ensures PairBytes(Padded(level)[2 * j], Padded(level)[2 * j + 1]) in Inputs(level)
  {
    var k := LeafAt(|Fold(level)|, j);
    PaddedLength(level);
    PaddedPair(level, j, k);
    assert Padded(Fold(level))[j] == Fold(level)[k];
    assert PairBytes(level[2 * k], Right(level, k)) == PairInput(level, k);
  }

  /** Two lists have the same root exactly when their full trees have the same leaves. */
  lemma {:induction false} RootExact(a: seq<Hash>, b: seq<Hash>, inputs: set<seq<byte>>)
    requires a != [] && b != []
    requires Inputs(a) <= inputs && Inputs(b) <= inputs && CollisionFree(inputs)
    requires Apart(a, b) && Apart(b, a)
    ensures Root(a) == Root(b) <==> Padded(a) == Padded(b)
    decreases |a| + |b|
  {
    if |a| == 1 && |b| == 1 {
      assert Padded(a)[0] == a[0] && Padded(b)[0] == b[0];
      assert Padded(a) == [a[0]] && Padded(b) == [b[0]];
    } else if |a| == 1 {
      RootInUpper(b);
      assert a[0] in a && |Padded(a)| == 1 && |Padded(b)| > 1 by { PowPositive(Depth((|b| + 1) / 2)); }
    } else if |b| == 1 {
      RootInUpper(a);
      assert b[0] in b && |Padded(b)| == 1 && |Padded(a)| > 1 by { PowPositive(Depth((|a| + 1) / 2)); }
    } else {
      FoldApart(a, b, inputs);
      FoldApart(b, a, inputs);
      RootExact(Fold(a), Fold(b), inputs);
      PaddedUnfold(a, b, inputs);
    }
  }

  lemma {:induction false} PowPositive(d: nat)
    ensures Pow2(d) > 0
  {
    if d > 0 { PowPositive(d - 1); }
  }

  lemma PaddedUnfold(a: seq<Hash>, b: seq<Hash>, inputs: set<seq<byte>>)
    requires |a| > 1 && |b| > 1
    requires Inputs(a) <= inputs && Inputs(b) <= inputs && CollisionFree(inputs)
    ensures Padded(Fold(a)) == Padded(Fold(b)) <==> Padded(a) == Padded(b)
  {
    if Padded(a) == Padded(b) {
      PaddedFoldEqual(a, b);
    } else if Padded(Fold(a)) == Padded(Fold(b)) {
      PaddedUnfoldEqual(a, b, inputs);
    }
  }

  lemma PaddedFoldEqual(a: seq<Hash>, b: seq<Hash>)
    requires |a| > 1 && |b| > 1 && Padded(a) == Padded(b)
    ensures Padded(Fold(a)) == Padded(Fold(b))
  {
    var fa, fb := Padded(Fold(a)), Padded(Fold(b));
    PaddedLength(a);
    PaddedLength(b);
    forall j | 0 <= j < |fa|
      ensures fa[j] == fb[j]
    {
      PaddedFold(a, j);
      PaddedFold(b, j);
    }
  }

  lemma PaddedUnfoldAt(a: seq<Hash>, b: seq<Hash>, j: nat, inputs: set<seq<byte>>)
    requires |a| > 1 && |b| > 1 && Padded(Fold(a)) == Padded(Fold(b))
    requires Inputs(a) <= inputs && Inputs(b) <= inputs && CollisionFree(inputs)
    requires j < |Padded(Fold(a))| && |Padded(a)| == |Padded(b)| == 2 * |Padded(Fold(a))|
    ensures Padded(a)[2 * j] == Padded(b)[2 * j] && Padded(a)[2 * j + 1] == Padded(b)[2 * j + 1]
  {
    PaddedFold(a, j);
    PaddedFold(b, j);
    PairParts(Padded(a)[2 * j], Padded(a)[2 * j + 1], Padded(b)[2 * j], Padded(b)[2 * j + 1], inputs);
  }

  lemma PaddedUnfoldEqual(a: seq<Hash>, b: seq<Hash>, inputs: set<seq<byte>>)
    requires |a| > 1 && |b| > 1 && Padded(Fold(a)) == Padded(Fold(b))
    requires Inputs(a) <= inputs && Inputs(b) <= inputs && CollisionFree(inputs)
    ensures Padded(a) == Padded(b)
  {
    var pa, pb := Padded(a), Padded(b);
    PaddedLength(a);
    PaddedLength(b);
    forall i | 0 <= i < |pa|
      ensures pa[i] == pb[i]
    {
      PaddedUnfoldAt(a, b, i / 2, inputs);
      assert i == 2 * (i / 2) || i == 2 * (i / 2) + 1;
    }
  }

  lemma PairParts(a: Hash, b: Hash, c: Hash, d: Hash, inputs: set<seq<byte>>)
    requires PairBytes(a, b) in inputs && PairBytes(c, d) in inputs && CollisionFree(inputs)
    requires Pair(a, b) == Pair(c, d)
    ensures a == c && b == d
  {
    assert PairBytes(a, b) == PairBytes(c, d);
  }

  /** The repeated last node is invisible to the root: three leaves or four with the last one twice. */
  lemma OddLevelCollides(a: Hash, b: Hash, c: Hash)
    ensures [a, b, c] != [a, b, c, c]
    ensures Root([a, b, c]) == Root([a, b, c, c])
  {
    assert Fold([a, b, c]) == Fold([a, b, c, c]);
  }
}
