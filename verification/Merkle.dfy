/** Merkle trees over 32-byte hashes with an uninterpreted hash function. */
module Merkle {
  import opened Types
  import opened Powers

  type HashFunc = Bytes -> Hash

  // ---- the tree, level by level ----

  /** The hash at position i, the last one standing in for a missing sibling. */
  function At(hs: seq<Hash>, i: nat): Hash
    requires hs != []
  {
    if i < |hs| then hs[i] else hs[|hs| - 1]
  }

  /** The hashes of consecutive pairs. */
  function Pairs(f: HashFunc, hs: seq<Hash>): (r: seq<Hash>)
    requires |hs| % 2 == 0
    ensures |r| == |hs| / 2
  {
    if hs == [] then []
    else
      var left: Bytes := hs[0];
      [f(left + hs[1])] + Pairs(f, hs[2..])
  }

  function Padded(hs: seq<Hash>): (r: seq<Hash>)
    ensures |r| % 2 == 0
  {
    if |hs| % 2 == 1 then hs + [hs[|hs| - 1]] else hs
  }

  /** The next layer up the tree. */
  function NextLevel(f: HashFunc, hs: seq<Hash>): (r: seq<Hash>)
    ensures |r| == (|hs| + 1) / 2
  {
    Pairs(f, Padded(hs))
  }

  lemma {:induction false} PairAt(f: HashFunc, hs: seq<Hash>, k: nat)
    requires |hs| % 2 == 0 && 2 * k < |hs|
    ensures var left: Bytes := hs[2 * k]; Pairs(f, hs)[k] == f(left + hs[2 * k + 1])
  {
    if k > 0 {
      PairAt(f, hs[2..], k - 1);
    }
  }

  /** A hash of the next layer is that of two neighbours, the last one doubled
      if it has no right neighbour. */
  lemma NextAt(f: HashFunc, hs: seq<Hash>, k: nat)
    requires 2 * k < |hs|
    ensures NextLevel(f, hs)[k] == f(hs[2 * k] + At(hs, 2 * k + 1))
  {
    hide Pairs;
    PairAt(f, Padded(hs), k);
  }

  /** The layer d higher than the bottom row. */
  function Up(f: HashFunc, hs: seq<Hash>, d: nat): (r: seq<Hash>)
    ensures |r| == Halves(|hs|, d)
    decreases d
  {
    if d == 0 then hs else Up(f, NextLevel(f, hs), d - 1)
  }

  /** The root of a tree of given depth. */
  function RootAt(f: HashFunc, hs: seq<Hash>, d: nat): Hash
    requires hs != []
  {
    HalvesPositive(|hs|, d);
    Up(f, hs, d)[0]
  }

  /** index ^ 1 */
  function Sibling(i: nat): nat {
    if i % 2 == 0 then i + 1 else i - 1
  }

  /** The siblings on the way up from position i, deepest first. */
  function Branch(f: HashFunc, hs: seq<Hash>, i: nat, d: nat): (r: seq<Hash>)
    requires i < |hs|
    ensures |r| == d
    decreases d
  {
    if d == 0 then [] else [At(hs, Sibling(i))] + Branch(f, NextLevel(f, hs), i / 2, d - 1)
  }

  /** The hash reached from position i by a branch. */
  function Climb(f: HashFunc, hash: Hash, branch: seq<Hash>, i: nat): Hash
    decreases |branch|
  {
    if branch == [] then hash
    else Climb(f, if i % 2 == 1 then f(branch[0] + hash) else f(hash + branch[0]), branch[1..], i / 2)
  }

  /** The root defined top down: halve the leaves, hash the two subtrees; a
      missing right subtree is replaced by the left one. */
  function TreeRoot(f: HashFunc, hs: seq<Hash>, d: nat): Hash
    requires hs != []
    decreases d
  {
    if d == 0 then hs[0]
    else
      var half := Shl(1, d - 1);
      if |hs| <= half then
        var left := TreeRoot(f, hs, d - 1);
        f(left + left)
      else
        HalfPositive(d - 1);
        f(TreeRoot(f, hs[..half], d - 1) + TreeRoot(f, hs[half..], d - 1))
  }

  lemma HalfPositive(d: nat)
    ensures Shl(1, d) >= 1
  {
    ShlOne(d);
  }

  // ---- the operations ----

  /** Number of hashes in a branch; refused for an empty tree. */
  function BranchLength(hashCount: int): (r: Option<nat>)
    ensures r.None? <==> hashCount < 1
    ensures r.Some? ==> hashCount <= Pow2(r.value) && (r.value == 0 || Pow2(r.value - 1) < hashCount)
  {
    if hashCount < 1 then None
    else
      CeilLog2Is(hashCount, CeilLog2(hashCount));
      Some(CeilLog2(hashCount))
  }

  /** The branch of one hash, and the root; None for an index or a length out of range. */
  method BranchAndRoot(f: HashFunc, hashes0: seq<Hash>, index0: int, length0: Option<int>)
    returns (r: Option<(seq<Hash>, Hash)>)
    ensures r == Proved(f, hashes0, index0, length0)
    ensures |hashes0| == 2 && 0 <= index0 < 2 && length0.None? ==>
      var left: Bytes := hashes0[0];
      r == Some(([hashes0[1 - index0]], f(left + hashes0[1])))
  {
    if |hashes0| == 2 {
      TwoLeaves(f, hashes0);
    }
    if !(0 <= index0 < |hashes0|) {
      return None;
    }
    hide OnTheWay, Pairs, Branch, RootAt;
    var naturalLength := CeilLog2(|hashes0|);
    var length := naturalLength;
    if length0.Some? {
      if length0.value < naturalLength {
        return None;
      }
      length := length0.value;
    }
    var hashes, index: nat, branch := hashes0, index0, [];
    BranchStart(f, hashes0, index0, length);
    for k := 0 to length
      invariant OnTheWay(f, hashes0, index0, length, hashes, index, length - k, branch)
    {
      BranchStep(f, hashes0, index0, length, hashes, index, length - k, branch);
      if |hashes| % 2 == 1 {
        hashes := hashes + [hashes[|hashes| - 1]];
      }
      branch := branch + [hashes[Sibling(index)]];
      index := index / 2;
      hashes := Pairs(f, hashes);
    }
    BranchEnd(f, hashes0, index0, length, hashes, index, branch);
    r := Some((branch, hashes[0]));
  }

  /** The branch so far and what is left of the tree make up the whole. */
  ghost predicate OnTheWay(f: HashFunc, hs0: seq<Hash>, i0: nat, n: nat, hs: seq<Hash>, i: nat, d: nat,
                           branch: seq<Hash>)
    requires i0 < |hs0|
  {
    && i < |hs|
    && branch + Branch(f, hs, i, d) == Branch(f, hs0, i0, n)
    && Up(f, hs, d) == Up(f, hs0, n)
  }

  lemma BranchStart(f: HashFunc, hs: seq<Hash>, i: nat, n: nat)
    requires i < |hs|
    ensures OnTheWay(f, hs, i, n, hs, i, n, [])
  {
    hide Branch;
    assert [] + Branch(f, hs, i, n) == Branch(f, hs, i, n);
  }

  /** One round: the sibling joins the branch and the next layer is formed. */
  lemma BranchStep(f: HashFunc, hs0: seq<Hash>, i0: nat, n: nat, hs: seq<Hash>, i: nat, d: nat, branch: seq<Hash>)
    requires i0 < |hs0| && d > 0 && OnTheWay(f, hs0, i0, n, hs, i, d, branch)
    ensures Sibling(i) < |Padded(hs)|
    ensures OnTheWay(f, hs0, i0, n, Pairs(f, Padded(hs)), i / 2, d - 1, branch + [Padded(hs)[Sibling(i)]])
  {
    hide Pairs, Branch;
    var next := Pairs(f, Padded(hs));
    assert NextLevel(f, hs) == next;
    assert Padded(hs)[Sibling(i)] == At(hs, Sibling(i));
    BranchUnfold(f, hs, i, d);
    Assoc(branch, [At(hs, Sibling(i))], Branch(f, next, i / 2, d - 1));
  }

  lemma BranchUnfold(f: HashFunc, hs: seq<Hash>, i: nat, d: nat)
    requires i < |hs|
    ensures d == 0 ==> Branch(f, hs, i, d) == []
    ensures d > 0 ==> Branch(f, hs, i, d) == [At(hs, Sibling(i))] + Branch(f, NextLevel(f, hs), i / 2, d - 1)
  {
    hide NextLevel;
  }

  lemma BranchEnd(f: HashFunc, hs0: seq<Hash>, i0: nat, n: nat, hs: seq<Hash>, i: nat, branch: seq<Hash>)
    requires i0 < |hs0| && OnTheWay(f, hs0, i0, n, hs, i, 0, branch)
    ensures hs != [] && branch == Branch(f, hs0, i0, n) && hs[0] == RootAt(f, hs0, n)
  {
    hide Branch;
    BranchUnfold(f, hs, i, 0);
    assert branch + [] == branch;
  }

  /** What a branch-and-root query answers. */
  ghost function Proved(f: HashFunc, hs: seq<Hash>, index: int, length: Option<int>): Option<(seq<Hash>, Hash)> {
    if !(0 <= index < |hs|) || (length.Some? && length.value < CeilLog2(|hs|)) then None
    else
      var d := if length.Some? then length.value else CeilLog2(|hs|);
      Some((Branch(f, hs, index, d), RootAt(f, hs, d)))
  }

  lemma TwoLeaves(f: HashFunc, hs: seq<Hash>)
    requires |hs| == 2
    ensures var left: Bytes := hs[0];
      forall i :: 0 <= i < 2 ==> Proved(f, hs, i, None) == Some(([hs[1 - i]], f(left + hs[1])))
  {
    hide NextLevel;
    NextAt(f, hs, 0);
    CeilLog2Is(2, 1);
    forall i: nat | i < 2
      ensures Branch(f, hs, i, 1) == [hs[1 - i]]
    {
      BranchUnfold(f, hs, i, 1);
      BranchUnfold(f, NextLevel(f, hs), i / 2, 0);
    }
    assert Up(f, hs, 1) == Up(f, NextLevel(f, hs), 0);
  }

  /** Three hashes: the third is hashed with itself. */
  lemma ThreeLeaves(f: HashFunc, a: Hash, b: Hash, c: Hash)
    ensures var left, right := f(a + b), f(c + c);
      && Proved(f, [a, b, c], 0, None) == Some(([b, right], f(left + right)))
      && Proved(f, [a, b, c], 1, None) == Some(([a, right], f(left + right)))
      && Proved(f, [a, b, c], 2, None) == Some(([c, left], f(left + right)))
      && Proved(f, [a, b, c], 3, None).None? && Proved(f, [a, b, c], -1, None).None?
      && Proved(f, [a, b, c], 0, Some(1)).None? && Proved(f, [a], 0, None) == Some(([], a))
  {
    var hs, left, right := [a, b, c], f(a + b), f(c + c);
    var bytes: Bytes := left;
    var up := NextLevel(f, hs);
    hide NextLevel;
    assert up == [left, right] by {
      NextAt(f, hs, 0);
      NextAt(f, hs, 1);
    }
    var root := NextLevel(f, up);
    assert root == [f(bytes + right)] by {
      NextAt(f, up, 0);
    }
    assert Up(f, hs, 2) == Up(f, up, 1) == Up(f, root, 0) == root;
    forall i: nat | i < 3
      ensures Branch(f, hs, i, 2) == [At(hs, Sibling(i)), At(up, Sibling(i / 2))]
    {
      assert Branch(f, up, i / 2, 1) == [At(up, Sibling(i / 2))] + Branch(f, root, i / 2 / 2, 0);
    }
    CeilLog2Is(3, 2);
  }

  /** The root a proof leads to; None if the index is too large for the branch. */
  method RootFromProof(f: HashFunc, hash0: Hash, branch: seq<Hash>, index0: nat) returns (r: Option<Hash>)
    ensures r == if index0 < Pow2(|branch|) then Some(Climb(f, hash0, branch, index0)) else None
    ensures |branch| == 1 && index0 == 0 ==> r == Some(f(hash0 + branch[0]))
    ensures |branch| == 1 && index0 == 1 ==> r == Some(f(branch[0] + hash0))
  {
    var hash, index: nat := hash0, index0;
    for k := 0 to |branch|
      invariant Climb(f, hash, branch[k..], index) == Climb(f, hash0, branch, index0)
      invariant index < Pow2(|branch| - k) <==> index0 < Pow2(|branch|)
    {
      assert branch[k..][1..] == branch[k + 1..];
      var elt: Bytes := branch[k];
      if index % 2 == 1 {
        hash := f(elt + hash);
      } else {
        hash := f(hash + elt);
      }
      index := index / 2;
    }
    if index != 0 {
      return None;
    }
    r := Some(hash);
  }

  /** The layer depthHigher above the bottom row, one subtree root at a time. */
  method Level(f: HashFunc, hashes: seq<Hash>, depthHigher: nat) returns (level: seq<Hash>)
    ensures level == Up(f, hashes, depthHigher)
  {
    hide Up, NextLevel, RootAt;
    var size := Shl(1, depthHigher);
    HalfPositive(depthHigher);
    level := [];
    var n := 0;
    ghost var k := 0;
    LevelStart(f, hashes, depthHigher);
    while n < |hashes|
      invariant n == Shl(k, depthHigher) && |level| == k
      invariant k <= |Up(f, hashes, depthHigher)| && level == Up(f, hashes, depthHigher)[..k]
      decreases |hashes| - n
    {
      var segment := hashes[n..if n + size <= |hashes| then n + size else |hashes|];
      SubtreeRoot(f, hashes, depthHigher, k, segment);
      var r := BranchAndRoot(f, segment, 0, Some(depthHigher));
      level := level + [r.value.1];
      ShlAdds(k, 1, depthHigher);
      n, k := n + size, k + 1;
    }
    LevelEnd(f, hashes, depthHigher, k);
  }

  /** The branch and root of a position from a cached level and the leaves below
      one of its hashes; None if they do not fit together. */
  method BranchAndRootFromLevel(f: HashFunc, level: seq<Hash>, leafHashes: seq<Hash>, index0: nat, depthHigher: nat,
                                ghost hashes: seq<Hash>)
    returns (r: Option<(seq<Hash>, Hash)>)
    ensures level != [] && index0 < |hashes| && level == Up(f, hashes, depthHigher) &&
      leafHashes == LeavesFor(hashes, index0, depthHigher)
      ==> r == Proved(f, hashes, index0, Some(depthHigher + CeilLog2(|level|)))
          && (depthHigher <= CeilLog2(|hashes|) ==> r == Proved(f, hashes, index0, None))
    ensures r.Some? ==>
      && Shr(index0, depthHigher) < |level| && leafHashes != []
      && RootAt(f, leafHashes, depthHigher) == level[Shr(index0, depthHigher)]
  {
    hide Up, NextLevel, LeavesFor, Branch;
    Shifted(index0, depthHigher);
    var leafIndex := Shl(Shr(index0, depthHigher), depthHigher);
    if index0 < |hashes| && level == Up(f, hashes, depthHigher) &&
      leafHashes == LeavesFor(hashes, index0, depthHigher) {
      LevelCut(f, hashes, index0, depthHigher);
    }
    var leaf := BranchAndRoot(f, leafHashes, index0 - leafIndex, Some(depthHigher));
    if leaf.None? {
      return None;
    }
    var index := Shr(index0, depthHigher);
    var top := BranchAndRoot(f, level, index, None);
    if top.None? || leaf.value.1 != level[index] {
      return None;
    }
    r := Some((leaf.value.0 + top.value.0, top.value.1));
  }

  /** The leaves below the hash of layer d that covers position i. */
  function LeavesFor(hs: seq<Hash>, i: nat, d: nat): seq<Hash>
    requires i < |hs|
  {
    Shifted(i, d);
    var start := Shl(Shr(i, d), d);
    hs[start..if start + Shl(1, d) <= |hs| then start + Shl(1, d) else |hs|]
  }

  // ---- proofs are correct ----

  /** Climbing the branch of position i reaches the hash above it, at any height. */
  lemma {:induction false} ProofVerifies(f: HashFunc, hs: seq<Hash>, i: nat, d: nat)
    requires i < |hs|
    ensures Shr(i, d) < |Up(f, hs, d)|
    ensures Climb(f, hs[i], Branch(f, hs, i, d), i) == Up(f, hs, d)[Shr(i, d)]
    decreases d
  {
    hide NextLevel, Branch, At, Sibling;
    ShrBelow(i, |hs|, d);
    BranchUnfold(f, hs, i, d);
    if d > 0 {
      var up := NextLevel(f, hs);
      NodeAbove(f, hs, i);
      ProofVerifies(f, up, i / 2, d - 1);
      var b := Branch(f, hs, i, d);
      assert b[1..] == Branch(f, up, i / 2, d - 1);
    }
  }

  /** A hash and its sibling, in order, make the hash above. */
  lemma NodeAbove(f: HashFunc, hs: seq<Hash>, i: nat)
    requires i < |hs|
    ensures NextLevel(f, hs)[i / 2] ==
      if i % 2 == 1 then f(At(hs, Sibling(i)) + hs[i]) else f(hs[i] + At(hs, Sibling(i)))
  {
    hide NextLevel;
    NextAt(f, hs, i / 2);
  }

  /** A branch of the natural length, or longer, proves the root. */
  lemma RootProved(f: HashFunc, hs: seq<Hash>, i: nat, d: nat)
    requires i < |hs| && d >= CeilLog2(|hs|)
    ensures i < Pow2(d) && Climb(f, hs[i], Branch(f, hs, i, d), i) == RootAt(f, hs, d)
  {
    hide NextLevel, Up, Branch, Climb;
    ProofVerifies(f, hs, i, d);
    CeilLog2Bounds(|hs|, d);
    ShlOne(d);
    HalvedToOne(|hs|, d);
  }

  /** Two different 64-byte strings with the same hash. */
  ghost predicate Collision(f: HashFunc, a: Hash, b: Hash, c: Hash, d: Hash) {
    (a != c || b != d) && f(a + b) == f(c + d)
  }

  /** Proofs are binding: one that leads to the hash above position i is for the
      hash at i and is its branch, unless it exhibits a hash collision. */
  lemma {:induction false} ProofBinds(f: HashFunc, hs: seq<Hash>, i: nat, hash: Hash, branch: seq<Hash>)
    returns (a: Hash, b: Hash, c: Hash, d: Hash)
    requires i < |hs| && Shr(i, |branch|) < |Up(f, hs, |branch|)|
    requires Climb(f, hash, branch, i) == Up(f, hs, |branch|)[Shr(i, |branch|)]
    ensures (hash == hs[i] && branch == Branch(f, hs, i, |branch|)) || Collision(f, a, b, c, d)
    decreases |branch|
  {
    hide NextLevel, Branch, At, Sibling;
    a, b, c, d := ZERO, ZERO, ZERO, ZERO;
    BranchUnfold(f, hs, i, |branch|);
    if branch != [] {
      var up, e, s := NextLevel(f, hs), branch[0], At(hs, Sibling(i));
      var next := if i % 2 == 1 then f(e + hash) else f(hash + e);
      a, b, c, d := ProofBinds(f, up, i / 2, next, branch[1..]);
      if !Collision(f, a, b, c, d) {
        NodeAbove(f, hs, i);
        a, b := if i % 2 == 1 then e else hash, if i % 2 == 1 then hash else e;
        c, d := if i % 2 == 1 then s else hs[i], if i % 2 == 1 then hs[i] else s;
        assert branch == [e] + branch[1..];
      }
    }
  }

  /** A root of the natural length binds the leaf and the branch. */
  lemma RootBinds(f: HashFunc, hs: seq<Hash>, i: nat, hash: Hash, branch: seq<Hash>)
    returns (a: Hash, b: Hash, c: Hash, d: Hash)
    requires i < |hs| && |branch| == CeilLog2(|hs|)
    requires Climb(f, hash, branch, i) == RootAt(f, hs, |branch|)
    ensures (hash == hs[i] && branch == Branch(f, hs, i, |branch|)) || Collision(f, a, b, c, d)
  {
    ShrBelow(i, |hs|, |branch|);
    HalvedToOne(|hs|, |branch|);
    a, b, c, d := ProofBinds(f, hs, i, hash, branch);
  }

  // ---- cutting the tree at a level ----

  /** Pairing up a slice that starts at an even position and ends at one, or at the end. */
  lemma NextSlice(f: HashFunc, hs: seq<Hash>, a: nat, b: nat)
    requires 2 * a < b <= |hs| && (b % 2 == 0 || b == |hs|)
    ensures NextLevel(f, hs[2 * a..b]) == NextLevel(f, hs)[a..(b + 1) / 2]
  {
    hide NextLevel;
    var s := hs[2 * a..b];
    var l, r := NextLevel(f, s), NextLevel(f, hs)[a..(b + 1) / 2];
    forall k | 0 <= k < |l|
      ensures l[k] == r[k]
    {
      NextAt(f, s, k);
      NextAt(f, hs, a + k);
      assert s[2 * k] == hs[2 * (a + k)];
      assert At(s, 2 * k + 1) == At(hs, 2 * (a + k) + 1);
    }
  }

  /** Layer d of a whole number of segments is a slice of layer d. */
  lemma {:induction false} UpSlice(f: HashFunc, hs: seq<Hash>, d: nat, a: nat, b: nat, c: nat)
    requires Shl(a, d) < b <= |hs| && (b == Shl(c, d) || b == |hs|)
    ensures a <= Halves(b, d) <= |Up(f, hs, d)|
    ensures Up(f, hs[Shl(a, d)..b], d) == Up(f, hs, d)[a..Halves(b, d)]
    decreases d
  {
    hide NextLevel, Shl, Up;
    UpUnfold(f, hs, d);
    if d == 0 {
      ShlNone(a);
      ShlNone(c);
      UpUnfold(f, hs[a..b], 0);
    } else {
      var start, next := Shl(a, d - 1), NextLevel(f, hs);
      ShlStep(a, d);
      ShlStep(c, d);
      NextSlice(f, hs, start, b);
      UpUnfold(f, hs[2 * start..b], d);
      UpSlice(f, next, d - 1, a, (b + 1) / 2, c);
    }
  }

  lemma UpUnfold(f: HashFunc, hs: seq<Hash>, d: nat)
    ensures Up(f, hs, d) == if d == 0 then hs else Up(f, NextLevel(f, hs), d - 1)
  {
    hide NextLevel;
  }

  lemma ShlNone(a: nat)
    ensures Shl(a, 0) == a
  {
  }

  lemma SiblingSame(hs: seq<Hash>, start: nat, b: nat, i: nat)
    requires start <= i < b <= |hs| && start % 2 == 0 && (b % 2 == 0 || b == |hs|)
    ensures At(hs[start..b], Sibling(i - start)) == At(hs, Sibling(i))
  {
  }

  /** The siblings of a position below one hash of layer d lie below that hash. */
  lemma {:induction false} BranchSlice(f: HashFunc, hs: seq<Hash>, d: nat, a: nat, b: nat, i: nat)
    requires Shl(a, d) <= i < b <= |hs| && (b == Shl(a + 1, d) || (b == |hs| && b < Shl(a + 1, d)))
    ensures Branch(f, hs[Shl(a, d)..b], i - Shl(a, d), d) == Branch(f, hs, i, d)
    decreases d
  {
    hide NextLevel, At, Sibling, Branch, Shl;
    var s := hs[Shl(a, d)..b];
    BranchUnfold(f, hs, i, d);
    BranchUnfold(f, s, i - Shl(a, d), d);
    if d == 0 {
      assert Branch(f, s, i - Shl(a, d), 0) == [];
    } else {
      var start, next := Shl(a, d - 1), NextLevel(f, hs);
      ShlStep(a, d);
      ShlStep(a + 1, d);
      SliceHalved(start, i, b, Shl(a + 1, d - 1), |hs|);
      NextSlice(f, hs, start, b);
      BranchSlice(f, next, d - 1, a, (b + 1) / 2, i / 2);
      SiblingSame(hs, 2 * start, b, i);
    }
  }

  lemma ShlStep(a: nat, d: nat)
    requires d > 0
    ensures Shl(a, d) == 2 * Shl(a, d - 1)
  {
  }

  /** A segment and a position in it, halved. */
  lemma SliceHalved(start: nat, i: nat, b: nat, end: nat, n: nat)
    requires 2 * start <= i < b <= n && (b == 2 * end || (b == n && b < 2 * end))
    ensures start <= i / 2 < (b + 1) / 2 <= (n + 1) / 2 && (i - 2 * start) / 2 == i / 2 - start
    ensures (b + 1) / 2 == end || ((b + 1) / 2 == (n + 1) / 2 && (b + 1) / 2 < end)
    ensures b % 2 == 0 || b == n
  {
  }

  /** Going up d and then e more is going up d + e; the branches join. */
  lemma {:induction false} UpJoin(f: HashFunc, hs: seq<Hash>, d: nat, e: nat, i: nat)
    requires i < |hs|
    ensures Up(f, Up(f, hs, d), e) == Up(f, hs, d + e)
    ensures Shr(i, d) < |Up(f, hs, d)|
    ensures Branch(f, hs, i, d + e) == Branch(f, hs, i, d) + Branch(f, Up(f, hs, d), Shr(i, d), e)
    decreases d
  {
    hide NextLevel, Branch, At, Sibling;
    ShrBelow(i, |hs|, d);
    BranchUnfold(f, hs, i, d);
    if d == 0 {
      assert [] + Branch(f, hs, i, e) == Branch(f, hs, i, e);
    } else {
      var next := NextLevel(f, hs);
      UpJoin(f, next, d - 1, e, i / 2);
      BranchUnfold(f, hs, i, d + e);
      Assoc([At(hs, Sibling(i))], Branch(f, next, i / 2, d - 1), Branch(f, Up(f, hs, d), Shr(i, d), e));
    }
  }

  lemma LevelStart(f: HashFunc, hs: seq<Hash>, d: nat)
    ensures Shl(0, d) == 0 && Up(f, hs, d)[..0] == []
  {
    ShlZero(d);
  }

  /** One segment of leaves has the hash of layer d above it as its root. */
  lemma SubtreeRoot(f: HashFunc, hs: seq<Hash>, d: nat, k: nat, segment: seq<Hash>)
    requires Shl(k, d) < |hs|
    requires segment == hs[Shl(k, d)..if Shl(k, d) + Shl(1, d) <= |hs| then Shl(k, d) + Shl(1, d) else |hs|]
    ensures k < |Up(f, hs, d)| && segment != [] && CeilLog2(|segment|) <= d
    ensures RootAt(f, segment, d) == Up(f, hs, d)[k]
    ensures Up(f, hs, d)[..k + 1] == Up(f, hs, d)[..k] + [Up(f, hs, d)[k]]
  {
    hide Up;
    var b := if Shl(k, d) + Shl(1, d) <= |hs| then Shl(k, d) + Shl(1, d) else |hs|;
    HalfPositive(d);
    ShlAdds(k, 1, d);
    CeilLog2Bounds(|segment|, d);
    HalvedToOne(|segment|, d);
    UpSlice(f, hs, d, k, b, k + 1);
  }

  lemma LevelEnd(f: HashFunc, hs: seq<Hash>, d: nat, k: nat)
    requires |hs| <= Shl(k, d) && k <= |Up(f, hs, d)|
    ensures Up(f, hs, d)[..k] == Up(f, hs, d)
  {
    HalvesIs(|hs|, d, k);
  }

  /** Cutting the tree at layer d: the part below position i and the part above. */
  lemma LevelCut(f: HashFunc, hs: seq<Hash>, i: nat, d: nat)
    requires i < |hs|
    ensures var s, leaves, level := Shl(Shr(i, d), d), LeavesFor(hs, i, d), Up(f, hs, d);
      && s <= i && i - s < |leaves| && CeilLog2(|leaves|) <= d
      && Shr(i, d) < |level| && RootAt(f, leaves, d) == level[Shr(i, d)]
      && Branch(f, leaves, i - s, d) == Branch(f, hs, i, d)
      && var e := CeilLog2(|level|);
         && CeilLog2(|hs|) <= d + e && (d <= CeilLog2(|hs|) ==> CeilLog2(|hs|) == d + e)
         && Branch(f, hs, i, d + e) == Branch(f, hs, i, d) + Branch(f, level, Shr(i, d), e)
         && RootAt(f, hs, d + e) == RootAt(f, level, e)
  {
    hide Up, Branch, NextLevel, Shl, Shr, CeilLog2, Halves;
    var a := Shr(i, d);
    Shifted(i, d);
    ShlAdds(a, 1, d);
    SubtreeRoot(f, hs, d, a, LeavesFor(hs, i, d));
    var b := if Shl(a, d) + Shl(1, d) <= |hs| then Shl(a, d) + Shl(1, d) else |hs|;
    BranchSlice(f, hs, d, a, b, i);
    UpJoin(f, hs, d, CeilLog2(|Up(f, hs, d)|), i);
    if d <= CeilLog2(|hs|) {
      CeilLog2Splits(|hs|, d);
    }
  }

  /** The last step up: one subtree hashed with itself, or two with each other. */
  lemma LastStep(f: HashFunc, hs: seq<Hash>, d: nat)
    requires hs != [] && |hs| <= Shl(1, d + 1)
    ensures |hs| <= Shl(1, d) ==> RootAt(f, hs, d + 1) == f(RootAt(f, hs, d) + RootAt(f, hs, d))
    ensures |hs| > Shl(1, d) ==>
      RootAt(f, hs, d + 1) == f(RootAt(f, hs[..Shl(1, d)], d) + RootAt(f, hs[Shl(1, d)..], d))
  {
    hide NextLevel, Branch;
    var half, top := Shl(1, d), Up(f, hs, d);
    HalfPositive(d);
    ShlZero(d);
    UpJoin(f, hs, d, 1, 0);
    OneUp(f, top);
    NextAt(f, top, 0);
    SubtreeRoot(f, hs, d, 0, hs[..if half <= |hs| then half else |hs|]);
    if |hs| <= half {
      HalvesIs(|hs|, d, 1);
    } else {
      HalvesIs(|hs|, d, 1);
      SubtreeRoot(f, hs, d, 1, hs[half..]);
    }
  }

  lemma OneUp(f: HashFunc, hs: seq<Hash>)
    ensures Up(f, hs, 1) == NextLevel(f, hs)
  {
    hide NextLevel;
    assert Up(f, NextLevel(f, hs), 0) == NextLevel(f, hs);
  }

  /** Layer by layer from the bottom, or halving from the top: the same root. */
  lemma {:induction false} TopDown(f: HashFunc, hs: seq<Hash>, d: nat)
    requires hs != [] && |hs| <= Shl(1, d)
    ensures RootAt(f, hs, d) == TreeRoot(f, hs, d)
  {
    hide NextLevel, Up, RootAt;
    if d == 0 {
      RootOfOne(f, hs);
    } else {
      var half := Shl(1, d - 1);
      HalfPositive(d - 1);
      LastStep(f, hs, d - 1);
      if |hs| <= half {
        TopDown(f, hs, d - 1);
      } else {
        TopDown(f, hs[..half], d - 1);
        TopDown(f, hs[half..], d - 1);
      }
    }
  }

  lemma RootOfOne(f: HashFunc, hs: seq<Hash>)
    requires hs != []
    ensures RootAt(f, hs, 0) == hs[0]
  {
  }
}
