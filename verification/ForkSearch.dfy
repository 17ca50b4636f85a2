/** The search for the height at which our chain and the daemon's part. */
module ForkSearch {
  import opened Types
  import opened Powers

  /** The chains agree below height f and nowhere from f up. */
  ghost predicate PartAt(ours: seq<Hash>, theirs: seq<Hash>, f: nat) {
    && f <= |ours|
    && forall i :: 0 <= i < |ours| && i < |theirs| ==> (ours[i] == theirs[i] <==> i < f)
  }

  /** The lowest height a real search probes. */
  ghost function LowestProbe(height: nat): int
    requires height >= 1
  {
    height + 1 - Pow2(Log2(height))
  }

  /** Index of the first difference; the length of the lists if they match. */
  method DiffPos(hashes1: seq<Hash>, hashes2: seq<Hash>) returns (n: nat)
    requires |hashes1| == |hashes2|
    ensures n <= |hashes1| && hashes1[..n] == hashes2[..n]
    ensures n < |hashes1| ==> hashes1[n] != hashes2[n]
  {
    n := 0;
    while n < |hashes1|
      invariant n <= |hashes1| && hashes1[..n] == hashes2[..n]
    {
      if hashes1[n] != hashes2[n] {
        return;
      }
      n := n + 1;
    }
  }

  /** Step back in doubling strides until our hashes match the daemon's.  The
      answer is the fork when it lies above the lowest probe, else 0, which is
      never above the fork. */
  method CalcReorgRange(ours: seq<Hash>, theirs: seq<Hash>, height: nat, ghost f: nat)
    returns (start: nat, count: nat, ghost queries: nat)
    requires height >= 1 && |ours| == height + 1 && |theirs| >= height
    requires f <= height && PartAt(ours, theirs, f)
    ensures start == if f > LowestProbe(height) then f else 0
    ensures count == height - start + 1
    ensures queries <= Log2(height - f + 1) + 1
    ensures start > 0 ==> queries == Log2(height - f + 1) + 1
  {
    start, count, queries := height - 1, 1, 0;
    while start > 0
      invariant start < height && f <= start + count <= height
      invariant start > 0 ==> start == height + 1 - 2 * count && count == Pow2(queries)
      invariant start == 0 ==> Pow2(queries) <= height < 2 * Pow2(queries) && f <= height + 1 - Pow2(queries)
      decreases start
    {
      var hashes := ours[start..start + count];
      var dHashes := theirs[start..start + count];
      var n := DiffPos(hashes, dHashes);
      queries := queries + 1;
      assert hashes[0] == ours[start] && dHashes[0] == theirs[start];
      if n > 0 {
        FirstDifference(ours, theirs, f, start, count, n);
        BreakFacts(height, f, queries);
        start := start + n;
        break;
      }
      count := if count * 2 <= start then count * 2 else start;
      start := start - count;
    }
    if start == 0 {
      Log2Is(height, queries);
      Log2AtLeast(height - f + 1, queries);
    }
    count := height - start + 1;
  }

  lemma FirstDifference(ours: seq<Hash>, theirs: seq<Hash>, f: nat, start: nat, count: nat, n: nat)
    requires PartAt(ours, theirs, f) && start + count <= |ours| && start + count <= |theirs|
    requires 0 < n <= count && f <= start + count
    requires ours[start..start + count][..n] == theirs[start..start + count][..n]
    requires n < count ==> ours[start..start + count][n] != theirs[start..start + count][n]
    ensures start + n == f
  {
    assert ours[start + n - 1] == ours[start..start + count][..n][n - 1];
    assert theirs[start + n - 1] == theirs[start..start + count][..n][n - 1];
  }

  lemma BreakFacts(height: nat, f: nat, q: nat)
    requires q >= 1 && height >= 1 && f <= height
    requires 0 < height + 1 - Pow2(q) < f <= height + 1 - Pow2(q - 1)
    ensures f > LowestProbe(height) && Log2(height - f + 1) + 1 == q
  {
    Log2Is(height - f + 1, q - 1);
    Log2AtLeast(height, q);
    Pow2Grows(q, Log2(height));
  }

  /** Only a fork in the lower half of the chain can be missed, and one can be:
      at height 1 no query is made and a fork at 1 is answered by 0. */
  lemma MissedForks(height: nat)
    requires height >= 1
    ensures 1 <= LowestProbe(height) && 2 * LowestProbe(height) <= height + 1
    ensures LowestProbe(1) == 1 && LowestProbe(7) == 4
  {
    Log2Is(height, Log2(height));
    Log2Is(1, 0);
    Log2Is(7, 2);
    assert Pow2(1) == 2 && Pow2(2) == 4;
  }
}
