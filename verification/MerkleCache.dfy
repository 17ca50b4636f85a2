/** A merkle tree cached at a middle level over a source of hashes that grows
    and, after a truncation, may change. */
module MerkleCache {
  import opened Types
  import opened Powers
  import opened Merkle

  /** What the source function returns; None where it raises. */
  function Fetch(source: seq<Hash>, index: nat, count: nat): Option<seq<Hash>> {
    if index + count <= |source| then Some(source[index..index + count]) else None
  }

  class Cache {
    const f: HashFunc
    var length: nat
    var level: seq<Hash>
    var depthHigher: nat
    var initialized: bool

    /** The level is that of the naive tree over the covered prefix of the source. */
    ghost predicate Holds(source: seq<Hash>)
      reads `length, `level, `depthHigher
    {
      length <= |source| && level == Up(f, source[..length], depthHigher)
    }

    constructor (f: HashFunc)
      ensures this.f == f && length == 0 && !initialized
      ensures forall source :: Holds(source)
    {
      this.f := f;
      length, level, depthHigher, initialized := 0, [], 0, false;
    }

    function SegmentLength(): nat
      reads `depthHigher
    {
      Shl(1, depthHigher)
    }

    function LeafStart(index: nat): nat
      reads `depthHigher
    {
      Shl(Shr(index, depthHigher), depthHigher)
    }

    /** Cover the first `length` hashes; refused if there are none or the source has fewer. */
    method Initialize(length: nat, source: seq<Hash>) returns (ok: bool)
      modifies this
      ensures ok <==> 1 <= length <= |source|
      ensures ok ==> Holds(source) && initialized && this.length == length
      ensures ok ==> depthHigher == (CeilLog2(length) + 1) / 2
      ensures !ok ==> initialized == old(initialized)
    {
      this.length := length;
      if length < 1 {
        return false;
      }
      depthHigher := (CeilLog2(length) + 1) / 2;
      var hashes := Fetch(source, 0, length);
      if hashes.None? {
        return false;
      }
      level := Level(f, hashes.value, depthHigher);
      initialized := true;
      ok := true;
    }

    /** Extend the covered prefix, from the start of the last partial segment. */
    method ExtendTo(length: nat, source: seq<Hash>) returns (ok: bool)
      requires Holds(source)
      modifies `length, `level
      ensures Holds(source) && (ok <==> length <= |source|)
      ensures ok ==> this.length == if length <= old(this.length) then old(this.length) else length
      ensures !ok ==> this.length == old(this.length)
    {
      hide Up;
      if length <= this.length {
        return true;
      }
      var start := LeafStart(this.length);
      Shifted(this.length, depthHigher);
      var hashes := Fetch(source, start, length - start);
      if hashes.None? {
        return false;
      }
      var cut := Shr(start, depthHigher);
      Extended(f, source, depthHigher, Shr(this.length, depthHigher), this.length, length);
      var more := Level(f, hashes.value, depthHigher);
      level := level[..cut] + more;
      this.length := length;
      ok := true;
    }

    /** The level of the naive tree over a covered prefix. */
    method LevelFor(length: nat, source: seq<Hash>) returns (r: seq<Hash>)
      requires Holds(source) && length <= this.length
      ensures r == Up(f, source[..length], depthHigher)
    {
      hide Up;
      if length == this.length {
        return level;
      }
      var a := Shr(length, depthHigher);
      Shifted(length, depthHigher);
      ShlAdds(a, 1, depthHigher);
      Extended(f, source, depthHigher, a, this.length, length);
      var leafStart := LeafStart(length);
      HalvesOfShl(a, depthHigher);
      var count := if SegmentLength() <= length - leafStart then SegmentLength() else length - leafStart;
      var hashes := Fetch(source, leafStart, count);
      var more := Level(f, hashes.value, depthHigher);
      r := level[..a] + more;
    }

    /** Cover no more than the first `length` hashes; refused if length is not positive. */
    method Truncate(length: int) returns (ok: bool)
      modifies `length, `level
      ensures ok <==> length > 0
      ensures !ok ==> this.length == old(this.length) && level == old(level)
      ensures ok ==> this.length <= length && this.length <= old(this.length)
      ensures forall source :: old(Holds(source)) ==> Holds(source)
    {
      hide Up;
      if length <= 0 {
        return false;
      }
      ok := true;
      if length >= this.length {
        return;
      }
      Shifted(length, depthHigher);
      var cut := LeafStart(length);
      ghost var n, l := this.length, level;
      HalvesOfShl(Shr(length, depthHigher), depthHigher);
      forall source | old(Holds(source))
        ensures Shr(cut, depthHigher) <= |l|
        ensures l[..Shr(cut, depthHigher)] == Up(f, source[..cut], depthHigher)
      {
        Shortened(f, source[..n], depthHigher, Shr(length, depthHigher));
        assert source[..n][..cut] == source[..cut];
      }
      this.length := cut;
      if Shr(cut, depthHigher) < |level| {
        level := level[..Shr(cut, depthHigher)];
      }
    }

    /** The branch and root over the first `length` hashes; None where the query is refused. */
    method BranchAndRoot(length: int, index: int, source: seq<Hash>) returns (r: Option<(seq<Hash>, Hash)>)
      requires Holds(source) && initialized
      modifies `length, `level
      ensures Holds(source)
      ensures r == Answer(f, source, length, index)
    {
      hide Up, Branch, NextLevel, RootAt, LeavesFor, Shl, Shr, Halves, CeilLog2;
      if length <= 0 || index >= length {
        return None;
      }
      var ok := ExtendTo(length, source);
      if !ok {
        return None;
      }
      if index < 0 {
        // its segment starts below 0, where the source has nothing
        return None;
      }
      var leafStart := LeafStart(index);
      Shifted(index, depthHigher);
      ShlAdds(Shr(index, depthHigher), 1, depthHigher);
      ghost var hashes := source[..length];
      var count := if SegmentLength() <= length - leafStart then SegmentLength() else length - leafStart;
      var leafHashes := Fetch(source, leafStart, count);
      LeavesAre(source, length, index, depthHigher);
      if length < SegmentLength() {
        ShortTree(length, index, depthHigher);
        r := Merkle.BranchAndRoot(f, leafHashes.value, index, None);
        return;
      }
      CeilLog2Bounds(length, depthHigher);
      HalvesPositive(length, depthHigher);
      var levelFor := LevelFor(length, source);
      r := BranchAndRootFromLevel(f, levelFor, leafHashes.value, index, depthHigher, hashes);
    }
  }

  /** The naive answer to a query. */
  ghost function Answer(f: HashFunc, source: seq<Hash>, length: int, index: int): Option<(seq<Hash>, Hash)> {
    if !(0 <= index < length <= |source|) then None
    else Proved(f, source[..length], index, None)
  }

  // ---- runs ----

  /** A query, a fresh start covering the first hashes, or a truncation to n after
      which the hashes from n up are new. */
  datatype Event =
    | Query(length: int, index: int)
    | Start(covered: nat)
    | Reorg(n: int, source: seq<Hash>)

  /** Each new source agrees with the old one below the truncation. */
  ghost predicate Admissible(source: seq<Hash>, events: seq<Event>)
    decreases |events|
  {
    events == [] ||
    match events[0]
    case Query(_, _) => Admissible(source, events[1..])
    case Start(covered) => 1 <= covered <= |source| && Admissible(source, events[1..])
    case Reorg(n, source') =>
      0 < n <= |source| && n <= |source'| && source[..n] == source'[..n] && Admissible(source', events[1..])
  }

  /** The answers of the naive tree. */
  ghost function Answers(f: HashFunc, source: seq<Hash>, events: seq<Event>): seq<Option<(seq<Hash>, Hash)>>
    decreases |events|
  {
    if events == [] then []
    else
      match events[0]
      case Query(length, index) => [Answer(f, source, length, index)] + Answers(f, source, events[1..])
      case Start(_) => Answers(f, source, events[1..])
      case Reorg(_, source') => Answers(f, source', events[1..])
  }

  /** Over any run of queries, truncations and changes of the source, the cache
      answers like the naive tree. */
  method Run(cache: Cache, source0: seq<Hash>, events: seq<Event>)
    returns (answers: seq<Option<(seq<Hash>, Hash)>>)
    requires cache.Holds(source0) && cache.initialized && Admissible(source0, events)
    modifies cache
    ensures answers == Answers(cache.f, source0, events)
  {
    hide Answer, Cache.Holds;
    answers := [];
    var source, rest := source0, events;
    while rest != []
      invariant cache.Holds(source) && cache.initialized && Admissible(source, rest)
      invariant answers + Answers(cache.f, source, rest) == Answers(cache.f, source0, events)
      decreases |rest|
    {
      match rest[0] {
      case Query(length, index) =>
        var r := cache.BranchAndRoot(length, index, source);
        assert Answers(cache.f, source, rest) == [r] + Answers(cache.f, source, rest[1..]);
        answers := answers + [r];
      case Start(covered) =>
        var _ := cache.Initialize(covered, source);
      case Reorg(n, source') =>
        var _ := cache.Truncate(n);
        StillHolds(cache, source, source', n);
        source := source';
      }
      rest := rest[1..];
    }
  }

  /** The cache does not see changes from its length up. */
  lemma StillHolds(cache: Cache, source: seq<Hash>, source': seq<Hash>, n: nat)
    requires cache.Holds(source) && cache.length <= n <= |source| && n <= |source'| && source[..n] == source'[..n]
    ensures cache.Holds(source')
  {
    hide Up;
    assert source[..cache.length] == source[..n][..cache.length] == source'[..cache.length];
  }

  // ---- lemmas ----

  /** A level of a prefix cut at a segment boundary a, then the rest of a longer prefix. */
  lemma Extended(f: HashFunc, source: seq<Hash>, d: nat, a: nat, n: nat, length: nat)
    requires Shl(a, d) <= n <= |source| && Shl(a, d) <= length <= |source|
    ensures a <= |Up(f, source[..n], d)| && Shr(Shl(a, d), d) == a
    ensures Up(f, source[..length], d) == Up(f, source[..n], d)[..a] + Up(f, source[Shl(a, d)..length], d)
  {
    hide Up;
    var s := Shl(a, d);
    HalvesOfShl(a, d);
    Shortened(f, source[..n], d, a);
    Shortened(f, source[..length], d, a);
    assert source[..n][..s] == source[..s] == source[..length][..s];
    if s < length {
      UpSlice(f, source[..length], d, a, length, a);
      assert source[..length][s..length] == source[s..length];
    } else {
      UpEmpty(f, d);
      assert source[s..length] == [] && source[..length] == source[..s];
    }
  }

  /** Whole segments from the left keep their part of the level. */
  lemma Shortened(f: HashFunc, hs: seq<Hash>, d: nat, a: nat)
    requires Shl(a, d) <= |hs|
    ensures a <= |Up(f, hs, d)| && Up(f, hs, d)[..a] == Up(f, hs[..Shl(a, d)], d)
  {
    hide Up;
    HalvesOfShl(a, d);
    ShlZero(d);
    if Shl(a, d) > 0 {
      UpSlice(f, hs, d, 0, Shl(a, d), a);
      assert hs[0..Shl(a, d)] == hs[..Shl(a, d)];
    } else {
      assert a == 0 by {
        HalvesOfShl(0, d);
      }
      UpEmpty(f, d);
    }
  }

  lemma {:induction false} UpEmpty(f: HashFunc, d: nat)
    ensures Up(f, [], d) == []
  {
    if d > 0 {
      assert NextLevel(f, []) == [];
      UpEmpty(f, d - 1);
    }
  }

  lemma LeavesAre(source: seq<Hash>, length: nat, index: nat, d: nat)
    requires index < length <= |source|
    ensures var s := Shl(Shr(index, d), d);
      && s <= index
      && var count := if Shl(1, d) <= length - s then Shl(1, d) else length - s;
         && s + count <= length
         && source[s..s + count] == LeavesFor(source[..length], index, d)
  {
    Shifted(index, d);
    var s := Shl(Shr(index, d), d);
    var count := if Shl(1, d) <= length - s then Shl(1, d) else length - s;
    assert source[s..s + count] == source[..length][s..s + count];
  }

  /** A tree shorter than a segment has all its leaves in the first one. */
  lemma ShortTree(length: nat, index: nat, d: nat)
    requires index < length < Shl(1, d)
    ensures Shr(index, d) == 0 && Shl(0, d) == 0
  {
    Shifted(index, d);
    ShlZero(d);
    if Shr(index, d) > 0 {
      ShlAdds(1, Shr(index, d) - 1, d);
    }
  }
}
