/** What compaction makes of the rows of one address, and what cancelling it half way means. */
module CompactionRows {
  import opened Types
  import opened HistoryRows

  ghost function Flat(rs: seq<seq<nat>>): seq<nat> {
    if rs == [] then [] else Flat(rs[..|rs| - 1]) + rs[|rs| - 1]
  }

  ghost predicate AllFull(rs: seq<seq<nat>>, max: nat) {
    forall i :: 0 <= i < |rs| ==> |rs[i]| == max
  }

  /** Every row full but the last, which is not empty. */
  ghost predicate FullRows(rs: seq<seq<nat>>, max: nat) {
    rs == [] || (AllFull(rs[..|rs| - 1], max) && 0 < |rs[|rs| - 1]| <= max)
  }

  /** The rows of h are exactly rs, numbered from 0. */
  ghost predicate RowsAre(rows: Rows, h: HashX, rs: seq<seq<nat>>) {
    && (forall id: nat :: RowKey(h, id) in rows <==> id < |rs|)
    && (forall id: nat :: id < |rs| ==> Row(rows, h, id) == rs[id])
  }

  ghost predicate IsCompact(rows: Rows, h: HashX, max: nat, top: int) {
    exists rs :: RowsAre(rows, h, rs) && FullRows(rs, max) && |rs| - 1 <= top
  }

  // ---- Flat and full rows ----

  lemma {:induction false} FlatConcat(a: seq<seq<nat>>, b: seq<seq<nat>>)
    ensures Flat(a + b) == Flat(a) + Flat(b)
  {
    if b == [] {
      assert a + b == a;
    } else {
      var k := |b| - 1;
      assert (a + b)[..|a| + k] == a + b[..k];
      FlatConcat(a, b[..k]);
    }
  }

  lemma {:induction false} FlatPush(a: seq<seq<nat>>, r: seq<nat>)
    ensures Flat(a + [r]) == Flat(a) + r
  {
    assert (a + [r])[..|a|] == a;
  }

  lemma FlatFront(a: seq<seq<nat>>)
    requires a != []
    ensures Flat(a) == a[0] + Flat(a[1..])
  {
    assert a == [a[0]] + a[1..];
    FlatConcat([a[0]], a[1..]);
    FlatPush([], a[0]);
    assert [] + [a[0]] == [a[0]];
  }

  lemma FullRowsFront(a: seq<seq<nat>>, max: nat)
    requires a != [] && FullRows(a, max)
    ensures FullRows(a[1..], max)
    ensures |a| > 1 ==> |a[0]| == max && |Flat(a[1..])| > 0
    ensures 0 < |a[0]| <= max
  {
    if |a| > 1 {
      assert a[1..][..|a| - 2] == a[..|a| - 1][1..];
      assert a[0] == a[..|a| - 1][0];
      var b := a[1..];
      assert Flat(b) == Flat(b[..|b| - 1]) + b[|b| - 1];
    }
  }

  /** A list of numbers has only one cutting into full rows. */
  lemma {:induction false} FullRowsUnique(a: seq<seq<nat>>, b: seq<seq<nat>>, max: nat)
    requires FullRows(a, max) && FullRows(b, max) && Flat(a) == Flat(b)
    ensures a == b
  {
    if a == [] || b == [] {
      if a != [] {
        FlatFront(a);
        FullRowsFront(a, max);
      }
      if b != [] {
        FlatFront(b);
        FullRowsFront(b, max);
      }
    } else {
      FlatFront(a);
      FlatFront(b);
      FullRowsFront(a, max);
      FullRowsFront(b, max);
      if |a| == 1 || |b| == 1 {
        assert |Flat(a)| == |a[0]| + |Flat(a[1..])| && |Flat(b)| == |b[0]| + |Flat(b[1..])|;
        assert |a| == |b| == 1;
        assert Flat(a) == a[0] && Flat(b) == b[0];
      } else {
        var f := Flat(a);
        assert a[0] == f[..max] == b[0];
        assert Flat(a[1..]) == f[max..] == Flat(b[1..]);
        FullRowsUnique(a[1..], b[1..], max);
      }
      assert a == [a[0]] + a[1..] && b == [b[0]] + b[1..];
    }
  }

  lemma {:induction false} RowsAreJoined(rows: Rows, h: HashX, rs: seq<seq<nat>>, n: nat)
    requires RowsAre(rows, h, rs) && n <= |rs|
    ensures Joined(rows, h, n) == Flat(rs[..n])
  {
    if n > 0 {
      RowsAreJoined(rows, h, rs, n - 1);
      assert rs[..n][..n - 1] == rs[..n - 1];
    }
  }

  lemma RowsAreHistory(rows: Rows, h: HashX, rs: seq<seq<nat>>)
    requires RowsAre(rows, h, rs) && |rs| <= IDS
    ensures HistoryOf(rows, h) == Flat(rs)
  {
    RowsAreJoined(rows, h, rs, |rs|);
    assert rs[..|rs|] == rs;
    forall id: nat | |rs| <= id < IDS
      ensures Row(rows, h, id) == []
    {
      assert RowKey(h, id) !in rows;
    }
    JoinedBeyond(rows, h, |rs|, IDS);
  }

  /** The number of full rows is bounded by the number of entries. */
  lemma {:induction false} FullCount(rs: seq<seq<nat>>, max: nat)
    requires AllFull(rs, max)
    ensures |Flat(rs)| == max * |rs|
  {
    if rs != [] {
      var k := |rs| - 1;
      FullCount(rs[..k], max);
      assert max * |rs| == max * k + max;
    }
  }

  lemma RowsFit(rs: seq<seq<nat>>, max: nat, fit: nat)
    requires max >= 1 && FullRows(rs, max) && |Flat(rs)| <= max * fit
    ensures |rs| <= fit
  {
    if rs != [] {
      var k := |rs| - 1;
      FullCount(rs[..k], max);
      assert max * k < max * fit;
      if k >= fit {
        MulMono(max, fit, k);
      }
    }
  }

  lemma MulMono(m: nat, a: nat, b: nat)
    requires a <= b
    ensures m * a <= m * b
  {
  }

  // ---- the batch of one address ----

  ghost function AsMap(items: seq<(RowKey, seq<nat>)>): Rows {
    if items == [] then map[]
    else AsMap(items[..|items| - 1])[items[|items| - 1].0 := items[|items| - 1].1]
  }

  lemma AsMapPush(items: seq<(RowKey, seq<nat>)>, k: RowKey, v: seq<nat>)
    ensures AsMap(items + [(k, v)]) == AsMap(items)[k := v]
  {
    assert (items + [(k, v)])[..|items|] == items;
  }

  /** Deletes first, then puts: the keys may overlap. */
  ghost function Applied(rows: Rows, keys: set<RowKey>, items: Rows): Rows {
    (rows - keys) + items
  }

  ghost predicate OnDisk(h: HashX, hist: Rows, rs: seq<seq<nat>>, i: int) {
    0 <= i < |rs| && RowKey(h, i) in hist && hist[RowKey(h, i)] == rs[i]
  }

  /** The rows that must be written: those not already on disk. */
  ghost function Written(h: HashX, hist: Rows, rs: seq<seq<nat>>): Rows {
    if rs == [] then map[]
    else
      var k := |rs| - 1;
      if OnDisk(h, hist, rs, k) then Written(h, hist, rs[..k])
      else Written(h, hist, rs[..k])[RowKey(h, k) := rs[k]]
  }

  /** The keys that need not be deleted. */
  ghost function Kept(h: HashX, hist: Rows, rs: seq<seq<nat>>): set<RowKey> {
    if rs == [] then {}
    else
      var k := |rs| - 1;
      if OnDisk(h, hist, rs, k) then Kept(h, hist, rs[..k]) + {RowKey(h, k)} else Kept(h, hist, rs[..k])
  }

  lemma WrittenStep(h: HashX, hist: Rows, rs: seq<seq<nat>>, r: seq<nat>)
    ensures var key := RowKey(h, |rs|);
      var same := key in hist && hist[key] == r;
      && Written(h, hist, rs + [r]) == (if same then Written(h, hist, rs) else Written(h, hist, rs)[key := r])
      && Kept(h, hist, rs + [r]) == (if same then Kept(h, hist, rs) + {key} else Kept(h, hist, rs))
  {
    var all := rs + [r];
    assert all[..|all| - 1] == rs;
  }

  lemma {:induction false} WrittenHas(h: HashX, hist: Rows, rs: seq<seq<nat>>, k: RowKey)
    ensures k in Written(h, hist, rs) <==> k.hashX == h && k.id < |rs| && !OnDisk(h, hist, rs, k.id)
    ensures k in Written(h, hist, rs) ==> Written(h, hist, rs)[k] == rs[k.id]
    ensures k in Kept(h, hist, rs) <==> k.hashX == h && OnDisk(h, hist, rs, k.id)
  {
    if rs != [] {
      var n := |rs| - 1;
      WrittenHas(h, hist, rs[..n], k);
      assert k.id < n ==> (OnDisk(h, hist, rs[..n], k.id) <==> OnDisk(h, hist, rs, k.id));
      assert k == RowKey(h, n) <==> k.hashX == h && k.id == n;
    }
  }

  /** hist holds exactly the rows of h. */
  ghost predicate RowsOf(rows: Rows, h: HashX, hist: Rows) {
    && (forall k :: k in hist <==> k in rows && k.hashX == h)
    && (forall k :: k in hist ==> hist[k] == rows[k])
  }

  /** Applying the batch of h leaves h with exactly the rows rs. */
  lemma BatchOfOne(rows: Rows, h: HashX, hist: Rows, rs: seq<seq<nat>>)
    requires RowsOf(rows, h, hist)
    ensures RowsAre(Applied(rows, hist.Keys - Kept(h, hist, rs), Written(h, hist, rs)), h, rs)
  {
    var out := Applied(rows, hist.Keys - Kept(h, hist, rs), Written(h, hist, rs));
    forall id: nat
      ensures RowKey(h, id) in out <==> id < |rs|
      ensures id < |rs| ==> Row(out, h, id) == rs[id]
    {
      var k := RowKey(h, id);
      WrittenHas(h, hist, rs, k);
    }
  }

  /** Rows already compact: nothing is written and nothing deleted. */
  lemma {:induction false} NothingToDo(h: HashX, hist: Rows, rs: seq<seq<nat>>)
    requires forall i :: 0 <= i < |rs| ==> OnDisk(h, hist, rs, i)
    ensures Written(h, hist, rs) == map[]
  {
    if rs != [] {
      var k := |rs| - 1;
      assert forall i :: 0 <= i < k ==> OnDisk(h, hist, rs, i) ==> OnDisk(h, hist, rs[..k], i);
      NothingToDo(h, hist, rs[..k]);
    }
  }

  // ---- the batch of several addresses ----

  /** The staged deletes and puts compact each address of `done` and touch no other. */
  ghost predicate Staged(rows: Rows, done: set<HashX>, keys: set<RowKey>, items: Rows, max: nat, top: int) {
    && (forall k :: k in keys ==> k.hashX in done)
    && (forall k :: k in items ==> k.hashX in done)
    && (forall h :: h in done ==> Compacted(rows, h, Applied(rows, keys, items), max, top))
  }

  ghost predicate Compacted(rows: Rows, h: HashX, out: Rows, max: nat, top: int) {
    IsCompact(out, h, max, top) && HistoryOf(out, h) == HistoryOf(rows, h)
  }

  lemma CompactedSame(rows: Rows, h: HashX, a: Rows, b: Rows, max: nat, top: int, top': int)
    requires Compacted(rows, h, a, max, top) && top <= top'
    requires Agree(a, b, h)
    ensures Compacted(rows, h, b, max, top')
  {
    var rs :| RowsAre(a, h, rs) && FullRows(rs, max) && |rs| - 1 <= top;
    assert RowsAre(b, h, rs);
    HistorySame(a, b, h);
  }

  /** h has the same rows in a and b. */
  ghost predicate Agree(a: Rows, b: Rows, h: HashX) {
    forall id: nat :: (RowKey(h, id) in a <==> RowKey(h, id) in b) && Row(a, h, id) == Row(b, h, id)
  }

  lemma WrittenIsOf(h: HashX, hist: Rows, rs: seq<seq<nat>>)
    ensures forall k :: k in Written(h, hist, rs) ==> k.hashX == h
    ensures forall k :: k in Kept(h, hist, rs) ==> k.hashX == h
  {
    forall k {
      WrittenHas(h, hist, rs, k);
    }
  }

  /** Batches of different addresses do not meet. */
  lemma AppliedApart(rows: Rows, done: set<HashX>, keys: set<RowKey>, items: Rows, h: HashX,
                     hk: set<RowKey>, kept: set<RowKey>, hw: Rows)
    requires h !in done
    requires (forall k :: k in keys ==> k.hashX in done) && (forall k :: k in items ==> k.hashX in done)
    requires forall k :: k in hk ==> k.hashX == h
    requires forall k :: k in kept ==> k.hashX == h
    requires forall k :: k in hw ==> k.hashX == h
    ensures var out := Applied(rows, (keys + hk) - kept, items + hw);
      && Agree(Applied(rows, hk - kept, hw), out, h)
      && forall g :: g in done ==> Agree(Applied(rows, keys, items), out, g)
  {
  }

  lemma StagedStep(rows: Rows, done: set<HashX>, keys: set<RowKey>, items: Rows, max: nat, top: int,
                   h: HashX, hist: Rows, rs: seq<seq<nat>>, top': int)
    requires Staged(rows, done, keys, items, max, top) && h !in done && RowsOf(rows, h, hist)
    requires FullRows(rs, max) && |rs| <= IDS && Flat(rs) == HistoryOf(rows, h)
    requires top <= top' && |rs| - 1 <= top'
    ensures Staged(rows, done + {h}, (keys + hist.Keys) - Kept(h, hist, rs), items + Written(h, hist, rs), max, top')
  {
    WrittenIsOf(h, hist, rs);
    AppliedApart(rows, done, keys, items, h, hist.Keys, Kept(h, hist, rs), Written(h, hist, rs));
    OneCompacted(rows, h, hist, rs, max, top');
    StagedMerge(rows, done, keys, items, max, top, h, hist.Keys, Kept(h, hist, rs), Written(h, hist, rs), top');
  }

  lemma OneCompacted(rows: Rows, h: HashX, hist: Rows, rs: seq<seq<nat>>, max: nat, top: int)
    requires RowsOf(rows, h, hist) && FullRows(rs, max) && |rs| <= IDS && |rs| - 1 <= top
    requires Flat(rs) == HistoryOf(rows, h)
    ensures Compacted(rows, h, Applied(rows, hist.Keys - Kept(h, hist, rs), Written(h, hist, rs)), max, top)
  {
    var one := Applied(rows, hist.Keys - Kept(h, hist, rs), Written(h, hist, rs));
    BatchOfOne(rows, h, hist, rs);
    RowsAreHistory(one, h, rs);
  }

  lemma StagedMerge(rows: Rows, done: set<HashX>, keys: set<RowKey>, items: Rows, max: nat, top: int,
                    h: HashX, hk: set<RowKey>, kept: set<RowKey>, hw: Rows, top': int)
    requires Staged(rows, done, keys, items, max, top) && top <= top'
    requires Compacted(rows, h, Applied(rows, hk - kept, hw), max, top')
    requires forall k :: k in hk ==> k.hashX == h
    requires forall k :: k in hw ==> k.hashX == h
    requires var out := Applied(rows, (keys + hk) - kept, items + hw);
      && Agree(Applied(rows, hk - kept, hw), out, h)
      && forall g :: g in done ==> Agree(Applied(rows, keys, items), out, g)
    ensures Staged(rows, done + {h}, (keys + hk) - kept, items + hw, max, top')
  {
    var out := Applied(rows, (keys + hk) - kept, items + hw);
    forall g | g in done + {h}
      ensures Compacted(rows, g, out, max, top')
    {
      if g == h {
        CompactedSame(rows, h, Applied(rows, hk - kept, hw), out, max, top', top');
      } else {
        CompactedSame(rows, g, Applied(rows, keys, items), out, max, top, top');
      }
    }
  }

  /** Committing the batch changes no address's history. */
  lemma CommitKeepsHistory(rows: Rows, done: set<HashX>, keys: set<RowKey>, items: Rows, max: nat, top: int, h: HashX)
    requires Staged(rows, done, keys, items, max, top)
    ensures HistoryOf(Applied(rows, keys, items), h) == HistoryOf(rows, h)
    ensures h !in done ==> Agree(rows, Applied(rows, keys, items), h)
  {
    var out := Applied(rows, keys, items);
    if h !in done {
      assert forall id: nat :: Row(out, h, id) == Row(rows, h, id);
      HistorySame(out, rows, h);
    }
  }

  // ---- cancelling a compaction ----

  /** After a cancelled compaction the next flush extends an address's history
      exactly when no row of that address has an id above the flush count. */
  lemma FlushAfterCancel(rows: Rows, flushCount: nat, h: HashX, u: seq<nat>)
    requires flushCount + 1 < IDS && IdsUpTo(rows, IDS - 1) && NonEmpty(rows)
    requires u != [] && Increasing(HistoryOf(rows, h) + u)
    ensures HistoryOf(rows[RowKey(h, flushCount + 1) := u], h) == HistoryOf(rows, h) + u
       <==> forall id: nat :: RowKey(h, id) in rows ==> id <= flushCount
  {
    var n := flushCount + 1;
    var r := rows[RowKey(h, n) := u];
    if forall id: nat :: RowKey(h, id) in rows ==> id <= flushCount {
      AppendRow(rows, h, n, u);
    } else {
      var id: nat :| RowKey(h, id) in rows && id > flushCount;
      assert Row(rows, h, id) != [];
      JoinedSame(rows, r, h, n);
      FlushLost(rows, r, h, n, id, u);
    }
  }

  /** A history held in one row by flush 1 and compacted to three rows of one entry:
      cancelled there, the next flush takes id 2 and overwrites the last of them. */
  lemma CancelUnsafe(h: HashX)
    ensures var rows := map[RowKey(h, 0) := [0], RowKey(h, 1) := [1], RowKey(h, 2) := [2]];
      && IsCompact(rows, h, 1, 2) && HistoryOf(rows, h) == HistoryOf(map[RowKey(h, 1) := [0, 1, 2]], h) == [0, 1, 2]
      && HistoryOf(rows[RowKey(h, 2) := [3]], h) == [0, 1, 3]
  {
    var rs, rs' := [[0], [1], [2]], [[0], [1], [3]];
    var rows := map[RowKey(h, 0) := [0], RowKey(h, 1) := [1], RowKey(h, 2) := [2]];
    ThreeFull(0, 1, 2);
    ThreeFull(0, 1, 3);
    assert RowsAre(rows, h, rs);
    RowsAreHistory(rows, h, rs);
    RowsAreHistory(rows[RowKey(h, 2) := [3]], h, rs');
    var before := map[RowKey(h, 1) := [0, 1, 2]];
    JoinedBeyond(before, h, 2, IDS);
    JoinedBeyond(before, h, 0, 1);
    assert Joined(before, h, 2) == Joined(before, h, 1) + Row(before, h, 1);
  }

  // ---- a compaction whose flush count was not recorded ----

  /** Opening drops the rows above the recorded flush count: an address keeps
      its history exactly when it has no such row. */
  lemma CutLoses(rows: Rows, cut: int, h: HashX)
    requires NonEmpty(rows) && IdsUpTo(rows, IDS - 1)
    ensures HistoryOf(UpTo(rows, cut), h) == HistoryOf(rows, h)
       <==> forall id: nat :: RowKey(h, id) in rows ==> id <= cut
  {
    if forall id: nat :: RowKey(h, id) in rows ==> id <= cut {
      assert forall id: nat :: Row(UpTo(rows, cut), h, id) == Row(rows, h, id);
      HistorySame(UpTo(rows, cut), rows, h);
    } else {
      var id: nat :| RowKey(h, id) in rows && id > cut;
      CutShorter(rows, cut, h, id, IDS);
    }
  }

  lemma {:induction false} CutShorter(rows: Rows, cut: int, h: HashX, id: nat, n: nat)
    requires RowKey(h, id) in rows && rows[RowKey(h, id)] != [] && id > cut
    ensures |Joined(UpTo(rows, cut), h, n)| <= |Joined(rows, h, n)| - (if id < n then 1 else 0)
  {
    if n > 0 {
      CutShorter(rows, cut, h, id, n - 1);
    }
  }

  /** A history of one address flushed once and compacted to three rows of one
      entry: the recorded flush count is still 1, and opening drops the last. */
  lemma CutUnsafe(h: HashX)
    ensures var rows := map[RowKey(h, 0) := [0], RowKey(h, 1) := [1], RowKey(h, 2) := [2]];
      && IsCompact(rows, h, 1, 2) && HistoryOf(rows, h) == HistoryOf(map[RowKey(h, 1) := [0, 1, 2]], h)
      && HistoryOf(UpTo(rows, 1), h) != HistoryOf(rows, h)
  {
    var rows := map[RowKey(h, 0) := [0], RowKey(h, 1) := [1], RowKey(h, 2) := [2]];
    CancelUnsafe(h);
    CutLoses(rows, 1, h);
    assert RowKey(h, 2) in rows;
  }

  lemma ThreeFull(a: nat, b: nat, c: nat)
    ensures FullRows([[a], [b], [c]], 1) && Flat([[a], [b], [c]]) == [a, b, c]
  {
    var two := [[a], [b]];
    assert [[a], [b], [c]][..2] == two && two[..1] == [[a]] && [[a]][..0] == [];
    assert Flat([[a]]) == Flat([]) + [a] == [a];
    assert Flat(two) == Flat([[a]]) + [b] == [a, b];
    assert Flat([[a], [b], [c]]) == Flat(two) + [c];
  }

  lemma FlushLost(rows: Rows, r: Rows, h: HashX, n: nat, id: nat, u: seq<nat>)
    requires n < IDS && n <= id < IDS && r == rows[RowKey(h, n) := u]
    requires RowKey(h, id) in rows && rows[RowKey(h, id)] != [] && u != []
    requires Increasing(HistoryOf(rows, h) + u)
    ensures HistoryOf(r, h) != HistoryOf(rows, h) + u
  {
    hide Increasing, AllBelow;
    JoinedSplit(rows, h, n + 1, IDS);
    JoinedSplit(r, h, n + 1, IDS);
    JoinedSame(rows, r, h, n);
    var a, old1, after := Joined(rows, h, n), Row(rows, h, n), Rest(rows, h, n + 1, IDS);
    RestSame(rows, r, h, n + 1, IDS);
    if id > n {
      RestHas(rows, h, n + 1, IDS, id);
    }
    NotMoved(a, old1, u, after);
  }

  /** Putting u in the place of old1 is not appending u, when something follows or is lost. */
  lemma NotMoved(a: seq<nat>, old1: seq<nat>, u: seq<nat>, after: seq<nat>)
    requires u != [] && (old1 != [] || after != [])
    requires Increasing((a + old1 + after) + u)
    ensures a + u + after != (a + old1 + after) + u
  {
    if old1 == [] {
      var whole := a + old1 + after;
      IncreasingSplit(whole, u);
      assert whole[|a|] == after[0];
      assert (a + u + after)[|a|] == u[0];
      assert (whole + u)[|a|] == after[0];
    } else {
      assert |a + u + after| < |(a + old1 + after) + u|;
    }
  }

  /** The rows m .. n - 1 of h, joined. */
  ghost function Rest(rows: Rows, h: HashX, m: nat, n: nat): seq<nat>
    requires m <= n
  {
    if m == n then [] else Rest(rows, h, m, n - 1) + Row(rows, h, n - 1)
  }

  lemma {:induction false} JoinedSplit(rows: Rows, h: HashX, m: nat, n: nat)
    requires m <= n
    ensures Joined(rows, h, n) == Joined(rows, h, m) + Rest(rows, h, m, n)
  {
    if m < n {
      JoinedSplit(rows, h, m, n - 1);
    }
  }

  lemma {:induction false} RestSame(a: Rows, b: Rows, h: HashX, m: nat, n: nat)
    requires m <= n && forall id :: m <= id < n ==> Row(a, h, id) == Row(b, h, id)
    ensures Rest(a, h, m, n) == Rest(b, h, m, n)
  {
    if m < n {
      RestSame(a, b, h, m, n - 1);
    }
  }

  lemma {:induction false} RestHas(rows: Rows, h: HashX, m: nat, n: nat, id: nat)
    requires m <= id < n && Row(rows, h, id) != []
    ensures Rest(rows, h, m, n) != []
  {
    if id < n - 1 {
      RestHas(rows, h, m, n - 1, id);
    }
  }
}
