/** The history database: unflushed numbers in memory, rows and a state record on disk. */
module HistoryStore {
  import opened Types
  import opened HistoryRows
  import opened CompactionRows

  /** The state record, written in the same batch as the rows. */
  datatype State = State(flushCount: nat, compFlushCount: int, compCursor: int)

  /** First position whose entry is not below x (bisect_left). */
  function BisectLeft(a: seq<nat>, x: nat): (i: nat)
    ensures i <= |a| && AllBelow(a[..i], x)
    ensures i < |a| ==> x <= a[i]
  {
    if a == [] || x <= a[0] then 0
    else
      var j := BisectLeft(a[1..], x);
      assert a[..j + 1] == [a[0]] + a[1..][..j];
      j + 1
  }

  class History {
    // on disk
    var rows: Rows
    var disk: State
    // in memory
    var unflushed: map<HashX, seq<nat>>
    var flushCount: nat
    var compFlushCount: int
    var compCursor: int
    var maxRowEntries: nat

    constructor (maxRowEntries: nat)
      requires maxRowEntries >= 1
      ensures rows == map[] && unflushed == map[] && this.maxRowEntries == maxRowEntries
      ensures disk == State(0, -1, -1) && flushCount == 0 && compFlushCount == -1 && compCursor == -1
      ensures Valid()
    {
      rows, unflushed := map[], map[];
      disk, flushCount, compFlushCount, compCursor := State(0, -1, -1), 0, -1, -1;
      this.maxRowEntries := maxRowEntries;
      new;
      forall h
        ensures HistoryOf(rows, h) == []
      {
        EmptyHistory(h);
      }
    }

    /** The rows alone are sound: what a process that died leaves behind. */
    ghost predicate Durable()
      reads `rows, `disk, `maxRowEntries
    {
      && NonEmpty(rows)
      && IdsUpTo(rows, IDS - 1)
      && Sorted(rows)
      && maxRowEntries >= 1
      && disk.flushCount < IDS
    }

    ghost predicate Valid()
      reads this
    {
      && Durable()
      && IdsUpTo(rows, flushCount)
      && disk.flushCount == flushCount
      && NoEmpties(unflushed)
    }

    /** history.py read_state */
    method ReadState()
      modifies this`flushCount, this`compFlushCount, this`compCursor
      ensures flushCount == disk.flushCount && compFlushCount == disk.compFlushCount && compCursor == disk.compCursor
    {
      flushCount, compFlushCount, compCursor := disk.flushCount, disk.compFlushCount, disk.compCursor;
    }

    method AddUnflushed(hashXsByTx: seq<set<HashX>>, firstTxNum: nat)
      requires NoEmpties(unflushed)
      modifies this`unflushed
      ensures NoEmpties(unflushed)
      ensures Appended(old(unflushed), hashXsByTx, firstTxNum, unflushed)
    {
      AppendedNone(unflushed, hashXsByTx, firstTxNum);
      hide Appended, AppendedOne, NoEmpties;
      for i := 0 to |hashXsByTx|
        invariant NoEmpties(unflushed)
        invariant Appended(old(unflushed), hashXsByTx[..i], firstTxNum, unflushed)
      {
        ghost var before := unflushed;
        AddTx(hashXsByTx[i], firstTxNum + i);
        AppendedStep(old(unflushed), hashXsByTx, firstTxNum, i, before, unflushed);
      }
      assert hashXsByTx[..|hashXsByTx|] == hashXsByTx;
    }

    method AddTx(hashXs: set<HashX>, txNum: nat)
      requires NoEmpties(unflushed)
      modifies this`unflushed
      ensures NoEmpties(unflushed)
      ensures AppendedOne(old(unflushed), hashXs, txNum, unflushed)
    {
      var todo := hashXs;
      while todo != {}
        invariant todo <= hashXs && NoEmpties(unflushed)
        invariant AppendedOne(old(unflushed), hashXs - todo, txNum, unflushed)
        decreases todo
      {
        var hashX :| hashX in todo;
        var before := if hashX in unflushed then unflushed[hashX] else [];
        unflushed := unflushed[hashX := before + [txNum]];
        todo := todo - {hashX};
      }
    }

    /** One row per address under the next flush id; the batch commits rows and state. */
    method Flush()
      requires Valid() && flushCount + 1 < IDS
      requires forall h :: Increasing(HistoryOf(rows, h) + PendingIn(unflushed, h))
      modifies this
      ensures Valid() && flushCount == old(flushCount) + 1
      ensures unflushed == map[] && maxRowEntries == old(maxRowEntries)
      ensures compFlushCount == old(compFlushCount) && compCursor == old(compCursor)
      ensures disk == State(flushCount, compFlushCount, compCursor)
      ensures Put(old(rows), old(unflushed), flushCount, rows)
      ensures forall h :: HistoryOf(rows, h) == HistoryOf(old(rows), h) + PendingIn(old(unflushed), h)
    {
      flushCount := flushCount + 1;
      var batch := PutRows(rows, unflushed, flushCount);
      PutAppends(rows, unflushed, flushCount, batch);
      assert forall h :: HistoryOf(batch, h) == HistoryOf(rows, h) + PendingIn(unflushed, h);
      rows, disk := batch, State(flushCount, compFlushCount, compCursor);
      unflushed := map[];
    }

    /** Put one row per address of `items` under the given id. */
    static method PutRows(base: Rows, items: map<HashX, seq<nat>>, id: nat) returns (batch: Rows)
      ensures Put(base, items, id, batch)
    {
      batch := base;
      var todo := items.Keys;
      while todo != {}
        invariant todo <= items.Keys
        invariant Put(base, items - todo, id, batch)
        decreases todo
      {
        var hashX :| hashX in todo;
        batch := batch[RowKey(hashX, id) := items[hashX]];
        todo := todo - {hashX};
      }
    }

    /** Truncate one address to the numbers below txCount, newest row first. */
    static method BackupAddress(rows: Rows, hashX: HashX, txCount: nat, batch: Rows) returns (out: Rows)
      requires IdsUpTo(rows, IDS - 1) && Increasing(HistoryOf(rows, hashX))
      requires NonEmpty(batch) && forall id: nat :: Row(batch, hashX, id) == Row(rows, hashX, id)
      ensures HistoryOf(out, hashX) == Below(HistoryOf(rows, hashX), txCount)
      ensures Elsewhere(batch, hashX, out) && Shrunk(batch, out)
    {
      hide Cleared, Elsewhere, Shrunk, HistoryOf, NonEmpty;
      CutStart(rows, hashX, txCount, batch);
      out := batch;
      var id := IDS;
      while id > 0
        invariant 0 <= id <= IDS
        invariant Cleared(rows, hashX, id, txCount, out)
        invariant Elsewhere(batch, hashX, out) && Shrunk(batch, out)
      {
        id := id - 1;
        var key := RowKey(hashX, id);
        if key in rows {
          var hist := rows[key];
          RowSorted(rows, hashX, id);
          var idx := BisectLeft(hist, txCount);
          TailFrom(hist, idx, txCount);
          if idx > 0 {
            CutLast(rows, batch, hashX, id, idx, txCount, out);
            out := out[key := hist[..idx]];
            return;
          }
          DropRow(rows, batch, hashX, id, txCount, out);
          out := out - {key};
        } else {
          SkipRow(rows, hashX, id, txCount, out);
        }
      }
      CutAll(rows, hashX, txCount, out);
    }

    /** Remove every entry >= txCount of the given addresses. */
    method Backup(hashXs: set<HashX>, txCount: nat)
      requires Valid() && flushCount + 1 < IDS
      modifies this
      ensures Valid() && flushCount == old(flushCount) + 1
      ensures unflushed == old(unflushed) && maxRowEntries == old(maxRowEntries)
      ensures compFlushCount == old(compFlushCount) && compCursor == old(compCursor)
      ensures disk == State(flushCount, compFlushCount, compCursor)
      ensures forall h ::
        HistoryOf(rows, h) == if h in hashXs then Below(HistoryOf(old(rows), h), txCount) else HistoryOf(old(rows), h)
      ensures Shrunk(old(rows), rows)
    {
      flushCount := flushCount + 1;
      var batch := rows;
      var todo := hashXs;
      while todo != {}
        invariant todo <= hashXs
        invariant Durable() && NonEmpty(batch) && Shrunk(rows, batch)
        invariant forall h, id: nat :: h in todo || h !in hashXs ==> Row(batch, h, id) == Row(rows, h, id)
        invariant forall h :: h in hashXs - todo ==> HistoryOf(batch, h) == Below(HistoryOf(rows, h), txCount)
        invariant rows == old(rows) && disk == old(disk) && maxRowEntries == old(maxRowEntries)
        invariant unflushed == old(unflushed) && flushCount == old(flushCount) + 1
        invariant compFlushCount == old(compFlushCount) && compCursor == old(compCursor)
        decreases todo
      {
        var hashX :| hashX in todo;
        var out := BackupAddress(rows, hashX, txCount, batch);
        forall h | h in hashXs - todo
          ensures HistoryOf(out, h) == HistoryOf(batch, h)
        {
          HistorySame(out, batch, h);
        }
        batch := out;
        todo := todo - {hashX};
      }
      forall h | h !in hashXs
        ensures HistoryOf(batch, h) == HistoryOf(rows, h)
      {
        HistorySame(batch, rows, h);
      }
      forall h
        ensures Increasing(HistoryOf(batch, h))
      {
        if h in hashXs {
          BelowIncreasing(HistoryOf(rows, h), txCount);
        }
      }
      rows, disk := batch, State(flushCount, compFlushCount, compCursor);
    }

    /** Drop the rows flushed after the last UTXO flush. */
    method ClearExcess(utxoFlushCount: nat)
      requires Durable() && flushCount == disk.flushCount
      requires flushCount <= utxoFlushCount || Sorted(UpTo(rows, utxoFlushCount))
      modifies this`rows, this`disk, this`flushCount
      ensures rows == if old(flushCount) <= utxoFlushCount then old(rows) else UpTo(old(rows), utxoFlushCount)
      ensures flushCount == if old(flushCount) <= utxoFlushCount then old(flushCount) else utxoFlushCount
      ensures disk ==
        if old(flushCount) <= utxoFlushCount then old(disk) else State(flushCount, compFlushCount, compCursor)
      ensures Durable()
    {
      if flushCount <= utxoFlushCount {
        return;
      }
      var keys := set k | k in rows && k.id > utxoFlushCount;
      flushCount := utxoFlushCount;
      assert rows - keys == UpTo(rows, utxoFlushCount);
      rows, disk := rows - keys, State(flushCount, compFlushCount, compCursor);
    }

    /** An unfinished compaction is forgotten unless the compaction tool is opening. */
    method CancelCompaction()
      modifies this`compFlushCount, this`compCursor
      ensures compCursor == -1
      ensures compFlushCount == if old(compCursor) != -1 then -1 else old(compFlushCount)
    {
      if compCursor != -1 {
        compFlushCount := -1;
        compCursor := -1;
      }
    }

    method OpenDb(utxoFlushCount: nat, compacting: bool, maxRowEntries: nat) returns (count: nat)
      requires Durable() && maxRowEntries >= 1
      requires disk.flushCount <= utxoFlushCount || Sorted(UpTo(rows, utxoFlushCount))
      modifies this
      ensures rows == if old(disk).flushCount <= utxoFlushCount then old(rows) else UpTo(old(rows), utxoFlushCount)
      ensures count == flushCount == disk.flushCount
      ensures flushCount == if old(disk).flushCount <= utxoFlushCount then old(disk).flushCount else utxoFlushCount
      ensures Durable() && unflushed == map[] && this.maxRowEntries == maxRowEntries
      ensures disk == old(disk).(flushCount := flushCount)
      ensures compacting ==> compCursor == disk.compCursor && compFlushCount == disk.compFlushCount
      ensures !compacting ==>
        compCursor == -1 && compFlushCount == if disk.compCursor != -1 then -1 else disk.compFlushCount
    {
      unflushed := map[];
      ReadState();
      ClearExcess(utxoFlushCount);
      this.maxRowEntries := maxRowEntries;
      if !compacting {
        CancelCompaction();
      }
      count := flushCount;
    }

    /** The history of an address, oldest first, cut to `limit` numbers. */
    method GetTxnums(hashX: HashX, limit: Option<int>) returns (r: seq<nat>)
      ensures r == Limited(HistoryOf(rows, hashX), limit)
    {
      r := [];
      for id := 0 to IDS
        invariant r == Limited(Joined(rows, hashX, id), limit)
      {
        if RowKey(hashX, id) in rows {
          var hist := rows[RowKey(hashX, id)];
          ghost var before := Joined(rows, hashX, id);
          assert before + hist[..0] == before;
          for i := 0 to |hist|
            invariant r == Limited(before + hist[..i], limit)
          {
            if limit.Some? && limit.value == |r| {
              JoinedPrefix(rows, hashX, id + 1, IDS);
              LimitedStop(before + hist[..i], Joined(rows, hashX, id + 1), HistoryOf(rows, hashX), limit);
              return;
            }
            LimitedStep(before, hist, i, limit);
            r := r + [hist[i]];
          }
          assert hist[..|hist|] == hist;
        }
      }
    }

    // ---- compaction ----

    /** Stage one row: keep it if it is already on disk, else write it. */
    static method EmitRow(hashX: HashX, histMap: Rows, nrows: nat, chunk: seq<nat>, batch: Batch,
                          ghost from: Batch, ghost rs: seq<seq<nat>>)
      returns (batch': Batch)
      requires nrows == |rs| && chunk != [] && Emitted(hashX, histMap, from, batch, rs)
      ensures Emitted(hashX, histMap, from, batch', rs + [chunk])
      ensures Weighed(batch, batch', Prefix(hashX))
    {
      var key := RowKey(hashX, nrows);
      BytesPush(batch.items, key, chunk);
      WrittenStep(hashX, histMap, rs, chunk);
      WrittenHas(hashX, histMap, rs, key);
      AsMapPush(batch.items, key, chunk);
      if key in histMap && histMap[key] == chunk {
        batch' := batch.(keys := batch.keys - {key});
      } else {
        batch' := batch.(items := batch.items + [(key, chunk)], size := batch.size + 5 * |chunk|);
      }
    }

    /** Cut the joined history into rows of max entries, staging each. */
    static method CutRows(hashX: HashX, histMap: Rows, histList: seq<seq<nat>>, max: nat, from: Batch)
      returns (batch: Batch, nrows: nat, ghost rs: seq<seq<nat>>)
      requires max >= 1
      ensures nrows == |rs| && FullRows(rs, max) && Flat(rs) == Flat(histList)
      ensures Emitted(hashX, histMap, from, batch, rs) && Weighed(from, batch, Prefix(hashX))
    {
      hide Weighed, Prefix;
      batch, rs := from, [];
      WeighedSelf(from, Prefix(hashX));
      var rowBuf: seq<nat> := [];
      nrows := 0;
      for i := 0 to |histList|
        invariant nrows == |rs| && AllFull(rs, max) && |rowBuf| < max
        invariant Flat(rs) + rowBuf == Flat(histList[..i])
        invariant Emitted(hashX, histMap, from, batch, rs) && Weighed(from, batch, Prefix(hashX))
      {
        FlatNext(histList, i, Flat(rs), rowBuf);
        rowBuf := rowBuf + histList[i];
        while |rowBuf| >= max
          invariant nrows == |rs| && AllFull(rs, max)
          invariant Flat(rs) + rowBuf == Flat(histList[..i + 1])
          invariant Emitted(hashX, histMap, from, batch, rs) && Weighed(from, batch, Prefix(hashX))
          decreases |rowBuf|
        {
          var chunk := rowBuf[..max];
          ghost var before := batch;
          batch := EmitRow(hashX, histMap, nrows, chunk, batch, from, rs);
          WeighedOn(from, before, batch, Prefix(hashX));
          FlatMove(rs, rowBuf, max);
          rowBuf := rowBuf[max..];
          nrows, rs := nrows + 1, rs + [chunk];
        }
      }
      assert histList[..|histList|] == histList;
      FullRowsEnd(rs, rowBuf, max);
      if rowBuf != [] {
        ghost var before := batch;
        batch := EmitRow(hashX, histMap, nrows, rowBuf, batch, from, rs);
        WeighedOn(from, before, batch, Prefix(hashX));
        nrows, rs := nrows + 1, rs + [rowBuf];
      }
    }

    /** Rewrite one address into full rows; histList is its history in key order. */
    method CompactHashX(hashX: HashX, histMap: Rows, histList: seq<seq<nat>>, from: Batch, ghost fit: nat)
      returns (batch: Batch, ghost rs: seq<seq<nat>>)
      requires maxRowEntries >= 1 && |Flat(histList)| <= maxRowEntries * fit
      modifies this`compFlushCount
      ensures FullRows(rs, maxRowEntries) && Flat(rs) == Flat(histList) && |rs| <= fit
      ensures Emitted(hashX, histMap, from.(keys := from.keys + histMap.Keys), batch, rs)
      ensures Weighed(from, batch, Prefix(hashX))
      ensures compFlushCount == Max(old(compFlushCount), |rs| - 1)
    {
      var nrows: int;
      batch, nrows, rs := CutRows(hashX, histMap, histList, maxRowEntries, from.(keys := from.keys + histMap.Keys));
      RowsFit(rs, maxRowEntries, fit);
      compFlushCount := Max(compFlushCount, nrows - 1);
    }

    /** The rows of one address, in key order. */
    method GatherRows(hashX: HashX) returns (histMap: Rows, histList: seq<seq<nat>>)
      requires IdsUpTo(rows, IDS - 1)
      ensures RowsOf(rows, hashX, histMap) && Flat(histList) == HistoryOf(rows, hashX)
    {
      histMap, histList := map[], [];
      for id := 0 to IDS
        invariant forall k :: k in histMap <==> k in rows && k.hashX == hashX && k.id < id
        invariant forall k :: k in histMap ==> histMap[k] == rows[k]
        invariant Flat(histList) == Joined(rows, hashX, id)
      {
        var key := RowKey(hashX, id);
        if key in rows {
          FlatPush(histList, rows[key]);
          histMap, histList := histMap[key := rows[key]], histList + [rows[key]];
        }
      }
    }

    /** No address has more entries than `fit` rows can hold, and no more rows than there are ids. */
    ghost predicate Fits(fit: nat)
      reads `rows, `maxRowEntries
    {
      1 <= fit <= IDS && AllFit(rows, maxRowEntries, fit)
    }

    method CompactAddress(hashX: HashX, from: Batch, ghost done: set<HashX>, ghost fit: nat) returns (batch: Batch)
      requires maxRowEntries >= 1 && IdsUpTo(rows, IDS - 1)
      requires 1 <= fit <= IDS && |HistoryOf(rows, hashX)| <= maxRowEntries * fit
      requires Staged(rows, done, from.keys, AsMap(from.items), maxRowEntries, compFlushCount) && hashX !in done
      modifies this`compFlushCount
      ensures Staged(rows, done + {hashX}, batch.keys, AsMap(batch.items), maxRowEntries, compFlushCount)
      ensures old(compFlushCount) <= compFlushCount <= Max(old(compFlushCount), fit - 1) && batch.size >= from.size
      ensures IsCompact(rows, hashX, maxRowEntries, IDS) ==> Unchanged(from, batch)
      ensures Weighed(from, batch, Prefix(hashX))
    {
      hide Weighed, Prefix;
      var histMap, histList := GatherRows(hashX);
      ghost var top := compFlushCount;
      ghost var rs;
      batch, rs := CompactHashX(hashX, histMap, histList, from, fit);
      StagedStep(rows, done, from.keys, AsMap(from.items), maxRowEntries, top, hashX, histMap, rs, compFlushCount);
      if IsCompact(rows, hashX, maxRowEntries, IDS) {
        CompactAgain(rows, hashX, histMap, rs, maxRowEntries, from, batch);
      }
    }

    /** Compact every address whose hashX starts with the given two bytes. */
    method CompactPrefix(prefix: nat, from: Batch, ghost done: set<HashX>, ghost fit: nat)
      returns (batch: Batch, ghost done': set<HashX>)
      requires maxRowEntries >= 1 && IdsUpTo(rows, IDS - 1) && Fits(fit)
      requires done !! AddressesIn(rows, prefix, prefix + 1)
      requires Staged(rows, done, from.keys, AsMap(from.items), maxRowEntries, compFlushCount)
      modifies this`compFlushCount
      ensures Staged(rows, done', batch.keys, AsMap(batch.items), maxRowEntries, compFlushCount)
      ensures done' == done + AddressesIn(rows, prefix, prefix + 1)
      ensures old(compFlushCount) <= compFlushCount <= Max(old(compFlushCount), fit - 1) && batch.size >= from.size
      ensures AllCompact(rows, prefix, prefix + 1, maxRowEntries) ==> Unchanged(from, batch)
      ensures Weighed(from, batch, prefix)
    {
      hide Staged, IsCompact, RowsOf, Compacted, HistoryOf, Durable, Weighed;
      batch, done' := from, done;
      WeighedSelf(from, prefix);
      var all := AddressesIn(rows, prefix, prefix + 1);
      var todo := all;
      while todo != {}
        invariant todo <= all && done' == done + (all - todo)
        invariant Staged(rows, done', batch.keys, AsMap(batch.items), maxRowEntries, compFlushCount)
        invariant old(compFlushCount) <= compFlushCount <= Max(old(compFlushCount), fit - 1) && batch.size >= from.size
        invariant AllCompact(rows, prefix, prefix + 1, maxRowEntries) ==> Unchanged(from, batch)
        invariant Weighed(from, batch, prefix)
        decreases todo
      {
        var hashX :| hashX in todo;
        assert |HistoryOf(rows, hashX)| <= maxRowEntries * fit;
        assert Prefix(hashX) == prefix;
        ghost var before := batch;
        batch := CompactAddress(hashX, batch, done', fit);
        WeighedOn(from, before, batch, prefix);
        done' := done' + {hashX};
        todo := todo - {hashX};
      }
    }

    /** Commit rows and state in one batch; cursor 65536 ends the compaction. */
    method FlushCompaction(cursor: nat, batch: Batch)
      modifies this`rows, this`disk, this`flushCount, this`compFlushCount, this`compCursor
      requires cursor <= 65536 && compFlushCount >= 0
      ensures rows == Applied(old(rows), batch.keys, AsMap(batch.items))
      ensures disk == State(flushCount, compFlushCount, compCursor)
      ensures if cursor == 65536
        then flushCount == old(compFlushCount) && compCursor == -1 && compFlushCount == -1
        else flushCount == old(flushCount) && compCursor == cursor && compFlushCount == old(compFlushCount)
    {
      if cursor == 65536 {
        flushCount, compCursor, compFlushCount := compFlushCount, -1, -1;
      } else {
        compCursor := cursor;
      }
      var out := rows - batch.keys;
      for i := 0 to |batch.items|
        invariant out == (rows - batch.keys) + AsMap(batch.items[..i])
      {
        assert batch.items[..i + 1][..i] == batch.items[..i];
        out := out[batch.items[i].0 := batch.items[i].1];
      }
      assert batch.items[..|batch.items|] == batch.items;
      rows, disk := out, State(flushCount, compFlushCount, compCursor);
    }

    /** Row ids below the cursor are bounded by the new count, the others by the old one. */
    ghost predicate Compacting(cursor: int, top: int, fit: nat)
      reads this
    {
      && Durable() && Fits(fit) && 0 <= cursor < 65536 && 0 <= top < IDS && flushCount < IDS
      && unflushed == map[]
      && IdsBelow(rows, cursor, top)
      && IdsFrom(rows, cursor, flushCount)
    }

    /** One pass: compact prefixes until `limit` bytes are staged, then commit. */
    method CompactHistory(limit: int, ghost fit: nat) returns (writeSize: nat)
      requires Compacting(compCursor, compFlushCount, fit)
      modifies this
      ensures forall h :: HistoryOf(rows, h) == HistoryOf(old(rows), h)
      ensures unflushed == map[] && maxRowEntries == old(maxRowEntries)
      ensures disk == State(flushCount, compFlushCount, compCursor)
      ensures compCursor != -1 ==>
        && Compacting(compCursor, compFlushCount, fit) && compCursor >= old(compCursor)
        && flushCount == old(flushCount)
        && old(compFlushCount) <= compFlushCount <= Max(old(compFlushCount), fit - 1)
      ensures compCursor != -1 && limit > 0 ==> compCursor > old(compCursor)
      ensures compCursor == -1 ==>
        Valid() && old(compFlushCount) <= flushCount <= Max(old(compFlushCount), fit - 1) && compFlushCount == -1
      ensures AllCompact(old(rows), 0, old(compCursor), maxRowEntries) ==>
        AllCompact(rows, 0, if compCursor == -1 then 65536 else compCursor, maxRowEntries)
      ensures AllCompact(old(rows), old(compCursor), 65536, old(maxRowEntries)) ==> writeSize == 0 && rows == old(rows)
      ensures compCursor != -1 ==> writeSize >= limit
    {
      hide Staged, IsCompact, HistoryOf, Increasing, AllFit;
      var batch, cursor;
      ghost var done;
      batch, cursor, done := CompactFrom(limit, fit);
      ghost var top := compFlushCount;
      AfterCommit(rows, compCursor, cursor, done, batch, maxRowEntries, old(compFlushCount), top, flushCount);
      if AllCompact(rows, compCursor, 65536, maxRowEntries) {
        assert Applied(rows, {}, map[]) == rows;
      }
      FitSame(rows, Applied(rows, batch.keys, AsMap(batch.items)), maxRowEntries, fit);
      FlushCompaction(cursor, batch);
      writeSize := batch.size;
    }

    /** The loop of a pass: stage prefixes until `limit` bytes are reached. */
    method CompactFrom(limit: int, ghost fit: nat) returns (batch: Batch, cursor: nat, ghost done: set<HashX>)
      requires Compacting(compCursor, compFlushCount, fit)
      modifies this`compFlushCount
      ensures compCursor <= cursor <= 65536 && (limit > 0 ==> compCursor < cursor)
      ensures old(compFlushCount) <= compFlushCount <= Max(old(compFlushCount), fit - 1)
      ensures done == AddressesIn(rows, compCursor, cursor)
      ensures Staged(rows, done, batch.keys, AsMap(batch.items), maxRowEntries, compFlushCount)
      ensures AllCompact(rows, compCursor, 65536, maxRowEntries) ==> Unchanged(Batch([], {}, 0), batch)
      ensures Filled(batch, compCursor, cursor, limit)
    {
      hide AllFit, HistoryOf, Sorted, Weighed;
      batch, done, cursor := Batch([], {}, 0), {}, compCursor;
      ghost var last := batch;
      while batch.size < limit && cursor < 65536
        invariant compCursor <= cursor <= 65536 && (batch.size > 0 ==> compCursor < cursor)
        invariant old(compFlushCount) <= compFlushCount <= Max(old(compFlushCount), fit - 1)
        invariant done == AddressesIn(rows, compCursor, cursor)
        invariant Staged(rows, done, batch.keys, AsMap(batch.items), maxRowEntries, compFlushCount)
        invariant AllCompact(rows, compCursor, 65536, maxRowEntries) ==> Unchanged(Batch([], {}, 0), batch)
        invariant batch.size == StagedBytes(batch.items)
        invariant cursor > compCursor ==>
          last.size < limit && last.size == StagedBytes(last.items) && Weighed(last, batch, cursor - 1)
      {
        AddressesStep(rows, compCursor, cursor);
        last := batch;
        batch, done := CompactPrefix(cursor, batch, done, fit);
        WeighedBytes(last, batch, cursor);
        cursor := cursor + 1;
      }
      FilledIs(last, batch, compCursor, cursor, limit);
    }

    /** The compaction tool, killed after `batches` passes if it has not finished. */
    method RunCompaction(limit: int, batches: nat, ghost fit: nat)
      requires limit > 0 && CanCompact(fit)
      modifies this
      ensures forall h :: HistoryOf(rows, h) == HistoryOf(old(rows), h)
      ensures unflushed == map[] && maxRowEntries == old(maxRowEntries)
      ensures batches >= 65536 ==> compCursor == -1
      ensures batches > 0 ==> disk == State(flushCount, compFlushCount, compCursor)
      ensures batches == 0 ==> rows == old(rows) && disk == old(disk)
      ensures batches > 0 && compCursor == -1 ==>
        Valid() && 1 <= flushCount <= Top(old(compFlushCount), fit) && compFlushCount == -1
      ensures batches > 0 && compCursor != -1 ==>
        CanCompact(fit) && flushCount == old(flushCount) && compFlushCount <= Top(old(compFlushCount), fit)
      ensures batches > 0 && (old(compCursor) != -1 ==> AllCompact(old(rows), 0, old(compCursor), maxRowEntries)) ==>
        AllCompact(rows, 0, if compCursor == -1 then 65536 else compCursor, maxRowEntries)
      ensures AllCompact(old(rows), 0, 65536, maxRowEntries) ==> rows == old(rows)
    {
      hide HistoryOf, IsCompact, Increasing, Sorted, NonEmpty, IdsUpTo, IdsFrom, AllFit;
      ghost var fresh0 := compCursor == -1;
      if compCursor == -1 {
        compCursor := 0;
        StartCompacting(rows, flushCount, maxRowEntries);
      }
      ghost var start := compCursor;
      WidenBelow(rows, compCursor, compFlushCount, Max(compFlushCount, 1));
      compFlushCount := Max(compFlushCount, 1);
      var n := 0;
      while compCursor != -1 && n < batches
        invariant n <= batches && limit > 0
        invariant forall h :: HistoryOf(rows, h) == HistoryOf(old(rows), h)
        invariant unflushed == map[] && maxRowEntries == old(maxRowEntries)
        invariant compCursor != -1 ==>
          && Compacting(compCursor, compFlushCount, fit) && compCursor >= n && flushCount == old(flushCount)
          && 1 <= compFlushCount <= Top(old(compFlushCount), fit)
        invariant compCursor == -1 ==>
          n > 0 && Valid() && 1 <= flushCount <= Top(old(compFlushCount), fit) && compFlushCount == -1
        invariant if n > 0 then disk == State(flushCount, compFlushCount, compCursor)
          else rows == old(rows) && disk == old(disk) && compCursor == start
        invariant AllCompact(old(rows), 0, start, maxRowEntries) ==>
          AllCompact(rows, 0, if compCursor == -1 then 65536 else compCursor, maxRowEntries)
        invariant AllCompact(old(rows), 0, 65536, maxRowEntries) ==> rows == old(rows)
        decreases compCursor != -1, 65536 - compCursor
      {
        if AllCompact(rows, 0, 65536, maxRowEntries) {
          assert AllCompact(rows, compCursor, 65536, maxRowEntries);
        }
        var _ := CompactHistory(limit, fit);
        n := n + 1;
      }
    }

    /** Either no compaction was begun, or the rows are as a pass left them. */
    ghost predicate CanCompact(fit: nat)
      reads this
    {
      && Durable() && Fits(fit) && unflushed == map[] && flushCount < IDS
      && (if compCursor == -1 then IdsUpTo(rows, flushCount) && compFlushCount < IDS
          else Compacting(compCursor, compFlushCount, fit))
    }

    /** What a restarted compaction tool needs to find on disk. */
    ghost predicate Resumable()
      reads `rows, `disk, `maxRowEntries
    {
      && Durable() && -1 <= disk.compCursor < 65536 && disk.compFlushCount < IDS
      && (disk.compCursor == -1 ==> disk.compFlushCount == -1 && IdsUpTo(rows, disk.flushCount))
      && (disk.compCursor >= 0 ==>
            && disk.compFlushCount >= 0
            && IdsBelow(rows, disk.compCursor, disk.compFlushCount)
            && IdsFrom(rows, disk.compCursor, disk.flushCount))
    }

    /** The tool is started and killed any number of times; run i is configured
        with runs[i].maxRowEntries and commits at most runs[i].batches batches.
        No interruption and no change of the row size changes any history. */
    method CompactWithInterruptions(limit: int, utxoFlushCount: nat, runs: seq<ToolRun>, ghost fit: nat)
      returns (finished: bool)
      requires limit > 0 && Resumable() && disk.flushCount <= utxoFlushCount && unflushed == map[]
      requires RunsFit(rows, runs, fit)
      modifies this
      ensures forall h :: HistoryOf(rows, h) == HistoryOf(old(rows), h)
      ensures unflushed == map[]
      ensures finished ==> Valid() && 1 <= flushCount <= Top(old(disk).compFlushCount, fit)
      ensures finished ==> disk == State(flushCount, -1, -1)
      ensures !finished ==> Resumable() && disk.flushCount == old(disk).flushCount
      ensures !finished ==> disk.compFlushCount <= Top(old(disk).compFlushCount, fit)
      ensures finished && old(disk).compCursor == -1 && SameSize(runs) ==>
        AllWithin(rows, 0, 65536, maxRowEntries, flushCount)
      ensures (exists i :: 0 <= i < |runs| && runs[i].batches >= 65536) ==> finished
    {
      hide HistoryOf, IsCompact, Increasing, Sorted, NonEmpty, IdsUpTo, IdsFrom, IdsBelow, AllFit, AllCompact;
      finished := false;
      ghost var same := old(disk).compCursor == -1 && SameSize(runs);
      ghost var top := disk.compFlushCount;
      var i := 0;
      while i < |runs| && !finished
        invariant 0 <= i <= |runs| && unflushed == map[] && RunsFit(rows, runs, fit)
        invariant forall h :: HistoryOf(rows, h) == HistoryOf(old(rows), h)
        invariant finished ==> Valid() && 1 <= flushCount <= Top(top, fit) && disk == State(flushCount, -1, -1)
        invariant finished ==> i > 0 && maxRowEntries == runs[i - 1].maxRowEntries
        invariant !finished ==>
          Resumable() && disk.flushCount == old(disk).flushCount && disk.compFlushCount <= Top(top, fit)
        invariant !finished && same && disk.compCursor != -1 ==>
          i > 0 && AllCompact(rows, 0, disk.compCursor, runs[0].maxRowEntries)
        invariant finished && same ==> i > 0 && AllCompact(rows, 0, 65536, runs[0].maxRowEntries)
        invariant !finished ==> forall j :: 0 <= j < i ==> runs[j].batches < 65536
      {
        RunFits(rows, runs, fit, i);
        ghost var before := rows;
        var _ := OpenDb(utxoFlushCount, true, runs[i].maxRowEntries);
        RunCompaction(limit, runs[i].batches, fit);
        RunsFitSame(before, rows, runs, fit);
        TopTwice(top, disk.compFlushCount, fit);
        finished := runs[i].batches > 0 && compCursor == -1;
        i := i + 1;
      }
      if finished && same {
        CompactWithin(rows, maxRowEntries, flushCount);
      }
    }
  }

  /** One start of the compaction tool: the batches it commits at most before it
      is killed, and the row size it is configured with. */
  datatype ToolRun = ToolRun(batches: nat, maxRowEntries: nat)

  /** The row ids of every address fit, whatever row size a run is configured with. */
  ghost predicate RunsFit(rows: Rows, runs: seq<ToolRun>, fit: nat) {
    1 <= fit <= IDS &&
    forall i :: 0 <= i < |runs| ==> runs[i].maxRowEntries >= 1 && AllFit(rows, runs[i].maxRowEntries, fit)
  }

  ghost predicate AllFit(rows: Rows, max: nat, fit: nat) {
    forall h :: |HistoryOf(rows, h)| <= max * fit
  }

  ghost predicate SameSize(runs: seq<ToolRun>) {
    forall i :: 0 <= i < |runs| ==> runs[i].maxRowEntries == runs[0].maxRowEntries
  }

  /** The highest row id a compaction can reach. */
  ghost function Top(top: int, fit: nat): int {
    Max(Max(top, 1), fit - 1)
  }

  // ---- lemmas behind the methods ----

  /** A staged write batch: rows to put, keys to delete, bytes counted. */
  datatype Batch = Batch(items: seq<(RowKey, seq<nat>)>, keys: set<RowKey>, size: nat)

  /** The bytes of staged rows, five for each number. */
  ghost function StagedBytes(items: seq<(RowKey, seq<nat>)>): nat {
    if items == [] then 0 else StagedBytes(items[..|items| - 1]) + 5 * |items[|items| - 1].1|
  }

  /** Only rows of one prefix were staged, and their bytes were counted. */
  ghost predicate Weighed(from: Batch, batch: Batch, prefix: nat) {
    && from.items <= batch.items
    && batch.size + StagedBytes(from.items) == from.size + StagedBytes(batch.items)
    && forall i :: |from.items| <= i < |batch.items| ==> Prefix(batch.items[i].0.hashX) == prefix
  }

  /** A pass stops at the end or at the first prefix that brings the bytes to the limit. */
  ghost predicate Filled(batch: Batch, from: nat, cursor: nat, limit: int) {
    && batch.size == StagedBytes(batch.items) && (cursor == 65536 || batch.size >= limit)
    && (cursor > from ==> exists n: nat ::
          n <= |batch.items| && StagedBytes(batch.items[..n]) < limit && OnlyFrom(batch, n, cursor - 1))
  }

  ghost predicate OnlyFrom(batch: Batch, n: nat, prefix: nat) {
    forall i :: n <= i < |batch.items| ==> Prefix(batch.items[i].0.hashX) == prefix
  }

  lemma WeighedSelf(batch: Batch, prefix: nat)
    ensures Weighed(batch, batch, prefix)
  {
  }

  lemma WeighedOn(a: Batch, b: Batch, c: Batch, prefix: nat)
    requires Weighed(a, b, prefix) && Weighed(b, c, prefix)
    ensures Weighed(a, c, prefix)
  {
    hide StagedBytes, Prefix;
    forall i | |a.items| <= i < |b.items|
      ensures c.items[i] == b.items[i]
    {
    }
  }

  lemma WeighedBytes(a: Batch, b: Batch, prefix: nat)
    requires Weighed(a, b, prefix) && a.size == StagedBytes(a.items)
    ensures b.size == StagedBytes(b.items)
  {
    hide StagedBytes, Prefix;
  }

  lemma FilledIs(last: Batch, batch: Batch, from: nat, cursor: nat, limit: int)
    requires batch.size == StagedBytes(batch.items) && (cursor == 65536 || batch.size >= limit)
    requires cursor > from ==>
      last.size < limit && last.size == StagedBytes(last.items) && Weighed(last, batch, cursor - 1)
    ensures Filled(batch, from, cursor, limit)
  {
    hide StagedBytes, Prefix;
    if cursor > from {
      assert batch.items[..|last.items|] == last.items;
      assert OnlyFrom(batch, |last.items|, cursor - 1);
    }
  }

  lemma BytesPush(items: seq<(RowKey, seq<nat>)>, key: RowKey, row: seq<nat>)
    ensures StagedBytes(items + [(key, row)]) == StagedBytes(items) + 5 * |row|
  {
    assert (items + [(key, row)])[..|items|] == items;
  }

  /** batch is `from` after the rows rs of hashX went through EmitRow. */
  ghost predicate Emitted(hashX: HashX, histMap: Rows, from: Batch, batch: Batch, rs: seq<seq<nat>>) {
    && AsMap(batch.items) == AsMap(from.items) + Written(hashX, histMap, rs)
    && batch.keys == from.keys - Kept(hashX, histMap, rs)
    && (Written(hashX, histMap, rs) == map[] <==> batch.size == from.size)
    && (batch.size == from.size ==> batch.items == from.items)
    && batch.size >= from.size
  }

  lemma FlatNext(histList: seq<seq<nat>>, i: nat, done: seq<nat>, buf: seq<nat>)
    requires i < |histList| && done + buf == Flat(histList[..i])
    ensures done + (buf + histList[i]) == Flat(histList[..i + 1])
  {
    FlatPush(histList[..i], histList[i]);
    assert histList[..i + 1] == histList[..i] + [histList[i]];
    Assoc(done, buf, histList[i]);
  }

  /** Full rows followed by a shorter last row, or by nothing. */
  lemma FullRowsEnd(rs: seq<seq<nat>>, buf: seq<nat>, max: nat)
    requires AllFull(rs, max) && |buf| < max
    ensures FullRows(rs + [buf], max) || buf == []
    ensures FullRows(rs, max)
    ensures Flat(rs + [buf]) == Flat(rs) + buf && (buf == [] ==> Flat(rs) + buf == Flat(rs))
  {
    FlatPush(rs, buf);
    assert (rs + [buf])[..|rs|] == rs;
  }

  lemma FlatMove(rs: seq<seq<nat>>, buf: seq<nat>, n: nat)
    requires n <= |buf|
    ensures Flat(rs + [buf[..n]]) + buf[n..] == Flat(rs) + buf
  {
    FlatPush(rs, buf[..n]);
    assert buf == buf[..n] + buf[n..];
    Assoc(Flat(rs), buf[..n], buf[n..]);
  }

  ghost predicate Elsewhere(a: Rows, h: HashX, b: Rows) {
    forall h', id: nat :: h' != h ==> Row(b, h', id) == Row(a, h', id)
  }

  /** The rows of h from id on held nothing below t and are gone from out. */
  ghost predicate Cleared(rows: Rows, h: HashX, id: nat, t: nat, out: Rows) {
    && (forall j: nat :: id <= j < IDS ==> AllFrom(Row(rows, h, j), t))
    && (forall j: nat :: Row(out, h, j) == if j < id then Row(rows, h, j) else [])
  }

  lemma CutStart(rows: Rows, h: HashX, t: nat, batch: Rows)
    requires IdsUpTo(rows, IDS - 1) && NonEmpty(batch)
    requires forall id: nat :: Row(batch, h, id) == Row(rows, h, id)
    ensures Cleared(rows, h, IDS, t, batch) && Elsewhere(batch, h, batch) && Shrunk(batch, batch)
  {
  }

  lemma SkipRow(rows: Rows, h: HashX, id: nat, t: nat, out: Rows)
    requires Cleared(rows, h, id + 1, t, out) && RowKey(h, id) !in rows
    ensures Cleared(rows, h, id, t, out)
  {
  }

  lemma CutAll(rows: Rows, h: HashX, t: nat, out: Rows)
    requires Cleared(rows, h, 0, t, out)
    ensures HistoryOf(out, h) == Below(HistoryOf(rows, h), t)
  {
    CutEverything(rows, out, h, t);
  }

  lemma RowSorted(rows: Rows, h: HashX, id: nat)
    requires id < IDS && Increasing(HistoryOf(rows, h)) && RowKey(h, id) in rows
    ensures Increasing(rows[RowKey(h, id)])
  {
    RowInOrder(rows, h, id, IDS);
  }

  lemma DropRow(rows: Rows, batch: Rows, h: HashX, id: nat, t: nat, out: Rows)
    requires Cleared(rows, h, id + 1, t, out) && Elsewhere(batch, h, out) && Shrunk(batch, out)
    requires RowKey(h, id) in rows && AllFrom(rows[RowKey(h, id)][0..], t)
    ensures var r := out - {RowKey(h, id)};
      Cleared(rows, h, id, t, r) && Elsewhere(batch, h, r) && Shrunk(batch, r)
  {
    var r := out - {RowKey(h, id)};
    assert Row(rows, h, id)[0..] == Row(rows, h, id);
    assert forall j: nat :: j != id ==> Row(r, h, j) == Row(out, h, j);
  }

  lemma CutLast(rows: Rows, batch: Rows, h: HashX, id: nat, idx: nat, t: nat, out: Rows)
    requires id < IDS && Increasing(HistoryOf(rows, h))
    requires Cleared(rows, h, id + 1, t, out) && Elsewhere(batch, h, out) && Shrunk(batch, out)
    requires RowKey(h, id) in rows && 0 < idx <= |rows[RowKey(h, id)]|
    requires AllBelow(rows[RowKey(h, id)][..idx], t) && AllFrom(rows[RowKey(h, id)][idx..], t)
    ensures var r := out[RowKey(h, id) := rows[RowKey(h, id)][..idx]];
      HistoryOf(r, h) == Below(HistoryOf(rows, h), t) && Elsewhere(batch, h, r) && Shrunk(batch, r)
  {
    var key := RowKey(h, id);
    var r := out[key := rows[key][..idx]];
    assert Row(out, h, id) == Row(rows, h, id) == rows[key];
    assert forall j: nat :: j != id ==> Row(r, h, j) == Row(out, h, j);
    CutTail(rows, r, h, id, idx, t);
  }

  /** Rows are only removed or cut at the end. */
  ghost predicate Shrunk(a: Rows, b: Rows) {
    forall k :: k in b ==> k in a && b[k] != [] && b[k] <= a[k]
  }

  ghost function PendingIn(u: map<HashX, seq<nat>>, h: HashX): seq<nat> {
    if h in u then u[h] else []
  }

  /** v is u with the occurrences in `touches` appended, address by address. */
  ghost predicate Appended(u: map<HashX, seq<nat>>, touches: seq<set<HashX>>, first: nat, v: map<HashX, seq<nat>>) {
    forall h :: PendingIn(v, h) == PendingIn(u, h) + Occurs(touches, h, first)
  }

  ghost predicate AppendedOne(u: map<HashX, seq<nat>>, hashXs: set<HashX>, txNum: nat, v: map<HashX, seq<nat>>) {
    forall h :: PendingIn(v, h) == PendingIn(u, h) + (if h in hashXs then [txNum] else [])
  }

  lemma AppendedNone(u: map<HashX, seq<nat>>, touches: seq<set<HashX>>, first: nat)
    ensures Appended(u, touches[..0], first, u)
  {
    assert touches[..0] == [];
  }

  lemma AppendedStep(u: map<HashX, seq<nat>>, touches: seq<set<HashX>>, first: nat, i: nat,
                     v: map<HashX, seq<nat>>, w: map<HashX, seq<nat>>)
    requires i < |touches| && Appended(u, touches[..i], first, v) && AppendedOne(v, touches[i], first + i, w)
    ensures Appended(u, touches[..i + 1], first, w)
  {
    forall h
      ensures PendingIn(w, h) == PendingIn(u, h) + Occurs(touches[..i + 1], h, first)
    {
      AppendedAt(PendingIn(u, h), touches, first, i, h, PendingIn(v, h), PendingIn(w, h));
    }
  }

  lemma AppendedAt(u: seq<nat>, touches: seq<set<HashX>>, first: nat, i: nat, h: HashX, v: seq<nat>, w: seq<nat>)
    requires i < |touches| && v == u + Occurs(touches[..i], h, first)
    requires w == v + (if h in touches[i] then [first + i] else [])
    ensures w == u + Occurs(touches[..i + 1], h, first)
  {
    OccursStep(touches, i, h, first);
    Assoc(u, Occurs(touches[..i], h, first), if h in touches[i] then [first + i] else []);
  }

  ghost predicate NoEmpties(u: map<HashX, seq<nat>>) {
    forall h :: h in u ==> u[h] != []
  }

  /** batch is base with the row items[h] at (h, id) for every h. */
  ghost predicate Put(base: Rows, items: map<HashX, seq<nat>>, id: nat, batch: Rows) {
    && (forall k :: k in batch <==> k in base || (k.id == id && k.hashX in items))
    && (forall k :: k in batch ==>
          batch[k] == if k.id == id && k.hashX in items then items[k.hashX] else base[k])
  }

  lemma PutAppends(rows: Rows, unflushed: map<HashX, seq<nat>>, top: nat, batch: Rows)
    requires 0 < top < IDS && IdsUpTo(rows, top - 1) && Put(rows, unflushed, top, batch)
    ensures forall h :: HistoryOf(batch, h) == HistoryOf(rows, h) + (if h in unflushed then unflushed[h] else [])
  {
    forall h
      ensures HistoryOf(batch, h) == HistoryOf(rows, h) + (if h in unflushed then unflushed[h] else [])
    {
      if h in unflushed {
        AppendRow(rows, h, top, unflushed[h]);
        var one := rows[RowKey(h, top) := unflushed[h]];
        assert forall id: nat :: Row(batch, h, id) == Row(one, h, id);
        HistorySame(batch, one, h);
      } else {
        assert forall id: nat :: Row(batch, h, id) == Row(rows, h, id);
        HistorySame(batch, rows, h);
      }
    }
  }

  lemma TailFrom(s: seq<nat>, i: nat, n: nat)
    requires Increasing(s) && i <= |s| && (i < |s| ==> n <= s[i])
    ensures AllFrom(s[i..], n)
  {
    if i < |s| {
      IncreasingTail(s, i);
    }
  }

  lemma {:induction false} BelowBounded(s: seq<nat>, n: nat, m: nat)
    requires AllBelow(s, m)
    ensures AllBelow(Below(s, n), m)
  {
    if s != [] {
      BelowBounded(s[..|s| - 1], n, m);
    }
  }

  lemma {:induction false} BelowIncreasing(s: seq<nat>, n: nat)
    requires Increasing(s)
    ensures Increasing(Below(s, n))
  {
    if s != [] {
      var k := |s| - 1;
      BelowIncreasing(s[..k], n);
      BelowBounded(s[..k], n, s[k]);
      var b := Below(s[..k], n);
      if s[k] < n {
        IncreasingPush(b, s[k]);
      } else {
        assert Below(s, n) == b;
      }
    }
  }

  lemma EmptyHistory(h: HashX)
    ensures HistoryOf(map[], h) == []
  {
    JoinedBeyond(map[], h, 0, IDS);
  }

  /** A limit of None or below zero means no limit. */
  ghost function Limited(s: seq<nat>, limit: Option<int>): seq<nat> {
    if limit.None? || limit.value < 0 || |s| <= limit.value then s else s[..limit.value]
  }

  lemma LimitedStep(before: seq<nat>, hist: seq<nat>, i: nat, limit: Option<int>)
    requires i < |hist|
    requires limit.None? || limit.value != |Limited(before + hist[..i], limit)|
    ensures Limited(before + hist[..i + 1], limit) == Limited(before + hist[..i], limit) + [hist[i]]
  {
    assert before + hist[..i + 1] == (before + hist[..i]) + [hist[i]];
  }

  lemma LimitedStop(a: seq<nat>, b: seq<nat>, c: seq<nat>, limit: Option<int>)
    requires a <= b <= c && limit.Some? && limit.value == |Limited(a, limit)|
    ensures Limited(a, limit) == Limited(c, limit)
  {
  }

  /** The two-byte prefix a compaction cursor walks over. */
  function Prefix(h: HashX): (p: nat)
    ensures p < 65536
  {
    (h[0] as int) * 256 + h[1]
  }

  // ---- lemmas about compaction passes ----

  ghost predicate AllWithin(rows: Rows, lo: int, hi: int, max: nat, top: int) {
    forall h :: lo <= Prefix(h) < hi ==> IsCompact(rows, h, max, top)
  }

  /** The addresses of one prefix are those whose first two bytes write it, the high byte first. */
  lemma PrefixIs(rows: Rows, p: nat, h: HashX)
    requires p < 65536
    ensures h in AddressesIn(rows, p, p + 1) <==>
      h[0] == p / 256 && h[1] == p % 256 && exists k :: k in rows && k.hashX == h
  {
    var hi: nat, lo: nat := h[0], h[1];
    assert Prefix(h) == hi * 256 + lo && (hi * 256 + lo) / 256 == hi && (hi * 256 + lo) % 256 == lo;
    if h in AddressesIn(rows, p, p + 1) {
      var k :| k in rows && p <= Prefix(k.hashX) < p + 1 && k.hashX == h;
    }
    if k :| k in rows && k.hashX == h && h[0] == p / 256 && h[1] == p % 256 {
      assert Prefix(k.hashX) == p;
    }
  }

  function AddressesIn(rows: Rows, lo: int, hi: int): set<HashX> {
    set k | k in rows && lo <= Prefix(k.hashX) < hi :: k.hashX
  }

  lemma AddressesStep(rows: Rows, lo: int, hi: int)
    requires lo <= hi
    ensures AddressesIn(rows, lo, hi + 1) == AddressesIn(rows, lo, hi) + AddressesIn(rows, hi, hi + 1)
    ensures AddressesIn(rows, lo, hi) !! AddressesIn(rows, hi, hi + 1)
  {
  }

  ghost predicate AllCompact(rows: Rows, lo: int, hi: int, max: nat) {
    AllWithin(rows, lo, hi, max, IDS)
  }

  ghost predicate IdsFrom(rows: Rows, lo: int, top: int) {
    forall k :: k in rows && lo <= Prefix(k.hashX) ==> k.id <= top
  }

  ghost predicate Unchanged(a: Batch, b: Batch) {
    a.items == b.items && a.keys == b.keys && a.size == b.size
  }

  /** Row ids of the addresses whose prefix is below hi. */
  ghost predicate IdsBelow(rows: Rows, hi: int, top: int) {
    forall k :: k in rows && Prefix(k.hashX) < hi ==> k.id <= top
  }

  lemma StartCompacting(rows: Rows, flushCount: int, max: nat)
    requires IdsUpTo(rows, flushCount)
    ensures AllCompact(rows, 0, 0, max) && IdsFrom(rows, 0, flushCount)
    ensures forall top :: IdsBelow(rows, 0, top)
  {
  }

  lemma FitSame(a: Rows, b: Rows, max: nat, fit: nat)
    requires forall h :: HistoryOf(b, h) == HistoryOf(a, h)
    ensures AllFit(a, max, fit) ==> AllFit(b, max, fit)
  {
  }

  lemma RunFits(rows: Rows, runs: seq<ToolRun>, fit: nat, i: nat)
    requires RunsFit(rows, runs, fit) && i < |runs|
    ensures 1 <= fit <= IDS && runs[i].maxRowEntries >= 1 && AllFit(rows, runs[i].maxRowEntries, fit)
  {
  }

  lemma RunsFitSame(a: Rows, b: Rows, runs: seq<ToolRun>, fit: nat)
    requires RunsFit(a, runs, fit) && forall h :: HistoryOf(b, h) == HistoryOf(a, h)
    ensures RunsFit(b, runs, fit)
  {
    hide HistoryOf;
  }

  lemma TopTwice(top: int, now: int, fit: nat)
    ensures now <= Top(top, fit) ==> Top(now, fit) <= Top(top, fit)
  {
  }

  /** Compact rows whose ids are bounded. */
  lemma CompactWithin(rows: Rows, max: nat, top: nat)
    requires AllCompact(rows, 0, 65536, max) && IdsUpTo(rows, top)
    ensures AllWithin(rows, 0, 65536, max, top)
  {
    forall h | 0 <= Prefix(h) < 65536
      ensures IsCompact(rows, h, max, top)
    {
      assert IsCompact(rows, h, max, IDS);
      var rs :| RowsAre(rows, h, rs) && FullRows(rs, max) && |rs| - 1 <= IDS;
      assert rs != [] ==> RowKey(h, |rs| - 1) in rows;
    }
  }

  lemma WidenBelow(rows: Rows, hi: int, top: int, top': int)
    requires top <= top'
    ensures IdsBelow(rows, hi, top) ==> IdsBelow(rows, hi, top')
  {
  }

  lemma CompactAgain(rows: Rows, h: HashX, hist: Rows, rs: seq<seq<nat>>, max: nat, from: Batch, batch: Batch)
    requires IdsUpTo(rows, IDS - 1) && IsCompact(rows, h, max, IDS) && RowsOf(rows, h, hist)
    requires FullRows(rs, max) && Flat(rs) == HistoryOf(rows, h)
    requires forall k :: k in from.keys ==> k.hashX != h
    requires Emitted(h, hist, from.(keys := from.keys + hist.Keys), batch, rs)
    ensures Unchanged(from, batch)
  {
    var r0 :| RowsAre(rows, h, r0) && FullRows(r0, max) && |r0| - 1 <= IDS;
    assert r0 != [] ==> RowKey(h, |r0| - 1) in rows;
    RowsAreHistory(rows, h, r0);
    FullRowsUnique(rs, r0, max);
    forall i | 0 <= i < |rs|
      ensures OnDisk(h, hist, rs, i)
    {
      assert RowKey(h, i) in rows;
      assert Row(rows, h, i) == rs[i];
    }
    NothingToDo(h, hist, rs);
    forall k
      ensures k in Kept(h, hist, rs) <==> k in hist
    {
      WrittenHas(h, hist, rs, k);
      if k in hist {
        assert k == RowKey(h, k.id);
      }
    }
    assert Kept(h, hist, rs) == hist.Keys;
  }

  lemma CompactIds(rows: Rows, h: HashX, max: nat, top: int)
    requires IsCompact(rows, h, max, top)
    ensures forall k :: k in rows && k.hashX == h ==> k.id <= top && rows[k] != []
  {
    var rs :| RowsAre(rows, h, rs) && FullRows(rs, max) && |rs| - 1 <= top;
    forall k | k in rows && k.hashX == h
      ensures k.id <= top && rows[k] != []
    {
      assert k == RowKey(h, k.id);
      assert Row(rows, h, k.id) == rs[k.id];
      NoEmptyRow(rs, max, k.id);
    }
  }

  lemma NoEmptyRow(rs: seq<seq<nat>>, max: nat, i: nat)
    requires FullRows(rs, max) && i < |rs|
    ensures rs[i] != []
  {
    if i < |rs| - 1 {
      assert rs[..|rs| - 1][i] == rs[i];
    }
  }

  lemma AfterCommit(rows: Rows, c0: nat, cursor: nat, done: set<HashX>, batch: Batch,
                    max: nat, top0: int, top: int, flushCount: int)
    requires NonEmpty(rows) && IdsUpTo(rows, IDS - 1) && Sorted(rows)
    requires c0 <= cursor <= 65536 && top0 <= top && 0 <= top < IDS
    requires done == AddressesIn(rows, c0, cursor)
    requires Staged(rows, done, batch.keys, AsMap(batch.items), max, top)
    requires IdsBelow(rows, c0, top0) && IdsFrom(rows, c0, flushCount)
    ensures var out := Applied(rows, batch.keys, AsMap(batch.items));
      && (forall h :: HistoryOf(out, h) == HistoryOf(rows, h))
      && NonEmpty(out) && IdsUpTo(out, IDS - 1) && Sorted(out)
      && IdsBelow(out, cursor, top) && IdsFrom(out, cursor, flushCount)
      && (AllCompact(rows, 0, c0, max) ==> AllCompact(out, 0, cursor, max))
      && (cursor == 65536 ==> IdsUpTo(out, top))
  {
    var items := AsMap(batch.items);
    var out := Applied(rows, batch.keys, items);
    forall h
      ensures HistoryOf(out, h) == HistoryOf(rows, h)
    {
      CommitKeepsHistory(rows, done, batch.keys, items, max, top, h);
    }
    if AllCompact(rows, 0, c0, max) {
      forall h | 0 <= Prefix(h) < cursor
        ensures IsCompact(out, h, max, IDS)
      {
        CommitKeepsHistory(rows, done, batch.keys, items, max, top, h);
        CommitCompacts(rows, out, c0, cursor, done, h, max, top);
      }
    }
    forall k | k in out
      ensures out[k] != [] && k.id <= IDS - 1
      ensures cursor <= Prefix(k.hashX) ==> k.id <= flushCount
      ensures Prefix(k.hashX) < cursor ==> k.id <= top
      ensures cursor == 65536 ==> k.id <= top
    {
      CommitKeepsHistory(rows, done, batch.keys, items, max, top, k.hashX);
      if k.hashX in done {
        assert Compacted(rows, k.hashX, out, max, top);
        CompactIds(out, k.hashX, max, top);
      } else {
        assert RowKey(k.hashX, k.id) in rows;
        assert Row(out, k.hashX, k.id) == Row(rows, k.hashX, k.id);
        assert Prefix(k.hashX) < cursor ==> Prefix(k.hashX) < c0;
      }
    }
  }

  lemma CommitCompacts(rows: Rows, out: Rows, c0: nat, cursor: nat, done: set<HashX>, h: HashX, max: nat, top: int)
    requires done == AddressesIn(rows, c0, cursor)
    requires Prefix(h) < cursor && -1 <= top < IDS
    requires h in done ==> IsCompact(out, h, max, top)
    requires h !in done ==> Agree(rows, out, h)
    requires Prefix(h) < c0 ==> IsCompact(rows, h, max, IDS)
    ensures IsCompact(out, h, max, IDS)
  {
    if h in done {
      var rs :| RowsAre(out, h, rs) && FullRows(rs, max) && |rs| - 1 <= top;
    } else if Prefix(h) < c0 {
      var rs :| RowsAre(rows, h, rs) && FullRows(rs, max) && |rs| - 1 <= IDS;
      assert RowsAre(out, h, rs);
    } else {
      assert forall id: nat :: RowKey(h, id) in rows ==> RowKey(h, id).hashX in done;
      assert RowsAre(out, h, []);
    }
  }
}
