/** The database: UTXO tables, undo records, state record, metadata files and history. */
module Database {
  import opened Types
  import opened Ledger
  import opened LedgerProofs
  import opened HistoryRows
  import HistoryStore
  import opened UtxoTables

  /** The state record of the UTXO database. */
  datatype UtxoState = UtxoState(height: int, txCount: nat, tip: Hash, utxoFlushCount: nat)

  /** The UTXO database: the `h` and `u` tables, the `U` records and the state record. */
  datatype Store = Store(h: HTable, u: UTable, undo: map<nat, seq<Utxo>>, state: UtxoState)

  /** The metadata files, as arrays of records. */
  datatype Files = Files(headers: seq<Header>, txCounts: seq<nat>, hashes: seq<Hash>)

  /** The last flush id used, that of the last UTXO flush, and how far an
      unfinished compaction on disk has counted, -1 if there is none. */
  datatype Counts = Counts(flushed: nat, utxo: nat, comp: int)

  /** From a to b at most `used` ids were taken.  The id of the last UTXO flush
      never falls, and rises when the committed chain has moved; no compaction was begun. */
  ghost predicate Onward(a: Counts, b: Counts, used: int, moved: bool) {
    && b.flushed <= a.flushed + used && b.utxo <= a.flushed + used
    && a.utxo <= b.utxo && (moved ==> a.utxo < b.utxo)
    && b.comp <= a.comp
  }

  lemma OnwardSelf(a: Counts)
    requires a.utxo <= a.flushed
    ensures Onward(a, a, 0, false)
  {
  }

  lemma OnwardJoin(a: Counts, b: Counts, c: Counts, u: int, v: int, m: bool, n: bool, used: int, moved: bool)
    requires Onward(a, b, u, m) && Onward(b, c, v, n) && u + v <= used && (moved ==> m || n)
    ensures Onward(a, c, used, moved)
  {
  }

  /** What the block processor hands over for a flush. */
  datatype FlushData = FlushData(
    height: int, txCount: nat, headers: seq<Header>, blockTxHashes: seq<seq<Hash>>,
    undoInfos: seq<(seq<Utxo>, nat)>, adds: UtxoMap, deletes: seq<DbKey>, tip: Hash)

  /** First position whose entry is above x (bisect_right). */
  function BisectRight(a: seq<nat>, x: nat): (i: nat)
    ensures i <= |a|
    ensures forall j :: 0 <= j < i ==> a[j] <= x
    ensures i < |a| ==> x < a[i]
  {
    if a == [] || x < a[0] then 0 else 1 + BisectRight(a[1..], x)
  }

  function Join(hs: seq<seq<Hash>>): seq<Hash> {
    if hs == [] then [] else Join(hs[..|hs| - 1]) + hs[|hs| - 1]
  }

  ghost function BlockIds(chain: seq<Block>): seq<seq<Hash>> {
    seq(|chain|, i requires 0 <= i < |chain| => TxIds(chain[i].txs))
  }

  // ---- what the disk holds for a chain ----

  ghost predicate FilesHold(files: Files, coin: Coin, chain: seq<Block>) {
    && Replay(coin, chain).txids <= files.hashes
    && Replay(coin, chain).txCounts <= files.txCounts
    && Headers(chain) <= files.headers
  }

  ghost predicate StateOf(st: UtxoState, coin: Coin, chain: seq<Block>) {
    st.height == |chain| - 1 && st.txCount == |Replay(coin, chain).txids| && st.tip == Tip(coin, chain)
  }

  /** The UTXO database holds the index of the chain. */
  ghost predicate StoreHolds(db: Store, kept: set<nat>, coin: Coin, chain: seq<Block>) {
    && ValidChain(coin, chain)
    && StateOf(db.state, coin, chain)
    && Tables(db.h, db.u, Replay(coin, chain).utxos, Replay(coin, chain).txids)
    && UndoHolds(db.undo, kept, Replay(coin, chain))
  }

  ghost predicate RowsHold(rows: Rows, cut: int, ix: Index) {
    && SplitAt(rows, cut, |ix.txids|)
    && forall h :: Below(HistoryOf(rows, h), |ix.txids|) == Occurs(ix.touches, h, 0)
  }

  ghost predicate RowsAreOf(rows: Rows, ix: Index) {
    forall h :: HistoryOf(rows, h) == Occurs(ix.touches, h, 0)
  }

  /** The undo records at the heights of `kept` are those of the chain. */
  ghost predicate UndoHolds(undo: map<nat, seq<Utxo>>, kept: set<nat>, ix: Index) {
    forall ht :: ht in kept ==> ht < |ix.undos| && ht in undo && undo[ht] == ix.undos[ht]
  }

  class DB {
    const coin: Coin
    const reorgLimit: nat
    const history: HistoryStore.History

    // on disk
    var utxoDb: Store
    var files: Files

    // in memory
    var utxoFlushCount: nat
    var fsHeight: int
    var fsTxCount: nat
    var dbHeight: int
    var dbTxCount: nat
    var dbTip: Hash
    var txCounts: seq<nat>

    /** The chain of the last committed UTXO flush. */
    ghost var dbChain: seq<Block>
    /** The chain whose files and history have been flushed. */
    ghost var fsChain: seq<Block>
    /** Heights whose undo record on disk was written for this chain. */
    ghost var kept: set<nat>

    ghost function Ix(): Index
      reads `dbChain
    {
      Replay(coin, dbChain)
    }

    /** Everything a restart relies on; mentions no field held in memory. */
    ghost predicate DiskOk()
      reads `utxoDb, `files, `dbChain, `kept, history`rows, history`disk, history`maxRowEntries
    {
      && StoreHolds(utxoDb, kept, coin, dbChain)
      && FilesHold(files, coin, dbChain)
      && HistoryOk()
    }

    /** The rows, cut at the last UTXO flush, are the history of the committed chain. */
    ghost predicate HistoryOk()
      reads `utxoDb, `dbChain, history`rows, history`disk, history`maxRowEntries
    {
      && RowsHold(history.rows, utxoDb.state.utxoFlushCount, Ix())
      && history.Durable()
      && IdsUpTo(history.rows, history.disk.flushCount)
      && utxoDb.state.utxoFlushCount <= history.disk.flushCount
      && CompactionOk()
    }

    /** A compaction left half way can be resumed, and forgotten without harm. */
    ghost predicate CompactionOk()
      reads `utxoDb, history`rows, history`disk, history`maxRowEntries
    {
      && history.Resumable()
      && (history.disk.compCursor != -1 ==>
            history.disk.flushCount == utxoDb.state.utxoFlushCount)
    }

    ghost function Counters(): Counts
      reads `utxoDb, history`flushCount, history`disk
    {
      Counts(history.flushCount, utxoDb.state.utxoFlushCount, history.disk.compFlushCount)
    }

    /** Memory as it stands between flushes. */
    ghost predicate Opened()
      reads this, history
    {
      && StateOf(UtxoState(dbHeight, dbTxCount, dbTip, utxoFlushCount), coin, dbChain)
      && utxoFlushCount == utxoDb.state.utxoFlushCount
      && fsHeight == |fsChain| - 1 && fsTxCount == |Replay(coin, fsChain).txids|
      && FilesHold(files, coin, fsChain)
      && RowsAreOf(history.rows, Replay(coin, fsChain))
      && dbChain <= fsChain
      && history.Valid() && history.compCursor == -1 && history.compFlushCount == -1
    }

    /** The transaction hash and height of a transaction number. */
    function FsTxHash(txNum: nat): (Option<Hash>, nat)
      reads `txCounts, `dbHeight, `files
    {
      var height := BisectRight(txCounts, txNum);
      if height > dbHeight || txNum >= |files.hashes| then (None, height)
      else (Some(files.hashes[txNum]), height)
    }

    /** Every number of a committed transaction can be resolved. */
    ghost predicate CanLookup(ids: seq<Hash>)
      reads `txCounts, `dbHeight, `files
    {
      forall n :: 0 <= n < |ids| ==> FsTxHash(n).0 == Some(ids[n])
    }

    /** A new, empty database. */
    constructor (coin: Coin, reorgLimit: nat, maxRowEntries: nat)
      requires maxRowEntries >= 1
      ensures this.coin == coin && this.reorgLimit == reorgLimit
      ensures fresh(history) && dbChain == [] && fsChain == []
      ensures DiskOk() && Opened() && txCounts == [] && history.unflushed == map[]
      ensures utxoDb.state.utxoFlushCount == 0 && history.disk.compFlushCount == -1
    {
      this.coin, this.reorgLimit := coin, reorgLimit;
      history := new HistoryStore.History(maxRowEntries);
      utxoDb := Store(map[], map[], map[], UtxoState(-1, 0, ZERO, 0));
      files := Files([], [], []);
      utxoFlushCount, fsHeight, fsTxCount := 0, -1, 0;
      dbHeight, dbTxCount, dbTip, txCounts := -1, 0, ZERO, [];
      dbChain, fsChain, kept := [], [], {};
      new;
      forall a
        ensures HistoryOf(history.rows, a) == []
      {
        HistoryStore.EmptyHistory(a);
      }
    }

    // ---- flushing ----

    /** What the caches must hold for a flush to bring the disk to `chain`. */
    ghost predicate DataOk(data: FlushData, chain: seq<Block>, pend: set<Outpoint>)
      reads `utxoDb, `dbChain, `fsChain, `txCounts
    {
      var ix := Replay(coin, chain);
      && ValidChain(coin, chain) && fsChain <= chain
      && data.height == |chain| - 1 && data.txCount == |ix.txids| && data.tip == Tip(coin, chain)
      && data.headers == Headers(chain)[|fsChain|..]
      && data.blockTxHashes == BlockIds(chain[|fsChain|..])
      && txCounts == ix.txCounts
      && UtxoOk(data, chain, pend)
    }

    /** Tables, pending deletes and cache together are the map of `chain`. */
    ghost predicate UtxoOk(data: FlushData, chain: seq<Block>, pend: set<Outpoint>)
      reads `utxoDb, `dbChain
    {
      && Layers(utxoDb.h, utxoDb.u, Ix().utxos, Ix().txids, pend, data.adds, data.deletes)
      && Abs(Ix().utxos, pend, data.adds) == Replay(coin, chain).utxos
      && UndosOk(data.undoInfos, Replay(coin, chain))
    }

    /** Write headers, counts and hashes; the files are append-only.  The process
        may die after the first (`stop` 0) or the second write (`stop` 1). */
    method FlushFs(data: FlushData, stop: nat, ghost chain: seq<Block>, ghost pend: set<Outpoint>)
      requires DataOk(data, chain, pend) && dbChain <= fsChain
      requires FilesHold(files, coin, fsChain) && fsHeight == |fsChain| - 1
      modifies `files, `fsHeight, `fsTxCount
      ensures FilesHold(files, coin, dbChain)
      ensures stop > 1 ==> FilesHold(files, coin, chain)
      ensures stop > 1 ==> fsHeight == |chain| - 1 && fsTxCount == |Replay(coin, chain).txids|
      ensures Headers(chain) <= files.headers
      ensures if stop == 0 then files.txCounts == old(files).txCounts
        else Replay(coin, chain).txCounts <= files.txCounts
      ensures stop <= 1 ==> files.hashes == old(files).hashes && fsHeight == old(fsHeight)
    {
      hide *;
      FlushFsFacts(data, chain, pend);
      var priorTxCount := if fsHeight >= 0 then txCounts[fsHeight] else 0;
      assert |data.blockTxHashes| == |data.headers|;
      assert data.height == fsHeight + |data.headers|;
      assert data.txCount == if txCounts == [] then 0 else txCounts[|txCounts| - 1];
      assert |txCounts| == data.height + 1;
      var hashes := Join(data.blockTxHashes);
      assert |hashes| == data.txCount - priorTxCount;
      var heightStart := fsHeight + 1;
      files := files.(headers := WriteAt(files.headers, heightStart, data.headers));
      if stop == 0 {
        return;
      }
      files := files.(txCounts := WriteAt(files.txCounts, heightStart, txCounts[heightStart..]));
      if stop == 1 {
        return;
      }
      files := files.(hashes := WriteAt(files.hashes, priorTxCount, hashes));
      fsHeight := data.height;
      fsTxCount := data.txCount;
    }

    /** What the assertions of a flush rely on, and the files after each of its writes. */
    lemma FlushFsFacts(data: FlushData, chain: seq<Block>, pend: set<Outpoint>)
      requires DataOk(data, chain, pend) && dbChain <= fsChain
      requires FilesHold(files, coin, fsChain) && fsHeight == |fsChain| - 1
      ensures -1 <= fsHeight < |txCounts| && |data.blockTxHashes| == |data.headers|
      ensures data.height == fsHeight + |data.headers| == |txCounts| - 1 == |chain| - 1
      ensures data.txCount == |Replay(coin, chain).txids| == if txCounts == [] then 0 else txCounts[|txCounts| - 1]
      ensures var k, prior := fsHeight + 1, if fsHeight >= 0 then txCounts[fsHeight] else 0;
        && |Join(data.blockTxHashes)| == data.txCount - prior
        && k <= |files.headers| && k <= |files.txCounts| && prior <= |files.hashes|
        && var one := files.(headers := WriteAt(files.headers, k, data.headers));
           var two := one.(txCounts := WriteAt(files.txCounts, k, txCounts[k..]));
           var three := two.(hashes := WriteAt(files.hashes, prior, Join(data.blockTxHashes)));
           && FilesHold(one, coin, dbChain) && FilesHold(two, coin, dbChain) && FilesHold(three, coin, dbChain)
           && FilesHold(three, coin, chain)
           && Headers(chain) <= one.headers && Replay(coin, chain).txCounts <= two.txCounts
    {
      hide Layers, UndosOk, Replay, ValidChain, Headers, BlockIds, FilesHold, Coherent;
      assert chain[..|fsChain|] == fsChain;
      FlushCounts(coin, chain, |fsChain|);
      FilesReach(files, coin, chain, |fsChain|);
      FilesPartWritten(files, coin, fsChain, data.headers, txCounts[fsHeight + 1..]);
      FilesWritten(files, coin, chain, |fsChain|);
      PartsWritten(files, coin, chain, |fsChain|);
      hide WriteAt;
      var k, prior := fsHeight + 1, if fsHeight >= 0 then txCounts[fsHeight] else 0;
      var one := files.(headers := WriteAt(files.headers, k, data.headers));
      var two := one.(txCounts := WriteAt(files.txCounts, k, txCounts[k..]));
      var three := two.(hashes := WriteAt(files.hashes, prior, Join(data.blockTxHashes)));
      FilesStill(one, coin, dbChain, fsChain);
      FilesStill(two, coin, dbChain, fsChain);
      FilesStill(three, coin, dbChain, chain);
    }

    /** The deletes and puts of a UTXO flush. */
    static method FlushTables(h: HTable, u: UTable, adds: UtxoMap, deletes: seq<DbKey>,
                              ghost m: UtxoMap, ghost ids: seq<Hash>, ghost pend: set<Outpoint>, ghost ids': seq<Hash>)
      returns (h': HTable, u': UTable)
      requires Layers(h, u, m, ids, pend, adds, deletes) && Numbers(Abs(m, pend, adds), ids')
      ensures Tables(h', u', Abs(m, pend, adds), ids')
    {
      hide Tables, Deletes;
      DeletesApplied(h, u, m, ids, pend, adds, deletes);
      h', u' := h - HDeleted(deletes), u - UDeleted(deletes);
      Renumber(h', u', m - pend, ids, ids');
      h', u' := PutEntries(h', u', adds, m - pend, ids');
    }

    static method PutEntries(h: HTable, u: UTable, adds: UtxoMap, ghost m: UtxoMap, ghost ids: seq<Hash>)
      returns (h': HTable, u': UTable)
      requires Tables(h, u, m, ids) && Numbers(m, ids) && Numbers(adds, ids) && adds.Keys !! m.Keys
      ensures Tables(h', u', m + adds, ids)
    {
      hide Tables;
      h', u' := h, u;
      var todo := adds.Keys;
      ghost var sofar := m;
      while todo != {}
        invariant todo <= adds.Keys && sofar == m + (adds - todo)
        invariant Tables(h', u', sofar, ids) && Numbers(sofar, ids)
        decreases todo
      {
        var o :| o in todo;
        AddEntry(h', u', sofar, ids, o, adds[o]);
        sofar := sofar[o := adds[o]];
        h', u' := h'[HOf(o, adds[o]) := adds[o].hashX], u'[UOf(o, adds[o]) := adds[o].value];
        todo := todo - {o};
      }
      assert adds - {} == adds;
    }

    static method FlushUndoInfos(undo: map<nat, seq<Utxo>>, undoInfos: seq<(seq<Utxo>, nat)>,
                                 ghost keep: set<nat>, ghost ix: Index)
      returns (undo': map<nat, seq<Utxo>>)
      requires UndoHolds(undo, keep, ix) && UndosOk(undoInfos, ix)
      ensures UndoHolds(undo', keep + UndoHeights(undoInfos), ix)
      ensures undo'.Keys == undo.Keys + UndoHeights(undoInfos)
      ensures forall ht :: ht in undo && ht !in UndoHeights(undoInfos) ==> undo'[ht] == undo[ht]
    {
      undo' := undo;
      for i := 0 to |undoInfos|
        invariant undo'.Keys == undo.Keys + UndoHeights(undoInfos[..i])
        invariant forall ht :: ht in undo && ht !in UndoHeights(undoInfos[..i]) ==> undo'[ht] == undo[ht]
        invariant UndoHolds(undo', keep + UndoHeights(undoInfos[..i]), ix)
      {
        undo' := undo'[undoInfos[i].1 := undoInfos[i].0];
        assert undoInfos[..i + 1] == undoInfos[..i] + [undoInfos[i]];
      }
      assert undoInfos[..|undoInfos|] == undoInfos;
    }

    /** History pending in memory completes the flushed history to that of `chain`. */
    ghost predicate PendingOk(chain: seq<Block>)
      reads this, history
    {
      forall a :: HistoryOf(history.rows, a) + HistoryStore.PendingIn(history.unflushed, a)
        == Occurs(Replay(coin, chain).touches, a, 0)
    }

    /** Nothing has been processed since the last UTXO flush. */
    ghost predicate NothingPending(data: FlushData)
      reads this, history
    {
      && data.adds == map[] && data.deletes == [] && data.undoInfos == []
      && history.unflushed == map[]
    }

    /** One row per touched address; the files already reach `chain`. */
    method FlushHistory(ghost chain: seq<Block>)
      requires DiskOk() && history.Valid() && PendingOk(chain) && RowsAreOf(history.rows, Replay(coin, fsChain))
      requires dbChain <= fsChain <= chain && history.flushCount + 1 < IDS
      requires history.compCursor == -1 && history.compFlushCount == -1
      modifies history
      ensures DiskOk() && history.Valid() && RowsAreOf(history.rows, Replay(coin, chain))
      ensures history.compCursor == -1 && history.disk == HistoryStore.State(history.flushCount, -1, -1)
      ensures history.compFlushCount == -1
      ensures history.unflushed == map[] && history.flushCount == old(history.flushCount) + 1
    {
      hide Tables, FilesHold, UndoHolds, RowsHold, Replay, ValidChain, Increasing, IdsUpTo, Extends, Coherent;
      PrefixFacts(coin, chain, |fsChain|);
      PrefixFacts(coin, chain, |dbChain|);
      PrefixFacts(coin, fsChain, |dbChain|);
      assert chain[..|fsChain|] == fsChain && chain[..|dbChain|] == fsChain[..|dbChain|] == dbChain;
      PendingSorted(history.rows, history.unflushed, Replay(coin, chain));
      ghost var rows := history.rows;
      ghost var unflushed := history.unflushed;
      history.Flush();
      RowsAfterFlush(rows, unflushed, history.flushCount, history.rows, utxoDb.state.utxoFlushCount,
                     Replay(coin, dbChain), Replay(coin, fsChain), Replay(coin, chain));
    }

    /** Commit the UTXO set, undo records and state in one batch. */
    method FlushUtxoDb(data: FlushData, ghost chain: seq<Block>, ghost pend: set<Outpoint>, ghost keep: set<nat>)
      requires history.Valid() && history.disk == HistoryStore.State(history.flushCount, -1, -1)
      requires UtxoOk(data, chain, pend)
      requires RowsAreOf(history.rows, Replay(coin, chain))
      requires FilesHold(files, coin, chain) && ValidChain(coin, chain)
      requires StateOf(UtxoState(data.height, data.txCount, data.tip, 0), coin, chain)
      requires UndoHolds(utxoDb.undo, keep, Replay(coin, chain))
      modifies this`utxoDb, this`utxoFlushCount, this`dbHeight, this`dbTxCount, this`dbTip, this`dbChain, this`kept
      ensures DiskOk() && dbChain == chain && kept == keep + UndoHeights(data.undoInfos)
      ensures StateOf(UtxoState(dbHeight, dbTxCount, dbTip, utxoFlushCount), coin, chain)
      ensures utxoFlushCount == utxoDb.state.utxoFlushCount == history.flushCount
    {
      hide Tables, Layers, FilesHold, RowsHold, Replay, ValidChain, Coherent, UndoHolds, UndosOk, UndoHeights;
      hide Sorted, IdsUpTo, NonEmpty, HistoryStore.NoEmpties, RowsAreOf, Numbers, Abs;
      CoherentNumbers(coin, chain);
      ghost var ix := Replay(coin, chain);
      var h', u' := FlushTables(utxoDb.h, utxoDb.u, data.adds, data.deletes, Ix().utxos, Ix().txids, pend, ix.txids);
      var undo' := FlushUndoInfos(utxoDb.undo, data.undoInfos, keep, ix);
      RowsCommitted(history.rows, history.flushCount, ix);
      utxoFlushCount, dbHeight, dbTxCount, dbTip := history.flushCount, data.height, data.txCount, data.tip;
      utxoDb := Store(h', u', undo', UtxoState(dbHeight, dbTxCount, dbTip, utxoFlushCount));
      dbChain, kept := chain, keep + UndoHeights(data.undoInfos);
    }

    /** With the height of the last UTXO flush everything is flushed: the
        assertions of db.py assert_flushed hold. */
    lemma AssertFlushed(data: FlushData, chain: seq<Block>, pend: set<Outpoint>)
      requires DiskOk() && Opened() && DataOk(data, chain, pend) && data.height == dbHeight
      requires |chain| == |dbChain| ==> NothingPending(data)
      ensures fsChain == chain == dbChain
      ensures data.txCount == fsTxCount == dbTxCount && data.height == fsHeight == dbHeight && data.tip == dbTip
      ensures data.headers == [] && data.blockTxHashes == [] && NothingPending(data)
    {
      hide StoreHolds, FilesHold, HistoryOk, Replay, ValidChain, UtxoOk, RowsAreOf, Headers, BlockIds;
      NothingFrom(chain);
    }

    lemma FlushFacts(data: FlushData, chain: seq<Block>, pend: set<Outpoint>)
      requires DiskOk() && Opened() && DataOk(data, chain, pend)
      ensures utxoDb.state.utxoFlushCount <= history.flushCount && history.disk.compFlushCount >= -1
      ensures ValidChain(coin, chain) && fsChain <= chain
      ensures data.height == |chain| - 1 && dbHeight == |dbChain| - 1 && UtxoOk(data, chain, pend)
      ensures StateOf(UtxoState(data.height, data.txCount, data.tip, 0), coin, chain)
    {
      hide StoreHolds, FilesHold, Replay, ValidChain, UtxoOk, RowsAreOf, RowsHold, Headers, BlockIds;
    }

    /** How far a flush gets: the history is written from `stop` 3 on, under the next
        id, and the UTXO database after it. */
    ghost predicate StoppedAt(stop: nat, due: bool, db0: Store, db: Store, rows0: Rows, rows: Rows,
                              disk0: HistoryStore.State, disk: HistoryStore.State) {
      && (stop <= 3 || !due ==> db == db0)
      && (stop <= 2 || !due ==> rows == rows0 && disk == disk0)
      && (stop >= 3 && due ==> disk.flushCount == disk0.flushCount + 1)
    }

    /** Flush files, then history, then (if asked) the UTXO set.  The process may
        die after the headers (`stop` 0), the counts (1), the hashes (2) or the
        history (3) have been written. */
    method FlushDbs(data: FlushData, flushUtxos: bool, stop: nat, ghost chain: seq<Block>, ghost pend: set<Outpoint>)
      requires DiskOk() && Opened() && DataOk(data, chain, pend) && PendingOk(chain)
      requires |chain| == |dbChain| ==> NothingPending(data)
      requires history.flushCount + 1 < IDS
      modifies this, history
      ensures DiskOk() && txCounts == old(txCounts)
      ensures dbChain == if |chain| == |old(dbChain)| || (flushUtxos && stop > 3) then chain else old(dbChain)
      ensures stop > 3 ==> Opened() && fsChain == chain && history.unflushed == map[]
      ensures stop > 3 && dbChain != chain ==> utxoDb == old(utxoDb)
      ensures StoppedAt(stop, |chain| > |old(dbChain)|, old(utxoDb), utxoDb, old(history.rows), history.rows,
                        old(history.disk), history.disk)
      ensures kept == if dbChain != old(dbChain) then old(kept) + UndoHeights(data.undoInfos) else old(kept)
      ensures Onward(old(Counters()), Counters(), 1, dbChain != old(dbChain))
    {
      hide Tables, Layers, FilesHold, RowsHold, Replay, ValidChain, Coherent, UndoHolds, UndosOk, UndoHeights;
      hide Sorted, IdsUpTo, NonEmpty, HistoryStore.NoEmpties, RowsAreOf, Headers, BlockIds, Abs;
      FlushFacts(data, chain, pend);
      hide HistoryOk, DataOk, UtxoOk;
      if data.height == dbHeight {
        AssertFlushed(data, chain, pend);
        return;
      }
      FlushFs(data, stop, chain, pend);
      if stop <= 2 {
        return;
      }
      assert history.disk.flushCount == history.flushCount;
      FlushHistory(chain);
      if stop == 3 {
        return;
      }
      fsChain := chain;
      if flushUtxos {
        KeptExtends(coin, utxoDb.undo, kept, dbChain, chain);
        FlushUtxoDb(data, chain, pend, kept);
      } else {
        utxoDb := utxoDb.(state := UtxoState(dbHeight, dbTxCount, dbTip, utxoFlushCount));
      }
    }

    /** Back up the files' pointers, the history of the touched addresses, and the UTXO set. */
    method FlushBackup(data: FlushData, touched: set<HashX>, ghost chain: seq<Block>, ghost pend: set<Outpoint>)
      requires DiskOk() && Opened() && fsChain == dbChain && chain <= dbChain && ValidChain(coin, chain)
      requires |chain| < |dbChain| && data.headers == [] && data.blockTxHashes == [] && data.undoInfos == []
      requires history.unflushed == map[] && history.flushCount + 1 < IDS
      requires UtxoOk(data, chain, pend) && StateOf(UtxoState(data.height, data.txCount, data.tip, 0), coin, chain)
      requires Covers(touched, Ix().touches, data.txCount)
      modifies this, history
      ensures DiskOk() && Opened() && dbChain == fsChain == chain
      ensures history.unflushed == map[] && history.flushCount == old(history.flushCount) + 1
      ensures Onward(old(Counters()), Counters(), 1, true)
      ensures txCounts == old(txCounts) && kept == KeptBelow(old(kept), |chain|)
    {
      hide Tables, Layers, FilesHold, RowsHold, Replay, ValidChain, Coherent, UndoHolds, Covers;
      hide Sorted, IdsUpTo, NonEmpty, HistoryStore.NoEmpties, RowsAreOf, Numbers, Abs;
      assert dbChain[..|chain|] == chain;
      FilesPrefix(files, coin, dbChain, |chain|);
      fsHeight, fsTxCount := data.height, data.txCount;
      fsChain := chain;
      ghost var rows := history.rows;
      history.Backup(touched, data.txCount);
      RowsBackedUp(rows, touched, history.rows, coin, dbChain, |chain|);
      ghost var keep := KeptBelow(kept, |chain|);
      KeptCut(coin, utxoDb.undo, kept, dbChain, |chain|);
      FlushUtxoDb(data, chain, pend, keep);
    }

    // ---- opening ----

    method ReadUtxoState()
      requires StateOf(utxoDb.state, coin, dbChain)
      modifies this`dbHeight, this`dbTxCount, this`dbTip, this`utxoFlushCount, this`fsHeight, this`fsTxCount,
        this`fsChain
      ensures StateOf(UtxoState(dbHeight, dbTxCount, dbTip, utxoFlushCount), coin, dbChain)
      ensures utxoFlushCount == utxoDb.state.utxoFlushCount
      ensures fsChain == dbChain && fsHeight == |dbChain| - 1 && fsTxCount == |Ix().txids|
    {
      hide Replay;
      dbHeight, dbTxCount, dbTip := utxoDb.state.height, utxoDb.state.txCount, utxoDb.state.tip;
      utxoFlushCount := utxoDb.state.utxoFlushCount;
      fsHeight, fsTxCount := dbHeight, dbTxCount;
      fsChain := dbChain;
    }

    /** Only the most recent undo records are kept. */
    method ClearExcessUndoInfo()
      requires StoreHolds(utxoDb, kept, coin, dbChain) && dbHeight == |dbChain| - 1
      modifies this`utxoDb, this`kept
      ensures StoreHolds(utxoDb, kept, coin, dbChain) && utxoDb == old(utxoDb).(undo := utxoDb.undo)
      ensures kept == KeptFrom(old(kept), |dbChain| - reorgLimit)
      ensures forall ht :: ht in utxoDb.undo <==> ht in old(utxoDb).undo && ht >= |dbChain| - reorgLimit
      ensures forall ht :: ht in utxoDb.undo ==> utxoDb.undo[ht] == old(utxoDb).undo[ht]
    {
      hide Replay, Tables, ValidChain, UndoHolds, KeptFrom;
      var minHeight := dbHeight - reorgLimit + 1;
      UndoTrimmed(utxoDb.undo, kept, Ix(), minHeight);
      utxoDb := utxoDb.(undo := UndoFrom(utxoDb.undo, minHeight));
      kept := KeptFrom(kept, minHeight);
    }

    method ReadTxCounts()
      requires FilesHold(files, coin, dbChain) && dbHeight == |dbChain| - 1 && dbTxCount == |Ix().txids|
      modifies this`txCounts
      ensures txCounts == Ix().txCounts
    {
      hide Replay, FilesHold;
      CountsOnDisk(files, coin, dbChain);
      txCounts := files.txCounts[..dbHeight + 1];
      assert dbTxCount == if txCounts == [] then 0 else txCounts[|txCounts| - 1];
    }

    /** Open the history: flushes after the last UTXO flush are dropped, an
        unfinished compaction is forgotten. */
    method OpenHistory()
      requires HistoryOk() && utxoFlushCount == utxoDb.state.utxoFlushCount
      modifies `utxoFlushCount, history
      ensures HistoryOk() && utxoFlushCount == old(utxoFlushCount)
      ensures history.flushCount == utxoFlushCount && RowsAreOf(history.rows, Ix())
      ensures history.Valid() && history.compCursor == -1 && history.compFlushCount == -1 && history.unflushed == map[]
      ensures history.disk.compFlushCount == old(history.disk).compFlushCount
    {
      hide RowsHold, Replay, UpTo, Sorted, IdsUpTo, NonEmpty, RowsAreOf, HistoryStore.IdsBelow, HistoryStore.IdsFrom;
      RowsRestored(history.rows, utxoFlushCount, coin, dbChain);
      RowsWhole(history.rows, history.disk.flushCount, utxoFlushCount);
      utxoFlushCount := history.OpenDb(utxoFlushCount, false, history.maxRowEntries);
    }

    /** Load state from disk, cut the history back to the last UTXO flush and
        drop undo records older than the reorg limit. */
    method OpenDbs()
      requires DiskOk()
      modifies this, history
      ensures DiskOk() && Opened() && dbChain == fsChain == old(dbChain)
      ensures txCounts == Ix().txCounts && history.unflushed == map[]
      ensures kept == KeptFrom(old(kept), |dbChain| - reorgLimit)
      ensures forall ht :: ht in utxoDb.undo <==> ht in old(utxoDb).undo && ht >= |dbChain| - reorgLimit
      ensures var utxo := old(utxoDb.state.utxoFlushCount);
        Counters() == Counts(utxo, utxo, old(history.disk).compFlushCount)
    {
      hide Tables, RowsHold, FilesHold, Replay, ValidChain, UndoHolds, KeptFrom, RowsAreOf, IdsUpTo;
      hide HistoryStore.History.Valid, HistoryStore.History.Durable, HistoryStore.History.Resumable;
      ReadUtxoState();
      OpenHistory();
      ClearExcessUndoInfo();
      ReadTxCounts();
    }

    /** Record the flush count of a finished compaction in the state record. */
    method SetFlushCount(count: nat)
      modifies this`utxoFlushCount, this`utxoDb
      ensures utxoFlushCount == count
      ensures utxoDb == old(utxoDb).(state := UtxoState(dbHeight, dbTxCount, dbTip, count))
    {
      utxoFlushCount := count;
      utxoDb := utxoDb.(state := UtxoState(dbHeight, dbTxCount, dbTip, utxoFlushCount));
    }

    /** The index of the committed chain, its history perhaps half compacted:
        what the compaction tool leaves when it is killed. */
    ghost predicate Paused()
      reads this, history
    {
      && StoreHolds(utxoDb, kept, coin, dbChain)
      && FilesHold(files, coin, dbChain)
      && RowsAreOf(history.rows, Ix())
      && history.Resumable() && history.disk.flushCount <= utxoDb.state.utxoFlushCount
    }

    /** A half compacted database may be served from: the exact condition is on
        the row ids, since the next flush takes the next id. */
    lemma PausedIsOk()
      requires Paused() && history.disk.flushCount == utxoDb.state.utxoFlushCount
      ensures DiskOk() <==> IdsUpTo(history.rows, history.disk.flushCount)
      ensures history.disk.compFlushCount <= history.disk.flushCount ==> DiskOk()
    {
      hide Tables, FilesHold, Replay, ValidChain, UndoHolds, HistoryOf, Sorted, NonEmpty;
      CoherentNumbers(coin, dbChain);
      if IdsUpTo(history.rows, history.disk.flushCount) {
        RowsCommitted(history.rows, history.disk.flushCount, Ix());
      }
    }

    /** The rows that opening leaves, whether or not it has to cut the newest. */
    lemma OpenedRows()
      requires DiskOk() || Paused()
      ensures StoreHolds(utxoDb, kept, coin, dbChain) && FilesHold(files, coin, dbChain) && history.Resumable()
      ensures history.disk.compCursor != -1 ==> history.disk.flushCount <= utxoDb.state.utxoFlushCount
      ensures history.disk.flushCount <= utxoDb.state.utxoFlushCount ==> RowsAreOf(history.rows, Ix())
      ensures history.disk.flushCount > utxoDb.state.utxoFlushCount ==>
        var rows := UpTo(history.rows, utxoDb.state.utxoFlushCount);
        RowsAreOf(rows, Ix()) && Sorted(rows) && IdsUpTo(rows, utxoDb.state.utxoFlushCount)
    {
      hide StoreHolds, FilesHold, Replay, RowsAreOf, RowsHold, Sorted, IdsUpTo, NonEmpty, UpTo;
      hide HistoryStore.History.Resumable, HistoryStore.History.Durable;
      if DiskOk() {
        RowsRestored(history.rows, utxoDb.state.utxoFlushCount, coin, dbChain);
        RowsWhole(history.rows, history.disk.flushCount, utxoDb.state.utxoFlushCount);
      }
    }

    /** What a finished compaction leaves, before its count is recorded. */
    lemma CompactedFacts(top: nat)
      requires history.Valid() && history.disk == HistoryStore.State(top, -1, -1) && RowsAreOf(history.rows, Ix())
      ensures RowsHold(history.rows, top, Ix()) && history.Resumable() && IdsUpTo(history.rows, top)
    {
      hide Replay, RowsAreOf, RowsHold, Sorted, NonEmpty;
      CoherentNumbers(coin, dbChain);
      RowsCommitted(history.rows, top, Ix());
    }

    /** The compaction tool: started on a sound or half compacted database, killed
        and restarted as `runs` says.  The committed chain keeps its index; once
        finished, the flush counter has been reset to the highest row id.  Killed
        after its last batch, before the count is recorded in the UTXO database
        (`recorded` false), it can be restarted if the new count is not above the
        old one; CompactionRows.CutLoses is what happens otherwise. */
    method CompactHistory(limit: int, runs: seq<HistoryStore.ToolRun>, recorded: bool, ghost fit: nat)
      returns (finished: bool)
      requires DiskOk() || Paused()
      requires limit > 0 && ChainFits(Ix(), runs, fit)
      modifies this, history
      ensures dbChain == old(dbChain) && kept == KeptFrom(old(kept), |dbChain| - reorgLimit)
      ensures finished ==> DiskOk() && utxoDb.state.utxoFlushCount == history.disk.flushCount
      ensures finished ==> 1 <= history.disk.flushCount <= HistoryStore.Top(old(history.disk).compFlushCount, fit)
      ensures finished ==> history.disk.compFlushCount == -1
      ensures !finished && recorded && old(utxoDb.state.utxoFlushCount <= history.disk.flushCount) ==>
        && history.disk.flushCount == utxoDb.state.utxoFlushCount == old(utxoDb.state.utxoFlushCount)
        && history.disk.compFlushCount <= HistoryStore.Top(old(history.disk).compFlushCount, fit)
        && (DiskOk() <==> IdsUpTo(history.rows, history.disk.flushCount))
        && (HistoryStore.Top(old(history.disk).compFlushCount, fit) <= history.disk.flushCount ==> DiskOk())
      ensures !finished && (recorded || history.disk.flushCount <= utxoDb.state.utxoFlushCount) ==> Paused()
      ensures recorded && (exists i :: 0 <= i < |runs| && runs[i].batches >= 65536) ==> finished
      ensures finished && old(history.disk).compCursor == -1 && HistoryStore.SameSize(runs) ==>
        HistoryStore.AllWithin(history.rows, 0, 65536, history.maxRowEntries, utxoDb.state.utxoFlushCount)
      ensures RowsAreOf(history.rows, Ix())
    {
      hide Tables, RowsHold, FilesHold, Replay, ValidChain, UndoHolds, KeptFrom, UpTo, HistoryOf, RowsAreOf, ChainFits;
      hide Sorted, IdsUpTo, NonEmpty, Numbers, HistoryStore.AllWithin, HistoryStore.History.Resumable;
      OpenForCompacting();
      ghost var rows := history.rows;
      RunsOfChain(rows, Ix(), runs, fit);
      var compacted := history.CompactWithInterruptions(limit, utxoDb.state.utxoFlushCount, runs, fit);
      SameRows(rows, history.rows, Ix());
      if compacted {
        CompactedFacts(history.flushCount);
      }
      finished := compacted && recorded;
      if finished {
        SetFlushCount(history.flushCount);
      } else if recorded && history.disk.flushCount == utxoDb.state.utxoFlushCount {
        PausedIsOk();
      }
    }

    /** What opening for compaction finds: the history of the committed chain. */
    method OpenForCompacting()
      requires DiskOk() || Paused()
      modifies this, history
      ensures Paused() && dbChain == old(dbChain) && kept == KeptFrom(old(kept), |dbChain| - reorgLimit)
      ensures StateOf(UtxoState(dbHeight, dbTxCount, dbTip, utxoFlushCount), coin, dbChain)
      ensures utxoFlushCount == history.disk.flushCount && history.unflushed == map[]
      ensures history.disk == old(history.disk).(flushCount := history.disk.flushCount)
      ensures utxoDb.state == old(utxoDb.state)
      ensures old(utxoDb.state.utxoFlushCount <= history.disk.flushCount) ==>
        history.disk.flushCount == utxoDb.state.utxoFlushCount
      ensures txCounts == Ix().txCounts
    {
      hide Tables, RowsHold, FilesHold, Replay, ValidChain, UndoHolds, KeptFrom, UpTo;
      hide Sorted, IdsUpTo, NonEmpty, RowsAreOf, Numbers, HistoryStore.IdsBelow, HistoryStore.IdsFrom;
      ReadUtxoState();
      OpenedRows();
      utxoFlushCount := history.OpenDb(utxoFlushCount, true, history.maxRowEntries);
      ClearExcessUndoInfo();
      ReadTxCounts();
    }

    // ---- queries ----

    /** Numbers of committed transactions resolve whether memory is ahead of the
        disk (blocks processed) or behind it (blocks backed up). */
    lemma LookupReady(c: seq<Block>)
      requires FilesHold(files, coin, dbChain) && dbHeight == |dbChain| - 1
      requires txCounts == Replay(coin, c).txCounts && (dbChain <= c || c <= dbChain)
      ensures CanLookup(Ix().txids)
    {
      hide Replay, Extends;
      ReplayCoherent(coin, c);
      CountsOnDisk(files, coin, dbChain);
      if dbChain <= c {
        assert c[..|dbChain|] == dbChain;
        CountsPrefix(coin, c, |dbChain|);
      }
    }

    /** A committed number gives its transaction's hash and block. */
    lemma TxHashExact(n: nat, c: seq<Block>)
      requires FilesHold(files, coin, dbChain) && dbHeight == |dbChain| - 1
      requires txCounts == Replay(coin, c).txCounts && dbChain <= c && n < |Ix().txids|
      ensures FsTxHash(n).0 == Some(Ix().txids[n])
      ensures InBlock(dbChain, txCounts, n, FsTxHash(n).1, Ix().txids[n])
    {
      hide Replay, Extends, TxIds, CanLookup, FilesHold;
      assert c[..|dbChain|] == dbChain;
      CountsPrefix(coin, c, |dbChain|);
      CountsPrefix(coin, dbChain, 0);
      LookupReady(c);
      assert CanLookup(Ix().txids) ==> FsTxHash(n).0 == Some(Ix().txids[n]) by {
        LookupAt(Ix().txids, n);
      }
      HeightOf(coin, dbChain, n);
      BisectPrefix(Ix().txCounts, txCounts, n);
      BlockOf(coin, dbChain, FsTxHash(n).1, n);
    }

    lemma LookupAt(ids: seq<Hash>, n: nat)
      requires n < |ids|
      ensures CanLookup(ids) ==> FsTxHash(n).0 == Some(ids[n])
    {
    }

    /** A number past the committed transactions gives no hash. */
    lemma TxHashUnflushed(n: nat, c: seq<Block>)
      requires FilesHold(files, coin, dbChain) && dbHeight == |dbChain| - 1
      requires txCounts == Replay(coin, c).txCounts && dbChain <= c && n >= |Ix().txids|
      ensures FsTxHash(n).0 == None
    {
      hide Replay, Extends;
      assert c[..|dbChain|] == dbChain;
      CountsPrefix(coin, c, |dbChain|);
      CountsOnDisk(files, coin, dbChain);
      ReplayCoherent(coin, dbChain);
    }

    /** The transaction hashes of a block, in block order; None if it is not on disk. */
    method FsTxHashesAtBlockheight(height: nat) returns (r: Option<seq<Hash>>)
      requires DiskOk() && Opened() && dbChain <= fsChain && txCounts == Replay(coin, fsChain).txCounts
      ensures r == if height < |dbChain| then Some(TxIds(dbChain[height].txs)) else None
    {
      hide StoreHolds, RowsHold, RowsAreOf, IdsUpTo, Sorted, NonEmpty, Replay;
      if height > dbHeight {
        return None;
      }
      assert fsChain[..|dbChain|] == dbChain;
      BlockSlice(files, coin, fsChain, height);
      var first := if height > 0 then txCounts[height - 1] else 0;
      var count := txCounts[height] - first;
      r := Some(files.hashes[first..first + count]);
    }

    /** The header hashes of count blocks from a height; None if they are not all on disk. */
    method FsBlockHashes(height: int, count: nat) returns (r: Option<seq<Hash>>)
      requires FilesHold(files, coin, dbChain) && dbHeight == |dbChain| - 1
      ensures r.Some? <==> height >= 0 && (count == 0 || height + count <= |dbChain|)
      ensures r.Some? ==> |r.value| == count
      ensures r.Some? ==> forall i :: 0 <= i < count ==> r.value[i] == coin.headerHash(dbChain[height + i].header)
    {
      hide Replay;
      if height < 0 {
        return None;
      }
      var available := if count <= dbHeight + 1 - height then count else dbHeight + 1 - height;
      var diskCount := if available > 0 then available else 0;
      if diskCount != count {
        return None;
      }
      var hashes: seq<Hash> := [];
      for n := 0 to count
        invariant |hashes| == n && (count == 0 || height + count <= |dbChain| <= |files.headers|)
        invariant forall i :: 0 <= i < n ==> hashes[i] == coin.headerHash(dbChain[height + i].header)
      {
        assert files.headers[height + n] == Headers(dbChain)[height + n];
        hashes := hashes + [coin.headerHash(files.headers[height + n])];
      }
      r := Some(hashes);
    }

    /** All unspent outputs of an address, in no particular order; None while a
        transaction hash is not found.  With the counts of a chain that extends
        the committed one, the height is that of the transaction's block. */
    method AllUtxos(hashX: HashX, ghost c: seq<Block>) returns (r: Option<seq<UtxoRow>>)
      requires DiskOk() && CanLookup(Ix().txids)
      ensures r.Some? && NoDup(r.value)
      ensures forall row :: row in r.value <==> IsRowOf(row, Ix().utxos, hashX, txCounts)
      ensures dbHeight == |dbChain| - 1 && txCounts == Replay(coin, c).txCounts && dbChain <= c ==>
        forall row :: row in r.value ==> InBlock(dbChain, txCounts, row.txNum, row.height, row.txHash)
    {
      hide Tables, RowsHold, FilesHold, UndoHolds, ValidChain, IdsUpTo, Sorted, NonEmpty, Replay, Numbers;
      CoherentNumbers(coin, dbChain);
      var rows: seq<UtxoRow> := [];
      var todo := set k | k in utxoDb.u && k.hashX == hashX;
      ghost var all := todo;
      NumbersInRange(utxoDb.h, utxoDb.u, Ix().utxos, Ix().txids);
      while todo != {}
        invariant todo <= all && NoDup(rows)
        invariant forall row :: row in rows <==>
          exists k :: k in all && k !in todo && row == RowAt(utxoDb.u, Ix().txids, txCounts, k)
        decreases todo
      {
        var k :| k in todo;
        assert k in utxoDb.u;
        EntryResolved(utxoDb.h, utxoDb.u, Ix().utxos, Ix().txids, k);
        var (txHash, height) := FsTxHash(k.txNum);
        if txHash.None? {
          assert false;
        }
        var row := UtxoRow(k.txNum, k.idx, txHash.value, height, utxoDb.u[k]);
        assert row == RowAt(utxoDb.u, Ix().txids, txCounts, k);
        RowsPush(rows, row, utxoDb.u, Ix().txids, txCounts, all, todo, k);
        rows := rows + [row];
        todo := todo - {k};
      }
      r := Some(rows);
      RowsComplete(rows, utxoDb.h, utxoDb.u, Ix().utxos, Ix().txids, txCounts, hashX, all);
      if dbHeight == |dbChain| - 1 && txCounts == Replay(coin, c).txCounts && dbChain <= c {
        forall row | row in rows
          ensures InBlock(dbChain, txCounts, row.txNum, row.height, row.txHash)
        {
          RowInBlock(row, hashX, c);
        }
      }
    }

    lemma RowInBlock(row: UtxoRow, hashX: HashX, c: seq<Block>)
      requires FilesHold(files, coin, dbChain) && dbHeight == |dbChain| - 1
      requires txCounts == Replay(coin, c).txCounts && dbChain <= c
      requires Numbers(Ix().utxos, Ix().txids) && IsRowOf(row, Ix().utxos, hashX, txCounts)
      ensures InBlock(dbChain, txCounts, row.txNum, row.height, row.txHash)
    {
      hide FilesHold, Replay, InBlock;
      assert Ix().utxos[Outpoint(row.txHash, row.txPos)].txNum == row.txNum;
      TxHashExact(row.txNum, c);
    }

    /** (hashX, value) of each prevout that is unspent, None for the others. */
    method LookupUtxos(prevouts: seq<Outpoint>) returns (r: seq<Option<(HashX, nat)>>)
      requires DiskOk() && CanLookup(Ix().txids)
      ensures |r| == |prevouts|
      ensures forall i :: 0 <= i < |r| ==> r[i] == Found(Ix().utxos, prevouts[i])
    {
      hide Tables, RowsHold, FilesHold, UndoHolds, ValidChain, IdsUpTo, Sorted, NonEmpty, Replay;
      r := [];
      for i := 0 to |prevouts|
        invariant |r| == i && forall j :: 0 <= j < i ==> r[j] == Found(Ix().utxos, prevouts[j])
      {
        var v := LookupUtxo(prevouts[i]);
        r := r + [v];
      }
    }

    method LookupUtxo(prevout: Outpoint) returns (r: Option<(HashX, nat)>)
      requires DiskOk() && CanLookup(Ix().txids)
      ensures r == Found(Ix().utxos, prevout)
    {
      hide Tables, RowsHold, FilesHold, UndoHolds, ValidChain, IdsUpTo, Sorted, NonEmpty, Replay, Numbers, Candidates;
      CoherentNumbers(coin, dbChain);
      CandidateOf(utxoDb.h, utxoDb.u, Ix().utxos, Ix().txids, prevout);
      var todo := Candidates(utxoDb.h, prevout);
      while todo != {}
        invariant todo <= Candidates(utxoDb.h, prevout)
        invariant prevout in Ix().utxos ==> HOf(prevout, Ix().utxos[prevout]) in todo
        decreases todo
      {
        var k :| k in todo;
        CandidateStored(utxoDb.h, utxoDb.u, Ix().utxos, Ix().txids, prevout, k);
        var (hash, _) := FsTxHash(k.txNum);
        if hash == Some(prevout.hash) {
          var hashX := utxoDb.h[k];
          return Some((hashX, utxoDb.u[UKey(hashX, k.idx, k.txNum)]));
        }
        todo := todo - {k};
      }
      r := None;
    }
  }

  /** An unspent output as reported to clients. */
  datatype UtxoRow = UtxoRow(txNum: nat, txPos: nat, txHash: Hash, height: nat, value: nat)

  ghost function Found(m: UtxoMap, o: Outpoint): Option<(HashX, nat)> {
    if o in m then Some((m[o].hashX, m[o].value)) else None
  }

  /** row reports an entry of m that pays hashX, at the height its number falls in. */
  ghost predicate IsRowOf(row: UtxoRow, m: UtxoMap, hashX: HashX, counts: seq<nat>) {
    var o := Outpoint(row.txHash, row.txPos);
    && o in m && m[o] == Utxo(hashX, row.txNum, row.value)
    && row.height == BisectRight(counts, row.txNum)
  }

  ghost function RowAt(u: UTable, ids: seq<Hash>, counts: seq<nat>, k: UKey): UtxoRow {
    if k in u && k.txNum < |ids|
    then UtxoRow(k.txNum, k.idx, ids[k.txNum], BisectRight(counts, k.txNum), u[k])
    else UtxoRow(0, 0, ZERO, 0, 0)
  }

  function UndoFrom(undo: map<nat, seq<Utxo>>, min: int): map<nat, seq<Utxo>> {
    map ht | ht in undo && ht >= min :: undo[ht]
  }

  ghost function KeptFrom(kept: set<nat>, min: int): set<nat> {
    set ht | ht in kept && ht >= min
  }

  ghost function KeptBelow(kept: set<nat>, max: int): set<nat> {
    set ht | ht in kept && ht < max
  }

  /** Transaction number n is in the block at height ht and has the given id. */
  ghost predicate InBlock(chain: seq<Block>, counts: seq<nat>, n: nat, ht: nat, txid: Hash) {
    && ht < |chain| && ht < |counts|
    && var first := if ht > 0 then counts[ht - 1] else 0;
       first <= n < first + |chain[ht].txs| && chain[ht].txs[n - first].txid == txid
  }

  /** The set covers every address touched by a transaction from number n on. */
  ghost predicate Covers(touched: set<HashX>, touches: seq<set<HashX>>, n: nat) {
    forall i :: n <= i < |touches| ==> touches[i] <= touched
  }

  ghost predicate UndosOk(undos: seq<(seq<Utxo>, nat)>, ix: Index) {
    forall p :: p in undos ==> p.1 < |ix.undos| && p.0 == ix.undos[p.1]
  }

  ghost function UndoHeights(undos: seq<(seq<Utxo>, nat)>): set<nat> {
    set p | p in undos :: p.1
  }

  // ---- lemmas ----

  lemma {:induction false} JoinConcat(a: seq<seq<Hash>>, b: seq<Hash>)
    ensures Join(a + [b]) == Join(a) + b
  {
    assert (a + [b])[..|a|] == a;
  }

  lemma BlockIdsStep(chain: seq<Block>, k: nat)
    requires k < |chain|
    ensures var n := |chain| - 1;
      BlockIds(chain[k..]) == BlockIds(chain[..n][k..]) + [TxIds(chain[n].txs)]
  {
    hide TxIds;
  }

  lemma BlockIdsNone(chain: seq<Block>)
    ensures BlockIds(chain[|chain|..]) == []
  {
  }

  /** The transaction ids of a chain: those of a prefix, then those of the later blocks. */
  lemma {:induction false} IdsFromBlocks(coin: Coin, chain: seq<Block>, k: nat)
    requires k <= |chain|
    ensures Replay(coin, chain).txids == Replay(coin, chain[..k]).txids + Join(BlockIds(chain[k..]))
  {
    hide ApplyBody, TouchBody, UndoBody, BlockEffects, TxIds, BlockIds;
    if k == |chain| {
      assert chain[..k] == chain;
      BlockIdsNone(chain);
    } else {
      var n := |chain| - 1;
      var pre := chain[..n];
      IdsFromBlocks(coin, pre, k);
      assert pre[..k] == chain[..k];
      BlockIdsStep(chain, k);
      JoinConcat(BlockIds(pre[k..]), TxIds(chain[n].txs));
    }
  }

  /** A prefix of a chain: its counts, ids and headers are prefixes. */
  lemma PrefixFacts(coin: Coin, chain: seq<Block>, k: nat)
    requires k <= |chain|
    ensures Extends(Replay(coin, chain[..k]), Replay(coin, chain))
    ensures Coherent(Replay(coin, chain), |chain|) && Coherent(Replay(coin, chain[..k]), k)
    ensures Headers(chain[..k]) == Headers(chain)[..k]
  {
    ReplayPrefix(coin, chain, k);
    ReplayCoherent(coin, chain);
    ReplayCoherent(coin, chain[..k]);
  }

  lemma FilesPrefix(files: Files, coin: Coin, chain: seq<Block>, k: nat)
    requires FilesHold(files, coin, chain) && k <= |chain|
    ensures FilesHold(files, coin, chain[..k])
  {
    PrefixFacts(coin, chain, k);
  }

  /** Counts of a chain split at height k. */
  lemma FlushCounts(coin: Coin, chain: seq<Block>, k: nat)
    requires k <= |chain|
    ensures var ix := Replay(coin, chain);
      var prior := |Replay(coin, chain[..k]).txids|;
      && |ix.txCounts| == |chain| && |Headers(chain)| == |chain| && |BlockIds(chain[k..])| == |chain| - k
      && prior == (if k > 0 then ix.txCounts[k - 1] else 0)
      && |ix.txids| == (if chain == [] then 0 else ix.txCounts[|chain| - 1])
      && |Join(BlockIds(chain[k..]))| == |ix.txids| - prior
  {
    PrefixFacts(coin, chain, k);
    IdsFromBlocks(coin, chain, k);
  }

  /** The files reach as far as a flush writes. */
  lemma FilesReach(files: Files, coin: Coin, chain: seq<Block>, k: nat)
    requires k <= |chain| && FilesHold(files, coin, chain[..k])
    ensures |Replay(coin, chain[..k]).txids| <= |files.hashes| && k <= |files.txCounts| && k <= |files.headers|
  {
    hide Replay;
    PrefixFacts(coin, chain, k);
  }

  /** The parts of it that are there before the last file is written. */
  lemma PartsWritten(files: Files, coin: Coin, chain: seq<Block>, k: nat)
    requires k <= |chain| && FilesHold(files, coin, chain[..k])
    requires var prior := |Replay(coin, chain[..k]).txids|;
      prior <= |files.hashes| && k <= |files.txCounts| && k <= |files.headers|
      && |Replay(coin, chain).txCounts| == |chain| && |Headers(chain)| == |chain|
    ensures Headers(chain) <= WriteAt(files.headers, k, Headers(chain)[k..])
    ensures Replay(coin, chain).txCounts <= WriteAt(files.txCounts, k, Replay(coin, chain).txCounts[k..])
  {
    hide Replay, Headers, BlockIds, WriteAt;
    FilesWritten(files, coin, chain, k);
  }

  lemma FilesWritten(files: Files, coin: Coin, chain: seq<Block>, k: nat)
    requires k <= |chain| && FilesHold(files, coin, chain[..k])
    requires var prior := |Replay(coin, chain[..k]).txids|;
      prior <= |files.hashes| && k <= |files.txCounts| && k <= |files.headers|
      && |Replay(coin, chain).txCounts| == |chain| && |Headers(chain)| == |chain|
    ensures var prior := |Replay(coin, chain[..k]).txids|;
      FilesHold(
        Files(
          WriteAt(files.headers, k, Headers(chain)[k..]),
          WriteAt(files.txCounts, k, Replay(coin, chain).txCounts[k..]),
          WriteAt(files.hashes, prior, Join(BlockIds(chain[k..])))),
        coin, chain)
  {
    hide Replay, Coherent, Headers, BlockIds;
    PrefixFacts(coin, chain, k);
    CountsPrefix(coin, chain, k);
    IdsFromBlocks(coin, chain, k);
    WriteExtends(files.hashes, Replay(coin, chain[..k]).txids, Join(BlockIds(chain[k..])));
    WriteExtends(files.txCounts, Replay(coin, chain).txCounts[..k], Replay(coin, chain).txCounts[k..]);
    WriteExtends(files.headers, Headers(chain)[..k], Headers(chain)[k..]);
    Rejoin(Replay(coin, chain).txCounts, k);
    Rejoin(Headers(chain), k);
  }

  /** Files that hold a chain hold the chains it starts with. */
  lemma FilesStill(files: Files, coin: Coin, a: seq<Block>, b: seq<Block>)
    requires a <= b
    ensures FilesHold(files, coin, b) ==> FilesHold(files, coin, a)
  {
    if FilesHold(files, coin, b) {
      assert b[..|a|] == a;
      FilesPrefix(files, coin, b, |a|);
    }
  }

  /** Writing only some of the new parts disturbs nothing the files held. */
  lemma FilesPartWritten(files: Files, coin: Coin, chain: seq<Block>, headers: seq<Header>, counts: seq<nat>)
    requires FilesHold(files, coin, chain) && |chain| <= |files.txCounts| && |chain| <= |files.headers|
    ensures var written := WriteAt(files.headers, |chain|, headers);
      && FilesHold(files.(headers := written), coin, chain)
      && FilesHold(files.(headers := written, txCounts := WriteAt(files.txCounts, |chain|, counts)), coin, chain)
  {
    hide Replay;
    CountsPrefix(coin, chain, 0);
    WriteExtends(files.headers, Headers(chain), headers);
    WriteExtends(files.txCounts, Replay(coin, chain).txCounts, counts);
  }

  lemma CountsPrefix(coin: Coin, chain: seq<Block>, k: nat)
    requires k <= |chain|
    ensures |Replay(coin, chain).txCounts| == |chain|
    ensures Replay(coin, chain[..k]).txCounts == Replay(coin, chain).txCounts[..k]
  {
    hide Replay;
    PrefixFacts(coin, chain, k);
  }

  lemma Rejoin<T>(s: seq<T>, k: nat)
    requires k <= |s|
    ensures s[..k] + s[k..] == s
  {
  }

  /** Writing right after a known prefix of a file extends the known prefix. */
  lemma WriteExtends<T>(file: seq<T>, known: seq<T>, data: seq<T>)
    requires known <= file
    ensures known + data <= WriteAt(file, |known|, data)
  {
    assert file[..|known|] == known;
  }

  lemma NothingFrom(chain: seq<Block>)
    ensures Headers(chain)[|chain|..] == [] && BlockIds(chain[|chain|..]) == []
  {
  }

  lemma CoherentNumbers(coin: Coin, chain: seq<Block>)
    ensures Numbers(Replay(coin, chain).utxos, Replay(coin, chain).txids)
    ensures |Replay(coin, chain).touches| == |Replay(coin, chain).txids|
  {
    hide Replay;
    ReplayCoherent(coin, chain);
  }

  lemma KeptExtends(coin: Coin, undo: map<nat, seq<Utxo>>, kept: set<nat>, a: seq<Block>, b: seq<Block>)
    requires UndoHolds(undo, kept, Replay(coin, a)) && a <= b
    ensures UndoHolds(undo, kept, Replay(coin, b))
  {
    hide Replay, Coherent;
    PrefixFacts(coin, b, |a|);
    assert b[..|a|] == a;
  }

  // ---- rows and the chain ----

  lemma PendingSorted(rows: Rows, unflushed: map<HashX, seq<nat>>, ix: Index)
    requires forall a :: HistoryOf(rows, a) + HistoryStore.PendingIn(unflushed, a) == Occurs(ix.touches, a, 0)
    ensures forall a :: Increasing(HistoryOf(rows, a) + HistoryStore.PendingIn(unflushed, a))
  {
    hide HistoryOf, Increasing;
    forall a
      ensures Increasing(HistoryOf(rows, a) + HistoryStore.PendingIn(unflushed, a))
    {
      OccursRange(ix.touches, a, 0);
    }
  }

  /** After a history flush the old rows are still cut off exactly at the last UTXO flush. */
  lemma RowsAfterFlush(rows: Rows, unflushed: map<HashX, seq<nat>>, top: nat, rows': Rows, cut: nat,
                       dbIx: Index, fsIx: Index, ix: Index)
    requires RowsHold(rows, cut, dbIx) && RowsAreOf(rows, fsIx)
    requires HistoryStore.Put(rows, unflushed, top, rows') && cut < top
    requires forall a :: HistoryOf(rows', a) == HistoryOf(rows, a) + HistoryStore.PendingIn(unflushed, a)
    requires forall a :: HistoryOf(rows', a) == Occurs(ix.touches, a, 0)
    requires dbIx.touches <= ix.touches && fsIx.touches <= ix.touches && |dbIx.touches| <= |fsIx.touches|
    requires |dbIx.touches| == |dbIx.txids|
    ensures RowsHold(rows', cut, dbIx)
  {
    var n := |dbIx.txids|;
    forall a
      ensures AllFrom(HistoryStore.PendingIn(unflushed, a), n)
      ensures Below(HistoryOf(rows', a), n) == Occurs(dbIx.touches, a, 0)
    {
      PendingFrom(rows, unflushed, rows', fsIx, ix, a);
      BelowOccurs(ix.touches, a, n);
      assert ix.touches[..n] == dbIx.touches;
    }
    forall k | k in rows'
      ensures k.id <= cut ==> AllBelow(rows'[k], n)
      ensures k.id > cut ==> AllFrom(rows'[k], n)
    {
      if k.id == top && k.hashX in unflushed {
        assert rows'[k] == HistoryStore.PendingIn(unflushed, k.hashX);
      } else {
        assert rows'[k] == rows[k];
      }
    }
  }

  lemma PendingFrom(rows: Rows, unflushed: map<HashX, seq<nat>>, rows': Rows, fsIx: Index, ix: Index, a: HashX)
    requires HistoryOf(rows, a) == Occurs(fsIx.touches, a, 0)
    requires HistoryOf(rows', a) == HistoryOf(rows, a) + HistoryStore.PendingIn(unflushed, a)
    requires HistoryOf(rows', a) == Occurs(ix.touches, a, 0)
    requires fsIx.touches <= ix.touches
    ensures AllFrom(HistoryStore.PendingIn(unflushed, a), |fsIx.touches|)
  {
    hide HistoryOf, Occurs;
    var n := |fsIx.touches|;
    var rest := ix.touches[n..];
    assert ix.touches == fsIx.touches + rest;
    OccursConcat(fsIx.touches, rest, a, 0);
    OccursRange(rest, a, n);
    var p := Occurs(fsIx.touches, a, 0);
    assert (p + HistoryStore.PendingIn(unflushed, a))[|p|..] == HistoryStore.PendingIn(unflushed, a);
    assert (p + Occurs(rest, a, n))[|p|..] == Occurs(rest, a, n);
  }

  /** When every row belongs to the chain, the cut is at the newest row. */
  lemma RowsCommitted(rows: Rows, top: int, ix: Index)
    requires RowsAreOf(rows, ix) && IdsUpTo(rows, top) && IdsUpTo(rows, IDS - 1) && |ix.touches| == |ix.txids|
    ensures RowsHold(rows, top, ix)
  {
    var n := |ix.txids|;
    forall a
      ensures AllBelow(HistoryOf(rows, a), n) && Below(HistoryOf(rows, a), n) == Occurs(ix.touches, a, 0)
    {
      OccursRange(ix.touches, a, 0);
      BelowAll(HistoryOf(rows, a), n);
    }
    forall k | k in rows
      ensures AllBelow(rows[k], n)
    {
      assert AllBelow(HistoryOf(rows, k.hashX), n);
      RowWithin(rows, k.hashX, k.id, IDS, n);
    }
  }

  lemma RowWithin(rows: Rows, a: HashX, id: nat, m: nat, n: nat)
    requires id < m && AllBelow(Joined(rows, a, m), n)
    ensures AllBelow(Row(rows, a, id), n)
  {
    JoinedPrefix(rows, a, id + 1, m);
    var j := Joined(rows, a, id + 1);
    assert AllBelow(j, n) by {
      assert forall i :: 0 <= i < |j| ==> j[i] == Joined(rows, a, m)[i];
    }
    assert forall i :: 0 <= i < |Row(rows, a, id)| ==> Row(rows, a, id)[i] == j[|Joined(rows, a, id)| + i];
  }

  // ---- restart ----

  lemma RowsRestored(rows: Rows, cut: nat, coin: Coin, chain: seq<Block>)
    requires RowsHold(rows, cut, Replay(coin, chain))
    ensures RowsAreOf(UpTo(rows, cut), Replay(coin, chain)) && Sorted(UpTo(rows, cut))
    ensures RowsHold(UpTo(rows, cut), cut, Replay(coin, chain)) && IdsUpTo(UpTo(rows, cut), cut)
  {
    hide Replay, Coherent;
    ReplayCoherent(coin, chain);
    var ix := Replay(coin, chain);
    CoherentNumbers(coin, chain);
    forall a
      ensures HistoryOf(UpTo(rows, cut), a) == Occurs(ix.touches, a, 0)
      ensures Increasing(HistoryOf(UpTo(rows, cut), a))
      ensures Below(HistoryOf(UpTo(rows, cut), a), |ix.txids|) == Occurs(ix.touches, a, 0)
    {
      CutHistory(rows, cut, |ix.txids|, a);
      OccursRange(ix.touches, a, 0);
      BelowAll(Occurs(ix.touches, a, 0), |ix.txids|);
    }
  }

  lemma RowsWhole(rows: Rows, top: nat, cut: nat)
    requires IdsUpTo(rows, top)
    ensures top <= cut ==> UpTo(rows, cut) == rows
  {
  }

  /** No history is longer than `fit` rows of `max` entries. */
  ghost predicate IndexFits(ix: Index, max: nat, fit: nat) {
    forall a :: |Occurs(ix.touches, a, 0)| <= max * fit
  }

  /** The histories of the chain fit in `fit` rows, whatever row size a run is configured with. */
  ghost predicate ChainFits(ix: Index, runs: seq<HistoryStore.ToolRun>, fit: nat) {
    1 <= fit <= IDS &&
    forall i :: 0 <= i < |runs| ==> runs[i].maxRowEntries >= 1 && IndexFits(ix, runs[i].maxRowEntries, fit)
  }

  lemma RunsOfChain(rows: Rows, ix: Index, runs: seq<HistoryStore.ToolRun>, fit: nat)
    requires RowsAreOf(rows, ix) && ChainFits(ix, runs, fit)
    ensures HistoryStore.RunsFit(rows, runs, fit)
  {
    hide HistoryOf, Occurs;
    forall i | 0 <= i < |runs|
      ensures HistoryStore.AllFit(rows, runs[i].maxRowEntries, fit)
    {
      assert IndexFits(ix, runs[i].maxRowEntries, fit);
    }
  }

  lemma SameRows(rows: Rows, rows': Rows, ix: Index)
    requires RowsAreOf(rows, ix) && forall a :: HistoryOf(rows', a) == HistoryOf(rows, a)
    ensures RowsAreOf(rows', ix)
  {
    hide HistoryOf, Occurs;
  }

  lemma UndoTrimmed(undo: map<nat, seq<Utxo>>, kept: set<nat>, ix: Index, min: int)
    requires UndoHolds(undo, kept, ix)
    ensures UndoHolds(UndoFrom(undo, min), KeptFrom(kept, min), ix)
  {
  }

  lemma CountsOnDisk(files: Files, coin: Coin, chain: seq<Block>)
    requires FilesHold(files, coin, chain)
    ensures |chain| <= |files.txCounts| && files.txCounts[..|chain|] == Replay(coin, chain).txCounts
    ensures var counts := Replay(coin, chain).txCounts;
      |Replay(coin, chain).txids| == if counts == [] then 0 else counts[|counts| - 1]
  {
    hide Replay;
    ReplayCoherent(coin, chain);
  }

  // ---- backing up ----

  lemma KeptCut(coin: Coin, undo: map<nat, seq<Utxo>>, kept: set<nat>, chain: seq<Block>, k: nat)
    requires UndoHolds(undo, kept, Replay(coin, chain)) && k <= |chain|
    ensures UndoHolds(undo, KeptBelow(kept, k), Replay(coin, chain[..k]))
  {
    hide Replay;
    PrefixFacts(coin, chain, k);
  }

  /** Truncating the touched addresses truncates every history to the shorter chain. */
  lemma RowsBackedUp(rows: Rows, touched: set<HashX>, rows': Rows, coin: Coin, chain: seq<Block>, k: nat)
    requires k <= |chain| && RowsAreOf(rows, Replay(coin, chain))
    requires var n := |Replay(coin, chain[..k]).txids|;
      && Covers(touched, Replay(coin, chain).touches, n)
      && forall a :: HistoryOf(rows', a) == if a in touched then Below(HistoryOf(rows, a), n) else HistoryOf(rows, a)
    ensures RowsAreOf(rows', Replay(coin, chain[..k]))
  {
    hide Replay, HistoryOf, Covers;
    PrefixFacts(coin, chain, k);
    var n, t := |Replay(coin, chain[..k]).txids|, Replay(coin, chain).touches;
    assert t[..n] == Replay(coin, chain[..k]).touches;
    forall a
      ensures HistoryOf(rows', a) == Occurs(t[..n], a, 0)
    {
      if a in touched {
        BelowOccurs(t, a, n);
      } else {
        UntouchedSame(touched, t, n, a);
      }
    }
  }

  lemma UntouchedSame(touched: set<HashX>, t: seq<set<HashX>>, n: nat, a: HashX)
    requires n <= |t| && Covers(touched, t, n) && a !in touched
    ensures Occurs(t, a, 0) == Occurs(t[..n], a, 0)
  {
    assert t == t[..n] + t[n..];
    OccursConcat(t[..n], t[n..], a, 0);
    forall i | 0 <= i < |t[n..]|
      ensures a !in t[n..][i]
    {
      assert t[n..][i] == t[n + i];
    }
    OccursNowhere(t[n..], a, n);
  }

  // ---- queries ----

  lemma EntryResolved(h: HTable, u: UTable, m: UtxoMap, ids: seq<Hash>, k: UKey)
    requires Tables(h, u, m, ids) && k in u
    ensures k.txNum < |ids|
    ensures var o := PointOf(ids, k.idx, k.txNum); o in m && m[o] == Utxo(k.hashX, k.txNum, u[k])
  {
    assert UEntry(m, ids, k);
    var o := PointOf(ids, k.idx, k.txNum);
    assert Stored(h, u, o, m[o]);
  }

  lemma RowsPush(rows: seq<UtxoRow>, row: UtxoRow, u: UTable, ids: seq<Hash>, counts: seq<nat>,
                 all: set<UKey>, todo: set<UKey>, k: UKey)
    requires NoDup(rows) && todo <= all && k in todo && row == RowAt(u, ids, counts, k)
    requires forall x :: x in all ==> x in u && x.txNum < |ids| && x.hashX == k.hashX
    requires forall x :: x in rows <==> exists j :: j in all && j !in todo && x == RowAt(u, ids, counts, j)
    ensures NoDup(rows + [row])
    ensures forall x :: x in rows + [row] <==> exists j :: j in all && j !in todo - {k} && x == RowAt(u, ids, counts, j)
  {
    assert forall j :: j in all && j != k ==> RowAt(u, ids, counts, j) != row;
    assert row !in rows;
    assert forall x :: x in rows + [row] <==> x in rows || x == row;
  }

  lemma NumbersInRange(h: HTable, u: UTable, m: UtxoMap, ids: seq<Hash>)
    requires Tables(h, u, m, ids)
    ensures forall k :: k in u ==> k.txNum < |ids|
  {
    forall k | k in u
      ensures k.txNum < |ids|
    {
      EntryResolved(h, u, m, ids, k);
    }
  }

  lemma RowsComplete(rows: seq<UtxoRow>, h: HTable, u: UTable, m: UtxoMap, ids: seq<Hash>, counts: seq<nat>,
                     hashX: HashX, all: set<UKey>)
    requires Tables(h, u, m, ids) && Numbers(m, ids) && all == set k | k in u && k.hashX == hashX
    requires forall x :: x in rows <==> exists j :: j in all && x == RowAt(u, ids, counts, j)
    ensures forall row :: row in rows <==> IsRowOf(row, m, hashX, counts)
  {
    forall row
      ensures row in rows <==> IsRowOf(row, m, hashX, counts)
    {
      if row in rows {
        var j :| j in all && row == RowAt(u, ids, counts, j);
        EntryResolved(h, u, m, ids, j);
      }
      if IsRowOf(row, m, hashX, counts) {
        var o := Outpoint(row.txHash, row.txPos);
        assert Stored(h, u, o, m[o]);
        assert UOf(o, m[o]) in all;
        assert row == RowAt(u, ids, counts, UOf(o, m[o]));
      }
    }
  }

  /** The hash file, cut at a block's counts, is the block's transaction ids. */
  lemma BlockSlice(files: Files, coin: Coin, chain: seq<Block>, ht: nat)
    requires FilesHold(files, coin, chain) && ht < |chain|
    ensures var counts := Replay(coin, chain).txCounts;
      && ht < |counts|
      && var first := if ht > 0 then counts[ht - 1] else 0;
         first <= counts[ht] <= |files.hashes| && files.hashes[first..counts[ht]] == TxIds(chain[ht].txs)
  {
    hide Replay, Coherent, TxIds, Headers, Extends;
    PrefixFacts(coin, chain, ht + 1);
    BlockCounts(coin, chain, ht);
    BlockTxids(coin, chain, ht);
    SliceOf(Replay(coin, chain[..ht]).txids, TxIds(chain[ht].txs), files.hashes);
  }

  lemma BlockTxids(coin: Coin, chain: seq<Block>, ht: nat)
    requires ht < |chain|
    ensures Replay(coin, chain[..ht + 1]).txids == Replay(coin, chain[..ht]).txids + TxIds(chain[ht].txs)
    ensures Replay(coin, chain[..ht + 1]).txids <= Replay(coin, chain).txids
  {
    hide TxIds, Coherent, ApplyBody, TouchBody, UndoBody, BlockEffects;
    PrefixFacts(coin, chain, ht + 1);
    var upto := chain[..ht + 1];
    assert upto[..ht] == chain[..ht] && upto[ht] == chain[ht];
  }

  lemma SliceOf(a: seq<Hash>, b: seq<Hash>, file: seq<Hash>)
    requires a + b <= file
    ensures file[|a|..|a| + |b|] == b
  {
    assert file[..|a| + |b|] == a + b;
  }

  lemma BlockCounts(coin: Coin, chain: seq<Block>, ht: nat)
    requires ht < |chain|
    ensures var counts := Replay(coin, chain).txCounts;
      && |counts| == |chain|
      && counts[ht] == |Replay(coin, chain[..ht + 1]).txids|
      && (if ht > 0 then counts[ht - 1] else 0) == |Replay(coin, chain[..ht]).txids|
      && counts[ht] <= |Replay(coin, chain).txids|
  {
    hide Replay;
    PrefixFacts(coin, chain, ht + 1);
    PrefixFacts(coin, chain, ht);
  }

  /** bisect_right over the counts finds the block, with empty blocks skipped. */
  lemma HeightOf(coin: Coin, chain: seq<Block>, n: nat)
    requires n < |Replay(coin, chain).txids|
    ensures var counts := Replay(coin, chain).txCounts;
      var ht := BisectRight(counts, n);
      && ht < |chain|
      && (if ht > 0 then counts[ht - 1] else 0) <= n < counts[ht]
  {
    hide Replay;
    ReplayCoherent(coin, chain);
  }

  lemma {:induction false} BisectPrefix(a: seq<nat>, b: seq<nat>, x: nat)
    requires a <= b && BisectRight(a, x) < |a|
    ensures BisectRight(b, x) == BisectRight(a, x)
  {
    if a != [] && a[0] <= x {
      BisectPrefix(a[1..], b[1..], x);
    }
  }

  lemma BlockOf(coin: Coin, chain: seq<Block>, ht: nat, n: nat)
    requires ht < |chain| && n < |Replay(coin, chain).txids|
    requires |Replay(coin, chain).txCounts| == |chain|
    requires var counts := Replay(coin, chain).txCounts;
      (if ht > 0 then counts[ht - 1] else 0) <= n < counts[ht]
    ensures var first := if ht > 0 then Replay(coin, chain).txCounts[ht - 1] else 0;
      first <= n < first + |chain[ht].txs| && chain[ht].txs[n - first].txid == Replay(coin, chain).txids[n]
  {
    hide Replay;
    BlockCounts(coin, chain, ht);
    BlockTxids(coin, chain, ht);
    var ids := Replay(coin, chain[..ht + 1]).txids;
    assert ids[n] == Replay(coin, chain).txids[n];
  }
}
