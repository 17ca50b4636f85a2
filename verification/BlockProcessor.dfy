/** The block processor: caches over the database, advanced and backed up block by block. */
module BlockProcessor {
  import opened Types
  import opened Ledger
  import opened LedgerProofs
  import ChainMeaning
  import opened HistoryRows
  import HistoryStore
  import opened UtxoTables
  import opened Database
  import opened BlockSteps
  import ForkSearch

  class Processor {
    const db: DB

    var height: int
    var tip: Hash
    var txCount: nat
    var touched: set<HashX>

    // caches of unflushed items
    var headers: seq<Header>
    var txHashes: seq<seq<Hash>>
    var undoInfos: seq<(seq<Utxo>, nat)>

    // UTXO cache
    var utxoCache: UtxoMap
    var dbDeletes: seq<DbKey>

    /** The chain of blocks processed so far. */
    ghost var chain: seq<Block>
    /** Outpoints in the tables that are waiting to be deleted. */
    ghost var pend: set<Outpoint>

    /** The outpoint map as this process sees it: cache plus tables minus pending deletes. */
    ghost function Utxos(): UtxoMap
      reads `utxoCache, `pend, db`dbChain
    {
      Abs(db.Ix().utxos, pend, utxoCache)
    }

    ghost predicate CacheOk()
      reads `utxoCache, `dbDeletes, `pend, db`dbChain, db`utxoDb, db`txCounts, db`dbHeight, db`files
    {
      LayersOk() && db.CanLookup(db.Ix().txids)
    }

    ghost predicate LayersOk()
      reads `utxoCache, `dbDeletes, `pend, db`dbChain, db`utxoDb
    {
      Layers(db.utxoDb.h, db.utxoDb.u, db.Ix().utxos, db.Ix().txids, pend, utxoCache, dbDeletes)
    }

    constructor (db: DB)
      ensures this.db == db && chain == [] && pend == {}
      ensures height == -1 && tip == ZERO && txCount == 0 && touched == {}
      ensures headers == [] && txHashes == [] && undoInfos == [] && utxoCache == map[] && dbDeletes == []
    {
      this.db := db;
      height, tip, txCount, touched := -1, ZERO, 0, {};
      headers, txHashes, undoInfos := [], [], [];
      utxoCache, dbDeletes := map[], [];
      chain, pend := [], {};
    }

    // ---- spending ----

    /** Remove an outpoint and return its value: from the cache if it is there,
        else by marking its two table entries for deletion.  An outpoint of the
        map is removed exactly; an absent one is refused unless it is still in
        the tables or a single other outpoint shares its compressed id. */
    method SpendUtxo(txHash: Hash, idx: nat) returns (r: Option<Utxo>)
      requires CacheOk()
      modifies this`utxoCache, this`dbDeletes, this`pend
      ensures CacheOk()
      ensures var o := Outpoint(txHash, idx);
        o in old(Utxos()) ==> r == Some(old(Utxos())[o]) && Utxos() == old(Utxos()) - {o}
      ensures var o := Outpoint(txHash, idx);
        r.None? <==> o !in old(utxoCache) && o !in db.Ix().utxos && |Candidates(db.utxoDb.h, o)| != 1
      ensures r.None? ==> utxoCache == old(utxoCache) && dbDeletes == old(dbDeletes) && pend == old(pend)
    {
      hide Tables, Deletes, Numbers, Candidates, DB.FsTxHash, Abs, Replay;
      var o := Outpoint(txHash, idx);
      ghost var m, ids := db.Ix().utxos, db.Ix().txids;
      AbsHas(m, pend, utxoCache, o);
      if o in utxoCache {
        r := Some(utxoCache[o]);
        CachePop(db.utxoDb.h, db.utxoDb.u, m, ids, pend, utxoCache, dbDeletes, o);
        utxoCache := utxoCache - {o};
        return;
      }
      var candidates := Candidates(db.utxoDb.h, o);
      CandidateOf(db.utxoDb.h, db.utxoDb.u, m, ids, o);
      var todo := candidates;
      while todo != {}
        invariant todo <= candidates
        invariant o in m ==> HOf(o, m[o]) in todo
        invariant |candidates| == 1 ==> todo == candidates
        invariant utxoCache == old(utxoCache) && dbDeletes == old(dbDeletes) && pend == old(pend)
        decreases todo
      {
        var k :| k in todo;
        CandidateStored(db.utxoDb.h, db.utxoDb.u, m, ids, o, k);
        var skip := false;
        if |candidates| > 1 {
          var (hash, _) := db.FsTxHash(k.txNum);
          assert hash == Some(ids[k.txNum]);
          skip := hash != Some(txHash);
        }
        if !skip {
          OnlyCandidate(candidates, k);
          var hashX := db.utxoDb.h[k];
          var uKey := UKey(hashX, k.idx, k.txNum);
          r := Some(Utxo(hashX, k.txNum, db.utxoDb.u[uKey]));
          Marked(db.utxoDb.h, db.utxoDb.u, m, ids, pend, utxoCache, dbDeletes, PointOf(ids, k.idx, k.txNum));
          pend := pend + {PointOf(ids, k.idx, k.txNum)};
          dbDeletes := dbDeletes + [H(k), U(uKey)];
          return;
        }
        todo := todo - {k};
      }
      r := None;
    }

    /** Put an entry in the cache. */
    method PutUtxo(o: Outpoint, v: Utxo)
      requires CacheOk() && o !in Utxos()
      modifies this`utxoCache
      ensures CacheOk() && Utxos() == old(Utxos())[o := v]
    {
      hide Layers, DB.CanLookup, Abs;
      CachePut(db.utxoDb.h, db.utxoDb.u, db.Ix().utxos, db.Ix().txids, pend, utxoCache, dbDeletes, o, v);
      utxoCache := utxoCache[o := v];
    }

    // ---- advancing ----

    /** Spend the inputs of a transaction, generation inputs excepted. */
    method SpendInputs(tx: Tx, undo0: seq<Utxo>, hashXs0: set<HashX>) returns (undo: seq<Utxo>, hashXs: set<HashX>)
      requires CacheOk() && NoDup(Prevouts(tx.inputs)) && Elems(Prevouts(tx.inputs)) <= Utxos().Keys
      modifies this`utxoCache, this`dbDeletes, this`pend
      ensures CacheOk() && Utxos() == old(Utxos()) - Elems(Prevouts(tx.inputs))
      ensures undo == undo0 + Values(old(Utxos()), Prevouts(tx.inputs))
      ensures hashXs == hashXs0 + HashXsAt(old(Utxos()), Prevouts(tx.inputs))
      ensures forall o :: o in Utxos() <==> o in old(Utxos()) && !ChainMeaning.SpentBy(tx.inputs, o)
      ensures forall o :: o in Utxos() ==> Utxos()[o] == old(Utxos())[o]
    {
      hide Utxos, CacheOk, Values, HashXsAt, Prevouts, Elems, NoDup, ChainMeaning.SpentBy;
      ghost var m := Utxos();
      undo, hashXs := undo0, hashXs0;
      SpendStart(m, tx.inputs, undo0, hashXs0);
      for i := 0 to |tx.inputs|
        invariant CacheOk() && Utxos() == m - Elems(Prevouts(tx.inputs[..i]))
        invariant undo == undo0 + Values(m, Prevouts(tx.inputs[..i]))
        invariant hashXs == hashXs0 + HashXsAt(m, Prevouts(tx.inputs[..i]))
      {
        var txin := tx.inputs[i];
        PrevoutsStep(tx.inputs, i);
        if !txin.IsGeneration() {
          NextPrevout(tx.inputs, i);
          SpendStep(m, Prevouts(tx.inputs), Prevouts(tx.inputs[..i]), txin.Prevout());
          Assoc(undo0, Values(m, Prevouts(tx.inputs[..i])), [Get(m, txin.Prevout())]);
          var value := SpendUtxo(txin.prevHash, txin.prevIdx);
          undo := undo + [value.value];
          hashXs := hashXs + {value.value.hashX};
        } else {
          assert Prevouts(tx.inputs[..i]) + [] == Prevouts(tx.inputs[..i]);
        }
      }
      assert tx.inputs[..|tx.inputs|] == tx.inputs;
      ChainMeaning.InputsSpent(m, tx.inputs);
    }

    /** Put the spendable outputs of a transaction in the cache. */
    method AddOutputs(tx: Tx, ht: nat, num: nat, hashXs0: set<HashX>) returns (hashXs: set<HashX>)
      requires CacheOk() && Made(db.coin, ht, tx, num, |tx.outputs|).Keys !! Utxos().Keys
      modifies this`utxoCache
      ensures CacheOk() && Utxos() == old(Utxos()) + Made(db.coin, ht, tx, num, |tx.outputs|)
      ensures hashXs == hashXs0 + HashXsOf(Made(db.coin, ht, tx, num, |tx.outputs|))
      ensures forall i :: 0 <= i < |tx.outputs| && ChainMeaning.Spendable(db.coin, ht, tx.outputs[i].script) ==>
        && Outpoint(tx.txid, i) in Utxos()
        && Utxos()[Outpoint(tx.txid, i)] == Utxo(db.coin.hashX(tx.outputs[i].script), num, tx.outputs[i].value)
      ensures forall o :: o in Utxos() ==>
        || (o in old(Utxos()) && Utxos()[o] == old(Utxos())[o])
        || (o.hash == tx.txid && o.idx < |tx.outputs|
            && ChainMeaning.Spendable(db.coin, ht, tx.outputs[o.idx].script))
    {
      hide Utxos, CacheOk, Unspendable, HashXsOf, ChainMeaning.Spendable;
      hashXs := hashXs0;
      ghost var m := Utxos();
      HashXsNone();
      for idx := 0 to |tx.outputs|
        invariant CacheOk() && Utxos() == m + Made(db.coin, ht, tx, num, idx)
        invariant hashXs == hashXs0 + HashXsOf(Made(db.coin, ht, tx, num, idx))
      {
        var txout := tx.outputs[idx];
        if !Unspendable(db.coin, ht, txout.script) {
          var hashX := db.coin.hashX(txout.script);
          var v := Utxo(hashX, num, txout.value);
          MadeNext(db.coin, ht, tx, num, idx);
          HashXsPut(Made(db.coin, ht, tx, num, idx), Outpoint(tx.txid, idx), v);
          hashXs := hashXs + {hashX};
          PutUtxo(Outpoint(tx.txid, idx), v);
        }
      }
      ChainMeaning.OutputsAdded(db.coin, ht, tx, num, m);
    }

    /** One transaction in block order: spend its inputs, then add its outputs. */
    method AdvanceTx(tx: Tx, ht: nat, num: nat, undo0: seq<Utxo>) returns (undo: seq<Utxo>, hashXs: set<HashX>)
      requires CacheOk() && ValidEffect(Utxos(), EffectOf(db.coin, ht, tx, num))
      modifies this`utxoCache, this`dbDeletes, this`pend
      ensures var e := EffectOf(db.coin, ht, tx, num);
        && CacheOk() && Utxos() == (old(Utxos()) - Elems(e.spent)) + e.made
        && undo == undo0 + Values(old(Utxos()), e.spent)
        && hashXs == Touch(old(Utxos()), e)
    {
      hide Utxos, CacheOk, Prevouts, Made, NoDup, Values;
      undo, hashXs := SpendInputs(tx, undo0, {});
      hashXs := AddOutputs(tx, ht, num, hashXs);
    }

    /** The transactions of a block in block order. */
    method AdvanceInOrder(txs: seq<Tx>, ht: nat) returns (undo: seq<Utxo>, hashXsByTx: seq<set<HashX>>)
      requires CacheOk() && ValidInOrder(Utxos(), Effects(db.coin, ht, txs, txCount))
      modifies this`utxoCache, this`dbDeletes, this`pend, this`touched
      ensures var fx := Effects(db.coin, ht, txs, txCount);
        && CacheOk() && Utxos() == Apply(old(Utxos()), fx)
        && undo == Undo(old(Utxos()), fx) && hashXsByTx == Touches(old(Utxos()), fx)
        && touched == old(touched) + UnionOf(hashXsByTx)
    {
      hide Utxos, CacheOk, EffectOf, ValidInOrder, ValidEffect, Touch, Values, Elems;
      hide Apply, Undo, Touches, Effects, UnionOf;
      ghost var m, fx := Utxos(), Effects(db.coin, ht, txs, txCount);
      undo, hashXsByTx := [], [];
      EffectsAt(db.coin, ht, txs, txCount, 0);
      ApplyStart(m, fx, touched);
      for i := 0 to |txs|
        invariant CacheOk() && Utxos() == Apply(m, fx[..i])
        invariant undo == Undo(m, fx[..i]) && hashXsByTx == Touches(m, fx[..i])
        invariant touched == old(touched) + UnionOf(hashXsByTx)
      {
        EffectsAt(db.coin, ht, txs, txCount, i);
        ValidAt(m, fx, i);
        ApplyStep(m, fx, i);
        var hashXs;
        undo, hashXs := AdvanceTx(txs[i], ht, txCount + i, undo);
        UnionPush(hashXsByTx, hashXs);
        hashXsByTx := hashXsByTx + [hashXs];
        touched := touched + hashXs;
      }
      assert fx[..|fx|] == fx;
    }

    /** LTOR: all outputs of the block first. */
    method AddAllOutputs(txs: seq<Tx>, ht: nat) returns (hashXsByTx: seq<set<HashX>>)
      requires CacheOk() && Fresh(Utxos(), Effects(db.coin, ht, txs, txCount))
      modifies this`utxoCache
      ensures var fx := Effects(db.coin, ht, txs, txCount);
        CacheOk() && Utxos() == old(Utxos()) + AllMade(fx) && PaidTo(hashXsByTx, fx)
    {
      hide Utxos, CacheOk, Fresh, Effects, AllMade, AllSpent, EffectOf, HashXsOf;
      ghost var m, fx := Utxos(), Effects(db.coin, ht, txs, txCount);
      hashXsByTx := [];
      EffectsAt(db.coin, ht, txs, txCount, 0);
      AllMadeStart(m, fx);
      for i := 0 to |txs|
        invariant CacheOk() && Utxos() == m + AllMade(fx[..i]) && PaidTo(hashXsByTx, fx[..i])
      {
        EffectsAt(db.coin, ht, txs, txCount, i);
        EffectParts(db.coin, ht, txs[i], txCount + i);
        FreshAt(m, fx, i);
        LtorStep(fx, i);
        MapAssoc(m, AllMade(fx[..i]), fx[i].made);
        var hashXs := AddOutputs(txs[i], ht, txCount + i, {});
        hashXsByTx := hashXsByTx + [hashXs];
        assert fx[..i + 1] == fx[..i] + [fx[i]];
      }
      assert fx[..|fx|] == fx;
    }

    /** LTOR: then all inputs, in any order of the transactions. */
    method SpendAllInputs(txs: seq<Tx>, ht: nat, paidTo: seq<set<HashX>>)
      returns (undo: seq<Utxo>, hashXsByTx: seq<set<HashX>>)
      requires var fx := Effects(db.coin, ht, txs, txCount);
        && CacheOk() && NoDup(AllSpent(fx)) && Elems(AllSpent(fx)) <= Utxos().Keys && PaidTo(paidTo, fx)
      modifies this`utxoCache, this`dbDeletes, this`pend
      ensures var fx := Effects(db.coin, ht, txs, txCount);
        && CacheOk() && Utxos() == old(Utxos()) - Elems(AllSpent(fx))
        && undo == Values(old(Utxos()), AllSpent(fx)) && hashXsByTx == TouchesAt(old(Utxos()), fx)
    {
      hide Utxos, CacheOk, Effects, AllMade, AllSpent, EffectOf, HashXsOf;
      hide HashXsAt, Values, Elems, NoDup, Touch, TouchesAt;
      ghost var m, fx := Utxos(), Effects(db.coin, ht, txs, txCount);
      undo, hashXsByTx := [], [];
      EffectsAt(db.coin, ht, txs, txCount, 0);
      AllSpentStart(m, fx);
      for i := 0 to |txs|
        invariant CacheOk() && Utxos() == m - Elems(AllSpent(fx[..i]))
        invariant undo == Values(m, AllSpent(fx[..i])) && hashXsByTx == TouchesAt(m, fx[..i])
      {
        EffectsAt(db.coin, ht, txs, txCount, i);
        EffectParts(db.coin, ht, txs[i], txCount + i);
        SpentAt(m, fx, i);
        SpentStep(m, fx, i);
        var hashXs;
        undo, hashXs := SpendInputs(txs[i], undo, paidTo[i]);
        hashXsByTx := hashXsByTx + [hashXs];
      }
      assert fx[..|fx|] == fx;
    }

    /** The transactions of a block, outputs first. */
    method AdvanceOutputsFirst(txs: seq<Tx>, ht: nat) returns (undo: seq<Utxo>, hashXsByTx: seq<set<HashX>>)
      requires CacheOk() && ValidLtor(Utxos(), Effects(db.coin, ht, txs, txCount))
      modifies this`utxoCache, this`dbDeletes, this`pend, this`touched
      ensures var fx := Effects(db.coin, ht, txs, txCount);
        && CacheOk() && Utxos() == ApplyLtor(old(Utxos()), fx)
        && undo == UndoLtor(old(Utxos()), fx) && hashXsByTx == TouchesLtor(old(Utxos()), fx)
        && touched == old(touched) + UnionOf(hashXsByTx)
    {
      hide Utxos, CacheOk, Effects, AllMade, AllSpent, Values, Elems, NoDup, TouchesAt, UnionOf;
      var paidTo := AddAllOutputs(txs, ht);
      undo, hashXsByTx := SpendAllInputs(txs, ht, paidTo);
      ApplyStart(map[], [], touched);
      for i := 0 to |hashXsByTx|
        modifies this`touched
        invariant touched == old(touched) + UnionOf(hashXsByTx[..i])
      {
        UnionPush(hashXsByTx[..i], hashXsByTx[i]);
        assert hashXsByTx[..i + 1] == hashXsByTx[..i] + [hashXsByTx[i]];
        touched := touched + hashXsByTx[i];
      }
      assert hashXsByTx[..|hashXsByTx|] == hashXsByTx;
    }

    method AdvanceBody(txs: seq<Tx>, ht: nat) returns (undo: seq<Utxo>, hashXsByTx: seq<set<HashX>>)
      requires CacheOk() && ValidBody(db.coin, Utxos(), Effects(db.coin, ht, txs, txCount))
      modifies this`utxoCache, this`dbDeletes, this`pend, this`touched
      ensures var fx := Effects(db.coin, ht, txs, txCount);
        && CacheOk() && Utxos() == ApplyBody(db.coin, old(Utxos()), fx)
        && undo == UndoBody(db.coin, old(Utxos()), fx) && hashXsByTx == TouchBody(db.coin, old(Utxos()), fx)
        && touched == old(touched) + UnionOf(hashXsByTx)
    {
      hide Utxos, CacheOk, Effects, ValidInOrder, ValidLtor, Apply, ApplyLtor;
      hide Undo, UndoLtor, Touches, TouchesLtor, UnionOf;
      if db.coin.ltor {
        undo, hashXsByTx := AdvanceOutputsFirst(txs, ht);
      } else {
        undo, hashXsByTx := AdvanceInOrder(txs, ht);
      }
    }

    /** The state a block's transactions leave behind, block headers apart. */
    ghost predicate Synced()
      reads `chain, `txCount, `txHashes, `utxoCache, `dbDeletes, `pend, db, db.history
    {
      && ValidChain(db.coin, chain)
      && txCount == |Replay(db.coin, chain).txids|
      && db.txCounts == Replay(db.coin, chain).txCounts
      && CacheOk() && Utxos() == Replay(db.coin, chain).utxos
      && db.fsChain <= chain
      && txHashes == BlockIds(chain[|db.fsChain|..])
      && db.PendingOk(chain)
    }

    /** Process the transactions of the next block. */
    method AdvanceTxs(b: Block, ht: nat) returns (undo: seq<Utxo>)
      requires Synced() && db.DiskOk() && db.Opened() && ht == |chain| && ValidNext(db.coin, chain, b)
      modifies this`utxoCache, this`dbDeletes, this`pend, this`touched, this`txCount, this`txHashes, this`chain
      modifies db`txCounts, db.history`unflushed
      ensures Synced() && db.DiskOk() && db.Opened() && chain == old(chain) + [b]
      ensures txCount == old(txCount) + |b.txs|
      ensures UndosOk([(undo, ht)], Replay(db.coin, chain))
      ensures touched == old(touched) + TouchedSince(Replay(db.coin, chain).touches, old(txCount))
    {
      hide Utxos, LayersOk, Effects, ValidBody, ApplyBody, UndoBody, TouchBody, UnionOf, TouchedSince, Abs;
      hide DB.DiskOk, FilesHold, RowsAreOf, BlockIds, Replay, ValidChain, HistoryStore.History.Durable, IdsUpTo;
      hide HistoryStore.Appended, DB.CanLookup, DB.PendingOk, TxIds;
      FilesFacts();
      ghost var ix := Replay(db.coin, chain);
      ghost var unflushed := db.history.unflushed;
      NextIndex(db.coin, chain, b);
      NextBlockIds(chain, |db.fsChain|, b);
      txHashes := txHashes + [TxIds(b.txs)];
      var hashXsByTx;
      undo, hashXsByTx := AdvanceBody(b.txs, ht);
      TouchedTail(ix.touches, hashXsByTx);
      PendingFacts(db, chain);
      db.history.AddUnflushed(hashXsByTx, txCount);
      PendingAppend(db.history.rows, unflushed, db.history.unflushed, ix.touches, hashXsByTx);
      db.txCounts := db.txCounts + [txCount + |b.txs|];
      txCount := txCount + |b.txs|;
      assert db.dbChain <= chain + [b];
      chain := chain + [b];
      LookupKept(chain);
      PendingMake(db, chain);
    }

    lemma FilesFacts()
      requires db.DiskOk()
      ensures FilesHold(db.files, db.coin, db.dbChain)
    {
      hide FilesHold, StoreHolds, DB.HistoryOk;
    }

    /** Adding a count keeps committed numbers resolvable. */
    lemma LookupKept(c: seq<Block>)
      requires LayersOk() && FilesHold(db.files, db.coin, db.dbChain) && db.dbHeight == |db.dbChain| - 1
      requires db.txCounts == Replay(db.coin, c).txCounts && (db.dbChain <= c || c <= db.dbChain)
      ensures CacheOk()
    {
      hide LayersOk;
      db.LookupReady(c);
    }

    /** Everything held in memory and on disk is what replaying `chain` gives. */
    ghost predicate Valid()
      reads this, db, db.history
    {
      && db.DiskOk() && db.Opened() && Synced()
      && height == |chain| - 1 && tip == Tip(db.coin, chain)
      && headers == Headers(chain)[|db.fsChain|..]
      && UndosOk(undoInfos, Replay(db.coin, chain))
      && (|chain| == |db.dbChain| ==> db.NothingPending(FlushData()))
    }

    function FlushData(): FlushData
      reads this
    {
      Database.FlushData(height, txCount, headers, txHashes, undoInfos, utxoCache, dbDeletes, tip)
    }

    /** Memory and disk agree on `chain`, the block headers apart. */
    ghost predicate Working()
      reads `chain, `txCount, `txHashes, `undoInfos, `utxoCache, `dbDeletes, `pend, db, db.history
    {
      Synced() && db.DiskOk() && db.Opened() && UndosOk(undoInfos, Replay(db.coin, chain))
    }

    /** One block: its transactions, then its undo record if a reorganisation may reach it. */
    method AdvanceBlock(b: Block, ht: nat, minHeight: int)
      requires Working() && ht == |chain| && ValidNext(db.coin, chain, b)
      modifies this`utxoCache, this`dbDeletes, this`pend, this`touched, this`txCount, this`txHashes, this`chain
      modifies this`undoInfos, db`txCounts, db.history`unflushed
      ensures Working() && chain == old(chain) + [b]
      ensures touched == old(touched) + TouchedSince(Replay(db.coin, chain).touches, old(txCount))
      ensures UndoHeights(undoInfos) == UndoHeights(old(undoInfos)) + (if ht >= minHeight then {ht} else {})
    {
      hide CacheOk, Utxos, BlockIds, DB.PendingOk, DB.DiskOk, DB.Opened, Headers;
      hide Replay, ValidChain, UndosOk, TouchedSince, UndoHeights;
      ghost var undos := undoInfos;
      var undo := AdvanceTxs(b, ht);
      UndosStep(db.coin, old(chain), b, undoInfos, undo);
      if ht >= minHeight {
        undoInfos := undoInfos + [(undo, ht)];
      }
    }

    /** Process blocks that connect to the tip; undo records are kept for the
        heights a reorganisation may reach. */
    method AdvanceBlocks(blocks: seq<Block>, cachedHeight: int)
      requires Valid() && blocks != [] && ValidChain(db.coin, chain + blocks)
      modifies this, db`txCounts, db.history`unflushed
      ensures Valid() && chain == old(chain) + blocks
      ensures touched == old(touched) + TouchedSince(Replay(db.coin, chain).touches, old(txCount))
      ensures UndoHeights(undoInfos) == UndoHeights(old(undoInfos))
        + HeightsFrom(|old(chain)|, |chain|, cachedHeight - db.reorgLimit + 1)
    {
      hide Valid, Working, Replay, ValidChain, TouchedSince, UndoHeights, HeightsFrom, HeadersOf, Headers, ValidNext;
      var minHeight := cachedHeight - db.reorgLimit + 1;
      var ht := height;
      ghost var before, count, all := chain, txCount, chain + blocks;
      WorkingStart();
      for i := 0 to |blocks|
        modifies this`utxoCache, this`dbDeletes, this`pend, this`touched, this`txCount, this`txHashes, this`chain
        modifies this`undoInfos, db`txCounts, db.history`unflushed
        invariant ht == |before| - 1 + i && chain == before + blocks[..i]
        invariant Working() && txCount == |Replay(db.coin, chain).touches| && count <= txCount
        invariant touched == old(touched) + TouchedSince(Replay(db.coin, chain).touches, count)
        invariant UndoHeights(undoInfos) == UndoHeights(old(undoInfos)) + HeightsFrom(|before|, |chain|, minHeight)
      {
        ht := ht + 1;
        NextValid(db.coin, before, blocks, i);
        AdvanceStep(db.coin, chain, blocks[i], count, minHeight, |before|);
        AdvanceBlock(blocks[i], ht, minHeight);
        WorkingCount();
      }
      assert blocks[..|blocks|] == blocks;
      MoreHeaders(before, blocks, |db.fsChain|);
      height := ht;
      headers := headers + HeadersOf(blocks);
      tip := db.coin.headerHash(blocks[|blocks| - 1].header);
      ValidMake();
    }

    lemma WorkingStart()
      requires Valid()
      ensures Working() && txCount == |Replay(db.coin, chain).touches| && height == |chain| - 1
      ensures touched == touched + TouchedSince(Replay(db.coin, chain).touches, txCount)
      ensures forall min :: UndoHeights(undoInfos) == UndoHeights(undoInfos) + HeightsFrom(|chain|, |chain|, min)
      ensures |db.dbChain| <= |db.fsChain| <= |chain| && headers == Headers(chain)[|db.fsChain|..]
    {
      hide Replay, UndoHeights, UndosOk;
      CoherentNumbers(db.coin, chain);
      var t := Replay(db.coin, chain).touches;
      assert t[txCount..] == [];
    }

    lemma WorkingCount()
      requires Working()
      ensures txCount == |Replay(db.coin, chain).touches|
    {
      hide Replay;
      CoherentNumbers(db.coin, chain);
    }

    lemma ValidMake()
      requires Working() && height == |chain| - 1 && tip == Tip(db.coin, chain)
      requires |db.fsChain| <= |chain| && headers == Headers(chain)[|db.fsChain|..] && |db.dbChain| < |chain|
      ensures Valid()
    {
      hide Replay, UndosOk, Headers;
    }

    // ---- flushing ----

    /** Flush the caches, the UTXO set only if asked; with `stop` below 4
        the process dies between two writes.  A completed flush changes nothing that
        can be observed. */
    method Flush(flushUtxos: bool, stop: nat)
      requires Valid() && db.history.flushCount + 1 < IDS
      modifies this, db, db.history
      ensures db.DiskOk() && chain == old(chain) && touched == old(touched)
      ensures db.dbChain == if |chain| == |old(db.dbChain)| || (flushUtxos && stop > 3) then chain else old(db.dbChain)
      ensures stop > 3 ==> Valid() && Utxos() == old(Utxos())
      ensures stop > 3 && flushUtxos ==> AllFlushed()
      ensures db.kept ==
        if db.dbChain != old(db.dbChain) then old(db.kept) + UndoHeights(old(undoInfos)) else old(db.kept)
      ensures stop > 3 && db.dbChain == old(db.dbChain) ==> undoInfos == old(undoInfos)
      ensures Onward(old(db.Counters()), db.Counters(), 1, db.dbChain != old(db.dbChain))
    {
      hide Replay, ValidChain, UndosOk, UndoHeights, DB.DiskOk, DB.Opened, DB.DataOk, DB.PendingOk, DB.NothingPending;
      hide Valid, LayersOk, Utxos, DB.CanLookup, AllFlushed, Headers, BlockIds, DB.StoppedAt;
      FlushReady();
      ValidFacts();
      var flushed := height == db.dbHeight;
      if flushed {
        IdleFacts();
      }
      db.FlushDbs(FlushData(), flushUtxos, stop, chain, pend);
      if stop <= 3 {
        return;
      }
      if !flushed {
        headers, txHashes := [], [];
        if flushUtxos {
          undoInfos, utxoCache, dbDeletes, pend := [], map[], [], {};
        }
      }
      if flushUtxos || flushed {
        AfterFullFlush();
      } else {
        AfterFlush();
      }
    }

    lemma ValidFacts()
      requires Valid()
      ensures height == |chain| - 1 && tip == Tip(db.coin, chain) && txCount == |Replay(db.coin, chain).txids|
      ensures ValidChain(db.coin, chain) && db.txCounts == Replay(db.coin, chain).txCounts
      ensures LayersOk() && Utxos() == Replay(db.coin, chain).utxos && UndosOk(undoInfos, Replay(db.coin, chain))
      ensures db.dbHeight == |db.dbChain| - 1 && db.dbChain <= db.fsChain <= chain
    {
      hide LayersOk, Utxos, Replay, ValidChain, UndosOk, DB.CanLookup, RowsAreOf, RowsHold, FilesHold, StoreHolds;
      hide NonEmpty, Sorted, IdsUpTo, Headers, BlockIds, DB.PendingOk;
    }

    lemma IdleFacts()
      requires Valid() && |chain| == |db.dbChain|
      ensures headers == [] && txHashes == [] && undoInfos == [] && utxoCache == map[] && dbDeletes == [] && pend == {}
      ensures db.history.unflushed == map[] && db.dbChain == db.fsChain == chain
    {
      hide Tables, Numbers, Replay, ValidChain, UndosOk, DB.CanLookup, RowsAreOf, RowsHold, FilesHold, StoreHolds;
      hide NonEmpty, Sorted, IdsUpTo, Headers, BlockIds, DB.PendingOk, DeleteOf, Abs;
      NothingFrom(chain);
    }

    lemma AfterFlush()
      requires db.DiskOk() && db.Opened() && ValidChain(db.coin, chain)
      requires height == |chain| - 1 && tip == Tip(db.coin, chain) && txCount == |Replay(db.coin, chain).txids|
      requires db.txCounts == Replay(db.coin, chain).txCounts && db.fsChain == chain
      requires headers == [] && txHashes == [] && db.history.unflushed == map[]
      requires |db.dbChain| < |chain| && LayersOk() && Utxos() == Replay(db.coin, chain).utxos
      requires UndosOk(undoInfos, Replay(db.coin, chain))
      ensures Valid()
    {
      hide LayersOk, Utxos, Replay, ValidChain, UndosOk, DB.CanLookup, RowsAreOf, RowsHold, FilesHold, StoreHolds;
      hide NonEmpty, Sorted, IdsUpTo, Headers, BlockIds;
      PendingNone(db.history.rows, Replay(db.coin, chain));
      db.LookupReady(chain);
      NothingFrom(chain);
    }

    lemma AfterFullFlush()
      requires db.DiskOk() && db.Opened() && ValidChain(db.coin, chain)
      requires height == |chain| - 1 && tip == Tip(db.coin, chain) && txCount == |Replay(db.coin, chain).txids|
      requires db.txCounts == Replay(db.coin, chain).txCounts && db.fsChain == chain
      requires headers == [] && txHashes == [] && db.history.unflushed == map[]
      requires db.dbChain == chain && undoInfos == [] && utxoCache == map[] && dbDeletes == [] && pend == {}
      ensures Valid() && AllFlushed() && Utxos() == Replay(db.coin, chain).utxos
    {
      hide Replay, ValidChain, UndosOk, DB.CanLookup, RowsAreOf, RowsHold, FilesHold, Tables, UndoHolds, Layers, Abs;
      hide NonEmpty, Sorted, IdsUpTo, Headers, BlockIds;
      PendingNone(db.history.rows, Replay(db.coin, chain));
      db.LookupReady(chain);
      NothingFrom(chain);
      CoherentNumbers(db.coin, chain);
      FreshLayers(db.utxoDb.h, db.utxoDb.u, Replay(db.coin, chain).utxos, Replay(db.coin, chain).txids);
      assert UndosOk([], Replay(db.coin, chain)) by {
        NoUndos(Replay(db.coin, chain));
      }
    }

    /** Nothing waits in memory. */
    ghost predicate AllFlushed()
      reads this, db, db.history
    {
      && db.dbChain == db.fsChain == chain
      && headers == [] && txHashes == [] && undoInfos == [] && utxoCache == map[] && dbDeletes == []
      && db.history.unflushed == map[]
    }

    lemma FlushReady()
      requires Valid()
      ensures db.DiskOk() && db.Opened() && db.DataOk(FlushData(), chain, pend) && db.PendingOk(chain)
      ensures |chain| == |db.dbChain| ==> db.NothingPending(FlushData())
    {
      hide Replay, UndosOk, Headers, BlockIds, Layers, Abs;
    }

    // ---- backing up ----

    /** Spend the outputs a transaction made. */
    method UnmakeOutputs(tx: Tx, ht: nat, ghost num: nat, ghost base: UtxoMap)
      requires CacheOk() && Utxos() == base + Made(db.coin, ht, tx, num, |tx.outputs|)
      requires base.Keys !! Made(db.coin, ht, tx, num, |tx.outputs|).Keys
      modifies this`utxoCache, this`dbDeletes, this`pend, this`touched
      ensures CacheOk() && Utxos() == base
      ensures touched == old(touched) + HashXsOf(Made(db.coin, ht, tx, num, |tx.outputs|))
    {
      hide Utxos, CacheOk, Unspendable, HashXsOf;
      ghost var made := Made(db.coin, ht, tx, num, |tx.outputs|);
      HashXsNone();
      for idx := 0 to |tx.outputs|
        invariant CacheOk() && Utxos() == (base + made) - Made(db.coin, ht, tx, num, idx).Keys
        invariant touched == old(touched) + HashXsOf(Made(db.coin, ht, tx, num, idx))
      {
        if !Unspendable(db.coin, ht, tx.outputs[idx].script) {
          ghost var o := Outpoint(tx.txid, idx);
          MadeNext(db.coin, ht, tx, num, idx);
          MadeHas(db.coin, ht, tx, num, |tx.outputs|, o);
          HashXsPut(Made(db.coin, ht, tx, num, idx), o, Coined(db.coin, tx, num, idx));
          var value := SpendUtxo(tx.txid, idx);
          touched := touched + {value.value.hashX};
        }
      }
      assert (base + made) - made.Keys == base;
    }

    /** Put back the inputs of a transaction, last input first, reading the undo
        record backwards from position n. */
    method RestoreInputs(tx: Tx, undoInfo: seq<Utxo>, n: nat, ghost m: UtxoMap) returns (n': nat)
      requires var ps := Prevouts(tx.inputs);
        && CacheOk() && NoDup(ps) && Elems(ps) <= m.Keys && Utxos() == m - Elems(ps)
        && |ps| <= n <= |undoInfo| && undoInfo[n - |ps|..n] == Values(m, ps)
      modifies this`utxoCache, this`touched
      ensures CacheOk() && Utxos() == m && n' == n - |Prevouts(tx.inputs)|
      ensures touched == old(touched) + HashXsAt(m, Prevouts(tx.inputs))
    {
      hide Utxos, CacheOk, Values, HashXsAt, Prevouts, Elems, NoDup;
      ghost var ps := Prevouts(tx.inputs);
      n' := n;
      var i := |tx.inputs|;
      assert tx.inputs[..i] == tx.inputs;
      RestoreStart(m, ps, touched);
      while i > 0
        invariant 0 <= i <= |tx.inputs| && |Prevouts(tx.inputs[..i])| <= |ps|
        invariant CacheOk() && Utxos() == m - Elems(Prevouts(tx.inputs[..i]))
        invariant n' == n - |ps| + |Prevouts(tx.inputs[..i])|
        invariant touched == old(touched) + HashXsAt(m, ps[|Prevouts(tx.inputs[..i])|..])
      {
        i := i - 1;
        var txin := tx.inputs[i];
        PrevoutsStep(tx.inputs, i);
        if !txin.IsGeneration() {
          NextPrevout(tx.inputs, i);
          PrevoutsPrefix(tx.inputs, i + 1);
          RestoreStep(m, ps, Prevouts(tx.inputs[..i]), txin.Prevout());
          n' := n' - 1;
          assert undoInfo[n'] == undoInfo[n - |ps|..n][n' - (n - |ps|)];
          var undoItem := undoInfo[n'];
          PutUtxo(txin.Prevout(), undoItem);
          touched := touched + {undoItem.hashX};
        } else {
          assert Prevouts(tx.inputs[..i]) + [] == Prevouts(tx.inputs[..i]);
        }
      }
      RestoreEnd(m, tx.inputs);
      assert ps[0..] == ps;
    }

    /** Undo the transactions of a block, last transaction first. */
    method BackupInOrder(txs: seq<Tx>, ht: nat, undoInfo: seq<Utxo>, ghost num: nat, ghost m: UtxoMap)
      requires var fx := Effects(db.coin, ht, txs, num);
        && CacheOk() && ValidInOrder(m, fx) && Utxos() == Apply(m, fx) && undoInfo == Undo(m, fx)
      modifies this`utxoCache, this`dbDeletes, this`pend, this`touched
      ensures CacheOk() && Utxos() == m
      ensures touched == old(touched) + UnionOf(Touches(m, Effects(db.coin, ht, txs, num)))
    {
      hide Utxos, CacheOk, EffectOf, ValidInOrder, Touch, Values, Elems, HashXsOf, HashXsAt;
      hide Apply, Undo, Touches, Effects, UnionOf, NoDup;
      ghost var fx := Effects(db.coin, ht, txs, num);
      EffectsAt(db.coin, ht, txs, num, 0);
      TouchesLength(m, fx);
      var n := |undoInfo|;
      var i := |txs|;
      assert fx[..i] == fx;
      BackupStart(m, fx, touched);
      while i > 0
        invariant 0 <= i <= |txs|
        invariant CacheOk() && Utxos() == Apply(m, fx[..i]) && n == |Undo(m, fx[..i])|
        invariant touched == old(touched) + UnionOf(Touches(m, fx)[i..])
      {
        i := i - 1;
        ghost var pre := Apply(m, fx[..i]);
        EffectsAt(db.coin, ht, txs, num, i);
        EffectParts(db.coin, ht, txs[i], num + i);
        ValidAt(m, fx, i);
        ApplyStep(m, fx, i);
        UndoSlice(m, fx, i);
        ghost var t0 := touched;
        UnmakeOutputs(txs[i], ht, num + i, pre - Elems(fx[i].spent));
        n := RestoreInputs(txs[i], undoInfo, n, pre);
        BackupTouched(m, fx, i, t0, old(touched));
      }
      ApplyStart(m, fx, touched);
      assert n == 0;
      assert Touches(m, fx)[0..] == Touches(m, fx);
    }

    /** Put back inputs in block order, reading the undo record forwards from position n. */
    method RestoreForward(tx: Tx, undoInfo: seq<Utxo>, n: nat, ghost m: UtxoMap, ghost all: seq<Outpoint>)
      returns (n': nat)
      requires CacheOk() && NoDup(all) && Elems(all) <= m.Keys && undoInfo == Values(m, all)
      requires var ps := Prevouts(tx.inputs);
        n + |ps| <= |all| && all[n..n + |ps|] == ps && Utxos() == m - Elems(all[n..])
      modifies this`utxoCache, this`touched
      ensures n' == n + |Prevouts(tx.inputs)|
      ensures CacheOk() && Utxos() == m - Elems(all[n'..])
      ensures touched == old(touched) + HashXsAt(m, all[n..n'])
    {
      hide Utxos, CacheOk, Values, HashXsAt, Prevouts, Elems, NoDup;
      ghost var ps := Prevouts(tx.inputs);
      n' := n;
      ForwardStart(m, all, n, tx.inputs);
      for i := 0 to |tx.inputs|
        invariant n' == n + |Prevouts(tx.inputs[..i])| <= |all|
        invariant CacheOk() && Utxos() == m - Elems(all[n'..])
        invariant touched == old(touched) + HashXsAt(m, all[n..n'])
      {
        var txin := tx.inputs[i];
        PrevoutsStep(tx.inputs, i);
        PrevoutsPrefix(tx.inputs, i + 1);
        if !txin.IsGeneration() {
          PrefixAt(all, n, ps, Prevouts(tx.inputs[..i]), txin.Prevout());
          ForwardStep(m, all, n, n');
          var undoItem := undoInfo[n'];
          PutUtxo(txin.Prevout(), undoItem);
          touched := touched + {undoItem.hashX};
          n' := n' + 1;
        } else {
          assert Prevouts(tx.inputs[..i]) + [] == Prevouts(tx.inputs[..i]);
        }
      }
      assert tx.inputs[..|tx.inputs|] == tx.inputs;
    }

    /** LTOR: restore the coins the block spent, those made in the block included. */
    method RestoreAllInputs(txs: seq<Tx>, ht: nat, undoInfo: seq<Utxo>, ghost num: nat, ghost m: UtxoMap)
      requires var fx := Effects(db.coin, ht, txs, num);
        && CacheOk() && NoDup(AllSpent(fx)) && Elems(AllSpent(fx)) <= m.Keys
        && undoInfo == Values(m, AllSpent(fx)) && Utxos() == m - Elems(AllSpent(fx))
      modifies this`utxoCache, this`touched
      ensures CacheOk() && Utxos() == m
      ensures touched == old(touched) + HashXsAt(m, AllSpent(Effects(db.coin, ht, txs, num)))
    {
      hide Utxos, CacheOk, Effects, EffectOf, AllSpent, Values, HashXsAt, Elems, NoDup;
      ghost var fx := Effects(db.coin, ht, txs, num);
      ghost var all := AllSpent(fx);
      EffectsAt(db.coin, ht, txs, num, 0);
      var n := 0;
      assert fx[..|fx|] == fx;
      ForwardAll(m, fx, touched);
      for i := 0 to |txs|
        invariant n == |AllSpent(fx[..i])| <= |all|
        invariant CacheOk() && Utxos() == m - Elems(all[n..])
        invariant touched == old(touched) + HashXsAt(m, all[..n])
      {
        EffectsAt(db.coin, ht, txs, num, i);
        EffectParts(db.coin, ht, txs[i], num + i);
        LtorStep(fx, i);
        AllSpentPrefix(fx, i + 1);
        MiddleOf(all, AllSpent(fx[..i]), fx[i].spent);
        ghost var k := n;
        n := RestoreForward(txs[i], undoInfo, n, m, all);
        HashXsJoin(m, all, k, n);
      }
      assert n == |undoInfo| by {
        ValuesLength(m, all);
      }
      assert all[..n] == all;
    }

    /** LTOR: spend every output the block made. */
    method UnmakeAllOutputs(txs: seq<Tx>, ht: nat, ghost num: nat, ghost m: UtxoMap)
      requires var fx := Effects(db.coin, ht, txs, num);
        CacheOk() && Fresh(m, fx) && Utxos() == m + AllMade(fx)
      modifies this`utxoCache, this`dbDeletes, this`pend, this`touched
      ensures CacheOk() && Utxos() == m
      ensures touched == old(touched) + HashXsOf(AllMade(Effects(db.coin, ht, txs, num)))
    {
      hide Utxos, CacheOk, Effects, EffectOf, AllMade, AllSpent, HashXsOf, Fresh;
      ghost var fx := Effects(db.coin, ht, txs, num);
      EffectsAt(db.coin, ht, txs, num, 0);
      assert fx[..|fx|] == fx;
      UnmadeAll(m, fx, touched);
      for i := 0 to |txs|
        invariant CacheOk() && Utxos() == (m + AllMade(fx)) - AllMade(fx[..i]).Keys
        invariant touched == old(touched) + HashXsOf(AllMade(fx[..i]))
      {
        EffectsAt(db.coin, ht, txs, num, i);
        EffectParts(db.coin, ht, txs[i], num + i);
        UnmadeStep(m, fx, i);
        UnmakeOutputs(txs[i], ht, num + i, (m + AllMade(fx)) - AllMade(fx[..i + 1]).Keys);
      }
    }

    /** Undo the transactions of a block, outputs last. */
    method BackupOutputsFirst(txs: seq<Tx>, ht: nat, undoInfo: seq<Utxo>, ghost num: nat, ghost m: UtxoMap)
      requires var fx := Effects(db.coin, ht, txs, num);
        && CacheOk() && ValidLtor(m, fx) && Utxos() == ApplyLtor(m, fx) && undoInfo == UndoLtor(m, fx)
      modifies this`utxoCache, this`dbDeletes, this`pend, this`touched
      ensures CacheOk() && Utxos() == m
      ensures touched == old(touched) + UnionOf(TouchesLtor(m, Effects(db.coin, ht, txs, num)))
    {
      hide Utxos, CacheOk, Effects, AllMade, AllSpent, Values, Elems, NoDup, Fresh, TouchesAt, UnionOf;
      ghost var fx := Effects(db.coin, ht, txs, num);
      RestoreAllInputs(txs, ht, undoInfo, num, m + AllMade(fx));
      UnmakeAllOutputs(txs, ht, num, m);
      LtorTouched(m, fx);
    }

    /** Undo the transactions of the block at height ht; refused without its undo record. */
    method BackupTxs(txs: seq<Tx>, ht: nat, ghost num: nat, ghost m: UtxoMap) returns (ok: bool)
      requires var fx := Effects(db.coin, ht, txs, num);
        && CacheOk() && ValidBody(db.coin, m, fx) && Utxos() == ApplyBody(db.coin, m, fx)
        && (ht in db.utxoDb.undo ==> db.utxoDb.undo[ht] == UndoBody(db.coin, m, fx))
        && txCount == num + |txs|
      modifies this`utxoCache, this`dbDeletes, this`pend, this`touched, this`txCount
      ensures ok <==> ht in db.utxoDb.undo
      ensures ok ==> CacheOk() && Utxos() == m && txCount == num
      ensures ok ==> touched == old(touched) + UnionOf(TouchBody(db.coin, m, Effects(db.coin, ht, txs, num)))
    {
      hide Utxos, CacheOk, Effects, ValidInOrder, ValidLtor, Apply, ApplyLtor;
      hide Undo, UndoLtor, Touches, TouchesLtor, UnionOf;
      if ht !in db.utxoDb.undo {
        return false;
      }
      var undoInfo := db.utxoDb.undo[ht];
      if db.coin.ltor {
        BackupOutputsFirst(txs, ht, undoInfo, num, m);
      } else {
        BackupInOrder(txs, ht, undoInfo, num, m);
      }
      txCount := txCount - |txs|;
      ok := true;
    }

    /** Blocks have been backed up in memory only; `chain` is what is left. */
    ghost predicate Backing()
      reads this, db, db.history
    {
      && db.DiskOk() && db.Opened() && db.fsChain == db.dbChain && chain <= db.dbChain
      && ValidChain(db.coin, chain)
      && height == |chain| - 1 && tip == Tip(db.coin, chain)
      && txCount == |Replay(db.coin, chain).txids| && db.txCounts == Replay(db.coin, chain).txCounts
      && CacheOk() && Utxos() == Replay(db.coin, chain).utxos
      && headers == [] && txHashes == [] && undoInfos == [] && db.history.unflushed == map[]
      && Covers(touched, db.Ix().touches, txCount)
    }

    lemma BackingStart()
      requires Valid() && AllFlushed()
      ensures Backing()
    {
      hide Replay, ValidChain, UndosOk, DB.CanLookup, RowsAreOf, RowsHold, FilesHold, StoreHolds, LayersOk, Utxos;
      hide NonEmpty, Sorted, IdsUpTo, Headers, BlockIds, DB.PendingOk, DB.NothingPending, Covers;
      CoherentNumbers(db.coin, chain);
      CoversNothing(touched, db.Ix().touches);
    }

    /** A block of the chain is known by its header hash. */
    ghost predicate HashNames(b: Block)
      reads `chain, db
    {
      chain != [] && db.coin.headerHash(b.header) == Tip(db.coin, chain) ==> b == chain[|chain| - 1]
    }

    lemma KeptRecord(k: nat)
      requires db.DiskOk() && chain <= db.dbChain && |chain| == k + 1
      requires Trusted(db.utxoDb.undo, db.kept, k, k + 1)
      ensures k < |Replay(db.coin, chain).undos|
      ensures k in db.utxoDb.undo ==> db.utxoDb.undo[k] == Replay(db.coin, chain).undos[k]
    {
      hide Replay, ValidChain, RowsHold, FilesHold, Tables, NonEmpty, Sorted, IdsUpTo;
      assert db.dbChain[..|chain|] == chain;
      PrefixFacts(db.coin, db.dbChain, |chain|);
    }

    lemma CoveredBlock(touched: set<HashX>, c: seq<Block>, k: nat)
      requires |c| == k + 1 && c <= db.dbChain && ValidChain(db.coin, c)
      requires Covers(touched, db.Ix().touches, |Replay(db.coin, c).txids|)
      ensures var ix := Replay(db.coin, c[..k]);
        Covers(touched + UnionOf(TouchBody(db.coin, ix.utxos, Effects(db.coin, k, c[k].txs, |ix.txids|))),
               db.Ix().touches, |ix.txids|)
    {
      hide Replay, ValidChain, ValidBody, ApplyBody, UndoBody, TouchBody, Effects, Covers, UnionOf, Coherent;
      assert db.dbChain[..|c|] == c;
      PrefixFacts(db.coin, db.dbChain, |c|);
      LastBlock(db.coin, c);
      CoherentNumbers(db.coin, c);
      var ix := Replay(db.coin, c[..k]);
      CoversMore(touched, db.Ix().touches, ix.touches,
                 TouchBody(db.coin, ix.utxos, Effects(db.coin, k, c[k].txs, |ix.txids|)));
    }

    /** Undo the block at the tip.  It is refused if its hash is not the tip's
        or its undo record is missing. */
    method BackupBlock(b: Block) returns (ok: bool)
      requires Backing() && height >= 0 && HashNames(b)
      requires Trusted(db.utxoDb.undo, db.kept, height, height + 1)
      modifies this, db`txCounts
      ensures ok <==> db.coin.headerHash(b.header) == old(tip) && old(height) in db.utxoDb.undo
      ensures ok ==> Backing() && chain == old(chain)[..|old(chain)| - 1]
      ensures db.DiskOk()
    {
      hide Replay, ValidChain, ValidBody, ApplyBody, UndoBody, TouchBody, Effects, Covers, UnionOf;
      hide DB.CanLookup, RowsAreOf, RowsHold, FilesHold, LayersOk, Utxos, Tables;
      hide NonEmpty, Sorted, IdsUpTo, DB.PendingOk, DB.NothingPending;
      if db.coin.headerHash(b.header) != tip {
        return false;
      }
      ghost var k := |chain| - 1;
      ghost var ix := Replay(db.coin, chain[..k]);
      LastBlock(db.coin, chain);
      KeptRecord(k);
      tip := db.coin.prevHash(b.header);
      ok := BackupTxs(b.txs, height, |ix.txids|, ix.utxos);
      if !ok {
        return;
      }
      CoveredBlock(old(touched), chain, k);
      height := height - 1;
      db.txCounts := db.txCounts[..|db.txCounts| - 1];
      chain := chain[..k];
      LookupKept(chain);
    }

    /** A batch of raw blocks, in order of decreasing height from the tip. */
    method BackupBlocks(raw: seq<Block>) returns (ok: bool)
      requires Valid() && AllFlushed() && Named(db.coin, chain, raw)
      requires Trusted(db.utxoDb.undo, db.kept, |chain| - |raw|, |chain|)
      modifies this, db`txCounts
      ensures ok <==> |raw| <= |old(chain)| - 1 && CanUndo(db.coin, old(chain), db.utxoDb.undo, raw)
      ensures ok ==> Backing() && chain == old(chain)[..|old(chain)| - |raw|]
      ensures db.DiskOk()
    {
      hide Replay, ValidChain, Valid, Backing, Covers, Utxos;
      BackingStart();
      BackingHeight();
      ghost var all, n := chain, |chain|;
      if height < |raw| {
        return false;
      }
      for i := 0 to |raw|
        invariant Backing() && |raw| < n && chain == all[..n - i] && height == n - i - 1
        invariant tip == Tip(db.coin, chain)
        invariant CanUndo(db.coin, all, db.utxoDb.undo, raw[..i])
      {
        NamedAt(db.coin, all, raw, i);
        assert chain[|chain| - 1] == all[n - 1 - i];
        var done := BackupBlock(raw[i]);
        CanUndoStep(db.coin, all, db.utxoDb.undo, raw, i);
        if !done {
          return false;
        }
        BackingHeight();
        assert all[..n - i][..n - i - 1] == all[..n - i - 1];
      }
      assert raw[..|raw|] == raw;
      ok := true;
    }

    lemma BackingHeight()
      requires Backing()
      ensures height == |chain| - 1 && tip == Tip(db.coin, chain) && db.DiskOk()
    {
      hide Replay, ValidChain, Covers, Utxos, DB.DiskOk, DB.Opened, CacheOk;
    }

    /** Commit what has been backed up. */
    method FlushBackup()
      requires Backing() && |chain| < |db.dbChain| && db.history.flushCount + 1 < IDS
      modifies this, db, db.history
      ensures Valid() && AllFlushed() && chain == old(chain)
      ensures db.kept == KeptBelow(old(db.kept), |chain|)
      ensures Onward(old(db.Counters()), db.Counters(), 1, true)
    {
      hide Replay, ValidChain, DB.DiskOk, DB.Opened, DB.PendingOk, DB.NothingPending;
      hide Valid, LayersOk, Utxos, DB.CanLookup, AllFlushed, Headers, BlockIds, Covers, DB.UtxoOk, Backing, UndosOk;
      BackingFacts();
      db.FlushBackup(FlushData(), touched, chain, pend);
      utxoCache, dbDeletes, pend := map[], [], {};
      AfterFullFlush();
    }

    lemma BackingFacts()
      requires Backing() && |chain| < |db.dbChain|
      ensures db.DiskOk() && db.Opened() && db.fsChain == db.dbChain && chain <= db.dbChain &&
        ValidChain(db.coin, chain)
      ensures headers == [] && txHashes == [] && undoInfos == [] && db.history.unflushed == map[]
      ensures height == |chain| - 1 && tip == Tip(db.coin, chain) && txCount == |Replay(db.coin, chain).txids|
      ensures db.txCounts == Replay(db.coin, chain).txCounts && Covers(touched, db.Ix().touches, txCount)
      ensures db.UtxoOk(FlushData(), chain, pend)
    {
      hide Replay, ValidChain, UndosOk, DB.DiskOk, DB.Opened, Layers, Abs, DB.CanLookup, Covers;
      NoUndos(Replay(db.coin, chain));
    }

    // ---- reorganisations ----

    /** Every block from height lo up has its undo record, on disk or waiting to be flushed. */
    ghost predicate Recorded(lo: int)
      reads `undoInfos, `chain, db`kept, db`dbChain
    {
      Records(db.kept, UndoHeights(undoInfos), |db.dbChain|, |chain|, lo)
    }

    /** The raw blocks at heights last, last - 1, ... from the block files or the daemon. */
    method GetRawBlocks(source: seq<Block>, last: nat, count: nat) returns (raw: seq<Block>)
      requires count <= last + 1 <= |source|
      ensures |raw| == count && forall k :: 0 <= k < count ==> raw[k] == source[last - k]
    {
      raw := [];
      for k := 0 to count
        invariant |raw| == k && forall j :: 0 <= j < k ==> raw[j] == source[last - j]
      {
        raw := raw + [source[last - k]];
      }
    }

    /** Back up one chunk of at most 50 blocks and commit it. */
    method ReorgChunk(source: seq<Block>, count: nat) returns (ok: bool)
      requires Valid() && AllFlushed() && 0 < count <= |chain| <= |source| && Named(db.coin, chain, source)
      requires Kept(db.kept, |chain| - count, |chain|) && db.history.flushCount + 1 < IDS
      modifies this, db, db.history
      ensures ok <==> count < |old(chain)| && Matches(db.coin, old(chain), source, |old(chain)| - count)
      ensures ok ==> Valid() && AllFlushed() && chain == old(chain)[..|old(chain)| - count]
      ensures ok ==> db.kept == KeptBelow(old(db.kept), |chain|)
      ensures ok ==> Onward(old(db.Counters()), db.Counters(), 1, true)
      ensures !ok ==> db.DiskOk() && db.dbChain == old(db.dbChain) && db.kept == old(db.kept)
      ensures !ok ==> db.Counters() == old(db.Counters())
    {
      hide Replay, Valid, Backing, DB.DiskOk, Utxos, ValidChain;
      ghost var all := chain;
      FlushedFacts();
      var raw := GetRawBlocks(source, height, count);
      RawNamed(db.coin, all, source, raw);
      KeptRecords(db.utxoDb.undo, db.kept, db.Ix(), |all| - count, |all|);
      RawMatches(db.coin, all, source, raw, db.utxoDb.undo);
      ok := BackupBlocks(raw);
      if ok {
        FlushBackup();
      }
    }

    lemma FlushedFacts()
      requires Valid() && AllFlushed()
      ensures height == |chain| - 1 && db.dbChain == chain && UndoHolds(db.utxoDb.undo, db.kept, db.Ix())
      ensures db.dbHeight == |chain| - 1 && FilesHold(db.files, db.coin, db.dbChain) && db.DiskOk()
      ensures db.utxoDb.state.utxoFlushCount <= db.history.flushCount
    {
      hide Replay, ValidChain, RowsHold, FilesHold, Tables, NonEmpty, Sorted, IdsUpTo, DB.PendingOk;
    }

    /** What a reorganisation of the blocks from `start` up that failed leaves on
        disk: the chunks committed before the one that failed. */
    ghost predicate GaveUp(all: seq<Block>, source: seq<Block>, start: int, lo: int)
      reads db, db.history
    {
      && db.DiskOk() && db.dbChain == all[..ReorgLeft(db.coin, all, source, start)]
      && Kept(db.kept, lo, |db.dbChain|)
    }

    /** Back up and commit the last `count` blocks in chunks of 50. */
    method ReorgChunks(source: seq<Block>, count: nat, ghost lo: int) returns (ok: bool)
      requires Valid() && AllFlushed() && 0 < count <= |chain| <= |source| && Named(db.coin, chain, source)
      requires Kept(db.kept, lo, |chain|) && lo <= |chain| - count && db.history.flushCount + Chunks(count) < IDS
      modifies this, db, db.history
      ensures ok <==> count < |old(chain)| && Matches(db.coin, old(chain), source, |old(chain)| - count)
      ensures ok ==> Valid() && AllFlushed() && chain == db.dbChain == old(chain)[..|old(chain)| - count]
      ensures ok ==> Kept(db.kept, lo, |chain|)
      ensures Onward(old(db.Counters()), db.Counters(), Chunks(count), db.dbChain != old(db.dbChain))
      ensures !ok ==> GaveUp(old(chain), source, |old(chain)| - count, lo)
    {
      hide Replay, Valid, DB.DiskOk, Utxos, ValidChain, AllFlushed, Matches, Named, Kept, KeptBelow;
      hide Onward, Chunks, Left, ReorgLeft;
      ghost var all, start, before, used := chain, |chain| - count, db.Counters(), 0;
      LeftStart(db.coin, all, source, start);
      var done := 0;
      MatchesNone(db.coin, all, source);
      FlushedFacts();
      OnwardSelf(before);
      assert all[..|all|] == all;
      while done < count
        invariant done <= count && (done < |all| || done == 0)
        invariant Valid() && AllFlushed() && chain == all[..|all| - done] && db.dbChain == chain
        invariant Matches(db.coin, all, source, |all| - done)
        invariant Kept(db.kept, lo, |chain|)
        invariant Left(db.coin, all, source, |all| - done, start) == ReorgLeft(db.coin, all, source, start)
        invariant Onward(before, db.Counters(), used, done > 0) && used + Chunks(count - done) <= Chunks(count)
      {
        var k := if count - done < 50 then count - done else 50;
        ghost var here := chain;
        NamedPrefix(db.coin, all, source, |here|);
        MatchesJoin(db.coin, all, source, |here| - k, |here|);
        MatchesLess(db.coin, all, source, |all| - count, |here| - k);
        KeptPart(db.kept, lo, |here|, k);
        LeftStep(db.coin, all, source, |here|, start, k);
        ChunkOff(count - done, k);
        CountsFact();
        FlushedEnough(before, db.Counters(), used, done > 0);
        ghost var now := db.Counters();
        var chunkOk := ReorgChunk(source, k);
        if !chunkOk {
          OnwardSelf(now);
          OnwardJoin(before, now, now, used, 0, done > 0, false, Chunks(count), db.dbChain != old(db.dbChain));
          return false;
        }
        FlushedFacts();
        OnwardJoin(before, now, db.Counters(), used, 1, done > 0, true, used + 1, true);
        done, used := done + k, used + 1;
        assert here[..|here| - k] == all[..|all| - done];
      }
      FlushedFacts();
      OnwardSelf(db.Counters());
      OnwardJoin(before, db.Counters(), db.Counters(), used, 0, done > 0, false, Chunks(count), true);
      ok := true;
    }

    lemma FlushedEnough(before: Counts, c: Counts, used: int, moved: bool)
      requires Onward(before, c, used, moved)
      ensures c.flushed <= before.flushed + used
    {
    }

    /** The heights to back up: the last `forced` blocks, or those from where the
        daemon's chain is found to part from ours. */
    method CalcReorgRange(forced: Option<nat>, theirs: seq<Hash>, ghost f: nat) returns (start: int, count: nat)
      requires db.DiskOk() && db.dbHeight == |db.dbChain| - 1 && db.dbChain == chain && height == |chain| - 1
      requires forced.None? && height >= 1 ==>
        |theirs| >= height && f <= height && ForkSearch.PartAt(ChainHashes(db.coin, chain), theirs, f)
      ensures start == ReorgStart(height, forced, f) && count == height - start + 1
      ensures forced.Some? ==> start == height - forced.value + 1 && count == forced.value
      ensures forced.None? && height >= 1 ==> start == f || (start == 0 && 2 * f <= height + 1)
    {
      hide Replay, ValidChain, RowsHold, FilesHold, Tables, NonEmpty, Sorted, IdsUpTo;
      if forced.Some? {
        start, count := height - forced.value + 1, forced.value;
      } else if height < 1 {
        start := height - 1;
        count := height - start + 1;
      } else {
        ForkSearch.MissedForks(height);
        var ours := db.FsBlockHashes(0, height + 1);
        assert ours.value == ChainHashes(db.coin, chain);
        ghost var queries;
        start, count, queries := ForkSearch.CalcReorgRange(ours.value, theirs, height, f);
      }
    }

    /** What a reorganisation relies on: blocks are named by their hashes, the
        daemon's chain parts from ours at height f, and every block from the
        first one backed up has its undo record. */
    ghost predicate ReorgReady(forced: Option<nat>, theirs: seq<Hash>, source: seq<Block>, f: nat, lo: int)
      reads this, db, db.history
    {
      && |chain| <= |source| && Named(db.coin, chain, source)
      && (forced.Some? ==> forced.value >= 1)
      && (forced.None? && height >= 1 ==>
            |theirs| >= height && f <= height && ForkSearch.PartAt(ChainHashes(db.coin, chain), theirs, f))
      && Recorded(lo) && (ReorgStart(height, forced, f) >= 0 ==> lo <= ReorgStart(height, forced, f))
      && db.history.flushCount + 1 + Chunks(height - ReorgStart(height, forced, f) + 1) < IDS
    }

    /** Flush everything, then back up and commit the blocks of the range, newest
        first.  `theirs` are the daemon's hashes, `source` the blocks found by our
        hashes, f the height at which the chains part. */
    method ReorgChain(forced: Option<nat>, theirs: seq<Hash>, source: seq<Block>, ghost f: nat, ghost lo: int)
      returns (ok: bool)
      requires Valid() && ReorgReady(forced, theirs, source, f, lo)
      modifies this, db, db.history
      ensures var start := ReorgStart(old(height), forced, f);
        && (ok <==> start >= 1 && Matches(db.coin, old(chain), source, start))
        && (ok ==> Valid() && AllFlushed() && chain == Before(old(chain), start) && Recorded(lo))
        && Onward(old(db.Counters()), db.Counters(), 1 + Chunks(old(height) - start + 1), db.dbChain != old(db.dbChain))
        && (!ok ==> GaveUp(old(chain), source, start, lo))
    {
      hide Replay, Valid, DB.DiskOk, Utxos, ValidChain, AllFlushed, UndoHeights, Matches;
      hide ReorgReady, Named, ForkSearch.PartAt, Kept, Records, ForkSearch.LowestProbe, UndoHolds, FilesHold;
      hide Onward, Chunks, Left;
      ghost var all, before, moved := chain, db.Counters(), db.dbChain != chain;
      ReorgFacts(forced, theirs, source, f, lo);
      Flush(true, 4);
      FlushedFacts();
      FlushedKept(old(db.kept), old(UndoHeights(undoInfos)), |old(db.dbChain)|, |all|, lo, db.kept);
      FlushedEnough(before, db.Counters(), 1, moved);
      ghost var flushed := db.Counters();
      var start, count := CalcReorgRange(forced, theirs, f);
      var hashes := db.FsBlockHashes(start, count);
      if hashes.None? {
        OnwardSelf(flushed);
        OnwardJoin(before, flushed, flushed, 1, 0, moved, false, 1 + Chunks(count), moved);
        return false;
      }
      ok := ReorgChunks(source, count, lo);
      OnwardJoin(before, flushed, db.Counters(), 1, Chunks(count), moved, db.dbChain != all, 1 + Chunks(count),
                 db.dbChain != old(db.dbChain));
      if ok {
        KeptRecorded(lo);
      }
    }

    lemma HeightFact()
      requires Valid()
      ensures height == |chain| - 1
    {
    }

    lemma ReorgFacts(forced: Option<nat>, theirs: seq<Hash>, source: seq<Block>, f: nat, lo: int)
      requires Valid() && ReorgReady(forced, theirs, source, f, lo)
      ensures height == |chain| - 1 && |chain| <= |source| && Named(db.coin, chain, source)
      ensures forced.None? && height >= 1 ==>
        |theirs| >= height && f <= height && ForkSearch.PartAt(ChainHashes(db.coin, chain), theirs, f)
      ensures Records(db.kept, UndoHeights(undoInfos), |db.dbChain|, |chain|, lo)
      ensures ReorgStart(height, forced, f) <= height
      ensures ReorgStart(height, forced, f) >= 0 ==> lo <= ReorgStart(height, forced, f)
      ensures db.history.flushCount + 1 + Chunks(height - ReorgStart(height, forced, f) + 1) < IDS
    {
      hide DB.DiskOk, DB.Opened, DB.NothingPending, Synced, Replay, Records;
    }

    lemma KeptRecorded(lo: int)
      requires db.dbChain == chain && Kept(db.kept, lo, |chain|)
      ensures Recorded(lo)
    {
    }

    // ---- starting up ----

    /** Start again from what is on disk. */
    method FirstOpenDbs()
      requires db.DiskOk()
      modifies this, db, db.history
      ensures Valid() && AllFlushed() && chain == old(db.dbChain)
      ensures db.kept == KeptFrom(old(db.kept), |chain| - db.reorgLimit)
      ensures var utxo := old(db.utxoDb.state.utxoFlushCount);
        db.Counters() == Counts(utxo, utxo, old(db.history.disk).compFlushCount)
    {
      hide *;
      db.OpenDbs();
      TakeOpened();
    }

    /** Begin from what the database has opened. */
    method TakeOpened()
      requires db.DiskOk() && db.Opened() && db.dbChain == db.fsChain
      requires db.txCounts == db.Ix().txCounts && db.history.unflushed == map[]
      modifies this
      ensures Valid() && AllFlushed() && chain == db.dbChain
    {
      hide *;
      OpenedFacts();
      height, tip, txCount, touched := db.dbHeight, db.dbTip, db.dbTxCount, {};
      headers, txHashes, undoInfos := [], [], [];
      utxoCache, dbDeletes, pend := map[], [], {};
      chain := db.dbChain;
      AfterFullFlush();
    }

    lemma OpenedFacts()
      requires db.DiskOk() && db.Opened()
      ensures db.dbHeight == |db.dbChain| - 1 && db.dbTip == Tip(db.coin, db.dbChain)
      ensures db.dbTxCount == |db.Ix().txids| && ValidChain(db.coin, db.dbChain)
      ensures db.Ix() == Replay(db.coin, db.dbChain)
    {
      hide Replay, ValidChain, RowsAreOf, RowsHold, FilesHold, Tables, NonEmpty, Sorted, IdsUpTo, UndoHolds;
    }

    // ---- a batch of blocks from the daemon ----

    /** How many flushes a batch ends with. */
    static function Flushes(caughtUp: bool, cacheFull: Option<bool>): nat {
      if caughtUp || cacheFull.Some? then 1 else 0
    }

    /** Flush everything when caught up, else as the cache size asks. */
    method MaybeFlush(caughtUp: bool, cacheFull: Option<bool>, ghost lo: int)
      requires Valid() && Recorded(lo) && db.history.flushCount + Flushes(caughtUp, cacheFull) < IDS
      modifies this, db, db.history
      ensures Valid() && chain == old(chain) && touched == old(touched) && Recorded(lo)
      ensures db.dbChain == if caughtUp || cacheFull == Some(true) then chain else old(db.dbChain)
      ensures Onward(old(db.Counters()), db.Counters(), Flushes(caughtUp, cacheFull), db.dbChain != old(db.dbChain))
      ensures !caughtUp && cacheFull.None? ==>
        db.Counters() == old(db.Counters()) && db.history.rows == old(db.history.rows)
    {
      hide Valid, Replay, DB.DiskOk, Utxos, AllFlushed, UndoHeights;
      SameLength();
      CountsFact();
      if caughtUp {
        Flush(true, 4);
      } else if cacheFull.Some? {
        Flush(cacheFull.value, 4);
      }
      RecordsFlushed(old(db.kept), old(UndoHeights(undoInfos)), |old(db.dbChain)|, |chain|, lo,
                     db.kept, UndoHeights(undoInfos), |db.dbChain|);
    }

    lemma CountsFact()
      requires Valid()
      ensures db.utxoDb.state.utxoFlushCount <= db.history.flushCount == db.history.disk.flushCount && db.DiskOk()
    {
      hide Replay, ValidChain, FilesHold, RowsHold, RowsAreOf, StoreHolds, Synced, DB.NothingPending;
    }

    lemma SameLength()
      requires Valid()
      ensures |db.dbChain| <= |chain| && (|db.dbChain| == |chain| ==> db.dbChain == chain)
    {
      hide Replay, ValidChain, DB.DiskOk, UndosOk, CacheOk, Utxos;
      hide DB.PendingOk, DB.NothingPending, FilesHold, RowsAreOf;
    }

    /** Blocks that connect: process them, flush if due, report the touched addresses once caught up. */
    method Proceed(blocks: seq<Block>, cachedHeight: int, caughtUp: bool, cacheFull: Option<bool>, ghost lo: int)
      returns (notified: Option<(set<HashX>, int)>)
      requires Valid() && Recorded(lo) && blocks != [] && ValidChain(db.coin, chain + blocks)
      requires lo >= cachedHeight - db.reorgLimit + 1 && db.history.flushCount + Flushes(caughtUp, cacheFull) < IDS
      modifies this, db, db.history
      ensures Valid() && chain == old(chain) + blocks && Recorded(lo) && touched == {}
      ensures db.dbChain == if caughtUp || cacheFull == Some(true) then chain else old(db.dbChain)
      ensures notified == if caughtUp
        then Some((old(touched) + TouchedSince(Replay(db.coin, chain).touches, old(txCount)), |chain| - 1)) else None
      ensures Onward(old(db.Counters()), db.Counters(), Flushes(caughtUp, cacheFull), db.dbChain != old(db.dbChain))
    {
      hide Valid, Replay, DB.DiskOk, Utxos, AllFlushed, UndoHeights, HeightsFrom, ValidChain, TouchedSince;
      AdvanceBlocks(blocks, cachedHeight);
      RecordsAdvanced(db.kept, old(UndoHeights(undoInfos)), |db.dbChain|, |old(chain)|, |chain|,
                      cachedHeight - db.reorgLimit + 1, lo);
      MaybeFlush(caughtUp, cacheFull, lo);
      HeightFact();
      notified := if caughtUp then Some((touched, height)) else None;
      ForgetTouched();
    }

    method ForgetTouched()
      requires Valid()
      modifies this`touched
      ensures Valid() && touched == {}
    {
      hide DB.DiskOk, DB.Opened, Synced, DB.NothingPending, Replay;
      touched := {};
    }

    /** A batch from the daemon: advance if it connects, reorganise if its first
        block does not, else reset the prefetcher. */
    method CheckAndAdvanceBlocks(blocks: seq<Block>, cachedHeight: int, caughtUp: bool, cacheFull: Option<bool>,
                                 theirs: seq<Hash>, source: seq<Block>, ghost f: nat, ghost lo: int)
      returns (outcome: Outcome)
      requires Valid() && Recorded(lo)
      requires KindOf(db.coin, tip, blocks) == Advance ==>
        && BodiesValid(db.coin, chain, blocks) && lo >= cachedHeight - db.reorgLimit + 1
        && db.history.flushCount + Flushes(caughtUp, cacheFull) < IDS
      requires KindOf(db.coin, tip, blocks) == Reorg ==> ReorgReady(None, theirs, source, f, lo)
      modifies this, db, db.history
      ensures KindOf(db.coin, old(tip), blocks) == Advance ==>
        && Valid() && chain == old(chain) + blocks && Recorded(lo) && touched == {}
        && db.dbChain == (if caughtUp || cacheFull == Some(true) then chain else old(db.dbChain))
        && outcome == Advanced(if caughtUp
             then Some((old(touched) + TouchedSince(Replay(db.coin, chain).touches, old(txCount)), |chain| - 1))
             else None)
        && Onward(old(db.Counters()), db.Counters(), Flushes(caughtUp, cacheFull), db.dbChain != old(db.dbChain))
      ensures KindOf(db.coin, old(tip), blocks) == Reorg ==>
        var start := ReorgStart(old(height), None, f);
        && outcome == Reorganised(start >= 1 && Matches(db.coin, old(chain), source, start))
        && (outcome.ok ==> Valid() && AllFlushed() && chain == Before(old(chain), start) && Recorded(lo))
        && (!outcome.ok ==> GaveUp(old(chain), source, start, lo))
        && Onward(old(db.Counters()), db.Counters(), 1 + Chunks(old(height) - start + 1), db.dbChain != old(db.dbChain))
      ensures outcome.Nothing? <==> blocks == []
      ensures outcome.Reorganised? <==> blocks != [] && db.coin.prevHash(blocks[0].header) != old(tip)
      ensures outcome.Advanced? <==>
        && blocks != [] && db.coin.prevHash(blocks[0].header) == old(tip)
        && forall i :: 0 < i < |blocks| ==>
             db.coin.prevHash(blocks[i].header) == db.coin.headerHash(blocks[i - 1].header)
      ensures KindOf(db.coin, old(tip), blocks) in {Idle, Reset} ==>
        && outcome == (if blocks == [] then Nothing else ResetPrefetcher(height))
        && Valid() && chain == old(chain) && db.dbChain == old(db.dbChain) && Recorded(lo)
        && db.Counters() == old(db.Counters())
    {
      hide Valid, Replay, DB.DiskOk, Utxos, AllFlushed, UndoHeights, ValidChain, TouchedSince, Linked, BodiesValid;
      hide Recorded, ReorgReady, Matches;
      KindIs(db.coin, tip, blocks);
      if blocks == [] {
        return Nothing;
      }
      var headers := HeadersOf(blocks);
      var hprevs := PrevHashes(db.coin, headers);
      var before := [tip] + HeaderHashes(db.coin, headers[..|headers| - 1]);
      LinkedLists(db.coin, tip, blocks);
      if hprevs == before {
        ChainFact();
        LinkedValid(db.coin, chain, blocks);
        var notified := Proceed(blocks, cachedHeight, caughtUp, cacheFull, lo);
        outcome := Advanced(notified);
      } else if hprevs[0] != before[0] {
        var ok := ReorgChain(None, theirs, source, f, lo);
        outcome := Reorganised(ok);
      } else {
        outcome := ResetPrefetcher(height);
      }
    }

    lemma ChainFact()
      requires Valid()
      ensures ValidChain(db.coin, chain) && tip == Tip(db.coin, chain)
    {
      hide DB.DiskOk, DB.Opened, DB.NothingPending, Replay, ValidChain, CacheOk, Utxos;
    }
  }
}
