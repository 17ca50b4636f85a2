/** What the index answers, in terms of the blocks alone. */
module Answers {
  import opened Types
  import opened Ledger
  import opened LedgerProofs
  import opened ChainMeaning
  import opened HistoryRows
  import HistoryStore
  import opened UtxoTables
  import opened Database
  import opened BlockSteps
  import opened BlockProcessor
  import Runs

  // ---- numbers and places ----

  /** The place of a transaction number. */
  ghost function PlaceAt(chain: seq<Block>, n: nat): (p: Place)
    requires n < TxsBelow(chain, |chain|)
    ensures In(chain, p) && NumberAt(chain, p) == n
  {
    var k := |chain| - 1;
    TxsBelowPrefix(chain, k, k);
    if n >= TxsBelow(chain, k) then Place(k, n - TxsBelow(chain, k))
    else
      var p := PlaceAt(chain[..k], n);
      TxsBelowPrefix(chain, k, p.h);
      p
  }

  lemma {:induction false} TxsGrow(chain: seq<Block>, a: nat, b: nat)
    requires a <= b <= |chain|
    ensures TxsBelow(chain, a) <= TxsBelow(chain, b)
  {
    if a < b {
      TxsGrow(chain, a, b - 1);
    }
  }

  /** Numbers are in the order of the chain. */
  lemma NumberOrder(chain: seq<Block>, p: Place, q: Place)
    requires In(chain, p) && In(chain, q)
    ensures Ahead(p, q) <==> NumberAt(chain, p) < NumberAt(chain, q)
    ensures p == q <==> NumberAt(chain, p) == NumberAt(chain, q)
    ensures TxsBelow(chain, p.h) <= NumberAt(chain, p) < TxsBelow(chain, p.h + 1) <= TxsBelow(chain, |chain|)
  {
    TxsGrow(chain, p.h + 1, |chain|);
    if p.h < q.h {
      TxsGrow(chain, p.h + 1, q.h);
    } else if q.h < p.h {
      TxsGrow(chain, q.h + 1, p.h);
    }
  }

  lemma {:induction false} OccursHas(touches: seq<set<HashX>>, x: HashX, n: nat)
    ensures n in Occurs(touches, x, 0) <==> n < |touches| && x in touches[n]
  {
    if touches != [] {
      OccursHas(touches[..|touches| - 1], x, n);
    }
  }

  // ---- histories ----

  /** The transaction touches the address. */
  ghost predicate TouchesAddress(coin: Coin, chain: seq<Block>, q: Place, x: HashX) {
    PaysAddress(coin, chain, q, x) || SpendsFrom(coin, chain, q, x)
  }

  /** The transactions that touch the address, in the order of the chain. */
  ghost predicate Listed(coin: Coin, chain: seq<Block>, x: HashX, qs: seq<Place>) {
    && (forall q :: q in qs <==> In(chain, q) && TouchesAddress(coin, chain, q, x))
    && forall i, j :: 0 <= i < j < |qs| ==> Ahead(qs[i], qs[j])
  }

  /** The ids and heights of transactions. */
  ghost predicate AreNamed(chain: seq<Block>, qs: seq<Place>, r: seq<(Hash, nat)>) {
    |r| == |qs| && forall i :: 0 <= i < |r| ==> In(chain, qs[i]) && r[i] == (TxAt(chain, qs[i]).txid, qs[i].h)
  }

  ghost function Places(chain: seq<Block>, ns: seq<nat>): (qs: seq<Place>)
    requires AllBelow(ns, TxsBelow(chain, |chain|))
    ensures |qs| == |ns| && forall i :: 0 <= i < |qs| ==> In(chain, qs[i]) && NumberAt(chain, qs[i]) == ns[i]
  {
    if ns == [] then [] else Places(chain, ns[..|ns| - 1]) + [PlaceAt(chain, ns[|ns| - 1])]
  }

  /** The numbers recorded for an address are those of the transactions that touch it. */
  lemma OccursListed(coin: Coin, chain: seq<Block>, x: HashX)
    requires ValidChain(coin, chain)
    ensures var ns := Occurs(Replay(coin, chain).touches, x, 0);
      AllBelow(ns, TxsBelow(chain, |chain|)) && Listed(coin, chain, x, Places(chain, ns))
  {
    hide Replay, ValidChain, Occurs, TouchesAddress, TxsBelow;
    var touches := Replay(coin, chain).touches;
    var ns := Occurs(touches, x, 0);
    ReplayCoherent(coin, chain);
    IdsCount(coin, chain);
    OccursRange(touches, x, 0);
    var qs := Places(chain, ns);
    forall i, j | 0 <= i < j < |qs|
      ensures Ahead(qs[i], qs[j])
    {
      IncreasingBefore(ns, j);
      assert ns[..j][i] == ns[i];
      NumberOrder(chain, qs[i], qs[j]);
    }
    forall q
      ensures q in qs <==> In(chain, q) && TouchesAddress(coin, chain, q, x)
    {
      if In(chain, q) {
        TouchedAt(coin, chain, q, x);
        NumberIn(chain, ns, q);
      }
    }
  }

  lemma TouchedAt(coin: Coin, chain: seq<Block>, q: Place, x: HashX)
    requires ValidChain(coin, chain) && In(chain, q)
    ensures NumberAt(chain, q) in Occurs(Replay(coin, chain).touches, x, 0) <==> TouchesAddress(coin, chain, q, x)
  {
    hide Replay, ValidChain, Occurs, TxsBelow, PaysAddress, SpendsFrom;
    HistoryIs(coin, chain, q, x);
    OccursHas(Replay(coin, chain).touches, x, NumberAt(chain, q));
  }

  lemma NumberIn(chain: seq<Block>, ns: seq<nat>, q: Place)
    requires AllBelow(ns, TxsBelow(chain, |chain|)) && In(chain, q)
    ensures q in Places(chain, ns) <==> NumberAt(chain, q) in ns
  {
    hide TxsBelow, Places;
    var qs := Places(chain, ns);
    if NumberAt(chain, q) in ns {
      var i :| 0 <= i < |ns| && ns[i] == NumberAt(chain, q);
      NumberOrder(chain, qs[i], q);
    }
  }

  // ---- queries ----

  /** As many as the limit allows; no limit or one below zero allows all. */
  ghost function FirstOf(qs: seq<Place>, limit: Option<int>): seq<Place> {
    if limit.None? || limit.value < 0 || |qs| <= limit.value then qs else qs[..limit.value]
  }

  ghost predicate BelowHeight(qs: seq<Place>, h: nat) {
    forall i :: 0 <= i < |qs| ==> qs[i].h < h
  }

  /** The id and height of each transaction in an address's history, oldest first,
      as many as the limit allows; None while one of them is not committed. */
  method LimitedHistory(db: DB, hashX: HashX, limit: Option<int>, ghost c: seq<Block>)
    returns (r: Option<seq<(Hash, nat)>>)
    requires db.Opened() && ValidChain(db.coin, db.fsChain)
    requires db.txCounts == Replay(db.coin, c).txCounts && db.fsChain <= c
    ensures exists qs ::
      && Listed(db.coin, db.fsChain, hashX, qs)
      && (r.Some? <==> BelowHeight(FirstOf(qs, limit), |db.dbChain|))
      && (r.Some? ==> AreNamed(db.fsChain, FirstOf(qs, limit), r.value))
  {
    hide *;
    OpenedIs(db, hashX);
    var txNums := db.history.GetTxnums(hashX, limit);
    ghost var qs := PlacesOf(db, hashX, limit, txNums);
    ghost var first := FirstOf(qs, limit);
    var entries: seq<(Hash, nat)> := [];
    for i := 0 to |txNums|
      invariant |entries| == i
      invariant forall j :: 0 <= j < i ==>
        && In(db.fsChain, first[j]) && first[j].h < |db.dbChain|
        && entries[j] == (TxAt(db.fsChain, first[j]).txid, first[j].h)
    {
      var (hash, height) := db.FsTxHash(txNums[i]);
      HashOf(db, first[i], c);
      if hash.None? {
        NotBelow(first, i, |db.dbChain|);
        return None;
      }
      entries := entries + [(hash.value, height)];
    }
    NamedIs(db.fsChain, first, |db.dbChain|, entries);
    r := Some(entries);
  }

  lemma NotBelow(qs: seq<Place>, i: nat, h: nat)
    requires i < |qs| && qs[i].h >= h
    ensures !BelowHeight(qs, h)
  {
  }

  lemma NamedIs(chain: seq<Block>, qs: seq<Place>, h: nat, r: seq<(Hash, nat)>)
    requires |r| == |qs| && forall i :: 0 <= i < |r| ==>
      In(chain, qs[i]) && qs[i].h < h && r[i] == (TxAt(chain, qs[i]).txid, qs[i].h)
    ensures AreNamed(chain, qs, r) && BelowHeight(qs, h)
  {
  }

  /** The places behind the numbers read for an address. */
  lemma PlacesOf(db: DB, x: HashX, limit: Option<int>, nums: seq<nat>) returns (qs: seq<Place>)
    requires ValidChain(db.coin, db.fsChain)
    requires nums == HistoryStore.Limited(Occurs(Replay(db.coin, db.fsChain).touches, x, 0), limit)
    ensures Listed(db.coin, db.fsChain, x, qs) && |FirstOf(qs, limit)| == |nums|
    ensures forall i :: 0 <= i < |nums| ==>
      In(db.fsChain, FirstOf(qs, limit)[i]) && NumberAt(db.fsChain, FirstOf(qs, limit)[i]) == nums[i]
  {
    hide Replay, ValidChain, Listed, TxsBelow, Occurs, Places;
    OccursListed(db.coin, db.fsChain, x);
    qs := Places(db.fsChain, Occurs(Replay(db.coin, db.fsChain).touches, x, 0));
  }

  lemma OpenedIs(db: DB, x: HashX)
    requires db.Opened()
    ensures db.dbHeight == |db.dbChain| - 1 && db.dbChain <= db.fsChain
    ensures FilesHold(db.files, db.coin, db.fsChain)
    ensures HistoryOf(db.history.rows, x) == Occurs(Replay(db.coin, db.fsChain).touches, x, 0)
  {
    hide Replay, ValidChain, FilesHold, RowsHold, Tables, UndoHolds, HistoryOf, Occurs;
  }

  /** A transaction's number leads to its id and height once it is committed. */
  lemma HashOf(db: DB, q: Place, c: seq<Block>)
    requires FilesHold(db.files, db.coin, db.fsChain) && db.dbHeight == |db.dbChain| - 1 && db.dbChain <= db.fsChain
    requires db.txCounts == Replay(db.coin, c).txCounts && db.fsChain <= c && In(db.fsChain, q)
    ensures var (hash, height) := db.FsTxHash(NumberAt(db.fsChain, q));
      height == q.h && hash == if q.h < |db.dbChain| then Some(TxAt(db.fsChain, q).txid) else None
  {
    hide FilesHold, Replay, TxsBelow;
    NumbersAre(db.coin, db.fsChain, q);
    HeightIs(db.coin, db.fsChain, db.txCounts, c, q);
    FileHas(db.files, db.coin, db.fsChain, NumberAt(db.fsChain, q));
  }

  lemma FileHas(files: Files, coin: Coin, chain: seq<Block>, n: nat)
    requires FilesHold(files, coin, chain) && n < |Replay(coin, chain).txids|
    ensures n < |files.hashes| && files.hashes[n] == Replay(coin, chain).txids[n]
  {
    hide Replay;
  }

  lemma HeightIs(coin: Coin, chain: seq<Block>, counts: seq<nat>, c: seq<Block>, q: Place)
    requires counts == Replay(coin, c).txCounts && chain <= c && In(chain, q)
    ensures BisectRight(counts, NumberAt(chain, q)) == q.h
  {
    hide Replay, TxsBelow;
    var n, i := NumberAt(chain, q), BisectRight(counts, NumberAt(chain, q));
    assert c[..|chain|] == chain;
    TxsBelowPrefix(c, |chain|, q.h);
    assert In(c, q) && NumberAt(c, q) == n;
    NumbersAre(coin, c, q);
    NumberOrder(c, q, q);
    ReplayCoherent(coin, c);
    if i < q.h {
      CountIs(coin, c, i);
      TxsGrow(c, i + 1, q.h);
    }
  }

  lemma CountIs(coin: Coin, c: seq<Block>, h: nat)
    requires h < |c|
    ensures h < |Replay(coin, c).txCounts| && Replay(coin, c).txCounts[h] == TxsBelow(c, h + 1)
  {
    hide Replay, TouchBody, UndoBody, ApplyBody;
    ReplayCoherent(coin, c);
    ReplayPrefix(coin, c, h + 1);
    ReplayStep(coin, c[..h], c[h]);
    assert c[..h + 1] == c[..h] + [c[h]];
    ReplayCoherent(coin, c[..h]);
    IdsCount(coin, c[..h]);
    TxsBelowPrefix(c, h, h);
  }

  /** An outpoint is found exactly if it is unspent, with the address and value of its output. */
  lemma FoundIs(coin: Coin, chain: seq<Block>, o: Outpoint, x: HashX, v: nat)
    requires ValidChain(coin, chain)
    ensures Found(Replay(coin, chain).utxos, o) == Some((x, v)) <==>
      exists q ::
        && Unspent(coin, chain, q, o)
        && coin.hashX(TxAt(chain, q).outputs[o.idx].script) == x && TxAt(chain, q).outputs[o.idx].value == v
  {
    hide Replay, ValidChain;
    UtxosAre(coin, chain, o);
  }

  /** The rows listed for an address are its unspent outputs, each with its
      transaction's id, number and height. */
  lemma RowIs(coin: Coin, chain: seq<Block>, counts: seq<nat>, c: seq<Block>, row: UtxoRow, x: HashX)
    requires ValidChain(coin, chain) && counts == Replay(coin, c).txCounts && chain <= c
    ensures IsRowOf(row, Replay(coin, chain).utxos, x, counts) <==>
      exists q ::
        && Unspent(coin, chain, q, Outpoint(row.txHash, row.txPos))
        && coin.hashX(TxAt(chain, q).outputs[row.txPos].script) == x
        && row.value == TxAt(chain, q).outputs[row.txPos].value
        && row.txNum == NumberAt(chain, q) && row.height == q.h
  {
    hide Replay, ValidChain, BisectRight, TxsBelow, Spendable, Spends;
    var o := Outpoint(row.txHash, row.txPos);
    UtxosAre(coin, chain, o);
    forall q | Unspent(coin, chain, q, o)
      ensures BisectRight(counts, NumberAt(chain, q)) == q.h
    {
      HeightIs(coin, chain, counts, c, q);
    }
  }

  /** What is reported as touched by the blocks from a height up: the addresses
      their transactions pay to and spend from. */
  lemma TouchedAre(coin: Coin, chain: seq<Block>, h: nat, x: HashX)
    requires ValidChain(coin, chain) && h <= |chain|
    ensures x in TouchedSince(Replay(coin, chain).touches, TxsBelow(chain, h)) <==>
      exists q :: In(chain, q) && q.h >= h && TouchesAddress(coin, chain, q, x)
  {
    hide Replay, ValidChain, PaysAddress, SpendsFrom, TxsBelow;
    var touches, n := Replay(coin, chain).touches, TxsBelow(chain, h);
    ReplayCoherent(coin, chain);
    IdsCount(coin, chain);
    TxsGrow(chain, h, |chain|);
    var tail := touches[n..];
    UnionHas(tail, x);
    if i :| 0 <= i < |tail| && x in tail[i] {
      var q := PlaceAt(chain, n + i);
      HistoryIs(coin, chain, q, x);
      NumberOrder(chain, q, q);
      if q.h < h {
        TxsGrow(chain, q.h + 1, h);
      }
    }
    if q :| In(chain, q) && q.h >= h && TouchesAddress(coin, chain, q, x) {
      HistoryIs(coin, chain, q, x);
      NumberOrder(chain, q, q);
      TxsGrow(chain, h, q.h);
      assert tail[NumberAt(chain, q) - n] == touches[NumberAt(chain, q)];
    }
  }

  lemma {:induction false} UnionHas(ts: seq<set<HashX>>, x: HashX)
    ensures x in UnionOf(ts) <==> exists i :: 0 <= i < |ts| && x in ts[i]
  {
    if ts != [] {
      var k := |ts| - 1;
      UnionHas(ts[..k], x);
      if i :| 0 <= i < |ts| && x in ts[i] {
        if i < k {
          assert x in ts[..k][i];
        }
      }
    }
  }

  // ---- the running process ----

  /** The stored entry of an outpoint: its two table rows, or its place in the cache. */
  ghost predicate Entry(p: Processor, ids: seq<Hash>, o: Outpoint, v: Utxo)
    reads p, p.db
  {
    var hkey, ukey := HKey(o.hash[..4], o.idx, v.txNum), UKey(v.hashX, o.idx, v.txNum);
    || (o in p.utxoCache && p.utxoCache[o] == v)
    || (&& o !in p.utxoCache
        && hkey in p.db.utxoDb.h && H(hkey) !in p.dbDeletes && p.db.utxoDb.h[hkey] == v.hashX
        && ukey in p.db.utxoDb.u && U(ukey) !in p.dbDeletes && p.db.utxoDb.u[ukey] == v.value
        && v.txNum < |ids| && ids[v.txNum] == o.hash)
  }

  /** Cache and tables hold the unspent outputs of the chain and nothing else. */
  lemma EntriesAre(p: Processor, o: Outpoint, v: Utxo)
    requires p.Valid()
    ensures Entry(p, Replay(p.db.coin, p.chain).txids, o, v) <==>
      exists q :: Unspent(p.db.coin, p.chain, q, o) && HeldAs(p.db.coin, p.chain, q, o, v)
  {
    hide Replay, ValidChain, Unspent, Entry, Processor.Valid, Represents, Runs.IndexIsReplay;
    var ix := Replay(p.db.coin, p.chain);
    Runs.ValidMeans(p);
    IndexFacts(p, v.hashX);
    CoherentNumbers(p.db.coin, p.chain);
    EntryIs(p, ix.utxos, ix.txids, o, v);
    UtxosAre(p.db.coin, p.chain, o);
    forall q | Unspent(p.db.coin, p.chain, q, o) && HeldAs(p.db.coin, p.chain, q, o, v)
      ensures v == Get(ix.utxos, o)
    {
      HeldOnce(p.db.coin, p.chain, q, o, v, Get(ix.utxos, o));
    }
  }

  lemma IndexFacts(p: Processor, x: HashX)
    requires Runs.IndexIsReplay(p)
    ensures var ix := Replay(p.db.coin, p.chain);
      && ValidChain(p.db.coin, p.chain)
      && Represents(p.db.utxoDb.h, p.db.utxoDb.u, p.dbDeletes, p.utxoCache, ix.utxos, ix.txids)
      && HistoryOf(p.db.history.rows, x) + HistoryStore.PendingIn(p.db.history.unflushed, x) == Occurs(ix.touches, x, 0)
  {
    hide Replay, ValidChain, Represents, HistoryOf, Occurs;
  }

  lemma HeldOnce(coin: Coin, chain: seq<Block>, q: Place, o: Outpoint, v: Utxo, w: Utxo)
    requires HeldAs(coin, chain, q, o, v) && HeldAs(coin, chain, q, o, w)
    ensures v == w
  {
  }

  lemma EntryIs(p: Processor, m: UtxoMap, ids: seq<Hash>, o: Outpoint, v: Utxo)
    requires Represents(p.db.utxoDb.h, p.db.utxoDb.u, p.dbDeletes, p.utxoCache, m, ids) && Numbers(m, ids)
    ensures Entry(p, ids, o, v) <==> o in m && m[o] == v
  {
    hide Tables;
    var h, u := p.db.utxoDb.h - HDeleted(p.dbDeletes), p.db.utxoDb.u - UDeleted(p.dbDeletes);
    var hkey, ukey := HKey(o.hash[..4], o.idx, v.txNum), UKey(v.hashX, o.idx, v.txNum);
    assert hkey in h <==> hkey in p.db.utxoDb.h && H(hkey) !in p.dbDeletes;
    assert ukey in u <==> ukey in p.db.utxoDb.u && U(ukey) !in p.dbDeletes;
    RowsAre(h, u, m - p.utxoCache.Keys, ids, o, v);
  }

  /** The two rows of an entry are in the tables exactly if the entry is in the map. */
  lemma RowsAre(h: HTable, u: UTable, m: UtxoMap, ids: seq<Hash>, o: Outpoint, v: Utxo)
    requires Tables(h, u, m, ids) && Numbers(m, ids)
    ensures var hkey, ukey := HKey(o.hash[..4], o.idx, v.txNum), UKey(v.hashX, o.idx, v.txNum);
      o in m && m[o] == v <==>
        && hkey in h && h[hkey] == v.hashX && ukey in u && u[ukey] == v.value
        && v.txNum < |ids| && ids[v.txNum] == o.hash
  {
    var hkey, ukey := HKey(o.hash[..4], o.idx, v.txNum), UKey(v.hashX, o.idx, v.txNum);
    if o in m {
      assert Stored(h, u, o, m[o]);
    }
    if hkey in h && ukey in u && v.txNum < |ids| && ids[v.txNum] == o.hash {
      assert HEntry(m, ids, hkey) && UEntry(m, ids, ukey);
      assert PointOf(ids, o.idx, v.txNum) == o;
    }
  }

  /** Rows and pending history together hold, for each address, the numbers of the
      transactions of the chain that touch it, in order. */
  lemma HistoriesAre(p: Processor, x: HashX)
    requires p.Valid()
    ensures var ns := HistoryOf(p.db.history.rows, x) + HistoryStore.PendingIn(p.db.history.unflushed, x);
      AllBelow(ns, TxsBelow(p.chain, |p.chain|)) && Listed(p.db.coin, p.chain, x, Places(p.chain, ns))
  {
    hide Replay, ValidChain, Listed, Processor.Valid, HistoryOf, Occurs, Runs.IndexIsReplay;
    Runs.ValidMeans(p);
    IndexFacts(p, x);
    OccursListed(p.db.coin, p.chain, x);
  }
}
