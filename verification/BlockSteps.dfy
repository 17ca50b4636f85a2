/** The sequences and sets a block processor builds up, step by step. */
module BlockSteps {
  import opened Types
  import opened Ledger
  import opened LedgerProofs
  import opened HistoryRows
  import HistoryStore
  import opened UtxoTables
  import opened Database
  import ForkSearch

  /** Heights lo .. hi - 1 that are at least min. */
  ghost function HeightsFrom(lo: nat, hi: nat, min: int): set<nat> {
    if hi <= lo then {}
    else HeightsFrom(lo, hi - 1, min) + (if hi - 1 >= min then {hi - 1} else {})
  }

  function HeadersOf(blocks: seq<Block>): seq<Header> {
    if blocks == [] then [] else HeadersOf(blocks[..|blocks| - 1]) + [blocks[|blocks| - 1].header]
  }

  ghost predicate PaidTo(hashXsByTx: seq<set<HashX>>, fx: seq<Effect>) {
    |hashXsByTx| == |fx| && forall i :: 0 <= i < |fx| ==> hashXsByTx[i] == HashXsOf(fx[i].made)
  }

  ghost function UnionOf(ts: seq<set<HashX>>): set<HashX> {
    if ts == [] then {} else UnionOf(ts[..|ts| - 1]) + ts[|ts| - 1]
  }

  /** The addresses of the values at the given outpoints. */
  ghost function HashXsAt(m: UtxoMap, ps: seq<Outpoint>): set<HashX> {
    set o | o in ps :: Get(m, o).hashX
  }

  ghost function HashXsOf(m: UtxoMap): set<HashX> {
    set o | o in m :: m[o].hashX
  }

  // ---- lemmas ----

  lemma OnlyCandidate(s: set<HKey>, k: HKey)
    requires k in s
    ensures |s| == 1 ==> s == {k}
    ensures |s| >= 1
  {
    if |s| == 1 {
      assert |s - {k}| == 0;
    }
    assert s == (s - {k}) + {k};
  }

  lemma AbsHas(m: UtxoMap, pend: set<Outpoint>, cache: UtxoMap, o: Outpoint)
    ensures o in Abs(m, pend, cache) <==> o in cache || (o in m && o !in pend)
    ensures o in Abs(m, pend, cache) ==> Abs(m, pend, cache)[o] == if o in cache then cache[o] else m[o]
  {
  }

  lemma CachePop(h: HTable, u: UTable, m: UtxoMap, ids: seq<Hash>, pend: set<Outpoint>,
                 cache: UtxoMap, deletes: seq<DbKey>, o: Outpoint)
    requires Layers(h, u, m, ids, pend, cache, deletes) && o in cache
    ensures Layers(h, u, m, ids, pend, cache - {o}, deletes)
    ensures Abs(m, pend, cache - {o}) == Abs(m, pend, cache) - {o} && Abs(m, pend, cache)[o] == cache[o]
  {
  }

  lemma Marked(h: HTable, u: UTable, m: UtxoMap, ids: seq<Hash>, pend: set<Outpoint>,
               cache: UtxoMap, deletes: seq<DbKey>, p: Outpoint)
    requires Layers(h, u, m, ids, pend, cache, deletes) && p in m
    ensures Layers(h, u, m, ids, pend + {p}, cache, deletes + [H(HOf(p, m[p])), U(UOf(p, m[p]))])
    ensures p in Abs(m, pend, cache) && p !in cache ==>
      Abs(m, pend + {p}, cache) == Abs(m, pend, cache) - {p} && Abs(m, pend, cache)[p] == m[p]
  {
    if p in pend {
      MarkAgain(h, u, m, ids, pend, cache, deletes, p);
      assert pend + {p} == pend;
    } else {
      MarkDeleted(h, u, m, ids, pend, cache, deletes, p);
    }
  }

  lemma SpendStart(m: UtxoMap, ins: seq<TxInput>, undo: seq<Utxo>, hashXs: set<HashX>)
    ensures m == m - Elems(Prevouts(ins[..0]))
    ensures undo == undo + Values(m, Prevouts(ins[..0]))
    ensures hashXs == hashXs + HashXsAt(m, Prevouts(ins[..0]))
  {
    assert ins[..0] == [];
  }

  /** The next prevout has not been met before. */
  lemma NextPrevout(ins: seq<TxInput>, i: nat)
    requires i < |ins| && !ins[i].IsGeneration() && NoDup(Prevouts(ins))
    ensures ins[i].Prevout() !in Prevouts(ins[..i]) && ins[i].Prevout() in Prevouts(ins)
  {
    hide Prevouts, NoDup;
    PrevoutsStep(ins, i);
    PrevoutsPrefix(ins, i + 1);
    NextDistinct(Prevouts(ins), Prevouts(ins[..i]), ins[i].Prevout());
  }

  lemma NextDistinct(all: seq<Outpoint>, ps: seq<Outpoint>, o: Outpoint)
    requires NoDup(all) && ps + [o] <= all
    ensures o !in ps && o in all
  {
    var k := |ps|;
    assert all[k] == (ps + [o])[k] == o;
    assert forall j :: 0 <= j < k ==> all[j] == (ps + [o])[j] == ps[j];
  }

  lemma {:induction false} PrevoutsPrefix(ins: seq<TxInput>, i: nat)
    requires i <= |ins|
    ensures Prevouts(ins[..i]) <= Prevouts(ins)
  {
    if i < |ins| {
      var k := |ins| - 1;
      assert ins[..k][..i] == ins[..i];
      PrevoutsPrefix(ins[..k], i);
    } else {
      assert ins[..i] == ins;
    }
  }

  lemma HashXsNone()
    ensures HashXsOf(map[]) == {}
  {
  }

  lemma SpendStep(m: UtxoMap, all: seq<Outpoint>, ps: seq<Outpoint>, o: Outpoint)
    requires Elems(all) <= m.Keys && o in all && o !in ps
    ensures o in m - Elems(ps) && (m - Elems(ps))[o] == Get(m, o)
    ensures m - Elems(ps + [o]) == (m - Elems(ps)) - {o}
    ensures Values(m, ps + [o]) == Values(m, ps) + [Get(m, o)]
    ensures HashXsAt(m, ps + [o]) == HashXsAt(m, ps) + {Get(m, o).hashX}
  {
    assert o in Elems(all);
    assert (ps + [o])[..|ps|] == ps;
    assert forall x :: x in ps + [o] <==> x in ps || x == o;
  }

  /** A spendable output makes an outpoint not made by the outputs before it. */
  lemma MadeNext(coin: Coin, ht: nat, tx: Tx, num: nat, i: nat)
    requires i < |tx.outputs| && Pays(coin, ht, tx, i)
    ensures Outpoint(tx.txid, i) in Made(coin, ht, tx, num, |tx.outputs|)
    ensures Outpoint(tx.txid, i) !in Made(coin, ht, tx, num, i)
  {
    MadeHas(coin, ht, tx, num, |tx.outputs|, Outpoint(tx.txid, i));
    MadeHas(coin, ht, tx, num, i, Outpoint(tx.txid, i));
  }

  lemma CachePut(h: HTable, u: UTable, m: UtxoMap, ids: seq<Hash>, pend: set<Outpoint>,
                 cache: UtxoMap, deletes: seq<DbKey>, o: Outpoint, v: Utxo)
    requires Layers(h, u, m, ids, pend, cache, deletes) && o !in Abs(m, pend, cache)
    ensures Layers(h, u, m, ids, pend, cache[o := v], deletes)
    ensures Abs(m, pend, cache[o := v]) == Abs(m, pend, cache)[o := v]
  {
  }

  lemma HashXsPut(m: UtxoMap, o: Outpoint, v: Utxo)
    requires o !in m
    ensures HashXsOf(m[o := v]) == HashXsOf(m) + {v.hashX}
  {
    var r := m[o := v];
    assert r[o] == v;
    assert forall p :: p in m ==> p in r && r[p] == m[p];
  }

  lemma ApplyStart(m: UtxoMap, fx: seq<Effect>, touched: set<HashX>)
    ensures Apply(m, fx[..0]) == m && Undo(m, fx[..0]) == [] && Touches(m, fx[..0]) == []
    ensures touched == touched + UnionOf([])
  {
  }

  lemma UnionPush(ts: seq<set<HashX>>, t: set<HashX>)
    ensures UnionOf(ts + [t]) == UnionOf(ts) + t
  {
    assert (ts + [t])[..|ts|] == ts;
  }

  lemma EffectParts(coin: Coin, ht: nat, tx: Tx, num: nat)
    ensures EffectOf(coin, ht, tx, num).spent == Prevouts(tx.inputs)
    ensures EffectOf(coin, ht, tx, num).made == Made(coin, ht, tx, num, |tx.outputs|)
  {
  }

  lemma AllMadeStart(m: UtxoMap, fx: seq<Effect>)
    ensures m + AllMade(fx[..0]) == m
  {
  }

  lemma MapAssoc(a: UtxoMap, b: UtxoMap, c: UtxoMap)
    ensures (a + b) + c == a + (b + c)
  {
  }

  /** What effect i makes is new when the earlier effects have been made. */
  lemma FreshAt(m: UtxoMap, fx: seq<Effect>, i: nat)
    requires Fresh(m, fx) && i < |fx|
    ensures fx[i].made.Keys !! (m + AllMade(fx[..i])).Keys
  {
    ApartPairs(fx);
    forall o | o in fx[i].made
      ensures o !in m && o !in AllMade(fx[..i])
    {
      AllMadeHas(fx, o);
      AllMadeHas(fx[..i], o);
    }
  }

  lemma AllSpentStart(m: UtxoMap, fx: seq<Effect>)
    ensures m - Elems(AllSpent(fx[..0])) == m
    ensures Values(m, AllSpent(fx[..0])) == [] && TouchesAt(m, fx[..0]) == []
  {
  }

  lemma {:induction false} AllSpentPrefix(fx: seq<Effect>, i: nat)
    requires i <= |fx|
    ensures AllSpent(fx[..i]) <= AllSpent(fx)
  {
    if i < |fx| {
      var k := |fx| - 1;
      assert fx[..k][..i] == fx[..i];
      AllSpentPrefix(fx[..k], i);
    } else {
      assert fx[..i] == fx;
    }
  }

  /** What effect i spends is distinct and has not been spent by the earlier effects. */
  lemma SpentAt(m: UtxoMap, fx: seq<Effect>, i: nat)
    requires NoDup(AllSpent(fx)) && Elems(AllSpent(fx)) <= m.Keys && i < |fx|
    ensures NoDup(fx[i].spent) && Elems(fx[i].spent) <= (m - Elems(AllSpent(fx[..i]))).Keys
  {
    hide AllSpent;
    AllSpentPrefix(fx, i + 1);
    LtorStep(fx, i);
    Segment(AllSpent(fx), AllSpent(fx[..i]), fx[i].spent);
  }

  lemma Segment(all: seq<Outpoint>, a: seq<Outpoint>, b: seq<Outpoint>)
    requires NoDup(all) && a + b <= all
    ensures NoDup(b) && Elems(b) !! Elems(a) && Elems(b) <= Elems(all)
  {
    assert forall i :: 0 <= i < |a| ==> all[i] == a[i];
    assert forall i :: 0 <= i < |b| ==> all[|a| + i] == (a + b)[|a| + i] == b[i];
    forall i, j | 0 <= i < j < |b|
      ensures b[i] != b[j]
    {
      assert all[|a| + i] != all[|a| + j];
    }
    forall o | o in b
      ensures o !in a && o in all
    {
      var i :| 0 <= i < |b| && b[i] == o;
      assert all[|a| + i] == o;
      assert forall j :: 0 <= j < |a| ==> all[j] != all[|a| + i];
    }
  }

  lemma SpentStep(m: UtxoMap, fx: seq<Effect>, i: nat)
    requires i < |fx| && Elems(fx[i].spent) <= (m - Elems(AllSpent(fx[..i]))).Keys
    ensures var m' := m - Elems(AllSpent(fx[..i]));
      && m - Elems(AllSpent(fx[..i + 1])) == m' - Elems(fx[i].spent)
      && Values(m, AllSpent(fx[..i + 1])) == Values(m, AllSpent(fx[..i])) + Values(m', fx[i].spent)
      && TouchesAt(m, fx[..i + 1])
         == TouchesAt(m, fx[..i]) + [HashXsOf(fx[i].made) + HashXsAt(m', fx[i].spent)]
  {
    hide AllSpent, Values;
    var m' := m - Elems(AllSpent(fx[..i]));
    var ps := fx[i].spent;
    LtorStep(fx, i);
    assert fx[..i + 1][..i] == fx[..i];
    assert forall o :: o in ps ==> o in Elems(ps);
    assert forall o :: o in ps ==> Get(m, o) == Get(m', o);
    ValuesConcat(m, AllSpent(fx[..i]), ps);
    ValuesSame(m, m', ps);
    TouchSame(m, m', fx[i]);
    assert Touch(m', fx[i]) == HashXsOf(fx[i].made) + HashXsAt(m', ps);
  }

  /** The addresses touched by transactions from number n on. */
  ghost function TouchedSince(touches: seq<set<HashX>>, n: nat): set<HashX> {
    if n <= |touches| then UnionOf(touches[n..]) else {}
  }

  lemma TouchedTail(touches: seq<set<HashX>>, more: seq<set<HashX>>)
    ensures TouchedSince(touches + more, |touches|) == UnionOf(more)
  {
    assert (touches + more)[|touches|..] == more;
  }

  /** What one more block adds to the index. */
  lemma NextIndex(coin: Coin, chain: seq<Block>, b: Block)
    ensures var ix, ix' := Replay(coin, chain), Replay(coin, chain + [b]);
      var fx := Effects(coin, |chain|, b.txs, |ix.txids|);
      && ix'.utxos == ApplyBody(coin, ix.utxos, fx)
      && ix'.touches == ix.touches + TouchBody(coin, ix.utxos, fx)
      && |ix'.txids| == |ix.txids| + |b.txs|
      && ix'.txCounts == ix.txCounts + [|ix.txids| + |b.txs|]
      && |ix.undos| == |chain| && ix'.undos == ix.undos + [UndoBody(coin, ix.utxos, fx)]
      && |ix.touches| == |ix.txids| && |TouchBody(coin, ix.utxos, fx)| == |b.txs|
      && (ValidNext(coin, chain, b) <==> coin.prevHash(b.header) == Tip(coin, chain) && ValidBody(coin, ix.utxos, fx))
      && (ValidChain(coin, chain + [b]) <==> ValidChain(coin, chain) && ValidNext(coin, chain, b))
  {
    hide Effects, ApplyBody, TouchBody, UndoBody, ValidBody, Replay, ValidChain;
    ReplayStep(coin, chain, b);
    ReplayCoherent(coin, chain);
    ReplayCoherent(coin, chain + [b]);
  }

  lemma NextBlockIds(chain: seq<Block>, k: nat, b: Block)
    requires k <= |chain|
    ensures BlockIds((chain + [b])[k..]) == BlockIds(chain[k..]) + [TxIds(b.txs)]
  {
    hide TxIds;
    assert (chain + [b])[k..] == chain[k..] + [b];
  }

  ghost predicate PendingIs(rows: Rows, u: map<HashX, seq<nat>>, touches: seq<set<HashX>>) {
    forall a :: HistoryOf(rows, a) + HistoryStore.PendingIn(u, a) == Occurs(touches, a, 0)
  }

  lemma PendingFacts(db: DB, chain: seq<Block>)
    requires db.PendingOk(chain)
    ensures PendingIs(db.history.rows, db.history.unflushed, Replay(db.coin, chain).touches)
  {
    hide Replay;
  }

  lemma PendingMake(db: DB, chain: seq<Block>)
    requires PendingIs(db.history.rows, db.history.unflushed, Replay(db.coin, chain).touches)
    ensures db.PendingOk(chain)
  {
    hide Replay;
  }

  lemma PendingNone(rows: Rows, ix: Index)
    requires RowsAreOf(rows, ix)
    ensures PendingIs(rows, map[], ix.touches)
  {
    hide HistoryOf;
  }

  lemma NoUndos(ix: Index)
    ensures UndosOk([], ix)
  {
  }

  lemma PendingAppend(rows: Rows, u: map<HashX, seq<nat>>, v: map<HashX, seq<nat>>,
                      touches: seq<set<HashX>>, more: seq<set<HashX>>)
    requires PendingIs(rows, u, touches) && HistoryStore.Appended(u, more, |touches|, v)
    ensures PendingIs(rows, v, touches + more)
  {
    hide HistoryOf, Occurs, HistoryStore.PendingIn;
    forall a
      ensures HistoryOf(rows, a) + HistoryStore.PendingIn(v, a) == Occurs(touches + more, a, 0)
    {
      OccursConcat(touches, more, a, 0);
      Assoc(HistoryOf(rows, a), HistoryStore.PendingIn(u, a), Occurs(more, a, |touches|));
    }
  }

  // ---- advancing several blocks ----

  lemma NextValid(coin: Coin, chain: seq<Block>, blocks: seq<Block>, i: nat)
    requires i < |blocks| && ValidChain(coin, chain + blocks)
    ensures ValidNext(coin, chain + blocks[..i], blocks[i])
    ensures (chain + blocks[..i]) + [blocks[i]] == chain + blocks[..i + 1]
  {
    hide ValidNext, ValidChain, Replay, ApplyBlock;
    var all, k := chain + blocks, |chain| + i;
    ValidPrefix(coin, all, k + 1);
    OneMore(chain, blocks, i);
    ValidLast(coin, chain + blocks[..i], blocks[i]);
  }

  lemma OneMore(chain: seq<Block>, blocks: seq<Block>, i: nat)
    requires i < |blocks|
    ensures (chain + blocks[..i]) + [blocks[i]] == chain + blocks[..i + 1] == (chain + blocks)[..|chain| + i + 1]
  {
  }

  lemma ValidLast(coin: Coin, chain: seq<Block>, b: Block)
    ensures ValidChain(coin, chain + [b]) <==> ValidChain(coin, chain) && ValidNext(coin, chain, b)
  {
    hide ValidNext, Replay, ApplyBlock;
    assert (chain + [b])[..|chain|] == chain;
  }

  lemma {:induction false} UnionConcat(a: seq<set<HashX>>, b: seq<set<HashX>>)
    ensures UnionOf(a + b) == UnionOf(a) + UnionOf(b)
  {
    if b == [] {
      assert a + b == a;
    } else {
      var k := |b| - 1;
      FrontOfJoin(a, b);
      UnionConcat(a, b[..k]);
    }
  }

  lemma TouchedSplit(t: seq<set<HashX>>, t': seq<set<HashX>>, n: nat)
    requires t <= t' && n <= |t|
    ensures TouchedSince(t', n) == TouchedSince(t, n) + TouchedSince(t', |t|)
  {
    assert t'[n..] == t[n..] + t'[|t|..];
    UnionConcat(t[n..], t'[|t|..]);
  }

  lemma AdvanceStep(coin: Coin, chain: seq<Block>, b: Block, count: nat, min: int, lo: nat)
    requires count <= |Replay(coin, chain).touches| && lo <= |chain|
    ensures var t, t' := Replay(coin, chain).touches, Replay(coin, chain + [b]).touches;
      |t| <= |t'| && TouchedSince(t', count) == TouchedSince(t, count) + TouchedSince(t', |t|)
    ensures HeightsFrom(lo, |chain| + 1, min)
         == HeightsFrom(lo, |chain|, min) + (if |chain| >= min then {|chain|} else {})
  {
    hide Replay, TouchedSince, Coherent;
    var all := chain + [b];
    assert all[..|chain|] == chain;
    PrefixFacts(coin, all, |chain|);
    TouchedSplit(Replay(coin, chain).touches, Replay(coin, all).touches, count);
  }

  lemma UndosStep(coin: Coin, chain: seq<Block>, b: Block, undos: seq<(seq<Utxo>, nat)>, undo: seq<Utxo>)
    requires UndosOk(undos, Replay(coin, chain)) && UndosOk([(undo, |chain|)], Replay(coin, chain + [b]))
    ensures UndosOk(undos, Replay(coin, chain + [b]))
    ensures UndosOk(undos + [(undo, |chain|)], Replay(coin, chain + [b]))
    ensures UndoHeights(undos + [(undo, |chain|)]) == UndoHeights(undos) + {|chain|}
  {
    hide Replay, Coherent;
    var all := chain + [b];
    assert all[..|chain|] == chain;
    PrefixFacts(coin, all, |chain|);
    assert [(undo, |chain|)][0] in [(undo, |chain|)];
    assert forall p :: p in undos + [(undo, |chain|)] <==> p in undos || p == (undo, |chain|);
  }

  lemma MoreHeaders(chain: seq<Block>, blocks: seq<Block>, k: nat)
    requires k <= |chain|
    ensures Headers(chain + blocks)[k..] == Headers(chain)[k..] + HeadersOf(blocks)
  {
    HeadersOfAt(blocks);
  }

  lemma {:induction false} HeadersOfAt(blocks: seq<Block>)
    ensures HeadersOf(blocks) == Headers(blocks)
  {
    if blocks != [] {
      HeadersOfAt(blocks[..|blocks| - 1]);
    }
  }

  // ---- backing up ----

  lemma RestoreStart(m: UtxoMap, ps: seq<Outpoint>, touched: set<HashX>)
    ensures touched == touched + HashXsAt(m, ps[|ps|..])
  {
  }

  lemma RestoreEnd(m: UtxoMap, ins: seq<TxInput>)
    ensures |Prevouts(ins[..0])| == 0 && m - Elems(Prevouts(ins[..0])) == m
  {
    assert ins[..0] == [];
  }

  lemma RestoreStep(m: UtxoMap, ps: seq<Outpoint>, before: seq<Outpoint>, o: Outpoint)
    requires Elems(ps) <= m.Keys && before + [o] <= ps && o !in before
    ensures o in m && o !in m - Elems(before + [o])
    ensures (m - Elems(before + [o]))[o := m[o]] == m - Elems(before)
    ensures |Values(m, ps)| == |ps| && Values(m, ps)[|before|] == m[o]
    ensures HashXsAt(m, ps[|before|..]) == {m[o].hashX} + HashXsAt(m, ps[|before| + 1..])
  {
    hide Values, HashXsAt, Elems;
    var k := |before|;
    assert ps[k] == (before + [o])[k] == o;
    assert ps[k..] == [o] + ps[k + 1..];
    ElemsAre(ps);
    ElemsAre(before);
    ElemsConcat(before, [o]);
    ElemsOne(o);
    ValuesAt(m, ps, k);
    HashXsConcat(m, [o], ps[k + 1..]);
    HashXsOne(m, o);
    PutBack(m, Elems(before), o);
  }

  lemma ElemsOne(o: Outpoint)
    ensures Elems([o]) == {o}
  {
  }

  lemma HashXsOne(m: UtxoMap, o: Outpoint)
    ensures HashXsAt(m, [o]) == {Get(m, o).hashX}
  {
    assert [o][0] == o;
  }

  /** Putting back one of the entries taken out. */
  lemma PutBack(m: UtxoMap, gone: set<Outpoint>, o: Outpoint)
    requires o in m && o !in gone
    ensures o !in m - (gone + {o}) && (m - (gone + {o}))[o := m[o]] == m - gone
  {
  }

  lemma BackupStart(m: UtxoMap, fx: seq<Effect>, touched: set<HashX>)
    requires |Touches(m, fx)| == |fx|
    ensures touched == touched + UnionOf(Touches(m, fx)[|fx|..])
  {
  }

  lemma {:induction false} UndoPrefix(m: UtxoMap, fx: seq<Effect>, i: nat)
    requires i <= |fx|
    ensures Undo(m, fx[..i]) <= Undo(m, fx) && Touches(m, fx[..i]) <= Touches(m, fx)
  {
    hide Values, Touch, Apply;
    if i < |fx| {
      var k := |fx| - 1;
      assert fx[..k][..i] == fx[..i];
      UndoPrefix(m, fx[..k], i);
      PrefixJoin(Undo(m, fx[..i]), Undo(m, fx[..k]), Values(Apply(m, fx[..k]), fx[k].spent));
      PrefixJoin(Touches(m, fx[..i]), Touches(m, fx[..k]), [Touch(Apply(m, fx[..k]), fx[k])]);
    } else {
      assert fx[..i] == fx;
    }
  }

  /** The undo record of a block ends, up to transaction i, with that transaction's values. */
  lemma UndoSlice(m: UtxoMap, fx: seq<Effect>, i: nat)
    requires i < |fx|
    ensures var n, ps := |Undo(m, fx[..i + 1])|, fx[i].spent;
      && |ps| <= n <= |Undo(m, fx)|
      && Undo(m, fx)[n - |ps|..n] == Values(Apply(m, fx[..i]), ps)
      && |Undo(m, fx[..i])| == n - |ps|
  {
    hide Undo, Touches, Apply, Values;
    ApplyStep(m, fx, i);
    UndoPrefix(m, fx, i + 1);
    ValuesLength(Apply(m, fx[..i]), fx[i].spent);
    var a, v := Undo(m, fx[..i]), Values(Apply(m, fx[..i]), fx[i].spent);
    assert Undo(m, fx)[..|a + v|] == a + v;
    assert (a + v)[|a|..] == v;
  }

  lemma ValuesLength(m: UtxoMap, ps: seq<Outpoint>)
    ensures |Values(m, ps)| == |ps|
  {
    if ps != [] {
      ValuesAt(m, ps, 0);
    }
  }

  lemma BackupTouched(m: UtxoMap, fx: seq<Effect>, i: nat, t0: set<HashX>, start: set<HashX>)
    requires i < |fx| && |Touches(m, fx)| == |fx|
    requires t0 == start + UnionOf(Touches(m, fx)[i + 1..])
    ensures (t0 + HashXsOf(fx[i].made)) + HashXsAt(Apply(m, fx[..i]), fx[i].spent)
         == start + UnionOf(Touches(m, fx)[i..])
  {
    hide Touches, Apply;
    ApplyStep(m, fx, i);
    UndoPrefix(m, fx, i + 1);
    TouchesLength(m, fx[..i]);
    var t := Touches(m, fx);
    assert t[i] == Touch(Apply(m, fx[..i]), fx[i]);
    assert t[i..] == [t[i]] + t[i + 1..];
    UnionConcat([t[i]], t[i + 1..]);
    assert UnionOf([t[i]]) == t[i];
    assert Touch(Apply(m, fx[..i]), fx[i]) == HashXsAt(Apply(m, fx[..i]), fx[i].spent) + HashXsOf(fx[i].made);
  }

  // ---- backing up, outputs first ----

  lemma ForwardStart(m: UtxoMap, all: seq<Outpoint>, n: nat, ins: seq<TxInput>)
    requires n <= |all|
    ensures |Prevouts(ins[..0])| == 0 && HashXsAt(m, all[n..n]) == {}
  {
    assert ins[..0] == [];
  }

  lemma PrefixAt(all: seq<Outpoint>, n: nat, ps: seq<Outpoint>, before: seq<Outpoint>, o: Outpoint)
    requires n + |ps| <= |all| && all[n..n + |ps|] == ps && before + [o] <= ps
    ensures n + |before| < |all| && all[n + |before|] == o
  {
    assert all[n + |before|] == all[n..n + |ps|][|before|] == (before + [o])[|before|];
  }

  lemma ForwardStep(m: UtxoMap, all: seq<Outpoint>, n: nat, k: nat)
    requires n <= k < |all| && NoDup(all) && Elems(all) <= m.Keys
    ensures var o := all[k];
      && o in m && o !in m - Elems(all[k..])
      && (m - Elems(all[k..]))[o := m[o]] == m - Elems(all[k + 1..])
      && |Values(m, all)| == |all| && Values(m, all)[k] == m[o]
      && HashXsAt(m, all[n..k + 1]) == HashXsAt(m, all[n..k]) + {m[o].hashX}
  {
    hide Values, HashXsAt, Elems;
    var o, rest := all[k], all[k + 1..];
    assert o !in rest;
    assert all[k..] == [o] + rest && all[n..k + 1] == all[n..k] + [o];
    ElemsAre(all);
    ElemsAre(rest);
    ElemsConcat([o], rest);
    ElemsOne(o);
    assert {o} + Elems(rest) == Elems(rest) + {o};
    ValuesAt(m, all, k);
    HashXsConcat(m, all[n..k], [o]);
    HashXsOne(m, o);
    PutBack(m, Elems(rest), o);
  }

  lemma ForwardAll(m: UtxoMap, fx: seq<Effect>, touched: set<HashX>)
    ensures |AllSpent(fx[..0])| == 0 && AllSpent(fx)[0..] == AllSpent(fx)
    ensures touched == touched + HashXsAt(m, AllSpent(fx)[..0])
    ensures m - Elems(AllSpent(fx)[|AllSpent(fx)|..]) == m
  {
  }

  lemma MiddleOf<T>(all: seq<T>, a: seq<T>, b: seq<T>)
    requires a + b <= all
    ensures |a| + |b| <= |all| && all[|a|..|a| + |b|] == b
  {
    assert all[..|a + b|] == a + b;
    assert (a + b)[|a|..] == b;
  }

  lemma HashXsJoin(m: UtxoMap, all: seq<Outpoint>, k: nat, n: nat)
    requires k <= n <= |all|
    ensures HashXsAt(m, all[..n]) == HashXsAt(m, all[..k]) + HashXsAt(m, all[k..n])
  {
    assert all[..n] == all[..k] + all[k..n];
  }

  lemma UnmadeAll(m: UtxoMap, fx: seq<Effect>, touched: set<HashX>)
    ensures (m + AllMade(fx)) - AllMade(fx[..0]).Keys == m + AllMade(fx)
    ensures touched == touched + HashXsOf(AllMade(fx[..0]))
    ensures Fresh(m, fx) ==> (m + AllMade(fx)) - AllMade(fx).Keys == m
  {
  }

  /** What effect i made is still there when the outputs before it are gone. */
  lemma UnmadeStep(m: UtxoMap, fx: seq<Effect>, i: nat)
    requires i < |fx| && Fresh(m, fx)
    ensures var base := (m + AllMade(fx)) - AllMade(fx[..i + 1]).Keys;
      && base.Keys !! fx[i].made.Keys
      && (m + AllMade(fx)) - AllMade(fx[..i]).Keys == base + fx[i].made
    ensures HashXsOf(AllMade(fx[..i + 1])) == HashXsOf(AllMade(fx[..i])) + HashXsOf(fx[i].made)
  {
    hide AllMade, AllSpent;
    ApartPairs(fx);
    LtorStep(fx, i);
    var a, a', e := AllMade(fx[..i]), AllMade(fx[..i + 1]), fx[i].made;
    assert a' == a + e;
    MadeApart(fx, i);
    MadeWithin(fx, i);
    assert HashXsOf(a + e) == HashXsOf(a) + HashXsOf(e) by {
      HashXsSum(a, e);
    }
  }

  lemma MadeApart(fx: seq<Effect>, i: nat)
    requires i < |fx| && Apart(fx)
    ensures AllMade(fx[..i]).Keys !! fx[i].made.Keys
  {
    ApartPairs(fx);
    forall o | o in fx[i].made
      ensures o !in AllMade(fx[..i])
    {
      AllMadeHas(fx[..i], o);
    }
  }

  lemma {:induction false} MadeWithin(fx: seq<Effect>, i: nat)
    requires i < |fx| && Apart(fx)
    ensures forall o :: o in fx[i].made ==> o in AllMade(fx) && AllMade(fx)[o] == fx[i].made[o]
  {
    if i < |fx| - 1 {
      MadeWithin(fx[..|fx| - 1], i);
    }
  }

  lemma HashXsSum(a: UtxoMap, b: UtxoMap)
    requires a.Keys !! b.Keys
    ensures HashXsOf(a + b) == HashXsOf(a) + HashXsOf(b)
  {
    var r := a + b;
    assert forall o :: o in a ==> o in r && r[o] == a[o];
    assert forall o :: o in b ==> o in r && r[o] == b[o];
  }

  lemma LtorTouched(m: UtxoMap, fx: seq<Effect>)
    requires Fresh(m, fx)
    ensures UnionOf(TouchesLtor(m, fx)) == HashXsAt(m + AllMade(fx), AllSpent(fx)) + HashXsOf(AllMade(fx))
  {
    TouchedAtOnce(m + AllMade(fx), fx);
  }

  /** The addresses of all inputs and all outputs are those the transactions touch. */
  lemma {:induction false} TouchedAtOnce(m: UtxoMap, fx: seq<Effect>)
    requires Apart(fx)
    ensures UnionOf(TouchesAt(m, fx)) == HashXsAt(m, AllSpent(fx)) + HashXsOf(AllMade(fx))
  {
    hide HashXsAt, HashXsOf, Touch, UnionOf;
    if fx == [] {
      NothingTouched(m);
    } else {
      var k := |fx| - 1;
      TouchedAtOnce(m, fx[..k]);
      UnionPush(TouchesAt(m, fx[..k]), Touch(m, fx[k]));
      HashXsSum(AllMade(fx[..k]), fx[k].made);
      TouchParts(m, fx[k]);
      HashXsConcat(m, AllSpent(fx[..k]), fx[k].spent);
    }
  }

  lemma TouchParts(m: UtxoMap, e: Effect)
    ensures Touch(m, e) == HashXsAt(m, e.spent) + HashXsOf(e.made)
  {
  }

  lemma HashXsConcat(m: UtxoMap, a: seq<Outpoint>, b: seq<Outpoint>)
    ensures HashXsAt(m, a + b) == HashXsAt(m, a) + HashXsAt(m, b)
  {
  }

  lemma NothingTouched(m: UtxoMap)
    ensures UnionOf([]) == HashXsAt(m, []) + HashXsOf(map[])
  {
  }

  // ---- backing up a block ----

  /** What the index of a chain says about its last block. */
  lemma LastBlock(coin: Coin, chain: seq<Block>)
    requires chain != [] && ValidChain(coin, chain)
    ensures var k := |chain| - 1;
      var ix, ix' := Replay(coin, chain[..k]), Replay(coin, chain);
      var b := chain[k];
      var fx := Effects(coin, k, b.txs, |ix.txids|);
      && ValidChain(coin, chain[..k])
      && coin.prevHash(b.header) == Tip(coin, chain[..k])
      && ValidBody(coin, ix.utxos, fx)
      && ix'.utxos == ApplyBody(coin, ix.utxos, fx)
      && ix'.touches == ix.touches + TouchBody(coin, ix.utxos, fx)
      && |ix'.txids| == |ix.txids| + |b.txs|
      && |ix'.txCounts| == |chain| && ix.txCounts == ix'.txCounts[..k]
      && |ix'.undos| == |chain| && ix'.undos[k] == UndoBody(coin, ix.utxos, fx)
      && |ix.touches| == |ix.txids|
  {
    hide Effects, ApplyBody, TouchBody, UndoBody, ValidBody, Replay, ValidChain;
    var k := |chain| - 1;
    assert chain == chain[..k] + [chain[k]];
    NextIndex(coin, chain[..k], chain[k]);
    CountsPrefix(coin, chain, k);
  }

  /** Adding the addresses of the transactions n .. n' - 1 lowers the covered number. */
  lemma CoversMore(touched: set<HashX>, all: seq<set<HashX>>, before: seq<set<HashX>>, more: seq<set<HashX>>)
    requires before + more <= all && Covers(touched, all, |before| + |more|)
    ensures Covers(touched + UnionOf(more), all, |before|)
  {
    hide UnionOf;
    forall i | |before| <= i < |all|
      ensures all[i] <= touched + UnionOf(more)
    {
      if i < |before| + |more| {
        assert all[i] == (before + more)[i] == more[i - |before|];
        UnionHas(more, i - |before|);
      }
    }
  }

  lemma {:induction false} UnionHas(ts: seq<set<HashX>>, i: nat)
    requires i < |ts|
    ensures ts[i] <= UnionOf(ts)
  {
    if i < |ts| - 1 {
      UnionHas(ts[..|ts| - 1], i);
    }
  }

  lemma CoversNothing(touched: set<HashX>, all: seq<set<HashX>>)
    ensures Covers(touched, all, |all|)
  {
  }

  /** A header hash names one block: a raw block with the hash of a block of the chain is that block. */
  ghost predicate Named(coin: Coin, chain: seq<Block>, raw: seq<Block>) {
    forall i, k :: 0 <= i < |raw| && 0 <= k < |chain| ==>
      (coin.headerHash(raw[i].header) == coin.headerHash(chain[k].header) ==> raw[i] == chain[k])
  }

  /** Undo records found at these heights were written for this chain. */
  ghost predicate Trusted(undo: map<nat, seq<Utxo>>, kept: set<nat>, lo: int, hi: int) {
    forall ht: nat :: lo <= ht < hi && ht in undo ==> ht in kept
  }

  /** The raw blocks are the last blocks of the chain, newest first, and each has an undo record. */
  ghost predicate CanUndo(coin: Coin, chain: seq<Block>, undo: map<nat, seq<Utxo>>, raw: seq<Block>) {
    |raw| <= |chain| && forall i :: 0 <= i < |raw| ==> UndoableAt(coin, chain, undo, raw[i], i)
  }

  /** b has the header hash of the block i below the tip, whose undo record is there. */
  ghost predicate UndoableAt(coin: Coin, chain: seq<Block>, undo: map<nat, seq<Utxo>>, b: Block, i: nat) {
    && i < |chain|
    && coin.headerHash(b.header) == coin.headerHash(chain[|chain| - 1 - i].header)
    && |chain| - 1 - i in undo
  }

  lemma NamedAt(coin: Coin, chain: seq<Block>, raw: seq<Block>, i: nat)
    requires Named(coin, chain, raw) && i < |raw| < |chain|
    ensures coin.headerHash(raw[i].header) == coin.headerHash(chain[|chain| - 1 - i].header)
      ==> raw[i] == chain[|chain| - 1 - i]
  {
  }

  lemma CanUndoStep(coin: Coin, chain: seq<Block>, undo: map<nat, seq<Utxo>>, raw: seq<Block>, i: nat)
    requires i < |raw| < |chain| && CanUndo(coin, chain, undo, raw[..i])
    ensures CanUndo(coin, chain, undo, raw[..i + 1]) <==>
      && coin.headerHash(raw[i].header) == coin.headerHash(chain[|chain| - 1 - i].header)
      && |chain| - 1 - i in undo
    ensures !CanUndo(coin, chain, undo, raw[..i + 1]) ==> !CanUndo(coin, chain, undo, raw)
  {
    var a, b := raw[..i], raw[..i + 1];
    assert b[i] == raw[i] && forall j :: 0 <= j < i ==> a[j] == b[j] == raw[j];
    if UndoableAt(coin, chain, undo, raw[i], i) {
      forall j | 0 <= j < |b|
        ensures UndoableAt(coin, chain, undo, b[j], j)
      {
        if j < i {
          assert UndoableAt(coin, chain, undo, a[j], j);
        }
      }
    } else {
      assert !UndoableAt(coin, chain, undo, b[i], i);
    }
  }

  // ---- reorganisations ----

  ghost predicate Records(kept: set<nat>, queued: set<nat>, n: nat, m: nat, lo: int) {
    && (forall ht: nat :: lo <= ht < n ==> ht in kept)
    && (forall ht: nat :: lo <= ht && n <= ht < m ==> ht in queued)
  }

  ghost predicate Kept(kept: set<nat>, lo: int, hi: int) {
    forall ht: nat :: lo <= ht < hi ==> ht in kept
  }

  /** From a height up, the blocks found have the header hashes of the chain. */
  ghost predicate Matches(coin: Coin, chain: seq<Block>, source: seq<Block>, lo: int) {
    && |chain| <= |source|
    && forall ht: nat :: lo <= ht < |chain| ==>
         coin.headerHash(source[ht].header) == coin.headerHash(chain[ht].header)
  }

  lemma RawNamed(coin: Coin, chain: seq<Block>, source: seq<Block>, raw: seq<Block>)
    requires Named(coin, chain, source) && |raw| <= |chain| <= |source|
    requires forall k :: 0 <= k < |raw| ==> raw[k] == source[|chain| - 1 - k]
    ensures Named(coin, chain, raw)
  {
  }

  lemma KeptRecords(undo: map<nat, seq<Utxo>>, kept: set<nat>, ix: Index, lo: int, hi: int)
    requires UndoHolds(undo, kept, ix) && Kept(kept, lo, hi)
    ensures Trusted(undo, kept, lo, hi) && forall ht: nat :: lo <= ht < hi ==> ht in undo
  {
  }

  lemma RawMatches(coin: Coin, chain: seq<Block>, source: seq<Block>, raw: seq<Block>, undo: map<nat, seq<Utxo>>)
    requires |raw| <= |chain| <= |source|
    requires forall k :: 0 <= k < |raw| ==> raw[k] == source[|chain| - 1 - k]
    requires forall ht: nat :: |chain| - |raw| <= ht < |chain| ==> ht in undo
    ensures CanUndo(coin, chain, undo, raw) <==> Matches(coin, chain, source, |chain| - |raw|)
  {
    if CanUndo(coin, chain, undo, raw) {
      forall ht: nat | |chain| - |raw| <= ht < |chain|
        ensures coin.headerHash(source[ht].header) == coin.headerHash(chain[ht].header)
      {
        assert UndoableAt(coin, chain, undo, raw[|chain| - 1 - ht], |chain| - 1 - ht);
      }
    }
    if Matches(coin, chain, source, |chain| - |raw|) {
      forall i | 0 <= i < |raw|
        ensures UndoableAt(coin, chain, undo, raw[i], i)
      {
        assert raw[i] == source[|chain| - 1 - i];
      }
    }
  }

  ghost function ChainHashes(coin: Coin, chain: seq<Block>): (r: seq<Hash>)
    ensures |r| == |chain| && forall i :: 0 <= i < |r| ==> r[i] == coin.headerHash(chain[i].header)
  {
    if chain == [] then [] else ChainHashes(coin, chain[..|chain| - 1]) + [Tip(coin, chain)]
  }

  /** The first height a reorganisation backs up, below 0 if it cannot be done. */
  ghost function ReorgStart(height: int, forced: Option<nat>, f: nat): int {
    if forced.Some? then height - forced.value + 1
    else if height < 1 then height - 1
    else if f > ForkSearch.LowestProbe(height) then f
    else 0
  }

  /** Chunks of 50 blocks. */
  ghost function Chunks(n: int): nat {
    if n <= 0 then 0 else (n + 49) / 50
  }

  /** How many blocks are left when the blocks from `start` to n are backed up in
      chunks, newest first, until one fails: a chunk fails if a block found does
      not match or if it holds the genesis block. */
  ghost function Left(coin: Coin, chain: seq<Block>, source: seq<Block>, n: nat, start: nat): (r: nat)
    requires n <= |chain|
    ensures r <= n
    decreases n
  {
    var k := if n - start < 50 then n - start else 50;
    if 0 < k < n && Matches(coin, chain[..n], source, n - k) then Left(coin, chain, source, n - k, start) else n
  }

  /** How many blocks a reorganisation from `start` leaves; all of them if there is no such block. */
  ghost function ReorgLeft(coin: Coin, chain: seq<Block>, source: seq<Block>, start: int): (r: nat)
    ensures r <= |chain|
  {
    if 0 <= start then Left(coin, chain, source, |chain|, start) else |chain|
  }

  lemma LeftStep(coin: Coin, chain: seq<Block>, source: seq<Block>, n: nat, start: nat, k: nat)
    requires start < n <= |chain| && k == if n - start < 50 then n - start else 50
    ensures Left(coin, chain, source, n, start) ==
      if k < n && Matches(coin, chain[..n], source, n - k) then Left(coin, chain, source, n - k, start) else n
  {
    hide Matches;
  }

  lemma LeftStart(coin: Coin, chain: seq<Block>, source: seq<Block>, start: nat)
    ensures ReorgLeft(coin, chain, source, start) == Left(coin, chain, source, |chain|, start)
  {
    hide Left;
  }

  /** A chunk of 50 blocks, or of what is left, is one of the chunks counted. */
  lemma ChunkOff(n: nat, k: nat)
    requires n > 0 && k == if n < 50 then n else 50
    ensures Chunks(n - k) + 1 <= Chunks(n)
  {
  }

  lemma {:induction false} LeftDone(coin: Coin, chain: seq<Block>, source: seq<Block>, n: nat, start: nat)
    requires 1 <= start <= n <= |chain| && Matches(coin, chain[..n], source, start)
    ensures Left(coin, chain, source, n, start) == start
    decreases n
  {
    hide Matches;
    if start < n {
      var k := if n - start < 50 then n - start else 50;
      MatchesLess(coin, chain[..n], source, start, n - k);
      MatchesJoin(coin, chain[..n], source, start, n - k);
      assert chain[..n][..n - k] == chain[..n - k];
      LeftDone(coin, chain, source, n - k, start);
    }
  }

  /** A reorganisation that succeeds leaves the blocks below its start. */
  lemma ReorgDone(coin: Coin, chain: seq<Block>, source: seq<Block>, start: int)
    requires 1 <= start <= |chain| && Matches(coin, chain, source, start)
    ensures ReorgLeft(coin, chain, source, start) == start
  {
    assert chain[..|chain|] == chain;
    LeftDone(coin, chain, source, |chain|, start);
  }

  /** A mismatch in the second chunk leaves the first one taken off: 50 blocks. */
  lemma FirstChunkLeft(coin: Coin, chain: seq<Block>, source: seq<Block>, start: nat)
    requires |chain| - start > 50 && |chain| <= |source| && Matches(coin, chain, source, |chain| - 50)
    requires coin.headerHash(source[|chain| - 51].header) != coin.headerHash(chain[|chain| - 51].header)
    ensures ReorgLeft(coin, chain, source, start) == |chain| - 50
  {
    var n := |chain|;
    assert chain[..n] == chain;
    LeftStep(coin, chain, source, n, start, 50);
    var k := if n - 50 - start < 50 then n - 50 - start else 50;
    LeftStep(coin, chain, source, n - 50, start, k);
    assert chain[..n - 50][n - 51] == chain[n - 51];
  }

  lemma FlushedKept(kept: set<nat>, queued: set<nat>, n: nat, m: nat, lo: int, kept': set<nat>)
    requires Records(kept, queued, n, m, lo) && (kept' == kept + queued || (kept' == kept && n == m))
    ensures Kept(kept', lo, m)
  {
  }

  lemma NamedPrefix(coin: Coin, chain: seq<Block>, source: seq<Block>, k: nat)
    requires Named(coin, chain, source) && k <= |chain|
    ensures Named(coin, chain[..k], source)
  {
  }

  lemma MatchesNone(coin: Coin, chain: seq<Block>, source: seq<Block>)
    requires |chain| <= |source|
    ensures Matches(coin, chain, source, |chain|)
  {
  }

  lemma MatchesJoin(coin: Coin, chain: seq<Block>, source: seq<Block>, lo: int, mid: nat)
    requires lo <= mid <= |chain| && Matches(coin, chain, source, mid)
    ensures Matches(coin, chain, source, lo) <==> Matches(coin, chain[..mid], source, lo)
  {
    if Matches(coin, chain[..mid], source, lo) {
      forall ht: nat | lo <= ht < |chain|
        ensures coin.headerHash(source[ht].header) == coin.headerHash(chain[ht].header)
      {
        if ht < mid {
          assert chain[..mid][ht] == chain[ht];
        }
      }
    }
  }

  lemma MatchesLess(coin: Coin, chain: seq<Block>, source: seq<Block>, lo: int, mid: int)
    requires lo <= mid
    ensures Matches(coin, chain, source, lo) ==> Matches(coin, chain, source, mid)
  {
  }

  lemma KeptPart(kept: set<nat>, lo: int, m: nat, k: nat)
    requires Kept(kept, lo, m) && lo <= m - k
    ensures Kept(kept, m - k, m) && Kept(KeptBelow(kept, m - k), lo, m - k)
  {
  }

  lemma RecordsFlushed(kept: set<nat>, queued: set<nat>, n: nat, m: nat, lo: int,
                       kept': set<nat>, queued': set<nat>, n': nat)
    requires Records(kept, queued, n, m, lo) && n <= m
    requires if n' == n then kept' == kept && (n == m || queued' == queued) else n' == m && kept' == kept + queued
    ensures Records(kept', queued', n', m, lo)
  {
  }

  lemma {:induction false} HeightsFromHas(lo: nat, hi: nat, min: int, ht: nat)
    ensures ht in HeightsFrom(lo, hi, min) <==> lo <= ht < hi && ht >= min
  {
    if lo < hi {
      HeightsFromHas(lo, hi - 1, min, ht);
    }
  }

  lemma RecordsAdvanced(kept: set<nat>, queued: set<nat>, n: nat, m: nat, m': nat, min: int, lo: int)
    requires Records(kept, queued, n, m, lo) && min <= lo
    ensures Records(kept, queued + HeightsFrom(m, m', min), n, m', lo)
  {
    forall ht: nat | lo <= ht && n <= ht < m'
      ensures ht in queued + HeightsFrom(m, m', min)
    {
      HeightsFromHas(m, m', min, ht);
    }
  }

  // ---- linking a batch of blocks to the tip ----

  /** What became of a batch of blocks. */
  datatype Outcome =
    | Nothing
    | Advanced(notified: Option<(set<HashX>, int)>)
    | Reorganised(ok: bool)
    | ResetPrefetcher(height: int)

  datatype Kind = Idle | Advance | Reorg | Reset

  /** Each block's previous hash is the hash of the block before it, the first one's the tip. */
  ghost predicate Linked(coin: Coin, tip: Hash, blocks: seq<Block>) {
    forall i :: 0 <= i < |blocks| ==> coin.prevHash(blocks[i].header) == HashBefore(coin, tip, blocks, i)
  }

  ghost function HashBefore(coin: Coin, tip: Hash, blocks: seq<Block>, i: nat): Hash
    requires i < |blocks|
  {
    if i == 0 then tip else coin.headerHash(blocks[i - 1].header)
  }

  ghost function KindOf(coin: Coin, tip: Hash, blocks: seq<Block>): Kind {
    if blocks == [] then Idle
    else if Linked(coin, tip, blocks) then Advance
    else if coin.prevHash(blocks[0].header) != tip then Reorg
    else Reset
  }

  lemma KindIs(coin: Coin, tip: Hash, blocks: seq<Block>)
    ensures KindOf(coin, tip, blocks) == Advance <==>
      && blocks != [] && coin.prevHash(blocks[0].header) == tip
      && forall i :: 0 < i < |blocks| ==> coin.prevHash(blocks[i].header) == coin.headerHash(blocks[i - 1].header)
    ensures KindOf(coin, tip, blocks) == Reorg <==> blocks != [] && coin.prevHash(blocks[0].header) != tip
  {
    if blocks != [] && Linked(coin, tip, blocks) {
      assert coin.prevHash(blocks[0].header) == HashBefore(coin, tip, blocks, 0);
      forall i | 0 < i < |blocks|
        ensures coin.prevHash(blocks[i].header) == coin.headerHash(blocks[i - 1].header)
      {
        assert coin.prevHash(blocks[i].header) == HashBefore(coin, tip, blocks, i);
      }
    }
  }

  function PrevHashes(coin: Coin, headers: seq<Header>): (r: seq<Hash>)
    ensures |r| == |headers| && forall i :: 0 <= i < |r| ==> r[i] == coin.prevHash(headers[i])
  {
    if headers == [] then [] else [coin.prevHash(headers[0])] + PrevHashes(coin, headers[1..])
  }

  function HeaderHashes(coin: Coin, headers: seq<Header>): (r: seq<Hash>)
    ensures |r| == |headers| && forall i :: 0 <= i < |r| ==> r[i] == coin.headerHash(headers[i])
  {
    if headers == [] then [] else [coin.headerHash(headers[0])] + HeaderHashes(coin, headers[1..])
  }

  /** Comparing the two lists of hashes decides whether the batch links up. */
  lemma LinkedLists(coin: Coin, tip: Hash, blocks: seq<Block>)
    requires blocks != []
    ensures |HeadersOf(blocks)| == |blocks|
    ensures PrevHashes(coin, HeadersOf(blocks))[0] == coin.prevHash(blocks[0].header)
    ensures Linked(coin, tip, blocks) <==>
      PrevHashes(coin, HeadersOf(blocks)) == [tip] + HeaderHashes(coin, HeadersOf(blocks)[..|blocks| - 1])
  {
    HeadersOfAt(blocks);
    var hs := HeadersOf(blocks);
    var a, b := PrevHashes(coin, hs), [tip] + HeaderHashes(coin, hs[..|hs| - 1]);
    forall i | 0 <= i < |blocks|
      ensures a[i] == coin.prevHash(blocks[i].header) && b[i] == HashBefore(coin, tip, blocks, i)
    {
      assert hs[i] == blocks[i].header;
      if i > 0 {
        assert b[i] == coin.headerHash(hs[..|hs| - 1][i - 1]);
      }
    }
    ListsAgree(coin, tip, blocks, a, b);
  }

  lemma ListsAgree(coin: Coin, tip: Hash, blocks: seq<Block>, a: seq<Hash>, b: seq<Hash>)
    requires |a| == |b| == |blocks|
    requires forall i :: 0 <= i < |blocks| ==>
      a[i] == coin.prevHash(blocks[i].header) && b[i] == HashBefore(coin, tip, blocks, i)
    ensures Linked(coin, tip, blocks) <==> a == b
  {
    hide HashBefore;
    if a == b {
      forall i | 0 <= i < |blocks|
        ensures coin.prevHash(blocks[i].header) == HashBefore(coin, tip, blocks, i)
      {
        assert a[i] == b[i];
      }
    }
  }

  /** The transactions of each block are valid on top of the blocks before it. */
  ghost predicate BodiesValid(coin: Coin, chain: seq<Block>, blocks: seq<Block>) {
    forall i :: 0 <= i < |blocks| ==> BodyValid(coin, chain + blocks[..i], blocks[i])
  }

  ghost predicate BodyValid(coin: Coin, chain: seq<Block>, b: Block) {
    var ix := Replay(coin, chain);
    ValidBody(coin, ix.utxos, BlockEffects(coin, ix, |chain|, b))
  }

  /** Blocks that link up and whose transactions are valid make a valid chain. */
  lemma {:induction false} LinkedValid(coin: Coin, chain: seq<Block>, blocks: seq<Block>)
    requires ValidChain(coin, chain) && Linked(coin, Tip(coin, chain), blocks) && BodiesValid(coin, chain, blocks)
    ensures ValidChain(coin, chain + blocks)
  {
    hide Replay, ValidBody, BlockEffects, ValidChain, ValidNext, Linked, BodyValid, Tip;
    if blocks == [] {
      assert chain + blocks == chain;
    } else {
      var k := |blocks| - 1;
      var pre := blocks[..k];
      forall i | 0 <= i < k
        ensures BodyValid(coin, chain + pre[..i], pre[i])
      {
        assert pre[..i] == blocks[..i];
      }
      LinkedPrefix(coin, Tip(coin, chain), blocks, k);
      LinkedValid(coin, chain, pre);
      LinkedLast(coin, chain, blocks);
      NextIsValid(coin, chain + pre, blocks[k]);
      ValidLast(coin, chain + pre, blocks[k]);
      OneMore(chain, blocks, k);
      assert blocks[..k + 1] == blocks;
    }
  }

  lemma NextIsValid(coin: Coin, chain: seq<Block>, b: Block)
    requires BodyValid(coin, chain, b) && coin.prevHash(b.header) == Tip(coin, chain)
    ensures ValidNext(coin, chain, b)
  {
    hide Replay, ValidBody, BlockEffects, Tip;
  }

  lemma LinkedPrefix(coin: Coin, tip: Hash, blocks: seq<Block>, k: nat)
    requires Linked(coin, tip, blocks) && k <= |blocks|
    ensures Linked(coin, tip, blocks[..k])
  {
    forall i | 0 <= i < k
      ensures coin.prevHash(blocks[..k][i].header) == HashBefore(coin, tip, blocks[..k], i)
    {
      assert HashBefore(coin, tip, blocks[..k], i) == HashBefore(coin, tip, blocks, i);
    }
  }

  lemma LinkedLast(coin: Coin, chain: seq<Block>, blocks: seq<Block>)
    requires blocks != [] && Linked(coin, Tip(coin, chain), blocks)
    ensures coin.prevHash(blocks[|blocks| - 1].header) == Tip(coin, chain + blocks[..|blocks| - 1])
  {
    var k := |blocks| - 1;
    assert HashBefore(coin, Tip(coin, chain), blocks, k) == coin.prevHash(blocks[k].header);
    assert k > 0 ==> (chain + blocks[..k])[|chain| + k - 1] == blocks[k - 1];
    assert k == 0 ==> chain + blocks[..k] == chain;
  }

  /** The blocks below a height. */
  ghost function Before(chain: seq<Block>, start: int): seq<Block> {
    if 0 <= start <= |chain| then chain[..start] else chain
  }
}
