/** What a replayed index says, in terms of the blocks alone. */
module ChainMeaning {
  import opened Types
  import opened Ledger
  import opened LedgerProofs

  /** Transaction t of block h. */
  datatype Place = Place(h: nat, t: nat)

  ghost predicate In(chain: seq<Block>, p: Place) {
    p.h < |chain| && p.t < |chain[p.h].txs|
  }

  ghost function TxAt(chain: seq<Block>, p: Place): Tx
    requires In(chain, p)
  {
    chain[p.h].txs[p.t]
  }

  /** Transactions in the first h blocks. */
  ghost function TxsBelow(chain: seq<Block>, h: nat): nat
    requires h <= |chain|
  {
    if h == 0 then 0 else TxsBelow(chain, h - 1) + |chain[h - 1].txs|
  }

  /** Transactions are numbered from 0 in the order of the chain. */
  ghost function NumberAt(chain: seq<Block>, p: Place): nat
    requires In(chain, p)
  {
    TxsBelow(chain, p.h) + p.t
  }

  /** OP_RETURN marks an output that is never spent; from the genesis activation
      on, only when OP_FALSE stands before it. */
  ghost predicate Spendable(coin: Coin, h: nat, s: Script) {
    !([0x00, 0x6a] <= s) && (h >= coin.genesisActivation || !([0x6a] <= s))
  }

  /** The input of a coinbase transaction: 32 zero bytes and the largest index. */
  ghost predicate Coinbase(txin: TxInput) {
    txin.prevIdx == 0xffff_ffff && forall j :: 0 <= j < 32 ==> txin.prevHash[j] == 0
  }

  /** The transaction has a spendable output at the outpoint. */
  ghost predicate Creates(coin: Coin, chain: seq<Block>, p: Place, o: Outpoint) {
    && In(chain, p)
    && TxAt(chain, p).txid == o.hash && o.idx < |TxAt(chain, p).outputs|
    && Spendable(coin, p.h, TxAt(chain, p).outputs[o.idx].script)
  }

  /** An input of the transaction names the outpoint. */
  ghost predicate Spends(chain: seq<Block>, q: Place, o: Outpoint) {
    In(chain, q) && SpentBy(TxAt(chain, q).inputs, o)
  }

  ghost predicate SpentBy(ins: seq<TxInput>, o: Outpoint) {
    exists i :: 0 <= i < |ins| && Names(ins[i], o)
  }

  ghost predicate Names(txin: TxInput, o: Outpoint) {
    txin.prevHash == o.hash && txin.prevIdx == o.idx && !Coinbase(txin)
  }

  /** An input at q can spend an output made at p: any of its own block for an
      outputs-first coin, else only those of earlier transactions. */
  ghost predicate Before(coin: Coin, p: Place, q: Place) {
    p.h < q.h || (p.h == q.h && (coin.ltor || p.t < q.t))
  }

  /** Made at p and not spent since. */
  ghost predicate Unspent(coin: Coin, chain: seq<Block>, p: Place, o: Outpoint) {
    && Creates(coin, chain, p, o)
    && forall q :: Spends(chain, q, o) ==> !Before(coin, p, q)
  }

  /** What the index holds for an output made at p. */
  ghost predicate HeldAs(coin: Coin, chain: seq<Block>, p: Place, o: Outpoint, v: Utxo) {
    && In(chain, p) && o.idx < |TxAt(chain, p).outputs|
    && var out := TxAt(chain, p).outputs[o.idx];
      v.hashX == coin.hashX(out.script) && v.value == out.value && v.txNum == NumberAt(chain, p)
  }

  // ---- the outpoint map ----

  /** The outpoint map holds exactly the outputs made and not spent since, each
      with its own address and value and the number of its transaction. */
  lemma {:induction false} UtxosAre(coin: Coin, chain: seq<Block>, o: Outpoint)
    requires ValidChain(coin, chain)
    ensures o in Replay(coin, chain).utxos <==> exists p :: Unspent(coin, chain, p, o)
    ensures forall p :: Unspent(coin, chain, p, o) ==> HeldAs(coin, chain, p, o, Get(Replay(coin, chain).utxos, o))
  {
    hide Unspent, HeldAs, ValidChain, Replay;
    if chain == [] {
      NothingMade(coin, o);
    } else {
      var k := |chain| - 1;
      ChainStep(coin, chain);
      UtxosAre(coin, chain[..k], o);
      forall p | Unspent(coin, chain, p, o)
        ensures o in Replay(coin, chain).utxos && HeldAs(coin, chain, p, o, Get(Replay(coin, chain).utxos, o))
      {
        StillHeld(coin, chain, p, o);
      }
      if o in Replay(coin, chain).utxos {
        var p := WhereMade(coin, chain, o);
      }
    }
  }

  lemma NothingMade(coin: Coin, o: Outpoint)
    ensures o !in Replay(coin, []).utxos && forall p :: !Unspent(coin, [], p, o)
  {
  }

  lemma ChainStep(coin: Coin, chain: seq<Block>)
    requires chain != [] && ValidChain(coin, chain)
    ensures var k := |chain| - 1;
      var ix := Replay(coin, chain[..k]);
      && ValidChain(coin, chain[..k])
      && ValidBody(coin, ix.utxos, BlockEffects(coin, ix, k, chain[k]))
      && Replay(coin, chain) == ApplyBlock(coin, ix, k, chain[k])
  {
  }

  /** An output made and not spent since is in the map. */
  lemma StillHeld(coin: Coin, chain: seq<Block>, p: Place, o: Outpoint)
    requires chain != [] && ValidChain(coin, chain) && Unspent(coin, chain, p, o)
    requires var pre := chain[..|chain| - 1];
      Unspent(coin, pre, p, o) ==>
        o in Replay(coin, pre).utxos && HeldAs(coin, pre, p, o, Get(Replay(coin, pre).utxos, o))
    ensures o in Replay(coin, chain).utxos && HeldAs(coin, chain, p, o, Get(Replay(coin, chain).utxos, o))
  {
    hide ValidChain, Replay, ValidBody, ApplyBody, Effects, HeldAs, Creates, Spends, SpentIn, Unspent;
    var k := |chain| - 1;
    var ix := Replay(coin, chain[..k]);
    var fx := BlockEffects(coin, ix, k, chain[k]);
    ChainStep(coin, chain);
    BodyHas(coin, ix.utxos, fx, o);
    SpentHere(coin, chain, |ix.txids|, o);
    UnspentGrows(coin, chain, p, o);
    IdsCount(coin, chain[..k]);
    TxsBelowPrefix(chain, k, k);
    if p.h < k {
      HeldGrows(coin, chain, p, o, Get(ix.utxos, o));
    } else {
      EffectMeans(coin, chain, k, |ix.txids|, p.t, o);
    }
  }

  /** Something in the map was made somewhere and not spent since. */
  lemma WhereMade(coin: Coin, chain: seq<Block>, o: Outpoint) returns (p: Place)
    requires chain != [] && ValidChain(coin, chain) && o in Replay(coin, chain).utxos
    requires var pre := chain[..|chain| - 1];
      o in Replay(coin, pre).utxos ==> exists p :: Unspent(coin, pre, p, o)
    ensures Unspent(coin, chain, p, o)
  {
    hide ValidChain, Replay, ValidBody, ApplyBody, Effects, Creates, Spends, SpentIn, Unspent;
    var k := |chain| - 1;
    var pre, ix := chain[..k], Replay(coin, chain[..k]);
    var fx := BlockEffects(coin, ix, k, chain[k]);
    ChainStep(coin, chain);
    BodyHas(coin, ix.utxos, fx, o);
    SpentHere(coin, chain, |ix.txids|, o);
    if o in ix.utxos && !SpentIn(fx, o, 0) {
      p :| Unspent(coin, pre, p, o);
    } else {
      var t: nat :| t < |fx| && o in fx[t].made && !SpentIn(fx, o, if coin.ltor then 0 else t + 1);
      EffectMeans(coin, chain, k, |ix.txids|, t, o);
      p := Place(k, t);
    }
    UnspentGrows(coin, chain, p, o);
  }

  // ---- histories ----

  /** The transaction pays to the address. */
  ghost predicate PaysAddress(coin: Coin, chain: seq<Block>, q: Place, x: HashX) {
    && In(chain, q)
    && exists i :: 0 <= i < |TxAt(chain, q).outputs| && PaysTo(coin, q.h, TxAt(chain, q).outputs[i].script, x)
  }

  ghost predicate PaysTo(coin: Coin, h: nat, s: Script, x: HashX) {
    Spendable(coin, h, s) && coin.hashX(s) == x
  }

  /** The output that an input of q spends was made at p: no spend comes between them. */
  ghost predicate Draws(coin: Coin, chain: seq<Block>, q: Place, p: Place, o: Outpoint) {
    && Spends(chain, q, o) && Creates(coin, chain, p, o) && Before(coin, p, q)
    && forall r :: Spends(chain, r, o) && Before(coin, p, r) ==> !Ahead(r, q)
  }

  ghost predicate Ahead(r: Place, q: Place) {
    r.h < q.h || (r.h == q.h && r.t < q.t)
  }

  /** The transaction spends from the address. */
  ghost predicate SpendsFrom(coin: Coin, chain: seq<Block>, q: Place, x: HashX) {
    exists p, o :: Draws(coin, chain, q, p, o) && coin.hashX(ScriptAt(chain, p, o)) == x
  }

  ghost function ScriptAt(chain: seq<Block>, p: Place, o: Outpoint): Script {
    if In(chain, p) && o.idx < |TxAt(chain, p).outputs| then TxAt(chain, p).outputs[o.idx].script else []
  }

  /** A transaction is in the history of exactly the addresses it pays to and spends from. */
  lemma HistoryIs(coin: Coin, chain: seq<Block>, q: Place, x: HashX)
    requires ValidChain(coin, chain) && In(chain, q)
    ensures NumberAt(chain, q) < |Replay(coin, chain).touches|
    ensures x in Replay(coin, chain).touches[NumberAt(chain, q)] <==>
      PaysAddress(coin, chain, q, x) || SpendsFrom(coin, chain, q, x)
  {
    hide ValidChain, Replay, PaysAddress, SpendsFrom;
    var upTo := chain[..q.h + 1];
    ValidPrefix(coin, chain, q.h + 1);
    ReplayPrefix(coin, chain, q.h + 1);
    TxsBelowPrefix(chain, q.h + 1, q.h);
    HistoryHere(coin, upTo, q, x);
    SameUpTo(coin, chain, q, x);
  }

  /** Every input but that of a coinbase spends an output made before. */
  lemma InputsDraw(coin: Coin, chain: seq<Block>, q: Place, o: Outpoint)
    requires ValidChain(coin, chain) && Spends(chain, q, o)
    ensures exists p :: Draws(coin, chain, q, p, o)
  {
    hide ValidChain, Draws;
    ValidPrefix(coin, chain, q.h + 1);
    DrawnHere(coin, chain[..q.h + 1], q, o);
    var p :| Draws(coin, chain[..q.h + 1], q, p, o);
    DrawsUpTo(coin, chain, q, p, o);
  }

  /** Only the blocks up to q's matter. */
  lemma DrawsUpTo(coin: Coin, chain: seq<Block>, q: Place, p: Place, o: Outpoint)
    requires q.h < |chain|
    ensures Draws(coin, chain[..q.h + 1], q, p, o) <==> Draws(coin, chain, q, p, o)
    ensures p.h <= q.h ==> ScriptAt(chain[..q.h + 1], p, o) == ScriptAt(chain, p, o)
  {
    hide SpentBy, Spendable;
    var pre := chain[..q.h + 1];
    assert forall r: Place :: r.h <= q.h ==> (Spends(pre, r, o) <==> Spends(chain, r, o));
    assert forall r: Place :: Spends(pre, r, o) ==> r.h <= q.h;
    assert p.h <= q.h ==> (Creates(coin, pre, p, o) <==> Creates(coin, chain, p, o));
  }

  lemma SameUpTo(coin: Coin, chain: seq<Block>, q: Place, x: HashX)
    requires In(chain, q)
    ensures PaysAddress(coin, chain[..q.h + 1], q, x) <==> PaysAddress(coin, chain, q, x)
    ensures SpendsFrom(coin, chain[..q.h + 1], q, x) <==> SpendsFrom(coin, chain, q, x)
  {
    hide Draws, PaysTo;
    var upTo := chain[..q.h + 1];
    assert TxAt(upTo, q) == TxAt(chain, q);
    forall p, o | Draws(coin, upTo, q, p, o) || Draws(coin, chain, q, p, o)
      ensures Draws(coin, upTo, q, p, o) && Draws(coin, chain, q, p, o)
      ensures ScriptAt(upTo, p, o) == ScriptAt(chain, p, o)
    {
      DrawsUpTo(coin, chain, q, p, o);
      DrawsBefore(coin, chain, q, p, o);
    }
  }

  lemma DrawsBefore(coin: Coin, chain: seq<Block>, q: Place, p: Place, o: Outpoint)
    ensures Draws(coin, chain, q, p, o) ==> p.h <= q.h && Spends(chain, q, o)
  {
  }

  /** The map in which the inputs of effect t are looked up. */
  ghost function SourceOf(coin: Coin, m: UtxoMap, fx: seq<Effect>, t: nat): UtxoMap
    requires t <= |fx|
  {
    if coin.ltor then m + AllMade(fx) else Apply(m, fx[..t])
  }

  /** The map in which transaction q of the last block looks its inputs up. */
  ghost function SourceAt(coin: Coin, chain: seq<Block>, q: Place): UtxoMap
    requires In(chain, q) && q.h == |chain| - 1
  {
    var ix := Replay(coin, chain[..q.h]);
    EffectsAt(coin, q.h, chain[q.h].txs, |ix.txids|, 0);
    SourceOf(coin, ix.utxos, BlockEffects(coin, ix, q.h, chain[q.h]), q.t)
  }

  /** Where a spent output was made, and what is found for it. */
  lemma DrawnHere(coin: Coin, chain: seq<Block>, q: Place, o: Outpoint)
    requires ValidChain(coin, chain) && Spends(chain, q, o) && q.h == |chain| - 1
    ensures exists p :: Draws(coin, chain, q, p, o)
    ensures forall p :: Draws(coin, chain, q, p, o) ==> HeldAs(coin, chain, p, o, Get(SourceAt(coin, chain, q), o))
  {
    hide ValidChain, Replay, ValidBody, Effects, Creates, Spends, SpentIn, Unspent, Draws, SourceOf, HeldAs;
    var k := q.h;
    var ix := Replay(coin, chain[..k]);
    var fx := BlockEffects(coin, ix, k, chain[k]);
    SpendsIn(chain, o);
    ChainStep(coin, chain);
    UtxosAre(coin, chain[..k], o);
    SpentUpTo(coin, chain, |ix.txids|, o, 0, q.t);
    EffectMeans(coin, chain, k, |ix.txids|, q.t, o);
    SourceHas(coin, ix.utxos, fx, q.t, o);
    forall p | Draws(coin, chain, q, p, o)
      ensures HeldAs(coin, chain, p, o, Get(SourceAt(coin, chain, q), o))
    {
      DrawnHeld(coin, chain, q, p, o);
    }
    if o in ix.utxos && !SpentIn(fx[..q.t], o, 0) {
      var p :| Unspent(coin, chain[..k], p, o);
      DrawsHere(coin, chain, q, p, o);
    } else {
      var s: nat :| s < |fx| && (coin.ltor || s < q.t) && o in fx[s].made
        && !SpentIn(fx[..q.t], o, if coin.ltor then 0 else s + 1);
      EffectMeans(coin, chain, k, |ix.txids|, s, o);
      SpentUpTo(coin, chain, |ix.txids|, o, if coin.ltor then 0 else s + 1, q.t);
      DrawsHere(coin, chain, q, Place(k, s), o);
    }
  }

  lemma DrawnHeld(coin: Coin, chain: seq<Block>, q: Place, p: Place, o: Outpoint)
    requires ValidChain(coin, chain) && Draws(coin, chain, q, p, o) && q.h == |chain| - 1 && In(chain, q)
    ensures HeldAs(coin, chain, p, o, Get(SourceAt(coin, chain, q), o))
  {
    hide ValidChain, Replay, ValidBody, Effects, Creates, Spends, SpentIn, Unspent, Draws, SourceOf, HeldAs;
    var k := q.h;
    var ix := Replay(coin, chain[..k]);
    var fx := BlockEffects(coin, ix, k, chain[k]);
    DrawsBefore(coin, chain, q, p, o);
    DrawsHere(coin, chain, q, p, o);
    ChainStep(coin, chain);
    IdsCount(coin, chain[..k]);
    TxsBelowPrefix(chain, k, k);
    EffectMeans(coin, chain, k, |ix.txids|, q.t, o);
    SourceHas(coin, ix.utxos, fx, q.t, o);
    if p.h < k {
      UtxosAre(coin, chain[..k], o);
      UnspentGrows(coin, chain, p, o);
      HeldGrows(coin, chain, p, o, Get(ix.utxos, o));
      SpentUpTo(coin, chain, |ix.txids|, o, 0, q.t);
    } else {
      EffectMeans(coin, chain, k, |ix.txids|, p.t, o);
      SpentUpTo(coin, chain, |ix.txids|, o, if coin.ltor then 0 else p.t + 1, q.t);
    }
  }

  /** Spending in the last block: the output was unspent before the block, or made in it. */
  lemma DrawsHere(coin: Coin, chain: seq<Block>, q: Place, p: Place, o: Outpoint)
    requires Spends(chain, q, o) && q.h == |chain| - 1
    ensures var k, pre := |chain| - 1, chain[..|chain| - 1];
      && (Draws(coin, chain, q, p, o) ==> p.h <= k && p.t < |chain[p.h].txs|)
      && (p.h < k ==> (Draws(coin, chain, q, p, o) <==>
            Unspent(coin, pre, p, o) && !exists r: Place :: r.h == k && 0 <= r.t < q.t && Spends(chain, r, o)))
      && (p.h == k ==> (Draws(coin, chain, q, p, o) <==>
            && Creates(coin, chain, p, o) && (coin.ltor || p.t < q.t)
            && !exists r: Place ::
                  r.h == k && (if coin.ltor then 0 else p.t + 1) <= r.t < q.t && Spends(chain, r, o)))
      && (Unspent(coin, pre, p, o) ==> p.h < k)
  {
    hide SpentBy, Spendable;
    var k, pre := |chain| - 1, chain[..|chain| - 1];
    assert forall r: Place :: r.h < k ==> (Spends(pre, r, o) <==> Spends(chain, r, o));
    assert forall r: Place :: Spends(pre, r, o) ==> r.h < k;
    assert p.h < k ==> (Creates(coin, pre, p, o) <==> Creates(coin, chain, p, o));
  }

  /** A transaction of the last block. */
  lemma HistoryHere(coin: Coin, chain: seq<Block>, q: Place, x: HashX)
    requires ValidChain(coin, chain) && In(chain, q) && q.h == |chain| - 1
    ensures NumberAt(chain, q) < |Replay(coin, chain).touches|
    ensures x in Replay(coin, chain).touches[NumberAt(chain, q)] <==>
      PaysAddress(coin, chain, q, x) || SpendsFrom(coin, chain, q, x)
  {
    hide ValidChain, Replay, ValidBody, Effects, PaysAddress, SpendsFrom, SourceOf, Touch, TouchBody;
    var k := q.h;
    var ix := Replay(coin, chain[..k]);
    var fx := BlockEffects(coin, ix, k, chain[k]);
    ChainStep(coin, chain);
    IdsCount(coin, chain[..k]);
    TxsBelowPrefix(chain, k, k);
    ReplayCoherent(coin, chain[..k]);
    EffectsAt(coin, k, chain[k].txs, |ix.txids|, q.t);
    TouchBodyAt(coin, ix.utxos, fx, q.t);
    TouchMeans(coin, chain, q, x);
  }

  lemma TouchMeans(coin: Coin, chain: seq<Block>, q: Place, x: HashX)
    requires ValidChain(coin, chain) && In(chain, q) && q.h == |chain| - 1
    ensures var ix := Replay(coin, chain[..q.h]);
      var fx := BlockEffects(coin, ix, q.h, chain[q.h]);
      && q.t < |fx|
      && (x in Touch(SourceAt(coin, chain, q), fx[q.t]) <==>
            PaysAddress(coin, chain, q, x) || SpendsFrom(coin, chain, q, x))
  {
    hide ValidChain, Replay, Effects, SourceOf, Spends, Draws, Creates, HeldAs, PaysTo;
    var ix := Replay(coin, chain[..q.h]);
    var fx := BlockEffects(coin, ix, q.h, chain[q.h]);
    EffectsAt(coin, q.h, chain[q.h].txs, |ix.txids|, q.t);
    var e, m := fx[q.t], SourceAt(coin, chain, q);
    IdsCount(coin, chain[..q.h]);
    TxsBelowPrefix(chain, q.h, q.h);
    forall o
      ensures o in e.made ==> Creates(coin, chain, q, o) && e.made[o].hashX == coin.hashX(ScriptAt(chain, q, o))
      ensures o in e.spent ==> exists p ::
        Draws(coin, chain, q, p, o) && Get(m, o).hashX == coin.hashX(ScriptAt(chain, p, o))
    {
      EffectMeans(coin, chain, q.h, |ix.txids|, q.t, o);
      if o in e.made {
        HeldScript(coin, chain, q, o, e.made[o]);
      }
      if o in e.spent {
        DrawnHere(coin, chain, q, o);
        var p :| Draws(coin, chain, q, p, o);
        HeldScript(coin, chain, p, o, Get(m, o));
      }
    }
    if x in Touch(m, e) {
      if o :| o in e.made && e.made[o].hashX == x {
        PaysCreated(coin, chain, q, o);
      }
    }
    if PaysAddress(coin, chain, q, x) {
      var i :| 0 <= i < |TxAt(chain, q).outputs| && PaysTo(coin, q.h, TxAt(chain, q).outputs[i].script, x);
      var o := Outpoint(TxAt(chain, q).txid, i);
      PaysCreates(coin, chain, q, i, x);
      EffectMeans(coin, chain, q.h, |ix.txids|, q.t, o);
      assert o in e.made;
    }
    if SpendsFrom(coin, chain, q, x) {
      var p, o :| Draws(coin, chain, q, p, o) && coin.hashX(ScriptAt(chain, p, o)) == x;
      DrawsBefore(coin, chain, q, p, o);
      EffectMeans(coin, chain, q.h, |ix.txids|, q.t, o);
      DrawnHere(coin, chain, q, o);
      HeldScript(coin, chain, p, o, Get(m, o));
      assert o in e.spent;
    }
  }

  lemma HeldScript(coin: Coin, chain: seq<Block>, p: Place, o: Outpoint, v: Utxo)
    requires HeldAs(coin, chain, p, o, v)
    ensures v.hashX == coin.hashX(ScriptAt(chain, p, o))
  {
  }

  lemma PaysCreated(coin: Coin, chain: seq<Block>, q: Place, o: Outpoint)
    requires Creates(coin, chain, q, o)
    ensures PaysAddress(coin, chain, q, coin.hashX(ScriptAt(chain, q, o)))
  {
    hide Spendable;
  }

  lemma PaysCreates(coin: Coin, chain: seq<Block>, q: Place, i: nat, x: HashX)
    requires In(chain, q) && i < |TxAt(chain, q).outputs| && PaysTo(coin, q.h, TxAt(chain, q).outputs[i].script, x)
    ensures var o := Outpoint(TxAt(chain, q).txid, i);
      Creates(coin, chain, q, o) && coin.hashX(ScriptAt(chain, q, o)) == x
  {
    hide Spendable;
  }

  // ---- which chains are valid ----

  /** No two inputs name the same outpoint. */
  ghost predicate NamedOnce(ins: seq<TxInput>) {
    forall i, j, o :: 0 <= i < j < |ins| && Names(ins[i], o) ==> !Names(ins[j], o)
  }

  /** The header names the one before it, the first one 32 zero bytes. */
  ghost predicate Follows(coin: Coin, chain: seq<Block>, header: Header) {
    if chain != [] then coin.prevHash(header) == coin.headerHash(chain[|chain| - 1].header)
    else forall j :: 0 <= j < 32 ==> coin.prevHash(header)[j] == 0
  }

  /** The outpoint is made somewhere in the chain and not spent since. */
  ghost predicate IsUnspent(coin: Coin, chain: seq<Block>, o: Outpoint) {
    exists p :: Unspent(coin, chain, p, o)
  }

  /** An empty block is valid on a valid chain if and only if its header follows. */
  lemma EmptyBlockValid(coin: Coin, chain: seq<Block>, header: Header)
    ensures ValidChain(coin, chain + [Block(header, [])]) <==> ValidChain(coin, chain) && Follows(coin, chain, header)
  {
    hide Replay, ValidChain, Follows, Tip;
    ReplayStep(coin, chain, Block(header, []));
    FollowsIs(coin, chain, header);
  }

  lemma FollowsIs(coin: Coin, chain: seq<Block>, header: Header)
    ensures Follows(coin, chain, header) <==> coin.prevHash(header) == Tip(coin, chain)
  {
    if chain == [] && Follows(coin, chain, header) {
      assert coin.prevHash(header) == ZERO;
    }
  }

  /** In block order, one more transaction is valid if and only if its inputs name
      different unspent outputs and it makes nothing that is unspent. */
  lemma TxValid(coin: Coin, chain: seq<Block>, b: Block, tx: Tx)
    requires !coin.ltor && ValidChain(coin, chain + [b])
    ensures var before, after := chain + [b], chain + [Block(b.header, b.txs + [tx])];
      ValidChain(coin, after) <==>
        && NamedOnce(tx.inputs)
        && (forall o :: SpentBy(tx.inputs, o) ==> IsUnspent(coin, before, o))
        && (forall o :: Creates(coin, after, Place(|chain|, |b.txs|), o) ==> !IsUnspent(coin, before, o))
  {
    hide Replay, ValidChain, Creates, SpentBy, NamedOnce, IsUnspent, Effects, Apply, ValidInOrder;
    var k, t := |chain|, |b.txs|;
    var ix, after := Replay(coin, chain), chain + [Block(b.header, b.txs + [tx])];
    var txs := b.txs + [tx];
    var fx := Effects(coin, k, txs, |ix.txids|);
    ReplayStep(coin, chain, b);
    ReplayStep(coin, chain, Block(b.header, txs));
    EffectsAt(coin, k, txs, |ix.txids|, t);
    assert txs[..t] == b.txs;
    LastValid(ix.utxos, fx);
    var m := Replay(coin, chain + [b]).utxos;
    forall o
      ensures o in fx[t].spent <==> SpentBy(tx.inputs, o)
      ensures o in fx[t].made <==> Creates(coin, after, Place(k, t), o)
      ensures o in m <==> IsUnspent(coin, chain + [b], o)
    {
      EffectMeans(coin, after, k, |ix.txids|, t, o);
      UnspentHeld(coin, chain + [b], o);
    }
    NamedOnceIs(tx.inputs);
    EffectValidIs(m, fx[t]);
  }

  /** No outpoint is named twice in the last block. */
  ghost predicate BlockNamesOnce(chain: seq<Block>)
    requires chain != []
  {
    var k := |chain| - 1;
    && (forall t :: 0 <= t < |chain[k].txs| ==> NamedOnce(chain[k].txs[t].inputs))
    && forall s: nat, t: nat, o :: s < t && Spends(chain, Place(k, s), o) ==> !Spends(chain, Place(k, t), o)
  }

  /** Everything the last block spends was unspent before it or is made in it. */
  ghost predicate BlockSpendsUnspent(coin: Coin, chain: seq<Block>)
    requires chain != []
  {
    var k := |chain| - 1;
    forall t: nat, o :: Spends(chain, Place(k, t), o) ==>
      IsUnspent(coin, chain[..k], o) || exists s: nat :: Creates(coin, chain, Place(k, s), o)
  }

  /** The last block makes nothing twice and nothing that was unspent before it. */
  ghost predicate BlockMakesNew(coin: Coin, chain: seq<Block>)
    requires chain != []
  {
    var k := |chain| - 1;
    && (forall t: nat, o :: Creates(coin, chain, Place(k, t), o) ==> !IsUnspent(coin, chain[..k], o))
    && forall s: nat, t: nat, o ::
         s < t && Creates(coin, chain, Place(k, s), o) ==> !Creates(coin, chain, Place(k, t), o)
  }

  /** Outputs first, a block is valid as a whole, in whatever order it has its transactions. */
  lemma LtorBlockValid(coin: Coin, chain: seq<Block>)
    requires coin.ltor && chain != [] && ValidChain(coin, chain[..|chain| - 1])
    ensures var k := |chain| - 1;
      ValidChain(coin, chain) <==>
        && Follows(coin, chain[..k], chain[k].header)
        && BlockNamesOnce(chain) && BlockSpendsUnspent(coin, chain) && BlockMakesNew(coin, chain)
  {
    hide *;
    var k := |chain| - 1;
    var pre, b, ix := chain[..k], chain[k], Replay(coin, chain[..k]);
    var fx := Effects(coin, k, b.txs, |ix.txids|);
    assert chain == pre + [b];
    ReplayStep(coin, pre, b);
    FollowsIs(coin, pre, b.header);
    NextIs(coin, pre, b);
    LtorParts(ix.utxos, fx);
    BlockNames(coin, chain, |ix.txids|);
    BlockSpends(coin, chain, ix.utxos, |ix.txids|);
    BlockMakes(coin, chain, ix.utxos, |ix.txids|);
  }

  lemma NextIs(coin: Coin, chain: seq<Block>, b: Block)
    requires coin.ltor
    ensures var ix := Replay(coin, chain);
      ValidNext(coin, chain, b) <==>
        coin.prevHash(b.header) == Tip(coin, chain) && ValidLtor(ix.utxos, Effects(coin, |chain|, b.txs, |ix.txids|))
  {
    hide Replay, Effects, ValidLtor, Tip;
  }

  ghost predicate SpendOnce(fx: seq<Effect>) {
    && (forall t :: 0 <= t < |fx| ==> NoDup(fx[t].spent))
    && forall s, t, o :: 0 <= s < t < |fx| && o in fx[s].spent ==> o !in fx[t].spent
  }

  ghost predicate SpendKnown(m: UtxoMap, fx: seq<Effect>) {
    forall t, o :: 0 <= t < |fx| && o in fx[t].spent ==> o in m || exists s :: 0 <= s < |fx| && o in fx[s].made
  }

  ghost predicate MakeNew(m: UtxoMap, fx: seq<Effect>) {
    && (forall t, o :: 0 <= t < |fx| && o in fx[t].made ==> o !in m)
    && forall s, t, o :: 0 <= s < t < |fx| && o in fx[s].made ==> o !in fx[t].made
  }

  lemma LtorParts(m: UtxoMap, fx: seq<Effect>)
    ensures ValidLtor(m, fx) <==> SpendOnce(fx) && SpendKnown(m, fx) && MakeNew(m, fx)
  {
    hide SpendOnce, Apart, NoDup, MakeNew, SpendKnown;
    AllSpentOnce(fx);
    AllKnown(m, fx);
    AllNew(m, fx);
  }

  lemma {:induction false} AllSpentOnce(fx: seq<Effect>)
    ensures NoDup(AllSpent(fx)) <==> SpendOnce(fx)
  {
    if fx != [] {
      hide NoDup;
      var k := |fx| - 1;
      var a, b := AllSpent(fx[..k]), fx[k].spent;
      AllSpentOnce(fx[..k]);
      NoDupJoin(a, b);
      forall o
        ensures o in a <==> SpentIn(fx[..k], o, 0)
      {
        AllSpentHas(fx[..k], o);
      }
      SpendOnceLast(fx);
    }
  }

  lemma NoDupJoin(a: seq<Outpoint>, b: seq<Outpoint>)
    ensures NoDup(a + b) <==> NoDup(a) && NoDup(b) && forall o :: o in a ==> o !in b
  {
    var c := a + b;
    assert forall i :: 0 <= i < |a| ==> c[i] == a[i];
    assert forall j :: 0 <= j < |b| ==> c[|a| + j] == b[j];
    if NoDup(c) {
      NoDupParts(a, b);
    }
    if NoDup(a) && NoDup(b) && forall o :: o in a ==> o !in b {
      forall i, j | 0 <= i < j < |c|
        ensures c[i] != c[j]
      {
        if i < |a| <= j {
          assert c[i] in a && c[j] in b;
        }
      }
    }
  }

  lemma SpendOnceLast(fx: seq<Effect>)
    requires fx != []
    ensures var k := |fx| - 1;
      SpendOnce(fx) <==>
        SpendOnce(fx[..k]) && NoDup(fx[k].spent) && forall o :: SpentIn(fx[..k], o, 0) ==> o !in fx[k].spent
  {
    hide NoDup;
    var k := |fx| - 1;
    var pre := fx[..k];
    assert forall t :: 0 <= t < k ==> pre[t] == fx[t];
    if SpendOnce(fx) {
      forall o | SpentIn(pre, o, 0)
        ensures o !in fx[k].spent
      {
        var s :| 0 <= s < k && o in pre[s].spent;
        assert o in fx[s].spent;
      }
    }
    if SpendOnce(pre) && NoDup(fx[k].spent) && forall o :: SpentIn(pre, o, 0) ==> o !in fx[k].spent {
      forall s, t, o | 0 <= s < t < |fx| && o in fx[s].spent
        ensures o !in fx[t].spent
      {
        assert o in pre[s].spent;
        if t == k {
          assert SpentIn(pre, o, 0);
        }
      }
    }
  }

  lemma AllKnown(m: UtxoMap, fx: seq<Effect>)
    ensures Elems(AllSpent(fx)) <= (m + AllMade(fx)).Keys <==> SpendKnown(m, fx)
  {
    hide Apart;
    forall o
      ensures o in Elems(AllSpent(fx)) <==> SpentIn(fx, o, 0)
      ensures o in (m + AllMade(fx)).Keys <==> o in m || exists s :: 0 <= s < |fx| && o in fx[s].made
    {
      AllSpentHas(fx, o);
      AllMadeHas(fx, o);
    }
  }

  lemma AllNew(m: UtxoMap, fx: seq<Effect>)
    ensures Fresh(m, fx) <==> MakeNew(m, fx)
  {
    hide Apart;
    ApartPairs(fx);
    forall o
      ensures o in AllMade(fx) <==> exists s :: 0 <= s < |fx| && o in fx[s].made
    {
      AllMadeHas(fx, o);
    }
  }

  lemma BlockNames(coin: Coin, chain: seq<Block>, num: nat)
    requires chain != []
    ensures SpendOnce(Effects(coin, |chain| - 1, chain[|chain| - 1].txs, num)) <==> BlockNamesOnce(chain)
  {
    hide Effects, NoDup, NamedOnce, Spends, Prevouts, Made;
    var k := |chain| - 1;
    var txs, fx := chain[k].txs, Effects(coin, k, chain[k].txs, num);
    EffectsAt(coin, k, txs, num, 0);
    forall t: nat | t < |txs|
      ensures NoDup(fx[t].spent) <==> NamedOnce(txs[t].inputs)
      ensures forall o :: o in fx[t].spent <==> Spends(chain, Place(k, t), o)
    {
      EffectsAt(coin, k, txs, num, t);
      NamedOnceIs(txs[t].inputs);
      forall o
        ensures o in fx[t].spent <==> Spends(chain, Place(k, t), o)
      {
        EffectMeans(coin, chain, k, num, t, o);
      }
    }
    PlacesInChain(coin, chain);
  }

  /** Only places of the chain spend or create. */
  lemma PlacesInChain(coin: Coin, chain: seq<Block>)
    ensures forall q, o :: Spends(chain, q, o) || Creates(coin, chain, q, o) ==>
      q.h < |chain| && q.t < |chain[q.h].txs|
  {
  }

  lemma BlockSpends(coin: Coin, chain: seq<Block>, m: UtxoMap, num: nat)
    requires chain != [] && ValidChain(coin, chain[..|chain| - 1]) && m == Replay(coin, chain[..|chain| - 1]).utxos
    ensures SpendKnown(m, Effects(coin, |chain| - 1, chain[|chain| - 1].txs, num)) <==> BlockSpendsUnspent(coin, chain)
  {
    hide Effects, Spends, Creates, Replay, ValidChain, IsUnspent;
    var k := |chain| - 1;
    var fx := Effects(coin, k, chain[k].txs, num);
    EffectsAt(coin, k, chain[k].txs, num, 0);
    PlacesInChain(coin, chain);
    forall o
      ensures o in m <==> IsUnspent(coin, chain[..k], o)
      ensures forall t: nat :: t < |fx| ==> (o in fx[t].spent <==> Spends(chain, Place(k, t), o))
      ensures forall t: nat :: t < |fx| ==> (o in fx[t].made <==> Creates(coin, chain, Place(k, t), o))
    {
      EffectsMean(coin, chain, num, o);
      UnspentHeld(coin, chain[..k], o);
    }
  }

  lemma BlockMakes(coin: Coin, chain: seq<Block>, m: UtxoMap, num: nat)
    requires chain != [] && ValidChain(coin, chain[..|chain| - 1]) && m == Replay(coin, chain[..|chain| - 1]).utxos
    ensures MakeNew(m, Effects(coin, |chain| - 1, chain[|chain| - 1].txs, num)) <==> BlockMakesNew(coin, chain)
  {
    hide Effects, Spends, Creates, Replay, ValidChain, IsUnspent;
    var k := |chain| - 1;
    var fx := Effects(coin, k, chain[k].txs, num);
    EffectsAt(coin, k, chain[k].txs, num, 0);
    PlacesInChain(coin, chain);
    forall o
      ensures o in m <==> IsUnspent(coin, chain[..k], o)
    {
      UnspentHeld(coin, chain[..k], o);
    }
    forall t: nat, o
      ensures t < |fx| ==> (o in fx[t].made <==> Creates(coin, chain, Place(k, t), o))
    {
      EffectsMean(coin, chain, num, o);
    }
    if BlockMakesNew(coin, chain) {
      forall s: nat, t: nat, o | s < t < |fx| && o in fx[s].made
        ensures o !in fx[t].made
      {
        assert Creates(coin, chain, Place(k, s), o);
      }
    }
  }

  lemma EffectsMean(coin: Coin, chain: seq<Block>, num: nat, o: Outpoint)
    requires chain != []
    ensures var k := |chain| - 1;
      var fx := Effects(coin, k, chain[k].txs, num);
      && |fx| == |chain[k].txs|
      && (forall t: nat :: t < |fx| ==> (o in fx[t].spent <==> Spends(chain, Place(k, t), o)))
      && (forall t: nat :: t < |fx| ==> (o in fx[t].made <==> Creates(coin, chain, Place(k, t), o)))
  {
    hide Effects, Spends, Creates;
    var k := |chain| - 1;
    EffectsAt(coin, k, chain[k].txs, num, 0);
    forall t: nat | t < |chain[k].txs|
      ensures var fx := Effects(coin, k, chain[k].txs, num);
        && (o in fx[t].spent <==> Spends(chain, Place(k, t), o))
        && (o in fx[t].made <==> Creates(coin, chain, Place(k, t), o))
    {
      EffectMeans(coin, chain, k, num, t, o);
    }
  }

  lemma UnspentHeld(coin: Coin, chain: seq<Block>, o: Outpoint)
    requires ValidChain(coin, chain)
    ensures o in Replay(coin, chain).utxos <==> IsUnspent(coin, chain, o)
  {
    hide Replay, ValidChain, Unspent;
    UtxosAre(coin, chain, o);
  }

  lemma LastValid(m: UtxoMap, fx: seq<Effect>)
    requires fx != []
    ensures var k := |fx| - 1;
      ValidInOrder(m, fx) <==> ValidInOrder(m, fx[..k]) && ValidEffect(Apply(m, fx[..k]), fx[k])
  {
  }

  lemma EffectValidIs(m: UtxoMap, e: Effect)
    ensures ValidEffect(m, e) <==>
      NoDup(e.spent) && (forall o :: o in e.spent ==> o in m) && (forall o :: o in e.made ==> o !in m)
  {
    hide NoDup;
    ElemsAre(e.spent);
  }

  lemma {:induction false} NamedOnceIs(ins: seq<TxInput>)
    ensures NoDup(Prevouts(ins)) <==> NamedOnce(ins)
  {
    if ins != [] {
      hide Coinbase, NoDup, NamedOnce, Prevouts;
      var k := |ins| - 1;
      var rest, last := Prevouts(ins[..k]), ins[k];
      NamedOnceIs(ins[..k]);
      CoinbaseIs(last);
      PrevoutsStep(ins, k);
      assert ins[..k + 1] == ins;
      PrevoutsHas(ins[..k], last.Prevout());
      NamedOnceLast(ins);
      if last.IsGeneration() {
        assert Prevouts(ins) == rest;
      } else {
        NoDupLast(rest, last.Prevout());
      }
    } else {
      assert Prevouts(ins) == [];
    }
  }

  lemma NoDupLast(s: seq<Outpoint>, x: Outpoint)
    ensures NoDup(s + [x]) <==> NoDup(s) && x !in s
  {
    var t := s + [x];
    assert forall i :: 0 <= i < |s| ==> t[i] == s[i];
    assert t[|s|] == x;
    if NoDup(t) {
      assert forall i :: 0 <= i < |s| ==> t[i] != t[|s|];
    }
  }

  lemma NamedOnceLast(ins: seq<TxInput>)
    requires ins != []
    ensures var k := |ins| - 1;
      NamedOnce(ins) <==> NamedOnce(ins[..k]) && (Coinbase(ins[k]) || !SpentBy(ins[..k], ins[k].Prevout()))
  {
    hide Coinbase;
    var k := |ins| - 1;
    var o := ins[k].Prevout();
    assert forall i :: 0 <= i < k ==> ins[..k][i] == ins[i];
    if SpentBy(ins[..k], o) {
      var i :| 0 <= i < k && Names(ins[..k][i], o);
      assert Names(ins[i], o);
    }
  }

  /** A first block: its coinbase pays 5 and 3, and carries data in two outputs,
      the first of them unspendable only while the genesis rules are not active. */
  lemma FirstBlock(coin: Coin, header: Header, id: Hash, a: Script, b: Script)
    requires coin.prevHash(header) == Zeros(32)
    requires a != [] && a[0] !in {0x00, 0x6a} && b != [] && b[0] !in {0x00, 0x6a}
    ensures var tx := Tx(id, [TxInput(Zeros(32), 4294967295)],
        [TxOutput(5, a), TxOutput(3, b), TxOutput(0, [0x6a, 1]), TxOutput(0, [0x00, 0x6a])]);
      var chain := [Block(header, [tx])];
      var paid := map[Outpoint(id, 0) := Utxo(coin.hashX(a), 0, 5), Outpoint(id, 1) := Utxo(coin.hashX(b), 0, 3)];
      && ValidChain(coin, chain)
      && Replay(coin, chain).utxos ==
           if coin.genesisActivation > 0 then paid
           else paid[Outpoint(id, 2) := Utxo(coin.hashX([0x6a, 1]), 0, 0)]
  {
    hide *;
    var outs := [TxOutput(5, a), TxOutput(3, b), TxOutput(0, [0x6a, 1]), TxOutput(0, [0x00, 0x6a])];
    var tx := Tx(id, [TxInput(Zeros(32), 4294967295)], outs);
    CoinbaseOnly();
    FirstApplied(coin, header, tx);
    FirstMade(coin, tx, a, b);
  }

  lemma CoinbaseOnly()
    ensures Prevouts([TxInput(Zeros(32), 4294967295)]) == []
  {
    var ins := [TxInput(Zeros(32), 4294967295)];
    assert Prevouts(ins[..0]) == [];
  }

  /** A first block of one transaction that spends nothing. */
  lemma FirstApplied(coin: Coin, header: Header, tx: Tx)
    requires coin.prevHash(header) == Zeros(32) && Prevouts(tx.inputs) == []
    ensures var chain := [Block(header, [tx])];
      ValidChain(coin, chain) && Replay(coin, chain).utxos == Made(coin, 0, tx, 0, |tx.outputs|)
  {
    hide Prevouts, Made, Effects, ValidBody, ApplyBody, TouchBody, UndoBody;
    var e := EffectOf(coin, 0, tx, 0);
    EffectsOne(coin, tx);
    OneEffect(coin, e);
    assert [Block(header, [tx])][..0] == [];
  }

  lemma FirstMade(coin: Coin, tx: Tx, a: Script, b: Script)
    requires a != [] && a[0] !in {0x00, 0x6a} && b != [] && b[0] !in {0x00, 0x6a}
    requires tx.outputs == [TxOutput(5, a), TxOutput(3, b), TxOutput(0, [0x6a, 1]), TxOutput(0, [0x00, 0x6a])]
    ensures var paid := map[Outpoint(tx.txid, 0) := Utxo(coin.hashX(a), 0, 5),
                            Outpoint(tx.txid, 1) := Utxo(coin.hashX(b), 0, 3)];
      Made(coin, 0, tx, 0, 4) ==
        if coin.genesisActivation > 0 then paid
        else paid[Outpoint(tx.txid, 2) := Utxo(coin.hashX([0x6a, 1]), 0, 0)]
  {
    assert Made(coin, 0, tx, 0, 0) == map[];
    assert Made(coin, 0, tx, 0, 2) == map[Outpoint(tx.txid, 0) := Utxo(coin.hashX(a), 0, 5),
                                          Outpoint(tx.txid, 1) := Utxo(coin.hashX(b), 0, 3)];
  }

  lemma EffectsOne(coin: Coin, tx: Tx)
    ensures Effects(coin, 0, [tx], 0) == [EffectOf(coin, 0, tx, 0)]
  {
    assert [tx][..0] == [];
  }

  lemma OneEffect(coin: Coin, e: Effect)
    requires e.spent == []
    ensures ValidBody(coin, map[], [e]) && ApplyBody(coin, map[], [e]) == e.made
  {
    var none, m: UtxoMap := [e][..0], map[];
    LtorStep([e], 0);
    assert [e][..1] == [e] && none == [];
    assert ([e])[..|[e]| - 1] == none;
    assert m - Elems([]) == m && m + e.made == e.made && e.made - Elems([]) == e.made;
    LastValid(m, [e]);
    EffectValidIs(m, e);
    assert ValidInOrder(m, none) && Apply(m, none) == m;
    assert Apply(m, [e]) == (Apply(m, none) - Elems([])) + e.made;
    assert AllSpent([e]) == [];
    assert AllMade([e]) == e.made;
  }

  // ---- numbers ----

  /** A transaction's number leads to its id, and the counts are those of the blocks. */
  lemma NumbersAre(coin: Coin, chain: seq<Block>, p: Place)
    requires In(chain, p)
    ensures var ix := Replay(coin, chain);
      && |ix.txids| == TxsBelow(chain, |chain|) && |ix.txCounts| == |chain|
      && NumberAt(chain, p) < |ix.txids| && ix.txids[NumberAt(chain, p)] == TxAt(chain, p).txid
      && ix.txCounts[p.h] == TxsBelow(chain, p.h + 1)
  {
    hide Replay;
    var upTo := chain[..p.h + 1];
    IdsCount(coin, chain);
    ReplayCoherent(coin, chain);
    ReplayPrefix(coin, chain, p.h + 1);
    TxsBelowPrefix(chain, p.h, p.h);
    NumberHere(coin, chain[..p.h], chain[p.h], p.t);
    assert upTo == chain[..p.h] + [chain[p.h]];
  }

  lemma NumberHere(coin: Coin, chain: seq<Block>, b: Block, t: nat)
    requires t < |b.txs|
    ensures var ix, n := Replay(coin, chain + [b]), TxsBelow(chain, |chain|);
      && n + t < |ix.txids| && ix.txids[n + t] == b.txs[t].txid
      && |chain| < |ix.txCounts| && ix.txCounts[|chain|] == n + |b.txs|
  {
    hide Replay, TouchBody, UndoBody, ApplyBody;
    ReplayStep(coin, chain, b);
    IdsCount(coin, chain);
    ReplayCoherent(coin, chain);
  }

  // ---- chains in which no id occurs twice ----

  ghost predicate DistinctIds(chain: seq<Block>) {
    forall p, q :: In(chain, p) && In(chain, q) && TxAt(chain, p).txid == TxAt(chain, q).txid ==> p == q
  }

  /** The map holds exactly the spendable outputs that no input of the chain names. */
  lemma UnspentOnce(coin: Coin, chain: seq<Block>, o: Outpoint)
    requires ValidChain(coin, chain) && DistinctIds(chain)
    ensures o in Replay(coin, chain).utxos <==>
      (exists p :: Creates(coin, chain, p, o)) && forall q :: !Spends(chain, q, o)
  {
    hide ValidChain, Replay, Spends;
    UtxosAre(coin, chain, o);
    if p :| Unspent(coin, chain, p, o) {
      forall q
        ensures !Spends(chain, q, o)
      {
        if Spends(chain, q, o) {
          InputsDraw(coin, chain, q, o);
        }
      }
    }
    if p :| Creates(coin, chain, p, o) && forall q :: !Spends(chain, q, o) {
      assert Unspent(coin, chain, p, o);
    }
  }

  /** A transaction is in an address's history if and only if it pays to it, or an
      input of it names an output of the chain that does. */
  lemma HistoryOnce(coin: Coin, chain: seq<Block>, q: Place, x: HashX)
    requires ValidChain(coin, chain) && DistinctIds(chain) && In(chain, q)
    ensures NumberAt(chain, q) < |Replay(coin, chain).touches|
    ensures x in Replay(coin, chain).touches[NumberAt(chain, q)] <==>
      || PaysAddress(coin, chain, q, x)
      || exists p, o :: Spends(chain, q, o) && Creates(coin, chain, p, o) && coin.hashX(ScriptAt(chain, p, o)) == x
  {
    hide ValidChain, Replay, Spends, PaysAddress, ScriptAt;
    HistoryIs(coin, chain, q, x);
    forall p, o | Spends(chain, q, o) && Creates(coin, chain, p, o)
      ensures Draws(coin, chain, q, p, o)
    {
      InputsDraw(coin, chain, q, o);
    }
  }

  // ---- one block ----

  /** An effect from number `from` on spends the outpoint. */
  ghost predicate SpentIn(fx: seq<Effect>, o: Outpoint, from: nat) {
    exists s :: from <= s < |fx| && o in fx[s].spent
  }

  /** What a block leaves of an outpoint. */
  lemma BodyHas(coin: Coin, m: UtxoMap, fx: seq<Effect>, o: Outpoint)
    requires ValidBody(coin, m, fx)
    ensures o in m && !SpentIn(fx, o, 0) ==> Has(ApplyBody(coin, m, fx), o, m[o])
    ensures forall t: nat :: t < |fx| && o in fx[t].made && !SpentIn(fx, o, if coin.ltor then 0 else t + 1) ==>
      Has(ApplyBody(coin, m, fx), o, fx[t].made[o])
    ensures o in ApplyBody(coin, m, fx) ==>
      || (o in m && !SpentIn(fx, o, 0))
      || exists t: nat :: t < |fx| && o in fx[t].made && !SpentIn(fx, o, if coin.ltor then 0 else t + 1)
  {
    hide SpentIn;
    if coin.ltor {
      LtorHas(m, fx, o);
    } else {
      InOrderHas(m, fx, o);
    }
  }

  ghost predicate Has(m: UtxoMap, o: Outpoint, v: Utxo) {
    o in m && m[o] == v
  }

  lemma LtorHas(m: UtxoMap, fx: seq<Effect>, o: Outpoint)
    requires ValidLtor(m, fx)
    ensures o in m && !SpentIn(fx, o, 0) ==> Has(ApplyLtor(m, fx), o, m[o])
    ensures !SpentIn(fx, o, 0) ==>
      forall t: nat :: t < |fx| && o in fx[t].made ==> Has(ApplyLtor(m, fx), o, fx[t].made[o])
    ensures o in ApplyLtor(m, fx) ==>
      !SpentIn(fx, o, 0) && (o in m || exists t: nat :: t < |fx| && o in fx[t].made)
  {
    hide SpentIn;
    AllSpentHas(fx, o);
    AllMadeHas(fx, o);
  }

  lemma {:induction false} AllSpentHas(fx: seq<Effect>, o: Outpoint)
    ensures o in AllSpent(fx) <==> SpentIn(fx, o, 0)
  {
    if fx != [] {
      var k := |fx| - 1;
      AllSpentHas(fx[..k], o);
      SpentLast(fx, o, 0);
    }
  }

  lemma SpentLast(fx: seq<Effect>, o: Outpoint, from: nat)
    requires fx != [] && from <= |fx| - 1
    ensures SpentIn(fx, o, from) <==> SpentIn(fx[..|fx| - 1], o, from) || o in fx[|fx| - 1].spent
  {
    var k := |fx| - 1;
    if SpentIn(fx[..k], o, from) {
      var s :| from <= s < k && o in fx[..k][s].spent;
      assert o in fx[s].spent;
    }
    if SpentIn(fx, o, from) {
      var s :| from <= s < |fx| && o in fx[s].spent;
      if s < k {
        assert o in fx[..k][s].spent;
      }
    }
  }

  lemma {:induction false} InOrderHas(m: UtxoMap, fx: seq<Effect>, o: Outpoint)
    requires ValidInOrder(m, fx)
    ensures o in m && !SpentIn(fx, o, 0) ==> Has(Apply(m, fx), o, m[o])
    ensures forall t: nat :: t < |fx| && o in fx[t].made && !SpentIn(fx, o, t + 1) ==>
      Has(Apply(m, fx), o, fx[t].made[o])
    ensures o in Apply(m, fx) ==>
      (o in m && !SpentIn(fx, o, 0)) || exists t: nat :: t < |fx| && o in fx[t].made && !SpentIn(fx, o, t + 1)
  {
    if fx != [] {
      hide SpentIn;
      var k := |fx| - 1;
      var pre := fx[..k];
      InOrderHas(m, pre, o);
      SpentLast(fx, o, 0);
      NoneAfter(fx, o);
      forall t: nat | t < |fx| && o in fx[t].made && !SpentIn(fx, o, t + 1)
        ensures Has(Apply(m, fx), o, fx[t].made[o])
      {
        if t < k {
          SpentLast(fx, o, t + 1);
          assert pre[t] == fx[t];
        }
      }
      if o in Apply(m, fx) && o !in fx[k].made && !(o in m && !SpentIn(fx, o, 0)) {
        var t: nat :| t < |pre| && o in pre[t].made && !SpentIn(pre, o, t + 1);
        SpentLast(fx, o, t + 1);
        assert pre[t] == fx[t];
      }
    }
  }

  lemma NoneAfter(fx: seq<Effect>, o: Outpoint)
    ensures !SpentIn(fx, o, |fx|)
  {
  }

  /** What an input finds where it is looked up. */
  lemma SourceHas(coin: Coin, m: UtxoMap, fx: seq<Effect>, t: nat, o: Outpoint)
    requires ValidBody(coin, m, fx) && t < |fx| && o in fx[t].spent
    ensures o in m && !SpentIn(fx[..t], o, 0) ==> Has(SourceOf(coin, m, fx, t), o, m[o])
    ensures forall s: nat ::
      s < |fx| && (coin.ltor || s < t) && o in fx[s].made && !SpentIn(fx[..t], o, if coin.ltor then 0 else s + 1) ==>
        Has(SourceOf(coin, m, fx, t), o, fx[s].made[o])
    ensures (o in m && !SpentIn(fx[..t], o, 0)) || exists s: nat ::
      s < |fx| && (coin.ltor || s < t) && o in fx[s].made && !SpentIn(fx[..t], o, if coin.ltor then 0 else s + 1)
  {
    hide SpentIn;
    if coin.ltor {
      SpentOnce(fx, t, o);
      AllMadeHas(fx, o);
      AllSpentHas(fx, o);
      SpentAt(fx, t, o);
    } else {
      ValidAt(m, fx, t);
      EffectsPrefix(m, fx, t);
      InOrderHas(m, fx[..t], o);
      assert forall s: nat :: s < t ==> fx[..t][s] == fx[s];
      assert o in Elems(fx[t].spent);
    }
  }

  lemma SpentAt(fx: seq<Effect>, t: nat, o: Outpoint)
    requires t < |fx| && o in fx[t].spent
    ensures SpentIn(fx, o, 0)
  {
  }

  lemma {:induction false} EffectsPrefix(m: UtxoMap, fx: seq<Effect>, t: nat)
    requires t <= |fx| && ValidInOrder(m, fx)
    ensures ValidInOrder(m, fx[..t])
  {
    if t == |fx| {
      assert fx[..t] == fx;
    } else {
      var k := |fx| - 1;
      assert fx[..k][..t] == fx[..t];
      EffectsPrefix(m, fx[..k], t);
    }
  }

  /** Outputs first, an outpoint is spent once in a block. */
  lemma {:induction false} SpentOnce(fx: seq<Effect>, t: nat, o: Outpoint)
    requires NoDup(AllSpent(fx)) && t < |fx| && o in fx[t].spent
    ensures !SpentIn(fx[..t], o, 0)
  {
    var k := |fx| - 1;
    var a, b := AllSpent(fx[..k]), fx[k].spent;
    NoDupParts(a, b);
    if t < k {
      assert fx[..k][..t] == fx[..t];
      SpentOnce(fx[..k], t, o);
    } else {
      AllSpentHas(fx[..k], o);
      assert o !in a;
    }
  }

  lemma NoDupParts(a: seq<Outpoint>, b: seq<Outpoint>)
    requires NoDup(a + b)
    ensures NoDup(a) && forall o :: o in b ==> o !in a
  {
    forall i, j | 0 <= i < j < |a|
      ensures a[i] != a[j]
    {
      assert (a + b)[i] == a[i] && (a + b)[j] == a[j];
    }
    forall i, j | 0 <= i < |a| && 0 <= j < |b|
      ensures a[i] != b[j]
    {
      assert (a + b)[i] == a[i] && (a + b)[|a| + j] == b[j];
    }
  }

  lemma TouchBodyAt(coin: Coin, m: UtxoMap, fx: seq<Effect>, t: nat)
    requires t < |fx|
    ensures |TouchBody(coin, m, fx)| == |fx|
    ensures TouchBody(coin, m, fx)[t] == Touch(SourceOf(coin, m, fx, t), fx[t])
  {
    hide Touch;
    if coin.ltor {
      TouchesAtAt(m + AllMade(fx), fx, t);
    } else {
      TouchesInOrderAt(m, fx, t);
    }
  }

  lemma {:induction false} TouchesAtAt(m: UtxoMap, fx: seq<Effect>, t: nat)
    requires t < |fx|
    ensures |TouchesAt(m, fx)| == |fx| && TouchesAt(m, fx)[t] == Touch(m, fx[t])
  {
    hide Touch;
    TouchesLength(m, fx);
    TouchesLength(m, fx[..|fx| - 1]);
    if t < |fx| - 1 {
      TouchesAtAt(m, fx[..|fx| - 1], t);
    }
  }

  lemma {:induction false} TouchesInOrderAt(m: UtxoMap, fx: seq<Effect>, t: nat)
    requires t < |fx|
    ensures |Touches(m, fx)| == |fx| && Touches(m, fx)[t] == Touch(Apply(m, fx[..t]), fx[t])
  {
    hide Touch;
    var k := |fx| - 1;
    TouchesLength(m, fx);
    TouchesLength(m, fx[..k]);
    if t < k {
      assert fx[..k][..t] == fx[..t];
      TouchesInOrderAt(m, fx[..k], t);
    }
  }

  // ---- effects and blocks ----

  lemma SpendableIs(coin: Coin, h: nat, s: Script)
    ensures Spendable(coin, h, s) <==> !Unspendable(coin, h, s)
  {
  }

  lemma CoinbaseIs(txin: TxInput)
    ensures Coinbase(txin) <==> txin.IsGeneration()
  {
    if Coinbase(txin) {
      assert txin.prevHash == ZERO;
    }
  }

  lemma SpentByLast(ins: seq<TxInput>, o: Outpoint)
    requires ins != []
    ensures SpentBy(ins, o) <==> SpentBy(ins[..|ins| - 1], o) || Names(ins[|ins| - 1], o)
  {
    hide Names;
    var k := |ins| - 1;
    if SpentBy(ins[..k], o) {
      var i :| 0 <= i < k && Names(ins[..k][i], o);
      assert ins[i] == ins[..k][i];
    }
    if SpentBy(ins, o) {
      var i :| 0 <= i < |ins| && Names(ins[i], o);
      if i < k {
        assert ins[i] == ins[..k][i];
      }
    }
  }

  lemma {:induction false} PrevoutsHas(ins: seq<TxInput>, o: Outpoint)
    ensures o in Prevouts(ins) <==> SpentBy(ins, o)
  {
    if ins != [] {
      hide Coinbase, SpentBy;
      var k := |ins| - 1;
      PrevoutsHas(ins[..k], o);
      CoinbaseIs(ins[k]);
      SpentByLast(ins, o);
    } else {
      assert !SpentBy(ins, o);
    }
  }

  /** Taking out a transaction's prevouts removes what its inputs name. */
  lemma InputsSpent(m: UtxoMap, ins: seq<TxInput>)
    ensures forall o :: o in m - Elems(Prevouts(ins)) <==> o in m && !SpentBy(ins, o)
  {
    hide SpentBy, Prevouts;
    ElemsAre(Prevouts(ins));
    forall o
      ensures o in Prevouts(ins) <==> SpentBy(ins, o)
    {
      PrevoutsHas(ins, o);
    }
  }

  /** The entries a transaction adds, read off its outputs. */
  lemma OutputsAdded(coin: Coin, h: nat, tx: Tx, num: nat, m: UtxoMap)
    ensures var r := m + Made(coin, h, tx, num, |tx.outputs|);
      && (forall i :: 0 <= i < |tx.outputs| && Spendable(coin, h, tx.outputs[i].script) ==>
            Has(r, Outpoint(tx.txid, i), Utxo(coin.hashX(tx.outputs[i].script), num, tx.outputs[i].value)))
      && forall o :: o in r ==>
           || Has(m, o, r[o])
           || (o.hash == tx.txid && o.idx < |tx.outputs| && Spendable(coin, h, tx.outputs[o.idx].script))
  {
    hide Made, Spendable, Unspendable;
    var made := Made(coin, h, tx, num, |tx.outputs|);
    forall o
      ensures o in made <==>
        o.hash == tx.txid && o.idx < |tx.outputs| && Spendable(coin, h, tx.outputs[o.idx].script)
      ensures o in made ==>
        made[o] == Utxo(coin.hashX(tx.outputs[o.idx].script), num, tx.outputs[o.idx].value)
    {
      MadeHas(coin, h, tx, num, |tx.outputs|, o);
      if o.idx < |tx.outputs| {
        SpendableIs(coin, h, tx.outputs[o.idx].script);
      }
    }
  }

  /** The effect of transaction t of block h, read off the block. */
  lemma EffectMeans(coin: Coin, chain: seq<Block>, h: nat, num: nat, t: nat, o: Outpoint)
    requires h < |chain| && t < |chain[h].txs|
    ensures var p, fx := Place(h, t), Effects(coin, h, chain[h].txs, num);
      && |fx| == |chain[h].txs|
      && (o in fx[t].made <==> Creates(coin, chain, p, o))
      && (o in fx[t].made && num == TxsBelow(chain, h) ==> HeldAs(coin, chain, p, o, fx[t].made[o]))
      && (o in fx[t].spent <==> Spends(chain, p, o))
  {
    hide Effects, SpentBy, Spendable, Unspendable, Prevouts, Made;
    var tx := chain[h].txs[t];
    EffectsAt(coin, h, chain[h].txs, num, t);
    MadeHas(coin, h, tx, num + t, |tx.outputs|, o);
    PrevoutsHas(tx.inputs, o);
    if o.idx < |tx.outputs| {
      SpendableIs(coin, h, tx.outputs[o.idx].script);
    }
  }

  /** Spends in the last block. */
  lemma SpentHere(coin: Coin, chain: seq<Block>, num: nat, o: Outpoint)
    requires chain != []
    ensures |Effects(coin, |chain| - 1, chain[|chain| - 1].txs, num)| == |chain[|chain| - 1].txs|
    ensures var k := |chain| - 1;
      forall from: nat :: SpentIn(Effects(coin, k, chain[k].txs, num), o, from) <==>
        exists q: Place :: q.h == k && from <= q.t && Spends(chain, q, o)
  {
    hide Effects, Spends, SpentIn;
    var k := |chain| - 1;
    var fx := Effects(coin, k, chain[k].txs, num);
    EffectsAt(coin, k, chain[k].txs, num, 0);
    SpendsIn(chain, o);
    forall from: nat
      ensures SpentIn(fx, o, from) <==> exists q: Place :: q.h == k && from <= q.t && Spends(chain, q, o)
    {
      SpentUpTo(coin, chain, num, o, from, |fx|);
      assert fx[..|fx|] == fx;
    }
  }

  /** Spends in the last block before its transaction `to`. */
  lemma SpentUpTo(coin: Coin, chain: seq<Block>, num: nat, o: Outpoint, from: nat, to: nat)
    requires chain != [] && to <= |chain[|chain| - 1].txs|
    ensures to <= |Effects(coin, |chain| - 1, chain[|chain| - 1].txs, num)|
    ensures var k := |chain| - 1;
      SpentIn(Effects(coin, k, chain[k].txs, num)[..to], o, from) <==>
        exists q: Place :: q.h == k && from <= q.t < to && Spends(chain, q, o)
  {
    hide Effects, Spends;
    var k := |chain| - 1;
    var fx := Effects(coin, k, chain[k].txs, num);
    EffectsAt(coin, k, chain[k].txs, num, 0);
    if SpentIn(fx[..to], o, from) {
      var s :| from <= s < to && o in fx[..to][s].spent;
      EffectMeans(coin, chain, k, num, s, o);
      assert Spends(chain, Place(k, s), o);
    }
    if q: Place :| q.h == k && from <= q.t < to && Spends(chain, q, o) {
      EffectMeans(coin, chain, k, num, q.t, o);
      assert o in fx[..to][q.t].spent;
    }
  }

  lemma SpendsIn(chain: seq<Block>, o: Outpoint)
    ensures forall q :: Spends(chain, q, o) ==> In(chain, q)
  {
  }

  /** One more block: what was unspent stays so unless the block spends it. */
  lemma UnspentGrows(coin: Coin, chain: seq<Block>, p: Place, o: Outpoint)
    requires chain != []
    ensures var k, pre := |chain| - 1, chain[..|chain| - 1];
      && (Unspent(coin, chain, p, o) ==> p.h <= k && p.t < |chain[p.h].txs| && Creates(coin, chain, p, o))
      && (Unspent(coin, pre, p, o) ==> Creates(coin, pre, p, o))
      && (p.h < k ==> (Unspent(coin, chain, p, o) <==>
            Unspent(coin, pre, p, o) && !exists q: Place :: q.h == k && 0 <= q.t && Spends(chain, q, o)))
      && (p.h == k ==> (Unspent(coin, chain, p, o) <==>
            && Creates(coin, chain, p, o)
            && !exists q: Place ::
                  q.h == k && (if coin.ltor then 0 else p.t + 1) <= q.t && Spends(chain, q, o)))
      && (Unspent(coin, pre, p, o) ==> p.h < k)
  {
    hide SpentBy, Spendable;
    var k, pre := |chain| - 1, chain[..|chain| - 1];
    assert forall q: Place :: q.h < k ==> (Spends(pre, q, o) <==> Spends(chain, q, o));
    assert forall q: Place :: Spends(pre, q, o) ==> q.h < k;
    assert p.h < k ==> (Creates(coin, pre, p, o) <==> Creates(coin, chain, p, o));
  }

  lemma HeldGrows(coin: Coin, chain: seq<Block>, p: Place, o: Outpoint, v: Utxo)
    requires chain != [] && Creates(coin, chain[..|chain| - 1], p, o) && HeldAs(coin, chain[..|chain| - 1], p, o, v)
    ensures Creates(coin, chain, p, o) && HeldAs(coin, chain, p, o, v)
  {
    TxsBelowPrefix(chain, |chain| - 1, p.h);
  }

  lemma {:induction false} TxsBelowPrefix(chain: seq<Block>, k: nat, h: nat)
    requires h <= k <= |chain|
    ensures TxsBelow(chain[..k], h) == TxsBelow(chain, h)
  {
    if h > 0 {
      TxsBelowPrefix(chain, k, h - 1);
    }
  }

  lemma {:induction false} IdsCount(coin: Coin, chain: seq<Block>)
    ensures |Replay(coin, chain).txids| == TxsBelow(chain, |chain|)
  {
    if chain != [] {
      var k := |chain| - 1;
      IdsCount(coin, chain[..k]);
      TxsBelowPrefix(chain, k, k);
    }
  }
}
