/** Facts about the ledger that the block processor and the database rely on,
    and the relation between the two processing orders. */
module LedgerProofs {
  import opened Types
  import opened Ledger

  // ---- unfolding one step ----

  lemma PrevoutsStep(ins: seq<TxInput>, i: nat)
    requires i < |ins|
    ensures Prevouts(ins[..i + 1])
         == Prevouts(ins[..i]) + (if ins[i].IsGeneration() then [] else [ins[i].Prevout()])
  {
    assert ins[..i + 1][..i] == ins[..i];
  }

  lemma {:induction false} EffectsAt(coin: Coin, ht: nat, txs: seq<Tx>, num: nat, i: nat)
    requires i <= |txs|
    ensures |Effects(coin, ht, txs, num)| == |txs|
    ensures Effects(coin, ht, txs[..i], num) == Effects(coin, ht, txs, num)[..i]
    ensures i < |txs| ==> Effects(coin, ht, txs, num)[i] == EffectOf(coin, ht, txs[i], num + i)
  {
    if txs != [] {
      var k := |txs| - 1;
      EffectsAt(coin, ht, txs[..k], num, if i < k then i else k);
      if i < k {
        assert txs[..k][..i] == txs[..i];
      } else if i == |txs| {
        assert txs[..i] == txs;
      }
    }
  }

  lemma ApplyStep(m: UtxoMap, fx: seq<Effect>, i: nat)
    requires i < |fx|
    ensures Apply(m, fx[..i + 1]) == (Apply(m, fx[..i]) - Elems(fx[i].spent)) + fx[i].made
    ensures Undo(m, fx[..i + 1]) == Undo(m, fx[..i]) + Values(Apply(m, fx[..i]), fx[i].spent)
    ensures Touches(m, fx[..i + 1]) == Touches(m, fx[..i]) + [Touch(Apply(m, fx[..i]), fx[i])]
  {
    assert fx[..i + 1][..i] == fx[..i];
  }

  lemma {:induction false} ValidAt(m: UtxoMap, fx: seq<Effect>, i: nat)
    requires i < |fx| && ValidInOrder(m, fx)
    ensures ValidEffect(Apply(m, fx[..i]), fx[i])
  {
    var k := |fx| - 1;
    if i < k {
      assert fx[..k][..i] == fx[..i];
      ValidAt(m, fx[..k], i);
    }
  }

  lemma LtorStep(fx: seq<Effect>, i: nat)
    requires i < |fx|
    ensures AllMade(fx[..i + 1]) == AllMade(fx[..i]) + fx[i].made
    ensures AllSpent(fx[..i + 1]) == AllSpent(fx[..i]) + fx[i].spent
  {
    assert fx[..i + 1][..i] == fx[..i];
  }

  lemma {:induction false} ValuesAt(m: UtxoMap, ps: seq<Outpoint>, i: nat)
    requires i < |ps|
    ensures |Values(m, ps)| == |ps| && Values(m, ps)[i] == Get(m, ps[i])
  {
    var k := |ps| - 1;
    if k == 0 {
      assert ps[..k] == [];
    } else {
      ValuesAt(m, ps[..k], if i < k then i else 0);
    }
  }

  lemma {:induction false} ValuesConcat(m: UtxoMap, a: seq<Outpoint>, b: seq<Outpoint>)
    ensures Values(m, a + b) == Values(m, a) + Values(m, b)
  {
    if b == [] {
      assert a + b == a;
    } else {
      var k := |b| - 1;
      FrontOfJoin(a, b);
      ValuesConcat(m, a, b[..k]);
    }
  }

  lemma {:induction false} ValuesSame(m: UtxoMap, n: UtxoMap, ps: seq<Outpoint>)
    requires forall o :: o in ps ==> Get(m, o) == Get(n, o)
    ensures Values(m, ps) == Values(n, ps)
  {
    if ps != [] {
      ValuesSame(m, n, ps[..|ps| - 1]);
    }
  }

  lemma TouchSame(m: UtxoMap, n: UtxoMap, e: Effect)
    requires forall o :: o in e.spent ==> Get(m, o) == Get(n, o)
    ensures Touch(m, e) == Touch(n, e)
  {
  }

  lemma {:induction false} TouchesSame(m: UtxoMap, n: UtxoMap, fx: seq<Effect>)
    requires forall o :: o in AllSpent(fx) ==> Get(m, o) == Get(n, o)
    ensures TouchesAt(m, fx) == TouchesAt(n, fx)
  {
    if fx != [] {
      TouchesSame(m, n, fx[..|fx| - 1]);
      TouchSame(m, n, fx[|fx| - 1]);
    }
  }

  lemma {:induction false} TouchesLength(m: UtxoMap, fx: seq<Effect>)
    ensures |Touches(m, fx)| == |TouchesAt(m, fx)| == |fx|
  {
    if fx != [] {
      TouchesLength(m, fx[..|fx| - 1]);
    }
  }

  // ---- where the entries of the outpoint map come from ----

  /** The entries a transaction makes: one per spendable output. */
  lemma {:induction false} MadeHas(coin: Coin, ht: nat, tx: Tx, num: nat, n: nat, o: Outpoint)
    requires n <= |tx.outputs|
    ensures o in Made(coin, ht, tx, num, n)
       <==> o.hash == tx.txid && o.idx < n && Pays(coin, ht, tx, o.idx)
    ensures o in Made(coin, ht, tx, num, n)
        ==> Made(coin, ht, tx, num, n)[o] == Coined(coin, tx, num, o.idx)
  {
    if n > 0 {
      MadeHas(coin, ht, tx, num, n - 1, o);
    }
  }

  ghost predicate MadeBy(made: UtxoMap, id: Hash, n: nat) {
    forall o :: o in made ==> made[o].txNum == n && o.hash == id
  }

  /** The entries of effect i carry transaction number num + i. */
  ghost predicate Numbered(fx: seq<Effect>, ids: seq<Hash>, num: nat) {
    |fx| == |ids| && forall i :: 0 <= i < |fx| ==> MadeBy(fx[i].made, ids[i], num + i)
  }

  lemma EffectsNumbered(coin: Coin, ht: nat, txs: seq<Tx>, num: nat)
    ensures Numbered(Effects(coin, ht, txs, num), TxIds(txs), num)
  {
    hide Effects, EffectOf, MadeBy;
    var fx := Effects(coin, ht, txs, num);
    EffectsAt(coin, ht, txs, num, 0);
    forall i | 0 <= i < |fx|
      ensures MadeBy(fx[i].made, txs[i].txid, num + i)
    {
      EffectsAt(coin, ht, txs, num, i);
      EffectNumbered(coin, ht, txs[i], num + i);
    }
  }

  lemma EffectNumbered(coin: Coin, ht: nat, tx: Tx, num: nat)
    ensures MadeBy(EffectOf(coin, ht, tx, num).made, tx.txid, num)
  {
    forall o | o in Made(coin, ht, tx, num, |tx.outputs|)
      ensures Made(coin, ht, tx, num, |tx.outputs|)[o].txNum == num && o.hash == tx.txid
    {
      MadeHas(coin, ht, tx, num, |tx.outputs|, o);
    }
  }

  /** An entry either was there before or carries the number of its transaction. */
  ghost predicate Sourced(m: UtxoMap, ids: seq<Hash>, num: nat, r: UtxoMap) {
    forall o :: o in r ==>
      || (o in m && r[o] == m[o])
      || (num <= r[o].txNum < num + |ids| && ids[r[o].txNum - num] == o.hash)
  }

  lemma {:induction false} ApplySourced(m: UtxoMap, fx: seq<Effect>, ids: seq<Hash>, num: nat)
    requires Numbered(fx, ids, num)
    ensures Sourced(m, ids, num, Apply(m, fx))
  {
    if fx != [] {
      var k := |fx| - 1;
      NumberedPrefix(fx, ids, num);
      ApplySourced(m, fx[..k], ids[..k], num);
      SourcedWiden(m, ids, num, Apply(m, fx[..k]));
      LastNumbered(m, fx, ids, num);
      SourcedLess(m, ids, num, Apply(m, fx[..k]), Elems(fx[k].spent));
      SourcedUnion(m, ids, num, Apply(m, fx[..k]) - Elems(fx[k].spent), fx[k].made);
    }
  }

  lemma {:induction false} AllMadeSourced(m: UtxoMap, fx: seq<Effect>, ids: seq<Hash>, num: nat)
    requires Numbered(fx, ids, num)
    ensures Sourced(m, ids, num, AllMade(fx))
  {
    if fx != [] {
      var k := |fx| - 1;
      NumberedPrefix(fx, ids, num);
      AllMadeSourced(m, fx[..k], ids[..k], num);
      SourcedWiden(m, ids, num, AllMade(fx[..k]));
      LastNumbered(m, fx, ids, num);
      SourcedUnion(m, ids, num, AllMade(fx[..k]), fx[k].made);
    }
  }

  lemma SourcedWiden(m: UtxoMap, ids: seq<Hash>, num: nat, r: UtxoMap)
    requires ids != [] && Sourced(m, ids[..|ids| - 1], num, r)
    ensures Sourced(m, ids, num, r)
  {
  }

  lemma NumberedPrefix(fx: seq<Effect>, ids: seq<Hash>, num: nat)
    requires fx != [] && Numbered(fx, ids, num)
    ensures Numbered(fx[..|fx| - 1], ids[..|fx| - 1], num)
  {
  }

  lemma LastNumbered(m: UtxoMap, fx: seq<Effect>, ids: seq<Hash>, num: nat)
    requires fx != [] && Numbered(fx, ids, num)
    ensures Sourced(m, ids, num, fx[|fx| - 1].made)
  {
  }

  lemma SourcedUnion(m: UtxoMap, ids: seq<Hash>, num: nat, a: UtxoMap, b: UtxoMap)
    requires Sourced(m, ids, num, a) && Sourced(m, ids, num, b)
    ensures Sourced(m, ids, num, a + b)
  {
  }

  lemma BodySourced(coin: Coin, m: UtxoMap, fx: seq<Effect>, ids: seq<Hash>, num: nat)
    requires Numbered(fx, ids, num)
    ensures Sourced(m, ids, num, ApplyBody(coin, m, fx))
    ensures |TouchBody(coin, m, fx)| == |fx|
  {
    TouchesLength(m, fx);
    TouchesLength(m + AllMade(fx), fx);
    ApplySourced(m, fx, ids, num);
    AllMadeSourced(m, fx, ids, num);
    SourcedUnion(m, ids, num, m, AllMade(fx));
    SourcedLess(m, ids, num, m + AllMade(fx), Elems(AllSpent(fx)));
  }

  lemma SourcedLess(m: UtxoMap, ids: seq<Hash>, num: nat, a: UtxoMap, gone: set<Outpoint>)
    requires Sourced(m, ids, num, a)
    ensures Sourced(m, ids, num, a - gone)
  {
  }

  /** The shape of a replayed index: numbers, ids and counts agree. */
  ghost predicate Coherent(ix: Index, blocks: nat) {
    && |ix.touches| == |ix.txids|
    && |ix.txCounts| == |ix.undos| == blocks
    && CountsOk(ix.txCounts, |ix.txids|)
    && Numbers(ix.utxos, ix.txids)
  }

  /** Cumulative counts: non-decreasing, ending at the total. */
  ghost predicate CountsOk(counts: seq<nat>, total: nat) {
    && (forall i, j :: 0 <= i <= j < |counts| ==> counts[i] <= counts[j])
    && total == (if counts == [] then 0 else counts[|counts| - 1])
  }

  /** Every entry carries the number of the transaction that made it. */
  ghost predicate Numbers(m: UtxoMap, ids: seq<Hash>) {
    forall o :: o in m ==> m[o].txNum < |ids| && ids[m[o].txNum] == o.hash
  }

  lemma SourcedNumbers(m: UtxoMap, old1: seq<Hash>, ids: seq<Hash>, r: UtxoMap)
    requires Numbers(m, old1) && Sourced(m, ids, |old1|, r)
    ensures Numbers(r, old1 + ids)
  {
  }

  lemma {:induction false} ReplayCoherent(coin: Coin, chain: seq<Block>)
    ensures Coherent(Replay(coin, chain), |chain|)
  {
    hide Numbers, CountsOk, ApplyBlock;
    if chain == [] {
      NoneCoherent();
    } else {
      var k := |chain| - 1;
      ReplayCoherent(coin, chain[..k]);
      BlockCoherent(coin, Replay(coin, chain[..k]), k, chain[k]);
    }
  }

  lemma NoneCoherent()
    ensures Coherent(EMPTY_INDEX, 0)
  {
  }

  /** One more block keeps the index coherent. */
  lemma BlockCoherent(coin: Coin, ix: Index, n: nat, b: Block)
    requires Coherent(ix, n)
    ensures Coherent(ApplyBlock(coin, ix, n, b), n + 1)
  {
    hide Numbers, CountsOk, Sourced, Numbered, Effects, ApplyBody, UndoBody, TouchBody;
    var fx, ids := Effects(coin, n, b.txs, |ix.txids|), TxIds(b.txs);
    EffectsNumbered(coin, n, b.txs, |ix.txids|);
    EffectsAt(coin, n, b.txs, |ix.txids|, 0);
    BodySourced(coin, ix.utxos, fx, ids, |ix.txids|);
    SourcedNumbers(ix.utxos, ix.txids, ids, ApplyBody(coin, ix.utxos, fx));
    CountsNext(ix.txCounts, |ix.txids|, |b.txs|);
  }

  lemma CountsNext(counts: seq<nat>, total: nat, more: nat)
    requires CountsOk(counts, total)
    ensures CountsOk(counts + [total + more], total + more)
  {
  }

  ghost predicate Extends(a: Index, b: Index) {
    a.touches <= b.touches && a.txids <= b.txids && a.txCounts <= b.txCounts && a.undos <= b.undos
  }

  lemma {:induction false} ReplayPrefix(coin: Coin, chain: seq<Block>, k: nat)
    requires k <= |chain|
    ensures Extends(Replay(coin, chain[..k]), Replay(coin, chain))
  {
    if k == |chain| {
      assert chain[..k] == chain;
    } else {
      var n := |chain| - 1;
      assert chain[..n][..k] == chain[..k];
      ReplayPrefix(coin, chain[..n], k);
    }
  }

  lemma ReplayStep(coin: Coin, chain: seq<Block>, b: Block)
    ensures Replay(coin, chain + [b]) == ApplyBlock(coin, Replay(coin, chain), |chain|, b)
    ensures ValidChain(coin, chain + [b]) <==> ValidChain(coin, chain) && ValidNext(coin, chain, b)
  {
    var c := chain + [b];
    assert c[..|c| - 1] == chain;
  }

  lemma {:induction false} ValidPrefix(coin: Coin, chain: seq<Block>, k: nat)
    requires k <= |chain| && ValidChain(coin, chain)
    ensures ValidChain(coin, chain[..k])
  {
    if k == |chain| {
      assert chain[..k] == chain;
    } else {
      var n := |chain| - 1;
      assert chain[..n][..k] == chain[..k];
      ValidPrefix(coin, chain[..n], k);
    }
  }

  // ---- the two processing orders ----

  /** On a block in topological order the outputs-first order gives the same
      map, the same undo record and the same touched addresses. */
  lemma {:induction false} LtorAgrees(m: UtxoMap, fx: seq<Effect>)
    requires ValidInOrder(m, fx) && Fresh(m, fx)
    ensures ValidLtor(m, fx)
    ensures ApplyLtor(m, fx) == Apply(m, fx)
    ensures UndoLtor(m, fx) == Undo(m, fx)
    ensures TouchesLtor(m, fx) == Touches(m, fx)
  {
    if fx == [] {
      LtorNone(m);
    } else {
      hide Elems, Values, Touch, NoDup;
      var k := |fx| - 1;
      var pre, e := fx[..k], fx[k];
      LtorAgrees(m, pre);
      ElemsConcat(AllSpent(pre), e.spent);
      LtorMapStep(m, AllMade(pre), Elems(AllSpent(pre)), Elems(e.spent), e.made);
      NoDupConcat(AllSpent(pre), e.spent);
      ValuesConcat(m + AllMade(fx), AllSpent(pre), e.spent);
      ElemsAre(AllSpent(pre));
      ElemsAre(e.spent);
      ValuesSame(m + AllMade(fx), m + AllMade(pre), AllSpent(pre));
      ValuesSame(m + AllMade(fx), Apply(m, pre), e.spent);
      TouchesSame(m + AllMade(fx), m + AllMade(pre), pre);
      TouchSame(m + AllMade(fx), Apply(m, pre), e);
    }
  }

  lemma LtorNone(m: UtxoMap)
    ensures ValidLtor(m, []) && ApplyLtor(m, []) == m && UndoLtor(m, []) == [] && TouchesLtor(m, []) == []
  {
  }

  lemma ElemsAre(ps: seq<Outpoint>)
    ensures forall o :: o in ps <==> o in Elems(ps)
  {
  }

  lemma ElemsConcat(a: seq<Outpoint>, b: seq<Outpoint>)
    ensures Elems(a + b) == Elems(a) + Elems(b)
  {
  }

  lemma LtorMapStep(m: UtxoMap, before: UtxoMap, gone: set<Outpoint>, spent: set<Outpoint>, made: UtxoMap)
    requires made.Keys !! before.Keys && made.Keys !! m.Keys
    requires gone <= (m + before).Keys && spent <= ((m + before) - gone).Keys
    ensures (((m + before) - gone) - spent) + made == (m + (before + made)) - (gone + spent)
    ensures forall o :: o in gone ==> Get(m + (before + made), o) == Get(m + before, o)
    ensures forall o :: o in spent ==> Get(m + (before + made), o) == Get((m + before) - gone, o)
    ensures gone !! spent
  {
  }

  lemma NoDupConcat(a: seq<Outpoint>, b: seq<Outpoint>)
    requires NoDup(a) && NoDup(b) && Elems(a) !! Elems(b)
    ensures NoDup(a + b)
  {
    forall i, j | 0 <= i < j < |a + b|
      ensures (a + b)[i] != (a + b)[j]
    {
      if i < |a| <= j {
        assert a[i] in Elems(a) && b[j - |a|] in Elems(b);
      }
    }
  }

  /** What a set of effects makes, when no two make the same outpoint. */
  lemma {:induction false} AllMadeHas(fx: seq<Effect>, o: Outpoint)
    ensures o in AllMade(fx) <==> exists i :: 0 <= i < |fx| && o in fx[i].made
    ensures Apart(fx) ==> forall i :: 0 <= i < |fx| && o in fx[i].made ==> AllMade(fx)[o] == fx[i].made[o]
  {
    if fx != [] {
      var k := |fx| - 1;
      AllMadeHas(fx[..k], o);
      if i :| 0 <= i < |fx| && o in fx[i].made {
        if i < k {
          assert o in fx[..k][i].made;
        }
      }
    }
  }

  lemma {:induction false} ApartPairs(fx: seq<Effect>)
    ensures Apart(fx) <==> forall i, j :: 0 <= i < j < |fx| ==> fx[i].made.Keys !! fx[j].made.Keys
  {
    if fx != [] {
      var k := |fx| - 1;
      var last := fx[k].made;
      ApartPairs(fx[..k]);
      if Apart(fx) {
        forall i, j | 0 <= i < j < |fx|
          ensures fx[i].made.Keys !! fx[j].made.Keys
        {
          if j < k {
            assert fx[..k][i].made.Keys !! fx[..k][j].made.Keys;
          } else {
            forall o | o in last
              ensures o !in fx[i].made
            {
              AllMadeHas(fx[..k], o);
              assert fx[..k][i] == fx[i];
            }
          }
        }
      }
      if forall i, j :: 0 <= i < j < |fx| ==> fx[i].made.Keys !! fx[j].made.Keys {
        forall o | o in last
          ensures o !in AllMade(fx[..k])
        {
          AllMadeHas(fx[..k], o);
        }
      }
    }
  }

  // ---- any order of the same transactions ----

  /** What an effect says apart from transaction numbers. */
  datatype Plain = Plain(spent: seq<Outpoint>, made: map<Outpoint, (HashX, nat)>)

  ghost function Unnumbered(m: UtxoMap): map<Outpoint, (HashX, nat)> {
    map o | o in m :: (m[o].hashX, m[o].value)
  }

  ghost function PlainOf(e: Effect): Plain {
    Plain(e.spent, Unnumbered(e.made))
  }

  ghost function Plains(fx: seq<Effect>): seq<Plain> {
    if fx == [] then [] else Plains(fx[..|fx| - 1]) + [PlainOf(fx[|fx| - 1])]
  }

  lemma {:induction false} PlainsAt(fx: seq<Effect>, i: nat)
    requires i < |fx|
    ensures |Plains(fx)| == |fx| && Plains(fx)[i] == PlainOf(fx[i])
  {
    var k := |fx| - 1;
    if k > 0 {
      PlainsAt(fx[..k], if i < k then i else 0);
    } else {
      assert fx[..k] == [];
    }
  }

  lemma PlainsLength(fx: seq<Effect>)
    ensures |Plains(fx)| == |fx|
  {
    if fx != [] {
      PlainsAt(fx, 0);
    }
  }

  ghost function PlainSpent(ps: seq<Plain>): seq<Outpoint> {
    if ps == [] then [] else PlainSpent(ps[..|ps| - 1]) + ps[|ps| - 1].spent
  }

  lemma {:induction false} PlainSpentSame(fx: seq<Effect>)
    ensures PlainSpent(Plains(fx)) == AllSpent(fx)
  {
    if fx != [] {
      var k := |fx| - 1;
      PlainSpentSame(fx[..k]);
      assert Plains(fx)[..|Plains(fx)| - 1] == Plains(fx[..k]);
    }
  }

  lemma {:induction false} PlainSpentConcat(a: seq<Plain>, b: seq<Plain>)
    ensures PlainSpent(a + b) == PlainSpent(a) + PlainSpent(b)
  {
    if b == [] {
      assert a + b == a;
    } else {
      var k := |b| - 1;
      FrontOfJoin(a, b);
      PlainSpentConcat(a, b[..k]);
    }
  }

  lemma MultisetPick<T>(x: seq<T>, y: seq<T>, z: seq<T>)
    ensures multiset((x + y) + z) == multiset(x + z) + multiset(y)
  {
    assert multiset((x + y) + z) == multiset(x + y) + multiset(z);
    assert multiset(x + y) == multiset(x) + multiset(y);
    assert multiset(x + z) == multiset(x) + multiset(z);
  }

  lemma PickSpent(a: seq<Plain>, i: nat)
    requires i < |a|
    ensures multiset(PlainSpent(a)) == multiset(PlainSpent(a[..i] + a[i + 1..])) + multiset(a[i].spent)
  {
    hide PlainSpent;
    var p, q, r := a[..i], [a[i]], a[i + 1..];
    assert a == (p + q) + r;
    PlainSpentConcat(p + q, r);
    PlainSpentConcat(p, q);
    PlainSpentConcat(p, r);
    PlainSpentOne(a[i]);
    MultisetPick(PlainSpent(p), a[i].spent, PlainSpent(r));
  }

  lemma PlainSpentOne(p: Plain)
    ensures PlainSpent([p]) == p.spent
  {
  }

  lemma {:induction false} PermutedSpent(a: seq<Plain>, b: seq<Plain>)
    requires multiset(a) == multiset(b)
    ensures multiset(PlainSpent(a)) == multiset(PlainSpent(b))
  {
    if b == [] {
      assert |multiset(a)| == |a|;
    } else {
      var k := |b| - 1;
      var i := RemoveLast(a, b);
      PermutedSpent(a[..i] + a[i + 1..], b[..k]);
      PickSpent(a, i);
    }
  }

  lemma RemoveLast<T(!new)>(a: seq<T>, b: seq<T>) returns (i: nat)
    requires multiset(a) == multiset(b) && b != []
    ensures i < |a| && a[i] == b[|b| - 1]
    ensures multiset(a[..i] + a[i + 1..]) == multiset(b[..|b| - 1])
  {
    var k := |b| - 1;
    assert b == b[..k] + [b[k]];
    assert multiset(b) == multiset(b[..k]) + multiset{b[k]};
    assert b[k] in multiset(a);
    i :| 0 <= i < |a| && a[i] == b[k];
    assert a == (a[..i] + [a[i]]) + a[i + 1..];
    assert multiset(a) == multiset(a[..i] + [a[i]]) + multiset(a[i + 1..]);
    assert multiset(a) == multiset(a[..i]) + multiset{a[i]} + multiset(a[i + 1..]);
    assert multiset(a[..i] + a[i + 1..]) == multiset(a[..i]) + multiset(a[i + 1..]);
    var x := multiset(a[..i]) + multiset(a[i + 1..]);
    assert x + multiset{b[k]} == multiset(b[..k]) + multiset{b[k]};
    assert (x + multiset{b[k]}) - multiset{b[k]} == x;
  }

  ghost predicate MadeApart(a: seq<Plain>) {
    forall i, j :: 0 <= i < j < |a| ==> a[i].made.Keys !! a[j].made.Keys
  }

  lemma {:induction false} PermutedApart(a: seq<Plain>, b: seq<Plain>)
    requires multiset(a) == multiset(b) && MadeApart(a)
    ensures MadeApart(b)
  {
    if b != [] {
      var k := |b| - 1;
      var i := RemoveLast(a, b);
      var rest := a[..i] + a[i + 1..];
      PermutedApart(rest, b[..k]);
      forall j | 0 <= j < k
        ensures b[j].made.Keys !! b[k].made.Keys
      {
        assert b[j] == b[..k][j];
        assert b[j] in multiset(b[..k]);
        assert b[j] in multiset(rest);
        var p :| 0 <= p < |rest| && rest[p] == b[j];
        assert rest[p] == (if p < i then a[p] else a[p + 1]);
      }
    }
  }

  lemma PermutedMade(a: seq<Effect>, b: seq<Effect>)
    requires multiset(Plains(a)) == multiset(Plains(b)) && MadeApart(Plains(a))
    ensures Apart(b) && Unnumbered(AllMade(a)) == Unnumbered(AllMade(b))
  {
    hide MadeApart, Apart, AllMade, Plains, Unnumbered;
    PermutedApart(Plains(a), Plains(b));
    ApartPlain(a);
    ApartPlain(b);
    UnnumberedHas(AllMade(a));
    UnnumberedHas(AllMade(b));
    forall o
      ensures o in AllMade(a) <==> o in AllMade(b)
      ensures o in AllMade(a) ==> Unnumbered(AllMade(a))[o] == Unnumbered(AllMade(b))[o]
    {
      MadeCarries(a, b, o);
      MadeCarries(b, a, o);
    }
    assert Unnumbered(AllMade(a)) == Unnumbered(AllMade(b));
  }

  lemma UnnumberedHas(m: UtxoMap)
    ensures Unnumbered(m).Keys == m.Keys
  {
  }

  lemma ApartPlain(a: seq<Effect>)
    ensures MadeApart(Plains(a)) <==> Apart(a)
  {
    ApartPairs(a);
    forall i | 0 <= i < |a|
      ensures |Plains(a)| == |a| && Plains(a)[i].made.Keys == a[i].made.Keys
    {
      PlainsAt(a, i);
    }
    if a == [] {
      assert Plains(a) == [];
    }
  }

  lemma MadeCarries(a: seq<Effect>, b: seq<Effect>, o: Outpoint)
    requires multiset(Plains(a)) == multiset(Plains(b))
    requires Apart(a) && Apart(b)
    ensures o in AllMade(a) ==>
      o in AllMade(b) && Unnumbered(AllMade(b))[o] == Unnumbered(AllMade(a))[o]
  {
    AllMadeHas(a, o);
    AllMadeHas(b, o);
    if o in AllMade(a) {
      var i :| 0 <= i < |a| && o in a[i].made;
      PlainsAt(a, i);
      assert Plains(a)[i] in multiset(Plains(a));
      assert Plains(a)[i] in multiset(Plains(b));
      var j :| 0 <= j < |Plains(b)| && Plains(b)[j] == Plains(a)[i];
      PlainsLength(b);
      PlainsAt(b, j);
      assert Unnumbered(a[i].made) == Unnumbered(b[j].made);
      assert o in Unnumbered(a[i].made);
      assert o in b[j].made;
    }
  }

  /** Reordering the transactions of a block changes only transaction numbers. */
  lemma LtorOrderIrrelevant(m: UtxoMap, a: seq<Effect>, b: seq<Effect>)
    requires multiset(Plains(a)) == multiset(Plains(b)) && ValidLtor(m, a)
    ensures ValidLtor(m, b)
    ensures Unnumbered(ApplyLtor(m, a)) == Unnumbered(ApplyLtor(m, b))
  {
    PlainSpentSame(a);
    PlainSpentSame(b);
    PermutedSpent(Plains(a), Plains(b));
    SameElems(AllSpent(a), AllSpent(b));
    ApartPlain(a);
    PermutedMade(a, b);
    UnnumberedKeys(AllMade(a), AllMade(b));
    UnnumberedApply(m, AllMade(a), AllMade(b), Elems(AllSpent(a)));
  }

  lemma SameElems(a: seq<Outpoint>, b: seq<Outpoint>)
    requires multiset(a) == multiset(b)
    ensures Elems(a) == Elems(b) && (NoDup(a) ==> NoDup(b))
  {
    NoDupIsMultiplicityOne(a);
    NoDupIsMultiplicityOne(b);
    assert forall o :: o in a <==> o in multiset(a);
    assert forall o :: o in b <==> o in multiset(b);
  }

  lemma UnnumberedKeys(a: UtxoMap, b: UtxoMap)
    requires Unnumbered(a) == Unnumbered(b)
    ensures a.Keys == b.Keys
  {
    UnnumberedHas(a);
    UnnumberedHas(b);
  }

  lemma UnnumberedApply(m: UtxoMap, a: UtxoMap, b: UtxoMap, s: set<Outpoint>)
    requires Unnumbered(a) == Unnumbered(b)
    ensures Unnumbered((m + a) - s) == Unnumbered((m + b) - s)
  {
    UnnumberedKeys(a, b);
    forall o | o in a
      ensures a[o].hashX == b[o].hashX && a[o].value == b[o].value
    {
      assert Unnumbered(a)[o] == Unnumbered(b)[o];
    }
  }

  ghost function PlainTx(coin: Coin, ht: nat, tx: Tx): Plain {
    PlainOf(EffectOf(coin, ht, tx, 0))
  }

  ghost function PlainTxs(coin: Coin, ht: nat, txs: seq<Tx>): seq<Plain> {
    if txs == [] then [] else PlainTxs(coin, ht, txs[..|txs| - 1]) + [PlainTx(coin, ht, txs[|txs| - 1])]
  }

  lemma PlainNumberFree(coin: Coin, ht: nat, tx: Tx, num: nat)
    ensures PlainOf(EffectOf(coin, ht, tx, num)) == PlainTx(coin, ht, tx)
  {
    var n := |tx.outputs|;
    forall o
      ensures o in Made(coin, ht, tx, num, n) <==> o in Made(coin, ht, tx, 0, n)
      ensures o in Made(coin, ht, tx, num, n) && o in Made(coin, ht, tx, 0, n) ==>
        Unnumbered(Made(coin, ht, tx, num, n))[o] == Unnumbered(Made(coin, ht, tx, 0, n))[o]
    {
      MadeHas(coin, ht, tx, num, n, o);
      MadeHas(coin, ht, tx, 0, n, o);
    }
  }

  lemma {:induction false} PlainsOfEffects(coin: Coin, ht: nat, txs: seq<Tx>, num: nat)
    ensures Plains(Effects(coin, ht, txs, num)) == PlainTxs(coin, ht, txs)
  {
    hide EffectOf, PlainOf;
    if txs != [] {
      var k := |txs| - 1;
      PlainsOfEffects(coin, ht, txs[..k], num);
      PlainNumberFree(coin, ht, txs[k], num + k);
      PlainsAppend(Effects(coin, ht, txs[..k], num), EffectOf(coin, ht, txs[k], num + k));
    }
  }

  lemma PlainsAppend(fx: seq<Effect>, e: Effect)
    ensures Plains(fx + [e]) == Plains(fx) + [PlainOf(e)]
  {
    var all := fx + [e];
    assert all[..|all| - 1] == fx;
  }

  lemma {:induction false} PlainTxsConcat(coin: Coin, ht: nat, a: seq<Tx>, b: seq<Tx>)
    ensures PlainTxs(coin, ht, a + b) == PlainTxs(coin, ht, a) + PlainTxs(coin, ht, b)
  {
    hide PlainTx;
    if b == [] {
      assert a + b == a;
    } else {
      var k := |b| - 1;
      assert (a + b)[..|a| + k] == a + b[..k];
      PlainTxsConcat(coin, ht, a, b[..k]);
    }
  }

  lemma PickPlain(coin: Coin, ht: nat, a: seq<Tx>, i: nat)
    requires i < |a|
    ensures multiset(PlainTxs(coin, ht, a))
         == multiset(PlainTxs(coin, ht, a[..i] + a[i + 1..])) + multiset{PlainTx(coin, ht, a[i])}
  {
    hide PlainTx, PlainTxs;
    var p, q, r := a[..i], [a[i]], a[i + 1..];
    assert a == (p + q) + r;
    PlainTxsConcat(coin, ht, p + q, r);
    PlainTxsConcat(coin, ht, p, q);
    PlainTxsConcat(coin, ht, p, r);
    PlainTxsOne(coin, ht, a[i]);
    MultisetPick(PlainTxs(coin, ht, p), [PlainTx(coin, ht, a[i])], PlainTxs(coin, ht, r));
  }

  lemma PlainTxsOne(coin: Coin, ht: nat, tx: Tx)
    ensures PlainTxs(coin, ht, [tx]) == [PlainTx(coin, ht, tx)]
  {
    hide PlainTx;
    assert PlainTxs(coin, ht, []) == [];
  }

  lemma {:induction false} PermutedPlains(coin: Coin, ht: nat, a: seq<Tx>, b: seq<Tx>)
    requires multiset(a) == multiset(b)
    ensures multiset(PlainTxs(coin, ht, a)) == multiset(PlainTxs(coin, ht, b))
  {
    if b == [] {
      assert |multiset(a)| == |a|;
    } else {
      var k := |b| - 1;
      var i := RemoveLast(a, b);
      PermutedPlains(coin, ht, a[..i] + a[i + 1..], b[..k]);
      PickPlain(coin, ht, a, i);
    }
  }

  /** For an outputs-first coin the order of transactions in a block matters
      only for transaction numbers. */
  lemma BlockOrderIrrelevant(coin: Coin, ht: nat, m: UtxoMap, a: seq<Tx>, b: seq<Tx>, num: nat)
    requires multiset(a) == multiset(b) && ValidLtor(m, Effects(coin, ht, a, num))
    ensures ValidLtor(m, Effects(coin, ht, b, num))
    ensures Unnumbered(ApplyLtor(m, Effects(coin, ht, a, num)))
         == Unnumbered(ApplyLtor(m, Effects(coin, ht, b, num)))
  {
    PermutedPlains(coin, ht, a, b);
    PlainsOfEffects(coin, ht, a, num);
    PlainsOfEffects(coin, ht, b, num);
    LtorOrderIrrelevant(m, Effects(coin, ht, a, num), Effects(coin, ht, b, num));
  }
}
