/** The daemon's mempool and its index by address. */
module Mempool {
  import opened Types
  import opened Ledger
  import opened Totals

  datatype Pair = Pair(hashX: HashX, value: nat)

  /** A mempool transaction; its input pairs are known once it is accepted. */
  datatype MemTx = MemTx(prevouts: seq<Outpoint>, inPairs: seq<Pair>, outPairs: seq<Pair>, fee: int, size: nat)

  type TxMap = map<Hash, MemTx>
  type Found = map<Outpoint, Option<Pair>>

  const CHUNK := 200
  const MAX_ITERATIONS := 5

  function SumOf(ps: seq<Pair>): nat {
    if ps == [] then 0 else SumOf(ps[..|ps| - 1]) + ps[|ps| - 1].value
  }

  function AddressesOf(ps: seq<Pair>): set<HashX> {
    set p | p in ps :: p.hashX
  }

  /** The addresses a transaction touches. */
  function Touching(tx: MemTx): set<HashX> {
    AddressesOf(tx.inPairs) + AddressesOf(tx.outPairs)
  }

  /** The true outputs of every transaction, by id. */
  type Outputs = Hash -> seq<Pair>

  ghost predicate InRange(outputs: Outputs, o: Outpoint) {
    o.idx < |outputs(o.hash)|
  }

  /** The true pair of an outpoint. */
  ghost function TruePair(outputs: Outputs, o: Outpoint): Pair
    requires InRange(outputs, o)
  {
    outputs(o.hash)[o.idx]
  }

  /** A transaction as deserialized: its outputs are its own, its prevouts exist. */
  ghost predicate Sound(outputs: Outputs, hash: Hash, tx: MemTx) {
    tx.outPairs == outputs(hash) && forall i :: 0 <= i < |tx.prevouts| ==> InRange(outputs, tx.prevouts[i])
  }

  ghost predicate AllSound(outputs: Outputs, m: TxMap) {
    forall h :: h in m ==> Sound(outputs, h, m[h])
  }

  /** An accepted transaction: its input pairs are exactly its prevouts' and its fee is not negative. */
  ghost predicate Accepted(outputs: Outputs, hash: Hash, tx: MemTx) {
    && Sound(outputs, hash, tx)
    && InsAre(outputs, tx.prevouts, tx.inPairs)
    && tx.fee == FeeOf(tx.inPairs, tx.outPairs)
  }

  ghost predicate InsAre(outputs: Outputs, prevouts: seq<Outpoint>, pairs: seq<Pair>) {
    && |pairs| == |prevouts|
    && forall i :: 0 <= i < |pairs| ==> InRange(outputs, prevouts[i]) && pairs[i] == TruePair(outputs, prevouts[i])
  }

  function FeeOf(ins: seq<Pair>, outs: seq<Pair>): int {
    if SumOf(ins) >= SumOf(outs) then SumOf(ins) - SumOf(outs) else 0
  }

  ghost predicate AllAccepted(outputs: Outputs, txs: TxMap) {
    forall h :: h in txs ==> Accepted(outputs, h, txs[h])
  }

  /** The index has exactly the transactions touching each address, and no empty sets. */
  ghost predicate Indexed(txs: TxMap, hashXs: map<HashX, set<Hash>>) {
    && (forall a :: a in hashXs ==> hashXs[a] != {})
    && (forall a, h :: h in Under(hashXs, a) <==> h in txs && a in Touching(txs[h]))
  }

  function Under(hashXs: map<HashX, set<Hash>>, a: HashX): set<Hash> {
    if a in hashXs then hashXs[a] else {}
  }

  ghost function One(c: bool, hash: Hash): set<Hash> {
    if c then {hash} else {}
  }

  /** What lookups found is true. */
  ghost predicate FoundOk(outputs: Outputs, found: Found) {
    forall o :: o in found && found[o].Some? ==> InRange(outputs, o) && found[o].value == TruePair(outputs, o)
  }

  ghost predicate Known(found: Found, o: Outpoint) {
    o in found && found[o].Some?
  }

  /** Every input is a found output or an output of one of the given transactions. */
  ghost predicate Ready(tx: MemTx, found: Found, hashes: set<Hash>) {
    forall i :: 0 <= i < |tx.prevouts| ==> Known(found, tx.prevouts[i]) || tx.prevouts[i].hash in hashes
  }

  /** Transactions differ from their deserialized form only in what acceptance fills in. */
  ghost predicate SameTx(a: MemTx, b: MemTx) {
    a.prevouts == b.prevouts && a.outPairs == b.outPairs && a.size == b.size
  }

  function PrevoutsOf(m: TxMap): set<Outpoint> {
    set h, o | h in m && o in m[h].prevouts :: o
  }

  /** Nothing was dropped or changed. */
  ghost predicate Grew(before: TxMap, after: TxMap) {
    before.Keys <= after.Keys && forall h :: h in before ==> after[h] == before[h]
  }

  ghost function TouchedBy(m: TxMap): set<HashX> {
    set h, a | h in m && a in Touching(m[h]) :: a
  }

  /** A pass over txMap, `todo` still to come: each transaction was accepted, or
      deferred because it was not ready; the prevouts of the accepted are spent. */
  ghost predicate PassSoFar(txs0: TxMap, txs: TxMap, txMap: TxMap, found: Found, deferred: TxMap, unspent: Found,
                            todo: set<Hash>) {
    && PassKeys(txs0.Keys, txs.Keys, txMap.Keys, deferred.Keys, todo)
    && PassTxs(txs0, txs, txMap, found, deferred)
    && unspent == found - PrevoutsOf(txs - txs0.Keys)
  }

  ghost predicate PassKeys(base: set<Hash>, now: set<Hash>, all: set<Hash>, deferred: set<Hash>, todo: set<Hash>) {
    deferred <= all - todo && now == base + ((all - todo) - deferred)
  }

  ghost predicate PassTxs(txs0: TxMap, txs: TxMap, txMap: TxMap, found: Found, deferred: TxMap) {
    && (forall h :: h in txs0 ==> h in txs && txs[h] == txs0[h])
    && (forall h :: h in txMap && h in txs ==> SameTx(txs[h], txMap[h]))
    && (forall h :: h in deferred ==> h in txMap && deferred[h] == txMap[h] && !Ready(txMap[h], found, txs0.Keys))
  }

  ghost predicate PassDone(txs0: TxMap, txs: TxMap, txMap: TxMap, found: Found, deferred: TxMap, unspent: Found) {
    PassSoFar(txs0, txs, txMap, found, deferred, unspent, {})
  }

  class MemPool {
    var txs: TxMap
    var hashXs: map<HashX, set<Hash>>
    ghost const outputs: Outputs

    constructor (ghost outputs: Outputs)
      ensures Valid() && txs == map[] && this.outputs == outputs
    {
      txs, hashXs := map[], map[];
      this.outputs := outputs;
    }

    ghost predicate Valid()
      reads this
    {
      AllAccepted(outputs, txs) && Indexed(txs, hashXs)
    }

    /** The pairs of a transaction's inputs; None if one is not found yet. */
    method ResolveInputs(tx: MemTx, found: Found, ghost hash: Hash) returns (r: Option<seq<Pair>>)
      requires AllAccepted(outputs, txs) && Sound(outputs, hash, tx) && FoundOk(outputs, found)
      ensures r.Some? <==> Ready(tx, found, txs.Keys)
      ensures r.Some? ==> InsAre(outputs, tx.prevouts, r.value)
    {
      hide Indexed;
      var inPairs: seq<Pair> := [];
      for i := 0 to |tx.prevouts|
        invariant InsAre(outputs, tx.prevouts[..i], inPairs)
        invariant forall j :: 0 <= j < i ==> Known(found, tx.prevouts[j]) || tx.prevouts[j].hash in txs.Keys
      {
        var prevout := tx.prevouts[i];
        assert InRange(outputs, prevout);
        var utxo;
        if prevout in found && found[prevout].Some? {
          utxo := found[prevout].value;
        } else {
          if prevout.hash !in txs {
            assert !Known(found, tx.prevouts[i]);
            return None;
          }
          assert Accepted(outputs, prevout.hash, txs[prevout.hash]);
          utxo := txs[prevout.hash].outPairs[prevout.idx];
        }
        InsPush(outputs, tx.prevouts, i, inPairs, utxo);
        inPairs := inPairs + [utxo];
      }
      assert tx.prevouts[..|tx.prevouts|] == tx.prevouts;
      r := Some(inPairs);
    }

    /** Put a transaction under the addresses of the given pairs. */
    method AddTo(hash: Hash, pairs: seq<Pair>, touched0: set<HashX>) returns (touched: set<HashX>)
      modifies this`hashXs
      ensures touched == touched0 + AddressesOf(pairs)
      ensures forall a :: Under(hashXs, a) == Under(old(hashXs), a) + One(a in AddressesOf(pairs), hash)
      ensures (forall a :: a in old(hashXs) ==> old(hashXs)[a] != {}) ==> forall a :: a in hashXs ==> hashXs[a] != {}
    {
      hide AddressesOf;
      touched := touched0;
      NoAddresses(pairs);
      for i := 0 to |pairs|
        invariant touched == touched0 + AddressesOf(pairs[..i])
        invariant forall a :: Under(hashXs, a) == Under(old(hashXs), a) + One(a in AddressesOf(pairs[..i]), hash)
        invariant (forall a :: a in old(hashXs) ==> old(hashXs)[a] != {}) ==>
          forall a :: a in hashXs ==> hashXs[a] != {}
      {
        var a := pairs[i].hashX;
        AddressesPush(pairs, i);
        touched := touched + {a};
        hashXs := hashXs[a := Under(hashXs, a) + {hash}];
      }
      assert pairs[..|pairs|] == pairs;
    }

    /** Accept a transaction whose inputs have been resolved. */
    method Accept(hash: Hash, tx: MemTx, inPairs: seq<Pair>, touched0: set<HashX>) returns (touched: set<HashX>)
      requires Valid() && hash !in txs && Sound(outputs, hash, tx) && InsAre(outputs, tx.prevouts, inPairs)
      modifies this
      ensures Valid() && txs.Keys == old(txs).Keys + {hash} && txs - {hash} == old(txs)
      ensures SameTx(txs[hash], tx) && touched == touched0 + Touching(txs[hash])
      ensures txs[hash].inPairs == inPairs
      ensures var paid, out := SumOf(inPairs), SumOf(tx.outPairs);
        txs[hash].fee == if paid > out then paid - out else 0
    {
      hide InsAre, Sound, SumOf, AddressesOf;
      var fee := FeeOf(inPairs, tx.outPairs);
      var accepted := tx.(inPairs := inPairs, fee := fee);
      AcceptedIs(outputs, hash, tx, inPairs);
      ghost var before := hashXs;
      touched := AddTo(hash, inPairs, touched0);
      touched := AddTo(hash, tx.outPairs, touched);
      IndexPut(txs, before, hashXs, hash, accepted);
      txs := txs[hash := accepted];
      assert txs - {hash} == old(txs);
    }

    /** One pass: accept what can be accepted, defer the rest, drop the spent prevouts. */
    method AcceptTransactions(txMap: TxMap, found: Found, touched0: set<HashX>)
      returns (deferred: TxMap, unspent: Found, touched: set<HashX>)
      requires Valid() && AllSound(outputs, txMap) && FoundOk(outputs, found) && txMap.Keys !! txs.Keys
      modifies this
      ensures Valid() && old(txs).Keys <= txs.Keys
      ensures PassDone(old(txs), txs, txMap, found, deferred, unspent)
      ensures touched == touched0 + TouchedBy(txs - old(txs).Keys)
    {
      hide Indexed, AllAccepted, Ready, Sound, FoundOk;
      deferred, unspent, touched := map[], found, touched0;
      var todo := txMap.Keys;
      ghost var txs0 := txs;
      PassStart(txs, txMap, found);
      while todo != {}
        invariant todo <= txMap.Keys && Valid() && todo !! txs.Keys && txs0.Keys <= txs.Keys
        invariant PassSoFar(txs0, txs, txMap, found, deferred, unspent, todo)
        invariant touched == touched0 + TouchedBy(txs - txs0.Keys)
        decreases todo
      {
        var hash :| hash in todo;
        var tx := txMap[hash];
        SoundAt(outputs, txMap, hash);
        var inPairs := ResolveInputs(tx, found, hash);
        if inPairs.None? {
          PassDefer(txs0, txs, txMap, found, deferred, unspent, todo, hash);
          deferred := deferred[hash := tx];
        } else {
          ghost var before := txs;
          touched := Accept(hash, tx, inPairs.value, touched);
          TouchedMore(txs0, before, txs, hash);
          PassAccept(txs0, before, txs, txMap, found, deferred, unspent, todo, hash);
          unspent := unspent - (set o | o in tx.prevouts);
        }
        todo := todo - {hash};
      }
    }

    /** Drop one transaction from the index. */
    method Forget(hash: Hash, touched0: set<HashX>) returns (touched: set<HashX>)
      requires Valid() && hash in txs
      modifies this
      ensures Valid() && txs == old(txs) - {hash} && touched == touched0 + Touching(old(txs)[hash])
    {
      hide Accepted, Touching;
      var tx := txs[hash];
      var addresses := Touching(tx);
      ghost var before := hashXs;
      RemoveFrom(hash, addresses);
      IndexOut(txs, before, hashXs, hash);
      txs := txs - {hash};
      touched := touched0 + addresses;
    }

    /** Take a transaction out from under the given addresses, dropping sets left empty. */
    method RemoveFrom(hash: Hash, addresses: set<HashX>)
      requires forall a :: a in addresses ==> hash in Under(hashXs, a)
      requires forall a :: a in hashXs ==> hashXs[a] != {}
      modifies this`hashXs
      ensures forall a :: Under(hashXs, a) == Under(old(hashXs), a) - One(a in addresses, hash)
      ensures forall a :: a in hashXs ==> hashXs[a] != {}
    {
      var todo := addresses;
      while todo != {}
        invariant todo <= addresses
        invariant forall a :: Under(hashXs, a) == Under(old(hashXs), a) - One(a in addresses - todo, hash)
        invariant forall a :: a in hashXs ==> hashXs[a] != {}
        decreases todo
      {
        var a :| a in todo;
        hashXs := hashXs[a := Under(hashXs, a) - {hash}];
        if hashXs[a] == {} {
          hashXs := hashXs - {a};
        }
        todo := todo - {a};
      }
    }

    /** First, transactions that have disappeared. */
    method RemoveGone(allHashes: set<Hash>, touched0: set<HashX>) returns (touched: set<HashX>)
      requires Valid()
      modifies this
      ensures Valid() && txs == Only(old(txs), allHashes)
      ensures touched == touched0 + TouchedBy(old(txs) - allHashes)
    {
      hide AllAccepted, Indexed;
      touched := touched0;
      var todo := txs.Keys - allHashes;
      ghost var gone, before := todo, txs;
      while todo != {}
        invariant Valid() && todo <= gone && txs == before - (gone - todo)
        invariant touched == touched0 + TouchedBy(Only(before, gone - todo))
        decreases todo
      {
        var hash :| hash in todo;
        GoneStep(before, gone, todo, hash);
        touched := Forget(hash, touched);
        assert txs == before - (gone - (todo - {hash}));
        todo := todo - {hash};
      }
      assert Only(before, gone - {}) == before - allHashes;
      assert before - (gone - {}) == Only(before, allHashes);
    }

    /** Fetch a chunk of new transactions, look up the prevouts outside the
        mempool, and accept what can be accepted at once. */
    method FetchAndAccept(hashes: set<Hash>, allHashes: set<Hash>, raw: TxMap, db: map<Outpoint, Pair>,
                          touched0: set<HashX>)
      returns (deferred: TxMap, unspent: Found, touched: set<HashX>)
      requires Valid() && AllSound(outputs, raw) && DbOk(outputs, db) && hashes !! txs.Keys
      modifies this
      ensures Valid() && old(txs).Keys <= txs.Keys
      ensures PassDone(old(txs), txs, Only(raw, hashes), LookUp(db, Only(raw, hashes), allHashes), deferred, unspent)
      ensures touched == touched0 + TouchedBy(txs - old(txs).Keys)
    {
      hide Indexed, AllAccepted, PassDone, TouchedBy;
      var txMap := Only(raw, hashes);
      var found := LookUp(db, txMap, allHashes);
      assert FoundOk(outputs, found);
      deferred, unspent, touched := AcceptTransactions(txMap, found, touched0);
    }

    /** Fetch and accept all new transactions in chunks of any 200. */
    method FetchAll(newHashes: set<Hash>, allHashes: set<Hash>, raw: TxMap, db: map<Outpoint, Pair>,
                    touched0: set<HashX>)
      returns (txMap: TxMap, found: Found, touched: set<HashX>)
      requires Valid() && AllSound(outputs, raw) && DbOk(outputs, db) && newHashes !! txs.Keys
      requires ConflictFree(Only(raw, newHashes))
      modifies this
      ensures Valid() && Fetched(old(txs), txs, Only(raw, newHashes), txMap, found, db, allHashes, 0)
      ensures touched == touched0 + TouchedBy(txs - old(txs).Keys)
    {
      hide Valid, PassDone, TouchedBy, Fetched, ConflictFree, Only, LookUp, AllSound, DbOk, Grounded, InParts;
      txMap, found, touched := map[], map[], touched0;
      var todo := newHashes;
      ghost var txs0, done := txs, {};
      FetchStart(touched, txs0, raw, db, allHashes);
      PartStart(newHashes, txs.Keys);
      while todo != {}
        invariant Valid() && InParts(newHashes, done, todo, txs.Keys)
        invariant Fetched(txs0, txs, Only(raw, done), txMap, found, db, allHashes, 0)
        invariant touched == touched0 + TouchedBy(txs - txs0.Keys)
        decreases todo
      {
        var chunk := PickChunk(todo);
        var deferred, unspent;
        ghost var before := txs;
        PartFacts(newHashes, done, todo, txs.Keys, chunk);
        deferred, unspent, touched := FetchAndAccept(chunk, allHashes, raw, db, touched);
        ChunkDone(txs0, before, txs, raw, newHashes, done, chunk, db, allHashes, txMap, found, deferred, unspent,
                  touched0);
        PartStep(newHashes, done, todo, before.Keys, chunk, txs.Keys);
        txMap, found := txMap + deferred, found + unspent;
        done := done + chunk;
        todo := todo - chunk;
      }
      PartEnd(newHashes, done, txs.Keys);
    }

    /** Some of the hashes, at most 200. */
    method PickChunk(todo: set<Hash>) returns (chunk: set<Hash>)
      requires todo != {}
      ensures chunk <= todo && chunk != {} && |chunk| <= 200 && (|chunk| < 200 ==> chunk == todo)
    {
      chunk := {};
      while chunk != todo && |chunk| < CHUNK
        invariant chunk <= todo && |chunk| <= CHUNK
        decreases |todo - chunk|
      {
        Missing(chunk, todo);
        var h :| h in todo && h !in chunk;
        assert todo - (chunk + {h}) < todo - chunk;
        chunk := chunk + {h};
      }
    }

    /** Bring the index in line with the daemon's list of transactions.  It is
        refused when the database is not at the mempool's height; the height is
        looked at again only after new transactions have been fetched. */
    method ProcessMempool(allHashes: set<Hash>, raw: TxMap, db: map<Outpoint, Pair>, mempoolHeight: int,
                          dbHeight: int, dbHeightAfter: int, touched0: set<HashX>)
      returns (ok: bool, deferred: TxMap, iterations: nat, touched: set<HashX>)
      requires Valid() && AllSound(outputs, raw) && DbOk(outputs, db)
      requires ConflictFree(Only(raw, allHashes - txs.Keys))
      modifies this
      ensures Valid()
      ensures ok <==> mempoolHeight == dbHeight && (allHashes <= old(txs).Keys || mempoolHeight == dbHeightAfter)
      ensures mempoolHeight != dbHeight ==> txs == old(txs)
      ensures mempoolHeight == dbHeight ==>
        var fetched, kept := Only(raw, allHashes - old(txs).Keys), Only(old(txs), allHashes);
        && txs.Keys <= kept.Keys + fetched.Keys && (forall h :: h in kept ==> h in txs && txs[h] == kept[h])
        && touched == touched0 + TouchedBy(old(txs) - allHashes) + TouchedBy(txs - kept.Keys)
        && Grounded(fetched, db, allHashes, kept.Keys, 0) <= txs.Keys
        && (ok ==>
              && Grounded(fetched, db, allHashes, kept.Keys, 5) <= txs.Keys
              && (iterations < 5 ==> Settled(fetched, db, allHashes, txs.Keys)))
    {
      hide Valid, TouchedBy, Fetched, ConflictFree, Grounded, Only, AllSound, DbOk, Settled;
      ok, deferred, iterations, touched := false, map[], 0, touched0;
      if mempoolHeight != dbHeight {
        return;
      }
      touched := RemoveGone(allHashes, touched0);
      ghost var kept := txs;
      var newHashes := allHashes - txs.Keys;
      ghost var fetched := Only(raw, newHashes);
      NewOnes(outputs, old(txs), raw, allHashes);
      NoneLeft(allHashes, old(txs).Keys);
      var found;
      deferred, found, touched := FetchAll(newHashes, allHashes, raw, db, touched);
      FetchedFacts(kept, txs, fetched, deferred, found, db, allHashes, 0);
      if newHashes != {} && mempoolHeight != dbHeightAfter {
        return;
      }
      ghost var before := txs;
      deferred, iterations, touched := AcceptRest(deferred, found, allHashes, db, touched, kept, fetched);
      TouchedJoin(touched0 + TouchedBy(old(txs) - allHashes), kept, before, txs);
      ok := true;
    }

    /** Up to five passes over what is left, as long as a pass makes progress. */
    method AcceptRest(txMap: TxMap, found0: Found, allHashes: set<Hash>, db: map<Outpoint, Pair>, touched0: set<HashX>,
                      ghost kept: TxMap, ghost fetched: TxMap)
      returns (deferred: TxMap, iterations: nat, touched: set<HashX>)
      requires Valid() && Fetched(kept, txs, fetched, txMap, found0, db, allHashes, 0)
      requires AllSound(outputs, fetched) && DbOk(outputs, db) && ConflictFree(fetched)
      modifies this
      ensures Valid() && kept.Keys <= old(txs).Keys && Grew(old(txs), txs) && Grew(kept, txs)
      ensures txs.Keys <= kept.Keys + fetched.Keys
      ensures touched == touched0 + TouchedBy(txs - old(txs).Keys)
      ensures Grounded(fetched, db, allHashes, kept.Keys, 0) <= txs.Keys
      ensures Grounded(fetched, db, allHashes, kept.Keys, MAX_ITERATIONS) <= txs.Keys
      ensures iterations < MAX_ITERATIONS ==> Settled(fetched, db, allHashes, txs.Keys)
      ensures iterations <= 5 && iterations <= |txMap| - |deferred| + 1
    {
      hide Valid, PassDone, TouchedBy, Fetched, FoundOk, ConflictFree, Grounded, AllSound, DbOk, Settled, Grew;
      deferred, iterations, touched := txMap, 0, touched0;
      var found := found0;
      ghost var start := txs;
      NothingTouched(touched, start);
      FetchedFacts(kept, txs, fetched, deferred, found, db, allHashes, 0);
      var priorCount := 0;
      while deferred != map[] && |deferred| != priorCount && iterations < MAX_ITERATIONS
        invariant Valid() && iterations <= MAX_ITERATIONS
        invariant Fetched(kept, txs, fetched, deferred, found, db, allHashes, iterations)
        invariant Grew(start, txs)
        invariant touched == touched0 + TouchedBy(txs - start.Keys)
        invariant iterations <= |txMap| - |deferred| + if |deferred| == priorCount then 1 else 0
        invariant |deferred| == priorCount && deferred != map[] ==> Settled(fetched, db, allHashes, txs.Keys)
        decreases MAX_ITERATIONS - iterations
      {
        priorCount := |deferred|;
        ghost var before, was := txs, deferred;
        var unspent;
        PassFits(outputs, kept, txs, fetched, deferred, found, db, allHashes, iterations);
        deferred, unspent, touched := AcceptTransactions(deferred, found, touched);
        IterationDone(kept, before, txs, fetched, db, allHashes, was, found, deferred, unspent, iterations);
        GrewOn(start, before, txs);
        TouchedJoin(touched0, start, before, txs);
        FewerLeft(before, txs, was, found, deferred, unspent);
        found := unspent;
        iterations := iterations + 1;
      }
      LoopLeft(kept, txs, fetched, db, allHashes, deferred, found, iterations);
      FetchedFacts(kept, txs, fetched, deferred, found, db, allHashes, iterations);
    }

    /** The unconfirmed amount for an address: what transactions pay it less what they spend of it. */
    method BalanceDelta(a: HashX) returns (value: int)
      requires Valid()
      ensures value == Balance(txs, a)
    {
      hide AllAccepted, TxDelta;
      value := 0;
      ghost var all := Under(hashXs, a);
      if a in hashXs {
        var todo := hashXs[a];
        DeltaNone(txs, a);
        while todo != {}
          invariant todo <= all && value == Total(Deltas(Only(txs, all - todo), a))
          decreases todo
        {
          var hash :| hash in todo;
          assert hash in Under(hashXs, a);
          DeltaStep(txs, a, all - todo, hash);
          assert all - (todo - {hash}) == (all - todo) + {hash};
          value := value + (ValueTo(txs[hash].outPairs, a) - ValueTo(txs[hash].inPairs, a));
          todo := todo - {hash};
        }
        assert all - {} == all;
      } else {
        DeltaNone(txs, a);
      }
      DeltaAll(txs, a, all);
    }

    /** The prevouts of the transactions touching an address: every spend of it is among them. */
    method PotentialSpends(a: HashX) returns (r: set<Outpoint>)
      requires Valid()
      ensures forall o :: o in r <==> exists h :: h in txs && a in Touching(txs[h]) && o in txs[h].prevouts
      ensures forall h, o ::
        h in txs && o in txs[h].prevouts && InRange(outputs, o) && TruePair(outputs, o).hashX == a ==> o in r
    {
      hide Touching, SpentBy;
      r := {};
      var todo := if a in hashXs then hashXs[a] else {};
      ghost var all := todo;
      assert all - todo == {};
      NoneSpent(txs);
      while todo != {}
        invariant todo <= all && r == SpentBy(txs, all - todo)
        decreases todo
      {
        var hash :| hash in todo;
        assert hash in Under(hashXs, a);
        MoreSpent(txs, all - todo, hash);
        assert all - (todo - {hash}) == (all - todo) + {hash};
        r := r + (set o | o in txs[hash].prevouts);
        todo := todo - {hash};
      }
      assert all - {} == all == Under(hashXs, a);
      SpentTouching(txs, hashXs, a);
      forall h, o | h in txs && o in txs[h].prevouts && InRange(outputs, o) && TruePair(outputs, o).hashX == a
        ensures o in r
      {
        SpendTouches(outputs, h, txs[h], o);
      }
    }
  }

  ghost function SpentBy(txs: TxMap, hashes: set<Hash>): set<Outpoint> {
    set h, o | h in hashes && h in txs && o in txs[h].prevouts :: o
  }

  lemma NoneSpent(txs: TxMap)
    ensures SpentBy(txs, {}) == {}
  {
  }

  lemma MoreSpent(txs: TxMap, hashes: set<Hash>, hash: Hash)
    requires hash in txs
    ensures SpentBy(txs, hashes + {hash}) == SpentBy(txs, hashes) + (set o | o in txs[hash].prevouts)
  {
  }

  lemma SpentTouching(txs: TxMap, hashXs: map<HashX, set<Hash>>, a: HashX)
    requires Indexed(txs, hashXs)
    ensures forall o ::
      o in SpentBy(txs, Under(hashXs, a)) <==> exists h :: h in txs && a in Touching(txs[h]) && o in txs[h].prevouts
  {
    hide Touching;
  }

  function Only(m: TxMap, hashes: set<Hash>): TxMap {
    map h | h in m && h in hashes :: m[h]
  }

  ghost predicate DbOk(outputs: Outputs, db: map<Outpoint, Pair>) {
    forall o :: o in db ==> InRange(outputs, o) && db[o] == TruePair(outputs, o)
  }

  /** Database lookups of the prevouts whose transactions are not in the mempool. */
  function LookUp(db: map<Outpoint, Pair>, m: TxMap, allHashes: set<Hash>): Found {
    map o | o in PrevoutsOf(m) && o.hash !in allHashes :: Looked(db, o)
  }

  function Looked(db: map<Outpoint, Pair>, o: Outpoint): Option<Pair> {
    if o in db then Some(db[o]) else None
  }

  /** No output is spent by two of the transactions. */
  ghost predicate ConflictFree(m: TxMap) {
    forall a, b, o :: a in m && b in m && o in m[a].prevouts && o in m[b].prevouts ==> a == b
  }

  /** Each input is an output in the database or of a transaction of the given set. */
  ghost predicate GroundedTx(tx: MemTx, db: map<Outpoint, Pair>, allHashes: set<Hash>, base: set<Hash>) {
    forall i :: 0 <= i < |tx.prevouts| ==>
      (tx.prevouts[i].hash !in allHashes && tx.prevouts[i] in db) || tx.prevouts[i].hash in base
  }

  /** New transactions whose chains of new ancestors are at most n long. */
  ghost function Grounded(m: TxMap, db: map<Outpoint, Pair>, allHashes: set<Hash>, base: set<Hash>, n: nat): set<Hash> {
    set h |
      h in m
      && GroundedTx(m[h], db, allHashes, if n == 0 then base else base + Grounded(m, db, allHashes, base, n - 1))
  }

  /** No transaction left out could be accepted. */
  ghost predicate Settled(m: TxMap, db: map<Outpoint, Pair>, allHashes: set<Hash>, have: set<Hash>) {
    forall h :: h in m && h !in have ==> !GroundedTx(m[h], db, allHashes, have)
  }

  /** Of the fetched transactions, those not accepted remain. */
  ghost predicate Remaining(txs0: TxMap, txs: TxMap, fetched: TxMap, txMap: TxMap) {
    && txs0.Keys !! fetched.Keys
    && txs0.Keys <= txs.Keys <= txs0.Keys + fetched.Keys
    && (forall h :: h in txs0 ==> h in txs && txs[h] == txs0[h])
    && txMap.Keys == fetched.Keys - txs.Keys
    && (forall h :: h in txMap ==> h in fetched && txMap[h] == fetched[h])
  }

  /** The lookups still cover what the remaining transactions spend. */
  ghost predicate Supplied(m: TxMap, found: Found, db: map<Outpoint, Pair>, allHashes: set<Hash>) {
    && (forall o :: o in found ==> o.hash !in allHashes && found[o] == Looked(db, o))
    && (forall o :: o in PrevoutsOf(m) && o.hash !in allHashes ==> o in found)
  }

  /** New transactions have been fetched, those with chains up to n accepted, and the rest remain. */
  ghost predicate Fetched(txs0: TxMap, txs: TxMap, fetched: TxMap, txMap: TxMap, found: Found, db: map<Outpoint, Pair>,
                          allHashes: set<Hash>, n: nat) {
    && Remaining(txs0, txs, fetched, txMap) && Supplied(txMap, found, db, allHashes)
    && Grounded(fetched, db, allHashes, txs0.Keys, 0) <= txs.Keys
    && Grounded(fetched, db, allHashes, txs0.Keys, n) <= txs.Keys
  }

  // ---- lemmas ----

  lemma InsPush(outputs: Outputs, prevouts: seq<Outpoint>, i: nat, pairs: seq<Pair>, p: Pair)
    requires i < |prevouts| && InsAre(outputs, prevouts[..i], pairs)
    requires InRange(outputs, prevouts[i]) && p == TruePair(outputs, prevouts[i])
    ensures InsAre(outputs, prevouts[..i + 1], pairs + [p])
  {
    forall j | 0 <= j < i
      ensures InRange(outputs, prevouts[..i + 1][j]) && (pairs + [p])[j] == TruePair(outputs, prevouts[..i + 1][j])
    {
      assert prevouts[..i + 1][j] == prevouts[..i][j];
    }
  }

  lemma NoAddresses(pairs: seq<Pair>)
    ensures AddressesOf(pairs[..0]) == {}
  {
  }

  lemma AddressesPush(pairs: seq<Pair>, i: nat)
    requires i < |pairs|
    ensures AddressesOf(pairs[..i + 1]) == AddressesOf(pairs[..i]) + {pairs[i].hashX}
  {
    assert pairs[..i + 1] == pairs[..i] + [pairs[i]];
    assert forall p :: p in pairs[..i + 1] <==> p in pairs[..i] || p == pairs[i];
  }

  lemma AcceptedIs(outputs: Outputs, hash: Hash, tx: MemTx, inPairs: seq<Pair>)
    requires Sound(outputs, hash, tx) && InsAre(outputs, tx.prevouts, inPairs)
    ensures Accepted(outputs, hash, tx.(inPairs := inPairs, fee := FeeOf(inPairs, tx.outPairs)))
  {
  }

  lemma IndexPut(txs: TxMap, before: map<HashX, set<Hash>>, after: map<HashX, set<Hash>>, hash: Hash, tx: MemTx)
    requires Indexed(txs, before) && hash !in txs && forall a :: a in after ==> after[a] != {}
    requires forall a ::
      Under(after, a) == (Under(before, a) + One(a in AddressesOf(tx.inPairs),
        hash)) + One(a in AddressesOf(tx.outPairs), hash)
    ensures Indexed(txs[hash := tx], after)
  {
    hide AddressesOf;
  }

  lemma IndexOut(txs: TxMap, before: map<HashX, set<Hash>>, after: map<HashX, set<Hash>>, hash: Hash)
    requires Indexed(txs, before) && hash in txs && forall a :: a in after ==> after[a] != {}
    requires forall a :: Under(after, a) == Under(before, a) - One(a in Touching(txs[hash]), hash)
    ensures Indexed(txs - {hash}, after)
  {
    hide Touching;
    var rest := txs - {hash};
    forall a, h
      ensures h in Under(after, a) <==> h in rest && a in Touching(rest[h])
    {
      assert h in Under(before, a) <==> h in txs && a in Touching(txs[h]);
    }
  }

  lemma SoundAt(outputs: Outputs, m: TxMap, h: Hash)
    requires AllSound(outputs, m) && h in m
    ensures Sound(outputs, h, m[h])
  {
  }

  lemma PassStart(txs: TxMap, txMap: TxMap, found: Found)
    requires txMap.Keys !! txs.Keys
    ensures PassSoFar(txs, txs, txMap, found, map[], found, txMap.Keys)
    ensures TouchedBy(txs - txs.Keys) == {}
  {
    assert txs - txs.Keys == map[];
  }

  lemma PassDefer(txs0: TxMap, txs: TxMap, txMap: TxMap, found: Found, deferred: TxMap, unspent: Found,
                  todo: set<Hash>, hash: Hash)
    requires PassSoFar(txs0, txs, txMap, found, deferred, unspent, todo) && todo <= txMap.Keys && todo !! txs.Keys
    requires hash in todo && !Ready(txMap[hash], found, txs.Keys)
    ensures PassSoFar(txs0, txs, txMap, found, deferred[hash := txMap[hash]], unspent, todo - {hash})
  {
    hide Ready, PrevoutsOf;
    ReadyMore(txMap[hash], found, txs0.Keys, txs.Keys);
  }

  lemma ReadyMore(tx: MemTx, found: Found, a: set<Hash>, b: set<Hash>)
    requires a <= b
    ensures Ready(tx, found, a) ==> Ready(tx, found, b)
  {
  }

  lemma PassAccept(txs0: TxMap, before: TxMap, txs: TxMap, txMap: TxMap, found: Found, deferred: TxMap, unspent: Found,
                   todo: set<Hash>, hash: Hash)
    requires PassSoFar(txs0, before, txMap, found, deferred, unspent, todo) && todo <= txMap.Keys && todo !! before.Keys
    requires hash in todo && txs.Keys == before.Keys + {hash} && txs - {hash} == before &&
      SameTx(txs[hash], txMap[hash])
    ensures PassSoFar(txs0, txs, txMap, found, deferred, unspent - (set o | o in txMap[hash].prevouts), todo - {hash})
  {
    hide Ready, PrevoutsOf, PassTxs, PassKeys;
    KeptIn(before, txs, hash);
    KeysAccept(txs0.Keys, before.Keys, txMap.Keys, deferred.Keys, todo, hash);
    TxsAccept(txs0, before, txs, txMap, found, deferred, hash);
    var a, b := before - txs0.Keys, txs - txs0.Keys;
    assert b == a[hash := txs[hash]];
    PrevoutsPut(a, hash, txs[hash]);
    SpendMore(found, PrevoutsOf(a), (set o | o in txMap[hash].prevouts));
  }

  lemma KeysAccept(base: set<Hash>, now: set<Hash>, all: set<Hash>, deferred: set<Hash>, todo: set<Hash>, hash: Hash)
    requires PassKeys(base, now, all, deferred, todo) && hash in todo && todo <= all && todo !! now
    ensures PassKeys(base, now + {hash}, all, deferred, todo - {hash}) && hash !in base
  {
  }

  lemma TxsAccept(txs0: TxMap, before: TxMap, txs: TxMap, txMap: TxMap, found: Found, deferred: TxMap, hash: Hash)
    requires PassTxs(txs0, before, txMap, found, deferred) && hash in txMap && hash !in before
    requires txs.Keys == before.Keys + {hash} && txs - {hash} == before && SameTx(txs[hash], txMap[hash])
    ensures PassTxs(txs0, txs, txMap, found, deferred)
  {
    hide Ready;
    KeptIn(before, txs, hash);
  }

  lemma KeptIn(before: TxMap, txs: TxMap, hash: Hash)
    requires txs - {hash} == before
    ensures forall h :: h in before ==> h in txs && txs[h] == before[h]
  {
    assert forall h :: h in before ==> h in txs - {hash};
  }

  lemma SpendMore(found: Found, a: set<Outpoint>, b: set<Outpoint>)
    ensures (found - a) - b == found - (a + b)
  {
  }

  lemma PrevoutsPut(m: TxMap, hash: Hash, tx: MemTx)
    requires hash !in m
    ensures PrevoutsOf(m[hash := tx]) == PrevoutsOf(m) + (set o | o in tx.prevouts)
  {
    var r := m[hash := tx];
    assert r[hash] == tx && forall h :: h in m ==> h in r && r[h] == m[h];
  }

  lemma TouchedMore(txs0: TxMap, before: TxMap, txs: TxMap, hash: Hash)
    requires hash !in before && hash !in txs0 && txs.Keys == before.Keys + {hash} && txs - {hash} == before
    ensures TouchedBy(txs - txs0.Keys) == TouchedBy(before - txs0.Keys) + Touching(txs[hash])
  {
    assert forall h :: h in before ==> h in txs - {hash} && txs[h] == before[h];
    var a := before - txs0.Keys;
    assert txs - txs0.Keys == a[hash := txs[hash]];
    TouchedPut(a, hash, txs[hash]);
  }

  lemma TouchedPut(m: TxMap, hash: Hash, tx: MemTx)
    requires hash !in m
    ensures TouchedBy(m[hash := tx]) == TouchedBy(m) + Touching(tx)
  {
    hide Touching;
    var r := m[hash := tx];
    assert r[hash] == tx && forall h :: h in m ==> h in r && r[h] == m[h];
  }

  lemma GoneStep(before: TxMap, gone: set<Hash>, todo: set<Hash>, hash: Hash)
    requires todo <= gone <= before.Keys && hash in todo
    ensures hash in before - (gone - todo)
    ensures TouchedBy(Only(before, gone - (todo - {hash}))) == TouchedBy(Only(before,
      gone - todo)) + Touching(before[hash])
  {
    var a := Only(before, gone - todo);
    assert Only(before, gone - (todo - {hash})) == a[hash := before[hash]];
    TouchedPut(a, hash, before[hash]);
  }

  // ---- lemmas about refreshes ----

  lemma Missing(a: set<Hash>, b: set<Hash>)
    requires a <= b
    ensures a == b || exists h :: h in b && h !in a
  {
    if forall h :: h in b ==> h in a {
      assert b <= a;
    }
  }

  /** The new hashes are those done and those still to come, none of which is accepted yet. */
  ghost predicate InParts(all: set<Hash>, done: set<Hash>, todo: set<Hash>, have: set<Hash>) {
    done + todo == all && done !! todo && todo !! have
  }

  lemma PartStart(all: set<Hash>, have: set<Hash>)
    requires all !! have
    ensures InParts(all, {}, all, have)
  {
  }

  lemma PartEnd(all: set<Hash>, done: set<Hash>, have: set<Hash>)
    requires InParts(all, done, {}, have)
    ensures done == all
  {
  }

  lemma PartFacts(all: set<Hash>, done: set<Hash>, todo: set<Hash>, have: set<Hash>, chunk: set<Hash>)
    requires InParts(all, done, todo, have) && chunk <= todo
    ensures done + chunk <= all && done !! chunk && chunk !! have
  {
  }

  lemma PartStep(all: set<Hash>, done: set<Hash>, todo: set<Hash>, have: set<Hash>, chunk: set<Hash>, have': set<Hash>)
    requires InParts(all, done, todo, have) && chunk <= todo && have' <= have + chunk
    ensures InParts(all, done + chunk, todo - chunk, have')
  {
  }

  lemma FetchStart(t: set<HashX>, txs: TxMap, raw: TxMap, db: map<Outpoint, Pair>, allHashes: set<Hash>)
    ensures Fetched(txs, txs, Only(raw, {}), map[], map[], db, allHashes, 0)
    ensures t == t + TouchedBy(txs - txs.Keys)
  {
    assert txs - txs.Keys == map[];
  }

  lemma TouchedJoin(t: set<HashX>, txs0: TxMap, before: TxMap, txs: TxMap)
    requires txs0.Keys <= before.Keys && Grew(before, txs)
    ensures (t + TouchedBy(before - txs0.Keys)) + TouchedBy(txs - before.Keys) == t + TouchedBy(txs - txs0.Keys)
  {
    hide Touching;
    var a, b, c := before - txs0.Keys, txs - before.Keys, txs - txs0.Keys;
    assert forall h :: h in c <==> h in a || h in b;
    assert forall h :: h in a ==> c[h] == a[h];
    assert forall h :: h in b ==> c[h] == b[h];
    assert TouchedBy(c) == TouchedBy(a) + TouchedBy(b);
  }

  /** What is grounded in a set of transactions is ready when they are accepted. */
  lemma GroundedReady(m: TxMap, h: Hash, found: Found, db: map<Outpoint, Pair>, allHashes: set<Hash>, base: set<Hash>)
    requires Supplied(m, found, db, allHashes) && h in m
    ensures GroundedTx(m[h], db, allHashes, base) ==> Ready(m[h], found, base)
  {
    if GroundedTx(m[h], db, allHashes, base) {
      var tx := m[h];
      forall i | 0 <= i < |tx.prevouts|
        ensures Known(found, tx.prevouts[i]) || tx.prevouts[i].hash in base
      {
        var o := tx.prevouts[i];
        assert o in m[h].prevouts;
        assert o in PrevoutsOf(m);
      }
    }
  }

  lemma FoundFrom(outputs: Outputs, m: TxMap, found: Found, db: map<Outpoint, Pair>, allHashes: set<Hash>)
    requires Supplied(m, found, db, allHashes) && DbOk(outputs, db)
    ensures FoundOk(outputs, found)
  {
  }

  /** The prevouts of deferred transactions are not spent by accepted ones. */
  lemma SuppliedAfter(before: TxMap, txs: TxMap, m: TxMap, found: Found, deferred: TxMap, unspent: Found,
                      db: map<Outpoint, Pair>, allHashes: set<Hash>)
    requires Supplied(m, found, db, allHashes) && PassDone(before, txs, m, found, deferred, unspent) && ConflictFree(m)
    ensures Supplied(deferred, unspent, db, allHashes)
  {
    hide Ready;
    forall o | o in PrevoutsOf(deferred) && o.hash !in allHashes
      ensures o in unspent
    {
      var h :| h in deferred && o in deferred[h].prevouts;
      assert o in PrevoutsOf(m) by {
        assert h in m && o in m[h].prevouts;
      }
      forall g | g in txs - before.Keys
        ensures o !in (txs - before.Keys)[g].prevouts
      {
        assert g in m && SameTx(txs[g], m[g]);
      }
    }
  }

  lemma LookUpSupplies(m: TxMap, db: map<Outpoint, Pair>, allHashes: set<Hash>)
    ensures Supplied(m, LookUp(db, m, allHashes), db, allHashes)
  {
  }

  lemma SuppliedBoth(a: TxMap, f: Found, b: TxMap, g: Found, db: map<Outpoint, Pair>, allHashes: set<Hash>)
    requires Supplied(a, f, db, allHashes) && Supplied(b, g, db, allHashes)
    ensures Supplied(a + b, f + g, db, allHashes)
  {
    forall o | o in PrevoutsOf(a + b) && o.hash !in allHashes
      ensures o in f + g
    {
      var h :| h in a + b && o in (a + b)[h].prevouts;
      if h in b {
        assert o in PrevoutsOf(b);
      } else {
        assert o in PrevoutsOf(a);
      }
    }
  }

  lemma ConflictFreePart(m: TxMap, part: TxMap)
    requires ConflictFree(m) && forall h :: h in part ==> h in m && part[h] == m[h]
    ensures ConflictFree(part)
  {
  }

  /** The effect of a pass on the remaining transactions. */
  lemma RemainingAfter(txs0: TxMap, before: TxMap, txs: TxMap, fetched: TxMap, txMap: TxMap, found: Found,
                       deferred: TxMap, unspent: Found)
    requires Remaining(txs0, before, fetched, txMap) && PassDone(before, txs, txMap, found, deferred, unspent)
    ensures Remaining(txs0, txs, fetched, deferred) && forall h :: h in before ==> h in txs && txs[h] == before[h]
    ensures before.Keys <= txs.Keys
  {
    hide Ready, PrevoutsOf;
  }

  /** More transactions are fetched and a pass is made over them alone. */
  lemma RemainingMore(txs0: TxMap, before: TxMap, txs: TxMap, a: TxMap, b: TxMap, txMap: TxMap, found: Found,
                      deferred: TxMap, unspent: Found)
    requires Remaining(txs0, before, a, txMap) && PassDone(before, txs, b, found, deferred, unspent)
    requires b.Keys !! a.Keys && b.Keys !! before.Keys
    ensures Remaining(txs0, txs, a + b, txMap + deferred) && txs.Keys <= before.Keys + b.Keys
    ensures Grew(before, txs)
  {
    hide PassDone;
    PassFacts(before, txs, b, found, deferred, unspent);
    KeysLeft(before.Keys, txs.Keys, a.Keys, b.Keys);
  }

  lemma KeysLeft(before: set<Hash>, now: set<Hash>, a: set<Hash>, b: set<Hash>)
    requires before <= now <= before + b && b !! a
    ensures (a - before) + (b - now) == (a + b) - now
  {
  }

  /** What a pass does to the keys. */
  lemma PassFacts(before: TxMap, txs: TxMap, b: TxMap, found: Found, deferred: TxMap, unspent: Found)
    requires PassDone(before, txs, b, found, deferred, unspent)
    ensures Grew(before, txs) && txs.Keys <= before.Keys + b.Keys
    ensures b.Keys !! before.Keys ==> deferred.Keys == b.Keys - txs.Keys
    ensures forall h :: h in deferred ==> h in b && deferred[h] == b[h]
  {
    hide Ready, PrevoutsOf;
  }

  lemma OnlyBoth(raw: TxMap, a: set<Hash>, b: set<Hash>)
    ensures Only(raw, a + b) == Only(raw, a) + Only(raw, b)
  {
  }

  lemma ChunkDone(txs0: TxMap, before: TxMap, txs: TxMap, raw: TxMap, newHashes: set<Hash>, done: set<Hash>,
                  chunk: set<Hash>, db: map<Outpoint, Pair>, allHashes: set<Hash>, txMap: TxMap, found: Found,
                  deferred: TxMap, unspent: Found, t: set<HashX>)
    requires Fetched(txs0, before, Only(raw, done), txMap, found, db, allHashes, 0)
    requires PassDone(before, txs, Only(raw, chunk), LookUp(db, Only(raw, chunk), allHashes), deferred, unspent)
    requires done + chunk <= newHashes && done !! chunk && chunk !! before.Keys && ConflictFree(Only(raw, newHashes))
    ensures Fetched(txs0, txs, Only(raw, done + chunk), txMap + deferred, found + unspent, db, allHashes, 0)
    ensures txs0.Keys <= before.Keys <= txs.Keys <= before.Keys + chunk
    ensures (t + TouchedBy(before - txs0.Keys)) + TouchedBy(txs - before.Keys) == t + TouchedBy(txs - txs0.Keys)
  {
    hide Remaining, Supplied, PassDone, ConflictFree, Grounded, LookUp, TouchedBy;
    var part := Only(raw, chunk);
    OnlyBoth(raw, done, chunk);
    RemainingFacts(txs0, before, Only(raw, done), txMap);
    RemainingMore(txs0, before, txs, Only(raw, done), part, txMap, LookUp(db, part, allHashes), deferred, unspent);
    LookUpSupplies(part, db, allHashes);
    ConflictFreePart(Only(raw, newHashes), part);
    SuppliedAfter(before, txs, part, LookUp(db, part, allHashes), deferred, unspent, db, allHashes);
    SuppliedBoth(txMap, found, deferred, unspent, db, allHashes);
    GroundedChunk(txs0, before, txs, raw, done, chunk, db, allHashes, deferred, unspent);
    TouchedJoin(t, txs0, before, txs);
  }

  lemma GrewOn(a: TxMap, b: TxMap, c: TxMap)
    requires Grew(a, b) && Grew(b, c)
    ensures Grew(a, c) && a.Keys <= b.Keys
  {
  }

  lemma NothingTouched(t: set<HashX>, txs: TxMap)
    ensures t == t + TouchedBy(txs - txs.Keys) && Grew(txs, txs)
  {
    assert txs - txs.Keys == map[];
  }

  lemma FetchedFacts(txs0: TxMap, txs: TxMap, fetched: TxMap, txMap: TxMap, found: Found, db: map<Outpoint, Pair>,
                     allHashes: set<Hash>, n: nat)
    requires Fetched(txs0, txs, fetched, txMap, found, db, allHashes, n)
    ensures Grew(txs0, txs) && txs0.Keys <= txs.Keys <= txs0.Keys + fetched.Keys
    ensures Grounded(fetched, db, allHashes, txs0.Keys, 0) <= txs.Keys
  {
    hide Grounded, Supplied;
  }

  lemma GroundedChunk(txs0: TxMap, before: TxMap, txs: TxMap, raw: TxMap, done: set<Hash>, chunk: set<Hash>,
                      db: map<Outpoint, Pair>, allHashes: set<Hash>, deferred: TxMap, unspent: Found)
    requires Grounded(Only(raw, done), db, allHashes, txs0.Keys, 0) <= before.Keys
    requires txs0.Keys <= before.Keys <= txs.Keys
    requires PassDone(before, txs, Only(raw, chunk), LookUp(db, Only(raw, chunk), allHashes), deferred, unspent)
    ensures Grounded(Only(raw, done + chunk), db, allHashes, txs0.Keys, 0) <= txs.Keys
  {
    hide PassDone, LookUp;
    var part, all := Only(raw, chunk), Only(raw, done + chunk);
    LookUpSupplies(part, db, allHashes);
    forall h | h in Grounded(all, db, allHashes, txs0.Keys, 0)
      ensures h in txs.Keys
    {
      if h in done {
        assert h in Grounded(Only(raw, done), db, allHashes, txs0.Keys, 0);
      } else {
        GroundedReady(part, h, LookUp(db, part, allHashes), db, allHashes, txs0.Keys);
        ReadyIn(before, txs, part, LookUp(db, part, allHashes), deferred, unspent, h, txs0.Keys);
      }
    }
  }

  /** A ready transaction is accepted by a pass. */
  lemma ReadyIn(before: TxMap, txs: TxMap, m: TxMap, found: Found, deferred: TxMap, unspent: Found, h: Hash,
        base: set<Hash>)
    requires PassDone(before, txs, m, found, deferred, unspent) && h in m && base <= before.Keys &&
      Ready(m[h], found, base)
    ensures h in txs
  {
    hide Ready, PrevoutsOf;
    ReadyMore(m[h], found, base, before.Keys);
    DeferredUnready(before, txs, m, found, deferred, unspent, h);
  }

  lemma DeferredUnready(before: TxMap, txs: TxMap, m: TxMap, found: Found, deferred: TxMap, unspent: Found, h: Hash)
    requires PassDone(before, txs, m, found, deferred, unspent) && h in m
    ensures h in deferred ==> !Ready(m[h], found, before.Keys)
    ensures h in deferred || h in txs
  {
    hide Ready, PrevoutsOf;
  }

  lemma NoneLeft(a: set<Hash>, b: set<Hash>)
    ensures a - b == {} <==> a <= b
  {
    if a - b == {} {
      assert forall h :: h in a && h !in b ==> h in a - b;
    }
  }

  lemma NewOnes(outputs: Outputs, txs: TxMap, raw: TxMap, allHashes: set<Hash>)
    requires AllSound(outputs, raw)
    ensures Only(txs, allHashes).Keys == txs.Keys * allHashes
    ensures allHashes - Only(txs, allHashes).Keys == allHashes - txs.Keys
    ensures AllSound(outputs, Only(raw, allHashes - txs.Keys))
  {
    hide Sound;
  }

  lemma RemainingFacts(txs0: TxMap, txs: TxMap, fetched: TxMap, txMap: TxMap)
    requires Remaining(txs0, txs, fetched, txMap)
    ensures txs0.Keys <= txs.Keys <= txs0.Keys + fetched.Keys && forall h :: h in txs0 ==> h in txs && txs[h] == txs0[h]
  {
  }

  lemma PassFits(outputs: Outputs, txs0: TxMap, txs: TxMap, fetched: TxMap, txMap: TxMap, found: Found,
                 db: map<Outpoint, Pair>, allHashes: set<Hash>, n: nat)
    requires Fetched(txs0, txs, fetched, txMap, found, db, allHashes, n) && AllSound(outputs, fetched)
    requires DbOk(outputs, db)
    ensures AllSound(outputs, txMap) && txMap.Keys !! txs.Keys && FoundOk(outputs, found)
    ensures txs0.Keys <= txs.Keys
  {
    hide Sound, Supplied, FoundOk, DbOk, Grounded;
    FoundFrom(outputs, txMap, found, db, allHashes);
  }

  /** One iteration: chains one transaction longer are accepted; without progress nothing is left that could be. */
  lemma IterationDone(txs0: TxMap, before: TxMap, txs: TxMap, fetched: TxMap, db: map<Outpoint, Pair>,
                      allHashes: set<Hash>, was: TxMap, found: Found, deferred: TxMap, unspent: Found, n: nat)
    requires Fetched(txs0, before, fetched, was, found, db, allHashes, n) && ConflictFree(fetched)
    requires PassDone(before, txs, was, found, deferred, unspent)
    ensures Fetched(txs0, txs, fetched, deferred, unspent, db, allHashes, n + 1)
    ensures |deferred| == |was| ==> Settled(fetched, db, allHashes, txs.Keys)
    ensures Grew(before, txs)
  {
    hide Supplied, PassDone, GroundedTx, Grounded, Settled, ConflictFree, Remaining;
    RemainingAfter(txs0, before, txs, fetched, was, found, deferred, unspent);
    RestFree(txs0, before, fetched, was);
    SuppliedAfter(before, txs, was, found, deferred, unspent, db, allHashes);
    OneLonger(txs0, before, txs, fetched, db, allHashes, was, found, deferred, unspent, n);
    if |deferred| == |was| {
      NothingLeft(txs0, before, txs, fetched, db, allHashes, was, found, deferred, unspent);
    }
  }

  lemma RestFree(txs0: TxMap, txs: TxMap, fetched: TxMap, txMap: TxMap)
    requires Remaining(txs0, txs, fetched, txMap) && ConflictFree(fetched)
    ensures ConflictFree(txMap)
  {
    hide ConflictFree;
    ConflictFreePart(fetched, txMap);
  }

  lemma OneLonger(txs0: TxMap, before: TxMap, txs: TxMap, fetched: TxMap, db: map<Outpoint, Pair>, allHashes: set<Hash>,
                  was: TxMap, found: Found, deferred: TxMap, unspent: Found, n: nat)
    requires Remaining(txs0, before, fetched, was) && Supplied(was, found, db, allHashes)
    requires PassDone(before, txs, was, found, deferred, unspent) && before.Keys <= txs.Keys
    requires Grounded(fetched, db, allHashes, txs0.Keys, n) <= before.Keys
    ensures Grounded(fetched, db, allHashes, txs0.Keys, n + 1) <= txs.Keys
  {
    hide Supplied, PassDone, GroundedTx;
    var base := txs0.Keys + Grounded(fetched, db, allHashes, txs0.Keys, n);
    forall h | h in Grounded(fetched, db, allHashes, txs0.Keys, n + 1)
      ensures h in txs.Keys
    {
      assert GroundedTx(fetched[h], db, allHashes, base);
      if h !in before {
        assert h in was && was[h] == fetched[h];
        GroundedReady(was, h, found, db, allHashes, base);
        ReadyIn(before, txs, was, found, deferred, unspent, h, base);
      }
    }
  }

  lemma NothingLeft(txs0: TxMap, before: TxMap, txs: TxMap, fetched: TxMap, db: map<Outpoint, Pair>,
                    allHashes: set<Hash>, was: TxMap, found: Found, deferred: TxMap, unspent: Found)
    requires Remaining(txs0, before, fetched, was) && Supplied(was, found, db, allHashes)
    requires PassDone(before, txs, was, found, deferred, unspent) && |deferred| == |was|
    ensures Settled(fetched, db, allHashes, txs.Keys)
  {
    hide Supplied, PassDone, GroundedTx;
    NoProgress(before, txs, was, found, deferred, unspent);
    forall h | h in fetched && h !in txs.Keys
      ensures !GroundedTx(fetched[h], db, allHashes, txs.Keys)
    {
      assert h in was && was[h] == fetched[h];
      GroundedReady(was, h, found, db, allHashes, txs.Keys);
      Deferred(before, txs, was, found, deferred, unspent, h);
    }
  }

  lemma NoProgress(before: TxMap, txs: TxMap, m: TxMap, found: Found, deferred: TxMap, unspent: Found)
    requires PassDone(before, txs, m, found, deferred, unspent) && |deferred| == |m|
    ensures txs.Keys == before.Keys
  {
    hide Ready, PrevoutsOf;
    assert deferred.Keys <= m.Keys && |deferred.Keys| == |m.Keys|;
    SameSize(deferred.Keys, m.Keys);
  }

  lemma SameSize(a: set<Hash>, b: set<Hash>)
    requires a <= b && |a| == |b|
    ensures a == b
  {
    assert b == a + (b - a);
  }

  lemma Deferred(before: TxMap, txs: TxMap, m: TxMap, found: Found, deferred: TxMap, unspent: Found, h: Hash)
    requires PassDone(before, txs, m, found, deferred, unspent) && h in m && h !in txs
    ensures !Ready(m[h], found, before.Keys)
  {
    hide Ready, PrevoutsOf;
    assert h in deferred;
  }

  /** When nothing left could be accepted, no chain of ancestors, however long, is left. */
  lemma {:induction false} SettledGrounded(m: TxMap, db: map<Outpoint, Pair>, allHashes: set<Hash>, base: set<Hash>,
                                           have: set<Hash>, n: nat)
    requires Settled(m, db, allHashes, have) && base <= have
    ensures Grounded(m, db, allHashes, base, n) <= have
  {
    if n > 0 {
      SettledGrounded(m, db, allHashes, base, have, n - 1);
    }
    forall h | h in Grounded(m, db, allHashes, base, n)
      ensures h in have
    {
      var b := if n == 0 then base else base + Grounded(m, db, allHashes, base, n - 1);
      assert GroundedTx(m[h], db, allHashes, b) && b <= have;
      assert GroundedTx(m[h], db, allHashes, have);
    }
  }

  lemma FewerLeft(txs0: TxMap, txs: TxMap, txMap: TxMap, found: Found, deferred: TxMap, unspent: Found)
    requires PassDone(txs0, txs, txMap, found, deferred, unspent)
    ensures |deferred| <= |txMap|
  {
    hide PassTxs;
    assert deferred.Keys <= txMap.Keys;
    SubsetCount(deferred.Keys, txMap.Keys);
    assert |deferred.Keys| == |deferred| && |txMap.Keys| == |txMap|;
  }

  lemma {:induction false} SubsetCount(a: set<Hash>, b: set<Hash>)
    requires a <= b
    ensures |a| <= |b|
  {
    if h :| h in a {
      SubsetCount(a - {h}, b - {h});
    }
  }

  lemma LoopLeft(txs0: TxMap, txs: TxMap, fetched: TxMap, db: map<Outpoint, Pair>, allHashes: set<Hash>,
                 deferred: TxMap, found: Found, n: nat)
    requires Fetched(txs0, txs, fetched, deferred, found, db, allHashes, n) && n <= MAX_ITERATIONS
    requires deferred != map[] && n < MAX_ITERATIONS ==> Settled(fetched, db, allHashes, txs.Keys)
    ensures Grounded(fetched, db, allHashes, txs0.Keys, MAX_ITERATIONS) <= txs.Keys
    ensures n < MAX_ITERATIONS ==> Settled(fetched, db, allHashes, txs.Keys)
  {
    hide GroundedTx, Grounded, Supplied;
    if deferred == map[] {
      assert fetched.Keys - txs.Keys == {};
      assert forall h :: h in fetched ==> h in txs.Keys by {
        forall h | h in fetched
          ensures h in txs.Keys
        {
          assert h !in fetched.Keys - txs.Keys;
        }
      }
    }
    if n < MAX_ITERATIONS {
      SettledGrounded(fetched, db, allHashes, txs0.Keys, txs.Keys, MAX_ITERATIONS);
    }
  }

  // ---- balances ----

  /** The value of the pairs that pay an address. */
  function ValueTo(ps: seq<Pair>, a: HashX): nat {
    if ps == [] then 0
    else ValueTo(ps[..|ps| - 1], a) + (if ps[|ps| - 1].hashX == a then ps[|ps| - 1].value else 0)
  }

  ghost function TxDelta(tx: MemTx, a: HashX): int {
    ValueTo(tx.outPairs, a) - ValueTo(tx.inPairs, a)
  }

  ghost function Deltas(txs: TxMap, a: HashX): map<Hash, int> {
    map h | h in txs :: TxDelta(txs[h], a)
  }

  /** The effect of all transactions on an address. */
  ghost function Balance(txs: TxMap, a: HashX): int {
    Total(Deltas(txs, a))
  }

  lemma DeltaNone(txs: TxMap, a: HashX)
    ensures Total(Deltas(Only(txs, {}), a)) == 0
    ensures forall all: set<Hash> :: Only(txs, all - all) == Only(txs, {})
  {
    assert Deltas(Only(txs, {}), a) == map[];
    forall all: set<Hash>
      ensures Only(txs, all - all) == Only(txs, {})
    {
      assert all - all == {};
    }
  }

  lemma DeltaStep(txs: TxMap, a: HashX, done: set<Hash>, h: Hash)
    requires h in txs && h !in done
    ensures Total(Deltas(Only(txs, done + {h}), a)) == Total(Deltas(Only(txs, done), a)) + TxDelta(txs[h], a)
    ensures TxDelta(txs[h], a) == ValueTo(txs[h].outPairs, a) - ValueTo(txs[h].inPairs, a)
  {
    var m := Deltas(Only(txs, done + {h}), a);
    TotalOut(m, h);
    assert m - {h} == Deltas(Only(txs, done), a);
  }

  /** Transactions that do not touch an address do not change it. */
  lemma DeltaAll(txs: TxMap, a: HashX, all: set<Hash>)
    requires forall h :: h in all <==> h in txs && a in Touching(txs[h])
    ensures Total(Deltas(Only(txs, all), a)) == Balance(txs, a)
  {
    var m, rest := Deltas(txs, a), txs.Keys - all;
    forall h | h in m && h in rest
      ensures m[h] == 0
    {
      NoValue(txs[h].inPairs, a);
      NoValue(txs[h].outPairs, a);
    }
    TotalSupport(m, rest);
    assert m - rest == Deltas(Only(txs, all), a);
  }

  lemma {:induction false} NoValue(ps: seq<Pair>, a: HashX)
    requires a !in AddressesOf(ps)
    ensures ValueTo(ps, a) == 0
  {
    if ps != [] {
      assert ps[|ps| - 1] in ps;
      assert forall p :: p in ps[..|ps| - 1] ==> p in ps;
      NoValue(ps[..|ps| - 1], a);
    }
  }

  lemma SpendTouches(outputs: Outputs, h: Hash, tx: MemTx, o: Outpoint)
    requires Accepted(outputs, h, tx) && o in tx.prevouts && InRange(outputs, o)
    ensures TruePair(outputs, o).hashX in Touching(tx)
  {
    hide Sound, SumOf;
    var i :| 0 <= i < |tx.prevouts| && tx.prevouts[i] == o;
    assert tx.inPairs[i] in tx.inPairs;
  }

  lemma {:induction false} ValueToIs(ps: seq<Pair>, qs: seq<Pair>, p: Pair, a: HashX)
    ensures ValueTo([], a) == 0 && ValueTo([p], a) == if p.hashX == a then p.value else 0
    ensures ValueTo(ps + qs, a) == ValueTo(ps, a) + ValueTo(qs, a)
  {
    assert [p][..0] == [];
    if qs == [] {
      assert ps + qs == ps;
    } else {
      FrontOfJoin(ps, qs);
      ValueToIs(ps, qs[..|qs| - 1], p, a);
    }
  }

  lemma {:induction false} SumIs(ps: seq<Pair>, qs: seq<Pair>, p: Pair)
    ensures SumOf([]) == 0 && SumOf([p]) == p.value && SumOf(ps + qs) == SumOf(ps) + SumOf(qs)
  {
    assert [p][..0] == [];
    if qs == [] {
      assert ps + qs == ps;
    } else {
      FrontOfJoin(ps, qs);
      SumIs(ps, qs[..|qs| - 1], p);
    }
  }

  /** An address's balance is what each transaction pays it less what it spends of it, summed. */
  lemma BalanceIs(txs: TxMap, h: Hash, a: HashX)
    requires h in txs
    ensures Balance(map[], a) == 0
    ensures Balance(txs, a) == ValueTo(txs[h].outPairs, a) - ValueTo(txs[h].inPairs, a) + Balance(txs - {h}, a)
  {
    assert Deltas(map[], a) == map[];
    TotalOut(Deltas(txs, a), h);
    assert Deltas(txs, a) - {h} == Deltas(txs - {h}, a);
  }

  /** What an accepted transaction holds: the pairs of the outputs it spends and of
      its own, and what it takes in less what it pays out, not below 0. */
  lemma PoolIs(pool: MemPool, h: Hash)
    requires pool.Valid() && h in pool.txs
    ensures var tx := pool.txs[h];
      && |tx.inPairs| == |tx.prevouts| && tx.outPairs == pool.outputs(h)
      && (forall i :: 0 <= i < |tx.prevouts| ==>
            var o := tx.prevouts[i];
            o.idx < |pool.outputs(o.hash)| && tx.inPairs[i] == pool.outputs(o.hash)[o.idx])
      && tx.fee == Max(0, SumOf(tx.inPairs) - SumOf(tx.outPairs))
  {
    hide SumOf, Indexed;
    assert Accepted(pool.outputs, h, pool.txs[h]);
  }

  /** A transaction is indexed under an address exactly if an output of its own, or
      one that it spends, pays it. */
  lemma IndexIs(pool: MemPool, h: Hash, a: HashX)
    requires pool.Valid()
    ensures (a in pool.hashXs && h in pool.hashXs[a]) <==>
      h in pool.txs && (PaidIn(pool.txs[h].outPairs, a) || PaidIn(pool.txs[h].inPairs, a))
  {
    hide AllAccepted, AddressesOf;
    assert (a in pool.hashXs && h in pool.hashXs[a]) <==> h in Under(pool.hashXs, a);
    if h in pool.txs {
      PairsOf(pool.txs[h].outPairs, a);
      PairsOf(pool.txs[h].inPairs, a);
    }
  }

  ghost predicate PaidIn(ps: seq<Pair>, a: HashX) {
    exists i :: 0 <= i < |ps| && ps[i].hashX == a
  }

  lemma PairsOf(ps: seq<Pair>, a: HashX)
    ensures a in AddressesOf(ps) <==> PaidIn(ps, a)
  {
    if a in AddressesOf(ps) {
      var p :| p in ps && p.hashX == a;
      var i :| 0 <= i < |ps| && ps[i] == p;
      assert ps[i].hashX == a;
    }
  }

  // ---- conservation ----

  ghost function Balances(txs: TxMap, addresses: set<HashX>): map<HashX, int> {
    map a | a in addresses :: Balance(txs, a)
  }

  ghost function Fees(txs: TxMap): map<Hash, int> {
    map h | h in txs :: txs[h].fee
  }

  ghost function Spread(ps: seq<Pair>, addresses: set<HashX>): map<HashX, int> {
    map a | a in addresses :: ValueTo(ps, a)
  }

  ghost function Single(p: Pair, addresses: set<HashX>): map<HashX, int> {
    map a | a in addresses :: if a == p.hashX then p.value else 0
  }

  ghost function TxDeltas(tx: MemTx, addresses: set<HashX>): map<HashX, int> {
    map a | a in addresses :: TxDelta(tx, a)
  }

  lemma SingleTotal(p: Pair, addresses: set<HashX>)
    requires p.hashX in addresses
    ensures Total(Single(p, addresses)) == p.value
  {
    TotalOut(Single(p, addresses), p.hashX);
    TotalZero(Single(p, addresses) - {p.hashX});
  }

  /** The value paid to the addresses of a set that covers the pairs is the sum of the pairs. */
  lemma {:induction false} ValueSpread(ps: seq<Pair>, addresses: set<HashX>)
    requires AddressesOf(ps) <= addresses
    ensures Total(Spread(ps, addresses)) == SumOf(ps)
  {
    if ps == [] {
      TotalZero(Spread(ps, addresses));
    } else {
      var k := |ps| - 1;
      assert ps[k] in ps && forall q :: q in ps[..k] ==> q in ps;
      assert ps[k].hashX in AddressesOf(ps);
      ValueSpread(ps[..k], addresses);
      SingleTotal(ps[k], addresses);
      TotalAdd(Spread(ps[..k], addresses), Single(ps[k], addresses), Spread(ps, addresses));
    }
  }

  /** One transaction moves its inputs to its outputs, less the fee. */
  lemma TxConserves(tx: MemTx, addresses: set<HashX>)
    requires Touching(tx) <= addresses
    ensures Total(TxDeltas(tx, addresses)) == SumOf(tx.outPairs) - SumOf(tx.inPairs)
  {
    hide SumOf, AddressesOf, ValueTo;
    ValueSpread(tx.inPairs, addresses);
    ValueSpread(tx.outPairs, addresses);
    TotalAdd(TxDeltas(tx, addresses), Spread(tx.inPairs, addresses), Spread(tx.outPairs, addresses));
  }

  /** The balance changes of all addresses sum to minus the fees, when no fee was clamped to 0. */
  lemma {:induction false} Conservation(txs: TxMap, addresses: set<HashX>)
    requires TouchedBy(txs) <= addresses
    requires forall h :: h in txs ==> txs[h].fee == SumOf(txs[h].inPairs) - SumOf(txs[h].outPairs)
    ensures Total(Balances(txs, addresses)) == -Total(Fees(txs))
    decreases |txs|
  {
    hide TxDelta, SumOf, Touching, Balances, Fees, TouchedBy;
    if txs.Keys == {} {
      assert txs == map[];
      NoBalances(addresses);
    } else {
      var h :| h in txs.Keys;
      Smaller(txs, h);
      Conservation(txs - {h}, addresses);
      TxConserves(txs[h], addresses);
      BalancesStep(txs, addresses, h);
    }
  }

  lemma NoBalances(addresses: set<HashX>)
    ensures Total(Balances(map[], addresses)) == 0 && Total(Fees(map[])) == 0
  {
    forall a
      ensures Balance(map[], a) == 0
    {
      assert Deltas(map[], a) == map[];
    }
    TotalZero(Balances(map[], addresses));
    assert Fees(map[]) == map[];
  }

  lemma Smaller(txs: TxMap, h: Hash)
    requires h in txs
    ensures TouchedBy(txs - {h}) <= TouchedBy(txs) && Touching(txs[h]) <= TouchedBy(txs)
  {
    hide Touching;
    forall a | a in TouchedBy(txs - {h})
      ensures a in TouchedBy(txs)
    {
      var g :| g in txs - {h} && a in Touching((txs - {h})[g]);
      assert g in txs && a in Touching(txs[g]);
    }
  }

  lemma BalancesStep(txs: TxMap, addresses: set<HashX>, h: Hash)
    requires h in txs
    ensures Total(Balances(txs, addresses)) == Total(TxDeltas(txs[h], addresses)) + Total(Balances(txs - {h},
      addresses))
    ensures Total(Fees(txs)) == txs[h].fee + Total(Fees(txs - {h}))
  {
    hide TxDelta;
    var rest := txs - {h};
    forall a
      ensures Balance(txs, a) == TxDelta(txs[h], a) + Balance(rest, a)
    {
      TotalOut(Deltas(txs, a), h);
      assert Deltas(txs, a) - {h} == Deltas(rest, a);
    }
    TotalAdd(TxDeltas(txs[h], addresses), Balances(rest, addresses), Balances(txs, addresses));
    TotalOut(Fees(txs), h);
    assert Fees(txs) - {h} == Fees(rest);
  }

  /** In a valid mempool the unconfirmed balances of the indexed addresses sum to minus the fees,
      if every transaction takes in at least what it pays out. */
  lemma PoolConserves(pool: MemPool)
    requires pool.Valid() && forall h :: h in pool.txs ==> SumOf(pool.txs[h].inPairs) >= SumOf(pool.txs[h].outPairs)
    ensures Total(Balances(pool.txs, pool.hashXs.Keys)) == -Total(Fees(pool.txs))
  {
    hide Sound, InsAre, SumOf, Touching;
    forall a | a in TouchedBy(pool.txs)
      ensures a in pool.hashXs.Keys
    {
      var h :| h in pool.txs && a in Touching(pool.txs[h]);
      assert h in Under(pool.hashXs, a);
    }
    forall h | h in pool.txs
      ensures pool.txs[h].fee == SumOf(pool.txs[h].inPairs) - SumOf(pool.txs[h].outPairs)
    {
      assert Accepted(pool.outputs, h, pool.txs[h]);
    }
    Conservation(pool.txs, pool.hashXs.Keys);
  }
}
