/** The `h` and `u` tables, the pending deletes and the cache as one outpoint map. */
module UtxoTables {
  import opened Types
  import opened Ledger
  import opened LedgerProofs

  const COMP_TXID_LEN := 4

  /** b'h' + compressed txid + tx_idx + tx_num */
  datatype HKey = HKey(comp: Bytes, idx: nat, txNum: nat)

  /** b'u' + hashX + tx_idx + tx_num */
  datatype UKey = UKey(hashX: HashX, idx: nat, txNum: nat)

  datatype DbKey = H(hkey: HKey) | U(ukey: UKey)

  type HTable = map<HKey, HashX>
  type UTable = map<UKey, nat>

  function Comp(h: Hash): Bytes {
    h[..COMP_TXID_LEN]
  }

  function HOf(o: Outpoint, v: Utxo): HKey {
    HKey(Comp(o.hash), o.idx, v.txNum)
  }

  function UOf(o: Outpoint, v: Utxo): UKey {
    UKey(v.hashX, o.idx, v.txNum)
  }

  /** The outpoint a table key stands for. */
  ghost function PointOf(ids: seq<Hash>, idx: nat, txNum: nat): Outpoint
    requires txNum < |ids|
  {
    Outpoint(ids[txNum], idx)
  }

  ghost predicate HEntry(m: UtxoMap, ids: seq<Hash>, k: HKey) {
    && k.txNum < |ids|
    && var o := PointOf(ids, k.idx, k.txNum); o in m && HOf(o, m[o]) == k
  }

  ghost predicate UEntry(m: UtxoMap, ids: seq<Hash>, k: UKey) {
    && k.txNum < |ids|
    && var o := PointOf(ids, k.idx, k.txNum); o in m && UOf(o, m[o]) == k
  }

  ghost predicate Stored(h: HTable, u: UTable, o: Outpoint, v: Utxo) {
    && HOf(o, v) in h && h[HOf(o, v)] == v.hashX
    && UOf(o, v) in u && u[UOf(o, v)] == v.value
  }

  /** The two tables hold m: one entry in each per outpoint, and nothing else. */
  ghost predicate Tables(h: HTable, u: UTable, m: UtxoMap, ids: seq<Hash>) {
    && (forall o :: o in m ==> Stored(h, u, o, m[o]))
    && (forall k :: k in h ==> HEntry(m, ids, k))
    && (forall k :: k in u ==> UEntry(m, ids, k))
  }

  /** The delete list names both keys of every pending outpoint, and only those. */
  ghost predicate Deletes(deletes: seq<DbKey>, pend: set<Outpoint>, m: UtxoMap, ids: seq<Hash>) {
    && pend <= m.Keys
    && (forall o :: o in pend ==> H(HOf(o, m[o])) in deletes && U(UOf(o, m[o])) in deletes)
    && (forall k :: k in deletes ==> DeleteOf(k, pend, m, ids))
  }

  ghost predicate DeleteOf(k: DbKey, pend: set<Outpoint>, m: UtxoMap, ids: seq<Hash>) {
    match k
    case H(hk) => HEntry(m, ids, hk) && PointOf(ids, hk.idx, hk.txNum) in pend
    case U(uk) => UEntry(m, ids, uk) && PointOf(ids, uk.idx, uk.txNum) in pend
  }

  /** The outpoint map that tables, pending deletes and cache represent together. */
  ghost function Abs(m: UtxoMap, pend: set<Outpoint>, cache: UtxoMap): UtxoMap {
    (m - pend) + cache
  }

  ghost predicate Layers(h: HTable, u: UTable, m: UtxoMap, ids: seq<Hash>,
                         pend: set<Outpoint>, cache: UtxoMap, deletes: seq<DbKey>) {
    && Tables(h, u, m, ids)
    && Numbers(m, ids)
    && Deletes(deletes, pend, m, ids)
    && cache.Keys !! (m.Keys - pend)
  }

  /** Right after a flush the tables alone are the map. */
  lemma FreshLayers(h: HTable, u: UTable, m: UtxoMap, ids: seq<Hash>)
    requires Tables(h, u, m, ids) && Numbers(m, ids)
    ensures Layers(h, u, m, ids, {}, map[], []) && Abs(m, {}, map[]) == m
  {
    hide Tables, Numbers;
  }

  // ---- looking an outpoint up ----

  /** What iterating over b'h' + compressed txid + idx yields. */
  function Candidates(h: HTable, o: Outpoint): set<HKey> {
    set k | k in h && k.comp == Comp(o.hash) && k.idx == o.idx
  }

  /** A candidate always has its partner in the u table. */
  lemma CandidateStored(h: HTable, u: UTable, m: UtxoMap, ids: seq<Hash>, o: Outpoint, k: HKey)
    requires Tables(h, u, m, ids) && k in Candidates(h, o)
    ensures k in h && k.txNum < |ids|
    ensures var p := PointOf(ids, k.idx, k.txNum);
      && p in m && p.idx == o.idx && Comp(p.hash) == Comp(o.hash)
      && HOf(p, m[p]) == k && h[k] == m[p].hashX
      && UKey(h[k], k.idx, k.txNum) == UOf(p, m[p])
      && UOf(p, m[p]) in u && u[UOf(p, m[p])] == m[p].value
      && m[p] == Utxo(h[k], k.txNum, u[UOf(p, m[p])])
  {
    var p := PointOf(ids, k.idx, k.txNum);
    assert HEntry(m, ids, k);
    assert Stored(h, u, p, m[p]);
  }

  /** Only the outpoint's own candidate carries its full hash. */
  lemma CandidateOf(h: HTable, u: UTable, m: UtxoMap, ids: seq<Hash>, o: Outpoint)
    requires Tables(h, u, m, ids) && Numbers(m, ids)
    ensures o in m ==> HOf(o, m[o]) in Candidates(h, o) && m[o].txNum < |ids| && ids[m[o].txNum] == o.hash
    ensures forall k :: k in Candidates(h, o) && k.txNum < |ids| && ids[k.txNum] == o.hash ==>
      o in m && k == HOf(o, m[o])
  {
    if o in m {
      assert Stored(h, u, o, m[o]);
    }
    forall k | k in Candidates(h, o) && k.txNum < |ids| && ids[k.txNum] == o.hash
      ensures o in m && k == HOf(o, m[o])
    {
      assert HEntry(m, ids, k);
      assert PointOf(ids, k.idx, k.txNum) == o;
    }
  }

  /** Outpoints that are not in the map and yet are found: one whose id shares its
      first four bytes with that of the only entry, and that entry once it has been
      spent.  With one candidate the full hash is not looked at. */
  lemma WronglyFound(a: Outpoint, b: Outpoint, v: Utxo)
    requires a != b && a.idx == b.idx && Comp(a.hash) == Comp(b.hash) && v.txNum == 0
    ensures var h: HTable, u: UTable, m: UtxoMap := map[HOf(a, v) := v.hashX], map[UOf(a, v) := v.value], map[a := v];
      && Layers(h, u, m, [a.hash], {}, map[], []) && b !in Abs(m, {}, map[]) && |Candidates(h, b)| == 1
      && Layers(h, u, m, [a.hash], {a}, map[], [H(HOf(a, v)), U(UOf(a, v))]) && a !in Abs(m, {a}, map[])
      && |Candidates(h, a)| == 1
  {
    var h: HTable, u: UTable, m: UtxoMap := map[HOf(a, v) := v.hashX], map[UOf(a, v) := v.value], map[a := v];
    var none: seq<DbKey> := [];
    assert PointOf([a.hash], a.idx, 0) == a;
    assert Tables(h, u, m, [a.hash]) && Numbers(m, [a.hash]);
    hide Tables, Numbers, Deletes;
    FreshLayers(h, u, m, [a.hash]);
    MarkDeleted(h, u, m, [a.hash], {}, map[], none, a);
    assert none + [H(HOf(a, v)), U(UOf(a, v))] == [H(HOf(a, v)), U(UOf(a, v))];
    assert {} + {a} == {a};
    assert Candidates(h, a) == {HOf(a, v)} && Candidates(h, b) == {HOf(a, v)};
  }

  /** Two ids that collide: all zeros, and zeros with a one at the end. */
  lemma CollidingIds()
    ensures var a, b: Hash := Zeros(32), Zeros(31) + [1]; a != b && Comp(a) == Comp(b)
  {
    var a, b: Hash := Zeros(32), Zeros(31) + [1];
    assert b[31] == 1 && a[31] == 0;
    assert forall i :: 0 <= i < 4 ==> a[i] == b[i];
  }

  /** Marking an outpoint for deletion removes it, and only it, from the map. */
  lemma MarkDeleted(h: HTable, u: UTable, m: UtxoMap, ids: seq<Hash>,
                    pend: set<Outpoint>, cache: UtxoMap, deletes: seq<DbKey>, p: Outpoint)
    requires Layers(h, u, m, ids, pend, cache, deletes) && p in m && p !in cache
    ensures var deletes' := deletes + [H(HOf(p, m[p])), U(UOf(p, m[p]))];
      && Layers(h, u, m, ids, pend + {p}, cache, deletes')
      && Abs(m, pend + {p}, cache) == Abs(m, pend, cache) - {p}
  {
    DeletesPush(deletes, pend, m, ids, p);
  }

  lemma DeletesPush(deletes: seq<DbKey>, pend: set<Outpoint>, m: UtxoMap, ids: seq<Hash>, p: Outpoint)
    requires Deletes(deletes, pend, m, ids) && Numbers(m, ids) && p in m
    ensures Deletes(deletes + [H(HOf(p, m[p])), U(UOf(p, m[p]))], pend + {p}, m, ids)
  {
    var deletes' := deletes + [H(HOf(p, m[p])), U(UOf(p, m[p]))];
    assert PointOf(ids, p.idx, m[p].txNum) == p;
    forall k | k in deletes'
      ensures DeleteOf(k, pend + {p}, m, ids)
    {
      if k in deletes {
        assert DeleteOf(k, pend, m, ids);
      }
    }
  }

  /** Marking an entry that is already pending changes nothing. */
  lemma MarkAgain(h: HTable, u: UTable, m: UtxoMap, ids: seq<Hash>,
                  pend: set<Outpoint>, cache: UtxoMap, deletes: seq<DbKey>, p: Outpoint)
    requires Layers(h, u, m, ids, pend, cache, deletes) && p in m && p in pend
    ensures Layers(h, u, m, ids, pend, cache, deletes + [H(HOf(p, m[p])), U(UOf(p, m[p]))])
  {
    var deletes' := deletes + [H(HOf(p, m[p])), U(UOf(p, m[p]))];
    assert forall k :: k in deletes' <==> k in deletes;
  }

  // ---- writing the layers back ----

  /** Deleting the listed keys leaves the tables of the remaining entries. */
  lemma DeletesApplied(h: HTable, u: UTable, m: UtxoMap, ids: seq<Hash>,
                       pend: set<Outpoint>, cache: UtxoMap, deletes: seq<DbKey>)
    requires Layers(h, u, m, ids, pend, cache, deletes)
    ensures Tables(h - HDeleted(deletes), u - UDeleted(deletes), m - pend, ids)
  {
    var h', u', m' := h - HDeleted(deletes), u - UDeleted(deletes), m - pend;
    forall o | o in m'
      ensures Stored(h', u', o, m'[o])
    {
      assert Stored(h, u, o, m[o]);
      assert H(HOf(o, m[o])) in deletes ==> DeleteOf(H(HOf(o, m[o])), pend, m, ids);
      assert U(UOf(o, m[o])) in deletes ==> DeleteOf(U(UOf(o, m[o])), pend, m, ids);
    }
    forall k | k in h'
      ensures HEntry(m', ids, k)
    {
      assert HEntry(m, ids, k);
    }
    forall k | k in u'
      ensures UEntry(m', ids, k)
    {
      assert UEntry(m, ids, k);
    }
  }

  /** m is read off the stored data: the tables less the listed deletes hold
      exactly the entries that are not in the cache, the cache holds the others. */
  ghost predicate Represents(h: HTable, u: UTable, deletes: seq<DbKey>, cache: UtxoMap, m: UtxoMap, ids: seq<Hash>) {
    && Tables(h - HDeleted(deletes), u - UDeleted(deletes), m - cache.Keys, ids)
    && forall o :: o in cache ==> o in m && m[o] == cache[o]
  }

  /** Tables, deletes and cache represent the map they stand for, whatever later
      transactions have been numbered since the last flush. */
  lemma LayersRepresent(h: HTable, u: UTable, m: UtxoMap, ids: seq<Hash>,
                        pend: set<Outpoint>, cache: UtxoMap, deletes: seq<DbKey>, ids': seq<Hash>)
    requires Layers(h, u, m, ids, pend, cache, deletes) && Numbers(Abs(m, pend, cache), ids')
    ensures Represents(h, u, deletes, cache, Abs(m, pend, cache), ids')
  {
    hide Tables, Deletes;
    var all := Abs(m, pend, cache);
    DeletesApplied(h, u, m, ids, pend, cache, deletes);
    assert all - cache.Keys == m - pend;
    NumbersOfPart(all, cache.Keys, ids');
    Renumber(h - HDeleted(deletes), u - UDeleted(deletes), m - pend, ids, ids');
  }

  lemma NumbersOfPart(m: UtxoMap, gone: set<Outpoint>, ids: seq<Hash>)
    requires Numbers(m, ids)
    ensures Numbers(m - gone, ids)
  {
  }

  function HDeleted(deletes: seq<DbKey>): set<HKey> {
    set k | k in deletes && k.H? :: k.hkey
  }

  function UDeleted(deletes: seq<DbKey>): set<UKey> {
    set k | k in deletes && k.U? :: k.ukey
  }

  /** The tables do not depend on ids of transactions they do not mention. */
  lemma Renumber(h: HTable, u: UTable, m: UtxoMap, ids: seq<Hash>, ids': seq<Hash>)
    requires Tables(h, u, m, ids) && Numbers(m, ids')
    ensures Tables(h, u, m, ids')
  {
    forall k | k in h
      ensures HEntry(m, ids', k)
    {
      assert HEntry(m, ids, k);
    }
    forall k | k in u
      ensures UEntry(m, ids', k)
    {
      assert UEntry(m, ids, k);
    }
  }

  /** Putting one new entry in both tables. */
  lemma AddEntry(h: HTable, u: UTable, m: UtxoMap, ids: seq<Hash>, o: Outpoint, v: Utxo)
    requires Tables(h, u, m, ids) && Numbers(m, ids) && o !in m
    requires v.txNum < |ids| && ids[v.txNum] == o.hash
    ensures Tables(h[HOf(o, v) := v.hashX], u[UOf(o, v) := v.value], m[o := v], ids)
    ensures Numbers(m[o := v], ids)
  {
    var h', u', m' := h[HOf(o, v) := v.hashX], u[UOf(o, v) := v.value], m[o := v];
    assert PointOf(ids, o.idx, v.txNum) == o;
    forall p | p in m'
      ensures Stored(h', u', p, m'[p])
    {
      if p != o {
        assert Stored(h, u, p, m[p]);
        SameKey(m, ids, p, o, v);
      }
    }
    forall k | k in h'
      ensures HEntry(m', ids, k)
    {
      if k != HOf(o, v) {
        assert HEntry(m, ids, k);
      }
    }
    forall k | k in u'
      ensures UEntry(m', ids, k)
    {
      if k != UOf(o, v) {
        assert UEntry(m, ids, k);
      }
    }
  }

  lemma SameKey(m: UtxoMap, ids: seq<Hash>, p: Outpoint, o: Outpoint, v: Utxo)
    requires Numbers(m, ids) && p in m && p != o && v.txNum < |ids| && ids[v.txNum] == o.hash
    ensures HOf(p, m[p]) != HOf(o, v) && UOf(p, m[p]) != UOf(o, v)
  {
  }
}
