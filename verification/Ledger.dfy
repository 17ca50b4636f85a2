/** What a block does to the index, stated without any cache or table.

    `Replay` folds a chain of blocks from genesis into an `Index`; everything
    the block processor, the database and the history store hold is measured
    against it. */
module Ledger {
  import opened Types

  /** The coin class: its functions are uninterpreted. */
  datatype Coin = Coin(
    hashX: Script -> HashX,
    headerHash: Header -> Hash,
    prevHash: Header -> Hash,
    genesisActivation: nat,
    ltor: bool)

  datatype Outpoint = Outpoint(hash: Hash, idx: nat)

  /** A cache value: hashX + tx_num + value. */
  datatype Utxo = Utxo(hashX: HashX, txNum: nat, value: nat)

  type UtxoMap = map<Outpoint, Utxo>

  datatype TxInput = TxInput(prevHash: Hash, prevIdx: nat) {
    predicate IsGeneration() {
      prevIdx == MINUS_1 && prevHash == ZERO
    }
    function Prevout(): Outpoint {
      Outpoint(prevHash, prevIdx)
    }
  }

  datatype TxOutput = TxOutput(value: nat, script: Script)
  datatype Tx = Tx(txid: Hash, inputs: seq<TxInput>, outputs: seq<TxOutput>)
  datatype Block = Block(header: Header, txs: seq<Tx>)

  predicate UnspendableLegacy(s: Script) {
    (|s| >= 2 && s[0] == 0 && s[1] == 0x6a) || (|s| >= 1 && s[0] == 0x6a)
  }

  predicate UnspendableGenesis(s: Script) {
    |s| >= 2 && s[0] == 0 && s[1] == 0x6a
  }

  predicate Unspendable(coin: Coin, height: nat, s: Script) {
    if height >= coin.genesisActivation then UnspendableGenesis(s) else UnspendableLegacy(s)
  }

  // ---- what one transaction does ----

  /** The outpoints spent by a list of inputs, generation inputs dropped. */
  ghost function Prevouts(ins: seq<TxInput>): seq<Outpoint> {
    if ins == [] then []
    else
      var k := |ins| - 1;
      Prevouts(ins[..k]) + (if ins[k].IsGeneration() then [] else [ins[k].Prevout()])
  }

  ghost predicate Pays(coin: Coin, ht: nat, tx: Tx, i: int) {
    0 <= i < |tx.outputs| && !Unspendable(coin, ht, tx.outputs[i].script)
  }

  ghost function Coined(coin: Coin, tx: Tx, num: nat, i: nat): Utxo
    requires i < |tx.outputs|
  {
    Utxo(coin.hashX(tx.outputs[i].script), num, tx.outputs[i].value)
  }

  /** The entries made by the first n outputs of the transaction numbered num. */
  ghost function Made(coin: Coin, ht: nat, tx: Tx, num: nat, n: nat): UtxoMap
    requires n <= |tx.outputs|
  {
    if n == 0 then map[]
    else if Pays(coin, ht, tx, n - 1)
    then Made(coin, ht, tx, num, n - 1)[Outpoint(tx.txid, n - 1) := Coined(coin, tx, num, n - 1)]
    else Made(coin, ht, tx, num, n - 1)
  }

  /** A transaction as the index sees it. */
  datatype Effect = Effect(spent: seq<Outpoint>, made: UtxoMap)

  ghost function EffectOf(coin: Coin, ht: nat, tx: Tx, num: nat): Effect {
    Effect(Prevouts(tx.inputs), Made(coin, ht, tx, num, |tx.outputs|))
  }

  ghost function Effects(coin: Coin, ht: nat, txs: seq<Tx>, num: nat): seq<Effect> {
    if txs == [] then []
    else
      var k := |txs| - 1;
      Effects(coin, ht, txs[..k], num) + [EffectOf(coin, ht, txs[k], num + k)]
  }

  ghost function Elems(ps: seq<Outpoint>): set<Outpoint> {
    set o | o in ps
  }

  const NOTHING := Utxo(Zeros(11), 0, 0)

  ghost function Get(m: UtxoMap, o: Outpoint): Utxo {
    if o in m then m[o] else NOTHING
  }

  ghost function Values(m: UtxoMap, ps: seq<Outpoint>): seq<Utxo> {
    if ps == [] then [] else Values(m, ps[..|ps| - 1]) + [Get(m, ps[|ps| - 1])]
  }

  /** The addresses an effect touches, spent values being read in m. */
  ghost function Touch(m: UtxoMap, e: Effect): set<HashX> {
    (set o | o in e.spent :: Get(m, o).hashX) + (set o | o in e.made :: e.made[o].hashX)
  }

  // ---- the effects of a block, in block order ----

  ghost function Apply(m: UtxoMap, fx: seq<Effect>): UtxoMap {
    if fx == [] then m
    else
      var k := |fx| - 1;
      (Apply(m, fx[..k]) - Elems(fx[k].spent)) + fx[k].made
  }

  ghost predicate ValidInOrder(m: UtxoMap, fx: seq<Effect>) {
    fx == [] ||
    var k := |fx| - 1;
    && ValidInOrder(m, fx[..k])
    && ValidEffect(Apply(m, fx[..k]), fx[k])
  }

  /** Inputs are distinct and unspent; outputs do not overwrite an unspent entry (BIP 30). */
  ghost predicate ValidEffect(m: UtxoMap, e: Effect) {
    NoDup(e.spent) && Elems(e.spent) <= m.Keys && e.made.Keys !! m.Keys
  }

  ghost function Undo(m: UtxoMap, fx: seq<Effect>): seq<Utxo> {
    if fx == [] then []
    else
      var k := |fx| - 1;
      Undo(m, fx[..k]) + Values(Apply(m, fx[..k]), fx[k].spent)
  }

  ghost function Touches(m: UtxoMap, fx: seq<Effect>): seq<set<HashX>> {
    if fx == [] then []
    else
      var k := |fx| - 1;
      Touches(m, fx[..k]) + [Touch(Apply(m, fx[..k]), fx[k])]
  }

  // ---- the effects of a block, outputs first (LTOR) ----

  ghost function AllSpent(fx: seq<Effect>): seq<Outpoint> {
    if fx == [] then [] else AllSpent(fx[..|fx| - 1]) + fx[|fx| - 1].spent
  }

  ghost function AllMade(fx: seq<Effect>): UtxoMap {
    if fx == [] then map[] else AllMade(fx[..|fx| - 1]) + fx[|fx| - 1].made
  }

  /** No outpoint is made twice in the block or still unspent in m. */
  ghost predicate Fresh(m: UtxoMap, fx: seq<Effect>) {
    Apart(fx) && AllMade(fx).Keys !! m.Keys
  }

  ghost predicate Apart(fx: seq<Effect>) {
    fx == [] || (Apart(fx[..|fx| - 1]) && fx[|fx| - 1].made.Keys !! AllMade(fx[..|fx| - 1]).Keys)
  }

  ghost predicate ValidLtor(m: UtxoMap, fx: seq<Effect>) {
    Fresh(m, fx) && NoDup(AllSpent(fx)) && Elems(AllSpent(fx)) <= (m + AllMade(fx)).Keys
  }

  ghost function ApplyLtor(m: UtxoMap, fx: seq<Effect>): UtxoMap {
    (m + AllMade(fx)) - Elems(AllSpent(fx))
  }

  ghost function UndoLtor(m: UtxoMap, fx: seq<Effect>): seq<Utxo> {
    Values(m + AllMade(fx), AllSpent(fx))
  }

  ghost function TouchesAt(m: UtxoMap, fx: seq<Effect>): seq<set<HashX>> {
    if fx == [] then [] else TouchesAt(m, fx[..|fx| - 1]) + [Touch(m, fx[|fx| - 1])]
  }

  ghost function TouchesLtor(m: UtxoMap, fx: seq<Effect>): seq<set<HashX>> {
    TouchesAt(m + AllMade(fx), fx)
  }

  // ---- either order ----

  ghost predicate ValidBody(coin: Coin, m: UtxoMap, fx: seq<Effect>) {
    if coin.ltor then ValidLtor(m, fx) else ValidInOrder(m, fx)
  }

  ghost function ApplyBody(coin: Coin, m: UtxoMap, fx: seq<Effect>): UtxoMap {
    if coin.ltor then ApplyLtor(m, fx) else Apply(m, fx)
  }

  ghost function UndoBody(coin: Coin, m: UtxoMap, fx: seq<Effect>): seq<Utxo> {
    if coin.ltor then UndoLtor(m, fx) else Undo(m, fx)
  }

  ghost function TouchBody(coin: Coin, m: UtxoMap, fx: seq<Effect>): seq<set<HashX>> {
    if coin.ltor then TouchesLtor(m, fx) else Touches(m, fx)
  }

  function TxIds(txs: seq<Tx>): seq<Hash> {
    seq(|txs|, i requires 0 <= i < |txs| => txs[i].txid)
  }

  // ---- a chain of blocks ----

  /** Everything the server answers from, for one chain of blocks. */
  datatype Index = Index(
    utxos: UtxoMap,
    touches: seq<set<HashX>>,   // by tx_num: the addresses whose history has it
    txids: seq<Hash>,           // by tx_num
    txCounts: seq<nat>,         // by height: transactions up to and including it
    undos: seq<seq<Utxo>>)      // by height: the values the block spent

  const EMPTY_INDEX := Index(map[], [], [], [], [])

  ghost function BlockEffects(coin: Coin, ix: Index, ht: nat, b: Block): seq<Effect> {
    Effects(coin, ht, b.txs, |ix.txids|)
  }

  ghost function ApplyBlock(coin: Coin, ix: Index, ht: nat, b: Block): Index {
    var fx := BlockEffects(coin, ix, ht, b);
    Index(
      ApplyBody(coin, ix.utxos, fx),
      ix.touches + TouchBody(coin, ix.utxos, fx),
      ix.txids + TxIds(b.txs),
      ix.txCounts + [|ix.txids| + |b.txs|],
      ix.undos + [UndoBody(coin, ix.utxos, fx)])
  }

  ghost function Replay(coin: Coin, chain: seq<Block>): Index {
    if chain == [] then EMPTY_INDEX
    else
      var k := |chain| - 1;
      ApplyBlock(coin, Replay(coin, chain[..k]), k, chain[k])
  }

  ghost function Tip(coin: Coin, chain: seq<Block>): Hash {
    if chain == [] then ZERO else coin.headerHash(chain[|chain| - 1].header)
  }

  /** Each block links to the one before it and spends only what is unspent. */
  ghost predicate ValidChain(coin: Coin, chain: seq<Block>) {
    chain == [] ||
    var k := |chain| - 1;
    && ValidChain(coin, chain[..k])
    && ValidNext(coin, chain[..k], chain[k])
  }

  ghost predicate ValidNext(coin: Coin, chain: seq<Block>, b: Block) {
    var ix := Replay(coin, chain);
    && coin.prevHash(b.header) == Tip(coin, chain)
    && ValidBody(coin, ix.utxos, BlockEffects(coin, ix, |chain|, b))
  }

  ghost function Headers(chain: seq<Block>): seq<Header> {
    seq(|chain|, i requires 0 <= i < |chain| => chain[i].header)
  }
}
