/** Raw blocks: the transactions read from them are those the ledger is about. */
module BlockReader {
  import opened Types
  import opened TxCodec
  import opened TxReader
  import Ledger

  const HEADER_SIZE := 80

  // ---- what reading gives ----

  function GetTxs(n: nat, b: Bytes): Got<seq<Parts>> {
    if n == 0 then Got([], b)
    else
      match GetParts(b)
      case Fail => Fail
      case Got(p, r) =>
        match GetTxs(n - 1, r)
        case Fail => Fail
        case Got(ps, r') => Got([p] + ps, r')
  }

  /** A count and that many transactions; bytes may follow. */
  function GetTxBlock(b: Bytes): Got<seq<Parts>> {
    match GetVarint(b)
    case Fail => Fail
    case Got(n, r) => GetTxs(n, r)
  }

  /** Each transaction with its txid, the hash of its bytes without the witness. */
  function WithIds(ps: seq<Parts>, hash: Bytes -> Hash): seq<(WireTx, Hash)> {
    if ps == [] then []
    else WithIds(ps[..|ps| - 1], hash) + [(ps[|ps| - 1].tx, hash(ps[|ps| - 1].stripped))]
  }

  /** The transactions of a block, from where the deserializer stands. */
  method ReadTxBlock(d: Deserializer, hash: Bytes -> Hash) returns (r: Option<seq<(WireTx, Hash)>>)
    requires d.Valid()
    modifies d
    ensures d.Valid()
    ensures match GetTxBlock(old(d.Left()))
      case Fail => r.None?
      case Got(ps, rest) => r == Some(WithIds(ps, hash)) && d.Left() == rest
  {
    hide GetVarint, GetParts, GetTxs, WithIds;
    var n := d.ReadVarint();
    if n.None? {
      return None;
    }
    ghost var b := d.Left();
    var txs: seq<(WireTx, Hash)> := [];
    ghost var ps: seq<Parts> := [];
    AfterNone(GetTxs(n.value, b));
    NoIds(hash);
    for i := 0 to n.value
      invariant d.Valid() && txs == WithIds(ps, hash)
      invariant GetTxs(n.value, b) == After(ps, GetTxs(n.value - i, d.Left()))
    {
      ghost var left := d.Left();
      TxsStep(n.value - i, left, ps);
      var read := d.ReadTxParts(hash);
      if read.None? {
        return None;
      }
      IdsPush(ps, GetParts(left).value, hash);
      ps := ps + [GetParts(left).value];
      txs := txs + [(read.value.tx, read.value.txid)];
    }
    TxsEnd(d.Left());
    AfterEnd(ps, d.Left());
    r := Some(txs);
  }

  /** The header and the transactions of a raw block. */
  method ReadBlock(raw: Bytes, hash: Bytes -> Hash) returns (r: Option<(Header, seq<(WireTx, Hash)>)>)
    ensures r == BlockOf(raw, hash)
    ensures r.Some? ==> |raw| >= 80 && r.value.0 == raw[..80] && GetTxBlock(raw[80..]).Got?
  {
    hide GetTxBlock;
    if |raw| < HEADER_SIZE {
      return None;
    }
    var d := new Deserializer(raw, HEADER_SIZE);
    var txs := ReadTxBlock(d, hash);
    r := if txs.None? then None else Some((raw[..HEADER_SIZE], txs.value));
  }

  function BlockOf(raw: Bytes, hash: Bytes -> Hash): Option<(Header, seq<(WireTx, Hash)>)> {
    if |raw| < HEADER_SIZE then None
    else
      match GetTxBlock(raw[HEADER_SIZE..])
      case Fail => None
      case Got(ps, _) => Some((raw[..HEADER_SIZE], WithIds(ps, hash)))
  }

  // ---- what a block is made of ----

  /** A transaction as a block carries it. */
  datatype Carried =
    | Legacy(tx: WireTx)
    | SegWit(tx: WireTx, flag: Byte, fields: seq<seq<Bytes>>)

  /** It can be packed, and does not look like the other form. */
  predicate CarriedOk(c: Carried) {
    && TxOk(c.tx)
    && match c
       case Legacy(tx) => tx.inputs != []
       case SegWit(tx, _, w) => WitnessOk(w) && |w| == |tx.inputs|
  }

  ghost predicate AllOk(cs: seq<Carried>) {
    forall i :: 0 <= i < |cs| ==> CarriedOk(cs[i])
  }

  function Written(c: Carried): Bytes
    requires CarriedOk(c)
  {
    match c
    case Legacy(tx) => Serialize(tx)
    case SegWit(tx, flag, w) => SerializeSegWit(tx, flag, w)
  }

  ghost function WrittenAll(cs: seq<Carried>): Bytes
    requires AllOk(cs)
  {
    if cs == [] then [] else Written(cs[0]) + WrittenAll(cs[1..])
  }

  /** The ledger's view of a transaction.  Hashes read from bytes have 32 bytes;
      a negative value cannot be packed into the cache and stands for none here. */
  ghost function LedgerTx(tx: WireTx, txid: Hash): Ledger.Tx {
    Ledger.Tx(
      txid,
      seq(|tx.inputs|, i requires 0 <= i < |tx.inputs| => LedgerInput(tx.inputs[i])),
      seq(|tx.outputs|, i requires 0 <= i < |tx.outputs| =>
        Ledger.TxOutput(Max(0, tx.outputs[i].value), tx.outputs[i].script)))
  }

  ghost function LedgerInput(i: WireInput): Ledger.TxInput {
    Ledger.TxInput(if |i.prevHash| == 32 then i.prevHash else ZERO, i.prevIdx)
  }

  /** The ledger's view of a block read from bytes. */
  ghost function LedgerBlock(block: (Header, seq<(WireTx, Hash)>)): Ledger.Block {
    Ledger.Block(
      block.0,
      seq(|block.1|, i requires 0 <= i < |block.1| => LedgerTx(block.1[i].0, block.1[i].1)))
  }

  /** The ledger's view of the transactions a block was made of: the form they
      are carried in is not part of it. */
  ghost function InLedger(cs: seq<Carried>, hash: Bytes -> Hash): seq<Ledger.Tx>
    requires AllOk(cs)
  {
    if cs == [] then []
    else
      var k := |cs| - 1;
      InLedger(cs[..k], hash) + [LedgerTx(cs[k].tx, hash(Serialize(cs[k].tx)))]
  }

  /** The bytes of a block, whatever follows them, give the ledger's block of its
      header and its transactions; every txid is the hash of the legacy form. */
  lemma BlockBack(header: Header, cs: seq<Carried>, excess: Bytes, hash: Bytes -> Hash)
    requires |header| == HEADER_SIZE && AllOk(cs) && |cs| < Pow256(8)
    ensures var r := BlockOf(header + (PackVarint(|cs|) + (WrittenAll(cs) + excess)), hash);
      r.Some? && LedgerBlock(r.value) == Ledger.Block(header, InLedger(cs, hash))
  {
    hide GetTxs, WithIds, WrittenAll, PackVarint, GetVarint, LedgerTx, Serialize, Pow256, TxOk, InLedger;
    var rest := WrittenAll(cs) + excess;
    var raw := header + (PackVarint(|cs|) + rest);
    assert raw[..HEADER_SIZE] == header && raw[HEADER_SIZE..] == PackVarint(|cs|) + rest;
    VarintBack(|cs|, rest);
    TxsBack(cs, excess);
    var ps := GetTxs(|cs|, rest).value;
    WithIdsAt(ps, hash);
    InLedgerAt(cs, hash);
    assert LedgerBlock((header, WithIds(ps, hash))).txs == InLedger(cs, hash);
  }

  /** What the ledger sees of a transaction: its id, the outpoints its inputs name,
      and the value and script of each output. */
  lemma InLedgerIs(cs: seq<Carried>, hash: Bytes -> Hash, i: nat)
    requires AllOk(cs) && i < |cs|
    ensures CarriedOk(cs[i]) && |InLedger(cs, hash)| == |cs|
    ensures var tx, wire := InLedger(cs, hash)[i], cs[i].tx;
      && tx.txid == hash(Serialize(wire))
      && |tx.inputs| == |wire.inputs| && |tx.outputs| == |wire.outputs|
      && (forall j :: 0 <= j < |tx.inputs| ==>
            tx.inputs[j].prevHash == wire.inputs[j].prevHash && tx.inputs[j].prevIdx == wire.inputs[j].prevIdx)
      && (forall j :: 0 <= j < |tx.outputs| && wire.outputs[j].value >= 0 ==>
            tx.outputs[j].value == wire.outputs[j].value && tx.outputs[j].script == wire.outputs[j].script)
  {
    hide Serialize, InLedger;
    InLedgerAt(cs, hash);
    assert forall j :: 0 <= j < |cs[i].tx.inputs| ==> InputOk(cs[i].tx.inputs[j]);
  }

  // ---- lemmas behind them ----

  lemma NoIds(hash: Bytes -> Hash)
    ensures WithIds([], hash) == []
  {
  }

  lemma IdsPush(ps: seq<Parts>, p: Parts, hash: Bytes -> Hash)
    ensures WithIds(ps + [p], hash) == WithIds(ps, hash) + [(p.tx, hash(p.stripped))]
  {
    assert (ps + [p])[..|ps|] == ps;
  }

  lemma TxsEnd(b: Bytes)
    ensures GetTxs(0, b) == Got([], b)
  {
  }

  lemma TxsStep(n: nat, b: Bytes, xs: seq<Parts>)
    requires n > 0
    ensures GetParts(b).Fail? ==> After(xs, GetTxs(n, b)).Fail?
    ensures GetParts(b).Got? ==>
      After(xs, GetTxs(n, b)) == After(xs + [GetParts(b).value], GetTxs(n - 1, GetParts(b).rest))
  {
    hide GetParts;
    if GetParts(b).Got? {
      var x, r := GetParts(b).value, GetParts(b).rest;
      assert GetTxs(n, b) == After([x], GetTxs(n - 1, r));
      AfterMore(xs, x, GetTxs(n - 1, r));
    }
  }

  /** Either form is read back, with the legacy bytes as the ones to hash. */
  lemma CarriedBack(c: Carried, rest: Bytes)
    requires CarriedOk(c)
    ensures var got := GetParts(Written(c) + rest);
      got.Got? && got.rest == rest && got.value.tx == c.tx && got.value.stripped == Serialize(c.tx)
  {
    hide GetParts, GetTx, Serialize, SerializeSegWit, TxOk;
    match c
    case Legacy(tx) =>
      var b := Serialize(tx) + rest;
      TxBack(tx, rest);
      LegacySame(b);
      assert b[..|b| - |rest|] == Serialize(tx);
    case SegWit(tx, flag, w) =>
      SegWitBack(tx, flag, w, rest);
  }

  lemma {:induction false} TxsBack(cs: seq<Carried>, rest: Bytes)
    requires AllOk(cs)
    ensures var got := GetTxs(|cs|, WrittenAll(cs) + rest);
      && got.Got? && got.rest == rest && |got.value| == |cs|
      && forall i :: 0 <= i < |cs| ==>
           CarriedOk(cs[i]) && got.value[i].tx == cs[i].tx && got.value[i].stripped == Serialize(cs[i].tx)
  {
    hide GetParts, Serialize, Written, TxOk;
    if cs == [] {
      assert WrittenAll(cs) + rest == rest;
    } else {
      var more := WrittenAll(cs[1..]) + rest;
      TxsBack(cs[1..], rest);
      CarriedBack(cs[0], more);
      Assoc(Written(cs[0]), WrittenAll(cs[1..]), rest);
      var p, ps := GetParts(Written(cs[0]) + more).value, GetTxs(|cs| - 1, more).value;
      assert GetTxs(|cs|, WrittenAll(cs) + rest) == Got([p] + ps, rest);
      forall i | 0 <= i < |cs|
        ensures CarriedOk(cs[i]) && ([p] + ps)[i].tx == cs[i].tx && ([p] + ps)[i].stripped == Serialize(cs[i].tx)
      {
        if i > 0 {
          assert cs[i] == cs[1..][i - 1];
        }
      }
    }
  }

  lemma {:induction false} WithIdsAt(ps: seq<Parts>, hash: Bytes -> Hash)
    ensures |WithIds(ps, hash)| == |ps|
    ensures forall i :: 0 <= i < |ps| ==> WithIds(ps, hash)[i] == (ps[i].tx, hash(ps[i].stripped))
  {
    if ps != [] {
      WithIdsAt(ps[..|ps| - 1], hash);
    }
  }

  lemma {:induction false} InLedgerAt(cs: seq<Carried>, hash: Bytes -> Hash)
    requires AllOk(cs)
    ensures |InLedger(cs, hash)| == |cs|
    ensures forall i :: 0 <= i < |cs| ==> InLedger(cs, hash)[i] == LedgerTx(cs[i].tx, hash(Serialize(cs[i].tx)))
  {
    hide LedgerTx, Serialize, TxOk;
    if cs != [] {
      InLedgerAt(cs[..|cs| - 1], hash);
    }
  }
}
