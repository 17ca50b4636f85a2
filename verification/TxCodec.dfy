/** Transactions as bytes: what is written, and what reading gives. */
module TxCodec {
  import opened Types

  /** A value read from the front of some bytes, and the bytes left. */
  datatype Got<T> = Fail | Got(value: T, rest: Bytes)

  datatype WireInput = WireInput(prevHash: Bytes, prevIdx: nat, script: Bytes, sequence: nat)
  datatype WireOutput = WireOutput(value: int, script: Bytes)
  datatype WireTx = WireTx(version: int, inputs: seq<WireInput>, outputs: seq<WireOutput>, locktime: nat)

  // ---- little-endian integers ----

  function Pow256(k: nat): (p: nat)
    ensures p >= 1
  {
    if k == 0 then 1 else 256 * Pow256(k - 1)
  }

  function PackLe(n: nat, k: nat): (b: Bytes)
    ensures |b| == k
    decreases k
  {
    if k == 0 then [] else [n % 256] + PackLe(n / 256, k - 1)
  }

  function Num(b: Bytes): nat {
    if b == [] then 0 else b[0] + 256 * Num(b[1..])
  }

  /** Two's complement. */
  function PackSigned(v: int, k: nat): (b: Bytes)
    requires InSigned(v, k)
    ensures |b| == k
  {
    PackLe(if v < 0 then v + Pow256(k) else v, k)
  }

  predicate InSigned(v: int, k: nat) {
    0 <= 2 * v + Pow256(k) && 2 * v < Pow256(k)
  }

  function Signed(n: nat, k: nat): int {
    if 2 * n < Pow256(k) then n else n - Pow256(k)
  }

  // ---- writing ----

  function PackVarint(n: nat): (b: Bytes) {
    if n < 253 then [n]
    else if n < 65536 then [253] + PackLe(n, 2)
    else if n < 4294967296 then [254] + PackLe(n, 4)
    else [255] + PackLe(n, 8)
  }

  function PackVarbytes(data: Bytes): Bytes {
    PackVarint(|data|) + data
  }

  function SerializeInput(i: WireInput): Bytes {
    i.prevHash + (PackLe(i.prevIdx, 4) + (PackVarbytes(i.script) + PackLe(i.sequence, 4)))
  }

  function SerializeOutput(o: WireOutput): Bytes
    requires OutputOk(o)
  {
    PackSigned(o.value, 8) + PackVarbytes(o.script)
  }

  function SerializeInputs(ins: seq<WireInput>): Bytes {
    if ins == [] then [] else SerializeInput(ins[0]) + SerializeInputs(ins[1..])
  }

  function SerializeOutputs(outs: seq<WireOutput>): Bytes
    requires forall i :: 0 <= i < |outs| ==> OutputOk(outs[i])
  {
    if outs == [] then [] else SerializeOutput(outs[0]) + SerializeOutputs(outs[1..])
  }

  /** Counted inputs, then counted outputs. */
  function SerializeBody(tx: WireTx): Bytes
    requires TxOk(tx)
  {
    (PackVarint(|tx.inputs|) + SerializeInputs(tx.inputs)) + (PackVarint(|tx.outputs|) + SerializeOutputs(tx.outputs))
  }

  /** The legacy form of a transaction. */
  function Serialize(tx: WireTx): Bytes
    requires TxOk(tx)
  {
    PackSigned(tx.version, 4) + (SerializeBody(tx) + PackLe(tx.locktime, 4))
  }

  /** A witness field is a counted list of byte strings. */
  function SerializeField(items: seq<Bytes>): Bytes {
    PackVarint(|items|) + SerializeItems(items)
  }

  function SerializeItems(items: seq<Bytes>): Bytes {
    if items == [] then [] else PackVarbytes(items[0]) + SerializeItems(items[1..])
  }

  function SerializeWitness(w: seq<seq<Bytes>>): Bytes {
    if w == [] then [] else SerializeField(w[0]) + SerializeWitness(w[1..])
  }

  /** BIP 144: version, marker 0, flag, inputs, outputs, witness, locktime. */
  function SerializeSegWit(tx: WireTx, flag: Byte, w: seq<seq<Bytes>>): Bytes
    requires TxOk(tx)
  {
    PackSigned(tx.version, 4) + ([0, flag] + (SerializeBody(tx) + (SerializeWitness(w) + PackLe(tx.locktime, 4))))
  }

  // ---- the ranges struct packing accepts ----

  predicate InputOk(i: WireInput) {
    |i.prevHash| == 32 && i.prevIdx < Pow256(4) && |i.script| < Pow256(8) && i.sequence < Pow256(4)
  }

  predicate OutputOk(o: WireOutput) {
    InSigned(o.value, 8) && |o.script| < Pow256(8)
  }

  predicate TxOk(tx: WireTx) {
    && InSigned(tx.version, 4) && tx.locktime < Pow256(4)
    && |tx.inputs| < Pow256(8) && |tx.outputs| < Pow256(8)
    && (forall i :: 0 <= i < |tx.inputs| ==> InputOk(tx.inputs[i]))
    && (forall i :: 0 <= i < |tx.outputs| ==> OutputOk(tx.outputs[i]))
  }

  predicate FieldOk(items: seq<Bytes>) {
    |items| < Pow256(8) && forall i :: 0 <= i < |items| ==> |items[i]| < Pow256(8)
  }

  predicate WitnessOk(w: seq<seq<Bytes>>) {
    forall i :: 0 <= i < |w| ==> FieldOk(w[i])
  }

  // ---- reading ----

  function TakeBytes(n: nat, b: Bytes): Got<Bytes> {
    if n <= |b| then Got(b[..n], b[n..]) else Fail
  }

  function GetLe(k: nat, b: Bytes): Got<nat> {
    if k <= |b| then Got(Num(b[..k]), b[k..]) else Fail
  }

  function GetSigned(k: nat, b: Bytes): Got<int> {
    if k <= |b| then Got(Signed(Num(b[..k]), k), b[k..]) else Fail
  }

  function GetVarint(b: Bytes): Got<nat> {
    if b == [] then Fail
    else if b[0] < 253 then Got(b[0], b[1..])
    else if b[0] == 253 then GetLe(2, b[1..])
    else if b[0] == 254 then GetLe(4, b[1..])
    else GetLe(8, b[1..])
  }

  function GetVarbytes(b: Bytes): Got<Bytes> {
    match GetVarint(b)
    case Fail => Fail
    case Got(n, r) => TakeBytes(n, r)
  }

  function GetInput(b: Bytes): Got<WireInput> {
    match TakeBytes(32, b)
    case Fail => Fail
    case Got(prevHash, r1) =>
      match GetLe(4, r1)
      case Fail => Fail
      case Got(prevIdx, r2) =>
        match GetVarbytes(r2)
        case Fail => Fail
        case Got(script, r3) =>
          match GetLe(4, r3)
          case Fail => Fail
          case Got(sequence, r4) => Got(WireInput(prevHash, prevIdx, script, sequence), r4)
  }

  function GetOutput(b: Bytes): Got<WireOutput> {
    match GetSigned(8, b)
    case Fail => Fail
    case Got(value, r1) =>
      match GetVarbytes(r1)
      case Fail => Fail
      case Got(script, r2) => Got(WireOutput(value, script), r2)
  }

  function GetInputs(n: nat, b: Bytes): Got<seq<WireInput>> {
    if n == 0 then Got([], b)
    else
      match GetInput(b)
      case Fail => Fail
      case Got(i, r) =>
        match GetInputs(n - 1, r)
        case Fail => Fail
        case Got(ins, r') => Got([i] + ins, r')
  }

  function GetOutputs(n: nat, b: Bytes): Got<seq<WireOutput>> {
    if n == 0 then Got([], b)
    else
      match GetOutput(b)
      case Fail => Fail
      case Got(o, r) =>
        match GetOutputs(n - 1, r)
        case Fail => Fail
        case Got(os, r') => Got([o] + os, r')
  }

  function GetItems(n: nat, b: Bytes): Got<seq<Bytes>> {
    if n == 0 then Got([], b)
    else
      match GetVarbytes(b)
      case Fail => Fail
      case Got(x, r) =>
        match GetItems(n - 1, r)
        case Fail => Fail
        case Got(xs, r') => Got([x] + xs, r')
  }

  function GetWitness(n: nat, b: Bytes): Got<seq<seq<Bytes>>> {
    if n == 0 then Got([], b)
    else
      match GetField(b)
      case Fail => Fail
      case Got(x, r) =>
        match GetWitness(n - 1, r)
        case Fail => Fail
        case Got(xs, r') => Got([x] + xs, r')
  }

  function GetField(b: Bytes): Got<seq<Bytes>> {
    match GetVarint(b)
    case Fail => Fail
    case Got(n, r) => GetItems(n, r)
  }

  function GetCountedInputs(b: Bytes): Got<seq<WireInput>> {
    match GetVarint(b)
    case Fail => Fail
    case Got(n, r) => GetInputs(n, r)
  }

  function GetCountedOutputs(b: Bytes): Got<seq<WireOutput>> {
    match GetVarint(b)
    case Fail => Fail
    case Got(n, r) => GetOutputs(n, r)
  }

  function GetBody(b: Bytes): Got<(seq<WireInput>, seq<WireOutput>)> {
    match GetCountedInputs(b)
    case Fail => Fail
    case Got(ins, r) =>
      match GetCountedOutputs(r)
      case Fail => Fail
      case Got(outs, r') => Got((ins, outs), r')
  }

  /** The legacy deserializer. */
  function GetTx(b: Bytes): Got<WireTx> {
    match GetSigned(4, b)
    case Fail => Fail
    case Got(version, r1) =>
      match GetBody(r1)
      case Fail => Fail
      case Got(body, r2) =>
        match GetLe(4, r2)
        case Fail => Fail
        case Got(locktime, r3) => Got(WireTx(version, body.0, body.1, locktime), r3)
  }

  /** What the SegWit deserializer finds: `stripped` are the bytes hashed for the txid. */
  datatype Parts = Parts(tx: WireTx, segwit: bool, flag: Byte, fields: seq<seq<Bytes>>, stripped: Bytes, vsize: nat)

  /** The first n bytes, as many as there are. */
  function Front(b: Bytes, n: int): Bytes {
    if 0 <= n <= |b| then b[..n] else b
  }

  /** A quarter of the weight, rounded up. */
  function VirtualSize(baseSize: int, witnessSize: int): nat {
    var weight := 4 * baseSize + witnessSize;
    if weight < 0 then 0 else weight / 4 + (if weight % 4 > 0 then 1 else 0)
  }

  /** The SegWit deserializer: a zero fifth byte is the marker. */
  function GetParts(b: Bytes): Got<Parts> {
    if |b| < 5 then Fail
    else if b[4] != 0 then
      match GetTx(b)
      case Fail => Fail
      case Got(tx, r) =>
        var size := if |b| >= |r| then |b| - |r| else 0;
        Got(Parts(tx, false, 0, [], Front(b, size), size), r)
    else if |b| < 6 then Fail
    else
      match GetBody(b[6..])
      case Fail => Fail
      case Got(body, r1) =>
        match GetWitness(|body.0|, r1)
        case Fail => Fail
        case Got(fields, r2) =>
          match GetLe(4, r2)
          case Fail => Fail
          case Got(locktime, r3) =>
            var witnessSize := |r1| - |r2| + 2;
            var baseSize := |b| - |r3| - witnessSize;
            var tx := WireTx(Signed(Num(b[..4]), 4), body.0, body.1, locktime);
            var stripped := b[..4] + (Front(b[6..], |b| - 6 - |r1|) + Front(r2, |r2| - |r3|));
            Got(Parts(tx, true, b[5], fields, stripped, VirtualSize(baseSize, witnessSize)), r3)
  }

  // ---- what bytes stand for ----

  lemma NumOne(x: Byte)
    ensures Num([x]) == x
  {
    assert [x][1..] == [];
  }

  /** Low bytes come first: each byte weighs 256 times the one before it. */
  lemma {:induction false} NumJoin(a: Bytes, b: Bytes)
    ensures Num(a + b) == Num(a) + Pow256(|a|) * Num(b)
  {
    if a == [] {
      assert a + b == b;
    } else {
      NumJoin(a[1..], b);
      assert (a + b)[1..] == a[1..] + b;
      Scaled(a[0], Num(a[1..]), Pow256(|a| - 1), Num(b));
    }
  }

  lemma Scaled(x: nat, n: nat, p: nat, m: nat)
    ensures x + 256 * (n + p * m) == x + 256 * n + (256 * p) * m
  {
    assert 256 * (p * m) == (256 * p) * m;
  }

  lemma NumTwo(x: Byte, y: Byte)
    ensures Num([x, y]) == x + 256 * y
  {
    NumOne(x);
    NumOne(y);
    NumJoin([x], [y]);
    assert [x] + [y] == [x, y];
    assert Pow256(1) == 256;
  }

  lemma NumFour(a: Byte, b: Byte, c: Byte, d: Byte)
    ensures Num([a, b, c, d]) == a + 256 * b + 65536 * c + 16777216 * d
  {
    NumTwo(a, b);
    NumTwo(c, d);
    NumJoin([a, b], [c, d]);
    Powers256();
    assert [a, b] + [c, d] == [a, b, c, d];
  }

  lemma NumEight(a: Byte, b: Byte, c: Byte, d: Byte, e: Byte, f: Byte, g: Byte, h: Byte)
    ensures Num([a, b, c, d, e, f, g, h])
      == a + 256 * b + 65536 * c + 16777216 * d + 4294967296 * (e + 256 * f + 65536 * g + 16777216 * h)
  {
    hide Num, Pow256;
    NumFour(a, b, c, d);
    NumFour(e, f, g, h);
    NumJoin([a, b, c, d], [e, f, g, h]);
    Powers256();
    assert [a, b, c, d] + [e, f, g, h] == [a, b, c, d, e, f, g, h];
  }

  /** A signed integer is negative exactly if its last byte has the top bit set. */
  lemma SignedIs(k: nat, b: Bytes)
    requires 1 <= k <= |b|
    ensures GetSigned(k, b) ==
      Got(if b[k - 1] < 128 then Num(b[..k]) else Num(b[..k]) - Pow256(k), b[k..])
  {
    hide Num, Pow256;
    var low, high := b[..k - 1], b[k - 1];
    NumJoin(low, [high]);
    NumOne(high);
    assert b[..k] == low + [high];
    PackedNum(low);
    assert Pow256(k) == 256 * Pow256(k - 1) by {
      NextPower(k - 1);
    }
    TopBit(Num(low), high, Pow256(k - 1));
  }

  lemma NextPower(k: nat)
    ensures Pow256(k + 1) == 256 * Pow256(k)
  {
  }

  lemma TopBit(n: nat, x: Byte, p: nat)
    requires n < p
    ensures 2 * (n + p * x) < 256 * p <==> x < 128
  {
    if x < 128 {
      assert p * x <= p * 127;
    } else {
      assert p * x >= p * 128;
    }
  }

  /** A count on the wire: one byte, or a marker and 2, 4 or 8 bytes, lowest first. */
  lemma VarintWire(a: Byte, b: Byte, c: Byte, d: Byte, e: Byte, f: Byte, g: Byte, h: Byte, rest: Bytes)
    ensures a < 253 ==> GetVarint([a] + rest) == Got(a, rest)
    ensures GetVarint([253, a, b] + rest) == Got(a + 256 * b, rest)
    ensures GetVarint([254, a, b, c, d] + rest) == Got(a + 256 * b + 65536 * c + 16777216 * d, rest)
    ensures GetVarint([255, a, b, c, d, e, f, g, h] + rest)
      == Got(a + 256 * b + 65536 * c + 16777216 * d + 4294967296 * (e + 256 * f + 65536 * g + 16777216 * h), rest)
  {
    hide Num;
    NumTwo(a, b);
    NumFour(a, b, c, d);
    NumEight(a, b, c, d, e, f, g, h);
    Marked(253, [a, b], rest);
    Marked(254, [a, b, c, d], rest);
    Marked(255, [a, b, c, d, e, f, g, h], rest);
    assert [253, a, b] == [253] + [a, b] && [254, a, b, c, d] == [254] + [a, b, c, d];
    assert [255, a, b, c, d, e, f, g, h] == [255] + [a, b, c, d, e, f, g, h];
    Marked(a, [], rest);
    assert [a] + [] == [a];
  }

  lemma Marked(m: Byte, b: Bytes, rest: Bytes)
    ensures var all := [m] + b + rest; all[0] == m && all[1..][..|b|] == b && all[1..][|b|..] == rest
  {
    var all := [m] + b + rest;
    assert all[1..] == b + rest;
  }

  // ---- reading gives back what was written ----

  lemma {:induction false} NumPacked(n: nat, k: nat)
    requires n < Pow256(k)
    ensures Num(PackLe(n, k)) == n
  {
    if k > 0 {
      NumPacked(n / 256, k - 1);
      assert PackLe(n, k)[1..] == PackLe(n / 256, k - 1);
    }
  }

  lemma {:induction false} PackedNum(b: Bytes)
    ensures Num(b) < Pow256(|b|) && PackLe(Num(b), |b|) == b
  {
    if b != [] {
      PackedNum(b[1..]);
      LowDigit(b[0], Num(b[1..]));
      assert b == [b[0]] + b[1..];
    }
  }

  lemma LowDigit(d: Byte, n: nat)
    ensures (d + 256 * n) % 256 == d && (d + 256 * n) / 256 == n
  {
  }

  lemma Powers256()
    ensures Pow256(2) == 65536 && Pow256(4) == 4294967296
  {
    assert Pow256(1) == 256;
    assert Pow256(3) == 16777216;
  }

  lemma LeBack(n: nat, k: nat, rest: Bytes)
    requires n < Pow256(k)
    ensures GetLe(k, PackLe(n, k) + rest) == Got(n, rest)
  {
    hide PackLe, Num;
    NumPacked(n, k);
    Ends(PackLe(n, k), rest);
  }

  lemma Ends(a: Bytes, b: Bytes)
    ensures (a + b)[..|a|] == a && (a + b)[|a|..] == b
  {
  }

  lemma SignedBack(v: int, k: nat, rest: Bytes)
    requires InSigned(v, k)
    ensures GetSigned(k, PackSigned(v, k) + rest) == Got(v, rest)
  {
    hide PackLe, Num;
    NumPacked(if v < 0 then v + Pow256(k) else v, k);
    Ends(PackSigned(v, k), rest);
  }

  lemma VarintBack(n: nat, rest: Bytes)
    requires n < Pow256(8)
    ensures GetVarint(PackVarint(n) + rest) == Got(n, rest)
  {
    hide PackLe, GetLe;
    Powers256();
    var k := if n < 65536 then 2 else if n < 4294967296 then 4 else 8;
    if n >= 253 {
      LeBack(n, k, rest);
      var head: Byte := if k == 2 then 253 else if k == 4 then 254 else 255;
      assert PackVarint(n) == [head] + PackLe(n, k);
      assert (PackVarint(n) + rest)[1..] == PackLe(n, k) + rest;
    } else {
      Ends([n], rest);
    }
  }

  lemma VarbytesBack(data: Bytes, rest: Bytes)
    requires |data| < Pow256(8)
    ensures GetVarbytes(PackVarbytes(data) + rest) == Got(data, rest)
  {
    hide PackVarint, GetVarint;
    Assoc(PackVarint(|data|), data, rest);
    VarintBack(|data|, data + rest);
    Ends(data, rest);
  }

  lemma InputBack(i: WireInput, rest: Bytes)
    requires InputOk(i)
    ensures GetInput(SerializeInput(i) + rest) == Got(i, rest)
  {
    hide PackLe, GetLe, PackVarbytes, GetVarbytes;
    var d := PackLe(i.sequence, 4);
    var c := PackVarbytes(i.script);
    var b := PackLe(i.prevIdx, 4);
    Assoc(i.prevHash, b + (c + d), rest);
    Assoc(b, c + d, rest);
    Assoc(c, d, rest);
    Ends(i.prevHash, b + (c + (d + rest)));
    LeBack(i.prevIdx, 4, c + (d + rest));
    VarbytesBack(i.script, d + rest);
    LeBack(i.sequence, 4, rest);
  }

  lemma OutputBack(o: WireOutput, rest: Bytes)
    requires OutputOk(o)
    ensures GetOutput(SerializeOutput(o) + rest) == Got(o, rest)
  {
    hide PackSigned, GetSigned, PackVarbytes, GetVarbytes;
    Assoc(PackSigned(o.value, 8), PackVarbytes(o.script), rest);
    SignedBack(o.value, 8, PackVarbytes(o.script) + rest);
    VarbytesBack(o.script, rest);
  }

  lemma {:induction false} InputsBack(ins: seq<WireInput>, rest: Bytes)
    requires forall i :: 0 <= i < |ins| ==> InputOk(ins[i])
    ensures GetInputs(|ins|, SerializeInputs(ins) + rest) == Got(ins, rest)
  {
    hide GetInput, SerializeInput, InputOk;
    if ins == [] {
      assert [] + rest == rest;
    } else {
      Assoc(SerializeInput(ins[0]), SerializeInputs(ins[1..]), rest);
      InputBack(ins[0], SerializeInputs(ins[1..]) + rest);
      InputsBack(ins[1..], rest);
      assert [ins[0]] + ins[1..] == ins;
    }
  }

  lemma {:induction false} OutputsBack(outs: seq<WireOutput>, rest: Bytes)
    requires forall i :: 0 <= i < |outs| ==> OutputOk(outs[i])
    ensures GetOutputs(|outs|, SerializeOutputs(outs) + rest) == Got(outs, rest)
  {
    hide GetOutput, SerializeOutput, OutputOk;
    if outs == [] {
      assert [] + rest == rest;
    } else {
      Assoc(SerializeOutput(outs[0]), SerializeOutputs(outs[1..]), rest);
      OutputBack(outs[0], SerializeOutputs(outs[1..]) + rest);
      OutputsBack(outs[1..], rest);
      assert [outs[0]] + outs[1..] == outs;
    }
  }

  lemma {:induction false} ItemsBack(items: seq<Bytes>, rest: Bytes)
    requires forall i :: 0 <= i < |items| ==> |items[i]| < Pow256(8)
    ensures GetItems(|items|, SerializeItems(items) + rest) == Got(items, rest)
  {
    hide GetVarbytes, PackVarbytes;
    if items == [] {
      assert [] + rest == rest;
    } else {
      Assoc(PackVarbytes(items[0]), SerializeItems(items[1..]), rest);
      VarbytesBack(items[0], SerializeItems(items[1..]) + rest);
      ItemsBack(items[1..], rest);
      assert [items[0]] + items[1..] == items;
    }
  }

  lemma FieldBack(items: seq<Bytes>, rest: Bytes)
    requires FieldOk(items)
    ensures GetField(SerializeField(items) + rest) == Got(items, rest)
  {
    hide GetVarint, PackVarint, GetItems, SerializeItems;
    Assoc(PackVarint(|items|), SerializeItems(items), rest);
    VarintBack(|items|, SerializeItems(items) + rest);
    ItemsBack(items, rest);
  }

  lemma {:induction false} WitnessBack(w: seq<seq<Bytes>>, rest: Bytes)
    requires WitnessOk(w)
    ensures GetWitness(|w|, SerializeWitness(w) + rest) == Got(w, rest)
  {
    hide GetField, SerializeField, FieldOk;
    if w == [] {
      assert [] + rest == rest;
    } else {
      Assoc(SerializeField(w[0]), SerializeWitness(w[1..]), rest);
      FieldBack(w[0], SerializeWitness(w[1..]) + rest);
      WitnessBack(w[1..], rest);
      assert [w[0]] + w[1..] == w;
    }
  }

  lemma BodyBack(tx: WireTx, rest: Bytes)
    requires TxOk(tx)
    ensures GetBody(SerializeBody(tx) + rest) == Got((tx.inputs, tx.outputs), rest)
  {
    hide GetVarint, PackVarint, GetInputs, SerializeInputs, GetOutputs, SerializeOutputs, InputOk, OutputOk;
    var a, b := PackVarint(|tx.inputs|), SerializeInputs(tx.inputs);
    var c, d := PackVarint(|tx.outputs|), SerializeOutputs(tx.outputs);
    Assoc(a + b, c + d, rest);
    Assoc(a, b, (c + d) + rest);
    Assoc(c, d, rest);
    VarintBack(|tx.inputs|, b + ((c + d) + rest));
    InputsBack(tx.inputs, (c + d) + rest);
    VarintBack(|tx.outputs|, d + rest);
    OutputsBack(tx.outputs, rest);
  }

  /** Reading a serialized transaction gives it back and consumes exactly its bytes. */
  lemma TxBack(tx: WireTx, rest: Bytes)
    requires TxOk(tx)
    ensures GetTx(Serialize(tx) + rest) == Got(tx, rest)
  {
    hide GetSigned, PackSigned, GetLe, PackLe, GetBody, SerializeBody, InputOk, OutputOk;
    var a, b, c := PackSigned(tx.version, 4), SerializeBody(tx), PackLe(tx.locktime, 4);
    Assoc(a, b + c, rest);
    Assoc(b, c, rest);
    SignedBack(tx.version, 4, b + (c + rest));
    BodyBack(tx, c + rest);
    LeBack(tx.locktime, 4, rest);
  }

  /** BIP 144 bytes: every field comes back, the bytes hashed for the txid are the
      legacy form, and the size is a quarter of 3 * base + total, rounded up (BIP 141). */
  lemma SegWitBack(tx: WireTx, flag: Byte, w: seq<seq<Bytes>>, rest: Bytes)
    requires TxOk(tx) && WitnessOk(w) && |w| == |tx.inputs|
    ensures var base, total := |Serialize(tx)|, |SerializeSegWit(tx, flag, w)|;
      GetParts(SerializeSegWit(tx, flag, w) + rest)
      == Got(Parts(tx, true, flag, w, Serialize(tx), (3 * base + total + 3) / 4), rest)
  {
    hide PackSigned, GetLe, PackLe, GetBody, SerializeBody, InputOk, OutputOk, GetWitness, SerializeWitness, FieldOk;
    hide Signed, Num, GetSigned, InSigned;
    var a, c, d, e := PackSigned(tx.version, 4), SerializeBody(tx), SerializeWitness(w), PackLe(tx.locktime, 4);
    var b := SerializeSegWit(tx, flag, w) + rest;
    Spliced(a, [0, flag], c, d, e, rest, b);
    VersionBack(tx.version, b);
    BodyBack(tx, d + (e + rest));
    WitnessBack(w, e + rest);
    LeBack(tx.locktime, 4, rest);
    SizeIs(|Serialize(tx)|, |SerializeSegWit(tx, flag, w)|);
  }

  lemma SizeIs(base: nat, total: nat)
    requires base <= total
    ensures VirtualSize(base, total - base) == (3 * base + total + 3) / 4
  {
  }

  lemma VersionBack(v: int, b: Bytes)
    requires InSigned(v, 4) && |b| >= 4 && b[..4] == PackSigned(v, 4)
    ensures Signed(Num(b[..4]), 4) == v
  {
    SignedBack(v, 4, b[4..]);
    assert PackSigned(v, 4) + b[4..] == b;
  }

  lemma Spliced(a: Bytes, mark: Bytes, c: Bytes, d: Bytes, e: Bytes, rest: Bytes, b: Bytes)
    requires |a| == 4 && |mark| == 2 && b == (a + (mark + (c + (d + e)))) + rest
    ensures |b| >= 6 && b[..4] == a && b[4] == mark[0] && b[5] == mark[1]
    ensures b[6..] == c + (d + (e + rest))
    ensures Front(b[6..], |b| - 6 - |d + (e + rest)|) == c && Front(e + rest, |e + rest| - |rest|) == e
  {
    var r := c + (d + (e + rest));
    assert b == a + (mark + r);
    assert b[4..] == mark + r;
    assert b[6..] == b[4..][2..] == r;
    Ends(c, d + (e + rest));
    Ends(e, rest);
  }

  lemma LeFour(a: Byte, b: Byte, c: Byte, d: Byte)
    ensures PackLe(a + 256 * b + 65536 * c + 16777216 * d, 4) == [a, b, c, d]
  {
    hide Num, PackLe;
    NumFour(a, b, c, d);
    PackedNum([a, b, c, d]);
  }

  lemma PowerEight()
    ensures Pow256(8) == 18446744073709551616
  {
    Powers256();
    NextPower(4);
    NextPower(5);
    NextPower(6);
    NextPower(7);
  }

  lemma SampleInput(h: Bytes)
    requires |h| == 32
    ensures var i := WireInput(h, 2, [0x51], 3);
      InputOk(i) && SerializeInput(i) == h + [2, 0, 0, 0, 1, 0x51, 3, 0, 0, 0]
  {
    PowerEight();
    Powers256();
    hide PackLe, Pow256;
    LeFour(2, 0, 0, 0);
    LeFour(3, 0, 0, 0);
    assert PackVarbytes([0x51]) == [1, 0x51];
    assert [2, 0, 0, 0] + ([1, 0x51] + [3, 0, 0, 0]) == [2, 0, 0, 0, 1, 0x51, 3, 0, 0, 0];
  }

  lemma SampleOutput()
    ensures var o := WireOutput(5000000000, [0x52, 0x53]);
      OutputOk(o) && SerializeOutput(o) == [0x00, 0xf2, 0x05, 0x2a, 0x01, 0, 0, 0, 2, 0x52, 0x53]
  {
    PowerEight();
    hide PackLe, Pow256, Num;
    NumEight(0x00, 0xf2, 0x05, 0x2a, 0x01, 0, 0, 0);
    PackedNum([0x00, 0xf2, 0x05, 0x2a, 0x01, 0, 0, 0]);
    assert PackVarbytes([0x52, 0x53]) == [2, 0x52, 0x53];
  }

  lemma SampleWitness()
    ensures WitnessOk([[[0x30]]]) && SerializeWitness([[[0x30]]]) == [1, 1, 0x30]
  {
    PowerEight();
    hide PackLe, Pow256;
    assert PackVarbytes([0x30]) == [1, 0x30];
    assert SerializeItems([[0x30]]) == PackVarbytes([0x30]) + SerializeItems([]);
    assert SerializeField([[0x30]]) == [1] + [1, 0x30];
    assert SerializeWitness([[[0x30]]]) == SerializeField([[0x30]]) + SerializeWitness([]);
  }

  lemma SampleEnds()
    ensures InSigned(-2, 4) && PackSigned(-2, 4) == [254, 255, 255, 255]
    ensures 4 < Pow256(4) && PackLe(4, 4) == [4, 0, 0, 0]
  {
    Powers256();
    hide PackLe, Pow256;
    LeFour(254, 255, 255, 255);
    LeFour(4, 0, 0, 0);
  }

  /** The two forms of a transaction from the bytes of its parts. */
  lemma FormsBack(tx: WireTx, flag: Byte, w: seq<seq<Bytes>>, version: Bytes, body: Bytes, fields: Bytes,
                  locktime: Bytes, rest: Bytes)
    requires TxOk(tx) && WitnessOk(w) && |w| == |tx.inputs|
    requires version == PackSigned(tx.version, 4) && body == SerializeBody(tx)
    requires fields == SerializeWitness(w) && locktime == PackLe(tx.locktime, 4)
    ensures var legacy := version + (body + locktime);
      && GetTx(legacy + rest) == Got(tx, rest)
      && GetParts((version + ([0, flag] + (body + (fields + locktime)))) + rest)
        == Got(Parts(tx, true, flag, w, legacy, (4 * |legacy| + |fields| + 2 + 3) / 4), rest)
  {
    hide PackSigned, PackLe, SerializeBody, SerializeWitness, WitnessOk, TxOk, GetTx, GetParts;
    TxBack(tx, rest);
    SegWitBack(tx, flag, w, rest);
  }

  ghost function Sample(h: Bytes): WireTx {
    WireTx(-2, [WireInput(h, 2, [0x51], 3)], [WireOutput(5000000000, [0x52, 0x53])], 4)
  }

  lemma SampleOk(h: Bytes)
    requires |h| == 32
    ensures TxOk(Sample(h))
  {
    hide InputOk, OutputOk, InSigned, Pow256;
    PowerEight();
    SampleInput(h);
    SampleOutput();
    SampleEnds();
  }

  lemma SampleParts(h: Bytes, input: Bytes, output: Bytes)
    requires |h| == 32
    requires input == h + [2, 0, 0, 0, 1, 0x51, 3, 0, 0, 0]
    requires output == [0x00, 0xf2, 0x05, 0x2a, 0x01, 0, 0, 0, 2, 0x52, 0x53]
    ensures TxOk(Sample(h)) && SerializeBody(Sample(h)) == ([1] + input) + ([1] + output)
  {
    hide SerializeInput, SerializeOutput, TxOk, SerializeBody;
    SampleOk(h);
    SampleInput(h);
    SampleOutput();
    SampleBody(Sample(h));
  }

  /** One transaction and its bytes, in either form. */
  lemma SampleBytes(h: Bytes, rest: Bytes, version: Bytes, input: Bytes, output: Bytes, fields: Bytes, locktime: Bytes)
    requires |h| == 32 && version == [254, 255, 255, 255]
    requires input == h + [2, 0, 0, 0, 1, 0x51, 3, 0, 0, 0]
    requires output == [0x00, 0xf2, 0x05, 0x2a, 0x01, 0, 0, 0, 2, 0x52, 0x53]
    requires fields == [1, 1, 0x30] && locktime == [4, 0, 0, 0]
    ensures var tx := WireTx(-2, [WireInput(h, 2, [0x51], 3)], [WireOutput(5000000000, [0x52, 0x53])], 4);
      var body := ([1] + input) + ([1] + output);
      && GetTx((version + (body + locktime)) + rest) == Got(tx, rest)
      && GetParts((version + ([0, 1] + (body + (fields + locktime)))) + rest)
        == Got(Parts(tx, true, 1, [[[0x30]]], version + (body + locktime), 65), rest)
  {
    hide TxOk, SerializeBody, WitnessOk, SerializeWitness, PackSigned, PackLe, GetTx, GetParts, InSigned;
    SampleParts(h, input, output);
    SampleWitness();
    SampleEnds();
    FormsBack(Sample(h), 1, [[[0x30]]], version, ([1] + input) + ([1] + output), fields, locktime, rest);
  }

  lemma SampleBody(tx: WireTx)
    requires TxOk(tx) && |tx.inputs| == 1 && |tx.outputs| == 1
    ensures SerializeBody(tx) == ([1] + SerializeInput(tx.inputs[0])) + ([1] + SerializeOutput(tx.outputs[0]))
  {
    hide SerializeInput, SerializeOutput, InputOk, OutputOk;
    assert tx.inputs[1..] == [] && tx.outputs[1..] == [];
    assert SerializeInputs(tx.inputs) == SerializeInput(tx.inputs[0]) + [];
    assert SerializeOutputs(tx.outputs) == SerializeOutput(tx.outputs[0]) + [];
  }

  // ---- reading accepts only encodings, canonical or longer ----

  /** From b down to rest, at least |s| bytes were read; exactly |s| only if they are s. */
  ghost predicate Reads(b: Bytes, rest: Bytes, s: Bytes) {
    && |rest| + |s| <= |b| && b[|b| - |rest|..] == rest
    && (|rest| + |s| == |b| ==> b == s + rest)
  }

  lemma ReadsBoth(b: Bytes, r1: Bytes, r2: Bytes, s1: Bytes, s2: Bytes)
    requires Reads(b, r1, s1) && Reads(r1, r2, s2)
    ensures Reads(b, r2, s1 + s2)
  {
    assert b[|b| - |r2|..] == r1[|r1| - |r2|..] == r2 by {
      assert b[|b| - |r1|..][|r1| - |r2|..] == b[|b| - |r2|..];
    }
    Assoc(s1, s2, r2);
  }

  lemma LeRead(k: nat, b: Bytes)
    requires GetLe(k, b).Got?
    ensures var r := GetLe(k, b); r.value < Pow256(k) && Reads(b, r.rest, PackLe(r.value, k))
  {
    hide PackLe, Num, Pow256;
    PackedNum(b[..k]);
    assert b == b[..k] + b[k..];
  }

  lemma SignedRead(k: nat, b: Bytes)
    requires GetSigned(k, b).Got? && Pow256(k) % 2 == 0
    ensures var r := GetSigned(k, b); InSigned(r.value, k) && Reads(b, r.rest, PackSigned(r.value, k))
  {
    hide PackLe, Num, Pow256;
    PackedNum(b[..k]);
    assert b == b[..k] + b[k..];
  }

  lemma BytesRead(n: nat, b: Bytes)
    requires n <= |b|
    ensures Reads(b, b[n..], b[..n])
  {
    assert b == b[..n] + b[n..];
  }

  lemma VarintRead(b: Bytes)
    requires GetVarint(b).Got?
    ensures var r := GetVarint(b); r.value < Pow256(8) && Reads(b, r.rest, PackVarint(r.value))
  {
    hide PackLe, Num;
    Powers256();
    Wider();
    if b[0] < 253 {
      assert b == [b[0]] + b[1..];
    } else {
      var k := if b[0] == 253 then 2 else if b[0] == 254 then 4 else 8;
      LeRead(k, b[1..]);
      var r := GetLe(k, b[1..]);
      assert b == [b[0]] + b[1..];
      Assoc([b[0]], PackLe(r.value, k), r.rest);
      assert b[|b| - |r.rest|..] == b[1..][|b| - 1 - |r.rest|..];
    }
  }

  lemma Wider()
    ensures Pow256(8) > 4294967296
  {
    Powers256();
    assert Pow256(5) == 256 * Pow256(4);
    assert Pow256(6) >= Pow256(5);
    assert Pow256(7) >= Pow256(6);
  }

  lemma VarbytesRead(b: Bytes)
    requires GetVarbytes(b).Got?
    ensures var r := GetVarbytes(b); |r.value| < Pow256(8) && Reads(b, r.rest, PackVarbytes(r.value))
  {
    hide GetVarint, PackVarint, Reads, Pow256;
    VarintRead(b);
    var n := GetVarint(b);
    BytesRead(n.value, n.rest);
    var r := GetVarbytes(b);
    ReadsBoth(b, n.rest, r.rest, PackVarint(|r.value|), r.value);
  }

  lemma InputRead(b: Bytes)
    requires GetInput(b).Got?
    ensures var r := GetInput(b); InputOk(r.value) && Reads(b, r.rest, SerializeInput(r.value))
  {
    hide GetVarbytes, PackVarbytes, GetLe, PackLe, Reads, Pow256;
    var i := GetInput(b).value;
    var r1 := b[32..];
    var r2 := GetLe(4, r1).rest;
    var r3 := GetVarbytes(r2).rest;
    var r4 := GetLe(4, r3).rest;
    BytesRead(32, b);
    LeRead(4, r1);
    VarbytesRead(r2);
    LeRead(4, r3);
    ReadsBoth(r2, r3, r4, PackVarbytes(i.script), PackLe(i.sequence, 4));
    ReadsBoth(r1, r2, r4, PackLe(i.prevIdx, 4), PackVarbytes(i.script) + PackLe(i.sequence, 4));
    ReadsBoth(b, r1, r4, i.prevHash, PackLe(i.prevIdx, 4) + (PackVarbytes(i.script) + PackLe(i.sequence, 4)));
  }

  lemma EvenPowers()
    ensures Pow256(4) % 2 == 0 && Pow256(8) % 2 == 0
  {
  }

  lemma OutputRead(b: Bytes)
    requires GetOutput(b).Got?
    ensures var r := GetOutput(b); OutputOk(r.value) && Reads(b, r.rest, SerializeOutput(r.value))
  {
    hide GetVarbytes, PackVarbytes, GetSigned, PackSigned, Reads, Pow256, InSigned;
    EvenPowers();
    SignedRead(8, b);
    var r1 := GetSigned(8, b).rest;
    VarbytesRead(r1);
    var o := GetOutput(b);
    ReadsBoth(b, r1, o.rest, PackSigned(o.value.value, 8), PackVarbytes(o.value.script));
  }

  lemma NothingRead(b: Bytes)
    ensures Reads(b, b, [])
  {
  }

  lemma {:induction false} InputsRead(n: nat, b: Bytes)
    requires GetInputs(n, b).Got?
    ensures var r := GetInputs(n, b);
      && |r.value| == n && (forall i :: 0 <= i < n ==> InputOk(r.value[i]))
      && Reads(b, r.rest, SerializeInputs(r.value))
  {
    hide GetInput, SerializeInput, InputOk, Reads;
    if n == 0 {
      NothingRead(b);
    } else {
      InputRead(b);
      var r1 := GetInput(b);
      InputsRead(n - 1, r1.rest);
      var r := GetInputs(n, b);
      var r2 := GetInputs(n - 1, r1.rest);
      assert r.value[1..] == r2.value;
      ReadsBoth(b, r1.rest, r.rest, SerializeInput(r1.value), SerializeInputs(r2.value));
    }
  }

  lemma {:induction false} OutputsRead(n: nat, b: Bytes)
    requires GetOutputs(n, b).Got?
    ensures var r := GetOutputs(n, b);
      && |r.value| == n && (forall i :: 0 <= i < n ==> OutputOk(r.value[i]))
      && Reads(b, r.rest, SerializeOutputs(r.value))
  {
    hide GetOutput, SerializeOutput, OutputOk, Reads;
    if n == 0 {
      NothingRead(b);
    } else {
      OutputRead(b);
      var r1 := GetOutput(b);
      OutputsRead(n - 1, r1.rest);
      var r := GetOutputs(n, b);
      var r2 := GetOutputs(n - 1, r1.rest);
      assert r.value[1..] == r2.value;
      ReadsBoth(b, r1.rest, r.rest, SerializeOutput(r1.value), SerializeOutputs(r2.value));
    }
  }

  /** The counted inputs and outputs of a transaction. */
  lemma BodyRead(b: Bytes, tx: WireTx)
    requires GetBody(b).Got? && tx.inputs == GetBody(b).value.0 && tx.outputs == GetBody(b).value.1
    requires InSigned(tx.version, 4) && tx.locktime < Pow256(4)
    ensures TxOk(tx) && Reads(b, GetBody(b).rest, SerializeBody(tx))
  {
    hide GetVarint, PackVarint, GetInputs, SerializeInputs, GetOutputs, SerializeOutputs, InputOk, OutputOk, Reads;
    hide Pow256, InSigned;
    VarintRead(b);
    var r1 := GetVarint(b);
    InputsRead(r1.value, r1.rest);
    var r2 := GetInputs(r1.value, r1.rest);
    VarintRead(r2.rest);
    var r3 := GetVarint(r2.rest);
    OutputsRead(r3.value, r3.rest);
    var r4 := GetOutputs(r3.value, r3.rest);
    ReadsBoth(b, r1.rest, r2.rest, PackVarint(r1.value), SerializeInputs(tx.inputs));
    ReadsBoth(r2.rest, r3.rest, r4.rest, PackVarint(r3.value), SerializeOutputs(tx.outputs));
    ReadsBoth(b, r2.rest, r4.rest, PackVarint(r1.value) + SerializeInputs(tx.inputs),
              PackVarint(r3.value) + SerializeOutputs(tx.outputs));
  }

  /** Bytes that parse re-serialize to no more bytes, and to the same bytes if to as many. */
  lemma TxRead(b: Bytes)
    requires GetTx(b).Got?
    ensures var r := GetTx(b); TxOk(r.value) && Reads(b, r.rest, Serialize(r.value))
  {
    hide GetSigned, PackSigned, GetLe, PackLe, GetBody, SerializeBody, InputOk, OutputOk, Reads, Pow256, InSigned;
    EvenPowers();
    SignedRead(4, b);
    var r1, tx := GetSigned(4, b).rest, GetTx(b).value;
    var r2 := GetBody(r1).rest;
    LeRead(4, r2);
    BodyRead(r1, tx);
    var r3 := GetLe(4, r2).rest;
    ReadsBoth(r1, r2, r3, SerializeBody(tx), PackLe(tx.locktime, 4));
    ReadsBoth(b, r1, r3, PackSigned(tx.version, 4), SerializeBody(tx) + PackLe(tx.locktime, 4));
  }

  /** A legacy transaction with an input reads the same under both deserializers. */
  lemma LegacySame(b: Bytes)
    requires GetTx(b).Got? && GetTx(b).value.inputs != []
    ensures var r := GetTx(b);
      && |r.rest| <= |b|
      && GetParts(b) == Got(Parts(r.value, false, 0, [], b[..|b| - |r.rest|], |b| - |r.rest|), r.rest)
  {
    hide GetInputs, GetOutputs, GetLe, Serialize, Num, Signed;
    TxRead(b);
    var r1 := GetSigned(4, b).rest;
    assert r1 == b[4..];
    NoInputs(r1);
  }

  lemma NoInputs(b: Bytes)
    requires b != []
    ensures b[0] == 0 ==> GetCountedInputs(b).Got? && GetCountedInputs(b).value == []
  {
  }

  /** One without inputs is taken for the SegWit form. */
  lemma NoInputsMisread(tx: WireTx, rest: Bytes)
    requires TxOk(tx) && tx.inputs == []
    ensures GetParts(Serialize(tx) + rest).Got? ==> GetParts(Serialize(tx) + rest).value.segwit
  {
    hide GetBody, GetWitness, GetLe, PackLe, Num, Signed, PackSigned, SerializeOutputs, GetTx;
    var b := Serialize(tx) + rest;
    assert SerializeBody(tx)[0] == 0;
    assert b[4] == SerializeBody(tx)[0];
  }
}
