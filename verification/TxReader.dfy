/** The deserializers: a cursor moved over a buffer. */
module TxReader {
  import opened Types
  import opened TxCodec

  class Deserializer {
    const binary: Bytes
    var cursor: nat

    constructor (binary: Bytes, start: nat)
      requires start <= |binary|
      ensures this.binary == binary && cursor == start && Valid()
    {
      this.binary := binary;
      cursor := start;
    }

    ghost predicate Valid()
      reads this
    {
      cursor <= |binary|
    }

    /** The bytes not read yet. */
    ghost function Left(): Bytes
      requires Valid()
      reads this
    {
      binary[cursor..]
    }

    /** The next n bytes; None past the end of the buffer. */
    method ReadNbytes(n: nat) returns (r: Option<Bytes>)
      requires Valid()
      modifies this
      ensures Valid() && cursor >= old(cursor)
      ensures Agrees(r, TakeBytes(n, old(Left())), Left())
    {
      ghost var left := Left();
      var start := cursor;
      var end := start + n;
      if |binary| < end {
        return None;
      }
      cursor := end;
      assert binary[start..end] == left[..n] && Left() == left[n..];
      r := Some(binary[start..end]);
    }

    /** The next k bytes as an integer, the lowest byte first. */
    method ReadLe(k: nat) returns (r: Option<nat>)
      requires Valid()
      modifies this
      ensures Valid() && cursor >= old(cursor)
      ensures Agrees(r, GetLe(k, old(Left())), Left())
      ensures k == 2 && |old(Left())| >= 2 ==> var b: seq<nat> := old(Left()); r == Some(b[0] + 256 * b[1])
      ensures k == 4 && |old(Left())| >= 4 ==>
        var b: seq<nat> := old(Left()); r == Some(b[0] + 256 * b[1] + 65536 * b[2] + 16777216 * b[3])
    {
      hide Num;
      if cursor + k > |binary| {
        return None;
      }
      ghost var left := Left();
      if k == 2 {
        NumTwo(left[0], left[1]);
        assert left[..2] == [left[0], left[1]];
      } else if k == 4 {
        NumFour(left[0], left[1], left[2], left[3]);
        assert left[..4] == [left[0], left[1], left[2], left[3]];
      }
      r := Some(Num(binary[cursor..cursor + k]));
      assert binary[cursor..cursor + k] == left[..k];
      cursor := cursor + k;
      assert Left() == left[k..];
    }

    method ReadSigned(k: nat) returns (r: Option<int>)
      requires Valid()
      modifies this
      ensures Valid() && cursor >= old(cursor)
      ensures Agrees(r, GetSigned(k, old(Left())), Left())
    {
      var n := ReadLe(k);
      if n.None? {
        return None;
      }
      r := Some(Signed(n.value, k));
    }

    method ReadVarint() returns (r: Option<nat>)
      requires Valid()
      modifies this
      ensures Valid() && cursor >= old(cursor)
      ensures Agrees(r, GetVarint(old(Left())), Left())
    {
      hide GetLe;
      if cursor >= |binary| {
        return None;
      }
      ghost var left := Left();
      var n := binary[cursor];
      cursor := cursor + 1;
      assert Left() == left[1..];
      if n < 253 {
        return Some(n);
      }
      if n == 253 {
        r := ReadLe(2);
      } else if n == 254 {
        r := ReadLe(4);
      } else {
        r := ReadLe(8);
      }
    }

    method ReadVarbytes() returns (r: Option<Bytes>)
      requires Valid()
      modifies this
      ensures Valid() && cursor >= old(cursor)
      ensures Agrees(r, GetVarbytes(old(Left())), Left())
    {
      hide GetVarint, TakeBytes;
      var n := ReadVarint();
      if n.None? {
        return None;
      }
      r := ReadNbytes(n.value);
    }

    method ReadInput() returns (r: Option<WireInput>)
      requires Valid()
      modifies this
      ensures Valid() && cursor >= old(cursor)
      ensures Agrees(r, GetInput(old(Left())), Left())
    {
      hide GetLe, GetVarbytes, TakeBytes;
      var prevHash := ReadNbytes(32);
      if prevHash.None? {
        return None;
      }
      var prevIdx := ReadLe(4);
      if prevIdx.None? {
        return None;
      }
      var script := ReadVarbytes();
      if script.None? {
        return None;
      }
      var sequence := ReadLe(4);
      if sequence.None? {
        return None;
      }
      r := Some(WireInput(prevHash.value, prevIdx.value, script.value, sequence.value));
    }

    method ReadOutput() returns (r: Option<WireOutput>)
      requires Valid()
      modifies this
      ensures Valid() && cursor >= old(cursor)
      ensures Agrees(r, GetOutput(old(Left())), Left())
    {
      hide GetSigned, GetVarbytes;
      var value := ReadSigned(8);
      if value.None? {
        return None;
      }
      var script := ReadVarbytes();
      if script.None? {
        return None;
      }
      r := Some(WireOutput(value.value, script.value));
    }

    method ReadInputs() returns (r: Option<seq<WireInput>>)
      requires Valid()
      modifies this
      ensures Valid() && cursor >= old(cursor)
      ensures Agrees(r, GetCountedInputs(old(Left())), Left())
    {
      hide GetInput, GetVarint;
      var n := ReadVarint();
      if n.None? {
        return None;
      }
      ghost var all := GetInputs(n.value, Left());
      var ins := [];
      AfterNone(all);
      for i := 0 to n.value
        invariant Valid() && cursor >= old(cursor) && all == After(ins, GetInputs(n.value - i, Left()))
      {
        InputsStep(n.value - i, Left(), ins);
        var x := ReadInput();
        if x.None? {
          return None;
        }
        ins := ins + [x.value];
      }
      AfterEnd(ins, Left());
      assert GetInputs(0, Left()) == Got([], Left());
      r := Some(ins);
    }

    method ReadOutputs() returns (r: Option<seq<WireOutput>>)
      requires Valid()
      modifies this
      ensures Valid() && cursor >= old(cursor)
      ensures Agrees(r, GetCountedOutputs(old(Left())), Left())
    {
      hide GetOutput, GetVarint;
      var n := ReadVarint();
      if n.None? {
        return None;
      }
      ghost var all := GetOutputs(n.value, Left());
      var outs := [];
      AfterNone(all);
      for i := 0 to n.value
        invariant Valid() && cursor >= old(cursor) && all == After(outs, GetOutputs(n.value - i, Left()))
      {
        OutputsStep(n.value - i, Left(), outs);
        var x := ReadOutput();
        if x.None? {
          return None;
        }
        outs := outs + [x.value];
      }
      AfterEnd(outs, Left());
      assert GetOutputs(0, Left()) == Got([], Left());
      r := Some(outs);
    }

    /** The inputs, then the outputs. */
    method ReadBody() returns (r: Option<(seq<WireInput>, seq<WireOutput>)>)
      requires Valid()
      modifies this
      ensures Valid() && cursor >= old(cursor)
      ensures Agrees(r, GetBody(old(Left())), Left())
    {
      hide GetCountedInputs, GetCountedOutputs;
      var ins := ReadInputs();
      if ins.None? {
        return None;
      }
      var outs := ReadOutputs();
      if outs.None? {
        return None;
      }
      r := Some((ins.value, outs.value));
    }

    /** A transaction in the legacy form, with the hash of the bytes read. */
    method ReadTx(hash: Bytes -> Hash) returns (r: Option<(WireTx, Hash)>)
      requires Valid()
      modifies this
      ensures Valid() && cursor >= old(cursor)
      ensures var t := GetTx(old(Left()));
        if t.Fail? then r.None?
        else Left() == t.rest && r == Some((t.value, hash(binary[old(cursor)..cursor])))
    {
      hide GetSigned, GetLe, GetBody;
      var start := cursor;
      var version := ReadSigned(4);
      if version.None? {
        return None;
      }
      var body := ReadBody();
      if body.None? {
        return None;
      }
      var locktime := ReadLe(4);
      if locktime.None? {
        return None;
      }
      r := Some((WireTx(version.value, body.value.0, body.value.1, locktime.value), hash(binary[start..cursor])));
    }

    /** One input's witness. */
    method ReadWitnessField() returns (r: Option<seq<Bytes>>)
      requires Valid()
      modifies this
      ensures Valid() && cursor >= old(cursor)
      ensures Agrees(r, GetField(old(Left())), Left())
    {
      hide GetVarbytes, GetVarint;
      var n := ReadVarint();
      if n.None? {
        return None;
      }
      ghost var all := GetItems(n.value, Left());
      var items := [];
      AfterNone(all);
      for i := 0 to n.value
        invariant Valid() && cursor >= old(cursor) && all == After(items, GetItems(n.value - i, Left()))
      {
        ItemsStep(n.value - i, Left(), items);
        var x := ReadVarbytes();
        if x.None? {
          return None;
        }
        items := items + [x.value];
      }
      AfterEnd(items, Left());
      assert GetItems(0, Left()) == Got([], Left());
      r := Some(items);
    }

    method ReadWitness(fields: nat) returns (r: Option<seq<seq<Bytes>>>)
      requires Valid()
      modifies this
      ensures Valid() && cursor >= old(cursor)
      ensures Agrees(r, GetWitness(fields, old(Left())), Left())
    {
      hide GetField;
      ghost var all := GetWitness(fields, Left());
      var w := [];
      AfterNone(all);
      for i := 0 to fields
        invariant Valid() && cursor >= old(cursor) && all == After(w, GetWitness(fields - i, Left()))
      {
        WitnessStep(fields - i, Left(), w);
        var x := ReadWitnessField();
        if x.None? {
          return None;
        }
        w := w + [x.value];
      }
      AfterEnd(w, Left());
      assert GetWitness(0, Left()) == Got([], Left());
      r := Some(w);
    }

    /** A transaction in either form, its ids and its virtual size. */
    method ReadTxParts(hash: Bytes -> Hash) returns (r: Option<Read>)
      requires Valid()
      modifies this
      ensures Valid()
      ensures IsRead(r, GetParts(old(Left())), hash, binary, old(cursor), cursor)
    {
      hide GetTx, GetBody, GetWitness, GetLe, Signed, Num, VirtualSize;
      ghost var b := Left();
      var origStart := cursor;
      if cursor + 4 >= |binary| {
        return None;
      }
      var marker := binary[cursor + 4];
      if marker != 0 {
        var tx := ReadTx(hash);
        if tx.None? {
          return None;
        }
        Between(binary, origStart, cursor);
        return Some(Read(tx.value.0, tx.value.1, tx.value.1, cursor - origStart, []));
      }
      r := ReadSegWit(hash);
    }

    /** A transaction whose fifth byte is the marker 0. */
    method ReadSegWit(hash: Bytes -> Hash) returns (r: Option<Read>)
      requires Valid() && |Left()| >= 5 && Left()[4] == 0
      modifies this
      ensures Valid()
      ensures IsRead(r, GetParts(old(Left())), hash, binary, old(cursor), cursor)
    {
      hide GetTx, GetBody, GetWitness, GetLe, Signed, Num, VirtualSize, Front;
      ghost var b := Left();
      var origStart := cursor;
      var version := ReadSigned(4);
      var origSer := binary[origStart..cursor];
      assert origSer == b[..4];
      if cursor + 2 > |binary| {
        return None;
      }
      cursor := cursor + 2;
      var start := cursor;
      assert Left() == b[6..];
      var body := ReadBody();
      if body.None? {
        return None;
      }
      Between(binary, start, cursor);
      origSer := origSer + binary[start..cursor];
      var witnessStart := cursor;
      var w := ReadWitness(|body.value.0|);
      if w.None? {
        return None;
      }
      var witnessSize := cursor - witnessStart + 2;
      start := cursor;
      var locktime := ReadLe(4);
      if locktime.None? {
        return None;
      }
      Between(binary, start, cursor);
      Assoc(b[..4], binary[origStart + 6..witnessStart], binary[start..cursor]);
      origSer := origSer + binary[start..cursor];
      var baseSize := cursor - origStart - witnessSize;
      r := Some(Read(WireTx(version.value, body.value.0, body.value.1, locktime.value), hash(origSer),
                     hash(binary[origStart..cursor]), VirtualSize(baseSize, witnessSize), w.value));
    }
  }

  /** What is left at one cursor but not at a later one. */
  lemma Between(binary: Bytes, start: nat, end: nat)
    requires start <= end <= |binary|
    ensures Front(binary[start..], |binary[start..]| - |binary[end..]|) == binary[start..end]
  {
  }

  /** The outcome of reading a transaction in either form. */
  ghost predicate IsRead(r: Option<Read>, got: Got<Parts>, hash: Bytes -> Hash, binary: Bytes, start: nat, end: nat) {
    match got
    case Fail => r.None?
    case Got(p, rest) =>
      && start <= end <= |binary| && binary[end..] == rest
      && r == Some(Read(p.tx, hash(p.stripped), hash(binary[start..end]), p.vsize, p.fields))
  }

  /** A transaction read, its txid and wtxid, its virtual size and its witness. */
  datatype Read = Read(tx: WireTx, txid: Hash, wtxid: Hash, vsize: nat, fields: seq<seq<Bytes>>)

  /** A method read what the specification reads, and left what it leaves. */
  ghost predicate Agrees<T>(r: Option<T>, got: Got<T>, left: Bytes) {
    match got
    case Fail => r.None?
    case Got(value, rest) => r == Some(value) && left == rest
  }

  /** Values read earlier, in front of those read now. */
  ghost function After<T>(xs: seq<T>, got: Got<seq<T>>): Got<seq<T>> {
    match got
    case Fail => Fail
    case Got(ys, rest) => Got(xs + ys, rest)
  }

  lemma AfterNone<T>(got: Got<seq<T>>)
    ensures got == After([], got)
  {
    match got
    case Fail =>
    case Got(ys, rest) => assert [] + ys == ys;
  }

  lemma AfterMore<T>(xs: seq<T>, x: T, got: Got<seq<T>>)
    ensures After(xs, After([x], got)) == After(xs + [x], got)
  {
    match got
    case Fail =>
    case Got(ys, rest) => assert xs + ([x] + ys) == (xs + [x]) + ys;
  }

  lemma AfterEnd<T>(xs: seq<T>, b: Bytes)
    ensures After(xs, Got([], b)) == Got(xs, b)
  {
    assert xs + [] == xs;
  }

  lemma InputsStep(n: nat, b: Bytes, xs: seq<WireInput>)
    requires n > 0
    ensures GetInput(b).Fail? ==> After(xs, GetInputs(n, b)).Fail?
    ensures GetInput(b).Got? ==>
      After(xs, GetInputs(n, b)) == After(xs + [GetInput(b).value], GetInputs(n - 1, GetInput(b).rest))
  {
    hide GetInput;
    if GetInput(b).Got? {
      var x, r := GetInput(b).value, GetInput(b).rest;
      assert GetInputs(n, b) == After([x], GetInputs(n - 1, r));
      AfterMore(xs, x, GetInputs(n - 1, r));
    }
  }

  lemma OutputsStep(n: nat, b: Bytes, xs: seq<WireOutput>)
    requires n > 0
    ensures GetOutput(b).Fail? ==> After(xs, GetOutputs(n, b)).Fail?
    ensures GetOutput(b).Got? ==>
      After(xs, GetOutputs(n, b)) == After(xs + [GetOutput(b).value], GetOutputs(n - 1, GetOutput(b).rest))
  {
    hide GetOutput;
    if GetOutput(b).Got? {
      var x, r := GetOutput(b).value, GetOutput(b).rest;
      assert GetOutputs(n, b) == After([x], GetOutputs(n - 1, r));
      AfterMore(xs, x, GetOutputs(n - 1, r));
    }
  }

  lemma ItemsStep(n: nat, b: Bytes, xs: seq<Bytes>)
    requires n > 0
    ensures GetVarbytes(b).Fail? ==> After(xs, GetItems(n, b)).Fail?
    ensures GetVarbytes(b).Got? ==>
      After(xs, GetItems(n, b)) == After(xs + [GetVarbytes(b).value], GetItems(n - 1, GetVarbytes(b).rest))
  {
    hide GetVarbytes;
    if GetVarbytes(b).Got? {
      var x, r := GetVarbytes(b).value, GetVarbytes(b).rest;
      assert GetItems(n, b) == After([x], GetItems(n - 1, r));
      AfterMore(xs, x, GetItems(n - 1, r));
    }
  }

  lemma WitnessStep(n: nat, b: Bytes, xs: seq<seq<Bytes>>)
    requires n > 0
    ensures GetField(b).Fail? ==> After(xs, GetWitness(n, b)).Fail?
    ensures GetField(b).Got? ==>
      After(xs, GetWitness(n, b)) == After(xs + [GetField(b).value], GetWitness(n - 1, GetField(b).rest))
  {
    hide GetField;
    if GetField(b).Got? {
      var x, r := GetField(b).value, GetField(b).rest;
      assert GetWitness(n, b) == After([x], GetWitness(n - 1, r));
      AfterMore(xs, x, GetWitness(n - 1, r));
    }
  }
}
