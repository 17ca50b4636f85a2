/** The metadata files as records in logical files. */
module MetaFiles {
  import opened Types
  import opened TxCodec
  import opened LogicalFile
  import Database

  const HEADER_SIZE := 80
  const COUNT_SIZE := 8
  const HASH_SIZE := 32

  function Flatten(rs: seq<Bytes>): Bytes {
    if rs == [] then [] else Flatten(rs[..|rs| - 1]) + rs[|rs| - 1]
  }

  ghost predicate Sized(rs: seq<Bytes>, size: nat) {
    forall i :: 0 <= i < |rs| ==> |rs[i]| == size
  }

  // ---- records in one file ----

  /** The file holds exactly these records. */
  ghost predicate Records(f: File, rs: seq<Bytes>, size: nat)
    reads f
  {
    f.Valid() && size >= 1 && Sized(rs, size) && f.data == Flatten(rs)
  }

  /** Writing records at a record's offset writes them into the list. */
  method WriteRecords(f: File, size: nat, index: nat, rs: seq<Bytes>, ghost all: seq<Bytes>)
    requires Records(f, all, size) && Sized(rs, size) && index <= |all|
    modifies f
    ensures Records(f, WriteAt(all, index, rs), size)
  {
    hide Flatten, WriteAt, Sized;
    FlattenWrite(all, index, rs, size);
    f.Write(index * size, Flatten(rs));
  }

  /** The records from an index on, as many as there are. */
  method ReadRecords(f: File, size: nat, index: nat, count: nat, ghost all: seq<Bytes>) returns (rs: seq<Bytes>)
    requires Records(f, all, size)
    ensures rs == if index >= |all| then [] else all[index..Min(index + count, |all|)]
  {
    hide Flatten, Offset, ReadPart;
    var b := f.Read(index * size, count * size);
    ghost var part := if index >= |all| then [] else all[index..Min(index + count, |all|)];
    OffsetIs(index, size);
    OffsetIs(count, size);
    FlattenRead(all, index, count, size);
    FlattenLength(part, size);
    rs := [];
    var n := 0;
    OffsetIs(0, size);
    while n < |b|
      invariant n == Offset(|rs|, size) && |rs| <= |part| && rs == part[..|rs|]
      decreases |b| - n
    {
      OffsetNext(|rs|, size);
      OffsetBelow(|rs|, |part|, size);
      FlattenCut(part, size, |rs|);
      rs := rs + [b[n..n + size]];
      n := n + size;
    }
    if |rs| < |part| {
      OffsetNext(|rs|, size);
      FlattenCut(part, size, |rs|);
    }
  }

  // ---- the three files ----

  function Packed(counts: seq<nat>): (r: seq<Bytes>)
    ensures |r| == |counts|
  {
    if counts == [] then [] else Packed(counts[..|counts| - 1]) + [PackLe(counts[|counts| - 1], COUNT_SIZE)]
  }

  class Meta {
    const headersFile: File
    const txCountsFile: File
    const hashesFile: File

    constructor (headers: File, txCounts: File, hashes: File)
      ensures headersFile == headers && txCountsFile == txCounts && hashesFile == hashes
    {
      headersFile, txCountsFile, hashesFile := headers, txCounts, hashes;
    }

    /** The logical files hold the arrays of records: headers of 80 bytes, counts
        as 64-bit integers, hashes. */
    ghost predicate Holds(files: Database.Files)
      reads headersFile, txCountsFile, hashesFile
    {
      && headersFile != txCountsFile && headersFile != hashesFile && txCountsFile != hashesFile
      && Records(headersFile, files.headers, HEADER_SIZE)
      && Records(txCountsFile, Packed(files.txCounts), COUNT_SIZE)
      && Records(hashesFile, files.hashes, HASH_SIZE)
    }

    method WriteHeaders(height: nat, headers: seq<Header>, ghost files: Database.Files)
      requires Holds(files) && height <= |files.headers| && Sized(headers, HEADER_SIZE)
      modifies headersFile
      ensures Holds(files.(headers := WriteAt(files.headers, height, headers)))
    {
      hide Records, WriteAt, Packed;
      WriteRecords(headersFile, HEADER_SIZE, height, headers, files.headers);
    }

    method WriteTxCounts(height: nat, counts: seq<nat>, ghost files: Database.Files)
      requires Holds(files) && height <= |files.txCounts|
      modifies txCountsFile
      ensures Holds(files.(txCounts := WriteAt(files.txCounts, height, counts)))
    {
      hide Records, WriteAt, Packed;
      PackedSized(counts);
      PackedWrite(files.txCounts, height, counts);
      WriteRecords(txCountsFile, COUNT_SIZE, height, Packed(counts), Packed(files.txCounts));
    }

    method WriteHashes(txNum: nat, hashes: seq<Hash>, ghost files: Database.Files)
      requires Holds(files) && txNum <= |files.hashes|
      modifies hashesFile
      ensures Holds(files.(hashes := WriteAt(files.hashes, txNum, hashes)))
    {
      hide Records, Packed;
      WriteRecords(hashesFile, HASH_SIZE, txNum, hashes, files.hashes);
    }

    /** The counts up to a height, unless one is too large for 64 bits. */
    method ReadTxCounts(n: nat, ghost files: Database.Files) returns (counts: seq<nat>)
      requires Holds(files) && n <= |files.txCounts|
      requires forall i :: 0 <= i < n ==> files.txCounts[i] < Pow256(COUNT_SIZE)
      ensures counts == files.txCounts[..n]
    {
      hide Records, Packed, Num, PackLe, Pow256;
      PackedAt(files.txCounts);
      var rs := ReadRecords(txCountsFile, COUNT_SIZE, 0, n, Packed(files.txCounts));
      counts := [];
      for i := 0 to |rs|
        invariant |rs| == n && counts == files.txCounts[..i]
      {
        NumPacked(files.txCounts[i], COUNT_SIZE);
        counts := counts + [Num(rs[i])];
      }
    }

    /** The ids of the transactions from a number on. */
    method ReadHashes(txNum: nat, count: nat, ghost files: Database.Files) returns (hashes: seq<Bytes>)
      requires Holds(files) && txNum + count <= |files.hashes|
      ensures hashes == files.hashes[txNum..txNum + count]
    {
      hide Records;
      hashes := ReadRecords(hashesFile, HASH_SIZE, txNum, count, files.hashes);
    }
  }

  // ---- lemmas ----

  ghost function Offset(n: nat, size: nat): nat {
    n * size
  }

  lemma OffsetNext(n: nat, size: nat)
    ensures Offset(n + 1, size) == Offset(n, size) + size
  {
  }

  lemma OffsetSum(m: nat, n: nat, size: nat)
    ensures Offset(m + n, size) == Offset(m, size) + Offset(n, size)
  {
  }

  lemma OffsetBelow(m: nat, n: nat, size: nat)
    requires size >= 1
    ensures m < n <==> Offset(m, size) < Offset(n, size)
    ensures m <= n <==> Offset(m, size) <= Offset(n, size)
  {
    if m < n {
      OffsetSum(m, n - m, size);
      assert Offset(n - m, size) >= size;
    } else {
      OffsetSum(n, m - n, size);
      assert m > n ==> Offset(m - n, size) >= size;
    }
  }

  lemma {:induction false} FlattenLength(rs: seq<Bytes>, size: nat)
    requires Sized(rs, size)
    ensures |Flatten(rs)| == Offset(|rs|, size)
  {
    hide Offset;
    if rs == [] {
      assert Offset(0, size) == 0 by {
        OffsetSum(0, 0, size);
      }
    } else {
      FlattenLength(rs[..|rs| - 1], size);
      OffsetNext(|rs| - 1, size);
    }
  }

  lemma {:induction false} FlattenConcat(a: seq<Bytes>, b: seq<Bytes>)
    ensures Flatten(a + b) == Flatten(a) + Flatten(b)
  {
    if b == [] {
      assert a + b == a;
    } else {
      FrontOfJoin(a, b);
      FlattenConcat(a, b[..|b| - 1]);
    }
  }

  lemma FlattenOne(r: Bytes)
    ensures Flatten([r]) == r
  {
    assert [r][..0] == [];
  }

  /** Cutting at record i. */
  lemma FlattenSplit(rs: seq<Bytes>, size: nat, i: nat)
    requires Sized(rs, size) && i <= |rs|
    ensures Offset(i, size) <= |Flatten(rs)| == Offset(|rs|, size)
    ensures Flatten(rs)[..Offset(i, size)] == Flatten(rs[..i]) && Flatten(rs)[Offset(i, size)..] == Flatten(rs[i..])
  {
    hide Flatten, Offset;
    assert rs == rs[..i] + rs[i..];
    FlattenConcat(rs[..i], rs[i..]);
    FlattenLength(rs[..i], size);
    FlattenLength(rs[i..], size);
    OffsetSum(i, |rs| - i, size);
  }

  /** Record i of the bytes. */
  lemma FlattenCut(rs: seq<Bytes>, size: nat, i: nat)
    requires Sized(rs, size) && i <= |rs|
    ensures Offset(i, size) <= |Flatten(rs)| == Offset(|rs|, size)
    ensures i < |rs| ==>
      && Offset(i, size) + size <= |Flatten(rs)|
      && Flatten(rs)[Offset(i, size)..Offset(i, size) + size] == rs[i]
  {
    hide Flatten, Offset;
    FlattenSplit(rs, size, i);
    if i < |rs| {
      var tail := rs[i..];
      FlattenSplit(rs, size, i + 1);
      OffsetNext(i, size);
      assert tail == [rs[i]] + rs[i + 1..];
      FlattenConcat([rs[i]], rs[i + 1..]);
      FlattenOne(rs[i]);
      Front(Flatten(rs), Offset(i, size), size, rs[i], Flatten(rs[i + 1..]));
    }
  }

  lemma Front(all: Bytes, from: nat, size: nat, a: Bytes, b: Bytes)
    requires from + size <= |all| && all[from..] == a + b && |a| == size
    ensures all[from..from + size] == a
  {
    assert all[from..from + size] == all[from..][..size];
  }

  lemma FlattenRead(rs: seq<Bytes>, index: nat, count: nat, size: nat)
    requires Sized(rs, size) && size >= 1
    ensures ReadPart(Flatten(rs), Offset(index, size), Offset(count, size))
      == if index >= |rs| then [] else Flatten(rs[index..Min(index + count, |rs|)])
  {
    hide Flatten, Offset, Sized, ReadPart;
    FlattenLength(rs, size);
    OffsetBelow(index, |rs|, size);
    OffsetSum(index, count, size);
    OffsetBelow(index + count, |rs|, size);
    ReadPartIs(Flatten(rs), Offset(index, size), Offset(count, size));
    if index < |rs| {
      if index + count >= |rs| {
        FlattenSplit(rs, size, index);
        assert rs[index..|rs|] == rs[index..];
      } else {
        FlattenMiddle(rs, index, count, size);
      }
    }
  }

  lemma ReadPartIs(b: Bytes, offset: nat, size: nat)
    ensures offset >= |b| ==> ReadPart(b, offset, size) == []
    ensures offset < |b| <= offset + size ==> ReadPart(b, offset, size) == b[offset..]
    ensures offset + size < |b| ==> ReadPart(b, offset, size) == b[offset..offset + size]
  {
  }

  lemma SizedPart(rs: seq<Bytes>, size: nat, a: nat, b: nat)
    requires Sized(rs, size) && a <= b <= |rs|
    ensures Sized(rs[a..], size) && Sized(rs[a..b], size)
  {
  }

  lemma FlattenMiddle(rs: seq<Bytes>, index: nat, count: nat, size: nat)
    requires Sized(rs, size) && index + count <= |rs|
    ensures Offset(index, size) + Offset(count, size) <= |Flatten(rs)|
    ensures Flatten(rs)[Offset(index, size)..Offset(index, size) + Offset(count, size)]
      == Flatten(rs[index..index + count])
  {
    hide Flatten, Offset, Sized;
    var tail := rs[index..];
    SizedPart(rs, size, index, index + count);
    FlattenSplit(rs, size, index);
    FlattenSplit(tail, size, count);
    assert tail[..count] == rs[index..index + count];
    FlattenLength(tail[..count], size);
    var t := Flatten(tail);
    assert t == t[..Offset(count, size)] + t[Offset(count, size)..];
    Front(Flatten(rs), Offset(index, size), Offset(count, size), t[..Offset(count, size)], t[Offset(count, size)..]);
  }

  lemma OffsetIs(n: nat, size: nat)
    ensures Offset(n, size) == n * size
  {
  }

  lemma FlattenWrite(all: seq<Bytes>, index: nat, rs: seq<Bytes>, size: nat)
    requires Sized(all, size) && Sized(rs, size) && index <= |all| && size >= 1
    ensures index * size <= |Flatten(all)|
    ensures WriteAt(Flatten(all), index * size, Flatten(rs)) == Flatten(WriteAt(all, index, rs))
    ensures Sized(WriteAt(all, index, rs), size)
  {
    hide Flatten, Offset;
    OffsetIs(index, size);
    FlattenSplit(all, size, index);
    FlattenLength(rs, size);
    OffsetSum(index, |rs|, size);
    OffsetBelow(index + |rs|, |all|, size);
    FlattenConcat(all[..index], rs);
    if index + |rs| <= |all| {
      FlattenSplit(all, size, index + |rs|);
      FlattenConcat(all[..index] + rs, all[index + |rs|..]);
    } else {
      assert (all[..index] + rs) + [] == all[..index] + rs;
      var b := Flatten(all[..index]) + Flatten(rs);
      assert b + [] == b;
    }
  }

  lemma {:induction false} PackedAt(counts: seq<nat>)
    ensures forall i :: 0 <= i < |counts| ==> Packed(counts)[i] == PackLe(counts[i], COUNT_SIZE)
  {
    hide PackLe;
    if counts != [] {
      PackedAt(counts[..|counts| - 1]);
    }
  }

  lemma PackedSized(counts: seq<nat>)
    ensures Sized(Packed(counts), COUNT_SIZE)
  {
    hide PackLe, Packed;
    PackedAt(counts);
  }

  lemma PackedWrite(all: seq<nat>, index: nat, counts: seq<nat>)
    requires index <= |all|
    ensures WriteAt(Packed(all), index, Packed(counts)) == Packed(WriteAt(all, index, counts))
  {
    hide PackLe, Packed;
    PackedAt(all);
    PackedAt(counts);
    PackedAt(WriteAt(all, index, counts));
  }
}
