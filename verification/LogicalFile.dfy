/** One logical file split over several files of a fixed size. */
module LogicalFile {
  import opened Types

  function Min(a: nat, b: nat): nat {
    if a <= b then a else b
  }

  /** Reading up to `size` bytes from an offset of one file; all of them if size is negative. */
  function ReadPart(file: Bytes, offset: nat, size: int): Bytes {
    if offset >= |file| then []
    else if size < 0 || offset + size >= |file| then file[offset..]
    else file[offset..offset + size]
  }

  /** Where file k begins. */
  ghost function Begin(k: nat, fileSize: nat): nat {
    k * fileSize
  }

  /** Piece k of the flat contents. */
  ghost function Piece(data: Bytes, fileSize: nat, k: nat): Bytes {
    var lo := Begin(k, fileSize);
    if lo >= |data| then [] else data[lo..Min(lo + fileSize, |data|)]
  }

  /** The files are the contents cut into pieces, none of them missing or empty. */
  ghost predicate Layout(files: map<nat, Bytes>, data: Bytes, fileSize: nat) {
    && (forall k: nat :: k in files <==> Begin(k, fileSize) < |data|)
    && (forall k: nat :: k in files ==> files[k] == Piece(data, fileSize, k))
  }

  class File {
    const fileSize: nat
    var files: map<nat, Bytes>
    /** The bytes of the logical file. */
    ghost var data: Bytes

    constructor (fileSize: nat)
      requires fileSize >= 1
      ensures Valid() && data == [] && this.fileSize == fileSize
    {
      this.fileSize := fileSize;
      files, data := map[], [];
      new;
      NoPieces(fileSize);
    }

    ghost predicate Valid()
      reads this
    {
      fileSize >= 1 && Layout(files, data, fileSize)
    }

    /** Up to `size` bytes from an offset, to the end if size is negative. */
    method Read(start0: nat, size0: int) returns (r: Bytes)
      requires Valid()
      ensures r == ReadPart(data, start0, size0)
    {
      hide Layout, Piece, ReadPart, Taken;
      var start, size := start0, size0;
      r := [];
      TakenNone(data, start0);
      while size != 0
        invariant start0 <= start && (size0 < 0 ==> size < 0) && (size0 >= 0 ==> size == size0 - (start - start0) >= 0)
        invariant r == Taken(data, start0, start) && (start == start0 || start <= |data|)
        decreases if start <= |data| then |data| - start else 0
      {
        PieceAt(files, data, fileSize, start, size);
        var fileNum: nat, offset: nat := start / fileSize, start % fileSize;
        if fileNum !in files {
          break;
        }
        var part := ReadPart(files[fileNum], offset, size);
        if part == [] {
          break;
        }
        r := r + part;
        start := start + |part|;
        if size > 0 {
          size := size - |part|;
        }
      }
      TakenAll(data, start0, start, size0);
    }

    /** Write bytes at an offset the file reaches. */
    method Write(start0: nat, b0: Bytes)
      requires Valid() && start0 <= |data|
      modifies this
      ensures Valid() && data == WriteAt(old(data), start0, b0)
    {
      hide Layout, Piece;
      var start, b := start0, b0;
      ghost var done: Bytes := [];
      assert WriteAt(data, start, []) == data;
      while b != []
        invariant Valid() && done + b == b0 && start == start0 + |done| <= |data|
        invariant data == WriteAt(old(data), start0, done)
        decreases |b|
      {
        Division(start, fileSize);
        var size := Min(|b|, fileSize - start % fileSize);
        var fileNum: nat, offset: nat := start / fileSize, start % fileSize;
        PieceReaches(files, data, fileSize, start);
        var file := if fileNum in files then files[fileNum] else [];
        PieceWritten(files, data, fileSize, start, b[..size]);
        WriteAtTwice(old(data), start0, done, b[..size]);
        files := files[fileNum := WriteAt(file, offset, b[..size])];
        data := WriteAt(data, start, b[..size]);
        done := done + b[..size];
        b := b[size..];
        start := start + size;
      }
      assert done + [] == done;
    }
  }

  /** The bytes from start0 up to start. */
  ghost function Taken(data: Bytes, start0: nat, start: nat): Bytes
    requires start0 <= start
  {
    if start0 >= |data| then [] else data[start0..Min(start, |data|)]
  }

  // ---- lemmas ----

  lemma TakenNone(data: Bytes, start: nat)
    ensures Taken(data, start, start) == []
  {
  }

  lemma TakenAll(data: Bytes, start0: nat, start: nat, size: int)
    requires start0 <= start
    requires start >= |data| || (size >= 0 && start == start0 + size)
    requires start == start0 || start <= |data|
    requires size >= 0 ==> start <= start0 + size
    ensures Taken(data, start0, start) == ReadPart(data, start0, size)
  {
  }

  lemma Division(n: nat, d: nat)
    requires d >= 1
    ensures n == Begin(n / d, d) + n % d && n % d < d
  {
  }

  lemma NoPieces(fileSize: nat)
    ensures Layout(map[], [], fileSize)
  {
    assert forall k: nat :: Begin(k, fileSize) >= 0;
  }

  /** What one file gives at a position is what the contents have there. */
  lemma PieceAt(files: map<nat, Bytes>, data: Bytes, fileSize: nat, start: nat, size: int)
    requires fileSize >= 1 && Layout(files, data, fileSize) && size != 0
    ensures var k: nat, offset: nat := start / fileSize, start % fileSize;
      && (k !in files ==> start >= |data|)
      && (k in files ==>
            var part := ReadPart(files[k], offset, size);
            && (part == [] <==> start >= |data|)
            && (start < |data| ==> start + |part| <= |data|)
            && (size > 0 ==> |part| <= size)
            && (forall start0: nat :: start0 <= start < |data| ==>
                  Taken(data, start0, start) + part == Taken(data, start0, start + |part|)))
  {
    hide Taken, ReadPart, Begin;
    Division(start, fileSize);
    var k: nat, offset: nat := start / fileSize, start % fileSize;
    assert k in files <==> Begin(k, fileSize) < |data|;
    if k in files {
      PartOf(data, Begin(k, fileSize), fileSize, offset, size, files[k]);
      var part := ReadPart(files[k], offset, size);
      forall start0: nat | start0 <= start < |data|
        ensures Taken(data, start0, start) + part == Taken(data, start0, start + |part|)
      {
        TakenMore(data, start0, start, part);
      }
    }
  }

  lemma PartOf(data: Bytes, lo: nat, fileSize: nat, offset: nat, size: int, file: Bytes)
    requires lo < |data| && offset < fileSize && size != 0 && file == data[lo..Min(lo + fileSize, |data|)]
    ensures var start, part := lo + offset, ReadPart(file, offset, size);
      && (part == [] <==> start >= |data|)
      && (start < |data| ==> start + |part| <= |data| && part == data[start..start + |part|])
      && (size > 0 ==> |part| <= size)
  {
  }

  lemma TakenMore(data: Bytes, start0: nat, start: nat, part: Bytes)
    requires start0 <= start < |data| && start + |part| <= |data| && part == data[start..start + |part|]
    ensures Taken(data, start0, start) + part == Taken(data, start0, start + |part|)
  {
    assert data[start0..start] + data[start..start + |part|] == data[start0..start + |part|];
  }

  lemma PieceReaches(files: map<nat, Bytes>, data: Bytes, fileSize: nat, start: nat)
    requires fileSize >= 1 && Layout(files, data, fileSize) && start <= |data|
    ensures var k: nat, offset: nat := start / fileSize, start % fileSize;
      if k in files then offset <= |files[k]| else offset == 0
  {
    hide Begin;
    Division(start, fileSize);
    var k: nat := start / fileSize;
    assert k in files <==> Begin(k, fileSize) < |data|;
  }

  lemma WriteAtTwice(data: Bytes, start: nat, a: Bytes, b: Bytes)
    requires start <= |data|
    ensures start + |a| <= |WriteAt(data, start, a)|
    ensures WriteAt(WriteAt(data, start, a), start + |a|, b) == WriteAt(data, start, a + b)
  {
  }

  /** Writing within one file writes the contents and keeps the layout. */
  lemma PieceWritten(files: map<nat, Bytes>, data: Bytes, fileSize: nat, start: nat, b: Bytes)
    requires fileSize >= 1 && Layout(files, data, fileSize) && start <= |data|
    requires b != [] && start % fileSize + |b| <= fileSize
    ensures var k: nat, offset: nat := start / fileSize, start % fileSize;
      var file := if k in files then files[k] else [];
      && offset <= |file|
      && Layout(files[k := WriteAt(file, offset, b)], WriteAt(data, start, b), fileSize)
  {
    hide Begin;
    PieceReaches(files, data, fileSize, start);
    Division(start, fileSize);
    var k: nat, offset: nat := start / fileSize, start % fileSize;
    var file := if k in files then files[k] else [];
    var data' := WriteAt(data, start, b);
    var files' := files[k := WriteAt(file, offset, b)];
    assert k in files <==> Begin(k, fileSize) < |data|;
    SamePiece(data, fileSize, start, b, k, offset, file);
    forall j: nat | j != k
      ensures j in files' <==> Begin(j, fileSize) < |data'|
      ensures j in files' ==> files'[j] == Piece(data', fileSize, j)
    {
      assert j in files <==> Begin(j, fileSize) < |data|;
      OtherPiece(data, fileSize, start, b, k, j);
    }
  }

  lemma SamePiece(data: Bytes, fileSize: nat, start: nat, b: Bytes, k: nat, offset: nat, file: Bytes)
    requires file == Piece(data, fileSize, k) && start == Begin(k, fileSize) + offset <= |data|
    requires b != [] && offset + |b| <= fileSize && offset <= |file|
    ensures Begin(k, fileSize) < |WriteAt(data, start, b)|
    ensures WriteAt(file, offset, b) == Piece(WriteAt(data, start, b), fileSize, k)
  {
    hide WriteAt, Begin;
    var lo := Begin(k, fileSize);
    assert file == data[lo..Min(lo + fileSize, |data|)];
    CutWritten(data, lo, fileSize, offset, b, file);
  }

  lemma WrittenParts(data: Bytes, start: nat, b: Bytes)
    requires start <= |data|
    ensures var data' := WriteAt(data, start, b);
      && start + |b| <= |data'| && data'[..start] == data[..start] && data'[start..start + |b|] == b
      && (start + |b| <= |data| ==> |data'| == |data| && data'[start + |b|..] == data[start + |b|..])
      && (start + |b| > |data| ==> |data'| == start + |b|)
  {
  }

  lemma CutWritten(data: Bytes, lo: nat, n: nat, offset: nat, b: Bytes, file: Bytes)
    requires lo + offset <= |data| && b != [] && offset + |b| <= n
    requires file == data[lo..Min(lo + n, |data|)]
    ensures var data' := WriteAt(data, lo + offset, b);
      lo < |data'| && offset <= |file| && WriteAt(file, offset, b) == data'[lo..Min(lo + n, |data'|)]
  {
    hide WriteAt;
    var start, hi := lo + offset, Min(lo + n, |data|);
    var data', file' := WriteAt(data, start, b), WriteAt(file, offset, b);
    WrittenParts(data, start, b);
    WrittenParts(file, offset, b);
    forall i | 0 <= i < |file'|
      ensures file'[i] == data'[lo + i]
    {
      if i < offset {
        assert file'[i] == file'[..offset][i] == file[i] == data[..start][lo + i] == data'[..start][lo + i];
      } else if i < offset + |b| {
        assert file'[i] == file'[offset..offset + |b|][i - offset];
        assert data'[lo + i] == data'[start..start + |b|][i - offset];
      } else {
        assert file'[i] == file'[offset + |b|..][i - offset - |b|] == file[i];
        assert data'[lo + i] == data'[start + |b|..][i - offset - |b|] == data[lo + i];
      }
    }
  }

  lemma OtherPiece(data: Bytes, fileSize: nat, start: nat, b: Bytes, k: nat, j: nat)
    requires fileSize >= 1 && start <= |data| && j != k
    requires Begin(k, fileSize) <= start && start + |b| <= Begin(k, fileSize) + fileSize
    ensures Begin(j, fileSize) < |WriteAt(data, start, b)| <==> Begin(j, fileSize) < |data|
    ensures Begin(j, fileSize) < |data| ==> Piece(WriteAt(data, start, b), fileSize, j) == Piece(data, fileSize, j)
  {
    hide WriteAt, Begin;
    Apart(j, k, fileSize);
    CutApart(data, start, b, Begin(j, fileSize), fileSize);
  }

  /** A cut wholly before or after what is written. */
  lemma CutApart(data: Bytes, start: nat, b: Bytes, lo: nat, n: nat)
    requires start <= |data| && (lo + n <= start || start + |b| <= lo)
    ensures var data' := WriteAt(data, start, b);
      && (n > 0 ==> (lo < |data'| <==> lo < |data|))
      && (n > 0 && lo < |data| ==> data'[lo..Min(lo + n, |data'|)] == data[lo..Min(lo + n, |data|)])
  {
    hide WriteAt;
    var data' := WriteAt(data, start, b);
    WrittenParts(data, start, b);
    if n > 0 && lo < |data| {
      if lo + n <= start {
        SameBefore(data, data', start, lo, lo + n);
      } else {
        SameAfter(data, data', start + |b|, lo, Min(lo + n, |data|));
      }
    }
  }

  lemma SameBefore(a: Bytes, b: Bytes, n: nat, lo: nat, hi: nat)
    requires lo <= hi <= n <= |a| && n <= |b| && a[..n] == b[..n]
    ensures a[lo..hi] == b[lo..hi]
  {
    assert a[lo..hi] == a[..n][lo..hi] && b[lo..hi] == b[..n][lo..hi];
  }

  lemma SameAfter(a: Bytes, b: Bytes, n: nat, lo: nat, hi: nat)
    requires n <= lo <= hi <= |a| == |b| && a[n..] == b[n..]
    ensures a[lo..hi] == b[lo..hi]
  {
    forall i | lo <= i < hi
      ensures a[i] == b[i]
    {
      assert a[i] == a[n..][i - n] && b[i] == b[n..][i - n];
    }
  }

  lemma Apart(j: nat, k: nat, d: nat)
    requires j != k
    ensures j < k ==> Begin(j, d) + d <= Begin(k, d)
    ensures j > k ==> Begin(k, d) + d <= Begin(j, d)
  {
    hide Begin;
    if j < k {
      Below(j, k, d);
    } else {
      Below(k, j, d);
    }
  }

  lemma {:induction false} Below(j: nat, k: nat, d: nat)
    requires j < k
    ensures Begin(j, d) + d <= Begin(k, d)
  {
    hide Begin;
    NextMultiple(k - 1, d);
    if j < k - 1 {
      Below(j, k - 1, d);
    }
  }

  lemma NextMultiple(j: nat, d: nat)
    ensures Begin(j + 1, d) == Begin(j, d) + d
  {
  }
}
