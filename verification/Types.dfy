/** Values shared by every part of the model. */
module Types {
  type Byte = x: int | 0 <= x < 256
  type Bytes = seq<Byte>
  type Script = seq<Byte>
  type Header = seq<Byte>

  function Zeros(n: nat): (r: Bytes)
    ensures |r| == n && forall i :: 0 <= i < n ==> r[i] == 0
  {
    if n == 0 then [] else Zeros(n - 1) + [0]
  }

  /** A 32-byte hash: a transaction id or a block header hash. */
  type Hash = h: seq<Byte> | |h| == 32 witness Zeros(32)

  /** The 11-byte script hash that stands for an address. */
  type HashX = h: seq<Byte> | |h| == 11 witness Zeros(11)

  const ZERO: Hash := Zeros(32)
  const MINUS_1 := 4294967295

  datatype Option<+T> = None | Some(value: T)

  function Max(a: int, b: int): (m: int)
    ensures m >= a && m >= b && (m == a || m == b)
  {
    if a >= b then a else b
  }

  /** All but the last element of two sequences joined. */
  lemma FrontOfJoin<T>(a: seq<T>, b: seq<T>)
    requires b != []
    ensures var k := |b| - 1;
      && (a + b)[..|a + b| - 1] == a + b[..k] && (a + b)[|a + b| - 1] == b[k]
      && b == b[..k] + [b[k]]
  {
  }

  /** Joining keeps prefixes. */
  lemma PrefixJoin<T>(a: seq<T>, b: seq<T>, c: seq<T>)
    requires a <= b
    ensures a <= b + c
  {
  }

  lemma Assoc<T>(a: seq<T>, b: seq<T>, c: seq<T>)
    ensures (a + b) + c == a + (b + c)
  {
  }

  ghost predicate NoDup<T(!new)>(s: seq<T>) {
    forall i, j :: 0 <= i < j < |s| ==> s[i] != s[j]
  }

  ghost predicate AllBelow(s: seq<nat>, n: nat) {
    forall i :: 0 <= i < |s| ==> s[i] < n
  }

  ghost predicate AllFrom(s: seq<nat>, n: nat) {
    forall i :: 0 <= i < |s| ==> n <= s[i]
  }

  /** Strictly increasing. */
  ghost predicate Increasing(s: seq<nat>) {
    s == [] || (Increasing(s[..|s| - 1]) && AllBelow(s[..|s| - 1], s[|s| - 1]))
  }

  lemma {:induction false} IncreasingSplit(a: seq<nat>, b: seq<nat>)
    requires Increasing(a + b)
    ensures Increasing(a) && Increasing(b)
    ensures forall i :: 0 <= i < |b| ==> AllBelow(a, b[i])
  {
    if b == [] {
      assert a + b == a;
    } else {
      hide AllBelow;
      var k := |b| - 1;
      FrontOfJoin(a, b);
      IncreasingSplit(a, b[..k]);
      AllBelowParts(a, b[..k], b[k]);
      forall i | 0 <= i < |b|
        ensures AllBelow(a, b[i])
      {
        if i < k {
          assert b[..k][i] == b[i];
        }
      }
    }
  }

  lemma AllBelowParts(a: seq<nat>, b: seq<nat>, n: nat)
    requires AllBelow(a + b, n)
    ensures AllBelow(a, n) && AllBelow(b, n)
  {
    assert forall i :: 0 <= i < |a| ==> a[i] == (a + b)[i];
    assert forall i :: 0 <= i < |b| ==> b[i] == (a + b)[|a| + i];
  }

  lemma IncreasingPush(s: seq<nat>, x: nat)
    requires Increasing(s) && AllBelow(s, x)
    ensures Increasing(s + [x])
  {
    assert (s + [x])[..|s|] == s;
  }

  lemma IncreasingBefore(s: seq<nat>, j: nat)
    requires Increasing(s) && j < |s|
    ensures AllBelow(s[..j], s[j])
  {
    assert s == s[..j] + s[j..];
    IncreasingSplit(s[..j], s[j..]);
  }

  lemma IncreasingTail(s: seq<nat>, i: nat)
    requires Increasing(s) && i < |s|
    ensures AllFrom(s[i..], s[i])
  {
    forall j | i < j < |s|
      ensures s[i] < s[j]
    {
      IncreasingBefore(s, j);
      assert s[..j][i] == s[i];
    }
  }

  lemma NoDupIsMultiplicityOne<T(!new)>(s: seq<T>)
    ensures NoDup(s) <==> forall x :: multiset(s)[x] <= 1
  {
    if s != [] {
      var k := |s| - 1;
      assert s == s[..k] + [s[k]];
      NoDupIsMultiplicityOne(s[..k]);
      if NoDup(s) {
        forall x
          ensures multiset(s)[x] <= 1
        {
          if x == s[k] {
            assert x !in s[..k];
          }
        }
      }
      if forall x :: multiset(s)[x] <= 1 {
        assert forall x :: multiset(s)[x] == multiset(s[..k])[x] + multiset([s[k]])[x];
        assert s[k] !in s[..k];
      }
    }
  }

  /** Writing data at an offset of a file that reaches that far. */
  function WriteAt<T>(file: seq<T>, offset: nat, data: seq<T>): seq<T>
    requires offset <= |file|
  {
    file[..offset] + data + (if offset + |data| <= |file| then file[offset + |data|..] else [])
  }
}
