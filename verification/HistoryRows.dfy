/** Address history as rows keyed by (hashX, 16-bit id), read in key order. */
module HistoryRows {
  import opened Types

  /** Number of ids a big-endian 16-bit suffix can name. */
  const IDS := 65536

  datatype RowKey = RowKey(hashX: HashX, id: nat)

  /** A row is a sorted list of transaction numbers. */
  type Rows = map<RowKey, seq<nat>>

  ghost function Row(rows: Rows, h: HashX, id: nat): seq<nat> {
    if RowKey(h, id) in rows then rows[RowKey(h, id)] else []
  }

  /** The rows of h with id < n, joined in key order. */
  ghost function Joined(rows: Rows, h: HashX, n: nat): seq<nat> {
    if n == 0 then [] else Joined(rows, h, n - 1) + Row(rows, h, n - 1)
  }

  /** What iterating over the prefix hashX yields. */
  ghost function HistoryOf(rows: Rows, h: HashX): seq<nat> {
    Joined(rows, h, IDS)
  }

  /** The numbers first, first + 1, ... of the transactions that touch h. */
  ghost function Occurs(touches: seq<set<HashX>>, h: HashX, first: nat): seq<nat> {
    if touches == [] then []
    else
      var k := |touches| - 1;
      Occurs(touches[..k], h, first) + (if h in touches[k] then [first + k] else [])
  }

  /** The entries of s below n. */
  ghost function Below(s: seq<nat>, n: nat): seq<nat> {
    if s == [] then []
    else Below(s[..|s| - 1], n) + (if s[|s| - 1] < n then [s[|s| - 1]] else [])
  }

  // ---- Occurs ----

  lemma {:induction false} OccursConcat(a: seq<set<HashX>>, b: seq<set<HashX>>, h: HashX, first: nat)
    ensures Occurs(a + b, h, first) == Occurs(a, h, first) + Occurs(b, h, first + |a|)
  {
    if b == [] {
      assert a + b == a;
    } else {
      var k := |b| - 1;
      FrontOfJoin(a, b);
      OccursConcat(a, b[..k], h, first);
    }
  }

  lemma {:induction false} OccursRange(t: seq<set<HashX>>, h: HashX, first: nat)
    ensures AllFrom(Occurs(t, h, first), first) && AllBelow(Occurs(t, h, first), first + |t|)
    ensures Increasing(Occurs(t, h, first))
  {
    if t != [] {
      var b := Occurs(t[..|t| - 1], h, first);
      OccursRange(t[..|t| - 1], h, first);
      if h in t[|t| - 1] {
        IncreasingPush(b, first + |t| - 1);
      } else {
        assert Occurs(t, h, first) == b;
      }
    }
  }

  lemma OccursStep(t: seq<set<HashX>>, i: nat, h: HashX, first: nat)
    requires i < |t|
    ensures Occurs(t[..i + 1], h, first)
         == Occurs(t[..i], h, first) + (if h in t[i] then [first + i] else [])
  {
    assert t[..i + 1][..i] == t[..i];
  }

  lemma {:induction false} OccursNowhere(t: seq<set<HashX>>, h: HashX, first: nat)
    requires forall i :: 0 <= i < |t| ==> h !in t[i]
    ensures Occurs(t, h, first) == []
  {
    if t != [] {
      OccursNowhere(t[..|t| - 1], h, first);
    }
  }

  // ---- Below ----

  lemma {:induction false} BelowConcat(a: seq<nat>, b: seq<nat>, n: nat)
    ensures Below(a + b, n) == Below(a, n) + Below(b, n)
  {
    if b == [] {
      assert a + b == a;
    } else {
      var k := |b| - 1;
      FrontOfJoin(a, b);
      BelowConcat(a, b[..k], n);
    }
  }

  lemma {:induction false} BelowAll(s: seq<nat>, n: nat)
    ensures AllBelow(s, n) ==> Below(s, n) == s
    ensures AllFrom(s, n) ==> Below(s, n) == []
  {
    if s != [] {
      BelowAll(s[..|s| - 1], n);
    }
  }

  /** Numbers from n on, coming last, are dropped. */
  lemma BelowFront(a: seq<nat>, b: seq<nat>, n: nat)
    requires AllFrom(b, n)
    ensures Below(a + b, n) == Below(a, n)
  {
    hide Below, AllFrom;
    BelowConcat(a, b, n);
    BelowAll(b, n);
  }

  /** Dropping the numbers from n on is dropping the transactions from n on. */
  lemma BelowOccurs(t: seq<set<HashX>>, h: HashX, n: nat)
    requires n <= |t|
    ensures Below(Occurs(t, h, 0), n) == Occurs(t[..n], h, 0)
  {
    assert t == t[..n] + t[n..];
    OccursConcat(t[..n], t[n..], h, 0);
    OccursRange(t[..n], h, 0);
    OccursRange(t[n..], h, n);
    BelowConcat(Occurs(t[..n], h, 0), Occurs(t[n..], h, n), n);
    BelowAll(Occurs(t[..n], h, 0), n);
    BelowAll(Occurs(t[n..], h, n), n);
  }

  // ---- Joined ----

  lemma {:induction false} JoinedSame(a: Rows, b: Rows, h: HashX, n: nat)
    requires forall id :: 0 <= id < n ==> Row(a, h, id) == Row(b, h, id)
    ensures Joined(a, h, n) == Joined(b, h, n)
  {
    if n > 0 {
      JoinedSame(a, b, h, n - 1);
    }
  }

  lemma {:induction false} JoinedBeyond(rows: Rows, h: HashX, m: nat, n: nat)
    requires m <= n && forall id :: m <= id < n ==> Row(rows, h, id) == []
    ensures Joined(rows, h, n) == Joined(rows, h, m)
  {
    if m < n {
      JoinedBeyond(rows, h, m, n - 1);
    }
  }

  ghost predicate IdsUpTo(rows: Rows, top: int) {
    forall k :: k in rows ==> k.id <= top
  }

  ghost predicate NonEmpty(rows: Rows) {
    forall k :: k in rows ==> rows[k] != []
  }

  /** A row with an id above all others comes last. */
  lemma AppendRow(rows: Rows, h: HashX, top: nat, u: seq<nat>)
    requires top < IDS && forall id: nat :: RowKey(h, id) in rows ==> id < top
    ensures HistoryOf(rows[RowKey(h, top) := u], h) == HistoryOf(rows, h) + u
  {
    var r := rows[RowKey(h, top) := u];
    JoinedSame(rows, r, h, top);
    JoinedBeyond(r, h, top + 1, IDS);
    JoinedBeyond(rows, h, top, IDS);
  }

  lemma HistorySame(a: Rows, b: Rows, h: HashX)
    requires forall id :: Row(a, h, id) == Row(b, h, id)
    ensures HistoryOf(a, h) == HistoryOf(b, h)
  {
    JoinedSame(a, b, h, IDS);
  }

  /** Every address has its numbers in strictly increasing order. */
  ghost predicate Sorted(rows: Rows) {
    forall h :: Increasing(HistoryOf(rows, h))
  }

  // ---- cutting rows by flush id ----

  /** Rows up to id `cut` hold only numbers below n, later rows only numbers from n on. */
  ghost predicate SplitAt(rows: Rows, cut: int, n: nat) {
    forall k :: k in rows ==>
      (k.id <= cut ==> AllBelow(rows[k], n)) && (k.id > cut ==> AllFrom(rows[k], n))
  }

  ghost function UpTo(rows: Rows, cut: int): Rows {
    map k | k in rows && k.id <= cut :: rows[k]
  }

  lemma {:induction false} CutJoined(rows: Rows, cut: int, n: nat, h: HashX, m: nat)
    requires SplitAt(rows, cut, n)
    ensures Joined(UpTo(rows, cut), h, m) == Below(Joined(rows, h, m), n)
  {
    hide Below, Row, UpTo, SplitAt;
    if m == 0 {
      BelowAll([], n);
    } else {
      CutJoined(rows, cut, n, h, m - 1);
      CutOne(rows, cut, n, h, m - 1);
      BelowConcat(Joined(rows, h, m - 1), Row(rows, h, m - 1), n);
    }
  }

  lemma CutOne(rows: Rows, cut: int, n: nat, h: HashX, id: nat)
    requires SplitAt(rows, cut, n)
    ensures Row(UpTo(rows, cut), h, id) == Below(Row(rows, h, id), n)
  {
    hide Below;
    BelowAll(Row(rows, h, id), n);
  }

  /** Dropping the rows above `cut` drops exactly the numbers from n on. */
  lemma CutHistory(rows: Rows, cut: int, n: nat, h: HashX)
    requires SplitAt(rows, cut, n)
    ensures HistoryOf(UpTo(rows, cut), h) == Below(HistoryOf(rows, h), n)
  {
    CutJoined(rows, cut, n, h, IDS);
  }

  // ---- cutting the tail of one address ----

  lemma {:induction false} JoinedPrefix(rows: Rows, h: HashX, m: nat, n: nat)
    requires m <= n
    ensures Joined(rows, h, m) <= Joined(rows, h, n)
  {
    if m < n {
      JoinedPrefix(rows, h, m, n - 1);
    }
  }

  lemma {:induction false} BelowJoined(rows: Rows, h: HashX, m: nat, n: nat, t: nat)
    requires m <= n && forall id :: m <= id < n ==> AllFrom(Row(rows, h, id), t)
    ensures Below(Joined(rows, h, n), t) == Below(Joined(rows, h, m), t)
  {
    hide Below, Row, AllFrom;
    if m < n {
      BelowJoined(rows, h, m, n - 1, t);
      BelowFront(Joined(rows, h, n - 1), Row(rows, h, n - 1), t);
    }
  }

  /** A row is increasing, and everything before it is smaller. */
  lemma RowInOrder(rows: Rows, h: HashX, id: nat, n: nat)
    requires id < n && Increasing(Joined(rows, h, n))
    ensures Increasing(Row(rows, h, id))
    ensures forall j :: 0 <= j < |Row(rows, h, id)| ==> AllBelow(Joined(rows, h, id), Row(rows, h, id)[j])
  {
    var a, all := Joined(rows, h, id + 1), Joined(rows, h, n);
    JoinedPrefix(rows, h, id + 1, n);
    assert all == a + all[|a|..];
    IncreasingSplit(a, all[|a|..]);
    IncreasingSplit(Joined(rows, h, id), Row(rows, h, id));
  }

  /** Cutting row `id` to its first `idx` numbers and dropping the later rows
      leaves exactly the numbers below t. */
  lemma CutTail(rows: Rows, out: Rows, h: HashX, id: nat, idx: nat, t: nat)
    requires id < IDS && Increasing(HistoryOf(rows, h))
    requires 0 < idx <= |Row(rows, h, id)|
    requires AllBelow(Row(rows, h, id)[..idx], t) && AllFrom(Row(rows, h, id)[idx..], t)
    requires forall j :: id < j < IDS ==> AllFrom(Row(rows, h, j), t)
    requires forall j :: 0 <= j < id ==> Row(out, h, j) == Row(rows, h, j)
    requires Row(out, h, id) == Row(rows, h, id)[..idx]
    requires forall j :: id < j < IDS ==> Row(out, h, j) == []
    ensures HistoryOf(out, h) == Below(HistoryOf(rows, h), t)
  {
    JoinedSame(rows, out, h, id);
    JoinedBeyond(out, h, id + 1, IDS);
    BelowJoined(rows, h, id + 1, IDS, t);
    RowInOrder(rows, h, id, IDS);
    CutRow(Joined(rows, h, id), Row(rows, h, id), idx, t);
  }

  lemma CutRow(a: seq<nat>, r: seq<nat>, idx: nat, t: nat)
    requires 0 < idx <= |r| && AllBelow(r[..idx], t) && AllFrom(r[idx..], t)
    requires AllBelow(a, r[0])
    ensures Below(a + r, t) == a + r[..idx]
  {
    hide Below, AllFrom;
    BelowConcat(a, r, t);
    assert r[..idx][0] == r[0];
    BelowAll(a, t);
    BelowFront(r[..idx], r[idx..], t);
    BelowAll(r[..idx], t);
    assert r == r[..idx] + r[idx..];
  }

  /** Dropping every row leaves nothing, when no number is below t. */
  lemma CutEverything(rows: Rows, out: Rows, h: HashX, t: nat)
    requires forall j :: 0 <= j < IDS ==> AllFrom(Row(rows, h, j), t)
    requires forall j :: 0 <= j < IDS ==> Row(out, h, j) == []
    ensures HistoryOf(out, h) == Below(HistoryOf(rows, h), t)
  {
    JoinedBeyond(out, h, 0, IDS);
    BelowJoined(rows, h, 0, IDS, t);
  }
}
