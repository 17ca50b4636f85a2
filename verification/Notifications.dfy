/** Coordination of block and mempool notifications. */
module Notifications {
  import opened Types

  type Touched = set<HashX>

  /** The union of the sets at heights up to `height`. */
  ghost function UpTo(m: map<int, Touched>, height: int): Touched {
    set h, x | h in m && h <= height && x in m[h] :: x
  }

  ghost function From(m: map<int, Touched>, height: int): map<int, Touched> {
    map h | h in m && h > height :: m[h]
  }

  lemma Inhabited(s: set<int>)
    ensures s == {} || exists x :: x in s
  {
    if forall x :: x !in s {
      assert s == {};
    }
  }

  method MaxOf(s: set<int>) returns (m: int)
    requires s != {}
    ensures m in s && forall x :: x in s ==> x <= m
  {
    Inhabited(s);
    m :| m in s;
    var todo := s - {m};
    while todo != {}
      invariant todo <= s && m in s && forall x :: x in s && x !in todo ==> x <= m
      decreases todo
    {
      Inhabited(todo);
      var x :| x in todo;
      if x > m {
        m := x;
      }
      todo := todo - {x};
    }
  }

  datatype Note = Note(height: int, touched: Touched)

  // ---- what the coordinator answers ----

  /** The reports held, and the height of the last block reported. */
  datatype Held = Held(mp: map<int, Touched>, bp: map<int, Touched>, highest: int)

  lemma {:induction false} MaxExists(s: set<int>)
    requires s != {}
    ensures exists m :: m in s && forall x :: x in s ==> x <= m
  {
    Inhabited(s);
    var x :| x in s;
    var rest := s - {x};
    if rest == {} {
      assert forall y :: y in s ==> y == x || y in rest;
    } else {
      MaxExists(rest);
      var m :| m in rest && forall y :: y in rest ==> y <= m;
      assert forall y :: y in s ==> y == x || y in rest;
      var top := if x > m then x else m;
      assert top in s && forall y :: y in s ==> y <= top;
    }
  }

  ghost function TopOf(s: set<int>): (m: int)
    requires s != {}
    ensures m in s && forall x :: x in s ==> x <= m
  {
    MaxExists(s);
    var m :| m in s && forall x :: x in s ==> x <= m;
    m
  }

  /** The highest height waiting on both sides, else that of the last block if
      it is the mempool's highest. */
  ghost function MeetAt(x: Held): Option<int> {
    var common := x.mp.Keys * x.bp.Keys;
    if common != {} then Some(TopOf(common))
    else if x.mp.Keys != {} && TopOf(x.mp.Keys) == x.highest then Some(x.highest)
    else None
  }

  ghost function Settle(x: Held): (Held, Option<Note>) {
    match MeetAt(x)
    case None => (x, None)
    case Some(h) =>
      var touched := if h in x.mp then x.mp[h] else {};
      (Held(From(x.mp, h), From(x.bp, h), x.highest), Some(Note(h, touched + UpTo(x.bp, h))))
  }

  /** What a report does and which notification it causes. */
  ghost function React(x: Held, e: Event): (Held, Option<Note>) {
    Settle(Reported(x, e))
  }

  ghost function Reported(x: Held, e: Event): Held {
    match e
    case Mempool(touched, height) => x.(mp := x.mp[height := touched])
    case Block(touched, height) => x.(bp := x.bp[height := touched], highest := height)
  }

  /** What is held after a run from `start`, and the notifications it sends. */
  ghost function Play(start: int, events: seq<Event>): (Held, seq<Sent>) {
    if events == [] then (Held(map[], map[], start), [])
    else
      var k := |events| - 1;
      var before := Play(start, events[..k]);
      var now := React(before.0, events[k]);
      (now.0, if now.1.Some? then before.1 + [Sent(k, now.1.value)] else before.1)
  }

  ghost function Notes(start: int, events: seq<Event>): seq<Sent> {
    Play(start, events).1
  }

  lemma Settled(x: Held)
    ensures var (y, r) := Settle(x);
      && y.mp.Keys !! y.bp.Keys && y.highest == x.highest
      && (r.None? ==> y == x)
      && (r.Some? ==> Notified(x.mp, x.bp, x.highest, r.value, y.mp, y.bp))
      && (r.None? <==> Apart(x.mp, x.bp, x.highest))
  {
    hide UpTo;
    var common := x.mp.Keys * x.bp.Keys;
    assert forall h :: h in x.mp && h in x.bp ==> h in common;
  }

  class Coordinator {
    var touchedMp: map<int, Touched>
    var touchedBp: map<int, Touched>
    /** The height of the last block reported. */
    var highestBlock: int

    ghost function Now(): Held
      reads this
    {
      Held(touchedMp, touchedBp, highestBlock)
    }

    constructor ()
      ensures highestBlock == -1 && touchedMp == map[] && touchedBp == map[]
    {
      touchedMp, touchedBp, highestBlock := map[], map[], -1;
    }

    /** Begin at a height, which is notified at once. */
    method Start(height: int) returns (note: Note)
      modifies `highestBlock
      ensures highestBlock == height && note == Note(height, {})
    {
      highestBlock := height;
      note := Note(height, {});
    }

    /** Notify if the mempool and the blocks have met at a height.  The blocks
        told are exactly those waiting at this height and below. */
    method MaybeNotify() returns (r: Option<Note>)
      modifies `touchedMp, `touchedBp
      ensures (Now(), r) == Settle(old(Now()))
      ensures touchedMp.Keys !! touchedBp.Keys
      ensures r.None? ==> touchedMp == old(touchedMp) && touchedBp == old(touchedBp)
      ensures r.Some? ==> Notified(old(touchedMp), old(touchedBp), highestBlock, r.value, touchedMp, touchedBp)
      ensures r.None? <==> Apart(old(touchedMp), old(touchedBp), highestBlock)
    {
      hide UpTo, MeetAt;
      Settled(Now());
      var height := Meeting();
      if height.None? {
        return None;
      }
      var touched := touchedMp[height.value];
      touchedMp := map h | h in touchedMp && h > height.value :: touchedMp[h];
      touched := TakeBlocks(height.value, touched);
      r := Some(Note(height.value, touched));
    }

    /** The height to notify, if there is one. */
    method Meeting() returns (r: Option<int>)
      ensures r == MeetAt(Now())
      ensures r.Some? ==> r.value in touchedMp && (r.value in touchedBp || r.value == highestBlock)
      ensures r.Some? ==> forall h :: h in touchedMp && h in touchedBp ==> h <= r.value
      ensures r.None? <==> Apart(touchedMp, touchedBp, highestBlock)
    {
      var common := touchedMp.Keys * touchedBp.Keys;
      if common != {} {
        var height := MaxOf(common);
        assert forall h :: h in touchedMp && h in touchedBp ==> h in common;
        return Some(height);
      }
      assert forall h :: h in touchedMp.Keys && h in touchedBp.Keys ==> h in common;
      if touchedMp.Keys != {} {
        var top := MaxOf(touchedMp.Keys);
        assert top in touchedMp && forall h :: h in touchedMp ==> h in touchedMp.Keys && h <= top;
        if top == highestBlock {
          return Some(highestBlock);
        }
      }
      r := None;
    }

    /** Move the block sets up to a height into a set of touched addresses. */
    method TakeBlocks(height: int, touched0: Touched) returns (touched: Touched)
      modifies `touchedBp
      ensures touched == touched0 + UpTo(old(touchedBp), height)
      ensures touchedBp == From(old(touchedBp), height)
    {
      touched := touched0;
      var olds := set h | h in touchedBp && h <= height;
      ghost var all, bp := olds, touchedBp;
      while olds != {}
        invariant olds <= all && touchedBp == bp - (all - olds)
        invariant touched == touched0 + UpTo(bp - olds, height)
        decreases olds
      {
        Inhabited(olds);
        var o :| o in olds;
        UpToStep(bp, olds, o, height);
        touched := touched + touchedBp[o];
        touchedBp := touchedBp - {o};
        olds := olds - {o};
      }
      assert bp - {} == bp;
    }

    method OnMempool(touched: Touched, height: int) returns (r: Option<Note>)
      modifies `touchedMp, `touchedBp
      ensures (Now(), r) == React(old(Now()), Mempool(touched, height))
      ensures touchedMp.Keys !! touchedBp.Keys
      ensures r.None? <==> Apart(old(touchedMp)[height := touched], old(touchedBp), highestBlock)
      ensures var mp := old(touchedMp)[height := touched];
        if r.None? then touchedMp == mp && touchedBp == old(touchedBp)
        else Notified(mp, old(touchedBp), highestBlock, r.value, touchedMp, touchedBp)
    {
      touchedMp := touchedMp[height := touched];
      r := MaybeNotify();
    }

    /** A block at any height: after a reorganisation it may come down or repeat. */
    method OnBlock(touched: Touched, height: int) returns (r: Option<Note>)
      modifies this
      ensures (Now(), r) == React(old(Now()), Block(touched, height))
      ensures touchedMp.Keys !! touchedBp.Keys && highestBlock == height
      ensures r.None? <==> Apart(old(touchedMp), old(touchedBp)[height := touched], height)
      ensures var bp := old(touchedBp)[height := touched];
        if r.None? then touchedMp == old(touchedMp) && touchedBp == bp
        else Notified(old(touchedMp), bp, height, r.value, touchedMp, touchedBp)
    {
      touchedBp := touchedBp[height := touched];
      highestBlock := height;
      r := MaybeNotify();
    }
  }

  /** No height waits on both sides, and the mempool's highest is not the last block's. */
  ghost predicate Apart(mp: map<int, Touched>, bp: map<int, Touched>, highest: int) {
    && mp.Keys !! bp.Keys
    && !(highest in mp && forall h :: h in mp ==> h <= highest)
  }

  /** A notification at a height the mempool has reported and that has a block
      waiting or is the last block's: it takes everything up to that height. */
  ghost predicate Notified(mp: map<int, Touched>, bp: map<int, Touched>, highest: int, note: Note,
                           mp': map<int, Touched>, bp': map<int, Touched>) {
    && note.height in mp && (note.height in bp || note.height == highest)
    && note.touched == mp[note.height] + UpTo(bp, note.height)
    && mp' == From(mp, note.height) && bp' == From(bp, note.height)
  }

  // ---- whole runs ----

  datatype Event =
    | Mempool(touched: Touched, height: int)
    | Block(touched: Touched, height: int)

  /** A notification and the event that caused it. */
  datatype Sent = Sent(at: nat, note: Note)

  /** The height of the last block reported. */
  ghost function Highest(start: int, events: seq<Event>): int {
    if events == [] then start
    else
      var e := events[|events| - 1];
      if e.Block? then e.height else Highest(start, events[..|events| - 1])
  }

  /** Reports of the same source at the same height: the later one replaces the earlier. */
  ghost predicate Same(a: Event, b: Event) {
    a.Block? == b.Block? && a.height == b.height
  }

  /** Report k is still held after n events: not replaced, and no notification
      from it on has reached its height. */
  ghost predicate Current(events: seq<Event>, sent: seq<Sent>, n: nat, k: nat) {
    && k < n <= |events|
    && (forall i :: k < i < n ==> !Same(events[i], events[k]))
    && (forall j :: 0 <= j < |sent| && k <= sent[j].at ==> sent[j].note.height < events[k].height)
  }

  /** Notification j tells the block of event k. */
  ghost predicate Tells(events: seq<Event>, sent: seq<Sent>, j: nat, k: nat) {
    && j < |sent| && k < |events| && events[k].Block?
    && Current(events, sent[..j], sent[j].at + 1, k) && events[k].height <= sent[j].note.height
  }

  ghost function BlockSets(events: seq<Event>, sent: seq<Sent>, j: nat): Touched {
    set k: nat, x | k < |events| && Tells(events, sent, j, k) && x in events[k].touched :: x
  }

  /** A notification is made of the mempool's latest report at its height and of
      exactly the blocks it tells; its height is the last block's or one of theirs. */
  ghost predicate Told(start: int, events: seq<Event>, sent: seq<Sent>, j: nat)
    requires j < |sent|
  {
    var s := sent[j];
    && s.at < |events|
    && (s.note.height == Highest(start, events[..s.at + 1])
        || exists k: nat :: Tells(events, sent, j, k) && events[k].height == s.note.height)
    && exists m: nat :: m < |events| && events[m].Mempool? && events[m].height == s.note.height
         && Current(events, sent[..j], s.at + 1, m) && s.note.touched == events[m].touched + BlockSets(events, sent, j)
  }

  ghost predicate AllTold(start: int, events: seq<Event>, sent: seq<Sent>) {
    forall j :: 0 <= j < |sent| ==> Told(start, events, sent, j)
  }

  ghost predicate InOrder(sent: seq<Sent>) {
    forall i, j :: 0 <= i < j < |sent| ==> sent[i].at < sent[j].at
  }

  /** The map holds exactly the current reports of its source. */
  ghost predicate Holds(held: map<int, Touched>, blocks: bool, events: seq<Event>, sent: seq<Sent>, n: nat)
    requires n <= |events|
  {
    && (forall h :: h in held ==> HeldBy(held[h], h, blocks, events, sent, n))
    && (forall k: nat :: Current(events, sent, n, k) && events[k].Block? == blocks ==>
          events[k].height in held && held[events[k].height] == events[k].touched)
  }

  ghost predicate HeldBy(touched: Touched, height: int, blocks: bool, events: seq<Event>, sent: seq<Sent>, n: nat) {
    exists k: nat :: Current(events, sent, n, k)
      && events[k] == if blocks then Block(touched, height) else Mempool(touched, height)
  }

  /** A notification that reaches the height of the two reports is sent at one
      of them or between them. */
  ghost predicate Met(events: seq<Event>, sent: seq<Sent>, k: nat, m: nat)
    requires k < |events|
  {
    exists j :: 0 <= j < |sent| && (k <= sent[j].at || m <= sent[j].at) && (sent[j].at <= k || sent[j].at <= m)
      && events[k].height <= sent[j].note.height
  }

  /** A block and a mempool update at one height meet. */
  ghost predicate AllMet(events: seq<Event>, sent: seq<Sent>, n: nat)
    requires n <= |events|
  {
    forall k: nat, m: nat ::
      k < n && m < n && events[k].Block? && events[m].Mempool? && events[m].height == events[k].height
      ==> Met(events, sent, k, m)
  }

  /** A run from `start` over reports at any heights: the notifications sent, what
      each of them tells, and that every block that meets the mempool is told. */
  method Run(c: Coordinator, start: int, events: seq<Event>) returns (sent: seq<Sent>)
    requires c.touchedBp == map[] && c.touchedMp == map[]
    modifies c
    ensures sent == Notes(start, events)
    ensures InOrder(sent) && AllTold(start, events, sent)
    ensures AllMet(events, sent, |events|)
  {
    hide Told, AllMet, Notified, Apart, React;
    var _ := c.Start(start);
    sent := [];
    for i := 0 to |events|
      invariant (c.Now(), sent) == Play(start, events[..i])
    {
      assert events[..i + 1][..i] == events[..i];
      var r;
      match events[i] {
      case Mempool(touched, height) =>
        r := c.OnMempool(touched, height);
      case Block(touched, height) =>
        r := c.OnBlock(touched, height);
      }
      if r.Some? {
        sent := sent + [Sent(i, r.value)];
      }
    }
    assert events[..|events|] == events;
    NotesTold(start, events);
  }

  /** What the notifications of a run tell, and that blocks and mempool meet. */
  lemma NotesTold(start: int, events: seq<Event>)
    ensures InOrder(Notes(start, events)) && AllTold(start, events, Notes(start, events))
    ensures AllMet(events, Notes(start, events), |events|)
  {
    hide Told, AllMet, Play;
    PlayTold(start, events, |events|);
    assert events[..|events|] == events;
  }

  /** What is known of the first i events of a run. */
  ghost predicate ToldSoFar(start: int, events: seq<Event>, i: nat, x: Held, sent: seq<Sent>)
    requires i <= |events|
  {
    && x.highest == Highest(start, events[..i])
    && Holds(x.mp, false, events, sent, i) && Holds(x.bp, true, events, sent, i)
    && AllMet(events, sent, i) && AllTold(start, events, sent)
    && InOrder(sent) && (forall j :: 0 <= j < |sent| ==> sent[j].at < i)
  }

  lemma {:induction false} PlayTold(start: int, events: seq<Event>, i: nat)
    requires i <= |events|
    ensures ToldSoFar(start, events, i, Play(start, events[..i]).0, Play(start, events[..i]).1)
  {
    hide ToldSoFar, React;
    if i == 0 {
      RunStart(start, events);
    } else {
      assert events[..i][..i - 1] == events[..i - 1];
      PlayTold(start, events, i - 1);
      var (x, sent) := Play(start, events[..i - 1]);
      OneTold(start, events, i - 1, x, sent);
    }
  }

  lemma OneTold(start: int, events: seq<Event>, i: nat, x: Held, sent: seq<Sent>)
    requires i < |events| && ToldSoFar(start, events, i, x, sent)
    ensures var (y, r) := React(x, events[i]);
      ToldSoFar(start, events, i + 1, y, if r.Some? then sent + [Sent(i, r.value)] else sent)
  {
    hide Highest, Told, AllMet, Holds, Notified, Apart, Settle;
    var z := Reported(x, events[i]);
    var (y, r) := Settle(z);
    HighestStep(start, events, i);
    ReportTaken(x.mp, false, events, sent, i);
    ReportTaken(x.bp, true, events, sent, i);
    Settled(z);
    if r.Some? {
      ToldNow(start, events, sent, i, r.value, z.mp, z.bp, y.mp, y.bp);
    }
    MetNext(events, sent, if r.Some? then sent + [Sent(i, r.value)] else sent, i, y.mp, y.bp);
  }

  // ---- what holds of any heights ----

  /** No block is told twice. */
  lemma ToldOnce(events: seq<Event>, sent: seq<Sent>, i: nat, j: nat, k: nat)
    requires i < j < |sent| && InOrder(sent) && Tells(events, sent, i, k)
    ensures !Tells(events, sent, j, k)
  {
    assert sent[..j][i] == sent[i];
  }

  /** Notification j is the first since event k to reach the height of its block. */
  ghost predicate FirstToReach(events: seq<Event>, sent: seq<Sent>, j: nat, k: nat) {
    && j < |sent| && k < |events| && events[k].Block?
    && k <= sent[j].at && events[k].height <= sent[j].note.height
    && forall i :: 0 <= i < j && k <= sent[i].at ==> sent[i].note.height < events[k].height
  }

  /** A later report of the same source came at the same height, before event n. */
  ghost predicate Replaced(events: seq<Event>, k: nat, n: nat)
    requires k < |events| && n <= |events|
  {
    exists i :: k < i < n && Same(events[i], events[k])
  }

  /** A block's set is told by the first notification that reaches its height,
      unless it has been replaced by then; if it has, it is never told. */
  lemma ToldUnlessReplaced(events: seq<Event>, sent: seq<Sent>, j: nat, k: nat)
    requires InOrder(sent) && FirstToReach(events, sent, j, k) && sent[j].at < |events|
    ensures Tells(events, sent, j, k) <==> !Replaced(events, k, sent[j].at + 1)
    ensures forall i :: 0 <= i < |sent| && i != j ==> !Tells(events, sent, i, k)
  {
    forall i | 0 <= i < j
      ensures sent[..j][i] == sent[i]
    {
    }
    forall i | 0 <= i < |sent| && i != j
      ensures !Tells(events, sent, i, k)
    {
      if i > j {
        assert sent[..i][j] == sent[j];
      }
    }
  }

  /** Two blocks at one height before the mempool reports it: the set of the first is lost. */
  lemma ReplacedLost(a: HashX)
    ensures var events := [Block({a}, 11), Block({}, 11), Mempool({}, 11)];
      Notes(10, events) == [Sent(2, Note(11, {}))]
  {
    hide React, UpTo;
    var e1, e2, e3 := Block({a}, 11), Block({}, 11), Mempool({}, 11);
    var x0, x1, x2 := Held(map[], map[], 10), Held(map[], map[11 := {a}], 11), Held(map[], map[11 := {}], 11);
    PlayPush(10, [], e1);
    BlockWaits(x0, {a}, 11);
    assert [] + [e1] == [e1];
    PlayPush(10, [e1], e2);
    BlockWaits(x1, {}, 11);
    assert x1.bp[11 := {}] == x2.bp;
    assert [e1] + [e2] == [e1, e2];
    PlayPush(10, [e1, e2], e3);
    MeetsAtOnce(x2, {}, 11);
    assert [e1, e2] + [e3] == [e1, e2, e3];
    NothingUpTo(11);
    var none: Touched := {};
    assert none + UpTo(x2.bp, 11) == none;
    assert Play(10, []) == (x0, []);
    assert Play(10, [e1]) == (x1, []);
    assert Play(10, [e1, e2]) == (x2, []);
    assert Notes(10, [e1, e2, e3]) == [Sent(2, Note(11, none + UpTo(x2.bp, 11)))];
  }

  lemma NothingUpTo(h: int)
    ensures UpTo(map[h := {}], h) == {}
  {
  }

  /** With no mempool report held, a block waits. */
  lemma BlockWaits(x: Held, t: Touched, h: int)
    requires x.mp == map[]
    ensures React(x, Block(t, h)) == (Held(map[], x.bp[h := t], h), None)
  {
  }

  /** The mempool reports the height of a waiting block, and no other. */
  lemma MeetsAtOnce(x: Held, t: Touched, h: int)
    requires x.mp == map[] && h in x.bp
    ensures React(x, Mempool(t, h)) == (Held(map[], From(x.bp, h), x.highest), Some(Note(h, t + UpTo(x.bp, h))))
  {
    hide UpTo;
    var mp := x.mp[h := t];
    assert mp.Keys * x.bp.Keys == {h};
    assert MeetAt(Held(mp, x.bp, x.highest)) == Some(h);
    assert From(mp, h) == map[];
  }

  // ---- when notified heights never fall ----

  ghost function BlockHeights(events: seq<Event>): seq<int> {
    if events == [] then []
    else
      var k := |events| - 1;
      BlockHeights(events[..k]) + (if events[k].Block? then [events[k].height] else [])
  }

  /** Each height is at least the one before it, the first at least the start height. */
  ghost predicate Steady(start: int, heights: seq<int>) {
    forall i :: 0 <= i < |heights| ==> HeightBefore(start, heights, i) <= heights[i]
  }

  ghost function HeightBefore(start: int, heights: seq<int>, i: nat): int
    requires i <= |heights|
  {
    if i == 0 then start else heights[i - 1]
  }

  /** The height notified before the j-th notification. */
  ghost function Before(start: int, sent: seq<Sent>, j: nat): int
    requires j <= |sent|
  {
    if j == 0 then start else sent[j - 1].note.height
  }

  /** No notification is for a lower height than the one before it. */
  ghost predicate Climbs(start: int, sent: seq<Sent>) {
    forall j :: 0 <= j < |sent| ==> Before(start, sent, j) <= sent[j].note.height
  }

  /** Whatever the mempool reports, and when, notified heights do not fall. */
  ghost predicate Safe(start: int, heights: seq<int>) {
    forall events: seq<Event> :: BlockHeights(events) == heights ==> Climbs(start, Notes(start, events))
  }

  /** Notified heights never fall, under every placing of mempool reports, if and
      only if the block heights never do. */
  lemma NeverFalls(start: int, heights: seq<int>)
    ensures Safe(start, heights) <==> Steady(start, heights)
  {
    hide Climbs, Notes;
    if Steady(start, heights) {
      forall events: seq<Event> | BlockHeights(events) == heights
        ensures Climbs(start, Notes(start, events))
      {
        NonFallingIs(start, events);
        NotesTold(start, events);
        NotesClimb(start, events, Notes(start, events));
      }
    } else {
      var i: nat :| i < |heights| && HeightBefore(start, heights, i) > heights[i];
      FallWitness(start, heights, i);
    }
  }

  ghost function Blocks(heights: seq<int>): seq<Event> {
    if heights == [] then []
    else
      var k := |heights| - 1;
      Blocks(heights[..k]) + [Block({}, heights[k])]
  }

  /** The mempool reports the height before the fall and the height fallen to, right after their blocks. */
  ghost function Fall(heights: seq<int>, i: nat): seq<Event>
    requires i < |heights|
  {
    Blocks(heights[..i]) + (if i == 0 then [] else [Mempool({}, heights[i - 1])])
      + [Block({}, heights[i]), Mempool({}, heights[i])]
  }

  lemma FallWitness(start: int, heights: seq<int>, i: nat)
    requires i < |heights| && HeightBefore(start, heights, i) > heights[i]
    ensures !Safe(start, heights)
  {
    hide Play, Notes, Climbs, Fall;
    var events := Fall(heights, i) + Blocks(heights[i + 1..]);
    FallHeights(heights, i);
    HeightsConcat(Fall(heights, i), Blocks(heights[i + 1..]));
    HeightsOfBlocks(heights[i + 1..]);
    assert heights[..i + 1] + heights[i + 1..] == heights;
    FallFalls(start, heights, i);
    NotesPrefix(start, Fall(heights, i), Blocks(heights[i + 1..]));
    ClimbsPrefix(start, Notes(start, Fall(heights, i)), Notes(start, events));
  }

  lemma ClimbsPrefix(start: int, a: seq<Sent>, b: seq<Sent>)
    requires a <= b
    ensures Climbs(start, b) ==> Climbs(start, a)
  {
    forall j | 0 <= j < |a|
      ensures Before(start, a, j) == Before(start, b, j) && a[j] == b[j]
    {
    }
  }

  lemma {:induction false} NotesPrefix(start: int, a: seq<Event>, b: seq<Event>)
    ensures Notes(start, a) <= Notes(start, a + b)
  {
    hide React;
    if b == [] {
      assert a + b == a;
    } else {
      FrontOfJoin(a, b);
      NotesPrefix(start, a, b[..|b| - 1]);
    }
  }

  lemma {:induction false} HeightsConcat(a: seq<Event>, b: seq<Event>)
    ensures BlockHeights(a + b) == BlockHeights(a) + BlockHeights(b)
  {
    if b == [] {
      assert a + b == a;
    } else {
      FrontOfJoin(a, b);
      HeightsConcat(a, b[..|b| - 1]);
    }
  }

  lemma {:induction false} HeightsOfBlocks(heights: seq<int>)
    ensures BlockHeights(Blocks(heights)) == heights
  {
    if heights != [] {
      var k := |heights| - 1;
      HeightsOfBlocks(heights[..k]);
      HeightsPush(Blocks(heights[..k]), Block({}, heights[k]));
    }
  }

  lemma HeightsPush(events: seq<Event>, e: Event)
    ensures BlockHeights(events + [e]) == BlockHeights(events) + (if e.Block? then [e.height] else [])
  {
    assert (events + [e])[..|events|] == events;
  }

  lemma FallHeights(heights: seq<int>, i: nat)
    requires i < |heights|
    ensures BlockHeights(Fall(heights, i)) == heights[..i + 1]
  {
    hide Blocks, BlockHeights;
    var bs := Blocks(heights[..i]);
    var met := if i == 0 then bs else bs + [Mempool({}, heights[i - 1])];
    HeightsOfBlocks(heights[..i]);
    if i > 0 {
      HeightsPush(bs, Mempool({}, heights[i - 1]));
    }
    HeightsPush(met, Block({}, heights[i]));
    HeightsPush(met + [Block({}, heights[i])], Mempool({}, heights[i]));
    assert Fall(heights, i) == (met + [Block({}, heights[i])]) + [Mempool({}, heights[i])];
  }

  lemma PlayPush(start: int, events: seq<Event>, e: Event)
    ensures var (x, sent) := Play(start, events);
      var (y, r) := React(x, e);
      Play(start, events + [e]) == (y, if r.Some? then sent + [Sent(|events|, r.value)] else sent)
  {
    hide React;
    assert (events + [e])[..|events|] == events;
  }

  /** Blocks alone only wait. */
  lemma {:induction false} BlocksWait(start: int, heights: seq<int>)
    ensures var (x, sent) := Play(start, Blocks(heights));
      && x.mp == map[] && sent == []
      && x.highest == HeightBefore(start, heights, |heights|)
      && (heights != [] ==> x.highest in x.bp)
  {
    hide React;
    if heights != [] {
      var k := |heights| - 1;
      BlocksWait(start, heights[..k]);
      PlayPush(start, Blocks(heights[..k]), Block({}, heights[k]));
      BlockWaits(Play(start, Blocks(heights[..k])).0, {}, heights[k]);
    }
  }

  /** Both heights are notified, and the second is lower. */
  lemma FallFalls(start: int, heights: seq<int>, i: nat)
    requires i < |heights| && HeightBefore(start, heights, i) > heights[i]
    ensures !Climbs(start, Notes(start, Fall(heights, i)))
  {
    hide React, Play, Blocks, UpTo;
    var bs, g := Blocks(heights[..i]), heights[i];
    BlocksWait(start, heights[..i]);
    var (x, _) := Play(start, bs);
    if i == 0 {
      assert Fall(heights, i) == (bs + [Block({}, g)]) + [Mempool({}, g)];
      FallsTo(start, bs, x, [], g);
    } else {
      var h := heights[i - 1];
      MeetsAtOnce(x, {}, h);
      PlayPush(start, bs, Mempool({}, h));
      assert Fall(heights, i) == ((bs + [Mempool({}, h)]) + [Block({}, g)]) + [Mempool({}, g)];
      var first := Sent(|bs|, Note(h, {} + UpTo(x.bp, h)));
      assert [] + [first] == [first];
      FallsTo(start, bs + [Mempool({}, h)], Held(map[], From(x.bp, h), x.highest), [first], g);
    }
  }

  lemma FallsTo(start: int, events: seq<Event>, x: Held, sent: seq<Sent>, g: int)
    requires Play(start, events) == (x, sent) && x.mp == map[] && Before(start, sent, |sent|) > g
    ensures !Climbs(start, Notes(start, (events + [Block({}, g)]) + [Mempool({}, g)]))
  {
    hide React, Play, UpTo;
    PlayPush(start, events, Block({}, g));
    BlockWaits(x, {}, g);
    var y := Held(map[], x.bp[g := {}], g);
    PlayPush(start, events + [Block({}, g)], Mempool({}, g));
    MeetsAtOnce(y, {}, g);
    var all := Notes(start, (events + [Block({}, g)]) + [Mempool({}, g)]);
    assert all[..|sent|] == sent && all[|sent|].note.height == g;
    assert Before(start, all, |sent|) == Before(start, sent, |sent|);
  }

  /** Block heights never fall, the start height included. */
  ghost predicate NonFalling(start: int, events: seq<Event>) {
    forall k :: 0 <= k < |events| && events[k].Block? ==> events[k].height >= Highest(start, events[..k])
  }

  lemma {:induction false} NonFallingIs(start: int, events: seq<Event>)
    ensures Steady(start, BlockHeights(events)) ==> NonFalling(start, events)
    ensures Highest(start, events) == HeightBefore(start, BlockHeights(events), |BlockHeights(events)|)
  {
    if events != [] {
      var k := |events| - 1;
      var before, hs := BlockHeights(events[..k]), BlockHeights(events);
      NonFallingIs(start, events[..k]);
      if Steady(start, hs) {
        forall i | 0 <= i < |before|
          ensures HeightBefore(start, before, i) <= before[i]
        {
          assert HeightBefore(start, before, i) == HeightBefore(start, hs, i) && before[i] == hs[i];
        }
        forall j | 0 <= j < |events| && events[j].Block?
          ensures events[j].height >= Highest(start, events[..j])
        {
          if j < k {
            assert events[..k][..j] == events[..j] && events[..k][j] == events[j];
          } else {
            assert HeightBefore(start, hs, |before|) == HeightBefore(start, before, |before|);
          }
        }
      }
    }
  }

  /** The notifications of a run whose block heights never fall do not fall either. */
  lemma NotesClimb(start: int, events: seq<Event>, sent: seq<Sent>)
    requires NonFalling(start, events) && InOrder(sent) && AllTold(start, events, sent)
    ensures Climbs(start, sent)
  {
    hide NonFalling, Told, Highest;
    forall j | 0 <= j < |sent|
      ensures Before(start, sent, j) <= sent[j].note.height
    {
      if j == 0 {
        NotBelowStart(start, events, sent, j);
      } else {
        HeightsClimb(start, events, sent, j - 1, j);
      }
    }
  }

  lemma NotBelowStart(start: int, events: seq<Event>, sent: seq<Sent>, j: nat)
    requires NonFalling(start, events) && AllTold(start, events, sent) && j < |sent|
    ensures start <= sent[j].note.height
  {
    hide NonFalling, Highest, Current;
    HighestNone(start, events);
    assert Told(start, events, sent, j);
    if sent[j].note.height == Highest(start, events[..sent[j].at + 1]) {
      HighestGrows(start, events, 0, sent[j].at + 1);
    } else {
      var k: nat :| Tells(events, sent, j, k) && events[k].height == sent[j].note.height;
      HighestGrows(start, events, 0, k);
      BlockNotBelow(start, events, k);
    }
  }

  // ---- what holds while block heights rise ----

  /** Block heights are above the start height and strictly increasing. */
  ghost predicate Rising(start: int, events: seq<Event>) {
    forall k :: 0 <= k < |events| && events[k].Block? ==> events[k].height > Highest(start, events[..k])
  }

  lemma RisingNotFalling(start: int, events: seq<Event>)
    requires Rising(start, events)
    ensures NonFalling(start, events)
  {
    hide Highest;
  }

  lemma HeightsClimb(start: int, events: seq<Event>, sent: seq<Sent>, i: nat, j: nat)
    requires NonFalling(start, events) && InOrder(sent) && AllTold(start, events, sent) && i <= j < |sent|
    ensures sent[i].note.height <= sent[j].note.height
  {
    hide Highest, NonFalling, Current;
    if i < j {
      NotAboveHighest(start, events, sent, i);
      assert Told(start, events, sent, j);
      if sent[j].note.height == Highest(start, events[..sent[j].at + 1]) {
        HighestGrows(start, events, sent[i].at + 1, sent[j].at + 1);
      } else {
        var k: nat :| Tells(events, sent, j, k) && events[k].height == sent[j].note.height;
        TellsAbove(start, events, sent, i, j, k);
      }
    }
  }

  /** Each notification tells exactly the blocks above the height notified before it, up to its own. */
  lemma DeliveredOnce(start: int, events: seq<Event>, sent: seq<Sent>, j: nat, k: nat)
    requires Rising(start, events) && InOrder(sent) && AllTold(start, events, sent)
    requires j < |sent| && k < |events| && events[k].Block?
    ensures Tells(events, sent, j, k) <==>
      k <= sent[j].at && Before(start, sent, j) < events[k].height <= sent[j].note.height
  {
    hide Highest, Rising, NonFalling, Told;
    RisingNotFalling(start, events);
    HighestNone(start, events);
    HighestGrows(start, events, 0, k);
    BlockAbove(start, events, k);
    if Tells(events, sent, j, k) && j > 0 {
      TellsAbove(start, events, sent, j - 1, j, k);
    }
    NotAboveHighest(start, events, sent, j);
    if k <= sent[j].at && Before(start, sent, j) < events[k].height <= sent[j].note.height {
      forall i | 0 <= i < j
        ensures sent[..j][i].note.height < events[k].height
      {
        HeightsClimb(start, events, sent, i, j - 1);
      }
      forall i | k < i < sent[j].at + 1
        ensures !Same(events[i], events[k])
      {
        LaterAbove(start, events, k, i);
      }
    }
  }

  /** A block and a mempool update at its height: the block has been told by the later of the two. */
  lemma BlockMet(start: int, events: seq<Event>, sent: seq<Sent>, k: nat, m: nat)
    requires Rising(start, events) && AllTold(start, events, sent) && k < |events| && events[k].Block?
    requires Met(events, sent, k, m)
    ensures exists j ::
      0 <= j < |sent| && k <= sent[j].at && (sent[j].at <= k || sent[j].at <= m)
      && events[k].height <= sent[j].note.height
  {
    hide Highest, Rising, NonFalling, Told;
    RisingNotFalling(start, events);
    var j :| 0 <= j < |sent| && (k <= sent[j].at || m <= sent[j].at) && (sent[j].at <= k || sent[j].at <= m)
      && events[k].height <= sent[j].note.height;
    if sent[j].at < k {
      NotAboveHighest(start, events, sent, j);
      HighestGrows(start, events, sent[j].at + 1, k);
      BlockAbove(start, events, k);
    }
  }

  lemma UpToStep(m: map<int, Touched>, olds: set<int>, o: int, height: int)
    requires o in olds && o in m && o <= height
    ensures UpTo(m - (olds - {o}), height) == UpTo(m - olds, height) + m[o]
  {
    UpToPut(m - olds, o, m[o], height);
    assert m - (olds - {o}) == (m - olds)[o := m[o]];
  }

  lemma UpToPut(m: map<int, Touched>, o: int, t: Touched, height: int)
    requires o !in m
    ensures UpTo(m[o := t], height) == UpTo(m, height) + (if o <= height then t else {})
  {
    var m' := m[o := t];
    assert m'[o] == t && forall h :: h in m ==> h in m' && m'[h] == m[h];
  }

  // ---- lemmas behind a run ----

  lemma HighestNone(start: int, events: seq<Event>)
    ensures Highest(start, events[..0]) == start
  {
  }

  lemma HighestStep(start: int, events: seq<Event>, i: nat)
    requires i < |events|
    ensures Highest(start, events[..i + 1])
         == if events[i].Block? then events[i].height else Highest(start, events[..i])
  {
    assert events[..i + 1][..i] == events[..i];
  }

  lemma BlockAbove(start: int, events: seq<Event>, k: nat)
    requires Rising(start, events) && k < |events| && events[k].Block?
    ensures Highest(start, events[..k]) < events[k].height == Highest(start, events[..k + 1])
  {
    HighestStep(start, events, k);
  }

  lemma BlockNotBelow(start: int, events: seq<Event>, k: nat)
    requires NonFalling(start, events) && k < |events| && events[k].Block?
    ensures Highest(start, events[..k]) <= events[k].height == Highest(start, events[..k + 1])
  {
    HighestStep(start, events, k);
  }

  lemma {:induction false} HighestGrows(start: int, events: seq<Event>, a: nat, b: nat)
    requires NonFalling(start, events) && a <= b <= |events|
    ensures Highest(start, events[..a]) <= Highest(start, events[..b])
  {
    hide Highest;
    if a < b {
      HighestGrows(start, events, a, b - 1);
      HighestStep(start, events, b - 1);
    }
  }

  lemma LaterAbove(start: int, events: seq<Event>, k: nat, i: nat)
    requires Rising(start, events) && k < i < |events| && events[k].Block?
    ensures events[i].Block? ==> events[i].height > events[k].height
  {
    hide Highest, Rising, NonFalling;
    RisingNotFalling(start, events);
    BlockAbove(start, events, k);
    HighestGrows(start, events, k + 1, i);
    if events[i].Block? {
      BlockAbove(start, events, i);
    }
  }

  /** A notified height is not above the last block's. */
  lemma NotAboveHighest(start: int, events: seq<Event>, sent: seq<Sent>, i: nat)
    requires NonFalling(start, events) && AllTold(start, events, sent) && i < |sent|
    ensures sent[i].at < |events| && sent[i].note.height <= Highest(start, events[..sent[i].at + 1])
  {
    hide Highest, NonFalling;
    assert Told(start, events, sent, i);
    if sent[i].note.height != Highest(start, events[..sent[i].at + 1]) {
      var k: nat :| Tells(events, sent, i, k) && events[k].height == sent[i].note.height;
      BlockNotBelow(start, events, k);
      HighestGrows(start, events, k + 1, sent[i].at + 1);
    }
  }

  /** A block told later is above what was notified before. */
  lemma TellsAbove(start: int, events: seq<Event>, sent: seq<Sent>, i: nat, j: nat, k: nat)
    requires NonFalling(start, events) && AllTold(start, events, sent) && i < j < |sent| && Tells(events, sent, j, k)
    ensures sent[i].note.height <= events[k].height
    ensures Rising(start, events) ==> sent[i].note.height < events[k].height
  {
    hide Highest, Rising, NonFalling, Told;
    if k <= sent[i].at {
      assert sent[..j][i] == sent[i];
    } else {
      NotAboveHighest(start, events, sent, i);
      HighestGrows(start, events, sent[i].at + 1, k);
      BlockNotBelow(start, events, k);
      if Rising(start, events) {
        BlockAbove(start, events, k);
      }
    }
  }

  lemma RunStart(start: int, events: seq<Event>)
    ensures ToldSoFar(start, events, 0, Play(start, events[..0]).0, Play(start, events[..0]).1)
  {
  }

  /** A report takes its place in the map of its source. */
  lemma ReportTaken(held: map<int, Touched>, blocks: bool, events: seq<Event>, sent: seq<Sent>, i: nat)
    requires i < |events| && Holds(held, blocks, events, sent, i) && forall j :: 0 <= j < |sent| ==> sent[j].at < i
    ensures var e := events[i];
      Holds(if e.Block? == blocks then held[e.height := e.touched] else held, blocks, events, sent, i + 1)
  {
    var e := events[i];
    var now := if e.Block? == blocks then held[e.height := e.touched] else held;
    CurrentNew(events, sent, i);
    forall h | h in now
      ensures HeldBy(now[h], h, blocks, events, sent, i + 1)
    {
      if e.Block? != blocks || h != e.height {
        assert HeldBy(held[h], h, blocks, events, sent, i);
        var k: nat :| Current(events, sent, i, k)
          && events[k] == if blocks then Block(held[h], h) else Mempool(held[h], h);
        CurrentNext(events, sent, i, k);
      }
    }
    forall k: nat | Current(events, sent, i + 1, k) && events[k].Block? == blocks
      ensures events[k].height in now && now[events[k].height] == events[k].touched
    {
      CurrentNext(events, sent, i, k);
    }
  }

  lemma CurrentNew(events: seq<Event>, sent: seq<Sent>, i: nat)
    requires i < |events| && forall j :: 0 <= j < |sent| ==> sent[j].at < i
    ensures Current(events, sent, i + 1, i)
  {
  }

  /** One more event: the earlier report stays unless the event replaces it. */
  lemma CurrentNext(events: seq<Event>, sent: seq<Sent>, i: nat, k: nat)
    requires i < |events|
    ensures Current(events, sent, i + 1, k) ==> k == i || (Current(events, sent, i, k) && !Same(events[i], events[k]))
    ensures Current(events, sent, i, k) ==> k < i && (Current(events, sent, i + 1, k) <==> !Same(events[i], events[k]))
  {
  }

  /** One more notification: the reports above its height stay. */
  lemma CurrentPassed(events: seq<Event>, sent: seq<Sent>, s: Sent, n: nat, k: nat)
    requires s.at + 1 == n <= |events|
    ensures Current(events, sent + [s], n, k) <==> Current(events, sent, n, k) && s.note.height < events[k].height
  {
    var sent' := sent + [s];
    assert sent'[|sent|] == s;
    if Current(events, sent', n, k) {
      forall j | 0 <= j < |sent| && k <= sent[j].at
        ensures sent[j].note.height < events[k].height
      {
        assert sent'[j] == sent[j];
      }
    }
  }

  lemma HoldsPassed(held: map<int, Touched>, blocks: bool, events: seq<Event>, sent: seq<Sent>, s: Sent)
    requires s.at < |events| && Holds(held, blocks, events, sent, s.at + 1)
    ensures Holds(From(held, s.note.height), blocks, events, sent + [s], s.at + 1)
  {
    var n, now, sent' := s.at + 1, From(held, s.note.height), sent + [s];
    hide Current;
    forall h | h in now
      ensures HeldBy(now[h], h, blocks, events, sent', n)
    {
      var k := HeldReport(held, blocks, events, sent, n, h);
      CurrentPassed(events, sent, s, n, k);
    }
    forall k: nat | k < |events| && Current(events, sent', n, k) && events[k].Block? == blocks
      ensures events[k].height in now && now[events[k].height] == events[k].touched
    {
      CurrentPassed(events, sent, s, n, k);
      ReportHeld(held, blocks, events, sent, n, k);
    }
    InRangeAll(events, sent', n);
  }

  lemma InRangeAll(events: seq<Event>, sent: seq<Sent>, n: nat)
    ensures forall k: nat :: Current(events, sent, n, k) ==> k < n <= |events|
  {
  }

  /** The waiting sets up to a height are those of the blocks told. */
  lemma WaitingTold(bp: map<int, Touched>, events: seq<Event>, sent: seq<Sent>, s: Sent)
    requires s.at < |events| && Holds(bp, true, events, sent, s.at + 1)
    ensures UpTo(bp, s.note.height) == BlockSets(events, sent + [s], |sent|)
    ensures s.note.height in bp ==>
      exists k: nat :: Tells(events, sent + [s], |sent|, k) && events[k].height == s.note.height
  {
    var n, sent', j := s.at + 1, sent + [s], |sent|;
    assert sent'[..j] == sent && sent'[j] == s;
    forall h | h in bp && h <= s.note.height
      ensures exists k: nat :: Tells(events, sent', j, k) && events[k].height == h && events[k].touched == bp[h]
    {
      assert HeldBy(bp[h], h, true, events, sent, n);
      var k: nat :| Current(events, sent, n, k) && events[k] == Block(bp[h], h);
      InRange(events, sent, n, k);
      assert Tells(events, sent', j, k);
    }
    SetsAgree(bp, events, sent', j, s.note.height);
  }

  lemma InRange(events: seq<Event>, sent: seq<Sent>, n: nat, k: nat)
    ensures Current(events, sent, n, k) ==> k < n <= |events|
  {
  }

  lemma SetsAgree(bp: map<int, Touched>, events: seq<Event>, sent: seq<Sent>, j: nat, height: int)
    requires j < |sent| && sent[j].note.height == height && sent[j].at < |events|
    requires Holds(bp, true, events, sent[..j], sent[j].at + 1)
    requires forall h :: h in bp && h <= height ==>
      exists k: nat :: Tells(events, sent, j, k) && events[k].height == h && events[k].touched == bp[h]
    ensures UpTo(bp, height) == BlockSets(events, sent, j)
  {
    hide Current, HeldBy;
    forall x
      ensures x in UpTo(bp, height) <==> x in BlockSets(events, sent, j)
    {
      if x in UpTo(bp, height) {
        var h :| h in bp && h <= height && x in bp[h];
        var k: nat :| Tells(events, sent, j, k) && events[k].height == h && events[k].touched == bp[h];
        assert x in events[k].touched;
      }
      if x in BlockSets(events, sent, j) {
        var k: nat :| k < |events| && Tells(events, sent, j, k) && x in events[k].touched;
        assert x in bp[events[k].height];
      }
    }
  }

  lemma ToldNow(start: int, events: seq<Event>, sent: seq<Sent>, i: nat, note: Note, mp: map<int, Touched>,
                bp: map<int, Touched>, mp': map<int, Touched>, bp': map<int, Touched>)
    requires i < |events| && Holds(mp, false, events, sent, i + 1) && Holds(bp, true, events, sent, i + 1)
    requires Notified(mp, bp, Highest(start, events[..i + 1]), note, mp', bp')
    requires InOrder(sent) && AllTold(start, events, sent) && forall j :: 0 <= j < |sent| ==> sent[j].at < i
    ensures var sent' := sent + [Sent(i, note)];
      && InOrder(sent') && AllTold(start, events, sent')
      && Holds(mp', false, events, sent', i + 1) && Holds(bp', true, events, sent', i + 1)
  {
    hide Highest, UpTo, From, BlockSets, Told, Current, Holds, Tells;
    var s := Sent(i, note);
    var sent' := sent + [s];
    HoldsPassed(mp, false, events, sent, s);
    HoldsPassed(bp, true, events, sent, s);
    WaitingTold(bp, events, sent, s);
    ToldLast(start, events, sent, s, mp);
    forall j | 0 <= j < |sent|
      ensures Told(start, events, sent', j)
    {
      ToldKept(start, events, sent, s, j);
    }
  }

  lemma ToldLast(start: int, events: seq<Event>, sent: seq<Sent>, s: Sent, mp: map<int, Touched>)
    requires s.at < |events| && Holds(mp, false, events, sent, s.at + 1) && s.note.height in mp
    requires s.note.height == Highest(start, events[..s.at + 1]) ||
      exists k: nat :: Tells(events, sent + [s], |sent|, k) && events[k].height == s.note.height
    requires s.note.touched == mp[s.note.height] + BlockSets(events, sent + [s], |sent|)
    ensures Told(start, events, sent + [s], |sent|)
  {
    hide Highest, BlockSets, Tells, Current, Holds;
    var sent' := sent + [s];
    assert sent'[..|sent|] == sent && sent'[|sent|] == s;
    var m := HeldReport(mp, false, events, sent, s.at + 1, s.note.height);
  }

  /** The report that put a set in the map. */
  lemma HeldReport(held: map<int, Touched>, blocks: bool, events: seq<Event>, sent: seq<Sent>, n: nat, h: int)
    returns (k: nat)
    requires n <= |events| && Holds(held, blocks, events, sent, n) && h in held
    ensures k < |events| && events[k] == (if blocks then Block(held[h], h) else Mempool(held[h], h))
    ensures Current(events, sent, n, k)
  {
    assert HeldBy(held[h], h, blocks, events, sent, n);
    k :| Current(events, sent, n, k) && events[k] == if blocks then Block(held[h], h) else Mempool(held[h], h);
  }

  /** A current report is in the map of its source. */
  lemma ReportHeld(held: map<int, Touched>, blocks: bool, events: seq<Event>, sent: seq<Sent>, n: nat, k: nat)
    requires n <= |events| && Holds(held, blocks, events, sent, n) && Current(events, sent, n, k)
    ensures k < |events|
    ensures events[k].Block? == blocks ==> events[k].height in held && held[events[k].height] == events[k].touched
  {
  }

  lemma ToldKept(start: int, events: seq<Event>, sent: seq<Sent>, s: Sent, j: nat)
    requires j < |sent| && Told(start, events, sent, j)
    ensures Told(start, events, sent + [s], j)
  {
    hide Highest, Current;
    var sent' := sent + [s];
    assert sent'[j] == sent[j] && sent'[..j] == sent[..j];
    assert forall k: nat :: Tells(events, sent', j, k) <==> Tells(events, sent, j, k);
    assert BlockSets(events, sent', j) == BlockSets(events, sent, j);
  }

  /** The last report like report k. */
  lemma {:induction false} LastSame(events: seq<Event>, k: nat, n: nat) returns (last: nat)
    requires k < n <= |events|
    ensures k <= last < n && Same(events[last], events[k])
    ensures forall i :: last < i < n ==> !Same(events[i], events[last])
  {
    if n == k + 1 || Same(events[n - 1], events[k]) {
      last := n - 1;
    } else {
      last := LastSame(events, k, n - 1);
    }
  }

  /** A report is held until a notification has reached its height. */
  lemma HeldOrPassed(held: map<int, Touched>, events: seq<Event>, sent: seq<Sent>, n: nat, k: nat)
    requires k < n <= |events| && Holds(held, events[k].Block?, events, sent, n)
    ensures events[k].height in held ||
      exists j :: 0 <= j < |sent| && k <= sent[j].at && events[k].height <= sent[j].note.height
  {
    hide HeldBy;
    var last := LastSame(events, k, n);
    if Current(events, sent, n, last) {
      assert events[last].height in held;
    }
  }

  lemma MetNext(events: seq<Event>, sent: seq<Sent>, sent': seq<Sent>, i: nat,
                mp: map<int, Touched>, bp: map<int, Touched>)
    requires i < |events| && AllMet(events, sent, i) && sent <= sent' && mp.Keys !! bp.Keys
    requires Holds(mp, false, events, sent', i + 1) && Holds(bp, true, events, sent', i + 1)
    requires forall j :: 0 <= j < |sent'| ==> sent'[j].at <= i
    ensures AllMet(events, sent', i + 1)
  {
    hide Met, Holds;
    forall k: nat, m: nat | k < i + 1 && m < i + 1 && events[k].Block? && events[m].Mempool?
        && events[m].height == events[k].height
      ensures Met(events, sent', k, m)
    {
      if k < i && m < i {
        assert Met(events, sent, k, m);
        MetKept(events, sent, sent', k, m);
      } else {
        HeldOrPassed(bp, events, sent', i + 1, k);
        HeldOrPassed(mp, events, sent', i + 1, m);
        MetLast(events, sent', k, m, i);
      }
    }
  }

  lemma MetKept(events: seq<Event>, sent: seq<Sent>, sent': seq<Sent>, k: nat, m: nat)
    requires k < |events| && Met(events, sent, k, m) && sent <= sent'
    ensures Met(events, sent', k, m)
  {
    var j :| 0 <= j < |sent| && (k <= sent[j].at || m <= sent[j].at) && (sent[j].at <= k || sent[j].at <= m)
      && events[k].height <= sent[j].note.height;
    assert sent'[j] == sent[j];
  }

  lemma MetLast(events: seq<Event>, sent: seq<Sent>, k: nat, m: nat, i: nat)
    requires k < |events| && (i == k || i == m) && forall j :: 0 <= j < |sent| ==> sent[j].at <= i
    requires exists j ::
      0 <= j < |sent| && (k <= sent[j].at || m <= sent[j].at) && events[k].height <= sent[j].note.height
    ensures Met(events, sent, k, m)
  {
    var j :| 0 <= j < |sent| && (k <= sent[j].at || m <= sent[j].at) && events[k].height <= sent[j].note.height;
    assert sent[j].at <= i;
  }
}
