/** Whole runs: any mix of blocks, flushes, reorganisations, crashes and restarts. */
module Runs {
  import opened Types
  import opened Ledger
  import opened LedgerProofs
  import opened HistoryRows
  import HistoryStore
  import opened UtxoTables
  import opened Database
  import ForkSearch
  import opened BlockSteps
  import opened BlockProcessor

  datatype Event =
    | FromDaemon(blocks: seq<Block>, cachedHeight: int, caughtUp: bool, cacheFull: Option<bool>,
                 theirs: seq<Hash>, source: seq<Block>, fork: nat)
    | FakeReorg(count: nat, source: seq<Block>)
    | FlushNow(utxos: bool)
    | Restart(flushing: bool, utxos: bool, stop: nat)   // the process dies, possibly during a flush
    | Compact(limit: int, runs: seq<HistoryStore.ToolRun>, fit: nat)   // stopped, compacted, restarted

  /** The chain processed and the chain of the last committed UTXO flush. */
  datatype Progress = Progress(chain: seq<Block>, dbChain: seq<Block>)

  /** What is known of the flush ids: the last one used is at most `most`, that of
      the last UTXO flush is at least `least`, and an unfinished compaction on disk
      has counted to `comp` at most. */
  datatype Ids = Ids(most: nat, least: nat, comp: int)

  ghost function Step(coin: Coin, s: Progress, e: Event): Progress {
    match e
    case FromDaemon(blocks, _, caughtUp, cacheFull, _, source, fork) => (
      match KindOf(coin, Tip(coin, s.chain), blocks)
      case Advance =>
        var c := s.chain + blocks;
        Progress(c, if caughtUp || cacheFull == Some(true) then c else s.dbChain)
      case Reorg =>
        var c := s.chain[..ReorgLeft(coin, s.chain, source, ReorgStart(|s.chain| - 1, None, fork))];
        Progress(c, c)
      case _ => s)
    case FakeReorg(count, source) =>
      var c := s.chain[..ReorgLeft(coin, s.chain, source, |s.chain| - count)];
      Progress(c, c)
    case FlushNow(utxos) => Progress(s.chain, if utxos then s.chain else s.dbChain)
    case Restart(flushing, utxos, stop) =>
      var c := if flushing && utxos && stop > 3 then s.chain else s.dbChain;
      Progress(c, c)
    case Compact(_, _, _) => Progress(s.dbChain, s.dbChain)
  }

  /** Blocks found by hash are the chain's, and the range keeps to the undo records. */
  ghost predicate ReorgOk(coin: Coin, chain: seq<Block>, source: seq<Block>, start: int, lo: int) {
    |chain| <= |source| && Named(coin, chain, source) && (start >= 0 ==> lo <= start)
  }

  /** Some start of the compaction tool is left alone long enough to finish. */
  ghost predicate Finishes(runs: seq<HistoryStore.ToolRun>) {
    exists i :: 0 <= i < |runs| && runs[i].batches >= 65536
  }

  /** What the event relies on; `top` is the highest daemon height of the run.  A
      compaction may be left unfinished only while its row ids stay below the flush count. */
  ghost predicate Admissible(coin: Coin, limit: nat, top: int, s: Progress, ids: Ids, e: Event) {
    && ids.most + Cost(coin, s, e) < IDS
    && match e
       case FromDaemon(blocks, cachedHeight, _, _, theirs, source, fork) => (
         match KindOf(coin, Tip(coin, s.chain), blocks)
         case Advance => BodiesValid(coin, s.chain, blocks) && |s.chain| + |blocks| - 1 <= cachedHeight <= top
         case Reorg =>
           && (|s.chain| >= 2 ==> Parts(coin, s.chain, theirs, fork))
           && ReorgOk(coin, s.chain, source, ReorgStart(|s.chain| - 1, None, fork), top + 1 - limit)
         case _ => true)
       case FakeReorg(count, source) => count >= 1 && ReorgOk(coin, s.chain, source, |s.chain| - count, top + 1 - limit)
       case FlushNow(_) => true
       case Restart(_, _, _) => true
       case Compact(limit, runs, fit) =>
         && limit > 0 && ChainFits(Replay(coin, s.dbChain), runs, fit)
         && (Finishes(runs) || HistoryStore.Top(ids.comp, fit) <= ids.least)
  }

  /** The daemon's chain parts from ours at the given height. */
  ghost predicate Parts(coin: Coin, chain: seq<Block>, theirs: seq<Hash>, fork: nat) {
    && |theirs| >= |chain| - 1 && fork < |chain|
    && ForkSearch.PartAt(ChainHashes(coin, chain), theirs, fork)
  }

  /** An upper bound on the flush ids an event takes from those still free. */
  ghost function Cost(coin: Coin, s: Progress, e: Event): int {
    match e
    case FromDaemon(blocks, _, caughtUp, cacheFull, _, _, fork) => (
      match KindOf(coin, Tip(coin, s.chain), blocks)
      case Advance => Processor.Flushes(caughtUp, cacheFull)
      case Reorg => 1 + Chunks(|s.chain| - ReorgStart(|s.chain| - 1, None, fork))
      case _ => 0)
    case FakeReorg(count, _) => 1 + Chunks(count)
    case FlushNow(_) => 1
    case Restart(flushing, _, _) => if flushing then 1 else 0
    case Compact(_, _, _) => 0
  }

  /** A finished compaction starts the ids again from the rows of the largest
      history; every other event takes the next ids. */
  ghost function Spend(coin: Coin, s: Progress, ids: Ids, e: Event): Ids {
    match e
    case Compact(_, runs, fit) =>
      if Finishes(runs) then Ids(HistoryStore.Top(ids.comp, fit), 1, -1)
      else Ids(ids.most, 1, HistoryStore.Top(ids.comp, fit))
    case _ =>
      Ids(ids.most + Max(0, Cost(coin, s, e)),
          if Step(coin, s, e).dbChain != s.dbChain then ids.least + 1 else ids.least,
          ids.comp)
  }

  ghost function RunOf(coin: Coin, s: Progress, events: seq<Event>): Progress
    decreases |events|
  {
    if events == [] then s else RunOf(coin, Step(coin, s, events[0]), events[1..])
  }

  ghost predicate AdmissibleRun(coin: Coin, limit: nat, top: int, s: Progress, ids: Ids, events: seq<Event>)
    decreases |events|
  {
    events == [] ||
    (Admissible(coin, limit, top, s, ids, events[0]) &&
      AdmissibleRun(coin, limit, top, Step(coin, s, events[0]), Spend(coin, s, ids, events[0]), events[1..]))
  }

  ghost predicate Within(c: Counts, ids: Ids) {
    c.flushed <= ids.most && ids.least <= c.utxo && c.comp <= ids.comp
  }

  /** What is known of the ids before the first event. */
  ghost function IdsOf(db: DB): Ids
    reads db, db.history
  {
    Ids(db.Counters().flushed, db.Counters().utxo, db.Counters().comp)
  }

  /** Between events: everything valid, undo records present from the reorg limit up. */
  ghost predicate Standing(p: Processor, top: int, s: Progress, ids: Ids)
    reads p, p.db, p.db.history
  {
    && p.Valid() && p.chain == s.chain && p.db.dbChain == s.dbChain
    && p.Recorded(top + 1 - p.db.reorgLimit) && |p.chain| - 1 <= top
    && Within(p.db.Counters(), ids)
  }

  lemma StandingIs(p: Processor, top: int, s: Progress, ids: Ids)
    ensures Standing(p, top, s, ids) <==>
      && p.Valid() && p.chain == s.chain && p.db.dbChain == s.dbChain
      && p.Recorded(top + 1 - p.db.reorgLimit) && |p.chain| - 1 <= top
      && Within(p.db.Counters(), ids)
  {
    hide Processor.Valid, Processor.Recorded;
  }

  /** The ids after an event that takes the next ids. */
  lemma IdsLead(coin: Coin, limit: nat, top: int, s: Progress, ids: Ids, e: Event, a: Counts, b: Counts)
    requires !e.Compact? && Admissible(coin, limit, top, s, ids, e) && Within(a, ids)
    requires (a == b && Step(coin, s, e) == s)
      || Onward(a, b, Cost(coin, s, e), Step(coin, s, e).dbChain != s.dbChain)
    ensures Within(b, Spend(coin, s, ids, e))
  {
    hide Step, Cost;
    CostPositive(coin, s, e);
  }

  lemma CostPositive(coin: Coin, s: Progress, e: Event)
    ensures Cost(coin, s, e) >= 0
  {
    hide KindOf;
  }

  lemma ReadyFor(p: Processor, forced: Option<nat>, theirs: seq<Hash>, source: seq<Block>, f: nat, lo: int)
    requires p.Valid() && p.Recorded(lo) && (forced.Some? ==> forced.value >= 1)
    requires ReorgOk(p.db.coin, p.chain, source, ReorgStart(|p.chain| - 1, forced, f), lo)
    requires forced.None? && |p.chain| >= 2 ==> Parts(p.db.coin, p.chain, theirs, f)
    requires p.db.history.flushCount + 1 + Chunks(|p.chain| - ReorgStart(|p.chain| - 1, forced, f)) < IDS
    ensures p.ReorgReady(forced, theirs, source, f, lo) && p.height == |p.chain| - 1
  {
    hide DB.DiskOk, DB.Opened, DB.NothingPending, Processor.Synced, Replay, Processor.Recorded, Named, Matches;
    hide ForkSearch.PartAt, ReorgStart, Chunks;
  }

  /** The three cases of a batch. */
  lemma BatchFacts(coin: Coin, limit: nat, top: int, s: Progress, ids: Ids, e: Event)
    requires e.FromDaemon? && Admissible(coin, limit, top, s, ids, e)
    ensures ids.most + Cost(coin, s, e) < IDS
    ensures KindOf(coin, Tip(coin, s.chain), e.blocks) == Advance ==>
      && BodiesValid(coin, s.chain, e.blocks) && |s.chain| + |e.blocks| - 1 <= e.cachedHeight <= top
      && Step(coin, s, e).chain == s.chain + e.blocks
      && Step(coin, s, e).dbChain == (if e.caughtUp || e.cacheFull == Some(true) then s.chain + e.blocks else s.dbChain)
      && Cost(coin, s, e) == Processor.Flushes(e.caughtUp, e.cacheFull)
    ensures KindOf(coin, Tip(coin, s.chain), e.blocks) == Reorg ==>
      var start := ReorgStart(|s.chain| - 1, None, e.fork);
      var left := s.chain[..ReorgLeft(coin, s.chain, e.source, start)];
      && (|s.chain| >= 2 ==> Parts(coin, s.chain, e.theirs, e.fork))
      && ReorgOk(coin, s.chain, e.source, start, top + 1 - limit)
      && Step(coin, s, e) == Progress(left, left)
      && Cost(coin, s, e) == 1 + Chunks(|s.chain| - start)
    ensures KindOf(coin, Tip(coin, s.chain), e.blocks) in {Idle, Reset} ==> Step(coin, s, e) == s
  {
    hide KindOf, BodiesValid, Named, Matches, ReorgStart, Chunks, ReorgLeft, Parts;
  }

  /** Where a batch leads, case by case. */
  lemma BatchLeads(coin: Coin, limit: nat, top: int, s: Progress, ids: Ids, e: Event,
                   chain: seq<Block>, dbChain: seq<Block>, a: Counts, b: Counts)
    requires e.FromDaemon? && Admissible(coin, limit, top, s, ids, e) && |s.chain| - 1 <= top && Within(a, ids)
    requires KindOf(coin, Tip(coin, s.chain), e.blocks) == Advance ==>
      && chain == s.chain + e.blocks && Onward(a, b, Processor.Flushes(e.caughtUp, e.cacheFull), dbChain != s.dbChain)
      && dbChain == (if e.caughtUp || e.cacheFull == Some(true) then chain else s.dbChain)
    requires KindOf(coin, Tip(coin, s.chain), e.blocks) == Reorg ==>
      var start := ReorgStart(|s.chain| - 1, None, e.fork);
      && chain == dbChain == s.chain[..ReorgLeft(coin, s.chain, e.source, start)]
      && Onward(a, b, 1 + Chunks(|s.chain| - start), dbChain != s.dbChain)
    requires KindOf(coin, Tip(coin, s.chain), e.blocks) in {Idle, Reset} ==>
      chain == s.chain && dbChain == s.dbChain && a == b
    ensures Progress(chain, dbChain) == Step(coin, s, e) && |chain| - 1 <= top && Within(b, Spend(coin, s, ids, e))
  {
    hide KindOf, ReorgStart, ReorgLeft, Tip, Chunks, Step, Admissible, Cost, ReorgOk, Onward, Spend, Within;
    BatchFacts(coin, limit, top, s, ids, e);
    IdsLead(coin, limit, top, s, ids, e, a, b);
  }

  /** What the block processor asks of a batch, case by case. */
  lemma BatchReady(p: Processor, e: Event, top: int, s: Progress, ids: Ids)
    requires e.FromDaemon? && Standing(p, top, s, ids) && Admissible(p.db.coin, p.db.reorgLimit, top, s, ids, e)
    ensures p.tip == Tip(p.db.coin, s.chain) && p.height == |s.chain| - 1
    ensures KindOf(p.db.coin, p.tip, e.blocks) == Advance ==>
      && BodiesValid(p.db.coin, p.chain, e.blocks)
      && top + 1 - p.db.reorgLimit >= e.cachedHeight - p.db.reorgLimit + 1
      && p.db.history.flushCount + Processor.Flushes(e.caughtUp, e.cacheFull) < IDS
    ensures KindOf(p.db.coin, p.tip, e.blocks) == Reorg ==>
      p.ReorgReady(None, e.theirs, e.source, e.fork, top + 1 - p.db.reorgLimit)
  {
    hide Processor.Valid, Processor.Recorded, Processor.ReorgReady, Named, Matches, BodiesValid, Replay;
    hide KindOf, Parts, ReorgStart, Tip, Chunks, Step, Admissible, Cost, ReorgOk;
    p.ChainFact();
    p.HeightFact();
    BatchFacts(p.db.coin, p.db.reorgLimit, top, s, ids, e);
    if KindOf(p.db.coin, p.tip, e.blocks) == Reorg {
      ReadyFor(p, None, e.theirs, e.source, e.fork, top + 1 - p.db.reorgLimit);
    }
  }

  /** A reorganisation that succeeds leaves what the event says. */
  lemma DoneLeft(coin: Coin, chain: seq<Block>, source: seq<Block>, start: int)
    requires 1 <= start <= |chain| && Matches(coin, chain, source, start)
    ensures Before(chain, start) == chain[..ReorgLeft(coin, chain, source, start)]
  {
    hide Matches, ReorgLeft;
    ReorgDone(coin, chain, source, start);
  }

  /** After a reorganisation that failed: start again from the chunks it had committed. */
  method Reopen(p: Processor, ghost all: seq<Block>, ghost source: seq<Block>, ghost start: int, ghost top: int,
                ghost before: seq<Block>, ghost a: Counts, ghost used: int)
    requires p.GaveUp(all, source, start, top + 1 - p.db.reorgLimit) && |all| - 1 <= top
    requires Onward(a, p.db.Counters(), used, p.db.dbChain != before)
    modifies p, p.db, p.db.history
    ensures p.Valid() && p.Recorded(top + 1 - p.db.reorgLimit)
    ensures p.chain == p.db.dbChain == all[..ReorgLeft(p.db.coin, all, source, start)]
    ensures Onward(a, p.db.Counters(), used, p.db.dbChain != before)
  {
    hide *;
    ghost var kept, lo, n, b := p.db.kept, top + 1 - p.db.reorgLimit, |p.db.dbChain|, p.db.Counters();
    GaveUpFacts(p, all, source, start, lo);
    p.FirstOpenDbs();
    p.FlushedFacts();
    KeptReopened(kept, lo, n, p.db.reorgLimit, UndoHeights(p.undoInfos));
    RecordedIs(p, lo);
    OnwardReopened(a, b, p.db.Counters(), used, p.db.dbChain != before);
  }

  lemma GaveUpFacts(p: Processor, all: seq<Block>, source: seq<Block>, start: int, lo: int)
    requires p.GaveUp(all, source, start, lo)
    ensures p.db.DiskOk() && p.db.dbChain == all[..ReorgLeft(p.db.coin, all, source, start)]
    ensures Kept(p.db.kept, lo, |p.db.dbChain|) && |p.db.dbChain| <= |all|
    ensures p.db.Counters().utxo == p.db.utxoDb.state.utxoFlushCount
    ensures p.db.Counters().comp == p.db.history.disk.compFlushCount
  {
    hide DB.DiskOk, ReorgLeft, Kept;
  }

  lemma RecordedIs(p: Processor, lo: int)
    ensures p.Recorded(lo) <==> Records(p.db.kept, UndoHeights(p.undoInfos), |p.db.dbChain|, |p.chain|, lo)
  {
    hide Records, UndoHeights;
  }

  /** Opening takes no id. */
  lemma OnwardReopened(a: Counts, b: Counts, c: Counts, used: int, moved: bool)
    requires Onward(a, b, used, moved) && c == Counts(b.utxo, b.utxo, b.comp)
    ensures Onward(a, c, used, moved)
  {
  }

  lemma KeptReopened(kept: set<nat>, lo: int, n: nat, limit: nat, queued: set<nat>)
    requires Kept(kept, lo, n) && n - limit <= lo
    ensures Records(KeptFrom(kept, n - limit), queued, n, n, lo)
  {
  }

  method TakeBatch(p: Processor, e: Event, ghost top: int, ghost s: Progress, ghost ids: Ids)
    requires e.FromDaemon? && Standing(p, top, s, ids) && Admissible(p.db.coin, p.db.reorgLimit, top, s, ids, e)
    modifies p, p.db, p.db.history
    ensures Standing(p, top, Step(p.db.coin, s, e), Spend(p.db.coin, s, ids, e))
  {
    hide *;
    ghost var lo, a, start := top + 1 - p.db.reorgLimit, p.db.Counters(), ReorgStart(|s.chain| - 1, None, e.fork);
    StandingIs(p, top, s, ids);
    p.ChainFact();
    p.HeightFact();
    BatchReady(p, e, top, s, ids);
    if KindOf(p.db.coin, p.tip, e.blocks) == Reorg {
      p.ReorgFacts(None, e.theirs, e.source, e.fork, lo);
    }
    var outcome := p.CheckAndAdvanceBlocks(e.blocks, e.cachedHeight, e.caughtUp, e.cacheFull, e.theirs, e.source,
      e.fork, lo);
    if outcome.Reorganised? {
      if outcome.ok {
        p.FlushedFacts();
        DoneLeft(p.db.coin, s.chain, e.source, start);
      } else {
        Reopen(p, s.chain, e.source, start, top, s.dbChain, a, 1 + Chunks(|s.chain| - start));
      }
    }
    BatchLeads(p.db.coin, p.db.reorgLimit, top, s, ids, e, p.chain, p.db.dbChain, a, p.db.Counters());
    StandingIs(p, top, Step(p.db.coin, s, e), Spend(p.db.coin, s, ids, e));
  }

  method TakeReorg(p: Processor, count: nat, source: seq<Block>, ghost top: int, ghost s: Progress, ghost ids: Ids)
    requires Standing(p, top, s, ids)
    requires Admissible(p.db.coin, p.db.reorgLimit, top, s, ids, FakeReorg(count, source))
    modifies p, p.db, p.db.history
    ensures var e := FakeReorg(count, source);
      Standing(p, top, Step(p.db.coin, s, e), Spend(p.db.coin, s, ids, e))
  {
    hide Processor.Valid, Processor.Recorded, Processor.ReorgReady, Processor.AllFlushed, Processor.GaveUp;
    hide Named, Matches, Replay, DB.DiskOk, ReorgLeft, Onward, Within, Spend, Chunks;
    ghost var lo, a, start := top + 1 - p.db.reorgLimit, p.db.Counters(), |s.chain| - count;
    StandingIs(p, top, s, ids);
    assert Within(a, ids) ==> a.flushed <= ids.most by {
      MostIs(a, ids);
    }
    ReadyFor(p, Some(count), [], source, 0, lo);
    var ok := p.ReorgChain(Some(count), [], source, 0, lo);
    if ok {
      p.FlushedFacts();
      DoneLeft(p.db.coin, s.chain, source, start);
    } else {
      Reopen(p, s.chain, source, start, top, s.dbChain, a, 1 + Chunks(count));
    }
    IdsLead(p.db.coin, p.db.reorgLimit, top, s, ids, FakeReorg(count, source), a, p.db.Counters());
    StandingIs(p, top, Step(p.db.coin, s, FakeReorg(count, source)),
               Spend(p.db.coin, s, ids, FakeReorg(count, source)));
  }

  lemma MostIs(a: Counts, ids: Ids)
    requires Within(a, ids)
    ensures a.flushed <= ids.most && ids.least <= a.utxo && a.comp <= ids.comp
  {
  }

  lemma RecordsReopened(kept: set<nat>, queued: set<nat>, n: nat, m: nat, lo: int, kept': set<nat>, n': nat, limit: nat,
                        queued': set<nat>)
    requires Records(kept, queued, n, m, lo) && n <= m && n' - limit <= lo
    requires if n' == n then kept' == kept else n' == m && kept' == kept + queued
    ensures Records(KeptFrom(kept', n' - limit), queued', n', n', lo)
  {
  }

  method TakeRestart(p: Processor, flushing: bool, utxos: bool, stop: nat,
                     ghost top: int, ghost s: Progress, ghost ids: Ids)
    requires Standing(p, top, s, ids)
    requires Admissible(p.db.coin, p.db.reorgLimit, top, s, ids, Restart(flushing, utxos, stop))
    modifies p, p.db, p.db.history
    ensures var e := Restart(flushing, utxos, stop);
      Standing(p, top, Step(p.db.coin, s, e), Spend(p.db.coin, s, ids, e))
  {
    hide Processor.Valid, Processor.AllFlushed, DB.DiskOk, Replay, Records, UndoHeights, Processor.Utxos, KeptFrom;
    ghost var lo, queued, n := top + 1 - p.db.reorgLimit, UndoHeights(p.undoInfos), |p.db.dbChain|;
    ghost var a := p.db.Counters();
    p.SameLength();
    p.CountsFact();
    if flushing {
      p.Flush(utxos, stop);
    }
    ghost var m, kept, n' := |p.chain|, p.db.kept, |p.db.dbChain|;
    p.FirstOpenDbs();
    p.FlushedFacts();
    RecordsReopened(old(p.db.kept), queued, n, m, lo, kept, n', p.db.reorgLimit, UndoHeights(p.undoInfos));
    IdsLead(p.db.coin, p.db.reorgLimit, top, s, ids, Restart(flushing, utxos, stop), a, p.db.Counters());
  }

  /** The server is stopped, its history compacted, wholly or in part, in as many
      starts of the tool as it takes, and the server started again. */
  method TakeCompact(p: Processor, limit: int, runs: seq<HistoryStore.ToolRun>, ghost fit: nat,
                     ghost top: int, ghost s: Progress, ghost ids: Ids)
    requires Standing(p, top, s, ids)
    requires Admissible(p.db.coin, p.db.reorgLimit, top, s, ids, Compact(limit, runs, fit))
    modifies p, p.db, p.db.history
    ensures var e := Compact(limit, runs, fit);
      Standing(p, top, Step(p.db.coin, s, e), Spend(p.db.coin, s, ids, e))
    ensures Finishes(runs) ==>
      1 <= p.db.history.flushCount <= HistoryStore.Top(old(p.db.history.disk).compFlushCount, fit)
  {
    hide Processor.Valid, Processor.AllFlushed, DB.DiskOk, Replay, Records, UndoHeights, Processor.Utxos, KeptFrom;
    hide ChainFits, HistoryStore.AllWithin, RowsAreOf, DB.Paused, IdsUpTo, HistoryStore.SameSize;
    ghost var lo, queued, n, kept := top + 1 - p.db.reorgLimit, UndoHeights(p.undoInfos), |p.db.dbChain|, p.db.kept;
    p.SameLength();
    p.CountsFact();
    var finished := p.db.CompactHistory(limit, runs, true, fit);
    p.FirstOpenDbs();
    p.FlushedFacts();
    KeptFromTwice(kept, n - p.db.reorgLimit);
    RecordsReopened(kept, queued, n, |old(p.chain)|, lo, kept, n, p.db.reorgLimit, UndoHeights(p.undoInfos));
  }

  lemma KeptFromTwice(kept: set<nat>, min: int)
    ensures KeptFrom(KeptFrom(kept, min), min) == KeptFrom(kept, min)
  {
  }

  method TakeFlush(p: Processor, utxos: bool, ghost top: int, ghost s: Progress, ghost ids: Ids)
    requires Standing(p, top, s, ids) && Admissible(p.db.coin, p.db.reorgLimit, top, s, ids, FlushNow(utxos))
    modifies p, p.db, p.db.history
    ensures var e := FlushNow(utxos);
      Standing(p, top, Step(p.db.coin, s, e), Spend(p.db.coin, s, ids, e))
  {
    hide Processor.Valid, Processor.Recorded;
    ghost var a := p.db.Counters();
    p.MaybeFlush(false, Some(utxos), top + 1 - p.db.reorgLimit);
    IdsLead(p.db.coin, p.db.reorgLimit, top, s, ids, FlushNow(utxos), a, p.db.Counters());
  }

  method Take(p: Processor, e: Event, ghost top: int, ghost s: Progress, ghost ids: Ids)
    requires Standing(p, top, s, ids) && Admissible(p.db.coin, p.db.reorgLimit, top, s, ids, e)
    modifies p, p.db, p.db.history
    ensures Standing(p, top, Step(p.db.coin, s, e), Spend(p.db.coin, s, ids, e))
  {
    hide Standing, KindOf, BodiesValid, Admissible, Step, Spend;
    match e
    case FromDaemon(_, _, _, _, _, _, _) => TakeBatch(p, e, top, s, ids);
    case FakeReorg(count, source) => TakeReorg(p, count, source, top, s, ids);
    case FlushNow(utxos) => TakeFlush(p, utxos, top, s, ids);
    case Restart(flushing, utxos, stop) => TakeRestart(p, flushing, utxos, stop, top, s, ids);
    case Compact(limit, runs, fit) => TakeCompact(p, limit, runs, fit, top, s, ids);
  }

  /** The unspent outputs held by cache and tables less pending deletes, the counts,
      the tip and every address's history are those of the replayed chain. */
  ghost predicate IndexIsReplay(p: Processor)
    reads p, p.db, p.db.history
  {
    var ix := Replay(p.db.coin, p.chain);
    && ValidChain(p.db.coin, p.chain)
    && Represents(p.db.utxoDb.h, p.db.utxoDb.u, p.dbDeletes, p.utxoCache, ix.utxos, ix.txids)
    && p.txCount == |ix.txids| && p.db.txCounts == ix.txCounts
    && p.height == |p.chain| - 1 && p.tip == Tip(p.db.coin, p.chain)
    && PendingIs(p.db.history.rows, p.db.history.unflushed, ix.touches)
  }

  lemma ValidMeans(p: Processor)
    requires p.Valid()
    ensures IndexIsReplay(p)
  {
    hide Replay, ValidChain, DB.DiskOk, DB.Opened, DB.NothingPending, UndosOk, DB.CanLookup;
    hide HistoryOf, Occurs, Layers, Represents, Numbers, Abs, PendingIs;
    PendingFacts(p.db, p.chain);
    CoherentNumbers(p.db.coin, p.chain);
    LayersRepresent(p.db.utxoDb.h, p.db.utxoDb.u, p.db.Ix().utxos, p.db.Ix().txids, p.pend, p.utxoCache, p.dbDeletes,
                    Replay(p.db.coin, p.chain).txids);
  }

  /** After any run the index is what replaying the chain from genesis gives. */
  method Run(p: Processor, events: seq<Event>, ghost top: int)
    requires p.Valid() && p.Recorded(top + 1 - p.db.reorgLimit) && |p.chain| - 1 <= top
    requires AdmissibleRun(p.db.coin, p.db.reorgLimit, top, Progress(p.chain, p.db.dbChain), IdsOf(p.db), events)
    modifies p, p.db, p.db.history
    ensures Progress(p.chain, p.db.dbChain)
      == RunOf(p.db.coin, Progress(old(p.chain), old(p.db.dbChain)), events)
    ensures p.Valid() && p.Recorded(top + 1 - p.db.reorgLimit)
    ensures IndexIsReplay(p)
  {
    hide Standing, Step, Admissible, Spend, Processor.Valid, Processor.Recorded, IndexIsReplay;
    ghost var s := Progress(p.chain, p.db.dbChain);
    ghost var s0, ids := s, IdsOf(p.db);
    StandingIs(p, top, s, ids);
    var rest := events;
    while rest != []
      invariant Standing(p, top, s, ids) && AdmissibleRun(p.db.coin, p.db.reorgLimit, top, s, ids, rest)
      invariant RunOf(p.db.coin, s, rest) == RunOf(p.db.coin, s0, events)
      decreases |rest|
    {
      Take(p, rest[0], top, s, ids);
      ids := Spend(p.db.coin, s, ids, rest[0]);
      s, rest := Step(p.db.coin, s, rest[0]), rest[1..];
    }
    StandingIs(p, top, s, ids);
    ValidMeans(p);
  }

  /** From an empty database: whatever the run, the index is that of the chain it leads to. */
  method Sync(coin: Coin, reorgLimit: nat, maxRowEntries: nat, events: seq<Event>, ghost top: int)
    returns (p: Processor)
    requires maxRowEntries >= 1 && top >= -1
    requires AdmissibleRun(coin, reorgLimit, top, Progress([], []), Ids(0, 0, -1), events)
    ensures p.db.coin == coin && p.chain == RunOf(coin, Progress([], []), events).chain
    ensures p.Valid() && IndexIsReplay(p)
  {
    hide *;
    var db := new DB(coin, reorgLimit, maxRowEntries);
    p := new Processor(db);
    p.FirstOpenDbs();
    p.FlushedFacts();
    EmptyStart(p, top);
    Run(p, events, top);
  }

  /** An empty chain has every undo record there could be. */
  lemma EmptyStart(p: Processor, top: int)
    requires p.chain == [] && p.db.dbChain == [] && p.db.Counters() == Counts(0, 0, -1)
    ensures p.Recorded(top + 1 - p.db.reorgLimit) && IdsOf(p.db) == Ids(0, 0, -1)
  {
  }
}
