# ElectrumX index model

ElectrumX follows a bitcoin-like daemon and keeps an index of its chain: unspent
outputs by outpoint and by address, the history of every address, the numbers
and ids of all transactions, and merkle proofs over them. This project models
the index and the machines around it in Dafny and proves that they hold what
they should.

`Ledger` says, with no cache or table in sight, what a chain of blocks means:
`Ledger.Replay` folds it from genesis into an outpoint map, the addresses each
transaction touches, transaction ids, cumulative counts and undo values. The
classes that follow are measured against it.

| file | what it models |
|---|---|
| Types, Powers, Totals | shared values, shifts and logarithms, finite sums |
| Ledger, LedgerProofs | the meaning of a chain, folded block by block; both transaction orders |
| ChainMeaning | the same read off the blocks: which outputs are unspent, which transactions touch an address, which chains are valid |
| HistoryRows, CompactionRows | address history as rows; what compaction does to rows |
| HistoryStore | `history.py`: flush, back-up, restart, compaction |
| UtxoTables | the `h` and `u` tables, the cache and the pending deletes as one map |
| Database | `db.py`: flushes, restart, queries |
| BlockSteps, BlockProcessor | `block_processor.py`: advance, flush, back up, reorganise |
| Runs | any sequence of batches, flushes, reorganisations, crashes, restarts and compactions |
| Answers | what the index answers, in terms of the blocks alone |
| ForkSearch | the fork-point search |
| LogicalFile, MetaFiles | one file split over several; the metadata files as records in such files |
| Merkle, MerkleCache | `merkle.py` |
| Mempool | `mempool.py` |
| Notifications | the notification coordinator of `controller.py` |
| PaddedTransport | `transport.py` |
| TxCodec, TxReader | `tx.py`: serialization and both deserializers |
| BlockReader | raw blocks, and the ledger's view of what is read from them |
| Base58 | `hash.py`: Base58 and Base58Check |

## The main result

`Runs.Run` takes a block processor through any list of events: a batch of blocks
from the daemon (which may extend the chain, start a reorganisation or be
thrown away), a forced reorganisation, a flush with or without the UTXO set, the
death of the process at any moment outside a reorganisation, including between
the writes of a flush, followed by a restart, and a compaction of the history,
killed and restarted any number of times with any row sizes, finished or left
unfinished when the server starts again. A reorganisation that fails, because the
blocks found do not match or it would take off the genesis block, is followed by a
restart on the chunks it had committed (`ReorgLeft`).

Afterwards the unspent outputs stored in cache and tables less pending deletes,
the transaction counts, the height, the tip and every address's history are those
of replaying the chain that the events lead to, and that chain is given by a short
pure function (`RunOf`). `Runs.Sync` starts such a run from an
empty database. A death between the chunks of a reorganisation is a forced
reorganisation of the blocks committed so far followed by a restart.

What that index means is stated over the blocks, with no fold in sight.
`ChainMeaning.UtxosAre`: an outpoint is in the map if and only if some transaction
of the chain made it, with a spendable script, and no input has named it since;
its entry is that output's address and value and the number of that transaction.
`ChainMeaning.HistoryIs`: a transaction is in the history of exactly the addresses
it pays to and spends from. If no transaction id occurs twice these say what one
expects (`UnspentOnce`, `HistoryOnce`). `Answers` carries both to the rows on
disk, the cache and the queries.

It relies on the following.

- Blocks are valid: inputs are distinct and spend currently unspent outputs, and
  an output never overwrites an unspent one (BIP 30);
  `ChainMeaning.EmptyBlockValid`, `TxValid` and `LtorBlockValid` say exactly which
  chains that lets through. The link between blocks is not assumed; the code
  checks it and `BlockSteps.LinkedValid` uses the check.
- A write batch is atomic, and transaction numbers stay below 2^40, the five
  bytes that store them.
- The flush ids taken since the last finished compaction stay below 65536, the
  two bytes that store them; a finished compaction starts them again from the rows
  of the largest history, so a run may be as long as it likes (`Runs.Spend`).
- The configured row size is at least 1, and a compacted history fits in the row
  ids there are. The server starts on an unfinished compaction only if the row ids
  it can have written are not above the flush count; see below for what happens
  otherwise.
- A header hash names one block: a raw block read back for one of our hashes is
  that block. No hash function is assumed injective anywhere.
- A reorganisation goes no deeper than the reorg limit below the highest daemon
  height of the run. Undo records are written for exactly those heights; the
  ghost set `kept` records which of the records on disk were written for the
  current chain, since a deeper record may be left over from an earlier branch.
- When the daemon reports a fork, its chain and ours agree below one height and
  nowhere from it up.
- The number of levels of a merkle tree is the exact base-2 logarithm rounded up.
  In floating point the original gets 30 for 2^29 hashes and 32 for 2^31, one
  too many.
- The database a run starts from is sound (`Database.DB.DiskOk`), as a new one is
  and as every run, crash and finished compaction leaves it.

## What does not hold

- `CompactionRows.FlushAfterCancel`: a compaction cancelled part-way is safe for
  an address if and only if it has no row id above the flush count. A compaction
  with a small row size can write such ids; `CompactionRows.CancelUnsafe` is a
  history of three entries that then loses one. `Database.DB.PausedIsOk` says the
  same of a whole database, and `Database.DB.CompactHistory` of the tool killed
  anywhere: the server may start on what it leaves if and only if no row id is
  above the flush count.
- `CompactionRows.CutLoses`: if the compaction tool dies after its last batch but
  before the new flush count is recorded in the UTXO database, opening keeps an
  address's history if and only if no row id of it is above the old count.
  `CompactionRows.CutUnsafe` is a history that loses an entry. With a new count
  that is not above the old one, the tool can simply be run again
  (`Database.DB.CompactHistory`).
- `ForkSearch.CalcReorgRange` answers the fork exactly if the fork lies above the
  lowest height it probes, and 0 otherwise; and `ReorgChain` succeeds only for a
  start of at least 1, because the last chunk of a reorganisation down to
  genesis is refused by an assertion. A failed one leaves exactly the chunks
  committed before (`BlockProcessor.Processor.GaveUp`). A fork at or below the
  lowest probe can therefore never be followed; it is always in the lower half of
  the chain (`ForkSearch.MissedForks`).
- `SpendUtxo` is exact for every outpoint of the map. For an absent outpoint its
  contract says exactly when it fails to raise: when the entry is still in the
  tables pending deletion, or when one single entry shares its compressed id and
  index, which skips the check of the full hash. `UtxoTables.WronglyFound` shows
  both, and `UtxoTables.CollidingIds` two ids it applies to.
- `MerkleCache` never raises for an inconsistent level, but a cached answer is
  only as current as the source below the cache's length: truncation must come
  before the source changes, as the run's condition says.
- Notified heights do not fall, under every placing of mempool reports, if and
  only if the heights of the blocks reported do not (`Notifications.NeverFalls`).
  After a reorganisation they may.
- A block's touched set is told by the first notification that reaches its height
  if and only if no later block at that height was reported before it
  (`Notifications.ToldUnlessReplaced`); `Notifications.ReplacedLost` is a run that
  loses a set. What every notification tells is stated for any order of heights.

## Model

| member | source | states |
|---|---|---|
| LedgerProofs.ReplayCoherent | src/electrumx/server/block_processor.py:408-488 | for every chain the index is coherent: each entry's number is that of the transaction that made it, counts, ids, touched sets and undo values line up |
| LedgerProofs.ReplayPrefix | src/electrumx/server/block_processor.py:408-488 | the counts, ids, touched sets and undo values of a prefix of a chain are prefixes of those of the chain |
| LedgerProofs.LtorAgrees | src/electrumx/server/block_processor.py:776-875 | on a topologically ordered block the outputs-first order gives the same map, undo values and touched addresses as the normal order |
| LedgerProofs.LtorOrderIrrelevant | src/electrumx/server/block_processor.py:776-832 | any permutation of a block's effects is valid outputs-first and gives the same map up to transaction numbers |
| LedgerProofs.BlockOrderIrrelevant | src/electrumx/server/block_processor.py:776-832 | the same for any permutation of the transactions of a block |
| ChainMeaning.UtxosAre | src/electrumx/server/block_processor.py:459-474 | for every valid chain, the map holds exactly the spendable outputs made and not spent since, each with its own script's address, its own value and its transaction's number |
| ChainMeaning.HistoryIs | src/electrumx/server/block_processor.py:453-478 | a transaction is recorded for exactly the addresses that its spendable outputs pay and that the outputs it spends paid |
| ChainMeaning.InputsDraw | src/electrumx/server/block_processor.py:459-465 | every input but a coinbase's spends an output made before it and not spent in between |
| ChainMeaning.NumbersAre | src/electrumx/server/block_processor.py:441-488 | transactions are numbered in chain order: a number leads to its id, and the count at a height is that of all transactions up to it |
| ChainMeaning.UnspentOnce | src/electrumx/server/block_processor.py:459-474 | without repeated ids: unspent exactly if made with a spendable script and named by no input |
| ChainMeaning.HistoryOnce | src/electrumx/server/block_processor.py:453-478 | without repeated ids: in the history of an address exactly if it pays it or an input names an output that does |
| ChainMeaning.EmptyBlockValid | src/electrumx/server/block_processor.py:233-238 | a block without transactions extends a valid chain exactly if its header names the last header's hash, or 32 zero bytes on an empty chain |
| ChainMeaning.TxValid | src/electrumx/server/block_processor.py:459-474 | in block order, one more transaction is valid exactly if its inputs name different unspent outputs and it makes nothing that is unspent |
| ChainMeaning.LtorBlockValid | src/electrumx/server/block_processor.py:797-824 | outputs first, a block is valid exactly if it names no outpoint twice, spends only what was unspent or it makes itself, and makes nothing twice or unspent |
| ChainMeaning.FirstBlock | src/electrumx/lib/tx.py:91-93 | a block of one coinbase is valid on the empty chain; its outputs of 5 and 3 are held as such, and data outputs are left out as the rules at the height say |
| Answers.LimitedHistory | src/electrumx/server/db.py:494-522 | the ids and heights of exactly the transactions that pay to or spend from the address, oldest first, cut at the limit; none exactly while one of them is not committed |
| Answers.FoundIs | src/electrumx/server/db.py:791-839 | a looked-up outpoint is found exactly if unspent, with the address and value of its output |
| Answers.RowIs | src/electrumx/server/db.py:759-789 | a row is listed for an address exactly if it is an unspent output that pays it, with its value, its transaction's id and number and its block's height |
| Answers.EntriesAre | src/electrumx/server/block_processor.py:573-617 | a running process holds an entry, in the cache or as two table rows not marked for deletion, exactly if the output is unspent |
| Answers.HistoriesAre | src/electrumx/server/history.py:148-184 | rows and pending history of an address are the numbers of exactly the transactions that touch it, in order |
| Answers.TouchedAre | src/electrumx/server/block_processor.py:246-251 | the addresses reported after a batch are those its transactions pay to and spend from |
| UtxoTables.LayersRepresent | src/electrumx/server/block_processor.py:573-617 | the tables less the listed deletes hold exactly the entries of the map that are not in the cache, and the cache holds the others, whatever was numbered since the flush |
| UtxoTables.CandidateStored | src/electrumx/server/block_processor.py:631-656 | every key found under a compressed id is the key of an entry of the map, with its hashX and value in the two tables |
| UtxoTables.CandidateOf | src/electrumx/server/block_processor.py:631-648 | an entry of the map is among the candidates of its compressed id, and is the only one with its full hash |
| UtxoTables.WronglyFound | src/electrumx/server/block_processor.py:631-661 | two outpoints outside the map that the lookup finds: one whose id collides with the only entry, and an entry already spent |
| UtxoTables.CollidingIds | src/electrumx/server/block_processor.py:631-648 | two different ids with the same compressed id |
| UtxoTables.MarkDeleted | src/electrumx/server/block_processor.py:652-656 | marking both keys of an entry removes exactly that entry from the map the layers represent |
| UtxoTables.DeletesApplied | src/electrumx/server/db.py:314-330 | deleting the pending keys from both tables leaves the tables of exactly the remaining entries, still one to one |
| UtxoTables.AddEntry | src/electrumx/server/db.py:331-343 | putting the two rows of a new entry gives the tables of the map with that entry |
| BlockProcessor.Processor.constructor | src/electrumx/server/block_processor.py:174-213 | height -1, no tip and empty caches over the given database |
| BlockProcessor.Processor.SpendUtxo | src/electrumx/server/block_processor.py:618-661 | an outpoint of the map is returned with its hashX, number and value and only it is removed, whatever the collisions; exactly when an absent one is refused |
| BlockProcessor.Processor.PutUtxo | src/electrumx/server/block_processor.py:473-474 | the map gains exactly the entry |
| BlockProcessor.Processor.SpendInputs | src/electrumx/server/block_processor.py:459-465 | every outpoint named by an input other than 32 zero bytes with index 4294967295 is removed and nothing else; their values and addresses are recorded in order |
| BlockProcessor.Processor.AddOutputs | src/electrumx/server/block_processor.py:467-474 | each spendable output is added with the address of its own script and its own value, and nothing else changes |
| BlockProcessor.Processor.AdvanceTx | src/electrumx/server/block_processor.py:453-478 | one transaction's effect on the map, its undo values and the addresses it touches |
| BlockProcessor.Processor.AdvanceInOrder | src/electrumx/server/block_processor.py:433-488 | the map, undo record and touched sets of a block are those of the ledger, in block order |
| BlockProcessor.Processor.AddAllOutputs | src/electrumx/server/block_processor.py:797-813 | outputs of the whole block are in the map before any input is spent |
| BlockProcessor.Processor.SpendAllInputs | src/electrumx/server/block_processor.py:815-824 | then all inputs are spent, with their values in order |
| BlockProcessor.Processor.AdvanceOutputsFirst | src/electrumx/server/block_processor.py:778-832 | the map, undo record and touched sets of a block are those of the ledger, outputs first |
| BlockProcessor.Processor.AdvanceBody | src/electrumx/server/block_processor.py:433-488 | whichever order the coin uses |
| BlockProcessor.Processor.AdvanceTxs | src/electrumx/server/block_processor.py:433-488 | after a block's transactions map, counts, ids, pending history and touched addresses are those of the longer chain |
| BlockProcessor.Processor.AdvanceBlock | src/electrumx/server/block_processor.py:417-424 | one block; its undo record is kept exactly for heights from the minimum up |
| BlockProcessor.Processor.AdvanceBlocks | src/electrumx/server/block_processor.py:408-431 | everything held is that of replaying the chain with the blocks added; exactly which undo records are kept; the touched set grows by what the blocks touch |
| BlockProcessor.Processor.Flush | src/electrumx/server/block_processor.py:359-370 | a completed flush leaves chain and outpoint map unchanged and memory valid; a flush cut off after any of its writes leaves the disk at the last UTXO flush |
| BlockProcessor.Processor.MaybeFlush | src/electrumx/server/block_processor.py:372-381 | everything is flushed when caught up, else what the cache size asks for; nothing observable changes |
| BlockProcessor.Processor.UnmakeOutputs | src/electrumx/server/block_processor.py:540-549 | spends exactly the outputs a transaction made |
| BlockProcessor.Processor.RestoreInputs | src/electrumx/server/block_processor.py:551-559 | puts back exactly what the transaction spent, reading the undo record backwards |
| BlockProcessor.Processor.BackupInOrder | src/electrumx/server/block_processor.py:519-562 | undoes a whole block: the exact prior map, every address the block touched collected, the record used up |
| BlockProcessor.Processor.RestoreForward | src/electrumx/server/block_processor.py:850-856 | puts back one transaction's inputs, reading the record forwards |
| BlockProcessor.Processor.RestoreAllInputs | src/electrumx/server/block_processor.py:845-858 | puts back all inputs of the block, the record used up |
| BlockProcessor.Processor.UnmakeAllOutputs | src/electrumx/server/block_processor.py:860-873 | spends every output the block made |
| BlockProcessor.Processor.BackupOutputsFirst | src/electrumx/server/block_processor.py:834-875 | undoes an outputs-first block: the exact prior map, also for outputs made and spent in the block |
| BlockProcessor.Processor.BackupTxs | src/electrumx/server/block_processor.py:519-562 | back-up after advance restores map and count exactly, in either order; refused if and only if the undo record is missing |
| BlockProcessor.Processor.BackupBlock | src/electrumx/server/block_processor.py:500-515 | one block less; refused exactly for a hash that is not the tip's or a missing record |
| BlockProcessor.Processor.BackupBlocks | src/electrumx/server/block_processor.py:490-517 | a batch is backed up if and only if it leaves genesis, matches the chain's hashes and has its records; the result is the shorter chain, and every address touched above it has been collected |
| BlockProcessor.Processor.FlushBackup | src/electrumx/server/block_processor.py:283-287 | after the commit everything is valid and flushed for the shorter chain |
| BlockProcessor.Processor.GetRawBlocks | src/electrumx/server/block_processor.py:274-281 | the raw blocks of descending heights |
| BlockProcessor.Processor.ReorgChunk | src/electrumx/server/block_processor.py:292-296 | one chunk backed up and committed; otherwise the disk is unchanged |
| BlockProcessor.Processor.ReorgChunks | src/electrumx/server/block_processor.py:263-299 | the last blocks are taken off if and only if the blocks found match and one block remains; otherwise exactly the chunks before the failing one are |
| BlockProcessor.Processor.CalcReorgRange | src/electrumx/server/block_processor.py:316-346 | the range is the forced one or that of the fork search |
| BlockProcessor.Processor.ReorgChain | src/electrumx/server/block_processor.py:263-299 | succeeds exactly when the range starts at 1 or above and the blocks match; then the index is that of the chain below the range; a failed one leaves a sound disk for exactly the chain without the chunks committed before it failed |
| BlockSteps.LeftDone | src/electrumx/server/block_processor.py:289-299 | chunk by chunk, matching blocks are taken off down to the start |
| BlockSteps.FirstChunkLeft | src/electrumx/server/block_processor.py:289-296 | a mismatch in the second chunk leaves 50 blocks taken off |
| BlockSteps.ReorgDone | src/electrumx/server/block_processor.py:263-299 | with all blocks matching, what the chunks leave is the chain below the start |
| BlockProcessor.Processor.FirstOpenDbs | src/electrumx/server/block_processor.py:691-695 | from any sound disk, a restart is valid for the chain of the last UTXO flush |
| BlockProcessor.Processor.Proceed | src/electrumx/server/block_processor.py:239-251 | connecting blocks are indexed, flushed if due, and the touched addresses reported once with the new height |
| BlockProcessor.Processor.CheckAndAdvanceBlocks | src/electrumx/server/block_processor.py:226-261 | exactly when a batch advances, reorganises or resets, and the outcome of each |
| BlockSteps.LinkedLists | src/electrumx/server/block_processor.py:233-238 | comparing the two lists of hashes decides whether a batch links to the tip |
| BlockSteps.KindIs | src/electrumx/server/block_processor.py:238-261 | a batch advances exactly if its first block names the tip and each other the one before it, and reorganises exactly if the first one does not |
| BlockSteps.LinkedValid | src/electrumx/server/block_processor.py:233-238 | a batch that links and whose transactions are valid extends a valid chain |
| Database.BisectRight | src/electrumx/server/db.py:450-459 | the first position whose count is above the number |
| Database.DB.constructor | src/electrumx/server/db.py:77-136 | a new database is sound for the empty chain |
| Database.DB.FlushFs | src/electrumx/server/db.py:271-309 | files hold headers, counts and ids of the chain; cut off after the first or second file they still hold those of the last UTXO flush |
| Database.DB.FlushTables | src/electrumx/server/db.py:314-343 | tables after deletes and puts hold exactly the map of cache, tables and pending deletes |
| Database.DB.PutEntries | src/electrumx/server/db.py:331-343 | both rows of every new entry, in any order |
| Database.DB.FlushUndoInfos | src/electrumx/server/db.py:538-543 | records at the written and the kept heights are the chain's |
| Database.DB.FlushHistory | src/electrumx/server/db.py:311-312 | rows hold exactly the chain's history, and are still cut at the last UTXO flush |
| Database.DB.FlushUtxoDb | src/electrumx/server/db.py:314-358 | the committed tables, records and state hold the new chain |
| Database.DB.FlushDbs | src/electrumx/server/db.py:228-269 | after every write, of a file or a database, the disk is sound; the committed chain changes only with the UTXO commit |
| Database.DB.FlushBackup | src/electrumx/server/db.py:368-388 | pointers, history and tables hold the shorter chain |
| Database.DB.ReadUtxoState | src/electrumx/server/db.py:600-636 | memory holds the committed state and the file pointers fall back to it |
| Database.DB.ClearExcessUndoInfo | src/electrumx/server/db.py:568-598 | exactly the records below the reorg limit go, the others stay as they are |
| Database.DB.ReadTxCounts | src/electrumx/server/db.py:138-150 | counts are those of the committed chain |
| Database.DB.OpenHistory | src/electrumx/server/history.py:55-75 | the rows are exactly the history of the committed chain, an unfinished compaction forgotten |
| Database.DB.OpenDbs | src/electrumx/server/db.py:152-177 | from any sound disk: the index of exactly the last committed UTXO flush |
| Database.DB.OpenForCompacting | src/electrumx/server/db.py:152-180 | the same with an unfinished compaction kept, from a sound or a half compacted database |
| Database.DB.AssertFlushed | src/electrumx/server/db.py:216-226 | at the height of the last UTXO flush every assertion that all is flushed holds |
| Database.DB.PausedIsOk | src/electrumx/server/history.py:390-394 | a half compacted database recorded with its own flush count may be served from if and only if no row id exceeds that count, as when the compaction has not counted above it |
| Database.DB.CompactHistory | src/electrumx/cli/electrumx_compact_history.py:41-68 | started on a sound or half compacted database and killed any number of times, the tool keeps the chain's histories; finished, it leaves a sound disk with its ids and the flush count reset to the rows of the largest history, compact rows if the row size stayed the same; killed part-way, the disk is sound exactly if no row id exceeds the flush count; killed before the new count is recorded, it can be restarted when the count did not rise |
| Database.DB.LookupReady | src/electrumx/server/db.py:450-459 | committed numbers resolve whether memory is ahead of the disk or backed up behind it |
| Database.DB.TxHashExact | src/electrumx/server/db.py:450-459 | a committed number gives its transaction's id and the height of the block that holds it, empty blocks included |
| Database.DB.TxHashUnflushed | src/electrumx/server/db.py:450-459 | a number not yet committed gives no hash |
| Database.DB.FsTxHashesAtBlockheight | src/electrumx/server/db.py:461-475 | exactly the block's ids in order, or none above the committed height |
| Database.DB.FsBlockHashes | src/electrumx/server/db.py:480-492 | the hashes of the blocks asked for, or an error when not all are on disk |
| Database.DB.AllUtxos | src/electrumx/server/db.py:759-789 | exactly the address's entries, each once, with id and number; the height is that of the block holding the transaction when the counts extend the committed chain |
| Database.DB.LookupUtxos | src/electrumx/server/db.py:791-839 | for each prevout its hashX and value if unspent, none otherwise |
| Database.DB.LookupUtxo | src/electrumx/server/db.py:797-833 | the same for one prevout, whatever the collisions |
| Database.IdsFromBlocks | src/electrumx/server/db.py:285-296 | the ids of a chain are those of a prefix and then those of the later blocks |
| Database.FilesWritten | src/electrumx/server/db.py:285-309 | writing the new parts at the pointers makes the files hold the chain |
| Database.RowsAfterFlush | src/electrumx/server/db.py:311-312 | a history flush leaves old rows cut exactly at the last UTXO flush |
| Database.RowsRestored | src/electrumx/server/history.py:110-133 | dropping the newer rows gives every address the history of the committed chain |
| Database.RowsBackedUp | src/electrumx/server/history.py:186-217 | truncating the touched addresses gives every address, touched or not, the history of the shorter chain |
| Database.RowsCommitted | src/electrumx/server/db.py:345-358 | rows that are the chain's history are cut at their highest id |
| Runs.Take | src/electrumx/server/block_processor.py:663-721 | one event leads to the chain it should, keeps everything valid and the undo records in reach, and takes no more flush ids than accounted for |
| Runs.TakeBatch | src/electrumx/server/block_processor.py:226-261 | a batch leads to the chain its case says, a failed reorganisation and the restart after it included |
| Runs.TakeReorg | src/electrumx/server/block_processor.py:672-674 | a forced reorganisation leads to the chain below its range, or, failing, to what its committed chunks leave |
| Runs.Reopen | src/electrumx/server/block_processor.py:691-695 | a restart after a failed reorganisation is valid for the chain its committed chunks leave, with the undo records that are due |
| Runs.TakeFlush | src/electrumx/server/block_processor.py:366-370 | a flush keeps the chain |
| Runs.TakeRestart | src/electrumx/server/block_processor.py:691-721 | a death after any write and a restart lead to the chain of the last UTXO flush |
| Runs.TakeCompact | src/electrumx/cli/electrumx_compact_history.py:41-68 | stopping, compacting, in whole or in part, and starting again lead to the committed chain; a finished compaction resets the flush counter |
| Runs.Run | src/electrumx/server/block_processor.py:663-721 | after any admissible run the index is what replaying the chain gives |
| Runs.Sync | src/electrumx/server/block_processor.py:691-721 | the same, and validity, for every admissible run from an empty database |
| Runs.ValidMeans | src/electrumx/server/block_processor.py:408-431 | validity means that stored tables, deletes and cache, counts, height, tip and histories are those of the replayed chain |
| ForkSearch.DiffPos | src/electrumx/server/block_processor.py:319-325 | index of the first difference, the length if there is none |
| ForkSearch.CalcReorgRange | src/electrumx/server/block_processor.py:328-346 | terminates; answers the fork if it is above the lowest probe and else 0; query bound |
| ForkSearch.MissedForks | src/electrumx/server/block_processor.py:328-342 | only forks in the lower half of the chain can be missed, and some are |
| HistoryRows.BelowOccurs | src/electrumx/server/history.py:186-217 | the entries of a history below a number are the history of that many transactions |
| HistoryRows.CutHistory | src/electrumx/server/history.py:110-133 | dropping rows above the cut leaves exactly the entries below the cut's transaction count |
| HistoryRows.AppendRow | src/electrumx/server/history.py:165-184 | a row with an id above all others comes last in the history |
| HistoryStore.BisectLeft | src/electrumx/server/history.py:203 | the first position not below the number |
| HistoryStore.History.constructor | src/electrumx/server/history.py:38-53 | an empty, valid store |
| HistoryStore.History.AddUnflushed | src/electrumx/server/history.py:148-157 | each address gains exactly the numbers of the transactions that touch it, in order |
| HistoryStore.History.AddTx | src/electrumx/server/history.py:152-155 | the same for one transaction |
| HistoryStore.History.Flush | src/electrumx/server/history.py:165-184 | every history is extended by its pending part; the counter goes up by one |
| HistoryStore.History.PutRows | src/electrumx/server/history.py:172-177 | one new row for each pending address, nothing else |
| HistoryStore.History.BackupAddress | src/electrumx/server/history.py:192-212 | one address cut to the entries below the count, walking rows backwards |
| HistoryStore.History.Backup | src/electrumx/server/history.py:186-217 | touched addresses are cut exactly, others unchanged, all still strictly increasing |
| HistoryStore.History.ClearExcess | src/electrumx/server/history.py:110-133 | exactly the rows above the UTXO flush count go |
| HistoryStore.History.OpenDb | src/electrumx/server/history.py:55-75 | what opening leaves, with and without compaction |
| HistoryStore.History.GetTxnums | src/electrumx/server/history.py:219-229 | the history, oldest first, cut at the limit |
| HistoryStore.History.EmitRow | src/electrumx/server/history.py:294-330 | one row is written only if the disk does not have it already |
| HistoryStore.History.CutRows | src/electrumx/server/history.py:273-332 | the history is cut into full rows with nothing lost |
| HistoryStore.History.CompactHashX | src/electrumx/server/history.py:273-332 | full rows of the same history, with ids from 0 |
| HistoryStore.History.GatherRows | src/electrumx/server/history.py:334-361 | an address's rows in order |
| HistoryStore.History.CompactAddress | src/electrumx/server/history.py:344-361 | one more address staged; nothing staged for a compact one |
| HistoryStore.History.CompactPrefix | src/electrumx/server/history.py:334-361 | all addresses of a prefix staged |
| HistoryStore.PrefixIs | src/electrumx/server/history.py:334-361 | a prefix's addresses are those beginning with its two bytes, the high one first |
| HistoryStore.History.FlushCompaction | src/electrumx/server/history.py:254-271 | the batch is applied; the counter is reset at the end |
| HistoryStore.History.CompactFrom | src/electrumx/server/history.py:363-376 | prefixes are staged up to the first that brings the bytes written to the limit, or to the end |
| HistoryStore.History.CompactHistory | src/electrumx/server/history.py:363-388 | one pass changes no history, moves the cursor, and at the end bounds every id by the new flush count; a compact store is not written |
| HistoryStore.History.RunCompaction | src/electrumx/cli/electrumx_compact_history.py:53-68 | any number of passes change no history; 65536 suffice |
| HistoryStore.History.CompactWithInterruptions | src/electrumx/cli/electrumx_compact_history.py:41-68 | any interruptions and resumptions, each with its own row size, change no history; a long enough run finishes, with compact rows if the size stayed the same |
| HistoryStore.CompactAgain | src/electrumx/server/history.py:273-332 | compacting a compact address writes and deletes nothing |
| HistoryStore.AfterCommit | src/electrumx/server/history.py:254-271 | a commit keeps every history and leaves the prefixes below the cursor compact |
| CompactionRows.FullRowsUnique | src/electrumx/server/history.py:273-332 | a history has only one cutting into full rows |
| CompactionRows.RowsAreHistory | src/electrumx/server/history.py:219-229 | numbered rows read back as their concatenation |
| CompactionRows.CommitKeepsHistory | src/electrumx/server/history.py:254-271 | a staged batch changes no address's history |
| CompactionRows.FlushAfterCancel | src/electrumx/server/history.py:390-394 | after a cancelled compaction the next flush extends a history if and only if no row id exceeds the flush count |
| CompactionRows.CutLoses | src/electrumx/server/history.py:110-133 | opening below a recorded flush count keeps a history if and only if it has no row above it |
| CompactionRows.CutUnsafe | src/electrumx/server/history.py:110-133 | a compacted history that loses an entry that way |
| CompactionRows.CancelUnsafe | src/electrumx/server/history.py:390-394 | a history of three entries that loses one |
| LogicalFile.File.constructor | src/electrumx/lib/util.py:199-201 | an empty file |
| LogicalFile.File.Read | src/electrumx/lib/util.py:203-221 | exactly the bytes of the flat contents, across pieces |
| LogicalFile.File.Write | src/electrumx/lib/util.py:223-230 | exactly a write into the flat contents |
| MetaFiles.WriteRecords | src/electrumx/server/db.py:290-301 | bytes written at a record's offset, across split files, write the records into the list |
| MetaFiles.ReadRecords | src/electrumx/server/db.py:457-475 | exactly the records asked for, as far as there are any |
| MetaFiles.Meta.WriteHeaders | src/electrumx/server/db.py:291-293 | the split header file then holds the headers written into the array |
| MetaFiles.Meta.WriteTxCounts | src/electrumx/server/db.py:297-299 | the same for the counts, packed as 64-bit integers |
| MetaFiles.Meta.WriteHashes | src/electrumx/server/db.py:300-301 | the same for the transaction ids |
| MetaFiles.Meta.ReadTxCounts | src/electrumx/server/db.py:138-150 | unpacking what the file holds gives the first counts of the array |
| MetaFiles.Meta.ReadHashes | src/electrumx/server/db.py:461-475 | the ids of a range of transaction numbers |
| Merkle.BranchLength | src/electrumx/lib/merkle.py:51-57 | the least depth whose tree holds the hashes; none for no hashes |
| Merkle.BranchAndRoot | src/electrumx/lib/merkle.py:59-90 | siblings on the way up and the root, and exactly when it is refused |
| Merkle.NextAt | src/electrumx/lib/merkle.py:81-88 | a hash of the next layer is the hash of the left neighbour's bytes followed by the right one's, a last one without neighbour doubled |
| Merkle.ThreeLeaves | src/electrumx/lib/merkle.py:59-90 | branches and root of three hashes written out, and of one; refusals out of range or for too short a length |
| Merkle.RootFromProof | src/electrumx/lib/merkle.py:97-119 | the hash the branch leads to, the element first at an odd index and last at an even one; refused exactly for an index beyond the branch |
| Merkle.Level | src/electrumx/lib/merkle.py:121-127 | roots of segments are the layer of the tree |
| Merkle.BranchAndRootFromLevel | src/electrumx/lib/merkle.py:129-161 | from the right level and leaves, the branch and root of the whole tree, at any cut up to the branch length |
| Merkle.ProofVerifies | src/electrumx/lib/merkle.py:97-119 | a branch leads to the hash above its position, at any height |
| Merkle.RootProved | src/electrumx/lib/merkle.py:97-119 | a branch of the natural length or longer leads to the root |
| Merkle.ProofBinds | src/electrumx/lib/merkle.py:97-119 | a branch that leads there is the branch, for that hash, or exhibits a collision |
| Merkle.RootBinds | src/electrumx/lib/merkle.py:97-119 | the same for the root and the natural length |
| Merkle.TopDown | src/electrumx/lib/merkle.py:59-95 | layer by layer from below and halving from above give the same root |
| Merkle.UpSlice | src/electrumx/lib/merkle.py:121-127 | the layer of whole segments is a slice of the layer |
| Merkle.UpJoin | src/electrumx/lib/merkle.py:129-161 | going up in two steps is going up; the branches join |
| Merkle.LevelCut | src/electrumx/lib/merkle.py:129-161 | the tree cut at a layer: both parts give the branch and root of the whole |
| MerkleCache.Cache.constructor | src/electrumx/lib/merkle.py:167-182 | an empty cache holds for any source |
| MerkleCache.Cache.Initialize | src/electrumx/lib/merkle.py:220-225 | covers the source, or is refused |
| MerkleCache.Cache.ExtendTo | src/electrumx/lib/merkle.py:197-206 | the level is the naive one of the longer prefix |
| MerkleCache.Cache.LevelFor | src/electrumx/lib/merkle.py:208-218 | the naive level of a covered prefix |
| MerkleCache.Cache.Truncate | src/electrumx/lib/merkle.py:227-238 | covers no more than asked and still holds |
| MerkleCache.Cache.BranchAndRoot | src/electrumx/lib/merkle.py:240-263 | answers like the naive tree for every length and index |
| MerkleCache.Run | src/electrumx/lib/merkle.py:164-263 | over any queries, truncations, changes of the source and initialisations at any time, all answers are naive |
| MerkleCache.StillHolds | src/electrumx/lib/merkle.py:227-238 | changes from the truncation up are not seen |
| Mempool.MemPool.constructor | src/electrumx/server/mempool.py:111-129 | an empty, valid mempool |
| Mempool.MemPool.ResolveInputs | src/electrumx/server/mempool.py:222-237 | exactly the prevouts' pairs, or deferred exactly when one is not known |
| Mempool.MemPool.AddTo | src/electrumx/server/mempool.py:247-249 | the transaction is under the addresses of the pairs |
| Mempool.MemPool.Accept | src/electrumx/server/mempool.py:240-249 | one more accepted transaction, exactly indexed, with its fee |
| Mempool.MemPool.AcceptTransactions | src/electrumx/server/mempool.py:209-251 | everything ready is accepted, what is deferred was not ready, and exactly the prevouts of the accepted are spent; in any order |
| Mempool.MemPool.Forget | src/electrumx/server/mempool.py:287-295 | one transaction leaves the index exactly |
| Mempool.MemPool.RemoveFrom | src/electrumx/server/mempool.py:291-294 | no empty sets are kept |
| Mempool.MemPool.RemoveGone | src/electrumx/server/mempool.py:286-295 | exactly the listed transactions stay |
| Mempool.MemPool.FetchAndAccept | src/electrumx/server/mempool.py:334-385 | one chunk is fetched, looked up and accepted as far as it can be |
| Mempool.MemPool.FetchAll | src/electrumx/server/mempool.py:297-311 | however the new hashes are cut into chunks, at least those spending only known outputs are accepted, nothing else is lost, and the rest is kept for the next passes |
| Mempool.MemPool.PickChunk | src/electrumx/server/mempool.py:300-303 | some of the hashes, at most 200 |
| Mempool.MemPool.AcceptRest | src/electrumx/server/mempool.py:313-326 | at most five passes, each but the last accepting something; if fewer than five, nothing left could be accepted |
| Mempool.MemPool.ProcessMempool | src/electrumx/server/mempool.py:278-332 | new transactions with chains of at most five new ancestors are accepted; kept ones unchanged; touched addresses exact; refused exactly at a wrong height, looked at again only when there were new hashes |
| Mempool.MemPool.BalanceDelta | src/electrumx/server/mempool.py:398-409 | the effect of all accepted transactions on the address |
| Mempool.MemPool.PotentialSpends | src/electrumx/server/mempool.py:415-426 | prevouts of the transactions touching the address, every real spend among them |
| Mempool.PoolIs | src/electrumx/server/mempool.py:239-245 | an accepted transaction's input pairs are those of the outputs it spends, and its fee is what they exceed its outputs by, or 0 |
| Mempool.IndexIs | src/electrumx/server/mempool.py:247-249 | a transaction is indexed under an address exactly if an output of its own, or one it spends, pays it |
| Mempool.BalanceIs | src/electrumx/server/mempool.py:398-409 | each transaction adds what it pays the address less what it spends of it |
| Mempool.ValueToIs | src/electrumx/server/mempool.py:407-408 | the value of pairs to an address is summed over the pairs of that address alone |
| Mempool.SumIs | src/electrumx/server/mempool.py:243-244 | the value of pairs is summed over all of them |
| Mempool.SettledGrounded | src/electrumx/server/mempool.py:313-326 | without progress no chain of ancestors, however long, is left |
| Mempool.Conservation | src/electrumx/server/mempool.py:398-409 | balance changes sum to minus the fees when none was clamped |
| Mempool.PoolConserves | src/electrumx/server/mempool.py:398-409 | the same over the indexed addresses of a valid mempool |
| Notifications.Coordinator.constructor | src/electrumx/server/controller.py:34-37 | nothing reported |
| Notifications.Coordinator.Start | src/electrumx/server/controller.py:61-64 | the start height is notified |
| Notifications.Coordinator.Meeting | src/electrumx/server/controller.py:39-50 | exactly when there is a height to notify, and which |
| Notifications.Coordinator.TakeBlocks | src/electrumx/server/controller.py:54-55 | the block sets up to the height are taken |
| Notifications.Coordinator.MaybeNotify | src/electrumx/server/controller.py:39-56 | the mempool set at the height and exactly the block sets waiting up to it; no height is left waiting on both sides |
| Notifications.Coordinator.OnMempool | src/electrumx/server/controller.py:66-68 | the same after a mempool update |
| Notifications.Coordinator.OnBlock | src/electrumx/server/controller.py:70-73 | the same after a block at any height |
| Notifications.Run | src/electrumx/server/controller.py:34-73 | for reports at any heights: each notification is the mempool's latest report at its height and exactly the blocks neither told nor replaced, up to it; a block and a mempool update at one height are met by a notification between them |
| Notifications.ToldOnce | src/electrumx/server/controller.py:54-55 | no block is told twice |
| Notifications.DeliveredOnce | src/electrumx/server/controller.py:34-73 | while block heights rise each notification tells exactly the blocks above the height notified before it |
| Notifications.NeverFalls | src/electrumx/server/controller.py:34-73 | notified heights never decrease, under every placing of mempool reports, if and only if block heights never do |
| Notifications.ToldUnlessReplaced | src/electrumx/server/controller.py:39-73 | at any heights: a block is told by the first notification to reach its height if and only if no later block at that height came before it, and by no other |
| Notifications.ReplacedLost | src/electrumx/server/controller.py:70-73 | a run in which a replaced block's address is never told |
| Notifications.BlockMet | src/electrumx/server/controller.py:39-56 | while block heights rise a block whose height has had a mempool update has been told by the later of the two |
| PaddedTransport.RFind | src/electrumx/server/transport.py:76 | the last newline before a position |
| PaddedTransport.Transport.constructor | src/electrumx/server/transport.py:33-39 | an empty buffer |
| PaddedTransport.Transport.Choose | src/electrumx/server/transport.py:68-88 | exactly which packet: the whole buffer padded up, or, if that pads less and is not forced, what ends at the last newline before half that size |
| PaddedTransport.Transport.MaybeConsume | src/electrumx/server/transport.py:51-97 | a packet is sent exactly if sending is possible and forced, or 1024 bytes are buffered, or more than a second has passed since the last send, or fewer than 1024 bytes were sent so far; it is the one chosen, and no message is lost |
| PaddedTransport.Transport.Send | src/electrumx/server/transport.py:68-97 | one packet of whole messages, spaces before its last two bytes, of the size and messages chosen; the assertions hold |
| PaddedTransport.SizesArePowers | src/electrumx/server/transport.py:70-76 | the whole size is a power of two above the buffer's, from 1024 up, and the half size is half of it, from 1024 up |
| PaddedTransport.LeastAbove | src/electrumx/server/transport.py:70-71 | no smaller power of two from 1024 up would hold the buffer |
| PaddedTransport.Drain | src/electrumx/server/transport.py:99-112 | polls that can send and come more than a second after the last send empty the buffer, a message at least at each |
| PaddedTransport.Transport.Write | src/electrumx/server/transport.py:42-49 | one more message accepted, unless closing, and sent at once exactly under the conditions above |
| PaddedTransport.Transport.Close | src/electrumx/server/transport.py:117-122 | a forced send drains the buffer |
| PaddedTransport.Run | src/electrumx/server/transport.py:42-122 | over any run, packets then buffer are the messages accepted, whole and in order |
| PaddedTransport.BoundaryAt | src/electrumx/server/transport.py:76-93 | a newline in the buffer ends a message |
| TxCodec.TxBack | src/electrumx/lib/tx.py:134-148 | reading a serialized transaction gives it back and consumes exactly its bytes |
| TxCodec.TxRead | src/electrumx/lib/tx.py:66-75 | bytes that parse re-serialize to no more bytes, and to themselves if to as many |
| TxCodec.SegWitBack | src/electrumx/lib/tx.py:263-307 | BIP 144 bytes give every field back, the spliced bytes are the legacy form, and the size is that of BIP 141 |
| TxCodec.LegacySame | src/electrumx/lib/tx.py:263-270 | a legacy transaction with an input reads the same under both deserializers |
| TxCodec.NoInputsMisread | src/electrumx/lib/tx.py:263-275 | one without inputs is taken for the SegWit form |
| TxCodec.NumJoin | src/electrumx/lib/tx.py:212-240 | the lowest byte comes first: joined bytes weigh 256 to the length of those before them |
| TxCodec.SignedIs | src/electrumx/lib/tx.py:212-220 | a signed integer is negative exactly if its last byte is 128 or more, and then less by 256 to the length |
| TxCodec.VarintWire | src/electrumx/lib/tx.py:201-210 | a count byte by byte: one byte below 253, or 253, 254, 255 and two, four or eight bytes, lowest first |
| TxCodec.SampleBytes | src/electrumx/lib/tx.py:134-307 | one transaction with all its bytes written out, in the legacy and the SegWit form, with its fields, stripped bytes and size |
| TxCodec.VarintBack | src/electrumx/lib/util.py:362-369 | a packed count is read back |
| TxCodec.VarintRead | src/electrumx/lib/tx.py:201-210 | a count read was packed in at least its canonical bytes |
| TxCodec.VarbytesBack | src/electrumx/lib/util.py:372-373 | counted bytes are read back |
| TxCodec.InputBack | src/electrumx/lib/tx.py:95-101 | an input is read back |
| TxCodec.OutputBack | src/electrumx/lib/tx.py:109-113 | an output is read back |
| TxCodec.BodyBack | src/electrumx/lib/tx.py:66-75 | counted inputs and outputs are read back |
| TxCodec.WitnessBack | src/electrumx/lib/tx.py:255-261 | a witness is read back |
| TxReader.Deserializer.constructor | src/electrumx/lib/tx.py:128-132 | a cursor at the start |
| TxReader.Deserializer.ReadNbytes | src/electrumx/lib/tx.py:192-196 | the next bytes, refused past the end |
| TxReader.Deserializer.ReadLe | src/electrumx/lib/tx.py:222-240 | the next integer, the lowest byte first: two and four bytes written out |
| TxReader.Deserializer.ReadSigned | src/electrumx/lib/tx.py:212-220 | the next signed integer |
| TxReader.Deserializer.ReadVarint | src/electrumx/lib/tx.py:201-210 | the next count |
| TxReader.Deserializer.ReadVarbytes | src/electrumx/lib/tx.py:198-199 | the next counted bytes |
| TxReader.Deserializer.ReadInput | src/electrumx/lib/tx.py:169-175 | the next input |
| TxReader.Deserializer.ReadInputs | src/electrumx/lib/tx.py:165-167 | the counted inputs |
| TxReader.Deserializer.ReadOutput | src/electrumx/lib/tx.py:181-185 | the next output |
| TxReader.Deserializer.ReadOutputs | src/electrumx/lib/tx.py:177-179 | the counted outputs |
| TxReader.Deserializer.ReadBody | src/electrumx/lib/tx.py:137-141 | inputs, then outputs |
| TxReader.Deserializer.ReadTx | src/electrumx/lib/tx.py:134-148 | the transaction at the cursor and the hash of exactly its bytes |
| TxReader.Deserializer.ReadWitnessField | src/electrumx/lib/tx.py:259-261 | one input's witness |
| TxReader.Deserializer.ReadWitness | src/electrumx/lib/tx.py:255-257 | the witness of every input |
| TxReader.Deserializer.ReadSegWit | src/electrumx/lib/tx.py:272-307 | the marked form: txid from the spliced bytes, wtxid from all of them |
| TxReader.Deserializer.ReadTxParts | src/electrumx/lib/tx.py:263-307 | either form, ids and virtual size |
| BlockReader.ReadTxBlock | src/electrumx/lib/tx.py:160-163 | the counted transactions with their ids; bytes may follow |
| BlockReader.ReadBlock | src/electrumx/lib/coins.py:262-271 | header and transactions of a raw block, or a refusal |
| BlockReader.InLedgerIs | src/electrumx/lib/tx.py:165-185 | the ledger's transaction has the outpoints, values and scripts that were read |
| BlockReader.BlockBack | src/electrumx/lib/coins.py:267-271 | the bytes of a block give the ledger's block: every id is the hash of the legacy form, whether or not a witness is carried |
| Base58.CharValue | src/electrumx/lib/hash.py:70-79 | the digit of a character of the alphabet, none outside it |
| Base58.AlphabetIs | src/electrumx/lib/hash.py:70-72 | the character of each digit, written out |
| Base58.SampleText | src/electrumx/lib/hash.py:82-122 | the bytes 0 and 97 are written 12g, and back |
| Base58.CheckedIs | src/electrumx/lib/hash.py:125-132 | text passes exactly for the payload in front of the first four bytes of its hash |
| Base58.CharRoundTrip | src/electrumx/lib/hash.py:70-79 | each digit has its own character |
| Base58.Decode | src/electrumx/lib/hash.py:82-105 | exactly what text decodes to, and when it is refused |
| Base58.LeadingOnes | src/electrumx/lib/hash.py:97-101 | the leading ones are counted |
| Base58.Encode | src/electrumx/lib/hash.py:108-122 | exactly what bytes encode to |
| Base58.LowDigits | src/electrumx/lib/hash.py:112-115 | the digits, least significant first |
| Base58.DecodeEncode | src/electrumx/lib/hash.py:82-122 | decode of encode, for every non-empty byte string |
| Base58.EncodeDecode | src/electrumx/lib/hash.py:82-122 | encode of decode, for every non-empty text over the alphabet |
| Base58.Canonical | src/electrumx/lib/util.py:176-183 | leading zeros and value determine the digits |
| Base58.DecodeCheck | src/electrumx/lib/hash.py:125-132 | the payload, if the checksum is that of its hash |
| Base58.EncodeCheck | src/electrumx/lib/hash.py:135-139 | the payload and the first four bytes of its hash, encoded |
| Base58.CheckRoundTrip | src/electrumx/lib/hash.py:125-139 | a payload comes back under any hash of at least four bytes |
| Base58.CheckUnique | src/electrumx/lib/hash.py:125-139 | only the text that encodes a payload decodes to it |

## Left out

- Storage engines, key bytes and iteration order: a store is a finite map from key records to values, and loops over it take keys in any order.
- Byte layout of undo records and cache values: a record is a list of entries and a cache value is a record.
- Emptying of the flushed lists inside the database: the processor empties its own fields after the call, which the original does through shared lists.
- Database files are flat arrays of records, written and read as such; MetaFiles shows for each write and read that the split files behave so, one call at a time.
- LogicalFile.File.Write: only at offsets the file already reaches, as all its callers write; holes are not modelled.
- Headers of variable length and the header offsets file.
- A crash in the middle of a back-up flush, where two databases commit separately.
- A server start while the flush count of a finished compaction is not recorded in the UTXO database: until its first flush completes, the recorded count is above that of the history.
- Undo records left behind by a branch deeper than the reorg limit: reading one is not modelled.
- The truncation of the header merkle cache inside the database's back-up; MerkleCache.Run shows what it is for.
- Concurrent calls of one merkle cache, and concurrent interleavings of the mempool's fetches: calls run one after the other.
- MerkleCache.Cache.BranchAndRoot: the wait for initialization is a precondition.
- Mempool.MemPool.ProcessMempool: the database is the same for all lookups of one refresh; deserialization of raw transactions is taken as given, and an output index beyond a parent's outputs is excluded.
- Notifications.Run: only block sets are tracked to delivery; mempool sets for lower heights are dropped by the original, and so is a block set replaced before it is notified.
- PaddedTransport.Transport.Write: the wait until sending is possible, and the sleeping between polls.
- TxReader.Deserializer.ReadTx: the cursor after a failed read is not specified; hash functions are parameters.
- The prefetcher, raw block files, wall time, logging, cache size estimates, retries and the fee histogram.
- The Decred and name-index block processors, coin tables and the other deserializers, database upgrades.
- Sessions, peers, the daemon connection and all other network code.
