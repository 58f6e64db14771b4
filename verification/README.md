# A verified model of the permanode

The permanode keeps the full history of a Parano1d chain whose nodes prune block bodies
after a few dozen blocks. This project models five parts of it and proves what each
promises:

* **The picture of the live state.** The set of recorded unspent outputs plus the slots a
  background sweep found. It has to be the node's own state, block after block, gap after
  gap, reorganisation after reorganisation.
* **The indexer.** Every committed transaction is one step on the tables. The node may
  answer anything and may reorganise between any two calls; a second thread writes headers
  below the archive.
* **The emission schedule.** Closed forms over two eras and nine tiers against a sum over
  single blocks, with the expansion heights found by binary search.
* **The receipt journal.** A framed, checksummed log that a crash may cut anywhere.
* **The body store.** Nested bodies flattened into keyed rows, rebuilt, checked and handed
  on to other permanodes.

## How the files relate

`Tables` holds the rows, keys and write statements of the database as one value; `View` the
canonical, recorded rows all figures are computed from. Objects the program changes in
place are classes (`Sweeper`, `BodyRows`, `Indexer`, `Importer`, `ExpansionCache`,
`HistoryCache`) whose methods are proved equal to functions on the tables; the lemma files
then prove what those functions achieve. `Indexer` carries a ghost history: its state is
always the result of a valid run of the step relation in `Runs`, so everything `RunLaws`
proves of runs holds of it. `SimulationRuns` sets the same steps against a node that mines
and reorganises.

| part | files |
|---|---|
| picture and sweep | View, Sweep, SweepLaws, Figures, LiveState, CountChecks |
| picture against the node | Chains, Simulation, PictureHistory, PictureRows, SimulationRuns, SweptFork, PictureExamples |
| indexer | Tables, StatusLog, Runs, RunLaws, FinalLink, StoreLaws, Indexer |
| reorganisations and balances | Balances, BalanceLaws, Reorg, ForkBelow |
| below the archive | Receipts, ReceiptLaws, ReceiptOutcomes |
| bodies | Bodies, BodyCheckLaws, BodyLaws, BodyStore |
| journal | Journal, JournalLaws, JournalBytes |
| emission, fees, history | Emission, EmissionLaws, Expansions, Fees, History |
| shared | Wrappers, Arith, Sums, ExampleBlocks |

## Conventions

* A row is named by its table's unique key: a block by height and hash, a transaction by
  block and position, a row by transaction and index. A log id is a position in the log.
* The node is a function of the moment it is asked, so it may answer differently every
  time. The other threads are an oracle (`Others`) that may commit any steps of the run
  relation between two calls of the header backfill. Where a result needs an honest node,
  the hypothesis is a predicate with a name: `NodeOk`, `ReadsNode`, `AnswersFrom`,
  `ChainOk`, `Growing`, `Answers`.
* 64-bit values are stored as SQLite's signed integers (`AsI64`, `AsU64`); sums over
  amounts are unbounded where the program's totals cannot reach the limit.
* Times strictly increase between two entries of one height (`LaterAt`, `ClockRises`).
  Without it the lookup and the filter part exactly where a block was orphaned in the
  instant it became canonical (`StatusLog.DisagreeExactlyWhenTied`).

## Where the code does less than it might seem to promise

Each of these is a proved fact about the code as it is.

* `sent_from_unrecorded` looks for the coin among all output rows, those of orphaned blocks
  included (core/src/queries.rs:881-893). Where every branch the archive saw continues the
  chain from below its first height this makes no difference: all figures are those of the
  final branch alone (`Reorg.ReorgTransparency`). It does where a reorganisation forks below
  that height: `ForkBelow.OrphanedRowHidesASpend` is such a run over two valid chains of
  checked bodies, and `Reorg.BalanceTransparentWhen` and `Balances.BalanceConservedWhen` say
  exactly when.
* A reorganisation does not undo a sweep. After a segment was swept and blocks were left, its
  picture at the fork is the node's exactly when every coin that comes back has an unflagged
  output and its spend on record, and every coin that is no more has an output on record
  (`SweptFork.SweptAtForkWhen`; for a segment exact for whatever reason,
  `PictureHistory.UnwoundExactWhen`). Otherwise it lacks coins or shows coins that never were,
  until it is swept again. `PictureExamples.ReorgLosesACoin` is a run that loses a coin from
  before the archive, `PictureExamples.ReorgKeepsACoin` one that keeps a coin of a left block
  whose body was missing.
* A body recorded late does not undo a sweep either: a live output of it whose segment was
  swept before is shown twice, by its row and by the sweep's slot, until the next sweep. The
  segment stays exact exactly when all its outputs there are spent on record
  (`PictureHistory.RecoveryExactWhen`, a run in `PictureExamples.LateBodyShowsTwice`).
* Pruning a block takes its rows from the picture as well. A segment stays exact exactly when
  none of the block's outputs there is live and no coin held by another row there was spent by
  it (`PictureHistory.PrunedExactWhen`, a run in `PictureExamples.PruningLosesACoin`).
* Stopping between the block commit and the cursor write leaves two canonical versions of
  a height exactly when the node serves another block on restart
  (`RunLaws.StoppingBeforeTheCursor`). The step relation makes the two one step.
* A segment whose count equals the node's is not read. After a missed block it is
  overlooked exactly when as many coins came into it as went
  (`CountChecks.MissedBlockOverlookedWhen`, `CountChecks.OverlookedBlock`).
* If the expansion heights cannot be found, the reported supply uses an empty list. It is
  right exactly when no legacy block had a grown state (`Expansions.EmptyListIsExactWhen`).
* The occupancy is cast to 64 bits. The multiplier is the published one exactly when the
  basis points fit or still read as the highest band (`Fees.MultiplierChangesAtThresholds`).
  Only states of fewer than 2^14 slots filled past their capacity can miss that, which no
  state of this chain is (`Fees.NothingWraps`, `Fees.WrappedOccupancyReadsEmpty`).

## Model

| member | source | states |
|---|---|---|
| Emission.EmittedSplitUpTo | core/src/emission.rs:256-264 | at every height and for every ascending expansion list the closed form is the pair of sums of each block's miner subsidy and development payout, across the fork, all tiers, the end of the allocation and the unbounded tail |
| Emission.EmittedLegacyUpTo | core/src/emission.rs:266-285 | the loop over expansion bounds sums the legacy blocks, each at the state size of its own height |
| Emission.EmittedV2Between | core/src/emission.rs:302-332 | the loop over the nine tiers sums the blocks after the fork from any start |
| Emission.LegacyRangeIsSum | core/src/emission.rs:287-300 | one range of constant state size is its block-by-block sum |
| Emission.TierRangeIsSum | core/src/emission.rs:302-332 | one tier's range, with regular payouts and the final partial one, is its block-by-block sum |
| Emission.FilteredIsPrefix | core/src/emission.rs:266-272 | of an ascending list, the expansions at or below a height are a prefix |
| Emission.CountIsBoundary | core/src/emission.rs:266-285 | the number of expansions at or below a height is the state's level at it |
| Emission.ExpansionsOnlyMatterBeforeTheFork | core/src/emission.rs:107-113 | after the fork what a block mints does not depend on the state size |
| EmissionLaws.ConstantsFollowTheSchedule | core/src/emission.rs:31-59 | the written constants are the ones the schedule's rules give, and every reward splits into twentieths without a rest |
| EmissionLaws.TotalIsReward | core/src/emission.rs:140-184 | the miner's subsidy and both funds' shares of a block are together its block reward |
| EmissionLaws.LegacyBlockMints | core/src/emission.rs:88-92 | before the fork a block mints 50 NOID in all up to the genesis size and, from there on, at each size half of what it mints at the one before, but never less than 1 NOID |
| EmissionLaws.V2BlockMints | core/src/emission.rs:42-49 | from the fork on it mints the tier's reward of its year of 365 days of 2880 blocks, whatever the state's size |
| EmissionLaws.RewardHalvesEveryTwoYears | core/src/emission.rs:42-49 | two tiers on the reward is half, and the step in between lies within a percent of the even one |
| EmissionLaws.SharesOfATwentieth | core/src/emission.rs:140-184 | each fund accrues a twentieth of a block's reward while the allocation lasts, nothing at genesis or after |
| EmissionLaws.PublishedFigures | core/src/emission.rs:140-184 | the payouts, the partial last one and the sum of the falling years are the published amounts |
| EmissionLaws.TargetSecondsAddUp | core/src/emission.rs:77-85 | the target time between two heights is the sum of the target times of the blocks between them |
| EmissionLaws.AllocationEndsAfterThreeYears | core/src/emission.rs:51-59 | a height lies at or below the allocation's end exactly when its target time from genesis fits in three years |
| EmissionLaws.PayoutDueWhere | core/src/emission.rs:140-184 | a payout is due exactly on the day boundaries of each era and at the end height |
| EmissionLaws.PayoutBlocksAreCounted | core/src/emission.rs:215-236 | the closed count of payout blocks up to a height is their number counted one by one |
| EmissionLaws.NextPayoutIsTheLeast | core/src/emission.rs:336-353 | the next payout height is the least one above, and none is returned exactly when there is none |
| EmissionLaws.ShareConstantWithinADay | core/src/emission.rs:140-184 | all blocks a payout covers accrue the same share |
| EmissionLaws.AccruedIsPaidOrOwed | core/src/emission.rs:140-184 | at every height after the fork, what a fund accrued is what it was paid plus what the running interval owes it |
| EmissionLaws.SettledExactlyAtPayouts | core/src/emission.rs:140-184 | a fund's account is settled exactly at payout heights and after the end, the last partial payout included |
| EmissionLaws.IssuanceIsGrossReward | core/src/emission.rs:302-332 | since activation, miners' and funds' issuance plus what is still owed is the sum of gross rewards |
| Expansions.ExpansionCache.ExpansionHeights | permanode/src/serve.rs:617-642 | one binary search per level finds the first height of every level, jumps of several levels at once included; the cache only ever holds such a list |
| Expansions.FirstHeightsAscend | permanode/src/serve.rs:617-642 | the list found is what the emission sum requires: ascending and from height 1 |
| Expansions.FirstHeightsGiveLevels | permanode/src/serve.rs:617-642 | the list gives back every block's own state size |
| Expansions.ListedSumIsChainSum | permanode/src/serve.rs:617-642 | summing with the list is summing each block at its own state size |
| Expansions.IssuedUpTo | permanode/src/serve.rs:1493-1494 | end to end: the reported issuance is the sum over the chain's own headers whenever the lookups succeed; with a failed lookup exactly when no legacy block had a grown state |
| Expansions.FallbackGap | permanode/src/serve.rs:1493-1494 | without the list the report never falls short, and is too high exactly when a legacy block had a grown state |
| Expansions.EmptyListIsExactWhen | permanode/src/serve.rs:1493-1494 | the exact condition for the fallback |
| Fees.MultiplierChangesAtThresholds | permanode/src/serve.rs:1316-1326 | for every state size and 64-bit count, the pressure multiplier computed in basis points is the one of the published slot counts exactly when the basis points fit 64 bits or wrap to within the highest band |
| Fees.NothingWraps | core/src/fees.rs:28-42 | they fit for every count up to the capacity, and for every 64-bit count from 2^14 slots on |
| Fees.ThresholdsPublished | permanode/src/serve.rs:1316-1326 | the published counts are the least that reach half, three quarters and nine tenths of the capacity |
| Fees.FeeByOccupancy | core/src/fees.rs:28-42 | a new slot costs 2500, and twice, four or eight times that from those occupancies on |
| Fees.WrappedOccupancyReadsEmpty | core/src/fees.rs:28-42 | a count in a state of four slots whose occupancy wraps to zero, so the lowest multiplier applies |
| Fees.ConstantFeeBand | permanode/src/serve.rs:1392-1412 | a stretch of constant fee adds its length times the fee to the slot-by-slot sum |
| Fees.BandFee | permanode/src/serve.rs:1392-1412 | below the expansion threshold every slot of a band costs what its lower edge costs |
| Fees.MinBurnBands | permanode/src/serve.rs:1392-1412 | the bands' burns add up to the slot-by-slot sum from the current occupancy to the expansion threshold, their slots to its distance, and their edges run from empty to three quarters without a hole |
| History.HistoryCache.SampledStateHistory | permanode/src/serve.rs:1272-1298 | after any calls, with tips that rise or fall, the cache is a fresh walk at 0, step, 2 step with the least step for the highest tip so far; it reaches the tip if the node has every header, a lower tip drops nothing, and there are at most 2401 points |
| History.HistoryCache.ThinOut | permanode/src/serve.rs:1274-1282 | doubling the step keeps exactly the samples that fall on it |
| History.HistoryCache.Extend | permanode/src/serve.rs:1282-1297 | the missing samples are appended, all of them if the node has every header |
| History.LeastStepIsLeast | permanode/src/serve.rs:1274-1282 | the step chosen is the smallest doubling of the base step that keeps the number of points in bounds |
| History.ThinnedWalk | permanode/src/serve.rs:1277-1281 | every second sample of a walk is the walk at twice the step |
| Journal.ParseJournal | permanode/src/receipts.rs:107-173 | the frame loop returns what the recursive definition of the format returns, errors and their positions included |
| Journal.LeRoundTrip | permanode/src/receipts.rs:115-120 | a length written as little-endian bytes reads back as itself |
| Journal.LeRoundTripBack | permanode/src/receipts.rs:115-120 | bytes read as a length write back as themselves |
| JournalBytes.FromConcat | permanode/src/receipts.rs:115-120 | in a length, later bytes weigh 256 times as much for each byte before them |
| JournalBytes.LowestFirst | permanode/src/receipts.rs:115-120 | eight bytes read as the number they stand for lowest first, each weighed by its own power of 256 |
| JournalBytes.ComplementBytes | permanode/src/receipts.rs:118-120 | a length and its complement add up to all ones exactly when every byte of one is the other's turned |
| JournalBytes.FrameByBytes | permanode/src/receipts.rs:114-136 | what reading one frame gives, told in bytes: incomplete, a length that is not sound, a digest that is not the content's, or the payload and the rest |
| JournalBytes.FrameBytes | permanode/src/receipts.rs:114-136 | a written frame, byte by byte: length, its complement, payload, digest |
| JournalBytes.HexIsTxid | permanode/src/receipts.rs:144-150 | the hex text of any 32 bytes, in either case, is a txid, and its folded form is the bytes' lower-case text |
| JournalBytes.TxidIsHex | permanode/src/receipts.rs:144-150 | and every txid is the hex text of some 32 bytes |
| JournalBytes.OnlyLowerMatters | permanode/src/receipts.rs:144-162 | a frame with its keys in any case does what it does with them in lower case |
| JournalBytes.RefusedForFirstBad | permanode/src/receipts.rs:144-162 | a frame is refused exactly for its first change that is not accepted, and with that change's error |
| JournalBytes.AppliesWhen | permanode/src/receipts.rs:137-162 | a delta is applied exactly when it names txids, none twice in whatever case, and deletes nothing from a snapshot; then it leaves what its lower-case form says |
| JournalBytes.FoldMeans | permanode/src/receipts.rs:107-173 | a list of payloads is accepted exactly when the first is a snapshot and all decode to acceptable deltas, and then leaves what they say in order |
| JournalBytes.ReadExactlyWhen | permanode/src/receipts.rs:107-173 | a journal is read with a result exactly when it is the magic, frames of such payloads that leave that result, and an incomplete tail |
| JournalBytes.TailByBytes | permanode/src/receipts.rs:114-126 | a tail is incomplete exactly when it holds no whole header, or a sound length that announces more than there is |
| JournalLaws.WrittenFrameReads | permanode/src/receipts.rs:114-136 | a frame as the wallet writes it is read whole, whatever follows it |
| JournalLaws.ReadFrameIsWritten | permanode/src/receipts.rs:114-136 | a frame the reader takes is, byte for byte, one the wallet would write |
| JournalLaws.StopsAtIncompleteTail | permanode/src/receipts.rs:114-126 | reading stops exactly at an incomplete tail |
| JournalLaws.AcceptsExactlySplits | permanode/src/receipts.rs:107-173 | an input is accepted with a result exactly when it is the magic, valid frames and an incomplete tail whose fold is that result |
| JournalLaws.SplitIsUnique | permanode/src/receipts.rs:107-173 | an input splits into frames and tail in one way only |
| JournalLaws.ChangesMean | permanode/src/receipts.rs:144-162 | applying a frame's changes one by one deletes and adds what the frame says |
| JournalLaws.DeltaMeans | permanode/src/receipts.rs:137-162 | a well-formed frame replaces the receipts after a reset, or updates them |
| JournalLaws.WrittenDeltasFold | permanode/src/receipts.rs:107-173 | folding a written journal gives what its deltas mean in order |
| JournalLaws.CutJournalParses | permanode/src/receipts.rs:107-173 | a journal cut after its k-th frame and before its next parses to the meaning of the first k |
| JournalLaws.EveryCutDecides | permanode/src/receipts.rs:107-173 | crash tolerance at every cut: no journal inside the magic, no frame inside the first, and from there exactly what the frames whole before the cut mean |
| Tables.DecimalParses | permanode/src/import.rs:506-611 | a creation id stored as decimal text parses back to itself |
| Tables.DecimalInjective | permanode/src/indexer.rs:736-749 | different creation ids have different texts |
| StatusLog.LookupAgreesWithFilter | core/src/db.rs:540-560 | with a rising clock the lookup by observation time returns a block the last-entry filter accepts, and none exactly when there is none |
| StatusLog.LookupIsTheVersion | core/src/db.rs:540-560 | with one version per height, lookup and filter select the same block |
| StatusLog.EqualTimesDisagree | core/src/db.rs:540-560 | with two entries of one instant they disagree |
| StatusLog.DisagreeExactlyWhenTied | core/src/db.rs:540-560 | with times that stand still but never go back, lookup and filter disagree about a block exactly when its last entry orphans it in the instant of an entry that made it canonical |
| StatusLog.LookupIsAccepted | core/src/db.rs:540-560 | the lookup of a height returns a block the filter accepts or such a tied one, and none exactly when there is neither |
| StatusLog.OrphaningKeepsOneVersion | core/src/db.rs:799-805 | an orphan entry removes exactly its block from the canonical ones |
| StatusLog.AdoptingKeepsOneVersion | permanode/src/indexer.rs:679-682 | a canonical entry adds exactly its block, and keeps one version per height where the height had no other |
| RunLaws.StoreOfferAdopts | permanode/src/indexer.rs:597-683 | storing a block that is not the canonical one writes a row, a canonical entry and, without a body, a gap, and nothing else of the history |
| StoreLaws.OfferRecorded | permanode/src/indexer.rs:597-683 | a block that is new is recorded with the body offered - its header, totals, source and exactly its rows, every other block's rows kept - or as a block without a body and a gap |
| StoreLaws.OfferReturned | permanode/src/indexer.rs:617-683 | a block known before counts again and keeps its rows; where it had none the offered body's stand now |
| StoreLaws.RecheckReplaces | permanode/src/indexer.rs:441-513 | a recheck that meets another hash takes exactly the old version out and puts the replacement in, recorded or returned, or a gap; else nothing changes |
| StoreLaws.RecoversBody | permanode/src/indexer.rs:519-547 | a gap's body comes to the canonical archive block without one: captured, its totals and source set, its rows added, its gap closed, all else as it was |
| StoreLaws.RowsAreTheirColumns | permanode/src/indexer.rs:703-749 | each row holds its transaction's, input's or output's own fields, amounts as signed 64-bit numbers and creation ids as text |
| StoreLaws.UnavailableMeans | permanode/src/indexer.rs:689-692 | a proof class counts as missing exactly when the word stands in it, in letters of either case |
| StoreLaws.GapsClosedWhen | core/src/db.rs:1228-1242 | exactly the open gaps whose canonical archive block has a body are closed, at that time, and nothing else is written |
| StoreLaws.PruneMeans | core/src/db.rs:969-1000 | the blocks pruned are those of the archive with a body and a time before the cutoff, and pruning takes their rows and nothing else |
| StoreLaws.HeadersAreWritten | core/src/db.rs:613-660 | a batch of headers is written as served: one row each, without a body and marked as a header, and no other row |
| RunLaws.SameVersionKeepsLog | permanode/src/indexer.rs:617-636 | offering the canonical block again adds no entry |
| RunLaws.StepKeepsInv | permanode/src/indexer.rs:212-268 | every committed transaction keeps the whole invariant |
| RunLaws.RunKeepsInv | permanode/src/indexer.rs:212-268 | so does every run |
| RunLaws.OneCanonicalVersion | core/src/queries.rs:22-31 | in every run from an empty database each height has at most one canonical version, and the lookup returns exactly it, however often the node goes back and forth |
| RunLaws.EveryHeightCovered | permanode/src/indexer.rs:212-268 | in every run each height from the first to the cursor has a canonical version or a gap entry |
| RunLaws.HeaderRowsAreComplete | core/src/queries.rs:33-41 | in every run the header-only rows run without a hole from the lowest row to the archive, each the parent of a row above, all canonical, so the cheap filter selects the canonical rows, and the progress entry agrees |
| RunLaws.OthersKeepLink | permanode/src/indexer.rs:1112-1208 | whatever the other threads commit while a batch is fetched - polls, replacements, recovered gaps, pruning - the link below the lowest row, the lowest row and the progress entry stay |
| RunLaws.CheckedBatchStaysEnabled | permanode/src/indexer.rs:1159-1191 | so a batch checked link by link against one state may be committed after any run of such steps |
| RunLaws.TopLinkIsCanonical | permanode/src/indexer.rs:1112-1208 | where the archive's first height had one version, the topmost header is its parent |
| FinalLink.TopLinkIsFinal | permanode/src/indexer.rs:1112-1208 | in any run from the moment the link was read, with the archive's first block not replaced, that block stays canonical and the topmost header is its parent, however many batches, polls and other commits lie between |
| Indexer.BeyondTheHorizon | permanode/src/indexer.rs:1146-1158 | beyond the horizon the backfill waits for, a later poll's window lies above the archive's first height, and includes it only where the tip has not moved and the window is at least as deep as the protocol's limit |
| RunLaws.StoppingBeforeTheCursor | permanode/src/indexer.rs:423-430 | after a stop between commit and cursor write, the height keeps one version exactly when the node serves the same block again |
| RunLaws.StepExtends | core/src/db.rs:969-1000 | no step, pruning included, removes a block row, a status entry or a gap entry or moves the cursor back |
| RunLaws.RunExtends | core/src/db.rs:969-1000 | nor does any run |
| Indexer.Indexer.constructor | permanode/src/indexer.rs:24-30 | a new indexer starts from the empty database and the empty run |
| Indexer.Indexer.Commit | core/src/db.rs:104-110 | a committed transaction extends the run by its step |
| Indexer.Indexer.IngestHeight | permanode/src/indexer.rs:382-439 | a height without a row is stored as the node serves it: with the body of its details or, where raw blocks are asked for and this one decodes, with that body - header, totals, exactly its rows, no gap - and otherwise as a block without a body and a gap; the cursor moves there, or nothing changes and the outcome says why |
| Indexer.Indexer.RecheckHeight | permanode/src/indexer.rs:441-513 | a differing hash orphans the old version and puts in its place what the node serves there, in its details or raw, or a gap, in one transaction, whatever the node answers in between; the same hash, a header of the backfill or a failed fetch changes nothing |
| Indexer.Indexer.CommitRecheck | permanode/src/indexer.rs:483-510 | the orphan entry and the replacement, or the gap, are one transaction |
| Indexer.Indexer.BackfillGap | permanode/src/indexer.rs:519-547 | the canonical block at the height gets exactly the body the raw block decodes to, if it lacks one, and its gap is closed; otherwise nothing changes |
| Indexer.Indexer.FirstStartHeight | permanode/src/indexer.rs:360-374 | a fresh database starts at the oldest height of the serving window down to which the node served every body when asked |
| Indexer.Indexer.NextHeight | permanode/src/indexer.rs:214-222 | a cycle begins above the cursor, or on a fresh database at the oldest height served of the last 43, but not below 1 |
| Indexer.Indexer.PollOnce | permanode/src/indexer.rs:212-268 | a complete cycle ingests from above the cursor - for a fresh database from where the serving window says, never genesis - to the tip or the first height without a header, rechecks every height of the trailing window, and retries exactly the gaps then open in the serving window, in that order; the cursor moves by the heights ingested, and the cycle is a run of the state machine |
| Indexer.Indexer.IngestNew | permanode/src/indexer.rs:227-232 | the heights are ingested one after the other, and one without a header ends the loop without being stepped over |
| Indexer.Indexer.RecheckWindow | permanode/src/indexer.rs:236-239 | every height of the window is rechecked once, and the cursor stays |
| Indexer.Indexer.RetryGaps | permanode/src/indexer.rs:245-250 | exactly the gaps open at or above the height are retried, and no gap is opened by it |
| Indexer.Indexer.BackfillHeaders | permanode/src/indexer.rs:1112-1208 | with the other threads committing any steps between any two calls, the batch loop terminates, is a run of the state machine and never removes a row; every header it adds lies where the node gave a tip that makes it final; if the node serves the chain below the archive and every tip is far enough ahead, it completes; it reports completion exactly when the progress entry says so, with the rows at genesis or the block above it; unless a recheck replaces the archive's first canonical block meanwhile, that block stays canonical and the topmost header is its parent |
| Indexer.Indexer.BackfillFrom | permanode/src/indexer.rs:1146-1208 | the loop from a height and its link on: what it copies is final under a tip the node gave, an honest node's headers are copied to the end, and a link that fitted fits after any commits of the others |
| Indexer.Indexer.CopyBatch | permanode/src/indexer.rs:1159-1208 | one batch: fetched and written down to its lowest height or not written at all, and an honest node's is written |
| Indexer.Indexer.LetOthersRun | permanode/src/indexer.rs:24-110 | the other threads' commits are a run of their own that leaves the link and the progress entry as they were |
| Indexer.Indexer.FetchBatch | permanode/src/indexer.rs:1159-1181 | a batch that is accepted is a chain of parents of the expected length, and a node that serves that chain has it accepted |
| Indexer.Indexer.CommitBatch | permanode/src/indexer.rs:1183-1191 | a fetched batch always fits below the lowest row, each header is written as served and marked as a header, with the progress entry, and the link for the next is left |
| Indexer.Indexer.PruneOlderThan | core/src/db.rs:969-1000 | block by block, exactly the archive's blocks with a body from before the cutoff lose their transactions, pages, inputs and outputs and their captured flag, every other row stays, and their number is returned |
| Indexer.Indexer.FillGap | permanode/src/import.rs:371-430 | a gap is filled with exactly the offered body when the canonical block at its height lacks one and the body passes the check against that block's own root; it is skipped, missing or rejected otherwise, and nothing is written |
| Indexer.Indexer.OfferGaps | permanode/src/import.rs:371-430 | the tables and the report after offering a list of gaps in turn |
| Bodies.SortedAscends | core/src/db.rs:831-842 | ordered heights, positions and row numbers ascend, so the lowest gaps are offered first |
| Indexer.Indexer.FillGaps | permanode/src/import.rs:371-441 | all open gaps are offered in order up to the limit, the report counts what became of each and the flags cleared, and afterwards no gap is open whose canonical block has a body |
| Bodies.CheckTx | permanode/src/import.rs:458-481 | the checks of one transaction, early exits included, decide whether it fits its place and adds up; a user's transaction that passes spends what it creates and its fee, unless a side exceeds 64 bits |
| Bodies.CheckBody | permanode/src/import.rs:446-502 | the loop accepts exactly the complete, ordered bodies under the header's root whose sums add up |
| BodyCheckLaws.TxidIs | permanode/src/import.rs:458-481 | a txid is 64 hex digits of either case and stands for the 32 bytes they spell |
| BodyCheckLaws.TxChecksMeans | permanode/src/import.rs:458-481 | a transaction is accepted in a place exactly when it names that place, a txid and its own counts, its sums are those of its inputs and outputs, and a user's balances with its fee |
| BodyCheckLaws.AcceptedExactlyWhen | permanode/src/import.rs:446-502 | a body passes exactly when it lists 1 to 256 such transactions in order, the first a coinbase, under the header's root, with the fees, reward, pages, inputs and outputs these transactions have |
| BodyCheckLaws.FeesAreWhatUsersPay | permanode/src/import.rs:482-502 | where the sums fit 64 bits, an accepted body's fee total is the text of what its users spend less what they create plus the fees development payouts carry, and its reward what its first transaction's outputs add up to |
| Bodies.AcceptedBodiesAgree | permanode/src/import.rs:446-502 | under an injective root, two bodies accepted for one header list the same transactions |
| Bodies.AcceptedBodyBalances | permanode/src/import.rs:446-502 | in an accepted body the users' transactions together spend what they create and pay: up to a multiple of 2^64 always, and outright where each side fits 64 bits |
| BodyStore.BodyRows.InsertTransactions | permanode/src/indexer.rs:687-753 | the nested inserts write exactly the body's rows under its block, and rows already there stay |
| BodyStore.BodyRows.BodyFromDb | permanode/src/import.rs:506-611 | the body read back is the one the rows define, or the reason there is none |
| BodyLaws.TxRowsOfBody | permanode/src/indexer.rs:703-728 | which transaction rows a body has, and what they hold |
| BodyLaws.PageRowsOfBody | permanode/src/indexer.rs:730-735 | which page rows a body has, and what they hold |
| BodyLaws.InputRowsOfBody | permanode/src/indexer.rs:736-742 | which input rows a body has, and what they hold |
| BodyLaws.OutputRowsOfBody | permanode/src/indexer.rs:743-749 | which output rows a body has, and what they hold |
| BodyLaws.StoredBodyReloads | permanode/src/import.rs:506-611 | a checked body stored in an empty row and marked recovered is handed on unchanged but for its size and a better proof class already known, and passes the check again |
| BodyLaws.RelayIsLossless | permanode/src/import.rs:506-611 | handing a body through any number of permanodes loses nothing but its size |
| BodyLaws.HandedOnWhen | permanode/src/import.rs:506-611 | a block is not handed on exactly when it has no body on record, and cannot be read exactly when a total is missing or a creation id of its rows does not read back |
| Sweep.ForeignReads | permanode/src/indexer.rs:833-835 | the foreign reads are those whose id no recorded output of the range has |
| Sweep.SweepEffect | permanode/src/indexer.rs:833-846 | what a segment's transaction leaves: the foreign slots of that segment and, on each recorded output, the flag the read calls for |
| Sweep.FlagsAndTimes | core/src/db.rs:1247-1270 | row by row: a flag set by a segment's transaction bears its time, one taken back bears none, every other keeps its own; a flag is set exactly where an unspent recorded output was not found, taken back exactly where a block's output was found live |
| Sweep.OwnSlotsAre | core/src/db.rs:1146-1157 | the slots filed under the segment afterwards are the reads without a recorded output, with owner, amount and height; the other segments' are as they were |
| SweepLaws.SegmentIsRange | core/src/db.rs:1091-1120 | a slot is counted in a segment exactly when it lies in the segment's range |
| SweepLaws.SweepMakesExact | permanode/src/indexer.rs:826-846 | after a segment's commit its picture is the node's: slot, id, owner and amount of every live coin, each once, and nothing else |
| SweepLaws.SweepLeavesOthersAlone | permanode/src/indexer.rs:826-846 | no other segment's picture changes at any height |
| SweepLaws.SweepKeepsSegments | core/src/db.rs:1146-1157 | every slot stays filed under the segment its index lies in |
| Figures.ExactSegmentCounts | core/src/db.rs:1091-1120 | an exact segment has the node's count |
| Figures.ExactPictureBalances | core/src/db.rs:1161-1183 | with every segment exact, each owner's total and number of coins are the node's |
| Figures.PictureSettled | core/src/db.rs:1161-1183 | above everything recorded the picture no longer depends on the height |
| Figures.ClearingKeepsThePicture | core/src/db.rs:1206-1223 | clearing a flag whose spend is on record never brings a coin back |
| Figures.FlagsClearedWhen | core/src/db.rs:1206-1223 | a flag is cleared, with its time, exactly where an input of a canonical recorded block spends the coin, and nothing else is written |
| LiveState.ReadSegment | permanode/src/indexer.rs:984-1012 | a completed read holds exactly the node's coins of the range; a slot that keeps failing ends it |
| LiveState.DifferingSegments | permanode/src/indexer.rs:947-957 | exactly the segments whose counts differ are listed, on either side's range |
| LiveState.Sweeper.LiveCountPerSegment | core/src/db.rs:1091-1120 | the map holds the number of the picture's rows per segment and no empty entry |
| LiveState.Sweeper.LiveBalances | core/src/db.rs:1161-1183 | the map holds each owner's total and count over the picture, and only owners with coins |
| LiveState.Sweeper.ReplaceStateSlots | core/src/db.rs:1146-1157 | the segment's slots are replaced by the read, later reads of a slot winning |
| LiveState.Sweeper.UnmarkLiveOutputs | core/src/db.rs:1247-1262 | exactly the flagged recorded outputs of the range found live lose their flag, and are counted |
| LiveState.Sweeper.MarkSpentInGap | core/src/db.rs:1264-1270 | exactly the given outputs are flagged at that time |
| LiveState.Sweeper.CommitSegment | permanode/src/indexer.rs:833-846 | partition, replace, take back and mark, in the program's order |
| LiveState.Sweeper.ScanLiveState | permanode/src/indexer.rs:813-897 | a run against an unchanging node that had no overlooked segment makes every segment exact, returns the node's own balances, passes the closing comparison and leaves exactly them in the balance cache; it ends early only at a slot that keeps failing, the cache untouched |
| LiveState.Sweeper.SweepSegments | permanode/src/indexer.rs:826-846 | reading and committing the differing segments one by one makes all segments exact |
| LiveState.Sweeper.TakeBalances | permanode/src/indexer.rs:859-868 | after clearing flags, the balances of an exact picture are every owner's total and count at the node, and nobody else's |
| LiveState.Sweeper.SettleCache | permanode/src/indexer.rs:865-897 | the balances go into the cache, and the other addresses are emptied exactly when every segment's count is the node's at the closing height |
| CountChecks.EqualCountIsExactWhen | permanode/src/indexer.rs:947-957 | a segment with the node's count is exact exactly when it shows nothing but live coins |
| CountChecks.MissedBlockOverlookedWhen | permanode/src/indexer.rs:947-957 | after a missed block an exact segment keeps the node's count exactly when as many coins came as went, and stays exact exactly when none did |
| CountChecks.OverlookedBlock | permanode/src/indexer.rs:947-957 | a missed block after which the counts agree and the picture is wrong |
| CountChecks.OverlookedBodyChecks | permanode/src/import.rs:446-502 | that block's body is one the check accepts |
| Chains.IdsGivenOnce | core/src/db.rs:374-386 | over a whole chain a creation id names one output |
| Chains.LiveIsTheOutput | core/src/db.rs:1124-1138 | a live coin with a recorded output's id is that output's coin |
| Chains.LiveIsUnspent | core/src/db.rs:1050-1060 | no input of the chain spends a coin that is live at its end |
| Chains.EverOnce | core/src/db.rs:374-386 | of all coins there ever were on a chain, one id names one coin |
| Chains.SpentOnce | core/src/db.rs:1050-1060 | no two blocks of a chain spend the same coin |
| Chains.GoneWasSpent | core/src/db.rs:1050-1060 | a coin the chain once had and no longer has was spent by one of its blocks |
| Chains.SpendingTouches | core/src/db.rs:1050-1060 | a block touches the segment of every coin it spends |
| Simulation.FaithfulFits | core/src/db.rs:1050-1138 | what the sweep relies on holds of every record that is part of the chain, complete or not |
| Simulation.EarlierPicturesStay | core/src/db.rs:1050-1090 | recording a block changes no picture below its height |
| Simulation.RecordingKeepsExact | core/src/db.rs:1050-1119 | recording a block takes an exact segment at one height to an exact one at the next, wherever the coins it spends were kept |
| PictureHistory.LowerExact | core/src/db.rs:1050-1090 | whether a segment is exact at a height depends only on what is recorded at or below it |
| PictureHistory.MissingExactWhen | permanode/src/indexer.rs:597-612 | a block without a body leaves an exact segment exact exactly when none of its coins came or went |
| PictureHistory.MissingKeepsExact | permanode/src/indexer.rs:597-612 | in particular every segment it spends and creates nothing in |
| PictureHistory.RecoveryExactWhen | permanode/src/indexer.rs:519-547 | a body recorded late leaves an exact segment exact exactly when every output of it there has its spend on record |
| PictureHistory.RecordedNext | core/src/db.rs:1050-1119 | recording the next block keeps a segment exact at every height it was exact at, and makes it exact at the block's |
| PictureHistory.FlaggedExactWhen | permanode/src/indexer.rs:441-513 | a block that counts again with the flags a sweep once set carries an exact segment one height up exactly when its flagged outputs there are spent on record by then |
| PictureHistory.FlaggedNext | permanode/src/indexer.rs:441-513 | and then the segment stays exact at every height it was exact at |
| PictureHistory.RecoveredAnywhere | permanode/src/indexer.rs:519-547 | a body recorded late keeps a segment exact at every height from which its outputs there were spent, below and above the block |
| PictureHistory.ClearedExactWhen | core/src/db.rs:1206-1223 | clearing flags leaves an exact segment exact exactly when the outputs cleared there have a spend on record by the height |
| PictureHistory.PrunedExactWhen | core/src/db.rs:969-1000 | pruning a block leaves an exact segment exact exactly when none of its outputs there is live and no coin another row holds there was spent by it |
| PictureHistory.PrunedAnywhere | core/src/db.rs:969-1000 | and then at every height from which that holds |
| PictureHistory.UntouchedPrunes | core/src/db.rs:969-1000 | in particular wherever the block spent and created nothing |
| PictureHistory.UnwoundExactWhen | permanode/src/indexer.rs:441-513 | a segment exact at the tip is exact again where the node leaves its blocks exactly when the coins that come back are held by one row each and no slot of the sweep's own holds a coin the left blocks created |
| PictureHistory.UnwoundFrom | permanode/src/indexer.rs:441-513 | when the node leaves blocks, a segment exact at or below the fork stays exact there, and one exact only above it is exact at the fork under that condition |
| PictureHistory.UntouchedIsShown | permanode/src/indexer.rs:441-513 | a segment the left blocks did not touch meets the condition |
| PictureRows.IngestAbove | permanode/src/indexer.rs:597-683 | ingesting leaves rows, versions and pictures at every lower height as they were, and each block with its body's rows or none |
| PictureRows.RecheckAbove | permanode/src/indexer.rs:441-513 | so does replacing a block |
| PictureRows.HeaderBatchUndisturbed | permanode/src/indexer.rs:1183-1191 | a header batch leaves rows, versions with rows and pictures as they were at every height |
| PictureRows.RecoveredRecord | permanode/src/indexer.rs:519-547 | a recovered body adds exactly its rows to the record, or they were there already |
| PictureRows.PrunedLoses | core/src/db.rs:969-1000 | pruning takes exactly the block's rows from the record |
| PictureRows.ClearedRecord | core/src/db.rs:1206-1223 | clearing flags changes nothing else of the record |
| PictureRows.NextRecordFlagged | core/src/db.rs:1050-1090 | one height up, the record gains exactly the rows of that height's canonical block, flags and all |
| SimulationRuns.EventsKeepWorld | permanode/src/indexer.rs:212-897 | over any run - every transaction of the indexer, segments swept, flags cleared, a node that mines and reorganises, in any order - the tables stay faithful to the node's chain and each segment exact from the height it is known to be |
| SimulationRuns.PictureSimulatesNode | permanode/src/indexer.rs:212-897 | from an empty database: at every height from which a segment is known exact up to the tip it shows exactly the node's coins of that height and has the node's count, and where every segment does, each owner's total and count are the node's |
| SimulationRuns.KnownExactlyWhen | permanode/src/indexer.rs:212-897 | whatever the event - a block missed, returned, recorded late, pruned or left, flags cleared, a sweep - a segment known to be exact before is known to be exact after exactly when it is, so nothing exact is given up |
| SweptFork.SweptAtForkWhen | permanode/src/indexer.rs:826-846 | a swept segment is exact where the node left its blocks exactly when the coins that come back have an unflagged output and their spend on record and those that are no more have an output on record |
| SweptFork.SpentThenUnwound | permanode/src/indexer.rs:826-846 | so a coin from before the archive that a left block had spent is missing at the fork |
| SweptFork.FoundThenUnwound | permanode/src/indexer.rs:826-846 | and a coin of a left block without a recorded output is still shown there |
| PictureExamples.ReorgLosesACoin | permanode/src/indexer.rs:212-897 | a run from an empty database - two blocks recorded, a sweep, the second left - after which a live coin is missing |
| PictureExamples.ReorgKeepsACoin | permanode/src/indexer.rs:212-897 | a run - a block recorded without its body, a sweep, the block left - after which a coin is shown that the chain never had |
| PictureExamples.LateBodyShowsTwice | permanode/src/indexer.rs:519-547 | a run - a block recorded without its body, a sweep, the body recovered - that shows a live coin twice in a segment exact before |
| PictureExamples.PruningLosesACoin | core/src/db.rs:969-1000 | a run - a block recorded and pruned - that leaves a live coin out of a segment exact before |
| SimulationRuns.NodeCanBeFollowed | permanode/src/indexer.rs:212-232 | whichever valid block the node has next, a run ingests it, or puts it in the place of the block on record, and is level with the node one height up |
| SimulationRuns.LaterBlocksKeepEarlierPictures | core/src/db.rs:1050-1090 | no block ingested or replaced changes the picture at a height below its own, whatever the node's chain is |
| Balances.CastReadsDecimal | core/src/queries.rs:871-881 | a sum stored as decimal text is read back as itself while it fits 64 bits |
| Balances.SpendsMatch | core/src/queries.rs:848-866 | spent outputs and the recorded inputs that spend them are the same amounts |
| Balances.SentIsItsInputs | core/src/queries.rs:868-881 | what an address sent is the sum of its inputs |
| Balances.BalanceIdentity | core/src/queries.rs:829-905 | confirmed plus flagged is received less what was sent from recorded coins, up to inputs whose coin only an orphaned row carries |
| Balances.BalanceConservedWhen | core/src/queries.rs:829-905 | the balance is conserved exactly when no spent coin of the address is known from orphaned blocks alone |
| BalanceLaws.ConfirmedIsLive | core/src/queries.rs:848-866 | the confirmed coins of an address are its recorded outputs in the live picture, the flagged ones those left out for their flag alone |
| BalanceLaws.LiveBalanceIsConfirmedAndOwn | core/src/queries.rs:829-905 | what an address holds in the live picture, in amount and in coins, is its confirmed balance and the sweep's own slots of it |
| Balances.AddMoves | core/src/queries.rs:1078-1087 | one pass moves every hour's change by that hour's rows and the total by all of them |
| Balances.BalanceChangesByHour | core/src/queries.rs:1076-1114 | the result holds exactly the hours with a change and their changes, which add up to received less sent less found gone |
| BalanceLaws.HourMeans | core/src/queries.rs:1088-1112 | an instant is filed under the hour it falls into, counted toward zero |
| BalanceLaws.HourlyChangeIs | core/src/queries.rs:1088-1112 | an hour's change is what canonical blocks of that hour brought the address, less what they took from it and what a sweep of that hour found gone |
| Reorg.RunKeepsPure | permanode/src/indexer.rs:441-513 | through any run of ingests and replacements, each block on record has exactly its own body's rows, unflagged, and nothing else has any |
| Reorg.SameVersionsSameView | core/src/queries.rs:22-31 | two such databases with the same canonical versions show the same history |
| Reorg.BranchesLeaveNoTrace | permanode/src/indexer.rs:463-509 | two archives that ended on the same versions, over whatever branches, show the same history |
| Reorg.ReorgTransparency | permanode/src/indexer.rs:463-509 | where every block on record, on whatever branch, continues the chain from below the archive's first height, the archive shows the history and reports every figure of every address as one that only ever saw the final branch |
| Reorg.ReorgDifference | permanode/src/indexer.rs:463-509 | with no such assumption, only one figure of an address can differ, and by exactly the inputs whose coin only orphaned blocks carry |
| Reorg.BalanceTransparentWhen | core/src/queries.rs:880-895 | an address's figures are the branch's own exactly when no coin it spent is known from orphaned blocks alone |
| ForkBelow.OrphanedRowHidesASpend | core/src/queries.rs:880-895 | a valid run over two valid chains that part below the archive's first height, after which they differ |
| ForkBelow.BodiesCheck | permanode/src/import.rs:446-502 | the blocks of that run have bodies the check accepts |
| Receipts.Importer.InsertReceiptTransaction | core/src/db.rs:731-792 | the transaction is written with all its rows, found written before, or refused for the reason given with nothing changed |
| Receipts.OnlyImportsWrite | permanode/src/receipts.rs:361-409 | only a receipt reported imported writes, and then it was verified, on the chain and in the header-only block of its root, and one transaction is added |
| Receipts.Importer.ImportDecoded | permanode/src/receipts.rs:361-409 | one receipt's outcome and effect, in the order the checks are made |
| ReceiptOutcomes.ImportedWhen | permanode/src/receipts.rs:361-409 | a receipt is imported exactly when the node confirms it in full and the block at its height is known by its header alone, is the receipt's block and has the place free; it is found again exactly at its own place |
| ReceiptOutcomes.NotImportedWhen | permanode/src/receipts.rs:361-409 | without a block there is no header, and an archive block answers with a gap or whether it lists the txid, exactly then |
| ReceiptOutcomes.RefusedWhen | permanode/src/receipts.rs:361-409 | a receipt is refused for the first of these that holds: another key, not checked, a bad proof, not on the chain, other data, another header, a bad place, another block size, a place already held |
| ReceiptOutcomes.ImportedHolds | core/src/db.rs:731-792 | an imported receipt's rows, column by column, and every row of every other transaction as it was |
| ReceiptOutcomes.EntryOutcome | permanode/src/receipts.rs:337-359 | of a list, an entry that stood there before is a duplicate whatever came of it, and one that does not decode is refused |
| Receipts.Importer.ImportNext | permanode/src/receipts.rs:344-357 | one entry of a list: skipped if listed before, refused if it does not decode, imported otherwise |
| Receipts.Importer.ImportReceipts | permanode/src/receipts.rs:337-359 | every entry's outcome, entries listed before being skipped, and the tables after the list: as many transactions more as were reported imported, none of the old ones touched |
| ReceiptLaws.BeneathSameView | core/src/db.rs:1038-1060 | rows of header-only blocks and receipts are outside the recorded history |
| ReceiptLaws.BeneathSameAddresses | core/src/db.rs:1008-1018 | they add no known address |
| ReceiptLaws.BeneathSameBalance | core/src/queries.rs:829-905 | they change no figure of any address, the unfiltered lookup of unrecorded coins included |
| ReceiptLaws.BeneathSameCleared | core/src/db.rs:1206-1223 | clearing flags does the same to the archive with them as without |
| ReceiptLaws.BelowLeavesArchiveAlone | core/src/db.rs:613-792 | after any sequence of header-only inserts and receipt imports every archive figure is what it was |
| ReceiptLaws.ImportLeavesArchiveAlone | permanode/src/receipts.rs:337-409 | so is it after importing any list of receipts, whatever they claim to spend |
| ReceiptLaws.ImportingAgainWritesNothing | permanode/src/receipts.rs:337-409 | importing a list again with the same answers writes nothing |

## Left out

- Reading RPC answers, HTTP handlers, peers, configuration, the command line and CSV: input and output only.
- SQLite itself: a `write_tx` is one atomic step, and surrogate row ids are replaced by the unique keys. Foreign keys are the hypothesis `KeysOk`.
- `decode.rs`, `raw.rs` and the chain's own libraries: txids, Merkle proofs and page streams are not part of this model. The transaction root is a function of the txid list, and that creation ids are fresh is a hypothesis on the chain (`Chains.ValidNext`).
- BLAKE3 and JSON are uninterpreted functions; only the size of a digest is assumed, and that each payload decodes to the delta it was written for.
- Raw blocks, contract flags, tip sightings and adopted proof classes: single-row updates nothing else here depends on.
- The columns state_root, nonce_hex, difficulty_target and first_seen_at: copied and never read by the modelled code.
- The cursor write is one step with the ingest commit; what a stop between them does is stated by RunLaws.StoppingBeforeTheCursor.
- Emission.EmittedSplitUpTo: heights and amounts are unbounded, so an overflow near 2^64 in the sums, in the next payout height or in the target time is not modelled.
- LiveState.Sweeper.ScanLiveState: the node's state does not change during the run, and segments with equal counts are taken to be exact; CountChecks says when they are, and SimulationRuns sweeps segments between other events. The wait for the indexer is left out.
- SimulationRuns.PictureSimulatesNode: a segment is swept while nothing is recorded beyond the height the archive is level with, and one no longer known to be exact counts as unknown until it is swept, though a late body may have made it right.
- Reorg.ReorgTransparency: runs record every block with its body and set no flag; SimulationRuns has the others.
- Indexer.Indexer.BackfillHeaders: the wait for the archive's first block is an early return, and the wait for finality a number of polls.
- Indexer.Indexer.PollOnce: the heights of the trailing window are those up to the tip asked for at the start; raw bytes, self-checks and the mismatch counter are left out.
- Counts that SQL groups are counted row by row, and query results are sets unless the program orders them.
- Balances.CastReadsDecimal: leading blanks in a stored sum are not skipped by the model's cast.
- Receipts.Importer.ImportReceipts: decoding a receipt and asking the node are functions given to the import; the messages of refusals are reduced to their kinds.
- Fees.MinBurnBands: the thresholds and the expansion threshold are those of the state size, as its one caller passes them.
