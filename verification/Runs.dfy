/**
  The indexer as a state machine (permanode/src/indexer.rs): every committed transaction
  is one step on the tables, whatever the node answered, and runs interleave the poll
  loop, gap recovery, the header backfill, pruning and everything that leaves blocks alone.
 */
module Runs {
  import opened Wrappers
  import opened Tables
  import opened StatusLog

  /** What the node offered for a height: a header, with or without a usable body. */
  datatype Offer = Offer(header: Header, body: Option<Body>, source: string)

  datatype Step =
    | Ingest(offer: Offer, now: nat)
    | Recheck(height: nat, seen: string, replacement: Option<Offer>, orphanedAt: nat, now: nat)
    | RecoverGap(height: nat, body: Body, source: string, now: nat)
    | HeaderBatch(headers: seq<Header>, expected: string, low: nat, now: nat)
    | Prune(block: BlockKey)
    | Elsewhere(after: Tables)

  function StoreOffer(t: Tables, offer: Offer, now: nat): Tables {
    match offer.body
    case Some(body) => StoreBlock(t, offer.header, body, offer.source, now)
    case None => RecordGapBlock(t, offer.header, now)
  }

  /** `recheck_height` after its answers arrived: orphan and replacement in one transaction. */
  function RecheckTables(t: Tables, height: nat, seen: string, offer: Option<Offer>, orphanedAt: nat, now: nat): Tables {
    match CanonicalAt(t.log, height)
    case None => t
    case Some(b) =>
      if b.hash == seen || IsHeaderOnly(t, b) then t else
        var t1 := MarkOrphaned(t, b, orphanedAt);
        match offer
        case Some(o) => StoreOffer(t1, o, now)
        case None => RecordGap(t1, height, Some(seen), orphanedAt)
  }

  /** A gap's body from the node's raw block or from another permanode. */
  function RecoverGapTables(t: Tables, height: nat, body: Body, source: string, now: nat): Tables {
    match CanonicalAt(t.log, height)
    case None => t
    case Some(b) =>
      if !Uncaptured(t, b) then t
      else ResolveGap(MarkBodyRecovered(InsertTransactions(t, b, body), b, source), height, now)
  }

  // ---------------------------------------------------------------- header-only rows

  function HeaderOnlyRow(h: Header): BlockRow {
    HeaderRow(h, false, Some(HEADER_ONLY))
  }

  predicate RowAt(t: Tables, height: nat) {
    exists b | b in t.blocks :: b.height == height
  }

  /** `insert_header_only_block`: `None` if a different block is on record at that height. */
  function InsertHeaderOnly(t: Tables, h: Header, now: nat): Option<Tables> {
    var b := KeyOf(h);
    if b in t.blocks then Some(t)
    else if RowAt(t, h.height) then None
    else Some(AppendStatus(t.(blocks := t.blocks[b := HeaderOnlyRow(h)]), b, Canonical, now))
  }

  function InsertHeaders(t: Tables, headers: seq<Header>, now: nat): Option<Tables> {
    if headers == [] then Some(t) else
      match InsertHeaders(t, headers[..|headers| - 1], now)
      case None => None
      case Some(u) => InsertHeaderOnly(u, headers[|headers| - 1], now)
  }

  /** One batch with its progress entry; nothing is written when a row does not fit. */
  function HeaderBatchTables(t: Tables, headers: seq<Header>, low: nat, now: nat): Tables {
    match InsertHeaders(t, headers, now)
    case None => t
    case Some(u) => u.(progress := Some(if low == 0 then Done else Next(low - 1)))
  }

  // ---------------------------------------------------------------- pruning

  predicate Prunable(t: Tables, b: BlockKey, cutoff: int) {
    b in t.blocks && t.blocks[b].timestamp < cutoff && t.blocks[b].captured && Archived(t.blocks[b])
  }

  function RowsOutside<V>(m: map<RowKey, V>, pruned: set<BlockKey>): map<RowKey, V> {
    map r | r in m && r.tx.block !in pruned :: m[r]
  }

  function TxsOutside(m: map<TxKey, TxRow>, pruned: set<BlockKey>): map<TxKey, TxRow> {
    map k | k in m && k.block !in pruned :: m[k]
  }

  function Emptied(m: map<BlockKey, BlockRow>, pruned: set<BlockKey>): map<BlockKey, BlockRow> {
    map b | b in m :: if b in pruned then m[b].(captured := false) else m[b]
  }

  /** Deletes the transaction detail of these blocks, keeping their rows. */
  function PruneBlocks(t: Tables, pruned: set<BlockKey>): Tables {
    t.(pages := RowsOutside(t.pages, pruned), inputs := RowsOutside(t.inputs, pruned), outputs := RowsOutside(t.outputs, pruned),
       txs := TxsOutside(t.txs, pruned), blocks := Emptied(t.blocks, pruned))
  }

  // ---------------------------------------------------------------- steps and runs

  function Apply(t: Tables, step: Step): Tables {
    match step
    case Ingest(offer, now) => StoreOffer(t, offer, now).(cursor := Some(offer.header.height))
    case Recheck(height, seen, offer, orphanedAt, now) => RecheckTables(t, height, seen, offer, orphanedAt, now)
    case RecoverGap(height, body, source, now) => RecoverGapTables(t, height, body, source, now)
    case HeaderBatch(headers, expected, low, now) => HeaderBatchTables(t, headers, low, now)
    case Prune(b) => PruneBlocks(t, {b})
    case Elsewhere(after) => after
  }

  /** Nothing the block history depends on differs. */
  ghost predicate SameShape(t: Tables, u: Tables) {
    && u.log == t.log && u.cursor == t.cursor && u.progress == t.progress
    && u.gaps.Keys == t.gaps.Keys && u.blocks.Keys == t.blocks.Keys
    && forall b :: b in t.blocks ==> u.blocks[b].prevHash == t.blocks[b].prevHash && Archived(u.blocks[b]) == Archived(t.blocks[b])
  }

  /** `now` is later than every entry of any block at the height. */
  ghost predicate LaterAt(log: seq<StatusEntry>, height: nat, now: nat) {
    forall i :: 0 <= i < |log| && log[i].block.height == height ==> log[i].at < now
  }

  /** A row at the lowest recorded height whose parent the batch starts with. */
  ghost predicate LinksDown(t: Tables, b: BlockKey, height: nat, first: nat, hash: string) {
    b in t.blocks && b.height == height && t.blocks[b].prevHash == hash && (height < first ==> IsHeaderOnly(t, b))
  }

  ghost predicate ParentAt(t: Tables, height: nat, first: nat, hash: string) {
    exists a :: LinksDown(t, a, height, first, hash)
  }

  /** The headers of a batch run down from below `from` to `low`, each the parent of the one above. */
  ghost predicate ChainDown(headers: seq<Header>, expected: string, from: nat, low: nat) {
    && |headers| <= from - low
    && (|headers| == from - low || (low == 0 && |headers| == from - 1))
    && forall i :: 0 <= i < |headers| ==> headers[i].height == from - 1 - i && headers[i].hash == ExpectedAt(headers, expected, i)
  }

  ghost function ExpectedAt(headers: seq<Header>, expected: string, i: nat): string
    requires i <= |headers|
  {
    if i == 0 then expected else headers[i - 1].prevHash
  }

  /** What a step relies on: the node answers for the height asked, time moves on, batches were checked link by link. */
  ghost predicate Enabled(t: Tables, first: nat, lowest: nat, step: Step) {
    match step
    case Ingest(offer, now) =>
      && offer.header.height == (if t.cursor.Some? then t.cursor.value + 1 else offer.header.height) && offer.header.height >= 1
      && offer.source != HEADER_ONLY && LaterAt(t.log, offer.header.height, now)
    case Recheck(height, seen, offer, orphanedAt, now) =>
      && LaterAt(t.log, height, orphanedAt) && orphanedAt < now
      && (offer.Some? ==> offer.value.header.height == height && offer.value.source != HEADER_ONLY)
    case RecoverGap(height, body, source, now) => source != HEADER_ONLY
    case HeaderBatch(headers, expected, low, now) =>
      && t.cursor.Some? && t.progress != Some(Done) && low < lowest
      && ChainDown(headers, expected, lowest, low)
      && ParentAt(t, lowest, first, expected)
    case Prune(b) => b in t.blocks && Archived(t.blocks[b])
    case Elsewhere(after) => SameShape(t, after)
  }

  /** The archive's first height is fixed by the first ingest. */
  function NextFirst(t: Tables, first: nat, step: Step): nat {
    if step.Ingest? && t.cursor.None? then step.offer.header.height else first
  }

  /** The lowest recorded height, after a batch of headers below it. */
  function NextLowest(t: Tables, lowest: nat, step: Step): nat {
    if step.Ingest? && t.cursor.None? then step.offer.header.height
    else if step.HeaderBatch? && InsertHeaders(t, step.headers, step.now).Some? && |step.headers| <= lowest then lowest - |step.headers|
    else lowest
  }

  ghost predicate ValidRun(t: Tables, first: nat, lowest: nat, run: seq<Step>)
    decreases |run|
  {
    run == [] ||
    (Enabled(t, first, lowest, run[0])
     && ValidRun(Apply(t, run[0]), NextFirst(t, first, run[0]), NextLowest(t, lowest, run[0]), run[1..]))
  }

  ghost function After(t: Tables, run: seq<Step>): Tables
    decreases |run|
  {
    if run == [] then t else After(Apply(t, run[0]), run[1..])
  }

  ghost function FirstAfter(t: Tables, first: nat, run: seq<Step>): nat
    decreases |run|
  {
    if run == [] then first else FirstAfter(Apply(t, run[0]), NextFirst(t, first, run[0]), run[1..])
  }

  ghost function LowestAfter(t: Tables, lowest: nat, run: seq<Step>): nat
    decreases |run|
  {
    if run == [] then lowest else LowestAfter(Apply(t, run[0]), NextLowest(t, lowest, run[0]), run[1..])
  }

  // ---------------------------------------------------------------- the invariant

  /** Times rise, one version per height, and every entry has its row. */
  ghost predicate HistoryOk(t: Tables) {
    && ClockRises(t.log) && OneVersion(t.log)
    && forall i :: 0 <= i < |t.log| ==> t.log[i].block in t.blocks
  }

  ghost predicate VersionAt(log: seq<StatusEntry>, b: BlockKey, h: nat) {
    b.height == h && Canon(log, b)
  }

  ghost predicate Covered(t: Tables, h: nat) {
    h in t.gaps || exists b :: VersionAt(t.log, b, h)
  }

  ghost predicate FirstRow(t: Tables, first: nat) {
    exists b :: b in t.blocks && Archived(t.blocks[b]) && b.height == first
  }

  /** Archive rows and gaps lie between the first height and the cursor, and every height between is covered. */
  ghost predicate ArchiveOk(t: Tables, first: nat) {
    match t.cursor
    case None => t.blocks == map[] && t.gaps == map[]
    case Some(cursor) =>
      && 1 <= first <= cursor && FirstRow(t, first)
      && (forall b :: b in t.blocks && Archived(t.blocks[b]) ==> first <= b.height <= cursor)
      && (forall h :: h in t.gaps ==> first <= h <= cursor)
      && (forall h :: first <= h <= cursor ==> Covered(t, h))
  }

  /** Some row one height up names this block as its parent. */
  ghost predicate LinkedUp(t: Tables, b: BlockKey, first: nat) {
    ParentAt(t, b.height + 1, first, b.hash)
  }

  /** The header-only rows fill `lowest..first` without a hole, canonical and linked to the row above. */
  ghost predicate HeadersOk(t: Tables, first: nat, lowest: nat) {
    && lowest <= first
    && (forall b :: IsHeaderOnly(t, b) ==> lowest <= b.height < first && Canon(t.log, b) && LinkedUp(t, b, first))
    && (forall h :: lowest <= h < first ==> HeaderAt(t, h))
  }

  ghost predicate HeaderAt(t: Tables, h: nat) {
    exists b :: IsHeaderOnly(t, b) && b.height == h
  }

  /** The stored progress agrees with the lowest row; a missing genesis header still ends the backfill. */
  ghost predicate ProgressOk(t: Tables, first: nat, lowest: nat) {
    match t.progress
    case None => lowest == first
    case Some(Next(h)) => lowest >= 1 && h == lowest - 1
    case Some(Done) => lowest <= 1
  }

  ghost predicate Inv(t: Tables, first: nat, lowest: nat) {
    && HistoryOk(t) && ArchiveOk(t, first)
    && (if t.cursor.None? then t.progress == None && t.log == [] else HeadersOk(t, first, lowest) && ProgressOk(t, first, lowest))
  }
}
