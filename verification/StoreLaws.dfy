/**
  What recording, replacing and recovering a block leave in the tables
  (permanode/src/indexer.rs, `store_block`, `record_gap_block`, `insert_transactions`),
  column by column and row by row.
 */
module StoreLaws {
  import opened Wrappers
  import opened Tables
  import opened BodyLaws
  import opened StatusLog
  import opened Runs
  import opened RunLaws

  // ---------------------------------------------------------------- columns

  /** A 64-bit value is kept as the signed number of the same bits. */
  lemma CastIsTwosComplement(x: u64)
    ensures AsI64(x) == if x < 0x8000_0000_0000_0000 then x else x - 0x1_0000_0000_0000_0000
    ensures AsU64(AsI64(x)) == x && -0x8000_0000_0000_0000 <= AsI64(x) < 0x8000_0000_0000_0000
  {
  }

  /** The block's row holds the header, and no more is known of the block yet. */
  predicate HeaderIs(row: BlockRow, h: Header) {
    row.prevHash == h.prevHash && row.txRoot == h.txRoot && row.timestamp == AsI64(h.timestamp) && row.miner == h.miner && row.logSlots == h.logSlots
  }

  predicate TxIs(row: TxRow, tx: Tx) {
    && row.txid == tx.txid && row.pageCount == tx.pageCount && row.fee == AsI64(tx.fee) && row.coinbase == tx.coinbase
    && row.developmentPayout == tx.developmentPayout && row.epochAnchor == tx.epochAnchor && row.inputOwner == tx.inputOwner
    && row.inputSum == tx.inputSum && row.outputSum == tx.outputSum && row.source == None
  }

  predicate InputIs(row: InputRow, i: Input) {
    row.page == i.page && row.lane == i.lane && row.slot == AsI64(i.slot) && row.amount == AsI64(i.amount) && row.creationId == Decimal(i.creationId)
  }

  predicate OutputIs(row: OutputRow, o: Output) {
    && row.page == o.page && row.lane == o.lane && row.slot == AsI64(o.slot) && row.amount == AsI64(o.amount) && row.owner == o.owner
    && row.creationId == Some(Decimal(o.creationId)) && !row.spentInGap && row.spentInGapAt == None
  }

  lemma RowsAreTheirColumns(tx: Tx, i: Input, o: Output)
    ensures TxIs(TxRowOf(tx), tx) && InputIs(InputRowOf(i), i) && OutputIs(OutputRowOf(o), o)
  {
    hide Decimal, AsI64;
  }

  // ---------------------------------------------------------------- a body's rows

  /** Exactly this list of transactions stands under the block: every row of it, and no other. */
  ghost predicate Stands(u: Tables, b: BlockKey, txs: seq<Tx>) {
    && (forall k: TxKey :: k.block == b ==> (k in u.txs <==> k.position < |txs|) && (k in u.txs ==> TxIs(u.txs[k], txs[k.position])))
    && (forall r: RowKey :: r.tx.block == b ==> PageStands(u, r, txs))
    && (forall r: RowKey :: r.tx.block == b ==> InputStands(u, r, txs))
    && (forall r: RowKey :: r.tx.block == b ==> OutputStands(u, r, txs))
  }

  ghost predicate PageStands(u: Tables, r: RowKey, txs: seq<Tx>) {
    && (r in u.pages <==> r.tx.position < |txs| && r.idx < |txs[r.tx.position].pageHashes|)
    && (r in u.pages ==> u.pages[r] == txs[r.tx.position].pageHashes[r.idx])
  }

  ghost predicate InputStands(u: Tables, r: RowKey, txs: seq<Tx>) {
    && (r in u.inputs <==> r.tx.position < |txs| && r.idx < |txs[r.tx.position].inputs|)
    && (r in u.inputs ==> InputIs(u.inputs[r], txs[r.tx.position].inputs[r.idx]))
  }

  ghost predicate OutputStands(u: Tables, r: RowKey, txs: seq<Tx>) {
    && (r in u.outputs <==> r.tx.position < |txs| && r.idx < |txs[r.tx.position].outputs|)
    && (r in u.outputs ==> OutputIs(u.outputs[r], txs[r.tx.position].outputs[r.idx]))
  }

  lemma BodyStands(u: Tables, b: BlockKey, txs: seq<Tx>)
    requires HoldsBody(u, b, txs)
    ensures Stands(u, b, txs)
  {
    hide TxsOf, PagesOf, InputsOf, OutputsOf, TxRowOf, InputRowOf, OutputRowOf, TxIs, InputIs, OutputIs, WellPositioned;
    forall k: TxKey | k.block == b
      ensures (k in u.txs <==> k.position < |txs|) && (k in u.txs ==> TxIs(u.txs[k], txs[k.position]))
    {
      TxRowsOfBody(b, txs, k);
      if k.position < |txs| { RowsAreTheirColumns(txs[k.position], Input(0, 0, 0, 0, 0), Output(0, 0, 0, 0, "", 0)); }
    }
    forall r: RowKey | r.tx.block == b
      ensures PageStands(u, r, txs) && InputStands(u, r, txs) && OutputStands(u, r, txs)
    {
      RowStands(u, b, txs, r);
    }
  }

  lemma RowStands(u: Tables, b: BlockKey, txs: seq<Tx>, r: RowKey)
    requires HoldsBody(u, b, txs) && r.tx.block == b
    ensures PageStands(u, r, txs) && InputStands(u, r, txs) && OutputStands(u, r, txs)
  {
    hide TxsOf, PagesOf, InputsOf, OutputsOf, TxRowOf, InputRowOf, OutputRowOf, TxIs, InputIs, OutputIs, WellPositioned, HoldsTxs;
    PageRowsOfBody(b, txs, r);
    InputRowsOfBody(b, txs, r);
    OutputRowsOfBody(b, txs, r);
    if r.tx.position < |txs| {
      var tx := txs[r.tx.position];
      if r.idx < |tx.inputs| { RowsAreTheirColumns(tx, tx.inputs[r.idx], Output(0, 0, 0, 0, "", 0)); }
      if r.idx < |tx.outputs| { RowsAreTheirColumns(tx, Input(0, 0, 0, 0, 0), tx.outputs[r.idx]); }
    }
  }

  /** Rows of every other block are as they were. */
  ghost predicate OthersKept(t: Tables, u: Tables, b: BlockKey) {
    && (forall k: TxKey :: k.block != b ==> (k in u.txs <==> k in t.txs) && (k in u.txs ==> u.txs[k] == t.txs[k]))
    && (forall r: RowKey :: r.tx.block != b ==> (r in u.pages <==> r in t.pages) && (r in u.pages ==> u.pages[r] == t.pages[r]))
    && (forall r: RowKey :: r.tx.block != b ==> (r in u.inputs <==> r in t.inputs) && (r in u.inputs ==> u.inputs[r] == t.inputs[r]))
    && (forall r: RowKey :: r.tx.block != b ==> (r in u.outputs <==> r in t.outputs) && (r in u.outputs ==> u.outputs[r] == t.outputs[r]))
    && (forall a :: a != b ==> (a in u.blocks <==> a in t.blocks) && (a in u.blocks ==> u.blocks[a] == t.blocks[a]))
  }

  /** Rows that were there under the block stay as they were. */
  ghost predicate RowsKept(t: Tables, u: Tables) {
    && (forall k :: k in t.txs ==> k in u.txs && u.txs[k] == t.txs[k]) && (forall r :: r in t.pages ==> r in u.pages && u.pages[r] == t.pages[r])
    && (forall r :: r in t.inputs ==> r in u.inputs && u.inputs[r] == t.inputs[r])
    && (forall r :: r in t.outputs ==> r in u.outputs && u.outputs[r] == t.outputs[r])
  }

  lemma InsertedOthers(t: Tables, b: BlockKey, body: Body)
    requires b in t.blocks && WellPositioned(body.txs)
    ensures OthersKept(t, InsertTransactions(t, b, body), b)
  {
    hide TxsOf, PagesOf, InputsOf, OutputsOf, KeptProofClass, WellPositioned;
    forall k: TxKey | k.block != b ensures k !in TxsOf(b, body.txs) { TxRowsOfBody(b, body.txs, k); }
    forall r: RowKey | r.tx.block != b ensures r !in PagesOf(b, body.txs) && r !in InputsOf(b, body.txs) && r !in OutputsOf(b, body.txs) {
      PageRowsOfBody(b, body.txs, r);
      InputRowsOfBody(b, body.txs, r);
      OutputRowsOfBody(b, body.txs, r);
    }
  }

  lemma InsertedRows(t: Tables, b: BlockKey, body: Body)
    requires b in t.blocks
    ensures var u := InsertTransactions(t, b, body);
            && RowsKept(t, u) && u.gaps == t.gaps && u.log == t.log && u.slots == t.slots && u.receipts == t.receipts
            && u.cursor == t.cursor && u.progress == t.progress && b in u.blocks
            && u.blocks[b] == t.blocks[b].(proofClass := u.blocks[b].proofClass, reward := Some(AsI64(body.reward)), totalFees := Some(body.totalFees))
            && u.blocks[b].proofClass == Some(KeptProofClass(t.blocks[b].proofClass, body.proofClass))
  {
    hide TxsOf, PagesOf, InputsOf, OutputsOf, KeptProofClass, AsI64;
  }

  lemma InsertedHolds(t: Tables, b: BlockKey, body: Body)
    requires b in t.blocks && NoRows(t, b) && WellPositioned(body.txs)
    ensures Stands(InsertTransactions(t, b, body), b, body.txs)
  {
    hide TxsOf, PagesOf, InputsOf, OutputsOf, HoldsRows, KeptProofClass, Stands, AsI64;
    var u := InsertTransactions(t, b, body);
    UnderBlock(PagesOf(b, body.txs), t.pages, b);
    UnderBlock(InputsOf(b, body.txs), t.inputs, b);
    UnderBlock(OutputsOf(b, body.txs), t.outputs, b);
    assert HoldsBody(u, b, body.txs);
    hide NoRows, WellPositioned;
    BodyStands(u, b, body.txs);
  }

  // ---------------------------------------------------------------- a new block

  /** The block is on record with its body, from this source: the archive has it, and no gap was opened. */
  ghost predicate BodyRecorded(t: Tables, u: Tables, h: Header, body: Body, source: string) {
    var b := BlockKey(h.height, h.hash);
    && b in u.blocks && HeaderIs(u.blocks[b], h) && u.blocks[b].captured && u.blocks[b].source == Some(source)
    && u.blocks[b].reward == Some(AsI64(body.reward)) && u.blocks[b].totalFees == Some(body.totalFees) && u.blocks[b].proofClass == Some(body.proofClass)
    && IsCanonical(u, b) && BodyOnRecord(u, h.height) && u.gaps == t.gaps
    && RowsKept(t, u) && (WellPositioned(body.txs) ==> OthersKept(t, u, b))
    && (NoRows(t, b) && WellPositioned(body.txs) ==> Stands(u, b, body.txs))
  }

  /** The block is on record by its header alone, with a gap at its height, and no row besides. */
  ghost predicate GapRecordedFor(t: Tables, u: Tables, h: Header, now: nat) {
    var b := BlockKey(h.height, h.hash);
    && b in u.blocks && HeaderIs(u.blocks[b], h) && !u.blocks[b].captured && u.blocks[b].source == None && IsCanonical(u, b)
    && (h.height as nat) in u.gaps && (h.height as nat !in t.gaps ==> u.gaps[h.height] == GapRow(Some(h.hash), now, None))
    && (forall g :: g in t.gaps ==> g in u.gaps && u.gaps[g] == t.gaps[g]) && (forall g :: g in u.gaps && g != h.height ==> g in t.gaps)
    && u.txs == t.txs && u.pages == t.pages && u.inputs == t.inputs && u.outputs == t.outputs
    && (forall a :: a in t.blocks ==> a in u.blocks && u.blocks[a] == t.blocks[a])
  }

  lemma NewHeaderIs(t: Tables, h: Header, captured: bool, source: Option<string>, now: nat)
    requires KeyOf(h) !in t.blocks
    ensures var u, b := InsertBlockHeaderRow(t, h, captured, source, now), BlockKey(h.height, h.hash);
            && b in u.blocks && HeaderIs(u.blocks[b], h) && u.blocks[b].captured == captured && u.blocks[b].source == source && IsCanonical(u, b)
            && u.blocks[b].proofClass == None && u == t.(blocks := u.blocks, log := t.log + [StatusEntry(b, Canonical, now)])
            && forall a :: a != b ==> (a in u.blocks <==> a in t.blocks) && (a in u.blocks ==> u.blocks[a] == t.blocks[a])
  {
    Appended(t.log, StatusEntry(KeyOf(h), Canonical, now), KeyOf(h));
    hide LastStatus, AsI64;
  }

  lemma StoresBody(t: Tables, h: Header, body: Body, source: string, now: nat)
    requires CanonicalAt(t.log, h.height) != Some(KeyOf(h)) && KeyOf(h) !in t.blocks && source != HEADER_ONLY
    ensures BodyRecorded(t, StoreBlock(t, h, body, source, now), h, body, source)
  {
    hide CanonicalAt, InsertTransactions, InsertBlockHeaderRow, LastStatus, Stands, WellPositioned, NoRows, RowsKept, OthersKept, HeaderIs, AsI64;
    var b := KeyOf(h);
    var s := InsertBlockHeaderRow(t, h, true, Some(source), now);
    NewHeaderIs(t, h, true, Some(source), now);
    InsertedRows(s, b, body);
    FirstProofClass(s, b, body);
    var u := InsertTransactions(s, b, body);
    HeaderStays(s, u, b, h, body);
    SameLogCanonical(s, u, b);
    if WellPositioned(body.txs) {
      InsertedOthers(s, b, body);
      if NoRows(t, b) {
        SameRowsNoRows(t, s, b);
        InsertedHolds(s, b, body);
      }
    }
    RowsThrough(t, s, u, b);
  }

  lemma FirstProofClass(t: Tables, b: BlockKey, body: Body)
    requires b in t.blocks && t.blocks[b].proofClass == None
    ensures InsertTransactions(t, b, body).blocks[b].proofClass == Some(body.proofClass)
  {
    hide TxsOf, PagesOf, InputsOf, OutputsOf, LikeUnavailable;
  }

  lemma HeaderStays(s: Tables, u: Tables, b: BlockKey, h: Header, body: Body)
    requires b in s.blocks && b in u.blocks && HeaderIs(s.blocks[b], h)
    requires u.blocks[b] == s.blocks[b].(proofClass := u.blocks[b].proofClass, reward := u.blocks[b].reward, totalFees := u.blocks[b].totalFees)
    ensures HeaderIs(u.blocks[b], h)
  {
  }

  lemma SameLogCanonical(s: Tables, u: Tables, b: BlockKey)
    requires IsCanonical(s, b) && u.log == s.log && b in u.blocks
    ensures IsCanonical(u, b)
  {
  }

  lemma SameRowsNoRows(t: Tables, s: Tables, b: BlockKey)
    requires NoRows(t, b) && s.txs == t.txs && s.pages == t.pages && s.inputs == t.inputs && s.outputs == t.outputs
    ensures NoRows(s, b)
  {
  }

  lemma RowsThrough(t: Tables, s: Tables, u: Tables, b: BlockKey)
    requires s.txs == t.txs && s.pages == t.pages && s.inputs == t.inputs && s.outputs == t.outputs
    requires forall a :: a != b ==> (a in s.blocks <==> a in t.blocks) && (a in s.blocks ==> s.blocks[a] == t.blocks[a])
    ensures RowsKept(s, u) ==> RowsKept(t, u)
    ensures OthersKept(s, u, b) ==> OthersKept(t, u, b)
  {
  }

  lemma StoresGap(t: Tables, h: Header, now: nat)
    requires CanonicalAt(t.log, h.height) != Some(KeyOf(h)) && KeyOf(h) !in t.blocks
    ensures GapRecordedFor(t, RecordGapBlock(t, h, now), h, now)
  {
    hide CanonicalAt, InsertBlockHeaderRow, LastStatus, HeaderIs;
    NewHeaderIs(t, h, false, None, now);
    SameLogCanonical(InsertBlockHeaderRow(t, h, false, None, now), RecordGapBlock(t, h, now), KeyOf(h));
  }

  /** What was on offer for a block that is new: its body, or nothing but the header. */
  ghost predicate StoredAs(t: Tables, u: Tables, h: Header, body: Option<Body>, source: string, now: nat) {
    match body
    case Some(known) => BodyRecorded(t, u, h, known, source)
    case None => GapRecordedFor(t, u, h, now)
  }

  lemma OfferRecorded(t: Tables, offer: Offer, now: nat)
    requires CanonicalAt(t.log, offer.header.height) != Some(KeyOf(offer.header)) && KeyOf(offer.header) !in t.blocks && offer.source != HEADER_ONLY
    ensures StoredAs(t, StoreOffer(t, offer, now), offer.header, offer.body, offer.source, now)
  {
    hide CanonicalAt, StoreBlock, RecordGapBlock, BodyRecorded, GapRecordedFor;
    match offer.body
    case Some(body) => StoresBody(t, offer.header, body, offer.source, now);
    case None => StoresGap(t, offer.header, now);
  }

  // ---------------------------------------------------------------- a block known before

  /** The block counts again; its rows stay, and where it had none the body's stand now. */
  ghost predicate Returned(t: Tables, u: Tables, b: BlockKey, body: Option<Body>) {
    && b in t.blocks && b in u.blocks && IsCanonical(u, b) && RowsKept(t, u)
    && HeaderStaysAs(t.blocks[b], u.blocks[b]) && u.blocks[b].captured == t.blocks[b].captured && u.blocks[b].source == t.blocks[b].source
    && (body.Some? && NoRows(t, b) && WellPositioned(body.value.txs) ==> Stands(u, b, body.value.txs))
    && (body.None? ==> u.txs == t.txs && u.pages == t.pages && u.inputs == t.inputs && u.outputs == t.outputs)
  }

  predicate HeaderStaysAs(row: BlockRow, after: BlockRow) {
    after == row.(proofClass := after.proofClass, reward := after.reward, totalFees := after.totalFees)
  }

  lemma OldHeaderCounts(t: Tables, h: Header, captured: bool, source: Option<string>, now: nat)
    requires KeyOf(h) in t.blocks
    ensures var u := InsertBlockHeaderRow(t, h, captured, source, now);
            u == t.(log := t.log + [StatusEntry(KeyOf(h), Canonical, now)]) && IsCanonical(u, KeyOf(h))
  {
    Appended(t.log, StatusEntry(KeyOf(h), Canonical, now), KeyOf(h));
    hide LastStatus;
  }

  lemma OfferReturned(t: Tables, offer: Offer, now: nat)
    requires CanonicalAt(t.log, offer.header.height) != Some(KeyOf(offer.header)) && KeyOf(offer.header) in t.blocks
    ensures Returned(t, StoreOffer(t, offer, now), KeyOf(offer.header), offer.body)
  {
    hide CanonicalAt, InsertTransactions, InsertBlockHeaderRow, LastStatus, Stands, WellPositioned, NoRows, AsI64;
    var h, b := offer.header, KeyOf(offer.header);
    match offer.body
    case Some(body) =>
      var s := InsertBlockHeaderRow(t, h, true, Some(offer.source), now);
      OldHeaderCounts(t, h, true, Some(offer.source), now);
      InsertedRows(s, b, body);
      SameLogCanonical(s, InsertTransactions(s, b, body), b);
      if NoRows(t, b) && WellPositioned(body.txs) {
        SameRowsNoRows(t, s, b);
        InsertedHolds(s, b, body);
      }
    case None =>
      var s := InsertBlockHeaderRow(t, h, false, None, now);
      OldHeaderCounts(t, h, false, None, now);
      GapRecorded(s, h.height, Some(h.hash), now);
      SameLogCanonical(s, RecordGap(s, h.height, Some(h.hash), now), b);
  }

  // ---------------------------------------------------------------- a block replaced

  /** Of the versions, `k` is out and `b`, if there is one, is in. */
  ghost predicate Swapped(t: Tables, u: Tables, k: BlockKey, b: Option<BlockKey>) {
    forall a :: IsCanonical(u, a) <==> b == Some(a) || (IsCanonical(t, a) && a != k)
  }

  /** What a recheck leaves that met another hash than the one on record. */
  ghost predicate Replaced(t: Tables, u: Tables, height: nat, k: BlockKey, header: Option<Header>, body: Option<Body>, source: string, now: nat) {
    match header
    case Some(h) =>
      && Swapped(t, u, k, Some(BlockKey(h.height, h.hash)))
      && (BlockKey(h.height, h.hash) !in t.blocks ==> StoredAs(t, u, h, body, source, now))
      && (BlockKey(h.height, h.hash) in t.blocks ==> Returned(t, u, BlockKey(h.height, h.hash), body))
    case None => Swapped(t, u, k, None) && height in u.gaps && u == t.(log := u.log, gaps := u.gaps)
  }

  lemma OrphanLeaves(t: Tables, height: nat, k: BlockKey, at: nat, now: nat)
    requires HistoryOk(t) && LaterAt(t.log, height, at) && at < now && CanonicalAt(t.log, height) == Some(k)
    ensures var t1 := MarkOrphaned(t, k, at);
            && t1 == t.(log := t1.log) && HistoryOk(t1) && CanonicalAt(t1.log, height) == None && k in t.blocks && k.height == height
            && LaterAt(t1.log, height, now) && (forall a :: IsCanonical(t1, a) <==> IsCanonical(t, a) && a != k)
            && forall a :: Canon(t1.log, a) ==> a.height != height
  {
    hide HistoryOk, Canon, CanonicalAt, LaterAt, LastStatus;
    var t1 := MarkOrphaned(t, k, at);
    HistoryParts(t);
    LookupIsTheVersion(t.log, height, k);
    CanonicalHasRow(t, k);
    OnlyCanonical(t, k);
    OrphanedHistory(t, k, at, height, now);
    HistoryParts(t1);
    NoVersionNoLookup(t1.log, height);
    forall a ensures IsCanonical(t1, a) <==> IsCanonical(t, a) && a != k {
      CanonicalIsCanon(t, a);
      CanonicalIsCanon(t1, a);
    }
  }

  /** A recheck changes nothing where the block on record is the node's, or belongs to the backfill; else it replaces it. */
  lemma RecheckReplaces(t: Tables, height: nat, seen: string, offer: Option<Offer>, orphanedAt: nat, now: nat)
    requires HistoryOk(t) && LaterAt(t.log, height, orphanedAt) && orphanedAt < now
    requires offer.Some? ==> offer.value.header.height == height && offer.value.source != HEADER_ONLY
    ensures var u, k := RecheckTables(t, height, seen, offer, orphanedAt, now), CanonicalAt(t.log, height);
            if k.None? || k.value.hash == seen || (k.value in t.blocks && t.blocks[k.value].source == Some("header")) then u == t
            else match offer
              case None => Replaced(t, u, height, k.value, None, None, "", now)
              case Some(o) => Replaced(t, u, height, k.value, Some(o.header), o.body, o.source, now)
  {
    hide HistoryOk, CanonicalAt, LaterAt, LastStatus, StoreOffer, MarkOrphaned, Replaced, RecordGap;
    var k := CanonicalAt(t.log, height);
    if k.Some? && k.value.hash != seen && !IsHeaderOnly(t, k.value) {
      OrphanLeaves(t, height, k.value, orphanedAt, now);
      var t1 := MarkOrphaned(t, k.value, orphanedAt);
      match offer
      case None => GapReplaces(t, t1, height, seen, k.value, orphanedAt, now);
      case Some(o) => OfferReplaces(t, t1, height, k.value, o, now);
    }
  }

  lemma GapReplaces(t: Tables, t1: Tables, height: nat, seen: string, k: BlockKey, at: nat, now: nat)
    requires t1 == t.(log := t1.log) && forall a :: IsCanonical(t1, a) <==> IsCanonical(t, a) && a != k
    ensures Replaced(t, RecordGap(t1, height, Some(seen), at), height, k, None, None, "", now)
  {
    hide LastStatus, RecordGap;
    GapRecorded(t1, height, Some(seen), at);
  }

  lemma OfferReplaces(t: Tables, t1: Tables, height: nat, k: BlockKey, o: Offer, now: nat)
    requires HistoryOk(t1) && t1 == t.(log := t1.log) && CanonicalAt(t1.log, height) == None && LaterAt(t1.log, height, now)
    requires o.header.height == height && o.source != HEADER_ONLY
    requires (forall a :: IsCanonical(t1, a) <==> IsCanonical(t, a) && a != k) && forall a :: Canon(t1.log, a) ==> a.height != height
    ensures Replaced(t, StoreOffer(t1, o, now), height, k, Some(o.header), o.body, o.source, now)
  {
    hide HistoryOk, CanonicalAt, LastStatus, StoreOffer, StoredAs, Returned, Canon;
    var b, u := KeyOf(o.header), StoreOffer(t1, o, now);
    StoreOfferAdopts(t1, o, now);
    AdoptedKeepsHistory(t1, u, b, o.header.prevHash, o.body.None?, now);
    forall a ensures IsCanonical(u, a) <==> b == a || (IsCanonical(t, a) && a != k) {
      CanonicalIsCanon(t1, a);
      CanonicalIsCanon(u, a);
    }
    if b in t.blocks { OfferReturned(t1, o, now); } else { OfferRecorded(t1, o, now); }
    SameButLog(t, t1, u, o.header, b, o.body, o.source, now);
  }

  lemma SameButLog(t: Tables, t1: Tables, u: Tables, h: Header, b: BlockKey, body: Option<Body>, source: string, now: nat)
    requires t1 == t.(log := t1.log)
    ensures StoredAs(t1, u, h, body, source, now) ==> StoredAs(t, u, h, body, source, now)
    ensures Returned(t1, u, b, body) ==> Returned(t, u, b, body)
  {
    hide Stands, LastStatus, WellPositioned, HeaderIs, BodyOnRecord, NoRows, RowsKept, OthersKept, IsCanonical;
    SameRowsOnRecord(t, t1, u, BlockKey(h.height, h.hash));
    SameRowsOnRecord(t, t1, u, b);
  }

  lemma SameRowsOnRecord(t: Tables, t1: Tables, u: Tables, b: BlockKey)
    requires t1 == t.(log := t1.log)
    ensures (NoRows(t1, b) <==> NoRows(t, b)) && (RowsKept(t1, u) ==> RowsKept(t, u)) && (OthersKept(t1, u, b) ==> OthersKept(t, u, b))
  {
  }

  // ---------------------------------------------------------------- a body recovered

  /** The word stands somewhere in the text, in letters of either case. */
  ghost predicate SaysUnavailable(s: string) {
    exists before, word, after :: s == before + word + after && ReadsUnavailable(word)
  }

  ghost predicate ReadsUnavailable(word: string) {
    |word| == 11 && forall j :: 0 <= j < 11 ==> word[j] == "unavailable"[j] || word[j] == "UNAVAILABLE"[j]
  }

  lemma UnavailableMeans(s: string)
    ensures LikeUnavailable(s) <==> SaysUnavailable(s)
  {
    if LikeUnavailable(s) {
      var i :| 0 <= i <= |s| && MatchesAt(s, i, "unavailable");
      var word := s[i..i + 11];
      MatchReads(s, i);
      assert s == s[..i] + word + s[i + 11..];
    }
    if SaysUnavailable(s) {
      var before, word, after :| s == before + word + after && ReadsUnavailable(word);
      assert s[|before|..|before| + 11] == word;
      MatchReads(s, |before|);
    }
  }

  lemma MatchReads(s: string, i: nat)
    requires i <= |s|
    ensures MatchesAt(s, i, "unavailable") <==> i + 11 <= |s| && ReadsUnavailable(s[i..i + 11])
  {
    if i + 11 <= |s| {
      var word, small, capital := s[i..i + 11], "unavailable", "UNAVAILABLE";
      forall j | 0 <= j < 11
        ensures LowerAscii(s[i + j]) == small[j] <==> word[j] == small[j] || word[j] == capital[j]
      {
        assert word[j] == s[i + j] && 'a' <= small[j] <= 'z' && capital[j] as int == small[j] as int - 32;
      }
    }
  }

  /** A body without a proof class leaves the one on record; any other replaces it. */
  ghost function ClassAfter(known: Option<string>, offered: string): string {
    if SaysUnavailable(offered) && known.Some? then known.value else offered
  }

  /** The block has its body now, from this source, and its gap is closed. */
  ghost predicate BodyCame(t: Tables, u: Tables, b: BlockKey, body: Body, source: string, now: nat)
    requires b in t.blocks
  {
    && b in u.blocks && u.blocks[b] == t.blocks[b].(captured := true, source := Some(source),
                                                    proofClass := Some(ClassAfter(t.blocks[b].proofClass, body.proofClass)),
                                                    reward := Some(AsI64(body.reward)), totalFees := Some(body.totalFees))
    && BodyOnRecord(u, b.height) && u.log == t.log && RowsKept(t, u) && u.slots == t.slots && u.cursor == t.cursor && u.progress == t.progress
    && u.gaps.Keys == t.gaps.Keys && (forall g :: g in t.gaps && g != b.height ==> u.gaps[g] == t.gaps[g])
    && (b.height in t.gaps ==> u.gaps[b.height] == if t.gaps[b.height].resolvedAt.None? then t.gaps[b.height].(resolvedAt := Some(now)) else t.gaps[b.height])
    && (WellPositioned(body.txs) ==> OthersKept(t, u, b))
    && (NoRows(t, b) && WellPositioned(body.txs) ==> Stands(u, b, body.txs))
  }

  /** A gap's body is recorded where the archive's canonical block at the height lacks it, and nothing is written anywhere else. */
  lemma RecoversBody(t: Tables, height: nat, body: Body, source: string, now: nat)
    requires HistoryOk(t) && source != HEADER_ONLY
    ensures var u, r := RecoverGapTables(t, height, body, source, now), CanonicalAt(t.log, height);
            if r.Some? && r.value in t.blocks && !t.blocks[r.value].captured && t.blocks[r.value].source != Some("header")
            then r.value.height == height && BodyCame(t, u, r.value, body, source, now)
            else u == t
  {
    hide HistoryOk, CanonicalAt, InsertTransactions, LastStatus, ResolveGap, MarkBodyRecovered, BodyCame;
    var r := CanonicalAt(t.log, height);
    if r.Some? && Uncaptured(t, r.value) {
      HistoryParts(t);
      LookupIsTheVersion(t.log, height, r.value);
      CameInto(t, r.value, body, source, now);
    }
  }

  lemma CameInto(t: Tables, b: BlockKey, body: Body, source: string, now: nat)
    requires b in t.blocks && IsCanonical(t, b) && source != HEADER_ONLY
    ensures b in InsertTransactions(t, b, body).blocks
    ensures BodyCame(t, ResolveGap(MarkBodyRecovered(InsertTransactions(t, b, body), b, source), b.height, now), b, body, source, now)
  {
    hide InsertTransactions, LastStatus, Stands, WellPositioned, NoRows, OthersKept, RowsKept, AsI64, SaysUnavailable, LikeUnavailable;
    InsertedRows(t, b, body);
    UnavailableMeans(body.proofClass);
    var s := InsertTransactions(t, b, body);
    var u := ResolveGap(MarkBodyRecovered(s, b, source), b.height, now);
    InsertedKeys(t, b, body);
    SameLogCanonical(t, u, b);
    CapturedNow(s, u, b, source, now);
    if WellPositioned(body.txs) {
      InsertedOthers(t, b, body);
      if NoRows(t, b) { InsertedHolds(t, b, body); }
    }
    RowsAfterwards(t, s, u, b, body.txs);
  }

  lemma InsertedKeys(t: Tables, b: BlockKey, body: Body)
    requires b in t.blocks
    ensures InsertTransactions(t, b, body).blocks.Keys == t.blocks.Keys
  {
    hide TxsOf, PagesOf, InputsOf, OutputsOf, KeptProofClass, AsI64;
  }

  lemma CapturedNow(s: Tables, u: Tables, b: BlockKey, source: string, now: nat)
    requires b in s.blocks && u == ResolveGap(MarkBodyRecovered(s, b, source), b.height, now)
    ensures b in u.blocks && u.blocks[b] == s.blocks[b].(captured := true, source := Some(source)) && u == s.(blocks := u.blocks, gaps := u.gaps)
    ensures (forall a :: a != b ==> (a in u.blocks <==> a in s.blocks) && (a in u.blocks ==> u.blocks[a] == s.blocks[a])) && u.gaps.Keys == s.gaps.Keys
    ensures forall g :: g in s.gaps && g != b.height ==> u.gaps[g] == s.gaps[g]
    ensures b.height in s.gaps ==> u.gaps[b.height] == if s.gaps[b.height].resolvedAt.None? then s.gaps[b.height].(resolvedAt := Some(now)) else s.gaps[b.height]
  {
  }

  lemma RowsAfterwards(t: Tables, s: Tables, u: Tables, b: BlockKey, txs: seq<Tx>)
    requires u == s.(blocks := u.blocks, gaps := u.gaps)
    requires forall a :: a != b ==> (a in u.blocks <==> a in s.blocks) && (a in u.blocks ==> u.blocks[a] == s.blocks[a])
    ensures RowsKept(t, s) ==> RowsKept(t, u)
    ensures OthersKept(t, s, b) ==> OthersKept(t, u, b)
    ensures Stands(s, b, txs) ==> Stands(u, b, txs)
  {
    OthersAfterwards(t, s, u, b);
    StandsAfterwards(s, u, b, txs);
    hide OthersKept, Stands;
  }

  lemma OthersAfterwards(t: Tables, s: Tables, u: Tables, b: BlockKey)
    requires u.txs == s.txs && u.pages == s.pages && u.inputs == s.inputs && u.outputs == s.outputs
    requires forall a :: a != b ==> (a in u.blocks <==> a in s.blocks) && (a in u.blocks ==> u.blocks[a] == s.blocks[a])
    ensures OthersKept(t, s, b) ==> OthersKept(t, u, b)
  {
  }

  lemma StandsAfterwards(s: Tables, u: Tables, b: BlockKey, txs: seq<Tx>)
    requires u.txs == s.txs && u.pages == s.pages && u.inputs == s.inputs && u.outputs == s.outputs
    ensures Stands(s, b, txs) ==> Stands(u, b, txs)
  {
    hide TxIs, InputIs, OutputIs;
    if Stands(s, b, txs) {
      forall r: RowKey | r.tx.block == b ensures PageStands(u, r, txs) && InputStands(u, r, txs) && OutputStands(u, r, txs) {
        assert PageStands(s, r, txs) && InputStands(s, r, txs) && OutputStands(s, r, txs);
      }
    }
  }

  // ---------------------------------------------------------------- the next height

  lemma SameButCursor(t: Tables, s: Tables, u: Tables, h: Header, body: Option<Body>, source: string, now: nat)
    requires u == s.(cursor := u.cursor) && StoredAs(t, s, h, body, source, now)
    ensures StoredAs(t, u, h, body, source, now)
  {
    var b := BlockKey(h.height, h.hash);
    CursorRows(t, s, u, b, h.height);
    if body.Some? { StandsAfterwards(s, u, b, body.value.txs); }
    hide Stands, OthersKept, RowsKept, IsCanonical, BodyOnRecord, WellPositioned, HeaderIs, NoRows;
  }

  lemma CursorRows(t: Tables, s: Tables, u: Tables, b: BlockKey, height: nat)
    requires u == s.(cursor := u.cursor)
    ensures RowsKept(t, s) ==> RowsKept(t, u)
    ensures OthersKept(t, s, b) ==> OthersKept(t, u, b)
    ensures (IsCanonical(s, b) ==> IsCanonical(u, b)) && (BodyOnRecord(s, height) ==> BodyOnRecord(u, height))
  {
    OthersAfterwards(t, s, u, b);
    hide OthersKept, LastStatus;
  }

  /** A new height is stored as it was offered: with its body, or as a gap. */
  lemma IngestStores(t: Tables, first: nat, lowest: nat, offer: Offer, now: nat)
    requires Inv(t, first, lowest) && Enabled(t, first, lowest, Ingest(offer, now))
    ensures KeyOf(offer.header) !in t.blocks && StoredAs(t, Apply(t, Ingest(offer, now)), offer.header, offer.body, offer.source, now)
  {
    hide StoreOffer, HistoryOk, HeadersOk, Canon, CanonicalAt, ArchiveOk, ProgressOk, StoredAs, LaterAt;
    NextHeightIsFree(t, first, lowest, offer.header.height);
    NothingCanonicalAt(t, offer.header.height);
    HistoryParts(t);
    NoVersionNoLookup(t.log, offer.header.height);
    OfferRecorded(t, offer, now);
    var s := StoreOffer(t, offer, now);
    SameButCursor(t, s, s.(cursor := Some(offer.header.height)), offer.header, offer.body, offer.source, now);
  }

  // ---------------------------------------------------------------- gaps closed late, blocks pruned

  /** Closing the gaps that have a body after all closes those that are open and whose block has one, and writes nothing else. */
  lemma GapsClosedWhen(t: Tables, now: nat)
    ensures var u := ResolveGapsWithBodies(t, now);
            && u == t.(gaps := u.gaps) && u.gaps.Keys == t.gaps.Keys
            && (forall h :: h in t.gaps ==>
                  u.gaps[h] == if t.gaps[h].resolvedAt == None && ShowsBody(t, h) then t.gaps[h].(resolvedAt := Some(now)) else t.gaps[h])
  {
    hide LastStatus;
    forall h ensures ShowsBody(t, h) <==> BodyOnRecord(t, h) {}
    hide ShowsBody, BodyOnRecord;
  }

  /** The archive's canonical block at the height has its body. */
  ghost predicate ShowsBody(t: Tables, h: nat) {
    exists b :: b in t.blocks && b.height == h && IsCanonical(t, b) && t.blocks[b].captured && t.blocks[b].source != Some("header")
  }

  /** A block of the archive with its body, from before the cutoff. */
  predicate TooOld(t: Tables, b: BlockKey, cutoff: int) {
    b in t.blocks && t.blocks[b].timestamp < cutoff && t.blocks[b].captured && t.blocks[b].source != Some("header")
  }

  /** Blocks from before the cutoff are left with their header alone, and everything else is as it was. */
  ghost predicate PrunedBefore(t: Tables, u: Tables, cutoff: int) {
    && u == t.(blocks := u.blocks, txs := u.txs, pages := u.pages, inputs := u.inputs, outputs := u.outputs) && u.blocks.Keys == t.blocks.Keys
    && (forall b :: b in t.blocks ==> u.blocks[b] == t.blocks[b].(captured := t.blocks[b].captured && !TooOld(t, b, cutoff)))
    && (forall k: TxKey :: (k in u.txs <==> k in t.txs && !TooOld(t, k.block, cutoff)) && (k in u.txs ==> u.txs[k] == t.txs[k]))
    && (forall r: RowKey :: (r in u.pages <==> r in t.pages && !TooOld(t, r.tx.block, cutoff)) && (r in u.pages ==> u.pages[r] == t.pages[r]))
    && (forall r: RowKey :: (r in u.inputs <==> r in t.inputs && !TooOld(t, r.tx.block, cutoff)) && (r in u.inputs ==> u.inputs[r] == t.inputs[r]))
    && (forall r: RowKey :: (r in u.outputs <==> r in t.outputs && !TooOld(t, r.tx.block, cutoff)) && (r in u.outputs ==> u.outputs[r] == t.outputs[r]))
  }

  lemma PruneMeans(t: Tables, cutoff: int)
    ensures var aged := set b | b in t.blocks && Prunable(t, b, cutoff);
            (forall b :: b in aged <==> TooOld(t, b, cutoff)) && PrunedBefore(t, PruneBlocks(t, aged), cutoff)
  {
    var aged := set b | b in t.blocks && Prunable(t, b, cutoff);
    forall b ensures b in aged <==> TooOld(t, b, cutoff) {}
    hide TooOld, Prunable;
  }

  // ---------------------------------------------------------------- headers copied below the archive

  /** Each header has its row, without a body and marked as a header; other blocks' rows are as they were. */
  ghost predicate HeadersWritten(t: Tables, u: Tables, headers: seq<Header>) {
    && (forall i :: 0 <= i < |headers| ==> HeaderStored(t, u, headers[i]))
    && (forall a :: a in t.blocks ==> a in u.blocks && u.blocks[a] == t.blocks[a])
    && (forall a :: a in u.blocks && a !in t.blocks ==> exists i :: 0 <= i < |headers| && a == BlockKey(headers[i].height, headers[i].hash))
    && u == t.(blocks := u.blocks, log := u.log, progress := u.progress)
  }

  ghost predicate HeaderStored(t: Tables, u: Tables, h: Header) {
    var b := BlockKey(h.height, h.hash);
    && b in u.blocks && (b !in t.blocks ==> HeaderIs(u.blocks[b], h) && !u.blocks[b].captured && u.blocks[b].source == Some("header"))
  }

  lemma OneMoreHeader(t: Tables, s: Tables, headers: seq<Header>, h: Header, now: nat)
    requires HeadersWritten(t, s, headers) && forall i :: 0 <= i < |headers| ==> headers[i].height != h.height
    ensures var r := InsertHeaderOnly(s, h, now); r.Some? ==> HeadersWritten(t, r.value, headers + [h])
  {
    hide RowAt, AsI64;
    NotWritten(t, s, headers, h);
    var r, all := InsertHeaderOnly(s, h, now), headers + [h];
    if r.Some? {
      var u := r.value;
      assert all[|headers|] == h;
      forall i | 0 <= i < |all| ensures HeaderStored(t, u, all[i]) {
        if i < |headers| { assert HeaderStored(t, s, headers[i]); }
      }
      forall a | a in u.blocks && a !in t.blocks
        ensures exists i :: 0 <= i < |all| && a == BlockKey(all[i].height, all[i].hash)
      {
        if a in s.blocks { var i :| 0 <= i < |headers| && a == BlockKey(headers[i].height, headers[i].hash); assert all[i] == headers[i]; }
      }
    }
  }

  lemma NotWritten(t: Tables, s: Tables, headers: seq<Header>, h: Header)
    requires HeadersWritten(t, s, headers) && forall i :: 0 <= i < |headers| ==> headers[i].height != h.height
    ensures KeyOf(h) in s.blocks ==> KeyOf(h) in t.blocks
  {
    hide HeaderStored;
  }

  /** A batch of headers at different heights is written as the node served it. */
  lemma {:induction false} HeadersAreWritten(t: Tables, headers: seq<Header>, now: nat)
    requires forall i, j :: 0 <= i < j < |headers| ==> headers[i].height != headers[j].height
    ensures var r := InsertHeaders(t, headers, now); r.Some? ==> HeadersWritten(t, r.value, headers)
  {
    hide InsertHeaderOnly, HeaderStored;
    if headers != [] {
      var front, h := headers[..|headers| - 1], headers[|headers| - 1];
      assert front + [h] == headers;
      HeadersAreWritten(t, front, now);
      var s := InsertHeaders(t, front, now);
      if s.Some? { OneMoreHeader(t, s.value, front, h, now); }
    }
  }

  lemma BatchIsWritten(t: Tables, headers: seq<Header>, expected: string, from: nat, low: nat, now: nat)
    requires ChainDown(headers, expected, from, low)
    ensures HeadersWritten(t, HeaderBatchTables(t, headers, low, now), headers) || InsertHeaders(t, headers, now).None?
  {
    HeadersAreWritten(t, headers, now);
    hide InsertHeaders, HeaderStored;
  }
}
