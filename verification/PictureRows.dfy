/**
  What every transaction of the indexer does to the recorded rows (permanode/src/indexer.rs,
  core/src/db.rs): which blocks' rows it writes, and what the record at or below a height
  looks like afterwards.
 */
module PictureRows {
  import opened Wrappers
  import opened Tables
  import opened View
  import opened Sweep
  import opened Figures
  import opened BodyLaws
  import opened StatusLog
  import opened Runs
  import opened RunLaws
  import opened Chains
  import opened Simulation
  import opened PictureHistory
  import opened Reorg

  // ---------------------------------------------------------------- rows of a block

  ghost predicate HoldsUpToFlags(m: map<RowKey, OutputRow>, rows: map<RowKey, OutputRow>, b: BlockKey) {
    forall r: RowKey :: r.tx.block == b ==>
      (r in m <==> r in rows) && (r in m ==> m[r] == rows[r].(spentInGap := m[r].spentInGap, spentInGapAt := m[r].spentInGapAt))
  }

  /** The rows under `b` are this body's, whatever their flags say. */
  ghost predicate HoldsFlagged(t: Tables, b: BlockKey, txs: seq<Tx>) {
    && WellPositioned(txs)
    && HoldsTxs(t.txs, TxsOf(b, txs), b)
    && HoldsRows(t.pages, PagesOf(b, txs), b)
    && HoldsRows(t.inputs, InputsOf(b, txs), b)
    && HoldsUpToFlags(t.outputs, OutputsOf(b, txs), b)
  }

  /** A block on record has its body's rows or none; any other block has none. */
  ghost predicate HeldAt(t: Tables, bodyOf: Reorg.Bodies, b: BlockKey) {
    NoRows(t, b) || (b in t.blocks && HoldsFlagged(t, b, bodyOf(b).txs))
  }

  ghost predicate Held(t: Tables, bodyOf: Reorg.Bodies) {
    forall b :: HeldAt(t, bodyOf, b)
  }

  lemma HeldStays(t: Tables, u: Tables, bodyOf: Reorg.Bodies, b: BlockKey)
    requires HeldAt(t, bodyOf, b) && SameRows(t, u, b) && (b in t.blocks ==> b in u.blocks)
    ensures HeldAt(u, bodyOf, b)
  {
    hide HoldsFlagged, NoRows, SameRows;
    if NoRows(t, b) { NoRowsStay(t, u, b); } else { FlaggedStays(t, u, b, bodyOf(b).txs); }
  }

  lemma FlaggedStays(t: Tables, u: Tables, b: BlockKey, txs: seq<Tx>)
    requires HoldsFlagged(t, b, txs) && SameRows(t, u, b)
    ensures HoldsFlagged(u, b, txs)
  {
    hide TxsOf, PagesOf, InputsOf, OutputsOf, WellPositioned;
  }

  lemma NoRowsStay(t: Tables, u: Tables, b: BlockKey)
    requires NoRows(t, b) && SameRows(t, u, b)
    ensures NoRows(u, b)
  {
    forall k | k in u.txs ensures k.block != b { assert k.block == b ==> k in t.txs; }
    forall r | r in u.pages ensures r.tx.block != b { assert r.tx.block == b ==> r in t.pages; }
    forall r | r in u.inputs ensures r.tx.block != b { assert r.tx.block == b ==> r in t.inputs; }
    forall r | r in u.outputs ensures r.tx.block != b { assert r.tx.block == b ==> r in t.outputs; }
  }

  /** The body's rows went in below whatever was on record. */
  ghost predicate Inserted(t: Tables, u: Tables, b: BlockKey, txs: seq<Tx>) {
    && u.txs == TxsOf(b, txs) + t.txs && u.pages == PagesOf(b, txs) + t.pages
    && u.inputs == InputsOf(b, txs) + t.inputs && u.outputs == OutputsOf(b, txs) + t.outputs
  }

  lemma OutputsHere(m: map<RowKey, OutputRow>, rows: map<RowKey, OutputRow>, b: BlockKey)
    requires (forall r :: r in m ==> r.tx.block != b) || HoldsUpToFlags(m, rows, b)
    ensures HoldsUpToFlags(rows + m, rows, b)
  {
  }

  lemma InsertedFlagged(t: Tables, u: Tables, b: BlockKey, txs: seq<Tx>)
    requires WellPositioned(txs) && (NoRows(t, b) || HoldsFlagged(t, b, txs)) && Inserted(t, u, b, txs)
    ensures HoldsFlagged(u, b, txs)
  {
    hide TxsOf, PagesOf, InputsOf, OutputsOf, HoldsRows, HoldsTxs, HoldsUpToFlags;
    TxsHere(t.txs, TxsOf(b, txs), b);
    RowsHere(t.pages, PagesOf(b, txs), b);
    RowsHere(t.inputs, InputsOf(b, txs), b);
    OutputsHere(t.outputs, OutputsOf(b, txs), b);
  }

  /** A body inserted under a block leaves every block with its body's rows or none. */
  lemma InsertedHeld(t: Tables, u: Tables, b: BlockKey, bodyOf: Reorg.Bodies)
    requires BodiesOk(bodyOf) && Held(t, bodyOf) && Inserted(t, u, b, bodyOf(b).txs)
    requires t.blocks.Keys <= u.blocks.Keys && b in u.blocks
    ensures Held(u, bodyOf) && forall a :: a != b ==> SameRows(t, u, a)
  {
    assert WellPositioned(bodyOf(b).txs);
    hide HeldAt, SameRows, WellPositioned, BodiesOk, TxsOf, PagesOf, InputsOf, OutputsOf;
    forall a
      ensures HeldAt(u, bodyOf, a) && (a != b ==> SameRows(t, u, a))
    {
      assert HeldAt(t, bodyOf, a);
      if a == b {
        InsertedHeldHere(t, u, b, bodyOf);
      } else {
        InsertedElsewhere(t, u, b, bodyOf(b).txs, a);
        HeldStays(t, u, bodyOf, a);
      }
    }
  }

  lemma InsertedHeldHere(t: Tables, u: Tables, b: BlockKey, bodyOf: Reorg.Bodies)
    requires WellPositioned(bodyOf(b).txs) && HeldAt(t, bodyOf, b) && Inserted(t, u, b, bodyOf(b).txs) && b in u.blocks
    ensures HeldAt(u, bodyOf, b)
  {
    hide HoldsFlagged, Inserted, NoRows;
    InsertedFlagged(t, u, b, bodyOf(b).txs);
  }

  lemma SameTablesHeld(t: Tables, u: Tables, bodyOf: Reorg.Bodies)
    requires Held(t, bodyOf) && t.blocks.Keys <= u.blocks.Keys
    requires u.txs == t.txs && u.pages == t.pages && u.inputs == t.inputs && u.outputs == t.outputs
    ensures Held(u, bodyOf) && forall a :: SameRows(t, u, a)
  {
    hide HeldAt, SameRows;
    forall a
      ensures HeldAt(u, bodyOf, a) && SameRows(t, u, a)
    {
      assert HeldAt(t, bodyOf, a);
      SameRowsOf(t, u, a);
      HeldStays(t, u, bodyOf, a);
    }
  }

  // ---------------------------------------------------------------- the record at or below a height

  /** Up to the height, blocks have the rows they had, and those with rows count as they did. */
  ghost predicate SameUpTo(t: Tables, u: Tables, h: nat) {
    forall b: BlockKey :: b.height <= h ==> SameBlock(t, u, b)
  }

  ghost predicate SameBlock(t: Tables, u: Tables, b: BlockKey) {
    && SameRows(t, u, b) && (IsCanonical(t, b) ==> IsCanonical(u, b))
    && (NoRows(t, b) || (IsCanonical(u, b) ==> IsCanonical(t, b)))
  }

  lemma SameBlockCounts(t: Tables, u: Tables, k: TxKey)
    requires SameBlock(t, u, k.block)
    ensures Counts(u, k) <==> Counts(t, k)
  {
    hide IsCanonical;
  }

  lemma SameUpToInputs(t: Tables, u: Tables, h: nat)
    requires SameUpTo(t, u, h)
    ensures Lower(ViewOf(u), h).inputs == Lower(ViewOf(t), h).inputs
  {
    hide IsCanonical, Counts, SameBlock;
    forall r: RowKey | r.tx.block.height <= h
      ensures (r in u.inputs <==> r in t.inputs) && (r in u.inputs ==> u.inputs[r] == t.inputs[r]) && (Counts(u, r.tx) <==> Counts(t, r.tx))
    {
      assert SameBlock(t, u, r.tx.block);
      SameBlockCounts(t, u, r.tx);
      RowOfSameBlock(t, u, r);
    }
  }

  lemma RowOfSameBlock(t: Tables, u: Tables, r: RowKey)
    requires SameBlock(t, u, r.tx.block)
    ensures (r in u.inputs <==> r in t.inputs) && (r in u.inputs ==> u.inputs[r] == t.inputs[r])
    ensures (r in u.outputs <==> r in t.outputs) && (r in u.outputs ==> u.outputs[r] == t.outputs[r])
    ensures (r.tx in u.txs <==> r.tx in t.txs) && (r.tx in u.txs ==> u.txs[r.tx] == t.txs[r.tx])
  {
    hide IsCanonical;
  }

  lemma SameUpToOutputs(t: Tables, u: Tables, h: nat)
    requires SameUpTo(t, u, h)
    ensures Lower(ViewOf(u), h).outputs == Lower(ViewOf(t), h).outputs
  {
    hide IsCanonical, Counts, SameBlock;
    forall r: RowKey | r.tx.block.height <= h
      ensures (r in u.outputs <==> r in t.outputs) && (r in u.outputs ==> u.outputs[r] == t.outputs[r]) && (Counts(u, r.tx) <==> Counts(t, r.tx))
    {
      assert SameBlock(t, u, r.tx.block);
      SameBlockCounts(t, u, r.tx);
      RowOfSameBlock(t, u, r);
    }
  }

  /** What the archive records at or below a height. */
  function Record(t: Tables, h: nat): View {
    Lower(ViewOf(t), h)
  }

  lemma SameUpToSameRecord(t: Tables, u: Tables, h: nat)
    requires SameUpTo(t, u, h)
    ensures Record(u, h) == Record(t, h)
  {
    hide ViewOf, Below, SameUpTo;
    SameUpToInputs(t, u, h);
    SameUpToOutputs(t, u, h);
  }

  lemma SameUpToTwice(t: Tables, s: Tables, u: Tables, h: nat)
    requires SameUpTo(t, s, h) && SameUpTo(s, u, h)
    ensures SameUpTo(t, u, h)
  {
    hide SameBlock;
    forall b: BlockKey | b.height <= h
      ensures SameBlock(t, u, b)
    {
      assert SameBlock(t, s, b) && SameBlock(s, u, b);
      SameBlockTwice(t, s, u, b);
    }
  }

  lemma SameBlockTwice(t: Tables, s: Tables, u: Tables, b: BlockKey)
    requires SameBlock(t, s, b) && SameBlock(s, u, b)
    ensures SameBlock(t, u, b)
  {
    hide IsCanonical;
    if NoRows(s, b) { NoRowsBack(t, s, b); }
    hide NoRows;
  }

  lemma NoRowsBack(t: Tables, s: Tables, b: BlockKey)
    requires NoRows(s, b) && SameRows(t, s, b)
    ensures NoRows(t, b)
  {
    hide SameRows;
    SameRowsBack(t, s, b);
    NoRowsStay(s, t, b);
  }

  lemma SameRowsBack(t: Tables, s: Tables, b: BlockKey)
    requires SameRows(t, s, b)
    ensures SameRows(s, t, b)
  {
  }

  // ---------------------------------------------------------------- new and replaced blocks above the height

  /** What a step leaves alone: rows and versions up to the height, the sweep's slots, bodies under their blocks. */
  ghost predicate Undisturbed(t: Tables, u: Tables, bodyOf: Reorg.Bodies, h: nat) {
    Held(u, bodyOf) && SameUpTo(t, u, h) && u.slots == t.slots
  }

  lemma SameTables(t: Tables, u: Tables, bodyOf: Reorg.Bodies, h: nat)
    requires Held(t, bodyOf) && t.blocks.Keys <= u.blocks.Keys && u.slots == t.slots
    requires u.txs == t.txs && u.pages == t.pages && u.inputs == t.inputs && u.outputs == t.outputs
    requires forall a: BlockKey :: a.height <= h ==> (IsCanonical(u, a) <==> IsCanonical(t, a))
    ensures Undisturbed(t, u, bodyOf, h)
  {
    hide Held, IsCanonical, SameRows, NoRows;
    SameTablesHeld(t, u, bodyOf);
  }

  lemma OfferVersions(t: Tables, offer: Offer, now: nat, a: BlockKey)
    requires offer.source != HEADER_ONLY && CanonicalAt(t.log, offer.header.height) != Some(KeyOf(offer.header))
    requires a.height != offer.header.height
    ensures IsCanonical(StoreOffer(t, offer, now), a) <==> IsCanonical(t, a)
  {
    hide CanonicalAt, StoreOffer, LastStatus;
    StoreOfferAdopts(t, offer, now);
    Appended(t.log, StatusEntry(KeyOf(offer.header), Canonical, now), a);
  }

  lemma GapRows(t: Tables, h: Header, now: nat)
    ensures var u := RecordGapBlock(t, h, now);
            && u.txs == t.txs && u.pages == t.pages && u.inputs == t.inputs && u.outputs == t.outputs
            && u.slots == t.slots && t.blocks.Keys <= u.blocks.Keys
  {
    hide CanonicalAt, RecordGap, InsertBlockHeaderRow;
    GapRecorded(t, h.height, Some(h.hash), now);
    GapRecorded(InsertBlockHeaderRow(t, h, false, None, now), h.height, Some(h.hash), now);
    HeaderRows(t, h, now);
  }

  lemma HeaderRows(t: Tables, h: Header, now: nat)
    ensures var u := InsertBlockHeaderRow(t, h, false, None, now);
            u == t.(blocks := u.blocks, log := u.log) && t.blocks.Keys <= u.blocks.Keys
  {
  }

  lemma StoredSlots(t: Tables, h: Header, body: Body, source: string, now: nat)
    requires CanonicalAt(t.log, h.height) != Some(KeyOf(h))
    ensures StoreBlock(t, h, body, source, now).slots == t.slots
  {
    hide CanonicalAt, TxsOf, PagesOf, InputsOf, OutputsOf, KeptProofClass, InsertBlockHeaderRow;
    NewHeaderRow(t, h, source, now);
  }

  lemma OfferRows(t: Tables, offer: Offer, now: nat, bodyOf: Reorg.Bodies)
    requires BodiesOk(bodyOf) && Held(t, bodyOf) && (offer.body.Some? ==> offer.body.value.txs == bodyOf(KeyOf(offer.header)).txs)
    requires CanonicalAt(t.log, offer.header.height) != Some(KeyOf(offer.header))
    ensures var u := StoreOffer(t, offer, now);
            Held(u, bodyOf) && u.slots == t.slots && forall a :: a != KeyOf(offer.header) ==> SameRows(t, u, a)
  {
    hide CanonicalAt, StoreBlock, RecordGapBlock, Held, SameRows, BodiesOk, TxsOf, PagesOf, InputsOf, OutputsOf;
    var u := StoreOffer(t, offer, now);
    match offer.body
    case Some(body) =>
      StoredTables(t, offer.header, body, offer.source, now);
      StoredSlots(t, offer.header, body, offer.source, now);
      InsertedHeld(t, u, KeyOf(offer.header), bodyOf);
    case None =>
      GapRows(t, offer.header, now);
      SameTablesHeld(t, u, bodyOf);
  }

  /** Storing what the node offered for a height above. */
  lemma OfferAbove(t: Tables, offer: Offer, now: nat, bodyOf: Reorg.Bodies, h: nat)
    requires BodiesOk(bodyOf) && Held(t, bodyOf) && (offer.body.Some? ==> offer.body.value.txs == bodyOf(KeyOf(offer.header)).txs)
    requires CanonicalAt(t.log, offer.header.height) != Some(KeyOf(offer.header))
    requires offer.source != HEADER_ONLY && h < offer.header.height
    ensures Undisturbed(t, StoreOffer(t, offer, now), bodyOf, h)
  {
    hide CanonicalAt, StoreOffer, Held, SameRows, BodiesOk, IsCanonical, NoRows;
    OfferRows(t, offer, now, bodyOf);
    forall a: BlockKey | a.height <= h
      ensures SameBlock(t, StoreOffer(t, offer, now), a)
    {
      OfferVersions(t, offer, now, a);
    }
  }

  lemma IngestAbove(t: Tables, first: nat, lowest: nat, offer: Offer, now: nat, bodyOf: Reorg.Bodies, h: nat)
    requires Inv(t, first, lowest) && Enabled(t, first, lowest, Ingest(offer, now))
    requires BodiesOk(bodyOf) && Held(t, bodyOf) && (offer.body.Some? ==> offer.body.value.txs == bodyOf(KeyOf(offer.header)).txs)
    requires h < offer.header.height
    ensures Undisturbed(t, Apply(t, Ingest(offer, now)), bodyOf, h)
  {
    hide StoreOffer, HistoryOk, HeadersOk, Canon, CanonicalAt, Held, BodiesOk, SameUpTo, ArchiveOk, ProgressOk;
    var height := offer.header.height;
    NextHeightIsFree(t, first, lowest, height);
    NothingCanonicalAt(t, height);
    HistoryParts(t);
    NoVersionNoLookup(t.log, height);
    OfferAbove(t, offer, now, bodyOf, h);
    var s := StoreOffer(t, offer, now);
    var u := s.(cursor := Some(height));
    SameTables(s, u, bodyOf, h);
    SameUpToTwice(t, s, u, h);
  }

  /** Replacing a block above. */
  lemma RecheckAbove(t: Tables, height: nat, seen: string, offer: Option<Offer>, orphanedAt: nat, now: nat, bodyOf: Reorg.Bodies, h: nat)
    requires HistoryOk(t) && LaterAt(t.log, height, orphanedAt) && orphanedAt < now
    requires offer.Some? ==> offer.value.header.height == height && offer.value.source != HEADER_ONLY
    requires BodiesOk(bodyOf) && Held(t, bodyOf) && h < height
    requires offer.Some? && offer.value.body.Some? ==> offer.value.body.value.txs == bodyOf(KeyOf(offer.value.header)).txs
    ensures Undisturbed(t, RecheckTables(t, height, seen, offer, orphanedAt, now), bodyOf, h)
  {
    hide StoreOffer, HistoryOk, Canon, CanonicalAt, Held, BodiesOk, SameUpTo, LaterAt, IsCanonical, RecordGap, MarkOrphaned;
    var r := CanonicalAt(t.log, height);
    if r.Some? && r.value.hash != seen && !IsHeaderOnly(t, r.value) {
      var t1 := MarkOrphaned(t, r.value, orphanedAt);
      OrphanedAbove(t, height, r.value, orphanedAt, now, bodyOf, h);
      if offer.Some? {
        OfferAbove(t1, offer.value, now, bodyOf, h);
        SameUpToTwice(t, t1, StoreOffer(t1, offer.value, now), h);
      } else {
        GapAbove(t1, height, Some(seen), orphanedAt, bodyOf, h);
        SameUpToTwice(t, t1, RecordGap(t1, height, Some(seen), orphanedAt), h);
      }
    } else {
      SameTables(t, t, bodyOf, h);
    }
  }

  lemma OrphanedAbove(t: Tables, height: nat, b: BlockKey, at: nat, now: nat, bodyOf: Reorg.Bodies, h: nat)
    requires HistoryOk(t) && LaterAt(t.log, height, at) && at < now && CanonicalAt(t.log, height) == Some(b)
    requires Held(t, bodyOf) && h < height
    ensures var t1 := MarkOrphaned(t, b, at); Undisturbed(t, t1, bodyOf, h) && CanonicalAt(t1.log, height) == None
  {
    hide HistoryOk, Canon, CanonicalAt, Held, SameUpTo, LaterAt, LastStatus;
    var t1 := MarkOrphaned(t, b, at);
    HistoryParts(t);
    LookupIsTheVersion(t.log, height, b);
    CanonicalHasRow(t, b);
    OnlyCanonical(t, b);
    OrphanedHistory(t, b, at, height, now);
    HistoryParts(t1);
    NoVersionNoLookup(t1.log, height);
    forall a: BlockKey | a.height <= h
      ensures IsCanonical(t1, a) <==> IsCanonical(t, a)
    {
      Appended(t.log, StatusEntry(b, Orphaned, at), a);
    }
    SameTables(t, t1, bodyOf, h);
  }

  lemma GapAbove(t: Tables, height: nat, hash: Option<string>, at: nat, bodyOf: Reorg.Bodies, h: nat)
    requires Held(t, bodyOf)
    ensures Undisturbed(t, RecordGap(t, height, hash, at), bodyOf, h)
  {
    hide Held, RecordGap, SameUpTo;
    GapRecorded(t, height, hash, at);
    SameTables(t, RecordGap(t, height, hash, at), bodyOf, h);
  }

  // ---------------------------------------------------------------- header batches

  lemma HeaderOnlyRows(t: Tables, h: Header, now: nat)
    ensures var r := InsertHeaderOnly(t, h, now);
            r.Some? ==> HeadersOnly(t, r.value)
  {
    hide RowAt, LastStatus;
    if InsertHeaderOnly(t, h, now).Some? && KeyOf(h) !in t.blocks {
      forall a | a in t.blocks
        ensures IsCanonical(InsertHeaderOnly(t, h, now).value, a) <==> IsCanonical(t, a)
      {
        Appended(t.log, StatusEntry(KeyOf(h), Canonical, now), a);
      }
    }
  }

  /** Only new blocks were added, without rows. */
  ghost predicate HeadersOnly(t: Tables, u: Tables) {
    && u.txs == t.txs && u.pages == t.pages && u.inputs == t.inputs && u.outputs == t.outputs && u.slots == t.slots
    && t.blocks.Keys <= u.blocks.Keys && forall a :: a in t.blocks ==> (IsCanonical(u, a) <==> IsCanonical(t, a))
  }

  lemma {:induction false} HeaderBatchRows(t: Tables, headers: seq<Header>, now: nat)
    ensures var r := InsertHeaders(t, headers, now); r.Some? ==> HeadersOnly(t, r.value)
  {
    hide IsCanonical, InsertHeaderOnly;
    if headers != [] {
      var front := InsertHeaders(t, headers[..|headers| - 1], now);
      HeaderBatchRows(t, headers[..|headers| - 1], now);
      if front.Some? { HeaderOnlyRows(front.value, headers[|headers| - 1], now); }
    }
  }

  lemma HeadersUndisturbed(t: Tables, u: Tables, bodyOf: Reorg.Bodies, h: nat)
    requires Held(t, bodyOf) && HeadersOnly(t, u)
    ensures Undisturbed(t, u, bodyOf, h)
  {
    hide Held, SameRows, NoRows, LastStatus;
    SameTablesHeld(t, u, bodyOf);
    forall a: BlockKey | a.height <= h
      ensures SameBlock(t, u, a)
    {
      NotOnRecord(t, bodyOf, a);
    }
  }

  lemma NotOnRecord(t: Tables, bodyOf: Reorg.Bodies, a: BlockKey)
    requires Held(t, bodyOf)
    ensures a !in t.blocks ==> NoRows(t, a)
  {
    hide NoRows, HoldsFlagged;
    assert HeldAt(t, bodyOf, a);
  }

  lemma HeaderBatchUndisturbed(t: Tables, headers: seq<Header>, low: nat, now: nat, bodyOf: Reorg.Bodies, h: nat)
    requires Held(t, bodyOf)
    ensures Undisturbed(t, HeaderBatchTables(t, headers, low, now), bodyOf, h)
  {
    hide Held, SameUpTo, InsertHeaders, HeadersOnly;
    var r := InsertHeaders(t, headers, now);
    if r.Some? {
      var u := HeaderBatchTables(t, headers, low, now);
      HeaderBatchRows(t, headers, now);
      HeadersUndisturbed(t, r.value, bodyOf, h);
      ProgressRows(t, r.value, u);
      HeadersUndisturbed(t, u, bodyOf, h);
    } else {
      SameTables(t, t, bodyOf, h);
    }
  }

  lemma ProgressRows(t: Tables, s: Tables, u: Tables)
    requires HeadersOnly(t, s) && u == s.(progress := u.progress)
    ensures HeadersOnly(t, u)
  {
    hide LastStatus;
  }

  // ---------------------------------------------------------------- bodies recovered

  lemma RecoveredRows(t: Tables, height: nat, b: BlockKey, body: Body, source: string, now: nat)
    requires CanonicalAt(t.log, height) == Some(b) && Uncaptured(t, b)
    ensures var u := RecoverGapTables(t, height, body, source, now);
            Inserted(t, u, b, body.txs) && u.log == t.log && u.blocks.Keys == t.blocks.Keys && u.slots == t.slots
  {
    hide CanonicalAt, TxsOf, PagesOf, InputsOf, OutputsOf, KeptProofClass;
  }

  lemma NothingToRecover(t: Tables, height: nat, body: Body, source: string, now: nat)
    requires CanonicalAt(t.log, height).Some? ==> !Uncaptured(t, CanonicalAt(t.log, height).value)
    ensures RecoverGapTables(t, height, body, source, now) == t
  {
    hide CanonicalAt, InsertTransactions;
  }

  /** Rows that are on record already stay as they are. */
  lemma InsertedAgain(t: Tables, u: Tables, b: BlockKey, txs: seq<Tx>)
    requires HoldsFlagged(t, b, txs) && Inserted(t, u, b, txs)
    ensures SameRows(t, u, b)
  {
    hide TxsOf, PagesOf, InputsOf, OutputsOf, WellPositioned;
  }

  /** A recovered body reaches the record, or its rows were there already. */
  lemma RecoveredRecord(t: Tables, u: Tables, b: BlockKey, bodyOf: Reorg.Bodies, h: nat)
    requires BodiesOk(bodyOf) && Held(t, bodyOf) && Inserted(t, u, b, bodyOf(b).txs) && IsCanonical(t, b)
    requires u.log == t.log && u.blocks.Keys == t.blocks.Keys && u.slots == t.slots
    ensures Held(u, bodyOf)
    ensures if NoRows(t, b) && b.height <= h then Gains(Record(t, h), Record(u, h), Mined(b, bodyOf(b))) else SameUpTo(t, u, h)
  {
    hide SameRows, Inserted, LastStatus, BodiesOk, Held, HoldsFlagged, NoRows, Gains, Record;
    InsertedHeld(t, u, b, bodyOf);
    BodyAndHeld(t, bodyOf, b);
    if h < b.height {
      assert SameUpTo(t, u, h);
    } else if NoRows(t, b) {
      InsertedGains(t, u, b, bodyOf(b), h);
    } else {
      InsertedAgain(t, u, b, bodyOf(b).txs);
      assert SameUpTo(t, u, h);
    }
  }

  lemma BodyAndHeld(t: Tables, bodyOf: Reorg.Bodies, b: BlockKey)
    requires BodiesOk(bodyOf) && Held(t, bodyOf)
    ensures WellPositioned(bodyOf(b).txs) && (NoRows(t, b) || HoldsFlagged(t, b, bodyOf(b).txs))
  {
    assert HeldAt(t, bodyOf, b);
  }

  lemma InsertedGains(t: Tables, u: Tables, b: BlockKey, body: Body, h: nat)
    requires WellPositioned(body.txs) && NoRows(t, b) && Inserted(t, u, b, body.txs) && IsCanonical(t, b)
    requires u.log == t.log && u.blocks.Keys == t.blocks.Keys && b.height <= h
    ensures Gains(Record(t, h), Record(u, h), Mined(b, body))
  {
    hide LastStatus, NoRows, TxsOf, PagesOf, InputsOf, OutputsOf, ViewOf, Lower, Gains, WellPositioned;
    var m := Mined(b, body);
    InsertedInputs(t, u, b, body.txs);
    InsertedOutputs(t, u, b, body.txs);
    NotInView(t, b);
    GainsOfParts(ViewOf(t), ViewOf(u), m);
    LowerGains(ViewOf(t), ViewOf(u), m, h);
  }

  lemma GainsOfParts(v: View, w: View, m: Mined)
    requires w.inputs == v.inputs + InputsOf(m.key, m.body.txs) && w.outputs == v.outputs + OutputsOf(m.key, m.body.txs)
    requires (forall k :: k in v.inputs ==> k.tx.block != m.key) && (forall k :: k in v.outputs ==> k.tx.block != m.key)
    ensures Gains(v, w, m)
  {
  }

  lemma NotInView(t: Tables, b: BlockKey)
    requires NoRows(t, b)
    ensures (forall k :: k in ViewOf(t).inputs ==> k.tx.block != b) && (forall k :: k in ViewOf(t).outputs ==> k.tx.block != b)
  {
    hide IsCanonical;
  }

  lemma InsertedInputs(t: Tables, u: Tables, b: BlockKey, txs: seq<Tx>)
    requires Inserted(t, u, b, txs) && NoRows(t, b) && WellPositioned(txs) && IsCanonical(t, b)
    requires u.log == t.log && u.blocks.Keys == t.blocks.Keys
    ensures ViewOf(u).inputs == ViewOf(t).inputs + InputsOf(b, txs)
  {
    hide TxsOf, PagesOf, OutputsOf, InputsOf, LastStatus, NoRows, WellPositioned, Counts, IsCanonical;
    var v, w := ViewOf(t).inputs + InputsOf(b, txs), ViewOf(u).inputs;
    forall r
      ensures (r in v <==> r in w) && (r in v ==> v[r] == w[r])
    {
      InsertedInput(t, u, b, txs, r);
    }
  }

  lemma InsertedInput(t: Tables, u: Tables, b: BlockKey, txs: seq<Tx>, r: RowKey)
    requires Inserted(t, u, b, txs) && NoRows(t, b) && WellPositioned(txs) && IsCanonical(t, b)
    requires u.log == t.log && u.blocks.Keys == t.blocks.Keys
    ensures r in InputsOf(b, txs) ==> Counts(u, r.tx) && r !in t.inputs
    ensures r !in InputsOf(b, txs) && r in t.inputs ==> (Counts(u, r.tx) <==> Counts(t, r.tx))
  {
    hide TxsOf, PagesOf, OutputsOf, InputsOf, LastStatus;
    InputRowsOfBody(b, txs, r);
    TxRowsOfBody(b, txs, r.tx);
  }

  lemma InsertedOutputs(t: Tables, u: Tables, b: BlockKey, txs: seq<Tx>)
    requires Inserted(t, u, b, txs) && NoRows(t, b) && WellPositioned(txs) && IsCanonical(t, b)
    requires u.log == t.log && u.blocks.Keys == t.blocks.Keys
    ensures ViewOf(u).outputs == ViewOf(t).outputs + OutputsOf(b, txs)
  {
    hide TxsOf, PagesOf, OutputsOf, InputsOf, LastStatus, NoRows, WellPositioned, Counts, IsCanonical;
    var v, w := ViewOf(t).outputs + OutputsOf(b, txs), ViewOf(u).outputs;
    forall r
      ensures (r in v <==> r in w) && (r in v ==> v[r] == w[r])
    {
      InsertedOutput(t, u, b, txs, r);
    }
  }

  lemma InsertedOutput(t: Tables, u: Tables, b: BlockKey, txs: seq<Tx>, r: RowKey)
    requires Inserted(t, u, b, txs) && NoRows(t, b) && WellPositioned(txs) && IsCanonical(t, b)
    requires u.log == t.log && u.blocks.Keys == t.blocks.Keys
    ensures r in OutputsOf(b, txs) ==> Counts(u, r.tx) && r !in t.outputs
    ensures r !in OutputsOf(b, txs) && r in t.outputs ==> (Counts(u, r.tx) <==> Counts(t, r.tx))
  {
    hide TxsOf, PagesOf, OutputsOf, InputsOf, LastStatus;
    OutputRowsOfBody(b, txs, r);
    TxRowsOfBody(b, txs, r.tx);
  }

  // ---------------------------------------------------------------- blocks pruned

  lemma PrunedHeld(t: Tables, b: BlockKey, bodyOf: Reorg.Bodies)
    requires Held(t, bodyOf)
    ensures Held(PruneBlocks(t, {b}), bodyOf)
  {
    hide HeldAt, SameRows, PruneBlocks;
    var u := PruneBlocks(t, {b});
    forall a
      ensures HeldAt(u, bodyOf, a)
    {
      assert HeldAt(t, bodyOf, a);
      PrunedRows(t, b, a);
      if a == b { EmptyIsHeld(u, bodyOf, b); } else { HeldStays(t, u, bodyOf, a); }
    }
  }

  lemma EmptyIsHeld(u: Tables, bodyOf: Reorg.Bodies, b: BlockKey)
    requires NoRows(u, b)
    ensures HeldAt(u, bodyOf, b)
  {
  }

  lemma PrunedRows(t: Tables, b: BlockKey, a: BlockKey)
    ensures var u := PruneBlocks(t, {b});
            && (a == b ==> NoRows(u, a)) && (a != b ==> SameRows(t, u, a))
            && u.blocks.Keys == t.blocks.Keys && u.slots == t.slots && u.log == t.log
  {
  }

  lemma PrunedCounts(t: Tables, b: BlockKey, k: TxKey)
    ensures Counts(PruneBlocks(t, {b}), k) <==> Counts(t, k) && k.block != b
  {
    hide LastStatus;
  }

  lemma PrunedLoses(t: Tables, b: BlockKey, h: nat)
    ensures Loses(Record(t, h), Record(PruneBlocks(t, {b}), h), b)
  {
    hide Counts;
    var u := PruneBlocks(t, {b});
    forall k ensures Counts(u, k) <==> Counts(t, k) && k.block != b { PrunedCounts(t, b, k); }
    PrunedInputs(t, u, b);
    PrunedOutputs(t, u, b);
    LosesBelow(ViewOf(t), ViewOf(u), b, h);
    hide ViewOf, Lower, Record, PruneBlocks;
  }

  lemma PrunedInputs(t: Tables, u: Tables, b: BlockKey)
    requires u.inputs == RowsOutside(t.inputs, {b}) && forall k :: Counts(u, k) <==> Counts(t, k) && k.block != b
    ensures ViewOf(u).inputs == map k | k in ViewOf(t).inputs && k.tx.block != b :: ViewOf(t).inputs[k]
  {
    hide Counts;
  }

  lemma PrunedOutputs(t: Tables, u: Tables, b: BlockKey)
    requires u.outputs == RowsOutside(t.outputs, {b}) && forall k :: Counts(u, k) <==> Counts(t, k) && k.block != b
    ensures ViewOf(u).outputs == map k | k in ViewOf(t).outputs && k.tx.block != b :: ViewOf(t).outputs[k]
  {
    hide Counts;
  }

  lemma LosesBelow(v: View, w: View, b: BlockKey, h: nat)
    requires Loses(v, w, b)
    ensures Loses(Lower(v, h), Lower(w, h), b)
  {
    BelowWithout(v.inputs, b, h);
    BelowWithout(v.outputs, b, h);
    hide Below;
  }

  lemma BelowWithout<V>(m: map<RowKey, V>, b: BlockKey, h: nat)
    ensures Below(map k | k in m && k.tx.block != b :: m[k], h) == map k | k in Below(m, h) && k.tx.block != b :: Below(m, h)[k]
  {
  }

  // ---------------------------------------------------------------- one height more

  /** Of a height's rows those of its one canonical version count. */
  lemma CountsOneUp(t: Tables, b: BlockKey, k: TxKey)
    requires HistoryOk(t) && IsCanonical(t, b) && Counts(t, k) && k.block.height == b.height
    ensures k.block == b
  {
    hide LastStatus, ClockRises;
  }

  /** A canonical block without rows adds nothing to the record. */
  lemma NextRecordMissing(t: Tables, b: BlockKey, h: nat)
    requires HistoryOk(t) && IsCanonical(t, b) && b.height == h + 1 && NoRows(t, b)
    ensures Record(t, h + 1) == Record(t, h)
  {
    hide IsCanonical, HistoryOk;
    forall r: RowKey | Counts(t, r.tx) && r.tx.block.height == h + 1
      ensures r !in t.inputs && r !in t.outputs
    {
      CountsOneUp(t, b, r.tx);
    }
    hide Counts;
  }

  /** A canonical block with its body's rows adds them, flags and all. */
  lemma NextRecordFlagged(t: Tables, m: Mined, h: nat)
    requires HistoryOk(t) && IsCanonical(t, m.key) && m.key.height == h + 1 && HoldsFlagged(t, m.key, m.body.txs)
    ensures GainsFlagged(Record(t, h), Record(t, h + 1), m)
  {
    hide IsCanonical, HistoryOk, HoldsFlagged, ViewOf, Record, InputsOf, OutputsOf;
    NextInputs(t, m, h);
    NextOutputs(t, m, h);
    RecordedBelow(t, h);
  }

  lemma RecordedBelow(t: Tables, h: nat)
    ensures forall k :: k in Record(t, h).inputs || k in Record(t, h).outputs ==> k.tx.block.height <= h
    ensures forall k :: k in Record(t, h).inputs ==> k in Record(t, h + 1).inputs && Record(t, h + 1).inputs[k] == Record(t, h).inputs[k]
    ensures forall k :: k in Record(t, h).outputs ==> k in Record(t, h + 1).outputs && Record(t, h + 1).outputs[k] == Record(t, h).outputs[k]
  {
    hide Counts;
  }

  lemma NextInputs(t: Tables, m: Mined, h: nat)
    requires HistoryOk(t) && IsCanonical(t, m.key) && m.key.height == h + 1 && HoldsFlagged(t, m.key, m.body.txs)
    ensures Record(t, h + 1).inputs == Record(t, h).inputs + InputsOf(m.key, m.body.txs)
  {
    hide IsCanonical, HistoryOk, TxsOf, PagesOf, OutputsOf, InputsOf, Counts, HoldsTxs, WellPositioned;
    var v, w := Record(t, h).inputs + InputsOf(m.key, m.body.txs), Record(t, h + 1).inputs;
    forall r
      ensures (r in v <==> r in w) && (r in v ==> v[r] == w[r])
    {
      NextInputCounts(t, m, h, r);
    }
  }

  lemma NextInputCounts(t: Tables, m: Mined, h: nat, r: RowKey)
    requires HistoryOk(t) && IsCanonical(t, m.key) && m.key.height == h + 1 && HoldsFlagged(t, m.key, m.body.txs)
    ensures r in InputsOf(m.key, m.body.txs) ==> r.tx.block == m.key && Counts(t, r.tx)
    ensures Counts(t, r.tx) && r.tx.block.height == h + 1 ==> r.tx.block == m.key
  {
    hide LastStatus, HistoryOk, TxsOf, PagesOf, OutputsOf, InputsOf, HoldsRows, HoldsUpToFlags;
    InputRowsOfBody(m.key, m.body.txs, r);
    TxRowsOfBody(m.key, m.body.txs, r.tx);
    if Counts(t, r.tx) && r.tx.block.height == h + 1 { CountsOneUp(t, m.key, r.tx); }
  }

  lemma NextOutputs(t: Tables, m: Mined, h: nat)
    requires HistoryOk(t) && IsCanonical(t, m.key) && m.key.height == h + 1 && HoldsFlagged(t, m.key, m.body.txs)
    ensures FlagsOnly(Record(t, h).outputs + OutputsOf(m.key, m.body.txs), Record(t, h + 1).outputs)
  {
    hide IsCanonical, HistoryOk, TxsOf, PagesOf, OutputsOf, InputsOf, Counts, HoldsTxs, WellPositioned;
    var v, w := Record(t, h).outputs + OutputsOf(m.key, m.body.txs), Record(t, h + 1).outputs;
    forall r
      ensures (r in v <==> r in w) && (r in v ==> w[r] == v[r].(spentInGap := w[r].spentInGap, spentInGapAt := w[r].spentInGapAt))
    {
      NextOutputCounts(t, m, h, r);
    }
  }

  lemma NextOutputCounts(t: Tables, m: Mined, h: nat, r: RowKey)
    requires HistoryOk(t) && IsCanonical(t, m.key) && m.key.height == h + 1 && HoldsFlagged(t, m.key, m.body.txs)
    ensures r in OutputsOf(m.key, m.body.txs) ==> r.tx.block == m.key && Counts(t, r.tx)
    ensures Counts(t, r.tx) && r.tx.block.height == h + 1 ==> r.tx.block == m.key
  {
    hide LastStatus, HistoryOk, TxsOf, PagesOf, OutputsOf, InputsOf, HoldsRows, HoldsUpToFlags;
    OutputRowsOfBody(m.key, m.body.txs, r);
    TxRowsOfBody(m.key, m.body.txs, r.tx);
    if Counts(t, r.tx) && r.tx.block.height == h + 1 { CountsOneUp(t, m.key, r.tx); }
  }

  // ---------------------------------------------------------------- flags cleared

  lemma FlagsHeld(t: Tables, u: Tables, bodyOf: Reorg.Bodies)
    requires Held(t, bodyOf) && u == t.(slots := u.slots, outputs := u.outputs) && FlagsOnly(t.outputs, u.outputs)
    ensures Held(u, bodyOf)
  {
    hide TxsOf, PagesOf, InputsOf, OutputsOf, WellPositioned, HoldsTxs, HoldsRows;
    forall b
      ensures HeldAt(u, bodyOf, b)
    {
      assert HeldAt(t, bodyOf, b);
    }
  }

  lemma ClearingIsFlags(t: Tables)
    ensures var u := ClearFlags(t);
            && u == t.(slots := u.slots, outputs := u.outputs) && u.slots == t.slots && FlagsOnly(t.outputs, u.outputs)
            && forall k :: k in t.outputs && !t.outputs[k].spentInGap ==> !u.outputs[k].spentInGap
  {
    ClearedRows(t);
    hide Clearable, ClearFlags;
    OnlyOutputsCleared(t);
  }

  lemma OnlyOutputsCleared(t: Tables)
    ensures var u := ClearFlags(t); u == t.(slots := u.slots, outputs := u.outputs) && u.slots == t.slots
  {
    hide Clearable;
  }

  lemma ClearedRows(t: Tables)
    ensures var u := ClearFlags(t);
            && u.outputs.Keys == t.outputs.Keys
            && forall k :: k in t.outputs ==> u.outputs[k] == t.outputs[k].(spentInGap := u.outputs[k].spentInGap, spentInGapAt := u.outputs[k].spentInGapAt)
                                              && (!t.outputs[k].spentInGap ==> !u.outputs[k].spentInGap)
  {
    OnlyFlaggedClear(t);
    hide Clearable;
  }

  lemma OnlyFlaggedClear(t: Tables)
    ensures forall k :: k in t.outputs && Clearable(t, k) ==> t.outputs[k].spentInGap
  {
    hide ViewOf;
  }

  /** Clearing flags changes nothing else of the record. */
  lemma ClearedRecord(t: Tables, h: nat)
    ensures Clears(Record(t, h), Record(ClearFlags(t), h))
  {
    hide ClearFlags, Counts;
    var u := ClearFlags(t);
    ClearingIsFlags(t);
    SameKeys(t.outputs, u.outputs);
    ViewAfterFlags(t, u);
    ClearsBelow(ViewOf(t), ViewOf(u), t.outputs, u.outputs, h);
    hide ViewOf, FlagsOnly;
  }

  lemma ClearsBelow(v: View, w: View, a: map<RowKey, OutputRow>, b: map<RowKey, OutputRow>, h: nat)
    requires w == v.(outputs := map k | k in v.outputs && k in b :: b[k]) && v.outputs.Keys <= a.Keys && FlagsOnly(a, b)
    requires forall k :: k in v.outputs ==> v.outputs[k] == a[k]
    requires forall k :: k in a && !a[k].spentInGap ==> !b[k].spentInGap
    ensures Clears(Lower(v, h), Lower(w, h))
  {
  }
}
