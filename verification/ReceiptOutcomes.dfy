/**
  What an import makes of a receipt (permanode/src/receipts.rs, `import_one`;
  core/src/db.rs, `insert_receipt_transaction`): each outcome by the facts it stands for,
  and what the rows of an imported one hold.
 */
module ReceiptOutcomes {
  import opened Wrappers
  import opened Tables
  import opened Receipts

  /** The node confirmed this very receipt: its proof, its place on the chain, and all it claims, under the txid it is filed under. */
  ghost predicate Confirmed(entry: Entry, d: Decoded, verdict: Option<Verdict>) {
    && (entry.key.None? || entry.key.value == d.tx.txid)
    && verdict.Some? && verdict.value.merkleValid && verdict.value.canonical == Some(true) && verdict.value.summary == Some(d.summary)
  }

  lemma NoObjectionWhen(entry: Entry, d: Decoded, verdict: Option<Verdict>)
    ensures Objection(entry, d, verdict).None? <==> Confirmed(entry, d, verdict)
  {
  }

  /** The block on record at the receipt's height is known by its header alone, and is the block the receipt names. */
  ghost predicate FitsHeader(t: Tables, d: Decoded, b: BlockKey) {
    && CanonicalAt(t.log, d.height) == Some(b) && b in t.blocks && t.blocks[b].source == Some("header")
    && t.blocks[b].txRoot == d.txRoot && t.blocks[b].timestamp % 0x1_0000_0000_0000_0000 == d.timestamp
  }

  /** A place after the coinbase, in a block of a size no other receipt disputes. */
  ghost predicate FitsPlace(t: Tables, d: Decoded, b: BlockKey)
    requires b in t.blocks
  {
    0 < d.tx.position < d.tx.txCount && (t.blocks[b].txCount == None || t.blocks[b].txCount == Some(d.tx.txCount))
  }

  /** On record at its place, from a receipt before. */
  ghost predicate Known(t: Tables, d: Decoded, b: BlockKey) {
    var k := TxKey(b, d.tx.position);
    k in t.txs && t.txs[k].txid == d.tx.txid && t.txs[k].source == Some("receipt")
  }

  /** The archive's own block stands at the receipt's height. */
  ghost predicate ArchiveBlock(t: Tables, d: Decoded, b: BlockKey) {
    CanonicalAt(t.log, d.height) == Some(b) && !(b in t.blocks && t.blocks[b].source == Some("header"))
  }

  ghost predicate Written(t: Tables, d: Decoded, b: BlockKey) {
    FitsHeader(t, d, b) && FitsPlace(t, d, b) && TxKey(b, d.tx.position) !in t.txs
  }

  ghost predicate WrittenBefore(t: Tables, d: Decoded, b: BlockKey) {
    FitsHeader(t, d, b) && FitsPlace(t, d, b) && Known(t, d, b)
  }

  /** Imported: confirmed, for a header-only block it fits, at a free place. Found again: at its own place. */
  lemma ImportedWhen(t: Tables, entry: Entry, d: Decoded, verdict: Option<Verdict>)
    ensures var r := ImportOne(t, entry, d, verdict).outcome;
            && (r == Imported <==> Confirmed(entry, d, verdict) && exists b :: Written(t, d, b))
            && (r == AlreadyImported <==> Confirmed(entry, d, verdict) && exists b :: WrittenBefore(t, d, b))
  {
    hide CanonicalAt, WithReceipt, Lists, Objection, Confirmed;
    NoObjectionWhen(entry, d, verdict);
    var r := CanonicalAt(t.log, d.height);
    if r.Some? {
      PlaceDecides(t, d, r.value);
      assert forall b :: Written(t, d, b) || WrittenBefore(t, d, b) ==> b == r.value;
      assert Written(t, d, r.value) || !Written(t, d, r.value);
      assert WrittenBefore(t, d, r.value) || !WrittenBefore(t, d, r.value);
    }
  }

  /** What the place in a header-only block decides. */
  lemma PlaceDecides(t: Tables, d: Decoded, b: BlockKey)
    ensures IsHeaderOnly(t, b) <==> b in t.blocks && t.blocks[b].source == Some("header")
    ensures IsHeaderOnly(t, b) ==>
              match InsertReceipt(t, b, d.tx)
              case Success(r) => FitsPlace(t, d, b) && (if r.written then TxKey(b, d.tx.position) !in t.txs else Known(t, d, b))
              case Failure(_) => !FitsPlace(t, d, b) || (TxKey(b, d.tx.position) in t.txs && !Known(t, d, b))
  {
    hide WithReceipt;
  }

  /** The archive answers for its own blocks: a gap while the body is missing, and otherwise whether it lists the txid. */
  lemma NotImportedWhen(t: Tables, entry: Entry, d: Decoded, verdict: Option<Verdict>)
    ensures var r := ImportOne(t, entry, d, verdict).outcome;
            && (r == NoHeader <==> Confirmed(entry, d, verdict) && CanonicalAt(t.log, d.height) == None)
            && (r == Gap <==> Confirmed(entry, d, verdict) && exists b :: ArchiveBlock(t, d, b) && b in t.blocks && !t.blocks[b].captured)
            && (forall recorded :: r == InArchive(recorded) <==>
                  Confirmed(entry, d, verdict)
                  && exists b :: ArchiveBlock(t, d, b) && !(b in t.blocks && !t.blocks[b].captured)
                                 && (recorded <==> exists p: nat :: TxKey(b, p) in t.txs && t.txs[TxKey(b, p)].txid == d.tx.txid))
  {
    hide CanonicalAt, InsertReceipt, Objection, Confirmed, Lists;
    NoObjectionWhen(entry, d, verdict);
    var r := CanonicalAt(t.log, d.height);
    if r.Some? {
      var b := r.value;
      ListsWhen(t, b, d.tx.txid);
      assert ArchiveBlock(t, d, b) <==> !IsHeaderOnly(t, b);
      assert forall a :: ArchiveBlock(t, d, a) ==> a == b;
    }
  }

  lemma ListsWhen(t: Tables, b: BlockKey, txid: string)
    ensures Lists(t, b, txid) <==> exists p: nat :: TxKey(b, p) in t.txs && t.txs[TxKey(b, p)].txid == txid
  {
    if Lists(t, b, txid) {
      var k :| k in t.txs && k.block == b && t.txs[k].txid == txid;
      assert TxKey(b, k.position) == k;
    }
  }

  /** Each refusal by what is wrong, the first of them if several are. */
  lemma RefusedWhen(t: Tables, entry: Entry, d: Decoded, verdict: Option<Verdict>)
    ensures var r := ImportOne(t, entry, d, verdict).outcome;
            && (entry.key.Some? && entry.key.value != d.tx.txid ==> r == Rejected(OtherKey))
            && ((entry.key.None? || entry.key.value == d.tx.txid) ==>
                  && (verdict.None? ==> r == Rejected(NotChecked))
                  && (verdict.Some? && !verdict.value.merkleValid ==> r == Rejected(BadProof))
                  && (verdict.Some? && verdict.value.merkleValid && verdict.value.canonical != Some(true) ==> r == Rejected(NotOnChain))
                  && (verdict.Some? && verdict.value.merkleValid && verdict.value.canonical == Some(true) && verdict.value.summary != Some(d.summary)
                      ==> r == Rejected(OtherData)))
            && (Confirmed(entry, d, verdict) ==> forall b ::
                  CanonicalAt(t.log, d.height) == Some(b) && b in t.blocks && t.blocks[b].source == Some("header") ==>
                    && (!FitsHeader(t, d, b) ==> r == Rejected(OtherHeader))
                    && (FitsHeader(t, d, b) && !(0 < d.tx.position < d.tx.txCount) ==> r == Rejected(BadPosition))
                    && (FitsHeader(t, d, b) && 0 < d.tx.position < d.tx.txCount && !FitsPlace(t, d, b) ==> r == Rejected(OtherCount))
                    && (FitsHeader(t, d, b) && FitsPlace(t, d, b) && TxKey(b, d.tx.position) in t.txs && !Known(t, d, b) ==> r == Rejected(PositionHeld)))
  {
    hide CanonicalAt, WithReceipt, Lists;
  }

  // ---------------------------------------------------------------- what is written

  /** The imported transaction, column by column. */
  ghost predicate HoldsReceipt(t: Tables, u: Tables, b: BlockKey, tx: ReceiptTx)
    requires b in t.blocks
  {
    var k := TxKey(b, tx.position);
    && k in u.txs && u.txs[k].txid == tx.txid && u.txs[k].pageCount == tx.pageCount && u.txs[k].fee == AsI64(tx.fee)
    && !u.txs[k].coinbase && !u.txs[k].developmentPayout && u.txs[k].epochAnchor == tx.epochAnchor
    && u.txs[k].inputOwner == Some(tx.inputOwner) && u.txs[k].inputSum == tx.inputSum && u.txs[k].outputSum == tx.outputSum
    && u.txs[k].source == Some("receipt")
    && (forall i: nat :: i < |tx.pageHashes| ==> RowKey(k, i) in u.pages && u.pages[RowKey(k, i)] == tx.pageHashes[i])
    && (forall i: nat :: i < |tx.inputs| ==> RowKey(k, i) in u.inputs && InputIs(u.inputs[RowKey(k, i)], tx.inputs[i]))
    && (forall i: nat :: i < |tx.outputs| ==> RowKey(k, i) in u.outputs && OutputIs(u.outputs[RowKey(k, i)], tx.outputs[i]))
    && k in u.receipts && u.receipts[k] == tx.hex
    && b in u.blocks && u.blocks[b] == t.blocks[b].(txCount := Some(tx.txCount))
  }

  predicate InputIs(row: InputRow, i: Input) {
    row.page == i.page && row.lane == i.lane && row.slot == AsI64(i.slot) && row.amount == AsI64(i.amount) && row.creationId == Decimal(i.creationId)
  }

  /** A receipt knows no creation ids, and nothing of the sweep. */
  predicate OutputIs(row: OutputRow, o: ReceiptOutput) {
    && row.page == o.page && row.lane == o.lane && row.slot == AsI64(o.slot) && row.amount == AsI64(o.amount) && row.owner == o.owner
    && row.creationId == None && !row.spentInGap && row.spentInGapAt == None
  }

  lemma WrittenHolds(t: Tables, b: BlockKey, tx: ReceiptTx)
    requires b in t.blocks
    ensures HoldsReceipt(t, WithReceipt(t, b, tx), b, tx)
  {
    TransactionIs(tx);
    InputsAre(t, b, tx);
    OutputsAre(t, b, tx);
    hide Decimal, AsI64, InputRows, ReceiptOutputRows, ReceiptTxRow, InputIs, OutputIs;
  }

  lemma TransactionIs(tx: ReceiptTx)
    ensures var row := ReceiptTxRow(tx);
            && row.txid == tx.txid && row.pageCount == tx.pageCount && row.fee == AsI64(tx.fee)
            && !row.coinbase && !row.developmentPayout && row.epochAnchor == tx.epochAnchor
            && row.inputOwner == Some(tx.inputOwner) && row.inputSum == tx.inputSum && row.outputSum == tx.outputSum && row.source == Some("receipt")
  {
    hide AsI64;
  }

  lemma InputsAre(t: Tables, b: BlockKey, tx: ReceiptTx)
    requires b in t.blocks
    ensures var u, k := WithReceipt(t, b, tx), TxKey(b, tx.position);
            forall i: nat :: i < |tx.inputs| ==> RowKey(k, i) in u.inputs && InputIs(u.inputs[RowKey(k, i)], tx.inputs[i])
  {
    hide Decimal, AsI64, PageRows, ReceiptOutputRows, ReceiptTxRow;
  }

  lemma OutputsAre(t: Tables, b: BlockKey, tx: ReceiptTx)
    requires b in t.blocks
    ensures var u, k := WithReceipt(t, b, tx), TxKey(b, tx.position);
            forall i: nat :: i < |tx.outputs| ==> RowKey(k, i) in u.outputs && OutputIs(u.outputs[RowKey(k, i)], tx.outputs[i])
  {
    hide Decimal, AsI64, PageRows, InputRows, ReceiptTxRow;
  }

  /** And of a receipt that is imported: its rows, and every row of every other transaction as it was. */
  lemma ImportedHolds(t: Tables, entry: Entry, d: Decoded, verdict: Option<Verdict>)
    requires ImportOne(t, entry, d, verdict).outcome == Imported
    ensures CanonicalAt(t.log, d.height).Some? && CanonicalAt(t.log, d.height).value in t.blocks
    ensures var u, b := ImportOne(t, entry, d, verdict).after, CanonicalAt(t.log, d.height).value;
            && HoldsReceipt(t, u, b, d.tx)
            && (forall k :: k in t.txs ==> k in u.txs && u.txs[k] == t.txs[k])
            && (forall r :: r in t.pages && r.tx != TxKey(b, d.tx.position) ==> r in u.pages && u.pages[r] == t.pages[r])
            && (forall r :: r in t.inputs && r.tx != TxKey(b, d.tx.position) ==> r in u.inputs && u.inputs[r] == t.inputs[r])
            && (forall r :: r in t.outputs && r.tx != TxKey(b, d.tx.position) ==> r in u.outputs && u.outputs[r] == t.outputs[r])
            && (forall a :: a in t.blocks && a != b ==> a in u.blocks && u.blocks[a] == t.blocks[a])
            && u.log == t.log && u.gaps == t.gaps && u.slots == t.slots && u.cursor == t.cursor && u.progress == t.progress
  {
    hide CanonicalAt, WithReceipt, Lists, Objection, HoldsReceipt;
    var b := CanonicalAt(t.log, d.height).value;
    WrittenHolds(t, b, d.tx);
    WrittenElsewhere(t, b, d.tx);
  }

  lemma WrittenElsewhere(t: Tables, b: BlockKey, tx: ReceiptTx)
    requires b in t.blocks && TxKey(b, tx.position) !in t.txs
    ensures var u := WithReceipt(t, b, tx);
            && (forall k :: k in t.txs ==> k in u.txs && u.txs[k] == t.txs[k])
            && (forall r :: r in t.pages && r.tx != TxKey(b, tx.position) ==> r in u.pages && u.pages[r] == t.pages[r])
            && (forall r :: r in t.inputs && r.tx != TxKey(b, tx.position) ==> r in u.inputs && u.inputs[r] == t.inputs[r])
            && (forall r :: r in t.outputs && r.tx != TxKey(b, tx.position) ==> r in u.outputs && u.outputs[r] == t.outputs[r])
            && (forall a :: a in t.blocks && a != b ==> a in u.blocks && u.blocks[a] == t.blocks[a])
            && u.log == t.log && u.gaps == t.gaps && u.slots == t.slots && u.cursor == t.cursor && u.progress == t.progress
  {
    hide Decimal, AsI64, InputRowOf, ReceiptOutputRow, ReceiptTxRow;
  }

  /** Of a list, an entry that stood there before is a duplicate, whatever came of it, and one that does not decode is refused. */
  lemma EntryOutcome(t: Tables, entries: seq<Entry>, i: nat, asked: Asked)
    requires i < |entries|
    ensures var r := ImportEntry(t, entries, i, asked);
            && (r.outcome == Duplicate <==> exists j :: 0 <= j < i && entries[j] == entries[i])
            && (r.outcome == Duplicate ==> r.after == t)
            && ((forall j :: 0 <= j < i ==> entries[j] != entries[i]) ==>
                  if asked.decode(entries[i].hex).None? then r.outcome == Rejected(NotDecoded) && r.after == t
                  else r == ImportOne(t, entries[i], asked.decode(entries[i].hex).value, asked.verify(i, entries[i].hex)))
  {
    hide InsertReceipt, CanonicalAt, Objection, Lists;
  }
}
