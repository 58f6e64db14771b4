/**
  What the archive's figures are computed from: the recorded rows of canonical blocks
  (the joins and filters of core/src/db.rs and core/src/queries.rs). Every figure below
  is a function of this view, so two databases with equal views report equal figures.
 */
module View {
  import opened Wrappers
  import opened Tables

  /** The transaction was recorded from a block body, and its block is canonical. */
  predicate Counts(t: Tables, k: TxKey) {
    k in t.txs && t.txs[k].source != Some(RECEIPT) && IsCanonical(t, k.block)
  }

  datatype View = View(txs: map<TxKey, TxRow>, inputs: map<RowKey, InputRow>, outputs: map<RowKey, OutputRow>)

  function ViewOf(t: Tables): View {
    View(map k | k in t.txs && Counts(t, k) :: t.txs[k],
         map k | k in t.inputs && Counts(t, k.tx) :: t.inputs[k],
         map k | k in t.outputs && Counts(t, k.tx) :: t.outputs[k])
  }

  /** Some input in a canonical block at or below `h` spends the coin. */
  predicate Spent(v: View, creationId: string, h: nat) {
    exists k | k in v.inputs :: v.inputs[k].creationId == creationId && k.tx.block.height <= h
  }

  predicate OutputSpent(v: View, row: OutputRow, h: nat) {
    row.creationId.Some? && Spent(v, row.creationId.value, h)
  }

  /** Recorded, unspent and not flagged as spent in a gap. */
  predicate LiveOutput(v: View, k: RowKey, h: nat) {
    && k in v.outputs && k.tx.block.height <= h
    && !v.outputs[k].spentInGap && !OutputSpent(v, v.outputs[k], h)
  }

  predicate LiveSlot(v: View, slots: map<nat, SlotRow>, s: nat, h: nat) {
    s in slots && !Spent(v, slots[s].creationId, h)
  }

  // ---------------------------------------------------------------- the picture of the live state

  datatype Coin = Coin(slot: int, creationId: string, owner: string, amount: int)

  /** One row of the picture: a recorded output or a slot of the sweep's own. */
  datatype PictureRow = Recorded(key: RowKey) | Own(slot: nat)

  predicate InPicture(v: View, slots: map<nat, SlotRow>, row: PictureRow, h: nat) {
    match row
    case Recorded(k) => LiveOutput(v, k, h)
    case Own(s) => LiveSlot(v, slots, s, h)
  }

  predicate Known(v: View, slots: map<nat, SlotRow>, row: PictureRow) {
    match row case Recorded(k) => k in v.outputs case Own(s) => s in slots
  }

  function CoinOf(v: View, slots: map<nat, SlotRow>, row: PictureRow): Coin
    requires Known(v, slots, row)
  {
    match row
    case Recorded(k) =>
      var o := v.outputs[k];
      Coin(o.slot, if o.creationId.Some? then o.creationId.value else "", o.owner, o.amount)
    case Own(s) => Coin(s, slots[s].creationId, slots[s].owner, slots[s].amount)
  }

  /** The segment a row is counted in: by slot index, or by the segment it was read with. */
  function SegmentOf(v: View, slots: map<nat, SlotRow>, row: PictureRow, size: nat): int
    requires size > 0
    requires Known(v, slots, row)
  {
    match row
    case Recorded(k) => v.outputs[k].slot / size
    case Own(s) => slots[s].segment
  }

  function Picture(v: View, slots: map<nat, SlotRow>, h: nat): set<PictureRow> {
    (set k | k in v.outputs && LiveOutput(v, k, h) :: Recorded(k)) + (set s | s in slots && LiveSlot(v, slots, s, h) :: Own(s))
  }

  lemma PictureMembers(v: View, slots: map<nat, SlotRow>, h: nat)
    ensures forall row :: row in Picture(v, slots, h) <==> InPicture(v, slots, row, h)
  {
    forall row
      ensures row in Picture(v, slots, h) <==> InPicture(v, slots, row, h)
    {
      match row
      case Recorded(k) =>
      case Own(s) =>
    }
  }

  /** Slots live in the segment their index falls into. */
  ghost predicate SegmentsAgree(slots: map<nat, SlotRow>, size: nat)
    requires size > 0
  {
    forall s :: s in slots ==> slots[s].segment == s / size
  }

  // ---------------------------------------------------------------- reads of the sweep

  predicate InRange(slot: int, lo: nat, hi: nat) {
    lo <= slot < hi
  }

  /** Creation ids of every recorded output in the range, spent or not. */
  function RecordedIds(v: View, lo: nat, hi: nat): set<string> {
    set k | k in v.outputs && InRange(v.outputs[k].slot, lo, hi) && v.outputs[k].creationId.Some? :: v.outputs[k].creationId.value
  }

  /** Unspent, unflagged recorded outputs in the range. */
  function UnspentRecorded(v: View, h: nat, lo: nat, hi: nat): set<RowKey> {
    set k | k in v.outputs && LiveOutput(v, k, h) && InRange(v.outputs[k].slot, lo, hi)
  }
}
