/**
  The permanode's database (core/src/db.rs): rows, keys and the statements that write
  them. A row is identified by its table's UNIQUE key; the log id is its position in
  the log. One value of `Tables` is what one committed transaction sees.
 */
module Tables {
  import opened Wrappers

  const U64 := 0x1_0000_0000_0000_0000
  const I64_MAX := 0x7FFF_FFFF_FFFF_FFFF
  const HEADER_ONLY := "header"
  const RECEIPT := "receipt"

  type u64 = x: int | 0 <= x < U64
  type u32 = x: int | 0 <= x < 0x1_0000_0000

  /** SQLite stores 64-bit signed integers; the program casts on the way in and out. */
  function AsI64(x: u64): int {
    if x <= I64_MAX then x else x - U64
  }

  function AsU64(x: int): u64 {
    x % U64
  }

  lemma CastsRoundTrip(x: u64)
    ensures AsU64(AsI64(x)) == x
  {
  }

  // ---------------------------------------------------------------- what the node answers

  datatype Header = Header(height: u64, hash: string, prevHash: string, txRoot: string, timestamp: u64, miner: string, logSlots: u32)
  datatype Input = Input(page: u32, lane: u32, slot: u64, amount: u64, creationId: u64)
  datatype Output = Output(page: u32, lane: u32, slot: u64, amount: u64, owner: string, creationId: u64)
  datatype Tx = Tx(position: u32, txid: string, pageCount: u32, liveInputs: u32, liveOutputs: u32, fee: u64,
                   coinbase: bool, developmentPayout: bool, epochAnchor: string, inputOwner: Option<string>,
                   inputSum: string, outputSum: string, pageHashes: seq<string>, inputs: seq<Input>, outputs: seq<Output>)
  datatype Body = Body(proofClass: string, logicalTransactions: u32, userPages: u32, liveInputs: u32, liveOutputs: u32,
                       reward: u64, totalFees: string, blockBytes: u64, txs: seq<Tx>)

  // ---------------------------------------------------------------- rows

  datatype BlockKey = BlockKey(height: nat, hash: string)
  datatype TxKey = TxKey(block: BlockKey, position: nat)
  datatype RowKey = RowKey(tx: TxKey, idx: nat)

  datatype BlockRow = BlockRow(prevHash: string, txRoot: string, timestamp: int, miner: string, logSlots: nat,
                               captured: bool, source: Option<string>, proofClass: Option<string>,
                               reward: Option<int>, totalFees: Option<string>, txCount: Option<nat>)
  datatype Status = Canonical | Orphaned
  datatype StatusEntry = StatusEntry(block: BlockKey, status: Status, at: nat)
  datatype TxRow = TxRow(txid: string, pageCount: nat, fee: int, coinbase: bool, developmentPayout: bool, epochAnchor: string,
                         inputOwner: Option<string>, inputSum: string, outputSum: string, source: Option<string>)
  datatype InputRow = InputRow(page: nat, lane: nat, slot: int, amount: int, creationId: string)
  datatype OutputRow = OutputRow(page: nat, lane: nat, slot: int, amount: int, owner: string, creationId: Option<string>,
                                 spentInGap: bool, spentInGapAt: Option<nat>)
  datatype GapRow = GapRow(hash: Option<string>, detectedAt: nat, resolvedAt: Option<nat>)
  datatype SlotRow = SlotRow(segment: nat, creationId: string, owner: string, amount: int, seenHeight: nat)
  datatype Progress = Next(height: nat) | Done

  datatype Tables = Tables(
    blocks: map<BlockKey, BlockRow>,
    log: seq<StatusEntry>,
    txs: map<TxKey, TxRow>,
    pages: map<RowKey, string>,
    inputs: map<RowKey, InputRow>,
    outputs: map<RowKey, OutputRow>,
    receipts: map<TxKey, string>,
    gaps: map<nat, GapRow>,
    slots: map<nat, SlotRow>,
    cursor: Option<nat>,
    progress: Option<Progress>)

  const EMPTY := Tables(map[], [], map[], map[], map[], map[], map[], map[], map[], None, None)

  predicate Archived(row: BlockRow) {
    row.source != Some(HEADER_ONLY)
  }

  predicate IsHeaderOnly(t: Tables, b: BlockKey) {
    b in t.blocks && !Archived(t.blocks[b])
  }

  // ---------------------------------------------------------------- canonical status

  /** The status of a block's entry with the largest log id. */
  function LastStatus(log: seq<StatusEntry>, b: BlockKey): Option<Status> {
    if log == [] then None
    else if log[|log| - 1].block == b then Some(log[|log| - 1].status)
    else LastStatus(log[..|log| - 1], b)
  }

  /** The filter every query uses. */
  predicate IsCanonical(t: Tables, b: BlockKey) {
    b in t.blocks && LastStatus(t.log, b) == Some(Canonical)
  }

  /** Entry `i` is a canonical one observed no earlier than any other of its block. */
  predicate NewestCanonical(log: seq<StatusEntry>, i: nat)
    requires i < |log|
  {
    log[i].status == Canonical && forall j | 0 <= j < |log| :: log[j].block == log[i].block ==> log[j].at <= log[i].at
  }

  /** The largest log id below `n` that `canonical_hash_at` accepts for height `h`. */
  function LastCandidate(log: seq<StatusEntry>, h: nat, n: nat): (r: Option<nat>)
    requires n <= |log|
    ensures r.Some? ==> r.value < n && log[r.value].block.height == h && NewestCanonical(log, r.value)
    ensures r.None? ==> forall i :: 0 <= i < n && log[i].block.height == h ==> !NewestCanonical(log, i)
  {
    if n == 0 then None
    else if log[n - 1].block.height == h && NewestCanonical(log, n - 1) then Some(n - 1)
    else LastCandidate(log, h, n - 1)
  }

  /** `canonical_hash_at`: by the largest observation time of each block, then by log id. */
  function CanonicalAt(log: seq<StatusEntry>, h: nat): Option<BlockKey> {
    var i := LastCandidate(log, h, |log|);
    if i.Some? then Some(log[i.value].block) else None
  }

  // ---------------------------------------------------------------- statements

  function AppendStatus(t: Tables, b: BlockKey, status: Status, now: nat): Tables {
    t.(log := t.log + [StatusEntry(b, status, now)])
  }

  function MarkOrphaned(t: Tables, b: BlockKey, now: nat): Tables {
    AppendStatus(t, b, Orphaned, now)
  }

  function KeyOf(h: Header): BlockKey {
    BlockKey(h.height, h.hash)
  }

  function HeaderRow(h: Header, captured: bool, source: Option<string>): BlockRow {
    BlockRow(h.prevHash, h.txRoot, AsI64(h.timestamp), h.miner, h.logSlots, captured, source, None, None, None, None)
  }

  /** ON CONFLICT(height, hash) DO NOTHING, then a canonical entry either way. */
  function InsertBlockHeaderRow(t: Tables, h: Header, captured: bool, source: Option<string>, now: nat): Tables {
    var b := KeyOf(h);
    AppendStatus(if b in t.blocks then t else t.(blocks := t.blocks[b := HeaderRow(h, captured, source)]), b, Canonical, now)
  }

  function RecordGap(t: Tables, h: nat, hash: Option<string>, now: nat): Tables {
    if h in t.gaps then t else t.(gaps := t.gaps[h := GapRow(hash, now, None)])
  }

  function ResolveGap(t: Tables, h: nat, now: nat): Tables {
    if h in t.gaps && t.gaps[h].resolvedAt.None? then t.(gaps := t.gaps[h := t.gaps[h].(resolvedAt := Some(now))]) else t
  }

  /** The canonical archive block at the height has its body. */
  predicate BodyOnRecord(t: Tables, h: nat) {
    exists b | b in t.blocks :: b.height == h && t.blocks[b].captured && Archived(t.blocks[b]) && IsCanonical(t, b)
  }

  /** Closes the gap entries whose canonical block has a body after all. */
  function ResolveGapsWithBodies(t: Tables, now: nat): Tables {
    t.(gaps := map h | h in t.gaps ::
         if t.gaps[h].resolvedAt.None? && BodyOnRecord(t, h) then t.gaps[h].(resolvedAt := Some(now)) else t.gaps[h])
  }

  /** The row `(height, hash)` if its body is missing and it belongs to the archive. */
  predicate Uncaptured(t: Tables, b: BlockKey) {
    b in t.blocks && !t.blocks[b].captured && Archived(t.blocks[b])
  }

  function MarkBodyRecovered(t: Tables, b: BlockKey, source: string): Tables
    requires b in t.blocks
  {
    t.(blocks := t.blocks[b := t.blocks[b].(captured := true, source := Some(source))])
  }

  // ---------------------------------------------------------------- decimal text

  function Digit(d: nat): char
    requires d < 10
  {
    ('0' as int + d) as char
  }

  function Decimal(n: nat): (s: string)
    ensures |s| >= 1
  {
    if n < 10 then [Digit(n)] else Decimal(n / 10) + [Digit(n % 10)]
  }

  function DigitsValue(s: string): Option<nat> {
    if s == [] then Some(0) else
      var last := s[|s| - 1];
      match DigitsValue(s[..|s| - 1])
      case None => None
      case Some(v) => if '0' <= last <= '9' then Some(10 * v + (last as int - '0' as int)) else None
  }

  /** Parsing an unsigned 64-bit number: digits, optionally after a plus sign. */
  function ParseU64(s: string): Option<u64> {
    var digits := if |s| > 1 && s[0] == '+' then s[1..] else s;
    if digits == [] then None else
      match DigitsValue(digits)
      case None => None
      case Some(v) => if v < U64 then Some(v) else None
  }

  lemma {:induction false} DecimalDigits(n: nat)
    ensures DigitsValue(Decimal(n)) == Some(n)
    ensures '0' <= Decimal(n)[0] <= '9'
  {
    if n < 10 {
      assert Decimal(n)[..0] == [];
    } else {
      DecimalDigits(n / 10);
      assert Decimal(n)[..|Decimal(n)| - 1] == Decimal(n / 10);
    }
  }

  lemma DecimalParses(n: u64)
    ensures ParseU64(Decimal(n)) == Some(n)
  {
    DecimalDigits(n);
  }

  lemma DecimalInjective(a: nat, b: nat)
    requires Decimal(a) == Decimal(b)
    ensures a == b
  {
    DecimalDigits(a);
    DecimalDigits(b);
  }

  lemma DecimalsDiffer(a: nat, b: nat)
    requires a != b
    ensures Decimal(a) != Decimal(b)
  {
    if Decimal(a) == Decimal(b) { DecimalInjective(a, b); }
  }

  // ---------------------------------------------------------------- bodies

  function LowerAscii(c: char): char {
    if 'A' <= c <= 'Z' then (c as int + 32) as char else c
  }

  /** `LIKE '%unavailable%'`: contained somewhere, ASCII case ignored. */
  predicate LikeUnavailable(s: string) {
    exists i | 0 <= i <= |s| :: MatchesAt(s, i, "unavailable")
  }

  predicate MatchesAt(s: string, i: nat, word: string) {
    i + |word| <= |s| && forall j | 0 <= j < |word| :: LowerAscii(s[i + j]) == word[j]
  }

  function TxRowOf(tx: Tx): TxRow {
    TxRow(tx.txid, tx.pageCount, AsI64(tx.fee), tx.coinbase, tx.developmentPayout, tx.epochAnchor, tx.inputOwner, tx.inputSum, tx.outputSum, None)
  }

  function InputRowOf(i: Input): InputRow {
    InputRow(i.page, i.lane, AsI64(i.slot), AsI64(i.amount), Decimal(i.creationId))
  }

  function OutputRowOf(o: Output): OutputRow {
    OutputRow(o.page, o.lane, AsI64(o.slot), AsI64(o.amount), o.owner, Some(Decimal(o.creationId)), false, None)
  }

  function TxsOf(b: BlockKey, txs: seq<Tx>): map<TxKey, TxRow> {
    if txs == [] then map[] else
      var last := txs[|txs| - 1];
      map[TxKey(b, last.position) := TxRowOf(last)] + TxsOf(b, txs[..|txs| - 1])
  }

  function PageRows(k: TxKey, hashes: seq<string>): map<RowKey, string> {
    map i | 0 <= i < |hashes| :: RowKey(k, i) := hashes[i]
  }

  function InputRows(k: TxKey, inputs: seq<Input>): map<RowKey, InputRow> {
    map i | 0 <= i < |inputs| :: RowKey(k, i) := InputRowOf(inputs[i])
  }

  function OutputRows(k: TxKey, outputs: seq<Output>): map<RowKey, OutputRow> {
    map i | 0 <= i < |outputs| :: RowKey(k, i) := OutputRowOf(outputs[i])
  }

  // The first row inserted under a key stays (ON CONFLICT DO NOTHING, INSERT OR IGNORE).

  function PagesOf(b: BlockKey, txs: seq<Tx>): map<RowKey, string> {
    if txs == [] then map[] else
      var last := txs[|txs| - 1];
      PageRows(TxKey(b, last.position), last.pageHashes) + PagesOf(b, txs[..|txs| - 1])
  }

  function InputsOf(b: BlockKey, txs: seq<Tx>): map<RowKey, InputRow> {
    if txs == [] then map[] else
      var last := txs[|txs| - 1];
      InputRows(TxKey(b, last.position), last.inputs) + InputsOf(b, txs[..|txs| - 1])
  }

  function OutputsOf(b: BlockKey, txs: seq<Tx>): map<RowKey, OutputRow> {
    if txs == [] then map[] else
      var last := txs[|txs| - 1];
      OutputRows(TxKey(b, last.position), last.outputs) + OutputsOf(b, txs[..|txs| - 1])
  }

  /** A known proof class is never replaced by the node's "unavailable". */
  function KeptProofClass(known: Option<string>, offered: string): string {
    if LikeUnavailable(offered) && known.Some? then known.value else offered
  }

  function InsertTransactions(t: Tables, b: BlockKey, body: Body): Tables
    requires b in t.blocks
  {
    var row := t.blocks[b];
    t.(blocks := t.blocks[b := row.(proofClass := Some(KeptProofClass(row.proofClass, body.proofClass)),
                                    reward := Some(AsI64(body.reward)), totalFees := Some(body.totalFees))],
       txs := TxsOf(b, body.txs) + t.txs,
       pages := PagesOf(b, body.txs) + t.pages,
       inputs := InputsOf(b, body.txs) + t.inputs,
       outputs := OutputsOf(b, body.txs) + t.outputs)
  }

  /** Stores a block whose body is available; upgrades a canonical row without a body in place. */
  function StoreBlock(t: Tables, h: Header, body: Body, source: string, now: nat): Tables {
    var b := KeyOf(h);
    if CanonicalAt(t.log, h.height) == Some(b) then
      if Uncaptured(t, b) then ResolveGap(MarkBodyRecovered(InsertTransactions(t, b, body), b, source), h.height, now) else t
    else
      var t1 := InsertBlockHeaderRow(t, h, true, Some(source), now);
      assert b in t1.blocks;
      InsertTransactions(t1, b, body)
  }

  /** Records a header without a usable body, and the gap. */
  function RecordGapBlock(t: Tables, h: Header, now: nat): Tables {
    var b := KeyOf(h);
    if CanonicalAt(t.log, h.height) == Some(b) then RecordGap(t, h.height, Some(h.hash), now)
    else RecordGap(InsertBlockHeaderRow(t, h, false, None, now), h.height, Some(h.hash), now)
  }
}
