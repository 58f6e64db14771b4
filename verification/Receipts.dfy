/**
  Receipts and headers below the archive (core/src/db.rs, `insert_receipt_transaction`;
  permanode/src/receipts.rs, `import_receipts`): what an import writes, and that nothing
  the archive reports depends on it.
 */
module Receipts {
  import opened Wrappers
  import opened Tables

  datatype ReceiptOutput = ReceiptOutput(page: u32, lane: u32, slot: u64, amount: u64, owner: string)
  datatype ReceiptTx = ReceiptTx(position: u32, txCount: u32, txid: string, pageCount: u32, fee: u64, epochAnchor: string,
                                 inputOwner: string, inputSum: string, outputSum: string,
                                 pageHashes: seq<string>, inputs: seq<Input>, outputs: seq<ReceiptOutput>, hex: string)

  datatype Refusal = NotHeaderOnly | BadPosition | OtherCount | PositionHeld
                   | NotDecoded | OtherKey | NotChecked | BadProof | NotOnChain | OtherData | OtherHeader
  datatype Inserted = Inserted(after: Tables, written: bool)

  function ReceiptTxRow(tx: ReceiptTx): TxRow {
    TxRow(tx.txid, tx.pageCount, AsI64(tx.fee), false, false, tx.epochAnchor, Some(tx.inputOwner), tx.inputSum, tx.outputSum, Some(RECEIPT))
  }

  /** The block assigns creation ids, so a receipt's outputs have none. */
  function ReceiptOutputRow(o: ReceiptOutput): OutputRow {
    OutputRow(o.page, o.lane, AsI64(o.slot), AsI64(o.amount), o.owner, None, false, None)
  }

  function ReceiptOutputRows(k: TxKey, outputs: seq<ReceiptOutput>): map<RowKey, OutputRow> {
    map i | 0 <= i < |outputs| :: RowKey(k, i) := ReceiptOutputRow(outputs[i])
  }

  function WithReceipt(t: Tables, b: BlockKey, tx: ReceiptTx): Tables
    requires b in t.blocks
  {
    var k := TxKey(b, tx.position);
    t.(txs := t.txs[k := ReceiptTxRow(tx)],
       pages := t.pages + PageRows(k, tx.pageHashes),
       inputs := t.inputs + InputRows(k, tx.inputs),
       outputs := t.outputs + ReceiptOutputRows(k, tx.outputs),
       receipts := t.receipts[k := tx.hex],
       blocks := t.blocks[b := t.blocks[b].(txCount := Some(tx.txCount))])
  }

  /** Stores a receipt's transaction in a header-only block, or says why not. */
  function InsertReceipt(t: Tables, b: BlockKey, tx: ReceiptTx): Result<Inserted, Refusal> {
    var k := TxKey(b, tx.position);
    if !IsHeaderOnly(t, b) then Failure(NotHeaderOnly)
    else if tx.position == 0 || tx.position >= tx.txCount then Failure(BadPosition)
    else if t.blocks[b].txCount.Some? && t.blocks[b].txCount != Some(tx.txCount) then Failure(OtherCount)
    else if k in t.txs then
      if t.txs[k].txid == tx.txid && t.txs[k].source == Some(RECEIPT) then Success(Inserted(t, false)) else Failure(PositionHeld)
    else Success(Inserted(WithReceipt(t, b, tx), true))
  }

  // ---------------------------------------------------------------- one entry of an import

  datatype Entry = Entry(key: Option<string>, hex: string)
  datatype Decoded = Decoded(height: u64, timestamp: u64, txRoot: string, summary: string, tx: ReceiptTx)
  datatype Verdict = Verdict(merkleValid: bool, canonical: Option<bool>, summary: Option<string>)
  datatype Outcome = Imported | AlreadyImported | Duplicate | InArchive(recorded: bool) | Gap | NoHeader | Rejected(why: Refusal)

  /** What the entry, its receipt and the node's verdict fail to agree on. */
  function Objection(entry: Entry, d: Decoded, verdict: Option<Verdict>): Option<Refusal> {
    if entry.key.Some? && entry.key.value != d.tx.txid then Some(OtherKey)
    else if verdict.None? then Some(NotChecked)
    else if !verdict.value.merkleValid then Some(BadProof)
    else if verdict.value.canonical != Some(true) then Some(NotOnChain)
    else if verdict.value.summary != Some(d.summary) then Some(OtherData)
    else None
  }

  predicate Lists(t: Tables, b: BlockKey, txid: string) {
    exists k | k in t.txs :: k.block == b && t.txs[k].txid == txid
  }

  datatype Tried = Tried(after: Tables, outcome: Outcome)

  function ImportOne(t: Tables, entry: Entry, d: Decoded, verdict: Option<Verdict>): Tried {
    var objection := Objection(entry, d, verdict);
    if objection.Some? then Tried(t, Rejected(objection.value)) else
      match CanonicalAt(t.log, d.height)
      case None => Tried(t, NoHeader)
      case Some(b) =>
        if !IsHeaderOnly(t, b) then
          Tried(t, if b in t.blocks && !t.blocks[b].captured then Gap else InArchive(Lists(t, b, d.tx.txid)))
        else if t.blocks[b].txRoot != d.txRoot || AsU64(t.blocks[b].timestamp) != d.timestamp then Tried(t, Rejected(OtherHeader))
        else match InsertReceipt(t, b, d.tx)
          case Failure(why) => Tried(t, Rejected(why))
          case Success(r) => Tried(r.after, if r.written then Imported else AlreadyImported)
  }

  /** The node and the decoder as the import asks them: entry `i` of the list. */
  datatype Asked = Asked(decode: string -> Option<Decoded>, verify: (nat, string) -> Option<Verdict>)

  function ImportEntry(t: Tables, entries: seq<Entry>, i: nat, asked: Asked): Tried
    requires i < |entries|
  {
    var d := asked.decode(entries[i].hex);
    if entries[i] in entries[..i] then Tried(t, Duplicate)
    else if d.None? then Tried(t, Rejected(NotDecoded))
    else ImportOne(t, entries[i], d.value, asked.verify(i, entries[i].hex))
  }

  function TablesAfterImport(t: Tables, entries: seq<Entry>, n: nat, asked: Asked): Tables
    requires n <= |entries|
  {
    if n == 0 then t else ImportEntry(TablesAfterImport(t, entries, n - 1, asked), entries, n - 1, asked).after
  }

  // ---------------------------------------------------------------- what an entry can write

  /** One more transaction, from a receipt, in a canonical block the archive knows by its header alone. */
  ghost predicate Added(t: Tables, u: Tables, d: Decoded) {
    && CanonicalAt(t.log, d.height).Some?
    && var b := CanonicalAt(t.log, d.height).value;
       var k := TxKey(b, d.tx.position);
       && IsHeaderOnly(t, b) && t.blocks[b].txRoot == d.txRoot && k !in t.txs
       && u.txs == t.txs[k := ReceiptTxRow(d.tx)] && |u.txs| == |t.txs| + 1
       && u.log == t.log && u.gaps == t.gaps && u.slots == t.slots && u.blocks.Keys == t.blocks.Keys
  }

  /** Only an imported receipt writes, and it was verified, on the chain and in the block the header names. */
  ghost predicate WritesWhenImported(t: Tables, r: Tried, entry: Entry, d: Decoded, verdict: Option<Verdict>) {
    && (r.outcome != Imported ==> r.after == t)
    && (r.outcome == Imported ==> Added(t, r.after, d) && verdict.Some? && verdict.value.merkleValid && verdict.value.canonical == Some(true))
  }

  lemma OnlyImportsWrite(t: Tables, entry: Entry, d: Decoded, verdict: Option<Verdict>)
    ensures WritesWhenImported(t, ImportOne(t, entry, d, verdict), entry, d, verdict)
  {
    hide CanonicalAt, WithReceipt, Lists, Added;
    if ImportOne(t, entry, d, verdict).outcome == Imported { ImportedIsAdded(t, entry, d, verdict); }
  }

  lemma ImportedIsAdded(t: Tables, entry: Entry, d: Decoded, verdict: Option<Verdict>)
    requires ImportOne(t, entry, d, verdict).outcome == Imported
    ensures Added(t, ImportOne(t, entry, d, verdict).after, d)
  {
    hide CanonicalAt, WithReceipt, Lists, ReceiptTxRow, Objection;
    var b := CanonicalAt(t.log, d.height).value;
    ReceiptAdds(t, b, d.tx);
    OneMoreRow(t.txs, TxKey(b, d.tx.position), ReceiptTxRow(d.tx));
  }

  lemma ReceiptAdds(t: Tables, b: BlockKey, tx: ReceiptTx)
    requires b in t.blocks
    ensures var u := WithReceipt(t, b, tx);
            && u.txs == t.txs[TxKey(b, tx.position) := ReceiptTxRow(tx)]
            && u.log == t.log && u.gaps == t.gaps && u.slots == t.slots && u.blocks.Keys == t.blocks.Keys
  {
    hide ReceiptTxRow, PageRows, InputRows, ReceiptOutputRows;
  }

  lemma OneMoreRow(m: map<TxKey, TxRow>, k: TxKey, row: TxRow)
    requires k !in m
    ensures |m[k := row]| == |m| + 1
  {
    assert m[k := row].Keys == m.Keys + {k};
  }

  function Imports(outcomes: seq<Outcome>): nat {
    if outcomes == [] then 0 else Imports(outcomes[..|outcomes| - 1]) + if outcomes[|outcomes| - 1] == Imported then 1 else 0
  }

  /** `n` transactions more, and none of the old ones touched. */
  ghost predicate Grown(t: Tables, u: Tables, n: nat) {
    && |u.txs| == |t.txs| + n && (n == 0 ==> u == t)
    && forall k :: k in t.txs ==> k in u.txs && u.txs[k] == t.txs[k]
  }

  lemma NothingGrown(t: Tables)
    ensures Grown(t, t, Imports([]))
  {
  }

  lemma GrownNext(t: Tables, s: Tables, u: Tables, outcomes: seq<Outcome>, outcome: Outcome, d: Option<Decoded>)
    requires Grown(t, s, Imports(outcomes))
    requires if outcome == Imported then d.Some? && Added(s, u, d.value) else u == s
    ensures Grown(t, u, Imports(outcomes + [outcome]))
  {
    hide CanonicalAt, ReceiptTxRow;
    assert (outcomes + [outcome])[..|outcomes|] == outcomes;
  }

  // ---------------------------------------------------------------- as it runs

  class Importer {
    var t: Tables

    constructor (tables: Tables)
      ensures t == tables
    {
      t := tables;
    }

    method InsertReceiptTransaction(b: BlockKey, tx: ReceiptTx) returns (r: Result<bool, Refusal>)
      modifies this
      ensures match InsertReceipt(old(t), b, tx)
              case Failure(why) => r == Failure(why) && t == old(t)
              case Success(done) => r == Success(done.written) && t == done.after
    {
      hide ReceiptTxRow, PageRows, InputRows, ReceiptOutputRows;
      var k := TxKey(b, tx.position);
      if !IsHeaderOnly(t, b) { return Failure(NotHeaderOnly); }
      if tx.position == 0 || tx.position >= tx.txCount { return Failure(BadPosition); }
      if t.blocks[b].txCount.Some? && t.blocks[b].txCount != Some(tx.txCount) { return Failure(OtherCount); }
      if k in t.txs {
        if t.txs[k].txid == tx.txid && t.txs[k].source == Some(RECEIPT) { return Success(false); }
        return Failure(PositionHeld);
      }
      t := t.(txs := t.txs[k := ReceiptTxRow(tx)]);
      InsertRows(k, tx);
      t := t.(receipts := t.receipts[k := tx.hex], blocks := t.blocks[b := t.blocks[b].(txCount := Some(tx.txCount))]);
      r := Success(true);
    }

    method InsertRows(k: TxKey, tx: ReceiptTx)
      modifies this
      ensures t == old(t).(pages := old(t).pages + PageRows(k, tx.pageHashes), inputs := old(t).inputs + InputRows(k, tx.inputs),
                           outputs := old(t).outputs + ReceiptOutputRows(k, tx.outputs))
    {
      hide InputRowOf, ReceiptOutputRow, PageRows, InputRows, ReceiptOutputRows;
      ghost var before := t;
      NoRowsYet(k, tx, before);
      for i := 0 to |tx.pageHashes|
        invariant t == before.(pages := before.pages + PageRows(k, tx.pageHashes[..i]))
      {
        MorePages(k, tx.pageHashes, i, before.pages);
        t := t.(pages := t.pages[RowKey(k, i) := tx.pageHashes[i]]);
      }
      assert tx.pageHashes[..|tx.pageHashes|] == tx.pageHashes;
      ghost var paged := t;
      for i := 0 to |tx.inputs|
        invariant t == paged.(inputs := before.inputs + InputRows(k, tx.inputs[..i]))
      {
        MoreInputs(k, tx.inputs, i, before.inputs);
        t := t.(inputs := t.inputs[RowKey(k, i) := InputRowOf(tx.inputs[i])]);
      }
      assert tx.inputs[..|tx.inputs|] == tx.inputs;
      ghost var spent := t;
      for i := 0 to |tx.outputs|
        invariant t == spent.(outputs := before.outputs + ReceiptOutputRows(k, tx.outputs[..i]))
      {
        MoreOutputs(k, tx.outputs, i, before.outputs);
        t := t.(outputs := t.outputs[RowKey(k, i) := ReceiptOutputRow(tx.outputs[i])]);
      }
      assert tx.outputs[..|tx.outputs|] == tx.outputs;
    }

    /** Imports a list; an entry listed before is skipped, and each receipt is committed on its own. */
    method ImportReceipts(entries: seq<Entry>, asked: Asked) returns (outcomes: seq<Outcome>)
      modifies this
      ensures t == TablesAfterImport(old(t), entries, |entries|, asked)
      ensures |outcomes| == |entries|
      ensures forall i :: 0 <= i < |entries| ==> outcomes[i] == ImportEntry(TablesAfterImport(old(t), entries, i, asked), entries, i, asked).outcome
      ensures Grown(old(t), t, Imports(outcomes))
    {
      hide ImportEntry, Added, Grown, Imports;
      ghost var before := t;
      var seen: set<Entry> := {};
      outcomes := [];
      NothingGrown(t);
      for i := 0 to |entries|
        invariant seen == set e | e in entries[..i]
        invariant t == TablesAfterImport(before, entries, i, asked) && |outcomes| == i
        invariant forall j :: 0 <= j < i ==> outcomes[j] == ImportEntry(TablesAfterImport(before, entries, j, asked), entries, j, asked).outcome
        invariant Grown(before, t, Imports(outcomes))
      {
        assert entries[..i + 1] == entries[..i] + [entries[i]];
        ghost var s := t;
        var outcome := ImportNext(entries, i, seen, asked);
        GrownNext(before, s, t, outcomes, outcome, asked.decode(entries[i].hex));
        seen := seen + {entries[i]};
        outcomes := outcomes + [outcome];
      }
    }

    method ImportNext(entries: seq<Entry>, i: nat, seen: set<Entry>, asked: Asked) returns (outcome: Outcome)
      requires i < |entries| && seen == set e | e in entries[..i]
      modifies this
      ensures Tried(t, outcome) == ImportEntry(old(t), entries, i, asked)
      ensures outcome != Imported ==> t == old(t)
      ensures outcome == Imported ==> asked.decode(entries[i].hex).Some? && Added(old(t), t, asked.decode(entries[i].hex).value)
    {
      hide ImportOne, Added;
      var entry := entries[i];
      if entry in seen { return Duplicate; }
      var d := asked.decode(entry.hex);
      if d.None? { return Rejected(NotDecoded); }
      outcome := ImportDecoded(entry, d.value, asked.verify(i, entry.hex));
    }

    method ImportDecoded(entry: Entry, d: Decoded, verdict: Option<Verdict>) returns (outcome: Outcome)
      modifies this
      ensures Tried(t, outcome) == ImportOne(old(t), entry, d, verdict)
      ensures WritesWhenImported(old(t), Tried(t, outcome), entry, d, verdict)
    {
      OnlyImportsWrite(t, entry, d, verdict);
      hide InsertReceipt, CanonicalAt, Objection, Added;
      var objection := Objection(entry, d, verdict);
      if objection.Some? { return Rejected(objection.value); }
      var block := CanonicalAt(t.log, d.height);
      if block.None? { return NoHeader; }
      var b := block.value;
      if !IsHeaderOnly(t, b) {
        if b in t.blocks && !t.blocks[b].captured { return Gap; }
        return InArchive(Lists(t, b, d.tx.txid));
      }
      if t.blocks[b].txRoot != d.txRoot || AsU64(t.blocks[b].timestamp) != d.timestamp { return Rejected(OtherHeader); }
      var r := InsertReceiptTransaction(b, d.tx);
      match r
      case Success(true) => outcome := Imported;
      case Success(false) => outcome := AlreadyImported;
      case Failure(why) => outcome := Rejected(why);
    }
  }

  lemma NoRowsYet(k: TxKey, tx: ReceiptTx, t: Tables)
    ensures t.pages + PageRows(k, tx.pageHashes[..0]) == t.pages
    ensures t.inputs + InputRows(k, tx.inputs[..0]) == t.inputs
    ensures t.outputs + ReceiptOutputRows(k, tx.outputs[..0]) == t.outputs
  {
  }

  lemma MorePages(k: TxKey, hashes: seq<string>, i: nat, m: map<RowKey, string>)
    requires i < |hashes|
    ensures m + PageRows(k, hashes[..i + 1]) == (m + PageRows(k, hashes[..i]))[RowKey(k, i) := hashes[i]]
  {
  }

  lemma MoreInputs(k: TxKey, inputs: seq<Input>, i: nat, m: map<RowKey, InputRow>)
    requires i < |inputs|
    ensures m + InputRows(k, inputs[..i + 1]) == (m + InputRows(k, inputs[..i]))[RowKey(k, i) := InputRowOf(inputs[i])]
  {
  }

  lemma MoreOutputs(k: TxKey, outputs: seq<ReceiptOutput>, i: nat, m: map<RowKey, OutputRow>)
    requires i < |outputs|
    ensures m + ReceiptOutputRows(k, outputs[..i + 1]) == (m + ReceiptOutputRows(k, outputs[..i]))[RowKey(k, i) := ReceiptOutputRow(outputs[i])]
  {
  }
}
