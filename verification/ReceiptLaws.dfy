/**
  Receipts and headers below the archive leave every archive figure alone, whatever they
  claim to spend (core/src/db.rs, `RECORDED` and `ARCHIVED`), and importing a list again
  writes nothing.
 */
module ReceiptLaws {
  import opened Wrappers
  import opened Sums
  import opened Tables
  import opened View
  import opened Figures
  import opened StatusLog
  import opened Runs
  import opened Balances
  import opened Receipts

  /** Foreign keys: rows belong to a transaction on record, transactions and status entries to a block. */
  ghost predicate KeysOk(t: Tables) {
    && (forall k :: k in t.txs ==> k.block in t.blocks)
    && (forall r :: r in t.pages ==> r.tx in t.txs)
    && (forall r :: r in t.inputs ==> r.tx in t.txs)
    && (forall r :: r in t.outputs ==> r.tx in t.txs)
  }

  ghost predicate FromReceipt(t: Tables, k: TxKey) {
    k in t.txs && t.txs[k].source == Some(RECEIPT)
  }

  ghost predicate BlocksBeneath(t: Tables, u: Tables) {
    && (forall b :: b in t.blocks ==> b in u.blocks && u.blocks[b] == t.blocks[b].(txCount := u.blocks[b].txCount))
    && (forall b :: b in u.blocks && b !in t.blocks ==> !Archived(u.blocks[b]))
  }

  ghost predicate StatusBeneath(t: Tables, u: Tables) {
    forall b :: b in t.blocks ==> (IsCanonical(u, b) <==> IsCanonical(t, b))
  }

  ghost predicate TxsBeneath(t: Tables, u: Tables) {
    && (forall k :: k in t.txs ==> k in u.txs && u.txs[k] == t.txs[k])
    && (forall k :: k in u.txs && k !in t.txs ==> FromReceipt(u, k))
  }

  ghost predicate InputsBeneath(t: Tables, u: Tables) {
    && (forall r :: r in t.inputs ==> r in u.inputs && u.inputs[r] == t.inputs[r])
    && (forall r :: r in u.inputs && r !in t.inputs ==> FromReceipt(u, r.tx))
  }

  ghost predicate OutputsBeneath(t: Tables, u: Tables) {
    && (forall r :: r in t.outputs ==> r in u.outputs && u.outputs[r] == t.outputs[r])
    && (forall r :: r in u.outputs && r !in t.outputs ==> FromReceipt(u, r.tx) && u.outputs[r].creationId == None && !u.outputs[r].spentInGap)
  }

  /** `u` is `t` with nothing added but header-only blocks and receipts' rows. */
  ghost predicate Beneath(t: Tables, u: Tables) {
    && u.slots == t.slots && u.gaps == t.gaps && u.cursor == t.cursor
    && BlocksBeneath(t, u) && StatusBeneath(t, u) && TxsBeneath(t, u) && InputsBeneath(t, u) && OutputsBeneath(t, u)
  }

  lemma BeneathItself(t: Tables)
    ensures Beneath(t, t)
  {
    hide IsCanonical;
  }

  lemma BeneathChains(t: Tables, u: Tables, w: Tables)
    requires Beneath(t, u) && Beneath(u, w)
    ensures Beneath(t, w)
  {
    BlocksChain(t, u, w);
    RowsChain(t, u, w);
    hide BlocksBeneath, StatusBeneath, TxsBeneath, InputsBeneath, OutputsBeneath;
  }

  lemma BlocksChain(t: Tables, u: Tables, w: Tables)
    requires BlocksBeneath(t, u) && BlocksBeneath(u, w) && StatusBeneath(t, u) && StatusBeneath(u, w)
    ensures BlocksBeneath(t, w) && StatusBeneath(t, w)
  {
    hide IsCanonical;
  }

  lemma RowsChain(t: Tables, u: Tables, w: Tables)
    requires TxsBeneath(t, u) && TxsBeneath(u, w) && InputsBeneath(t, u) && InputsBeneath(u, w) && OutputsBeneath(t, u) && OutputsBeneath(u, w)
    ensures TxsBeneath(t, w) && InputsBeneath(t, w) && OutputsBeneath(t, w)
  {
  }

  // ---------------------------------------------------------------- both kinds of writes

  lemma ReceiptGoesBeneath(t: Tables, b: BlockKey, tx: ReceiptTx)
    requires KeysOk(t) && IsHeaderOnly(t, b) && TxKey(b, tx.position) !in t.txs
    ensures Beneath(t, WithReceipt(t, b, tx)) && KeysOk(WithReceipt(t, b, tx))
  {
    hide PageRows, InputRows, ReceiptOutputRows, ReceiptTxRow;
    var k := TxKey(b, tx.position);
    var u := WithReceipt(t, b, tx);
    ReceiptSource(tx);
    ReceiptRowsOfTx(k, tx);
    ReceiptRowsFit(t, u, k, ReceiptTxRow(tx), PageRows(k, tx.pageHashes), InputRows(k, tx.inputs), ReceiptOutputRows(k, tx.outputs));
    CountedBlock(t, u, b, tx.txCount);
    hide BlocksBeneath, StatusBeneath, TxsBeneath, InputsBeneath, OutputsBeneath, KeysOk;
  }

  lemma CountedBlock(t: Tables, u: Tables, b: BlockKey, count: nat)
    requires b in t.blocks && u.blocks == t.blocks[b := t.blocks[b].(txCount := Some(count))] && u.log == t.log
    ensures BlocksBeneath(t, u) && StatusBeneath(t, u)
  {
    hide LastStatus;
  }

  lemma ReceiptRowsFit(t: Tables, u: Tables, k: TxKey, row: TxRow, pages: map<RowKey, string>, inputs: map<RowKey, InputRow>, outputs: map<RowKey, OutputRow>)
    requires KeysOk(t) && k !in t.txs && k.block in t.blocks && row.source == Some(RECEIPT) && t.blocks.Keys == u.blocks.Keys
    requires forall r :: r in pages ==> r.tx == k
    requires forall r :: r in inputs ==> r.tx == k
    requires forall r :: r in outputs ==> r.tx == k && outputs[r].creationId == None && !outputs[r].spentInGap
    requires u.txs == t.txs[k := row] && u.pages == t.pages + pages && u.inputs == t.inputs + inputs && u.outputs == t.outputs + outputs
    ensures TxsBeneath(t, u) && InputsBeneath(t, u) && OutputsBeneath(t, u) && KeysOk(u)
  {
    InputsFit(t, u, k, inputs);
    OutputsFit(t, u, k, outputs);
    KeysFit(t, u, k, row, pages, inputs, outputs);
    hide InputsBeneath, OutputsBeneath, KeysOk;
  }

  lemma KeysFit(t: Tables, u: Tables, k: TxKey, row: TxRow, pages: map<RowKey, string>, inputs: map<RowKey, InputRow>, outputs: map<RowKey, OutputRow>)
    requires KeysOk(t) && k.block in t.blocks && t.blocks.Keys == u.blocks.Keys
    requires forall r :: r in pages ==> r.tx == k
    requires forall r :: r in inputs ==> r.tx == k
    requires forall r :: r in outputs ==> r.tx == k
    requires u.txs == t.txs[k := row] && u.pages == t.pages + pages && u.inputs == t.inputs + inputs && u.outputs == t.outputs + outputs
    ensures KeysOk(u)
  {
  }

  lemma InputsFit(t: Tables, u: Tables, k: TxKey, inputs: map<RowKey, InputRow>)
    requires k !in t.txs && FromReceipt(u, k) && forall r :: r in t.inputs ==> r.tx in t.txs
    requires u.inputs == t.inputs + inputs && forall r :: r in inputs ==> r.tx == k
    ensures InputsBeneath(t, u)
  {
    hide FromReceipt;
  }

  lemma OutputsFit(t: Tables, u: Tables, k: TxKey, outputs: map<RowKey, OutputRow>)
    requires k !in t.txs && FromReceipt(u, k) && forall r :: r in t.outputs ==> r.tx in t.txs
    requires u.outputs == t.outputs + outputs && forall r :: r in outputs ==> r.tx == k && outputs[r].creationId == None && !outputs[r].spentInGap
    ensures OutputsBeneath(t, u)
  {
    hide FromReceipt;
  }

  lemma ReceiptRowsOfTx(k: TxKey, tx: ReceiptTx)
    ensures forall r :: r in PageRows(k, tx.pageHashes) ==> r.tx == k
    ensures forall r :: r in InputRows(k, tx.inputs) ==> r.tx == k
    ensures var outputs := ReceiptOutputRows(k, tx.outputs);
            forall r :: r in outputs ==> r.tx == k && outputs[r].creationId == None && !outputs[r].spentInGap
  {
  }

  lemma ReceiptSource(tx: ReceiptTx)
    ensures ReceiptTxRow(tx).source == Some(RECEIPT)
  {
  }

  lemma HeaderGoesBeneath(t: Tables, h: Header, now: nat)
    requires KeysOk(t) && InsertHeaderOnly(t, h, now).Some?
    ensures Beneath(t, InsertHeaderOnly(t, h, now).value) && KeysOk(InsertHeaderOnly(t, h, now).value)
  {
    var u, b := InsertHeaderOnly(t, h, now).value, KeyOf(h);
    if b in t.blocks {
      BeneathItself(t);
    } else {
      NewHeader(t, u, b, now);
      NoNewRows(t, u);
      hide BlocksBeneath, StatusBeneath, TxsBeneath, InputsBeneath, OutputsBeneath, KeysOk;
    }
  }

  lemma NewHeader(t: Tables, u: Tables, b: BlockKey, now: nat)
    requires b !in t.blocks && u.blocks.Keys == t.blocks.Keys + {b} && !Archived(u.blocks[b]) && u.log == t.log + [StatusEntry(b, Canonical, now)]
    requires forall a :: a in t.blocks ==> u.blocks[a] == t.blocks[a]
    ensures BlocksBeneath(t, u) && StatusBeneath(t, u)
  {
    hide LastStatus;
    forall a | a in t.blocks ensures IsCanonical(u, a) <==> IsCanonical(t, a) { Appended(t.log, StatusEntry(b, Canonical, now), a); }
  }

  lemma NoNewRows(t: Tables, u: Tables)
    requires KeysOk(t) && u.txs == t.txs && u.pages == t.pages && u.inputs == t.inputs && u.outputs == t.outputs && t.blocks.Keys <= u.blocks.Keys
    ensures TxsBeneath(t, u) && InputsBeneath(t, u) && OutputsBeneath(t, u) && KeysOk(u)
  {
  }

  /** A header-only insert, or an import's write into a block. */
  datatype Below = OneHeader(header: Header, now: nat) | OneReceipt(block: BlockKey, tx: ReceiptTx)

  function WriteBelow(t: Tables, w: Below): Tables {
    match w
    case OneHeader(h, now) => (match InsertHeaderOnly(t, h, now) case Some(u) => u case None => t)
    case OneReceipt(b, tx) => (match InsertReceipt(t, b, tx) case Success(r) => r.after case Failure(_) => t)
  }

  function WriteAllBelow(t: Tables, writes: seq<Below>): Tables {
    if writes == [] then t else WriteBelow(WriteAllBelow(t, writes[..|writes| - 1]), writes[|writes| - 1])
  }

  lemma WriteGoesBeneath(t: Tables, w: Below)
    requires KeysOk(t)
    ensures Beneath(t, WriteBelow(t, w)) && KeysOk(WriteBelow(t, w))
  {
    hide Beneath, KeysOk, WithReceipt, InsertHeaderOnly, IsHeaderOnly;
    BeneathItself(t);
    match w
    case OneHeader(h, now) => if InsertHeaderOnly(t, h, now).Some? { HeaderGoesBeneath(t, h, now); }
    case OneReceipt(b, tx) => if IsHeaderOnly(t, b) && TxKey(b, tx.position) !in t.txs { ReceiptGoesBeneath(t, b, tx); }
  }

  lemma {:induction false} WritesGoBeneath(t: Tables, writes: seq<Below>)
    requires KeysOk(t)
    ensures Beneath(t, WriteAllBelow(t, writes)) && KeysOk(WriteAllBelow(t, writes))
  {
    hide Beneath, KeysOk, WriteBelow;
    BeneathItself(t);
    if writes != [] {
      var front := writes[..|writes| - 1];
      WritesGoBeneath(t, front);
      WriteGoesBeneath(WriteAllBelow(t, front), writes[|writes| - 1]);
      BeneathChains(t, WriteAllBelow(t, front), WriteAllBelow(t, writes));
    }
  }

  // ---------------------------------------------------------------- the figures do not see them

  /** The transactions that count are the same, and the others' rows are outside the view. */
  lemma BeneathCounts(t: Tables, u: Tables)
    requires KeysOk(t) && Beneath(t, u)
    ensures forall k :: Counts(u, k) <==> Counts(t, k)
    ensures forall k :: Counts(t, k) ==> k in t.txs && k in u.txs && u.txs[k] == t.txs[k]
    ensures forall k :: FromReceipt(u, k) ==> !Counts(u, k)
  {
    hide IsCanonical, BlocksBeneath, InputsBeneath, OutputsBeneath;
  }

  lemma BeneathSameView(t: Tables, u: Tables)
    requires KeysOk(t) && Beneath(t, u)
    ensures ViewOf(u) == ViewOf(t)
  {
    BeneathCounts(t, u);
    SameCountedInputs(t, u);
    SameCountedOutputs(t, u);
    hide Counts, Beneath, KeysOk;
    assert ViewOf(u).txs == ViewOf(t).txs;
  }

  lemma SameCountedInputs(t: Tables, u: Tables)
    requires InputsBeneath(t, u) && (forall k :: Counts(u, k) <==> Counts(t, k)) && forall k :: FromReceipt(u, k) ==> !Counts(u, k)
    ensures ViewOf(u).inputs == ViewOf(t).inputs
  {
    hide Counts, FromReceipt;
  }

  lemma SameCountedOutputs(t: Tables, u: Tables)
    requires OutputsBeneath(t, u) && (forall k :: Counts(u, k) <==> Counts(t, k)) && forall k :: FromReceipt(u, k) ==> !Counts(u, k)
    ensures ViewOf(u).outputs == ViewOf(t).outputs
  {
    hide Counts, FromReceipt;
  }

  /** Every address recorded as the chain went by: senders, receivers, miners. */
  function KnownAddresses(t: Tables): set<string> {
    SendersOf(t) + ReceiversOf(t) + MinersOf(t)
  }

  function SendersOf(t: Tables): set<string> {
    set k | k in t.txs && t.txs[k].source != Some(RECEIPT) && t.txs[k].inputOwner.Some? :: t.txs[k].inputOwner.value
  }

  function ReceiversOf(t: Tables): set<string> {
    set r | r in t.outputs && !(r.tx in t.txs && t.txs[r.tx].source == Some(RECEIPT)) :: t.outputs[r].owner
  }

  function MinersOf(t: Tables): set<string> {
    set b | b in t.blocks && Archived(t.blocks[b]) :: t.blocks[b].miner
  }

  lemma BeneathSameAddresses(t: Tables, u: Tables)
    requires KeysOk(t) && Beneath(t, u)
    ensures KnownAddresses(u) == KnownAddresses(t)
  {
    SameSenders(t, u);
    SameReceivers(t, u);
    SameMiners(t, u);
    hide SendersOf, ReceiversOf, MinersOf, Beneath, KeysOk;
  }

  lemma SameSenders(t: Tables, u: Tables)
    requires TxsBeneath(t, u)
    ensures SendersOf(u) == SendersOf(t)
  {
    forall a | a in SendersOf(t)
      ensures a in SendersOf(u)
    {
      var k :| k in t.txs && t.txs[k].source != Some(RECEIPT) && t.txs[k].inputOwner == Some(a);
      assert k in u.txs && u.txs[k] == t.txs[k];
    }
  }

  lemma SameReceivers(t: Tables, u: Tables)
    requires KeysOk(t) && TxsBeneath(t, u) && OutputsBeneath(t, u)
    ensures ReceiversOf(u) == ReceiversOf(t)
  {
    forall a | a in ReceiversOf(t)
      ensures a in ReceiversOf(u)
    {
      var r :| r in t.outputs && !FromReceipt(t, r.tx) && t.outputs[r].owner == a;
      assert r in u.outputs && u.outputs[r] == t.outputs[r] && u.txs[r.tx] == t.txs[r.tx];
    }
  }

  lemma SameMiners(t: Tables, u: Tables)
    requires BlocksBeneath(t, u)
    ensures MinersOf(u) == MinersOf(t)
  {
    forall a | a in MinersOf(t)
      ensures a in MinersOf(u)
    {
      var b :| b in t.blocks && Archived(t.blocks[b]) && t.blocks[b].miner == a;
      assert b in u.blocks && Archived(u.blocks[b]) && u.blocks[b].miner == a;
    }
  }

  lemma BeneathSameIds(t: Tables, u: Tables)
    requires OutputsBeneath(t, u)
    ensures forall id :: Carries(u.outputs, id) <==> Carries(t.outputs, id)
  {
    forall id
      ensures Carries(u.outputs, id) <==> Carries(t.outputs, id)
    {
      if r :| r in t.outputs && t.outputs[r].creationId == Some(id) { assert r in u.outputs && u.outputs[r].creationId == Some(id); }
    }
  }

  lemma BeneathSameBalance(t: Tables, u: Tables, address: string)
    requires KeysOk(t) && Beneath(t, u)
    ensures BalanceOf(u, address) == BalanceOf(t, address)
  {
    BeneathSameView(t, u);
    BeneathSameIds(t, u);
    SameUnrecorded(ViewOf(t), t.outputs, u.outputs, address);
    hide Beneath, KeysOk, ViewOf, Carries, Total, UnrecordedInputs;
  }

  lemma SameUnrecorded(v: View, a: map<RowKey, OutputRow>, b: map<RowKey, OutputRow>, address: string)
    requires forall id :: Carries(b, id) <==> Carries(a, id)
    ensures UnrecordedInputs(v, b, address) == UnrecordedInputs(v, a, address)
  {
    hide Carries;
  }

  lemma BeneathSameMoves(t: Tables, u: Tables, address: string)
    requires KeysOk(t) && Beneath(t, u)
    ensures ReceivedMoves(u, address) == ReceivedMoves(t, address)
    ensures SentMoves(u, address) == SentMoves(t, address)
    ensures FlaggedMoves(u, address) == FlaggedMoves(t, address)
  {
    BeneathSameView(t, u);
    ViewHasBlocks(t);
    assert forall b :: b in t.blocks ==> b in u.blocks && u.blocks[b].timestamp == t.blocks[b].timestamp by { hide IsCanonical; }
    hide Beneath, KeysOk, ViewOf, HourOf, CastInteger;
    SameReceivedMoves(t, u, address);
    SameSentMoves(t, u, address);
  }

  lemma ViewHasBlocks(t: Tables)
    ensures forall k :: k in ViewOf(t).txs ==> k.block in t.blocks
    ensures forall r :: r in ViewOf(t).outputs ==> r.tx.block in t.blocks
  {
  }

  lemma SameReceivedMoves(t: Tables, u: Tables, address: string)
    requires ViewOf(u) == ViewOf(t) && (forall r :: r in ViewOf(t).outputs ==> r.tx.block in t.blocks)
    requires forall b :: b in t.blocks ==> b in u.blocks && u.blocks[b].timestamp == t.blocks[b].timestamp
    ensures ReceivedMoves(u, address) == ReceivedMoves(t, address)
  {
    ViewHasBlocks(u);
    hide ViewOf, HourOf;
  }

  lemma SameSentMoves(t: Tables, u: Tables, address: string)
    requires ViewOf(u) == ViewOf(t) && (forall k :: k in ViewOf(t).txs ==> k.block in t.blocks)
    requires forall b :: b in t.blocks ==> b in u.blocks && u.blocks[b].timestamp == t.blocks[b].timestamp
    ensures SentMoves(u, address) == SentMoves(t, address)
  {
    ViewHasBlocks(u);
    hide ViewOf, HourOf, CastInteger;
  }

  /** Clearing flags finds the same outputs, and finds none of a receipt's. */
  lemma BeneathSameCleared(t: Tables, u: Tables)
    requires KeysOk(t) && Beneath(t, u)
    ensures Beneath(ClearFlags(t), ClearFlags(u))
  {
    BeneathSameView(t, u);
    hide KeysOk;
    ClearedOutputs(t, u);
    ClearedStatus(t, u);
    hide BlocksBeneath, StatusBeneath, TxsBeneath, InputsBeneath, OutputsBeneath;
    var a, b := ClearFlags(t), ClearFlags(u);
    assert a == t.(outputs := a.outputs) && b == u.(outputs := b.outputs) by { hide Clearable; }
    SameButOutputs(t, u, a, b);
  }

  lemma SameButOutputs(t: Tables, u: Tables, a: Tables, b: Tables)
    requires a == t.(outputs := a.outputs) && b == u.(outputs := b.outputs)
    ensures BlocksBeneath(t, u) ==> BlocksBeneath(a, b)
    ensures TxsBeneath(t, u) ==> TxsBeneath(a, b)
    ensures InputsBeneath(t, u) ==> InputsBeneath(a, b)
  {
  }

  lemma ClearedOutputs(t: Tables, u: Tables)
    requires OutputsBeneath(t, u) && ViewOf(u) == ViewOf(t)
    ensures OutputsBeneath(ClearFlags(t), ClearFlags(u))
  {
    var a, b := ClearFlags(t), ClearFlags(u);
    assert a.outputs.Keys == t.outputs.Keys && b.outputs.Keys == u.outputs.Keys by { hide Clearable; }
    assert forall r :: r in t.outputs ==> r in u.outputs;
    forall r | r in b.outputs
      ensures r in a.outputs ==> b.outputs[r] == a.outputs[r]
      ensures r !in a.outputs ==> FromReceipt(b, r.tx) && b.outputs[r].creationId == None && !b.outputs[r].spentInGap
    {
      hide ClearFlags, ViewOf, Clearable, FromReceipt, OutputsBeneath;
      ClearedRow(t, u, r);
    }
  }

  lemma ClearedRow(t: Tables, u: Tables, r: RowKey)
    requires OutputsBeneath(t, u) && ViewOf(u) == ViewOf(t) && r in u.outputs
    ensures r in t.outputs ==> ClearFlags(u).outputs[r] == ClearFlags(t).outputs[r]
    ensures r !in t.outputs ==> FromReceipt(ClearFlags(u), r.tx) && ClearFlags(u).outputs[r].creationId == None && !ClearFlags(u).outputs[r].spentInGap
  {
    hide ViewOf;
    if r in t.outputs { SameClearable(t, u, r); }
  }

  lemma SameClearable(t: Tables, u: Tables, r: RowKey)
    requires ViewOf(u) == ViewOf(t) && r in t.outputs && r in u.outputs && u.outputs[r] == t.outputs[r]
    ensures Clearable(u, r) <==> Clearable(t, r)
  {
    hide ViewOf;
  }

  lemma ClearedStatus(t: Tables, u: Tables)
    requires StatusBeneath(t, u)
    ensures StatusBeneath(ClearFlags(t), ClearFlags(u))
  {
    hide Clearable, LastStatus;
  }

  ghost predicate SameHistory(t: Tables, u: Tables) {
    && ViewOf(u) == ViewOf(t) && u.slots == t.slots && u.gaps == t.gaps && KnownAddresses(u) == KnownAddresses(t)
    && forall r :: r in t.outputs ==> r in u.outputs && u.outputs[r] == t.outputs[r]
  }

  ghost predicate SameAddress(t: Tables, u: Tables, address: string) {
    BalanceOf(u, address) == BalanceOf(t, address) && forall hour :: Change(u, address, hour) == Change(t, address, hour)
  }

  ghost predicate SameAfterClearing(t: Tables, u: Tables) {
    && ViewOf(ClearFlags(u)) == ViewOf(ClearFlags(t))
    && forall r :: r in t.outputs ==> r in ClearFlags(u).outputs && r in ClearFlags(t).outputs && ClearFlags(u).outputs[r] == ClearFlags(t).outputs[r]
  }

  /** What an archive reports: none of it differs between a database and one with more beneath. */
  ghost predicate SameArchive(t: Tables, u: Tables, address: string) {
    SameHistory(t, u) && SameAddress(t, u, address) && SameAfterClearing(t, u)
  }

  lemma BeneathSameArchive(t: Tables, u: Tables, address: string)
    requires KeysOk(t) && Beneath(t, u)
    ensures SameArchive(t, u, address)
  {
    hide KeysOk, Beneath, SameHistory, SameAddress, SameAfterClearing;
    BeneathSameHistory(t, u);
    BeneathSameAddress(t, u, address);
    ArchiveAfterClearing(t, u);
  }

  lemma BeneathSameHistory(t: Tables, u: Tables)
    requires KeysOk(t) && Beneath(t, u)
    ensures SameHistory(t, u)
  {
    hide ViewOf, KnownAddresses, KeysOk, Beneath;
    BeneathSameView(t, u);
    BeneathSameAddresses(t, u);
    BeneathParts(t, u);
  }

  lemma BeneathSameAddress(t: Tables, u: Tables, address: string)
    requires KeysOk(t) && Beneath(t, u)
    ensures SameAddress(t, u, address)
  {
    hide BalanceOf, KeysOk, Beneath, Change;
    BeneathSameBalance(t, u, address);
    SameChanges(t, u, address);
  }

  lemma SameChanges(t: Tables, u: Tables, address: string)
    requires KeysOk(t) && Beneath(t, u)
    ensures forall hour :: Change(u, address, hour) == Change(t, address, hour)
  {
    hide ReceivedMoves, SentMoves, FlaggedMoves, KeysOk, Beneath, Total, InHour;
    BeneathSameMoves(t, u, address);
  }

  lemma ArchiveAfterClearing(t: Tables, u: Tables)
    requires KeysOk(t) && Beneath(t, u)
    ensures SameAfterClearing(t, u)
  {
    assert ClearFlags(t).outputs.Keys == t.outputs.Keys by { hide Clearable; }
    hide ViewOf, KeysOk, Beneath, ClearFlags;
    BeneathSameCleared(t, u);
    ClearedKeysOk(t);
    BeneathSameView(ClearFlags(t), ClearFlags(u));
    BeneathParts(ClearFlags(t), ClearFlags(u));
  }

  /**
    Non-interference: after any sequence of header-only inserts and receipt imports - even
    of receipts that spend live or flagged coins - the recorded history, the sweep's slots,
    the known addresses, every address's balance and its hourly changes are what they were,
    and clearing flags still does the same to the archive.
   */
  lemma BelowLeavesArchiveAlone(t: Tables, writes: seq<Below>, address: string)
    requires KeysOk(t)
    ensures SameArchive(t, WriteAllBelow(t, writes), address)
  {
    hide KeysOk, Beneath, SameArchive, WriteAllBelow;
    WritesGoBeneath(t, writes);
    BeneathSameArchive(t, WriteAllBelow(t, writes), address);
  }

  lemma BeneathParts(t: Tables, u: Tables)
    requires Beneath(t, u)
    ensures u.slots == t.slots && u.gaps == t.gaps && forall r :: r in t.outputs ==> r in u.outputs && u.outputs[r] == t.outputs[r]
  {
    hide IsCanonical;
  }

  lemma ClearedKeysOk(t: Tables)
    requires KeysOk(t)
    ensures KeysOk(ClearFlags(t))
  {
    hide Clearable;
  }

  // ---------------------------------------------------------------- importing lists

  lemma EntryGoesBeneath(t: Tables, entries: seq<Entry>, i: nat, asked: Asked)
    requires i < |entries| && KeysOk(t)
    ensures var u := ImportEntry(t, entries, i, asked).after; Beneath(t, u) && KeysOk(u)
  {
    hide KeysOk, Beneath, WithReceipt, CanonicalAt, IsHeaderOnly, Objection, Lists;
    BeneathItself(t);
    var d := asked.decode(entries[i].hex);
    if d.Some? {
      var b := CanonicalAt(t.log, d.value.height);
      if b.Some? && IsHeaderOnly(t, b.value) && TxKey(b.value, d.value.tx.position) !in t.txs { ReceiptGoesBeneath(t, b.value, d.value.tx); }
    }
  }

  lemma {:induction false} ImportGoesBeneath(t: Tables, entries: seq<Entry>, n: nat, asked: Asked)
    requires n <= |entries| && KeysOk(t)
    ensures var u := TablesAfterImport(t, entries, n, asked); Beneath(t, u) && KeysOk(u)
  {
    hide KeysOk, Beneath, ImportEntry;
    BeneathItself(t);
    if n > 0 {
      ImportGoesBeneath(t, entries, n - 1, asked);
      var u := TablesAfterImport(t, entries, n - 1, asked);
      EntryGoesBeneath(u, entries, n - 1, asked);
      BeneathChains(t, u, TablesAfterImport(t, entries, n, asked));
    }
  }

  /** Importing any list leaves every archive figure alone. */
  lemma ImportLeavesArchiveAlone(t: Tables, entries: seq<Entry>, asked: Asked, address: string)
    requires KeysOk(t)
    ensures SameArchive(t, TablesAfterImport(t, entries, |entries|, asked), address)
  {
    hide KeysOk, Beneath, SameArchive, TablesAfterImport;
    ImportGoesBeneath(t, entries, |entries|, asked);
    BeneathSameArchive(t, TablesAfterImport(t, entries, |entries|, asked), address);
  }

  /** Later in an import: the same blocks and log, known counts kept, transactions only added. */
  ghost predicate Onward(t: Tables, u: Tables) {
    && u.log == t.log && u.blocks.Keys == t.blocks.Keys
    && (forall b :: b in t.blocks ==> u.blocks[b] == t.blocks[b].(txCount := u.blocks[b].txCount))
    && (forall b :: b in t.blocks && t.blocks[b].txCount.Some? ==> u.blocks[b].txCount == t.blocks[b].txCount)
    && (forall k :: k in t.txs ==> k in u.txs && u.txs[k] == t.txs[k])
  }

  ghost predicate Settled(t: Tables, entry: Entry, d: Decoded, verdict: Option<Verdict>) {
    ImportOne(t, entry, d, verdict).after == t
  }

  lemma ImportOneOnward(t: Tables, entry: Entry, d: Decoded, verdict: Option<Verdict>)
    ensures Onward(t, ImportOne(t, entry, d, verdict).after)
  {
    hide CanonicalAt, Lists, Objection, InsertReceipt, Onward;
    OnwardItself(t);
    var b := CanonicalAt(t.log, d.height);
    if b.Some? { InsertOnward(t, b.value, d.tx); }
  }

  lemma OnwardItself(t: Tables)
    ensures Onward(t, t)
  {
  }

  lemma InsertOnward(t: Tables, b: BlockKey, tx: ReceiptTx)
    ensures var r := InsertReceipt(t, b, tx); r.Success? ==> Onward(t, r.value.after)
  {
    hide PageRows, InputRows, ReceiptOutputRows, ReceiptTxRow;
  }

  /** An entry just imported is on record. */
  lemma ImportedIsSettled(t: Tables, entry: Entry, d: Decoded, verdict: Option<Verdict>)
    ensures Settled(ImportOne(t, entry, d, verdict).after, entry, d, verdict)
  {
    hide CanonicalAt, Lists, Objection, PageRows, InputRows, ReceiptOutputRows;
  }

  lemma WrittenIsNew(t: Tables, b: BlockKey, tx: ReceiptTx)
    requires IsHeaderOnly(t, b) && TxKey(b, tx.position) !in t.txs
    ensures WithReceipt(t, b, tx) != t
  {
    hide PageRows, InputRows, ReceiptOutputRows, ReceiptTxRow;
    assert TxKey(b, tx.position) in WithReceipt(t, b, tx).txs;
  }

  /** An entry that writes nothing now writes nothing later in the import. */
  lemma SettledStays(t: Tables, u: Tables, entry: Entry, d: Decoded, verdict: Option<Verdict>)
    requires Settled(t, entry, d, verdict) && Onward(t, u)
    ensures Settled(u, entry, d, verdict)
  {
    hide CanonicalAt, Lists, Objection, WithReceipt;
    var b := CanonicalAt(t.log, d.height);
    if b.Some? && IsHeaderOnly(t, b.value) && TxKey(b.value, d.tx.position) !in t.txs { WrittenIsNew(t, b.value, d.tx); }
  }

  ghost predicate EntrySettled(t: Tables, entries: seq<Entry>, i: nat, asked: Asked)
    requires i < |entries|
  {
    ImportEntry(t, entries, i, asked).after == t
  }

  lemma EntrySettles(t: Tables, entries: seq<Entry>, i: nat, asked: Asked)
    requires i < |entries|
    ensures var u := ImportEntry(t, entries, i, asked).after; Onward(t, u) && EntrySettled(u, entries, i, asked)
  {
    hide ImportOne;
    var d := asked.decode(entries[i].hex);
    if d.Some? {
      ImportOneOnward(t, entries[i], d.value, asked.verify(i, entries[i].hex));
      ImportedIsSettled(t, entries[i], d.value, asked.verify(i, entries[i].hex));
    }
  }

  lemma EntryStaysSettled(t: Tables, u: Tables, entries: seq<Entry>, i: nat, asked: Asked)
    requires i < |entries| && EntrySettled(t, entries, i, asked) && Onward(t, u)
    ensures EntrySettled(u, entries, i, asked)
  {
    hide ImportOne, Onward;
    var d := asked.decode(entries[i].hex);
    if d.Some? && entries[i] !in entries[..i] { SettledStays(t, u, entries[i], d.value, asked.verify(i, entries[i].hex)); }
  }

  lemma {:induction false} AllSettle(t: Tables, entries: seq<Entry>, n: nat, i: nat, asked: Asked)
    requires i < n <= |entries|
    ensures EntrySettled(TablesAfterImport(t, entries, n, asked), entries, i, asked)
  {
    hide ImportEntry, Onward, EntrySettled;
    var before := TablesAfterImport(t, entries, n - 1, asked);
    EntrySettles(before, entries, n - 1, asked);
    if i < n - 1 {
      AllSettle(t, entries, n - 1, i, asked);
      EntryStaysSettled(before, TablesAfterImport(t, entries, n, asked), entries, i, asked);
    }
  }

  lemma {:induction false} SettledWritesNothing(u: Tables, entries: seq<Entry>, n: nat, asked: Asked)
    requires n <= |entries| && forall i :: 0 <= i < n ==> EntrySettled(u, entries, i, asked)
    ensures TablesAfterImport(u, entries, n, asked) == u
  {
    hide ImportEntry;
    if n > 0 {
      SettledWritesNothing(u, entries, n - 1, asked);
      assert EntrySettled(u, entries, n - 1, asked);
    }
  }

  /** Importing a list again, with the same answers, writes nothing. */
  lemma ImportingAgainWritesNothing(t: Tables, entries: seq<Entry>, asked: Asked)
    ensures var u := TablesAfterImport(t, entries, |entries|, asked);
            TablesAfterImport(u, entries, |entries|, asked) == u
  {
    hide TablesAfterImport, EntrySettled;
    var u := TablesAfterImport(t, entries, |entries|, asked);
    forall i | 0 <= i < |entries|
      ensures EntrySettled(u, entries, i, asked)
    {
      AllSettle(t, entries, |entries|, i, asked);
    }
    SettledWritesNothing(u, entries, |entries|, asked);
  }
}
