/**
  Bodies survive being stored and handed on (`insert_transactions` in
  permanode/src/indexer.rs, `body_from_db` and `check_body` in permanode/src/import.rs).
 */
module BodyLaws {
  import opened Wrappers
  import opened Tables
  import opened Bodies

  /** Transactions are listed at their positions. */
  ghost predicate WellPositioned(txs: seq<Tx>) {
    forall i :: 0 <= i < |txs| ==> txs[i].position == i
  }

  // ---------------------------------------------------------------- the rows of a body

  lemma {:induction false} TxRowsOfBody(b: BlockKey, txs: seq<Tx>, k: TxKey)
    requires WellPositioned(txs)
    ensures k in TxsOf(b, txs) <==> k.block == b && k.position < |txs|
    ensures k in TxsOf(b, txs) ==> TxsOf(b, txs)[k] == TxRowOf(txs[k.position])
  {
    if txs != [] {
      TxRowsOfBody(b, txs[..|txs| - 1], k);
    }
  }

  lemma {:induction false} PageRowsOfBody(b: BlockKey, txs: seq<Tx>, r: RowKey)
    requires WellPositioned(txs)
    ensures r in PagesOf(b, txs) <==> r.tx.block == b && r.tx.position < |txs| && r.idx < |txs[r.tx.position].pageHashes|
    ensures r in PagesOf(b, txs) ==> PagesOf(b, txs)[r] == txs[r.tx.position].pageHashes[r.idx]
  {
    if txs != [] {
      var last := txs[|txs| - 1];
      PageRowsOfBody(b, txs[..|txs| - 1], r);
      assert r in PageRows(TxKey(b, last.position), last.pageHashes) <==> r.tx == TxKey(b, last.position) && r.idx < |last.pageHashes|;
    }
  }

  lemma {:induction false} InputRowsOfBody(b: BlockKey, txs: seq<Tx>, r: RowKey)
    requires WellPositioned(txs)
    ensures r in InputsOf(b, txs) <==> r.tx.block == b && r.tx.position < |txs| && r.idx < |txs[r.tx.position].inputs|
    ensures r in InputsOf(b, txs) ==> InputsOf(b, txs)[r] == InputRowOf(txs[r.tx.position].inputs[r.idx])
  {
    if txs != [] {
      var last := txs[|txs| - 1];
      InputRowsOfBody(b, txs[..|txs| - 1], r);
      assert r in InputRows(TxKey(b, last.position), last.inputs) <==> r.tx == TxKey(b, last.position) && r.idx < |last.inputs|;
    }
  }

  lemma {:induction false} OutputRowsOfBody(b: BlockKey, txs: seq<Tx>, r: RowKey)
    requires WellPositioned(txs)
    ensures r in OutputsOf(b, txs) <==> r.tx.block == b && r.tx.position < |txs| && r.idx < |txs[r.tx.position].outputs|
    ensures r in OutputsOf(b, txs) ==> OutputsOf(b, txs)[r] == OutputRowOf(txs[r.tx.position].outputs[r.idx])
  {
    if txs != [] {
      var last := txs[|txs| - 1];
      OutputRowsOfBody(b, txs[..|txs| - 1], r);
      assert r in OutputRows(TxKey(b, last.position), last.outputs) <==> r.tx == TxKey(b, last.position) && r.idx < |last.outputs|;
    }
  }

  // ---------------------------------------------------------------- the round trip

  /** Nothing is stored under the block yet. */
  ghost predicate NoRows(t: Tables, b: BlockKey) {
    && (forall k :: k in t.txs ==> k.block != b)
    && (forall r :: r in t.pages ==> r.tx.block != b)
    && (forall r :: r in t.inputs ==> r.tx.block != b)
    && (forall r :: r in t.outputs ==> r.tx.block != b)
  }

  /** What the recovery of a gap writes for its body. */
  function Recover(t: Tables, b: BlockKey, body: Body, source: string): Tables
    requires b in t.blocks
  {
    MarkBodyRecovered(InsertTransactions(t, b, body), b, source)
  }

  /** Of the rows under `b`, the table holds exactly these. */
  ghost predicate HoldsRows<V>(m: map<RowKey, V>, rows: map<RowKey, V>, b: BlockKey) {
    forall r: RowKey :: r.tx.block == b ==> (r in m <==> r in rows) && (r in m ==> m[r] == rows[r])
  }

  ghost predicate HoldsTxs(m: map<TxKey, TxRow>, rows: map<TxKey, TxRow>, b: BlockKey) {
    forall k: TxKey :: k.block == b ==> (k in m <==> k in rows) && (k in m ==> m[k] == rows[k])
  }

  /** The rows under `b` are exactly this body's. */
  ghost predicate HoldsBody(t: Tables, b: BlockKey, txs: seq<Tx>) {
    && WellPositioned(txs)
    && HoldsTxs(t.txs, TxsOf(b, txs), b)
    && HoldsRows(t.pages, PagesOf(b, txs), b)
    && HoldsRows(t.inputs, InputsOf(b, txs), b)
    && HoldsRows(t.outputs, OutputsOf(b, txs), b)
  }

  lemma RecoveredHoldsBody(t: Tables, b: BlockKey, body: Body, source: string)
    requires b in t.blocks && NoRows(t, b) && WellPositioned(body.txs)
    ensures HoldsBody(Recover(t, b, body, source), b, body.txs)
  {
    hide TxsOf, PagesOf, InputsOf, OutputsOf, HoldsRows;
    UnderBlock(PagesOf(b, body.txs), t.pages, b);
    UnderBlock(InputsOf(b, body.txs), t.inputs, b);
    UnderBlock(OutputsOf(b, body.txs), t.outputs, b);
  }

  /** Rows inserted where nothing was stored are what is stored there. */
  lemma UnderBlock<V>(rows: map<RowKey, V>, m: map<RowKey, V>, b: BlockKey)
    requires forall r :: r in m ==> r.tx.block != b
    ensures HoldsRows(rows + m, rows, b)
  {
  }

  lemma InputReads(i: Input)
    ensures LoadInput(InputRowOf(i)) == Some(i)
  {
    hide Decimal, ParseU64;
    DecimalParses(i.creationId);
    CastsRoundTrip(i.slot);
    CastsRoundTrip(i.amount);
  }

  lemma OutputReads(o: Output)
    ensures LoadOutput(OutputRowOf(o)) == Some(o)
  {
    hide Decimal, ParseU64;
    DecimalParses(o.creationId);
    CastsRoundTrip(o.slot);
    CastsRoundTrip(o.amount);
  }

  function UpTo(n: nat): seq<nat> {
    seq(n, i => i)
  }

  lemma InputStored(t: Tables, b: BlockKey, txs: seq<Tx>, p: nat, i: nat)
    requires HoldsBody(t, b, txs) && p < |txs| && i < |txs[p].inputs|
    ensures var r := RowKey(TxKey(b, p), i); r in t.inputs && t.inputs[r] == InputRowOf(txs[p].inputs[i])
  {
    hide InputsOf, InputRowOf;
    InputRowsOfBody(b, txs, RowKey(TxKey(b, p), i));
  }

  lemma {:induction false} InputsReload(t: Tables, b: BlockKey, txs: seq<Tx>, p: nat, m: nat)
    requires HoldsBody(t, b, txs) && p < |txs| && m <= |txs[p].inputs|
    ensures forall i :: 0 <= i < m ==> RowKey(TxKey(b, p), UpTo(m)[i]) in t.inputs
    ensures LoadInputs(t, TxKey(b, p), UpTo(m)) == Some(txs[p].inputs[..m])
  {
    hide LoadInput, InputRowOf, HoldsBody;
    forall i: nat | i < m ensures RowKey(TxKey(b, p), i) in t.inputs { InputStored(t, b, txs, p, i); }
    if m > 0 {
      InputsReload(t, b, txs, p, m - 1);
      assert UpTo(m)[..m - 1] == UpTo(m - 1);
      InputStored(t, b, txs, p, m - 1);
      InputReads(txs[p].inputs[m - 1]);
      assert txs[p].inputs[..m] == txs[p].inputs[..m - 1] + [txs[p].inputs[m - 1]];
    }
  }

  lemma OutputStored(t: Tables, b: BlockKey, txs: seq<Tx>, p: nat, i: nat)
    requires HoldsBody(t, b, txs) && p < |txs| && i < |txs[p].outputs|
    ensures var r := RowKey(TxKey(b, p), i); r in t.outputs && t.outputs[r] == OutputRowOf(txs[p].outputs[i])
  {
    hide OutputsOf, OutputRowOf;
    OutputRowsOfBody(b, txs, RowKey(TxKey(b, p), i));
  }

  lemma {:induction false} OutputsReload(t: Tables, b: BlockKey, txs: seq<Tx>, p: nat, m: nat)
    requires HoldsBody(t, b, txs) && p < |txs| && m <= |txs[p].outputs|
    ensures forall i :: 0 <= i < m ==> RowKey(TxKey(b, p), UpTo(m)[i]) in t.outputs
    ensures LoadOutputs(t, TxKey(b, p), UpTo(m)) == Some(txs[p].outputs[..m])
  {
    hide LoadOutput, OutputRowOf, HoldsBody;
    forall i: nat | i < m ensures RowKey(TxKey(b, p), i) in t.outputs { OutputStored(t, b, txs, p, i); }
    if m > 0 {
      OutputsReload(t, b, txs, p, m - 1);
      assert UpTo(m)[..m - 1] == UpTo(m - 1);
      OutputStored(t, b, txs, p, m - 1);
      OutputReads(txs[p].outputs[m - 1]);
      assert txs[p].outputs[..m] == txs[p].outputs[..m - 1] + [txs[p].outputs[m - 1]];
    }
  }

  /** The index sets under one transaction are `0..n`. */
  lemma RowIdsAreIntervals(t: Tables, b: BlockKey, txs: seq<Tx>, p: nat)
    requires HoldsBody(t, b, txs) && p < |txs|
    ensures Sorted(PageIds(t, TxKey(b, p))) == UpTo(|txs[p].pageHashes|)
    ensures Sorted(InputIds(t, TxKey(b, p))) == UpTo(|txs[p].inputs|)
    ensures Sorted(OutputIds(t, TxKey(b, p))) == UpTo(|txs[p].outputs|)
  {
    hide Sorted, PagesOf, InputsOf, OutputsOf;
    var k := TxKey(b, p);
    forall i: nat
      ensures i in PageIds(t, k) <==> 0 <= i < |txs[p].pageHashes|
      ensures i in InputIds(t, k) <==> 0 <= i < |txs[p].inputs|
      ensures i in OutputIds(t, k) <==> 0 <= i < |txs[p].outputs|
    {
      PageRowsOfBody(b, txs, RowKey(k, i));
      InputRowsOfBody(b, txs, RowKey(k, i));
      OutputRowsOfBody(b, txs, RowKey(k, i));
    }
    SortedInterval(PageIds(t, k), 0, |txs[p].pageHashes|);
    SortedInterval(InputIds(t, k), 0, |txs[p].inputs|);
    SortedInterval(OutputIds(t, k), 0, |txs[p].outputs|);
  }

  lemma PagesReload(t: Tables, b: BlockKey, txs: seq<Tx>, p: nat)
    requires HoldsBody(t, b, txs) && p < |txs|
    ensures var ids := UpTo(|txs[p].pageHashes|);
            (forall i :: 0 <= i < |ids| ==> RowKey(TxKey(b, p), ids[i]) in t.pages)
            && LoadPages(t, TxKey(b, p), ids) == txs[p].pageHashes
  {
    hide PagesOf;
    var ids := UpTo(|txs[p].pageHashes|);
    forall i: nat | i < |ids|
      ensures RowKey(TxKey(b, p), ids[i]) in t.pages && t.pages[RowKey(TxKey(b, p), ids[i])] == txs[p].pageHashes[i]
    {
      PageRowsOfBody(b, txs, RowKey(TxKey(b, p), i));
    }
  }

  lemma TxReloads(t: Tables, b: BlockKey, txs: seq<Tx>, p: nat)
    requires HoldsBody(t, b, txs) && p < |txs| && TxChecks(txs[p], p)
    ensures TxKey(b, p) in t.txs && LoadTx(t, TxKey(b, p)) == Some(txs[p])
  {
    hide LoadInputs, LoadOutputs, LoadPages, Sorted, TxsOf, HoldsBody, UpTo, PageIds, InputIds, OutputIds, SumInputs, SumOutputs, Decimal, TxidBytes;
    TxRowStored(t, b, txs, p);
    RowIdsAreIntervals(t, b, txs, p);
    InputsReload(t, b, txs, p, |txs[p].inputs|);
    OutputsReload(t, b, txs, p, |txs[p].outputs|);
    PagesReload(t, b, txs, p);
    CastsRoundTrip(txs[p].fee);
    assert txs[p].inputs[..|txs[p].inputs|] == txs[p].inputs && txs[p].outputs[..|txs[p].outputs|] == txs[p].outputs;
  }

  lemma TxRowStored(t: Tables, b: BlockKey, txs: seq<Tx>, p: nat)
    requires HoldsBody(t, b, txs) && p < |txs|
    ensures TxKey(b, p) in t.txs && t.txs[TxKey(b, p)] == TxRowOf(txs[p])
  {
    hide TxsOf;
    TxRowsOfBody(b, txs, TxKey(b, p));
  }

  lemma {:induction false} TxsReload(t: Tables, b: BlockKey, txs: seq<Tx>, n: nat)
    requires HoldsBody(t, b, txs) && n <= |txs|
    requires forall i :: 0 <= i < |txs| ==> TxChecks(txs[i], i)
    ensures forall i :: 0 <= i < n ==> TxKey(b, UpTo(n)[i]) in t.txs
    ensures LoadTxs(t, b, UpTo(n)) == Some(txs[..n])
  {
    hide LoadTx, HoldsBody, TxChecks;
    forall i: nat | i < n ensures TxKey(b, i) in t.txs { TxRowStored(t, b, txs, i); }
    if n > 0 {
      TxsReload(t, b, txs, n - 1);
      assert UpTo(n)[..n - 1] == UpTo(n - 1);
      TxReloads(t, b, txs, n - 1);
      assert txs[..n] == txs[..n - 1] + [txs[n - 1]];
    }
  }

  lemma PositionsAreInterval(t: Tables, b: BlockKey, txs: seq<Tx>)
    requires HoldsBody(t, b, txs)
    ensures Sorted(Positions(t, b)) == UpTo(|txs|)
  {
    hide Sorted, TxsOf;
    forall i: nat
      ensures i in Positions(t, b) <==> 0 <= i < |txs|
    {
      TxRowsOfBody(b, txs, TxKey(b, i));
    }
    SortedInterval(Positions(t, b), 0, |txs|);
  }

  /** What a permanode hands on for a body it took over: the block's size is not kept. */
  function HandedOn(t: Tables, b: BlockKey, body: Body): Body
    requires b in t.blocks
  {
    body.(blockBytes := 0, proofClass := KeptProofClass(t.blocks[b].proofClass, body.proofClass))
  }

  /**
    The round trip: a body that passes the check, stored into an empty row and marked
    recovered, is handed on unchanged but for its size, and passes the check again.
   */
  lemma StoredBodyReloads(t: Tables, b: BlockKey, body: Body, source: string, txRoot: string, root: seq<seq<nat>> -> string)
    requires b in t.blocks && NoRows(t, b) && BodyChecks(body, txRoot, root)
    ensures LoadBody(Recover(t, b, body, source), b) == Loaded(HandedOn(t, b, body))
    ensures BodyChecks(HandedOn(t, b, body), txRoot, root)
  {
    hide LoadTxs, Sorted, Positions, HoldsBody, UpTo, TxChecks, SumUserPages, SumLiveInputs, SumLiveOutputs, SumFees, SumOutputs, Txids, Decimal,
         TxsOf, PagesOf, InputsOf, OutputsOf;
    var u := Recover(t, b, body, source);
    ChecksPosition(body.txs);
    RecoveredHoldsBody(t, b, body, source);
    PositionsAreInterval(u, b, body.txs);
    TxsReload(u, b, body.txs, |body.txs|);
    assert body.txs[..|body.txs|] == body.txs;
    CastsRoundTrip(body.reward);
  }

  lemma ChecksPosition(txs: seq<Tx>)
    requires forall i :: 0 <= i < |txs| ==> TxChecks(txs[i], i)
    ensures WellPositioned(txs)
  {
    hide TxidBytes, Decimal, SumInputs, SumOutputs;
  }

  // ---------------------------------------------------------------- relaying

  /** Handing a body through a chain of permanodes, each storing it in its own empty row. */
  ghost function Relay(chain: seq<Tables>, b: BlockKey, source: string, body: Body): Loaded
    requires forall i :: 0 <= i < |chain| ==> b in chain[i].blocks
  {
    if chain == [] then Loaded(body) else
      match LoadBody(Recover(chain[0], b, body, source), b)
      case Loaded(received) => Relay(chain[1..], b, source, received)
      case Absent => Absent
      case Unreadable => Unreadable
  }

  /** Relaying loses nothing but the size, through any number of permanodes that knew only the header. */
  lemma {:induction false} RelayIsLossless(chain: seq<Tables>, b: BlockKey, source: string, body: Body, txRoot: string, root: seq<seq<nat>> -> string)
    requires forall i :: 0 <= i < |chain| ==> b in chain[i].blocks && NoRows(chain[i], b) && chain[i].blocks[b].proofClass == None
    requires BodyChecks(body, txRoot, root)
    ensures Relay(chain, b, source, body) == Loaded(if chain == [] then body else body.(blockBytes := 0))
    decreases |chain|
  {
    hide LoadBody, Recover, BodyChecks, NoRows, LikeUnavailable;
    if chain != [] {
      StoredBodyReloads(chain[0], b, body, source, txRoot, root);
      RelayIsLossless(chain[1..], b, source, HandedOn(chain[0], b, body), txRoot, root);
    }
  }

  // ---------------------------------------------------------------- which blocks are handed on

  /** A creation id on record does not read back. */
  ghost predicate BadInput(t: Tables, k: TxKey) {
    exists r: RowKey :: r in t.inputs && r.tx == k && ParseU64(t.inputs[r].creationId).None?
  }

  /** So for outputs, or there is none. */
  ghost predicate BadOutput(t: Tables, k: TxKey) {
    exists r: RowKey :: r in t.outputs && r.tx == k && (t.outputs[r].creationId.None? || ParseU64(t.outputs[r].creationId.value).None?)
  }

  lemma {:induction false} InputsReadWhen(t: Tables, k: TxKey, ids: seq<nat>)
    requires forall i :: 0 <= i < |ids| ==> RowKey(k, ids[i]) in t.inputs
    ensures LoadInputs(t, k, ids).None? <==> exists i :: 0 <= i < |ids| && ParseU64(t.inputs[RowKey(k, ids[i])].creationId).None?
  {
    hide ParseU64;
    if ids != [] { InputsReadWhen(t, k, ids[..|ids| - 1]); }
  }

  lemma {:induction false} OutputsReadWhen(t: Tables, k: TxKey, ids: seq<nat>)
    requires forall i :: 0 <= i < |ids| ==> RowKey(k, ids[i]) in t.outputs
    ensures LoadOutputs(t, k, ids).None? <==> exists i :: 0 <= i < |ids| && LoadOutput(t.outputs[RowKey(k, ids[i])]).None?
  {
    hide LoadOutput;
    if ids != [] { OutputsReadWhen(t, k, ids[..|ids| - 1]); }
  }

  lemma TxReadsWhen(t: Tables, k: TxKey)
    requires k in t.txs
    ensures LoadTx(t, k).None? <==> BadInput(t, k) || BadOutput(t, k)
  {
    hide ParseU64, Sorted;
    var ins, outs := Sorted(InputIds(t, k)), Sorted(OutputIds(t, k));
    InputsReadWhen(t, k, ins);
    OutputsReadWhen(t, k, outs);
    SortedMembers(InputIds(t, k));
    SortedMembers(OutputIds(t, k));
    assert BadInput(t, k) <==> LoadInputs(t, k, ins).None? by { InputIdHeld(t, k, ins); }
    assert BadOutput(t, k) <==> LoadOutputs(t, k, outs).None? by { OutputIdHeld(t, k, outs); }
  }

  lemma InputIdHeld(t: Tables, k: TxKey, ids: seq<nat>)
    requires (forall x :: x in ids <==> x in InputIds(t, k)) && forall i :: 0 <= i < |ids| ==> RowKey(k, ids[i]) in t.inputs
    ensures BadInput(t, k) <==> exists i :: 0 <= i < |ids| && ParseU64(t.inputs[RowKey(k, ids[i])].creationId).None?
  {
    hide ParseU64;
    if BadInput(t, k) {
      var r: RowKey :| r in t.inputs && r.tx == k && ParseU64(t.inputs[r].creationId).None?;
      assert r.idx in ids;
    }
  }

  lemma OutputIdHeld(t: Tables, k: TxKey, ids: seq<nat>)
    requires (forall x :: x in ids <==> x in OutputIds(t, k)) && forall i :: 0 <= i < |ids| ==> RowKey(k, ids[i]) in t.outputs
    ensures BadOutput(t, k) <==> exists i :: 0 <= i < |ids| && LoadOutput(t.outputs[RowKey(k, ids[i])]).None?
  {
    hide ParseU64;
    if BadOutput(t, k) {
      var r: RowKey :| r in t.outputs && r.tx == k && (t.outputs[r].creationId.None? || ParseU64(t.outputs[r].creationId.value).None?);
      assert r.idx in ids;
    }
  }

  lemma {:induction false} TxsReadWhen(t: Tables, b: BlockKey, positions: seq<nat>)
    requires forall i :: 0 <= i < |positions| ==> TxKey(b, positions[i]) in t.txs
    ensures LoadTxs(t, b, positions).None? <==>
            exists i :: 0 <= i < |positions| && (BadInput(t, TxKey(b, positions[i])) || BadOutput(t, TxKey(b, positions[i])))
  {
    hide LoadTx, BadInput, BadOutput;
    if positions != [] {
      TxsReadWhen(t, b, positions[..|positions| - 1]);
      TxReadsWhen(t, TxKey(b, positions[|positions| - 1]));
    }
  }

  /** A block is not handed on exactly when it has no body on record; it cannot be read exactly when a total is missing or a creation id does not read back. */
  lemma HandedOnWhen(t: Tables, b: BlockKey)
    ensures LoadBody(t, b) == Absent <==> b !in t.blocks || !t.blocks[b].captured
    ensures LoadBody(t, b) == Unreadable <==>
            && b in t.blocks && t.blocks[b].captured
            && (t.blocks[b].proofClass.None? || t.blocks[b].reward.None? || t.blocks[b].totalFees.None?
                || exists k :: k in t.txs && k.block == b && (BadInput(t, k) || BadOutput(t, k)))
  {
    hide LoadTxs, BadInput, BadOutput, Sorted;
    var positions := Sorted(Positions(t, b));
    SortedMembers(Positions(t, b));
    TxsReadWhen(t, b, positions);
    forall k | k in t.txs && k.block == b ensures k.position in positions && k == TxKey(b, k.position) {}
  }
}
