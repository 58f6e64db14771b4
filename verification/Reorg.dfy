/**
  Reorganisations leave no trace (permanode/src/indexer.rs, `recheck_height`): what the
  archive reports depends on the canonical versions alone, not on the branches it saw on
  the way - with one exception, which is characterised exactly.
 */
module Reorg {
  import opened Wrappers
  import opened Sums
  import opened Tables
  import opened View
  import opened BodyLaws
  import opened StatusLog
  import opened Runs
  import opened RunLaws
  import opened Balances
  import opened Chains

  /** The body a block's hash stands for. */
  type Bodies = BlockKey -> Body

  ghost predicate BodiesOk(bodyOf: Bodies) {
    forall b :: WellPositioned(bodyOf(b).txs)
  }

  /** Every block on record has its body's rows, and nothing else has any. */
  ghost predicate Pure(t: Tables, bodyOf: Bodies) {
    forall b :: PureAt(t, bodyOf, b)
  }

  ghost predicate PureAt(t: Tables, bodyOf: Bodies, b: BlockKey) {
    if b in t.blocks then t.blocks[b].captured && HoldsBody(t, b, bodyOf(b).txs) else NoRows(t, b)
  }

  predicate OfferHolds(offer: Offer, bodyOf: Bodies) {
    offer.body.Some? && offer.body.value.txs == bodyOf(KeyOf(offer.header)).txs
  }

  /** Blocks are recorded and replaced with their bodies, or orphaned without a replacement. */
  predicate Holds(step: Step, bodyOf: Bodies) {
    match step
    case Ingest(offer, now) => OfferHolds(offer, bodyOf)
    case Recheck(height, seen, offer, orphanedAt, now) => offer.Some? ==> OfferHolds(offer.value, bodyOf)
    case _ => false
  }

  ghost predicate AllHold(run: seq<Step>, bodyOf: Bodies) {
    forall i :: 0 <= i < |run| ==> Holds(run[i], bodyOf)
  }

  // ---------------------------------------------------------------- rows of a block stay its body's

  /** The rows of `b` are the same in both databases. */
  ghost predicate SameRows(t: Tables, u: Tables, b: BlockKey) {
    && (forall k: TxKey :: k.block == b ==> (k in u.txs <==> k in t.txs) && (k in u.txs ==> u.txs[k] == t.txs[k]))
    && (forall r: RowKey :: r.tx.block == b ==> (r in u.pages <==> r in t.pages) && (r in u.pages ==> u.pages[r] == t.pages[r]))
    && (forall r: RowKey :: r.tx.block == b ==> (r in u.inputs <==> r in t.inputs) && (r in u.inputs ==> u.inputs[r] == t.inputs[r]))
    && (forall r: RowKey :: r.tx.block == b ==> (r in u.outputs <==> r in t.outputs) && (r in u.outputs ==> u.outputs[r] == t.outputs[r]))
  }

  lemma PureStays(t: Tables, u: Tables, bodyOf: Bodies, b: BlockKey)
    requires PureAt(t, bodyOf, b) && SameRows(t, u, b)
    requires (b in u.blocks <==> b in t.blocks) && (b in t.blocks ==> u.blocks[b].captured == t.blocks[b].captured)
    ensures PureAt(u, bodyOf, b)
  {
    hide TxsOf, PagesOf, InputsOf, OutputsOf;
    if b in t.blocks {
    } else {
      forall k | k in u.txs ensures k.block != b { assert k.block == b ==> k in t.txs; }
      forall r | r in u.pages ensures r.tx.block != b { assert r.tx.block == b ==> r in t.pages; }
      forall r | r in u.inputs ensures r.tx.block != b { assert r.tx.block == b ==> r in t.inputs; }
      forall r | r in u.outputs ensures r.tx.block != b { assert r.tx.block == b ==> r in t.outputs; }
    }
  }

  lemma InsertedElsewhere(t: Tables, u: Tables, b: BlockKey, txs: seq<Tx>, a: BlockKey)
    requires WellPositioned(txs) && a != b
    requires u.txs == TxsOf(b, txs) + t.txs && u.pages == PagesOf(b, txs) + t.pages
    requires u.inputs == InputsOf(b, txs) + t.inputs && u.outputs == OutputsOf(b, txs) + t.outputs
    ensures SameRows(t, u, a)
  {
    hide TxsOf, PagesOf, InputsOf, OutputsOf;
    forall k: TxKey | k.block == a ensures k !in TxsOf(b, txs) { TxRowsOfBody(b, txs, k); }
    forall r: RowKey | r.tx.block == a ensures r !in PagesOf(b, txs) && r !in InputsOf(b, txs) && r !in OutputsOf(b, txs) {
      PageRowsOfBody(b, txs, r);
      InputRowsOfBody(b, txs, r);
      OutputRowsOfBody(b, txs, r);
    }
  }

  /** Inserting a body where nothing or the same body is stored leaves exactly that body. */
  lemma InsertedHere(t: Tables, u: Tables, b: BlockKey, txs: seq<Tx>)
    requires WellPositioned(txs) && (NoRows(t, b) || HoldsBody(t, b, txs))
    requires u.txs == TxsOf(b, txs) + t.txs && u.pages == PagesOf(b, txs) + t.pages
    requires u.inputs == InputsOf(b, txs) + t.inputs && u.outputs == OutputsOf(b, txs) + t.outputs
    ensures HoldsBody(u, b, txs)
  {
    hide TxsOf, PagesOf, InputsOf, OutputsOf, HoldsRows, HoldsTxs;
    TxsHere(t.txs, TxsOf(b, txs), b);
    RowsHere(t.pages, PagesOf(b, txs), b);
    RowsHere(t.inputs, InputsOf(b, txs), b);
    RowsHere(t.outputs, OutputsOf(b, txs), b);
  }

  lemma RowsHere<V>(m: map<RowKey, V>, rows: map<RowKey, V>, b: BlockKey)
    requires (forall r :: r in m ==> r.tx.block != b) || HoldsRows(m, rows, b)
    ensures HoldsRows(rows + m, rows, b)
  {
  }

  lemma TxsHere(m: map<TxKey, TxRow>, rows: map<TxKey, TxRow>, b: BlockKey)
    requires (forall k :: k in m ==> k.block != b) || HoldsTxs(m, rows, b)
    ensures HoldsTxs(rows + m, rows, b)
  {
  }

  /** What storing a body that is not the canonical one's writes. */
  lemma StoredTables(t: Tables, h: Header, body: Body, source: string, now: nat)
    requires CanonicalAt(t.log, h.height) != Some(KeyOf(h))
    ensures var u, b := StoreBlock(t, h, body, source, now), KeyOf(h);
            && u.txs == TxsOf(b, body.txs) + t.txs && u.pages == PagesOf(b, body.txs) + t.pages
            && u.inputs == InputsOf(b, body.txs) + t.inputs && u.outputs == OutputsOf(b, body.txs) + t.outputs
            && u.blocks.Keys == t.blocks.Keys + {b}
            && (b !in t.blocks ==> u.blocks[b].captured)
            && forall a :: a in t.blocks ==> u.blocks[a].captured == t.blocks[a].captured
  {
    hide CanonicalAt, TxsOf, PagesOf, InputsOf, OutputsOf, KeptProofClass, InsertBlockHeaderRow;
    NewHeaderRow(t, h, source, now);
  }

  lemma NewHeaderRow(t: Tables, h: Header, source: string, now: nat)
    ensures var u, b := InsertBlockHeaderRow(t, h, true, Some(source), now), KeyOf(h);
            && u == t.(blocks := u.blocks, log := u.log) && u.blocks.Keys == t.blocks.Keys + {b}
            && (b !in t.blocks ==> u.blocks[b].captured)
            && forall a :: a in t.blocks ==> u.blocks[a] == t.blocks[a]
  {
  }

  lemma StoringKeepsPure(t: Tables, offer: Offer, now: nat, bodyOf: Bodies)
    requires BodiesOk(bodyOf) && Pure(t, bodyOf) && OfferHolds(offer, bodyOf)
    ensures Pure(StoreOffer(t, offer, now), bodyOf)
  {
    hide CanonicalAt, TxsOf, PagesOf, InputsOf, OutputsOf, StoreBlock, PureAt, SameRows, HoldsBody, NoRows;
    var b, txs := KeyOf(offer.header), bodyOf(KeyOf(offer.header)).txs;
    var u := StoreOffer(t, offer, now);
    assert WellPositioned(txs);
    hide WellPositioned;
    if CanonicalAt(t.log, offer.header.height) != Some(b) {
      StoredTables(t, offer.header, offer.body.value, offer.source, now);
      forall a
        ensures PureAt(u, bodyOf, a)
      {
        assert PureAt(t, bodyOf, a);
        if a == b {
          StoredIsPure(t, u, bodyOf, b);
        } else {
          InsertedElsewhere(t, u, b, txs, a);
          PureStays(t, u, bodyOf, a);
        }
      }
    } else {
      assert PureAt(t, bodyOf, b);
      CapturedIsKept(t, offer, now, bodyOf);
    }
  }

  lemma StoredIsPure(t: Tables, u: Tables, bodyOf: Bodies, b: BlockKey)
    requires WellPositioned(bodyOf(b).txs) && PureAt(t, bodyOf, b)
    requires var txs := bodyOf(b).txs;
             u.txs == TxsOf(b, txs) + t.txs && u.pages == PagesOf(b, txs) + t.pages && u.inputs == InputsOf(b, txs) + t.inputs && u.outputs == OutputsOf(b, txs) + t.outputs
    requires b in u.blocks && (b !in t.blocks ==> u.blocks[b].captured) && (b in t.blocks ==> u.blocks[b].captured == t.blocks[b].captured)
    ensures PureAt(u, bodyOf, b)
  {
    hide TxsOf, PagesOf, InputsOf, OutputsOf, HoldsRows, HoldsTxs;
    InsertedHere(t, u, b, bodyOf(b).txs);
  }

  /** The canonical version offered again is already complete. */
  lemma CapturedIsKept(t: Tables, offer: Offer, now: nat, bodyOf: Bodies)
    requires PureAt(t, bodyOf, KeyOf(offer.header)) && OfferHolds(offer, bodyOf)
    requires CanonicalAt(t.log, offer.header.height) == Some(KeyOf(offer.header))
    ensures StoreOffer(t, offer, now) == t
  {
    hide CanonicalAt, InsertTransactions, HoldsBody, NoRows;
  }

  lemma SameRowsStayPure(t: Tables, u: Tables, bodyOf: Bodies)
    requires Pure(t, bodyOf)
    requires u.txs == t.txs && u.pages == t.pages && u.inputs == t.inputs && u.outputs == t.outputs && u.blocks == t.blocks
    ensures Pure(u, bodyOf)
  {
    hide PureAt, SameRows;
    forall b
      ensures PureAt(u, bodyOf, b)
    {
      assert PureAt(t, bodyOf, b);
      SameRowsOf(t, u, b);
      PureStays(t, u, bodyOf, b);
    }
  }

  lemma SameRowsOf(t: Tables, u: Tables, b: BlockKey)
    requires u.txs == t.txs && u.pages == t.pages && u.inputs == t.inputs && u.outputs == t.outputs
    ensures SameRows(t, u, b)
  {
  }

  lemma StepKeepsPure(t: Tables, step: Step, bodyOf: Bodies)
    requires BodiesOk(bodyOf) && Pure(t, bodyOf) && Holds(step, bodyOf)
    ensures Pure(Apply(t, step), bodyOf)
  {
    hide CanonicalAt, StoreOffer, Pure, RecordGap, OfferHolds, BodiesOk;
    match step
    case Ingest(offer, now) =>
      StoringKeepsPure(t, offer, now, bodyOf);
      SameRowsStayPure(StoreOffer(t, offer, now), Apply(t, step), bodyOf);
    case Recheck(height, seen, offer, orphanedAt, now) =>
      var r := CanonicalAt(t.log, height);
      if r.Some? && r.value.hash != seen && !IsHeaderOnly(t, r.value) {
        var t1 := MarkOrphaned(t, r.value, orphanedAt);
        SameRowsStayPure(t, t1, bodyOf);
        if offer.Some? {
          StoringKeepsPure(t1, offer.value, now, bodyOf);
        } else {
          GapRecorded(t1, height, Some(seen), orphanedAt);
          SameRowsStayPure(t1, RecordGap(t1, height, Some(seen), orphanedAt), bodyOf);
        }
      }
  }

  lemma {:induction false} RunKeepsPure(t: Tables, run: seq<Step>, bodyOf: Bodies)
    requires BodiesOk(bodyOf) && Pure(t, bodyOf) && AllHold(run, bodyOf)
    ensures Pure(After(t, run), bodyOf)
    decreases |run|
  {
    hide Pure, Apply, Holds, BodiesOk;
    if run != [] {
      StepKeepsPure(t, run[0], bodyOf);
      RunKeepsPure(Apply(t, run[0]), run[1..], bodyOf);
    }
  }

  lemma EmptyIsPure(bodyOf: Bodies)
    ensures Pure(EMPTY, bodyOf)
  {
    forall b ensures PureAt(EMPTY, bodyOf, b) {}
  }

  // ---------------------------------------------------------------- the view is the canonical versions'

  lemma CanonicalRows(t: Tables, u: Tables, bodyOf: Bodies, b: BlockKey)
    requires Pure(t, bodyOf) && Pure(u, bodyOf) && IsCanonical(t, b) && IsCanonical(u, b)
    ensures SameRows(t, u, b)
  {
    hide TxsOf, PagesOf, InputsOf, OutputsOf, LastStatus, WellPositioned;
    assert PureAt(t, bodyOf, b) && PureAt(u, bodyOf, b);
  }

  lemma SameVersionsSameView(t: Tables, u: Tables, bodyOf: Bodies)
    requires Pure(t, bodyOf) && Pure(u, bodyOf)
    requires forall b :: IsCanonical(t, b) <==> IsCanonical(u, b)
    ensures ViewOf(t) == ViewOf(u)
  {
    hide Pure, IsCanonical, SameRows;
    forall b | IsCanonical(t, b)
      ensures SameRows(t, u, b)
    {
      CanonicalRows(t, u, bodyOf, b);
    }
    SameTxs(t, u);
    SameInputs(t, u);
    SameOutputs(t, u);
  }

  ghost predicate SameWhereCanonical(t: Tables, u: Tables) {
    && (forall b :: IsCanonical(t, b) <==> IsCanonical(u, b))
    && forall b :: IsCanonical(t, b) ==> SameRows(t, u, b)
  }

  lemma SameTxs(t: Tables, u: Tables)
    requires SameWhereCanonical(t, u)
    ensures ViewOf(t).txs == ViewOf(u).txs && forall k :: Counts(t, k) <==> Counts(u, k)
  {
    hide IsCanonical, SameRows;
    forall k
      ensures Counts(t, k) <==> Counts(u, k)
      ensures Counts(t, k) ==> t.txs[k] == u.txs[k]
    {
      if IsCanonical(t, k.block) { RowsOfCanonical(t, u, k.block); }
    }
  }

  lemma RowsOfCanonical(t: Tables, u: Tables, b: BlockKey)
    requires SameRows(t, u, b)
    ensures forall k: TxKey :: k.block == b ==> (k in u.txs <==> k in t.txs) && (k in u.txs ==> u.txs[k] == t.txs[k])
    ensures forall r: RowKey :: r.tx.block == b ==> (r in u.inputs <==> r in t.inputs) && (r in u.inputs ==> u.inputs[r] == t.inputs[r])
    ensures forall r: RowKey :: r.tx.block == b ==> (r in u.outputs <==> r in t.outputs) && (r in u.outputs ==> u.outputs[r] == t.outputs[r])
  {
  }

  lemma SameInputs(t: Tables, u: Tables)
    requires SameWhereCanonical(t, u)
    ensures ViewOf(t).inputs == ViewOf(u).inputs
  {
    hide IsCanonical, SameRows;
    SameTxs(t, u);
    forall r: RowKey | Counts(t, r.tx)
      ensures (r in u.inputs <==> r in t.inputs) && (r in u.inputs ==> u.inputs[r] == t.inputs[r])
    {
      RowsOfCanonical(t, u, r.tx.block);
    }
  }

  lemma SameOutputs(t: Tables, u: Tables)
    requires SameWhereCanonical(t, u)
    ensures ViewOf(t).outputs == ViewOf(u).outputs
  {
    hide IsCanonical, SameRows;
    SameTxs(t, u);
    forall r: RowKey | Counts(t, r.tx)
      ensures (r in u.outputs <==> r in t.outputs) && (r in u.outputs ==> u.outputs[r] == t.outputs[r])
    {
      RowsOfCanonical(t, u, r.tx.block);
    }
  }

  /** Two archives that ended on the same versions, over whatever branches, show the same history. */
  lemma BranchesLeaveNoTrace(run: seq<Step>, other: seq<Step>, bodyOf: Bodies)
    requires BodiesOk(bodyOf) && AllHold(run, bodyOf) && AllHold(other, bodyOf)
    requires forall b :: IsCanonical(After(EMPTY, run), b) <==> IsCanonical(After(EMPTY, other), b)
    ensures ViewOf(After(EMPTY, run)) == ViewOf(After(EMPTY, other))
  {
    hide Pure, IsCanonical, Holds, BodiesOk, ViewOf;
    EmptyIsPure(bodyOf);
    RunKeepsPure(EMPTY, run, bodyOf);
    RunKeepsPure(EMPTY, other, bodyOf);
    SameVersionsSameView(After(EMPTY, run), After(EMPTY, other), bodyOf);
  }

  // ---------------------------------------------------------------- the branch alone

  /** The run of an archive that saw only this branch. */
  ghost function Straight(branch: seq<Header>, bodyOf: Bodies): seq<Step> {
    if branch == [] then [] else
      var last := branch[|branch| - 1];
      Straight(branch[..|branch| - 1], bodyOf) + [Ingest(Offer(last, Some(bodyOf(KeyOf(last))), "details"), |branch| - 1)]
  }

  ghost predicate Consecutive(branch: seq<Header>) {
    forall i :: 0 <= i < |branch| ==> branch[i].height == branch[0].height + i && branch[i].height >= 1
  }

  ghost predicate OnBranch(branch: seq<Header>, b: BlockKey) {
    exists i :: 0 <= i < |branch| && KeyOf(branch[i]) == b
  }

  ghost predicate StraightOk(t: Tables, branch: seq<Header>) {
    && (forall i :: 0 <= i < |t.log| ==> t.log[i].at < |branch|)
    && (forall b :: Canon(t.log, b) <==> OnBranch(branch, b))
    && (forall b :: b in t.blocks <==> OnBranch(branch, b))
    && t.cursor == if branch == [] then None else Some(branch[|branch| - 1].height)
  }

  lemma OneMoreOnBranch(branch: seq<Header>, b: BlockKey)
    requires branch != []
    ensures OnBranch(branch, b) <==> OnBranch(branch[..|branch| - 1], b) || b == KeyOf(branch[|branch| - 1])
  {
    var front := branch[..|branch| - 1];
    if OnBranch(front, b) {
      var i :| 0 <= i < |front| && KeyOf(front[i]) == b;
      assert KeyOf(branch[i]) == b;
    }
    if OnBranch(branch, b) && b != KeyOf(branch[|branch| - 1]) {
      var i :| 0 <= i < |branch| && KeyOf(branch[i]) == b;
      assert KeyOf(front[i]) == b;
    }
  }

  lemma {:induction false} StraightRun(branch: seq<Header>, bodyOf: Bodies)
    requires Consecutive(branch)
    ensures ValidRun(EMPTY, 0, 0, Straight(branch, bodyOf)) && StraightOk(After(EMPTY, Straight(branch, bodyOf)), branch)
    ensures AllHold(Straight(branch, bodyOf), bodyOf)
  {
    hide ValidRun, After, StraightOk, Enabled, Apply, Inv;
    if branch == [] {
      NothingIngested();
    } else {
      var front := branch[..|branch| - 1];
      StraightRun(front, bodyOf);
      var run := Straight(front, bodyOf);
      EmptyDatabaseOk();
      RunKeepsInv(EMPTY, 0, 0, run);
      var t := After(EMPTY, run);
      var step := Ingest(Offer(branch[|branch| - 1], Some(bodyOf(KeyOf(branch[|branch| - 1]))), "details"), |branch| - 1);
      NextIngest(t, branch, step, FirstAfter(EMPTY, 0, run), LowestAfter(EMPTY, 0, run));
      RunAppends(EMPTY, 0, 0, run, step);
    }
  }

  lemma NothingIngested()
    ensures ValidRun(EMPTY, 0, 0, []) && StraightOk(After(EMPTY, []), [])
  {
  }

  lemma NextIngest(t: Tables, branch: seq<Header>, step: Step, first: nat, lowest: nat)
    requires branch != [] && Consecutive(branch) && StraightOk(t, branch[..|branch| - 1]) && Inv(t, first, lowest)
    requires step.Ingest? && step.offer.header == branch[|branch| - 1] && step.offer.body.Some? && step.offer.source == "details" && step.now == |branch| - 1
    ensures Enabled(t, first, lowest, step) && StraightOk(Apply(t, step), branch)
  {
    hide Canon, StoreOffer, OnBranch, HistoryOk, HeadersOk, ArchiveOk, Inv;
    var h := branch[|branch| - 1];
    NextHeightIsFree(t, first, lowest, h.height);
    InvHistory(t, first, lowest);
    NothingCanonicalAt(t, h.height);
    HistoryParts(t);
    NoVersionNoLookup(t.log, h.height);
    StoreOfferAdopts(t, step.offer, step.now);
    var u := StoreOffer(t, step.offer, step.now);
    forall b
      ensures OnBranch(branch, b) <==> OnBranch(branch[..|branch| - 1], b) || b == KeyOf(h)
      ensures Canon(u.log, b) <==> Canon(t.log, b) || b == KeyOf(h)
    {
      OneMoreOnBranch(branch, b);
      CanonAppended(t.log, KeyOf(h), step.now, b);
    }
  }

  lemma InvHistory(t: Tables, first: nat, lowest: nat)
    requires Inv(t, first, lowest)
    ensures HistoryOk(t)
  {
  }

  lemma CanonAppended(log: seq<StatusEntry>, b: BlockKey, now: nat, a: BlockKey)
    ensures Canon(log + [StatusEntry(b, Canonical, now)], a) <==> Canon(log, a) || a == b
  {
    Appended(log, StatusEntry(b, Canonical, now), a);
  }

  // ---------------------------------------------------------------- transparency

  /** Where only canonical blocks are on record, every output row counts. */
  lemma NothingElseRecorded(u: Tables, bodyOf: Bodies)
    requires BodiesOk(bodyOf) && Pure(u, bodyOf) && forall b :: b in u.blocks ==> IsCanonical(u, b)
    ensures ViewOf(u).outputs == u.outputs
  {
    hide IsCanonical, TxsOf, OutputsOf, PagesOf, InputsOf, WellPositioned, Pure, BodiesOk;
    forall r | r in u.outputs
      ensures Counts(u, r.tx)
    {
      RowCounts(u, bodyOf, r);
    }
  }

  lemma RowCounts(u: Tables, bodyOf: Bodies, r: RowKey)
    requires BodiesOk(bodyOf) && Pure(u, bodyOf) && (forall b :: b in u.blocks ==> IsCanonical(u, b)) && r in u.outputs
    ensures Counts(u, r.tx)
  {
    hide IsCanonical, TxsOf, OutputsOf, PagesOf, InputsOf;
    var b := r.tx.block;
    assert PureAt(u, bodyOf, b);
    OutputRowsOfBody(b, bodyOf(b).txs, r);
    TxRowsOfBody(b, bodyOf(b).txs, r.tx);
  }

  lemma NoneOrphaned(v: View, address: string)
    ensures Total(OrphanedInputs(v, v.outputs, address)) == 0
  {
    assert OrphanedInputs(v, v.outputs, address) == map[];
  }

  /** Equal views: all figures agree, and `sentFromUnrecorded` is off by what orphaned rows hide. */
  lemma BalanceDiffers(t: Tables, u: Tables, address: string)
    requires ViewOf(t) == ViewOf(u) && ViewOf(u).outputs == u.outputs
    ensures BalanceOf(u, address) ==
            BalanceOf(t, address).(sentFromUnrecorded := BalanceOf(t, address).sentFromUnrecorded + Total(OrphanedInputs(ViewOf(t), t.outputs, address)))
  {
    hide Total, ViewOf, ReceivedRows, UnspentRows, SentTxs, UnrecordedInputs, OrphanedInputs, SentInputs, MatchedInputs;
    var v := ViewOf(t);
    ViewIsPart(t);
    SentSplits(v, t.outputs, address);
    SentSplits(v, u.outputs, address);
    NoneOrphaned(v, address);
  }

  /**
    Whatever the branches, an archive shows the same history as one that only ever saw the
    final branch, and of an address's figures one can differ, by exactly the inputs whose
    coin only orphaned blocks carry.
   */
  lemma ReorgDifference(run: seq<Step>, branch: seq<Header>, bodyOf: Bodies, address: string)
    requires BodiesOk(bodyOf) && AllHold(run, bodyOf) && Consecutive(branch)
    requires forall b :: IsCanonical(After(EMPTY, run), b) <==> OnBranch(branch, b)
    ensures var t, u := After(EMPTY, run), After(EMPTY, Straight(branch, bodyOf));
            && ValidRun(EMPTY, 0, 0, Straight(branch, bodyOf)) && ViewOf(t) == ViewOf(u)
            && BalanceOf(u, address) ==
               BalanceOf(t, address).(sentFromUnrecorded := BalanceOf(t, address).sentFromUnrecorded + Total(OrphanedInputs(ViewOf(t), t.outputs, address)))
  {
    hide Pure, Holds, BodiesOk, ViewOf, BalanceOf, After, Straight, Total, OrphanedInputs, Consecutive, OnBranch, ValidRun;
    StraightRun(branch, bodyOf);
    var t, u := After(EMPTY, run), After(EMPTY, Straight(branch, bodyOf));
    EmptyIsPure(bodyOf);
    RunKeepsPure(EMPTY, Straight(branch, bodyOf), bodyOf);
    BranchesLeaveNoTrace(run, Straight(branch, bodyOf), bodyOf);
    NothingElseRecorded(u, bodyOf);
    BalanceDiffers(t, u, address);
  }

  // ---------------------------------------------------------------- forks above the archive's start

  /** The chain that leads to a block. */
  type Pasts = BlockKey -> seq<Mined>

  ghost function BranchChain(branch: seq<Header>, bodyOf: Bodies): seq<Mined> {
    seq(|branch|, i requires 0 <= i < |branch| => Mined(KeyOf(branch[i]), bodyOf(KeyOf(branch[i]))))
  }

  /** Every block on record ends a valid chain from this origin: no fork lies below it. */
  ghost predicate Rooted(t: Tables, origin: Origin, bodyOf: Bodies, past: Pasts) {
    forall b :: b in t.blocks ==> EndsChain(origin, past(b), Mined(b, bodyOf(b)))
  }

  ghost predicate EndsChain(origin: Origin, chain: seq<Mined>, m: Mined) {
    chain != [] && chain[|chain| - 1] == m && ChainOk(origin, chain)
  }

  /** Ids a block creates were not handed out before the archive's start. */
  lemma CreatedAfterOrigin(origin: Origin, chain: seq<Mined>, m: Mined)
    requires EndsChain(origin, chain, m)
    ensures Ids(CreatedBy(m.body)) !! origin.given
  {
    hide CreatedBy, SpentBy, Ids, NodeAt;
    PrefixOk(origin, chain[..|chain| - 1], 0);
  }

  /** An id handed out by the end of a chain is from before it, or created by one of its blocks. */
  lemma {:induction false} GivenByWhom(origin: Origin, chain: seq<Mined>, id: string) returns (j: nat)
    requires id in GivenAt(origin, chain) && id !in origin.given
    ensures j < |chain| && id in Ids(CreatedBy(chain[j].body))
  {
    hide CreatedBy, Ids;
    if id in Ids(CreatedBy(chain[|chain| - 1].body)) {
      j := |chain| - 1;
    } else {
      j := GivenByWhom(origin, chain[..|chain| - 1], id);
    }
  }

  lemma CanonicalInputSpends(t: Tables, bodyOf: Bodies, k: RowKey)
    requires BodiesOk(bodyOf) && Pure(t, bodyOf) && k in ViewOf(t).inputs
    ensures IsCanonical(t, k.tx.block) && ViewOf(t).inputs[k].creationId in SpentBy(bodyOf(k.tx.block))
  {
    hide TxsOf, PagesOf, InputsOf, OutputsOf, SpentBy, LastStatus;
    var b := k.tx.block;
    assert PureAt(t, bodyOf, b);
    InputSpends(Mined(b, bodyOf(b)), k);
  }

  lemma RecordedOutputCreates(t: Tables, bodyOf: Bodies, k: RowKey)
    requires BodiesOk(bodyOf) && Pure(t, bodyOf) && k in t.outputs
    ensures k.tx.block in t.blocks && t.outputs[k].creationId.Some? && t.outputs[k].creationId.value in Ids(CreatedBy(bodyOf(k.tx.block)))
  {
    hide TxsOf, PagesOf, InputsOf, OutputsOf, CreatedBy;
    var b := k.tx.block;
    assert PureAt(t, bodyOf, b);
    OutputCreates(Mined(b, bodyOf(b)), k);
  }

  /** What a canonical block creates, a canonical row carries. */
  lemma CreatedIsCarried(t: Tables, bodyOf: Bodies, b: BlockKey, id: string)
    requires BodiesOk(bodyOf) && Pure(t, bodyOf) && IsCanonical(t, b) && id in Ids(CreatedBy(bodyOf(b)))
    ensures Carries(ViewOf(t).outputs, id)
  {
    hide TxsOf, PagesOf, InputsOf, OutputsOf, CreatedBy, LastStatus;
    var m := Mined(b, bodyOf(b));
    assert PureAt(t, bodyOf, b);
    var c :| c in CreatedBy(bodyOf(b)) && c.creationId == id;
    var k := CreatedHasOutput(m, c);
    OutputRowsOfBody(b, m.body.txs, k);
    TxRowsOfBody(b, m.body.txs, k.tx);
    assert k in ViewOf(t).outputs;
  }

  lemma SpentOnBranchIsCanonical(t: Tables, origin: Origin, bodyOf: Bodies, past: Pasts, branch: seq<Header>, k: RowKey)
    requires BodiesOk(bodyOf) && Pure(t, bodyOf) && Rooted(t, origin, bodyOf, past) && ChainOk(origin, BranchChain(branch, bodyOf))
    requires forall b :: IsCanonical(t, b) <==> OnBranch(branch, b)
    requires k in ViewOf(t).inputs && Carries(t.outputs, ViewOf(t).inputs[k].creationId)
    ensures Carries(ViewOf(t).outputs, ViewOf(t).inputs[k].creationId)
  {
    hide Pure, BodiesOk, ViewOf, SpentBy, CreatedBy, ChainOk, GivenAt, NodeAt, IsCanonical;
    var id, chain := ViewOf(t).inputs[k].creationId, BranchChain(branch, bodyOf);
    CanonicalInputSpends(t, bodyOf, k);
    var i :| 0 <= i < |branch| && KeyOf(branch[i]) == k.tx.block;
    BlockExtends(origin, chain, i);
    var r :| r in t.outputs && t.outputs[r].creationId == Some(id);
    RecordedOutputCreates(t, bodyOf, r);
    CreatedAfterOrigin(origin, past(r.tx.block), Mined(r.tx.block, bodyOf(r.tx.block)));
    var j := GivenByWhom(origin, chain, id);
    assert OnBranch(branch, chain[j].key);
    CreatedIsCarried(t, bodyOf, chain[j].key, id);
  }

  /**
    Reorganisations leave no trace at all: where every block on record, on whatever branch,
    continues the chain from below the archive's start, an archive shows the history and
    reports the figures of one that only ever saw the final branch.
   */
  lemma ReorgTransparency(run: seq<Step>, branch: seq<Header>, bodyOf: Bodies, origin: Origin, past: Pasts, address: string)
    requires BodiesOk(bodyOf) && AllHold(run, bodyOf) && Consecutive(branch)
    requires forall b :: IsCanonical(After(EMPTY, run), b) <==> OnBranch(branch, b)
    requires Rooted(After(EMPTY, run), origin, bodyOf, past) && ChainOk(origin, BranchChain(branch, bodyOf))
    ensures var t, u := After(EMPTY, run), After(EMPTY, Straight(branch, bodyOf));
            && ValidRun(EMPTY, 0, 0, Straight(branch, bodyOf))
            && ViewOf(t) == ViewOf(u) && BalanceOf(t, address) == BalanceOf(u, address)
  {
    hide Pure, Holds, BodiesOk, ViewOf, BalanceOf, After, Straight, Consecutive, OnBranch, ValidRun, Rooted, ChainOk, Carries, IsCanonical;
    var t := After(EMPTY, run);
    EmptyIsPure(bodyOf);
    RunKeepsPure(EMPTY, run, bodyOf);
    ReorgDifference(run, branch, bodyOf, address);
    forall k | k in SentInputs(ViewOf(t), address) && Carries(t.outputs, ViewOf(t).inputs[k].creationId)
      ensures Carries(ViewOf(t).outputs, ViewOf(t).inputs[k].creationId)
    {
      SpentOnBranchIsCanonical(t, origin, bodyOf, past, branch, k);
    }
    EmptyWhen(ViewOf(t), t.outputs, address);
    NothingToTotal(OrphanedInputs(ViewOf(t), t.outputs, address));
  }

  lemma NothingToTotal(m: map<RowKey, int>)
    requires m == map[]
    ensures Total(m) == 0
  {
  }

  // ---------------------------------------------------------------- forks below it

  /** An address's figures are the branch's own exactly when no coin it spent is known from orphaned blocks alone. */
  lemma BalanceTransparentWhen(run: seq<Step>, branch: seq<Header>, bodyOf: Bodies, address: string)
    requires BodiesOk(bodyOf) && AllHold(run, bodyOf) && Consecutive(branch)
    requires forall b :: IsCanonical(After(EMPTY, run), b) <==> OnBranch(branch, b)
    requires var v := ViewOf(After(EMPTY, run)); forall k :: k in v.inputs ==> v.inputs[k].amount > 0
    ensures var t, u := After(EMPTY, run), After(EMPTY, Straight(branch, bodyOf));
            BalanceOf(t, address) == BalanceOf(u, address) <==>
            forall k :: k in SentInputs(ViewOf(t), address) && Carries(t.outputs, ViewOf(t).inputs[k].creationId) ==> Carries(ViewOf(t).outputs, ViewOf(t).inputs[k].creationId)
  {
    hide AllHold, BodiesOk, ViewOf, BalanceOf, After, Straight, Total, Consecutive, OnBranch, Carries, ValidRun, IsCanonical;
    var t := After(EMPTY, run);
    ReorgDifference(run, branch, bodyOf, address);
    TotalPositive(OrphanedInputs(ViewOf(t), t.outputs, address));
    EmptyWhen(ViewOf(t), t.outputs, address);
  }
}
