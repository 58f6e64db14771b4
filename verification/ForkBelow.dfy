/**
  A reorganisation that forks below the archive's first height: the one case in which an
  address's figures keep a trace of the branch that was left (core/src/queries.rs,
  `address_balance`). Both branches are valid chains of checked bodies.
 */
module ForkBelow {
  import opened Wrappers
  import opened Sums
  import opened Tables
  import opened View
  import opened Sweep
  import opened Bodies
  import opened BodyLaws
  import opened StatusLog
  import opened Runs
  import opened RunLaws
  import opened Balances
  import opened Chains
  import opened ExampleBlocks
  import opened Reorg

  // ---------------------------------------------------------------- the blocks

  const LEFT := Header(11, "a", "p", "", 0, "m", 24)
  const FIRST := Header(11, "b", "q", "", 0, "m", 24)
  const SECOND := Header(12, "c", "b", "", 0, "m", 24)

  const LOST := Output(0, 0, 0, 5, "x", 7)
  const MINED := Output(0, 0, 1, 5, "m", 8)
  const MINED_NEXT := Output(0, 0, 2, 6, "m", 9)
  const PAID := Output(0, 0, 3, 4, "y", 10)
  const SPENT := Input(0, 0, 0, 5, 7)

  /** `a` creates coin 7 on the branch that is left; on the other it is older than the archive, and `c` spends it. */
  function BodyOf(b: BlockKey): Body {
    if b == KeyOf(LEFT) then Empty(LOST) else if b == KeyOf(SECOND) then WithSpend(MINED_NEXT, SPENT, PAID) else Empty(MINED)
  }

  // ---------------------------------------------------------------- they are valid chains

  /** Before the branch that is left. */
  const P := Origin(10, {}, {})
  /** Before the branch that stays: coin 7 was created below the archive. */
  const Q := Origin(10, {CreatedCoin(LOST)}, {Decimal(7)})

  lemma IdsDiffer()
    ensures Decimal(7) != Decimal(8) && Decimal(7) != Decimal(9) && Decimal(7) != Decimal(10)
    ensures Decimal(8) != Decimal(9) && Decimal(8) != Decimal(10) && Decimal(9) != Decimal(10)
  {
    hide Decimal;
    DecimalsDiffer(7, 8);
    DecimalsDiffer(7, 9);
    DecimalsDiffer(7, 10);
    DecimalsDiffer(8, 9);
    DecimalsDiffer(8, 10);
    DecimalsDiffer(9, 10);
  }

  lemma LeftChainOk()
    ensures ChainOk(P, [Mined(KeyOf(LEFT), BodyOf(KeyOf(LEFT)))])
  {
    hide Decimal, SpentBy, CreatedBy, DistinctIds, SlotsFit, WellPositioned, Empty;
    EmptyMoves(LOST);
    var chain := [Mined(KeyOf(LEFT), BodyOf(KeyOf(LEFT)))];
    assert chain[..0] == [];
    assert NodeAfter({}, Empty(LOST)) == {CreatedCoin(LOST)};
    assert ValidNext({}, {}, Empty(LOST));
  }

  const FINAL := [Mined(KeyOf(FIRST), BodyOf(KeyOf(FIRST))), Mined(KeyOf(SECOND), BodyOf(KeyOf(SECOND)))]

  lemma FirstBlockOk()
    ensures NodeAfter(Q.coins, Empty(MINED)) == {CreatedCoin(LOST), CreatedCoin(MINED)}
    ensures ValidNext(Q.coins, Q.given, Empty(MINED))
  {
    hide Decimal, SpentBy, CreatedBy, DistinctIds, SlotsFit, WellPositioned, Empty;
    IdsDiffer();
    EmptyMoves(MINED);
    assert NodeAfter(Q.coins, Empty(MINED)) == {CreatedCoin(LOST), CreatedCoin(MINED)};
  }

  lemma SecondBlockOk()
    ensures ValidNext({CreatedCoin(LOST), CreatedCoin(MINED)}, {Decimal(7), Decimal(8)}, WithSpend(MINED_NEXT, SPENT, PAID))
  {
    hide Decimal, SpentBy, CreatedBy, DistinctIds, SlotsFit, WellPositioned, WithSpend;
    IdsDiffer();
    WithSpendMoves(MINED_NEXT, SPENT, PAID);
    assert NodeAfter({CreatedCoin(LOST), CreatedCoin(MINED)}, WithSpend(MINED_NEXT, SPENT, PAID)) == {CreatedCoin(MINED), CreatedCoin(MINED_NEXT), CreatedCoin(PAID)};
  }

  lemma FinalChainOk()
    ensures ChainOk(Q, FINAL)
  {
    hide Decimal, SpentBy, CreatedBy, ValidNext, NodeAfter, Empty, WithSpend;
    FirstBlockOk();
    SecondBlockOk();
    EmptyMoves(MINED);
    var front := [Mined(KeyOf(FIRST), BodyOf(KeyOf(FIRST)))];
    assert FINAL[..1] == front && front[..0] == [];
    assert Ids(Q.coins) == {Decimal(7)} && NodeOk(Q.coins);
    assert ChainOk(Q, front) && NodeAt(Q, front) == {CreatedCoin(LOST), CreatedCoin(MINED)};
    assert GivenAt(Q, front) == {Decimal(7), Decimal(8)};
  }

  // ---------------------------------------------------------------- the run

  function OfferOf(h: Header): Offer {
    Offer(h, Some(BodyOf(KeyOf(h))), "details")
  }

  /** `a` is recorded, replaced by `b`, and `c` follows. */
  const RUN := [Ingest(OfferOf(LEFT), 0), Recheck(11, "b", Some(OfferOf(FIRST)), 1, 2), Ingest(OfferOf(SECOND), 3)]

  lemma IngestsOne(t: Tables, first: nat, lowest: nat, h: Header, now: nat)
    requires Inv(t, first, lowest) && h.height >= 1 && (t.cursor.Some? ==> h.height == t.cursor.value + 1)
    ensures var u := Apply(t, Ingest(OfferOf(h), now));
            u.log == t.log + [StatusEntry(KeyOf(h), Canonical, now)] && u.blocks.Keys == t.blocks.Keys + {KeyOf(h)} && u.cursor == Some(h.height as nat)
  {
    hide Canon, StoreOffer, HistoryOk, HeadersOk, ArchiveOk, Inv, BodyOf, CanonicalAt;
    NextHeightIsFree(t, first, lowest, h.height);
    InvHistory(t, first, lowest);
    NothingCanonicalAt(t, h.height);
    HistoryParts(t);
    NoVersionNoLookup(t.log, h.height);
    StoreOfferAdopts(t, OfferOf(h), now);
  }

  lemma FirstStep() returns (t: Tables)
    ensures t == Apply(EMPTY, RUN[0]) && Enabled(EMPTY, 0, 0, RUN[0]) && Inv(t, 11, 11)
    ensures t.log == [StatusEntry(KeyOf(LEFT), Canonical, 0)] && t.blocks.Keys == {KeyOf(LEFT)} && t.cursor == Some(11)
  {
    hide Inv, Apply, BodyOf;
    EmptyDatabaseOk();
    IngestsOne(EMPTY, 0, 0, LEFT, 0);
    t := Apply(EMPTY, RUN[0]);
    StepKeepsInv(EMPTY, 0, 0, RUN[0]);
  }

  lemma SecondStep(t: Tables) returns (u: Tables)
    requires Inv(t, 11, 11) && t.log == [StatusEntry(KeyOf(LEFT), Canonical, 0)] && t.blocks.Keys == {KeyOf(LEFT)} && t.cursor == Some(11)
    ensures u == Apply(t, RUN[1]) && Enabled(t, 11, 11, RUN[1]) && Inv(u, 11, 11)
    ensures u.log == t.log + [StatusEntry(KeyOf(LEFT), Orphaned, 1), StatusEntry(KeyOf(FIRST), Canonical, 2)]
    ensures u.blocks.Keys == {KeyOf(LEFT), KeyOf(FIRST)} && u.cursor == Some(11)
  {
    hide Inv, StoreOffer, BodyOf, CanonicalAt, HistoryOk;
    var a := KeyOf(LEFT);
    assert Canon(t.log, a);
    InvHistory(t, 11, 11);
    HistoryParts(t);
    LookupIsTheVersion(t.log, 11, a);
    FirstIsArchived(t);
    var t1 := MarkOrphaned(t, a, 1);
    OrphanedHistory(t, a, 1, 11, 2);
    OnlyCanonical(t, a);
    HistoryParts(t1);
    NoVersionNoLookup(t1.log, 11);
    StoreOfferAdopts(t1, OfferOf(FIRST), 2);
    u := Apply(t, RUN[1]);
    StepKeepsInv(t, 11, 11, RUN[1]);
  }

  lemma FirstIsArchived(t: Tables)
    requires Inv(t, 11, 11) && t.cursor.Some? && t.blocks.Keys == {KeyOf(LEFT)}
    ensures !IsHeaderOnly(t, KeyOf(LEFT))
  {
    hide HistoryOk, LinkedUp, Canon;
  }

  lemma TablesOfRun() returns (t: Tables)
    ensures t == After(EMPTY, RUN) && ValidRun(EMPTY, 0, 0, RUN)
    ensures t.blocks.Keys == {KeyOf(LEFT), KeyOf(FIRST), KeyOf(SECOND)}
    ensures forall b :: Canon(t.log, b) <==> b == KeyOf(FIRST) || b == KeyOf(SECOND)
  {
    hide Inv, Apply, Enabled, BodyOf, Canon;
    var t1 := FirstStep();
    var t2 := SecondStep(t1);
    IngestsOne(t2, 11, 11, SECOND, 3);
    t := Apply(t2, RUN[2]);
    ThirdEnabled(t2);
    RunIs(t1, t2, t);
    forall b ensures Canon(t.log, b) <==> b == KeyOf(FIRST) || b == KeyOf(SECOND) { Versions(t.log, b); }
  }

  lemma ThirdEnabled(t: Tables)
    requires t.cursor == Some(11)
    requires t.log == [StatusEntry(KeyOf(LEFT), Canonical, 0), StatusEntry(KeyOf(LEFT), Orphaned, 1), StatusEntry(KeyOf(FIRST), Canonical, 2)]
    ensures Enabled(t, 11, 11, RUN[2])
  {
    hide BodyOf;
  }

  lemma RunIs(t1: Tables, t2: Tables, t: Tables)
    requires t1 == Apply(EMPTY, RUN[0]) && t2 == Apply(t1, RUN[1]) && t == Apply(t2, RUN[2])
    requires Enabled(EMPTY, 0, 0, RUN[0]) && Enabled(t1, 11, 11, RUN[1]) && Enabled(t2, 11, 11, RUN[2])
    ensures ValidRun(EMPTY, 0, 0, RUN) && After(EMPTY, RUN) == t
  {
    hide Apply, Enabled, BodyOf;
    assert RUN[1..][1..] == [RUN[2]];
    assert NextFirst(EMPTY, 0, RUN[0]) == 11 && NextLowest(EMPTY, 0, RUN[0]) == 11;
    assert ValidRun(t2, 11, 11, [RUN[2]]) && After(t2, [RUN[2]]) == t;
    assert ValidRun(t1, 11, 11, RUN[1..]) && After(t1, RUN[1..]) == t;
  }

  lemma Versions(log: seq<StatusEntry>, b: BlockKey)
    requires log == [StatusEntry(KeyOf(LEFT), Canonical, 0), StatusEntry(KeyOf(LEFT), Orphaned, 1), StatusEntry(KeyOf(FIRST), Canonical, 2), StatusEntry(KeyOf(SECOND), Canonical, 3)]
    ensures Canon(log, b) <==> b == KeyOf(FIRST) || b == KeyOf(SECOND)
  {
    var one := [StatusEntry(KeyOf(LEFT), Canonical, 0)];
    var two := one + [StatusEntry(KeyOf(LEFT), Orphaned, 1)];
    var three := two + [StatusEntry(KeyOf(FIRST), Canonical, 2)];
    Appended([], StatusEntry(KeyOf(LEFT), Canonical, 0), b);
    Appended(one, StatusEntry(KeyOf(LEFT), Orphaned, 1), b);
    Appended(two, StatusEntry(KeyOf(FIRST), Canonical, 2), b);
    Appended(three, StatusEntry(KeyOf(SECOND), Canonical, 3), b);
    assert log == three + [StatusEntry(KeyOf(SECOND), Canonical, 3)] && [] + one == one;
  }

  // ---------------------------------------------------------------- the figures differ

  const SPENDING := RowKey(TxKey(KeyOf(SECOND), 1), 0)
  const CREATING := RowKey(TxKey(KeyOf(LEFT), 0), 0)

  lemma RowsOfRun(t: Tables)
    requires Pure(t, BodyOf) && t.blocks.Keys == {KeyOf(LEFT), KeyOf(FIRST), KeyOf(SECOND)}
    ensures SPENDING in t.inputs && t.inputs[SPENDING] == InputRowOf(SPENT) && CREATING in t.outputs && t.outputs[CREATING] == OutputRowOf(LOST)
    ensures SPENDING.tx in t.txs && t.txs[SPENDING.tx].inputOwner == Some("x") && t.txs[SPENDING.tx].source == None
  {
    hide TxsOf, PagesOf, InputsOf, OutputsOf, Decimal, Txid;
    var a, c := KeyOf(LEFT), KeyOf(SECOND);
    assert PureAt(t, BodyOf, a) && PureAt(t, BodyOf, c);
    InputRowsOfBody(c, BodyOf(c).txs, SPENDING);
    OutputRowsOfBody(a, BodyOf(a).txs, CREATING);
    TxRowsOfBody(c, BodyOf(c).txs, SPENDING.tx);
  }

  /** The only input, and no output but the lost one carries its coin. */
  lemma NoOtherRows(t: Tables, r: RowKey)
    requires Pure(t, BodyOf) && t.blocks.Keys == {KeyOf(LEFT), KeyOf(FIRST), KeyOf(SECOND)}
    ensures r in t.inputs ==> r == SPENDING
    ensures r in t.outputs && t.outputs[r].creationId == Some(Decimal(7)) ==> r.tx.block == KeyOf(LEFT)
  {
    hide TxsOf, PagesOf, InputsOf, OutputsOf, Decimal, Txid;
    IdsDiffer();
    var b := r.tx.block;
    assert PureAt(t, BodyOf, b);
    if b in t.blocks {
      InputRowsOfBody(b, BodyOf(b).txs, r);
      OutputRowsOfBody(b, BodyOf(b).txs, r);
    }
  }

  lemma ViewOfRun(t: Tables)
    requires Pure(t, BodyOf) && t.blocks.Keys == {KeyOf(LEFT), KeyOf(FIRST), KeyOf(SECOND)}
    requires forall b :: Canon(t.log, b) <==> b == KeyOf(FIRST) || b == KeyOf(SECOND)
    ensures var v := ViewOf(t);
            && SPENDING in SentInputs(v, "x") && v.inputs[SPENDING] == InputRowOf(SPENT)
            && Carries(t.outputs, Decimal(7)) && !Carries(v.outputs, Decimal(7))
  {
    RowsOfRun(t);
    assert Canon(t.log, KeyOf(SECOND)) && !Canon(t.log, KeyOf(LEFT));
    hide LastStatus, Decimal, Pure;
    assert t.outputs[CREATING].creationId == Some(Decimal(7));
    assert IsCanonical(t, KeyOf(SECOND));
    forall r | r in ViewOf(t).outputs ensures ViewOf(t).outputs[r].creationId != Some(Decimal(7)) { NoOtherRows(t, r); }
  }

  lemma SpendIsHidden(t: Tables)
    requires Pure(t, BodyOf) && t.blocks.Keys == {KeyOf(LEFT), KeyOf(FIRST), KeyOf(SECOND)}
    requires forall b :: Canon(t.log, b) <==> b == KeyOf(FIRST) || b == KeyOf(SECOND)
    ensures Total(OrphanedInputs(ViewOf(t), t.outputs, "x")) > 0
  {
    hide Total, Canon, Decimal, Carries, Pure;
    var v := ViewOf(t);
    ViewOfRun(t);
    var rows := OrphanedInputs(v, t.outputs, "x");
    forall i | i in rows ensures i == SPENDING { InputIsRecorded(t, i); NoOtherRows(t, i); }
    hide ViewOf;
    assert SPENDING in rows && rows[SPENDING] == 5;
    TotalPositive(rows);
  }

  lemma InputIsRecorded(t: Tables, i: RowKey)
    requires i in OrphanedInputs(ViewOf(t), t.outputs, "x")
    ensures i in t.inputs
  {
    hide IsCanonical, Carries;
  }

  lemma OnFinalBranch(b: BlockKey)
    ensures OnBranch([FIRST, SECOND], b) <==> b == KeyOf(FIRST) || b == KeyOf(SECOND)
  {
    var branch := [FIRST, SECOND];
    assert KeyOf(branch[0]) == KeyOf(FIRST) && KeyOf(branch[1]) == KeyOf(SECOND);
  }

  /**
    A run of three steps over two valid chains that part below the archive: the orphaned
    block's row keeps the spend of a coin from before the archive from being reported.
   */
  lemma OrphanedRowHidesASpend()
    ensures ChainOk(P, [Mined(KeyOf(LEFT), BodyOf(KeyOf(LEFT)))]) && ChainOk(Q, BranchChain([FIRST, SECOND], BodyOf))
    ensures ValidRun(EMPTY, 0, 0, RUN) && BodiesOk(BodyOf) && AllHold(RUN, BodyOf)
    ensures forall b :: IsCanonical(After(EMPTY, RUN), b) <==> OnBranch([FIRST, SECOND], b)
    ensures BalanceOf(After(EMPTY, RUN), "x") != BalanceOf(After(EMPTY, Straight([FIRST, SECOND], BodyOf)), "x")
  {
    hide Pure, After, ValidRun, Straight, BalanceOf, Total, Canon, OrphanedInputs, ViewOf, ChainOk, OnBranch;
    LeftChainOk();
    FinalChainOk();
    var branch := [FIRST, SECOND];
    assert BranchChain(branch, BodyOf) == FINAL;
    var t := TablesOfRun();
    forall b
      ensures IsCanonical(t, b) <==> OnBranch(branch, b)
    {
      OnFinalBranch(b);
      CanonicalIsCanon(t, b);
    }
    EmptyIsPure(BodyOf);
    RunKeepsPure(EMPTY, RUN, BodyOf);
    SpendIsHidden(t);
    ReorgDifference(RUN, branch, BodyOf, "x");
  }

  /** Its bodies pass the check under the root of their transactions. */
  lemma BodiesCheck(b: BlockKey, root: seq<seq<nat>> -> string) returns (txRoot: string)
    ensures BodyChecks(BodyOf(b), txRoot, root)
  {
    hide BodyChecks, Empty, WithSpend;
    if b == KeyOf(LEFT) {
      txRoot := EmptyChecks(LOST, root);
    } else if b == KeyOf(SECOND) {
      txRoot := WithSpendChecks(MINED_NEXT, SPENT, PAID, root);
    } else {
      txRoot := EmptyChecks(MINED, root);
    }
  }
}
