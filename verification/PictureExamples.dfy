/**
  Runs after which the picture of a segment is wrong until it is swept: a coin that a
  reorganisation brings back is gone, one that it takes away is still shown, a late body's
  coin is shown twice, a pruned block's is missing. The chains are valid, of bodies the
  check accepts.
 */
module PictureExamples {
  import opened Wrappers
  import opened Tables
  import opened View
  import opened Sweep
  import opened Figures
  import opened BodyLaws
  import opened Runs
  import opened RunLaws
  import opened Chains
  import opened Simulation
  import opened PictureHistory
  import opened Reorg
  import opened PictureRows
  import opened ExampleBlocks
  import opened ForkBelow
  import opened SimulationRuns
  import opened SweptFork

  /** Coin 7, from before the archive, is spent in the second block; its segment is read; that block is left. */
  const SPENT_RUN := [Commit(Ingest(OfferOf(FIRST), 0)), Settle(KeyOf(FIRST)), Commit(Ingest(OfferOf(SECOND), 1)), Settle(KeyOf(SECOND)),
                      Swept(0, [], 2), Unwind(1)]

  /** The block that creates coin 7 is recorded without its body; its segment is read; that block is left. */
  const FOUND_RUN := [Commit(Ingest(Offer(LEFT, None, "details"), 0)), Settle(KeyOf(LEFT)), Swept(0, [READ], 1), Unwind(0)]
  const READ := SlotRead(0, Decimal(7), "x", 5)

  /** The same, but the body comes instead. */
  const LATE_RUN := FOUND_RUN[..2] + [Swept(0, [READ], 1), Commit(RecoverGap(11, BodyOf(KeyOf(LEFT)), "getblock", 2))]

  /** The block is recorded with its body and pruned. */
  const PRUNE_RUN := [Commit(Ingest(OfferOf(LEFT), 0)), Settle(KeyOf(LEFT)), Commit(Prune(KeyOf(LEFT)))]

  lemma BodiesAreOk()
    ensures BodiesOk(BodyOf)
  {
    hide Decimal, Txid, Empty, WithSpend;
    forall b
      ensures WellPositioned(BodyOf(b).txs)
    {
      if b == KeyOf(SECOND) { WithSpendMoves(MINED_NEXT, SPENT, PAID); } else if b == KeyOf(LEFT) { EmptyMoves(LOST); } else { EmptyMoves(MINED); }
    }
  }

  /** Rows lie at or below the highest block on record. */
  lemma RowsBelow(t: Tables, h: nat)
    requires Held(t, BodyOf) && forall b :: b in t.blocks ==> b.height <= h
    ensures NothingAbove(ViewOf(t), h)
  {
    hide HoldsFlagged, Counts, BodyOf;
    forall k | k in ViewOf(t).inputs || k in ViewOf(t).outputs
      ensures k.tx.block.height <= h
    {
      assert HeldAt(t, BodyOf, k.tx.block);
    }
  }

  lemma AllFaithful(s: Moment, origin: Origin)
    requires World(s, origin, BodyOf, 1) && NothingAbove(ViewOf(s.t), Tip(origin, s.chain))
    ensures ChainOk(origin, s.chain) && Faithful(ViewOf(s.t), origin, s.chain)
  {
    hide World, Pictures, BodyOf, ViewOf, Lower, Faithful, ChainOk, Inv, Held, HistoryOk, SimulationRuns.OnRecord;
    WorldParts(s, origin, BodyOf, 1);
    PicturesParts(Record(s.t, Tip(origin, s.chain)), s.t.slots, origin, s.chain, 1, s.since);
    AllIsBelow(ViewOf(s.t), origin, s.chain, Tip(origin, s.chain));
  }

  /** Sweeping segment 0 and leaving the blocks from `f` on ends a run. */
  lemma SweptAndLeft(s: Moment, origin: Origin, found: seq<SlotRead>, now: nat, f: nat)
    requires World(s, origin, BodyOf, 1) && f <= |s.chain| && NothingAbove(ViewOf(s.t), Tip(origin, s.chain))
    requires ReadsNode(found, NodeAt(origin, s.chain), 0, 1)
    ensures ValidEvents(s, origin, BodyOf, 1, [Swept(0, found, now), Unwind(f)])
    ensures var n := MomentAfter(s, origin, BodyOf, 1, [Swept(0, found, now), Unwind(f)]);
            n.t == SweepSegment(s.t, 0, 1, found, Tip(origin, s.chain), now) && n.chain == s.chain[..f]
  {
    hide World, SweepSegment, ReadsNode, NothingAbove, ViewOf, BodyOf, SinceUnwound, NodeAt, Refreshed;
    var e, g := Swept(0, found, now), Unwind(f);
    var m := NextMoment(s, origin, BodyOf, 1, e);
    assert [e, g][1..] == [g] && [g][1..] == [];
    assert ValidEvents(m, origin, BodyOf, 1, [g]);
    var n := NextMoment(m, origin, BodyOf, 1, g);
    assert MomentAfter(n, origin, BodyOf, 1, []) == n;
    assert MomentAfter(m, origin, BodyOf, 1, [g]) == n;
  }

  // ---------------------------------------------------------------- the coin that is lost

  lemma FinalStates()
    ensures FINAL[..1] + [FINAL[1]] == FINAL && ChainOk(Q, FINAL[..1])
    ensures NodeAt(Q, FINAL[..1]) == {CreatedCoin(LOST), CreatedCoin(MINED)}
    ensures NodeAt(Q, FINAL) == {CreatedCoin(MINED), CreatedCoin(MINED_NEXT), CreatedCoin(PAID)}
    ensures Decimal(7) in SpentBy(FINAL[1].body)
  {
    hide Decimal, SpentBy, CreatedBy, WithSpend, Empty, ValidNext;
    FinalChainOk();
    PrefixOk(Q, FINAL, 1);
    FirstBlockOk();
    IdsDiffer();
    WithSpendMoves(MINED_NEXT, SPENT, PAID);
    assert FINAL[..1][..0] == [];
    assert NodeAfter({CreatedCoin(LOST), CreatedCoin(MINED)}, WithSpend(MINED_NEXT, SPENT, PAID)) == {CreatedCoin(MINED), CreatedCoin(MINED_NEXT), CreatedCoin(PAID)};
  }

  lemma FirstRecorded() returns (s: Moment)
    ensures ValidEvents(Start(Q, 1), Q, BodyOf, 1, SPENT_RUN[..2]) && s == MomentAfter(Start(Q, 1), Q, BodyOf, 1, SPENT_RUN[..2])
    ensures World(s, Q, BodyOf, 1) && s.chain == FINAL[..1] && s.t.cursor == Some(11) && s.t.blocks.Keys == {KeyOf(FIRST)}
    ensures s.t.log == [StatusEntry(KeyOf(FIRST), Canonical, 0)]
  {
    hide World, ValidEvents, MomentAfter, BodyOf, ChainOk, Apply, Inv, BodiesOk;
    FinalStates();
    assert ChainOk(Q, []) by { PrefixOk(Q, FINAL[..1], 0); }
    BodiesAreOk();
    NewArchive(Q, BodyOf, 1);
    var s0 := Start(Q, 1);
    EmptyDatabaseOk();
    assert s0.chain + [Mined(KeyOf(FIRST), BodyOf(KeyOf(FIRST)))] == FINAL[..1];
    FollowByIngest(s0, Q, BodyOf, 1, FIRST, 0);
    IngestsOne(EMPTY, 0, 0, FIRST, 0);
    var events := [Commit(Ingest(OfferOf(FIRST), 0)), Settle(KeyOf(FIRST))];
    assert SPENT_RUN[..2] == events;
    s := MomentAfter(s0, Q, BodyOf, 1, events);
    EventsKeepWorld(s0, Q, BodyOf, 1, events);
    TablesAfterFollowing(s0, Q, Ingest(OfferOf(FIRST), 0), KeyOf(FIRST));
  }

  lemma TablesAfterFollowing(s: Moment, origin: Origin, step: Step, b: BlockKey)
    ensures MomentAfter(s, origin, BodyOf, 1, [Commit(step), Settle(b)]).t == Apply(s.t, step)
    ensures MomentAfter(s, origin, BodyOf, 1, [Commit(step), Settle(b)]).first == NextFirst(s.t, s.first, step)
    ensures MomentAfter(s, origin, BodyOf, 1, [Commit(step), Settle(b)]).lowest == NextLowest(s.t, s.lowest, step)
  {
    hide BodyOf, Apply, SinceCommitted, SinceSettled, NextFirst, NextLowest;
    var m := NextMoment(s, origin, BodyOf, 1, Commit(step));
    var n := NextMoment(m, origin, BodyOf, 1, Settle(b));
    assert [Commit(step), Settle(b)][1..] == [Settle(b)] && [Settle(b)][1..] == [];
    assert MomentAfter(n, origin, BodyOf, 1, []) == n;
    assert MomentAfter(m, origin, BodyOf, 1, [Settle(b)]) == n;
  }

  lemma SecondRecorded(s: Moment) returns (n: Moment)
    requires World(s, Q, BodyOf, 1) && s.chain == FINAL[..1] && s.t.cursor == Some(11) && s.t.blocks.Keys == {KeyOf(FIRST)}
    requires s.t.log == [StatusEntry(KeyOf(FIRST), Canonical, 0)]
    ensures ValidEvents(s, Q, BodyOf, 1, SPENT_RUN[2..4]) && n == MomentAfter(s, Q, BodyOf, 1, SPENT_RUN[2..4])
    ensures World(n, Q, BodyOf, 1) && n.chain == FINAL && NothingAbove(ViewOf(n.t), 12)
  {
    hide World, ValidEvents, MomentAfter, BodyOf, ChainOk, Apply, Inv, BodiesOk, NothingAbove, Held, HistoryOk, SimulationRuns.OnRecord, Pictures, Record;
    FinalStates();
    FinalChainOk();
    BodiesAreOk();
    WorldParts(s, Q, BodyOf, 1);
    FollowByIngest(s, Q, BodyOf, 1, SECOND, 1);
    IngestsOne(s.t, s.first, s.lowest, SECOND, 1);
    var events := [Commit(Ingest(OfferOf(SECOND), 1)), Settle(KeyOf(SECOND))];
    assert SPENT_RUN[2..4] == events;
    n := MomentAfter(s, Q, BodyOf, 1, events);
    EventsKeepWorld(s, Q, BodyOf, 1, events);
    TablesAfterFollowing(s, Q, Ingest(OfferOf(SECOND), 1), KeyOf(SECOND));
    WorldParts(n, Q, BodyOf, 1);
    RowsBelow(n.t, 12);
  }

  /** The run leaves the picture without a coin the node holds. */
  lemma ReorgLosesACoin()
    ensures BodiesOk(BodyOf) && ChainOk(Q, FINAL) && ValidEvents(Start(Q, 1), Q, BodyOf, 1, SPENT_RUN)
    ensures var s := MomentAfter(Start(Q, 1), Q, BodyOf, 1, SPENT_RUN);
            s.chain == FINAL[..1] && !Exact(ViewOf(s.t), s.t.slots, 11, 0, 1, NodeAt(Q, s.chain))
  {
    hide World, ValidEvents, MomentAfter, BodyOf, ChainOk, BodiesOk, NothingAbove, ViewOf, Exact, NodeAt, SweepSegment, Faithful, SpentBy, Decimal;
    BodiesAreOk();
    FinalStates();
    FinalChainOk();
    var s1 := FirstRecorded();
    var s2 := SecondRecorded(s1);
    AllFaithful(s2, Q);
    SweptAndLeft(s2, Q, [], 2, 1);
    assert SPENT_RUN[4..] == [Swept(0, [], 2), Unwind(1)];
    EventsJoin(s1, Q, BodyOf, 1, SPENT_RUN[2..4], SPENT_RUN[4..]);
    assert SPENT_RUN[2..4] + SPENT_RUN[4..] == SPENT_RUN[2..];
    EventsJoin(Start(Q, 1), Q, BodyOf, 1, SPENT_RUN[..2], SPENT_RUN[2..]);
    assert SPENT_RUN[..2] + SPENT_RUN[2..] == SPENT_RUN;
    SpentThenUnwound(s2.t, Q, FINAL, 1, 1, 0, 1, [], 2, CreatedCoin(LOST));
  }

  // ---------------------------------------------------------------- the coin that never was

  lemma LeftStates()
    ensures ChainOk(P, [Mined(KeyOf(LEFT), BodyOf(KeyOf(LEFT)))]) && ChainOk(P, [])
    ensures NodeAt(P, [Mined(KeyOf(LEFT), BodyOf(KeyOf(LEFT)))]) == {CreatedCoin(LOST)} && NodeAt(P, []) == {}
    ensures ReadCoin(READ) == CreatedCoin(LOST)
  {
    hide Decimal, SpentBy, CreatedBy, Empty, ValidNext;
    LeftChainOk();
    EmptyMoves(LOST);
    var chain := [Mined(KeyOf(LEFT), BodyOf(KeyOf(LEFT)))];
    assert chain[..0] == [];
    PrefixOk(P, chain, 0);
    assert NodeAfter({}, Empty(LOST)) == {CreatedCoin(LOST)};
  }

  lemma ReadsLost()
    ensures ReadsNode([READ], {CreatedCoin(LOST)}, 0, 1)
  {
    hide Decimal;
    assert WasRead([READ], CreatedCoin(LOST)) by { assert ReadCoin([READ][0]) == CreatedCoin(LOST); }
  }

  /** A first block recorded without its body leaves no rows. */
  lemma GapRecordedFirst(now: nat)
    ensures var step := Ingest(Offer(LEFT, None, "details"), now);
            && Enabled(EMPTY, 0, 0, step) && IsCanonical(Apply(EMPTY, step), KeyOf(LEFT))
            && ViewOf(Apply(EMPTY, step)).outputs == map[] && ViewOf(Apply(EMPTY, step)).inputs == map[]
            && Uncaptured(Apply(EMPTY, step), KeyOf(LEFT)) && NoRows(Apply(EMPTY, step), KeyOf(LEFT))
  {
    hide RecordGapBlock, IsCanonical, Inv;
    EmptyDatabaseOk();
    IngestReaches(EMPTY, 0, 0, Offer(LEFT, None, "details"), now);
    GapRows(EMPTY, LEFT, now);
    GapIsUncaptured(now);
  }

  lemma GapIsUncaptured(now: nat)
    ensures Uncaptured(RecordGapBlock(EMPTY, LEFT, now), KeyOf(LEFT))
  {
    assert CanonicalAt(EMPTY.log, 11) == None;
  }

  lemma LeftRecorded() returns (s: Moment)
    ensures ValidEvents(Start(P, 1), P, BodyOf, 1, FOUND_RUN[..2]) && s == MomentAfter(Start(P, 1), P, BodyOf, 1, FOUND_RUN[..2])
    ensures World(s, P, BodyOf, 1) && s.chain == [Mined(KeyOf(LEFT), BodyOf(KeyOf(LEFT)))]
    ensures ViewOf(s.t).outputs == map[] && ViewOf(s.t).inputs == map[] && Uncaptured(s.t, KeyOf(LEFT)) && NoRows(s.t, KeyOf(LEFT))
  {
    hide World, ValidEvents, MomentAfter, BodyOf, ChainOk, Apply, Inv, BodiesOk, Enabled, IsCanonical, ViewOf, Uncaptured, NoRows;
    LeftStates();
    BodiesAreOk();
    NewArchive(P, BodyOf, 1);
    var s0, step := Start(P, 1), Ingest(Offer(LEFT, None, "details"), 0);
    GapRecordedFirst(0);
    assert s0.chain + [Mined(KeyOf(LEFT), BodyOf(KeyOf(LEFT)))] == [Mined(KeyOf(LEFT), BodyOf(KeyOf(LEFT)))];
    StepThenLevel(s0, P, BodyOf, 1, step, KeyOf(LEFT));
    var events := [Commit(step), Settle(KeyOf(LEFT))];
    assert FOUND_RUN[..2] == events;
    s := MomentAfter(s0, P, BodyOf, 1, events);
    EventsKeepWorld(s0, P, BodyOf, 1, events);
    TablesAfterFollowing(s0, P, step, KeyOf(LEFT));
  }

  /** The run leaves a coin in the picture that the node's chain never had. */
  lemma ReorgKeepsACoin()
    ensures BodiesOk(BodyOf) && ChainOk(P, [Mined(KeyOf(LEFT), BodyOf(KeyOf(LEFT)))]) && ValidEvents(Start(P, 1), P, BodyOf, 1, FOUND_RUN)
    ensures var s := MomentAfter(Start(P, 1), P, BodyOf, 1, FOUND_RUN);
            s.chain == [] && !Exact(ViewOf(s.t), s.t.slots, 10, 0, 1, NodeAt(P, s.chain))
  {
    hide World, ValidEvents, MomentAfter, BodyOf, ChainOk, BodiesOk, ViewOf, Exact, NodeAt, SweepSegment, Faithful, Decimal;
    BodiesAreOk();
    LeftStates();
    var s := LeftRecorded();
    AllFaithful(s, P);
    assert ReadsNode([READ], {CreatedCoin(LOST)}, 0, 1) by { ReadsLost(); }
    SweptAndLeft(s, P, [READ], 1, 0);
    assert FOUND_RUN[2..] == [Swept(0, [READ], 1), Unwind(0)];
    EventsJoin(Start(P, 1), P, BodyOf, 1, FOUND_RUN[..2], FOUND_RUN[2..]);
    assert FOUND_RUN[..2] + FOUND_RUN[2..] == FOUND_RUN;
    FoundThenUnwound(s.t, P, s.chain, 0, 0, 1, [READ], 1, CreatedCoin(LOST));
  }

  // ---------------------------------------------------------------- the coin shown twice

  lemma SweptStillMissing(s: Moment) returns (n: Moment)
    requires World(s, P, BodyOf, 1) && s.chain == [Mined(KeyOf(LEFT), BodyOf(KeyOf(LEFT)))]
    requires ViewOf(s.t).outputs == map[] && ViewOf(s.t).inputs == map[] && Uncaptured(s.t, KeyOf(LEFT)) && NoRows(s.t, KeyOf(LEFT))
    ensures Happens(s, P, BodyOf, 1, Swept(0, [READ], 1)) && n == NextMoment(s, P, BodyOf, 1, Swept(0, [READ], 1))
    ensures World(n, P, BodyOf, 1) && n.chain == s.chain && n.since(0) == 11
    ensures ViewOf(n.t).inputs == map[] && Uncaptured(n.t, KeyOf(LEFT)) && NoRows(n.t, KeyOf(LEFT))
  {
    hide World, BodyOf, ViewOf, SweepSegment, FlagsOnly, SweptView, ReplaceSlots, IdsOf, ReadsNode, BodiesOk, NodeAt;
    LeftStates();
    ReadsLost();
    BodiesAreOk();
    n := NextMoment(s, P, BodyOf, 1, Swept(0, [READ], 1));
    SweepEffect(s.t, 0, 1, [READ], 11, 1);
    SameKeys(s.t.outputs, n.t.outputs);
    SweptUnfolds(ViewOf(s.t), ViewOf(n.t), 11, 0, 1, IdsOf([READ]));
    EventKeepsWorld(s, P, BodyOf, 1, Swept(0, [READ], 1));
  }

  lemma SweptUnfolds(v: View, w: View, h: nat, lo: nat, hi: nat, live: set<string>)
    requires SweptView(v, w, h, lo, hi, live)
    ensures w.inputs == v.inputs
  {
  }

  lemma LateBodyReady(s: Moment)
    requires World(s, P, BodyOf, 1) && s.chain == [Mined(KeyOf(LEFT), BodyOf(KeyOf(LEFT)))]
    requires Uncaptured(s.t, KeyOf(LEFT)) && NoRows(s.t, KeyOf(LEFT))
    ensures var step := RecoverGap(11, BodyOf(KeyOf(LEFT)), "getblock", 2);
            Happens(s, P, BodyOf, 1, Commit(step)) && BringsRows(s, P, step)
  {
    hide World, BodyOf, CanonicalAt, Uncaptured, NoRows, HistoryOk, ChainOk, SimulationRuns.OnRecord, Pictures, Record, Inv, Held;
    WorldParts(s, P, BodyOf, 1);
    LookupOnChain(s.t, BodyOf, P, s.chain, 11);
  }

  /** The late body's one output is live, so the segment is no longer exact. */
  lemma LateBodyDoubles(s: Moment)
    requires World(s, P, BodyOf, 1) && s.chain == [Mined(KeyOf(LEFT), BodyOf(KeyOf(LEFT)))] && s.since(0) == 11
    requires ViewOf(s.t).inputs == map[] && Uncaptured(s.t, KeyOf(LEFT)) && NoRows(s.t, KeyOf(LEFT))
    ensures var u := Apply(s.t, RecoverGap(11, BodyOf(KeyOf(LEFT)), "getblock", 2));
            !Exact(ViewOf(u), u.slots, 11, 0, 1, NodeAt(P, s.chain)) && Exact(ViewOf(s.t), s.t.slots, 11, 0, 1, NodeAt(P, s.chain))
  {
    hide World, ViewOf, BodyOf, Apply, Exact, NodeAt, ChainOk, Faithful, SegmentsAgree, OwnAreEver, Gains, Held, BodiesOk, OutputsSpent, BringsRows, Happens, Lower, Uncaptured, NoRows;
    var step := RecoverGap(11, BodyOf(KeyOf(LEFT)), "getblock", 2);
    var u := Apply(s.t, step);
    BodiesAreOk();
    KnownIsExact(s, P, BodyOf, 1, 0);
    LateBodyReady(s);
    BodyRecovered(s, P, BodyOf, 1, step);
    RecoveryExactWhen(Record(s.t, 11), Record(u, 11), s.t.slots, P, s.chain, 0, 0, 1);
    NotSpentAtAll(ViewOf(s.t), 11);
    LostIsLive(Record(s.t, 11), Record(u, 11));
    LowerExact(ViewOf(u), u.slots, 11, 11, 0, 1, NodeAt(P, s.chain));
    LowerExact(ViewOf(s.t), s.t.slots, 11, 11, 0, 1, NodeAt(P, s.chain));
  }

  lemma NotSpentAtAll(v: View, h: nat)
    requires v.inputs == map[]
    ensures Lower(v, h).inputs == map[]
  {
  }

  lemma LostIsLive(v: View, w: View)
    requires v.inputs == map[] && Gains(v, w, Mined(KeyOf(LEFT), BodyOf(KeyOf(LEFT))))
    ensures !OutputsSpent(w, Mined(KeyOf(LEFT), BodyOf(KeyOf(LEFT))), 0, 1, 11)
  {
    hide Decimal, OutputsOf, InputsOf, SpentBy, CreatedBy, Empty, WellPositioned;
    var m := Mined(KeyOf(LEFT), BodyOf(KeyOf(LEFT)));
    EmptyMoves(LOST);
    var k := CreatedHasOutput(m, CreatedCoin(LOST));
    assert OutputsOf(m.key, m.body.txs)[k].slot == 0;
    if l :| l in InputsOf(m.key, m.body.txs) { InputSpends(m, l); }
  }

  /** The run leaves a live coin shown twice in a segment that was exact before the body came. */
  lemma LateBodyShowsTwice()
    ensures BodiesOk(BodyOf) && ChainOk(P, [Mined(KeyOf(LEFT), BodyOf(KeyOf(LEFT)))]) && ValidEvents(Start(P, 1), P, BodyOf, 1, LATE_RUN)
    ensures var s, n := MomentAfter(Start(P, 1), P, BodyOf, 1, LATE_RUN[..3]), MomentAfter(Start(P, 1), P, BodyOf, 1, LATE_RUN);
            && n.chain == s.chain == [Mined(KeyOf(LEFT), BodyOf(KeyOf(LEFT)))]
            && Exact(ViewOf(s.t), s.t.slots, 11, 0, 1, NodeAt(P, s.chain)) && !Exact(ViewOf(n.t), n.t.slots, 11, 0, 1, NodeAt(P, s.chain))
  {
    hide World, ValidEvents, MomentAfter, NextMoment, Happens, BodyOf, ChainOk, BodiesOk, ViewOf, Exact, NodeAt, Decimal, Uncaptured, NoRows, Apply;
    var swept, late := Swept(0, [READ], 1), Commit(RecoverGap(11, BodyOf(KeyOf(LEFT)), "getblock", 2));
    BodiesAreOk();
    LeftStates();
    var s1 := LeftRecorded();
    var s := SweptStillMissing(s1);
    LateBodyReady(s);
    LateBodyDoubles(s);
    OneEvent(s1, P, swept);
    OneEvent(s, P, late);
    EventsJoin(Start(P, 1), P, BodyOf, 1, FOUND_RUN[..2], [swept]);
    assert LATE_RUN[..3] == FOUND_RUN[..2] + [swept];
    EventsJoin(Start(P, 1), P, BodyOf, 1, LATE_RUN[..3], [late]);
    assert LATE_RUN == LATE_RUN[..3] + [late];
    CommittedTables(s, P, late.step);
  }

  lemma OneEvent(s: Moment, origin: Origin, e: Event)
    requires Happens(s, origin, BodyOf, 1, e)
    ensures ValidEvents(s, origin, BodyOf, 1, [e]) && MomentAfter(s, origin, BodyOf, 1, [e]) == NextMoment(s, origin, BodyOf, 1, e)
  {
    hide Happens, NextMoment, BodyOf;
    var n := NextMoment(s, origin, BodyOf, 1, e);
    assert [e][1..] == [];
    assert ValidEvents(n, origin, BodyOf, 1, []) && MomentAfter(n, origin, BodyOf, 1, []) == n;
  }

  lemma CommittedTables(s: Moment, origin: Origin, step: Step)
    ensures NextMoment(s, origin, BodyOf, 1, Commit(step)).t == Apply(s.t, step) && NextMoment(s, origin, BodyOf, 1, Commit(step)).chain == s.chain
  {
    hide BodyOf, Apply, SinceCommitted;
  }

  // ---------------------------------------------------------------- the coin pruned

  lemma LeftStored() returns (s: Moment)
    ensures ValidEvents(Start(P, 1), P, BodyOf, 1, PRUNE_RUN[..2]) && s == MomentAfter(Start(P, 1), P, BodyOf, 1, PRUNE_RUN[..2])
    ensures World(s, P, BodyOf, 1) && s.chain == [Mined(KeyOf(LEFT), BodyOf(KeyOf(LEFT)))] && s.first == 11 && s.t.cursor == Some(11)
    ensures s.t.blocks.Keys == {KeyOf(LEFT)} && s.t.slots == map[] && s.since(0) == 10
  {
    hide World, ValidEvents, MomentAfter, BodyOf, ChainOk, Apply, Inv, BodiesOk, SinceSettled, SinceCommitted, IsCanonical;
    LeftStates();
    BodiesAreOk();
    NewArchive(P, BodyOf, 1);
    var s0, step := Start(P, 1), Ingest(OfferOf(LEFT), 0);
    EmptyDatabaseOk();
    assert s0.chain + [Mined(KeyOf(LEFT), BodyOf(KeyOf(LEFT)))] == [Mined(KeyOf(LEFT), BodyOf(KeyOf(LEFT)))];
    FollowByIngest(s0, P, BodyOf, 1, LEFT, 0);
    IngestsOne(EMPTY, 0, 0, LEFT, 0);
    var events := [Commit(step), Settle(KeyOf(LEFT))];
    assert PRUNE_RUN[..2] == events;
    s := MomentAfter(s0, P, BodyOf, 1, events);
    EventsKeepWorld(s0, P, BodyOf, 1, events);
    TablesAfterFollowing(s0, P, step, KeyOf(LEFT));
    StoredFirst();
    SinceAfterFollowing(s0, P, step, KeyOf(LEFT));
    StaysKnownFromStart(s0, step);
  }

  lemma StoredFirst()
    ensures var u := Apply(EMPTY, Ingest(OfferOf(LEFT), 0));
            u.slots == map[] && forall k :: k in u.outputs ==> !u.outputs[k].spentInGap
  {
    hide BodyOf, StoreBlock, OutputsOf, InputsOf, TxsOf, PagesOf, CreatedBy, WellPositioned, BodiesOk;
    assert CanonicalAt(EMPTY.log, 11) == None;
    StoredTables(EMPTY, LEFT, BodyOf(KeyOf(LEFT)), "details", 0);
    StoredSlots(EMPTY, LEFT, BodyOf(KeyOf(LEFT)), "details", 0);
    BodiesAreOk();
    BodyIsOk(KeyOf(LEFT));
    var m := Mined(KeyOf(LEFT), BodyOf(KeyOf(LEFT)));
    forall k | k in OutputsOf(m.key, m.body.txs) ensures !OutputsOf(m.key, m.body.txs)[k].spentInGap { OutputCreates(m, k); }
  }

  lemma BodyIsOk(b: BlockKey)
    requires BodiesOk(BodyOf)
    ensures WellPositioned(BodyOf(b).txs)
  {
  }

  lemma SinceAfterFollowing(s: Moment, origin: Origin, step: Step, b: BlockKey)
    ensures var n := NextMoment(s, origin, BodyOf, 1, Commit(step));
            && n == Moment(Apply(s.t, step), NextFirst(s.t, s.first, step), NextLowest(s.t, s.lowest, step), s.chain, SinceCommitted(s, origin, 1, step))
            && MomentAfter(s, origin, BodyOf, 1, [Commit(step), Settle(b)]).since == SinceSettled(n, origin, BodyOf, 1, b)
  {
    hide BodyOf, Apply, SinceCommitted, SinceSettled, NextFirst, NextLowest;
    var m := NextMoment(s, origin, BodyOf, 1, Commit(step));
    var n := NextMoment(m, origin, BodyOf, 1, Settle(b));
    assert [Commit(step), Settle(b)][1..] == [Settle(b)] && [Settle(b)][1..] == [];
    assert MomentAfter(n, origin, BodyOf, 1, []) == n;
    assert MomentAfter(m, origin, BodyOf, 1, [Settle(b)]) == n;
  }

  /** Nothing is flagged, so what was known exact at the start is known exact after the first block. */
  lemma StaysKnownFromStart(s: Moment, step: Step)
    requires s == Start(P, 1) && step == Ingest(OfferOf(LEFT), 0)
    ensures var n := NextMoment(s, P, BodyOf, 1, Commit(step)); SinceSettled(n, P, BodyOf, 1, KeyOf(LEFT))(0) == 10
  {
    hide BodyOf, Apply, NoRows, NextFirst, NextLowest, ViewOf, Lower, OutputSpent, NodeAt, SameCoins;
    StoredFirst();
    var n := NextMoment(s, P, BodyOf, 1, Commit(step));
    assert n.since(0) == 10 && n.t == Apply(EMPTY, step);
    RecordUnflagged(n.t, 11);
    StoredIsHeld();
  }

  lemma RecordUnflagged(t: Tables, h: nat)
    requires forall k :: k in t.outputs ==> !t.outputs[k].spentInGap
    ensures forall k :: k in Record(t, h).outputs ==> !Record(t, h).outputs[k].spentInGap
  {
    hide Counts;
  }

  lemma StoredIsHeld()
    ensures !NoRows(Apply(EMPTY, Ingest(OfferOf(LEFT), 0)), KeyOf(LEFT))
  {
    hide Decimal, StoreBlock, OutputsOf, InputsOf, TxsOf, PagesOf, CreatedBy, WellPositioned, Empty;
    assert CanonicalAt(EMPTY.log, 11) == None;
    StoredTables(EMPTY, LEFT, BodyOf(KeyOf(LEFT)), "details", 0);
    EmptyMoves(LOST);
    var k := CreatedHasOutput(Mined(KeyOf(LEFT), BodyOf(KeyOf(LEFT))), CreatedCoin(LOST));
  }

  lemma PruneIsEnabled(s: Moment)
    requires Inv(s.t, s.first, s.lowest) && s.first == 11 && s.t.cursor.Some? && KeyOf(LEFT) in s.t.blocks
    ensures Happens(s, P, BodyOf, 1, Commit(Prune(KeyOf(LEFT))))
  {
    hide HistoryOk, ArchiveOk, HeadersOk, BodyOf;
    AdoptedIsNoHeader(s.t, s.first, s.lowest, KeyOf(LEFT));
  }

  lemma HeldOf(t: Tables, b: BlockKey)
    requires Held(t, BodyOf)
    ensures HeldAt(t, BodyOf, b)
  {
  }

  /** With no rows and no slots nothing is shown. */
  lemma NothingLeft(t: Tables, node: set<Coin>, c: Coin)
    requires Held(t, BodyOf) && t.blocks.Keys == {KeyOf(LEFT)} && NoRows(t, KeyOf(LEFT)) && t.slots == map[] && c in node && c.slot == 0
    ensures !Exact(ViewOf(t), t.slots, 11, 0, 1, node)
  {
    hide BodyOf, HoldsFlagged, Spent, Counts;
    if k :| k in t.outputs { HeldOf(t, k.tx.block); }
    assert !Shows(ViewOf(t), t.slots, 11, 0, 1, c);
  }

  /** The run leaves a live coin out of a segment that was exact before the block was pruned. */
  lemma PruningLosesACoin()
    ensures BodiesOk(BodyOf) && ChainOk(P, [Mined(KeyOf(LEFT), BodyOf(KeyOf(LEFT)))]) && ValidEvents(Start(P, 1), P, BodyOf, 1, PRUNE_RUN)
    ensures var s, n := MomentAfter(Start(P, 1), P, BodyOf, 1, PRUNE_RUN[..2]), MomentAfter(Start(P, 1), P, BodyOf, 1, PRUNE_RUN);
            && n.chain == s.chain == [Mined(KeyOf(LEFT), BodyOf(KeyOf(LEFT)))]
            && Exact(ViewOf(s.t), s.t.slots, 11, 0, 1, NodeAt(P, s.chain)) && !Exact(ViewOf(n.t), n.t.slots, 11, 0, 1, NodeAt(P, s.chain))
  {
    hide World, ValidEvents, MomentAfter, NextMoment, Happens, BodyOf, ChainOk, BodiesOk, ViewOf, Exact, NodeAt, Decimal, NoRows, PruneBlocks, Inv, Held, Lower, Faithful, SegmentsAgree, OwnAreEver, HistoryOk, Pictures, SimulationRuns.OnRecord;
    var prune := Commit(Prune(KeyOf(LEFT)));
    BodiesAreOk();
    LeftStates();
    var s := LeftStored();
    WorldParts(s, P, BodyOf, 1);
    KnownIsExact(s, P, BodyOf, 1, 0);
    LowerExact(ViewOf(s.t), s.t.slots, 11, 11, 0, 1, NodeAt(P, s.chain));
    PruneIsEnabled(s);
    OneEvent(s, P, prune);
    EventsJoin(Start(P, 1), P, BodyOf, 1, PRUNE_RUN[..2], [prune]);
    assert PRUNE_RUN == PRUNE_RUN[..2] + [prune];
    CommittedTables(s, P, prune.step);
    PrunedHeld(s.t, KeyOf(LEFT), BodyOf);
    PrunedRows(s.t, KeyOf(LEFT), KeyOf(LEFT));
    NothingLeft(PruneBlocks(s.t, {KeyOf(LEFT)}), NodeAt(P, s.chain), CreatedCoin(LOST));
  }
}
