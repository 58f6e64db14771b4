/**
  What comparing counts tells the sweep (`differing_segments` in permanode/src/indexer.rs):
  a segment whose count matches the node's is not read. When that is right, and exactly
  which missed blocks it overlooks.
 */
module CountChecks {
  import opened Tables
  import opened View
  import opened Sweep
  import opened Figures
  import opened Chains
  import opened Simulation
  import opened PictureHistory
  import opened Bodies
  import opened BodyLaws
  import opened ExampleBlocks

  /** Every row of the segment shows a live coin of it, and no two rows the same one. */
  ghost predicate ShowsOnlyLive(v: View, slots: map<nat, SlotRow>, h: nat, segment: nat, size: nat, node: set<Coin>)
    requires size > 0
  {
    && (forall row :: InSegment(v, slots, h, segment, size, row) ==> CoinOf(v, slots, row) in NodeSegment(node, size, segment))
    && (forall r, s :: InSegment(v, slots, h, segment, size, r) && InSegment(v, slots, h, segment, size, s) ==>
          CoinOf(v, slots, r) == CoinOf(v, slots, s) ==> r == s)
  }

  /** The coins a segment's rows show. */
  ghost function ShownCoins(v: View, slots: map<nat, SlotRow>, h: nat, segment: nat, size: nat): set<Coin>
    requires size > 0
  {
    SegmentRowsAre(v, slots, h, segment, size);
    set row | row in SegmentRows(v, slots, h, size, segment) :: CoinOf(v, slots, row)
  }

  lemma SegmentRowsAre(v: View, slots: map<nat, SlotRow>, h: nat, segment: nat, size: nat)
    requires size > 0
    ensures forall row :: row in SegmentRows(v, slots, h, size, segment) <==> InSegment(v, slots, h, segment, size, row)
    ensures forall row :: row in SegmentRows(v, slots, h, size, segment) ==> Known(v, slots, row)
  {
    hide LiveOutput, LiveSlot;
    PictureMembers(v, slots, h);
    ShownIsKnown(v, slots, h, segment, size);
  }

  lemma DistinctCoinsCount(v: View, slots: map<nat, SlotRow>, h: nat, segment: nat, size: nat, node: set<Coin>)
    requires size > 0 && ShowsOnlyLive(v, slots, h, segment, size, node)
    ensures ShownCoins(v, slots, h, segment, size) <= NodeSegment(node, size, segment)
    ensures |ShownCoins(v, slots, h, segment, size)| == |SegmentRows(v, slots, h, size, segment)|
  {
    hide SegmentRows, InSegment, CoinOf, NodeSegment, Known;
    SegmentRowsAre(v, slots, h, segment, size);
    var rows := SegmentRows(v, slots, h, size, segment);
    var coins := ShownCoins(v, slots, h, segment, size);
    var pair := map row | row in rows :: CoinOf(v, slots, row);
    forall c | c in coins
      ensures exists row :: row in rows && pair[row] == c
    {
      var row :| row in rows && CoinOf(v, slots, row) == c;
      assert pair[row] == c;
    }
    SameSize(rows, coins, pair);
  }

  lemma SubsetOfEqualSize<T>(a: set<T>, b: set<T>)
    requires a <= b && |a| == |b|
    ensures a == b
  {
    assert b == a + (b - a);
  }

  /** With the node's count, a segment is exact exactly when it shows nothing but live coins. */
  lemma EqualCountIsExactWhen(v: View, slots: map<nat, SlotRow>, h: nat, segment: nat, size: nat, node: set<Coin>)
    requires size > 0
    requires |SegmentRows(v, slots, h, size, segment)| == |NodeSegment(node, size, segment)|
    ensures Exact(v, slots, h, segment, size, node) <==> ShowsOnlyLive(v, slots, h, segment, size, node)
  {
    hide SegmentRows, InSegment, CoinOf, Known;
    ShownIsKnown(v, slots, h, segment, size);
    if ShowsOnlyLive(v, slots, h, segment, size, node) {
      DistinctCoinsCount(v, slots, h, segment, size, node);
      SubsetOfEqualSize(ShownCoins(v, slots, h, segment, size), NodeSegment(node, size, segment));
      SegmentRowsAre(v, slots, h, segment, size);
      forall c | c in node && c.slot / size == segment
        ensures Shows(v, slots, h, segment, size, c)
      {
        assert c in NodeSegment(node, size, segment);
        var row :| row in SegmentRows(v, slots, h, size, segment) && CoinOf(v, slots, row) == c;
      }
    }
  }

  // ---------------------------------------------------------------- a missed block

  /** Coins of the segment a block takes away. */
  ghost function Taken(node: set<Coin>, body: Body, size: nat, segment: int): set<Coin>
    requires size > 0
  {
    set c | c in NodeSegment(node, size, segment) && c.creationId in SpentBy(body)
  }

  /** Coins of the segment a block leaves behind. */
  ghost function Left(body: Body, size: nat, segment: int): set<Coin>
    requires size > 0
  {
    set c | c in NodeSegment(CreatedBy(body), size, segment) && c.creationId !in SpentBy(body)
  }

  lemma NodeSegmentAfter(origin: Origin, chain: seq<Mined>, m: Mined, size: nat, segment: int)
    requires size > 0 && ChainOk(origin, chain + [m])
    ensures var node, next := NodeAt(origin, chain), NodeAt(origin, chain + [m]);
            var taken, left := Taken(node, m.body, size, segment), Left(m.body, size, segment);
            && NodeSegment(next, size, segment) == NodeSegment(node, size, segment) - taken + left
            && taken <= NodeSegment(node, size, segment) && left !! NodeSegment(node, size, segment)
            && |NodeSegment(next, size, segment)| == |NodeSegment(node, size, segment)| - |taken| + |left|
  {
    hide NodeAt, ChainOk, GivenAt, CreatedBy, SpentBy, NodeOk;
    var node, next := NodeAt(origin, chain), NodeAt(origin, chain + [m]);
    var taken, left := Taken(node, m.body, size, segment), Left(m.body, size, segment);
    NextBlock(origin, chain, m);
    forall c | c in left
      ensures c !in NodeSegment(node, size, segment)
    {
      CreatedIsNotLive(origin, chain, m, c);
    }
    assert NodeSegment(next, size, segment) == NodeSegment(node, size, segment) - taken + left;
    assert |NodeSegment(node, size, segment) - taken| == |NodeSegment(node, size, segment)| - |taken|;
  }

  lemma CreatedIsNotLive(origin: Origin, chain: seq<Mined>, m: Mined, c: Coin)
    requires ChainOk(origin, chain + [m]) && c in CreatedBy(m.body)
    ensures c !in NodeAt(origin, chain)
  {
    hide NodeAt, GivenAt, CreatedBy, SpentBy, NodeOk, DistinctIds, SlotsFit;
    assert (chain + [m])[..|chain|] == chain;
    assert c.creationId in Ids(CreatedBy(m.body));
    LiveIdsGiven(origin, chain);
  }

  /**
    After a block was missed, an exact segment keeps the node's count exactly when as many
    of its coins came as went, and stays exact exactly when none did either: what the
    comparison of counts overlooks lies between the two.
   */
  lemma MissedBlockOverlookedWhen(v: View, slots: map<nat, SlotRow>, origin: Origin, chain: seq<Mined>, m: Mined, segment: nat, size: nat)
    requires size > 0 && ChainOk(origin, chain + [m]) && Faithful(v, origin, chain)
    requires Exact(v, slots, Tip(origin, chain), segment, size, NodeAt(origin, chain))
    ensures var node, next, h := NodeAt(origin, chain), NodeAt(origin, chain + [m]), Tip(origin, chain) + 1;
            var taken, left := Taken(node, m.body, size, segment), Left(m.body, size, segment);
            && (|SegmentRows(v, slots, h, size, segment)| == |NodeSegment(next, size, segment)| <==> |taken| == |left|)
            && (Exact(v, slots, h, segment, size, next) <==> taken == {} && left == {})
  {
    hide NodeAt, ChainOk, Faithful, Exact, CreatedBy, SpentBy, GivenAt, FitsNode, SegmentRows, Taken, Left;
    var node, next, h := NodeAt(origin, chain), NodeAt(origin, chain + [m]), Tip(origin, chain) + 1;
    var taken, left := Taken(node, m.body, size, segment), Left(m.body, size, segment);
    NextBlock(origin, chain, m);
    FaithfulFits(v, origin, chain);
    NodeSegmentAfter(origin, chain, m, size, segment);
    SameCoinsStayExact(v, slots, Tip(origin, chain), h, segment, size, node, node);
    ExactSegmentCounts(v, slots, h, size, segment, node);
    if taken == {} && left == {} {
      assert NodeSegment(next, size, segment) == NodeSegment(node, size, segment);
      forall c: Coin | c.slot / size == segment ensures c in next <==> c in node { InNodeSegment(node, next, size, segment, c); }
      SameCoinsStayExact(v, slots, h, h, segment, size, node, next);
    }
    if Exact(v, slots, h, segment, size, next) {
      ExactHasTheCoins(v, slots, h, segment, size, node, next);
      NothingMoved(NodeSegment(node, size, segment), taken, left);
    }
  }

  lemma InNodeSegment(node: set<Coin>, next: set<Coin>, size: nat, segment: nat, c: Coin)
    requires size > 0 && c.slot / size == segment && NodeSegment(next, size, segment) == NodeSegment(node, size, segment)
    ensures c in next <==> c in node
  {
    assert c in node <==> c in NodeSegment(node, size, segment);
    assert c in next <==> c in NodeSegment(next, size, segment);
  }

  lemma NothingMoved<T>(a: set<T>, taken: set<T>, left: set<T>)
    requires a == a - taken + left && taken <= a && left !! a
    ensures taken == {} && left == {}
  {
    assert forall x :: x in left ==> x in a - taken + left;
    assert forall x :: x in taken ==> x in a - taken + left;
  }

  lemma ExactHasTheCoins(v: View, slots: map<nat, SlotRow>, h: nat, segment: nat, size: nat, node: set<Coin>, next: set<Coin>)
    requires size > 0 && Exact(v, slots, h, segment, size, node) && Exact(v, slots, h, segment, size, next)
    ensures NodeSegment(node, size, segment) == NodeSegment(next, size, segment)
  {
    hide Exact;
    ExactIsTheCoins(v, slots, h, segment, size, node, next);
  }

  // ---------------------------------------------------------------- an overlooked block

  const EX_BEFORE := Coin(0, Decimal(1), "x", 5)
  const EX_AFTER := Coin(0, Decimal(2), "y", 4)
  const EX_MINED := Coin(1, Decimal(3), "m", 6)
  const EX_ORIGIN := Origin(0, {EX_BEFORE}, {Decimal(1)})
  const EX_SLOTS: map<nat, SlotRow> := map[0 := SlotRow(0, Decimal(1), "x", 5, 0)]
  const EX_MISSED := Mined(BlockKey(1, "m"), WithSpend(Output(0, 0, 1, 6, "m", 3), Input(0, 0, 0, 5, 1), Output(0, 0, 0, 4, "y", 2)))

  lemma ExampleMoves()
    ensures SpentBy(EX_MISSED.body) == {Decimal(1)} && CreatedBy(EX_MISSED.body) == {EX_AFTER, EX_MINED}
    ensures WellPositioned(EX_MISSED.body.txs) && DistinctIds(EX_MISSED.body) && SlotsFit(EX_MISSED.body)
    ensures Decimal(1) != Decimal(2) && Decimal(1) != Decimal(3) && Decimal(2) != Decimal(3)
  {
    hide Decimal, SpentBy, CreatedBy, WellPositioned, DistinctIds, SlotsFit, WithSpend;
    DecimalsDiffer(1, 2);
    DecimalsDiffer(1, 3);
    DecimalsDiffer(2, 3);
    WithSpendMoves(Output(0, 0, 1, 6, "m", 3), Input(0, 0, 0, 5, 1), Output(0, 0, 0, 4, "y", 2));
  }

  lemma ExampleChainOk()
    ensures ChainOk(EX_ORIGIN, [EX_MISSED]) && NodeAt(EX_ORIGIN, [EX_MISSED]) == {EX_AFTER, EX_MINED}
  {
    ExampleMoves();
    hide Decimal, SpentBy, CreatedBy, WellPositioned, DistinctIds, SlotsFit, WithSpend;
    var chain := [EX_MISSED];
    assert chain[..0] == [];
    assert NodeAfter({EX_BEFORE}, EX_MISSED.body) == {EX_AFTER, EX_MINED};
    assert ValidNext({EX_BEFORE}, {Decimal(1)}, EX_MISSED.body);
  }

  /** The block's body is one the check accepts. */
  lemma OverlookedBodyChecks(root: seq<seq<nat>> -> string) returns (txRoot: string)
    ensures BodyChecks(EX_MISSED.body, txRoot, root)
  {
    hide BodyChecks, WithSpend;
    txRoot := WithSpendChecks(Output(0, 0, 1, 6, "m", 3), Input(0, 0, 0, 5, 1), Output(0, 0, 0, 4, "y", 2), root);
  }

  lemma ExampleIsExact(v: View)
    requires v.inputs == map[] && v.outputs == map[]
    ensures Exact(v, EX_SLOTS, 0, 0, 1, {EX_BEFORE}) && Faithful(v, EX_ORIGIN, [])
  {
    hide Decimal;
    assert InSegment(v, EX_SLOTS, 0, 0, 1, Own(0)) && CoinOf(v, EX_SLOTS, Own(0)) == EX_BEFORE;
  }

  /** A missed block that moves one coin within its segment: the counts agree, the picture is wrong. */
  lemma OverlookedBlock()
    ensures var v := ViewOf(EMPTY);
            && ChainOk(EX_ORIGIN, [EX_MISSED]) && Exact(v, EX_SLOTS, 0, 0, 1, NodeAt(EX_ORIGIN, []))
            && |SegmentRows(v, EX_SLOTS, 1, 1, 0)| == |NodeSegment(NodeAt(EX_ORIGIN, [EX_MISSED]), 1, 0)|
            && !Exact(v, EX_SLOTS, 1, 0, 1, NodeAt(EX_ORIGIN, [EX_MISSED]))
  {
    hide Exact, SegmentRows, ChainOk, Decimal, SpentBy, CreatedBy, Faithful, WithSpend;
    var v := ViewOf(EMPTY);
    assert v.inputs == map[] && v.outputs == map[];
    ExampleMoves();
    ExampleChainOk();
    ExampleIsExact(v);
    assert [] + [EX_MISSED] == [EX_MISSED];
    MissedBlockOverlookedWhen(v, EX_SLOTS, EX_ORIGIN, [], EX_MISSED, 0, 1);
    assert Taken({EX_BEFORE}, EX_MISSED.body, 1, 0) == {EX_BEFORE};
    assert Left(EX_MISSED.body, 1, 0) == {EX_AFTER};
  }
}
