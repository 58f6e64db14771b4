/**
  The picture follows the node (core/src/db.rs, the live-state queries): recording a
  block moves an exact picture at one height to an exact picture at the next, whether the
  coins it spends were recorded outputs or slots of the sweep's own.
 */
module Simulation {
  import opened Wrappers
  import opened Tables
  import opened View
  import opened Sweep
  import opened Figures
  import opened BodyLaws
  import opened Chains

  /** The row is an output of the chain's block at its height, whatever its flags say. */
  ghost predicate FromOutput(origin: Origin, chain: seq<Mined>, k: RowKey, row: OutputRow) {
    var j := k.tx.block.height - origin.height - 1;
    && 0 <= j < |chain| && chain[j].key == k.tx.block && k in OutputsOf(chain[j].key, chain[j].body.txs)
    && row == OutputsOf(chain[j].key, chain[j].body.txs)[k].(spentInGap := row.spentInGap, spentInGapAt := row.spentInGapAt)
  }

  ghost predicate FromInput(origin: Origin, chain: seq<Mined>, k: RowKey, row: InputRow) {
    var j := k.tx.block.height - origin.height - 1;
    && 0 <= j < |chain| && chain[j].key == k.tx.block && k in InputsOf(chain[j].key, chain[j].body.txs)
    && row == InputsOf(chain[j].key, chain[j].body.txs)[k]
  }

  /** Everything recorded is part of the chain; parts of the chain may be missing. */
  ghost predicate Faithful(v: View, origin: Origin, chain: seq<Mined>) {
    && (forall k :: k in v.outputs ==> FromOutput(origin, chain, k, v.outputs[k]))
    && (forall k :: k in v.inputs ==> FromInput(origin, chain, k, v.inputs[k]))
  }

  ghost function Tip(origin: Origin, chain: seq<Mined>): nat {
    origin.height + |chain|
  }

  // ---------------------------------------------------------------- a faithful record fits the node

  lemma RecordedOutput(v: View, origin: Origin, chain: seq<Mined>, k: RowKey) returns (j: nat)
    requires ChainOk(origin, chain) && Faithful(v, origin, chain) && k in v.outputs
    ensures j < |chain| && k in OutputsOf(chain[j].key, chain[j].body.txs) && k.tx.block.height == origin.height + j + 1
    ensures v.outputs[k].creationId.Some? && v.outputs[k].creationId == OutputsOf(chain[j].key, chain[j].body.txs)[k].creationId
    ensures var o := OutputsOf(chain[j].key, chain[j].body.txs)[k];
            CoinOf(v, map[], Recorded(k)) == Coin(o.slot, v.outputs[k].creationId.value, o.owner, o.amount)
    ensures CoinOf(v, map[], Recorded(k)) in CreatedBy(chain[j].body)
    ensures v.outputs[k].creationId.value in GivenAt(origin, chain)
  {
    hide OutputsOf, ChainOk, NodeAt, CreatedBy, SpentBy;
    assert FromOutput(origin, chain, k, v.outputs[k]);
    j := k.tx.block.height - origin.height - 1;
    BlockExtends(origin, chain, j);
    OutputCreates(chain[j], k);
    assert v.outputs[k].creationId.value in Ids(CreatedBy(chain[j].body));
  }

  lemma RecordedInput(v: View, origin: Origin, chain: seq<Mined>, k: RowKey) returns (j: nat)
    requires ChainOk(origin, chain) && Faithful(v, origin, chain) && k in v.inputs
    ensures j < |chain| && v.inputs[k].creationId in SpentBy(chain[j].body) && k.tx.block.height == origin.height + j + 1
    ensures v.inputs[k].creationId in GivenAt(origin, chain)
  {
    hide InputsOf, ChainOk, NodeAt, CreatedBy, SpentBy;
    assert FromInput(origin, chain, k, v.inputs[k]);
    j := k.tx.block.height - origin.height - 1;
    BlockExtends(origin, chain, j);
    InputSpends(chain[j], k);
  }

  /** What the sweep relies on holds of every faithful record, complete or not. */
  lemma FaithfulFits(v: View, origin: Origin, chain: seq<Mined>)
    requires ChainOk(origin, chain) && Faithful(v, origin, chain)
    ensures FitsNode(v, NodeAt(origin, chain), Tip(origin, chain))
    ensures NothingAbove(v, Tip(origin, chain))
    ensures forall k :: k in v.outputs ==> v.outputs[k].slot >= 0
  {
    hide OutputsOf, InputsOf, ChainOk, NodeAt, GivenAt, Faithful, CoinOf, CreatedBy, SpentBy;
    var node := NodeAt(origin, chain);
    forall k | k in v.outputs
      ensures v.outputs[k].creationId.Some? && k.tx.block.height <= Tip(origin, chain) && v.outputs[k].slot >= 0
    {
      var j := RecordedOutput(v, origin, chain, k);
      SlotNotNegative(v, origin, chain, j, k);
    }
    forall k, l | k in v.outputs && l in v.outputs && v.outputs[k].creationId == v.outputs[l].creationId
      ensures k == l
    {
      var i := RecordedOutput(v, origin, chain, k);
      var j := RecordedOutput(v, origin, chain, l);
      IdsGivenOnce(origin, chain, i, j, k, l);
    }
    forall k, c | k in v.outputs && c in node
      ensures NamesThatCoin(v, k, c, Tip(origin, chain))
    {
      var j := RecordedOutput(v, origin, chain, k);
      if v.outputs[k].creationId == Some(c.creationId) { LiveIsTheOutput(origin, chain, j, k, c); }
    }
    forall c | c in node
      ensures !Spent(v, c.creationId, Tip(origin, chain))
    {
      LiveIsNotSpent(v, origin, chain, c);
    }
    forall k | k in v.inputs
      ensures k.tx.block.height <= Tip(origin, chain)
    {
      var j := RecordedInput(v, origin, chain, k);
    }
  }

  lemma SlotNotNegative(v: View, origin: Origin, chain: seq<Mined>, j: nat, k: RowKey)
    requires ChainOk(origin, chain) && j < |chain| && k in v.outputs
    requires CoinOf(v, map[], Recorded(k)) in CreatedBy(chain[j].body)
    ensures v.outputs[k].slot >= 0
  {
    hide ChainOk, NodeAt, GivenAt, Decimal, DistinctIds, SpentBy, Ids;
    BlockExtends(origin, chain, j);
  }

  lemma LiveIsNotSpent(v: View, origin: Origin, chain: seq<Mined>, c: Coin)
    requires ChainOk(origin, chain) && Faithful(v, origin, chain) && c in NodeAt(origin, chain)
    ensures forall h :: !Spent(v, c.creationId, h)
  {
    hide Faithful, ChainOk, NodeAt, GivenAt, SpentBy;
    forall k | k in v.inputs
      ensures v.inputs[k].creationId != c.creationId
    {
      var j := RecordedInput(v, origin, chain, k);
      LiveIsUnspent(origin, chain, j, c);
    }
  }

  // ---------------------------------------------------------------- the next block, recorded

  /** The rows of a block were added to the record. */
  ghost predicate Gains(v: View, w: View, m: Mined) {
    && w.inputs == v.inputs + InputsOf(m.key, m.body.txs)
    && w.outputs == v.outputs + OutputsOf(m.key, m.body.txs)
    && (forall k :: k in v.inputs ==> k.tx.block != m.key)
    && (forall k :: k in v.outputs ==> k.tx.block != m.key)
  }

  lemma GainsFaithful(v: View, w: View, origin: Origin, chain: seq<Mined>, j: nat)
    requires ChainOk(origin, chain) && j < |chain| && Faithful(v, origin, chain) && Gains(v, w, chain[j])
    ensures Faithful(w, origin, chain)
  {
    hide OutputsOf, InputsOf, ChainOk, FromOutput, FromInput, Gains;
    forall k | k in w.outputs ensures FromOutput(origin, chain, k, w.outputs[k]) { GainedOutput(v, w, origin, chain, j, k); }
    forall k | k in w.inputs ensures FromInput(origin, chain, k, w.inputs[k]) { GainedInput(v, w, origin, chain, j, k); }
  }

  lemma GainedOutput(v: View, w: View, origin: Origin, chain: seq<Mined>, j: nat, k: RowKey)
    requires ChainOk(origin, chain) && j < |chain| && Faithful(v, origin, chain) && Gains(v, w, chain[j]) && k in w.outputs
    ensures FromOutput(origin, chain, k, w.outputs[k])
  {
    hide OutputsOf, InputsOf, ChainOk, FromInput, CreatedBy, SpentBy, GivenAt, NodeAt;
    var m := chain[j];
    BlockExtends(origin, chain, j);
    if k in OutputsOf(m.key, m.body.txs) { OutputCreates(m, k); } else { assert FromOutput(origin, chain, k, v.outputs[k]); }
  }

  lemma GainedInput(v: View, w: View, origin: Origin, chain: seq<Mined>, j: nat, k: RowKey)
    requires ChainOk(origin, chain) && j < |chain| && Faithful(v, origin, chain) && Gains(v, w, chain[j]) && k in w.inputs
    ensures FromInput(origin, chain, k, w.inputs[k])
  {
    hide OutputsOf, InputsOf, ChainOk, FromOutput, CreatedBy, SpentBy, GivenAt, NodeAt;
    var m := chain[j];
    BlockExtends(origin, chain, j);
    if k in InputsOf(m.key, m.body.txs) { InputSpends(m, k); } else { assert FromInput(origin, chain, k, v.inputs[k]); }
  }

  /** A longer chain contains everything recorded so far. */
  lemma StillFaithful(v: View, origin: Origin, chain: seq<Mined>, m: Mined)
    requires Faithful(v, origin, chain)
    ensures Faithful(v, origin, chain + [m])
  {
    hide OutputsOf, InputsOf;
    forall k | k in v.outputs
      ensures FromOutput(origin, chain + [m], k, v.outputs[k])
    {
      assert FromOutput(origin, chain, k, v.outputs[k]);
    }
    forall k | k in v.inputs
      ensures FromInput(origin, chain + [m], k, v.inputs[k])
    {
      assert FromInput(origin, chain, k, v.inputs[k]);
    }
  }

  /** Spends after the block: those before, and what its inputs name. */
  lemma SpentGains(v: View, w: View, m: Mined, id: string, h: nat)
    requires Gains(v, w, m) && WellPositioned(m.body.txs)
    ensures Spent(w, id, h) <==> Spent(v, id, h) || (id in SpentBy(m.body) && m.key.height <= h)
  {
    hide InputsOf, OutputsOf, SpentBy;
    if Spent(w, id, h) {
      var k :| k in w.inputs && w.inputs[k].creationId == id && k.tx.block.height <= h;
      if k in InputsOf(m.key, m.body.txs) { InputSpends(m, k); } else { assert k in v.inputs; }
    }
    if Spent(v, id, h) {
      var k :| k in v.inputs && v.inputs[k].creationId == id && k.tx.block.height <= h;
      if k in InputsOf(m.key, m.body.txs) { InputSpends(m, k); }
      assert k in w.inputs && w.inputs[k] == v.inputs[k];
    }
    if id in SpentBy(m.body) && m.key.height <= h {
      var k := SpendHasInput(m, id);
      assert k in w.inputs;
    }
  }

  lemma OldOutput(v: View, w: View, m: Mined, k: RowKey)
    requires Gains(v, w, m) && WellPositioned(m.body.txs) && k in v.outputs
    ensures k in w.outputs && w.outputs[k] == v.outputs[k]
  {
    hide OutputsOf, InputsOf;
    if k in OutputsOf(m.key, m.body.txs) { OutputCreates(m, k); }
  }

  /** Recording a block never changes the picture below its height. */
  lemma EarlierPicturesStay(v: View, w: View, slots: map<nat, SlotRow>, m: Mined, row: PictureRow, h: nat)
    requires Gains(v, w, m) && WellPositioned(m.body.txs) && h < m.key.height
    ensures InPicture(w, slots, row, h) <==> InPicture(v, slots, row, h)
    ensures InPicture(w, slots, row, h) ==> CoinOf(w, slots, row) == CoinOf(v, slots, row)
  {
    hide OutputsOf, InputsOf, SpentBy, Spent;
    match row
    case Recorded(k) =>
      if k in v.outputs {
        OldOutput(v, w, m, k);
        if v.outputs[k].creationId.Some? { SpentGains(v, w, m, v.outputs[k].creationId.value, h); }
      } else if k in w.outputs {
        OutputCreates(m, k);
      }
    case Own(s) =>
      if s in slots { SpentGains(v, w, m, slots[s].creationId, h); }
  }

  ghost predicate Before(v: View, slots: map<nat, SlotRow>, row: PictureRow) {
    Known(v, slots, row) && (row.Recorded? ==> v.outputs[row.key].creationId.Some?)
  }

  lemma ShownIsKnown(v: View, slots: map<nat, SlotRow>, h: nat, segment: nat, size: nat)
    requires size > 0
    ensures forall row :: InSegment(v, slots, h, segment, size, row) ==> Known(v, slots, row)
  {
    hide Spent;
  }

  /** A row known before is in the picture after the block unless the block spends its coin. */
  lemma OldRowNext(v: View, w: View, slots: map<nat, SlotRow>, m: Mined, h: nat, segment: nat, size: nat, row: PictureRow)
    requires size > 0 && Gains(v, w, m) && WellPositioned(m.body.txs) && m.key.height == h + 1 && NothingAbove(v, h)
    requires Before(v, slots, row)
    ensures Known(w, slots, row) && CoinOf(w, slots, row) == CoinOf(v, slots, row)
    ensures InSegment(w, slots, h + 1, segment, size, row) <==>
            InSegment(v, slots, h, segment, size, row) && CoinOf(v, slots, row).creationId !in SpentBy(m.body)
  {
    hide OutputsOf, InputsOf, SpentBy, Spent;
    match row
    case Recorded(k) =>
      OldOutput(v, w, m, k);
      SpentGains(v, w, m, v.outputs[k].creationId.value, h + 1);
      SpentSettled(v, v.outputs[k].creationId.value, h, h + 1);
    case Own(s) =>
      SpentGains(v, w, m, slots[s].creationId, h + 1);
      SpentSettled(v, slots[s].creationId, h, h + 1);
  }

  /** A row of the block's own outputs is in the picture unless the block spends it itself. */
  lemma NewRowNext(v: View, w: View, slots: map<nat, SlotRow>, m: Mined, h: nat, segment: nat, size: nat, k: RowKey)
    requires size > 0 && Gains(v, w, m) && WellPositioned(m.body.txs) && m.key.height == h + 1
    requires k in OutputsOf(m.key, m.body.txs) && OutputsOf(m.key, m.body.txs)[k].creationId.Some?
    requires !Spent(v, OutputsOf(m.key, m.body.txs)[k].creationId.value, h + 1)
    ensures k in w.outputs && w.outputs[k] == OutputsOf(m.key, m.body.txs)[k] && CoinOf(w, slots, Recorded(k)) in CreatedBy(m.body)
    ensures CoinOf(w, slots, Recorded(k)).creationId == w.outputs[k].creationId.value
    ensures InSegment(w, slots, h + 1, segment, size, Recorded(k)) <==>
            CoinOf(w, slots, Recorded(k)).slot / size == segment && CoinOf(w, slots, Recorded(k)).creationId !in SpentBy(m.body)
  {
    hide OutputsOf, InputsOf, SpentBy, Spent, CreatedBy;
    OutputCreates(m, k);
    SpentGains(v, w, m, w.outputs[k].creationId.value, h + 1);
  }

  /** Ids the next block creates are new to everything recorded or swept. */
  lemma CreatedIsNew(v: View, origin: Origin, chain: seq<Mined>, m: Mined, c: Coin)
    requires ChainOk(origin, chain + [m]) && Faithful(v, origin, chain)
    requires c in CreatedBy(m.body)
    ensures forall h :: !Spent(v, c.creationId, h)
    ensures c.creationId !in GivenAt(origin, chain)
    ensures forall d :: d in NodeAt(origin, chain) ==> d.creationId != c.creationId
  {
    hide NodeAt, GivenAt, Faithful, CreatedBy, SpentBy, NodeOk, DistinctIds, SlotsFit;
    assert (chain + [m])[..|chain|] == chain;
    assert c.creationId in Ids(CreatedBy(m.body));
    LiveIdsGiven(origin, chain);
    forall k | k in v.inputs
      ensures v.inputs[k].creationId != c.creationId
    {
      var j := RecordedInput(v, origin, chain, k);
    }
  }

  /** The chain's next block is well formed and one height up. */
  lemma NextBlock(origin: Origin, chain: seq<Mined>, m: Mined)
    requires ChainOk(origin, chain + [m])
    ensures ChainOk(origin, chain) && WellPositioned(m.body.txs) && DistinctIds(m.body) && m.key.height == Tip(origin, chain) + 1
    ensures NodeAt(origin, chain + [m]) == NodeAfter(NodeAt(origin, chain), m.body)
    ensures GivenAt(origin, chain + [m]) == GivenAt(origin, chain) + Ids(CreatedBy(m.body))
  {
    hide NodeAfter, Ids, NodeOk, SpentBy, CreatedBy;
    assert (chain + [m])[..|chain|] == chain;
  }

  /** The record before and after the next block. */
  ghost predicate Follows(v: View, w: View, origin: Origin, chain: seq<Mined>, m: Mined) {
    ChainOk(origin, chain + [m]) && Faithful(v, origin, chain) && Gains(v, w, m)
  }

  /** Every row after the block comes from one before it, or is an output of the block. */
  lemma RowBefore(v: View, w: View, slots: map<nat, SlotRow>, origin: Origin, chain: seq<Mined>, m: Mined, row: PictureRow)
    requires Follows(v, w, origin, chain, m) && Known(w, slots, row)
    ensures Before(v, slots, row) || (row.Recorded? && row.key in OutputsOf(m.key, m.body.txs))
  {
    hide OutputsOf, InputsOf, ChainOk, NodeAt, GivenAt, Faithful;
    NextBlock(origin, chain, m);
    if row.Recorded? && row.key in v.outputs {
      var j := RecordedOutput(v, origin, chain, row.key);
    }
  }

  lemma NewRow(v: View, w: View, slots: map<nat, SlotRow>, origin: Origin, chain: seq<Mined>, m: Mined, segment: nat, size: nat, k: RowKey)
    requires size > 0 && Follows(v, w, origin, chain, m) && k in OutputsOf(m.key, m.body.txs)
    ensures k in w.outputs && w.outputs[k] == OutputsOf(m.key, m.body.txs)[k] && w.outputs[k].creationId.Some?
    ensures CoinOf(w, slots, Recorded(k)) in CreatedBy(m.body)
    ensures CoinOf(w, slots, Recorded(k)).creationId == w.outputs[k].creationId.value
    ensures InSegment(w, slots, Tip(origin, chain) + 1, segment, size, Recorded(k)) <==>
            CoinOf(w, slots, Recorded(k)).slot / size == segment && CoinOf(w, slots, Recorded(k)).creationId !in SpentBy(m.body)
  {
    hide OutputsOf, InputsOf, ChainOk, NodeAt, GivenAt, Faithful, CreatedBy, SpentBy, Spent, InSegment, CoinOf;
    NextBlock(origin, chain, m);
    OutputCreates(m, k);
    var o := OutputsOf(m.key, m.body.txs)[k];
    CreatedIsNew(v, origin, chain, m, Coin(o.slot, o.creationId.value, o.owner, o.amount));
    NewRowNext(v, w, slots, m, Tip(origin, chain), segment, size, k);
  }

  lemma OldRow(v: View, w: View, slots: map<nat, SlotRow>, origin: Origin, chain: seq<Mined>, m: Mined, segment: nat, size: nat, row: PictureRow)
    requires size > 0 && Follows(v, w, origin, chain, m) && Before(v, slots, row)
    ensures Known(w, slots, row) && CoinOf(w, slots, row) == CoinOf(v, slots, row)
    ensures InSegment(w, slots, Tip(origin, chain) + 1, segment, size, row) <==>
            InSegment(v, slots, Tip(origin, chain), segment, size, row) && CoinOf(v, slots, row).creationId !in SpentBy(m.body)
  {
    hide OutputsOf, InputsOf, ChainOk, NodeAt, GivenAt, Faithful, SpentBy, Spent, InSegment, FitsNode, CoinOf;
    NextBlock(origin, chain, m);
    FaithfulFits(v, origin, chain);
    OldRowNext(v, w, slots, m, Tip(origin, chain), segment, size, row);
  }

  /** A row shown after the block is a coin of the node after the block. */
  lemma ShownIsLive(v: View, w: View, slots: map<nat, SlotRow>, origin: Origin, chain: seq<Mined>, m: Mined, segment: nat, size: nat, row: PictureRow)
    requires size > 0 && Follows(v, w, origin, chain, m)
    requires Exact(v, slots, Tip(origin, chain), segment, size, NodeAt(origin, chain))
    requires InSegment(w, slots, Tip(origin, chain) + 1, segment, size, row) && Known(w, slots, row)
    ensures CoinOf(w, slots, row) in NodeAt(origin, chain + [m]) && CoinOf(w, slots, row).slot / size == segment
    ensures CoinOf(w, slots, row) in (if Before(v, slots, row) then NodeAt(origin, chain) else CreatedBy(m.body))
    ensures Before(v, slots, row) ==> InSegment(v, slots, Tip(origin, chain), segment, size, row) && CoinOf(w, slots, row) == CoinOf(v, slots, row)
  {
    hide OutputsOf, InputsOf, ChainOk, NodeAt, GivenAt, Faithful, CreatedBy, SpentBy, Spent, CoinOf, Follows;
    FollowsChain(v, w, origin, chain, m);
    NextBlock(origin, chain, m);
    RowBefore(v, w, slots, origin, chain, m, row);
    if Before(v, slots, row) {
      OldRow(v, w, slots, origin, chain, m, segment, size, row);
    } else {
      NewRow(v, w, slots, origin, chain, m, segment, size, row.key);
    }
  }

  lemma FollowsChain(v: View, w: View, origin: Origin, chain: seq<Mined>, m: Mined)
    requires Follows(v, w, origin, chain, m)
    ensures ChainOk(origin, chain + [m])
  {
  }

  /** A coin of the node after the block is shown. */
  lemma LiveIsShown(v: View, w: View, slots: map<nat, SlotRow>, origin: Origin, chain: seq<Mined>, m: Mined, segment: nat, size: nat, c: Coin)
    requires size > 0 && Follows(v, w, origin, chain, m)
    requires Exact(v, slots, Tip(origin, chain), segment, size, NodeAt(origin, chain))
    requires c in NodeAt(origin, chain + [m]) && c.slot / size == segment
    ensures Shows(w, slots, Tip(origin, chain) + 1, segment, size, c)
  {
    hide OutputsOf, InputsOf, ChainOk, NodeAt, GivenAt, Faithful, CreatedBy, SpentBy, Spent, CoinOf, InSegment;
    NextBlock(origin, chain, m);
    if c in CreatedBy(m.body) {
      var k := CreatedHasOutput(m, c);
      NewRow(v, w, slots, origin, chain, m, segment, size, k);
      assert CoinOf(w, slots, Recorded(k)).creationId == c.creationId;
      CreatedOnce(m.body, c, CoinOf(w, slots, Recorded(k)));
      assert InSegment(w, slots, Tip(origin, chain) + 1, segment, size, Recorded(k));
    } else {
      assert Shows(v, slots, Tip(origin, chain), segment, size, c);
      ShownIsKnown(v, slots, Tip(origin, chain), segment, size);
      var row :| InSegment(v, slots, Tip(origin, chain), segment, size, row) && CoinOf(v, slots, row) == c;
      ShownRowIsBefore(v, slots, origin, chain, segment, size, row);
      OldRow(v, w, slots, origin, chain, m, segment, size, row);
      assert InSegment(w, slots, Tip(origin, chain) + 1, segment, size, row);
    }
  }

  lemma ShownRowIsBefore(v: View, slots: map<nat, SlotRow>, origin: Origin, chain: seq<Mined>, segment: nat, size: nat, row: PictureRow)
    requires size > 0 && ChainOk(origin, chain) && Faithful(v, origin, chain)
    requires InSegment(v, slots, Tip(origin, chain), segment, size, row)
    ensures Before(v, slots, row)
  {
    hide OutputsOf, InputsOf, ChainOk, NodeAt, GivenAt, Faithful, Spent, CreatedBy, SpentBy;
    if row.Recorded? {
      var j := RecordedOutput(v, origin, chain, row.key);
    }
  }

  /**
    Recording the next block keeps a segment exact: the same picture the node's own
    transition gives, one height up.
   */
  lemma RecordingKeepsExact(v: View, w: View, slots: map<nat, SlotRow>, origin: Origin, chain: seq<Mined>, m: Mined, segment: nat, size: nat)
    requires size > 0 && Follows(v, w, origin, chain, m)
    requires Exact(v, slots, Tip(origin, chain), segment, size, NodeAt(origin, chain))
    ensures Exact(w, slots, Tip(origin, chain) + 1, segment, size, NodeAt(origin, chain + [m]))
  {
    hide NodeAt, Follows, InSegment, CoinOf, Shows, Before, CreatedBy, Known;
    var node := NodeAt(origin, chain + [m]);
    var h := Tip(origin, chain) + 1;
    ShownIsKnown(w, slots, h, segment, size);
    forall row | InSegment(w, slots, h, segment, size, row)
      ensures CoinOf(w, slots, row) in node && CoinOf(w, slots, row).slot / size == segment
    {
      ShownIsLive(v, w, slots, origin, chain, m, segment, size, row);
    }
    forall c | c in node && c.slot / size == segment
      ensures Shows(w, slots, h, segment, size, c)
    {
      LiveIsShown(v, w, slots, origin, chain, m, segment, size, c);
    }
    forall r, s | InSegment(w, slots, h, segment, size, r) && InSegment(w, slots, h, segment, size, s) && CoinOf(w, slots, r) == CoinOf(w, slots, s)
      ensures r == s
    {
      ShownOnce(v, w, slots, origin, chain, m, segment, size, r, s);
    }
  }

  lemma ShownOnce(v: View, w: View, slots: map<nat, SlotRow>, origin: Origin, chain: seq<Mined>, m: Mined, segment: nat, size: nat,
                  r: PictureRow, s: PictureRow)
    requires size > 0 && Follows(v, w, origin, chain, m)
    requires Exact(v, slots, Tip(origin, chain), segment, size, NodeAt(origin, chain))
    requires InSegment(w, slots, Tip(origin, chain) + 1, segment, size, r) && InSegment(w, slots, Tip(origin, chain) + 1, segment, size, s)
    requires Known(w, slots, r) && Known(w, slots, s) && CoinOf(w, slots, r) == CoinOf(w, slots, s)
    ensures r == s
  {
    hide NodeAt, InSegment, CoinOf, Shows, Before, CreatedBy, OutputsOf, InputsOf, ChainOk, GivenAt, Faithful, SpentBy;
    ShownIsLive(v, w, slots, origin, chain, m, segment, size, r);
    ShownIsLive(v, w, slots, origin, chain, m, segment, size, s);
    var c := CoinOf(w, slots, r);
    if Before(v, slots, r) != Before(v, slots, s) {
      CreatedIsNew(v, origin, chain, m, c);
    } else if !Before(v, slots, r) {
      RowBefore(v, w, slots, origin, chain, m, r);
      RowBefore(v, w, slots, origin, chain, m, s);
      NewRow(v, w, slots, origin, chain, m, segment, size, r.key);
      NewRow(v, w, slots, origin, chain, m, segment, size, s.key);
      NextBlock(origin, chain, m);
      OutputIdsDiffer(m, r.key, s.key);
    }
  }
}
