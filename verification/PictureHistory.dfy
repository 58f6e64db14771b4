/**
  The picture at every height the archive has caught up with (core/src/db.rs, the
  height-bounded queries): what recording, missing, recovering and pruning a block and a
  reorganisation do to pictures that were exact from some height on.
 */
module PictureHistory {
  import opened Tables
  import opened View
  import opened Sweep
  import opened SweepLaws
  import opened Figures
  import opened LiveState
  import opened BodyLaws
  import opened Chains
  import opened Simulation

  // ---------------------------------------------------------------- the record up to a height

  /** The recorded inputs and outputs at or below a height. */
  function Lower(v: View, h: nat): View {
    View(map[], Below(v.inputs, h), Below(v.outputs, h))
  }

  function Below<V>(m: map<RowKey, V>, h: nat): map<RowKey, V> {
    map k | k in m && k.tx.block.height <= h :: m[k]
  }

  lemma BelowJoin<V>(m: map<RowKey, V>, rows: map<RowKey, V>, h: nat)
    requires forall k :: k in rows ==> k.tx.block.height <= h
    ensures Below(m + rows, h) == Below(m, h) + rows
  {
  }

  lemma LowerSpent(v: View, id: string, h: nat, g: nat)
    requires g <= h
    ensures Spent(Lower(v, h), id, g) <==> Spent(v, id, g)
  {
    var w := Lower(v, h);
    if Spent(v, id, g) {
      var k :| k in v.inputs && v.inputs[k].creationId == id && k.tx.block.height <= g;
      assert k in w.inputs && w.inputs[k] == v.inputs[k];
    }
  }

  lemma LowerOutputs(v: View, h: nat, k: RowKey)
    ensures k in Lower(v, h).outputs <==> k in v.outputs && k.tx.block.height <= h
    ensures k in Lower(v, h).outputs ==> Lower(v, h).outputs[k] == v.outputs[k]
  {
  }

  /** A picture only depends on the record up to its height. */
  lemma LowerSameRow(v: View, slots: map<nat, SlotRow>, h: nat, g: nat, segment: nat, size: nat, row: PictureRow)
    requires size > 0 && g <= h
    ensures SameRow(v, slots, Lower(v, h), slots, g, segment, size, row)
  {
    match row
    case Recorded(k) =>
      LowerOutputs(v, h, k);
      if k in v.outputs && v.outputs[k].creationId.Some? { LowerSpent(v, v.outputs[k].creationId.value, h, g); }
      hide Lower, Spent;
    case Own(s) =>
      if s in slots { LowerSpent(v, slots[s].creationId, h, g); }
      hide Lower, Spent;
  }

  /** Pictures with the same rows are exact alike. */
  lemma SameRowsExact(v: View, slots: map<nat, SlotRow>, w: View, after: map<nat, SlotRow>, h: nat, segment: nat, size: nat, node: set<Coin>)
    requires size > 0 && Exact(v, slots, h, segment, size, node)
    requires forall row :: SameRow(v, slots, w, after, h, segment, size, row)
    ensures Exact(w, after, h, segment, size, node)
  {
    hide Exact, InSegment, CoinOf, Known;
    RowsMatch(v, slots, w, after, h, segment, size);
    SameRowsStayExact(v, slots, w, after, h, segment, size, node);
  }

  lemma RowsMatch(v: View, slots: map<nat, SlotRow>, w: View, after: map<nat, SlotRow>, h: nat, segment: nat, size: nat)
    requires size > 0 && forall row :: SameRow(v, slots, w, after, h, segment, size, row)
    ensures forall row :: InSegment(w, after, h, segment, size, row) ==> Known(w, after, row)
    ensures forall row :: InSegment(v, slots, h, segment, size, row) ==> Known(v, slots, row)
    ensures forall row :: InSegment(w, after, h, segment, size, row) <==> InSegment(v, slots, h, segment, size, row)
    ensures forall row :: InSegment(w, after, h, segment, size, row) ==> CoinOf(w, after, row) == CoinOf(v, slots, row)
  {
    ShownIsKnown(v, slots, h, segment, size);
    ShownIsKnown(w, after, h, segment, size);
    hide InSegment, CoinOf, Known;
    forall row
      ensures InSegment(w, after, h, segment, size, row) <==> InSegment(v, slots, h, segment, size, row)
      ensures InSegment(w, after, h, segment, size, row) ==> CoinOf(w, after, row) == CoinOf(v, slots, row)
    {
      assert SameRow(v, slots, w, after, h, segment, size, row);
    }
  }

  lemma SameRowBack(v: View, slots: map<nat, SlotRow>, w: View, after: map<nat, SlotRow>, h: nat, segment: nat, size: nat, row: PictureRow)
    requires size > 0 && SameRow(v, slots, w, after, h, segment, size, row)
    ensures SameRow(w, after, v, slots, h, segment, size, row)
  {
    hide Spent;
  }

  lemma LowerExact(v: View, slots: map<nat, SlotRow>, h: nat, g: nat, segment: nat, size: nat, node: set<Coin>)
    requires size > 0 && g <= h
    ensures Exact(Lower(v, h), slots, g, segment, size, node) <==> Exact(v, slots, g, segment, size, node)
  {
    hide Exact, SameRow, Lower;
    forall row
      ensures SameRow(v, slots, Lower(v, h), slots, g, segment, size, row)
      ensures SameRow(Lower(v, h), slots, v, slots, g, segment, size, row)
    {
      LowerSameRow(v, slots, h, g, segment, size, row);
      SameRowBack(v, slots, Lower(v, h), slots, g, segment, size, row);
    }
    if Exact(v, slots, g, segment, size, node) { SameRowsExact(v, slots, Lower(v, h), slots, g, segment, size, node); }
    if Exact(Lower(v, h), slots, g, segment, size, node) { SameRowsExact(Lower(v, h), slots, v, slots, g, segment, size, node); }
  }

  lemma LowerLower(v: View, h: nat, g: nat)
    requires g <= h
    ensures Lower(Lower(v, h), g) == Lower(v, g)
  {
  }

  // ---------------------------------------------------------------- exact from a height on

  ghost function ChainTo(origin: Origin, chain: seq<Mined>, g: nat): seq<Mined>
    requires origin.height <= g <= Tip(origin, chain)
  {
    chain[..g - origin.height]
  }

  ghost predicate ExactAt(v: View, slots: map<nat, SlotRow>, origin: Origin, chain: seq<Mined>, segment: nat, size: nat, g: nat)
    requires size > 0 && origin.height <= g <= Tip(origin, chain)
  {
    Exact(v, slots, g, segment, size, NodeAt(origin, ChainTo(origin, chain, g)))
  }

  /** At every height from `from` to the tip the segment's picture is the node's state at that height. */
  ghost predicate ExactFrom(v: View, slots: map<nat, SlotRow>, origin: Origin, chain: seq<Mined>, segment: nat, size: nat, from: nat)
    requires size > 0
  {
    from >= origin.height && forall g: nat | from <= g <= Tip(origin, chain) :: ExactAt(v, slots, origin, chain, segment, size, g)
  }

  /** For every segment, the height from which on its picture is known to be exact; beyond the tip if it is not. */
  type Since = nat -> nat

  ghost predicate ExactSince(v: View, slots: map<nat, SlotRow>, origin: Origin, chain: seq<Mined>, size: nat, since: Since)
    requires size > 0
  {
    forall segment: nat :: ExactFrom(v, slots, origin, chain, segment, size, since(segment))
  }

  function SlotCoin(slots: map<nat, SlotRow>, s: nat): Coin
    requires s in slots
  {
    Coin(s, slots[s].creationId, slots[s].owner, slots[s].amount)
  }

  /** The sweep's own slots of an exact segment hold coins the chain had by then, spent since or not. */
  ghost predicate TrueSlots(slots: map<nat, SlotRow>, origin: Origin, chain: seq<Mined>, size: nat, since: Since)
    requires size > 0
  {
    forall s: nat :: s in slots && origin.height <= since(s / size) <= Tip(origin, chain) ==> TrueSlot(slots, origin, chain, s, since(s / size))
  }

  ghost predicate TrueSlot(slots: map<nat, SlotRow>, origin: Origin, chain: seq<Mined>, s: nat, from: nat)
    requires s in slots && origin.height <= from <= Tip(origin, chain)
  {
    SlotCoin(slots, s) in EverCoins(origin, ChainTo(origin, chain, from))
  }

  /** Exactness is kept where it held and a condition holds, and given up elsewhere. */
  function Keep(since: Since, tip: nat, next: nat, holds: nat -> bool): Since {
    (segment: nat) => if since(segment) <= tip && holds(segment) then since(segment) else next + 1
  }

  /** Exactness is kept where a condition held all along, kept at the tip where it holds there, and given up elsewhere. */
  function Late(since: Since, tip: nat, holds: (nat, nat) -> bool): Since {
    (segment: nat) =>
      if since(segment) > tip then tip + 1
      else if holds(segment, since(segment)) then since(segment)
      else if holds(segment, tip) then tip
      else tip + 1
  }

  /** The record up to `g` is part of the chain up to `g`. */
  lemma LowerFaithful(v: View, origin: Origin, chain: seq<Mined>, g: nat)
    requires Faithful(v, origin, chain) && origin.height <= g <= Tip(origin, chain)
    ensures Faithful(Lower(v, g), origin, ChainTo(origin, chain, g))
  {
    hide OutputsOf, InputsOf;
    var w, short := Lower(v, g), ChainTo(origin, chain, g);
    forall k | k in w.outputs ensures FromOutput(origin, short, k, w.outputs[k]) { assert FromOutput(origin, chain, k, v.outputs[k]); }
    forall k | k in w.inputs ensures FromInput(origin, short, k, w.inputs[k]) { assert FromInput(origin, chain, k, v.inputs[k]); }
  }

  lemma ChainToOk(origin: Origin, chain: seq<Mined>, g: nat)
    requires ChainOk(origin, chain) && origin.height <= g <= Tip(origin, chain)
    ensures ChainOk(origin, ChainTo(origin, chain, g)) && Tip(origin, ChainTo(origin, chain, g)) == g
  {
    PrefixOk(origin, chain, g - origin.height);
  }

  lemma ChainToLonger(origin: Origin, chain: seq<Mined>, m: Mined, g: nat)
    requires origin.height <= g <= Tip(origin, chain)
    ensures ChainTo(origin, chain + [m], g) == ChainTo(origin, chain, g)
    ensures ChainTo(origin, chain, Tip(origin, chain)) == chain
  {
  }

  /** Pictures with the same rows at every height below the tip are exact at the same of them. */
  lemma ExactBelow(v: View, w: View, slots: map<nat, SlotRow>, origin: Origin, chain: seq<Mined>, m: Mined, segment: nat, size: nat, from: nat, g: nat)
    requires size > 0 && ExactFrom(v, slots, origin, chain, segment, size, from) && from <= g <= Tip(origin, chain)
    requires forall row :: SameRow(v, slots, w, slots, g, segment, size, row)
    ensures ExactAt(w, slots, origin, chain + [m], segment, size, g)
  {
    hide Exact, SameRow, NodeAt;
    ChainToLonger(origin, chain, m, g);
    assert ExactAt(v, slots, origin, chain, segment, size, g);
    SameRowsExact(v, slots, w, slots, g, segment, size, NodeAt(origin, ChainTo(origin, chain, g)));
  }

  // ---------------------------------------------------------------- the next block

  lemma EarlierSameRow(v: View, w: View, slots: map<nat, SlotRow>, m: Mined, segment: nat, size: nat, g: nat, row: PictureRow)
    requires size > 0 && Gains(v, w, m) && WellPositioned(m.body.txs) && g < m.key.height
    ensures SameRow(v, slots, w, slots, g, segment, size, row)
  {
    hide OutputsOf, InputsOf, SpentBy, Spent;
    EarlierPicturesStay(v, w, slots, m, row, g);
    if row.Recorded? && row.key in v.outputs { OldOutput(v, w, m, row.key); }
    if row.Recorded? && row.key in w.outputs && row.key !in v.outputs { OutputCreates(m, row.key); }
  }

  /** A block recorded with its body: the segment stays exact from where it was, and is exact at the block's height. */
  lemma RecordedNext(v: View, w: View, slots: map<nat, SlotRow>, origin: Origin, chain: seq<Mined>, m: Mined, segment: nat, size: nat, from: nat)
    requires size > 0 && Follows(v, w, origin, chain, m)
    requires ExactFrom(v, slots, origin, chain, segment, size, from) && from <= Tip(origin, chain)
    ensures ExactFrom(w, slots, origin, chain + [m], segment, size, from)
  {
    hide Exact, NodeAt, Faithful, ChainOk, ExactAt, SameRow, Gains;
    NextBlock(origin, chain, m);
    forall g: nat | from <= g <= Tip(origin, chain + [m])
      ensures ExactAt(w, slots, origin, chain + [m], segment, size, g)
    {
      if g <= Tip(origin, chain) {
        forall row ensures SameRow(v, slots, w, slots, g, segment, size, row) { EarlierSameRow(v, w, slots, m, segment, size, g, row); }
        ExactBelow(v, w, slots, origin, chain, m, segment, size, from, g);
      } else {
        TipIsExact(v, slots, origin, chain, segment, size, from);
        RecordingKeepsExact(v, w, slots, origin, chain, m, segment, size);
        AtTheTip(w, slots, origin, chain + [m], segment, size);
      }
    }
  }

  lemma TipIsExact(v: View, slots: map<nat, SlotRow>, origin: Origin, chain: seq<Mined>, segment: nat, size: nat, from: nat)
    requires size > 0 && ExactFrom(v, slots, origin, chain, segment, size, from) && from <= Tip(origin, chain)
    ensures Exact(v, slots, Tip(origin, chain), segment, size, NodeAt(origin, chain))
  {
    hide Exact, NodeAt;
    assert ExactAt(v, slots, origin, chain, segment, size, Tip(origin, chain));
    assert chain[..|chain|] == chain;
  }

  lemma AtTheTip(v: View, slots: map<nat, SlotRow>, origin: Origin, chain: seq<Mined>, segment: nat, size: nat)
    requires size > 0 && Exact(v, slots, Tip(origin, chain), segment, size, NodeAt(origin, chain))
    ensures ExactAt(v, slots, origin, chain, segment, size, Tip(origin, chain))
  {
    hide Exact, NodeAt;
    assert chain[..|chain|] == chain;
  }

  /** Exactness of a segment only depends on the node's coins in it. */
  lemma SameCoinsStayExact(v: View, slots: map<nat, SlotRow>, h: nat, later: nat, segment: nat, size: nat, node: set<Coin>, next: set<Coin>)
    requires size > 0 && Exact(v, slots, h, segment, size, node) && h <= later && NothingAbove(v, h)
    requires forall c: Coin :: c.slot / size == segment ==> (c in next <==> c in node)
    ensures Exact(v, slots, later, segment, size, next)
  {
    hide Spent, InPicture, CoinOf, NothingAbove;
    forall row
      ensures InSegment(v, slots, later, segment, size, row) <==> InSegment(v, slots, h, segment, size, row)
    {
      PictureSettled(v, slots, h, later, row);
    }
    hide InSegment;
    ShownIsKnown(v, slots, later, segment, size);
    forall c | c in next && c.slot / size == segment
      ensures Shows(v, slots, later, segment, size, c)
    {
      assert Shows(v, slots, h, segment, size, c);
    }
  }

  /** A block leaves the coins of every segment it does not touch. */
  lemma UntouchedCoins(origin: Origin, chain: seq<Mined>, m: Mined, segment: nat, size: nat, c: Coin)
    requires size > 0 && ChainOk(origin, chain + [m]) && c.slot / size == segment
    requires segment !in Touched(NodeAt(origin, chain), m.body, size)
    ensures c in NodeAt(origin, chain + [m]) <==> c in NodeAt(origin, chain)
  {
    hide NodeAt, ChainOk, CreatedBy, SpentBy, GivenAt;
    NextBlock(origin, chain, m);
    var node := NodeAt(origin, chain);
    if c in node + CreatedBy(m.body) && (c in CreatedBy(m.body) || c.creationId in SpentBy(m.body)) {
      IsTouched(node, m.body, size, c);
    }
  }

  lemma SameViewSameRow(v: View, slots: map<nat, SlotRow>, segment: nat, size: nat, g: nat, row: PictureRow)
    requires size > 0
    ensures SameRow(v, slots, v, slots, g, segment, size, row)
  {
    hide Spent;
  }

  /** The two states hold the same coins of the segment. */
  ghost predicate SameCoins(node: set<Coin>, next: set<Coin>, segment: nat, size: nat)
    requires size > 0
  {
    forall c: Coin | c in node + next && c.slot / size == segment :: c in node && c in next
  }

  /** One picture cannot be exact for two different states of the segment. */
  lemma ExactIsTheCoins(v: View, slots: map<nat, SlotRow>, h: nat, segment: nat, size: nat, node: set<Coin>, next: set<Coin>)
    requires size > 0 && Exact(v, slots, h, segment, size, node) && Exact(v, slots, h, segment, size, next)
    ensures SameCoins(node, next, segment, size)
  {
    hide InSegment, CoinOf, Known;
    ShownIsKnown(v, slots, h, segment, size);
    forall c: Coin | c.slot / size == segment
      ensures c in node <==> c in next
    {
      if c in node { assert Shows(v, slots, h, segment, size, c); }
      if c in next { assert Shows(v, slots, h, segment, size, c); }
    }
  }

  /** A block that was missed leaves an exact segment exact exactly when none of its coins came or went. */
  lemma MissingExactWhen(v: View, slots: map<nat, SlotRow>, origin: Origin, chain: seq<Mined>, m: Mined, segment: nat, size: nat)
    requires size > 0 && ChainOk(origin, chain + [m]) && Faithful(v, origin, chain)
    requires Exact(v, slots, Tip(origin, chain), segment, size, NodeAt(origin, chain))
    ensures Exact(v, slots, Tip(origin, chain) + 1, segment, size, NodeAt(origin, chain + [m])) <==>
            SameCoins(NodeAt(origin, chain), NodeAt(origin, chain + [m]), segment, size)
  {
    hide NodeAt, ChainOk, Faithful, Exact, CreatedBy, SpentBy, GivenAt, FitsNode;
    var node, next, h := NodeAt(origin, chain), NodeAt(origin, chain + [m]), Tip(origin, chain);
    NextBlock(origin, chain, m);
    FaithfulFits(v, origin, chain);
    SameCoinsStayExact(v, slots, h, h + 1, segment, size, node, node);
    if SameCoins(node, next, segment, size) { SameCoinsStayExact(v, slots, h, h + 1, segment, size, node, next); }
    if Exact(v, slots, h + 1, segment, size, next) { ExactIsTheCoins(v, slots, h + 1, segment, size, node, next); }
  }

  /** In particular every segment it did not touch. */
  lemma MissingKeepsExact(v: View, slots: map<nat, SlotRow>, origin: Origin, chain: seq<Mined>, m: Mined, segment: nat, size: nat)
    requires size > 0 && ChainOk(origin, chain + [m]) && Faithful(v, origin, chain)
    requires Exact(v, slots, Tip(origin, chain), segment, size, NodeAt(origin, chain))
    requires segment !in Touched(NodeAt(origin, chain), m.body, size)
    ensures Exact(v, slots, Tip(origin, chain) + 1, segment, size, NodeAt(origin, chain + [m]))
  {
    hide NodeAt, ChainOk, Faithful, Exact, Touched;
    forall c: Coin | c.slot / size == segment
      ensures c in NodeAt(origin, chain + [m]) <==> c in NodeAt(origin, chain)
    {
      UntouchedCoins(origin, chain, m, segment, size, c);
    }
    MissingExactWhen(v, slots, origin, chain, m, segment, size);
  }

  /** And then it stays exact at every height it was exact at. */
  lemma MissedNext(v: View, slots: map<nat, SlotRow>, origin: Origin, chain: seq<Mined>, m: Mined, segment: nat, size: nat, from: nat)
    requires size > 0 && ChainOk(origin, chain + [m]) && Faithful(v, origin, chain)
    requires ExactFrom(v, slots, origin, chain, segment, size, from) && from <= Tip(origin, chain)
    requires SameCoins(NodeAt(origin, chain), NodeAt(origin, chain + [m]), segment, size)
    ensures ExactFrom(v, slots, origin, chain + [m], segment, size, from)
  {
    hide Exact, NodeAt, Faithful, ChainOk, ExactAt, SameRow, SameCoins;
    NextBlock(origin, chain, m);
    forall g: nat | from <= g <= Tip(origin, chain + [m])
      ensures ExactAt(v, slots, origin, chain + [m], segment, size, g)
    {
      if g <= Tip(origin, chain) {
        forall row ensures SameRow(v, slots, v, slots, g, segment, size, row) { SameViewSameRow(v, slots, segment, size, g, row); }
        ExactBelow(v, v, slots, origin, chain, m, segment, size, from, g);
      } else {
        TipIsExact(v, slots, origin, chain, segment, size, from);
        MissingExactWhen(v, slots, origin, chain, m, segment, size);
        AtTheTip(v, slots, origin, chain + [m], segment, size);
      }
    }
  }

  lemma ExactSameRows(v: View, w: View, slots: map<nat, SlotRow>, origin: Origin, chain: seq<Mined>, segment: nat, size: nat, from: nat, g: nat)
    requires size > 0 && ExactFrom(v, slots, origin, chain, segment, size, from) && from <= g <= Tip(origin, chain)
    requires forall row :: SameRow(v, slots, w, slots, g, segment, size, row)
    ensures ExactAt(w, slots, origin, chain, segment, size, g)
  {
    hide Exact, SameRow, NodeAt;
    assert ExactAt(v, slots, origin, chain, segment, size, g);
    SameRowsExact(v, slots, w, slots, g, segment, size, NodeAt(origin, ChainTo(origin, chain, g)));
  }

  /** Of two exact pictures one of which shows all the other does, the other shows all it does. */
  lemma NothingMoreShown(v: View, w: View, slots: map<nat, SlotRow>, h: nat, segment: nat, size: nat, node: set<Coin>, row: PictureRow)
    requires size > 0 && Exact(v, slots, h, segment, size, node) && Exact(w, slots, h, segment, size, node)
    requires forall r :: InSegment(v, slots, h, segment, size, r) ==> InSegment(w, slots, h, segment, size, r) && CoinOf(w, slots, r) == CoinOf(v, slots, r)
    requires InSegment(w, slots, h, segment, size, row)
    ensures InSegment(v, slots, h, segment, size, row)
  {
    hide InSegment, CoinOf, Known;
    ShownIsKnown(v, slots, h, segment, size);
    ShownIsKnown(w, slots, h, segment, size);
    assert Shows(v, slots, h, segment, size, CoinOf(w, slots, row));
    var r :| InSegment(v, slots, h, segment, size, r) && CoinOf(v, slots, r) == CoinOf(w, slots, row);
  }

  lemma RecordedIsKnown(v: View, slots: map<nat, SlotRow>, k: RowKey)
    ensures Known(v, slots, Recorded(k)) <==> k in v.outputs
  {
  }

  // ---------------------------------------------------------------- flags cleared

  /** Flags went from some outputs, and nothing else changed. */
  ghost predicate Clears(v: View, w: View) {
    && w == v.(outputs := w.outputs) && FlagsOnly(v.outputs, w.outputs)
    && forall k :: k in v.outputs && !v.outputs[k].spentInGap ==> !w.outputs[k].spentInGap
  }

  /** Every output of the segment that lost its flag has a spend on record by the height. */
  ghost predicate ClearedSpent(v: View, w: View, segment: nat, size: nat, g: nat)
    requires size > 0
  {
    forall k | k in v.outputs && k in w.outputs && v.outputs[k].spentInGap && !w.outputs[k].spentInGap && v.outputs[k].slot / size == segment :: OutputSpent(v, v.outputs[k], g)
  }

  /** A row is shown after as before unless its own flag went and no spend hides it. */
  lemma ClearedRowShown(v: View, w: View, slots: map<nat, SlotRow>, segment: nat, size: nat, g: nat, row: PictureRow)
    requires size > 0 && Clears(v, w)
    ensures Known(v, slots, row) <==> Known(w, slots, row)
    ensures Known(v, slots, row) ==> CoinOf(w, slots, row) == CoinOf(v, slots, row)
    ensures InSegment(v, slots, g, segment, size, row) ==> InSegment(w, slots, g, segment, size, row)
    ensures InSegment(w, slots, g, segment, size, row) && !InSegment(v, slots, g, segment, size, row) ==>
            row.Recorded? && v.outputs[row.key].spentInGap && !w.outputs[row.key].spentInGap
            && v.outputs[row.key].slot / size == segment && row.key.tx.block.height <= g && !OutputSpent(v, v.outputs[row.key], g)
  {
    match row
    case Recorded(k) => if k in v.outputs && v.outputs[k].creationId.Some? { SpentIgnoresOutputs(v, w, v.outputs[k].creationId.value, g); }
      hide Spent;
    case Own(s) => if s in slots { SpentIgnoresOutputs(v, w, slots[s].creationId, g); }
      hide Spent;
  }

  lemma ClearedSameRow(v: View, w: View, slots: map<nat, SlotRow>, segment: nat, size: nat, g: nat, row: PictureRow)
    requires size > 0 && Clears(v, w) && ClearedSpent(v, w, segment, size, g)
    ensures SameRow(v, slots, w, slots, g, segment, size, row)
  {
    hide Spent, InSegment, CoinOf, Known;
    ShownIsKnown(v, slots, g, segment, size);
    ShownIsKnown(w, slots, g, segment, size);
    ClearedRowShown(v, w, slots, segment, size, g, row);
    if row.Recorded? { RecordedIsKnown(v, slots, row.key); }
  }

  /** Clearing flags leaves a segment exact at a height exactly when the outputs cleared there were spent by it. */
  lemma ClearedExactWhen(v: View, w: View, slots: map<nat, SlotRow>, segment: nat, size: nat, g: nat, node: set<Coin>)
    requires size > 0 && Clears(v, w) && Exact(v, slots, g, segment, size, node)
    requires forall k :: k in v.outputs ==> k.tx.block.height <= g
    ensures Exact(w, slots, g, segment, size, node) <==> ClearedSpent(v, w, segment, size, g)
  {
    hide Exact, Clears, ClearedSpent, SameRow;
    if ClearedSpent(v, w, segment, size, g) {
      forall row ensures SameRow(v, slots, w, slots, g, segment, size, row) { ClearedSameRow(v, w, slots, segment, size, g, row); }
      SameRowsExact(v, slots, w, slots, g, segment, size, node);
    }
    if Exact(w, slots, g, segment, size, node) { ExactNeedsClearedSpent(v, w, slots, segment, size, g, node); }
  }

  lemma ExactNeedsClearedSpent(v: View, w: View, slots: map<nat, SlotRow>, segment: nat, size: nat, g: nat, node: set<Coin>)
    requires size > 0 && Clears(v, w) && Exact(v, slots, g, segment, size, node) && Exact(w, slots, g, segment, size, node)
    requires forall k :: k in v.outputs ==> k.tx.block.height <= g
    ensures ClearedSpent(v, w, segment, size, g)
  {
    hide Exact, InSegment, CoinOf, Known, Spent;
    ShownIsKnown(v, slots, g, segment, size);
    forall r | InSegment(v, slots, g, segment, size, r)
      ensures InSegment(w, slots, g, segment, size, r) && Known(w, slots, r) && Known(v, slots, r) && CoinOf(w, slots, r) == CoinOf(v, slots, r)
    {
      ClearedRowShown(v, w, slots, segment, size, g, r);
    }
    forall k | k in v.outputs && v.outputs[k].spentInGap && !w.outputs[k].spentInGap && v.outputs[k].slot / size == segment
      ensures OutputSpent(v, v.outputs[k], g)
    {
      if !OutputSpent(v, v.outputs[k], g) {
        UnflaggedIsShown(v, w, slots, segment, size, g, k);
        NothingMoreShown(v, w, slots, g, segment, size, node, Recorded(k));
        FlaggedIsHidden(v, slots, segment, size, g, k);
      }
    }
  }

  lemma UnflaggedIsShown(v: View, w: View, slots: map<nat, SlotRow>, segment: nat, size: nat, g: nat, k: RowKey)
    requires size > 0 && Clears(v, w) && k in v.outputs && !w.outputs[k].spentInGap && v.outputs[k].slot / size == segment
    requires k.tx.block.height <= g && !OutputSpent(v, v.outputs[k], g)
    ensures InSegment(w, slots, g, segment, size, Recorded(k))
  {
    if v.outputs[k].creationId.Some? { SpentIgnoresOutputs(v, w, v.outputs[k].creationId.value, g); }
    hide Spent;
  }

  lemma FlaggedIsHidden(v: View, slots: map<nat, SlotRow>, segment: nat, size: nat, g: nat, k: RowKey)
    requires size > 0 && k in v.outputs && v.outputs[k].spentInGap
    ensures !InSegment(v, slots, g, segment, size, Recorded(k))
  {
    hide Spent;
  }

  lemma ClearedLater(v: View, w: View, segment: nat, size: nat, g: nat, h: nat)
    requires size > 0 && g <= h && ClearedSpent(v, w, segment, size, g)
    ensures ClearedSpent(v, w, segment, size, h)
  {
  }

  lemma ClearedFrom(v: View, w: View, slots: map<nat, SlotRow>, origin: Origin, chain: seq<Mined>, segment: nat, size: nat, from: nat, next: nat)
    requires size > 0 && ExactFrom(v, slots, origin, chain, segment, size, from) && from <= next
    requires Clears(v, w) && ClearedSpent(v, w, segment, size, next)
    ensures ExactFrom(w, slots, origin, chain, segment, size, next)
  {
    hide Exact, NodeAt, ExactAt, SameRow, Clears, ClearedSpent;
    forall g: nat | next <= g <= Tip(origin, chain)
      ensures ExactAt(w, slots, origin, chain, segment, size, g)
    {
      ClearedLater(v, w, segment, size, next, g);
      forall row ensures SameRow(v, slots, w, slots, g, segment, size, row) { ClearedSameRow(v, w, slots, segment, size, g, row); }
      ExactSameRows(v, w, slots, origin, chain, segment, size, from, g);
    }
  }

  // ---------------------------------------------------------------- a block that counts again

  /** The rows of a block that was on record before, flags and all, count again. */
  ghost predicate GainsFlagged(v: View, w: View, m: Mined) {
    && w.inputs == v.inputs + InputsOf(m.key, m.body.txs)
    && FlagsOnly(v.outputs + OutputsOf(m.key, m.body.txs), w.outputs)
    && (forall k :: k in v.inputs ==> k.tx.block != m.key)
    && (forall k :: k in v.outputs ==> k.tx.block != m.key && k in w.outputs && w.outputs[k] == v.outputs[k])
  }

  ghost function Unflagged(v: View, w: View, m: Mined): View {
    w.(outputs := v.outputs + OutputsOf(m.key, m.body.txs))
  }

  /** Every output of the block in the segment that carries a flag has a spend on record by the height. */
  ghost predicate FlaggedSpent(w: View, b: BlockKey, segment: nat, size: nat, g: nat)
    requires size > 0
  {
    forall k | k in w.outputs && k.tx.block == b && w.outputs[k].spentInGap && w.outputs[k].slot / size == segment :: OutputSpent(w, w.outputs[k], g)
  }

  /** Only outputs of the block lose a flag from the one to the other. */
  lemma UnflaggedClears(v: View, w: View, m: Mined)
    requires GainsFlagged(v, w, m) && WellPositioned(m.body.txs)
    ensures Clears(w, Unflagged(v, w, m)) && Gains(v, Unflagged(v, w, m), m)
    ensures var x := Unflagged(v, w, m);
            forall k :: k in w.outputs ==> k in x.outputs && (w.outputs[k].spentInGap && !x.outputs[k].spentInGap <==> w.outputs[k].spentInGap && k.tx.block == m.key)
  {
    hide OutputsOf, InputsOf, CreatedBy;
    forall k | k in OutputsOf(m.key, m.body.txs)
      ensures k.tx.block == m.key && !OutputsOf(m.key, m.body.txs)[k].spentInGap
    {
      OutputCreates(m, k);
    }
  }

  lemma FlaggedIsCleared(v: View, w: View, m: Mined, segment: nat, size: nat, g: nat)
    requires size > 0 && GainsFlagged(v, w, m) && WellPositioned(m.body.txs)
    ensures FlaggedSpent(w, m.key, segment, size, g) <==> ClearedSpent(w, Unflagged(v, w, m), segment, size, g)
  {
    UnflaggedClears(v, w, m);
    hide GainsFlagged, Unflagged, Clears, Gains, OutputSpent;
  }

  lemma FlaggedSameRow(v: View, w: View, slots: map<nat, SlotRow>, m: Mined, segment: nat, size: nat, g: nat, row: PictureRow)
    requires size > 0 && GainsFlagged(v, w, m) && WellPositioned(m.body.txs)
    requires g < m.key.height || FlaggedSpent(w, m.key, segment, size, g)
    ensures SameRow(Unflagged(v, w, m), slots, w, slots, g, segment, size, row)
  {
    var x := Unflagged(v, w, m);
    UnflaggedClears(v, w, m);
    FlaggedIsCleared(v, w, m, segment, size, g);
    hide GainsFlagged, Unflagged, Clears, Gains, FlaggedSpent, SameRow, ClearedSpent;
    if g < m.key.height {
      EarlierFlags(w, x, slots, m.key, segment, size, g, row);
    } else {
      ClearedSameRow(w, x, slots, segment, size, g, row);
    }
    SameRowBack(w, slots, x, slots, g, segment, size, row);
  }

  lemma EarlierFlags(w: View, x: View, slots: map<nat, SlotRow>, b: BlockKey, segment: nat, size: nat, g: nat, row: PictureRow)
    requires size > 0 && Clears(w, x) && g < b.height
    requires forall k :: k in w.outputs ==> k in x.outputs && (w.outputs[k].spentInGap && !x.outputs[k].spentInGap ==> k.tx.block == b)
    ensures SameRow(w, slots, x, slots, g, segment, size, row)
  {
    hide InSegment, CoinOf, OutputSpent, Known;
    ShownIsKnown(w, slots, g, segment, size);
    ShownIsKnown(x, slots, g, segment, size);
    ClearedRowShown(w, x, slots, segment, size, g, row);
    if row.Recorded? { RecordedIsKnown(w, slots, row.key); }
  }

  /**
    A block that returns with its old flags carries an exact segment one height up exactly
    when its flagged outputs there are spent on record by then.
   */
  lemma FlaggedExactWhen(v: View, w: View, slots: map<nat, SlotRow>, origin: Origin, chain: seq<Mined>, m: Mined, segment: nat, size: nat)
    requires size > 0 && ChainOk(origin, chain + [m]) && Faithful(v, origin, chain) && GainsFlagged(v, w, m)
    requires Exact(v, slots, Tip(origin, chain), segment, size, NodeAt(origin, chain))
    ensures var h := Tip(origin, chain) + 1;
            Exact(w, slots, h, segment, size, NodeAt(origin, chain + [m])) <==> FlaggedSpent(w, m.key, segment, size, h)
  {
    hide Exact, NodeAt, Faithful, ChainOk, SameRow, OutputsOf, InputsOf, FlagsOnly, GivenAt, FitsNode;
    var x, h, next := Unflagged(v, w, m), Tip(origin, chain) + 1, NodeAt(origin, chain + [m]);
    NextBlock(origin, chain, m);
    UnflaggedClears(v, w, m);
    RecordingKeepsExact(v, x, slots, origin, chain, m, segment, size);
    if FlaggedSpent(w, m.key, segment, size, h) {
      forall row ensures SameRow(x, slots, w, slots, h, segment, size, row) { FlaggedSameRow(v, w, slots, m, segment, size, h, row); }
      SameRowsExact(x, slots, w, slots, h, segment, size, next);
    }
    if Exact(w, slots, h, segment, size, next) {
      FlaggedFaithful(v, w, origin, chain, m);
      FaithfulFits(w, origin, chain + [m]);
      ExactNeedsClearedSpent(w, x, slots, segment, size, h, next);
      FlaggedIsCleared(v, w, m, segment, size, h);
    }
  }

  /** And then it stays exact at every height it was exact at. */
  lemma FlaggedNext(v: View, w: View, slots: map<nat, SlotRow>, origin: Origin, chain: seq<Mined>, m: Mined, segment: nat, size: nat, from: nat)
    requires size > 0 && ChainOk(origin, chain + [m]) && Faithful(v, origin, chain) && GainsFlagged(v, w, m)
    requires ExactFrom(v, slots, origin, chain, segment, size, from) && from <= Tip(origin, chain)
    requires FlaggedSpent(w, m.key, segment, size, Tip(origin, chain) + 1)
    ensures ExactFrom(w, slots, origin, chain + [m], segment, size, from)
  {
    hide Exact, NodeAt, Faithful, ChainOk, ExactAt, SameRow, FlaggedSpent, OutputsOf, InputsOf, FlagsOnly, GainsFlagged, Gains, Clears;
    var x := Unflagged(v, w, m);
    NextBlock(origin, chain, m);
    UnflaggedClears(v, w, m);
    hide Unflagged;
    RecordedNext(v, x, slots, origin, chain, m, segment, size, from);
    forall g: nat | from <= g <= Tip(origin, chain + [m])
      ensures ExactAt(w, slots, origin, chain + [m], segment, size, g)
    {
      forall row ensures SameRow(x, slots, w, slots, g, segment, size, row) { FlaggedSameRow(v, w, slots, m, segment, size, g, row); }
      ExactSameRows(x, w, slots, origin, chain + [m], segment, size, from, g);
    }
  }

  /** A flagged return is still part of the chain. */
  lemma FlaggedFaithful(v: View, w: View, origin: Origin, chain: seq<Mined>, m: Mined)
    requires ChainOk(origin, chain + [m]) && Faithful(v, origin, chain) && GainsFlagged(v, w, m)
    ensures Faithful(w, origin, chain + [m])
  {
    hide OutputsOf, InputsOf, ChainOk, FlagsOnly, FromOutput, FromInput;
    var x := Unflagged(v, w, m);
    NextBlock(origin, chain, m);
    StillFaithful(v, origin, chain, m);
    assert Gains(v, x, m) && (chain + [m])[|chain|] == m;
    GainsFaithful(v, x, origin, chain + [m], |chain|);
    FaithfulUpToFlags(x, w, origin, chain + [m]);
  }

  lemma FaithfulUpToFlags(v: View, w: View, origin: Origin, chain: seq<Mined>)
    requires Faithful(v, origin, chain) && w == v.(outputs := w.outputs) && FlagsOnly(v.outputs, w.outputs)
    ensures Faithful(w, origin, chain)
  {
    hide OutputsOf, InputsOf;
    forall k | k in w.outputs
      ensures FromOutput(origin, chain, k, w.outputs[k])
    {
      assert FromOutput(origin, chain, k, v.outputs[k]);
    }
  }

  // ---------------------------------------------------------------- a body recorded late

  lemma ShownNotSpent(v: View, slots: map<nat, SlotRow>, origin: Origin, chain: seq<Mined>, j: nat, segment: nat, size: nat, row: PictureRow)
    requires size > 0 && ChainOk(origin, chain) && j < |chain| && Known(v, slots, row)
    requires Exact(v, slots, Tip(origin, chain), segment, size, NodeAt(origin, chain))
    ensures InSegment(v, slots, Tip(origin, chain), segment, size, row) ==> CoinOf(v, slots, row).creationId !in SpentBy(chain[j].body)
  {
    hide NodeAt, ChainOk, GivenAt, CreatedBy, SpentBy, CoinOf, InSegment, Shows, Known;
    if InSegment(v, slots, Tip(origin, chain), segment, size, row) {
      LiveIsUnspent(origin, chain, j, CoinOf(v, slots, row));
    }
  }

  /** Every output of the block in the segment has a spend on record by the height. */
  ghost predicate OutputsSpent(w: View, m: Mined, segment: nat, size: nat, g: nat)
    requires size > 0
  {
    forall k | k in OutputsOf(m.key, m.body.txs) && OutputsOf(m.key, m.body.txs)[k].slot / size == segment ::
      OutputSpent(w, OutputsOf(m.key, m.body.txs)[k], g)
  }

  /** A row shown before is shown after: the late body spends nothing that is live. */
  lemma OldRowAfterRecovery(v: View, w: View, slots: map<nat, SlotRow>, origin: Origin, chain: seq<Mined>, j: nat, segment: nat, size: nat, row: PictureRow)
    requires size > 0 && ChainOk(origin, chain) && Faithful(v, origin, chain) && j < |chain| && Gains(v, w, chain[j])
    requires Exact(v, slots, Tip(origin, chain), segment, size, NodeAt(origin, chain)) && Known(v, slots, row)
    ensures SameRow(v, slots, w, slots, Tip(origin, chain), segment, size, row)
  {
    hide NodeAt, ChainOk, Faithful, GivenAt, OutputsOf, InputsOf, CreatedBy, SpentBy, Spent, Exact;
    var h, m := Tip(origin, chain), chain[j];
    BlockExtends(origin, chain, j);
    ShownNotSpent(v, slots, origin, chain, j, segment, size, row);
    match row
    case Recorded(k) =>
      OldOutput(v, w, m, k);
      var i := RecordedOutput(v, origin, chain, k);
      SpentGains(v, w, m, v.outputs[k].creationId.value, h);
    case Own(s) => SpentGains(v, w, m, slots[s].creationId, h);
  }

  /** A row of the late body itself is shown unless its spend is on record. */
  lemma NewRowAfterRecovery(v: View, w: View, slots: map<nat, SlotRow>, origin: Origin, chain: seq<Mined>, j: nat, segment: nat, size: nat, k: RowKey)
    requires size > 0 && ChainOk(origin, chain) && j < |chain| && Gains(v, w, chain[j]) && k !in v.outputs
    ensures k in w.outputs <==> k in OutputsOf(chain[j].key, chain[j].body.txs)
    ensures k in w.outputs ==> w.outputs[k] == OutputsOf(chain[j].key, chain[j].body.txs)[k]
    ensures InSegment(w, slots, Tip(origin, chain), segment, size, Recorded(k)) <==>
            k in w.outputs && w.outputs[k].slot / size == segment && !OutputSpent(w, w.outputs[k], Tip(origin, chain))
  {
    hide NodeAt, ChainOk, GivenAt, OutputsOf, InputsOf, CreatedBy, SpentBy, Spent;
    BlockExtends(origin, chain, j);
    if k in OutputsOf(chain[j].key, chain[j].body.txs) { OutputCreates(chain[j], k); }
  }

  lemma RowAfterRecovery(v: View, w: View, slots: map<nat, SlotRow>, origin: Origin, chain: seq<Mined>, j: nat, segment: nat, size: nat, row: PictureRow)
    requires size > 0 && ChainOk(origin, chain) && Faithful(v, origin, chain) && j < |chain| && Gains(v, w, chain[j])
    requires Exact(v, slots, Tip(origin, chain), segment, size, NodeAt(origin, chain))
    requires OutputsSpent(w, chain[j], segment, size, Tip(origin, chain))
    ensures SameRow(v, slots, w, slots, Tip(origin, chain), segment, size, row)
  {
    hide Exact, NodeAt, ChainOk, Faithful, Gains, OutputsOf, OutputSpent, InSegment, CoinOf;
    if Known(v, slots, row) {
      OldRowAfterRecovery(v, w, slots, origin, chain, j, segment, size, row);
    } else {
      ShownIsKnown(v, slots, Tip(origin, chain), segment, size);
      ShownIsKnown(w, slots, Tip(origin, chain), segment, size);
      if row.Recorded? { NewRowAfterRecovery(v, w, slots, origin, chain, j, segment, size, row.key); }
    }
  }

  /**
    A body recorded late leaves an exact segment exact exactly when every output of it there
    has its spend on record: a live one is shown twice, by its row and by the slot a sweep kept.
   */
  lemma RecoveryExactWhen(v: View, w: View, slots: map<nat, SlotRow>, origin: Origin, chain: seq<Mined>, j: nat, segment: nat, size: nat)
    requires size > 0 && ChainOk(origin, chain) && Faithful(v, origin, chain) && j < |chain| && Gains(v, w, chain[j])
    requires Exact(v, slots, Tip(origin, chain), segment, size, NodeAt(origin, chain))
    ensures Exact(w, slots, Tip(origin, chain), segment, size, NodeAt(origin, chain)) <==> OutputsSpent(w, chain[j], segment, size, Tip(origin, chain))
  {
    hide NodeAt, ChainOk, Faithful, Gains, GivenAt, SameRow, Exact, OutputsSpent;
    if OutputsSpent(w, chain[j], segment, size, Tip(origin, chain)) {
      forall row
        ensures SameRow(v, slots, w, slots, Tip(origin, chain), segment, size, row)
      {
        RowAfterRecovery(v, w, slots, origin, chain, j, segment, size, row);
      }
      SameRowsExact(v, slots, w, slots, Tip(origin, chain), segment, size, NodeAt(origin, chain));
    }
    if Exact(w, slots, Tip(origin, chain), segment, size, NodeAt(origin, chain)) {
      ExactNeedsSpends(v, w, slots, origin, chain, j, segment, size);
    }
  }

  lemma ExactNeedsSpends(v: View, w: View, slots: map<nat, SlotRow>, origin: Origin, chain: seq<Mined>, j: nat, segment: nat, size: nat)
    requires size > 0 && ChainOk(origin, chain) && Faithful(v, origin, chain) && j < |chain| && Gains(v, w, chain[j])
    requires Exact(v, slots, Tip(origin, chain), segment, size, NodeAt(origin, chain))
    requires Exact(w, slots, Tip(origin, chain), segment, size, NodeAt(origin, chain))
    ensures OutputsSpent(w, chain[j], segment, size, Tip(origin, chain))
  {
    hide NodeAt, ChainOk, Faithful, Exact, GivenAt, InSegment, CoinOf, OutputsOf, InputsOf, OutputSpent, CreatedBy, SpentBy, Known;
    var h := Tip(origin, chain);
    ShownIsKnown(v, slots, h, segment, size);
    forall r | InSegment(v, slots, h, segment, size, r)
      ensures InSegment(w, slots, h, segment, size, r) && Known(w, slots, r) && Known(v, slots, r) && CoinOf(w, slots, r) == CoinOf(v, slots, r)
    {
      OldRowAfterRecovery(v, w, slots, origin, chain, j, segment, size, r);
      StillKnown(v, w, slots, chain[j], r);
    }
    BlockExtends(origin, chain, j);
    BlockOfOutputs(chain[j]);
    forall k | k in OutputsOf(chain[j].key, chain[j].body.txs) && OutputsOf(chain[j].key, chain[j].body.txs)[k].slot / size == segment
      ensures OutputSpent(w, OutputsOf(chain[j].key, chain[j].body.txs)[k], h)
    {
      NewRowAfterRecovery(v, w, slots, origin, chain, j, segment, size, k);
      if InSegment(w, slots, h, segment, size, Recorded(k)) {
        NothingMoreShown(v, w, slots, h, segment, size, NodeAt(origin, chain), Recorded(k));
        RecordedIsKnown(v, slots, k);
      }
    }
  }

  lemma StillKnown(v: View, w: View, slots: map<nat, SlotRow>, m: Mined, row: PictureRow)
    requires Gains(v, w, m) && Known(v, slots, row)
    ensures Known(w, slots, row)
  {
  }

  lemma LowerGains(v: View, w: View, m: Mined, g: nat)
    requires Gains(v, w, m) && WellPositioned(m.body.txs) && m.key.height <= g
    ensures Gains(Lower(v, g), Lower(w, g), m)
  {
    hide OutputsOf, InputsOf, Below;
    BlockOfOutputs(m);
    BlockOfInputs(m);
    BelowJoin(v.inputs, InputsOf(m.key, m.body.txs), g);
    BelowJoin(v.outputs, OutputsOf(m.key, m.body.txs), g);
    BelowIsPart(v, g);
  }

  lemma BelowIsPart(v: View, g: nat)
    ensures Lower(v, g).inputs.Keys <= v.inputs.Keys && Lower(v, g).outputs.Keys <= v.outputs.Keys
  {
  }

  lemma BlockOfOutputs(m: Mined)
    requires WellPositioned(m.body.txs)
    ensures forall k :: k in OutputsOf(m.key, m.body.txs) ==> k.tx.block == m.key
  {
    hide OutputsOf, CreatedBy;
    forall k | k in OutputsOf(m.key, m.body.txs) ensures k.tx.block == m.key { OutputCreates(m, k); }
  }

  lemma BlockOfInputs(m: Mined)
    requires WellPositioned(m.body.txs)
    ensures forall k :: k in InputsOf(m.key, m.body.txs) ==> k.tx.block == m.key
  {
    hide InputsOf, SpentBy;
    forall k | k in InputsOf(m.key, m.body.txs) ensures k.tx.block == m.key { InputSpends(m, k); }
  }

  lemma SpentLater(w: View, m: Mined, segment: nat, size: nat, g: nat, h: nat)
    requires size > 0 && g <= h && OutputsSpent(w, m, segment, size, g)
    ensures OutputsSpent(w, m, segment, size, h)
  {
    hide OutputsOf;
  }

  lemma LowerOutputsSpent(w: View, m: Mined, segment: nat, size: nat, g: nat)
    requires size > 0 && WellPositioned(m.body.txs)
    ensures OutputsSpent(Lower(w, g), m, segment, size, g) <==> OutputsSpent(w, m, segment, size, g)
  {
    hide OutputsOf, Lower, Spent, CreatedBy;
    forall k | k in OutputsOf(m.key, m.body.txs)
      ensures var o := OutputsOf(m.key, m.body.txs)[k]; OutputSpent(Lower(w, g), o, g) <==> OutputSpent(w, o, g)
    {
      OutputCreates(m, k);
      LowerSpent(w, OutputsOf(m.key, m.body.txs)[k].creationId.value, g, g);
    }
  }

  /** The segment stays exact at every height from which its outputs there were spent. */
  lemma RecoveredAnywhere(v: View, w: View, slots: map<nat, SlotRow>, origin: Origin, chain: seq<Mined>, j: nat, segment: nat, size: nat, from: nat, next: nat)
    requires size > 0 && ChainOk(origin, chain) && Faithful(v, origin, chain) && j < |chain| && Gains(v, w, chain[j])
    requires ExactFrom(v, slots, origin, chain, segment, size, from) && from <= next
    requires OutputsSpent(w, chain[j], segment, size, next)
    ensures ExactFrom(w, slots, origin, chain, segment, size, next)
  {
    hide Exact, NodeAt, Faithful, ChainOk, ExactAt, SameRow, OutputsSpent, Gains;
    BlockExtends(origin, chain, j);
    forall g: nat | next <= g <= Tip(origin, chain)
      ensures ExactAt(w, slots, origin, chain, segment, size, g)
    {
      if g < chain[j].key.height {
        forall row ensures SameRow(v, slots, w, slots, g, segment, size, row) { EarlierSameRow(v, w, slots, chain[j], segment, size, g, row); }
        ExactSameRows(v, w, slots, origin, chain, segment, size, from, g);
      } else {
        assert ExactAt(v, slots, origin, chain, segment, size, g);
        SpentLater(w, chain[j], segment, size, next, g);
        RecoveredAt(v, w, slots, origin, chain, j, segment, size, g);
      }
    }
  }

  /** At each height from the block's on, exact exactly when its outputs there were spent by then. */
  lemma RecoveredAt(v: View, w: View, slots: map<nat, SlotRow>, origin: Origin, chain: seq<Mined>, j: nat, segment: nat, size: nat, g: nat)
    requires size > 0 && ChainOk(origin, chain) && Faithful(v, origin, chain) && j < |chain| && Gains(v, w, chain[j])
    requires chain[j].key.height <= g <= Tip(origin, chain) && g >= origin.height && ExactAt(v, slots, origin, chain, segment, size, g)
    ensures ExactAt(w, slots, origin, chain, segment, size, g) <==> OutputsSpent(w, chain[j], segment, size, g)
  {
    hide Exact, NodeAt, Faithful, ChainOk, OutputsSpent, Gains, Lower, GivenAt, SpentBy, CreatedBy;
    var short := ChainTo(origin, chain, g);
    BlockExtends(origin, chain, j);
    ChainToOk(origin, chain, g);
    LowerFaithful(v, origin, chain, g);
    LowerGains(v, w, chain[j], g);
    LowerExact(v, slots, g, g, segment, size, NodeAt(origin, short));
    RecoveryExactWhen(Lower(v, g), Lower(w, g), slots, origin, short, j, segment, size);
    LowerOutputsSpent(w, chain[j], segment, size, g);
    LowerExact(w, slots, g, g, segment, size, NodeAt(origin, short));
  }

  // ---------------------------------------------------------------- a block pruned

  /** The rows of a block were deleted. */
  ghost predicate Loses(v: View, w: View, b: BlockKey) {
    && w.inputs == (map k | k in v.inputs && k.tx.block != b :: v.inputs[k])
    && w.outputs == (map k | k in v.outputs && k.tx.block != b :: v.outputs[k])
  }

  lemma LosesFaithful(v: View, w: View, origin: Origin, chain: seq<Mined>, b: BlockKey)
    requires Faithful(v, origin, chain) && Loses(v, w, b)
    ensures Faithful(w, origin, chain)
  {
    hide FromOutput, FromInput;
  }

  /** What a row of an exact segment stands for is a coin of the chain. */
  lemma RowIsTrue(v: View, slots: map<nat, SlotRow>, origin: Origin, chain: seq<Mined>, size: nat, since: Since, row: PictureRow)
    requires size > 0 && ChainOk(origin, chain) && Faithful(v, origin, chain) && TrueSlots(slots, origin, chain, size, since)
    requires Known(v, slots, row) && (row.Own? ==> origin.height <= since(row.slot / size) <= Tip(origin, chain))
    ensures CoinOf(v, slots, row) in EverCoins(origin, chain)
  {
    hide Faithful, ChainOk, CreatedBy, NodeAt, GivenAt, EverCoins, OutputsOf, SpentBy;
    match row
    case Recorded(k) =>
      var j := RecordedOutput(v, origin, chain, k);
      CreatedEver(origin, chain, j);
    case Own(s) =>
      assert TrueSlot(slots, origin, chain, s, since(s / size));
      EverGrows(origin, chain, since(s / size) - origin.height);
  }

  /** A spend by a block of the chain names a coin of a segment the block touches. */
  lemma SpentInTouched(v: View, slots: map<nat, SlotRow>, origin: Origin, chain: seq<Mined>, size: nat, since: Since, j: nat, row: PictureRow)
    requires size > 0 && ChainOk(origin, chain) && Faithful(v, origin, chain) && TrueSlots(slots, origin, chain, size, since)
    requires Known(v, slots, row) && (row.Own? ==> origin.height <= since(row.slot / size) <= Tip(origin, chain))
    requires j < |chain| && CoinOf(v, slots, row).creationId in SpentBy(chain[j].body)
    ensures CoinOf(v, slots, row).slot / size in Touched(NodeAt(origin, chain[..j]), chain[j].body, size)
  {
    hide Faithful, ChainOk, NodeAt, EverCoins, SpentBy, Touched, CoinOf, TrueSlots, Known;
    RowIsTrue(v, slots, origin, chain, size, since, row);
    SpendingTouches(origin, chain, j, CoinOf(v, slots, row), size);
  }

  /** An unflagged row holds the coin, whether or not a spend of it is on record. */
  ghost predicate Holds(v: View, slots: map<nat, SlotRow>, row: PictureRow, c: Coin) {
    && Known(v, slots, row) && CoinOf(v, slots, row) == c
    && (row.Recorded? ==> v.outputs[row.key].creationId.Some? && !v.outputs[row.key].spentInGap)
  }

  /** No output of the block still shown, and no other row whose spend only the block has: all its rows can go. */
  ghost predicate PrunedShown(v: View, slots: map<nat, SlotRow>, b: BlockKey, segment: nat, size: nat, g: nat)
    requires size > 0
  {
    && (forall k | k in v.outputs && k.tx.block == b && v.outputs[k].slot / size == segment :: v.outputs[k].spentInGap || OutputSpent(v, v.outputs[k], g))
    && (forall row, c: Coin :: Holds(v, slots, row, c) && !RowOfBlock(row, b) && c.slot / size == segment ==> !SpentIn(v, c.creationId, b))
  }

  predicate RowOfBlock(row: PictureRow, b: BlockKey) {
    row.Recorded? && row.key.tx.block == b
  }

  predicate SpentIn(v: View, id: string, b: BlockKey) {
    exists k | k in v.inputs :: v.inputs[k].creationId == id && k.tx.block == b
  }

  lemma SpentLoses(v: View, w: View, b: BlockKey, id: string, g: nat)
    requires Loses(v, w, b)
    ensures Spent(w, id, g) ==> Spent(v, id, g)
    ensures Spent(v, id, g) ==> Spent(w, id, g) || SpentIn(v, id, b)
  {
    if Spent(v, id, g) {
      var k :| k in v.inputs && v.inputs[k].creationId == id && k.tx.block.height <= g;
      if k.tx.block != b { assert k in w.inputs && w.inputs[k] == v.inputs[k]; }
    }
  }

  /** With the block's rows gone a row that holds a coin is shown as before unless only the block spent it. */
  lemma PrunedOtherRow(v: View, w: View, slots: map<nat, SlotRow>, b: BlockKey, segment: nat, size: nat, g: nat, row: PictureRow)
    requires size > 0 && Loses(v, w, b) && Known(v, slots, row) && !RowOfBlock(row, b)
    ensures Known(w, slots, row) && CoinOf(w, slots, row) == CoinOf(v, slots, row)
    ensures InSegment(v, slots, g, segment, size, row) ==> InSegment(w, slots, g, segment, size, row)
    ensures InSegment(w, slots, g, segment, size, row) && !InSegment(v, slots, g, segment, size, row) ==>
            SpentIn(v, CoinOf(v, slots, row).creationId, b) && (row.Recorded? ==> v.outputs[row.key].creationId.Some? && !v.outputs[row.key].spentInGap)
  {
    hide Spent, SpentIn;
    match row
    case Recorded(k) => if v.outputs[k].creationId.Some? { SpentLoses(v, w, b, v.outputs[k].creationId.value, g); }
    case Own(s) => SpentLoses(v, w, b, slots[s].creationId, g);
  }

  lemma PrunedOwnRow(v: View, w: View, slots: map<nat, SlotRow>, b: BlockKey, segment: nat, size: nat, g: nat, k: RowKey)
    requires size > 0 && Loses(v, w, b) && k.tx.block == b
    ensures !InSegment(w, slots, g, segment, size, Recorded(k))
    ensures InSegment(v, slots, g, segment, size, Recorded(k)) <==>
            k in v.outputs && v.outputs[k].slot / size == segment && k.tx.block.height <= g && !v.outputs[k].spentInGap && !OutputSpent(v, v.outputs[k], g)
  {
    hide Spent;
  }

  lemma PrunedSameRow(v: View, w: View, slots: map<nat, SlotRow>, b: BlockKey, segment: nat, size: nat, g: nat, row: PictureRow)
    requires size > 0 && Loses(v, w, b) && SegmentsAgree(slots, size) && PrunedShown(v, slots, b, segment, size, g)
    ensures SameRow(v, slots, w, slots, g, segment, size, row)
  {
    hide InSegment, OutputSpent, SpentIn, CoinOf, Known, Loses, SegmentsAgree, Holds;
    ShownIsKnown(v, slots, g, segment, size);
    ShownIsKnown(w, slots, g, segment, size);
    if RowOfBlock(row, b) {
      PrunedOwnRow(v, w, slots, b, segment, size, g, row.key);
    } else if Known(v, slots, row) {
      PrunedOtherRow(v, w, slots, b, segment, size, g, row);
      if InSegment(w, slots, g, segment, size, row) && !InSegment(v, slots, g, segment, size, row) {
        HoldsInSegment(v, w, slots, segment, size, g, row);
      }
    } else {
      PrunedIsKnown(v, w, slots, b, row);
    }
  }

  lemma PrunedIsKnown(v: View, w: View, slots: map<nat, SlotRow>, b: BlockKey, row: PictureRow)
    requires Loses(v, w, b)
    ensures Known(w, slots, row) ==> Known(v, slots, row)
  {
  }

  /** An unflagged row shown in the segment holds its coin, and the coin's slot lies there. */
  lemma HoldsInSegment(v: View, w: View, slots: map<nat, SlotRow>, segment: nat, size: nat, g: nat, row: PictureRow)
    requires size > 0 && SegmentsAgree(slots, size) && Known(v, slots, row) && Known(w, slots, row) && CoinOf(w, slots, row) == CoinOf(v, slots, row)
    requires InSegment(w, slots, g, segment, size, row)
    requires row.Recorded? ==> v.outputs[row.key].creationId.Some? && !v.outputs[row.key].spentInGap
    ensures Holds(v, slots, row, CoinOf(v, slots, row)) && CoinOf(v, slots, row).slot / size == segment
  {
    hide Spent;
  }

  /**
    Pruning a block leaves an exact segment exact exactly when none of the block's outputs
    there is still live and no coin held by another row there was spent by it.
   */
  lemma PrunedExactWhen(v: View, w: View, slots: map<nat, SlotRow>, origin: Origin, chain: seq<Mined>, b: BlockKey, segment: nat, size: nat)
    requires size > 0 && ChainOk(origin, chain) && Faithful(v, origin, chain) && Loses(v, w, b) && SegmentsAgree(slots, size)
    requires Exact(v, slots, Tip(origin, chain), segment, size, NodeAt(origin, chain))
    ensures Exact(w, slots, Tip(origin, chain), segment, size, NodeAt(origin, chain)) <==> PrunedShown(v, slots, b, segment, size, Tip(origin, chain))
  {
    hide ChainOk, Faithful, NodeAt, Exact, PrunedShown, Loses, SegmentsAgree, SameRow;
    if PrunedShown(v, slots, b, segment, size, Tip(origin, chain)) {
      forall row ensures SameRow(v, slots, w, slots, Tip(origin, chain), segment, size, row) {
        PrunedSameRow(v, w, slots, b, segment, size, Tip(origin, chain), row);
      }
      SameRowsExact(v, slots, w, slots, Tip(origin, chain), segment, size, NodeAt(origin, chain));
    }
    if Exact(w, slots, Tip(origin, chain), segment, size, NodeAt(origin, chain)) {
      ExactNeedsPruned(v, w, slots, origin, chain, b, segment, size);
    }
  }

  lemma ExactNeedsPruned(v: View, w: View, slots: map<nat, SlotRow>, origin: Origin, chain: seq<Mined>, b: BlockKey, segment: nat, size: nat)
    requires size > 0 && ChainOk(origin, chain) && Faithful(v, origin, chain) && Loses(v, w, b) && SegmentsAgree(slots, size)
    requires Exact(v, slots, Tip(origin, chain), segment, size, NodeAt(origin, chain))
    requires Exact(w, slots, Tip(origin, chain), segment, size, NodeAt(origin, chain))
    ensures PrunedShown(v, slots, b, segment, size, Tip(origin, chain))
  {
    hide ChainOk, Faithful, NodeAt, Exact, Loses, SegmentsAgree, InSegment, OutputSpent, SpentIn, CoinOf, Known, Holds, RowOfBlock;
    var h := Tip(origin, chain);
    forall k | k in v.outputs && k.tx.block == b && v.outputs[k].slot / size == segment
      ensures v.outputs[k].spentInGap || OutputSpent(v, v.outputs[k], h)
    {
      PrunedOutputGone(v, w, slots, origin, chain, b, segment, size, k);
    }
    forall row, c: Coin | Holds(v, slots, row, c) && !RowOfBlock(row, b) && c.slot / size == segment
      ensures !SpentIn(v, c.creationId, b)
    {
      if SpentIn(v, c.creationId, b) { PrunedSpendReturns(v, w, slots, origin, chain, b, segment, size, row, c); }
    }
  }

  /** A live output of the block would be missing once its row is gone: no other row shows its coin. */
  lemma PrunedOutputGone(v: View, w: View, slots: map<nat, SlotRow>, origin: Origin, chain: seq<Mined>, b: BlockKey, segment: nat, size: nat, k: RowKey)
    requires size > 0 && ChainOk(origin, chain) && Faithful(v, origin, chain) && Loses(v, w, b) && SegmentsAgree(slots, size)
    requires Exact(v, slots, Tip(origin, chain), segment, size, NodeAt(origin, chain))
    requires Exact(w, slots, Tip(origin, chain), segment, size, NodeAt(origin, chain))
    requires k in v.outputs && k.tx.block == b && v.outputs[k].slot / size == segment
    ensures v.outputs[k].spentInGap || OutputSpent(v, v.outputs[k], Tip(origin, chain))
  {
    hide ChainOk, Faithful, NodeAt, Loses, SegmentsAgree, InSegment, OutputSpent, CoinOf, Known, OutputsOf, CreatedBy, GivenAt, SpentIn;
    var h := Tip(origin, chain);
    var i := RecordedOutput(v, origin, chain, k);
    PrunedOwnRow(v, w, slots, b, segment, size, h, k);
    ShownIsKnown(v, slots, h, segment, size);
    ShownIsKnown(w, slots, h, segment, size);
    if InSegment(v, slots, h, segment, size, Recorded(k)) {
      var c := CoinOf(v, slots, Recorded(k));
      assert Shows(w, slots, h, segment, size, c);
      var row :| InSegment(w, slots, h, segment, size, row) && CoinOf(w, slots, row) == c;
      if RowOfBlock(row, b) { PrunedOwnRow(v, w, slots, b, segment, size, h, row.key); }
      PrunedIsKnown(v, w, slots, b, row);
      PrunedOtherRow(v, w, slots, b, segment, size, h, row);
      NotSpentIn(v, origin, chain, b, c);
    }
  }

  /** A live coin is spent by no block on record. */
  lemma NotSpentIn(v: View, origin: Origin, chain: seq<Mined>, b: BlockKey, c: Coin)
    requires ChainOk(origin, chain) && Faithful(v, origin, chain) && c in NodeAt(origin, chain)
    ensures !SpentIn(v, c.creationId, b)
  {
    hide ChainOk, Faithful, NodeAt;
    LiveIsNotSpent(v, origin, chain, c);
    if SpentIn(v, c.creationId, b) {
      var k :| k in v.inputs && v.inputs[k].creationId == c.creationId && k.tx.block == b;
      NoSpend(v, c.creationId, k);
    }
  }

  lemma NoSpend(v: View, id: string, k: RowKey)
    requires k in v.inputs && v.inputs[k].creationId == id
    ensures Spent(v, id, k.tx.block.height)
  {
  }

  /** A coin only the block spent is shown again once the spend is gone, though it is not live. */
  lemma PrunedSpendReturns(v: View, w: View, slots: map<nat, SlotRow>, origin: Origin, chain: seq<Mined>, b: BlockKey, segment: nat, size: nat, row: PictureRow, c: Coin)
    requires size > 0 && ChainOk(origin, chain) && Faithful(v, origin, chain) && Loses(v, w, b) && SegmentsAgree(slots, size)
    requires Holds(v, slots, row, c) && !RowOfBlock(row, b) && c.slot / size == segment && SpentIn(v, c.creationId, b)
    ensures !Exact(w, slots, Tip(origin, chain), segment, size, NodeAt(origin, chain))
  {
    hide ChainOk, Faithful, NodeAt, OutputsOf, CreatedBy, GivenAt, SpentBy, Spent;
    var h := Tip(origin, chain);
    OnlySpentThere(v, w, origin, chain, b, c.creationId);
    if row.Recorded? { var i := RecordedOutput(v, origin, chain, row.key); }
    HeldIsInSegment(v, w, slots, b, segment, size, h, row, c);
    if c in NodeAt(origin, chain) { NotSpentIn(v, origin, chain, b, c); }
  }

  lemma HeldIsInSegment(v: View, w: View, slots: map<nat, SlotRow>, b: BlockKey, segment: nat, size: nat, h: nat, row: PictureRow, c: Coin)
    requires size > 0 && Loses(v, w, b) && SegmentsAgree(slots, size) && Holds(v, slots, row, c) && !RowOfBlock(row, b) && c.slot / size == segment
    requires !Spent(w, c.creationId, h) && (row.Recorded? ==> row.key.tx.block.height <= h)
    ensures InSegment(w, slots, h, segment, size, row) && Known(w, slots, row) && CoinOf(w, slots, row) == c
  {
    hide Spent;
  }

  /** A coin is spent by one block of the chain, so without its rows no spend is on record. */
  lemma OnlySpentThere(v: View, w: View, origin: Origin, chain: seq<Mined>, b: BlockKey, id: string)
    requires ChainOk(origin, chain) && Faithful(v, origin, chain) && Loses(v, w, b) && SpentIn(v, id, b)
    ensures forall h :: !Spent(w, id, h)
  {
    hide ChainOk, SpentBy, NodeAt, GivenAt, OutputsOf, InputsOf;
    var k :| k in v.inputs && v.inputs[k].creationId == id && k.tx.block == b;
    var i := RecordedInput(v, origin, chain, k);
    forall l | l in w.inputs
      ensures w.inputs[l].creationId != id
    {
      if w.inputs[l].creationId == id {
        var j := RecordedInput(v, origin, chain, l);
        SpentOnce(origin, chain, i, j, id);
      }
    }
  }

  /** And then it stays exact at every height from which that holds. */
  lemma PrunedAnywhere(v: View, w: View, slots: map<nat, SlotRow>, origin: Origin, chain: seq<Mined>, b: BlockKey, segment: nat, size: nat, from: nat, next: nat)
    requires size > 0 && Loses(v, w, b) && SegmentsAgree(slots, size)
    requires ExactFrom(v, slots, origin, chain, segment, size, from) && from <= next && PrunedShown(v, slots, b, segment, size, next)
    ensures ExactFrom(w, slots, origin, chain, segment, size, next)
  {
    hide Exact, NodeAt, ExactAt, SameRow, Loses, SegmentsAgree, PrunedShown;
    forall g: nat | next <= g <= Tip(origin, chain)
      ensures ExactAt(w, slots, origin, chain, segment, size, g)
    {
      PrunedLater(v, slots, b, segment, size, next, g);
      forall row ensures SameRow(v, slots, w, slots, g, segment, size, row) { PrunedSameRow(v, w, slots, b, segment, size, g, row); }
      ExactSameRows(v, w, slots, origin, chain, segment, size, from, g);
    }
  }

  lemma PrunedLater(v: View, slots: map<nat, SlotRow>, b: BlockKey, segment: nat, size: nat, g: nat, h: nat)
    requires size > 0 && g <= h && PrunedShown(v, slots, b, segment, size, g)
    ensures PrunedShown(v, slots, b, segment, size, h)
  {
    hide Holds, SpentIn;
  }

  /** A block leaves every segment it did not touch as it was. */
  lemma UntouchedPrunes(v: View, slots: map<nat, SlotRow>, origin: Origin, chain: seq<Mined>, j: nat, segment: nat, size: nat, since: Since, g: nat)
    requires size > 0 && ChainOk(origin, chain) && Faithful(v, origin, chain) && j < |chain|
    requires TrueSlots(slots, origin, chain, size, since) && origin.height <= since(segment) <= Tip(origin, chain)
    requires segment !in Touched(NodeAt(origin, chain[..j]), chain[j].body, size)
    ensures PrunedShown(v, slots, chain[j].key, segment, size, g)
  {
    hide ChainOk, OutputsOf, InputsOf, SpentBy, CreatedBy, Faithful, Touched, NodeAt, TrueSlots, GivenAt, OutputSpent, Known, CoinOf;
    forall k | k in v.outputs && k.tx.block == chain[j].key
      ensures v.outputs[k].slot / size != segment
    {
      RecordedNotIn(v, origin, chain, j, size, k);
    }
    forall row, c: Coin | Holds(v, slots, row, c) && !RowOfBlock(row, chain[j].key) && c.slot / size == segment
      ensures !SpentIn(v, c.creationId, chain[j].key)
    {
      if SpentIn(v, c.creationId, chain[j].key) {
        var k :| k in v.inputs && v.inputs[k].creationId == c.creationId && k.tx.block == chain[j].key;
        var i := RecordedInput(v, origin, chain, k);
        BlockExtends(origin, chain, j);
        OwnSegment(slots, row, c, v, size);
        SpentInTouched(v, slots, origin, chain, size, since, j, row);
      }
    }
  }

  lemma OwnSegment(slots: map<nat, SlotRow>, row: PictureRow, c: Coin, v: View, size: nat)
    requires size > 0 && Known(v, slots, row) && CoinOf(v, slots, row) == c
    ensures row.Own? ==> row.slot == c.slot
  {
  }

  /** A row of the block itself lies in a segment the block touches. */
  lemma RecordedNotIn(v: View, origin: Origin, chain: seq<Mined>, j: nat, size: nat, k: RowKey)
    requires size > 0 && ChainOk(origin, chain) && Faithful(v, origin, chain) && j < |chain| && k in v.outputs
    ensures k.tx.block == chain[j].key ==> v.outputs[k].slot / size in Touched(NodeAt(origin, chain[..j]), chain[j].body, size)
  {
    hide ChainOk, InputsOf, OutputsOf, SpentBy, CreatedBy, Faithful, Touched, NodeAt, GivenAt;
    if k.tx.block == chain[j].key {
      var i := RecordedOutput(v, origin, chain, k);
      BlockExtends(origin, chain, j);
      assert i == j;
      IsTouched(NodeAt(origin, chain[..j]), chain[j].body, size, CoinOf(v, map[], Recorded(k)));
    }
  }

  // ---------------------------------------------------------------- a reorganisation

  /** Segments touched by the blocks from index `f` on. */
  ghost function TouchedFrom(origin: Origin, chain: seq<Mined>, f: nat, size: nat): set<int>
    requires size > 0
  {
    if |chain| <= f then {} else
      TouchedFrom(origin, chain[..|chain| - 1], f, size) + Touched(NodeAt(origin, chain[..|chain| - 1]), chain[|chain| - 1].body, size)
  }

  lemma {:induction false} UntouchedBack(origin: Origin, chain: seq<Mined>, f: nat, segment: nat, size: nat, c: Coin)
    requires size > 0 && ChainOk(origin, chain) && f <= |chain| && c.slot / size == segment
    requires segment !in TouchedFrom(origin, chain, f, size)
    ensures c in NodeAt(origin, chain) <==> c in NodeAt(origin, chain[..f])
  {
    hide Touched, NodeAt, ChainOk;
    if f < |chain| {
      var front, last := chain[..|chain| - 1], chain[|chain| - 1];
      assert front + [last] == chain && front[..f] == chain[..f];
      PrefixOk(origin, chain, |chain| - 1);
      UntouchedBack(origin, front, f, segment, size, c);
      UntouchedCoins(origin, front, last, segment, size, c);
    } else {
      assert chain[..f] == chain;
    }
  }

  ghost predicate HeldOnce(v: View, slots: map<nat, SlotRow>, c: Coin) {
    && (exists row :: Holds(v, slots, row, c))
    && forall r, s :: Holds(v, slots, r, c) && Holds(v, slots, s, c) ==> r == s
  }

  /** The sweep's own slots of the segment hold coins of the chain, spent since or not. */
  ghost predicate OwnAreEver(slots: map<nat, SlotRow>, origin: Origin, chain: seq<Mined>, segment: nat, size: nat)
    requires size > 0
  {
    forall s: nat :: s in slots && s / size == segment ==> SlotCoin(slots, s) in EverCoins(origin, chain)
  }

  /** Every coin that is live at the fork but not at the tip is held by one row. */
  ghost predicate ReturningHeld(v: View, slots: map<nat, SlotRow>, origin: Origin, chain: seq<Mined>, f: nat, segment: nat, size: nat)
    requires size > 0 && f <= |chain|
  {
    forall c: Coin :: c in NodeAt(origin, chain[..f]) && c !in NodeAt(origin, chain) && c.slot / size == segment ==> HeldOnce(v, slots, c)
  }

  /**
    What the picture of a segment needs to be right again where the chain is left at index
    `f`: the coins that come back are held by one row each, and no slot of the sweep's own
    holds a coin the left blocks created.
   */
  ghost predicate ShownAtFork(v: View, slots: map<nat, SlotRow>, origin: Origin, chain: seq<Mined>, f: nat, segment: nat, size: nat)
    requires size > 0 && f <= |chain|
  {
    ReturningHeld(v, slots, origin, chain, f, segment, size) && OwnAreEver(slots, origin, chain[..f], segment, size)
  }

  /** A row holding a coin from before the fork is shown at the fork, and at the tip, unless a spend is on record by then. */
  lemma HeldRowAt(v: View, slots: map<nat, SlotRow>, origin: Origin, chain: seq<Mined>, f: nat, segment: nat, size: nat, row: PictureRow, c: Coin)
    requires size > 0 && ChainOk(origin, chain) && Faithful(v, origin, chain) && f <= |chain| && SegmentsAgree(slots, size)
    requires Holds(v, slots, row, c) && c in EverCoins(origin, chain[..f]) && c.slot / size == segment
    ensures InSegment(v, slots, origin.height + f, segment, size, row) <==> !Spent(v, c.creationId, origin.height + f)
    ensures InSegment(v, slots, Tip(origin, chain), segment, size, row) <==> !Spent(v, c.creationId, Tip(origin, chain))
  {
    hide ChainOk, Faithful, EverCoins, Spent, OutputsOf, CreatedBy, GivenAt;
    if row.Recorded? {
      var j := RecordedOutput(v, origin, chain, row.key);
      RecordedOld(origin, chain, f, j, c);
    }
  }

  lemma RecordedOld(origin: Origin, chain: seq<Mined>, f: nat, j: nat, c: Coin)
    requires ChainOk(origin, chain) && f <= |chain| && j < |chain| && c in CreatedBy(chain[j].body) && c in EverCoins(origin, chain[..f])
    ensures j < f
  {
    hide ChainOk, EverCoins, CreatedBy, NodeAt, SpentBy, GivenAt;
    if f <= j {
      BlockExtends(origin, chain, j);
      PrefixOk(origin, chain[..j], f);
      assert chain[..j][..f] == chain[..f];
      PrefixOk(origin, chain, f);
      EverIdsGiven(origin, chain[..f]);
      HasId(CreatedBy(chain[j].body), c);
      HasId(EverCoins(origin, chain[..f]), c);
    }
  }

  lemma HasId(coins: set<Coin>, c: Coin)
    requires c in coins
    ensures c.creationId in Ids(coins)
  {
  }

  /** What is live at the fork has no spend on record up to it. */
  lemma LiveAtFork(v: View, origin: Origin, chain: seq<Mined>, f: nat, c: Coin)
    requires ChainOk(origin, chain) && Faithful(v, origin, chain) && f <= |chain| && c in NodeAt(origin, chain[..f])
    ensures !Spent(v, c.creationId, origin.height + f)
  {
    hide ChainOk, Faithful, NodeAt, Lower, Spent;
    PrefixOk(origin, chain, f);
    LowerFaithful(v, origin, chain, origin.height + f);
    LiveIsNotSpent(Lower(v, origin.height + f), origin, chain[..f], c);
    LowerSpent(v, c.creationId, origin.height + f, origin.height + f);
  }

  /** A spend on record of a coin that was gone by the fork lies at or below it. */
  lemma GoneByFork(v: View, origin: Origin, chain: seq<Mined>, f: nat, c: Coin)
    requires ChainOk(origin, chain) && Faithful(v, origin, chain) && f <= |chain|
    requires c in EverCoins(origin, chain[..f]) && c !in NodeAt(origin, chain[..f])
    ensures Spent(v, c.creationId, Tip(origin, chain)) ==> Spent(v, c.creationId, origin.height + f)
  {
    hide ChainOk, Faithful, NodeAt, EverCoins, SpentBy, GivenAt;
    var j := GoneWasSpent(origin, chain[..f], c);
    if Spent(v, c.creationId, Tip(origin, chain)) {
      var k :| k in v.inputs && v.inputs[k].creationId == c.creationId && k.tx.block.height <= Tip(origin, chain);
      var i := RecordedInput(v, origin, chain, k);
      SpentOnce(origin, chain, i, j, c.creationId);
    }
  }

  /** A coin the left blocks created has no spend on record up to the fork. */
  lemma NotSpentBefore(v: View, origin: Origin, chain: seq<Mined>, f: nat, c: Coin)
    requires ChainOk(origin, chain) && Faithful(v, origin, chain) && f <= |chain|
    requires c in EverCoins(origin, chain) && c !in EverCoins(origin, chain[..f])
    ensures !Spent(v, c.creationId, origin.height + f)
  {
    hide ChainOk, Faithful, NodeAt, EverCoins, SpentBy, GivenAt, CreatedBy, Ids;
    var j := CreatedLater(origin, chain, f, c);
    if Spent(v, c.creationId, origin.height + f) {
      var k :| k in v.inputs && v.inputs[k].creationId == c.creationId && k.tx.block.height <= origin.height + f;
      var i := RecordedInput(v, origin, chain, k);
      PrefixOk(origin, chain, f);
      BlockExtends(origin, chain[..f], i);
    }
  }

  lemma ShownHolds(v: View, slots: map<nat, SlotRow>, origin: Origin, chain: seq<Mined>, h: nat, segment: nat, size: nat, row: PictureRow)
    requires size > 0 && ChainOk(origin, chain) && Faithful(v, origin, chain) && SegmentsAgree(slots, size)
    requires InSegment(v, slots, h, segment, size, row)
    ensures Known(v, slots, row) && Holds(v, slots, row, CoinOf(v, slots, row)) && CoinOf(v, slots, row).slot / size == segment
  {
    hide ChainOk, Faithful, Spent, OutputsOf, CreatedBy, GivenAt;
    if row.Recorded? { var j := RecordedOutput(v, origin, chain, row.key); }
  }

  /** What is shown at the fork is a coin from before it, unless a slot of the sweep's own is not. */
  lemma ShownIsOld(v: View, slots: map<nat, SlotRow>, origin: Origin, chain: seq<Mined>, f: nat, segment: nat, size: nat, row: PictureRow)
    requires size > 0 && ChainOk(origin, chain) && Faithful(v, origin, chain) && f <= |chain| && SegmentsAgree(slots, size)
    requires OwnAreEver(slots, origin, chain[..f], segment, size)
    requires InSegment(v, slots, origin.height + f, segment, size, row) && Known(v, slots, row)
    ensures CoinOf(v, slots, row) in EverCoins(origin, chain[..f])
  {
    hide ChainOk, Faithful, Spent, OutputsOf, CreatedBy, GivenAt, EverCoins;
    if row.Recorded? {
      var j := RecordedOutput(v, origin, chain, row.key);
      CreatedEver(origin, chain[..f], j);
    }
  }

  /** Every row shown at the fork is a coin of the node there. */
  lemma ShownAtForkIsLive(v: View, slots: map<nat, SlotRow>, origin: Origin, chain: seq<Mined>, f: nat, segment: nat, size: nat, row: PictureRow)
    requires size > 0 && ChainOk(origin, chain) && Faithful(v, origin, chain) && f <= |chain| && SegmentsAgree(slots, size)
    requires OwnAreEver(slots, origin, chain[..f], segment, size)
    requires Exact(v, slots, Tip(origin, chain), segment, size, NodeAt(origin, chain))
    requires InSegment(v, slots, origin.height + f, segment, size, row) && Known(v, slots, row)
    ensures CoinOf(v, slots, row) in NodeAt(origin, chain[..f]) && CoinOf(v, slots, row).slot / size == segment
  {
    hide ChainOk, Faithful, Spent, EverCoins, NodeAt, CoinOf, InSegment, Holds, Known, SegmentsAgree;
    var c := CoinOf(v, slots, row);
    ShownHolds(v, slots, origin, chain, origin.height + f, segment, size, row);
    ShownIsOld(v, slots, origin, chain, f, segment, size, row);
    HeldRowAt(v, slots, origin, chain, f, segment, size, row, c);
    if c !in NodeAt(origin, chain[..f]) {
      if c in NodeAt(origin, chain) { LiveThen(origin, chain, f, c); }
      GoneByFork(v, origin, chain, f, c);
    }
  }

  /** A row holding a coin that is live at the fork is shown there. */
  lemma HeldIsShown(v: View, slots: map<nat, SlotRow>, origin: Origin, chain: seq<Mined>, f: nat, segment: nat, size: nat, row: PictureRow, c: Coin)
    requires size > 0 && ChainOk(origin, chain) && Faithful(v, origin, chain) && f <= |chain| && SegmentsAgree(slots, size)
    requires Holds(v, slots, row, c) && c in NodeAt(origin, chain[..f]) && c.slot / size == segment
    ensures InSegment(v, slots, origin.height + f, segment, size, row) && Known(v, slots, row) && CoinOf(v, slots, row) == c
    ensures c in NodeAt(origin, chain) ==> InSegment(v, slots, Tip(origin, chain), segment, size, row)
  {
    hide ChainOk, Faithful, Spent, EverCoins, NodeAt, CoinOf, InSegment, Known, SegmentsAgree;
    LiveOnce(origin, chain[..f]);
    LiveAtFork(v, origin, chain, f, c);
    HeldRowAt(v, slots, origin, chain, f, segment, size, row, c);
    if c in NodeAt(origin, chain) { LiveIsNotSpent(v, origin, chain, c); }
  }

  lemma ShownAtForkIsExact(v: View, slots: map<nat, SlotRow>, origin: Origin, chain: seq<Mined>, f: nat, segment: nat, size: nat)
    requires size > 0 && ChainOk(origin, chain) && Faithful(v, origin, chain) && f <= |chain| && SegmentsAgree(slots, size)
    requires Exact(v, slots, Tip(origin, chain), segment, size, NodeAt(origin, chain))
    requires ShownAtFork(v, slots, origin, chain, f, segment, size)
    ensures Exact(v, slots, origin.height + f, segment, size, NodeAt(origin, chain[..f]))
  {
    hide ChainOk, Faithful, Spent, EverCoins, NodeAt, CoinOf, InSegment, Holds, Known, SegmentsAgree, OwnAreEver;
    var h, node := origin.height + f, NodeAt(origin, chain[..f]);
    ShownIsKnown(v, slots, h, segment, size);
    ShownIsKnown(v, slots, Tip(origin, chain), segment, size);
    forall row | InSegment(v, slots, h, segment, size, row)
      ensures CoinOf(v, slots, row) in node && CoinOf(v, slots, row).slot / size == segment && Holds(v, slots, row, CoinOf(v, slots, row))
    {
      ShownHolds(v, slots, origin, chain, h, segment, size, row);
      ShownAtForkIsLive(v, slots, origin, chain, f, segment, size, row);
    }
    forall c | c in node && c.slot / size == segment
      ensures Shows(v, slots, h, segment, size, c)
    {
      if c in NodeAt(origin, chain) {
        assert Shows(v, slots, Tip(origin, chain), segment, size, c);
        var row :| InSegment(v, slots, Tip(origin, chain), segment, size, row) && CoinOf(v, slots, row) == c;
        ShownHolds(v, slots, origin, chain, Tip(origin, chain), segment, size, row);
        HeldIsShown(v, slots, origin, chain, f, segment, size, row, c);
      } else {
        var row :| Holds(v, slots, row, c);
        HeldIsShown(v, slots, origin, chain, f, segment, size, row, c);
      }
    }
    forall r, s | InSegment(v, slots, h, segment, size, r) && InSegment(v, slots, h, segment, size, s) && CoinOf(v, slots, r) == CoinOf(v, slots, s)
      ensures r == s
    {
      var c := CoinOf(v, slots, r);
      HeldIsShown(v, slots, origin, chain, f, segment, size, r, c);
      HeldIsShown(v, slots, origin, chain, f, segment, size, s, c);
    }
  }

  lemma ExactIsShownAtFork(v: View, slots: map<nat, SlotRow>, origin: Origin, chain: seq<Mined>, f: nat, segment: nat, size: nat)
    requires size > 0 && ChainOk(origin, chain) && Faithful(v, origin, chain) && f <= |chain| && SegmentsAgree(slots, size)
    requires OwnAreEver(slots, origin, chain, segment, size)
    requires Exact(v, slots, origin.height + f, segment, size, NodeAt(origin, chain[..f]))
    ensures ShownAtFork(v, slots, origin, chain, f, segment, size)
  {
    hide ChainOk, Faithful, Spent, EverCoins, NodeAt, CoinOf, InSegment, Holds, Known, SegmentsAgree, OwnAreEver;
    var h, node := origin.height + f, NodeAt(origin, chain[..f]);
    ShownIsKnown(v, slots, h, segment, size);
    forall c: Coin | c in node && c !in NodeAt(origin, chain) && c.slot / size == segment
      ensures HeldOnce(v, slots, c)
    {
      assert Shows(v, slots, h, segment, size, c);
      var row :| InSegment(v, slots, h, segment, size, row) && CoinOf(v, slots, row) == c;
      ShownHolds(v, slots, origin, chain, h, segment, size, row);
      forall r, s | Holds(v, slots, r, c) && Holds(v, slots, s, c)
        ensures r == s
      {
        HeldIsShown(v, slots, origin, chain, f, segment, size, r, c);
        HeldIsShown(v, slots, origin, chain, f, segment, size, s, c);
      }
    }
    OwnAreOld(v, slots, origin, chain, f, segment, size);
  }

  lemma OwnIsShown(v: View, slots: map<nat, SlotRow>, h: nat, segment: nat, size: nat, s: nat)
    requires size > 0 && SegmentsAgree(slots, size) && s in slots && s / size == segment && !Spent(v, slots[s].creationId, h)
    ensures InSegment(v, slots, h, segment, size, Own(s)) && CoinOf(v, slots, Own(s)) == SlotCoin(slots, s)
  {
  }

  lemma OwnAreOld(v: View, slots: map<nat, SlotRow>, origin: Origin, chain: seq<Mined>, f: nat, segment: nat, size: nat)
    requires size > 0 && ChainOk(origin, chain) && Faithful(v, origin, chain) && f <= |chain| && SegmentsAgree(slots, size)
    requires OwnAreEver(slots, origin, chain, segment, size)
    requires Exact(v, slots, origin.height + f, segment, size, NodeAt(origin, chain[..f]))
    ensures OwnAreEver(slots, origin, chain[..f], segment, size)
  {
    hide ChainOk, Faithful, Spent, EverCoins, NodeAt;
    LiveOnce(origin, chain[..f]);
    forall s: nat | s in slots && s / size == segment
      ensures SlotCoin(slots, s) in EverCoins(origin, chain[..f])
    {
      if SlotCoin(slots, s) !in EverCoins(origin, chain[..f]) {
        NotSpentBefore(v, origin, chain, f, SlotCoin(slots, s));
        OwnIsShown(v, slots, origin.height + f, segment, size, s);
      }
    }
  }

  /**
    A segment that is exact at the tip is exact again where the node leaves its blocks,
    exactly when the coins that come back are held by one row each and no slot of the
    sweep's own holds a coin the left blocks created.
   */
  lemma UnwoundExactWhen(v: View, slots: map<nat, SlotRow>, origin: Origin, chain: seq<Mined>, f: nat, segment: nat, size: nat)
    requires size > 0 && ChainOk(origin, chain) && Faithful(v, origin, chain) && f <= |chain|
    requires SegmentsAgree(slots, size) && OwnAreEver(slots, origin, chain, segment, size)
    requires Exact(v, slots, Tip(origin, chain), segment, size, NodeAt(origin, chain))
    ensures Exact(v, slots, origin.height + f, segment, size, NodeAt(origin, chain[..f])) <==> ShownAtFork(v, slots, origin, chain, f, segment, size)
  {
    hide ChainOk, Faithful, NodeAt, Exact, SegmentsAgree, OwnAreEver, ShownAtFork;
    if ShownAtFork(v, slots, origin, chain, f, segment, size) {
      ShownAtForkIsExact(v, slots, origin, chain, f, segment, size);
    }
    if Exact(v, slots, origin.height + f, segment, size, NodeAt(origin, chain[..f])) {
      ExactIsShownAtFork(v, slots, origin, chain, f, segment, size);
    }
  }

  /** A segment the left blocks did not touch meets the condition. */
  lemma UntouchedIsShown(v: View, slots: map<nat, SlotRow>, origin: Origin, chain: seq<Mined>, f: nat, segment: nat, size: nat)
    requires size > 0 && ChainOk(origin, chain) && f <= |chain| && OwnAreEver(slots, origin, chain, segment, size)
    requires segment !in TouchedFrom(origin, chain, f, size)
    ensures ShownAtFork(v, slots, origin, chain, f, segment, size)
  {
    hide ChainOk, NodeAt, TouchedFrom, EverCoins, HeldOnce;
    forall c: Coin | c.slot / size == segment
      ensures c in NodeAt(origin, chain[..f]) <==> c in NodeAt(origin, chain)
    {
      UntouchedBack(origin, chain, f, segment, size, c);
    }
    forall s: nat | s in slots && s / size == segment
      ensures SlotCoin(slots, s) in EverCoins(origin, chain[..f])
    {
      EverUntouched(origin, chain, f, size, SlotCoin(slots, s));
    }
  }

  /** Where a segment is exact after the node left the blocks above the fork. */
  function Unwound(since: Since, tip: nat, fork: nat, shown: nat -> bool): Since {
    (segment: nat) => if since(segment) <= fork then since(segment) else if since(segment) <= tip && shown(segment) then fork else fork + 1
  }

  /** In an exact segment the sweep's slots hold coins of the chain. */
  lemma TrueAreEver(slots: map<nat, SlotRow>, origin: Origin, chain: seq<Mined>, segment: nat, size: nat, since: Since)
    requires size > 0 && TrueSlots(slots, origin, chain, size, since) && origin.height <= since(segment) <= Tip(origin, chain)
    ensures OwnAreEver(slots, origin, chain, segment, size)
  {
    hide EverCoins;
    forall s: nat | s in slots && s / size == segment
      ensures SlotCoin(slots, s) in EverCoins(origin, chain)
    {
      assert TrueSlot(slots, origin, chain, s, since(segment));
      EverGrows(origin, chain, since(segment) - origin.height);
    }
  }

  /** Exact at or below the fork stays exact; exact above it becomes exact at the fork where the picture has what the fork needs. */
  lemma UnwoundFrom(v: View, slots: map<nat, SlotRow>, origin: Origin, chain: seq<Mined>, f: nat, segment: nat, size: nat, since: Since, shown: nat -> bool)
    requires size > 0 && ChainOk(origin, chain) && Faithful(v, origin, chain) && f <= |chain|
    requires SegmentsAgree(slots, size) && TrueSlots(slots, origin, chain, size, since)
    requires ExactFrom(v, slots, origin, chain, segment, size, since(segment))
    requires shown(segment) ==> ShownAtFork(v, slots, origin, chain, f, segment, size)
    ensures var fork := origin.height + f;
            ExactFrom(Lower(v, fork), slots, origin, chain[..f], segment, size, Unwound(since, Tip(origin, chain), fork, shown)(segment))
  {
    hide ChainOk, Faithful, NodeAt, TrueSlots, Exact, Lower, SegmentsAgree, ShownAtFork, OwnAreEver;
    var fork := origin.height + f;
    var from := Unwound(since, Tip(origin, chain), fork, shown)(segment);
    forall g: nat | from <= g <= Tip(origin, chain[..f])
      ensures ExactAt(Lower(v, fork), slots, origin, chain[..f], segment, size, g)
    {
      assert ChainTo(origin, chain[..f], g) == ChainTo(origin, chain, g);
      if since(segment) <= fork {
        assert ExactAt(v, slots, origin, chain, segment, size, g);
      } else {
        TipIsExact(v, slots, origin, chain, segment, size, since(segment));
        TrueAreEver(slots, origin, chain, segment, size, since);
        UnwoundExactWhen(v, slots, origin, chain, f, segment, size);
      }
      LowerExact(v, slots, fork, g, segment, size, NodeAt(origin, ChainTo(origin, chain, g)));
    }
  }

  /** The sweep's own slots stay true to the chain that is left. */
  lemma UnwoundSlots(v: View, slots: map<nat, SlotRow>, origin: Origin, chain: seq<Mined>, f: nat, size: nat, since: Since, shown: nat -> bool)
    requires size > 0 && f <= |chain| && TrueSlots(slots, origin, chain, size, since)
    requires forall segment: nat :: shown(segment) ==> ShownAtFork(v, slots, origin, chain, f, segment, size)
    ensures TrueSlots(slots, origin, chain[..f], size, Unwound(since, Tip(origin, chain), origin.height + f, shown))
  {
    hide EverCoins, ReturningHeld;
    var fork := origin.height + f;
    var next := Unwound(since, Tip(origin, chain), fork, shown);
    forall s: nat | s in slots && origin.height <= next(s / size) <= fork
      ensures TrueSlot(slots, origin, chain[..f], s, next(s / size))
    {
      var from := since(s / size);
      if from <= fork {
        assert TrueSlot(slots, origin, chain, s, from);
        assert ChainTo(origin, chain[..f], from) == ChainTo(origin, chain, from);
      } else {
        assert ChainTo(origin, chain[..f], fork) == chain[..f];
      }
    }
  }

  /** A coin of a segment the blocks above the fork did not touch is older than the fork. */
  lemma {:induction false} EverUntouched(origin: Origin, chain: seq<Mined>, f: nat, size: nat, c: Coin)
    requires size > 0 && f <= |chain| && c in EverCoins(origin, chain) && c.slot / size !in TouchedFrom(origin, chain, f, size)
    ensures c in EverCoins(origin, chain[..f])
  {
    hide Touched, NodeAt, CreatedBy, SpentBy;
    if f < |chain| {
      var front, last := chain[..|chain| - 1], chain[|chain| - 1];
      if c in CreatedBy(last.body) { IsTouched(NodeAt(origin, front), last.body, size, c); }
      assert front[..f] == chain[..f];
      EverUntouched(origin, front, f, size, c);
    } else {
      assert chain[..f] == chain;
    }
  }
}
