/**
  Counts and balances of the picture (core/src/db.rs, `live_count_per_segment` and
  `live_balances`): how they add up, and that an exact picture reports the node's own
  totals.
 */
module Figures {
  import opened Wrappers
  import opened Tables
  import opened View
  import opened Sums
  import opened Sweep

  const U128 := 0x1_0000_0000_0000_0000_0000_0000_0000_0000

  /** The stored 64-bit amount, cast to an unsigned total. */
  function AsU128(x: int): int {
    x % U128
  }

  function SegmentRows(v: View, slots: map<nat, SlotRow>, h: nat, size: nat, segment: int): set<PictureRow>
    requires size > 0
  {
    PictureMembers(v, slots, h);
    set row | row in Picture(v, slots, h) && SegmentOf(v, slots, row, size) == segment
  }

  /** The picture's rows of one owner, with their amounts. */
  function OwnerRows(v: View, slots: map<nat, SlotRow>, h: nat, owner: string): map<PictureRow, int> {
    PictureMembers(v, slots, h);
    map row | row in Picture(v, slots, h) && CoinOf(v, slots, row).owner == owner :: AsU128(CoinOf(v, slots, row).amount)
  }

  function NodeRows(node: set<Coin>, owner: string): map<Coin, int> {
    map c | c in node && c.owner == owner :: c.amount
  }

  function NodeSegment(node: set<Coin>, size: nat, segment: int): set<Coin>
    requires size > 0
  {
    set c | c in node && c.slot / size == segment
  }

  // ---------------------------------------------------------------- exact picture, exact figures

  lemma SameSize<A, B>(a: set<A>, b: set<B>, pair: map<A, B>)
    requires pair.Keys == a
    requires forall x :: x in a ==> pair[x] in b
    requires forall x, y :: x in a && y in a && pair[x] == pair[y] ==> x == y
    requires forall y :: y in b ==> exists x :: x in a && pair[x] == y
    ensures |a| == |b|
  {
    var ma, mb := map x | x in a :: 1, map y | y in b :: 1;
    forall y | y in mb ensures Hit(ma, pair, y) {
      var x :| x in a && pair[x] == y;
      assert x in ma;
    }
    TotalPaired(ma, mb, pair);
    assert ma.Keys == a && mb.Keys == b;
  }

  /** An exact segment has the node's count. */
  lemma ExactSegmentCounts(v: View, slots: map<nat, SlotRow>, h: nat, size: nat, segment: nat, node: set<Coin>)
    requires size > 0 && Exact(v, slots, h, segment, size, node)
    ensures |SegmentRows(v, slots, h, size, segment)| == |NodeSegment(node, size, segment)|
  {
    hide Spent, LiveOutput, LiveSlot;
    PictureMembers(v, slots, h);
    var rows := SegmentRows(v, slots, h, size, segment);
    assert forall row :: row in rows <==> InSegment(v, slots, h, segment, size, row);
    var pair := map row | row in rows :: CoinOf(v, slots, row);
    forall c | c in NodeSegment(node, size, segment)
      ensures exists row :: row in rows && pair[row] == c
    {
      assert Shows(v, slots, h, segment, size, c);
      var row :| InSegment(v, slots, h, segment, size, row) && CoinOf(v, slots, row) == c;
      assert row in rows && pair[row] == c;
    }
    SameSize(rows, NodeSegment(node, size, segment), pair);
  }

  /** Every segment of the picture is exact, and every row lies in one. */
  ghost predicate AllExact(v: View, slots: map<nat, SlotRow>, h: nat, size: nat, node: set<Coin>)
    requires size > 0
  {
    && (forall segment: nat :: Exact(v, slots, h, segment, size, node))
    && (forall k :: k in v.outputs ==> v.outputs[k].slot >= 0)
  }

  lemma RowHasSegment(v: View, slots: map<nat, SlotRow>, h: nat, size: nat, node: set<Coin>, row: PictureRow) returns (segment: nat)
    requires size > 0 && AllExact(v, slots, h, size, node) && InPicture(v, slots, row, h)
    ensures InSegment(v, slots, h, segment, size, row) && segment == CoinOf(v, slots, row).slot / size
    ensures CoinOf(v, slots, row) in node
  {
    hide Spent;
    segment := match row case Recorded(k) => v.outputs[k].slot / size case Own(s) => slots[s].segment;
    assert InSegment(v, slots, h, segment, size, row);
    assert Exact(v, slots, h, segment, size, node);
  }

  /** With every segment exact, each owner's total and count are the node's. */
  lemma ExactPictureBalances(v: View, slots: map<nat, SlotRow>, h: nat, size: nat, node: set<Coin>, owner: string)
    requires size > 0 && NodeOk(node) && AllExact(v, slots, h, size, node)
    ensures Total(OwnerRows(v, slots, h, owner)) == Total(NodeRows(node, owner))
    ensures |OwnerRows(v, slots, h, owner)| == |NodeRows(node, owner)|
  {
    hide Spent, LiveOutput, LiveSlot, InSegment, AllExact, Exact;
    PictureMembers(v, slots, h);
    var rows, coins := OwnerRows(v, slots, h, owner), NodeRows(node, owner);
    var pair := map row | row in rows :: CoinOf(v, slots, row);
    forall row | row in rows
      ensures pair[row] in coins && coins[pair[row]] == rows[row]
    {
      var segment := RowHasSegment(v, slots, h, size, node, row);
      assert CoinOf(v, slots, row).amount <= I64_MAX;
    }
    forall r, s | r in rows && s in rows && pair[r] == pair[s]
      ensures r == s
    {
      var a := RowHasSegment(v, slots, h, size, node, r);
      var b := RowHasSegment(v, slots, h, size, node, s);
      SameCoinSameRow(v, slots, h, size, node, a, r, s);
    }
    forall c | c in coins
      ensures Hit(rows, pair, c)
    {
      var row := RowOfCoin(v, slots, h, size, node, c);
      assert row in rows && pair[row] == c;
    }
    TotalPaired(rows, coins, pair);
  }

  lemma SameCoinSameRow(v: View, slots: map<nat, SlotRow>, h: nat, size: nat, node: set<Coin>, segment: nat, r: PictureRow, s: PictureRow)
    requires size > 0 && AllExact(v, slots, h, size, node)
    requires InSegment(v, slots, h, segment, size, r) && InSegment(v, slots, h, segment, size, s)
    requires CoinOf(v, slots, r) == CoinOf(v, slots, s)
    ensures r == s
  {
    hide Spent;
    assert Exact(v, slots, h, segment, size, node);
  }

  lemma RowOfCoin(v: View, slots: map<nat, SlotRow>, h: nat, size: nat, node: set<Coin>, c: Coin) returns (row: PictureRow)
    requires size > 0 && NodeOk(node) && AllExact(v, slots, h, size, node) && c in node
    ensures InPicture(v, slots, row, h) && CoinOf(v, slots, row) == c
  {
    hide Spent;
    var segment: nat := c.slot / size;
    assert Exact(v, slots, h, segment, size, node) && Shows(v, slots, h, segment, size, c);
    row :| InSegment(v, slots, h, segment, size, row) && CoinOf(v, slots, row) == c;
  }

  // ---------------------------------------------------------------- heights above everything recorded

  ghost predicate NothingAbove(v: View, h: nat) {
    && (forall k :: k in v.outputs ==> k.tx.block.height <= h)
    && (forall k :: k in v.inputs ==> k.tx.block.height <= h)
  }

  lemma PictureSettled(v: View, slots: map<nat, SlotRow>, h: nat, later: nat, row: PictureRow)
    requires h <= later && NothingAbove(v, h)
    ensures InPicture(v, slots, row, h) <==> InPicture(v, slots, row, later)
  {
    match row
    case Recorded(k) =>
      if k in v.outputs && v.outputs[k].creationId.Some? { SpentSettled(v, v.outputs[k].creationId.value, h, later); }
    case Own(s) =>
      if s in slots { SpentSettled(v, slots[s].creationId, h, later); }
  }

  lemma SpentSettled(v: View, creationId: string, h: nat, later: nat)
    requires h <= later && NothingAbove(v, h)
    ensures Spent(v, creationId, h) <==> Spent(v, creationId, later)
  {
  }

  // ---------------------------------------------------------------- flags whose spend is on record

  predicate Clearable(t: Tables, k: RowKey)
    requires k in t.outputs
  {
    t.outputs[k].spentInGap && t.outputs[k].creationId.Some?
    && exists i | i in ViewOf(t).inputs :: ViewOf(t).inputs[i].creationId == t.outputs[k].creationId.value
  }

  /** The outputs whose flag is cleared. */
  function FlagsToClear(t: Tables): set<RowKey> {
    set k | k in t.outputs && Clearable(t, k)
  }

  /** `clear_spent_in_gap_with_recorded_spend`. */
  function ClearFlags(t: Tables): Tables {
    t.(outputs := map k | k in t.outputs ::
         if Clearable(t, k) then t.outputs[k].(spentInGap := false, spentInGapAt := None) else t.outputs[k])
  }

  /** Clearing a flag whose spend is on record never brings a coin back into the picture. */
  lemma ClearingKeepsThePicture(t: Tables, h: nat, row: PictureRow)
    requires NothingAbove(ViewOf(t), h)
    ensures var u := ClearFlags(t);
            && (InPicture(ViewOf(u), u.slots, row, h) <==> InPicture(ViewOf(t), t.slots, row, h))
            && (InPicture(ViewOf(u), u.slots, row, h) ==> CoinOf(ViewOf(u), u.slots, row) == CoinOf(ViewOf(t), t.slots, row))
  {
    hide IsCanonical;
    var u := ClearFlags(t);
    assert FlagsOnly(t.outputs, u.outputs);
    ViewAfterFlags(t, u);
    ClearedView(ViewOf(t), ViewOf(u), t.slots, h, row);
  }

  lemma ClearedView(v: View, w: View, slots: map<nat, SlotRow>, h: nat, row: PictureRow)
    requires NothingAbove(v, h)
    requires w == v.(outputs := w.outputs) && FlagsOnly(v.outputs, w.outputs)
    requires forall k :: k in v.outputs && w.outputs[k].spentInGap != v.outputs[k].spentInGap ==>
               v.outputs[k].creationId.Some? && exists i :: i in v.inputs && v.inputs[i].creationId == v.outputs[k].creationId.value
    ensures InPicture(w, slots, row, h) <==> InPicture(v, slots, row, h)
    ensures InPicture(w, slots, row, h) ==> CoinOf(w, slots, row) == CoinOf(v, slots, row)
  {
    match row
    case Recorded(k) =>
      if k in v.outputs && v.outputs[k].creationId.Some? {
        SpentIgnoresOutputs(v, w, v.outputs[k].creationId.value, h);
        if w.outputs[k].spentInGap != v.outputs[k].spentInGap {
          var i :| i in v.inputs && v.inputs[i].creationId == v.outputs[k].creationId.value;
          assert Spent(v, v.outputs[k].creationId.value, h);
        }
      }
    case Own(s) =>
      if s in slots { SpentIgnoresOutputs(v, w, slots[s].creationId, h); }
  }

  /** An input of a canonical block, recorded from its body, spends this coin. */
  ghost predicate SpendOnRecord(t: Tables, creationId: string) {
    exists i :: i in t.inputs && i.tx in t.txs && t.txs[i.tx].source != Some("receipt") && IsCanonical(t, i.tx.block) && t.inputs[i].creationId == creationId
  }

  /** A flag is cleared, with its time, exactly where a recorded input spends the coin; nothing else is written. */
  lemma FlagsClearedWhen(t: Tables)
    ensures var u := ClearFlags(t);
            && u == t.(outputs := u.outputs) && u.outputs.Keys == t.outputs.Keys
            && (forall k :: k in t.outputs ==>
                  var o := t.outputs[k];
                  u.outputs[k] == if o.spentInGap && o.creationId.Some? && SpendOnRecord(t, o.creationId.value) then o.(spentInGap := false, spentInGapAt := None) else o)
    ensures forall k :: k in FlagsToClear(t) <==> k in t.outputs && t.outputs[k] != ClearFlags(t).outputs[k]
  {
    hide IsCanonical;
    forall id ensures SpendOnRecord(t, id) <==> exists i :: i in ViewOf(t).inputs && ViewOf(t).inputs[i].creationId == id { RecordedSpend(t, id); }
    hide ViewOf, SpendOnRecord;
  }

  lemma RecordedSpend(t: Tables, id: string)
    ensures SpendOnRecord(t, id) <==> exists i :: i in ViewOf(t).inputs && ViewOf(t).inputs[i].creationId == id
  {
    hide IsCanonical;
    if SpendOnRecord(t, id) {
      var i :| i in t.inputs && i.tx in t.txs && t.txs[i.tx].source != Some("receipt") && IsCanonical(t, i.tx.block) && t.inputs[i].creationId == id;
      assert i in ViewOf(t).inputs && ViewOf(t).inputs[i].creationId == id;
    }
  }
}
