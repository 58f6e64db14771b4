/**
  What a segment's sweep achieves (permanode/src/indexer.rs, `scan_live_state`): the
  picture of that segment becomes the node's, and no other segment's picture changes.
 */
module SweepLaws {
  import opened Wrappers
  import opened Arith
  import opened Tables
  import opened View
  import opened Sweep

  lemma SegmentIsRange(slot: int, segment: nat, size: nat)
    requires size > 0
    ensures slot / size == segment <==> InRange(slot, segment * size, (segment + 1) * size)
  {
    Distribute(segment, 1, size);
    if slot >= 0 {
      if InRange(slot, segment * size, (segment + 1) * size) {
        DivUnique(segment, size, slot - segment * size, slot);
      }
      DivisionEquation(slot, size);
    } else {
      NegativeSlot(slot, size);
    }
  }

  lemma NegativeSlot(slot: int, size: nat)
    requires size > 0 && slot < 0
    ensures slot / size < 0
  {
  }

  /** The recorded part of a swept segment: exactly the recorded outputs whose ids were read. */
  lemma SweptRecordedRow(v: View, w: View, slots: map<nat, SlotRow>, segment: nat, size: nat, found: seq<SlotRead>, h: nat, node: set<Coin>, k: RowKey)
    requires size > 0
    requires ReadsNode(found, node, segment * size, (segment + 1) * size) && FitsNode(v, node, h)
    requires SweptView(v, w, h, segment * size, (segment + 1) * size, IdsOf(found))
    requires k in v.outputs
    ensures InSegment(w, slots, h, segment, size, Recorded(k)) <==>
            v.outputs[k].slot / size == segment && v.outputs[k].creationId.Some? && v.outputs[k].creationId.value in IdsOf(found)
    ensures CoinOf(w, slots, Recorded(k)) == CoinOf(v, map[], Recorded(k))
  {
    hide Spent;
    var o := v.outputs[k];
    var id := o.creationId.value;
    SpentIgnoresOutputs(v, w, id, h);
    SegmentIsRange(o.slot, segment, size);
    if o.slot / size == segment && id in IdsOf(found) {
      var i :| 0 <= i < |found| && found[i].creationId == id;
      var c := ReadCoin(found[i]);
      assert c in node && NamesThatCoin(v, k, c, h);
      assert !Spent(v, c.creationId, h);
    }
  }

  lemma SegmentSlots(base: map<nat, SlotRow>, foreign: seq<SlotRead>, segment: nat, h: nat, s: nat)
    requires DistinctSlots(foreign)
    ensures var r := ReplaceSlots(base, foreign, segment, h);
            && (s in r && r[s].segment == segment ==> exists i :: 0 <= i < |foreign| && foreign[i].slot == s && r[s] == SlotRowOf(foreign[i], segment, h))
            && (forall i :: 0 <= i < |foreign| && foreign[i].slot == s ==> s in r && r[s] == SlotRowOf(foreign[i], segment, h))
  {
    hide InsertSlots;
    var kept := WithoutSegment(base, segment);
    if forall i :: 0 <= i < |foreign| ==> foreign[i].slot != s {
      NotInserted(kept, foreign, segment, h, s);
    } else {
      forall i | 0 <= i < |foreign| && foreign[i].slot == s
        ensures var r := ReplaceSlots(base, foreign, segment, h); s in r && r[s] == SlotRowOf(foreign[i], segment, h)
      {
        InsertedAt(kept, foreign, segment, h, i);
      }
    }
  }

  /** The sweep's own part of a swept segment: exactly the reads without a recorded output. */
  lemma SweptOwnRow(v: View, w: View, base: map<nat, SlotRow>, segment: nat, size: nat, found: seq<SlotRead>, h: nat, node: set<Coin>, s: nat)
    requires size > 0
    requires ReadsNode(found, node, segment * size, (segment + 1) * size) && FitsNode(v, node, h)
    requires w.inputs == v.inputs
    ensures var recorded := RecordedIds(v, segment * size, (segment + 1) * size);
            var slots := ReplaceSlots(base, Foreign(found, recorded), segment, h);
            && (InSegment(w, slots, h, segment, size, Own(s)) ==>
                  exists i :: 0 <= i < |found| && found[i].slot == s && found[i].creationId !in recorded && CoinOf(w, slots, Own(s)) == ReadCoin(found[i]))
            && (forall i :: 0 <= i < |found| && found[i].slot == s && found[i].creationId !in recorded ==>
                  InSegment(w, slots, h, segment, size, Own(s)) && CoinOf(w, slots, Own(s)) == ReadCoin(found[i]))
  {
    hide Spent, RecordedIds, ReplaceSlots, FitsNode, Foreign, DistinctSlots;
    var recorded := RecordedIds(v, segment * size, (segment + 1) * size);
    var foreign := Foreign(found, recorded);
    var slots := ReplaceSlots(base, foreign, segment, h);
    ForeignReads(found, recorded);
    ForeignDistinct(found, recorded);
    SegmentSlots(base, foreign, segment, h, s);
    if InSegment(w, slots, h, segment, size, Own(s)) {
      var j :| 0 <= j < |foreign| && foreign[j].slot == s && slots[s] == SlotRowOf(foreign[j], segment, h);
      assert foreign[j] in found;
      var i :| 0 <= i < |found| && found[i] == foreign[j];
    }
    forall i | 0 <= i < |found| && found[i].slot == s && found[i].creationId !in recorded
      ensures InSegment(w, slots, h, segment, size, Own(s)) && CoinOf(w, slots, Own(s)) == ReadCoin(found[i])
    {
      assert found[i] in foreign;
      var j :| 0 <= j < |foreign| && foreign[j] == found[i];
      NotSpent(v, node, h, ReadCoin(found[i]));
      SpentIgnoresOutputs(v, w, found[i].creationId, h);
    }
  }

  lemma NotSpent(v: View, node: set<Coin>, h: nat, c: Coin)
    requires FitsNode(v, node, h) && c in node
    ensures !Spent(v, c.creationId, h)
  {
  }

  // ---------------------------------------------------------------- the main results

  lemma RowOfReadCoin(v: View, w: View, base: map<nat, SlotRow>, segment: nat, size: nat, found: seq<SlotRead>, h: nat, node: set<Coin>, c: Coin)
    requires size > 0 && NodeOk(node) && c in node && c.slot / size == segment
    requires ReadsNode(found, node, segment * size, (segment + 1) * size) && FitsNode(v, node, h)
    requires SweptView(v, w, h, segment * size, (segment + 1) * size, IdsOf(found))
    ensures var slots := ReplaceSlots(base, Foreign(found, RecordedIds(v, segment * size, (segment + 1) * size)), segment, h);
            Shows(w, slots, h, segment, size, c)
  {
    hide Spent, ReplaceSlots, Foreign, FitsNode, InSegment;
    var lo, hi := segment * size, (segment + 1) * size;
    var recorded := RecordedIds(v, lo, hi);
    var slots := ReplaceSlots(base, Foreign(found, recorded), segment, h);
    SegmentIsRange(c.slot, segment, size);
    assert WasRead(found, c);
    var i :| 0 <= i < |found| && ReadCoin(found[i]) == c;
    if c.creationId in recorded {
      var k :| k in v.outputs && InRange(v.outputs[k].slot, lo, hi) && v.outputs[k].creationId == Some(c.creationId);
      SegmentIsRange(v.outputs[k].slot, segment, size);
      SweptRecordedRow(v, w, slots, segment, size, found, h, node, k);
      NamedCoin(v, node, h, k, c);
      assert InSegment(w, slots, h, segment, size, Recorded(k));
    } else {
      SweptOwnRow(v, w, base, segment, size, found, h, node, found[i].slot);
      assert InSegment(w, slots, h, segment, size, Own(found[i].slot));
    }
  }

  lemma NamedCoin(v: View, node: set<Coin>, h: nat, k: RowKey, c: Coin)
    requires FitsNode(v, node, h) && k in v.outputs && c in node && v.outputs[k].creationId == Some(c.creationId)
    ensures CoinOf(v, map[], Recorded(k)) == c && k.tx.block.height <= h
  {
    assert NamesThatCoin(v, k, c, h);
  }

  /** Every row of the swept segment is one of the node's coins, and tells which read it came from. */
  lemma CoinOfSweptRow(v: View, w: View, base: map<nat, SlotRow>, segment: nat, size: nat, found: seq<SlotRead>, h: nat, node: set<Coin>, row: PictureRow)
    requires size > 0 && NodeOk(node)
    requires ReadsNode(found, node, segment * size, (segment + 1) * size) && FitsNode(v, node, h)
    requires SweptView(v, w, h, segment * size, (segment + 1) * size, IdsOf(found))
    requires var slots := ReplaceSlots(base, Foreign(found, RecordedIds(v, segment * size, (segment + 1) * size)), segment, h);
             InSegment(w, slots, h, segment, size, row)
    ensures var recorded := RecordedIds(v, segment * size, (segment + 1) * size);
            var slots := ReplaceSlots(base, Foreign(found, recorded), segment, h);
            var c := CoinOf(w, slots, row);
            && c in node && c.slot / size == segment
            && match row
               case Recorded(k) => k in v.outputs && v.outputs[k].creationId == Some(c.creationId) && c.creationId in recorded
               case Own(s) => c.slot == s && c.creationId !in recorded
  {
    hide Spent, ReplaceSlots, Foreign, FitsNode;
    var lo, hi := segment * size, (segment + 1) * size;
    var slots := ReplaceSlots(base, Foreign(found, RecordedIds(v, lo, hi)), segment, h);
    match row
    case Recorded(k) =>
      SweptRecordedRow(v, w, slots, segment, size, found, h, node, k);
      SegmentIsRange(v.outputs[k].slot, segment, size);
      var i :| 0 <= i < |found| && found[i].creationId == v.outputs[k].creationId.value;
      NamedCoin(v, node, h, k, ReadCoin(found[i]));
    case Own(s) =>
      SweptOwnRow(v, w, base, segment, size, found, h, node, s);
      var i :| 0 <= i < |found| && found[i].slot == s && CoinOf(w, slots, Own(s)) == ReadCoin(found[i]);
      SegmentIsRange(found[i].slot, segment, size);
  }

  /**
    Sweep exactness: after the segment's transaction, the picture of the segment holds
    the node's coins, each exactly once and nothing else.
   */
  lemma SweepMakesExact(t: Tables, segment: nat, size: nat, found: seq<SlotRead>, h: nat, now: nat, node: set<Coin>)
    requires size > 0 && NodeOk(node)
    requires ReadsNode(found, node, segment * size, (segment + 1) * size) && FitsNode(ViewOf(t), node, h)
    ensures var u := SweepSegment(t, segment, size, found, h, now);
            Exact(ViewOf(u), u.slots, h, segment, size, node)
  {
    hide Spent, ReplaceSlots, Foreign, FitsNode, SweptView, SweepSegment, ViewOf, FlagsOnly, RecordedIds, ReadsNode, IdsOf;
    SweepEffect(t, segment, size, found, h, now);
    var u := SweepSegment(t, segment, size, found, h, now);
    var v, w := ViewOf(t), ViewOf(u);
    forall row | InSegment(w, u.slots, h, segment, size, row)
      ensures CoinOf(w, u.slots, row) in node && CoinOf(w, u.slots, row).slot / size == segment
    {
      CoinOfSweptRow(v, w, t.slots, segment, size, found, h, node, row);
    }
    forall c | c in node && c.slot / size == segment
      ensures Shows(w, u.slots, h, segment, size, c)
    {
      RowOfReadCoin(v, w, t.slots, segment, size, found, h, node, c);
    }
    forall r, s | InSegment(w, u.slots, h, segment, size, r) && InSegment(w, u.slots, h, segment, size, s)
                  && CoinOf(w, u.slots, r) == CoinOf(w, u.slots, s)
      ensures r == s
    {
      CoinOfSweptRow(v, w, t.slots, segment, size, found, h, node, r);
      CoinOfSweptRow(v, w, t.slots, segment, size, found, h, node, s);
      if r.Recorded? && s.Recorded? { UniqueIds(v, node, h, r.key, s.key); }
    }
  }

  lemma UniqueIds(v: View, node: set<Coin>, h: nat, k: RowKey, l: RowKey)
    requires FitsNode(v, node, h) && k in v.outputs && l in v.outputs && v.outputs[k].creationId == v.outputs[l].creationId
    ensures k == l
  {
  }

  /** The row is shown in both pictures as the same coin, or in neither. */
  ghost predicate SameRow(v: View, slots: map<nat, SlotRow>, w: View, after: map<nat, SlotRow>, h: nat, segment: nat, size: nat, row: PictureRow)
    requires size > 0
  {
    && (InSegment(w, after, h, segment, size, row) <==> InSegment(v, slots, h, segment, size, row))
    && (InSegment(w, after, h, segment, size, row) ==> CoinOf(w, after, row) == CoinOf(v, slots, row))
  }

  /** No other segment's picture changes, at any height. */
  lemma SweepLeavesOthersAlone(t: Tables, segment: nat, size: nat, found: seq<SlotRead>, h: nat, now: nat,
                               at: nat, other: nat, row: PictureRow)
    requires size > 0 && other != segment && SegmentsAgree(t.slots, size)
    requires DistinctSlots(found) && forall i :: 0 <= i < |found| ==> InRange(found[i].slot, segment * size, (segment + 1) * size)
    ensures var u := SweepSegment(t, segment, size, found, h, now);
            SameRow(ViewOf(t), t.slots, ViewOf(u), u.slots, at, other, size, row)
  {
    hide Spent, ReplaceSlots, Foreign, SweepSegment, ViewOf, RecordedIds, IdsOf, DistinctSlots;
    SweepEffect(t, segment, size, found, h, now);
    var u := SweepSegment(t, segment, size, found, h, now);
    var v, w := ViewOf(t), ViewOf(u);
    match row
    case Recorded(k) =>
      if k in v.outputs {
        SegmentIsRange(v.outputs[k].slot, segment, size);
        if v.outputs[k].creationId.Some? { SpentIgnoresOutputs(v, w, v.outputs[k].creationId.value, at); }
      }
    case Own(s) =>
      OtherSlots(t.slots, segment, size, found, RecordedIds(v, segment * size, (segment + 1) * size), h, s);
      if s in t.slots { SpentIgnoresOutputs(v, w, t.slots[s].creationId, at); }
  }

  lemma OtherSlots(slots: map<nat, SlotRow>, segment: nat, size: nat, found: seq<SlotRead>, recorded: set<string>, h: nat, s: nat)
    requires size > 0 && SegmentsAgree(slots, size)
    requires DistinctSlots(found) && forall i :: 0 <= i < |found| ==> InRange(found[i].slot, segment * size, (segment + 1) * size)
    ensures var r := ReplaceSlots(slots, Foreign(found, recorded), segment, h);
            if s / size == segment then s in r ==> r[s].segment == segment
            else (s in r <==> s in slots) && (s in slots ==> r[s] == slots[s])
  {
    var foreign := Foreign(found, recorded);
    ForeignReads(found, recorded);
    ForeignDistinct(found, recorded);
    hide Foreign, InsertSlots;
    SegmentIsRange(s, segment, size);
    var kept := WithoutSegment(slots, segment);
    if forall i :: 0 <= i < |foreign| ==> foreign[i].slot != s {
      NotInserted(kept, foreign, segment, h, s);
    } else {
      var i :| 0 <= i < |foreign| && foreign[i].slot == s;
      assert foreign[i] in found;
      InsertedAt(kept, foreign, segment, h, i);
    }
  }

  /** The slot table stays consistent with its segments. */
  lemma SweepKeepsSegments(t: Tables, segment: nat, size: nat, found: seq<SlotRead>, h: nat, now: nat)
    requires size > 0 && SegmentsAgree(t.slots, size)
    requires DistinctSlots(found) && forall i :: 0 <= i < |found| ==> InRange(found[i].slot, segment * size, (segment + 1) * size)
    ensures SegmentsAgree(SweepSegment(t, segment, size, found, h, now).slots, size)
  {
    hide ReplaceSlots, Foreign, ViewOf, RecordedIds, Unmark, Mark, SweepSegment, IdsOf, DistinctSlots, SweptView, FlagsOnly;
    SweepEffect(t, segment, size, found, h, now);
    var u := SweepSegment(t, segment, size, found, h, now);
    forall s | s in u.slots
      ensures u.slots[s].segment == s / size
    {
      OtherSlots(t.slots, segment, size, found, RecordedIds(ViewOf(t), segment * size, (segment + 1) * size), h, s);
    }
  }
}
