/**
  A segment swept before the node left some blocks (permanode/src/indexer.rs,
  `scan_live_state` and `recheck_height`): exactly when its picture is right again at the
  fork. The sweep drops the slots of coins that were spent and keeps those of coins it
  found without a recorded output, and neither is undone.
 */
module SweptFork {
  import opened Wrappers
  import opened Tables
  import opened View
  import opened Sweep
  import opened SweepLaws
  import opened Chains
  import opened Simulation
  import opened PictureHistory

  // ---------------------------------------------------------------- the condition

  ghost predicate HasOutput(v: View, c: Coin) {
    exists k | k in v.outputs :: v.outputs[k].creationId == Some(c.creationId)
  }

  ghost predicate HasUnflagged(v: View, c: Coin) {
    exists k | k in v.outputs :: v.outputs[k].creationId == Some(c.creationId) && !v.outputs[k].spentInGap
  }

  /** Coins that come back: each has an output on record, unflagged, and its spend. */
  ghost predicate ReturningOnRecord(v: View, origin: Origin, chain: seq<Mined>, f: nat, segment: nat, size: nat)
    requires size > 0 && f <= |chain|
  {
    forall c: Coin :: c in NodeAt(origin, chain[..f]) && c !in NodeAt(origin, chain) && c.slot / size == segment ==>
      HasUnflagged(v, c) && Spent(v, c.creationId, Tip(origin, chain))
  }

  /** Coins that are no more: each has an output on record. */
  ghost predicate LeavingOnRecord(v: View, origin: Origin, chain: seq<Mined>, f: nat, segment: nat, size: nat)
    requires size > 0 && f <= |chain|
  {
    forall c: Coin :: c in NodeAt(origin, chain) && c !in NodeAt(origin, chain[..f]) && c.slot / size == segment ==> HasOutput(v, c)
  }

  // ---------------------------------------------------------------- the sweep's own slots

  function Only(slots: map<nat, SlotRow>, segment: nat): map<nat, SlotRow> {
    map s | s in slots && slots[s].segment == segment :: slots[s]
  }

  lemma OnlySameRow(v: View, slots: map<nat, SlotRow>, h: nat, segment: nat, size: nat, row: PictureRow)
    requires size > 0
    ensures SameRow(v, slots, v, Only(slots, segment), h, segment, size, row)
  {
    hide Spent;
  }

  lemma OnlyExact(v: View, slots: map<nat, SlotRow>, h: nat, segment: nat, size: nat, node: set<Coin>)
    requires size > 0
    ensures Exact(v, slots, h, segment, size, node) <==> Exact(v, Only(slots, segment), h, segment, size, node)
  {
    hide Exact, SameRow, Only;
    forall row
      ensures SameRow(v, slots, v, Only(slots, segment), h, segment, size, row)
      ensures SameRow(v, Only(slots, segment), v, slots, h, segment, size, row)
    {
      OnlySameRow(v, slots, h, segment, size, row);
      SameRowBack(v, slots, v, Only(slots, segment), h, segment, size, row);
    }
    if Exact(v, slots, h, segment, size, node) { SameRowsExact(v, slots, v, Only(slots, segment), h, segment, size, node); }
    if Exact(v, Only(slots, segment), h, segment, size, node) { SameRowsExact(v, Only(slots, segment), v, slots, h, segment, size, node); }
  }

  /** A slot the sweep keeps in the segment is a coin it read there without a recorded output. */
  lemma SweptSlotIs(t: Tables, segment: nat, size: nat, found: seq<SlotRead>, h: nat, now: nat, node: set<Coin>, s: nat)
    requires size > 0 && ReadsNode(found, node, segment * size, (segment + 1) * size)
    requires s in Only(SweepSegment(t, segment, size, found, h, now).slots, segment)
    ensures var slots := Only(SweepSegment(t, segment, size, found, h, now).slots, segment);
            && SlotCoin(slots, s) in node && s / size == segment && slots[s].segment == segment
            && slots[s].creationId !in RecordedIds(ViewOf(t), segment * size, (segment + 1) * size)
  {
    hide SweepSegment, SweptView, FlagsOnly, RecordedIds, ReplaceSlots, Foreign, IdsOf, DistinctSlots;
    SweepEffect(t, segment, size, found, h, now);
    var recorded := RecordedIds(ViewOf(t), segment * size, (segment + 1) * size);
    hide ViewOf;
    var foreign := Foreign(found, recorded);
    ForeignReads(found, recorded);
    ForeignDistinct(found, recorded);
    SegmentSlots(t.slots, foreign, segment, h, s);
    var i :| 0 <= i < |foreign| && foreign[i].slot == s && SweepSegment(t, segment, size, found, h, now).slots[s] == SlotRowOf(foreign[i], segment, h);
    assert foreign[i] in found;
    SegmentIsRange(s, segment, size);
  }

  /** A coin of the segment without a recorded output is kept in a slot of the sweep's own. */
  lemma UnrecordedIsKept(t: Tables, segment: nat, size: nat, found: seq<SlotRead>, h: nat, now: nat, node: set<Coin>, c: Coin) returns (s: nat)
    requires size > 0 && ReadsNode(found, node, segment * size, (segment + 1) * size) && c in node && c.slot / size == segment
    requires c.creationId !in RecordedIds(ViewOf(t), segment * size, (segment + 1) * size)
    ensures var slots := Only(SweepSegment(t, segment, size, found, h, now).slots, segment); s in slots && s / size == segment && SlotCoin(slots, s) == c
  {
    hide SweepSegment, SweptView, FlagsOnly, RecordedIds, ReplaceSlots, Foreign, IdsOf, DistinctSlots;
    SweepEffect(t, segment, size, found, h, now);
    var recorded := RecordedIds(ViewOf(t), segment * size, (segment + 1) * size);
    hide ViewOf;
    var foreign := Foreign(found, recorded);
    ForeignReads(found, recorded);
    ForeignDistinct(found, recorded);
    SegmentIsRange(c.slot, segment, size);
    assert WasRead(found, c);
    var i :| 0 <= i < |found| && ReadCoin(found[i]) == c;
    assert found[i] in foreign;
    var j :| 0 <= j < |foreign| && foreign[j] == found[i];
    s := found[i].slot;
    SegmentSlots(t.slots, foreign, segment, h, s);
  }

  lemma InRecordedIds(v: View, c: Coin, lo: nat, hi: nat, k: RowKey)
    requires k in v.outputs && v.outputs[k].creationId == Some(c.creationId) && InRange(v.outputs[k].slot, lo, hi)
    ensures c.creationId in RecordedIds(v, lo, hi)
  {
  }

  lemma RecordedIdHasOutput(v: View, c: Coin, lo: nat, hi: nat)
    ensures c.creationId in RecordedIds(v, lo, hi) ==> HasOutput(v, c)
  {
  }

  /** An output on record under the id of a coin of the chain is that coin. */
  lemma OutputIsTheCoin(v: View, origin: Origin, chain: seq<Mined>, k: RowKey, c: Coin)
    requires ChainOk(origin, chain) && Faithful(v, origin, chain) && c in EverCoins(origin, chain)
    requires k in v.outputs && v.outputs[k].creationId == Some(c.creationId)
    ensures CoinOf(v, map[], Recorded(k)) == c && v.outputs[k].slot == c.slot && k.tx.block.height <= Tip(origin, chain)
  {
    hide ChainOk, Faithful, EverCoins, OutputsOf, CreatedBy, NodeAt, GivenAt;
    var j := RecordedOutput(v, origin, chain, k);
    CreatedEver(origin, chain, j);
    EverOnce(origin, chain, CoinOf(v, map[], Recorded(k)), c);
  }

  // ---------------------------------------------------------------- the two halves

  /** After the sweep, own slots hold coins from before the fork exactly when every coin that is no more is on record. */
  lemma OwnOldWhen(t: Tables, origin: Origin, chain: seq<Mined>, f: nat, segment: nat, size: nat, found: seq<SlotRead>, now: nat)
    requires size > 0 && ChainOk(origin, chain) && Faithful(ViewOf(t), origin, chain) && f <= |chain|
    requires ReadsNode(found, NodeAt(origin, chain), segment * size, (segment + 1) * size)
    ensures var slots := Only(SweepSegment(t, segment, size, found, Tip(origin, chain), now).slots, segment);
            OwnAreEver(slots, origin, chain[..f], segment, size) <==> LeavingOnRecord(ViewOf(t), origin, chain, f, segment, size)
  {
    hide SweepSegment, ViewOf, Faithful, ChainOk, NodeAt, ReadsNode, EverCoins, HasOutput, RecordedIds, Only;
    var slots := Only(SweepSegment(t, segment, size, found, Tip(origin, chain), now).slots, segment);
    if OwnAreEver(slots, origin, chain[..f], segment, size) {
      forall c: Coin | c in NodeAt(origin, chain) && c !in NodeAt(origin, chain[..f]) && c.slot / size == segment
        ensures HasOutput(ViewOf(t), c)
      {
        LeavingIsOnRecord(t, origin, chain, f, segment, size, found, now, c);
      }
    }
    if LeavingOnRecord(ViewOf(t), origin, chain, f, segment, size) {
      forall s: nat | s in slots && s / size == segment
        ensures SlotCoin(slots, s) in EverCoins(origin, chain[..f])
      {
        OwnIsOld(t, origin, chain, f, segment, size, found, now, s);
      }
    }
  }

  lemma LeavingIsOnRecord(t: Tables, origin: Origin, chain: seq<Mined>, f: nat, segment: nat, size: nat, found: seq<SlotRead>, now: nat, c: Coin)
    requires size > 0 && ChainOk(origin, chain) && f <= |chain|
    requires ReadsNode(found, NodeAt(origin, chain), segment * size, (segment + 1) * size)
    requires OwnAreEver(Only(SweepSegment(t, segment, size, found, Tip(origin, chain), now).slots, segment), origin, chain[..f], segment, size)
    requires c in NodeAt(origin, chain) && c !in NodeAt(origin, chain[..f]) && c.slot / size == segment
    ensures HasOutput(ViewOf(t), c)
  {
    hide SweepSegment, ViewOf, ChainOk, NodeAt, ReadsNode, EverCoins, HasOutput, RecordedIds, Only;
    if c.creationId in RecordedIds(ViewOf(t), segment * size, (segment + 1) * size) {
      RecordedIdHasOutput(ViewOf(t), c, segment * size, (segment + 1) * size);
    } else {
      var s := UnrecordedIsKept(t, segment, size, found, Tip(origin, chain), now, NodeAt(origin, chain), c);
      LiveThen(origin, chain, f, c);
    }
  }

  lemma OwnIsOld(t: Tables, origin: Origin, chain: seq<Mined>, f: nat, segment: nat, size: nat, found: seq<SlotRead>, now: nat, s: nat)
    requires size > 0 && ChainOk(origin, chain) && Faithful(ViewOf(t), origin, chain) && f <= |chain|
    requires ReadsNode(found, NodeAt(origin, chain), segment * size, (segment + 1) * size)
    requires LeavingOnRecord(ViewOf(t), origin, chain, f, segment, size)
    requires s in Only(SweepSegment(t, segment, size, found, Tip(origin, chain), now).slots, segment)
    ensures SlotCoin(Only(SweepSegment(t, segment, size, found, Tip(origin, chain), now).slots, segment), s) in EverCoins(origin, chain[..f])
  {
    hide SweepSegment, ViewOf, Faithful, ChainOk, NodeAt, ReadsNode, EverCoins, RecordedIds, Only;
    var v, c := ViewOf(t), SlotCoin(Only(SweepSegment(t, segment, size, found, Tip(origin, chain), now).slots, segment), s);
    SweptSlotIs(t, segment, size, found, Tip(origin, chain), now, NodeAt(origin, chain), s);
    LiveOnce(origin, chain[..f]);
    LiveOnce(origin, chain);
    if c !in NodeAt(origin, chain[..f]) {
      var k :| k in v.outputs && v.outputs[k].creationId == Some(c.creationId);
      OutputIsTheCoin(v, origin, chain, k, c);
      SegmentIsRange(c.slot, segment, size);
      InRecordedIds(v, c, segment * size, (segment + 1) * size, k);
    }
  }

  /** A coin that comes back is held by one row after the sweep exactly when it is on record, unflagged, with its spend. */
  lemma HeldOnceWhen(t: Tables, origin: Origin, chain: seq<Mined>, f: nat, segment: nat, size: nat, found: seq<SlotRead>, now: nat, c: Coin)
    requires size > 0 && ChainOk(origin, chain) && Faithful(ViewOf(t), origin, chain) && f <= |chain|
    requires ReadsNode(found, NodeAt(origin, chain), segment * size, (segment + 1) * size)
    requires c in EverCoins(origin, chain) && c !in NodeAt(origin, chain) && c.slot / size == segment
    ensures var u := SweepSegment(t, segment, size, found, Tip(origin, chain), now);
            HeldOnce(ViewOf(u), Only(u.slots, segment), c) <==> HasUnflagged(ViewOf(t), c) && Spent(ViewOf(t), c.creationId, Tip(origin, chain))
  {
    hide SweepSegment, ViewOf, Faithful, ChainOk, NodeAt, ReadsNode, EverCoins, Only, Holds, Spent;
    var u := SweepSegment(t, segment, size, found, Tip(origin, chain), now);
    var v, w, slots := ViewOf(t), ViewOf(u), Only(u.slots, segment);
    forall row | Holds(w, slots, row, c)
      ensures row.Recorded? && row.key in v.outputs && v.outputs[row.key].creationId == Some(c.creationId)
      ensures !v.outputs[row.key].spentInGap && Spent(v, c.creationId, Tip(origin, chain))
    {
      HolderIsRecorded(t, origin, chain, segment, size, found, now, c, row);
    }
    forall r, s | Holds(w, slots, r, c) && Holds(w, slots, s, c)
      ensures r == s
    {
      SameIdSameOutput(v, origin, chain, r.key, s.key);
    }
    if HasUnflagged(v, c) && Spent(v, c.creationId, Tip(origin, chain)) {
      var k :| k in v.outputs && v.outputs[k].creationId == Some(c.creationId) && !v.outputs[k].spentInGap;
      SpentIsHeld(t, origin, chain, segment, size, found, now, c, k);
    }
  }

  lemma SameIdSameOutput(v: View, origin: Origin, chain: seq<Mined>, k: RowKey, l: RowKey)
    requires ChainOk(origin, chain) && Faithful(v, origin, chain)
    requires k in v.outputs && l in v.outputs && v.outputs[k].creationId == v.outputs[l].creationId
    ensures k == l
  {
    hide ChainOk, Faithful, OutputsOf, CreatedBy, NodeAt, GivenAt;
    var i := RecordedOutput(v, origin, chain, k);
    var j := RecordedOutput(v, origin, chain, l);
    IdsGivenOnce(origin, chain, i, j, k, l);
  }

  /** The id of a coin that is gone is not among those read. */
  lemma GoneIsNotRead(origin: Origin, chain: seq<Mined>, found: seq<SlotRead>, lo: nat, hi: nat, c: Coin)
    requires ChainOk(origin, chain) && ReadsNode(found, NodeAt(origin, chain), lo, hi)
    requires c in EverCoins(origin, chain) && c !in NodeAt(origin, chain)
    ensures c.creationId !in IdsOf(found)
  {
    hide ChainOk, NodeAt, EverCoins, DistinctSlots;
    if c.creationId in IdsOf(found) {
      var i :| 0 <= i < |found| && found[i].creationId == c.creationId;
      LiveOnce(origin, chain);
      EverOnce(origin, chain, ReadCoin(found[i]), c);
    }
  }

  /** Of a coin that is gone the sweep flags the output unless its spend is on record. */
  lemma FlagOfGone(t: Tables, origin: Origin, chain: seq<Mined>, segment: nat, size: nat, found: seq<SlotRead>, now: nat, c: Coin, k: RowKey)
    requires size > 0 && ChainOk(origin, chain) && Faithful(ViewOf(t), origin, chain)
    requires ReadsNode(found, NodeAt(origin, chain), segment * size, (segment + 1) * size)
    requires c in EverCoins(origin, chain) && c !in NodeAt(origin, chain) && c.slot / size == segment
    requires k in ViewOf(t).outputs && ViewOf(t).outputs[k].creationId == Some(c.creationId)
    ensures var v, w := ViewOf(t), ViewOf(SweepSegment(t, segment, size, found, Tip(origin, chain), now));
            && k in w.outputs && w.outputs[k] == v.outputs[k].(spentInGap := w.outputs[k].spentInGap, spentInGapAt := w.outputs[k].spentInGapAt)
            && w.outputs[k].spentInGap == (v.outputs[k].spentInGap || !Spent(v, c.creationId, Tip(origin, chain)))
  {
    hide SweepSegment, ViewOf, Faithful, ChainOk, NodeAt, ReadsNode, EverCoins, Spent, ReplaceSlots, IdsOf;
    SweepEffect(t, segment, size, found, Tip(origin, chain), now);
    OutputIsTheCoin(ViewOf(t), origin, chain, k, c);
    GoneIsNotRead(origin, chain, found, segment * size, (segment + 1) * size, c);
    SegmentIsRange(c.slot, segment, size);
  }

  lemma HolderIsRecorded(t: Tables, origin: Origin, chain: seq<Mined>, segment: nat, size: nat, found: seq<SlotRead>, now: nat, c: Coin, row: PictureRow)
    requires size > 0 && ChainOk(origin, chain) && Faithful(ViewOf(t), origin, chain)
    requires ReadsNode(found, NodeAt(origin, chain), segment * size, (segment + 1) * size)
    requires c in EverCoins(origin, chain) && c !in NodeAt(origin, chain) && c.slot / size == segment
    requires var u := SweepSegment(t, segment, size, found, Tip(origin, chain), now); Holds(ViewOf(u), Only(u.slots, segment), row, c)
    ensures row.Recorded? && row.key in ViewOf(t).outputs && ViewOf(t).outputs[row.key].creationId == Some(c.creationId)
    ensures !ViewOf(t).outputs[row.key].spentInGap && Spent(ViewOf(t), c.creationId, Tip(origin, chain))
  {
    hide SweepSegment, ViewOf, Faithful, ChainOk, NodeAt, ReadsNode, EverCoins, Spent, ReplaceSlots, IdsOf, Only;
    SweepEffect(t, segment, size, found, Tip(origin, chain), now);
    match row
    case Recorded(k) => FlagOfGone(t, origin, chain, segment, size, found, now, c, k);
    case Own(s) => SweptSlotIs(t, segment, size, found, Tip(origin, chain), now, NodeAt(origin, chain), s);
  }

  lemma SpentIsHeld(t: Tables, origin: Origin, chain: seq<Mined>, segment: nat, size: nat, found: seq<SlotRead>, now: nat, c: Coin, k: RowKey)
    requires size > 0 && ChainOk(origin, chain) && Faithful(ViewOf(t), origin, chain)
    requires ReadsNode(found, NodeAt(origin, chain), segment * size, (segment + 1) * size)
    requires c in EverCoins(origin, chain) && c !in NodeAt(origin, chain) && c.slot / size == segment
    requires k in ViewOf(t).outputs && ViewOf(t).outputs[k].creationId == Some(c.creationId) && !ViewOf(t).outputs[k].spentInGap
    requires Spent(ViewOf(t), c.creationId, Tip(origin, chain))
    ensures var u := SweepSegment(t, segment, size, found, Tip(origin, chain), now); Holds(ViewOf(u), Only(u.slots, segment), Recorded(k), c)
  {
    hide SweepSegment, ViewOf, Faithful, ChainOk, NodeAt, ReadsNode, EverCoins, Spent, Only;
    FlagOfGone(t, origin, chain, segment, size, found, now, c, k);
    OutputIsTheCoin(ViewOf(t), origin, chain, k, c);
  }

  // ---------------------------------------------------------------- the main result

  lemma ShownWhen(t: Tables, origin: Origin, chain: seq<Mined>, f: nat, segment: nat, size: nat, found: seq<SlotRead>, now: nat)
    requires size > 0 && ChainOk(origin, chain) && Faithful(ViewOf(t), origin, chain) && f <= |chain|
    requires ReadsNode(found, NodeAt(origin, chain), segment * size, (segment + 1) * size)
    ensures var u := SweepSegment(t, segment, size, found, Tip(origin, chain), now);
            ShownAtFork(ViewOf(u), Only(u.slots, segment), origin, chain, f, segment, size) <==>
            ReturningOnRecord(ViewOf(t), origin, chain, f, segment, size) && LeavingOnRecord(ViewOf(t), origin, chain, f, segment, size)
  {
    hide SweepSegment, ViewOf, Faithful, ChainOk, NodeAt, ReadsNode, EverCoins, Only, HeldOnce, HasUnflagged, Spent, OwnAreEver, LeavingOnRecord;
    OwnOldWhen(t, origin, chain, f, segment, size, found, now);
    LiveOnce(origin, chain[..f]);
    EverGrows(origin, chain, f);
    var u := SweepSegment(t, segment, size, found, Tip(origin, chain), now);
    forall c: Coin | c in NodeAt(origin, chain[..f]) && c !in NodeAt(origin, chain) && c.slot / size == segment
      ensures HeldOnce(ViewOf(u), Only(u.slots, segment), c) <==> HasUnflagged(ViewOf(t), c) && Spent(ViewOf(t), c.creationId, Tip(origin, chain))
    {
      HeldOnceWhen(t, origin, chain, f, segment, size, found, now, c);
    }
  }

  lemma OnlyAgree(t: Tables, origin: Origin, chain: seq<Mined>, segment: nat, size: nat, found: seq<SlotRead>, now: nat)
    requires size > 0 && ReadsNode(found, NodeAt(origin, chain), segment * size, (segment + 1) * size)
    ensures var slots := Only(SweepSegment(t, segment, size, found, Tip(origin, chain), now).slots, segment);
            SegmentsAgree(slots, size) && OwnAreEver(slots, origin, chain, segment, size)
  {
    hide SweepSegment, NodeAt, ReadsNode, EverCoins, Only, ViewOf, RecordedIds;
    var slots := Only(SweepSegment(t, segment, size, found, Tip(origin, chain), now).slots, segment);
    LiveOnce(origin, chain);
    forall s | s in slots
      ensures slots[s].segment == s / size && SlotCoin(slots, s) in EverCoins(origin, chain)
    {
      SweptSlotIs(t, segment, size, found, Tip(origin, chain), now, NodeAt(origin, chain), s);
    }
  }

  /**
    A swept segment is exact where the node left its blocks exactly when, of its coins,
    those that come back have an unflagged output and their spend on record, and those that
    are no more have an output on record.
   */
  lemma SweptAtForkWhen(t: Tables, origin: Origin, chain: seq<Mined>, f: nat, segment: nat, size: nat, found: seq<SlotRead>, now: nat)
    requires size > 0 && ChainOk(origin, chain) && Faithful(ViewOf(t), origin, chain) && f <= |chain|
    requires ReadsNode(found, NodeAt(origin, chain), segment * size, (segment + 1) * size)
    ensures var u := SweepSegment(t, segment, size, found, Tip(origin, chain), now);
            Exact(ViewOf(u), u.slots, origin.height + f, segment, size, NodeAt(origin, chain[..f])) <==>
            ReturningOnRecord(ViewOf(t), origin, chain, f, segment, size) && LeavingOnRecord(ViewOf(t), origin, chain, f, segment, size)
  {
    hide SweepSegment, ViewOf, Faithful, ChainOk, NodeAt, ReadsNode, Only, Exact, SegmentsAgree, OwnAreEver, ShownAtFork, FitsNode, NodeOk,
         FlagsOnly, ReplaceSlots, IdsOf, ReturningOnRecord, LeavingOnRecord, FlagAfter, GivenAt;
    var tip, u := Tip(origin, chain), SweepSegment(t, segment, size, found, Tip(origin, chain), now);
    FaithfulFits(ViewOf(t), origin, chain);
    LiveIdsGiven(origin, chain);
    SweepEffect(t, segment, size, found, tip, now);
    FaithfulUpToFlags(ViewOf(t), ViewOf(u), origin, chain);
    SweepMakesExact(t, segment, size, found, tip, now, NodeAt(origin, chain));
    OnlyExact(ViewOf(u), u.slots, tip, segment, size, NodeAt(origin, chain));
    OnlyExact(ViewOf(u), u.slots, origin.height + f, segment, size, NodeAt(origin, chain[..f]));
    OnlyAgree(t, origin, chain, segment, size, found, now);
    UnwoundExactWhen(ViewOf(u), Only(u.slots, segment), origin, chain, f, segment, size);
    ShownWhen(t, origin, chain, f, segment, size, found, now);
  }

  // ---------------------------------------------------------------- a coin lost, and one gained

  /** Outputs of the chain never carry the id of a coin from before it. */
  lemma OlderThanTheChain(v: View, origin: Origin, chain: seq<Mined>, c: Coin)
    requires ChainOk(origin, chain) && Faithful(v, origin, chain) && c in origin.coins
    ensures !HasOutput(v, c)
  {
    hide ChainOk, Faithful, NodeAt, CreatedBy, EverCoins, OutputsOf, GivenAt;
    if HasOutput(v, c) {
      var k :| k in v.outputs && v.outputs[k].creationId == Some(c.creationId);
      OriginIsEver(origin, chain, c);
      OutputIsTheCoin(v, origin, chain, k, c);
      var j := RecordedOutput(v, origin, chain, k);
      RecordedOld(origin, chain, 0, j, c);
    }
  }

  lemma OriginIsEver(origin: Origin, chain: seq<Mined>, c: Coin)
    requires c in origin.coins
    ensures c in EverCoins(origin, chain) && c in EverCoins(origin, chain[..0])
  {
    hide CreatedBy;
    EverGrows(origin, chain, 0);
  }

  /**
    A coin from before the archive that one of the left blocks spent is no longer among the
    sweep's slots, and at the fork, where it is live again, nothing shows it.
   */
  lemma SpentThenUnwound(t: Tables, origin: Origin, chain: seq<Mined>, f: nat, j: nat, segment: nat, size: nat, found: seq<SlotRead>, now: nat, c: Coin)
    requires size > 0 && ChainOk(origin, chain) && Faithful(ViewOf(t), origin, chain)
    requires ReadsNode(found, NodeAt(origin, chain), segment * size, (segment + 1) * size)
    requires f <= j < |chain| && c in origin.coins && c in NodeAt(origin, chain[..f])
    requires c.creationId in SpentBy(chain[j].body) && c.slot / size == segment
    ensures var u := SweepSegment(t, segment, size, found, Tip(origin, chain), now);
            !Exact(ViewOf(u), u.slots, origin.height + f, segment, size, NodeAt(origin, chain[..f]))
  {
    hide SweepSegment, ViewOf, Faithful, ChainOk, NodeAt, ReadsNode, SpentBy, Spent, Exact, LeavingOnRecord;
    SweptAtForkWhen(t, origin, chain, f, segment, size, found, now);
    OlderThanTheChain(ViewOf(t), origin, chain, c);
    if c in NodeAt(origin, chain) { LiveIsUnspent(origin, chain, j, c); }
  }

  /** A coin of a left block without a recorded output stays in its slot, and at the fork, where it never was, is shown. */
  lemma FoundThenUnwound(t: Tables, origin: Origin, chain: seq<Mined>, f: nat, segment: nat, size: nat, found: seq<SlotRead>, now: nat, c: Coin)
    requires size > 0 && ChainOk(origin, chain) && Faithful(ViewOf(t), origin, chain) && f <= |chain|
    requires ReadsNode(found, NodeAt(origin, chain), segment * size, (segment + 1) * size)
    requires c in NodeAt(origin, chain) && c !in NodeAt(origin, chain[..f]) && c.slot / size == segment && !HasOutput(ViewOf(t), c)
    ensures var u := SweepSegment(t, segment, size, found, Tip(origin, chain), now);
            !Exact(ViewOf(u), u.slots, origin.height + f, segment, size, NodeAt(origin, chain[..f]))
  {
    hide SweepSegment, ViewOf, Faithful, ChainOk, NodeAt, ReadsNode, HasOutput, Exact, ReturningOnRecord;
    SweptAtForkWhen(t, origin, chain, f, segment, size, found, now);
  }
}
