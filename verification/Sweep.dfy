/**
  The live-state sweep (`scan_live_state` in permanode/src/indexer.rs and the statements
  it runs, core/src/db.rs): one segment of the node's state is read slot by slot and one
  transaction makes the permanode's picture of that segment equal to it.
 */
module Sweep {
  import opened Wrappers
  import opened Tables
  import opened View

  /** One live slot as read from the node. */
  datatype SlotRead = SlotRead(slot: nat, creationId: string, owner: string, amount: u64)

  function ReadCoin(r: SlotRead): Coin {
    Coin(r.slot, r.creationId, r.owner, AsI64(r.amount))
  }

  function SlotRowOf(r: SlotRead, segment: nat, height: nat): SlotRow {
    SlotRow(segment, r.creationId, r.owner, AsI64(r.amount), height)
  }

  /** INSERT OR REPLACE, one read after the other. */
  function InsertSlots(slots: map<nat, SlotRow>, found: seq<SlotRead>, segment: nat, height: nat): map<nat, SlotRow> {
    if found == [] then slots else
      var last := found[|found| - 1];
      InsertSlots(slots, found[..|found| - 1], segment, height)[last.slot := SlotRowOf(last, segment, height)]
  }

  function WithoutSegment(slots: map<nat, SlotRow>, segment: nat): map<nat, SlotRow> {
    map s | s in slots && slots[s].segment != segment :: slots[s]
  }

  function ReplaceSlots(slots: map<nat, SlotRow>, found: seq<SlotRead>, segment: nat, height: nat): map<nat, SlotRow> {
    InsertSlots(WithoutSegment(slots, segment), found, segment, height)
  }

  function IdsOf(found: seq<SlotRead>): set<string> {
    set i | 0 <= i < |found| :: found[i].creationId
  }

  function Foreign(found: seq<SlotRead>, recorded: set<string>): seq<SlotRead> {
    if found == [] then [] else
      Foreign(found[..|found| - 1], recorded) + (if found[|found| - 1].creationId in recorded then [] else [found[|found| - 1]])
  }

  /** A flagged recorded output in the range that the read found live after all. */
  predicate LiveAfterAll(t: Tables, k: RowKey, lo: nat, hi: nat, live: set<string>)
    requires k in t.outputs
  {
    && t.outputs[k].spentInGap && InRange(t.outputs[k].slot, lo, hi)
    && !(k.tx in t.txs && t.txs[k.tx].source == Some(RECEIPT))
    && t.outputs[k].creationId.Some? && t.outputs[k].creationId.value in live
  }

  function Unmark(t: Tables, lo: nat, hi: nat, live: set<string>): Tables {
    t.(outputs := map k | k in t.outputs ::
         if LiveAfterAll(t, k, lo, hi, live) then t.outputs[k].(spentInGap := false, spentInGapAt := None) else t.outputs[k])
  }

  /** Recorded outputs the node no longer holds although no recorded input spent them. */
  function Gone(t: Tables, h: nat, lo: nat, hi: nat, live: set<string>): set<RowKey> {
    var v := ViewOf(t);
    set k | k in UnspentRecorded(v, h, lo, hi) && !(v.outputs[k].creationId.Some? && v.outputs[k].creationId.value in live)
  }

  function Mark(t: Tables, gone: set<RowKey>, now: nat): Tables {
    t.(outputs := map k | k in t.outputs ::
         if k in gone then t.outputs[k].(spentInGap := true, spentInGapAt := Some(now)) else t.outputs[k])
  }

  /** What one segment's transaction does, statement by statement. */
  function SweepSegment(t: Tables, segment: nat, size: nat, found: seq<SlotRead>, h: nat, now: nat): Tables {
    var lo, hi := segment * size, (segment + 1) * size;
    var recorded := RecordedIds(ViewOf(t), lo, hi);
    var t1 := t.(slots := ReplaceSlots(t.slots, Foreign(found, recorded), segment, h));
    var t2 := Unmark(t1, lo, hi, IdsOf(found));
    Mark(t2, Gone(t2, h, lo, hi, IdsOf(found)), now)
  }

  // ---------------------------------------------------------------- the node's state

  /** A coin occupies one slot, and a creation id is given out once. */
  ghost predicate NodeOk(node: set<Coin>) {
    && (forall c, d :: c in node && d in node && c.slot == d.slot ==> c == d)
    && (forall c, d :: c in node && d in node && c.creationId == d.creationId ==> c == d)
    && (forall c :: c in node ==> c.slot >= 0 && 0 <= c.amount <= I64_MAX)
  }

  ghost predicate WasRead(found: seq<SlotRead>, c: Coin) {
    exists i :: 0 <= i < |found| && ReadCoin(found[i]) == c
  }

  /** `found` are exactly the node's coins in the range, one per slot. */
  ghost predicate ReadsNode(found: seq<SlotRead>, node: set<Coin>, lo: nat, hi: nat) {
    && DistinctSlots(found)
    && (forall i :: 0 <= i < |found| ==> ReadCoin(found[i]) in node && InRange(found[i].slot, lo, hi))
    && (forall c :: c in node && InRange(c.slot, lo, hi) ==> WasRead(found, c))
  }

  /** If the output's id is the live coin's, the output is that coin, recorded at or below `h`. */
  ghost predicate NamesThatCoin(v: View, k: RowKey, c: Coin, h: nat)
    requires k in v.outputs
  {
    v.outputs[k].creationId == Some(c.creationId) ==> CoinOf(v, map[], Recorded(k)) == c && k.tx.block.height <= h
  }

  /** The recorded history fits the node at `h`: ids are unique, and a recorded id that is live names that coin. */
  ghost predicate FitsNode(v: View, node: set<Coin>, h: nat) {
    && (forall k :: k in v.outputs ==> v.outputs[k].creationId.Some?)
    && (forall k, l :: k in v.outputs && l in v.outputs && v.outputs[k].creationId == v.outputs[l].creationId ==> k == l)
    && (forall k, c :: k in v.outputs && c in node ==> NamesThatCoin(v, k, c, h))
    && (forall c :: c in node ==> !Spent(v, c.creationId, h))
  }

  ghost predicate DistinctSlots(found: seq<SlotRead>) {
    forall i, j :: 0 <= i < j < |found| ==> found[i].slot != found[j].slot
  }

  // ---------------------------------------------------------------- exactness

  /** `row` is part of the picture at `h` and counted in `segment`. */
  ghost predicate InSegment(v: View, slots: map<nat, SlotRow>, h: nat, segment: nat, size: nat, row: PictureRow)
    requires size > 0
  {
    InPicture(v, slots, row, h) && SegmentOf(v, slots, row, size) == segment
  }

  ghost predicate Shows(v: View, slots: map<nat, SlotRow>, h: nat, segment: nat, size: nat, c: Coin)
    requires size > 0
  {
    exists row :: InSegment(v, slots, h, segment, size, row) && CoinOf(v, slots, row) == c
  }

  /** The picture of the segment is the node's: the same coins, each exactly once. */
  ghost predicate Exact(v: View, slots: map<nat, SlotRow>, h: nat, segment: nat, size: nat, node: set<Coin>)
    requires size > 0
  {
    && (forall row :: InSegment(v, slots, h, segment, size, row) ==>
          CoinOf(v, slots, row) in node && CoinOf(v, slots, row).slot / size == segment)
    && (forall c :: c in node && c.slot / size == segment ==> Shows(v, slots, h, segment, size, c))
    && (forall r, s :: InSegment(v, slots, h, segment, size, r) && InSegment(v, slots, h, segment, size, s) ==>
          CoinOf(v, slots, r) == CoinOf(v, slots, s) ==> r == s)
  }

  // ---------------------------------------------------------------- pieces

  lemma {:induction false} InsertedAt(slots: map<nat, SlotRow>, found: seq<SlotRead>, segment: nat, height: nat, i: nat)
    requires DistinctSlots(found) && i < |found|
    ensures var r := InsertSlots(slots, found, segment, height);
            found[i].slot in r && r[found[i].slot] == SlotRowOf(found[i], segment, height)
  {
    if i < |found| - 1 {
      InsertedAt(slots, found[..|found| - 1], segment, height, i);
    }
  }

  lemma {:induction false} NotInserted(slots: map<nat, SlotRow>, found: seq<SlotRead>, segment: nat, height: nat, s: nat)
    requires forall i :: 0 <= i < |found| ==> found[i].slot != s
    ensures var r := InsertSlots(slots, found, segment, height);
            (s in r <==> s in slots) && (s in slots ==> r[s] == slots[s])
  {
    if found != [] {
      NotInserted(slots, found[..|found| - 1], segment, height, s);
    }
  }

  lemma {:induction false} ForeignReads(found: seq<SlotRead>, recorded: set<string>)
    ensures forall r :: r in Foreign(found, recorded) <==> r in found && r.creationId !in recorded
  {
    if found != [] {
      var front, last := found[..|found| - 1], found[|found| - 1];
      ForeignReads(front, recorded);
      var f, g := Foreign(front, recorded), if last.creationId in recorded then [] else [last];
      assert Foreign(found, recorded) == f + g && found == front + [last];
      forall r ensures r in Foreign(found, recorded) <==> r in found && r.creationId !in recorded {
        assert r in f + g <==> r in f || r in g;
        assert r in front + [last] <==> r in front || r == last;
      }
    }
  }

  lemma {:induction false} ForeignDistinct(found: seq<SlotRead>, recorded: set<string>)
    requires DistinctSlots(found)
    ensures DistinctSlots(Foreign(found, recorded))
  {
    if found != [] {
      var front, last := found[..|found| - 1], found[|found| - 1];
      ForeignDistinct(front, recorded);
      ForeignReads(front, recorded);
      var f := Foreign(front, recorded);
      forall i | 0 <= i < |f|
        ensures f[i].slot != last.slot
      {
        assert f[i] in front;
      }
      assert DistinctSlots(f + [last]);
      assert f + [] == f;
    }
  }

  /** Only flags differ between two versions of the output table. */
  ghost predicate FlagsOnly(a: map<RowKey, OutputRow>, b: map<RowKey, OutputRow>) {
    && a.Keys == b.Keys
    && forall k :: k in a ==> b[k] == a[k].(spentInGap := b[k].spentInGap, spentInGapAt := b[k].spentInGapAt)
  }

  lemma SameKeys(a: map<RowKey, OutputRow>, b: map<RowKey, OutputRow>)
    requires FlagsOnly(a, b)
    ensures a.Keys == b.Keys
  {
  }

  /** Flag updates and slot replacements leave the recorded history as it was. */
  lemma ViewAfterFlags(t: Tables, u: Tables)
    requires u == t.(outputs := u.outputs, slots := u.slots) && FlagsOnly(t.outputs, u.outputs)
    ensures ViewOf(u) == ViewOf(t).(outputs := map k | k in ViewOf(t).outputs :: u.outputs[k])
  {
    assert forall k :: Counts(u, k) == Counts(t, k) by { hide LastStatus; }
    hide Counts, FlagsOnly;
    assert u.outputs.Keys == t.outputs.Keys by { SameKeys(t.outputs, u.outputs); }
    assert ViewOf(u).txs == ViewOf(t).txs && ViewOf(u).inputs == ViewOf(t).inputs;
    assert ViewOf(u).outputs == map k | k in ViewOf(t).outputs :: u.outputs[k];
  }

  /** Spends do not depend on the output table. */
  lemma SpentIgnoresOutputs(v: View, w: View, creationId: string, h: nat)
    requires w.inputs == v.inputs
    ensures Spent(w, creationId, h) == Spent(v, creationId, h)
  {
  }

  lemma UnmarkEffect(t: Tables, lo: nat, hi: nat, live: set<string>)
    ensures var u := Unmark(t, lo, hi, live);
            && FlagsOnly(t.outputs, u.outputs)
            && forall k :: k in ViewOf(t).outputs ==>
                 var o := t.outputs[k];
                 u.outputs[k].spentInGap ==
                   (o.spentInGap && !(InRange(o.slot, lo, hi) && o.creationId.Some? && o.creationId.value in live))
  {
    hide IsCanonical;
  }

  lemma MarkEffect(t: Tables, gone: set<RowKey>, now: nat)
    ensures var u := Mark(t, gone, now);
            && FlagsOnly(t.outputs, u.outputs)
            && forall k :: k in t.outputs ==> u.outputs[k].spentInGap == (k in gone || t.outputs[k].spentInGap)
  {
  }

  lemma FlagsCompose(a: map<RowKey, OutputRow>, b: map<RowKey, OutputRow>, c: map<RowKey, OutputRow>)
    requires FlagsOnly(a, b) && FlagsOnly(b, c)
    ensures FlagsOnly(a, c)
  {
  }

  /** The flag `o` carries after its segment was read. */
  predicate FlagAfter(v: View, k: RowKey, h: nat, lo: nat, hi: nat, live: set<string>)
    requires k in v.outputs
  {
    var o := v.outputs[k];
    if !InRange(o.slot, lo, hi) then o.spentInGap
    else if o.creationId.Some? && o.creationId.value in live then false
    else o.spentInGap || (k.tx.block.height <= h && !OutputSpent(v, o, h))
  }

  ghost predicate SweptView(v: View, w: View, h: nat, lo: nat, hi: nat, live: set<string>) {
    && w == v.(outputs := w.outputs) && FlagsOnly(v.outputs, w.outputs)
    && forall k :: k in v.outputs ==> w.outputs[k].spentInGap == FlagAfter(v, k, h, lo, hi, live)
  }

  lemma GoneEffect(t: Tables, h: nat, lo: nat, hi: nat, live: set<string>, now: nat)
    ensures var u := Unmark(t, lo, hi, live);
            var m := Mark(u, Gone(u, h, lo, hi, live), now);
            FlagsOnly(t.outputs, m.outputs) && SweptView(ViewOf(t), ViewOf(m), h, lo, hi, live)
  {
    hide IsCanonical, Unmark, Mark, FlagsOnly;
    var u := Unmark(t, lo, hi, live);
    var gone := Gone(u, h, lo, hi, live);
    var m := Mark(u, gone, now);
    UnmarkEffect(t, lo, hi, live);
    MarkEffect(u, gone, now);
    FlagsCompose(t.outputs, u.outputs, m.outputs);
    assert u == t.(outputs := u.outputs) && m == t.(outputs := m.outputs) by { OnlyOutputsChange(t, lo, hi, live, gone, now); }
    ViewAfterFlags(t, u);
    ViewAfterFlags(t, m);
    var v, vu, w := ViewOf(t), ViewOf(u), ViewOf(m);
    assert FlagsOnly(v.outputs, w.outputs) && FlagsOnly(v.outputs, vu.outputs) by { FlagsInView(t, m); FlagsInView(t, u); }
    forall k | k in v.outputs
      ensures w.outputs[k].spentInGap == FlagAfter(v, k, h, lo, hi, live)
    {
      FlagByFlag(v, vu, w, k, h, lo, hi, live, gone);
    }
  }

  lemma OnlyOutputsChange(t: Tables, lo: nat, hi: nat, live: set<string>, gone: set<RowKey>, now: nat)
    ensures var u := Unmark(t, lo, hi, live);
            var m := Mark(u, gone, now);
            u == t.(outputs := u.outputs) && m == t.(outputs := m.outputs)
  {
  }

  lemma FlagsInView(t: Tables, u: Tables)
    requires u == t.(outputs := u.outputs) && FlagsOnly(t.outputs, u.outputs)
    ensures FlagsOnly(ViewOf(t).outputs, ViewOf(u).outputs)
  {
    hide IsCanonical;
    ViewAfterFlags(t, u);
  }

  lemma FlagByFlag(v: View, vu: View, w: View, k: RowKey, h: nat, lo: nat, hi: nat, live: set<string>, gone: set<RowKey>)
    requires k in v.outputs
    requires vu == v.(outputs := vu.outputs) && FlagsOnly(v.outputs, vu.outputs)
    requires w == v.(outputs := w.outputs) && FlagsOnly(v.outputs, w.outputs)
    requires var o := v.outputs[k];
             vu.outputs[k].spentInGap == (o.spentInGap && !(InRange(o.slot, lo, hi) && o.creationId.Some? && o.creationId.value in live))
    requires w.outputs[k].spentInGap == (k in gone || vu.outputs[k].spentInGap)
    requires k in gone <==> k in UnspentRecorded(vu, h, lo, hi) && !(vu.outputs[k].creationId.Some? && vu.outputs[k].creationId.value in live)
    ensures w.outputs[k].spentInGap == FlagAfter(v, k, h, lo, hi, live)
  {
    hide Spent;
    var o := v.outputs[k];
    if o.creationId.Some? { SpentIgnoresOutputs(v, vu, o.creationId.value, h); }
  }

  /** After the segment's transaction: the slots read without a recorded output, and the flags the read calls for. */
  lemma SweepEffect(t: Tables, segment: nat, size: nat, found: seq<SlotRead>, h: nat, now: nat)
    ensures var u := SweepSegment(t, segment, size, found, h, now);
            var lo, hi := segment * size, (segment + 1) * size;
            && SweptView(ViewOf(t), ViewOf(u), h, lo, hi, IdsOf(found))
            && u == t.(slots := u.slots, outputs := u.outputs) && FlagsOnly(t.outputs, u.outputs)
            && u.slots == ReplaceSlots(t.slots, Foreign(found, RecordedIds(ViewOf(t), lo, hi)), segment, h)
  {
    hide ReplaceSlots, IdsOf, Foreign, RecordedIds, IsCanonical, SweptView, FlagsOnly, Unmark, Mark, Gone;
    var lo, hi := segment * size, (segment + 1) * size;
    var t1 := t.(slots := ReplaceSlots(t.slots, Foreign(found, RecordedIds(ViewOf(t), lo, hi)), segment, h));
    assert ViewOf(t1) == ViewOf(t) by { SlotsAreNotInTheView(t, t1); }
    GoneEffect(t1, h, lo, hi, IdsOf(found), now);
    var u := Unmark(t1, lo, hi, IdsOf(found));
    OnlyOutputsChange(t1, lo, hi, IdsOf(found), Gone(u, h, lo, hi, IdsOf(found)), now);
  }

  lemma SlotsAreNotInTheView(t: Tables, u: Tables)
    requires u == t.(slots := u.slots)
    ensures ViewOf(u) == ViewOf(t)
  {
    assert FlagsOnly(t.outputs, u.outputs);
    ViewAfterFlags(t, u);
  }

  /** The flagged output's coin was found live in its segment, and the output was recorded from a block. */
  ghost predicate FoundLive(t: Tables, k: RowKey, segment: nat, size: nat, found: seq<SlotRead>)
    requires k in t.outputs
  {
    && segment * size <= t.outputs[k].slot < (segment + 1) * size
    && (k.tx in t.txs ==> t.txs[k.tx].source != Some("receipt"))
    && exists i :: 0 <= i < |found| && t.outputs[k].creationId == Some(found[i].creationId)
  }

  /** The output counts, no input on record spends it up to `h`, and its segment was read without finding it. */
  ghost predicate FoundGone(t: Tables, k: RowKey, segment: nat, size: nat, found: seq<SlotRead>, h: nat)
    requires k in t.outputs
  {
    && segment * size <= t.outputs[k].slot < (segment + 1) * size && k in ViewOf(t).outputs && k.tx.block.height <= h
    && !OutputSpent(ViewOf(t), t.outputs[k], h)
    && !exists i :: 0 <= i < |found| && t.outputs[k].creationId == Some(found[i].creationId)
  }

  /** A flag and its time go together: one set now bears this time, one taken back none, and one that stays keeps its own. */
  lemma FlagsAndTimes(t: Tables, segment: nat, size: nat, found: seq<SlotRead>, h: nat, now: nat, k: RowKey)
    requires k in t.outputs
    ensures var u := SweepSegment(t, segment, size, found, h, now);
            var o := t.outputs[k];
            && k in u.outputs
            && u.outputs[k] == if o.spentInGap && FoundLive(t, k, segment, size, found) then o.(spentInGap := false, spentInGapAt := None)
                               else if !o.spentInGap && FoundGone(t, k, segment, size, found, h) then o.(spentInGap := true, spentInGapAt := Some(now))
                               else o
  {
    hide ReplaceSlots, ViewOf, RecordedIds, Foreign, LiveAfterAll, Gone, FoundLive, FoundGone, IdsOf;
    var lo, hi, live := segment * size, (segment + 1) * size, IdsOf(found);
    var t1 := t.(slots := ReplaceSlots(t.slots, Foreign(found, RecordedIds(ViewOf(t), lo, hi)), segment, h));
    SlotsAreNotInTheView(t, t1);
    LiveIsFound(t1, k, segment, size, found);
    GoneIsNotFound(t1, k, segment, size, found, h);
    SameFindings(t, t1, k, segment, size, found, h);
    NotBoth(t, k, segment, size, found, h);
  }

  lemma NotBoth(t: Tables, k: RowKey, segment: nat, size: nat, found: seq<SlotRead>, h: nat)
    requires k in t.outputs
    ensures !(FoundLive(t, k, segment, size, found) && FoundGone(t, k, segment, size, found, h))
  {
    hide ViewOf, OutputSpent;
  }

  lemma SameFindings(t: Tables, u: Tables, k: RowKey, segment: nat, size: nat, found: seq<SlotRead>, h: nat)
    requires k in t.outputs && u == t.(slots := u.slots) && ViewOf(u) == ViewOf(t)
    ensures FoundLive(u, k, segment, size, found) == FoundLive(t, k, segment, size, found)
    ensures FoundGone(u, k, segment, size, found, h) == FoundGone(t, k, segment, size, found, h)
  {
    hide ViewOf, OutputSpent;
  }

  lemma LiveIsFound(t: Tables, k: RowKey, segment: nat, size: nat, found: seq<SlotRead>)
    requires k in t.outputs
    ensures LiveAfterAll(t, k, segment * size, (segment + 1) * size, IdsOf(found)) <==> t.outputs[k].spentInGap && FoundLive(t, k, segment, size, found)
  {
  }

  lemma GoneIsNotFound(t: Tables, k: RowKey, segment: nat, size: nat, found: seq<SlotRead>, h: nat)
    requires k in t.outputs
    ensures var lo, hi, live := segment * size, (segment + 1) * size, IdsOf(found);
            var u := Unmark(t, lo, hi, live);
            k in Gone(u, h, lo, hi, live) <==> !u.outputs[k].spentInGap && FoundGone(t, k, segment, size, found, h)
  {
    hide IsCanonical, OutputSpent, ViewOf, LiveAfterAll;
    var lo, hi, live := segment * size, (segment + 1) * size, IdsOf(found);
    var u := Unmark(t, lo, hi, live);
    UnmarkedView(t, lo, hi, live, h, k);
    ViewRows(u, k);
    assert u.outputs[k] == t.outputs[k].(spentInGap := u.outputs[k].spentInGap, spentInGapAt := u.outputs[k].spentInGapAt);
    hide Unmark;
    SameCoinSpent(ViewOf(t), t.outputs[k], u.outputs[k], h);
  }

  lemma SameCoinSpent(v: View, a: OutputRow, b: OutputRow, h: nat)
    requires a.creationId == b.creationId
    ensures OutputSpent(v, a, h) == OutputSpent(v, b, h)
  {
  }

  lemma ViewRows(t: Tables, k: RowKey)
    ensures k in ViewOf(t).outputs ==> k in t.outputs && ViewOf(t).outputs[k] == t.outputs[k]
  {
    hide IsCanonical;
  }

  lemma UnmarkedView(t: Tables, lo: nat, hi: nat, live: set<string>, h: nat, k: RowKey)
    ensures var u := Unmark(t, lo, hi, live);
            && ViewOf(u).inputs == ViewOf(t).inputs && (k in ViewOf(u).outputs <==> k in ViewOf(t).outputs)
            && forall row :: OutputSpent(ViewOf(u), row, h) == OutputSpent(ViewOf(t), row, h)
  {
    UnmarkEffect(t, lo, hi, live);
    var u := Unmark(t, lo, hi, live);
    assert u == t.(outputs := u.outputs);
    ViewAfterFlags(t, u);
    hide ViewOf, FlagsOnly, Unmark;
    forall row ensures OutputSpent(ViewOf(u), row, h) == OutputSpent(ViewOf(t), row, h) {
      if row.creationId.Some? { SpentIgnoresOutputs(ViewOf(t), ViewOf(u), row.creationId.value, h); }
    }
  }

  /** The slots filed under the segment afterwards are the reads without a recorded output; the other segments' are as they were. */
  lemma OwnSlotsAre(t: Tables, segment: nat, size: nat, found: seq<SlotRead>, h: nat, now: nat, s: nat)
    requires DistinctSlots(found)
    ensures var u := SweepSegment(t, segment, size, found, h, now).slots;
            var recorded := RecordedIds(ViewOf(t), segment * size, (segment + 1) * size);
            && (forall i :: 0 <= i < |found| && found[i].slot == s && found[i].creationId !in recorded ==>
                  s in u && u[s] == SlotRow(segment, found[i].creationId, found[i].owner, AsI64(found[i].amount), h))
            && ((forall i :: 0 <= i < |found| && found[i].slot == s ==> found[i].creationId in recorded) ==>
                  (s in u <==> s in t.slots && t.slots[s].segment != segment) && (s in u ==> u[s] == t.slots[s]))
  {
    SweepEffect(t, segment, size, found, h, now);
    hide SweepSegment, RecordedIds, ViewOf, SweptView, AsI64;
    var recorded := RecordedIds(ViewOf(t), segment * size, (segment + 1) * size);
    var f := Foreign(found, recorded);
    ForeignReads(found, recorded);
    ForeignDistinct(found, recorded);
    forall i | 0 <= i < |found| && found[i].slot == s && found[i].creationId !in recorded
      ensures s in InsertSlots(WithoutSegment(t.slots, segment), f, segment, h)
      ensures InsertSlots(WithoutSegment(t.slots, segment), f, segment, h)[s] == SlotRowOf(found[i], segment, h)
    {
      assert found[i] in f;
      var j :| 0 <= j < |f| && f[j] == found[i];
      InsertedAt(WithoutSegment(t.slots, segment), f, segment, h, j);
    }
    if forall i :: 0 <= i < |found| && found[i].slot == s ==> found[i].creationId in recorded {
      forall j | 0 <= j < |f| ensures f[j].slot != s { assert f[j] in f; }
      NotInserted(WithoutSegment(t.slots, segment), f, segment, h, s);
    }
  }
}
