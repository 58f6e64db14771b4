/**
  What an address's figures stand for (core/src/queries.rs, `address_balance` and
  `balance_changes_by_hour`): the confirmed balance is the recorded part of the sweep's
  live picture, and an hour's change is what the blocks of that hour moved.
 */
module BalanceLaws {
  import opened Wrappers
  import opened Sums
  import opened Tables
  import opened View
  import opened Figures
  import opened Balances

  // ---------------------------------------------------------------- the balance and the live picture

  lemma NeverSpent(v: View, k: RowKey, h: nat)
    requires k in v.outputs && NothingAbove(v, h)
    ensures IsSpent(v, k) <==> OutputSpent(v, v.outputs[k], h)
  {
  }

  /** The confirmed coins are the recorded outputs of the live picture, the flagged ones those left out for their flag alone. */
  lemma ConfirmedIsLive(v: View, address: string, h: nat)
    requires NothingAbove(v, h)
    ensures forall k :: k in UnspentRows(v, address, false) <==> LiveOutput(v, k, h) && v.outputs[k].owner == address
    ensures forall k :: k in UnspentRows(v, address, true) <==>
              k in v.outputs && v.outputs[k].owner == address && v.outputs[k].spentInGap && !OutputSpent(v, v.outputs[k], h)
    ensures forall k, flagged :: k in UnspentRows(v, address, flagged) ==> UnspentRows(v, address, flagged)[k] == v.outputs[k].amount
  {
    hide IsSpent, OutputSpent;
    forall k | k in v.outputs ensures IsSpent(v, k) <==> OutputSpent(v, v.outputs[k], h) { NeverSpent(v, k, h); }
  }

  /** The sweep's own slots of an address that are not spent on record. */
  function OwnRows(v: View, slots: map<nat, SlotRow>, h: nat, owner: string): map<nat, int> {
    map s | s in slots && LiveSlot(v, slots, s, h) && slots[s].owner == owner :: AsU128(slots[s].amount)
  }

  /** What an address holds in the live picture is its confirmed balance and what the sweep found besides. */
  lemma LiveBalanceIsConfirmedAndOwn(t: Tables, owner: string)
    requires NothingAbove(ViewOf(t), I64_MAX)
    requires forall k :: k in ViewOf(t).outputs ==> 0 <= ViewOf(t).outputs[k].amount <= I64_MAX
    ensures var v := ViewOf(t);
            && Total(OwnerRows(v, t.slots, I64_MAX, owner)) == BalanceOf(t, owner).confirmed + Total(OwnRows(v, t.slots, I64_MAX, owner))
            && |OwnerRows(v, t.slots, I64_MAX, owner)| == BalanceOf(t, owner).confirmedUtxos + |OwnRows(v, t.slots, I64_MAX, owner)|
  {
    hide ViewOf, Total, OwnerRows, OwnRows, ReceivedRows, SentTxs, UnrecordedInputs, UnspentRows;
    LivePartsAddUp(ViewOf(t), t.slots, owner);
  }

  lemma LivePartsAddUp(v: View, slots: map<nat, SlotRow>, owner: string)
    requires NothingAbove(v, I64_MAX) && forall k :: k in v.outputs ==> 0 <= v.outputs[k].amount <= I64_MAX
    ensures Total(OwnerRows(v, slots, I64_MAX, owner)) == Total(UnspentRows(v, owner, false)) + Total(OwnRows(v, slots, I64_MAX, owner))
    ensures |OwnerRows(v, slots, I64_MAX, owner)| == |UnspentRows(v, owner, false)| + |OwnRows(v, slots, I64_MAX, owner)|
  {
    hide Total, LiveOutput, LiveSlot, UnspentRows;
    ConfirmedIsLive(v, owner, I64_MAX);
    PictureMembers(v, slots, I64_MAX);
    var rows, confirmed, own := OwnerRows(v, slots, I64_MAX, owner), UnspentRows(v, owner, false), OwnRows(v, slots, I64_MAX, owner);
    var a := map row | row in rows && row.Recorded? :: rows[row];
    var b := map row | row in rows && row.Own? :: rows[row];
    RecordedPart(v, slots, owner, a, confirmed);
    OwnPart(v, slots, owner, b, own);
    Joined(rows, a, b);
  }

  lemma Joined(rows: map<PictureRow, int>, a: map<PictureRow, int>, b: map<PictureRow, int>)
    requires a == (map row | row in rows && row.Recorded? :: rows[row]) && b == (map row | row in rows && row.Own? :: rows[row])
    ensures Total(rows) == Total(a) + Total(b) && |rows| == |a| + |b|
  {
    hide Total;
    BothKinds(rows, a, b);
    TotalDisjoint(a, b);
    assert |a.Keys + b.Keys| == |a.Keys| + |b.Keys|;
  }

  lemma BothKinds(rows: map<PictureRow, int>, a: map<PictureRow, int>, b: map<PictureRow, int>)
    requires a == (map row | row in rows && row.Recorded? :: rows[row]) && b == (map row | row in rows && row.Own? :: rows[row])
    ensures a.Keys !! b.Keys && rows == a + b && rows.Keys == a.Keys + b.Keys
  {
  }

  lemma RecordedPart(v: View, slots: map<nat, SlotRow>, owner: string, a: map<PictureRow, int>, confirmed: map<RowKey, int>)
    requires NothingAbove(v, I64_MAX) && forall k :: k in v.outputs ==> 0 <= v.outputs[k].amount <= I64_MAX
    requires a == map row | row in OwnerRows(v, slots, I64_MAX, owner) && row.Recorded? :: OwnerRows(v, slots, I64_MAX, owner)[row]
    requires confirmed == UnspentRows(v, owner, false)
    ensures Total(a) == Total(confirmed) && |a| == |confirmed|
  {
    hide Total, LiveOutput, LiveSlot, UnspentRows;
    ConfirmedIsLive(v, owner, I64_MAX);
    hide NothingAbove;
    RecordedMembers(v, slots, owner);
    hide OwnerRows;
    var pair := map k | k in confirmed :: Recorded(k);
    forall row | row in a ensures Hit(confirmed, pair, row) { assert row.key in confirmed && pair[row.key] == row; }
    TotalPaired(confirmed, a, pair);
    SameSize(confirmed.Keys, a.Keys, pair);
  }

  lemma RecordedMembers(v: View, slots: map<nat, SlotRow>, owner: string)
    requires forall k :: k in v.outputs ==> 0 <= v.outputs[k].amount <= I64_MAX
    ensures var rows := OwnerRows(v, slots, I64_MAX, owner);
            && (forall k :: Recorded(k) in rows <==> LiveOutput(v, k, I64_MAX) && v.outputs[k].owner == owner)
            && (forall k :: Recorded(k) in rows ==> rows[Recorded(k)] == v.outputs[k].amount)
  {
    hide OutputSpent, LiveSlot;
    PictureMembers(v, slots, I64_MAX);
    hide Picture;
  }

  lemma OwnMembers(v: View, slots: map<nat, SlotRow>, owner: string)
    ensures var rows := OwnerRows(v, slots, I64_MAX, owner);
            && (forall s :: Own(s) in rows <==> s in slots && LiveSlot(v, slots, s, I64_MAX) && slots[s].owner == owner)
            && (forall s :: Own(s) in rows ==> rows[Own(s)] == AsU128(slots[s].amount))
  {
    hide LiveOutput, Spent, AsU128;
    PictureMembers(v, slots, I64_MAX);
    hide Picture;
  }

  lemma OwnPart(v: View, slots: map<nat, SlotRow>, owner: string, b: map<PictureRow, int>, own: map<nat, int>)
    requires b == map row | row in OwnerRows(v, slots, I64_MAX, owner) && row.Own? :: OwnerRows(v, slots, I64_MAX, owner)[row]
    requires own == OwnRows(v, slots, I64_MAX, owner)
    ensures Total(b) == Total(own) && |b| == |own|
  {
    hide Total, LiveOutput, LiveSlot;
    OwnMembers(v, slots, owner);
    hide OwnerRows;
    var pair := map s: nat | s in own :: Own(s);
    forall row | row in b ensures Hit(own, pair, row) { assert row.slot in own && pair[row.slot] == row; }
    TotalPaired<nat, PictureRow>(own, b, pair);
    SameSize(own.Keys, b.Keys, pair);
  }

  // ---------------------------------------------------------------- changes per hour

  /** The instant falls into the hour that begins there; counted toward zero, so the hour of 0 takes the one before it too. */
  predicate Within(timestamp: int, hour: int) {
    && hour % 3600 == 0
    && if hour > 0 then hour <= timestamp < hour + 3600
       else if hour == 0 then -3600 < timestamp < 3600
       else hour - 3600 < timestamp <= hour
  }

  lemma HourMeans(timestamp: int, hour: int)
    ensures HourOf(timestamp) == hour <==> Within(timestamp, hour)
  {
    var q := if timestamp >= 0 then timestamp / 3600 else (-timestamp) / 3600;
    assert HourOf(timestamp) == if timestamp >= 0 then q * 3600 else -(q * 3600);
    if Within(timestamp, hour) {
      var n := hour / 3600;
      assert hour == n * 3600;
    }
  }

  /** Outputs of the address in canonical blocks of the hour. */
  function ReceivedWithin(t: Tables, address: string, hour: int): map<RowKey, int> {
    var v := ViewOf(t);
    map k | k in v.outputs && v.outputs[k].owner == address && Within(t.blocks[k.tx.block].timestamp, hour) :: v.outputs[k].amount
  }

  function SentWithin(t: Tables, address: string, hour: int): map<TxKey, int> {
    var v := ViewOf(t);
    map k | k in v.txs && v.txs[k].inputOwner == Some(address) && Within(t.blocks[k.block].timestamp, hour) :: CastInteger(v.txs[k].inputSum)
  }

  /** Outputs of the address that a sweep of the hour found gone. */
  function FoundGoneWithin(t: Tables, address: string, hour: int): map<RowKey, int> {
    var v := ViewOf(t);
    map k | k in v.outputs && v.outputs[k].owner == address && v.outputs[k].spentInGap && v.outputs[k].spentInGapAt.Some?
            && Within(v.outputs[k].spentInGapAt.value, hour) :: v.outputs[k].amount
  }

  /** An hour's change is what blocks of that hour brought the address, less what they took from it and what was found gone in it. */
  lemma HourlyChangeIs(t: Tables, address: string, hour: int)
    ensures Change(t, address, hour) ==
            Total(ReceivedWithin(t, address, hour)) - Total(SentWithin(t, address, hour)) - Total(FoundGoneWithin(t, address, hour))
  {
    hide Total, InHour, ReceivedMoves, SentMoves, FlaggedMoves, ReceivedWithin, SentWithin, FoundGoneWithin;
    ReceivedInHour(t, address, hour);
    SentInHour(t, address, hour);
    GoneInHour(t, address, hour);
  }

  lemma ReceivedInHour(t: Tables, address: string, hour: int)
    ensures InHour(ReceivedMoves(t, address), hour) == ReceivedWithin(t, address, hour)
  {
    hide ViewOf, HourOf, Within;
    forall ts ensures HourOf(ts) == hour <==> Within(ts, hour) { HourMeans(ts, hour); }
  }

  lemma SentInHour(t: Tables, address: string, hour: int)
    ensures InHour(SentMoves(t, address), hour) == SentWithin(t, address, hour)
  {
    hide ViewOf, HourOf, Within, CastInteger;
    forall ts ensures HourOf(ts) == hour <==> Within(ts, hour) { HourMeans(ts, hour); }
  }

  lemma GoneInHour(t: Tables, address: string, hour: int)
    ensures InHour(FlaggedMoves(t, address), hour) == FoundGoneWithin(t, address, hour)
  {
    hide ViewOf, HourOf, Within;
    forall ts ensures HourOf(ts) == hour <==> Within(ts, hour) { HourMeans(ts, hour); }
  }
}
