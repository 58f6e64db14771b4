/**
  State pressure and the least burn up to the next expansion (core/src/fees.rs,
  `pressure_thresholds` and `min_burn_bands` in permanode/src/serve.rs).
 */
module Fees {
  import opened Wrappers
  import opened Emission
  import opened Arith

  const STATE_GROWTH_FEE_BASE := 2_500
  const PRESSURE_LOW_BPS := 5_000
  const PRESSURE_HIGH_BPS := 7_500
  const PRESSURE_EXTREME_BPS := 9_000
  const U64 := 0x1_0000_0000_0000_0000
  const U128_MAX := 0xFFFF_FFFF_FFFF_FFFF_FFFF_FFFF_FFFF_FFFF

  /** Occupancy in basis points; the quotient is cast to 64 bits. */
  function OccupancyBps(active: nat, logSlots: nat): nat {
    var capacity := if logSlots < 128 then Pow2(logSlots) else U128_MAX;
    Cast64(Min(active * 10_000, U128_MAX) / capacity)
  }

  function Cast64(x: int): nat {
    x % U64
  }

  function PressureMultiplier(active: nat, logSlots: nat): nat {
    var bps := OccupancyBps(active, logSlots);
    if bps >= PRESSURE_EXTREME_BPS then 8
    else if bps >= PRESSURE_HIGH_BPS then 4
    else if bps >= PRESSURE_LOW_BPS then 2
    else 1
  }

  function StateGrowthFee(active: nat, logSlots: nat): nat {
    STATE_GROWTH_FEE_BASE * PressureMultiplier(active, logSlots)
  }

  datatype Threshold = Threshold(pct: nat, slots: nat, multiplier: nat)

  function CeilDiv(n: nat, d: nat): nat
    requires d > 0
  {
    (n + d - 1) / d
  }

  function ThresholdAt(capacity: nat, bps: nat, multiplier: nat): Threshold {
    Threshold(bps / 100, CeilDiv(capacity * bps, 10_000), multiplier)
  }

  function PressureThresholds(capacity: nat): seq<Threshold> {
    [ThresholdAt(capacity, PRESSURE_LOW_BPS, 2), ThresholdAt(capacity, PRESSURE_HIGH_BPS, 4), ThresholdAt(capacity, PRESSURE_EXTREME_BPS, 8)]
  }

  /** The multiplier of the last threshold reached, 1 below the first. */
  ghost function TierMultiplier(thresholds: seq<Threshold>, active: nat): nat {
    if thresholds == [] then 1
    else if active >= thresholds[|thresholds| - 1].slots then thresholds[|thresholds| - 1].multiplier
    else TierMultiplier(thresholds[..|thresholds| - 1], active)
  }

  lemma {:induction false} PowBelow(n: nat, m: nat)
    requires n <= m
    ensures Pow2(n) <= Pow2(m)
    decreases m
  {
    if n < m { PowBelow(n, m - 1); }
  }

  /** Occupancy in basis points before the cast to 64 bits. */
  function Bps(active: nat, logSlots: nat): int {
    active * 10_000 / Pow2(logSlots)
  }

  /**
    The multiplier changes exactly at the published slot counts, for every state size
    and count, unless the basis points pass 64 bits and wrap to below the highest band.
   */
  lemma MultiplierChangesAtThresholds(active: nat, logSlots: nat)
    requires logSlots < 64 && active < U64
    ensures PressureMultiplier(active, logSlots) == TierMultiplier(PressureThresholds(Pow2(logSlots)), active)
            <==> Bps(active, logSlots) < U64 || Bps(active, logSlots) % U64 >= PRESSURE_EXTREME_BPS
  {
    hide Pow2, Bps, Cast64;
    OccupancyIsCast(active, logSlots);
    BpsReaches(active, logSlots, 0);
    if Bps(active, logSlots) < U64 { SmallCast(Bps(active, logSlots)); }
    CastIs(Bps(active, logSlots));
    BpsReaches(active, logSlots, PRESSURE_EXTREME_BPS);
    BpsReaches(active, logSlots, PRESSURE_HIGH_BPS);
    BpsReaches(active, logSlots, PRESSURE_LOW_BPS);
    hide OccupancyBps, CeilDiv;
    TierOfThree(PressureThresholds(Pow2(logSlots)), active);
  }

  /** Nothing wraps up to the capacity, and from 2^14 slots on no 64-bit count does. */
  lemma NothingWraps(active: nat, logSlots: nat)
    requires logSlots < 64 && active < U64 && (active <= Pow2(logSlots) || logSlots >= 14)
    ensures Bps(active, logSlots) < U64
    ensures PressureMultiplier(active, logSlots) == TierMultiplier(PressureThresholds(Pow2(logSlots)), active)
  {
    hide Bps;
    if active <= Pow2(logSlots) {
      AtMostFull(active, Pow2(logSlots));
    } else {
      PowBelow(14, logSlots);
      LargeState(active, Pow2(logSlots));
    }
    BpsIs(active, logSlots);
    MultiplierChangesAtThresholds(active, logSlots);
  }

  lemma BpsIs(active: nat, logSlots: nat)
    ensures Bps(active, logSlots) == active * 10_000 / Pow2(logSlots)
  {
  }

  lemma LargeState(active: nat, capacity: nat)
    requires active < U64 && capacity >= Pow2(14)
    ensures active * 10_000 / capacity < U64
  {
    assert Pow2(14) == 16_384 by { assert Pow2(7) == 128; PowAdd(7, 7); }
    DivReaches(active * 10_000, capacity, U64);
    MulMono(16_384, capacity, U64);
    Commute(capacity, U64);
  }

  lemma OccupancyIsCast(active: nat, logSlots: nat)
    requires logSlots < 64 && active < U64
    ensures OccupancyBps(active, logSlots) == Cast64(Bps(active, logSlots))
  {
    hide Pow2, Cast64;
  }

  lemma CastIs(x: int)
    ensures Cast64(x) == x % U64
  {
  }

  lemma BpsReaches(active: nat, logSlots: nat, bps: nat)
    ensures Bps(active, logSlots) >= bps <==> active >= CeilDiv(Pow2(logSlots) * bps, 10_000)
  {
    var capacity := Pow2(logSlots);
    CeilReaches(capacity * bps, active);
    Commute(bps, capacity);
    DivReaches(active * 10_000, capacity, bps);
    hide Pow2, CeilDiv;
  }

  lemma AtMostFull(active: nat, capacity: nat)
    requires 0 < capacity && active <= capacity
    ensures active * 10_000 / capacity < U64
  {
    DivReaches(active * 10_000, capacity, U64);
    MulMono(10_001, U64, capacity);
  }

  lemma SmallCast(x: int)
    requires 0 <= x < U64
    ensures Cast64(x) == x
  {
  }

  lemma CeilReaches(n: nat, x: nat)
    ensures x >= CeilDiv(n, 10_000) <==> x * 10_000 >= n
  {
  }

  lemma TierOfThree(ts: seq<Threshold>, active: nat)
    requires |ts| == 3
    ensures TierMultiplier(ts, active)
         == if active >= ts[2].slots then ts[2].multiplier else if active >= ts[1].slots then ts[1].multiplier
            else if active >= ts[0].slots then ts[0].multiplier else 1
  {
    assert ts[..2][..1] == ts[..1] && ts[..1][..0] == [];
    assert TierMultiplier(ts[..1], active) == if active >= ts[0].slots then ts[0].multiplier else 1;
    assert TierMultiplier(ts[..2], active) == if active >= ts[1].slots then ts[1].multiplier else TierMultiplier(ts[..1], active);
  }

  /** The published counts are the least that reach half, three quarters and nine tenths of the capacity. */
  lemma ThresholdsPublished(capacity: nat, active: nat)
    ensures var ts := PressureThresholds(capacity);
            && |ts| == 3 && ts[0].pct == 50 && ts[1].pct == 75 && ts[2].pct == 90
            && ts[0].multiplier == 2 && ts[1].multiplier == 4 && ts[2].multiplier == 8
            && (active >= ts[0].slots <==> 2 * active >= capacity) && (active >= ts[1].slots <==> 4 * active >= 3 * capacity)
            && (active >= ts[2].slots <==> 10 * active >= 9 * capacity)
  {
    CeilReaches(capacity * PRESSURE_LOW_BPS, active);
    CeilReaches(capacity * PRESSURE_HIGH_BPS, active);
    CeilReaches(capacity * PRESSURE_EXTREME_BPS, active);
  }

  /** A new slot costs 2500, and twice, four or eight times that from half, three quarters and nine tenths of the capacity on. */
  lemma FeeByOccupancy(active: nat, logSlots: nat)
    requires logSlots < 64 && active < U64 && (active <= Pow2(logSlots) || logSlots >= 14)
    ensures var capacity := Pow2(logSlots);
            StateGrowthFee(active, logSlots)
            == if 10 * active >= 9 * capacity then 20_000 else if 4 * active >= 3 * capacity then 10_000 else if 2 * active >= capacity then 5_000 else 2_500
  {
    hide Pow2, PressureMultiplier, PressureThresholds;
    NothingWraps(active, logSlots);
    ThresholdsPublished(Pow2(logSlots), active);
    TierOfThree(PressureThresholds(Pow2(logSlots)), active);
  }

  /** Such a wrap: in a state of four slots, smaller than any this chain has, a count far above them reads as empty. */
  lemma WrappedOccupancyReadsEmpty()
    ensures PressureMultiplier(0x4000_0000_0000_0000, 2) == 1
    ensures TierMultiplier(PressureThresholds(Pow2(2)), 0x4000_0000_0000_0000) == 8
  {
    assert Pow2(2) == 4;
    assert OccupancyBps(0x4000_0000_0000_0000, 2) == 0;
    TierOfThree(PressureThresholds(4), 0x4000_0000_0000_0000);
  }

  // ---------------------------------------------------------------- the least burn to the next expansion

  datatype Band = Band(fromPct: nat, toPct: nat, multiplier: nat, slotsToFill: nat, perSlot: nat, burn: nat)

  function ReachedBelow(thresholds: seq<Threshold>, limit: nat): seq<(nat, nat)> {
    if thresholds == [] then [] else
      (if thresholds[0].slots < limit then [(thresholds[0].pct, thresholds[0].slots)] else []) + ReachedBelow(thresholds[1..], limit)
  }

  /** What filling the slots `active..limit` burns, one slot at a time. */
  ghost function SlotBySlot(active: nat, limit: nat, logSlots: nat): nat {
    if limit <= active then 0 else SlotBySlot(active, limit - 1, logSlots) + StateGrowthFee(limit - 1, logSlots)
  }

  ghost function TotalBurn(bands: seq<Band>): nat {
    if bands == [] then 0 else TotalBurn(bands[..|bands| - 1]) + bands[|bands| - 1].burn
  }

  ghost function TotalSlots(bands: seq<Band>): nat {
    if bands == [] then 0 else TotalSlots(bands[..|bands| - 1]) + bands[|bands| - 1].slotsToFill
  }

  /** The bands run from empty to three quarters full without a hole, each at its own price. */
  ghost predicate BandsRunUp(bands: seq<Band>, toPct: nat) {
    && (bands != [] ==> bands[0].fromPct == 0 && bands[|bands| - 1].toPct == toPct)
    && (forall i :: 0 <= i < |bands| - 1 ==> bands[i].toPct == bands[i + 1].fromPct)
    && (forall b :: b in bands ==> Priced(b))
  }

  ghost predicate Priced(b: Band) {
    b.burn == b.slotsToFill * b.perSlot && b.perSlot == STATE_GROWTH_FEE_BASE * b.multiplier
  }

  lemma {:induction false} ConstantFeeBand(active: nat, lo: nat, hi: nat, logSlots: nat, fee: nat)
    requires lo <= hi
    requires forall s: nat :: lo <= s < hi ==> StateGrowthFee(s, logSlots) == fee
    ensures SlotBySlot(active, hi, logSlots) == SlotBySlot(active, lo, logSlots) + Max(hi - Max(active, lo), 0) * fee
    decreases hi
  {
    hide StateGrowthFee;
    if lo < hi {
      ConstantFeeBand(active, lo, hi - 1, logSlots, fee);
      if hi > active {
        var n := hi - 1 - Max(active, lo);
        assert (n + 1) * fee == n * fee + fee;
      }
    }
  }

  /** Below the expansion threshold there are at most the bands up to and from half occupancy. */
  lemma BoundsBelowExpansion(capacity: nat)
    requires capacity >= 1
    ensures var limit := capacity / 4 * 3;
            ReachedBelow(PressureThresholds(capacity), limit)
            == if CeilDiv(capacity * PRESSURE_LOW_BPS, 10_000) < limit then [(50, CeilDiv(capacity * PRESSURE_LOW_BPS, 10_000))] else []
  {
    var ts := PressureThresholds(capacity);
    var limit := capacity / 4 * 3;
    assert ts[1].slots >= limit && ts[2].slots >= limit;
    assert ReachedBelow(ts[1..][1..][1..], limit) == [];
    assert ts[1..][1] == ts[2];
    assert ReachedBelow(ts[1..][1..], limit) == [];
    assert ReachedBelow(ts[1..], limit) == [];
  }

  lemma FeeBelowExpansion(s: nat, logSlots: nat)
    requires logSlots < 64 && s < Pow2(logSlots) / 4 * 3
    ensures StateGrowthFee(s, logSlots)
         == if s >= CeilDiv(Pow2(logSlots) * PRESSURE_LOW_BPS, 10_000) then 2 * STATE_GROWTH_FEE_BASE else STATE_GROWTH_FEE_BASE
  {
    hide Pow2, PressureMultiplier, Bps;
    CapacityFits(logSlots);
    NothingWraps(s, logSlots);
    TierOfThree(PressureThresholds(Pow2(logSlots)), s);
  }

  lemma CapacityFits(logSlots: nat)
    requires logSlots < 64
    ensures Pow2(logSlots) < U64
  {
    PowBelow(logSlots, 63);
    LargestCapacity();
  }

  lemma LargestCapacity()
    ensures Pow2(63) == 0x8000_0000_0000_0000
  {
    assert Pow2(8) == 256;
    assert Pow2(16) == 65_536 by { PowAdd(8, 8); }
    assert Pow2(32) == 0x1_0000_0000 by { PowAdd(16, 16); }
    assert Pow2(48) == 0x1_0000_0000_0000 by { PowAdd(32, 16); }
    assert Pow2(56) == 0x100_0000_0000_0000 by { PowAdd(48, 8); }
    assert Pow2(7) == 128;
    PowAdd(56, 7);
  }

  lemma {:induction false} PowAdd(a: nat, b: nat)
    ensures Pow2(a + b) == Pow2(a) * Pow2(b)
  {
    if a > 0 {
      PowAdd(a - 1, b);
    }
  }

  /** The bands together burn what filling the state slot by slot up to the threshold burns. */
  method MinBurnBands(active: nat, logSlots: nat) returns (bands: seq<Band>)
    requires logSlots < 64
    ensures TotalBurn(bands) == SlotBySlot(active, Pow2(logSlots) / 4 * 3, logSlots)
    ensures TotalSlots(bands) == Max(Pow2(logSlots) / 4 * 3 - active, 0)
    ensures bands != [] && BandsRunUp(bands, PRESSURE_HIGH_BPS / 100)
  {
    hide Priced, Pow2, StateGrowthFee, SlotBySlot, PressureThresholds, ReachedBelow, CeilDiv, PressureMultiplier, TotalBurn, TotalSlots, BandsRunUp;
    NoBands();
    var capacity := Pow2(logSlots);
    var limit := capacity / 4 * 3;
    var half := CeilDiv(capacity * PRESSURE_LOW_BPS, 10_000);
    BoundsBelowExpansion(capacity);
    var bounds := [(0, 0)] + ReachedBelow(PressureThresholds(capacity), limit);
    bands := [];
    assert SlotBySlot(active, 0, logSlots) == 0 by { NothingToFill(active, logSlots); }
    for i := 0 to |bounds|
      invariant TotalBurn(bands) == SlotBySlot(active, if i < |bounds| then bounds[i].1 else limit, logSlots)
      invariant |bands| == i && TotalSlots(bands) == Max((if i < |bounds| then bounds[i].1 else limit) - active, 0)
      invariant BandsRunUp(bands, if i < |bounds| then bounds[i].0 else PRESSURE_HIGH_BPS / 100)
    {
      var (fromPct, fromSlots) := bounds[i];
      var (toPct, toSlots) := if i + 1 < |bounds| then bounds[i + 1] else (PRESSURE_HIGH_BPS / 100, limit);
      var lo := Max(active, fromSlots);
      var slotsToFill := Max(toSlots - lo, 0);
      var perSlot := StateGrowthFee(fromSlots, logSlots);
      BandFee(logSlots, fromSlots, toSlots);
      ConstantFeeBand(active, fromSlots, toSlots, logSlots, perSlot);
      var band := Band(fromPct, toPct, PressureMultiplier(fromSlots, logSlots), slotsToFill, perSlot, slotsToFill * perSlot);
      BandIsPriced(band, fromSlots, logSlots);
      BandAppended(bands, band);
      RestToFill(active, fromSlots, toSlots);
      bands := bands + [band];
    }
  }

  lemma BandAppended(bands: seq<Band>, band: Band)
    requires BandsRunUp(bands, band.fromPct) && Priced(band) && (bands == [] ==> band.fromPct == 0)
    ensures TotalBurn(bands + [band]) == TotalBurn(bands) + band.burn
    ensures TotalSlots(bands + [band]) == TotalSlots(bands) + band.slotsToFill
    ensures BandsRunUp(bands + [band], band.toPct)
  {
    hide Priced;
    assert (bands + [band])[..|bands|] == bands;
  }

  lemma RestToFill(active: nat, lo: nat, hi: nat)
    requires lo <= hi
    ensures Max(lo - active, 0) + Max(hi - Max(active, lo), 0) == Max(hi - active, 0)
  {
  }

  lemma NoBands()
    ensures TotalBurn([]) == 0 && TotalSlots([]) == 0 && BandsRunUp([], 0)
  {
  }

  lemma NothingToFill(active: nat, logSlots: nat)
    ensures SlotBySlot(active, 0, logSlots) == 0
  {
  }

  lemma BandIsPriced(b: Band, s: nat, logSlots: nat)
    requires b.burn == b.slotsToFill * b.perSlot && b.perSlot == StateGrowthFee(s, logSlots) && b.multiplier == PressureMultiplier(s, logSlots)
    ensures Priced(b)
  {
  }

  /** Within one band below the threshold every slot costs what its lower edge costs. */
  lemma BandFee(logSlots: nat, lo: nat, hi: nat)
    requires logSlots < 64 && hi <= Pow2(logSlots) / 4 * 3
    requires lo <= hi
    requires var half := CeilDiv(Pow2(logSlots) * PRESSURE_LOW_BPS, 10_000); hi <= half || lo >= half
    ensures forall s: nat :: lo <= s < hi ==> StateGrowthFee(s, logSlots) == StateGrowthFee(lo, logSlots)
  {
    hide StateGrowthFee, Pow2, CeilDiv;
    forall s: nat | lo <= s < hi
      ensures StateGrowthFee(s, logSlots) == StateGrowthFee(lo, logSlots)
    {
      FeeBelowExpansion(s, logSlots);
      FeeBelowExpansion(lo, logSlots);
    }
  }
}
