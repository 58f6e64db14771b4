/**
  The emission schedule (core/src/emission.rs): two eras selected by height, nine
  v2 tiers, a development allocation with its own payout rhythm in each era.
  The closed forms are proved equal to a block-by-block sum.
 */
module Emission {
  import opened Wrappers

  const BASE_REWARD := 50_000_000
  const FLOOR_REWARD := 1_000_000
  const LOG_SLOTS_GENESIS := 24
  const LEGACY_BLOCK_TIME := 20
  const V2_BLOCK_TIME := 30
  const V2_ACTIVATION_HEIGHT := 210_537
  const BLOCKS_PER_DAY := 4320
  const V2_BLOCKS_PER_DAY := 2880
  const V2_REWARD_INTERVAL_BLOCKS := 1_051_200
  const V2_REWARDS: seq<nat> :=
    [16_000_000, 11_300_000, 8_000_000, 5_650_000, 4_000_000, 2_830_000, 2_000_000, 1_410_000, 1_000_000]
  const ALLOCATION_SECONDS := 86_400 * 365 * 3
  const LEGACY_ALLOCATION_END_HEIGHT := 4_730_400
  const ALLOCATION_END_HEIGHT := 3_223_778
  const SHARE_DENOMINATOR := 20

  predicate V2Active(height: nat) {
    height >= V2_ACTIVATION_HEIGHT
  }

  function BlockTimeAt(height: nat): nat {
    if V2Active(height) then V2_BLOCK_TIME else LEGACY_BLOCK_TIME
  }

  function TargetSecondsBetween(from: nat, to: nat): nat {
    if to <= from then 0 else
      var lastLegacy := V2_ACTIVATION_HEIGHT - 1;
      var legacy := Max(Min(to, lastLegacy) - from, 0);
      var v2 := to - from - legacy;
      legacy * LEGACY_BLOCK_TIME + v2 * V2_BLOCK_TIME
  }

  function Pow2(n: nat): (p: nat)
    ensures p >= 1
  {
    if n == 0 then 1 else 2 * Pow2(n - 1)
  }

  /** The legacy subsidy: halved once per state expansion, never below the floor. */
  function BlockReward(logSlots: nat): nat {
    var halvings := Max(logSlots - LOG_SLOTS_GENESIS, 0);
    Max(BASE_REWARD / Pow2(Min(halvings, 63)), FLOOR_REWARD)
  }

  function V2Tier(height: nat): (tier: nat)
    requires V2Active(height)
    ensures tier < |V2_REWARDS|
  {
    Min((height - V2_ACTIVATION_HEIGHT) / V2_REWARD_INTERVAL_BLOCKS, |V2_REWARDS| - 1)
  }

  function TierFirstHeight(tier: nat): nat {
    V2_ACTIVATION_HEIGHT + tier * V2_REWARD_INTERVAL_BLOCKS
  }

  function BlockRewardAt(height: nat, logSlots: nat): nat {
    if V2Active(height) then V2_REWARDS[V2Tier(height)] else BlockReward(logSlots)
  }

  datatype Allocation = Allocation(active: bool, payoutDue: bool, shareEach: nat, payoutEach: Option<nat>, minerSubsidy: nat)

  /** The node's development allocation for one block. */
  function AllocationAt(height: nat, logSlots: nat): Allocation {
    var subsidy := BlockRewardAt(height, logSlots);
    var inactive := Allocation(false, false, 0, None, subsidy);
    var shareEach := subsidy / SHARE_DENOMINATOR;
    if !V2Active(height) then
      if height == 0 || height > LEGACY_ALLOCATION_END_HEIGHT then inactive else
        var payoutDue := height % BLOCKS_PER_DAY == 0;
        Allocation(true, payoutDue, shareEach, if payoutDue then Some(shareEach * BLOCKS_PER_DAY) else None, subsidy - 2 * shareEach)
    else if height > ALLOCATION_END_HEIGHT then inactive
    else
      var count := PayoutBlocksCovered(height);
      Allocation(true, count.Some?, shareEach, if count.Some? then Some(shareEach * count.value) else None, subsidy - 2 * shareEach)
  }

  /** How many v2 blocks the payout at `height` covers, if one is due. */
  function PayoutBlocksCovered(height: nat): Option<nat>
    requires V2Active(height)
  {
    var elapsed := height - (V2_ACTIVATION_HEIGHT - 1);
    if height == V2_ACTIVATION_HEIGHT then None
    else if elapsed % V2_BLOCKS_PER_DAY == 0 then Some(V2_BLOCKS_PER_DAY)
    else if height == ALLOCATION_END_HEIGHT then Some(elapsed % V2_BLOCKS_PER_DAY)
    else None
  }

  predicate PayoutDue(height: nat) {
    AllocationAt(height, LOG_SLOTS_GENESIS).payoutDue
  }

  function FinalPartialPayoutBlocks(): nat {
    (ALLOCATION_END_HEIGHT - (V2_ACTIVATION_HEIGHT - 1)) % V2_BLOCKS_PER_DAY
  }

  function V2RegularPayoutsIn(lo0: nat, hi0: nat): nat {
    var base := V2_ACTIVATION_HEIGHT - 1;
    var hi := Min(hi0, ALLOCATION_END_HEIGHT);
    var lo := Max(lo0, V2_ACTIVATION_HEIGHT);
    if hi < lo then 0 else
      var kMax := (hi - base) / V2_BLOCKS_PER_DAY;
      var kMin := (lo - base + V2_BLOCKS_PER_DAY - 1) / V2_BLOCKS_PER_DAY;
      Max(kMax + 1 - kMin, 0)
  }

  function PayoutBlocksUpTo(height: nat): nat {
    var legacy := Min(height, V2_ACTIVATION_HEIGHT - 1) / BLOCKS_PER_DAY;
    var v2 := V2RegularPayoutsIn(V2_ACTIVATION_HEIGHT, height);
    legacy + v2 + (if FinalPartialPayoutBlocks() != 0 && height >= ALLOCATION_END_HEIGHT then 1 else 0)
  }

  function NextPayoutHeight(height: nat): Option<nat> {
    var legacyNext := (height / BLOCKS_PER_DAY + 1) * BLOCKS_PER_DAY;
    if height < V2_ACTIVATION_HEIGHT - 1 && legacyNext < V2_ACTIVATION_HEIGHT then Some(legacyNext) else
      var base := V2_ACTIVATION_HEIGHT - 1;
      var from := Max(height, base);
      var next := base + ((from - base) / V2_BLOCKS_PER_DAY + 1) * V2_BLOCKS_PER_DAY;
      if next <= ALLOCATION_END_HEIGHT then Some(next)
      else if height < ALLOCATION_END_HEIGHT && FinalPartialPayoutBlocks() != 0 then Some(ALLOCATION_END_HEIGHT)
      else None
  }

  // ---------------------------------------------------------------- the reference: block by block

  datatype Split = Split(miner: nat, development: nat) {
    function Add(other: Split): Split {
      Split(miner + other.miner, development + other.development)
    }
  }

  /** What the block at `height` mints, fees aside. */
  function MintedAt(height: nat, logSlots: nat): Split {
    var a := AllocationAt(height, logSlots);
    Split(a.minerSubsidy, if a.payoutEach.Some? then 2 * a.payoutEach.value else 0)
  }

  /** The sum of what the blocks `from..=last` mint, `minted(h)` being what block `h` mints. */
  ghost function BlockByBlock(minted: nat -> Split, from: nat, last: nat): Split
    decreases last
  {
    if last < from || last == 0 then Split(0, 0) else BlockByBlock(minted, from, last - 1).Add(minted(last))
  }

  lemma {:induction false} BlockByBlockSplits(minted: nat -> Split, from: nat, mid: nat, last: nat)
    requires 1 <= from && from - 1 <= mid <= last
    ensures BlockByBlock(minted, from, last) == BlockByBlock(minted, from, mid).Add(BlockByBlock(minted, mid + 1, last))
    decreases last
  {
    if mid < last {
      BlockByBlockSplits(minted, from, mid, last - 1);
    }
  }

  lemma {:induction false} BlockByBlockCongruent(f: nat -> Split, g: nat -> Split, from: nat, last: nat)
    requires forall h: nat :: from <= h <= last ==> f(h) == g(h)
    ensures BlockByBlock(f, from, last) == BlockByBlock(g, from, last)
    decreases last
  {
    if from <= last && last > 0 {
      BlockByBlockCongruent(f, g, from, last - 1);
    }
  }

  /** The number of recorded expansions at or below `h`. */
  function ExpansionsUpTo(expansions: seq<nat>, h: nat): nat {
    if expansions == [] then 0 else
      ExpansionsUpTo(expansions[..|expansions| - 1], h) + (if expansions[|expansions| - 1] <= h then 1 else 0)
  }

  /** The state size at `h` that an expansion list describes. */
  function LevelAt(expansions: seq<nat>, h: nat): nat {
    LOG_SLOTS_GENESIS + ExpansionsUpTo(expansions, h)
  }

  /** What each block mints when the state grew at `expansions`. */
  ghost function Minted(expansions: seq<nat>): nat -> Split {
    (h: nat) => MintedAt(h, LevelAt(expansions, h))
  }

  /** What every caller passes: first heights of the levels 25, 26, ..., in order, none at genesis. */
  predicate AscendingFromOne(expansions: seq<nat>) {
    && (forall i :: 0 <= i < |expansions| ==> expansions[i] >= 1)
    && (forall i, j :: 0 <= i < j < |expansions| ==> expansions[i] <= expansions[j])
  }

  lemma {:induction false} CountIsBoundary(expansions: seq<nat>, h: nat, k: nat)
    requires k <= |expansions|
    requires forall i :: 0 <= i < k ==> expansions[i] <= h
    requires forall i :: k <= i < |expansions| ==> expansions[i] > h
    ensures ExpansionsUpTo(expansions, h) == k
  {
    if |expansions| > 0 {
      CountIsBoundary(expansions[..|expansions| - 1], h, if k == |expansions| then k - 1 else k);
    }
  }

  // ---------------------------------------------------------------- closed forms

  /** Legacy heights `from..=to`, all at the same state size. */
  function EmittedLegacyRange(from: nat, last: nat, logSlots: nat): Split
    requires from >= 1
  {
    if last < from then Split(0, 0) else
      var subsidy := BlockReward(logSlots);
      var share := subsidy / SHARE_DENOMINATOR;
      var n := last - from + 1;
      var payoutBlocks := last / BLOCKS_PER_DAY - (from - 1) / BLOCKS_PER_DAY;
      LegacyAmount(n, payoutBlocks, subsidy, share)
  }

  function LegacyAmount(n: nat, payoutBlocks: nat, subsidy: nat, share: nat): Split
    requires 2 * share <= subsidy
  {
    Split(n * (subsidy - 2 * share), payoutBlocks * 2 * share * BLOCKS_PER_DAY)
  }

  lemma LegacyAmountStep(n: nat, p: nat, due: bool, subsidy: nat, share: nat)
    requires 2 * share <= subsidy
    ensures LegacyAmount(n + 1, if due then p + 1 else p, subsidy, share)
         == LegacyAmount(n, p, subsidy, share).Add(Split(subsidy - 2 * share, if due then 2 * (share * BLOCKS_PER_DAY) else 0))
  {
    assert (n + 1) * (subsidy - 2 * share) == n * (subsidy - 2 * share) + (subsidy - 2 * share);
    assert (p + 1) * 2 * share * BLOCKS_PER_DAY == p * 2 * share * BLOCKS_PER_DAY + 2 * (share * BLOCKS_PER_DAY);
  }

  lemma LegacyMinted(h: nat, logSlots: nat)
    requires 1 <= h < V2_ACTIVATION_HEIGHT
    ensures var subsidy := BlockReward(logSlots);
            var share := subsidy / SHARE_DENOMINATOR;
            MintedAt(h, logSlots) == Split(subsidy - 2 * share, if h % BLOCKS_PER_DAY == 0 then 2 * (share * BLOCKS_PER_DAY) else 0)
  {
  }

  lemma LegacyRangeStep(from: nat, last: nat, logSlots: nat)
    requires 1 <= from <= last < V2_ACTIVATION_HEIGHT
    ensures EmittedLegacyRange(from, last, logSlots)
         == EmittedLegacyRange(from, last - 1, logSlots).Add(MintedAt(last, logSlots))
  {
    hide MintedAt, BlockReward;
    LegacyMinted(last, logSlots);
    var subsidy := BlockReward(logSlots);
    var share := subsidy / SHARE_DENOMINATOR;
    var p := (last - 1) / BLOCKS_PER_DAY - (from - 1) / BLOCKS_PER_DAY;
    LegacyAmountStep(last - from, p, last % BLOCKS_PER_DAY == 0, subsidy, share);
    assert LegacyAmount(0, 0, subsidy, share) == Split(0, 0);
  }

  lemma {:induction false} LegacyRangeIsSum(minted: nat -> Split, from: nat, last: nat, logSlots: nat)
    requires 1 <= from && from - 1 <= last < V2_ACTIVATION_HEIGHT
    requires forall h: nat :: from <= h <= last ==> minted(h) == MintedAt(h, logSlots)
    ensures EmittedLegacyRange(from, last, logSlots) == BlockByBlock(minted, from, last)
    decreases last
  {
    hide MintedAt, BlockReward;
    if from <= last {
      LegacyRangeIsSum(minted, from, last - 1, logSlots);
      LegacyRangeStep(from, last, logSlots);
    }
  }

  /** The part `first..=last` of one v2 tier. */
  function TierRange(tier: nat, first: nat, last: nat): Split
    requires tier < |V2_REWARDS|
  {
    if last < first then Split(0, 0) else
      var reward := V2_REWARDS[tier];
      var share := V2_REWARDS[tier] / SHARE_DENOMINATOR;
      var devLast := Min(last, ALLOCATION_END_HEIGHT);
      var devBlocks := if devLast >= first then devLast - first + 1 else 0;
      var plainBlocks := last - first + 1 - devBlocks;
      var partial := FinalPartialPayoutBlocks();
      Split(devBlocks * (reward - 2 * share) + plainBlocks * reward,
            V2RegularPayoutsIn(first, last) * 2 * share * V2_BLOCKS_PER_DAY
            + (if partial != 0 && first <= ALLOCATION_END_HEIGHT <= last then 2 * share * partial else 0))
  }

  predicate InTier(tier: nat, height: nat) {
    V2Active(height) && tier < |V2_REWARDS| && V2Tier(height) == tier
  }

  lemma TierIsInterval(tier: nat, h: nat)
    requires tier < |V2_REWARDS| && TierFirstHeight(tier) <= h
    requires tier + 1 < |V2_REWARDS| ==> h < TierFirstHeight(tier + 1)
    ensures InTier(tier, h)
  {
  }

  /** One more block adds a regular payout exactly where the schedule has one. */
  lemma RegularPayoutStep(first: nat, h: nat)
    requires V2_ACTIVATION_HEIGHT <= first <= h
    ensures V2RegularPayoutsIn(first, h)
         == V2RegularPayoutsIn(first, h - 1)
            + (if h <= ALLOCATION_END_HEIGHT && (h - (V2_ACTIVATION_HEIGHT - 1)) % V2_BLOCKS_PER_DAY == 0 then 1 else 0)
  {
  }

  lemma TierMinted(tier: nat, h: nat)
    requires InTier(tier, h)
    ensures var reward := V2_REWARDS[tier];
            var share := reward / SHARE_DENOMINATOR;
            var covered := PayoutBlocksCovered(h);
            MintedAt(h, LOG_SLOTS_GENESIS) ==
              if h > ALLOCATION_END_HEIGHT then Split(reward, 0)
              else Split(reward - 2 * share, if covered.Some? then 2 * (share * covered.value) else 0)
  {
  }

  function TierAmount(dev: nat, plain: nat, regular: nat, partial: nat, reward: nat, share: nat): Split
    requires 2 * share <= reward
  {
    Split(dev * (reward - 2 * share) + plain * reward,
          regular * 2 * share * V2_BLOCKS_PER_DAY + 2 * share * partial)
  }

  lemma PlainBlockAdds(dev: nat, plain: nat, regular: nat, partial: nat, reward: nat, share: nat)
    requires 2 * share <= reward
    ensures TierAmount(dev, plain + 1, regular, partial, reward, share)
         == TierAmount(dev, plain, regular, partial, reward, share).Add(Split(reward, 0))
  {
    assert (plain + 1) * reward == plain * reward + reward;
  }

  lemma AllocationBlockAdds(dev: nat, plain: nat, regular: nat, partial: nat, paysDay: bool, reward: nat, share: nat)
    requires 2 * share <= reward
    ensures TierAmount(dev + 1, plain, if paysDay then regular + 1 else regular, partial, reward, share)
         == TierAmount(dev, plain, regular, 0, reward, share)
              .Add(Split(reward - 2 * share, 2 * (share * partial) + if paysDay then 2 * (share * V2_BLOCKS_PER_DAY) else 0))
  {
    assert (dev + 1) * (reward - 2 * share) == dev * (reward - 2 * share) + (reward - 2 * share);
    assert (regular + 1) * 2 * share * V2_BLOCKS_PER_DAY == regular * 2 * share * V2_BLOCKS_PER_DAY + 2 * (share * V2_BLOCKS_PER_DAY);
    assert 2 * share * partial == 2 * (share * partial);
  }

  lemma TierRangeIsAmount(tier: nat, first: nat, last: nat)
    requires tier < |V2_REWARDS| && 1 <= first && first - 1 <= last
    ensures var reward := V2_REWARDS[tier];
            TierRange(tier, first, last) ==
              TierAmount(Max(Min(last, ALLOCATION_END_HEIGHT) - first + 1, 0),
                         last - first + 1 - Max(Min(last, ALLOCATION_END_HEIGHT) - first + 1, 0),
                         if last < first then 0 else V2RegularPayoutsIn(first, last),
                         if first <= ALLOCATION_END_HEIGHT <= last then FinalPartialPayoutBlocks() else 0,
                         reward, reward / SHARE_DENOMINATOR)
  {
    hide V2RegularPayoutsIn;
  }

  lemma CoveredWhere(h: nat)
    requires V2_ACTIVATION_HEIGHT <= h <= ALLOCATION_END_HEIGHT
    ensures PayoutBlocksCovered(h) ==
            if (h - (V2_ACTIVATION_HEIGHT - 1)) % V2_BLOCKS_PER_DAY == 0 then Some(V2_BLOCKS_PER_DAY)
            else if h == ALLOCATION_END_HEIGHT then Some(FinalPartialPayoutBlocks())
            else None
  {
  }

  lemma TierRangeStepInside(tier: nat, first: nat, last: nat)
    requires V2_ACTIVATION_HEIGHT <= first <= last <= ALLOCATION_END_HEIGHT
    requires tier < |V2_REWARDS| && InTier(tier, last)
    ensures TierRange(tier, first, last) == TierRange(tier, first, last - 1).Add(MintedAt(last, LOG_SLOTS_GENESIS))
  {
    hide MintedAt, TierRange, TierAmount, V2RegularPayoutsIn, InTier, PayoutBlocksCovered;
    RegularPayoutStep(first, last);
    CoveredWhere(last);
    TierMinted(tier, last);
    TierRangeIsAmount(tier, first, last);
    TierRangeIsAmount(tier, first, last - 1);
    EmptyRegularPayouts(last);
    var reward := V2_REWARDS[tier];
    var paysDay := (last - (V2_ACTIVATION_HEIGHT - 1)) % V2_BLOCKS_PER_DAY == 0;
    var partial := if last == ALLOCATION_END_HEIGHT then FinalPartialPayoutBlocks() else 0;
    AllocationBlockAdds(last - first, 0, if last - 1 < first then 0 else V2RegularPayoutsIn(first, last - 1),
                        partial, paysDay, reward, reward / SHARE_DENOMINATOR);
  }

  lemma TierRangeStep(tier: nat, first: nat, last: nat)
    requires V2_ACTIVATION_HEIGHT <= first <= last
    requires tier < |V2_REWARDS| && InTier(tier, last)
    ensures TierRange(tier, first, last) == TierRange(tier, first, last - 1).Add(MintedAt(last, LOG_SLOTS_GENESIS))
  {
    hide MintedAt, TierRange, TierAmount, V2RegularPayoutsIn, InTier, PayoutBlocksCovered;
    if last <= ALLOCATION_END_HEIGHT {
      TierRangeStepInside(tier, first, last);
    } else {
      RegularPayoutStep(first, last);
      TierMinted(tier, last);
      TierRangeIsAmount(tier, first, last);
      TierRangeIsAmount(tier, first, last - 1);
      EmptyRegularPayouts(last);
      var reward := V2_REWARDS[tier];
      var dev := Max(ALLOCATION_END_HEIGHT - first + 1, 0);
      PlainBlockAdds(dev, last - first - dev, if last - 1 < first then 0 else V2RegularPayoutsIn(first, last - 1),
                     if first <= ALLOCATION_END_HEIGHT then FinalPartialPayoutBlocks() else 0, reward, reward / SHARE_DENOMINATOR);
    }
  }

  lemma EmptyRegularPayouts(first: nat)
    requires V2_ACTIVATION_HEIGHT <= first
    ensures V2RegularPayoutsIn(first, first - 1) == 0
  {
  }

  lemma {:induction false} TierRangeIsSum(minted: nat -> Split, tier: nat, first: nat, last: nat)
    requires V2_ACTIVATION_HEIGHT <= first && first - 1 <= last
    requires tier < |V2_REWARDS|
    requires forall h: nat :: first <= h <= last ==> InTier(tier, h) && minted(h) == MintedAt(h, LOG_SLOTS_GENESIS)
    ensures TierRange(tier, first, last) == BlockByBlock(minted, first, last)
    decreases last
  {
    hide MintedAt, InTier;
    if first <= last {
      TierRangeIsSum(minted, tier, first, last - 1);
      TierRangeStep(tier, first, last);
    }
  }

  // ---------------------------------------------------------------- the loops of the program

  lemma {:induction false} FilteredIsPrefix(expansions: seq<nat>, h: nat, k: nat)
    requires AscendingFromOne(expansions)
    requires k == ExpansionsUpTo(expansions, h)
    ensures k <= |expansions|
    ensures forall i :: 0 <= i < k ==> expansions[i] <= h
    ensures forall i :: k <= i < |expansions| ==> expansions[i] > h
  {
    if |expansions| > 0 {
      var rest := expansions[..|expansions| - 1];
      FilteredIsPrefix(rest, h, ExpansionsUpTo(rest, h));
      if expansions[|expansions| - 1] <= h && ExpansionsUpTo(rest, h) < |rest| {
        assert false;
      }
    }
  }

  /** Between two consecutive expansion bounds the state size is constant. */
  lemma ConstantBetweenBounds(expansions: seq<nat>, k: nat, i: nat, start: nat, next: nat)
    requires AscendingFromOne(expansions)
    requires i <= k <= |expansions|
    requires i > 0 ==> start == expansions[i - 1]
    requires i < k ==> next == expansions[i]
    requires i == k ==> forall j :: k <= j < |expansions| ==> next <= expansions[j]
    ensures forall h: nat :: start <= h < next ==> Minted(expansions)(h) == MintedAt(h, LOG_SLOTS_GENESIS + i)
  {
    hide MintedAt;
    forall h: nat | start <= h < next
      ensures Minted(expansions)(h) == MintedAt(h, LOG_SLOTS_GENESIS + i)
    {
      CountIsBoundary(expansions, h, i);
    }
  }

  method EmittedLegacyUpTo(height: nat, expansions: seq<nat>) returns (total: Split)
    requires height < V2_ACTIVATION_HEIGHT
    requires AscendingFromOne(expansions)
    ensures total == BlockByBlock(Minted(expansions), 1, height)
  {
    hide Minted, EmittedLegacyRange, BlockByBlock;
    total := Split(0, 0);
    assert total == BlockByBlock(Minted(expansions), 1, 0) by { EmptySum(Minted(expansions)); }
    var start, logSlots := 1, LOG_SLOTS_GENESIS;
    var k := ExpansionsUpTo(expansions, height);
    FilteredIsPrefix(expansions, height, k);
    var bounds := expansions[..k] + [height + 1];
    for i := 0 to |bounds|
      invariant logSlots == LOG_SLOTS_GENESIS + i
      invariant start == if i == 0 then 1 else bounds[i - 1]
      invariant 1 <= start <= height + 1
      invariant total == BlockByBlock(Minted(expansions), 1, start - 1)
    {
      var next := bounds[i];
      if next > start {
        ConstantBetweenBounds(expansions, k, i, start, next);
        LegacyRangeIsSum(Minted(expansions), start, next - 1, logSlots);
        BlockByBlockSplits(Minted(expansions), 1, start - 1, next - 1);
        total := total.Add(EmittedLegacyRange(start, next - 1, logSlots));
      }
      start := next;
      logSlots := logSlots + 1;
    }
  }

  lemma EmptySum(minted: nat -> Split)
    ensures BlockByBlock(minted, 1, 0) == Split(0, 0)
  {
  }

  /** The last height the tiers below `tier` can reach within `..=to`. */
  function BelowTier(tier: nat, to: nat): nat {
    if tier >= |V2_REWARDS| then to else Min(TierFirstHeight(tier) - 1, to)
  }

  lemma V2TierSum(minted: nat -> Split, tier: nat, from: nat, first: nat, last: nat)
    requires V2Active(from) && tier < |V2_REWARDS|
    requires first == Max(TierFirstHeight(tier), from) && first <= last
    requires tier + 1 < |V2_REWARDS| ==> last < TierFirstHeight(tier + 1)
    requires forall h: nat :: V2Active(h) ==> minted(h) == MintedAt(h, LOG_SLOTS_GENESIS)
    ensures BlockByBlock(minted, from, last) == BlockByBlock(minted, from, BelowTier(tier, last)).Add(TierRange(tier, first, last))
  {
    hide MintedAt, TierRange, InTier;
    forall h: nat | first <= h <= last ensures InTier(tier, h) { TierIsInterval(tier, h); }
    TierRangeIsSum(minted, tier, first, last);
    BlockByBlockSplits(minted, from, first - 1, last);
  }

  /** Two empty or equal ranges have the same sum. */
  lemma NothingBetween(minted: nat -> Split, from: nat, a: nat, b: nat)
    requires a == b || (a < from && b < from)
    ensures BlockByBlock(minted, from, a) == BlockByBlock(minted, from, b)
  {
  }

  method EmittedV2Between(from: nat, to: nat, ghost minted: nat -> Split) returns (total: Split)
    requires V2Active(from)
    requires forall h: nat :: V2Active(h) ==> minted(h) == MintedAt(h, LOG_SLOTS_GENESIS)
    ensures total == BlockByBlock(minted, from, to)
  {
    hide MintedAt, TierRange, InTier;
    total := Split(0, 0);
    if to < from { return; }
    for tier := 0 to |V2_REWARDS|
      invariant total == BlockByBlock(minted, from, BelowTier(tier, to))
    {
      hide BlockByBlock;
      var first := Max(TierFirstHeight(tier), from);
      var last := if tier + 1 == |V2_REWARDS| then to else Min(TierFirstHeight(tier + 1) - 1, to);
      assert BelowTier(tier + 1, to) == last;
      if last >= first {
        V2TierSum(minted, tier, from, first, last);
        total := total.Add(TierRange(tier, first, last));
      } else {
        NothingBetween(minted, from, BelowTier(tier, to), last);
      }
    }
  }

  /** From the fork on, state expansion no longer changes what a block mints. */
  lemma ExpansionsOnlyMatterBeforeTheFork(expansions: seq<nat>)
    ensures forall h: nat :: V2Active(h) ==> Minted(expansions)(h) == MintedAt(h, LOG_SLOTS_GENESIS)
  {
    hide LevelAt;
  }

  /**
    The closed forms equal the block-by-block sum at every height, for every
    ascending expansion list.
   */
  method EmittedSplitUpTo(height: nat, expansions: seq<nat>) returns (total: Split)
    requires AscendingFromOne(expansions)
    ensures total == BlockByBlock(Minted(expansions), 1, height)
  {
    hide Minted, MintedAt, BlockByBlock, LevelAt;
    ghost var minted := Minted(expansions);
    total := EmittedLegacyUpTo(Min(height, V2_ACTIVATION_HEIGHT - 1), expansions);
    if V2Active(height) {
      ExpansionsOnlyMatterBeforeTheFork(expansions);
      var v2 := EmittedV2Between(V2_ACTIVATION_HEIGHT, height, minted);
      BlockByBlockSplits(minted, 1, V2_ACTIVATION_HEIGHT - 1, height);
      total := total.Add(v2);
    }
  }
}
