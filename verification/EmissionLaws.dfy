/**
  What the emission schedule promises (core/src/emission.rs): the allocation ends
  when three years of target time are used up, payouts happen exactly where the
  payout arithmetic says, and what is paid out is exactly what accrued.
 */
module EmissionLaws {
  import opened Wrappers
  import opened Arith
  import opened Emission

  lemma ConstantsFollowTheSchedule()
    ensures BLOCKS_PER_DAY == 24 * 60 * 60 / LEGACY_BLOCK_TIME
    ensures V2_BLOCKS_PER_DAY == 24 * 60 * 60 / V2_BLOCK_TIME
    ensures V2_REWARD_INTERVAL_BLOCKS == 365 * V2_BLOCKS_PER_DAY
    ensures LEGACY_ALLOCATION_END_HEIGHT == BLOCKS_PER_DAY * 365 * 3
    ensures ALLOCATION_END_HEIGHT
         == (V2_ACTIVATION_HEIGHT - 1) + (ALLOCATION_SECONDS - (V2_ACTIVATION_HEIGHT - 1) * LEGACY_BLOCK_TIME) / V2_BLOCK_TIME
    ensures forall i :: 0 <= i < |V2_REWARDS| ==> V2_REWARDS[i] % SHARE_DENOMINATOR == 0
  {
  }

  // ---------------------------------------------------------------- what a block mints

  /** All a block mints or accrues: the miner's part and both funds' shares. */
  function Total(height: nat, logSlots: nat): nat {
    AllocationAt(height, logSlots).minerSubsidy + 2 * AllocationAt(height, logSlots).shareEach
  }

  lemma TotalIsReward(height: nat, logSlots: nat)
    ensures Total(height, logSlots) == BlockRewardAt(height, logSlots)
  {
    hide BlockRewardAt;
  }

  lemma HalvedTwice(n: nat, a: nat)
    requires a > 0
    ensures n / (2 * a) == n / a / 2
  {
    var q := n / a;
    DivisionEquation(n, a);
    DivUnique(q / 2, 2 * a, (q % 2) * a + n % a, n);
  }

  /** Before the fork: 50 NOID at the genesis size, half for every expansion, and never less than 1 NOID. */
  lemma LegacyBlockMints(height: nat, logSlots: nat)
    requires height < V2_ACTIVATION_HEIGHT
    ensures logSlots <= 24 ==> Total(height, logSlots) == 50_000_000
    ensures logSlots >= 24 ==> Total(height, logSlots + 1) == if Total(height, logSlots) / 2 > 1_000_000 then Total(height, logSlots) / 2 else 1_000_000
  {
    TotalIsReward(height, logSlots);
    TotalIsReward(height, logSlots + 1);
    hide Total;
    if logSlots >= 24 {
      var h := logSlots - 24;
      if h <= 62 {
        HalvedTwice(50_000_000, Pow2(h));
      } else {
        SmallShare(63);
      }
    }
  }

  lemma {:induction false} SmallShare(h: nat)
    requires h >= 6
    ensures 50_000_000 / Pow2(h) < 1_000_000
  {
    if h == 6 {
      assert Pow2(6) == 64;
    } else {
      SmallShare(h - 1);
      HalvedTwice(50_000_000, Pow2(h - 1));
    }
  }

  /** Of it the funds accrue a twentieth each while the allocation lasts, and nothing at genesis or after its end. */
  lemma SharesOfATwentieth(height: nat, logSlots: nat)
    ensures var a := AllocationAt(height, logSlots);
            && a.active == (1 <= height <= 3_223_778)
            && a.shareEach == (if a.active then Total(height, logSlots) / 20 else 0)
            && (a.payoutDue <==> a.payoutEach.Some?) && (a.payoutDue ==> a.active)
  {
    hide BlockRewardAt;
  }

  /** From the fork on the reward steps down once a year of 365 days of 2880 blocks, whatever the state's size. */
  lemma V2BlockMints(height: nat, logSlots: nat)
    requires height >= 210_537
    ensures var year := (height - 210_537) / (365 * 2_880);
            Total(height, logSlots) ==
              if year == 0 then 16_000_000 else if year == 1 then 11_300_000 else if year == 2 then 8_000_000 else if year == 3 then 5_650_000
              else if year == 4 then 4_000_000 else if year == 5 then 2_830_000 else if year == 6 then 2_000_000 else if year == 7 then 1_410_000
              else 1_000_000
  {
    TotalIsReward(height, logSlots);
    hide Total;
  }

  /** Every second step halves, and each one in between lies within a percent of the even step down. */
  lemma RewardHalvesEveryTwoYears(tier: nat)
    requires tier < 4
    ensures V2_REWARDS[2 * tier] == 2 * V2_REWARDS[2 * tier + 2]
    ensures var even, odd := V2_REWARDS[2 * tier] * V2_REWARDS[2 * tier + 2], V2_REWARDS[2 * tier + 1];
            99 * even <= 100 * odd * odd <= 101 * even
  {
  }

  /** The published figures: two payouts of each era, the partial last one, and what the eight falling years mint. */
  lemma PublishedFigures()
    ensures AllocationAt(1, 24).minerSubsidy == 45_000_000
    ensures AllocationAt(4_320, 24).payoutEach == Some(10_800_000_000) && AllocationAt(4_321, 24).payoutEach == None
    ensures AllocationAt(207_360, 24).payoutEach == Some(10_800_000_000) && AllocationAt(211_680, 24).payoutEach == None
    ensures AllocationAt(210_537, 24).payoutEach == None && AllocationAt(210_537, 24).minerSubsidy == 14_400_000
    ensures AllocationAt(213_416, 24).payoutEach == Some(2_304_000_000) && AllocationAt(213_417, 24).payoutEach == None
    ensures AllocationAt(3_223_778, 24).payoutEach == Some(762 * 400_000) && AllocationAt(3_223_778, 24).minerSubsidy == 7_200_000
    ensures AllocationAt(3_223_779, 24) == Allocation(false, false, 0, None, 8_000_000)
    ensures TierFirstHeight(8) == 8_620_137 && FinalPartialPayoutBlocks() == 762
    ensures (V2_REWARDS[0] + V2_REWARDS[1] + V2_REWARDS[2] + V2_REWARDS[3] + V2_REWARDS[4] + V2_REWARDS[5] + V2_REWARDS[6] + V2_REWARDS[7])
            * 1_051_200 == 53_810_928 * 1_000_000
    ensures TargetSecondsBetween(0, 10) == 200 && TargetSecondsBetween(210_535, 210_537) == 50 && TargetSecondsBetween(0, 3_223_778) == 94_607_980
    ensures NextPayoutHeight(0) == Some(4_320) && NextPayoutHeight(207_360) == Some(213_416) && NextPayoutHeight(3_223_778) == None
  {
    assert Pow2(0) == 1;
  }

  // ---------------------------------------------------------------- target time

  /** Target seconds from genesis to the block at `h`, block by block. */
  ghost function SecondsUpTo(h: nat): nat {
    if h == 0 then 0 else SecondsUpTo(h - 1) + BlockTimeAt(h)
  }

  lemma {:induction false} TargetSecondsAddUp(from: nat, last: nat)
    requires from <= last
    ensures TargetSecondsBetween(from, last) == SecondsUpTo(last) - SecondsUpTo(from)
    decreases last
  {
    if from < last {
      TargetSecondsAddUp(from, last - 1);
    }
  }

  /** The allocation ends with the last block whose summed target time fits in three years. */
  lemma AllocationEndsAfterThreeYears(h: nat)
    ensures SecondsUpTo(h) <= ALLOCATION_SECONDS <==> h <= ALLOCATION_END_HEIGHT
  {
    TargetSecondsAddUp(0, h);
  }

  // ---------------------------------------------------------------- payout heights

  lemma PayoutDueWhere(h: nat)
    ensures PayoutDue(h) <==>
            || (0 < h < V2_ACTIVATION_HEIGHT && h % BLOCKS_PER_DAY == 0)
            || (V2_ACTIVATION_HEIGHT < h <= ALLOCATION_END_HEIGHT
                && ((h - (V2_ACTIVATION_HEIGHT - 1)) % V2_BLOCKS_PER_DAY == 0 || h == ALLOCATION_END_HEIGHT))
  {
    hide BlockRewardAt;
  }

  /** The number of payout blocks in `1..=h`, counted one by one. */
  ghost function PayoutsCounted(h: nat): nat {
    if h == 0 then 0 else PayoutsCounted(h - 1) + (if PayoutDue(h) then 1 else 0)
  }

  lemma PayoutBlocksStep(h: nat)
    requires h > 0
    ensures PayoutBlocksUpTo(h) == PayoutBlocksUpTo(h - 1) + (if PayoutDue(h) then 1 else 0)
  {
    hide PayoutDue, V2RegularPayoutsIn;
    PayoutDueWhere(h);
    if h >= V2_ACTIVATION_HEIGHT {
      RegularPayoutStep(V2_ACTIVATION_HEIGHT, h);
    } else {
      NoRegularPayoutYet(h);
      NoRegularPayoutYet(h - 1);
    }
  }

  lemma NoRegularPayoutYet(h: nat)
    requires h < V2_ACTIVATION_HEIGHT
    ensures V2RegularPayoutsIn(V2_ACTIVATION_HEIGHT, h) == 0
  {
  }

  lemma {:induction false} PayoutBlocksAreCounted(h: nat)
    ensures PayoutBlocksUpTo(h) == PayoutsCounted(h)
  {
    hide PayoutDue, PayoutBlocksUpTo;
    if h == 0 {
      NoPayoutAtGenesis();
    } else {
      PayoutBlocksAreCounted(h - 1);
      PayoutBlocksStep(h);
    }
  }

  lemma NoPayoutAtGenesis()
    ensures PayoutBlocksUpTo(0) == 0
  {
  }

  /** The next payout height is the least one above `h`, and there is none exactly when none is returned. */
  lemma NextPayoutIsTheLeast(h: nat)
    ensures match NextPayoutHeight(h)
            case Some(n) => n > h && PayoutDue(n) && forall m :: h < m < n ==> !PayoutDue(m)
            case None => forall m :: h < m ==> !PayoutDue(m)
  {
    hide PayoutDue;
    forall m: nat ensures PayoutDue(m) <==>
            || (0 < m < V2_ACTIVATION_HEIGHT && m % BLOCKS_PER_DAY == 0)
            || (V2_ACTIVATION_HEIGHT < m <= ALLOCATION_END_HEIGHT
                && ((m - (V2_ACTIVATION_HEIGHT - 1)) % V2_BLOCKS_PER_DAY == 0 || m == ALLOCATION_END_HEIGHT))
    {
      PayoutDueWhere(m);
    }
  }

  // ---------------------------------------------------------------- what accrues is what is paid

  /** What one fund has accrued in the v2 blocks up to `h`. */
  ghost function Accrued(h: nat): nat {
    if h < V2_ACTIVATION_HEIGHT then 0 else Accrued(h - 1) + AllocationAt(h, LOG_SLOTS_GENESIS).shareEach
  }

  /** What one fund has been paid in the v2 blocks up to `h`. */
  ghost function Paid(h: nat): nat {
    if h < V2_ACTIVATION_HEIGHT then 0 else
      var each := AllocationAt(h, LOG_SLOTS_GENESIS).payoutEach;
      Paid(h - 1) + (if each.Some? then each.value else 0)
  }

  /** The gross rewards of the v2 blocks up to `h`. */
  ghost function Gross(h: nat): nat {
    if h < V2_ACTIVATION_HEIGHT then 0 else Gross(h - 1) + BlockRewardAt(h, LOG_SLOTS_GENESIS)
  }

  /** What one fund is still owed after block `h`: the shares since the last payout. */
  function Outstanding(h: nat): nat
    requires V2Active(h)
  {
    if h >= ALLOCATION_END_HEIGHT then 0 else
      (h - (V2_ACTIVATION_HEIGHT - 1)) % V2_BLOCKS_PER_DAY * ShareAt(h)
  }

  function ShareAt(h: nat): nat
    requires V2Active(h)
  {
    V2_REWARDS[V2Tier(h)] / SHARE_DENOMINATOR
  }

  /** The v2 payout at `h`, zero where none is due. */
  function PayoutAmount(h: nat): nat
    requires V2Active(h)
  {
    if h > ALLOCATION_END_HEIGHT then 0
    else if (h - (V2_ACTIVATION_HEIGHT - 1)) % V2_BLOCKS_PER_DAY == 0 then ShareAt(h) * V2_BLOCKS_PER_DAY
    else if h == ALLOCATION_END_HEIGHT then ShareAt(h) * FinalPartialPayoutBlocks()
    else 0
  }

  /** Tier boundaries fall on payout boundaries, so the share never changes within a payout day. */
  lemma ShareConstantWithinADay(h: nat)
    requires V2_ACTIVATION_HEIGHT < h && (h - V2_ACTIVATION_HEIGHT) % V2_BLOCKS_PER_DAY != 0
    ensures ShareAt(h - 1) == ShareAt(h)
  {
    var d := h - V2_ACTIVATION_HEIGHT;
    assert d % V2_REWARD_INTERVAL_BLOCKS != 0 by {
      if d % V2_REWARD_INTERVAL_BLOCKS == 0 {
        assert false;
      }
    }
  }

  lemma V2Allocation(h: nat)
    requires V2Active(h)
    ensures var a := AllocationAt(h, LOG_SLOTS_GENESIS);
            && a.shareEach == (if h > ALLOCATION_END_HEIGHT then 0 else ShareAt(h))
            && (if a.payoutEach.Some? then a.payoutEach.value else 0) == PayoutAmount(h)
  {
  }

  lemma OwedStep(before: nat, day: nat, share: nat)
    requires before < V2_BLOCKS_PER_DAY && day == if before + 1 == V2_BLOCKS_PER_DAY then 0 else before + 1
    ensures before * share + share == day * share + (if day == 0 then share * V2_BLOCKS_PER_DAY else 0)
  {
    assert (before + 1) * share == before * share + share;
  }

  /** A block inside the allocation adds its share to what is owed and takes its payout away. */
  lemma OutstandingStep(h: nat)
    requires V2_ACTIVATION_HEIGHT < h <= ALLOCATION_END_HEIGHT
    ensures Outstanding(h - 1) + ShareAt(h) == Outstanding(h) + PayoutAmount(h)
  {
    hide ShareAt;
    var before := (h - 1 - (V2_ACTIVATION_HEIGHT - 1)) % V2_BLOCKS_PER_DAY;
    var day := (h - (V2_ACTIVATION_HEIGHT - 1)) % V2_BLOCKS_PER_DAY;
    assert before * ShareAt(h - 1) == before * ShareAt(h) by {
      if before != 0 { ShareConstantWithinADay(h); }
    }
    assert Outstanding(h - 1) == before * ShareAt(h);
    OwedStep(before, day, ShareAt(h));
    if h == ALLOCATION_END_HEIGHT {
      assert day == FinalPartialPayoutBlocks();
      assert day * ShareAt(h) == ShareAt(h) * day;
    }
  }

  /** At every v2 height, accrued shares are either paid or owed since the last payout. */
  lemma {:induction false} AccruedIsPaidOrOwed(h: nat)
    requires V2Active(h)
    ensures Accrued(h) == Paid(h) + Outstanding(h)
  {
    hide AllocationAt, ShareAt, PayoutAmount, Outstanding;
    V2Allocation(h);
    if h == V2_ACTIVATION_HEIGHT {
      FirstV2Block();
    } else {
      AccruedIsPaidOrOwed(h - 1);
      if h <= ALLOCATION_END_HEIGHT {
        OutstandingStep(h);
      } else {
        NothingOwedAfterTheEnd(h);
      }
    }
  }

  lemma FirstV2Block()
    ensures Outstanding(V2_ACTIVATION_HEIGHT) == ShareAt(V2_ACTIVATION_HEIGHT) && PayoutAmount(V2_ACTIVATION_HEIGHT) == 0
  {
  }

  lemma NothingOwedAfterTheEnd(h: nat)
    requires h > ALLOCATION_END_HEIGHT
    ensures Outstanding(h - 1) == Outstanding(h) == PayoutAmount(h) == 0
  {
  }

  lemma SharesArePositive(h: nat)
    requires V2Active(h)
    ensures ShareAt(h) > 0
  {
  }

  /** The account of each fund is settled exactly at the payout heights, and stays settled after the end. */
  lemma SettledExactlyAtPayouts(h: nat)
    requires V2Active(h)
    ensures Accrued(h) == Paid(h) <==> PayoutDue(h) || h > ALLOCATION_END_HEIGHT
  {
    hide PayoutDue, ShareAt;
    AccruedIsPaidOrOwed(h);
    PayoutDueWhere(h);
    SharesArePositive(h);
    var day := (h - (V2_ACTIVATION_HEIGHT - 1)) % V2_BLOCKS_PER_DAY;
    if day != 0 && h < ALLOCATION_END_HEIGHT {
      assert day * ShareAt(h) >= 1;
    }
  }

  lemma MintedV2Block(h: nat)
    requires V2Active(h)
    ensures var m := MintedAt(h, LOG_SLOTS_GENESIS);
            var a := AllocationAt(h, LOG_SLOTS_GENESIS);
            m.miner + 2 * a.shareEach == BlockRewardAt(h, LOG_SLOTS_GENESIS)
            && m.development == 2 * (if a.payoutEach.Some? then a.payoutEach.value else 0)
  {
  }

  lemma {:induction false} MintedByRecipient(minted: nat -> Split, h: nat)
    requires h >= V2_ACTIVATION_HEIGHT - 1
    requires forall i: nat :: V2Active(i) ==> minted(i) == MintedAt(i, LOG_SLOTS_GENESIS)
    ensures var total := BlockByBlock(minted, V2_ACTIVATION_HEIGHT, h);
            total.miner + 2 * Accrued(h) == Gross(h) && total.development == 2 * Paid(h)
  {
    hide MintedAt, AllocationAt, BlockRewardAt;
    if h >= V2_ACTIVATION_HEIGHT {
      MintedByRecipient(minted, h - 1);
      MintedV2Block(h);
    }
  }

  /**
    Since activation, what miners and funds received plus what the funds are still
    owed equals the gross rewards, at every height and for every expansion list.
   */
  lemma IssuanceIsGrossReward(expansions: seq<nat>, h: nat)
    requires V2Active(h)
    ensures var total := BlockByBlock(Minted(expansions), V2_ACTIVATION_HEIGHT, h);
            total.miner + total.development + 2 * Outstanding(h) == Gross(h)
  {
    hide Minted, MintedAt, BlockByBlock, Outstanding, Accrued, Paid, Gross;
    ExpansionsOnlyMatterBeforeTheFork(expansions);
    MintedByRecipient(Minted(expansions), h);
    AccruedIsPaidOrOwed(h);
  }
}
