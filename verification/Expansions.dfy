/**
  Where the state expanded (permanode/src/serve.rs, `expansion_heights`): one binary
  search over the node's permanent headers per level, cached until the state grows
  again; and what the API reports as issued with that list.
 */
module Expansions {
  import opened Wrappers
  import opened Emission

  /** The state only ever grows, and starts at the genesis size. */
  ghost predicate Growing(level: nat -> nat) {
    && (forall h: nat :: level(h) >= LOG_SLOTS_GENESIS)
    && (forall a: nat, b: nat :: a <= b ==> level(a) <= level(b))
  }

  /** Header lookups may fail, but an answer is the chain's own state size. */
  ghost predicate Answers(header: nat -> Option<nat>, level: nat -> nat) {
    forall h: nat :: header(h).Some? ==> header(h).value == level(h)
  }

  /** `hs[i]` is the first height at or above 1 whose state has level `25 + i`. */
  ghost predicate FirstHeights(level: nat -> nat, current: nat, hs: seq<nat>) {
    && LOG_SLOTS_GENESIS + |hs| == current
    && forall i :: 0 <= i < |hs| ==> FirstAt(level, LOG_SLOTS_GENESIS + 1 + i, hs[i])
  }

  ghost predicate FirstAt(level: nat -> nat, wanted: nat, h: nat) {
    h >= 1 && level(h) >= wanted && forall m: nat :: 1 <= m < h ==> level(m) < wanted
  }

  class ExpansionCache {
    var cached: Option<(nat, seq<nat>)>

    ghost predicate Valid(level: nat -> nat)
      reads this
    {
      cached.Some? ==> FirstHeights(level, cached.value.0, cached.value.1)
    }

    constructor ()
      ensures cached == None
    {
      cached := None;
    }

    method ExpansionHeights(header: nat -> Option<nat>, ghost level: nat -> nat, current: nat, tip: nat)
      returns (r: Option<seq<nat>>)
      requires Valid(level) && Growing(level) && Answers(header, level)
      requires current == level(tip)
      modifies this
      ensures Valid(level)
      ensures r.Some? ==> FirstHeights(level, current, r.value) && cached == Some((current, r.value))
      ensures r.None? ==> cached == old(cached) && exists h: nat :: 1 <= h <= tip && header(h).None?
    {
      if cached.Some? && cached.value.0 == current {
        return Some(cached.value.1);
      }
      var heights: seq<nat> := [];
      var lo: nat := 1;
      for wanted := LOG_SLOTS_GENESIS + 1 to current + 1
        invariant LOG_SLOTS_GENESIS + 1 + |heights| == wanted
        invariant forall i :: 0 <= i < |heights| ==> FirstAt(level, LOG_SLOTS_GENESIS + 1 + i, heights[i])
        invariant lo == (if heights == [] then 1 else heights[|heights| - 1])
        invariant 1 <= lo && (lo <= tip || lo == 1)
        invariant forall m: nat :: 1 <= m < lo ==> level(m) < wanted
        invariant cached == old(cached)
      {
        var a, b := lo, tip;
        while a < b
          invariant lo <= a && (a <= b || (a == 1 && b == tip == 0))
          invariant b <= tip
          invariant b > 0 ==> level(b) >= wanted
          invariant forall m: nat :: 1 <= m < a ==> level(m) < wanted
          decreases b - a
        {
          var mid := a + (b - a) / 2;
          var h := header(mid);
          if h.None? { return None; }
          if h.value >= wanted {
            b := mid;
          } else {
            assert forall m: nat :: 1 <= m <= mid ==> level(m) <= level(mid);
            a := mid + 1;
          }
        }
        if b == 0 { assert level(tip) <= level(a); }
        assert FirstAt(level, wanted, a);
        heights := heights + [a];
        lo := a;
      }
      cached := Some((current, heights));
      r := Some(heights);
    }
  }

  /** A list of first heights is in order and starts above genesis. */
  lemma FirstHeightsAscend(level: nat -> nat, current: nat, hs: seq<nat>)
    requires FirstHeights(level, current, hs)
    ensures AscendingFromOne(hs)
  {
    forall i, j | 0 <= i < j < |hs|
      ensures hs[i] <= hs[j]
    {
      assert FirstAt(level, LOG_SLOTS_GENESIS + 1 + i, hs[i]) && FirstAt(level, LOG_SLOTS_GENESIS + 1 + j, hs[j]);
    }
    forall i | 0 <= i < |hs| ensures hs[i] >= 1 { assert FirstAt(level, LOG_SLOTS_GENESIS + 1 + i, hs[i]); }
  }

  /** The list gives back the state size of every block, however many levels one block jumps. */
  lemma FirstHeightsGiveLevels(level: nat -> nat, current: nat, hs: seq<nat>, tip: nat, h: nat)
    requires Growing(level) && current == level(tip) && FirstHeights(level, current, hs)
    requires 1 <= h <= tip
    ensures LevelAt(hs, h) == level(h)
  {
    var k := level(h) - LOG_SLOTS_GENESIS;
    forall i | 0 <= i < |hs|
      ensures hs[i] <= h <==> i < k
    {
      assert FirstAt(level, LOG_SLOTS_GENESIS + 1 + i, hs[i]);
      if hs[i] <= h { assert level(hs[i]) <= level(h); }
    }
    CountIsBoundary(hs, h, k);
  }

  /** What each block of a chain mints at its own state size. */
  ghost function ChainMinted(level: nat -> nat): nat -> Split {
    (h: nat) => MintedAt(h, level(h))
  }

  /** What the API reports as issued up to `height <= tip`; a failed lookup falls back to an empty list. */
  method IssuedUpTo(cache: ExpansionCache, header: nat -> Option<nat>, ghost level: nat -> nat, current: nat, tip: nat, height: nat)
    returns (total: Split, found: bool)
    requires cache.Valid(level) && Growing(level) && Answers(header, level)
    requires current == level(tip) && height <= tip
    modifies cache
    ensures cache.Valid(level)
    ensures (forall h: nat :: 1 <= h <= tip ==> header(h).Some?) ==> found
    ensures found ==> total == BlockByBlock(ChainMinted(level), 1, height)
    ensures !found ==> (total == BlockByBlock(ChainMinted(level), 1, height) <==> NeverGrewBeforeTheFork(level, height))
  {
    hide BlockByBlock, Minted, ChainMinted, LevelAt, NeverGrewBeforeTheFork, FirstHeights;
    var hs := cache.ExpansionHeights(header, level, current, tip);
    var list := if hs.Some? then hs.value else [];
    found := hs.Some?;
    if hs.Some? {
      FirstHeightsAscend(level, current, list);
    }
    total := EmittedSplitUpTo(height, list);
    if hs.Some? {
      ListedSumIsChainSum(level, current, list, tip, height);
    } else {
      EmptyListIsExactWhen(level, height);
    }
  }

  lemma ListedSumIsChainSum(level: nat -> nat, current: nat, hs: seq<nat>, tip: nat, height: nat)
    requires Growing(level) && current == level(tip) && FirstHeights(level, current, hs) && height <= tip
    ensures BlockByBlock(Minted(hs), 1, height) == BlockByBlock(ChainMinted(level), 1, height)
  {
    hide MintedAt;
    forall h: nat | 1 <= h <= height
      ensures Minted(hs)(h) == ChainMinted(level)(h)
    {
      FirstHeightsGiveLevels(level, current, hs, tip, h);
    }
    BlockByBlockCongruent(Minted(hs), ChainMinted(level), 1, height);
  }

  // ---------------------------------------------------------------- the fallback to an empty list

  /** No block that pays a legacy subsidy up to `tip` had a grown state. */
  ghost predicate NeverGrewBeforeTheFork(level: nat -> nat, tip: nat) {
    level(Min(tip, V2_ACTIVATION_HEIGHT - 1)) == LOG_SLOTS_GENESIS || tip == 0
  }

  lemma {:induction false} PowGrows(n: nat)
    requires n >= 1
    ensures Pow2(n) >= 2
  {
  }

  /** A grown state mints less for the miner and never more for the funds. */
  lemma GrownStateMintsLess(h: nat, logSlots: nat)
    requires h >= 1 && logSlots >= LOG_SLOTS_GENESIS
    ensures var grown, genesis := MintedAt(h, logSlots), MintedAt(h, LOG_SLOTS_GENESIS);
            grown.miner <= genesis.miner && grown.development <= genesis.development
    ensures !V2Active(h) && logSlots > LOG_SLOTS_GENESIS ==>
              MintedAt(h, logSlots).miner < MintedAt(h, LOG_SLOTS_GENESIS).miner
  {
    if !V2Active(h) {
      LegacyMinted(h, logSlots);
      LegacyMinted(h, LOG_SLOTS_GENESIS);
      GrownRewardIsLess(logSlots);
    }
  }

  lemma GrownRewardIsLess(logSlots: nat)
    requires logSlots >= LOG_SLOTS_GENESIS
    ensures BlockReward(LOG_SLOTS_GENESIS) == BASE_REWARD
    ensures FLOOR_REWARD <= BlockReward(logSlots) <= (if logSlots > LOG_SLOTS_GENESIS then BASE_REWARD / 2 else BASE_REWARD)
  {
    if logSlots > LOG_SLOTS_GENESIS {
      var p := Pow2(Min(logSlots - LOG_SLOTS_GENESIS, 63));
      PowGrows(Min(logSlots - LOG_SLOTS_GENESIS, 63));
      assert BASE_REWARD / p <= BASE_REWARD / 2 by { DivisionShrinks(BASE_REWARD, p); }
    }
  }

  lemma DivisionShrinks(n: nat, p: nat)
    requires p >= 2
    ensures n / p <= n / 2
  {
    var q := n / p;
    assert q * p <= n;
    assert q * 2 <= q * p;
  }

  /** Block by block, the fallback over-reports exactly the grown legacy blocks. */
  lemma FallbackStep(level: nat -> nat, tip: nat)
    requires Growing(level) && tip >= 1
    ensures var actual, fallback := ChainMinted(level)(tip), Minted([])(tip);
            && actual.miner <= fallback.miner && actual.development <= fallback.development
            && (actual == fallback <==> V2Active(tip) || level(tip) == LOG_SLOTS_GENESIS)
  {
    hide MintedAt;
    GrownStateMintsLess(tip, level(tip));
    if V2Active(tip) { V2BlockIgnoresState(tip, level(tip)); }
  }

  lemma {:induction false} FallbackGap(level: nat -> nat, tip: nat)
    requires Growing(level)
    ensures var actual, fallback := BlockByBlock(ChainMinted(level), 1, tip), BlockByBlock(Minted([]), 1, tip);
            && actual.miner <= fallback.miner && actual.development <= fallback.development
            && (actual == fallback <==> NeverGrewBeforeTheFork(level, tip))
  {
    hide MintedAt, Minted, ChainMinted;
    if tip > 0 {
      FallbackGap(level, tip - 1);
      FallbackStep(level, tip);
      assert level(tip - 1) <= level(tip);
      assert level(tip - 1) >= LOG_SLOTS_GENESIS;
    }
  }

  lemma V2BlockIgnoresState(h: nat, logSlots: nat)
    requires V2Active(h)
    ensures MintedAt(h, logSlots) == MintedAt(h, LOG_SLOTS_GENESIS)
  {
  }

  /** With no list, the reported issuance is right exactly when no legacy block had a grown state. */
  lemma EmptyListIsExactWhen(level: nat -> nat, tip: nat)
    requires Growing(level)
    ensures BlockByBlock(Minted([]), 1, tip) == BlockByBlock(ChainMinted(level), 1, tip) <==> NeverGrewBeforeTheFork(level, tip)
  {
    hide BlockByBlock, Minted, ChainMinted, NeverGrewBeforeTheFork;
    FallbackGap(level, tip);
  }
}
