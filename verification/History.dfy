/**
  The sampled header history (permanode/src/serve.rs, `sampled_state_history`): a
  cache that is extended and thinned out in place as the chain grows.
 */
module History {
  import opened Wrappers
  import opened Arith

  const HISTORY_STEP := 512
  const HISTORY_MAX_POINTS := 2400

  datatype Header = Header(activeSlots: nat, allocCounter: nat)
  datatype Sample = Sample(height: nat, header: Header)

  /** The first `n` samples of a fresh walk: genesis and every `step`-th block. */
  ghost function Walk(chain: nat -> Header, step: nat, n: nat): seq<Sample> {
    seq(n, i requires 0 <= i => Sample(i * step, chain(i * step)))
  }

  /** The number of samples a fresh walk up to `tip` takes. */
  function WalkLength(step: nat, tip: nat): nat
    requires step > 0
  {
    tip / step + 1
  }

  /** 512, 1024, 2048, ... */
  ghost predicate IsStep(step: nat) {
    step == 512 || (step > 512 && step % 2 == 0 && IsStep(step / 2))
  }

  /** The least step that keeps the history up to `tip` within its limit. */
  ghost predicate LeastStep(step: nat, tip: nat) {
    && IsStep(step) && step > 0
    && tip / step <= 2400
    && HalfIsTooFine(step, tip)
  }

  ghost predicate HalfIsTooFine(step: nat, tip: nat) {
    step == 512 || (step >= 2 && tip / (step / 2) > 2400)
  }

  lemma {:induction false} StepsGrow(a: nat, b: nat)
    requires IsStep(a) && IsStep(b) && a < b
    ensures a <= b / 2
    decreases b
  {
    if b / 2 < a { StepsGrowBack(b / 2, a); }
  }

  lemma {:induction false} StepsGrowBack(a: nat, b: nat)
    requires IsStep(a) && IsStep(b) && a < b
    ensures 2 * a <= b
    decreases b
  {
    if b / 2 != a && a < b {
      if b / 2 < a {
        StepsGrowBack(b / 2, a);
      } else {
        assert b / 2 > a;
      }
    }
  }

  /** "Least" is meant: every other admissible step is larger. */
  lemma LeastStepIsLeast(step: nat, tip: nat, other: nat)
    requires LeastStep(step, tip)
    requires IsStep(other) && other > 0 && tip / other <= 2400
    ensures step <= other
  {
    if other < step {
      StepsGrow(other, step);
      DivAnti(tip, other, step / 2);
      assert false;
    }
  }

  /** Every second sample of a walk is a walk with twice the step. */
  function EverySecond(points: seq<Sample>, step: nat): seq<Sample>
    requires step > 0
  {
    if points == [] then [] else
      EverySecond(points[..|points| - 1], step) + (if points[|points| - 1].height % step == 0 then [points[|points| - 1]] else [])
  }

  lemma EvenMultiples(i: nat, step: nat)
    requires step > 0
    ensures i * step % (2 * step) == 0 <==> i % 2 == 0
    ensures i % 2 == 0 ==> i / 2 * (2 * step) == i * step
  {
    Halves(i, step);
    DivUnique(i / 2, 2 * step, if i % 2 == 0 then 0 else step, i * step);
  }

  lemma Halves(i: nat, step: nat)
    ensures i * step == i / 2 * (2 * step) + (if i % 2 == 0 then 0 else step)
  {
    var k := i / 2;
    Distribute(2 * k, i % 2, step);
    Commute(2, k);
    Associate(k, 2, step);
  }

  lemma {:induction false} ThinnedWalk(chain: nat -> Header, step: nat, n: nat)
    requires step > 0
    ensures EverySecond(Walk(chain, step, n), 2 * step) == Walk(chain, 2 * step, (n + 1) / 2)
  {
    if n > 0 {
      ThinnedWalk(chain, step, n - 1);
      EvenMultiples(n - 1, step);
      WalkExtends(chain, step, n - 1);
      if (n - 1) % 2 == 0 {
        WalkExtends(chain, 2 * step, (n - 1) / 2);
      }
      ThinnedLast(chain, step, n);
    }
  }

  lemma ThinnedLast(chain: nat -> Header, step: nat, n: nat)
    requires step > 0 && n > 0
    ensures EverySecond(Walk(chain, step, n), 2 * step)
         == EverySecond(Walk(chain, step, n - 1), 2 * step)
            + (if (n - 1) * step % (2 * step) == 0 then [Sample((n - 1) * step, chain((n - 1) * step))] else [])
  {
    assert Walk(chain, step, n)[..n - 1] == Walk(chain, step, n - 1);
  }

  lemma WalkExtends(chain: nat -> Header, step: nat, n: nat)
    ensures Walk(chain, step, n + 1) == Walk(chain, step, n) + [Sample(n * step, chain(n * step))]
  {
  }

  /** Thinning a walk up to `tip` gives the walk up to `tip` with the doubled step. */
  lemma ThinnedLength(step: nat, tip: nat)
    requires step > 0
    ensures (WalkLength(step, tip) + 1) / 2 == WalkLength(2 * step, tip)
  {
    var q, r := tip / step, tip % step;
    DivisionEquation(tip, step);
    Halves(q, step);
    DivUnique(q / 2, 2 * step, if q % 2 == 0 then r else step + r, tip);
  }

  class HistoryCache {
    var step: nat
    var points: seq<Sample>

    /** The cache holds a fresh walk, unfinished where the node once had no header. */
    ghost predicate Valid(chain: nat -> Header, tip: nat)
      reads this
    {
      if step == 0 then points == [] else
        && LeastStep(step, tip)
        && |points| <= WalkLength(step, tip)
        && points == Walk(chain, step, |points|)
    }

    constructor ()
      ensures step == 0 && points == []
    {
      step, points := 0, [];
    }

    /**
      After any sequence of calls the cache is a fresh walk: the samples at 0, step,
      2 * step, ..., with the least step for the highest tip so far. With tips that do not
      fall it is the walk up to the tip; with a lower tip nothing is thinned out or dropped,
      and every sample up to the tip is there.
     */
    method SampledStateHistory(header: nat -> Option<Header>, ghost chain: nat -> Header, ghost highest: nat, tip: nat)
      returns (outStep: nat, outPoints: seq<Sample>)
      requires Valid(chain, highest)
      requires forall h: nat :: header(h).Some? ==> header(h).value == chain(h)
      modifies this
      ensures var high := if old(step) == 0 then tip else Max(highest, tip);
              Valid(chain, high) && LeastStep(step, high)
      ensures outStep == step && outPoints == points && points == Walk(chain, step, |points|)
      ensures (forall h: nat :: h <= tip ==> header(h).Some?) ==>
                |points| == if old(step) == 0 || tip >= highest then WalkLength(step, tip) else Max(|old(points)|, WalkLength(step, tip))
      ensures old(step) > 0 && tip <= highest ==> step == old(step) && old(points) <= points
      ensures |points| <= 2401
    {
      hide Walk, IsStep;
      ghost var high: nat := if step == 0 then tip else Max(highest, tip);
      if step == 0 {
        step := HISTORY_STEP;
        FirstStep();
        EmptyWalk(chain, step);
      } else {
        StepMonotone(step, highest, high);
      }
      ThinOut(chain, tip, high);
      Extend(header, chain, tip, high);
      outStep, outPoints := step, points;
    }

    /** Doubles the step until the history up to `tip` fits, keeping the samples that fall on it. */
    method ThinOut(ghost chain: nat -> Header, tip: nat, ghost high: nat)
      requires step > 0 && IsStep(step) && tip <= high
      requires HalfIsTooFine(step, high) && (tip == high || high / step <= HISTORY_MAX_POINTS)
      requires points == Walk(chain, step, |points|) && |points| <= WalkLength(step, high)
      modifies this
      ensures LeastStep(step, high)
      ensures points == Walk(chain, step, |points|) && |points| <= WalkLength(step, high)
      ensures old(high / step <= HISTORY_MAX_POINTS) ==> step == old(step) && points == old(points)
    {
      hide Walk, IsStep, EverySecond, WalkLength, HalfIsTooFine;
      DivMono(tip, high, step);
      while tip / step > HISTORY_MAX_POINTS
        invariant step > 0 && IsStep(step)
        invariant HalfIsTooFine(step, high) && (tip == high || high / step <= HISTORY_MAX_POINTS)
        invariant points == Walk(chain, step, |points|)
        invariant |points| <= WalkLength(step, high)
        invariant tip / step <= high / step
        invariant old(high / step <= HISTORY_MAX_POINTS) ==> step == old(step) && points == old(points)
        decreases tip - step
      {
        SmallStep(step, tip);
        NextStep(step, tip);
        ThinnedPoints(chain, step, points, tip);
        step := step * 2;
        points := EverySecond(points, step);
        DivMono(tip, high, step);
      }
    }

    /** Fetches the missing samples up to `tip`, stopping where the node has no header. */
    method Extend(header: nat -> Option<Header>, ghost chain: nat -> Header, tip: nat, ghost high: nat)
      requires step > 0 && tip <= high
      requires points == Walk(chain, step, |points|) && |points| <= WalkLength(step, high)
      requires forall h: nat :: header(h).Some? ==> header(h).value == chain(h)
      modifies this`points
      ensures points == Walk(chain, step, |points|) && |points| <= WalkLength(step, high) && old(points) <= points
      ensures (forall h: nat :: h <= tip ==> header(h).Some?) ==> |points| == Max(|old(points)|, WalkLength(step, tip))
    {
      hide Walk, WalkLength;
      var next: nat := if points == [] then 0 else points[|points| - 1].height + step;
      if points != [] { LastSample(chain, step, |points|); }
      LongerWalk(step, tip, high);
      while next <= tip
        invariant next == |points| * step && old(points) <= points
        invariant points == Walk(chain, step, |points|)
        invariant |points| <= Max(|old(points)|, WalkLength(step, tip))
        decreases tip + step - next
      {
        SampleCount(|points|, step, tip);
        var h := header(next);
        if h.None? { return; }
        WalkExtends(chain, step, |points|);
        Distribute(|points|, 1, step);
        points := points + [Sample(next, h.value)];
        next := next + step;
      }
      SampleCount(|points|, step, tip);
    }
  }

  lemma LongerWalk(step: nat, tip: nat, high: nat)
    requires step > 0 && tip <= high
    ensures WalkLength(step, tip) <= WalkLength(step, high)
  {
    DivMono(tip, high, step);
  }

  lemma ThinnedPoints(chain: nat -> Header, step: nat, points: seq<Sample>, tip: nat)
    requires step > 0
    requires points == Walk(chain, step, |points|) && |points| <= WalkLength(step, tip)
    ensures var kept := EverySecond(points, 2 * step);
            kept == Walk(chain, 2 * step, |kept|) && |kept| <= WalkLength(2 * step, tip)
  {
    ThinnedWalk(chain, step, |points|);
    ThinnedLength(step, tip);
    WalkSize(chain, 2 * step, (|points| + 1) / 2);
  }

  lemma FirstStep()
    ensures IsStep(HISTORY_STEP)
  {
  }

  lemma NextStep(step: nat, tip: nat)
    requires IsStep(step) && step > 0 && tip / step > HISTORY_MAX_POINTS
    ensures IsStep(2 * step) && HalfIsTooFine(2 * step, tip)
  {
  }

  lemma EmptyWalk(chain: nat -> Header, step: nat)
    ensures Walk(chain, step, 0) == []
  {
  }

  lemma WalkSize(chain: nat -> Header, step: nat, n: nat)
    ensures |Walk(chain, step, n)| == n
  {
  }

  lemma LastSample(chain: nat -> Header, step: nat, n: nat)
    requires n > 0
    ensures |Walk(chain, step, n)| == n && Walk(chain, step, n)[n - 1].height + step == n * step
  {
    Distribute(n - 1, 1, step);
  }

  lemma SampleCount(n: nat, step: nat, tip: nat)
    requires step > 0
    ensures n * step <= tip <==> n < WalkLength(step, tip)
  {
    DivReaches(tip, step, n);
  }

  lemma SmallStep(step: nat, tip: nat)
    requires step > 0 && tip / step > HISTORY_MAX_POINTS
    ensures tip > 2 * step
  {
    DivReaches(tip, step, 3);
  }

  /** A larger tip never makes a step too large. */
  lemma StepMonotone(step: nat, before: nat, tip: nat)
    requires IsStep(step) && before <= tip
    ensures step >= HISTORY_STEP
    ensures before / step <= tip / step && before / (step / 2) <= tip / (step / 2)
  {
    DivMono(before, tip, step);
    DivMono(before, tip, step / 2);
  }
}
