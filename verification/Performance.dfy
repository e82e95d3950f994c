/** The frame-time controller: a running mean, and adjustments with a cool-down. */
module Performance {
  import opened RealMath

  datatype Adjustment = Keep | Increase | Decrease

  /** What the caller may choose; 0 or nothing means the default. */
  datatype Settings = Settings(minSamples: nat, damping: nat, delayCycles: nat)

  datatype Monitor = Monitor(minSamples: nat, damping: nat, delayCycles: nat, shortest: real, longest: real,
                             mean: real, sampleCount: nat, scaleInput: real, scaleMean: real, delayLeft: nat)
  {
    /** One frame of `seconds`. */
    function Step(seconds: real): (Monitor, Adjustment) {
      var warm := sampleCount >= minSamples;
      var counting := sampleCount < damping;
      var input := if counting && warm then 1.0 / (sampleCount + 1) as real else scaleInput;
      var keep := if counting && warm then sampleCount as real * input else scaleMean;
      var newMean := mean * keep + seconds * input;
      var a :=
        if delayLeft > 0 || (counting && !warm) then Keep
        else if newMean < shortest then Increase
        else if newMean > longest then Decrease
        else Keep;
      var left := if delayLeft > 0 then delayLeft - 1 else if a == Keep then 0 else delayCycles;
      (this.(mean := newMean, sampleCount := if counting then sampleCount + 1 else sampleCount,
             scaleInput := input, scaleMean := keep, delayLeft := left), a)
    }

    /** As the constructor leaves it. */
    predicate Initial() {
      && 0 < minSamples <= damping && mean == 0.0 && sampleCount == 0 && delayLeft == 0
      && scaleInput == 1.0 / minSamples as real && scaleMean == 1.0
    }
  }

  // ----------------------------------------------------------------------------- runs

  function After(m: Monitor, samples: seq<real>): Monitor {
    if |samples| == 0 then m else After(m, samples[..|samples| - 1]).Step(samples[|samples| - 1]).0
  }

  /** What happened in frame `k`. */
  function AdjustmentAt(m: Monitor, samples: seq<real>, k: nat): Adjustment
    requires k < |samples|
  {
    After(m, samples[..k]).Step(samples[k]).1
  }

  function Sum(samples: seq<real>): real {
    if |samples| == 0 then 0.0 else Sum(samples[..|samples| - 1]) + samples[|samples| - 1]
  }

  /** The bookkeeping after any run. */
  lemma {:induction false} Bookkeeping(m: Monitor, samples: seq<real>)
    requires m.Initial()
    ensures var t, k := After(m, samples), |samples|;
      && t.minSamples == m.minSamples && t.damping == m.damping && t.delayCycles == m.delayCycles
      && t.sampleCount == (if k < m.damping then k else m.damping)
      && (k <= m.minSamples ==> t.scaleInput == 1.0 / m.minSamples as real && t.scaleMean == 1.0 && t.delayLeft == 0)
  {
    if |samples| > 0 {
      Bookkeeping(m, samples[..|samples| - 1]);
    }
  }

  function Average(sum: real, n: nat): real
    requires n > 0
  {
    sum / n as real
  }

  /** The mean of one sample more, as the code scales it. */
  lemma NextAverage(k: nat, n: nat, mean: real, sum: real, x: real)
    requires n == k + 1 && k > 0 && mean == Average(sum, k)
    ensures mean * (k as real * (1.0 / n as real)) + x * (1.0 / n as real) == Average(sum + x, n)
  {
    var r := 1.0 / n as real;
    DividedTimes(sum, k as real);
    assert mean * (k as real * r) == sum * r;
    TimesReciprocal(sum + x, n as real);
    assert sum * r + x * r == (sum + x) * r;
  }

  lemma NextShare(n: nat, mean: real, sum: real, x: real)
    requires n > 0 && mean == Average(sum, n)
    ensures mean * 1.0 + x * (1.0 / n as real) == Average(sum + x, n)
  {
    TimesReciprocal(sum, n as real);
    TimesReciprocal(x, n as real);
    TimesReciprocal(sum + x, n as real);
  }

  lemma WarmMean(s: Monitor, x: real)
    requires 0 < s.minSamples <= s.sampleCount < s.damping
    ensures s.Step(x).0.mean
         == s.mean * (s.sampleCount as real * (1.0 / (s.sampleCount + 1) as real))
          + x * (1.0 / (s.sampleCount + 1) as real)
  {
  }

  lemma ColdMean(s: Monitor, x: real)
    requires s.sampleCount < s.minSamples || s.sampleCount == s.damping
    ensures s.Step(x).0.mean == s.mean * s.scaleMean + x * s.scaleInput
  {
  }

  lemma AverageOfNothing(n: nat)
    requires n > 0
    ensures Average(0.0, n) == 0.0
  {
    TimesReciprocal(0.0, n as real);
  }

  /** While samples are still counted, the mean is exact; before there are enough of them it
      is the sum over the minimum number. */
  lemma {:induction false} ExactMean(m: Monitor, samples: seq<real>)
    requires m.Initial() && |samples| <= m.damping
    ensures |samples| <= m.minSamples ==> After(m, samples).mean == Average(Sum(samples), m.minSamples)
    ensures |samples| >= m.minSamples ==> After(m, samples).mean == Average(Sum(samples), |samples|)
  {
    hide Average, Monitor.Step;
    var k := |samples|;
    if k == 0 {
      AverageOfNothing(m.minSamples);
    } else {
      var before, x := samples[..k - 1], samples[k - 1];
      ExactMean(m, before);
      Bookkeeping(m, before);
      var s := After(m, before);
      if k - 1 >= m.minSamples {
        WarmMean(s, x);
        NextAverage(k - 1, k, s.mean, Sum(before), x);
      } else {
        ColdMean(s, x);
        NextShare(m.minSamples, s.mean, Sum(before), x);
      }
    }
  }

  /** With a damping as small as the minimum, the old mean is never scaled down. */
  lemma {:induction false} RunawayMean(m: Monitor, samples: seq<real>)
    requires m.Initial() && m.damping == m.minSamples
    ensures After(m, samples).mean == Average(Sum(samples), m.minSamples)
    ensures After(m, samples).scaleInput == 1.0 / m.minSamples as real && After(m, samples).scaleMean == 1.0
  {
    hide Average;
    var k := |samples|;
    if k == 0 {
      AverageOfNothing(m.minSamples);
    } else {
      var before, x := samples[..k - 1], samples[k - 1];
      RunawayMean(m, before);
      Bookkeeping(m, before);
      var s := After(m, before);
      ColdMean(s, x);
      NextShare(m.minSamples, s.mean, Sum(before), x);
    }
  }

  // ------------------------------------------------------------------- a bounded mean

  predicate Within(samples: seq<real>, lo: real, hi: real) { forall k :: 0 <= k < |samples| ==> lo <= samples[k] <= hi }

  function Mix(mean: real, p: real, x: real, q: real): real { mean * p + x * q }

  lemma StepMixes(s: Monitor, x: real)
    requires s.minSamples > 0
    ensures var t := s.Step(x).0; t.mean == Mix(s.mean, t.scaleMean, x, t.scaleInput)
  {
  }

  lemma StepScales(s: Monitor, x: real)
    requires 0 < s.minSamples
    ensures s.minSamples <= s.sampleCount < s.damping ==>
              var t := s.Step(x).0;
              t.scaleInput == 1.0 / (s.sampleCount + 1) as real && t.scaleMean == s.sampleCount as real * t.scaleInput
    ensures s.sampleCount == s.damping ==>
              s.Step(x).0.scaleInput == s.scaleInput && s.Step(x).0.scaleMean == s.scaleMean
  {
  }

  lemma Convex(mean: real, x: real, p: real, q: real, lo: real, hi: real)
    requires lo <= mean <= hi && lo <= x <= hi && p >= 0.0 && q >= 0.0 && p + q == 1.0
    ensures lo <= Mix(mean, p, x, q) <= hi
  {
    MulNonNegative(mean - lo, p);
    MulNonNegative(hi - mean, p);
    MulNonNegative(x - lo, q);
    MulNonNegative(hi - x, q);
    MulBoth(p + q, 1.0, lo);
    MulBoth(p + q, 1.0, hi);
  }

  /** The scales add up to 1 once enough samples are there. */
  lemma {:induction false} ScalesAddUp(m: Monitor, samples: seq<real>)
    requires m.Initial() && m.damping > m.minSamples && |samples| > m.minSamples
    ensures var t := After(m, samples); t.scaleMean + t.scaleInput == 1.0 && t.scaleMean >= 0.0 && t.scaleInput >= 0.0
  {
    hide Monitor.Step;
    var k := |samples|;
    var before := samples[..k - 1];
    Bookkeeping(m, before);
    StepScales(After(m, before), samples[k - 1]);
    if k <= m.damping {
      UnitShares(k - 1, k);
    } else {
      ScalesAddUp(m, before);
    }
  }

  /** From then on they stay what they were when the damping was reached. */
  lemma {:induction false} ScalesStay(m: Monitor, samples: seq<real>)
    requires m.Initial() && m.damping > m.minSamples && |samples| >= m.damping
    ensures var t := After(m, samples);
      t.scaleInput == 1.0 / m.damping as real && t.scaleMean == (m.damping - 1) as real * (1.0 / m.damping as real)
  {
    hide Monitor.Step;
    var k := |samples|;
    var before := samples[..k - 1];
    Bookkeeping(m, before);
    StepScales(After(m, before), samples[k - 1]);
    if k > m.damping {
      ScalesStay(m, before);
    }
  }

  /** So past the damping each sample counts for one part in `damping`, and what came before for
      the rest. */
  lemma Smooths(m: Monitor, samples: seq<real>, x: real)
    requires m.Initial() && m.damping > m.minSamples && |samples| >= m.damping
    ensures After(m, samples + [x]).mean * m.damping as real
         == After(m, samples).mean * (m.damping - 1) as real + x
  {
    hide Monitor.Step, After, Mix;
    Bookkeeping(m, samples);
    OneMoreFrame(m, samples, x);
    ScalesStay(m, samples + [x]);
    StepMixes(After(m, samples), x);
    var t := After(m, samples + [x]);
    PartsTimes(After(m, samples).mean, x, m.damping as real, (m.damping - 1) as real, t.scaleMean, t.scaleInput);
  }

  lemma OneMoreFrame(m: Monitor, samples: seq<real>, x: real)
    ensures After(m, samples + [x]) == After(m, samples).Step(x).0
  {
    hide Monitor.Step;
    var longer := samples + [x];
    assert longer[..|longer| - 1] == samples && longer[|longer| - 1] == x;
  }

  lemma PartsTimes(mean: real, x: real, n: real, k: real, p: real, q: real)
    requires n != 0.0 && q == 1.0 / n && p == k * (1.0 / n)
    ensures Mix(mean, p, x, q) * n == mean * k + x
  {
    DividedTimes(1.0, n);
    MulBoth(q, 1.0 / n, n);
    MulBoth(p, k * (1.0 / n), n);
    assert k * (1.0 / n) * n == k * (1.0 / n * n);
    assert (mean * p + x * q) * n == mean * (p * n) + x * (q * n);
  }

  /** Short frames are those at more than the highest rate wanted, long ones those below the lowest. */
  lemma TargetsAreRates(m: Monitor, mean: real, fpsMin: real, fpsMax: real)
    requires fpsMin > 0.0 && fpsMax > 0.0 && m.shortest == 1.0 / fpsMax && m.longest == 1.0 / fpsMin
    ensures mean < m.shortest <==> mean * fpsMax < 1.0
    ensures mean > m.longest <==> mean * fpsMin > 1.0
  {
    RateScaled(mean, m.shortest, fpsMax);
    RateScaled(mean, m.longest, fpsMin);
  }

  lemma RateScaled(x: real, y: real, rate: real)
    requires rate > 0.0 && y == 1.0 / rate
    ensures (x < y <==> x * rate < 1.0) && (x > y <==> x * rate > 1.0)
  {
    Inverse(y, rate);
    Scaled(x, y, rate, x * rate, 1.0);
  }

  lemma Inverse(y: real, rate: real)
    requires rate > 0.0 && y == 1.0 / rate
    ensures y * rate == 1.0
  {
    DividedTimes(1.0, rate);
  }

  lemma Scaled(x: real, y: real, k: real, p: real, q: real)
    requires k > 0.0 && p == x * k && q == y * k
    ensures (x < y <==> p < q) && (x > y <==> p > q)
  {
    if x < y {
      MulStrict(x, y, k);
    } else if y < x {
      MulStrict(y, x, k);
    }
  }

  lemma UnitShares(k: nat, n: nat)
    requires n == k + 1
    ensures 1.0 / n as real >= 0.0 && k as real * (1.0 / n as real) >= 0.0
    ensures k as real * (1.0 / n as real) + 1.0 / n as real == 1.0
  {
    var r := 1.0 / n as real;
    DividedTimes(1.0, n as real);
    assert k as real * r + r == n as real * r;
  }

  lemma {:induction false} SumWithin(samples: seq<real>, lo: real, hi: real)
    requires Within(samples, lo, hi)
    ensures |samples| as real * lo <= Sum(samples) <= |samples| as real * hi
  {
    if |samples| > 0 {
      var k := |samples| - 1;
      SumWithin(samples[..k], lo, hi);
      assert (k + 1) as real * lo == k as real * lo + lo && (k + 1) as real * hi == k as real * hi + hi;
    }
  }

  lemma AverageWithin(sum: real, n: nat, lo: real, hi: real)
    requires n > 0 && n as real * lo <= sum <= n as real * hi
    ensures lo <= Average(sum, n) <= hi
  {
    QuotientBounds(sum, n as real, hi);
    QuotientBounds(sum, n as real, lo);
  }

  lemma {:induction false} MeanWithin(m: Monitor, samples: seq<real>, lo: real, hi: real)
    requires m.Initial() && m.damping > m.minSamples && |samples| >= m.minSamples && Within(samples, lo, hi)
    ensures lo <= After(m, samples).mean <= hi
  {
    var k := |samples|;
    if k == m.minSamples {
      ExactMean(m, samples);
      SumWithin(samples, lo, hi);
      AverageWithin(Sum(samples), k, lo, hi);
    } else {
      hide Mix, Monitor.Step;
      var before, x := samples[..k - 1], samples[k - 1];
      MeanWithin(m, before, lo, hi);
      Bookkeeping(m, before);
      ScalesAddUp(m, samples);
      var s, t := After(m, before), After(m, samples);
      StepMixes(s, x);
      Convex(s.mean, x, t.scaleMean, t.scaleInput, lo, hi);
    }
  }

  lemma {:induction false} SumOfOnes(n: nat)
    ensures Sum(seq(n, i => 1.0)) == n as real
  {
    if n > 0 {
      assert seq(n, i => 1.0)[..n - 1] == seq(n - 1, i => 1.0);
      SumOfOnes(n - 1);
    }
  }

  ghost predicate AlwaysWithin(m: Monitor) {
    forall samples, lo, hi :: |samples| >= m.minSamples && Within(samples, lo, hi) ==>
                                lo <= After(m, samples).mean <= hi
  }

  /** The mean always stays between the least and the greatest sample exactly when the
      damping is larger than the minimum number of samples. */
  lemma MeanIsBounded(m: Monitor)
    requires m.Initial()
    ensures AlwaysWithin(m) <==> m.damping > m.minSamples
  {
    if m.damping > m.minSamples {
      forall samples, lo, hi | |samples| >= m.minSamples && Within(samples, lo, hi)
        ensures lo <= After(m, samples).mean <= hi
      {
        MeanWithin(m, samples, lo, hi);
      }
    } else {
      var n := m.minSamples;
      var samples := seq(n + 1, i => 1.0);
      RunawayMean(m, samples);
      SumOfOnes(n + 1);
      QuotientBounds((n + 1) as real, n as real, 1.0);
      assert Within(samples, 1.0, 1.0) && After(m, samples).mean > 1.0;
    }
  }

  // ------------------------------------------------------------------------ cool-down

  /** How many of the first `n` frames adjusted the quality. */
  function Adjusting(m: Monitor, samples: seq<real>, n: nat): nat
    requires n <= |samples|
  {
    if n == 0 then 0 else Adjusting(m, samples, n - 1) + if AdjustmentAt(m, samples, n - 1) == Keep then 0 else 1
  }

  lemma NextFrame(m: Monitor, samples: seq<real>, n: nat)
    requires n < |samples|
    ensures After(m, samples[..n + 1]) == After(m, samples[..n]).Step(samples[n]).0
  {
    assert samples[..n + 1][..n] == samples[..n];
  }

  /** No adjustment happens while the first samples are collected. */
  lemma WarmUp(m: Monitor, samples: seq<real>, k: nat)
    requires m.Initial() && k < |samples| && k < m.minSamples
    ensures AdjustmentAt(m, samples, k) == Keep
  {
    Bookkeeping(m, samples[..k]);
  }

  /** After an adjustment in frame `i`, the frames up to `i + delayCycles` only count down. */
  lemma {:induction false} CoolDown(m: Monitor, samples: seq<real>, i: nat, j: nat)
    requires m.Initial() && i < j <= |samples| && j - i <= m.delayCycles + 1
    requires AdjustmentAt(m, samples, i) != Keep
    ensures After(m, samples[..j]).delayLeft == m.delayCycles - (j - i - 1)
    ensures forall k :: i < k < j ==> AdjustmentAt(m, samples, k) == Keep
  {
    hide Monitor.Step;
    Bookkeeping(m, samples[..i]);
    Bookkeeping(m, samples[..j - 1]);
    NextFrame(m, samples, j - 1);
    StepDelays(After(m, samples[..i]), samples[i]);
    StepDelays(After(m, samples[..j - 1]), samples[j - 1]);
    if j - 1 > i {
      CoolDown(m, samples, i, j - 1);
    }
  }

  /** Frames still to wait come from an adjustment not long ago. */
  lemma {:induction false} StillWaiting(m: Monitor, samples: seq<real>, k: nat) returns (i: nat)
    requires m.Initial() && k <= |samples| && After(m, samples[..k]).delayLeft > 0
    ensures i < k && AdjustmentAt(m, samples, i) != Keep
    ensures After(m, samples[..k]).delayLeft == m.delayCycles - (k - i - 1)
  {
    hide Monitor.Step;
    Bookkeeping(m, samples[..k]);
    assert k > 0 by { assert samples[..0] == []; }
    NextFrame(m, samples, k - 1);
    Bookkeeping(m, samples[..k - 1]);
    StepDelays(After(m, samples[..k - 1]), samples[k - 1]);
    if AdjustmentAt(m, samples, k - 1) != Keep {
      i := k - 1;
    } else {
      i := StillWaiting(m, samples, k - 1);
    }
  }

  /** No adjustment in the last `delayCycles` frames before frame `k`. */
  ghost predicate Rested(m: Monitor, samples: seq<real>, k: nat)
    requires k <= |samples|
  {
    forall i :: 0 <= i < k && k - i <= m.delayCycles ==> AdjustmentAt(m, samples, i) == Keep
  }

  /** The counter that the code keeps tells just that. */
  lemma CooledDown(m: Monitor, samples: seq<real>, k: nat)
    requires m.Initial() && k <= |samples|
    ensures After(m, samples[..k]).delayLeft == 0 <==> Rested(m, samples, k)
  {
    hide After, AdjustmentAt, Monitor.Initial;
    if After(m, samples[..k]).delayLeft > 0 {
      var i := StillWaiting(m, samples, k);
    } else {
      forall i | 0 <= i < k && k - i <= m.delayCycles
        ensures AdjustmentAt(m, samples, i) == Keep
      {
        if AdjustmentAt(m, samples, i) != Keep {
          CoolDown(m, samples, i, k);
        }
      }
    }
  }

  /** When and how the quality is adjusted: after the warm-up, with no adjustment in the last
      frames, and upward when frames are short, downward when they are long. */
  lemma AdjustmentMeans(m: Monitor, samples: seq<real>, k: nat)
    requires m.Initial() && k < |samples|
    ensures var ready := k >= m.minSamples && Rested(m, samples, k);
      var mean := After(m, samples[..k + 1]).mean;
      && (AdjustmentAt(m, samples, k) == Increase <==> ready && mean < m.shortest)
      && (AdjustmentAt(m, samples, k) == Decrease <==> ready && mean >= m.shortest && mean > m.longest)
  {
    hide Monitor.Step, After, Rested;
    Bookkeeping(m, samples[..k]);
    CooledDown(m, samples, k);
    Targets(m, samples[..k]);
    NextFrame(m, samples, k);
    StepAdjusts(After(m, samples[..k]), samples[k]);
  }

  lemma StepAdjusts(s: Monitor, x: real)
    ensures var ready := s.delayLeft == 0 && (s.sampleCount >= s.damping || s.sampleCount >= s.minSamples);
      var mean := s.Step(x).0.mean;
      && (s.Step(x).1 == Increase <==> ready && mean < s.shortest)
      && (s.Step(x).1 == Decrease <==> ready && mean >= s.shortest && mean > s.longest)
  {
  }

  lemma {:induction false} Targets(m: Monitor, samples: seq<real>)
    ensures After(m, samples).shortest == m.shortest && After(m, samples).longest == m.longest
  {
    if |samples| > 0 {
      Targets(m, samples[..|samples| - 1]);
    }
  }

  /** So at least `delayCycles` frames without adjustment lie between any two adjustments. */
  lemma AdjustmentsApart(m: Monitor, samples: seq<real>, i: nat, j: nat)
    requires m.Initial() && i < j < |samples|
    requires AdjustmentAt(m, samples, i) != Keep && AdjustmentAt(m, samples, j) != Keep
    ensures j - i > m.delayCycles
  {
    if j - i <= m.delayCycles {
      CoolDown(m, samples, i, j + 1);
      assert false;
    }
  }

  function PastWarmUp(m: Monitor, n: nat): nat { if n <= m.minSamples then 0 else n - m.minSamples }

  /** The whole-number part of the bookkeeping. */
  lemma Counted(m: Monitor, samples: seq<real>)
    requires m.Initial()
    ensures var t := After(m, samples);
      && t.minSamples == m.minSamples && t.damping == m.damping && t.delayCycles == m.delayCycles
      && t.sampleCount == (if |samples| < m.damping then |samples| else m.damping)
      && (|samples| <= m.minSamples ==> t.delayLeft == 0)
  {
    Bookkeeping(m, samples);
  }

  lemma {:induction false} AdjustmentBudget(m: Monitor, samples: seq<real>, n: nat)
    requires m.Initial() && n <= |samples|
    ensures Product(Adjusting(m, samples, n), m.delayCycles + 1) <= PastWarmUp(m, n) + After(m, samples[..n]).delayLeft
    ensures After(m, samples[..n]).delayLeft <= m.delayCycles
  {
    hide Monitor.Step, Product, After;
    OneMore(0, m.delayCycles + 1);
    Counted(m, samples[..n]);
    if n > 0 {
      AdjustmentBudget(m, samples, n - 1);
      Counted(m, samples[..n - 1]);
      NextFrame(m, samples, n - 1);
      StepDelays(After(m, samples[..n - 1]), samples[n - 1]);
      OneMore(Adjusting(m, samples, n - 1), m.delayCycles + 1);
      hide Monitor.Initial;
    }
  }

  function Product(a: nat, d: nat): nat { a * d }

  lemma OneMore(a: nat, d: nat)
    ensures Product(a + 1, d) == Product(a, d) + d && Product(0, d) == 0
  {
  }

  lemma StepDelays(s: Monitor, x: real)
    ensures s.Step(x).1 != Keep ==> s.delayLeft == 0 && s.Step(x).0.delayLeft == s.delayCycles
    ensures s.Step(x).1 == Keep ==> s.Step(x).0.delayLeft == if s.delayLeft == 0 then 0 else s.delayLeft - 1
    ensures s.sampleCount < s.minSamples && s.sampleCount < s.damping ==> s.Step(x).1 == Keep
  {
  }

  /** Which bounds their number in any run. */
  lemma FewAdjustments(m: Monitor, samples: seq<real>)
    requires m.Initial()
    ensures Adjusting(m, samples, |samples|) * (m.delayCycles + 1) <= PastWarmUp(m, |samples|) + m.delayCycles
  {
    AdjustmentBudget(m, samples, |samples|);
  }

  // ------------------------------------------------------------------------ the class

  class PerformanceMonitor {
    const minSamples: nat
    const damping: nat
    const delayCycles: nat
    const targetFrameTimeMin: real
    const targetFrameTimeMax: real
    var meanFrameTime: real
    var sampleCount: nat
    var scaleInput: real
    var scaleMean: real
    var delayCyclesLeft: nat
    /** The calls made to change the quality, `Keep` for a frame without one. */
    var calls: seq<Adjustment>

    ghost function State(): Monitor
      reads this
    {
      Monitor(minSamples, damping, delayCycles, targetFrameTimeMin, targetFrameTimeMax, meanFrameTime, sampleCount,
              scaleInput, scaleMean, delayCyclesLeft)
    }

    constructor (options: Settings, targetFPSMin: real, targetFPSMax: real)
      requires targetFPSMin > 0.0 && targetFPSMax > 0.0
      requires OrElse(options.damping, 120) >= OrElse(options.minSamples, 60)
      ensures State().Initial() && calls == []
      ensures minSamples == OrElse(options.minSamples, 60) && damping == OrElse(options.damping, 120)
      ensures delayCycles == OrElse(options.delayCycles, 2 * minSamples)
      ensures targetFrameTimeMin == 1.0 / targetFPSMax && targetFrameTimeMax == 1.0 / targetFPSMin
    {
      minSamples, damping := OrElse(options.minSamples, 60), OrElse(options.damping, 120);
      delayCycles := OrElse(options.delayCycles, 2 * OrElse(options.minSamples, 60));
      targetFrameTimeMin, targetFrameTimeMax := 1.0 / targetFPSMax, 1.0 / targetFPSMin;
      meanFrameTime, sampleCount, delayCyclesLeft := 0.0, 0, 0;
      scaleInput, scaleMean := 1.0 / OrElse(options.minSamples, 60) as real, 1.0;
      calls := [];
    }

    /** Throws, here: returns nothing, if the damping is below the minimum. */
    static method Create(options: Settings, targetFPSMin: real, targetFPSMax: real)
      returns (monitor: PerformanceMonitor?)
      requires targetFPSMin > 0.0 && targetFPSMax > 0.0
      ensures monitor == null <==> OrElse(options.damping, 120) < OrElse(options.minSamples, 60)
      ensures monitor != null ==> fresh(monitor) && monitor.State().Initial() && monitor.calls == []
      ensures monitor != null ==>
                && monitor.minSamples == OrElse(options.minSamples, 60)
                && monitor.damping == OrElse(options.damping, 120)
                && monitor.delayCycles == OrElse(options.delayCycles, 2 * monitor.minSamples)
                && monitor.targetFrameTimeMin == 1.0 / targetFPSMax && monitor.targetFrameTimeMax == 1.0 / targetFPSMin
    {
      if OrElse(options.damping, 120) < OrElse(options.minSamples, 60) {
        return null;
      }
      monitor := new PerformanceMonitor(options, targetFPSMin, targetFPSMax);
    }

    method OnRender(seconds: real)
      requires minSamples > 0
      modifies this
      ensures State() == old(State()).Step(seconds).0
      ensures calls == old(calls) + [old(State()).Step(seconds).1]
    {
      var test := true;
      var call := Keep;
      if sampleCount < damping {
        if sampleCount >= minSamples {
          scaleInput := 1.0 / (sampleCount + 1) as real;
          scaleMean := sampleCount as real * scaleInput;
        } else {
          test := false;
        }
        sampleCount := sampleCount + 1;
      }
      meanFrameTime := meanFrameTime * scaleMean + seconds * scaleInput;
      if delayCyclesLeft > 0 {
        delayCyclesLeft := delayCyclesLeft - 1;
      } else if test {
        if meanFrameTime < targetFrameTimeMin {
          call := Increase;
          delayCyclesLeft := delayCycles;
        } else if meanFrameTime > targetFrameTimeMax {
          call := Decrease;
          delayCyclesLeft := delayCycles;
        }
      }
      calls := calls + [call];
    }
  }

  function OrElse(n: nat, otherwise: nat): nat { if n == 0 then otherwise else n }

  /** An option that is zero or missing is replaced, any other is taken. */
  lemma OptionsCount(n: nat, otherwise: nat)
    ensures OrElse(0, otherwise) == otherwise && (n > 0 ==> OrElse(n, otherwise) == n)
  {
  }
}
