/** The shape of a curve, told without the functions that compute it. */
module CurveShapes {
  import opened RealMath
  import opened CurveKeys
  import opened Curves

  // ------------------------------------------------------------------ between two keys

  lemma ValueAt(keys: seq<Key>, pre: int, post: int, i: nat, x: real)
    requires Ready(keys) && Covers(keys, x, i)
    ensures Value(keys, pre, post, x) == keys[i].OutputAtOffset(x - keys[i].input, keys[i + 1])
  {
    hide Key.OutputAtOffset;
    assert keys[0].input <= keys[i].input && keys[i + 1].input <= keys[|keys| - 1].input;
    CoverUnique(keys, x, i, Cover(keys, x));
  }

  /** After a step key the value stays. */
  lemma StepStays(keys: seq<Key>, pre: int, post: int, i: nat, x: real)
    requires Ready(keys) && Covers(keys, x, i) && keys[i].Step?
    ensures Value(keys, pre, post, x) == keys[i].output
  {
    hide Value;
    ValueAt(keys, pre, post, i, x);
  }

  /** After a linear key the value goes straight to the next key. */
  lemma LinearGoesStraight(keys: seq<Key>, pre: int, post: int, i: nat, x: real)
    requires Ready(keys) && Covers(keys, x, i) && keys[i].Linear?
    ensures (Value(keys, pre, post, x) - keys[i].output) * (keys[i + 1].input - keys[i].input)
         == (x - keys[i].input) * (keys[i + 1].output - keys[i].output)
  {
    hide Value;
    ValueAt(keys, pre, post, i, x);
    var offset, span, rise := x - keys[i].input, keys[i + 1].input - keys[i].input, keys[i + 1].output - keys[i].output;
    Proportion(offset, span, rise);
    assert Value(keys, pre, post, x) - keys[i].output == offset / span * rise;
  }

  lemma Proportion(offset: real, span: real, rise: real)
    requires span != 0.0
    ensures offset / span * rise * span == offset * rise
  {
    DividedTimes(offset, span);
    var q := offset / span;
    assert q * rise * span == q * span * rise;
    MulBoth(q * span, offset, rise);
  }

  /** A cubic through its four controls, by powers of `t`. */
  function Cubic(p: real, q: real, r: real, s: real, t: real): real {
    p + 3.0 * (q - p) * t + 3.0 * (p - 2.0 * q + r) * Power(t, 2) + (s - 3.0 * r + 3.0 * q - p) * Power(t, 3)
  }

  function Power(t: real, n: nat): real { if n == 0 then 1.0 else t * Power(t, n - 1) }

  lemma ControlsByPowers(p: real, q: real, r: real, s: real, t: real)
    ensures Controls(p, q, r, s).At(t) == Cubic(p, q, r, s, t)
  {
    assert Power(t, 2) == t * t && Power(t, 3) == t * t * t by {
      assert Power(t, 1) == t;
    }
    ByPowers(p, q, r, s, t);
  }

  lemma ByPowers(p: real, q: real, r: real, s: real, t: real)
    ensures var ti := 1.0 - t;
      p * ti * ti * ti + 3.0 * q * t * ti * ti + 3.0 * r * t * t * ti + s * t * t * t
      == p + 3.0 * (q - p) * t + 3.0 * (p - 2.0 * q + r) * (t * t) + (s - 3.0 * r + 3.0 * q - p) * (t * t * t)
  {
  }

  /** The cubic comes within a thousandth of `x` at `t`, or passes it within a thousandth of `t`. */
  ghost predicate Solves(p: real, q: real, r: real, s: real, x: real, t: real) {
    || -0.001 <= Cubic(p, q, r, s, t) - x <= 0.001
    || exists low, high :: PassesBetween(p, q, r, s, x, low, high) && low <= t <= high <= low + 0.001
  }

  ghost predicate PassesBetween(p: real, q: real, r: real, s: real, x: real, low: real, high: real) {
    0.0 <= low <= high <= 1.0 && Cubic(p, q, r, s, low) <= x < Cubic(p, q, r, s, high)
  }

  lemma GoodRootSolves(c: Controls, x: real, t: real)
    requires GoodRoot(c, x, t)
    ensures Solves(c.c0, c.c1, c.c2, c.c3, x, t)
  {
    hide Cubic, Controls.At;
    ControlsByPowers(c.c0, c.c1, c.c2, c.c3, t);
    if Abs(c.At(t) - x) > TOLERANCE {
      var low, high :| Brackets(c, x, low, high) && high - low <= TOLERANCE && (t == low || t == high);
      ControlsByPowers(c.c0, c.c1, c.c2, c.c3, low);
      ControlsByPowers(c.c0, c.c1, c.c2, c.c3, high);
      assert PassesBetween(c.c0, c.c1, c.c2, c.c3, x, low, high);
    }
  }

  /** The control before the next key: its own, or a third of the way back to this one. */
  function ControlBefore(key: Key, next: Key): (real, real) {
    if next.Bezier? then (next.inTangentX, next.inTangentY)
    else (key.input + 2.0 * (next.input - key.input) / 3.0, key.output + 2.0 * (next.output - key.output) / 3.0)
  }

  /** `t` solves the cubic of the inputs, and `v` is the cubic of the outputs there. */
  ghost predicate OnBezier(key: Key, next: Key, x: real, v: real, t: real)
    requires key.Bezier?
  {
    var before := ControlBefore(key, next);
    && 0.0 < t < 1.0
    && Solves(key.input, key.outTangentX, before.0, next.input, x, t)
    && v == Cubic(key.output, key.outTangentY, before.1, next.output, t)
  }

  lemma FindTInside(c: Controls, input: real, guess: real)
    ensures 0.0 < FindT(c, input, guess) < 1.0
  {
    BisectInside(c, input, 0.0, 1.0, ClampGuess(guess));
  }

  lemma {:induction false} BisectInside(c: Controls, input: real, low: real, high: real, mid: real)
    requires high - low > TOLERANCE && 0.0 <= low && high <= 1.0
    requires low + (high - low) / 10.0 <= mid <= high - (high - low) / 10.0
    ensures 0.0 < Bisect(c, input, low, high, mid) < 1.0
    decreases (10000.0 * (high - low)).Floor
  {
    hide Controls.At;
    if Abs(c.At(mid) - input) > TOLERANCE {
      var low', high' := if c.At(mid) > input then low else mid, if c.At(mid) > input then mid else high;
      if high' - low' > TOLERANCE {
        BisectInside(c, input, low', high', (high' - low') / 2.0 + low');
      }
    }
  }

  /** After a Bezier key the value is the cubic of the outputs at a solution of that of the inputs. */
  lemma BezierFollowsControls(keys: seq<Key>, pre: int, post: int, i: nat, x: real) returns (t: real)
    requires Ready(keys) && Covers(keys, x, i) && keys[i].Bezier?
    ensures OnBezier(keys[i], keys[i + 1], x, Value(keys, pre, post, x), t)
  {
    hide Value, FindT, Controls.At, Cubic, Solves;
    ValueAt(keys, pre, post, i, x);
    var key, next, before := keys[i], keys[i + 1], ControlBefore(keys[i], keys[i + 1]);
    var c := Controls(key.input, key.outTangentX, before.0, next.input);
    t := FindT(c, x, (x - key.input) / (next.input - key.input));
    FindTInside(c, x, (x - key.input) / (next.input - key.input));
    FindTIsGood(c, x, (x - key.input) / (next.input - key.input));
    GoodRootSolves(c, x, t);
    ControlsByPowers(key.output, key.outTangentY, before.1, next.output, t);
    ThirdsBack(key.input, next.input);
    ThirdsBack(key.output, next.output);
    assert key.input + (x - key.input) == x;
  }

  lemma ThirdsBack(x: real, y: real)
    ensures y - (y - x) / 3.0 == x + 2.0 * (y - x) / 3.0
  {
  }

  // ---------------------------------------------------------------------- at the keys

  /** The curve goes through its step and linear keys, the last of those at one input. */
  lemma ThroughKeys(keys: seq<Key>, pre: int, post: int, i: nat)
    requires Ready(keys) && i + 1 < |keys| && keys[i].input < keys[i + 1].input && !keys[i].Bezier?
    ensures Value(keys, pre, post, keys[i].input) == keys[i].output
  {
    hide Value;
    var x := keys[i].input;
    ValueAt(keys, pre, post, i, x);
    assert 0.0 / (keys[i + 1].input - keys[i].input) == 0.0;
  }

  /** Bezier keys need not be on the curve: the root finder never answers 0, and is content with
      an input a thousandth off. */
  lemma BezierMissesItsKey()
    ensures var keys := [Bezier(0.0, 0.0, 0.0, 0.0, 0.0, 0.0), Linear(0.001, 1.0)];
      Ready(keys) && Value(keys, CONSTANT, CONSTANT, 0.0) != keys[0].output
  {
    var keys := [Bezier(0.0, 0.0, 0.0, 0.0, 0.0, 0.0), Linear(0.001, 1.0)];
    hide Value, Controls.At, Cubic;
    ValueAt(keys, CONSTANT, CONSTANT, 0, 0.0);
    var inX, inY := 0.001 - 0.001 / 3.0, 1.0 - 1.0 / 3.0;
    var c := Controls(0.0, 0.0, inX, 0.001);
    FirstLook(inX);
    assert FindT(c, 0.0, 0.0) == 0.1;
    OutputThere(inY);
  }

  lemma FirstLook(inX: real)
    requires inX == 0.001 - 0.001 / 3.0
    ensures Abs(Controls(0.0, 0.0, inX, 0.001).At(0.1) - 0.0) <= TOLERANCE
  {
  }

  lemma OutputThere(inY: real)
    requires inY == 1.0 - 1.0 / 3.0
    ensures Controls(0.0, 0.0, inY, 1.0).At(0.1) > 0.0
  {
  }

  // ------------------------------------------------------------------- beyond the keys

  /** CONSTANT: flat on either side. */
  lemma ConstantIsFlat(keys: seq<Key>, pre: int, post: int, x: real)
    requires |keys| >= 2
    ensures x < keys[0].input && pre == 0 ==> Value(keys, pre, post, x) == keys[0].output
    ensures x >= keys[|keys| - 1].input && x >= keys[0].input && post == 0 ==>
              Value(keys, pre, post, x) == keys[|keys| - 1].output
  {
  }

  /** LINEAR before the keys: the line through the first two, unless they are too close together. */
  lemma LinearBefore(keys: seq<Key>, post: int, x: real)
    requires Ready(keys) && x < keys[0].input && keys[0].input < keys[|keys| - 1].input
    ensures var a, b, v := keys[0], keys[1], Value(keys, 1, post, x);
      if b.input - a.input > 0.00001 then
        (v - a.output) * (b.input - a.input) == (x - a.input) * (b.output - a.output)
      else v == a.output
  {
    var a, b := keys[0], keys[1];
    assert Value(keys, 1, post, x) == OnLine(a, b, x);
    if b.input - a.input > 0.00001 {
      LineThrough(a, b, x);
    }
  }

  /** And after them: the line through the last two. */
  lemma LinearAfter(keys: seq<Key>, pre: int, x: real)
    requires Ready(keys) && x >= keys[|keys| - 1].input && keys[0].input < keys[|keys| - 1].input
    ensures var a, b, v := keys[|keys| - 2], keys[|keys| - 1], Value(keys, pre, 1, x);
      if b.input - a.input > 0.00001 then
        (v - b.output) * (b.input - a.input) == (x - b.input) * (b.output - a.output)
      else v == b.output
  {
    var a, b := keys[|keys| - 2], keys[|keys| - 1];
    assert Value(keys, pre, 1, x) == OnLine(b, a, x);
    if b.input - a.input > 0.00001 {
      LineThrough(b, a, x);
      assert (OnLine(b, a, x) - b.output) * (a.input - b.input) == (x - b.input) * (a.output - b.output);
      BothNegated(OnLine(b, a, x) - b.output, a.input - b.input, x - b.input, a.output - b.output);
    }
  }

  lemma LineThrough(edge: Key, inner: Key, x: real)
    requires Abs(inner.input - edge.input) > EPSILON
    ensures (OnLine(edge, inner, x) - edge.output) * (inner.input - edge.input)
         == (x - edge.input) * (inner.output - edge.output)
  {
    SlopeTimes(x - edge.input, inner.output - edge.output, inner.input - edge.input);
  }

  lemma SlopeTimes(d: real, rise: real, run: real)
    requires run != 0.0
    ensures d * (rise / run) * run == d * rise
  {
    DividedTimes(rise, run);
    Grouped(d, rise / run, run);
    MulBoth(rise / run * run, rise, d);
  }

  lemma Grouped(d: real, q: real, run: real)
    ensures d * q * run == q * run * d
  {
  }

  lemma BothNegated(v: real, p: real, d: real, q: real)
    requires v * p == d * q
    ensures v * -p == d * -q
  {
  }

  /** CYCLE and CYCLE_RELATIVE, told by the keys: one span on, the curve repeats itself, or stands
      higher by the difference of the outer outputs. */
  lemma RepeatsAfterSpan(keys: seq<Key>, x: real)
    requires |keys| >= 2 && keys[|keys| - 1].input > keys[0].input
    ensures var first, last := keys[0], keys[|keys| - 1];
      && Value(keys, 2, 2, x + (last.input - first.input)) == Value(keys, 2, 2, x)
      && Value(keys, 3, 3, x + (last.input - first.input)) == Value(keys, 3, 3, x) + (last.output - first.output)
      && Value(keys, 4, 4, x + 2.0 * (last.input - first.input)) == Value(keys, 4, 4, x)
      && Value(keys, 4, 4, 2.0 * first.input - x) == Value(keys, 4, 4, x)
  {
    hide Value;
    CycleIsPeriodic(keys, x);
    CycleRelativeRises(keys, x);
    OscillateIsEvenAndPeriodic(keys, x);
  }

  // --------------------------------------------------------------------- adding keys

  /** Keys take their numbers from the list of values in this order. */
  lemma KeysFromValues(values: seq<real>, n: nat, k: nat)
    requires k < n
    ensures 2 * n <= |values| ==>
              LinearKeys(values, n)[k] == Linear(values[2 * k], values[2 * k + 1])
              && StepKeys(values, n)[k] == Step(values[2 * k], values[2 * k + 1])
    ensures 6 * n <= |values| ==>
              var key := BezierKeys(values, n)[k];
              && key.Bezier? && key.input == values[6 * k] && key.output == values[6 * k + 1]
              && key.inTangentX == values[6 * k + 2] && key.inTangentY == values[6 * k + 3]
              && key.outTangentX == values[6 * k + 4] && key.outTangentY == values[6 * k + 5]
  {
  }

  /** An unknown mode is flat too, and so is a curve whose keys all lie at one input. */
  lemma FlatOtherwise(keys: seq<Key>, pre: int, post: int, x: real)
    requires Ready(keys)
    ensures x < keys[0].input && (pre < 0 || pre > 4 || keys[0].input == keys[|keys| - 1].input) ==>
              Value(keys, pre, post, x) == keys[0].output
    ensures x >= keys[|keys| - 1].input && (post < 0 || post > 4 || keys[0].input == keys[|keys| - 1].input) ==>
              Value(keys, pre, post, x) == keys[|keys| - 1].output
  {
  }
}
