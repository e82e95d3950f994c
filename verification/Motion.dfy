/** Where a counter goes.

    `Counter.advance` writes its motion out four times, once for each sign of the
    period and of the amount.  All four are one motion: `up` or down between a
    low and a high end, wrapping or turning at the barrier it runs into.  This
    module describes that motion and its laws; the code is proved to follow it. */
module Motion {
  import opened RealMath
  import opened Callbacks

  const CONTINUOUS := 0
  const ONCE := 1
  const CYCLE := 2
  const OSCILLATE := 3

  /** One call of advance: the path travelled, the final count, whether the
      counter stopped running, and whether it ended up the other way round. */
  datatype Trip = Trip(path: Path, count: real, stopped: bool, turned: bool)

  datatype Range = Range(lo: real, hi: real) {
    /** The end the motion runs into, and the one it comes from. */
    function Barrier(up: bool): real { if up then hi else lo }
    function Far(up: bool): real { Barrier(!up) }
    function Period(): real { hi - lo }
    predicate Contains(x: real) { lo <= x <= hi }
    predicate Reached(up: bool, x: real) { if up then x >= hi else x <= lo }
  }

  function Move(up: bool, x: real, d: real): real { if up then x + d else x - d }

  /** Distance to go until the barrier. */
  function Gap(r: Range, up: bool, x: real): real { if up then r.hi - x else x - r.lo }

  /** A bound on the number of further laps. */
  function LapsLeft(d: real, period: real): nat {
    if period <= 0.0 || d < 0.0 then 0 else (LapsNonNegative(d, period); Laps(d, period) + 1)
  }

  lemma LapsNonNegative(d: real, period: real)
    requires period > 0.0 && d >= 0.0
    ensures Laps(d, period) >= 0
  {
    QuotientBounds(d, period, 0.0);
  }

  lemma LapsLeftDrops(d: real, period: real)
    requires d >= 0.0
    ensures period > 0.0 ==> LapsLeft(d - period, period) < LapsLeft(d, period)
  {
    if period > 0.0 {
      LapsNonNegative(d, period);
      ModShift(d, period, -1);
      assert d - period == d + (-1) as real * period;
    }
  }

  // ------------------------------------------------------------------ the four modes

  function OnceTrip(r: Range, up: bool, c: real, d: real): Trip {
    var target := Move(up, c, d);
    if r.Reached(up, target) then Trip(Last(Leg(c, r.Barrier(up))), r.Barrier(up), true, false)
    else Trip(Last(Leg(c, target)), target, false, false)
  }

  /** `target` is where the count would be without the barrier. */
  function CycleTrip(r: Range, up: bool, c: real, target: real): Trip
    requires r.lo <= r.hi
    decreases LapsLeft(-Gap(r, up, target), r.Period())
  {
    if !r.Reached(up, target) then
      Trip(Last(Leg(c, target)), target, false, false)
    else if r.lo == r.hi then
      Trip(Then(Leg(c, r.Barrier(up)), Last(Leg(c, target))), target, false, false)
    else
      LapsLeftDrops(-Gap(r, up, target), r.Period());
      var rest := CycleTrip(r, up, r.Far(up), Move(!up, target, r.Period()));
      Trip(Then(Leg(c, r.Barrier(up)), rest.path), rest.count, false, false)
  }

  lemma CycleWrap(r: Range, up: bool, c: real, target: real)
    requires r.lo <= r.hi && r.Reached(up, target)
    ensures var rest := if r.lo == r.hi then Trip(Last(Leg(c, target)), target, false, false)
                        else CycleTrip(r, up, r.Far(up), Move(!up, target, r.Period()));
      CycleTrip(r, up, c, target) == Trip(Then(Leg(c, r.Barrier(up)), rest.path), rest.count, false, false)
  {
  }

  function OscillateTrip(r: Range, up: bool, c: real, d: real): Trip
    requires r.lo <= r.hi
    decreases c != r.Far(up), LapsLeft(d, r.Period())
  {
    if d <= 0.0 then
      Trip(Last(Leg(c, c)), c, false, false)
    else if !r.Reached(up, Move(up, c, d)) then
      Trip(Last(Leg(c, Move(up, c, d))), Move(up, c, d), false, false)
    else
      var b := r.Barrier(up);
      if r.lo == r.hi then
        Trip(Then(Leg(c, b), Last(Leg(b, b))), b, false, true)
      else
        LapsLeftDrops(d, r.Period());
        var rest := OscillateTrip(r, !up, b, d - Gap(r, up, c));
        Trip(Then(Leg(c, b), rest.path), rest.count, false, !rest.turned)
  }

  /** The rest of an oscillating trip once it has turned at the barrier. */
  function AfterTurn(r: Range, up: bool, c: real, d: real): Trip
    requires r.lo <= r.hi
  {
    var b := r.Barrier(up);
    if r.lo == r.hi then Trip(Last(Leg(b, b)), b, false, false)
    else OscillateTrip(r, !up, b, d - Gap(r, up, c))
  }

  lemma OscillateTurn(r: Range, up: bool, c: real, d: real)
    requires r.lo <= r.hi && d > 0.0 && r.Reached(up, Move(up, c, d))
    ensures var rest := AfterTurn(r, up, c, d);
      OscillateTrip(r, up, c, d) == Trip(Then(Leg(c, r.Barrier(up)), rest.path), rest.count, false, !rest.turned)
  {
  }

  function ModeTrip(mode: int, r: Range, up: bool, c: real, d: real): Trip
    requires r.lo <= r.hi
  {
    if mode == ONCE then OnceTrip(r, up, c, d)
    else if mode == CYCLE then CycleTrip(r, up, c, Move(up, c, d))
    else if mode == OSCILLATE then OscillateTrip(r, up, c, d)
    else Trip(Last(Leg(c, Move(up, c, d))), Move(up, c, d), false, false)
  }

  // ------------------------------------------------------------- splitting a trip

  /** `t` is `t1` followed by `t2`, in one go. */
  ghost predicate IsOneTrip(t1: Trip, t2: Trip, t: Trip) {
    && t1.path.Final().to == t1.count
    && Continues(t1.path, t2.path)
    && t.path == Glue(t1.path, t2.path)
    && t.count == t2.count
    && t.stopped == (t1.stopped || t2.stopped)
    && t.turned == (t1.turned != t2.turned)
  }

  lemma {:induction false} CycleSplits(r: Range, up: bool, c: real, target: real, b: real)
    requires r.lo < r.hi && b >= 0.0 && Gap(r, up, target) <= Gap(r, up, c)
    ensures var t1 := CycleTrip(r, up, c, target);
      IsOneTrip(t1, CycleTrip(r, up, t1.count, Move(up, t1.count, b)), CycleTrip(r, up, c, Move(up, target, b)))
    decreases LapsLeft(-Gap(r, up, target), r.Period())
  {
    if r.Reached(up, target) {
      LapsLeftDrops(-Gap(r, up, target), r.Period());
      var next := Move(!up, target, r.Period());
      CycleSplits(r, up, r.Far(up), next, b);
      assert Move(!up, Move(up, target, b), r.Period()) == Move(up, next, b);
    }
  }

  /** Splitting a leg that no turn interrupts before the split. */
  lemma OscillateSplitsBeforeTurn(r: Range, up: bool, c: real, a: real, b: real)
    requires r.lo <= r.hi && a >= 0.0 && b >= 0.0
    requires a == 0.0 || !r.Reached(up, Move(up, c, a))
    ensures var m := Move(up, c, a);
      && OscillateTrip(r, up, c, a) == Trip(Last(Leg(c, m)), m, false, false)
      && IsOneTrip(OscillateTrip(r, up, c, a), OscillateTrip(r, up, m, b), OscillateTrip(r, up, c, a + b))
  {
    var m := Move(up, c, a);
    assert Move(up, m, b) == Move(up, c, a + b);
    assert b - Gap(r, up, m) == a + b - Gap(r, up, c);
  }

  lemma {:induction false} OscillateSplits(r: Range, up: bool, c: real, a: real, b: real)
    requires r.lo < r.hi && a >= 0.0 && b >= 0.0
    ensures var t1 := OscillateTrip(r, up, c, a);
      IsOneTrip(t1, OscillateTrip(r, up != t1.turned, t1.count, b), OscillateTrip(r, up, c, a + b))
    decreases c != r.Far(up), LapsLeft(a, r.Period())
  {
    if a == 0.0 || !r.Reached(up, Move(up, c, a)) {
      OscillateSplitsBeforeTurn(r, up, c, a, b);
    } else {
      LapsLeftDrops(a, r.Period());
      var turn, gap := r.Barrier(up), Gap(r, up, c);
      OscillateSplits(r, !up, turn, a - gap, b);
      assert a + b - gap == (a - gap) + b;
      var rest := OscillateTrip(r, !up, turn, a - gap);
      assert (up != !rest.turned) == ((!up) != rest.turned);
    }
  }

  /** Moving by `a` and then by `b` is moving by `a + b`, in every mode and from every
      count, inside the range or out of it; only a wrap or a turn needs room. */
  lemma TripSplits(mode: int, r: Range, up: bool, c: real, a: real, b: real)
    requires r.lo <= r.hi && a >= 0.0 && b >= 0.0
    requires mode == CYCLE || mode == OSCILLATE ==> r.lo < r.hi
    ensures var t1 := ModeTrip(mode, r, up, c, a);
      IsOneTrip(t1, ModeTrip(mode, r, up != t1.turned, t1.count, b), ModeTrip(mode, r, up, c, a + b))
  {
    if mode == CYCLE {
      CycleSplits(r, up, c, Move(up, c, a), b);
      assert Move(up, Move(up, c, a), b) == Move(up, c, a + b);
    } else if mode == OSCILLATE {
      OscillateSplits(r, up, c, a, b);
    }
  }

  // --------------------------------------------------------- oscillation is rotation

  /** Position on a circle of length twice the period: up the one half, down the other. */
  function Angle(r: Range, up: bool, c: real): real {
    if up then c - r.lo else 2.0 * r.Period() - (c - r.lo)
  }

  /** An oscillating counter goes round a circle at constant speed. */
  lemma {:induction false} OscillationIsRotation(r: Range, up: bool, c: real, d: real)
    requires r.lo < r.hi && r.Contains(c) && d > 0.0
    ensures var t := OscillateTrip(r, up, c, d);
      && r.Contains(t.count)
      && 0.0 <= Angle(r, up != t.turned, t.count) < 2.0 * r.Period()
      && Angle(r, up != t.turned, t.count) == Mod(Angle(r, up, c) + d, 2.0 * r.Period())
      && ((up != t.turned) <==> Angle(r, up != t.turned, t.count) < r.Period())
    decreases c != r.Far(up), LapsLeft(d, r.Period())
  {
    var t := OscillateTrip(r, up, c, d);
    var m := 2.0 * r.Period();
    if !r.Reached(up, Move(up, c, d)) {
      ModUnique(Angle(r, up, c) + d, m, Angle(r, up, t.count), 0);
    } else {
      LapsLeftDrops(d, r.Period());
      var b, rest := r.Barrier(up), d - Gap(r, up, c);
      assert Angle(r, up, c) + d == Angle(r, !up, b) + rest + (if up then 0.0 else m);
      if rest > 0.0 {
        OscillationIsRotation(r, !up, b, rest);
        if !up { ModShift(Angle(r, true, b) + rest, m, 1); }
      } else {
        ModUnique(Angle(r, up, c) + d, m, Angle(r, !up, b), if up then 0 else 1);
      }
    }
  }
}
