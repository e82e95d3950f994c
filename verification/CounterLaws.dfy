/** What a counter promises over several calls of `advance`. */
module CounterLaws {
  import opened RealMath
  import opened Callbacks
  import opened Motion
  import opened Counters

  /** The range has room to wrap or turn in, if the mode does either. */
  predicate HasRoom(s: Snapshot) { s.countMode == CYCLE || s.countMode == OSCILLATE ==> s.start != s.end }

  ghost predicate InRange(s: Snapshot) {
    && s.start != s.end
    && (Bounded(s.countMode) ==> s.Bounds().Contains(s.count))
  }

  /** Amounts of one sign for which every step is a real step, or the counter counts up
      anyway (a zero amount is treated as counting up, see `ZeroAdvance`). */
  predicate CleanSteps(s: Snapshot, a: real, b: real) {
    || (a > 0.0 && b > 0.0)
    || (a < 0.0 && b < 0.0)
    || (a >= 0.0 && b >= 0.0 && s.forward && s.multiplier >= 0.0 && s.start < s.end)
  }

  predicate Bounded(mode: int) { mode == ONCE || mode == CYCLE || mode == OSCILLATE }

  /** After the first advance the counter stands on its smallest callback, above the
      lower bound; it has come down to it, and the second advance takes it further down. */
  predicate StopsOnLowestCallback(s: Snapshot, a: real, b: real) {
    var t := s.After(a);
    && t.callbacks != [] && t.callbacks[0].count == t.count
    && t.Delta(b) != 0.0 && !t.Upward(t.Delta(b))
    && (Bounded(t.countMode) ==> t.Bounds().lo < t.count)
    && (Bounded(t.countMode) ==> t.count < t.Bounds().hi || CameStraightDown(s, a))
  }

  /** The advance moved the count down by its full amount, without a wrap or a turn. */
  predicate CameStraightDown(s: Snapshot, a: real) {
    !s.Upward(s.Delta(a)) && s.count - s.After(a).count == Abs(s.Delta(a)) > 0.0
  }

  lemma DeltaSplits(s: Snapshot, a: real, b: real)
    requires (a >= 0.0 && b >= 0.0) || (a < 0.0 && b < 0.0)
    ensures Abs(s.Delta(a + b)) == Abs(s.Delta(a)) + Abs(s.Delta(b))
    ensures s.Delta(a) > 0.0 ==> s.Delta(b) >= 0.0 && s.Delta(a + b) > 0.0
    ensures s.Delta(a) < 0.0 ==> s.Delta(b) <= 0.0 && s.Delta(a + b) < 0.0
    ensures s.Delta(a) == 0.0 ==> s.Delta(a + b) == s.Delta(b)
    ensures b != 0.0 && s.multiplier != 0.0 ==> s.Delta(b) != 0.0
    ensures s.multiplier == 0.0 ==> s.Delta(b) == 0.0
    ensures s.forward && s.multiplier >= 0.0 && b >= 0.0 ==> s.Delta(b) >= 0.0
    ensures a != 0.0 && s.Delta(a) == 0.0 ==> s.multiplier == 0.0
  {
    var k := if s.forward then s.multiplier else -s.multiplier;
    assert s.Delta(a) == a * k && s.Delta(b) == b * k && s.Delta(a + b) == a * k + b * k;
    SignOfProduct(a, k);
    SignOfProduct(b, k);
  }

  lemma SignOfProduct(a: real, k: real)
    ensures a * k > 0.0 <==> (a > 0.0 && k > 0.0) || (a < 0.0 && k < 0.0)
    ensures a * k < 0.0 <==> (a > 0.0 && k < 0.0) || (a < 0.0 && k > 0.0)
  {
  }

  lemma DeltaTurned(s: Snapshot, t: Snapshot, b: real)
    requires t.multiplier == s.multiplier
    ensures t.forward == s.forward ==> t.Delta(b) == s.Delta(b)
    ensures t.forward != s.forward ==> t.Delta(b) == -s.Delta(b)
  {
  }

  /** The two trips of a split advance are the trip of the whole. */
  lemma AdvanceTripSplits(s: Snapshot, a: real, b: real)
    requires HasRoom(s) && CleanSteps(s, a, b)
    ensures IsOneTrip(s.Trip(a), s.After(a).Trip(b), s.Trip(a + b))
  {
    hide FlyAll;
    var t, r := s.After(a), s.Bounds();
    DeltaSplits(s, a, b);
    DeltaTurned(s, t, b);
    if s.start > s.end && s.multiplier == 0.0 {
    } else {
      var up := s.Upward(s.Delta(a));
      TripSplits(s.countMode, r, up, s.count, Abs(s.Delta(a)), Abs(s.Delta(b)));
      assert s.Trip(a) == ModeTrip(s.countMode, r, up, s.count, Abs(s.Delta(a)));
      assert s.Trip(a + b) == ModeTrip(s.countMode, r, up, s.count, Abs(s.Delta(a)) + Abs(s.Delta(b)));
      TurnsOnlyWhenMoving(s.countMode, r, up, s.count, Abs(s.Delta(a)));
      assert t.Trip(b) == ModeTrip(s.countMode, r, up != s.Trip(a).turned, t.count, Abs(s.Delta(b)));
    }
  }

  lemma TurnsOnlyWhenMoving(mode: int, r: Range, up: bool, c: real, d: real)
    requires r.lo <= r.hi
    ensures ModeTrip(mode, r, up, c, d).turned ==> mode == OSCILLATE && d > 0.0
  {
  }

  /** How an advance is cut into steps makes no difference to the count, the
      direction, the running flag and the cursors; and none to the callbacks
      called, unless the cut leaves a downward counter on its smallest callback. */
  lemma StepSizeIndependence(s: Snapshot, a: real, b: real)
    requires s.Ok() && HasRoom(s) && CleanSteps(s, a, b)
    ensures s.After(a).After(b) == s.After(a + b)
    ensures s.Fired(a) + s.After(a).Fired(b) == s.Fired(a + b) <==> !StopsOnLowestCallback(s, a, b)
  {
    AdvanceTripSplits(s, a, b);
    GluedFires(s.callbacks, [], s.cursor, s.Trip(a).path, s.After(a).Trip(b).path);
    SeamIsVisible(s, a, b);
  }

  /** The seam of the paths, read off the counter between the two calls. */
  lemma SeamIsVisible(s: Snapshot, a: real, b: real)
    requires HasRoom(s) && CleanSteps(s, a, b)
    ensures SeamBetween(s.callbacks, s.Trip(a).path, s.After(a).Trip(b).path) <==> StopsOnLowestCallback(s, a, b)
  {
    hide FlyAll, ModeTrip;
    var t, r := s.After(a), s.Bounds();
    DeltaSplits(s, a, b);
    DeltaTurned(s, t, b);
    if s.start > s.end && s.Delta(a) == 0.0 {
      assert s.Trip(a).path == Last(Leg(s.count, s.count));
    } else {
      var up, up' := s.Upward(s.Delta(a)), t.Upward(t.Delta(b));
      TurnsOnlyWhenMoving(s.countMode, r, up, s.count, Abs(s.Delta(a)));
      TripEnds(s.countMode, r, up, s.count, Abs(s.Delta(a)));
      TripStarts(s.countMode, r, up', t.count, Abs(t.Delta(b)));
      assert t.Delta(b) != 0.0 ==> up' == (up != s.Trip(a).turned);
    }
  }

  /** How a trip ends: going up at or below the upper bound; and if it ends going down,
      whether its last leg came down. */
  lemma TripEnds(mode: int, r: Range, up: bool, c: real, d: real)
    requires r.lo <= r.hi && d >= 0.0 && (mode == CYCLE || mode == OSCILLATE ==> r.lo < r.hi)
    ensures var t := ModeTrip(mode, r, up, c, d);
      var x, m := t.path.Final().from, t.count;
      && (d == 0.0 && mode != ONCE && mode != CYCLE ==> x == m)
      && (up != t.turned && Bounded(mode) && (d > 0.0 || mode != OSCILLATE) ==> m <= r.hi)
      && (up == t.turned && d > 0.0 && (Bounded(mode) ==> m > r.lo) ==>
            (x > m <==> !Bounded(mode) || m < r.hi || c > m == Move(up, c, d)))
  {
    if mode == CYCLE {
      CycleEnds(r, up, c, Move(up, c, d));
    } else if mode == OSCILLATE && d > 0.0 {
      OscillateEnds(r, up, c, d);
    }
  }

  lemma {:induction false} CycleEnds(r: Range, up: bool, c: real, target: real)
    requires r.lo < r.hi && Gap(r, up, target) <= Gap(r, up, c)
    ensures var t := CycleTrip(r, up, c, target);
      var x, m := t.path.Final().from, t.count;
      && (if up then m < r.hi else m > r.lo)
      && (!up && (target < c || c == r.hi) ==> (x > m <==> m < r.hi || c > m == target))
    decreases LapsLeft(-Gap(r, up, target), r.Period())
  {
    if r.Reached(up, target) {
      LapsLeftDrops(-Gap(r, up, target), r.Period());
      CycleEnds(r, up, r.Far(up), Move(!up, target, r.Period()));
    }
  }

  lemma {:induction false} OscillateEnds(r: Range, up: bool, c: real, d: real)
    requires r.lo < r.hi && d > 0.0
    ensures var t := OscillateTrip(r, up, c, d);
      var x, m := t.path.Final().from, t.count;
      && (up != t.turned ==> m <= r.hi)
      && (up == t.turned ==> (x > m <==> m < r.hi || c > m == Move(up, c, d)))
    decreases c != r.Far(up), LapsLeft(d, r.Period())
  {
    if r.Reached(up, Move(up, c, d)) {
      LapsLeftDrops(d, r.Period());
      if d - Gap(r, up, c) > 0.0 {
        OscillateEnds(r, !up, r.Barrier(up), d - Gap(r, up, c));
      }
    }
  }

  /** A trip starts the way it is headed, if there is room. */
  lemma TripStarts(mode: int, r: Range, up: bool, c: real, d: real)
    requires r.lo <= r.hi && d >= 0.0
    ensures var leg := ModeTrip(mode, r, up, c, d).path.leg;
      && leg.from == c
      && (up && (Bounded(mode) ==> c <= r.hi) ==> leg.to >= c)
      && (!up ==> (leg.to < c <==> d > 0.0 && (Bounded(mode) ==> c > r.lo)))
  {
  }

  /** Forward from start to a higher end, no step size is visible at all, exact
      landings on the end included. */
  lemma CountingUpIsExact(s: Snapshot, a: real, b: real)
    requires s.Ok() && a >= 0.0 && b >= 0.0
    requires s.forward && s.multiplier >= 0.0 && s.start < s.end && s.countMode != OSCILLATE
    ensures s.After(a).After(b) == s.After(a + b)
    ensures s.Fired(a) + s.After(a).Fired(b) == s.Fired(a + b)
  {
    hide FlyAll, ModeTrip;
    StepSizeIndependence(s, a, b);
    DeltaSplits(s, a, b);
    TurnsOnlyWhenMoving(s.countMode, s.Bounds(), true, s.count, Abs(s.Delta(a)));
  }

  /** Unbounded, an advance is one leg. */
  lemma ContinuousAdvance(s: Snapshot, a: real)
    requires s.countMode == CONTINUOUS && s.start <= s.end
    ensures var leg := Leg(s.count, s.count + s.Delta(a));
      && s.Fired(a) == LegActions(s.callbacks, s.cursor, leg)
      && s.After(a) == s.(cursor := LegCursor(s.callbacks, s.cursor, leg), count := leg.to)
  {
    hide LegActions, LegCursor;
    FlyOne(s.callbacks, s.cursor, Leg(s.count, s.count + s.Delta(a)));
  }

  lemma OneCallback(w: Window)
    ensures SelectDown([Callback(5.0, 7)], w) == if w.Has(5.0) then [7] else []
    ensures Rank([Callback(5.0, 7)], 5.0, false) == 0
  {
    assert [Callback(5.0, 7)][1..] == [];
  }

  /** The smallest callback called twice: counting down from 10 to 0 in one step
      calls the callback at 5 once, in two steps of 5 it calls it twice. */
  lemma LowestCallbackCalledTwice()
    ensures var s := Snapshot([Callback(5.0, 7)], Cursor(-1, -1, 0.0), 10.0, true, false, 0.0, 10.0, 1.0, CONTINUOUS);
      && s.Ok() && HasRoom(s) && CleanSteps(s, 5.0, 5.0)
      && s.Fired(10.0) == [7]
      && s.Fired(5.0) == [7] && s.After(5.0).Fired(5.0) == [7]
  {
    hide Snapshot.After, Snapshot.Fired, SelectDown, Rank;
    var cbs := [Callback(5.0, 7)];
    var s := Snapshot(cbs, Cursor(-1, -1, 0.0), 10.0, true, false, 0.0, 10.0, 1.0, CONTINUOUS);
    var t := s.(cursor := Cursor(-1, -1, 5.0), count := 5.0);
    ContinuousAdvance(s, 10.0);
    ContinuousAdvance(s, 5.0);
    ContinuousAdvance(t, 5.0);
    OneCallback(LegWindow(s.cursor, Leg(10.0, 0.0)));
    OneCallback(LegWindow(s.cursor, Leg(10.0, 5.0)));
    OneCallback(LegWindow(t.cursor, Leg(5.0, 0.0)));
  }

  // ------------------------------------------------------------------ oscillation

  /** Distance from start, counted on through the way back. */
  function Phase(s: Snapshot): real {
    if s.forward then Abs(s.count - s.start) else 2.0 * Abs(s.end - s.start) - Abs(s.count - s.start)
  }

  /** An oscillating counter's phase turns at constant speed, whichever of start
      and end is the larger, and the direction flag says which half it is in. */
  lemma OscillationPhase(s: Snapshot, a: real)
    requires InRange(s) && s.countMode == OSCILLATE && s.multiplier > 0.0 && a > 0.0
    ensures Phase(s.After(a)) == Mod(Phase(s) + a * s.multiplier, 2.0 * Abs(s.end - s.start))
    ensures s.After(a).forward <==> Phase(s.After(a)) < Abs(s.end - s.start)
    ensures InRange(s.After(a))
  {
    hide FlyAll, Phase, Angle, AngleFromTop, ModeTrip, Mod;
    var r, t, d := s.Bounds(), s.After(a), a * s.multiplier;
    var up := s.forward == (s.start < s.end);
    OscillatingTrip(s, a);
    hide OscillateTrip;
    OscillationIsRotation(r, up, s.count, d);
    var up' := up != s.Trip(a).turned;
    HalfTurn(r, up, s.count, up', t.count, d);
    PhaseIsAngle(s, up);
    PhaseIsAngle(t, up');
  }

  lemma OscillatingTrip(s: Snapshot, a: real)
    requires InRange(s) && s.countMode == OSCILLATE && s.multiplier > 0.0 && a > 0.0
    ensures a * s.multiplier > 0.0
    ensures s.Trip(a) == OscillateTrip(s.Bounds(), s.forward == (s.start < s.end), s.count, a * s.multiplier)
  {
    assert s.Delta(a) == if s.forward then a * s.multiplier else -(a * s.multiplier);
  }

  lemma PhaseIsAngle(s: Snapshot, up: bool)
    requires s.start != s.end && s.Bounds().Contains(s.count) && up == (s.forward == (s.start < s.end))
    ensures Phase(s)
         == if s.start < s.end then Angle(s.Bounds(), up, s.count) else AngleFromTop(s.Bounds(), up, s.count)
  {
  }

  /** The angle seen from the upper end. */
  function AngleFromTop(r: Range, up: bool, c: real): real {
    if up then 2.0 * r.Period() - (r.hi - c) else r.hi - c
  }

  lemma HalfTurn(r: Range, up: bool, c: real, up': bool, c': real, d: real)
    requires r.lo < r.hi && r.Contains(c) && r.Contains(c')
    requires 0.0 <= Angle(r, up', c') < 2.0 * r.Period() && (up' <==> Angle(r, up', c') < r.Period())
    requires Angle(r, up', c') == Mod(Angle(r, up, c) + d, 2.0 * r.Period())
    ensures AngleFromTop(r, up', c') == Mod(AngleFromTop(r, up, c) + d, 2.0 * r.Period())
    ensures !up' <==> AngleFromTop(r, up', c') < r.Period()
  {
    var m, p, k := 2.0 * r.Period(), r.Period(), Laps(Angle(r, up, c) + d, 2.0 * r.Period());
    var j := k + (if up then 0 else -1) + (if up' then 0 else 1);
    assert j as real * m == k as real * m + (if up then 0.0 else -m) + (if up' then 0.0 else m);
    assert AngleFromTop(r, up, c) == Angle(r, up, c) + (if up then p else -p);
    assert AngleFromTop(r, up', c') == Angle(r, up', c') + (if up' then p else -p);
    ModUnique(AngleFromTop(r, up, c) + d, m, AngleFromTop(r, up', c'), j);
  }

  // ------------------------------------------------------------ advancing by nothing

  /** A counter at or past its end notices an advance by zero, even one that is counting
      backward: ONCE stops it, CYCLE takes it back, and CYCLE without room calls the
      callbacks between the end and the count. */
  predicate NoticesZero(s: Snapshot) {
    && s.start <= s.end <= s.count
    && (|| (s.countMode == ONCE && (s.running || s.count > s.end))
        || (s.countMode == CYCLE && s.start < s.end)
        || (s.countMode == CYCLE && s.end < s.count && !NoneIn(s.callbacks, LegWindow(s.cursor, Leg(s.count, s.end)))))
  }

  /** Advancing by zero changes nothing that shows and calls nothing, unless the counter
      notices it.  The cursors then stay too, except past the end of a cycle without room. */
  lemma ZeroAdvance(s: Snapshot)
    ensures s.After(0.0).(cursor := s.cursor) == s && s.Fired(0.0) == [] <==> !NoticesZero(s)
    ensures !NoticesZero(s) ==>
              s.After(0.0).cursor == if s.countMode == CYCLE && s.start == s.end < s.count
                                     then LegCursor(s.callbacks, s.cursor, Leg(s.count, s.end)) else s.cursor
  {
    assert s.Delta(0.0) == 0.0;
    var r, c := s.Bounds(), s.count;
    if s.start < s.end <= c && s.countMode == CYCLE {
      CycleEndsBelow(r, c, c);
    } else if s.start == s.end <= c && s.countMode == CYCLE {
      assert s.Trip(0.0).path == Then(Leg(c, s.end), Last(Leg(c, c)));
      FlyTwo(s.callbacks, s.cursor, Leg(c, s.end), Leg(c, c));
      if c > s.end {
        SelectNothing(s.callbacks, LegWindow(s.cursor, Leg(c, s.end)));
      }
    } else if s.countMode == ONCE && s.start <= s.end <= c {
      FlyOne(s.callbacks, s.cursor, Leg(c, s.end));
    } else {
      assert s.Trip(0.0).path == Last(Leg(c, c));
      FlyOne(s.callbacks, s.cursor, Leg(c, c));
    }
  }

  /** Past the end of a cycle without room, every advance by zero calls the callback at 3. */
  lemma ZeroAdvanceCalls()
    ensures var s := Snapshot([Callback(3.0, 7)], Cursor(-1, -1, 0.0), 5.0, true, true, 0.0, 0.0, 1.0, CYCLE);
      s.Ok() && s.After(0.0).(cursor := s.cursor) == s && s.Fired(0.0) == [7] && s.After(0.0).Fired(0.0) == [7]
  {
    var cbs := [Callback(3.0, 7)];
    var s := Snapshot(cbs, Cursor(-1, -1, 0.0), 5.0, true, true, 0.0, 0.0, 1.0, CYCLE);
    assert s.Delta(0.0) == 0.0;
    var leg, next := Leg(5.0, 0.0), Leg(5.0, 5.0);
    var t := s.After(0.0);
    assert s.Trip(0.0).path == Then(leg, Last(next)) == t.Trip(0.0).path;
    assert forall w: Window :: SelectDown(cbs, w) == if w.Has(3.0) then [7] else [] by { assert cbs[1..] == []; }
    FlyTwo(cbs, s.cursor, leg, next);
    FlyTwo(cbs, t.cursor, leg, next);
    hide FlyAll, SelectDown;
  }

  lemma {:induction false} CycleEndsBelow(r: Range, c: real, target: real)
    requires r.lo < r.hi
    ensures CycleTrip(r, true, c, target).count < r.hi
    decreases LapsLeft(target - r.hi, r.Period())
  {
    if r.Reached(true, target) {
      LapsLeftDrops(target - r.hi, r.Period());
      CycleEndsBelow(r, r.lo, target - r.Period());
    }
  }
}
