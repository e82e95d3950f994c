/** Counters whose start equals their end: there is no room to wrap or to turn in. */
module PointRanges {
  import opened Callbacks
  import opened Motion
  import opened Counters
  import opened CounterLaws

  // ---------------------------------------------------------------- OSCILLATE

  /** The first call reaches the single bound, and so turns the counter. */
  predicate TurnsAtOnce(s: Snapshot, a: real) {
    s.Delta(a) != 0.0 && if s.Delta(a) > 0.0 then s.count + s.Delta(a) >= s.end else s.count + s.Delta(a) <= s.end
  }

  lemma PointOscillateTrip(s: Snapshot, a: real)
    requires s.start == s.end && s.countMode == OSCILLATE
    ensures s.Trip(a) ==
      if TurnsAtOnce(s, a) then Trip(Then(Leg(s.count, s.end), Last(Leg(s.end, s.end))), s.end, false, true)
      else Trip(Last(Leg(s.count, s.count + s.Delta(a))), s.count + s.Delta(a), false, false)
  {
  }

  /** An oscillating counter without room turns once in every call that reaches the bound.
      So the size of the steps makes no difference to its state exactly if the first call
      does not reach it; and then none to its callbacks, as with room. */
  lemma PointOscillation(s: Snapshot, a: real, b: real)
    requires s.Ok() && s.start == s.end && s.countMode == OSCILLATE && CleanSteps(s, a, b)
    ensures s.After(a).After(b) == s.After(a + b) <==> !TurnsAtOnce(s, a)
    ensures !TurnsAtOnce(s, a) ==>
              (s.Fired(a) + s.After(a).Fired(b) == s.Fired(a + b) <==> !StopsOnLowestCallback(s, a, b))
  {
    if TurnsAtOnce(s, a) {
      TurnedTwice(s, a, b);
    } else {
      NotTurned(s, a, b);
    }
  }

  lemma TurnedTwice(s: Snapshot, a: real, b: real)
    requires s.start == s.end && s.countMode == OSCILLATE && CleanSteps(s, a, b) && TurnsAtOnce(s, a)
    ensures s.After(a).After(b).forward == s.forward != s.After(a + b).forward
  {
    hide FlyAll, ModeTrip;
    var t := s.After(a);
    DeltaSplits(s, a, b);
    DeltaTurned(s, t, b);
    PointOscillateTrip(s, a);
    PointOscillateTrip(t, b);
    PointOscillateTrip(s, a + b);
  }

  lemma NotTurned(s: Snapshot, a: real, b: real)
    requires s.Ok() && s.start == s.end && s.countMode == OSCILLATE && CleanSteps(s, a, b) && !TurnsAtOnce(s, a)
    ensures s.After(a).After(b) == s.After(a + b)
    ensures s.Fired(a) + s.After(a).Fired(b) == s.Fired(a + b) <==> !StopsOnLowestCallback(s, a, b)
  {
    hide FlyAll, ModeTrip;
    var t := s.After(a);
    DeltaSplits(s, a, b);
    DeltaTurned(s, t, b);
    PointOscillateTrip(s, a);
    PointOscillateTrip(t, b);
    PointOscillateTrip(s, a + b);
    GluedFires(s.callbacks, [], s.cursor, s.Trip(a).path, t.Trip(b).path);
  }

  /** The counter turns there and back in two steps, and once in one. */
  lemma TwoStepsTurnBack()
    ensures var s := Snapshot([], Cursor(-1, -1, 0.0), 0.0, true, true, 0.0, 0.0, 1.0, OSCILLATE);
      && s.Ok() && CleanSteps(s, 1.0, 1.0)
      && s.After(1.0).After(1.0).forward && !s.After(2.0).forward
  {
    var s := Snapshot([], Cursor(-1, -1, 0.0), 0.0, true, true, 0.0, 0.0, 1.0, OSCILLATE);
    assert s.Delta(1.0) == 1.0 && s.Delta(2.0) == 2.0;
    PointOscillateTrip(s, 1.0);
    PointOscillateTrip(s, 2.0);
    var t := s.After(1.0);
    assert t.Delta(1.0) == -1.0;
    PointOscillateTrip(t, 1.0);
  }

  // -------------------------------------------------------------------- CYCLE

  /** Without room the count is never taken back, but every call that ends at or beyond the
      bound first calls the callbacks between the count and the bound. */
  function PointPath(e: real, up: bool, x: real, y: real): Path {
    if (if up then y >= e else y <= e) then Then(Leg(x, e), Last(Leg(x, y))) else Last(Leg(x, y))
  }

  lemma PointCycleTrip(s: Snapshot, a: real)
    requires s.start == s.end && s.countMode == CYCLE
    ensures var y := s.count + s.Delta(a);
      s.Trip(a) == Trip(PointPath(s.end, s.Delta(a) >= 0.0, s.count, y), y, false, false)
  {
  }

  predicate LowestAt(cbs: seq<Callback>, x: real) { cbs != [] && cbs[0].count == x }

  /** The way from `c` by `m` to `n` calls the same callbacks as the way from `c` to `n`. */
  predicate PointAgrees(cbs: seq<Callback>, e: real, up: bool, c: real, m: real, n: real) {
    if up then
      if m < e then n < e || NoneIn(cbs, Window(c, true, m, false))
      else m == e || NoneIn(cbs, Window(e, true, m, true))
    else if m > e then
      if n > e then !LowestAt(cbs, m)
      else SelectDown(cbs, Window(m, false, c, true)) == if LowestAt(cbs, m) then [cbs[0].action] else []
    else if m == e then !LowestAt(cbs, m)
    else NoneIn(cbs, Window(m, true, e, true))
  }

  lemma SamePrefix(p: seq<Action>, x: seq<Action>, y: seq<Action>)
    ensures p + x == p + y <==> x == y
  {
    assert (p + x)[|p|..] == x && (p + y)[|p|..] == y;
  }

  lemma SameMiddle(p: seq<Action>, x: seq<Action>, y: seq<Action>, q: seq<Action>)
    ensures p + x + q == p + y + q <==> x == y
  {
    if p + x + q == p + y + q {
      assert |x| == |y|;
      assert (p + x + q)[|p|..|p| + |x|] == x && (p + y + q)[|p|..|p| + |x|] == y;
    }
  }

  lemma SelectDownSplit(cbs: seq<Callback>, n: real, m: real, c: real)
    requires Sorted(cbs) && n < m < c
    ensures SelectDown(cbs, Window(n, true, c, true))
         == SelectDown(cbs, Window(m, false, c, true)) + SelectDown(cbs, Window(n, true, m, true))
  {
    var w, upper, lower := Window(n, true, c, true), Window(m, false, c, true), Window(n, true, m, true);
    SelectIsSlice(cbs, w);
    SelectIsSlice(cbs, upper);
    SelectIsSlice(cbs, lower);
    ActionsSplit(cbs, First(cbs, w), Limit(cbs, lower), Limit(cbs, w));
  }

  lemma LegCursorOk(cbs: seq<Callback>, cur: Cursor, leg: Leg)
    requires CursorOk(cbs, cur)
    ensures CursorOk(cbs, LegCursor(cbs, cur, leg))
  {
  }

  /** A leg that does not start where the last one ended calls whatever lies on its way,
      both ends included. */
  lemma FreshLeg(cbs: seq<Callback>, cur: Cursor, leg: Leg)
    requires cur.lastEnd != leg.from || (if leg.to > leg.from then cur.next < 0 else cur.prev < 0)
    ensures leg.from < leg.to ==> LegActions(cbs, cur, leg) == Select(cbs, Window(leg.from, true, leg.to, true))
    ensures leg.from > leg.to ==> LegActions(cbs, cur, leg) == SelectDown(cbs, Window(leg.to, true, leg.from, true))
  {
  }

  /** The second part comes to the bound that the first part did not reach: upward. */
  lemma ComesPastUp(cbs: seq<Callback>, cur: Cursor, e: real, c: real, m: real, n: real)
    requires Sorted(cbs) && CursorOk(cbs, cur) && c < m < e <= n
    ensures var cur1, cur2 := LegCursor(cbs, cur, Leg(c, m)), LegCursor(cbs, cur, Leg(c, e));
      var cur3 := LegCursor(cbs, cur1, Leg(m, e));
      (LegActions(cbs, cur, Leg(c, m)) + (LegActions(cbs, cur1, Leg(m, e)) + LegActions(cbs, cur3, Leg(m, n)))
       == LegActions(cbs, cur, Leg(c, e)) + LegActions(cbs, cur2, Leg(c, n)))
      <==> PointAgrees(cbs, e, true, c, m, n)
  {
    var cur1, cur2 := LegCursor(cbs, cur, Leg(c, m)), LegCursor(cbs, cur, Leg(c, e));
    var cur3 := LegCursor(cbs, cur1, Leg(m, e));
    var near, far := Window(m, true, n, true), Window(c, true, n, true);
    SplitLeg(cbs, cur, c, m, e);
    FreshLeg(cbs, cur3, Leg(m, n));
    FreshLeg(cbs, cur2, Leg(c, n));
    SelectNarrower(cbs, near, far);
    assert SameIn(cbs, near, far) <==> NoneIn(cbs, Window(c, true, m, false));
    hide LegActions, Select, SelectDown, NoneIn, SameIn;
    var first, second := LegActions(cbs, cur, Leg(c, m)), LegActions(cbs, cur1, Leg(m, e));
    assert first + (second + Select(cbs, near)) == (first + second) + Select(cbs, near);
    SamePrefix(first + second, Select(cbs, near), Select(cbs, far));
  }

  /** The same downward, where the break may also fall on the smallest callback. */
  lemma ComesPastDown(cbs: seq<Callback>, cur: Cursor, e: real, c: real, m: real, n: real)
    requires Sorted(cbs) && CursorOk(cbs, cur) && c > m > e >= n
    ensures var cur1, cur2 := LegCursor(cbs, cur, Leg(c, m)), LegCursor(cbs, cur, Leg(c, e));
      var cur3 := LegCursor(cbs, cur1, Leg(m, e));
      (LegActions(cbs, cur, Leg(c, m)) + (LegActions(cbs, cur1, Leg(m, e)) + LegActions(cbs, cur3, Leg(m, n)))
       == LegActions(cbs, cur, Leg(c, e)) + LegActions(cbs, cur2, Leg(c, n)))
      <==> PointAgrees(cbs, e, false, c, m, n)
  {
    var cur1, cur2 := LegCursor(cbs, cur, Leg(c, m)), LegCursor(cbs, cur, Leg(c, e));
    var cur3 := LegCursor(cbs, cur1, Leg(m, e));
    SplitLeg(cbs, cur, c, m, e);
    FreshLeg(cbs, cur3, Leg(m, n));
    FreshLeg(cbs, cur2, Leg(c, n));
    SelectDownSplit(cbs, n, m, c);
    hide LegActions, Select, SelectDown;
    var extra := if LowestAt(cbs, m) then [cbs[0].action] else [];
    var upper, lower := SelectDown(cbs, Window(m, false, c, true)), SelectDown(cbs, Window(n, true, m, true));
    var first, second := LegActions(cbs, cur, Leg(c, m)), LegActions(cbs, cur1, Leg(m, e));
    var whole := LegActions(cbs, cur, Leg(c, e));
    assert first + (second + lower) == (first + second) + lower == whole + extra + lower;
    assert whole + (upper + lower) == whole + upper + lower;
    SameMiddle(whole, extra, upper, lower);
  }

  /** The first part already ends at or beyond the bound. */
  lemma StartsPast(cbs: seq<Callback>, cur: Cursor, e: real, up: bool, c: real, m: real, n: real)
    requires Sorted(cbs) && CursorOk(cbs, cur) && (cur.lastEnd == e || c == e)
    requires if up then e <= m && (c < m < n || c == m == n) else e >= m && c > m > n
    ensures var cur1 := LegCursor(cbs, cur, Leg(c, m));
      var cur2 := LegCursor(cbs, cur1, Leg(m, e));
      (LegActions(cbs, cur, Leg(c, m)) + (LegActions(cbs, cur1, Leg(m, e)) + LegActions(cbs, cur2, Leg(m, n)))
       == LegActions(cbs, cur, Leg(c, n)))
      <==> PointAgrees(cbs, e, up, c, m, n)
  {
    var cur1 := LegCursor(cbs, cur, Leg(c, m));
    var cur2 := LegCursor(cbs, cur1, Leg(m, e));
    SplitLeg(cbs, cur, c, m, n);
    var a, d, f := LegActions(cbs, cur, Leg(c, m)), LegActions(cbs, cur1, Leg(m, e)), LegActions(cbs, cur2, Leg(m, n));
    var g := LegActions(cbs, cur1, Leg(m, n));
    if m == e {
      assert d == [] && d + f == f;
      assert f == g;
    } else {
      var w := if up then Window(e, true, m, true) else Window(m, true, e, true);
      FreshLeg(cbs, cur1, Leg(m, e));
      SelectNothing(cbs, w);
      if m != n {
        ReturnCallsMore(cbs, cur1, cur2, m, n, w);
      }
      hide LegActions, Select, SelectDown, NoneIn;
      assert NoneIn(cbs, w) ==> a + (d + f) == a + g;
      assert |a + (d + f)| == |a| + |d| + |f|;
    }
  }

  /** Starting afresh at `m` calls no fewer callbacks than going on there, and the same if
      none lies at `m`. */
  lemma ReturnCallsMore(cbs: seq<Callback>, cur: Cursor, cur': Cursor, m: real, n: real, w: Window)
    requires m != n && cur'.lastEnd != m && w.Has(m)
    ensures |LegActions(cbs, cur, Leg(m, n))| <= |LegActions(cbs, cur', Leg(m, n))|
    ensures NoneIn(cbs, w) ==> LegActions(cbs, cur, Leg(m, n)) == LegActions(cbs, cur', Leg(m, n))
    ensures NoneIn(cbs, w) ==> !LowestAt(cbs, m)
  {
    FreshLeg(cbs, cur', Leg(m, n));
    SelectNarrower(cbs, LegWindow(cur, Leg(m, n)), LegWindow(cur', Leg(m, n)));
  }

  /** Without room, a cycling counter's state never depends on the size of the steps; the
      callbacks called do, exactly as `PointAgrees` says. */
  lemma PointCycle(s: Snapshot, a: real, b: real)
    requires s.Ok() && s.start == s.end && s.countMode == CYCLE && CleanSteps(s, a, b)
    ensures s.After(a).After(b) == s.After(a + b)
    ensures s.Fired(a) + s.After(a).Fired(b) == s.Fired(a + b)
       <==> PointAgrees(s.callbacks, s.end, s.Delta(a) >= 0.0, s.count, s.After(a).count, s.After(a + b).count)
  {
    hide FlyAll, PointAgrees, PointPath, Snapshot.After, Snapshot.Fired, Snapshot.Trip;
    DeltaSplits(s, a, b);
    PointCycleAdvance(s, a);
    PointCycleAdvance(s, a + b);
    var t := s.After(a);
    DeltaTurned(s, t, b);
    PointCycleAdvance(t, b);
    PointWays(s.callbacks, s.cursor, s.end, s.Delta(a) >= 0.0, s.count, t.count, s.After(a + b).count);
  }

  lemma PointCycleAdvance(s: Snapshot, a: real)
    requires s.start == s.end && s.countMode == CYCLE
    ensures var y := s.count + s.Delta(a);
      var f := FlyAll(s.callbacks, Firing([], s.cursor), PointPath(s.end, s.Delta(a) >= 0.0, s.count, y));
      s.After(a) == s.(cursor := f.cursor, count := y) && s.Fired(a) == f.queue
  {
    hide FlyAll, PointPath, ModeTrip;
    PointCycleTrip(s, a);
  }

  lemma PointWays(cbs: seq<Callback>, cur: Cursor, e: real, up: bool, c: real, m: real, n: real)
    requires Sorted(cbs) && CursorOk(cbs, cur)
    requires if up then c < m < n || c == m == n else c > m > n
    ensures var first := FlyAll(cbs, Firing([], cur), PointPath(e, up, c, m));
      var second := FlyAll(cbs, Firing([], first.cursor), PointPath(e, up, m, n));
      var whole := FlyAll(cbs, Firing([], cur), PointPath(e, up, c, n));
      && second.cursor == whole.cursor
      && (first.queue + second.queue == whole.queue <==> PointAgrees(cbs, e, up, c, m, n))
  {
    hide FlyAll, LegActions;
    var past := if up then m >= e else m <= e;
    var pastEnd := if up then n >= e else n <= e;
    if !pastEnd {
      GluedFires(cbs, [], cur, PointPath(e, up, c, m), PointPath(e, up, m, n));
    } else if !past {
      FlyOne(cbs, cur, Leg(c, m));
      FlyTwo(cbs, LegCursor(cbs, cur, Leg(c, m)), Leg(m, e), Leg(m, n));
      FlyTwo(cbs, cur, Leg(c, e), Leg(c, n));
      if up {
        ComesPastUp(cbs, cur, e, c, m, n);
      } else {
        ComesPastDown(cbs, cur, e, c, m, n);
      }
    } else {
      var cur' := LegCursor(cbs, cur, Leg(c, e));
      FlyTwo(cbs, cur, Leg(c, e), Leg(c, m));
      FlyTwo(cbs, LegCursor(cbs, cur', Leg(c, m)), Leg(m, e), Leg(m, n));
      FlyTwo(cbs, cur, Leg(c, e), Leg(c, n));
      LegCursorOk(cbs, cur, Leg(c, e));
      StartsPast(cbs, cur', e, up, c, m, n);
      var cur1 := LegCursor(cbs, cur', Leg(c, m));
      var cur2 := LegCursor(cbs, cur1, Leg(m, e));
      var p, q := LegActions(cbs, cur, Leg(c, e)), LegActions(cbs, cur', Leg(c, m));
      var rest := LegActions(cbs, cur1, Leg(m, e)) + LegActions(cbs, cur2, Leg(m, n));
      assert (p + q) + rest == p + (q + rest);
      SamePrefix(p, q + rest, LegActions(cbs, cur', Leg(c, n)));
    }
  }
}
