/** What one advance does to a counter, said without following its path. */
module CounterMotions {
  import opened RealMath
  import opened Callbacks
  import opened Motion
  import opened Counters

  /** How far the counter is told to go: forward if positive, backward if negative. */
  function Distance(s: Snapshot, a: real): real { (if s.forward then a else -a) * s.multiplier }

  /** Where that takes it, if nothing is in the way: forward is from start towards end. */
  function Target(s: Snapshot, a: real): real {
    if s.start <= s.end then s.count + Distance(s, a) else s.count - Distance(s, a)
  }

  /** The target is at or past the end that the counter heads for. */
  predicate Arrives(s: Snapshot, a: real) {
    if Distance(s, a) >= 0.0 then
      if s.start <= s.end then Target(s, a) >= s.end else Distance(s, a) > 0.0 && Target(s, a) <= s.end
    else
      if s.start <= s.end then Target(s, a) <= s.start else Target(s, a) >= s.start
  }

  lemma TripOf(s: Snapshot, a: real)
    ensures var d := Distance(s, a);
      if s.start > s.end && d == 0.0 then s.Trip(a) == Trip(Last(Leg(s.count, s.count)), s.count, false, false)
      else
        var up := (s.start <= s.end) == (d >= 0.0);
        && s.Trip(a) == ModeTrip(s.countMode, s.Bounds(), up, s.count, Abs(d))
        && Move(up, s.count, Abs(d)) == Target(s, a)
  {
    assert s.Delta(a) == Distance(s, a);
    hide ModeTrip;
  }

  /** ONCE: the counter stops exactly if it arrives, and then at the end it headed for. */
  lemma OnceStops(s: Snapshot, a: real)
    requires s.countMode == ONCE
    ensures var t := s.After(a);
      && t.running == (s.running && !Arrives(s, a))
      && t.count == (if !Arrives(s, a) then Target(s, a) else if Distance(s, a) >= 0.0 then s.end else s.start)
      && t.forward == s.forward
  {
    TripOf(s, a);
    hide FlyAll;
  }

  /** In no other mode does a counter stop; without ends it just moves. */
  lemma OthersRun(s: Snapshot, a: real)
    requires s.countMode != ONCE
    ensures s.After(a).running == s.running
    ensures s.countMode != OSCILLATE ==> s.After(a).forward == s.forward
    ensures s.countMode != CYCLE && s.countMode != OSCILLATE ==> s.After(a).count == Target(s, a)
    ensures s.countMode == CYCLE && s.start == s.end ==> s.After(a).count == Target(s, a)
  {
    TripOf(s, a);
    hide FlyAll;
    var r, up, d := s.Bounds(), (s.start <= s.end) == (Distance(s, a) >= 0.0), Abs(Distance(s, a));
    if s.countMode == CYCLE {
      CycleRuns(r, up, s.count, Move(up, s.count, d));
    } else if s.countMode == OSCILLATE {
      OscillateRuns(r, up, s.count, d);
    }
  }

  lemma CycleRuns(r: Range, up: bool, c: real, target: real)
    requires r.lo <= r.hi
    ensures !CycleTrip(r, up, c, target).stopped && !CycleTrip(r, up, c, target).turned
  {
  }

  lemma OscillateRuns(r: Range, up: bool, c: real, d: real)
    requires r.lo <= r.hi
    ensures !OscillateTrip(r, up, c, d).stopped
  {
  }

  // ------------------------------------------------------------------ where CYCLE lands

  lemma {:induction false} CycleLands(r: Range, up: bool, c: real, target: real)
    requires r.lo < r.hi
    ensures CycleTrip(r, up, c, target).count
         == if !r.Reached(up, target) then target
            else if up then r.lo + Mod(target - r.lo, r.Period())
            else r.hi - Mod(r.hi - target, r.Period())
    decreases LapsLeft(-Gap(r, up, target), r.Period())
  {
    if r.Reached(up, target) {
      LapsLeftDrops(-Gap(r, up, target), r.Period());
      var next := Move(!up, target, r.Period());
      CycleLands(r, up, r.Far(up), next);
      var u := if up then target - r.lo else r.hi - target;
      ModShift(u, r.Period(), -1);
      assert u + (-1) as real * r.Period() == u - r.Period();
      if !r.Reached(up, next) {
        ModUnique(u - r.Period(), r.Period(), u - r.Period(), 0);
      }
    }
  }

  /** CYCLE: a target short of the end is where the counter comes to stand; one at or past it
      is taken back by whole ranges, to the start but not to the end it was heading for. */
  lemma CycleWraps(s: Snapshot, a: real)
    requires s.countMode == CYCLE && s.start != s.end
    ensures var lo, hi := Min(s.start, s.end), Max(s.start, s.end);
      var x, up := Target(s, a), (s.start <= s.end) == (Distance(s, a) >= 0.0);
      s.After(a).count ==
        if !Arrives(s, a) then x
        else if up then lo + Mod(x - lo, hi - lo)
        else hi - Mod(hi - x, hi - lo)
  {
    TripOf(s, a);
    hide FlyAll, Mod;
    var r, up, d := s.Bounds(), (s.start <= s.end) == (Distance(s, a) >= 0.0), Abs(Distance(s, a));
    CycleLands(r, up, s.count, Move(up, s.count, d));
  }

  // ------------------------------------------------------------- which callbacks are called

  /** The callback at `x` lies on the way: the end of the way counts, and so does its beginning,
      unless the cursors know that the counter came this way to it. */
  predicate OnTheWay(cur: Cursor, leg: Leg, x: real) {
    if leg.from < leg.to then
      leg.from <= x <= leg.to && !(x == leg.from && cur.next >= 0 && cur.lastEnd == leg.from)
    else if leg.to < leg.from then
      leg.to <= x <= leg.from && !(x == leg.from && cur.prev >= 0 && cur.lastEnd == leg.from)
    else
      false
  }

  /** A leg calls exactly the callbacks on its way, once each, in the order it comes to them. */
  lemma LegCalls(cbs: seq<Callback>, cur: Cursor, leg: Leg) returns (i: nat, j: nat)
    requires Sorted(cbs)
    ensures i <= j <= |cbs| && forall k :: 0 <= k < |cbs| ==> (OnTheWay(cur, leg, cbs[k].count) <==> i <= k < j)
    ensures |LegActions(cbs, cur, leg)| == j - i
    ensures forall k :: 0 <= k < j - i ==>
              LegActions(cbs, cur, leg)[k] == cbs[if leg.from < leg.to then i + k else j - 1 - k].action
  {
    hide Select, SelectDown, Rank;
    if leg.from == leg.to {
      i, j := 0, 0;
    } else {
      var w := LegWindow(cur, leg);
      SelectIsSlice(cbs, w);
      i, j := First(cbs, w), Limit(cbs, w);
      RankIsPrefix(cbs, w.lo, !w.loClosed);
      RankIsPrefix(cbs, w.hi, w.hiClosed);
    }
  }

  /** The only callback with that action. */
  predicate Only(cbs: seq<Callback>, k: nat)
    requires k < |cbs|
  {
    forall i :: 0 <= i < |cbs| && i != k ==> cbs[i].action != cbs[k].action
  }

  lemma {:induction false} SelectedOnce(cbs: seq<Callback>, k: nat, w: Window)
    requires k < |cbs| && Only(cbs, k)
    ensures var n := if w.Has(cbs[k].count) then 1 else 0;
      multiset(Select(cbs, w))[cbs[k].action] == n && multiset(SelectDown(cbs, w))[cbs[k].action] == n
  {
    var rest := cbs[1..];
    assert forall i :: 0 < i < |cbs| ==> rest[i - 1] == cbs[i];
    if k == 0 {
      NeverSelected(rest, cbs[0].action, w);
    } else {
      SelectedOnce(rest, k - 1, w);
    }
    var own := if w.Has(cbs[0].count) then [cbs[0].action] else [];
    assert Select(cbs, w) == own + Select(rest, w) && SelectDown(cbs, w) == SelectDown(rest, w) + own;
  }

  lemma {:induction false} NeverSelected(cbs: seq<Callback>, action: Action, w: Window)
    requires forall i :: 0 <= i < |cbs| ==> cbs[i].action != action
    ensures multiset(Select(cbs, w))[action] == 0 && multiset(SelectDown(cbs, w))[action] == 0
  {
    if cbs != [] {
      NeverSelected(cbs[1..], action, w);
      var own := if w.Has(cbs[0].count) then [cbs[0].action] else [];
      assert Select(cbs, w) == own + Select(cbs[1..], w) && SelectDown(cbs, w) == SelectDown(cbs[1..], w) + own;
    }
  }

  /** A leg that does not begin at the callback calls it if it comes to it. */
  lemma LegCallsOnce(cbs: seq<Callback>, k: nat, cur: Cursor, leg: Leg)
    requires k < |cbs| && Only(cbs, k) && leg.from != cbs[k].count
    ensures var x := cbs[k].count;
      multiset(LegActions(cbs, cur, leg))[cbs[k].action]
      == if leg.from < x <= leg.to || leg.to <= x < leg.from then 1 else 0
  {
    hide Select, SelectDown;
    if leg.from != leg.to {
      SelectedOnce(cbs, k, LegWindow(cur, leg));
    }
  }

  /** How often a journey calls the callback. */
  function Calls(cbs: seq<Callback>, k: nat, cur: Cursor, path: Path): nat
    requires k < |cbs|
  {
    multiset(FlyAll(cbs, Firing([], cur), path).queue)[cbs[k].action]
  }

  lemma CallsAddUp(cbs: seq<Callback>, k: nat, cur: Cursor, leg: Leg, rest: Path)
    requires k < |cbs|
    ensures Calls(cbs, k, cur, Last(leg)) == multiset(LegActions(cbs, cur, leg))[cbs[k].action]
    ensures Calls(cbs, k, cur, Then(leg, rest))
         == Calls(cbs, k, cur, Last(leg)) + Calls(cbs, k, LegCursor(cbs, cur, leg), rest)
  {
    hide LegActions, LegCursor;
    FlyOne(cbs, cur, leg);
    FlyPrefix(cbs, LegActions(cbs, cur, leg), LegCursor(cbs, cur, leg), rest);
    assert [] + LegActions(cbs, cur, leg) == LegActions(cbs, cur, leg);
  }

  /** Copies of `x`, one to a range, passed on the way from just behind `c` up to `t`. */
  function PassedUp(x: real, p: real, c: real, t: real): int
    requires p > 0.0
  {
    Laps(t - x, p) - Laps(c - x, p)
  }

  lemma NoLap(u: real, p: real)
    requires p > 0.0 && -p <= u < p
    ensures Laps(u, p) == if u < 0.0 then -1 else 0
  {
    LapsUnique(u, p, if u < 0.0 then -1 else 0);
  }

  lemma OneLapLess(u: real, p: real)
    requires p > 0.0
    ensures Laps(u - p, p) == Laps(u, p) - 1
  {
    ModShift(u, p, -1);
    assert u + (-1) as real * p == u - p;
  }

  lemma {:induction false} CycleCalls(cbs: seq<Callback>, k: nat, cur: Cursor, r: Range, up: bool, c: real,
                                      target: real)
    requires k < |cbs| && Only(cbs, k) && r.lo < cbs[k].count < r.hi && r.Contains(c) && c != cbs[k].count
    requires if up then target >= c else target <= c
    ensures var x := cbs[k].count;
      Calls(cbs, k, cur, CycleTrip(r, up, c, target).path)
      == if up then PassedUp(x, r.Period(), c, target) else PassedUp(-x, r.Period(), -c, -target)
    decreases LapsLeft(-Gap(r, up, target), r.Period())
  {
    hide FlyAll, LegActions, LegCursor, Calls, Only, Laps;
    var x, p := cbs[k].count, r.Period();
    var from, to := if up then c - x else x - c, if up then target - x else x - target;
    NoLap(from, p);
    if !r.Reached(up, target) {
      CallsAddUp(cbs, k, cur, Leg(c, target), Last(Leg(c, c)));
      LegCallsOnce(cbs, k, cur, Leg(c, target));
      NoLap(to, p);
    } else {
      var b, far, next := r.Barrier(up), r.Far(up), Move(!up, target, p);
      LapsLeftDrops(-Gap(r, up, target), p);
      CycleWrap(r, up, c, target);
      CallsAddUp(cbs, k, cur, Leg(c, b), CycleTrip(r, up, far, next).path);
      LegCallsOnce(cbs, k, cur, Leg(c, b));
      OneLapLess(to, p);
      NoLap(if up then far - x else x - far, p);
      CycleCalls(cbs, k, LegCursor(cbs, cur, Leg(c, b)), r, up, far, next);
    }
  }

  /** A cycling counter calls a callback as often as the count, rolled out without wrapping,
      would come to one of its copies. */
  lemma CycleCallsPerLap(s: Snapshot, a: real, k: nat)
    requires s.countMode == CYCLE && s.start != s.end && k < |s.callbacks| && Only(s.callbacks, k)
    requires var lo, hi := Min(s.start, s.end), Max(s.start, s.end);
      lo < s.callbacks[k].count < hi && lo <= s.count <= hi && s.count != s.callbacks[k].count
    requires Distance(s, a) != 0.0
    ensures var x, p, t := s.callbacks[k].count, Max(s.start, s.end) - Min(s.start, s.end), Target(s, a);
      multiset(s.Fired(a))[s.callbacks[k].action]
      == if t > s.count then PassedUp(x, p, s.count, t) else PassedUp(-x, p, -s.count, -t)
  {
    TripOf(s, a);
    hide FlyAll, Only, PassedUp;
    var r, up, d := s.Bounds(), (s.start <= s.end) == (Distance(s, a) >= 0.0), Abs(Distance(s, a));
    CycleCalls(s.callbacks, k, s.cursor, r, up, s.count, Move(up, s.count, d));
  }

  /** On the circle, the callback stands once on the way up and once on the way down. */
  function PassedRound(x: real, r: Range, from: real, to: real): int
    requires r.lo < r.hi
  {
    PassedUp(x - r.lo, 2.0 * r.Period(), from, to) + PassedUp(2.0 * r.Period() - (x - r.lo), 2.0 * r.Period(), from, to)
  }

  lemma RoundAddsUp(x: real, r: Range, a: real, b: real, c: real)
    requires r.lo < r.hi
    ensures PassedRound(x, r, a, c) == PassedRound(x, r, a, b) + PassedRound(x, r, b, c)
    ensures PassedRound(x, r, a + 2.0 * r.Period(), b + 2.0 * r.Period()) == PassedRound(x, r, a, b)
  {
    hide Laps;
    var m, u, v := 2.0 * r.Period(), x - r.lo, 2.0 * r.Period() - (x - r.lo);
    OneLapLess(a + m - u, m);
    OneLapLess(b + m - u, m);
    OneLapLess(a + m - v, m);
    OneLapLess(b + m - v, m);
    assert a + m - u - m == a - u && b + m - u - m == b - u && a + m - v - m == a - v && b + m - v - m == b - v;
  }

  /** One leg of the way round. */
  lemma LegRound(r: Range, up: bool, x: real, c: real, t: real)
    requires r.lo < x < r.hi && r.Contains(c) && r.Contains(t) && c != x && (if up then c <= t else t <= c)
    ensures PassedRound(x, r, Angle(r, up, c), Angle(r, up, t)) == if c < x <= t || t <= x < c then 1 else 0
  {
    hide Laps;
    var m, u, v := 2.0 * r.Period(), x - r.lo, 2.0 * r.Period() - (x - r.lo);
    var from, to := Angle(r, up, c), Angle(r, up, t);
    NoLap(from - u, m);
    NoLap(from - v, m);
    NoLap(to - u, m);
    NoLap(to - v, m);
  }

  lemma {:induction false} OscillateCalls(cbs: seq<Callback>, k: nat, cur: Cursor, r: Range, up: bool, c: real, d: real)
    requires k < |cbs| && Only(cbs, k) && r.lo < cbs[k].count < r.hi && r.Contains(c) && c != cbs[k].count && d >= 0.0
    ensures Calls(cbs, k, cur, OscillateTrip(r, up, c, d).path)
         == PassedRound(cbs[k].count, r, Angle(r, up, c), Angle(r, up, c) + d)
    decreases c != r.Far(up), LapsLeft(d, r.Period())
  {
    hide FlyAll, LegActions, LegCursor, Calls, Only, Laps, PassedRound;
    var x, from := cbs[k].count, Angle(r, up, c);
    if d == 0.0 {
      CallsAddUp(cbs, k, cur, Leg(c, c), Last(Leg(c, c)));
      LegCallsOnce(cbs, k, cur, Leg(c, c));
      LegRound(r, up, x, c, c);
    } else if !r.Reached(up, Move(up, c, d)) {
      var t := Move(up, c, d);
      CallsAddUp(cbs, k, cur, Leg(c, t), Last(Leg(c, c)));
      LegCallsOnce(cbs, k, cur, Leg(c, t));
      LegRound(r, up, x, c, t);
    } else {
      LapsLeftDrops(d, r.Period());
      OscillateTurn(r, up, c, d);
      var b, gap := r.Barrier(up), Gap(r, up, c);
      CallsAddUp(cbs, k, cur, Leg(c, b), OscillateTrip(r, !up, b, d - gap).path);
      LegCallsOnce(cbs, k, cur, Leg(c, b));
      LegRound(r, up, x, c, b);
      OscillateCalls(cbs, k, LegCursor(cbs, cur, Leg(c, b)), r, !up, b, d - gap);
      RoundAddsUp(x, r, from, from + gap, from + d);
      var next := Angle(r, !up, b);
      RoundAddsUp(x, r, next, next + (d - gap), 0.0);
      assert Angle(r, up, b) == from + gap == next + (if up then 0.0 else 2.0 * r.Period());
      assert from + d == next + (d - gap) + (if up then 0.0 else 2.0 * r.Period());
    }
  }

  /** An oscillating counter calls a callback as often as the point that goes round the circle
      comes to one of its two places. */
  lemma OscillateCallsPerRound(s: Snapshot, a: real, k: nat)
    requires s.countMode == OSCILLATE && s.start != s.end && k < |s.callbacks| && Only(s.callbacks, k)
    requires var lo, hi := Min(s.start, s.end), Max(s.start, s.end);
      lo < s.callbacks[k].count < hi && lo <= s.count <= hi && s.count != s.callbacks[k].count
    ensures var r := Range(Min(s.start, s.end), Max(s.start, s.end));
      var angle := Angle(r, (s.start <= s.end) == (Distance(s, a) >= 0.0), s.count);
      multiset(s.Fired(a))[s.callbacks[k].action]
      == PassedRound(s.callbacks[k].count, r, angle, angle + Abs(Distance(s, a)))
  {
    TripOf(s, a);
    hide FlyAll, Only, PassedRound;
    var r, up, d := s.Bounds(), (s.start <= s.end) == (Distance(s, a) >= 0.0), Abs(Distance(s, a));
    OscillateCalls(s.callbacks, k, s.cursor, r, up, s.count, d);
    if d == 0.0 {
      assert s.Trip(a).path == Last(Leg(s.count, s.count));
    }
  }

  // --------------------------------------------------------------- where OSCILLATE comes to

  /** OSCILLATE, for either sign of the distance: the point on the circle moves on by the distance,
      and the direction flag changes exactly if it comes to the other half. */
  lemma OscillateRotates(s: Snapshot, a: real)
    requires s.countMode == OSCILLATE && s.start != s.end && Distance(s, a) != 0.0
    requires Min(s.start, s.end) <= s.count <= Max(s.start, s.end)
    ensures var r := Range(Min(s.start, s.end), Max(s.start, s.end));
      var up, t := (s.start <= s.end) == (Distance(s, a) >= 0.0), s.After(a);
      var up' := up != (t.forward != s.forward);
      && r.Contains(t.count)
      && Angle(r, up', t.count) == Mod(Angle(r, up, s.count) + Abs(Distance(s, a)), 2.0 * r.Period())
      && (up' <==> Mod(Angle(r, up, s.count) + Abs(Distance(s, a)), 2.0 * r.Period()) < r.Period())
  {
    TripOf(s, a);
    hide FlyAll, Mod, OscillateTrip, Angle;
    var r, up, d := s.Bounds(), (s.start <= s.end) == (Distance(s, a) >= 0.0), Abs(Distance(s, a));
    OscillationIsRotation(r, up, s.count, d);
  }

  /** Without room it stops at the point and turns, once for each call that gets there. */
  lemma OscillateOnPoint(s: Snapshot, a: real)
    requires s.countMode == OSCILLATE && s.start == s.end
    ensures var arrives := Distance(s, a) != 0.0 && Arrives(s, a);
      && s.After(a).count == (if arrives then s.end else Target(s, a))
      && s.After(a).forward == (s.forward != arrives)
  {
    TripOf(s, a);
    hide FlyAll;
  }
}
