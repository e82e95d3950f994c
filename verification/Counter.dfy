/** The animation counter: its fields, its callback list and `advance`. */
module Counters {
  import opened Options
  import opened RealMath
  import opened Callbacks
  import opened Motion

  /** Everything a counter's behaviour depends on. */
  datatype Snapshot = Snapshot(
    callbacks: seq<Callback>, cursor: Cursor,
    count: real, running: bool, forward: bool,
    start: real, end: real, multiplier: real, countMode: int)
  {
    ghost predicate Ok() { Sorted(callbacks) && CursorOk(callbacks, cursor) }

    function Delta(amount: real): real { (if forward then amount else -amount) * multiplier }

    function Bounds(): (r: Range)
      ensures r.lo <= r.hi
    {
      if start <= end then Range(start, end) else Range(end, start)
    }

    /** A counter whose end is not below its start treats a zero amount as counting up. */
    function Upward(delta: real): bool { if start <= end then delta >= 0.0 else delta < 0.0 }

    function Trip(amount: real): Trip {
      var delta := Delta(amount);
      if start > end && delta == 0.0 then Motion.Trip(Last(Leg(count, count)), count, false, false)
      else ModeTrip(countMode, Bounds(), Upward(delta), count, Abs(delta))
    }

    function After(amount: real): Snapshot {
      var trip := Trip(amount);
      this.(cursor := FlyAll(callbacks, Firing([], cursor), trip.path).cursor,
            count := trip.count,
            running := running && !trip.stopped,
            forward := forward != trip.turned)
    }

    function Fired(amount: real): seq<Action> {
      FlyAll(callbacks, Firing([], cursor), Trip(amount).path).queue
    }
  }

  /** Queue and cursors at the end of a trip, its last leg and count, and whether it turned. */
  datatype Outcome = Outcome(firing: Firing, last: Leg, count: real, turned: bool)

  class Counter {
    var nextCallback: int
    var prevCallback: int
    var oldCount: real
    var lastCallCallbacksEndCount: real
    var callbacks: seq<Callback>
    var running: bool
    var count: real
    var start: real
    var end: real
    var multiplier: real
    var forward: bool
    var countMode: int

    function Cur(): Cursor
      reads this`nextCallback, this`prevCallback, this`lastCallCallbacksEndCount
    {
      Cursor(nextCallback, prevCallback, lastCallCallbacksEndCount)
    }

    function State(): Snapshot
      reads this
    {
      Snapshot(callbacks, Cur(), count, running, forward, start, end, multiplier, countMode)
    }

    ghost predicate Valid()
      reads this`callbacks, this`nextCallback, this`prevCallback, this`lastCallCallbacksEndCount
    {
      Sorted(callbacks) && CursorOk(callbacks, Cur())
    }

    constructor ()
      ensures Valid()
      ensures State() == Snapshot([], Cursor(-1, -1, 0.0), 0.0, false, true, 0.0, 0.0, 1.0, CONTINUOUS)
    {
      nextCallback, prevCallback, oldCount, lastCallCallbacksEndCount := -1, -1, 0.0, 0.0;
      callbacks := [];
      running, count, start, end := false, 0.0, 0.0, 0.0;
      multiplier, forward, countMode := 1.0, true, CONTINUOUS;
    }

    // ------------------------------------------------------------ callback list

    method SetCount(value: real)
      requires Valid()
      modifies this
      ensures Valid()
      ensures State() == old(State()).(count := value, cursor := Cursor(-1, -1, old(lastCallCallbacksEndCount)))
      ensures oldCount == value
    {
      count := value;
      oldCount := value;
      nextCallback := -1;
      prevCallback := -1;
    }

    method Reset()
      requires Valid()
      modifies this
      ensures Valid()
      ensures State() == old(State()).(count := if forward then start else end,
                                       cursor := Cursor(-1, -1, old(lastCallCallbacksEndCount)))
    {
      SetCount(if forward then start else end);
    }

    /** Replaces the callback at `at`, or inserts one in count order. */
    method AddCallback(at: real, action: Action)
      requires Valid()
      modifies this`nextCallback, this`prevCallback, this`callbacks
      ensures Valid()
      ensures forall x :: Find(callbacks, x) == if x == at then Some(action) else Find(old(callbacks), x)
      ensures nextCallback == prevCallback == -1
    {
      nextCallback := -1;
      prevCallback := -1;
      var end := |callbacks|;
      var iter := 0;
      while iter != end
        invariant 0 <= iter <= end == |callbacks| && callbacks == old(callbacks)
        invariant forall i :: 0 <= i < iter ==> callbacks[i].count < at
      {
        var current := callbacks[iter];
        if current.count == at {
          callbacks := callbacks[iter := Callback(at, action)];
          forall x { FindReplaced(old(callbacks), iter, Callback(at, action), x); }
          return;
        } else if current.count > at {
          break;
        }
        iter := iter + 1;
      }
      var rest := callbacks[iter..];
      callbacks := callbacks[..iter];
      callbacks := callbacks + [Callback(at, action)];
      callbacks := callbacks + rest;
      forall x { FindInserted(old(callbacks), iter, Callback(at, action), x); }
    }

    method RemoveCallback(at: real) returns (found: bool)
      requires Valid()
      modifies this`nextCallback, this`prevCallback, this`callbacks
      ensures Valid()
      ensures found <==> Find(old(callbacks), at).Some?
      ensures forall x :: Find(callbacks, x) == if x == at then None else Find(old(callbacks), x)
      ensures found ==> nextCallback == prevCallback == -1
      ensures !found ==> State() == old(State())
    {
      var end := |callbacks|;
      var iter := 0;
      while iter != end
        invariant 0 <= iter <= end == |callbacks| && State() == old(State())
        invariant forall i :: 0 <= i < iter ==> callbacks[i].count != at
      {
        if callbacks[iter].count == at {
          nextCallback := -1;
          prevCallback := -1;
          callbacks := callbacks[..iter] + callbacks[iter + 1..];
          forall x { FindRemoved(old(callbacks), iter, x); }
          return true;
        }
        iter := iter + 1;
      }
      FindNone(callbacks, at);
      return false;
    }

    method RemoveAllCallbacks()
      requires Valid()
      modifies this`nextCallback, this`prevCallback, this`callbacks
      ensures Valid()
      ensures State() == old(State()).(callbacks := [], cursor := Cursor(-1, -1, lastCallCallbacksEndCount))
    {
      callbacks := [];
      nextCallback := -1;
      prevCallback := -1;
    }

    // ------------------------------------------------------------------ one leg

    /** Queues the callbacks of one leg and moves the cached cursors along. */
    method CallCallbacks(startCount: real, endCount: real, queue: seq<Action>) returns (queue': seq<Action>)
      requires Valid()
      modifies this`nextCallback, this`prevCallback, this`lastCallCallbacksEndCount
      ensures Valid()
      ensures Firing(queue', Cur()) == Fly(callbacks, Firing(queue, old(Cur())), Leg(startCount, endCount))
    {
      queue' := queue;
      if endCount > startCount {
        queue' := CallForward(startCount, endCount, queue);
      } else if endCount < startCount {
        queue' := CallBackward(startCount, endCount, queue);
      }
    }

    method CallForward(startCount: real, endCount: real, queue: seq<Action>) returns (queue': seq<Action>)
      requires Valid() && endCount > startCount
      modifies this`nextCallback, this`prevCallback, this`lastCallCallbacksEndCount
      ensures Firing(queue', Cur()) == Fly(callbacks, Firing(queue, old(Cur())), Leg(startCount, endCount))
    {
      ghost var w := LegWindow(Cur(), Leg(startCount, endCount));
      if nextCallback < 0 || startCount != lastCallCallbacksEndCount {
        SeekNext(startCount);
      }
      SelectIsSlice(callbacks, w);
      queue' := QueueUpTo(endCount, queue);
      prevCallback := -1;
      lastCallCallbacksEndCount := endCount;
    }

    /** The first callback not below `startCount`. */
    method SeekNext(startCount: real)
      requires Sorted(callbacks)
      modifies this`nextCallback
      ensures nextCallback == Rank(callbacks, startCount, false)
    {
      nextCallback := 0;
      while nextCallback != |callbacks| && callbacks[nextCallback].count < startCount
        invariant 0 <= nextCallback <= |callbacks|
        invariant forall i :: 0 <= i < nextCallback ==> callbacks[i].count < startCount
        decreases |callbacks| - nextCallback
      {
        nextCallback := nextCallback + 1;
      }
      RankUnique(callbacks, startCount, false, nextCallback);
    }

    /** Queues callbacks from the cursor on until one lies past `endCount`. */
    method QueueUpTo(endCount: real, queue: seq<Action>) returns (queue': seq<Action>)
      requires Sorted(callbacks) && 0 <= nextCallback <= Rank(callbacks, endCount, true)
      modifies this`nextCallback
      ensures nextCallback == Rank(callbacks, endCount, true)
      ensures queue' == queue + Actions(callbacks[old(nextCallback)..nextCallback])
    {
      queue' := queue;
      RankIsPrefix(callbacks, endCount, true);
      while nextCallback < |callbacks|
        invariant old(nextCallback) <= nextCallback <= Rank(callbacks, endCount, true)
        invariant queue' == queue + Actions(callbacks[old(nextCallback)..nextCallback])
        decreases |callbacks| - nextCallback
      {
        if callbacks[nextCallback].count > endCount {
          break;
        }
        ActionsSnoc(callbacks, old(nextCallback), nextCallback);
        queue' := queue' + [callbacks[nextCallback].action];
        nextCallback := nextCallback + 1;
      }
    }

    method CallBackward(startCount: real, endCount: real, queue: seq<Action>) returns (queue': seq<Action>)
      requires Valid() && endCount < startCount
      modifies this`nextCallback, this`prevCallback, this`lastCallCallbacksEndCount
      ensures Firing(queue', Cur()) == Fly(callbacks, Firing(queue, old(Cur())), Leg(startCount, endCount))
    {
      ghost var w := LegWindow(Cur(), Leg(startCount, endCount));
      if prevCallback < 0 || startCount != lastCallCallbacksEndCount {
        SeekPrev(startCount);
      }
      SelectIsSlice(callbacks, w);
      queue' := QueueDownTo(endCount, queue);
      nextCallback := -1;
      lastCallCallbacksEndCount := endCount;
    }

    /** The last callback not above `startCount`. */
    method SeekPrev(startCount: real)
      requires Sorted(callbacks)
      modifies this`prevCallback
      ensures prevCallback == Rank(callbacks, startCount, true) - 1
    {
      prevCallback := |callbacks| - 1;
      while prevCallback >= 0 && callbacks[prevCallback].count > startCount
        invariant -1 <= prevCallback < |callbacks|
        invariant forall i :: prevCallback < i < |callbacks| ==> callbacks[i].count > startCount
      {
        prevCallback := prevCallback - 1;
      }
      RankUnique(callbacks, startCount, true, prevCallback + 1);
    }

    /** Queues callbacks from the cursor down until one lies below `endCount`. */
    method QueueDownTo(endCount: real, queue: seq<Action>) returns (queue': seq<Action>)
      requires Sorted(callbacks) && Rank(callbacks, endCount, false) - 1 <= prevCallback < |callbacks|
      modifies this`prevCallback
      ensures prevCallback == Rank(callbacks, endCount, false) - 1
      ensures queue' == queue + ActionsDown(callbacks[prevCallback + 1..old(prevCallback) + 1])
    {
      queue' := queue;
      RankIsPrefix(callbacks, endCount, false);
      while prevCallback >= 0
        invariant Rank(callbacks, endCount, false) - 1 <= prevCallback <= old(prevCallback)
        invariant queue' == queue + ActionsDown(callbacks[prevCallback + 1..old(prevCallback) + 1])
      {
        if callbacks[prevCallback].count < endCount {
          break;
        }
        ActionsSnoc(callbacks, prevCallback, old(prevCallback));
        queue' := queue' + [callbacks[prevCallback].action];
        prevCallback := prevCallback - 1;
      }
    }

    // ------------------------------------------------------------------ advance

    /** What flying a trip from here comes to. */
    ghost function Upshot(trip: Trip, queue: seq<Action>, flipped: bool): Outcome
      reads this
    {
      Outcome(FlyAll(callbacks, Firing(queue, Cur()), trip.path), trip.path.Final(), trip.count, trip.turned != flipped)
    }

    /** The same when only the leg from `oldCount` to `newCount` is left. */
    ghost function LastLeg(oldCount: real, newCount: real, queue: seq<Action>, flipped: bool): Outcome
      reads this
    {
      Outcome(Fly(callbacks, Firing(queue, Cur()), Leg(oldCount, newCount)), Leg(oldCount, newCount), newCount, flipped)
    }

    /** Calls the callbacks of a leg into a barrier, where an oscillating counter
        turns with `rest` still to go. */
    method CallUntilTurn(startCount: real, endCount: real, queue: seq<Action>,
                         ghost flipped: bool, ghost r: Range, ghost up: bool, ghost d: real, ghost rest: real)
      returns (queue': seq<Action>)
      requires Valid() && r.lo <= r.hi && d > 0.0 && r.Reached(up, Move(up, startCount, d))
      requires endCount == r.Barrier(up) && rest == d - Gap(r, up, startCount)
      modifies this`nextCallback, this`prevCallback, this`lastCallCallbacksEndCount
      ensures Valid()
      ensures rest >= 0.0
      ensures r.lo < r.hi ==>
        Upshot(OscillateTrip(r, !up, endCount, rest), queue', !flipped)
        == old(Upshot(OscillateTrip(r, up, startCount, d), queue, flipped))
      ensures r.lo == r.hi || rest == 0.0 ==>
        LastLeg(endCount, endCount, queue', !flipped)
        == old(Upshot(OscillateTrip(r, up, startCount, d), queue, flipped))
      ensures r.lo < r.hi && startCount == r.Far(up) ==> LapsLeft(rest, r.Period()) < LapsLeft(d, r.Period())
    {
      OscillateTurn(r, up, startCount, d);
      LapsLeftDrops(d, r.Period());
      queue' := CallCallbacks(startCount, endCount, queue);
      UpshotLast(endCount, queue', !flipped);
    }

    lemma UpshotLast(at: real, queue: seq<Action>, flipped: bool)
      ensures Upshot(Motion.Trip(Last(Leg(at, at)), at, false, false), queue, flipped)
           == LastLeg(at, at, queue, flipped)
    {
    }

    /** Stopping short of the barrier. */
    lemma UpshotStraight(oldCount: real, newCount: real, queue: seq<Action>, flipped: bool, r: Range, up: bool, d: real)
      requires r.lo <= r.hi && d > 0.0 && newCount == Move(up, oldCount, d) && !r.Reached(up, newCount)
      ensures Upshot(OscillateTrip(r, up, oldCount, d), queue, flipped) == LastLeg(oldCount, newCount, queue, flipped)
    {
    }

    /** End above start, moving up: wraps from the end to the start. */
    method CycleForward(from: real, to: real, startCount: real, endCount: real, period: real, queue: seq<Action>)
      returns (oldCount: real, newCount: real, queue': seq<Action>)
      requires Valid() && startCount <= endCount && period == endCount - startCount
      modifies this`nextCallback, this`prevCallback, this`lastCallCallbacksEndCount
      ensures Valid()
      ensures LastLeg(oldCount, newCount, queue', false)
           == old(Upshot(CycleTrip(Range(startCount, endCount), true, from, to), queue, false))
    {
      oldCount, newCount, queue' := from, to, queue;
      ghost var r := Range(startCount, endCount);
      ghost var goal := Upshot(CycleTrip(r, true, from, to), queue, false);
      while newCount >= endCount
        invariant Valid()
        invariant Upshot(CycleTrip(r, true, oldCount, newCount), queue', false) == goal
        decreases LapsLeft(-Gap(r, true, newCount), r.Period())
      {
        CycleWrap(r, true, oldCount, newCount);
        queue' := CallCallbacks(oldCount, endCount, queue');
        if period == 0.0 {
          assert goal == Upshot(Motion.Trip(Last(Leg(oldCount, newCount)), newCount, false, false), queue', false);
          break;
        }
        LapsLeftDrops(-Gap(r, true, newCount), r.Period());
        oldCount := startCount;
        newCount := newCount - period;
      }
    }

    /** End above start, moving down: wraps from the start to the end. */
    method CycleBackward(from: real, to: real, startCount: real, endCount: real, period: real, queue: seq<Action>)
      returns (oldCount: real, newCount: real, queue': seq<Action>)
      requires Valid() && startCount <= endCount && period == endCount - startCount
      modifies this`nextCallback, this`prevCallback, this`lastCallCallbacksEndCount
      ensures Valid()
      ensures LastLeg(oldCount, newCount, queue', false)
           == old(Upshot(CycleTrip(Range(startCount, endCount), false, from, to), queue, false))
    {
      oldCount, newCount, queue' := from, to, queue;
      ghost var r := Range(startCount, endCount);
      ghost var goal := Upshot(CycleTrip(r, false, from, to), queue, false);
      while newCount <= startCount
        invariant Valid()
        invariant Upshot(CycleTrip(r, false, oldCount, newCount), queue', false) == goal
        decreases LapsLeft(-Gap(r, false, newCount), r.Period())
      {
        CycleWrap(r, false, oldCount, newCount);
        queue' := CallCallbacks(oldCount, startCount, queue');
        if period == 0.0 {
          assert goal == Upshot(Motion.Trip(Last(Leg(oldCount, newCount)), newCount, false, false), queue', false);
          break;
        }
        LapsLeftDrops(-Gap(r, false, newCount), r.Period());
        oldCount := endCount;
        newCount := newCount + period;
      }
    }

    /** Start above end, moving down: wraps from the end to the start. */
    method CycleForwardDescending(from: real, to: real, startCount: real, endCount: real, period: real,
                                  queue: seq<Action>)
      returns (oldCount: real, newCount: real, queue': seq<Action>)
      requires Valid() && endCount < startCount && period == startCount - endCount
      modifies this`nextCallback, this`prevCallback, this`lastCallCallbacksEndCount
      ensures Valid()
      ensures LastLeg(oldCount, newCount, queue', false)
           == old(Upshot(CycleTrip(Range(endCount, startCount), false, from, to), queue, false))
    {
      oldCount, newCount, queue' := from, to, queue;
      ghost var r := Range(endCount, startCount);
      ghost var goal := Upshot(CycleTrip(r, false, from, to), queue, false);
      while newCount <= endCount
        invariant Valid()
        invariant Upshot(CycleTrip(r, false, oldCount, newCount), queue', false) == goal
        decreases LapsLeft(-Gap(r, false, newCount), r.Period())
      {
        queue' := CallCallbacks(oldCount, endCount, queue');
        LapsLeftDrops(-Gap(r, false, newCount), r.Period());
        oldCount := startCount;
        newCount := newCount + period;
      }
    }

    /** Start above end, moving up: wraps from the start to the end. */
    method CycleBackwardDescending(from: real, to: real, startCount: real, endCount: real, period: real,
                                   queue: seq<Action>)
      returns (oldCount: real, newCount: real, queue': seq<Action>)
      requires Valid() && endCount < startCount && period == startCount - endCount
      modifies this`nextCallback, this`prevCallback, this`lastCallCallbacksEndCount
      ensures Valid()
      ensures LastLeg(oldCount, newCount, queue', false)
           == old(Upshot(CycleTrip(Range(endCount, startCount), true, from, to), queue, false))
    {
      oldCount, newCount, queue' := from, to, queue;
      ghost var r := Range(endCount, startCount);
      ghost var goal := Upshot(CycleTrip(r, true, from, to), queue, false);
      while newCount >= startCount
        invariant Valid()
        invariant Upshot(CycleTrip(r, true, oldCount, newCount), queue', false) == goal
        decreases LapsLeft(-Gap(r, true, newCount), r.Period())
      {
        queue' := CallCallbacks(oldCount, startCount, queue');
        LapsLeftDrops(-Gap(r, true, newCount), r.Period());
        oldCount := endCount;
        newCount := newCount - period;
      }
    }

    /** End above start, moving up first. */
    method OscillateForward(from: real, amount: real, startCount: real, endCount: real, period: real,
                            direction: bool, queue: seq<Action>)
      returns (oldCount: real, newCount: real, direction': bool, queue': seq<Action>)
      requires Valid() && startCount <= endCount && period == endCount - startCount && amount >= 0.0
      modifies this`nextCallback, this`prevCallback, this`lastCallCallbacksEndCount
      ensures Valid()
      ensures LastLeg(oldCount, newCount, queue', direction' != direction)
           == old(Upshot(OscillateTrip(Range(startCount, endCount), true, from, amount), queue, false))
    {
      hide LegActions, LegCursor;
      var delta := amount;
      oldCount, newCount, direction', queue' := from, from + delta, direction, queue;
      ghost var r := Range(startCount, endCount);
      ghost var goal := Upshot(OscillateTrip(r, true, from, delta), queue, false);
      while delta > 0.0
        invariant Valid() && delta >= 0.0
        invariant delta == 0.0 ==> newCount == oldCount
        invariant Upshot(OscillateTrip(r, true, oldCount, delta), queue', direction' != direction) == goal
        decreases oldCount != startCount, LapsLeft(delta, r.Period())
      {
        newCount := oldCount + delta;
        if newCount < endCount {
          UpshotStraight(oldCount, newCount, queue', direction' != direction, r, true, delta);
          break;
        }
        queue' := CallUntilTurn(oldCount, endCount, queue', direction' != direction, r, true, delta,
                                delta - (endCount - oldCount));
        direction' := !direction';
        var amount := endCount - oldCount;
        delta := delta - amount;
        oldCount := endCount;
        newCount := endCount;
        if delta <= 0.0 || period == 0.0 {
          break;
        }
        newCount := newCount - delta;
        if newCount > startCount {
          UpshotStraight(oldCount, newCount, queue', direction' != direction, r, false, delta);
          break;
        }
        queue' := CallUntilTurn(oldCount, startCount, queue', direction' != direction, r, false, delta,
                                delta - (oldCount - startCount));
        direction' := !direction';
        amount := oldCount - startCount;
        delta := delta - amount;
        oldCount := startCount;
        newCount := startCount;
      }
    }

    /** End above start, moving down first. */
    method OscillateBackward(from: real, amount: real, startCount: real, endCount: real, period: real,
                             direction: bool, queue: seq<Action>)
      returns (oldCount: real, newCount: real, direction': bool, queue': seq<Action>)
      requires Valid() && startCount <= endCount && period == endCount - startCount && amount <= 0.0
      modifies this`nextCallback, this`prevCallback, this`lastCallCallbacksEndCount
      ensures Valid()
      ensures LastLeg(oldCount, newCount, queue', direction' != direction)
           == old(Upshot(OscillateTrip(Range(startCount, endCount), false, from, -amount), queue, false))
    {
      hide LegActions, LegCursor;
      var delta := amount;
      oldCount, newCount, direction', queue' := from, from + delta, direction, queue;
      ghost var r := Range(startCount, endCount);
      ghost var goal := Upshot(OscillateTrip(r, false, from, -delta), queue, false);
      while delta < 0.0
        invariant Valid() && delta <= 0.0
        invariant delta == 0.0 ==> newCount == oldCount
        invariant Upshot(OscillateTrip(r, false, oldCount, -delta), queue', direction' != direction) == goal
        decreases oldCount != endCount, LapsLeft(-delta, r.Period())
      {
        newCount := oldCount + delta;
        if newCount > startCount {
          UpshotStraight(oldCount, newCount, queue', direction' != direction, r, false, -delta);
          break;
        }
        queue' := CallUntilTurn(oldCount, startCount, queue', direction' != direction, r, false, -delta,
                                -delta - (oldCount - startCount));
        direction' := !direction';
        var amount := oldCount - startCount;
        delta := delta + amount;
        oldCount := startCount;
        newCount := startCount;
        if delta >= 0.0 || period == 0.0 {
          break;
        }
        newCount := newCount - delta;
        if newCount < endCount {
          UpshotStraight(oldCount, newCount, queue', direction' != direction, r, true, -delta);
          break;
        }
        queue' := CallUntilTurn(oldCount, endCount, queue', direction' != direction, r, true, -delta,
                                -delta - (endCount - oldCount));
        direction' := !direction';
        amount := endCount - oldCount;
        delta := delta + amount;
        oldCount := endCount;
        newCount := endCount;
      }
    }

    /** Start above end, moving down first. */
    method OscillateForwardDescending(from: real, amount: real, startCount: real, endCount: real, direction: bool,
                                      queue: seq<Action>)
      returns (oldCount: real, newCount: real, direction': bool, queue': seq<Action>)
      requires Valid() && endCount < startCount && amount >= 0.0
      modifies this`nextCallback, this`prevCallback, this`lastCallCallbacksEndCount
      ensures Valid()
      ensures LastLeg(oldCount, newCount, queue', direction' != direction)
           == old(Upshot(OscillateTrip(Range(endCount, startCount), false, from, amount), queue, false))
    {
      hide LegActions, LegCursor;
      var delta := amount;
      oldCount, newCount, direction', queue' := from, from - delta, direction, queue;
      ghost var r := Range(endCount, startCount);
      ghost var goal := Upshot(OscillateTrip(r, false, from, delta), queue, false);
      while delta > 0.0
        invariant Valid() && delta >= 0.0
        invariant delta == 0.0 ==> newCount == oldCount
        invariant Upshot(OscillateTrip(r, false, oldCount, delta), queue', direction' != direction) == goal
        decreases oldCount != startCount, LapsLeft(delta, r.Period())
      {
        newCount := oldCount - delta;
        if newCount > endCount {
          UpshotStraight(oldCount, newCount, queue', direction' != direction, r, false, delta);
          break;
        }
        queue' := CallUntilTurn(oldCount, endCount, queue', direction' != direction, r, false, delta,
                                delta - (oldCount - endCount));
        direction' := !direction';
        var amount := oldCount - endCount;
        delta := delta - amount;
        oldCount := endCount;
        newCount := endCount;
        if delta <= 0.0 {
          break;
        }
        newCount := newCount + delta;
        if newCount < startCount {
          UpshotStraight(oldCount, newCount, queue', direction' != direction, r, true, delta);
          break;
        }
        queue' := CallUntilTurn(oldCount, startCount, queue', direction' != direction, r, true, delta,
                                delta - (startCount - oldCount));
        direction' := !direction';
        amount := startCount - oldCount;
        delta := delta - amount;
        oldCount := startCount;
        newCount := startCount;
      }
    }

    /** Start above end, moving up first. */
    method OscillateBackwardDescending(from: real, amount: real, startCount: real, endCount: real, direction: bool,
                                       queue: seq<Action>)
      returns (oldCount: real, newCount: real, direction': bool, queue': seq<Action>)
      requires Valid() && endCount < startCount && amount <= 0.0
      modifies this`nextCallback, this`prevCallback, this`lastCallCallbacksEndCount
      ensures Valid()
      ensures LastLeg(oldCount, newCount, queue', direction' != direction)
           == old(Upshot(OscillateTrip(Range(endCount, startCount), true, from, -amount), queue, false))
    {
      hide LegActions, LegCursor;
      var delta := amount;
      oldCount, newCount, direction', queue' := from, from - delta, direction, queue;
      ghost var r := Range(endCount, startCount);
      ghost var goal := Upshot(OscillateTrip(r, true, from, -delta), queue, false);
      while delta < 0.0
        invariant Valid() && delta <= 0.0
        invariant delta == 0.0 ==> newCount == oldCount
        invariant Upshot(OscillateTrip(r, true, oldCount, -delta), queue', direction' != direction) == goal
        decreases oldCount != endCount, LapsLeft(-delta, r.Period())
      {
        newCount := oldCount - delta;
        if newCount < startCount {
          UpshotStraight(oldCount, newCount, queue', direction' != direction, r, true, -delta);
          break;
        }
        queue' := CallUntilTurn(oldCount, startCount, queue', direction' != direction, r, true, -delta,
                                -delta - (startCount - oldCount));
        direction' := !direction';
        var amount := startCount - oldCount;
        delta := delta + amount;
        oldCount := startCount;
        newCount := startCount;
        if delta >= 0.0 {
          break;
        }
        newCount := newCount + delta;
        if newCount > endCount {
          UpshotStraight(oldCount, newCount, queue', direction' != direction, r, false, -delta);
          break;
        }
        queue' := CallUntilTurn(oldCount, endCount, queue', direction' != direction, r, false, -delta,
                                -delta - (oldCount - endCount));
        direction' := !direction';
        amount := oldCount - endCount;
        delta := delta + amount;
        oldCount := endCount;
        newCount := endCount;
      }
    }

    /** End not below start, and a distance to go up. */
    method AdvanceForward(startCount: real, endCount: real, delta: real, period: real)
      returns (queue: seq<Action>, previousCount: real)
      requires Valid() && startCount <= endCount && period == endCount - startCount && delta >= 0.0
      modifies this`nextCallback, this`prevCallback, this`lastCallCallbacksEndCount,
               this`count, this`running, this`forward
      ensures Valid()
      ensures var trip := ModeTrip(countMode, Range(startCount, endCount), true, old(count), delta);
        && Firing(queue, Cur()) == FlyAll(callbacks, Firing([], old(Cur())), trip.path)
        && previousCount == trip.path.Final().from && count == trip.count
        && running == (old(running) && !trip.stopped) && forward == (old(forward) != trip.turned)
    {
      hide LegActions, LegCursor;
      queue, previousCount := [], count;
      var direction := forward;
      var newCount := previousCount + delta;
      if countMode == ONCE {
        if newCount >= endCount {
          newCount := endCount;
          running := false;
        }
      } else if countMode == CYCLE {
        previousCount, newCount, queue := CycleForward(previousCount, newCount, startCount, endCount, period, queue);
      } else if countMode == OSCILLATE {
        previousCount, newCount, direction, queue := OscillateForward(previousCount, delta, startCount, endCount,
                                                                      period, direction, queue);
        forward := direction;
      }
      queue := CallCallbacks(previousCount, newCount, queue);
      count := newCount;
    }

    /** End not below start, and a distance to go down. */
    method AdvanceBackward(startCount: real, endCount: real, delta: real, period: real)
      returns (queue: seq<Action>, previousCount: real)
      requires Valid() && startCount <= endCount && period == endCount - startCount && delta < 0.0
      modifies this`nextCallback, this`prevCallback, this`lastCallCallbacksEndCount,
               this`count, this`running, this`forward
      ensures Valid()
      ensures var trip := ModeTrip(countMode, Range(startCount, endCount), false, old(count), -delta);
        && Firing(queue, Cur()) == FlyAll(callbacks, Firing([], old(Cur())), trip.path)
        && previousCount == trip.path.Final().from && count == trip.count
        && running == (old(running) && !trip.stopped) && forward == (old(forward) != trip.turned)
    {
      hide LegActions, LegCursor;
      queue, previousCount := [], count;
      var direction := forward;
      var newCount := previousCount + delta;
      if countMode == ONCE {
        if newCount <= startCount {
          newCount := startCount;
          running := false;
        }
      } else if countMode == CYCLE {
        previousCount, newCount, queue := CycleBackward(previousCount, newCount, startCount, endCount, period, queue);
      } else if countMode == OSCILLATE {
        previousCount, newCount, direction, queue := OscillateBackward(previousCount, delta, startCount, endCount,
                                                                       period, direction, queue);
        forward := direction;
      }
      queue := CallCallbacks(previousCount, newCount, queue);
      count := newCount;
    }

    /** Start above end, and a distance to go down. */
    method AdvanceForwardDescending(startCount: real, endCount: real, delta: real, period: real)
      returns (queue: seq<Action>, previousCount: real)
      requires Valid() && endCount < startCount && period == startCount - endCount && delta > 0.0
      modifies this`nextCallback, this`prevCallback, this`lastCallCallbacksEndCount,
               this`count, this`running, this`forward
      ensures Valid()
      ensures var trip := ModeTrip(countMode, Range(endCount, startCount), false, old(count), delta);
        && Firing(queue, Cur()) == FlyAll(callbacks, Firing([], old(Cur())), trip.path)
        && previousCount == trip.path.Final().from && count == trip.count
        && running == (old(running) && !trip.stopped) && forward == (old(forward) != trip.turned)
    {
      hide LegActions, LegCursor;
      queue, previousCount := [], count;
      var direction := forward;
      var newCount := previousCount - delta;
      if countMode == ONCE {
        if newCount <= endCount {
          newCount := endCount;
          running := false;
        }
      } else if countMode == CYCLE {
        previousCount, newCount, queue := CycleForwardDescending(previousCount, newCount, startCount, endCount, period,
                                                                 queue);
      } else if countMode == OSCILLATE {
        previousCount, newCount, direction, queue := OscillateForwardDescending(previousCount, delta, startCount,
                                                                                endCount, direction, queue);
        forward := direction;
      }
      queue := CallCallbacks(previousCount, newCount, queue);
      count := newCount;
    }

    /** Start above end, and a distance to go up. */
    method AdvanceBackwardDescending(startCount: real, endCount: real, delta: real, period: real)
      returns (queue: seq<Action>, previousCount: real)
      requires Valid() && endCount < startCount && period == startCount - endCount && delta < 0.0
      modifies this`nextCallback, this`prevCallback, this`lastCallCallbacksEndCount,
               this`count, this`running, this`forward
      ensures Valid()
      ensures var trip := ModeTrip(countMode, Range(endCount, startCount), true, old(count), -delta);
        && Firing(queue, Cur()) == FlyAll(callbacks, Firing([], old(Cur())), trip.path)
        && previousCount == trip.path.Final().from && count == trip.count
        && running == (old(running) && !trip.stopped) && forward == (old(forward) != trip.turned)
    {
      hide LegActions, LegCursor;
      queue, previousCount := [], count;
      var direction := forward;
      var newCount := previousCount - delta;
      if countMode == ONCE {
        if newCount >= startCount {
          newCount := startCount;
          running := false;
        }
      } else if countMode == CYCLE {
        previousCount, newCount, queue := CycleBackwardDescending(previousCount, newCount, startCount, endCount, period,
                                                                  queue);
      } else if countMode == OSCILLATE {
        previousCount, newCount, direction, queue := OscillateBackwardDescending(previousCount, delta, startCount,
                                                                                 endCount, direction, queue);
        forward := direction;
      }
      queue := CallCallbacks(previousCount, newCount, queue);
      count := newCount;
    }

    /** Advances the counter; `queue` holds the callbacks that are then called, in order. */
    method Advance(amount: real) returns (queue: seq<Action>)
      requires Valid()
      modifies this`nextCallback, this`prevCallback, this`lastCallCallbacksEndCount,
               this`oldCount, this`count, this`running, this`forward
      ensures Valid()
      ensures State() == old(State()).After(amount)
      ensures queue == old(State()).Fired(amount)
      ensures oldCount == old(State()).Trip(amount).path.Final().from
    {
      hide LegActions, LegCursor;
      queue := [];
      var previousCount := count;
      var delta := (if forward then amount else -amount) * multiplier;
      var period := end - start;
      ghost var trip := State().Trip(amount);
      assert delta == State().Delta(amount);
      assert start <= end ==> trip == ModeTrip(countMode, Range(start, end), delta >= 0.0, count, Abs(delta));
      assert start > end && delta != 0.0 ==>
               trip == ModeTrip(countMode, Range(end, start), delta < 0.0, count, Abs(delta));
      FlyNowhere(callbacks, Firing([], Cur()), count);
      if period >= 0.0 {
        if delta >= 0.0 {
          queue, previousCount := AdvanceForward(start, end, delta, period);
        } else if delta < 0.0 {
          queue, previousCount := AdvanceBackward(start, end, delta, period);
        }
      } else if period < 0.0 {
        period := -period;
        if delta > 0.0 {
          queue, previousCount := AdvanceForwardDescending(start, end, delta, period);
        } else if delta < 0.0 {
          queue, previousCount := AdvanceBackwardDescending(start, end, delta, period);
        }
      }
      oldCount := previousCount;
      assert Firing(queue, Cur()) == FlyAll(callbacks, Firing([], old(Cur())), trip.path);
      assert count == trip.count;
    }
  }
}
