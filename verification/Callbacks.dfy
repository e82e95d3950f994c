/** A counter's callback list and what one leg of its motion fires.

    The code keeps cached cursors into a sorted list.  Here the same thing is
    said without cursors: a leg fires the callbacks whose count lies in a
    window, and `Select`/`SelectDown` pick them by plain filtering. */
module Callbacks {
  import opened Options

  /** A callback function, known only by its identity. */
  type Action = int

  datatype Callback = Callback(count: real, action: Action)

  /** The three cached fields `next_callback_`, `prev_callback_` and
      `last_call_callbacks_end_count_`. */
  datatype Cursor = Cursor(next: int, prev: int, lastEnd: real)

  datatype Leg = Leg(from: real, to: real)

  datatype Window = Window(lo: real, loClosed: bool, hi: real, hiClosed: bool) {
    predicate Has(x: real) {
      && (lo < x || (loClosed && lo == x))
      && (x < hi || (hiClosed && x == hi))
    }
  }

  ghost predicate Sorted(cbs: seq<Callback>) {
    forall i, j :: 0 <= i < j < |cbs| ==> cbs[i].count < cbs[j].count
  }

  function Actions(cbs: seq<Callback>): (r: seq<Action>)
    ensures |r| == |cbs|
  {
    seq(|cbs|, i requires 0 <= i < |cbs| => cbs[i].action)
  }

  function ActionsDown(cbs: seq<Callback>): (r: seq<Action>)
    ensures |r| == |cbs|
  {
    seq(|cbs|, i requires 0 <= i < |cbs| => cbs[|cbs| - 1 - i].action)
  }

  lemma ActionsSnoc(cbs: seq<Callback>, i: nat, j: nat)
    requires i <= j < |cbs|
    ensures Actions(cbs[i..j + 1]) == Actions(cbs[i..j]) + [cbs[j].action]
    ensures ActionsDown(cbs[i..j + 1]) == ActionsDown(cbs[i + 1..j + 1]) + [cbs[i].action]
  {
    var longer, tail := cbs[i..j + 1], cbs[i + 1..j + 1];
    assert forall n :: 0 <= n < |tail| ==> longer[n + 1] == tail[n];
    assert forall n :: 0 <= n < |tail| ==> ActionsDown(longer)[n] == ActionsDown(tail)[n];
  }

  // ------------------------------------------------------------- the list as a table

  /** The callback registered for a count. */
  function Find(cbs: seq<Callback>, x: real): Option<Action> {
    if cbs == [] then None
    else if cbs[0].count == x then Some(cbs[0].action)
    else Find(cbs[1..], x)
  }

  lemma {:induction false} FindNone(cbs: seq<Callback>, x: real)
    requires forall i :: 0 <= i < |cbs| ==> cbs[i].count != x
    ensures Find(cbs, x) == None
  {
    if cbs != [] { FindNone(cbs[1..], x); }
  }

  lemma {:induction false} FindConcat(xs: seq<Callback>, ys: seq<Callback>, x: real)
    ensures Find(xs + ys, x) == if Find(xs, x).Some? then Find(xs, x) else Find(ys, x)
  {
    if xs == [] {
      assert xs + ys == ys;
    } else {
      assert (xs + ys)[1..] == xs[1..] + ys;
      FindConcat(xs[1..], ys, x);
    }
  }

  lemma FindAround(xs: seq<Callback>, cb: Callback, ys: seq<Callback>, x: real)
    requires forall i :: 0 <= i < |xs| ==> xs[i].count != cb.count
    ensures Find(xs + [cb] + ys, x) == if x == cb.count then Some(cb.action) else Find(xs + ys, x)
  {
    FindConcat(xs, [cb] + ys, x);
    assert ([cb] + ys)[1..] == ys;
    assert xs + [cb] + ys == xs + ([cb] + ys);
    FindConcat(xs, ys, x);
    if x == cb.count { FindNone(xs, x); }
  }

  lemma FindReplaced(cbs: seq<Callback>, k: nat, cb: Callback, x: real)
    requires Sorted(cbs) && k < |cbs| && cbs[k].count == cb.count
    ensures Find(cbs[k := cb], x) == if x == cb.count then Some(cb.action) else Find(cbs, x)
  {
    var xs, ys := cbs[..k], cbs[k + 1..];
    FindAround(xs, cbs[k], ys, x);
    FindAround(xs, cb, ys, x);
    assert cbs == xs + [cbs[k]] + ys && cbs[k := cb] == xs + [cb] + ys;
  }

  lemma FindInserted(cbs: seq<Callback>, k: nat, cb: Callback, x: real)
    requires k <= |cbs|
    requires forall i :: 0 <= i < k ==> cbs[i].count < cb.count
    ensures Find(cbs[..k] + [cb] + cbs[k..], x) == if x == cb.count then Some(cb.action) else Find(cbs, x)
  {
    FindAround(cbs[..k], cb, cbs[k..], x);
    assert cbs == cbs[..k] + cbs[k..];
  }

  lemma FindRemoved(cbs: seq<Callback>, k: nat, x: real)
    requires Sorted(cbs) && k < |cbs|
    ensures Find(cbs[..k] + cbs[k + 1..], x) == if x == cbs[k].count then None else Find(cbs, x)
    ensures Find(cbs, cbs[k].count).Some?
  {
    var xs, ys := cbs[..k], cbs[k + 1..];
    FindAround(xs, cbs[k], ys, x);
    FindAround(xs, cbs[k], ys, cbs[k].count);
    assert cbs == xs + [cbs[k]] + ys;
    if x == cbs[k].count { FindNone(xs + ys, x); }
  }

  // ---------------------------------------------------------------- filtering

  /** The callbacks whose count is in the window, in list order. */
  function Select(cbs: seq<Callback>, w: Window): seq<Action> {
    if cbs == [] then []
    else (if w.Has(cbs[0].count) then [cbs[0].action] else []) + Select(cbs[1..], w)
  }

  /** The same callbacks in the opposite order. */
  function SelectDown(cbs: seq<Callback>, w: Window): seq<Action> {
    if cbs == [] then []
    else SelectDown(cbs[1..], w) + (if w.Has(cbs[0].count) then [cbs[0].action] else [])
  }

  /** How many callbacks have a count below `x`, or at most `x`. */
  function Rank(cbs: seq<Callback>, x: real, inclusive: bool): (n: nat)
    ensures n <= |cbs|
  {
    if cbs == [] then 0
    else (if cbs[0].count < x || (inclusive && cbs[0].count == x) then 1 else 0)
         + Rank(cbs[1..], x, inclusive)
  }

  /** In a sorted list the counted callbacks are a prefix. */
  lemma {:induction false} RankIsPrefix(cbs: seq<Callback>, x: real, inclusive: bool)
    requires Sorted(cbs)
    ensures forall i :: 0 <= i < |cbs| ==>
      (i < Rank(cbs, x, inclusive) <==> cbs[i].count < x || (inclusive && cbs[i].count == x))
  {
    if cbs != [] {
      var rest := cbs[1..];
      RankIsPrefix(rest, x, inclusive);
      if cbs[0].count < x || (inclusive && cbs[0].count == x) {
        forall i | 0 < i < |cbs|
          ensures i < Rank(cbs, x, inclusive) <==> cbs[i].count < x || (inclusive && cbs[i].count == x)
        {
          assert cbs[i] == rest[i - 1];
        }
      } else if rest != [] {
        assert rest[0] == cbs[1];
        assert Rank(rest, x, inclusive) == 0;
      }
    }
  }

  lemma RankUnique(cbs: seq<Callback>, x: real, inclusive: bool, n: nat)
    requires Sorted(cbs) && n <= |cbs|
    requires forall i :: 0 <= i < n ==> cbs[i].count < x || (inclusive && cbs[i].count == x)
    requires forall i :: n <= i < |cbs| ==> x < cbs[i].count || (!inclusive && cbs[i].count == x)
    ensures Rank(cbs, x, inclusive) == n
  {
    RankIsPrefix(cbs, x, inclusive);
    var r := Rank(cbs, x, inclusive);
    assert r < |cbs| ==> !(cbs[r].count < x || (inclusive && cbs[r].count == x));
    assert n < |cbs| ==> !(cbs[n].count < x || (inclusive && cbs[n].count == x));
  }

  /** Where the window's callbacks sit in the list. */
  function First(cbs: seq<Callback>, w: Window): nat { Rank(cbs, w.lo, !w.loClosed) }
  function Limit(cbs: seq<Callback>, w: Window): nat { Rank(cbs, w.hi, w.hiClosed) }

  lemma SliceOfRest(cbs: seq<Callback>, a: nat, b: nat)
    requires 0 < a <= b <= |cbs|
    ensures cbs[1..][a - 1..b - 1] == cbs[a..b]
  {
  }

  lemma {:induction false} SelectSlice(cbs: seq<Callback>, w: Window, a: nat, b: nat)
    requires a <= b <= |cbs|
    requires forall i :: 0 <= i < |cbs| ==> (w.Has(cbs[i].count) <==> a <= i < b)
    ensures Select(cbs, w) == Actions(cbs[a..b])
    ensures SelectDown(cbs, w) == ActionsDown(cbs[a..b])
  {
    if cbs != [] {
      var rest := cbs[1..];
      if a == 0 && b > 0 {
        SelectSlice(rest, w, 0, b - 1);
        assert cbs[a..b] == [cbs[0]] + rest[..b - 1];
      } else if a == 0 {
        SelectSlice(rest, w, 0, 0);
        assert cbs[0..0] == rest[0..0] == [];
      } else {
        SelectSlice(rest, w, a - 1, b - 1);
        SliceOfRest(cbs, a, b);
      }
    }
  }

  /** Filtering a sorted list by a window takes a contiguous piece of it. */
  lemma SelectIsSlice(cbs: seq<Callback>, w: Window)
    requires Sorted(cbs) && w.lo < w.hi
    ensures First(cbs, w) <= Limit(cbs, w) <= |cbs|
    ensures Select(cbs, w) == Actions(cbs[First(cbs, w)..Limit(cbs, w)])
    ensures SelectDown(cbs, w) == ActionsDown(cbs[First(cbs, w)..Limit(cbs, w)])
  {
    var a, b := First(cbs, w), Limit(cbs, w);
    RankIsPrefix(cbs, w.lo, !w.loClosed);
    RankIsPrefix(cbs, w.hi, w.hiClosed);
    assert b < |cbs| ==> w.hi <= cbs[b].count;
    SelectSlice(cbs, w, a, b);
  }

  /** No callback lies in the window. */
  predicate NoneIn(cbs: seq<Callback>, w: Window) { forall i :: 0 <= i < |cbs| ==> !w.Has(cbs[i].count) }

  /** Both windows hold the same callbacks. */
  predicate SameIn(cbs: seq<Callback>, w: Window, w': Window) {
    forall i :: 0 <= i < |cbs| ==> (w.Has(cbs[i].count) <==> w'.Has(cbs[i].count))
  }

  lemma SameInRest(cbs: seq<Callback>, w: Window, w': Window)
    requires cbs != []
    ensures SameIn(cbs, w, w') <==> (w.Has(cbs[0].count) <==> w'.Has(cbs[0].count)) && SameIn(cbs[1..], w, w')
  {
    var rest := cbs[1..];
    if SameIn(cbs, w, w') {
      forall i | 0 <= i < |rest|
        ensures w.Has(rest[i].count) <==> w'.Has(rest[i].count)
      {
        assert rest[i] == cbs[i + 1];
      }
    }
    if (w.Has(cbs[0].count) <==> w'.Has(cbs[0].count)) && SameIn(rest, w, w') {
      forall i | 0 <= i < |cbs|
        ensures w.Has(cbs[i].count) <==> w'.Has(cbs[i].count)
      {
        assert i > 0 ==> cbs[i] == rest[i - 1];
      }
    }
  }

  /** A narrower window picks no more callbacks, and as many only if it picks the same. */
  lemma {:induction false} SelectNarrower(cbs: seq<Callback>, w: Window, w': Window)
    requires forall i :: 0 <= i < |cbs| && w.Has(cbs[i].count) ==> w'.Has(cbs[i].count)
    ensures |Select(cbs, w)| == |SelectDown(cbs, w)| <= |Select(cbs, w')| == |SelectDown(cbs, w')|
    ensures |Select(cbs, w)| == |Select(cbs, w')| <==> SameIn(cbs, w, w')
    ensures SameIn(cbs, w, w') ==> Select(cbs, w) == Select(cbs, w') && SelectDown(cbs, w) == SelectDown(cbs, w')
  {
    if cbs != [] {
      var rest := cbs[1..];
      assert forall i :: 0 <= i < |rest| ==> rest[i] == cbs[i + 1];
      SelectNarrower(rest, w, w');
      SameInRest(cbs, w, w');
    }
  }

  lemma {:induction false} SelectNothing(cbs: seq<Callback>, w: Window)
    ensures Select(cbs, w) == [] <==> NoneIn(cbs, w)
    ensures SelectDown(cbs, w) == [] <==> NoneIn(cbs, w)
  {
    if cbs != [] {
      var rest := cbs[1..];
      SelectNothing(rest, w);
      assert forall i :: 1 <= i < |cbs| ==> cbs[i] == rest[i - 1];
      assert forall i :: 0 <= i < |rest| ==> rest[i] == cbs[i + 1];
    }
  }

  // --------------------------------------------------------------- what a leg fires

  /** The cached cursors mean what their names say. */
  ghost predicate CursorOk(cbs: seq<Callback>, cur: Cursor) {
    && -1 <= cur.next <= |cbs|
    && -1 <= cur.prev < |cbs|
    && (cur.next >= 0 ==> cur.next == Rank(cbs, cur.lastEnd, true))
    && (cur.prev >= 0 ==> cur.prev == Rank(cbs, cur.lastEnd, false) - 1)
  }

  /** A leg that goes on where the last one ended does not fire the callback it
      stands on a second time; any other leg includes both of its ends. */
  function LegWindow(cur: Cursor, leg: Leg): Window
    requires leg.from != leg.to
  {
    if leg.to > leg.from then
      Window(leg.from, !(cur.next >= 0 && cur.lastEnd == leg.from), leg.to, true)
    else
      Window(leg.to, true, leg.from, !(cur.prev >= 0 && cur.lastEnd == leg.from))
  }

  function LegActions(cbs: seq<Callback>, cur: Cursor, leg: Leg): seq<Action> {
    if leg.to > leg.from then Select(cbs, LegWindow(cur, leg))
    else if leg.to < leg.from then SelectDown(cbs, LegWindow(cur, leg))
    else []
  }

  function LegCursor(cbs: seq<Callback>, cur: Cursor, leg: Leg): Cursor {
    if leg.to > leg.from then Cursor(Rank(cbs, leg.to, true), -1, leg.to)
    else if leg.to < leg.from then Cursor(-1, Rank(cbs, leg.to, false) - 1, leg.to)
    else cur
  }

  /** The queue being filled, with the cursors as they stand. */
  datatype Firing = Firing(queue: seq<Action>, cursor: Cursor)

  function Fly(cbs: seq<Callback>, f: Firing, leg: Leg): Firing {
    Firing(f.queue + LegActions(cbs, f.cursor, leg), LegCursor(cbs, f.cursor, leg))
  }

  /** A journey of one or more legs. */
  datatype Path = Last(leg: Leg) | Then(leg: Leg, rest: Path) {
    function Final(): Leg {
      match this
      case Last(l) => l
      case Then(_, p) => p.Final()
    }
  }

  function FlyAll(cbs: seq<Callback>, f: Firing, path: Path): Firing
    decreases path
  {
    match path
    case Last(leg) => Fly(cbs, f, leg)
    case Then(leg, rest) => FlyAll(cbs, Fly(cbs, f, leg), rest)
  }

  lemma FlyNowhere(cbs: seq<Callback>, f: Firing, x: real)
    ensures FlyAll(cbs, f, Last(Leg(x, x))) == f
  {
    assert f.queue + [] == f.queue;
  }

  /** What is already queued does not change what is queued next. */
  lemma {:induction false} FlyPrefix(cbs: seq<Callback>, q: seq<Action>, cur: Cursor, path: Path)
    ensures FlyAll(cbs, Firing(q, cur), path).queue == q + FlyAll(cbs, Firing([], cur), path).queue
    ensures FlyAll(cbs, Firing(q, cur), path).cursor == FlyAll(cbs, Firing([], cur), path).cursor
    decreases path
  {
    if path.Then? {
      var a, c := LegActions(cbs, cur, path.leg), LegCursor(cbs, cur, path.leg);
      FlyPrefix(cbs, q + a, c, path.rest);
      FlyPrefix(cbs, [] + a, c, path.rest);
    }
  }

  lemma {:induction false} FlyAllCursorOk(cbs: seq<Callback>, f: Firing, path: Path)
    requires CursorOk(cbs, f.cursor)
    ensures CursorOk(cbs, FlyAll(cbs, f, path).cursor)
    decreases path
  {
    if path.Then? {
      FlyAllCursorOk(cbs, Fly(cbs, f, path.leg), path.rest);
    }
  }

  lemma FlyOne(cbs: seq<Callback>, cur: Cursor, leg: Leg)
    ensures FlyAll(cbs, Firing([], cur), Last(leg)) == Firing(LegActions(cbs, cur, leg), LegCursor(cbs, cur, leg))
  {
    hide LegActions, LegCursor;
  }

  lemma FlyTwo(cbs: seq<Callback>, cur: Cursor, leg: Leg, next: Leg)
    ensures var cur' := LegCursor(cbs, cur, leg);
      FlyAll(cbs, Firing([], cur), Then(leg, Last(next)))
      == Firing(LegActions(cbs, cur, leg) + LegActions(cbs, cur', next), LegCursor(cbs, cur', next))
  {
    hide LegActions, LegCursor;
    var f := Fly(cbs, Firing([], cur), leg);
    assert f.queue == LegActions(cbs, cur, leg);
    assert FlyAll(cbs, f, Last(next)) == Fly(cbs, f, next);
  }

  // --------------------------------------------------- splitting a leg in two
  /** Both pieces go the same way (either may be empty). */
  predicate SameWay(x: real, m: real, y: real) {
    x <= m <= y || x >= m >= y
  }

  /** The one place where stopping is visible: a downward leg that stops exactly
      on the smallest callback leaves `prev_callback_` at -1, which also means
      "not valid", so a further downward leg finds that callback again. */
  predicate Seam(cbs: seq<Callback>, x: real, m: real, y: real) {
    x > m > y && cbs != [] && cbs[0].count == m
  }

  lemma ActionsSplit(cbs: seq<Callback>, i: nat, j: nat, k: nat)
    requires i <= j <= k <= |cbs|
    ensures Actions(cbs[i..j]) + Actions(cbs[j..k]) == Actions(cbs[i..k])
    ensures ActionsDown(cbs[j..k]) + ActionsDown(cbs[i..j]) == ActionsDown(cbs[i..k])
  {
    var s, t, u := cbs[i..j], cbs[j..k], cbs[i..k];
    assert forall n :: 0 <= n < |u| ==> u[n] == if n < |s| then s[n] else t[n - |s|];
    ActionsJoin(s, t, u);
  }

  lemma ActionsJoin(s: seq<Callback>, t: seq<Callback>, u: seq<Callback>)
    requires |u| == |s| + |t| && forall n :: 0 <= n < |u| ==> u[n] == if n < |s| then s[n] else t[n - |s|]
    ensures Actions(s) + Actions(t) == Actions(u)
    ensures ActionsDown(t) + ActionsDown(s) == ActionsDown(u)
  {
    var down := ActionsDown(t) + ActionsDown(s);
    forall n | 0 <= n < |u|
      ensures down[n] == ActionsDown(u)[n]
    {
      assert ActionsDown(u)[n] == u[|u| - 1 - n].action;
      if n < |t| {
        assert down[n] == t[|t| - 1 - n].action;
      } else {
        assert down[n] == s[|s| - 1 - (n - |t|)].action;
      }
    }
  }

  lemma SplitUp(cbs: seq<Callback>, cur: Cursor, x: real, m: real, y: real)
    requires Sorted(cbs) && CursorOk(cbs, cur) && x < m < y
    ensures LegActions(cbs, cur, Leg(x, m)) + LegActions(cbs, LegCursor(cbs, cur, Leg(x, m)), Leg(m, y))
         == LegActions(cbs, cur, Leg(x, y))
  {
    var cur' := LegCursor(cbs, cur, Leg(x, m));
    var w1, w2, w := LegWindow(cur, Leg(x, m)), LegWindow(cur', Leg(m, y)), LegWindow(cur, Leg(x, y));
    SelectIsSlice(cbs, w1);
    SelectIsSlice(cbs, w2);
    SelectIsSlice(cbs, w);
    ActionsSplit(cbs, First(cbs, w1), Limit(cbs, w1), Limit(cbs, w));
  }

  /** With a callback below the break, the cursor after the first piece is valid. */
  lemma SplitDownInside(cbs: seq<Callback>, cur: Cursor, x: real, m: real, y: real)
    requires Sorted(cbs) && CursorOk(cbs, cur) && x > m > y && Rank(cbs, m, false) > 0
    ensures LegActions(cbs, cur, Leg(x, m)) + LegActions(cbs, LegCursor(cbs, cur, Leg(x, m)), Leg(m, y))
         == LegActions(cbs, cur, Leg(x, y))
  {
    var cur' := LegCursor(cbs, cur, Leg(x, m));
    var w1, w2, w := LegWindow(cur, Leg(x, m)), LegWindow(cur', Leg(m, y)), LegWindow(cur, Leg(x, y));
    SelectIsSlice(cbs, w1);
    SelectIsSlice(cbs, w2);
    SelectIsSlice(cbs, w);
    ActionsSplit(cbs, First(cbs, w), Limit(cbs, w2), Limit(cbs, w));
  }

  /** With no callback below the break, the second piece starts afresh. */
  lemma SplitDownAtBottom(cbs: seq<Callback>, cur: Cursor, x: real, m: real, y: real)
    requires Sorted(cbs) && CursorOk(cbs, cur) && x > m > y && Rank(cbs, m, false) == 0
    ensures LegActions(cbs, cur, Leg(x, m)) == LegActions(cbs, cur, Leg(x, y))
    ensures LegActions(cbs, LegCursor(cbs, cur, Leg(x, m)), Leg(m, y))
         == (if Seam(cbs, x, m, y) then [cbs[0].action] else [])
  {
    var cur' := LegCursor(cbs, cur, Leg(x, m));
    var w1, w2, w := LegWindow(cur, Leg(x, m)), LegWindow(cur', Leg(m, y)), LegWindow(cur, Leg(x, y));
    RankIsPrefix(cbs, m, false);
    RankUnique(cbs, y, false, 0);
    RankUnique(cbs, m, true, if Seam(cbs, x, m, y) then 1 else 0);
    SelectIsSlice(cbs, w1);
    SelectIsSlice(cbs, w);
    SelectIsSlice(cbs, w2);
    assert Seam(cbs, x, m, y) ==> cbs[0..1] == [cbs[0]];
  }

  /** Making one leg in two pieces fires the same callbacks and leaves the same
      cursors; at a seam, and only there, it fires the smallest callback twice. */
  lemma SplitLeg(cbs: seq<Callback>, cur: Cursor, x: real, m: real, y: real)
    requires Sorted(cbs) && CursorOk(cbs, cur) && SameWay(x, m, y)
    ensures LegCursor(cbs, LegCursor(cbs, cur, Leg(x, m)), Leg(m, y)) == LegCursor(cbs, cur, Leg(x, y))
    ensures LegActions(cbs, cur, Leg(x, m)) + LegActions(cbs, LegCursor(cbs, cur, Leg(x, m)), Leg(m, y))
         == LegActions(cbs, cur, Leg(x, y)) + (if Seam(cbs, x, m, y) then [cbs[0].action] else [])
  {
    if x < m < y {
      SplitUp(cbs, cur, x, m, y);
    } else if x > m > y {
      if Rank(cbs, m, false) > 0 {
        SplitDownInside(cbs, cur, x, m, y);
        RankIsPrefix(cbs, m, false);
      } else {
        SplitDownAtBottom(cbs, cur, x, m, y);
      }
    }
  }

  /** Two journeys made in one go: the last leg of the first and the first leg of
      the second become one. */
  function Glue(p: Path, q: Path): Path {
    match p
    case Then(leg, rest) => Then(leg, Glue(rest, q))
    case Last(leg) =>
      match q
      case Last(next) => Last(Leg(leg.from, next.to))
      case Then(next, rest) => Then(Leg(leg.from, next.to), rest)
  }

  /** `q` starts where `p` ends and goes on the same way. */
  predicate Continues(p: Path, q: Path) {
    p.Final().to == q.leg.from && SameWay(p.Final().from, q.leg.from, q.leg.to)
  }

  predicate SeamBetween(cbs: seq<Callback>, p: Path, q: Path) {
    Seam(cbs, p.Final().from, q.leg.from, q.leg.to)
  }

  lemma GluedLegFires(cbs: seq<Callback>, q0: seq<Action>, cur: Cursor, leg: Leg, q: Path)
    requires Sorted(cbs) && CursorOk(cbs, cur) && Continues(Last(leg), q)
    ensures var f1 := Fly(cbs, Firing(q0, cur), leg);
      var f2 := FlyAll(cbs, Firing([], f1.cursor), q);
      var f := FlyAll(cbs, Firing(q0, cur), Glue(Last(leg), q));
      && f.cursor == f2.cursor
      && (f.queue == f1.queue + f2.queue <==> !SeamBetween(cbs, Last(leg), q))
  {
    var x, m, y := leg.from, q.leg.from, q.leg.to;
    SplitLeg(cbs, cur, x, m, y);
    var cur1, cur2 := LegCursor(cbs, cur, leg), LegCursor(cbs, cur, Leg(x, y));
    var a, b, c := LegActions(cbs, cur, leg), LegActions(cbs, cur1, q.leg), LegActions(cbs, cur, Leg(x, y));
    var extra := if Seam(cbs, x, m, y) then [cbs[0].action] else [];
    var tail: seq<Action> := [];
    if q.Then? {
      FlyPrefix(cbs, q0 + c, cur2, q.rest);
      FlyPrefix(cbs, [] + b, cur2, q.rest);
      tail := FlyAll(cbs, Firing([], cur2), q.rest).queue;
    }
    Regroup(q0, a, b, c, extra, tail);
  }

  lemma Regroup(q: seq<Action>, a: seq<Action>, b: seq<Action>, c: seq<Action>, extra: seq<Action>, tail: seq<Action>)
    requires a + b == c + extra
    ensures (q + c + tail == (q + a) + (([] + b) + tail)) <==> extra == []
    ensures (q + c == (q + a) + ([] + b)) <==> extra == []
  {
    assert (q + a) + (([] + b) + tail) == q + (a + b) + tail;
    assert (q + a) + ([] + b) == q + (a + b);
    assert |q + (a + b) + tail| == |q + c + tail| + |extra|;
    assert extra == [] ==> c + extra == c;
  }

  /** Both ways of making a journey leave the same cursors and fire the same
      callbacks in the same order, unless the break falls on a seam. */
  lemma {:induction false} GluedFires(cbs: seq<Callback>, q0: seq<Action>, cur: Cursor, p: Path, q: Path)
    requires Sorted(cbs) && CursorOk(cbs, cur) && Continues(p, q)
    ensures var f1 := FlyAll(cbs, Firing(q0, cur), p);
      var f2 := FlyAll(cbs, Firing([], f1.cursor), q);
      var f := FlyAll(cbs, Firing(q0, cur), Glue(p, q));
      && f.cursor == f2.cursor
      && (f.queue == f1.queue + f2.queue <==> !SeamBetween(cbs, p, q))
    decreases p
  {
    match p
    case Then(leg, rest) =>
      GluedFires(cbs, q0 + LegActions(cbs, cur, leg), LegCursor(cbs, cur, leg), rest, q);
    case Last(leg) =>
      GluedLegFires(cbs, q0, cur, leg, q);
  }
}
