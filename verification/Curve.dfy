/** Curves: key management, evaluation over the whole real line, and its laws. */
module Curves {
  import opened Options
  import opened RealMath
  import opened CurveKeys

  const CONSTANT := 0
  const LINEAR := 1
  const CYCLE := 2
  const CYCLE_RELATIVE := 3
  const OSCILLATE := 4

  // ------------------------------------------------- the curve over the whole line

  /** A curve that can be evaluated: at least two keys, in order. */
  ghost predicate Ready(keys: seq<Key>) { |keys| >= 2 && SortedKeys(keys) }

  function Start(keys: seq<Key>): real requires |keys| >= 2 { keys[0].input }
  function End(keys: seq<Key>): real requires |keys| >= 2 { keys[|keys| - 1].input }
  function Span(keys: seq<Key>): real requires |keys| >= 2 { End(keys) - Start(keys) }
  function StartOutput(keys: seq<Key>): real requires |keys| >= 2 { keys[0].output }
  function EndOutput(keys: seq<Key>): real requires |keys| >= 2 { keys[|keys| - 1].output }
  function Rise(keys: seq<Key>): real requires |keys| >= 2 { EndOutput(keys) - StartOutput(keys) }

  /** The value at a point from the first key to the last, both included. */
  function Within(keys: seq<Key>, x: real): real
    requires |keys| >= 2 && Start(keys) <= x <= End(keys)
  {
    if x >= End(keys) then EndOutput(keys) else InSpan(keys, x)
  }

  /** A point folded back into the span: by wrapping, and by going to and fro. */
  function Wrapped(keys: seq<Key>, x: real): (y: real)
    requires |keys| >= 2 && Span(keys) > 0.0
    ensures Start(keys) <= y < End(keys)
  {
    ModRange(x - Start(keys), Span(keys));
    Start(keys) + Mod(x - Start(keys), Span(keys))
  }

  function Reflected(keys: seq<Key>, x: real): (y: real)
    requires |keys| >= 2 && Span(keys) > 0.0
    ensures Start(keys) <= y <= End(keys)
  {
    FoldRange(x - Start(keys), Span(keys));
    Start(keys) + Fold(x - Start(keys), Span(keys))
  }

  function Cycled(keys: seq<Key>, x: real): real
    requires |keys| >= 2 && Span(keys) > 0.0
  {
    Within(keys, Wrapped(keys, x))
  }

  function CycledRelative(keys: seq<Key>, x: real): real
    requires |keys| >= 2 && Span(keys) > 0.0
  {
    Within(keys, Wrapped(keys, x)) + Laps(x - Start(keys), Span(keys)) as real * Rise(keys)
  }

  function Oscillated(keys: seq<Key>, x: real): real
    requires |keys| >= 2 && Span(keys) > 0.0
  {
    Within(keys, Reflected(keys, x))
  }

  const EPSILON := 0.00001

  /** The straight line through two keys, or flat if they are too close together. */
  function OnLine(edge: Key, inner: Key, x: real): real {
    if Abs(inner.input - edge.input) > EPSILON then
      edge.output + (x - edge.input) * ((inner.output - edge.output) / (inner.input - edge.input))
    else edge.output
  }

  /** Outside the keys: `edge` is the key at the near end, `inner` its neighbour.
      Invalid modes have no value of their own. */
  function Beyond(keys: seq<Key>, mode: int, edge: Key, inner: Key, x: real): Option<real>
    requires |keys| >= 2 && Span(keys) > 0.0
  {
    match mode
    case 0 => Some(edge.output)
    case 1 => Some(OnLine(edge, inner, x))
    case 2 => Some(Cycled(keys, x))
    case 3 => Some(CycledRelative(keys, x))
    case 4 => Some(Oscillated(keys, x))
    case _ => None
  }

  function OrElse(o: Option<real>, d: real): real { if o.Some? then o.value else d }

  function Before(keys: seq<Key>, pre: int, x: real): real
    requires |keys| >= 2
  {
    if Span(keys) <= 0.0 then StartOutput(keys)
    else OrElse(Beyond(keys, pre, keys[0], keys[1], x), StartOutput(keys))
  }

  function After(keys: seq<Key>, post: int, x: real): real
    requires |keys| >= 2
  {
    if Span(keys) <= 0.0 then EndOutput(keys)
    else OrElse(Beyond(keys, post, keys[|keys| - 1], keys[|keys| - 2], x), EndOutput(keys))
  }

  /** The curve everywhere. */
  function Value(keys: seq<Key>, pre: int, post: int, x: real): real
    requires |keys| >= 2
  {
    if x < Start(keys) then Before(keys, pre, x)
    else if x >= End(keys) then After(keys, post, x)
    else InSpan(keys, x)
  }

  // -------------------------------------------------------------------------- laws

  lemma InsideUnfolded(keys: seq<Key>, x: real)
    requires |keys| >= 2 && Start(keys) <= x < End(keys)
    ensures Wrapped(keys, x) == x && Laps(x - Start(keys), Span(keys)) == 0
    ensures Reflected(keys, x) == x
  {
    ModUnique(x - Start(keys), Span(keys), x - Start(keys), 0);
    ModUnique(x - Start(keys), 2.0 * Span(keys), x - Start(keys), 0);
  }

  /** With the same mode at both ends, one formula covers the whole line. */
  lemma OneFormula(keys: seq<Key>, x: real)
    requires |keys| >= 2 && Span(keys) > 0.0
    ensures Value(keys, CYCLE, CYCLE, x) == Cycled(keys, x)
    ensures Value(keys, CYCLE_RELATIVE, CYCLE_RELATIVE, x) == CycledRelative(keys, x)
    ensures Value(keys, OSCILLATE, OSCILLATE, x) == Oscillated(keys, x)
  {
    if Start(keys) <= x < End(keys) {
      InsideUnfolded(keys, x);
    }
  }

  /** One span further on, a point wraps to the same place, one lap later. */
  lemma OneSpanOn(keys: seq<Key>, x: real)
    requires |keys| >= 2 && Span(keys) > 0.0
    ensures Wrapped(keys, x + Span(keys)) == Wrapped(keys, x)
    ensures Laps(x + Span(keys) - Start(keys), Span(keys)) == Laps(x - Start(keys), Span(keys)) + 1
  {
    hide Mod, Laps;
    ModShift(x - Start(keys), Span(keys), 1);
    assert x + Span(keys) - Start(keys) == x - Start(keys) + 1 as real * Span(keys);
  }

  /** CYCLE repeats the keyed span for ever, in both directions. */
  lemma CycleIsPeriodic(keys: seq<Key>, x: real)
    requires |keys| >= 2 && Span(keys) > 0.0
    ensures Value(keys, CYCLE, CYCLE, x + Span(keys)) == Value(keys, CYCLE, CYCLE, x)
  {
    hide Value, Within, Wrapped;
    OneFormula(keys, x);
    OneFormula(keys, x + Span(keys));
    OneSpanOn(keys, x);
  }

  lemma OneLapMore(v: real, k: int, rise: real)
    ensures v + (k + 1) as real * rise == v + k as real * rise + rise
  {
  }

  lemma RelativeFormula(keys: seq<Key>, x: real, v: real, k: int)
    requires |keys| >= 2 && Span(keys) > 0.0
    requires v == Within(keys, Wrapped(keys, x)) && k == Laps(x - Start(keys), Span(keys))
    ensures Value(keys, CYCLE_RELATIVE, CYCLE_RELATIVE, x) == v + k as real * Rise(keys)
  {
    hide Value, Within, Laps, Wrapped, Rise;
    OneFormula(keys, x);
  }

  /** CYCLE_RELATIVE does too, and rises by the keys' total rise each time. */
  lemma CycleRelativeRises(keys: seq<Key>, x: real)
    requires |keys| >= 2 && Span(keys) > 0.0
    ensures Value(keys, CYCLE_RELATIVE, CYCLE_RELATIVE, x + Span(keys))
         == Value(keys, CYCLE_RELATIVE, CYCLE_RELATIVE, x) + Rise(keys)
  {
    hide *;
    var v, k := Within(keys, Wrapped(keys, x)), Laps(x - Start(keys), Span(keys));
    OneSpanOn(keys, x);
    RelativeFormula(keys, x, v, k);
    RelativeFormula(keys, x + Span(keys), v, k + 1);
    OneLapMore(v, k, Rise(keys));
  }

  /** OSCILLATE goes to and fro: it repeats after two spans and is a mirror image
      of itself at either end. */
  lemma OscillateIsEvenAndPeriodic(keys: seq<Key>, x: real)
    requires |keys| >= 2 && Span(keys) > 0.0
    ensures Value(keys, OSCILLATE, OSCILLATE, x + 2.0 * Span(keys)) == Value(keys, OSCILLATE, OSCILLATE, x)
    ensures Value(keys, OSCILLATE, OSCILLATE, 2.0 * Start(keys) - x) == Value(keys, OSCILLATE, OSCILLATE, x)
    ensures Value(keys, OSCILLATE, OSCILLATE, 2.0 * End(keys) - x) == Value(keys, OSCILLATE, OSCILLATE, x)
  {
    hide Value, Within, Fold;
    OneFormula(keys, x);
    OneFormula(keys, x + 2.0 * Span(keys));
    OneFormula(keys, 2.0 * Start(keys) - x);
    OneFormula(keys, 2.0 * End(keys) - x);
    var u := x - Start(keys);
    FoldSymmetry(u, Span(keys));
    assert x + 2.0 * Span(keys) - Start(keys) == u + 2.0 * Span(keys);
    assert 2.0 * Start(keys) - x - Start(keys) == -u;
    assert 2.0 * End(keys) - x - Start(keys) == 2.0 * Span(keys) - u;
  }

  // ------------------------------------------------------------ bookkeeping of keys

  function StepCount(keys: seq<Key>): nat {
    if keys == [] then 0 else (if keys[0].Step? then 1 else 0) + StepCount(keys[1..])
  }

  lemma {:induction false} StepCountConcat(xs: seq<Key>, ys: seq<Key>)
    ensures StepCount(xs + ys) == StepCount(xs) + StepCount(ys)
  {
    if xs == [] {
      assert xs + ys == ys;
    } else {
      assert (xs + ys)[1..] == xs[1..] + ys;
      StepCountConcat(xs[1..], ys);
    }
  }

  /** Two keys at the same input with different outputs. */
  ghost predicate HasJump(keys: seq<Key>) {
    exists i, j :: 0 <= i < j < |keys| && keys[i].input == keys[j].input && keys[i].output != keys[j].output
  }

  ghost predicate HasAdjacentJump(keys: seq<Key>) {
    exists i :: 0 <= i < |keys| - 1 && JumpAt(keys, i)
  }

  predicate JumpAt(keys: seq<Key>, i: int) {
    0 <= i < |keys| - 1 && keys[i].input == keys[i + 1].input && keys[i].output != keys[i + 1].output
  }

  /** Looking at neighbours is enough once the keys are in order. */
  lemma JumpsAreAdjacent(keys: seq<Key>)
    requires SortedKeys(keys)
    ensures HasJump(keys) <==> HasAdjacentJump(keys)
  {
    if HasAdjacentJump(keys) {
      var i :| 0 <= i < |keys| - 1 && JumpAt(keys, i);
      assert keys[i].input == keys[i + 1].input && keys[i].output != keys[i + 1].output;
    }
    if HasJump(keys) {
      var i, j :| 0 <= i < j < |keys| && keys[i].input == keys[j].input && keys[i].output != keys[j].output;
      var _ := JumpBetween(keys, i, j);
    }
  }

  lemma {:induction false} JumpBetween(keys: seq<Key>, i: nat, j: nat) returns (k: nat)
    requires SortedKeys(keys) && i < j < |keys|
    requires keys[i].input == keys[j].input && keys[i].output != keys[j].output
    ensures JumpAt(keys, k)
    decreases j - i
  {
    assert keys[i].input <= keys[i + 1].input <= keys[j].input;
    if keys[i].output != keys[i + 1].output {
      k := i;
    } else {
      k := JumpBetween(keys, i + 1, j);
    }
  }

  /** Discontinuous: step keys mixed with others, or a jump. */
  ghost predicate Discontinuous(keys: seq<Key>) {
    (exists i, j :: 0 <= i < |keys| && 0 <= j < |keys| && keys[i].Step? && !keys[j].Step?) || HasJump(keys)
  }

  lemma {:induction false} StepCountExtremes(keys: seq<Key>)
    ensures StepCount(keys) <= |keys|
    ensures StepCount(keys) > 0 <==> exists i :: 0 <= i < |keys| && keys[i].Step?
    ensures StepCount(keys) < |keys| <==> exists i :: 0 <= i < |keys| && !keys[i].Step?
  {
    if keys != [] {
      StepCountExtremes(keys[1..]);
      assert forall i :: 0 < i < |keys| ==> keys[i] == keys[1..][i - 1];
      assert keys == [keys[0]] + keys[1..];
    }
  }

  // ----------------------------------------------------------------------- sorting

  /** Array.sort by input; equal inputs may come out in either order, here they
      keep theirs. */
  function SortKeys(keys: seq<Key>): seq<Key> {
    if keys == [] then [] else InsertKey(keys[0], SortKeys(keys[1..]))
  }

  function InsertKey(key: Key, keys: seq<Key>): seq<Key> {
    if keys == [] || key.input <= keys[0].input then [key] + keys
    else [keys[0]] + InsertKey(key, keys[1..])
  }

  predicate NoneBelow(x: real, keys: seq<Key>) { forall i :: 0 <= i < |keys| ==> x <= keys[i].input }

  lemma {:induction false} InsertKeyNoneBelow(key: Key, keys: seq<Key>, x: real)
    requires NoneBelow(x, keys) && x <= key.input
    ensures NoneBelow(x, InsertKey(key, keys))
  {
    if keys != [] && key.input > keys[0].input {
      InsertKeyNoneBelow(key, keys[1..], x);
    }
  }

  lemma PrependSorted(key: Key, keys: seq<Key>)
    requires SortedKeys(keys) && NoneBelow(key.input, keys)
    ensures SortedKeys([key] + keys)
  {
    var longer := [key] + keys;
    assert forall i :: 0 < i < |longer| ==> longer[i] == keys[i - 1];
  }

  lemma {:induction false} InsertKeySorts(key: Key, keys: seq<Key>)
    requires SortedKeys(keys)
    ensures SortedKeys(InsertKey(key, keys))
  {
    if keys == [] || key.input <= keys[0].input {
      PrependSorted(key, keys);
    } else {
      var rest := keys[1..];
      assert SortedKeys(rest) && NoneBelow(keys[0].input, rest);
      hide SortedKeys, NoneBelow;
      InsertKeySorts(key, rest);
      InsertKeyNoneBelow(key, rest, keys[0].input);
      PrependSorted(keys[0], InsertKey(key, rest));
    }
  }

  lemma {:induction false} InsertKeyKeeps(key: Key, keys: seq<Key>)
    ensures multiset(InsertKey(key, keys)) == multiset{key} + multiset(keys)
    ensures StepCount(InsertKey(key, keys)) == StepCount([key]) + StepCount(keys)
  {
    if keys == [] || key.input <= keys[0].input {
      StepCountConcat([key], keys);
    } else {
      InsertKeyKeeps(key, keys[1..]);
      StepCountConcat([keys[0]], InsertKey(key, keys[1..]));
      StepCountConcat([keys[0]], keys[1..]);
      assert keys == [keys[0]] + keys[1..];
    }
  }

  lemma {:induction false} SortKeysSorts(keys: seq<Key>)
    ensures SortedKeys(SortKeys(keys)) && multiset(SortKeys(keys)) == multiset(keys)
    ensures StepCount(SortKeys(keys)) == StepCount(keys) && |SortKeys(keys)| == |keys|
  {
    if keys != [] {
      SortKeysSorts(keys[1..]);
      InsertKeySorts(keys[0], SortKeys(keys[1..]));
      InsertKeyKeeps(keys[0], SortKeys(keys[1..]));
      hide InsertKey, SortedKeys;
      assert keys == [keys[0]] + keys[1..];
      StepCountConcat([keys[0]], keys[1..]);
      assert |multiset(SortKeys(keys))| == |multiset(keys)|;
    }
  }

  // ----------------------------------------------------------------------- the class

  function LinearKeys(values: seq<real>, n: nat): seq<Key>
    requires 2 * n <= |values|
  {
    seq(n, k requires 0 <= k < n => Linear(values[2 * k], values[2 * k + 1]))
  }

  function StepKeys(values: seq<real>, n: nat): seq<Key>
    requires 2 * n <= |values|
  {
    seq(n, k requires 0 <= k < n => Step(values[2 * k], values[2 * k + 1]))
  }

  function BezierKeys(values: seq<real>, n: nat): seq<Key>
    requires 6 * n <= |values|
  {
    seq(n, k requires 0 <= k < n => Bezier(values[6 * k], values[6 * k + 1], values[6 * k + 2],
                                           values[6 * k + 3], values[6 * k + 4], values[6 * k + 5]))
  }

  lemma PairsNext(values: seq<real>, n: nat)
    requires 2 * n + 2 <= |values|
    ensures LinearKeys(values, n + 1) == LinearKeys(values, n) + [Linear(values[2 * n], values[2 * n + 1])]
    ensures StepKeys(values, n + 1) == StepKeys(values, n) + [Step(values[2 * n], values[2 * n + 1])]
  {
  }

  lemma SixesNext(values: seq<real>, n: nat)
    requires 6 * n + 6 <= |values|
    ensures BezierKeys(values, n + 1) == BezierKeys(values, n) +
      [Bezier(values[6 * n], values[6 * n + 1], values[6 * n + 2], values[6 * n + 3], values[6 * n + 4],
              values[6 * n + 5])]
  {
  }

  lemma AppendMore(keys: seq<Key>, more: seq<Key>, key: Key)
    ensures keys + more + [key] == keys + (more + [key])
  {
  }

  lemma {:induction false} SameKindStepCount(keys: seq<Key>, step: bool)
    requires forall k :: 0 <= k < |keys| ==> keys[k].Step? == step
    ensures StepCount(keys) == if step then |keys| else 0
  {
    if keys != [] { SameKindStepCount(keys[1..], step); }
  }

  lemma LinearKeysCount(values: seq<real>, n: nat)
    requires 2 * n <= |values|
    ensures StepCount(LinearKeys(values, n)) == 0
  {
    SameKindStepCount(LinearKeys(values, n), false);
  }

  lemma StepKeysCount(values: seq<real>, n: nat)
    requires 2 * n <= |values|
    ensures StepCount(StepKeys(values, n)) == n
  {
    SameKindStepCount(StepKeys(values, n), true);
  }

  lemma BezierKeysCount(values: seq<real>, n: nat)
    requires 6 * n <= |values|
    ensures StepCount(BezierKeys(values, n)) == 0
  {
    SameKindStepCount(BezierKeys(values, n), false);
  }

  /** Without the key at `k`, the count of step keys drops by that key's. */
  lemma StepCountWithout(keys: seq<Key>, k: nat)
    requires k < |keys|
    ensures StepCount(keys) == StepCount(keys[..k] + keys[k + 1..]) + if keys[k].Step? then 1 else 0
  {
    var before, after, key := keys[..k], keys[k + 1..], keys[k];
    assert StepCount([key]) == if key.Step? then 1 else 0;
    hide StepCount;
    StepCountConcat(before + [key], after);
    StepCountConcat(before, [key]);
    StepCountConcat(before, after);
    assert keys == before + [key] + after;
  }

  /** The span that covers the input is the one the definition takes. */
  lemma CoveringSpan(keys: seq<Key>, x: real, i: int)
    requires SortedKeys(keys) && Inside(keys, x) && Covers(keys, x, i)
    ensures keys[i + 1].input - keys[i].input > 0.0
    ensures InSpan(keys, x) == keys[i].OutputAtOffset(x - keys[i].input, keys[i + 1])
  {
    CoverUnique(keys, x, i, Cover(keys, x));
  }

  /** No key lies above the new one, in a list in order. */
  predicate ComesLast(keys: seq<Key>, key: Key) { |keys| == 0 || keys[|keys| - 1].input <= key.input }

  lemma AppendKeepsOrder(keys: seq<Key>, key: Key)
    requires SortedKeys(keys)
    ensures SortedKeys(keys + [key]) <==> ComesLast(keys, key)
  {
    var longer := keys + [key];
    assert forall i :: 0 <= i < |keys| ==> longer[i] == keys[i];
    assert longer[|keys|] == key;
  }

  /** The new key makes a mix of step keys and others, or a jump. */
  predicate Clashes(keys: seq<Key>, key: Key) {
    exists i :: 0 <= i < |keys| &&
      (keys[i].Step? != key.Step? || (keys[i].input == key.input && keys[i].output != key.output))
  }

  lemma AppendDiscontinuous(keys: seq<Key>, key: Key)
    ensures Discontinuous(keys + [key]) <==> Discontinuous(keys) || Clashes(keys, key)
  {
    var longer, n := keys + [key], |keys|;
    assert longer[n] == key && forall i :: 0 <= i < n ==> longer[i] == keys[i];
    if Clashes(keys, key) {
      var i :| 0 <= i < n &&
        (keys[i].Step? != key.Step? || (keys[i].input == key.input && keys[i].output != key.output));
      assert longer[i] == keys[i];
    }
    if HasJump(keys) {
      var i, j :| 0 <= i < j < n && keys[i].input == keys[j].input && keys[i].output != keys[j].output;
      assert longer[i] == keys[i] && longer[j] == keys[j];
    }
  }

  lemma KeyCount(key: Key)
    ensures StepCount([key]) == if key.Step? then 1 else 0
  {
  }

  /** A new key below another leaves the list out of order, with the flag set. */
  lemma NewKeyOutOfOrder()
    ensures var keys := [Linear(1.0, 0.0)]; SortedKeys(keys) && !SortedKeys(keys + [Linear(0.0, 0.0)])
  {
    assert !ComesLast([Linear(1.0, 0.0)], Linear(0.0, 0.0));
    AppendKeepsOrder([Linear(1.0, 0.0)], Linear(0.0, 0.0));
  }

  /** A new key in order can make a jump that no flag announces. */
  lemma NewKeyMakesJump()
    ensures var keys, key := [Linear(-1.0, 0.0), Linear(0.0, 5.0)], Linear(0.0, 0.0);
      SortedKeys(keys + [key]) && !Discontinuous(keys) && Discontinuous(keys + [key])
  {
    var keys, key := [Linear(-1.0, 0.0), Linear(0.0, 5.0)], Linear(0.0, 0.0);
    assert keys[1].input == key.input && keys[1].output != key.output;
    assert Clashes(keys, key);
    AppendDiscontinuous(keys, key);
    AppendKeepsOrder(keys, key);
  }

  /** The new input keeps key `k` between its neighbours. */
  predicate StaysBetween(keys: seq<Key>, k: nat, x: real)
    requires k < |keys|
  {
    (k > 0 ==> keys[k - 1].input <= x) && (k + 1 < |keys| ==> x <= keys[k + 1].input)
  }

  lemma MoveKeepsOrder(keys: seq<Key>, k: nat, x: real)
    requires SortedKeys(keys) && k < |keys|
    ensures SortedKeys(keys[k := keys[k].(input := x)]) <==> StaysBetween(keys, k, x)
  {
    var moved := keys[k := keys[k].(input := x)];
    assert forall i :: 0 <= i < |keys| && i != k ==> moved[i] == keys[i];
    if SortedKeys(moved) {
      assert k > 0 ==> moved[k - 1].input <= moved[k].input;
      assert k + 1 < |keys| ==> moved[k].input <= moved[k + 1].input;
    }
  }

  /** A key moved past its neighbour leaves the list out of order, with the flag set. */
  lemma KeyMovedPast()
    ensures var keys := [Linear(0.0, 0.0), Linear(1.0, 0.0)];
      SortedKeys(keys) && !SortedKeys(keys[0 := keys[0].(input := 2.0)])
  {
    var keys := [Linear(0.0, 0.0), Linear(1.0, 0.0)];
    assert keys[1].input == 1.0 && !StaysBetween(keys, 0, 2.0);
    MoveKeepsOrder(keys, 0, 2.0);
  }

  lemma StepCountMoved(keys: seq<Key>, k: nat, x: real)
    requires k < |keys|
    ensures StepCount(keys[k := keys[k].(input := x)]) == StepCount(keys)
  {
    var moved := keys[k := keys[k].(input := x)];
    StepCountWithout(keys, k);
    StepCountWithout(moved, k);
    assert moved[..k] == keys[..k] && moved[k + 1..] == keys[k + 1..];
  }

  class Curve {
    var keys: seq<Key>
    var preInfinity: int
    var postInfinity: int
    var sorted: bool
    var checkDiscontinuity: bool
    var discontinuous: bool
    var numStepKeys: int
    var errors: nat  // calls of the client's error callback

    /** What every public operation keeps. */
    ghost predicate Valid()
      reads this
    {
      && numStepKeys == StepCount(keys)
      && (sorted ==> SortedKeys(keys))
      && (sorted && !checkDiscontinuity ==> (discontinuous <==> Discontinuous(keys)))
    }

    constructor ()
      ensures Valid() && keys == [] && preInfinity == postInfinity == CONSTANT && errors == 0
    {
      keys := [];
      preInfinity, postInfinity := CONSTANT, CONSTANT;
      sorted, checkDiscontinuity, discontinuous, numStepKeys, errors := true, false, false, 0, 0;
    }

    method InvalidateCache()
      modifies this`checkDiscontinuity
      ensures checkDiscontinuity
    {
      checkDiscontinuity := true;
    }

    /** Appends keys of one kind, as the three add methods do one by one. */
    method AddLinearKeys(values: seq<real>) returns (ok: bool)
      requires Valid()
      modifies this
      ensures Valid()
      ensures ok <==> |values| % 2 == 0
      ensures ok ==> keys == old(keys) + LinearKeys(values, |values| / 2) && errors == old(errors)
      ensures !ok ==> keys == old(keys) && errors == old(errors) + 1
      ensures preInfinity == old(preInfinity) && postInfinity == old(postInfinity)
    {
      if |values| % 2 != 0 {
        errors := errors + 1;
        return false;
      }
      var i := 0;
      ghost var n := 0;
      assert old(keys) + LinearKeys(values, 0) == old(keys);
      hide LinearKeys, StepCount;
      while i < |values|
        invariant i == 2 * n <= |values|
        invariant keys == old(keys) + LinearKeys(values, n)
        invariant numStepKeys == old(numStepKeys) && errors == old(errors)
        invariant preInfinity == old(preInfinity) && postInfinity == old(postInfinity)
      {
        PairsNext(values, n);
        AppendMore(old(keys), LinearKeys(values, n), Linear(values[i], values[i + 1]));
        keys := keys + [Linear(values[i], values[i + 1])];
        InvalidateCache();
        i, n := i + 2, n + 1;
      }
      sorted := false;
      LinearKeysCount(values, |values| / 2);
      StepCountConcat(old(keys), LinearKeys(values, |values| / 2));
      return true;
    }

    method AddStepKeys(values: seq<real>) returns (ok: bool)
      requires Valid()
      modifies this
      ensures Valid()
      ensures ok <==> |values| % 2 == 0
      ensures ok ==> keys == old(keys) + StepKeys(values, |values| / 2) && errors == old(errors)
      ensures !ok ==> keys == old(keys) && errors == old(errors) + 1
      ensures preInfinity == old(preInfinity) && postInfinity == old(postInfinity)
    {
      if |values| % 2 != 0 {
        errors := errors + 1;
        return false;
      }
      var i := 0;
      ghost var n := 0;
      assert old(keys) + StepKeys(values, 0) == old(keys);
      hide StepKeys, StepCount;
      while i < |values|
        invariant i == 2 * n <= |values|
        invariant keys == old(keys) + StepKeys(values, n)
        invariant numStepKeys == old(numStepKeys) + n && errors == old(errors)
        invariant preInfinity == old(preInfinity) && postInfinity == old(postInfinity)
      {
        PairsNext(values, n);
        AppendMore(old(keys), StepKeys(values, n), Step(values[i], values[i + 1]));
        keys := keys + [Step(values[i], values[i + 1])];
        numStepKeys := numStepKeys + 1;
        InvalidateCache();
        i, n := i + 2, n + 1;
      }
      sorted := false;
      StepKeysCount(values, |values| / 2);
      StepCountConcat(old(keys), StepKeys(values, |values| / 2));
      return true;
    }

    method AddBezierKeys(values: seq<real>) returns (ok: bool)
      requires Valid()
      modifies this
      ensures Valid()
      ensures ok <==> |values| % 6 == 0
      ensures ok ==> keys == old(keys) + BezierKeys(values, |values| / 6) && errors == old(errors)
      ensures !ok ==> keys == old(keys) && errors == old(errors) + 1
      ensures preInfinity == old(preInfinity) && postInfinity == old(postInfinity)
    {
      if |values| % 6 != 0 {
        errors := errors + 1;
        return false;
      }
      var i := 0;
      ghost var n := 0;
      assert old(keys) + BezierKeys(values, 0) == old(keys);
      hide BezierKeys, StepCount;
      while i < |values|
        invariant i == 6 * n <= |values|
        invariant keys == old(keys) + BezierKeys(values, n)
        invariant numStepKeys == old(numStepKeys) && errors == old(errors)
        invariant preInfinity == old(preInfinity) && postInfinity == old(postInfinity)
      {
        SixesNext(values, n);
        AppendMore(old(keys), BezierKeys(values, n),
                   Bezier(values[i], values[i + 1], values[i + 2], values[i + 3], values[i + 4], values[i + 5]));
        keys := keys + [Bezier(values[i], values[i + 1], values[i + 2], values[i + 3], values[i + 4], values[i + 5])];
        InvalidateCache();
        i, n := i + 6, n + 1;
      }
      sorted := false;
      BezierKeysCount(values, |values| / 6);
      StepCountConcat(old(keys), BezierKeys(values, |values| / 6));
      return true;
    }

    /** Appends a key as `new` leaves it, at input and output 0.  Neither the sorted flag nor
        the discontinuity flag is cleared, so the curve stays as it should be exactly if it
        was to be sorted anyway, or the key comes last and cannot make a jump or a mix of
        kinds that the flag does not know of. */
    method CreateKey(key: Key)
      requires Valid() && key.input == 0.0 && key.output == 0.0
      modifies this`keys, this`numStepKeys
      ensures keys == old(keys) + [key] && numStepKeys == StepCount(keys)
      ensures Valid()
         <==> !sorted
              || (ComesLast(old(keys), key) && (checkDiscontinuity || discontinuous || !Clashes(old(keys), key)))
    {
      hide StepCount, Discontinuous, Clashes, ComesLast;
      KeyCount(key);
      StepCountConcat(keys, [key]);
      if sorted {
        AppendKeepsOrder(keys, key);
        AppendDiscontinuous(keys, key);
      }
      keys := keys + [key];
      if key.Step? {
        numStepKeys := numStepKeys + 1;
      }
    }

    /** The `input` setter of key `k`.  It invalidates the cache but not the sorted flag, so a
        sorted curve stays as it should be exactly if the key stays between its neighbours. */
    method SetInput(k: nat, newInput: real)
      requires Valid() && k < |keys|
      modifies this`keys, this`checkDiscontinuity
      ensures keys == old(keys)[k := old(keys)[k].(input := newInput)]
      ensures Valid() <==> !sorted || StaysBetween(old(keys), k, newInput)
    {
      if newInput != keys[k].input {
        hide StepCount, Discontinuous;
        StepCountMoved(keys, k, newInput);
        if sorted {
          MoveKeepsOrder(keys, k, newInput);
        }
        keys := keys[k := keys[k].(input := newInput)];
        InvalidateCache();
      } else {
        assert keys == keys[k := keys[k].(input := newInput)];
      }
    }

    /** Destroys the key at `k`. */
    method DestroyKey(k: nat)
      requires Valid() && k < |keys|
      modifies this`keys, this`checkDiscontinuity, this`numStepKeys
      ensures Valid()
      ensures keys == old(keys)[..k] + old(keys)[k + 1..]
    {
      var key := keys[k];
      StepCountWithout(keys, k);
      keys := keys[..k] + keys[k + 1..];
      InvalidateCache();
      if key.Step? {
        numStepKeys := numStepKeys - 1;
      }
    }

    method UpdateCurveInfo()
      requires Valid()
      modifies this`keys, this`sorted, this`checkDiscontinuity, this`discontinuous
      ensures Valid() && sorted && !checkDiscontinuity
      ensures multiset(keys) == multiset(old(keys)) && |keys| == |old(keys)|
      ensures old(sorted) ==> keys == old(keys)
    {
      hide Discontinuous, StepCount, SortKeys;
      if !sorted {
        SortKeysSorts(keys);
        keys := SortKeys(keys);
        sorted := true;
        InvalidateCache();
      }
      if checkDiscontinuity {
        checkDiscontinuity := false;
        FindDiscontinuity();
      }
    }

    /** Marks the curve as discontinuous if step keys are mixed with others, or if
        two neighbours share their input but not their output. */
    method FindDiscontinuity()
      requires SortedKeys(keys) && numStepKeys == StepCount(keys)
      modifies this`discontinuous
      ensures discontinuous <==> Discontinuous(keys)
    {
      var keysSize := |keys|;
      discontinuous := numStepKeys > 0 && numStepKeys != keysSize;
      StepCountExtremes(keys);
      JumpsAreAdjacent(keys);
      hide HasJump, StepCount;
      if !discontinuous && keysSize > 1 {
        var i := 0;
        while i < keysSize - 1
          invariant 0 <= i <= keysSize - 1 && !discontinuous
          invariant forall k :: 0 <= k < i ==> !JumpAt(keys, k)
        {
          if keys[i].input == keys[i + 1].input && keys[i].output != keys[i + 1].output {
            discontinuous := true;
            assert JumpAt(keys, i);
            break;
          }
          i := i + 1;
        }
      }
    }

    method IsDiscontinuous() returns (r: bool)
      requires Valid()
      modifies this`keys, this`sorted, this`checkDiscontinuity, this`discontinuous
      ensures Valid() && multiset(keys) == multiset(old(keys))
      ensures r <==> Discontinuous(keys)
    {
      UpdateCurveInfo();
      r := discontinuous;
    }

    /** The lookup: from the context's remembered key if that still helps, else from scratch. */
    method GetOutputInSpan(input: real, context: EvalContext?) returns (r: real)
      requires |keys| > 0 && SortedKeys(keys)
      requires context != null ==> context.lastKeyIndex >= -1
      modifies this`errors, context
      ensures context != null ==> context.lastKeyIndex >= -1
      ensures input < keys[0].input ==> r == 0.0 && errors == old(errors) + 1
      ensures input >= keys[0].input ==> errors == old(errors)
      ensures input >= keys[|keys| - 1].input >= keys[0].input ==> r == keys[|keys| - 1].output
      ensures Inside(keys, input) ==> r == InSpan(keys, input)
      ensures Inside(keys, input) && context != null ==> Covers(keys, input, context.lastKeyIndex)
    {
      hide Key.OutputAtOffset;
      var keysSize := |keys|;
      if input < keys[0].input {
        errors := errors + 1;
        return 0.0;
      }
      if input >= keys[keysSize - 1].input {
        return keys[keysSize - 1].output;
      }
      var found, keyIndex := false, 0;
      if context != null {
        found, keyIndex := SearchNearby(keys, input, context.lastKeyIndex);
      }
      if !found {
        keyIndex := SearchAll(keys, input);
      }
      var key := keys[keyIndex];
      if context != null {
        context.lastKeyIndex := keyIndex;
      }
      if keyIndex + 1 >= keysSize {
        assert false;
      } else {
        CoveringSpan(keys, input, keyIndex);
        hide SortedKeys, InSpan;
        r := key.OutputAtOffset(input - key.input, keys[keyIndex + 1]);
      }
    }

    /** LINEAR before the first key. */
    method LineBefore(preInfinityOffset: real) returns (r: real)
      requires Ready(keys)
      ensures r == OnLine(keys[0], keys[1], Start(keys) - preInfinityOffset)
    {
      var startOutput := keys[0].output;
      var secondKey := keys[1];
      var inputDelta := secondKey.input - keys[0].input;
      if inputDelta > EPSILON {
        r := startOutput - preInfinityOffset * (secondKey.output - startOutput) / inputDelta;
        SameLine(preInfinityOffset, secondKey.output - startOutput, inputDelta,
                 -preInfinityOffset, secondKey.output - startOutput, inputDelta);
      } else {
        r := startOutput;
      }
    }

    /** LINEAR after the last key. */
    method LineAfter(postInfinityOffset: real) returns (r: real)
      requires Ready(keys)
      ensures r == OnLine(keys[|keys| - 1], keys[|keys| - 2], End(keys) + postInfinityOffset)
    {
      var endOutput := keys[|keys| - 1].output;
      var nextToLastKey := keys[|keys| - 2];
      var inputDelta := keys[|keys| - 1].input - nextToLastKey.input;
      if inputDelta > EPSILON {
        r := endOutput + postInfinityOffset * (endOutput - nextToLastKey.output) / inputDelta;
        SameLine(postInfinityOffset, endOutput - nextToLastKey.output, inputDelta,
                 postInfinityOffset, nextToLastKey.output - endOutput, -inputDelta);
      } else {
        r := endOutput;
      }
    }

    /** Where an input before the first key takes its value from: an answer of its
        own, or a point in the span and an offset. */
    method FoldBefore(input: real) returns (answer: Option<real>, x: real, outputOffset: real)
      requires Ready(keys) && input < Start(keys)
      modifies this`errors
      ensures answer.Some? ==> answer.value == Before(keys, preInfinity, input)
      ensures answer.None? ==> Start(keys) <= x <= End(keys)
      ensures answer.None? ==> Within(keys, x) + outputOffset == Before(keys, preInfinity, input)
      ensures CONSTANT <= preInfinity <= OSCILLATE ==> errors == old(errors)
    {
      hide Mod, Laps, Within, Fold, Rem, OnLine;
      x := input;
      var startInput, endInput := keys[0].input, keys[|keys| - 1].input;
      var inputSpan := endInput - startInput;
      var startOutput := keys[0].output;
      var outputDelta := keys[|keys| - 1].output - startOutput;
      outputOffset := 0.0;
      answer := None;
      if inputSpan <= 0.0 {
        answer := Some(startOutput);
        return;
      }
      var preInfinityOffset := startInput - x;
      if preInfinity == CONSTANT {
        answer := Some(startOutput);
      } else if preInfinity == LINEAR {
        var line := LineBefore(preInfinityOffset);
        answer := Some(line);
      } else if preInfinity == CYCLE {
        var cycleCount := Ceil(preInfinityOffset / inputSpan);
        x := x + cycleCount as real * inputSpan;
        WrapUp(input - startInput, inputSpan, cycleCount, x - startInput);
        x := startInput + Rem(x - startInput, inputSpan);
      } else if preInfinity == CYCLE_RELATIVE {
        var cycleCount := Ceil(preInfinityOffset / inputSpan);
        x := x + cycleCount as real * inputSpan;
        WrapUp(input - startInput, inputSpan, cycleCount, x - startInput);
        x := startInput + Rem(x - startInput, inputSpan);
        Negate(cycleCount, outputDelta);
        outputOffset := outputOffset - cycleCount as real * outputDelta;
      } else if preInfinity == OSCILLATE {
        var cycleCount := Ceil(preInfinityOffset / (2.0 * inputSpan));
        x := x + cycleCount as real * 2.0 * inputSpan;
        FoldUp(input - startInput, inputSpan, cycleCount, x - startInput);
        x := endInput - Abs(x - endInput);
      } else {
        errors := errors + 1;
        answer := Some(startOutput);
      }
    }

    /** The same for an input at or after the last key. */
    method FoldAfter(input: real) returns (answer: Option<real>, x: real, outputOffset: real)
      requires Ready(keys) && input >= End(keys)
      modifies this`errors
      ensures answer.Some? ==> answer.value == After(keys, postInfinity, input)
      ensures answer.None? ==> Start(keys) <= x <= End(keys)
      ensures answer.None? ==> Within(keys, x) + outputOffset == After(keys, postInfinity, input)
      ensures CONSTANT <= postInfinity <= OSCILLATE ==> errors == old(errors)
    {
      hide Mod, Laps, Within, Fold, Rem, OnLine;
      x := input;
      var startInput, endInput := keys[0].input, keys[|keys| - 1].input;
      var inputSpan := endInput - startInput;
      var endOutput := keys[|keys| - 1].output;
      var outputDelta := endOutput - keys[0].output;
      outputOffset := 0.0;
      answer := None;
      if inputSpan <= 0.0 {
        answer := Some(endOutput);
        return;
      }
      var postInfinityOffset := x - endInput;
      if postInfinity == CONSTANT {
        answer := Some(endOutput);
      } else if postInfinity == LINEAR {
        var line := LineAfter(postInfinityOffset);
        answer := Some(line);
      } else if postInfinity == CYCLE {
        var cycleCount := Ceil(postInfinityOffset / inputSpan);
        x := x - cycleCount as real * inputSpan;
        WrapDown(input - startInput, inputSpan, cycleCount, x - startInput);
        x := startInput + Rem(x - startInput, inputSpan);
      } else if postInfinity == CYCLE_RELATIVE {
        var cycleCount := ((x - startInput) / inputSpan).Floor;
        x := x - cycleCount as real * inputSpan;
        WrapFloor(input - startInput, inputSpan, cycleCount, x - startInput);
        x := startInput + Rem(x - startInput, inputSpan);
        outputOffset := outputOffset + cycleCount as real * outputDelta;
      } else if postInfinity == OSCILLATE {
        var cycleCount := Ceil(postInfinityOffset / (2.0 * inputSpan));
        x := x - cycleCount as real * 2.0 * inputSpan;
        FoldDown(input - startInput, inputSpan, cycleCount, x - startInput);
        x := startInput + Abs(x - startInput);
      } else {
        errors := errors + 1;
        answer := Some(endOutput);
      }
    }

    method Evaluate(input: real, context: EvalContext?) returns (r: real)
      requires Valid()
      requires context != null ==> context.lastKeyIndex >= -1
      modifies this`keys, this`sorted, this`checkDiscontinuity, this`discontinuous, this`errors, context
      ensures Valid() && multiset(keys) == multiset(old(keys)) && |keys| == |old(keys)|
      ensures context != null ==> context.lastKeyIndex >= -1
      ensures |keys| == 0 ==> r == 0.0
      ensures |keys| == 1 ==> r == keys[0].output
      ensures |keys| >= 2 ==> SortedKeys(keys) && r == Value(keys, preInfinity, postInfinity, input)
      ensures CONSTANT <= preInfinity <= OSCILLATE && CONSTANT <= postInfinity <= OSCILLATE ==> errors == old(errors)
    {
      hide Before, After, InSpan, Discontinuous, StepCount;
      if |keys| == 0 {
        return 0.0;
      }
      if |keys| == 1 {
        return keys[0].output;
      }
      UpdateCurveInfo();
      var startInput := keys[0].input;
      var endInput := keys[|keys| - 1].input;
      var endOutput := keys[|keys| - 1].output;
      var x, outputOffset := input, 0.0;
      if input < startInput {
        var answer;
        answer, x, outputOffset := FoldBefore(input);
        if answer.Some? {
          return answer.value;
        }
      } else if input >= endInput {
        var answer;
        answer, x, outputOffset := FoldAfter(input);
        if answer.Some? {
          return answer.value;
        }
      }
      if x >= endInput {
        return endOutput + outputOffset;
      }
      r := GetOutputInSpan(x, context);
      r := r + outputOffset;
    }
  }

  // ------------------------------------------- the code's arithmetic, case by case

  /** The same point on a line, measured from either side. */
  lemma SameLine(offset: real, rise: real, run: real, offset': real, rise': real, run': real)
    requires run > 0.0
    requires || (offset' == -offset && rise' == rise && run' == run)
             || (offset' == offset && rise' == -rise && run' == -run)
    ensures offset' * (rise' / run') == if offset' == offset then offset * rise / run else -(offset * rise / run)
  {
    var q := rise / run;
    assert offset * rise == (offset * q) * run;
    assert rise' / run' == q;
  }
}
