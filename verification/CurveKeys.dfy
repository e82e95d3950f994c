/** Curve keys, the Bezier root finder, and the value of a curve between its keys. */
module CurveKeys {
  import opened RealMath

  datatype Key =
    | Step(input: real, output: real)
    | Linear(input: real, output: real)
    | Bezier(input: real, output: real, inTangentX: real, inTangentY: real, outTangentX: real, outTangentY: real)
  {
    /** The value `offset` past this key, on the way to the next one. */
    function OutputAtOffset(offset: real, next: Key): real
      requires input < next.input
    {
      var inputSpan := next.input - input;
      var outputSpan := next.output - output;
      match this
      case Step(_, _) => output
      case Linear(_, _) => output + offset / inputSpan * outputSpan
      case Bezier(_, _, _, _, outX, outY) =>
        var inX := if next.Bezier? then next.inTangentX else next.input - inputSpan / 3.0;
        var inY := if next.Bezier? then next.inTangentY else next.output - outputSpan / 3.0;
        var t := FindT(Controls(input, outX, inX, next.input), input + offset, offset / inputSpan);
        Controls(output, outY, inY, next.output).At(t)
    }
  }

  // ------------------------------------------------------------- Bezier bisection

  const TOLERANCE := 0.001

  datatype Controls = Controls(c0: real, c1: real, c2: real, c3: real) {
    function At(t: real): real {
      var ti := 1.0 - t;
      c0 * ti * ti * ti + 3.0 * c1 * t * ti * ti + 3.0 * c2 * t * t * ti + c3 * t * t * t
    }
  }

  function ClampGuess(guess: real): real {
    if guess <= 0.1 then 0.1 else if guess >= 0.9 then 0.9 else guess
  }

  function FindT(c: Controls, input: real, guess: real): real {
    Bisect(c, input, 0.0, 1.0, ClampGuess(guess))
  }

  /** Looks at `mid`, then goes on in the half that holds the root. */
  function Bisect(c: Controls, input: real, low: real, high: real, mid: real): real
    requires high - low > TOLERANCE
    requires low + (high - low) / 10.0 <= mid <= high - (high - low) / 10.0
    decreases (10000.0 * (high - low)).Floor
  {
    if Abs(c.At(mid) - input) <= TOLERANCE then mid
    else
      var low', high' := if c.At(mid) > input then low else mid, if c.At(mid) > input then mid else high;
      if high' - low' > TOLERANCE then Bisect(c, input, low', high', (high' - low') / 2.0 + low')
      else mid
  }

  /** The bracket's width after `n` looks. */
  function Width(n: nat): real {
    if n == 0 then 1.0 else if n == 1 then 0.9 else Width(n - 1) / 2.0
  }

  /** `t` is as good as an answer gets: the curve is within tolerance there, or `t`
      bounds an interval no wider than the tolerance across which the curve
      passes the input. */
  ghost predicate GoodRoot(c: Controls, input: real, t: real) {
    || Abs(c.At(t) - input) <= TOLERANCE
    || exists low, high :: Brackets(c, input, low, high) && high - low <= TOLERANCE && (t == low || t == high)
  }

  ghost predicate Brackets(c: Controls, input: real, low: real, high: real) {
    0.0 <= low <= high <= 1.0 && c.At(low) <= input < c.At(high)
  }

  lemma {:induction false} BisectFindsRoot(c: Controls, input: real, low: real, high: real, mid: real)
    requires high - low > TOLERANCE
    requires low + (high - low) / 10.0 <= mid <= high - (high - low) / 10.0
    requires Brackets(c, input, low, high)
    ensures GoodRoot(c, input, Bisect(c, input, low, high, mid))
    decreases (10000.0 * (high - low)).Floor
  {
    if Abs(c.At(mid) - input) > TOLERANCE {
      var low', high' := if c.At(mid) > input then low else mid, if c.At(mid) > input then mid else high;
      assert Brackets(c, input, low', high');
      if high' - low' > TOLERANCE {
        BisectFindsRoot(c, input, low', high', (high' - low') / 2.0 + low');
      }
    }
  }

  /** For an input between the outer control points the answer is good. */
  lemma FindTIsGood(c: Controls, input: real, guess: real)
    requires c.c0 <= input < c.c3
    ensures GoodRoot(c, input, FindT(c, input, guess))
  {
    assert c.At(0.0) == c.c0 && c.At(1.0) == c.c3;
    BisectFindsRoot(c, input, 0.0, 1.0, ClampGuess(guess));
  }

  lemma WidthAfterEleven()
    ensures Width(11) <= TOLERANCE
  {
    assert Width(2) == 0.45 && Width(3) == 0.225 && Width(4) == 0.1125 && Width(5) == 0.05625;
    assert Width(6) == 0.028125 && Width(7) == 0.0140625 && Width(8) == 0.00703125;
    assert Width(9) == 0.003515625 && Width(10) == 0.0017578125;
  }

  /** The code's loop: eleven looks at the most. */
  method FindTLoop(c: Controls, input: real, guess: real) returns (midT: real, ghost looks: nat)
    ensures midT == FindT(c, input, guess)
    ensures 0.0 < midT < 1.0
    ensures 1 <= looks <= 11
  {
    hide Controls.At;
    var highT := 1.0;
    var lowT := 0.0;
    if guess <= 0.1 {
      midT := 0.1;
    } else if guess >= 0.9 {
      midT := 0.9;
    } else {
      midT := guess;
    }
    var once := true;
    looks := 0;
    ghost var settled := false;
    WidthAfterEleven();
    while highT - lowT > TOLERANCE
      invariant 0.0 <= lowT < highT <= 1.0 && lowT <= midT <= highT && 0.0 < midT < 1.0
      invariant highT - lowT <= Width(looks) && looks <= 11
      invariant once <==> looks == 0
      invariant once ==> lowT == 0.0 && highT == 1.0 && midT == ClampGuess(guess)
      invariant FindT(c, input, guess) ==
        if highT - lowT > TOLERANCE then
          Bisect(c, input, lowT, highT, if once then midT else (highT - lowT) / 2.0 + lowT)
        else midT
      decreases 11 - looks
    {
      if once {
        once := false;
      } else {
        midT := (highT - lowT) / 2.0 + lowT;
      }
      looks := looks + 1;
      var time := c.At(midT);
      if Abs(time - input) <= TOLERANCE {
        break;
      }
      if time > input {
        highT := midT;
      } else {
        lowT := midT;
      }
    }
  }

  // ------------------------------------------------------------- between the keys

  ghost predicate SortedKeys(keys: seq<Key>) {
    forall i, j :: 0 <= i < j < |keys| ==> keys[i].input <= keys[j].input
  }

  /** `i` is the last key not past `x`. */
  predicate Covers(keys: seq<Key>, x: real, i: int) {
    0 <= i < |keys| - 1 && keys[i].input <= x < keys[i + 1].input
  }

  lemma CoverUnique(keys: seq<Key>, x: real, i: int, j: int)
    requires SortedKeys(keys) && Covers(keys, x, i) && Covers(keys, x, j)
    ensures i == j
  {
  }

  ghost predicate Inside(keys: seq<Key>, x: real) {
    |keys| > 0 && keys[0].input <= x < keys[|keys| - 1].input
  }

  /** A fresh search, from the left. */
  function CoverFrom(keys: seq<Key>, x: real, i: nat): (r: nat)
    requires i < |keys| && keys[i].input <= x < keys[|keys| - 1].input
    ensures Covers(keys, x, r)
    decreases |keys| - i
  {
    if keys[i + 1].input > x then i else CoverFrom(keys, x, i + 1)
  }

  function Cover(keys: seq<Key>, x: real): (r: nat)
    requires Inside(keys, x)
    ensures Covers(keys, x, r)
  {
    CoverFrom(keys, x, 0)
  }

  /** The curve between its first and last key. */
  function InSpan(keys: seq<Key>, x: real): real
    requires Inside(keys, x)
  {
    var i := Cover(keys, x);
    keys[i].OutputAtOffset(x - keys[i].input, keys[i + 1])
  }

  /** What the caller's context remembers between evaluations. */
  class EvalContext {
    var lastKeyIndex: int  // -1 until the first lookup

    constructor ()
      ensures lastKeyIndex == -1
    {
      lastKeyIndex := -1;
    }
  }

  /** Three keys on or back from a remembered index, whatever it is worth now. */
  method SearchNearby(keys: seq<Key>, input: real, lastKeyIndex: int) returns (found: bool, keyIndex: int)
    requires SortedKeys(keys) && Inside(keys, input) && lastKeyIndex >= -1
    ensures found ==> Covers(keys, input, keyIndex)
  {
    found, keyIndex := false, lastKeyIndex;
    var end := |keys|;
    if keyIndex >= 0 && keyIndex < end - 1 {
      if keys[keyIndex].input <= input && keys[keyIndex + 1].input > input {
        found := true;
      } else {
        if input > keys[keyIndex].input {
          var checkEnd := keyIndex + 3;
          if checkEnd > end {
            checkEnd := end;
          }
          keyIndex := keyIndex + 1;
          while keyIndex < checkEnd
            invariant 0 <= keyIndex <= checkEnd <= end && !found
          {
            if keys[keyIndex].input <= input && keys[keyIndex + 1].input > input {
              found := true;
              break;
            }
            keyIndex := keyIndex + 1;
          }
        } else if keyIndex > 0 {
          var checkEnd := keyIndex - 3;
          if checkEnd < 0 {
            checkEnd := 0;
          }
          keyIndex := keyIndex - 1;
          while keyIndex >= checkEnd
            invariant 0 <= checkEnd && -1 <= keyIndex < end - 1 && !found
          {
            if keys[keyIndex].input <= input && keys[keyIndex + 1].input > input {
              found := true;
              break;
            }
            keyIndex := keyIndex - 1;
          }
        }
      }
    }
  }

  /** Binary search, then forward to the first key past the input. */
  method SearchAll(keys: seq<Key>, input: real) returns (keyIndex: int)
    requires SortedKeys(keys) && Inside(keys, input)
    ensures Covers(keys, input, keyIndex)
  {
    var start := 0;
    var end := |keys|;
    while start <= end
      invariant 0 <= start < |keys| && start - 1 <= end <= |keys|
      invariant forall i :: 0 <= i < start ==> keys[i].input < input
      decreases end - start
    {
      var mid := (start + end) / 2;
      if input > keys[mid].input {
        start := mid + 1;
      } else {
        if mid == 0 {
          break;
        }
        end := mid - 1;
      }
    }
    end := |keys|;
    while start < end
      invariant 0 <= start < |keys|
      invariant forall i :: 0 <= i < start ==> keys[i].input <= input
    {
      if keys[start].input > input {
        break;
      }
      start := start + 1;
    }
    if start <= 0 || start >= end {
      assert false;
    }
    keyIndex := start - 1;
  }
}
