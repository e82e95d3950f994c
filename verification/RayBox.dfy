/** Whether and where a ray enters a box. */
module RayBoxes {
  import opened RealMath
  import opened Geometry

  datatype RayIntersection = RayIntersection(
    valid: bool, intersected: bool, inside: bool, position: Vec3, primitiveIndex: int)

  const NO_INTERSECTION := RayIntersection(false, false, false, Vec3(0.0, 0.0, 0.0), -1)

  // ------------------------------------------------------------------- one axis

  /** One coordinate of the ray, `s` at time 0 and moving at speed `d`, is in `[lo, hi]`. */
  predicate AxisIn(lo: real, hi: real, s: real, d: real, t: real) { Slab(lo, hi, s, Times(t, d)) }

  predicate Slab(lo: real, hi: real, s: real, travelled: real) { lo <= s + travelled <= hi }

  predicate AxisOutside(lo: real, hi: real, s: real) { s < lo || s > hi }

  /** The side of the slab the ray has to come through. */
  function Plane(lo: real, hi: real, s: real): real { if s < lo then lo else hi }

  /** When it gets there; -1 if it need not or cannot. */
  function EntryTime(lo: real, hi: real, s: real, d: real): real {
    if AxisOutside(lo, hi, s) && d != 0.0 then (Plane(lo, hi, s) - s) / d else -1.0
  }

  /** From outside, the coordinate is in its slab no earlier than the entry time,
      and never if that is negative. */
  lemma NotBeforeEntry(lo: real, hi: real, s: real, d: real, t: real)
    requires AxisOutside(lo, hi, s) && t >= 0.0 && AxisIn(lo, hi, s, d, t)
    ensures 0.0 <= EntryTime(lo, hi, s, d) <= t
  {
    var gap := Plane(lo, hi, s) - s;
    if d == 0.0 {
      assert false;
    } else if d > 0.0 {
      Advances(d, t);
      QuotientBounds(gap, d, t);
      QuotientBounds(gap, d, 0.0);
    } else {
      Advances(-d, t);
      assert t * d == -(t * (-d));
      QuotientBounds(-gap, -d, t);
      QuotientBounds(-gap, -d, 0.0);
      NegatedQuotient(gap, d);
    }
  }

  lemma Advances(d: real, t: real)
    requires d > 0.0 && t >= 0.0
    ensures t * d >= 0.0
  {
  }

  lemma NegatedQuotient(n: real, d: real)
    requires d != 0.0
    ensures (-n) / (-d) == n / d
  {
    var q := n / d;
    assert q * d == n;
    assert q * (-d) == -n;
  }

  lemma OnPlaneAtEntry(lo: real, hi: real, s: real, d: real)
    requires AxisOutside(lo, hi, s) && d != 0.0
    ensures s + EntryTime(lo, hi, s, d) * d == Plane(lo, hi, s)
    ensures lo <= hi ==> AxisIn(lo, hi, s, d, EntryTime(lo, hi, s, d))
  {
    var q := (Plane(lo, hi, s) - s) / d;
    assert q * d == Plane(lo, hi, s) - s;
  }

  /** In at two times, in between. */
  lemma AxisConvex(lo: real, hi: real, s: real, d: real, t1: real, t: real, t2: real)
    requires t1 <= t <= t2 && AxisIn(lo, hi, s, d, t1) && AxisIn(lo, hi, s, d, t2)
    ensures AxisIn(lo, hi, s, d, t)
  {
    hide Slab, Times;
    if d >= 0.0 {
      Steeper(d, t1, t);
      Steeper(d, t, t2);
    } else {
      Steeper(d, t, t1);
      Steeper(d, t2, t);
    }
    SlabBetween(lo, hi, s, Times(t1, d), Times(t, d), Times(t2, d));
  }

  lemma SlabBetween(lo: real, hi: real, s: real, a: real, x: real, b: real)
    requires Slab(lo, hi, s, a) && Slab(lo, hi, s, b) && (a <= x <= b || b <= x <= a)
    ensures Slab(lo, hi, s, x)
  {
  }

  // ------------------------------------------------------------------- three axes

  ghost predicate HitsAt(b: Box, start: Vec3, end: Vec3, t: real) { t >= 0.0 && b.Contains(Along(start, end, t)) }

  ghost predicate FirstHit(b: Box, start: Vec3, end: Vec3, t: real) {
    HitsAt(b, start, end, t) && forall u :: HitsAt(b, start, end, u) ==> t <= u
  }

  ghost predicate InAt(b: Box, start: Vec3, end: Vec3, i: int, t: real)
    requires 0 <= i < 3
  {
    b.minExtent.At(i) <= AlongAxis(start, end, t, i) <= b.maxExtent.At(i)
  }

  ghost predicate OutsideOn(b: Box, start: Vec3, i: int)
    requires 0 <= i < 3
  {
    AxisOutside(b.minExtent.At(i), b.maxExtent.At(i), start.At(i))
  }

  function EntryOn(b: Box, start: Vec3, end: Vec3, i: int): real
    requires 0 <= i < 3
  {
    EntryTime(b.minExtent.At(i), b.maxExtent.At(i), start.At(i), end.At(i) - start.At(i))
  }

  lemma SameAxis(b: Box, start: Vec3, end: Vec3, i: int, t: real)
    requires 0 <= i < 3
    ensures InAt(b, start, end, i, t)
         <==> AxisIn(b.minExtent.At(i), b.maxExtent.At(i), start.At(i), end.At(i) - start.At(i), t)
  {
  }

  lemma HitIsOnAllAxes(b: Box, start: Vec3, end: Vec3, t: real)
    ensures HitsAt(b, start, end, t)
         <==> t >= 0.0 && InAt(b, start, end, 0, t) && InAt(b, start, end, 1, t) && InAt(b, start, end, 2, t)
  {
    hide AlongAxis;
    assert b.Contains(Along(start, end, t))
        <==> InAt(b, start, end, 0, t) && InAt(b, start, end, 1, t) && InAt(b, start, end, 2, t);
  }

  lemma EntryLeast(b: Box, start: Vec3, end: Vec3, i: int, u: real)
    requires 0 <= i < 3 && OutsideOn(b, start, i) && HitsAt(b, start, end, u)
    ensures 0.0 <= EntryOn(b, start, end, i) <= u
  {
    hide AxisIn, AlongAxis, EntryTime;
    HitIsOnAllAxes(b, start, end, u);
    SameAxis(b, start, end, i, u);
    NotBeforeEntry(b.minExtent.At(i), b.maxExtent.At(i), start.At(i), end.At(i) - start.At(i), u);
  }

  /** Past every entry time and not past a hit, each coordinate is in its slab. */
  lemma InBetween(b: Box, start: Vec3, end: Vec3, i: int, t: real, u: real)
    requires 0 <= i < 3 && b.Ordered() && HitsAt(b, start, end, u) && 0.0 <= t <= u && EntryOn(b, start, end, i) <= t
    ensures InAt(b, start, end, i, t)
  {
    hide AxisIn, AlongAxis, EntryTime;
    var lo, hi, s, d := b.minExtent.At(i), b.maxExtent.At(i), start.At(i), end.At(i) - start.At(i);
    HitIsOnAllAxes(b, start, end, u);
    SameAxis(b, start, end, i, t);
    SameAxis(b, start, end, i, u);
    if OutsideOn(b, start, i) {
      EntryLeast(b, start, end, i, u);
      EntryNeedsSpeed(lo, hi, s, d);
      OnPlaneAtEntry(lo, hi, s, d);
      AxisConvex(lo, hi, s, d, EntryOn(b, start, end, i), t, u);
    } else {
      InAtZero(lo, hi, s, d);
      AxisConvex(lo, hi, s, d, 0.0, t, u);
    }
  }

  lemma EntryNeedsSpeed(lo: real, hi: real, s: real, d: real)
    requires EntryTime(lo, hi, s, d) >= 0.0
    ensures d != 0.0 && AxisOutside(lo, hi, s)
  {
  }

  lemma InAtZero(lo: real, hi: real, s: real, d: real)
    requires !AxisOutside(lo, hi, s)
    ensures AxisIn(lo, hi, s, d, 0.0)
  {
  }

  const RIGHT := 0
  const LEFT := 1
  const MIDDLE := 2

  /** `axis` is where the ray enters last. */
  ghost predicate LastEntry(b: Box, start: Vec3, end: Vec3, axis: int) {
    0 <= axis < 3 && forall i :: 0 <= i < 3 ==> EntryOn(b, start, end, i) <= EntryOn(b, start, end, axis)
  }

  lemma NoHitIfEntryIsPast(b: Box, start: Vec3, end: Vec3, axis: int)
    requires LastEntry(b, start, end, axis) && EntryOn(b, start, end, axis) < 0.0
    requires exists i :: 0 <= i < 3 && OutsideOn(b, start, i)
    ensures forall u :: !HitsAt(b, start, end, u)
  {
    var i :| 0 <= i < 3 && OutsideOn(b, start, i);
    forall u ensures !HitsAt(b, start, end, u) {
      if HitsAt(b, start, end, u) {
        EntryLeast(b, start, end, i, u);
      }
    }
  }

  lemma NoHitIfOutAtEntry(b: Box, start: Vec3, end: Vec3, axis: int, i: int)
    requires b.Ordered() && LastEntry(b, start, end, axis) && EntryOn(b, start, end, axis) >= 0.0
    requires 0 <= i < 3 && !InAt(b, start, end, i, EntryOn(b, start, end, axis))
    ensures forall u :: !HitsAt(b, start, end, u)
  {
    forall u ensures !HitsAt(b, start, end, u) {
      if HitsAt(b, start, end, u) {
        EntryLeast(b, start, end, axis, u);
        InBetween(b, start, end, i, EntryOn(b, start, end, axis), u);
      }
    }
  }

  lemma HitAtLastEntry(b: Box, start: Vec3, end: Vec3, axis: int)
    requires b.Ordered() && LastEntry(b, start, end, axis) && EntryOn(b, start, end, axis) >= 0.0
    requires forall i :: 0 <= i < 3 && i != axis ==> InAt(b, start, end, i, EntryOn(b, start, end, axis))
    ensures FirstHit(b, start, end, EntryOn(b, start, end, axis))
  {
    hide AxisIn, AlongAxis, EntryTime;
    var t := EntryOn(b, start, end, axis);
    var lo, hi, s, d := b.minExtent.At(axis), b.maxExtent.At(axis), start.At(axis), end.At(axis) - start.At(axis);
    EntryNeedsSpeed(lo, hi, s, d);
    OnPlaneAtEntry(lo, hi, s, d);
    SameAxis(b, start, end, axis, t);
    HitIsOnAllAxes(b, start, end, t);
    forall u | HitsAt(b, start, end, u) ensures t <= u {
      EntryLeast(b, start, end, axis, u);
    }
  }

  /** The box test.  `valid` is the box's own flag. */
  method IntersectRay(b: Box, valid: bool, start: Vec3, end: Vec3) returns (result: RayIntersection)
    ensures result.valid == valid
    ensures !valid ==> !result.intersected
    ensures result.inside <==> valid && b.Contains(start)
    ensures valid && b.Ordered() ==> (result.intersected <==> exists t :: HitsAt(b, start, end, t))
    ensures valid && b.Ordered() && result.intersected ==>
      exists t :: FirstHit(b, start, end, t) && result.position == Along(start, end, t)
  {
    result := NO_INTERSECTION;
    if valid {
      result := result.(valid := true, intersected := true);
      var direction := Vec3(end.x - start.x, end.y - start.y, end.z - start.z);
      var inside := true;
      var quadrant, maxT, candidatePlane := [0, 0, 0], [0.0, 0.0, 0.0], [0.0, 0.0, 0.0];
      for i := 0 to 3
        invariant |quadrant| == 3 && |candidatePlane| == 3
        invariant inside <==> forall k :: 0 <= k < i ==> !OutsideOn(b, start, k)
        invariant forall k :: 0 <= k < i ==> (quadrant[k] != MIDDLE <==> OutsideOn(b, start, k))
        invariant forall k :: 0 <= k < i && OutsideOn(b, start, k) ==>
          candidatePlane[k] == Plane(b.minExtent.At(k), b.maxExtent.At(k), start.At(k))
      {
        if start.At(i) < b.minExtent.At(i) {
          quadrant := quadrant[i := LEFT];
          candidatePlane := candidatePlane[i := b.minExtent.At(i)];
          inside := false;
          assert OutsideOn(b, start, i);
        } else if start.At(i) > b.maxExtent.At(i) {
          quadrant := quadrant[i := RIGHT];
          candidatePlane := candidatePlane[i := b.maxExtent.At(i)];
          inside := false;
          assert OutsideOn(b, start, i);
        } else {
          quadrant := quadrant[i := MIDDLE];
        }
      }
      if inside {
        result := result.(position := start, inside := true);
        HitAtStart(b, start, end);
      } else {
        for i := 0 to 3
          invariant |maxT| == 3
          invariant forall k :: 0 <= k < i ==> maxT[k] == EntryOn(b, start, end, k)
        {
          if quadrant[i] != MIDDLE && direction.At(i) != 0.0 {
            maxT := maxT[i := (candidatePlane[i] - start.At(i)) / direction.At(i)];
          } else {
            maxT := maxT[i := -1.0];
          }
        }
        var whichPlane := 0;
        for i := 1 to 3
          invariant 0 <= whichPlane < i
          invariant forall k :: 0 <= k < i ==> maxT[k] <= maxT[whichPlane]
        {
          if maxT[whichPlane] < maxT[i] {
            whichPlane := i;
          }
        }
        if maxT[whichPlane] < 0.0 {
          result := result.(intersected := false);
          NoHitIfEntryIsPast(b, start, end, whichPlane);
        } else {
          result := CheckCandidate(b, start, end, direction, whichPlane, maxT[whichPlane], FromSeq(candidatePlane),
                                   result);
        }
      }
    }
  }

  lemma HitAtStart(b: Box, start: Vec3, end: Vec3)
    requires b.Contains(start)
    ensures FirstHit(b, start, end, 0.0) && Along(start, end, 0.0) == start
  {
    assert Along(start, end, 0.0) == start;
  }

  lemma FirstIsHit(b: Box, start: Vec3, end: Vec3, t: real)
    requires FirstHit(b, start, end, t)
    ensures HitsAt(b, start, end, t)
  {
  }

  lemma OnPlane(b: Box, start: Vec3, end: Vec3, i: int)
    requires 0 <= i < 3 && EntryOn(b, start, end, i) >= 0.0
    ensures AlongAxis(start, end, EntryOn(b, start, end, i), i)
         == Plane(b.minExtent.At(i), b.maxExtent.At(i), start.At(i))
  {
    OnPlaneAtEntry(b.minExtent.At(i), b.maxExtent.At(i), start.At(i), end.At(i) - start.At(i));
  }

  /** Checks that the candidate point is inside on the other axes. */
  method CheckCandidate(b: Box, start: Vec3, end: Vec3, direction: Vec3, whichPlane: int, t: real,
                        candidatePlane: Vec3, before: RayIntersection) returns (result: RayIntersection)
    requires before.intersected && 0 <= whichPlane < 3
    requires LastEntry(b, start, end, whichPlane) && t == EntryOn(b, start, end, whichPlane) >= 0.0
    requires forall k :: 0 <= k < 3 ==> direction.At(k) == end.At(k) - start.At(k)
    requires candidatePlane.At(whichPlane)
         == Plane(b.minExtent.At(whichPlane), b.maxExtent.At(whichPlane), start.At(whichPlane))
    ensures result.valid == before.valid && result.inside == before.inside
    ensures b.Ordered() ==> (result.intersected <==> exists t :: HitsAt(b, start, end, t))
    ensures b.Ordered() && result.intersected ==> FirstHit(b, start, end, t) && result.position == Along(start, end, t)
  {
    hide EntryOn, HitsAt, FirstHit, Box.Ordered, LastEntry, Along;
    result := before;
    var coord := [0.0, 0.0, 0.0];
    var out := 3;
    for i := 0 to 3
      invariant |coord| == 3 && result == before && out == 3
      invariant forall k :: 0 <= k < i ==> coord[k] == AlongAxis(start, end, t, k)
      invariant forall k :: 0 <= k < i && k != whichPlane ==> InAt(b, start, end, k, t)
    {
      if whichPlane != i {
        coord := coord[i := start.At(i) + t * direction.At(i)];
        assert coord[i] == AlongAxis(start, end, t, i);
        if coord[i] < b.minExtent.At(i) || coord[i] > b.maxExtent.At(i) {
          result := result.(intersected := false);
          out := i;
          break;
        }
      } else {
        OnPlane(b, start, end, whichPlane);
        coord := coord[i := candidatePlane.At(i)];
      }
    }
    result := result.(position := FromSeq(coord));
    if b.Ordered() {
      if out < 3 {
        NoHitIfOutAtEntry(b, start, end, whichPlane, out);
      } else {
        HitAtLastEntry(b, start, end, whichPlane);
        FirstIsHit(b, start, end, t);
        assert FromSeq(coord) == Along(start, end, t);
      }
    }
  }
}
