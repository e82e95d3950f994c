/** Bounding boxes: fitting, transforming, culling and ray intersection. */
module BoundingBoxes {
  import opened RealMath
  import opened Geometry

  // ------------------------------------------------------------------- fitting

  ghost predicate Fits(b: Box, points: seq<Vec3>) {
    && (forall i :: 0 <= i < |points| ==> b.Contains(points[i]))
    && (forall c: Box :: (forall i :: 0 <= i < |points| ==> c.Contains(points[i])) ==> Inside(b, c))
  }

  /** Every extent of `b` lies within `c`. */
  ghost predicate Inside(b: Box, c: Box) {
    forall k :: 0 <= k < 3 ==> c.minExtent.At(k) <= b.minExtent.At(k) && b.maxExtent.At(k) <= c.maxExtent.At(k)
  }

  /** The smallest box holding all the points. */
  method FitBoxToPoints(points: seq<Vec3>) returns (target: Box)
    requires |points| > 0
    ensures Fits(target, points)
  {
    var minExtent, maxExtent := [0.0, 0.0, 0.0], [0.0, 0.0, 0.0];
    for index := 0 to 3
      invariant |minExtent| == 3 && |maxExtent| == 3
      invariant forall k :: 0 <= k < index ==> Extremes(points, k, |points|, minExtent[k], maxExtent[k])
    {
      minExtent := minExtent[index := points[0].At(index)];
      maxExtent := maxExtent[index := points[0].At(index)];
      for i := 1 to |points|
        invariant |minExtent| == 3 && |maxExtent| == 3
        invariant forall k :: 0 <= k < index ==> Extremes(points, k, |points|, minExtent[k], maxExtent[k])
        invariant Extremes(points, index, i, minExtent[index], maxExtent[index])
      {
        var point := points[i];
        minExtent := minExtent[index := Min(minExtent[index], point.At(index))];
        maxExtent := maxExtent[index := Max(maxExtent[index], point.At(index))];
      }
    }
    target := Box(FromSeq(minExtent), FromSeq(maxExtent));
    forall i | 0 <= i < |points| ensures target.Contains(points[i]) {
      assert forall k :: 0 <= k < 3 ==> Extremes(points, k, |points|, minExtent[k], maxExtent[k]);
    }
    forall c: Box | forall i :: 0 <= i < |points| ==> c.Contains(points[i]) ensures Inside(target, c) {
      forall k | 0 <= k < 3
        ensures c.minExtent.At(k) <= target.minExtent.At(k) && target.maxExtent.At(k) <= c.maxExtent.At(k)
      {
        assert Extremes(points, k, |points|, minExtent[k], maxExtent[k]);
      }
    }
  }

  /** `lo` and `hi` are the least and greatest `k`-th coordinates of the first `n` points. */
  ghost predicate Extremes(points: seq<Vec3>, k: int, n: int, lo: real, hi: real)
    requires 0 <= k < 3 && 0 <= n <= |points|
  {
    && (forall i :: 0 <= i < n ==> lo <= points[i].At(k) <= hi)
    && (exists i :: 0 <= i < n && points[i].At(k) == lo)
    && (exists i :: 0 <= i < n && points[i].At(k) == hi)
  }

  // ------------------------------------------------------------- transforming a box

  /** No corner is in the plane of the eye, where the code would divide by zero. */
  ghost predicate Mapped(m: Mat4, b: Box) {
    forall q :: q in CornerList(b) ==> Homogeneous(m, q).w != 0.0
  }

  /** All of the box is in front of the eye. */
  ghost predicate InFront(m: Mat4, b: Box) {
    forall q :: q in CornerList(b) ==> Homogeneous(m, q).w > 0.0
  }

  /** The columns of a matrix, as affine functions of the point it maps. */
  function WOf(m: Mat4): Affine { Affine(m.r0.w, m.r1.w, m.r2.w, m.r3.w) }

  function Column(m: Mat4, k: int): Affine
    requires 0 <= k < 3
  {
    if k == 0 then Affine(m.r0.x, m.r1.x, m.r2.x, m.r3.x)
    else if k == 1 then Affine(m.r0.y, m.r1.y, m.r2.y, m.r3.y)
    else Affine(m.r0.z, m.r1.z, m.r2.z, m.r3.z)
  }

  lemma InFrontThroughout(m: Mat4, b: Box, p: Vec3)
    requires InFront(m, b) && b.Contains(p)
    ensures Homogeneous(m, p).w > 0.0
  {
    hide Affine.At;
    var q := LowestCorner(WOf(m), b, p);
    WExpands(m, q);
    WExpands(m, p);
  }

  lemma WExpands(m: Mat4, p: Vec3)
    ensures WOf(m).At(p) == Homogeneous(m, p).w
  {
    hide Times, Sum4;
  }

  /** The `k`-th numerator of the image minus `c` times its w. */
  function Excess(m: Mat4, k: int, c: real): Affine
    requires 0 <= k < 3
  {
    Less(Column(m, k), c, WOf(m))
  }

  function Less(f: Affine, c: real, g: Affine): Affine {
    Affine(f.a - c * g.a, f.b - c * g.b, f.c - c * g.c, f.d - c * g.d)
  }

  function Negated(f: Affine): Affine { Affine(-f.a, -f.b, -f.c, -f.d) }

  lemma LessExpands(f: Affine, c: real, g: Affine, p: Vec3)
    ensures Less(f, c, g).At(p) == f.At(p) - c * g.At(p)
  {
    var x, y, z := p.x, p.y, p.z;
    assert x * (f.a - c * g.a) == x * f.a - c * (x * g.a);
    assert y * (f.b - c * g.b) == y * f.b - c * (y * g.b);
    assert z * (f.c - c * g.c) == z * f.c - c * (z * g.c);
    assert c * (x * g.a + y * g.b + z * g.c + g.d) == c * (x * g.a) + c * (y * g.b) + c * (z * g.c) + c * g.d;
  }

  lemma NegatedExpands(f: Affine, p: Vec3)
    ensures Negated(f).At(p) == -f.At(p)
  {
    assert p.x * (-f.a) == -(p.x * f.a) && p.y * (-f.b) == -(p.y * f.b) && p.z * (-f.c) == -(p.z * f.c);
  }

  lemma DivCompare(n: real, d: real, c: real)
    requires d > 0.0
    ensures n / d > c <==> n - c * d > 0.0
    ensures n / d < c <==> n - c * d < 0.0
  {
    QuotientBounds(n, d, c);
  }

  lemma Coordinate(m: Mat4, k: int, p: Vec3)
    requires 0 <= k < 3 && Homogeneous(m, p).w != 0.0
    ensures WOf(m).At(p) != 0.0 && TransformPoint(m, p).At(k) == Column(m, k).At(p) / WOf(m).At(p)
  {
    hide Affine.At, Homogeneous, WOf, Column;
    WExpands(m, p);
    ColumnExpands(m, k, p);
  }

  lemma ColumnExpands(m: Mat4, k: int, p: Vec3)
    requires 0 <= k < 3
    ensures Column(m, k).At(p) == var h := Homogeneous(m, p); if k == 0 then h.x else if k == 1 then h.y else h.z
  {
    hide Times, Sum4;
    if k == 0 {
      assert Column(m, k) == Affine(m.r0.x, m.r1.x, m.r2.x, m.r3.x);
    } else if k == 1 {
      assert Column(m, k) == Affine(m.r0.y, m.r1.y, m.r2.y, m.r3.y);
    } else {
      assert Column(m, k) == Affine(m.r0.z, m.r1.z, m.r2.z, m.r3.z);
    }
  }

  /** A mapped coordinate exceeds `c` exactly where the affine excess is positive. */
  lemma ExcessDecides(m: Mat4, k: int, c: real, p: Vec3)
    requires 0 <= k < 3 && Homogeneous(m, p).w > 0.0
    ensures TransformPoint(m, p).At(k) > c <==> Excess(m, k, c).At(p) > 0.0
    ensures TransformPoint(m, p).At(k) < c <==> Negated(Excess(m, k, c)).At(p) > 0.0
    ensures Negated(Excess(m, k, c)).At(p) == -Excess(m, k, c).At(p)
  {
    hide Affine.At, TransformPoint, Homogeneous, Negated, Column, WOf;
    WExpands(m, p);
    Coordinate(m, k, p);
    LessExpands(Column(m, k), c, WOf(m), p);
    NegatedExpands(Excess(m, k, c), p);
    DivCompare(Column(m, k).At(p), WOf(m).At(p), c);
  }

  /** If all corners are mapped beyond `c`, so is the whole box. */
  lemma CornersBeyond(m: Mat4, b: Box, k: int, c: real, p: Vec3)
    requires 0 <= k < 3 && InFront(m, b) && b.Contains(p)
    ensures Homogeneous(m, p).w > 0.0
    ensures (forall q :: q in CornerList(b) ==> TransformPoint(m, q).At(k) > c) ==> TransformPoint(m, p).At(k) > c
    ensures (forall q :: q in CornerList(b) ==> TransformPoint(m, q).At(k) < c) ==> TransformPoint(m, p).At(k) < c
    ensures (forall q :: q in CornerList(b) ==> TransformPoint(m, q).At(k) >= c) ==> TransformPoint(m, p).At(k) >= c
    ensures (forall q :: q in CornerList(b) ==> TransformPoint(m, q).At(k) <= c) ==> TransformPoint(m, p).At(k) <= c
  {
    hide TransformPoint, Affine.At, Excess, Negated, Homogeneous;
    InFrontThroughout(m, b, p);
    ExcessDecides(m, k, c, p);
    var q1 := LowestCorner(Excess(m, k, c), b, p);
    ExcessDecides(m, k, c, q1);
    var q2 := LowestCorner(Negated(Excess(m, k, c)), b, p);
    ExcessDecides(m, k, c, q2);
  }

  /** The box around the images of the corners. */
  method Mul(b: Box, m: Mat4) returns (r: Box)
    requires Mapped(m, b)
    ensures Fits(r, seq(8, i requires 0 <= i < 8 => TransformPoint(m, CornerList(b)[i])))
    ensures InFront(m, b) ==>
              forall p: Vec3 :: b.Contains(p) ==> Homogeneous(m, p).w > 0.0 && r.Contains(TransformPoint(m, p))
  {
    var corners := Corners(b);
    var newCorners: seq<Vec3> := [];
    for i := 0 to |corners|
      invariant |newCorners| == i
      invariant forall k :: 0 <= k < i ==> newCorners[k] == TransformPoint(m, CornerList(b)[k])
    {
      assert corners[i] in CornerList(b);
      newCorners := newCorners + [TransformPoint(m, corners[i])];
    }
    assert newCorners == seq(8, i requires 0 <= i < 8 => TransformPoint(m, CornerList(b)[i]));
    r := FitBoxToPoints(newCorners);
    forall p: Vec3 | InFront(m, b) && b.Contains(p)
      ensures Homogeneous(m, p).w > 0.0 && r.Contains(TransformPoint(m, p))
    {
      ImageInBox(b, m, r, newCorners, p);
    }
  }

  lemma ImageInBox(b: Box, m: Mat4, r: Box, images: seq<Vec3>, p: Vec3)
    requires InFront(m, b) && b.Contains(p) && |images| == 8 && Fits(r, images)
    requires forall i :: 0 <= i < 8 ==> images[i] == TransformPoint(m, CornerList(b)[i])
    ensures Homogeneous(m, p).w > 0.0 && r.Contains(TransformPoint(m, p))
  {
    hide TransformPoint;
    InFrontThroughout(m, b, p);
    forall k | 0 <= k < 3 ensures r.minExtent.At(k) <= TransformPoint(m, p).At(k) <= r.maxExtent.At(k) {
      forall q | q in CornerList(b) ensures r.minExtent.At(k) <= TransformPoint(m, q).At(k) <= r.maxExtent.At(k) {
        var i :| 0 <= i < 8 && CornerList(b)[i] == q;
        assert r.Contains(images[i]);
      }
      CornersBeyond(m, b, k, r.minExtent.At(k), p);
      CornersBeyond(m, b, k, r.maxExtent.At(k), p);
    }
  }

  // --------------------------------------------------------------------- culling

  /** The six sides of the view volume, numbered by the code's bits. */
  predicate BeyondSide(side: int, p: Vec3) {
    match side
    case 0 => p.x > 1.0
    case 1 => p.x < -1.0
    case 2 => p.y > 1.0
    case 3 => p.y < -1.0
    case 4 => p.z > 1.0
    case 5 => p.z < 0.0
    case _ => false
  }

  function SideBits(p: Vec3): bv8 {
    (if p.x > 1.0 then 1 else 0) | (if p.x < -1.0 then 2 else 0) |
    (if p.y > 1.0 then 4 else 0) | (if p.y < -1.0 then 8 else 0) |
    (if p.z > 1.0 then 16 else 0) | (if p.z < 0.0 then 32 else 0)
  }

  function Bit(side: int): bv8 {
    match side
    case 0 => 1
    case 1 => 2
    case 2 => 4
    case 3 => 8
    case 4 => 16
    case 5 => 32
    case _ => 0
  }

  lemma SideBitsMean(p: Vec3, side: int)
    requires 0 <= side < 6
    ensures SideBits(p) & Bit(side) != 0 <==> BeyondSide(side, p)
  {
  }

  lemma AndKeepsBit(x: bv8, y: bv8, side: int)
    requires 0 <= side < 6
    ensures (x & y) & Bit(side) != 0 <==> x & Bit(side) != 0 && y & Bit(side) != 0
  {
  }

  lemma ZeroHasNoBits(x: bv8)
    requires x & 0x3f == x
    ensures x == 0 <==> forall side :: 0 <= side < 6 ==> x & Bit(side) == 0
  {
    assert (forall side :: 0 <= side < 6 ==> x & Bit(side) == 0) ==>
      x & Bit(0) == 0 && x & Bit(1) == 0 && x & Bit(2) == 0 && x & Bit(3) == 0 && x & Bit(4) == 0 && x & Bit(5) == 0;
  }

  /** All corners are mapped beyond one and the same side. */
  ghost predicate AllBeyond(m: Mat4, b: Box, side: int)
    requires Mapped(m, b)
  {
    forall q :: q in CornerList(b) ==> BeyondSide(side, TransformPoint(m, q))
  }

  lemma AllBeyondByIndex(m: Mat4, b: Box, side: int)
    requires Mapped(m, b)
    ensures AllBeyond(m, b, side) <==> forall k :: 0 <= k < 8 ==> BeyondSide(side, TransformPoint(m, CornerList(b)[k]))
  {
    assert forall k :: 0 <= k < 8 ==> CornerList(b)[k] in CornerList(b);
  }

  method InFrustum(b: Box, m: Mat4) returns (r: bool)
    requires Mapped(m, b)
    ensures r <==> !exists side :: 0 <= side < 6 && AllBeyond(m, b, side)
  {
    hide TransformPoint, BeyondSide;
    var corners := Corners(b);
    var bbTest: bv8 := 0x3f;
    for i := 0 to |corners|
      invariant bbTest & 0x3f == bbTest
      invariant forall side :: 0 <= side < 6 ==>
        (bbTest & Bit(side) != 0 <==> forall k :: 0 <= k < i ==> BeyondSide(side, TransformPoint(m, CornerList(b)[k])))
    {
      var corner := corners[i];
      assert corner in CornerList(b);
      var p := TransformPoint(m, corner);
      ghost var before := bbTest;
      bbTest := bbTest & SideBits(p);
      forall side | 0 <= side < 6
        ensures bbTest & Bit(side) != 0 <==> before & Bit(side) != 0 && BeyondSide(side, p)
      {
        SideBitsMean(p, side);
        AndKeepsBit(before, SideBits(p), side);
      }
      if bbTest == 0 {
        forall side | 0 <= side < 6 ensures !AllBeyond(m, b, side) {
          assert bbTest & Bit(side) == 0;
          AllBeyondByIndex(m, b, side);
        }
        return true;
      }
    }
    ZeroHasNoBits(bbTest);
    forall side | 0 <= side < 6 ensures bbTest & Bit(side) != 0 <==> AllBeyond(m, b, side) {
      AllBeyondByIndex(m, b, side);
    }
    r := bbTest == 0;
  }

  // ------------------------------------------------------- when a culled box is outside

  /** How far beyond a side a mapped point lies. */
  function Depth(side: int, p: Vec3): real
    requires 0 <= side < 6
  {
    match side
    case 0 => p.x - 1.0
    case 1 => -1.0 - p.x
    case 2 => p.y - 1.0
    case 3 => -1.0 - p.y
    case 4 => p.z - 1.0
    case 5 => -p.z
  }

  /** The same times w, as an affine function of the point before it is mapped. */
  function Overhang(m: Mat4, side: int): Affine
    requires 0 <= side < 6
  {
    var c := if side % 2 == 0 then 1.0 else if side == 5 then 0.0 else -1.0;
    if side % 2 == 0 then Excess(m, side / 2, c) else Negated(Excess(m, side / 2, c))
  }

  lemma DividedLess(n: real, d: real, c: real)
    requires d != 0.0
    ensures (n - c * d) / d == n / d - c && -(n - c * d) / d == c - n / d
  {
    DividedTimes(n, d);
    DividedTimes(n - c * d, d);
    DividedTimes(-(n - c * d), d);
    Cancel((n - c * d) / d, n / d - c, d);
    Cancel(-(n - c * d) / d, c - n / d, d);
  }

  lemma DepthIsOverhang(m: Mat4, side: int, p: Vec3)
    requires 0 <= side < 6 && Homogeneous(m, p).w != 0.0
    ensures WOf(m).At(p) == Homogeneous(m, p).w
    ensures Depth(side, TransformPoint(m, p)) == Overhang(m, side).At(p) / WOf(m).At(p)
    ensures BeyondSide(side, TransformPoint(m, p)) <==> Depth(side, TransformPoint(m, p)) > 0.0
  {
    hide Affine.At, TransformPoint, Homogeneous, Negated, Column, WOf, Less;
    var k, c := side / 2, if side % 2 == 0 then 1.0 else if side == 5 then 0.0 else -1.0;
    WExpands(m, p);
    Coordinate(m, k, p);
    LessExpands(Column(m, k), c, WOf(m), p);
    NegatedExpands(Excess(m, k, c), p);
    DividedLess(Column(m, k).At(p), WOf(m).At(p), c);
  }

  function Mix(x: real, y: real, t: real): real { x + t * (y - x) }

  function Between(q: Vec3, r: Vec3, t: real): Vec3 { Vec3(Mix(q.x, r.x, t), Mix(q.y, r.y, t), Mix(q.z, r.z, t)) }

  lemma TimesMix(x: real, y: real, t: real, k: real)
    ensures Times(Mix(x, y, t), k) == Mix(Times(x, k), Times(y, k), t)
  {
    assert t * (y - x) * k == t * (y * k - x * k);
  }

  lemma MixAddsUp(t: real, x: real, y: real, z: real, x': real, y': real, z': real, d: real)
    ensures Sum4(Mix(x, x', t), Mix(y, y', t), Mix(z, z', t), d) == Mix(Sum4(x, y, z, d), Sum4(x', y', z', d), t)
  {
  }

  lemma AffineBetween(f: Affine, q: Vec3, r: Vec3, t: real)
    ensures f.At(Between(q, r, t)) == Mix(f.At(q), f.At(r), t)
  {
    hide Times, Sum4, Mix;
    TimesMix(q.x, r.x, t, f.a);
    TimesMix(q.y, r.y, t, f.b);
    TimesMix(q.z, r.z, t, f.c);
    MixAddsUp(t, Times(q.x, f.a), Times(q.y, f.b), Times(q.z, f.c), Times(r.x, f.a), Times(r.y, f.b), Times(r.z, f.c),
              f.d);
  }

  lemma MixStays(lo: real, hi: real, x: real, y: real, t: real)
    requires 0.0 <= t <= 1.0 && lo <= x <= hi && lo <= y <= hi
    ensures lo <= Mix(x, y, t) <= hi
  {
    MulNonNegative(t, y - lo);
    MulNonNegative(1.0 - t, x - lo);
    MulNonNegative(t, hi - y);
    MulNonNegative(1.0 - t, hi - x);
    assert t * (y - lo) + (1.0 - t) * (x - lo) == Mix(x, y, t) - lo;
    assert t * (hi - y) + (1.0 - t) * (hi - x) == hi - Mix(x, y, t);
  }

  lemma CornersInside(b: Box)
    requires b.Ordered()
    ensures forall q :: q in CornerList(b) ==> b.Contains(q)
  {
    assert b.minExtent.At(0) <= b.maxExtent.At(0) && b.minExtent.At(1) <= b.maxExtent.At(1);
    assert b.minExtent.At(2) <= b.maxExtent.At(2);
  }

  lemma BetweenAt(q: Vec3, r: Vec3, t: real, i: int)
    requires 0 <= i < 3
    ensures Between(q, r, t).At(i) == Mix(q.At(i), r.At(i), t)
  {
    hide Mix;
  }

  lemma BetweenCorners(b: Box, q: Vec3, r: Vec3, t: real)
    requires b.Ordered() && q in CornerList(b) && r in CornerList(b) && 0.0 <= t <= 1.0
    ensures b.Contains(Between(q, r, t))
  {
    hide CornerList, Mix, Between, Vec3.At;
    CornersInside(b);
    forall i | 0 <= i < 3
      ensures b.minExtent.At(i) <= Between(q, r, t).At(i) <= b.maxExtent.At(i)
    {
      MixStays(b.minExtent.At(i), b.maxExtent.At(i), q.At(i), r.At(i), t);
      BetweenAt(q, r, t, i);
    }
  }

  lemma CrossingTime(e: real, e': real)
    requires e > 0.0 > e'
    ensures var t := e / (e - e'); 0.0 <= t <= 1.0 && t * (e - e') == e && Mix(e, e', t) == 0.0
  {
    DividedTimes(e, e - e');
    QuotientBounds(e, e - e', 0.0);
    QuotientBounds(e, e - e', 1.0);
  }

  lemma MixScaled(w: real, w': real, t: real, e: real, e': real)
    requires t * (e - e') == e
    ensures Times(Mix(w, w', t), e - e') == Times(e, w') - Times(e', w)
  {
    MulBoth(t * (e - e'), e, w' - w);
    assert (w + t * (w' - w)) * (e - e') == w * (e - e') + t * (e - e') * (w' - w);
  }

  lemma PositiveTimes(x: real, d: real)
    requires d > 0.0 && Times(x, d) > 0.0
    ensures x > 0.0
  {
  }

  lemma StillInFront(x: real, y: real, w: real, w': real)
    requires w > 0.0 > w' && x < y
    ensures Times(x * w, w') - Times(y * w', w) > 0.0
  {
    MulStrict(0.0, w, -w');
    MulStrict(0.0, y - x, w * -w');
    assert (y - x) * (w * -w') == x * w * w' - y * w' * w;
  }

  /** Where a front corner is less far out than a back one, the segment between them leaves the
      outside before it reaches the plane of the eye. */
  lemma LeavesTheOutside(e: real, w: real, e': real, w': real) returns (t: real)
    requires w > 0.0 > w' && e / w > 0.0 && e' / w' > 0.0 && e / w < e' / w'
    ensures 0.0 <= t <= 1.0 && Mix(e, e', t) == 0.0 && Mix(w, w', t) > 0.0
  {
    hide Mix, Times;
    var x, y := e / w, e' / w';
    DividedTimes(e, w);
    DividedTimes(e', w');
    MulStrict(0.0, x, w);
    MulStrict(0.0, y, -w');
    assert e == x * w && e' == y * w';
    NegatedProduct(y, w');
    CrossingTime(e, e');
    t := e / (e - e');
    MixScaled(w, w', t, e, e');
    StillInFront(x, y, w, w');
    PositiveTimes(Mix(w, w', t), e - e');
  }

  lemma NegatedProduct(x: real, y: real)
    ensures x * -y == -(x * y)
  {
  }

  /** Some front corner is the least far out. */
  lemma {:induction false} LeastFront(e: Affine, w: Affine, corners: seq<Vec3>) returns (found: bool, q: Vec3)
    requires forall c :: c in corners ==> w.At(c) != 0.0
    ensures found ==> q in corners && w.At(q) > 0.0
    ensures found ==> forall c :: c in corners && w.At(c) > 0.0 ==> e.At(q) / w.At(q) <= e.At(c) / w.At(c)
    ensures !found ==> forall c :: c in corners ==> w.At(c) < 0.0
  {
    found, q := false, Vec3(0.0, 0.0, 0.0);
    hide Affine.At;
    if |corners| > 0 {
      var c := corners[0];
      found, q := LeastFront(e, w, corners[1..]);
      assert forall d :: d in corners ==> d == c || d in corners[1..];
      if w.At(c) > 0.0 && (!found || e.At(c) / w.At(c) < e.At(q) / w.At(q)) {
        found, q := true, c;
      }
    }
  }

  lemma NotLess(e: real, w: real, x: real)
    requires w != 0.0 && (w > 0.0 ==> e / w >= x) && (w < 0.0 ==> e / w <= x)
    ensures e - x * w >= 0.0
  {
    DividedTimes(e, w);
    var y := e / w;
    if w > 0.0 {
      MulNonNegative(y - x, w);
    } else {
      MulNonNegative(x - y, -w);
    }
    assert (y - x) * w == e - x * w && (x - y) * -w == e - x * w;
  }

  /** Every front corner is at least as far out as every back corner. */
  ghost predicate FrontFarther(m: Mat4, b: Box, side: int)
    requires Mapped(m, b) && 0 <= side < 6
  {
    forall q, r :: q in CornerList(b) && r in CornerList(b) && Homogeneous(m, q).w > 0.0 > Homogeneous(m, r).w ==>
      Depth(side, TransformPoint(m, q)) >= Depth(side, TransformPoint(m, r))
  }

  lemma OutByAffine(e: Affine, w: Affine, b: Box, p: Vec3)
    requires forall q :: q in CornerList(b) ==> w.At(q) != 0.0 && e.At(q) / w.At(q) > 0.0
    requires forall q, r :: q in CornerList(b) && r in CornerList(b) && w.At(q) > 0.0 > w.At(r) ==>
               e.At(q) / w.At(q) >= e.At(r) / w.At(r)
    requires b.Contains(p) && w.At(p) > 0.0
    ensures e.At(p) / w.At(p) > 0.0
  {
    hide Affine.At, Negated, Less, CornerList, Box.Contains;
    var found, least := LeastFront(e, w, CornerList(b));
    if !found {
      var c := LowestCorner(Negated(w), b, p);
      NegatedExpands(w, c);
      NegatedExpands(w, p);
      assert false;
    }
    var x := e.At(least) / w.At(least);
    var c := LowestCorner(Less(e, x, w), b, p);
    LessExpands(e, x, w, c);
    LessExpands(e, x, w, p);
    NotLess(e.At(c), w.At(c), x);
    MulStrict(0.0, x, w.At(p));
    QuotientBounds(e.At(p), w.At(p), 0.0);
  }

  lemma FrontIsOut(m: Mat4, b: Box, side: int, p: Vec3)
    requires Mapped(m, b) && 0 <= side < 6 && AllBeyond(m, b, side) && FrontFarther(m, b, side)
    requires b.Contains(p) && Homogeneous(m, p).w > 0.0
    ensures BeyondSide(side, TransformPoint(m, p))
  {
    hide TransformPoint, Affine.At, Overhang, WOf, Homogeneous, Depth, BeyondSide, Negated, Less;
    var e, w := Overhang(m, side), WOf(m);
    forall c | c in CornerList(b)
      ensures w.At(c) == Homogeneous(m, c).w && Depth(side, TransformPoint(m, c)) == e.At(c) / w.At(c) > 0.0
    {
      DepthIsOverhang(m, side, c);
    }
    DepthIsOverhang(m, side, p);
    OutByAffine(e, w, b, p);
  }

  lemma NotOutIfCloser(m: Mat4, b: Box, side: int, q: Vec3, r: Vec3) returns (p: Vec3)
    requires Mapped(m, b) && 0 <= side < 6 && AllBeyond(m, b, side) && b.Ordered()
    requires q in CornerList(b) && r in CornerList(b) && Homogeneous(m, q).w > 0.0 > Homogeneous(m, r).w
    requires Depth(side, TransformPoint(m, q)) < Depth(side, TransformPoint(m, r))
    ensures b.Contains(p) && Homogeneous(m, p).w > 0.0 && !BeyondSide(side, TransformPoint(m, p))
  {
    hide TransformPoint, Affine.At, Overhang, WOf, Homogeneous, Depth, BeyondSide, Mix;
    var e, w := Overhang(m, side), WOf(m);
    DepthIsOverhang(m, side, q);
    DepthIsOverhang(m, side, r);
    var t := LeavesTheOutside(e.At(q), w.At(q), e.At(r), w.At(r));
    p := Between(q, r, t);
    AffineBetween(e, q, r, t);
    AffineBetween(w, q, r, t);
    BetweenCorners(b, q, r, t);
    WExpands(m, p);
    DepthIsOverhang(m, side, p);
  }

  /** All of the box that is in front of the eye is beyond that side. */
  ghost predicate OutInFront(m: Mat4, b: Box, side: int) {
    forall p: Vec3 :: b.Contains(p) && Homogeneous(m, p).w > 0.0 ==> BeyondSide(side, TransformPoint(m, p))
  }

  /** What a culled box hides lies beyond the side it was culled for exactly if its corners in
      front of the eye are at least as far out as those behind it.  That is enough for the box
      to be out of view, but not needed: another side may hide the rest. */
  lemma CulledIsOut(m: Mat4, b: Box, side: int)
    requires Mapped(m, b) && 0 <= side < 6 && AllBeyond(m, b, side) && b.Ordered()
    ensures OutInFront(m, b, side) <==> FrontFarther(m, b, side)
  {
    hide TransformPoint, Homogeneous, Depth, BeyondSide, Box.Contains, AllBeyond, Mapped;
    if FrontFarther(m, b, side) {
      forall p: Vec3 | b.Contains(p) && Homogeneous(m, p).w > 0.0
        ensures BeyondSide(side, TransformPoint(m, p))
      {
        FrontIsOut(m, b, side, p);
      }
    } else {
      var q, r :| q in CornerList(b) && r in CornerList(b) && Homogeneous(m, q).w > 0.0 > Homogeneous(m, r).w
        && Depth(side, TransformPoint(m, q)) < Depth(side, TransformPoint(m, r));
      var p := NotOutIfCloser(m, b, side, q, r);
    }
  }

  /** A long thin box that passes beside the eye: culled, and yet a point of it is in view. */
  lemma VisibleButCulled()
    ensures var b := Box(Vec3(0.0, 0.0, 0.0), Vec3(0.0, 0.0, 1.0));
      var m := Mat4(Vec4(0.0, 0.0, 1.0, 0.0), Vec4(0.0, 1.0, 0.0, 0.0),
                    Vec4(-13.0, 0.0, 0.0, -2.0), Vec4(3.0, 0.0, 0.25, 1.0));
      var p := Vec3(0.0, 0.0, 0.25);
      && Mapped(m, b) && AllBeyond(m, b, 0) && b.Ordered() && b.Contains(p) && Homogeneous(m, p).w > 0.0
      && forall side :: 0 <= side < 6 ==> !BeyondSide(side, TransformPoint(m, p))
  {
    var b := Box(Vec3(0.0, 0.0, 0.0), Vec3(0.0, 0.0, 1.0));
    var m := Mat4(Vec4(0.0, 0.0, 1.0, 0.0), Vec4(0.0, 1.0, 0.0, 0.0),
                  Vec4(-13.0, 0.0, 0.0, -2.0), Vec4(3.0, 0.0, 0.25, 1.0));
    assert forall q :: q in CornerList(b) ==> q == Vec3(0.0, 0.0, 0.0) || q == Vec3(0.0, 0.0, 1.0);
    assert Homogeneous(m, Vec3(0.0, 0.0, 0.0)) == Vec4(3.0, 0.0, 0.25, 1.0);
    assert Homogeneous(m, Vec3(0.0, 0.0, 1.0)) == Vec4(-10.0, 0.0, 0.25, -1.0);
    assert Homogeneous(m, Vec3(0.0, 0.0, 0.25)) == Vec4(-0.25, 0.0, 0.25, 0.5);
  }

  /** A box in front of the eye that is reported outside the view is wholly outside. */
  lemma CullingIsConservative(b: Box, m: Mat4, side: int, p: Vec3)
    requires InFront(m, b) && 0 <= side < 6 && AllBeyond(m, b, side) && b.Contains(p)
    ensures Homogeneous(m, p).w > 0.0 && BeyondSide(side, TransformPoint(m, p))
  {
    hide TransformPoint, Homogeneous, Depth, BeyondSide, AllBeyond;
    InFrontThroughout(m, b, p);
    FrontIsOut(m, b, side, p);
  }
}
