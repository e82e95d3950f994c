/** When a box is out of view: the exact condition, on its eight corners. */
module Frustums {
  import opened RealMath
  import opened Geometry
  import opened BoundingBoxes

  // ------------------------------------------------------------ mixtures of affine functions

  predicate NonNegative(weights: seq<real>) { forall i :: 0 <= i < |weights| ==> weights[i] >= 0.0 }

  /** The sum of the functions, each times its weight. */
  function Mixture(weights: seq<real>, fs: seq<Affine>): Affine
    requires |weights| == |fs|
  {
    if |fs| == 0 then Affine(0.0, 0.0, 0.0, 0.0)
    else
      var k := |fs| - 1;
      Less(Mixture(weights[..k], fs[..k]), -weights[k], fs[k])
  }

  lemma MixtureAt(weights: seq<real>, fs: seq<Affine>, p: Vec3)
    requires |weights| == |fs| > 0
    ensures var k := |fs| - 1;
      Mixture(weights, fs).At(p) == Mixture(weights[..k], fs[..k]).At(p) + weights[k] * fs[k].At(p)
  {
    hide *;
    MixtureNext(weights, fs);
    var k := |fs| - 1;
    LessExpands(Mixture(weights[..k], fs[..k]), -weights[k], fs[k], p);
    MinusMinus(Mixture(weights[..k], fs[..k]).At(p), weights[k], fs[k].At(p));
  }

  lemma MixtureNext(weights: seq<real>, fs: seq<Affine>)
    requires |weights| == |fs| > 0
    ensures var k := |fs| - 1; Mixture(weights, fs) == Less(Mixture(weights[..k], fs[..k]), -weights[k], fs[k])
  {
    hide Less;
  }

  lemma MinusMinus(u: real, w: real, x: real)
    ensures u - -w * x == u + w * x
  {
  }

  lemma EmptyMixture(p: Vec3)
    ensures Mixture([], []).At(p) == 0.0
  {
  }

  /** Where no function is positive, no mixture is. */
  lemma {:induction false} MixtureBelow(weights: seq<real>, fs: seq<Affine>, p: Vec3)
    requires |weights| == |fs| && NonNegative(weights)
    requires forall i :: 0 <= i < |fs| ==> fs[i].At(p) <= 0.0
    ensures Mixture(weights, fs).At(p) <= 0.0
  {
    hide Affine.At, Mixture;
    if |fs| == 0 {
      EmptyMixture(p);
    } else {
      var k := |fs| - 1;
      MixtureBelow(weights[..k], fs[..k], p);
      MixtureAt(weights, fs, p);
      MulNonNegative(weights[k], -fs[k].At(p));
      NegatedProduct(weights[k], fs[k].At(p));
    }
  }

  lemma {:induction false} NoWeight(fs: seq<Affine>, p: Vec3)
    ensures Mixture(seq(|fs|, _ => 0.0), fs).At(p) == 0.0
  {
    hide Affine.At, Mixture;
    if |fs| == 0 {
      EmptyMixture(p);
    } else {
      var k := |fs| - 1;
      NoWeight(fs[..k], p);
      MixtureAt(seq(|fs|, _ => 0.0), fs, p);
      assert seq(|fs|, _ => 0.0)[..k] == seq(k, _ => 0.0);
    }
  }

  // -------------------------------------------------------------------------- convex hulls

  /** `p` satisfies every linear inequality that all of `points` satisfy. */
  ghost predicate InHull(p: Vec3, points: set<Vec3>) {
    forall f: Affine :: (forall q :: q in points ==> f.At(q) <= 0.0) ==> f.At(p) <= 0.0
  }

  lemma HullStaysBelow(p: Vec3, points: set<Vec3>, f: Affine)
    requires InHull(p, points) && forall q :: q in points ==> f.At(q) <= 0.0
    ensures f.At(p) <= 0.0
  {
  }

  /** Where the segment from `p` to `q` meets the plane on which `f` is zero. */
  function Crossing(f: Affine, p: Vec3, q: Vec3): Vec3
    requires f.At(p) > 0.0 > f.At(q)
  {
    Between(p, q, f.At(p) / (f.At(p) - f.At(q)))
  }

  lemma AtCrossing(f: Affine, p: Vec3, q: Vec3, g: Affine)
    requires f.At(p) > 0.0 > f.At(q)
    ensures f.At(Crossing(f, p, q)) == 0.0
    ensures g.At(p) <= 0.0 && g.At(q) <= 0.0 ==> g.At(Crossing(f, p, q)) <= 0.0
    ensures Times(g.At(Crossing(f, p, q)), f.At(p) - f.At(q)) == Times(f.At(p), g.At(q)) - Times(f.At(q), g.At(p))
  {
    hide Affine.At, Between, Mix, Times;
    var e, e' := f.At(p), f.At(q);
    var t := e / (e - e');
    CrossingTime(e, e');
    AffineBetween(f, p, q, t);
    AffineBetween(g, p, q, t);
    MixScaled(g.At(p), g.At(q), t, e, e');
    if g.At(p) <= 0.0 && g.At(q) <= 0.0 {
      MixStays(Min(g.At(p), g.At(q)), 0.0, g.At(p), g.At(q), t);
    }
  }

  /** Points whose hull is the part of the hull of `points` on which `f` is not positive. */
  ghost function Lowered(f: Affine, points: set<Vec3>): set<Vec3> {
    (set q | q in points && f.At(q) <= 0.0)
    + (set p, q | p in points && q in points && f.At(p) > 0.0 > f.At(q) :: Crossing(f, p, q))
  }

  lemma LoweredHull(f: Affine, points: set<Vec3>, p: Vec3)
    requires InHull(p, Lowered(f, points))
    ensures InHull(p, points) && f.At(p) <= 0.0
  {
    hide Affine.At, Crossing;
    var lowered := Lowered(f, points);
    forall r | r in lowered
      ensures f.At(r) <= 0.0
    {
      if r !in points || f.At(r) > 0.0 {
        var q, s :| q in points && s in points && f.At(q) > 0.0 > f.At(s) && r == Crossing(f, q, s);
        AtCrossing(f, q, s, f);
      }
    }
    HullStaysBelow(p, lowered, f);
    forall g: Affine | forall q :: q in points ==> g.At(q) <= 0.0
      ensures g.At(p) <= 0.0
    {
      forall r | r in lowered
        ensures g.At(r) <= 0.0
      {
        if r !in points {
          var q, s :| q in points && s in points && f.At(q) > 0.0 > f.At(s) && r == Crossing(f, q, s);
          AtCrossing(f, q, s, g);
        }
      }
      HullStaysBelow(p, lowered, g);
    }
  }

  // ------------------------------------------------------------ the theorem of alternatives

  /** The least factor that lifts `g` above zero wherever `f` is positive, or zero. */
  lemma {:induction false} LowerEnd(g: Affine, f: Affine, points: set<Vec3>) returns (s: real)
    ensures s >= 0.0 && forall p :: p in points && f.At(p) > 0.0 ==> -g.At(p) / f.At(p) <= s
    ensures s == 0.0 || exists p :: p in points && f.At(p) > 0.0 && s == -g.At(p) / f.At(p)
    decreases points
  {
    hide Affine.At;
    if points == {} {
      s := 0.0;
    } else {
      var q :| q in points;
      s := LowerEnd(g, f, points - {q});
      if f.At(q) > 0.0 && -g.At(q) / f.At(q) > s {
        s := -g.At(q) / f.At(q);
      }
    }
  }

  /** A factor above `low` and below every upper end. */
  lemma {:induction false} FactorBelow(g: Affine, f: Affine, points: set<Vec3>, low: real) returns (s: real)
    requires forall q :: q in points && f.At(q) < 0.0 ==> low < g.At(q) / -f.At(q)
    ensures low < s && forall q :: q in points && f.At(q) < 0.0 ==> s < g.At(q) / -f.At(q)
    decreases points
  {
    hide Affine.At;
    if points == {} {
      s := low + 1.0;
    } else {
      var q :| q in points;
      s := FactorBelow(g, f, points - {q}, low);
      if f.At(q) < 0.0 && s >= g.At(q) / -f.At(q) {
        s := (low + g.At(q) / -f.At(q)) / 2.0;
      }
    }
  }

  lemma EndsApart(g: real, f: real, g': real, f': real)
    requires f > 0.0 > f' && Times(f, g') - Times(f', g) > 0.0
    ensures -g / f < g' / -f'
  {
    var x, y := -g / f, g' / -f';
    DividedTimes(-g, f);
    DividedTimes(g', -f');
    MulBoth(x * f, -g, -f');
    MulBoth(y * -f', g', f);
    MulStrict(0.0, f, -f');
    assert (y - x) * (f * -f') == y * -f' * f - x * f * -f';
    PositiveTimes(y - x, f * -f');
  }

  lemma LiftedScalar(g: real, f: real, s: real)
    requires f > 0.0 ==> -g / f < s
    requires f < 0.0 ==> s < g / -f
    requires f == 0.0 ==> g > 0.0
    ensures g + s * f > 0.0
  {
    if f > 0.0 {
      DividedTimes(-g, f);
      MulStrict(-g / f, s, f);
    } else if f < 0.0 {
      DividedTimes(g, -f);
      MulStrict(s, g / -f, -f);
    }
  }

  /** If `g` is positive on all the lowered points, some multiple of `f` lifts it above zero on
      the points themselves. */
  lemma Lifted(g: Affine, f: Affine, points: set<Vec3>) returns (s: real)
    requires forall r :: r in Lowered(f, points) ==> g.At(r) > 0.0
    ensures s >= 0.0 && forall q :: q in points ==> g.At(q) + s * f.At(q) > 0.0
  {
    hide Affine.At, Crossing;
    var low := LowerEnd(g, f, points);
    forall q | q in points && f.At(q) < 0.0
      ensures low < g.At(q) / -f.At(q)
    {
      assert q in Lowered(f, points);
      QuotientBounds(g.At(q), -f.At(q), 0.0);
      if low != 0.0 {
        var p :| p in points && f.At(p) > 0.0 && low == -g.At(p) / f.At(p);
        assert Crossing(f, p, q) in Lowered(f, points);
        AtCrossing(f, p, q, g);
        PositiveProduct(g.At(Crossing(f, p, q)), f.At(p) - f.At(q));
        EndsApart(g.At(p), f.At(p), g.At(q), f.At(q));
      }
    }
    s := FactorBelow(g, f, points, low);
    forall q | q in points
      ensures g.At(q) + s * f.At(q) > 0.0
    {
      assert f.At(q) <= 0.0 ==> q in Lowered(f, points);
      LiftedScalar(g.At(q), f.At(q), s);
    }
  }

  lemma PositiveProduct(x: real, y: real)
    requires x > 0.0 && y > 0.0
    ensures Times(x, y) > 0.0
  {
  }

  /** Either a point of the hull has none of the functions positive, or some mixture of them is
      positive on all the points. */
  lemma {:induction false} Alternative(fs: seq<Affine>, points: set<Vec3>)
    returns (below: bool, p: Vec3, weights: seq<real>)
    requires points != {}
    ensures below ==> InHull(p, points) && forall i :: 0 <= i < |fs| ==> fs[i].At(p) <= 0.0
    ensures !below ==>
              && |weights| == |fs| && NonNegative(weights)
              && forall q :: q in points ==> Mixture(weights, fs).At(q) > 0.0
    decreases |fs|
  {
    hide Affine.At, Mixture, Lowered, InHull;
    weights := [];
    if |fs| == 0 {
      below := true;
      p :| p in points;
      PointInHull(p, points);
    } else {
      var k := |fs| - 1;
      var f, rest := fs[k], fs[..k];
      var lowered := Lowered(f, points);
      if lowered == {} {
        p := Vec3(0.0, 0.0, 0.0);
        below, weights := false, seq(k, _ => 0.0) + [1.0];
        forall q | q in points
          ensures Mixture(weights, fs).At(q) > 0.0
        {
          NothingLowered(f, points, q);
          MixtureAt(weights, fs, q);
          NoWeight(rest, q);
          assert weights[..k] == seq(k, _ => 0.0);
        }
      } else {
        var ws: seq<real>;
        below, p, ws := Alternative(rest, lowered);
        if below {
          LoweredHull(f, points, p);
          assert forall i :: 0 <= i < k ==> fs[i] == rest[i];
        } else {
          var s := Lifted(Mixture(ws, rest), f, points);
          weights := ws + [s];
          forall q | q in points
            ensures Mixture(weights, fs).At(q) > 0.0
          {
            MixtureAt(weights, fs, q);
            assert weights[..k] == ws;
          }
        }
      }
    }
  }

  lemma PointInHull(p: Vec3, points: set<Vec3>)
    requires p in points
    ensures InHull(p, points)
  {
  }

  lemma NothingLowered(f: Affine, points: set<Vec3>, q: Vec3)
    requires q in points && Lowered(f, points) == {}
    ensures f.At(q) > 0.0
  {
    assert f.At(q) <= 0.0 ==> q in Lowered(f, points);
  }

  // ---------------------------------------------------------------------------- the view

  /** The point is in front of the eye and beyond no side of the view volume. */
  ghost predicate InView(m: Mat4, p: Vec3) {
    Homogeneous(m, p).w > 0.0 && forall side :: 0 <= side < 6 ==> !BeyondSide(side, TransformPoint(m, p))
  }

  /** No point of the box is in view, and none is mapped to nothing at all. */
  ghost predicate OutOfView(m: Mat4, b: Box) {
    forall p: Vec3 :: b.Contains(p) ==> !InView(m, p) && Homogeneous(m, p) != Vec4(0.0, 0.0, 0.0, 0.0)
  }

  function Sides(m: Mat4): (fs: seq<Affine>)
    ensures |fs| == 6 && forall side :: 0 <= side < 6 ==> fs[side] == Overhang(m, side)
  {
    seq(6, side requires 0 <= side < 6 => Overhang(m, side))
  }

  /** The corners all lie beyond one plane that is a mixture of the six sides. */
  ghost predicate BeyondMixture(m: Mat4, b: Box, weights: seq<real>) {
    && |weights| == 6 && NonNegative(weights)
    && forall q :: q in CornerList(b) ==> Mixture(weights, Sides(m)).At(q) > 0.0
  }

  lemma OverhangAt(m: Mat4, p: Vec3)
    ensures var h := Homogeneous(m, p);
      && Overhang(m, 0).At(p) == h.x - h.w && Overhang(m, 1).At(p) == -(h.x + h.w)
      && Overhang(m, 2).At(p) == h.y - h.w && Overhang(m, 3).At(p) == -(h.y + h.w)
      && Overhang(m, 4).At(p) == h.z - h.w && Overhang(m, 5).At(p) == -h.z
  {
    hide Affine.At, Homogeneous, Negated, Column, WOf, Less;
    WExpands(m, p);
    ColumnExpands(m, 0, p);
    ColumnExpands(m, 1, p);
    ColumnExpands(m, 2, p);
    LessExpands(Column(m, 0), 1.0, WOf(m), p);
    LessExpands(Column(m, 0), -1.0, WOf(m), p);
    LessExpands(Column(m, 1), 1.0, WOf(m), p);
    LessExpands(Column(m, 1), -1.0, WOf(m), p);
    LessExpands(Column(m, 2), 1.0, WOf(m), p);
    LessExpands(Column(m, 2), 0.0, WOf(m), p);
    NegatedExpands(Excess(m, 0, -1.0), p);
    NegatedExpands(Excess(m, 1, -1.0), p);
    NegatedExpands(Excess(m, 2, 0.0), p);
  }

  /** Nothing overhangs exactly at the points in view, and at any mapped to nothing. */
  lemma NothingOverhangs(m: Mat4, p: Vec3)
    ensures (forall side :: 0 <= side < 6 ==> Overhang(m, side).At(p) <= 0.0)
       <==> InView(m, p) || Homogeneous(m, p) == Vec4(0.0, 0.0, 0.0, 0.0)
  {
    OverhangAt(m, p);
    hide Affine.At, Homogeneous, Overhang, TransformPoint, BeyondSide;
    var h := Homogeneous(m, p);
    if h.w > 0.0 {
      forall side | 0 <= side < 6
        ensures BeyondSide(side, TransformPoint(m, p)) <==> Overhang(m, side).At(p) > 0.0
      {
        DepthIsOverhang(m, side, p);
        QuotientBounds(Overhang(m, side).At(p), h.w, 0.0);
      }
    }
  }

  /** In view is what lies, before the division by w, between -w and w across, and between 0 and w
      in depth. */
  lemma InViewMeans(m: Mat4, p: Vec3)
    ensures var h := Homogeneous(m, p);
      InView(m, p) <==> h.w > 0.0 && -h.w <= h.x <= h.w && -h.w <= h.y <= h.w && 0.0 <= h.z <= h.w
  {
    NothingOverhangs(m, p);
    OverhangAt(m, p);
    hide Homogeneous, Overhang, Affine.At, BeyondSide, TransformPoint;
    if InView(m, p) {
      assert forall side :: 0 <= side < 6 ==> Overhang(m, side).At(p) <= 0.0;
    }
  }

  /** A hull of corners stays in the box. */
  lemma HullInBox(b: Box, p: Vec3)
    requires b.Ordered() && InHull(p, set q | q in CornerList(b))
    ensures b.Contains(p)
  {
    var corners := set q | q in CornerList(b);
    CornersInside(b);
    hide CornerList, InHull;
    AxisUp(b.maxExtent.x, 0, p);
    forall i | 0 <= i < 3
      ensures b.minExtent.At(i) <= p.At(i) <= b.maxExtent.At(i)
    {
      forall q | q in corners
        ensures AtMost(b.maxExtent.At(i), i).At(q) <= 0.0 && AtLeast(b.minExtent.At(i), i).At(q) <= 0.0
      {
        AxisUp(b.maxExtent.At(i), i, q);
        AxisUp(b.minExtent.At(i), i, q);
      }
      HullStaysBelow(p, corners, AtMost(b.maxExtent.At(i), i));
      HullStaysBelow(p, corners, AtLeast(b.minExtent.At(i), i));
      AxisUp(b.maxExtent.At(i), i, p);
      AxisUp(b.minExtent.At(i), i, p);
    }
  }

  function AtMost(x: real, i: int): Affine {
    Affine(if i == 0 then 1.0 else 0.0, if i == 1 then 1.0 else 0.0, if i == 2 then 1.0 else 0.0, -x)
  }

  function AtLeast(x: real, i: int): Affine { Negated(AtMost(x, i)) }

  lemma AxisUp(x: real, i: int, p: Vec3)
    requires 0 <= i < 3
    ensures AtMost(x, i).At(p) == p.At(i) - x && AtLeast(x, i).At(p) == x - p.At(i)
  {
    NegatedExpands(AtMost(x, i), p);
  }

  lemma MixtureHides(m: Mat4, b: Box, weights: seq<real>)
    requires BeyondMixture(m, b, weights)
    ensures OutOfView(m, b)
  {
    hide Affine.At, Mixture, Overhang, Homogeneous, InView, CornerList, Box.Contains;
    forall p: Vec3 | b.Contains(p)
      ensures !InView(m, p) && Homogeneous(m, p) != Vec4(0.0, 0.0, 0.0, 0.0)
    {
      var q := LowestCorner(Mixture(weights, Sides(m)), b, p);
      NothingOverhangs(m, p);
      if forall side :: 0 <= side < 6 ==> Overhang(m, side).At(p) <= 0.0 {
        MixtureBelow(weights, Sides(m), p);
        assert false;
      }
    }
  }

  /** A box is out of view exactly if some mixture of the six sides has all its corners beyond. */
  lemma OutOfViewExactly(m: Mat4, b: Box)
    requires b.Ordered()
    ensures OutOfView(m, b) <==> exists weights :: BeyondMixture(m, b, weights)
  {
    hide Affine.At, Mixture, Overhang, Homogeneous, InView, CornerList, InHull, Box.Contains;
    forall weights | BeyondMixture(m, b, weights)
      ensures OutOfView(m, b)
    {
      MixtureHides(m, b, weights);
    }
    SomeCorner(b);
    var corners := set q | q in CornerList(b);
    var corner :| corner in CornerList(b);
    assert corner in corners;
    var below, p, weights := Alternative(Sides(m), corners);
    if below {
      HullInBox(b, p);
      NothingOverhangs(m, p);
      assert forall side :: 0 <= side < 6 ==> Sides(m)[side] == Overhang(m, side);
    } else {
      assert BeyondMixture(m, b, weights);
    }
  }

  /** `inverse` takes back what `m` does. */
  ghost predicate Inverts(inverse: Mat4, m: Mat4) { forall v :: MultiplyVector(inverse, MultiplyVector(m, v)) == v }

  lemma NothingFromZero(m: Mat4)
    ensures MultiplyVector(m, Vec4(0.0, 0.0, 0.0, 0.0)) == Vec4(0.0, 0.0, 0.0, 0.0)
  {
  }

  lemma HomogeneousIsProduct(m: Mat4, p: Vec3)
    ensures Homogeneous(m, p) == MultiplyVector(m, Vec4(p.x, p.y, p.z, 1.0))
  {
  }

  lemma InvertibleIsNowhereZero(m: Mat4, inverse: Mat4, p: Vec3)
    requires Inverts(inverse, m)
    ensures Homogeneous(m, p) != Vec4(0.0, 0.0, 0.0, 0.0)
  {
    hide MultiplyVector, Homogeneous;
    HomogeneousIsProduct(m, p);
    NothingFromZero(inverse);
    var v := Vec4(p.x, p.y, p.z, 1.0);
    assert MultiplyVector(inverse, MultiplyVector(m, v)) == v;
  }

  /** For a matrix with an inverse: nothing of the box is in view exactly if some mixture of the
      six sides has all its corners beyond. */
  lemma HiddenExactly(m: Mat4, inverse: Mat4, b: Box)
    requires b.Ordered() && Inverts(inverse, m)
    ensures (forall p: Vec3 :: b.Contains(p) ==> !InView(m, p)) <==> exists weights :: BeyondMixture(m, b, weights)
  {
    hide InView, Inverts, BeyondMixture, Box.Contains, Homogeneous;
    OutOfViewExactly(m, b);
    forall p: Vec3
      ensures Homogeneous(m, p) != Vec4(0.0, 0.0, 0.0, 0.0)
    {
      InvertibleIsNowhereZero(m, inverse, p);
    }
  }

  lemma SomeCorner(b: Box)
    ensures exists q :: q in CornerList(b)
  {
    assert CornerList(b)[0] in CornerList(b);
  }

  const SLAB := Box(Vec3(0.0, 0.0, 0.0), Vec3(0.0, 0.0, 1.0))
  const SLANT := Mat4(Vec4(0.0, 0.0, 1.0, 0.0), Vec4(0.0, 1.0, 0.0, 0.0),
                      Vec4(-13.0, 10.0, 0.0, -2.0), Vec4(3.0, 0.0, 0.25, 1.0))

  lemma SlabCorners()
    ensures SLAB.Ordered()
    ensures forall q :: q in CornerList(SLAB) <==> q == SLAB.minExtent || q == SLAB.maxExtent
  {
    assert CornerList(SLAB)[0] == SLAB.minExtent && CornerList(SLAB)[1] == SLAB.maxExtent;
  }

  lemma SlabImages()
    ensures Homogeneous(SLANT, SLAB.minExtent) == Vec4(3.0, 0.0, 0.25, 1.0)
    ensures Homogeneous(SLANT, SLAB.maxExtent) == Vec4(-10.0, 10.0, 0.25, -1.0)
  {
  }

  lemma Divided(m: Mat4, p: Vec3, h: Vec4)
    requires Homogeneous(m, p) == h && (h.w == 1.0 || h.w == -1.0)
    ensures TransformPoint(m, p) == Vec3(h.x * h.w, h.y * h.w, h.z * h.w)
  {
    hide Homogeneous;
  }

  /** So the corners of a culled box need not be farther out in front than behind: this box is
      culled for side 0 alone, but what leaves that side in front of the eye is beyond side 2. */
  lemma HiddenByTwoSides()
    ensures Mapped(SLANT, SLAB) && SLAB.Ordered()
    ensures forall side :: 0 <= side < 6 ==> (AllBeyond(SLANT, SLAB, side) <==> side == 0)
    ensures !FrontFarther(SLANT, SLAB, 0) && OutOfView(SLANT, SLAB)
  {
    hide CornerList, Homogeneous, TransformPoint, OutOfView, Overhang, Mixture, Affine.At, Box.Ordered;
    SlabCorners();
    SlabImages();
    Divided(SLANT, SLAB.minExtent, Vec4(3.0, 0.0, 0.25, 1.0));
    Divided(SLANT, SLAB.maxExtent, Vec4(-10.0, 10.0, 0.25, -1.0));
    FirstAndThird(SLANT, SLAB.minExtent);
    FirstAndThird(SLANT, SLAB.maxExtent);
    assert BeyondMixture(SLANT, SLAB, [1.0, 0.0, 1.0, 0.0, 0.0, 0.0]);
    OutOfViewExactly(SLANT, SLAB);
  }

  lemma FirstAndThird(m: Mat4, p: Vec3)
    ensures var h := Homogeneous(m, p);
      Mixture([1.0, 0.0, 1.0, 0.0, 0.0, 0.0], Sides(m)).At(p) == h.x - h.w + (h.y - h.w)
  {
    hide Affine.At, Mixture, Overhang, Homogeneous;
    var weights, fs := [1.0, 0.0, 1.0, 0.0, 0.0, 0.0], Sides(m);
    OverhangAt(m, p);
    MixturePrefix(weights, fs, 6, p);
    MixturePrefix(weights, fs, 5, p);
    MixturePrefix(weights, fs, 4, p);
    MixturePrefix(weights, fs, 3, p);
    MixturePrefix(weights, fs, 2, p);
    MixturePrefix(weights, fs, 1, p);
    EmptyMixture(p);
    assert weights[..6] == weights && fs[..6] == fs && weights[..0] == [] && fs[..0] == [];
  }

  lemma MixturePrefix(weights: seq<real>, fs: seq<Affine>, n: nat, p: Vec3)
    requires 0 < n <= |weights| == |fs|
    ensures Mixture(weights[..n], fs[..n]).At(p)
         == Mixture(weights[..n - 1], fs[..n - 1]).At(p) + weights[n - 1] * fs[n - 1].At(p)
  {
    hide Affine.At, Mixture;
    var ws, gs := weights[..n], fs[..n];
    assert ws[..n - 1] == weights[..n - 1] && gs[..n - 1] == fs[..n - 1];
    assert ws[n - 1] == weights[n - 1] && gs[n - 1] == fs[n - 1];
    MixtureAt(ws, gs, p);
    MulBoth(ws[n - 1], weights[n - 1], fs[n - 1].At(p));
  }
}
