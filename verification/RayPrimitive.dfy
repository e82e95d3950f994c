/** The nearest triangle of a primitive that a ray meets. */
module RayPrimitives {
  import opened RealMath
  import opened Geometry
  import opened RayTriangles
  import opened Wireframes

  const CULL_CW := 1
  const CULL_CCW := 2

  datatype Triangle = Triangle(a: Vec3, b: Vec3, c: Vec3) {
    /** The same triangle with `start` moved to the origin. */
    function From(start: Vec3): Triangle { Triangle(Minus(a, start), Minus(b, start), Minus(c, start)) }

    function Volume(): real { Det(a, b, c) }
  }

  /** Point `p` is the convex combination of the vertices with these weights. */
  ghost predicate Weighs(t: Triangle, p: Vec3, w0: real, w1: real, w2: real) {
    && w0 >= 0.0 && w1 >= 0.0 && w2 >= 0.0 && w0 + w1 + w2 == 1.0
    && p == Blend(w0, t.a, w1, t.b, w2, t.c)
  }

  /** The ray is in the triangle at time `s` after its start. */
  ghost predicate MeetsAt(t: Triangle, start: Vec3, end: Vec3, s: real) {
    s > 0.0 && exists w0, w1, w2 :: Weighs(t, Along(start, end, s), w0, w1, w2)
  }

  /** The same, away from all three sides. */
  ghost predicate PiercesAt(t: Triangle, start: Vec3, end: Vec3, s: real) {
    && s > 0.0
    && exists w0, w1, w2 :: Weighs(t, Along(start, end, s), w0, w1, w2) && w0 > 0.0 && w1 > 0.0 && w2 > 0.0
  }

  // ----------------------------------------------------------------- moving the origin

  lemma ShiftCoordinate(w0: real, w1: real, w2: real, a: real, b: real, c: real, p: real, q: real)
    requires w0 + w1 + w2 == 1.0
    ensures w0 * (a - p) + w1 * (b - p) + w2 * (c - p) == w0 * a + w1 * b + w2 * c - p
  {
    MulBoth(w0 + w1 + w2, 1.0, p);
  }

  lemma ShiftedMeets(t: Triangle, start: Vec3, end: Vec3, s: real, w0: real, w1: real, w2: real)
    ensures var f := t.From(start);
      Meets(f.a, f.b, f.c, Minus(end, start), s, w0, w1, w2) <==> s > 0.0 && Weighs(t, Along(start, end, s), w0, w1, w2)
  {
    if w0 + w1 + w2 == 1.0 {
      ShiftCoordinate(w0, w1, w2, t.a.x, t.b.x, t.c.x, start.x, 0.0);
      ShiftCoordinate(w0, w1, w2, t.a.y, t.b.y, t.c.y, start.y, 0.0);
      ShiftCoordinate(w0, w1, w2, t.a.z, t.b.z, t.c.z, start.z, 0.0);
      var p := Along(start, end, s);
      assert p.At(0) == AlongAxis(start, end, s, 0) && p.At(1) == AlongAxis(start, end, s, 1);
      assert p.At(2) == AlongAxis(start, end, s, 2);
    }
  }

  function CoefficientsIn(t: Triangle, start: Vec3, end: Vec3): Coefficients
    requires t.From(start).Volume() != 0.0
  {
    var f := t.From(start);
    CoefficientsOf(f.a, f.b, f.c, Minus(end, start))
  }

  predicate StrikesIn(t: Triangle, start: Vec3, end: Vec3)
    requires t.From(start).Volume() != 0.0
  {
    CoefficientsIn(t, start, end).Strikes()
  }

  function Time(t: Triangle, start: Vec3, end: Vec3): real
    requires t.From(start).Volume() != 0.0 && StrikesIn(t, start, end)
  {
    1.0 / CoefficientsIn(t, start, end).Norm()
  }

  /** Seen from outside its plane, a triangle is met exactly when the coefficients are
      in the first octant, and then at one time only. */
  lemma MeetingTime(t: Triangle, start: Vec3, end: Vec3)
    requires t.From(start).Volume() != 0.0
    ensures StrikesIn(t, start, end) ==> MeetsAt(t, start, end, Time(t, start, end))
    ensures forall s :: MeetsAt(t, start, end, s) ==> StrikesIn(t, start, end) && s == Time(t, start, end)
  {
    var f, dir := t.From(start), Minus(end, start);
    hide CoefficientsOf, Det, Minus, Along, Meets, Weighs, Coefficients.Strikes, Coefficients.Norm;
    if StrikesIn(t, start, end) {
      StrikeMeets(f.a, f.b, f.c, dir);
      var k := CoefficientsIn(t, start, end);
      NormalizedWeights(k);
      ShiftedMeets(t, start, end, 1.0 / k.Norm(), k.v0 / k.Norm(), k.v1 / k.Norm(), k.v2 / k.Norm());
    }
    forall s | MeetsAt(t, start, end, s)
      ensures StrikesIn(t, start, end) && s == Time(t, start, end)
    {
      var w0, w1, w2 :| Weighs(t, Along(start, end, s), w0, w1, w2);
      ShiftedMeets(t, start, end, s, w0, w1, w2);
      MeetingStrikes(f.a, f.b, f.c, dir, s, w0, w1, w2);
    }
  }

  // -------------------------------------------------------------------- the start inside

  /** The start is in the triangle, away from all three sides. */
  ghost predicate StartsInside(t: Triangle, start: Vec3) {
    exists w0, w1, w2 :: Weighs(t, start, w0, w1, w2) && w0 > 0.0 && w1 > 0.0 && w2 > 0.0
  }

  /** The case in which the code divides three numbers of one sign by zero. */
  predicate Overflows(t: Triangle, start: Vec3, end: Vec3) {
    var f, dir := t.From(start), Minus(end, start);
    && f.Volume() == 0.0
    && OneSign(Minor0(f.a, f.b, f.c, dir), Minor1(f.a, f.b, f.c, dir), Minor2(f.a, f.b, f.c, dir))
  }

  lemma ShiftedWeighs(t: Triangle, start: Vec3, w0: real, w1: real, w2: real)
    requires w0 >= 0.0 && w1 >= 0.0 && w2 >= 0.0 && w0 + w1 + w2 == 1.0
    ensures var f := t.From(start);
      Weighs(t, start, w0, w1, w2) <==> Blend(w0, f.a, w1, f.b, w2, f.c) == Vec3(0.0, 0.0, 0.0)
  {
    ShiftCoordinate(w0, w1, w2, t.a.x, t.b.x, t.c.x, start.x, 0.0);
    ShiftCoordinate(w0, w1, w2, t.a.y, t.b.y, t.c.y, start.y, 0.0);
    ShiftCoordinate(w0, w1, w2, t.a.z, t.b.z, t.c.z, start.z, 0.0);
  }

  /** That happens exactly to a triangle with the start inside it and a direction that leaves
      its plane. */
  lemma OverflowsInside(t: Triangle, start: Vec3, end: Vec3)
    ensures var f, dir := t.From(start), Minus(end, start);
      Overflows(t, start, end) <==> StartsInside(t, start) && Minor0(f.a, f.b, f.c, dir) != 0.0
  {
    var f, dir := t.From(start), Minus(end, start);
    hide Minus, Triangle.From, Weighs, Blend, Det, Minor0, Minor1, Minor2;
    if Overflows(t, start, end) {
      var n0, n1, n2 := Minor0(f.a, f.b, f.c, dir), Minor1(f.a, f.b, f.c, dir), Minor2(f.a, f.b, f.c, dir);
      var n := n0 + n1 + n2;
      OneSignIsInside(f.a, f.b, f.c, dir);
      ShiftedWeighs(t, start, n0 / n, n1 / n, n2 / n);
    }
    if StartsInside(t, start) {
      var w0, w1, w2 :| Weighs(t, start, w0, w1, w2) && w0 > 0.0 && w1 > 0.0 && w2 > 0.0;
      WeightsAddUp(t, start, w0, w1, w2);
      ShiftedWeighs(t, start, w0, w1, w2);
      InsideIsOneSign(f.a, f.b, f.c, dir, w0, w1, w2);
    }
  }

  lemma WeightsAddUp(t: Triangle, p: Vec3, w0: real, w1: real, w2: real)
    requires Weighs(t, p, w0, w1, w2)
    ensures w0 + w1 + w2 == 1.0
  {
  }

  // -------------------------------------------------------------------------- filtering

  /** All vertices on one side of a plane that contains the ray. */
  predicate Sided(t: Triangle, start: Vec3, end: Vec3) {
    var f, dir := t.From(start), Minus(end, start);
    OneSided(NormalU(dir), f.a, f.b, f.c) || OneSided(NormalV(dir), f.a, f.b, f.c)
  }

  predicate Culled(cull: int, volume: real) { (cull == CULL_CW && volume < 0.0) || (cull == CULL_CCW && volume > 0.0) }

  /** The triangle is looked at: neither filtered out nor culled. */
  predicate Tried(t: Triangle, cull: int, start: Vec3, end: Vec3) {
    !Sided(t, start, end) && !Culled(cull, t.From(start).Volume())
  }

  lemma ZeroNormal(a: Vec3, b: Vec3, c: Vec3)
    ensures OneSided(Vec3(0.0, 0.0, 0.0), a, b, c)
  {
    assert Dot3(Vec3(0.0, 0.0, 0.0), a) == 0.0;
    assert Dot3(Vec3(0.0, 0.0, 0.0), b) == 0.0;
    assert Dot3(Vec3(0.0, 0.0, 0.0), c) == 0.0;
    hide Dot3;
  }

  lemma NormalOfZero(d: Vec3)
    requires !Nonzero(d)
    ensures NormalU(d) == Vec3(0.0, 0.0, 0.0)
  {
    hide Square;
  }

  lemma UnsidedHasDirection(t: Triangle, start: Vec3, end: Vec3)
    requires !Sided(t, start, end)
    ensures Nonzero(Minus(end, start))
  {
    hide OneSided, NormalU, NormalV, Minus, Nonzero;
    var f, dir := t.From(start), Minus(end, start);
    if !Nonzero(dir) {
      NormalOfZero(dir);
      ZeroNormal(f.a, f.b, f.c);
    }
  }

  /** The filter never discards a triangle whose strict interior the ray meets. */
  lemma PiercedIsNotSided(t: Triangle, start: Vec3, end: Vec3, s: real)
    requires t.From(start).Volume() != 0.0 && Nonzero(Minus(end, start)) && PiercesAt(t, start, end, s)
    ensures !Sided(t, start, end) && MeetsAt(t, start, end, s)
  {
    var f, dir := t.From(start), Minus(end, start);
    hide Det, Minus, Along, Meets, Weighs, OneSided, NormalU, NormalV, Nonzero;
    var w0, w1, w2 :| Weighs(t, Along(start, end, s), w0, w1, w2) && w0 > 0.0 && w1 > 0.0 && w2 > 0.0;
    ShiftedMeets(t, start, end, s, w0, w1, w2);
    NormalsAreNormal(dir);
    InteriorIsNotOneSided(f.a, f.b, f.c, dir, s, w0, w1, w2, NormalU(dir));
    InteriorIsNotOneSided(f.a, f.b, f.c, dir, s, w0, w1, w2, NormalV(dir));
  }

  /** No vertex lies strictly above the plane through the start. */
  predicate NoneAbove(u: Vec3, f: Triangle) { Dot3(u, f.a) <= 0.0 && Dot3(u, f.b) <= 0.0 && Dot3(u, f.c) <= 0.0 }

  /** A triangle that is met is filtered out exactly when, for one of the two planes, no
      vertex lies strictly above it: it then touches that plane from below. */
  lemma MetIsSided(t: Triangle, start: Vec3, end: Vec3, s: real)
    requires MeetsAt(t, start, end, s) && Nonzero(Minus(end, start))
    ensures var f, dir := t.From(start), Minus(end, start);
      Sided(t, start, end) <==> NoneAbove(NormalU(dir), f) || NoneAbove(NormalV(dir), f)
  {
    var f, dir := t.From(start), Minus(end, start);
    hide Minus, Along, Meets, Weighs, NormalU, NormalV, Nonzero, OneSided, NoneAbove, Triangle.From;
    var w0, w1, w2 :| Weighs(t, Along(start, end, s), w0, w1, w2);
    ShiftedMeets(t, start, end, s, w0, w1, w2);
    NormalsAreNormal(dir);
    OneSidedMeeting(f, dir, s, w0, w1, w2, NormalU(dir));
    OneSidedMeeting(f, dir, s, w0, w1, w2, NormalV(dir));
  }

  lemma OneSidedMeeting(f: Triangle, dir: Vec3, s: real, w0: real, w1: real, w2: real, u: Vec3)
    requires Meets(f.a, f.b, f.c, dir, s, w0, w1, w2) && Dot3(u, dir) == 0.0
    ensures OneSided(u, f.a, f.b, f.c) <==> NoneAbove(u, f)
  {
    DotBlend(u, w0, f.a, w1, f.b, w2, f.c);
    DotScale(u, s, dir);
    WeightedZero(w0, w1, w2, Dot3(u, f.a), Dot3(u, f.b), Dot3(u, f.c));
    hide Dot3, Blend, Scale;
  }

  lemma WeightedZero(w0: real, w1: real, w2: real, x: real, y: real, z: real)
    ensures w0 >= 0.0 && w1 >= 0.0 && w2 >= 0.0 && w0 + w1 + w2 == 1.0 && w0 * x + w1 * y + w2 * z == 0.0 ==>
              !(x > 0.0 && y > 0.0 && z > 0.0)
  {
    if w0 >= 0.0 && w1 >= 0.0 && w2 >= 0.0 && w0 + w1 + w2 == 1.0 && x > 0.0 && y > 0.0 && z > 0.0 {
      WeightedPositive(w0, x);
      WeightedPositive(w1, y);
      WeightedPositive(w2, z);
    }
  }

  lemma WeightedPositive(w: real, x: real)
    requires w >= 0.0 && x > 0.0
    ensures w * x >= 0.0 && (w > 0.0 ==> w * x > 0.0)
  {
  }

  /** A ray that meets only the rim can be filtered out: here it runs into a vertex. */
  lemma RimCanBeFiltered()
    ensures var t, start, end := Triangle(Vec3(0.0, 0.0, 1.0), Vec3(1.0, 0.0, 1.0), Vec3(0.0, 1.0, 1.0)),
              Vec3(0.0, 0.0, 0.0), Vec3(0.0, 0.0, 1.0);
      t.From(start).Volume() == 1.0 && MeetsAt(t, start, end, 1.0) && Sided(t, start, end)
  {
    hide *;
    var t, start, end := Triangle(Vec3(0.0, 0.0, 1.0), Vec3(1.0, 0.0, 1.0), Vec3(0.0, 1.0, 1.0)),
      Vec3(0.0, 0.0, 0.0), Vec3(0.0, 0.0, 1.0);
    UpwardRay(end);
    UpwardTriangle(t, start);
    FirstVertex(t, start, end);
    UpwardSided(t, start, end);
  }

  lemma UpwardRay(up: Vec3)
    requires up == Vec3(0.0, 0.0, 1.0)
    ensures NormalU(up) == Vec3(-1.0, 0.0, 0.0)
  {
    assert Square(0.0) == 0.0 && Square(1.0) == 1.0;
    hide Square;
  }

  lemma UpwardDeterminant(a: Vec3, b: Vec3, c: Vec3)
    requires a == Vec3(0.0, 0.0, 1.0) && b.z == 1.0 && c.z == 1.0
    ensures Det(a, b, c) == Cofactor(b.x, b.y, c.x, c.y)
  {
  }

  lemma UnitCofactor()
    ensures Cofactor(1.0, 0.0, 0.0, 1.0) == 1.0
  {
  }

  lemma Leftward(v: Vec3)
    ensures Dot3(Vec3(-1.0, 0.0, 0.0), v) == -v.x
  {
  }

  function Cofactor(bx: real, b_y: real, cx: real, cy: real): real { bx * cy - cx * b_y }

  lemma UpwardTriangle(t: Triangle, start: Vec3)
    requires t == Triangle(Vec3(0.0, 0.0, 1.0), Vec3(1.0, 0.0, 1.0), Vec3(0.0, 1.0, 1.0))
    requires start == Vec3(0.0, 0.0, 0.0)
    ensures t.From(start) == t && t.Volume() == 1.0
    ensures Dot3(Vec3(-1.0, 0.0, 0.0), t.a) == 0.0
    ensures Dot3(Vec3(-1.0, 0.0, 0.0), t.b) == -1.0
    ensures Dot3(Vec3(-1.0, 0.0, 0.0), t.c) == 0.0
  {
    hide Det, Cofactor, Dot3;
    UpwardDeterminant(t.a, t.b, t.c);
    UnitCofactor();
    Leftward(t.a);
    Leftward(t.b);
    Leftward(t.c);
  }

  lemma UpwardSided(t: Triangle, start: Vec3, end: Vec3)
    requires t.From(start) == t && Minus(end, start) == end && NormalU(end) == Vec3(-1.0, 0.0, 0.0)
    requires Dot3(Vec3(-1.0, 0.0, 0.0), t.a) <= 0.0 && Dot3(Vec3(-1.0, 0.0, 0.0), t.b) <= 0.0
    requires Dot3(Vec3(-1.0, 0.0, 0.0), t.c) <= 0.0
    ensures Sided(t, start, end)
  {
    hide Dot3, NormalU, NormalV, Minus, Triangle.From;
  }

  lemma FirstVertex(t: Triangle, start: Vec3, end: Vec3)
    requires start == Vec3(0.0, 0.0, 0.0) && end == t.a
    ensures MeetsAt(t, start, end, 1.0) && Minus(end, start) == end
  {
    assert Along(start, end, 1.0) == t.a;
    assert Blend(1.0, t.a, 0.0, t.b, 0.0, t.c) == t.a;
    hide Blend, Along;
    assert Weighs(t, Along(start, end, 1.0), 1.0, 0.0, 0.0);
  }

  // ------------------------------------------------------------------- the primitive

  /** A primitive: its kind, its index buffer if any, and its points, three numbers each. */
  datatype Mesh = Mesh(kind: int, indexBuffer: IndexBuffer, elements: seq<real>) {
    function NumPoints(): nat { |elements| / 3 }

    function NumIndices(): nat { if indexBuffer.Some? then |indexBuffer.value| else NumPoints() }

    function NumTriangles(): nat {
      if kind != TRIANGLESTRIP && kind != TRIANGLEFAN then NumIndices() / 3
      else if NumIndices() < 2 then 0
      else NumIndices() - 2
    }

    predicate Valid() {
      indexBuffer.Some? ==> forall k :: 0 <= k < NumIndices() ==> 0 <= indexBuffer.value[k] < NumPoints()
    }

    function PointAt(i: nat): Vec3
      requires i < NumPoints()
    {
      FromSeq(elements[3 * i..3 * i + 3])
    }

    function TriangleAt(n: nat): Triangle
      requires Valid() && n < NumTriangles()
    {
      var t := TriangleIndices(kind, indexBuffer, n);
      Triangle(PointAt(t.0), PointAt(t.1), PointAt(t.2))
    }

    /** No triangle that is looked at has the start of the ray inside it. */
    ghost predicate Clear(start: Vec3, end: Vec3)
      requires Valid()
    {
      forall n :: 0 <= n < NumTriangles() && !Sided(TriangleAt(n), start, end) ==> !Overflows(TriangleAt(n), start, end)
    }
  }

  datatype TriangleHit = TriangleHit(intersected: bool, position: Vec3, primitiveIndex: int)

  /** The ray meets triangle `n` at time `s`, and the triangle is looked at. One whose plane
      holds the start does not count, even if the ray runs along it. */
  ghost predicate HitAt(m: Mesh, cull: int, start: Vec3, end: Vec3, n: int, s: real)
    requires m.Valid()
  {
    && 0 <= n < m.NumTriangles()
    && Tried(m.TriangleAt(n), cull, start, end)
    && m.TriangleAt(n).From(start).Volume() != 0.0
    && MeetsAt(m.TriangleAt(n), start, end, s)
  }

  /** The same in computed terms. */
  predicate Strikes(m: Mesh, cull: int, start: Vec3, end: Vec3, n: nat)
    requires m.Valid() && n < m.NumTriangles()
  {
    && Tried(m.TriangleAt(n), cull, start, end)
    && m.TriangleAt(n).From(start).Volume() != 0.0
    && StrikesIn(m.TriangleAt(n), start, end)
  }

  function StrikeTime(m: Mesh, cull: int, start: Vec3, end: Vec3, n: nat): real
    requires m.Valid() && n < m.NumTriangles() && Strikes(m, cull, start, end, n)
  {
    Time(m.TriangleAt(n), start, end)
  }

  lemma HitsAreStrikes(m: Mesh, cull: int, start: Vec3, end: Vec3, n: nat)
    requires m.Valid() && n < m.NumTriangles()
    ensures Strikes(m, cull, start, end, n) ==> HitAt(m, cull, start, end, n, StrikeTime(m, cull, start, end, n))
    ensures forall s :: HitAt(m, cull, start, end, n, s) ==>
                          Strikes(m, cull, start, end, n) && s == StrikeTime(m, cull, start, end, n)
  {
    var t := m.TriangleAt(n);
    hide StrikesIn, Time, MeetsAt, Sided, Culled, Triangle.From, Triangle.Volume;
    hide Mesh.TriangleAt, Mesh.NumTriangles, Mesh.Valid;
    if t.From(start).Volume() != 0.0 {
      MeetingTime(t, start, end);
    }
  }

  // ------------------------------------------------------------------- the distance

  function LengthSquared(p: Vec3): real { Square(p.x) + Square(p.y) + Square(p.z) }

  lemma SquareOfProduct(s: real, x: real)
    ensures Square(s * x) == Times(Square(s), Square(x))
  {
  }

  lemma TimesSum(k: real, x: real, y: real, z: real)
    ensures Times(k, x + y + z) == Times(k, x) + Times(k, y) + Times(k, z)
  {
  }

  lemma LengthOfScaled(s: real, d: Vec3)
    ensures LengthSquared(Scale(s, d)) == Times(Square(s), LengthSquared(d))
  {
    SquareOfProduct(s, d.x);
    SquareOfProduct(s, d.y);
    SquareOfProduct(s, d.z);
    assert Scale(s, d) == Vec3(s * d.x, s * d.y, s * d.z);
    hide Square, Times, Scale;
    TimesSum(Square(s), Square(d.x), Square(d.y), Square(d.z));
  }

  lemma SquareIncreases(s: real, r: real)
    requires 0.0 < s < r
    ensures Square(s) < Square(r)
  {
    MulStrict(s, r, s);
    MulStrict(s, r, r);
    assert Square(s) == s * s && Square(r) == r * r;
  }

  lemma TimesIncreases(x: real, y: real, k: real)
    requires x < y && k > 0.0
    ensures Times(x, k) < Times(y, k)
  {
    MulStrict(x, y, k);
  }

  /** On one ray, squared distances from the start are ordered like times. */
  lemma DistanceIncreases(s: real, r: real, d: Vec3)
    requires 0.0 < s < r && Nonzero(d)
    ensures LengthSquared(Scale(s, d)) < LengthSquared(Scale(r, d))
  {
    LengthOfScaled(s, d);
    LengthOfScaled(r, d);
    SquareIncreases(s, r);
    SquarePositive(d.x);
    SquarePositive(d.y);
    SquarePositive(d.z);
    hide Square, Times, Scale;
    TimesIncreases(Square(s), Square(r), LengthSquared(d));
  }

  // ---------------------------------------------------------------------- the methods

  lemma DotFrom(u: Vec3, p: Vec3, start: Vec3)
    ensures Dot3(u, Minus(p, start)) == Dot3(u, p) - Dot3(u, start)
  {
    var d := Minus(p, start);
    MulBoth(d.x, p.x - start.x, u.x);
    MulBoth(d.y, p.y - start.y, u.y);
    MulBoth(d.z, p.z - start.z, u.z);
  }

  /** Whether the triangle is off to one side of the ray. */
  method CheckSides(t: Triangle, start: Vec3, u: Vec3, v: Vec3) returns (skip: bool)
    ensures var f := t.From(start); skip == (OneSided(u, f.a, f.b, f.c) || OneSided(v, f.a, f.b, f.c))
  {
    var udotstart, vdotstart := Dot3(u, start), Dot3(v, start);
    var uSides, vSides := [false, false, false], [false, false, false];
    var vertices := [t.a, t.b, t.c];
    hide Dot3, Minus;
    for j := 0 to 3
      invariant |uSides| == |vSides| == 3
      invariant forall i :: 0 <= i < j ==> uSides[i] == (Dot3(u, Minus(vertices[i], start)) > 0.0)
      invariant forall i :: 0 <= i < j ==> vSides[i] == (Dot3(v, Minus(vertices[i], start)) > 0.0)
    {
      var r := vertices[j];
      DotFrom(u, r, start);
      DotFrom(v, r, start);
      uSides := uSides[j := Dot3(u, r) - udotstart > 0.0];
      vSides := vSides[j := Dot3(v, r) - vdotstart > 0.0];
    }
    skip := (uSides[0] == uSides[1] && uSides[0] == uSides[2]) || (vSides[0] == vSides[1] && vSides[0] == vSides[2]);
  }

  /** The minors in the order the code multiplies them out. */
  lemma MinorsAsComputed(a: Vec3, b: Vec3, c: Vec3, d: Vec3, t00: real, t10: real, t20: real, n0: real, n1: real,
                         n2: real)
    requires t00 == b.y * c.z - b.z * c.y && t10 == a.y * c.z - a.z * c.y && t20 == a.y * b.z - a.z * b.y
    requires n0 == t00 * d.x - (b.x * c.z - b.z * c.x) * d.y + (b.x * c.y - b.y * c.x) * d.z
    requires n1 == -t10 * d.x + (a.x * c.z - a.z * c.x) * d.y - (a.x * c.y - a.y * c.x) * d.z
    requires n2 == t20 * d.x - (a.x * b.z - a.z * b.x) * d.y + (a.x * b.y - a.y * b.x) * d.z
    ensures n0 == Minor0(a, b, c, d) && n1 == Minor1(a, b, c, d) && n2 == Minor2(a, b, c, d)
    ensures a.x * t00 - b.x * t10 + c.x * t20 == Det(a, b, c)
  {
    TripleExpands(b, c, d);
    TripleExpands(c, a, d);
    TripleExpands(a, b, d);
    hide Dot3, Cross;
    Regrouped(a.x, a.y, a.z, b.x, b.y, b.z, d.x, d.y, d.z);
    Regrouped(b.x, b.y, b.z, c.x, c.y, c.z, d.x, d.y, d.z);
    Turned(a.x, a.y, a.z, c.x, c.y, c.z, d.x, d.y, d.z);
  }

  lemma Regrouped(px: real, py: real, pz: real, qx: real, qy: real, qz: real, x: real, y: real, z: real)
    ensures (py * qz - pz * qy) * x + (pz * qx - px * qz) * y + (px * qy - py * qx) * z
         == (py * qz - pz * qy) * x - (px * qz - pz * qx) * y + (px * qy - py * qx) * z
  {
  }

  lemma Turned(px: real, py: real, pz: real, qx: real, qy: real, qz: real, x: real, y: real, z: real)
    ensures (qy * pz - qz * py) * x + (qz * px - qx * pz) * y + (qx * py - qy * px) * z
         == -(py * qz - pz * qy) * x + (px * qz - pz * qx) * y - (px * qy - py * qx) * z
  {
  }

  /** A quotient, when the divisor may be zero. */
  datatype Quotient = Finite(value: real) | Infinite(positive: bool) | NotANumber {
    predicate AtLeastZero() { (Finite? && value >= 0.0) || (Infinite? && positive) }
  }

  /** `n / d`; `minus` is the sign of a zero divisor. */
  function Divide(n: real, d: real, minus: bool): Quotient {
    if d != 0.0 then Finite(n / d)
    else if n == 0.0 then NotANumber
    else Infinite((n > 0.0) != minus)
  }

  lemma InfiniteQuotients(n0: real, n1: real, n2: real, minus: bool)
    requires !OneSign(n0, n1, n2)
    ensures var q0, q1, q2 := Divide(n0, 0.0, minus), Divide(n1, 0.0, minus), Divide(n2, 0.0, minus);
      !(q0.AtLeastZero() && q1.AtLeastZero() && q2.AtLeastZero())
  {
  }

  /** The direction, transformed by the inverse of the matrix with these rows. */
  method TransformDirection(a: Vec3, b: Vec3, c: Vec3, dir: Vec3, minus: bool)
    returns (q0: Quotient, q1: Quotient, q2: Quotient)
    ensures var d := Det(a, b, c);
      && q0 == Divide(Minor0(a, b, c, dir), d, minus)
      && q1 == Divide(Minor1(a, b, c, dir), d, minus)
      && q2 == Divide(Minor2(a, b, c, dir), d, minus)
  {
    hide Det, Minor0, Minor1, Minor2, Divide;
    var x, y, z := dir.x, dir.y, dir.z;
    var t00, t10, t20 := b.y * c.z - b.z * c.y, a.y * c.z - a.z * c.y, a.y * b.z - a.z * b.y;
    var d := a.x * t00 - b.x * t10 + c.x * t20;
    var n0 := t00 * x - (b.x * c.z - b.z * c.x) * y + (b.x * c.y - b.y * c.x) * z;
    var n1 := -t10 * x + (a.x * c.z - a.z * c.x) * y - (a.x * c.y - a.y * c.x) * z;
    var n2 := t20 * x - (a.x * b.z - a.z * b.x) * y + (a.x * b.y - a.y * b.x) * z;
    MinorsAsComputed(a, b, c, dir, t00, t10, t20, n0, n1, n2);
    q0, q1, q2 := Divide(n0, d, minus), Divide(n1, d, minus), Divide(n2, d, minus);
  }

  lemma BlendAsComputed(a: Vec3, b: Vec3, c: Vec3, v0: real, v1: real, v2: real)
    ensures Vec3(a.x * v0 + b.x * v1 + c.x * v2, a.y * v0 + b.y * v1 + c.y * v2, a.z * v0 + b.z * v1 + c.z * v2)
         == Blend(v0, a, v1, b, v2, c)
  {
  }

  /** Cramer's rule for one triangle seen from the start: whether the ray meets it, and where. */
  method TestTriangle(a: Vec3, b: Vec3, c: Vec3, dir: Vec3, minus: bool) returns (strikes: bool, p: Vec3)
    requires Det(a, b, c) == 0.0 ==> !OneSign(Minor0(a, b, c, dir), Minor1(a, b, c, dir), Minor2(a, b, c, dir))
    ensures strikes == (Det(a, b, c) != 0.0 && CoefficientsOf(a, b, c, dir).Strikes())
    ensures strikes ==> p == Scale(1.0 / CoefficientsOf(a, b, c, dir).Norm(), dir)
  {
    hide Det, Minor0, Minor1, Minor2;
    var q0, q1, q2 := TransformDirection(a, b, c, dir, minus);
    p := Vec3(0.0, 0.0, 0.0);
    strikes := false;
    if q0.AtLeastZero() && q1.AtLeastZero() && q2.AtLeastZero() {
      if Det(a, b, c) == 0.0 {
        InfiniteQuotients(Minor0(a, b, c, dir), Minor1(a, b, c, dir), Minor2(a, b, c, dir), minus);
        assert false;
      }
      var v0, v1, v2 := q0.value, q1.value, q2.value;
      var oneNorm := v0 + v1 + v2;
      if oneNorm > 0.0 {
        StrikeMeets(a, b, c, dir);
        v0, v1, v2 := v0 / oneNorm, v1 / oneNorm, v2 / oneNorm;
        hide Scale, Blend;
        BlendAsComputed(a, b, c, v0, v1, v2);
        p := Vec3(a.x * v0 + b.x * v1 + c.x * v2, a.y * v0 + b.y * v1 + c.y * v2, a.z * v0 + b.z * v1 + c.z * v2);
        strikes := true;
      }
    }
  }

  /** The nearest hit among the first `n` triangles, as kept by the running minimum. */
  ghost predicate NearestOf(result: TriangleHit, minDistance: real, m: Mesh, cull: int, start: Vec3, end: Vec3, n: nat)
    requires m.Valid() && n <= m.NumTriangles()
  {
    && (result.intersected ==>
          && 0 <= result.primitiveIndex < n && Strikes(m, cull, start, end, result.primitiveIndex)
          && var s := StrikeTime(m, cull, start, end, result.primitiveIndex);
             result.position == Along(start, end, s) && minDistance == LengthSquared(Scale(s, Minus(end, start))))
    && (forall k :: 0 <= k < n && Strikes(m, cull, start, end, k) ==>
          && result.intersected
          && StrikeTime(m, cull, start, end, result.primitiveIndex) <= StrikeTime(m, cull, start, end, k))
  }

  lemma NothingYet(result: TriangleHit, minDistance: real, m: Mesh, cull: int, start: Vec3, end: Vec3)
    requires m.Valid() && !result.intersected
    ensures NearestOf(result, minDistance, m, cull, start, end, 0)
  {
  }

  lemma NotStruck(result: TriangleHit, minDistance: real, m: Mesh, cull: int, start: Vec3, end: Vec3, n: nat)
    requires m.Valid() && n < m.NumTriangles()
    requires NearestOf(result, minDistance, m, cull, start, end, n) && !Strikes(m, cull, start, end, n)
    ensures NearestOf(result, minDistance, m, cull, start, end, n + 1)
  {
    hide Mesh.Valid, Mesh.NumTriangles, Strikes, StrikeTime, LengthSquared, Along, Scale, Minus;
  }

  /** Struck again: the nearer hit is kept. */
  lemma StruckAgain(result: TriangleHit, minDistance: real, p: Vec3, m: Mesh, cull: int, start: Vec3, end: Vec3, n: nat)
    requires m.Valid() && n < m.NumTriangles()
    requires NearestOf(result, minDistance, m, cull, start, end, n) && Strikes(m, cull, start, end, n)
    requires p == Scale(StrikeTime(m, cull, start, end, n), Minus(end, start))
    ensures !result.intersected || LengthSquared(p) < minDistance ==>
              NearestOf(TriangleHit(true, Plus(p, start), n), LengthSquared(p), m, cull, start, end, n + 1)
    ensures result.intersected && LengthSquared(p) >= minDistance ==>
              NearestOf(result, minDistance, m, cull, start, end, n + 1)
  {
    hide Mesh.Valid, Mesh.NumTriangles, Strikes, StrikeTime, LengthSquared, Along, Scale, Minus, Plus;
    PointReached(StrikeTime(m, cull, start, end, n), start, end);
    if result.intersected {
      NearerIsSooner(m, cull, start, end, n, result.primitiveIndex);
    }
  }

  lemma NearerIsSooner(m: Mesh, cull: int, start: Vec3, end: Vec3, n: nat, k: nat)
    requires m.Valid() && n < m.NumTriangles() && k < m.NumTriangles()
    requires Strikes(m, cull, start, end, n) && Strikes(m, cull, start, end, k)
    ensures var s, r, dir := StrikeTime(m, cull, start, end, n), StrikeTime(m, cull, start, end, k), Minus(end, start);
      LengthSquared(Scale(s, dir)) < LengthSquared(Scale(r, dir)) <==> s < r
  {
    hide Mesh.Valid, Mesh.NumTriangles, Mesh.TriangleAt, StrikeTime, LengthSquared, Scale, Minus, Nonzero;
    hide Sided, Culled, StrikesIn, Triangle.Volume;
    var s, r, dir := StrikeTime(m, cull, start, end, n), StrikeTime(m, cull, start, end, k), Minus(end, start);
    UnsidedHasDirection(m.TriangleAt(n), start, end);
    HitsAreStrikes(m, cull, start, end, n);
    HitsAreStrikes(m, cull, start, end, k);
    if s < r {
      DistanceIncreases(s, r, dir);
    } else if r < s {
      DistanceIncreases(r, s, dir);
    }
  }

  function Plus(p: Vec3, q: Vec3): Vec3 { Vec3(p.x + q.x, p.y + q.y, p.z + q.z) }

  lemma PointReached(s: real, start: Vec3, end: Vec3)
    ensures Plus(Scale(s, Minus(end, start)), start) == Along(start, end, s)
  {
  }

  /** What the loop has to know about the triangle before it applies Cramer's rule. */
  lemma LookedAt(m: Mesh, cull: int, start: Vec3, end: Vec3, n: nat)
    requires m.Valid() && n < m.NumTriangles()
    ensures var f, dir := m.TriangleAt(n).From(start), Minus(end, start);
      var skip := OneSided(NormalU(dir), f.a, f.b, f.c) || OneSided(NormalV(dir), f.a, f.b, f.c);
      if skip || Culled(cull, Det(f.a, f.b, f.c)) then !Strikes(m, cull, start, end, n)
      else
        && (Strikes(m, cull, start, end, n)
            <==> Det(f.a, f.b, f.c) != 0.0 && CoefficientsOf(f.a, f.b, f.c, dir).Strikes())
        && (Strikes(m, cull, start, end, n) ==>
              CoefficientsOf(f.a, f.b, f.c, dir).Norm() != 0.0
              && StrikeTime(m, cull, start, end, n) == 1.0 / CoefficientsOf(f.a, f.b, f.c, dir).Norm())
  {
    hide Mesh.Valid, Mesh.NumTriangles, Mesh.TriangleAt, Culled, OneSided, NormalU, NormalV, Minus, Det, CoefficientsOf;
  }

  lemma NoOverflow(m: Mesh, start: Vec3, end: Vec3, n: nat)
    requires m.Valid() && m.Clear(start, end) && n < m.NumTriangles()
    ensures var f, dir := m.TriangleAt(n).From(start), Minus(end, start);
      OneSided(NormalU(dir), f.a, f.b, f.c) || OneSided(NormalV(dir), f.a, f.b, f.c)
      || (Det(f.a, f.b, f.c) == 0.0 ==>
            !OneSign(Minor0(f.a, f.b, f.c, dir), Minor1(f.a, f.b, f.c, dir), Minor2(f.a, f.b, f.c, dir)))
  {
    hide Mesh.Valid, Mesh.NumTriangles, Mesh.TriangleAt, OneSided, NormalU, NormalV, Minus, Det, OneSign;
  }

  lemma NearestIsNearestHit(result: TriangleHit, minDistance: real, m: Mesh, cull: int, start: Vec3, end: Vec3)
    requires m.Valid()
    requires NearestOf(result, minDistance, m, cull, start, end, m.NumTriangles())
    ensures result.intersected <==> exists n, s :: HitAt(m, cull, start, end, n, s)
    ensures result.intersected ==> exists s ::
        && HitAt(m, cull, start, end, result.primitiveIndex, s) && result.position == Along(start, end, s)
        && (forall n, r :: HitAt(m, cull, start, end, n, r) ==> s <= r)
  {
    forall n, s | HitAt(m, cull, start, end, n, s)
      ensures result.intersected && StrikeTime(m, cull, start, end, result.primitiveIndex) <= s
    {
      HitsAreStrikes(m, cull, start, end, n);
    }
    if result.intersected {
      HitsAreStrikes(m, cull, start, end, result.primitiveIndex);
    }
  }

  /** Intersects the ray with every triangle that is neither filtered out nor culled, and
      reports the nearest hit. */
  method IntersectRay(m: Mesh, cull: int, start: Vec3, end: Vec3) returns (result: TriangleHit)
    requires m.Valid() && m.Clear(start, end)
    ensures result.intersected <==> exists n, s :: HitAt(m, cull, start, end, n, s)
    ensures result.intersected ==> exists s ::
        && HitAt(m, cull, start, end, result.primitiveIndex, s) && result.position == Along(start, end, s)
        && (forall n, r :: HitAt(m, cull, start, end, n, r) ==> s <= r)
  {
    hide *;
    result := TriangleHit(false, Vec3(0.0, 0.0, 0.0), -1);
    var direction := Minus(end, start);
    var u, v := NormalU(direction), NormalV(direction);
    var minDistance := 0.0;
    NothingYet(result, minDistance, m, cull, start, end);
    for i := 0 to m.NumTriangles()
      invariant NearestOf(result, minDistance, m, cull, start, end, i)
    {
      var t := m.TriangleAt(i);
      var f := t.From(start);
      var skip := CheckSides(t, start, u, v);
      LookedAt(m, cull, start, end, i);
      NoOverflow(m, start, end, i);
      if skip || Culled(cull, Det(f.a, f.b, f.c)) {
        NotStruck(result, minDistance, m, cull, start, end, i);
      } else {
        var minus: bool := *;
        var strikes, p := TestTriangle(f.a, f.b, f.c, direction, minus);
        if strikes {
          StruckAgain(result, minDistance, p, m, cull, start, end, i);
          var distance := LengthSquared(p);
          if !result.intersected || distance < minDistance {
            minDistance := distance;
            result := result.(position := Plus(p, start), primitiveIndex := i);
          }
          result := result.(intersected := true);
        } else {
          NotStruck(result, minDistance, m, cull, start, end, i);
        }
      }
    }
    NearestIsNearestHit(result, minDistance, m, cull, start, end);
  }

  /** A triangle pierced away from its rim, and not culled, is never missed. */
  lemma PiercedIsFound(result: TriangleHit, m: Mesh, cull: int, start: Vec3, end: Vec3, n: nat, s: real)
    requires m.Valid() && n < m.NumTriangles() && Nonzero(Minus(end, start))
    requires m.TriangleAt(n).From(start).Volume() != 0.0 && !Culled(cull, m.TriangleAt(n).From(start).Volume())
    requires PiercesAt(m.TriangleAt(n), start, end, s)
    requires result.intersected <==> exists k, r :: HitAt(m, cull, start, end, k, r)
    ensures result.intersected && HitAt(m, cull, start, end, n, s)
  {
    hide Sided, Culled, Minus, Nonzero, PiercesAt;
    hide MeetsAt, Mesh.TriangleAt, Mesh.NumTriangles, Mesh.Valid, Triangle.Volume;
    PiercedIsNotSided(m.TriangleAt(n), start, end, s);
    assert HitAt(m, cull, start, end, n, s);
  }
}
