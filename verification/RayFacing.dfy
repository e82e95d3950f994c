/** Which side of a triangle a ray may hit, and which points make up the triangle. */
module RayFacings {
  import opened RealMath
  import opened Geometry
  import opened RayTriangles
  import opened Wireframes
  import opened RayPrimitives

  /** A vector on the side from which the vertices run counter-clockwise. */
  function Front(a: Vec3, b: Vec3, c: Vec3): Vec3 { Cross(Minus(b, a), Minus(c, a)) }

  /** Positive if the direction runs along the front vector, so that the ray comes from behind. */
  function FromBehind(t: Triangle, start: Vec3, end: Vec3): real { Dot3(Front(t.a, t.b, t.c), Minus(end, start)) }

  lemma ShiftCancels(p: Vec3, q: Vec3, s: Vec3)
    ensures Minus(Minus(p, s), Minus(q, s)) == Minus(p, q)
  {
  }

  lemma FrontExpands(a: Vec3, b: Vec3, c: Vec3, d: Vec3)
    ensures Dot3(Front(a, b, c), d) == Dot3(Cross(b, c), d) + Dot3(Cross(c, a), d) + Dot3(Cross(a, b), d)
  {
    var e, f := Minus(b, a), Minus(c, a);
    TripleExpands(e, f, d);
    TripleExpands(b, c, d);
    TripleExpands(c, a, d);
    TripleExpands(a, b, d);
    hide Dot3, Cross;
    FrontTerm(a.y, a.z, b.y, b.z, c.y, c.z, d.x);
    FrontTerm(a.z, a.x, b.z, b.x, c.z, c.x, d.y);
    FrontTerm(a.x, a.y, b.x, b.y, c.x, c.y, d.z);
  }

  lemma FrontTerm(ay: real, az: real, b_y: real, bz: real, cy: real, cz: real, x: real)
    ensures ((b_y - ay) * (cz - az) - (bz - az) * (cy - ay)) * x
         == (b_y * cz - bz * cy) * x + (cy * az - cz * ay) * x + (ay * bz - az * b_y) * x
  {
    assert (b_y - ay) * (cz - az) - (bz - az) * (cy - ay)
        == (b_y * cz - bz * cy) + (cy * az - cz * ay) + (ay * bz - az * b_y);
  }

  /** Where the ray meets the triangle, its direction and the front vector give the volume. */
  lemma FacingGivesVolume(t: Triangle, start: Vec3, end: Vec3, s: real)
    requires MeetsAt(t, start, end, s)
    ensures s * FromBehind(t, start, end) == t.From(start).Volume()
  {
    hide Minus, Along, Weighs, Meets, Dot3, Cross, Det, Blend, Scale, Triangle.From;
    var f, dir := t.From(start), Minus(end, start);
    var w0, w1, w2 :| Weighs(t, Along(start, end, s), w0, w1, w2);
    ShiftedMeets(t, start, end, s, w0, w1, w2);
    MeetingMinors(f.a, f.b, f.c, dir, s, w0, w1, w2);
    FrontExpands(f.a, f.b, f.c, dir);
    FrontOfShifted(t, start);
    SumOfParts(s, FromBehind(t, start, end), Minor0(f.a, f.b, f.c, dir), Minor1(f.a, f.b, f.c, dir),
               Minor2(f.a, f.b, f.c, dir), w0, w1, w2, f.Volume());
  }

  lemma FrontOfShifted(t: Triangle, start: Vec3)
    ensures var f := t.From(start); Front(f.a, f.b, f.c) == Front(t.a, t.b, t.c)
  {
    ShiftCancels(t.b, t.a, start);
    ShiftCancels(t.c, t.a, start);
    hide Minus, Cross;
  }

  lemma SumOfParts(s: real, n: real, n0: real, n1: real, n2: real, w0: real, w1: real, w2: real, d: real)
    requires n == n0 + n1 + n2 && s * n0 == w0 * d && s * n1 == w1 * d && s * n2 == w2 * d && w0 + w1 + w2 == 1.0
    ensures s * n == d
  {
    MulBoth(n, n0 + n1 + n2, s);
    MulBoth(w0 + w1 + w2, 1.0, d);
  }

  lemma SameSide(s: real, n: real, d: real)
    requires s > 0.0 && s * n == d
    ensures (n > 0.0 <==> d > 0.0) && (n < 0.0 <==> d < 0.0)
  {
  }

  /** `CULL_CW` leaves hits that come from behind the front side, `CULL_CCW` hits that come from
      before it, where the vertices run counter-clockwise. */
  lemma HitFaces(m: Mesh, cull: int, start: Vec3, end: Vec3, n: int, s: real)
    requires m.Valid() && HitAt(m, cull, start, end, n, s)
    ensures CULL_CW == 1 && CULL_CCW == 2
    ensures cull == CULL_CW ==> FromBehind(m.TriangleAt(n), start, end) > 0.0
    ensures cull == CULL_CCW ==> FromBehind(m.TriangleAt(n), start, end) < 0.0
  {
    var t := m.TriangleAt(n);
    hide Mesh.TriangleAt, Mesh.Valid, Mesh.NumTriangles, Sided, MeetsAt, FromBehind, Triangle.From, Triangle.Volume;
    FacingGivesVolume(t, start, end, s);
    SameSide(s, FromBehind(t, start, end), t.From(start).Volume());
  }

  /** The ray comes from a side that is not culled, and not along the plane. */
  predicate FacesRight(t: Triangle, cull: int, start: Vec3, end: Vec3) {
    var n := FromBehind(t, start, end);
    if cull == 1 then n > 0.0 else if cull == 2 then n < 0.0 else n != 0.0
  }

  /** Conversely, a triangle that is pierced and faces right is a hit, so the search finds one. */
  lemma FacingIsFound(result: TriangleHit, m: Mesh, cull: int, start: Vec3, end: Vec3, n: nat, s: real)
    requires m.Valid() && n < m.NumTriangles() && Nonzero(Minus(end, start))
    requires PiercesAt(m.TriangleAt(n), start, end, s) && FacesRight(m.TriangleAt(n), cull, start, end)
    requires result.intersected <==> exists k, r :: HitAt(m, cull, start, end, k, r)
    ensures result.intersected && HitAt(m, cull, start, end, n, s)
  {
    var t := m.TriangleAt(n);
    PiercedMeets(t, start, end, s);
    hide Mesh.TriangleAt, Mesh.Valid, Mesh.NumTriangles, Sided, MeetsAt, PiercesAt, FromBehind, Nonzero, Minus;
    hide Triangle.From, Triangle.Volume, HitAt;
    FacingGivesVolume(t, start, end, s);
    SameSide(s, FromBehind(t, start, end), t.From(start).Volume());
    PiercedIsFound(result, m, cull, start, end, n, s);
  }

  lemma PiercedMeets(t: Triangle, start: Vec3, end: Vec3, s: real)
    requires PiercesAt(t, start, end, s)
    ensures MeetsAt(t, start, end, s)
  {
    hide Weighs, Along;
  }

  // ------------------------------------------------------------------ points and triangles

  /** The point that entry `k` names: that of the index buffer, or the `k`-th if there is none. */
  function Named(m: Mesh, k: nat): Vec3
    requires m.Valid() && k < m.NumIndices()
  {
    var i := if m.indexBuffer.Some? then m.indexBuffer.value[k] else k;
    Vec3(m.elements[3 * i], m.elements[3 * i + 1], m.elements[3 * i + 2])
  }

  /** The triangles of the three kinds.  In a strip every other one is turned round. */
  lemma Corners(m: Mesh, n: nat)
    requires m.Valid() && n < m.NumTriangles()
    ensures m.kind == 5 ==>
              && n + 2 < m.NumIndices()
              && m.TriangleAt(n) == if n % 2 == 0 then Triangle(Named(m, n), Named(m, n + 1), Named(m, n + 2))
                                    else Triangle(Named(m, n + 1), Named(m, n), Named(m, n + 2))
    ensures m.kind == 6 ==>
              n + 2 < m.NumIndices() && m.TriangleAt(n) == Triangle(Named(m, 0), Named(m, n + 1), Named(m, n + 2))
    ensures m.kind != 5 && m.kind != 6 ==>
              && 3 * n + 2 < m.NumIndices()
              && m.TriangleAt(n) == Triangle(Named(m, 3 * n), Named(m, 3 * n + 1), Named(m, 3 * n + 2))
  {
    hide Mesh.PointAt, Named, GetIndex;
    if m.kind == 5 || m.kind == 6 {
      NamedIsIndexed(m, 0);
      NamedIsIndexed(m, n);
      NamedIsIndexed(m, n + 1);
      NamedIsIndexed(m, n + 2);
    } else {
      NamedIsIndexed(m, 3 * n);
      NamedIsIndexed(m, 3 * n + 1);
      NamedIsIndexed(m, 3 * n + 2);
    }
  }

  lemma NamedIsIndexed(m: Mesh, k: nat)
    requires m.Valid() && k < m.NumIndices()
    ensures LongEnough(m.indexBuffer, k + 1) && 0 <= GetIndex(m.indexBuffer, k) < m.NumPoints()
    ensures m.PointAt(GetIndex(m.indexBuffer, k)) == Named(m, k)
  {
    PointOf(m, GetIndex(m.indexBuffer, k));
    hide Mesh.PointAt;
  }

  lemma PointOf(m: Mesh, i: nat)
    requires i < m.NumPoints()
    ensures 3 * i + 2 < |m.elements|
    ensures m.PointAt(i) == Vec3(m.elements[3 * i], m.elements[3 * i + 1], m.elements[3 * i + 2])
  {
    var s := m.elements[3 * i..3 * i + 3];
    assert s[0] == m.elements[3 * i] && s[1] == m.elements[3 * i + 1] && s[2] == m.elements[3 * i + 2];
  }

  lemma FrontTurns(a: Vec3, b: Vec3, c: Vec3, d: Vec3)
    ensures Dot3(Front(b, a, c), d) == -Dot3(Front(a, b, c), d)
  {
    FrontExpands(a, b, c, d);
    FrontExpands(b, a, c, d);
    CrossSwaps(a, b, d);
    CrossSwaps(b, c, d);
    CrossSwaps(c, a, d);
  }

  /** So in a strip, told by its points in order, the side that is hit alternates. */
  lemma StripHitFaces(m: Mesh, cull: int, start: Vec3, end: Vec3, n: nat, s: real)
    requires m.Valid() && m.kind == 5 && n < m.NumTriangles() && n + 2 < m.NumIndices()
    requires HitAt(m, cull, start, end, n, s)
    ensures var along := Dot3(Front(Named(m, n), Named(m, n + 1), Named(m, n + 2)), Minus(end, start));
      && (cull == 1 ==> if n % 2 == 0 then along > 0.0 else along < 0.0)
      && (cull == 2 ==> if n % 2 == 0 then along < 0.0 else along > 0.0)
  {
    HitFaces(m, cull, start, end, n, s);
    Corners(m, n);
    hide HitAt, Named, Front, Mesh.TriangleAt, Mesh.Valid, Minus;
    FrontTurns(Named(m, n), Named(m, n + 1), Named(m, n + 2), Minus(end, start));
  }
}
