/** Whether and where a ray meets a triangle: Cramer's rule behind an early filter. */
module RayTriangles {
  import opened RealMath
  import opened Geometry

  function Minus(p: Vec3, q: Vec3): Vec3 { Vec3(p.x - q.x, p.y - q.y, p.z - q.z) }

  function Dot3(u: Vec3, v: Vec3): real { u.x * v.x + u.y * v.y + u.z * v.z }

  function Cross(u: Vec3, v: Vec3): Vec3 {
    Vec3(u.y * v.z - u.z * v.y, u.z * v.x - u.x * v.z, u.x * v.y - u.y * v.x)
  }

  /** `a * p + b * q + c * r`. */
  function Blend(a: real, p: Vec3, b: real, q: Vec3, c: real, r: Vec3): Vec3 {
    Vec3(a * p.x + b * q.x + c * r.x, a * p.y + b * q.y + c * r.y, a * p.z + b * q.z + c * r.z)
  }

  function Scale(k: real, p: Vec3): Vec3 { Vec3(k * p.x, k * p.y, k * p.z) }

  /** The determinant of the rows, expanded as the code does. */
  function Det(a: Vec3, b: Vec3, c: Vec3): real {
    a.x * (b.y * c.z - b.z * c.y) - b.x * (a.y * c.z - a.z * c.y) + c.x * (a.y * b.z - a.z * b.y)
  }

  // -------------------------------------------------------- identities of determinants

  lemma CramerScalarX(ax: real, ay: real, az: real, bx: real, b_y: real, bz: real, cx: real, cy: real, cz: real,
                      x: real, y: real, z: real)
    ensures ((b_y * cz - bz * cy) * x + (bz * cx - bx * cz) * y + (bx * cy - b_y * cx) * z) * ax
          + ((cy * az - cz * ay) * x + (cz * ax - cx * az) * y + (cx * ay - cy * ax) * z) * bx
          + ((ay * bz - az * b_y) * x + (az * bx - ax * bz) * y + (ax * b_y - ay * bx) * z) * cx
         == (ax * (b_y * cz - bz * cy) - bx * (ay * cz - az * cy) + cx * (ay * bz - az * b_y)) * x
  {
  }

  lemma CramerScalarY(ax: real, ay: real, az: real, bx: real, b_y: real, bz: real, cx: real, cy: real, cz: real,
                      x: real, y: real, z: real)
    ensures ((b_y * cz - bz * cy) * x + (bz * cx - bx * cz) * y + (bx * cy - b_y * cx) * z) * ay
          + ((cy * az - cz * ay) * x + (cz * ax - cx * az) * y + (cx * ay - cy * ax) * z) * b_y
          + ((ay * bz - az * b_y) * x + (az * bx - ax * bz) * y + (ax * b_y - ay * bx) * z) * cy
         == (ax * (b_y * cz - bz * cy) - bx * (ay * cz - az * cy) + cx * (ay * bz - az * b_y)) * y
  {
  }

  lemma CramerScalarZ(ax: real, ay: real, az: real, bx: real, b_y: real, bz: real, cx: real, cy: real, cz: real,
                      x: real, y: real, z: real)
    ensures ((b_y * cz - bz * cy) * x + (bz * cx - bx * cz) * y + (bx * cy - b_y * cx) * z) * az
          + ((cy * az - cz * ay) * x + (cz * ax - cx * az) * y + (cx * ay - cy * ax) * z) * bz
          + ((ay * bz - az * b_y) * x + (az * bx - ax * bz) * y + (ax * b_y - ay * bx) * z) * cz
         == (ax * (b_y * cz - bz * cy) - bx * (ay * cz - az * cy) + cx * (ay * bz - az * b_y)) * z
  {
  }

  lemma TripleExpands(b: Vec3, c: Vec3, d: Vec3)
    ensures Dot3(Cross(b, c), d)
         == (b.y * c.z - b.z * c.y) * d.x + (b.z * c.x - b.x * c.z) * d.y + (b.x * c.y - b.y * c.x) * d.z
  {
    var n := Cross(b, c);
    MulBoth(n.x, b.y * c.z - b.z * c.y, d.x);
    MulBoth(n.y, b.z * c.x - b.x * c.z, d.y);
    MulBoth(n.z, b.x * c.y - b.y * c.x, d.z);
  }

  /** The minors that Cramer's rule divides by the determinant. */
  function Minor0(a: Vec3, b: Vec3, c: Vec3, d: Vec3): real { Dot3(Cross(b, c), d) }
  function Minor1(a: Vec3, b: Vec3, c: Vec3, d: Vec3): real { Dot3(Cross(c, a), d) }
  function Minor2(a: Vec3, b: Vec3, c: Vec3, d: Vec3): real { Dot3(Cross(a, b), d) }

  lemma CramerCoordinate(a: Vec3, b: Vec3, c: Vec3, d: Vec3, k: real, l: real, m: real, e: real)
    requires k == Dot3(Cross(b, c), d) && l == Dot3(Cross(c, a), d) && m == Dot3(Cross(a, b), d) && e == Det(a, b, c)
    ensures k * a.x + l * b.x + m * c.x == e * d.x
    ensures k * a.y + l * b.y + m * c.y == e * d.y
    ensures k * a.z + l * b.z + m * c.z == e * d.z
  {
    hide *;
    MinorsExpand(a, b, c, d);
    CramerValueX(a.x, a.y, a.z, b.x, b.y, b.z, c.x, c.y, c.z, d.x, d.y, d.z, k, l, m, e);
    CramerValueY(a.x, a.y, a.z, b.x, b.y, b.z, c.x, c.y, c.z, d.x, d.y, d.z, k, l, m, e);
    CramerValueZ(a.x, a.y, a.z, b.x, b.y, b.z, c.x, c.y, c.z, d.x, d.y, d.z, k, l, m, e);
  }

  /** The three minors and the determinant, multiplied out. */
  predicate Expanded(ax: real, ay: real, az: real, bx: real, b_y: real, bz: real, cx: real, cy: real, cz: real,
                     x: real, y: real, z: real, k: real, l: real, m: real, e: real)
  {
    && k == (b_y * cz - bz * cy) * x + (bz * cx - bx * cz) * y + (bx * cy - b_y * cx) * z
    && l == (cy * az - cz * ay) * x + (cz * ax - cx * az) * y + (cx * ay - cy * ax) * z
    && m == (ay * bz - az * b_y) * x + (az * bx - ax * bz) * y + (ax * b_y - ay * bx) * z
    && e == ax * (b_y * cz - bz * cy) - bx * (ay * cz - az * cy) + cx * (ay * bz - az * b_y)
  }

  lemma MinorsExpand(a: Vec3, b: Vec3, c: Vec3, d: Vec3)
    ensures Expanded(a.x, a.y, a.z, b.x, b.y, b.z, c.x, c.y, c.z, d.x, d.y, d.z,
                     Dot3(Cross(b, c), d), Dot3(Cross(c, a), d), Dot3(Cross(a, b), d), Det(a, b, c))
  {
    TripleExpands(b, c, d);
    TripleExpands(c, a, d);
    TripleExpands(a, b, d);
    hide Dot3, Cross;
  }

  lemma ScaledMinors(ax: real, ay: real, az: real, bx: real, b_y: real, bz: real, cx: real, cy: real, cz: real,
                     x: real, y: real, z: real, k: real, l: real, m: real, e: real, p: real, q: real, r: real, w: real)
    requires Expanded(ax, ay, az, bx, b_y, bz, cx, cy, cz, x, y, z, k, l, m, e)
    ensures k * p == ((b_y * cz - bz * cy) * x + (bz * cx - bx * cz) * y + (bx * cy - b_y * cx) * z) * p
    ensures l * q == ((cy * az - cz * ay) * x + (cz * ax - cx * az) * y + (cx * ay - cy * ax) * z) * q
    ensures m * r == ((ay * bz - az * b_y) * x + (az * bx - ax * bz) * y + (ax * b_y - ay * bx) * z) * r
    ensures e * w == (ax * (b_y * cz - bz * cy) - bx * (ay * cz - az * cy) + cx * (ay * bz - az * b_y)) * w
  {
    MulBoth(k, (b_y * cz - bz * cy) * x + (bz * cx - bx * cz) * y + (bx * cy - b_y * cx) * z, p);
    MulBoth(l, (cy * az - cz * ay) * x + (cz * ax - cx * az) * y + (cx * ay - cy * ax) * z, q);
    MulBoth(m, (ay * bz - az * b_y) * x + (az * bx - ax * bz) * y + (ax * b_y - ay * bx) * z, r);
    MulBoth(e, ax * (b_y * cz - bz * cy) - bx * (ay * cz - az * cy) + cx * (ay * bz - az * b_y), w);
  }

  lemma CramerValueX(ax: real, ay: real, az: real, bx: real, b_y: real, bz: real, cx: real, cy: real, cz: real,
                     x: real, y: real, z: real, k: real, l: real, m: real, e: real)
    requires Expanded(ax, ay, az, bx, b_y, bz, cx, cy, cz, x, y, z, k, l, m, e)
    ensures k * ax + l * bx + m * cx == e * x
  {
    hide Expanded;
    ScaledMinors(ax, ay, az, bx, b_y, bz, cx, cy, cz, x, y, z, k, l, m, e, ax, bx, cx, x);
    CramerScalarX(ax, ay, az, bx, b_y, bz, cx, cy, cz, x, y, z);
  }

  lemma CramerValueY(ax: real, ay: real, az: real, bx: real, b_y: real, bz: real, cx: real, cy: real, cz: real,
                     x: real, y: real, z: real, k: real, l: real, m: real, e: real)
    requires Expanded(ax, ay, az, bx, b_y, bz, cx, cy, cz, x, y, z, k, l, m, e)
    ensures k * ay + l * b_y + m * cy == e * y
  {
    hide Expanded;
    ScaledMinors(ax, ay, az, bx, b_y, bz, cx, cy, cz, x, y, z, k, l, m, e, ay, b_y, cy, y);
    CramerScalarY(ax, ay, az, bx, b_y, bz, cx, cy, cz, x, y, z);
  }

  lemma CramerValueZ(ax: real, ay: real, az: real, bx: real, b_y: real, bz: real, cx: real, cy: real, cz: real,
                     x: real, y: real, z: real, k: real, l: real, m: real, e: real)
    requires Expanded(ax, ay, az, bx, b_y, bz, cx, cy, cz, x, y, z, k, l, m, e)
    ensures k * az + l * bz + m * cz == e * z
  {
    hide Expanded;
    ScaledMinors(ax, ay, az, bx, b_y, bz, cx, cy, cz, x, y, z, k, l, m, e, az, bz, cz, z);
    CramerScalarZ(ax, ay, az, bx, b_y, bz, cx, cy, cz, x, y, z);
  }

  lemma DotBlend(n: Vec3, p: real, a: Vec3, q: real, b: Vec3, r: real, c: Vec3)
    ensures Dot3(n, Blend(p, a, q, b, r, c)) == p * Dot3(n, a) + q * Dot3(n, b) + r * Dot3(n, c)
  {
    var d := Blend(p, a, q, b, r, c);
    MulBoth(d.x, p * a.x + q * b.x + r * c.x, n.x);
    MulBoth(d.y, p * a.y + q * b.y + r * c.y, n.y);
    MulBoth(d.z, p * a.z + q * b.z + r * c.z, n.z);
    MulBoth(Dot3(n, a), n.x * a.x + n.y * a.y + n.z * a.z, p);
    MulBoth(Dot3(n, b), n.x * b.x + n.y * b.y + n.z * b.z, q);
    MulBoth(Dot3(n, c), n.x * c.x + n.y * c.y + n.z * c.z, r);
  }

  /** The scalar triple product is the determinant, and vanishes on a repeated factor. */
  lemma TripleProducts(a: Vec3, b: Vec3, c: Vec3)
    ensures Dot3(Cross(b, c), a) == Dot3(Cross(c, a), b) == Dot3(Cross(a, b), c) == Det(a, b, c)
    ensures Dot3(Cross(b, c), b) == Dot3(Cross(b, c), c) == 0.0
  {
    TripleExpands(b, c, a);
    TripleExpands(c, a, b);
    TripleExpands(a, b, c);
    TripleExpands(b, c, b);
    TripleExpands(b, c, c);
    hide Dot3, Cross;
  }

  /** The converse: coefficients in the rows come back as minors over the determinant. */
  lemma CramerInverse(a: Vec3, b: Vec3, c: Vec3, p: real, q: real, r: real)
    ensures var d := Blend(p, a, q, b, r, c);
      && Dot3(Cross(b, c), d) == p * Det(a, b, c)
      && Dot3(Cross(c, a), d) == q * Det(a, b, c)
      && Dot3(Cross(a, b), d) == r * Det(a, b, c)
  {
    hide Dot3, Cross, Blend, Det;
    TripleProducts(a, b, c);
    TripleProducts(b, c, a);
    TripleProducts(c, a, b);
    DotBlend(Cross(b, c), p, a, q, b, r, c);
    DotBlend(Cross(c, a), p, a, q, b, r, c);
    DotBlend(Cross(a, b), p, a, q, b, r, c);
    DetRotates(a, b, c);
  }

  lemma DetRotates(a: Vec3, b: Vec3, c: Vec3)
    ensures Det(a, b, c) == Det(b, c, a) == Det(c, a, b)
  {
  }

  lemma AdjugateScalar(ax: real, ay: real, az: real, bx: real, b_y: real, bz: real, cx: real, cy: real, cz: real,
                       x: real, y: real, z: real)
    ensures (ax * (b_y * cz - bz * cy) - bx * (ay * cz - az * cy) + cx * (ay * bz - az * b_y)) * x
         == (x * ax + y * ay + z * az) * (b_y * cz - bz * cy) + (x * bx + y * b_y + z * bz) * (cy * az - cz * ay)
          + (x * cx + y * cy + z * cz) * (ay * bz - az * b_y)
    ensures (ax * (b_y * cz - bz * cy) - bx * (ay * cz - az * cy) + cx * (ay * bz - az * b_y)) * y
         == (x * ax + y * ay + z * az) * (bz * cx - bx * cz) + (x * bx + y * b_y + z * bz) * (cz * ax - cx * az)
          + (x * cx + y * cy + z * cz) * (az * bx - ax * bz)
    ensures (ax * (b_y * cz - bz * cy) - bx * (ay * cz - az * cy) + cx * (ay * bz - az * b_y)) * z
         == (x * ax + y * ay + z * az) * (bx * cy - b_y * cx) + (x * bx + y * b_y + z * bz) * (cx * ay - cy * ax)
          + (x * cx + y * cy + z * cz) * (ax * b_y - ay * bx)
  {
  }

  /** Rows all orthogonal to a nonzero vector have determinant zero. */
  lemma OrthogonalRows(a: Vec3, b: Vec3, c: Vec3, u: Vec3)
    requires Dot3(u, a) == Dot3(u, b) == Dot3(u, c) == 0.0
    requires u.x != 0.0 || u.y != 0.0 || u.z != 0.0
    ensures Det(a, b, c) == 0.0
  {
    AdjugateScalar(a.x, a.y, a.z, b.x, b.y, b.z, c.x, c.y, c.z, u.x, u.y, u.z);
    var d := Det(a, b, c);
    assert d * u.x == 0.0 && d * u.y == 0.0 && d * u.z == 0.0;
    ProductZero(d, u.x);
    ProductZero(d, u.y);
    ProductZero(d, u.z);
  }

  lemma ProductZero(x: real, y: real)
    requires x * y == 0.0
    ensures x == 0.0 || y == 0.0
  {
  }

  // ---------------------------------------------------------- one triangle, start at 0

  /** The ray along `dir` is at `s * dir` in the triangle, with these weights. */
  ghost predicate Meets(a: Vec3, b: Vec3, c: Vec3, dir: Vec3, s: real, w0: real, w1: real, w2: real) {
    && s > 0.0 && w0 >= 0.0 && w1 >= 0.0 && w2 >= 0.0 && w0 + w1 + w2 == 1.0
    && Scale(s, dir) == Blend(w0, a, w1, b, w2, c)
  }

  /** The coefficients of the direction in the triangle's vertices. */
  datatype Coefficients = Coefficients(v0: real, v1: real, v2: real) {
    function Norm(): real { v0 + v1 + v2 }

    predicate Strikes() { v0 >= 0.0 && v1 >= 0.0 && v2 >= 0.0 && Norm() > 0.0 }
  }

  function Quotients(n0: real, n1: real, n2: real, d: real): Coefficients
    requires d != 0.0
  {
    Coefficients(n0 / d, n1 / d, n2 / d)
  }

  function CoefficientsOf(a: Vec3, b: Vec3, c: Vec3, dir: Vec3): Coefficients
    requires Det(a, b, c) != 0.0
  {
    Quotients(Minor0(a, b, c, dir), Minor1(a, b, c, dir), Minor2(a, b, c, dir), Det(a, b, c))
  }

  lemma CramerMinors(a: Vec3, b: Vec3, c: Vec3, d: Vec3)
    ensures var k, l, m, e := Minor0(a, b, c, d), Minor1(a, b, c, d), Minor2(a, b, c, d), Det(a, b, c);
      && k * a.x + l * b.x + m * c.x == e * d.x
      && k * a.y + l * b.y + m * c.y == e * d.y
      && k * a.z + l * b.z + m * c.z == e * d.z
  {
    CramerCoordinate(a, b, c, d, Minor0(a, b, c, d), Minor1(a, b, c, d), Minor2(a, b, c, d), Det(a, b, c));
  }

  lemma BlendCoordinate(v0: real, v1: real, v2: real, n0: real, n1: real, n2: real, d: real, x: real, y: real,
                        z: real, r: real)
    requires d != 0.0 && v0 * d == n0 && v1 * d == n1 && v2 * d == n2
    requires n0 * x + n1 * y + n2 * z == d * r
    ensures v0 * x + v1 * y + v2 * z == r
  {
    MulBoth(v0 * d, n0, x);
    MulBoth(v1 * d, n1, y);
    MulBoth(v2 * d, n2, z);
    Cancel(v0 * x + v1 * y + v2 * z, r, d);
  }

  lemma CoefficientsAre(a: Vec3, b: Vec3, c: Vec3, dir: Vec3)
    requires Det(a, b, c) != 0.0
    ensures var d, k := Det(a, b, c), CoefficientsOf(a, b, c, dir);
      k.v0 == Minor0(a, b, c, dir) / d && k.v1 == Minor1(a, b, c, dir) / d && k.v2 == Minor2(a, b, c, dir) / d
  {
    hide Det, Minor0, Minor1, Minor2;
  }

  lemma QuotientBlend(a: Vec3, b: Vec3, c: Vec3, n0: real, n1: real, n2: real, n: real, d: Vec3)
    requires n != 0.0 && n0 * a.x + n1 * b.x + n2 * c.x == n * d.x
    requires n0 * a.y + n1 * b.y + n2 * c.y == n * d.y && n0 * a.z + n1 * b.z + n2 * c.z == n * d.z
    ensures Blend(n0 / n, a, n1 / n, b, n2 / n, c) == d
  {
    DividedTimes(n0, n);
    DividedTimes(n1, n);
    DividedTimes(n2, n);
    BlendCoordinate(n0 / n, n1 / n, n2 / n, n0, n1, n2, n, a.x, b.x, c.x, d.x);
    BlendCoordinate(n0 / n, n1 / n, n2 / n, n0, n1, n2, n, a.y, b.y, c.y, d.y);
    BlendCoordinate(n0 / n, n1 / n, n2 / n, n0, n1, n2, n, a.z, b.z, c.z, d.z);
  }

  /** The coefficients do give the direction back. */
  lemma CoefficientsBlend(a: Vec3, b: Vec3, c: Vec3, dir: Vec3)
    requires Det(a, b, c) != 0.0
    ensures var k := CoefficientsOf(a, b, c, dir); Blend(k.v0, a, k.v1, b, k.v2, c) == dir
  {
    hide *;
    CoefficientsAre(a, b, c, dir);
    CramerMinors(a, b, c, dir);
    QuotientBlend(a, b, c, Minor0(a, b, c, dir), Minor1(a, b, c, dir), Minor2(a, b, c, dir), Det(a, b, c), dir);
  }

  lemma ScaledBlend(k: real, v0: real, a: Vec3, v1: real, b: Vec3, v2: real, c: Vec3)
    ensures Blend(k * v0, a, k * v1, b, k * v2, c) == Scale(k, Blend(v0, a, v1, b, v2, c))
  {
    var d := Blend(v0, a, v1, b, v2, c);
    MulBoth(d.x, v0 * a.x + v1 * b.x + v2 * c.x, k);
    MulBoth(d.y, v0 * a.y + v1 * b.y + v2 * c.y, k);
    MulBoth(d.z, v0 * a.z + v1 * b.z + v2 * c.z, k);
  }

  lemma ProductOfReciprocal(v: real, n: real)
    requires n != 0.0
    ensures 1.0 / n * v == v / n
  {
    DividedTimes(v, n);
    DividedTimes(1.0, n);
    Cancel(1.0 / n * v, v / n, n);
  }

  /** A strike meets the triangle, at the point the code computes. */
  lemma StrikeMeets(a: Vec3, b: Vec3, c: Vec3, dir: Vec3)
    requires Det(a, b, c) != 0.0 && CoefficientsOf(a, b, c, dir).Strikes()
    ensures var k := CoefficientsOf(a, b, c, dir);
      Meets(a, b, c, dir, 1.0 / k.Norm(), k.v0 / k.Norm(), k.v1 / k.Norm(), k.v2 / k.Norm())
  {
    hide Scale, Det, CoefficientsOf, Coefficients.Strikes, Coefficients.Norm;
    CoefficientsBlend(a, b, c, dir);
    var k := CoefficientsOf(a, b, c, dir);
    NormalizedWeights(k);
    var n := k.Norm();
    ScaledBlend(1.0 / n, k.v0, a, k.v1, b, k.v2, c);
    ProductOfReciprocal(k.v0, n);
    ProductOfReciprocal(k.v1, n);
    ProductOfReciprocal(k.v2, n);
  }

  lemma NormalizedWeights(k: Coefficients)
    requires k.Strikes()
    ensures var n := k.Norm();
      && n > 0.0 && 1.0 / n > 0.0 && k.v0 / n >= 0.0 && k.v1 / n >= 0.0 && k.v2 / n >= 0.0
      && k.v0 / n + k.v1 / n + k.v2 / n == 1.0
  {
    var n := k.Norm();
    QuotientBounds(k.v0, n, 0.0);
    QuotientBounds(k.v1, n, 0.0);
    QuotientBounds(k.v2, n, 0.0);
    QuotientBounds(1.0, n, 0.0);
    var p, q, r := k.v0 / n, k.v1 / n, k.v2 / n;
    assert p * n == k.v0 && q * n == k.v1 && r * n == k.v2;
    Cancel(p + q + r, 1.0, n);
  }

  // --------------------------------------------------------- the start in the plane

  /** Three numbers on the same strict side of zero. */
  predicate OneSign(x: real, y: real, z: real) { (x > 0.0 && y > 0.0 && z > 0.0) || (x < 0.0 && y < 0.0 && z < 0.0) }

  lemma WeightsOfOneSign(x: real, y: real, z: real)
    requires OneSign(x, y, z)
    ensures var n := x + y + z; n != 0.0 && x / n > 0.0 && y / n > 0.0 && z / n > 0.0 && x / n + y / n + z / n == 1.0
  {
    var n := x + y + z;
    var p, q, r := x / n, y / n, z / n;
    DividedTimes(x, n);
    DividedTimes(y, n);
    DividedTimes(z, n);
    Cancel(p + q + r, 1.0, n);
    SameSign(p, n, x);
    SameSign(q, n, y);
    SameSign(r, n, z);
  }

  lemma SameSign(p: real, n: real, x: real)
    requires p * n == x && n != 0.0 && x != 0.0 && (n > 0.0 <==> x > 0.0)
    ensures p > 0.0
  {
  }

  /** Volume zero and minors of one sign: the start is inside the triangle. */
  lemma OneSignIsInside(a: Vec3, b: Vec3, c: Vec3, d: Vec3)
    requires Det(a, b, c) == 0.0 && OneSign(Minor0(a, b, c, d), Minor1(a, b, c, d), Minor2(a, b, c, d))
    ensures var n0, n1, n2 := Minor0(a, b, c, d), Minor1(a, b, c, d), Minor2(a, b, c, d);
      var n := n0 + n1 + n2;
      && n != 0.0 && n0 / n > 0.0 && n1 / n > 0.0 && n2 / n > 0.0 && n0 / n + n1 / n + n2 / n == 1.0
      && Blend(n0 / n, a, n1 / n, b, n2 / n, c) == Vec3(0.0, 0.0, 0.0)
  {
    hide *;
    var n0, n1, n2 := Minor0(a, b, c, d), Minor1(a, b, c, d), Minor2(a, b, c, d);
    WeightsOfOneSign(n0, n1, n2);
    CramerMinors(a, b, c, d);
    QuotientBlend(a, b, c, n0, n1, n2, n0 + n1 + n2, Vec3(0.0, 0.0, 0.0));
  }

  lemma CrossSwaps(p: Vec3, q: Vec3, d: Vec3)
    ensures Dot3(Cross(q, p), d) == -Dot3(Cross(p, q), d)
  {
    TripleExpands(p, q, d);
    TripleExpands(q, p, d);
    hide Dot3, Cross;
  }

  lemma DotZero(n: Vec3)
    ensures Dot3(n, Vec3(0.0, 0.0, 0.0)) == 0.0
  {
  }

  /** With the start inside the triangle, the minors are in proportion to its weights. */
  lemma MinorsInProportion(a: Vec3, b: Vec3, c: Vec3, d: Vec3, w0: real, w1: real, w2: real)
    requires Blend(w0, a, w1, b, w2, c) == Vec3(0.0, 0.0, 0.0)
    ensures w2 * Minor0(a, b, c, d) == w0 * Minor2(a, b, c, d)
    ensures w2 * Minor1(a, b, c, d) == w1 * Minor2(a, b, c, d)
  {
    hide Dot3, Cross, Blend;
    DotBlend(Cross(d, b), w0, a, w1, b, w2, c);
    DotZero(Cross(d, b));
    TripleProducts(c, d, b);
    TripleProducts(a, d, b);
    CrossSwaps(a, b, d);
    DotBlend(Cross(d, a), w0, a, w1, b, w2, c);
    DotZero(Cross(d, a));
    TripleProducts(b, d, a);
    TripleProducts(c, d, a);
    CrossSwaps(a, c, d);
  }

  /** Conversely: the start inside the triangle makes the volume zero, and the minors of one
      sign unless the direction stays in the plane. */
  lemma InsideIsOneSign(a: Vec3, b: Vec3, c: Vec3, d: Vec3, w0: real, w1: real, w2: real)
    requires w0 > 0.0 && w1 > 0.0 && w2 > 0.0 && Blend(w0, a, w1, b, w2, c) == Vec3(0.0, 0.0, 0.0)
    ensures Det(a, b, c) == 0.0
    ensures OneSign(Minor0(a, b, c, d), Minor1(a, b, c, d), Minor2(a, b, c, d)) <==> Minor0(a, b, c, d) != 0.0
  {
    CramerInverse(a, b, c, w0, w1, w2);
    DotZero(Cross(b, c));
    MinorsInProportion(a, b, c, d, w0, w1, w2);
    hide Dot3, Cross, Blend, Det;
    ProductZero(w0, Det(a, b, c));
    Proportional(w0, w1, w2, Minor0(a, b, c, d), Minor1(a, b, c, d), Minor2(a, b, c, d));
  }

  lemma Proportional(w0: real, w1: real, w2: real, n0: real, n1: real, n2: real)
    requires w0 > 0.0 && w1 > 0.0 && w2 > 0.0 && w2 * n0 == w0 * n2 && w2 * n1 == w1 * n2
    ensures OneSign(n0, n1, n2) <==> n0 != 0.0
  {
    SignsAgree(w2, n0, w0, n2);
    SignsAgree(w2, n1, w1, n2);
  }

  lemma SignsAgree(p: real, x: real, q: real, y: real)
    requires p > 0.0 && q > 0.0 && p * x == q * y
    ensures (x > 0.0 <==> y > 0.0) && (x < 0.0 <==> y < 0.0)
  {
    SignOfProduct(p, x);
    SignOfProduct(q, y);
  }

  lemma SignOfProduct(p: real, x: real)
    requires p > 0.0
    ensures (p * x > 0.0 <==> x > 0.0) && (p * x < 0.0 <==> x < 0.0)
  {
  }

  lemma DotScale(n: Vec3, s: real, d: Vec3)
    ensures Dot3(n, Scale(s, d)) == s * Dot3(n, d)
  {
    var e := Scale(s, d);
    MulBoth(e.x, s * d.x, n.x);
    MulBoth(e.y, s * d.y, n.y);
    MulBoth(e.z, s * d.z, n.z);
    MulBoth(Dot3(n, d), n.x * d.x + n.y * d.y + n.z * d.z, s);
  }

  lemma WeightOfMeeting(s: real, n: real, w: real, d: real)
    requires d != 0.0 && s * n == w * d
    ensures s * (n / d) == w
  {
    DividedTimes(n, d);
    MulBoth(n / d * d, n, s);
    Cancel(s * (n / d), w, d);
  }

  /** Every meeting is the strike: same coefficients, same distance along the ray. */
  lemma MeetingStrikes(a: Vec3, b: Vec3, c: Vec3, dir: Vec3, s: real, w0: real, w1: real, w2: real)
    requires Det(a, b, c) != 0.0 && Meets(a, b, c, dir, s, w0, w1, w2)
    ensures var k := CoefficientsOf(a, b, c, dir);
      && k.Strikes() && s == 1.0 / k.Norm()
      && s * k.v0 == w0 && s * k.v1 == w1 && s * k.v2 == w2
  {
    hide *;
    MeetingMinors(a, b, c, dir, s, w0, w1, w2);
    CoefficientsAre(a, b, c, dir);
    var k := CoefficientsOf(a, b, c, dir);
    WeightsOfMeeting(s, k, Minor0(a, b, c, dir), Minor1(a, b, c, dir), Minor2(a, b, c, dir), w0, w1, w2, Det(a, b, c));
    StrikesFromWeights(s, k, w0, w1, w2);
  }

  lemma WeightsOfMeeting(s: real, k: Coefficients, n0: real, n1: real, n2: real, w0: real, w1: real, w2: real, d: real)
    requires d != 0.0 && s * n0 == w0 * d && s * n1 == w1 * d && s * n2 == w2 * d
    requires k.v0 == n0 / d && k.v1 == n1 / d && k.v2 == n2 / d
    ensures s * k.v0 == w0 && s * k.v1 == w1 && s * k.v2 == w2
  {
    WeightOfMeeting(s, n0, w0, d);
    WeightOfMeeting(s, n1, w1, d);
    WeightOfMeeting(s, n2, w2, d);
  }

  lemma MeetingMinors(a: Vec3, b: Vec3, c: Vec3, dir: Vec3, s: real, w0: real, w1: real, w2: real)
    requires Meets(a, b, c, dir, s, w0, w1, w2)
    ensures s * Minor0(a, b, c, dir) == w0 * Det(a, b, c)
    ensures s * Minor1(a, b, c, dir) == w1 * Det(a, b, c)
    ensures s * Minor2(a, b, c, dir) == w2 * Det(a, b, c)
    ensures s > 0.0 && w0 >= 0.0 && w1 >= 0.0 && w2 >= 0.0 && w0 + w1 + w2 == 1.0
  {
    hide Dot3, Cross, Det, Blend, Scale;
    CramerInverse(a, b, c, w0, w1, w2);
    DotScale(Cross(b, c), s, dir);
    DotScale(Cross(c, a), s, dir);
    DotScale(Cross(a, b), s, dir);
  }

  lemma StrikesFromWeights(s: real, k: Coefficients, w0: real, w1: real, w2: real)
    requires s > 0.0 && s * k.v0 == w0 && s * k.v1 == w1 && s * k.v2 == w2
    requires w0 >= 0.0 && w1 >= 0.0 && w2 >= 0.0 && w0 + w1 + w2 == 1.0
    ensures k.Strikes() && s == 1.0 / k.Norm()
  {
    PositiveFactor(s, k.v0, w0);
    PositiveFactor(s, k.v1, w1);
    PositiveFactor(s, k.v2, w2);
    assert s * k.Norm() == 1.0 by { MulBoth(k.Norm(), k.v0 + k.v1 + k.v2, s); }
    Reciprocal(s, k.Norm());
  }

  lemma Reciprocal(s: real, n: real)
    requires s > 0.0 && s * n == 1.0
    ensures n > 0.0 && s == 1.0 / n
  {
    PositiveFactor(s, n, 1.0);
    DividedTimes(1.0, n);
    Cancel(s, 1.0 / n, n);
  }

  lemma PositiveFactor(s: real, v: real, w: real)
    requires s > 0.0 && s * v == w
    ensures w >= 0.0 ==> v >= 0.0
    ensures w > 0.0 ==> v > 0.0
  {
  }

  // ------------------------------------------------------------------- the early filter

  /** All three vertices are on the same side of the plane through the start with normal `u`. */
  predicate OneSided(u: Vec3, a: Vec3, b: Vec3, c: Vec3) {
    (Dot3(u, a) > 0.0) == (Dot3(u, b) > 0.0) == (Dot3(u, c) > 0.0)
  }

  function Square(x: real): real { Times(x, x) }

  /** Normals of two planes that contain the ray. */
  function NormalU(d: Vec3): Vec3 {
    if Square(d.x) + Square(d.y) < Square(d.z) then Vec3(-d.z, 0.0, d.x) else Vec3(-d.y, d.x, 0.0)
  }

  function NormalV(d: Vec3): Vec3 { Cross(d, NormalU(d)) }

  predicate Nonzero(v: Vec3) { v.x != 0.0 || v.y != 0.0 || v.z != 0.0 }

  lemma NormalsAreNormal(d: Vec3)
    requires Nonzero(d)
    ensures Nonzero(NormalU(d)) && Dot3(NormalU(d), d) == 0.0
    ensures Nonzero(NormalV(d)) && Dot3(NormalV(d), d) == 0.0
  {
    var u := NormalU(d);
    SquarePositive(d.x);
    SquarePositive(d.y);
    SquarePositive(d.z);
    TripleExpands(d, u, d);
    if Square(d.x) + Square(d.y) < Square(d.z) {
      assert NormalV(d).y == -(Square(d.z) + Square(d.x));
    } else {
      Horizontal(d.x, d.y, d.z);
      assert NormalV(d).z == Square(d.x) + Square(d.y);
    }
  }

  lemma Horizontal(x: real, y: real, z: real)
    requires x != 0.0 || y != 0.0 || z != 0.0
    requires Square(x) + Square(y) >= Square(z)
    ensures x != 0.0 || y != 0.0
  {
    hide Square;
    SquarePositive(x);
    SquarePositive(y);
    SquarePositive(z);
  }

  lemma SquareOfPositive(x: real)
    requires x > 0.0
    ensures Square(x) > 0.0
  {
    hide Times;
    Positive(x, x);
  }

  lemma Positive(x: real, y: real)
    requires x > 0.0 && y > 0.0
    ensures Times(x, y) > 0.0
  {
  }

  lemma SquareOfNegation(x: real, y: real)
    requires x == -y
    ensures Square(x) == Square(y)
  {
  }

  lemma SquarePositive(x: real)
    ensures Square(x) >= 0.0 && (x != 0.0 <==> Square(x) > 0.0)
  {
    assert Square(0.0) == 0.0;
    hide Square;
    if x > 0.0 {
      SquareOfPositive(x);
    } else if x < 0.0 {
      SquareOfPositive(-x);
      SquareOfNegation(-x, x);
    }
  }

  /** No triangle whose strict interior the ray meets is filtered out. */
  lemma InteriorIsNotOneSided(a: Vec3, b: Vec3, c: Vec3, dir: Vec3, s: real, w0: real, w1: real, w2: real, u: Vec3)
    requires Det(a, b, c) != 0.0 && Meets(a, b, c, dir, s, w0, w1, w2) && w0 > 0.0 && w1 > 0.0 && w2 > 0.0
    requires Nonzero(u) && Dot3(u, dir) == 0.0
    ensures !OneSided(u, a, b, c)
  {
    DotBlend(u, w0, a, w1, b, w2, c);
    DotScale(u, s, dir);
    assert w0 * Dot3(u, a) + w1 * Dot3(u, b) + w2 * Dot3(u, c) == 0.0;
    if Dot3(u, a) == 0.0 && Dot3(u, b) == 0.0 && Dot3(u, c) == 0.0 {
      OrthogonalRows(a, b, c, u);
    }
    hide Dot3, Det;
    SignOfWeighted(w0, Dot3(u, a));
    SignOfWeighted(w1, Dot3(u, b));
    SignOfWeighted(w2, Dot3(u, c));
  }

  lemma SignOfWeighted(w: real, x: real)
    requires w > 0.0
    ensures (w * x > 0.0 <==> x > 0.0) && (w * x < 0.0 <==> x < 0.0)
  {
  }
}
