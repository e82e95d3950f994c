/** Points, boxes and homogeneous transforms. */
module Geometry {
  import opened RealMath

  /** A point, a vector or a box extent. */
  datatype Vec3 = Vec3(x: real, y: real, z: real) {
    function At(i: int): real
      requires 0 <= i < 3
    {
      if i == 0 then x else if i == 1 then y else z
    }
  }

  function FromSeq(s: seq<real>): Vec3
    requires |s| == 3
  {
    Vec3(s[0], s[1], s[2])
  }

  datatype Vec4 = Vec4(x: real, y: real, z: real, w: real)

  /** A matrix of four rows; vectors multiply it from the left. */
  datatype Mat4 = Mat4(r0: Vec4, r1: Vec4, r2: Vec4, r3: Vec4)

  datatype Box = Box(minExtent: Vec3, maxExtent: Vec3) {
    ghost predicate Ordered() { forall i :: 0 <= i < 3 ==> minExtent.At(i) <= maxExtent.At(i) }

    ghost predicate Contains(p: Vec3) { forall i :: 0 <= i < 3 ==> minExtent.At(i) <= p.At(i) <= maxExtent.At(i) }
  }

  /** The point reached from `start` towards `end` at time `t`. */
  function AlongAxis(start: Vec3, end: Vec3, t: real, i: int): real
    requires 0 <= i < 3
  {
    start.At(i) + t * (end.At(i) - start.At(i))
  }

  function Along(start: Vec3, end: Vec3, t: real): (p: Vec3)
    ensures forall i :: 0 <= i < 3 ==> p.At(i) == AlongAxis(start, end, t, i)
  {
    Vec3(AlongAxis(start, end, t, 0), AlongAxis(start, end, t, 1), AlongAxis(start, end, t, 2))
  }

  // ------------------------------------------------------------------- transforms

  function Dot(v: Vec4, a: real, b: real, c: real, d: real): real { v.x * a + v.y * b + v.z * c + v.w * d }

  function MultiplyVector(m: Mat4, v: Vec4): Vec4 {
    Vec4(Dot(v, m.r0.x, m.r1.x, m.r2.x, m.r3.x), Dot(v, m.r0.y, m.r1.y, m.r2.y, m.r3.y),
         Dot(v, m.r0.z, m.r1.z, m.r2.z, m.r3.z), Dot(v, m.r0.w, m.r1.w, m.r2.w, m.r3.w))
  }

  function Times(x: real, y: real): real { x * y }

  function Sum4(x: real, y: real, z: real, w: real): real { x + y + z + w }

  /** The image in homogeneous coordinates. */
  function Homogeneous(m: Mat4, p: Vec3): Vec4 {
    Vec4(Sum4(Times(p.x, m.r0.x), Times(p.y, m.r1.x), Times(p.z, m.r2.x), m.r3.x),
         Sum4(Times(p.x, m.r0.y), Times(p.y, m.r1.y), Times(p.z, m.r2.y), m.r3.y),
         Sum4(Times(p.x, m.r0.z), Times(p.y, m.r1.z), Times(p.z, m.r2.z), m.r3.z),
         Sum4(Times(p.x, m.r0.w), Times(p.y, m.r1.w), Times(p.z, m.r2.w), m.r3.w))
  }

  function TransformPoint(m: Mat4, p: Vec3): Vec3
    requires Homogeneous(m, p).w != 0.0
  {
    var h := Homogeneous(m, p);
    Vec3(h.x / h.w, h.y / h.w, h.z / h.w)
  }

  // --------------------------------------------------------------- corners of a box

  function Pick(b: Box, upper: bool, i: int): real
    requires 0 <= i < 3
  {
    if upper then b.maxExtent.At(i) else b.minExtent.At(i)
  }

  function Corner(b: Box, i: bool, j: bool, k: bool): Vec3 { Vec3(Pick(b, i, 0), Pick(b, j, 1), Pick(b, k, 2)) }

  method Corners(b: Box) returns (result: seq<Vec3>)
    ensures result == CornerList(b)
  {
    result := [];
    var m := [b.minExtent, b.maxExtent];
    for i := 0 to 2
      invariant result == CornerList(b)[..4 * i]
    {
      for j := 0 to 2
        invariant result == CornerList(b)[..4 * i + 2 * j]
      {
        for k := 0 to 2
          invariant result == CornerList(b)[..4 * i + 2 * j + k]
        {
          var corner := Vec3(m[i].x, m[j].y, m[k].z);
          result := result + [corner];
        }
      }
    }
  }

  function CornerList(b: Box): seq<Vec3> {
    [Corner(b, false, false, false), Corner(b, false, false, true),
     Corner(b, false, true, false), Corner(b, false, true, true),
     Corner(b, true, false, false), Corner(b, true, false, true),
     Corner(b, true, true, false), Corner(b, true, true, true)]
  }

  /** An affine function of the coordinates. */
  datatype Affine = Affine(a: real, b: real, c: real, d: real) {
    function At(p: Vec3): real { Sum4(Times(p.x, a), Times(p.y, b), Times(p.z, c), d) }
  }

  /** An affine function is nowhere in the box smaller than at some corner. */
  lemma LowestCorner(f: Affine, b: Box, p: Vec3) returns (q: Vec3)
    requires b.Contains(p)
    ensures q in CornerList(b) && f.At(q) <= f.At(p)
  {
    q := Corner(b, f.a < 0.0, f.b < 0.0, f.c < 0.0);
    assert b.minExtent.At(0) <= p.At(0) <= b.maxExtent.At(0);
    assert b.minExtent.At(1) <= p.At(1) <= b.maxExtent.At(1);
    assert b.minExtent.At(2) <= p.At(2) <= b.maxExtent.At(2);
    Downhill(f, q, p);
  }

  lemma Downhill(f: Affine, q: Vec3, p: Vec3)
    requires if f.a < 0.0 then q.x >= p.x else q.x <= p.x
    requires if f.b < 0.0 then q.y >= p.y else q.y <= p.y
    requires if f.c < 0.0 then q.z >= p.z else q.z <= p.z
    ensures f.At(q) <= f.At(p)
  {
    hide Times, Sum4;
    Steeper(f.a, q.x, p.x);
    Steeper(f.b, q.y, p.y);
    Steeper(f.c, q.z, p.z);
    AddUp(Times(q.x, f.a), Times(q.y, f.b), Times(q.z, f.c), Times(p.x, f.a), Times(p.y, f.b), Times(p.z, f.c), f.d);
  }

  lemma AddUp(x0: real, x1: real, x2: real, y0: real, y1: real, y2: real, d: real)
    requires x0 <= y0 && x1 <= y1 && x2 <= y2
    ensures Sum4(x0, x1, x2, d) <= Sum4(y0, y1, y2, d)
  {
  }

  lemma Steeper(k: real, x: real, y: real)
    requires if k < 0.0 then x >= y else x <= y
    ensures Times(x, k) <= Times(y, k)
  {
    if k < 0.0 {
      MulNonNegative(-k, x - y);
      assert (-k) * (x - y) == k * y - k * x;
    } else {
      MulNonNegative(k, y - x);
      assert k * (y - x) == k * y - k * x;
    }
  }
}
