/** What skinning writes, number by number. */
module SkinSums {
  import opened RealMath
  import opened Geometry
  import opened Buffers
  import opened Skins

  function Coordinate(v: Vec4, c: int): real
    requires 0 <= c < 4
  {
    if c == 0 then v.x else if c == 1 then v.y else if c == 2 then v.z else v.w
  }

  /** One coordinate of the image of (x, y, z, w) under a bone: rows times numbers, added up. */
  function Moved(m: Mat4, x: real, y: real, z: real, w: real, c: int): real
    requires 0 <= c < 4
  {
    x * Coordinate(m.r0, c) + y * Coordinate(m.r1, c) + z * Coordinate(m.r2, c) + w * Coordinate(m.r3, c)
  }

  /** The sum over the influences of weight times image. */
  function Total(influences: seq<Influence>, bones: seq<Mat4>, n: nat, v: Vec4, c: int): real
    requires n <= |influences| && BonesExist(influences, bones) && 0 <= c < 4
  {
    if n == 0 then 0.0
    else
      var last := influences[n - 1];
      Total(influences, bones, n - 1, v, c) + last.weight * Moved(bones[last.bone], v.x, v.y, v.z, v.w, c)
  }

  lemma MovedIsImage(m: Mat4, v: Vec4, c: int)
    requires 0 <= c < 4
    ensures Coordinate(MultiplyVector(m, v), c) == Moved(m, v.x, v.y, v.z, v.w, c)
  {
  }

  lemma AddedCoordinate(v: Vec4, u: Vec4, weight: real, c: int)
    requires 0 <= c < 4
    ensures Coordinate(AddWeighted(v, u, weight), c) == Coordinate(v, c) + weight * Coordinate(u, c)
  {
  }

  /** Each coordinate of the weighted image is the weighted sum of the coordinates. */
  lemma {:induction false} ImageIsTotal(influences: seq<Influence>, bones: seq<Mat4>, n: nat, v: Vec4, c: int)
    requires n <= |influences| && BonesExist(influences, bones) && 0 <= c < 4
    ensures Coordinate(WeightedImage(influences, bones, n, v), c) == Total(influences, bones, n, v, c)
  {
    hide MultiplyVector, AddWeighted, Moved, Coordinate;
    if n == 0 {
      ZeroCoordinate(c);
    } else {
      var last := influences[n - 1];
      ImageIsTotal(influences, bones, n - 1, v, c);
      AddedCoordinate(WeightedImage(influences, bones, n - 1, v), MultiplyVector(bones[last.bone], v), last.weight, c);
      MovedIsImage(bones[last.bone], v, c);
      MulBoth(Coordinate(MultiplyVector(bones[last.bone], v), c), Moved(bones[last.bone], v.x, v.y, v.z, v.w, c),
              last.weight);
    }
  }

  lemma ZeroCoordinate(c: int)
    requires 0 <= c < 4
    ensures Coordinate(Zero4(), c) == 0.0
  {
  }

  /** The sum of the weights. */
  function Weights(influences: seq<Influence>, n: nat): real
    requires n <= |influences|
  {
    if n == 0 then 0.0 else Weights(influences, n - 1) + influences[n - 1].weight
  }

  /** If all bones are the same, only the sum of the weights matters; if that is 1, the vertex goes
      where the bone takes it. */
  lemma {:induction false} EqualBones(influences: seq<Influence>, bones: seq<Mat4>, n: nat, v: Vec4, c: int, m: Mat4)
    requires n <= |influences| && BonesExist(influences, bones) && 0 <= c < 4
    requires forall i :: 0 <= i < n ==> bones[influences[i].bone] == m
    ensures Total(influences, bones, n, v, c) == Weights(influences, n) * Moved(m, v.x, v.y, v.z, v.w, c)
    ensures Weights(influences, n) == 1.0 ==> Total(influences, bones, n, v, c) == Moved(m, v.x, v.y, v.z, v.w, c)
  {
    hide Moved;
    var x := Moved(m, v.x, v.y, v.z, v.w, c);
    if n > 0 {
      EqualBones(influences, bones, n - 1, v, c, m);
      Distributed(Weights(influences, n - 1), influences[n - 1].weight, x);
    }
  }

  lemma Distributed(p: real, q: real, x: real)
    ensures (p + q) * x == p * x + q * x
  {
  }

  /** An influence of weight zero changes nothing. */
  lemma NoInfluence(influences: seq<Influence>, bones: seq<Mat4>, n: nat, v: Vec4, c: int)
    requires 0 < n <= |influences| && BonesExist(influences, bones) && 0 <= c < 4
    requires influences[n - 1].weight == 0.0
    ensures Total(influences, bones, n, v, c) == Total(influences, bones, n - 1, v, c)
  {
    hide Moved;
  }

  // ------------------------------------------------------------------ in the arrays

  /** The vertex in element `k` of an array: a point ends in 1, another triple in 0. */
  function VertexAt(s: seq<real>, input: StreamInfo, k: nat): Vec4
    requires input.Reaches(k + 1) && |s| == input.values.Length
  {
    SlotInside(k, k + 1, input.stride, input.offset, input.width);
    var at := k * input.stride + input.offset;
    Vec4(s[at], s[at + 1], s[at + 2],
         if input.width == 4 then s[at + 3] else if input.isPoint then 1.0 else 0.0)
  }

  lemma VertexInIsAt(s: seq<real>, input: StreamInfo, k: nat)
    requires input.Reaches(k + 1) && |s| == input.values.Length
    ensures VertexIn(s, input, k) == VertexAt(s, input, k)
  {
    SlotInside(k, k + 1, input.stride, input.offset, input.width);
    var at, entry := Slot(k, input.stride, input.offset), Entry(s, input.stride, input.offset, input.width, k);
    assert at == k * input.stride + input.offset;
    assert forall c :: 0 <= c < input.width ==> entry[c] == s[at + c];
  }

  /** What `DoSkinning` promises of an output's entry, number by number: component `c` in element
      `k` is the sum over the list's influences of weight times moved vertex. */
  lemma SkinnedNumbers(o: StreamInfo, input: StreamInfo, was: seq<real>, list: seq<Influence>, bones: seq<Mat4>, n: nat,
                       k: nat, c: int)
    requires o.Reaches(n) && input.Reaches(n) && k < n && |was| == input.values.Length && BonesExist(list, bones)
    requires Written(o, n, k, Image(was, input, list, bones, n, k)) && 0 <= c < o.width
    ensures input.Reaches(k + 1) && 0 <= k * o.stride + o.offset + c < o.values.Length
    ensures o.values[k * o.stride + o.offset + c] == Total(list, bones, |list|, VertexAt(was, input, k), c)
  {
    hide WeightedImage, Total, VertexIn, VertexAt;
    SlotMonotone(k + 1, n, o.stride, 0);
    SlotMonotone(k + 1, n, input.stride, 0);
    SlotInside(k, k + 1, o.stride, o.offset, o.width);
    VertexInIsAt(was, input, k);
    ImageIsTotal(list, bones, |list|, VertexAt(was, input, k), c);
    var image := Image(was, input, list, bones, n, k);
    var at := Slot(k, o.stride, o.offset);
    assert at == k * o.stride + o.offset;
    assert o.EntryAt(k)[c] == o.values[..][at + c];
    ComponentIs(image, o.width, c);
  }

  lemma ComponentIs(v: Vec4, width: nat, c: int)
    requires width <= 4 && 0 <= c < width
    ensures Components(v, width)[c] == Coordinate(v, c)
  {
  }

  /** A matrix kept as an array of rows acts on a vertex row by row. */
  lemma RowsAct(rows: seq<Vec4>, v: Vec4, c: int)
    requires |rows| == 4 && 0 <= c < 4
    ensures Coordinate(MultiplyVector(AsMatrix(rows), v), c)
         == v.x * Coordinate(rows[0], c) + v.y * Coordinate(rows[1], c)
          + v.z * Coordinate(rows[2], c) + v.w * Coordinate(rows[3], c)
  {
    MovedIsImage(AsMatrix(rows), v, c);
  }
}
