/** Skinning in software: every vertex is moved by the weighted sum of its bones. */
module Skins {
  import opened Geometry
  import opened Buffers

  datatype Influence = Influence(bone: nat, weight: real)

  // ------------------------------------------------------------- weighted sums of matrices

  function Zero4(): Vec4 { Vec4(0.0, 0.0, 0.0, 0.0) }

  /** `v + weight * u`. */
  function AddWeighted(v: Vec4, u: Vec4, weight: real): Vec4 {
    Vec4(v.x + u.x * weight, v.y + u.y * weight, v.z + u.z * weight, v.w + u.w * weight)
  }

  predicate BonesExist(influences: seq<Influence>, bones: seq<Mat4>) {
    forall i :: 0 <= i < |influences| ==> influences[i].bone < |bones|
  }

  /** The matrix that the first `n` influences accumulate. */
  function Accumulated(influences: seq<Influence>, bones: seq<Mat4>, n: nat): Mat4
    requires n <= |influences| && BonesExist(influences, bones)
  {
    if n == 0 then Mat4(Zero4(), Zero4(), Zero4(), Zero4())
    else
      var m, b, k := Accumulated(influences, bones, n - 1), bones[influences[n - 1].bone], influences[n - 1].weight;
      Mat4(AddWeighted(m.r0, b.r0, k), AddWeighted(m.r1, b.r1, k), AddWeighted(m.r2, b.r2, k),
           AddWeighted(m.r3, b.r3, k))
  }

  /** What skinning promises: the weighted sum of the images under the single bones. */
  function WeightedImage(influences: seq<Influence>, bones: seq<Mat4>, n: nat, v: Vec4): Vec4
    requires n <= |influences| && BonesExist(influences, bones)
  {
    if n == 0 then Zero4()
    else
      AddWeighted(WeightedImage(influences, bones, n - 1, v), MultiplyVector(bones[influences[n - 1].bone], v),
                  influences[n - 1].weight)
  }

  lemma DotOfSum(x: real, y: real, z: real, w: real, a: real, b: real, c: real, d: real,
                 a': real, b': real, c': real, d': real, k: real)
    ensures x * (a + a' * k) + y * (b + b' * k) + z * (c + c' * k) + w * (d + d' * k)
         == x * a + y * b + z * c + w * d + (x * a' + y * b' + z * c' + w * d') * k
  {
  }

  lemma DotOfSums(v: Vec4, p: real, q: real, r: real, s: real, a: real, b: real, c: real, d: real,
                  a': real, b': real, c': real, d': real, k: real)
    requires p == a + a' * k && q == b + b' * k && r == c + c' * k && s == d + d' * k
    ensures Dot(v, p, q, r, s) == Dot(v, a, b, c, d) + Dot(v, a', b', c', d') * k
  {
    DotOfSum(v.x, v.y, v.z, v.w, a, b, c, d, a', b', c', d', k);
    assert Dot(v, p, q, r, s) == v.x * (a + a' * k) + v.y * (b + b' * k) + v.z * (c + c' * k) + v.w * (d + d' * k);
    assert Dot(v, a', b', c', d') == v.x * a' + v.y * b' + v.z * c' + v.w * d';
  }

  lemma ImageOfSum(m: Mat4, b: Mat4, k: real, v: Vec4)
    ensures MultiplyVector(Mat4(AddWeighted(m.r0, b.r0, k), AddWeighted(m.r1, b.r1, k),
                                AddWeighted(m.r2, b.r2, k), AddWeighted(m.r3, b.r3, k)), v)
         == AddWeighted(MultiplyVector(m, v), MultiplyVector(b, v), k)
  {
    hide Dot;
    var r0, r1 := AddWeighted(m.r0, b.r0, k), AddWeighted(m.r1, b.r1, k);
    var r2, r3 := AddWeighted(m.r2, b.r2, k), AddWeighted(m.r3, b.r3, k);
    DotOfSums(v, r0.x, r1.x, r2.x, r3.x, m.r0.x, m.r1.x, m.r2.x, m.r3.x, b.r0.x, b.r1.x, b.r2.x, b.r3.x, k);
    DotOfSums(v, r0.y, r1.y, r2.y, r3.y, m.r0.y, m.r1.y, m.r2.y, m.r3.y, b.r0.y, b.r1.y, b.r2.y, b.r3.y, k);
    DotOfSums(v, r0.z, r1.z, r2.z, r3.z, m.r0.z, m.r1.z, m.r2.z, m.r3.z, b.r0.z, b.r1.z, b.r2.z, b.r3.z, k);
    DotOfSums(v, r0.w, r1.w, r2.w, r3.w, m.r0.w, m.r1.w, m.r2.w, m.r3.w, b.r0.w, b.r1.w, b.r2.w, b.r3.w, k);
  }

  /** Accumulating the matrices first is the same as adding the images up. */
  lemma {:induction false} AccumulatedImage(influences: seq<Influence>, bones: seq<Mat4>, n: nat, v: Vec4)
    requires n <= |influences| && BonesExist(influences, bones)
    ensures MultiplyVector(Accumulated(influences, bones, n), v) == WeightedImage(influences, bones, n, v)
  {
    if n == 0 {
      ImageOfZero(v);
    } else {
      hide MultiplyVector, AddWeighted;
      AccumulatedImage(influences, bones, n - 1, v);
      ImageOfSum(Accumulated(influences, bones, n - 1), bones[influences[n - 1].bone], influences[n - 1].weight, v);
    }
  }

  lemma ImageOfZero(v: Vec4)
    ensures MultiplyVector(Mat4(Zero4(), Zero4(), Zero4(), Zero4()), v) == Zero4()
  {
  }

  // ------------------------------------------------------------------ the product of bones

  /** The matrix that applies `b` first and `a` next, as `compose` lays it out. */
  function Product(a: Mat4, b: Mat4): Mat4 {
    Mat4(MultiplyVector(a, b.r0), MultiplyVector(a, b.r1), MultiplyVector(a, b.r2), MultiplyVector(a, b.r3))
  }

  lemma DotOfNothing(v: Vec4)
    ensures Dot(v, 0.0, 0.0, 0.0, 0.0) == 0.0
  {
  }

  function Leading(v: Vec4, n: nat, p: real, q: real, r: real, s: real): real {
    (if n > 0 then v.x * p else 0.0) + (if n > 1 then v.y * q else 0.0)
    + (if n > 2 then v.z * r else 0.0) + (if n > 3 then v.w * s else 0.0)
  }

  lemma LeadingTerms(v: Vec4, p: real, q: real, r: real, s: real)
    ensures Leading(v, 0, p, q, r, s) == 0.0
    ensures Leading(v, 1, p, q, r, s) == Leading(v, 0, p, q, r, s) + v.x * p
    ensures Leading(v, 2, p, q, r, s) == Leading(v, 1, p, q, r, s) + v.y * q
    ensures Leading(v, 3, p, q, r, s) == Leading(v, 2, p, q, r, s) + v.z * r
    ensures Dot(v, p, q, r, s) == Leading(v, 3, p, q, r, s) + v.w * s
  {
  }

  lemma DotOfRows(v: Vec4, b: Mat4, p: real, q: real, r: real, s: real)
    ensures Dot(v, Dot(b.r0, p, q, r, s), Dot(b.r1, p, q, r, s), Dot(b.r2, p, q, r, s), Dot(b.r3, p, q, r, s))
         == Dot(MultiplyVector(b, v), p, q, r, s)
  {
    hide Dot, Leading;
    LeadingTerms(b.r0, p, q, r, s);
    LeadingTerms(b.r1, p, q, r, s);
    LeadingTerms(b.r2, p, q, r, s);
    LeadingTerms(b.r3, p, q, r, s);
    LeadingTerms(MultiplyVector(b, v), p, q, r, s);
    DotOfNothing(v);
    DotOfSums(v, Leading(b.r0, 1, p, q, r, s), Leading(b.r1, 1, p, q, r, s),
              Leading(b.r2, 1, p, q, r, s), Leading(b.r3, 1, p, q, r, s),
              Leading(b.r0, 0, p, q, r, s), Leading(b.r1, 0, p, q, r, s),
              Leading(b.r2, 0, p, q, r, s), Leading(b.r3, 0, p, q, r, s),
              b.r0.x, b.r1.x, b.r2.x, b.r3.x, p);
    DotOfSums(v, Leading(b.r0, 2, p, q, r, s), Leading(b.r1, 2, p, q, r, s),
              Leading(b.r2, 2, p, q, r, s), Leading(b.r3, 2, p, q, r, s),
              Leading(b.r0, 1, p, q, r, s), Leading(b.r1, 1, p, q, r, s),
              Leading(b.r2, 1, p, q, r, s), Leading(b.r3, 1, p, q, r, s),
              b.r0.y, b.r1.y, b.r2.y, b.r3.y, q);
    DotOfSums(v, Leading(b.r0, 3, p, q, r, s), Leading(b.r1, 3, p, q, r, s),
              Leading(b.r2, 3, p, q, r, s), Leading(b.r3, 3, p, q, r, s),
              Leading(b.r0, 2, p, q, r, s), Leading(b.r1, 2, p, q, r, s),
              Leading(b.r2, 2, p, q, r, s), Leading(b.r3, 2, p, q, r, s),
              b.r0.z, b.r1.z, b.r2.z, b.r3.z, r);
    DotOfSums(v, Dot(b.r0, p, q, r, s), Dot(b.r1, p, q, r, s), Dot(b.r2, p, q, r, s), Dot(b.r3, p, q, r, s),
              Leading(b.r0, 3, p, q, r, s), Leading(b.r1, 3, p, q, r, s),
              Leading(b.r2, 3, p, q, r, s), Leading(b.r3, 3, p, q, r, s),
              b.r0.w, b.r1.w, b.r2.w, b.r3.w, s);
  }

  /** The product acts as one matrix after the other. */
  lemma ProductActs(a: Mat4, b: Mat4, v: Vec4)
    ensures MultiplyVector(Product(a, b), v) == MultiplyVector(a, MultiplyVector(b, v))
  {
    DotOfRows(v, b, a.r0.x, a.r1.x, a.r2.x, a.r3.x);
    DotOfRows(v, b, a.r0.y, a.r1.y, a.r2.y, a.r3.y);
    DotOfRows(v, b, a.r0.z, a.r1.z, a.r2.z, a.r3.z);
    DotOfRows(v, b, a.r0.w, a.r1.w, a.r2.w, a.r3.w);
    hide Dot;
  }

  function AsMatrix(rows: seq<Vec4>): Mat4
    requires |rows| == 4
  {
    Mat4(rows[0], rows[1], rows[2], rows[3])
  }

  /** The target may be one of the factors: both are read before any row is written. */
  method Compose(a: array<Vec4>, b: array<Vec4>, t: array<Vec4>)
    requires a.Length == b.Length == t.Length == 4
    modifies t
    ensures AsMatrix(t[..]) == Product(old(AsMatrix(a[..])), old(AsMatrix(b[..])))
  {
    var m, b0, b1, b2, b3 := AsMatrix(a[..]), b[0], b[1], b[2], b[3];
    hide MultiplyVector;
    t[0] := MultiplyVector(m, b0);
    t[1] := MultiplyVector(m, b1);
    t[2] := MultiplyVector(m, b2);
    t[3] := MultiplyVector(m, b3);
  }

  /** How many matrices there are before the first parameter that holds none. */
  function MatricesGiven(matrices: seq<array?<Vec4>>): (n: nat)
    ensures n <= |matrices| && (forall i :: 0 <= i < n ==> matrices[i] != null)
    ensures n < |matrices| ==> matrices[n] == null
  {
    if |matrices| == 0 || matrices[0] == null then 0 else 1 + MatricesGiven(matrices[1..])
  }

  /** A bone acts as inverse bind pose, then matrix, then inverse base. */
  ghost predicate ActsAs(bone: Mat4, inverseBase: Mat4, matrix: Mat4, inverseBindPose: Mat4) {
    forall v :: MultiplyVector(bone, v)
             == MultiplyVector(inverseBase, MultiplyVector(matrix, MultiplyVector(inverseBindPose, v)))
  }

  lemma BoneActs(inverseBase: Mat4, matrix: Mat4, inverseBindPose: Mat4)
    ensures ActsAs(Product(inverseBase, Product(matrix, inverseBindPose)), inverseBase, matrix, inverseBindPose)
  {
    hide MultiplyVector, Product;
    forall v
      ensures MultiplyVector(Product(inverseBase, Product(matrix, inverseBindPose)), v)
           == MultiplyVector(inverseBase, MultiplyVector(matrix, MultiplyVector(inverseBindPose, v)))
    {
      ProductActs(inverseBase, Product(matrix, inverseBindPose), v);
      ProductActs(matrix, inverseBindPose, v);
    }
  }

  /** The bones: out of the bind pose, along the matrix, into the space of the base.  They are
      kept if the sizes do not fit, and from the first missing matrix on. */
  method UpdateBones(inverseBase: array<Vec4>, matrices: seq<array?<Vec4>>, inverseBindPoses: seq<array<Vec4>>,
                     highestMatrixIndex: int, before: seq<Mat4>) returns (ok: bool, bones: seq<Mat4>)
    requires inverseBase.Length == 4
    requires forall i :: 0 <= i < |matrices| && matrices[i] != null ==> matrices[i].Length == 4
    requires forall i :: 0 <= i < |inverseBindPoses| ==> inverseBindPoses[i].Length == 4
    ensures var fits := highestMatrixIndex < |matrices| && |inverseBindPoses| == |matrices|;
      var n := if fits then MatricesGiven(matrices) else 0;
      && (ok <==> fits && n == |matrices|)
      && |bones| == (if |before| > n then |before| else n)
      && (forall i :: 0 <= i < n ==>
            ActsAs(bones[i], AsMatrix(inverseBase[..]), AsMatrix(matrices[i][..]), AsMatrix(inverseBindPoses[i][..])))
      && (forall i :: n <= i < |before| ==> bones[i] == before[i])
  {
    hide MultiplyVector, Product, ActsAs;
    ok, bones := false, before;
    if highestMatrixIndex >= |matrices| || |inverseBindPoses| != |matrices| {
      return;
    }
    for i := 0 to |matrices|
      invariant i <= MatricesGiven(matrices) && !ok
      invariant |bones| == if |before| > i then |before| else i
      invariant forall j :: 0 <= j < i ==>
                  ActsAs(bones[j], AsMatrix(inverseBase[..]), AsMatrix(matrices[j][..]),
                         AsMatrix(inverseBindPoses[j][..]))
      invariant forall j :: i <= j < |before| ==> bones[j] == before[j]
    {
      if matrices[i] == null {
        return;
      }
      var bone := new Vec4[4](_ => Zero4());
      Compose(matrices[i], inverseBindPoses[i], bone);
      Compose(inverseBase, bone, bone);
      BoneActs(AsMatrix(inverseBase[..]), AsMatrix(matrices[i][..]), AsMatrix(inverseBindPoses[i][..]));
      bones := if i < |bones| then bones[i := AsMatrix(bone[..])] else bones + [AsMatrix(bone[..])];
    }
    ok := true;
  }

  // -------------------------------------------------------------------------- streams

  /** The vector that a stream's entry stands for: points end in 1, other triples in 0. */
  function AsVector(entry: seq<real>, isPoint: bool): Vec4
    requires |entry| == 3 || |entry| == 4
  {
    Vec4(entry[0], entry[1], entry[2], if |entry| == 4 then entry[3] else if isPoint then 1.0 else 0.0)
  }

  /** The first `width` components. */
  function Components(v: Vec4, width: nat): (s: seq<real>)
    requires width <= 4
    ensures |s| == width
  {
    [v.x, v.y, v.z, v.w][..width]
  }

  lemma PutComponents(s: seq<real>, at: nat, v: Vec4, width: nat)
    requires (width == 3 || width == 4) && at + width <= |s|
    ensures var three := s[at := v.x][at + 1 := v.y][at + 2 := v.z];
      Put(s, at, Components(v, width)) == if width == 3 then three else three[at + 3 := v.w]
  {
  }

  /** Walks over the entries of one field, element by element. */
  class StreamInfo {
    const values: array<real>
    const offset: nat
    const stride: nat
    const width: nat
    const isPoint: bool
    var index: nat
    var result: Vec4

    constructor (field: Field, isPosition: bool)
      requires field.numComponents == 3 || field.numComponents == 4
      ensures values == field.buffer.data && offset == field.offset && stride == field.buffer.totalComponents
      ensures width == field.numComponents && isPoint == isPosition && index == offset
    {
      values, stride := field.buffer.data, field.buffer.totalComponents;
      offset, index := field.offset, field.offset;
      width, isPoint, result := field.numComponents, isPosition, Zero4();
    }

    /** The walk stays inside the array for `n` elements. */
    predicate Reaches(n: nat) {
      (width == 3 || width == 4) && offset + width <= stride && Slot(n, stride, 0) <= values.Length
    }

    /** The stream stands before element `e`. */
    predicate At(e: nat)
      reads this`index
    {
      index == Slot(e, stride, offset)
    }

    function EntryAt(e: nat): seq<real>
      requires Reaches(e + 1)
      reads values
    {
      Entry(values[..], stride, offset, width, e)
    }

    /** Transforms the next entry and moves on. */
    method Compute(matrix: Mat4, ghost e: nat)
      requires Reaches(e + 1) && At(e)
      modifies this`result, this`index
      ensures At(e + 1) && result == MultiplyVector(matrix, AsVector(EntryAt(e), isPoint))
    {
      hide MultiplyVector, Slot;
      SlotInside(e, e + 1, stride, offset, width);
      SlotNext(e, stride, offset);
      var ii := index;
      var vec :=
        if width == 3 then Vec4(values[ii], values[ii + 1], values[ii + 2], if isPoint then 1.0 else 0.0)
        else Vec4(values[ii], values[ii + 1], values[ii + 2], values[ii + 3]);
      result := MultiplyVector(matrix, vec);
      index := ii + stride;
    }

    /** Stores the result of `source` as the next entry and moves on. */
    method Copy(source: StreamInfo, ghost e: nat)
      requires Reaches(e + 1) && At(e) && source != this
      modifies this`index, values
      ensures At(e + 1) && Slot(e, stride, offset) + width <= values.Length
      ensures values[..] == Put(old(values[..]), Slot(e, stride, offset), Components(source.result, width))
    {
      hide Slot;
      SlotInside(e, e + 1, stride, offset, width);
      SlotNext(e, stride, offset);
      var ii, result := index, source.result;
      ghost var was := values[..];
      PutComponents(was, ii, result, width);
      hide Put, Components;
      values[ii] := result.x;
      values[ii + 1] := result.y;
      values[ii + 2] := result.z;
      if width == 4 {
        values[ii + 3] := result.w;
      }
      index := ii + stride;
    }
  }

  // -------------------------------------------------------------------------- skinning

  /** The influence lists that move a vertex: empty ones are passed over. */
  function NonEmpty(influences: seq<seq<Influence>>, n: nat): (list: seq<seq<Influence>>)
    requires n <= |influences|
    ensures |list| <= n
  {
    if n == 0 then []
    else NonEmpty(influences, n - 1) + if |influences[n - 1]| == 0 then [] else [influences[n - 1]]
  }

  /** No empty list comes before another one. */
  predicate NoGap(influences: seq<seq<Influence>>) {
    forall d, e :: 0 <= d < e < |influences| && |influences[e]| > 0 ==> |influences[d]| > 0
  }

  /** Two streams never write the same number. */
  predicate Apart(o: StreamInfo, p: StreamInfo) {
    o.values != p.values || (o.stride == p.stride && (o.offset + o.width <= p.offset || p.offset + p.width <= o.offset))
  }

  predicate Target(outputs: seq<seq<StreamInfo>>, j: int, l: int) { 0 <= j < |outputs| && 0 <= l < |outputs[j]| }

  /** Output `j` does not write what other inputs read.  It may write over its own input, entry
      for entry. */
  predicate KeepsOff(inputs: seq<StreamInfo>, i: int, o: StreamInfo, j: int)
    requires 0 <= i < |inputs|
  {
    && inputs[i] != o
    && if i == j then o.values == inputs[i].values ==> o.stride == inputs[i].stride else Apart(inputs[i], o)
  }

  /** Outputs stay clear of each other and of the inputs, and reach over `n` elements. */
  ghost predicate Wired(inputs: seq<StreamInfo>, outputs: seq<seq<StreamInfo>>, n: nat) {
    && |inputs| == |outputs|
    && (forall j :: 0 <= j < |inputs| ==> inputs[j].Reaches(n))
    && (forall i, j :: 0 <= i < j < |inputs| ==> inputs[i] != inputs[j])
    && (forall i, j, l :: 0 <= i < |inputs| && Target(outputs, j, l) ==> KeepsOff(inputs, i, outputs[j][l], j))
    && Separate(outputs, n)
  }

  ghost predicate Separate(outputs: seq<seq<StreamInfo>>, n: nat) {
    && (forall j, l :: Target(outputs, j, l) ==> outputs[j][l].Reaches(n))
    && (forall j, l, j', l' :: Target(outputs, j, l) && Target(outputs, j', l') && (j != j' || l != l') ==>
          outputs[j][l] != outputs[j'][l'] && Apart(outputs[j][l], outputs[j'][l']))
  }

  ghost function Infos(outputs: seq<seq<StreamInfo>>): set<StreamInfo> {
    set j, l | 0 <= j < |outputs| && 0 <= l < |outputs[j]| :: outputs[j][l]
  }

  ghost function Arrays(outputs: seq<seq<StreamInfo>>): set<array<real>> {
    set j, l | 0 <= j < |outputs| && 0 <= l < |outputs[j]| :: outputs[j][l].values
  }

  /** Entries that target `(j, l)` has written when `k` vertices and, of the next one,
      all targets before `(jj, ll)` are done. */
  function Turns(k: nat, jj: int, ll: int, j: int, l: int): nat { if j < jj || (j == jj && l < ll) then k + 1 else k }

  ghost predicate Progress(outputs: seq<seq<StreamInfo>>, images: seq<seq<Vec4>>, n: nat, k: nat, jj: int, ll: int)
    requires Separate(outputs, n) && |images| == |outputs| && forall j :: 0 <= j < |images| ==> |images[j]| <= n
    reads Infos(outputs), Arrays(outputs)
  {
    && (forall j, l :: Target(outputs, j, l) ==> Turns(k, jj, ll, j, l) <= |images[j]|)
    && (forall j, l :: Target(outputs, j, l) ==> outputs[j][l].At(Turns(k, jj, ll, j, l)))
    && (forall j, l, e :: Target(outputs, j, l) && 0 <= e < Turns(k, jj, ll, j, l) ==>
          Written(outputs[j][l], n, e, images[j][e]))
  }

  ghost predicate Written(o: StreamInfo, n: nat, e: nat, image: Vec4)
    requires o.Reaches(n) && e < n
    reads o.values
  {
    SlotMonotone(e + 1, n, o.stride, 0);
    o.EntryAt(e) == Components(image, o.width)
  }

  lemma PutKeepsWritten(o: StreamInfo, s: seq<real>, t: seq<real>, p: StreamInfo, n: nat, k: nat, e: nat, v: seq<real>)
    requires o.Reaches(n) && p.Reaches(n) && k < n && e < n && |v| == p.width && o.values == p.values
    requires |s| == |t| == o.values.Length && Slot(k, p.stride, p.offset) + p.width <= |s|
    requires t == Put(s, Slot(k, p.stride, p.offset), v)
    requires (o == p && e != k) || (o != p && Apart(o, p))
    ensures Fits(s, o.stride, o.offset, o.width, e + 1) && Fits(t, o.stride, o.offset, o.width, e + 1)
    ensures Entry(t, o.stride, o.offset, o.width, e) == Entry(s, o.stride, o.offset, o.width, e)
  {
    hide Slot, Put, Entry;
    SlotMonotone(e + 1, n, o.stride, 0);
    SlotMonotone(k + 1, n, p.stride, 0);
    PutKeepsEntry(s, o.stride, p.offset, p.width, k, v, o.offset, o.width, e);
  }

  lemma RowDone(outputs: seq<seq<StreamInfo>>, images: seq<seq<Vec4>>, n: nat, k: nat, jj: nat)
    requires Separate(outputs, n) && |images| == |outputs| && forall j :: 0 <= j < |images| ==> |images[j]| <= n
    requires jj < |outputs| && Progress(outputs, images, n, k, jj, |outputs[jj]|)
    ensures Progress(outputs, images, n, k, jj + 1, 0)
  {
    hide Written, Separate;
    assert forall j, l :: Target(outputs, j, l) ==> Turns(k, jj + 1, 0, j, l) == Turns(k, jj, |outputs[jj]|, j, l);
  }

  lemma VertexDone(outputs: seq<seq<StreamInfo>>, images: seq<seq<Vec4>>, n: nat, k: nat)
    requires Separate(outputs, n) && |images| == |outputs| && forall j :: 0 <= j < |images| ==> |images[j]| <= n
    requires Progress(outputs, images, n, k, |outputs|, 0)
    ensures Progress(outputs, images, n, k + 1, 0, 0)
  {
    hide Written, Separate;
    assert forall j, l :: Target(outputs, j, l) ==> Turns(k, |outputs|, 0, j, l) == Turns(k + 1, 0, 0, j, l);
  }

  /** Number `i` of array `a` belongs to no target of stream `j`, in the first `m` elements. */
  ghost predicate UnclaimedBy(outputs: seq<seq<StreamInfo>>, j: int, m: nat, a: array<real>, i: nat) {
    forall l, e :: Target(outputs, j, l) && outputs[j][l].values == a && 0 <= e < m ==> !InSlot(outputs[j][l], e, i)
  }

  predicate InSlot(o: StreamInfo, e: nat, i: nat) {
    Slot(e, o.stride, o.offset) <= i < Slot(e, o.stride, o.offset) + o.width
  }

  /** It belongs to no target of any stream. */
  ghost predicate Unclaimed(outputs: seq<seq<StreamInfo>>, m: nat, a: array<real>, i: nat) {
    forall j :: 0 <= j < |outputs| ==> UnclaimedBy(outputs, j, m, a, i)
  }

  /** It is not written while `k` vertices and, of the next one, the streams before `jj` are done. */
  ghost predicate Untouched(outputs: seq<seq<StreamInfo>>, k: nat, jj: int, a: array<real>, i: nat) {
    forall j :: 0 <= j < |outputs| ==> UnclaimedBy(outputs, j, Turns(k, jj, 0, j, 0), a, i)
  }

  /** By then, what is not written still is as recorded. */
  ghost predicate Same(was: map<array<real>, seq<real>>, outputs: seq<seq<StreamInfo>>, k: nat, jj: int)
    reads was.Keys
  {
    forall a :: a in was ==>
      |was[a]| == a.Length && forall i :: 0 <= i < a.Length && Untouched(outputs, k, jj, a, i) ==> a[i] == was[a][i]
  }

  lemma SameInStream(was: map<array<real>, seq<real>>, outputs: seq<seq<StreamInfo>>, k: nat, jj: nat)
    requires Same(was, outputs, k, jj)
    ensures Same(was, outputs, k, jj + 1)
  {
    forall a, i: nat | Untouched(outputs, k, jj + 1, a, i)
      ensures Untouched(outputs, k, jj, a, i)
    {
      forall j | 0 <= j < |outputs|
        ensures UnclaimedBy(outputs, j, Turns(k, jj, 0, j, 0), a, i)
      {
        assert UnclaimedBy(outputs, j, Turns(k, jj + 1, 0, j, 0), a, i);
      }
    }
    hide Untouched;
  }

  lemma SameAfterVertex(was: map<array<real>, seq<real>>, outputs: seq<seq<StreamInfo>>, k: nat)
    requires Same(was, outputs, k, |outputs|)
    ensures Same(was, outputs, k + 1, 0)
  {
    forall a, i: nat | Untouched(outputs, k + 1, 0, a, i)
      ensures Untouched(outputs, k, |outputs|, a, i)
    {
      forall j | 0 <= j < |outputs|
        ensures UnclaimedBy(outputs, j, Turns(k, |outputs|, 0, j, 0), a, i)
      {
        assert UnclaimedBy(outputs, j, Turns(k + 1, 0, 0, j, 0), a, i);
      }
    }
    hide Untouched;
  }

  lemma SameAtLast(was: map<array<real>, seq<real>>, outputs: seq<seq<StreamInfo>>, m: nat)
    requires Same(was, outputs, m, 0)
    ensures forall a, i :: a in was && 0 <= i < a.Length && Unclaimed(outputs, m, a, i) ==>
              i < |was[a]| && a[i] == was[a][i]
  {
    assert forall a, i: nat :: Unclaimed(outputs, m, a, i) ==> Untouched(outputs, m, 0, a, i);
    hide Untouched, Unclaimed;
  }

  lemma TouchedByTurn(outputs: seq<seq<StreamInfo>>, k: nat, jj: nat, ll: nat, i: nat)
    requires Target(outputs, jj, ll) && InSlot(outputs[jj][ll], k, i)
    ensures !Untouched(outputs, k, jj + 1, outputs[jj][ll].values, i)
  {
    assert !UnclaimedBy(outputs, jj, Turns(k, jj + 1, 0, jj, 0), outputs[jj][ll].values, i);
  }

  /** Copies one result to one target. */
  method CopyStep(outputs: seq<seq<StreamInfo>>, ghost images: seq<seq<Vec4>>, ghost was: map<array<real>, seq<real>>,
                  ghost n: nat, ghost k: nat, jj: nat, ll: nat, source: StreamInfo)
    requires Separate(outputs, n) && |images| == |outputs| && forall j :: 0 <= j < |images| ==> |images[j]| <= n
    requires Progress(outputs, images, n, k, jj, ll) && jj < |outputs| && ll < |outputs[jj]| && k < |images[jj]|
    requires source !in Infos(outputs) && source.result == images[jj][k]
    requires Same(was, outputs, k, jj + 1)
    modifies outputs[jj][ll], outputs[jj][ll].values
    ensures Progress(outputs, images, n, k, jj, ll + 1) && Same(was, outputs, k, jj + 1)
  {
    hide Slot, Put, Entry, Components, Untouched;
    var p := outputs[jj][ll];
    assert Target(outputs, jj, ll);
    ghost var before := p.values[..];
    SlotMonotone(k + 1, n, p.stride, 0);
    p.Copy(source, k);
    PutThenEntry(before, p.stride, p.offset, p.width, k, Components(source.result, p.width));
    PutOutside(before, Slot(k, p.stride, p.offset), Components(source.result, p.width));
    forall i | 0 <= i < p.values.Length && Untouched(outputs, k, jj + 1, p.values, i)
      ensures p.values[i] == old(p.values[i])
    {
      if InSlot(p, k, i) {
        TouchedByTurn(outputs, k, jj, ll, i);
      }
      assert p.values[i] == p.values[..][i] && before[i] == old(p.values[i]);
    }
    forall j, l, e | Target(outputs, j, l) && 0 <= e < Turns(k, jj, ll + 1, j, l)
      ensures Written(outputs[j][l], n, e, images[j][e])
    {
      var o := outputs[j][l];
      SlotMonotone(e + 1, n, o.stride, 0);
      if j == jj && l == ll && e == k {
      } else {
        assert old(Written(o, n, e, images[j][e]));
        if o.values == p.values {
          PutKeepsWritten(o, before, p.values[..], p, n, k, e, Components(source.result, p.width));
        }
      }
    }
  }

  /** Adds the weighted bones up in place. */
  method Accumulate(influences: seq<Influence>, bones: seq<Mat4>) returns (matrix: Mat4)
    requires BonesExist(influences, bones) && |influences| > 0
    ensures matrix == Accumulated(influences, bones, |influences|)
  {
    hide AddWeighted;
    var accumulated := new Vec4[4](_ => Zero4());
    MultiplyAdd(bones[influences[0].bone], influences[0].weight, accumulated);
    for jj := 1 to |influences|
      invariant AsMatrix(accumulated[..]) == Accumulated(influences, bones, jj)
    {
      MultiplyAdd(bones[influences[jj].bone], influences[jj].weight, accumulated);
    }
    matrix := AsMatrix(accumulated[..]);
  }

  method MultiplyAdd(input: Mat4, weight: real, output: array<Vec4>)
    requires output.Length == 4
    modifies output
    ensures output[0] == AddWeighted(old(output[0]), input.r0, weight)
    ensures output[1] == AddWeighted(old(output[1]), input.r1, weight)
    ensures output[2] == AddWeighted(old(output[2]), input.r2, weight)
    ensures output[3] == AddWeighted(old(output[3]), input.r3, weight)
  {
    output[0] := AddWeighted(output[0], input.r0, weight);
    output[1] := AddWeighted(output[1], input.r1, weight);
    output[2] := AddWeighted(output[2], input.r2, weight);
    output[3] := AddWeighted(output[3], input.r3, weight);
  }

  /** Whether every stream has passed `k` entries, those before `jj` one more. */
  ghost predicate InputsAt(inputs: seq<StreamInfo>, k: nat, jj: int)
    reads set j | 0 <= j < |inputs| :: inputs[j]
  {
    forall j :: 0 <= j < |inputs| ==> inputs[j].At(if j < jj then k + 1 else k)
  }

  /** The vertex that input `j` holds as entry `e`. */
  function VertexIn(s: seq<real>, input: StreamInfo, e: nat): Vec4
    requires input.Reaches(e + 1) && |s| == input.values.Length
  {
    AsVector(Entry(s, input.stride, input.offset, input.width, e), input.isPoint)
  }

  /** What input `j` reads of an element is written by its own outputs only. */
  ghost predicate Clear(inputs: seq<StreamInfo>, j: int, outputs: seq<seq<StreamInfo>>, n: nat)
    requires 0 <= j < |inputs|
  {
    inputs[j].Reaches(n) && forall j', l :: Target(outputs, j', l) ==> KeepsOff(inputs, j, outputs[j'][l], j')
  }

  /** Slots are apart if their elements are, or their streams. */
  lemma SlotsOff(input: StreamInfo, o: StreamInfo, n: nat, k: nat, e: nat, i: nat)
    requires input.Reaches(n) && o.Reaches(n) && o.values == input.values && o.stride == input.stride
    requires k != e || Apart(input, o)
    requires InSlot(input, k, i)
    ensures !InSlot(o, e, i)
  {
    hide Slot;
    var c, d := i - Slot(k, input.stride, input.offset), i - Slot(e, o.stride, o.offset);
    if 0 <= d < o.width {
      SlotShifted(k, input.stride, input.offset, c);
      SlotShifted(e, o.stride, o.offset, d);
      SlotsApart(k, e, o.stride, input.offset + c, o.offset + d);
    }
  }

  /** Before its turn comes, what the input reads is not written: not in earlier elements, and
      in this one not by the streams before it. */
  lemma InputUntouched(inputs: seq<StreamInfo>, jj: int, outputs: seq<seq<StreamInfo>>, n: nat, k: nat, i: nat)
    requires 0 <= jj < |inputs| && Clear(inputs, jj, outputs, n) && Separate(outputs, n) && k < n
    requires InSlot(inputs[jj], k, i)
    ensures Untouched(outputs, k, jj, inputs[jj].values, i)
  {
    hide InSlot, StreamInfo.Reaches;
    var input := inputs[jj];
    forall j, l, e | Target(outputs, j, l) && outputs[j][l].values == input.values && 0 <= e <= k && (e < k || j < jj)
      ensures !InSlot(outputs[j][l], e, i)
    {
      assert KeepsOff(inputs, jj, outputs[j][l], j) && outputs[j][l].Reaches(n);
      SlotsOff(input, outputs[j][l], n, k, e, i);
    }
  }

  lemma SlotShifted(e: nat, total: nat, r: nat, c: nat)
    ensures Slot(e, total, r + c) == Slot(e, total, r) + c
  {
  }

  /** The vertex that an input is about to read is the one that was there at first. */
  lemma VertexKept(inputs: seq<StreamInfo>, jj: int, outputs: seq<seq<StreamInfo>>, n: nat, k: nat,
                   was: map<array<real>, seq<real>>)
    requires 0 <= jj < |inputs| && Clear(inputs, jj, outputs, n) && Separate(outputs, n) && k < n
    requires Same(was, outputs, k, jj) && inputs[jj].values in was
    ensures inputs[jj].Reaches(k + 1) && |was[inputs[jj].values]| == inputs[jj].values.Length
    ensures VertexIn(inputs[jj].values[..], inputs[jj], k) == VertexIn(was[inputs[jj].values], inputs[jj], k)
  {
    hide Slot, Untouched, Separate;
    var input := inputs[jj];
    var s, t := was[input.values], input.values[..];
    SlotMonotone(k + 1, n, input.stride, 0);
    SlotInside(k, k + 1, input.stride, input.offset, input.width);
    var at := Slot(k, input.stride, input.offset);
    forall i | at <= i < at + input.width
      ensures s[i] == t[i]
    {
      InputUntouched(inputs, jj, outputs, n, k, i);
    }
    assert s[at..at + input.width] == t[at..at + input.width];
  }

  lemma WiredParts(inputs: seq<StreamInfo>, outputs: seq<seq<StreamInfo>>, n: nat)
    requires Wired(inputs, outputs, n)
    ensures |inputs| == |outputs| && Separate(outputs, n)
    ensures forall j :: 0 <= j < |inputs| ==> inputs[j].Reaches(n)
    ensures forall j :: 0 <= j < |inputs| ==> Clear(inputs, j, outputs, n) && inputs[j] !in Infos(outputs)
    ensures forall i, j :: 0 <= i < j < |inputs| ==> inputs[i] != inputs[j]
  {
    hide Separate, StreamInfo.Reaches, Apart;
    forall i, o | 0 <= i < |inputs| && o in Infos(outputs)
      ensures inputs[i] != o
    {
      var j, l :| 0 <= j < |outputs| && 0 <= l < |outputs[j]| && o == outputs[j][l];
      assert Target(outputs, j, l) && KeepsOff(inputs, i, outputs[j][l], j);
    }
  }

  /** Transforms the next entry of stream `jj` and copies it to the targets of that stream. */
  method SkinStream(matrix: Mat4, inputs: seq<StreamInfo>, outputs: seq<seq<StreamInfo>>, ghost images: seq<seq<Vec4>>,
                    ghost was: map<array<real>, seq<real>>, ghost n: nat, ghost k: nat, jj: nat)
    requires Separate(outputs, n) && |images| == |outputs| == |inputs| && k < n && jj < |inputs|
    requires forall j :: 0 <= j < |images| ==> k < |images[j]| <= n
    requires forall i, j :: 0 <= i < j < |inputs| ==> inputs[i] != inputs[j]
    requires forall j :: 0 <= j < |inputs| ==> inputs[j] !in Infos(outputs)
    requires Clear(inputs, jj, outputs, n) && inputs[jj].values in was && Same(was, outputs, k, jj)
    requires Recorded(inputs[jj], was, n)
    requires images[jj][k] == MultiplyVector(matrix, RecordedVertex(inputs[jj], was, n, k))
    requires InputsAt(inputs, k, jj) && Progress(outputs, images, n, k, jj, 0)
    modifies inputs[jj], Infos(outputs), Arrays(outputs)
    ensures InputsAt(inputs, k, jj + 1) && Progress(outputs, images, n, k, jj + 1, 0)
    ensures Same(was, outputs, k, jj + 1)
  {
    hide Slot, MultiplyVector, Put, Entry, AsVector, Progress, Written, Separate, StreamInfo.Reaches, Clear, Same;
    VertexKept(inputs, jj, outputs, n, k, was);
    inputs[jj].Compute(matrix, k);
    assert InputsAt(inputs, k, jj + 1);
    hide InputsAt;
    SameInStream(was, outputs, k, jj);
    for ll := 0 to |outputs[jj]|
      invariant InputsAt(inputs, k, jj + 1) && Progress(outputs, images, n, k, jj, ll)
      invariant inputs[jj].result == images[jj][k] && Same(was, outputs, k, jj + 1)
    {
      CopyStep(outputs, images, was, n, k, jj, ll, inputs[jj]);
    }
    RowDone(outputs, images, n, k, jj);
  }

  /** The contents of the input's array were recorded, and what entry `k` held. */
  predicate Recorded(input: StreamInfo, was: map<array<real>, seq<real>>, n: nat) {
    input.values in was && |was[input.values]| == input.values.Length && input.Reaches(n)
  }

  function RecordedVertex(input: StreamInfo, was: map<array<real>, seq<real>>, n: nat, k: nat): Vec4
    requires Recorded(input, was, n) && k < n
  {
    SlotMonotone(k + 1, n, input.stride, 0);
    VertexIn(was[input.values], input, k)
  }

  /** Moves one vertex in every stream. */
  method SkinVertex(matrix: Mat4, inputs: seq<StreamInfo>, outputs: seq<seq<StreamInfo>>, ghost images: seq<seq<Vec4>>,
                    ghost was: map<array<real>, seq<real>>, ghost n: nat, ghost k: nat)
    requires Wired(inputs, outputs, n) && |images| == |outputs| && k < n
    requires forall j :: 0 <= j < |images| ==> k < |images[j]| <= n
    requires forall j :: 0 <= j < |inputs| ==> Recorded(inputs[j], was, n)
    requires forall j :: 0 <= j < |inputs| ==>
               images[j][k] == MultiplyVector(matrix, RecordedVertex(inputs[j], was, n, k))
    requires InputsAt(inputs, k, 0) && Progress(outputs, images, n, k, 0, 0) && Same(was, outputs, k, 0)
    modifies set j | 0 <= j < |inputs| :: inputs[j]
    modifies Infos(outputs), Arrays(outputs)
    ensures InputsAt(inputs, k + 1, 0) && Progress(outputs, images, n, k + 1, 0, 0) && Same(was, outputs, k + 1, 0)
  {
    hide *;
    WiredParts(inputs, outputs, n);
    RecordedKeys(inputs, was, n);
    for jj := 0 to |inputs|
      invariant InputsAt(inputs, k, jj) && Progress(outputs, images, n, k, jj, 0) && Same(was, outputs, k, jj)
    {
      SkinStream(matrix, inputs, outputs, images, was, n, k, jj);
    }
    VertexDone(outputs, images, n, k);
    InputsDone(inputs, k);
    SameAfterVertex(was, outputs, k);
  }

  lemma InputsDone(inputs: seq<StreamInfo>, k: nat)
    requires InputsAt(inputs, k, |inputs|)
    ensures InputsAt(inputs, k + 1, 0)
  {
  }

  lemma RecordedKeys(inputs: seq<StreamInfo>, was: map<array<real>, seq<real>>, n: nat)
    requires forall j :: 0 <= j < |inputs| ==> Recorded(inputs[j], was, n)
    ensures forall j :: 0 <= j < |inputs| ==> inputs[j].values in was
  {
  }

  ghost predicate AllBonesExist(influences: seq<seq<Influence>>, bones: seq<Mat4>) {
    forall e :: 0 <= e < |influences| ==> BonesExist(influences[e], bones)
  }

  /** The weighted image of a stream's entry `k`. */
  function Image(s: seq<real>, input: StreamInfo, list: seq<Influence>, bones: seq<Mat4>, n: nat, k: nat): Vec4
    requires input.Reaches(n) && k < n && |s| == input.values.Length && BonesExist(list, bones)
  {
    SlotMonotone(k + 1, n, input.stride, 0);
    WeightedImage(list, bones, |list|, VertexIn(s, input, k))
  }

  ghost function Images(s: seq<real>, input: StreamInfo, lists: seq<seq<Influence>>, bones: seq<Mat4>,
                        n: nat): (images: seq<Vec4>)
    requires input.Reaches(n) && |lists| <= n && |s| == input.values.Length && AllBonesExist(lists, bones)
    ensures |images| == |lists|
    ensures forall k :: 0 <= k < |lists| ==> images[k] == Image(s, input, lists[k], bones, n, k)
  {
    seq(|lists|, k requires 0 <= k < |lists| => Image(s, input, lists[k], bones, n, k))
  }

  ghost function AllImages(inputs: seq<StreamInfo>, lists: seq<seq<Influence>>, bones: seq<Mat4>, n: nat,
                           m: nat): (images: seq<seq<Vec4>>)
    requires m <= |inputs| && |lists| <= n && AllBonesExist(lists, bones)
    requires forall j :: 0 <= j < |inputs| ==> inputs[j].Reaches(n)
    reads set j | 0 <= j < |inputs| :: inputs[j].values
    ensures |images| == m
    ensures forall j :: 0 <= j < m ==> images[j] == Images(inputs[j].values[..], inputs[j], lists, bones, n)
  {
    if m == 0 then []
    else AllImages(inputs, lists, bones, n, m - 1) + [Images(inputs[m - 1].values[..], inputs[m - 1], lists, bones, n)]
  }

  lemma {:induction false} NonEmptyLists(influences: seq<seq<Influence>>, bones: seq<Mat4>, n: nat)
    requires n <= |influences| && AllBonesExist(influences, bones)
    ensures AllBonesExist(NonEmpty(influences, n), bones)
  {
    if n > 0 {
      NonEmptyLists(influences, bones, n - 1);
    }
  }

  lemma {:induction false} NonEmptyGrows(influences: seq<seq<Influence>>, n: nat, m: nat)
    requires n <= m <= |influences|
    ensures NonEmpty(influences, n) <= NonEmpty(influences, m)
  {
    if n < m {
      NonEmptyGrows(influences, n, m - 1);
    }
  }

  /** Skins every stream.  A vertex without influences does not move the streams on, so
      entry `k` goes with the `k`-th non-empty list. */
  method DoSkinning(influences: seq<seq<Influence>>, bones: seq<Mat4>, inputs: seq<StreamInfo>,
                    outputs: seq<seq<StreamInfo>>)
    requires Wired(inputs, outputs, |influences|) && AllBonesExist(influences, bones)
    requires forall j :: 0 <= j < |inputs| ==> inputs[j].At(0)
    requires forall j, l :: Target(outputs, j, l) ==> outputs[j][l].At(0)
    modifies set j | 0 <= j < |inputs| :: inputs[j]
    modifies Infos(outputs), Arrays(outputs)
    ensures AllBonesExist(NonEmpty(influences, |influences|), bones)
    ensures var lists, n := NonEmpty(influences, |influences|), |influences|;
      forall j, l, k :: Target(outputs, j, l) && 0 <= k < |lists| ==>
        Written(outputs[j][l], n, k, Image(old(inputs[j].values[..]), inputs[j], lists[k], bones, n, k))
    ensures var m := |NonEmpty(influences, |influences|)|;
      forall a, i :: a in Arrays(outputs) && 0 <= i < a.Length && Unclaimed(outputs, m, a, i) ==> a[i] == old(a[i])
  {
    hide Slot, MultiplyVector, Put, Entry, AsVector, Written, Same, Recorded, RecordedVertex;
    hide WeightedImage, Accumulated, NonEmpty, Progress, InputsAt, Wired, Recording, Contents, AllImages;
    hide Separate, Images, Image, StreamInfo.Reaches, StreamInfo.At, Clear;
    hide Unclaimed, AllBonesExist, BonesExist, VertexIn, Target;
    ghost var n, lists, k := |influences|, NonEmpty(influences, |influences|), 0;
    NonEmptyLists(influences, bones, n);
    WiredParts(inputs, outputs, n);
    ghost var images := AllImages(inputs, lists, bones, n, |inputs|);
    ghost var contents, was := Contents(inputs), Recording(inputs, outputs);
    ContentsRecorded(inputs, outputs, n);
    NothingSkinned(influences, inputs, outputs, images, n);
    NothingTouched(inputs, outputs);
    for ii := 0 to |influences|
      invariant k == |NonEmpty(influences, ii)| && InputsAt(inputs, k, 0) && Progress(outputs, images, n, k, 0, 0)
      invariant Same(was, outputs, k, 0)
    {
      NonEmptyNext(influences, ii);
      if |influences[ii]| > 0 {
        ListExists(influences, bones, ii);
        var matrix := Accumulate(influences[ii], bones);
        forall j | 0 <= j < |inputs|
          ensures images[j][k] == MultiplyVector(matrix, RecordedVertex(inputs[j], was, n, k))
        {
          MatrixInStream(inputs[j], contents[j], was, images[j], lists, bones, n, k, matrix);
        }
        SkinVertex(matrix, inputs, outputs, images, was, n, k);
        k := k + 1;
      }
    }
    AllSkinned(inputs, contents, outputs, images, lists, bones, n);
    TargetsInRange(outputs);
    SameAtLast(was, outputs, k);
    assert forall j :: 0 <= j < |inputs| ==> contents[j] == old(inputs[j].values[..]);
  }

  lemma ContentsRecorded(inputs: seq<StreamInfo>, outputs: seq<seq<StreamInfo>>, n: nat)
    requires forall j :: 0 <= j < |inputs| ==> inputs[j].Reaches(n)
    ensures var contents, was := Contents(inputs), Recording(inputs, outputs);
      forall j :: 0 <= j < |inputs| ==> Recorded(inputs[j], was, n) && contents[j] == was[inputs[j].values]
  {
    hide StreamInfo.Reaches;
    assert forall j :: 0 <= j < |inputs| ==> inputs[j].values in Recording(inputs, outputs);
  }

  lemma MatrixInStream(input: StreamInfo, s: seq<real>, was: map<array<real>, seq<real>>, images: seq<Vec4>,
                       lists: seq<seq<Influence>>, bones: seq<Mat4>, n: nat, k: nat, matrix: Mat4)
    requires Recorded(input, was, n) && s == was[input.values] && k < |lists| <= n && AllBonesExist(lists, bones)
    requires images == Images(s, input, lists, bones, n) && BonesExist(lists[k], bones)
    requires matrix == Accumulated(lists[k], bones, |lists[k]|)
    ensures images[k] == MultiplyVector(matrix, RecordedVertex(input, was, n, k))
  {
    hide Images, Image, VertexIn, MultiplyVector, Accumulated, AllBonesExist, BonesExist, StreamInfo.Reaches;
    MatrixImage(input, s, lists, bones, n, k, matrix);
  }

  /** What all arrays hold. */
  ghost function Recording(inputs: seq<StreamInfo>, outputs: seq<seq<StreamInfo>>): (was: map<array<real>, seq<real>>)
    reads set j | 0 <= j < |inputs| :: inputs[j].values
    reads Arrays(outputs)
    ensures was.Keys == (set j | 0 <= j < |inputs| :: inputs[j].values) + Arrays(outputs)
    ensures forall a :: a in was ==> was[a] == a[..]
  {
    map a | a in (set j | 0 <= j < |inputs| :: inputs[j].values) + Arrays(outputs) :: a[..]
  }

  lemma NothingTouched(inputs: seq<StreamInfo>, outputs: seq<seq<StreamInfo>>)
    ensures Same(Recording(inputs, outputs), outputs, 0, 0)
  {
    hide Untouched;
  }

  lemma TargetsInRange(outputs: seq<seq<StreamInfo>>)
    ensures forall j, l :: Target(outputs, j, l) ==> 0 <= j < |outputs|
  {
  }

  ghost function Contents(inputs: seq<StreamInfo>): (s: seq<seq<real>>)
    reads set j | 0 <= j < |inputs| :: inputs[j].values
    ensures |s| == |inputs| && forall j :: 0 <= j < |inputs| ==> s[j] == inputs[j].values[..]
  {
    if |inputs| == 0 then [] else Contents(inputs[..|inputs| - 1]) + [inputs[|inputs| - 1].values[..]]
  }

  lemma ListExists(influences: seq<seq<Influence>>, bones: seq<Mat4>, e: nat)
    requires e < |influences| && AllBonesExist(influences, bones)
    ensures BonesExist(influences[e], bones)
  {
  }

  lemma NothingSkinned(influences: seq<seq<Influence>>, inputs: seq<StreamInfo>, outputs: seq<seq<StreamInfo>>,
                       images: seq<seq<Vec4>>, n: nat)
    requires Separate(outputs, n) && |images| == |outputs| && forall j :: 0 <= j < |images| ==> |images[j]| <= n
    requires forall j :: 0 <= j < |inputs| ==> inputs[j].At(0)
    requires forall j, l :: Target(outputs, j, l) ==> outputs[j][l].At(0)
    ensures |NonEmpty(influences, 0)| == 0 && InputsAt(inputs, 0, 0) && Progress(outputs, images, n, 0, 0, 0)
  {
    hide Separate, StreamInfo.At, Written;
  }

  lemma AllSkinned(inputs: seq<StreamInfo>, was: seq<seq<real>>, outputs: seq<seq<StreamInfo>>, images: seq<seq<Vec4>>,
                   lists: seq<seq<Influence>>, bones: seq<Mat4>, n: nat)
    requires Separate(outputs, n) && |images| == |inputs| == |outputs| && |lists| <= n && AllBonesExist(lists, bones)
    requires forall j :: 0 <= j < |inputs| ==> inputs[j].Reaches(n) && |images[j]| <= n
    requires |was| == |inputs| && forall j :: 0 <= j < |inputs| ==> |was[j]| == inputs[j].values.Length
    requires forall j :: 0 <= j < |inputs| ==> images[j] == Images(was[j], inputs[j], lists, bones, n)
    requires Progress(outputs, images, n, |lists|, 0, 0)
    ensures forall j, l, k :: Target(outputs, j, l) && 0 <= k < |lists| ==>
              Written(outputs[j][l], n, k, Image(was[j], inputs[j], lists[k], bones, n, k))
  {
    hide Slot, StreamInfo.At, Written, Image, BonesExist, Apart;
    forall j, l, k | Target(outputs, j, l) && 0 <= k < |lists|
      ensures Written(outputs[j][l], n, k, Image(was[j], inputs[j], lists[k], bones, n, k))
    {
      assert Turns(|lists|, 0, 0, j, l) >= |lists|;
      assert images[j][k] == Image(was[j], inputs[j], lists[k], bones, n, k);
    }
  }

  lemma NonEmptyNext(influences: seq<seq<Influence>>, i: nat)
    requires i < |influences|
    ensures var list, lists := NonEmpty(influences, i), NonEmpty(influences, |influences|);
      && (|influences[i]| == 0 ==> NonEmpty(influences, i + 1) == list)
      && (|influences[i]| > 0 ==>
            |NonEmpty(influences, i + 1)| == |list| + 1 && |list| < |lists| && lists[|list|] == influences[i])
  {
    NonEmptyGrows(influences, i + 1, |influences|);
    assert |influences[i]| > 0 ==> NonEmpty(influences, i + 1)[|NonEmpty(influences, i)|] == influences[i];
  }

  lemma MatrixImage(input: StreamInfo, s: seq<real>, lists: seq<seq<Influence>>, bones: seq<Mat4>, n: nat, k: nat,
                    matrix: Mat4)
    requires |s| == input.values.Length
    requires k < |lists| <= n && AllBonesExist(lists, bones) && input.Reaches(n)
    requires matrix == Accumulated(lists[k], bones, |lists[k]|)
    ensures input.Reaches(k + 1)
    ensures Images(s, input, lists, bones, n)[k] == MultiplyVector(matrix, VertexIn(s, input, k))
  {
    hide Slot, MultiplyVector, Accumulated, WeightedImage, AsVector, Entry;
    SlotMonotone(k + 1, n, input.stride, 0);
    AccumulatedImage(lists[k], bones, |lists[k]|, VertexIn(s, input, k));
  }

  // -------------------------------------------------------------------- empty lists

  lemma {:induction false} NonEmptyOfFull(influences: seq<seq<Influence>>, n: nat)
    requires n <= |influences| && forall e :: 0 <= e < n ==> |influences[e]| > 0
    ensures NonEmpty(influences, n) == influences[..n]
  {
    if n > 0 {
      NonEmptyOfFull(influences, n - 1);
    }
  }

  lemma {:induction false} NonEmptyAreFull(influences: seq<seq<Influence>>, n: nat)
    requires n <= |influences|
    ensures forall k :: 0 <= k < |NonEmpty(influences, n)| ==> |NonEmpty(influences, n)[k]| > 0
    ensures |NonEmpty(influences, n)| == n ==> forall e :: 0 <= e < n ==> |influences[e]| > 0
  {
    if n > 0 {
      NonEmptyAreFull(influences, n - 1);
    }
  }

  /** With a gap, the lists no longer go with the vertices. */
  lemma GapShifts(influences: seq<seq<Influence>>, n: nat)
    requires 0 < n <= |influences| && |influences[n - 1]| > 0 && |NonEmpty(influences, n - 1)| < n - 1
    ensures !(NonEmpty(influences, n) <= influences) && !NoGap(influences[..n])
  {
    hide NonEmpty;
    var lists, m := NonEmpty(influences, n), |NonEmpty(influences, n - 1)| + 1;
    if forall e :: 0 <= e < n - 1 ==> |influences[e]| > 0 {
      NonEmptyOfFull(influences, n - 1);
    }
    assert influences[..n][n - 1] == influences[n - 1];
    if lists <= influences && |lists| == m {
      NonEmptyAreFull(influences, n);
      assert forall e :: 0 <= e < m ==> influences[e] == lists[e];
      NonEmptyOfFull(influences, m);
      NonEmptyGrows(influences, m, n - 1);
      assert false;
    }
    LastCounts(influences, n);
  }

  lemma LastCounts(influences: seq<seq<Influence>>, n: nat)
    requires 0 < n <= |influences| && |influences[n - 1]| > 0
    ensures |NonEmpty(influences, n)| == |NonEmpty(influences, n - 1)| + 1
  {
  }

  /** Every vertex is moved by its own list exactly when no vertex without influences
      comes before one with some. */
  lemma {:induction false} ListsMatchVertices(influences: seq<seq<Influence>>, n: nat)
    requires n <= |influences|
    ensures NonEmpty(influences, n) <= influences <==> NoGap(influences[..n])
  {
    if n > 0 {
      ListsMatchVertices(influences, n - 1);
      if |influences[n - 1]| == 0 {
        EmptyTail(influences, n);
      } else if |NonEmpty(influences, n - 1)| == n - 1 {
        NonEmptyAreFull(influences, n - 1);
        NonEmptyOfFull(influences, n);
      } else {
        GapShifts(influences, n);
      }
    }
  }

  lemma EmptyTail(influences: seq<seq<Influence>>, n: nat)
    requires 0 < n <= |influences| && |influences[n - 1]| == 0
    ensures NonEmpty(influences, n) == NonEmpty(influences, n - 1)
    ensures NoGap(influences[..n]) <==> NoGap(influences[..n - 1])
  {
    var longer, shorter := influences[..n], influences[..n - 1];
    assert forall e :: 0 <= e < n - 1 ==> longer[e] == shorter[e];
    assert longer[n - 1] == influences[n - 1];
  }
}
