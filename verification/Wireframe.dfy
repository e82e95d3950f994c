/** Triangles of a primitive and the line list that outlines them. */
module Wireframes {
  import opened Options

  const TRIANGLELIST := 4
  const TRIANGLESTRIP := 5
  const TRIANGLEFAN := 6

  type IndexBuffer = Option<seq<int>>

  /** The triangle kinds, and how many vertices `n` triangles need; points and lines are read
      like a list. */
  predicate TriangleKind(kind: int) { kind == TRIANGLELIST || kind == TRIANGLESTRIP || kind == TRIANGLEFAN }

  function VertexCount(kind: int, n: nat): nat {
    if kind == TRIANGLESTRIP || kind == TRIANGLEFAN then n + 2 else 3 * n
  }

  predicate LongEnough(ib: IndexBuffer, count: nat) { ib.Some? ==> count <= |ib.value| }

  function GetIndex(ib: IndexBuffer, n: nat): int
    requires LongEnough(ib, n + 1)
  {
    if ib.Some? then ib.value[n] else n
  }

  /** The three vertices of triangle `n`; in a strip every other triangle is turned round. */
  function TriangleIndices(kind: int, ib: IndexBuffer, n: nat): (int, int, int)
    requires LongEnough(ib, VertexCount(kind, n + 1))
  {
    var t :=
      if kind == TRIANGLESTRIP then
        if n % 2 == 0 then (n, n + 1, n + 2) else (n + 1, n, n + 2)
      else if kind == TRIANGLEFAN then (0, n + 1, n + 2)
      else (3 * n, 3 * n + 1, 3 * n + 2);
    (GetIndex(ib, t.0), GetIndex(ib, t.1), GetIndex(ib, t.2))
  }

  /** A segment without direction. */
  datatype Segment = Segment(lower: int, upper: int)

  function Between(a: int, b: int): Segment { if a <= b then Segment(a, b) else Segment(b, a) }

  lemma BetweenSymmetric(a: int, b: int)
    ensures Between(a, b) == Between(b, a)
  {
  }

  lemma FanSides(z: int, prev: int, a: int)
    ensures Edges((z, prev, a)) == {Between(z, prev), Between(z, a), Between(a, prev)}
  {
    BetweenSymmetric(prev, a);
    BetweenSymmetric(z, a);
  }

  lemma StripSides(a: int, b: int, c: int)
    ensures Edges((a, b, c)) == Edges((b, a, c)) == {Between(a, b), Between(b, c), Between(c, a)}
  {
    BetweenSymmetric(a, b);
    BetweenSymmetric(b, c);
    BetweenSymmetric(a, c);
  }

  /** The sides of a triangle, and of all triangles so far. */
  function Edges(t: (int, int, int)): set<Segment> { {Between(t.0, t.1), Between(t.1, t.2), Between(t.2, t.0)} }

  function Outline(kind: int, ib: IndexBuffer, n: nat): set<Segment>
    requires LongEnough(ib, VertexCount(kind, n))
  {
    if n == 0 then {} else Outline(kind, ib, n - 1) + Edges(TriangleIndices(kind, ib, n - 1))
  }

  function Segments(s: seq<int>): set<Segment> {
    set k | 0 <= k < |s| / 2 :: Between(s[2 * k], s[2 * k + 1])
  }

  lemma SegmentsSnoc(s: seq<int>, n: nat, x: int, y: int)
    requires |s| == 2 * n
    ensures Segments(s + [x, y]) == Segments(s) + {Between(x, y)}
  {
    var t := s + [x, y];
    assert |t| / 2 == n + 1 && t[2 * n] == x && t[2 * n + 1] == y;
    assert forall k :: 0 <= k < n ==> t[2 * k] == s[2 * k] && t[2 * k + 1] == s[2 * k + 1];
    forall e | e in Segments(s) ensures e in Segments(t) {
      var k :| 0 <= k < n && e == Between(s[2 * k], s[2 * k + 1]);
      assert e == Between(t[2 * k], t[2 * k + 1]);
    }
  }

  /** The number of elements drawn for a wireframe. */
  function DrawnElements(kind: int, n: nat): nat {
    if kind == TRIANGLELIST then n * 6 else if n == 0 then 0 else n * 4 + 2
  }

  // ------------------------------------------------------------- the lines written

  function ListLines(ib: IndexBuffer, n: nat): (r: seq<int>)
    requires LongEnough(ib, 3 * n)
    ensures |r| == 6 * n
  {
    if n == 0 then [] else
      var a, b, c := GetIndex(ib, 3 * n - 3), GetIndex(ib, 3 * n - 2), GetIndex(ib, 3 * n - 1);
      ListLines(ib, n - 1) + [a, b] + [b, c] + [c, a]
  }

  /** The first two points make a line; each further point adds two. */
  function FanLines(ib: IndexBuffer, n: nat): (r: seq<int>)
    requires LongEnough(ib, n + 2)
    ensures |r| == 4 * n + 2
  {
    if n == 0 then [GetIndex(ib, 0), GetIndex(ib, 1)] else
      FanLines(ib, n - 1) + [GetIndex(ib, 0), GetIndex(ib, n + 1)] + [GetIndex(ib, n + 1), GetIndex(ib, n)]
  }

  function StripLines(ib: IndexBuffer, n: nat): (r: seq<int>)
    requires LongEnough(ib, n + 2)
    ensures |r| == 4 * n + 2
  {
    if n == 0 then [GetIndex(ib, 0), GetIndex(ib, 1)] else
      StripLines(ib, n - 1) + [GetIndex(ib, n), GetIndex(ib, n + 1)] + [GetIndex(ib, n + 1), GetIndex(ib, n - 1)]
  }

  lemma ThreeLines(s: seq<int>, k: nat, a: int, b: int, c: int)
    requires |s| == 2 * k
    ensures Segments(s + [a, b] + [b, c] + [c, a]) == Segments(s) + Edges((a, b, c))
  {
    hide Segments, Between;
    SegmentsSnoc(s, k, a, b);
    SegmentsSnoc(s + [a, b], k + 1, b, c);
    SegmentsSnoc(s + [a, b] + [b, c], k + 2, c, a);
  }

  /** Two new sides complete a triangle whose third side is there already. */
  lemma TwoLines(s: seq<int>, k: nat, first: Segment, outline: set<Segment>, known: Segment,
                 x: int, y: int, x': int, y': int, sides: set<Segment>)
    requires |s| == 2 * k && Segments(s) == {first} + outline && known in Segments(s)
    requires sides == {known, Between(x, y), Between(x', y')}
    ensures Segments(s + [x, y] + [x', y']) == {first} + (outline + sides)
    ensures Between(x, y) in Segments(s + [x, y] + [x', y'])
  {
    hide Segments, Between;
    SegmentsSnoc(s, k, x, y);
    SegmentsSnoc(s + [x, y], k + 1, x', y');
  }

  lemma {:induction false} ListOutline(ib: IndexBuffer, n: nat)
    requires LongEnough(ib, 3 * n)
    ensures Segments(ListLines(ib, n)) == Outline(TRIANGLELIST, ib, n)
  {
    hide Segments, Between;
    if n > 0 {
      ListOutline(ib, n - 1);
      ThreeLines(ListLines(ib, n - 1), 3 * n - 3,
                 GetIndex(ib, 3 * n - 3), GetIndex(ib, 3 * n - 2), GetIndex(ib, 3 * n - 1));
    } else {
      NoLines();
    }
  }

  lemma NoLines()
    ensures Segments([]) == {}
  {
  }

  lemma FirstLine(s: seq<int>)
    requires |s| == 2
    ensures Segments(s) == {Between(s[0], s[1])}
  {
    SegmentsSnoc([], 0, s[0], s[1]);
    assert [] + [s[0], s[1]] == s;
  }

  /** What a fan draws after `n` triangles: its first side and their outlines. */
  lemma {:induction false} FanOutline(ib: IndexBuffer, n: nat)
    requires LongEnough(ib, n + 2)
    ensures var first := Between(GetIndex(ib, 0), GetIndex(ib, 1));
      Segments(FanLines(ib, n)) == {first} + Outline(TRIANGLEFAN, ib, n)
    ensures Between(GetIndex(ib, 0), GetIndex(ib, n + 1)) in Segments(FanLines(ib, n))
  {
    hide Segments, Between;
    if n == 0 {
      FirstLine(FanLines(ib, 0));
    } else {
      FanOutline(ib, n - 1);
      var z, prev, a := GetIndex(ib, 0), GetIndex(ib, n), GetIndex(ib, n + 1);
      FanSides(z, prev, a);
      TwoLines(FanLines(ib, n - 1), 2 * n - 1, Between(z, GetIndex(ib, 1)), Outline(TRIANGLEFAN, ib, n - 1),
               Between(z, prev), z, a, a, prev, Edges((z, prev, a)));
    }
  }

  lemma {:induction false} StripOutline(ib: IndexBuffer, n: nat)
    requires LongEnough(ib, n + 2)
    ensures var first := Between(GetIndex(ib, 0), GetIndex(ib, 1));
      Segments(StripLines(ib, n)) == {first} + Outline(TRIANGLESTRIP, ib, n)
    ensures Between(GetIndex(ib, n), GetIndex(ib, n + 1)) in Segments(StripLines(ib, n))
  {
    hide Segments, Between;
    if n == 0 {
      FirstLine(StripLines(ib, 0));
    } else {
      StripOutline(ib, n - 1);
      var a, b, c := GetIndex(ib, n - 1), GetIndex(ib, n), GetIndex(ib, n + 1);
      StripSides(a, b, c);
      TwoLines(StripLines(ib, n - 1), 2 * n - 1, Between(GetIndex(ib, 0), GetIndex(ib, 1)),
               Outline(TRIANGLESTRIP, ib, n - 1),
               Between(a, b), b, c, c, a, Edges(TriangleIndices(TRIANGLESTRIP, ib, n - 1)));
    }
  }

  lemma {:induction false} FirstSide(kind: int, ib: IndexBuffer, n: nat)
    requires kind == TRIANGLESTRIP || kind == TRIANGLEFAN
    requires n > 0 && LongEnough(ib, VertexCount(kind, n))
    ensures Between(GetIndex(ib, 0), GetIndex(ib, 1)) in Outline(kind, ib, n)
  {
    if n > 1 {
      FirstSide(kind, ib, n - 1);
    }
  }

  // ------------------------------------------------------------------ writing them

  method WireList(ib: IndexBuffer, numTriangles: nat, wire: array<int>)
    requires LongEnough(ib, 3 * numTriangles) && wire.Length == 6 * numTriangles
    modifies wire
    ensures wire[..] == ListLines(ib, numTriangles)
  {
    var j := 0;
    for i := 0 to numTriangles
      invariant j == 6 * i && wire[..j] == ListLines(ib, i)
    {
      var a := GetIndex(ib, 3 * i);
      var b := GetIndex(ib, 3 * i + 1);
      var c := GetIndex(ib, 3 * i + 2);
      wire[j], wire[j + 1], wire[j + 2], wire[j + 3], wire[j + 4], wire[j + 5] := a, b, b, c, c, a;
      j := j + 6;
    }
  }

  method PutTwoLines(wire: array<int>, j: nat, x: int, y: int, x': int, y': int)
    requires j + 4 <= wire.Length
    modifies wire
    ensures wire[..j + 4] == old(wire[..j]) + [x, y] + [x', y']
  {
    wire[j], wire[j + 1], wire[j + 2], wire[j + 3] := x, y, x', y';
  }

  method WireFan(ib: IndexBuffer, numTriangles: nat, wire: array<int>)
    requires numTriangles > 0 && LongEnough(ib, numTriangles + 2) && wire.Length == 4 * numTriangles + 2
    modifies wire
    ensures wire[..] == FanLines(ib, numTriangles)
  {
    var z := GetIndex(ib, 0);
    wire[0], wire[1] := z, GetIndex(ib, 1);
    var j := 2;
    for i := 2 to numTriangles + 2
      invariant j == 4 * (i - 2) + 2 && wire[..j] == FanLines(ib, i - 2)
    {
      var a := GetIndex(ib, i);
      PutTwoLines(wire, j, z, a, a, GetIndex(ib, i - 1));
      j := j + 4;
    }
  }

  method WireStrip(ib: IndexBuffer, numTriangles: nat, wire: array<int>)
    requires numTriangles > 0 && LongEnough(ib, numTriangles + 2) && wire.Length == 4 * numTriangles + 2
    modifies wire
    ensures wire[..] == StripLines(ib, numTriangles)
  {
    var a := GetIndex(ib, 0);
    var b := GetIndex(ib, 1);
    wire[0], wire[1] := a, b;
    var j := 2;
    for i := 2 to numTriangles + 2
      invariant j == 4 * (i - 2) + 2 && wire[..j] == StripLines(ib, i - 2)
      invariant a == GetIndex(ib, i - 2) && b == GetIndex(ib, i - 1)
    {
      var c := GetIndex(ib, i);
      PutTwoLines(wire, j, b, c, c, a);
      j := j + 4;
      a := b;
      b := c;
    }
  }

  /** Builds the wireframe's index buffer: fully written, as long as what is drawn,
      and showing exactly the outlines of the triangles. */
  method ComputeWireframeIndices(kind: int, ib: IndexBuffer, numTriangles: nat) returns (wire: array<int>)
    requires TriangleKind(kind) && LongEnough(ib, VertexCount(kind, numTriangles))
    ensures fresh(wire)
    ensures numTriangles > 0 ==> wire.Length == DrawnElements(kind, numTriangles)
    ensures numTriangles > 0 ==> Segments(wire[..]) == Outline(kind, ib, numTriangles)
  {
    hide Segments, Between, Edges;
    var numLines := if kind == TRIANGLELIST then 3 * numTriangles else 2 * numTriangles + 1;
    wire := new int[2 * numLines](_ => 0);
    if numTriangles > 0 {
      if kind == TRIANGLELIST {
        WireList(ib, numTriangles, wire);
        ListOutline(ib, numTriangles);
      } else if kind == TRIANGLEFAN {
        WireFan(ib, numTriangles, wire);
        FanOutline(ib, numTriangles);
        FirstSide(TRIANGLEFAN, ib, numTriangles);
      } else {
        WireStrip(ib, numTriangles, wire);
        StripOutline(ib, numTriangles);
        FirstSide(TRIANGLESTRIP, ib, numTriangles);
      }
    }
  }

  /** An outline holds exactly the sides of its triangles. */
  lemma {:induction false} OutlineMembers(kind: int, ib: IndexBuffer, n: nat, e: Segment)
    requires LongEnough(ib, VertexCount(kind, n))
    ensures e in Outline(kind, ib, n) <==> exists i :: 0 <= i < n && e in Edges(TriangleIndices(kind, ib, i))
  {
    if n > 0 {
      OutlineMembers(kind, ib, n - 1, e);
    }
  }

  // ------------------------------------------------------- in terms of the index buffer

  /** Position `p` of the index buffer is a corner of triangle `i`. */
  predicate Corner(kind: int, i: nat, p: nat) {
    if kind == 5 then i <= p <= i + 2
    else if kind == 6 then p == 0 || p == i + 1 || p == i + 2
    else 3 * i <= p <= 3 * i + 2
  }

  /** The segment has these two ends. */
  predicate Joins(e: Segment, x: int, y: int) {
    e.lower <= e.upper && ((e.lower == x && e.upper == y) || (e.lower == y && e.upper == x))
  }

  /** What stands at a position: the index buffer's entry, or the position if there is none. */
  predicate Stands(ib: IndexBuffer, p: nat, x: int) { if ib.Some? then p < |ib.value| && ib.value[p] == x else x == p }

  /** The segment joins what stands at two corner positions of triangle `i`. */
  ghost predicate Side(kind: int, ib: IndexBuffer, i: nat, e: Segment) {
    exists p: nat, q: nat, x, y ::
      Corner(kind, i, p) && Corner(kind, i, q) && p != q && Stands(ib, p, x) && Stands(ib, q, y) && Joins(e, x, y)
  }

  lemma BetweenJoins(a: int, b: int, e: Segment)
    ensures e == Between(a, b) <==> Joins(e, a, b)
  {
  }

  lemma GetIndexStands(ib: IndexBuffer, p: nat, x: int)
    requires LongEnough(ib, p + 1)
    ensures Stands(ib, p, x) <==> x == GetIndex(ib, p)
  {
  }

  lemma ThreeCorners(kind: int, ib: IndexBuffer, i: nat) returns (p: nat, q: nat, r: nat)
    requires LongEnough(ib, VertexCount(kind, i + 1))
    ensures forall k: nat :: Corner(kind, i, k) <==> k == p || k == q || k == r
    ensures p != q && q != r && p != r && LongEnough(ib, p + 1) && LongEnough(ib, q + 1) && LongEnough(ib, r + 1)
    ensures TriangleIndices(kind, ib, i) == (GetIndex(ib, p), GetIndex(ib, q), GetIndex(ib, r))
  {
    hide GetIndex;
    if kind == TRIANGLESTRIP {
      p, q, r := if i % 2 == 0 then i else i + 1, if i % 2 == 0 then i + 1 else i, i + 2;
    } else if kind == TRIANGLEFAN {
      p, q, r := 0, i + 1, i + 2;
    } else {
      p, q, r := 3 * i, 3 * i + 1, 3 * i + 2;
    }
  }

  lemma SidesJoinCorners(kind: int, ib: IndexBuffer, i: nat, e: Segment)
    requires LongEnough(ib, VertexCount(kind, i + 1))
    ensures e in Edges(TriangleIndices(kind, ib, i)) <==> Side(kind, ib, i, e)
  {
    hide Corner, TriangleIndices, GetIndex, Stands, Between, VertexCount, LongEnough;
    var p, q, r := ThreeCorners(kind, ib, i);
    var a, b, c := GetIndex(ib, p), GetIndex(ib, q), GetIndex(ib, r);
    forall x
      ensures (Stands(ib, p, x) <==> x == a) && (Stands(ib, q, x) <==> x == b) && (Stands(ib, r, x) <==> x == c)
    {
      GetIndexStands(ib, p, x);
      GetIndexStands(ib, q, x);
      GetIndexStands(ib, r, x);
    }
    BetweenJoins(a, b, e);
    BetweenJoins(b, c, e);
    BetweenJoins(c, a, e);
    if e in Edges((a, b, c)) {
      assert Stands(ib, p, a) && Stands(ib, q, b) && Stands(ib, r, c);
      assert Corner(kind, i, p) && Corner(kind, i, q) && Corner(kind, i, r);
      assert Joins(e, a, b) || Joins(e, b, c) || Joins(e, c, a);
    }
  }

  /** An outline joins what the index buffer holds at the corners of its triangles. */
  lemma OutlineJoinsCorners(kind: int, ib: IndexBuffer, n: nat, e: Segment)
    requires LongEnough(ib, VertexCount(kind, n))
    ensures e in Outline(kind, ib, n) <==> exists i: nat :: i < n && Side(kind, ib, i, e)
  {
    OutlineMembers(kind, ib, n, e);
    forall i: nat | i < n
      ensures e in Edges(TriangleIndices(kind, ib, i)) <==> Side(kind, ib, i, e)
    {
      SidesJoinCorners(kind, ib, i, e);
    }
  }
}
