/** Interleaved buffers: the fields of an element lie side by side in one array. */
module Buffers {

  // ------------------------------------------------------------------------ layout

  /** The components of the first `n` fields together. */
  function Total(widths: seq<nat>, n: nat): nat
    requires n <= |widths|
  {
    if n == 0 then 0 else Total(widths, n - 1) + widths[n - 1]
  }

  lemma TotalOfNone(widths: seq<nat>)
    ensures Total(widths, 0) == 0
  {
  }

  lemma TotalNext(widths: seq<nat>, n: nat)
    requires n < |widths|
    ensures Total(widths, n + 1) == Total(widths, n) + widths[n]
  {
  }

  lemma {:induction false} TotalMonotone(widths: seq<nat>, m: nat, n: nat)
    requires m <= n <= |widths|
    ensures Total(widths, m) <= Total(widths, n)
  {
    if m < n {
      TotalMonotone(widths, m, n - 1);
    }
  }

  lemma {:induction false} TotalOfPrefix(widths: seq<nat>, more: seq<nat>, n: nat)
    requires n <= |widths|
    ensures Total(widths + more, n) == Total(widths, n)
  {
    if n > 0 {
      TotalOfPrefix(widths, more, n - 1);
    }
  }

  /** Component `r` of an element belongs to field `i`. */
  predicate Owns(widths: seq<nat>, i: int, r: nat) {
    0 <= i < |widths| && Total(widths, i) <= r < Total(widths, i + 1)
  }

  /** The fields divide each element: every component has exactly one owner. */
  lemma OneOwner(widths: seq<nat>, r: nat)
    requires r < Total(widths, |widths|)
    ensures exists i :: Owns(widths, i, r)
    ensures forall i, j :: Owns(widths, i, r) && Owns(widths, j, r) ==> i == j
  {
    var n := |widths|;
    while Total(widths, n - 1) > r
      invariant 0 < n <= |widths| && r < Total(widths, n)
      decreases n
    {
      n := n - 1;
    }
    assert Owns(widths, n - 1, r);
    forall i, j | Owns(widths, i, r) && Owns(widths, j, r)
      ensures i == j
    {
      if i < j {
        TotalMonotone(widths, i + 1, j);
      } else if j < i {
        TotalMonotone(widths, j + 1, i);
      }
    }
  }

  /** Where component `r` of element `e` lies. */
  function Slot(e: nat, total: nat, r: nat): nat { e * total + r }

  lemma SlotNext(e: nat, total: nat, r: nat)
    ensures Slot(e + 1, total, r) == Slot(e, total, r) + total
  {
  }

  lemma {:induction false} SlotMonotone(e: nat, f: nat, total: nat, r: nat)
    requires e <= f
    ensures Slot(e, total, r) <= Slot(f, total, r)
  {
    if e < f {
      SlotMonotone(e, f - 1, total, r);
      SlotNext(f - 1, total, r);
    }
  }

  lemma SlotOffset(e: nat, total: nat, r: nat)
    ensures Slot(e, total, r) == Slot(e, total, 0) + r
  {
  }

  /** A component of an element before `n` lies inside `n` elements. */
  lemma SlotInside(e: nat, n: nat, total: nat, offset: nat, width: nat)
    requires e < n && offset + width <= total
    ensures Slot(e, total, offset) + width <= Slot(n, total, 0)
  {
    SlotNext(e, total, 0);
    SlotOffset(e, total, offset);
    SlotMonotone(e + 1, n, total, 0);
  }

  /** Different elements never share a slot. */
  lemma SlotsApart(e: nat, f: nat, total: nat, r: nat, q: nat)
    requires r < total && q < total
    ensures Slot(e, total, r) == Slot(f, total, q) <==> e == f && r == q
  {
    SlotOffset(e, total, r);
    SlotOffset(f, total, q);
    if e < f {
      SlotInside(e, f, total, r, 1);
    } else if f < e {
      SlotInside(f, e, total, q, 1);
    }
  }

  // ---------------------------------------------------------------- reading and writing

  /** A field of an element fits into `s` for elements up to `n`. */
  predicate Fits(s: seq<real>, total: nat, offset: nat, width: nat, n: nat) {
    offset + width <= total && Slot(n, total, 0) <= |s|
  }

  /** The components of one field in one element. */
  function Entry(s: seq<real>, total: nat, offset: nat, width: nat, e: nat): (v: seq<real>)
    requires Fits(s, total, offset, width, e + 1)
    ensures |v| == width
  {
    SlotInside(e, e + 1, total, offset, width);
    s[Slot(e, total, offset)..Slot(e, total, offset) + width]
  }

  /** What `getAt` reads: the field's entries in `n` elements from `start` on. */
  function Read(s: seq<real>, total: nat, offset: nat, width: nat, start: nat, n: nat): (v: seq<real>)
    requires Fits(s, total, offset, width, start + n)
    ensures |v| == n * width
  {
    if n == 0 then []
    else
      SlotMonotone(start + n - 1, start + n, total, 0);
      Read(s, total, offset, width, start, n - 1) + Entry(s, total, offset, width, start + n - 1)
  }

  /** `s` with `v` put at position `at`. */
  function Put(s: seq<real>, at: nat, v: seq<real>): (t: seq<real>)
    requires at + |v| <= |s|
    ensures |t| == |s|
  {
    s[..at] + v + s[at + |v|..]
  }

  function Chunk(values: seq<real>, width: nat, i: nat): (v: seq<real>)
    requires (i + 1) * width <= |values|
    ensures |v| == width
  {
    assert (i + 1) * width == i * width + width;
    values[i * width..(i + 1) * width]
  }

  lemma ChunkExtends(values: seq<real>, width: nat, i: nat)
    requires (i + 1) * width <= |values|
    ensures i * width <= (i + 1) * width
    ensures values[..(i + 1) * width] == values[..i * width] + Chunk(values, width, i)
  {
    assert (i + 1) * width == i * width + width;
  }

  /** What `setAt` leaves: the field's entries in `n` elements replaced. */
  function Write(s: seq<real>, total: nat, offset: nat, width: nat, start: nat, values: seq<real>,
                 n: nat): (t: seq<real>)
    requires Fits(s, total, offset, width, start + n) && n * width <= |values|
    ensures |t| == |s|
  {
    if n == 0 then s
    else
      SlotMonotone(start + n - 1, start + n, total, 0);
      SlotInside(start + n - 1, start + n, total, offset, width);
      assert (n - 1) * width <= n * width;
      Put(Write(s, total, offset, width, start, values, n - 1), Slot(start + n - 1, total, offset),
          Chunk(values, width, n - 1))
  }

  lemma PutElsewhere(s: seq<real>, at: nat, v: seq<real>, p: nat, w: nat)
    requires at + |v| <= |s| && p + w <= |s|
    requires p + w <= at || at + |v| <= p
    ensures Put(s, at, v)[p..p + w] == s[p..p + w]
  {
  }

  lemma PutOutside(s: seq<real>, at: nat, v: seq<real>)
    requires at + |v| <= |s|
    ensures forall i :: 0 <= i < |s| && !(at <= i < at + |v|) ==> Put(s, at, v)[i] == s[i]
  {
  }

  /** Writing one entry changes no entry of another element or of another field. */
  lemma PutKeepsEntry(s: seq<real>, total: nat, offset: nat, width: nat, e: nat, v: seq<real>, o: nat, w: nat, f: nat)
    requires Fits(s, total, offset, width, e + 1) && |v| == width && Fits(s, total, o, w, f + 1)
    requires e != f || o + w <= offset || offset + width <= o
    requires Slot(e, total, offset) + width <= |s|
    ensures Entry(Put(s, Slot(e, total, offset), v), total, o, w, f) == Entry(s, total, o, w, f)
  {
    SlotOffset(e, total, offset);
    SlotOffset(f, total, o);
    SlotInside(f, f + 1, total, o, w);
    if e < f {
      SlotInside(e, f, total, offset, width);
    } else if f < e {
      SlotInside(f, e, total, o, w);
    }
    hide Slot, Put;
    PutElsewhere(s, Slot(e, total, offset), v, Slot(f, total, o), w);
  }

  lemma {:induction false} WriteKeepsEntry(s: seq<real>, total: nat, offset: nat, width: nat, start: nat,
                                           values: seq<real>,
                                           n: nat, o: nat, w: nat, f: nat)
    requires Fits(s, total, offset, width, start + n) && n * width <= |values| && Fits(s, total, o, w, f + 1)
    requires !(start <= f < start + n) || o + w <= offset || offset + width <= o
    ensures Entry(Write(s, total, offset, width, start, values, n), total, o, w, f) == Entry(s, total, o, w, f)
  {
    hide Slot, Entry, Put, Chunk;
    if n > 0 {
      SlotMonotone(start + n - 1, start + n, total, 0);
      assert (n - 1) * width <= n * width;
      WriteKeepsEntry(s, total, offset, width, start, values, n - 1, o, w, f);
      SlotInside(start + n - 1, start + n, total, offset, width);
      PutKeepsEntry(Write(s, total, offset, width, start, values, n - 1), total, offset, width, start + n - 1,
                    Chunk(values, width, n - 1), o, w, f);
    }
  }

  /** `setAt` changes nothing that any disjoint field reads. */
  lemma {:induction false} WriteKeepsOthers(s: seq<real>, total: nat, offset: nat, width: nat, start: nat,
                                            values: seq<real>,
                                            n: nat, o: nat, w: nat, from: nat, m: nat)
    requires Fits(s, total, offset, width, start + n) && n * width <= |values| && Fits(s, total, o, w, from + m)
    requires o + w <= offset || offset + width <= o
    ensures Read(Write(s, total, offset, width, start, values, n), total, o, w, from, m)
         == Read(s, total, o, w, from, m)
  {
    hide Slot, Entry, Write;
    if m > 0 {
      SlotMonotone(from + m - 1, from + m, total, 0);
      WriteKeepsOthers(s, total, offset, width, start, values, n, o, w, from, m - 1);
      WriteKeepsEntry(s, total, offset, width, start, values, n, o, w, from + m - 1);
    }
  }

  lemma PutThenEntry(s: seq<real>, total: nat, offset: nat, width: nat, e: nat, v: seq<real>)
    requires Fits(s, total, offset, width, e + 1) && |v| == width && Slot(e, total, offset) + width <= |s|
    ensures Entry(Put(s, Slot(e, total, offset), v), total, offset, width, e) == v
  {
  }

  /** `getAt` after `setAt` returns the values that were set. */
  lemma {:induction false} WriteThenRead(s: seq<real>, total: nat, offset: nat, width: nat, start: nat,
                                         values: seq<real>, n: nat)
    requires Fits(s, total, offset, width, start + n) && n * width <= |values|
    ensures Read(Write(s, total, offset, width, start, values, n), total, offset, width, start, n)
         == values[..n * width]
  {
    hide Slot;
    if n > 0 {
      assert n * width == (n - 1) * width + width;
      SlotMonotone(start + n - 1, start + n, total, 0);
      SlotInside(start + n - 1, start + n, total, offset, width);
      var before := Write(s, total, offset, width, start, values, n - 1);
      var after := Write(s, total, offset, width, start, values, n);
      WriteThenRead(s, total, offset, width, start, values, n - 1);
      PutThenEntry(before, total, offset, width, start + n - 1, Chunk(values, width, n - 1));
      PutKeepsRead(before, total, offset, width, start, n - 1, Chunk(values, width, n - 1));
      hide Entry, Put, Write, Chunk;
      ChunkExtends(values, width, n - 1);
    }
  }

  lemma {:induction false} PutKeepsRead(s: seq<real>, total: nat, offset: nat, width: nat, start: nat, n: nat,
                                        v: seq<real>)
    requires Fits(s, total, offset, width, start + n + 1) && |v| == width
    requires Slot(start + n, total, offset) + width <= |s| && Slot(start + n, total, 0) <= |s|
    ensures Read(Put(s, Slot(start + n, total, offset), v), total, offset, width, start, n)
         == Read(s, total, offset, width, start, n)
  {
    PutKeepsEarlier(s, total, offset, width, start, n, v, n);
  }

  lemma {:induction false} PutKeepsEarlier(s: seq<real>, total: nat, offset: nat, width: nat, start: nat, n: nat,
                                           v: seq<real>, m: nat)
    requires Fits(s, total, offset, width, start + n + 1) && |v| == width && m <= n
    requires Slot(start + n, total, offset) + width <= |s| && Slot(start + m, total, 0) <= |s|
    ensures Read(Put(s, Slot(start + n, total, offset), v), total, offset, width, start, m)
         == Read(s, total, offset, width, start, m)
  {
    hide Slot, Entry, Put;
    if m > 0 {
      SlotMonotone(start + m - 1, start + m, total, 0);
      PutKeepsEarlier(s, total, offset, width, start, n, v, m - 1);
      PutKeepsEntry(s, total, offset, width, start + n, v, offset, width, start + m - 1);
    }
  }

  // ---------------------------------------------------------------------- the classes

  /** How many entries of `width` components make up `length` values. */
  function Count(length: nat, width: nat): nat { if width == 0 then 0 else length / width }

  lemma CountOfProduct(n: nat, width: nat)
    requires width > 0
    ensures Count(n * width, width) == n
  {
    hide Slot;
    var q := n * width / width;
    QuotientBracket(n * width, width);
    if q < n {
      SlotMonotone(q + 1, n, width, 0);
    } else if n < q {
      SlotMonotone(n + 1, q, width, 0);
      SlotNext(n, width, 0);
    }
    ProductIsSlot(n, width);
  }

  lemma QuotientBracket(x: nat, width: nat)
    requires width > 0
    ensures Slot(x / width, width, 0) <= x < Slot(x / width + 1, width, 0)
  {
  }

  lemma ProductIsSlot(n: nat, width: nat)
    ensures n * width == Slot(n, width, 0)
  {
  }

  class Field {
    const buffer: Buffer
    const numComponents: nat
    var offset: nat

    constructor (buffer: Buffer, numComponents: nat)
      ensures this.buffer == buffer && this.numComponents == numComponents
    {
      this.buffer := buffer;
      this.numComponents := numComponents;
    }

    /** Stores `values`, entry after entry, from element `start` on. */
    method SetAt(start: nat, values: seq<real>)
      requires |values| == Count(|values|, numComponents) * numComponents
      requires Fits(buffer.data[..], buffer.totalComponents, offset, numComponents,
                    start + Count(|values|, numComponents))
      modifies buffer.data
      ensures buffer.data[..]
           == Write(old(buffer.data[..]), buffer.totalComponents, offset, numComponents, start, values,
                                       Count(|values|, numComponents))
    {
      hide *;
      var data, total := buffer.data, buffer.totalComponents;
      ghost var was := data[..];
      var l := Count(|values|, numComponents);
      WriteNothing(was, total, offset, numComponents, start, values, l);
      for i := 0 to l
        invariant Fits(was, total, offset, numComponents, start + i) && i * numComponents <= |values|
        invariant data[..] == Write(was, total, offset, numComponents, start, values, i)
      {
        ghost var before := data[..];
        WriteNext(was, total, offset, numComponents, start, values, i, l);
        var at := SlotOf(start + i, total, offset);
        PutNothing(before, at, Chunk(values, numComponents, i));
        for c := 0 to numComponents
          invariant data[..] == Put(before, at, Chunk(values, numComponents, i)[..c])
        {
          ChunkAt(values, numComponents, i, c);
          PutExtends(before, at, Chunk(values, numComponents, i), c);
          data[at + c] := values[numComponents * i + c];
        }
        assert Chunk(values, numComponents, i)[..numComponents] == Chunk(values, numComponents, i);
      }
    }

    /** The values of `n` elements from element `start` on. */
    method GetAt(start: nat, n: nat) returns (values: seq<real>)
      requires Fits(buffer.data[..], buffer.totalComponents, offset, numComponents, start + n)
      ensures values == Read(buffer.data[..], buffer.totalComponents, offset, numComponents, start, n)
    {
      values := buffer.GetAtHelper(start, n, offset, numComponents);
    }
  }

  lemma WriteNothing(s: seq<real>, total: nat, offset: nat, width: nat, start: nat, values: seq<real>, l: nat)
    requires Fits(s, total, offset, width, start + l)
    ensures Fits(s, total, offset, width, start) && Write(s, total, offset, width, start, values, 0) == s
  {
    SlotMonotone(start, start + l, total, 0);
  }

  lemma WriteNext(s: seq<real>, total: nat, offset: nat, width: nat, start: nat, values: seq<real>, i: nat, l: nat)
    requires i < l && l * width <= |values| && Fits(s, total, offset, width, start + l)
    ensures i * width <= (i + 1) * width <= |values|
    ensures Fits(s, total, offset, width, start + i) && Fits(s, total, offset, width, start + i + 1)
    ensures Slot(start + i, total, offset) + width <= |s|
    ensures Write(s, total, offset, width, start, values, i + 1)
         == Put(Write(s, total, offset, width, start, values, i), Slot(start + i, total, offset),
                Chunk(values, width, i))
  {
    SlotMonotone(start + i, start + l, total, 0);
    SlotMonotone(start + i + 1, start + l, total, 0);
    SlotInside(start + i, start + l, total, offset, width);
    SlotMonotone(i, i + 1, width, 0);
    SlotMonotone(i + 1, l, width, 0);
    hide Slot, Put, Chunk;
  }

  lemma PutNothing(s: seq<real>, at: nat, v: seq<real>)
    requires at + |v| <= |s|
    ensures Put(s, at, v[..0]) == s
  {
  }

  function SlotOf(e: nat, total: nat, offset: nat): (at: nat)
    ensures at == Slot(e, total, offset)
  {
    e * total + offset
  }

  lemma ChunkAt(values: seq<real>, width: nat, i: nat, c: nat)
    requires (i + 1) * width <= |values| && c < width
    ensures 0 <= width * i + c < |values| && Chunk(values, width, i)[c] == values[width * i + c]
  {
    assert (i + 1) * width == i * width + width;
  }

  lemma PutExtends(s: seq<real>, at: nat, v: seq<real>, c: nat)
    requires at + |v| <= |s| && c < |v|
    ensures Put(s, at, v[..c + 1]) == Put(s, at, v[..c])[at + c := v[c]]
  {
  }

  function Widths(fields: seq<Field>): (w: seq<nat>)
    ensures |w| == |fields| && forall i :: 0 <= i < |fields| ==> w[i] == fields[i].numComponents
  {
    seq(|fields|, i requires 0 <= i < |fields| => fields[i].numComponents)
  }

  /** What field `i` reads in the first `n` elements of a buffer laid out with these widths. */
  function Column(s: seq<real>, widths: seq<nat>, i: nat, n: nat): (v: seq<real>)
    requires i < |widths| && Slot(n, Total(widths, |widths|), 0) <= |s|
    ensures |v| == n * widths[i]
  {
    ColumnFits(widths, i);
    Read(s, Total(widths, |widths|), Total(widths, i), widths[i], 0, n)
  }

  lemma ColumnFits(widths: seq<nat>, i: nat)
    requires i < |widths|
    ensures Total(widths, i) + widths[i] <= Total(widths, |widths|)
  {
    TotalNext(widths, i);
    TotalMonotone(widths, i + 1, |widths|);
  }

  lemma ColumnsApart(widths: seq<nat>, i: nat, j: nat)
    requires i < |widths| && j < |widths| && i != j
    ensures Total(widths, j) + widths[j] <= Total(widths, i) || Total(widths, i) + widths[i] <= Total(widths, j)
  {
    hide Total;
    TotalNext(widths, i);
    TotalNext(widths, j);
    if i < j {
      TotalMonotone(widths, i + 1, j);
    } else {
      TotalMonotone(widths, j + 1, i);
    }
  }

  lemma CountEntries(values: seq<real>, width: nat, n: nat)
    requires |values| == n * width
    ensures |values| == Count(|values|, width) * width && Count(|values|, width) <= n
    ensures width > 0 ==> Count(|values|, width) == n
  {
    if width > 0 {
      CountOfProduct(n, width);
    }
  }

  /** Setting a whole column: it reads back, and the others are unchanged. */
  lemma SetColumn(s: seq<real>, widths: seq<nat>, i: nat, n: nat, values: seq<real>, t: seq<real>)
    requires i < |widths| && Slot(n, Total(widths, |widths|), 0) <= |s| && |values| == n * widths[i]
    requires Fits(s, Total(widths, |widths|), Total(widths, i), widths[i], Count(|values|, widths[i]))
    requires Count(|values|, widths[i]) * widths[i] <= |values|
    requires t == Write(s, Total(widths, |widths|), Total(widths, i), widths[i], 0, values, Count(|values|, widths[i]))
    ensures |t| == |s| && Column(t, widths, i, n) == values
    ensures forall j :: 0 <= j < |widths| && j != i ==> Column(t, widths, j, n) == Column(s, widths, j, n)
  {
    hide *;
    SetColumnItself(s, widths, i, n, values, t);
    forall j | 0 <= j < |widths| && j != i
      ensures Column(t, widths, j, n) == Column(s, widths, j, n)
    {
      SetColumnOther(s, widths, i, j, n, values, t);
    }
  }

  lemma SetColumnItself(s: seq<real>, widths: seq<nat>, i: nat, n: nat, values: seq<real>, t: seq<real>)
    requires i < |widths| && Slot(n, Total(widths, |widths|), 0) <= |s| && |values| == n * widths[i]
    requires Fits(s, Total(widths, |widths|), Total(widths, i), widths[i], Count(|values|, widths[i]))
    requires Count(|values|, widths[i]) * widths[i] <= |values|
    requires t == Write(s, Total(widths, |widths|), Total(widths, i), widths[i], 0, values, Count(|values|, widths[i]))
    ensures |t| == |s| && Column(t, widths, i, n) == values
  {
    hide Slot, Write, Read, Total, Count;
    CountEntries(values, widths[i], n);
    if widths[i] > 0 {
      WriteThenRead(s, Total(widths, |widths|), Total(widths, i), widths[i], 0, values, n);
      assert values[..|values|] == values;
    } else {
      NoComponents(n, widths[i]);
      assert |Column(t, widths, i, n)| == 0;
    }
  }

  lemma NoComponents(n: nat, width: nat)
    requires width == 0
    ensures n * width == 0
  {
  }

  lemma SetColumnOther(s: seq<real>, widths: seq<nat>, i: nat, j: nat, n: nat, values: seq<real>, t: seq<real>)
    requires i < |widths| && j < |widths| && i != j && Slot(n, Total(widths, |widths|), 0) <= |s|
    requires Fits(s, Total(widths, |widths|), Total(widths, i), widths[i], Count(|values|, widths[i]))
    requires Count(|values|, widths[i]) * widths[i] <= |values|
    requires t == Write(s, Total(widths, |widths|), Total(widths, i), widths[i], 0, values, Count(|values|, widths[i]))
    ensures |t| == |s| && Column(t, widths, j, n) == Column(s, widths, j, n)
  {
    hide Slot, Write, Read, Total, Count;
    ColumnFits(widths, j);
    ColumnsApart(widths, i, j);
    WriteKeepsOthers(s, Total(widths, |widths|), Total(widths, i), widths[i], 0, values, Count(|values|, widths[i]),
                     Total(widths, j), widths[j], 0, n);
  }

  class Buffer {
    var fields: seq<Field>
    var totalComponents: nat
    var data: array<real>

    /** The fields are distinct and belong to this buffer. */
    ghost predicate Owned()
      reads this`fields
    {
      && (forall i :: 0 <= i < |fields| ==> fields[i].buffer == this)
      && (forall i, j :: 0 <= i < j < |fields| ==> fields[i] != fields[j])
    }

    /** Each field starts where the ones before it end. */
    ghost predicate LaidOut()
      reads this`fields, this`totalComponents, fields
    {
      && Owned()
      && (forall i :: 0 <= i < |fields| ==> fields[i].offset == Total(Widths(fields), i))
      && totalComponents == Total(Widths(fields), |fields|)
    }

    /** The array holds a whole number of elements. */
    ghost predicate Whole()
      reads this`totalComponents, this`data, data
    {
      data.Length == Slot(NumElements(), totalComponents, 0)
    }

    function NumElements(): nat
      reads this`totalComponents, this`data
    {
      Count(data.Length, totalComponents)
    }

    constructor ()
      ensures fields == [] && totalComponents == 0 && data.Length == 0 && LaidOut() && Whole()
    {
      fields, totalComponents := [], 0;
      data := new real[0];
    }

    method UpdateTotalComponents()
      requires Owned()
      modifies this`totalComponents, fields
      ensures LaidOut()
    {
      hide Total, Widths;
      var total := 0;
      ghost var widths := Widths(fields);
      TotalOfNone(widths);
      for i := 0 to |fields|
        invariant total == Total(widths, i)
        invariant forall j :: 0 <= j < i ==> fields[j].offset == Total(widths, j)
      {
        TotalNext(widths, i);
        assert forall j :: 0 <= j < i ==> fields[j] != fields[i];
        fields[i].offset := total;
        total := total + fields[i].numComponents;
      }
      totalComponents := total;
    }

    method Resize(n: nat)
      modifies this`data
      ensures fresh(data) && data[..] == seq(n, i => 0.0)
    {
      data := new real[n](i => 0.0);
    }

    method AllocateElements(n: nat)
      requires Owned()
      modifies this`totalComponents, this`data, fields
      ensures LaidOut() && Whole() && fresh(data) && data[..] == seq(Slot(n, totalComponents, 0), i => 0.0)
    {
      UpdateTotalComponents();
      Resize(SlotOf(n, totalComponents, 0));
      assert data.Length == |data[..]|;
      WholeNumber(n, totalComponents);
    }

    method GetAtHelper(start: nat, n: nat, offset: nat, numComponents: nat) returns (values: seq<real>)
      requires Fits(data[..], totalComponents, offset, numComponents, start + n)
      ensures values == Read(data[..], totalComponents, offset, numComponents, start, n)
    {
      hide Slot;
      values := [];
      SlotMonotone(start, start + n, totalComponents, 0);
      for i := 0 to n
        invariant Fits(data[..], totalComponents, offset, numComponents, start + i)
        invariant values == Read(data[..], totalComponents, offset, numComponents, start, i)
      {
        SlotMonotone(start + i + 1, start + n, totalComponents, 0);
        SlotInside(start + i, start + n, totalComponents, offset, numComponents);
        var at := SlotOf(start + i, totalComponents, offset);
        ghost var before := values;
        for c := 0 to numComponents
          invariant values == before + data[at..at + c]
        {
          values := values + [data[at + c]];
        }
      }
    }

    /** Copies what every field reads in the first `n` elements. */
    method SaveFields(n: nat) returns (savedData: seq<seq<real>>)
      requires LaidOut() && Slot(n, totalComponents, 0) <= data.Length
      ensures |savedData| == |fields|
      ensures forall i :: 0 <= i < |fields| ==> savedData[i] == Column(data[..], Widths(fields), i, n)
    {
      hide Slot, Total, Widths, Read;
      savedData := [];
      for i := 0 to |fields|
        invariant |savedData| == i
        invariant forall j :: 0 <= j < i ==> savedData[j] == Column(data[..], Widths(fields), j, n)
      {
        ColumnFits(Widths(fields), i);
        var saved := fields[i].GetAt(0, n);
        savedData := savedData + [saved];
      }
    }

    method RestoreFields(n: nat, savedData: seq<seq<real>>)
      requires LaidOut() && Slot(n, totalComponents, 0) <= data.Length && |savedData| <= |fields|
      requires forall i :: 0 <= i < |savedData| ==> |savedData[i]| == n * fields[i].numComponents
      modifies data
      ensures forall i :: 0 <= i < |savedData| ==> Column(data[..], Widths(fields), i, n) == savedData[i]
      ensures forall i :: |savedData| <= i < |fields| ==>
                            Column(data[..], Widths(fields), i, n) == old(Column(data[..], Widths(fields), i, n))
    {
      hide Slot, Total, Read, Write, Column, Count, Widths;
      ghost var widths, was := Widths(fields), data[..];
      for i := 0 to |savedData|
        invariant forall j :: 0 <= j < i ==> Column(data[..], widths, j, n) == savedData[j]
        invariant forall j :: i <= j < |widths| ==> Column(data[..], widths, j, n) == Column(was, widths, j, n)
      {
        ghost var before := data[..];
        CountEntries(savedData[i], widths[i], n);
        ColumnFits(widths, i);
        SlotMonotone(Count(|savedData[i]|, widths[i]), n, totalComponents, 0);
        fields[i].SetAt(0, savedData[i]);
        SetColumn(before, widths, i, n, savedData[i], data[..]);
      }
    }

    /** Adds a field.  If the array is already allocated it is laid out anew, and every
        earlier field still reads the same values; the new field reads zeros. */
    method CreateField(numComponents: nat) returns (f: Field)
      requires LaidOut() && Whole()
      modifies this, fields
      ensures fresh(f) && fields == old(fields) + [f] && LaidOut() && Whole()
      ensures f.numComponents == numComponents && f.offset == old(totalComponents)
      ensures totalComponents == old(totalComponents) + numComponents
      ensures forall i :: 0 <= i < |old(fields)| ==> fields[i].offset == old(fields[i].offset)
      ensures old(data.Length) == 0 ==> data == old(data)
      ensures old(data.Length) > 0 ==> data.Length == Slot(old(NumElements()), totalComponents, 0)
      ensures old(data.Length) > 0 ==> forall i :: 0 <= i < |old(fields)| ==>
                Column(data[..], Widths(fields), i, old(NumElements()))
                == old(Column(data[..], Widths(fields), i, NumElements()))
      ensures old(data.Length) > 0 ==> AllZero(Column(data[..], Widths(fields), |fields| - 1, old(NumElements())))
    {
      hide Slot, Total, Read, Column, Count, Widths;
      var alreadyAllocated := data.Length > 0;
      var savedData: seq<seq<real>> := [];
      var numElements := NumElements();
      ghost var widths := Widths(fields);
      if alreadyAllocated {
        savedData := SaveFields(numElements);
      }
      f := new Field(this, numComponents);
      fields := fields + [f];
      UpdateTotalComponents();
      WidthsOfMore(old(fields), f);
      TotalsOfMore(widths, numComponents);
      if alreadyAllocated {
        AllocateElements(numElements);
        ZeroColumn(data[..], Widths(fields), |fields| - 1, numElements);
        RestoreFields(numElements, savedData);
      } else {
        WholeNumber(0, totalComponents);
      }
    }
  }

  lemma WholeNumber(n: nat, total: nat)
    ensures Slot(Count(Slot(n, total, 0), total), total, 0) == Slot(n, total, 0) && Slot(0, total, 0) == 0
  {
    if total > 0 {
      CountOfProduct(n, total);
      ProductIsSlot(n, total);
    }
  }

  lemma WidthsOfMore(fields: seq<Field>, f: Field)
    ensures Widths(fields + [f]) == Widths(fields) + [f.numComponents]
  {
  }

  lemma TotalsOfMore(widths: seq<nat>, width: nat)
    ensures forall i :: 0 <= i <= |widths| ==> Total(widths + [width], i) == Total(widths, i)
    ensures Total(widths + [width], |widths| + 1) == Total(widths, |widths|) + width
  {
    forall i | 0 <= i <= |widths|
      ensures Total(widths + [width], i) == Total(widths, i)
    {
      TotalOfPrefix(widths, [width], i);
    }
  }

  predicate AllZero(v: seq<real>) { forall k :: 0 <= k < |v| ==> v[k] == 0.0 }

  lemma ZeroColumn(s: seq<real>, widths: seq<nat>, i: nat, n: nat)
    requires i < |widths| && Slot(n, Total(widths, |widths|), 0) <= |s| && AllZero(s)
    ensures AllZero(Column(s, widths, i, n))
  {
    ColumnFits(widths, i);
    ZeroRead(s, Total(widths, |widths|), Total(widths, i), widths[i], n);
  }

  lemma ZeroConcat(v: seq<real>, w: seq<real>)
    requires AllZero(v) && AllZero(w)
    ensures AllZero(v + w)
  {
  }

  lemma ZeroEntry(s: seq<real>, total: nat, offset: nat, width: nat, e: nat)
    requires Fits(s, total, offset, width, e + 1) && AllZero(s)
    ensures AllZero(Entry(s, total, offset, width, e))
  {
    hide Slot;
    SlotInside(e, e + 1, total, offset, width);
  }

  lemma {:induction false} ZeroRead(s: seq<real>, total: nat, offset: nat, width: nat, n: nat)
    requires Fits(s, total, offset, width, n) && AllZero(s)
    ensures AllZero(Read(s, total, offset, width, 0, n))
  {
    hide Slot;
    if n > 0 {
      SlotMonotone(n - 1, n, total, 0);
      ZeroRead(s, total, offset, width, n - 1);
      ZeroEntry(s, total, offset, width, n - 1);
      hide Entry;
      ZeroConcat(Read(s, total, offset, width, 0, n - 1), Entry(s, total, offset, width, n - 1));
    }
  }
}
