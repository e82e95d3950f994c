/** Reading and writing fields, number by number. */
module BufferNumbers {
  import opened Buffers

  /** Number `j` of an array is component `c` of the field in element `e`. */
  predicate At(total: nat, offset: nat, e: nat, c: nat, j: nat) { j == e * total + offset + c }

  lemma SlotIsAt(total: nat, offset: nat, e: nat, c: nat)
    ensures At(total, offset, e, c, Slot(e, total, offset) + c)
  {
  }

  /** `getAt` returns the field's components, element after element. */
  lemma {:induction false} ReadNumber(s: seq<real>, total: nat, offset: nat, width: nat, start: nat, n: nat,
                                      i: nat, c: nat)
    requires Fits(s, total, offset, width, start + n) && i < n && c < width
    ensures 0 <= i * width + c < n * width && 0 <= (start + i) * total + offset + c < |s|
    ensures Read(s, total, offset, width, start, n)[i * width + c] == s[(start + i) * total + offset + c]
  {
    SlotMonotone(start + n - 1, start + n, total, 0);
    SlotInside(start + n - 1, start + n, total, offset, width);
    assert n * width == (n - 1) * width + width;
    var before, last := Read(s, total, offset, width, start, n - 1), Entry(s, total, offset, width, start + n - 1);
    assert Read(s, total, offset, width, start, n) == before + last;
    if i < n - 1 {
      ReadNumber(s, total, offset, width, start, n - 1, i, c);
    } else {
      SlotIsAt(total, offset, start + i, c);
      assert last[c] == s[Slot(start + i, total, offset) + c];
    }
  }

  /** `setAt` puts them there. */
  lemma WriteNumber(s: seq<real>, total: nat, offset: nat, width: nat, start: nat, values: seq<real>, n: nat, i: nat,
                    c: nat)
    requires Fits(s, total, offset, width, start + n) && |values| == n * width && i < n && c < width
    ensures 0 <= i * width + c < |values| && 0 <= (start + i) * total + offset + c < |s|
    ensures Write(s, total, offset, width, start, values, n)[(start + i) * total + offset + c] == values[i * width + c]
  {
    var t := Write(s, total, offset, width, start, values, n);
    hide Write, Read, Slot;
    WriteThenRead(s, total, offset, width, start, values, n);
    ReadNumber(t, total, offset, width, start, n, i, c);
    assert values[..n * width] == values;
  }

  /** Number `j` of an array belongs to the field in element `e`. */
  predicate InEntry(total: nat, offset: nat, width: nat, e: nat, j: nat) {
    e * total + offset <= j < e * total + offset + width
  }

  /** And changes no other number. */
  lemma {:induction false} WriteElsewhere(s: seq<real>, total: nat, offset: nat, width: nat, start: nat,
                                          values: seq<real>, n: nat, j: nat)
    requires Fits(s, total, offset, width, start + n) && n * width <= |values| && j < |s|
    requires forall e :: start <= e < start + n ==> !InEntry(total, offset, width, e, j)
    ensures Write(s, total, offset, width, start, values, n)[j] == s[j]
  {
    hide Put, Chunk;
    if n > 0 {
      SlotMonotone(start + n - 1, start + n, total, 0);
      SlotInside(start + n - 1, start + n, total, offset, width);
      assert n * width == (n - 1) * width + width;
      WriteElsewhere(s, total, offset, width, start, values, n - 1, j);
      var before, at := Write(s, total, offset, width, start, values, n - 1), Slot(start + n - 1, total, offset);
      assert !InEntry(total, offset, width, start + n - 1, j);
      PutOutside(before, at, Chunk(values, width, n - 1));
    }
  }
}
