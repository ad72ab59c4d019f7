/** Record layouts written as tables of (name, byte offset, width), the way
    the Go structs and the packed ctypes Structures of the decoder lay out
    their fields one after another. */
module Layout {

  datatype Field = Field(name: string, offset: nat, width: nat)
  {
    function End(): nat { offset + width }
  }

  /** The fields follow one another with no gap and no overlap, starting at
      byte 0 and ending exactly at `size`. */
  predicate Contiguous(fields: seq<Field>, size: nat)
  {
    && |fields| > 0
    && fields[0].offset == 0
    && fields[|fields| - 1].End() == size
    && forall k :: 0 < k < |fields| ==> fields[k].offset == fields[k - 1].End()
  }

  /** The bytes of field f in a record image. */
  function FieldBytes<T>(image: seq<T>, f: Field): (s: seq<T>)
    requires f.End() <= |image|
    ensures |s| == f.width
  {
    image[f.offset..f.End()]
  }

  /** In a contiguous layout, every field lies inside the record and an
      earlier field ends before a later one begins. */
  lemma {:induction false} ContiguousFieldsDisjoint(fields: seq<Field>, size: nat, i: nat, j: nat)
    requires Contiguous(fields, size)
    requires i < j < |fields|
    ensures fields[i].End() <= fields[j].offset
    ensures fields[j].End() <= size
  {
    if j == i + 1 {
      FieldInside(fields, size, j);
    } else {
      ContiguousFieldsDisjoint(fields, size, i, j - 1);
      FieldInside(fields, size, j);
    }
  }

  lemma {:induction false} FieldInside(fields: seq<Field>, size: nat, j: nat)
    requires Contiguous(fields, size)
    requires j < |fields|
    ensures fields[j].End() <= size
    decreases |fields| - j
  {
    if j < |fields| - 1 {
      FieldInside(fields, size, j + 1);
    }
  }

  /** Peeling the last field off a known prefix of an image: the shorter
      prefix is known, and so are the bytes of the field. */
  lemma PrefixField<T>(b: seq<T>, p: seq<T>, f: seq<T>)
    requires |p + f| <= |b| && b[..|p + f|] == p + f
    ensures b[..|p|] == p && b[|p|..|p| + |f|] == f
  {
    assert b[..|p|] == (p + f)[..|p|];
    assert b[|p|..|p| + |f|] == (p + f)[|p|..];
  }

  /** Two adjacent slices of an image joined give the slice spanning both. */
  lemma AdjacentSlices<T>(b: seq<T>, i: nat, j: nat, k: nat)
    requires i <= j <= k <= |b|
    ensures b[i..j] + b[j..k] == b[i..k]
  {
  }
}
