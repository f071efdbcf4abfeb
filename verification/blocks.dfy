/**
 The output of a counted loop whose every iteration emits a block of elements,
 and the arithmetic that locates an element in it: in a loop whose iterations
 each emit `width` elements, element `j` of iteration `i` sits at position
 `i * width + j`, and every position decomposes back into such a pair.
 */
module Blocks {

  /** What `for (int i = lo; i < hi; i++) { emit body(i) }` emits:
      body(lo) + body(lo + 1) + ... + body(hi - 1). */
  function Concat<T>(lo: nat, hi: nat, body: nat -> seq<T>): seq<T>
    decreases hi - lo
  {
    if lo >= hi then [] else body(lo) + Concat(lo + 1, hi, body)
  }

  /** Every iteration in [lo, hi) emits exactly `width` elements. */
  ghost predicate Uniform<T>(lo: nat, hi: nat, body: nat -> seq<T>, width: nat) {
    forall i :: lo <= i < hi ==> |body(i)| == width
  }

  /** The position of element j of block i when every block has `width` elements. */
  function Slot(i: nat, j: nat, width: nat): nat {
    i * width + j
  }

  lemma MulMonotone(a: nat, b: nat, m: nat)
    requires a <= b
    ensures a * m <= b * m
  {
    assert b * m == a * m + (b - a) * m;
  }

  /** Positions are ordered as their (block, offset) pairs are, lexicographically. */
  lemma LexOrder(i1: nat, j1: nat, i2: nat, j2: nat, width: nat)
    requires j1 < width && j2 < width
    ensures Slot(i1, j1, width) < Slot(i2, j2, width) <==> i1 < i2 || (i1 == i2 && j1 < j2)
  {
    if i1 < i2 {
      MulMonotone(i1 + 1, i2, width);
      assert Slot(i1, j1, width) < (i1 + 1) * width;
    } else if i2 < i1 {
      MulMonotone(i2 + 1, i1, width);
      assert Slot(i2, j2, width) < (i2 + 1) * width;
    }
  }

  lemma SlotSplit(p: nat, width: nat)
    requires width > 0
    ensures p / width >= 0 && p % width < width
    ensures p == Slot(p / width, p % width, width)
  {
  }

  /** A position determines its block and offset. */
  lemma SlotParts(i: nat, j: nat, width: nat)
    requires j < width
    ensures Slot(i, j, width) / width == i && Slot(i, j, width) % width == j
  {
    var p := Slot(i, j, width);
    SlotSplit(p, width);
    LexOrder(i, j, p / width, p % width, width);
    LexOrder(p / width, p % width, i, j, width);
  }

  lemma {:induction false} ConcatLength<T>(lo: nat, hi: nat, body: nat -> seq<T>, width: nat)
    requires lo <= hi && Uniform(lo, hi, body, width)
    ensures |Concat(lo, hi, body)| == (hi - lo) * width
    decreases hi - lo
  {
    if lo < hi {
      ConcatLength(lo + 1, hi, body, width);
      assert (hi - lo) * width == width + (hi - (lo + 1)) * width;
    }
  }

  /** Every position of the output belongs to some iteration: position p is
      element p % width of iteration lo + p / width. */
  lemma {:induction false} ConcatAt<T>(lo: nat, hi: nat, body: nat -> seq<T>, width: nat, p: nat)
    requires lo <= hi && Uniform(lo, hi, body, width)
    requires p < (hi - lo) * width
    ensures width > 0 && lo + p / width < hi && p < |Concat(lo, hi, body)|
    ensures Concat(lo, hi, body)[p] == body(lo + p / width)[p % width]
    decreases hi - lo
  {
    ConcatLength(lo, hi, body, width);
    assert width > 0;
    assert (hi - lo) * width == width + (hi - (lo + 1)) * width;
    if p < width {
      SlotParts(0, p, width);
    } else {
      ConcatAt(lo + 1, hi, body, width, p - width);
      var q := (p - width) / width;
      SlotSplit(p - width, width);
      assert p == Slot(q + 1, (p - width) % width, width);
      SlotParts(q + 1, (p - width) % width, width);
    }
  }

  /** ConcatAt without division: position p is element j of iteration i. */
  lemma ConcatSplit<T>(lo: nat, hi: nat, body: nat -> seq<T>, width: nat, p: nat) returns (i: nat, j: nat)
    requires lo <= hi && Uniform(lo, hi, body, width)
    requires p < |Concat(lo, hi, body)|
    ensures lo <= i < hi && j < width && p == Slot(i - lo, j, width)
    ensures j < |body(i)| && Concat(lo, hi, body)[p] == body(i)[j]
  {
    ConcatLength(lo, hi, body, width);
    ConcatAt(lo, hi, body, width, p);
    i, j := lo + p / width, p % width;
    SlotSplit(p, width);
  }

  /** Element j of iteration i sits at position (i - lo) * width + j. */
  lemma ConcatIndex<T>(lo: nat, hi: nat, body: nat -> seq<T>, width: nat, i: nat, j: nat)
    requires lo <= i < hi && j < width && Uniform(lo, hi, body, width)
    ensures Slot(i - lo, j, width) < |Concat(lo, hi, body)|
    ensures Concat(lo, hi, body)[Slot(i - lo, j, width)] == body(i)[j]
  {
    LexOrder(i - lo, j, hi - lo, 0, width);
    SlotParts(i - lo, j, width);
    ConcatAt(lo, hi, body, width, Slot(i - lo, j, width));
  }
}
