/**
  Two-dimensional confidence maps as stored by NumPy: a rectangular array of
  rows, read in row-major (C) order.  `Ravel` and `Unravel` are the flat-index
  conversions that `argmax` (which returns a flat index) and `unravel_index`
  (which turns it back into a (row, column) pair) perform.
 */
module Grids {

  /** A map of confidence values, indexed `m[row][column]`. */
  type Grid = seq<seq<real>>

  /** Number of columns (the second entry of the array's `shape`). */
  function Width(m: Grid): nat {
    if |m| == 0 then 0 else |m[0]|
  }

  /** NumPy arrays are rectangular: every row has the same length. */
  predicate Rectangular(m: Grid) {
    forall i :: 0 <= i < |m| ==> |m[i]| == Width(m)
  }

  /** Number of cells (the array's `size`). */
  function Area(m: Grid): nat {
    |m| * Width(m)
  }

  predicate InBounds(m: Grid, h: int, w: int) {
    0 <= h < |m| && 0 <= w < Width(m)
  }

  /** Cell (h1, w1) comes strictly before cell (h2, w2) in row-major order. */
  predicate RowMajorBefore(h1: int, w1: int, h2: int, w2: int) {
    h1 < h2 || (h1 == h2 && w1 < w2)
  }

  /** Flat row-major index of cell (h, w) in a map with `width` columns. */
  function Ravel(h: nat, w: nat, width: nat): nat {
    h * width + w
  }

  /** `unravel_index(k, (_, width))`: the (row, column) of flat index `k`. */
  function Unravel(k: nat, width: nat): (c: (nat, nat))
    requires width > 0
    ensures c.1 < width
    ensures Ravel(c.0, c.1, width) == k
  {
    (k / width, k % width)
  }

  /** `Unravel` undoes `Ravel` on every in-range column. */
  lemma UnravelRavel(h: nat, w: nat, width: nat)
    requires w < width
    ensures Unravel(Ravel(h, w, width), width) == (h, w)
  {
    var k := Ravel(h, w, width);
    var c := Unravel(k, width);
    // Both (h, w) and c decompose k with a remainder below width.
    if c.0 < h {
      MulMonotone(c.0 + 1, h, width);
      assert false;
    } else if c.0 > h {
      MulMonotone(h + 1, c.0, width);
      assert false;
    }
  }

  lemma MulMonotone(a: nat, b: nat, c: nat)
    requires a <= b
    ensures a * c <= b * c
  {
    var d := b - a;
    assert b * c == a * c + d * c;
  }

  lemma MulSucc(a: nat, b: nat)
    ensures (a + 1) * b == a * b + b
  {
  }

  /** In-bounds cells have flat indices below the map's area. */
  lemma RavelBelowArea(m: Grid, h: nat, w: nat)
    requires InBounds(m, h, w)
    ensures Ravel(h, w, Width(m)) < Area(m)
  {
    MulMonotone(h + 1, |m|, Width(m));
  }

  /** A flat index below the area names an in-bounds cell. */
  lemma UnravelInBounds(m: Grid, k: nat)
    requires k < Area(m)
    ensures Width(m) > 0
    ensures InBounds(m, Unravel(k, Width(m)).0, Unravel(k, Width(m)).1)
  {
    var c := Unravel(k, Width(m));
    if c.0 >= |m| {
      MulMonotone(|m|, c.0, Width(m));
      assert false;
    }
  }

  /** Comparing flat indices is comparing cells in row-major order. */
  lemma RavelOrder(width: nat, h1: nat, w1: nat, h2: nat, w2: nat)
    requires w1 < width && w2 < width
    ensures Ravel(h1, w1, width) < Ravel(h2, w2, width) <==> RowMajorBefore(h1, w1, h2, w2)
  {
    if h1 < h2 {
      MulMonotone(h1 + 1, h2, width);
    } else if h2 < h1 {
      MulMonotone(h2 + 1, h1, width);
    }
  }

  /** The map's cells in row-major order (NumPy's `ravel`): one entry per cell. */
  function Flatten(m: Grid): (s: seq<real>)
    requires Rectangular(m)
    ensures |s| == Area(m)
  {
    if |m| == 0 then []
    else
      var rest := m[1..];
      assert |m| > 1 ==> Width(rest) == Width(m);
      assert Area(m) == Width(m) + |rest| * Width(m);
      m[0] + Flatten(rest)
  }

  /** Cell (h, w) sits at flat index `Ravel(h, w, Width(m))` of `Flatten(m)`. */
  lemma {:induction false} FlattenCell(m: Grid, h: nat, w: nat)
    requires Rectangular(m)
    requires InBounds(m, h, w)
    ensures Ravel(h, w, Width(m)) < |Flatten(m)|
    ensures Flatten(m)[Ravel(h, w, Width(m))] == m[h][w]
  {
    RavelBelowArea(m, h, w);
    var width := Width(m);
    var rest := m[1..];
    assert Flatten(m) == m[0] + Flatten(rest);
    assert |m[0]| == width;
    if h > 0 {
      assert Width(rest) == width;
      FlattenCell(rest, h - 1, w);
      MulSucc(h - 1, width);
      assert Ravel(h, w, width) == width + Ravel(h - 1, w, width);
    }
  }
}
