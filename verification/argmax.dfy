/**
  Arg-max of a confidence map with NumPy's semantics: `m.argmax()` scans the
  flattened map and returns the index of the FIRST maximal value, which
  `unravel_index` turns into (row, column); `np.amax(m)` is the largest value.
 */
module ArgMax {
  import opened Grids

  /** `i` is the index of the first occurrence of the maximum of `s`. */
  predicate IsFirstMax(s: seq<real>, i: int) {
    && 0 <= i < |s|
    && (forall j :: 0 <= j < |s| ==> s[j] <= s[i])
    && (forall j :: 0 <= j < i ==> s[j] < s[i])
  }

  /** A sequence has at most one first maximum. */
  lemma FirstMaxUnique(s: seq<real>, i: int, k: int)
    requires IsFirstMax(s, i) && IsFirstMax(s, k)
    ensures i == k
  {
    assert s[i] <= s[k] && s[k] <= s[i];
  }

  /** Flat `argmax`: a left-to-right scan that only moves on a strictly larger value. */
  function FlatArgMax(s: seq<real>): (i: nat)
    requires |s| > 0
    ensures IsFirstMax(s, i)
  {
    if |s| == 1 then 0
    else
      var b := FlatArgMax(s[..|s| - 1]);
      if s[|s| - 1] > s[b] then |s| - 1 else b
  }

  /** `np.amax` of a flat sequence. */
  function SeqMax(s: seq<real>): (r: real)
    requires |s| > 0
    ensures forall j :: 0 <= j < |s| ==> s[j] <= r
    ensures exists j :: 0 <= j < |s| && s[j] == r
  {
    if |s| == 1 then s[0]
    else
      var p := SeqMax(s[..|s| - 1]);
      if s[|s| - 1] > p then s[|s| - 1] else p
  }

  /** The maximum sits at the arg-max. */
  lemma SeqMaxAtArgMax(s: seq<real>)
    requires |s| > 0
    ensures SeqMax(s) == s[FlatArgMax(s)]
  {
    var j :| 0 <= j < |s| && s[j] == SeqMax(s);
    assert s[j] <= s[FlatArgMax(s)];
  }

  /**
    Cell (h, w) holds the maximum of `m` and is the first maximal cell in
    row-major order: every cell is at most `m[h][w]`, and every cell before
    it (an earlier row, or an earlier column of the same row) is strictly less.
   */
  ghost predicate IsFirstMaxCell(m: Grid, h: int, w: int) {
    && Rectangular(m)
    && InBounds(m, h, w)
    && (forall i, j :: InBounds(m, i, j) ==> m[i][j] <= m[h][w])
    && (forall i, j :: InBounds(m, i, j) && RowMajorBefore(i, j, h, w) ==> m[i][j] < m[h][w])
  }

  /** A map has at most one first maximal cell. */
  lemma FirstMaxCellUnique(m: Grid, h1: int, w1: int, h2: int, w2: int)
    requires IsFirstMaxCell(m, h1, w1) && IsFirstMaxCell(m, h2, w2)
    ensures h1 == h2 && w1 == w2
  {
    assert m[h1][w1] <= m[h2][w2] && m[h2][w2] <= m[h1][w1];
  }

  /** The first maximum of the flattened map, unravelled, is the first maximal cell. */
  lemma FlatFirstMaxIsFirstMaxCell(m: Grid, k: nat)
    requires Rectangular(m)
    requires IsFirstMax(Flatten(m), k)
    ensures Width(m) > 0
    ensures IsFirstMaxCell(m, Unravel(k, Width(m)).0, Unravel(k, Width(m)).1)
  {
    var s := Flatten(m);
    var width := Width(m);
    UnravelInBounds(m, k);
    var c := Unravel(k, width);
    var h, w := c.0, c.1;
    FlattenCell(m, h, w);
    forall i, j | InBounds(m, i, j)
      ensures m[i][j] <= m[h][w]
      ensures RowMajorBefore(i, j, h, w) ==> m[i][j] < m[h][w]
    {
      FlattenCell(m, i, j);
      var f := Ravel(i, j, width);
      assert s[f] <= s[k];
      RavelOrder(width, i, j, h, w);
      assert RowMajorBefore(i, j, h, w) ==> f < k;
    }
  }

  /**
    `np.unravel_index(m.argmax(), m.shape)`: the decoded (row, column) is the
    first maximal cell of the map in row-major order.
   */
  function ArgMaxCell(m: Grid): (c: (nat, nat))
    requires Rectangular(m) && Area(m) > 0
    ensures IsFirstMaxCell(m, c.0, c.1)
  {
    var k := FlatArgMax(Flatten(m));
    FlatFirstMaxIsFirstMaxCell(m, k);
    Unravel(k, Width(m))
  }

  /** Any first maximal cell is the one decoded: a planted peak is found exactly. */
  lemma ArgMaxCellFindsFirstMax(m: Grid, h: int, w: int)
    requires Rectangular(m)
    requires IsFirstMaxCell(m, h, w)
    ensures Area(m) > 0
    ensures ArgMaxCell(m) == (h, w)
  {
    RavelBelowArea(m, h, w);
    FirstMaxCellUnique(m, h, w, ArgMaxCell(m).0, ArgMaxCell(m).1);
  }

  /**
    `np.amax(m)`: the largest value of the map, which is the value stored at
    the cell `unravel_index(argmax)` decodes.
   */
  function Amax(m: Grid): (r: real)
    requires Rectangular(m) && Area(m) > 0
    ensures forall i, j :: InBounds(m, i, j) ==> m[i][j] <= r
    ensures r == m[ArgMaxCell(m).0][ArgMaxCell(m).1]
  {
    var s := Flatten(m);
    var c := ArgMaxCell(m);
    SeqMaxAtArgMax(s);
    FlattenCell(m, c.0, c.1);
    SeqMax(s)
  }

  /** Every cell seen so far is covered: cells before (i, j), plus the starting cell (0, 0). */
  predicate Scanned(a: int, b: int, i: int, j: int) {
    RowMajorBefore(a, b, i, j) || (a == 0 && b == 0)
  }

  /** (bh, bw) is the first maximal cell among the scanned cells. */
  ghost predicate BestSoFar(m: Grid, i: int, j: int, bh: int, bw: int) {
    && Rectangular(m)
    && InBounds(m, bh, bw)
    && Scanned(bh, bw, i, j)
    && (forall a, b :: InBounds(m, a, b) && Scanned(a, b, i, j) ==> m[a][b] <= m[bh][bw])
    && (forall a, b :: InBounds(m, a, b) && Scanned(a, b, i, j) && RowMajorBefore(a, b, bh, bw) ==> m[a][b] < m[bh][bw])
  }

  /**
    The scan `argmax` performs, written as nested row and column loops: start
    at cell (0, 0) and move only on a strictly larger value.  It finds the
    same cell as the flat arg-max followed by `unravel_index`.
   */
  method ScanArgMax(m: Grid) returns (bh: nat, bw: nat)
    requires Rectangular(m) && Area(m) > 0
    ensures IsFirstMaxCell(m, bh, bw)
    ensures (bh, bw) == ArgMaxCell(m)
  {
    UnravelInBounds(m, 0);
    var height, width := |m|, Width(m);
    bh, bw := 0, 0;
    var i := 0;
    while i < height
      invariant 0 <= i <= height
      invariant BestSoFar(m, i, 0, bh, bw)
    {
      var j := 0;
      while j < width
        invariant 0 <= j <= width
        invariant BestSoFar(m, i, j, bh, bw)
      {
        if m[i][j] > m[bh][bw] {
          bh, bw := i, j;
        }
        j := j + 1;
      }
      i := i + 1;
    }
    ArgMaxCellFindsFirstMax(m, bh, bw);
  }
}
