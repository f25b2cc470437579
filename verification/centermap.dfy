/**
  The clamp applied to the Gaussian center map before it is fed to the
  network: first every value above 1 is set to 1, then every value below
  0.0099 is set to 0.  The Gaussian itself (`exp`) is not modelled; the clamp
  is stated for any map of reals.
 */
module CenterMap {
  import opened Grids

  /** Values above this are clipped down to it. */
  const Ceiling: real := 1.0

  /** Values below this are zeroed. */
  const Cutoff: real := 0.0099

  /** A value the clamp can produce: zero, or within [Cutoff, Ceiling]. */
  predicate Clamped(v: real) {
    v == 0.0 || (Cutoff <= v <= Ceiling)
  }

  /** Apply `f` to every cell, keeping the shape. */
  function MapCells(m: Grid, f: real -> real): (r: Grid)
    ensures |r| == |m|
    ensures forall i :: 0 <= i < |m| ==> |r[i]| == |m[i]|
    ensures forall i, j :: 0 <= i < |m| && 0 <= j < |m[i]| ==> r[i][j] == f(m[i][j])
  {
    seq(|m|, i requires 0 <= i < |m| => seq(|m[i]|, j requires 0 <= j < |m[i]| => f(m[i][j])))
  }

  /**
    `center_map[center_map > 1] = 1`, for one cell: the result never exceeds
    the ceiling, and only values above it are changed.
   */
  function ClipAbove(v: real): (r: real)
    ensures r <= Ceiling && r <= v
    ensures r == v <==> v <= Ceiling
    ensures v > Ceiling ==> r == Ceiling
  {
    if v > Ceiling then Ceiling else v
  }

  /**
    `center_map[center_map < 0.0099] = 0`, for one cell: the result is zero or
    at least the cutoff, and only values below the cutoff are changed.
   */
  function ZeroBelow(v: real): (r: real)
    ensures r == 0.0 || Cutoff <= r
    ensures r == v <==> (Cutoff <= v || v == 0.0)
    ensures v < Cutoff ==> r == 0.0
  {
    if v < Cutoff then 0.0 else v
  }

  /** Both statements, in source order, on one value. */
  function Threshold(v: real): (r: real)
    ensures Clamped(r)
    ensures Cutoff <= v <= Ceiling ==> r == v
    ensures v > Ceiling ==> r == Ceiling
    ensures v < Cutoff ==> r == 0.0
  {
    ZeroBelow(ClipAbove(v))
  }

  /** The two whole-map masked assignments, in source order. */
  function ThresholdMap(m: Grid): (r: Grid)
    ensures |r| == |m| && forall i :: 0 <= i < |m| ==> |r[i]| == |m[i]|
    ensures forall i, j :: 0 <= i < |m| && 0 <= j < |m[i]| ==> Clamped(r[i][j])
    ensures forall i, j :: 0 <= i < |m| && 0 <= j < |m[i]| && Cutoff <= m[i][j] <= Ceiling ==> r[i][j] == m[i][j]
    ensures forall i, j :: 0 <= i < |m| && 0 <= j < |m[i]| && m[i][j] > Ceiling ==> r[i][j] == Ceiling
    ensures forall i, j :: 0 <= i < |m| && 0 <= j < |m[i]| && m[i][j] < Cutoff ==> r[i][j] == 0.0
  {
    MapCells(MapCells(m, ClipAbove), ZeroBelow)
  }

  /** Every cell of `m` is already a value the clamp can produce. */
  ghost predicate AllClamped(m: Grid) {
    forall i, j :: 0 <= i < |m| && 0 <= j < |m[i]| ==> Clamped(m[i][j])
  }

  /** The clamp leaves a map unchanged exactly when all its cells are already clamped. */
  lemma ThresholdMapFixedPoints(m: Grid)
    ensures ThresholdMap(m) == m <==> AllClamped(m)
  {
    var r := ThresholdMap(m);
    if AllClamped(m) {
      assert |r| == |m|;
      forall i | 0 <= i < |m|
        ensures r[i] == m[i]
      {
        assert |r[i]| == |m[i]|;
        forall j | 0 <= j < |m[i]|
          ensures r[i][j] == m[i][j]
        {
          assert Clamped(m[i][j]);
        }
      }
    }
  }

  /** Clamping twice is clamping once. */
  lemma ThresholdMapIdempotent(m: Grid)
    ensures ThresholdMap(ThresholdMap(m)) == ThresholdMap(m)
  {
    ThresholdMapFixedPoints(ThresholdMap(m));
  }

  /** The two masked assignments commute: zeroing first and clipping second gives the same map. */
  lemma ThresholdOrderIrrelevant(m: Grid)
    ensures MapCells(MapCells(m, ZeroBelow), ClipAbove) == ThresholdMap(m)
  {
    var a, b := MapCells(MapCells(m, ZeroBelow), ClipAbove), ThresholdMap(m);
    assert |a| == |b|;
    forall i | 0 <= i < |m|
      ensures a[i] == b[i]
    {
      assert |a[i]| == |b[i]|;
    }
  }
}
