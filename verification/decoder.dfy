/**
  `get_kpts`: decode the network's last-stage heatmaps into one keypoint and
  one confidence per joint.  The input is a batch of heatmap stacks; only the
  first stack is read, its map 0 (background) is skipped, and every other map
  is decoded on its own: arg-max cell, rescaled to the image, and `np.amax`.
 */
module Decoder {
  import opened Grids
  import opened ArgMax
  import opened Scaling

  /** Image coordinates of a joint: `x` from the column, `y` from the row. */
  datatype Keypoint = Keypoint(x: int, y: int)

  /** The ways decoding and assembly fail; each is an exception in the source. */
  datatype DecodeError =
    | EmptyBatch     // `maps[0]` of a batch with no images (IndexError)
    | EmptyMap       // `argmax` of a map with no cells (ValueError)
    | ShapeMismatch  // `np.r_` of arrays with different column counts (ValueError); raised by `Joints.JointArray`

  datatype Result<T> = Ok(value: T) | Err(error: DecodeError)

  /** The two lists `get_kpts` returns: keypoints and their confidences, in map order. */
  datatype Decoded = Decoded(kpts: seq<Keypoint>, conf: seq<real>)

  /** Every map of the stack is rectangular (a stack is one NumPy array). */
  predicate RectangularMaps(ms: seq<Grid>) {
    forall j :: 0 <= j < |ms| ==> Rectangular(ms[j])
  }

  /**
    One iteration of the decoding loop: x = int(w * imgW / width) and
    y = int(h * imgH / height) for the arg-max cell (h, w), and `np.amax` as
    confidence.  A map without cells has no arg-max.
   */
  function DecodeMap(m: Grid, imgH: real, imgW: real): (r: Result<(Keypoint, real)>)
    requires Rectangular(m)
    ensures r.Ok? <==> Area(m) > 0
    ensures r.Err? ==> r.error == EmptyMap
    ensures r.Ok? && 0.0 < imgW ==> 0 <= r.value.0.x && (r.value.0.x as real) < imgW
    ensures r.Ok? && 0.0 < imgH ==> 0 <= r.value.0.y && (r.value.0.y as real) < imgH
  {
    if Area(m) == 0 then Err(EmptyMap)
    else
      var c := ArgMaxCell(m);
      Ok((Keypoint(Rescale(c.1, imgW, Width(m)), Rescale(c.0, imgH, |m|)), Amax(m)))
  }

  /**
    What a decoded map means: the keypoint is the first maximal cell in
    row-major order, rescaled (x from the column, y from the row), and the
    confidence is the value stored there, which no cell exceeds.
   */
  lemma DecodeMapFindsFirstMaxCell(m: Grid, imgH: real, imgW: real)
    requires Rectangular(m) && Area(m) > 0
    ensures DecodeMap(m, imgH, imgW).Ok?
    ensures
      var (kp, conf) := DecodeMap(m, imgH, imgW).value;
      && (exists h: nat, w: nat ::
            && IsFirstMaxCell(m, h, w)
            && kp == Keypoint(Rescale(w, imgW, Width(m)), Rescale(h, imgH, |m|))
            && conf == m[h][w])
      && (forall i, j :: InBounds(m, i, j) ==> m[i][j] <= conf)
  {
    var c := ArgMaxCell(m);
    assert IsFirstMaxCell(m, c.0, c.1);
  }

  /** Every map of the list has at least one cell, so every decode succeeds. */
  predicate AllDecodable(ms: seq<Grid>) {
    forall j :: 0 <= j < |ms| ==> Area(ms[j]) > 0
  }

  /**
    The loop over the keypoint maps: one keypoint and one confidence per map,
    in map order.  If any map has no cells the result is `EmptyMap`, the
    outcome of the loop's `ValueError` at that map.
   */
  function DecodeAll(ms: seq<Grid>, imgH: real, imgW: real): (r: Result<Decoded>)
    requires RectangularMaps(ms)
    ensures r.Ok? <==> AllDecodable(ms)
    ensures r.Err? ==> r.error == EmptyMap
    ensures r.Ok? ==> |r.value.kpts| == |ms| && |r.value.conf| == |ms|
    ensures r.Ok? ==>
              forall j :: 0 <= j < |ms| ==>
                DecodeMap(ms[j], imgH, imgW) == Ok((r.value.kpts[j], r.value.conf[j]))
  {
    if !AllDecodable(ms) then Err(EmptyMap)
    else
      Ok(Decoded(seq(|ms|, j requires 0 <= j < |ms| => DecodeMap(ms[j], imgH, imgW).value.0),
                 seq(|ms|, j requires 0 <= j < |ms| => DecodeMap(ms[j], imgH, imgW).value.1)))
  }

  /** The maps `get_kpts` decodes: all of the first stack except map 0. */
  function KeypointMaps(stack: seq<Grid>): (ms: seq<Grid>)
    ensures |stack| > 0 ==> |ms| == |stack| - 1 && forall j :: 0 <= j < |ms| ==> ms[j] == stack[j + 1]
    ensures |stack| == 0 ==> ms == []
  {
    if |stack| == 0 then [] else stack[1..]
  }

  /**
    `get_kpts(maps, img_h, img_w)`: decode the first stack of the batch,
    skipping its background map.  Keypoint j comes from map j + 1.
   */
  function GetKpts(maps: seq<seq<Grid>>, imgH: real, imgW: real): (r: Result<Decoded>)
    requires |maps| > 0 ==> RectangularMaps(maps[0])
    ensures |maps| == 0 <==> r == Err(EmptyBatch)
    ensures |maps| > 0 ==> (r.Ok? <==> forall j :: 1 <= j < |maps[0]| ==> Area(maps[0][j]) > 0)
    ensures |maps| > 0 && r.Err? ==> r.error == EmptyMap
    ensures r.Ok? ==> |r.value.kpts| == |r.value.conf| == |KeypointMaps(maps[0])|
    ensures r.Ok? ==>
              forall j :: 0 <= j < |r.value.kpts| ==>
                DecodeMap(maps[0][j + 1], imgH, imgW) == Ok((r.value.kpts[j], r.value.conf[j]))
  {
    if |maps| == 0 then Err(EmptyBatch)
    else DecodeAll(KeypointMaps(maps[0]), imgH, imgW)
  }

  /**
    Neither the background map nor any later image of the batch affects the
    result: two batches whose first stacks agree from map 1 on decode alike.
   */
  lemma OnlyKeypointMapsMatter(a: seq<seq<Grid>>, b: seq<seq<Grid>>, imgH: real, imgW: real)
    requires |a| > 0 && |b| > 0
    requires RectangularMaps(a[0]) && RectangularMaps(b[0])
    requires |a[0]| == |b[0]| > 0
    requires forall j :: 1 <= j < |a[0]| ==> a[0][j] == b[0][j]
    ensures GetKpts(a, imgH, imgW) == GetKpts(b, imgH, imgW)
  {
    assert KeypointMaps(a[0]) == KeypointMaps(b[0]);
  }

  /**
    Maps are decoded independently: replacing keypoint map `j` (stack index
    j + 1) by `g` changes keypoint j and confidence j only.
   */
  lemma MapsDecodedIndependently(stack: seq<Grid>, j: nat, g: Grid, imgH: real, imgW: real)
    requires RectangularMaps(stack) && Rectangular(g)
    requires j + 1 < |stack|
    requires forall i :: 1 <= i < |stack| ==> Area(stack[i]) > 0
    requires Area(g) > 0
    ensures GetKpts([stack], imgH, imgW).Ok? && GetKpts([stack[j + 1 := g]], imgH, imgW).Ok?
    ensures
      var d, e := GetKpts([stack], imgH, imgW).value, GetKpts([stack[j + 1 := g]], imgH, imgW).value;
      && |d.kpts| == |e.kpts| && |d.conf| == |e.conf|
      && (forall i :: 0 <= i < |d.kpts| && i != j ==> e.kpts[i] == d.kpts[i] && e.conf[i] == d.conf[i])
      && DecodeMap(g, imgH, imgW) == Ok((e.kpts[j], e.conf[j]))
  {
    var changed := stack[j + 1 := g];
    assert [stack][0] == stack && [changed][0] == changed;
    assert forall i :: 1 <= i < |changed| ==> Area(changed[i]) > 0;
    var d, e := GetKpts([stack], imgH, imgW).value, GetKpts([changed], imgH, imgW).value;
    assert changed[j + 1] == g;
    forall i | 0 <= i < |d.kpts| && i != j
      ensures e.kpts[i] == d.kpts[i] && e.conf[i] == d.conf[i]
    {
      assert changed[i + 1] == stack[i + 1];
      assert DecodeMap(stack[i + 1], imgH, imgW) == Ok((d.kpts[i], d.conf[i]));
      assert DecodeMap(changed[i + 1], imgH, imgW) == Ok((e.kpts[i], e.conf[i]));
    }
  }

  /**
    A map whose cell (h, w) is strictly larger than every other cell decodes
    to that cell, rescaled, with the peak value as confidence.
   */
  lemma PlantedPeak(m: Grid, h: nat, w: nat, imgH: real, imgW: real)
    requires Rectangular(m) && InBounds(m, h, w)
    requires forall i, j :: InBounds(m, i, j) && (i != h || j != w) ==> m[i][j] < m[h][w]
    ensures DecodeMap(m, imgH, imgW) == Ok((Keypoint(Rescale(w, imgW, Width(m)), Rescale(h, imgH, |m|)), m[h][w]))
  {
    assert IsFirstMaxCell(m, h, w);
    ArgMaxCellFindsFirstMax(m, h, w);
    assert ArgMaxCell(m) == (h, w);
  }

  /** A 4 x 4 map that is zero except for 1.0 at row 1, column 2. */
  function PlantedFourByFour(): (m: Grid)
    ensures Rectangular(m) && |m| == 4 && Width(m) == 4
  {
    seq(4, i => seq(4, j => if i == 1 && j == 2 then 1.0 else 0.0))
  }

  /** The planted map, decoded for an 8 x 8 image, gives (x = 4, y = 2) with confidence 1.0. */
  lemma PlantedMapExample()
    ensures DecodeMap(PlantedFourByFour(), 8.0, 8.0) == Ok((Keypoint(4, 2), 1.0))
  {
    var m := PlantedFourByFour();
    PlantedPeak(m, 1, 2, 8.0, 8.0);
    RescaleIsNatDivision(2, 8, 4);
    RescaleIsNatDivision(1, 8, 4);
  }

  /**
    A stack of a blank background map and the planted map, decoded for an
    8 x 8 image, gives the single keypoint (x = 4, y = 2) with confidence 1.0.
   */
  lemma PlantedStackExample(background: Grid)
    requires Rectangular(background)
    ensures GetKpts([[background, PlantedFourByFour()]], 8.0, 8.0) == Ok(Decoded([Keypoint(4, 2)], [1.0]))
  {
    var m := PlantedFourByFour();
    PlantedMapExample();
    var stack := [background, m];
    assert KeypointMaps(stack) == [m];
    var r := GetKpts([stack], 8.0, 8.0);
    assert r.Ok?;
    assert r.value.kpts == [Keypoint(4, 2)];
    assert r.value.conf == [1.0];
  }
}
