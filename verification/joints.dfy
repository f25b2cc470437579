/**
  Assembly of the per-image joint estimate: `np.r_[np.array(kpts).T,
  np.array(conf).T]` stacks the transposed keypoint list (2 x K) on the
  transposed confidence list (1 x K), giving a 3 x K array whose column j is
  (x_j, y_j, conf_j).  The batch loop stores it as one (3, 14) slice.
 */
module Joints {
  import opened Grids
  import opened Decoder

  /** Keypoint count of the shipped network (`CPM(k=14)`, `np.zeros((3,14,N))`). */
  const JointCount: nat := 14

  /** `a` has shape (3, k). */
  predicate IsJointArray(a: seq<seq<real>>, k: nat) {
    |a| == 3 && forall row :: 0 <= row < 3 ==> |a[row]| == k
  }

  /** Column j of a 3-row array read back as a keypoint and its confidence. */
  function ColumnOf(a: seq<seq<real>>, j: nat): (Keypoint, real)
    requires |a| == 3 && IsJointArray(a, |a[0]|) && j < |a[0]|
  {
    (Keypoint(a[0][j].Floor, a[1][j].Floor), a[2][j])
  }

  /**
    `np.r_[np.array(kpts).T, np.array(conf).T]`: row 0 holds the x
    coordinates, row 1 the y coordinates, row 2 the confidences.  Lists of
    different lengths cannot be stacked.
   */
  function JointArray(d: Decoded): (r: Result<seq<seq<real>>>)
    ensures r.Ok? <==> |d.kpts| == |d.conf|
    ensures r.Err? ==> r.error == ShapeMismatch
    ensures r.Ok? ==> IsJointArray(r.value, |d.kpts|)
    ensures r.Ok? ==>
              forall j :: 0 <= j < |d.kpts| ==>
                && r.value[0][j] == d.kpts[j].x as real
                && r.value[1][j] == d.kpts[j].y as real
                && r.value[2][j] == d.conf[j]
    ensures r.Ok? ==>
              forall j :: 0 <= j < |d.kpts| ==> ColumnOf(r.value, j) == (d.kpts[j], d.conf[j])
  {
    if |d.kpts| != |d.conf| then Err(ShapeMismatch)
    else
      var k := |d.kpts|;
      Ok([ seq(k, j requires 0 <= j < k => d.kpts[j].x as real),
           seq(k, j requires 0 <= j < k => d.kpts[j].y as real),
           d.conf ])
  }

  /** The keypoint and confidence lists read back from a 3-row array, column by column. */
  function Unpack(a: seq<seq<real>>): (d: Decoded)
    requires |a| == 3 && IsJointArray(a, |a[0]|)
    ensures |d.kpts| == |d.conf| == |a[0]|
    ensures forall j :: 0 <= j < |a[0]| ==> (d.kpts[j], d.conf[j]) == ColumnOf(a, j)
  {
    Decoded(seq(|a[0]|, j requires 0 <= j < |a[0]| => ColumnOf(a, j).0), a[2])
  }

  /** Reading the assembled array back gives the decoder's lists unchanged. */
  lemma UnpackJointArray(d: Decoded)
    requires |d.kpts| == |d.conf|
    ensures JointArray(d).Ok?
    ensures Unpack(JointArray(d).value) == d
  {
    var u := Unpack(JointArray(d).value);
    assert u.kpts == d.kpts;
    assert u.conf == d.conf;
  }

  /** Conversely, an array whose coordinate rows hold whole numbers is the assembly of its own columns. */
  lemma JointArrayOfUnpack(a: seq<seq<real>>)
    requires |a| == 3 && IsJointArray(a, |a[0]|)
    requires forall j :: 0 <= j < |a[0]| ==> a[0][j] == a[0][j].Floor as real && a[1][j] == a[1][j].Floor as real
    ensures JointArray(Unpack(a)) == Ok(a)
  {
    var d := Unpack(a);
    var r := JointArray(d).value;
    forall j | 0 <= j < |a[0]|
      ensures r[0][j] == a[0][j] && r[1][j] == a[1][j]
    {
      assert d.kpts[j] == Keypoint(a[0][j].Floor, a[1][j].Floor);
    }
    assert r[0] == a[0];
    assert r[1] == a[1];
    assert r[2] == a[2];
    assert a == [a[0], a[1], a[2]];
  }

  /**
    Lines 132-136 of the per-image routine: decode the heatmaps and assemble
    the joint array; column j is the decode of keypoint map j + 1.
   */
  function EstimateJoints(maps: seq<seq<Grid>>, imgH: real, imgW: real): (r: Result<seq<seq<real>>>)
    requires |maps| > 0 ==> RectangularMaps(maps[0])
    ensures |maps| == 0 <==> r == Err(EmptyBatch)
    ensures |maps| > 0 ==> (r.Ok? <==> forall j :: 1 <= j < |maps[0]| ==> Area(maps[0][j]) > 0)
    ensures |maps| > 0 && r.Err? ==> r.error == EmptyMap
    ensures r.Ok? ==> IsJointArray(r.value, |KeypointMaps(maps[0])|)
    ensures r.Ok? ==>
              forall j :: 0 <= j < |KeypointMaps(maps[0])| ==>
                && DecodeMap(maps[0][j + 1], imgH, imgW).Ok?
                && r.value[0][j] == DecodeMap(maps[0][j + 1], imgH, imgW).value.0.x as real
                && r.value[1][j] == DecodeMap(maps[0][j + 1], imgH, imgW).value.0.y as real
                && r.value[2][j] == DecodeMap(maps[0][j + 1], imgH, imgW).value.1
  {
    match GetKpts(maps, imgH, imgW)
    case Err(e) => Err(e)
    case Ok(d) => JointArray(d)
  }

  /** Fifteen decodable maps (background plus 14 joints) give the (3, 14) slice the batch loop stores. */
  lemma ShippedJointArrayShape(maps: seq<seq<Grid>>, imgH: real, imgW: real)
    requires |maps| > 0 && RectangularMaps(maps[0])
    requires |maps[0]| == JointCount + 1
    requires forall j :: 1 <= j < |maps[0]| ==> Area(maps[0][j]) > 0
    ensures EstimateJoints(maps, imgH, imgW).Ok?
    ensures IsJointArray(EstimateJoints(maps, imgH, imgW).value, JointCount)
  {
  }
}
