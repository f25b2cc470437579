/**
  Rescaling a map cell into image coordinates.  The source computes
  `int(w * img_w / W)` on Python floats: the product and quotient are taken
  as exact reals here, and `int` truncates toward zero.
 */
module Scaling {

  /** The network's output stride (test/cpm_test.py line 9). */
  const Stride: nat := 8

  /** Default `img_h` / `img_w` of the decoder and the network's input size. */
  const ImageSize: real := 368.0

  /** Side of the network's output maps for a 368 x 368 input. */
  const MapSize: nat := 46

  /** Python's `int()` on a float: truncation toward zero. */
  function Trunc(q: real): (n: int)
    ensures 0.0 <= q ==> 0 <= n && n as real <= q < n as real + 1.0
    ensures q < 0.0 ==> n <= 0 && n as real - 1.0 < q <= n as real
  {
    if q >= 0.0 then q.Floor else -((-q).Floor)
  }

  /** The exact value of `c * img / dim`. */
  function Scaled(c: nat, img: real, dim: nat): real
    requires dim > 0
  {
    (c as real) * img / (dim as real)
  }

  lemma ScaledTimesDim(c: nat, img: real, dim: nat)
    requires dim > 0
    ensures Scaled(c, img, dim) * (dim as real) == (c as real) * img
  {
  }

  lemma ProductNonNegative(a: real, b: real)
    requires 0.0 <= a && 0.0 <= b
    ensures 0.0 <= a * b
  {
  }

  lemma ProductMonotone(a: real, b: real, k: real)
    requires a <= b && 0.0 <= k
    ensures a * k <= b * k
  {
    ProductNonNegative(b - a, k);
    assert b * k - a * k == (b - a) * k;
  }

  lemma ProductStrictlyMonotone(a: real, b: real, k: real)
    requires a < b && 0.0 < k
    ensures a * k < b * k
  {
    assert b * k - a * k == (b - a) * k;
  }

  /** The exact quotient is non-negative, and it stays below the image extent for an in-range coordinate. */
  lemma ScaledBounds(c: nat, img: real, dim: nat)
    requires dim > 0
    ensures 0.0 <= img ==> 0.0 <= Scaled(c, img, dim)
    ensures c < dim && 0.0 < img ==> Scaled(c, img, dim) < img
  {
    var q, den := Scaled(c, img, dim), dim as real;
    ScaledTimesDim(c, img, dim);
    if 0.0 <= img {
      ProductNonNegative(c as real, img);
      if q < 0.0 {
        ProductStrictlyMonotone(q, 0.0, den);
      }
    }
    if c < dim && 0.0 < img {
      ProductStrictlyMonotone(c as real, den, img);
      if img <= q {
        ProductMonotone(img, q, den);
      }
    }
  }

  /**
    `int(c * img / dim)`: map coordinate `c` (a column or a row of a map with
    `dim` columns or rows) carried to an image of extent `img`.
   */
  function Rescale(c: nat, img: real, dim: nat): (r: int)
    requires dim > 0
    ensures 0.0 <= img ==> 0 <= r && (r as real) * (dim as real) <= (c as real) * img
    ensures 0.0 <= img ==> (c as real) * img < ((r + 1) as real) * (dim as real)
    ensures c < dim && 0.0 < img ==> (r as real) < img
  {
    var q := Scaled(c, img, dim);
    ScaledBounds(c, img, dim);
    ScaledTimesDim(c, img, dim);
    var r := Trunc(q);
    if 0.0 <= img then
      ProductMonotone(r as real, q, dim as real);
      assert q < (r + 1) as real;
      ProductStrictlyMonotone(q, (r + 1) as real, dim as real);
      assert (c as real) * img == q * (dim as real);
      assert (c as real) * img < ((r + 1) as real) * (dim as real);
      r
    else
      r
  }

  lemma CastProduct(a: nat, b: nat)
    ensures ((a * b) as real) == (a as real) * (b as real)
  {
  }

  /** Real division is determined by multiplication. */
  lemma QuotientByProduct(x: real, y: real, den: real)
    requires 0.0 < den && y * den == x
    ensures x / den == y
  {
  }

  lemma ProductDistributes(a: real, b: real, k: real)
    ensures (a + b) * k == a * k + b * k
  {
  }

  /** Flooring an exact quotient of naturals is natural-number division. */
  lemma FloorOfQuotient(n: nat, dim: nat)
    requires dim > 0
    ensures ((n as real) / (dim as real)).Floor == n / dim
  {
    var d, rem := n / dim, n % dim;
    var den := dim as real;
    CastProduct(d, dim);
    assert (n as real) == (d as real) * den + (rem as real);
    var frac := (rem as real) / den;
    assert frac * den == rem as real;
    if frac < 0.0 {
      ProductStrictlyMonotone(frac, 0.0, den);
    }
    if frac >= 1.0 {
      ProductMonotone(1.0, frac, den);
    }
    ProductDistributes(d as real, frac, den);
    QuotientByProduct(n as real, (d as real) + frac, den);
    assert (d as real) <= (d as real) + frac < (d as real) + 1.0;
  }

  /** For whole-number image extents the rescale is natural-number floor division. */
  lemma RescaleIsNatDivision(c: nat, img: nat, dim: nat)
    requires dim > 0
    ensures Rescale(c, img as real, dim) == (c * img) / dim
  {
    var n := c * img;
    CastProduct(c, img);
    assert Scaled(c, img as real, dim) == (n as real) / (dim as real);
    FloorOfQuotient(n, dim);
    ScaledBounds(c, img as real, dim);
  }

  /** With the shipped sizes (368-pixel images, 46-cell maps) the rescale multiplies by the stride. */
  lemma RescaleShipped(c: nat)
    ensures Rescale(c, ImageSize, MapSize) == c * Stride
  {
    RescaleIsNatDivision(c, 368, MapSize);
    assert c * 368 == (c * Stride) * MapSize;
  }
}
