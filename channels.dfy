/** Colour channels as the error-diffusion ditherer sees them: four 8-bit
    values in the fixed order red, green, blue, alpha, and the integer
    arithmetic that the ditherer applies to them one channel at a time. */
module Channels {

  /** kChannels: red, green, blue and alpha are processed identically. */
  const CHANNELS: nat := 4

  /** One 8-bit channel value, as rgba_getr/g/b/a extract it. */
  type Byte = n: int | 0 <= n < 256

  /** A doc::color_t seen through its four channel accessors. */
  datatype Color = Color(r: Byte, g: Byte, b: Byte, a: Byte)

  /** Channel i of c, in the order red, green, blue, alpha. */
  function Channel(c: Color, i: nat): (b: Byte)
    requires i < CHANNELS
  {
    if i == 0 then c.r else if i == 1 then c.g else if i == 2 then c.b else c.a
  }

  /** `color & rgba_rgb_mask`: the same red, green and blue, alpha cleared. */
  function WithoutAlpha(c: Color): (m: Color)
    ensures forall i :: 0 <= i < 3 ==> Channel(m, i) == Channel(c, i)
    ensures Channel(m, 3) == 0
  {
    c.(a := 0)
  }

  /** C++ `n / d` on int for a positive divisor: the quotient is truncated
      toward zero (Dafny's own `/` is Euclidean and rounds negative
      quotients down instead). */
  function TruncDiv(n: int, d: int): (q: int)
    requires d > 0
    ensures n >= 0 ==> 0 <= q && q * d <= n < q * d + d
    ensures n < 0 ==> q <= 0 && q * d - d < n <= q * d
  {
    if n >= 0 then
      EuclidBounds(n, d);
      n / d
    else
      EuclidBounds(-n, d);
      NegateFactor((-n) / d, d);
      -((-n) / d)
  }

  /** Helper: for a non-negative dividend Euclidean division truncates. */
  lemma EuclidBounds(m: int, d: int)
    requires m >= 0 && d > 0
    ensures 0 <= m / d && (m / d) * d <= m < (m / d) * d + d
  {
    assert m == d * (m / d) + m % d;
  }

  /** Helper: negating a factor negates the product. */
  lemma NegateFactor(p: int, d: int)
    ensures (-p) * d == -(p * d)
  {
  }

  /** The C++ rule for `/` and `%`: n == q * d + r, the remainder is smaller
      than the divisor and carries the sign of the dividend. Any quotient
      obeying that rule is the one TruncDiv computes. */
  lemma TruncDivMatchesCpp(n: int, d: int, q: int, r: int)
    requires d > 0
    requires n == q * d + r
    requires -d < r < d
    requires n >= 0 ==> r >= 0
    requires n < 0 ==> r <= 0
    ensures q == TruncDiv(n, d)
  {
    var t := TruncDiv(n, d);
    if q < t {
      assert q * d <= t * d - d by { MulMonotone(q, t - 1, d); }
    } else if q > t {
      assert t * d + d <= q * d by { MulMonotone(t + 1, q, d); }
    }
  }

  /** Helper: multiplication by a positive factor is monotone. */
  lemma MulMonotone(a: int, b: int, d: int)
    requires a <= b && d > 0
    ensures a * d <= b * d
  {
    var k := b - a;
    assert b * d == a * d + k * d;
  }

  /** Truncating division is symmetric about zero. */
  lemma TruncDivNegates(n: int, d: int)
    requires d > 0
    ensures TruncDiv(-n, d) == -TruncDiv(n, d)
  {
  }

  /** Where truncation and Euclidean division part ways: a negative dividend
      that d does not divide. */
  lemma TruncDivVersusEuclid(n: int, d: int)
    requires d > 0
    ensures n >= 0 || n % d == 0 ==> TruncDiv(n, d) == n / d
    ensures n < 0 && n % d != 0 ==> TruncDiv(n, d) == n / d + 1
  {
    if n < 0 {
      var q := n / d;
      var r := n % d;
      assert n == q * d + r;
      if r == 0 {
        TruncDivMatchesCpp(n, d, q, 0);
      } else {
        assert n == (q + 1) * d + (r - d);
        TruncDivMatchesCpp(n, d, q + 1, r - d);
      }
    }
  }

  /** The distance between two integers. */
  function Dist(a: int, b: int): (d: nat)
  {
    if a <= b then b - a else a - b
  }

  /** `MID(0, v, 255)`: v forced into the byte range. */
  function ClampByte(v: int): (b: Byte)
    ensures 0 <= v < 256 ==> b == v
    ensures v < 0 ==> b == 0
    ensures v > 255 ==> b == 255
  {
    if v < 0 then 0 else if v > 255 then 255 else v
  }

  /** ClampByte leaves bytes alone and otherwise yields the nearest byte. */
  lemma ClampIsNearestByte(v: int)
    ensures 0 <= v < 256 ==> ClampByte(v) == v
    ensures forall b: Byte :: Dist(v, ClampByte(v)) <= Dist(v, b)
  {
  }
}
