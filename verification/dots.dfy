/** The dot drawn for one sample box of `halftone`. The box mean comes from the imaging
    library and its square root from floating point; both arrive as a `BoxStat`, whose
    diameter is characterised by `d >= 0 && d * d == mean / 255` rather than computed. */
module Dots {

  /** The mean intensity of one box and the normalised dot diameter `(mean / 255) ** 0.5`. */
  datatype BoxStat = BoxStat(mean: real, diameter: real)

  /** A mean in the 8-bit range, and a diameter that is its normalised square root. */
  predicate ValidStat(s: BoxStat)
  {
    && 0.0 <= s.mean <= 255.0
    && s.diameter >= 0.0
    && s.diameter * s.diameter == s.mean / 255.0
  }

  /** The bounding square of one ellipse: `(left, top, left + side, top + side)`. */
  datatype Dot = Dot(left: real, top: real, side: real)

  /** The side of the dot drawn for a box, `sample * d * scale`. */
  function DotSide(sample: int, scale: int, s: BoxStat): real
    requires sample >= 1 && scale >= 1
    requires ValidStat(s)
  {
    sample as real * s.diameter * scale as real
  }

  /** A dot is never larger than its scaled box, `sample * scale` on a side. */
  lemma SideBounds(sample: int, scale: int, s: BoxStat)
    requires sample >= 1 && scale >= 1
    requires ValidStat(s)
    ensures 0.0 <= DotSide(sample, scale, s) <= sample as real * scale as real
  {
    var n, k := sample as real, scale as real;
    DiameterBounds(s);
    MulNonneg(n, s.diameter);
    MulNonneg(n * s.diameter, k);
    RealMulMono(s.diameter, 1.0, n);
    RealMulMono(n * s.diameter, n, k);
  }

  /** One coordinate of the dot's top-left corner, `(o + edge) * scale` with
      `edge = 0.5 * (1 - d)`: the offset is a fraction of one source pixel and is not
      multiplied by `sample`. */
  function DotCorner(o: int, scale: int, s: BoxStat): (corner: real)
    requires scale >= 1
    requires ValidStat(s)
    ensures o as real * scale as real <= corner
  {
    var edge := 0.5 * (1.0 - s.diameter);
    DiameterBounds(s);
    MulNonneg(edge, scale as real);
    (o as real + edge) * scale as real
  }

  /** The dot of the box with origin `(x, y)`. The dot stays inside its scaled box. */
  function DotFor(x: int, y: int, sample: int, scale: int, s: BoxStat): (dot: Dot)
    requires sample >= 1 && scale >= 1
    requires ValidStat(s)
    ensures x as real * scale as real <= dot.left
    ensures dot.left + dot.side <= (x as real + sample as real) * scale as real
    ensures y as real * scale as real <= dot.top
    ensures dot.top + dot.side <= (y as real + sample as real) * scale as real
  {
    FitsInBox(x, sample, scale, s);
    FitsInBox(y, sample, scale, s);
    Dot(DotCorner(x, scale, s), DotCorner(y, scale, s), DotSide(sample, scale, s))
  }

  /** Along one axis, the far edge of the dot does not pass the far edge of its box. */
  lemma FitsInBox(o: int, sample: int, scale: int, s: BoxStat)
    requires sample >= 1 && scale >= 1
    requires ValidStat(s)
    ensures DotCorner(o, scale, s) + DotSide(sample, scale, s) <= (o as real + sample as real) * scale as real
  {
    var d, n, k := s.diameter, sample as real, scale as real;
    var edge := 0.5 * (1.0 - d);
    DiameterBounds(s);
    SideBounds(sample, scale, s);
    assert DotCorner(o, scale, s) + DotSide(sample, scale, s) == o as real * k + (edge + n * d) * k;
    MulNonneg(n - 0.5, 1.0 - d);
    assert n - (edge + n * d) == (n - 0.5) * (1.0 - d);
    RealMulMono(edge + n * d, n, k);
    assert (o as real + n) * k == o as real * k + n * k;
  }

  /** The normalised diameter of a valid statistic lies in [0, 1]. */
  lemma DiameterBounds(s: BoxStat)
    requires ValidStat(s)
    ensures 0.0 <= s.diameter <= 1.0
  {
    SquareMono(s.diameter, 1.0);
  }

  /** An empty box has diameter 0 and a full box diameter 1, and no other box has either. */
  lemma DiameterExtremes(s: BoxStat)
    requires ValidStat(s)
    ensures s.mean == 0.0 <==> s.diameter == 0.0
    ensures s.mean == 255.0 <==> s.diameter == 1.0
  {
    var d := s.diameter;
    ProductZero(d, d);
    SquareMono(d, 1.0);
    SquareMono(1.0, d);
  }

  /** The diameter is a function of the mean: two valid statistics with the same mean agree. */
  lemma DiameterUnique(s1: BoxStat, s2: BoxStat)
    requires ValidStat(s1) && ValidStat(s2)
    requires s1.mean == s2.mean
    ensures s1.diameter == s2.diameter
  {
    SquareMono(s1.diameter, s2.diameter);
    SquareMono(s2.diameter, s1.diameter);
  }

  /** Larger means give larger dots, and conversely: the side is increasing in the mean. */
  lemma SideMonotone(sample: int, scale: int, s1: BoxStat, s2: BoxStat)
    requires sample >= 1 && scale >= 1
    requires ValidStat(s1) && ValidStat(s2)
    ensures s1.mean <= s2.mean <==> DotSide(sample, scale, s1) <= DotSide(sample, scale, s2)
  {
    var c := sample as real * scale as real;
    assert DotSide(sample, scale, s1) == c * s1.diameter;
    assert DotSide(sample, scale, s2) == c * s2.diameter;
    assert c >= 1.0 by { RealMulMono(1.0, sample as real, scale as real); }
    DiameterMonotone(s1, s2);
    RealMulCancel(s1.diameter, s2.diameter, c);
  }

  /** A larger mean gives a larger normalised diameter, and conversely. */
  lemma DiameterMonotone(s1: BoxStat, s2: BoxStat)
    requires ValidStat(s1) && ValidStat(s2)
    ensures s1.mean <= s2.mean <==> s1.diameter <= s2.diameter
  {
    SquareMono(s1.diameter, s2.diameter);
  }

  /** An empty box draws a dot of side 0, and only an empty box does; a full box draws a dot
      of side `sample * scale`, and only a full box does. */
  lemma SideExtremes(sample: int, scale: int, s: BoxStat)
    requires sample >= 1 && scale >= 1
    requires ValidStat(s)
    ensures s.mean == 0.0 <==> DotSide(sample, scale, s) == 0.0
    ensures s.mean == 255.0 <==> DotSide(sample, scale, s) == sample as real * scale as real
  {
    var d := s.diameter;
    var c := sample as real * scale as real;
    assert DotSide(sample, scale, s) == c * d;
    assert c >= 1.0 by { RealMulMono(1.0, sample as real, scale as real); }
    DiameterExtremes(s);
    ProductZero(c, d);
    RealMulCancel(d, 1.0, c);
    RealMulCancel(1.0, d, c);
  }

  /** The dot is centred on its scaled box exactly when `sample == 1` or the box is full:
      the offset `edge` is a fraction of one source pixel, not of the box. */
  lemma CentredIff(o: int, sample: int, scale: int, s: BoxStat)
    requires sample >= 1 && scale >= 1
    requires ValidStat(s)
    ensures 2.0 * DotCorner(o, scale, s) + DotSide(sample, scale, s) == (2.0 * o as real + sample as real) * scale as real
      <==> sample == 1 || s.diameter == 1.0
  {
    var d, n, k, x := s.diameter, sample as real, scale as real, o as real;
    var edge := 0.5 * (1.0 - d);
    var lhs := 2.0 * DotCorner(o, scale, s) + DotSide(sample, scale, s);
    assert lhs == (2.0 * x + 1.0 - d + n * d) * k;
    assert lhs - (2.0 * x + n) * k == ((1.0 - d) * (1.0 - n)) * k;
    ProductZero((1.0 - d) * (1.0 - n), k);
    ProductZero(1.0 - d, 1.0 - n);
  }

  lemma ProductZero(a: real, b: real)
    ensures a * b == 0.0 <==> a == 0.0 || b == 0.0
  {
  }

  lemma MulNonneg(a: real, b: real)
    requires a >= 0.0 && b >= 0.0
    ensures a * b >= 0.0
  {
  }

  lemma RealMulMono(a: real, b: real, c: real)
    requires a <= b && c >= 0.0
    ensures a * c <= b * c
  {
    MulNonneg(b - a, c);
    assert (b - a) * c == b * c - a * c;
  }

  /** A positive factor can be cancelled from both sides of `<=`. */
  lemma RealMulCancel(a: real, b: real, c: real)
    requires c > 0.0
    ensures a <= b <==> c * a <= c * b
  {
    assert c * b - c * a == c * (b - a);
    if a > b {
      MulPos(c, a - b);
    } else {
      MulNonneg(c, b - a);
    }
  }

  lemma MulPos(a: real, b: real)
    requires a > 0.0 && b > 0.0
    ensures a * b > 0.0
  {
  }

  /** Squaring is monotone on the non-negative reals, in both directions. */
  lemma SquareMono(a: real, b: real)
    requires a >= 0.0 && b >= 0.0
    ensures a <= b <==> a * a <= b * b
  {
    assert b * b - a * a == (b - a) * (b + a);
    assert a * a - b * b == (a - b) * (a + b);
    if a <= b {
      MulNonneg(b - a, b + a);
    } else {
      MulPos(a - b, a + b);
    }
  }
}
