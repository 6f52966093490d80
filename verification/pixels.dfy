/** Pixel values and image grids shared by the three stages of the halftone pipeline. */
module Pixels {

  /** One 8-bit sample: the range of every channel of a PIL 'L', 'LA', 'RGB' or 'CMYK' image. */
  type Byte = v: int | 0 <= v <= 255

  /** An image as a sequence of rows: `g[y][x]` is the pixel in column x of row y. */
  type Grid<T> = seq<seq<T>>

  /** Python's `min(a, b, c)`. */
  function Min3(a: int, b: int, c: int): (r: int)
    ensures r <= a && r <= b && r <= c
    ensures r == a || r == b || r == c
  {
    if a <= b && a <= c then a else if b <= c then b else c
  }

  /** Two images have the same number of rows and each row the same width. */
  predicate SameShape<S, T>(a: Grid<S>, b: Grid<T>)
  {
    |a| == |b| && forall y :: 0 <= y < |a| ==> |a[y]| == |b[y]|
  }

  /** Multiplying by a non-negative factor keeps the order. */
  lemma MulMono(a: int, b: int, k: nat)
    requires a <= b
    ensures a * k <= b * k
  {
  }

  /** The order of two multiples of the same factor is the order of the multiplicands. */
  lemma MulCancel(a: int, b: int, k: nat)
    requires a * k < b * k
    ensures a < b
  {
  }
}
