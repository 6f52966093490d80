/** Colour separation with gray component replacement (`gcr`): the shared gray part of
    cyan, magenta and yellow is taken out of those three inks and printed as black. */
module Separator {
  import opened Pixels

  datatype Rgb = Rgb(r: Byte, g: Byte, b: Byte)

  datatype Cmyk = Cmyk(c: Byte, m: Byte, y: Byte, k: Byte)

  /** The imaging library's RGB to CMYK conversion: each ink is the complement of its
      primary and no black is produced. */
  function ToCmyk(p: Rgb): (q: Cmyk)
    ensures q.k == 0
    ensures FromCmyk(q) == p
  {
    Cmyk(255 - p.r, 255 - p.g, 255 - p.b, 0)
  }

  /** The inverse of `ToCmyk` on its image (black is ignored). */
  function FromCmyk(q: Cmyk): Rgb
  {
    Rgb(255 - q.c, 255 - q.m, 255 - q.y)
  }

  /** `im.convert('CMYK')` applied pixel by pixel. */
  function Convert(im: Grid<Rgb>): (out: Grid<Cmyk>)
    ensures SameShape(out, im)
    ensures forall y, x :: 0 <= y < |im| && 0 <= x < |im[y]| ==> out[y][x] == ToCmyk(im[y][x])
  {
    seq(|im|, y requires 0 <= y < |im| =>
      seq(|im[y]|, x requires 0 <= x < |im[y]| => ToCmyk(im[y][x])))
  }

  /** The gray component of a pixel, `int(min(C, M, Y) * percentage / 100)`. The operands are
      never negative, so Python's truncation of the true quotient is floor division. */
  function Gray(px: Cmyk, percentage: int): (g: Byte)
    requires 0 <= percentage <= 100
    ensures g <= Min3(px.c, px.m, px.y)
    ensures g * 100 <= Min3(px.c, px.m, px.y) * percentage < (g + 1) * 100
  {
    var low := Min3(px.c, px.m, px.y);
    assert low * percentage <= low * 100;
    low * percentage / 100
  }

  /** One pixel of the general path: the gray is subtracted from C, M and Y and written into K. */
  function GcrPixel(px: Cmyk, percentage: int): (q: Cmyk)
    requires 0 <= percentage <= 100
    ensures q.k == Gray(px, percentage)
    ensures q.c + q.k == px.c && q.m + q.k == px.m && q.y + q.k == px.y
  {
    var g := Gray(px, percentage);
    Cmyk(px.c - g, px.m - g, px.y - g, g)
  }

  /** `gcr(im, percentage)`: a zero percentage returns the plain conversion, any other
      percentage rewrites every pixel of it with `GcrPixel`. */
  function Gcr(im: Grid<Rgb>, percentage: int): (out: Grid<Cmyk>)
    requires 0 <= percentage <= 100
    ensures SameShape(out, im)
    ensures percentage == 0 ==> out == Convert(im)
    ensures forall y, x :: 0 <= y < |im| && 0 <= x < |im[y]| ==>
      out[y][x] == GcrPixel(ToCmyk(im[y][x]), percentage)
  {
    var cmyk := Convert(im);
    if percentage == 0 then
      FastPathAgrees(im);
      cmyk
    else
      seq(|cmyk|, y requires 0 <= y < |cmyk| =>
        seq(|cmyk[y]|, x requires 0 <= x < |cmyk[y]| => GcrPixel(cmyk[y][x], percentage)))
  }

  /** The zero-percentage fast path gives what the general path would have given:
      with no gray to move, the only edit left is writing K := 0, and the conversion
      already produced K == 0. */
  lemma FastPathAgrees(im: Grid<Rgb>)
    ensures forall y, x :: 0 <= y < |im| && 0 <= x < |im[y]| ==>
      GcrPixel(ToCmyk(im[y][x]), 0) == Convert(im)[y][x]
  {
  }

  /** The general path overwrites K: a pixel that already carried black loses it when
      no gray is moved. This is why the fast path and the general path only agree on
      converted (K == 0) pixels. */
  lemma GeneralPathDropsBlack(px: Cmyk)
    requires px.k != 0
    ensures GcrPixel(px, 0) != px
  {
  }

  /** With full replacement, the lightest of C, M, Y becomes zero: all of the gray is black. */
  lemma FullReplacementClearsGray(px: Cmyk)
    ensures var q := GcrPixel(px, 100); Min3(q.c, q.m, q.y) == 0 && q.k == Min3(px.c, px.m, px.y)
  {
    var q := GcrPixel(px, 100);
    assert q.k == Min3(px.c, px.m, px.y);
  }

  /** The example of the function's documentation, for percentage 100. */
  lemma DocExample()
    ensures GcrPixel(Cmyk(41, 100, 255, 0), 100) == Cmyk(0, 59, 214, 41)
  {
    assert Gray(Cmyk(41, 100, 255, 0), 100) == 41;
  }

  /** More replacement never moves less gray. */
  lemma {:induction false} GrayMonotone(px: Cmyk, p1: int, p2: int)
    requires 0 <= p1 <= p2 <= 100
    ensures Gray(px, p1) <= Gray(px, p2)
  {
    var low := Min3(px.c, px.m, px.y);
    var g1: int, g2: int := Gray(px, p1), Gray(px, p2);
    MulMono(p1, p2, low);
    assert g1 * 100 <= low * p1 <= low * p2 < (g2 + 1) * 100;
  }

  /** Undoing a separation: add the black back into each of C, M, Y. */
  function Recombine(q: Cmyk): (px: Cmyk)
    requires q.c + q.k <= 255 && q.m + q.k <= 255 && q.y + q.k <= 255
  {
    Cmyk(q.c + q.k, q.m + q.k, q.y + q.k, 0)
  }

  /** Gray component replacement loses no information on a pixel without black:
      recombining the separated inks gives back the original pixel. */
  lemma GcrRoundTrip(px: Cmyk, percentage: int)
    requires 0 <= percentage <= 100
    requires px.k == 0
    ensures var q := GcrPixel(px, percentage);
      q.c + q.k <= 255 && q.m + q.k <= 255 && q.y + q.k <= 255 && Recombine(q) == px
  {
  }

  /** Total ink never grows: each unit of gray moved saves two units of ink. */
  lemma GcrSavesInk(px: Cmyk, percentage: int)
    requires 0 <= percentage <= 100
    requires px.k == 0
    ensures var q := GcrPixel(px, percentage);
      q.c + q.m + q.y + q.k == px.c + px.m + px.y - 2 * Gray(px, percentage)
  {
  }
}
