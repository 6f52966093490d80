/** Two end-to-end examples of the pipeline, each stage stated on the model of that stage. */
module Scenarios {
  import opened Pixels
  import opened Separator
  import opened Dots
  import opened Screen

  /** A `width` by `height` plane of one value. */
  function Uniform<T>(width: nat, height: nat, v: T): (g: Grid<T>)
    ensures |g| == height && forall y :: 0 <= y < height ==> |g[y]| == width
  {
    seq(height, _ => seq(width, _ => v))
  }

  /** A 2 by 2 black image separated with full replacement is pure black ink: C, M, Y are 0
      and K is 255 everywhere. */
  lemma {:induction false} BlackSeparatesToKey()
    ensures var out := Gcr(Uniform(2, 2, Rgb(0, 0, 0)), 100);
      forall y, x :: 0 <= y < 2 && 0 <= x < 2 ==> out[y][x] == Cmyk(0, 0, 0, 255)
  {
    var im := Uniform(2, 2, Rgb(0, 0, 0));
    var out := Gcr(im, 100);
    assert ToCmyk(Rgb(0, 0, 0)) == Cmyk(255, 255, 255, 0);
    assert Gray(Cmyk(255, 255, 255, 0), 100) == 255;
    assert GcrPixel(Cmyk(255, 255, 255, 0), 100) == Cmyk(0, 0, 0, 255);
    assert forall y, x :: 0 <= y < 2 && 0 <= x < 2 ==> im[y][x] == Rgb(0, 0, 0);
  }

  /** A 1 by 1 white image separated without replacement carries no ink at all. */
  lemma {:induction false} WhiteSeparatesToNothing()
    ensures Gcr(Uniform(1, 1, Rgb(255, 255, 255)), 0)[0][0] == Cmyk(0, 0, 0, 0)
  {
    var im := Uniform(1, 1, Rgb(255, 255, 255));
    assert im[0][0] == Rgb(255, 255, 255);
  }

  /** With `sample == scale == 1`, a full box (the key plane of the black image) draws a dot that
      covers exactly its 1 by 1 box, and an empty box (the other planes) draws nothing. */
  lemma UnitBoxDots(x: int, y: int, s: BoxStat)
    requires ValidStat(s)
    ensures s.mean == 255.0 ==> DotFor(x, y, 1, 1, s) == Dot(x as real, y as real, 1.0)
    ensures s.mean == 0.0 ==> DotFor(x, y, 1, 1, s).side == 0.0
  {
    SideExtremes(1, 1, s);
    DiameterExtremes(s);
  }

  /** Templates of the filled key plane are opaque everywhere and templates of the blank
      planes are transparent everywhere, at the default threshold. */
  lemma {:induction false} UniformTemplates(t: Grid<LumaAlpha>, width: nat, height: nat, v: Byte)
    requires v == 0 || v == 255
    requires IsTemplateOf(t, Uniform(width, height, v), DefaultThreshold)
    ensures forall y, x :: 0 <= y < height && 0 <= x < width ==> t[y][x].a == (if v == 255 then 255 else 0)
  {
    var plane := Uniform(width, height, v);
    forall y, x | 0 <= y < height && 0 <= x < width
      ensures t[y][x].a == (if v == 255 then 255 else 0)
    {
      assert plane[y][x] == v;
      assert t[y][x] == ScreenPixel(v, DefaultThreshold);
    }
  }
}
