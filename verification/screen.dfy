/** `screen_templates`: each halftone plane becomes a gray-with-alpha template whose gray is
    the inverted plane and whose alpha is a hard threshold of that gray. */
module Screen {
  import opened Pixels

  /** A pixel of a PIL 'LA' image: luminance and alpha. */
  datatype LumaAlpha = LumaAlpha(l: Byte, a: Byte)

  /** The threshold used when the caller gives none. */
  const DefaultThreshold: int := 128

  /** The template pixel of a halftone pixel `v`: the inverted value `255 - v`, transparent
      when that value is above the threshold and opaque otherwise. */
  function ScreenPixel(v: Byte, threshold: int): (p: LumaAlpha)
    ensures p.l == 255 - v
    ensures p.a == 0 || p.a == 255
    ensures p.a == 0 <==> 255 - v > threshold
  {
    var gray := 255 - v;
    if gray > threshold then LumaAlpha(gray, 0) else LumaAlpha(gray, 255)
  }

  /** `ImageOps.invert(image).convert('LA')`: inverted gray, fully opaque. */
  function InvertToLumaAlpha(image: Grid<Byte>): (t: Grid<LumaAlpha>)
    ensures SameShape(t, image)
    ensures forall y, x :: 0 <= y < |image| && 0 <= x < |image[y]| ==> t[y][x] == LumaAlpha(255 - image[y][x], 255)
  {
    seq(|image|, y requires 0 <= y < |image| =>
      seq(|image[y]|, x requires 0 <= x < |image[y]| => LumaAlpha(255 - image[y][x], 255)))
  }

  /** The luminance plane of a template; it undoes the inversion. */
  function Luminance(t: Grid<LumaAlpha>): (plane: Grid<Byte>)
    ensures SameShape(plane, t)
  {
    seq(|t|, y requires 0 <= y < |t| =>
      seq(|t[y]|, x requires 0 <= x < |t[y]| => 255 - t[y][x].l))
  }

  /** `t` has the shape of `image` and holds the thresholded pixel of each of its pixels. */
  predicate IsTemplateOf(t: Grid<LumaAlpha>, image: Grid<Byte>, threshold: int)
  {
    && SameShape(t, image)
    && forall y, x :: 0 <= y < |image| && 0 <= x < |image[y]| ==> t[y][x] == ScreenPixel(image[y][x], threshold)
  }

  /** The template of one halftone plane, built as the source does: invert, then visit
      every pixel row by row and overwrite it with its thresholded value. */
  method Template(image: Grid<Byte>, threshold: int) returns (t: Grid<LumaAlpha>)
    ensures IsTemplateOf(t, image, threshold)
    ensures Luminance(t) == image
  {
    t := InvertToLumaAlpha(image);
    for y := 0 to |t|
      invariant SameShape(t, image)
      invariant forall j, x :: 0 <= j < y && 0 <= x < |image[j]| ==> t[j][x] == ScreenPixel(image[j][x], threshold)
      invariant forall j, x :: y <= j < |image| && 0 <= x < |image[j]| ==> t[j][x] == LumaAlpha(255 - image[j][x], 255)
    {
      for x := 0 to |t[y]|
        invariant SameShape(t, image)
        invariant forall j, i :: 0 <= j < y && 0 <= i < |image[j]| ==> t[j][i] == ScreenPixel(image[j][i], threshold)
        invariant forall j, i :: y < j < |image| && 0 <= i < |image[j]| ==> t[j][i] == LumaAlpha(255 - image[j][i], 255)
        invariant forall i :: 0 <= i < x ==> t[y][i] == ScreenPixel(image[y][i], threshold)
        invariant forall i :: x <= i < |image[y]| ==> t[y][i] == LumaAlpha(255 - image[y][i], 255)
      {
        var gray := t[y][x].l;
        if gray > threshold {
          t := t[y := t[y][x := LumaAlpha(gray, 0)]];
        } else {
          t := t[y := t[y][x := LumaAlpha(gray, 255)]];
        }
      }
    }
    assert Luminance(t) == image by {
      var lum := Luminance(t);
      assert |lum| == |image|;
      forall y | 0 <= y < |image| ensures lum[y] == image[y] {
        assert |lum[y]| == |image[y]|;
        forall x | 0 <= x < |image[y]| ensures lum[y][x] == image[y][x] {
        }
      }
    }
  }

  /** `screen_templates(halftones, threshold)`: one template per halftone plane, in order. */
  method ScreenTemplates(halftones: seq<Grid<Byte>>, threshold: int := DefaultThreshold)
    returns (templates: seq<Grid<LumaAlpha>>)
    ensures |templates| == |halftones|
    ensures forall i :: 0 <= i < |halftones| ==> IsTemplateOf(templates[i], halftones[i], threshold)
    ensures forall i :: 0 <= i < |halftones| ==> Luminance(templates[i]) == halftones[i]
  {
    templates := [];
    for i := 0 to |halftones|
      invariant |templates| == i
      invariant forall j :: 0 <= j < i ==> IsTemplateOf(templates[j], halftones[j], threshold)
      invariant forall j :: 0 <= j < i ==> Luminance(templates[j]) == halftones[j]
    {
      var t := Template(halftones[i], threshold);
      templates := templates + [t];
    }
  }

  /** Opacity in terms of the halftone plane itself: a pixel is opaque exactly when it is at
      least `255 - threshold`, so the drawn dots (value 255) are opaque for any threshold that
      is not negative and the background (value 0) is transparent below threshold 255. */
  lemma OpaqueIffDark(v: Byte, threshold: int)
    ensures ScreenPixel(v, threshold).a == 255 <==> v >= 255 - threshold
    ensures threshold >= 0 ==> ScreenPixel(255, threshold).a == 255
    ensures threshold < 255 ==> ScreenPixel(0, threshold).a == 0
  {
  }

  /** Raising the threshold never makes an opaque pixel transparent. */
  lemma ThresholdMonotone(v: Byte, t1: int, t2: int)
    requires t1 <= t2
    ensures ScreenPixel(v, t1).a == 255 ==> ScreenPixel(v, t2).a == 255
  {
  }

  /** At threshold 255 (or above) every template pixel is opaque. */
  lemma AllOpaqueFromFull(v: Byte, threshold: int)
    requires threshold >= 255
    ensures ScreenPixel(v, threshold).a == 255
  {
  }
}
