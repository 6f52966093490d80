# CMYK halftone screens, modelled in Dafny

A model of `cmyk_halftones.py`, a small tool that turns a colour image into four halftone
screens, one per printing ink. It has three pure image transforms:

- `gcr` separates an RGB image into cyan, magenta, yellow and black (key). It uses gray
  component replacement: a percentage of the gray that C, M and Y share is taken out of all
  three and printed as black.
- `halftone` rotates each ink plane by its screen angle (0, 15, 30, 45 degrees). It cuts the
  rotated plane into `sample`-sized boxes and draws one dot per box, sized by the box's mean
  intensity. It then rotates the dots back and crops the result to the scaled image size.
- `screen_templates` inverts each dot plane and gives it a hard alpha channel, so ink is
  opaque and background is transparent.

Images are `Grid<T>`, a sequence of rows (`g[y][x]`). Channel values are `Byte`, an `int`
from 0 to 255. Pixels are modelled as datatypes: `Rgb`, `Cmyk` and `LumaAlpha`.

Modules:

- `Pixels` (pixels.dfy): `Byte`, `Grid`, `Min3` and `SameShape`.
- `Separator` (separator.dfy): `gcr`.
- `Boxes` (boxes.dfy): the two nested `range(0, size, sample)` loops of `halftone`.
- `Dots` (dots.dfy): the dot drawn for one box. It is modelled over `real`.
- `Halftone` (halftone.dfy): the per-channel loop of `halftone`. The angle is a running
  counter, as in the source.
- `Screen` (screen.dfy): `screen_templates`. It is written as nested loops that overwrite an
  inverted copy pixel by pixel, as the source does.
- `Scenarios` (scenarios.dfy): two end-to-end examples, a black image and a white image.

The square root at line 51 is not computed. A `BoxStat` carries a box mean in [0, 255] and a
diameter `d`. The predicate `ValidStat` requires `d >= 0 && d * d == mean / 255`, and every
dot property is proved from that characterisation alone. The mean is a `real` because the
imaging library averages over the box.

Details of the code that the model keeps exactly as written, including where they differ from
what a textbook halftone screen would do:

- Box order: the box loop runs x outer and y inner (lines 47-48), so boxes are visited column
  by column, not row by row (`Boxes.PairsOrder`).
- Dot offset: the offset `edge = 0.5 * (1 - d)` (line 52) is not multiplied by `sample`. A dot
  is therefore centred in its box only when `sample == 1` or the box is full (`Dots.CentredIff`).
  It does always stay inside its box (`Dots.DotFor`), so dots of different boxes never
  overlap (`Halftone.DotsDisjoint`).
- Edge boxes: every box is cropped as a full `sample` by `sample` square (line 49), even past
  the edge of the plane. The mean is therefore an opaque input, not an average over in-bounds
  pixels.
- No input checks: `gcr` does not check the percentage, and `screen_templates` checks neither
  the threshold nor the plane sizes. The model adds no error results for these.
- Black channel: the general path of `gcr` overwrites K with the gray (line 26) instead of
  adding to it. This agrees with the zero-percentage fast path only because the RGB conversion
  produces K = 0 (`Separator.FastPathAgrees`, `Separator.GeneralPathDropsBlack`).

## Model

| member | source | states |
|---|---|---|
| Pixels.Min3 | cmyk_halftones.py:21 | the result is at most each of the three values and equal to one of them: their minimum |
| Separator.ToCmyk | cmyk_halftones.py:8 | the RGB to CMYK conversion produces no black, and complementing the inks gives back the RGB pixel |
| Separator.Convert | cmyk_halftones.py:8 | the converted image has the input's shape, and each pixel is the conversion of the input pixel at the same place |
| Separator.Gray | cmyk_halftones.py:21 | the gray is the floor of `min(C,M,Y) * p / 100`: `g*100 <= min*p < (g+1)*100`, and it is at most `min(C,M,Y)` |
| Separator.GcrPixel | cmyk_halftones.py:21-26 | K becomes the gray, and C'+K' = C, M'+K' = M, Y'+K' = Y, all staying within 0..255 |
| Separator.Gcr | cmyk_halftones.py:4-28 | the shape is preserved; at p = 0 the result is the plain conversion; for every p each pixel is `GcrPixel` of its own converted pixel and of nothing else |
| Separator.FastPathAgrees | cmyk_halftones.py:10-26 | on a converted image the zero-percentage fast path equals the general per-pixel path |
| Separator.GeneralPathDropsBlack | cmyk_halftones.py:26 | the general path replaces an existing K instead of keeping it, so it differs from the fast path on a pixel that already has black |
| Separator.FullReplacementClearsGray | cmyk_halftones.py:21-26 | at p = 100 the lightest of C', M', Y' is 0 and K' is the old `min(C,M,Y)` |
| Separator.DocExample | cmyk_halftones.py:5-7 | (41, 100, 255, 0) becomes (0, 59, 214, 41) at p = 100 |
| Separator.GrayMonotone | cmyk_halftones.py:21 | a larger percentage never moves less gray |
| Separator.GcrRoundTrip | cmyk_halftones.py:21-26 | on a pixel without black, adding K' back to C', M', Y' recovers the pixel, so no information is lost |
| Separator.GcrSavesInk | cmyk_halftones.py:21-26 | total ink falls by exactly twice the gray moved |
| Boxes.Range | cmyk_halftones.py:47-48 | `range(start, stop, step)`: element i is `start + i*step` and below `stop`, and one more step would reach `stop` |
| Boxes.Pairs | cmyk_halftones.py:47-48 | the nested loops visit exactly the pairs of an x from the outer range and a y from the inner one |
| Boxes.PairsLength | cmyk_halftones.py:47-48 | there is one box per pair of column and row origin |
| Boxes.PairsOrder | cmyk_halftones.py:47-48 | with m row origins, box number `i*m + j` is `(xs[i], ys[j])`: x is the outer loop |
| Boxes.BoxOrigins | cmyk_halftones.py:47-48 | every box origin lies inside the rotated plane; together with `Boxes.OriginsExactly`, the origins are exactly the grid points whose coordinates are multiples of `sample` |
| Boxes.MultiplesApart | cmyk_halftones.py:47-48 | two different origins along one axis are at least `sample` apart |
| Boxes.RangeMembers | cmyk_halftones.py:47 | the elements of `range(0, n, sample)` are exactly the multiples of `sample` below n |
| Boxes.OriginsExactly | cmyk_halftones.py:47-48 | the box origins are exactly the points with both coordinates multiples of `sample`, inside the rotated plane |
| Boxes.PixelInOneBox | cmyk_halftones.py:47-49 | every pixel of the rotated plane lies in exactly one box `[x, x+sample) x [y, y+sample)`, the one at its coordinates rounded down |
| Dots.DotCorner | cmyk_halftones.py:52-53 | the dot's corner is never before the box origin scaled into the working plane |
| Dots.ValidStat | cmyk_halftones.py:51 | the diameter is the normalised square root of the box mean: `d >= 0` and `d * d == mean / 255`, with the mean in [0, 255]; a predicate, whose consequences `Dots.DiameterBounds`, `Dots.DiameterExtremes`, `Dots.DiameterUnique` and `Dots.DiameterMonotone` state |
| Dots.DotSide | cmyk_halftones.py:54 | the dot side `sample * d * scale`; a definition, whose bounds and monotonicity `Dots.SideBounds`, `Dots.SideMonotone` and `Dots.SideExtremes` state |
| Dots.DotFor | cmyk_halftones.py:51-55 | the dot's bounding square lies inside the scaled box of its origin, on both axes |
| Dots.FitsInBox | cmyk_halftones.py:52-54 | the far edge of the dot does not pass the far edge of its scaled box |
| Dots.SideBounds | cmyk_halftones.py:54 | the side `sample * d * scale` lies in [0, sample*scale] |
| Dots.DiameterBounds | cmyk_halftones.py:51 | the normalised diameter lies in [0, 1] |
| Dots.DiameterExtremes | cmyk_halftones.py:51 | the diameter is 0 exactly for mean 0 and 1 exactly for mean 255 |
| Dots.DiameterUnique | cmyk_halftones.py:51 | the diameter is determined by the mean |
| Dots.DiameterMonotone | cmyk_halftones.py:51 | a larger mean gives a larger diameter, and conversely |
| Dots.SideMonotone | cmyk_halftones.py:51-54 | the dot side is monotone in the mean, in both directions |
| Dots.SideExtremes | cmyk_halftones.py:51-54 | side 0 exactly for mean 0, side `sample*scale` exactly for mean 255 |
| Dots.CentredIff | cmyk_halftones.py:52-54 | the dot is centred on its box if and only if `sample == 1` or the diameter is 1 |
| Halftone.DotsDisjoint | cmyk_halftones.py:47-55 | the dots of two different box origins do not overlap: one ends before the other begins along x or along y |
| Halftone.GridPointsApart | cmyk_halftones.py:47-48 | two different box origins are at least `sample` apart in some coordinate |
| Halftone.InBoxesApart | cmyk_halftones.py:47-55 | any two dots inside the scaled boxes of origins at least `sample` apart in some coordinate do not overlap |
| Halftone.Crop | cmyk_halftones.py:58-61 | the crop box is `width*scale` by `height*scale` and centred in the back-rotated plane, whatever that plane's size |
| Halftone.RenderChannel | cmyk_halftones.py:42-61 | angle and back angle are opposite; the working plane is the rotated size times `scale`; there is one dot per box origin, drawn inside that box; the crop has the scaled image size |
| Halftone.Halftone | cmyk_halftones.py:31-65 | one screen per input channel, in order; channel i is rotated by 15*i and back by -15*i; every crop is `width*scale` by `height*scale` |
| Screen.ScreenPixel | cmyk_halftones.py:80-84 | the luminance is `255 - v`; alpha is always 0 or 255, and it is 0 exactly when `255 - v > threshold` |
| Screen.InvertToLumaAlpha | cmyk_halftones.py:76 | the inverted gray-with-alpha copy has the plane's shape, with gray `255 - v` and full alpha at every pixel |
| Screen.Template | cmyk_halftones.py:76-86 | the template has the plane's shape and the thresholded pixel at every place, and its luminance inverts back to the plane |
| Screen.ScreenTemplates | cmyk_halftones.py:68-88 | one template per plane, in order, with the default threshold 128; each is the plane's template and inverts back to the plane |
| Screen.OpaqueIffDark | cmyk_halftones.py:80-84 | a pixel is opaque exactly when `v >= 255 - threshold`: drawn dots (255) are opaque for any threshold that is not negative, and background (0) is transparent below 255 |
| Screen.ThresholdMonotone | cmyk_halftones.py:81 | raising the threshold never turns an opaque pixel transparent |
| Screen.AllOpaqueFromFull | cmyk_halftones.py:81-84 | at threshold 255 every pixel is opaque |
| Scenarios.BlackSeparatesToKey | cmyk_halftones.py:19-26 | a 2 by 2 black image at p = 100 separates to C = M = Y = 0 and K = 255 everywhere |
| Scenarios.WhiteSeparatesToNothing | cmyk_halftones.py:10-11 | a white pixel at p = 0 separates to (0, 0, 0, 0) |
| Scenarios.UnitBoxDots | cmyk_halftones.py:51-55 | with `sample = scale = 1` a full box's dot covers exactly its 1 by 1 box and an empty box's dot has side 0 |
| Scenarios.UniformTemplates | cmyk_halftones.py:75-86 | at the default threshold, a template of a plane that is all 255 is opaque everywhere and a template of a plane that is all 0 is transparent everywhere |

## Left out

- RGB to CMYK conversion (line 8): this is the imaging library's `convert('CMYK')`. It is
  modelled as the complement conversion with K = 0 (`Separator.ToCmyk`) for RGB input only.
  Other input modes (L, RGBA, CMYK) are not modelled.
- `split()` and `Image.merge` (lines 13, 28, 37): these are representation changes of the
  library. A CMYK image is modelled as one grid of `Cmyk` pixels.
- Separator.Gcr: requires 0 <= percentage <= 100 and an integer percentage. The source checks
  neither. Above 100 the subtraction goes below 0, and what the pixel store does then is
  library behaviour.
- Halftone.Halftone: requires `sample >= 1` and `scale >= 1`. The source does not check them.
  `sample == 0` raises in `range()`. A negative sample gives no boxes. A scale of 0 or less
  reaches the library's allocation with a degenerate or invalid size.
- Rotation with canvas expansion (lines 42, 57): the rotated and back-rotated sizes are inputs
  of `ChannelInput`. They depend on trigonometry and resampling.
- Box statistics (lines 49-50): `ImageStat` and the padding of boxes that cross the edge are
  library behaviour. Each box mean arrives as an input in [0, 255].
- Square root (line 51): floating-point `** 0.5` is replaced by the exact real
  characterisation `d >= 0 && d*d == mean/255`. IEEE rounding is not modelled.
- Ellipse drawing (line 55): rasterisation and anti-aliasing are library work. The model
  stops at each ellipse's bounding square, so the pixels of the dot planes are not modelled.
- Halftone.RenderChannel: the crop is stated on its real corner coordinates. The library turns
  them into integer pixel bounds, and that rounding, with which pixels land where, is not
  modelled.
- The `__main__` driver (lines 91-107): file reading, PNG saving, `Image.merge` and `show()`
  are I/O.
