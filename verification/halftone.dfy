/** The discrete skeleton of `halftone`: the per-channel screen angle, the size of the working
    plane, the dots drawn for the boxes, the back-rotation and the final crop. Rotation with
    canvas expansion, box statistics and ellipse filling belong to the imaging library; their
    results arrive in a `ChannelInput`. */
module Halftone {
  import opened Boxes
  import opened Dots

  /** What the imaging library reports for one channel: the size of the channel after
      `rotate(angle, expand=1)`, the statistic of every box in loop order, and the size of
      the dot plane after `rotate(-angle, expand=1)`. */
  datatype ChannelInput = ChannelInput(
    rotatedWidth: nat, rotatedHeight: nat,
    stats: seq<BoxStat>,
    backWidth: nat, backHeight: nat)

  /** The crop rectangle `(left, top, right, bottom)`, in real coordinates. */
  datatype CropBox = CropBox(left: real, top: real, right: real, bottom: real)

  /** The rendering of one channel: its rotation, the working plane it draws into, the dots
      and the crop taken from the back-rotated plane. */
  datatype ChannelRender = ChannelRender(
    angle: int, backAngle: int,
    planeWidth: nat, planeHeight: nat,
    dots: seq<Dot>,
    crop: CropBox)

  /** One statistic per box of the rotated channel, each a valid mean and its square root. */
  predicate WellFormed(ch: ChannelInput, sample: nat)
    requires sample >= 1
  {
    && |ch.stats| == |BoxOrigins(ch.rotatedWidth, ch.rotatedHeight, sample)|
    && forall k :: 0 <= k < |ch.stats| ==> ValidStat(ch.stats[k])
  }

  /** The dot lies within the box with origin `o`, scaled into the working plane. */
  predicate InScaledBox(dot: Dot, o: (nat, nat), sample: nat, scale: nat)
  {
    && o.0 as real * scale as real <= dot.left
    && dot.left + dot.side <= (o.0 as real + sample as real) * scale as real
    && o.1 as real * scale as real <= dot.top
    && dot.top + dot.side <= (o.1 as real + sample as real) * scale as real
  }

  /** Two dots do not overlap: one lies wholly to the left of, or wholly above, the other. */
  predicate Apart(d1: Dot, d2: Dot)
  {
    || d1.left + d1.side <= d2.left
    || d2.left + d2.side <= d1.left
    || d1.top + d1.side <= d2.top
    || d2.top + d2.side <= d1.top
  }

  /** Dots of two different boxes do not overlap. */
  lemma DotsDisjoint(width: nat, height: nat, sample: nat, scale: nat,
                     o1: (nat, nat), o2: (nat, nat), s1: BoxStat, s2: BoxStat)
    requires sample >= 1 && scale >= 1
    requires o1 in BoxOrigins(width, height, sample) && o2 in BoxOrigins(width, height, sample)
    requires o1 != o2
    requires ValidStat(s1) && ValidStat(s2)
    ensures Apart(DotFor(o1.0, o1.1, sample, scale, s1), DotFor(o2.0, o2.1, sample, scale, s2))
  {
    OriginsExactly(width, height, sample, o1.0, o1.1);
    OriginsExactly(width, height, sample, o2.0, o2.1);
    GridPointsApart(sample, o1, o2);
    GridDotsApart(sample, scale, o1, o2, s1, s2);
  }

  /** The dots of two points at least `sample` apart in some coordinate are apart. */
  lemma GridDotsApart(sample: nat, scale: nat, o1: (nat, nat), o2: (nat, nat), s1: BoxStat, s2: BoxStat)
    requires sample >= 1 && scale >= 1
    requires || o1.0 + sample <= o2.0 || o2.0 + sample <= o1.0
             || o1.1 + sample <= o2.1 || o2.1 + sample <= o1.1
    requires ValidStat(s1) && ValidStat(s2)
    ensures Apart(DotFor(o1.0, o1.1, sample, scale, s1), DotFor(o2.0, o2.1, sample, scale, s2))
  {
    var d1, d2 := DotFor(o1.0, o1.1, sample, scale, s1), DotFor(o2.0, o2.1, sample, scale, s2);
    InBoxesApart(sample, scale, o1, o2, d1, d2);
  }

  /** Two different grid points, all coordinates multiples of `sample`, are at least
      `sample` apart in some coordinate. */
  lemma GridPointsApart(sample: nat, o1: (nat, nat), o2: (nat, nat))
    requires sample >= 1
    requires o1.0 % sample == 0 && o1.1 % sample == 0 && o2.0 % sample == 0 && o2.1 % sample == 0
    requires o1 != o2
    ensures || o1.0 + sample <= o2.0 || o2.0 + sample <= o1.0
            || o1.1 + sample <= o2.1 || o2.1 + sample <= o1.1
  {
    if o1.0 < o2.0 {
      MultiplesApart(o1.0, o2.0, sample);
    } else if o2.0 < o1.0 {
      MultiplesApart(o2.0, o1.0, sample);
    } else if o1.1 < o2.1 {
      MultiplesApart(o1.1, o2.1, sample);
    } else {
      MultiplesApart(o2.1, o1.1, sample);
    }
  }

  /** Any two dots inside the scaled boxes of two points at least `sample` apart in some
      coordinate are apart. */
  lemma InBoxesApart(sample: nat, scale: nat, o1: (nat, nat), o2: (nat, nat), d1: Dot, d2: Dot)
    requires sample >= 1 && scale >= 1
    requires || o1.0 + sample <= o2.0 || o2.0 + sample <= o1.0
             || o1.1 + sample <= o2.1 || o2.1 + sample <= o1.1
    requires InScaledBox(d1, o1, sample, scale) && InScaledBox(d2, o2, sample, scale)
    ensures Apart(d1, d2)
  {
    if o1.0 + sample <= o2.0 {
      EndsBefore(o1.0, o2.0, sample, scale, d1.left + d1.side, d2.left);
    } else if o2.0 + sample <= o1.0 {
      EndsBefore(o2.0, o1.0, sample, scale, d2.left + d2.side, d1.left);
    } else if o1.1 + sample <= o2.1 {
      EndsBefore(o1.1, o2.1, sample, scale, d1.top + d1.side, d2.top);
    } else {
      EndsBefore(o2.1, o1.1, sample, scale, d2.top + d2.side, d1.top);
    }
  }

  /** Along one axis: whatever ends within the scaled box at `a` ends before whatever starts
      within the scaled box at `b`, when `b` is at least `sample` past `a`. */
  lemma EndsBefore(a: nat, b: nat, sample: nat, scale: nat, end: real, start: real)
    requires scale >= 1
    requires a + sample <= b
    requires end <= (a as real + sample as real) * scale as real
    requires b as real * scale as real <= start
    ensures end <= start
  {
    RealMulMono(a as real + sample as real, b as real, scale as real);
  }

  /** The crop that takes a `width * scale` by `height * scale` window out of the middle of
      the back-rotated plane: offsets `(back - size * scale) / 2`. The window always has the
      requested extent and is centred, whatever the back-rotated size (and so the angle). */
  function Crop(width: nat, height: nat, scale: nat, backWidth: nat, backHeight: nat): (c: CropBox)
    ensures c.right - c.left == (width * scale) as real
    ensures c.bottom - c.top == (height * scale) as real
    ensures c.left + c.right == backWidth as real && c.top + c.bottom == backHeight as real
  {
    var xx := (backWidth as real - (width * scale) as real) / 2.0;
    var yy := (backHeight as real - (height * scale) as real) / 2.0;
    CropBox(xx, yy, xx + (width * scale) as real, yy + (height * scale) as real)
  }

  /** One pass of the channel loop of `halftone` at the given angle, for an image of
      `width` by `height` pixels. */
  function RenderChannel(width: nat, height: nat, ch: ChannelInput, sample: nat, scale: nat, angle: int): (r: ChannelRender)
    requires sample >= 1 && scale >= 1
    requires WellFormed(ch, sample)
    ensures r.angle == angle && r.backAngle == -angle
    ensures r.planeWidth == ch.rotatedWidth * scale && r.planeHeight == ch.rotatedHeight * scale
    ensures r.crop.right - r.crop.left == (width * scale) as real
    ensures r.crop.bottom - r.crop.top == (height * scale) as real
    ensures |r.dots| == |BoxOrigins(ch.rotatedWidth, ch.rotatedHeight, sample)|
    ensures forall k :: 0 <= k < |r.dots| ==>
      var o := BoxOrigins(ch.rotatedWidth, ch.rotatedHeight, sample)[k];
      r.dots[k] == DotFor(o.0, o.1, sample, scale, ch.stats[k]) && InScaledBox(r.dots[k], o, sample, scale)
  {
    var origins := BoxOrigins(ch.rotatedWidth, ch.rotatedHeight, sample);
    var dots := seq(|origins|, k requires 0 <= k < |origins| =>
      DotFor(origins[k].0, origins[k].1, sample, scale, ch.stats[k]));
    ChannelRender(angle, -angle,
      ch.rotatedWidth * scale, ch.rotatedHeight * scale,
      dots,
      Crop(width, height, scale, ch.backWidth, ch.backHeight))
  }

  /** `halftone(im, cmyk, sample, scale)` for an image of `width` by `height` pixels: the
      channels are rendered in order with a running angle that starts at 0 and grows by 15
      degrees per channel. */
  method Halftone(width: nat, height: nat, channels: seq<ChannelInput>, sample: nat, scale: nat)
    returns (screens: seq<ChannelRender>)
    requires sample >= 1 && scale >= 1
    requires forall i :: 0 <= i < |channels| ==> WellFormed(channels[i], sample)
    ensures |screens| == |channels|
    ensures forall i :: 0 <= i < |screens| ==> screens[i].angle == 15 * i && screens[i].backAngle == -15 * i
    ensures forall i :: 0 <= i < |screens| ==>
      screens[i].crop.right - screens[i].crop.left == (width * scale) as real &&
      screens[i].crop.bottom - screens[i].crop.top == (height * scale) as real
    ensures forall i :: 0 <= i < |screens| ==>
      screens[i] == RenderChannel(width, height, channels[i], sample, scale, 15 * i)
  {
    screens := [];
    var angle := 0;
    for i := 0 to |channels|
      invariant |screens| == i && angle == 15 * i
      invariant forall j :: 0 <= j < i ==>
        screens[j] == RenderChannel(width, height, channels[j], sample, scale, 15 * j)
    {
      var screen := RenderChannel(width, height, channels[i], sample, scale, angle);
      screens := screens + [screen];
      angle := angle + 15;
    }
  }
}
