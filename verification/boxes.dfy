/** The tiling of a (rotated) channel plane into `sample`-strided boxes, as done by the
    two nested `range(0, size, sample)` loops of `halftone`. */
module Boxes {
  import opened Pixels

  /** Python's `range(start, stop, step)` for a positive step, described without division:
      every element is `start + i * step` and lies below `stop`, and one more step would
      reach `stop`. */
  function Range(start: nat, stop: nat, step: nat): (r: seq<nat>)
    requires step >= 1
    ensures forall i :: 0 <= i < |r| ==> r[i] == start + i * step
    ensures forall i :: 0 <= i < |r| ==> r[i] < stop
    ensures start + |r| * step >= stop
    decreases stop - start
  {
    if start >= stop then []
    else
      var rest := Range(start + step, stop, step);
      assert forall i :: 0 <= i < |rest| ==> rest[i] == start + (i + 1) * step by {
        forall i | 0 <= i < |rest| ensures rest[i] == start + (i + 1) * step {
          assert (i + 1) * step == i * step + step;
        }
      }
      assert start + (|rest| + 1) * step == start + step + |rest| * step;
      [start] + rest
  }

  /** The box origins in loop order: x outer, y inner. */
  function Pairs(xs: seq<nat>, ys: seq<nat>): (r: seq<(nat, nat)>)
    ensures forall p :: p in r <==> p.0 in xs && p.1 in ys
  {
    if xs == [] then []
    else
      var column := seq(|ys|, j requires 0 <= j < |ys| => (xs[0], ys[j]));
      var rest := Pairs(xs[1..], ys);
      assert forall p :: p in column <==> p.0 == xs[0] && p.1 in ys by {
        forall p: (nat, nat) | p.0 == xs[0] && p.1 in ys ensures p in column {
          var j :| 0 <= j < |ys| && ys[j] == p.1;
          assert column[j] == p;
        }
      }
      assert forall v :: v in xs <==> v == xs[0] || v in xs[1..] by {
        assert xs == [xs[0]] + xs[1..];
      }
      column + rest
  }

  /** There is one box per pair of a column origin and a row origin. */
  lemma {:induction false} PairsLength(xs: seq<nat>, ys: seq<nat>)
    ensures |Pairs(xs, ys)| == |xs| * |ys|
  {
    if xs != [] {
      PairsLength(xs[1..], ys);
      var n, k := |xs| - 1, |ys|;
      assert n * k + k == (n + 1) * k;
    }
  }

  /** `Pairs` enumerates the grid x-major, as the nested loops do: entry `i * |ys| + j`
      is `(xs[i], ys[j])`. */
  lemma {:induction false} PairsOrder(xs: seq<nat>, ys: seq<nat>, i: nat, j: nat)
    requires i < |xs| && j < |ys|
    ensures i * |ys| + j < |Pairs(xs, ys)|
    ensures Pairs(xs, ys)[i * |ys| + j] == (xs[i], ys[j])
  {
    PairsLength(xs, ys);
    var k := |ys|;
    assert i * k + j < |xs| * k by {
      assert i * k + j < i * k + k == (i + 1) * k;
      MulMono(i + 1, |xs|, k);
    }
    var column := seq(k, j requires 0 <= j < k => (xs[0], ys[j]));
    var rest := Pairs(xs[1..], ys);
    assert Pairs(xs, ys) == column + rest;
    if i > 0 {
      PairsOrder(xs[1..], ys, i - 1, j);
      assert (i - 1) * k + j + k == i * k + j;
    }
  }

  /** The origins `(x, y)` of the boxes of a `width` by `height` plane. */
  function BoxOrigins(width: nat, height: nat, sample: nat): (r: seq<(nat, nat)>)
    requires sample >= 1
    ensures forall o :: o in r ==> o.0 < width && o.1 < height
  {
    Pairs(Range(0, width, sample), Range(0, height, sample))
  }

  /** The elements of `range(0, n, step)` are exactly the multiples of `step` below `n`. */
  lemma RangeMembers(n: nat, step: nat, v: nat)
    requires step >= 1
    ensures v in Range(0, n, step) <==> v < n && v % step == 0
  {
    if v in Range(0, n, step) {
      RangeOnlyMultiples(n, step, v);
    }
    if v < n && v % step == 0 {
      RangeHasMultiples(n, step, v);
    }
  }

  /** Every element of `range(0, n, step)` is a multiple of `step` below `n`. */
  lemma RangeOnlyMultiples(n: nat, step: nat, v: nat)
    requires step >= 1
    requires v in Range(0, n, step)
    ensures v < n && v % step == 0
  {
    var r := Range(0, n, step);
    var i :| 0 <= i < |r| && r[i] == v;
    assert v == i * step;
    MultipleMod(i, step);
  }

  /** Every multiple of `step` below `n` is an element of `range(0, n, step)`. */
  lemma RangeHasMultiples(n: nat, step: nat, v: nat)
    requires step >= 1
    requires v < n && v % step == 0
    ensures v in Range(0, n, step)
  {
    var r := Range(0, n, step);
    var i := v / step;
    assert v == step * i + v % step;
    assert v == i * step;
    assert n <= |r| * step;
    MulCancel(i, |r|, step);
    assert r[i] == v;
  }

  /** The box origins are exactly the points of the plane whose coordinates are multiples
      of `sample`. */
  lemma OriginsExactly(width: nat, height: nat, sample: nat, x: nat, y: nat)
    requires sample >= 1
    ensures (x, y) in BoxOrigins(width, height, sample) <==>
      x < width && y < height && x % sample == 0 && y % sample == 0
  {
    RangeMembers(width, sample, x);
    RangeMembers(height, sample, y);
  }

  /** Two different multiples of `step` are at least `step` apart. */
  lemma MultiplesApart(a: nat, b: nat, step: nat)
    requires step >= 1
    requires a % step == 0 && b % step == 0 && a < b
    ensures a + step <= b
  {
    var ka, kb := a / step, b / step;
    assert a == ka * step && b == kb * step;
    MulCancel(ka, kb, step);
    MulMono(ka + 1, kb, step);
    assert (ka + 1) * step == ka * step + step;
  }

  /** The half-open box `[ox, ox + sample) x [oy, oy + sample)` holds pixel `(px, py)`. */
  predicate InBox(origin: (nat, nat), sample: nat, px: nat, py: nat)
  {
    origin.0 <= px < origin.0 + sample && origin.1 <= py < origin.1 + sample
  }

  /** Every pixel of the plane lies in exactly one box: the one whose origin rounds its
      coordinates down to a multiple of `sample`. */
  lemma PixelInOneBox(width: nat, height: nat, sample: nat, px: nat, py: nat)
    requires sample >= 1
    requires px < width && py < height
    ensures (px - px % sample, py - py % sample) in BoxOrigins(width, height, sample)
    ensures InBox((px - px % sample, py - py % sample), sample, px, py)
    ensures forall o :: o in BoxOrigins(width, height, sample) && InBox(o, sample, px, py) ==>
      o == (px - px % sample, py - py % sample)
  {
    RoundDown(px, sample);
    RoundDown(py, sample);
    OriginsExactly(width, height, sample, px - px % sample, py - py % sample);
    forall o | o in BoxOrigins(width, height, sample) && InBox(o, sample, px, py)
      ensures o == (px - px % sample, py - py % sample)
    {
      OriginsExactly(width, height, sample, o.0, o.1);
      MultipleInWindow(o.0, px, sample);
      MultipleInWindow(o.1, py, sample);
    }
  }

  lemma MultipleMod(i: nat, step: nat)
    requires step >= 1
    ensures (i * step) % step == 0
  {
    var d, m := (i * step) / step, (i * step) % step;
    assert i * step == d * step + m;
    assert (i - d) * step == i * step - d * step;
    SmallMultiple(i - d, step, m);
  }

  /** A multiple of `step` strictly between `-step` and `step` is zero. */
  lemma SmallMultiple(k: int, step: int, m: int)
    requires step >= 1 && 0 - step < m < step && k * step == m
    ensures k == 0
  {
  }

  /** Rounding down to a multiple of `step` stays within one step. */
  lemma RoundDown(v: nat, step: nat)
    requires step >= 1
    ensures v - v % step >= 0 && (v - v % step) % step == 0
    ensures v - v % step <= v < v - v % step + step
  {
    assert v - v % step == (v / step) * step;
    MultipleMod(v / step, step);
  }

  /** The only multiple of `step` in the window `(v - step, v]` is `v` rounded down. */
  lemma MultipleInWindow(a: nat, v: nat, step: nat)
    requires step >= 1
    requires a % step == 0
    requires a <= v < a + step
    ensures a == v - v % step
  {
    var k, q := a / step, v / step;
    assert a == k * step;
    assert v == q * step + v % step;
    assert (q - k) * step == q * step - k * step;
    SmallMultiple(q - k, step, (v - a) - v % step);
  }
}
