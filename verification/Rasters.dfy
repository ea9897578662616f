/** The raster and its geometry: cropping, box-filter downscaling, and the bounding box of dark content. */
module Rasters {
  import opened Ids
  import opened Scanlines

  /** An 8-bit RGB image in one flat buffer, row by row. */
  datatype Raster = Raster(w: int, h: int, px: seq<Byte>)
  {
    predicate Valid() {
      w >= 0 && h >= 0 && |px| == w * h * 3
    }

    predicate Inside(x: int, y: int) {
      0 <= x < w && 0 <= y < h
    }

    /** Channel `c` of the pixel in column `x` of row `y`. */
    function At(x: int, y: int, c: nat): Byte
      requires Valid() && Inside(x, y) && c < 3
    {
      OffsetInside(w, h, x, y);
      px[Offset(w, x, y) + c]
    }
  }

  function Offset(w: int, x: int, y: int): int {
    (y * w + x) * 3
  }

  lemma OffsetInside(w: int, h: int, x: int, y: int)
    requires 0 <= x < w && 0 <= y < h
    ensures 0 <= Offset(w, x, y) && Offset(w, x, y) + 3 <= w * h * 3
  {
    assert y * w <= (h - 1) * w;
    assert 0 <= y * w;
    assert (h - 1) * w == w * h - w;
  }

  // ---------------------------------------------------------------- boxes

  /** Where box `x` of `t` begins along `n` source pixels. */
  function BoxStart(x: nat, n: nat, t: nat): nat
    requires t >= 1
  {
    x * n / t
  }

  function BoxEnd(x: nat, n: nat, t: nat): nat
    requires t >= 1
  {
    if BoxStart(x, n, t) + 1 >= BoxStart(x + 1, n, t) then BoxStart(x, n, t) + 1 else BoxStart(x + 1, n, t)
  }

  lemma ProductsCompare(t: nat, p: nat, q: nat)
    ensures p < q ==> t * p + t <= t * q
  {
    if p < q {
      assert t * q == t * p + t * (q - p);
      assert t * (q - p) == t + t * (q - p - 1);
    }
  }

  /** The quotient is the only number of times `t` goes into `a`. */
  lemma QuotientIs(a: nat, t: nat, q: nat)
    requires t >= 1
    ensures a / t <= q <==> a < t * q + t
    ensures a / t >= q <==> t * q <= a
  {
    assert t * (a / t) <= a < t * (a / t) + t;
    ProductsCompare(t, a / t, q);
    ProductsCompare(t, q, a / t);
  }

  lemma QuotientMonotone(a: nat, b: nat, t: nat)
    requires t >= 1 && a <= b
    ensures a / t <= b / t
  {
    QuotientIs(b, t, b / t);
    QuotientIs(a, t, b / t);
  }

  lemma QuotientStep(a: nat, b: nat, t: nat)
    requires t >= 1 && a + t <= b
    ensures a / t < b / t
  {
  }

  /** Each box is non-empty, ends where the next begins, and lies within the source. */
  lemma BoxesTile(x: nat, n: nat, t: nat)
    requires 1 <= t <= n && x < t
    ensures BoxStart(0, n, t) == 0 && BoxStart(t, n, t) == n
    ensures BoxEnd(x, n, t) == BoxStart(x + 1, n, t)
    ensures BoxStart(x, n, t) < BoxEnd(x, n, t) <= n
  {
    assert (x + 1) * n == x * n + n;
    QuotientStep(x * n, (x + 1) * n, t);
    QuotientExact(n, t);
    StartsAscend(x + 1, t, n, t);
  }

  lemma QuotientExact(n: nat, t: nat)
    requires t >= 1
    ensures t * n / t == n
  {
    QuotientIs(t * n, t, n);
  }

  predicate InBox(v: nat, x: nat, n: nat, t: nat)
    requires t >= 1
  {
    BoxStart(x, n, t) <= v < BoxEnd(x, n, t)
  }

  lemma StartsAscend(x: nat, y: nat, n: nat, t: nat)
    requires t >= 1 && x <= y
    ensures BoxStart(x, n, t) <= BoxStart(y, n, t)
  {
    assert x * n <= y * n;
    QuotientMonotone(x * n, y * n, t);
  }

  lemma {:induction false} SomeBoxBelow(v: nat, x: nat, n: nat, t: nat) returns (b: nat)
    requires 1 <= t <= n && x <= t && v < BoxStart(x, n, t)
    ensures b < x && InBox(v, b, n, t)
    decreases x
  {
    if x >= 1 {
      BoxesTile(x - 1, n, t);
      if BoxStart(x - 1, n, t) <= v {
        b := x - 1;
      } else {
        b := SomeBoxBelow(v, x - 1, n, t);
      }
    }
  }

  lemma BoxesDisjoint(v: nat, x: nat, y: nat, n: nat, t: nat)
    requires 1 <= t <= n && x < y < t && InBox(v, x, n, t)
    ensures !InBox(v, y, n, t)
  {
    BoxesTile(x, n, t);
    StartsAscend(x + 1, y, n, t);
  }

  /** One axis: every coordinate is in exactly one box. */
  lemma AxisPartition(v: nat, n: nat, t: nat)
    requires 1 <= t <= n && v < n
    ensures exists x: nat :: x < t && InBox(v, x, n, t)
    ensures forall x: nat, y: nat :: x < t && y < t && InBox(v, x, n, t) && InBox(v, y, n, t) ==> x == y
  {
    BoxesTile(0, n, t);
    var b := SomeBoxBelow(v, t, n, t);
    forall x: nat, y: nat | x < y < t && InBox(v, x, n, t) ensures !InBox(v, y, n, t) {
      BoxesDisjoint(v, x, y, n, t);
    }
  }

  /** The source pixel (u, v) of a `w` by `h` image is averaged into the target pixel (x, y). */
  predicate AveragedInto(u: nat, v: nat, x: nat, y: nat, w: nat, h: nat, tw: nat, th: nat)
    requires tw >= 1 && th >= 1
  {
    x < tw && y < th && InBox(u, x, w, tw) && InBox(v, y, h, th)
  }

  /** The boxes partition the source: every pixel is averaged into exactly one target pixel. */
  lemma BoxesPartition(u: nat, v: nat, w: nat, h: nat, tw: nat, th: nat)
    requires 1 <= tw <= w && 1 <= th <= h && u < w && v < h
    ensures exists x: nat, y: nat :: AveragedInto(u, v, x, y, w, h, tw, th)
    ensures forall x: nat, y: nat, x': nat, y': nat ::
      AveragedInto(u, v, x, y, w, h, tw, th) && AveragedInto(u, v, x', y', w, h, tw, th) ==> x == x' && y == y'
  {
    AxisPartition(u, w, tw);
    AxisPartition(v, h, th);
    var x: nat :| x < tw && InBox(u, x, w, tw);
    var y: nat :| y < th && InBox(v, y, h, th);
    assert AveragedInto(u, v, x, y, w, h, tw, th);
  }

  // ---------------------------------------------------------------- the target height

  /** Rounding a quotient half to even. */
  function RoundHalfEven(a: nat, b: nat): nat
    requires b >= 1
  {
    var q, r := a / b, a % b;
    if 2 * r < b || (2 * r == b && q % 2 == 0) then q else q + 1
  }

  function TargetHeight(w: nat, h: nat, tw: nat): nat
    requires w >= 1
  {
    var rounded := RoundHalfEven(h * tw, w);
    if rounded >= 1 then rounded else 1
  }

  /** Downscaling never makes an image taller, unless it has no rows at all. */
  lemma HeightShrinks(w: nat, h: nat, tw: nat)
    requires tw < w
    ensures TargetHeight(w, h, tw) <= h <==> h >= 1
  {
    if h >= 1 {
      assert h * (w - 1) == w * h - h;
      ProductsCompare(h, tw, w);
      QuotientIs(h * tw, w, h - 1);
      assert w * (h - 1) == w * h - w;
    }
  }

  // ---------------------------------------------------------------- averaging a box

  /** A box of source pixels: columns `xa..xb` of rows `ya..yb`. */
  predicate BoxInside(r: Raster, xa: int, xb: int, ya: int, yb: int) {
    r.Valid() && 0 <= xa <= xb <= r.w && 0 <= ya <= yb <= r.h
  }

  function RowSum(r: Raster, y: int, xa: int, xb: int, c: nat): nat
    requires BoxInside(r, xa, xb, y, y + 1) && c < 3
    decreases xb
  {
    if xa == xb then 0 else RowSum(r, y, xa, xb - 1, c) + r.At(xb - 1, y, c)
  }

  function BoxSum(r: Raster, xa: int, xb: int, ya: int, yb: int, c: nat): nat
    requires BoxInside(r, xa, xb, ya, yb) && c < 3
    decreases yb
  {
    if ya == yb then 0 else BoxSum(r, xa, xb, ya, yb - 1, c) + RowSum(r, yb - 1, xa, xb, c)
  }

  function Average(r: Raster, xa: int, xb: int, ya: int, yb: int, c: nat): (v: nat)
    requires BoxInside(r, xa, xb, ya, yb) && xa < xb && ya < yb && c < 3
  {
    AreaIsPositive(xb - xa, yb - ya);
    BoxSum(r, xa, xb, ya, yb, c) / ((yb - ya) * (xb - xa))
  }

  lemma AreaIsPositive(a: int, b: int)
    requires a > 0 && b > 0
    ensures b * a > 0
  {
  }

  /** Every pixel of the box has channel `c` between `lo` and `hi`. */
  ghost predicate Within(r: Raster, xa: int, xb: int, ya: int, yb: int, c: nat, lo: nat, hi: nat)
    requires BoxInside(r, xa, xb, ya, yb) && c < 3
  {
    forall x, y :: xa <= x < xb && ya <= y < yb ==> lo <= r.At(x, y, c) <= hi
  }

  lemma {:induction false} RowSumWithin(r: Raster, y: int, xa: int, xb: int, c: nat, lo: nat, hi: nat)
    requires BoxInside(r, xa, xb, y, y + 1) && c < 3 && Within(r, xa, xb, y, y + 1, c, lo, hi)
    ensures (xb - xa) * lo <= RowSum(r, y, xa, xb, c) <= (xb - xa) * hi
    decreases xb
  {
    if xa < xb {
      RowSumWithin(r, y, xa, xb - 1, c, lo, hi);
      assert lo <= r.At(xb - 1, y, c) <= hi;
      assert (xb - xa) * lo == (xb - 1 - xa) * lo + lo;
      assert (xb - xa) * hi == (xb - 1 - xa) * hi + hi;
    }
  }

  lemma OneMoreTime(n: nat, m: nat)
    requires n >= 1
    ensures n * m == (n - 1) * m + m
  {
  }

  /** `n` rows of between `lo` and `hi` each. */
  predicate Rowwise(sum: nat, n: nat, lo: nat, hi: nat) {
    n * lo <= sum <= n * hi
  }

  lemma OneMoreRow(sum: nat, n: nat, n': nat, lo: nat, hi: nat, row: nat)
    requires Rowwise(sum, n, lo, hi) && n' == n + 1 && lo <= row <= hi
    ensures Rowwise(sum + row, n', lo, hi)
  {
  }

  lemma {:induction false} BoxSumWithin(r: Raster, xa: int, xb: int, ya: int, yb: int, c: nat, lo: nat, hi: nat,
                                        rowLo: nat, rowHi: nat, n: nat)
    requires BoxInside(r, xa, xb, ya, yb) && c < 3 && Within(r, xa, xb, ya, yb, c, lo, hi)
    requires rowLo == (xb - xa) * lo && rowHi == (xb - xa) * hi && n == yb - ya
    ensures Rowwise(BoxSum(r, xa, xb, ya, yb, c), n, rowLo, rowHi)
    decreases yb
  {
    if ya < yb {
      BoxSumWithin(r, xa, xb, ya, yb - 1, c, lo, hi, rowLo, rowHi, n - 1);
      RowSumWithin(r, yb - 1, xa, xb, c, lo, hi);
      OneMoreRow(BoxSum(r, xa, xb, ya, yb - 1, c), n - 1, n, rowLo, rowHi, RowSum(r, yb - 1, xa, xb, c));
    }
  }

  lemma AverageOfSum(sum: nat, a: nat, b: nat, lo: nat, hi: nat)
    requires b * a > 0 && b * (a * lo) <= sum <= b * (a * hi)
    ensures lo <= sum / (b * a) <= hi
  {
    assert b * (a * lo) == (b * a) * lo && b * (a * hi) == (b * a) * hi;
    QuotientIs(sum, b * a, lo);
    QuotientIs(sum, b * a, hi);
  }

  /** A box average lies between the smallest and the largest channel value of its box. */
  lemma AverageIsBetween(r: Raster, xa: int, xb: int, ya: int, yb: int, c: nat, lo: nat, hi: nat)
    requires BoxInside(r, xa, xb, ya, yb) && xa < xb && ya < yb && c < 3 && Within(r, xa, xb, ya, yb, c, lo, hi)
    ensures lo <= Average(r, xa, xb, ya, yb, c) <= hi
  {
    BoxSumWithin(r, xa, xb, ya, yb, c, lo, hi, (xb - xa) * lo, (xb - xa) * hi, yb - ya);
    AreaIsPositive(xb - xa, yb - ya);
    AverageOfSum(BoxSum(r, xa, xb, ya, yb, c), xb - xa, yb - ya, lo, hi);
  }

  lemma AverageIsByte(r: Raster, xa: int, xb: int, ya: int, yb: int, c: nat)
    requires BoxInside(r, xa, xb, ya, yb) && xa < xb && ya < yb && c < 3
    ensures Average(r, xa, xb, ya, yb, c) < 256
  {
    AverageIsBetween(r, xa, xb, ya, yb, c, 0, 255);
  }

  // ---------------------------------------------------------------- the scaled image

  /** A proper downscale: narrower, and with rows to average. */
  predicate Shrinks(r: Raster, tw: nat) {
    r.Valid() && 1 <= tw < r.w && r.h >= 1
  }

  /** Channel `c` of pixel (x, y) of the image scaled to width `tw`. */
  function ScaledAt(r: Raster, tw: nat, x: nat, y: nat, c: nat): (v: Byte)
    requires Shrinks(r, tw) && x < tw && y < TargetHeight(r.w, r.h, tw) && c < 3
  {
    var th := TargetHeight(r.w, r.h, tw);
    HeightShrinks(r.w, r.h, tw);
    BoxesTile(x, r.w, tw);
    BoxesTile(y, r.h, th);
    var xa, xb, ya, yb := BoxStart(x, r.w, tw), BoxEnd(x, r.w, tw), BoxStart(y, r.h, th), BoxEnd(y, r.h, th);
    AverageIsByte(r, xa, xb, ya, yb, c);
    Average(r, xa, xb, ya, yb, c)
  }

  /** Row-major position of a pixel, and back. */
  lemma PixelPosition(x: nat, y: nat, tw: nat)
    requires x < tw
    ensures (y * tw + x) / tw == y && (y * tw + x) % tw == x
  {
    QuotientIs(y * tw + x, tw, y);
    assert tw * ((y * tw + x) / tw) + (y * tw + x) % tw == y * tw + x;
  }

  lemma PixelInside(n: nat, tw: nat, th: nat)
    requires tw >= 1 && n < tw * th
    ensures n / tw < th && n % tw < tw
  {
  }

  function ScaledPixel(r: Raster, tw: nat, x: nat, y: nat): (p: seq<Byte>)
    requires Shrinks(r, tw) && x < tw && y < TargetHeight(r.w, r.h, tw)
    ensures |p| == 3
  {
    [ScaledAt(r, tw, x, y, 0), ScaledAt(r, tw, x, y, 1), ScaledAt(r, tw, x, y, 2)]
  }

  /** The first `n` pixels of the scaled image, row by row. */
  function ScaledPixels(r: Raster, tw: nat, th: nat, n: nat): (px: seq<Byte>)
    requires Shrinks(r, tw) && th == TargetHeight(r.w, r.h, tw) && n <= tw * th
    ensures |px| == 3 * n
  {
    if n == 0 then []
    else
      var m := n - 1;
      PixelInside(m, tw, th);
      var x, y := m % tw, m / tw;
      ScaledPixels(r, tw, th, m) + ScaledPixel(r, tw, x, y)
  }

  lemma {:induction false} ScaledPixelsAt(r: Raster, tw: nat, th: nat, n: nat, m: nat, x: nat, y: nat, c: nat)
    requires Shrinks(r, tw) && th == TargetHeight(r.w, r.h, tw) && m < n <= tw * th
    requires x < tw && y < th && x == m % tw && y == m / tw && c < 3
    ensures ScaledPixels(r, tw, th, n)[3 * m + c] == ScaledAt(r, tw, x, y, c)
    decreases n
  {
    var last := n - 1;
    PixelInside(last, tw, th);
    if m < last {
      ScaledPixelsAt(r, tw, th, last, m, x, y, c);
    } else {
      assert ScaledPixels(r, tw, th, n) == ScaledPixels(r, tw, th, last) + ScaledPixel(r, tw, x, y);
    }
  }

  function Scaled(r: Raster, tw: nat): (s: Raster)
    requires Shrinks(r, tw)
  {
    var th := TargetHeight(r.w, r.h, tw);
    Raster(tw, th, ScaledPixels(r, tw, th, tw * th))
  }

  /** The scaled image is well formed, and each of its channels is the average of its own box. */
  lemma ScaledIsAverages(r: Raster, tw: nat, x: nat, y: nat, c: nat)
    requires Shrinks(r, tw) && x < tw && y < TargetHeight(r.w, r.h, tw) && c < 3
    ensures Scaled(r, tw).Valid() && Scaled(r, tw).Inside(x, y)
    ensures Scaled(r, tw).At(x, y, c) == ScaledAt(r, tw, x, y, c)
  {
    var th := TargetHeight(r.w, r.h, tw);
    OffsetInside(tw, th, x, y);
    PixelPosition(x, y, tw);
    assert Offset(tw, x, y) == 3 * (y * tw + x);
    ScaledPixelsAt(r, tw, th, tw * th, y * tw + x, x, y, c);
  }

  // ---------------------------------------------------------------- the loops

  /** The sums of the three channels over one box. */
  method SumBox(r: Raster, xa: nat, xb: nat, ya: nat, yb: nat) returns (red: nat, green: nat, blue: nat)
    requires BoxInside(r, xa, xb, ya, yb) && xa < xb
    ensures red == BoxSum(r, xa, xb, ya, yb, 0) && green == BoxSum(r, xa, xb, ya, yb, 1) && blue == BoxSum(r, xa, xb, ya, yb, 2)
  {
    red, green, blue := 0, 0, 0;
    for y := ya to yb
      invariant red == BoxSum(r, xa, xb, ya, y, 0)
      invariant green == BoxSum(r, xa, xb, ya, y, 1)
      invariant blue == BoxSum(r, xa, xb, ya, y, 2)
    {
      var dr, dg, db := SumRow(r, xa, xb, y);
      red, green, blue := red + dr, green + dg, blue + db;
    }
  }

  method SumRow(r: Raster, xa: nat, xb: nat, y: nat) returns (red: nat, green: nat, blue: nat)
    requires BoxInside(r, xa, xb, y, y + 1)
    ensures red == RowSum(r, y, xa, xb, 0) && green == RowSum(r, y, xa, xb, 1) && blue == RowSum(r, y, xa, xb, 2)
  {
    red, green, blue := 0, 0, 0;
    var i := (y * r.w) * 3 + xa * 3;
    for x := xa to xb
      invariant i == Offset(r.w, x, y)
      invariant red == RowSum(r, y, xa, x, 0) && green == RowSum(r, y, xa, x, 1) && blue == RowSum(r, y, xa, x, 2)
    {
      OffsetInside(r.w, r.h, x, y);
      red, green, blue := red + r.px[i], green + r.px[i + 1], blue + r.px[i + 2];
      i := i + 3;
    }
  }

  method ScalePixel(r: Raster, tw: nat, x: nat, y: nat) returns (p: seq<Byte>)
    requires Shrinks(r, tw) && x < tw && y < TargetHeight(r.w, r.h, tw)
    ensures p == ScaledPixel(r, tw, x, y)
  {
    var th := TargetHeight(r.w, r.h, tw);
    HeightShrinks(r.w, r.h, tw);
    BoxesTile(x, r.w, tw);
    BoxesTile(y, r.h, th);
    var xa, xb, ya, yb := BoxStart(x, r.w, tw), BoxEnd(x, r.w, tw), BoxStart(y, r.h, th), BoxEnd(y, r.h, th);
    AreaIsPositive(xb - xa, yb - ya);
    var n := (yb - ya) * (xb - xa);
    var red, green, blue := SumBox(r, xa, xb, ya, yb);
    AverageIsByte(r, xa, xb, ya, yb, 0);
    AverageIsByte(r, xa, xb, ya, yb, 1);
    AverageIsByte(r, xa, xb, ya, yb, 2);
    p := [red / n, green / n, blue / n];
  }

  lemma NextPixel(r: Raster, tw: nat, th: nat, n: nat, n': nat, x: nat, y: nat)
    requires Shrinks(r, tw) && th == TargetHeight(r.w, r.h, tw) && x < tw && y < th
    requires n == y * tw + x && n' == n + 1
    ensures n' <= tw * th
    ensures ScaledPixels(r, tw, th, n') == ScaledPixels(r, tw, th, n) + ScaledPixel(r, tw, x, y)
  {
    PixelPosition(x, y, tw);
    assert y * tw + tw <= tw * th by { ProductsCompare(tw, y, th); }
  }

  /** The buffer begins with the first `n` pixels of the scaled image. */
  ghost predicate Drawn(px: seq<Byte>, r: Raster, tw: nat, th: nat, n: nat) {
    Shrinks(r, tw) && th == TargetHeight(r.w, r.h, tw) && n <= tw * th && |px| == tw * th * 3 && ScaledPixels(r, tw, th, n) <= px
  }

  method PutPixel(out: array<Byte>, o: nat, p: seq<Byte>, ghost done: seq<Byte>)
    requires o + 3 <= out.Length && |p| == 3 && |done| == o && done <= out[..]
    modifies out
    ensures done + p <= out[..]
  {
    out[o] := p[0];
    out[o + 1] := p[1];
    out[o + 2] := p[2];
    assert out[..][..o] == done;
  }

  /** The next pixel, written in place. */
  method DrawPixel(r: Raster, tw: nat, th: nat, x: nat, y: nat, out: array<Byte>, o: nat, ghost n: nat, ghost n': nat)
    requires Drawn(out[..], r, tw, th, n) && x < tw && y < th && n == y * tw + x && n' == n + 1 && o == 3 * n
    modifies out
    ensures Drawn(out[..], r, tw, th, n')
  {
    var p := ScalePixel(r, tw, x, y);
    NextPixel(r, tw, th, n, n', x, y);
    PutPixel(out, o, p, ScaledPixels(r, tw, th, n));
  }

  /** One row, after the `n0` pixels above it. */
  method ScaleRow(r: Raster, tw: nat, th: nat, y: nat, out: array<Byte>, ghost n0: nat, ghost n1: nat)
    requires Drawn(out[..], r, tw, th, n0) && y < th && n0 == y * tw && n1 == n0 + tw
    modifies out
    ensures Drawn(out[..], r, tw, th, n1)
  {
    var base := y * tw * 3;
    assert base == 3 * n0;
    ghost var n := n0;
    for x := 0 to tw
      invariant n == n0 + x
      invariant Drawn(out[..], r, tw, th, n)
    {
      ghost var n' := n + 1;
      DrawPixel(r, tw, th, x, y, out, base + x * 3, n, n');
      n := n';
    }
  }

  method ScaleRows(r: Raster, tw: nat, th: nat) returns (px: seq<Byte>)
    requires Shrinks(r, tw) && th == TargetHeight(r.w, r.h, tw)
    ensures px == ScaledPixels(r, tw, th, tw * th)
  {
    var out := new Byte[tw * th * 3](_ => 0);
    ghost var n: nat := 0;
    for y := 0 to th
      invariant n == y * tw && Drawn(out[..], r, tw, th, n)
    {
      ghost var n' := n + tw;
      assert n' == (y + 1) * tw;
      ScaleRow(r, tw, th, y, out, n, n');
      n := n';
    }
    px := out[..];
    AllDrawn(px, r, tw, th, n, tw * th);
  }

  lemma AllDrawn(px: seq<Byte>, r: Raster, tw: nat, th: nat, n: nat, area: nat)
    requires Drawn(px, r, tw, th, n) && n == th * tw && area == tw * th
    ensures px == ScaledPixels(r, tw, th, area)
  {
    assert |ScaledPixels(r, tw, th, n)| == 3 * n == |px|;
  }

  /** Box-filter downscale to width `tw`; `None` where a source row is read that does not exist. */
  method Scale(r: Raster, tw: nat) returns (s: Option<Raster>)
    requires r.Valid()
    ensures tw >= r.w ==> s == Some(r)
    ensures Shrinks(r, tw) ==> s == Some(Scaled(r, tw))
    ensures tw < r.w && tw == 0 ==> s == Some(Raster(0, TargetHeight(r.w, r.h, tw), []))
    ensures 1 <= tw < r.w && r.h == 0 ==> s == None
  {
    if tw >= r.w {
      return Some(r);
    }
    var th := TargetHeight(r.w, r.h, tw);
    if tw == 0 {
      return Some(Raster(0, th, []));
    }
    if r.h == 0 {
      return None;
    }
    var px := ScaleRows(r, tw, th);
    s := Some(Raster(tw, th, px));
  }

  /** Every channel of a scaled pixel lies between the least and the greatest value its own box holds. */
  lemma ScaledIsBetween(r: Raster, tw: nat, x: nat, y: nat, c: nat, lo: nat, hi: nat)
    requires Shrinks(r, tw) && x < tw && y < TargetHeight(r.w, r.h, tw) && c < 3
    requires forall sx: nat, sy: nat {:trigger r.At(sx, sy, c)} ::
      sx < r.w && sy < r.h && InBox(sx, x, r.w, tw) && InBox(sy, y, r.h, TargetHeight(r.w, r.h, tw)) ==> lo <= r.At(sx, sy, c) <= hi
    ensures Scaled(r, tw).Valid() && Scaled(r, tw).Inside(x, y)
    ensures lo <= Scaled(r, tw).At(x, y, c) <= hi
  {
    var th := TargetHeight(r.w, r.h, tw);
    ScaledIsAverages(r, tw, x, y, c);
    HeightShrinks(r.w, r.h, tw);
    BoxesTile(x, r.w, tw);
    BoxesTile(y, r.h, th);
    var xa, xb, ya, yb := BoxStart(x, r.w, tw), BoxEnd(x, r.w, tw), BoxStart(y, r.h, th), BoxEnd(y, r.h, th);
    assert Within(r, xa, xb, ya, yb, c, lo, hi);
    AverageIsBetween(r, xa, xb, ya, yb, c, lo, hi);
  }

  // ---------------------------------------------------------------- cropping

  datatype Box = Box(x0: int, y0: int, x1: int, y1: int)

  function Max(a: int, b: int): int { if a >= b then a else b }

  function Min(a: int, b: int): int { if a <= b then a else b }

  /** The part of a box that lies on the image. */
  function Clipped(r: Raster, b: Box): Box {
    Box(Max(0, b.x0), Max(0, b.y0), Min(r.w, b.x1), Min(r.h, b.y1))
  }

  lemma RowInside(w: int, h: int, x0: int, y: int, n: int)
    requires 0 <= x0 && 0 <= n && x0 + n <= w && 0 <= y < h
    ensures 0 <= Offset(w, x0, y) && Offset(w, x0, y) + n * 3 <= w * h * 3
  {
    assert y * w <= (h - 1) * w == w * h - w;
    assert 0 <= y * w;
  }

  /** `out[i:i+3w] = px[src:src+3w]`, inside both buffers. */
  method CopyRow(out: array<Byte>, i: nat, px: seq<Byte>, src: nat, n: nat)
    requires i + n <= out.Length && src + n <= |px|
    modifies out
    ensures out[..i] == old(out[..i]) && out[i..i + n] == px[src..src + n]
  {
    for k := 0 to n
      invariant out[..i] == old(out[..i]) && out[i..i + k] == px[src..src + k]
    {
      out[i + k] := px[src + k];
    }
  }

  /** The first `y` rows of the crop. */
  function CroppedRows(r: Raster, x0: int, y0: int, w: int, y: nat): (px: seq<Byte>)
    requires r.Valid() && 0 <= x0 && 0 <= w && x0 + w <= r.w && 0 <= y0 && y0 + y <= r.h
    ensures |px| == y * (w * 3)
  {
    if y == 0 then []
    else
      RowInside(r.w, r.h, x0, y0 + y - 1, w);
      OneMoreTime(y, w * 3);
      var src := Offset(r.w, x0, y0 + y - 1);
      CroppedRows(r, x0, y0, w, y - 1) + r.px[src..src + w * 3]
  }

  predicate Overlaps(b: Box) {
    b.x0 <= b.x1 && b.y0 <= b.y1
  }

  function Cropped(r: Raster, b: Box): Raster
    requires r.Valid() && b == Clipped(r, b) && Overlaps(b)
  {
    Raster(b.x1 - b.x0, b.y1 - b.y0, CroppedRows(r, b.x0, b.y0, b.x1 - b.x0, b.y1 - b.y0))
  }

  lemma {:induction false} CroppedRowsAt(r: Raster, x0: int, y0: int, w: int, h: nat, x: nat, y: nat, c: nat, i: nat)
    requires r.Valid() && 0 <= x0 && 0 <= w && x0 + w <= r.w && 0 <= y0 && y0 + h <= r.h
    requires x < w && y < h && c < 3 && i == y * (w * 3) + x * 3 + c
    ensures i < h * (w * 3) && CroppedRows(r, x0, y0, w, h)[i] == r.At(x0 + x, y0 + y, c)
    decreases h
  {
    OneMoreTime(h, w * 3);
    if y < h - 1 {
      CroppedRowsAt(r, x0, y0, w, h - 1, x, y, c, i);
    } else {
      RowInside(r.w, r.h, x0, y0 + y, w);
    }
  }

  lemma RowsAreOffsets(w: int, x: int, y: int)
    ensures Offset(w, x, y) == y * (w * 3) + x * 3
    ensures y * (w * 3) == w * y * 3
  {
  }

  /** A crop shows exactly the pixels of its box. */
  lemma CropShowsItsBox(r: Raster, b: Box, x: nat, y: nat, c: nat)
    requires r.Valid() && b == Clipped(r, b) && Overlaps(b)
    requires x < b.x1 - b.x0 && y < b.y1 - b.y0 && c < 3
    ensures Cropped(r, b).Valid()
    ensures Cropped(r, b).At(x, y, c) == r.At(b.x0 + x, b.y0 + y, c)
  {
    var w, h := b.x1 - b.x0, b.y1 - b.y0;
    RowsAreOffsets(w, x, h);
    RowsAreOffsets(w, x, y);
    CroppedRowsAt(r, b.x0, b.y0, w, h, x, y, c, Offset(w, x, y) + c);
  }

  /** The buffer begins with the first `y` rows of the crop, `i` bytes in all. */
  ghost predicate RowsCopied(px: seq<Byte>, r: Raster, x0: nat, y0: nat, w: nat, h: nat, y: nat, i: nat) {
    && r.Valid() && x0 + w <= r.w && y0 + h <= r.h && y <= h && |px| == h * (w * 3)
    && |CroppedRows(r, x0, y0, w, y)| == i && CroppedRows(r, x0, y0, w, y) <= px
  }

  /** The next row of the crop, written at `i`. */
  method CropRow(r: Raster, x0: nat, y0: nat, w: nat, ghost h: nat, y: nat, ghost y': nat, out: array<Byte>, i: nat)
    requires RowsCopied(out[..], r, x0, y0, w, h, y, i) && y < h && y' == y + 1 && i + w * 3 <= out.Length
    modifies out
    ensures RowsCopied(out[..], r, x0, y0, w, h, y', i + w * 3)
  {
    ghost var done := CroppedRows(r, x0, y0, w, y);
    RowInside(r.w, r.h, x0, y0 + y, w);
    var src := Offset(r.w, x0, y0 + y);
    NextCroppedRow(r, x0, y0, w, y, y', src);
    assert out[..i] == done;
    CopyRow(out, i, r.px, src, w * 3);
    assert done + r.px[src..src + w * 3] == out[..i] + out[i..i + w * 3] == out[..i + w * 3];
  }

  lemma NextCroppedRow(r: Raster, x0: nat, y0: nat, w: nat, y: nat, y': nat, src: nat)
    requires r.Valid() && x0 + w <= r.w && y0 + y' <= r.h && y' == y + 1
    requires src == Offset(r.w, x0, y0 + y) && src + w * 3 <= |r.px|
    ensures CroppedRows(r, x0, y0, w, y') == CroppedRows(r, x0, y0, w, y) + r.px[src..src + w * 3]
  {
  }

  method CropRows(r: Raster, x0: nat, y0: nat, w: nat, h: nat) returns (px: seq<Byte>)
    requires r.Valid() && x0 + w <= r.w && y0 + h <= r.h
    ensures px == CroppedRows(r, x0, y0, w, h)
  {
    var row := w * 3;
    var out := new Byte[h * row](_ => 0);
    var i := 0;
    for y := 0 to h
      invariant i == y * row && RowsCopied(out[..], r, x0, y0, w, h, y, i)
    {
      ghost var y' := y + 1;
      CropFits(y, h, row, i);
      CropRow(r, x0, y0, w, h, y, y', out, i);
      i := i + row;
    }
    px := out[..];
    assert |CroppedRows(r, x0, y0, w, h)| == |px|;
  }

  lemma CropFits(y: nat, h: nat, row: nat, i: nat)
    requires y < h && i == y * row
    ensures i + row <= h * row && i + row == (y + 1) * row
  {
  }

  /** A zeroed buffer of a size no rows are copied into; a negative size is an error. */
  function Blank(w: int, h: int): Option<Raster> {
    if w * h < 0 then None else Some(Raster(w, h, Zeros(w * h * 3)))
  }

  /** `None` where the buffer size would be negative. A box that misses the image in both directions gives
      an image of negative size and no rows. */
  method Crop(r: Raster, box: Box) returns (s: Option<Raster>)
    requires r.Valid()
    ensures var b := Clipped(r, box);
      if Overlaps(b) then s == Some(Cropped(r, b))
      else s == Blank(b.x1 - b.x0, b.y1 - b.y0)
  {
    var b := Clipped(r, box);
    var w, h := b.x1 - b.x0, b.y1 - b.y0;
    if w < 0 || h < 0 {
      return Blank(w, h);
    }
    var px := CropRows(r, b.x0, b.y0, w, h);
    s := Some(Raster(w, h, px));
  }

  // ---------------------------------------------------------------- dark content

  predicate Dark(r: Raster, threshold: int, x: int, y: int)
    requires r.Valid() && r.Inside(x, y)
  {
    (r.At(x, y, 0) * 299 + r.At(x, y, 1) * 587 + r.At(x, y, 2) * 114) / 1000 < threshold
  }

  predicate DarkAt(r: Raster, threshold: int, x: int, y: int)
    requires r.Valid()
  {
    r.Inside(x, y) && Dark(r, threshold, x, y)
  }

  /** The pixels visited before (x, y), row by row. */
  predicate Visited(u: int, v: int, x: int, y: int) {
    v < y || (v == y && u < x)
  }

  ghost predicate SeenDark(r: Raster, threshold: int, u: int, v: int, x: int, y: int)
    requires r.Valid()
  {
    DarkAt(r, threshold, u, v) && Visited(u, v, x, y)
  }

  predicate Holds(b: Box, u: int, v: int) {
    b.x0 <= u <= b.x1 && b.y0 <= v <= b.y1
  }

  /** Each edge of the box passes through a dark pixel. */
  ghost predicate Attained(r: Raster, threshold: int, b: Box)
    requires r.Valid()
  {
    && (exists v :: DarkAt(r, threshold, b.x0, v)) && (exists u :: DarkAt(r, threshold, u, b.y0))
    && (exists v :: DarkAt(r, threshold, b.x1, v)) && (exists u :: DarkAt(r, threshold, u, b.y1))
  }

  /** The running bounds hold every dark pixel visited, and are attained once there is one. */
  ghost predicate Bounds(r: Raster, threshold: int, b: Box, x: int, y: int)
    requires r.Valid()
  {
    && (forall u, v :: SeenDark(r, threshold, u, v, x, y) ==> Holds(b, u, v))
    && ((exists u, v :: SeenDark(r, threshold, u, v, x, y)) ==> Attained(r, threshold, b))
    && (!(exists u, v :: SeenDark(r, threshold, u, v, x, y)) ==> b == Box(r.w, r.h, 0, 0))
  }

  function Widened(b: Box, x: int, y: int): Box {
    Box(Min(b.x0, x), Min(b.y0, y), Max(b.x1, x), Max(b.y1, y))
  }

  lemma BoundsSkip(r: Raster, threshold: int, b: Box, x: int, y: int, x': int)
    requires r.Valid() && r.Inside(x, y) && x' == x + 1 && Bounds(r, threshold, b, x, y) && !DarkAt(r, threshold, x, y)
    ensures Bounds(r, threshold, b, x', y)
  {
    forall u, v ensures SeenDark(r, threshold, u, v, x', y) <==> SeenDark(r, threshold, u, v, x, y) {
    }
  }

  lemma BoundsWiden(r: Raster, threshold: int, b: Box, x: int, y: int, x': int)
    requires r.Valid() && r.Inside(x, y) && x' == x + 1 && Bounds(r, threshold, b, x, y) && DarkAt(r, threshold, x, y)
    ensures Bounds(r, threshold, Widened(b, x, y), x', y)
  {
    var b' := Widened(b, x, y);
    assert SeenDark(r, threshold, x, y, x', y);
    forall u, v | SeenDark(r, threshold, u, v, x', y) ensures Holds(b', u, v) {
      if !(u == x && v == y) {
        assert SeenDark(r, threshold, u, v, x, y);
      }
    }
    assert Attained(r, threshold, b');
  }

  lemma RowDone(r: Raster, threshold: int, b: Box, y: int, y': int)
    requires r.Valid() && y' == y + 1 && Bounds(r, threshold, b, r.w, y)
    ensures Bounds(r, threshold, b, 0, y')
  {
    forall u, v ensures SeenDark(r, threshold, u, v, 0, y') <==> SeenDark(r, threshold, u, v, r.w, y) {
    }
  }

  method DarkBounds(r: Raster, threshold: int) returns (b: Box)
    requires r.Valid()
    ensures Bounds(r, threshold, b, 0, r.h)
  {
    b := Box(r.w, r.h, 0, 0);
    for y := 0 to r.h
      invariant Bounds(r, threshold, b, 0, y)
    {
      for x := 0 to r.w
        invariant Bounds(r, threshold, b, x, y)
      {
        ghost var x' := x + 1;
        if Dark(r, threshold, x, y) {
          BoundsWiden(r, threshold, b, x, y, x');
          b := Widened(b, x, y);
        } else {
          BoundsSkip(r, threshold, b, x, y, x');
        }
      }
      ghost var y' := y + 1;
      RowDone(r, threshold, b, y, y');
    }
  }

  /** The smallest box holding every dark pixel, and one exists. */
  ghost predicate Tight(r: Raster, threshold: int, b: Box)
    requires r.Valid()
  {
    && (forall u, v :: DarkAt(r, threshold, u, v) ==> Holds(b, u, v))
    && Attained(r, threshold, b)
  }

  /** Grown by `pad` on every side, within the image; the upper bounds become exclusive. */
  function Padded(r: Raster, b: Box, pad: nat): Box {
    Box(Max(0, b.x0 - pad), Max(0, b.y0 - pad), Min(r.w, b.x1 + 1 + pad), Min(r.h, b.y1 + 1 + pad))
  }

  ghost predicate AnyDark(r: Raster, threshold: int)
    requires r.Valid()
  {
    exists u, v :: DarkAt(r, threshold, u, v)
  }

  /** The padded bounding box of the dark pixels; without any, the whole image. An image of no columns gets
      what the initial bounds pad to. */
  method ContentBox(r: Raster, threshold: int, pad: nat) returns (box: Box)
    requires r.Valid()
    ensures AnyDark(r, threshold) ==> exists tight :: Tight(r, threshold, tight) && box == Padded(r, tight, pad)
    ensures !AnyDark(r, threshold) && r.w > 0 ==> box == Box(0, 0, r.w, r.h)
    ensures r.w == 0 ==> box == Box(0, Max(0, r.h - pad), 0, Min(r.h, 1 + pad))
    ensures !AnyDark(r, threshold) ==> (box == Box(0, 0, r.w, r.h) <==> r.w > 0 || r.h <= pad)
  {
    var b := DarkBounds(r, threshold);
    assert AllVisited(r, threshold, b) by { EverythingVisited(r, threshold, b); }
    if b.x1 < b.x0 {
      return Box(0, 0, r.w, r.h);
    }
    box := Padded(r, b, pad);
  }

  ghost predicate AllVisited(r: Raster, threshold: int, b: Box)
    requires r.Valid()
  {
    (AnyDark(r, threshold) ==> Tight(r, threshold, b) && b.x0 <= b.x1) && (!AnyDark(r, threshold) ==> b == Box(r.w, r.h, 0, 0))
  }

  lemma EverythingVisited(r: Raster, threshold: int, b: Box)
    requires r.Valid() && Bounds(r, threshold, b, 0, r.h)
    ensures AllVisited(r, threshold, b)
  {
  }

  /** The box is the smallest: any box that holds every dark pixel holds it. */
  lemma TightIsSmallest(r: Raster, threshold: int, b: Box, other: Box)
    requires r.Valid() && Tight(r, threshold, b)
    requires forall u, v :: DarkAt(r, threshold, u, v) ==> Holds(other, u, v)
    ensures other.x0 <= b.x0 && other.y0 <= b.y0 && b.x1 <= other.x1 && b.y1 <= other.y1
  {
  }

  /** Trimming to the content box loses no dark pixel: each one is inside the crop, at its place. */
  lemma TrimmingKeepsDark(r: Raster, threshold: int, tight: Box, pad: nat, u: int, v: int, c: nat)
    requires r.Valid() && Tight(r, threshold, tight) && DarkAt(r, threshold, u, v) && c < 3
    ensures var b := Padded(r, tight, pad);
      && b == Clipped(r, b) && Overlaps(b) && Cropped(r, b).Valid() && Cropped(r, b).Inside(u - b.x0, v - b.y0)
      && Cropped(r, b).At(u - b.x0, v - b.y0, c) == r.At(u, v, c)
  {
    var b := Padded(r, tight, pad);
    assert Holds(tight, u, v);
    CropShowsItsBox(r, b, u - b.x0, v - b.y0, c);
  }
}
