/** PNG scanlines: reconstruction of the five filters of section 6 of RFC 2083, in place, and its inverse. */
module Scanlines {
  import opened Ids

  type Byte = x: int | 0 <= x < 256

  function Zeros(n: nat): (z: seq<Byte>)
    ensures |z| == n && forall i :: 0 <= i < n ==> z[i] == 0
  {
    seq(n, _ => 0)
  }

  /** Byte addition and subtraction, modulo 256. */
  function Plus(x: Byte, y: Byte): (z: Byte)
    ensures z == if x + y < 256 then x + y else x + y - 256
  {
    (x + y) % 256
  }

  function Minus(x: Byte, y: Byte): (z: Byte)
    ensures z == if x >= y then x - y else x - y + 256
  {
    (x - y) % 256
  }

  function Mean(x: Byte, y: Byte): Byte { (x + y) / 2 }

  lemma AddBack(x: Byte, p: Byte)
    ensures Plus(Minus(x, p), p) == x && Minus(Plus(x, p), p) == x
  {
  }

  // ---------------------------------------------------------------- predictors

  function Abs(x: int): nat {
    if x < 0 then -x else x
  }

  /** The Paeth predictor of section 6.6 of RFC 2083: the neighbour nearest to left + above - upper left,
      ties broken in the order left, above, upper left. */
  function Paeth(a: Byte, b: Byte, c: Byte): Byte {
    var p := a + b - c;
    if Abs(p - a) <= Abs(p - b) && Abs(p - a) <= Abs(p - c) then a
    else if Abs(p - b) <= Abs(p - c) then b
    else c
  }

  /** The same choice, with the distances simplified. */
  function Nearest(a: Byte, b: Byte, c: Byte): (pr: Byte)
    ensures pr == Paeth(a, b, c)
  {
    var pa, pb, pc := Abs(b - c), Abs(a - c), Abs(a + b - 2 * c);
    if pa <= pb && pa <= pc then a else if pb <= pc then b else c
  }

  /** What a filter type predicts from the left, above and upper-left bytes. */
  function Predict(f: nat, a: Byte, b: Byte, c: Byte): Byte {
    match f
    case 1 => a
    case 2 => b
    case 3 => Mean(a, b)
    case 4 => Paeth(a, b, c)
    case _ => 0
  }

  /** The corresponding byte of the pixel to the left; nothing is to the left of the first pixel. */
  function Before(line: seq<Byte>, i: nat, ch: nat): Byte
    requires i < |line| + ch && ch >= 1
  {
    if i >= ch then line[i - ch] else 0
  }

  /** The prediction for byte `i`, from what the line and the line above hold. */
  function Predicted(f: nat, ch: nat, line: seq<Byte>, prev: seq<Byte>, i: nat): Byte
    requires ch >= 1 && i < |prev| && i < |line| + ch
  {
    Predict(f, Before(line, i, ch), prev[i], Before(prev, i, ch))
  }

  // ---------------------------------------------------------------- one line

  /** The encoder's side: each byte less its prediction from the original bytes. */
  function Filtered(f: nat, ch: nat, line: seq<Byte>, prev: seq<Byte>): (q: seq<Byte>)
    requires ch >= 1 && |line| <= |prev|
    ensures |q| == |line|
  {
    seq(|line|, i requires 0 <= i < |line| => Minus(line[i], Predicted(f, ch, line, prev, i)))
  }

  /** The decoder's side: each byte plus its prediction from the bytes reconstructed before it. */
  function Reconstructed(f: nat, ch: nat, q: seq<Byte>, prev: seq<Byte>): (line: seq<Byte>)
    requires ch >= 1 && |q| <= |prev|
    ensures |line| == |q|
  {
    if q == [] then []
    else
      var n := |q| - 1;
      var done := Reconstructed(f, ch, q[..n], prev);
      done + [Plus(q[n], Predicted(f, ch, done, prev, n))]
  }

  /** Reconstruction byte by byte. */
  lemma {:induction false} ReconstructedAt(f: nat, ch: nat, q: seq<Byte>, prev: seq<Byte>, i: nat)
    requires ch >= 1 && |q| <= |prev| && i < |q|
    ensures var line := Reconstructed(f, ch, q, prev);
      line[i] == Plus(q[i], Predicted(f, ch, line, prev, i))
  {
    var n := |q| - 1;
    var done := Reconstructed(f, ch, q[..n], prev);
    if i < n {
      ReconstructedAt(f, ch, q[..n], prev, i);
    }
  }

  lemma {:induction false} ReconstructedIsDetermined(f: nat, ch: nat, q: seq<Byte>, prev: seq<Byte>, line: seq<Byte>)
    requires ch >= 1 && |q| <= |prev| && |line| == |q|
    requires forall i :: 0 <= i < |q| ==> line[i] == Plus(q[i], Predicted(f, ch, line, prev, i))
    ensures line == Reconstructed(f, ch, q, prev)
  {
    if q != [] {
      var n := |q| - 1;
      forall i | 0 <= i < n ensures line[..n][i] == Plus(q[..n][i], Predicted(f, ch, line[..n], prev, i)) {
        assert line[i] == Plus(q[i], Predicted(f, ch, line, prev, i));
      }
      ReconstructedIsDetermined(f, ch, q[..n], prev, line[..n]);
      assert line[n] == Plus(q[n], Predicted(f, ch, line, prev, n));
      assert line == line[..n] + [line[n]];
    }
  }

  /** Reconstruction inverts filtering, whatever the filter, the bytes per pixel and the line above. */
  lemma ReconstructionInvertsFilter(f: nat, ch: nat, line: seq<Byte>, prev: seq<Byte>)
    requires ch >= 1 && |line| <= |prev|
    ensures Reconstructed(f, ch, Filtered(f, ch, line, prev), prev) == line
  {
    var q := Filtered(f, ch, line, prev);
    forall i | 0 <= i < |q| ensures line[i] == Plus(q[i], Predicted(f, ch, line, prev, i)) {
      AddBack(line[i], Predicted(f, ch, line, prev, i));
    }
    ReconstructedIsDetermined(f, ch, q, prev, line);
  }

  /** And filtering inverts reconstruction: every filtered line is the encoding of what it decodes to. */
  lemma FilterInvertsReconstruction(f: nat, ch: nat, q: seq<Byte>, prev: seq<Byte>)
    requires ch >= 1 && |q| <= |prev|
    ensures Filtered(f, ch, Reconstructed(f, ch, q, prev), prev) == q
  {
    var line := Reconstructed(f, ch, q, prev);
    forall i | 0 <= i < |q| ensures Filtered(f, ch, line, prev)[i] == q[i] {
      ReconstructedAt(f, ch, q, prev, i);
      AddBack(q[i], Predicted(f, ch, line, prev, i));
    }
  }

  /** Nothing is predicted when there is no filter, or when every byte is in the first pixel. */
  lemma {:induction false} NothingToReconstruct(f: nat, ch: nat, q: seq<Byte>, prev: seq<Byte>)
    requires ch >= 1 && |q| <= |prev|
    requires f == 0 || (f == 1 && |q| <= ch)
    ensures Reconstructed(f, ch, q, prev) == q
  {
    ReconstructedIsDetermined(f, ch, q, prev, q);
  }

  // ---------------------------------------------------------------- one line, in place

  /** Whether reading a line of `n` bytes, where `stride` were announced, goes out of bounds, or the filter
      type does not exist. */
  predicate LineFails(f: nat, n: nat, stride: nat, ch: nat) {
    f > 4 || (n < stride && (f >= 2 || (f == 1 && ch < stride)))
  }

  /** Bytes before `i` are reconstructed, the others are still filtered. */
  ghost predicate HalfWay(f: nat, ch: nat, line: seq<Byte>, q: seq<Byte>, prev: seq<Byte>, i: nat)
    requires ch >= 1 && |line| == |q| <= |prev|
  {
    forall j :: 0 <= j < |q| ==> line[j] == if j < i then Plus(q[j], Predicted(f, ch, line, prev, j)) else q[j]
  }

  lemma AllTheWay(f: nat, ch: nat, line: seq<Byte>, q: seq<Byte>, prev: seq<Byte>)
    requires ch >= 1 && |line| == |q| <= |prev| && HalfWay(f, ch, line, q, prev, |q|)
    ensures line == Reconstructed(f, ch, q, prev)
  {
    ReconstructedIsDetermined(f, ch, q, prev, line);
  }

  method UndoSub(ch: nat, line: array<Byte>, prev: array<Byte>)
    requires ch >= 1 && line != prev && line.Length <= prev.Length
    modifies line
    ensures line[..] == Reconstructed(1, ch, old(line[..]), prev[..])
  {
    ghost var q := line[..];
    if ch < line.Length {
      for i := ch to line.Length
        invariant HalfWay(1, ch, line[..], q, prev[..], i)
      {
        line[i] := Plus(line[i], line[i - ch]);
      }
      AllTheWay(1, ch, line[..], q, prev[..]);
    } else {
      NothingToReconstruct(1, ch, q, prev[..]);
    }
  }

  method UndoUp(ch: nat, line: array<Byte>, prev: array<Byte>)
    requires ch >= 1 && line != prev && line.Length <= prev.Length
    modifies line
    ensures line[..] == Reconstructed(2, ch, old(line[..]), prev[..])
  {
    ghost var q := line[..];
    for i := 0 to line.Length
      invariant HalfWay(2, ch, line[..], q, prev[..], i)
    {
      line[i] := Plus(line[i], prev[i]);
    }
    AllTheWay(2, ch, line[..], q, prev[..]);
  }

  method UndoAverage(ch: nat, line: array<Byte>, prev: array<Byte>)
    requires ch >= 1 && line != prev && line.Length <= prev.Length
    modifies line
    ensures line[..] == Reconstructed(3, ch, old(line[..]), prev[..])
  {
    ghost var q := line[..];
    for i := 0 to line.Length
      invariant HalfWay(3, ch, line[..], q, prev[..], i)
    {
      var a := if i >= ch then line[i - ch] else 0;
      line[i] := Plus(line[i], Mean(a, prev[i]));
    }
    AllTheWay(3, ch, line[..], q, prev[..]);
  }

  method UndoPaeth(ch: nat, line: array<Byte>, prev: array<Byte>)
    requires ch >= 1 && line != prev && line.Length <= prev.Length
    modifies line
    ensures line[..] == Reconstructed(4, ch, old(line[..]), prev[..])
  {
    ghost var q := line[..];
    for i := 0 to line.Length
      invariant HalfWay(4, ch, line[..], q, prev[..], i)
    {
      var a := if i >= ch then line[i - ch] else 0;
      var b := prev[i];
      var c := if i >= ch then prev[i - ch] else 0;
      line[i] := Plus(line[i], Nearest(a, b, c));
    }
    AllTheWay(4, ch, line[..], q, prev[..]);
  }

  /** The dispatch on the filter type. */
  method Unfilter(f: nat, ch: nat, line: array<Byte>, prev: array<Byte>)
    requires f <= 4 && ch >= 1 && line != prev && line.Length <= prev.Length
    modifies line
    ensures line[..] == Reconstructed(f, ch, old(line[..]), prev[..])
  {
    match f
    case 1 => UndoSub(ch, line, prev);
    case 2 => UndoUp(ch, line, prev);
    case 3 => UndoAverage(ch, line, prev);
    case 4 => UndoPaeth(ch, line, prev);
    case _ => NothingToReconstruct(f, ch, line[..], prev[..]);
  }

  // ---------------------------------------------------------------- all lines

  /** `s[i..j]` as Python slices: out-of-range bounds are clipped. */
  function Slice(s: seq<Byte>, i: nat, j: nat): seq<Byte>
    requires i <= j
  {
    if i >= |s| then [] else if j >= |s| then s[i..] else s[i..j]
  }

  /** Past a filter byte and a line of `stride` bytes. */
  function Past(p: nat, stride: nat): nat {
    p + 1 + stride
  }

  function Less(n: nat): nat
    requires n >= 1
  {
    n - 1
  }

  /** `h` lines from position `p` on, each one filter byte and `stride` bytes; `None` is an index out of
      range or a bad filter type. Only the last line may come up short. */
  function Lines(raw: seq<Byte>, p: nat, stride: nat, ch: nat, h: nat, prev: seq<Byte>): Option<seq<Byte>>
    requires ch >= 1 && (p >= |raw| || |prev| == stride)
    decreases h
  {
    if h == 0 then Some([])
    else if p >= |raw| then None
    else
      var q := Slice(raw, p + 1, p + 1 + stride);
      if LineFails(raw[p], |q|, stride, ch) then None
      else
        var line := Reconstructed(raw[p], ch, q, prev);
        Prepend(line, Lines(raw, Past(p, stride), stride, ch, Less(h), line))
  }

  function Prepend(done: seq<Byte>, rest: Option<seq<Byte>>): Option<seq<Byte>> {
    match rest
    case None => None
    case Some(q) => Some(done + q)
  }

  function Flatten(lines: seq<seq<Byte>>): seq<Byte> {
    if lines == [] then [] else lines[0] + Flatten(lines[1..])
  }

  /** An encoder that picks a filter per line. */
  function Encoded(fs: seq<Byte>, ch: nat, lines: seq<seq<Byte>>, prev: seq<Byte>): seq<Byte>
    requires ch >= 1 && |fs| == |lines| && forall i :: 0 <= i < |lines| ==> |lines[i]| == |prev|
  {
    if lines == [] then []
    else [fs[0]] + Filtered(fs[0], ch, lines[0], prev) + Encoded(fs[1..], ch, lines[1..], lines[0])
  }

  lemma OneMoreLine(raw: seq<Byte>, p: nat, p': nat, stride: nat, ch: nat, n: nat, n': nat, prev: seq<Byte>, line: seq<Byte>)
    requires ch >= 1 && p < |raw| && |prev| == stride && n >= 1 && p' == Past(p, stride) && n' == Less(n)
    requires !LineFails(raw[p], |Slice(raw, p + 1, p + 1 + stride)|, stride, ch)
    requires line == Reconstructed(raw[p], ch, Slice(raw, p + 1, p + 1 + stride), prev)
    ensures p' < |raw| ==> |line| == stride
    ensures Lines(raw, p, stride, ch, n, prev) == Prepend(line, Lines(raw, p', stride, ch, n', line))
  {
  }

  /** The encoding of `lines` is in `raw` at position `p`. */
  ghost predicate EncodedAt(raw: seq<Byte>, p: nat, fs: seq<Byte>, ch: nat, lines: seq<seq<Byte>>, prev: seq<Byte>) {
    && ch >= 1 && |fs| == |lines| && (forall i :: 0 <= i < |lines| ==> |lines[i]| == |prev|)
    && p <= |raw| && Encoded(fs, ch, lines, prev) <= raw[p..]
  }

  lemma FirstLineAt(raw: seq<Byte>, p: nat, p': nat, fs: seq<Byte>, ch: nat, lines: seq<seq<Byte>>, prev: seq<Byte>)
    requires EncodedAt(raw, p, fs, ch, lines, prev) && lines != [] && p' == Past(p, |prev|)
    ensures p < |raw| && raw[p] == fs[0]
    ensures Slice(raw, p + 1, p + 1 + |prev|) == Filtered(fs[0], ch, lines[0], prev)
    ensures EncodedAt(raw, p', fs[1..], ch, lines[1..], lines[0])
  {
    var q, rest := Filtered(fs[0], ch, lines[0], prev), Encoded(fs[1..], ch, lines[1..], lines[0]);
    var all := Encoded(fs, ch, lines, prev);
    assert all == [fs[0]] + q + rest;
    assert all[0] == fs[0] && all[1..1 + |prev|] == q && all[1 + |prev|..] == rest;
    assert raw[p..][..|all|] == all;
    assert raw[p..][0] == raw[p];
    assert raw[p..][..|all|][1..1 + |prev|] == raw[p + 1..p + 1 + |prev|];
    assert raw[p'..][..|rest|] == raw[p..][..|all|][1 + |prev|..];
  }

  /** Decoding inverts encoding, for every width, every number of bytes per pixel and every choice of
      filter per line; whatever follows the last line is ignored. */
  lemma {:induction false} DecodingInvertsEncoding(raw: seq<Byte>, p: nat, fs: seq<Byte>, ch: nat, lines: seq<seq<Byte>>,
                                                   prev: seq<Byte>, stride: nat, h: nat)
    requires EncodedAt(raw, p, fs, ch, lines, prev) && stride == |prev| && h == |lines|
    requires forall i :: 0 <= i < |fs| ==> fs[i] <= 4
    ensures Lines(raw, p, stride, ch, h, prev) == Some(Flatten(lines))
    decreases |lines|
  {
    if lines != [] {
      var p': nat, n: nat := Past(p, stride), Less(h);
      FirstLineAt(raw, p, p', fs, ch, lines, prev);
      ReconstructionInvertsFilter(fs[0], ch, lines[0], prev);
      OneMoreLine(raw, p, p', stride, ch, h, n, prev, lines[0]);
      DecodingInvertsEncoding(raw, p', fs[1..], ch, lines[1..], lines[0], stride, n);
    }
  }

  // ---------------------------------------------------------------- the loop

  /** Python's `out[i:j] = line`: the target shrinks when the line is short. */
  function Spliced(out: seq<Byte>, i: nat, j: nat, line: seq<Byte>): seq<Byte>
    requires i <= j <= |out|
  {
    out[..i] + line + out[j..]
  }

  lemma OffsetsAdd(y: nat, h: nat, stride: nat)
    requires y < h
    ensures (y + 1) * stride == y * stride + stride
    ensures (y + 1) * stride <= h * stride
    ensures (h - y) * stride == (h - (y + 1)) * stride + stride
  {
  }

  lemma ZerosTail(n: nat, m: nat)
    requires m <= n
    ensures Zeros(n)[m..] == Zeros(n - m)
  {
  }

  lemma PrependTwice(a: seq<Byte>, b: seq<Byte>, rest: Option<seq<Byte>>)
    ensures Prepend(a, Prepend(b, rest)) == Prepend(a + b, rest)
    ensures Prepend([], rest) == rest
  {
    if rest.Some? {
      assert a + (b + rest.value) == a + b + rest.value;
      assert [] + rest.value == rest.value;
    }
  }

  /** The image buffer: the lines written so far, then zeros; whole lines only while there is more to come. */
  ghost predicate Placed(out: seq<Byte>, done: seq<Byte>, y: nat, h: nat, stride: nat, more: bool)
    requires y <= h
  {
    out == done + Zeros((h - y) * stride) && (more ==> |done| == y * stride)
  }

  lemma LinePlaced(out: seq<Byte>, done: seq<Byte>, y: nat, h: nat, stride: nat, line: seq<Byte>)
    requires y < h && Placed(out, done, y, h, stride, true)
    ensures y * stride <= (y + 1) * stride <= |out|
    ensures Placed(Spliced(out, y * stride, (y + 1) * stride, line), done + line, y + 1, h, stride, |line| == stride)
  {
    OffsetsAdd(y, h, stride);
    ZerosTail((h - y) * stride, stride);
    assert out[y * stride + stride..] == Zeros((h - y) * stride)[stride..];
  }

  lemma PlacedEnds(out: seq<Byte>, done: seq<Byte>, h: nat, stride: nat, more: bool)
    ensures Placed(out, done, h, h, stride, more) ==> out == done
    ensures out == Zeros(stride * h) && done == [] ==> Placed(out, done, 0, h, stride, true)
  {
  }

  /** One pass of the loop over lines: `null` where it raises. */
  method DecodeLine(raw: seq<Byte>, p: nat, stride: nat, ch: nat, prev: array<Byte>) returns (line: array?<Byte>)
    requires ch >= 1 && (p >= |raw| || prev.Length == stride)
    ensures line == null <==> p >= |raw| || LineFails(raw[p], |Slice(raw, p + 1, p + 1 + stride)|, stride, ch)
    ensures line != null ==> fresh(line)
    ensures line != null ==> line[..] == Reconstructed(raw[p], ch, Slice(raw, p + 1, p + 1 + stride), prev[..])
  {
    if p >= |raw| {
      return null;
    }
    var f := raw[p];
    var q := Slice(raw, p + 1, p + 1 + stride);
    if LineFails(f, |q|, stride, ch) {
      return null;
    }
    line := new Byte[|q|](i requires 0 <= i < |q| => q[i]);
    assert line[..] == q;
    Unfilter(f, ch, line, prev);
  }

  /** What the loop keeps: the lines decoded so far and those still to come make up the whole. */
  ghost predicate Underway(total: Option<seq<Byte>>, done: seq<Byte>, raw: seq<Byte>, p: nat, stride: nat, ch: nat,
                           left: nat, above: seq<Byte>)
  {
    ch >= 1 && (p >= |raw| || |above| == stride) && total == Prepend(done, Lines(raw, p, stride, ch, left, above))
  }

  lemma UnderwayEnds(total: Option<seq<Byte>>, done: seq<Byte>, raw: seq<Byte>, p: nat, stride: nat, ch: nat,
                     left: nat, above: seq<Byte>)
    requires Underway(total, done, raw, p, stride, ch, left, above)
    ensures left == 0 ==> total == Some(done)
    ensures left >= 1 && (p >= |raw| || LineFails(raw[p], |Slice(raw, p + 1, p + 1 + stride)|, stride, ch)) ==> total == None
  {
    assert done + [] == done;
  }

  lemma StillUnderway(total: Option<seq<Byte>>, done: seq<Byte>, done': seq<Byte>, raw: seq<Byte>, p: nat, p': nat,
                      stride: nat, ch: nat, left: nat, left': nat, above: seq<Byte>, line: seq<Byte>)
    requires Underway(total, done, raw, p, stride, ch, left, above)
    requires p < |raw| && p' == Past(p, stride) && left >= 1 && left' == Less(left) && done' == done + line
    requires !LineFails(raw[p], |Slice(raw, p + 1, p + 1 + stride)|, stride, ch)
    requires line == Reconstructed(raw[p], ch, Slice(raw, p + 1, p + 1 + stride), above)
    ensures Underway(total, done', raw, p', stride, ch, left', line)
  {
    OneMoreLine(raw, p, p', stride, ch, left, left', above, line);
    PrependTwice(done, line, Lines(raw, p', stride, ch, left', line));
  }

  /** A decoded line goes into the buffer. */
  method PlaceLine(out: seq<Byte>, ghost done: seq<Byte>, y: nat, h: nat, stride: nat, line: seq<Byte>, ghost more: bool)
    returns (out': seq<Byte>)
    requires y < h && Placed(out, done, y, h, stride, true) && (more ==> |line| == stride)
    ensures Placed(out', done + line, y + 1, h, stride, more)
  {
    LinePlaced(out, done, y, h, stride, line);
    out' := Spliced(out, y * stride, (y + 1) * stride, line);
  }

  method DecodeLines(raw: seq<Byte>, stride: nat, ch: nat, h: nat) returns (result: Option<seq<Byte>>)
    requires ch >= 1
    ensures result == Lines(raw, 0, stride, ch, h, Zeros(stride))
  {
    var out := Zeros(stride * h);
    var prev := new Byte[stride](_ => 0);
    var p: nat := 0;
    ghost var done: seq<Byte>, above: seq<Byte>, left: nat := [], Zeros(stride), h;
    ghost var total := Lines(raw, 0, stride, ch, h, above);
    PrependTwice([], [], total);
    PlacedEnds(out, done, h, stride, true);
    for y := 0 to h
      invariant above == prev[..] && left == h - y && Underway(total, done, raw, p, stride, ch, left, above)
      invariant Placed(out, done, y, h, stride, p < |raw|)
    {
      var line := DecodeLine(raw, p, stride, ch, prev);
      if line == null {
        UnderwayEnds(total, done, raw, p, stride, ch, left, above);
        return None;
      }
      var next: nat := Past(p, stride);
      ghost var n: nat, below: seq<Byte> := Less(left), line[..];
      ghost var done' := done + below;
      StillUnderway(total, done, done', raw, p, next, stride, ch, left, n, above, below);
      out := PlaceLine(out, done, y, h, stride, line[..], next < |raw|);
      p, prev, above, left, done := next, line, below, n, done';
    }
    UnderwayEnds(total, done, raw, p, stride, ch, left, above);
    PlacedEnds(out, done, h, stride, p < |raw|);
    result := Some(out);
  }
}
