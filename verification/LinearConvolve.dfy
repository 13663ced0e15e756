/** SSELinearConvolvePeer.filterHV: four channels convolved through one interleaved ring buffer. */
module LinearConvolve {
  import opened Words
  import opened Reals
  import opened Pixels
  import opened Canvas
  import opened BoxWindow
  import opened Convolution

  const CMIN := 1.0
  const CMAX := 255.0 - 1.0 / 32.0

  /** Clamp a channel sum and cut off its fraction. */
  function ToByte(f: real): byte {
    if f < CMIN then 0 else if f > CMAX then 255 else Trunc(f)
  }

  lemma ToByteMonotone(f: real, g: real)
    requires f <= g
    ensures ToByte(f) <= ToByte(g)
  {
  }

  /** One channel of a line. */
  function Sample(line: seq<word>, ch: Channel): Signal {
    i => At(line, i, ch) as real
  }

  /** The pixel that direct convolution puts into column c. */
  function ConvPixel(line: seq<word>, kvals: seq<real>, k: int, c: int): word
    requires 1 <= k <= |kvals|
  {
    Argb(ToByte(Conv(Sample(line, Alpha), kvals, k, c)), ToByte(Conv(Sample(line, Red), kvals, k, c)),
         ToByte(Conv(Sample(line, Green), kvals, k, c)), ToByte(Conv(Sample(line, Blue), kvals, k, c)))
  }

  function ConvPass(s: seq<word>, l: Layout, kvals: seq<real>, k: int): Picture
    requires 1 <= k <= |kvals| && 0 <= l.cols
  {
    (c, r) => ConvPixel(Line(s, l, r), kvals, k, c)
  }

  // ---------------------------------------------------------------------------------------------
  // The interleaved ring
  // ---------------------------------------------------------------------------------------------

  function Slot(j: int, ch: Channel): (i: int)
    ensures 4 * j <= i < 4 * j + 4
  {
    4 * j + Pick(0, 1, 2, 3, ch)
  }

  /** The ring of one channel: every fourth value. */
  function Lane(cvals: seq<real>, ch: Channel, k: nat): (ring: seq<real>)
    requires 4 * k <= |cvals|
    ensures |ring| == k
  {
    seq(k, j requires 0 <= j < k => cvals[Slot(j, ch)])
  }

  /** All four rings hold the line, column c being the last one loaded, into slot m. */
  ghost predicate Rings(cvals: seq<real>, line: seq<word>, c: int, m: int, k: nat) {
    4 * k <= |cvals| && forall ch: Channel :: Loaded(Lane(cvals, ch, k), Sample(line, ch), c, m, k)
  }

  /** The array is cleared at the start of every line. */
  method Clear(cvals: array<real>, k: nat)
    requires 4 * k <= cvals.Length
    modifies cvals
    ensures forall i | 0 <= i < 4 * k :: cvals[i] == 0.0
  {
    var i := 0;
    while i < k * 4
      invariant 0 <= i <= 4 * k && forall j | 0 <= j < i :: cvals[j] == 0.0
    {
      cvals[i] := 0.0;
      i := i + 1;
    }
  }

  lemma RingsStart(cvals: seq<real>, line: seq<word>, k: nat)
    requires 1 <= k && 4 * k <= |cvals| && forall i | 0 <= i < 4 * k :: cvals[i] == 0.0
    ensures Rings(cvals, line, -1, k - 1, k)
  {
    forall ch: Channel ensures Loaded(Lane(cvals, ch, k), Sample(line, ch), -1, k - 1, k) {
      forall j | 0 <= j < k ensures Lane(cvals, ch, k)[j] == 0.0 {
        assert cvals[Slot(j, ch)] == 0.0;
      }
      RingStarts(Lane(cvals, ch, k), Sample(line, ch), k);
    }
  }

  /** The pixel of the next column goes into the slot that the kernel offset points at. */
  method Load(cvals: array<real>, k: nat, koff: int, rgb: word, ghost line: seq<word>, ghost c: int, ghost m: int)
    requires Rings(cvals[..], line, c, m, k) && koff == Koff(m, k)
    requires rgb == if 0 <= c + 1 < |line| then line[c + 1] else 0
    modifies cvals
    ensures Rings(cvals[..], line, c + 1, NextSlot(m, k), k)
  {
    assert Loaded(Lane(cvals[..], Alpha, k), Sample(line, Alpha), c, m, k);
    var i := (k - koff) * 4;
    ghost var before := cvals[..];
    cvals[i] := Chan(rgb, Alpha) as real;
    cvals[i + 1] := Chan(rgb, Red) as real;
    cvals[i + 2] := Chan(rgb, Green) as real;
    cvals[i + 3] := Chan(rgb, Blue) as real;
    forall ch: Channel ensures Loaded(Lane(cvals[..], ch, k), Sample(line, ch), c + 1, NextSlot(m, k), k) {
      LaneTurns(before, cvals[..], line, c, m, k, rgb, ch);
    }
  }

  lemma {:induction false} LaneTurns(before: seq<real>, after: seq<real>, line: seq<word>, c: int, m: int, k: nat,
                                     rgb: word, ch: Channel)
    requires Rings(before, line, c, m, k) && |after| == |before| && 0 <= m < k
    requires rgb == if 0 <= c + 1 < |line| then line[c + 1] else 0
    requires var i := 4 * NextSlot(m, k);
      && after == before[i := Chan(rgb, Alpha) as real][i + 1 := Chan(rgb, Red) as real]
                        [i + 2 := Chan(rgb, Green) as real][i + 3 := Chan(rgb, Blue) as real]
    ensures Loaded(Lane(after, ch, k), Sample(line, ch), c + 1, NextSlot(m, k), k)
  {
    var x, m' := Sample(line, ch), NextSlot(m, k);
    RingTurns(Lane(before, ch, k), x, c, m, k);
    assert x(c + 1) == Chan(rgb, ch) as real;
    forall j | 0 <= j < k ensures Lane(after, ch, k)[j] == Lane(before, ch, k)[m' := x(c + 1)][j] {
      assert j != m' ==> after[Slot(j, ch)] == before[Slot(j, ch)];
    }
    assert Lane(after, ch, k) == Lane(before, ch, k)[m' := x(c + 1)];
  }

  lemma {:induction false} SumStep(cvals: seq<real>, kvals: seq<real>, k: nat, koff: int, n: nat, ch: Channel)
    requires 4 * k <= |cvals| && n < k && 0 <= koff && koff + k <= |kvals|
    ensures RingSum(Lane(cvals, ch, k), kvals, koff, n + 1)
         == RingSum(Lane(cvals, ch, k), kvals, koff, n) + Weigh(cvals[4 * n + Pick(0, 1, 2, 3, ch)], kvals[koff + n])
  {
  }

  /** The inner loop over the ring. */
  method Accumulate(cvals: array<real>, kvals: seq<real>, k: nat, koff: int)
    returns (suma: real, sumr: real, sumg: real, sumb: real)
    requires 4 * k <= cvals.Length && 0 <= koff && koff + k <= |kvals|
    ensures suma == RingSum(Lane(cvals[..], Alpha, k), kvals, koff, k)
    ensures sumr == RingSum(Lane(cvals[..], Red, k), kvals, koff, k)
    ensures sumg == RingSum(Lane(cvals[..], Green, k), kvals, koff, k)
    ensures sumb == RingSum(Lane(cvals[..], Blue, k), kvals, koff, k)
  {
    ghost var la, lr := Lane(cvals[..], Alpha, k), Lane(cvals[..], Red, k);
    ghost var lg, lb := Lane(cvals[..], Green, k), Lane(cvals[..], Blue, k);
    suma, sumr, sumg, sumb := 0.0, 0.0, 0.0, 0.0;
    var i := 0;
    ghost var n := 0;
    while i < k * 4
      invariant i == 4 * n && 0 <= n <= k
      invariant suma == RingSum(la, kvals, koff, n) && sumr == RingSum(lr, kvals, koff, n)
      invariant sumg == RingSum(lg, kvals, koff, n) && sumb == RingSum(lb, kvals, koff, n)
    {
      hide RingSum;
      hide Weigh;
      SumStep(cvals[..], kvals, k, koff, n, Alpha);
      SumStep(cvals[..], kvals, k, koff, n, Red);
      SumStep(cvals[..], kvals, k, koff, n, Green);
      SumStep(cvals[..], kvals, k, koff, n, Blue);
      var factor := kvals[koff + i / 4];
      suma := suma + Weigh(cvals[i], factor);
      sumr := sumr + Weigh(cvals[i + 1], factor);
      sumg := sumg + Weigh(cvals[i + 2], factor);
      sumb := sumb + Weigh(cvals[i + 3], factor);
      i, n := i + 4, n + 1;
    }
  }

  // ---------------------------------------------------------------------------------------------
  // The pass
  // ---------------------------------------------------------------------------------------------

  ghost predicate ConvArgs(dst: array<word>, src: array<word>, dl: Layout, sl: Layout) {
    dst != src && 0 <= dl.cols && 0 <= sl.cols && dl.rows == sl.rows && dl.Fits(dst.Length) && sl.Fits(src.Length)
  }

  /** The loaded ring gives the pixel of the direct convolution. */
  method RingPixel(cvals: array<real>, kvals: seq<real>, k: nat, koff: int,
                   ghost line: seq<word>, ghost c: int, ghost m: int) returns (p: word)
    requires Doubled(kvals, k) && Rings(cvals[..], line, c, m, k) && 0 <= m < k && koff == Koff(m, k)
    ensures p == ConvPixel(line, kvals, k, c)
  {
    var suma, sumr, sumg, sumb := Accumulate(cvals, kvals, k, koff);
    forall ch: Channel
      ensures RingSum(Lane(cvals[..], ch, k), kvals, koff, k) == Conv(Sample(line, ch), kvals, k, c)
    {
      RingIsConv(Lane(cvals[..], ch, k), Sample(line, ch), kvals, c, m, k);
    }
    p := Argb(ToByte(suma), ToByte(sumr), ToByte(sumg), ToByte(sumb));
  }

  /** One column: load its pixel, rotate the kernel, and read off the sums. */
  method Column(cvals: array<real>, kvals: seq<real>, k: nat, koff: int, rgb: word,
                ghost line: seq<word>, ghost c: int, ghost m: int) returns (p: word, koff': int)
    requires Doubled(kvals, k) && Rings(cvals[..], line, c - 1, m, k) && 0 <= m < k && koff == Koff(m, k)
    requires rgb == if 0 <= c < |line| then line[c] else 0
    modifies cvals
    ensures Rings(cvals[..], line, c, NextSlot(m, k), k) && koff' == Koff(NextSlot(m, k), k)
    ensures p == ConvPixel(line, kvals, k, c)
  {
    hide Rings;
    hide ConvPixel;
    Load(cvals, k, koff, rgb, line, c - 1, m);
    koff' := koff - 1;
    if koff' <= 0 {
      koff' := koff' + k;
    }
    p := RingPixel(cvals, kvals, k, koff', line, c, NextSlot(m, k));
  }

  /** The loop over the columns of line r. */
  method ConvLine(dst: array<word>, src: array<word>, cvals: array<real>, dl: Layout, sl: Layout, r: int,
                  dstrow: int, srcrow: int, kvals: seq<real>, k: nat, ghost base: seq<word>)
    requires ConvArgs(dst, src, dl, sl) && 0 <= r < dl.rows && 4 * k <= cvals.Length && Doubled(kvals, k)
    requires srcrow == sl.Cell(0, r) && dstrow == dl.Cell(0, r)
    requires SameOutside(dst[..], base, dl) && Painted(dst[..], dl, 0, r, ConvPass(src[..], sl, kvals, k))
    modifies dst, cvals
    ensures SameOutside(dst[..], base, dl) && Painted(dst[..], dl, 0, r + 1, ConvPass(src[..], sl, kvals, k))
  {
    hide Painted;
    hide SameOutside;
    hide Layout.Cell;
    hide Rings;
    hide ConvPixel;
    ghost var line, f := Line(src[..], sl, r), ConvPass(src[..], sl, kvals, k);
    var dstoff, srcoff := dstrow, srcrow;
    ghost var d0 := dst[..];
    Clear(cvals, k);
    assert dst[..] == d0;
    RingsStart(cvals[..], line, k);
    var koff, c := k, 0;
    ghost var m := k - 1;
    while c < dl.cols
      invariant 0 <= c <= dl.cols && srcoff == sl.Cell(c, r) && dstoff == dl.Cell(c, r)
      invariant 0 <= m < k && koff == Koff(m, k) && Rings(cvals[..], line, c - 1, m, k)
      invariant SameOutside(dst[..], base, dl) && Painted(dst[..], dl, c, r, f)
    {
      CellShift(sl, c, 0, r);
      CellShift(dl, c, 0, r);
      if c < sl.cols { LineAt(src[..], sl, c, r); }
      var rgb := if c < sl.cols then src[srcoff] else 0;
      var p;
      p, koff := Column(cvals, kvals, k, koff, rgb, line, c, m);
      m := NextSlot(m, k);
      PaintCell(dst[..], base, dl, c, r, f);
      ghost var d := dst[..];
      dst[dstoff] := p;
      assert dst[..] == d[dl.Cell(c, r) := f(c, r)];
      dstoff, srcoff, c := dstoff + dl.colinc, srcoff + sl.colinc, c + 1;
    }
    NextLine(dst[..], dl, r, f);
  }

  /** The part of the kernel array that is copied: an even number of values. */
  function Used(kernel: seq<real>): seq<real> {
    kernel[..|kernel| / 2 * 2]
  }

  /** SSELinearConvolvePeer.filterHV: draws the convolution of every line, or nothing at all when the
      kernel has more than 128 values. */
  method FilterHV(dst: array<word>, dstcols: int, dstrows: int, dcolinc: int, drowinc: int,
                  src: array<word>, srccols: int, srcrows: int, scolinc: int, srowinc: int, kernel: seq<real>)
    requires ConvArgs(dst, src, Layout(dstcols, dstrows, dcolinc, drowinc), Layout(srccols, dstrows, scolinc, srowinc))
    requires Doubled(Used(kernel), |kernel| / 2)
    modifies dst
    ensures |kernel| / 2 > 128 ==> dst[..] == old(dst[..])
    ensures |kernel| / 2 <= 128 ==>
      Drawn(dst[..], old(dst[..]), Layout(dstcols, dstrows, dcolinc, drowinc),
            ConvPass(src[..], Layout(srccols, dstrows, scolinc, srowinc), Used(kernel), |kernel| / 2))
  {
    var kernelSize := |kernel| / 2;
    if kernelSize > 128 {
      return;
    }
    var dl, sl := Layout(dstcols, dstrows, dcolinc, drowinc), Layout(srccols, dstrows, scolinc, srowinc);
    var kvals := kernel[..kernelSize * 2];
    ghost var base, f := dst[..], ConvPass(src[..], sl, kvals, kernelSize);
    var cvals := new real[128 * 4];
    var dstrow, srcrow, r := 0, 0, 0;
    while r < dstrows
      invariant 0 <= r && (0 <= dstrows ==> r <= dstrows)
      invariant srcrow == sl.Cell(0, r) && dstrow == dl.Cell(0, r)
      invariant SameOutside(dst[..], base, dl) && Painted(dst[..], dl, 0, r, f)
    {
      hide Painted;
      hide SameOutside;
      hide ConvPixel;
      hide Layout.Cell;
      CellStart(sl, r);
      CellStart(dl, r);
      ConvLine(dst, src, cvals, dl, sl, r, dstrow, srcrow, kvals, kernelSize, base);
      dstrow, srcrow, r := dstrow + drowinc, srcrow + srowinc, r + 1;
    }
  }

  // ---------------------------------------------------------------------------------------------
  // Premultiplied images
  // ---------------------------------------------------------------------------------------------

  /** A non-negative kernel keeps an image premultiplied. */
  lemma {:induction false} ConvKeepsPremultiplied(s: seq<word>, l: Layout, kvals: seq<real>, k: int, c: int, r: int)
    requires 1 <= k <= |kvals| && 0 <= l.cols && forall j | 0 <= j < k :: 0.0 <= kvals[j]
    requires forall i | 0 <= i < |s| :: Premultiplied(s[i])
    ensures Premultiplied(ConvPass(s, l, kvals, k)(c, r))
  {
    hide Conv;
    hide ConvPixel;
    hide ToByte;
    var line := Line(s, l, r);
    var p := ConvPixel(line, kvals, k, c);
    forall ch: Channel ensures Chan(p, ch) <= Chan(p, Alpha) {
      ChannelBelowAlpha(line, kvals, k, c, ch);
      ConvChannel(line, kvals, k, c, ch);
      ConvChannel(line, kvals, k, c, Alpha);
      ToByteMonotone(Conv(Sample(line, ch), kvals, k, c), Conv(Sample(line, Alpha), kvals, k, c));
    }
  }

  lemma {:induction false} ChannelBelowAlpha(line: seq<word>, kvals: seq<real>, k: int, c: int, ch: Channel)
    requires 1 <= k <= |kvals| && forall j | 0 <= j < k :: 0.0 <= kvals[j]
    requires forall i | 0 <= i < |line| :: Premultiplied(line[i])
    ensures Conv(Sample(line, ch), kvals, k, c) <= Conv(Sample(line, Alpha), kvals, k, c)
  {
    hide Terms;
    TermsMonotone(Sample(line, ch), Sample(line, Alpha), kvals, k, c, 0);
  }

  lemma {:induction false} ConvChannel(line: seq<word>, kvals: seq<real>, k: int, c: int, ch: Channel)
    requires 1 <= k <= |kvals|
    ensures Chan(ConvPixel(line, kvals, k, c), ch) == ToByte(Conv(Sample(line, ch), kvals, k, c))
  {
    UnpackPacked(ToByte(Conv(Sample(line, Alpha), kvals, k, c)), ToByte(Conv(Sample(line, Red), kvals, k, c)),
                 ToByte(Conv(Sample(line, Green), kvals, k, c)), ToByte(Conv(Sample(line, Blue), kvals, k, c)), ch);
  }

  /** What the filter writes: the sum with its fraction cut off, clamped to a byte; sums within 1/32 of 255 count as
      full. */
  lemma {:induction false} ConvCutsOff(s: seq<word>, l: Layout, kvals: seq<real>, k: int, c: int, r: int, ch: Channel)
    requires 1 <= k <= |kvals| && 0 <= l.cols
    ensures var sum := Conv(Sample(Line(s, l, r), ch), kvals, k, c);
      var level := Chan(ConvPass(s, l, kvals, k)(c, r), ch);
      && (sum < 0.0 ==> level == 0)
      && (0.0 <= sum <= 255.0 - 1.0 / 32.0 ==> level as real <= sum < level as real + 1.0)
      && (sum > 255.0 - 1.0 / 32.0 ==> level == 255)
  {
    ConvChannel(Line(s, l, r), kvals, k, c, ch);
    hide Conv;
    hide ConvPixel;
  }
}
