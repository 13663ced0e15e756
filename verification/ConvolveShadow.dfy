/** SSELinearConvolveShadowPeer.filterHV: the alpha channel convolved through a ring buffer, and the sum
    looked up in a table of 256 shadow colours. */
module ConvolveShadow {
  import opened Words
  import opened Reals
  import opened Pixels
  import opened Canvas
  import opened BoxShadow
  import opened Convolution
  import opened LinearConvolve

  /** The nearest integer, halves upwards. */
  function RoundHalfUp(x: real): int {
    (x + 0.5).Floor
  }

  function ClampByte(i: int): byte {
    if i < 0 then 0 else if i > 255 then 255 else i
  }

  /** `(int) (shadowColor[n] * i)` */
  function Part(i: byte, part: real): byte
    requires 0.0 <= part <= 1.0
  {
    PartOf(i, part);
    Trunc(i as real * part)
  }

  /** The shadow colour at coverage i of 255. */
  function Tint(colour: Colour, i: byte): word
    requires colour.Valid()
  {
    Argb(Part(i, colour.a), Part(i, colour.r), Part(i, colour.g), Part(i, colour.b))
  }

  /** The shadow of column c: the colour at the rounded convolution of the alpha channel. */
  function ShadowPixel(line: seq<word>, kvals: seq<real>, k: int, c: int, colour: Colour): word
    requires 1 <= k <= |kvals| && colour.Valid()
  {
    Tint(colour, ClampByte(RoundHalfUp(Conv(Sample(line, Alpha), kvals, k, c))))
  }

  function ShadowConvPass(s: seq<word>, l: Layout, kvals: seq<real>, k: int, colour: Colour): Picture
    requires 1 <= k <= |kvals| && 0 <= l.cols && colour.Valid()
  {
    (c, r) => ShadowPixel(Line(s, l, r), kvals, k, c, colour)
  }

  // ---------------------------------------------------------------------------------------------
  // The table
  // ---------------------------------------------------------------------------------------------

  ghost predicate IsTable(table: seq<word>, colour: Colour)
    requires colour.Valid()
  {
    |table| == 256 && forall i | 0 <= i < 256 :: table[i] == Tint(colour, i)
  }

  method FillTable(colour: Colour) returns (table: array<word>)
    requires colour.Valid()
    ensures fresh(table) && IsTable(table[..], colour)
  {
    table := new word[256];
    var i := 0;
    while i < 256
      invariant 0 <= i <= 256 && forall j | 0 <= j < i :: table[j] == Tint(colour, j)
    {
      table[i] := Tint(colour, i);
      i := i + 1;
    }
  }

  lemma TableAt(table: seq<word>, colour: Colour, i: byte)
    requires colour.Valid() && IsTable(table, colour)
    ensures |table| == 256 && table[i] == Tint(colour, i)
  {
  }

  lemma TintOfNothing(colour: Colour)
    requires colour.Valid()
    ensures Tint(colour, 0) == 0
  {
  }

  /** Starting half a unit low, the lookup needs no rounding step: cutting off the fraction and adding
      one rounds `sum` + 0.5 half up. */
  lemma HalfLow(sum: real)
    ensures sum < 0.0 ==> ClampByte(RoundHalfUp(sum + 0.5)) == 0
    ensures 0.0 <= sum < 254.0 ==> ClampByte(RoundHalfUp(sum + 0.5)) == Trunc(sum) + 1
    ensures 254.0 <= sum ==> ClampByte(RoundHalfUp(sum + 0.5)) == 255
  {
  }

  method LookUp(table: array<word>, sum: real, ghost colour: Colour) returns (p: word)
    requires colour.Valid() && IsTable(table[..], colour)
    ensures p == Tint(colour, ClampByte(RoundHalfUp(sum + 0.5)))
  {
    hide *;
    HalfLow(sum);
    TintOfNothing(colour);
    if sum < 0.0 {
      p := 0;
    } else if sum >= 254.0 {
      TableAt(table[..], colour, 255);
      p := table[255];
    } else {
      TableAt(table[..], colour, Trunc(sum) + 1);
      p := table[Trunc(sum) + 1];
    }
  }

  // ---------------------------------------------------------------------------------------------
  // The pass
  // ---------------------------------------------------------------------------------------------

  method ClearAlpha(avals: array<real>, k: nat)
    requires k <= avals.Length
    modifies avals
    ensures forall i | 0 <= i < k :: avals[i] == 0.0
  {
    var i := 0;
    while i < k
      invariant 0 <= i <= k && forall j | 0 <= j < i :: avals[j] == 0.0
    {
      avals[i] := 0.0;
      i := i + 1;
    }
  }

  /** The inner loop over the ring. */
  method AccumulateAlpha(avals: array<real>, kvals: seq<real>, k: nat, koff: int) returns (sum: real)
    requires k <= avals.Length && 0 <= koff && koff + k <= |kvals|
    ensures sum == RingSum(avals[..k], kvals, koff, k) - 0.5
  {
    sum := -0.5;
    var i := 0;
    while i < k
      invariant 0 <= i <= k && sum == RingSum(avals[..k], kvals, koff, i) - 0.5
    {
      sum := sum + Weigh(avals[i], kvals[koff + i]);
      i := i + 1;
    }
  }

  /** One column: load its alpha, rotate the kernel, add up and look up. */
  method ShadowStep(avals: array<real>, table: array<word>, kvals: seq<real>, k: nat, koff: int, rgb: word,
                    ghost colour: Colour, ghost line: seq<word>, ghost c: int, ghost m: int)
    returns (p: word, koff': int)
    requires colour.Valid() && IsTable(table[..], colour)
    requires Doubled(kvals, k) && k <= avals.Length && 0 <= m < k && koff == Koff(m, k)
    requires Loaded(avals[..k], Sample(line, Alpha), c - 1, m, k)
    requires rgb == if 0 <= c < |line| then line[c] else 0
    modifies avals
    ensures Loaded(avals[..k], Sample(line, Alpha), c, NextSlot(m, k), k) && koff' == Koff(NextSlot(m, k), k)
    ensures p == ShadowPixel(line, kvals, k, c, colour)
  {
    hide Tint;
    hide Loaded;
    hide Conv;
    hide RingSum;
    ghost var x, ring := Sample(line, Alpha), avals[..k];
    RingTurns(ring, x, c - 1, m, k);
    avals[k - koff] := Chan(rgb, Alpha) as real;
    assert avals[..k] == ring[NextSlot(m, k) := x(c)];
    koff' := koff - 1;
    if koff' <= 0 {
      koff' := koff' + k;
    }
    var sum := AccumulateAlpha(avals, kvals, k, koff');
    RingIsConv(avals[..k], x, kvals, c, NextSlot(m, k), k);
    p := LookUp(table, sum, colour);
  }

  /** The loop over the columns of line r. */
  method ShadowLine(dst: array<word>, src: array<word>, avals: array<real>, table: array<word>, dl: Layout, sl: Layout,
                    r: int, dstrow: int, srcrow: int, kvals: seq<real>, k: nat, colour: Colour, ghost base: seq<word>)
    requires ConvArgs(dst, src, dl, sl) && 0 <= r < dl.rows && k <= avals.Length && Doubled(kvals, k)
    requires dst != table && colour.Valid() && IsTable(table[..], colour)
    requires srcrow == sl.Cell(0, r) && dstrow == dl.Cell(0, r)
    requires SameOutside(dst[..], base, dl)
    requires Painted(dst[..], dl, 0, r, ShadowConvPass(src[..], sl, kvals, k, colour))
    modifies dst, avals
    ensures SameOutside(dst[..], base, dl)
    ensures Painted(dst[..], dl, 0, r + 1, ShadowConvPass(src[..], sl, kvals, k, colour))
  {
    hide Painted;
    hide SameOutside;
    hide Layout.Cell;
    hide Loaded;
    hide ShadowPixel;
    hide IsTable;
    ghost var line, f := Line(src[..], sl, r), ShadowConvPass(src[..], sl, kvals, k, colour);
    var dstoff, srcoff := dstrow, srcrow;
    ghost var d0 := dst[..];
    ClearAlpha(avals, k);
    assert dst[..] == d0;
    RingStarts(avals[..k], Sample(line, Alpha), k);
    var koff, c := k, 0;
    ghost var m := k - 1;
    while c < dl.cols
      invariant 0 <= c <= dl.cols && srcoff == sl.Cell(c, r) && dstoff == dl.Cell(c, r)
      invariant 0 <= m < k && koff == Koff(m, k) && Loaded(avals[..k], Sample(line, Alpha), c - 1, m, k)
      invariant SameOutside(dst[..], base, dl) && Painted(dst[..], dl, c, r, f)
    {
      CellShift(sl, c, 0, r);
      CellShift(dl, c, 0, r);
      if c < sl.cols { LineAt(src[..], sl, c, r); }
      var rgb := if c < sl.cols then src[srcoff] else 0;
      var p;
      p, koff := ShadowStep(avals, table, kvals, k, koff, rgb, colour, line, c, m);
      m := NextSlot(m, k);
      PaintCell(dst[..], base, dl, c, r, f);
      ghost var d := dst[..];
      dst[dstoff] := p;
      assert dst[..] == d[dl.Cell(c, r) := f(c, r)];
      dstoff, srcoff, c := dstoff + dl.colinc, srcoff + sl.colinc, c + 1;
    }
    NextLine(dst[..], dl, r, f);
  }

  /** SSELinearConvolveShadowPeer.filterHV */
  method ShadowHV(dst: array<word>, dstcols: int, dstrows: int, dcolinc: int, drowinc: int,
                  src: array<word>, srccols: int, srcrows: int, scolinc: int, srowinc: int,
                  kernel: seq<real>, colour: Colour)
    requires ConvArgs(dst, src, Layout(dstcols, dstrows, dcolinc, drowinc), Layout(srccols, dstrows, scolinc, srowinc))
    requires Doubled(Used(kernel), |kernel| / 2) && colour.Valid()
    modifies dst
    ensures |kernel| / 2 > 128 ==> dst[..] == old(dst[..])
    ensures |kernel| / 2 <= 128 ==>
      Drawn(dst[..], old(dst[..]), Layout(dstcols, dstrows, dcolinc, drowinc),
            ShadowConvPass(src[..], Layout(srccols, dstrows, scolinc, srowinc), Used(kernel), |kernel| / 2, colour))
  {
    var kernelSize := |kernel| / 2;
    if kernelSize > 128 {
      return;
    }
    var table := FillTable(colour);
    var dl, sl := Layout(dstcols, dstrows, dcolinc, drowinc), Layout(srccols, dstrows, scolinc, srowinc);
    var kvals := kernel[..kernelSize * 2];
    ghost var base, f := dst[..], ShadowConvPass(src[..], sl, kvals, kernelSize, colour);
    var avals := new real[128];
    var dstrow, srcrow, r := 0, 0, 0;
    while r < dstrows
      invariant 0 <= r && (0 <= dstrows ==> r <= dstrows)
      invariant srcrow == sl.Cell(0, r) && dstrow == dl.Cell(0, r) && IsTable(table[..], colour)
      invariant SameOutside(dst[..], base, dl) && Painted(dst[..], dl, 0, r, f)
    {
      hide Painted;
      hide SameOutside;
      hide IsTable;
      hide ShadowPixel;
      hide Layout.Cell;
      CellStart(sl, r);
      CellStart(dl, r);
      ShadowLine(dst, src, avals, table, dl, sl, r, dstrow, srcrow, kvals, kernelSize, colour, base);
      dstrow, srcrow, r := dstrow + drowinc, srcrow + srowinc, r + 1;
    }
  }

  // ---------------------------------------------------------------------------------------------
  // What the shadow looks like
  // ---------------------------------------------------------------------------------------------

  /** A premultiplied colour casts premultiplied shadows, whatever the image and the kernel. */
  lemma {:induction false} ShadowStaysPremultiplied(s: seq<word>, l: Layout, kvals: seq<real>, k: int, colour: Colour,
                                                    c: int, r: int)
    requires 1 <= k <= |kvals| && 0 <= l.cols && colour.Valid() && colour.IsPremultiplied()
    ensures Premultiplied(ShadowConvPass(s, l, kvals, k, colour)(c, r))
  {
    TintPremultiplied(colour, ClampByte(RoundHalfUp(Conv(Sample(Line(s, l, r), Alpha), kvals, k, c))));
  }

  lemma PartsInOrder(i: byte, part: real, part': real)
    requires 0.0 <= part <= part' <= 1.0
    ensures Part(i, part) <= Part(i, part')
  {
    hide Trunc;
    PartsOrdered(i, part, part');
  }

  lemma TintPremultiplied(colour: Colour, i: byte)
    requires colour.Valid() && colour.IsPremultiplied()
    ensures Premultiplied(Tint(colour, i))
  {
    hide Part;
    hide Argb;
    hide Chan;
    PartsInOrder(i, colour.r, colour.a);
    PartsInOrder(i, colour.g, colour.a);
    PartsInOrder(i, colour.b, colour.a);
    PackedPremultiplied(Part(i, colour.a), Part(i, colour.r), Part(i, colour.g), Part(i, colour.b));
  }

  /** Opaque black: the shadow's alpha rounds where the filter cuts off, so it is the filter's alpha or
      one more. */
  lemma {:induction false} BlackShadowNearFilter(s: seq<word>, l: Layout, kvals: seq<real>, k: int, c: int, r: int)
    requires 1 <= k <= |kvals| && 0 <= l.cols
    ensures var shadow := Chan(ShadowConvPass(s, l, kvals, k, Colour(0.0, 0.0, 0.0, 1.0))(c, r), Alpha);
            var filtered := Chan(ConvPass(s, l, kvals, k)(c, r), Alpha);
            filtered <= shadow <= filtered + 1
  {
    var sum := Conv(Sample(Line(s, l, r), Alpha), kvals, k, c);
    var i := ClampByte(RoundHalfUp(sum));
    ConvChannel(Line(s, l, r), kvals, k, c, Alpha);
    TruncOfInt(i, i as real * 1.0);
    UnpackPacked(Part(i, 1.0), Part(i, 0.0), Part(i, 0.0), Part(i, 0.0), Alpha);
    assert ToByte(sum) <= i <= ToByte(sum) + 1;
  }

  /** The level at which the shadow is drawn is the nearest one to the convolution, halves upwards. */
  function Level(s: seq<word>, l: Layout, kvals: seq<real>, k: int, c: int, r: int): byte
    requires 1 <= k <= |kvals| && 0 <= l.cols
  {
    ClampByte(RoundHalfUp(Conv(Sample(Line(s, l, r), Alpha), kvals, k, c)))
  }

  lemma {:induction false} LevelIsNearest(s: seq<word>, l: Layout, kvals: seq<real>, k: int, c: int, r: int)
    requires 1 <= k <= |kvals| && 0 <= l.cols
    ensures var sum, level := Conv(Sample(Line(s, l, r), Alpha), kvals, k, c), Level(s, l, kvals, k, c, r);
      && (sum < 0.0 ==> level == 0) && (sum > 255.0 ==> level == 255)
      && (0.0 <= sum <= 255.0 ==> level as real - 0.5 <= sum < level as real + 0.5)
  {
    hide Conv;
  }

  /** Each channel is its component times the level, with the fraction cut off. */
  lemma {:induction false} ShadowIsTinted(s: seq<word>, l: Layout, kvals: seq<real>, k: int, colour: Colour,
                                          c: int, r: int, ch: Channel)
    requires 1 <= k <= |kvals| && 0 <= l.cols && colour.Valid()
    ensures CutOff(Chan(ShadowConvPass(s, l, kvals, k, colour)(c, r), ch), PartFor(colour, ch), Level(s, l, kvals, k, c, r))
  {
    var i := Level(s, l, kvals, k, c, r);
    hide Conv;
    hide RoundHalfUp;
    hide ClampByte;
    hide CutOff;
    hide Tint;
    TintChannel(colour, i, ch);
    PartCutsOff(i, PartFor(colour, ch));
  }

  /** `drawn` is the part of the level, with the fraction cut off. */
  predicate CutOff(drawn: byte, part: real, level: byte) {
    drawn as real <= part * level as real < drawn as real + 1.0
  }

  lemma {:induction false} TintChannel(colour: Colour, i: byte, ch: Channel)
    requires colour.Valid()
    ensures Chan(Tint(colour, i), ch) == Part(i, PartFor(colour, ch))
  {
    hide Part;
    hide Argb;
    hide Chan;
    UnpackPacked(Part(i, colour.a), Part(i, colour.r), Part(i, colour.g), Part(i, colour.b), ch);
  }

  lemma PartCutsOff(i: byte, part: real)
    requires 0.0 <= part <= 1.0
    ensures CutOff(Part(i, part), part, i)
  {
    RealPart(i as real, part);
  }
}
