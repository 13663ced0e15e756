/** The three passes of SSEBoxShadowPeer.cc over whole images.  They share two loops, one along lines and
    one along columns, that differ from the blur only in keeping the alpha sum alone. */
module BoxShadowPasses {
  import opened Words
  import opened Pixels
  import opened Canvas
  import opened BoxWindow
  import opened BoxBlur
  import opened BoxBlurPasses
  import opened BoxShadow

  /** The picture a pass draws: the alpha windows of every source line, painted. */
  function ShadowPass(s: seq<word>, l: Layout, size: int, paint: nat -> word): Picture
    requires 0 <= size && 0 <= l.cols
  {
    (c, r) => paint(Window(Line(s, l, r), Alpha, size, c))
  }

  function Black(amax: int): nat -> word
    requires 255 <= amax
  {
    sum => BlackPixel(sum, amax)
  }

  function Tinted(amax: int, colour: Colour): nat -> word
    requires 255 <= amax && colour.Valid()
  {
    sum => ColourPixel(sum, amax, colour)
  }

  /** The inner loop of filterHorizontalBlack: line y of the image. */
  method ShadowRow(dst: array<word>, src: array<word>, dl: Layout, sl: Layout, y: int, srcoff: int, dstoff: int,
                   hsize: int, paint: nat -> word, ghost base: seq<word>)
    requires PassArgs(dst, src, dl, sl) && dl.colinc == 1 == sl.colinc && 0 <= y < dl.rows
    requires srcoff == y * sl.rowinc && dstoff == y * dl.rowinc && hsize == dl.cols - sl.cols + 1
    requires SameOutside(dst[..], base, dl) && Painted(dst[..], dl, 0, y, ShadowPass(src[..], sl, hsize, paint))
    modifies dst
    ensures SameOutside(dst[..], base, dl) && Painted(dst[..], dl, 0, y + 1, ShadowPass(src[..], sl, hsize, paint))
  {
    ghost var line, f := Line(src[..], sl, y), ShadowPass(src[..], sl, hsize, paint);
    SumOutside(line, Alpha, -hsize, 0);
    var suma, x := 0, 0;
    while x < dl.cols
      invariant 0 <= x <= dl.cols
      invariant suma == Window(line, Alpha, hsize, x - 1)
      invariant SameOutside(dst[..], base, dl) && Painted(dst[..], dl, x, y, f)
    {
      hide Painted;
      hide SameOutside;
      hide Window;
      if x >= hsize { LineAt(src[..], sl, x - hsize, y); }
      var leave := if x >= hsize then src[srcoff + x - hsize] else 0;
      if x < sl.cols { LineAt(src[..], sl, x, y); }
      var enter := if x < sl.cols then src[srcoff + x] else 0;
      WindowSlides(line, Alpha, hsize, x);
      suma := suma - Chan(leave, Alpha) + Chan(enter, Alpha);
      PaintCell(dst[..], base, dl, x, y, f);
      ghost var d := dst[..];
      dst[dstoff + x] := paint(suma);
      assert dst[..] == d[dl.Cell(x, y) := f(x, y)];
      x := x + 1;
    }
    NextLine(dst[..], dl, y, f);
  }

  /** The inner loop of filterVerticalBlack and filterVertical: column x of the image. */
  method ShadowColumn(dst: array<word>, src: array<word>, dl: Layout, sl: Layout, x: int,
                      vsize: int, voff: int, paint: nat -> word, ghost base: seq<word>)
    requires PassArgs(dst, src, dl, sl) && dl.rowinc == 1 == sl.rowinc && 0 <= x < dl.rows <= sl.colinc
    requires vsize == dl.cols - sl.cols + 1 && voff == vsize * sl.colinc
    requires SameOutside(dst[..], base, dl) && Painted(dst[..], dl, 0, x, ShadowPass(src[..], sl, vsize, paint))
    modifies dst
    ensures SameOutside(dst[..], base, dl) && Painted(dst[..], dl, 0, x + 1, ShadowPass(src[..], sl, vsize, paint))
  {
    ghost var line, f := Line(src[..], sl, x), ShadowPass(src[..], sl, vsize, paint);
    SumOutside(line, Alpha, -vsize, 0);
    var suma, srcoff, dstoff, y := 0, x, x, 0;
    CellStart(sl, x);
    CellStart(dl, x);
    while y < dl.cols
      invariant 0 <= y <= dl.cols && srcoff == sl.Cell(y, x) && dstoff == dl.Cell(y, x)
      invariant suma == Window(line, Alpha, vsize, y - 1)
      invariant SameOutside(dst[..], base, dl) && Painted(dst[..], dl, y, x, f)
    {
      hide Painted;
      hide SameOutside;
      hide Window;
      hide Layout.Cell;
      FlatTest(sl, y, x, vsize);
      CellShift(sl, y, vsize, x);
      CellShift(dl, y, 0, x);
      if y >= vsize { LineAt(src[..], sl, y - vsize, x); }
      var leave := if srcoff >= voff then src[srcoff - voff] else 0;
      if y < sl.cols { LineAt(src[..], sl, y, x); }
      var enter := if y < sl.cols then src[srcoff] else 0;
      WindowSlides(line, Alpha, vsize, y);
      suma := suma - Chan(leave, Alpha) + Chan(enter, Alpha);
      PaintCell(dst[..], base, dl, y, x, f);
      ghost var d := dst[..];
      dst[dstoff] := paint(suma);
      assert dst[..] == d[dl.Cell(y, x) := f(y, x)];
      srcoff, dstoff, y := srcoff + sl.colinc, dstoff + dl.colinc, y + 1;
    }
    NextLine(dst[..], dl, x, f);
  }

  /** SSEBoxShadowPeer.filterHorizontalBlack */
  method FilterHorizontalBlack(dst: array<word>, dstw: int, dsth: int, dstscan: int,
                               src: array<word>, srcw: int, srch: int, srcscan: int, spread: real)
    requires PassArgs(dst, src, Layout(dstw, dsth, 1, dstscan), Layout(srcw, dsth, 1, srcscan))
    requires 0.0 <= spread <= 1.0
    modifies dst
    ensures var size := dstw - srcw + 1;
            Drawn(dst[..], old(dst[..]), Layout(dstw, dsth, 1, dstscan),
                  ShadowPass(src[..], Layout(srcw, dsth, 1, srcscan), size, Black(Amax(size, spread))))
  {
    var dl, sl := Layout(dstw, dsth, 1, dstscan), Layout(srcw, dsth, 1, srcscan);
    var hsize := dstw - srcw + 1;
    var paint := Black(Amax(hsize, spread));
    ghost var base, f := dst[..], ShadowPass(src[..], sl, hsize, paint);
    var srcoff, dstoff, y := 0, 0, 0;
    while y < dsth
      invariant 0 <= y && (0 <= dsth ==> y <= dsth)
      invariant srcoff == y * srcscan && dstoff == y * dstscan
      invariant SameOutside(dst[..], base, dl) && Painted(dst[..], dl, 0, y, f)
    {
      hide Painted;
      hide SameOutside;
      hide Window;
      CellStart(sl, y);
      CellStart(dl, y);
      ShadowRow(dst, src, dl, sl, y, srcoff, dstoff, hsize, paint, base);
      srcoff, dstoff, y := srcoff + srcscan, dstoff + dstscan, y + 1;
    }
  }

  /** The outer loop of both vertical passes. */
  method ShadowColumns(dst: array<word>, dstw: int, dsth: int, dstscan: int,
                       src: array<word>, srch: int, srcscan: int, paint: nat -> word)
    requires PassArgs(dst, src, Layout(dsth, dstw, dstscan, 1), Layout(srch, dstw, srcscan, 1)) && dstw <= srcscan
    modifies dst
    ensures Drawn(dst[..], old(dst[..]), Layout(dsth, dstw, dstscan, 1),
                  ShadowPass(src[..], Layout(srch, dstw, srcscan, 1), dsth - srch + 1, paint))
  {
    var dl, sl := Layout(dsth, dstw, dstscan, 1), Layout(srch, dstw, srcscan, 1);
    var vsize := dsth - srch + 1;
    var voff := vsize * srcscan;
    ghost var base, f := dst[..], ShadowPass(src[..], sl, vsize, paint);
    var x := 0;
    while x < dstw
      invariant 0 <= x && (0 <= dstw ==> x <= dstw)
      invariant SameOutside(dst[..], base, dl) && Painted(dst[..], dl, 0, x, f)
    {
      hide Painted;
      hide SameOutside;
      hide Window;
      ShadowColumn(dst, src, dl, sl, x, vsize, voff, paint, base);
      x := x + 1;
    }
  }

  /** SSEBoxShadowPeer.filterVerticalBlack */
  method FilterVerticalBlack(dst: array<word>, dstw: int, dsth: int, dstscan: int,
                             src: array<word>, srcw: int, srch: int, srcscan: int, spread: real)
    requires PassArgs(dst, src, Layout(dsth, dstw, dstscan, 1), Layout(srch, dstw, srcscan, 1)) && dstw <= srcscan
    requires 0.0 <= spread <= 1.0
    modifies dst
    ensures var size := dsth - srch + 1;
            Drawn(dst[..], old(dst[..]), Layout(dsth, dstw, dstscan, 1),
                  ShadowPass(src[..], Layout(srch, dstw, srcscan, 1), size, Black(Amax(size, spread))))
  {
    ShadowColumns(dst, dstw, dsth, dstscan, src, srch, srcscan, Black(Amax(dsth - srch + 1, spread)));
  }

  /** SSEBoxShadowPeer.filterVertical */
  method FilterVerticalTinted(dst: array<word>, dstw: int, dsth: int, dstscan: int,
                              src: array<word>, srcw: int, srch: int, srcscan: int, spread: real, colour: Colour)
    requires PassArgs(dst, src, Layout(dsth, dstw, dstscan, 1), Layout(srch, dstw, srcscan, 1)) && dstw <= srcscan
    requires 0.0 <= spread <= 1.0 && colour.Valid()
    modifies dst
    ensures var size := dsth - srch + 1;
            Drawn(dst[..], old(dst[..]), Layout(dsth, dstw, dstscan, 1),
                  ShadowPass(src[..], Layout(srch, dstw, srcscan, 1), size, Tinted(Amax(size, spread), colour)))
  {
    ShadowColumns(dst, dstw, dsth, dstscan, src, srch, srcscan, Tinted(Amax(dsth - srch + 1, spread), colour));
  }

  // ---------------------------------------------------------------------------------------------
  // Whole passes compared
  // ---------------------------------------------------------------------------------------------

  /** Without spread, a black shadow pass draws the alpha channel of the blur pass, for every image, whenever the
      reciprocal of the window size meets the condition of AgreeIff. */
  lemma {:induction false} ShadowIsBlurAlpha(s: seq<word>, l: Layout, size: int, c: int, r: int)
    requires 1 <= size && LikeBlur(size) && 0 <= l.cols
    ensures Chan(ShadowPass(s, l, size, Black(Amax(size, 0.0)))(c, r), Alpha)
         == Chan(BlurPass(s, l, size)(c, r), Alpha)
  {
    var sum := Window(Line(s, l, r), Alpha, size, c);
    NoSpread(size);
    AgreeIff(size);
    assert Agree(sum, size);
    BlurChannel(Line(s, l, r), size, c, Alpha);
    UnpackPacked(ShadowAlpha(sum, size * 255), 0, 0, 0, Alpha);
  }

  /** In particular for windows of at most 256 columns. */
  lemma {:induction false} SmallShadowIsBlurAlpha(s: seq<word>, l: Layout, size: int, c: int, r: int)
    requires 1 <= size <= 256 && 0 <= l.cols
    ensures Chan(ShadowPass(s, l, size, Black(Amax(size, 0.0)))(c, r), Alpha)
         == Chan(BlurPass(s, l, size)(c, r), Alpha)
  {
    SmallIsLikeBlur(size);
    ShadowIsBlurAlpha(s, l, size, c, r);
  }

  /** Tinting with opaque black draws what the black pass draws. */
  lemma {:induction false} TintedBlackIsBlack(s: seq<word>, l: Layout, size: int, spread: real, c: int, r: int)
    requires 1 <= size && 0 <= l.cols && 0.0 <= spread <= 1.0
    ensures ShadowPass(s, l, size, Tinted(Amax(size, spread), Colour(0.0, 0.0, 0.0, 1.0)))(c, r)
         == ShadowPass(s, l, size, Black(Amax(size, spread)))(c, r)
  {
    OpaqueBlackIsBlack(Window(Line(s, l, r), Alpha, size, c), Amax(size, spread));
  }

  /** More spread darkens every pixel of a black shadow or leaves it alone. */
  lemma {:induction false} SpreadDarkens(s: seq<word>, l: Layout, size: int, spread: real, spread': real, c: int, r: int)
    requires 1 <= size && 0 <= l.cols && 0.0 <= spread <= spread' <= 1.0
    ensures Chan(ShadowPass(s, l, size, Black(Amax(size, spread)))(c, r), Alpha)
         <= Chan(ShadowPass(s, l, size, Black(Amax(size, spread')))(c, r), Alpha)
  {
    var sum := Window(Line(s, l, r), Alpha, size, c);
    MoreSpread(sum, size, spread, spread');
    UnpackPacked(ShadowAlpha(sum, Amax(size, spread)), 0, 0, 0, Alpha);
    UnpackPacked(ShadowAlpha(sum, Amax(size, spread')), 0, 0, 0, Alpha);
  }

  /** A line with more alpha in every column has more alpha in every window. */
  lemma {:induction false} MoreAlpha(line: seq<word>, line': seq<word>, lo: int, hi: int)
    requires forall i | lo <= i < hi :: At(line, i, Alpha) <= At(line', i, Alpha)
    ensures Sum(line, Alpha, lo, hi) <= Sum(line', Alpha, lo, hi)
    decreases hi - lo
  {
    if lo < hi {
      MoreAlpha(line, line', lo, hi - 1);
    }
  }

  /** More alpha in every pixel of the source darkens every pixel of a black shadow or leaves it alone. */
  lemma {:induction false} CoverageDarkens(s: seq<word>, s': seq<word>, l: Layout, size: int, spread: real, c: int, r: int)
    requires 1 <= size && 0 <= l.cols && 0.0 <= spread <= 1.0
    requires |s| == |s'| && forall k | 0 <= k < |s| :: Chan(s[k], Alpha) <= Chan(s'[k], Alpha)
    ensures Chan(ShadowPass(s, l, size, Black(Amax(size, spread)))(c, r), Alpha)
         <= Chan(ShadowPass(s', l, size, Black(Amax(size, spread)))(c, r), Alpha)
  {
    var line, line', amax := Line(s, l, r), Line(s', l, r), Amax(size, spread);
    MoreAlpha(line, line', c - size + 1, c + 1);
    hide Amax;
    var sum, sum' := Window(line, Alpha, size, c), Window(line', Alpha, size, c);
    MoreCoverage(sum, sum', amax);
    UnpackPacked(ShadowAlpha(sum, amax), 0, 0, 0, Alpha);
    UnpackPacked(ShadowAlpha(sum', amax), 0, 0, 0, Alpha);
    hide Sum;
    hide ShadowAlpha;
  }

  /** A premultiplied colour casts premultiplied shadows over whole passes. */
  lemma {:induction false} TintedStaysPremultiplied(s: seq<word>, l: Layout, size: int, spread: real, colour: Colour,
                                                    c: int, r: int)
    requires 1 <= size && 0 <= l.cols && 0.0 <= spread <= 1.0 && colour.Valid() && colour.IsPremultiplied()
    ensures Premultiplied(ShadowPass(s, l, size, Tinted(Amax(size, spread), colour))(c, r))
  {
    ShadowPremultiplied(Window(Line(s, l, r), Alpha, size, c), Amax(size, spread), colour);
  }

  /** More alpha in every pixel of the source never lowers a channel of a coloured shadow that settles. */
  lemma {:induction false} CoverageDarkensTinted(s: seq<word>, s': seq<word>, l: Layout, size: int, spread: real,
                                                 colour: Colour, ch: Channel, c: int, r: int)
    requires 1 <= size && 0 <= l.cols && 0.0 <= spread <= 1.0 && colour.Valid()
    requires |s| == |s'| && forall k | 0 <= k < |s| :: Chan(s[k], Alpha) <= Chan(s'[k], Alpha)
    requires Settles(Amax(size, spread), PartFor(colour, ch))
    ensures Chan(ShadowPass(s, l, size, Tinted(Amax(size, spread), colour))(c, r), ch)
         <= Chan(ShadowPass(s', l, size, Tinted(Amax(size, spread), colour))(c, r), ch)
  {
    var line, line', amax := Line(s, l, r), Line(s', l, r), Amax(size, spread);
    MoreAlpha(line, line', c - size + 1, c + 1);
    var sum, sum' := Window(line, Alpha, size, c), Window(line', Alpha, size, c);
    ColourChannel(sum, amax, colour, ch);
    ColourChannel(sum', amax, colour, ch);
    TintCoverageIff(amax, PartFor(colour, ch));
    hide Sum;
    hide Amax;
    hide TintLevel;
    hide ColourPixel;
    hide Settles;
  }

  /** More spread never lowers a channel of a coloured shadow that settles. */
  lemma {:induction false} SpreadDarkensTinted(s: seq<word>, l: Layout, size: int, spread: real, spread': real,
                                               colour: Colour, ch: Channel, c: int, r: int)
    requires 1 <= size && 0 <= l.cols && 0.0 <= spread <= spread' <= 1.0 && colour.Valid()
    requires Settles(Amax(size, spread), PartFor(colour, ch))
    ensures Chan(ShadowPass(s, l, size, Tinted(Amax(size, spread), colour))(c, r), ch)
         <= Chan(ShadowPass(s, l, size, Tinted(Amax(size, spread'), colour))(c, r), ch)
  {
    var sum, amax, amax' := Window(Line(s, l, r), Alpha, size, c), Amax(size, spread), Amax(size, spread');
    AmaxShrinks(size, spread, spread');
    ColourChannel(sum, amax, colour, ch);
    ColourChannel(sum, amax', colour, ch);
    TintSpreadIff(amax, amax', PartFor(colour, ch));
    hide Amax;
    hide TintLevel;
    hide ColourPixel;
    hide Settles;
  }

  /** With full spread a pixel is opaque as soon as its window covers one full column. */
  lemma {:induction false} FullSpreadIsOpaque(s: seq<word>, l: Layout, size: int, c: int, r: int)
    requires 1 <= size && 0 <= l.cols
    ensures Amax(size, 1.0) == 255
    ensures Window(Line(s, l, r), Alpha, size, c) >= 255 ==>
      Chan(ShadowPass(s, l, size, Black(Amax(size, 1.0)))(c, r), Alpha) == 255
  {
    AmaxInterpolates(size, 1.0);
    UnpackPacked(ShadowAlpha(Window(Line(s, l, r), Alpha, size, c), 255), 0, 0, 0, Alpha);
    hide Amax;
  }

  /** The level of a pixel of the black pass. */
  lemma {:induction false} BlackLevel(s: seq<word>, l: Layout, size: int, amax: int, c: int, r: int)
    requires 1 <= size && 0 <= l.cols && 255 <= amax
    ensures Chan(ShadowPass(s, l, size, Black(amax))(c, r), Alpha)
         == ShadowAlpha(Window(Line(s, l, r), Alpha, size, c), amax)
  {
    hide Window;
    hide ShadowAlpha;
    UnpackPacked(ShadowAlpha(Window(Line(s, l, r), Alpha, size, c), amax), 0, 0, 0, Alpha);
  }

  lemma {:induction false} TintedLevel(s: seq<word>, l: Layout, size: int, amax: int, colour: Colour, ch: Channel,
                                       c: int, r: int)
    requires 1 <= size && 0 <= l.cols && 255 <= amax && colour.Valid()
    ensures Chan(ShadowPass(s, l, size, Tinted(amax, colour))(c, r), ch)
         == TintLevel(Window(Line(s, l, r), Alpha, size, c), amax, PartFor(colour, ch))
  {
    hide Window;
    hide TintLevel;
    hide ColourPixel;
    ColourChannel(Window(Line(s, l, r), Alpha, size, c), amax, colour, ch);
  }

  /** A black pass is transparent below a 255th of the coverage that counts as opaque, opaque from there on, and between
      the two it is the window sum on the scale up to it, within two levels. */
  lemma {:induction false} BlackIsScaled(s: seq<word>, l: Layout, size: int, spread: real, c: int, r: int)
    requires 1 <= size && 0 <= l.cols && 0.0 <= spread <= 1.0
    ensures var sum, amax := Window(Line(s, l, r), Alpha, size, c), Amax(size, spread);
      var level := Chan(ShadowPass(s, l, size, Black(amax))(c, r), Alpha) as int;
      && (sum < amax / 255 ==> level == 0) && (sum >= amax ==> level == 255)
      && (amax / 255 <= sum < amax <= HALF ==> level * amax <= 256 * sum && 255 * sum < (level + 2) * amax)
  {
    var sum, amax := Window(Line(s, l, r), Alpha, size, c), Amax(size, spread);
    hide Amax;
    hide Window;
    BlackLevel(s, l, size, amax, c, r);
    if amax / 255 <= sum < amax <= HALF {
      AlphaIsScaled(sum, amax);
    }
  }

  /** A coloured pass draws each component times the black pass, less than one level too much or two too little. */
  lemma {:induction false} TintedIsPart(s: seq<word>, l: Layout, size: int, spread: real, colour: Colour, ch: Channel,
                                        c: int, r: int)
    requires 1 <= size && 0 <= l.cols && 0.0 <= spread <= 1.0 && colour.Valid()
    requires Amax(size, spread) <= HALF
    ensures NearPart(Chan(ShadowPass(s, l, size, Tinted(Amax(size, spread), colour))(c, r), ch),
                     Chan(ShadowPass(s, l, size, Black(Amax(size, spread)))(c, r), Alpha), PartFor(colour, ch))
  {
    hide Amax;
    hide NearPart;
    hide ShadowPass;
    hide Black;
    hide Tinted;
    hide TintLevel;
    hide ShadowAlpha;
    hide Window;
    var sum, amax := Window(Line(s, l, r), Alpha, size, c), Amax(size, spread);
    BlackLevel(s, l, size, amax, c, r);
    TintedLevel(s, l, size, amax, colour, ch, c, r);
    TintIsNear(sum, amax, PartFor(colour, ch));
  }
}
