/** The two passes of SSEBoxBlurPeer.cc over whole images, proved against BoxBlur.BlurPixel. */
module BoxBlurPasses {
  import opened Words
  import opened Pixels
  import opened BoxWindow
  import opened BoxBlur
  import opened Canvas

  /** The four running sums of a line, before column x is added. */
  ghost predicate Running(line: seq<word>, size: int, x: int, a: int, r: int, g: int, b: int) {
    && a == Window(line, Alpha, size, x - 1) && r == Window(line, Red, size, x - 1)
    && g == Window(line, Green, size, x - 1) && b == Window(line, Blue, size, x - 1)
  }

  lemma {:induction false} RunningStarts(line: seq<word>, size: int)
    requires 1 <= size
    ensures Running(line, size, 0, 0, 0, 0, 0)
  {
    forall c: Channel ensures Window(line, c, size, -1) == 0 {
      SumOutside(line, c, -size, 0);
    }
  }

  /** Taking the pixel that leaves the window out of the sums and the one that enters it in. */
  lemma {:induction false} RunningSlides(line: seq<word>, size: int, x: int, a: int, r: int, g: int, b: int,
                                         leave: word, enter: word)
    requires 1 <= size && Running(line, size, x, a, r, g, b)
    requires leave == (if 0 <= x - size < |line| then line[x - size] else 0)
    requires enter == (if 0 <= x < |line| then line[x] else 0)
    ensures Running(line, size, x + 1,
                    a - Chan(leave, Alpha) + Chan(enter, Alpha), r - Chan(leave, Red) + Chan(enter, Red),
                    g - Chan(leave, Green) + Chan(enter, Green), b - Chan(leave, Blue) + Chan(enter, Blue))
  {
    forall c: Channel
      ensures Window(line, c, size, x) == Window(line, c, size, x - 1) - Chan(leave, c) + Chan(enter, c)
    {
      WindowSlides(line, c, size, x);
    }
  }

  /** Scale and shift the sums into a pixel; the products fit into a jint. */
  method Emit(ghost line: seq<word>, size: int, ghost x: int, kscale: nat, a: int, r: int, g: int, b: int)
    returns (p: word)
    requires 1 <= size && kscale == Kscale(size) && Running(line, size, x + 1, a, r, g, b)
    ensures p == BlurPixel(line, size, x)
  {
    ScaledFits(a, size);
    ScaledFits(r, size);
    ScaledFits(g, size);
    ScaledFits(b, size);
    p := Argb(a * kscale / HALF, r * kscale / HALF, g * kscale / HALF, b * kscale / HALF);
  }

  /** The picture a pass draws: every line of the source, blurred. */
  function BlurPass(s: seq<word>, l: Layout, size: int): Picture
    requires 1 <= size && 0 <= l.cols
  {
    (c, r) => BlurPixel(Line(s, l, r), size, c)
  }

  /** What both passes need: the lines of the destination are longer by the window, and the products of
      the running sums with the reciprocal fit into a jint. */
  ghost predicate PassArgs(dst: array<word>, src: array<word>, dl: Layout, sl: Layout) {
    && dst != src
    && 1 <= sl.cols <= dl.cols && dl.rows == sl.rows
    && 255 * (dl.cols - sl.cols + 1) <= MAX_INT
    && dl.Fits(dst.Length) && sl.Fits(src.Length)
  }

  /** The inner loop of filterHorizontal: line y of the image. */
  method BlurRow(dst: array<word>, src: array<word>, dl: Layout, sl: Layout, y: int, srcoff: int, dstoff: int,
                 hsize: int, kscale: nat, ghost base: seq<word>)
    requires PassArgs(dst, src, dl, sl) && dl.colinc == 1 == sl.colinc && 0 <= y < dl.rows
    requires srcoff == y * sl.rowinc && dstoff == y * dl.rowinc
    requires hsize == dl.cols - sl.cols + 1 && kscale == Kscale(hsize)
    requires SameOutside(dst[..], base, dl) && Painted(dst[..], dl, 0, y, BlurPass(src[..], sl, hsize))
    modifies dst
    ensures SameOutside(dst[..], base, dl) && Painted(dst[..], dl, 0, y + 1, BlurPass(src[..], sl, hsize))
  {
    hide Kscale;
    ghost var line, f := Line(src[..], sl, y), BlurPass(src[..], sl, hsize);
    RunningStarts(line, hsize);
    var suma, sumr, sumg, sumb := 0, 0, 0, 0;
    var x := 0;
    while x < dl.cols
      invariant 0 <= x <= dl.cols
      invariant Running(line, hsize, x, suma, sumr, sumg, sumb)
      invariant SameOutside(dst[..], base, dl) && Painted(dst[..], dl, x, y, f)
    {
      hide Running;
      hide BlurPixel;
      hide Painted;
      hide SameOutside;
      if x >= hsize { LineAt(src[..], sl, x - hsize, y); }
      var leave := if x >= hsize then src[srcoff + x - hsize] else 0;
      if x < sl.cols { LineAt(src[..], sl, x, y); }
      var enter := if x < sl.cols then src[srcoff + x] else 0;
      RunningSlides(line, hsize, x, suma, sumr, sumg, sumb, leave, enter);
      suma := suma - Chan(leave, Alpha) + Chan(enter, Alpha);
      sumr := sumr - Chan(leave, Red) + Chan(enter, Red);
      sumg := sumg - Chan(leave, Green) + Chan(enter, Green);
      sumb := sumb - Chan(leave, Blue) + Chan(enter, Blue);
      var p := Emit(line, hsize, x, kscale, suma, sumr, sumg, sumb);
      PaintCell(dst[..], base, dl, x, y, f);
      ghost var d := dst[..];
      dst[dstoff + x] := p;
      assert dst[..] == d[dl.Cell(x, y) := f(x, y)];
      x := x + 1;
    }
    NextLine(dst[..], dl, y, f);
  }

  /** SSEBoxBlurPeer.filterHorizontal: draws the blurred source lines and leaves the padding alone. */
  method FilterHorizontal(dst: array<word>, dstw: int, dsth: int, dstscan: int,
                          src: array<word>, srcw: int, srch: int, srcscan: int)
    requires PassArgs(dst, src, Layout(dstw, dsth, 1, dstscan), Layout(srcw, dsth, 1, srcscan))
    modifies dst
    ensures Drawn(dst[..], old(dst[..]), Layout(dstw, dsth, 1, dstscan),
                  BlurPass(src[..], Layout(srcw, dsth, 1, srcscan), dstw - srcw + 1))
  {
    var dl, sl := Layout(dstw, dsth, 1, dstscan), Layout(srcw, dsth, 1, srcscan);
    var hsize := dstw - srcw + 1;
    var kscale := MAX_INT / (hsize * 255);
    ghost var base, f := dst[..], BlurPass(src[..], sl, hsize);
    var srcoff, dstoff, y := 0, 0, 0;
    while y < dsth
      invariant 0 <= y && (0 <= dsth ==> y <= dsth)
      invariant srcoff == y * srcscan && dstoff == y * dstscan
      invariant SameOutside(dst[..], base, dl) && Painted(dst[..], dl, 0, y, f)
    {
      hide Painted;
      hide SameOutside;
      hide BlurPixel;
      hide Kscale;
      CellStart(sl, y);
      CellStart(dl, y);
      BlurRow(dst, src, dl, sl, y, srcoff, dstoff, hsize, kscale, base);
      srcoff, dstoff, y := srcoff + srcscan, dstoff + dstscan, y + 1;
    }
  }

  /** The test on flat offsets tells whether the window has filled up, for every column of the image. */
  lemma {:induction false} FlatTest(l: Layout, y: int, x: int, v: int)
    requires l.rowinc == 1 && 0 <= x < l.colinc
    ensures l.Cell(y, x) >= v * l.colinc <==> y >= v
  {
    if y >= v {
      MulLeq(v, y, l.colinc);
    } else {
      MulLeq(y + 1, v, l.colinc);
    }
  }

  /** The inner loop of filterVertical: column x of the image. */
  method BlurColumn(dst: array<word>, src: array<word>, dl: Layout, sl: Layout, x: int,
                    vsize: int, kscale: nat, voff: int, ghost base: seq<word>)
    requires PassArgs(dst, src, dl, sl) && dl.rowinc == 1 == sl.rowinc && 0 <= x < dl.rows <= sl.colinc
    requires vsize == dl.cols - sl.cols + 1 && kscale == Kscale(vsize) && voff == vsize * sl.colinc
    requires SameOutside(dst[..], base, dl) && Painted(dst[..], dl, 0, x, BlurPass(src[..], sl, vsize))
    modifies dst
    ensures SameOutside(dst[..], base, dl) && Painted(dst[..], dl, 0, x + 1, BlurPass(src[..], sl, vsize))
  {
    hide Kscale;
    ghost var line, f := Line(src[..], sl, x), BlurPass(src[..], sl, vsize);
    RunningStarts(line, vsize);
    var suma, sumr, sumg, sumb := 0, 0, 0, 0;
    var srcoff, dstoff, y := x, x, 0;
    CellStart(sl, x);
    CellStart(dl, x);
    while y < dl.cols
      invariant 0 <= y <= dl.cols && srcoff == sl.Cell(y, x) && dstoff == dl.Cell(y, x)
      invariant Running(line, vsize, y, suma, sumr, sumg, sumb)
      invariant SameOutside(dst[..], base, dl) && Painted(dst[..], dl, y, x, f)
    {
      hide Running;
      hide BlurPixel;
      hide Painted;
      hide SameOutside;
      hide Layout.Cell;
      FlatTest(sl, y, x, vsize);
      CellShift(sl, y, vsize, x);
      CellShift(dl, y, 0, x);
      if y >= vsize { LineAt(src[..], sl, y - vsize, x); }
      var leave := if srcoff >= voff then src[srcoff - voff] else 0;
      if y < sl.cols { LineAt(src[..], sl, y, x); }
      var enter := if y < sl.cols then src[srcoff] else 0;
      RunningSlides(line, vsize, y, suma, sumr, sumg, sumb, leave, enter);
      suma := suma - Chan(leave, Alpha) + Chan(enter, Alpha);
      sumr := sumr - Chan(leave, Red) + Chan(enter, Red);
      sumg := sumg - Chan(leave, Green) + Chan(enter, Green);
      sumb := sumb - Chan(leave, Blue) + Chan(enter, Blue);
      var p := Emit(line, vsize, y, kscale, suma, sumr, sumg, sumb);
      PaintCell(dst[..], base, dl, y, x, f);
      ghost var d := dst[..];
      dst[dstoff] := p;
      assert dst[..] == d[dl.Cell(y, x) := f(y, x)];
      srcoff, dstoff, y := srcoff + sl.colinc, dstoff + dl.colinc, y + 1;
    }
    NextLine(dst[..], dl, x, f);
  }

  /** SSEBoxBlurPeer.filterVertical: draws the blurred source columns and leaves the padding alone. */
  method FilterVertical(dst: array<word>, dstw: int, dsth: int, dstscan: int,
                        src: array<word>, srcw: int, srch: int, srcscan: int)
    requires PassArgs(dst, src, Layout(dsth, dstw, dstscan, 1), Layout(srch, dstw, srcscan, 1))
    requires dstw <= srcscan
    modifies dst
    ensures Drawn(dst[..], old(dst[..]), Layout(dsth, dstw, dstscan, 1),
                  BlurPass(src[..], Layout(srch, dstw, srcscan, 1), dsth - srch + 1))
  {
    var dl, sl := Layout(dsth, dstw, dstscan, 1), Layout(srch, dstw, srcscan, 1);
    var vsize := dsth - srch + 1;
    var kscale := MAX_INT / (vsize * 255);
    var voff := vsize * srcscan;
    ghost var base, f := dst[..], BlurPass(src[..], sl, vsize);
    var x := 0;
    while x < dstw
      invariant 0 <= x && (0 <= dstw ==> x <= dstw)
      invariant SameOutside(dst[..], base, dl) && Painted(dst[..], dl, 0, x, f)
    {
      hide Painted;
      hide SameOutside;
      hide BlurPixel;
      hide Kscale;
      BlurColumn(dst, src, dl, sl, x, vsize, kscale, voff, base);
      x := x + 1;
    }
  }

  /** A pass over a premultiplied image draws a premultiplied image. */
  lemma {:induction false} PassKeepsPremultiplied(s: seq<word>, l: Layout, size: int, c: int, r: int)
    requires 1 <= size && 0 <= l.cols && forall k | 0 <= k < |s| :: Premultiplied(s[k])
    ensures Premultiplied(BlurPass(s, l, size)(c, r))
  {
    BlurKeepsPremultiplied(Line(s, l, r), size, c);
  }

  /** Blurring the columns of a transposed image is blurring the lines of the image, transposed. */
  lemma {:induction false} VerticalIsTransposed(d: seq<word>, base: seq<word>, s: seq<word>,
                                                d': seq<word>, base': seq<word>, s': seq<word>,
                                                dl: Layout, sl: Layout, dl': Layout, sl': Layout, c: int, r: int)
    requires 1 <= sl.cols <= dl.cols && sl.cols == sl'.cols && dl.cols == dl'.cols
    requires dl.rows == dl'.rows == sl.rows == sl'.rows
    requires sl.Fits(|s|) && sl'.Fits(|s'|)
    requires forall i, j {:trigger sl.Inside(i, j)} | sl.Inside(i, j) ::
               0 <= sl.Cell(i, j) < |s| && 0 <= sl'.Cell(i, j) < |s'| && s[sl.Cell(i, j)] == s'[sl'.Cell(i, j)]
    requires Drawn(d, base, dl, BlurPass(s, sl, dl.cols - sl.cols + 1))
    requires Drawn(d', base', dl', BlurPass(s', sl', dl.cols - sl.cols + 1))
    requires dl.Inside(c, r)
    ensures 0 <= dl.Cell(c, r) < |d| && 0 <= dl'.Cell(c, r) < |d'| && d[dl.Cell(c, r)] == d'[dl'.Cell(c, r)]
  {
    hide BlurPixel;
    forall i | 0 <= i < sl.cols ensures Line(s, sl, r)[i] == Line(s', sl', r)[i] {
      assert sl.Inside(i, r) && sl'.Inside(i, r);
      LineAt(s, sl, i, r);
      LineAt(s', sl', i, r);
    }
    assert Line(s, sl, r) == Line(s', sl', r);
    assert dl'.Inside(c, r);
  }
}
