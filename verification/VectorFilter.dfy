/** SSELinearConvolvePeer.filterVector: convolution along an arbitrary direction, by sampling. */
module VectorFilter {
  import opened Words
  import opened Pixels
  import opened Canvas
  import opened Convolution
  import opened LinearConvolve
  import opened Sampling

  /** n steps from x. */
  function Along(x: real, n: int, step: real): real {
    x + n as real * step
  }

  lemma AlongStep(x: real, n: int, step: real)
    ensures Along(x, 0, step) == x
    ensures Along(x, n + 1, step) == Along(x, n, step) + step
  {
  }

  /** A position and a displacement. */
  datatype Vector = Vector(x: real, y: real)

  function NthSample(img: Raster, weights: seq<real>, start: Vector, delta: Vector, n: nat): PerChannel
    requires img.Valid() && n < |weights|
  {
    Scaled(img, Along(start.x, n, delta.x), Along(start.y, n, delta.y), weights[n])
  }

  /** The first n samples from `start` on, `delta` apart, weighted. */
  function VectorSum(img: Raster, weights: seq<real>, start: Vector, delta: Vector, n: nat, ch: Channel): real
    requires img.Valid() && n <= |weights|
  {
    if n == 0 then 0.0
    else VectorSum(img, weights, start, delta, n - 1, ch) + NthSample(img, weights, start, delta, n - 1)(ch)
  }

  function VectorSums(img: Raster, weights: seq<real>, start: Vector, delta: Vector, n: nat): PerChannel
    requires img.Valid() && n <= |weights|
  {
    ch => VectorSum(img, weights, start, delta, n, ch)
  }

  function VectorPixel(img: Raster, weights: seq<real>, start: Vector, delta: Vector): word
    requires img.Valid()
  {
    Argb(ToByte(VectorSum(img, weights, start, delta, |weights|, Alpha)),
         ToByte(VectorSum(img, weights, start, delta, |weights|, Red)),
         ToByte(VectorSum(img, weights, start, delta, |weights|, Green)),
         ToByte(VectorSum(img, weights, start, delta, |weights|, Blue)))
  }

  /** How the destination is laid over the source: its upper left corner and one step along and down. */
  datatype Mapping = Mapping(corner: Vector, col: Vector, row: Vector) {

    /** The centre of destination pixel (c, r). */
    function Centre(c: int, r: int): Vector {
      Vector(Along(Along(corner.x + (row.x + col.x) * 0.5, r, row.x), c, col.x),
             Along(Along(corner.y + (row.y + col.y) * 0.5, r, row.y), c, col.y))
    }
  }

  function VectorPass(img: Raster, weights: seq<real>, m: Mapping, offset: Vector, delta: Vector): Picture
    requires img.Valid()
  {
    (c, r) => var p := m.Centre(c, r); VectorPixel(img, weights, Vector(p.x + offset.x, p.y + offset.y), delta)
  }

  // ---------------------------------------------------------------------------------------------
  // The loops
  // ---------------------------------------------------------------------------------------------

  lemma {:induction false} SumsStep(img: Raster, weights: seq<real>, start: Vector, delta: Vector, n: nat)
    requires img.Valid() && n < |weights|
    ensures var zero := [0.0, 0.0, 0.0, 0.0];
      Plus(Plus(zero, VectorSums(img, weights, start, delta, n)),
           NthSample(img, weights, start, delta, n))
      == Plus(zero, VectorSums(img, weights, start, delta, n + 1))
  {
    hide NthSample;
  }

  /** The loop over the weights. */
  method SamplePixel(img: array<word>, w: int, h: int, scan: int, weights: seq<real>, start: Vector, delta: Vector)
    returns (p: word)
    requires Raster(img[..], w, h, scan).Valid()
    ensures p == VectorPixel(Raster(img[..], w, h, scan), weights, start, delta)
  {
    hide Bilinear;
    hide ToByte;
    ghost var raster := Raster(img[..], w, h, scan);
    var fvals := new real[4](_ => 0.0);
    var sampx, sampy, i := start.x, start.y, 0;
    while i < |weights|
      invariant 0 <= i <= |weights| && img[..] == raster.pixels
      invariant sampx == Along(start.x, i, delta.x) && sampy == Along(start.y, i, delta.y)
      invariant fvals[..] == Plus([0.0, 0.0, 0.0, 0.0], VectorSums(raster, weights, start, delta, i))
    {
      hide Along;
      hide VectorSum;
      hide Scaled;
      SumsStep(raster, weights, start, delta, i);
      AlongStep(start.x, i, delta.x);
      AlongStep(start.y, i, delta.y);
      LAccumSample(img, sampx, sampy, w, h, scan, weights[i], fvals);
      sampx, sampy, i := sampx + delta.x, sampy + delta.y, i + 1;
    }
    p := Argb(ToByte(fvals[FVAL_A]), ToByte(fvals[FVAL_R]), ToByte(fvals[FVAL_G]), ToByte(fvals[FVAL_B]));
  }

  /** The loop over the columns of line r; `start` is the centre of its first pixel. */
  method VectorLine(dst: array<word>, dl: Layout, src: array<word>, srcw: int, srch: int, srcscan: int, r: int,
                    dstrow: int, weights: seq<real>, start: Vector, m: Mapping, offset: Vector, delta: Vector,
                    ghost base: seq<word>)
    requires dst != src && 0 <= dl.cols && dl.colinc == 1 && dl.Fits(dst.Length) && 0 <= r < dl.rows
    requires Raster(src[..], srcw, srch, srcscan).Valid() && start == m.Centre(0, r) && dstrow == dl.Cell(0, r)
    requires SameOutside(dst[..], base, dl)
    requires Painted(dst[..], dl, 0, r, VectorPass(Raster(src[..], srcw, srch, srcscan), weights, m, offset, delta))
    modifies dst
    ensures SameOutside(dst[..], base, dl)
    ensures Painted(dst[..], dl, 0, r + 1, VectorPass(Raster(src[..], srcw, srch, srcscan), weights, m, offset, delta))
  {
    hide Painted;
    hide SameOutside;
    hide VectorPixel;
    hide Raster.Valid;
    hide Along;
    ghost var raster := Raster(src[..], srcw, srch, srcscan);
    ghost var f := VectorPass(raster, weights, m, offset, delta);
    var srcx, srcy, c := start.x, start.y, 0;
    while c < dl.cols
      invariant 0 <= c <= dl.cols && src[..] == raster.pixels
      invariant Vector(srcx, srcy) == m.Centre(c, r)
      invariant SameOutside(dst[..], base, dl) && Painted(dst[..], dl, c, r, f)
    {
      AlongStep(Along(m.corner.x + (m.row.x + m.col.x) * 0.5, r, m.row.x), c, m.col.x);
      AlongStep(Along(m.corner.y + (m.row.y + m.col.y) * 0.5, r, m.row.y), c, m.col.y);
      var p := SamplePixel(src, srcw, srch, srcscan, weights, Vector(srcx + offset.x, srcy + offset.y), delta);
      PaintCell(dst[..], base, dl, c, r, f);
      ghost var d := dst[..];
      dst[dstrow + c] := p;
      assert dst[..] == d[dl.Cell(c, r) := f(c, r)];
      srcx, srcy, c := srcx + m.col.x, srcy + m.col.y, c + 1;
    }
    NextLine(dst[..], dl, r, f);
  }

  /** SSELinearConvolvePeer.filterVector: draws the weighted samples along `delta`, or nothing at all when
      there are more than 128 weights. */
  method FilterVector(dst: array<word>, dstw: int, dsth: int, dstscan: int,
                      src: array<word>, srcw: int, srch: int, srcscan: int, weights: seq<real>, count: nat,
                      m: Mapping, offset: Vector, delta: Vector)
    requires dst != src && 0 <= dstw && Layout(dstw, dsth, 1, dstscan).Fits(dst.Length) && count <= |weights|
    requires Raster(src[..], srcw, srch, srcscan).Valid()
    modifies dst
    ensures count > 128 ==> dst[..] == old(dst[..])
    ensures count <= 128 ==>
      Drawn(dst[..], old(dst[..]), Layout(dstw, dsth, 1, dstscan),
            VectorPass(Raster(src[..], srcw, srch, srcscan), weights[..count], m, offset, delta))
  {
    if count > 128 {
      return;
    }
    var dl := Layout(dstw, dsth, 1, dstscan);
    ghost var raster := Raster(src[..], srcw, srch, srcscan);
    ghost var base, f := dst[..], VectorPass(raster, weights[..count], m, offset, delta);
    var srcx0, srcy0 := m.corner.x + (m.row.x + m.col.x) * 0.5, m.corner.y + (m.row.y + m.col.y) * 0.5;
    var dstrow, r := 0, 0;
    ghost var x0, y0 := srcx0, srcy0;
    while r < dsth
      invariant 0 <= r && (0 <= dsth ==> r <= dsth) && dstrow == dl.Cell(0, r) && src[..] == raster.pixels
      invariant srcx0 == Along(x0, r, m.row.x) && srcy0 == Along(y0, r, m.row.y)
      invariant SameOutside(dst[..], base, dl) && Painted(dst[..], dl, 0, r, f)
    {
      hide Painted;
      hide SameOutside;
      hide VectorPixel;
      hide Along;
      hide Layout.Cell;
      CellStart(dl, r);
      AlongStep(x0, r, m.row.x);
      AlongStep(y0, r, m.row.y);
      AlongStep(srcx0, 0, m.col.x);
      AlongStep(srcy0, 0, m.col.y);
      VectorLine(dst, dl, src, srcw, srch, srcscan, r, dstrow, weights[..count], Vector(srcx0, srcy0), m, offset,
                 delta, base);
      srcx0, srcy0 := srcx0 + m.row.x, srcy0 + m.row.y;
      dstrow, r := dstrow + dstscan, r + 1;
    }
  }

  // ---------------------------------------------------------------------------------------------
  // The sampling path and the ring-buffer path agree
  // ---------------------------------------------------------------------------------------------

  /** The destination lies on the source, pixel on pixel. */
  function Aligned(): Mapping {
    Mapping(Vector(0.0, 0.0), Vector(1.0, 0.0), Vector(0.0, 1.0))
  }

  /** The first n samples are the last n terms. */
  lemma {:induction false} UnitSteps(img: Raster, kvals: seq<real>, k: int, c: int, r: int, n: nat, ch: Channel)
    requires img.Valid() && 1 <= k <= |kvals| && n <= k && 0 <= r < img.h
    ensures VectorSum(img, kvals, Vector(c as real + 0.5 - (k - 1) as real, r as real + 0.5), Vector(1.0, 0.0), n, ch)
         == Terms(Sample(Line(img.pixels, img.Rows(), r), ch), kvals, k, c, k - n, k)
  {
    if n > 0 {
      hide NthSample;
      hide Term;
      UnitSteps(img, kvals, k, c, r, n - 1, ch);
      UnitSample(img, kvals, k, c, r, n - 1, ch);
    }
  }

  /** Sample i of destination column c is the centre of source column c - (k - 1) + i. */
  lemma {:induction false} UnitSample(img: Raster, kvals: seq<real>, k: int, c: int, r: int, i: nat, ch: Channel)
    requires img.Valid() && 1 <= k <= |kvals| && i < k && 0 <= r < img.h
    ensures NthSample(img, kvals, Vector(c as real + 0.5 - (k - 1) as real, r as real + 0.5), Vector(1.0, 0.0), i)(ch)
         == Term(Sample(Line(img.pixels, img.Rows(), r), ch), kvals, k, c, k - 1 - i)
  {
    hide Bilinear;
    hide Line;
    var x := c - (k - 1 - i);
    BilinearAtCentre(img, x, r, ch);
    assert Along(c as real + 0.5 - (k - 1) as real, i, 1.0) == x as real + 0.5;
    assert Along(r as real + 0.5, i, 0.0) == r as real + 0.5;
  }

  /** With unit steps and the samples starting k - 1 columns back, filterVector draws what filterHV draws,
      for every image and every kernel. */
  lemma {:induction false} VectorIsConv(img: Raster, kvals: seq<real>, k: int, c: int, r: int)
    requires img.Valid() && 1 <= k <= |kvals| && 0 <= r < img.h
    ensures VectorPass(img, kvals[..k], Aligned(), Vector(-(k - 1) as real, 0.0), Vector(1.0, 0.0))(c, r)
         == ConvPass(img.pixels, img.Rows(), kvals, k)(c, r)
  {
    hide VectorSum;
    hide Conv;
    hide ToByte;
    hide Argb;
    var start := Vector(c as real + 0.5 - (k - 1) as real, r as real + 0.5);
    assert Aligned().Centre(c, r) == Vector(c as real + 0.5, r as real + 0.5);
    forall ch: Channel
      ensures VectorSum(img, kvals[..k], start, Vector(1.0, 0.0), k, ch)
           == Conv(Sample(Line(img.pixels, img.Rows(), r), ch), kvals, k, c)
    {
      UnitSum(img, kvals, k, c, r, ch);
    }
  }

  lemma {:induction false} UnitSum(img: Raster, kvals: seq<real>, k: int, c: int, r: int, ch: Channel)
    requires img.Valid() && 1 <= k <= |kvals| && 0 <= r < img.h
    ensures VectorSum(img, kvals[..k], Vector(c as real + 0.5 - (k - 1) as real, r as real + 0.5), Vector(1.0, 0.0), k, ch)
         == Conv(Sample(Line(img.pixels, img.Rows(), r), ch), kvals, k, c)
  {
    hide VectorSum;
    hide Terms;
    UnitSteps(img, kvals[..k], k, c, r, k, ch);
    SameKernel(Sample(Line(img.pixels, img.Rows(), r), ch), kvals, k, c, 0);
  }

  lemma {:induction false} SameKernel(x: Signal, kvals: seq<real>, k: int, c: int, lo: nat)
    requires 1 <= k <= |kvals| && lo <= k
    ensures Terms(x, kvals[..k], k, c, lo, k) == Terms(x, kvals, k, c, lo, k)
    decreases k - lo
  {
    if lo < k {
      SameKernel(x, kvals, k, c, lo + 1);
    }
  }

  // ---------------------------------------------------------------------------------------------
  // The vertical direction
  // ---------------------------------------------------------------------------------------------

  /** Every destination pixel is sampled around the image of its centre. */
  lemma CentreIsMapped(m: Mapping, c: int, r: int)
    ensures m.Centre(c, r).x == m.corner.x + (c as real + 0.5) * m.col.x + (r as real + 0.5) * m.row.x
    ensures m.Centre(c, r).y == m.corner.y + (c as real + 0.5) * m.col.y + (r as real + 0.5) * m.row.y
  {
  }

  function Swap(v: Vector): Vector {
    Vector(v.y, v.x)
  }

  function SwapMapping(m: Mapping): Mapping {
    Mapping(Swap(m.corner), Swap(m.col), Swap(m.row))
  }

  lemma {:induction false} SumTransposed(img: Raster, img': Raster, weights: seq<real>, start: Vector, delta: Vector,
                                         n: nat, ch: Channel)
    requires img.Valid() && img'.Valid() && Transposed(img, img') && n <= |weights|
    ensures VectorSum(img', weights, Swap(start), Swap(delta), n, ch) == VectorSum(img, weights, start, delta, n, ch)
  {
    hide Bilinear;
    hide Transposed;
    hide Along;
    if n > 0 {
      SumTransposed(img, img', weights, start, delta, n - 1, ch);
      BilinearTransposed(img, img', Along(start.x, n - 1, delta.x), Along(start.y, n - 1, delta.y), ch);
    }
  }

  /** Exchanging the two directions of the image, of the mapping, of the offset and of the steps changes nothing. */
  lemma {:induction false} PassTransposed(img: Raster, img': Raster, weights: seq<real>, m: Mapping, offset: Vector,
                                          delta: Vector, c: int, r: int)
    requires img.Valid() && img'.Valid() && Transposed(img, img')
    ensures VectorPass(img', weights, SwapMapping(m), Swap(offset), Swap(delta))(c, r)
         == VectorPass(img, weights, m, offset, delta)(c, r)
  {
    hide VectorSum;
    hide Transposed;
    hide Along;
    hide ToByte;
    hide Argb;
    var p := m.Centre(c, r);
    var start := Vector(p.x + offset.x, p.y + offset.y);
    forall ch: Channel
      ensures VectorSum(img', weights, Swap(start), Swap(delta), |weights|, ch)
           == VectorSum(img, weights, start, delta, |weights|, ch)
    {
      SumTransposed(img, img', weights, start, delta, |weights|, ch);
    }
  }

  /** The columns of an image. */
  function Columns(img: Raster): Layout {
    Layout(img.h, img.w, img.scan, 1)
  }

  lemma {:induction false} ColumnPix(img: Raster, x: int, y: int, ch: Channel)
    requires img.Valid() && 0 <= x < img.w
    ensures img.Pix(x, y, ch) == Sample(Line(img.pixels, Columns(img), x), ch)(y)
  {
    if 0 <= y < img.h {
      LineAt(img.pixels, img.Rows(), x, y);
      assert Columns(img).Cell(y, x) == img.Rows().Cell(x, y);
    }
  }

  lemma {:induction false} UnitStepsDown(img: Raster, kvals: seq<real>, k: int, c: int, r: int, n: nat, ch: Channel)
    requires img.Valid() && 1 <= k <= |kvals| && n <= k && 0 <= c < img.w
    ensures VectorSum(img, kvals, Vector(c as real + 0.5, r as real + 0.5 - (k - 1) as real), Vector(0.0, 1.0), n, ch)
         == Terms(Sample(Line(img.pixels, Columns(img), c), ch), kvals, k, r, k - n, k)
  {
    if n > 0 {
      hide NthSample;
      hide Term;
      UnitStepsDown(img, kvals, k, c, r, n - 1, ch);
      UnitSampleDown(img, kvals, k, c, r, n - 1, ch);
    }
  }

  lemma {:induction false} UnitSampleDown(img: Raster, kvals: seq<real>, k: int, c: int, r: int, i: nat, ch: Channel)
    requires img.Valid() && 1 <= k <= |kvals| && i < k && 0 <= c < img.w
    ensures NthSample(img, kvals, Vector(c as real + 0.5, r as real + 0.5 - (k - 1) as real), Vector(0.0, 1.0), i)(ch)
         == Term(Sample(Line(img.pixels, Columns(img), c), ch), kvals, k, r, k - 1 - i)
  {
    hide Bilinear;
    hide Line;
    hide Raster.Pix;
    var y := r - (k - 1 - i);
    BilinearAtCentre(img, c, y, ch);
    ColumnPix(img, c, y, ch);
    hide Sample;
    assert Along(r as real + 0.5 - (k - 1) as real, i, 1.0) == y as real + 0.5;
    assert Along(c as real + 0.5, i, 0.0) == c as real + 0.5;
  }

  lemma {:induction false} UnitSumDown(img: Raster, kvals: seq<real>, k: int, c: int, r: int, ch: Channel)
    requires img.Valid() && 1 <= k <= |kvals| && 0 <= c < img.w
    ensures VectorSum(img, kvals[..k], Vector(c as real + 0.5, r as real + 0.5 - (k - 1) as real), Vector(0.0, 1.0), k, ch)
         == Conv(Sample(Line(img.pixels, Columns(img), c), ch), kvals, k, r)
  {
    hide VectorSum;
    hide Terms;
    UnitStepsDown(img, kvals[..k], k, c, r, k, ch);
    SameKernel(Sample(Line(img.pixels, Columns(img), c), ch), kvals, k, r, 0);
  }

  /** With unit steps downwards filterVector draws what filterHV draws along the columns, for every image and kernel. */
  lemma {:induction false} VectorIsConvDown(img: Raster, kvals: seq<real>, k: int, c: int, r: int)
    requires img.Valid() && 1 <= k <= |kvals| && 0 <= c < img.w
    ensures VectorPass(img, kvals[..k], Aligned(), Vector(0.0, -(k - 1) as real), Vector(0.0, 1.0))(c, r)
         == ConvPass(img.pixels, Columns(img), kvals, k)(r, c)
  {
    hide VectorSum;
    hide Conv;
    hide ToByte;
    hide Argb;
    var start := Vector(c as real + 0.5, r as real + 0.5 - (k - 1) as real);
    assert Aligned().Centre(c, r) == Vector(c as real + 0.5, r as real + 0.5);
    forall ch: Channel
      ensures VectorSum(img, kvals[..k], start, Vector(0.0, 1.0), k, ch)
           == Conv(Sample(Line(img.pixels, Columns(img), c), ch), kvals, k, r)
    {
      UnitSumDown(img, kvals, k, c, r, ch);
    }
  }
}
