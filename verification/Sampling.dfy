/** The samplers of SSEUtils.cc: bilinear interpolation with the image edges folded into branches. */
module Sampling {
  import opened Words
  import opened Reals
  import opened Pixels
  import opened Canvas
  import opened BoxWindow
  import opened Convolution

  /** A w by h image in a flat array whose lines are `scan` apart. */
  datatype Raster = Raster(pixels: seq<word>, w: int, h: int, scan: int) {
    function Rows(): Layout {
      Layout(w, h, 1, scan)
    }

    predicate Valid() {
      0 <= w && 0 <= h && Rows().Fits(|pixels|)
    }

    /** The image extended with zero in every direction. */
    function Pix(x: int, y: int, ch: Channel): real
      requires Valid()
    {
      if 0 <= y < h then At(Line(pixels, Rows(), y), x, ch) as real else 0.0
    }
  }

  /** Four values in the proportions (1 - fx) : fx and (1 - fy) : fy. */
  function Mix(al: real, ar: real, bl: real, br: real, fx: real, fy: real): real {
    (1.0 - fy) * ((1.0 - fx) * al + fx * ar) + fy * ((1.0 - fx) * bl + fx * br)
  }

  /** The four pixels around a point, (x, y) being the one above and left of it. */
  function Blend(img: Raster, x: int, y: int, fx: real, fy: real, ch: Channel): real
    requires img.Valid()
  {
    Mix(img.Pix(x, y, ch), img.Pix(x + 1, y, ch), img.Pix(x, y + 1, ch), img.Pix(x + 1, y + 1, ch), fx, fy)
  }

  /** Bilinear interpolation; pixel (i, j) has its centre at (i + 0.5, j + 0.5). */
  function Bilinear(img: Raster, x: real, y: real, ch: Channel): real
    requires img.Valid()
  {
    var u, v := x - 0.5, y - 0.5;
    Blend(img, u.Floor, v.Floor, u - u.Floor as real, v - v.Floor as real, ch)
  }

  /** At the centre of a pixel the interpolation is that pixel. */
  lemma BilinearAtCentre(img: Raster, i: int, j: int, ch: Channel)
    requires img.Valid()
    ensures Bilinear(img, i as real + 0.5, j as real + 0.5, ch) == img.Pix(i, j, ch)
  {
    hide Raster.Pix;
    assert (i as real).Floor == i && (j as real).Floor == j;
  }

  /** Between centres the interpolation is linear in both directions: where the four pixels around a point lie on a
      plane, it lies on it too. */
  lemma AffineIsReproduced(img: Raster, x: real, y: real, ch: Channel, a: real, b: real, c: real)
    requires img.Valid()
    requires var i, j := (x - 0.5).Floor, (y - 0.5).Floor;
      forall p, q | i <= p <= i + 1 && j <= q <= j + 1 :: img.Pix(p, q, ch) == Plane(a, b, c, p as real, q as real)
    ensures Bilinear(img, x, y, ch) == Plane(a, b, c, x - 0.5, y - 0.5)
  {
    hide Raster.Pix;
    var i, j := (x - 0.5).Floor, (y - 0.5).Floor;
    var fx, fy := x - 0.5 - i as real, y - 0.5 - j as real;
    assert img.Pix(i, j, ch) == Plane(a, b, c, i as real, j as real);
    assert img.Pix(i + 1, j, ch) == Plane(a, b, c, (i + 1) as real, j as real);
    assert img.Pix(i, j + 1, ch) == Plane(a, b, c, i as real, (j + 1) as real);
    assert img.Pix(i + 1, j + 1, ch) == Plane(a, b, c, (i + 1) as real, (j + 1) as real);
    MixOfPlane(a, b, c, i as real, j as real, fx, fy);
    hide Mix;
    hide Plane;
  }

  function Plane(a: real, b: real, c: real, x: real, y: real): real {
    a + b * x + c * y
  }

  lemma MixOfPlane(a: real, b: real, c: real, i: real, j: real, fx: real, fy: real)
    ensures Mix(Plane(a, b, c, i, j), Plane(a, b, c, i + 1.0, j), Plane(a, b, c, i, j + 1.0),
                Plane(a, b, c, i + 1.0, j + 1.0), fx, fy)
         == Plane(a, b, c, i + fx, j + fy)
  {
    var d := Plane(a, b, c, i, j);
    assert Plane(a, b, c, i + 1.0, j) == d + b && Plane(a, b, c, i, j + 1.0) == d + c;
    assert Plane(a, b, c, i + 1.0, j + 1.0) == d + b + c;
    assert (1.0 - fx) * d + fx * (d + b) == d + fx * b;
    assert (1.0 - fx) * (d + c) + fx * (d + b + c) == d + c + fx * b;
    var e := d + fx * b;
    assert (1.0 - fy) * e + fy * (e + c) == e + fy * c;
  }

  /** Exchanging the two directions of the image exchanges those of the point. */
  lemma BilinearTransposed(img: Raster, img': Raster, x: real, y: real, ch: Channel)
    requires img.Valid() && img'.Valid() && Transposed(img, img')
    ensures Bilinear(img', y, x, ch) == Bilinear(img, x, y, ch)
  {
    hide Raster.Pix;
    var i, j := (x - 0.5).Floor, (y - 0.5).Floor;
    MixTransposed(img.Pix(i, j, ch), img.Pix(i + 1, j, ch), img.Pix(i, j + 1, ch), img.Pix(i + 1, j + 1, ch),
                  x - 0.5 - i as real, y - 0.5 - j as real);
    assert img'.Pix(j, i, ch) == img.Pix(i, j, ch) && img'.Pix(j + 1, i, ch) == img.Pix(i, j + 1, ch);
    assert img'.Pix(j, i + 1, ch) == img.Pix(i + 1, j, ch) && img'.Pix(j + 1, i + 1, ch) == img.Pix(i + 1, j + 1, ch);
    hide Mix;
  }

  lemma MixTransposed(al: real, ar: real, bl: real, br: real, fx: real, fy: real)
    ensures Mix(al, ar, bl, br, fx, fy) == Mix(al, bl, ar, br, fy, fx)
  {
  }

  ghost predicate Transposed(img: Raster, img': Raster)
    requires img.Valid() && img'.Valid()
  {
    forall x, y, ch :: img'.Pix(y, x, ch) == img.Pix(x, y, ch)
  }

  // ---------------------------------------------------------------------------------------------
  // Accumulating
  // ---------------------------------------------------------------------------------------------

  type PerChannel = Channel -> real

  const FVAL_R := 0
  const FVAL_G := 1
  const FVAL_B := 2
  const FVAL_A := 3

  function Fval(ch: Channel): (i: nat)
    ensures i < 4
  {
    Pick(FVAL_A, FVAL_R, FVAL_G, FVAL_B, ch)
  }

  /** Every accumulator increased by the value for its channel. */
  function Plus(f: seq<real>, v: PerChannel): (g: seq<real>)
    requires |f| == 4
    ensures |g| == 4
  {
    [f[0] + v(Red), f[1] + v(Green), f[2] + v(Blue), f[3] + v(Alpha)]
  }

  function Weighted(pixel: word, mul: real): PerChannel {
    ch => Weigh(Chan(pixel, ch) as real, mul)
  }

  method LAccum(pixel: word, mul: real, fvals: array<real>)
    requires fvals.Length == 4
    modifies fvals
    ensures fvals[..] == Plus(old(fvals[..]), Weighted(pixel, mul / 255.0))
  {
    var m := mul / 255.0;
    fvals[FVAL_R] := fvals[FVAL_R] + Weigh(Chan(pixel, Red) as real, m);
    fvals[FVAL_G] := fvals[FVAL_G] + Weigh(Chan(pixel, Green) as real, m);
    fvals[FVAL_B] := fvals[FVAL_B] + Weigh(Chan(pixel, Blue) as real, m);
    fvals[FVAL_A] := fvals[FVAL_A] + Weigh(Chan(pixel, Alpha) as real, m);
  }

  /** What one corner contributes; nothing outside the image. */
  function Corner(img: Raster, x: int, y: int, mul: real): PerChannel
    requires img.Valid()
  {
    ch => Weigh(img.Pix(x, y, ch), mul)
  }

  lemma CornerInside(img: Raster, x: int, y: int, mul: real, f: seq<real>)
    requires img.Valid() && 0 <= x < img.w && 0 <= y < img.h && |f| == 4
    ensures 0 <= y * img.scan + x < |img.pixels|
    ensures Plus(f, Weighted(img.pixels[y * img.scan + x], mul)) == Plus(f, Corner(img, x, y, mul))
  {
    hide Weigh;
    LineAt(img.pixels, img.Rows(), x, y);
  }

  lemma CornerOutside(img: Raster, x: int, y: int, mul: real, f: seq<real>)
    requires img.Valid() && !(0 <= x < img.w && 0 <= y < img.h) && |f| == 4
    ensures Plus(f, Corner(img, x, y, mul)) == f
  {
    assert forall ch :: Corner(img, x, y, mul)(ch) == 0.0;
  }

  /** The multipliers of the four corners: below right, below left, above right, above left. */
  datatype Weights = Weights(br: real, bl: real, ar: real, al: real)

  /** The multipliers at a point that lies fx to the right of and fy below the pixel above left. */
  function WeightsAt(fx: real, fy: real, factor: real): Weights {
    var fract := fx * fy;
    Weights(fract * factor, (fy - fract) * factor, (fx - fract) * factor, (1.0 - fx - fy + fract) * factor)
  }

  /** The corner weights are non-negative and add up to one. */
  lemma WeightsArePartition(fx: real, fy: real)
    requires 0.0 <= fx < 1.0 && 0.0 <= fy < 1.0
    ensures var k := WeightsAt(fx, fy, 1.0);
      0.0 <= k.br && 0.0 <= k.bl && 0.0 <= k.ar && 0.0 <= k.al && k.br + k.bl + k.ar + k.al == 1.0
  {
    var gx, gy := 1.0 - fx, 1.0 - fy;
    RealMulNonNeg(fx, fy);
    RealMulNonNeg(fx, gy);
    RealMulNonNeg(gx, fy);
    RealMulNonNeg(gx, gy);
    assert fx * gy == fx - fx * fy && gx * fy == fy - fx * fy;
    assert gx * gy == 1.0 - fx - fy + fx * fy;
  }

  /** The four corners together, in the order in which they are added. */
  function Corners(f: seq<real>, img: Raster, x: int, y: int, k: Weights): (g: seq<real>)
    requires img.Valid() && |f| == 4
    ensures |g| == 4
  {
    Pair(Pair(f, img, x, y, k.br, k.bl), img, x, y - 1, k.ar, k.al)
  }

  /** The two corners in line y. */
  function Pair(f: seq<real>, img: Raster, x: int, y: int, right: real, left: real): (g: seq<real>)
    requires img.Valid() && |f| == 4
    ensures |g| == 4
  {
    Plus(Plus(f, Corner(img, x, y, right / 255.0)), Corner(img, x - 1, y, left / 255.0))
  }

  /** The corner weights mix, scaled by factor / 255. */
  lemma WeightsMix(al: real, ar: real, bl: real, br: real, fx: real, fy: real, factor: real)
    ensures var k := WeightsAt(fx, fy, factor);
      Weigh(br, k.br / 255.0) + Weigh(bl, k.bl / 255.0) + Weigh(ar, k.ar / 255.0) + Weigh(al, k.al / 255.0)
      == factor / 255.0 * Mix(al, ar, bl, br, fx, fy)
  {
  }

  function Scaled(img: Raster, x: real, y: real, factor: real): PerChannel
    requires img.Valid()
  {
    ch => factor * Bilinear(img, x, y, ch)
  }

  lemma CornersBlend(f: seq<real>, img: Raster, x: int, y: int, fx: real, fy: real, factor: real, ch: Channel)
    requires img.Valid() && |f| == 4
    ensures Corners(f, img, x, y, WeightsAt(fx, fy, factor))[Fval(ch)]
         == f[Fval(ch)] + factor / 255.0 * Blend(img, x - 1, y - 1, fx, fy, ch)
  {
    hide Weigh;
    hide Mix;
    hide WeightsAt;
    hide Raster.Pix;
    WeightsMix(img.Pix(x - 1, y - 1, ch), img.Pix(x, y - 1, ch), img.Pix(x - 1, y, ch), img.Pix(x, y, ch),
               fx, fy, factor);
  }

  /** Inside the accepted region the corners are those of the interpolation, found with the cast. */
  lemma CornersAreBilinear(f: seq<real>, img: Raster, px: real, py: real, factor: real)
    requires img.Valid() && |f| == 4 && px + 0.5 > 0.0 && py + 0.5 > 0.0
    ensures var x, y := Trunc(px + 0.5), Trunc(py + 0.5);
      Corners(f, img, x, y, WeightsAt(px + 0.5 - x as real, py + 0.5 - y as real, factor))
      == Plus(f, Scaled(img, px, py, factor / 255.0))
  {
    hide Blend;
    hide Corners;
    hide WeightsAt;
    var x, y := Trunc(px + 0.5), Trunc(py + 0.5);
    assert (px - 0.5).Floor == x - 1 && (py - 0.5).Floor == y - 1;
    var fx, fy := px + 0.5 - x as real, py + 0.5 - y as real;
    forall ch: Channel
      ensures Corners(f, img, x, y, WeightsAt(fx, fy, factor))[Fval(ch)] == Plus(f, Scaled(img, px, py, factor / 255.0))[Fval(ch)]
    {
      CornersBlend(f, img, x, y, fx, fy, factor, ch);
    }
    SameAccumulators(Corners(f, img, x, y, WeightsAt(fx, fy, factor)), Plus(f, Scaled(img, px, py, factor / 255.0)));
  }

  lemma SameAccumulators(f: seq<real>, g: seq<real>)
    requires |f| == 4 == |g| && forall ch: Channel :: f[Fval(ch)] == g[Fval(ch)]
    ensures f == g
  {
    assert Fval(Red) == 0 && Fval(Green) == 1 && Fval(Blue) == 2 && Fval(Alpha) == 3;
  }

  lemma LeftOrRight(img: Raster, px: real, j: int, ch: Channel)
    requires img.Valid() && (px + 0.5 <= 0.0 || Trunc(px + 0.5) > img.w)
    ensures var u := px - 0.5;
      img.Pix(u.Floor, j, ch) == 0.0 && (u - u.Floor as real == 0.0 || img.Pix(u.Floor + 1, j, ch) == 0.0)
  {
    var u := px - 0.5;
    var x := u.Floor;
    assert x + 1 < 0 || (x + 1 == 0 && u - x as real == 0.0) || x >= img.w;
  }

  lemma AboveOrBelow(img: Raster, py: real, i: int, ch: Channel)
    requires img.Valid() && (py + 0.5 <= 0.0 || Trunc(py + 0.5) > img.h)
    ensures var v := py - 0.5;
      img.Pix(i, v.Floor, ch) == 0.0 && (v - v.Floor as real == 0.0 || img.Pix(i, v.Floor + 1, ch) == 0.0)
  {
    var v := py - 0.5;
    var y := v.Floor;
    assert y + 1 < 0 || (y + 1 == 0 && v - y as real == 0.0) || y >= img.h;
  }

  lemma BlendVanishes(img: Raster, x: int, y: int, fx: real, fy: real, ch: Channel)
    requires img.Valid()
    requires forall j | y <= j <= y + 1 :: img.Pix(x, j, ch) == 0.0 && (fx == 0.0 || img.Pix(x + 1, j, ch) == 0.0)
    ensures Blend(img, x, y, fx, fy, ch) == 0.0
  {
    hide Raster.Pix;
    assert (1.0 - fx) * img.Pix(x, y, ch) + fx * img.Pix(x + 1, y, ch) == 0.0;
    assert (1.0 - fx) * img.Pix(x, y + 1, ch) + fx * img.Pix(x + 1, y + 1, ch) == 0.0;
  }

  lemma BlendVanishesBelow(img: Raster, x: int, y: int, fx: real, fy: real, ch: Channel)
    requires img.Valid()
    requires forall i | x <= i <= x + 1 :: img.Pix(i, y, ch) == 0.0 && (fy == 0.0 || img.Pix(i, y + 1, ch) == 0.0)
    ensures Blend(img, x, y, fx, fy, ch) == 0.0
  {
    hide Raster.Pix;
    assert img.Pix(x, y, ch) == 0.0 && img.Pix(x + 1, y, ch) == 0.0;
    assert (1.0 - fx) * img.Pix(x, y, ch) + fx * img.Pix(x + 1, y, ch) == 0.0;
    if fy != 0.0 {
      assert img.Pix(x, y + 1, ch) == 0.0 && img.Pix(x + 1, y + 1, ch) == 0.0;
      assert (1.0 - fx) * img.Pix(x, y + 1, ch) + fx * img.Pix(x + 1, y + 1, ch) == 0.0;
    }
  }

  /** The rejected region: the interpolation vanishes where the samplers read nothing. */
  lemma RejectedIsZero(img: Raster, px: real, py: real, ch: Channel)
    requires img.Valid()
    requires px + 0.5 <= 0.0 || py + 0.5 <= 0.0 || Trunc(px + 0.5) > img.w || Trunc(py + 0.5) > img.h
    ensures Bilinear(img, px, py, ch) == 0.0
  {
    hide Raster.Pix;
    var u, v := px - 0.5, py - 0.5;
    var x, y, fx, fy := u.Floor, v.Floor, u - u.Floor as real, v - v.Floor as real;
    if px + 0.5 <= 0.0 || Trunc(px + 0.5) > img.w {
      forall j | y <= j <= y + 1 ensures img.Pix(x, j, ch) == 0.0 && (fx == 0.0 || img.Pix(x + 1, j, ch) == 0.0) {
        LeftOrRight(img, px, j, ch);
      }
      BlendVanishes(img, x, y, fx, fy, ch);
    } else {
      forall i | x <= i <= x + 1 ensures img.Pix(i, y, ch) == 0.0 && (fy == 0.0 || img.Pix(i, y + 1, ch) == 0.0) {
        AboveOrBelow(img, py, i, ch);
      }
      BlendVanishesBelow(img, x, y, fx, fy, ch);
    }
    hide Blend;
  }

  lemma RejectedAddsNothing(f: seq<real>, img: Raster, px: real, py: real, factor: real)
    requires img.Valid() && |f| == 4
    requires px + 0.5 <= 0.0 || py + 0.5 <= 0.0 || Trunc(px + 0.5) > img.w || Trunc(py + 0.5) > img.h
    ensures Plus(f, Scaled(img, px, py, factor)) == f
  {
    hide Bilinear;
    forall ch: Channel ensures Scaled(img, px, py, factor)(ch) == 0.0 {
      RejectedIsZero(img, px, py, ch);
    }
  }

  // ---------------------------------------------------------------------------------------------
  // The samplers
  // ---------------------------------------------------------------------------------------------

  lemma PairOutside(f: seq<real>, img: Raster, x: int, y: int, right: real, left: real)
    requires img.Valid() && |f| == 4 && !(0 <= y < img.h)
    ensures Pair(f, img, x, y, right, left) == f
  {
    hide Plus;
    CornerOutside(img, x, y, right / 255.0, f);
    CornerOutside(img, x - 1, y, left / 255.0, f);
  }

  /** The two corners in line y of the image; `offset` is that of pixel (x, y). */
  method AddPair(img: array<word>, w: int, h: int, scan: int, x: int, y: int, offset: int, right: real, left: real,
                 fvals: array<real>)
    requires Raster(img[..], w, h, scan).Valid() && fvals.Length == 4 && 0 <= x <= w && 0 <= y < h
    requires offset == y * scan + x
    modifies fvals
    ensures fvals[..] == Pair(old(fvals[..]), Raster(img[..], w, h, scan), x, y, right, left)
  {
    hide Plus;
    hide Corner;
    hide Weighted;
    ghost var raster := Raster(img[..], w, h, scan);
    if x < w {
      CornerInside(raster, x, y, right / 255.0, fvals[..]);
      LAccum(img[offset], right, fvals);
    } else {
      CornerOutside(raster, x, y, right / 255.0, fvals[..]);
    }
    if x > 0 {
      CornerInside(raster, x - 1, y, left / 255.0, fvals[..]);
      LAccum(img[offset - 1], left, fvals);
    } else {
      CornerOutside(raster, x - 1, y, left / 255.0, fvals[..]);
    }
    assert img[..] == raster.pixels;
  }

  /** The branches on the edges; (x, y) is the pixel below and right of the point. */
  method AddCorners(img: array<word>, w: int, h: int, scan: int, x: int, y: int, k: Weights, fvals: array<real>)
    requires Raster(img[..], w, h, scan).Valid() && fvals.Length == 4 && 0 <= x <= w && 0 <= y <= h
    modifies fvals
    ensures fvals[..] == Corners(old(fvals[..]), Raster(img[..], w, h, scan), x, y, k)
  {
    hide Pair;
    ghost var raster := Raster(img[..], w, h, scan);
    var offset := y * scan + x;
    if y < h {
      AddPair(img, w, h, scan, x, y, offset, k.br, k.bl, fvals);
    } else {
      PairOutside(fvals[..], raster, x, y, k.br, k.bl);
    }
    assert img[..] == raster.pixels;
    if y > 0 {
      assert offset - scan == (y - 1) * scan + x;
      AddPair(img, w, h, scan, x, y - 1, offset - scan, k.ar, k.al, fvals);
    } else {
      PairOutside(fvals[..], raster, x, y - 1, k.ar, k.al);
    }
    assert img[..] == raster.pixels;
  }

  /** laccumsample: adds `factor` times the interpolation at (px, py), for every point of the plane. */
  method LAccumSample(img: array<word>, px: real, py: real, w: int, h: int, scan: int, factor: real,
                      fvals: array<real>)
    requires Raster(img[..], w, h, scan).Valid() && fvals.Length == 4
    modifies fvals
    ensures fvals[..] == Plus(old(fvals[..]), Scaled(Raster(img[..], w, h, scan), px, py, factor))
  {
    hide Raster.Pix;
    hide Corners;
    hide Plus;
    hide WeightsAt;
    ghost var raster := Raster(img[..], w, h, scan);
    var fx, fy := px + 0.5, py + 0.5;
    var ix, iy := Trunc(fx), Trunc(fy);
    if fx > 0.0 && fy > 0.0 && ix <= w && iy <= h {
      CornersAreBilinear(fvals[..], raster, px, py, factor * 255.0);
      AddCorners(img, w, h, scan, ix, iy, WeightsAt(fx - ix as real, fy - iy as real, factor * 255.0), fvals);
      assert factor * 255.0 / 255.0 == factor;
    } else {
      RejectedAddsNothing(fvals[..], raster, px, py, factor);
    }
  }

  /** lsample: the interpolation at relative coordinates, with channel values between 0 and 1. */
  method LSample(img: array<word>, floc_x: real, floc_y: real, w: int, h: int, scan: int, fvals: array<real>)
    requires Raster(img[..], w, h, scan).Valid() && fvals.Length == 4
    modifies fvals
    ensures var raster, x, y := Raster(img[..], w, h, scan), floc_x * w as real, floc_y * h as real;
      && fvals[0] == Bilinear(raster, x, y, Red) / 255.0 && fvals[1] == Bilinear(raster, x, y, Green) / 255.0
      && fvals[2] == Bilinear(raster, x, y, Blue) / 255.0 && fvals[3] == Bilinear(raster, x, y, Alpha) / 255.0
  {
    hide Bilinear;
    hide Corners;
    hide WeightsAt;
    fvals[0], fvals[1], fvals[2], fvals[3] := 0.0, 0.0, 0.0, 0.0;
    ghost var raster := Raster(img[..], w, h, scan);
    var px, py := floc_x * w as real, floc_y * h as real;
    var fx, fy := px + 0.5, py + 0.5;
    var ix, iy := Trunc(fx), Trunc(fy);
    if fx > 0.0 && fy > 0.0 && ix <= w && iy <= h {
      CornersAreBilinear(fvals[..], raster, px, py, 1.0);
      AddCorners(img, w, h, scan, ix, iy, WeightsAt(fx - ix as real, fy - iy as real, 1.0), fvals);
    } else {
      RejectedAddsNothing(fvals[..], raster, px, py, 1.0 / 255.0);
    }
    assert fvals[..] == Plus([0.0, 0.0, 0.0, 0.0], Scaled(raster, px, py, 1.0 / 255.0));
  }
}
