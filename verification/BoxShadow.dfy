/** The shadow passes of SSEBoxShadowPeer.cc: alpha windows, widened by `spread`, turned into a colour. */
module BoxShadow {
  import opened Words
  import opened Reals
  import opened Pixels
  import opened BoxBlur

  /** The coverage that already counts as opaque: from size*255 down to 255 as spread goes from 0 to 1. */
  function Amax(size: int, spread: real): (m: int)
    requires 1 <= size && 0.0 <= spread <= 1.0
    ensures 255 <= m <= size * 255
  {
    AmaxBounds(size, spread);
    size * 255 + Trunc((255 - size * 255) as real * spread)
  }

  lemma AmaxBounds(size: int, spread: real)
    requires 1 <= size && 0.0 <= spread <= 1.0
    ensures 255 - size * 255 <= Trunc((255 - size * 255) as real * spread) <= 0
  {
    var d := (size * 255 - 255) as real;
    RealPart(d, spread);
    assert (255 - size * 255) as real * spread == -(d * spread);
    TruncMonotone(-d, -(d * spread));
    TruncMonotone(-(d * spread), 0.0);
    TruncOfInt(255 - size * 255, -d);
  }

  lemma AmaxShrinks(size: int, spread: real, spread': real)
    requires 1 <= size && 0.0 <= spread <= spread' <= 1.0
    ensures Amax(size, spread') <= Amax(size, spread)
  {
    var d := (size * 255 - 255) as real;
    RealMulMono(d, spread, spread');
    assert (255 - size * 255) as real * spread == -(d * spread);
    assert (255 - size * 255) as real * spread' == -(d * spread');
    TruncMonotone(-(d * spread'), -(d * spread));
  }

  /** The coverage that counts as opaque, as a real number: all of the window at spread 0, one full column at spread 1
      and proportionally between them.  The cast rounds it up. */
  lemma AmaxInterpolates(size: int, spread: real)
    requires 1 <= size && 0.0 <= spread <= 1.0
    ensures var x := 255.0 + (1.0 - spread) * (255 * (size - 1)) as real;
      x <= Amax(size, spread) as real < x + 1.0
  {
    var d := (size * 255 - 255) as real;
    RealPart(d, spread);
    assert (255 - size * 255) as real * spread == -(d * spread);
    assert (1.0 - spread) * d == d - d * spread;
  }

  /** Below full coverage the scaled sum fits into a jint and into a byte. */
  lemma {:induction false} ShadeFits(sum: nat, amax: int, k: nat)
    requires 1 <= amax && sum <= amax && k <= MAX_INT / amax
    ensures 0 <= sum * k <= MAX_INT && 0 <= sum * k / HALF <= 255
  {
    MulMono(sum, k, MAX_INT / amax);
    MulMono(MAX_INT / amax, sum, amax);
  }

  /** Clamp, scale and shift the window sum of the alpha channel. */
  function ShadowAlpha(sum: nat, amax: int): byte
    requires 255 <= amax
  {
    if sum < amax / 255 then 0
    else if sum >= amax then 255
    else
      ShadeFits(sum, amax, MAX_INT / amax);
      sum * (MAX_INT / amax) / HALF
  }

  // ---------------------------------------------------------------------------------------------
  // Monotonicity
  // ---------------------------------------------------------------------------------------------

  /** More coverage never makes the shadow lighter. */
  lemma {:induction false} MoreCoverage(sum: nat, sum': nat, amax: int)
    requires 255 <= amax && sum <= sum'
    ensures ShadowAlpha(sum, amax) <= ShadowAlpha(sum', amax)
  {
    MulMono(MAX_INT / amax, sum, sum');
  }

  lemma {:induction false} SmallerAmax(sum: nat, amax: int, amax': int)
    requires 255 <= amax' <= amax
    ensures ShadowAlpha(sum, amax) <= ShadowAlpha(sum, amax')
  {
    assert amax' / 255 <= amax / 255;
    DivAntitone(amax', amax);
    MulMono(sum, MAX_INT / amax, MAX_INT / amax');
  }

  lemma {:induction false} DivAntitone(n: int, n': int)
    requires 1 <= n <= n'
    ensures MAX_INT / n' <= MAX_INT / n
  {
    var q := MAX_INT / n';
    MulMono(q, n, n');
    assert n * q <= MAX_INT;
    if MAX_INT / n < q {
      MulMono(n, MAX_INT / n + 1, q);
      assert false;
    }
  }

  /** More spread never makes the shadow lighter. */
  lemma {:induction false} MoreSpread(sum: nat, size: int, spread: real, spread': real)
    requires 1 <= size && 0.0 <= spread <= spread' <= 1.0
    ensures ShadowAlpha(sum, Amax(size, spread)) <= ShadowAlpha(sum, Amax(size, spread'))
  {
    AmaxShrinks(size, spread, spread');
    SmallerAmax(sum, Amax(size, spread), Amax(size, spread'));
  }

  /** Below the coverage that counts as opaque the level is the sum on the scale up to it, within two levels for
      windows up to 2^23. */
  lemma {:induction false} AlphaIsScaled(sum: nat, amax: int)
    requires 255 <= amax <= HALF && amax / 255 <= sum < amax
    ensures var level := ShadowAlpha(sum, amax) as int; level * amax <= 256 * sum && 255 * sum < (level + 2) * amax
  {
    var k, level := MAX_INT / amax, ShadowAlpha(sum, amax) as int;
    assert level * HALF <= sum * k < (level + 1) * HALF;
    assert k * amax <= MAX_INT < (k + 1) * amax;
    hide ShadowAlpha;
    ScaleAbove(sum, amax, k, level);
    ScaleBelow(sum, amax, k, level);
  }

  lemma {:induction false} ScaleAbove(sum: nat, amax: int, k: nat, level: int)
    requires 1 <= amax && level * HALF <= sum * k && k * amax <= MAX_INT
    ensures level * amax <= 256 * sum
  {
    MulMono(amax, level * HALF, sum * k);
    MulMono(sum, k * amax, 256 * HALF);
    assert amax * (sum * k) == sum * (k * amax);
    assert amax * (level * HALF) == HALF * (level * amax);
    assert sum * (256 * HALF) == HALF * (256 * sum);
  }

  lemma {:induction false} ScaleBelow(sum: nat, amax: int, k: nat, level: int)
    requires 1 <= amax <= HALF && sum < amax && sum * k < (level + 1) * HALF && MAX_INT < (k + 1) * amax
    ensures 255 * sum < (level + 2) * amax
  {
    MulMono(amax, sum * k + 1, (level + 1) * HALF);
    MulMono(sum, 255 * HALF, (k + 1) * amax);
    MulMono(amax, sum, HALF);
    assert sum * ((k + 1) * amax) == amax * (sum * k) + amax * sum;
    assert amax * (sum * k + 1) == amax * (sum * k) + amax;
    assert amax * ((level + 1) * HALF) == HALF * ((level + 1) * amax);
    assert sum * (255 * HALF) == HALF * (255 * sum);
    assert (level + 2) * amax == (level + 1) * amax + amax;
  }

  // ---------------------------------------------------------------------------------------------
  // Without spread the shadow is the alpha channel of the blur
  // ---------------------------------------------------------------------------------------------

  /** The condition a caller can check on the reciprocal. */
  predicate LikeBlur(size: int)
    requires 1 <= size
  {
    (size - 1) * Kscale(size) < HALF <= size * Kscale(size)
  }

  lemma NoSpread(size: int)
    requires 1 <= size
    ensures Amax(size, 0.0) == size * 255
  {
  }

  lemma {:induction false} SmallIsLikeBlur(size: int)
    requires 1 <= size <= 256
    ensures LikeBlur(size)
  {
    SmallIsExact(size);
    ExactMeans(size);
    Narrow(size, Kscale(size));
  }

  lemma {:induction false} Narrow(size: int, k: nat)
    requires 1 <= size <= 256 && k * (size * 255) <= MAX_INT
    ensures (size - 1) * k < HALF
  {
    assert k * (size * 255) == 255 * (k * size);
    Distribute(k, size, 1);
    MulMono(k, size - 1, 255);
  }

  /** The two kernels agree on a window sum. */
  predicate Agree(sum: nat, size: int)
    requires 1 <= size && sum <= 255 * size
  {
    ShadowAlpha(sum, size * 255) == Mean(sum, size)
  }

  lemma {:induction false} AgreeIff(size: int)
    requires 1 <= size
    ensures LikeBlur(size) <==> forall sum | 0 <= sum <= 255 * size :: Agree(sum, size)
  {
    var k := Kscale(size);
    if LikeBlur(size) {
      forall sum | 0 <= sum <= 255 * size ensures Agree(sum, size) {
        if sum < size {
          MulMono(k, sum, size - 1);
        } else if sum == 255 * size {
          ExactMeans(size);
          FlatIffExact(size, 255);
        }
      }
    } else if size * k < HALF {
      ExactMeans(size);
      FlatIffExact(size, 255);
      assert !Agree(255 * size, size);
    } else {
      assert Mean(size - 1, size) >= 1;
      assert !Agree(size - 1, size);
    }
  }

  /** The first size that fails: the shadow drops a window sum that the blur still shows. */
  lemma UnlikeExample()
    ensures !LikeBlur(257) && ShadowAlpha(256, 257 * 255) == 0 && Mean(256, 257) == 1
  {
  }

  // ---------------------------------------------------------------------------------------------
  // Colours
  // ---------------------------------------------------------------------------------------------

  /** A premultiplied colour with components between 0 and 1. */
  datatype Colour = Colour(r: real, g: real, b: real, a: real) {
    predicate Valid() {
      0.0 <= r <= 1.0 && 0.0 <= g <= 1.0 && 0.0 <= b <= 1.0 && 0.0 <= a <= 1.0
    }

    predicate IsPremultiplied() {
      r <= a && g <= a && b <= a
    }
  }

  lemma PartOf(k: nat, part: real)
    requires 0.0 <= part <= 1.0
    ensures 0 <= Trunc(k as real * part) <= k
  {
    RealPart(k as real, part);
    TruncMonotone(0.0, k as real * part);
    TruncMonotone(k as real * part, k as real);
    TruncOfInt(k, k as real);
  }

  lemma PartsOrdered(k: nat, part: real, part': real)
    requires 0.0 <= part <= part' <= 1.0
    ensures Trunc(k as real * part) <= Trunc(k as real * part')
  {
    RealMulMono(k as real, part, part');
    TruncMonotone(k as real * part, k as real * part');
  }

  /** One channel of the coloured shadow between the clamps; the reciprocal carries the colour. */
  function Shade(sum: nat, amax: int, part: real): byte
    requires 255 <= amax && sum <= amax && 0.0 <= part <= 1.0
  {
    ShadeFits(sum, amax, PartScale(amax, part));
    sum * PartScale(amax, part) / HALF
  }

  /** `(jint) (kscale * part)` */
  function PartScale(amax: int, part: real): (k: nat)
    requires 1 <= amax && 0.0 <= part <= 1.0
    ensures k <= MAX_INT / amax
  {
    PartOf(MAX_INT / amax, part);
    Trunc((MAX_INT / amax) as real * part)
  }

  function Full(part: real): byte
    requires 0.0 <= part <= 1.0
  {
    PartOf(255, part);
    Trunc(255 as real * part)
  }

  function BlackPixel(sum: nat, amax: int): word
    requires 255 <= amax
  {
    Argb(ShadowAlpha(sum, amax), 0, 0, 0)
  }

  function ColourPixel(sum: nat, amax: int, c: Colour): word
    requires 255 <= amax && c.Valid()
  {
    if sum < amax / 255 then 0
    else if sum >= amax then Argb(Full(c.a), Full(c.r), Full(c.g), Full(c.b))
    else Argb(Shade(sum, amax, c.a), Shade(sum, amax, c.r), Shade(sum, amax, c.g), Shade(sum, amax, c.b))
  }

  /** Opaque black through the coloured kernel is the black kernel. */
  lemma {:induction false} OpaqueBlackIsBlack(sum: nat, amax: int)
    requires 255 <= amax
    ensures ColourPixel(sum, amax, Colour(0.0, 0.0, 0.0, 1.0)) == BlackPixel(sum, amax)
  {
    var k := MAX_INT / amax;
    TruncOfInt(0, k as real * 0.0);
    TruncOfInt(k, k as real * 1.0);
    TruncOfInt(0, 255 as real * 0.0);
    TruncOfInt(255, 255 as real * 1.0);
  }

  lemma {:induction false} ShiftMonotone(sum: nat, k: int, k': int)
    requires k <= k'
    ensures sum * k / HALF <= sum * k' / HALF
  {
    MulMono(sum, k, k');
  }

  lemma {:induction false} ScalesOrdered(amax: int, part: real, part': real)
    requires 255 <= amax && 0.0 <= part <= part' <= 1.0
    ensures PartScale(amax, part) <= PartScale(amax, part') && Full(part) <= Full(part')
  {
    hide Trunc;
    PartsOrdered(MAX_INT / amax, part, part');
    PartsOrdered(255, part, part');
  }

  lemma {:induction false} ShadesOrdered(sum: nat, amax: int, part: real, part': real)
    requires 255 <= amax && sum <= amax && 0.0 <= part <= part' <= 1.0
    ensures Shade(sum, amax, part) <= Shade(sum, amax, part') && Full(part) <= Full(part')
  {
    hide PartScale;
    hide Full;
    ScalesOrdered(amax, part, part');
    ShiftMonotone(sum, PartScale(amax, part), PartScale(amax, part'));
  }

  // ---------------------------------------------------------------------------------------------
  // Monotonicity in colour
  // ---------------------------------------------------------------------------------------------

  /** One channel of the coloured shadow. */
  function TintLevel(sum: nat, amax: int, part: real): byte
    requires 255 <= amax && 0.0 <= part <= 1.0
  {
    if sum < amax / 255 then 0 else if sum >= amax then Full(part) else Shade(sum, amax, part)
  }

  function PartFor(c: Colour, ch: Channel): real {
    Pick(c.a, c.r, c.g, c.b, ch)
  }

  lemma {:induction false} ColourChannel(sum: nat, amax: int, c: Colour, ch: Channel)
    requires 255 <= amax && c.Valid()
    ensures Chan(ColourPixel(sum, amax, c), ch) == TintLevel(sum, amax, PartFor(c, ch))
  {
    hide Shade;
    hide Full;
    hide Argb;
    hide Chan;
    if sum < amax / 255 {
      ZeroPixel(ch);
    } else if sum >= amax {
      UnpackPacked(Full(c.a), Full(c.r), Full(c.g), Full(c.b), ch);
    } else {
      UnpackPacked(Shade(sum, amax, c.a), Shade(sum, amax, c.r), Shade(sum, amax, c.g), Shade(sum, amax, c.b), ch);
    }
  }

  lemma ZeroPixel(ch: Channel)
    ensures Chan(0, ch) == 0
  {
  }

  /** The condition a caller can check: the level just below full coverage does not exceed the level at it. */
  predicate Settles(amax: int, part: real)
    requires 255 <= amax && 0.0 <= part <= 1.0
  {
    Shade(amax - 1, amax, part) <= Full(part)
  }

  lemma {:induction false} ShadeMonotone(sum: nat, sum': nat, amax: int, part: real)
    requires 255 <= amax && sum <= sum' <= amax && 0.0 <= part <= 1.0
    ensures Shade(sum, amax, part) <= Shade(sum', amax, part)
  {
    hide PartScale;
    MulMono(PartScale(amax, part), sum, sum');
  }

  lemma {:induction false} ScaleAntitone(amax: int, amax': int, part: real)
    requires 1 <= amax' <= amax && 0.0 <= part <= 1.0
    ensures PartScale(amax, part) <= PartScale(amax', part)
  {
    DivAntitone(amax', amax);
    var k, k' := MAX_INT / amax, MAX_INT / amax';
    RealMulMono(part, k as real, k' as real);
    TruncMonotone(k as real * part, k' as real * part);
  }

  lemma {:induction false} ShadeAntitone(sum: nat, amax: int, amax': int, part: real)
    requires 255 <= amax' <= amax && sum <= amax' && 0.0 <= part <= 1.0
    ensures Shade(sum, amax, part) <= Shade(sum, amax', part)
  {
    ScaleAntitone(amax, amax', part);
    hide PartScale;
    MulMono(sum, PartScale(amax, part), PartScale(amax', part));
  }

  /** More coverage never makes a channel of the coloured shadow lighter, if and only if it settles. */
  lemma {:induction false} TintCoverageIff(amax: int, part: real)
    requires 255 <= amax && 0.0 <= part <= 1.0
    ensures Settles(amax, part) <==>
      forall sum: nat, sum': nat | sum <= sum' :: TintLevel(sum, amax, part) <= TintLevel(sum', amax, part)
  {
    hide Shade;
    hide Full;
    if Settles(amax, part) {
      forall sum: nat, sum': nat | sum <= sum' ensures TintLevel(sum, amax, part) <= TintLevel(sum', amax, part) {
        if sum < amax {
          ShadeMonotone(sum, if sum' < amax then sum' else amax - 1, amax, part);
        }
      }
    } else {
      assert TintLevel(amax - 1, amax, part) > TintLevel(amax, amax, part);
    }
  }

  /** More spread, which lowers amax, never makes a channel lighter, if and only if it settles or nothing changes. */
  lemma {:induction false} TintSpreadIff(amax: int, amax': int, part: real)
    requires 255 <= amax' <= amax && 0.0 <= part <= 1.0
    ensures amax' == amax || Settles(amax, part) <==>
      forall sum: nat :: TintLevel(sum, amax, part) <= TintLevel(sum, amax', part)
  {
    hide Shade;
    hide Full;
    if amax' == amax || Settles(amax, part) {
      forall sum: nat ensures TintLevel(sum, amax, part) <= TintLevel(sum, amax', part) {
        if amax' < amax && sum < amax {
          ShadeMonotone(sum, amax - 1, amax, part);
          if sum < amax' {
            ShadeAntitone(sum, amax, amax', part);
          }
        }
      }
    } else {
      assert TintLevel(amax - 1, amax, part) > TintLevel(amax - 1, amax', part);
    }
  }

  /** A window of 100 columns in a colour just short of full: nearly covered it is brighter than covered. */
  lemma UnsettledExample()
    ensures !Settles(25500, 0.999) && Shade(25499, 25500, 0.999) == 255 && Full(0.999) == 254
  {
    assert Trunc(84215 as real * 0.999) == 84130;
    assert Trunc(255 as real * 0.999) == 254;
  }

  /** Opaque channels settle. */
  lemma OpaqueSettles(amax: int)
    requires 255 <= amax
    ensures Settles(amax, 1.0)
  {
    TruncOfInt(255, 255 as real * 1.0);
  }

  /** A channel of the coloured shadow is its component times the black shadow, less than one level too much and,
      up to windows of 2^23, less than two levels too little. */
  lemma {:induction false} TintIsPart(sum: nat, amax: int, part: real)
    requires 255 <= amax && 0.0 <= part <= 1.0
    ensures var black, tinted := ShadowAlpha(sum, amax) as real, TintLevel(sum, amax, part) as real;
      && tinted < Times(part, black) + 1.0
      && Times(part, black) - 1.0 - (if sum < amax then sum as real / HALF as real else 0.0) < tinted
  {
    if sum >= amax {
      RealPart(255.0, part);
    } else if sum >= amax / 255 {
      ShadeIsPart(sum, amax, part);
      hide Shade;
      hide Times;
    }
  }

  /** The tinted level goes with the black one. */
  predicate NearPart(tinted: byte, black: byte, part: real) {
    Times(part, black as real) - 2.0 < tinted as real < Times(part, black as real) + 1.0
  }

  lemma {:induction false} TintIsNear(sum: nat, amax: int, part: real)
    requires 255 <= amax <= HALF && 0.0 <= part <= 1.0
    ensures NearPart(TintLevel(sum, amax, part), ShadowAlpha(sum, amax), part)
  {
    hide TintLevel;
    hide ShadowAlpha;
    hide Times;
    TintIsPart(sum, amax, part);
    assert sum < amax ==> sum as real / HALF as real <= 1.0;
  }

  lemma {:induction false} ShadeIsPart(sum: nat, amax: int, part: real)
    requires 255 <= amax && sum < amax && 0.0 <= part <= 1.0
    ensures var black, tinted := (sum * (MAX_INT / amax) / HALF) as real, Shade(sum, amax, part) as real;
      tinted < Times(part, black) + 1.0 && Times(part, black) - 1.0 - sum as real / HALF as real < tinted
  {
    var k, kp := MAX_INT / amax, PartScale(amax, part);
    ScaleCutsOff(amax, part);
    hide PartScale;
    hide Times;
    ScaledParts(sum, k, kp, part);
  }

  lemma {:induction false} ScaleCutsOff(amax: int, part: real)
    requires 255 <= amax && 0.0 <= part <= 1.0
    ensures var k, kp := (MAX_INT / amax) as real, PartScale(amax, part) as real; kp <= Times(k, part) < kp + 1.0
  {
    RealPart((MAX_INT / amax) as real, part);
  }

  lemma {:induction false} ScaledParts(sum: nat, k: nat, kp: nat, part: real)
    requires 0.0 <= part <= 1.0 && kp as real <= Times(k as real, part) < kp as real + 1.0
    ensures var black, tinted := (sum * k / HALF) as real, (sum * kp / HALF) as real;
      tinted < Times(part, black) + 1.0 && Times(part, black) - 1.0 - sum as real / HALF as real < tinted
  {
    hide Times;
    var s, x, y := sum as real, k as real, kp as real;
    FloorOf(sum * k);
    FloorOf(sum * kp);
    TimesCast(sum, k);
    TimesCast(sum, kp);
    TimesMono(s, y, Times(x, part));
    TimesMono(s, Times(x, part), y + 1.0);
    TimesRotate(s, x, part);
    TimesPlusOne(s, y);
    PartBounds(Times(s, x), Times(s, y), s, part, (sum * k / HALF) as real, (sum * kp / HALF) as real);
  }

  /** Both products divided by 2^23 and cut off. */
  lemma {:induction false} PartBounds(a: real, b: real, s: real, part: real, black: real, tinted: real)
    requires 0.0 <= part <= 1.0 && b <= Times(part, a) <= b + s
    requires black <= a / HALF as real < black + 1.0 && tinted <= b / HALF as real < tinted + 1.0
    ensures tinted < Times(part, black) + 1.0 && Times(part, black) - 1.0 - s / HALF as real < tinted
  {
    var v := a / HALF as real;
    assert part == 1.0 ==> Times(part, v) == v && Times(part, black) == black;
    hide Times;
    TimesOver(part, a, HALF as real);
    TimesMono(part, black, v);
    TimesMono(part, v, black + 1.0);
    TimesPlusOne(part, black);
  }

  lemma {:induction false} FloorOf(n: nat)
    ensures (n / HALF) as real <= n as real / HALF as real < (n / HALF) as real + 1.0
  {
    var q, r := n / HALF, n % HALF;
    assert n == q * HALF + r && 0 <= r < HALF;
    var h, x, y := HALF as real, q as real, r as real;
    assert n as real == x * h + y && 0.0 <= y < h;
    assert (x * h + y) / h == x + y / h && 0.0 <= y / h < 1.0;
  }

  /** A premultiplied colour casts premultiplied shadows. */
  lemma {:induction false} ShadowPremultiplied(sum: nat, amax: int, c: Colour)
    requires 255 <= amax && c.Valid() && c.IsPremultiplied()
    ensures Premultiplied(ColourPixel(sum, amax, c))
  {
    var s := if sum < amax then sum else amax;
    ShadesOrdered(s, amax, c.r, c.a);
    ShadesOrdered(s, amax, c.g, c.a);
    ShadesOrdered(s, amax, c.b, c.a);
    hide Shade;
    hide Full;
    hide Argb;
    hide Chan;
    if sum < amax / 255 {
      ZeroIsPremultiplied();
    } else if sum >= amax {
      PackedPremultiplied(Full(c.a), Full(c.r), Full(c.g), Full(c.b));
    } else {
      PackedPremultiplied(Shade(sum, amax, c.a), Shade(sum, amax, c.r), Shade(sum, amax, c.g), Shade(sum, amax, c.b));
    }
  }

  lemma ZeroIsPremultiplied()
    ensures Premultiplied(0)
  {
  }

  lemma PackedPremultiplied(a: byte, r: byte, g: byte, b: byte)
    requires r <= a && g <= a && b <= a
    ensures Premultiplied(Argb(a, r, g, b))
  {
    forall c: Channel ensures Chan(Argb(a, r, g, b), c) == Pick(a, r, g, b, c) {
      UnpackPacked(a, r, g, b, c);
    }
  }
}
