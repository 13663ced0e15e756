/** The box blur passes of SSEBoxBlurPeer.cc: running sums, divided with a fixed-point reciprocal. */
module BoxBlur {
  import opened Words
  import opened Pixels
  import opened BoxWindow

  const MAX_INT: int := 0x7fff_ffff
  const HALF: int := 0x80_0000  // 1 << 23

  /** `0x7fffffff / (size * 255)` */
  function Kscale(size: int): (k: nat)
    requires 1 <= size
    ensures k * (size * 255) <= MAX_INT
  {
    MAX_INT / (size * 255)
  }

  /** A product that fits into a jint stays below 256 after the shift. */
  lemma {:induction false} ScaledFits(sum: nat, size: int)
    requires 1 <= size && sum <= 255 * size
    ensures 0 <= sum * Kscale(size) <= MAX_INT && 0 <= sum * Kscale(size) / HALF <= 255
  {
    var k := Kscale(size);
    assert sum * k <= (255 * size) * k;
  }

  /** `(sum * kscale) >> 23` */
  function Mean(sum: nat, size: int): byte
    requires 1 <= size && sum <= 255 * size
  {
    ScaledFits(sum, size);
    sum * Kscale(size) / HALF
  }

  function BlurPixel(line: seq<word>, size: int, x: int): word
    requires 1 <= size
  {
    Argb(Mean(Window(line, Alpha, size, x), size), Mean(Window(line, Red, size, x), size),
         Mean(Window(line, Green, size, x), size), Mean(Window(line, Blue, size, x), size))
  }

  /** The blurred value of one channel. */
  lemma {:induction false} BlurChannel(line: seq<word>, size: int, x: int, c: Channel)
    requires 1 <= size
    ensures Chan(BlurPixel(line, size, x), c) == Mean(Window(line, c, size, x), size)
  {
    UnpackPacked(Mean(Window(line, Alpha, size, x), size), Mean(Window(line, Red, size, x), size),
                 Mean(Window(line, Green, size, x), size), Mean(Window(line, Blue, size, x), size), c);
  }

  // ---------------------------------------------------------------------------------------------
  // How exact the reciprocal is
  // ---------------------------------------------------------------------------------------------

  /** The condition a caller can check: the reciprocal loses less than one level at full coverage. */
  predicate Exact(size: int)
    requires 1 <= size
  {
    MAX_INT % (size * 255) < HALF
  }

  lemma {:induction false} ExactMeans(size: int)
    requires 1 <= size
    ensures Exact(size) <==> size * Kscale(size) >= HALF
  {
    var n, k := size * 255, Kscale(size);
    assert MAX_INT == n * k + MAX_INT % n;
    assert n * k == 255 * (size * k);
  }

  /** Windows of up to 2^23 / 255 columns are exact. */
  lemma {:induction false} SmallIsExact(size: int)
    requires 1 <= size && size * 255 <= HALF
    ensures Exact(size)
  {
  }

  /** The result never exceeds the true mean rounded up. */
  lemma {:induction false} MeanAtMostCeiling(sum: nat, size: int)
    requires 1 <= size && sum <= 255 * size
    ensures size * (Mean(sum, size) as int) < sum + size
  {
    var k, m := Kscale(size), Mean(sum, size) as int;
    assert m * HALF <= sum * k;
    assert size * (m * HALF) <= size * (sum * k);
    assert size * (sum * k) == sum * (size * k);
    assert 255 * (size * k) <= MAX_INT;
    assert sum * (255 * (size * k)) <= sum * MAX_INT;
    assert 255 * (size * m) * HALF <= sum * MAX_INT;
  }

  /** An exact reciprocal never falls below the true mean rounded down. */
  lemma {:induction false} MeanAtLeastFloor(sum: nat, size: int)
    requires 1 <= size && sum <= 255 * size && Exact(size)
    ensures sum < size * (Mean(sum, size) as int + 1)
  {
    ExactMeans(size);
    var k, m := Kscale(size), Mean(sum, size) as int;
    assert sum * k < (m + 1) * HALF;
    hide Mean;
    hide Kscale;
    FloorOfMean(sum, size, k, m);
  }

  lemma {:induction false} FloorOfMean(sum: nat, size: int, k: nat, m: int)
    requires 1 <= size && size * k >= HALF && sum * k < (m + 1) * HALF
    ensures sum < size * (m + 1)
  {
    MulMono(sum, HALF, size * k);
    assert sum * (size * k) == size * (sum * k);
    MulMono(size, sum * k + 1, (m + 1) * HALF);
    assert size * (sum * k + 1) == size * (sum * k) + size;
    assert size * ((m + 1) * HALF) == HALF * (size * (m + 1));
  }

  /** m is the floor or the ceiling of sum / size. */
  predicate Rounds(sum: int, size: int, m: int) {
    size * m < sum + size && sum < size * (m + 1)
  }

  lemma MulMono(s: int, a: int, b: int)
    requires 0 <= s && a <= b
    ensures s * a <= s * b
  {
  }

  lemma Cancel(s: int, a: int, b: int)
    requires 1 <= s && s * a < s * b
    ensures a < b
  {
    if b <= a {
      MulMono(s, b, a);
      assert false;
    }
  }

  lemma Distribute(s: int, a: int, b: int)
    ensures s * (a + b) == s * a + s * b && s * (a - b) == s * a - s * b
  {
  }

  lemma {:induction false} MeanBelow(sum: nat, size: int, v: int)
    requires 1 <= size && sum <= 255 * size && sum * Kscale(size) < v * HALF
    ensures Mean(sum, size) < v
  {
  }

  /** A flat area keeps its value exactly when the reciprocal is exact. */
  lemma {:induction false} FlatIffExact(size: int, v: byte)
    requires 1 <= size && 1 <= v
    ensures (v as int) * size <= 255 * size
    ensures Mean((v as int) * size, size) == v <==> Exact(size)
  {
    var w, sum := v as int, (v as int) * size;
    MulMono(size, w, 255);
    if Exact(size) {
      MeanAtMostCeiling(sum, size);
      MeanAtLeastFloor(sum, size);
      hide Mean;
      RoundsExactly(size, w, Mean(sum, size));
    } else {
      FlatLoses(size, w);
      MeanBelow(sum, size, w);
    }
  }

  lemma {:induction false} FlatLoses(size: int, w: int)
    requires 1 <= size && 1 <= w && !Exact(size)
    ensures w * size * Kscale(size) < w * HALF
  {
    ExactMeans(size);
    hide Kscale;
    hide Exact;
    var q := size * Kscale(size);
    assert w * size * Kscale(size) == w * q;
    MulMono(w, q, HALF - 1);
  }

  lemma {:induction false} RoundsExactly(size: int, v: int, m: int)
    requires 1 <= size && size * m < v * size + size && v * size < size * (m + 1)
    ensures m == v
  {
    assert size * (v + 1) == v * size + size && size * v == v * size;
    Cancel(size, m, v + 1);
    Cancel(size, v, m + 1);
  }

  /** The blur averages, to the nearest level below or above, exactly when the reciprocal is exact. */
  lemma {:induction false} RoundsIffExact(size: int)
    requires 1 <= size
    ensures Exact(size) <==> forall sum | 0 <= sum <= 255 * size :: Rounds(sum, size, Mean(sum, size))
  {
    if Exact(size) {
      forall sum | 0 <= sum <= 255 * size ensures Rounds(sum, size, Mean(sum, size)) {
        MeanAtMostCeiling(sum, size);
        MeanAtLeastFloor(sum, size);
      }
    } else {
      FlatIffExact(size, 255);
      MeanAtMostCeiling(255 * size, size);
      var m := Mean(255 * size, size);
      hide Mean;
      if Rounds(255 * size, size, m) {
        RoundsExactly(size, 255, m);
      }
    }
  }

  /** The first window whose white areas come out one level too dark. */
  lemma InexactExample()
    ensures !Exact(33026) && Mean(255 * 33026, 33026) == 254
  {
  }

  lemma {:induction false} MeanMonotone(sum: nat, sum': nat, size: int)
    requires 1 <= size && sum <= sum' <= 255 * size
    ensures Mean(sum, size) <= Mean(sum', size)
  {
    var k := Kscale(size);
    assert sum * k <= sum' * k;
  }

  // ---------------------------------------------------------------------------------------------
  // What a blurred line is
  // ---------------------------------------------------------------------------------------------

  /** Every output channel is the mean of its window, rounded down or up. */
  lemma {:induction false} BlurAverages(line: seq<word>, size: int, x: int, c: Channel)
    requires 1 <= size && Exact(size)
    ensures Rounds(Window(line, c, size, x), size, Chan(BlurPixel(line, size, x), c))
  {
    BlurChannel(line, size, x, c);
    MeanAtMostCeiling(Window(line, c, size, x), size);
    MeanAtLeastFloor(Window(line, c, size, x), size);
    hide BlurPixel;
    hide Mean;
    hide Window;
  }

  /** A flat window keeps its value. */
  lemma {:induction false} BlurKeepsFlat(line: seq<word>, size: int, x: int, c: Channel, v: byte)
    requires 1 <= size && Exact(size) && forall i | x - size < i <= x :: At(line, i, c) == v
    ensures Chan(BlurPixel(line, size, x), c) == v
  {
    SumFlat(line, c, x - size + 1, x + 1, v);
    assert Window(line, c, size, x) == (v as int) * size;
    BlurAverages(line, size, x, c);
    hide BlurPixel;
    hide Window;
    RoundsExactly(size, v, Chan(BlurPixel(line, size, x), c));
  }

  lemma {:induction false} BlurKeepsPremultiplied(line: seq<word>, size: int, x: int)
    requires 1 <= size && forall i | 0 <= i < |line| :: Premultiplied(line[i])
    ensures Premultiplied(BlurPixel(line, size, x))
  {
    forall c: Channel ensures Chan(BlurPixel(line, size, x), c) <= Chan(BlurPixel(line, size, x), Alpha) {
      BlurChannel(line, size, x, c);
      BlurChannel(line, size, x, Alpha);
      SumPremultiplied(line, c, x - size + 1, x + 1);
      MeanMonotone(Window(line, c, size, x), Window(line, Alpha, size, x), size);
    }
  }

  function OutputTotal(line: seq<word>, size: int, c: Channel, n: nat): nat
    requires 1 <= size
  {
    if n == 0 then 0 else OutputTotal(line, size, c, n - 1) + Chan(BlurPixel(line, size, n - 1), c)
  }

  lemma {:induction false} OutputNearWindows(line: seq<word>, size: int, c: Channel, n: nat)
    requires 1 <= size && Exact(size)
    ensures Near(size, OutputTotal(line, size, c, n), WindowTotal(line, c, size, n), n)
  {
    hide BlurPixel;
    hide Window;
    hide Exact;
    hide Near;
    hide Rounds;
    if n == 0 {
      NearNothing(size);
    } else {
      OutputNearWindows(line, size, c, n - 1);
      BlurAverages(line, size, n - 1, c);
      NearStep(size, OutputTotal(line, size, c, n - 1), WindowTotal(line, c, size, n - 1), n - 1,
               Chan(BlurPixel(line, size, n - 1), c), Window(line, c, size, n - 1));
    }
  }

  /** `out` times size lies within n times size of the window total. */
  predicate Near(size: int, out: int, win: int, n: int) {
    if n == 0 then size * out == win else size * out - size * n < win < size * out + size * n
  }

  lemma NearNothing(size: int)
    ensures Near(size, 0, 0, 0)
  {
  }

  lemma {:induction false} NearStep(size: int, out: int, win: int, n: nat, m: int, sum: int)
    requires 1 <= size && Near(size, out, win, n) && Rounds(sum, size, m)
    ensures Near(size, out + m, win + sum, n + 1)
  {
    Distribute(size, out, m);
    Distribute(size, n, 1);
    Distribute(size, m, 1);
  }

  lemma {:induction false} NearMeans(size: int, out: int, total: int, n: int)
    requires 1 <= size && 1 <= n && Near(size, out, size * total, n)
    ensures -n < out - total < n
  {
    Distribute(size, out, n);
    Cancel(size, out - n, total);
    Cancel(size, total, out + n);
  }

  /** Energy is conserved: a blurred line differs from its source by less than one level per pixel. */
  lemma {:induction false} BlurConserves(line: seq<word>, size: int, c: Channel)
    requires 1 <= size && 1 <= |line| && Exact(size)
    ensures var dstw := |line| + size - 1;
            -dstw < OutputTotal(line, size, c, dstw) - Sum(line, c, 0, |line|) < dstw
  {
    var dstw, total := |line| + size - 1, Sum(line, c, 0, |line|);
    var out := OutputTotal(line, size, c, dstw);
    OutputNearWindows(line, size, c, dstw);
    WindowsConserve(line, c, size, dstw);
    NearMeans(size, out, total, dstw);
  }
}
