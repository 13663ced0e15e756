/** Sliding-window sums over one line of pixels, and the laws that make them useful. */
module BoxWindow {
  import opened Words
  import opened Pixels

  /** The sample at column i; the line is black and transparent outside. */
  function At(line: seq<word>, i: int, c: Channel): byte {
    if 0 <= i < |line| then Chan(line[i], c) else 0
  }

  /** The samples in columns lo .. hi - 1. */
  function Sum(line: seq<word>, c: Channel, lo: int, hi: int): (s: nat)
    ensures lo <= hi ==> s <= 255 * (hi - lo)
    decreases hi - lo
  {
    if hi <= lo then 0 else Sum(line, c, lo, hi - 1) + At(line, hi - 1, c)
  }

  /** The `size` columns that end at x. */
  function Window(line: seq<word>, c: Channel, size: int, x: int): (s: nat)
    ensures size >= 0 ==> s <= 255 * size
  {
    Sum(line, c, x - size + 1, x + 1)
  }

  lemma {:induction false} SumFirst(line: seq<word>, c: Channel, lo: int, hi: int)
    requires lo < hi
    ensures Sum(line, c, lo, hi) == At(line, lo, c) + Sum(line, c, lo + 1, hi)
    decreases hi - lo
  {
    if lo + 1 < hi {
      SumFirst(line, c, lo, hi - 1);
    }
  }

  /** The update of the running sum. */
  lemma {:induction false} WindowSlides(line: seq<word>, c: Channel, size: int, x: int)
    requires size >= 1
    ensures Window(line, c, size, x) == Window(line, c, size, x - 1) - At(line, x - size, c) + At(line, x, c)
  {
    SumFirst(line, c, x - size, x);
  }

  lemma {:induction false} SumOutside(line: seq<word>, c: Channel, lo: int, hi: int)
    requires hi <= 0 || |line| <= lo
    ensures Sum(line, c, lo, hi) == 0
    decreases hi - lo
  {
    if lo < hi {
      SumOutside(line, c, lo, hi - 1);
    }
  }

  lemma {:induction false} SumSplit(line: seq<word>, c: Channel, lo: int, mid: int, hi: int)
    requires lo <= mid <= hi
    ensures Sum(line, c, lo, hi) == Sum(line, c, lo, mid) + Sum(line, c, mid, hi)
    decreases hi - mid
  {
    if mid < hi {
      SumSplit(line, c, lo, mid, hi - 1);
    }
  }

  /** All window sums of a blurred line together. */
  function WindowTotal(line: seq<word>, c: Channel, size: int, n: nat): nat
    requires size >= 0
  {
    if n == 0 then 0 else WindowTotal(line, c, size, n - 1) + Window(line, c, size, n - 1)
  }

  lemma {:induction false} WindowWidens(line: seq<word>, c: Channel, size: nat, x: int)
    ensures Window(line, c, size + 1, x) == Window(line, c, size, x) + At(line, x - size, c)
  {
    hide At;
    SumFirst(line, c, x - size, x + 1);
  }

  /** WindowTotal for windows of one more column. */
  lemma {:induction false} WidenTotal(line: seq<word>, c: Channel, size: nat, n: nat)
    ensures WindowTotal(line, c, size + 1, n) == WindowTotal(line, c, size, n) + Sum(line, c, 0 - size, n - size)
  {
    if n == 0 {
      SumOutside(line, c, 0 - size, 0 - size);
    } else {
      hide At;
      WidenTotal(line, c, size, n - 1);
      WindowWidens(line, c, size, n - 1);
    }
  }

  /** Conservation: every source pixel is counted by exactly `size` windows. */
  lemma {:induction false} WindowsConserve(line: seq<word>, c: Channel, size: nat, n: nat)
    requires n + 1 >= |line| + size
    ensures WindowTotal(line, c, size, n) == size * Sum(line, c, 0, |line|)
  {
    if size == 0 {
      ZeroWindows(line, c, n);
    } else {
      var w := |line|;
      WindowsConserve(line, c, size - 1, n);
      WidenTotal(line, c, size - 1, n);
      var lo, hi := 1 - size, n + 1 - size;
      SumSplit(line, c, lo, 0, hi);
      SumOutside(line, c, lo, 0);
      SumSplit(line, c, 0, w, hi);
      SumOutside(line, c, w, hi);
      assert size * Sum(line, c, 0, w) == (size - 1) * Sum(line, c, 0, w) + Sum(line, c, 0, w);
    }
  }

  lemma {:induction false} ZeroWindows(line: seq<word>, c: Channel, n: nat)
    ensures WindowTotal(line, c, 0, n) == 0
  {
    if n > 0 {
      ZeroWindows(line, c, n - 1);
    }
  }

  /** A window of a premultiplied line is premultiplied. */
  lemma {:induction false} SumPremultiplied(line: seq<word>, c: Channel, lo: int, hi: int)
    requires forall i | 0 <= i < |line| :: Premultiplied(line[i])
    ensures Sum(line, c, lo, hi) <= Sum(line, Alpha, lo, hi)
    decreases hi - lo
  {
    if lo < hi {
      SumPremultiplied(line, c, lo, hi - 1);
    }
  }

  /** A window that lies inside the line and holds one value sums to that value times its size. */
  lemma {:induction false} SumFlat(line: seq<word>, c: Channel, lo: int, hi: int, v: byte)
    requires lo <= hi && forall i | lo <= i < hi :: At(line, i, c) == v
    ensures Sum(line, c, lo, hi) == (v as int) * (hi - lo)
    decreases hi - lo
  {
    if lo < hi {
      SumFlat(line, c, lo, hi - 1, v);
      assert (v as int) * (hi - lo) == (v as int) * (hi - 1 - lo) + v;
    }
  }
}
