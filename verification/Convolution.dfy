/** Convolution of a signal with a kernel: the direct sum, and the ring buffer against a doubled kernel
    that SSELinearConvolvePeer.cc and SSELinearConvolveShadowPeer.cc use to compute it. */
module Convolution {
  import opened Reals

  /** The samples of a line by column; columns outside the line are zero. */
  type Signal = int -> real

  /** The kernel is stored twice, so that a rotated copy can be read without wrapping. */
  ghost predicate Doubled(kvals: seq<real>, k: int) {
    1 <= k && |kvals| == 2 * k && kvals[k..] == kvals[..k]
  }

  function Weigh(sample: real, weight: real): real {
    sample * weight
  }

  /** The contribution of the sample d columns back. */
  function Term(x: Signal, kvals: seq<real>, k: int, c: int, d: int): real
    requires 1 <= k <= |kvals| && 0 <= d < k
  {
    Weigh(x(c - d), kvals[k - 1 - d])
  }

  /** The terms lo .. hi - 1. */
  function Terms(x: Signal, kvals: seq<real>, k: int, c: int, lo: int, hi: int): real
    requires 1 <= k <= |kvals| && 0 <= lo && hi <= k
    decreases hi - lo
  {
    if hi <= lo then 0.0 else Term(x, kvals, k, c, lo) + Terms(x, kvals, k, c, lo + 1, hi)
  }

  /** Direct convolution: column c - d is weighted with kvals[k - 1 - d]. */
  function Conv(x: Signal, kvals: seq<real>, k: int, c: int): real
    requires 1 <= k <= |kvals|
  {
    Terms(x, kvals, k, c, 0, k)
  }

  lemma {:induction false} TermsSplit(x: Signal, kvals: seq<real>, k: int, c: int, lo: int, mid: int, hi: int)
    requires 1 <= k <= |kvals| && 0 <= lo <= mid <= hi <= k
    ensures Terms(x, kvals, k, c, lo, hi) == Terms(x, kvals, k, c, lo, mid) + Terms(x, kvals, k, c, mid, hi)
    decreases mid - lo
  {
    if lo < mid {
      TermsSplit(x, kvals, k, c, lo + 1, mid, hi);
    }
  }

  // ---------------------------------------------------------------------------------------------
  // The ring
  // ---------------------------------------------------------------------------------------------

  /** How many columns ago slot j was loaded, when slot m has just been loaded. */
  function Age(m: int, j: int, k: int): int {
    if j <= m then m - j else m - j + k
  }

  /** The slot loaded after slot m. */
  function NextSlot(m: int, k: int): int {
    if m == k - 1 then 0 else m + 1
  }

  /** The kernel offset that goes with slot m. */
  function Koff(m: int, k: int): int {
    if m == k - 1 then k else k - 1 - m
  }

  /** Every slot holds the sample of the column in which it was loaded; slot m was loaded in column c. */
  ghost predicate Loaded(ring: seq<real>, x: Signal, c: int, m: int, k: int) {
    0 <= m < k == |ring| && forall j | 0 <= j < k :: ring[j] == x(c - Age(m, j, k))
  }

  lemma RingStarts(ring: seq<real>, x: Signal, k: int)
    requires 1 <= k == |ring| && forall j | 0 <= j < k :: ring[j] == 0.0
    requires forall i | i < 0 :: x(i) == 0.0
    ensures Loaded(ring, x, -1, k - 1, k)
  {
  }

  /** Loading the next slot with the next column. */
  lemma RingTurns(ring: seq<real>, x: Signal, c: int, m: int, k: int)
    requires Loaded(ring, x, c, m, k)
    ensures 0 <= NextSlot(m, k) < k
    ensures Loaded(ring[NextSlot(m, k) := x(c + 1)], x, c + 1, NextSlot(m, k), k)
  {
    var m' := NextSlot(m, k);
    forall j | 0 <= j < k && j != m' ensures Age(m', j, k) == Age(m, j, k) + 1 {
    }
  }

  /** The inner loop: the first n slots against the kernel from koff on. */
  function RingSum(ring: seq<real>, kvals: seq<real>, koff: int, n: nat): real
    requires n <= |ring| && 0 <= koff && koff + n <= |kvals|
  {
    if n == 0 then 0.0 else RingSum(ring, kvals, koff, n - 1) + Weigh(ring[n - 1], kvals[koff + n - 1])
  }

  /** Each slot meets the kernel value of its age. */
  lemma {:induction false} SlotTerm(ring: seq<real>, x: Signal, kvals: seq<real>, c: int, m: int, k: int, j: int)
    requires Loaded(ring, x, c, m, k) && Doubled(kvals, k) && 0 <= j < k
    ensures Weigh(ring[j], kvals[Koff(m, k) + j]) == Term(x, kvals, k, c, Age(m, j, k))
  {
    var i := k - 1 - Age(m, j, k);
    assert Koff(m, k) + j == i || Koff(m, k) + j == i + k;
    assert kvals[i + k] == kvals[k..][i];
  }

  /** The first n slots in order of age: from slot m back to slot 0, then from the oldest on. */
  function Partial(x: Signal, kvals: seq<real>, k: int, c: int, m: int, n: nat): real
    requires 1 <= k <= |kvals| && 0 <= m < k && n <= k
  {
    if n <= m + 1 then Terms(x, kvals, k, c, m + 1 - n, m + 1)
    else Terms(x, kvals, k, c, 0, m + 1) + Terms(x, kvals, k, c, m + 1 - n + k, k)
  }

  /** One more slot adds the term of its age. */
  lemma {:induction false} PartialStep(x: Signal, kvals: seq<real>, k: int, c: int, m: int, n: nat)
    requires 1 <= k <= |kvals| && 0 <= m < k && n < k
    ensures Partial(x, kvals, k, c, m, n + 1) == Partial(x, kvals, k, c, m, n) + Term(x, kvals, k, c, Age(m, n, k))
  {
    hide Weigh;
    if n <= m {
      assert Age(m, n, k) == m - n;
    } else if n == m + 1 {
      assert Age(m, n, k) == k - 1;
      assert Terms(x, kvals, k, c, k - 1, k) == Term(x, kvals, k, c, k - 1);
    } else {
      assert Age(m, n, k) == m - n + k;
    }
  }

  lemma {:induction false} RingPartial(ring: seq<real>, x: Signal, kvals: seq<real>, c: int, m: int, k: int, n: nat)
    requires Loaded(ring, x, c, m, k) && Doubled(kvals, k) && n <= k
    ensures RingSum(ring, kvals, Koff(m, k), n) == Partial(x, kvals, k, c, m, n)
  {
    if n > 0 {
      hide Weigh;
      hide Partial;
      RingPartial(ring, x, kvals, c, m, k, n - 1);
      SlotTerm(ring, x, kvals, c, m, k, n - 1);
      PartialStep(x, kvals, k, c, m, n - 1);
    }
  }

  /** The ring buffer computes the direct convolution. */
  lemma {:induction false} RingIsConv(ring: seq<real>, x: Signal, kvals: seq<real>, c: int, m: int, k: int)
    requires Loaded(ring, x, c, m, k) && Doubled(kvals, k)
    ensures RingSum(ring, kvals, Koff(m, k), k) == Conv(x, kvals, k, c)
  {
    RingPartial(ring, x, kvals, c, m, k, k);
    TermsSplit(x, kvals, k, c, 0, m + 1, k);
  }

  // ---------------------------------------------------------------------------------------------
  // Laws of the convolution
  // ---------------------------------------------------------------------------------------------

  /** With a non-negative kernel a larger signal has a larger convolution. */
  lemma {:induction false} TermsMonotone(x: Signal, y: Signal, kvals: seq<real>, k: int, c: int, lo: int)
    requires 1 <= k <= |kvals| && 0 <= lo <= k
    requires forall i :: x(i) <= y(i)
    requires forall j | 0 <= j < k :: 0.0 <= kvals[j]
    ensures Terms(x, kvals, k, c, lo, k) <= Terms(y, kvals, k, c, lo, k)
    decreases k - lo
  {
    if lo < k {
      TermsMonotone(x, y, kvals, k, c, lo + 1);
      var f, d := kvals[k - 1 - lo], y(c - lo) - x(c - lo);
      RealMulNonNeg(f, d);
      assert y(c - lo) * f - x(c - lo) * f == f * d;
    }
  }
}
