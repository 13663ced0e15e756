/** `jfloat` modelled as a real number: the cast to an integer and a little arithmetic. */
module Reals {

  /** The C cast from floating point to `int`: towards zero. */
  function Trunc(x: real): int {
    if x >= 0.0 then x.Floor else -(-x).Floor
  }

  lemma TruncMonotone(x: real, y: real)
    requires x <= y
    ensures Trunc(x) <= Trunc(y)
  {
  }

  lemma TruncOfInt(n: int, x: real)
    requires x == n as real
    ensures Trunc(x) == n
  {
  }

  lemma RealMulMono(k: real, x: real, y: real)
    requires 0.0 <= k && x <= y
    ensures k * x <= k * y
  {
  }

  lemma RealMulNonNeg(a: real, b: real)
    requires 0.0 <= a && 0.0 <= b
    ensures 0.0 <= a * b
  {
  }

  lemma RealPart(k: real, part: real)
    requires 0.0 <= k && 0.0 <= part <= 1.0
    ensures 0.0 <= k * part <= k
  {
    var d := 1.0 - part;
    assert k * d >= 0.0;
    assert k * part == k - k * d;
  }

  /** A product that the prover does not take apart. */
  function Times(a: real, b: real): real {
    a * b
  }

  lemma TimesMono(k: real, x: real, y: real)
    requires 0.0 <= k && x <= y
    ensures Times(k, x) <= Times(k, y)
  {
    RealMulMono(k, x, y);
  }

  lemma TimesRotate(a: real, b: real, c: real)
    ensures Times(a, Times(b, c)) == Times(c, Times(a, b))
  {
  }

  lemma TimesPlusOne(a: real, b: real)
    ensures Times(a, b + 1.0) == Times(a, b) + a
  {
  }

  lemma TimesCast(a: nat, b: nat)
    ensures (a * b) as real == Times(a as real, b as real)
  {
  }

  lemma TimesOver(a: real, b: real, h: real)
    requires h > 0.0
    ensures Times(a, b / h) == Times(a, b) / h
  {
  }
}
