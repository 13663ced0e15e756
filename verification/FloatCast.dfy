/** The C cast from an integer to `float`: 24 significant bits, round to nearest, ties to even. */
module FloatCast {
  import opened Words

  const TWO24: int := 0x100_0000

  /** The distance between neighbouring floats at this magnitude, where it exceeds one. */
  function Ulp(m: nat): (u: nat)
    ensures u >= 1
  {
    if m < TWO24 then 1 else 2 * Ulp(m / 2)
  }

  /** The nearest multiple of u, and between two of them the even one. */
  function RoundTo(m: nat, u: nat): nat
    requires u >= 1
  {
    var q, r := m / u, m % u;
    if 2 * r < u || (2 * r == u && q % 2 == 0) then q * u else (q + 1) * u
  }

  /** `(float) n` as an integer. */
  function Rounded(n: int): int {
    if n >= 0 then RoundTo(n, Ulp(n)) else 0 - RoundTo(-n, Ulp(-n))
  }

  /** n has no more than 24 significant bits. */
  predicate Exact(n: int) {
    if n >= 0 then n % Ulp(n) == 0 else (-n) % Ulp(-n) == 0
  }

  /** The first integers that the cast does not keep: both lie half way and go to the even neighbour. */
  lemma InexactExample()
    ensures !Exact(0x100_0001) && Rounded(0x100_0001) == 0x100_0000
    ensures !Exact(0x100_0003) && Rounded(0x100_0003) == 0x100_0004
  {
  }

  /** The cast keeps a number exactly when it has no more than 24 significant bits. */
  lemma RoundedIff(n: int)
    ensures Rounded(n) == n <==> Exact(n)
  {
    if n >= 0 {
      RoundToIff(n, Ulp(n));
    } else {
      RoundToIff(-n, Ulp(-n));
    }
  }

  lemma {:induction false} RoundToIff(m: nat, u: nat)
    requires u >= 1
    ensures RoundTo(m, u) == m <==> m % u == 0
  {
    var q, r := m / u, m % u;
    assert m == q * u + r;
    assert (q + 1) * u == q * u + u;
  }

  lemma {:induction false} UlpBounds(m: nat)
    ensures var u := Ulp(m); m < TWO24 * u && (u > 1 ==> TWO24 * u <= 2 * m)
  {
    if m >= TWO24 {
      UlpBounds(m / 2);
    }
  }

  /** Numbers in the range of a distance have that distance. */
  lemma {:induction false} SameUlp(m: nat, m': nat)
    requires var u := Ulp(m); m' < TWO24 * u && (u > 1 ==> TWO24 * u <= 2 * m')
    ensures Ulp(m') == Ulp(m)
  {
    if m >= TWO24 {
      SameUlp(m / 2, m' / 2);
    }
  }

  lemma {:induction false} NextUlp(m: nat)
    ensures Ulp(TWO24 * Ulp(m)) == 2 * Ulp(m)
  {
    var u := Ulp(m);
    if u == 1 {
      assert Ulp(TWO24 / 2) == 1;
    } else {
      SameUlp(m, TWO24 / 2 * u);
      assert TWO24 * u / 2 == TWO24 / 2 * u;
    }
  }

  /** The result of a cast is exact, so casting it again changes nothing. */
  lemma {:induction false} RoundedIsExact(n: int)
    ensures Exact(Rounded(n))
  {
    if n >= 0 {
      RoundToIsExact(n);
    } else {
      RoundToIsExact(-n);
    }
  }

  lemma {:induction false} RoundToIsExact(m: nat)
    ensures var r := RoundTo(m, Ulp(m)); r % Ulp(r) == 0
  {
    var u := Ulp(m);
    UlpBounds(m);
    var k := QuotientOf(m, u);
    hide RoundTo;
    if k == TWO24 {
      NextUlp(m);
      assert TWO24 * u == TWO24 / 2 * (2 * u);
      hide Ulp;
      MultipleMod(TWO24 / 2, 2 * u);
    } else {
      KeepsRange(k, u);
      SameUlp(m, k * u);
      hide Ulp;
      MultipleMod(k, u);
    }
  }

  lemma MultipleMod(k: nat, u: nat)
    requires u >= 1
    ensures (k * u) % u == 0
  {
    ModIs(k * u, u, k, 0);
  }

  lemma {:induction false} KeepsRange(k: nat, u: nat)
    requires k < TWO24 && u >= 1 && (u > 1 ==> TWO24 <= 2 * k)
    ensures k * u < TWO24 * u && (u > 1 ==> TWO24 * u <= 2 * (k * u))
  {
    MulLeq(k + 1, TWO24, u);
    assert (k + 1) * u == k * u + u;
    if u > 1 {
      MulLeq(TWO24, 2 * k, u);
      assert 2 * k * u == 2 * (k * u);
    }
  }

  /** The multiple of u that m is rounded to. */
  lemma {:induction false} QuotientOf(m: nat, u: nat) returns (k: nat)
    requires u >= 1 && m < TWO24 * u && (u > 1 ==> TWO24 * u <= 2 * m)
    ensures RoundTo(m, u) == k * u && k <= TWO24 && (u > 1 ==> TWO24 <= 2 * k)
  {
    var q, r := m / u, m % u;
    assert m == q * u + r;
    k := if 2 * r < u || (2 * r == u && q % 2 == 0) then q else q + 1;
    QuotientBelow(q, r, u);
    if u > 1 {
      QuotientAbove(q, r, u);
    }
  }

  lemma {:induction false} QuotientBelow(q: nat, r: nat, u: nat)
    requires q * u + r < TWO24 * u
    ensures q < TWO24
  {
    if q >= TWO24 {
      MulLeq(TWO24, q, u);
    }
  }

  lemma {:induction false} QuotientAbove(q: nat, r: nat, u: nat)
    requires r < u && TWO24 * u <= 2 * (q * u + r)
    ensures TWO24 <= 2 * q
  {
    if 2 * q + 2 <= TWO24 {
      MulLeq(2 * q + 2, TWO24, u);
    }
  }

  // ---------------------------------------------------------------------------------------------
  // Nearest
  // ---------------------------------------------------------------------------------------------

  function Distance(a: int, b: int): nat {
    if a >= b then a - b else b - a
  }

  lemma {:induction false} MultipleOutside(x: nat, u: nat, q: nat)
    requires u >= 1 && x % u == 0
    ensures x <= q * u || (q + 1) * u <= x
  {
    var p := x / u;
    assert x == p * u;
    if p <= q {
      MulLeq(p, q, u);
    } else {
      MulLeq(q + 1, p, u);
    }
  }

  /** A number between neighbouring multiples has their distance. */
  lemma {:induction false} UlpBetween(m: nat, x: nat)
    requires var u := Ulp(m); m / u * u < x < (m / u + 1) * u
    ensures Ulp(x) == Ulp(m)
  {
    var u, q := Ulp(m), m / Ulp(m);
    UlpBounds(m);
    assert m == q * u + m % u;
    hide Ulp;
    QuotientBelow(q, m % u, u);
    MulLeq(q + 1, TWO24, u);
    if u > 1 {
      QuotientAbove(q, m % u, u);
      MulLeq(TWO24, 2 * q, u);
      assert 2 * q * u == 2 * (q * u);
    }
    SameUlp(m, x);
  }

  /** Between neighbouring multiples there is no exact number. */
  lemma {:induction false} NoneBetween(m: nat, x: nat)
    requires x % Ulp(x) == 0
    ensures var u := Ulp(m); x <= m / u * u || (m / u + 1) * u <= x
  {
    hide Ulp;
    var u, q := Ulp(m), m / Ulp(m);
    if q * u < x < (q + 1) * u {
      UlpBetween(m, x);
      MultipleOutside(x, u, q);
    }
  }

  /** No float is nearer to an integer than the one it is cast to. */
  lemma {:induction false} RoundedIsNearest(n: int, x: int)
    requires Exact(x)
    ensures Distance(n, Rounded(n)) <= Distance(n, x)
  {
    if n >= 0 {
      NearestAbove(n, x);
    } else {
      ExactNegated(x);
      NearestAbove(-n, -x);
    }
  }

  lemma ExactNegated(x: int)
    requires Exact(x)
    ensures Exact(-x)
  {
  }

  lemma {:induction false} NearestAbove(m: nat, x: int)
    requires Exact(x)
    ensures Distance(m, RoundTo(m, Ulp(m))) <= Distance(m, x)
  {
    var u := Ulp(m);
    var q, r := m / u, m % u;
    assert m == q * u + r && (q + 1) * u == q * u + u;
    if x >= 0 {
      NoneBetween(m, x);
    }
    MulLeq(0, q, u);
    hide Ulp;
  }
}
