/** Machine words of the trace format: bytes, 32-bit and 64-bit patterns, little-endian layout. */
module Words {

  type byte = x: int | 0 <= x < 0x100
  type word = x: int | 0 <= x < 0x1_0000_0000
  type dword = x: int | 0 <= x < 0x1_0000_0000_0000_0000

  datatype Option<+T> = None | Some(value: T)

  function Front<T>(s: seq<T>): seq<T>
    requires s != []
  {
    s[..|s| - 1]
  }

  function Last<T>(s: seq<T>): T
    requires s != []
  {
    s[|s| - 1]
  }

  lemma Assoc<T>(a: seq<T>, b: seq<T>, c: seq<T>)
    ensures a + b + c == a + (b + c)
  {
  }

  lemma SameTail<T>(x: T, a: seq<T>, b: seq<T>)
    ensures [x] + a == [x] + b <==> a == b
  {
    assert ([x] + a)[1..] == a && ([x] + b)[1..] == b;
  }

  lemma Snoc3<T>(a: seq<T>, x: T, y: T, z: T)
    ensures a + [x] + [y] + [z] == a + [x, y, z]
  {
  }

  lemma Regroup<T>(a: seq<T>, x: T, y: T, b: seq<T>)
    ensures a + ([x] + ([y] + b)) == a + [x] + [y] + b
  {
  }

  lemma MulStep(j: nat, n: nat, e: nat)
    requires j < n
    ensures (j + 1) * e == j * e + e <= n * e
  {
    assert (j + 1) * e <= n * e;
  }

  lemma {:induction false} MulLeq(a: int, b: int, k: int)
    requires a <= b && 0 <= k
    ensures a * k <= b * k
  {
  }

  lemma {:induction false} SmallMultiple(d: int, n: int)
    requires -n < d * n < n
    ensures d == 0
  {
  }

  lemma {:induction false} ModIs(x: int, n: int, q: int, r: int)
    requires n > 0 && x == q * n + r && 0 <= r < n
    ensures x % n == r
  {
    var d := x / n - q;
    assert x == (x / n) * n + x % n;
    assert d * n == r - x % n;
    SmallMultiple(d, n);
  }

  /** The value of a 32-bit pattern read as a C `int`. */
  function Signed(w: word): int {
    if w < 0x8000_0000 then w else w - 0x1_0000_0000
  }

  /** The 32-bit pattern of a C `int`. */
  function Pattern(i: int): word
    requires -0x8000_0000 <= i < 0x8000_0000
  {
    if i >= 0 then i else i + 0x1_0000_0000
  }

  /** The number of patterns of n bytes. */
  function Patterns(n: nat): (p: nat)
    ensures p > 0
  {
    if n == 0 then 1 else 0x100 * Patterns(n - 1)
  }

  /** The n bytes of x, least significant first. */
  function LE(n: nat, x: nat): (s: seq<byte>)
    ensures |s| == n
  {
    if n == 0 then [] else [x % 0x100] + LE(n - 1, x / 0x100)
  }

  /** The number stored in s, least significant byte first. */
  function Num(s: seq<byte>): (x: nat)
    ensures x < Patterns(|s|)
  {
    if s == [] then 0 else s[0] as int + 0x100 * Num(s[1..])
  }

  lemma {:induction false} NumOfLE(n: nat, x: nat)
    requires x < Patterns(n)
    ensures Num(LE(n, x)) == x
  {
    if n > 0 {
      NumOfLE(n - 1, x / 0x100);
    }
  }

  function U32(s: seq<byte>): word
    requires |s| >= 4
  {
    assert Patterns(4) == 0x1_0000_0000;
    Num(s[..4])
  }

  function U64(s: seq<byte>): dword
    requires |s| >= 8
  {
    assert Patterns(8) == 0x1_0000_0000_0000_0000;
    Num(s[..8])
  }

  /** Reading a stored number gives it back, whatever follows it. */
  lemma {:induction false} U32OfLE(w: word, rest: seq<byte>)
    ensures U32(LE(4, w) + rest) == w
    ensures (LE(4, w) + rest)[4..] == rest
  {
    assert Patterns(4) == 0x1_0000_0000;
    NumOfLE(4, w);
    assert (LE(4, w) + rest)[..4] == LE(4, w);
  }

  lemma {:induction false} U64OfLE(d: dword, rest: seq<byte>)
    ensures U64(LE(8, d) + rest) == d
    ensures (LE(8, d) + rest)[8..] == rest
  {
    assert Patterns(8) == 0x1_0000_0000_0000_0000;
    NumOfLE(8, d);
    assert (LE(8, d) + rest)[..8] == LE(8, d);
  }

  /** A 64-bit number is stored as its two halves, the low one first. */
  lemma {:induction false} LE8Halves(d: dword)
    ensures LE(8, d) == LE(4, d % 0x1_0000_0000) + LE(4, d / 0x1_0000_0000)
  {
    var lo, hi := d % 0x1_0000_0000, d / 0x1_0000_0000;
    assert Patterns(4) == 0x1_0000_0000;
    LESplit(4, 4, lo, hi);
  }

  lemma {:induction false} LEStep(n: nat, lo: nat, y: nat)
    requires n > 0
    ensures LE(n, lo + 0x100 * y) == [lo % 0x100] + LE(n - 1, lo / 0x100 + y)
  {
    var x := lo + 0x100 * y;
    assert x % 0x100 == lo % 0x100 && x / 0x100 == lo / 0x100 + y;
  }

  lemma MulAssoc(a: nat, b: nat, c: nat)
    ensures a * b * c == a * (b * c)
  {
  }

  lemma {:induction false} LESplit(n: nat, m: nat, lo: nat, hi: nat)
    requires lo < Patterns(n)
    ensures LE(n + m, lo + Patterns(n) * hi) == LE(n, lo) + LE(m, hi)
  {
    if n > 0 {
      var p := Patterns(n - 1);
      assert Patterns(n) == 0x100 * p;
      hide Patterns;
      MulAssoc(0x100, p, hi);
      LEStep(n + m, lo, p * hi);
      assert LE(n, lo) == [lo % 0x100] + LE(n - 1, lo / 0x100);
      hide LE;
      LESplit(n - 1, m, lo / 0x100, hi);
      Assoc([lo % 0x100], LE(n - 1, lo / 0x100), LE(m, hi));
    } else {
      assert Patterns(0) * hi == hi && LE(0, lo) + LE(m, hi) == LE(m, hi);
    }
  }
}
