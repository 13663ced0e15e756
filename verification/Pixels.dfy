/** Pixels of the software effects (modules/graphics/src/main/native-decora): 32-bit ARGB patterns. */
module Pixels {
  import opened Words

  datatype Channel = Alpha | Red | Green | Blue

  /** `(rgb >> 24) & 0xff` and its companions, on the bit pattern of the jint. */
  function Chan(p: word, c: Channel): byte {
    match c
    case Alpha => p / 0x100_0000
    case Red => p / 0x1_0000 % 0x100
    case Green => p / 0x100 % 0x100
    case Blue => p % 0x100
  }

  /** The four channel bytes shifted into place and added. */
  function Argb(a: byte, r: byte, g: byte, b: byte): word {
    (a as int) * 0x100_0000 + (r as int) * 0x1_0000 + (g as int) * 0x100 + (b as int)
  }

  function Pick<T>(a: T, r: T, g: T, b: T, c: Channel): T {
    match c
    case Alpha => a
    case Red => r
    case Green => g
    case Blue => b
  }

  lemma UnpackPacked(a: byte, r: byte, g: byte, b: byte, c: Channel)
    ensures Chan(Argb(a, r, g, b), c) == Pick(a, r, g, b, c)
  {
    var p := Argb(a, r, g, b);
    assert p / 0x100 == (a as int) * 0x1_0000 + (r as int) * 0x100 + (g as int);
    assert p / 0x1_0000 == (a as int) * 0x100 + (r as int);
  }

  lemma PackUnpacked(p: word)
    ensures Argb(Chan(p, Alpha), Chan(p, Red), Chan(p, Green), Chan(p, Blue)) == p
  {
    var q := p / 0x100;
    assert p / 0x1_0000 == q / 0x100 && p / 0x100_0000 == q / 0x1_0000;
  }

  /** No colour channel exceeds alpha. */
  predicate Premultiplied(p: word) {
    Chan(p, Red) <= Chan(p, Alpha) && Chan(p, Green) <= Chan(p, Alpha) && Chan(p, Blue) <= Chan(p, Alpha)
  }

  /** In the memory of a little-endian machine a pixel is blue, green, red, alpha. */
  lemma {:induction false} BytesOfPixel(a: byte, r: byte, g: byte, b: byte)
    ensures LE(4, Argb(a, r, g, b)) == [b, g, r, a]
  {
    hide LE;
    var x: nat := r + 0x100 * a;
    var y: nat := g + 0x100 * x;
    ByteStep(4, b, y);
    ByteStep(3, g, x);
    ByteStep(2, r, a);
    ByteStep(1, a, 0);
    FourBytes(a, r, g, b, LE(0, 0));
    assert Argb(a, r, g, b) == b + 0x100 * y;
    hide Argb;
  }

  lemma FourBytes(a: byte, r: byte, g: byte, b: byte, rest: seq<byte>)
    ensures [b] + ([g] + ([r] + ([a] + rest))) == [b, g, r, a] + rest && (rest == [] ==> [b, g, r, a] + rest == [b, g, r, a])
  {
  }

  lemma {:induction false} ByteStep(n: nat, low: byte, high: nat)
    requires n > 0
    ensures LE(n, low + 0x100 * high) == [low] + LE(n - 1, high)
  {
    LEStep(n, low, high);
    hide LE;
  }
}
