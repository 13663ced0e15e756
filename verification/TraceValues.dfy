/** The typed values of the trace log (tools/gltrace/iolib.c): what each `put` function appends,
    what each `get` function reads back, and the laws that relate the two.

    A `float` is its 32-bit pattern, a pointer its numeric value, a C string its bytes without the
    terminating NUL; `None` is the NULL pointer. */
module TraceValues {
  import opened Words

  const MARKER: word := 0xdead_bead
  const FLOAT_MARKER: word := 0x4f5e_adbf  // the pattern of (float)MARKER
  const MAX_SIZE: int := 0x7fff_fffc       // larger sizes overflow the rounding in getBytes

  type cstring = s: seq<byte> | 0 !in s && |s| < MAX_SIZE
  type blob = s: seq<byte> | |s| <= MAX_SIZE
  type negative = x: int | -0x8000_0000 <= x < 0 witness -1

  /** One `put`.  putBytes with a NULL pointer or a zero size is B([]); with a negative size and a
      non-NULL pointer it is BNeg. */
  datatype Value =
    | I(w: word)
    | F(w: word)
    | IP(ptr: Option<word>)
    | FP(ptr: Option<word>)
    | LL(d: dword)
    | P(d: dword)
    | S(str: Option<cstring>)
    | B(bytes: blob)
    | BNeg(size: negative)

  /** The getter a value is read with. */
  datatype Kind = KI | KF | KIP | KFP | KLL | KP | KS | KB

  function KindOf(v: Value): Kind {
    match v
    case I(_) => KI
    case F(_) => KF
    case IP(_) => KIP
    case FP(_) => KFP
    case LL(_) => KLL
    case P(_) => KP
    case S(_) => KS
    case B(_) => KB
    case BNeg(_) => KB
  }

  function Kinds(vs: seq<Value>): (ks: seq<Kind>)
    ensures |ks| == |vs| && forall i | 0 <= i < |vs| :: ks[i] == KindOf(vs[i])
  {
    if vs == [] then [] else [KindOf(vs[0])] + Kinds(vs[1..])
  }

  /** `sizeof(void*)` of the recording process. */
  type wordsize = n: int | n == 4 || n == 8 witness 8

  // ---------------------------------------------------------------------------------------------
  // Writing
  // ---------------------------------------------------------------------------------------------

  function Zeros(n: nat): (s: seq<byte>)
    ensures |s| == n
  {
    seq(n, _ => 0)
  }

  /** The bytes needed to reach the next multiple of four. */
  function PadLength(n: nat): nat {
    if n % 4 == 0 then 0 else 4 - n % 4
  }

  function Padded(s: seq<byte>): seq<byte> {
    s + Zeros(PadLength(|s|))
  }

  /** The escape of putIntPtr and putFloatPtr. */
  function Marked(p: Option<word>, marker: word): seq<byte> {
    if p.None? then LE(4, marker) + LE(4, 0)
    else if p.value == marker then LE(4, marker) + LE(4, marker)
    else LE(4, p.value)
  }

  function Terminated(s: Option<cstring>): seq<byte> {
    if s.None? then LE(4, 0) else Padded(s.value + [0])
  }

  function Pointer(ws: wordsize, d: dword): seq<byte> {
    if ws == 4 then LE(4, d % 0x1_0000_0000) else LE(8, d)
  }

  function Enc(ws: wordsize, v: Value): seq<byte> {
    match v
    case I(w) => LE(4, w)
    case F(w) => LE(4, w)
    case IP(p) => Marked(p, MARKER)
    case FP(p) => Marked(p, FLOAT_MARKER)
    case LL(d) => LE(8, d)
    case P(d) => Pointer(ws, d)
    case S(s) => Terminated(s)
    case B(bytes) => LE(4, |bytes|) + Padded(bytes)
    case BNeg(size) => LE(4, Pattern(size))
  }

  function EncAll(ws: wordsize, vs: seq<Value>): seq<byte> {
    if vs == [] then [] else Enc(ws, vs[0]) + EncAll(ws, vs[1..])
  }

  lemma {:induction false} EncAllAppend(ws: wordsize, a: seq<Value>, b: seq<Value>)
    ensures EncAll(ws, a + b) == EncAll(ws, a) + EncAll(ws, b)
  {
    if a == [] {
      assert a + b == b;
    } else {
      assert (a + b)[0] == a[0] && (a + b)[1..] == a[1..] + b;
      EncAllAppend(ws, a[1..], b);
      Assoc(Enc(ws, a[0]), EncAll(ws, a[1..]), EncAll(ws, b));
    }
  }

  lemma {:induction false} EncSnoc(ws: wordsize, vs: seq<Value>, v: Value)
    ensures EncAll(ws, vs + [v]) == EncAll(ws, vs) + Enc(ws, v)
  {
    EncAllAppend(ws, vs, [v]);
    assert EncAll(ws, [v]) == Enc(ws, v) + [];
  }

  /** The arguments putBytes can be called with: enough bytes behind the pointer. */
  predicate BytesArgs(data: Option<seq<byte>>, size: int) {
    -0x8000_0000 <= size <= MAX_SIZE && (data.Some? ==> size <= |data.value|)
  }

  function BytesValue(data: Option<seq<byte>>, size: int): Value
    requires BytesArgs(data, size)
  {
    if data.None? || size == 0 then B([]) else if size < 0 then BNeg(size) else B(data.value[..size])
  }

  // ---------------------------------------------------------------------------------------------
  // Reading
  // ---------------------------------------------------------------------------------------------

  /** The outcome of a getter: a value and the bytes still unread, or an access past the mapping. */
  datatype Read<+T> = Read(value: T, rest: seq<byte>) | Overrun {
    predicate IsFailure() { Overrun? }
    function PropagateFailure<U>(): Read<U> requires Overrun? { Overrun }
    function Extract(): (T, seq<byte>) requires Read? { (value, rest) }
  }

  function Drop(rest: seq<byte>, n: nat): seq<byte> {
    if n <= |rest| then rest[n..] else []
  }

  function GetInt(rest: seq<byte>): Read<word> {
    if |rest| < 4 then Read(0, rest) else Read(U32(rest), rest[4..])
  }

  function GetLongLong(rest: seq<byte>): Read<dword> {
    if |rest| < 8 then Read(0, rest) else Read(U64(rest), rest[8..])
  }

  /** A 4-byte pointer is read as `int32_t` and so sign-extended. */
  function SignExtend(w: word): dword {
    if w < 0x8000_0000 then w else 0xffff_ffff_0000_0000 + (w as int)
  }

  function GetPtr(ws: wordsize, rest: seq<byte>): Read<dword> {
    if |rest| < ws then Read(0, rest)
    else if ws == 4 then Read(SignExtend(U32(rest)), rest[4..])
    else Read(U64(rest), rest[8..])
  }

  function GetIntPtr(rest: seq<byte>): Read<Option<word>> {
    if |rest| < 4 then Read(None, rest)
    else if U32(rest) != MARKER then Read(Some(U32(rest)), rest[4..])
    else if |rest| < 8 then Overrun
    else Read(if U32(rest[4..]) == 0 then None else Some(U32(rest[4..])), rest[8..])
  }

  predicate IsFloatZero(w: word) {
    w == 0 || w == 0x8000_0000
  }

  /** Unlike getIntPtr, the marker branch does not step over the second word. */
  function GetFloatPtr(rest: seq<byte>): Read<Option<word>> {
    if |rest| < 4 then Read(None, rest)
    else if U32(rest) != FLOAT_MARKER then Read(Some(U32(rest)), rest[4..])
    else if |rest| < 8 then Overrun
    else Read(if IsFloatZero(U32(rest[4..])) then None else Some(U32(rest[4..])), rest[4..])
  }

  /** `strlen`, when the string ends inside `rest`. */
  function StrLen(rest: seq<byte>): (n: nat)
    requires 0 in rest
    ensures n < |rest| && rest[n] == 0 && 0 !in rest[..n]
  {
    if rest[0] == 0 then 0
    else
      var n := 1 + StrLen(rest[1..]);
      assert rest[..n] == [rest[0]] + rest[1..][..n - 1];
      n
  }

  /** Strings too long for `int` arithmetic count as overruns. */
  function GetString(rest: seq<byte>): Read<cstring> {
    if 0 !in rest || StrLen(rest) >= MAX_SIZE then Overrun
    else
      var n := StrLen(rest);
      Read(rest[..n], Drop(rest, n + 1 + PadLength(n + 1)))
  }

  /** NULL is the empty blob: a non-NULL result is never empty. */
  function GetBytes(rest: seq<byte>): Read<blob> {
    if |rest| < 4 then Read([], rest)
    else
      var size := Signed(U32(rest));
      var tail := rest[4..];
      if size <= 0 || size > |tail| then Read([], tail)
      else if size > MAX_SIZE then Overrun
      else Read(tail[..size], Drop(tail, size + PadLength(size)))
  }

  function Dec(ws: wordsize, k: Kind, rest: seq<byte>): (r: Read<Value>)
    ensures r.Read? ==> |r.rest| <= |rest|
  {
    match k
    case KI => var (w, r) :- GetInt(rest); Read(I(w), r)
    case KF => var (w, r) :- GetInt(rest); Read(F(w), r)
    case KIP => var (p, r) :- GetIntPtr(rest); Read(IP(p), r)
    case KFP => var (p, r) :- GetFloatPtr(rest); Read(FP(p), r)
    case KLL => var (d, r) :- GetLongLong(rest); Read(LL(d), r)
    case KP => var (d, r) :- GetPtr(ws, rest); Read(P(d), r)
    case KS => var (s, r) :- GetString(rest); Read(S(Some(s)), r)
    case KB => var (b, r) :- GetBytes(rest); Read(B(b), r)
  }

  function DecAll(ws: wordsize, ks: seq<Kind>, rest: seq<byte>): (r: Read<seq<Value>>)
    ensures r.Read? ==> |r.rest| <= |rest|
  {
    if ks == [] then Read([], rest)
    else
      var (v, r1) :- Dec(ws, ks[0], rest);
      var (vs, r2) :- DecAll(ws, ks[1..], r1);
      Read([v] + vs, r2)
  }

  // ---------------------------------------------------------------------------------------------
  // Round trip
  // ---------------------------------------------------------------------------------------------

  /** The value a reader sees: a NULL string becomes the empty string, a negative blob becomes NULL,
      a 4-byte pointer is sign-extended, everything else is unchanged. */
  function Seen(ws: wordsize, v: Value): Value {
    match v
    case P(d) => P(SeenPtr(ws, d))
    case S(s) => S(Some(SeenStr(s)))
    case BNeg(_) => B([])
    case _ => v
  }

  function SeenPtr(ws: wordsize, d: dword): dword {
    if ws == 4 then SignExtend(d % 0x1_0000_0000) else d
  }

  function SeenStr(s: Option<cstring>): cstring {
    if s.None? then [] else s.value
  }

  function SeenAll(ws: wordsize, vs: seq<Value>): seq<Value> {
    if vs == [] then [] else [Seen(ws, vs[0])] + SeenAll(ws, vs[1..])
  }

  /** The values whose getter consumes exactly what their `put` wrote. */
  predicate InStep(v: Value) {
    v.FP? ==> v.ptr.Some? && v.ptr.value != FLOAT_MARKER
  }

  predicate AllInStep(vs: seq<Value>) {
    forall i | 0 <= i < |vs| :: InStep(vs[i])
  }

  /** Decoding what was encoded gives the seen value, and the rest exactly when the value is in step. */
  ghost predicate RoundTrips(ws: wordsize, v: Value, rest: seq<byte>) {
    var r := Dec(ws, KindOf(v), Enc(ws, v) + rest);
    r.Read? && r.value == Seen(ws, v) && (r.rest == rest <==> InStep(v))
  }

  lemma {:induction false} IntRoundTrip(ws: wordsize, w: word, rest: seq<byte>)
    ensures RoundTrips(ws, I(w), rest) && RoundTrips(ws, F(w), rest)
  {
    U32OfLE(w, rest);
  }

  lemma {:induction false} LongLongRoundTrip(ws: wordsize, d: dword, rest: seq<byte>)
    ensures RoundTrips(ws, LL(d), rest)
  {
    U64OfLE(d, rest);
  }

  lemma {:induction false} MarkedWords(p: Option<word>, marker: word, rest: seq<byte>)
    ensures var bytes := Marked(p, marker) + rest;
            if p.None? || p.value == marker then
              && |bytes| == |rest| + 8 && U32(bytes) == marker
              && U32(bytes[4..]) == (if p.None? then 0 else marker)
              && bytes[8..] == rest
            else
              |bytes| == |rest| + 4 && U32(bytes) == p.value && bytes[4..] == rest
  {
    if p.None? || p.value == marker {
      var second: word := if p.None? then 0 else marker;
      var bytes := LE(4, marker) + (LE(4, second) + rest);
      assert Marked(p, marker) + rest == bytes;
      U32OfLE(marker, LE(4, second) + rest);
      U32OfLE(second, rest);
      assert bytes[8..] == bytes[4..][4..];
    } else {
      U32OfLE(p.value, rest);
    }
  }

  /** The marker escape separates a NULL pointer from a value equal to the marker. */
  lemma {:induction false} IntPtrRoundTrip(ws: wordsize, p: Option<word>, rest: seq<byte>)
    ensures RoundTrips(ws, IP(p), rest)
  {
    MarkedWords(p, MARKER, rest);
  }

  /** getFloatPtr returns the value written, but stays one word behind after a marker. */
  lemma {:induction false} FloatPtrRoundTrip(ws: wordsize, p: Option<word>, rest: seq<byte>)
    ensures RoundTrips(ws, FP(p), rest)
  {
    MarkedWords(p, FLOAT_MARKER, rest);
  }

  lemma {:induction false} StrLenOf(s: seq<byte>, rest: seq<byte>)
    requires 0 !in s
    ensures 0 in s + [0] + rest && StrLen(s + [0] + rest) == |s|
  {
    var t := s + [0] + rest;
    assert t[|s|] == 0;
    assert forall i | 0 <= i < |s| :: t[i] == s[i] && s[i] in s;
    var n := StrLen(t);
    assert t[|s|] !in t[..n];
  }

  lemma {:induction false} GetStringOf(text: cstring, rest: seq<byte>)
    ensures GetString(Padded(text + [0]) + rest) == Read(text, rest)
  {
    var n, k := |text|, PadLength(|text| + 1);
    var bytes := text + [0] + (Zeros(k) + rest);
    assert Padded(text + [0]) + rest == bytes;
    StrLenOf(text, Zeros(k) + rest);
    assert bytes[..n] == text;
    assert bytes[n + 1 + k..] == rest;
  }

  lemma {:induction false} GetStringOfPut(s: Option<cstring>, rest: seq<byte>)
    ensures GetString(Terminated(s) + rest) == Read(SeenStr(s), rest)
  {
    if s.None? {
      assert LE(4, 0) == [0, 0, 0, 0] == Padded([] + [0]);
    }
    GetStringOf(SeenStr(s), rest);
  }

  lemma {:induction false} StringRoundTrip(ws: wordsize, s: Option<cstring>, rest: seq<byte>)
    ensures RoundTrips(ws, S(s), rest)
  {
    hide GetString;
    hide Terminated;
    hide SeenStr;
    GetStringOfPut(s, rest);
  }

  lemma {:induction false} GetBytesOf(b: blob, rest: seq<byte>)
    ensures GetBytes(LE(4, |b|) + Padded(b) + rest) == Read(b, rest)
  {
    var n, pad := |b|, Zeros(PadLength(|b|));
    var tail := b + pad + rest;
    assert LE(4, n) + Padded(b) + rest == LE(4, n) + tail;
    U32OfLE(n, tail);
    assert tail[..n] == b && tail[n + |pad|..] == rest;
  }

  lemma {:induction false} BlobRoundTrip(ws: wordsize, v: Value, rest: seq<byte>)
    requires v.B? || v.BNeg?
    ensures RoundTrips(ws, v, rest)
  {
    match v
    case B(bytes) => GetBytesOf(bytes, rest);
    case BNeg(size) => U32OfLE(Pattern(size), rest);
  }

  lemma {:induction false} PtrRoundTrip(ws: wordsize, d: dword, rest: seq<byte>)
    ensures RoundTrips(ws, P(d), rest)
  {
    if ws == 4 {
      U32OfLE(d % 0x1_0000_0000, rest);
    } else {
      U64OfLE(d, rest);
    }
  }

  /** A pointer survives exactly when it is 8 bytes wide or lies below 2 GiB. */
  lemma {:induction false} PtrSurvives(ws: wordsize, d: dword)
    requires ws == 4 ==> d < 0x1_0000_0000
    ensures SeenPtr(ws, d) == d <==> ws == 8 || d < 0x8000_0000
  {
    if ws == 4 { assert d % 0x1_0000_0000 == d; }
  }

  lemma {:induction false} ValueRoundTrip(ws: wordsize, v: Value, rest: seq<byte>)
    ensures RoundTrips(ws, v, rest)
  {
    match v
    case I(w) => IntRoundTrip(ws, w, rest);
    case F(w) => IntRoundTrip(ws, w, rest);
    case IP(p) => IntPtrRoundTrip(ws, p, rest);
    case FP(p) => FloatPtrRoundTrip(ws, p, rest);
    case LL(d) => LongLongRoundTrip(ws, d, rest);
    case P(d) => PtrRoundTrip(ws, d, rest);
    case S(s) => StringRoundTrip(ws, s, rest);
    case B(_) => BlobRoundTrip(ws, v, rest);
    case BNeg(_) => BlobRoundTrip(ws, v, rest);
  }

  /** Reading with the matching getters returns the written sequence and leaves exactly what follows. */
  lemma {:induction false} ValuesRoundTrip(ws: wordsize, vs: seq<Value>, rest: seq<byte>)
    requires AllInStep(vs)
    ensures DecAll(ws, Kinds(vs), EncAll(ws, vs) + rest) == Read(SeenAll(ws, vs), rest)
  {
    if vs == [] {
      assert EncAll(ws, vs) + rest == rest;
    } else {
      var tail := EncAll(ws, vs[1..]) + rest;
      Assoc(Enc(ws, vs[0]), EncAll(ws, vs[1..]), rest);
      ValueRoundTrip(ws, vs[0], tail);
      ValuesRoundTrip(ws, vs[1..], rest);
      assert Kinds(vs)[1..] == Kinds(vs[1..]);
    }
  }

  // ---------------------------------------------------------------------------------------------
  // The same, one getter at a time in front of values still to be read
  // ---------------------------------------------------------------------------------------------

  lemma {:induction false} EncCons(ws: wordsize, v: Value, vs: seq<Value>, rest: seq<byte>)
    ensures EncAll(ws, [v] + vs) + rest == Enc(ws, v) + (EncAll(ws, vs) + rest)
  {
    assert ([v] + vs)[1..] == vs;
    Assoc(Enc(ws, v), EncAll(ws, vs), rest);
  }

  lemma {:induction false} EncSplit(ws: wordsize, a: seq<Value>, b: seq<Value>, rest: seq<byte>)
    ensures EncAll(ws, a + b) + rest == EncAll(ws, a) + (EncAll(ws, b) + rest)
  {
    EncAllAppend(ws, a, b);
    Assoc(EncAll(ws, a), EncAll(ws, b), rest);
  }

  lemma {:induction false} NextInt(ws: wordsize, w: word, vs: seq<Value>, rest: seq<byte>)
    ensures GetInt(EncAll(ws, [I(w)] + vs) + rest) == Read(w, EncAll(ws, vs) + rest)
  {
    EncCons(ws, I(w), vs, rest);
    IntRoundTrip(ws, w, EncAll(ws, vs) + rest);
  }

  lemma {:induction false} NextPtr(ws: wordsize, d: dword, vs: seq<Value>, rest: seq<byte>)
    ensures GetPtr(ws, EncAll(ws, [P(d)] + vs) + rest) == Read(SeenPtr(ws, d), EncAll(ws, vs) + rest)
  {
    EncCons(ws, P(d), vs, rest);
    PtrRoundTrip(ws, d, EncAll(ws, vs) + rest);
  }

  lemma {:induction false} NextString(ws: wordsize, s: Option<cstring>, vs: seq<Value>, rest: seq<byte>)
    ensures GetString(EncAll(ws, [S(s)] + vs) + rest) == Read(SeenStr(s), EncAll(ws, vs) + rest)
  {
    EncCons(ws, S(s), vs, rest);
    StringRoundTrip(ws, s, EncAll(ws, vs) + rest);
  }

  lemma {:induction false} NextBytes(ws: wordsize, v: Value, vs: seq<Value>, rest: seq<byte>)
    requires v.B? || v.BNeg?
    ensures GetBytes(EncAll(ws, [v] + vs) + rest) == Read(Seen(ws, v).bytes, EncAll(ws, vs) + rest)
  {
    EncCons(ws, v, vs, rest);
    BlobRoundTrip(ws, v, EncAll(ws, vs) + rest);
  }

  lemma {:induction false} NextLongLong(ws: wordsize, d: dword, vs: seq<Value>, rest: seq<byte>)
    ensures GetLongLong(EncAll(ws, [LL(d)] + vs) + rest) == Read(d, EncAll(ws, vs) + rest)
  {
    EncCons(ws, LL(d), vs, rest);
    LongLongRoundTrip(ws, d, EncAll(ws, vs) + rest);
  }
}
