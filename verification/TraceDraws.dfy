/** glDrawElements, whose payload depends on state that recorder and replayer each track on their own: exactly when a
    draw that was written in one state is read back in another. */
module TraceDraws {
  import opened Words
  import opened TraceValues
  import opened TraceRecorder
  import opened TraceReplayer
  import opened TracePayloads

  // ---------------------------------------------------------------------------------------------
  // Reading back
  // ---------------------------------------------------------------------------------------------

  /** Blobs are read back when both sides have the same client arrays, the recorder from attribute i on and the
      replayer from attribute j on. */
  lemma {:induction false} ArraysReadBack(ws: wordsize, sh: Shadow, st: Replay, mem: Memory, n: nat, i: nat, j: nat,
                                          rest: seq<byte>)
    requires AllPack(sh.attribs, n) && i <= |sh.attribs| && j <= |st.attribs|
    requires EnabledShape(st.exec, sh.attribs, i) == ReplayShape(st, j)
    ensures GetArrays(st, j, EncAll(ws, Arrays(mem, sh.attribs, n, i)) + rest)
         == Read(SeenArrays(st.exec, mem, sh.attribs, n, i), rest)
    decreases |sh.attribs| - i, |st.attribs| - j
  {
    assert EncAll(ws, []) + rest == rest;
    hide EncAll;
    hide TargetFor;
    hide TargetOf;
    if i == |sh.attribs| {
      NothingToRead(st, j, rest);
    } else if !sh.attribs[i].enabled {
      ArraysReadBack(ws, sh, st, mem, n, i + 1, j, rest);
    } else {
      assert j < |st.attribs|;
      if !st.attribs[j].enabled {
        ArraysReadBack(ws, sh, st, mem, n, i, j + 1, rest);
      } else {
        var a, b := EnabledShape(st.exec, sh.attribs, i), ReplayShape(st, j);
        assert a[0] == TargetFor(st.exec, sh.attribs, i) && a[1..] == EnabledShape(st.exec, sh.attribs, i + 1);
        assert b[0] == TargetOf(st, j) && b[1..] == ReplayShape(st, j + 1);
        ArraysReadBack(ws, sh, st, mem, n, i + 1, j + 1, rest);
        OneArray(ws, sh, st, mem, n, i, j, rest);
      }
    }
  }

  lemma {:induction false} OneArray(ws: wordsize, sh: Shadow, st: Replay, mem: Memory, n: nat, i: nat, j: nat,
                                    rest: seq<byte>)
    requires AllPack(sh.attribs, n) && i < |sh.attribs| && sh.attribs[i].enabled
    requires j < |st.attribs| && st.attribs[j].enabled && TargetFor(st.exec, sh.attribs, i) == TargetOf(st, j)
    requires GetArrays(st, j + 1, EncAll(ws, Arrays(mem, sh.attribs, n, i + 1)) + rest)
          == Read(SeenArrays(st.exec, mem, sh.attribs, n, i + 1), rest)
    ensures GetArrays(st, j, EncAll(ws, Arrays(mem, sh.attribs, n, i)) + rest)
         == Read(SeenArrays(st.exec, mem, sh.attribs, n, i), rest)
  {
    hide EncAll;
    hide GetBytes;
    hide TargetFor;
    hide TargetOf;
    assert PacksWell(sh.attribs[i], n);
    NextBytes(ws, B(Packed(mem, sh.attribs[i], n)), Arrays(mem, sh.attribs, n, i + 1), rest);
  }

  lemma {:induction false} NothingToRead(st: Replay, i: nat, rest: seq<byte>)
    requires i <= |st.attribs| && ReplayShape(st, i) == []
    ensures GetArrays(st, i, rest) == Read([], rest)
    decreases |st.attribs| - i
  {
    if i < |st.attribs| {
      NothingToRead(st, i + 1, rest);
    }
  }

  lemma {:induction false} NothingToWrite(exec: bool, mem: Memory, attribs: seq<Attrib>, n: nat, i: nat)
    requires i <= |attribs| && AllPack(attribs, n) && EnabledShape(exec, attribs, i) == []
    ensures Arrays(mem, attribs, n, i) == [] && SeenArrays(exec, mem, attribs, n, i) == []
    decreases |attribs| - i
  {
    if i < |attribs| {
      NothingToWrite(exec, mem, attribs, n, i + 1);
    }
  }

  /** The blobs that a draw writes. */
  function ArrayValues(sh: Shadow, mem: Memory, c: Call): seq<Value>
    requires c.DrawElements? && ArraysOk(sh, c)
  {
    if sh.arrayBinding == 0 then Arrays(mem, sh.attribs, VertexCount(c.count), 0) else []
  }

  /** The blobs that a replayed draw reads. */
  function ReadArrays(st: Replay, rest: seq<byte>): Read<seq<ArrayData>> {
    if st.arrayBinding == 0 then GetArrays(st, 0, rest) else Read([], rest)
  }

  /** The blobs of a draw, if any, are read back when the two sides have the same client arrays. */
  lemma {:induction false} BlobsReadBack(ws: wordsize, sh: Shadow, st: Replay, mem: Memory, c: Call, rest: seq<byte>)
    requires c.DrawElements? && Recordable(ws, sh, c) && WritesShape(st.exec, sh) == ReadsShape(st)
    ensures ReadArrays(st, EncAll(ws, ArrayValues(sh, mem, c)) + rest)
         == Read(EventOf(ws, st.exec, sh, mem, c).arrays, rest)
  {
    var n := VertexCount(c.count);
    assert EncAll(ws, []) + rest == rest;
    if sh.arrayBinding != 0 {
      if st.arrayBinding == 0 {
        NothingToRead(st, 0, rest);
      }
    } else if st.arrayBinding == 0 {
      ArraysReadBack(ws, sh, st, mem, n, 0, 0, rest);
    } else {
      NothingToWrite(st.exec, mem, sh.attribs, n, 0);
    }
  }

  /** What is written for the indices when an element buffer is bound: the pointer. */
  lemma {:induction false} BoundBytes(ws: wordsize, sh: Shadow, mem: Memory, c: Call, exec: bool)
    requires c.DrawElements? && Recordable(ws, sh, c) && sh.elementBinding != 0
    ensures var bytes, ind := Enc(ws, IndexValue(sh, mem, c)), EventOf(ws, exec, sh, mem, c).indices;
      && |bytes| == ws && !ind.Data? && (ind.NoIndices? <==> ZeroIndices(ws, sh, c))
      && (ZeroIndices(ws, sh, c) ==> bytes == LE(ws, 0))
  {
  }

  /** What is written for the indices when none is bound: a blob, or a lone word if there are no bytes. */
  lemma {:induction false} ClientBytes(ws: wordsize, sh: Shadow, mem: Memory, c: Call, exec: bool)
    requires c.DrawElements? && Recordable(ws, sh, c) && sh.elementBinding == 0
    ensures var bytes, ind := Enc(ws, IndexValue(sh, mem, c)), EventOf(ws, exec, sh, mem, c).indices;
      && !ind.Offset? && (ZeroIndices(ws, sh, c) ==> ind.NoIndices? && bytes == LE(4, 0))
      && (ind.NoIndices? ==> |bytes| == 4 && (U32(bytes) == 0 ==> ZeroIndices(ws, sh, c)))
  {
    var size := IndexSize(c.count, c.typ);
    if size < 0 && c.indices != 0 {
      U32OfLE(Pattern(size), []);
      assert LE(4, Pattern(size)) + [] == LE(4, Pattern(size));
    }
  }

  lemma {:induction false} IndicesReadBack(ws: wordsize, sh: Shadow, st: Replay, mem: Memory, c: Call,
                                           vs: seq<Value>, rest: seq<byte>)
    requires c.DrawElements? && Recordable(ws, sh, c) && IndicesAlike(ws, sh, st.elementBinding != 0, c)
    ensures GetIndices(ws, st, EncAll(ws, [IndexValue(sh, mem, c)] + vs) + rest)
         == Read(EventOf(ws, st.exec, sh, mem, c).indices, EncAll(ws, vs) + rest)
  {
    if (sh.elementBinding != 0) != (st.elementBinding != 0) {
      ZeroReadsBack(ws, sh, st, mem, c, vs, rest);
    } else if sh.elementBinding != 0 {
      NextPtr(ws, c.indices, vs, rest);
    } else {
      var size := IndexSize(c.count, c.typ);
      NextBytes(ws, IndexValue(sh, mem, c), vs, rest);
      if c.indices != 0 && size > 0 {
        assert Fetch(mem, c.indices, size)[..size] == Fetch(mem, c.indices, size);
      }
    }
  }

  /** With 4-byte pointers a zero word is NULL to both getters. */
  lemma {:induction false} ZeroReadsBack(ws: wordsize, sh: Shadow, st: Replay, mem: Memory, c: Call,
                                         vs: seq<Value>, rest: seq<byte>)
    requires c.DrawElements? && Recordable(ws, sh, c) && ws == 4 && ZeroIndices(ws, sh, c)
    ensures GetIndices(ws, st, EncAll(ws, [IndexValue(sh, mem, c)] + vs) + rest)
         == Read(EventOf(ws, st.exec, sh, mem, c).indices, EncAll(ws, vs) + rest)
  {
    if sh.elementBinding != 0 {
      BoundBytes(ws, sh, mem, c, st.exec);
    } else {
      ClientBytes(ws, sh, mem, c, st.exec);
    }
    EncCons(ws, IndexValue(sh, mem, c), vs, rest);
    U32OfLE(0, EncAll(ws, vs) + rest);
    hide EncAll;
    hide EventOf;
    hide IndexValue;
    hide Enc;
    hide LE;
    hide U32;
  }

  lemma {:induction false} DrawReadsBack(ws: wordsize, sh: Shadow, st: Replay, mem: Memory, c: Call, rest: seq<byte>)
    requires c.DrawElements? && Recordable(ws, sh, c) && DrawsAlike(ws, sh, st, c)
    ensures GetDrawElements(ws, st, EncAll(ws, Payload(ws, sh, mem, c)) + rest)
         == Read(EventOf(ws, st.exec, sh, mem, c), rest)
  {
    var arrays := ArrayValues(sh, mem, c);
    IntsReadBack(ws, [c.mode, c.count, c.typ], [IndexValue(sh, mem, c)] + arrays, rest);
    IndicesReadBack(ws, sh, st, mem, c, arrays, rest);
    BlobsReadBack(ws, sh, st, mem, c, rest);
    hide EncAll;
    hide GetArrays;
    hide Arrays;
    hide GetInts;
    hide GetIndices;
  }

  // ---------------------------------------------------------------------------------------------
  // How many bytes are read
  // ---------------------------------------------------------------------------------------------

  /** The bytes of a blob in the log. */
  function BlobCost(b: blob): nat {
    4 + |b| + PadLength(|b|)
  }

  function Cost(arrays: seq<ArrayData>): nat {
    if arrays == [] then 0 else BlobCost(arrays[0].bytes) + Cost(arrays[1..])
  }

  /** `tail` is what remains of `s` when its first bytes have been read. */
  predicate Suffix(tail: seq<byte>, s: seq<byte>) {
    |tail| <= |s| && tail == s[|s| - |tail|..]
  }

  lemma SuffixTrans(a: seq<byte>, b: seq<byte>, c: seq<byte>)
    requires Suffix(a, b) && Suffix(b, c)
    ensures Suffix(a, c)
  {
  }

  /** A blob costs what it costs in the log, unless the end of the log is near. */
  lemma {:induction false} BytesCost(rest: seq<byte>)
    ensures var r := GetBytes(rest);
      r.Read? ==>
        && Suffix(r.rest, rest)
        && (|r.rest| >= 4 || |rest| >= BlobCost(r.value) ==> |rest| == |r.rest| + BlobCost(r.value))
  {
  }

  lemma {:induction false} ArraysCost(st: Replay, i: nat, rest: seq<byte>)
    requires i <= |st.attribs|
    ensures var r := GetArrays(st, i, rest);
      r.Read? ==>
        && Suffix(r.rest, rest)
        && (|r.rest| >= 4 || |rest| >= Cost(r.value) ==> |rest| == |r.rest| + Cost(r.value))
    decreases |st.attribs| - i
  {
    hide GetBytes;
    hide Suffix;
    hide BlobCost;
    if i == |st.attribs| {
      assert Suffix(rest, rest) by { SuffixSelf(rest); }
    } else if !st.attribs[i].enabled {
      ArraysCost(st, i + 1, rest);
    } else {
      BytesCost(rest);
      var b := GetBytes(rest);
      if b.Read? {
        ArraysCost(st, i + 1, b.rest);
        var more := GetArrays(st, i + 1, b.rest);
        if more.Read? {
          SuffixTrans(more.rest, b.rest, rest);
          CostCons(ArrayData(TargetOf(st, i), b.value), more.value);
        }
      }
    }
  }

  lemma SuffixSelf(s: seq<byte>)
    ensures Suffix(s, s)
  {
  }

  lemma {:induction false} CostCons(a: ArrayData, arrays: seq<ArrayData>)
    ensures Cost([a] + arrays) == BlobCost(a.bytes) + Cost(arrays)
  {
    assert ([a] + arrays)[1..] == arrays;
  }

  lemma {:induction false} EncArraysCost(ws: wordsize, exec: bool, mem: Memory, attribs: seq<Attrib>, n: nat, i: nat)
    requires i <= |attribs| && AllPack(attribs, n)
    ensures |EncAll(ws, Arrays(mem, attribs, n, i))| == Cost(SeenArrays(exec, mem, attribs, n, i))
    decreases |attribs| - i
  {
    hide BlobCost;
    hide Packed;
    hide TargetFor;
    if i == |attribs| {
      assert EncAll(ws, []) == [];
    } else {
      hide EncAll;
      hide Cost;
      EncArraysCost(ws, exec, mem, attribs, n, i + 1);
      if attribs[i].enabled {
        assert PacksWell(attribs[i], n);
        var b, vs := Packed(mem, attribs[i], n), Arrays(mem, attribs, n, i + 1);
        CostCons(ArrayData(TargetFor(exec, attribs, i), b), SeenArrays(exec, mem, attribs, n, i + 1));
        EncBlobCost(ws, b, vs);
      }
    }
  }

  lemma {:induction false} EncBlobCost(ws: wordsize, b: blob, vs: seq<Value>)
    ensures |EncAll(ws, [B(b)] + vs)| == BlobCost(b) + |EncAll(ws, vs)|
  {
    EncCons(ws, B(b), vs, []);
  }

  lemma {:induction false} ValuesCost(ws: wordsize, exec: bool, sh: Shadow, mem: Memory, c: Call)
    requires c.DrawElements? && Recordable(ws, sh, c)
    ensures |EncAll(ws, ArrayValues(sh, mem, c))| == Cost(EventOf(ws, exec, sh, mem, c).arrays)
  {
    if sh.arrayBinding == 0 {
      EncArraysCost(ws, exec, mem, sh.attribs, VertexCount(c.count), 0);
    }
  }

  // ---------------------------------------------------------------------------------------------
  // What a replayer in another state reads
  // ---------------------------------------------------------------------------------------------

  function ShapeOf(arrays: seq<ArrayData>): Shape {
    if arrays == [] then [] else [arrays[0].target] + ShapeOf(arrays[1..])
  }

  lemma {:induction false} ReadShape(st: Replay, i: nat, rest: seq<byte>)
    requires i <= |st.attribs|
    ensures var r := GetArrays(st, i, rest); r.Read? ==> ShapeOf(r.value) == ReplayShape(st, i)
    decreases |st.attribs| - i
  {
    hide GetBytes;
    if i < |st.attribs| {
      if st.attribs[i].enabled {
        var b := GetBytes(rest);
        if b.Read? {
          ReadShape(st, i + 1, b.rest);
          var more := GetArrays(st, i + 1, b.rest);
          if more.Read? {
            assert ([ArrayData(TargetOf(st, i), b.value)] + more.value)[1..] == more.value;
          }
        }
      } else {
        ReadShape(st, i + 1, rest);
      }
    }
  }

  lemma {:induction false} SeenShape(exec: bool, mem: Memory, attribs: seq<Attrib>, n: nat, i: nat)
    requires i <= |attribs| && AllPack(attribs, n)
    ensures ShapeOf(SeenArrays(exec, mem, attribs, n, i)) == EnabledShape(exec, attribs, i)
    decreases |attribs| - i
  {
    if i < |attribs| {
      SeenShape(exec, mem, attribs, n, i + 1);
      var arrays := SeenArrays(exec, mem, attribs, n, i);
      if attribs[i].enabled {
        assert arrays[1..] == SeenArrays(exec, mem, attribs, n, i + 1);
      }
    }
  }

  /** A replayer that disagrees about the element buffer reads the indices right only if they are a zero word; with
      8-byte pointers it has then read one word too many or one too few. */
  lemma {:induction false} ClashingIndices(ws: wordsize, sh: Shadow, st: Replay, mem: Memory, c: Call, tail: seq<byte>)
    requires c.DrawElements? && Recordable(ws, sh, c) && (sh.elementBinding != 0) != (st.elementBinding != 0)
    requires |tail| >= 16
    ensures var r := GetIndices(ws, st, Enc(ws, IndexValue(sh, mem, c)) + tail);
      r.Read? && r.value == EventOf(ws, st.exec, sh, mem, c).indices ==>
        if ws == 4 then ZeroIndices(ws, sh, c)
        else r.rest == tail[4..] || (|r.rest| == |tail| + 4 && r.rest[4..] == tail)
  {
    var bytes := Enc(ws, IndexValue(sh, mem, c));
    var all := bytes + tail;
    if sh.elementBinding != 0 {
      BoundBytes(ws, sh, mem, c, st.exec);
      assert ws == 8 ==> all[4..][4..] == tail;
    } else {
      ClientBytes(ws, sh, mem, c, st.exec);
      assert |bytes| == 4 ==> all[..4] == bytes[..4] && (ws == 8 ==> all[8..] == tail[4..]);
    }
    hide Enc;
    hide EventOf;
    hide IndexValue;
    hide ZeroIndices;
  }

  /** The replayer decodes a draw in three parts. */
  lemma {:induction false} DrawParts(ws: wordsize, sh: Shadow, st: Replay, mem: Memory, c: Call, rest: seq<byte>)
    requires c.DrawElements? && Recordable(ws, sh, c)
    ensures var tail := EncAll(ws, ArrayValues(sh, mem, c)) + rest;
      var ind := GetIndices(ws, st, Enc(ws, IndexValue(sh, mem, c)) + tail);
      GetDrawElements(ws, st, EncAll(ws, Payload(ws, sh, mem, c)) + rest) ==
        if ind.Overrun? then Overrun
        else
          var arrays := ReadArrays(st, ind.rest);
          if arrays.Overrun? then Overrun
          else Read(EDrawElements(c.mode, c.count, c.typ, ind.value, arrays.value), arrays.rest)
  {
    var v, vs := IndexValue(sh, mem, c), ArrayValues(sh, mem, c);
    IntsReadBack(ws, [c.mode, c.count, c.typ], [v] + vs, rest);
    EncCons(ws, v, vs, rest);
    hide EncAll;
    hide Enc;
    hide GetArrays;
    hide Arrays;
    hide GetInts;
    hide GetIndices;
    hide IndexValue;
  }

  /** The arrays that are read belong to the replayer's state and cost what they cost in the log. */
  lemma {:induction false} ReadArraysCost(st: Replay, rest: seq<byte>)
    ensures var r := ReadArrays(st, rest);
      r.Read? ==>
        && ShapeOf(r.value) == ReadsShape(st) && Suffix(r.rest, rest)
        && (|rest| >= Cost(r.value) ==> |rest| == |r.rest| + Cost(r.value))
  {
    if st.arrayBinding == 0 {
      ReadShape(st, 0, rest);
      ArraysCost(st, 0, rest);
    } else {
      SuffixSelf(rest);
    }
    hide GetArrays;
  }

  /** The arrays of the call itself. */
  lemma {:induction false} WrittenShape(ws: wordsize, exec: bool, sh: Shadow, mem: Memory, c: Call)
    requires c.DrawElements? && Recordable(ws, sh, c)
    ensures ShapeOf(EventOf(ws, exec, sh, mem, c).arrays) == WritesShape(exec, sh)
  {
    if sh.arrayBinding == 0 {
      SeenShape(exec, mem, sh.attribs, VertexCount(c.count), 0);
    }
  }

  /** One word too many has been read, or one too few. */
  predicate OneOff(out: seq<byte>, rest: seq<byte>) {
    (|rest| >= 4 && out == rest[4..]) || (|out| == |rest| + 4 && out[4..] == rest)
  }

  lemma {:induction false} SuffixOneOff(out: seq<byte>, m: seq<byte>, head: seq<byte>, rest: seq<byte>)
    requires |rest| >= 16 && Suffix(out, m) && OneOff(m, head + rest) && |m| == |out| + |head|
    ensures OneOff(out, rest)
  {
    var all := head + rest;
    if m == all[4..] {
      assert out == all[|head| + 4..];
    } else {
      assert out[4..] == m[4..][|head|..];
      assert all[|head|..] == rest;
    }
  }

  /** When the two sides do not draw alike, the draw is decoded as another one, runs past the end of the log, or
      leaves the replayer one word off. */
  lemma {:induction false} DrawGoesWrong(ws: wordsize, sh: Shadow, st: Replay, mem: Memory, c: Call, rest: seq<byte>)
    requires c.DrawElements? && Recordable(ws, sh, c) && !DrawsAlike(ws, sh, st, c) && |rest| >= 16
    ensures var r := GetDrawElements(ws, st, EncAll(ws, Payload(ws, sh, mem, c)) + rest);
      r.Read? && r.value == EventOf(ws, st.exec, sh, mem, c) ==> ws == 8 && OneOff(r.rest, rest)
  {
    var ev, head := EventOf(ws, st.exec, sh, mem, c), EncAll(ws, ArrayValues(sh, mem, c));
    DrawParts(ws, sh, st, mem, c, rest);
    WrittenShape(ws, st.exec, sh, mem, c);
    ValuesCost(ws, st.exec, sh, mem, c);
    var ind := GetIndices(ws, st, Enc(ws, IndexValue(sh, mem, c)) + (head + rest));
    var r := GetDrawElements(ws, st, EncAll(ws, Payload(ws, sh, mem, c)) + rest);
    if r.Read? && r.value == ev {
      hide GetDrawElements;
      hide EncAll;
      hide Enc;
      hide GetIndices;
      hide IndexValue;
      hide ReadArrays;
      hide Payload;
      hide EventOf;
      ReadArraysCost(st, ind.rest);
      assert (sh.elementBinding != 0) != (st.elementBinding != 0);
      ClashingIndices(ws, sh, st, mem, c, head + rest);
      SuffixOneOff(r.rest, ind.rest, head, rest);
    }
  }

  /** A draw is read back whole if and only if the two sides draw alike. */
  lemma {:induction false} DrawIff(ws: wordsize, sh: Shadow, st: Replay, mem: Memory, c: Call, rest: seq<byte>)
    requires c.DrawElements? && Recordable(ws, sh, c) && |rest| >= 16
    ensures var r := GetDrawElements(ws, st, EncAll(ws, Payload(ws, sh, mem, c)) + rest);
      r == Read(EventOf(ws, st.exec, sh, mem, c), rest) <==> DrawsAlike(ws, sh, st, c)
  {
    hide GetDrawElements;
    hide EncAll;
    hide EventOf;
    hide Payload;
    hide DrawsAlike;
    if DrawsAlike(ws, sh, st, c) {
      DrawReadsBack(ws, sh, st, mem, c, rest);
    } else {
      DrawGoesWrong(ws, sh, st, mem, c, rest);
    }
  }

  // ---------------------------------------------------------------------------------------------
  // The times behind a draw that left the replayer one word off
  // ---------------------------------------------------------------------------------------------

  function Low(d: dword): word {
    d % 0x1_0000_0000
  }

  function High(d: dword): word {
    d / 0x1_0000_0000
  }

  lemma Halves(lo: word, hi: word) returns (d: dword)
    ensures Low(d) == lo && High(d) == hi
  {
    d := lo + 0x1_0000_0000 * hi;
  }

  lemma {:induction false} TwoWords(lo: word, hi: word, rest: seq<byte>)
    ensures var r := GetLongLong(LE(4, lo) + LE(4, hi) + rest);
            Low(r.value) == lo && High(r.value) == hi && r.rest == rest
  {
    var d := Halves(lo, hi);
    LE8Halves(d);
    U64OfLE(d, rest);
    hide LE;
    hide U64;
  }

  lemma {:induction false} LEOfNum(s: seq<byte>)
    ensures LE(|s|, Num(s)) == s
  {
    if s != [] {
      LEStep(|s|, s[0], Num(s[1..]));
      LEOfNum(s[1..]);
      hide LE;
      assert s == [s[0]] + s[1..];
    }
  }

  lemma {:induction false} LastWord(lo: word, rest: seq<byte>)
    requires |rest| >= 4
    ensures var r := GetLongLong(LE(4, lo) + rest); Low(r.value) == lo && |r.rest| == |rest| - 4
  {
    var w := U32(rest);
    LEOfNum(rest[..4]);
    hide LE;
    hide U32;
    assert rest == LE(4, w) + rest[4..];
    Assoc(LE(4, lo), LE(4, w), rest[4..]);
    TwoWords(lo, w, rest[4..]);
  }

  lemma {:induction false} FirstWord(x: seq<byte>, hi: word, rest: seq<byte>)
    requires |x| == 4
    ensures var r := GetLongLong(x + (LE(4, hi) + rest)); High(r.value) == hi && r.rest == rest
  {
    assert Patterns(4) == 0x1_0000_0000;
    LEOfNum(x);
    hide LE;
    hide Num;
    hide U64;
    Assoc(x, LE(4, hi), rest);
    TwoWords(Num(x), hi, rest);
  }

  /** One word too many has been read: the times are right only if they are equal. */
  lemma {:induction false} TimesAhead(bgn: dword, end: dword, v: seq<byte>)
    ensures var b := GetLongLong(LE(4, High(bgn)) + LE(4, Low(end)) + (LE(4, High(end)) + v));
            var e := GetLongLong(b.rest);
            |e.rest| != |v| && (b.value == bgn && e.value == end ==> bgn == end)
  {
    TwoWords(High(bgn), Low(end), LE(4, High(end)) + v);
    if |v| >= 4 {
      LastWord(High(end), v);
    }
    hide LE;
    hide U64;
  }

  /** One word too few has been read: the times are right only if they are equal. */
  lemma {:induction false} TimesBehind(x: seq<byte>, bgn: dword, end: dword, v: seq<byte>)
    requires |x| == 4
    ensures var b := GetLongLong(x + (LE(4, Low(bgn)) + (LE(4, High(bgn)) + LE(4, Low(end)) + (LE(4, High(end)) + v))));
            var e := GetLongLong(b.rest);
            |e.rest| != |v| && (b.value == bgn && e.value == end ==> bgn == end)
  {
    FirstWord(x, Low(bgn), LE(4, High(bgn)) + LE(4, Low(end)) + (LE(4, High(end)) + v));
    TwoWords(High(bgn), Low(end), LE(4, High(end)) + v);
    hide LE;
    hide U64;
  }

  /** The times read one word off: the rest is off as well, and the times are right only if they are equal. */
  lemma {:induction false} ShiftedTimes(ws: wordsize, bgn: dword, end: dword, vs: seq<Value>, out: seq<byte>)
    requires OneOff(out, EncAll(ws, [LL(bgn)] + ([LL(end)] + vs)))
    ensures var b := GetLongLong(out);
            var e := GetLongLong(b.rest);
            e.rest != EncAll(ws, vs) && (bgn != end ==> b.value != bgn || e.value != end)
  {
    hide EncAll;
    hide LE;
    hide GetLongLong;
    hide Low;
    hide High;
    var v, all := EncAll(ws, vs), EncAll(ws, [LL(bgn)] + ([LL(end)] + vs));
    var tail := LE(4, High(bgn)) + LE(4, Low(end)) + (LE(4, High(end)) + v);
    TimesBytes(ws, bgn, end, vs);
    if out == all[4..] {
      assert out == tail;
      TimesAhead(bgn, end, v);
    } else {
      assert out == out[..4] + all;
      TimesBehind(out[..4], bgn, end, v);
    }
  }

  lemma {:induction false} TimesBytes(ws: wordsize, bgn: dword, end: dword, vs: seq<Value>)
    ensures EncAll(ws, [LL(bgn)] + ([LL(end)] + vs))
         == LE(4, Low(bgn)) + (LE(4, High(bgn)) + LE(4, Low(end)) + (LE(4, High(end)) + EncAll(ws, vs)))
  {
    EncCons(ws, LL(bgn), [LL(end)] + vs, []);
    EncCons(ws, LL(end), vs, []);
    LE8Halves(bgn);
    LE8Halves(end);
    hide EncAll;
    hide LE;
    FourParts(LE(4, Low(bgn)), LE(4, High(bgn)), LE(4, Low(end)), LE(4, High(end)), EncAll(ws, vs));
  }

  lemma FourParts(a: seq<byte>, b: seq<byte>, c: seq<byte>, d: seq<byte>, v: seq<byte>)
    ensures a + b + (c + d + (v + [])) + [] == a + (b + c + (d + v)) && a + b + (c + d + v) == a + (b + c + (d + v))
  {
  }
}
