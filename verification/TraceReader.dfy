/** The reading half of iolib.c (tools/gltrace/iolib.c:75-107, 335-443): getters that move a cursor over
    the mapped file, each proved to compute the corresponding function of TraceValues. */
module TraceReader {
  import opened Words
  import opened TraceValues
  import opened TraceOpcodes
  import opened TraceReplayer
  import opened TraceWriter

  lemma DropDrop(data: seq<byte>, n: nat, k: nat)
    ensures Drop(Drop(data, n), k) == Drop(data, n + k)
  {
  }

  /** The string that ends at the first zero. */
  lemma StringAt(rest: seq<byte>, n: nat)
    requires n < |rest| && 0 !in rest[..n] && rest[n] == 0
    ensures TraceValues.GetString(rest)
         == if n >= MAX_SIZE then Overrun else Read(rest[..n], Drop(rest, n + 1 + PadLength(n + 1)))
  {
    assert rest[..n] + [0] + rest[n + 1..] == rest;
    StrLenOf(rest[..n], rest[n + 1..]);
  }

  lemma NoString(rest: seq<byte>)
    requires 0 !in rest
    ensures TraceValues.GetString(rest) == Overrun
  {
  }

  lemma FirstInt(rest: seq<byte>, w: word, rest': seq<byte>)
    requires TraceValues.GetInt(rest) == Read(w, rest')
    ensures GetInts(5, rest).value[0] == w
  {
  }

  lemma FiveInts(r: seq<seq<byte>>, w: seq<word>)
    requires |r| == 6 && |w| == 5
    requires forall i | 0 <= i < 5 :: TraceValues.GetInt(r[i]) == Read(w[i], r[i + 1])
    ensures GetInts(5, r[0]) == Read(w, r[5])
  {
    hide TraceValues.GetInt;
    assert w[5..] == [];
    assert w[4..] == [w[4]] + w[5..] && w[3..] == [w[3]] + w[4..] && w[2..] == [w[2]] + w[3..];
    assert w[1..] == [w[1]] + w[2..] && w == [w[0]] + w[1..];
    assert GetInts(1, r[4]) == Read(w[4..], r[5]);
    assert GetInts(2, r[3]) == Read(w[3..], r[5]);
    assert GetInts(3, r[2]) == Read(w[2..], r[5]);
    assert GetInts(4, r[1]) == Read(w[1..], r[5]);
  }

  class Reader {
    const data: seq<byte>  // [filePtr, endPtr)
    var ws: wordsize       // wsize
    var cur: nat           // curPtr - filePtr; padding can carry it past the end

    ghost function Rest(): seq<byte>
      reads this
    {
      Drop(data, cur)
    }

    constructor (data: seq<byte>)
      ensures Rest() == data
    {
      this.data, ws, cur := data, 8, 0;
    }

    /** iolib_init for reading: a version mismatch is only reported; a file that is no trace, or has an
        unknown word size, is refused. */
    method Open() returns (ok: bool)
      modifies this
      ensures var h := GetInts(5, old(Rest()));
              && ok == (h.value[0] == OPC_VERSION && (h.value[4] == 4 || h.value[4] == 8))
              && (ok ==> ws == h.value[4] && Rest() == h.rest)
    {
      hide TraceValues.GetInt;
      ghost var r0 := Rest();
      var version := GetInt();
      ghost var r1 := Rest();
      FirstInt(r0, version, r1);
      if version != OPC_VERSION { return false; }
      var major := GetInt();
      ghost var r2 := Rest();
      var minor := GetInt();
      ghost var r3 := Rest();
      var rev := GetInt();
      ghost var r4 := Rest();
      var size := GetInt();
      FiveInts([r0, r1, r2, r3, r4, Rest()], [version, major, minor, rev, size]);
      if size != 4 && size != 8 { return false; }
      ws := size;
      ok := true;
    }

    method GetCmd() returns (cmd: word)
      modifies this`cur
      ensures (cmd, Rest()) == TraceReplayer.GetCmd(old(Rest()))
    {
      if cur + 4 > |data| { return OPC_EOF; }
      cmd := U32(data[cur..]);
      cur := cur + 4;
    }

    method GetInt() returns (w: word)
      modifies this`cur
      ensures TraceValues.GetInt(old(Rest())) == Read(w, Rest())
    {
      if cur + 4 > |data| { return 0; }
      w := U32(data[cur..]);
      cur := cur + 4;
    }

    method GetLongLong() returns (d: dword)
      modifies this`cur
      ensures TraceValues.GetLongLong(old(Rest())) == Read(d, Rest())
    {
      if cur + 8 > |data| { return 0; }
      d := U64(data[cur..]);
      cur := cur + 8;
    }

    method GetPtr() returns (d: dword)
      modifies this`cur
      ensures TraceValues.GetPtr(ws, old(Rest())) == Read(d, Rest())
    {
      if cur + ws > |data| { return 0; }
      if ws == 4 {
        d := SignExtend(U32(data[cur..]));
      } else {
        d := U64(data[cur..]);
      }
      cur := cur + ws;
    }

    /** getIntPtr; `ok` is false when it would read past the mapping. */
    method GetIntPtr() returns (ok: bool, p: Option<word>)
      modifies this`cur
      ensures TraceValues.GetIntPtr(old(Rest())) == if ok then Read(p, Rest()) else Overrun
    {
      ok, p := true, None;
      if cur + 4 > |data| { return; }
      var val := U32(data[cur..]);
      cur := cur + 4;
      if val == MARKER {
        if cur + 4 > |data| { return false, None; }
        val := U32(data[cur..]);
        cur := cur + 4;
        if val == 0 { return; }
      }
      p := Some(val);
    }

    /** getFloatPtr does not move past the word behind the marker. */
    method GetFloatPtr() returns (ok: bool, p: Option<word>)
      modifies this`cur
      ensures TraceValues.GetFloatPtr(old(Rest())) == if ok then Read(p, Rest()) else Overrun
    {
      ok, p := true, None;
      if cur + 4 > |data| { return; }
      var val := U32(data[cur..]);
      cur := cur + 4;
      if val == FLOAT_MARKER {
        if cur + 4 > |data| { return false, None; }
        val := U32(data[cur..]);
        if IsFloatZero(val) { return; }
      }
      p := Some(val);
    }

    /** strlen, up to the end of the mapping. */
    method Scan() returns (n: nat)
      ensures n <= |Rest()| && 0 !in Rest()[..n] && (n < |Rest()| ==> Rest()[n] == 0)
    {
      ghost var rest := Rest();
      n := 0;
      while cur + n < |data| && data[cur + n] != 0
        invariant 0 <= n <= |rest| && 0 !in rest[..n]
      {
        assert rest[n] == data[cur + n];
        assert rest[..n + 1] == rest[..n] + [rest[n]];
        n := n + 1;
      }
    }

    method GetString() returns (ok: bool, s: cstring)
      modifies this`cur
      ensures TraceValues.GetString(old(Rest())) == if ok then Read(s, Rest()) else Overrun
    {
      hide TraceValues.GetString;
      ghost var rest := Rest();
      var n := Scan();
      if cur + n >= |data| {
        assert rest[..n] == rest;
        NoString(rest);
        return false, [];
      }
      StringAt(rest, n);
      if n >= MAX_SIZE { return false, []; }
      DropDrop(data, cur, n + 1 + PadLength(n + 1));
      assert data[cur..cur + n] == rest[..n];
      hide PadLength;
      ok, s := true, data[cur..cur + n];
      cur := cur + (n + 1 + PadLength(n + 1));
    }

    /** getBytes; an empty result is NULL. */
    method GetBytes() returns (ok: bool, b: blob)
      modifies this`cur
      ensures TraceValues.GetBytes(old(Rest())) == if ok then Read(b, Rest()) else Overrun
    {
      ok, b := true, [];
      if cur + 4 > |data| { return; }
      var size := Signed(U32(data[cur..]));
      DropDrop(data, cur, 4);
      cur := cur + 4;
      if size <= 0 || cur + size > |data| { return; }
      if size > MAX_SIZE { return false, []; }
      DropDrop(data, cur, size + PadLength(size));
      hide PadLength;
      assert data[cur..cur + size] == Rest()[..size];
      b := data[cur..cur + size];
      cur := cur + (size + PadLength(size));
    }
  }
}
