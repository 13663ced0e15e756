/** The chunked writer (tools/gltrace/iolib.c:42-329): the file is mapped one CHUNKSZ piece at a time
    and every `put` stores through a cursor into the mapped piece.  Each method is proved to act on
    the log exactly as the corresponding step of TraceProtocol.LogState. */
module TraceWriter {
  import opened Words
  import opened TraceValues
  import opened TraceProtocol

  const CHUNKSZ: nat := 0x10_0000

  const OPC_VERSION: word := 0xdeaf_ca1f
  const VERSION_MAJOR: word := 1
  const VERSION_MINOR: word := 0
  const VERSION_REV: word := 0

  /** What iolib_init writes. */
  function Header(ws: wordsize): seq<Value>
  {
    [I(OPC_VERSION), I(VERSION_MAJOR), I(VERSION_MINOR), I(VERSION_REV), I(ws)]
  }

  /** The size word, and the bytes if there are any. */
  lemma EncBytes(ws: wordsize, data: Option<seq<byte>>, size: int)
    requires BytesArgs(data, size)
    ensures var left := if data.None? then 0 else size;
      Enc(ws, BytesValue(data, size))
      == if left > 0 then LE(4, left) + Padded(data.value[..left]) else LE(4, Pattern(left))
  {
    assert Padded([]) == [];
  }

  lemma ZerosSnoc(log: seq<byte>, k: nat)
    ensures log + Zeros(k) + [0] == log + Zeros(k + 1)
  {
    assert Zeros(k) + [0] == Zeros(k + 1);
    Assoc(log, Zeros(k), [0]);
  }

  lemma HeaderPuts(ws: wordsize)
    ensures [] + [I(OPC_VERSION)] + [I(VERSION_MAJOR)] + [I(VERSION_MINOR)] + [I(VERSION_REV)] + [I(ws)] == Header(ws)
  {
  }

  class Writer {
    const ws: wordsize            // sizeof(void*)
    var flushed: seq<byte>   // the chunks already unmapped
    var chunk: array<byte>   // the mapped chunk, [filePtr, endPtr); empty before the first enlarge
    var curPtr: nat          // the cursor, relative to filePtr
    var fileOffset: nat      // the length of the file on disk
    var reentrance: nat
    var owner: Option<dword> // the holder of memlock
    var curThread: dword
    ghost var vals: seq<Value> // everything put so far

    /** The state inside a put. */
    ghost predicate Mapped()
      reads this, chunk
    {
      && curPtr <= chunk.Length
      && |flushed| % 4 == 0
      && fileOffset == |flushed| + chunk.Length
      && (chunk.Length == CHUNKSZ || chunk.Length == 0)
    }

    ghost function Log(): seq<byte>
      reads this, chunk
      requires Mapped()
    {
      flushed + chunk[..curPtr]
    }

    /** The state between puts: the cursor is word-aligned and the log is what was put. */
    ghost predicate Valid()
      reads this, chunk
    {
      && Mapped() && curPtr % 4 == 0
      && (reentrance == 0 <==> owner.None?)
      && Log() == EncAll(ws, vals)
    }

    ghost function Abs(): LogState
      reads this
    {
      LogState(vals, reentrance, owner, curThread)
    }

    /** The new state of every put: the log grows as LogState says. */
    twostate predicate Did(next: LogState)
      reads this, chunk
    {
      Valid() && Abs() == next && (chunk == old(chunk) || fresh(chunk))
    }

    constructor (ws: wordsize)
      ensures Valid() && fresh(chunk) && this.ws == ws
      ensures Abs() == LogState([], 0, None, 0)
    {
      this.ws := ws;
      flushed, chunk, curPtr, fileOffset := [], new byte[0], 0, 0;
      reentrance, owner, curThread := 0, None, 0;
      vals := [];
    }

    /** The puts of iolib_init. */
    method Init()
      requires Valid() && Abs() == LogState([], 0, None, 0)
      modifies this, chunk
      ensures Did(LogState(Header(ws), 0, None, 0))
    {
      hide EncAll;
      PutInt(OPC_VERSION);
      PutInt(VERSION_MAJOR);
      PutInt(VERSION_MINOR);
      PutInt(VERSION_REV);
      PutInt(ws);
      HeaderPuts(ws);
    }

    /** iolib_fini: the file as it is left on disk. */
    method Fini() returns (file: seq<byte>)
      requires Valid()
      ensures file == EncAll(ws, vals)
    {
      file := flushed + chunk[..];
      if curPtr < chunk.Length {
        file := file[..fileOffset - (chunk.Length - curPtr)];
      }
      assert chunk[..curPtr] == chunk[..][..curPtr];
    }

    method Enlarge()
      requires Mapped() && curPtr == chunk.Length
      modifies this`flushed, this`chunk, this`curPtr, this`fileOffset
      ensures Mapped() && fresh(chunk) && chunk.Length == CHUNKSZ && curPtr == 0
      ensures Log() == old(Log())
    {
      assert chunk[..curPtr] == chunk[..];
      flushed := flushed + chunk[..];
      chunk := new byte[CHUNKSZ](_ => 0);
      curPtr := 0;
      fileOffset := fileOffset + CHUNKSZ;
    }

    /** A word store at the cursor; alignment keeps it inside the chunk. */
    method StoreWord(w: word)
      requires Mapped() && curPtr % 4 == 0 && curPtr < chunk.Length
      modifies this`curPtr, chunk
      ensures Mapped() && curPtr % 4 == 0 && Log() == old(Log()) + LE(4, w)
    {
      var b := LE(4, w);
      chunk[curPtr], chunk[curPtr + 1], chunk[curPtr + 2], chunk[curPtr + 3] := b[0], b[1], b[2], b[3];
      curPtr := curPtr + 4;
      assert chunk[..curPtr] == old(chunk[..curPtr]) + b;
    }

    /** One byte at the cursor. */
    method StoreByte(b: byte)
      requires Mapped() && curPtr < chunk.Length
      modifies this`curPtr, chunk
      ensures Mapped() && curPtr == old(curPtr) + 1
      ensures Log() == old(Log()) + [b]
    {
      chunk[curPtr] := b;
      curPtr := curPtr + 1;
      assert chunk[..curPtr] == old(chunk[..curPtr]) + [b];
    }

    /** The inner copy loop: n bytes that fit into the chunk. */
    method Fill(s: seq<byte>)
      requires Mapped() && |s| <= chunk.Length - curPtr
      modifies this`curPtr, chunk
      ensures Mapped() && curPtr == old(curPtr) + |s|
      ensures Log() == old(Log()) + s
    {
      var i := 0;
      while i < |s|
        invariant 0 <= i <= |s|
        invariant Mapped() && curPtr == old(curPtr) + i
        invariant Log() == old(Log()) + s[..i]
      {
        StoreByte(s[i]);
        assert s[..i] + [s[i]] == s[..i + 1];
        i := i + 1;
      }
      assert s[..i] == s;
    }

    /** The copy loop of putLongLong, putPtr, putString and putBytes: it fills the chunk, enlarges the
        file and goes on, also when no space was left to begin with. */
    method Copy(s: seq<byte>)
      requires Mapped()
      modifies this`flushed, this`chunk, this`curPtr, this`fileOffset, chunk
      ensures Mapped() && (chunk == old(chunk) || fresh(chunk))
      ensures Log() == old(Log()) + s
    {
      var i := 0;
      while i < |s|
        invariant 0 <= i <= |s|
        invariant Mapped() && (chunk == old(chunk) || fresh(chunk))
        invariant Log() == old(Log()) + s[..i]
        decreases |s| - i, if curPtr == chunk.Length then 1 else 0
      {
        var left, avail := |s| - i, chunk.Length - curPtr;
        var n := if left <= avail then left else avail;
        Fill(s[i..i + n]);
        assert old(Log()) + s[..i] + s[i..i + n] == old(Log()) + s[..i + n];
        i := i + n;
        if left > avail {
          Enlarge();
        }
      }
      assert s[..i] == s;
    }

    /** The padding loop of putString and putBytes. */
    method Pad(ghost n: nat)
      requires Mapped() && n <= |Log()| && (|Log()| - n) % 4 == 0
      modifies this`curPtr, chunk
      ensures Mapped() && curPtr % 4 == 0
      ensures Log() == old(Log()) + Zeros(PadLength(n))
    {
      ghost var k, log := 0, Log();
      assert log + Zeros(0) == log;
      while curPtr % 4 != 0
        invariant Mapped() && curPtr == old(curPtr) + k && k <= PadLength(n)
        invariant Log() == log + Zeros(k)
        decreases PadLength(n) - k
      {
        StoreByte(0);
        ZerosSnoc(log, k);
        k := k + 1;
      }
    }

    /** The tail of putString and putBytes: copy, then pad to a word boundary. */
    method CopyPadded(s: seq<byte>)
      requires Mapped() && curPtr % 4 == 0
      modifies this`flushed, this`chunk, this`curPtr, this`fileOffset, chunk
      ensures Mapped() && curPtr % 4 == 0 && (chunk == old(chunk) || fresh(chunk))
      ensures Log() == old(Log()) + Padded(s)
    {
      Copy(s);
      assert |Log()| == |old(Log())| + |s|;
      Pad(|s|);
      Assoc(old(Log()), s, Zeros(PadLength(|s|)));
    }

    /** The next word, in a new chunk when the current one is full. */
    method AppendWord(w: word)
      requires Mapped() && curPtr % 4 == 0
      modifies this`flushed, this`chunk, this`curPtr, this`fileOffset, chunk
      ensures Mapped() && curPtr % 4 == 0 && (chunk == old(chunk) || fresh(chunk))
      ensures Log() == old(Log()) + LE(4, w)
    {
      if curPtr >= chunk.Length { Enlarge(); }
      StoreWord(w);
    }

    /** A copy of whole words keeps the cursor aligned. */
    method CopyWords(s: seq<byte>)
      requires Mapped() && curPtr % 4 == 0 && |s| % 4 == 0
      modifies this`flushed, this`chunk, this`curPtr, this`fileOffset, chunk
      ensures Mapped() && curPtr % 4 == 0 && (chunk == old(chunk) || fresh(chunk))
      ensures Log() == old(Log()) + s
    {
      Copy(s);
      assert |Log()| == |old(Log())| + |s|;
    }

    method PutInt(arg: word)
      requires Valid()
      modifies this, chunk
      ensures Did(old(Abs()).Put(I(arg)))
    {
      hide EncAll;
      if reentrance > 1 { return; }
      AppendWord(arg);
      EncSnoc(ws, vals, I(arg));
      vals := vals + [I(arg)];
    }

    method PutFloat(arg: word)
      requires Valid()
      modifies this, chunk
      ensures Did(old(Abs()).Put(F(arg)))
    {
      hide EncAll;
      if reentrance > 1 { return; }
      AppendWord(arg);
      EncSnoc(ws, vals, F(arg));
      vals := vals + [F(arg)];
    }

    /** The common part of putIntPtr and putFloatPtr: a marker word announces a NULL pointer or the
        marker itself. */
    method AppendMarked(arg: Option<word>, marker: word)
      requires Mapped() && curPtr % 4 == 0
      modifies this`flushed, this`chunk, this`curPtr, this`fileOffset, chunk
      ensures Mapped() && curPtr % 4 == 0 && (chunk == old(chunk) || fresh(chunk))
      ensures Log() == old(Log()) + Marked(arg, marker)
    {
      var val: word := 0;
      if arg.None? || arg.value == marker {
        AppendWord(marker);
        if arg.Some? { val := marker; }
        Assoc(old(Log()), LE(4, marker), LE(4, val));
      } else {
        val := arg.value;
      }
      AppendWord(val);
    }

    method PutIntPtr(arg: Option<word>)
      requires Valid()
      modifies this, chunk
      ensures Did(old(Abs()).Put(IP(arg)))
    {
      hide EncAll;
      if reentrance > 1 { return; }
      AppendMarked(arg, MARKER);
      EncSnoc(ws, vals, IP(arg));
      vals := vals + [IP(arg)];
    }

    method PutFloatPtr(arg: Option<word>)
      requires Valid()
      modifies this, chunk
      ensures Did(old(Abs()).Put(FP(arg)))
    {
      hide EncAll;
      if reentrance > 1 { return; }
      AppendMarked(arg, FLOAT_MARKER);
      EncSnoc(ws, vals, FP(arg));
      vals := vals + [FP(arg)];
    }

    method PutLongLong(arg: dword)
      requires Valid()
      modifies this, chunk
      ensures Did(old(Abs()).Put(LL(arg)))
    {
      hide EncAll;
      if reentrance > 1 { return; }
      CopyWords(LE(8, arg));
      EncSnoc(ws, vals, LL(arg));
      vals := vals + [LL(arg)];
    }

    method PutPtr(arg: dword)
      requires Valid()
      modifies this, chunk
      ensures Did(old(Abs()).Put(P(arg)))
    {
      hide EncAll;
      if reentrance > 1 { return; }
      CopyWords(Pointer(ws, arg));
      EncSnoc(ws, vals, P(arg));
      vals := vals + [P(arg)];
    }

    method PutString(str: Option<cstring>)
      requires Valid()
      modifies this, chunk
      ensures Did(old(Abs()).Put(S(str)))
    {
      hide EncAll;
      if reentrance > 1 { return; }
      if str.None? {
        AppendWord(0);
      } else {
        CopyPadded(str.value + [0]);
      }
      EncSnoc(ws, vals, S(str));
      vals := vals + [S(str)];
    }

    method PutBytes(data: Option<seq<byte>>, size: int)
      requires Valid() && BytesArgs(data, size)
      modifies this, chunk
      ensures Did(old(Abs()).Put(BytesValue(data, size)))
    {
      hide EncAll;
      hide Enc;
      hide Padded;
      hide BytesValue;
      if reentrance > 1 { return; }
      var left := size;
      if data.None? { left := 0; }
      EncBytes(ws, data, size);
      AppendWord(Pattern(left));
      if left > 0 {
        CopyPadded(data.value[..left]);
        Assoc(old(Log()), LE(4, left), Padded(data.value[..left]));
      }
      EncSnoc(ws, vals, BytesValue(data, size));
      vals := vals + [BytesValue(data, size)];
    }

    /** putCmd by thread `thr`; a thread that does not get the lock waits. */
    method PutCmd(thr: dword, cmd: word)
      requires Valid() && Abs().MayLock(thr)
      modifies this, chunk
      ensures Did(old(Abs()).PutCmd(thr, cmd))
    {
      hide EncAll;
      owner := Some(thr);
      reentrance := reentrance + 1;
      if reentrance > 1 { return; }
      if thr != curThread {
        PutInt(OPC_THREAD);
        PutPtr(thr);
        curThread := thr;
        Snoc3(old(vals), I(OPC_THREAD), P(thr), I(cmd));
      }
      PutInt(cmd);
    }

    method EndCmd()
      requires Valid() && reentrance > 0
      modifies this`reentrance, this`owner
      ensures Did(old(Abs()).EndCmd())
    {
      reentrance := reentrance - 1;
      if reentrance == 0 { owner := None; }
    }

    method PutTime(bgn: dword, end: dword)
      requires Valid() && reentrance > 0
      modifies this, chunk
      ensures Did(old(Abs()).Put(LL(bgn)).Put(LL(end)).EndCmd())
    {
      hide EncAll;
      PutLongLong(bgn);
      PutLongLong(end);
      EndCmd();
    }
  }
}
