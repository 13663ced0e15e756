/** The replay loop of retrace.c (tools/gltrace/retrace.c:2468-3657) over the getters: it is proved to
    compute TraceReplayer.Process. */
module TraceRetrace {
  import opened Words
  import opened TraceValues
  import opened TraceProtocol
  import opened TraceOpcodes
  import opened TraceRecorder
  import opened TraceReplayer
  import opened TraceReader

  /** What a decoder has found so far, in front of what it will find. */
  function Onto<T>(done: seq<T>, r: Read<seq<T>>): Read<seq<T>> {
    if r.Overrun? then Overrun else Read(done + r.value, r.rest)
  }

  lemma OntoNone<T>(a: seq<T>, r: Read<seq<T>>, rest: seq<byte>)
    ensures Onto([], r) == r && Onto(a, Read([], rest)) == Read(a, rest)
  {
    if r.Read? { assert [] + r.value == r.value; }
    assert a + [] == a;
  }

  lemma OntoOne<T>(a: seq<T>, v: T, r: Read<seq<T>>)
    ensures r.Read? ==> Onto(a, Read([v] + r.value, r.rest)) == Onto(a + [v], r)
  {
    if r.Read? { Assoc(a, [v], r.value); }
  }

  method ReadValue(rd: Reader, k: Kind) returns (r: Option<Value>)
    modifies rd`cur
    ensures Dec(rd.ws, k, old(rd.Rest())) == if r.Some? then Read(r.value, rd.Rest()) else Overrun
  {
    match k
    case KI => var w := rd.GetInt(); r := Some(I(w));
    case KF => var w := rd.GetInt(); r := Some(F(w));
    case KIP => var ok, p := rd.GetIntPtr(); r := if ok then Some(IP(p)) else None;
    case KFP => var ok, p := rd.GetFloatPtr(); r := if ok then Some(FP(p)) else None;
    case KLL => var d := rd.GetLongLong(); r := Some(LL(d));
    case KP => var d := rd.GetPtr(); r := Some(P(d));
    case KS => var ok, s := rd.GetString(); r := if ok then Some(S(Some(s))) else None;
    case KB => var ok, b := rd.GetBytes(); r := if ok then Some(B(b)) else None;
  }

  method ReadValues(rd: Reader, ks: seq<Kind>) returns (r: Option<seq<Value>>)
    modifies rd`cur
    ensures DecAll(rd.ws, ks, old(rd.Rest())) == if r.Some? then Read(r.value, rd.Rest()) else Overrun
  {
    hide Dec;
    OntoNone([], DecAll(rd.ws, ks, rd.Rest()), rd.Rest());
    assert ks[0..] == ks;
    var vs, i := [], 0;
    while i < |ks|
      invariant 0 <= i <= |ks|
      invariant DecAll(rd.ws, ks, old(rd.Rest())) == Onto(vs, DecAll(rd.ws, ks[i..], rd.Rest()))
    {
      var v := ReadValue(rd, ks[i]);
      if v.None? { return None; }
      assert ks[i..][1..] == ks[i + 1..];
      OntoOne(vs, v.value, DecAll(rd.ws, ks[i + 1..], rd.Rest()));
      vs, i := vs + [v.value], i + 1;
    }
    OntoNone(vs, Overrun, rd.Rest());
    r := Some(vs);
  }

  method ReadInts(rd: Reader, n: nat) returns (ws: seq<word>)
    modifies rd`cur
    ensures GetInts(n, old(rd.Rest())) == Read(ws, rd.Rest())
  {
    hide GetInt;
    OntoNone([], GetInts(n, rd.Rest()), rd.Rest());
    ws := [];
    var i := 0;
    while i < n
      invariant 0 <= i <= n
      invariant GetInts(n, old(rd.Rest())) == Onto(ws, GetInts(n - i, rd.Rest()))
    {
      var w := rd.GetInt();
      OntoOne(ws, w, GetInts(n - i - 1, rd.Rest()));
      ws, i := ws + [w], i + 1;
    }
    OntoNone(ws, Overrun, rd.Rest());
  }

  method ReadPtrs(rd: Reader, n: nat) returns (ds: seq<dword>)
    modifies rd`cur
    ensures GetPtrs(rd.ws, n, old(rd.Rest())) == Read(ds, rd.Rest())
  {
    hide GetPtr;
    OntoNone([], GetPtrs(rd.ws, n, rd.Rest()), rd.Rest());
    ds := [];
    var i := 0;
    while i < n
      invariant 0 <= i <= n
      invariant GetPtrs(rd.ws, n, old(rd.Rest())) == Onto(ds, GetPtrs(rd.ws, n - i, rd.Rest()))
    {
      var d := rd.GetPtr();
      OntoOne(ds, d, GetPtrs(rd.ws, n - i - 1, rd.Rest()));
      ds, i := ds + [d], i + 1;
    }
    OntoNone(ds, Overrun, rd.Rest());
  }

  /** The source string loop of glShaderSource. */
  method ReadParts(rd: Reader, n: nat) returns (r: Option<seq<(int, seq<byte>)>>)
    modifies rd`cur
    ensures GetParts(n, old(rd.Rest())) == if r.Some? then Read(r.value, rd.Rest()) else Overrun
  {
    hide GetInt;
    hide GetBytes;
    hide GetString;
    OntoNone([], GetParts(n, rd.Rest()), rd.Rest());
    var ps: seq<(int, seq<byte>)>, i := [], 0;
    while i < n
      invariant 0 <= i <= n
      invariant GetParts(n, old(rd.Rest())) == Onto(ps, GetParts(n - i, rd.Rest()))
    {
      var len := rd.GetInt();
      if Signed(len) > 0 {
        var ok, text := rd.GetBytes();
        if !ok { return None; }
        OntoOne(ps, (Signed(len), text), GetParts(n - i - 1, rd.Rest()));
        ps := ps + [(Signed(len), text)];
      } else {
        var ok, text := rd.GetString();
        if !ok { return None; }
        OntoOne(ps, (-1, text), GetParts(n - i - 1, rd.Rest()));
        ps := ps + [(-1, text)];
      }
      i := i + 1;
    }
    OntoNone(ps, Overrun, rd.Rest());
    r := Some(ps);
  }

  /** The attribute loop of eglCreateWindowSurface and eglCreateContext; None where the program exits. */
  method ReadPairs(rd: Reader) returns (r: Option<seq<(word, word)>>)
    modifies rd`cur
    ensures GetPairs(0, old(rd.Rest())).value == r
    ensures r.Some? ==> GetPairs(0, old(rd.Rest())).rest == rd.Rest()
  {
    hide GetInt;
    ghost var first := GetPairs(0, rd.Rest());
    assert first.value.Some? ==> [] + first.value.value == first.value.value;
    var ps, i := [], 0;
    while true
      invariant 0 <= i
      invariant var all, more := GetPairs(0, old(rd.Rest())), GetPairs(i, rd.Rest());
                if more.value.None? then all.value.None?
                else all == Read(Some(ps + more.value.value), more.rest)
      decreases MAX_EGL_INTS - i
    {
      if i >= MAX_EGL_INTS { return None; }
      var name := rd.GetInt();
      if name == EGL_NONE {
        assert ps + [] == ps;
        return Some(ps);
      }
      var val := rd.GetInt();
      ghost var more := GetPairs(i + 2, rd.Rest());
      if more.value.Some? { Assoc(ps, [(name, val)], more.value.value); }
      ps, i := ps + [(name, val)], i + 2;
    }
  }

  class Retracer {
    const rd: Reader
    const exec: bool
    var curThread: dword
    var arrayBufferBinding: word
    var elementArrayBufferBinding: word
    const vertexAttrib: array<ReplayAttrib>

    ghost predicate Valid()
      reads this, vertexAttrib
    {
      vertexAttrib.Length == MAX_VERTEX_ATTRIBS
    }

    ghost function Abs(): Replay
      reads this, vertexAttrib
    {
      Replay(exec, curThread, arrayBufferBinding, elementArrayBufferBinding, vertexAttrib[..])
    }

    constructor (rd: Reader, exec: bool)
      ensures Valid() && Abs() == InitialReplay(exec) && this.rd == rd && fresh(vertexAttrib)
    {
      this.rd, this.exec := rd, exec;
      curThread, arrayBufferBinding, elementArrayBufferBinding := 0, 0, 0;
      vertexAttrib := new ReplayAttrib[MAX_VERTEX_ATTRIBS](_ => ReplayAttrib(false, Format(0, 0, 0)));
    }

    /** The vertex attribute loop of glDrawElements. */
    method ReadArrays() returns (r: Option<seq<ArrayData>>)
      requires Valid()
      modifies rd`cur
      ensures GetArrays(Abs(), 0, old(rd.Rest())) == if r.Some? then Read(r.value, rd.Rest()) else Overrun
    {
      hide GetBytes;
      ghost var st := Abs();
      OntoNone([], GetArrays(st, 0, rd.Rest()), rd.Rest());
      var arrays, i := [], 0;
      while i < MAX_VERTEX_ATTRIBS
        invariant 0 <= i <= MAX_VERTEX_ATTRIBS
        invariant GetArrays(st, 0, old(rd.Rest())) == Onto(arrays, GetArrays(st, i, rd.Rest()))
      {
        if vertexAttrib[i].enabled {
          var ok, bytes := rd.GetBytes();
          if !ok { return None; }
          var target := if exec then Some(Target(i, vertexAttrib[i].format)) else None;
          OntoOne(arrays, ArrayData(target, bytes), GetArrays(st, i + 1, rd.Rest()));
          arrays := arrays + [ArrayData(target, bytes)];
        }
        i := i + 1;
      }
      OntoNone(arrays, Overrun, rd.Rest());
      r := Some(arrays);
    }

    method ReadDrawElements() returns (r: Option<Event>)
      requires Valid()
      modifies rd`cur
      ensures GetDrawElements(rd.ws, Abs(), old(rd.Rest())) == if r.Some? then Read(r.value, rd.Rest()) else Overrun
    {
      hide GetInts;
      hide GetPtr;
      hide GetBytes;
      hide GetArrays;
      var head := ReadInts(rd, 3);
      var indices;
      if elementArrayBufferBinding != 0 {
        var p := rd.GetPtr();
        indices := AtOffset(p);
      } else {
        var ok, b := rd.GetBytes();
        if !ok { return None; }
        indices := AtData(b);
      }
      var arrays := [];
      if arrayBufferBinding == 0 {
        var a := ReadArrays();
        if a.None? { return None; }
        arrays := a.value;
      }
      r := Some(EDrawElements(head[0], head[1], head[2], indices, arrays));
    }

    method ReadActiveUniform() returns (r: Option<Event>)
      modifies rd`cur
      ensures GetActiveUniform(rd.ws, old(rd.Rest())) == if r.Some? then Read(r.value, rd.Rest()) else Overrun
    {
      hide GetInts;
      hide GetPtrs;
      hide GetInt;
      hide GetString;
      var ids := ReadInts(rd, 3);
      var ptrs := ReadPtrs(rd, 4);
      var length, size, typ, name := 0, 0, 0, None;
      if ptrs[0] != 0 { length := rd.GetInt(); }
      if ptrs[1] != 0 { size := rd.GetInt(); }
      if ptrs[2] != 0 { typ := rd.GetInt(); }
      if ptrs[3] != 0 {
        var ok, s := rd.GetString();
        if !ok { return None; }
        name := Some(s);
      }
      r := Some(EActiveUniform(ids, ptrs, length, size, typ, name));
    }

    method ReadEglCreate(op: word) returns (r: Option<Event>)
      modifies rd`cur
      ensures var g := GetEglCreate(rd.ws, op, old(rd.Rest()));
              g.value == r && (r.Some? ==> g.rest == rd.Rest())
    {
      hide GetPtrs;
      hide GetPairs;
      hide GetPtr;
      var handles := ReadPtrs(rd, 3);
      var attribs := ReadPairs(rd);
      if attribs.None? { return None; }
      var result := rd.GetPtr();
      r := Some(EEglCreate(op, handles, attribs.value, result));
    }

    /** The switch of `process`; None where it returns or reads past the mapping. */
    method ReadEvent(op: word) returns (r: Option<Event>)
      requires Valid()
      modifies rd`cur
      ensures var g := GetEvent(rd.ws, Abs(), op, old(rd.Rest()));
              if r.Some? then g == Read(r, rd.Rest()) else g.Overrun? || g.value.None?
      ensures op == OPC_EOF ==> rd.Rest() == old(rd.Rest())
    {
      hide GetInts;
      hide GetInt;
      hide GetParts;
      hide DecAll;
      hide GetDrawElements;
      hide GetActiveUniform;
      hide GetEglCreate;
      if op == glDrawElements {
        r := ReadDrawElements();
      } else if op == glShaderSource {
        var head := ReadInts(rd, 2);
        var parts := ReadParts(rd, Count(head[1]));
        r := if parts.Some? then Some(EShaderSource(head[0], head[1], parts.value)) else None;
      } else if op == glGetActiveUniform {
        r := ReadActiveUniform();
      } else if IsIdListOp(op) {
        var n := rd.GetInt();
        var ids := ReadInts(rd, Count(n));
        r := Some(EIdList(op, n, ids));
      } else if IsEglCreateOp(op) {
        r := ReadEglCreate(op);
      } else if ReplayerLayout(op).Some? {
        var args := ReadValues(rd, ReplayerLayout(op).value);
        r := if args.Some? then Some(EFixed(op, args.value)) else None;
      } else {
        r := None;
      }
    }

    /** The shadow updates of `process` and of the proc_ functions. */
    method Note(e: Event)
      requires Valid()
      modifies this, vertexAttrib
      ensures Abs() == Advance(old(Abs()), e)
    {
      if !e.EFixed? { return; }
      if e.op == glBindBuffer && |e.args| == 2 && e.args[0].I? && e.args[1].I? {
        if e.args[0].w == GL_ARRAY_BUFFER {
          arrayBufferBinding := e.args[1].w;
        } else if e.args[0].w == GL_ELEMENT_ARRAY_BUFFER {
          elementArrayBufferBinding := e.args[1].w;
        }
      } else if e.op == glEnableVertexAttribArray || e.op == glDisableVertexAttribArray {
        if |e.args| == 1 && e.args[0].I? && e.args[0].w < MAX_VERTEX_ATTRIBS {
          var i := e.args[0].w;
          vertexAttrib[i] := vertexAttrib[i].(enabled := e.op == glEnableVertexAttribArray);
        }
      } else if e.op == glVertexAttribPointer && exec {
        if |e.args| == 6 && e.args[0].I? && e.args[1].I? && e.args[2].I? && e.args[3].I?
           && e.args[0].w < MAX_VERTEX_ATTRIBS {
          var i := e.args[0].w;
          vertexAttrib[i] := vertexAttrib[i].(format := Format(e.args[1].w, e.args[2].w, e.args[3].w));
        }
      }
    }

    /** One turn of the loop. */
    method Next() returns (r: Option<Replayed>)
      requires Valid()
      modifies this, vertexAttrib, rd`cur
      ensures var turn := Turn(rd.ws, old(Abs()), old(rd.Rest()));
              if r.Some? then turn == Some((r.value, Abs(), rd.Rest())) else turn.None?
      ensures old(rd.Rest()) == [] ==> r.None? && rd.Rest() == [] && Abs() == old(Abs())
    {
      EofStops(rd.ws, Abs(), []);
      hide GetEvent;
      hide Advance;
      hide GetPtr;
      hide GetLongLong;
      var cmd := rd.GetCmd();
      if cmd == OPC_THREAD {
        curThread := rd.GetPtr();
        cmd := rd.GetCmd();
      }
      var e := ReadEvent(cmd);
      if e.None? { return None; }
      Note(e.value);
      var bgn := rd.GetLongLong();
      var end := rd.GetLongLong();
      r := Some(Replayed(curThread, e.value, bgn, end));
    }

    method Process(frames: int) returns (events: seq<Replayed>)
      requires Valid()
      modifies this, vertexAttrib, rd`cur
      ensures var out := TraceReplayer.Process(rd.ws, old(Abs()), frames, old(rd.Rest()));
              && events == out.events
              && (out.rest == [] ==> rd.Rest() == [] && Abs() == out.st)
    {
      hide Turn;
      hide TraceReplayer.Process;
      var left := frames;
      events := [];
      ghost var all := TraceReplayer.Process(rd.ws, Abs(), frames, rd.Rest());
      assert [] + all.events == all.events;
      while left != 0
        invariant Valid()
        invariant var more := TraceReplayer.Process(rd.ws, Abs(), left, rd.Rest());
                  all == Outcome(events + more.events, more.st, more.rest)
        decreases |rd.Rest()|
      {
        ProcessSteps(rd.ws, Abs(), left, rd.Rest());
        var r := Next();
        if r.None? {
          assert events + [] == events;
          return;
        }
        if IsSwap(r.value.event) { left := left - 1; }
        Assoc(events, [r.value], TraceReplayer.Process(rd.ws, Abs(), left, rd.Rest()).events);
        events := events + [r.value];
      }
      ProcessSteps(rd.ws, Abs(), 0, rd.Rest());
      assert events + [] == events;
    }
  }
}
