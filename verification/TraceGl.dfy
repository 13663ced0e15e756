/** The intercepted entry points (tools/gltrace/gles.c, egl.c) as methods over the shadow state and the
    log writer.  Each is proved to put exactly the values TraceRecorder assigns to the call and to
    change the shadow exactly as TraceRecorder.After says. */
module TraceGl {
  import opened Words
  import opened TraceValues
  import opened TraceProtocol
  import opened TraceOpcodes
  import opened TraceRecorder
  import opened TraceWriter

  /** Any put, chosen by the kind of the value. */
  method PutValue(w: Writer, v: Value)
    requires w.Valid()
    modifies w, w.chunk
    ensures w.Did(old(w.Abs()).Put(v))
  {
    hide EncAll;
    match v
    case I(x) => w.PutInt(x);
    case F(x) => w.PutFloat(x);
    case IP(p) => w.PutIntPtr(p);
    case FP(p) => w.PutFloatPtr(p);
    case LL(d) => w.PutLongLong(d);
    case P(d) => w.PutPtr(d);
    case S(s) => w.PutString(s);
    case B(bytes) =>
      assert bytes[..|bytes|] == bytes;
      w.PutBytes(Some(bytes), |bytes|);
    case BNeg(size) => w.PutBytes(Some([]), size);
  }

  method PutValues(w: Writer, vs: seq<Value>)
    requires w.Valid()
    modifies w, w.chunk
    ensures w.Did(old(w.Abs()).PutSeq(vs))
  {
    hide EncAll;
    ghost var s := w.Abs();
    PutSeqNil(s);
    var i := 0;
    while i < |vs|
      invariant 0 <= i <= |vs|
      invariant w.Valid() && (w.chunk == old(w.chunk) || fresh(w.chunk))
      invariant w.Abs() == s.PutSeq(vs[..i])
    {
      PutValue(w, vs[i]);
      PutSeqSnoc(s, vs[..i], vs[i]);
      assert vs[..i] + [vs[i]] == vs[..i + 1];
      i := i + 1;
    }
    assert vs[..i] == vs;
  }

  /** The inner copy loop of putVertexAttrib: one element. */
  method CopyElement(mem: Memory, src: int, elemsz: nat, buf: array<byte>, dst: nat)
    requires dst + elemsz <= buf.Length
    modifies buf
    ensures buf[..dst + elemsz] == old(buf[..dst]) + Fetch(mem, src, elemsz)
  {
    var k := 0;
    while k < elemsz
      invariant 0 <= k <= elemsz
      invariant buf[..dst] == old(buf[..dst])
      invariant buf[dst..dst + k] == Fetch(mem, src, k)
    {
      buf[dst + k] := mem(src + k);
      assert buf[dst..dst + k + 1] == buf[dst..dst + k] + [mem(src + k)];
      k := k + 1;
    }
    assert buf[..dst + elemsz] == buf[..dst] + buf[dst..dst + elemsz];
  }

  /** The copy loop of putVertexAttrib: n elements of one attribute, without the gaps, into buf. */
  method Pack(mem: Memory, a: Attrib, n: nat, buf: array<byte>) returns (dst: nat)
    requires n * ElementSize(a) <= buf.Length
    modifies buf
    ensures dst <= buf.Length && buf[..dst] == Packed(mem, a, n)
  {
    var elemsz := ElementSize(a);
    var src := a.pointer as int;
    dst := 0;
    var j := 0;
    while j < n
      invariant 0 <= j <= n && dst == j * elemsz <= buf.Length
      invariant src == a.pointer + j * Step(a)
      invariant buf[..dst] == Packed(mem, a, j)
    {
      MulStep(j, n, elemsz);
      MulStep(j, n, Step(a));
      CopyElement(mem, src, elemsz, buf, dst);
      assert Packed(mem, a, j + 1) == Packed(mem, a, j) + Fetch(mem, a.pointer + j * Step(a), elemsz);
      src, dst := src + elemsz, dst + elemsz;
      if Signed(a.stride) > 0 {
        src := src + Signed(a.stride) - elemsz;
      }
      j := j + 1;
    }
  }

  /** A run of putInt calls. */
  method PutInts(w: Writer, ids: seq<word>)
    requires w.Valid()
    modifies w, w.chunk
    ensures w.Did(old(w.Abs()).PutSeq(Ints(ids)))
  {
    hide EncAll;
    ghost var s := w.Abs();
    PutSeqNil(s);
    var i := 0;
    while i < |ids|
      invariant 0 <= i <= |ids|
      invariant w.Valid() && (w.chunk == old(w.chunk) || fresh(w.chunk))
      invariant w.Abs() == s.PutSeq(Ints(ids[..i]))
    {
      w.PutInt(ids[i]);
      PutSeqSnoc(s, Ints(ids[..i]), I(ids[i]));
      IntsSplit(ids[..i], [ids[i]]);
      assert ids[..i + 1] == ids[..i] + [ids[i]] && Ints([ids[i]]) == [I(ids[i])];
      i := i + 1;
    }
    assert ids[..i] == ids;
  }

  /** The source string loop of glShaderSource. */
  method PutParts(w: Writer, ps: seq<Part>)
    requires w.Valid() && forall i | 0 <= i < |ps| :: PartOk(ps[i])
    modifies w, w.chunk
    ensures w.Did(old(w.Abs()).PutSeq(Parts(ps)))
  {
    hide EncAll;
    ghost var s, done := w.Abs(), [];
    PutSeqNil(s);
    var i := 0;
    while i < |ps|
      invariant 0 <= i <= |ps|
      invariant w.Valid() && (w.chunk == old(w.chunk) || fresh(w.chunk))
      invariant w.Abs() == s.PutSeq(done) && done + Parts(ps[i..]) == Parts(ps)
    {
      var len, v := ps[i].len, PartValue(ps[i]);
      w.PutInt(len);
      PutSeqSnoc(s, done, I(len));
      PutValue(w, v);
      PutSeqSnoc(s, done + [I(len)], v);
      assert ps[i..][1..] == ps[i + 1..];
      Regroup(done, I(len), v, Parts(ps[i + 1..]));
      done := done + [I(len)] + [v];
      i := i + 1;
    }
    assert done + [] == done;
  }

  /** The attribute loops of eglCreateWindowSurface and eglCreateContext. */
  method PutPairs(w: Writer, ps: seq<(word, word)>)
    requires w.Valid()
    modifies w, w.chunk
    ensures w.Did(old(w.Abs()).PutSeq(Pairs(ps)))
  {
    hide EncAll;
    ghost var s, done := w.Abs(), [];
    PutSeqNil(s);
    var i := 0;
    while i < |ps|
      invariant 0 <= i <= |ps|
      invariant w.Valid() && (w.chunk == old(w.chunk) || fresh(w.chunk))
      invariant w.Abs() == s.PutSeq(done) && done + Pairs(ps[i..]) == Pairs(ps)
    {
      var name, val := ps[i].0, ps[i].1;
      w.PutInt(name);
      PutSeqSnoc(s, done, I(name));
      w.PutInt(val);
      PutSeqSnoc(s, done + [I(name)], I(val));
      assert ps[i..][1..] == ps[i + 1..];
      Regroup(done, I(name), I(val), Pairs(ps[i + 1..]));
      done := done + [I(name)] + [I(val)];
      i := i + 1;
    }
    w.PutInt(EGL_NONE);
    PutSeqSnoc(s, done, I(EGL_NONE));
  }

  class GlRecorder {
    const w: Writer
    var arrayBufferBinding: word
    var elementArrayBufferBinding: word
    const vertexAttrib: array<Attrib>

    ghost predicate Valid()
      reads this, vertexAttrib, w, w.chunk
    {
      w.Valid() && vertexAttrib.Length == MAX_VERTEX_ATTRIBS
    }

    ghost function Abs(): (sh: Shadow)
      reads this, vertexAttrib
    {
      Shadow(arrayBufferBinding, elementArrayBufferBinding, vertexAttrib[..])
    }

    constructor (w: Writer)
      requires w.Valid()
      ensures Valid() && this.w == w && Abs() == InitialShadow() && fresh(vertexAttrib)
    {
      this.w := w;
      arrayBufferBinding, elementArrayBufferBinding := 0, 0;
      vertexAttrib := new Attrib[MAX_VERTEX_ATTRIBS](_ => Attrib(false, 0, 0, 0, 0, 0));
    }

    /** putVertexAttrib: the blobs of all enabled attributes go through one buffer, large enough for each. */
    method PutVertexAttrib(mem: Memory, count: word)
      requires Valid() && AllPack(vertexAttrib[..], VertexCount(count))
      modifies w, w.chunk
      ensures w.Did(old(w.Abs()).PutSeq(Arrays(mem, vertexAttrib[..], VertexCount(count), 0)))
    {
      hide EncAll;
      var n := VertexCount(count);
      var maxsz := LargestPacked(n);
      var buf := new byte[maxsz](_ => 0);
      ghost var attribs := vertexAttrib[..];
      ghost var all := Arrays(mem, attribs, n, 0);
      ghost var s, done := w.Abs(), [];
      PutSeqNil(s);
      var i := 0;
      while i < MAX_VERTEX_ATTRIBS
        invariant 0 <= i <= MAX_VERTEX_ATTRIBS
        invariant w.Valid() && (w.chunk == old(w.chunk) || fresh(w.chunk)) && w.chunk != buf
        invariant vertexAttrib[..] == attribs
        invariant w.Abs() == s.PutSeq(done) && done + Arrays(mem, attribs, n, i) == all
      {
        var a := vertexAttrib[i];
        if a.enabled {
          assert PacksWell(attribs[i], n);
          var dst := Pack(mem, a, n, buf);
          assert buf[..dst][..dst] == buf[..dst];
          w.PutBytes(Some(buf[..dst]), dst);
          ghost var v := B(Packed(mem, a, n));
          PutSeqSnoc(s, done, v);
          Assoc(done, [v], Arrays(mem, attribs, n, i + 1));
          done := done + [v];
        }
        i := i + 1;
      }
      assert done + [] == done;
    }

    /** The first loop of putVertexAttrib. */
    method LargestPacked(n: nat) returns (maxsz: nat)
      requires Valid() && AllPack(vertexAttrib[..], n)
      ensures forall k | 0 <= k < MAX_VERTEX_ATTRIBS :: vertexAttrib[k].enabled ==> n * ElementSize(vertexAttrib[k]) <= maxsz
    {
      maxsz := 0;
      var i := 0;
      while i < MAX_VERTEX_ATTRIBS
        invariant 0 <= i <= MAX_VERTEX_ATTRIBS
        invariant forall k | 0 <= k < i :: vertexAttrib[k].enabled ==> n * ElementSize(vertexAttrib[k]) <= maxsz
      {
        if vertexAttrib[i].enabled {
          var sz := ElementSize(vertexAttrib[i]) * n;
          if maxsz < sz { maxsz := sz; }
        }
        i := i + 1;
      }
    }

    /** Entry points with a fixed layout and no shadow state. */
    method Fixed(thr: dword, op: word, args: seq<Value>, bgn: dword, end: dword)
      requires Valid() && w.Abs().MayLock(thr)
      modifies w, w.chunk
      ensures w.Did(old(w.Abs()).Command(thr, op, args + [LL(bgn), LL(end)]))
    {
      hide EncAll;
      CommandSteps(w.Abs(), thr, op, args, bgn, end);
      w.PutCmd(thr, op);
      PutValues(w, args);
      w.PutTime(bgn, end);
    }

    method IdList(thr: dword, op: word, ids: seq<word>, n: word, bgn: dword, end: dword)
      requires Valid() && w.Abs().MayLock(thr)
      modifies w, w.chunk
      ensures w.Did(old(w.Abs()).Command(thr, op, [I(n)] + Ints(ids) + [LL(bgn), LL(end)]))
    {
      hide EncAll;
      CommandSteps(w.Abs(), thr, op, [I(n)] + Ints(ids), bgn, end);
      w.PutCmd(thr, op);
      PutSeqJoin(w.Abs(), [I(n)], Ints(ids));
      w.PutInt(n);
      PutInts(w, ids);
      w.PutTime(bgn, end);
    }

    method ShaderSource(thr: dword, shader: word, parts: seq<Part>, count: word, bgn: dword, end: dword)
      requires Valid() && w.Abs().MayLock(thr) && forall i | 0 <= i < |parts| :: PartOk(parts[i])
      modifies w, w.chunk
      ensures w.Did(old(w.Abs()).Command(thr, glShaderSource,
                    Ints([shader, count]) + Parts(parts) + [LL(bgn), LL(end)]))
    {
      hide EncAll;
      CommandSteps(w.Abs(), thr, glShaderSource, Ints([shader, count]) + Parts(parts), bgn, end);
      w.PutCmd(thr, glShaderSource);
      PutSeqJoin(w.Abs(), Ints([shader, count]), Parts(parts));
      PutInts(w, [shader, count]);
      PutParts(w, parts);
      w.PutTime(bgn, end);
    }

    method ActiveUniform(thr: dword, c: Call, bgn: dword, end: dword)
      requires Valid() && w.Abs().MayLock(thr) && c.ActiveUniform? && |c.ptrs| == 4
      modifies w, w.chunk
      ensures w.Did(old(w.Abs()).Command(thr, glGetActiveUniform, UniformPayload(c) + [LL(bgn), LL(end)]))
    {
      hide EncAll;
      var tail := When(c.ptrs[0] != 0, I(c.length)) + (When(c.ptrs[1] != 0, I(c.size)) +
                  (When(c.ptrs[2] != 0, I(c.typ)) + When(c.ptrs[3] != 0, S(Some(c.name)))));
      CommandSteps(w.Abs(), thr, glGetActiveUniform, Ints(c.ids) + (Ptrs(c.ptrs) + tail), bgn, end);
      w.PutCmd(thr, glGetActiveUniform);
      PutSeqJoin(w.Abs(), Ints(c.ids), Ptrs(c.ptrs) + tail);
      PutInts(w, c.ids);
      PutValues(w, Ptrs(c.ptrs) + tail);
      w.PutTime(bgn, end);
    }

    method EglCreate(thr: dword, op: word, handles: seq<dword>, attribs: seq<(word, word)>, result: dword,
                     bgn: dword, end: dword)
      requires Valid() && w.Abs().MayLock(thr)
      modifies w, w.chunk
      ensures w.Did(old(w.Abs()).Command(thr, op, EglPayload(handles, attribs, result) + [LL(bgn), LL(end)]))
    {
      hide EncAll;
      CommandSteps(w.Abs(), thr, op, EglPayload(handles, attribs, result), bgn, end);
      w.PutCmd(thr, op);
      PutSeqJoin(w.Abs(), Ptrs(handles), Pairs(attribs) + [P(result)]);
      PutValues(w, Ptrs(handles));
      PutSeqSnoc(w.Abs(), Pairs(attribs), P(result));
      PutPairs(w, attribs);
      w.PutPtr(result);
      w.PutTime(bgn, end);
    }

    method DrawBody(mem: Memory, c: Call)
      requires Valid() && c.DrawElements? && Recordable(w.ws, Abs(), c)
      modifies w, w.chunk
      ensures w.Did(old(w.Abs()).PutSeq(Payload(w.ws, Abs(), mem, c)))
    {
      hide EncAll;
      hide LogState.PutSeq;
      hide LogState.Put;
      hide Arrays;
      var head := Ints([c.mode, c.count, c.typ]);
      var ind := IndexValue(Shadow(arrayBufferBinding, elementArrayBufferBinding, []), mem, c);
      ghost var arrays := if arrayBufferBinding == 0 then Arrays(mem, vertexAttrib[..], VertexCount(c.count), 0) else [];
      PutSeqJoin(w.Abs(), head, [ind] + arrays);
      PutInts(w, [c.mode, c.count, c.typ]);
      PutSeqJoin(w.Abs(), [ind], arrays);
      PutValue(w, ind);
      PutSeqNil(w.Abs());
      if arrayBufferBinding == 0 {
        PutVertexAttrib(mem, c.count);
      }
    }

    method DrawElements(thr: dword, mem: Memory, c: Call, bgn: dword, end: dword)
      requires Valid() && w.Abs().MayLock(thr) && c.DrawElements? && Recordable(w.ws, Abs(), c)
      modifies w, w.chunk
      ensures w.Did(old(w.Abs()).Command(thr, glDrawElements, Payload(w.ws, Abs(), mem, c) + [LL(bgn), LL(end)]))
    {
      hide EncAll;
      hide Payload;
      CommandSteps(w.Abs(), thr, glDrawElements, Payload(w.ws, Abs(), mem, c), bgn, end);
      w.PutCmd(thr, glDrawElements);
      DrawBody(mem, c);
      w.PutTime(bgn, end);
    }

    /** The shadow updates of glBindBuffer, glEnable/DisableVertexAttribArray and glVertexAttribPointer. */
    method Note(c: Call)
      requires Valid() && Recordable(w.ws, Abs(), c)
      modifies this, vertexAttrib
      ensures Abs() == After(w.ws, old(Abs()), c)
    {
      if !c.Fixed? { return; }
      ShadowArgs(w.ws, c);
      hide WellFormed;
      hide RecorderLayout;
      if c.op == glBindBuffer {
        var target, buffer := c.args[0].w, c.args[1].w;
        if target == GL_ARRAY_BUFFER {
          arrayBufferBinding := buffer;
        } else if target == GL_ELEMENT_ARRAY_BUFFER {
          elementArrayBufferBinding := buffer;
        }
      } else if c.op == glEnableVertexAttribArray || c.op == glDisableVertexAttribArray {
        var i := c.args[0].w;
        vertexAttrib[i] := vertexAttrib[i].(enabled := c.op == glEnableVertexAttribArray);
      } else if c.op == glVertexAttribPointer {
        var i := c.args[0].w;
        vertexAttrib[i] := vertexAttrib[i].(size := c.args[1].w, typ := c.args[2].w, normalized := c.args[3].w,
                                            stride := c.args[4].w, pointer := c.args[5].d);
      }
    }

    /** Any intercepted call. */
    method Record(e: Issued)
      requires Valid() && w.Abs().MayLock(e.thr) && Recordable(w.ws, Abs(), e.call)
      modifies this, vertexAttrib, w, w.chunk
      ensures Valid() && w.Did(old(w.Abs()).Command(e.thr, OpOf(e.call), Body(w.ws, old(Abs()), e)))
      ensures Abs() == After(w.ws, old(Abs()), e.call)
    {
      hide EncAll;
      match e.call {
        case Fixed(op, args) => Fixed(e.thr, op, args, e.bgn, e.end);
        case IdList(op, ids, n) => IdList(e.thr, op, ids, n, e.bgn, e.end);
        case ShaderSource(shader, parts, count) => ShaderSource(e.thr, shader, parts, count, e.bgn, e.end);
        case ActiveUniform(_, _, _, _, _, _) => ActiveUniform(e.thr, e.call, e.bgn, e.end);
        case EglCreate(op, handles, attribs, result) => EglCreate(e.thr, op, handles, attribs, result, e.bgn, e.end);
        case DrawElements(_, _, _, _) => DrawElements(e.thr, e.mem, e.call, e.bgn, e.end);
      }
      Note(e.call);
    }
  }
}
