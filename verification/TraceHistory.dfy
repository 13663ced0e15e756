/** What the recorder's shadow state and the draws are in terms of the arguments of the calls: the last binding, the last
    switch and the last pointer of each attribute, and the client memory behind them. */
module TraceHistory {
  import opened Words
  import opened TraceValues
  import opened TraceOpcodes
  import opened TraceRecorder
  import opened TraceReplayer

  // ---------------------------------------------------------------------------------------------
  // The shadow state
  // ---------------------------------------------------------------------------------------------

  /** The buffer of the last glBindBuffer for this target; none is bound at first. */
  function LastBound(run: seq<Issued>, target: word): word {
    if run == [] then 0
    else
      var c := Last(run).call;
      if c.Fixed? && c.op == glBindBuffer && |c.args| == 2 && c.args[0] == I(target) && c.args[1].I?
      then c.args[1].w
      else LastBound(Front(run), target)
  }

  /** Was the attribute enabled last, or disabled?  It is disabled at first. */
  function SwitchedOn(run: seq<Issued>, i: word): bool {
    if run == [] then false
    else
      var c := Last(run).call;
      if c == Fixed(glEnableVertexAttribArray, [I(i)]) then true
      else if c == Fixed(glDisableVertexAttribArray, [I(i)]) then false
      else SwitchedOn(Front(run), i)
  }

  /** The arguments of glVertexAttribPointer behind the attribute. */
  datatype Pointer = Pointer(size: word, typ: word, normalized: word, stride: word, ptr: dword)

  function Args(i: word, p: Pointer): seq<Value> {
    [I(i), I(p.size), I(p.typ), I(p.normalized), I(p.stride), P(p.ptr)]
  }

  /** The last glVertexAttribPointer for the attribute had these arguments. */
  ghost predicate LastPointed(run: seq<Issued>, i: word, p: Pointer) {
    && run != []
    && (Last(run).call == Fixed(glVertexAttribPointer, Args(i, p))
        || (LastPointed(Front(run), i, p) && !Points(Last(run).call, i)))
  }

  predicate Points(c: Call, i: word) {
    c.Fixed? && c.op == glVertexAttribPointer && |c.args| > 0 && c.args[0] == I(i)
  }

  lemma {:induction false} FinalSnoc(ws: wordsize, sh: Shadow, run: seq<Issued>)
    requires sh.Valid() && AllRecordable(ws, sh, run) && run != []
    ensures AllRecordable(ws, sh, Front(run)) && Final(ws, sh, Front(run)).Valid()
    ensures WellFormed(ws, Last(run).call)
    ensures Final(ws, sh, run) == After(ws, Final(ws, sh, Front(run)), Last(run).call)
    decreases |run|
  {
    hide WellFormed;
    hide After;
    hide IndexOk;
    hide ArraysOk;
    if |run| == 1 {
      assert Front(run) == [] && run[1..] == [];
    } else {
      FinalSnoc(ws, After(ws, sh, run[0].call), run[1..]);
      assert Front(run)[1..] == Front(run[1..]) && Front(run)[0] == run[0] && Last(run[1..]) == Last(run);
    }
  }

  /** The shadow state after any run is the history of its arguments. */
  lemma {:induction false} BindingsAreLast(ws: wordsize, run: seq<Issued>)
    requires AllRecordable(ws, InitialShadow(), run)
    ensures var sh := Final(ws, InitialShadow(), run);
      sh.arrayBinding == LastBound(run, GL_ARRAY_BUFFER) && sh.elementBinding == LastBound(run, GL_ELEMENT_ARRAY_BUFFER)
    decreases |run|
  {
    if run != [] {
      FinalSnoc(ws, InitialShadow(), run);
      BindingsAreLast(ws, Front(run));
      var c := Last(run).call;
      if c.Fixed? {
        ShadowArgs(ws, c);
      }
      hide WellFormed;
      hide Final;
    }
  }

  lemma {:induction false} SwitchesAreLast(ws: wordsize, run: seq<Issued>, i: nat)
    requires AllRecordable(ws, InitialShadow(), run) && i < MAX_VERTEX_ATTRIBS
    ensures Final(ws, InitialShadow(), run).Valid()
    ensures Final(ws, InitialShadow(), run).attribs[i].enabled == SwitchedOn(run, i)
    decreases |run|
  {
    if run != [] {
      FinalSnoc(ws, InitialShadow(), run);
      SwitchesAreLast(ws, Front(run), i);
      var c := Last(run).call;
      if c.Fixed? {
        ShadowArgs(ws, c);
      }
      hide WellFormed;
      hide Final;
    }
  }

  lemma {:induction false} PointersAreLast(ws: wordsize, run: seq<Issued>, i: nat, p: Pointer)
    requires AllRecordable(ws, InitialShadow(), run) && i < MAX_VERTEX_ATTRIBS && LastPointed(run, i, p)
    ensures Final(ws, InitialShadow(), run).Valid()
    ensures var a := Final(ws, InitialShadow(), run).attribs[i];
      a.size == p.size && a.typ == p.typ && a.normalized == p.normalized && a.stride == p.stride && a.pointer == p.ptr
    decreases |run|
  {
    FinalSnoc(ws, InitialShadow(), run);
    var c := Last(run).call;
    if c.Fixed? {
      ShadowArgs(ws, c);
    }
    hide WellFormed;
    hide Final;
    if c != Fixed(glVertexAttribPointer, Args(i, p)) {
      PointersAreLast(ws, Front(run), i, p);
    }
  }

  // ---------------------------------------------------------------------------------------------
  // The vertices of a draw
  // ---------------------------------------------------------------------------------------------

  const GL_BYTE: word := 0x1400
  const GL_UNSIGNED_BYTE: word := 0x1401
  const GL_SHORT: word := 0x1402
  const GL_UNSIGNED_SHORT: word := 0x1403
  const GL_INT: word := 0x1404
  const GL_UNSIGNED_INT: word := 0x1405
  const GL_FLOAT: word := 0x1406

  /** The C types behind the GL types. */
  predicate HasWidth(typ: word, bytes: nat) {
    || (typ in {GL_BYTE, GL_UNSIGNED_BYTE} && bytes == 1)
    || (typ in {GL_SHORT, GL_UNSIGNED_SHORT} && bytes == 2)
    || (typ in {GL_INT, GL_UNSIGNED_INT, GL_FLOAT} && bytes == 4)
  }

  /** How many attributes below i are enabled: where the blob of attribute i is. */
  function Rank(attribs: seq<Attrib>, i: nat): nat
    requires i <= |attribs|
  {
    if i == 0 then 0 else Rank(attribs, i - 1) + (if attribs[i - 1].enabled then 1 else 0)
  }

  lemma {:induction false} ArrayAtRank(exec: bool, mem: Memory, attribs: seq<Attrib>, n: nat, k: nat, i: nat)
    requires k <= i < |attribs| && AllPack(attribs, n) && attribs[i].enabled
    ensures Rank(attribs, k) <= Rank(attribs, i) && PacksWell(attribs[i], n)
    ensures var r, arrays := Rank(attribs, i) - Rank(attribs, k), SeenArrays(exec, mem, attribs, n, k);
      r < |arrays| && arrays[r] == ArrayData(TargetFor(exec, attribs, i), Packed(mem, attribs[i], n))
    decreases i - k
  {
    hide Packed;
    hide TargetFor;
    assert PacksWell(attribs[i], n);
    if k < i {
      ArrayAtRank(exec, mem, attribs, n, k + 1, i);
    }
  }

  /** A client-side draw carries, for every attribute switched on and every vertex below the packed count, the bytes
      that the last glVertexAttribPointer and the memory define (section 2.8 of the OpenGL ES 2.0 specification). */
  lemma {:induction false} DrawFetches(ws: wordsize, exec: bool, run: seq<Issued>, mem: Memory, c: Call, i: nat,
                                       p: Pointer, width: nat, j: nat)
    requires AllRecordable(ws, InitialShadow(), run) && c.DrawElements?
    requires Recordable(ws, Final(ws, InitialShadow(), run), c)
    requires LastBound(run, GL_ARRAY_BUFFER) == 0 && i < MAX_VERTEX_ATTRIBS && SwitchedOn(run, i)
    requires LastPointed(run, i, p) && HasWidth(p.typ, width) && Signed(p.size) >= 0 && Signed(p.stride) >= 0
    requires j < VertexCount(c.count)
    ensures Final(ws, InitialShadow(), run).Valid()
    ensures var sh, e := Final(ws, InitialShadow(), run), width * Signed(p.size);
      var arrays, r := EventOf(ws, exec, sh, mem, c).arrays, Rank(sh.attribs, i);
      && r < |arrays| && 0 <= j * e <= j * e + e <= |arrays[r].bytes|
      && arrays[r].bytes[j * e..j * e + e] == Fetch(mem, p.ptr + VertexOffset(Signed(p.stride), e, j), e)
      && (exec ==> arrays[r].target == Some(Target(i, Format(p.size, p.typ, p.normalized))))
  {
    var sh, n := Final(ws, InitialShadow(), run), VertexCount(c.count);
    BindingsAreLast(ws, run);
    SwitchesAreLast(ws, run, i);
    PointersAreLast(ws, run, i, p);
    var a := sh.attribs[i];
    ArrayAtRank(exec, mem, sh.attribs, n, 0, i);
    assert ElementSize(a) == width * Signed(p.size);
    PackedFetch(mem, a, n, j);
    hide Final;
    hide Packed;
    hide SeenArrays;
    hide LastPointed;
    hide SwitchedOn;
    hide LastBound;
    hide Rank;
  }

  lemma FetchSlice(mem: Memory, addr: int, n: nat, from: nat, m: nat)
    requires from + m <= n
    ensures Fetch(mem, addr, n)[from..from + m] == Fetch(mem, addr + from, m)
  {
  }

  /** The draw carries the client-side indices one after the other. */
  lemma {:induction false} DrawIndices(ws: wordsize, exec: bool, run: seq<Issued>, mem: Memory, c: Call, width: nat, k: nat)
    requires AllRecordable(ws, InitialShadow(), run) && c.DrawElements?
    requires Recordable(ws, Final(ws, InitialShadow(), run), c)
    requires LastBound(run, GL_ELEMENT_ARRAY_BUFFER) == 0 && HasWidth(c.typ, width) && c.indices != 0
    requires k < Signed(c.count)
    ensures var ind := EventOf(ws, exec, Final(ws, InitialShadow(), run), mem, c).indices;
      && ind.Data? && |ind.bytes| == Signed(c.count) * width && 0 <= k * width <= k * width + width <= |ind.bytes|
      && ind.bytes[k * width..k * width + width] == Fetch(mem, c.indices + k * width, width)
  {
    BindingsAreLast(ws, run);
    MulStep(k, Signed(c.count), width);
    FetchSlice(mem, c.indices, Signed(c.count) * width, k * width, width);
    hide Final;
    hide LastBound;
    hide SeenArrays;
    hide Fetch;
  }

  /** The packed count covers every index of a draw of quads, and not one vertex more than the last quad needs. */
  lemma {:induction false} QuadsAreCovered(count: word, indices: seq<nat>, k: nat)
    requires |indices| == Signed(count) && |indices| % 6 == 0 && k < |indices|
    requires forall n | 0 <= n < |indices| :: InQuad(indices[n], n)
    ensures indices[k] < VertexCount(count)
    ensures k / 6 == |indices| / 6 - 1 && indices[k] == 4 * (k / 6) + 3 ==> indices[k] + 1 == VertexCount(count)
  {
    assert InQuad(indices[k], k);
    assert k / 6 <= |indices| / 6 - 1;
  }

  /** Six indices for the four vertices of each quad. */
  predicate InQuad(index: nat, k: nat) {
    4 * (k / 6) <= index <= 4 * (k / 6) + 3
  }

  /** An EGL attribute list stops the replayer exactly when it has 32 pairs or more. */
  lemma EglListLimit(c: Call)
    requires c.EglCreate?
    ensures Replayable(c) <==> |c.attribs| < 32
  {
  }

  // ---------------------------------------------------------------------------------------------
  // What a replayed call tells
  // ---------------------------------------------------------------------------------------------

  /** Values that look the same to the reader: no NULL string and no negative size. */
  predicate Plain(v: Value) {
    !(v.S? && v.str.None?) && !v.BNeg?
  }

  lemma {:induction false} PlainIsSeen(ws: wordsize, vs: seq<Value>)
    requires ws == 8 && forall i | 0 <= i < |vs| :: Plain(vs[i])
    ensures SeenAll(ws, vs) == vs
  {
    if vs != [] {
      assert Plain(vs[0]);
      PlainIsSeen(ws, vs[1..]);
      assert vs == [vs[0]] + vs[1..];
    }
  }

  lemma {:induction false} WideIsSeen(ws: wordsize, ds: seq<dword>)
    requires ws == 8
    ensures SeenPtrs(ws, ds) == ds
  {
    if ds != [] {
      WideIsSeen(ws, ds[1..]);
      assert ds == [ds[0]] + ds[1..];
    }
  }

  /** What becomes of one source string. */
  predicate PartTold(seen: (int, seq<byte>), p: Part) {
    match p.text
    case None => seen.1 == []
    case Some(text) =>
      if Signed(p.len) > 0 then |text| >= Signed(p.len) && seen == (Signed(p.len), text[..Signed(p.len)])
      else seen == (-1, text)
  }

  lemma {:induction false} PartsAreTold(ps: seq<Part>)
    requires forall i | 0 <= i < |ps| :: PartOk(ps[i])
    ensures |SeenParts(ps)| == |ps| && forall i | 0 <= i < |ps| :: PartTold(SeenParts(ps)[i], ps[i])
  {
    if ps != [] {
      PartsAreTold(ps[1..]);
    }
  }

  /** The replayed call holds the arguments and results of the call that was made. */
  ghost predicate Told(e: Event, c: Call) {
    match c
    case Fixed(op, args) => e == EFixed(op, args)
    case IdList(op, ids, n) => e == EIdList(op, n, ids)
    case ShaderSource(shader, parts, count) =>
      && e.EShaderSource? && e.shader == shader && e.count == count && |e.parts| == |parts|
      && forall i | 0 <= i < |parts| :: PartTold(e.parts[i], parts[i])
    case ActiveUniform(ids, ptrs, length, size, typ, name) =>
      && e.EActiveUniform? && e.ids == ids && e.ptrs == ptrs && |ptrs| == 4
      && (ptrs[0] != 0 ==> e.length == length) && (ptrs[1] != 0 ==> e.size == size)
      && (ptrs[2] != 0 ==> e.typ == typ) && (ptrs[3] != 0 ==> e.name == Some(name))
    case EglCreate(op, handles, attribs, result) => e == EEglCreate(op, handles, attribs, result)
    case DrawElements(mode, count, typ, _) => e.EDrawElements? && e.mode == mode && e.count == count && e.typ == typ
  }

  lemma {:induction false} EventTellsCall(ws: wordsize, exec: bool, sh: Shadow, mem: Memory, c: Call)
    requires ws == 8 && Recordable(ws, sh, c) && (c.Fixed? ==> forall i | 0 <= i < |c.args| :: Plain(c.args[i]))
    ensures Told(EventOf(ws, exec, sh, mem, c), c)
  {
    match c
    case Fixed(_, args) => PlainIsSeen(ws, args);
    case ShaderSource(_, parts, _) => PartsAreTold(parts);
    case ActiveUniform(_, ptrs, _, _, _, _) => WideIsSeen(ws, ptrs);
    case EglCreate(_, handles, _, _) => WideIsSeen(ws, handles);
    case _ =>
  }

  /** Without limit every replayable call is issued, with its thread and its times. */
  lemma {:induction false} IssuesAt(ws: wordsize, exec: bool, ts: seq<Taken>, frames: int, i: nat)
    requires AllTaken(ws, ts) && frames < 0 && i < |ts| && forall k | 0 <= k < |ts| :: Replayable(ts[k].e.call)
    ensures TakenOk(ws, ts[i]) && |Issues(ws, exec, ts, frames)| == |ts|
    ensures var issue, e := Issues(ws, exec, ts, frames)[i], ts[i].e;
      && issue.thr == SeenPtr(ws, e.thr) && issue.bgn == e.bgn && issue.end == e.end
      && issue.event == EventOf(ws, exec, ts[i].sh, e.mem, e.call)
    decreases |ts|
  {
    hide Issues;
    hide EventOf;
    hide Replayable;
    assert TakenOk(ws, ts[0]) && TakenOk(ws, ts[i]);
    hide TakenOk;
    IssuesStep(ws, exec, ts, frames);
    var frames' := if IsSwap(EventOf(ws, exec, ts[0].sh, ts[0].e.mem, ts[0].e.call)) then frames - 1 else frames;
    if i > 0 {
      IssuesAt(ws, exec, ts[1..], frames', i - 1);
    } else if |ts| > 1 {
      IssuesAt(ws, exec, ts[1..], frames', 0);
    } else {
      IssuesEnd(ws, exec, frames');
      assert ts[1..] == [];
    }
  }

  lemma IssuesEnd(ws: wordsize, exec: bool, frames: int)
    ensures Issues(ws, exec, [], frames) == []
  {
  }

  lemma {:induction false} IssuesStep(ws: wordsize, exec: bool, ts: seq<Taken>, frames: int)
    requires AllTaken(ws, ts) && frames != 0 && ts != [] && Replayable(ts[0].e.call)
    ensures TakenOk(ws, ts[0])
    ensures var e := ts[0].e;
      var ev := EventOf(ws, exec, ts[0].sh, e.mem, e.call);
      Issues(ws, exec, ts, frames)
      == [Replayed(SeenPtr(ws, e.thr), ev, e.bgn, e.end)]
         + Issues(ws, exec, ts[1..], if IsSwap(ev) then frames - 1 else frames)
  {
    assert TakenOk(ws, ts[0]);
    hide EventOf;
  }
}
