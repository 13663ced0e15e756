/** What the recorder writes for each GL or EGL call (tools/gltrace/gles.c, egl.c): the payload can
    depend on the shadow state kept by earlier calls. */
module TraceRecorder {
  import opened Words
  import opened TraceValues
  import opened TraceProtocol
  import opened TraceOpcodes

  const MAX_VERTEX_ATTRIBS: nat := 128
  const GL_ARRAY_BUFFER: word := 0x8892
  const GL_ELEMENT_ARRAY_BUFFER: word := 0x8893
  const EGL_NONE: word := 0x3038

  /** Client memory, read through pointers. */
  type Memory = int -> byte

  function Fetch(mem: Memory, addr: int, n: nat): (s: seq<byte>)
    ensures |s| == n
  {
    seq(n, i => mem(addr + i))
  }

  datatype Attrib = Attrib(enabled: bool, size: word, typ: word, normalized: word, stride: word, pointer: dword)

  datatype Shadow = Shadow(arrayBinding: word, elementBinding: word, attribs: seq<Attrib>) {
    ghost predicate Valid() {
      |attribs| == MAX_VERTEX_ATTRIBS
    }
  }

  /** The state of the static variables at start-up. */
  function InitialShadow(): (sh: Shadow)
    ensures sh.Valid()
  {
    Shadow(0, 0, seq(MAX_VERTEX_ATTRIBS, _ => Attrib(false, 0, 0, 0, 0, 0)))
  }

  /** One source string: the length passed for it (0 when no lengths are given) and the bytes behind its
      pointer, up to a NUL when the length is not positive. */
  datatype Part = Part(len: word, text: Option<seq<byte>>)

  datatype Call =
    | Fixed(op: word, args: seq<Value>)
    | IdList(op: word, ids: seq<word>, n: word)
    | ShaderSource(shader: word, parts: seq<Part>, count: word)
    // program, index, bufsize; then the pointers length, size, type, name and what was stored there
    | ActiveUniform(ids: seq<word>, ptrs: seq<dword>, length: word, size: word, typ: word, name: cstring)
    // display, config, and window or shared context
    | EglCreate(op: word, handles: seq<dword>, attribs: seq<(word, word)>, result: dword)
    | DrawElements(mode: word, count: word, typ: word, indices: dword)

  function OpOf(c: Call): word {
    match c
    case Fixed(op, _) => op
    case IdList(op, _, _) => op
    case ShaderSource(_, _, _) => glShaderSource
    case ActiveUniform(_, _, _, _, _, _) => glGetActiveUniform
    case EglCreate(op, _, _, _) => op
    case DrawElements(_, _, _, _) => glDrawElements
  }

  predicate IsIdListOp(op: word) {
    op in {glDeleteBuffers, glDeleteFramebuffers, glDeleteRenderbuffers, glDeleteTextures,
           glGenBuffers, glGenFramebuffers, glGenRenderbuffers, glGenTextures}
  }

  predicate IsEglCreateOp(op: word) {
    op == eglCreateWindowSurface || op == eglCreateContext
  }

  // ---------------------------------------------------------------------------------------------
  // Vertex data
  // ---------------------------------------------------------------------------------------------

  /** glSizeof; None where the recorder exits. */
  function GlSizeof(typ: word): Option<nat> {
    if typ == 0x1400 || typ == 0x1401 then Some(1)
    else if typ == 0x1402 || typ == 0x1403 then Some(2)
    else if typ == 0x1404 || typ == 0x1405 || typ == 0x1406 then Some(4)
    else None
  }

  /** getVertexCount: four vertices for every six indices. */
  function VertexCount(count: word): nat {
    if Signed(count) > 0 then Signed(count) / 6 * 4 else 0
  }

  /** The bytes of one element of an enabled attribute. */
  function ElementSize(a: Attrib): nat {
    if GlSizeof(a.typ).Some? && Signed(a.size) > 0 then GlSizeof(a.typ).value * Signed(a.size) else 0
  }

  /** The distance between elements in client memory; 0 means tightly packed. */
  function Step(a: Attrib): nat {
    if Signed(a.stride) > 0 then Signed(a.stride) else ElementSize(a)
  }

  /** The first n elements of an attribute, without the gaps. */
  function Packed(mem: Memory, a: Attrib, n: nat): (s: seq<byte>)
    ensures |s| == n * ElementSize(a)
  {
    if n == 0 then []
    else Packed(mem, a, n - 1) + Fetch(mem, a.pointer + (n - 1) * Step(a), ElementSize(a))
  }

  /** glVertexAttribPointer fetches vertex j of an array with this stride from here
      (section 2.8 of the OpenGL ES 2.0 specification). */
  function VertexOffset(stride: int, elementSize: nat, j: nat): int {
    j * (if stride == 0 then elementSize else stride)
  }

  /** Drawing from the packed bytes with stride 0 fetches what drawing from client memory fetched. */
  lemma {:induction false} PackedFetch(mem: Memory, a: Attrib, n: nat, j: nat)
    requires j < n && Signed(a.stride) >= 0
    ensures var from := VertexOffset(0, ElementSize(a), j);
            && 0 <= from <= from + ElementSize(a) <= |Packed(mem, a, n)|
            && Packed(mem, a, n)[from..from + ElementSize(a)]
               == Fetch(mem, a.pointer + VertexOffset(Signed(a.stride), ElementSize(a), j), ElementSize(a))
  {
    var e := ElementSize(a);
    var last := Fetch(mem, a.pointer + (n - 1) * Step(a), e);
    if j == n - 1 {
      assert (Packed(mem, a, n - 1) + last)[j * e..j * e + e] == last;
    } else {
      PackedFetch(mem, a, n - 1, j);
      assert j * e + e <= (n - 1) * e by { assert (j + 1) * e <= (n - 1) * e; }
      assert (Packed(mem, a, n - 1) + last)[j * e..j * e + e] == Packed(mem, a, n - 1)[j * e..j * e + e];
    }
  }

  /** The blobs of putVertexAttrib: the enabled attributes from i on, in ascending order. */
  function Arrays(mem: Memory, attribs: seq<Attrib>, n: nat, i: nat): seq<Value>
    requires i <= |attribs| && forall k | i <= k < |attribs| :: attribs[k].enabled ==> PacksWell(attribs[k], n)
    decreases |attribs| - i
  {
    if i == |attribs| then []
    else if attribs[i].enabled then
      assert PacksWell(attribs[i], n);
      [B(Packed(mem, attribs[i], n))] + Arrays(mem, attribs, n, i + 1)
    else Arrays(mem, attribs, n, i + 1)
  }

  /** The recorder does not exit on the attribute's type, and the sizes fit into an `int`. */
  predicate PacksWell(a: Attrib, n: nat) {
    GlSizeof(a.typ).Some? && n * ElementSize(a) <= MAX_SIZE
  }

  // ---------------------------------------------------------------------------------------------
  // Payloads
  // ---------------------------------------------------------------------------------------------

  function Ints(ws: seq<word>): seq<Value> {
    if ws == [] then [] else [I(ws[0])] + Ints(ws[1..])
  }

  function Ptrs(ds: seq<dword>): seq<Value> {
    if ds == [] then [] else [P(ds[0])] + Ptrs(ds[1..])
  }

  predicate PtrFits(ws: wordsize, d: dword) {
    ws == 4 ==> d < 0x1_0000_0000
  }

  predicate PartOk(p: Part) {
    if Signed(p.len) > 0 then BytesArgs(p.text, Signed(p.len))
    else p.text.Some? ==> 0 !in p.text.value && |p.text.value| < MAX_SIZE
  }

  function PartValue(p: Part): Value
    requires PartOk(p)
  {
    if Signed(p.len) > 0 then BytesValue(p.text, Signed(p.len))
    else if p.text.None? then S(None)
    else S(Some(p.text.value))
  }

  function Parts(ps: seq<Part>): seq<Value>
    requires forall i | 0 <= i < |ps| :: PartOk(ps[i])
  {
    if ps == [] then [] else [I(ps[0].len)] + ([PartValue(ps[0])] + Parts(ps[1..]))
  }

  function Pairs(attribs: seq<(word, word)>): seq<Value> {
    if attribs == [] then [I(EGL_NONE)]
    else [I(attribs[0].0)] + ([I(attribs[0].1)] + Pairs(attribs[1..]))
  }

  function When(cond: bool, v: Value): seq<Value> {
    if cond then [v] else []
  }

  function UniformPayload(c: Call): seq<Value>
    requires c.ActiveUniform? && |c.ptrs| == 4
  {
    Ints(c.ids) + (Ptrs(c.ptrs) + (When(c.ptrs[0] != 0, I(c.length)) + (When(c.ptrs[1] != 0, I(c.size)) +
    (When(c.ptrs[2] != 0, I(c.typ)) + When(c.ptrs[3] != 0, S(Some(c.name)))))))
  }

  function EglPayload(handles: seq<dword>, attribs: seq<(word, word)>, result: dword): seq<Value> {
    Ptrs(handles) + (Pairs(attribs) + [P(result)])
  }

  /** The size glDrawElements passes to putBytes for client-side indices. */
  function IndexSize(count: word, typ: word): int {
    if GlSizeof(typ).Some? then Signed(count) * GlSizeof(typ).value else 0
  }

  function IndexData(mem: Memory, indices: dword, size: int): Option<seq<byte>> {
    if indices == 0 then None else Some(Fetch(mem, indices, if size > 0 then size else 0))
  }

  function IndexValue(sh: Shadow, mem: Memory, c: Call): Value
    requires c.DrawElements? && IndexOk(sh, c)
  {
    var size := IndexSize(c.count, c.typ);
    if sh.elementBinding != 0 then P(c.indices) else BytesValue(IndexData(mem, c.indices, size), size)
  }

  /** The number of list elements behind a C count. */
  function Count(n: word): nat {
    if Signed(n) > 0 then Signed(n) else 0
  }

  /** The calls the model covers: the C arguments are consistent and attribute indices stay inside the tables. */
  ghost predicate WellFormed(ws: wordsize, c: Call) {
    match c
    case Fixed(op, args) =>
      && RecorderLayout(op) == Some(Kinds(args))
      && (op in {glEnableVertexAttribArray, glDisableVertexAttribArray, glVertexAttribPointer} ==>
            args[0].I? && args[0].w < MAX_VERTEX_ATTRIBS)
    case IdList(op, ids, n) => IsIdListOp(op) && |ids| == Count(n)
    case ShaderSource(_, parts, count) =>
      |parts| == Count(count) && forall i | 0 <= i < |parts| :: PartOk(parts[i])
    case ActiveUniform(ids, ptrs, _, _, _, _) =>
      |ids| == 3 && |ptrs| == 4 && forall i | 0 <= i < 4 :: PtrFits(ws, ptrs[i])
    case EglCreate(op, handles, attribs, _) =>
      IsEglCreateOp(op) && |handles| == 3 && forall i | 0 <= i < |attribs| :: attribs[i].0 != EGL_NONE
    case DrawElements(_, _, _, _) => true
  }

  /** The recorder does not exit on the index type, and the size fits into an `int`. */
  predicate IndexOk(sh: Shadow, c: Call)
    requires c.DrawElements?
  {
    sh.elementBinding == 0 ==> GlSizeof(c.typ).Some? && -0x8000_0000 <= IndexSize(c.count, c.typ) <= MAX_SIZE
  }

  predicate ArraysOk(sh: Shadow, c: Call)
    requires c.DrawElements?
  {
    sh.arrayBinding == 0 ==> AllPack(sh.attribs, VertexCount(c.count))
  }

  /** The recorder gets through the call: it does not exit on a type. */
  ghost predicate Recordable(ws: wordsize, sh: Shadow, c: Call) {
    WellFormed(ws, c) && (c.DrawElements? ==> IndexOk(sh, c) && ArraysOk(sh, c))
  }

  predicate AllPack(attribs: seq<Attrib>, n: nat) {
    forall k | 0 <= k < |attribs| :: attribs[k].enabled ==> PacksWell(attribs[k], n)
  }

  /** Everything put between putCmd and putTime. */
  function Payload(ws: wordsize, sh: Shadow, mem: Memory, c: Call): seq<Value>
    requires Recordable(ws, sh, c)
  {
    match c
    case Fixed(_, args) => args
    case IdList(_, ids, n) => [I(n)] + Ints(ids)
    case ShaderSource(shader, parts, count) => Ints([shader, count]) + Parts(parts)
    case ActiveUniform(_, _, _, _, _, _) => UniformPayload(c)
    case EglCreate(_, handles, attribs, result) => EglPayload(handles, attribs, result)
    case DrawElements(mode, count, typ, _) =>
      Ints([mode, count, typ]) + ([IndexValue(sh, mem, c)] +
      (if sh.arrayBinding == 0 then Arrays(mem, sh.attribs, VertexCount(count), 0) else []))
  }

  /** The arguments of the calls that change the shadow. */
  lemma ShadowArgs(ws: wordsize, c: Call)
    requires WellFormed(ws, c) && c.Fixed?
    ensures c.op == glBindBuffer ==> |c.args| == 2 && c.args[0].I? && c.args[1].I?
    ensures c.op in {glEnableVertexAttribArray, glDisableVertexAttribArray} ==>
      |c.args| == 1 && c.args[0].I? && c.args[0].w < MAX_VERTEX_ATTRIBS
    ensures c.op == glVertexAttribPointer ==>
      && |c.args| == 6 && c.args[0].I? && c.args[0].w < MAX_VERTEX_ATTRIBS && c.args[1].I? && c.args[2].I?
      && c.args[3].I? && c.args[4].I? && c.args[5].P?
  {
    var ks := Kinds(c.args);
  }

  /** The recorder's shadow after a call. */
  function After(ws: wordsize, sh: Shadow, c: Call): (sh': Shadow)
    requires sh.Valid() && WellFormed(ws, c)
    ensures sh'.Valid()
  {
    if !c.Fixed? then sh
    else if c.op == glBindBuffer then
      var target, buffer := c.args[0].w, c.args[1].w;
      if target == GL_ARRAY_BUFFER then sh.(arrayBinding := buffer)
      else if target == GL_ELEMENT_ARRAY_BUFFER then sh.(elementBinding := buffer)
      else sh
    else if c.op == glEnableVertexAttribArray || c.op == glDisableVertexAttribArray then
      var i := c.args[0].w;
      sh.(attribs := sh.attribs[i := sh.attribs[i].(enabled := c.op == glEnableVertexAttribArray)])
    else if c.op == glVertexAttribPointer then
      var i := c.args[0].w;
      var a := sh.attribs[i].(size := c.args[1].w, typ := c.args[2].w, normalized := c.args[3].w,
                              stride := c.args[4].w, pointer := c.args[5].d);
      sh.(attribs := sh.attribs[i := a])
    else sh
  }

  // ---------------------------------------------------------------------------------------------
  // Whole recordings
  // ---------------------------------------------------------------------------------------------

  lemma {:induction false} IntsSplit(a: seq<word>, b: seq<word>)
    ensures Ints(a + b) == Ints(a) + Ints(b)
  {
    if a == [] {
      assert a + b == b;
    } else {
      assert (a + b)[1..] == a[1..] + b;
      IntsSplit(a[1..], b);
    }
  }

  /** One intercepted call: who made it, the memory it saw and when it ran. */
  datatype Issued = Issued(thr: dword, mem: Memory, call: Call, bgn: dword, end: dword)

  ghost predicate AllRecordable(ws: wordsize, sh: Shadow, run: seq<Issued>)
    requires sh.Valid()
    decreases |run|
  {
    run == [] || (Recordable(ws, sh, run[0].call) && AllRecordable(ws, After(ws, sh, run[0].call), run[1..]))
  }

  /** The values of one outermost command after its opcode. */
  function Body(ws: wordsize, sh: Shadow, e: Issued): seq<Value>
    requires Recordable(ws, sh, e.call)
  {
    Payload(ws, sh, e.mem, e.call) + [LL(e.bgn), LL(e.end)]
  }

  /** Everything put for a sequence of calls, with the thread announcements. */
  function Recording(ws: wordsize, cur: dword, sh: Shadow, run: seq<Issued>): seq<Value>
    requires sh.Valid() && AllRecordable(ws, sh, run)
    decreases |run|
  {
    if run == [] then []
    else
      Announce(cur, run[0].thr, OpOf(run[0].call)) + (Body(ws, sh, run[0]) +
      Recording(ws, run[0].thr, After(ws, sh, run[0].call), run[1..]))
  }

  function Final(ws: wordsize, sh: Shadow, run: seq<Issued>): Shadow
    requires sh.Valid() && AllRecordable(ws, sh, run)
    decreases |run|
  {
    if run == [] then sh else Final(ws, After(ws, sh, run[0].call), run[1..])
  }

  // ---------------------------------------------------------------------------------------------
  // Recordings in which each call may have seen a shadow state of its own
  // ---------------------------------------------------------------------------------------------

  /** A call and the shadow state its payload was taken from. */
  datatype Taken = Taken(e: Issued, sh: Shadow)

  ghost predicate TakenOk(ws: wordsize, t: Taken) {
    t.sh.Valid() && Recordable(ws, t.sh, t.e.call)
  }

  ghost predicate AllTaken(ws: wordsize, ts: seq<Taken>) {
    forall i | 0 <= i < |ts| :: TakenOk(ws, ts[i])
  }

  /** Everything put for the calls, in the order in which they reach the log. */
  function LogOf(ws: wordsize, cur: dword, ts: seq<Taken>): seq<Value>
    requires AllTaken(ws, ts)
    decreases |ts|
  {
    if ts == [] then []
    else
      assert TakenOk(ws, ts[0]);
      Announce(cur, ts[0].e.thr, OpOf(ts[0].e.call)) + (Body(ws, ts[0].sh, ts[0].e) +
      LogOf(ws, ts[0].e.thr, ts[1..]))
  }

  /** The shadow state that the logged calls make, one after the other. */
  function ShadowAfter(ws: wordsize, sh: Shadow, ts: seq<Taken>): (sh': Shadow)
    requires sh.Valid() && AllTaken(ws, ts)
    ensures sh'.Valid()
    decreases |ts|
  {
    if ts == [] then sh
    else
      assert TakenOk(ws, ts[0]);
      ShadowAfter(ws, After(ws, sh, ts[0].e.call), ts[1..])
  }

  /** A run of calls, each under the shadow state that the calls before it made. */
  function Under(ws: wordsize, sh: Shadow, run: seq<Issued>): (ts: seq<Taken>)
    requires sh.Valid() && AllRecordable(ws, sh, run)
    ensures AllTaken(ws, ts) && |ts| == |run| && forall i | 0 <= i < |ts| :: ts[i].e == run[i]
    decreases |run|
  {
    if run == [] then [] else [Taken(run[0], sh)] + Under(ws, After(ws, sh, run[0].call), run[1..])
  }
}
