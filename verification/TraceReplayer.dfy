/** Reading a recording back (tools/gltrace/retrace.c): the replayer rebuilds the recorder's shadow
    state while it decodes, because later payloads depend on it. */
module TraceReplayer {
  import opened Words
  import opened TraceValues
  import opened TraceProtocol
  import opened TraceOpcodes
  import opened TraceRecorder

  const MAX_EGL_INTS: nat := 64

  datatype Format = Format(size: word, typ: word, normalized: word)

  datatype ReplayAttrib = ReplayAttrib(enabled: bool, format: Format)

  /** `exec` is execFlag: the formats are kept only when the commands are also executed. */
  datatype Replay = Replay(exec: bool, curThread: dword, arrayBinding: word, elementBinding: word,
                           attribs: seq<ReplayAttrib>) {
    ghost predicate Valid() {
      |attribs| == MAX_VERTEX_ATTRIBS
    }
  }

  /** The state of the static variables at start-up. */
  function InitialReplay(exec: bool): (st: Replay)
    ensures st.Valid()
  {
    Replay(exec, 0, 0, 0, seq(MAX_VERTEX_ATTRIBS, _ => ReplayAttrib(false, Format(0, 0, 0))))
  }

  /** An attribute and the format of its array. */
  datatype Target = Target(index: nat, format: Format)

  /** The client array read before a replayed draw; it is handed to glVertexAttribPointer only when the
      commands are executed, and otherwise nobody asks which attribute it belongs to. */
  datatype ArrayData = ArrayData(target: Option<Target>, bytes: blob)

  /** The `indices` pointer: it does not tell an offset of 0 from the NULL of an empty blob. */
  datatype Indices = NoIndices | Offset(offset: dword) | Data(bytes: blob)

  function AtOffset(p: dword): Indices {
    if p == 0 then NoIndices else Offset(p)
  }

  function AtData(b: blob): Indices {
    if b == [] then NoIndices else Data(b)
  }

  /** A decoded command. */
  datatype Event =
    | EFixed(op: word, args: seq<Value>)
    | EIdList(op: word, n: word, ids: seq<word>)
    | EShaderSource(shader: word, count: word, parts: seq<(int, seq<byte>)>)
    | EActiveUniform(ids: seq<word>, ptrs: seq<dword>, length: word, size: word, typ: word, name: Option<cstring>)
    | EEglCreate(op: word, handles: seq<dword>, attribs: seq<(word, word)>, result: dword)
    | EDrawElements(mode: word, count: word, typ: word, indices: Indices, arrays: seq<ArrayData>)

  // ---------------------------------------------------------------------------------------------
  // Decoding one command
  // ---------------------------------------------------------------------------------------------

  function GetInts(n: nat, rest: seq<byte>): (r: Read<seq<word>>)
    ensures r.Read? && |r.rest| <= |rest| && |r.value| == n
  {
    if n == 0 then Read([], rest)
    else
      var w := GetInt(rest);
      var ws := GetInts(n - 1, w.rest);
      Read([w.value] + ws.value, ws.rest)
  }

  function GetPart(rest: seq<byte>): (r: Read<(int, seq<byte>)>)
    ensures r.Read? ==> |r.rest| <= |rest|
  {
    var len := GetInt(rest);
    if Signed(len.value) > 0 then
      var (text, r) :- GetBytes(len.rest);
      Read((Signed(len.value), text), r)
    else
      var (text, r) :- GetString(len.rest);
      Read((-1, text), r)
  }

  function GetParts(n: nat, rest: seq<byte>): (r: Read<seq<(int, seq<byte>)>>)
    ensures r.Read? ==> |r.rest| <= |rest|
  {
    if n == 0 then Read([], rest)
    else
      var (p, r1) :- GetPart(rest);
      var (ps, r2) :- GetParts(n - 1, r1);
      Read([p] + ps, r2)
  }

  /** The attribute loop with its fixed array of MAX_EGL_INTS ints; None where the replayer exits. */
  function GetPairs(i: nat, rest: seq<byte>): (r: Read<Option<seq<(word, word)>>>)
    ensures r.Read? && |r.rest| <= |rest|
    decreases MAX_EGL_INTS - i
  {
    if i >= MAX_EGL_INTS then Read(None, rest)
    else
      var name := GetInt(rest);
      if name.value == EGL_NONE then Read(Some([]), name.rest)
      else
        var val := GetInt(name.rest);
        var more := GetPairs(i + 2, val.rest);
        if more.value.None? then more
        else Read(Some([(name.value, val.value)] + more.value.value), more.rest)
  }

  function TargetOf(st: Replay, i: nat): Option<Target>
    requires i < |st.attribs|
  {
    if st.exec then Some(Target(i, st.attribs[i].format)) else None
  }

  function GetArrays(st: Replay, i: nat, rest: seq<byte>): (r: Read<seq<ArrayData>>)
    requires i <= |st.attribs|
    ensures r.Read? ==> |r.rest| <= |rest|
    decreases |st.attribs| - i
  {
    if i == |st.attribs| then Read([], rest)
    else if !st.attribs[i].enabled then GetArrays(st, i + 1, rest)
    else
      var (bytes, r1) :- GetBytes(rest);
      var (more, r2) :- GetArrays(st, i + 1, r1);
      Read([ArrayData(TargetOf(st, i), bytes)] + more, r2)
  }

  function GetPtrs(ws: wordsize, n: nat, rest: seq<byte>): (r: Read<seq<dword>>)
    ensures r.Read? && |r.rest| <= |rest| && |r.value| == n
  {
    if n == 0 then Read([], rest)
    else
      var d := GetPtr(ws, rest);
      var ds := GetPtrs(ws, n - 1, d.rest);
      Read([d.value] + ds.value, ds.rest)
  }

  /** An int that is present only when its pointer was not NULL. */
  function GetIntWhen(ptr: dword, rest: seq<byte>): Read<word> {
    if ptr != 0 then GetInt(rest) else Read(0, rest)
  }

  function GetStringWhen(ptr: dword, rest: seq<byte>): (r: Read<Option<cstring>>)
    ensures r.Read? ==> |r.rest| <= |rest|
  {
    if ptr != 0 then
      var (name, r) :- GetString(rest);
      Read(Some(name), r)
    else Read(None, rest)
  }

  function GetActiveUniform(ws: wordsize, rest: seq<byte>): (r: Read<Event>)
    ensures r.Read? ==> |r.rest| <= |rest|
  {
    var ids := GetInts(3, rest);
    var ptrs := GetPtrs(ws, 4, ids.rest);
    var length := GetIntWhen(ptrs.value[0], ptrs.rest);
    var size := GetIntWhen(ptrs.value[1], length.rest);
    var typ := GetIntWhen(ptrs.value[2], size.rest);
    var (name, r) :- GetStringWhen(ptrs.value[3], typ.rest);
    Read(EActiveUniform(ids.value, ptrs.value, length.value, size.value, typ.value, name), r)
  }

  function GetEglCreate(ws: wordsize, op: word, rest: seq<byte>): (r: Read<Option<Event>>)
    ensures r.Read? && |r.rest| <= |rest|
  {
    var handles := GetPtrs(ws, 3, rest);
    var attribs := GetPairs(0, handles.rest);
    if attribs.value.None? then Read(None, attribs.rest)
    else
      var result := GetPtr(ws, attribs.rest);
      Read(Some(EEglCreate(op, handles.value, attribs.value.value, result.value)), result.rest)
  }

  function GetDrawElements(ws: wordsize, st: Replay, rest: seq<byte>): (r: Read<Event>)
    ensures r.Read? ==> |r.rest| <= |rest|
  {
    var head := GetInts(3, rest);
    var (indices, r1) :- GetIndices(ws, st, head.rest);
    var (arrays, r2) :- if st.arrayBinding == 0 then GetArrays(st, 0, r1) else Read([], r1);
    Read(EDrawElements(head.value[0], head.value[1], head.value[2], indices, arrays), r2)
  }

  function GetIndices(ws: wordsize, st: Replay, rest: seq<byte>): (r: Read<Indices>)
    ensures r.Read? ==> |r.rest| <= |rest|
  {
    if st.elementBinding != 0 then
      var (p, r) :- GetPtr(ws, rest);
      Read(AtOffset(p), r)
    else
      var (b, r) :- GetBytes(rest);
      Read(AtData(b), r)
  }

  /** The switch of `process`; None where it returns. */
  function GetEvent(ws: wordsize, st: Replay, op: word, rest: seq<byte>): (r: Read<Option<Event>>)
    ensures r.Read? ==> |r.rest| <= |rest|
  {
    if op == glDrawElements then
      var (e, r) :- GetDrawElements(ws, st, rest);
      Read(Some(e), r)
    else if op == glShaderSource then
      var head := GetInts(2, rest);
      var (parts, r) :- GetParts(Count(head.value[1]), head.rest);
      Read(Some(EShaderSource(head.value[0], head.value[1], parts)), r)
    else if op == glGetActiveUniform then
      var (e, r) :- GetActiveUniform(ws, rest);
      Read(Some(e), r)
    else if IsIdListOp(op) then
      var n := GetInt(rest);
      var ids := GetInts(Count(n.value), n.rest);
      Read(Some(EIdList(op, n.value, ids.value)), ids.rest)
    else if IsEglCreateOp(op) then GetEglCreate(ws, op, rest)
    else if ReplayerLayout(op).Some? then
      var (args, r) :- DecAll(ws, ReplayerLayout(op).value, rest);
      Read(Some(EFixed(op, args)), r)
    else Read(None, rest)
  }

  // ---------------------------------------------------------------------------------------------
  // The replay loop
  // ---------------------------------------------------------------------------------------------

  /** The state after a decoded command. */
  function Advance(st: Replay, e: Event): (st': Replay)
    requires st.Valid()
    ensures st'.Valid() && st'.exec == st.exec && st'.curThread == st.curThread
  {
    if !e.EFixed? then st
    else if e.op == glBindBuffer && |e.args| == 2 && e.args[0].I? && e.args[1].I? then
      if e.args[0].w == GL_ARRAY_BUFFER then st.(arrayBinding := e.args[1].w)
      else if e.args[0].w == GL_ELEMENT_ARRAY_BUFFER then st.(elementBinding := e.args[1].w)
      else st
    else if e.op == glEnableVertexAttribArray || e.op == glDisableVertexAttribArray then
      if |e.args| == 1 && e.args[0].I? && e.args[0].w < MAX_VERTEX_ATTRIBS then
        var i := e.args[0].w;
        st.(attribs := st.attribs[i := st.attribs[i].(enabled := e.op == glEnableVertexAttribArray)])
      else st
    else if e.op == glVertexAttribPointer && st.exec then
      if |e.args| == 6 && e.args[0].I? && e.args[1].I? && e.args[2].I? && e.args[3].I?
         && e.args[0].w < MAX_VERTEX_ATTRIBS then
        var i := e.args[0].w;
        var format := Format(e.args[1].w, e.args[2].w, e.args[3].w);
        st.(attribs := st.attribs[i := st.attribs[i].(format := format)])
      else st
    else st
  }

  datatype Replayed = Replayed(thr: dword, event: Event, bgn: dword, end: dword)

  /** The commands replayed, and the state and the unread bytes before the turn that ended the loop. */
  datatype Outcome = Outcome(events: seq<Replayed>, st: Replay, rest: seq<byte>)

  function GetCmd(rest: seq<byte>): (word, seq<byte>) {
    if |rest| < 4 then (OPC_EOF, rest) else (U32(rest), rest[4..])
  }

  /** The opcode, after an optional thread announcement. */
  function GetOpcode(ws: wordsize, st: Replay, rest: seq<byte>): (r: (Replay, word, seq<byte>))
    ensures r.0 == st.(curThread := r.0.curThread)
    ensures r.1 == OPC_EOF || |r.2| < |rest|
  {
    var (cmd, r) := GetCmd(rest);
    if cmd != OPC_THREAD then (st, cmd, r)
    else
      var thr := GetPtr(ws, r);
      var (cmd', r') := GetCmd(thr.rest);
      (st.(curThread := thr.value), cmd', r')
  }

  predicate IsSwap(e: Event) {
    e.EFixed? && e.op == eglSwapBuffers
  }

  lemma EofStops(ws: wordsize, st: Replay, rest: seq<byte>)
    ensures GetEvent(ws, st, OPC_EOF, rest) == Read(None, rest)
  {
  }

  /** One turn of the replay loop; None where `process` returns. */
  function Turn(ws: wordsize, st: Replay, rest: seq<byte>): (r: Option<(Replayed, Replay, seq<byte>)>)
    requires st.Valid()
    ensures r.Some? ==> |r.value.2| < |rest| && r.value.1.Valid()
  {
    var (st1, op, r1) := GetOpcode(ws, st, rest);
    var got := GetEvent(ws, st1, op, r1);
    if got.Overrun? || got.value.None? then None
    else
      EofStops(ws, st1, r1);
      hide GetEvent;
      var e := got.value.value;
      var bgn := GetLongLong(got.rest);
      var end := GetLongLong(bgn.rest);
      Some((Replayed(st1.curThread, e, bgn.value, end.value), Advance(st1, e), end.rest))
  }

  /** `process(frames)`: a negative count replays everything. */
  function Process(ws: wordsize, st: Replay, frames: int, rest: seq<byte>): Outcome
    requires st.Valid()
    decreases |rest|
  {
    if frames == 0 then Outcome([], st, rest)
    else
      var turn := Turn(ws, st, rest);
      if turn.None? then Outcome([], st, rest)
      else
        var (e, st1, r) := turn.value;
        var more := Process(ws, st1, if IsSwap(e.event) then frames - 1 else frames, r);
        Outcome([e] + more.events, more.st, more.rest)
  }

  lemma {:induction false} ProcessSteps(ws: wordsize, st: Replay, frames: int, rest: seq<byte>)
    requires st.Valid()
    ensures var turn := Turn(ws, st, rest);
            Process(ws, st, frames, rest) ==
              if frames == 0 || turn.None? then Outcome([], st, rest)
              else
                var (e, st1, r) := turn.value;
                var more := Process(ws, st1, if IsSwap(e.event) then frames - 1 else frames, r);
                Outcome([e] + more.events, more.st, more.rest)
  {
    hide Turn;
  }

  // ---------------------------------------------------------------------------------------------
  // What the replay of a recording must be
  // ---------------------------------------------------------------------------------------------

  function SeenPart(p: Part): (int, seq<byte>)
    requires PartOk(p)
  {
    if Signed(p.len) > 0 then (Signed(p.len), if p.text.None? then [] else p.text.value[..Signed(p.len)])
    else (-1, if p.text.None? then [] else p.text.value)
  }

  function SeenParts(ps: seq<Part>): seq<(int, seq<byte>)>
    requires forall i | 0 <= i < |ps| :: PartOk(ps[i])
  {
    if ps == [] then [] else [SeenPart(ps[0])] + SeenParts(ps[1..])
  }

  function SeenPtrs(ws: wordsize, ds: seq<dword>): (r: seq<dword>)
    ensures |r| == |ds|
  {
    if ds == [] then [] else [SeenPtr(ws, ds[0])] + SeenPtrs(ws, ds[1..])
  }

  function TargetFor(exec: bool, attribs: seq<Attrib>, i: nat): Option<Target>
    requires i < |attribs|
  {
    if exec then Some(Target(i, Format(attribs[i].size, attribs[i].typ, attribs[i].normalized))) else None
  }

  /** The client arrays of a draw: every enabled attribute with its format and its packed vertices. */
  function SeenArrays(exec: bool, mem: Memory, attribs: seq<Attrib>, n: nat, i: nat): seq<ArrayData>
    requires i <= |attribs| && AllPack(attribs, n)
    decreases |attribs| - i
  {
    if i == |attribs| then []
    else if attribs[i].enabled then
      assert PacksWell(attribs[i], n);
      [ArrayData(TargetFor(exec, attribs, i), Packed(mem, attribs[i], n))]
      + SeenArrays(exec, mem, attribs, n, i + 1)
    else SeenArrays(exec, mem, attribs, n, i + 1)
  }

  /** The values behind NULL pointers are not recorded. */
  function SeenUniform(ws: wordsize, c: Call): Event
    requires c.ActiveUniform? && |c.ptrs| == 4
  {
    EActiveUniform(c.ids, SeenPtrs(ws, c.ptrs), if c.ptrs[0] != 0 then c.length else 0,
                   if c.ptrs[1] != 0 then c.size else 0, if c.ptrs[2] != 0 then c.typ else 0,
                   if c.ptrs[3] != 0 then Some(c.name) else None)
  }

  /** The command a faithful replay decodes for a call. */
  function EventOf(ws: wordsize, exec: bool, sh: Shadow, mem: Memory, c: Call): Event
    requires Recordable(ws, sh, c)
  {
    match c
    case Fixed(op, args) => EFixed(op, SeenAll(ws, args))
    case IdList(op, ids, n) => EIdList(op, n, ids)
    case ShaderSource(shader, parts, count) => EShaderSource(shader, count, SeenParts(parts))
    case ActiveUniform(_, _, _, _, _, _) => SeenUniform(ws, c)
    case EglCreate(op, handles, attribs, result) =>
      EEglCreate(op, SeenPtrs(ws, handles), attribs, SeenPtr(ws, result))
    case DrawElements(mode, count, typ, indices) =>
      var size := IndexSize(count, typ);
      var ind := if sh.elementBinding != 0 then AtOffset(SeenPtr(ws, indices))
                 else AtData(if indices == 0 || size <= 0 then [] else Fetch(mem, indices, size));
      var arrays := if sh.arrayBinding == 0 then SeenArrays(exec, mem, sh.attribs, VertexCount(count), 0) else [];
      EDrawElements(mode, count, typ, ind, arrays)
  }

  /** The calls the replayer gets past: it implements them, and their attribute list fits its array. */
  predicate Replayable(c: Call) {
    match c
    case Fixed(op, _) => !RecordedOnly(op)
    case EglCreate(_, _, attribs, _) => 2 * |attribs| < MAX_EGL_INTS
    case _ => true
  }

  /** No float pointer of the call is out of step. */
  predicate Steady(c: Call) {
    c.Fixed? ==> AllInStep(c.args)
  }

  // ---------------------------------------------------------------------------------------------
  // Agreement of the two sides
  // ---------------------------------------------------------------------------------------------

  /** The client arrays of a draw without their contents: when executing, which attributes and in which format;
      otherwise just how many. */
  type Shape = seq<Option<Target>>

  function EnabledShape(exec: bool, attribs: seq<Attrib>, i: nat): Shape
    requires i <= |attribs|
    decreases |attribs| - i
  {
    if i == |attribs| then []
    else if attribs[i].enabled then [TargetFor(exec, attribs, i)] + EnabledShape(exec, attribs, i + 1)
    else EnabledShape(exec, attribs, i + 1)
  }

  function ReplayShape(st: Replay, i: nat): Shape
    requires i <= |st.attribs|
    decreases |st.attribs| - i
  {
    if i == |st.attribs| then []
    else if st.attribs[i].enabled then [TargetOf(st, i)] + ReplayShape(st, i + 1)
    else ReplayShape(st, i + 1)
  }

  /** The arrays a draw writes. */
  function WritesShape(exec: bool, sh: Shadow): Shape {
    if sh.arrayBinding == 0 then EnabledShape(exec, sh.attribs, 0) else []
  }

  /** The arrays a replayed draw reads. */
  function ReadsShape(st: Replay): Shape {
    if st.arrayBinding == 0 then ReplayShape(st, 0) else []
  }

  /** The first word written for the indices is zero: a NULL pointer or no bytes at all. */
  predicate ZeroIndices(ws: wordsize, sh: Shadow, c: Call)
    requires c.DrawElements?
  {
    if sh.elementBinding != 0 then SeenPtr(ws, c.indices) == 0
    else c.indices == 0 || IndexSize(c.count, c.typ) == 0
  }

  /** Whether the indices are read back by a side that has an element buffer bound or not.  With 4-byte pointers a
      zero word is the same NULL to getPtr and to getBytes. */
  predicate IndicesAlike(ws: wordsize, sh: Shadow, bound: bool, c: Call)
    requires c.DrawElements?
  {
    (sh.elementBinding != 0 <==> bound) || (ws == 4 && ZeroIndices(ws, sh, c))
  }

  /** The replayer, in its state, draws what the recorder wrote in its own. */
  predicate DrawsAlike(ws: wordsize, sh: Shadow, st: Replay, c: Call)
    requires c.DrawElements?
  {
    IndicesAlike(ws, sh, st.elementBinding != 0, c) && WritesShape(st.exec, sh) == ReadsShape(st)
  }

  /** The same for a replayer in lockstep with another state of the recorder. */
  predicate SameDraws(ws: wordsize, exec: bool, sh: Shadow, sh': Shadow, c: Call)
    requires c.DrawElements?
  {
    IndicesAlike(ws, sh, sh'.elementBinding != 0, c) && WritesShape(exec, sh) == WritesShape(exec, sh')
  }

  /** The two shadow states agree on everything that later payloads depend on. */
  ghost predicate Lockstep(sh: Shadow, st: Replay) {
    && sh.Valid() && st.Valid()
    && st.arrayBinding == sh.arrayBinding && st.elementBinding == sh.elementBinding
    && forall i | 0 <= i < MAX_VERTEX_ATTRIBS :: SameAttrib(st.exec, sh.attribs[i], st.attribs[i])
  }

  ghost predicate SameAttrib(exec: bool, a: Attrib, b: ReplayAttrib) {
    b.enabled == a.enabled && (exec ==> b.format == Format(a.size, a.typ, a.normalized))
  }

  /** The replay of a recorded run: up to the frame limit and to the first call that stops it. */
  function Expected(ws: wordsize, exec: bool, sh: Shadow, run: seq<Issued>, frames: int): seq<Replayed>
    requires sh.Valid() && AllRecordable(ws, sh, run)
  {
    Issues(ws, exec, Under(ws, sh, run), frames)
  }

  /** The calls as they were made, up to the frame limit and to the first call that stops the replay. */
  function Issues(ws: wordsize, exec: bool, ts: seq<Taken>, frames: int): seq<Replayed>
    requires AllTaken(ws, ts)
    decreases |ts|
  {
    if frames == 0 || ts == [] || !Replayable(ts[0].e.call) then []
    else
      assert TakenOk(ws, ts[0]);
      var e, ev := ts[0].e, EventOf(ws, exec, ts[0].sh, ts[0].e.mem, ts[0].e.call);
      [Replayed(SeenPtr(ws, e.thr), ev, e.bgn, e.end)]
      + Issues(ws, exec, ts[1..], if IsSwap(ev) then frames - 1 else frames)
  }

  /** A replayed command and the bytes unread behind it. */
  datatype Reading = Reading(event: Replayed, rest: seq<byte>)

  /** The commands as `process` reads them. */
  function Readings(ws: wordsize, st: Replay, frames: int, rest: seq<byte>): seq<Reading>
    requires st.Valid()
    decreases |rest|
  {
    if frames == 0 then []
    else
      var turn := Turn(ws, st, rest);
      if turn.None? then []
      else
        var (e, st1, r) := turn.value;
        [Reading(e, r)] + Readings(ws, st1, if IsSwap(e.event) then frames - 1 else frames, r)
  }

  lemma {:induction false} ReadingsSteps(ws: wordsize, st: Replay, frames: int, rest: seq<byte>)
    requires st.Valid()
    ensures var turn := Turn(ws, st, rest);
            Readings(ws, st, frames, rest) ==
              if frames == 0 || turn.None? then []
              else
                var (e, st1, r) := turn.value;
                [Reading(e, r)] + Readings(ws, st1, if IsSwap(e.event) then frames - 1 else frames, r)
  {
    hide Turn;
  }

  /** The commands as they were made, each in front of the log of those that follow. */
  function Makings(ws: wordsize, exec: bool, ts: seq<Taken>, frames: int): seq<Reading>
    requires AllTaken(ws, ts)
    decreases |ts|
  {
    if frames == 0 || ts == [] || !Replayable(ts[0].e.call) then []
    else
      assert TakenOk(ws, ts[0]);
      var e, ev := ts[0].e, EventOf(ws, exec, ts[0].sh, ts[0].e.mem, ts[0].e.call);
      [Reading(Replayed(SeenPtr(ws, e.thr), ev, e.bgn, e.end), EncAll(ws, LogOf(ws, e.thr, ts[1..])))]
      + Makings(ws, exec, ts[1..], if IsSwap(ev) then frames - 1 else frames)
  }

  /** Up to where the replay gets, every draw was taken from a shadow state that draws like the one the
      logged calls before it make. */
  ghost predicate AllAlike(ws: wordsize, exec: bool, sh: Shadow, ts: seq<Taken>, frames: int)
    requires sh.Valid() && AllTaken(ws, ts)
    decreases |ts|
  {
    if frames == 0 || ts == [] || !Replayable(ts[0].e.call) then true
    else
      assert TakenOk(ws, ts[0]);
      var ev := EventOf(ws, exec, ts[0].sh, ts[0].e.mem, ts[0].e.call);
      && (ts[0].e.call.DrawElements? ==> SameDraws(ws, exec, ts[0].sh, sh, ts[0].e.call))
      && AllAlike(ws, exec, After(ws, sh, ts[0].e.call), ts[1..], if IsSwap(ev) then frames - 1 else frames)
  }
}
