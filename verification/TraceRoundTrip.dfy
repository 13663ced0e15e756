/** Replaying inverts recording: for every sequence of calls the replayer decodes exactly the calls
    that were recorded, because the two shadow states stay in lockstep. */
module TraceRoundTrip {
  import opened Words
  import opened TraceValues
  import opened TraceProtocol
  import opened TraceOpcodes
  import opened TraceRecorder
  import opened TraceReplayer
  import opened TracePayloads
  import opened TraceDraws

  // ---------------------------------------------------------------------------------------------
  // One command
  // ---------------------------------------------------------------------------------------------

  lemma {:induction false} UniformReadsBack(ws: wordsize, c: Call, rest: seq<byte>)
    requires c.ActiveUniform? && |c.ids| == 3 && |c.ptrs| == 4 && forall i | 0 <= i < 4 :: PtrFits(ws, c.ptrs[i])
    ensures GetActiveUniform(ws, EncAll(ws, UniformPayload(c)) + rest) == Read(SeenUniform(ws, c), rest)
  {
    hide EncAll;
    hide GetString;
    var p := c.ptrs;
    var vname := When(p[3] != 0, S(Some(c.name)));
    var vtyp := When(p[2] != 0, I(c.typ)) + vname;
    var vsize := When(p[1] != 0, I(c.size)) + vtyp;
    var vlength := When(p[0] != 0, I(c.length)) + vsize;
    IntsReadBack(ws, c.ids, Ptrs(p) + vlength, rest);
    PtrsReadBack(ws, p, vlength, rest);
    SeenPtrsAt(ws, p);
    IntWhenReadsBack(ws, p[0], c.length, vsize, rest);
    IntWhenReadsBack(ws, p[1], c.size, vtyp, rest);
    IntWhenReadsBack(ws, p[2], c.typ, vname, rest);
    StringWhenReadsBack(ws, p[3], c.name, rest);
  }

  lemma {:induction false} SeenPtrsAt(ws: wordsize, ds: seq<dword>)
    ensures forall i | 0 <= i < |ds| :: SeenPtrs(ws, ds)[i] == SeenPtr(ws, ds[i])
  {
    if ds != [] {
      SeenPtrsAt(ws, ds[1..]);
    }
  }

  lemma {:induction false} EglCreateReadsBack(ws: wordsize, op: word, handles: seq<dword>,
                                              attribs: seq<(word, word)>, result: dword, rest: seq<byte>)
    requires |handles| == 3 && forall i | 0 <= i < |attribs| :: attribs[i].0 != EGL_NONE
    ensures var r := GetEglCreate(ws, op, EncAll(ws, EglPayload(handles, attribs, result)) + rest);
            if 2 * |attribs| < MAX_EGL_INTS
            then r == Read(Some(EEglCreate(op, SeenPtrs(ws, handles), attribs, SeenPtr(ws, result))), rest)
            else r.value.None?
  {
    PtrsReadBack(ws, handles, Pairs(attribs) + [P(result)], rest);
    PairsReadBack(ws, 0, attribs, [P(result)], rest);
    NextPtr(ws, result, [], rest);
    assert [P(result)] + [] == [P(result)] && EncAll(ws, []) + rest == rest;
  }

  /** Decoding the payload of a call gives exactly that call, or stops the replay. */
  ghost predicate ReadsBack(ws: wordsize, sh: Shadow, st: Replay, mem: Memory, c: Call, rest: seq<byte>)
    requires Recordable(ws, sh, c)
  {
    var r := GetEvent(ws, st, OpOf(c), EncAll(ws, Payload(ws, sh, mem, c)) + rest);
    if Replayable(c) then r == Read(Some(EventOf(ws, st.exec, sh, mem, c)), rest)
    else r.Read? && r.value.None?
  }

  /** Fixed layouts use none of the opcodes that have a decoder of their own. */
  lemma FixedIsPlain(op: word)
    requires RecorderLayout(op).Some?
    ensures op !in {glDrawElements, glShaderSource, glGetActiveUniform} && !IsIdListOp(op) && !IsEglCreateOp(op)
    ensures op !in {OPC_EOF, OPC_NONE, OPC_THREAD}
  {
  }

  lemma {:induction false} FixedReadsBack(ws: wordsize, sh: Shadow, st: Replay, mem: Memory, c: Call, rest: seq<byte>)
    requires c.Fixed? && Recordable(ws, sh, c) && Steady(c)
    ensures ReadsBack(ws, sh, st, mem, c, rest)
  {
    FixedIsPlain(c.op);
    LayoutsAgree(c.op);
    ValuesRoundTrip(ws, c.args, rest);
  }

  /** glGetFloatv is the only call with a float pointer. */
  lemma OnlyGetFloatv(ws: wordsize, c: Call)
    requires c.Fixed? && WellFormed(ws, c) && !Steady(c)
    ensures c.op == glGetFloatv && |c.args| == 2 && c.args[0].I? && c.args[1].FP? && !InStep(c.args[1])
  {
    var i :| 0 <= i < |c.args| && !InStep(c.args[i]);
    assert KindOf(c.args[i]) == KFP;
    FloatPtrLayout(c.op, i);
    hide RecorderLayout;
    assert KindOf(c.args[0]) == KI && KindOf(c.args[1]) == KFP;
  }

  /** A call that is not steady is decoded with its values, but one word of it is left over. */
  lemma {:induction false} FixedFallsBehind(ws: wordsize, sh: Shadow, st: Replay, mem: Memory, c: Call, rest: seq<byte>)
    requires c.Fixed? && Recordable(ws, sh, c) && !Steady(c)
    ensures var r := GetEvent(ws, st, OpOf(c), EncAll(ws, Payload(ws, sh, mem, c)) + rest);
            r.Read? && r.value == Some(EventOf(ws, st.exec, sh, mem, c)) && |r.rest| == |rest| + 4
  {
    OnlyGetFloatv(ws, c);
    LayoutsAgree(c.op);
    var pname, p := c.args[0].w, c.args[1].ptr;
    assert c.args == [I(pname)] + [FP(p)];
    NextInt(ws, pname, [FP(p)], rest);
    FloatBehind(ws, pname, p, rest);
    hide EncAll;
  }

  lemma {:induction false} FloatBehind(ws: wordsize, pname: word, p: Option<word>, rest: seq<byte>)
    requires !InStep(FP(p))
    ensures var r := DecAll(ws, [KI, KFP], EncAll(ws, [I(pname)] + [FP(p)]) + rest);
            r.Read? && r.value == SeenAll(ws, [I(pname)] + [FP(p)]) && |r.rest| == |rest| + 4
  {
    var tail := EncAll(ws, [FP(p)]) + rest;
    NextInt(ws, pname, [FP(p)], rest);
    FloatPtrRoundTrip(ws, p, rest);
    MarkedWords(p, FLOAT_MARKER, rest);
    assert EncAll(ws, [FP(p)]) == Enc(ws, FP(p));
    hide EncAll;
    hide Enc;
    var r := Dec(ws, KFP, tail);
    assert r.Read? && r.value == FP(p);
    assert [KFP][1..] == [] && DecAll(ws, [], r.rest) == Read([], r.rest);
    assert [FP(p)] + [] == [FP(p)];
    assert DecAll(ws, [KFP], tail) == Read([FP(p)], r.rest);
    assert [KI, KFP][1..] == [KFP];
    assert SeenAll(ws, [FP(p)]) == [FP(p)] && ([I(pname)] + [FP(p)])[1..] == [FP(p)];
  }

  lemma {:induction false} IdListReadsBack(ws: wordsize, sh: Shadow, st: Replay, mem: Memory, c: Call, rest: seq<byte>)
    requires c.IdList? && Recordable(ws, sh, c)
    ensures ReadsBack(ws, sh, st, mem, c, rest)
  {
    assert Ints(c.ids) + [] == Ints(c.ids) && EncAll(ws, []) + rest == rest;
    hide EncAll;
    hide GetInts;
    hide GetInt;
    hide DecAll;
    hide Ints;
    hide ReplayerLayout;
    NextInt(ws, c.n, Ints(c.ids), rest);
    IntsReadBack(ws, c.ids, [], rest);
  }

  lemma {:induction false} SourceReadsBack(ws: wordsize, sh: Shadow, st: Replay, mem: Memory, c: Call, rest: seq<byte>)
    requires c.ShaderSource? && Recordable(ws, sh, c)
    ensures ReadsBack(ws, sh, st, mem, c, rest)
  {
    IntsReadBack(ws, [c.shader, c.count], Parts(c.parts), rest);
    PartsReadBack(ws, c.parts, rest);
  }

  lemma {:induction false} UniformCallReadsBack(ws: wordsize, sh: Shadow, st: Replay, mem: Memory, c: Call, rest: seq<byte>)
    requires c.ActiveUniform? && Recordable(ws, sh, c)
    ensures ReadsBack(ws, sh, st, mem, c, rest)
  {
    hide EncAll;
    hide GetActiveUniform;
    UniformReadsBack(ws, c, rest);
  }

  lemma {:induction false} EglCallReadsBack(ws: wordsize, sh: Shadow, st: Replay, mem: Memory, c: Call, rest: seq<byte>)
    requires c.EglCreate? && Recordable(ws, sh, c)
    ensures ReadsBack(ws, sh, st, mem, c, rest)
  {
    hide EncAll;
    hide GetEglCreate;
    EglCreateReadsBack(ws, c.op, c.handles, c.attribs, c.result, rest);
  }

  lemma {:induction false} DrawCallReadsBack(ws: wordsize, sh: Shadow, st: Replay, mem: Memory, c: Call, rest: seq<byte>)
    requires c.DrawElements? && Recordable(ws, sh, c) && DrawsAlike(ws, sh, st, c)
    ensures ReadsBack(ws, sh, st, mem, c, rest)
  {
    hide EncAll;
    hide GetDrawElements;
    DrawReadsBack(ws, sh, st, mem, c, rest);
  }

  lemma {:induction false} EventReadsBack(ws: wordsize, sh: Shadow, st: Replay, mem: Memory, c: Call, rest: seq<byte>)
    requires Recordable(ws, sh, c) && Steady(c) && (c.DrawElements? ==> DrawsAlike(ws, sh, st, c))
    ensures ReadsBack(ws, sh, st, mem, c, rest)
  {
    hide ReadsBack;
    match c
    case Fixed(_, _) => FixedReadsBack(ws, sh, st, mem, c, rest);
    case IdList(_, _, _) => IdListReadsBack(ws, sh, st, mem, c, rest);
    case ShaderSource(_, _, _) => SourceReadsBack(ws, sh, st, mem, c, rest);
    case ActiveUniform(_, _, _, _, _, _) => UniformCallReadsBack(ws, sh, st, mem, c, rest);
    case EglCreate(_, _, _, _) => EglCallReadsBack(ws, sh, st, mem, c, rest);
    case DrawElements(_, _, _, _) => DrawCallReadsBack(ws, sh, st, mem, c, rest);
  }

  // ---------------------------------------------------------------------------------------------
  // Whole recordings
  // ---------------------------------------------------------------------------------------------

  lemma {:induction false} SeenKeepsInts(ws: wordsize, vs: seq<Value>)
    ensures |SeenAll(ws, vs)| == |vs|
    ensures forall i | 0 <= i < |vs| :: vs[i].I? ==> SeenAll(ws, vs)[i] == vs[i]
  {
    if vs != [] {
      SeenKeepsInts(ws, vs[1..]);
    }
  }

  /** Each call moves both shadow states the same way, whatever shadow its payload was taken from. */
  lemma {:induction false} LockstepStep(ws: wordsize, sh: Shadow, st: Replay, t: Taken)
    requires Lockstep(sh, st) && TakenOk(ws, t)
    ensures Lockstep(After(ws, sh, t.e.call), Advance(st, EventOf(ws, st.exec, t.sh, t.e.mem, t.e.call)))
  {
    if t.e.call.Fixed? {
      SeenKeepsInts(ws, t.e.call.args);
      ShadowArgs(ws, t.e.call);
      hide RecorderLayout;
    }
  }

  /** In lockstep the replayer reads the arrays that the recorder writes. */
  lemma {:induction false} LockstepShape(sh: Shadow, st: Replay, i: nat)
    requires Lockstep(sh, st) && i <= MAX_VERTEX_ATTRIBS
    ensures ReplayShape(st, i) == EnabledShape(st.exec, sh.attribs, i)
    decreases MAX_VERTEX_ATTRIBS - i
  {
    if i < MAX_VERTEX_ATTRIBS {
      assert SameAttrib(st.exec, sh.attribs[i], st.attribs[i]);
      LockstepShape(sh, st, i + 1);
    }
  }

  /** So a draw taken from another shadow state is read back exactly when the two recorder states draw alike. */
  lemma {:induction false} AlikeInLockstep(ws: wordsize, sh: Shadow, sh': Shadow, st: Replay, c: Call)
    requires Lockstep(sh, st) && c.DrawElements?
    ensures DrawsAlike(ws, sh', st, c) <==> SameDraws(ws, st.exec, sh', sh, c)
  {
    LockstepShape(sh, st, 0);
  }

  /** The opcode is found behind the announcement, and the replayer then knows the thread. */
  lemma {:induction false} OpcodeReadsBack(ws: wordsize, cur: dword, thr: dword, op: word, st: Replay,
                                           vs: seq<Value>, rest: seq<byte>)
    requires st.curThread == SeenPtr(ws, cur) && op != OPC_THREAD
    ensures GetOpcode(ws, st, EncAll(ws, Announce(cur, thr, op) + vs) + rest)
         == (st.(curThread := SeenPtr(ws, thr)), op, EncAll(ws, vs) + rest)
  {
    NextInt(ws, op, vs, rest);
    NextIsLong(ws, op, vs, rest);
    if thr != cur {
      NextPtr(ws, thr, [I(op)] + vs, rest);
      NextInt(ws, OPC_THREAD, [P(thr)] + ([I(op)] + vs), rest);
      NextIsLong(ws, OPC_THREAD, [P(thr)] + ([I(op)] + vs), rest);
      assert Announce(cur, thr, op) + vs == [I(OPC_THREAD)] + ([P(thr)] + ([I(op)] + vs));
    }
  }

  lemma {:induction false} NextIsLong(ws: wordsize, w: word, vs: seq<Value>, rest: seq<byte>)
    ensures |EncAll(ws, [I(w)] + vs) + rest| >= 4
  {
    EncCons(ws, I(w), vs, rest);
  }

  ghost predicate AllSteady(run: seq<Issued>) {
    forall i | 0 <= i < |run| :: Steady(run[i].call)
  }

  predicate AllReplayable(run: seq<Issued>) {
    forall i | 0 <= i < |run| :: Replayable(run[i].call)
  }

  ghost predicate SteadyTaken(ts: seq<Taken>) {
    forall i | 0 <= i < |ts| :: Steady(ts[i].e.call)
  }

  predicate ReplayableTaken(ts: seq<Taken>) {
    forall i | 0 <= i < |ts| :: Replayable(ts[i].e.call)
  }

  lemma {:induction false} OpcodeIsPlain(ws: wordsize, c: Call)
    requires WellFormed(ws, c)
    ensures OpOf(c) !in {OPC_EOF, OPC_NONE, OPC_THREAD}
  {
    if c.Fixed? {
      FixedIsPlain(c.op);
    }
  }

  /** One recorded command: the replayer decodes its payload, in front of its times and of what follows. */
  lemma {:induction false} TurnDecodes(ws: wordsize, cur: dword, st: Replay, t: Taken, vs: seq<Value>)
    requires st.Valid() && TakenOk(ws, t) && st.curThread == SeenPtr(ws, cur)
    ensures var e := t.e;
            var st1 := st.(curThread := SeenPtr(ws, e.thr));
            var got := GetEvent(ws, st1, OpOf(e.call), EncAll(ws, Payload(ws, t.sh, e.mem, e.call))
                                                       + EncAll(ws, [LL(e.bgn)] + ([LL(e.end)] + vs)));
            Turn(ws, st, EncAll(ws, Announce(cur, e.thr, OpOf(e.call)) + (Body(ws, t.sh, e) + vs))) ==
              if got.Overrun? || got.value.None? then None
              else
                var bgn := GetLongLong(got.rest);
                var end := GetLongLong(bgn.rest);
                Some((Replayed(SeenPtr(ws, e.thr), got.value.value, bgn.value, end.value),
                      Advance(st1, got.value.value), end.rest))
  {
    hide GetEvent;
    hide Payload;
    hide Advance;
    hide EncAll;
    var e := t.e;
    var op, payload := OpOf(e.call), Payload(ws, t.sh, e.mem, e.call);
    var times := [LL(e.bgn), LL(e.end)];
    var bytes := EncAll(ws, Announce(cur, e.thr, op) + (Body(ws, t.sh, e) + vs));
    assert bytes + [] == bytes;
    OpcodeIsPlain(ws, e.call);
    OpcodeReadsBack(ws, cur, e.thr, op, st, Body(ws, t.sh, e) + vs, []);
    Assoc(payload, times, vs);
    EncSplit(ws, payload, times + vs, []);
    assert EncAll(ws, times + vs) + [] == EncAll(ws, times + vs);
    assert times + vs == [LL(e.bgn)] + ([LL(e.end)] + vs);
  }

  /** The times behind a payload. */
  lemma {:induction false} TimesReadBack(ws: wordsize, bgn: dword, end: dword, vs: seq<Value>)
    ensures var r := GetLongLong(EncAll(ws, [LL(bgn)] + ([LL(end)] + vs)));
            r.value == bgn && GetLongLong(r.rest) == Read(end, EncAll(ws, vs))
  {
    hide EncAll;
    var bytes := EncAll(ws, [LL(bgn)] + ([LL(end)] + vs));
    assert bytes + [] == bytes && EncAll(ws, [LL(end)] + vs) + [] == EncAll(ws, [LL(end)] + vs);
    assert EncAll(ws, vs) + [] == EncAll(ws, vs);
    NextLongLong(ws, bgn, [LL(end)] + vs, []);
    NextLongLong(ws, end, vs, []);
  }

  /** One recorded command is replayed as itself, under its own thread, with its own times. */
  lemma {:induction false} TurnReadsBack(ws: wordsize, cur: dword, st: Replay, t: Taken, vs: seq<Value>)
    requires st.Valid() && TakenOk(ws, t) && Steady(t.e.call) && st.curThread == SeenPtr(ws, cur)
    requires t.e.call.DrawElements? ==> DrawsAlike(ws, t.sh, st, t.e.call)
    ensures var e := t.e;
            var turn := Turn(ws, st, EncAll(ws, Announce(cur, e.thr, OpOf(e.call)) + (Body(ws, t.sh, e) + vs)));
            var ev := EventOf(ws, st.exec, t.sh, e.mem, e.call);
            turn == if !Replayable(e.call) then None
                    else Some((Replayed(SeenPtr(ws, e.thr), ev, e.bgn, e.end),
                               Advance(st.(curThread := SeenPtr(ws, e.thr)), ev), EncAll(ws, vs)))
  {
    var e := t.e;
    var st1 := st.(curThread := SeenPtr(ws, e.thr));
    TurnDecodes(ws, cur, st, t, vs);
    ShapeKeepsThread(st, st1.curThread, 0);
    EventReadsBack(ws, t.sh, st1, e.mem, e.call, EncAll(ws, [LL(e.bgn)] + ([LL(e.end)] + vs)));
    TimesReadBack(ws, e.bgn, e.end, vs);
    hide Turn;
    hide GetEvent;
    hide Payload;
    hide EventOf;
    hide Advance;
    hide EncAll;
  }

  lemma {:induction false} ShapeKeepsThread(st: Replay, thr: dword, i: nat)
    requires i <= |st.attribs|
    ensures ReplayShape(st.(curThread := thr), i) == ReplayShape(st, i)
    decreases |st.attribs| - i
  {
    if i < |st.attribs| {
      ShapeKeepsThread(st, thr, i + 1);
    }
  }

  /** A turn reads a draw whole, from exactly its own bytes, if and only if the two sides draw alike; if they do not
      and the draw took time, it is not even replayed as itself. */
  lemma {:induction false} TurnIffAlike(ws: wordsize, cur: dword, st: Replay, t: Taken, vs: seq<Value>)
    requires st.Valid() && TakenOk(ws, t) && t.e.call.DrawElements? && st.curThread == SeenPtr(ws, cur)
    ensures var e := t.e;
            var turn := Turn(ws, st, EncAll(ws, Announce(cur, e.thr, OpOf(e.call)) + (Body(ws, t.sh, e) + vs)));
            var made := Replayed(SeenPtr(ws, e.thr), EventOf(ws, st.exec, t.sh, e.mem, e.call), e.bgn, e.end);
            && (turn.Some? && turn.value.0 == made && turn.value.2 == EncAll(ws, vs) <==> DrawsAlike(ws, t.sh, st, e.call))
            && (e.bgn != e.end ==> (turn.Some? && turn.value.0 == made <==> DrawsAlike(ws, t.sh, st, e.call)))
  {
    hide Turn;
    hide GetDrawElements;
    hide Payload;
    hide EventOf;
    hide Advance;
    hide EncAll;
    hide DrawsAlike;
    hide OneOff;
    var e := t.e;
    if DrawsAlike(ws, t.sh, st, e.call) {
      TurnReadsBack(ws, cur, st, t, vs);
    } else {
      var st1 := st.(curThread := SeenPtr(ws, e.thr));
      var rest := EncAll(ws, [LL(e.bgn)] + ([LL(e.end)] + vs));
      TurnDecodes(ws, cur, st, t, vs);
      TimesAreLong(ws, e.bgn, e.end, vs);
      ThreadIsNoMatter(ws, t.sh, st, st1.curThread, e.call);
      DrawGoesWrong(ws, t.sh, st1, e.mem, e.call, rest);
      var r := GetDrawElements(ws, st1, EncAll(ws, Payload(ws, t.sh, e.mem, e.call)) + rest);
      if r.Read? && r.value == EventOf(ws, st.exec, t.sh, e.mem, e.call) {
        ShiftedTimes(ws, e.bgn, e.end, vs, r.rest);
      }
    }
  }

  lemma {:induction false} ThreadIsNoMatter(ws: wordsize, sh: Shadow, st: Replay, thr: dword, c: Call)
    requires c.DrawElements?
    ensures DrawsAlike(ws, sh, st, c) <==> DrawsAlike(ws, sh, st.(curThread := thr), c)
  {
    ShapeKeepsThread(st, thr, 0);
  }

  /** A turn leaves exactly what follows its command if and only if no float pointer of it is out of step. */
  lemma {:induction false} TurnIffSteady(ws: wordsize, cur: dword, st: Replay, t: Taken, vs: seq<Value>)
    requires st.Valid() && TakenOk(ws, t) && Replayable(t.e.call) && st.curThread == SeenPtr(ws, cur)
    requires t.e.call.DrawElements? ==> DrawsAlike(ws, t.sh, st, t.e.call)
    ensures var e := t.e;
            var turn := Turn(ws, st, EncAll(ws, Announce(cur, e.thr, OpOf(e.call)) + (Body(ws, t.sh, e) + vs)));
            var ev := EventOf(ws, st.exec, t.sh, e.mem, e.call);
            && turn.Some? && turn.value.0.thr == SeenPtr(ws, e.thr) && turn.value.0.event == ev
            && (turn.value.2 == EncAll(ws, vs) <==> Steady(e.call))
  {
    hide Turn;
    hide GetEvent;
    hide Payload;
    hide EventOf;
    hide Advance;
    hide EncAll;
    if Steady(t.e.call) {
      TurnReadsBack(ws, cur, st, t, vs);
    } else {
      var e := t.e;
      TurnDecodes(ws, cur, st, t, vs);
      TimesReadBack(ws, e.bgn, e.end, vs);
      FixedFallsBehind(ws, t.sh, st.(curThread := SeenPtr(ws, e.thr)), e.mem, e.call,
                       EncAll(ws, [LL(e.bgn)] + ([LL(e.end)] + vs)));
      TimesAreLong(ws, e.bgn, e.end, vs);
    }
  }

  lemma {:induction false} TimesAreLong(ws: wordsize, bgn: dword, end: dword, vs: seq<Value>)
    ensures |EncAll(ws, [LL(bgn)] + ([LL(end)] + vs))| == 16 + |EncAll(ws, vs)|
  {
    EncCons(ws, LL(bgn), [LL(end)] + vs, []);
    EncCons(ws, LL(end), vs, []);
  }

  lemma {:induction false} EmptyEnds(ws: wordsize, st: Replay)
    requires st.Valid()
    ensures EncAll(ws, []) == [] && Turn(ws, st, []) == None
  {
    EofStops(ws, st, []);
    hide GetEvent;
  }

  /** The replay stops at the frame limit, at the end of the log or at a call it does not know. */
  lemma {:induction false} NoTurn(ws: wordsize, cur: dword, st: Replay, ts: seq<Taken>, frames: int)
    requires st.Valid() && AllTaken(ws, ts) && SteadyTaken(ts) && st.curThread == SeenPtr(ws, cur)
    requires frames == 0 || ts == [] || !Replayable(ts[0].e.call)
    ensures var bytes := EncAll(ws, LogOf(ws, cur, ts));
            && Process(ws, st, frames, bytes) == Outcome([], st, bytes) && (ts == [] ==> bytes == [])
            && Readings(ws, st, frames, bytes) == []
  {
    hide Turn;
    hide EncAll;
    EmptyEnds(ws, st);
    if ts != [] {
      assert TakenOk(ws, ts[0]);
      if !Replayable(ts[0].e.call) {
        TurnReadsBack(ws, cur, st, ts[0], LogOf(ws, ts[0].e.thr, ts[1..]));
      }
    }
  }

  /** The first call as it was made. */
  function Made(ws: wordsize, exec: bool, t: Taken): Replayed
    requires TakenOk(ws, t)
  {
    Replayed(SeenPtr(ws, t.e.thr), EventOf(ws, exec, t.sh, t.e.mem, t.e.call), t.e.bgn, t.e.end)
  }

  /** One turn replays the first call and leaves the rest of the recording. */
  lemma {:induction false} OneTurn(ws: wordsize, cur: dword, st: Replay, ts: seq<Taken>, frames: int)
    requires st.Valid() && AllTaken(ws, ts) && st.curThread == SeenPtr(ws, cur)
    requires frames != 0 && ts != [] && Replayable(ts[0].e.call) && Steady(ts[0].e.call)
    requires ts[0].e.call.DrawElements? ==> DrawsAlike(ws, ts[0].sh, st, ts[0].e.call)
    ensures TakenOk(ws, ts[0])
    ensures var made := Made(ws, st.exec, ts[0]);
            var st' := Advance(st.(curThread := made.thr), made.event);
            var bytes := EncAll(ws, LogOf(ws, ts[0].e.thr, ts[1..]));
            var frames' := if IsSwap(made.event) then frames - 1 else frames;
            var more := Process(ws, st', frames', bytes);
            && Process(ws, st, frames, EncAll(ws, LogOf(ws, cur, ts)))
               == Outcome([made] + more.events, more.st, more.rest)
            && Readings(ws, st, frames, EncAll(ws, LogOf(ws, cur, ts)))
               == [Reading(made, bytes)] + Readings(ws, st', frames', bytes)
  {
    var e := ts[0].e;
    assert TakenOk(ws, ts[0]);
    ProcessSteps(ws, st, frames, EncAll(ws, LogOf(ws, cur, ts)));
    ReadingsSteps(ws, st, frames, EncAll(ws, LogOf(ws, cur, ts)));
    TurnReadsBack(ws, cur, st, ts[0], LogOf(ws, e.thr, ts[1..]));
    hide Process;
    hide Readings;
    hide Turn;
    hide EventOf;
    hide Advance;
    hide Body;
    hide EncAll;
    hide WellFormed;
    hide Replayable;
  }

  /** A draw taken from the wrong shadow spoils the replay. */
  lemma {:induction false} SpoiltTurn(ws: wordsize, cur: dword, st: Replay, ts: seq<Taken>, frames: int)
    requires st.Valid() && AllTaken(ws, ts) && st.curThread == SeenPtr(ws, cur) && frames != 0 && ts != []
    requires ts[0].e.call.DrawElements? && !DrawsAlike(ws, ts[0].sh, st, ts[0].e.call)
    ensures var bytes := EncAll(ws, LogOf(ws, cur, ts));
            && Readings(ws, st, frames, bytes) != Makings(ws, st.exec, ts, frames)
            && (ts[0].e.bgn != ts[0].e.end ==>
                  Process(ws, st, frames, bytes).events != Issues(ws, st.exec, ts, frames))
  {
    assert TakenOk(ws, ts[0]);
    ProcessSteps(ws, st, frames, EncAll(ws, LogOf(ws, cur, ts)));
    ReadingsSteps(ws, st, frames, EncAll(ws, LogOf(ws, cur, ts)));
    TurnIffAlike(ws, cur, st, ts[0], LogOf(ws, ts[0].e.thr, ts[1..]));
    FirstIssue(ws, st.exec, ts, frames);
    hide Process;
    hide Readings;
    hide Turn;
    hide EventOf;
    hide DrawsAlike;
    hide Body;
    hide EncAll;
    hide WellFormed;
    hide Issues;
    hide Makings;
    var bytes, issues, makings := EncAll(ws, LogOf(ws, cur, ts)), Issues(ws, st.exec, ts, frames),
                                  Makings(ws, st.exec, ts, frames);
    assert issues[0] == Made(ws, st.exec, ts[0]);
    assert makings[0] == Reading(Made(ws, st.exec, ts[0]), EncAll(ws, LogOf(ws, ts[0].e.thr, ts[1..])));
    var turn := Turn(ws, st, bytes);
    if turn.Some? {
      assert Process(ws, st, frames, bytes).events[0] == turn.value.0;
      assert Readings(ws, st, frames, bytes)[0] == Reading(turn.value.0, turn.value.2);
    }
  }

  lemma {:induction false} FirstIssue(ws: wordsize, exec: bool, ts: seq<Taken>, frames: int)
    requires AllTaken(ws, ts) && frames != 0 && ts != [] && Replayable(ts[0].e.call)
    ensures TakenOk(ws, ts[0])
    ensures var frames' := if IsSwap(Made(ws, exec, ts[0]).event) then frames - 1 else frames;
            && Issues(ws, exec, ts, frames) == [Made(ws, exec, ts[0])] + Issues(ws, exec, ts[1..], frames')
            && Makings(ws, exec, ts, frames)
               == [Reading(Made(ws, exec, ts[0]), EncAll(ws, LogOf(ws, ts[0].e.thr, ts[1..])))]
                  + Makings(ws, exec, ts[1..], frames')
  {
    assert TakenOk(ws, ts[0]);
    hide EventOf;
    hide EncAll;
  }

  /** The draws took time. */
  ghost predicate DrawsTakeTime(ts: seq<Taken>) {
    forall i | 0 <= i < |ts| :: ts[i].e.call.DrawElements? ==> ts[i].e.bgn != ts[i].e.end
  }

  /** Replaying the log of any calls, each taken from a shadow state of its own, reads back exactly these calls, each
      from its own bytes, up to the frame limit and to the first call the replayer does not implement, if and only
      if every draw drew like the state that the logged calls before it make.  If the draws took time, this can be
      told from the replayed commands alone.  Replayed to the end, the replay stops at the end of the file with
      that state. */
  lemma {:induction false} ReplayIff(ws: wordsize, cur: dword, sh: Shadow, st: Replay, ts: seq<Taken>, frames: int)
    requires Lockstep(sh, st) && AllTaken(ws, ts) && SteadyTaken(ts) && st.curThread == SeenPtr(ws, cur)
    ensures var bytes := EncAll(ws, LogOf(ws, cur, ts));
            var out := Process(ws, st, frames, bytes);
            && (Readings(ws, st, frames, bytes) == Makings(ws, st.exec, ts, frames)
                <==> AllAlike(ws, st.exec, sh, ts, frames))
            && (AllAlike(ws, st.exec, sh, ts, frames) ==> out.events == Issues(ws, st.exec, ts, frames))
            && (DrawsTakeTime(ts) && out.events == Issues(ws, st.exec, ts, frames) ==>
                  AllAlike(ws, st.exec, sh, ts, frames))
            && (frames < 0 && ReplayableTaken(ts) && AllAlike(ws, st.exec, sh, ts, frames) ==>
                  out.rest == [] && Lockstep(ShadowAfter(ws, sh, ts), out.st))
    decreases |ts|
  {
    hide Process;
    hide Readings;
    hide EventOf;
    hide Advance;
    hide After;
    hide WellFormed;
    hide Steady;
    hide Replayable;
    hide Body;
    hide EncAll;
    hide SameAttrib;
    hide SameDraws;
    hide DrawsAlike;
    if frames == 0 || ts == [] || !Replayable(ts[0].e.call) {
      NoTurn(ws, cur, st, ts, frames);
    } else {
      var t := ts[0];
      assert TakenOk(ws, t);
      if t.e.call.DrawElements? { AlikeInLockstep(ws, sh, t.sh, st, t.e.call); }
      if t.e.call.DrawElements? && !DrawsAlike(ws, t.sh, st, t.e.call) {
        SpoiltTurn(ws, cur, st, ts, frames);
      } else {
        var made := Made(ws, st.exec, t);
        var st1 := st.(curThread := made.thr);
        var st' := Advance(st1, made.event);
        var frames' := if IsSwap(made.event) then frames - 1 else frames;
        var bytes := EncAll(ws, LogOf(ws, t.e.thr, ts[1..]));
        OneTurn(ws, cur, st, ts, frames);
        LockstepStep(ws, sh, st1, t);
        FirstIssue(ws, st.exec, ts, frames);
        SameTail(made, Process(ws, st', frames', bytes).events, Issues(ws, st.exec, ts[1..], frames'));
        SameTail(Reading(made, bytes), Readings(ws, st', frames', bytes), Makings(ws, st.exec, ts[1..], frames'));
        hide Issues;
        hide Makings;
        ReplayIff(ws, t.e.thr, After(ws, sh, t.e.call), st', ts[1..], frames');
      }
    }
  }

  /** Whatever follows them, the calls up to the first one that is out of step are given back. */
  lemma {:induction false} ReplayPrefix(ws: wordsize, cur: dword, sh: Shadow, st: Replay, ts: seq<Taken>, k: nat, frames: int)
    requires Lockstep(sh, st) && AllTaken(ws, ts) && k <= |ts| && AllTaken(ws, ts[..k]) && SteadyTaken(ts[..k])
    requires AllAlike(ws, st.exec, sh, ts[..k], frames) && st.curThread == SeenPtr(ws, cur)
    ensures Issues(ws, st.exec, ts[..k], frames) <= Process(ws, st, frames, EncAll(ws, LogOf(ws, cur, ts))).events
    decreases |ts|
  {
    hide Process;
    hide Readings;
    hide EventOf;
    hide Advance;
    hide After;
    hide WellFormed;
    hide Steady;
    hide Replayable;
    hide Body;
    hide EncAll;
    hide SameAttrib;
    hide SameDraws;
    hide DrawsAlike;
    if frames != 0 && k > 0 && Replayable(ts[0].e.call) {
      var t := ts[0];
      assert ts[..k][0] == t && ts[..k][1..] == ts[1..][..k - 1];
      assert TakenOk(ws, t) && Steady(t.e.call);
      if t.e.call.DrawElements? { AlikeInLockstep(ws, sh, t.sh, st, t.e.call); }
      var made := Made(ws, st.exec, t);
      var st1 := st.(curThread := made.thr);
      OneTurn(ws, cur, st, ts, frames);
      LockstepStep(ws, sh, st1, t);
      FirstIssue(ws, st.exec, ts[..k], frames);
      hide Issues;
      ReplayPrefix(ws, t.e.thr, After(ws, sh, t.e.call), Advance(st1, made.event), ts[1..], k - 1,
                   if IsSwap(made.event) then frames - 1 else frames);
    }
  }

  // ---------------------------------------------------------------------------------------------
  // Recordings by one thread at a time
  // ---------------------------------------------------------------------------------------------

  /** Calls recorded one after the other draw alike. */
  lemma {:induction false} RunIsAlike(ws: wordsize, exec: bool, cur: dword, sh: Shadow, run: seq<Issued>, frames: int)
    requires sh.Valid() && AllRecordable(ws, sh, run)
    ensures AllAlike(ws, exec, sh, Under(ws, sh, run), frames)
    ensures LogOf(ws, cur, Under(ws, sh, run)) == Recording(ws, cur, sh, run)
    ensures ShadowAfter(ws, sh, Under(ws, sh, run)) == Final(ws, sh, run)
    decreases |run|
  {
    hide WellFormed;
    hide After;
    hide EventOf;
    hide Body;
    if run != [] {
      var e, sh' := run[0], After(ws, sh, run[0].call);
      var ts := Under(ws, sh, run);
      assert ts[0] == Taken(e, sh) && ts[1..] == Under(ws, sh', run[1..]);
      var ev := EventOf(ws, exec, sh, e.mem, e.call);
      RunIsAlike(ws, exec, e.thr, sh', run[1..], if IsSwap(ev) then frames - 1 else frames);
    }
  }

  /** Replaying a recording gives back exactly the recorded calls, up to the frame limit and to the first
      call the replayer does not implement; replayed to the end, it stops at the end of the file with
      the recorder's shadow state. */
  lemma {:induction false} ReplayInverts(ws: wordsize, cur: dword, sh: Shadow, st: Replay, run: seq<Issued>, frames: int)
    requires Lockstep(sh, st) && AllRecordable(ws, sh, run) && AllSteady(run) && st.curThread == SeenPtr(ws, cur)
    ensures var out := Process(ws, st, frames, EncAll(ws, Recording(ws, cur, sh, run)));
            && out.events == Expected(ws, st.exec, sh, run, frames)
            && (frames < 0 && AllReplayable(run) ==> out.rest == [] && Lockstep(Final(ws, sh, run), out.st))
  {
    RunIsAlike(ws, st.exec, cur, sh, run, frames);
    ReplayIff(ws, cur, sh, st, Under(ws, sh, run), frames);
    hide Process;
    hide EncAll;
    hide Under;
    hide Recording;
    hide LogOf;
    hide Issues;
    hide AllAlike;
    hide Lockstep;
    hide Steady;
    hide Replayable;
  }

  /** The same for runs of any calls: up to the first float pointer that is out of step the replay is exact. */
  lemma {:induction false} ReplayUntilUnsteady(ws: wordsize, cur: dword, sh: Shadow, st: Replay, run: seq<Issued>, k: nat,
                                               frames: int)
    requires Lockstep(sh, st) && AllRecordable(ws, sh, run) && st.curThread == SeenPtr(ws, cur)
    requires k <= |run| && AllSteady(run[..k])
    ensures AllRecordable(ws, sh, run[..k])
    ensures Expected(ws, st.exec, sh, run[..k], frames)
         <= Process(ws, st, frames, EncAll(ws, Recording(ws, cur, sh, run))).events
  {
    UnderPrefix(ws, sh, run, k);
    RunIsAlike(ws, st.exec, cur, sh, run, frames);
    RunIsAlike(ws, st.exec, cur, sh, run[..k], frames);
    hide Process;
    hide EncAll;
    hide Under;
    hide Recording;
    hide LogOf;
    hide Issues;
    hide AllAlike;
    hide Lockstep;
    hide Steady;
    ReplayPrefix(ws, cur, sh, st, Under(ws, sh, run), k, frames);
  }

  lemma {:induction false} UnderPrefix(ws: wordsize, sh: Shadow, run: seq<Issued>, k: nat)
    requires sh.Valid() && AllRecordable(ws, sh, run) && k <= |run|
    ensures AllRecordable(ws, sh, run[..k]) && Under(ws, sh, run)[..k] == Under(ws, sh, run[..k])
    decreases k
  {
    hide WellFormed;
    hide IndexOk;
    hide ArraysOk;
    hide After;
    if k > 0 {
      var sh' := After(ws, sh, run[0].call);
      assert run[..k][0] == run[0] && run[..k][1..] == run[1..][..k - 1];
      UnderPrefix(ws, sh', run[1..], k - 1);
      HeadPrefix(Taken(run[0], sh), Under(ws, sh', run[1..]), k);
    }
  }

  lemma HeadPrefix<T>(x: T, s: seq<T>, k: nat)
    requires 0 < k <= |s| + 1
    ensures ([x] + s)[..k] == [x] + s[..k - 1]
  {
  }
}
