/** Threads that share a GL context and so the recorder's shadow state (tools/gltrace/gles.c).  The lock covers a
    command from putCmd to endCmd, but glBindBuffer updates the shadow after releasing it, and nested commands
    update the shadow without being logged. */
module TraceConcurrent {
  import opened Words
  import opened TraceValues
  import opened TraceProtocol
  import opened TraceOpcodes
  import Threads = TraceThreads
  import opened TraceRecorder
  import opened TraceReplayer
  import opened TraceRoundTrip

  // ---------------------------------------------------------------------------------------------
  // Runs
  // ---------------------------------------------------------------------------------------------

  /** How far an open command has come: after putCmd, after the puts that depend on the element binding, after
      those that depend on the array binding. */
  datatype Stage = Opened | HalfPut | AllPut

  /** An open command; `sh` is the shadow state its payload has been taken from so far. */
  datatype Frame = Frame(e: Issued, sh: Shadow, stage: Stage)

  /** `open` holds the nested commands of the thread that has the lock, `late` the calls of glBindBuffer that have
      released the lock but not yet updated the shadow, `done` the outermost commands in the order in which they
      released the lock. */
  datatype World = World(sh: Shadow, open: seq<Frame>, late: map<dword, Call>, done: seq<Taken>) {

    ghost predicate Valid(ws: wordsize) {
      && sh.Valid() && AllTaken(ws, done)
      && (forall i | 0 <= i < |open| :: FrameOk(ws, open[i]) && open[i].e.thr == open[0].e.thr)
      && (forall thr | thr in late :: WellFormed(ws, late[thr]))
    }
  }

  datatype Act = Open(e: Issued) | PutFront | PutBack | Close | Settle

  datatype Move = Move(thr: dword, act: Act)

  /** What has been put of an open command can be put. */
  ghost predicate FrameOk(ws: wordsize, f: Frame) {
    && f.sh.Valid() && WellFormed(ws, f.e.call)
    && (f.e.call.DrawElements? && f.stage != Opened ==> IndexOk(f.sh, f.e.call))
    && (f.e.call.DrawElements? && f.stage == AllPut ==> ArraysOk(f.sh, f.e.call))
  }

  /** The puts up to the first look at the array binding. */
  function FrontValues(ws: wordsize, sh: Shadow, e: Issued): seq<Value>
    requires WellFormed(ws, e.call) && (e.call.DrawElements? ==> IndexOk(sh, e.call))
  {
    var c := e.call;
    if c.DrawElements? then Ints([c.mode, c.count, c.typ]) + [IndexValue(sh, e.mem, c)]
    else Payload(ws, sh, e.mem, c)
  }

  /** The puts from there on. */
  function BackValues(sh: Shadow, e: Issued): seq<Value>
    requires e.call.DrawElements? ==> ArraysOk(sh, e.call)
  {
    var c := e.call;
    if c.DrawElements? && sh.arrayBinding == 0 then Arrays(e.mem, sh.attribs, VertexCount(c.count), 0) else []
  }

  /** The shadow state of a payload of which one half was taken from `front` and the other from `back`. */
  function Joined(front: Shadow, back: Shadow): Shadow {
    Shadow(back.arrayBinding, front.elementBinding, back.attribs)
  }

  predicate IsOp(c: Call, ops: set<word>) {
    c.Fixed? && c.op in ops
  }

  predicate ChangesShadow(c: Call) {
    IsOp(c, {glBindBuffer, glVertexAttribPointer, glEnableVertexAttribArray, glDisableVertexAttribArray})
  }

  /** The thread has the lock, and its innermost command has come this far. */
  ghost predicate Inside(w: World, thr: dword, stage: Stage) {
    thr !in w.late && w.open != [] && w.open[0].e.thr == thr && Last(w.open).stage == stage
  }

  /** putCmd waits for the lock; a thread updates the shadow for its last glBindBuffer before it goes on. */
  ghost predicate Enabled(ws: wordsize, w: World, m: Move) {
    match m.act
    case Open(e) =>
      m.thr !in w.late && e.thr == m.thr && (w.open != [] ==> w.open[0].e.thr == m.thr) && WellFormed(ws, e.call)
    case PutFront =>
      Inside(w, m.thr, Opened) && (Last(w.open).e.call.DrawElements? ==> IndexOk(w.sh, Last(w.open).e.call))
    case PutBack =>
      Inside(w, m.thr, HalfPut) && (Last(w.open).e.call.DrawElements? ==> ArraysOk(w.sh, Last(w.open).e.call))
    case Close => Inside(w, m.thr, AllPut)
    case Settle => m.thr in w.late
  }

  ghost function Next(ws: wordsize, w: World, m: Move): (w': World)
    requires w.Valid(ws) && Enabled(ws, w, m)
    ensures w'.Valid(ws)
  {
    match m.act
    case Open(e) => w.(open := w.open + [Frame(e, w.sh, Opened)])
    case PutFront => w.(open := Front(w.open) + [Frame(Last(w.open).e, w.sh, HalfPut)])
    case PutBack =>
      var top := Last(w.open);
      World(if IsOp(top.e.call, {glVertexAttribPointer}) then After(ws, w.sh, top.e.call) else w.sh,
            Front(w.open) + [Frame(top.e, Joined(top.sh, w.sh), AllPut)], w.late, w.done)
    case Close =>
      var top := Last(w.open);
      var c := top.e.call;
      World(if IsOp(c, {glEnableVertexAttribArray, glDisableVertexAttribArray}) then After(ws, w.sh, c) else w.sh,
            Front(w.open),
            if IsOp(c, {glBindBuffer}) then w.late[m.thr := c] else w.late,
            if |w.open| == 1 then w.done + [Taken(top.e, top.sh)] else w.done)
    case Settle => World(After(ws, w.sh, w.late[m.thr]), w.open, w.late - {m.thr}, w.done)
  }

  const START := World(InitialShadow(), [], map[], [])

  ghost predicate Lawful(ws: wordsize, ms: seq<Move>)
    decreases |ms|, 0
  {
    ms == [] || (Lawful(ws, Front(ms)) && Enabled(ws, Reached(ws, Front(ms)), Last(ms)))
  }

  ghost function Reached(ws: wordsize, ms: seq<Move>): (w: World)
    requires Lawful(ws, ms)
    ensures w.Valid(ws)
    decreases |ms|, 1
  {
    if ms == [] then START else Next(ws, Reached(ws, Front(ms)), Last(ms))
  }

  // ---------------------------------------------------------------------------------------------
  // The log of a run
  // ---------------------------------------------------------------------------------------------

  function Writes(thr: dword, vs: seq<Value>): seq<Threads.Step> {
    seq(|vs|, i requires 0 <= i < |vs| => Threads.Step(thr, Threads.Write(vs[i])))
  }

  /** The steps of a move that the log sees. */
  ghost function Emits(ws: wordsize, w: World, m: Move): seq<Threads.Step>
    requires w.Valid(ws) && Enabled(ws, w, m)
  {
    match m.act
    case Open(e) => [Threads.Step(m.thr, Threads.Begin(OpOf(e.call)))]
    case PutFront => Writes(m.thr, FrontValues(ws, w.sh, Last(w.open).e))
    case PutBack => Writes(m.thr, BackValues(w.sh, Last(w.open).e))
    case Close =>
      var e := Last(w.open).e;
      Writes(m.thr, [LL(e.bgn), LL(e.end)]) + [Threads.Step(m.thr, Threads.End)]
    case Settle => []
  }

  ghost function Trace(ws: wordsize, ms: seq<Move>): seq<Threads.Step>
    requires Lawful(ws, ms)
    decreases |ms|
  {
    if ms == [] then [] else Trace(ws, Front(ms)) + Emits(ws, Reached(ws, Front(ms)), Last(ms))
  }

  ghost function RecordOf(ws: wordsize, t: Taken): Threads.Record
    requires TakenOk(ws, t)
  {
    Threads.Record(t.e.thr, OpOf(t.e.call), Body(ws, t.sh, t.e))
  }

  ghost function RecordsOf(ws: wordsize, ts: seq<Taken>): seq<Threads.Record>
    requires AllTaken(ws, ts)
  {
    seq(|ts|, i requires 0 <= i < |ts| => assert TakenOk(ws, ts[i]); RecordOf(ws, ts[i]))
  }

  /** What an open command has put. */
  ghost function PutSoFar(ws: wordsize, f: Frame): seq<Value>
    requires FrameOk(ws, f)
  {
    match f.stage
    case Opened => []
    case HalfPut => FrontValues(ws, f.sh, f.e)
    case AllPut => Payload(ws, f.sh, f.e.mem, f.e.call)
  }

  /** The log has seen a run of its own, with the same owner, the same finished commands and the same open one. */
  ghost predicate Mirrors(ws: wordsize, s0: LogState, w: World, es: seq<Threads.Step>)
    requires w.Valid(ws) && Threads.Start(s0)
  {
    && Threads.IsRun(s0, es)
    && Threads.After(s0, es).owner == (if w.open == [] then None else Some(w.open[0].e.thr))
    && Threads.After(s0, es).depth == |w.open|
    && Threads.Finished(es) == RecordsOf(ws, w.done)
    && (w.open != [] ==>
          var v := Threads.Local(w.open[0].e.thr, es);
          v.cmd == OpOf(w.open[0].e.call) && v.vals == PutSoFar(ws, w.open[0]))
  }

  lemma {:induction false} OneStep(s0: LogState, es: seq<Threads.Step>, e: Threads.Step)
    requires Threads.Start(s0) && Threads.IsRun(s0, es) && Threads.Enabled(Threads.After(s0, es), e)
    ensures var es' := es + [e];
      && Threads.IsRun(s0, es') && Threads.After(s0, es') == Threads.Next(Threads.After(s0, es), e)
      && Threads.Local(e.thr, es') == Threads.Account(e.thr, Threads.Local(e.thr, es), e.op)
      && Threads.Finished(es') == (if e.op.End? && Threads.Local(e.thr, es).depth == 1
           then Threads.Finished(es) + [Threads.Record(e.thr, Threads.Local(e.thr, es).cmd, Threads.Local(e.thr, es).vals)]
           else Threads.Finished(es))
  {
    assert Front(es + [e]) == es && Last(es + [e]) == e;
  }

  /** A row of puts by the owner of the lock. */
  lemma {:induction false} WriteAll(s0: LogState, es: seq<Threads.Step>, thr: dword, vs: seq<Value>)
    requires Threads.Start(s0) && Threads.IsRun(s0, es) && Threads.After(s0, es).owner == Some(thr)
    ensures var es', v := es + Writes(thr, vs), Threads.Local(thr, es);
      && Threads.IsRun(s0, es') && Threads.After(s0, es') == Threads.After(s0, es).PutSeq(vs)
      && Threads.Local(thr, es') == (if v.depth == 1 then v.(vals := v.vals + vs) else v)
      && Threads.Finished(es') == Threads.Finished(es)
    decreases |vs|
  {
    if vs == [] {
      assert es + Writes(thr, vs) == es;
      PutSeqNil(Threads.After(s0, es));
      assert Threads.Local(thr, es).vals + [] == Threads.Local(thr, es).vals;
    } else {
      var before, last := Front(vs), Last(vs);
      WriteAll(s0, es, thr, before);
      var step := Threads.Step(thr, Threads.Write(last));
      OneStep(s0, es + Writes(thr, before), step);
      assert es + Writes(thr, vs) == es + Writes(thr, before) + [step];
      assert before + [last] == vs;
      PutSeqSnoc(Threads.After(s0, es), before, last);
      Assoc(Threads.Local(thr, es).vals, before, [last]);
    }
  }

  lemma {:induction false} MirrorsOpen(ws: wordsize, s0: LogState, w: World, es: seq<Threads.Step>, m: Move)
    requires w.Valid(ws) && Threads.Start(s0) && Mirrors(ws, s0, w, es) && Enabled(ws, w, m) && m.act.Open?
    ensures Mirrors(ws, s0, Next(ws, w, m), es + Emits(ws, w, m))
  {
    Threads.OwnerOnlyHolds(s0, es);
    assert Threads.Local(m.thr, es).depth == |w.open|;
    OneStep(s0, es, Emits(ws, w, m)[0]);
    assert Emits(ws, w, m) == [Emits(ws, w, m)[0]];
    hide WellFormed;
    hide RecordsOf;
    hide PutSoFar;
    hide Threads.Finished;
    hide Threads.Local;
    hide Threads.IsRun;
    hide Threads.After;
  }

  /** A row of puts for the innermost command, which the log sees only if it is also the outermost. */
  lemma {:induction false} MirrorsPut(ws: wordsize, s0: LogState, w: World, es: seq<Threads.Step>, w': World, f: Frame,
                                      vs: seq<Value>)
    requires w.Valid(ws) && w'.Valid(ws) && Threads.Start(s0) && Mirrors(ws, s0, w, es) && w.open != []
    requires w'.open == Front(w.open) + [f] && f.e == Last(w.open).e && w'.done == w.done && FrameOk(ws, f)
    requires |w.open| == 1 ==> PutSoFar(ws, f) == PutSoFar(ws, w.open[0]) + vs
    ensures Mirrors(ws, s0, w', es + Writes(w.open[0].e.thr, vs))
  {
    hide WellFormed;
    hide RecordsOf;
    hide PutSoFar;
    hide Writes;
    var thr := w.open[0].e.thr;
    Threads.OwnerOnlyHolds(s0, es);
    assert Threads.Local(thr, es).depth == |w.open|;
    WriteAll(s0, es, thr, vs);
    hide Threads.Finished;
    hide Threads.Local;
    hide Threads.IsRun;
    hide Threads.After;
    if |w.open| == 1 {
      assert w'.open[0] == f;
    } else {
      assert w'.open[0] == w.open[0];
    }
  }

  lemma {:induction false} MirrorsFront(ws: wordsize, s0: LogState, w: World, es: seq<Threads.Step>, m: Move)
    requires w.Valid(ws) && Threads.Start(s0) && Mirrors(ws, s0, w, es) && Enabled(ws, w, m) && m.act.PutFront?
    ensures Mirrors(ws, s0, Next(ws, w, m), es + Emits(ws, w, m))
  {
    hide Mirrors;
    hide WellFormed;
    hide FrontValues;
    var top := Last(w.open);
    var vs := FrontValues(ws, w.sh, top.e);
    assert [] + vs == vs;
    MirrorsPut(ws, s0, w, es, Next(ws, w, m), Frame(top.e, w.sh, HalfPut), vs);
  }

  /** The two halves of a payload. */
  lemma {:induction false} HalvesJoin(ws: wordsize, front: Shadow, back: Shadow, e: Issued)
    requires WellFormed(ws, e.call)
    requires e.call.DrawElements? ==> IndexOk(front, e.call) && ArraysOk(back, e.call)
    ensures Recordable(ws, Joined(front, back), e.call)
    ensures FrontValues(ws, front, e) + BackValues(back, e) == Payload(ws, Joined(front, back), e.mem, e.call)
  {
    var c := e.call;
    if c.DrawElements? {
      Assoc(Ints([c.mode, c.count, c.typ]), [IndexValue(front, e.mem, c)], BackValues(back, e));
    } else {
      assert Payload(ws, front, e.mem, c) + [] == Payload(ws, front, e.mem, c);
    }
  }

  lemma {:induction false} MirrorsBack(ws: wordsize, s0: LogState, w: World, es: seq<Threads.Step>, m: Move)
    requires w.Valid(ws) && Threads.Start(s0) && Mirrors(ws, s0, w, es) && Enabled(ws, w, m) && m.act.PutBack?
    ensures Mirrors(ws, s0, Next(ws, w, m), es + Emits(ws, w, m))
  {
    hide Mirrors;
    hide WellFormed;
    hide FrontValues;
    hide BackValues;
    hide Payload;
    hide TraceRecorder.After;
    var top := Last(w.open);
    HalvesJoin(ws, top.sh, w.sh, top.e);
    MirrorsPut(ws, s0, w, es, Next(ws, w, m), Frame(top.e, Joined(top.sh, w.sh), AllPut), BackValues(w.sh, top.e));
  }

  lemma {:induction false} RecordsSnoc(ws: wordsize, ts: seq<Taken>, t: Taken)
    requires AllTaken(ws, ts) && TakenOk(ws, t)
    ensures AllTaken(ws, ts + [t]) && RecordsOf(ws, ts + [t]) == RecordsOf(ws, ts) + [RecordOf(ws, t)]
  {
    hide TakenOk;
    hide RecordOf;
  }

  /** The steps of endCmd, as the log and the thread see them. */
  lemma {:induction false} EndSteps(s0: LogState, es: seq<Threads.Step>, e: Issued)
    requires Threads.Start(s0) && Threads.IsRun(s0, es) && Threads.After(s0, es).owner == Some(e.thr)
    ensures var times := [LL(e.bgn), LL(e.end)];
      var es', v := es + (Writes(e.thr, times) + [Threads.Step(e.thr, Threads.End)]), Threads.Local(e.thr, es);
      && Threads.IsRun(s0, es') && Threads.After(s0, es') == Threads.After(s0, es).PutSeq(times).EndCmd()
      && (v.depth > 1 ==> Threads.Finished(es') == Threads.Finished(es)
                          && Threads.Local(e.thr, es') == v.(depth := v.depth - 1))
      && (v.depth == 1 ==> Threads.Finished(es')
                           == Threads.Finished(es) + [Threads.Record(e.thr, v.cmd, v.vals + times)])
  {
    var times, end := [LL(e.bgn), LL(e.end)], Threads.Step(e.thr, Threads.End);
    WriteAll(s0, es, e.thr, times);
    OneStep(s0, es + Writes(e.thr, times), end);
    Assoc(es, Writes(e.thr, times), [end]);
  }

  /** endCmd of a nested command. */
  lemma {:induction false} MirrorsInner(ws: wordsize, s0: LogState, w: World, es: seq<Threads.Step>, m: Move)
    requires w.Valid(ws) && Threads.Start(s0) && Mirrors(ws, s0, w, es) && Enabled(ws, w, m) && m.act.Close?
    requires |w.open| > 1
    ensures Mirrors(ws, s0, Next(ws, w, m), es + Emits(ws, w, m))
  {
    Threads.OwnerOnlyHolds(s0, es);
    assert Threads.Local(m.thr, es).depth == |w.open|;
    EndSteps(s0, es, Last(w.open).e);
    hide WellFormed;
    hide RecordsOf;
    hide FrontValues;
    hide Payload;
    hide Writes;
    hide TraceRecorder.After;
    hide Threads.Finished;
    hide Threads.Local;
    hide Threads.IsRun;
    hide Threads.After;
    hide PutSoFar;
    var w' := Next(ws, w, m);
    assert w'.open[0] == w.open[0] && w'.done == w.done;
  }

  /** endCmd of an outermost command. */
  lemma {:induction false} MirrorsOuter(ws: wordsize, s0: LogState, w: World, es: seq<Threads.Step>, m: Move)
    requires w.Valid(ws) && Threads.Start(s0) && Mirrors(ws, s0, w, es) && Enabled(ws, w, m) && m.act.Close?
    requires |w.open| == 1
    ensures Mirrors(ws, s0, Next(ws, w, m), es + Emits(ws, w, m))
  {
    var top := w.open[0];
    Threads.OwnerOnlyHolds(s0, es);
    assert Threads.Local(m.thr, es).depth == 1;
    EndSteps(s0, es, top.e);
    RecordsSnoc(ws, w.done, Taken(top.e, top.sh));
    hide WellFormed;
    hide RecordsOf;
    hide FrontValues;
    hide Payload;
    hide Writes;
    hide TraceRecorder.After;
    hide Threads.Finished;
    hide Threads.Local;
    hide Threads.IsRun;
    hide Threads.After;
    var w' := Next(ws, w, m);
    assert w'.open == [] && w'.done == w.done + [Taken(top.e, top.sh)];
  }

  /** Every move of the world is a run of the log. */
  lemma {:induction false} MirrorsNext(ws: wordsize, s0: LogState, w: World, es: seq<Threads.Step>, m: Move)
    requires w.Valid(ws) && Threads.Start(s0) && Mirrors(ws, s0, w, es) && Enabled(ws, w, m)
    ensures Mirrors(ws, s0, Next(ws, w, m), es + Emits(ws, w, m))
  {
    match m.act
    case Open(_) => MirrorsOpen(ws, s0, w, es, m);
    case PutFront => MirrorsFront(ws, s0, w, es, m);
    case PutBack => MirrorsBack(ws, s0, w, es, m);
    case Close =>
      if |w.open| == 1 {
        MirrorsOuter(ws, s0, w, es, m);
      } else {
        MirrorsInner(ws, s0, w, es, m);
      }
    case Settle =>
      assert es + [] == es;
      hide WellFormed;
      hide TraceRecorder.After;
  }

  lemma {:induction false} RunMirrors(ws: wordsize, s0: LogState, ms: seq<Move>)
    requires Lawful(ws, ms) && Threads.Start(s0)
    ensures Mirrors(ws, s0, Reached(ws, ms), Trace(ws, ms))
    decreases |ms|
  {
    hide Enabled;
    hide Emits;
    if ms == [] {
      assert RecordsOf(ws, []) == [];
    } else {
      RunMirrors(ws, s0, Front(ms));
      MirrorsNext(ws, s0, Reached(ws, Front(ms)), Trace(ws, Front(ms)), Last(ms));
      hide Next;
      hide Mirrors;
    }
  }

  lemma {:induction false} WrittenIsLog(ws: wordsize, cur: dword, ts: seq<Taken>)
    requires AllTaken(ws, ts)
    ensures Threads.Written(cur, RecordsOf(ws, ts)) == LogOf(ws, cur, ts)
    decreases |ts|
  {
    hide Body;
    hide Announce;
    hide WellFormed;
    if ts != [] {
      var t, rs := ts[0], RecordsOf(ws, ts);
      assert TakenOk(ws, t);
      Threads.WrittenCons(cur, rs);
      assert rs[0] == RecordOf(ws, t) && rs[1..] == RecordsOf(ws, ts[1..]);
      WrittenIsLog(ws, t.e.thr, ts[1..]);
      Assoc(Announce(cur, t.e.thr, OpOf(t.e.call)), Body(ws, t.sh, t.e), LogOf(ws, t.e.thr, ts[1..]));
    }
  }

  // ---------------------------------------------------------------------------------------------
  // Replaying the log of a run
  // ---------------------------------------------------------------------------------------------

  /** What a run has added to the log. */
  ghost function Logged(ws: wordsize, s0: LogState, ms: seq<Move>): seq<Value>
    requires Lawful(ws, ms) && Threads.Start(s0) && Threads.IsRun(s0, Trace(ws, ms))
  {
    var log := Threads.After(s0, Trace(ws, ms)).log;
    if |s0.log| <= |log| then log[|s0.log|..] else []
  }

  lemma {:induction false} LoggedIsLog(ws: wordsize, s0: LogState, ms: seq<Move>)
    requires Threads.Start(s0) && s0.curThread == 0 && Lawful(ws, ms) && Reached(ws, ms).open == []
    ensures Threads.IsRun(s0, Trace(ws, ms)) && Logged(ws, s0, ms) == LogOf(ws, 0, Reached(ws, ms).done)
  {
    var es, done := Trace(ws, ms), Reached(ws, ms).done;
    RunMirrors(ws, s0, ms);
    Threads.LogExplained(s0, es);
    WrittenIsLog(ws, 0, done);
    hide Lawful;
    hide Reached;
    hide Trace;
    hide LogOf;
    hide Threads.Written;
    hide Threads.Finished;
    hide RecordsOf;
    assert Threads.After(s0, es).log == s0.log + LogOf(ws, 0, done) + [];
  }

  /** The replay reads back the calls of a log, each from its own bytes. */
  ghost predicate ReadsExactly(ws: wordsize, exec: bool, ts: seq<Taken>, frames: int)
    requires AllTaken(ws, ts)
  {
    Readings(ws, InitialReplay(exec), frames, EncAll(ws, LogOf(ws, 0, ts))) == Makings(ws, exec, ts, frames)
  }

  /** The replay gives back the calls of a log. */
  ghost predicate GivesBack(ws: wordsize, exec: bool, ts: seq<Taken>, frames: int)
    requires AllTaken(ws, ts)
  {
    Process(ws, InitialReplay(exec), frames, EncAll(ws, LogOf(ws, 0, ts))).events == Issues(ws, exec, ts, frames)
  }

  /** For every run of any threads, with any nesting and any delay of the shadow updates, that ends outside all
      commands: the log holds the outermost commands in the order in which they released the lock, and replaying
      it reads back exactly these commands, each under its thread and from its own bytes, if and only if every draw
      drew like the shadow state that the logged commands before it make.  If the draws took time, this can be told
      from the replayed commands alone. */
  lemma {:induction false} SharedReplayIff(ws: wordsize, s0: LogState, ms: seq<Move>, exec: bool, frames: int)
    requires Threads.Start(s0) && s0.curThread == 0 && Lawful(ws, ms) && Reached(ws, ms).open == []
    requires SteadyTaken(Reached(ws, ms).done)
    ensures Threads.IsRun(s0, Trace(ws, ms))
    ensures var done := Reached(ws, ms).done;
      var alike := AllAlike(ws, exec, InitialShadow(), done, frames);
      var out := Process(ws, InitialReplay(exec), frames, EncAll(ws, Logged(ws, s0, ms)));
      && Logged(ws, s0, ms) == LogOf(ws, 0, done)
      && (ReadsExactly(ws, exec, done, frames) <==> alike)
      && (alike ==> GivesBack(ws, exec, done, frames))
      && (DrawsTakeTime(done) && GivesBack(ws, exec, done, frames) ==> alike)
      && (frames < 0 && ReplayableTaken(done) && alike ==>
            out.rest == [] && Lockstep(ShadowAfter(ws, InitialShadow(), done), out.st))
  {
    LoggedIsLog(ws, s0, ms);
    ReplayIff(ws, 0, InitialShadow(), InitialReplay(exec), Reached(ws, ms).done, frames);
    hide Process;
    hide Readings;
    hide EncAll;
    hide Issues;
    hide Makings;
    hide AllAlike;
    hide LogOf;
    hide ShadowAfter;
  }
}
