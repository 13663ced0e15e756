/** Runs of threads that share a context and whose log is misread. */
module TraceRaces {
  import opened Words
  import opened TraceValues
  import opened TraceProtocol
  import opened TraceOpcodes
  import opened TraceRecorder
  import opened TraceReplayer
  import opened TraceConcurrent

  lemma {:induction false} OneMove(ws: wordsize, ms: seq<Move>, m: Move)
    requires Lawful(ws, ms) && Enabled(ws, Reached(ws, ms), m)
    ensures Lawful(ws, ms + [m]) && Reached(ws, ms + [m]) == Next(ws, Reached(ws, ms), m)
  {
    hide Enabled;
    hide Next;
    assert Front(ms + [m]) == ms && Last(ms + [m]) == m;
  }

  /** A command up to the call of the original function, and on to endCmd. */
  function Entering(e: Issued): seq<Move> {
    [Move(e.thr, Open(e)), Move(e.thr, PutFront), Move(e.thr, PutBack)]
  }

  function Whole(e: Issued): seq<Move> {
    Entering(e) + [Move(e.thr, Close)]
  }

  predicate Immediate(c: Call) {
    IsOp(c, {glVertexAttribPointer, glEnableVertexAttribArray, glDisableVertexAttribArray})
  }

  ghost predicate MayEnter(ws: wordsize, w: World, e: Issued) {
    && e.thr !in w.late && (w.open != [] ==> w.open[0].e.thr == e.thr)
    && Recordable(ws, w.sh, e.call) && !Immediate(e.call)
  }

  lemma {:induction false} OpenMove(ws: wordsize, ms: seq<Move>, e: Issued)
    requires Lawful(ws, ms) && MayEnter(ws, Reached(ws, ms), e)
    ensures Lawful(ws, ms + [Move(e.thr, Open(e))])
    ensures var w := Reached(ws, ms);
      Reached(ws, ms + [Move(e.thr, Open(e))]) == w.(open := w.open + [Frame(e, w.sh, Opened)])
  {
    hide WellFormed;
    hide Lawful;
    hide Reached;
    OneMove(ws, ms, Move(e.thr, Open(e)));
  }

  /** The two halves of the payload, from the same shadow state. */
  lemma {:induction false} PutMoves(ws: wordsize, ms: seq<Move>, w: World, e: Issued)
    requires Lawful(ws, ms) && MayEnter(ws, w, e)
    requires Reached(ws, ms) == w.(open := w.open + [Frame(e, w.sh, Opened)])
    ensures var ms' := ms + [Move(e.thr, PutFront)] + [Move(e.thr, PutBack)];
      Lawful(ws, ms') && Reached(ws, ms') == w.(open := w.open + [Frame(e, w.sh, AllPut)])
  {
    hide WellFormed;
    hide Lawful;
    hide Reached;
    OneMove(ws, ms, Move(e.thr, PutFront));
    var ms' := ms + [Move(e.thr, PutFront)];
    assert Reached(ws, ms') == w.(open := w.open + [Frame(e, w.sh, HalfPut)]);
    OneMove(ws, ms', Move(e.thr, PutBack));
  }

  lemma {:induction false} EnterCommand(ws: wordsize, ms: seq<Move>, e: Issued)
    requires Lawful(ws, ms) && MayEnter(ws, Reached(ws, ms), e)
    ensures Lawful(ws, ms + Entering(e))
    ensures var w := Reached(ws, ms); Reached(ws, ms + Entering(e)) == w.(open := w.open + [Frame(e, w.sh, AllPut)])
  {
    hide MayEnter;
    hide Lawful;
    hide Reached;
    var w, ms' := Reached(ws, ms), ms + [Move(e.thr, Open(e))];
    OpenMove(ws, ms, e);
    PutMoves(ws, ms', w, e);
    assert ms' + [Move(e.thr, PutFront)] + [Move(e.thr, PutBack)] == ms + Entering(e);
  }

  /** Where a whole command leads that does not change the attributes. */
  ghost function Through(w: World, e: Issued): World {
    World(w.sh, w.open,
          if IsOp(e.call, {glBindBuffer}) then w.late[e.thr := e.call] else w.late,
          if w.open == [] then w.done + [Taken(e, w.sh)] else w.done)
  }

  lemma {:induction false} WholeCommand(ws: wordsize, ms: seq<Move>, e: Issued)
    requires Lawful(ws, ms) && MayEnter(ws, Reached(ws, ms), e)
    ensures Lawful(ws, ms + Whole(e)) && Reached(ws, ms + Whole(e)) == Through(Reached(ws, ms), e)
  {
    hide WellFormed;
    hide Lawful;
    hide Reached;
    var w := Reached(ws, ms);
    EnterCommand(ws, ms, e);
    assert Front(w.open + [Frame(e, w.sh, AllPut)]) == w.open;
    OneMove(ws, ms + Entering(e), Move(e.thr, Close));
    Assoc(ms, Entering(e), [Move(e.thr, Close)]);
  }

  /** The late update. */
  lemma {:induction false} SettleMove(ws: wordsize, ms: seq<Move>, thr: dword)
    requires Lawful(ws, ms) && thr in Reached(ws, ms).late
    ensures Lawful(ws, ms + [Move(thr, Settle)]) && WellFormed(ws, Reached(ws, ms).late[thr])
    ensures var w := Reached(ws, ms);
      Reached(ws, ms + [Move(thr, Settle)])
      == World(TraceRecorder.After(ws, w.sh, w.late[thr]), w.open, w.late - {thr}, w.done)
  {
    hide WellFormed;
    hide TraceRecorder.After;
    hide Lawful;
    hide Reached;
    OneMove(ws, ms, Move(thr, Settle));
  }

  /** endCmd of a plain outermost command. */
  lemma {:induction false} CloseMove(ws: wordsize, ms: seq<Move>, f: Frame)
    requires Lawful(ws, ms) && Reached(ws, ms).open == [f] && Reached(ws, ms).late == map[]
    requires f.stage == AllPut && !ChangesShadow(f.e.call)
    ensures Lawful(ws, ms + [Move(f.e.thr, Close)])
    ensures var w := Reached(ws, ms);
      Reached(ws, ms + [Move(f.e.thr, Close)]) == World(w.sh, [], map[], w.done + [Taken(f.e, f.sh)])
  {
    hide WellFormed;
    hide TraceRecorder.After;
    hide Lawful;
    hide Reached;
    OneMove(ws, ms, Move(f.e.thr, Close));
  }

  /** glBindBuffer(GL_ELEMENT_ARRAY_BUFFER, buffer) */
  function BindElements(buffer: word): Call {
    Fixed(glBindBuffer, [I(GL_ELEMENT_ARRAY_BUFFER), I(buffer)])
  }

  lemma BindIsRecordable(ws: wordsize, sh: Shadow, buffer: word)
    ensures Recordable(ws, sh, BindElements(buffer)) && Replayable(BindElements(buffer)) && Steady(BindElements(buffer))
    ensures sh.Valid() ==> TraceRecorder.After(ws, sh, BindElements(buffer)) == sh.(elementBinding := buffer)
  {
    var args := [I(GL_ELEMENT_ARRAY_BUFFER), I(buffer)];
    assert args[1..] == [I(buffer)] && [I(buffer)][1..] == [];
    assert Kinds([I(buffer)]) == [KI];
    assert Kinds(args) == [KI, KI];
  }

  /** The race: one thread binds an element buffer and, before it has updated the shadow, another thread draws. */
  function Race(bind: Issued, draw: Issued): seq<Move> {
    Whole(bind) + Whole(draw) + [Move(bind.thr, Settle)]
  }

  lemma {:induction false} RaceBind(ws: wordsize, bind: Issued, buffer: word)
    requires bind.call == BindElements(buffer)
    ensures var sh := InitialShadow();
      && Lawful(ws, Whole(bind))
      && Reached(ws, Whole(bind)) == World(sh, [], map[bind.thr := bind.call], [Taken(bind, sh)])
  {
    BindIsRecordable(ws, InitialShadow(), buffer);
    assert [] + Whole(bind) == Whole(bind) && Reached(ws, []) == START;
    hide Recordable;
    hide TraceRecorder.After;
    hide Reached;
    hide Lawful;
    hide Whole;
    WholeCommand(ws, [], bind);
  }

  lemma {:induction false} RaceReaches(ws: wordsize, bind: Issued, draw: Issued, buffer: word)
    requires bind.thr != draw.thr && bind.call == BindElements(buffer)
    requires Recordable(ws, InitialShadow(), draw.call) && draw.call.DrawElements?
    ensures Lawful(ws, Race(bind, draw))
    ensures var w := Reached(ws, Race(bind, draw));
      w.open == [] && w.late == map[] && w.done == [Taken(bind, InitialShadow())] + [Taken(draw, InitialShadow())]
  {
    RaceBind(ws, bind, buffer);
    hide Recordable;
    hide TraceRecorder.After;
    hide Reached;
    hide Lawful;
    hide Whole;
    hide BindElements;
    WholeCommand(ws, Whole(bind), draw);
    SettleMove(ws, Whole(bind) + Whole(draw), bind.thr);
  }

  /** A draw behind one other call. */
  lemma {:induction false} TwoAlikeIff(ws: wordsize, exec: bool, first: Taken, draw: Taken, frames: int)
    requires TakenOk(ws, first) && TakenOk(ws, draw) && frames != 0
    requires Replayable(first.e.call) && !IsOp(first.e.call, {eglSwapBuffers}) && draw.e.call.DrawElements?
    requires !first.e.call.DrawElements?
    ensures AllTaken(ws, [first] + [draw])
    ensures AllAlike(ws, exec, InitialShadow(), [first] + [draw], frames) <==>
      SameDraws(ws, exec, draw.sh, TraceRecorder.After(ws, InitialShadow(), first.e.call), draw.e.call)
  {
    var ts, sh := [first] + [draw], TraceRecorder.After(ws, InitialShadow(), first.e.call);
    assert ts[0] == first && ts[1..] == [draw];
    hide WellFormed;
    hide TraceRecorder.After;
    hide SameDraws;
    assert AllTaken(ws, ts) && AllTaken(ws, ts[1..]);
    assert [draw][1..] == [] && AllTaken(ws, [draw][1..]);
    assert AllAlike(ws, exec, sh, [draw], frames) <==> SameDraws(ws, exec, draw.sh, sh, draw.e.call);
  }

  /** A run that logs a call and then a draw under another element binding than the log makes. */
  ghost predicate Clash(ws: wordsize, first: Taken, draw: Taken)
    requires TakenOk(ws, first)
  {
    var sh := TraceRecorder.After(ws, InitialShadow(), first.e.call);
    && TakenOk(ws, draw) && draw.e.call.DrawElements? && !first.e.call.DrawElements?
    && Replayable(first.e.call) && Steady(first.e.call) && !IsOp(first.e.call, {eglSwapBuffers})
    && (draw.sh.elementBinding == 0) != (sh.elementBinding == 0)
    && draw.sh.arrayBinding == sh.arrayBinding && draw.sh.attribs == sh.attribs
  }

  /** Such a run is replayed exactly if and only if pointers have 4 bytes and the index word is zero. */
  ghost predicate ReplayedIff(ws: wordsize, ms: seq<Move>, exec: bool, draw: Taken, frames: int)
    requires Lawful(ws, ms) && draw.e.call.DrawElements?
  {
    var done, harmless := Reached(ws, ms).done, ws == 4 && ZeroIndices(ws, draw.sh, draw.e.call);
    && (ReadsExactly(ws, exec, done, frames) <==> harmless)
    && (draw.e.bgn != draw.e.end ==> (GivesBack(ws, exec, done, frames) <==> harmless))
  }

  lemma {:induction false} ClashIff(ws: wordsize, s0: LogState, ms: seq<Move>, first: Taken, draw: Taken,
                                    exec: bool, frames: int)
    requires Threads.Start(s0) && s0.curThread == 0 && frames != 0
    requires Lawful(ws, ms) && Reached(ws, ms).open == [] && Reached(ws, ms).done == [first] + [draw]
    requires TakenOk(ws, first) && Clash(ws, first, draw)
    ensures ReplayedIff(ws, ms, exec, draw, frames)
  {
    hide ReadsExactly;
    hide GivesBack;
    hide Process;
    hide EncAll;
    hide AllAlike;
    hide Reached;
    hide Lawful;
    hide Trace;
    hide WellFormed;
    hide TraceRecorder.After;
    hide ZeroIndices;
    TwoAlikeIff(ws, exec, first, draw, frames);
    SharedReplayIff(ws, s0, ms, exec, frames);
  }

  /** The race is replayed exactly if and only if pointers have 4 bytes and the index word is zero, whatever the two
      threads, the buffer and the draw. */
  lemma {:induction false} RaceIff(ws: wordsize, s0: LogState, bind: Issued, draw: Issued, buffer: word,
                                   exec: bool, frames: int)
    requires Threads.Start(s0) && s0.curThread == 0 && frames != 0
    requires bind.thr != draw.thr && bind.call == BindElements(buffer) && buffer != 0
    requires Recordable(ws, InitialShadow(), draw.call) && draw.call.DrawElements?
    ensures Lawful(ws, Race(bind, draw)) && Reached(ws, Race(bind, draw)).open == []
    ensures ReplayedIff(ws, Race(bind, draw), exec, Taken(draw, InitialShadow()), frames)
  {
    var sh := InitialShadow();
    RaceReaches(ws, bind, draw, buffer);
    BindIsRecordable(ws, sh, buffer);
    hide ReplayedIff;
    hide Recordable;
    hide TraceRecorder.After;
    hide Reached;
    hide Lawful;
    ClashIff(ws, s0, Race(bind, draw), Taken(bind, sh), Taken(draw, sh), exec, frames);
  }

  /** The same buffer bound inside another call. */
  function Nested(outer: Issued, bind: Issued): seq<Move> {
    Entering(outer) + Whole(bind) + [Move(outer.thr, Settle)] + [Move(outer.thr, Close)]
  }

  lemma FlushIsPlain(ws: wordsize, sh: Shadow)
    ensures var c := Fixed(glFlush, []);
      && Recordable(ws, sh, c) && Replayable(c) && Steady(c) && !ChangesShadow(c) && !Immediate(c)
      && (sh.Valid() ==> TraceRecorder.After(ws, sh, c) == sh)
  {
  }

  lemma {:induction false} NestedBind(ws: wordsize, outer: Issued, bind: Issued, buffer: word)
    requires outer.call == Fixed(glFlush, []) && bind.thr == outer.thr && bind.call == BindElements(buffer)
    ensures var ms, sh := Entering(outer) + Whole(bind), InitialShadow();
      && Lawful(ws, ms)
      && Reached(ws, ms) == World(sh, [Frame(outer, sh, AllPut)], map[bind.thr := bind.call], [])
  {
    var sh := InitialShadow();
    BindIsRecordable(ws, sh, buffer);
    FlushIsPlain(ws, sh);
    assert Reached(ws, []) == START;
    assert [] + Entering(outer) == Entering(outer) && [] + [Frame(outer, sh, AllPut)] == [Frame(outer, sh, AllPut)];
    hide Recordable;
    hide TraceRecorder.After;
    hide Lawful;
    hide Reached;
    hide Entering;
    hide Whole;
    EnterCommand(ws, [], outer);
    WholeCommand(ws, Entering(outer), bind);
  }

  lemma {:induction false} NestedReaches(ws: wordsize, outer: Issued, bind: Issued, buffer: word)
    requires outer.call == Fixed(glFlush, []) && bind.thr == outer.thr && bind.call == BindElements(buffer)
    ensures Lawful(ws, Nested(outer, bind))
    ensures Reached(ws, Nested(outer, bind))
         == World(InitialShadow().(elementBinding := buffer), [], map[], [Taken(outer, InitialShadow())])
  {
    var ms, sh := Entering(outer) + Whole(bind), InitialShadow();
    NestedBind(ws, outer, bind, buffer);
    BindIsRecordable(ws, sh, buffer);
    FlushIsPlain(ws, sh);
    hide Recordable;
    hide WellFormed;
    hide TraceRecorder.After;
    hide Lawful;
    hide Reached;
    hide Entering;
    hide Whole;
    SettleMove(ws, ms, outer.thr);
    CloseMove(ws, ms + [Move(outer.thr, Settle)], Frame(outer, sh, AllPut));
  }

  /** A buffer bound inside another call is not logged, so the next draw is misread, even by a single thread, unless
      pointers have 4 bytes and the pointer is NULL. */
  lemma {:induction false} NestedIff(ws: wordsize, s0: LogState, outer: Issued, bind: Issued, draw: Issued,
                                     buffer: word, exec: bool, frames: int)
    requires Threads.Start(s0) && s0.curThread == 0 && frames != 0 && buffer != 0
    requires outer.call == Fixed(glFlush, []) && bind.thr == outer.thr && bind.call == BindElements(buffer)
    requires draw.call.DrawElements?
    ensures var ms := Nested(outer, bind) + Whole(draw);
      && Lawful(ws, ms) && Reached(ws, ms).open == []
      && ReplayedIff(ws, ms, exec, Taken(draw, InitialShadow().(elementBinding := buffer)), frames)
  {
    var sh := InitialShadow();
    var sh' := sh.(elementBinding := buffer);
    NestedReaches(ws, outer, bind, buffer);
    FlushIsPlain(ws, sh);
    assert Recordable(ws, sh', draw.call);
    hide WellFormed;
    hide ReplayedIff;
    hide Recordable;
    hide TraceRecorder.After;
    hide Reached;
    hide Lawful;
    hide Whole;
    hide Nested;
    WholeCommand(ws, Nested(outer, bind), draw);
    ClashIff(ws, s0, Nested(outer, bind) + Whole(draw), Taken(outer, sh), Taken(draw, sh'), exec, frames);
  }
}
