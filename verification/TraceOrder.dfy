/** Runs of threads that share a context and keep the shadow state in the order of the log. */
module TraceOrder {
  import opened Words
  import opened TraceValues
  import opened TraceProtocol
  import opened TraceOpcodes
  import opened TraceRecorder
  import opened TraceReplayer
  import opened TraceRoundTrip
  import opened TraceConcurrent

  /** No thread begins a command while another has yet to update the shadow for its glBindBuffer, and no nested
      command changes the shadow. */
  ghost predicate Orderly(w: World, m: Move) {
    m.act.Open? ==> if w.open == [] then w.late == map[] else !ChangesShadow(m.act.e.call)
  }

  ghost predicate Disciplined(ws: wordsize, ms: seq<Move>)
    requires Lawful(ws, ms)
    decreases |ms|
  {
    ms == [] || (Disciplined(ws, Front(ms)) && Orderly(Reached(ws, Front(ms)), Last(ms)))
  }

  ghost function LogShadow(ws: wordsize, ts: seq<Taken>): (sh: Shadow)
    requires AllTaken(ws, ts)
    ensures sh.Valid()
    decreases |ts|
  {
    if ts == [] then InitialShadow()
    else
      assert TakenOk(ws, Last(ts));
      TraceRecorder.After(ws, LogShadow(ws, Front(ts)), Last(ts).e.call)
  }

  /** Every draw was taken from the shadow state of its place in the log. */
  ghost predicate InPlace(ws: wordsize, ts: seq<Taken>)
    requires AllTaken(ws, ts)
    decreases |ts|
  {
    ts == [] || (InPlace(ws, Front(ts)) && (Last(ts).e.call.DrawElements? ==> Last(ts).sh == LogShadow(ws, Front(ts))))
  }

  /** What an orderly run keeps: at most one late update, and then it is that of the last logged call; otherwise
      the shadow is that of the log, but for the open glVertexAttribPointer. */
  ghost predicate Ordered(ws: wordsize, w: World)
    requires w.Valid(ws)
  {
    && InPlace(ws, w.done)
    && (if w.late != map[] then
          && w.open == [] && w.done != [] && |w.late| == 1
          && w.late == map[Last(w.done).e.thr := Last(w.done).e.call]
          && w.sh == LogShadow(ws, Front(w.done))
        else if w.open != [] && IsOp(w.open[0].e.call, {glVertexAttribPointer}) && w.open[0].stage == AllPut then
          w.sh == TraceRecorder.After(ws, LogShadow(ws, w.done), w.open[0].e.call)
        else w.sh == LogShadow(ws, w.done))
    && (forall i | 1 <= i < |w.open| :: !ChangesShadow(w.open[i].e.call))
    && (w.open != [] && w.open[0].e.call.DrawElements? && w.open[0].stage != Opened ==>
          w.open[0].sh == LogShadow(ws, w.done))
  }

  lemma UnchangedShadow(ws: wordsize, sh: Shadow, c: Call)
    requires sh.Valid() && WellFormed(ws, c) && !ChangesShadow(c)
    ensures TraceRecorder.After(ws, sh, c) == sh
  {
    hide RecorderLayout;
  }

  /** The steps inside an open command. */
  lemma {:induction false} OrderedInside(ws: wordsize, w: World, m: Move)
    requires w.Valid(ws) && Ordered(ws, w) && Enabled(ws, w, m) && Orderly(w, m)
    requires m.act.Open? || m.act.PutFront? || m.act.PutBack?
    ensures Ordered(ws, Next(ws, w, m))
  {
    hide WellFormed;
    hide TraceRecorder.After;
    hide LogShadow;
    hide InPlace;
  }

  /** endCmd of a nested command. */
  lemma {:induction false} OrderedInner(ws: wordsize, w: World, m: Move)
    requires w.Valid(ws) && Ordered(ws, w) && Enabled(ws, w, m) && m.act.Close? && |w.open| > 1
    ensures Ordered(ws, Next(ws, w, m))
  {
    hide WellFormed;
    hide TraceRecorder.After;
    hide LogShadow;
    hide InPlace;
  }

  /** endCmd of an outermost command. */
  lemma {:induction false} OrderedOuter(ws: wordsize, w: World, m: Move)
    requires w.Valid(ws) && Ordered(ws, w) && Enabled(ws, w, m) && m.act.Close? && |w.open| == 1
    ensures Ordered(ws, Next(ws, w, m))
  {
    var t, sh := Taken(w.open[0].e, w.open[0].sh), LogShadow(ws, w.done);
    var c := t.e.call;
    PlacedSnoc(ws, w.done, t);
    if !ChangesShadow(c) {
      UnchangedShadow(ws, sh, c);
    }
    hide WellFormed;
    hide TraceRecorder.After;
    hide LogShadow;
    hide InPlace;
    var w' := Next(ws, w, m);
    assert w'.open == [] && w'.done == w.done + [t];
    assert InPlace(ws, w'.done) && LogShadow(ws, w'.done) == TraceRecorder.After(ws, sh, c);
    if IsOp(c, {glBindBuffer}) {
      assert w'.sh == sh && w'.late == map[m.thr := c];
    } else {
      assert w'.late == map[] && w'.sh == TraceRecorder.After(ws, sh, c);
    }
  }

  lemma {:induction false} PlacedSnoc(ws: wordsize, ts: seq<Taken>, t: Taken)
    requires AllTaken(ws, ts) && TakenOk(ws, t)
    ensures AllTaken(ws, ts + [t]) && Front(ts + [t]) == ts && Last(ts + [t]) == t
    ensures LogShadow(ws, ts + [t]) == TraceRecorder.After(ws, LogShadow(ws, ts), t.e.call)
    ensures InPlace(ws, ts + [t]) <==>
      InPlace(ws, ts) && (t.e.call.DrawElements? ==> t.sh == LogShadow(ws, ts))
  {
    hide WellFormed;
    hide TraceRecorder.After;
    assert Front(ts + [t]) == ts && Last(ts + [t]) == t;
  }

  lemma {:induction false} OrderedSettle(ws: wordsize, w: World, m: Move)
    requires w.Valid(ws) && Ordered(ws, w) && Enabled(ws, w, m) && m.act.Settle?
    ensures Ordered(ws, Next(ws, w, m))
  {
    assert Next(ws, w, m).late == map[];
    hide WellFormed;
    hide TraceRecorder.After;
  }

  lemma {:induction false} OrderedNext(ws: wordsize, w: World, m: Move)
    requires w.Valid(ws) && Ordered(ws, w) && Enabled(ws, w, m) && Orderly(w, m)
    ensures Ordered(ws, Next(ws, w, m))
  {
    hide Ordered;
    hide Next;
    hide WellFormed;
    hide Orderly;
    match m.act
    case Settle => OrderedSettle(ws, w, m);
    case Close =>
      if |w.open| == 1 {
        OrderedOuter(ws, w, m);
      } else {
        OrderedInner(ws, w, m);
      }
    case _ => OrderedInside(ws, w, m);
  }

  lemma {:induction false} DisciplinedIsOrdered(ws: wordsize, ms: seq<Move>)
    requires Lawful(ws, ms) && Disciplined(ws, ms)
    ensures Ordered(ws, Reached(ws, ms))
    decreases |ms|
  {
    hide Ordered;
    hide Enabled;
    hide Next;
    hide Orderly;
    if ms == [] {
      StartIsOrdered(ws);
    } else {
      DisciplinedIsOrdered(ws, Front(ms));
      OrderedNext(ws, Reached(ws, Front(ms)), Last(ms));
    }
  }

  lemma StartIsOrdered(ws: wordsize)
    ensures START.Valid(ws) && Ordered(ws, START)
  {
  }

  lemma {:induction false} InPlaceAt(ws: wordsize, ts: seq<Taken>, i: nat)
    requires AllTaken(ws, ts) && InPlace(ws, ts) && i < |ts|
    ensures TakenOk(ws, ts[i]) && AllTaken(ws, ts[..i]) && AllTaken(ws, ts[..i + 1])
    ensures ts[i].e.call.DrawElements? ==> ts[i].sh == LogShadow(ws, ts[..i])
    ensures LogShadow(ws, ts[..i + 1]) == TraceRecorder.After(ws, LogShadow(ws, ts[..i]), ts[i].e.call)
    decreases |ts|
  {
    hide WellFormed;
    hide TraceRecorder.After;
    assert Front(ts[..i + 1]) == ts[..i] && Last(ts[..i + 1]) == ts[i];
    if i == |ts| - 1 {
      assert Front(ts) == ts[..i];
    } else {
      InPlaceAt(ws, Front(ts), i);
      assert Front(ts)[..i] == ts[..i] && Front(ts)[..i + 1] == ts[..i + 1];
    }
  }

  /** Draws in their place draw alike. */
  lemma {:induction false} InPlaceIsAlike(ws: wordsize, exec: bool, ts: seq<Taken>, i: nat, frames: int)
    requires AllTaken(ws, ts) && InPlace(ws, ts) && i <= |ts| && AllTaken(ws, ts[..i])
    ensures AllAlike(ws, exec, LogShadow(ws, ts[..i]), ts[i..], frames)
    decreases |ts| - i
  {
    hide WellFormed;
    hide TraceRecorder.After;
    hide EventOf;
    hide InPlace;
    hide LogShadow;
    if i < |ts| && Replayable(ts[i].e.call) {
      InPlaceAt(ws, ts, i);
      var ev := EventOf(ws, exec, ts[i].sh, ts[i].e.mem, ts[i].e.call);
      InPlaceIsAlike(ws, exec, ts, i + 1, if IsSwap(ev) then frames - 1 else frames);
      assert ts[i..][1..] == ts[i + 1..];
    }
  }

  lemma {:induction false} ShadowSnoc(ws: wordsize, sh: Shadow, ts: seq<Taken>, t: Taken)
    requires sh.Valid() && AllTaken(ws, ts) && TakenOk(ws, t) && AllTaken(ws, ts + [t])
    ensures ShadowAfter(ws, sh, ts + [t]) == TraceRecorder.After(ws, ShadowAfter(ws, sh, ts), t.e.call)
    decreases |ts|
  {
    hide WellFormed;
    hide TraceRecorder.After;
    if ts == [] {
      assert ts + [t] == [t] && [t][1..] == [];
      assert TakenOk(ws, [t][0]);
    } else {
      assert TakenOk(ws, ts[0]) && (ts + [t])[0] == ts[0] && (ts + [t])[1..] == ts[1..] + [t];
      ShadowSnoc(ws, TraceRecorder.After(ws, sh, ts[0].e.call), ts[1..], t);
    }
  }

  lemma {:induction false} LogShadowIs(ws: wordsize, ts: seq<Taken>)
    requires AllTaken(ws, ts)
    ensures LogShadow(ws, ts) == ShadowAfter(ws, InitialShadow(), ts)
    decreases |ts|
  {
    hide WellFormed;
    hide TraceRecorder.After;
    if ts != [] {
      assert TakenOk(ws, Last(ts)) && Front(ts) + [Last(ts)] == ts;
      LogShadowIs(ws, Front(ts));
      ShadowSnoc(ws, InitialShadow(), Front(ts), Last(ts));
    }
  }

  /** In every disciplined run that ends outside all commands, the replay reads back exactly the outermost commands,
      each under its thread and from its own bytes; replayed to the end, it uses up the log and ends in the shadow
      state of the recorder. */
  lemma {:induction false} InterleavedReplay(ws: wordsize, s0: LogState, ms: seq<Move>, exec: bool, frames: int)
    requires Threads.Start(s0) && s0.curThread == 0 && Lawful(ws, ms) && Reached(ws, ms).open == []
    requires Disciplined(ws, ms) && SteadyTaken(Reached(ws, ms).done)
    ensures Threads.IsRun(s0, Trace(ws, ms)) && Logged(ws, s0, ms) == LogOf(ws, 0, Reached(ws, ms).done)
    ensures ReadsExactly(ws, exec, Reached(ws, ms).done, frames) && GivesBack(ws, exec, Reached(ws, ms).done, frames)
    ensures var w := Reached(ws, ms);
      var out := Process(ws, InitialReplay(exec), frames, EncAll(ws, Logged(ws, s0, ms)));
      frames < 0 && ReplayableTaken(w.done) ==> out.rest == [] && (w.late == map[] ==> Lockstep(w.sh, out.st))
  {
    var w := Reached(ws, ms);
    SharedReplayIff(ws, s0, ms, exec, frames);
    DisciplinedIsOrdered(ws, ms);
    assert w.done[0..] == w.done && w.done[..0] == [];
    InPlaceIsAlike(ws, exec, w.done, 0, frames);
    LogShadowIs(ws, w.done);
    hide Process;
    hide EncAll;
    hide AllAlike;
    hide ReadsExactly;
    hide GivesBack;
    hide LogOf;
    hide Lockstep;
    hide ShadowAfter;
  }

  lemma {:induction false} InPlacePrefix(ws: wordsize, ts: seq<Taken>, k: nat)
    requires AllTaken(ws, ts) && InPlace(ws, ts) && k <= |ts|
    ensures AllTaken(ws, ts[..k]) && InPlace(ws, ts[..k])
    decreases |ts|
  {
    hide TakenOk;
    hide LogShadow;
    if k == |ts| {
      assert ts[..k] == ts;
    } else {
      InPlacePrefix(ws, Front(ts), k);
      assert Front(ts)[..k] == ts[..k];
    }
  }

  /** Disciplined runs of any calls at all: up to the first float pointer that is out of step the replay is exact. */
  lemma {:induction false} InterleavedPrefix(ws: wordsize, s0: LogState, ms: seq<Move>, exec: bool, k: nat, frames: int)
    requires Threads.Start(s0) && s0.curThread == 0 && Lawful(ws, ms) && Reached(ws, ms).open == []
    requires Disciplined(ws, ms) && k <= |Reached(ws, ms).done| && SteadyTaken(Reached(ws, ms).done[..k])
    ensures Threads.IsRun(s0, Trace(ws, ms)) && AllTaken(ws, Reached(ws, ms).done[..k])
    ensures Issues(ws, exec, Reached(ws, ms).done[..k], frames)
         <= Process(ws, InitialReplay(exec), frames, EncAll(ws, Logged(ws, s0, ms))).events
  {
    var done := Reached(ws, ms).done;
    LoggedIsLog(ws, s0, ms);
    DisciplinedIsOrdered(ws, ms);
    InPlacePrefix(ws, done, k);
    assert done[..k][0..] == done[..k] && done[..k][..0] == [];
    InPlaceIsAlike(ws, exec, done[..k], 0, frames);
    hide Process;
    hide EncAll;
    hide AllAlike;
    hide Issues;
    hide LogOf;
    hide Reached;
    hide Lawful;
    ReplayPrefix(ws, 0, InitialShadow(), InitialReplay(exec), done, k, frames);
  }
}
