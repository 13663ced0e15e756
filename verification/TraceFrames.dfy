/** The frame limit of retrace.c's `process`, in terms of opcodes alone: it stops behind the frames-th eglSwapBuffers. */
module TraceFrames {
  import opened Words
  import opened TraceValues
  import opened TraceOpcodes
  import opened TraceRecorder
  import opened TraceReplayer

  /** The opcode of a decoded command. */
  function EventOp(e: Event): word {
    match e
    case EFixed(op, _) => op
    case EIdList(op, _, _) => op
    case EShaderSource(_, _, _) => glShaderSource
    case EActiveUniform(_, _, _, _, _, _) => glGetActiveUniform
    case EEglCreate(op, _, _, _) => op
    case EDrawElements(_, _, _, _, _) => glDrawElements
  }

  predicate EndsFrame(e: Replayed) {
    EventOp(e.event) == eglSwapBuffers
  }

  /** How many frames have ended. */
  function Swaps(events: seq<Replayed>): nat {
    if events == [] then 0 else (if EndsFrame(events[0]) then 1 else 0) + Swaps(events[1..])
  }

  /** `some` is what `all` comes to under a limit of `frames` frames: everything, if fewer frames end in it, and
      otherwise everything up to the end of the last frame. */
  ghost predicate Limited(some: seq<Replayed>, all: seq<Replayed>, frames: nat) {
    && some <= all && Swaps(some) <= frames
    && (some != all ==> Swaps(some) == frames)
    && (Swaps(some) == frames > 0 ==> EndsFrame(Last(some)))
    && (frames == 0 ==> some == [])
  }

  lemma {:induction false} SwapsCons(e: Replayed, more: seq<Replayed>)
    ensures Swaps([e] + more) == (if EndsFrame(e) then 1 else 0) + Swaps(more)
  {
    assert ([e] + more)[1..] == more;
  }

  lemma {:induction false} LimitedCons(e: Replayed, some: seq<Replayed>, all: seq<Replayed>, frames: nat)
    requires frames > 0 && Limited(some, all, if EndsFrame(e) then frames - 1 else frames)
    ensures Limited([e] + some, [e] + all, frames)
  {
    SwapsCons(e, some);
    SameTail(e, some, all);
    if some != [] {
      assert Last([e] + some) == Last(some);
    } else {
      assert [e] + some == [e] && Last([e]) == e;
    }
  }

  /** The replayer counts the commands whose opcode ends a frame. */
  lemma {:induction false} DecodedOp(ws: wordsize, st: Replay, op: word, rest: seq<byte>)
    ensures var r := GetEvent(ws, st, op, rest);
      r.Read? && r.value.Some? ==>
        EventOp(r.value.value) == op && (IsSwap(r.value.value) <==> op == eglSwapBuffers)
  {
    hide GetDrawElements;
    hide GetParts;
    hide GetInts;
    hide DecAll;
    hide ReplayerLayout;
    DrawIsDraw(ws, st, rest);
    UniformIsUniform(ws, rest);
    CreateIsCreate(ws, op, rest);
    hide GetEglCreate;
    hide GetActiveUniform;
  }

  lemma {:induction false} DrawIsDraw(ws: wordsize, st: Replay, rest: seq<byte>)
    ensures var r := GetDrawElements(ws, st, rest); r.Read? ==> r.value.EDrawElements?
  {
  }

  lemma {:induction false} UniformIsUniform(ws: wordsize, rest: seq<byte>)
    ensures var r := GetActiveUniform(ws, rest); r.Read? ==> r.value.EActiveUniform?
  {
  }

  lemma {:induction false} CreateIsCreate(ws: wordsize, op: word, rest: seq<byte>)
    ensures var r := GetEglCreate(ws, op, rest);
      r.Read? && r.value.Some? ==> r.value.value.EEglCreate? && r.value.value.op == op
  {
  }

  lemma {:induction false} TurnOp(ws: wordsize, st: Replay, rest: seq<byte>)
    requires st.Valid()
    ensures var turn := Turn(ws, st, rest); turn.Some? ==> (IsSwap(turn.value.0.event) <==> EndsFrame(turn.value.0))
  {
    var (st1, op, r) := GetOpcode(ws, st, rest);
    DecodedOp(ws, st1, op, r);
    hide GetEvent;
    hide GetOpcode;
    hide Advance;
  }

  /** A negative limit is none. */
  lemma {:induction false} NoLimit(ws: wordsize, st: Replay, frames: int, rest: seq<byte>)
    requires st.Valid() && frames < 0
    ensures Process(ws, st, frames, rest) == Process(ws, st, -1, rest)
    decreases |rest|
  {
    hide Process;
    hide Turn;
    ProcessSteps(ws, st, frames, rest);
    ProcessSteps(ws, st, -1, rest);
    var turn := Turn(ws, st, rest);
    if turn.Some? {
      var (e, st1, r) := turn.value;
      NoLimit(ws, st1, if IsSwap(e.event) then frames - 1 else frames, r);
      NoLimit(ws, st1, if IsSwap(e.event) then -2 else -1, r);
    }
  }

  /** Replaying any bytes with a limit gives what replaying them without one gives, up to the end of that frame. */
  lemma {:induction false} FrameLimit(ws: wordsize, st: Replay, frames: nat, rest: seq<byte>)
    requires st.Valid()
    ensures Limited(Process(ws, st, frames, rest).events, Process(ws, st, -1, rest).events, frames)
    decreases |rest|
  {
    hide Process;
    hide Turn;
    hide Limited;
    ProcessSteps(ws, st, frames, rest);
    ProcessSteps(ws, st, -1, rest);
    TurnOp(ws, st, rest);
    var turn := Turn(ws, st, rest);
    if frames == 0 {
      NothingIsLimited(Process(ws, st, -1, rest).events);
    } else if turn.None? {
      AllIsLimited([], frames);
    } else {
      var (e, st1, r) := turn.value;
      FrameLimit(ws, st1, if IsSwap(e.event) then frames - 1 else frames, r);
      NoLimit(ws, st1, if IsSwap(e.event) then -2 else -1, r);
      LimitedCons(e, Process(ws, st1, if IsSwap(e.event) then frames - 1 else frames, r).events,
                  Process(ws, st1, -1, r).events, frames);
    }
  }

  lemma NothingIsLimited(all: seq<Replayed>)
    ensures Limited([], all, 0)
  {
  }

  lemma AllIsLimited(all: seq<Replayed>, frames: nat)
    requires Swaps(all) < frames
    ensures Limited(all, all, frames)
  {
  }

  lemma {:induction false} MadeOp(ws: wordsize, exec: bool, t: Taken)
    requires TakenOk(ws, t)
    ensures var ev := EventOf(ws, exec, t.sh, t.e.mem, t.e.call);
      EventOp(ev) == OpOf(t.e.call) && (IsSwap(ev) <==> OpOf(t.e.call) == eglSwapBuffers)
  {
    hide SeenAll;
    hide SeenArrays;
  }

  lemma {:induction false} IssuesNoLimit(ws: wordsize, exec: bool, ts: seq<Taken>, frames: int)
    requires AllTaken(ws, ts) && frames < 0
    ensures Issues(ws, exec, ts, frames) == Issues(ws, exec, ts, -1)
    decreases |ts|
  {
    hide EventOf;
    hide Replayable;
    if ts != [] && Replayable(ts[0].e.call) {
      assert TakenOk(ws, ts[0]);
      var ev := EventOf(ws, exec, ts[0].sh, ts[0].e.mem, ts[0].e.call);
      IssuesNoLimit(ws, exec, ts[1..], if IsSwap(ev) then frames - 1 else frames);
      IssuesNoLimit(ws, exec, ts[1..], if IsSwap(ev) then -2 else -1);
    }
  }

  /** The recorded calls under a limit are those up to the end of that frame. */
  lemma {:induction false} IssuesLimit(ws: wordsize, exec: bool, ts: seq<Taken>, frames: nat)
    requires AllTaken(ws, ts)
    ensures Limited(Issues(ws, exec, ts, frames), Issues(ws, exec, ts, -1), frames)
    decreases |ts|
  {
    hide EventOf;
    hide Replayable;
    hide Limited;
    if frames == 0 {
      NothingIsLimited(Issues(ws, exec, ts, -1));
    } else if ts == [] || !Replayable(ts[0].e.call) {
      AllIsLimited([], frames);
    } else {
      assert TakenOk(ws, ts[0]);
      var e := ts[0].e;
      var ev := EventOf(ws, exec, ts[0].sh, e.mem, e.call);
      MadeOp(ws, exec, ts[0]);
      var frames' := if IsSwap(ev) then frames - 1 else frames;
      IssuesLimit(ws, exec, ts[1..], frames');
      IssuesNoLimit(ws, exec, ts[1..], if IsSwap(ev) then -2 else -1);
      LimitedCons(Replayed(SeenPtr(ws, e.thr), ev, e.bgn, e.end), Issues(ws, exec, ts[1..], frames'),
                  Issues(ws, exec, ts[1..], -1), frames);
    }
  }
}
