/** A whole session: record any sequence of calls through the chunked writer, close the file, open it
    and replay it. */
module TraceSession {
  import opened Words
  import opened TraceValues
  import opened TraceProtocol
  import opened TraceRecorder
  import opened TraceWriter
  import opened TraceGl
  import opened TraceReplayer
  import opened TraceReader
  import opened TraceRetrace
  import opened TracePayloads
  import opened TraceRoundTrip
  import Threads = TraceThreads

  lemma {:induction false} HeaderReadsBack(ws: wordsize, vs: seq<Value>)
    ensures GetInts(5, EncAll(ws, Header(ws) + vs))
         == Read([OPC_VERSION, VERSION_MAJOR, VERSION_MINOR, VERSION_REV, ws], EncAll(ws, vs))
  {
    var ints := [OPC_VERSION, VERSION_MAJOR, VERSION_MINOR, VERSION_REV, ws];
    HeaderInts(ws);
    IntsReadBack(ws, ints, vs, []);
    assert EncAll(ws, Header(ws) + vs) + [] == EncAll(ws, Header(ws) + vs);
    assert EncAll(ws, vs) + [] == EncAll(ws, vs);
  }

  lemma {:induction false} HeaderInts(ws: wordsize)
    ensures Ints([OPC_VERSION, VERSION_MAJOR, VERSION_MINOR, VERSION_REV, ws]) == Header(ws)
  {
    var ints := [OPC_VERSION, VERSION_MAJOR, VERSION_MINOR, VERSION_REV, ws];
    assert Ints(ints[4..]) == [I(ints[4])];
    assert Ints(ints[3..]) == [I(ints[3])] + Ints(ints[3..][1..]) && ints[3..][1..] == ints[4..];
    assert Ints(ints[2..]) == [I(ints[2])] + Ints(ints[2..][1..]) && ints[2..][1..] == ints[3..];
    assert Ints(ints[1..]) == [I(ints[1])] + Ints(ints[1..][1..]) && ints[1..][1..] == ints[2..];
  }

  /** The recorder's loop over a run: the file holds the header and the recording. */
  method RecordRun(ws: wordsize, run: seq<Issued>) returns (file: seq<byte>)
    requires AllRecordable(ws, InitialShadow(), run)
    ensures file == EncAll(ws, Header(ws) + Recording(ws, 0, InitialShadow(), run))
  {
    hide EncAll;
    hide Body;
    hide After;
    hide Recordable;
    hide Announce;
    var w := new Writer(ws);
    w.Init();
    var g := new GlRecorder(w);
    ghost var all := Recording(ws, 0, InitialShadow(), run);
    var i := 0;
    assert run[0..] == run;
    while i < |run|
      invariant 0 <= i <= |run|
      invariant g.Valid() && fresh(w.chunk) && w.owner == None
      invariant AllRecordable(ws, g.Abs(), run[i..])
      invariant w.vals + Recording(ws, w.curThread, g.Abs(), run[i..]) == Header(ws) + all
    {
      var e := run[i];
      ghost var log, cur, sh := w.vals, w.curThread, g.Abs();
      assert run[i..][0] == e && run[i..][1..] == run[i + 1..];
      g.Record(e);
      ghost var head, body := Announce(cur, e.thr, OpOf(e.call)), Body(ws, sh, e);
      Gather(log, head, body, Recording(ws, e.thr, g.Abs(), run[i + 1..]));
      i := i + 1;
    }
    assert w.vals + [] == w.vals;
    file := w.Fini();
  }

  lemma Gather<T>(a: seq<T>, b: seq<T>, c: seq<T>, d: seq<T>)
    ensures a + (b + (c + d)) == a + (b + c) + d
  {
  }

  /** Recording and then replaying gives back exactly the calls that were made, each under its own thread. */
  method RecordAndReplay(ws: wordsize, exec: bool, run: seq<Issued>, frames: int) returns (events: seq<Replayed>)
    requires AllRecordable(ws, InitialShadow(), run) && AllSteady(run)
    ensures events == Expected(ws, exec, InitialShadow(), run, frames)
  {
    hide EncAll;
    hide GetInts;
    hide Process;
    hide Recording;
    hide Expected;
    var file := RecordRun(ws, run);
    ghost var body := Recording(ws, 0, InitialShadow(), run);
    HeaderReadsBack(ws, body);
    var rd := new Reader(file);
    var ok := rd.Open();
    assert ok && rd.ws == ws && rd.Rest() == EncAll(ws, body);
    var t := new Retracer(rd, exec);
    events := t.Process(frames);
    ReplayInverts(ws, 0, InitialShadow(), InitialReplay(exec), run, frames);
  }

  /** The log as it is when the header has been written. */
  function Fresh(ws: wordsize): LogState {
    LogState(Header(ws), 0, None, 0)
  }

  /** Any interleaving of putCmd, put and endCmd steps of any threads goes through the chunked writer into the
      file; outside all commands the file holds the finished records and nothing else. */
  method RecordSteps(ws: wordsize, es: seq<Threads.Step>) returns (file: seq<byte>)
    requires Threads.IsRun(Fresh(ws), es)
    ensures file == EncAll(ws, Threads.After(Fresh(ws), es).log)
    ensures Threads.After(Fresh(ws), es).owner.None? ==>
      file == EncAll(ws, Header(ws) + Threads.Written(0, Threads.Finished(es)))
  {
    hide EncAll;
    ghost var s0 := Fresh(ws);
    var w := new Writer(ws);
    w.Init();
    var i := 0;
    while i < |es|
      invariant 0 <= i <= |es| && w.Valid() && fresh(w.chunk)
      invariant Threads.IsRun(s0, es[..i]) && w.Abs() == Threads.After(s0, es[..i])
    {
      Threads.RunPrefix(s0, es, i + 1);
      assert Front(es[..i + 1]) == es[..i] && Last(es[..i + 1]) == es[i];
      match es[i].op {
        case Begin(cmd) => w.PutCmd(es[i].thr, cmd);
        case Write(v) => PutValue(w, v);
        case End => w.EndCmd();
      }
      i := i + 1;
    }
    assert es[..i] == es;
    file := w.Fini();
    Threads.LogExplained(s0, es);
    ghost var written := Header(ws) + Threads.Written(0, Threads.Finished(es));
    assert written + [] == written;
  }
}
