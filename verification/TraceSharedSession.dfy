/** A whole session of threads that share a context: every step goes through the chunked writer into the file, and the
    file is opened and replayed. */
module TraceSharedSession {
  import opened TraceValues
  import opened TraceRecorder
  import opened TraceReplayer
  import opened TraceRoundTrip
  import opened TraceWriter
  import opened TraceReader
  import opened TraceRetrace
  import opened TraceSession
  import opened TraceConcurrent
  import opened TraceOrder

  /** The file of a run that has ended outside all commands. */
  lemma {:induction false} FileOfRun(ws: wordsize, ms: seq<Move>)
    requires Lawful(ws, ms) && Reached(ws, ms).open == []
    ensures Threads.IsRun(Fresh(ws), Trace(ws, ms))
    ensures Threads.After(Fresh(ws), Trace(ws, ms)).log == Header(ws) + LogOf(ws, 0, Reached(ws, ms).done)
  {
    var es, done := Trace(ws, ms), Reached(ws, ms).done;
    RunMirrors(ws, Fresh(ws), ms);
    Threads.LogExplained(Fresh(ws), es);
    WrittenIsLog(ws, 0, done);
    hide Lawful;
    hide Reached;
    hide Trace;
    hide LogOf;
    hide Header;
    hide RecordsOf;
    hide Threads.Written;
    hide Threads.Finished;
    var log := Header(ws) + LogOf(ws, 0, done);
    assert log + [] == log;
  }

  /** Recorded by any threads and replayed from the file, the commands of a run come back if and only if every draw drew
      like the shadow state that the log makes; in particular they do if the run keeps the discipline.  `es` are the
      steps of the run that the log sees. */
  method RecordAndReplayShared(ws: wordsize, ghost ms: seq<Move>, es: seq<Threads.Step>, exec: bool, frames: int)
    returns (events: seq<Replayed>)
    requires Lawful(ws, ms) && es == Trace(ws, ms) && Reached(ws, ms).open == []
    requires SteadyTaken(Reached(ws, ms).done)
    ensures var done := Reached(ws, ms).done;
      var alike := AllAlike(ws, exec, InitialShadow(), done, frames);
      && (alike ==> events == Issues(ws, exec, done, frames))
      && (DrawsTakeTime(done) && events == Issues(ws, exec, done, frames) ==> alike)
      && (Disciplined(ws, ms) ==> events == Issues(ws, exec, done, frames))
  {
    hide EncAll;
    hide GetInts;
    hide TraceReplayer.Process;
    hide Issues;
    hide AllAlike;
    hide LogOf;
    hide Lawful;
    hide Reached;
    hide Trace;
    FileOfRun(ws, ms);
    SharedReplayIff(ws, Fresh(ws), ms, exec, frames);
    if Disciplined(ws, ms) {
      InterleavedReplay(ws, Fresh(ws), ms, exec, frames);
    }
    var file := RecordSteps(ws, es);
    ghost var log := LogOf(ws, 0, Reached(ws, ms).done);
    HeaderReadsBack(ws, log);
    var rd := new Reader(file);
    var ok := rd.Open();
    assert ok && rd.ws == ws && rd.Rest() == EncAll(ws, log);
    var t := new Retracer(rd, exec);
    events := t.Process(frames);
  }
}
