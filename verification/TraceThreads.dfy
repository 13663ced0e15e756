/** Threads that record at the same time (tools/gltrace/iolib.c:156-174, 316-329).  A run is any
    interleaving of putCmd, put and endCmd steps that the recursive lock admits. */
module TraceThreads {
  import opened Words
  import opened TraceValues
  import opened TraceProtocol

  datatype Op = Begin(cmd: word) | Write(v: Value) | End

  datatype Step = Step(thr: dword, op: Op)

  /** A finished outermost command: who issued it, its opcode and the values put at depth one. */
  datatype Record = Record(thr: dword, cmd: word, vals: seq<Value>)

  // ---------------------------------------------------------------------------------------------
  // Runs
  // ---------------------------------------------------------------------------------------------

  /** putCmd waits for the lock; the other functions are called between putCmd and endCmd. */
  ghost predicate Enabled(s: LogState, e: Step) {
    match e.op
    case Begin(_) => s.MayLock(e.thr)
    case Write(_) => s.owner == Some(e.thr)
    case End => s.owner == Some(e.thr)
  }

  ghost function Next(s: LogState, e: Step): LogState
    requires s.Valid() && Enabled(s, e)
  {
    match e.op
    case Begin(cmd) => s.PutCmd(e.thr, cmd)
    case Write(v) => s.Put(v)
    case End => s.EndCmd()
  }

  ghost predicate Start(s: LogState) {
    s.Valid() && s.depth == 0
  }

  ghost predicate IsRun(s0: LogState, es: seq<Step>)
    requires Start(s0)
    decreases |es|, 0
  {
    es == [] || (IsRun(s0, Front(es)) && Enabled(After(s0, Front(es)), Last(es)))
  }

  ghost function After(s0: LogState, es: seq<Step>): (s: LogState)
    requires Start(s0) && IsRun(s0, es)
    ensures s.Valid()
    decreases |es|, 1
  {
    if es == [] then s0 else Next(After(s0, Front(es)), Last(es))
  }

  // ---------------------------------------------------------------------------------------------
  // What each thread did, seen without the lock
  // ---------------------------------------------------------------------------------------------

  /** A thread's own account: finished outermost commands, its nesting depth and the open command. */
  datatype View = View(done: seq<Record>, depth: nat, cmd: word, vals: seq<Value>)

  function Account(thr: dword, v: View, op: Op): View {
    match op
    case Begin(cmd) => if v.depth == 0 then View(v.done, 1, cmd, []) else v.(depth := v.depth + 1)
    case Write(x) => if v.depth == 1 then v.(vals := v.vals + [x]) else v
    case End =>
      if v.depth == 0 then v
      else if v.depth == 1 then View(v.done + [Record(thr, v.cmd, v.vals)], 0, v.cmd, [])
      else v.(depth := v.depth - 1)
  }

  /** The account of thread `thr`, from its own steps in program order. */
  function Local(thr: dword, es: seq<Step>): View
    decreases |es|
  {
    if es == [] then View([], 0, 0, [])
    else if Last(es).thr != thr then Local(thr, Front(es))
    else Account(thr, Local(thr, Front(es)), Last(es).op)
  }

  /** The outermost commands of all threads, in the order in which they ended. */
  function Finished(es: seq<Step>): seq<Record>
    decreases |es|
  {
    if es == [] then []
    else
      var e, before := Last(es), Local(Last(es).thr, Front(es));
      if e.op.End? && before.depth == 1
      then Finished(Front(es)) + [Record(e.thr, before.cmd, before.vals)]
      else Finished(Front(es))
  }

  function Of(rs: seq<Record>, thr: dword): seq<Record>
    decreases |rs|
  {
    if rs == [] then []
    else if Last(rs).thr == thr then Of(Front(rs), thr) + [Last(rs)]
    else Of(Front(rs), thr)
  }

  // ---------------------------------------------------------------------------------------------
  // The log as a concatenation of records
  // ---------------------------------------------------------------------------------------------

  function RecordValues(cur: dword, r: Record): seq<Value> {
    Announce(cur, r.thr, r.cmd) + r.vals
  }

  function Announced(cur: dword, rs: seq<Record>): dword {
    if rs == [] then cur else Last(rs).thr
  }

  function Written(cur: dword, rs: seq<Record>): seq<Value>
    decreases |rs|
  {
    if rs == [] then []
    else Written(cur, Front(rs)) + RecordValues(Announced(cur, Front(rs)), Last(rs))
  }

  /** Records without announcements. */
  function Unannounced(rs: seq<Record>): seq<Value>
    decreases |rs|
  {
    if rs == [] then [] else Unannounced(Front(rs)) + ([I(Last(rs).cmd)] + Last(rs).vals)
  }

  /** A thread is announced only when it is not the last one announced: the records of one thread follow each other
      without announcements. */
  lemma {:induction false} AnnouncedOnChange(cur: dword, rs: seq<Record>)
    requires forall i | 0 <= i < |rs| :: rs[i].thr == cur
    ensures Written(cur, rs) == Unannounced(rs)
    decreases |rs|
  {
    if rs != [] {
      AnnouncedOnChange(cur, Front(rs));
      assert Announced(cur, Front(rs)) == cur;
    }
  }

  /** The record under construction, if any, belongs to the lock owner. */
  function Unfinished(cur: dword, rs: seq<Record>, s: LogState, open: View): seq<Value> {
    if s.owner.None? then []
    else RecordValues(Announced(cur, rs), Record(s.owner.value, open.cmd, open.vals))
  }

  /** The log is the finished records plus at most one unfinished record of the lock owner. */
  ghost predicate Explained(s0: LogState, es: seq<Step>)
    requires Start(s0) && IsRun(s0, es)
  {
    var s, rs := After(s0, es), Finished(es);
    var open := if s.owner.None? then View([], 0, 0, []) else Local(s.owner.value, es);
    && s.log == s0.log + Written(s0.curThread, rs) + Unfinished(s0.curThread, rs, s, open)
    && s.curThread == (if s.owner.Some? then s.owner.value else Announced(s0.curThread, rs))
  }

  /** Only the lock owner is inside a command, and it is as deep as the lock count. */
  ghost predicate OwnerOnly(s0: LogState, es: seq<Step>)
    requires Start(s0) && IsRun(s0, es)
  {
    var s := After(s0, es);
    forall thr: dword :: Local(thr, es).depth == if s.owner == Some(thr) then s.depth else 0
  }

  lemma {:induction false} OwnerOnlyHolds(s0: LogState, es: seq<Step>)
    requires Start(s0) && IsRun(s0, es)
    ensures OwnerOnly(s0, es)
    decreases |es|
  {
    if es != [] {
      OwnerOnlyHolds(s0, Front(es));
    }
  }

  lemma {:induction false} ProgramOrder(es: seq<Step>, thr: dword)
    ensures Of(Finished(es), thr) == Local(thr, es).done
    decreases |es|
  {
    if es != [] {
      ProgramOrder(Front(es), thr);
    }
  }

  /** putCmd: an outermost command opens a record. */
  lemma {:induction false} ExplainedBegin(s0: LogState, es: seq<Step>)
    requires Start(s0) && IsRun(s0, es) && es != [] && Last(es).op.Begin?
    requires Explained(s0, Front(es)) && OwnerOnly(s0, Front(es))
    ensures Explained(s0, es)
  {
    var e, s := Last(es), After(s0, Front(es));
    assert Local(e.thr, Front(es)).depth == if s.owner == Some(e.thr) then s.depth else 0;
    if s.depth == 0 {
      var written := s0.log + Written(s0.curThread, Finished(Front(es)));
      assert written + [] == written;
      assert Announce(s.curThread, e.thr, e.op.cmd) + [] == Announce(s.curThread, e.thr, e.op.cmd);
    }
  }

  /** A put adds to the open record. */
  lemma {:induction false} ExplainedWrite(s0: LogState, es: seq<Step>)
    requires Start(s0) && IsRun(s0, es) && es != [] && Last(es).op.Write?
    requires Explained(s0, Front(es)) && OwnerOnly(s0, Front(es))
    ensures Explained(s0, es)
  {
    var e, s := Last(es), After(s0, Front(es));
    assert Local(e.thr, Front(es)).depth == if s.owner == Some(e.thr) then s.depth else 0;
    if s.depth == 1 {
      var v := Local(e.thr, Front(es));
      var head := Announce(Announced(s0.curThread, Finished(Front(es))), e.thr, v.cmd);
      Assoc(head, v.vals, [e.op.v]);
      Assoc(s0.log + Written(s0.curThread, Finished(Front(es))), head + v.vals, [e.op.v]);
    }
  }

  /** endCmd: an outermost command finishes its record. */
  lemma {:induction false} ExplainedEnd(s0: LogState, es: seq<Step>)
    requires Start(s0) && IsRun(s0, es) && es != [] && Last(es).op.End?
    requires Explained(s0, Front(es)) && OwnerOnly(s0, Front(es))
    ensures Explained(s0, es)
  {
    var e, s := Last(es), After(s0, Front(es));
    var v, rs := Local(e.thr, Front(es)), Finished(Front(es));
    assert v.depth == s.depth && s.owner == Some(e.thr);
    assert After(s0, es) == s.EndCmd() && Local(e.thr, es) == Account(e.thr, v, End);
    assert Finished(es) == if s.depth == 1 then rs + [Record(e.thr, v.cmd, v.vals)] else rs;
    hide Local;
    hide Finished;
    hide After;
    hide OwnerOnly;
    if s.depth == 1 {
      WrittenSnoc(s0.curThread, rs, Record(e.thr, v.cmd, v.vals));
      hide Written;
      Assoc(s0.log, Written(s0.curThread, rs),
            RecordValues(Announced(s0.curThread, rs), Record(e.thr, v.cmd, v.vals)));
      var all := s0.log + Written(s0.curThread, Finished(es));
      assert all + [] == all;
    }
  }

  lemma {:induction false} WrittenSnoc(cur: dword, rs: seq<Record>, r: Record)
    ensures Written(cur, rs + [r]) == Written(cur, rs) + RecordValues(Announced(cur, rs), r)
    ensures Announced(cur, rs + [r]) == r.thr
  {
    assert Front(rs + [r]) == rs && Last(rs + [r]) == r;
  }

  lemma {:induction false} LogExplained(s0: LogState, es: seq<Step>)
    requires Start(s0) && IsRun(s0, es)
    ensures Explained(s0, es)
    decreases |es|
  {
    if es == [] {
      assert s0.log + [] + [] == s0.log;
    } else {
      LogExplained(s0, Front(es));
      OwnerOnlyHolds(s0, Front(es));
      hide Explained;
      hide OwnerOnly;
      match Last(es).op
      case Begin(_) => ExplainedBegin(s0, es);
      case Write(_) => ExplainedWrite(s0, es);
      case End => ExplainedEnd(s0, es);
    }
  }

  /** Prefixes of runs are runs. */
  lemma {:induction false} RunPrefix(s0: LogState, es: seq<Step>, k: nat)
    requires Start(s0) && IsRun(s0, es) && k <= |es|
    ensures IsRun(s0, es[..k])
    decreases |es|
  {
    if k < |es| {
      RunPrefix(s0, Front(es), k);
      assert Front(es)[..k] == es[..k];
    } else {
      assert es[..k] == es;
    }
  }

  /** The state after the first k steps of a run. */
  ghost function StateAt(s0: LogState, es: seq<Step>, k: nat): LogState
    requires Start(s0) && IsRun(s0, es) && k <= |es|
  {
    RunPrefix(s0, es, k);
    After(s0, es[..k])
  }

  /** The steps from i to k are a nested command, or its beginning: they start with a putCmd inside a command and
      stay deeper than it began. */
  ghost predicate NestedFrom(s0: LogState, es: seq<Step>, i: nat, k: nat)
    requires Start(s0) && IsRun(s0, es) && i < k <= |es|
  {
    && StateAt(s0, es, i).depth > 0 && es[i].op.Begin?
    && forall j | i < j < k :: StateAt(s0, es, j).depth > StateAt(s0, es, i).depth
  }

  /** A nested command, with everything put inside it and inside the commands nested in it, leaves the log alone. */
  lemma {:induction false} NestedIsSilent(s0: LogState, es: seq<Step>, i: nat, k: nat)
    requires Start(s0) && IsRun(s0, es) && i < k <= |es| && NestedFrom(s0, es, i, k)
    ensures StateAt(s0, es, k).log == StateAt(s0, es, i).log
    decreases k
  {
    RunPrefix(s0, es, k);
    assert Front(es[..k]) == es[..k - 1] && Last(es[..k]) == es[k - 1];
    if k > i + 1 {
      NestedIsSilent(s0, es, i, k - 1);
    }
  }

  // ---------------------------------------------------------------------------------------------
  // Reading the records back
  // ---------------------------------------------------------------------------------------------

  /** The prefix test of retrace.c's `process`, then a payload of known kinds. */
  function ReadRecord(ws: wordsize, cur: dword, ks: seq<Kind>, rest: seq<byte>): Read<Record>
  {
    var (cmd, r) :- GetInt(rest);
    if cmd == OPC_THREAD then
      var (thr, r1) :- GetPtr(ws, r);
      var (cmd', r2) :- GetInt(r1);
      var (vals, r3) :- DecAll(ws, ks, r2);
      Read(Record(thr, cmd', vals), r3)
    else
      var (vals, r3) :- DecAll(ws, ks, r);
      Read(Record(cur, cmd, vals), r3)
  }

  function ReadRecords(ws: wordsize, cur: dword, kss: seq<seq<Kind>>, rest: seq<byte>): Read<seq<Record>>
    decreases |kss|
  {
    if kss == [] then Read([], rest)
    else
      var (r, rest1) :- ReadRecord(ws, cur, kss[0], rest);
      var (rs, rest2) :- ReadRecords(ws, r.thr, kss[1..], rest1);
      Read([r] + rs, rest2)
  }

  predicate Readable(r: Record) {
    r.cmd != OPC_THREAD && AllInStep(r.vals)
  }

  function SeenRecord(ws: wordsize, r: Record): Record {
    Record(SeenPtr(ws, r.thr), r.cmd, SeenAll(ws, r.vals))
  }

  predicate AllReadable(rs: seq<Record>) {
    forall i | 0 <= i < |rs| :: Readable(rs[i])
  }

  function RecordKinds(rs: seq<Record>): seq<seq<Kind>> {
    if rs == [] then [] else [Kinds(rs[0].vals)] + RecordKinds(rs[1..])
  }

  function SeenRecords(ws: wordsize, rs: seq<Record>): seq<Record> {
    if rs == [] then [] else [SeenRecord(ws, rs[0])] + SeenRecords(ws, rs[1..])
  }

  /** A record is read back together with the thread that issued it. */
  lemma {:induction false} RecordRoundTrip(ws: wordsize, cur: dword, r: Record, rest: seq<byte>)
    requires Readable(r)
    ensures ReadRecord(ws, SeenPtr(ws, cur), Kinds(r.vals), EncAll(ws, RecordValues(cur, r)) + rest)
         == Read(SeenRecord(ws, r), rest)
  {
    var named := [I(r.cmd)] + r.vals;
    NextInt(ws, r.cmd, r.vals, rest);
    ValuesRoundTrip(ws, r.vals, rest);
    if r.thr != cur {
      NextPtr(ws, r.thr, named, rest);
      NextInt(ws, OPC_THREAD, [P(r.thr)] + named, rest);
      assert RecordValues(cur, r) == [I(OPC_THREAD)] + ([P(r.thr)] + named);
    }
  }

  /** Written, with the first record split off. */
  lemma {:induction false} WrittenCons(cur: dword, rs: seq<Record>)
    requires rs != []
    ensures Written(cur, rs) == RecordValues(cur, rs[0]) + Written(rs[0].thr, rs[1..])
    decreases |rs|
  {
    if |rs| > 1 {
      WrittenCons(cur, Front(rs));
      assert Front(rs)[1..] == Front(rs[1..]);
      assert Announced(cur, Front(rs)) == Announced(rs[0].thr, Front(rs[1..]));
    }
  }

  /** Every record of the log is read back, in order, under the thread that issued it. */
  lemma {:induction false} RecordsRoundTrip(ws: wordsize, cur: dword, rs: seq<Record>, rest: seq<byte>)
    requires AllReadable(rs)
    ensures ReadRecords(ws, SeenPtr(ws, cur), RecordKinds(rs), EncAll(ws, Written(cur, rs)) + rest)
         == Read(SeenRecords(ws, rs), rest)
    decreases |rs|
  {
    if rs == [] {
      assert EncAll(ws, []) + rest == rest;
    } else {
      var r, tail := rs[0], rs[1..];
      var head, more := RecordValues(cur, r), Written(r.thr, tail);
      WrittenCons(cur, rs);
      RecordsRoundTrip(ws, r.thr, tail, rest);
      var after := EncAll(ws, more) + rest;
      RecordRoundTrip(ws, cur, r, after);
      EncSplit(ws, head, more, rest);
      assert RecordKinds(rs)[0] == Kinds(r.vals) && RecordKinds(rs)[1..] == RecordKinds(tail);
    }
  }

  /** Whenever no thread is inside a command, the bytes logged since the start decode to the finished
      commands of all threads, each under its own thread and each thread's in program order. */
  lemma {:induction false} InterleavedRoundTrip(ws: wordsize, s0: LogState, es: seq<Step>)
    requires Start(s0) && IsRun(s0, es)
    requires After(s0, es).owner.None? && AllReadable(Finished(es))
    ensures |s0.log| <= |After(s0, es).log|
    ensures var since := After(s0, es).log[|s0.log|..];
            && s0.log + since == After(s0, es).log
            && ReadRecords(ws, SeenPtr(ws, s0.curThread), RecordKinds(Finished(es)), EncAll(ws, since))
               == Read(SeenRecords(ws, Finished(es)), [])
    ensures forall thr: dword :: Of(Finished(es), thr) == Local(thr, es).done
  {
    LogExplained(s0, es);
    var values := Written(s0.curThread, Finished(es));
    assert After(s0, es).log == s0.log + values;
    assert After(s0, es).log[|s0.log|..] == values;
    RecordsRoundTrip(ws, s0.curThread, Finished(es), []);
    assert EncAll(ws, values) + [] == EncAll(ws, values);
    forall thr: dword ensures Of(Finished(es), thr) == Local(thr, es).done {
      ProgramOrder(es, thr);
    }
  }
}
