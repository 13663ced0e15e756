/** The log as every thread of the traced process sees it (tools/gltrace/iolib.c): the values put so
    far, the recursive lock with its reentrance count, and the last thread that was announced. */
module TraceProtocol {
  import opened Words
  import opened TraceValues

  const OPC_THREAD: word := 2

  /** The values putCmd writes for an outermost command when `cur` was announced last. */
  function Announce(cur: dword, thr: dword, cmd: word): seq<Value> {
    if thr != cur then [I(OPC_THREAD), P(thr), I(cmd)] else [I(cmd)]
  }

  /** `depth` is both the lock count and `reentrance`. */
  datatype LogState = LogState(log: seq<Value>, depth: nat, owner: Option<dword>, curThread: dword) {
    ghost predicate Valid() {
      depth == 0 <==> owner.None?
    }

    /** Any `put` function: nested commands stay silent. */
    function Put(v: Value): LogState {
      if depth > 1 then this else this.(log := log + [v])
    }

    /** Several puts in a row. */
    function PutSeq(vs: seq<Value>): LogState {
      if depth > 1 then this else this.(log := log + vs)
    }

    /** A whole command of thread `thr`: putCmd, the puts of its body, endCmd. */
    function Command(thr: dword, cmd: word, body: seq<Value>): LogState
      requires MayLock(thr)
    {
      if depth > 0 then this
      else this.(log := log + (Announce(curThread, thr, cmd) + body), curThread := thr)
    }

    predicate MayLock(thr: dword) {
      owner.None? || owner.value == thr
    }

    function PutCmd(thr: dword, cmd: word): LogState
      requires MayLock(thr)
    {
      var locked := this.(depth := depth + 1, owner := Some(thr));
      if depth > 0 then locked else locked.(log := log + Announce(curThread, thr, cmd), curThread := thr)
    }

    function EndCmd(): LogState
      requires depth > 0
    {
      this.(depth := depth - 1, owner := if depth == 1 then None else owner)
    }
  }

  lemma PutSeqSnoc(s: LogState, vs: seq<Value>, v: Value)
    ensures s.PutSeq(vs).Put(v) == s.PutSeq(vs + [v])
  {
    Assoc(s.log, vs, [v]);
  }

  lemma PutSeqJoin(s: LogState, a: seq<Value>, b: seq<Value>)
    ensures s.PutSeq(a).PutSeq(b) == s.PutSeq(a + b)
    ensures |a| == 1 ==> s.PutSeq(a) == s.Put(a[0])
  {
    Assoc(s.log, a, b);
    assert |a| == 1 ==> a == [a[0]];
  }

  lemma PutSeqNil(s: LogState)
    ensures s.PutSeq([]) == s
  {
    assert s.log + [] == s.log;
  }

  /** putCmd, puts and endCmd make up one command, silent when it is nested. */
  lemma CommandSteps(s: LogState, thr: dword, cmd: word, payload: seq<Value>, bgn: dword, end: dword)
    requires s.Valid() && s.MayLock(thr)
    ensures s.PutCmd(thr, cmd).PutSeq(payload).Put(LL(bgn)).Put(LL(end)).EndCmd()
         == s.Command(thr, cmd, payload + [LL(bgn), LL(end)])
  {
    if s.depth == 0 {
      var a := Announce(s.curThread, thr, cmd);
      assert s.log + a + payload + [LL(bgn)] + [LL(end)] == s.log + (a + (payload + [LL(bgn), LL(end)]));
    }
  }
}
