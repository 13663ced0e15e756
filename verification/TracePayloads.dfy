/** The pieces of payloads are read back: lists, source strings, attribute pairs and optional results. */
module TracePayloads {
  import opened Words
  import opened TraceValues
  import opened TraceRecorder
  import opened TraceReplayer

  lemma {:induction false} IntsReadBack(ws: wordsize, ids: seq<word>, vs: seq<Value>, rest: seq<byte>)
    ensures GetInts(|ids|, EncAll(ws, Ints(ids) + vs) + rest) == Read(ids, EncAll(ws, vs) + rest)
  {
    if ids == [] {
      assert Ints(ids) + vs == vs;
    } else {
      Assoc([I(ids[0])], Ints(ids[1..]), vs);
      NextInt(ws, ids[0], Ints(ids[1..]) + vs, rest);
      IntsReadBack(ws, ids[1..], vs, rest);
      assert [ids[0]] + ids[1..] == ids;
    }
  }

  lemma {:induction false} PtrsReadBack(ws: wordsize, ds: seq<dword>, vs: seq<Value>, rest: seq<byte>)
    ensures GetPtrs(ws, |ds|, EncAll(ws, Ptrs(ds) + vs) + rest) == Read(SeenPtrs(ws, ds), EncAll(ws, vs) + rest)
  {
    if ds == [] {
      assert Ptrs(ds) + vs == vs;
    } else {
      Assoc([P(ds[0])], Ptrs(ds[1..]), vs);
      NextPtr(ws, ds[0], Ptrs(ds[1..]) + vs, rest);
      PtrsReadBack(ws, ds[1..], vs, rest);
    }
  }

  lemma {:induction false} PartReadsBack(ws: wordsize, p: Part, vs: seq<Value>, rest: seq<byte>)
    requires PartOk(p)
    ensures GetPart(EncAll(ws, [I(p.len)] + ([PartValue(p)] + vs)) + rest) == Read(SeenPart(p), EncAll(ws, vs) + rest)
  {
    NextInt(ws, p.len, [PartValue(p)] + vs, rest);
    if Signed(p.len) > 0 {
      NextBytes(ws, PartValue(p), vs, rest);
    } else {
      NextString(ws, PartValue(p).str, vs, rest);
    }
  }

  lemma {:induction false} PartsReadBack(ws: wordsize, ps: seq<Part>, rest: seq<byte>)
    requires forall i | 0 <= i < |ps| :: PartOk(ps[i])
    ensures GetParts(|ps|, EncAll(ws, Parts(ps)) + rest) == Read(SeenParts(ps), rest)
  {
    if ps == [] {
      assert EncAll(ws, []) + rest == rest;
    } else {
      PartReadsBack(ws, ps[0], Parts(ps[1..]), rest);
      PartsReadBack(ws, ps[1..], rest);
    }
  }

  /** The attribute loop finds the terminator exactly when the list fits the replayer's array. */
  lemma {:induction false} PairsReadBack(ws: wordsize, i: nat, ps: seq<(word, word)>, vs: seq<Value>, rest: seq<byte>)
    requires forall k | 0 <= k < |ps| :: ps[k].0 != EGL_NONE
    ensures var r := GetPairs(i, EncAll(ws, Pairs(ps) + vs) + rest);
            if i + 2 * |ps| < MAX_EGL_INTS then r == Read(Some(ps), EncAll(ws, vs) + rest) else r.value.None?
    decreases |ps|
  {
    hide EncAll;
    hide GetInt;
    if i < MAX_EGL_INTS {
      if ps == [] {
        NextInt(ws, EGL_NONE, vs, rest);
      } else {
        var tail := Pairs(ps[1..]) + vs;
        Assoc([I(ps[0].0)], [I(ps[0].1)] + Pairs(ps[1..]), vs);
        Assoc([I(ps[0].1)], Pairs(ps[1..]), vs);
        NextInt(ws, ps[0].0, [I(ps[0].1)] + tail, rest);
        NextInt(ws, ps[0].1, tail, rest);
        PairsReadBack(ws, i + 2, ps[1..], vs, rest);
        assert [(ps[0].0, ps[0].1)] + ps[1..] == ps;
      }
    }
  }

  /** A pointer reads as NULL exactly when it was NULL. */
  lemma NullStaysNull(ws: wordsize, d: dword)
    requires PtrFits(ws, d)
    ensures SeenPtr(ws, d) == 0 <==> d == 0
  {
  }

  lemma {:induction false} IntWhenReadsBack(ws: wordsize, d: dword, w: word, vs: seq<Value>, rest: seq<byte>)
    requires PtrFits(ws, d)
    ensures GetIntWhen(SeenPtr(ws, d), EncAll(ws, When(d != 0, I(w)) + vs) + rest)
         == Read(if d != 0 then w else 0, EncAll(ws, vs) + rest)
  {
    NullStaysNull(ws, d);
    if d != 0 {
      NextInt(ws, w, vs, rest);
    } else {
      assert [] + vs == vs;
    }
  }

  lemma {:induction false} StringWhenReadsBack(ws: wordsize, d: dword, s: cstring, rest: seq<byte>)
    requires PtrFits(ws, d)
    ensures GetStringWhen(SeenPtr(ws, d), EncAll(ws, When(d != 0, S(Some(s)))) + rest)
         == Read(if d != 0 then Some(s) else None, rest)
  {
    NullStaysNull(ws, d);
    if d != 0 {
      NextString(ws, Some(s), [], rest);
      assert [S(Some(s))] + [] == [S(Some(s))];
    }
    assert [] + rest == rest;
  }
}
