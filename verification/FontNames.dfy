/** Names of font collections, registered by registerFontW of
    modules/graphics/src/main/native-font/fontpath.c: "Font 1 & Font 2 & Font 3". */
module FontNames {
  import opened Words

  const NUL := '\0'
  const SEP := " & "

  predicate SepAt(s: string, i: int) {
    0 <= i && i + 3 <= |s| && s[i] == ' ' && s[i + 1] == '&' && s[i + 2] == ' '
  }

  /** The first separator at or after `from`, or -1. */
  function Find(s: string, from: nat): (i: int)
    requires from <= |s|
    ensures i == -1 || from <= i <= |s| - 3
    decreases |s| - from
  {
    if from + 3 > |s| then -1 else if SepAt(s, from) then from else Find(s, from + 1)
  }

  /** i is the first separator at or after `from`, or -1 if there is none. */
  ghost predicate First(s: string, from: nat, i: int) {
    && (i == -1 || (from <= i && SepAt(s, i)))
    && forall j | from <= j && (i == -1 || j < i) :: !SepAt(s, j)
  }

  lemma {:induction false} FindIsFirst(s: string, from: nat)
    requires from <= |s|
    ensures First(s, from, Find(s, from))
    decreases |s| - from
  {
    if from + 3 <= |s| && !SepAt(s, from) {
      FindIsFirst(s, from + 1);
    }
  }

  /** The greedy split from left to right, starting at `from`. */
  function SplitFrom(s: string, from: nat): (parts: seq<string>)
    requires from <= |s|
    ensures |parts| > 0
    decreases |s| - from
  {
    var i := Find(s, from);
    if i == -1 then [s[from..]] else [s[from..i]] + SplitFrom(s, i + 3)
  }

  function Split(s: string): seq<string> {
    SplitFrom(s, 0)
  }

  function Join(parts: seq<string>): string
    requires |parts| > 0
  {
    if |parts| == 1 then parts[0] else parts[0] + SEP + Join(parts[1..])
  }

  /** The first separator after a part is the one that ends it, and the last part has none. */
  ghost predicate Clean(parts: seq<string>) {
    && |parts| > 0
    && (forall i | 0 <= i < |parts| - 1 :: Find(parts[i] + SEP, 0) == |parts[i]|)
    && Find(parts[|parts| - 1], 0) == -1
  }

  // ---------------------------------------------------------------------------------------------
  // Split and Join are inverse
  // ---------------------------------------------------------------------------------------------

  lemma {:induction false} JoinOfSplitFrom(s: string, from: nat)
    requires from <= |s|
    ensures Join(SplitFrom(s, from)) == s[from..]
    decreases |s| - from
  {
    var i := Find(s, from);
    FindIsFirst(s, from);
    if i != -1 {
      JoinOfSplitFrom(s, i + 3);
      var rest := SplitFrom(s, i + 3);
      assert ([s[from..i]] + rest)[1..] == rest;
      assert s[i..i + 3] == SEP;
      assert s[from..] == s[from..i] + s[i..i + 3] + s[i + 3..];
    }
  }

  /** Joining the parts rebuilds the name. */
  lemma {:induction false} JoinOfSplit(s: string)
    ensures Join(Split(s)) == s
  {
    JoinOfSplitFrom(s, 0);
  }

  /** The first separator is unique. */
  lemma {:induction false} FindIs(s: string, from: nat, i: int)
    requires from <= |s| && First(s, from, i)
    ensures Find(s, from) == i
  {
    FindIsFirst(s, from);
  }

  lemma {:induction false} SplitIsClean(s: string, from: nat)
    requires from <= |s|
    ensures Clean(SplitFrom(s, from))
    decreases |s| - from
  {
    var i := Find(s, from);
    FindIsFirst(s, from);
    if i == -1 {
      forall j | 0 <= j ensures !SepAt(s[from..], j) {
        assert !SepAt(s, from + j);
      }
      FindIs(s[from..], 0, -1);
    } else {
      SplitIsClean(s, i + 3);
      var part := s[from..i];
      forall j | 0 <= j < i - from ensures !SepAt(part + SEP, j) {
        assert !SepAt(s, from + j);
      }
      FindIs(part + SEP, 0, |part|);
      var rest := SplitFrom(s, i + 3);
      var parts := [part] + rest;
      forall k | 0 <= k < |parts| - 1 ensures Find(parts[k] + SEP, 0) == |parts[k]| {
        assert k > 0 ==> parts[k] == rest[k - 1];
      }
    }
  }

  lemma {:induction false} FindShift(a: string, b: string, from: nat)
    requires from <= |b|
    ensures Find(a + b, |a| + from) == if Find(b, from) == -1 then -1 else |a| + Find(b, from)
  {
    var i := Find(b, from);
    FindIsFirst(b, from);
    forall j | |a| + from <= j && (i == -1 || j < |a| + i) ensures !SepAt(a + b, j) {
      assert !SepAt(b, j - |a|);
    }
    FindIs(a + b, |a| + from, if i == -1 then -1 else |a| + i);
  }

  lemma {:induction false} SplitShift(a: string, b: string, from: nat)
    requires from <= |b|
    ensures SplitFrom(a + b, |a| + from) == SplitFrom(b, from)
    decreases |b| - from
  {
    hide Find;
    FindShift(a, b, from);
    var i := Find(b, from);
    if i != -1 {
      SplitShift(a, b, i + 3);
      assert |a| + i + 3 == |a| + (i + 3);
      assert (a + b)[|a| + from..|a| + i] == b[from..i];
    } else {
      assert (a + b)[|a| + from..] == b[from..];
    }
  }

  /** The greedy split is the only clean way to take a name apart. */
  lemma {:induction false} SplitOfJoin(parts: seq<string>)
    requires Clean(parts)
    ensures Split(Join(parts)) == parts
  {
    var s := Join(parts);
    if |parts| > 1 {
      var head, rest := parts[0] + SEP, parts[1..];
      forall k | 0 <= k < |rest| - 1 ensures Find(rest[k] + SEP, 0) == |rest[k]| {
        assert rest[k] == parts[k + 1];
      }
      SplitOfJoin(rest);
      assert s == head + Join(rest);
      FindIsFirst(head, 0);
      assert First(head, 0, |parts[0]|);
      forall j | 0 <= j < |parts[0]| ensures !SepAt(s, j) {
        assert !SepAt(head, j);
      }
      FindIs(s, 0, |parts[0]|);
      SplitShift(head, Join(rest), 0);
      assert s[0..|parts[0]|] == parts[0];
    } else {
      assert s[0..] == s;
    }
  }

  // ---------------------------------------------------------------------------------------------
  // Taking parts off the end
  // ---------------------------------------------------------------------------------------------

  /** Where the last part begins. */
  function LastStart(s: string, from: nat): (p: nat)
    requires from <= |s|
    ensures from <= p <= |s|
    ensures p == from <==> Find(s, from) == -1
    ensures p != from ==> from + 3 <= p
    decreases |s| - from
  {
    var i := Find(s, from);
    if i == -1 then from else LastStart(s, i + 3)
  }

  lemma {:induction false} FindInPrefix(s: string, from: nat, n: nat)
    requires from <= n <= |s|
    ensures Find(s[..n], from) == if 0 <= Find(s, from) && Find(s, from) + 3 <= n then Find(s, from) else -1
  {
    var i := Find(s, from);
    FindIsFirst(s, from);
    var i' := if 0 <= i && i + 3 <= n then i else -1;
    forall j | from <= j && (i' == -1 || j < i') ensures !SepAt(s[..n], j) {
      assert SepAt(s[..n], j) ==> SepAt(s, j) && j + 3 <= n;
    }
    FindIs(s[..n], from, i');
  }

  lemma {:induction false} SplitOnce(s: string, from: nat)
    requires from <= |s| && Find(s, from) != -1
    ensures SplitFrom(s, from) == [s[from..Find(s, from)]] + SplitFrom(s, Find(s, from) + 3)
  {
  }

  /** Cutting a name off before its last separator drops exactly the last part. */
  lemma {:induction false} DropLast(s: string, from: nat)
    requires from <= |s| && Find(s, from) != -1
    ensures var p := LastStart(s, from);
      from <= p - 3 && SplitFrom(s, from) == SplitFrom(s[..p - 3], from) + [s[p..]]
    decreases |s| - from
  {
    hide Find;
    var i, p := Find(s, from), LastStart(s, from);
    assert i + 3 <= p;
    var t := s[..p - 3];
    FindInPrefix(s, from, p - 3);
    if Find(s, i + 3) == -1 {
      assert t[from..] == s[from..i];
      assert SplitFrom(s, i + 3) == [s[p..]];
    } else {
      DropLast(s, i + 3);
      hide SplitFrom;
      SplitOnce(s, from);
      SplitOnce(t, from);
      assert t[from..i] == s[from..i];
      Assoc([s[from..i]], SplitFrom(t, i + 3), [s[p..]]);
    }
  }

  // ---------------------------------------------------------------------------------------------
  // The buffer
  // ---------------------------------------------------------------------------------------------

  /** The buffer holds a text that ends at the first NUL. */
  ghost predicate Holds(buf: seq<char>, text: string) {
    |text| < |buf| && buf[..|text|] == text && buf[|text|] == NUL && forall i | 0 <= i < |text| :: text[i] != NUL
  }

  lemma CutOff(buf: seq<char>, text: string, n: nat)
    requires Holds(buf, text) && n < |text|
    ensures n < |buf| && Holds(buf[n := NUL], text[..n])
  {
  }

  /** wcsstr(name + from, L" & "), as an offset from name. */
  method WcsStr(name: array<char>, from: nat, ghost text: string) returns (at: int)
    requires Holds(name[..], text) && from <= |text|
    ensures at == Find(text, from)
  {
    at := from;
    while name[at] != NUL
      invariant from <= at <= |text|
      invariant forall j | from <= j < at :: !SepAt(text, j)
      decreases |text| - at
    {
      assert name[at] == text[at];
      assert name[at + 1] == if at + 1 < |text| then text[at + 1] else NUL;
      if name[at] == ' ' && name[at + 1] == '&' && name[at + 2] == ' ' {
        FindIs(text, from, at);
        return;
      }
      at := at + 1;
    }
    FindIs(text, from, -1);
    at := -1;
  }

  /** The characters from `from` to the end of the text. */
  method Copy(name: array<char>, from: nat, ghost text: string) returns (s: string)
    requires Holds(name[..], text) && from <= |text|
    ensures s == text[from..]
  {
    var end := from;
    while name[end] != NUL
      invariant from <= end <= |text|
      decreases |text| - end
    {
      end := end + 1;
    }
    s := name[from..end];
  }

  // ---------------------------------------------------------------------------------------------
  // Registration
  // ---------------------------------------------------------------------------------------------

  /** The Java map from lower-case names to files; `puts` lists the calls of put. */
  class FontMap {
    var files: map<string, string>
    ghost var puts: seq<string>

    method Put(key: string, file: string)
      modifies this
      ensures files == old(files)[key := file] && puts == old(puts) + [key]
    {
      files := files[key := file];
      puts := puts + [key];
    }
  }

  /** The keys, last part first. */
  function Keys(parts: seq<string>, lower: string -> string): (keys: seq<string>)
    ensures |keys| == |parts|
  {
    if parts == [] then [] else [lower(parts[|parts| - 1])] + Keys(parts[..|parts| - 1], lower)
  }

  /** The map after a sequence of puts. */
  function PutAll(files: map<string, string>, keys: seq<string>, file: string): map<string, string>
    decreases |keys|
  {
    if keys == [] then files else PutAll(files, keys[..|keys| - 1], file)[keys[|keys| - 1] := file]
  }

  /** Every registered name leads to the file and no other name is touched. */
  lemma {:induction false} PutMeans(files: map<string, string>, keys: seq<string>, file: string, key: string)
    ensures key in keys ==> key in PutAll(files, keys, file) && PutAll(files, keys, file)[key] == file
    ensures key !in keys ==> (key in PutAll(files, keys, file) <==> key in files)
    ensures key !in keys && key in files ==> PutAll(files, keys, file)[key] == files[key]
    decreases |keys|
  {
    if keys != [] {
      var before, last := keys[..|keys| - 1], keys[|keys| - 1];
      PutMeans(files, before, file, key);
      assert keys == before + [last];
    }
  }

  lemma PutNone(files: map<string, string>, file: string)
    ensures PutAll(files, [], file) == files
  {
  }

  lemma {:induction false} PutOne(files: map<string, string>, keys: seq<string>, file: string, key: string)
    ensures PutAll(files, keys + [key], file) == PutAll(files, keys, file)[key := file]
  {
    assert (keys + [key])[..|keys|] == keys;
  }

  lemma {:induction false} LastKeyFirst(parts: seq<string>, last: string, lower: string -> string)
    ensures Keys(parts + [last], lower) == [lower(last)] + Keys(parts, lower)
  {
    assert (parts + [last])[..|parts|] == parts;
  }

  /** Does the file look like a collection? */
  predicate Collection(data: string)
    requires |data| > 0
  {
    data[|data| - 1] == 'C' || data[|data| - 1] == 'c'
  }

  /** The parts under which a font is registered. */
  function Parts(text: string, data: string): seq<string>
    requires |data| > 0
  {
    if Collection(data) then Split(text) else [text]
  }

  /** The keys are the lower-case parts from the last to the first. */
  lemma {:induction false} KeysAt(parts: seq<string>, lower: string -> string, i: nat)
    requires i < |parts|
    ensures Keys(parts, lower)[i] == lower(parts[|parts| - 1 - i])
    decreases |parts|
  {
    if i > 0 {
      KeysAt(parts[..|parts| - 1], lower, i - 1);
    }
  }

  /** TrueType collections are split, single TrueType fonts are not. */
  lemma CollectionsAreSplit(text: string, file: string)
    ensures Parts(text, file + ".ttc") == Split(text) && Parts(text, file + ".TTC") == Split(text)
    ensures Parts(text, file + ".ttf") == [text] && Parts(text, file + ".TTF") == [text]
  {
  }

  /** The inner loop: skip to the last part. */
  method SkipToLast(name: array<char>, start: nat, ghost text: string) returns (ptr1: nat)
    requires Holds(name[..], text) && start <= |text|
    ensures ptr1 == LastStart(text, start)
  {
    ptr1 := start;
    while true
      invariant ptr1 <= |text| && LastStart(text, ptr1) == LastStart(text, start)
      decreases |text| - ptr1
    {
      var ptr2 := WcsStr(name, ptr1, text);
      if ptr2 == -1 {
        break;
      }
      ptr1 := ptr2 + 3;
    }
  }

  /** The parts done so far, and the text that is left in the buffer. */
  ghost predicate Progress(text: string, left: string, done: seq<string>, lower: string -> string) {
    Keys(Split(text), lower) == done + Keys(Split(left), lower) && Split(left)[0] == Split(text)[0]
  }

  lemma {:induction false} NothingDone(text: string, lower: string -> string)
    ensures Progress(text, text, [], lower)
  {
  }

  lemma {:induction false} PartDone(text: string, left: string, done: seq<string>, lower: string -> string)
    requires Progress(text, left, done, lower) && Find(left, 0) != -1
    ensures var p := LastStart(left, 0);
      3 <= p && Progress(text, left[..p - 3], done + [lower(left[p..])], lower)
  {
    hide Find;
    hide SplitFrom;
    hide Keys;
    var p := LastStart(left, 0);
    DropLast(left, 0);
    LastKeyFirst(Split(left[..p - 3]), left[p..], lower);
  }

  lemma {:induction false} AllDone(text: string, left: string, done: seq<string>, lower: string -> string)
    requires Progress(text, left, done, lower) && Find(left, 0) == -1
    ensures Keys(Split(text), lower) == done + [lower(left[0..])] && left == Split(text)[0]
  {
    assert left[0..] == left;
    assert Split(left) == [left];
  }

  /** The outer loop, over a name that has a separator; `ptr1` is behind its first one. */
  method RegisterParts(fonts: FontMap, name: array<char>, data: string, lower: string -> string, start: nat,
                       ghost text: string)
    requires Holds(name[..], text) && start <= |text| && LastStart(text, start) == LastStart(text, 0)
    modifies fonts, name
    ensures fonts.puts == old(fonts.puts) + Keys(Split(text), lower)
    ensures fonts.files == PutAll(old(fonts.files), Keys(Split(text), lower), data)
    ensures Holds(name[..], Split(text)[0])
  {
    hide *;
    var ptr1: int := start;
    NothingDone(text, lower);
    PutNone(fonts.files, data);
    ghost var left := text;
    ghost var done: seq<string> := [];
    while ptr1 >= 0
      invariant 0 <= ptr1 <= |left| && Holds(name[..], left) && LastStart(left, ptr1) == LastStart(left, 0)
      invariant Progress(text, left, done, lower)
      invariant fonts.puts == old(fonts.puts) + done && fonts.files == PutAll(old(fonts.files), done, data)
      decreases |left|
    {
      ptr1 := SkipToLast(name, ptr1, left);
      var font := Copy(name, ptr1, left);
      PutOne(old(fonts.files), done, data, lower(font));
      Assoc(old(fonts.puts), done, [lower(font)]);
      fonts.Put(lower(font), data);
      if ptr1 == 0 {
        AllDone(text, left, done, lower);
        break;
      } else {
        PartDone(text, left, done, lower);
        CutOff(name[..], left, ptr1 - 3);
        ghost var was := name[..];
        name[ptr1 - 3] := NUL;
        assert name[..] == was[ptr1 - 3 := NUL];
        left, ptr1, done := left[..ptr1 - 3], 0, done + [lower(font)];
      }
    }
  }

  lemma {:induction false} OnePart(files: map<string, string>, text: string, data: string, lower: string -> string)
    requires |data| > 0 && (Collection(data) ==> Find(text, 0) == -1)
    ensures text[0..] == text && Parts(text, data) == [text] && Keys(Parts(text, data), lower) == [lower(text)]
    ensures PutAll(files, [lower(text)], data) == files[lower(text) := data]
  {
  }

  /** registerFontW: every part of a collection's name is registered, last to first, while the buffer is cut
      off part by part; any other name is registered whole. */
  method RegisterFont(fonts: FontMap, name: array<char>, data: string, lower: string -> string, ghost text: string)
    requires Holds(name[..], text) && |data| > 0
    modifies fonts, name
    ensures fonts.puts == old(fonts.puts) + Keys(Parts(text, data), lower)
    ensures fonts.files == PutAll(old(fonts.files), Keys(Parts(text, data), lower), data)
    ensures Holds(name[..], Parts(text, data)[0])
  {
    hide SplitFrom;
    hide Find;
    hide Keys;
    hide PutAll;
    var ptr1: int := -1;
    if data[|data| - 1] == 'C' || data[|data| - 1] == 'c' {
      ptr1 := WcsStr(name, 0, text);
    }
    if ptr1 != -1 {
      RegisterParts(fonts, name, data, lower, ptr1 + 3, text);
    } else {
      OnePart(fonts.files, text, data, lower);
      var font := Copy(name, 0, text);
      fonts.Put(lower(font), data);
    }
  }
}
