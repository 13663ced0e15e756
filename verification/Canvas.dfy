/** Images in flat arrays, as the kernels walk them: line after line, position after position. */
module Canvas {
  import opened Words

  /** `rows` lines of `cols` positions; horizontal lines have colinc 1, vertical lines have rowinc 1. */
  datatype Layout = Layout(cols: int, rows: int, colinc: int, rowinc: int) {

    function Cell(c: int, r: int): int {
      r * rowinc + c * colinc
    }

    predicate Inside(c: int, r: int) {
      0 <= c < cols && 0 <= r < rows
    }

    /** One of the two directions is the outer one, and the last cell lies inside the array. */
    predicate Fits(length: int) {
      && (Nested(cols, colinc, rowinc) || Nested(rows, rowinc, colinc))
      && (cols > 0 && rows > 0 ==> Cell(cols - 1, rows - 1) < length)
    }
  }

  lemma {:induction false} CellShift(l: Layout, c: int, k: int, r: int)
    ensures l.Cell(c - k, r) == l.Cell(c, r) - k * l.colinc
    ensures l.Cell(c + 1, r) == l.Cell(c, r) + l.colinc
  {
    assert (c - k) * l.colinc == c * l.colinc - k * l.colinc;
  }

  lemma {:induction false} CellStart(l: Layout, r: int)
    ensures l.Cell(0, r) == r * l.rowinc && l.Cell(0, r + 1) == l.Cell(0, r) + l.rowinc
  {
    assert (r + 1) * l.rowinc == r * l.rowinc + l.rowinc;
  }

  /** n steps of `inner` stay within one step of `outer`. */
  predicate Nested(n: int, inner: int, outer: int) {
    1 <= inner && n * inner <= outer && 1 <= outer
  }

  lemma {:induction false} CellInRange(l: Layout, length: int, c: int, r: int)
    requires l.Fits(length) && l.Inside(c, r)
    ensures 0 <= l.Cell(c, r) < length
  {
    MulLeq(0, c, l.colinc);
    MulLeq(0, r, l.rowinc);
    MulLeq(c, l.cols - 1, l.colinc);
    MulLeq(r, l.rows - 1, l.rowinc);
  }

  /** Positions on different outer steps are more than n inner steps apart. */
  lemma {:induction false} NestedApart(n: int, inner: int, outer: int, i: int, o: int, i': int, o': int)
    requires Nested(n, inner, outer) && 0 <= i < n && 0 <= i' < n
    ensures o * outer + i * inner == o' * outer + i' * inner <==> i == i' && o == o'
  {
    if o == o' {
      if i < i' {
        MulLeq(i + 1, i', inner);
      } else if i' < i {
        MulLeq(i' + 1, i, inner);
      }
    } else if o < o' {
      NestedBelow(n, inner, outer, i, o, i', o');
    } else {
      NestedBelow(n, inner, outer, i', o', i, o);
    }
  }

  lemma {:induction false} NestedBelow(n: int, inner: int, outer: int, i: int, o: int, i': int, o': int)
    requires Nested(n, inner, outer) && 0 <= i < n && 0 <= i' < n && o < o'
    ensures o * outer + i * inner < o' * outer + i' * inner
  {
    MulLeq(o + 1, o', outer);
    MulLeq(i + 1, n, inner);
    MulLeq(0, i', inner);
  }

  lemma {:induction false} CellsDiffer(l: Layout, length: int, c: int, r: int, c': int, r': int)
    requires l.Fits(length) && l.Inside(c, r) && l.Inside(c', r')
    ensures l.Cell(c, r) == l.Cell(c', r') <==> c == c' && r == r'
  {
    if Nested(l.cols, l.colinc, l.rowinc) {
      NestedApart(l.cols, l.colinc, l.rowinc, c, r, c', r');
    } else {
      NestedApart(l.rows, l.rowinc, l.colinc, r, c, r', c');
    }
  }

  // ---------------------------------------------------------------------------------------------
  // Reading a line
  // ---------------------------------------------------------------------------------------------

  /** The pixels of line r. */
  function Line(s: seq<word>, l: Layout, r: int): (line: seq<word>)
    requires 0 <= l.cols
    ensures |line| == l.cols
  {
    seq(l.cols, c => if 0 <= l.Cell(c, r) < |s| then s[l.Cell(c, r)] else 0)
  }

  lemma {:induction false} LineAt(s: seq<word>, l: Layout, c: int, r: int)
    requires l.Fits(|s|) && l.Inside(c, r)
    ensures 0 <= l.Cell(c, r) < |s| && Line(s, l, r)[c] == s[l.Cell(c, r)]
  {
    CellInRange(l, |s|, c, r);
  }

  // ---------------------------------------------------------------------------------------------
  // Writing line after line
  // ---------------------------------------------------------------------------------------------

  type Picture = (int, int) -> word

  /** Cell (c, r) is written before cell (c', r'). */
  predicate Earlier(c: int, r: int, c': int, r': int) {
    r < r' || (r == r' && c < c')
  }

  /** The cells before (c, r) show the picture. */
  ghost predicate Painted(d: seq<word>, l: Layout, c: int, r: int, f: Picture) {
    forall i, j {:trigger l.Inside(i, j)} | l.Inside(i, j) && Earlier(i, j, c, r) ::
      0 <= l.Cell(i, j) < |d| && d[l.Cell(i, j)] == f(i, j)
  }

  ghost predicate IsCell(l: Layout, k: int) {
    exists i, j {:trigger l.Inside(i, j)} :: l.Inside(i, j) && l.Cell(i, j) == k
  }

  /** Nothing outside the cells has changed. */
  ghost predicate SameOutside(d: seq<word>, base: seq<word>, l: Layout) {
    |d| == |base| && forall k | 0 <= k < |d| && !IsCell(l, k) :: d[k] == base[k]
  }

  /** The whole picture has been drawn, and nothing else has changed. */
  ghost predicate Drawn(d: seq<word>, base: seq<word>, l: Layout, f: Picture) {
    && SameOutside(d, base, l)
    && forall i, j {:trigger l.Inside(i, j)} | l.Inside(i, j) ::
         0 <= l.Cell(i, j) < |d| && d[l.Cell(i, j)] == f(i, j)
  }

  /** Writing one more cell. */
  lemma {:induction false} PaintCell(d: seq<word>, base: seq<word>, l: Layout, c: int, r: int, f: Picture)
    requires l.Fits(|d|) && l.Inside(c, r) && Painted(d, l, c, r, f) && SameOutside(d, base, l)
    ensures 0 <= l.Cell(c, r) < |d|
    ensures var d' := d[l.Cell(c, r) := f(c, r)]; Painted(d', l, c + 1, r, f) && SameOutside(d', base, l)
  {
    CellInRange(l, |d|, c, r);
    var d' := d[l.Cell(c, r) := f(c, r)];
    forall i, j | l.Inside(i, j) && Earlier(i, j, c + 1, r)
      ensures 0 <= l.Cell(i, j) < |d'| && d'[l.Cell(i, j)] == f(i, j)
    {
      CellInRange(l, |d|, i, j);
      CellsDiffer(l, |d|, i, j, c, r);
    }
  }

  lemma {:induction false} NextLine(d: seq<word>, l: Layout, r: int, f: Picture)
    requires Painted(d, l, l.cols, r, f)
    ensures Painted(d, l, 0, r + 1, f)
  {
  }
}
