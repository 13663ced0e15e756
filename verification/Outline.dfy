/** Glyph outlines of modules/graphics/src/main/native-font/freetype.c: the callbacks that FreeType calls for
    every segment, and the growing arrays they write. */
module Outline {
  import opened Words
  import opened FloatCast

  /** A point in 26.6 fixed-point coordinates. */
  datatype Point = Point(x: int, y: int)

  datatype Segment =
    | MoveTo(to: Point)
    | LineTo(to: Point)
    | ConicTo(control: Point, to: Point)
    | CubicTo(control1: Point, control2: Point, to: Point)

  function Tag(s: Segment): byte {
    match s
    case MoveTo(_) => 0
    case LineTo(_) => 1
    case ConicTo(_, _) => 2
    case CubicTo(_, _, _) => 3
  }

  function PointsOf(s: Segment): (ps: seq<Point>)
    ensures |ps| == PointCount(Tag(s))
  {
    match s
    case MoveTo(to) => [to]
    case LineTo(to) => [to]
    case ConicTo(control, to) => [control, to]
    case CubicTo(control1, control2, to) => [control1, control2, to]
  }

  /** How many points go with a type. */
  function PointCount(tag: byte): (n: nat)
    ensures n <= 3
  {
    if tag <= 1 then 1 else if tag <= 3 then tag else 0
  }

  /** `(float)n/64.0`: the cast rounds, the division by a power of two does not. */
  function ToFloat(n: int): real {
    Rounded(n) as real / 64.0
  }

  /** Device coordinates: scaled, with y pointing down. */
  function Coords(ps: seq<Point>): (c: seq<real>)
    ensures |c| == 2 * |ps|
  {
    if ps == [] then [] else [ToFloat(ps[0].x), -ToFloat(ps[0].y)] + Coords(ps[1..])
  }

  // ---------------------------------------------------------------------------------------------
  // The encoding and its inverse
  // ---------------------------------------------------------------------------------------------

  function AllTypes(segments: seq<Segment>): seq<byte> {
    if segments == [] then [] else [Tag(segments[0])] + AllTypes(segments[1..])
  }

  function AllCoords(segments: seq<Segment>): seq<real> {
    if segments == [] then [] else Coords(PointsOf(segments[0])) + AllCoords(segments[1..])
  }

  /** The coordinates that a sequence of types calls for. */
  function CoordCount(types: seq<byte>): nat {
    if types == [] then 0 else 2 * PointCount(types[0]) + CoordCount(types[1..])
  }

  /** The number that a float stands for, if it is one that the cast can give. */
  function ToFixed(c: real): Option<int> {
    var n := (c * 64.0).Floor;
    if n as real / 64.0 == c && Exact(n) then Some(n) else None
  }

  function DecodePoints(c: seq<real>): Option<seq<Point>> {
    if c == [] then Some([])
    else if |c| == 1 then None
    else
      var x, y, rest := ToFixed(c[0]), ToFixed(-c[1]), DecodePoints(c[2..]);
      if x.Some? && y.Some? && rest.Some? then Some([Point(x.value, y.value)] + rest.value) else None
  }

  function Rebuild(tag: byte, ps: seq<Point>): Segment
    requires tag <= 3 && |ps| == PointCount(tag)
  {
    if tag == 0 then MoveTo(ps[0])
    else if tag == 1 then LineTo(ps[0])
    else if tag == 2 then ConicTo(ps[0], ps[1])
    else CubicTo(ps[0], ps[1], ps[2])
  }

  /** Read the two arrays as Path2D does: the type says how many coordinates belong to the segment. */
  function Decode(types: seq<byte>, coords: seq<real>): Option<seq<Segment>> {
    if types == [] then if coords == [] then Some([]) else None
    else
      var n := 2 * PointCount(types[0]);
      if types[0] > 3 || |coords| < n then None
      else
        var ps, rest := DecodePoints(coords[..n]), Decode(types[1..], coords[n..]);
        if ps.Some? && rest.Some? && 2 * |ps.value| == n then Some([Rebuild(types[0], ps.value)] + rest.value) else None
  }

  // ---------------------------------------------------------------------------------------------
  // What the cast does to an outline
  // ---------------------------------------------------------------------------------------------

  function RoundPoint(p: Point): Point {
    Point(Rounded(p.x), Rounded(p.y))
  }

  function RoundSegment(s: Segment): Segment {
    match s
    case MoveTo(to) => MoveTo(RoundPoint(to))
    case LineTo(to) => LineTo(RoundPoint(to))
    case ConicTo(control, to) => ConicTo(RoundPoint(control), RoundPoint(to))
    case CubicTo(control1, control2, to) => CubicTo(RoundPoint(control1), RoundPoint(control2), RoundPoint(to))
  }

  function RoundAll(segments: seq<Segment>): seq<Segment> {
    if segments == [] then [] else [RoundSegment(segments[0])] + RoundAll(segments[1..])
  }

  /** No coordinate has more than 24 significant bits. */
  predicate ExactPoint(p: Point) {
    Exact(p.x) && Exact(p.y)
  }

  predicate ExactSegment(s: Segment) {
    match s
    case MoveTo(to) => ExactPoint(to)
    case LineTo(to) => ExactPoint(to)
    case ConicTo(control, to) => ExactPoint(control) && ExactPoint(to)
    case CubicTo(control1, control2, to) => ExactPoint(control1) && ExactPoint(control2) && ExactPoint(to)
  }

  predicate ExactOutline(segments: seq<Segment>) {
    forall i | 0 <= i < |segments| :: ExactSegment(segments[i])
  }

  lemma PointIff(p: Point)
    ensures RoundPoint(p) == p <==> ExactPoint(p)
  {
    RoundedIff(p.x);
    RoundedIff(p.y);
  }

  lemma SegmentIff(s: Segment)
    ensures RoundSegment(s) == s <==> ExactSegment(s)
  {
    hide RoundPoint;
    hide ExactPoint;
    PointIff(s.to);
    if s.ConicTo? {
      PointIff(s.control);
    } else if s.CubicTo? {
      PointIff(s.control1);
      PointIff(s.control2);
    }
  }

  lemma {:induction false} OutlineIff(segments: seq<Segment>)
    ensures RoundAll(segments) == segments <==> ExactOutline(segments)
  {
    hide RoundSegment;
    hide ExactSegment;
    if segments != [] {
      SegmentIff(segments[0]);
      OutlineIff(segments[1..]);
      assert segments == [segments[0]] + segments[1..];
      var a, b := RoundAll(segments), RoundAll(segments[1..]);
      assert a[0] == RoundSegment(segments[0]) && a[1..] == b;
    }
  }

  function RoundPoints(ps: seq<Point>): seq<Point> {
    seq(|ps|, i requires 0 <= i < |ps| => RoundPoint(ps[i]))
  }

  lemma RoundSegmentPoints(s: Segment)
    ensures RoundPoints(PointsOf(s)) == PointsOf(RoundSegment(s)) && Tag(RoundSegment(s)) == Tag(s)
    ensures Rebuild(Tag(s), PointsOf(RoundSegment(s))) == RoundSegment(s)
  {
    hide RoundPoint;
  }

  // ---------------------------------------------------------------------------------------------
  // Round trips
  // ---------------------------------------------------------------------------------------------

  lemma FixedRoundTrip(n: int)
    ensures ToFixed(ToFloat(n)) == Some(Rounded(n)) && ToFixed(-(-ToFloat(n))) == Some(Rounded(n))
  {
    hide Rounded;
    hide Exact;
    RoundedIsExact(n);
    ExactRoundTrip(Rounded(n), ToFloat(n));
  }

  lemma ExactRoundTrip(k: int, c: real)
    requires Exact(k) && c == k as real / 64.0
    ensures ToFixed(c) == Some(k)
  {
    hide Exact;
    assert c * 64.0 == k as real;
  }

  lemma {:induction false} PointsRoundTrip(ps: seq<Point>)
    ensures DecodePoints(Coords(ps)) == Some(RoundPoints(ps))
  {
    hide ToFloat;
    hide ToFixed;
    hide Rounded;
    if ps == [] {
      assert RoundPoints(ps) == [];
    } else {
      FixedRoundTrip(ps[0].x);
      FixedRoundTrip(ps[0].y);
      PointsRoundTrip(ps[1..]);
      assert Coords(ps)[2..] == Coords(ps[1..]);
      assert RoundPoints(ps) == [RoundPoint(ps[0])] + RoundPoints(ps[1..]);
    }
  }

  /** Every sequence of segments is read back with its coordinates rounded by the cast, and unchanged exactly when
      no coordinate has more than 24 significant bits. */
  lemma {:induction false} OutlineRoundTrip(segments: seq<Segment>)
    ensures Decode(AllTypes(segments), AllCoords(segments)) == Some(RoundAll(segments))
    ensures Decode(AllTypes(segments), AllCoords(segments)) == Some(segments) <==> ExactOutline(segments)
  {
    OutlineReadsBack(segments);
    OutlineIff(segments);
  }

  lemma {:induction false} OutlineReadsBack(segments: seq<Segment>)
    ensures Decode(AllTypes(segments), AllCoords(segments)) == Some(RoundAll(segments))
  {
    hide RoundSegment;
    hide Coords;
    hide DecodePoints;
    hide Rebuild;
    if segments != [] {
      var s, rest := segments[0], AllCoords(segments[1..]);
      var c := Coords(PointsOf(s));
      OutlineReadsBack(segments[1..]);
      PointsRoundTrip(PointsOf(s));
      RoundSegmentPoints(s);
      assert (c + rest)[..|c|] == c && (c + rest)[|c|..] == rest;
      assert AllTypes(segments)[1..] == AllTypes(segments[1..]);
    }
  }

  lemma ExactAgain(c: real)
    requires ToFixed(c).Some?
    ensures ToFloat(ToFixed(c).value) == c
  {
    RoundedIff(ToFixed(c).value);
    hide Rounded;
    hide Exact;
  }

  lemma {:induction false} PointsInjective(c: seq<real>)
    requires DecodePoints(c).Some?
    ensures Coords(DecodePoints(c).value) == c
  {
    if c != [] {
      ExactAgain(c[0]);
      ExactAgain(-c[1]);
      hide ToFixed;
      hide ToFloat;
      PointsInjective(c[2..]);
      var ps := DecodePoints(c).value;
      assert ps[1..] == DecodePoints(c[2..]).value;
      assert c == [c[0], c[1]] + c[2..];
    }
  }

  lemma RebuildInverts(tag: byte, ps: seq<Point>)
    requires tag <= 3 && |ps| == PointCount(tag)
    ensures Tag(Rebuild(tag, ps)) == tag && PointsOf(Rebuild(tag, ps)) == ps
  {
  }

  lemma {:induction false} OneBefore(s: Segment, segments: seq<Segment>)
    ensures AllTypes([s] + segments) == [Tag(s)] + AllTypes(segments)
    ensures AllCoords([s] + segments) == Coords(PointsOf(s)) + AllCoords(segments)
  {
    assert ([s] + segments)[1..] == segments;
  }

  /** How arrays that can be read are read. */
  lemma {:induction false} DecodeStep(types: seq<byte>, coords: seq<real>)
    requires Decode(types, coords).Some? && types != []
    ensures var n := 2 * PointCount(types[0]);
      && types[0] <= 3 && n <= |coords|
      && DecodePoints(coords[..n]).Some? && |DecodePoints(coords[..n]).value| == PointCount(types[0])
      && Decode(types[1..], coords[n..]).Some?
      && Decode(types, coords).value
         == [Rebuild(types[0], DecodePoints(coords[..n]).value)] + Decode(types[1..], coords[n..]).value
  {
    hide DecodePoints;
    hide Rebuild;
  }

  /** Nothing else can be read: arrays that decode are the encoding of what they decode to. */
  lemma {:induction false} DecodeInverts(types: seq<byte>, coords: seq<real>)
    requires Decode(types, coords).Some?
    ensures var segments := Decode(types, coords).value; AllTypes(segments) == types && AllCoords(segments) == coords
  {
    if types != [] {
      DecodeStep(types, coords);
      hide Decode;
      hide Coords;
      hide Rebuild;
      hide DecodePoints;
      hide AllTypes;
      hide AllCoords;
      var n := 2 * PointCount(types[0]);
      var ps, rest := DecodePoints(coords[..n]).value, Decode(types[1..], coords[n..]).value;
      DecodeInverts(types[1..], coords[n..]);
      PointsInjective(coords[..n]);
      RebuildInverts(types[0], ps);
      OneBefore(Rebuild(types[0], ps), rest);
      assert types == [types[0]] + types[1..];
      assert coords == coords[..n] + coords[n..];
    }
  }

  /** The number of coordinates is fixed by the types. */
  lemma {:induction false} CountsAgree(segments: seq<Segment>)
    ensures |AllCoords(segments)| == CoordCount(AllTypes(segments)) && |AllTypes(segments)| == |segments|
  {
    if segments != [] {
      CountsAgree(segments[1..]);
      assert AllTypes(segments)[1..] == AllTypes(segments[1..]);
    }
  }

  lemma {:induction false} OneMore(segments: seq<Segment>, s: Segment)
    ensures AllTypes(segments + [s]) == AllTypes(segments) + [Tag(s)]
    ensures AllCoords(segments + [s]) == AllCoords(segments) + Coords(PointsOf(s))
  {
    if segments == [] {
      assert [s][1..] == [];
    } else {
      OneMore(segments[1..], s);
      assert (segments + [s])[1..] == segments[1..] + [s];
      Assoc([Tag(segments[0])], AllTypes(segments[1..]), [Tag(s)]);
      Assoc(Coords(PointsOf(segments[0])), AllCoords(segments[1..]), Coords(PointsOf(s)));
    }
  }

  /** The coordinates of a point are its 64ths, with y turned upside down. */
  lemma {:induction false} CoordsOfPoint(p: Point)
    requires ExactPoint(p)
    ensures Coords([p]) == [p.x as real / 64.0, -(p.y as real / 64.0)]
  {
    RoundedIff(p.x);
    RoundedIff(p.y);
    hide Rounded;
    hide Exact;
    assert [p][1..] == [];
  }

  /** Path2D's segment types: move, line, quadratic and cubic curve. */
  lemma TypesOfPath2D(a: Point, b: Point, c: Point)
    ensures AllTypes([MoveTo(a), LineTo(a), ConicTo(a, b), CubicTo(a, b, c)]) == [0, 1, 2, 3]
  {
    var s := [MoveTo(a), LineTo(a), ConicTo(a, b), CubicTo(a, b, c)];
    assert s[2..][1..] == s[3..] && s[1..][1..] == s[2..] && s[3..][1..] == [];
    assert AllTypes(s[3..]) == [3];
    assert AllTypes(s[2..]) == [2] + [3];
    assert AllTypes(s[1..]) == [1] + ([2] + [3]);
  }

  // ---------------------------------------------------------------------------------------------
  // The growing arrays
  // ---------------------------------------------------------------------------------------------

  const DEFAULT_LEN_TYPES := 10
  const DEFAULT_LEN_COORDS := 50

  class PathData {
    var pointTypes: array<byte>
    var numTypes: nat
    var pointCoords: array<real>
    var numCoords: nat

    ghost predicate Valid()
      reads this
    {
      numTypes <= pointTypes.Length && numCoords <= pointCoords.Length
    }

    ghost function Types(): seq<byte>
      reads this, pointTypes
      requires Valid()
    {
      pointTypes[..numTypes]
    }

    ghost function Floats(): seq<real>
      reads this, pointCoords
      requires Valid()
    {
      pointCoords[..numCoords]
    }

    constructor ()
      ensures Valid() && Types() == [] && Floats() == [] && fresh(pointTypes) && fresh(pointCoords)
    {
      pointTypes := new byte[DEFAULT_LEN_TYPES];
      numTypes := 0;
      pointCoords := new real[DEFAULT_LEN_COORDS];
      numCoords := 0;
    }

    /** Room for one more type and for coordCount more points; what is stored stays. */
    method CheckSize(coordCount: nat)
      requires Valid() && coordCount <= 3
      modifies this`pointTypes, this`pointCoords
      ensures Valid() && Types() == old(Types()) && Floats() == old(Floats())
      ensures numTypes < pointTypes.Length && numCoords + 2 * coordCount <= pointCoords.Length
      ensures pointTypes == old(pointTypes) || fresh(pointTypes)
      ensures pointCoords == old(pointCoords) || fresh(pointCoords)
    {
      if numTypes == pointTypes.Length {
        var was := pointTypes;
        pointTypes := new byte[was.Length + DEFAULT_LEN_TYPES](i requires 0 <= i reads was =>
          if i < was.Length then was[i] else 0);
      }
      if numCoords + coordCount * 2 > pointCoords.Length {
        var was := pointCoords;
        pointCoords := new real[was.Length + DEFAULT_LEN_COORDS](i requires 0 <= i reads was =>
          if i < was.Length then was[i] else 0.0);
      }
    }

    method PutType(tag: byte)
      requires Valid() && numTypes < pointTypes.Length
      modifies this`numTypes, pointTypes
      ensures Valid() && Types() == old(Types()) + [tag]
    {
      pointTypes[numTypes] := tag;
      numTypes := numTypes + 1;
    }

    method PutPoint(p: Point)
      requires Valid() && numCoords + 2 <= pointCoords.Length
      modifies this`numCoords, pointCoords
      ensures Valid() && numCoords == old(numCoords) + 2
      ensures Floats() == old(Floats()) + Coords([p])
    {
      pointCoords[numCoords] := ToFloat(p.x);
      numCoords := numCoords + 1;
      pointCoords[numCoords] := -ToFloat(p.y);
      numCoords := numCoords + 1;
      assert Coords([p]) == [ToFloat(p.x), -ToFloat(p.y)];
    }

    /** Whatever the arrays were, they grow by exactly this segment. */
    twostate predicate Appended(s: Segment)
      reads this, pointTypes, pointCoords
      requires old(Valid())
    {
      && Valid() && Types() == old(Types()) + [Tag(s)] && Floats() == old(Floats()) + Coords(PointsOf(s))
      && (pointTypes == old(pointTypes) || fresh(pointTypes)) && (pointCoords == old(pointCoords) || fresh(pointCoords))
    }

    method MoveToFunc(to: Point)
      requires Valid()
      modifies this, pointTypes, pointCoords
      ensures Appended(MoveTo(to))
    {
      CheckSize(1);
      PutType(0);
      PutPoint(to);
    }

    method LineToFunc(to: Point)
      requires Valid()
      modifies this, pointTypes, pointCoords
      ensures Appended(LineTo(to))
    {
      CheckSize(1);
      PutType(1);
      PutPoint(to);
    }

    method ConicToFunc(control: Point, to: Point)
      requires Valid()
      modifies this, pointTypes, pointCoords
      ensures Appended(ConicTo(control, to))
    {
      hide Coords;
      CheckSize(2);
      PutType(2);
      ghost var f := Floats();
      PutPoint(control);
      PutPoint(to);
      TwoPoints(f, control, to);
    }

    method CubicToFunc(control1: Point, control2: Point, to: Point)
      requires Valid()
      modifies this, pointTypes, pointCoords
      ensures Appended(CubicTo(control1, control2, to))
    {
      hide Coords;
      CheckSize(3);
      PutType(3);
      ghost var f := Floats();
      PutPoint(control1);
      PutPoint(control2);
      PutPoint(to);
      ThreePoints(f, control1, control2, to);
    }

    /** JFX_Outline_Funcs: the callback for each kind of segment. */
    method Add(s: Segment)
      requires Valid()
      modifies this, pointTypes, pointCoords
      ensures Appended(s)
    {
      hide Appended;
      match s
      case MoveTo(to) => MoveToFunc(to);
      case LineTo(to) => LineToFunc(to);
      case ConicTo(control, to) => ConicToFunc(control, to);
      case CubicTo(control1, control2, to) => CubicToFunc(control1, control2, to);
    }
  }

  lemma TwoPoints(f: seq<real>, p: Point, q: Point)
    ensures f + Coords([p]) + Coords([q]) == f + Coords([p, q])
  {
    assert [p, q][1..] == [q] && [p][1..] == [];
  }

  lemma ThreePoints(f: seq<real>, p: Point, q: Point, r: Point)
    ensures f + Coords([p]) + Coords([q]) + Coords([r]) == f + Coords([p, q, r])
  {
    assert [p, q, r][1..] == [q, r] && [p][1..] == [];
    TwoPoints(f + Coords([p]), q, r);
  }

  /** FT_Outline_Decompose calls back once for every segment, in order. */
  method CallBack(segments: seq<Segment>) returns (data: PathData)
    ensures data.Valid() && fresh(data) && fresh(data.pointTypes) && fresh(data.pointCoords)
    ensures data.Types() == AllTypes(segments) && data.Floats() == AllCoords(segments)
  {
    data := new PathData();
    var i := 0;
    while i < |segments|
      invariant 0 <= i <= |segments| && data.Valid() && fresh(data) && fresh(data.pointTypes) && fresh(data.pointCoords)
      invariant data.Types() == AllTypes(segments[..i]) && data.Floats() == AllCoords(segments[..i])
    {
      hide AllTypes;
      hide AllCoords;
      hide Coords;
      hide PointsOf;
      hide Tag;
      OneMore(segments[..i], segments[i]);
      assert segments[..i + 1] == segments[..i] + [segments[i]];
      data.Add(segments[i]);
      i := i + 1;
    }
    assert segments[..i] == segments;
  }

  /** Path2D gets the filled parts of the arrays. */
  method Decompose(segments: seq<Segment>) returns (types: seq<byte>, coords: seq<real>)
    ensures types == AllTypes(segments) && coords == AllCoords(segments)
    ensures Decode(types, coords) == Some(RoundAll(segments)) && |coords| == CoordCount(types)
    ensures Decode(types, coords) == Some(segments) <==> ExactOutline(segments)
  {
    hide Decode;
    hide AllTypes;
    hide AllCoords;
    hide CoordCount;
    hide RoundAll;
    hide ExactOutline;
    var data := CallBack(segments);
    types, coords := data.pointTypes[..data.numTypes], data.pointCoords[..data.numCoords];
    OutlineRoundTrip(segments);
    CountsAgree(segments);
  }
}
