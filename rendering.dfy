/** The coordinate text of a geometry (`toStringPoint` … `toStringMultiPolygon`
    and `__toString` in src/PHP/Types/AbstractGeometry.php) and its JSON
    object (`toJson`).

    The text is the part of a Well-Known Text geometry inside its outermost
    parentheses: `x y` for a point, points joined by `,` for a multi-point
    or line string, each line string in `(...)` joined by `,` for a
    polygon or multi-line string, and each polygon in `(...)` joined by
    `,` for a multi-polygon. Each renderer is specified by a function and
    implemented by a method with the accumulator loop of the source; a
    parser for the text proves that the rendering loses nothing. */
module Rendering {
  import opened Results
  import opened Strings
  import opened Coordinates
  import opened Geometries
  import opened Sequences

  /* ---------- specification ---------- */

  /** `toStringPoint`: the two coordinate texts separated by a space. */
  function PointText(p: Pair): string
  {
    CoordText(p.x) + " " + CoordText(p.y)
  }

  function PointTexts(ps: seq<Pair>): (r: seq<string>)
    ensures |r| == |ps|
    ensures forall i :: 0 <= i < |ps| ==> r[i] == PointText(ps[i])
  {
    seq(|ps|, i requires 0 <= i < |ps| => PointText(ps[i]))
  }

  /** `toStringMultiPoint` and `toStringLineString`: `implode(',', ...)` of
      the point texts, starting from an empty array. */
  function MultiPointText(ps: seq<Pair>): string
  {
    Join(",", PointTexts(ps))
  }

  /** `(text)`. */
  function Group(text: string): string
  {
    "(" + text + ")"
  }

  function Groups(ts: seq<string>): (r: seq<string>)
    ensures |r| == |ts|
    ensures forall i :: 0 <= i < |ts| ==> r[i] == Group(ts[i])
  {
    seq(|ts|, i requires 0 <= i < |ts| => Group(ts[i]))
  }

  function MultiPointTexts(ls: seq<seq<Pair>>): (r: seq<string>)
    ensures |r| == |ls|
    ensures forall i :: 0 <= i < |ls| ==> r[i] == MultiPointText(ls[i])
  {
    seq(|ls|, i requires 0 <= i < |ls| => MultiPointText(ls[i]))
  }

  function LineGroups(ls: seq<seq<Pair>>): (r: seq<string>)
    ensures |r| == |ls|
    ensures forall i :: 0 <= i < |ls| ==> r[i] == Group(MultiPointText(ls[i]))
  {
    seq(|ls|, i requires 0 <= i < |ls| => Group(MultiPointText(ls[i])))
  }

  /** `toStringMultiLineString` and `toStringPolygon`: each line string
      in parentheses, joined by `,`. The accumulator starts as `null`, so
      with no line string the source reaches `implode(',', null)`, which
      PHP rejects. */
  function MultiLineStringText(ls: seq<seq<Pair>>): Result<string>
  {
    if |ls| == 0 then Err(EngineError("implode")) else Ok(Join(",", LineGroups(ls)))
  }

  /** One iteration of `toStringMultiPolygon`: a polygon's text in
      parentheses. */
  function PolygonGroup(rings: seq<seq<Pair>>): Result<string>
  {
    var text :- MultiLineStringText(rings);
    Ok(Group(text))
  }

  /** `toStringMultiPolygon`: each polygon's text in parentheses, joined by
      `,`; like the multi-line-string renderer it starts from `null`, and a
      polygon without rings fails inside the loop. */
  function MultiPolygonText(pss: seq<seq<seq<Pair>>>): Result<string>
  {
    match Collect(PolygonGroup, pss)
    case Err(e) => Err(e)
    case Ok(groups) => if |pss| == 0 then Err(EngineError("implode")) else Ok(Join(",", groups))
  }

  /** `__toString`: the renderer named after the upper-cased type tag,
      applied to `toArray()`. */
  function ToString(g: Geometry): Result<string>
  {
    match g
    case Point(p) => Ok(PointText(p))
    case LineString(ps) => Ok(MultiPointText(ps))
    case Polygon(rings) => MultiLineStringText(rings)
    case MultiPoint(ps) => Ok(MultiPointText(ps))
    case MultiLineString(ls) => MultiLineStringText(ls)
    case MultiPolygon(pss) => MultiPolygonText(pss)
  }

  /** The object `toJson` encodes: `{"type": ..., "coordinates": ...}`. */
  datatype Json = Json(typeName: string, coordinates: Raw)

  /** `toJson`, up to the bytes `json_encode` writes: the type tag and the
      `toArray()` of the geometry. */
  function ToJson(g: Geometry): (r: Json)
    ensures r.typeName == Tag(g.Kind())
    ensures r.coordinates.List?
  {
    Json(Tag(g.Kind()), ToArray(g))
  }

  /* ---------- the renderers' loops ---------- */

  lemma PointTextsSnoc(ps: seq<Pair>, p: Pair)
    ensures PointTexts(ps + [p]) == PointTexts(ps) + [PointText(p)]
  {
    assert forall i :: 0 <= i < |ps| ==> (ps + [p])[i] == ps[i];
  }

  lemma LineGroupsSnoc(ls: seq<seq<Pair>>, l: seq<Pair>)
    ensures LineGroups(ls + [l]) == LineGroups(ls) + [Group(MultiPointText(l))]
  {
    assert forall i :: 0 <= i < |ls| ==> (ls + [l])[i] == ls[i];
  }

  /** `toStringMultiPoint`: push each point's text, then implode. */
  method RenderMultiPoint(ps: seq<Pair>) returns (text: string)
    ensures text == MultiPointText(ps)
  {
    var strings: seq<string> := [];
    var i := 0;
    while i < |ps|
      invariant 0 <= i <= |ps|
      invariant strings == PointTexts(ps[..i])
    {
      PointTextsSnoc(ps[..i], ps[i]);
      TakeSnoc(ps, i);
      strings := strings + [PointText(ps[i])];
      i := i + 1;
    }
    TakeAll(ps);
    text := Join(",", strings);
  }

  /** The array a renderer has built so far, as PHP holds it: still
      `null` until the first push. */
  function Pending(xs: seq<string>): Option<seq<string>>
  {
    if xs == [] then None else Some(xs)
  }

  /** `$strings[] = $x`, where a `null` `$strings` becomes an empty array
      first. */
  function Push(strings: Option<seq<string>>, x: string): (r: seq<string>)
    ensures r != []
  {
    match strings
    case None => [x]
    case Some(xs) => xs + [x]
  }

  lemma PushPending(xs: seq<string>, x: string)
    ensures Push(Pending(xs), x) == xs + [x]
  {
  }

  /** One iteration of the multi-line-string loop. */
  lemma LineGroupsStep(ls: seq<seq<Pair>>, i: nat)
    requires i < |ls|
    ensures Push(Pending(LineGroups(ls[..i])), Group(MultiPointText(ls[i]))) == LineGroups(ls[..i + 1])
  {
    PushPending(LineGroups(ls[..i]), Group(MultiPointText(ls[i])));
    LineGroupsSnoc(ls[..i], ls[i]);
    TakeSnoc(ls, i);
  }

  /** `toStringMultiLineString` (and `toStringPolygon`): `strings` starts
      as null, which the loop models as None. */
  method RenderMultiLineString(ls: seq<seq<Pair>>) returns (r: Result<string>)
    ensures r == MultiLineStringText(ls)
  {
    var strings: Option<seq<string>> := None;
    var i := 0;
    while i < |ls|
      invariant 0 <= i <= |ls|
      invariant strings == Pending(LineGroups(ls[..i]))
    {
      var text := RenderMultiPoint(ls[i]);
      LineGroupsStep(ls, i);
      strings := Some(Push(strings, Group(text)));
      i := i + 1;
    }
    TakeAll(ls);
    if strings.None? {
      return Err(EngineError("implode"));
    }
    r := Ok(Join(",", strings.value));
  }

  /** An iteration of the multi-polygon loop whose polygon fails ends it
      with that failure. */
  lemma MultiPolygonStepErr(pss: seq<seq<seq<Pair>>>, i: nat)
    requires i < |pss| && Collect(PolygonGroup, pss[..i]).Ok?
    requires MultiLineStringText(pss[i]).Err?
    ensures MultiPolygonText(pss) == Err(MultiLineStringText(pss[i]).error)
  {
    assert PolygonGroup(pss[i]) == Err(MultiLineStringText(pss[i]).error);
    CollectStopsAt(PolygonGroup, pss, i);
  }

  /** An iteration whose polygon renders pushes its group. */
  lemma MultiPolygonStepOk(pss: seq<seq<seq<Pair>>>, i: nat)
    requires i < |pss| && Collect(PolygonGroup, pss[..i]).Ok?
    requires MultiLineStringText(pss[i]).Ok?
    ensures Collect(PolygonGroup, pss[..i + 1]).Ok?
    ensures Push(Pending(Collect(PolygonGroup, pss[..i]).value), Group(MultiLineStringText(pss[i]).value)) ==
            Collect(PolygonGroup, pss[..i + 1]).value
  {
    assert PolygonGroup(pss[i]) == Ok(Group(MultiLineStringText(pss[i]).value));
    TakeSnoc(pss, i);
    CollectSnocOk(PolygonGroup, pss[..i], pss[i]);
    PushPending(Collect(PolygonGroup, pss[..i]).value, Group(MultiLineStringText(pss[i]).value));
  }

  /** `toStringMultiPolygon`: each polygon goes through the polygon
      renderer, whose failure ends the loop. */
  method RenderMultiPolygon(pss: seq<seq<seq<Pair>>>) returns (r: Result<string>)
    ensures r == MultiPolygonText(pss)
  {
    var strings: Option<seq<string>> := None;
    var i := 0;
    while i < |pss|
      invariant 0 <= i <= |pss|
      invariant Collect(PolygonGroup, pss[..i]).Ok?
      invariant strings == Pending(Collect(PolygonGroup, pss[..i]).value)
    {
      var text := RenderMultiLineString(pss[i]);
      if text.Err? {
        MultiPolygonStepErr(pss, i);
        return Err(text.error);
      }
      MultiPolygonStepOk(pss, i);
      strings := Some(Push(strings, Group(text.value)));
      i := i + 1;
    }
    TakeAll(pss);
    if strings.None? {
      return Err(EngineError("implode"));
    }
    r := Ok(Join(",", strings.value));
  }

  /** `__toString`: dispatch on the type tag to the renderer of that kind. */
  method Render(g: Geometry) returns (r: Result<string>)
    ensures r == ToString(g)
  {
    match g
    case Point(p) =>
      r := Ok(PointText(p));
    case LineString(ps) =>
      var text := RenderMultiPoint(ps);
      r := Ok(text);
    case Polygon(rings) =>
      r := RenderMultiLineString(rings);
    case MultiPoint(ps) =>
      var text := RenderMultiPoint(ps);
      r := Ok(text);
    case MultiLineString(ls) =>
      r := RenderMultiLineString(ls);
    case MultiPolygon(pss) =>
      r := RenderMultiPolygon(pss);
  }

  /* ---------- the texts the tests expect ---------- */

  /** The texts of four points, joined. */
  lemma FourPointsText(ps: seq<Pair>)
    requires |ps| == 4
    ensures MultiPointText(ps) ==
      PointText(ps[0]) + "," + PointText(ps[1]) + "," + PointText(ps[2]) + "," + PointText(ps[3])
  {
    JoinFourParts(",", PointTexts(ps));
  }

  /** The texts of five points, joined. */
  lemma FivePointsText(ps: seq<Pair>)
    requires |ps| == 5
    ensures MultiPointText(ps) ==
      PointText(ps[0]) + "," + PointText(ps[1]) + "," + PointText(ps[2]) + "," + PointText(ps[3]) + "," + PointText(ps[4])
  {
    JoinFiveParts(",", PointTexts(ps));
  }

  /** A point with whole coordinates prints as their decimal digits. */
  lemma WholePointText(p: Pair, a: nat, b: nat)
    requires p == Pair(a * Scale, b * Scale)
    ensures PointText(p) == NatToDecimal(a) + " " + NatToDecimal(b)
  {
    WholeCoordText(a);
    WholeCoordText(b);
  }

  lemma DecimalZero(n: nat)
    requires n == 0
    ensures NatToDecimal(n) == "0"
  {
  }

  lemma DecimalFive(n: nat)
    requires n == 5
    ensures NatToDecimal(n) == "5"
  {
  }

  lemma DecimalTen(n: nat)
    requires n == 10
    ensures NatToDecimal(n) == "10"
  {
    assert NatToDecimal(n) == NatToDecimal(1) + [DigitChar(0)];
  }

  /** A point with one-digit or ten whole coordinates, and its text. */
  lemma SmallPointText(p: Pair, a: nat, b: nat, text: string)
    requires a in {0, 5, 10} && b in {0, 5, 10}
    requires p == Pair(a * Scale, b * Scale)
    requires text == (if a == 0 then "0" else if a == 5 then "5" else "10") + " " +
                     (if b == 0 then "0" else if b == 5 then "5" else "10")
    ensures PointText(p) == text
  {
    WholePointText(p, a, b);
    if a == 0 { DecimalZero(a); } else if a == 5 { DecimalFive(a); } else { DecimalTen(a); }
    if b == 0 { DecimalZero(b); } else if b == 5 { DecimalFive(b); } else { DecimalTen(b); }
  }

  lemma TriangleJoin(t0: string, t1: string, t2: string)
    requires t0 == "0 0" && t1 == "0 5" && t2 == "5 0"
    ensures t0 + "," + t1 + "," + t2 + "," + t0 == "0 0,0 5,5 0,0 0"
  {
  }

  /** The line string and the multi-point of the tests,
      `[[0, 0], [0, 5], [5, 0], [0, 0]]`, print as `0 0,0 5,5 0,0 0`. */
  lemma TrianglePointsText(o: Pair, a: Pair, b: Pair)
    requires o == Pair(0, 0) && a == Pair(0, 5 * Scale) && b == Pair(5 * Scale, 0)
    ensures MultiPointText([o, a, b, o]) == "0 0,0 5,5 0,0 0"
  {
    SmallPointText(o, 0, 0, "0 0");
    SmallPointText(a, 0, 5, "0 5");
    SmallPointText(b, 5, 0, "5 0");
    FourPointsText([o, a, b, o]);
    TriangleJoin(PointText(o), PointText(a), PointText(b));
  }

  lemma TriangleText(o: Pair, a: Pair, b: Pair)
    requires o == Pair(0, 0) && a == Pair(0, 5 * Scale) && b == Pair(5 * Scale, 0)
    ensures ToString(LineString([o, a, b, o])) == Ok("0 0,0 5,5 0,0 0")
    ensures ToString(MultiPoint([o, a, b, o])) == Ok("0 0,0 5,5 0,0 0")
  {
    TrianglePointsText(o, a, b);
  }

  lemma SquareJoin(t0: string, t1: string, t2: string, t3: string)
    requires t0 == "0 0" && t1 == "10 0" && t2 == "10 10" && t3 == "0 10"
    ensures t0 + "," + t1 + "," + t2 + "," + t3 + "," + t0 == "0 0,10 0,10 10,0 10,0 0"
  {
  }

  /** The square ring of the multi-line-string tests,
      `[[0, 0], [10, 0], [10, 10], [0, 10], [0, 0]]`. */
  lemma SquareText(o: Pair, a: Pair, b: Pair, c: Pair)
    requires o == Pair(0, 0) && a == Pair(10 * Scale, 0) && b == Pair(10 * Scale, 10 * Scale) && c == Pair(0, 10 * Scale)
    ensures MultiPointText([o, a, b, c, o]) == "0 0,10 0,10 10,0 10,0 0"
  {
    SmallPointText(o, 0, 0, "0 0");
    SmallPointText(a, 10, 0, "10 0");
    SmallPointText(b, 10, 10, "10 10");
    SmallPointText(c, 0, 10, "0 10");
    FivePointsText([o, a, b, c, o]);
    SquareJoin(PointText(o), PointText(a), PointText(b), PointText(c));
  }

  /** Two line strings, joined as a multi-line string or polygon. */
  lemma TwoGroupsText(l0: seq<Pair>, l1: seq<Pair>)
    ensures MultiLineStringText([l0, l1]) == Ok(Group(MultiPointText(l0)) + "," + Group(MultiPointText(l1)))
  {
    var gs := LineGroups([l0, l1]);
    assert gs[1..] == [Group(MultiPointText(l1))];
  }

  lemma MultiLineStringToString(ls: seq<seq<Pair>>)
    ensures ToString(MultiLineString(ls)) == MultiLineStringText(ls)
  {
  }

  /** Two squares print as
      `(0 0,10 0,10 10,0 10,0 0),(0 0,10 0,10 10,0 10,0 0)`. */
  lemma TwoSquaresText(square: seq<Pair>, o: Pair, a: Pair, b: Pair, c: Pair)
    requires o == Pair(0, 0) && a == Pair(10 * Scale, 0) && b == Pair(10 * Scale, 10 * Scale) && c == Pair(0, 10 * Scale)
    requires square == [o, a, b, c, o]
    ensures ToString(MultiLineString([square, square])) ==
      Ok("(0 0,10 0,10 10,0 10,0 0),(0 0,10 0,10 10,0 10,0 0)")
  {
    SquareText(o, a, b, c);
    MultiLineStringToString([square, square]);
    TwoGroupsText(square, square);
    TwoSquaresJoin(MultiPointText(square));
  }

  lemma SquareGroup(t: string, g: string)
    requires t == "0 0,10 0,10 10,0 10,0 0" && g == "(0 0,10 0,10 10,0 10,0 0)"
    ensures Group(t) == g
  {
  }

  lemma TwoSquaresJoin(t: string)
    requires t == "0 0,10 0,10 10,0 10,0 0"
    ensures Group(t) + "," + Group(t) == "(0 0,10 0,10 10,0 10,0 0),(0 0,10 0,10 10,0 10,0 0)"
  {
    var g := "(0 0,10 0,10 10,0 10,0 0)";
    SquareGroup(t, g);
    TwoSquareGroups(g);
  }

  lemma TwoSquareGroups(g: string)
    requires g == "(0 0,10 0,10 10,0 10,0 0)"
    ensures g + "," + g == "(0 0,10 0,10 10,0 10,0 0),(0 0,10 0,10 10,0 10,0 0)"
  {
  }

  /* ---------- reading the text back ---------- */

  /** Reads `x y`. */
  function ParsePoint(s: string): Option<Pair>
  {
    var parts := Split(s, ' ');
    if |parts| != 2 then None
    else
      match ParseCoord(parts[0])
      case None => None
      case Some(x) =>
        match ParseCoord(parts[1])
        case None => None
        case Some(y) => Some(Pair(x, y))
  }

  /** Reads point texts one by one. */
  function ParsePoints(parts: seq<string>): (r: Option<seq<Pair>>)
    ensures r.Some? ==> |r.value| == |parts|
  {
    if parts == [] then Some([])
    else
      match ParsePoint(parts[0])
      case None => None
      case Some(p) =>
        match ParsePoints(parts[1..])
        case None => None
        case Some(ps) => Some([p] + ps)
  }

  /** Reads point texts separated by `,`; the empty text has no points. */
  function ParseMultiPoint(s: string): Option<seq<Pair>>
  {
    if s == "" then Some([]) else ParsePoints(Split(s, ','))
  }

  /** Reads `(t0),(t1),...`, where no `ti` holds a `)`. */
  function ParseGroups(s: string): Option<seq<string>>
    decreases |s|
  {
    if |s| == 0 || s[0] != '(' then None
    else
      var k := FirstIndex(s, ')');
      if k == |s| then None
      else
        var rest := s[k + 1..];
        if rest == [] then Some([s[1..k]])
        else if rest[0] != ',' then None
        else
          match ParseGroups(rest[1..])
          case None => None
          case Some(ts) => Some([s[1..k]] + ts)
  }

  function ParseMultiPoints(ts: seq<string>): (r: Option<seq<seq<Pair>>>)
    ensures r.Some? ==> |r.value| == |ts|
  {
    if ts == [] then Some([])
    else
      match ParseMultiPoint(ts[0])
      case None => None
      case Some(ps) =>
        match ParseMultiPoints(ts[1..])
        case None => None
        case Some(ls) => Some([ps] + ls)
  }

  /** Reads the text of a polygon or multi-line string. */
  function ParseMultiLineString(s: string): Option<seq<seq<Pair>>>
  {
    match ParseGroups(s)
    case None => None
    case Some(ts) => ParseMultiPoints(ts)
  }

  /** Two numerals separated by a space hold no other separator of the
      text grammar. */
  lemma SpacedNumerals(a: string, b: string)
    requires forall i :: 0 <= i < |a| ==> NumeralChar(a[i])
    requires forall i :: 0 <= i < |b| ==> NumeralChar(b[i])
    ensures var t := a + " " + b; ',' !in t && '(' !in t && ')' !in t
    ensures ' ' !in a && ' ' !in b
    ensures Join([' '], [a, b]) == a + " " + b
  {
    var t := a + " " + b;
    forall i | 0 <= i < |t| ensures t[i] != ',' && t[i] != '(' && t[i] != ')' {
      if i < |a| { assert t[i] == a[i]; }
      else if i > |a| { assert t[i] == b[i - |a| - 1]; }
    }
    assert [a, b][1..] == [b];
  }

  /** No separator of the text grammar occurs in a point's text but the
      space between its coordinates. */
  lemma PointTextChars(p: Pair)
    ensures ',' !in PointText(p) && '(' !in PointText(p) && ')' !in PointText(p)
    ensures PointText(p) == Join([' '], [CoordText(p.x), CoordText(p.y)])
    ensures ' ' !in CoordText(p.x) && ' ' !in CoordText(p.y)
    ensures PointText(p) != ""
  {
    CoordTextChars(p.x);
    CoordTextChars(p.y);
    SpacedNumerals(CoordText(p.x), CoordText(p.y));
  }

  /** A point's text reads back as the point. */
  lemma PointRoundTrip(p: Pair)
    ensures ParsePoint(PointText(p)) == Some(p)
  {
    PointTextChars(p);
    SplitJoin([CoordText(p.x), CoordText(p.y)], ' ');
    CoordRoundTrip(p.x);
    CoordRoundTrip(p.y);
  }

  lemma PointTextsTail(ps: seq<Pair>)
    requires ps != []
    ensures PointTexts(ps)[1..] == PointTexts(ps[1..])
  {
  }

  lemma {:induction false} PointsRoundTrip(ps: seq<Pair>)
    ensures ParsePoints(PointTexts(ps)) == Some(ps)
    decreases |ps|
  {
    if ps != [] {
      PointRoundTrip(ps[0]);
      PointTextsTail(ps);
      PointsRoundTrip(ps[1..]);
      HeadTail(ps);
    }
  }

  /** A multi-point or line-string text is empty exactly when there are no
      points, and holds no parenthesis. */
  lemma MultiPointTextChars(ps: seq<Pair>)
    ensures MultiPointText(ps) == "" <==> ps == []
    ensures '(' !in MultiPointText(ps) && ')' !in MultiPointText(ps)
  {
    var parts := PointTexts(ps);
    JoinChars(",", parts);
    forall i | 0 <= i < |parts| ensures '(' !in parts[i] && ')' !in parts[i] && parts[i] != "" {
      PointTextChars(ps[i]);
    }
  }

  /** A multi-point or line-string text reads back as its points. */
  lemma MultiPointRoundTrip(ps: seq<Pair>)
    ensures ParseMultiPoint(MultiPointText(ps)) == Some(ps)
  {
    MultiPointTextChars(ps);
    if ps != [] {
      forall i | 0 <= i < |ps| ensures ',' !in PointTexts(ps)[i] {
        PointTextChars(ps[i]);
      }
      SplitJoin(PointTexts(ps), ',');
      PointsRoundTrip(ps);
    }
  }

  /** A group followed by more text: its parenthesis is the first `)`,
      and the text splits around it. */
  lemma GroupAt(t: string, tail: string)
    requires ')' !in t
    ensures var s := Group(t) + tail;
      && s != [] && s[0] == '('
      && FirstIndex(s, ')') == |t| + 1
      && s[1..|t| + 1] == t
      && s[|t| + 2..] == tail
  {
    var head := "(" + t;
    assert ')' !in head by {
      forall j | 0 <= j < |head| ensures head[j] != ')' {
        if j > 0 { assert head[j] == t[j - 1]; }
      }
    }
    assert Group(t) + tail == head + [')'] + tail;
    FirstIndexAfter(head, ')', tail);
    AroundElement(head, ')', tail);
    assert (head + [')'] + tail)[1..|t| + 1] == head[1..];
  }

  /** The joined groups are the first group, then `,` and the joined rest. */
  lemma GroupsJoinHead(ts: seq<string>)
    requires |ts| >= 2
    ensures Join(",", Groups(ts)) == Group(ts[0]) + ("," + Join(",", Groups(ts[1..])))
  {
    assert Groups(ts)[1..] == Groups(ts[1..]);
    AppendAssoc(Group(ts[0]), ",", Join(",", Groups(ts[1..])));
  }

  /** Text of the form `(t0),(t1),...` reads back as its groups. */
  lemma {:induction false} GroupsRoundTrip(ts: seq<string>)
    requires |ts| >= 1
    requires forall i :: 0 <= i < |ts| ==> ')' !in ts[i]
    ensures ParseGroups(Join(",", Groups(ts))) == Some(ts)
    decreases |ts|
  {
    if |ts| == 1 {
      GroupAt(ts[0], "");
      assert Join(",", Groups(ts)) == Group(ts[0]) + "";
      Singleton(ts);
    } else {
      var more := Join(",", Groups(ts[1..]));
      GroupsJoinHead(ts);
      GroupAt(ts[0], "," + more);
      ConsTail(',', more);
      GroupsRoundTrip(ts[1..]);
      HeadTail(ts);
    }
  }

  lemma MultiPointTextsTail(ls: seq<seq<Pair>>)
    requires ls != []
    ensures MultiPointTexts(ls)[1..] == MultiPointTexts(ls[1..])
  {
  }

  lemma {:induction false} MultiPointsRoundTrip(ls: seq<seq<Pair>>)
    ensures ParseMultiPoints(MultiPointTexts(ls)) == Some(ls)
    decreases |ls|
  {
    if ls != [] {
      MultiPointRoundTrip(ls[0]);
      MultiPointTextsTail(ls);
      MultiPointsRoundTrip(ls[1..]);
      HeadTail(ls);
    }
  }

  /** A polygon or multi-line-string text reads back as its line strings,
      in order. */
  lemma MultiLineStringRoundTrip(ls: seq<seq<Pair>>)
    requires |ls| >= 1
    ensures MultiLineStringText(ls).Ok?
    ensures ParseMultiLineString(MultiLineStringText(ls).value) == Some(ls)
  {
    var ts := MultiPointTexts(ls);
    assert LineGroups(ls) == Groups(ts);
    forall i | 0 <= i < |ts| ensures ')' !in ts[i] {
      MultiPointTextChars(ls[i]);
    }
    GroupsRoundTrip(ts);
    MultiPointsRoundTrip(ls);
  }

  /* ---------- reading a multi-polygon text back ---------- */

  /** No `)` is directly followed by another `)`. */
  predicate NoDoubleClose(s: string)
  {
    forall i :: 0 <= i < |s| - 1 ==> !(s[i] == ')' && s[i + 1] == ')')
  }

  /** Position of the first `))` in `s`, or `|s|` when there is none. */
  function FirstDoubleClose(s: string): (k: nat)
    ensures k <= |s|
    ensures k < |s| ==> k + 1 < |s| && s[k] == ')' && s[k + 1] == ')'
    ensures forall j :: 0 <= j < k && j + 1 < |s| ==> !(s[j] == ')' && s[j + 1] == ')')
    decreases |s|
  {
    if |s| < 2 then |s|
    else if s[0] == ')' && s[1] == ')' then 0
    else
      var k := 1 + FirstDoubleClose(s[1..]);
      assert forall j :: 1 <= j < k && j + 1 < |s| ==> s[j] == s[1..][j - 1] && s[j + 1] == s[1..][j];
      k
  }

  /** Reads `((...)),((...)),...`: each polygon's text ends at the first
      `))`, whose first parenthesis closes its last ring. */
  function ParsePolygons(s: string): (r: Option<seq<seq<seq<Pair>>>>)
    decreases |s|
  {
    if |s| < 2 || s[0] != '(' then None
    else
      var k := FirstDoubleClose(s);
      if k + 1 >= |s| then None
      else
        var rest := s[k + 2..];
        match ParseMultiLineString(s[1..k + 1])
        case None => None
        case Some(ls) =>
          if rest == [] then Some([ls])
          else if rest[0] != ',' then None
          else
            match ParsePolygons(rest[1..])
            case None => None
            case Some(pss) => Some([ls] + pss)
  }

  /** The text of each polygon of a multi-polygon, before it is
      parenthesised. */
  function PolygonTexts(pss: seq<seq<seq<Pair>>>): (r: seq<string>)
    ensures |r| == |pss|
    ensures forall i :: 0 <= i < |pss| ==> r[i] == Join(",", LineGroups(pss[i]))
  {
    seq(|pss|, i requires 0 <= i < |pss| => Join(",", LineGroups(pss[i])))
  }

  /** Parenthesised texts of parenthesis-free parts, joined by `,`: the
      text starts with `(`, ends with `)` and has no `))`. */
  lemma {:induction false} GroupsShape(ts: seq<string>)
    requires |ts| >= 1
    requires forall i :: 0 <= i < |ts| ==> ')' !in ts[i]
    ensures var s := Join(",", Groups(ts));
      |s| >= 2 && s[0] == '(' && s[|s| - 1] == ')' && NoDoubleClose(s)
    decreases |ts|
  {
    var g := Group(ts[0]);
    assert forall i :: 0 <= i < |g| - 1 ==> g[i] != ')' by {
      forall i | 0 <= i < |g| - 1 ensures g[i] != ')' {
        if i > 0 { assert g[i] == ts[0][i - 1]; }
      }
    }
    if |ts| == 1 {
      assert Join(",", Groups(ts)) == g;
    } else {
      var r := Join(",", Groups(ts[1..]));
      GroupsJoinHead(ts);
      assert forall i :: 0 <= i < |ts[1..]| ==> ')' !in ts[1..][i] by {
        forall i | 0 <= i < |ts[1..]| ensures ')' !in ts[1..][i] {
          assert ts[1..][i] == ts[i + 1];
        }
      }
      GroupsShape(ts[1..]);
      var s := g + ("," + r);
      forall i | 0 <= i < |s| - 1 ensures !(s[i] == ')' && s[i + 1] == ')') {
        if i < |g| - 1 {
          assert s[i] == g[i];
        } else if i == |g| - 1 {
          assert s[i + 1] == ',';
        } else if i == |g| {
          assert s[i] == ',';
        } else {
          assert s[i] == r[i - |g| - 1] && s[i + 1] == r[i - |g|];
        }
      }
      assert s[0] == g[0];
      assert s[|s| - 1] == r[|r| - 1];
    }
  }

  /** A polygon's text starts with `(`, ends with `)` and has no `))`. */
  lemma PolygonTextShape(ls: seq<seq<Pair>>)
    requires |ls| >= 1
    ensures var m := Join(",", LineGroups(ls));
      |m| >= 2 && m[0] == '(' && m[|m| - 1] == ')' && NoDoubleClose(m)
  {
    var ts := MultiPointTexts(ls);
    assert LineGroups(ls) == Groups(ts);
    forall i | 0 <= i < |ts| ensures ')' !in ts[i] {
      MultiPointTextChars(ls[i]);
    }
    GroupsShape(ts);
  }

  /** In `(m)` followed by more text, where `m` ends with `)` and has no
      `))`, the first `))` closes the group. */
  lemma DoubleCloseAt(m: string, tail: string)
    requires |m| >= 1 && m[|m| - 1] == ')' && NoDoubleClose(m)
    ensures var s := Group(m) + tail;
      && |s| >= 2 && s[0] == '('
      && FirstDoubleClose(s) == |m|
      && s[1..|m| + 1] == m
      && s[|m| + 2..] == tail
  {
    var s := Group(m) + tail;
    assert s[|m|] == ')' && s[|m| + 1] == ')';
    forall j | 0 <= j < |m| ensures !(s[j] == ')' && s[j + 1] == ')') {
      if j > 0 { assert s[j] == m[j - 1] && s[j + 1] == m[j]; }
    }
    var k := FirstDoubleClose(s);
    assert s[1..|m| + 1] == m;
    assert s[|m| + 2..] == tail;
  }

  /** One step of ParsePolygons: a polygon group, then the end of the
      text or `,` and more groups. */
  lemma ParsePolygonsHead(m: string, ls: seq<seq<Pair>>, r: string)
    requires |m| >= 1 && m[|m| - 1] == ')' && NoDoubleClose(m)
    requires ParseMultiLineString(m) == Some(ls)
    ensures ParsePolygons(Group(m)) == Some([ls])
    ensures ParsePolygons(r).Some? ==> ParsePolygons(Group(m) + ("," + r)) == Some([ls] + ParsePolygons(r).value)
  {
    DoubleCloseAt(m, "");
    assert Group(m) + "" == Group(m);
    DoubleCloseAt(m, "," + r);
    ConsTail(',', r);
  }

  /** A polygon's text has the shape ParsePolygons looks for and reads
      back as its rings. */
  lemma PolygonHead(ls: seq<seq<Pair>>)
    requires |ls| >= 1
    ensures var m := Join(",", LineGroups(ls));
      && |m| >= 1 && m[|m| - 1] == ')' && NoDoubleClose(m)
      && ParseMultiLineString(m) == Some(ls)
  {
    PolygonTextShape(ls);
    MultiLineStringRoundTrip(ls);
  }

  lemma PolygonTextsTail(pss: seq<seq<seq<Pair>>>)
    requires pss != []
    ensures PolygonTexts(pss)[1..] == PolygonTexts(pss[1..])
  {
  }

  /** One polygon group in front of polygon groups that read back. */
  lemma PolygonGroupsStep(pss: seq<seq<seq<Pair>>>)
    requires |pss| >= 2 && |pss[0]| >= 1
    requires ParsePolygons(Join(",", Groups(PolygonTexts(pss[1..])))) == Some(pss[1..])
    ensures ParsePolygons(Join(",", Groups(PolygonTexts(pss)))) == Some(pss)
  {
    var ms := PolygonTexts(pss);
    PolygonHead(pss[0]);
    var r := Join(",", Groups(PolygonTexts(pss[1..])));
    PolygonTextsTail(pss);
    GroupsJoinHead(ms);
    ParsePolygonsHead(ms[0], pss[0], r);
    HeadTail(pss);
  }

  /** The parenthesised polygon texts, joined by `,`, read back as the
      polygons. */
  lemma {:induction false} PolygonGroupsRoundTrip(pss: seq<seq<seq<Pair>>>)
    requires |pss| >= 1
    requires forall i :: 0 <= i < |pss| ==> |pss[i]| >= 1
    ensures ParsePolygons(Join(",", Groups(PolygonTexts(pss)))) == Some(pss)
    decreases |pss|
  {
    if |pss| == 1 {
      var m := PolygonTexts(pss)[0];
      PolygonHead(pss[0]);
      assert Join(",", Groups(PolygonTexts(pss))) == Group(m);
      ParsePolygonsHead(m, pss[0], "");
      Singleton(pss);
    } else {
      assert forall i :: 0 <= i < |pss[1..]| ==> |pss[1..][i]| >= 1 by {
        forall i | 0 <= i < |pss[1..]| ensures |pss[1..][i]| >= 1 { assert pss[1..][i] == pss[i + 1]; }
      }
      PolygonGroupsRoundTrip(pss[1..]);
      PolygonGroupsStep(pss);
    }
  }

  /** A multi-polygon text reads back as its polygons, in order. */
  lemma MultiPolygonRoundTrip(pss: seq<seq<seq<Pair>>>)
    requires MultiPolygonText(pss).Ok?
    ensures ParsePolygons(MultiPolygonText(pss).value) == Some(pss)
  {
    RenderingFails(MultiPolygon(pss));
    var gs := Groups(PolygonTexts(pss));
    forall i | 0 <= i < |pss| ensures PolygonGroup(pss[i]) == Ok(gs[i]) {
    }
    CollectAllOk(PolygonGroup, pss, gs);
    PolygonGroupsRoundTrip(pss);
  }

  /** The renderers that start from `null` fail exactly when some level
      of the geometry is empty: a polygon or multi-line string without line
      strings, a multi-polygon without polygons or with a polygon without
      rings. A multi-point or line string always renders. */
  lemma RenderingFails(g: Geometry)
    ensures ToString(g).Err? <==>
      match g
      case Polygon(rings) => |rings| == 0
      case MultiLineString(ls) => |ls| == 0
      case MultiPolygon(pss) => |pss| == 0 || exists i :: 0 <= i < |pss| && |pss[i]| == 0
      case _ => false
    ensures ToString(g).Err? ==> ToString(g).error == EngineError("implode")
  {
    if g.MultiPolygon? {
      var pss := g.polygons;
      var c := Collect(PolygonGroup, pss);
      if c.Err? {
        CollectFirstError(PolygonGroup, pss);
      } else {
        forall i | 0 <= i < |pss| ensures |pss[i]| != 0 {
          assert PolygonGroup(pss[i]).Ok?;
        }
      }
    }
  }
}
