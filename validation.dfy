/** The validators of src/PHP/Types/AbstractGeometry.php.

    Each validator is specified by a function built on Collect (a `foreach`
    by reference whose body may throw) and implemented by a method with the
    source's loop. `owner` is the kind of the geometry doing the
    validation; its tag appears in the error messages. */
module Validation {
  import opened Results
  import opened Strings
  import opened Coordinates
  import opened Geometries
  import opened Rendering

  /* ---------- specification ---------- */

  /** The InvalidValueException of a value of the wrong type. */
  function WrongType(owner: Kind, expected: string, v: Raw): GeoError
  {
    InvalidValue("Invalid " + Tag(owner) + " " + expected + " value of type \"" + TypeName(v) + "\"", 0)
  }

  /** `validatePointValue`: a point object gives its `[x, y]`, an array of
      exactly two numbers gives those numbers, and anything else is
      rejected with a message naming its type. */
  function PointValue(owner: Kind, v: Raw): Result<Pair>
  {
    match v
    case Object(_, Point(p)) => Ok(p)
    case List(items) =>
      if |items| == 2 && items[0].Number? && items[1].Number?
      then Ok(Pair(items[0].value, items[1].value))
      else Err(WrongType(owner, "Point", v))
    case _ => Err(WrongType(owner, "Point", v))
  }

  function PointValidator(owner: Kind): Raw -> Result<Pair>
  {
    v => PointValue(owner, v)
  }

  /** `validateMultiPointValue`, which is also `validateLineStringValue`:
      a geometry object is replaced by its `toArray()`, and every element
      must be a point. */
  function PointsValue(owner: Kind, v: Raw): Result<seq<Pair>>
  {
    match v
    case Object(_, g) => Collect(PointValidator(owner), ToArray(g).items)
    case List(items) => Collect(PointValidator(owner), items)
    case _ => Err(NotIterable(TypeName(v)))
  }

  function PointsValidator(owner: Kind): Raw -> Result<seq<Pair>>
  {
    v => PointsValue(owner, v)
  }

  /** The ring a ring value stands for before its points are checked: a
      line-string object gives its `toArray()`, an array is taken as is. */
  function RingInput(owner: Kind, v: Raw): Result<Raw>
  {
    match v
    case Object(_, LineString(ps)) => Ok(PointsArray(ps))
    case List(_) => Ok(v)
    case _ => Err(WrongType(owner, "LineString", v))
  }

  /** `validateRingValue`: the ring's points, which must close. The
      message shows the ring as the line-string renderer prints it; an
      empty ring is not closed either. */
  function RingValue(owner: Kind, v: Raw): Result<seq<Pair>>
  {
    var ring :- RingInput(owner, v);
    var points :- PointsValue(owner, ring);
    if Closed(points) then Ok(points)
    else Err(InvalidValue("Invalid polygon, ring \"(" + MultiPointText(points) + ")\" is not closed", 0))
  }

  function RingValidator(owner: Kind): Raw -> Result<seq<Pair>>
  {
    v => RingValue(owner, v)
  }

  /** `validatePolygonValue(array $rings)`: every ring checked; a value that
      is not an array fails the parameter's type. */
  function PolygonValue(owner: Kind, v: Raw): Result<seq<seq<Pair>>>
  {
    match v
    case List(rings) => Collect(RingValidator(owner), rings)
    case _ => Err(EngineError("TypeError"))
  }

  /** One element of `validateMultiPolygonValue`: a geometry object is
      replaced by its `toArray()`, then checked as a polygon. */
  function PolygonEntry(owner: Kind, v: Raw): Result<seq<seq<Pair>>>
  {
    match v
    case Object(_, g) => PolygonValue(owner, ToArray(g))
    case _ => PolygonValue(owner, v)
  }

  function PolygonValidator(owner: Kind): Raw -> Result<seq<seq<Pair>>>
  {
    v => PolygonEntry(owner, v)
  }

  /** `validateMultiPolygonValue(array $polygons)`. */
  function MultiPolygonValue(owner: Kind, v: Raw): Result<seq<seq<seq<Pair>>>>
  {
    match v
    case List(polygons) => Collect(PolygonValidator(owner), polygons)
    case _ => Err(EngineError("TypeError"))
  }

  /** `validateMultiLineStringValue(array $lineStrings)`: every element is
      checked as a line string and nothing more; it need not close. */
  function MultiLineStringValue(owner: Kind, v: Raw): Result<seq<seq<Pair>>>
  {
    match v
    case List(lineStrings) => Collect(PointsValidator(owner), lineStrings)
    case _ => Err(EngineError("TypeError"))
  }

  /* ---------- properties ---------- */

  /** A point value is accepted in exactly two forms, and anything else is
      rejected with the message that names its type. */
  lemma PointValueForms(owner: Kind, v: Raw)
    ensures PointValue(owner, v).Ok? <==>
      (v.Object? && v.geometry.Point?) ||
      (v.List? && |v.items| == 2 && v.items[0].Number? && v.items[1].Number?)
    ensures PointValue(owner, v).Err? ==> PointValue(owner, v).error == WrongType(owner, "Point", v)
  {
  }

  /** A point's `toArray()` and the point object itself both validate to
      that point. */
  lemma PairArrayAccepted(owner: Kind, p: Pair, className: string)
    ensures PointValue(owner, PairArray(p)) == Ok(p)
    ensures PointValue(owner, Object(className, Point(p))) == Ok(p)
  {
  }

  /** Validating a point collection checks every element and keeps their
      number and order. */
  lemma PointsValueKeepsOrder(owner: Kind, items: seq<Raw>)
    ensures PointsValue(owner, List(items)).Ok? <==>
      forall i :: 0 <= i < |items| ==> PointValue(owner, items[i]).Ok?
    ensures PointsValue(owner, List(items)).Ok? ==>
      |PointsValue(owner, List(items)).value| == |items| &&
      forall i :: 0 <= i < |items| ==> PointValue(owner, items[i]) == Ok(PointsValue(owner, List(items)).value[i])
    ensures PointsValue(owner, List([])) == Ok([])
  {
    assert PointsValue(owner, List(items)) == Collect(PointValidator(owner), items);
  }

  /** Every `[x, y]` of a point list is accepted as that point. */
  lemma PairsAccepted(owner: Kind, ps: seq<Pair>)
    ensures Collect(PointValidator(owner), PointsArray(ps).items) == Ok(ps)
  {
    var items := PointsArray(ps).items;
    forall i | 0 <= i < |items| ensures PointValidator(owner)(items[i]) == Ok(ps[i]) {
      PairArrayAccepted(owner, ps[i], "");
    }
    CollectAllOk(PointValidator(owner), items, ps);
  }

  /** The arrays a line string or multi-point returns from `toArray()`
      validate back to its points, as does the object itself. */
  lemma PointsArrayAccepted(owner: Kind, ps: seq<Pair>, className: string)
    ensures PointsValue(owner, PointsArray(ps)) == Ok(ps)
    ensures PointsValue(owner, Object(className, LineString(ps))) == Ok(ps)
    ensures PointsValue(owner, Object(className, MultiPoint(ps))) == Ok(ps)
  {
    PairsAccepted(owner, ps);
    assert ToArray(LineString(ps)) == PointsArray(ps);
    assert ToArray(MultiPoint(ps)) == PointsArray(ps);
  }

  /** A ring is accepted exactly when it is a line string or an array whose
      points validate and close; the result is those points. */
  lemma RingValueClosed(owner: Kind, v: Raw)
    ensures RingValue(owner, v).Ok? <==>
      RingInput(owner, v).Ok? &&
      PointsValue(owner, RingInput(owner, v).value).Ok? &&
      Closed(PointsValue(owner, RingInput(owner, v).value).value)
    ensures RingValue(owner, v).Ok? ==>
      RingValue(owner, v) == PointsValue(owner, RingInput(owner, v).value)
  {
  }

  /** An open ring's error shows the ring as the renderer prints it, and an
      empty ring is open. */
  lemma OpenRingRejected(owner: Kind, ps: seq<Pair>)
    requires !Closed(ps)
    ensures RingValue(owner, PointsArray(ps)) ==
      Err(InvalidValue("Invalid polygon, ring \"(" + MultiPointText(ps) + ")\" is not closed", 0))
  {
    PointsArrayAccepted(owner, ps, "");
  }

  /** An empty ring is open, and its message shows empty parentheses. */
  lemma EmptyRingRejected(owner: Kind)
    ensures RingValue(owner, List([])) == Err(InvalidValue("Invalid polygon, ring \"()\" is not closed", 0))
  {
    PointsValueKeepsOrder(owner, []);
    assert MultiPointText([]) == "";
    assert "Invalid polygon, ring \"(" + "" + ")\" is not closed" == "Invalid polygon, ring \"()\" is not closed";
  }

  /** A closed ring, as an array or as a line-string object, validates to
      itself. */
  lemma ClosedRingAccepted(owner: Kind, ring: seq<Pair>, className: string)
    requires Closed(ring)
    ensures RingValue(owner, PointsArray(ring)) == Ok(ring)
    ensures RingValue(owner, Object(className, LineString(ring))) == Ok(ring)
  {
    PointsArrayAccepted(owner, ring, className);
  }

  /** Every ring of an accepted polygon is closed, and the rings keep their
      number and order. */
  lemma PolygonRingsClosed(owner: Kind, v: Raw)
    ensures PolygonValue(owner, v).Ok? ==>
      v.List? && |PolygonValue(owner, v).value| == |v.items| && AllClosed(PolygonValue(owner, v).value)
  {
    if PolygonValue(owner, v).Ok? {
      var rings := PolygonValue(owner, v).value;
      forall i | 0 <= i < |rings| ensures Closed(rings[i]) {
        assert RingValidator(owner)(v.items[i]) == Ok(rings[i]);
        RingValueClosed(owner, v.items[i]);
      }
    }
  }

  /** A polygon whose rings all close validates back from its
      `toArray()`. */
  lemma PolygonArrayAccepted(owner: Kind, rings: seq<seq<Pair>>)
    requires AllClosed(rings)
    ensures PolygonValue(owner, LinesArray(rings)) == Ok(rings)
  {
    var items := LinesArray(rings).items;
    forall i | 0 <= i < |items| ensures RingValidator(owner)(items[i]) == Ok(rings[i]) {
      ClosedRingAccepted(owner, rings[i], "");
    }
    CollectAllOk(RingValidator(owner), items, rings);
  }

  /** Every polygon of an accepted multi-polygon has only closed rings. */
  lemma MultiPolygonRingsClosed(owner: Kind, v: Raw)
    ensures MultiPolygonValue(owner, v).Ok? ==>
      v.List? && |MultiPolygonValue(owner, v).value| == |v.items| &&
      forall i :: 0 <= i < |v.items| ==> AllClosed(MultiPolygonValue(owner, v).value[i])
  {
    if MultiPolygonValue(owner, v).Ok? {
      var pss := MultiPolygonValue(owner, v).value;
      forall i | 0 <= i < |pss| ensures AllClosed(pss[i]) {
        var entry := v.items[i];
        assert PolygonValidator(owner)(entry) == Ok(pss[i]);
        PolygonRingsClosed(owner, if entry.Object? then ToArray(entry.geometry) else entry);
      }
    }
  }

  /** A multi-polygon whose rings all close validates back from its
      `toArray()`, and so does a list of polygon objects. */
  lemma MultiPolygonArrayAccepted(owner: Kind, pss: seq<seq<seq<Pair>>>)
    requires forall i :: 0 <= i < |pss| ==> AllClosed(pss[i])
    ensures MultiPolygonValue(owner, PolygonsArray(pss)) == Ok(pss)
  {
    var items := PolygonsArray(pss).items;
    forall i | 0 <= i < |items| ensures PolygonValidator(owner)(items[i]) == Ok(pss[i]) {
      PolygonArrayAccepted(owner, pss[i]);
    }
    CollectAllOk(PolygonValidator(owner), items, pss);
  }

  /** Any multi-line string validates back from its `toArray()`: its line
      strings need not close. */
  lemma MultiLineStringArrayAccepted(owner: Kind, ls: seq<seq<Pair>>)
    ensures MultiLineStringValue(owner, LinesArray(ls)) == Ok(ls)
  {
    var items := LinesArray(ls).items;
    forall i | 0 <= i < |items| ensures PointsValidator(owner)(items[i]) == Ok(ls[i]) {
      PointsArrayAccepted(owner, ls[i], "");
    }
    CollectAllOk(PointsValidator(owner), items, ls);
  }

  /** An open line string is a valid member of a multi-line string but not
      a valid polygon ring. */
  lemma OpenLineStringMember(a: Pair, b: Pair)
    requires a != b
    ensures MultiLineStringValue(MultiLineStringKind, LinesArray([[a, b]])) == Ok([[a, b]])
    ensures PolygonValue(PolygonKind, LinesArray([[a, b]])).Err?
  {
    MultiLineStringArrayAccepted(MultiLineStringKind, [[a, b]]);
    var items := LinesArray([[a, b]]).items;
    OpenRingRejected(PolygonKind, [a, b]);
    assert RingValidator(PolygonKind)(items[0]).Err?;
  }

  lemma IntegerPointMessage(n: Coord)
    ensures WrongType(LineStringKind, "Point", Number(n, Integer)) ==
      InvalidValue("Invalid LineString Point value of type \"integer\"", 0)
  {
    assert Tag(LineStringKind) == "LineString";
    assert TypeName(Number(n, Integer)) == "integer";
    assert "Invalid " + "LineString" + " " + "Point" + " value of type \"" + "integer" + "\""
      == "Invalid LineString Point value of type \"integer\"";
  }

  /** A line string of bare integers is rejected at its first element, with
      the message the line-string tests expect. */
  lemma BareNumbersRejected(n: Coord, rest: seq<Raw>)
    ensures PointsValue(LineStringKind, List([Number(n, Integer)] + rest)) ==
      Err(InvalidValue("Invalid LineString Point value of type \"integer\"", 0))
  {
    var items := [Number(n, Integer)] + rest;
    assert items[..0] == [];
    CollectStopsAt(PointValidator(LineStringKind), items, 0);
    IntegerPointMessage(n);
  }

  /* ---------- the validators' loops ---------- */

  /** The `foreach` of `validateMultiPointValue`: each element is replaced
      by its point, and the first element that is not one ends the loop. */
  method ValidatePoints(owner: Kind, points: seq<Raw>) returns (r: Result<seq<Pair>>)
    ensures r == Collect(PointValidator(owner), points)
  {
    var done: seq<Pair> := [];
    var i := 0;
    while i < |points|
      invariant 0 <= i <= |points|
      invariant Collect(PointValidator(owner), points[..i]) == Ok(done)
    {
      var point := PointValue(owner, points[i]);
      assert PointValidator(owner)(points[i]) == point;
      CollectStep(PointValidator(owner), points, i, done);
      if point.Err? {
        return Err(point.error);
      }
      done := done + [point.value];
      i := i + 1;
    }
    assert points[..i] == points;
    r := Ok(done);
  }

  /** `validateMultiPointValue`. */
  method ValidateMultiPointValue(owner: Kind, v: Raw) returns (r: Result<seq<Pair>>)
    ensures r == PointsValue(owner, v)
  {
    match v {
      case Object(_, g) => r := ValidatePoints(owner, ToArray(g).items);
      case List(items) => r := ValidatePoints(owner, items);
      case _ => r := Err(NotIterable(TypeName(v)));
    }
  }

  /** `validateLineStringValue`: the multi-point check, unchanged. */
  method ValidateLineStringValue(owner: Kind, v: Raw) returns (r: Result<seq<Pair>>)
    ensures r == PointsValue(owner, v)
  {
    r := ValidateMultiPointValue(owner, v);
  }

  /** `validateRingValue`. */
  method ValidateRingValue(owner: Kind, v: Raw) returns (r: Result<seq<Pair>>)
    ensures r == RingValue(owner, v)
  {
    var input := RingInput(owner, v);
    if input.Err? {
      return Err(input.error);
    }
    var points := ValidateMultiPointValue(owner, input.value);
    if points.Err? {
      return points;
    }
    var ring := points.value;
    if !Closed(ring) {
      var text := RenderMultiPoint(ring);
      return Err(InvalidValue("Invalid polygon, ring \"(" + text + ")\" is not closed", 0));
    }
    r := Ok(ring);
  }

  /** `validatePolygonValue`. */
  method ValidatePolygonValue(owner: Kind, v: Raw) returns (r: Result<seq<seq<Pair>>>)
    ensures r == PolygonValue(owner, v)
  {
    if !v.List? {
      return Err(EngineError("TypeError"));
    }
    var rings := v.items;
    var done: seq<seq<Pair>> := [];
    var i := 0;
    while i < |rings|
      invariant 0 <= i <= |rings|
      invariant Collect(RingValidator(owner), rings[..i]) == Ok(done)
    {
      var ring := ValidateRingValue(owner, rings[i]);
      assert RingValidator(owner)(rings[i]) == ring;
      CollectStep(RingValidator(owner), rings, i, done);
      if ring.Err? {
        return Err(ring.error);
      }
      done := done + [ring.value];
      i := i + 1;
    }
    assert rings[..i] == rings;
    r := Ok(done);
  }

  /** What the multi-polygon loop checks for one element. */
  lemma PolygonEntryOf(owner: Kind, v: Raw, polygon: Raw)
    requires polygon == if v.Object? then ToArray(v.geometry) else v
    ensures PolygonValidator(owner)(v) == PolygonValue(owner, polygon)
  {
  }

  /** `validateMultiPolygonValue`. */
  method ValidateMultiPolygonValue(owner: Kind, v: Raw) returns (r: Result<seq<seq<seq<Pair>>>>)
    ensures r == MultiPolygonValue(owner, v)
  {
    if !v.List? {
      return Err(EngineError("TypeError"));
    }
    var polygons := v.items;
    var done: seq<seq<seq<Pair>>> := [];
    var i := 0;
    while i < |polygons|
      invariant 0 <= i <= |polygons|
      invariant Collect(PolygonValidator(owner), polygons[..i]) == Ok(done)
    {
      var polygon := polygons[i];
      if polygon.Object? {
        polygon := ToArray(polygon.geometry);
      }
      var rings := ValidatePolygonValue(owner, polygon);
      PolygonEntryOf(owner, polygons[i], polygon);
      CollectStep(PolygonValidator(owner), polygons, i, done);
      if rings.Err? {
        return Err(rings.error);
      }
      done := done + [rings.value];
      i := i + 1;
    }
    assert polygons[..i] == polygons;
    r := Ok(done);
  }

  /** `validateMultiLineStringValue`. */
  method ValidateMultiLineStringValue(owner: Kind, v: Raw) returns (r: Result<seq<seq<Pair>>>)
    ensures r == MultiLineStringValue(owner, v)
  {
    if !v.List? {
      return Err(EngineError("TypeError"));
    }
    var lineStrings := v.items;
    var done: seq<seq<Pair>> := [];
    var i := 0;
    while i < |lineStrings|
      invariant 0 <= i <= |lineStrings|
      invariant Collect(PointsValidator(owner), lineStrings[..i]) == Ok(done)
    {
      var points := ValidateLineStringValue(owner, lineStrings[i]);
      assert PointsValidator(owner)(lineStrings[i]) == points;
      CollectStep(PointsValidator(owner), lineStrings, i, done);
      if points.Err? {
        return Err(points.error);
      }
      done := done + [points.value];
      i := i + 1;
    }
    assert lineStrings[..i] == lineStrings;
    r := Ok(done);
  }
}
