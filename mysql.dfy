/** The MySQL platform of src/DBAL/Platform/MySql.php: how a spatial column
    is declared, how its SQL expressions are wrapped, the text a geometry
    is written as, and the factory that turns a parsed database value back
    into a geometry.

    The WKT and WKB parsers belong to another library; their output, a
    type name and a nested value, is an input here (ParsedValue). */
module MySqlPlatform {
  import opened Results
  import opened Strings
  import opened Coordinates
  import opened Geometries
  import opened Rendering
  import opened Validation
  import opened Points
  import opened SpatialTypes
  import opened PhpFloats

  /* ---------- column declaration ---------- */

  /** `getSQLDeclaration`: `GEOMETRY` for the type whose SQL name is the
      geography family name, otherwise the SQL name in upper case. */
  function SqlDeclaration(t: SpatialType): string
  {
    if SqlType(t) == GeographyFamily then "GEOMETRY" else Upper(SqlType(t))
  }

  /** The column of a `<Kind>Type` class is declared with the keyword of
      that kind, in either family. */
  lemma DeclarationOfKind(namespace: string, k: Kind, geography: bool)
    ensures SqlDeclaration(SpatialType(namespace + "\\" + Tag(k) + "Type", geography)) == ConstName(k)
  {
    assert '\\' !in Tag(k);
    SqlTypeOfClass(namespace, Tag(k), geography);
    assert Tag(k) != GeographyFamily;
    ConstNameIsUpperTag(k);
  }

  /** The plain `GeographyType` column is declared as `GEOMETRY`, since
      MySQL has no geography column. */
  lemma GeographyDeclaration(namespace: string, geography: bool)
    ensures SqlDeclaration(SpatialType(namespace + "\\" + "Geography" + "Type", geography)) == "GEOMETRY"
  {
    SqlTypeOfClass(namespace, "Geography", geography);
  }

  /** A declaration is always in upper case. */
  lemma DeclarationIsUpperCase(t: SpatialType)
    ensures Upper(SqlDeclaration(t)) == SqlDeclaration(t)
  {
    if SqlType(t) != GeographyFamily {
      UpperForgetsCase(SqlType(t));
    }
  }

  /* ---------- SQL wrapping ---------- */

  /** `sprintf('<name>(%s)', $arg)`. */
  function Call(name: string, arg: string): string
  {
    name + "(" + arg + ")"
  }

  /** The argument of a call to `name`, if `text` is one. */
  function CallArgument(name: string, text: string): Option<string>
  {
    if |text| >= |name| + 2 && text[..|name| + 1] == name + "(" && text[|text| - 1] == ')'
    then Some(text[|name| + 1..|text| - 1])
    else None
  }

  lemma CallRoundTrip(name: string, arg: string)
    ensures CallArgument(name, Call(name, arg)) == Some(arg)
  {
    var text := Call(name, arg);
    assert text[..|name| + 1] == name + "(";
    assert text[|name| + 1..|text| - 1] == arg;
  }

  /** `convertToPHPValueSQL`: the column is read through `ST_AsBinary`. */
  function ToPhpValueSql(expr: string): (r: string)
    ensures CallArgument("ST_AsBinary", r) == Some(expr)
  {
    CallRoundTrip("ST_AsBinary", expr);
    Call("ST_AsBinary", expr)
  }

  /** `convertToDatabaseValueSQL`: the value is written through
      `ST_GeomFromText`. */
  function ToDatabaseValueSql(expr: string): (r: string)
    ensures CallArgument("ST_GeomFromText", r) == Some(expr)
  {
    CallRoundTrip("ST_GeomFromText", expr);
    Call("ST_GeomFromText", expr)
  }

  /* ---------- the database text of a geometry ---------- */

  /** `convertToDatabaseValue`: the upper-cased type tag, then the
      geometry's `__toString` in parentheses. */
  function DatabaseValue(g: Geometry): Result<string>
  {
    var text :- ToString(g);
    Ok(Call(Upper(Tag(g.Kind())), text))
  }

  /** Every keyword starts with a letter. */
  lemma ConstNameStartsWithLetter(k: Kind)
    ensures |ConstName(k)| >= 1 && IsAsciiLetter(ConstName(k)[0])
  {
  }

  /** A call starts with the name it calls. */
  lemma CallHead(name: string, arg: string)
    requires name != []
    ensures Call(name, arg)[0] == name[0]
  {
  }

  /** The database text is the kind's keyword applied to the inner text,
      and it fails exactly when the inner text does. */
  lemma DatabaseValueShape(g: Geometry)
    ensures DatabaseValue(g).Ok? <==> ToString(g).Ok?
    ensures DatabaseValue(g).Ok? ==> CallArgument(ConstName(g.Kind()), DatabaseValue(g).value) == Some(ToString(g).value)
    ensures DatabaseValue(g).Ok? ==> IsAsciiLetter(DatabaseValue(g).value[0])
  {
    var k := g.Kind();
    ConstNameIsUpperTag(k);
    if ToString(g).Ok? {
      var text := ToString(g).value;
      assert DatabaseValue(g) == Ok(Call(ConstName(k), text));
      CallRoundTrip(ConstName(k), text);
      ConstNameStartsWithLetter(k);
      CallHead(ConstName(k), text);
    }
  }

  /** A reader for the texts DatabaseValue writes: the keyword up to the
      first `(`, then the inner text of that kind. */
  function ReadDatabaseValue(s: string): Option<Geometry>
  {
    var k := FirstIndex(s, '(');
    match KindNamed(s[..k])
    case None => None
    case Some(kind) =>
      match CallArgument(s[..k], s)
      case None => None
      case Some(inner) => ReadInner(kind, inner)
  }

  function ReadInner(kind: Kind, inner: string): Option<Geometry>
  {
    match kind
    case PointKind =>
      (match ParsePoint(inner) case None => None case Some(p) => Some(Point(p)))
    case LineStringKind =>
      (match ParseMultiPoint(inner) case None => None case Some(ps) => Some(LineString(ps)))
    case MultiPointKind =>
      (match ParseMultiPoint(inner) case None => None case Some(ps) => Some(MultiPoint(ps)))
    case PolygonKind =>
      (match ParseMultiLineString(inner) case None => None case Some(ls) => Some(Polygon(ls)))
    case MultiLineStringKind =>
      (match ParseMultiLineString(inner) case None => None case Some(ls) => Some(MultiLineString(ls)))
    case MultiPolygonKind =>
      (match ParsePolygons(inner) case None => None case Some(pss) => Some(MultiPolygon(pss)))
  }

  lemma ConstNameHasNoParenthesis(k: Kind)
    ensures '(' !in ConstName(k)
  {
  }

  lemma ReadPointText(p: Pair)
    ensures ReadInner(PointKind, PointText(p)) == Some(Point(p))
  {
    PointRoundTrip(p);
  }

  lemma ReadPointsText(k: Kind, ps: seq<Pair>)
    requires k == LineStringKind || k == MultiPointKind
    ensures ReadInner(k, MultiPointText(ps)) == Some(if k == LineStringKind then LineString(ps) else MultiPoint(ps))
  {
    MultiPointRoundTrip(ps);
  }

  lemma ReadLinesText(k: Kind, ls: seq<seq<Pair>>)
    requires k == PolygonKind || k == MultiLineStringKind
    requires MultiLineStringText(ls).Ok?
    ensures ReadInner(k, MultiLineStringText(ls).value) == Some(if k == PolygonKind then Polygon(ls) else MultiLineString(ls))
  {
    MultiLineStringRoundTrip(ls);
  }

  lemma ReadPolygonsText(inner: string, pss: seq<seq<seq<Pair>>>)
    requires ParsePolygons(inner) == Some(pss)
    ensures ReadInner(MultiPolygonKind, inner) == Some(MultiPolygon(pss))
  {
  }

  /** The inner text of every kind reads back as the geometry's content. */
  lemma InnerRoundTrip(g: Geometry)
    requires ToString(g).Ok?
    ensures ReadInner(g.Kind(), ToString(g).value) == Some(g)
  {
    match g
    case Point(p) => ReadPointText(p);
    case LineString(ps) => ReadPointsText(LineStringKind, ps);
    case MultiPoint(ps) => ReadPointsText(MultiPointKind, ps);
    case Polygon(rings) => ReadLinesText(PolygonKind, rings);
    case MultiLineString(ls) => ReadLinesText(MultiLineStringKind, ls);
    case MultiPolygon(pss) =>
      MultiPolygonRoundTrip(pss);
      ReadPolygonsText(ToString(g).value, pss);
  }

  /** A call to a kind's keyword is read as that kind's inner text. */
  lemma ReadCall(name: string, k: Kind, text: string)
    requires KindNamed(name) == Some(k) && '(' !in name
    ensures ReadDatabaseValue(Call(name, text)) == ReadInner(k, text)
  {
    var s := Call(name, text);
    assert s == name + ['('] + (text + ")");
    FirstIndexAfter(name, '(', text + ")");
    assert s[..|name|] == name;
    CallRoundTrip(name, text);
  }

  /** Writing a geometry to the database text loses nothing: the text
      reads back as the same geometry. */
  lemma DatabaseValueRoundTrip(g: Geometry)
    requires DatabaseValue(g).Ok?
    ensures ReadDatabaseValue(DatabaseValue(g).value) == Some(g)
  {
    ConstNameIsUpperTag(g.Kind());
    ConstNameHasNoParenthesis(g.Kind());
    KindNamedConstName(g.Kind());
    ReadCall(ConstName(g.Kind()), g.Kind(), ToString(g).value);
    InnerRoundTrip(g);
  }

  /* ---------- type mapping ---------- */

  /** `getMappedDatabaseTypes`: one name, the SQL type in lower case; a
      geography type other than the plain `geography` is wrapped as
      `geography(<name>)`. */
  function MappedDatabaseTypes(t: SpatialType): (r: seq<string>)
    ensures |r| == 1
    ensures t.geography && Lower(SqlType(t)) != "geography" ==>
      CallArgument("geography", r[0]) == Some(Lower(SqlType(t)))
    ensures !(t.geography && Lower(SqlType(t)) != "geography") ==> r[0] == Lower(SqlType(t))
  {
    var sqlType := Lower(SqlType(t));
    if t.geography && sqlType != "geography" then
      CallRoundTrip("geography", sqlType);
      [Call("geography", sqlType)]
    else [sqlType]
  }

  /* ---------- the factory ---------- */

  /** What the WKT and WKB parsers return: `['type' => ..., 'value' => ...]`. */
  datatype ParsedValue = ParsedValue(typeName: string, value: Raw)

  /** `Bcremer\Spatial\PHP\Types\<family>\<Tag>`: the class the factory
      instantiates. */
  function ClassName(family: string, k: Kind): string
  {
    "Bcremer\\Spatial\\PHP\\Types\\" + family + "\\" + Tag(k)
  }

  function UnsupportedType(family: string, typeName: string): GeoError
  {
    InvalidValue("Unsupported " + family + " type \"" + typeName + "\".", 0)
  }

  /** `new $class($value['value'])`: a point gets the value as its single
      argument; every other kind runs its own validator on it. */
  function Construct(className: string, k: Kind, value: Raw, parse: AngleParser): Result<Geometry>
  {
    match k
    case PointKind =>
      var p :- PointFromArgs(className, [value], parse);
      Ok(Point(p))
    case LineStringKind =>
      var ps :- PointsValue(LineStringKind, value);
      Ok(LineString(ps))
    case PolygonKind =>
      var rings :- PolygonValue(PolygonKind, value);
      Ok(Polygon(rings))
    case MultiPointKind =>
      var ps :- PointsValue(MultiPointKind, value);
      Ok(MultiPoint(ps))
    case MultiLineStringKind =>
      var ls :- MultiLineStringValue(MultiLineStringKind, value);
      Ok(MultiLineString(ls))
    case MultiPolygonKind =>
      var pss :- MultiPolygonValue(MultiPolygonKind, value);
      Ok(MultiPolygon(pss))
  }

  /** `newObjectFromValue`: the upper-cased type name must name a
      constant; the geometry is then built from the value as it is. The
      constant `GEOMETRY` passes the check but leads to the class
      `<family>\Geometry`, which is not part of this model: its
      instantiation is an engine error. */
  function NewObjectFromValue(t: SpatialType, v: ParsedValue, parse: AngleParser): Result<Geometry>
  {
    var typeName := Upper(v.typeName);
    match KindNamed(typeName)
    case None =>
      if typeName == GeometryConstName then Err(EngineError("class"))
      else Err(UnsupportedType(TypeFamily(t), typeName))
    case Some(k) => Construct(ClassName(TypeFamily(t), k), k, v.value, parse)
  }

  /** The type name is looked up without regard to case; a name that is no
      constant of the interface is rejected, `GEOMETRY` reaches a class
      outside the model, and a kind's name hands the value on unchanged. */
  lemma FactoryLookup(t: SpatialType, v: ParsedValue, name: string, parse: AngleParser)
    requires Upper(name) == Upper(v.typeName)
    ensures NewObjectFromValue(t, ParsedValue(name, v.value), parse) == NewObjectFromValue(t, v, parse)
    ensures !ConstantDefined(Upper(v.typeName)) ==>
      NewObjectFromValue(t, v, parse) == Err(UnsupportedType(TypeFamily(t), Upper(v.typeName)))
    ensures Upper(v.typeName) == GeometryConstName ==> NewObjectFromValue(t, v, parse) == Err(EngineError("class"))
    ensures KindNamed(Upper(v.typeName)).Some? ==>
      var k := KindNamed(Upper(v.typeName)).value;
      k == KindNamed(Upper(name)).value &&
      NewObjectFromValue(t, v, parse) == Construct(ClassName(TypeFamily(t), k), k, v.value, parse)
  {
    GeometryConstantIsNoKind();
  }

  /** `{type: "geometry", value: ...}`: the name passes the `defined` check
      in any case, so the error is not the unsupported-type exception. */
  lemma GeometryTypeName(t: SpatialType, value: Raw, name: string, parse: AngleParser)
    requires name == "geometry"
    ensures NewObjectFromValue(t, ParsedValue(name, value), parse) == Err(EngineError("class"))
  {
    assert Upper(name) == GeometryConstName;
    GeometryConstantIsNoKind();
  }

  /** A geometry as the factory rebuilds it from its array: a point's
      coordinates reach the setters as floats, so they come back rounded
      to PHP's 14 significant digits; the other kinds keep their numbers. */
  function Reloaded(g: Geometry): Geometry
  {
    match g
    case Point(p) => Point(Pair(Rounded(p.x), Rounded(p.y)))
    case _ => g
  }

  /** The geometries whose coordinates the setters receive in plain
      notation: points with both coordinates in the plain range, and every
      other kind. */
  predicate PlainPrinted(g: Geometry)
  {
    g.Point? ==> PlainRange(g.position.x) && PlainRange(g.position.y)
  }

  /** The geometries whose numbers survive PHP's float text: points whose
      coordinates have at most 14 significant digits (trailing zeros not
      counted, wherever the decimal point falls), and every other kind. */
  predicate FourteenDigits(g: Geometry)
  {
    g.Point? ==>
      |SignificantDigits(Abs(g.position.x))| <= Precision &&
      |SignificantDigits(Abs(g.position.y))| <= Precision
  }

  /** Rebuilding keeps a geometry exactly when its numbers have at most 14
      significant digits. */
  lemma ReloadedUnchanged(g: Geometry)
    ensures Reloaded(g) == g <==> FourteenDigits(g)
  {
    if g.Point? {
      SignificantKept(Abs(g.position.x));
      SignificantKept(Abs(g.position.y));
    }
  }

  /** A point a million degrees east of the origin has one significant
      digit, whatever the number of its digits, and comes back as it was. */
  lemma MillionKept(g: Geometry)
    requires g == Point(Pair(1000000 * Scale, 0))
    ensures FourteenDigits(g) && Reloaded(g) == g
  {
    assert 1000000 * Scale == Pow10(14) by {
      ScaleIsPow10();
      assert Pow10(6) == 1000000;
      Pow10Add(6, 8);
    }
    PowerDigits(14);
    PowerDigits(0);
    ReloadedUnchanged(g);
  }

  /** A float coordinate is read back through PHP's float text: in the
      plain range that is the coordinate text of the rounded value, which
      a parser reading coordinate texts returns as that value. */
  lemma DoubleCoordinate(parse: AngleParser, c: Coord)
    requires parse(CoordText(Rounded(c))) == Parsed(Rounded(c))
    ensures PlainRange(c) ==> CoordinateValue(parse, Number(c, Double)) == Ok(Rounded(c))
  {
    DoubleArgument(c);
  }

  /** A point is rebuilt from its `[x, y]` array, its coordinates rounded. */
  lemma PointConstructed(className: string, p: Pair, parse: AngleParser)
    requires forall c :: parse(CoordText(c)) == Parsed(c)
    ensures PlainPrinted(Point(p)) ==>
      Construct(className, PointKind, PairArray(p), parse) == Ok(Reloaded(Point(p)))
  {
    var a, b := Number(p.x, Double), Number(p.y, Double);
    DoubleCoordinate(parse, p.x);
    DoubleCoordinate(parse, p.y);
    assert TupleArguments([List([a, b])]) == Some((a, b));
  }

  lemma LineStringConstructed(className: string, ps: seq<Pair>, parse: AngleParser)
    ensures Construct(className, LineStringKind, PointsArray(ps), parse) == Ok(LineString(ps))
  {
    PointsArrayAccepted(LineStringKind, ps, "");
  }

  lemma MultiPointConstructed(className: string, ps: seq<Pair>, parse: AngleParser)
    ensures Construct(className, MultiPointKind, PointsArray(ps), parse) == Ok(MultiPoint(ps))
  {
    PointsArrayAccepted(MultiPointKind, ps, "");
  }

  lemma PolygonConstructed(className: string, rings: seq<seq<Pair>>, parse: AngleParser)
    requires AllClosed(rings)
    ensures Construct(className, PolygonKind, LinesArray(rings), parse) == Ok(Polygon(rings))
  {
    PolygonArrayAccepted(PolygonKind, rings);
  }

  lemma MultiLineStringConstructed(className: string, ls: seq<seq<Pair>>, parse: AngleParser)
    ensures Construct(className, MultiLineStringKind, LinesArray(ls), parse) == Ok(MultiLineString(ls))
  {
    MultiLineStringArrayAccepted(MultiLineStringKind, ls);
  }

  lemma MultiPolygonConstructed(className: string, pss: seq<seq<seq<Pair>>>, parse: AngleParser)
    requires forall i :: 0 <= i < |pss| ==> AllClosed(pss[i])
    ensures Construct(className, MultiPolygonKind, PolygonsArray(pss), parse) == Ok(MultiPolygon(pss))
  {
    MultiPolygonArrayAccepted(MultiPolygonKind, pss);
  }

  /** Every valid geometry whose coordinates print in plain notation is
      rebuilt from its `toArray()` by the constructor of its kind. */
  lemma ArrayConstructed(className: string, g: Geometry, parse: AngleParser)
    requires g.Valid()
    requires forall c :: parse(CoordText(c)) == Parsed(c)
    ensures PlainPrinted(g) ==> Construct(className, g.Kind(), Geometries.ToArray(g), parse) == Ok(Reloaded(g))
  {
    match g
    case Point(p) => PointConstructed(className, p, parse);
    case LineString(ps) => LineStringConstructed(className, ps, parse);
    case MultiPoint(ps) => MultiPointConstructed(className, ps, parse);
    case Polygon(rings) => PolygonConstructed(className, rings, parse);
    case MultiLineString(ls) => MultiLineStringConstructed(className, ls, parse);
    case MultiPolygon(pss) => MultiPolygonConstructed(className, pss, parse);
  }

  /** The factory rebuilds every valid geometry from its `toArray()` and
      its type tag in any case, given an angle parser that reads a printed
      coordinate back as itself: a point's coordinates come back rounded
      to 14 significant digits, so the geometry comes back as it was
      exactly when they have no more. */
  lemma FactoryRoundTrip(t: SpatialType, g: Geometry, typeName: string, parse: AngleParser)
    requires g.Valid()
    requires Upper(typeName) == ConstName(g.Kind())
    requires forall c :: parse(CoordText(c)) == Parsed(c)
    ensures PlainPrinted(g) ==>
      NewObjectFromValue(t, ParsedValue(typeName, Geometries.ToArray(g)), parse) == Ok(Reloaded(g))
    ensures PlainPrinted(g) ==>
      (NewObjectFromValue(t, ParsedValue(typeName, Geometries.ToArray(g)), parse) == Ok(g) <==> FourteenDigits(g))
  {
    KindNamedConstName(g.Kind());
    ArrayConstructed(ClassName(TypeFamily(t), g.Kind()), g, parse);
    ReloadedUnchanged(g);
  }

  /** `convertStringToPHPValue`: the WKT parser, then the factory. */
  function ConvertStringToPhpValue(t: SpatialType, text: string, wkt: string -> Result<ParsedValue>,
                                   parse: AngleParser): Result<Geometry>
  {
    var v :- wkt(text);
    NewObjectFromValue(t, v, parse)
  }

  /** `convertBinaryToPHPValue`: the WKB parser, then the same factory, so
      a binary and a text value that parse alike give the same geometry. */
  function ConvertBinaryToPhpValue(t: SpatialType, bytes: string, wkb: string -> Result<ParsedValue>,
                                   parse: AngleParser): (r: Result<Geometry>)
    ensures forall wkt: string -> Result<ParsedValue>, text: string :: wkt(text) == wkb(bytes) ==>
      r == ConvertStringToPhpValue(t, text, wkt, parse)
  {
    var v :- wkb(bytes);
    NewObjectFromValue(t, v, parse)
  }
}
