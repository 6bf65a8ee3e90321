/** The value conversions of src/DBAL/Types/AbstractSpatialType.php: a
    geometry object is written to its column as the platform's text, and a
    column value is read back through the text or the binary parser
    depending on its first character. */
module SpatialColumns {
  import opened Results
  import opened Strings
  import opened Coordinates
  import opened Geometries
  import opened Points
  import opened SpatialTypes
  import opened MySqlPlatform

  const NotAGeometry: GeoError := InvalidValue("Geometry column values must implement GeometryInterface", 0)

  /** `convertToDatabaseValue`: null stays null, a geometry object becomes
      its database text, and anything else is rejected. */
  function ToDatabaseValue(t: SpatialType, v: Raw): (r: Result<Option<string>>)
    ensures v.Null? ==> r == Ok(None)
    ensures !v.Null? && !v.Object? ==> r == Err(NotAGeometry)
    ensures v.Object? ==> (r.Ok? <==> DatabaseValue(v.geometry).Ok?)
    ensures v.Object? && r.Ok? ==> r.value == Some(DatabaseValue(v.geometry).value)
    ensures v.Object? && r.Ok? ==> r.value.Some? && StartsWithLetter(r.value.value)
  {
    match v
    case Null => Ok(None)
    case Object(_, g) =>
      DatabaseValueShape(g);
      var text :- DatabaseValue(g);
      Ok(Some(text))
    case _ => Err(NotAGeometry)
  }

  /** Whether `ctype_alpha($value[0])` holds: the first character is an
      ASCII letter. The empty string has no such character. */
  predicate StartsWithLetter(s: string)
  {
    |s| > 0 && IsAsciiLetter(s[0])
  }

  /** `convertToPHPValue`: null stays null; a value starting with a letter
      is WKT text, anything else is WKB. */
  function ToPhpValue(t: SpatialType, value: Option<string>,
                      wkt: string -> Result<ParsedValue>, wkb: string -> Result<ParsedValue>,
                      parse: AngleParser): (r: Result<Option<Geometry>>)
    ensures value.None? ==> r == Ok(None)
  {
    match value
    case None => Ok(None)
    case Some(s) =>
      Loaded(if StartsWithLetter(s) then ConvertStringToPhpValue(t, s, wkt, parse)
             else ConvertBinaryToPhpValue(t, s, wkb, parse))
  }

  /** A loaded geometry as a column value, which is never null. */
  function Loaded(r: Result<Geometry>): Result<Option<Geometry>>
  {
    match r
    case Ok(g) => Ok(Some(g))
    case Err(e) => Err(e)
  }

  /** A value starting with a letter goes to the text parser and any other
      value, the empty one included, to the binary parser. */
  lemma Routing(t: SpatialType, s: string, wkt: string -> Result<ParsedValue>,
                wkb: string -> Result<ParsedValue>, parse: AngleParser)
    ensures StartsWithLetter(s) ==>
      ToPhpValue(t, Some(s), wkt, wkb, parse) == Loaded(ConvertStringToPhpValue(t, s, wkt, parse))
    ensures !StartsWithLetter(s) ==>
      ToPhpValue(t, Some(s), wkt, wkb, parse) == Loaded(ConvertBinaryToPhpValue(t, s, wkb, parse))
    ensures ToPhpValue(t, Some([]), wkt, wkb, parse) == Loaded(ConvertBinaryToPhpValue(t, [], wkb, parse))
  {
  }

  /** A geometry written to its column and read back as text is the same
      geometry, when the text parser reads the texts the platform writes
      as the reference reader does. Every geometry text starts with its
      keyword, so it always takes the text path. A point's coordinates
      pass through PHP's float text on the way back, so they return
      rounded to 14 significant digits, and the geometry returns as it
      was exactly when they have no more. */
  lemma ColumnRoundTrip(t: SpatialType, g: Geometry, className: string,
                        wkt: string -> Result<ParsedValue>, wkb: string -> Result<ParsedValue>,
                        parse: AngleParser)
    requires g.Valid()
    requires ToDatabaseValue(t, Object(className, g)).Ok?
    requires forall s, h :: ReadDatabaseValue(s) == Some(h) ==> wkt(s) == Ok(ParsedValue(Tag(h.Kind()), Geometries.ToArray(h)))
    requires forall c :: parse(CoordText(c)) == Parsed(c)
    ensures PlainPrinted(g) ==>
      ToPhpValue(t, ToDatabaseValue(t, Object(className, g)).value, wkt, wkb, parse) == Ok(Some(Reloaded(g)))
    ensures PlainPrinted(g) ==>
      (ToPhpValue(t, ToDatabaseValue(t, Object(className, g)).value, wkt, wkb, parse) == Ok(Some(g)) <==>
       FourteenDigits(g))
  {
    var s := DatabaseValue(g).value;
    assert ToDatabaseValue(t, Object(className, g)).value == Some(s);
    Routing(t, s, wkt, wkb, parse);
    DatabaseValueRoundTrip(g);
    assert wkt(s) == Ok(ParsedValue(Tag(g.Kind()), Geometries.ToArray(g)));
    ConstNameIsUpperTag(g.Kind());
    FactoryRoundTrip(t, g, Tag(g.Kind()), parse);
  }

  /** `setGeometry('POINT(0 0)')`: a string is not a geometry object. */
  lemma TextIsNotAGeometry(t: SpatialType, s: string)
    ensures ToDatabaseValue(t, Text(s)) == Err(NotAGeometry)
  {
  }
}
