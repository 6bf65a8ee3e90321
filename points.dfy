/** The point object of src/PHP/Types/AbstractPoint.php: two coordinate
    fields set through parsing setters, and a constructor that accepts two
    scalar arguments or one array of two.

    The degree/minute/second parser the setters call belongs to another
    library; it is a parameter here (AngleParser), and the setters only
    translate its two kinds of failure. */
module Points {
  import opened Results
  import opened Strings
  import opened Coordinates
  import opened Geometries
  import opened Rendering
  import opened Validation
  import opened Sequences
  import opened PhpFloats

  /** What the angle parser makes of a coordinate text: a number, or one
      of the two exceptions the setters turn into InvalidValueException. */
  datatype ParseOutcome =
    | Parsed(value: Coord)
    | RangeError(message: string, code: int)
    | SyntaxError(message: string, code: int)

  type AngleParser = string -> ParseOutcome

  /* ---------- PHP's conversions to string ---------- */

  /** A number converted to a string: a numeric string keeps its own text,
      an integer prints its digits, and a float PHP's float form (14
      significant digits, exponent notation outside 10^-4 to 10^14). */
  function NumberText(c: Coord, kind: NumberKind): string
  {
    match kind
    case NumericString(t) => t
    case Integer => CoordText(c)
    case Double => FloatText(c)
  }

  /** The `%s` conversion of `sprintf`: null and false print nothing, an
      array prints `Array`, a geometry object prints its `__toString`. */
  function Stringify(v: Raw): Result<string>
  {
    match v
    case Number(c, kind) => Ok(NumberText(c, kind))
    case Text(t) => Ok(t)
    case Bool(b) => Ok(if b then "1" else "")
    case Null => Ok("")
    case List(_) => Ok("Array")
    case Object(_, g) => ToString(g)
    case Foreign(_) => Err(EngineError("string conversion"))
  }

  /** A value passed to a `string` parameter: scalars and objects with a
      `__toString` are converted; null, arrays and other objects fail the
      parameter's type. */
  function StringArgument(v: Raw): Result<string>
  {
    match v
    case Null => Err(EngineError("TypeError"))
    case List(_) => Err(EngineError("TypeError"))
    case Foreign(_) => Err(EngineError("TypeError"))
    case _ => Stringify(v)
  }

  /* ---------- specification ---------- */

  /** What `setX`/`setY` store for `v`, or the exception they raise: the
      parser's range and syntax errors keep their message and code. */
  function CoordinateValue(parse: AngleParser, v: Raw): Result<Coord>
  {
    var text :- StringArgument(v);
    match parse(text)
    case Parsed(c) => Ok(c)
    case RangeError(m, code) => Err(InvalidValue(m, code))
    case SyntaxError(m, code) => Err(InvalidValue(m, code))
  }

  /** `isValidTuple`: each of the two is numeric or a string. */
  predicate IsValidTuple(a: Raw, b: Raw)
  {
    (a.Number? || a.Text?) && (b.Number? || b.Text?)
  }

  /** How the constructor's error shows one argument: an array as `Array`,
      anything else as its string conversion in double quotes. */
  function ArgumentText(v: Raw): Result<string>
  {
    if v.List? then Ok("Array")
    else
      var t :- Stringify(v);
      Ok("\"" + t + "\"")
  }

  function ConstructorMessage(className: string, texts: seq<string>): string
  {
    "Invalid parameters passed to " + className + "::__construct: " + Join(", ", texts)
  }

  /** The two values the constructor's accepted shapes name: the two
      arguments themselves, or the two entries of a single array. */
  function TupleArguments(args: seq<Raw>): Option<(Raw, Raw)>
  {
    if |args| == 2 && IsValidTuple(args[0], args[1]) then Some((args[0], args[1]))
    else if |args| == 1 && args[0].List? && |args[0].items| == 2 && IsValidTuple(args[0].items[0], args[0].items[1])
    then Some((args[0].items[0], args[0].items[1]))
    else None
  }

  /** `new <className>(...$args)`: the position of the new point, or the
      exception the constructor lets out. */
  function PointFromArgs(className: string, args: seq<Raw>, parse: AngleParser): Result<Pair>
  {
    match TupleArguments(args)
    case Some((a, b)) =>
      var x :- CoordinateValue(parse, a);
      var y :- CoordinateValue(parse, b);
      Ok(Pair(x, y))
    case None =>
      var texts :- Collect(ArgumentText, args);
      Err(InvalidValue(ConstructorMessage(className, texts), 0))
  }

  /* ---------- the object ---------- */

  class Point {
    /** `get_class($this)`: the concrete class, which the constructor's
        error names. */
    const className: string
    var x: Coord
    var y: Coord

    /** The object before its constructor body runs. PHP leaves both typed
        fields uninitialised; no point escapes before both are set. */
    constructor Blank(className: string)
      ensures this.className == className && x == 0 && y == 0
    {
      this.className := className;
      x, y := 0, 0;
    }

    /** `new <className>(...$args)`. */
    static method New(className: string, args: seq<Raw>, parse: AngleParser) returns (r: Result<Point>)
      ensures r.Ok? <==> PointFromArgs(className, args, parse).Ok?
      ensures r.Ok? ==> fresh(r.value) && r.value.className == className
      ensures r.Ok? ==> r.value.Position() == PointFromArgs(className, args, parse).value
      ensures r.Err? ==> r.error == PointFromArgs(className, args, parse).error
    {
      var p := new Point.Blank(className);
      var tuple := TupleArguments(args);
      if tuple.Some? {
        var rx := p.SetX(tuple.value.0, parse);
        if rx.Err? {
          return Err(rx.error);
        }
        var ry := p.SetY(tuple.value.1, parse);
        if ry.Err? {
          return Err(ry.error);
        }
        return Ok(p);
      }
      var texts := Collect(ArgumentText, args);
      if texts.Err? {
        return Err(texts.error);
      }
      return Err(InvalidValue(ConstructorMessage(className, texts.value), 0));
    }

    function GetX(): Coord
      reads this
    {
      x
    }

    function GetY(): Coord
      reads this
    {
      y
    }

    /** The latitude is y. */
    function GetLatitude(): Coord
      reads this
    {
      GetY()
    }

    /** The longitude is x. */
    function GetLongitude(): Coord
      reads this
    {
      GetX()
    }

    function Position(): Pair
      reads this
    {
      Pair(x, y)
    }

    /** `setX`: x becomes the parsed value, or nothing changes and the
        exception is returned; y is never touched. */
    method SetX(v: Raw, parse: AngleParser) returns (r: Result<Point>)
      modifies this
      ensures CoordinateValue(parse, v).Ok? ==> GetX() == CoordinateValue(parse, v).value && r == Ok(this)
      ensures CoordinateValue(parse, v).Err? ==> x == old(x) && r == Err(CoordinateValue(parse, v).error)
      ensures y == old(y)
    {
      var text := StringArgument(v);
      if text.Err? {
        return Err(text.error);
      }
      match parse(text.value)
      case Parsed(c) =>
        x := c;
        r := Ok(this);
      case RangeError(m, code) =>
        r := Err(InvalidValue(m, code));
      case SyntaxError(m, code) =>
        r := Err(InvalidValue(m, code));
    }

    /** `setY`: y becomes the parsed value, or nothing changes and the
        exception is returned; x is never touched. */
    method SetY(v: Raw, parse: AngleParser) returns (r: Result<Point>)
      modifies this
      ensures CoordinateValue(parse, v).Ok? ==> GetY() == CoordinateValue(parse, v).value && r == Ok(this)
      ensures CoordinateValue(parse, v).Err? ==> y == old(y) && r == Err(CoordinateValue(parse, v).error)
      ensures x == old(x)
    {
      var text := StringArgument(v);
      if text.Err? {
        return Err(text.error);
      }
      match parse(text.value)
      case Parsed(c) =>
        y := c;
        r := Ok(this);
      case RangeError(m, code) =>
        r := Err(InvalidValue(m, code));
      case SyntaxError(m, code) =>
        r := Err(InvalidValue(m, code));
    }

    /** `setLatitude` writes y, so the latitude reads back what was set and
        the longitude is kept. */
    method SetLatitude(v: Raw, parse: AngleParser) returns (r: Result<Point>)
      modifies this
      ensures CoordinateValue(parse, v).Ok? ==> GetLatitude() == CoordinateValue(parse, v).value && r == Ok(this)
      ensures CoordinateValue(parse, v).Err? ==> GetLatitude() == old(GetLatitude()) && r == Err(CoordinateValue(parse, v).error)
      ensures GetLongitude() == old(GetLongitude())
    {
      r := SetY(v, parse);
    }

    /** `setLongitude` writes x, so the longitude reads back what was set
        and the latitude is kept. */
    method SetLongitude(v: Raw, parse: AngleParser) returns (r: Result<Point>)
      modifies this
      ensures CoordinateValue(parse, v).Ok? ==> GetLongitude() == CoordinateValue(parse, v).value && r == Ok(this)
      ensures CoordinateValue(parse, v).Err? ==> GetLongitude() == old(GetLongitude()) && r == Err(CoordinateValue(parse, v).error)
      ensures GetLatitude() == old(GetLatitude())
    {
      r := SetX(v, parse);
    }

    /** `getType()`: the tag whose upper case names the POINT constant. */
    function GetType(): (r: string)
      ensures KindNamed(Upper(r)) == Some(PointKind)
    {
      ConstNameIsUpperTag(PointKind);
      Tag(PointKind)
    }

    /** `toArray()`: `[x, y]` as floats, which every point validator
        accepts as this very position. */
    function ToArray(): (r: Raw)
      reads this
      ensures forall owner :: PointValue(owner, r) == Ok(Position())
    {
      PairArray(Position())
    }

    /** The point as a geometry value, for `__toString` and `toJson`. */
    function AsGeometry(): (g: Geometry)
      reads this
      ensures g.Kind() == PointKind && ToJson(g) == Json(GetType(), ToArray())
    {
      Point(Position())
    }
  }

  /* ---------- properties ---------- */

  /** Two numeric-or-string arguments: x is parsed from the first, y from
      the second, and the first failure is the constructor's. */
  lemma TwoArguments(className: string, a: Raw, b: Raw, parse: AngleParser)
    requires IsValidTuple(a, b)
    ensures PointFromArgs(className, [a, b], parse).Ok? <==>
      CoordinateValue(parse, a).Ok? && CoordinateValue(parse, b).Ok?
    ensures PointFromArgs(className, [a, b], parse).Ok? ==>
      PointFromArgs(className, [a, b], parse).value == Pair(CoordinateValue(parse, a).value, CoordinateValue(parse, b).value)
    ensures CoordinateValue(parse, a).Err? ==>
      PointFromArgs(className, [a, b], parse) == Err(CoordinateValue(parse, a).error)
  {
  }

  /** One array of two such values builds the same point as passing them
      as two arguments. */
  lemma ArrayArgument(className: string, a: Raw, b: Raw, parse: AngleParser)
    requires IsValidTuple(a, b)
    ensures PointFromArgs(className, [List([a, b])], parse) == PointFromArgs(className, [a, b], parse)
  {
  }

  /** A point is built only from one of the two accepted shapes; any other
      shape is rejected with code 0 and a message that lists every
      argument. */
  lemma OtherShapesRejected(className: string, args: seq<Raw>, parse: AngleParser)
    ensures PointFromArgs(className, args, parse).Ok? ==> TupleArguments(args).Some?
    ensures TupleArguments(args).None? && Collect(ArgumentText, args).Ok? ==>
      PointFromArgs(className, args, parse) ==
        Err(InvalidValue(ConstructorMessage(className, Collect(ArgumentText, args).value), 0))
    ensures TupleArguments(args).None? && Collect(ArgumentText, args).Ok? ==>
      |Collect(ArgumentText, args).value| == |args| &&
      forall i :: 0 <= i < |args| ==>
        Collect(ArgumentText, args).value[i] ==
          if args[i].List? then "Array" else "\"" + Stringify(args[i]).value + "\""
  {
  }

  /** An argument list with three or more entries, or none, is never a
      point. */
  lemma WrongArity(className: string, args: seq<Raw>, parse: AngleParser)
    requires |args| == 0 || |args| >= 3
    ensures PointFromArgs(className, args, parse).Err?
  {
  }

  /** The class the point tests construct. */
  const TestClass: string := "CrEOF\\Spatial\\PHP\\Types\\Geometry\\Point"

  /** A number is shown as its string conversion in quotes. */
  lemma QuotedNumber(c: Coord, kind: NumberKind)
    ensures ArgumentText(Number(c, kind)) == Ok("\"" + NumberText(c, kind) + "\"")
  {
  }

  /** A whole integer is shown as its decimal digits in quotes. */
  lemma WholeArgument(n: nat, c: Coord)
    requires c == n * Scale
    ensures ArgumentText(Number(c, Integer)) == Ok("\"" + NatToDecimal(n) + "\"")
  {
    QuotedNumber(c, Integer);
    WholeCoordText(n);
  }

  lemma QuotedDigit(d: nat, t: string)
    requires d < 10 && t == NatToDecimal(d)
    ensures "\"" + t + "\"" == ['"', DigitChar(d), '"']
  {
  }

  /** A one-digit integer is shown as that digit in quotes. */
  lemma DigitArgument(d: nat, c: Coord)
    requires 1 <= d <= 9 && c == d * Scale
    ensures ArgumentText(Number(c, Integer)) == Ok(['"', DigitChar(d), '"'])
  {
    WholeArgument(d, c);
    QuotedDigit(d, NatToDecimal(d));
  }

  /** The constructor's error once the argument texts are known. */
  lemma RejectedWith(args: seq<Raw>, texts: seq<string>, parse: AngleParser)
    requires TupleArguments(args).None?
    requires |args| == |texts| && forall i :: 0 <= i < |args| ==> ArgumentText(args[i]) == Ok(texts[i])
    ensures PointFromArgs(TestClass, args, parse) ==
      Err(InvalidValue("Invalid parameters passed to " + TestClass + "::__construct: " + Join(", ", texts), 0))
  {
    CollectAllOk(ArgumentText, args, texts);
  }

  /** `new Point(5, 5, 5, 5)`. */
  lemma TooManyArguments(five: Raw, parse: AngleParser)
    requires five == Number(5 * Scale, Integer)
    ensures PointFromArgs(TestClass, [five, five, five, five], parse) ==
      Err(InvalidValue("Invalid parameters passed to " + TestClass + "::__construct: " + "\"5\", \"5\", \"5\", \"5\"", 0))
  {
    var q := "\"5\"";
    FiveText(five, q);
    RejectedWith([five, five, five, five], [q, q, q, q], parse);
    FourFives(q);
  }

  lemma FiveText(five: Raw, q: string)
    requires five == Number(5 * Scale, Integer) && q == "\"5\""
    ensures ArgumentText(five) == Ok(q)
  {
    DigitArgument(5, 5 * Scale);
  }

  lemma FourFives(q: string)
    requires q == "\"5\""
    ensures Join(", ", [q, q, q, q]) == "\"5\", \"5\", \"5\", \"5\""
  {
    JoinFour(", ", q, q, q, q);
  }

  lemma ArraysAndNumber(a: string, n: string)
    requires a == "Array" && n == "\"1234\""
    ensures Join(", ", [a, a, n]) == "Array, Array, \"1234\""
  {
    JoinThree(", ", a, a, n);
  }

  /** `new Point([], [], '1234')`. */
  lemma WrongArgumentTypes(parse: AngleParser)
    ensures PointFromArgs(TestClass, [List([]), List([]), Number(1234 * Scale, NumericString("1234"))], parse) ==
      Err(InvalidValue("Invalid parameters passed to " + TestClass + "::__construct: " + "Array, Array, \"1234\"", 0))
  {
    var n := "\"1234\"";
    QuotedNumber(1234 * Scale, NumericString("1234"));
    assert "\"" + "1234" + "\"" == n;
    RejectedWith([List([]), List([]), Number(1234 * Scale, NumericString("1234"))], ["Array", "Array", n], parse);
    ArraysAndNumber("Array", n);
  }

  lemma TwoEmptyQuotes(e: string)
    requires e == "\"\""
    ensures Join(", ", [e, e]) == "\"\", \"\""
  {
    JoinTwo(", ", e, e);
  }

  /** `new Point(null, null)`: null is shown as empty quotes. */
  lemma TwoNulls(parse: AngleParser)
    ensures PointFromArgs(TestClass, [Null, Null], parse) ==
      Err(InvalidValue("Invalid parameters passed to " + TestClass + "::__construct: " + "\"\", \"\"", 0))
  {
    var e := "\"\"";
    assert ArgumentText(Null) == Ok("\"" + "" + "\"");
    assert "\"" + "" + "\"" == e;
    RejectedWith([Null, Null], [e, e], parse);
    TwoEmptyQuotes(e);
  }

  /** `new Point()`: the message ends after the colon. */
  lemma NoArguments(parse: AngleParser)
    ensures PointFromArgs(TestClass, [], parse) ==
      Err(InvalidValue("Invalid parameters passed to " + TestClass + "::__construct: ", 0))
  {
    RejectedWith([], [], parse);
    AppendEmpty("Invalid parameters passed to " + TestClass + "::__construct: ");
  }

  /** A float handed to `setX`/`setY` reaches the parser in PHP's float
      form: within the plain range as the coordinate text of its rounded
      value, and `0.00001` as `1.0E-5`. */
  lemma DoubleArgument(c: Coord)
    ensures StringArgument(Number(c, Double)) == Ok(FloatText(c))
    ensures PlainRange(c) ==> StringArgument(Number(c, Double)) == Ok(CoordText(Rounded(c)))
    ensures c == 1000 ==> StringArgument(Number(c, Double)) == Ok("1.0E-5")
  {
    assert StringArgument(Number(c, Double)) == Ok(FloatText(c));
    if PlainRange(c) {
      assert FloatText(c) == CoordText(Rounded(c)) by { FloatTextPlain(c); }
    }
    if c == 1000 {
      assert FloatText(c) == "1.0E-5" by { FloatTextTiny(c); }
    }
  }

  /** `new Point([5, 5])` is the point `5 5`, with any parser that reads
      `5` as five. */
  lemma PointFromArray(parse: AngleParser)
    requires parse("5") == Parsed(5 * Scale)
    ensures PointFromArgs(TestClass, [List([Number(5 * Scale, Integer), Number(5 * Scale, Integer)])], parse) ==
      Ok(Pair(5 * Scale, 5 * Scale))
    ensures ToString(Point(Pair(5 * Scale, 5 * Scale))) == Ok("5 5")
  {
    WholeCoordText(5);
    assert NatToDecimal(5) == "5";
    assert "5" + " " + "5" == "5 5";
  }
}
