/** The geometry values of the library and the untyped PHP values its
    validators receive.

    A Geometry is what a concrete geometry object holds after validation,
    as returned by its `toArray()`: a Point holds one coordinate pair, a
    LineString or MultiPoint a sequence of pairs, a Polygon or
    MultiLineString a sequence of such sequences, and a MultiPolygon one
    level more. A Raw is any PHP value handed to a validator or a
    constructor. */
module Geometries {
  import opened Results
  import opened Strings
  import opened Coordinates

  /** The six type tags of the GeometryInterface constants. */
  datatype Kind =
    | PointKind
    | LineStringKind
    | PolygonKind
    | MultiPointKind
    | MultiLineStringKind
    | MultiPolygonKind

  /** The value of the type constant: what `getType()` returns and what the
      `type` member of the JSON object holds. */
  function Tag(k: Kind): string
  {
    match k
    case PointKind => "Point"
    case LineStringKind => "LineString"
    case PolygonKind => "Polygon"
    case MultiPointKind => "MultiPoint"
    case MultiLineStringKind => "MultiLineString"
    case MultiPolygonKind => "MultiPolygon"
  }

  /** The name of the type constant: the keyword of the database text and
      the key the factory looks up. */
  function ConstName(k: Kind): string
  {
    match k
    case PointKind => "POINT"
    case LineStringKind => "LINESTRING"
    case PolygonKind => "POLYGON"
    case MultiPointKind => "MULTIPOINT"
    case MultiLineStringKind => "MULTILINESTRING"
    case MultiPolygonKind => "MULTIPOLYGON"
  }

  /** Each constant is named by its value in upper case, which is what lets
      `strtoupper($this->getType())` name the constant of a geometry. */
  lemma ConstNameIsUpperTag(k: Kind)
    ensures Upper(Tag(k)) == ConstName(k)
  {
  }

  /** `defined('GeometryInterface::' . $name)`: the kind whose constant is
      called `name`, if there is one. */
  function KindNamed(name: string): (r: Option<Kind>)
    ensures r.Some? ==> ConstName(r.value) == name
  {
    if name == "POINT" then Some(PointKind)
    else if name == "LINESTRING" then Some(LineStringKind)
    else if name == "POLYGON" then Some(PolygonKind)
    else if name == "MULTIPOINT" then Some(MultiPointKind)
    else if name == "MULTILINESTRING" then Some(MultiLineStringKind)
    else if name == "MULTIPOLYGON" then Some(MultiPolygonKind)
    else None
  }

  /** `GeometryInterface::GEOMETRY`: the interface also defines this
      constant, whose value `Geometry` is the family name and names no kind
      of geometry. */
  const GeometryConstName: string := "GEOMETRY"

  /** `defined('...GeometryInterface::' . $name)`: the six kinds' constants
      and `GEOMETRY`. */
  predicate ConstantDefined(name: string)
  {
    KindNamed(name).Some? || name == GeometryConstName
  }

  /** `GEOMETRY` is defined but is no kind's constant. */
  lemma GeometryConstantIsNoKind()
    ensures ConstantDefined(GeometryConstName) && KindNamed(GeometryConstName).None?
    ensures forall k :: ConstName(k) != GeometryConstName
  {
    forall k ensures ConstName(k) != GeometryConstName {
      assert ConstName(k)[1] != GeometryConstName[1] || |ConstName(k)| != |GeometryConstName|;
    }
  }

  /** Every kind is found under its own constant name, so the lookup and
      the naming are inverse to each other. */
  lemma KindNamedConstName(k: Kind)
    ensures KindNamed(ConstName(k)) == Some(k)
  {
  }

  /** One position: x (longitude) and y (latitude). */
  datatype Pair = Pair(x: Coord, y: Coord)

  datatype Geometry =
    | Point(position: Pair)
    | LineString(points: seq<Pair>)
    | Polygon(rings: seq<seq<Pair>>)
    | MultiPoint(points: seq<Pair>)
    | MultiLineString(lineStrings: seq<seq<Pair>>)
    | MultiPolygon(polygons: seq<seq<seq<Pair>>>)
  {
    function Kind(): Kind
    {
      match this
      case Point(_) => PointKind
      case LineString(_) => LineStringKind
      case Polygon(_) => PolygonKind
      case MultiPoint(_) => MultiPointKind
      case MultiLineString(_) => MultiLineStringKind
      case MultiPolygon(_) => MultiPolygonKind
    }

    /** What validation guarantees: every ring of a polygon is closed. */
    predicate Valid()
    {
      match this
      case Polygon(rings) => AllClosed(rings)
      case MultiPolygon(polygons) => forall i :: 0 <= i < |polygons| ==> AllClosed(polygons[i])
      case _ => true
    }
  }

  /** A ring is closed when it has a first point and its last point is that
      same point. */
  predicate Closed(ring: seq<Pair>)
  {
    |ring| > 0 && ring[0] == ring[|ring| - 1]
  }

  predicate AllClosed(rings: seq<seq<Pair>>)
  {
    forall i :: 0 <= i < |rings| ==> Closed(rings[i])
  }

  /** How PHP holds a number: `gettype` tells an integer, a float and a
      numeric string apart. */
  datatype NumberKind = Integer | Double | NumericString(text: string)

  /** A PHP value as the validators and constructors receive it.
      - Number: anything `is_numeric` accepts, with its value. PHP's
        integers are whole, so a `Number` of kind `Integer` stands for a
        PHP integer only when its value is a multiple of `Scale`; the type
        does not enforce this, and an `Integer` with a fraction is a value
        PHP cannot produce.
      - Text: a string that is not numeric.
      - List: an array with keys 0, 1, ...
      - Object: a geometry object of this library, by class name.
      - Foreign: an object of any other class. */
  datatype Raw =
    | Number(value: Coord, kind: NumberKind)
    | Text(text: string)
    | Bool(truth: bool)
    | Null
    | List(items: seq<Raw>)
    | Object(className: string, geometry: Geometry)
    | Foreign(foreignClass: string)

  /** `is_object($v) ? get_class($v) : gettype($v)`. */
  function TypeName(v: Raw): string
  {
    match v
    case Number(_, Integer) => "integer"
    case Number(_, Double) => "double"
    case Number(_, NumericString(_)) => "string"
    case Text(_) => "string"
    case Bool(_) => "boolean"
    case Null => "NULL"
    case List(_) => "array"
    case Object(c, _) => c
    case Foreign(c) => c
  }

  /* ---------- toArray() ---------- */

  /** `[x, y]`, the array a point object returns: both are floats. */
  function PairArray(p: Pair): Raw
  {
    List([Number(p.x, Double), Number(p.y, Double)])
  }

  function PointsArray(ps: seq<Pair>): (r: Raw)
    ensures r.List? && |r.items| == |ps|
    ensures forall i :: 0 <= i < |ps| ==> r.items[i] == PairArray(ps[i])
  {
    List(seq(|ps|, i requires 0 <= i < |ps| => PairArray(ps[i])))
  }

  function LinesArray(ls: seq<seq<Pair>>): (r: Raw)
    ensures r.List? && |r.items| == |ls|
    ensures forall i :: 0 <= i < |ls| ==> r.items[i] == PointsArray(ls[i])
  {
    List(seq(|ls|, i requires 0 <= i < |ls| => PointsArray(ls[i])))
  }

  function PolygonsArray(pss: seq<seq<seq<Pair>>>): (r: Raw)
    ensures r.List? && |r.items| == |pss|
    ensures forall i :: 0 <= i < |pss| ==> r.items[i] == LinesArray(pss[i])
  {
    List(seq(|pss|, i requires 0 <= i < |pss| => LinesArray(pss[i])))
  }

  /** `toArray()`: the nested arrays of numbers a geometry object holds. */
  function ToArray(g: Geometry): (r: Raw)
    ensures r.List?
  {
    match g
    case Point(p) => PairArray(p)
    case LineString(ps) => PointsArray(ps)
    case Polygon(rings) => LinesArray(rings)
    case MultiPoint(ps) => PointsArray(ps)
    case MultiLineString(ls) => LinesArray(ls)
    case MultiPolygon(pss) => PolygonsArray(pss)
  }
}
