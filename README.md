# Spatial value objects and their MySQL mapping, in Dafny

This project models the geometry value layer of a Doctrine spatial extension
for MySQL, and the pure rules around it:

- **Validation.** The validators of the abstract geometry base class check
  point values, point collections, polygon rings, polygons, multi-polygons
  and multi-line strings.
- **Rendering.** The renderer produces the inner coordinate text of a
  geometry. This is the Well-Known Text grammar of OGC Simple Features
  Access Part 1, section 7, without the keyword: `x y`, `x y,x y`,
  `(x y,...),(...)` and `((...),(...)),(...)`.
- **JSON.** `toJson` emits a `{type, coordinates}` object shaped like a
  GeoJSON geometry object (section 3.1 of RFC 7946).
- **Point object.** It has an `x` and a `y` field, an arity-sniffing
  constructor, and setters that parse each coordinate with an angle parser
  and translate its errors.
- **Multi-line-string object.** It stores validated line strings, which can
  be replaced, appended to, and read back with `-1` meaning the last one.
- **MySQL platform and the spatial column type.**
  - Column declarations and mapped database type names.
  - The `ST_AsBinary(...)` and `ST_GeomFromText(...)` wrappers.
  - The `POINT(...)`-style database text.
  - The case-insensitive factory from a parsed `{type, value}` to a
    geometry.
  - The routing of a column value to the text parser or the binary parser.

## How it is modelled

- **Coordinates** (`coordinates.dfy`) are integers standing for multiples of
  10^-8. On that grid `sprintf('%.8F')` is exact, so the whole printing rule
  is modelled: 8 decimals, then trailing `0`s stripped, then a trailing `.`
  stripped. A reader proves that the printed text loses nothing.
- **PHP's float-to-string conversion** (`php_floats.dfy`) is what a float
  undergoes when it is passed to a point setter's `string` parameter or
  printed with `%s`.
  - The value is rounded to 14 significant digits, PHP's default
    `precision`.
  - It is written in plain notation from 10^-4 up to 10^14, and as
    `d.dddE+x` outside that range.
  - A lemma proves that in the plain range the text equals the coordinate
    text of the rounded value.
  - Rounding is done digit by digit, and a lemma proves it keeps a value
    exactly when the value has at most 14 significant digits, trailing
    zeros not counted.
- **Geometries** (`geometries.dfy`) form a closed datatype with six kinds.
  `Raw` is PHP's untyped input: a number (integer, float or numeric string),
  a non-numeric string, a boolean, null, a list, one of the library's
  geometry objects, or another object.
- **Errors** (`results.dfy`) are `Result` values.
  - `InvalidValue` carries the message and code of an
    InvalidValueException.
  - `EngineError` stands for a PHP engine error such as
    `implode(',', null)` or a parameter type error.
  - `Collect` is the validators' `foreach ($xs as &$x)` whose body may
    throw.
- **The validators and renderers** (`validation.dfy`, `rendering.dfy`)
  follow the source's form.
  - A specification function states each of them.
  - A method with the source's loop implements it, and its `ensures`
    equates the result with that function.
  - Lemmas prove the promised properties of the functions.
- **The point and the multi-line string** (`points.dfy`,
  `multilinestrings.dfy`) are classes whose methods update their fields.
  - The angle parser is a function parameter returning a value, a range
    error or a syntax error.
- **The MySQL platform and the column type** (`mysql.dfy`,
  `spatial_types.dfy`, `spatial_columns.dfy`) are functions.
  - The WKT and WKB parsers are function parameters.
  - The database-text round trip is proved against a reference reader of
    the texts the platform writes.

Where a stricter behaviour could be expected, the model follows the code.
`getLineString` remaps only `-1`, and every other index is looked up as
given. A missing element is an `UndefinedOffset` error. Empty polygons and
multi-line strings fail to render, because the accumulator starts as `null`.

## Model

| member | source | states |
|---|---|---|
| `Results.Collect` | src/PHP/Types/AbstractGeometry.php:112-116 | the by-reference `foreach` succeeds exactly when every element does, and then keeps the count and maps each element to its own result |
| `Results.CollectFirstError` | src/PHP/Types/AbstractGeometry.php:112-116 | a failing `foreach` reports the error of the first element that fails, and every element before it succeeded |
| `Coordinates.CoordTextForm` | src/PHP/Types/AbstractGeometry.php:191-200 | a coordinate prints as its sign, every whole digit of `%.8F`, then nothing for a whole number or `.` plus the fraction digits up to the last non-zero one |
| `Coordinates.CoordTextShape` | src/PHP/Types/AbstractGeometry.php:193-195 | the printed text is non-empty, never ends in `.`, never ends in `0` once it has a `.`, keeps every whole digit (so `10` stays `10`), and has a `.` exactly when the fraction is non-zero |
| `Coordinates.TrimFractionIdempotent` | src/PHP/Types/AbstractGeometry.php:193-195 | stripping zeros and then the point is idempotent on any text with at most one `.` |
| `Coordinates.TrimFractionTwoPoints` | src/PHP/Types/AbstractGeometry.php:193-195 | with two `.`s the stripping is not idempotent (`1.0.0` becomes `1.0`, then `1`) |
| `Coordinates.CoordTextChars` | src/PHP/Types/AbstractGeometry.php:191-195 | a printed coordinate holds only digits, `-` and `.` |
| `Coordinates.CoordRoundTrip` | src/PHP/Types/AbstractGeometry.php:191-195 | reading the printed text back gives the same coordinate, so 8-decimal printing and stripping lose nothing on the grid |
| `Coordinates.CoordTextInjective` | src/PHP/Types/AbstractGeometry.php:191-195 | distinct coordinates print differently |
| `Coordinates.WholeCoordText` | src/PHP/Types/AbstractGeometry.php:191-195 | a whole number prints as its decimal digits with no point |
| `Coordinates.CoordTextOne` | src/PHP/Types/AbstractGeometry.php:191-195 | `1.0` prints as `1` |
| `Coordinates.CoordTextTen` | src/PHP/Types/AbstractGeometry.php:191-195 | `10.0` prints as `10`: the zero before the point is kept |
| `Coordinates.CoordTextOneAndAHalf` | src/PHP/Types/AbstractGeometry.php:191-195 | `1.5` prints as `1.5` |
| `Geometries.ConstNameIsUpperTag` | src/PHP/Types/AbstractGeometry.php:42-45 | the upper-cased type tag is the name of the kind's constant and renderer (`Point` becomes `POINT`) |
| `Geometries.KindNamedConstName` | src/DBAL/Platform/MySql.php:150-158 | looking up a constant name finds exactly the kind it names |
| `Validation.PointValueForms` | src/PHP/Types/AbstractGeometry.php:62-72 | a point value is accepted exactly when it is a point object or an array of exactly two numbers; anything else fails with `Invalid <Type> Point value of type "<type>"` |
| `Validation.PairArrayAccepted` | src/PHP/Types/AbstractGeometry.php:64-68 | a point object and its `[x, y]` array both validate to that point |
| `Validation.PointsValueKeepsOrder` | src/PHP/Types/AbstractGeometry.php:106-117 | a point collection is accepted exactly when every element is a point value; the result keeps the count and the order, and the empty collection is accepted |
| `Validation.PointsArrayAccepted` | src/PHP/Types/AbstractGeometry.php:106-117 | a line string's or multi-point's `toArray()`, and the object itself, validate back to its points |
| `Validation.ValidateMultiPointValue` | src/PHP/Types/AbstractGeometry.php:106-117 | a geometry object is first turned into its array, and the result equals the multi-point specification, errors included |
| `Validation.ValidatePoints` | src/PHP/Types/AbstractGeometry.php:112-114 | the by-reference loop that replaces each element by its point computes exactly the collection of the point check, stopping at the first element that fails |
| `Validation.ValidateLineStringValue` | src/PHP/Types/AbstractGeometry.php:124-127 | the line-string check is exactly the multi-point check |
| `Validation.RingValueClosed` | src/PHP/Types/AbstractGeometry.php:80-99 | a ring is accepted exactly when it is a line-string object or an array whose points validate and whose first and last validated points are equal; the result is those points unchanged |
| `Validation.OpenRingRejected` | src/PHP/Types/AbstractGeometry.php:92-96 | an open ring fails with `Invalid polygon, ring "(<rendered ring>)" is not closed` |
| `Validation.EmptyRingRejected` | src/PHP/Types/AbstractGeometry.php:94-95 | an empty ring is not closed, and its message shows `()` |
| `Validation.ClosedRingAccepted` | src/PHP/Types/AbstractGeometry.php:80-99 | a closed ring, as an array or as a line-string object, validates to itself |
| `Validation.ValidateRingValue` | src/PHP/Types/AbstractGeometry.php:80-99 | the ring method computes exactly the ring specification, rendering the ring through the line-string renderer |
| `Validation.PolygonRingsClosed` | src/PHP/Types/AbstractGeometry.php:134-141 | every ring of an accepted polygon is closed, and the rings keep their count and order |
| `Validation.PolygonArrayAccepted` | src/PHP/Types/AbstractGeometry.php:134-141 | a polygon whose rings all close validates back from its `toArray()` |
| `Validation.ValidatePolygonValue` | src/PHP/Types/AbstractGeometry.php:134-141 | the polygon loop computes exactly the polygon specification |
| `Validation.MultiPolygonRingsClosed` | src/PHP/Types/AbstractGeometry.php:148-158 | every ring of every polygon of an accepted multi-polygon is closed, and the polygons keep their count and order |
| `Validation.MultiPolygonArrayAccepted` | src/PHP/Types/AbstractGeometry.php:148-158 | a multi-polygon whose rings all close validates back from its `toArray()` |
| `Validation.ValidateMultiPolygonValue` | src/PHP/Types/AbstractGeometry.php:148-158 | the multi-polygon loop, which turns polygon objects into their arrays first, computes exactly the multi-polygon specification |
| `Validation.MultiLineStringArrayAccepted` | src/PHP/Types/AbstractGeometry.php:165-172 | every multi-line string validates back from its `toArray()`, since its line strings need not close |
| `Validation.OpenLineStringMember` | src/PHP/Types/AbstractGeometry.php:165-172 | an open line string is a valid multi-line-string member but not a valid polygon ring |
| `Validation.ValidateMultiLineStringValue` | src/PHP/Types/AbstractGeometry.php:165-172 | the multi-line-string loop computes exactly its specification: the line-string check per element, with no closure requirement |
| `Validation.BareNumbersRejected` | tests/PHP/Types/Geometry/LineStringTest.php:155-160 | a line string of bare integers fails at its first element with `Invalid LineString Point value of type "integer"` |
| `Rendering.RenderMultiPoint` | src/PHP/Types/AbstractGeometry.php:209-228 | the accumulator loop yields the point texts joined by `,`, and `""` for no points |
| `Rendering.RenderMultiLineString` | src/PHP/Types/AbstractGeometry.php:235-254 | the loop yields each line string's text in `(...)`, joined by `,`; with no line string, the `null` accumulator makes it fail |
| `Rendering.RenderMultiPolygon` | src/PHP/Types/AbstractGeometry.php:261-270 | the loop yields each polygon's text in `(...)`, joined by `,`; a polygon without rings, or no polygon at all, makes it fail |
| `Rendering.Render` | src/PHP/Types/AbstractGeometry.php:40-46 | `__toString` dispatches on the type tag to the renderer of that kind |
| `Rendering.RenderingFails` | src/PHP/Types/AbstractGeometry.php:209-270 | rendering fails exactly for an empty polygon or multi-line string, an empty multi-polygon, or a multi-polygon with an empty polygon; a point, line string or multi-point always renders |
| `Rendering.MultiPointTextChars` | src/PHP/Types/AbstractGeometry.php:209-218 | a multi-point or line-string text is empty exactly when there are no points, and holds no parenthesis |
| `Rendering.PointRoundTrip` | src/PHP/Types/AbstractGeometry.php:189-202 | a point's `x y` text reads back as the point |
| `Rendering.MultiPointRoundTrip` | src/PHP/Types/AbstractGeometry.php:209-228 | a multi-point or line-string text reads back as its points, in order |
| `Rendering.MultiLineStringRoundTrip` | src/PHP/Types/AbstractGeometry.php:235-254 | a polygon or multi-line-string text reads back as its line strings, in order |
| `Rendering.MultiPolygonRoundTrip` | src/PHP/Types/AbstractGeometry.php:261-270 | a multi-polygon text reads back as its polygons, in order |
| `Rendering.TriangleText` | tests/PHP/Types/Geometry/LineStringTest.php:162-175 | the line string and the multi-point `[[0,0],[0,5],[5,0],[0,0]]` print as `0 0,0 5,5 0,0 0` |
| `Rendering.TwoSquaresText` | tests/PHP/Types/Geometry/MultiLineStringTest.php:236-259 | two square line strings print as `(0 0,10 0,10 10,0 10,0 0),(0 0,10 0,10 10,0 10,0 0)` |
| `Points.Point.New` | src/PHP/Types/AbstractPoint.php:46-73 | construction succeeds exactly when the argument-shape specification does, and then holds that position; otherwise it raises that specification's error; a float argument reaches the parser, and the error message, in PHP's float form |
| `Points.TwoArguments` | src/PHP/Types/AbstractPoint.php:50-55 | two numeric-or-string arguments set x from the first and y from the second; the first parse failure is the constructor's |
| `Points.ArrayArgument` | src/PHP/Types/AbstractPoint.php:57-63 | a single array of two numeric-or-string entries builds the same point as passing them as two arguments |
| `Points.OtherShapesRejected` | src/PHP/Types/AbstractPoint.php:65-72 | any other shape is rejected with `Invalid parameters passed to <class>::__construct: ` followed by each argument: an array as `Array`, anything else quoted |
| `Points.WrongArity` | src/PHP/Types/AbstractPoint.php:46-72 | no argument, or three or more, never makes a point |
| `Points.TooManyArguments` | tests/PHP/Types/Geometry/PointTest.php:206-213 | `new Point(5, 5, 5, 5)` fails with `... "5", "5", "5", "5"` |
| `Points.WrongArgumentTypes` | tests/PHP/Types/Geometry/PointTest.php:215-222 | `new Point([], [], '1234')` fails with `... Array, Array, "1234"` |
| `Points.NoArguments` | tests/PHP/Types/Geometry/PointTest.php:227-232 | `new Point()` fails with the message ending after `__construct: ` |
| `Points.TwoNulls` | tests/PHP/Types/Geometry/PointTest.php:238-245 | `new Point(null, null)` fails with `... "", ""`, since null is shown as empty quotes |
| `Points.PointFromArray` | tests/PHP/Types/Geometry/PointTest.php:198-204 | `new Point([5, 5])` is the point `5 5` |
| `Points.Point.SetX` | src/PHP/Types/AbstractPoint.php:75-88 | the argument is converted to a string (a float in PHP's float form) and parsed; x becomes the parsed value and the same object is returned; a range or syntax error becomes InvalidValue with the same message and code, and x keeps its old value; y never changes |
| `Points.Point.SetY` | src/PHP/Types/AbstractPoint.php:94-107 | the argument is converted to a string as for x and parsed; y becomes the parsed value and the same object is returned; on a parser error y keeps its old value; x never changes |
| `Points.DoubleArgument` | src/PHP/Types/AbstractPoint.php:75-77 | a float handed to a `string` parameter becomes PHP's float text: in the plain range the coordinate text of its value rounded to 14 significant digits, and `1.0E-5` for 0.00001 |
| `PhpFloats.RoundedMagnitude` | src/PHP/Types/AbstractPoint.php:75-77 | a magnitude of at most 14 digits in all is kept; a longer one ends within half a unit of its 14th digit |
| `PhpFloats.RoundToUnit` | src/PHP/Types/AbstractPoint.php:75-77 | rounding to a multiple of 10^k lands within half of 10^k of the value, and keeps the value exactly when its last k digits are zero |
| `PhpFloats.LastDigitsText` | src/PHP/Types/AbstractPoint.php:75-77 | the digit-by-digit remainder modulo 10^k is the number the last k characters of the decimal text make |
| `PhpFloats.SignificantKept` | src/PHP/Types/AbstractPoint.php:75-77 | the conversion keeps a magnitude exactly when it has at most 14 significant digits, trailing zeros not counted, wherever its decimal point falls |
| `PhpFloats.FloatTextPlain` | src/PHP/Types/AbstractPoint.php:75-77 | zero and the values between 10^-4 and 10^14 print as the coordinate text of the rounded value, so a value of at most 14 significant digits prints as its coordinate text |
| `PhpFloats.FloatTextExponent` | src/PHP/Types/AbstractPoint.php:94-96 | the text holds an `E` exactly when the value is outside that plain range |
| `PhpFloats.FloatTextTiny` | src/PHP/Types/AbstractPoint.php:75-77 | 0.00001 converts to `1.0E-5` |
| `PhpFloats.FloatTextHuge` | src/PHP/Types/AbstractPoint.php:94-96 | 10^14 converts to `1.0E+14` |
| `PhpFloats.FifteenDigitsRounded` | src/PHP/Types/AbstractPoint.php:75-77 | 1234567.12345678 comes back as 1234567.1234568 |
| `Points.Point.SetLatitude` | src/PHP/Types/AbstractPoint.php:120-131 | the latitude is y: setting it reads back through `getLatitude` and keeps the longitude |
| `Points.Point.SetLongitude` | src/PHP/Types/AbstractPoint.php:138-149 | the longitude is x: setting it reads back through `getLongitude` and keeps the latitude |
| `Points.Point.GetType` | src/PHP/Types/AbstractPoint.php:151-154 | the type is the tag whose upper case names the POINT constant |
| `Points.Point.ToArray` | src/PHP/Types/AbstractPoint.php:159-162 | `[x, y]`, which every point validator accepts as this very position |
| `Points.Point.AsGeometry` | src/PHP/Types/AbstractGeometry.php:48-54 | a point's JSON object is `{type: getType(), coordinates: toArray()}` |
| `MultiLineStrings.MultiLineString.New` | src/PHP/Types/AbstractMultiLineString.php:43-46 | construction is `setLineStrings` on a fresh object: it succeeds exactly when validation does, and then holds the validated input |
| `MultiLineStrings.EmptyAccepted` | tests/PHP/Types/Geometry/MultiLineStringTest.php:42-47 | an empty array is a valid multi-line string with no line strings |
| `MultiLineStrings.MultiLineString.SetLineStrings` | src/PHP/Types/AbstractMultiLineString.php:95-100 | the content becomes the validated input, with order and count kept, and the same object is returned; a failed validation leaves the content unchanged |
| `MultiLineStrings.MultiLineString.AddLineString` | src/PHP/Types/AbstractMultiLineString.php:53-58 | exactly one validated line string is appended, earlier ones are unchanged, `getLineString(-1)` returns it, and the same object is returned; a failed validation changes nothing |
| `MultiLineStrings.MultiLineString.GetLineString` | src/PHP/Types/AbstractMultiLineString.php:79-88 | `-1` gives the last line string and any other index the element at that index; only those succeed, and any index below `-1` is an undefined offset |
| `MultiLineStrings.MultiLineString.GetLineStrings` | src/PHP/Types/AbstractMultiLineString.php:63-72 | the counting loop returns exactly as many line strings as are stored, and element i is `getLineString(i)` |
| `MultiLineStrings.MultiLineString.GetType` | src/PHP/Types/AbstractMultiLineString.php:102-105 | the type is the tag whose upper case names the MULTILINESTRING constant |
| `MultiLineStrings.MultiLineString.ToArray` | src/PHP/Types/AbstractMultiLineString.php:107-110 | the stored arrays, which the validator accepts as this very content |
| `MultiLineStrings.MultiLineString.AsGeometry` | src/PHP/Types/AbstractGeometry.php:48-54 | a multi-line string's JSON object is `{type: getType(), coordinates: toArray()}` |
| `SpatialTypes.TypeFamily` | src/DBAL/Types/AbstractSpatialType.php:46-49 | the family is the geography family exactly for geography types, and the geometry family otherwise |
| `SpatialTypes.SqlTypeOfClass` | src/DBAL/Types/AbstractSpatialType.php:56-63 | the SQL type of a class `<namespace>\<Base>Type` is `<Base>`: the unqualified name less its last four characters |
| `SpatialTypes.PolygonTypeName` | src/DBAL/Types/AbstractSpatialType.php:56-63 | `PolygonType` has the SQL type `Polygon` |
| `SpatialTypes.CanRequireSqlConversion` | src/DBAL/Types/AbstractSpatialType.php:68-71 | always true |
| `SpatialTypes.RequiresSqlCommentHint` | src/DBAL/Types/AbstractSpatialType.php:176-179 | always true |
| `MySqlPlatform.DeclarationOfKind` | src/DBAL/Platform/MySql.php:50-57 | a `<Kind>Type` column is declared with the upper-case keyword of that kind, in either family |
| `MySqlPlatform.GeographyDeclaration` | src/DBAL/Platform/MySql.php:52-54 | the type whose SQL name is the geography family name is declared as `GEOMETRY` |
| `MySqlPlatform.DeclarationIsUpperCase` | src/DBAL/Platform/MySql.php:50-57 | every declaration is in upper case |
| `MySqlPlatform.ToPhpValueSql` | src/DBAL/Platform/MySql.php:65-68 | reading wraps the expression as `ST_AsBinary(<expr>)`, from which the expression is recovered |
| `MySqlPlatform.ToDatabaseValueSql` | src/DBAL/Platform/MySql.php:76-79 | writing wraps the expression as `ST_GeomFromText(<expr>)`, from which the expression is recovered |
| `MySqlPlatform.DatabaseValueShape` | src/DBAL/Platform/MySql.php:113-116 | the database text is the kind's upper-case keyword applied to the inner text; it fails exactly when the inner text does, and starts with a letter |
| `MySqlPlatform.DatabaseValueRoundTrip` | src/DBAL/Platform/MySql.php:113-116 | every database text reads back as the same geometry |
| `MySqlPlatform.MappedDatabaseTypes` | src/DBAL/Platform/MySql.php:125-134 | exactly one name: the lower-cased SQL type, wrapped as `geography(<name>)` for a geography type whose name is not `geography` |
| `MySqlPlatform.FactoryLookup` | src/DBAL/Platform/MySql.php:145-160 | the type name is looked up without regard to case; a name that is no interface constant fails with `Unsupported <family> type "<TAG>".`; `GEOMETRY` passes the check and leads to a class outside the model; a kind's name hands `value` unchanged to that kind's constructor |
| `MySqlPlatform.GeometryTypeName` | src/DBAL/Platform/MySql.php:150-159 | the type `geometry` is a defined constant, so it does not fail with the unsupported-type error |
| `MySqlPlatform.ReloadedUnchanged` | src/PHP/Types/AbstractPoint.php:75-77 | a geometry is rebuilt unchanged from its float coordinates exactly when its point coordinates have at most 14 significant digits, trailing zeros not counted |
| `MySqlPlatform.MillionKept` | src/PHP/Types/AbstractPoint.php:75-77 | a point at 1000000 has one significant digit and is rebuilt unchanged |
| `MySqlPlatform.FactoryRoundTrip` | src/DBAL/Platform/MySql.php:145-160 | every valid geometry whose point coordinates print in plain notation is rebuilt by the factory from its type tag, in any case, and its `toArray()`, with a point's coordinates rounded to 14 significant digits; it is the same geometry exactly when they have at most 14 |
| `MySqlPlatform.ConvertBinaryToPhpValue` | src/DBAL/Platform/MySql.php:87-105 | text and binary input that parse alike reach the same factory and give the same geometry |
| `SpatialColumns.ToDatabaseValue` | src/DBAL/Types/AbstractSpatialType.php:83-94 | null stays null; a non-geometry fails with `Geometry column values must implement GeometryInterface`; a geometry becomes its database text, which starts with a letter |
| `SpatialColumns.TextIsNotAGeometry` | tests/DBAL/Types/GeometryTypeTest.php:136-145 | the string `POINT(0 0)` is rejected as a column value |
| `SpatialColumns.ToPhpValue` | src/DBAL/Types/AbstractSpatialType.php:129-133 | a null column value converts to null |
| `SpatialColumns.Routing` | src/DBAL/Types/AbstractSpatialType.php:135-139 | a value starting with a letter goes to the text parser; any other value, the empty one included, goes to the binary parser |
| `SpatialColumns.ColumnRoundTrip` | src/DBAL/Types/AbstractSpatialType.php:83-140 | a valid geometry written to its column and read back takes the text path and gives the same geometry, a point's coordinates rounded to 14 significant digits; the same geometry exactly when they have at most 14 (both for points printed in plain notation) |

## Left out

- Floating point: coordinates are exact multiples of 10^-8. The rounding of
  a double by `sprintf('%.8F')` is not modelled, and neither are the
  `(float)` casts. PHP's conversion of a float to a string (14 significant
  digits, exponent notation outside 10^-4 to 10^14) is modelled on that
  grid.
- `PhpFloats.RoundedMagnitude` rounds the decimal value half up. PHP
  rounds the binary double, whose nearest value can lie on either side of
  a decimal tie, so a 15th digit of exactly 5 may round the other way.
- The closure check compares PHP values with `!==`, so an integer `0` and a
  float `0.0` count as different. The model has one coordinate type and
  compares values.
- PHP arrays with keys other than `0, 1, ...` are not modelled. `List` is
  an array with consecutive keys.
- Validation of a point collection that is neither an array nor a geometry
  object of this library. PHP's `foreach` over a scalar only warns and
  returns the scalar. Over an object of another class (`Foreign`) it walks
  the object's public properties, which the model does not hold. The model
  rejects both with `NotIterable`.
- `MySqlPlatform.FactoryRoundTrip`: a point coordinate below 10^-4, or one
  that rounds to 10^14 or more, reaches the angle parser in exponent
  notation (`1.0E-5`). What that parser makes of it is not stated, so the
  round trip is stated only for points printed in plain notation.
- `SpatialColumns.ColumnRoundTrip`: stated only for points printed in plain
  notation, for the same reason.
- `MultiLineStrings.MultiLineString.GetLineString`: for a missing element
  PHP warns and passes `null` to the LineString constructor. That class is
  not part of this model, so the model returns `UndefinedOffset`.
- The concrete LineString, Polygon, MultiPoint and MultiPolygon classes are
  not part of this model. They appear only through the shared validators,
  the renderers and the factory's constructor dispatch.
- The degree/minute/second angle parser is another library. It is the
  `AngleParser` parameter, and its own test cases are not restated.
- The WKT and WKB parsers are another library. Their `{type, value}` output
  is an input. The database-text round trip uses a reference reader of the
  texts the platform writes, not those parsers.
- The bytes `json_encode` writes are not modelled. `toJson` is modelled as
  the `{type, coordinates}` structure.
- The exception `previous` chain is not modelled. The `InvalidValue` error
  keeps the message and the code.
- Dynamic class and method resolution are replaced by exhaustive matches on
  the geometry kind: `getNamespace`, `new $class`, and `$this->$method`.
- Doctrine plumbing is not modelled: `getName` and the types map,
  `getSpatialPlatform`, and the column type's methods that only delegate to
  the platform.
- The GeometryInterface and GeographyInterface constants are not part of
  this model. They are taken to be the six tags `Point` … `MultiPolygon`,
  the constant `GEOMETRY`, and the family names `Geometry` and `Geography`.
- `MySqlPlatform.NewObjectFromValue`: the type name `GEOMETRY` passes the
  `defined` check and leads to the class `<family>\Geometry`. That class is
  not part of this model, so its construction is the error
  `EngineError("class")`.
- A point object's fields before its constructor body runs: PHP leaves the
  typed fields uninitialised, and the model starts them at 0. No point
  escapes before both are set.
- Tests that need a live MySQL server, and the two DQL function stubs, are
  not modelled.
