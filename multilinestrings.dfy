/** The multi-line-string object of src/PHP/Types/AbstractMultiLineString.php:
    a stored list of validated line strings that can be replaced, appended
    to and read back one line string at a time. Its error messages name the
    MultiLineString type. */
module MultiLineStrings {
  import opened Results
  import opened Strings
  import opened Geometries
  import opened Validation
  import opened Rendering

  class MultiLineString {
    /** The validated line strings, in order: each is its points. */
    var lineStrings: seq<seq<Pair>>

    /** The object before its constructor body runs: the property's
        default is the empty array. */
    constructor Empty()
      ensures lineStrings == []
    {
      lineStrings := [];
    }

    /** `new MultiLineString($rings)`: the constructor is `setLineStrings`. */
    static method New(v: Raw) returns (r: Result<MultiLineString>)
      ensures r.Ok? <==> MultiLineStringValue(MultiLineStringKind, v).Ok?
      ensures r.Ok? ==> fresh(r.value) && r.value.lineStrings == MultiLineStringValue(MultiLineStringKind, v).value
      ensures r.Err? ==> r.error == MultiLineStringValue(MultiLineStringKind, v).error
    {
      var m := new MultiLineString.Empty();
      r := m.SetLineStrings(v);
    }

    /** `setLineStrings`: the content becomes the validated input, or
        stays as it was when validation fails. */
    method SetLineStrings(v: Raw) returns (r: Result<MultiLineString>)
      modifies this
      ensures MultiLineStringValue(MultiLineStringKind, v).Ok? ==>
        lineStrings == MultiLineStringValue(MultiLineStringKind, v).value && r == Ok(this)
      ensures MultiLineStringValue(MultiLineStringKind, v).Err? ==>
        lineStrings == old(lineStrings) && r == Err(MultiLineStringValue(MultiLineStringKind, v).error)
    {
      var validated := ValidateMultiLineStringValue(MultiLineStringKind, v);
      if validated.Err? {
        return Err(validated.error);
      }
      lineStrings := validated.value;
      r := Ok(this);
    }

    /** `addLineString`: one validated line string more at the end, which
        `getLineString(-1)` then returns; the earlier ones are untouched.
        A failed validation changes nothing. */
    method AddLineString(v: Raw) returns (r: Result<MultiLineString>)
      modifies this
      ensures PointsValue(MultiLineStringKind, v).Ok? ==>
        lineStrings == old(lineStrings) + [PointsValue(MultiLineStringKind, v).value] && r == Ok(this)
      ensures PointsValue(MultiLineStringKind, v).Ok? ==>
        GetLineString(-1) == Ok(LineString(PointsValue(MultiLineStringKind, v).value))
      ensures PointsValue(MultiLineStringKind, v).Err? ==>
        lineStrings == old(lineStrings) && r == Err(PointsValue(MultiLineStringKind, v).error)
    {
      var validated := ValidateLineStringValue(MultiLineStringKind, v);
      if validated.Err? {
        return Err(validated.error);
      }
      lineStrings := lineStrings + [validated.value];
      r := Ok(this);
    }

    /** `getLineString($index)`: `-1` stands for the last line string and
        every other index is taken as it is, so a missing element (any
        other negative index among them) is an undefined offset. */
    function GetLineString(index: int): (r: Result<Geometry>)
      reads this
      ensures r.Ok? <==> 0 <= index < |lineStrings| || (index == -1 && lineStrings != [])
      ensures 0 <= index < |lineStrings| ==> r == Ok(LineString(lineStrings[index]))
      ensures index == -1 && lineStrings != [] ==> r == Ok(LineString(lineStrings[|lineStrings| - 1]))
      ensures index < -1 ==> r == Err(UndefinedOffset(index))
    {
      var i := if index == -1 then |lineStrings| - 1 else index;
      if 0 <= i < |lineStrings| then Ok(LineString(lineStrings[i])) else Err(UndefinedOffset(i))
    }

    /** `getLineStrings()`: every stored line string, in order, each as
        `getLineString` returns it. */
    method GetLineStrings() returns (r: seq<Geometry>)
      ensures |r| == |lineStrings|
      ensures forall i :: 0 <= i < |lineStrings| ==> GetLineString(i) == Ok(r[i])
    {
      r := [];
      for i := 0 to |lineStrings|
        invariant |r| == i
        invariant forall j :: 0 <= j < i ==> GetLineString(j) == Ok(r[j])
      {
        var lineString := GetLineString(i);
        r := r + [lineString.value];
      }
    }

    /** `getType()`: the tag whose upper case names the MULTILINESTRING
        constant. */
    function GetType(): (r: string)
      ensures KindNamed(Upper(r)) == Some(MultiLineStringKind)
    {
      ConstNameIsUpperTag(MultiLineStringKind);
      Tag(MultiLineStringKind)
    }

    /** `toArray()`: the stored arrays, which the validator accepts as this
        very content. */
    function ToArray(): (r: Raw)
      reads this
      ensures MultiLineStringValue(MultiLineStringKind, r) == Ok(lineStrings)
    {
      MultiLineStringArrayAccepted(MultiLineStringKind, lineStrings);
      LinesArray(lineStrings)
    }

    /** The object as a geometry value, for `__toString` and `toJson`:
        its JSON object holds `getType()` and `toArray()`. */
    function AsGeometry(): (g: Geometry)
      reads this
      ensures g.Kind() == MultiLineStringKind && Geometries.ToArray(g) == ToArray()
      ensures ToJson(g) == Json(GetType(), ToArray())
    {
      MultiLineString(lineStrings)
    }
  }

  /** Constructing from an empty array gives a multi-line string with no
      line strings. */
  lemma EmptyAccepted()
    ensures MultiLineStringValue(MultiLineStringKind, List([])) == Ok([])
  {
    MultiLineStringArrayAccepted(MultiLineStringKind, []);
    assert LinesArray([]) == List([]);
  }
}
