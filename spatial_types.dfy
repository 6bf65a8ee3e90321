/** The naming rules of src/DBAL/Types/AbstractSpatialType.php: a Doctrine
    spatial column type knows its family and derives its SQL name from its
    own class name. */
module SpatialTypes {
  import opened Strings

  /** A spatial column type: its fully qualified class name, and whether it
      is a GeographyType (directly or through a subclass). */
  datatype SpatialType = SpatialType(className: string, geography: bool)

  /** The family names: GeographyInterface::GEOGRAPHY and
      GeometryInterface::GEOMETRY. */
  const GeographyFamily: string := "Geography"
  const GeometryFamily: string := "Geometry"

  /** `getTypeFamily()`: the geography family exactly for geography types. */
  function TypeFamily(t: SpatialType): (r: string)
    ensures r == GeographyFamily || r == GeometryFamily
    ensures r == GeographyFamily <==> t.geography
  {
    if t.geography then GeographyFamily else GeometryFamily
  }

  /** `getSQLType()`: the class name after its last backslash, less its
      last four characters. Without a backslash `strrpos` gives `false`,
      which counts as 0, so the name is then read from position 1. */
  function SqlType(t: SpatialType): string
  {
    var k := LastIndex(t.className, '\\');
    var start := if k < 0 then 1 else k + 1;
    Substr(t.className, start, |t.className| - start - 4)
  }

  /** A class `<namespace>\<Base>Type` is the SQL type `<Base>`. */
  lemma SqlTypeOfClass(namespace: string, base: string, geography: bool)
    requires '\\' !in base
    ensures SqlType(SpatialType(namespace + "\\" + base + "Type", geography)) == base
  {
    var name := namespace + "\\" + base + "Type";
    assert name == namespace + ['\\'] + (base + "Type");
    assert '\\' !in base + "Type";
    LastIndexBefore(namespace, '\\', base + "Type");
    assert name[|namespace| + 1..|name| - 4] == base;
  }

  lemma PolygonClassName(namespace: string, name: string)
    requires namespace == "Bcremer\\Spatial\\DBAL\\Types\\Geometry"
    requires name == "Bcremer\\Spatial\\DBAL\\Types\\Geometry\\PolygonType"
    ensures namespace + "\\" + "Polygon" + "Type" == name
  {
  }

  /** `PolygonType` in the geometry namespace has the SQL type `Polygon`. */
  lemma PolygonTypeName(name: string)
    requires name == "Bcremer\\Spatial\\DBAL\\Types\\Geometry\\PolygonType"
    ensures SqlType(SpatialType(name, false)) == "Polygon"
  {
    var namespace := "Bcremer\\Spatial\\DBAL\\Types\\Geometry";
    PolygonClassName(namespace, name);
    SqlTypeOfClass(namespace, "Polygon", false);
  }

  /** `canRequireSQLConversion()`: every spatial type asks for SQL
      conversion, so its values are always wrapped. */
  function CanRequireSqlConversion(t: SpatialType): (r: bool)
    ensures r
  {
    true
  }

  /** `requiresSQLCommentHint()`: every spatial type asks for the comment
      hint. */
  function RequiresSqlCommentHint(t: SpatialType): (r: bool)
    ensures r
  {
    true
  }
}
