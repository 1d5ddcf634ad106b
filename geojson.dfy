/**
 * The GeoJSON values the splitter handles, the `geojsonTypes` table, and the
 * geometry kernel (Turf and Martinez) that it calls but does not define.
 */
module GeoJson {
  import opened Options

  /** A position. Only its first two coordinates are compared or copied by the splitter. */
  datatype Point = Point(x: real, y: real)

  /** The positions of one ring as the clipping kernel hands it back: possibly unclosed or short. */
  type Ring = seq<Point>

  /** One polygon: exterior ring first, then holes. */
  type PolygonRings = seq<Ring>

  /** The coordinates of a MultiPolygon. */
  type MultiPolygonRings = seq<PolygonRings>

  /** The positions of a LineString, which GeoJSON requires to number two or more. */
  type Line = s: seq<Point> | |s| >= 2 witness [Point(0.0, 0.0), Point(0.0, 0.0)]

  /**
   * The value of a geometry's `type` member: a string, or `undefined`/`null`.
   * JavaScript's loose `!=` does not tell `undefined` and `null` apart, so one tag stands for both.
   */
  datatype TypeTag = Str(name: string) | Undefined

  datatype Coordinates =
    | Positions(positions: seq<Point>)
    | Rings(rings: PolygonRings)
    | Polygons(polygons: MultiPolygonRings)

  /** A GeoJSON geometry object: `{ type, coordinates }`. */
  datatype Geometry = Geometry(kind: TypeTag, coordinates: Coordinates)

  /** A GeoJSON feature; `id` is `None` when the feature carries none. */
  datatype Feature = Feature(id: Option<string>, geometry: Geometry)

  /**
   * The `geojsonTypes` table, read by key. It lists five keys; any other key,
   * `MULTI_POLYGON` among them, reads as `undefined`.
   */
  function GeojsonTypes(key: string): (t: TypeTag)
    ensures t == Undefined <==> key !in {"FEATURE", "FEATURE_COLLECTION", "POLYGON", "LINE_STRING", "POINT"}
    ensures key == "POLYGON" ==> t == Str("Polygon")
    ensures key == "LINE_STRING" ==> t == Str("LineString")
  {
    if key == "FEATURE" then Str("Feature")
    else if key == "FEATURE_COLLECTION" then Str("FeatureCollection")
    else if key == "POLYGON" then Str("Polygon")
    else if key == "LINE_STRING" then Str("LineString")
    else if key == "POINT" then Str("Point")
    else Undefined
  }

  /** A LineString geometry whose coordinates are two or more positions. */
  predicate IsLineString(g: Geometry) {
    g.kind == Str("LineString") && g.coordinates.Positions? && |g.coordinates.positions| >= 2
  }

  /**
   * The foreign primitives, as parameters. Each field stands for one library call;
   * what it computes over floating-point coordinates is not part of this model.
   *  - lineOffset: `@turf/line-offset`, the positions of the parallel line at a signed distance in a unit
   *  - booleanDisjoint: `@turf/boolean-disjoint`
   *  - lineIntersectCount: the number of features `@turf/line-intersect` reports
   *  - lineToPolygon: `@turf/line-to-polygon` applied to `lineString(positions)`
   *  - difference: `@turf/difference`, `None` when it returns `null`
   *  - martinezDiff: `martinez.diff` on coordinates, `None` when it returns a falsy value
   */
  datatype Kernel = Kernel(
    lineOffset: (Line, real, string) -> Line,
    booleanDisjoint: (Geometry, Geometry) -> bool,
    lineIntersectCount: (Geometry, Geometry) -> nat,
    lineToPolygon: Ring -> Geometry,
    difference: (Geometry, Geometry) -> Option<Feature>,
    martinezDiff: (Coordinates, PolygonRings) -> Option<MultiPolygonRings>)

  /** `geojsonTypes` has no `MULTI_POLYGON` key. */
  lemma MultiPolygonKeyMissing()
    ensures GeojsonTypes("MULTI_POLYGON") == Undefined
  {
  }
}
