/**
 * The two cutting entry points: the zero-width cut (`polygonCut`, through
 * `splitPolygonWithLine`) and the kerf cut (`polygonCutWithSpacing`).
 */
module Cut {
  import opened Options
  import opened Sequences
  import opened GeoJson
  import opened Blade
  import opened RingRepair

  /** The errors the zero-width cut throws. */
  datatype CutError =
    | UnsupportedGeometryType   // the target is neither a Polygon nor a MultiPolygon
    | TooFewLinePositions       // Turf's `lineString` helper rejects fewer than two positions

  /** Turf's `multiPolygon(coords)`: a MultiPolygon feature without an id. */
  function MultiPolygonFeature(coords: MultiPolygonRings): Feature {
    Feature(None, Geometry(Str("MultiPolygon"), Polygons(coords)))
  }

  /**
   * `splitPolygonWithLine`: subtract the thin blade of `line` from the coordinates of
   * `polygonFeature` with `martinez.diff`, then run the repair pass on what comes back.
   * The result is a MultiPolygon whose every ring is closed and has at least three
   * positions; it is empty when the kernel returns nothing or an empty list.
   */
  function SplitPolygonWithLine(k: Kernel, polygonFeature: Geometry, line: Line): (f: Feature)
    ensures f.id.None? && f.geometry.kind == Str("MultiPolygon") && f.geometry.coordinates.Polygons?
    ensures IsRepairedMulti(f.geometry.coordinates.polygons)
    ensures var raw := k.martinezDiff(polygonFeature.coordinates, [ThinBlade(k, line)]);
            && ((raw.None? || raw.value == []) ==> f.geometry.coordinates.polygons == [])
            && f.geometry.coordinates.polygons == RepairClipped(raw)
  {
    var buf := ThinBlade(k, line);
    var clipped := k.martinezDiff(polygonFeature.coordinates, [buf]);
    MultiPolygonFeature(RepairClipped(clipped))
  }

  /**
   * `polygonCut`: a target typed `Polygon` or `MultiPolygon` is rebuilt as a feature of
   * that type and cut with `splitPolygonWithLine`; any other type throws, and so does a
   * line of fewer than two positions.
   */
  function PolygonCut(k: Kernel, polyGeom: Geometry, lineGeom: Geometry): (r: Result<Feature, CutError>)
    requires lineGeom.coordinates.Positions?
    ensures r == Err(UnsupportedGeometryType) <==>
              polyGeom.kind != Str("Polygon") && polyGeom.kind != Str("MultiPolygon")
    ensures r == Err(TooFewLinePositions) <==>
              (polyGeom.kind == Str("Polygon") || polyGeom.kind == Str("MultiPolygon")) &&
              |lineGeom.coordinates.positions| < 2
  {
    var polyFeature :=
      if polyGeom.kind == Str("Polygon") then Ok(Geometry(Str("Polygon"), polyGeom.coordinates))
      else if polyGeom.kind == Str("MultiPolygon") then Ok(Geometry(Str("MultiPolygon"), polyGeom.coordinates))
      else Err(UnsupportedGeometryType);
    if polyFeature.Err? then Err(polyFeature.error)
    else if |lineGeom.coordinates.positions| < 2 then Err(TooFewLinePositions)
    else
      var lineFeature: Line := lineGeom.coordinates.positions;
      Ok(SplitPolygonWithLine(k, polyFeature.value, lineFeature))
  }

  /**
   * The guard of `polygonCutWithSpacing`, with `!=` read as JavaScript does: width or unit
   * undefined, a target type that is neither `geojsonTypes.POLYGON` nor
   * `geojsonTypes.MULTI_POLYGON` (the latter is `undefined`), or a line not typed
   * `geojsonTypes.LINE_STRING`.
   */
  predicate SpacingGuardRejects(poly: Geometry, line: Geometry, lineWidth: Option<real>, lineWidthUnit: Option<string>)
  {
    || lineWidth.None?
    || lineWidthUnit.None?
    || (poly.kind != GeojsonTypes("POLYGON") && poly.kind != GeojsonTypes("MULTI_POLYGON"))
    || line.kind != GeojsonTypes("LINE_STRING")
  }

  /**
   * The guard with the table resolved: it rejects an undefined width or unit, a target
   * typed neither `"Polygon"` nor `undefined`, and a line not typed `"LineString"`.
   */
  lemma SpacingGuardResolved(poly: Geometry, line: Geometry, lineWidth: Option<real>, lineWidthUnit: Option<string>)
    ensures SpacingGuardRejects(poly, line, lineWidth, lineWidthUnit) <==>
              || lineWidth.None?
              || lineWidthUnit.None?
              || (poly.kind != Str("Polygon") && poly.kind != Undefined)
              || line.kind != Str("LineString")
  {
    MultiPolygonKeyMissing();
  }

  /**
   * The kerf blade of `polygonCutWithSpacing`'s last loop iteration: the cutting line,
   * then its offset at `-width` backwards, then its first point.
   */
  function KerfBlade(k: Kernel, line: Line, width: real, unit: string): (ring: Ring)
    ensures var side := k.lineOffset(line, -width, unit);
            && |ring| == |line| + |side| + 1
            && ring[..|line|] == line
            && ring[|line|..|ring| - 1] == Reverse(side)
            && ring[|ring| - 1] == line[0]
  {
    BladeRing(line, k.lineOffset(line, -width, unit))
  }

  /**
   * What `polygonCutWithSpacing` returns: `null` (`None`) when the guard rejects, when the
   * line is disjoint from the target, or when there are no intersection points; otherwise
   * the kernel's difference of the target and the polygon of the `-width` kerf blade.
   * A `None` width or unit stands for `undefined`: the guard tests `typeof`, so a `null`
   * would pass it, and that case is not modelled.
   */
  function SpacingCut(k: Kernel, poly: Geometry, line: Geometry, lineWidth: Option<real>, lineWidthUnit: Option<string>)
    : (r: Option<Feature>)
    requires line.kind == Str("LineString") ==> IsLineString(line)
  {
    if SpacingGuardRejects(poly, line, lineWidth, lineWidthUnit) then None
    else if k.booleanDisjoint(line, poly) then None
    else if k.lineIntersectCount(poly, line) == 0 then None
    else
      var coords: Line := line.coordinates.positions;
      k.difference(poly, k.lineToPolygon(KerfBlade(k, coords, lineWidth.value, lineWidthUnit.value)))
  }

  /**
   * The inner loops of `polygonCutWithSpacing`: push every point of the line, then the
   * side's points from last to first, then the line's first point.
   */
  method AssembleRing(coords: Line, side: Line) returns (polyCoords: Ring)
    ensures polyCoords == BladeRing(coords, side)
  {
    polyCoords := [];
    var j := 0;
    while j < |coords|
      invariant 0 <= j <= |coords|
      invariant polyCoords == coords[..j]
    {
      polyCoords := polyCoords + [coords[j]];
      j := j + 1;
    }
    j := |side| - 1;
    while j >= 0
      invariant -1 <= j < |side|
      invariant polyCoords == coords + Reverse(side)[..|side| - 1 - j]
    {
      assert Reverse(side)[..|side| - j] == Reverse(side)[..|side| - 1 - j] + [side[j]];
      polyCoords := polyCoords + [side[j]];
      j := j - 1;
    }
    polyCoords := polyCoords + [coords[0]];
  }

  /**
   * `polygonCutWithSpacing`, loop for loop: after the guards it offsets the line both ways
   * and runs the loop over the two sides (`CutBothSides`).
   */
  method PolygonCutWithSpacing(k: Kernel, poly: Geometry, line: Geometry, lineWidth: Option<real>, lineWidthUnit: Option<string>)
    returns (clipped: Option<Feature>)
    requires line.kind == Str("LineString") ==> IsLineString(line)
    ensures clipped == SpacingCut(k, poly, line, lineWidth, lineWidthUnit)
  {
    if SpacingGuardRejects(poly, line, lineWidth, lineWidthUnit) {
      return None;
    }
    if k.booleanDisjoint(line, poly) {
      return None;
    }
    if k.lineIntersectCount(poly, line) == 0 {
      return None;
    }
    var coords: Line := line.coordinates.positions;
    clipped := CutBothSides(k, poly, coords, lineWidth.value, lineWidthUnit.value);
  }

  /**
   * The `for` loop of `polygonCutWithSpacing`: for each side it assembles the ring position
   * by position and takes the difference, overwriting the previous iteration's result, so
   * only the second side (`-width`) survives.
   */
  method CutBothSides(k: Kernel, poly: Geometry, coords: Line, width: real, unit: string)
    returns (clipped: Option<Feature>)
    ensures clipped == k.difference(poly, k.lineToPolygon(KerfBlade(k, coords, width, unit)))
  {
    var offsetLine: seq<Line> := [k.lineOffset(coords, width, unit), k.lineOffset(coords, -width, unit)];
    clipped := None;
    var i := 0;
    while i <= 1
      invariant 0 <= i <= 2
      invariant i > 0 ==> clipped == k.difference(poly, k.lineToPolygon(BladeRing(coords, offsetLine[i - 1])))
    {
      var forCut := i;
      var side := offsetLine[forCut];
      var polyCoords := AssembleRing(coords, side);
      clipped := k.difference(poly, k.lineToPolygon(polyCoords));
      i := i + 1;
    }
  }

  /** Repairing the zero-width cut's output a second time changes nothing. */
  lemma SplitOutputIsFixedPoint(k: Kernel, polygonFeature: Geometry, line: Line)
    ensures var m := SplitPolygonWithLine(k, polygonFeature, line).geometry.coordinates.polygons;
            RepairClipped(Some(m)) == m
  {
    RepairIdempotent(k.martinezDiff(polygonFeature.coordinates, [ThinBlade(k, line)]));
  }

  /** A zero-width cut that succeeds is `splitPolygonWithLine` of the target and the line. */
  lemma PolygonCutSplits(k: Kernel, polyGeom: Geometry, lineGeom: Geometry)
    requires lineGeom.coordinates.Positions?
    ensures var r := PolygonCut(k, polyGeom, lineGeom);
            r.Ok? ==>
              && |lineGeom.coordinates.positions| >= 2
              && r.value == SplitPolygonWithLine(k, polyGeom, lineGeom.coordinates.positions)
  {
  }

  /** The zero-width cut depends on the target's coordinates only: its Polygon or MultiPolygon tag does not change the result. */
  lemma PolygonCutIgnoresTag(k: Kernel, coords: Coordinates, lineGeom: Geometry)
    requires lineGeom.coordinates.Positions?
    ensures PolygonCut(k, Geometry(Str("Polygon"), coords), lineGeom)
         == PolygonCut(k, Geometry(Str("MultiPolygon"), coords), lineGeom)
  {
  }

  /** The five ways `polygonCutWithSpacing` returns `null` before computing a difference. */
  lemma SpacingNullCases(k: Kernel, poly: Geometry, line: Geometry, lineWidth: Option<real>, lineWidthUnit: Option<string>)
    requires line.kind == Str("LineString") ==> IsLineString(line)
    ensures lineWidth.None? ==> SpacingCut(k, poly, line, lineWidth, lineWidthUnit).None?
    ensures lineWidthUnit.None? ==> SpacingCut(k, poly, line, lineWidth, lineWidthUnit).None?
    ensures poly.kind != Str("Polygon") && poly.kind != Undefined ==> SpacingCut(k, poly, line, lineWidth, lineWidthUnit).None?
    ensures line.kind != Str("LineString") ==> SpacingCut(k, poly, line, lineWidth, lineWidthUnit).None?
    ensures k.booleanDisjoint(line, poly) || k.lineIntersectCount(poly, line) == 0 ==>
              SpacingCut(k, poly, line, lineWidth, lineWidthUnit).None?
  {
  }

  /** Because `geojsonTypes.MULTI_POLYGON` is undefined, a MultiPolygon target always gets `null`. */
  lemma SpacingRejectsMultiPolygon(k: Kernel, coords: Coordinates, line: Geometry, lineWidth: Option<real>, lineWidthUnit: Option<string>)
    requires line.kind == Str("LineString") ==> IsLineString(line)
    ensures SpacingCut(k, Geometry(Str("MultiPolygon"), coords), line, lineWidth, lineWidthUnit) == None
  {
    MultiPolygonKeyMissing();
  }

  /** A target whose `type` is undefined is let through the type guard (`undefined != undefined` is false). */
  lemma SpacingAdmitsUntypedTarget(coords: Coordinates, line: Geometry, width: real, unit: string)
    requires IsLineString(line)
    ensures !SpacingGuardRejects(Geometry(Undefined, coords), line, Some(width), Some(unit))
  {
    MultiPolygonKeyMissing();
  }

  /**
   * A kerf cut that is not `null` passed every guard, and is the kernel's difference of the
   * target and the polygon of the `-width` kerf blade.
   */
  lemma SpacingCutSucceeds(k: Kernel, poly: Geometry, line: Geometry, lineWidth: Option<real>, lineWidthUnit: Option<string>)
    requires line.kind == Str("LineString") ==> IsLineString(line)
    ensures var r := SpacingCut(k, poly, line, lineWidth, lineWidthUnit);
            r.Some? ==>
              && lineWidth.Some? && lineWidthUnit.Some?
              && (poly.kind == Str("Polygon") || poly.kind == Undefined)
              && IsLineString(line)
              && !k.booleanDisjoint(line, poly)
              && k.lineIntersectCount(poly, line) > 0
              && r == k.difference(poly, k.lineToPolygon(
                   KerfBlade(k, line.coordinates.positions, lineWidth.value, lineWidthUnit.value)))
  {
    MultiPolygonKeyMissing();
  }

  /** Past the guards, the result is exactly the difference with the `-width` kerf blade. */
  lemma SpacingUsesNegativeSide(k: Kernel, poly: Geometry, line: Geometry, width: real, unit: string)
    requires IsLineString(line)
    requires poly.kind == Str("Polygon") || poly.kind == Undefined
    requires !k.booleanDisjoint(line, poly) && k.lineIntersectCount(poly, line) > 0
    ensures SpacingCut(k, poly, line, Some(width), Some(unit))
         == k.difference(poly, k.lineToPolygon(KerfBlade(k, line.coordinates.positions, width, unit)))
  {
    MultiPolygonKeyMissing();
  }
}
