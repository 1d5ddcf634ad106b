# Split-polygon mode: a Dafny model of the cutting core

This project models the part of the Mapbox GL Draw split-polygon mode (`src/mode.js`) that
turns a drawn cutting line and a batch of selected polygon features into cut features. It
covers five pieces:

- the thin blade that `createThinLinePolygon` builds from two offsets of the line;
- the repair pass that `splitPolygonWithLine` runs over the raw `martinez.diff` result;
- the zero-width entry point `polygonCut`;
- the kerf entry point `polygonCutWithSpacing`, with its guards and its two-iteration loop;
- the `forEach` loop of the `onDraw` callback, which keeps disjoint features, cuts the
  others, tags each cut with the original `id`, and hands it to `api.add`.

The geometry library calls (Turf's `lineOffset`, `booleanDisjoint`, `lineIntersect`,
`lineToPolygon` and `difference`, and `martinez.diff`) are not modelled. They are the
fields of a `Kernel` value that every operation takes as a parameter, so each proof holds
for whatever those calls return.

Files, in dependency order:

- `options.dfy`: `Option` and `Result`.
- `sequences.dfy`: `Reverse`, and `FilterMap`, which models JavaScript's `map(f).filter(Boolean)`, with lemmas about order and length.
- `geojson.dfy`: positions, rings, geometries, features, the `geojsonTypes` table and the `Kernel`.
- `blade.dfy`: blade rings.
- `ring_repair.dfy`: the repair pass.
- `cut.dfy`: `splitPolygonWithLine`, `polygonCut` and `polygonCutWithSpacing`.
- `split_mode.dfy`: the `onDraw` loop over a feature store.

Some behaviours follow from the code as written, and the model keeps them:

- `geojsonTypes` has no `MULTI_POLYGON` key. The kerf cut's type guard therefore compares
  against `undefined`. A MultiPolygon target is always refused. So, when the width is
  non-zero, `onDraw` throws on a MultiPolygon feature that the line meets. A
  MultiPolygon the line does not touch is pushed unchanged. A target whose `type` is
  `undefined` is let through.
- The repair pass drops a polygon only when all of its rings are dropped. The code does
  not drop a polygon whose exterior ring alone is too short. It keeps the holes, and the
  first kept hole becomes the polygon's first ring (`RingRepair.HoleBecomesFirstRing`).
- The repair keeps any ring of three or more positions. A closed three-position ring
  such as `[a, b, a]` has only two distinct positions and fewer than the four positions
  of a GeoJSON linear ring, yet it survives unchanged (`RingRepair.DegenerateRingKept`).
- `polygonCutWithSpacing` overwrites `clipped` on each of its two iterations. Only the
  cut with the `-width` offset is returned.
- In `onDraw`, a `polygonCut` that throws, or a kerf cut that is `null` (so that setting
  `polycut.id` throws a TypeError), ends the callback. The `api.add` calls already made
  stay made, and `fireUpdate` is never reached.

## Model

| member | source | states |
|---|---|---|
| GeoJson.GeojsonTypes | src/mode.js:18-24 | The table has exactly the five listed keys; any other key reads as `undefined`. `POLYGON` reads as `"Polygon"` and `LINE_STRING` as `"LineString"`. |
| GeoJson.MultiPolygonKeyMissing | src/mode.js:18-24 | `geojsonTypes.MULTI_POLYGON` is `undefined`. |
| Blade.BladeRing | src/mode.js:154-158 | The assembled ring is `a`, then `b` reversed, then `a[0]`. Its length is `\|a\| + \|b\| + 1`, and its first and last points are equal. |
| Blade.ThinBlade | src/mode.js:150-160 | The thin blade is the `-0.0005` m offset, then the `+0.0005` m offset reversed, then the first point again. It is closed and has at least five positions. |
| RingRepair.RepairRing | src/mode.js:179-186 | A ring is dropped exactly when it has fewer than 3 positions. Otherwise the result starts with the ring and is closed. It is one position longer exactly when the ring was not closed, and that extra position is the ring's first point. A closed ring comes back unchanged. |
| RingRepair.RepairPolygon | src/mode.js:179-189 | A polygon is dropped exactly when every one of its rings has fewer than 3 positions. A kept polygon has exactly as many rings as it had rings of 3 or more positions, and every ring is closed with at least 3 positions. |
| RingRepair.RepairClipped | src/mode.js:172-190 | A missing or empty kernel result gives no polygons. Otherwise the output has exactly as many polygons as the input had polygons not dropped, and every ring of every output polygon is closed with at least 3 positions. |
| RingRepair.RepairKeepsOrder | src/mode.js:176-190 | Order is kept at both levels. Raw ring `r` of raw polygon `p`, when it is long enough, appears repaired at output position (polygons kept before `p`, rings of `p` kept before `r`). |
| RingRepair.HoleBecomesFirstRing | src/mode.js:187-189 | When the exterior ring is too short but the first hole is not, the polygon is kept, and the repaired hole is its first ring. |
| RingRepair.RepairOutputFromInput | src/mode.js:176-190 | Nothing is invented. Every output ring is the repair of a raw ring, and it sits at the position that ring's counts give it. |
| RingRepair.DegenerateRingKept | src/mode.js:180-186 | The closed three-position ring `[a, b, a]` passes the ring repair unchanged. |
| RingRepair.RepairIdempotent | src/mode.js:176-192 | Running the repair pass again on its own output changes nothing. |
| Cut.MultiPolygonFeature | src/mode.js:192 | Defines Turf's `multiPolygon(coords)`: a MultiPolygon feature without an id whose coordinates are `coords`. Its use is stated by `SplitPolygonWithLine`'s contract. |
| Cut.SplitPolygonWithLine | src/mode.js:162-193 | The result is a MultiPolygon without an id, and its coordinates are the repair pass applied to `martinez.diff` of the target's coordinates and the thin blade. So every ring in it is closed with at least 3 positions, and a `null` or empty `martinez.diff` result gives an empty MultiPolygon. |
| Cut.SplitOutputIsFixedPoint | src/mode.js:176-192 | Repairing the zero-width cut's coordinates once more leaves them as they are. |
| Cut.PolygonCut | src/mode.js:196-209 | It throws "unsupported geometry type" exactly when the type is neither `Polygon` nor `MultiPolygon`. It throws on the line exactly when the type is supported and the line has fewer than two positions. |
| Cut.PolygonCutSplits | src/mode.js:199-208 | A cut that succeeds returns `splitPolygonWithLine` of the target and the line's positions. |
| Cut.PolygonCutIgnoresTag | src/mode.js:199-202 | Rebuilding the target as a `polygon` or as a `multiPolygon` gives the same cut, because only the coordinates are handed to `martinez.diff`. |
| Cut.SpacingGuardResolved | src/mode.js:220-226 | The first guard, with JavaScript's loose `!=` and the `geojsonTypes` table resolved. It rejects exactly when the width or the unit is undefined, when the target type is neither `"Polygon"` nor `undefined` (the value of the missing `MULTI_POLYGON` key), or when the line type is not `"LineString"`. |
| Cut.SpacingCut | src/mode.js:212-266 | Defines what `polygonCutWithSpacing` returns: `null` after any of the three guards, and otherwise the difference with the `-width` kerf blade. Its properties are stated by `SpacingNullCases`, `SpacingCutSucceeds` and `SpacingUsesNegativeSide`, and `PolygonCutWithSpacing` is proved equal to it. |
| Cut.AssembleRing | src/mode.js:251-258 | The nested push loops build exactly: the line, then the offset line reversed, then the line's first point. |
| Cut.PolygonCutWithSpacing | src/mode.js:212-266 | The method returns exactly what `SpacingCut` defines: `null` when a guard fires, and otherwise the difference after the second iteration's overwrite. |
| Cut.CutBothSides | src/mode.js:241-263 | After both iterations of the `for` loop, `clipped` is the difference of the target and `lineToPolygon` of the `-width` kerf blade; the `+width` result is overwritten. |
| Cut.SpacingNullCases | src/mode.js:220-238 | It returns `null` in these cases: the width is undefined; the unit is undefined; the target type is neither `"Polygon"` nor `undefined`; the line type is not `"LineString"`; the line is disjoint from the target; or there are no intersection points. |
| Cut.SpacingRejectsMultiPolygon | src/mode.js:223-224 | A MultiPolygon target always gets `null`, because `geojsonTypes.MULTI_POLYGON` is undefined. |
| Cut.SpacingAdmitsUntypedTarget | src/mode.js:223-224 | A target whose `type` is `undefined` passes the type guard. |
| Cut.SpacingCutSucceeds | src/mode.js:220-265 | A non-`null` result implies that every guard passed. It is then the difference of the target and `lineToPolygon` of the `-width` kerf blade. |
| Cut.SpacingUsesNegativeSide | src/mode.js:220-265 | For a target typed `"Polygon"` or untyped that passes the guards, the `i = 0` result (the `+width` side) is overwritten. The result is the difference with the `-width` kerf blade. |
| Cut.KerfBlade | src/mode.js:244-258 | The returned kerf blade is the line, then the `-width` offset reversed, then the line's first point. |
| SplitMode.FeatureStore.Add | src/mode.js:96 | `api.add` appends the feature to what the store has received. |
| SplitMode.Present | src/mode.js:88 | `featuresToSplit.filter(Boolean)`: absent entries removed. Its properties are `PresentKeepsOrder`. |
| SplitMode.PresentKeepsOrder | src/mode.js:88 | `filter(Boolean)` keeps every present feature in order, at the position given by the number of present features before it, and keeps nothing else. |
| SplitMode.SplitFeature | src/mode.js:89-110 | One `forEach` iteration as a value: the feature kept, its id-tagged cut, or the exception. Its properties are `SplitFeatureCases`, and `SplitEach` is proved equal to it. |
| SplitMode.SplitOf | src/mode.js:88-110 | Defines the callback body as a function of the feature, the step function `OnDraw` hands to `SplitAll`. |
| SplitMode.SplitFeatureCases | src/mode.js:89-110 | A feature is kept as it is exactly when the line is disjoint from it, and a cut carries the feature's id. With width `0`, the cut is `polygonCut`, which throws exactly for types other than Polygon and MultiPolygon. With any other width, the cut is `polygonCutWithSpacing`, and the loop throws exactly when that cut is `null`. |
| SplitMode.Steps | src/mode.js:88-111 | One planned step per feature, in order. |
| SplitMode.StepsAt | src/mode.js:88-111 | The step planned for feature `i` is the callback's outcome on feature `i`. |
| SplitMode.UpToFailure | src/mode.js:88-111 | The steps taken are a prefix of the planned steps. No step before the last one taken throws, and the run stops early only after a step that throws. |
| SplitMode.UpToFailureAll | src/mode.js:88-111 | When nothing throws, every feature is processed. |
| SplitMode.UpToFailureAt | src/mode.js:88-111 | When feature `i` is the first to throw, exactly features `0..i` are processed. |
| SplitMode.AbortedAt | src/mode.js:88-111 | When feature `i` is the first to throw, the callback ends with that exception, and the adds are those of features `0..i`. |
| SplitMode.CompletedAll | src/mode.js:88-113 | When nothing throws, the callback completes with one output per step, and every step's add is made. |
| SplitMode.SplitEach | src/mode.js:89-110 | The callback body for one feature yields the feature's planned step. It adds to the store exactly the cut it pushes, and nothing for a disjoint feature or a throw. |
| SplitMode.SplitAll | src/mode.js:87-111 | The loop's ending and its adds are exactly those of the steps taken, for any `split` that computes `SplitFeature`. |
| SplitMode.OnDraw | src/mode.js:86-115 | The callback's ending and its adds are exactly those of the steps taken over the present features of `featuresToSplit`, in order. |
| SplitMode.CompletedOutputs | src/mode.js:87-113 | A completed callback fires one feature per present input, in input order. That feature is the input itself when the line is disjoint from it; otherwise it is the input's cut, carrying the input's id. |
| SplitMode.CutResultsAdded | src/mode.js:93-109 | In a completed callback, the cut of every feature the line meets is added to the store. It sits at the position given by the number of cuts before it. |
| SplitMode.OnlyCutsAdded | src/mode.js:89-110 | The store receives only cuts of features the line meets, each with that feature's id. This holds whether or not the callback completes, so a disjoint feature is never added. |
| SplitMode.ZeroWidthPolygonsComplete | src/mode.js:93-97 | With width `0`, a batch of Polygon and MultiPolygon features never throws, and it fires one feature per input. |
| SplitMode.MultiPolygonWithWidthThrows | src/mode.js:98-107 | With a non-zero width, a MultiPolygon feature the line meets makes the callback throw. |

## Left out

- The geometry library calls are total functions of the `Kernel`. An exception thrown inside `lineOffset`, `booleanDisjoint`, `lineIntersect`, `lineToPolygon`, `difference` or `martinez.diff` is not modelled. So the statement that a zero-width batch of polygons never throws (`ZeroWidthPolygonsComplete`) holds only for library calls that return.
- The geometry library calls are parameters (the `Kernel`), not definitions. They are Turf's `lineOffset`, `booleanDisjoint`, `lineIntersect`, `lineToPolygon` and `difference`, and `martinez.diff`. Anything they compute over floating-point coordinates is out of scope: areas, widths, which pieces a cut yields.
- `lineIntersect` is represented only by the number of points it reports, because that count is all the code reads.
- Positions are two real coordinates. The repair reads and copies only the first two, so altitude is dropped. Floating-point equality, including `NaN` never equalling itself, is not modelled.
- Turf's `polygon()` helper validates its rings (closed, at least four positions) and can throw. At src/mode.js:159 it gets the thin blade, which is closed and has at least five positions. At src/mode.js:200 it gets a Polygon target's rings, and that validation is not modelled. So `Cut.PolygonCut`'s "throws exactly when" and `SplitMode.ZeroWidthPolygonsComplete`'s "never throws" do not cover a Polygon target with a malformed ring. `multiPolygon()` only wraps its coordinates. Turf's `lineString()` check for at least two positions is modelled, as `TooFewLinePositions`.
- SpacingCut: a `None` width or unit stands for `undefined` only. A `null` passes the `typeof` guard at src/mode.js:221-222 and is not modelled; `onDraw` always passes a real width and a string unit.
- The cutting line is assumed to be a LineString of at least two positions. `OnDraw`, `SplitAll`, `SplitEach`, `SplitFeature`, `SpacingCut` and `PolygonCutWithSpacing` require this, because the drawing mode hands `onDraw` only completed lines. A shorter line would reach `lineOffset` in the kerf cut, where Turf rejects it. For the same reason `TooFewLinePositions` cannot arise from `onDraw`.
- Cut.PolygonCut: requires the line's coordinates to be a list of positions. It does not model `lineString()` throwing on coordinates of another shape.
- Feature `properties` and `bbox` are not modelled: features carry only an `id` and a geometry.
- The repair pass pushes the closing point into the kernel's ring in place, so the kernel's own result changes as well. The model returns a new ring, and it does not capture that aliasing.
- `onSetup`, `api.get`, the `setTimeout` hand-off, `highlighFeatures`, `toDisplayFeatures`, `fireUpdate`/`map.fire`, `changeMode`, the `try`/`catch` and the console logging are not modelled. They are the host editor's plumbing, not part of the cut.
- The feature store records only the sequence of `api.add` calls. How the host stores, merges or replaces features with the same id is not modelled.
- `lineWidth` and `lineWidthUnit` of `onDraw` are a real and a string. A width that is a string or `undefined` in JavaScript is not modelled. The kerf cut's `options || {}` is modelled as two optional values.
- The unused `forSelect` variable and the commented-out `buffer` alternative have no effect and are not modelled.
- `rollup.config.js` is build configuration. `src/constants.js` is not part of this model.
