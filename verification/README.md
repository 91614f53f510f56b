# migrationGlobe geometry, modelled in Dafny

migrationGlobe draws migration flows as arcs over a textured 3D globe. This
project models the deterministic geometry and state around that drawing:

- **Border projection** (`GeoUtils.geoJsonToGeometry`, `GeoUtils.latLonToXyz`,
  module `GeoJson` in `geojson.dfy` and `Sphere` in `sphere.dfy`). A GeoJSON
  Polygon or MultiPolygon becomes one flat list of vertices on the sphere,
  with one vertex per position, in document order. `[lon, lat]` is swapped
  into `(lat, lon)` before projecting.
- **Flux arcs** (`Flux.quadraticFlux`, `cubicFlux`, `doubleCubicFlux` and
  `coordToPoint`, module `Flux` in `flux.dfy`). Each control point is placed
  relative to the sphere centre and the chord between the end points. The
  double-cubic arc also has two mirrored inner controls, and its two sampled
  halves are spliced together.
- **Legacy globe** (`assets/js/flux.js`, module `Globe` in `globe.dfy`):
  - the camera's interaction state and its event handlers (mouse, wheel and
    keyboard);
  - the `zoom` clamp and the per-frame easing in `render`;
  - the longitude normalisation of `midCoord`;
  - the elevation default of that file's own `coordToPoint`;
  - the control point of `addFlux`.

Vector algebra lives in `numerics.dfy` (module `Numerics`). Coordinates are
exact `real`s. `Math.sqrt`, `sin`, `cos`, `atan2` and `Math.PI` are fields of
a `Math` record that every operation takes as a parameter. A property that
depends on one of them says so with a precondition about the single value it
uses:

- `SqrtAt(m, x)`: `m.sqrt` is a true square root at `x`.
- `PythagoreanAt(m, a)`: `sin² + cos² = 1` at the angle `a`.
- `Atan2At(m, y, x)`: `atan2` lies in `[-π, π]`, and in `[-π/2, π/2]` when
  `x ≥ 0`.

Bézier sampling is a parameter `getPoints`. The only facts used about it are
stated by `Flux.Samples`: `n + 1` points, the first and the last being the
curve's end control points.

THREE's `normalize()` is modelled as division by the length. A zero length
gives the zero vector, as `divideScalar(0)` does in THREE.

The legacy script keeps module-level variables. These become one `State`
record, and each event handler becomes a function from state to state. The
`mousemove`, `mouseup` and `mouseout` listeners registered by `onMouseDown`
are modelled by a `dragging` flag. A `mouseout` of the container runs both of
its listeners: it clears `overRenderer` and ends the drag.

## Model

| member | source | states |
|---|---|---|
| Numerics.Normalize | src/assets/js/flux.js:16 | a non-degenerate vector normalises to norm 1, parallel to and pointing the same way as the input, with dot product equal to the input's length |
| Numerics.NormalizeZero | src/assets/js/flux.js:16 | a vector of length zero normalises to the zero vector rather than dividing by zero, as THREE's `normalize` does |
| Numerics.Offset | src/assets/js/flux.js:35-38 | `base + unit(dir)·k` lies at distance `k` from `base`, on the line through `base` along `dir`, with signed extent `k` |
| Sphere.SphericalOffset | src/assets/js/utils.js:15-20 | the colatitude/azimuth formula yields a point at distance `r` from the origin |
| Sphere.LatLonToXyz | src/assets/js/utils.js:14-23 | every projected coordinate lies on the mesh's sphere: at distance `radius` from `mesh.position` |
| Sphere.LatLonToXyzTranslation | src/assets/js/utils.js:17-22 | moving the mesh by `v` moves every projected point by exactly `v` |
| GeoJson.PushRing | src/assets/js/utils.js:54-58 | the inner loop keeps the vertices already there and appends one projection `(p[1], p[0])` per ring position, in order |
| GeoJson.PushRings | src/assets/js/utils.js:52-59 | the ring loop appends the projections of the polygon's positions, ring after ring, and keeps the prefix intact |
| GeoJson.GeoJsonToGeometry | src/assets/js/utils.js:47-77 | output vertex `i` is the projection of position `i` of the flattened coordinates. Nothing is added, dropped, duplicated or reordered, and rings are not closed. A Polygon gives the sum of its ring lengths; any other type is read as a MultiPolygon and gives the sum over polygons and rings; empty coordinates give no vertices |
| GeoJson.FlattenRingsLength | src/assets/js/utils.js:50-59 | a Polygon's flattened positions number the sum of its ring lengths |
| GeoJson.FlattenPolygonsLength | src/assets/js/utils.js:62-74 | a MultiPolygon's flattened positions number the sum over polygons and rings of the ring lengths |
| GeoJson.FlattenRingsIndex | src/assets/js/utils.js:52-58 | position `k` of ring `j` lands right after all positions of the earlier rings |
| GeoJson.FlattenPolygonsAsRings | src/assets/js/utils.js:50-74 | the MultiPolygon branch flattens exactly like the Polygon branch applied to all rings in order |
| Flux.CoordToPoint | src/assets/js/flux.js:90-99 | every arc end point lies on the mesh's sphere |
| Flux.CoordToPointTranslation | src/assets/js/flux.js:93-98 | `coordToPoint` is translation-covariant in `mesh.position` |
| Flux.AboveChord | src/assets/js/flux.js:14-19 | for a chord midpoint off the centre, the point lies at the requested height from the centre, on the ray from the centre through the chord's midpoint |
| Flux.AboveChordAntipodal | src/assets/js/flux.js:14-19 | for antipodal end points the chord midpoint is the centre, which normalises to the zero vector, so the point is the centre itself whatever the height |
| Flux.OffsetAlongZero | src/assets/js/flux.js:16-19 | moving a point along a normalised zero vector leaves it where it was, whatever the distance |
| Flux.QuadraticControl | src/assets/js/flux.js:12-19 | for a chord midpoint off the centre, the quadratic control lies at `radius + 0.7·chord` from the centre, straight above the chord's midpoint (the antipodal case is `Flux.AboveChordAntipodal`) |
| Flux.QuadraticFlux | src/assets/js/flux.js:7-21 | the quadratic runs from the projected source to the projected destination, both on the sphere, and is pulled toward a control at `radius + 0.7·chord` from the centre on the ray through the chord's midpoint (the centre itself for antipodal end points) |
| Flux.CubicControl | src/assets/js/flux.js:35-43 | a cubic control lies one chord length from its end point, on the radial line, and `length(out) + chord` from the centre: pushed outward, not inward |
| Flux.CubicControlOutward | src/assets/js/flux.js:35-38 | the outward push adds `distance` to the end point's distance from the centre |
| Flux.CubicFlux | src/assets/js/flux.js:28-45 | the cubic runs between the projected end points on the sphere. Each inner control lies one chord length from its own end point, on that end's radial line, at `radius + chord` from the centre |
| Flux.DoubleCubicMidPoint | src/assets/js/flux.js:57-64 | for a chord midpoint off the centre, the join lies at `radius + 0.2·chord` from the centre, straight above the chord's midpoint (the antipodal case is `Flux.AboveChordAntipodal`) |
| Flux.InnerControls | src/assets/js/flux.js:66-70 | the two inner controls are mirror images through the join (`srcControl + destControl = 2·midPoint`), each half a chord length from it along the chord |
| Flux.MirrorOffsets | src/assets/js/flux.js:69-70 | offsets of `+k` and `-k` along the same direction sum to twice the base |
| Flux.DoubleCubicCurves | src/assets/js/flux.js:77-78 | the first cubic's first two controls are the source and the second's last two are the destination. The halves meet at the join. The first half's inner control is half a chord from the join toward the source, and the second's is its mirror image through the join |
| Flux.Splice | src/assets/js/flux.js:82-83 | `splice(0, len-1).concat(b)` keeps all of `a` but its last point, then all of `b`; exactly one copy of `a`'s last point is dropped (as multisets) |
| Flux.SpliceSamples | src/assets/js/flux.js:80-83 | two samplings with `n` divisions that meet at the join splice into `2n + 1` points with the join at index `n`, one copy fewer than the two samplings hold together |
| Flux.DoubleCubicFlux | src/assets/js/flux.js:52-88 | with 50 divisions per half, the arc has 101 points: the source first, the elevated join at index 50, the destination last. The join appears once fewer than in the two samplings together |
| Globe.Initial | assets/js/flux.js:6-15 | the initial state satisfies the invariant; its target distance of 100000 lies outside the zoom bounds |
| Globe.Clamp | assets/js/flux.js:165-166 | the clamp returns a value within the bounds. It is the identity inside them, returns `hi` for a value above `hi` and `lo` for a value below `lo` |
| Globe.Zoom | assets/js/flux.js:204-208 | after any `zoom(delta)` with a numeric `delta` the target distance lies in [500, 2000], even from 100000. Only `distanceTarget` changes; it moves by exactly `delta` when that lands in range, otherwise onto the bound crossed |
| Globe.ZoomMonotone | assets/js/flux.js:205-207 | a larger `delta` never yields a larger target distance |
| Globe.ZoomInOut | assets/js/flux.js:204-208 | zooming in by `delta` and back out is the identity when the first step does not hit the near bound |
| Globe.OnMouseDown | assets/js/flux.js:140-154 | a drag starts, remembering the mouse position (x negated) and the current target |
| Globe.OnMouseMove | assets/js/flux.js:156-167 | only the mouse and the target change. `target.x` is the raw drag value, never clamped. `target.y` keeps the raw value while it lies in [−π/2, π/2], and otherwise lands on the pole it crossed |
| Globe.DragBackRestores | assets/js/flux.js:160-163 | dragging back to the press point restores the target saved at mouse-down |
| Globe.OnMouseUp | assets/js/flux.js:169-175 | the drag ends and nothing else changes |
| Globe.OnMouseOver | assets/js/flux.js:47-49 | the mouse is over the renderer and nothing else changes |
| Globe.OnMouseOut | assets/js/flux.js:50-52 | the mouse leaves the renderer and any drag ends |
| Globe.OnMouseWheel | assets/js/flux.js:177-183 | while `overRenderer` the wheel calls `zoom(0.3·wheelDeltaY)`, with all of `zoom`'s outcome: exact in range, onto the crossed bound otherwise. With the mouse elsewhere the state is unchanged |
| Globe.OnKeyDown | assets/js/flux.js:185-196 | key 38 calls `zoom(100)` and key 40 calls `zoom(-100)`, from any state including the unsettled 100000: the target moves 100 closer or farther, or onto the crossed bound. Every other key leaves the state unchanged |
| Globe.Render | assets/js/flux.js:210-215 | a frame first calls `zoom(curZoomSpeed)`, so the first frame from 100000 puts the target at 2000. Each rotation gap then shrinks to 0.9 of itself and the distance gap to the new target to 0.7 |
| Globe.RenderBetween | assets/js/flux.js:213-215 | each eased value lies between its old value and its target |
| Globe.CameraPosition | assets/js/flux.js:217-219 | the camera lies at distance `distance` from the planet |
| Globe.StepInv | assets/js/flux.js:140-215 | every handler keeps the invariant: zoom speed 0, and target, saved target and rotation within the poles |
| Globe.RunInv | assets/js/flux.js:140-215 | no sequence of events breaks the invariant |
| Globe.StepSettled | assets/js/flux.js:204-208 | no event moves a settled target distance out of [500, 2000] |
| Globe.RunSettledAfterFrame | assets/js/flux.js:210-211 | after the first animation frame the target distance stays in [500, 2000] for good |
| Globe.EaseNGap | assets/js/flux.js:213-215 | `n` easing steps of factor `k` keep `(1 − k)^n` of the gap |
| Globe.FramesEase | assets/js/flux.js:210-215 | frames without input keep the targets and ease distance and rotation toward them |
| Globe.FramesConverge | assets/js/flux.js:210-215 | after `n` idle frames the distance gap is `0.7^n` and each rotation gap `0.9^n` of the original |
| Globe.Trunc | assets/js/flux.js:136 | truncation toward zero stays within one unit of its argument and on the same side of zero |
| Globe.JsRemainder | assets/js/flux.js:136 | JavaScript's `%` lies in `[0, b)` for a non-negative dividend and in `(−b, 0]` for a negative one |
| Globe.JsRemainderIdentity | assets/js/flux.js:136 | `%` is the identity on `[0, b)` |
| Globe.JsRemainderShift | assets/js/flux.js:136 | `%` has period `b` on non-negative dividends |
| Globe.NormalizeLongitude | assets/js/flux.js:134-136 | `(θ + 3π) % 2π − π` lies in `[−π, π)` for every `θ ≥ −3π` |
| Globe.NormalizeLongitudeFixes | assets/js/flux.js:134-136 | an angle already in `[−π, π)` is left unchanged |
| Globe.NormalizeLongitudePeriodic | assets/js/flux.js:134-136 | adding a full turn does not change the result, so the result differs from `θ` by whole turns |
| Globe.LongitudeInRange | assets/js/flux.js:134-137 | a source longitude in [−180, 180] turned by a bearing in [−π, π] comes out in [−180, 180) degrees |
| Globe.MidLatitude | assets/js/flux.js:130-133 | the midpoint latitude lies in [−90, 90], since `atan2` gets a non-negative second argument |
| Globe.MidLongitude | assets/js/flux.js:134-137 | the midpoint longitude is normalised into [−180, 180) |
| Globe.MidCoord | assets/js/flux.js:123-138 | `midCoord` yields a latitude in [−90, 90] and a longitude in [−180, 180) |
| Globe.CoordToPoint | assets/js/flux.js:111-121 | the legacy point lies at `200 + elevation` from the origin, with a missing elevation read as 0 |
| Globe.CoordToPointAgrees | assets/js/flux.js:114-115 | without an elevation, the legacy `coordToPoint` is `latLonToXyz` on a radius-200 sphere at the origin; an omitted elevation equals an elevation of 0 |
| Globe.CoordToPointRaised | assets/js/flux.js:111-121 | a point `e` above the planet is the surface point scaled by `(200 + e)/200`: it lies on the same ray from the centre |
| Globe.AddFlux | assets/js/flux.js:63-76 | the legacy quadratic arc starts at the projected source and ends at the projected destination, both on the planet. Its control is the projected `midCoord` point raised by twice the chord: on the same ray from the centre, `200 + 2·chord` from it |

## Left out

- THREE scene, camera, renderer, materials, textures, `Line` and `Geometry`
  objects, window resize and `animate`: rendering glue with no arithmetic of
  its own. `render` is modelled up to the camera position; `lookAt` and
  `renderer.render` are not.
- Bézier evaluation (`QuadraticBezierCurve3`, `CubicBezierCurve3`,
  `getPoints`, `createPointsGeometry(100)`) lives inside THREE. The quadratic
  and cubic arcs are modelled by their control points. The double-cubic arc
  is modelled by its splice, with `getPoints` as a parameter.
- Flux.DoubleCubicFlux: its point count, end points and join are stated only
  when `getPoints` returns `n + 1` samples starting and ending on the curve's
  end control points. That is THREE's behaviour and is not provable in this model.
- Globe.Zoom, Globe.OnMouseWheel: deltas are reals. A NaN delta, as an
  undefined `wheelDeltaY` gives, leaves `distanceTarget` NaN for good,
  because `Math.min` and `Math.max` propagate NaN. The [500, 2000] bound
  therefore holds only for numeric deltas.
- Floating point: the model computes over exact reals, so constants such as
  0.1 and 0.3 are exact and rounding is not modelled.
- Trigonometry and square roots are parameters. Every property that needs
  one of them states it pointwise (`SqrtAt`, `PythagoreanAt`, `Atan2At`).
  `Math.PI` is assumed positive (`PiPositive`).
- Globe.MidCoord: states only the ranges of the result. The claim that it
  is the great-circle midpoint, including `midCoord(a, a) = a`, is a
  trigonometric identity beyond this model.
- GeoJson.GeoJsonToGeometry: requires that a `Polygon` holds rings and that
  every other type holds polygons of rings. Malformed JSON, positions with an altitude
  or fewer than two numbers, and non-numeric values are not modelled.
- Globe.CoordToPoint: `elevation || 0` is modelled for a missing elevation
  and an explicit 0. `NaN` and other falsy values are not modelled.
- `GeoUtils.xyzToLatLon` is not modelled: it is not an exact inverse of
  `latLonToXyz`.
- `GeoUtils.getCountryCodeFromOSM`, the JSON loading in both `index.js`
  files, the GLSL shaders, the build script and `src/assets/js/globe.js` are
  network I/O, GPU code, tooling and a thin constructor wrapper. They are not
  part of this model.
- The texture rotation of the legacy planet (`planet.rotation.y = π`) only
  affects rendering.
- Three facts about the code shape the model. The projection uses
  colatitude `(90 − lat)` and azimuth `(180 − lon)`. A border ring pushes
  each vertex once. Each double-cubic half is sampled with 50 divisions,
  which gives 101 points.
