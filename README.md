# Retina scene: wireframe extraction, heatmap knots and visibility toggles

A Dafny model of the derivation core of a 3D retina visualisation (`index.js`).
The scene shows an attribution heatmap volume with a colour legend, one
wireframe per retinal layer boundary, and eye-model meshes; the user can hide
and show the wireframes and the eye models.

What is modelled:

- **Linspace** (`linspace.dfy`): `linspace(0, stop, num)`, evenly spaced
  integer sample positions rounded as `Math.round` rounds, computed exactly
  with integers.
- **Wireframe** (`wireframe.dfy`): `createWireframe`. For every drawn boundary
  (1, 5, 7, 9) it sweeps both grid axes of the row-major layer field, takes 14
  cross-sections per axis and 48 samples per cross-section, pushes each point
  as (x, height, y) onto a flat point buffer and appends line records
  `[2, a, a + 1]` with a running point offset. The nested loops are methods
  (`BuildSection`, `AppendLines`, `AppendSection`, `AppendSweep`, `BuildLayer`,
  `CreateLayerActor`, `CreateWireframe`) whose
  postconditions equate the buffers they build with specification functions
  (`LayerPoints`, `LayerLines`); lemmas state what those buffers contain.
- **Heatmap** (`heatmap.dfy`): the colour and opacity knot lists of the
  volume and the legend, with `real` positions.
- **AttributionMax** (`attribution_max.dfy`): the `maxAttr` reduction, a left
  fold of `Math.max` from minus infinity.
- **Render** and **Visibility** (`render.dfy`, `visibility.dfy`): actors with a
  visibility flag, and the scene's two kinds of checkbox handler, which set the
  flags and log the engine calls (camera reset, render) they make.

Out-of-range array reads, which JavaScript answers with `undefined`, are
modelled as `None` by `Wireframe.Read`, so the extractor needs only a
three-dimensional shape; that every read is in range on a well-formed field is
a lemma (`Wireframe.LayerPointOnGrid`).

Two edge cases are modelled as the code behaves: for a maximum of 0 the
opacity knots are simply added at coinciding positions (what the volume then
shows depends on how the engine merges coinciding knots, which is outside the
model); and a field too small for the sampled indices makes the extractor read
past the data, producing `undefined` heights, rather than emit empty polylines.

## Model

| member | source | states |
|---|---|---|
| Linspace.RoundDiv | index.js:108 | `Math.round(a / d)` for a positive divisor, in integers; what it computes is stated by `RoundDivNearest` and `RoundDivUnique` |
| Linspace.RoundDivNearest | index.js:108 | the rounded quotient r satisfies 2dr - d <= 2a < 2dr + d: it is the integer nearest to a/d with halves rounded up, which is what `Math.round` does |
| Linspace.RoundDivUnique | index.js:108 | no other integer is within half of a/d (rounded up at a half), so the rounding is determined |
| Linspace.RoundDivMonotone | index.js:108 | rounding preserves order of the numerators |
| Linspace.Linspace | index.js:105-109 | exactly `num` values |
| Linspace.LinspaceNearest | index.js:105-109 | value i is `stop * i / (num - 1)` rounded to nearest, halves up |
| Linspace.LinspaceEndpoints | index.js:105-109 | the first value is 0 and the last is `stop` |
| Linspace.LinspaceMonotone | index.js:105-109 | for `stop >= 0` the values never decrease |
| Linspace.LinspaceBounds | index.js:105-109 | for `stop >= 0` every value is in [0, stop] |
| Linspace.LinspaceThreeByThree | index.js:105-109 | three samples over an axis of length 3 are 0, 1, 2, the middle one the centre index |
| Wireframe.Sections | index.js:120 | each sweep has exactly 14 cross-sections |
| Wireframe.Samples | index.js:123 | each cross-section has exactly 48 sample positions |
| Wireframe.CellIndex | index.js:126 | the row-major flat index `j + shape[2] * (y + shape[1] * x)` of boundary j at cell (x, y); that it lies inside the data on a well-formed field is stated by `CellIndexInBounds` |
| Wireframe.Point | index.js:124-127 | the triple (x, height, y) pushed for one sample, x and y swapped by the sweep direction; its place in the buffer and its grid and data cell are stated by `LayerPointAt` and `LayerPointOnGrid` |
| Wireframe.SectionPoints | index.js:121-128 | a cross-section's buffer holds three numbers per sample |
| Wireframe.SweepPoints | index.js:120-129 | a sweep's buffer holds 3 * 48 numbers per cross-section |
| Wireframe.SectionCount | index.js:119-120 | a layer has 2 * 14 cross-sections, 14 per sweep |
| Wireframe.LayerSweeps | index.js:119-139 | after the sweeps of n axes the buffer holds 3 * 48 * 14 * n numbers |
| Wireframe.LayerPoints | index.js:119-139 | a layer's point buffer holds 3 * 2 * 14 * 48 numbers |
| Wireframe.LayerPointsSplit | index.js:119-139 | a layer's point buffer is the sweep of axis 0 followed by the sweep of axis 1 |
| Wireframe.SectionLines | index.js:131-136 | a cross-section with n points contributes n - 1 records of three numbers |
| Wireframe.LayerLines | index.js:119-139 | a layer's line buffer holds 3 * 47 numbers per cross-section |
| Wireframe.BuildSection | index.js:121-128 | the sample loop builds exactly the cross-section buffer `SectionPoints` |
| Wireframe.AppendLines | index.js:131-136 | the line loop appends one record [2, off + l, off + l + 1] per pair of consecutive points, none for fewer than two points |
| Wireframe.AppendSection | index.js:121-137 | one cross-section appends its 48 points, 47 line records starting at the running offset, and moves the offset by 48 |
| Wireframe.AppendSweep | index.js:120-138 | the cross-section loop appends the sweep's points and its 14 * 47 line records; `pointOffset` stays a third of the point buffer's length |
| Wireframe.BuildLayer | index.js:115-139 | the two sweeps build exactly `LayerPoints` and `LayerLines` with `pointOffset` tracking the point count |
| Wireframe.CreateLayerActor | index.js:115-156 | the actor made for boundary j is new, visible and draws that boundary's point and line buffers in its colour with opacity 0.5 and width 3 |
| Wireframe.CreateWireframe | index.js:111-161 | one fresh visible actor per boundary in [1, 5, 7, 9], keyed by it, with that boundary's buffers, colour, opacity 0.5 and width 3; distinct actors per key |
| Wireframe.SectionPointsAt | index.js:123-128 | sample t of a cross-section is numbers 3t..3t+2 of its buffer |
| Wireframe.SweepPointsAt | index.js:120-129 | sample t of cross-section s is point 48s + t of the sweep |
| Wireframe.LayerPointAt | index.js:119-129 | sample t of cross-section s sweeping axis `dir` is point 48 * (14 * dir + s) + t of the layer buffer, the triple (x, height, y) of that sample |
| Wireframe.CellIndexInBounds | index.js:126 | on a well-formed field with shape[2] > 9 the flat index of any grid cell and drawn boundary is inside the data |
| Wireframe.LayerPointOnGrid | index.js:120-127 | on a well-formed field every emitted point is (x, height, y) with x and y on the grid, taken from the cross-section position and the sample as the sweep direction says, and the height is the data cell `j + shape[2] * (y + shape[1] * x)`, never undefined (a read outside the data, which JavaScript answers with `undefined`, is modelled as `None`) |
| Wireframe.SectionLinesAt | index.js:132-136 | record l of a cross-section is [2, off + l, off + l + 1] |
| Wireframe.LayerLinesAt | index.js:129-137 | record l of cross-section s is [2, 48s + l, 48s + l + 1], so the offset before section s is 48s |
| Wireframe.LayerLineRecord | index.js:131-137 | record q of the first n cross-sections is [2, a, a + 1] with both points among the 48n emitted and in one cross-section |
| Wireframe.LayerLinesWellFormed | index.js:131-137 | every record of a layer is [2, a, a + 1] with both points inside the layer's point buffer and in the same cross-section, so no line joins two cross-sections |
| Heatmap.HeatmapTransfer | index.js:87-95 | the volume's two colour knots and five opacity knots, in the order they are added; their positions and ordering are stated by `OpacityCurveShape` and `LegendMatchesVolume` |
| Heatmap.ColorScale | index.js:212-214 | the two-knot lookup table handed to the scalar bar; that it is the volume's colour ramp is stated by `LegendMatchesVolume` |
| Heatmap.OpacityCurveShape | index.js:90-95 | five opacity knots at 0, 10%, 25%, 30% and 100% of the maximum with opacities 0, 0, 0.5, 0.9, 1; positions ordered exactly when the maximum is non-negative; opacities always ordered |
| Heatmap.LegendMatchesVolume | index.js:87-89 | the lookup table the scalar bar shows (index.js:212-214, 228) equals the volume's colour knots, black at 0 and red at the maximum |
| Heatmap.KnotsCoverAttribution | index.js:249 | with the maximum of non-empty data as `maxAttr`, no sample lies beyond the last colour or opacity knot |
| Heatmap.OpacityCurveAtSeven | index.js:90-95 | for maximum 7 the opacity knots are at 0, 0.7, 1.75, 2.1, 7 |
| AttributionMax.Max | index.js:249 | `Math.max` of the accumulator and a sample is at least both and is one of them |
| AttributionMax.MaxReduce | index.js:249 | the fold is at least its start and every element, and is the start or an element |
| AttributionMax.MaxAttr | index.js:249 | minus infinity exactly for empty data; otherwise an element at least as large as every element |
| AttributionMax.MaxAttrUnique | index.js:249 | any element bounding all elements is the reduction's result |
| Render.Actor.constructor | index.js:148-158 | a new actor has the given geometry and material and is visible |
| Render.Actor.SetVisibility | index.js:272 | the actor's visibility becomes the flag |
| Visibility.Scene.constructor | index.js:261-313 | the wireframes are built from the layer field and setup ends with a camera reset then a render |
| Visibility.Scene.OnLayerToggle | index.js:270-274 | the boundary's actor takes the checkbox state, then one render is requested |
| Visibility.Scene.OnEyeToggle | index.js:286-293 | every eye model takes the checkbox state, then the camera is reset and one render requested |
| Visibility.Scene.LayerToggleOffOn | index.js:270-274 | unchecking then checking a boundary leaves its actor visible again, with two renders |

## Left out

- Linspace.Linspace: only `start = 0`, `endpoint = true` and `num >= 2`, the only forms index.js calls; the quotient is exact, so a floating-point product that lands just below or above a half could round differently in JavaScript.
- Float32Array and Uint32Array conversion of the buffers (index.js:142-143), including `undefined` becoming NaN; a missing height stays `None` in the model.
- `Math.max` with NaN samples; samples are exact reals.
- The knot lists for empty attribution data, where `maxAttr` is minus infinity: the knot functions take a real maximum.
- The scalar range `[0, maxAttr]` that `createColorScale` sets (index.js:218) goes to a mapper that is attached to nothing and not returned, so it is not modelled; the range the scalar bar displays is whatever the engine derives from the lookup table.
- The engine's handling of knots: interpolation, and merging of knots at the same position when the maximum is 0.
- Engine object setup: image extent, volume and line mappers, blend mode, sample distance, opacity unit distance, back- and front-face culling, scalar-bar text styles, `addActor`/`addVolume`/`addActor2D` calls (index.js:72-86, 97-101, 141-156, 216-235). They configure an engine that is not part of this model; only the camera resets and renders that the toggles order are logged.
- `loadModel` (index.js:163-189): fetching, STL parsing, normals, placement constants. Eye models are taken as given actors; a failed load, which leaves `undefined` in the eye-model list, is not modelled.
- `createVectorText`, font loading and label placement (index.js:191-208, 295-309): foreign libraries.
- DOM wiring, label CSS colours and the loading overlay (index.js:265-269, 316-326), and the ordering of the asynchronous loads in `setupScene`.
- build.js: bundling and file copying.
- A fixed-stride sampling variant of the extractor belongs to another variant of the application, which is not part of this model.
