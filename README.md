# Reference tool workspace engine in Dafny

This project models the core of an in-browser reference-image tool for artists.
The tool shows an image on a canvas and overlays a grid of reference lines, with
distance labels along the top and right edges. The model covers three parts:

- the **workspace engine** (`WorkspaceEngine.js`): one object that owns the image
  and its crop, the image box drawn on the canvas, the zoom scale and the mode,
  the grid points, the two resize handles, display settings and distance labels;
- the **grayscale post-filter** (`color_filters.js`): an in-place pass over the
  RGBA byte buffer of the canvas;
- **`toFixedNumber`** (`math.js`): the rounding behind every conversion from
  canvas pixels to logical (percentage) coordinates.

JavaScript numbers are exact `real`s. `Math.round(x)` is `Floor(x + 1/2)`.

Modules, leaves first:

| file | module | what it holds |
|---|---|---|
| `options.dfy` | `Options` | `Option` |
| `real_facts.dfy` | `RealFacts` | small facts of real arithmetic used by the proofs |
| `numbers.dfy` | `Numbers` | `Math.round`, `toFixedNumber`, its error bound, idempotence and monotonicity |
| `viewport.dfy` | `Viewport` | fitting the crop to the canvas, with JavaScript's `Infinity`/`NaN` quotients; local/logical conversions |
| `grid_points.dfy` | `GridPoints` | grid-point records, the right-click flag cycle, the grid `generateGrid` builds |
| `distance_labels.dfy` | `DistanceLabels` | break lists per axis and the labels between neighbouring breaks |
| `resize_selection.dfy` | `ResizeSelection` | corner normalisation, crop composition, rectangle drag, aspect-ratio box, crop shift of points |
| `workspace_engine.dfy` | `WorkspaceEngine` | class `Engine`, whose methods update its fields in place, and the `Session` record |
| `color_filters.dfy` | `ColorFilters` | the grayscale pass over an `array<byte>` |

Grid points are plain records identified by their index in `gridPoints`. The
source attaches the same fields to DOM nodes.

Three behaviours of the code are easy to misread. The model follows the code
in each:

- The right-click cycle in `WorkspaceEngine.js:384-398` goes both lines →
  horizontal only → vertical only → removed. So a right click can remove a
  point, although the in-app help (`src/components/dialogs/HelpDialog.js:62-65`)
  names only the long click for that.
- `exportAsJSON` (`WorkspaceEngine.js:751-791`) does not write the mode.
  `Session` therefore has no mode, and an import leaves the mode as it was.
- `generateGrid` accepts 0 for `n` or `m`. The part `100 / 0` is `Infinity` but
  is never used: `generateGrid(0, m)` makes `m` horizontal-only points at
  (100, i·100/m), the first at (100, 0), and `generateGrid(n, 0)` the
  vertical-only mirror image. The model covers these cases.

## Model

| member | source | states |
|---|---|---|
| `Numbers.JsRound` | src/features/math.js:5 | Math.round gives the integer k with x − ½ < k ≤ x + ½ |
| `Numbers.EffectiveBase` | src/features/math.js:4 | `base \|\| 10`: an omitted or zero base becomes 10, any other base is used as given, and the result is never 0 |
| `Numbers.Pow` | src/features/math.js:4 | a positive base gives a positive power, and a non-zero base gives a non-zero power |
| `Numbers.ToFixedOmitsBase` | src/features/math.js:4 | toFixedNumber with the base omitted, 0 or 10 is the same rounding to d decimal digits |
| `Numbers.Multiplier` | src/features/math.js:4 | `pow = Math.pow(base \|\| 10, digits)` is never 0, so the division is always defined |
| `Numbers.ToFixedNumber` | src/features/math.js:3-6 | for any base, the result times pow is the whole number Math.round(num·pow) |
| `Numbers.RoundToUnitIsMultiple` | src/features/math.js:5 | for any non-zero pow, the result times pow is the whole number Math.round(x·pow) |
| `Numbers.RoundToUnitError` | src/features/math.js:5 | rounding to a unit 1/p moves x by more than −½/p and at most ½/p |
| `Numbers.ToFixedError` | src/features/math.js:5 | toFixedNumber(x, d) − x lies in (−½·10^−d, ½·10^−d] |
| `Numbers.RoundToUnitIdempotent` | src/features/math.js:5 | rounding an already rounded value to the same unit changes nothing |
| `Numbers.ToFixedIdempotent` | src/features/math.js:5 | toFixedNumber(toFixedNumber(x, d), d) = toFixedNumber(x, d) |
| `Numbers.RoundToUnitMonotone` | src/features/math.js:5 | x ≤ y implies round(x) ≤ round(y) for the same unit |
| `Numbers.ToFixedMonotone` | src/features/math.js:5 | toFixedNumber is non-decreasing in x |
| `Numbers.PowTenWhole` | src/features/math.js:4 | 10^d is a whole number |
| `Numbers.RoundToUnitWhole` | src/features/math.js:5 | for a positive whole pow, a whole number is rounded to itself |
| `Numbers.JsRoundWhole` | src/features/math.js:5 | Math.round keeps a whole number |
| `Numbers.ToFixedWhole` | src/features/math.js:3-6 | toFixedNumber(k, d) = k for every whole number k |
| `Viewport.MinQuotient` | src/features/WorkspaceEngine.js:89 | Math.min of two quotients: NaN exactly when either is NaN; Infinity exactly when both are; otherwise a number that is one of the two and no greater than either finite one |
| `Viewport.FitFactorFinite` | src/features/WorkspaceEngine.js:85-89 | for a crop of positive size the fit factor is the number min(canvasW/cropW, canvasH/cropH) |
| `Viewport.FitViewportSize` | src/features/WorkspaceEngine.js:84-101 | drawn size = crop size × min(1, canvasW/cropW, canvasH/cropH) × scale |
| `Viewport.FitViewportEmpty` | src/features/WorkspaceEngine.js:84-101 | a 0 × 0 crop (no image yet) gives an empty box at the canvas centre: the fit quotients are Infinity, or NaN on an empty canvas, and neither shrinks |
| `Viewport.FitViewport` | src/features/WorkspaceEngine.js:84-101 | the drawn box is centred on the canvas: x + width/2 = canvasW/2, and likewise for y |
| `Viewport.FitViewportAspect` | src/features/WorkspaceEngine.js:91-96 | the drawn box keeps the crop's aspect ratio |
| `Viewport.FitViewportNonNegative` | src/features/WorkspaceEngine.js:91-96 | a non-negative crop and scale give a non-negative drawn size |
| `Viewport.FitViewportFits` | src/features/WorkspaceEngine.js:89-101 | at scale 1 the box is no larger than the canvas or the crop, and does not start off the canvas |
| `Viewport.LogicalToLocal` | src/features/WorkspaceEngine.js:434-439 | on a non-empty box, the canvas position measured back against the box gives the percentage exactly |
| `Viewport.LocalToLogical` | src/features/WorkspaceEngine.js:441-446 | the percentage returned is within half a unit 10^−5 of the exact one |
| `Viewport.LocalToLogicalHandle` | src/features/WorkspaceEngine.js:448-453 | a handle reads as the plain position HANDLE_CENTER = 4 px right of and below its top-left corner |
| `Viewport.UnprojectProject` | src/features/WorkspaceEngine.js:436-443 | logical → local → logical, before rounding, is exactly the identity |
| `Viewport.LocalLogicalRoundTrip` | src/features/WorkspaceEngine.js:434-446 | localToLogicalPos(logicalToLocalPos(p)) is p rounded to 5 digits, within half a unit of p |
| `Viewport.LocalLogicalRoundTripExact` | src/features/WorkspaceEngine.js:434-446 | a point already at 5 digits survives the round trip unchanged |
| `Viewport.HandleRoundTrip` | src/features/WorkspaceEngine.js:369-381 | a handle drawn at a point and dropped without moving reads back as that point rounded to 5 digits |
| `GridPoints.RightClickStep` | src/features/WorkspaceEngine.js:384-398 | one right click keeps the position, and removes the point exactly when it is vertical-only |
| `GridPoints.RightClick` | src/features/WorkspaceEngine.js:384-398 | the points before the clicked one are untouched, and the list is one shorter exactly when the clicked point was vertical-only |
| `GridPoints.RightClickFrame` | src/features/WorkspaceEngine.js:384-398 | a right click changes only the clicked point, or splices out only it and keeps the others in order |
| `GridPoints.RightClickCycle` | src/features/WorkspaceEngine.js:384-398 | both lines → horizontal only → vertical only → removed, in three clicks |
| `GridPoints.RightClickUndrawn` | src/features/WorkspaceEngine.js:384-398 | a point with neither flag ignores right clicks |
| `GridPoints.RightClickKeepsDrawn` | src/features/WorkspaceEngine.js:384-398 | if every point draws a line, it still does after a right click |
| `GridPoints.GeneratedPoint` | src/features/WorkspaceEngine.js:416-423 | step i's point draws a horizontal line exactly when i < min(n, m) or m > n, a vertical one exactly when i < min(n, m) or n > m, at least one of them, and lies in [0, 100]² |
| `GridPoints.GeneratedGrid` | src/features/WorkspaceEngine.js:408-423 | generateGrid(n, m) makes max(n, m) − 1 points, or max(n, m) when n or m is 0 |
| `GridPoints.GeneratedPointInBox` | src/features/WorkspaceEngine.js:416-423 | for n, m ≥ 1 every generated point lies in (0, 100]² and draws at least one line |
| `GridPoints.GeneratedGridShape` | src/features/WorkspaceEngine.js:408-423 | points 1 .. min−1 sit at (i·100/n, i·100/m) with both flags; the rest sit at (i·100/n, 100) vertical-only if n > m, or at (100, i·100/m) horizontal-only if m > n |
| `GridPoints.GeneratedGridOneSided` | src/features/WorkspaceEngine.js:408-423 | with n or m equal to 0 there are max(n, m) points from step 0 on: vertical-only at (i·100/n, 100) if n > m, horizontal-only at (100, i·100/m) if m > n |
| `GridPoints.GeneratedGridFourByFour` | src/features/WorkspaceEngine.js:416 | a 4 × 4 grid is three diagonal points at 25, 50 and 75 |
| `DistanceLabels.InsertFrom` | src/features/WorkspaceEngine.js:178-183 | the inner scan never shortens the break list |
| `DistanceLabels.Breaks` | src/features/WorkspaceEngine.js:172-192 | a break list always has at least the two edges |
| `DistanceLabels.Spliced` | src/features/WorkspaceEngine.js:180 | splice(j + 1, 0, v) adds exactly one element |
| `DistanceLabels.SplicedAt` | src/features/WorkspaceEngine.js:180 | after the splice, elements up to j stay, v is at j + 1, and the rest shift by one |
| `DistanceLabels.SplicedSorted` | src/features/WorkspaceEngine.js:179-180 | splicing v between two neighbours it lies strictly between keeps the list strictly increasing |
| `DistanceLabels.SplicedElements` | src/features/WorkspaceEngine.js:180 | the splice adds v to the elements and removes none |
| `DistanceLabels.InsertFromSpec` | src/features/WorkspaceEngine.js:178-183 | on a strictly increasing list, v is added exactly when it lies strictly inside and is not already there; order and both ends are kept |
| `DistanceLabels.CutsSnoc` | src/features/WorkspaceEngine.js:174-191 | one more point adds its coordinate to the cuts exactly when its line crosses the axis strictly inside the image |
| `DistanceLabels.BreaksSnoc` | src/features/WorkspaceEngine.js:174-191 | processing one more point inserts its coordinate only if its flag puts it on that axis |
| `DistanceLabels.InsertShaped` | src/features/WorkspaceEngine.js:178-183 | inserting into a well-formed break list keeps it well formed and adds v to the cuts when 0 < v < 100 |
| `DistanceLabels.BreaksShapeStep` | src/features/WorkspaceEngine.js:174-191 | one more point keeps the break list well formed for the cuts so far |
| `DistanceLabels.BreaksShape` | src/features/WorkspaceEngine.js:172-192 | each break list starts at 0, ends at 100, is strictly increasing, and holds exactly the edges plus the on-axis coordinates strictly inside (0, 100), each once |
| `DistanceLabels.SortedUnique` | src/features/WorkspaceEngine.js:172-192 | two strictly increasing lists with the same elements are equal |
| `DistanceLabels.BreaksOrderIndependent` | src/features/WorkspaceEngine.js:172-192 | the break list depends only on which points exist, not on their order |
| `DistanceLabels.Labels` | src/features/WorkspaceEngine.js:195-215 | there is one label fewer than breaks |
| `DistanceLabels.LabelAt` | src/features/WorkspaceEngine.js:196-203 | label i shows round((b[i+1] − b[i])/100 · V), and on a list starting at 0 sits midway between the canvas positions of breaks i and i + 1 |
| `DistanceLabels.LabelsMeaning` | src/features/WorkspaceEngine.js:194-215 | every label is midway between its two lines and shows their rounded distance in virtual units |
| `DistanceLabels.SplitAtHalf` | src/features/WorkspaceEngine.js:172-204 | one vertical line at 50 with V = 100 gives breaks [0, 50, 100] and labels 50 and 50 |
| `DistanceLabels.Uniform` | src/features/WorkspaceEngine.js:413-416 | n equal cells have n + 1 breaks |
| `DistanceLabels.UniformSorted` | src/features/WorkspaceEngine.js:413-416 | the breaks of equal cells are strictly increasing |
| `DistanceLabels.UniformElements` | src/features/WorkspaceEngine.js:413-416 | the breaks of n equal cells are 0, 100 and the inner lines i·100/n |
| `DistanceLabels.Cells` | src/features/WorkspaceEngine.js:408-414 | an axis has at least one cell: n across and m down, or 1 for a side given 0 |
| `DistanceLabels.GeneratedPointCut` | src/features/WorkspaceEngine.js:416-423 | generated point i crosses an axis strictly inside the image exactly when 1 ≤ i < that axis's cell count, at i·100/cells |
| `DistanceLabels.GeneratedCuts` | src/features/WorkspaceEngine.js:408-423 | the cuts of a generated grid are exactly the inner lines of its equal cells |
| `DistanceLabels.GeneratedGridBreaks` | src/features/WorkspaceEngine.js:408-426 | after generateGrid(n, m) the x axis is split into n equal cells and the y axis into m; a side given 0 stays one cell |
| `DistanceLabels.UniformLabels` | src/features/WorkspaceEngine.js:201-212 | on n equal cells there are n labels, each showing round(V / n) |
| `DistanceLabels.CellWidth` | src/features/WorkspaceEngine.js:413-414 | one cell of n is 1/n of the virtual size |
| `ResizeSelection.RectanglePoints` | src/features/WorkspaceEngine.js:613-625 | the corners are ordered, and each coordinate comes from one of the two handles |
| `ResizeSelection.RectanglePointsSymmetric` | src/features/WorkspaceEngine.js:613-625 | which handle is which does not matter |
| `ResizeSelection.CropFullFrame` | src/features/WorkspaceEngine.js:642-645 | cropping to the full (0,0)-(100,100) selection leaves the source rectangle unchanged |
| `ResizeSelection.CropAxisWithin` | src/features/WorkspaceEngine.js:642-645 | on one axis, a selection within [0, 100] gives an interval inside the previous one |
| `ResizeSelection.Crop` | src/features/WorkspaceEngine.js:642-645 | a selection inside the image box gives a crop inside the previous crop |
| `ResizeSelection.CropAxisCompose` | src/features/WorkspaceEngine.js:642-645 | on one axis, two crops in a row are one crop to the nested interval |
| `ResizeSelection.CropCompose` | src/features/WorkspaceEngine.js:642-645 | cropping twice is cropping once to the second selection nested in the first |
| `ResizeSelection.CropThenFullFrame` | src/features/WorkspaceEngine.js:642-645 | cropping to the middle quarter halves the crop around its centre, and a full-frame crop afterwards keeps it |
| `ResizeSelection.DragRectangle` | src/features/WorkspaceEngine.js:553-563 | the first handle goes to the drop position |
| `ResizeSelection.DragRectangleKeepsSize` | src/features/WorkspaceEngine.js:553-563 | the dragged selection's top-left corner is at the drop position, and its width and height are the previous normalised ones |
| `ResizeSelection.AspectBox` | src/features/WorkspaceEngine.js:163-166 | the setter places exactly two handles |
| `ResizeSelection.FullWidthSides` | src/features/WorkspaceEngine.js:150-154 | corrected, for a ratio narrower than the image: width 100, height in (0, 100], pixel ratio as requested |
| `ResizeSelection.FullHeightSides` | src/features/WorkspaceEngine.js:155-160 | for a ratio at least as wide as the image: height 100, width in (0, 100], pixel ratio as requested |
| `ResizeSelection.AspectSidesFit` | src/features/WorkspaceEngine.js:150-160 | corrected: both sides in (0, 100], one exactly 100, and width·W : height·H = ratio |
| `ResizeSelection.AspectBoxCentred` | src/features/WorkspaceEngine.js:162-166 | the box lies in the image box, is centred at (50, 50), and its normalised size is the computed one |
| `ResizeSelection.AspectSidesAsWritten` | src/features/WorkspaceEngine.js:147-160 | as written: for a ratio narrower than the image, width 100 and a height equal to the corrected height × natural height / drawn height; otherwise the corrected sides |
| `ResizeSelection.AspectSidesAsWrittenOverflows` | src/features/WorkspaceEngine.js:150-154 | as written, a 1000 × 1000 image drawn 500 px high gets a 16:9 box 112.5 % high that starts above the image |
| `ResizeSelection.ShiftForCrop` | src/features/WorkspaceEngine.js:648-653 | as written, a shifted point moves by the origin change in source pixels divided by the drawn width (height) in canvas pixels, × 100, rounded to 5 digits |
| `ResizeSelection.KeepOnSource` | src/features/WorkspaceEngine.js:647-653 | corrected: the shifted point lies on the same source pixel under the new crop as the old point under the old crop |
| `ResizeSelection.ShiftForCropMovesPoint` | src/features/WorkspaceEngine.js:640-653 | as written, cropping a 1000 × 1000 image drawn at 1000 × 1000 to its middle quarter moves the centre point from source pixel (500, 500) to (375, 375); the corrected shift keeps it at 50 % |
| `ResizeSelection.ShiftForCropStill` | src/features/WorkspaceEngine.js:670-675 | if the crop origin does not move, points only get rounded to 5 digits |
| `WorkspaceEngine.DecimalString` | src/features/WorkspaceEngine.js:123 | a number's decimal text is never empty |
| `WorkspaceEngine.DecimalRoundTrip` | src/features/WorkspaceEngine.js:123 | reading the decimal text back gives the number |
| `WorkspaceEngine.GridColor` | src/features/WorkspaceEngine.js:121-123 | the colour is "hsl(0, 0%, " + a non-empty lightness + "%)" |
| `WorkspaceEngine.GridColorDefault` | src/features/WorkspaceEngine.js:68-69 | the constructor's colour is the one the setter would build for lightness 50 |
| `WorkspaceEngine.GridColorInjective` | src/features/WorkspaceEngine.js:121-123 | the colour string determines the lightness |
| `WorkspaceEngine.ShiftAll` | src/features/WorkspaceEngine.js:648-653 | the crop shift keeps the number of points |
| `WorkspaceEngine.ShiftAllMeaning` | src/features/WorkspaceEngine.js:648-653 | every point keeps its flags and moves by the origin change in drawn-box widths, rounded to 5 digits |
| `WorkspaceEngine.Sign` | src/features/WorkspaceEngine.js:510-511 | t / \|t\| is ±1 with the sign of t |
| `WorkspaceEngine.KeptRectangle` | src/features/WorkspaceEngine.js:513-529 | the kept rectangle is the ratio fitted to the dragged extent when both its sides reach the minimum size, and otherwise the ratio fitted to the minimum square |
| `WorkspaceEngine.KeptCorner` | src/features/WorkspaceEngine.js:531-533 | the dragged corner, placed from the fixed one, spans exactly the kept rectangle on the mouse's side |
| `WorkspaceEngine.InsertBreak` | src/features/WorkspaceEngine.js:178-191 | the inner loop with its early break computes InsertFrom, or leaves the list alone for an off-axis point |
| `WorkspaceEngine.MeasureLabels` | src/features/WorkspaceEngine.js:195-215 | the label loop computes Labels |
| `WorkspaceEngine.Engine.constructor` | src/features/WorkspaceEngine.js:18-81 | the initial state: CONST mode, scale 1, no points, ratio 1:1, colour hsl(0, 0%, 50%), virtual size 100 × 100 |
| `WorkspaceEngine.Engine.UpdateImageDimensions` | src/features/WorkspaceEngine.js:84-104 | the drawn box becomes FitViewport of canvas, crop and scale, and the labels are refreshed |
| `WorkspaceEngine.Engine.FitView` | src/features/WorkspaceEngine.js:85-101 | the drawn box becomes FitViewport of canvas, crop and scale, which keeps it centred on the canvas |
| `WorkspaceEngine.Engine.UpdateDistanceLabels` | src/features/WorkspaceEngine.js:171-216 | the labels become those of the break lists of the current points |
| `WorkspaceEngine.Engine.SetScale` | src/features/WorkspaceEngine.js:110-115 | the scale is stored and the box refitted with it |
| `WorkspaceEngine.Engine.ResizeCanvas` | src/features/WorkspaceEngine.js:236-241 | the canvas takes the new size and the box is refitted to it |
| `WorkspaceEngine.Engine.SetGridColorLight` | src/features/WorkspaceEngine.js:121-129 | the lightness is stored and the colour becomes "hsl(0, 0%, L%)" |
| `WorkspaceEngine.Engine.SetGrayscale` | src/features/WorkspaceEngine.js:135-138 | the flag is stored |
| `WorkspaceEngine.Engine.SetMode` | src/features/WorkspaceEngine.js:313-339 | the mode is set; leaving or entering RESIZE with no handles creates them at (0,0) and (100,100); the handles stay 0 or 2 |
| `WorkspaceEngine.Engine.ConstructGridPoint` | src/features/WorkspaceEngine.js:354-366 | a point with both flags is appended after the existing ones, and its index is returned |
| `WorkspaceEngine.Engine.AddGridPoint` | src/features/WorkspaceEngine.js:341-352 | outside GRID mode nothing changes; in GRID exactly one point with both flags is appended at the converted position, and labels are refreshed |
| `WorkspaceEngine.Engine.DragGridPoint` | src/features/WorkspaceEngine.js:375-381 | only the dragged point moves, to the handle position converted to logical; labels are refreshed |
| `WorkspaceEngine.Engine.RightClickGridPoint` | src/features/WorkspaceEngine.js:384-401 | the points become RightClick of the old list at k, and labels are refreshed |
| `WorkspaceEngine.Engine.ClearGridPoints` | src/features/WorkspaceEngine.js:430-432 | no grid point remains |
| `WorkspaceEngine.Engine.GenerateGrid` | src/features/WorkspaceEngine.js:408-428 | for any n, m ≥ 0 the points become exactly GeneratedGrid(n, m); the labels show n and m equal cells, one for a side given 0 |
| `WorkspaceEngine.Engine.PlaceDiagonal` | src/features/WorkspaceEngine.js:411-416 | the first loop builds the first min(n, m) − 1 generated points, none when n or m is 0 |
| `WorkspaceEngine.Engine.PlaceEdge` | src/features/WorkspaceEngine.js:418-423 | the second loop completes the generated grid |
| `WorkspaceEngine.Engine.ResetResizeHandles` | src/features/WorkspaceEngine.js:627-634 | existing handles go to (0,0) and (100,100); with none, nothing is created |
| `WorkspaceEngine.Engine.DragResizeRectangle` | src/features/WorkspaceEngine.js:553-565 | the handles become the drop position and that position plus the previous normalised size |
| `WorkspaceEngine.Engine.DragResizeHandle` | src/features/WorkspaceEngine.js:499-540 | the other handle stays; without the kept ratio the handle goes where dropped; with it, it is placed from the other handle by the kept rectangle towards the mouse |
| `WorkspaceEngine.Engine.SetResizeAspectRatio` | src/features/WorkspaceEngine.js:144-169 | the ratio is stored and the handles span the centred box of the sides as written, with the height taken of the drawn height; when the image is drawn at its natural height these are the corrected sides |
| `WorkspaceEngine.Engine.ShiftGridPoints` | src/features/WorkspaceEngine.js:648-653 | every point is moved by the crop shift, in place |
| `WorkspaceEngine.Engine.CropImage` | src/features/WorkspaceEngine.js:636-659 | the source becomes the old crop composed with the normalised selection; points shift by the origin change; the box is refitted; labels refresh; handles reset |
| `WorkspaceEngine.Engine.ResetCrop` | src/features/WorkspaceEngine.js:661-681 | the source becomes (0, 0, image width, image height); points shift by minus the old origin; the box is refitted; handles reset if any |
| `WorkspaceEngine.Engine.SetVirtualSizes` | src/features/WorkspaceEngine.js:683-687 | the virtual sizes are stored and the labels recomputed with them |
| `WorkspaceEngine.Engine.ExportAsJSON` | src/features/WorkspaceEngine.js:751-791 | the session records every exported field and every point, in order |
| `WorkspaceEngine.Engine.ImportFromJSON` | src/features/WorkspaceEngine.js:793-839 | every recorded field and both point lists are restored, in order; scale becomes 1; handles are valid iff the session held 0 or 2 |
| `WorkspaceEngine.Engine.LoadGridPoints` | src/features/WorkspaceEngine.js:827-832 | the rebuilt grid points equal the saved ones, flags included |
| `WorkspaceEngine.Engine.LoadResizePoints` | src/features/WorkspaceEngine.js:833-836 | the rebuilt handles equal the saved ones |
| `WorkspaceEngine.SessionRoundTrip` | src/features/WorkspaceEngine.js:751-839 | importing one engine's export into another reproduces the exported session, and scale becomes 1 |
| `ColorFilters.Grey` | src/features/color_filters.js:5 | the grey value lies between the pixel's darkest and brightest channel, so within 0..255 |
| `ColorFilters.GreyWithin` | src/features/color_filters.js:5 | the weights sum to one, so the rounded luminance is within [min, max] of the channels |
| `ColorFilters.GreyOfGrey` | src/features/color_filters.js:5-8 | a pixel with R = G = B = c gets c |
| `ColorFilters.PixelBytes` | src/features/color_filters.js:4 | a pixel start i below n has all four bytes inside the buffer |
| `ColorFilters.FilteredByteWithin` | src/features/color_filters.js:5-9 | an alpha byte is kept; a colour byte lies between its pixel's darkest and brightest colour channel |
| `ColorFilters.Grayscaled` | src/features/color_filters.js:4-10 | the pass keeps the buffer length |
| `ColorFilters.GrayscaleEffect` | src/features/color_filters.js:4-10 | the buffer becomes Grayscaled of its old contents, in place |
| `ColorFilters.GrayscaledPixel` | src/features/color_filters.js:5-9 | after the pass every pixel has R = G = B = grey of its own channels, and alpha unchanged |
| `ColorFilters.GrayscaledIsLocal` | src/features/color_filters.js:5 | a pixel's output depends only on its own four input bytes |
| `ColorFilters.GrayscaleIdempotent` | src/features/color_filters.js:4-10 | a second pass changes nothing |
| `ColorFilters.GreyExample` | src/features/color_filters.js:5 | (100, 150, 200) becomes 140: 140.5 is rounded to the even neighbour |

## Left out

- Canvas drawing: `redraw`, `redrawSafe`, grid lines, label bars and fonts (`WorkspaceEngine.js:244-311`). Drawing I/O; `getImageData`/`putImageData` around the grayscale pass as well.
- DOM handle work: element creation, styles and visibility, `setVisualPosition`, `updateHandles`, `updateResizeRectangle`, `showGridHandles`, the visibility part of `showResizeHandles`, and `resize_div`. The handles' logical data is modelled; their DOM nodes are not.
- `init` and the wake lock (`WorkspaceEngine.js:218-234`): browser APIs.
- Image loading: `loadLocalImage` and `loadImageURL`. The image is a value with a data URI and a natural size. `imageToDataURL` in `helper.js` is not part of this model, so the export stores the image's URI as it is.
- `reset` (`WorkspaceEngine.js:690-718`): it calls `getAspectRatio`, which `WorkspaceEngine.js:1` imports from `math.js`, but `math.js:1-6` defines only `toFixedNumber`. The definition of `getAspectRatio` is not part of this model.
- Engine.DragResizeHandle: `scaleWithAspectRatio` is imported at `WorkspaceEngine.js:1` but not defined in `math.js:1-6`, and its definition is not part of this model. It is a function parameter with no assumed properties. A mouse on the fixed corner's row or column makes the source's sign 0/0 = NaN; that case is excluded by a precondition.
- Engine.ImportFromJSON: the one-shot image `load` listener that refits and redraws is asynchronous and left out. A malformed session object cannot be expressed, because `Session` is typed.
- Engine.ExportAsJSON: the grid colour is kept as the string the engine holds, and the mode is not exported, as in the code.
- Engine.AddGridPoint: requires a non-empty drawn box in GRID mode. The source would divide by zero and store NaN or Infinity coordinates.
- Engine.DragGridPoint: requires a non-empty drawn box, for the same reason.
- Engine.DragResizeRectangle: requires two handles and a non-empty drawn box, for the same reason. The source only attaches the drag to an existing rectangle.
- Engine.CropImage: requires two handles. Without them `getResizeRectanglePoints` reads `x` of an undefined handle at `WorkspaceEngine.js:617`, which throws a TypeError before any state changes.
- Engine.ResetCrop: requires a non-empty drawn box when there are grid points, as above.
- Engine.SetResizeAspectRatio: requires two handles, a positive image size and a positive ratio, and a non-zero drawn height only for a ratio narrower than the image, the one branch (`WorkspaceEngine.js:153`) that divides by it. Without handles the source stores the ratio and then throws a TypeError at `WorkspaceEngine.js:163`. A zero image side or ratio side divides by zero. The contract follows line 153 as written (see Findings), so it does not promise a box that fits the image; `ResizeSelection.AspectSidesFit` proves that of the corrected sides.
- Engine.SetGridColorLight: the lightness is a whole number. The source concatenates any value into the colour string.
- Engine.SetMode: only the creation of the handles is modelled; showing and hiding them is DOM work.
- Grid points are identified by index. The source finds a point to splice out by object identity, which for distinct records is the same index.
- IEEE-754 rounding of every JavaScript number operation: the model uses exact reals.
- ColorFilters.GrayscaleEffect: the weights are the exact hundredths 30/59/11. The clamped byte store of the float result is round-half-to-even of the exact value; float error in `0.3·R + 0.59·G + 0.11·B` is not modelled. The buffer length is a multiple of 4, as for any `ImageData`.
- Viewport.FitViewport: `Infinity` and `NaN` are modelled for the fit factor, where a 0 × 0 crop produces them. The conversions instead require a non-empty drawn box.
- Engine.ShiftGridPoints: requires a non-empty drawn box when there are points, like the conversions. It models the crop shift of `WorkspaceEngine.js:648-653` and `670-675` as written (see Findings). It does not promise that points stay on their source pixels; `ResizeSelection.KeepOnSource` proves that of the corrected shift, which the engine does not use.
- Numbers.ToFixedNumber: `digits` is a natural number. The source accepts any number, and every call in the engine passes 5.

## Findings

The engine follows the code as written in both places below. The corrected
definitions, and their properties, are proved beside it.

| source | as written | input that shows it | evidently intended | confidence | as-written member | corrected member |
|---|---|---|---|---|---|---|
| src/features/WorkspaceEngine.js:647-653 | cropImage shifts each grid point by the crop origin's move in source pixels, but subtracts it from the point's canvas position and reads it back against the old drawn box | a 1000 × 1000 image drawn at 1000 × 1000, cropped to its middle quarter: the centre point at 50 % becomes 25 % of the new crop, source pixel (375, 375) instead of (500, 500) | keep each point on its source pixel: its old source position measured against the new crop, 50 % here | not executed | `ResizeSelection.ShiftForCropMovesPoint` | `ResizeSelection.KeepOnSource` |
| src/features/WorkspaceEngine.js:153 | the full-width branch of the `resize_aspect_ratio` setter divides the desired pixel height by `this.image_height`, the drawn height on the canvas | a 1000 × 1000 image drawn 500 px high, ratio 16:9: the box is 100 % × 112.5 % and its top handle is at −6.25 % | divide by `this.image.height`, the natural height, as the other branch divides by `this.image.width`: the box is then 100 % × 56.25 % | not executed | `ResizeSelection.AspectSidesAsWrittenOverflows` | `ResizeSelection.AspectSidesFit` |
