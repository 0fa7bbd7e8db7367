# DxfViewer colour and geometry helpers in Dafny

This project models the pure helpers of the DXF viewer's main window
(`Src/Ui/DxfWindow.cpp`) and proves properties about them:

- **Palette lookup** (`colorFromDxfColor`). A DXF colour index is turned into a
  24-bit display colour. Indices outside the table give a warning red. A pure
  white entry is drawn black, because the viewer has a white background. The
  table's BGR byte order is swapped into RGB.
- **Colour indirection** (`colorFromObj`). A primitive's colour code is either
  "by layer" (the layer's default colour), "by block" (the block's colour, or
  red when there is no block) or an explicit palette index.
- **Extent to rectangle** (`rectFromExtent`). An empty extent gives the null
  rectangle. Any other extent gives the rectangle between its minimum and
  maximum corners.
- **View extent**: the union of the layers' extents that `zoomAll` and
  `setCurrentDrawing` compute before zooming.
- **Arc sweep** (the angle part of `ArcItem::arcToPath`). An end angle that lies
  before the start angle is moved forward by one turn.

Modules, one per concept:

- `Palette` (palette.dfy) holds the palette lookup, with display colours as `bv32` values `0x00RRGGBB`.
- `Drawing` (drawing.dfy) holds the drawing model the window reads: colour codes, primitives, layers and blocks.
- `ColorResolve` (color_resolve.dfy) holds the colour indirection.
- `Geometry` (geometry.dfy) holds points, extents and the toolkit rectangle.
- `SceneExtent` (scene_extent.dfy) holds the union over layers.
- `ArcPath` (arc_path.dfy) holds the arc sweep adjustment.

The drawing model's own sources (`DxfDrawing`, `DxfParser`) are not part of this
model, so the model takes the following as parameters:

- The global colour table is a `seq<bv32>`. Its length plays the part of the table size.
- The two sentinel colour codes are a `Sentinels(byLayer, byBlock)` value. The only assumption is that the two codes differ, because they are the case labels of one switch. In DXF's group code 62 they are 256 and 0.
- A layer's extent is an input: the value its last extent update computed.

## Model

| member | source | states |
|---|---|---|
| Palette.ColorFromDxfColor | Src/Ui/DxfWindow.cpp:33-48 | The result always fits in 24 bits. An index below 0 or at or past the table size gives pure red, and the table is never read out of range. A pure white entry gives black. Any other entry gives red from its low byte, green from its middle byte and blue from its high byte. |
| Palette.Swizzle | Src/Ui/DxfWindow.cpp:44-48 | The reordered colour fits in 24 bits. Its red, green and blue channels are the entry's low, middle and high bytes. |
| Palette.FromChannels | Src/Ui/DxfWindow.cpp:37 | Building a colour from three channels gives a 24-bit value whose channels read back as given. The fallback red is built this way from (255, 0, 0). |
| Palette.SwizzleInvolution | Src/Ui/DxfWindow.cpp:44-48 | Swapping red and blue is its own inverse on 24-bit values. |
| Palette.SwizzleInjective | Src/Ui/DxfWindow.cpp:44-48 | The byte reorder is injective on 24-bit values. |
| Palette.LookupInjective | Src/Ui/DxfWindow.cpp:35-48 | With 24-bit palette entries, two in-range indices get the same colour only when their entries are equal, or when one is white and the other black. |
| Palette.WhiteOnlyFromWideEntry | Src/Ui/DxfWindow.cpp:39-48 | The lookup yields white if and only if the index is in range and the entry is not exactly 0xffffff but has its low 24 bits all set. |
| Palette.NeverWhite | Src/Ui/DxfWindow.cpp:40-43 | When every table entry fits in 24 bits, no index is ever drawn white. |
| Drawing.Classify | Src/Ui/DxfWindow.cpp:58-69 | A colour code is "by layer" exactly when it equals the by-layer code. It is "by block" exactly when it equals the by-block code. Otherwise it is an explicit index equal to the code itself. |
| ColorResolve.ColorFromObj | Src/Ui/DxfWindow.cpp:56-71 | A by-layer primitive gets the palette colour of the layer's default colour. A by-block primitive with no block gets red. A by-block primitive with a block gets the palette colour of the block's colour. Any other code gets the palette colour of the code itself. |
| ColorResolve.ByLayerIgnoresBlock | Src/Ui/DxfWindow.cpp:60 | A by-layer primitive's colour is the same whatever block is passed. |
| ColorResolve.ExplicitIgnoresContext | Src/Ui/DxfWindow.cpp:69 | A primitive with an explicit index has the same colour on any layer and in any block. |
| ColorResolve.LayerColorMattersOnlyByLayer | Src/Ui/DxfWindow.cpp:58-69 | Changing the layer's default colour changes nothing for a primitive whose code is not by-layer. |
| ColorResolve.OutOfRangeIsRed | Src/Ui/DxfWindow.cpp:56-71 | Suppose the code that is finally looked up is out of range: the primitive's own code, the layer's default for a by-layer primitive, or the block's colour. Then the result is red. The layer's colour is not resolved a second time. |
| ColorResolve.LayerObjectColors | Src/Ui/DxfWindow.cpp:286-288 | The colour line 288 computes for each object of a layer, in order, with no block passed. Every by-block object gets red. Every by-layer object gets the layer's palette colour. The colour becomes the pen only for lines, polylines and circles. |
| Geometry.RectFromExtent | Src/Ui/DxfWindow.cpp:77-86 | An empty extent gives the null rectangle. A box gives a rectangle whose left and top are the minimum corner and whose right and bottom are the maximum corner. A valid box never gives a negative width or height. |
| Geometry.RectRoundTrip | Src/Ui/DxfWindow.cpp:77-86 | Reading a box's rectangle back as corners gives the same box. |
| Geometry.RectNullIff | Src/Ui/DxfWindow.cpp:79-85 | The rectangle is null if and only if the extent is empty or shrunk to a single point. |
| Geometry.RectValidIff | Src/Ui/DxfWindow.cpp:77-86 | The rectangle has positive width and height, which the view needs before it will zoom, if and only if the extent is a box with positive width and height. |
| Geometry.Extent.ExpandTo | Src/Ui/DxfWindow.cpp:269 | The expanded extent encloses both operands. Expanding by an empty extent changes nothing. Expanding an empty extent gives the other operand. The result is empty only when both are. Valid operands give a valid result. Geometry.ExpandToLeast shows it is the least enclosing extent, and Geometry.ExpandToCommutes that the union does not depend on the order of its operands. |
| SceneExtent.ViewExtentCovers | Src/Ui/DxfWindow.cpp:264-271 | The union over the layers encloses every layer's extent. |
| SceneExtent.ViewExtentLeast | Src/Ui/DxfWindow.cpp:264-271 | Any extent that encloses every layer's extent also encloses the union. |
| SceneExtent.ViewExtentEmptyIff | Src/Ui/DxfWindow.cpp:282-285 | The union is empty if and only if every layer's extent is empty. |
| SceneExtent.ViewExtentValid | Src/Ui/DxfWindow.cpp:266-270 | Valid layer extents give a valid union. |
| SceneExtent.ZoomAllRect | Src/Ui/DxfWindow.cpp:264-272 | The loop that expands an initially empty extent by each layer's extent, in order, yields the rectangle of the union. With only empty layers it yields the null rectangle. |
| ArcPath.NormalizeSweep | Src/Ui/DxfWindow.cpp:110-113 | As written, the start angle is kept. Ordered angles are left unchanged. When the start is past the end, the end moves forward by exactly 360. Afterwards the end is not before the start if and only if the start was at most one turn past the end. |
| ArcPath.NegativeSweepWitness | Src/Ui/DxfWindow.cpp:110-118 | As written, start 720 and end 10 give a sweep of -350 degrees. |
| ArcPath.NormalizeSweepWrapped | Src/Ui/DxfWindow.cpp:110-113 | Corrected: the end is never before the start afterwards. Ordered angles are left unchanged. A wrapped arc sweeps less than one turn. |
| ArcPath.SweepEndUnique | Src/Ui/DxfWindow.cpp:110-113 | Corrected: a wrapped end becomes the only angle that lies in the turn starting at the start angle and differs from the end by whole turns. |
| ArcPath.WrappedAgreesIff | Src/Ui/DxfWindow.cpp:110-113 | The as-written and corrected adjustments agree if and only if the start is at most one turn past the end. That includes every pair of angles within [0, 360). |
| ArcPath.SweepWithinTurn | Src/Ui/DxfWindow.cpp:110-118 | Start and end angles within [0, 360) give a sweep within [0, 360). |
| ArcPath.NormalizeIdempotent | Src/Ui/DxfWindow.cpp:110-113 | Corrected: applying the corrected adjustment to an already adjusted pair changes nothing. |
| ArcPath.NormalizeTwiceIff | Src/Ui/DxfWindow.cpp:110-113 | As written: applying the adjustment twice gives the same pair as applying it once if and only if the start is at most one turn past the end. |
| ArcPath.ArcToPath | Src/Ui/DxfWindow.cpp:102-118 | As written, the arc is drawn in the square of side twice the radius centred on the arc's centre. It starts at the start angle. Ordered angles sweep end minus start. When the start is past the end, the sweep is end plus 360 minus start. The sweep is non-negative if and only if the start is at most one turn past the end. Angles within [0, 360) sweep within [0, 360). |
| ArcPath.ArcToPathWrapped | Src/Ui/DxfWindow.cpp:102-118 | Corrected: the same square and start angle, with a sweep that is never negative. Ordered angles sweep end minus start. Wrapped angles sweep less than one turn. |
| ArcPath.ArcToPathAgreesIff | Src/Ui/DxfWindow.cpp:110-118 | The as-written and corrected arc segments are equal if and only if the start is at most one turn past the end. |
| ArcPath.SceneArc | Src/Ui/DxfWindow.cpp:321-327 | The scene builder adds an arc item exactly for arc primitives. The item is the as-written arc segment, with the centre's y mirrored, the primitive's radius and its start and end angles. |

## Left out

- ArcPath.NormalizeSweep and ArcPath.ArcToPath model the code as written. Their sweep is negative when the start is more than one turn past the end, as recorded under Findings. `NormalizeSweepWrapped` and `ArcToPathWrapped` model the corrected adjustment.
- `DxfWindow::openFile` and `selectAndOpenFile` are left out. They cover thread-pool dispatch, file I/O, the per-layer extent update call and error reporting through signals and slots.
- Scene construction in `setCurrentDrawing` is left out. This covers the line, polyline and circle items, the arc item's pen, and the logging of unhandled object types. It is rendering. Among it is the fact that arcs are drawn with a red pen whatever their resolved colour. Only the colour computation, the extent union and the arc item's parameters are modelled.
- `degToRad` and the debug sin/cos endpoints of `arcToPath` are left out because they are floating-point trigonometry.
- The painter-path calls themselves are left out. `ArcToPath` states only the rectangle, start angle and sweep that are passed to them.
- Angles and coordinates are `real`. Floating-point rounding of `qreal` is not modelled.
- The view's zoom transform (`CadView`) is left out as UI behaviour. So are mouse handling, the status-bar labels, window set-up and application start-up (`Src/Main.cpp`).
- `DxfDrawing` and `DxfParser` are not part of this model. That covers the parser, the tokenizer, the sentinel code values, the palette's contents and `Layer::updateExtent`. `Extent::expandTo` is modelled as the union the window relies on at lines 269 and 285: an empty operand is the identity, otherwise corner-wise min and max.
- A layer's default colour is not resolved a second time. `colorFromObj` passes `aParentLayer.defaultColor()` straight to `colorFromDxfColor` (DxfWindow.cpp:60), so a sentinel code there goes through the range check like any index.
- The palette entries are assumed to be 32 bits wide. The byte masks give the same result for signed and unsigned entries of that width.

## Findings

| source | as written | input that shows it | evidently intended | confidence | as-written member | corrected member |
|---|---|---|---|---|---|---|
| Src/Ui/DxfWindow.cpp:110-113 | One turn (360) is added to the end angle when the start angle is greater. | start 720, end 10: the end becomes 370, and the sweep passed to `arcTo` is -350. The arc is drawn the long way round in the opposite direction. | Add whole turns until the end is not before the start, so that a wrapped arc sweeps in [0, 360). | low: DXF writers usually keep angles within [0, 360), where both agree; not executed | ArcPath.NegativeSweepWitness | ArcPath.NormalizeSweepWrapped |
