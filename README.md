# Graph viewport: camera, coordinate pipeline and gestures

This project models the viewport of the graph view in `src/graph-view/App.ts`. The viewport is the `App` class with its `Camera`. It covers:

- **Ingestion** (`updateGraphData`). The parsed node list fills a `Map` keyed by node id. `Map.set` on an id that is already present keeps that entry's slot in the iteration order. A running min/max, which starts from ±Infinity, yields the bounding box. The edge list is replaced as a whole.
- **Coordinate pipeline** (`toNormalizedCanvas`, `normalizePosition`, `screenToNormalizedCanvas`).
  - Data space is mapped to canvas space: the box is stretched over the canvas inside a 20px margin, and a zero span falls back to 1.
  - Canvas space is mapped to screen space: a zoom about the canvas centre, then the pan offset.
  - The inverse of the camera stage maps screen space back to canvas space.
- **Clamped, anchor-preserving zoom** (`zoomAt`, `clamp`). The zoom stays in [0.1, 10]. Nothing changes when the clamped zoom equals the old one. Otherwise the canvas point under the pointer stays under the pointer.
- **Camera.** It starts at offset (0, 0) with zoom 1. `pan` adds a delta to the offset without clamping.
- **Drawing.**
  - The edge loop of `drawCanvas` yields the segments it would stroke. An edge with a missing endpoint is skipped.
  - The node loop yields one disc per node, with the node's label 12px right of the centre and 4px below it.
- **Hit test** (`getClickedNode`). It returns the first node, in map order, whose disc centre is within squared distance 100 of the click. If there is none, it returns nothing.
- **Gesture state of `bindEvents`.** This covers the wheel (pinch-zoom with ctrl held, otherwise a pan scaled by `deltaMode`), the touch pinch/pan state machine with its incremental baseline distance, mouse drag, and click.

Files:

- `graph.dfy` (module `Graph`) holds nodes, edges, the node map as a sequence of entries in insertion order, ingestion and the bounding box.
  - A bound is an extended real (`NegInf | Fin | PosInf`), so an empty node list leaves the box at ±Infinity, as in the source.
- `pipeline.dfy` (module `Pipeline`) holds the coordinate maps, `clamp` and `zoomAt` as functions on values, plus their properties.
- `render.dfy` (module `Render`) holds the segments and discs a redraw emits, the click radius and an end-to-end two-node scene.
- `viewport.dfy` (module `Viewport`) holds three classes:
  - `Camera` and `App`, whose fields their methods update in place;
  - `Controller`, which holds the variables that the event handlers of `bindEvents` share (the source keeps them as closure locals), with one method per handler.

Numbers are modelled as Dafny `real`.

The model follows the code as written in these places:

- The bounding box includes the position of a node whose id a later node overwrites, because the min/max update runs for every parsed node (`src/graph-view/App.ts:64-71`).
- The kind of touch gesture is re-evaluated on every `touchstart`, and neither branch clears the other flag. A second finger landing during a touch pan starts a pinch while the pan flag stays set (`src/graph-view/App.ts:228-243`).
- The hit test has no nearest-node tie-break: of several discs under the click, the first in map order wins, and a click exactly 10px from a centre still hits (`src/graph-view/App.ts:320-331`).

## Model

| member | source | states |
|---|---|---|
| Graph.Get | src/graph-view/App.ts:170-171 | `Map.get` finds a node exactly when the id is a key, and the node found carries that id |
| Graph.Put | src/graph-view/App.ts:65 | `Map.set` adds the id to the keys; the size grows by one only for a new key |
| Graph.PutSpec | src/graph-view/App.ts:65 | after `Map.set`, `get` returns the new node for its id and the old answer for every other id; an existing key keeps its slot, a new one is appended; no other entry appears; keys stay unique |
| Graph.Ingest | src/graph-view/App.ts:63-66 | the cleared-then-refilled map has exactly the parsed ids as keys, and is empty exactly when the parsed list is |
| Graph.IngestSpec | src/graph-view/App.ts:63-66 | the map after ingestion has unique keys and holds only parsed nodes |
| Graph.IngestLastWins | src/graph-view/App.ts:64-66 | a duplicated id resolves to the last parsed node that carries it |
| Graph.IngestDistinct | src/graph-view/App.ts:64-66 | with distinct ids the map iterates the parsed nodes in parsed order |
| Graph.Extend | src/graph-view/App.ts:67-71 | none of its own: one min/max iteration over extended reals; specified through Bounds and BoundsAttained |
| Graph.Bounds | src/graph-view/App.ts:58-74 | the box restarts from ±Infinity: it stays unbounded for an empty list; otherwise it is finite and contains every parsed position |
| Graph.BoundsAttained | src/graph-view/App.ts:68-71 | each of the four bounds is the coordinate of some parsed node, so the box is the componentwise min/max |
| Graph.IngestedInsideBox | src/graph-view/App.ts:58-74 | every node left in the map lies inside the box, and a non-empty map comes with a finite box |
| Pipeline.Span | src/graph-view/App.ts:81-82 | a zero span falls back to 1, so the result is never zero; a positive span is kept as it is |
| Pipeline.ToCanvas | src/graph-view/App.ts:76-87 | none of its own: `toNormalizedCanvas`, one `Stretch` per axis; specified by ToCanvasInsideMargin, ToCanvasCorners and DegenerateAxisAtMargin |
| Pipeline.Stretch | src/graph-view/App.ts:84-85 | none of its own: one axis of `toNormalizedCanvas`; specified by AxisInsideMargin |
| Pipeline.ToScreen | src/graph-view/App.ts:94-101 | none of its own: the camera stage of `normalizePosition`; specified by ScreenRoundTrip, CanvasRoundTrip and InitialCameraIsIdentity |
| Pipeline.Normalize | src/graph-view/App.ts:89-104 | none of its own: `normalizePosition` as ToScreen after ToCanvas; specified through those two and by Render.InitialViewInsideMargin |
| Pipeline.FromScreen | src/graph-view/App.ts:106-116 | none of its own: `screenToNormalizedCanvas`; specified by ScreenRoundTrip and CanvasRoundTrip |
| Pipeline.Clamp | src/graph-view/App.ts:138-140 | the result lies in [min, max]; a value inside is kept, and one below or above becomes min or max |
| Pipeline.ZoomedAt | src/graph-view/App.ts:118-136 | the new zoom is the clamped product and lies in [0.1, 10] whatever the scale |
| Pipeline.RatioIsOne | src/graph-view/App.ts:121-122 | the test `actualScale === 1` holds exactly when the clamped zoom equals the old zoom |
| Pipeline.AxisInsideMargin | src/graph-view/App.ts:84-85 | on one axis, a coordinate in [min, max] maps into [20, size - 20] |
| Pipeline.ToCanvasInsideMargin | src/graph-view/App.ts:76-87 | every position inside the box maps into [20, width - 20] x [20, height - 20] when the canvas is at least 40px each way |
| Pipeline.ToCanvasCorners | src/graph-view/App.ts:84-85 | the box minimum maps to (20, 20), and a maximum with a nonzero span maps to size - 20 |
| Pipeline.DegenerateAxisAtMargin | src/graph-view/App.ts:81-85 | a zero-span axis maps every coordinate on it to the margin, with no division by zero |
| Pipeline.AxisInverse | src/graph-view/App.ts:97-114 | on one axis, the camera stage and `screenToNormalizedCanvas` undo each other when zoom is nonzero |
| Pipeline.ScreenRoundTrip | src/graph-view/App.ts:89-116 | applying the camera stage to `screenToNormalizedCanvas(s)` gives back `s` |
| Pipeline.CanvasRoundTrip | src/graph-view/App.ts:89-116 | `screenToNormalizedCanvas` applied to the camera stage of a canvas point gives back that point |
| Pipeline.ZoomNoOp | src/graph-view/App.ts:119-122 | `zoomAt` leaves the camera unchanged exactly when the clamped zoom equals the old zoom |
| Pipeline.AxisAnchor | src/graph-view/App.ts:129-132 | on one axis, the offset `zoomAt` sets draws canvas coordinate n at screen coordinate s, and s maps back to n |
| Pipeline.ZoomAnchor | src/graph-view/App.ts:124-135 | the canvas point under the pointer is the same before and after `zoomAt`, and it is still drawn under the pointer |
| Pipeline.ClampedZoomMonotone | src/graph-view/App.ts:118-120 | from a zoom in range, a scale of at least 1 never zooms out and a scale of at most 1 never zooms in |
| Pipeline.ZoomAtCenterKeepsOrigin | src/graph-view/App.ts:124-135 | zooming at the canvas centre from offset (0, 0) keeps the offset at (0, 0) |
| Pipeline.ZoomByTwoAtCenter | src/graph-view/App.ts:118-136 | from zoom 1 and offset (0, 0), a zoom by 2 at the centre gives zoom 2 at offset (0, 0) |
| Pipeline.InitialCameraIsIdentity | src/graph-view/App.ts:97-101 | with offset (0, 0) and zoom 1 the screen position equals the canvas position |
| Render.WithinClick | src/graph-view/App.ts:324-326 | none of its own: the squared-distance test against 10 * 10; specified by ClickRadiusExact |
| Render.Hit | src/graph-view/App.ts:323-326 | none of its own: the click test against a node's screen position; used by App.GetClickedNode and TwoNodeScene |
| Render.SegmentOf | src/graph-view/App.ts:170-180 | none of its own: the segment between the screen positions of an edge's two endpoints; used by Stroked and TwoNodeScene |
| Render.DiscOf | src/graph-view/App.ts:186-190 | none of its own: a node's disc at its screen position with the label at +12/+4; used by App.NodeDiscs and InitialViewInsideMargin |
| Render.ClickRadiusExact | src/graph-view/App.ts:321-326 | along one axis, a click selects a disc exactly when it is at most 10px from its centre, so 11px away misses |
| Render.DrawnEdges | src/graph-view/App.ts:169-172 | an edge is drawn exactly when it is in the list and both endpoints are keys of the map; with no nodes nothing is drawn; with no dangling edge all are drawn |
| Render.Stroked | src/graph-view/App.ts:169-181 | one segment per drawn edge, in list order, from the screen position of its source node to that of its target node |
| Render.InitialViewInsideMargin | src/graph-view/App.ts:76-104 | with the initial camera, every node in the map is drawn inside the 20px margin |
| Render.TwoNodeGraph | src/graph-view/App.ts:58-74 | ingesting nodes at (0, 0) and (10, 10) keeps both in order, gives the box (0, 0)-(10, 10) and draws the edge between them |
| Render.TwoNodeScene | src/graph-view/App.ts:169-181 | on a canvas at least 60px each way, that edge runs from margin corner to margin corner; a click at the second corner hits b and not a |
| Viewport.Camera.constructor | src/graph-view/App.ts:338-341 | a new camera is at offset (0, 0) with zoom 1 |
| Viewport.Camera.Pan | src/graph-view/App.ts:343-346 | the delta is added to the offset, with no clamping, and the zoom is unchanged |
| Viewport.App.constructor | src/graph-view/App.ts:34-46 | the viewport holds the given canvas, a fresh camera at (0, 0) with zoom 1, and the map, box and edges of the initial ingestion of the given lists |
| Viewport.App.UpdateGraphData | src/graph-view/App.ts:58-74 | the map is the ingestion of the parsed nodes and the box is their bounds, whatever they were before; the edges are replaced; the zoom is untouched |
| Viewport.App.ZoomAt | src/graph-view/App.ts:118-136 | the camera becomes `ZoomedAt` of its old state; the zoom stays in range; an unchanged zoom leaves the camera unchanged; the canvas point under the pointer is preserved |
| Viewport.App.GetClickedNode | src/graph-view/App.ts:320-331 | none exactly when no node is hit; otherwise the first hit node in map order |
| Viewport.App.StrokedEdges | src/graph-view/App.ts:169-181 | the loop emits exactly the segments of `Render.Stroked` |
| Viewport.App.NodeDiscs | src/graph-view/App.ts:185-191 | one disc per node in map order, at its screen position, with its label 12px right and 4px down |
| Viewport.Controller.constructor | src/graph-view/App.ts:222-282 | the touch state declared at lines 222-226 and the mouse-drag state declared at lines 280-282 both start with every flag false and every coordinate and the baseline at 0 |
| Viewport.Controller.Wheel | src/graph-view/App.ts:194-220 | with ctrl held it zooms at the pointer (no change for deltaY 0, in for deltaY < 0, out for deltaY > 0); otherwise it pans by minus the deltas times 16, the canvas height or 1 for deltaMode 1, 2 or other |
| Viewport.Controller.TouchStart | src/graph-view/App.ts:228-243 | two touches set the pinch flag and the baseline; one touch sets the touch-pan flag and last point; nothing else changes |
| Viewport.Controller.TouchMove | src/graph-view/App.ts:245-271 | a pinch with two touches zooms at their midpoint by new distance / baseline and moves the baseline; otherwise a touch pan with one touch pans by the move and records the point; otherwise nothing changes |
| Viewport.Controller.TouchEnd | src/graph-view/App.ts:273-278 | with no touch left both touch gestures end; otherwise nothing changes |
| Viewport.Controller.MouseDown | src/graph-view/App.ts:284-288 | a drag starts at the pointer |
| Viewport.Controller.MouseMove | src/graph-view/App.ts:290-298 | while dragging, it pans by the move since the last position and records the new one; otherwise nothing changes |
| Viewport.Controller.MouseUp | src/graph-view/App.ts:300-306 | `mouseup` and `mouseleave` end the drag and change nothing else |
| Viewport.Controller.Click | src/graph-view/App.ts:308-317 | an open-file message with the path of the first hit node, or none when no node is hit |

## Left out

- Theme lookup (`getTheme`, `getCurrentTheme.ts`): reads CSS properties and theme files from the host; colours do not affect geometry.
- Canvas creation, `sizeCanvas` and the resize listener: browser APIs. The canvas size is a constant of each `App`, so resizing between events is not modelled.
- The `ctx` drawing calls: a redraw is modelled as the sequence of segments and discs it would emit. The redraw after each handler is not modelled, because it changes no modelled state.
- `JSON.parse` in `updateGraphData`: the model takes the already parsed node and edge lists, so a malformed payload is not modelled.
- `AppChannel`, `acquireVsCodeApi` and `postMessage`: host messaging. `Click` returns the message it would post.
- `preventDefault` and the `passive: false` listener options: browser behaviour only.
- IEEE-754 arithmetic: numbers are reals. NaN, rounding and an overflow to Infinity are not modelled. The ±Infinity start of the bounding box is modelled exactly, by extended reals.
- Viewport.Controller.Wheel: `Math.exp(-deltaY * 0.02)` is a parameter. It is assumed positive, above 1 exactly when deltaY < 0 and equal to 1 exactly when deltaY is 0, because exponentials are not available on reals.
- Viewport.Controller.TouchStart: `Math.hypot` is a parameter whose square is the sum of squares. It is required positive, so two touches at the same point (distance 0, which makes the next pinch scale Infinity or NaN) are excluded.
- Viewport.Controller.TouchMove: the same distance parameter as in `TouchStart`. During a pinch with two touches it is required positive, so two touches at the same point are excluded; outside a pinch there is no requirement, because the source then computes no distance.
- Viewport.App.ZoomAt: requires a zoom in [0.1, 10]. The source never leaves that range, because only `zoomAt` writes the zoom and the camera starts at 1.
- Camera offset: `Camera.position` is a two-element array in the source and two fields `x` and `y` here. Aliasing of that array is not modelled (nothing in the source aliases it).
- Touch lists: the model receives the client coordinates of the touches. Touch identity and touches other than the first two are not modelled, as the source ignores them.
- `TuanGraphView.ts`, `extension.ts` and the tests: webview provider glue and host integration, not part of this model.
