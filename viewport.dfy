/*
 * The viewport itself: the `Camera`, the `App` that owns the graph snapshot,
 * the bounding box and the camera, and the gesture state that the event
 * handlers of `bindEvents` keep between events (here the `Controller`).
 * The drawing calls, DOM events and the host channel are outside the model: a
 * handler receives the event's numbers, and a click returns the message it
 * would post.
 */
module Viewport {
  import opened Graph
  import opened Pipeline
  import opened Render

  class Camera {
    /** `position[0]` and `position[1]`: the pan offset in screen pixels. */
    var x: real
    var y: real
    var zoom: real

    constructor ()
      ensures x == 0.0 && y == 0.0 && zoom == 1.0
    {
      x, y, zoom := 0.0, 0.0, 1.0;
    }

    function State(): Cam
      reads this
    {
      Cam(x, y, zoom)
    }

    /** Adds the delta to the offset, without any clamping; the zoom is left alone. */
    method Pan(dx: real, dy: real)
      modifies this
      ensures x == old(x) + dx && y == old(y) + dy
      ensures zoom == old(zoom)
    {
      x := x + dx;
      y := y + dy;
    }
  }

  class App {
    const canvas: Canvas
    const camera: Camera
    /** The node map, in its iteration (insertion) order. */
    var nodes: seq<Node>
    var edges: seq<Edge>
    /** `minPosition` and `maxPosition`. */
    var minX: Ext
    var minY: Ext
    var maxX: Ext
    var maxY: Ext
    /** The node list of the last ingestion. */
    ghost var parsed: seq<Node>

    function BoundingBox(): Box
      reads this
    {
      Box(minX, minY, maxX, maxY)
    }

    /**
     * The zoom stays in [MinZoom, MaxZoom], and a non-empty map comes with a
     * finite box, so every node in it can be placed on the canvas.
     */
    ghost predicate Valid()
      reads this, camera
    {
      && InZoomRange(camera.zoom)
      && (nodes != [] ==> BoundingBox().Finite())
    }

    /**
     * The map and the box are exactly what the last ingestion computed from
     * its node list. Only the ingestion writes the fields this reads; the
     * camera and the gesture handlers leave it as it is.
     */
    ghost predicate Ingested()
      reads this
    {
      nodes == Ingest(parsed) && BoundingBox() == Bounds(parsed)
    }

    constructor (canvas: Canvas, parsedNodes: seq<Node>, parsedEdges: seq<Edge>)
      ensures Valid() && Ingested() && fresh(camera)
      ensures this.canvas == canvas && parsed == parsedNodes
      ensures camera.State() == Cam(0.0, 0.0, 1.0)
      ensures nodes == Ingest(parsedNodes) && BoundingBox() == Bounds(parsedNodes)
      ensures edges == parsedEdges
    {
      this.canvas := canvas;
      camera := new Camera();
      nodes, edges := [], [];
      minX, minY, maxX, maxY := PosInf, PosInf, NegInf, NegInf;
      parsed := [];
      new;
      UpdateGraphData(parsedNodes, parsedEdges);
    }

    /**
     * `updateGraphData` on an already parsed description: the box restarts from
     * ±Infinity, the map is cleared and refilled node by node, and the edge list
     * is replaced. The camera is not touched.
     */
    method UpdateGraphData(parsedNodes: seq<Node>, parsedEdges: seq<Edge>)
      requires Valid()
      modifies this
      ensures Valid() && Ingested() && parsed == parsedNodes
      ensures nodes == Ingest(parsedNodes)
      ensures BoundingBox() == Bounds(parsedNodes)
      ensures edges == parsedEdges
    {
      minX, minY := PosInf, PosInf;
      maxX, maxY := NegInf, NegInf;
      nodes := [];
      var i := 0;
      assert parsedNodes[..0] == [];
      while i < |parsedNodes|
        invariant 0 <= i <= |parsedNodes|
        invariant nodes == Ingest(parsedNodes[..i])
        invariant BoundingBox() == Bounds(parsedNodes[..i])
      {
        var node := parsedNodes[i];
        IngestStep(parsedNodes, i);
        ghost var box := Extend(BoundingBox(), node.position);
        nodes := Put(nodes, node);
        var p := node.position;
        if Below(p.x, minX) { minX := Fin(p.x); }
        assert minX == box.minX;
        if Below(p.y, minY) { minY := Fin(p.y); }
        assert minY == box.minY;
        if Above(p.x, maxX) { maxX := Fin(p.x); }
        assert maxX == box.maxX;
        if Above(p.y, maxY) { maxY := Fin(p.y); }
        assert maxY == box.maxY;
        i := i + 1;
      }
      assert parsedNodes[..i] == parsedNodes;
      edges := parsedEdges;
      parsed := parsedNodes;
    }

    /**
     * `zoomAt`: zoom by `scale` at screen point (sx, sy). The new zoom is the
     * clamped product; at a bound the call changes nothing; otherwise the
     * canvas point under (sx, sy) stays there.
     */
    method ZoomAt(sx: real, sy: real, scale: real)
      requires Valid()
      modifies camera
      ensures Valid()
      ensures camera.State() == ZoomedAt(old(camera.State()), canvas, Point(sx, sy), scale)
      ensures camera.zoom == old(camera.zoom) ==> camera.State() == old(camera.State())
      ensures FromScreen(camera.State(), canvas, Point(sx, sy)) == FromScreen(old(camera.State()), canvas, Point(sx, sy))
    {
      ghost var before := camera.State();
      ghost var s := Point(sx, sy);
      var oldZoom := camera.zoom;
      var newZoom := Clamp(oldZoom * scale, MinZoom, MaxZoom);
      var actualScale := newZoom / oldZoom;
      RatioIsOne(newZoom, oldZoom);
      if actualScale == 1.0 {
        return;
      }
      var center := canvas.Center();
      var n := FromScreen(camera.State(), canvas, Point(sx, sy));
      var px := AnchorPan(center.x, sx, n.x, newZoom);
      var py := AnchorPan(center.y, sy, n.y, newZoom);
      assert Cam(px, py, newZoom) == ZoomedAt(before, canvas, s, scale);
      camera.zoom := newZoom;
      camera.x, camera.y := px, py;
      assert FromScreen(camera.State(), canvas, s) == FromScreen(before, canvas, s) by {
        ZoomAnchor(before, canvas, s, scale);
      }
    }

    /** The node is in the map and a click at `s` lands on its disc. */
    ghost predicate HitAt(i: int, s: Point)
      reads this, camera
      requires Valid()
    {
      0 <= i < |nodes| && Hit(BoundingBox(), camera.State(), canvas, nodes[i], s)
    }

    /**
     * `getClickedNode`: the first node in iteration order whose disc contains
     * the click, or none when no disc does.
     */
    method GetClickedNode(s: Point) returns (r: Option<Node>)
      requires Valid()
      ensures r.None? ==> forall i :: 0 <= i < |nodes| ==> !HitAt(i, s)
      ensures r.Some? ==> exists i :: HitAt(i, s) && nodes[i] == r.value && forall j :: 0 <= j < i ==> !HitAt(j, s)
    {
      var i := 0;
      while i < |nodes|
        invariant 0 <= i <= |nodes|
        invariant forall j :: 0 <= j < i ==> !HitAt(j, s)
      {
        var centre := Normalize(BoundingBox(), camera.State(), canvas, nodes[i].position);
        var dx := s.x - centre.x;
        var dy := s.y - centre.y;
        if dx * dx + dy * dy <= ClickRadius * ClickRadius {
          assert HitAt(i, s);
          return Some(nodes[i]);
        }
        i := i + 1;
      }
      return None;
    }

    /**
     * The edge loop of `drawCanvas`: one segment per edge whose endpoints are
     * both in the map, in edge-list order; dangling edges are skipped.
     */
    method StrokedEdges() returns (segments: seq<Segment>)
      requires Valid()
      ensures segments == Stroked(nodes, BoundingBox(), camera.State(), canvas, edges)
    {
      segments := [];
      var i := 0;
      assert edges[..0] == [];
      while i < |edges|
        invariant 0 <= i <= |edges|
        invariant segments == Stroked(nodes, BoundingBox(), camera.State(), canvas, edges[..i])
      {
        var edge := edges[i];
        StrokedStep(nodes, BoundingBox(), camera.State(), canvas, edges, i);
        var fromNode := Get(nodes, edge.from);
        var toNode := Get(nodes, edge.to);
        if fromNode.None? || toNode.None? {
          i := i + 1;
          continue;
        }
        var from := Normalize(BoundingBox(), camera.State(), canvas, fromNode.value.position);
        var to := Normalize(BoundingBox(), camera.State(), canvas, toNode.value.position);
        segments := segments + [Segment(from, to)];
        i := i + 1;
      }
      assert edges[..i] == edges;
    }

    /** The node loop of `drawCanvas`: one disc per node, in iteration order. */
    method NodeDiscs() returns (discs: seq<Disc>)
      requires Valid()
      ensures |discs| == |nodes|
      ensures forall k :: 0 <= k < |nodes| ==> discs[k] == DiscOf(BoundingBox(), camera.State(), canvas, nodes[k])
    {
      discs := [];
      for i := 0 to |nodes|
        invariant |discs| == i
        invariant forall k :: 0 <= k < i ==> discs[k] == DiscOf(BoundingBox(), camera.State(), canvas, nodes[k])
      {
        var centre := Normalize(BoundingBox(), camera.State(), canvas, nodes[i].position);
        discs := discs + [Disc(centre, nodes[i].caption, Point(centre.x + CaptionDx, centre.y + CaptionDy))];
      }
    }
  }

  /** The fields of a `wheel` event that the handler reads. */
  datatype WheelEvent = WheelEvent(ctrlKey: bool, deltaX: real, deltaY: real, deltaMode: int, clientX: real, clientY: real)

  /** The message posted to the host when a node is clicked. */
  datatype Message = OpenFile(path: string)

  /** The touch gesture state: pinch flag and baseline distance, touch-pan flag and last touch point. */
  datatype TouchState = TouchState(isPinching: bool, initialDistance: real, isTouchPanning: bool, lastTouchX: real, lastTouchY: real)

  /** The mouse-drag state: panning flag and last pointer position. */
  datatype MouseState = MouseState(isPanning: bool, lastX: real, lastY: real)

  /**
   * What the wheel handler takes from `Math.exp(-deltaY * 0.02)`: a positive
   * scale, above 1 exactly when deltaY < 0 and equal to 1 exactly when deltaY == 0.
   */
  predicate PinchScale(scale: real, deltaY: real)
  {
    && scale > 0.0
    && (deltaY < 0.0 <==> scale > 1.0)
    && (deltaY == 0.0 <==> scale == 1.0)
  }

  /** `Math.hypot` of the difference of two distinct touch points. */
  predicate Hypot(d: real, a: Point, b: Point)
  {
    d > 0.0 && d * d == (a.x - b.x) * (a.x - b.x) + (a.y - b.y) * (a.y - b.y)
  }

  /** The midpoint of two touches, relative to the canvas's top-left corner `rect`. */
  function Midpoint(a: Point, b: Point, rect: Point): Point
  {
    Point((a.x + b.x) / 2.0 - rect.x, (a.y + b.y) / 2.0 - rect.y)
  }

  /** The gesture state the handlers of `bindEvents` share, and the handlers themselves. */
  class Controller {
    const app: App
    var isPinching: bool
    var initialDistance: real
    var isTouchPanning: bool
    var lastTouchX: real
    var lastTouchY: real
    var isPanning: bool
    var lastX: real
    var lastY: real

    /** A pinch in progress has a positive baseline to divide by. */
    ghost predicate Valid()
      reads this, app, app.camera
    {
      app.Valid() && (isPinching ==> initialDistance > 0.0)
    }

    function Touch(): TouchState
      reads this
    {
      TouchState(isPinching, initialDistance, isTouchPanning, lastTouchX, lastTouchY)
    }

    function Mouse(): MouseState
      reads this
    {
      MouseState(isPanning, lastX, lastY)
    }

    constructor (app: App)
      requires app.Valid()
      ensures Valid() && this.app == app
      ensures Touch() == TouchState(false, 0.0, false, 0.0, 0.0)
      ensures Mouse() == MouseState(false, 0.0, 0.0)
    {
      this.app := app;
      isPinching, initialDistance, isTouchPanning, lastTouchX, lastTouchY := false, 0.0, false, 0.0, 0.0;
      isPanning, lastX, lastY := false, 0.0, 0.0;
    }

    /**
     * `wheel`: with ctrl held (trackpad pinch) zoom at the pointer; otherwise pan
     * by minus the deltas, times 16 for line mode, the canvas height for page
     * mode, and 1 otherwise.
     */
    method Wheel(e: WheelEvent, rect: Point, scale: real)
      requires Valid()
      requires e.ctrlKey ==> PinchScale(scale, e.deltaY)
      modifies app.camera
      ensures Valid()
      ensures e.ctrlKey ==>
        app.camera.State() == ZoomedAt(old(app.camera.State()), app.canvas, Point(e.clientX - rect.x, e.clientY - rect.y), scale)
      ensures e.ctrlKey && e.deltaY == 0.0 ==> app.camera.State() == old(app.camera.State())
      ensures e.ctrlKey && e.deltaY < 0.0 ==> app.camera.zoom >= old(app.camera.zoom)
      ensures e.ctrlKey && e.deltaY > 0.0 ==> app.camera.zoom <= old(app.camera.zoom)
      ensures !e.ctrlKey ==>
        var factor := if e.deltaMode == 1 then 16.0 else if e.deltaMode == 2 then app.canvas.height as real else 1.0;
        app.camera.State() == Cam(old(app.camera.x) + (-e.deltaX) * factor, old(app.camera.y) + (-e.deltaY) * factor, old(app.camera.zoom))
    {
      if e.ctrlKey {
        var z := app.camera.zoom;
        ClampedZoomMonotone(z, scale);
        app.ZoomAt(e.clientX - rect.x, e.clientY - rect.y, scale);
        return;
      }
      var panX := -e.deltaX;
      var panY := -e.deltaY;
      var factor := if e.deltaMode == 1 then 16.0 else if e.deltaMode == 2 then app.canvas.height as real else 1.0;
      app.camera.Pan(panX * factor, panY * factor);
    }

    /**
     * `touchstart`: two touches start a pinch with their distance as baseline;
     * one touch starts a touch pan at its position. Neither clears the other flag.
     */
    method TouchStart(touches: seq<Point>, distance: real)
      requires Valid()
      requires |touches| == 2 ==> Hypot(distance, touches[0], touches[1])
      modifies this
      ensures Valid()
      ensures Touch() ==
        if |touches| == 2 then old(Touch()).(isPinching := true, initialDistance := distance)
        else if |touches| == 1 then old(Touch()).(isTouchPanning := true, lastTouchX := touches[0].x, lastTouchY := touches[0].y)
        else old(Touch())
      ensures Mouse() == old(Mouse())
    {
      if |touches| == 2 {
        isPinching := true;
        initialDistance := distance;
      } else if |touches| == 1 {
        isTouchPanning := true;
        lastTouchX := touches[0].x;
        lastTouchY := touches[0].y;
      }
    }

    /**
     * `touchmove`: during a pinch with two touches, zoom at their midpoint by the
     * ratio of the new distance to the previous one, which becomes the new
     * baseline; otherwise, during a touch pan with one touch, pan by the move
     * since the last touch point and remember the new one; otherwise nothing.
     */
    method TouchMove(touches: seq<Point>, distance: real, rect: Point)
      requires Valid()
      requires isPinching && |touches| == 2 ==> Hypot(distance, touches[0], touches[1])
      modifies this, app.camera
      ensures Valid()
      ensures Mouse() == old(Mouse())
      ensures old(isPinching) && |touches| == 2 ==>
        && Touch() == old(Touch()).(initialDistance := distance)
        && app.camera.State() == ZoomedAt(old(app.camera.State()), app.canvas,
                                          Midpoint(touches[0], touches[1], rect), distance / old(initialDistance))
      ensures !(old(isPinching) && |touches| == 2) && old(isTouchPanning) && |touches| == 1 ==>
        && Touch() == old(Touch()).(lastTouchX := touches[0].x, lastTouchY := touches[0].y)
        && app.camera.State() == Cam(old(app.camera.x) + (touches[0].x - old(lastTouchX)),
                                     old(app.camera.y) + (touches[0].y - old(lastTouchY)),
                                     old(app.camera.zoom))
      ensures !(old(isPinching) && |touches| == 2) && !(old(isTouchPanning) && |touches| == 1) ==>
        Touch() == old(Touch()) && app.camera.State() == old(app.camera.State())
    {
      if isPinching && |touches| == 2 {
        var t1 := touches[0];
        var t2 := touches[1];
        var currentDistance := distance;
        var scale := currentDistance / initialDistance;
        initialDistance := currentDistance;
        var sx := (t1.x + t2.x) / 2.0 - rect.x;
        var sy := (t1.y + t2.y) / 2.0 - rect.y;
        app.ZoomAt(sx, sy, scale);
      } else if isTouchPanning && |touches| == 1 {
        var dx := touches[0].x - lastTouchX;
        var dy := touches[0].y - lastTouchY;
        app.camera.Pan(dx, dy);
        lastTouchX := touches[0].x;
        lastTouchY := touches[0].y;
      }
    }

    /** `touchend`: once no touch remains, both touch gestures end. */
    method TouchEnd(remaining: nat)
      requires Valid()
      modifies this
      ensures Valid()
      ensures Touch() ==
        if remaining < 1 then old(Touch()).(isPinching := false, isTouchPanning := false) else old(Touch())
      ensures Mouse() == old(Mouse())
    {
      if remaining < 1 {
        isPinching := false;
        isTouchPanning := false;
      }
    }

    /** `mousedown`: start a drag at the pointer. */
    method MouseDown(clientX: real, clientY: real)
      requires Valid()
      modifies this
      ensures Valid()
      ensures Mouse() == MouseState(true, clientX, clientY)
      ensures Touch() == old(Touch())
    {
      isPanning := true;
      lastX := clientX;
      lastY := clientY;
    }

    /** `mousemove`: while dragging, pan by the move since the last position and remember the new one. */
    method MouseMove(clientX: real, clientY: real)
      requires Valid()
      modifies this, app.camera
      ensures Valid()
      ensures Touch() == old(Touch())
      ensures !old(isPanning) ==> Mouse() == old(Mouse()) && app.camera.State() == old(app.camera.State())
      ensures old(isPanning) ==>
        && Mouse() == MouseState(true, clientX, clientY)
        && app.camera.State() == Cam(old(app.camera.x) + (clientX - old(lastX)),
                                     old(app.camera.y) + (clientY - old(lastY)),
                                     old(app.camera.zoom))
    {
      if !isPanning {
        return;
      }
      var dx := clientX - lastX;
      var dy := clientY - lastY;
      app.camera.Pan(dx, dy);
      lastX := clientX;
      lastY := clientY;
    }

    /** `mouseup` and `mouseleave`: the drag ends. */
    method MouseUp()
      requires Valid()
      modifies this
      ensures Valid()
      ensures Mouse() == old(Mouse()).(isPanning := false)
      ensures Touch() == old(Touch())
    {
      isPanning := false;
    }

    /**
     * `click`: hit-test at the pointer (relative to the canvas's top-left
     * corner `rect`); a hit yields the open-file message with that node's path.
     */
    method Click(clientX: real, clientY: real, rect: Point) returns (message: Option<Message>)
      requires Valid()
      ensures var s := Point(clientX - rect.x, clientY - rect.y);
        && (message.None? ==> forall i :: 0 <= i < |app.nodes| ==> !app.HitAt(i, s))
        && (message.Some? ==> exists i :: && app.HitAt(i, s)
                                          && (forall j :: 0 <= j < i ==> !app.HitAt(j, s))
                                          && message.value == OpenFile(app.nodes[i].filePath))
    {
      var s := Point(clientX - rect.x, clientY - rect.y);
      var node := app.GetClickedNode(s);
      if node.Some? {
        return Some(OpenFile(node.value.filePath));
      }
      return None;
    }
  }
}
