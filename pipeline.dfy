/*
 * The coordinate pipeline of the viewport: data space to canvas space (the
 * bounding box stretched into the canvas with a 20px margin), canvas space to
 * screen space (zoom about the canvas centre, then the pan offset), the inverse
 * of the camera stage, and the anchor-preserving clamped zoom.
 */
module Pipeline {
  import opened Graph

  const MinZoom: real := 0.1
  const MaxZoom: real := 10.0
  /** The fixed margin between the bounding box and the canvas edges. */
  const Margin: real := 20.0

  /** The canvas bitmap's size in pixels. */
  datatype Canvas = Canvas(width: nat, height: nat)
  {
    function Center(): Point
    {
      Point(width as real / 2.0, height as real / 2.0)
    }
  }

  /** A snapshot of the camera: pan offset and zoom factor. */
  datatype Cam = Cam(x: real, y: real, zoom: real)

  predicate InZoomRange(z: real)
  {
    MinZoom <= z <= MaxZoom
  }

  /** `max - min || 1`: a zero span falls back to 1, so the division is always defined. */
  function Span(lo: real, hi: real): (r: real)
    ensures r != 0.0
    ensures hi - lo == 0.0 ==> r == 1.0
    ensures lo < hi ==> r == hi - lo
  {
    if hi - lo == 0.0 then 1.0 else hi - lo
  }

  /** One axis of `toNormalizedCanvas`: [lo, hi] stretched over [Margin, size - Margin]. */
  function Stretch(v: real, lo: real, hi: real, size: real): real
  {
    (v - lo) / Span(lo, hi) * (size - 2.0 * Margin) + Margin
  }

  /** `toNormalizedCanvas`: a data-space position stretched over the canvas inside the margin. */
  function ToCanvas(b: Box, c: Canvas, p: Point): Point
    requires b.Finite()
  {
    Point(Stretch(p.x, b.minX.v, b.maxX.v, c.width as real),
          Stretch(p.y, b.minY.v, b.maxY.v, c.height as real))
  }

  /** One axis of the camera stage: scale about the centre `ctr`, then shift by `pan`. */
  function ZoomAxis(ctr: real, v: real, zoom: real, pan: real): real
  {
    ctr + (v - ctr) * zoom + pan
  }

  /** One axis of `screenToNormalizedCanvas`: undo the shift, then the scaling about `ctr`. */
  function UnzoomAxis(ctr: real, s: real, zoom: real, pan: real): real
    requires zoom != 0.0
  {
    ctr + (s - ctr - pan) / zoom
  }

  /** One axis of the offset `zoomAt` sets: the one that draws canvas coordinate `n` at screen coordinate `s`. */
  function AnchorPan(ctr: real, s: real, n: real, zoom: real): real
  {
    s - ctr - (n - ctr) * zoom
  }

  /** The camera stage of `normalizePosition`: zoom about the canvas centre, then pan. */
  function ToScreen(cam: Cam, c: Canvas, n: Point): Point
  {
    var ctr := c.Center();
    Point(ZoomAxis(ctr.x, n.x, cam.zoom, cam.x), ZoomAxis(ctr.y, n.y, cam.zoom, cam.y))
  }

  /** `normalizePosition`: where a data-space position is drawn on the screen. */
  function Normalize(b: Box, cam: Cam, c: Canvas, p: Point): Point
    requires b.Finite()
  {
    ToScreen(cam, c, ToCanvas(b, c, p))
  }

  /** `screenToNormalizedCanvas`: the canvas-space point shown at screen point `s`. */
  function FromScreen(cam: Cam, c: Canvas, s: Point): Point
    requires cam.zoom != 0.0
  {
    var ctr := c.Center();
    Point(UnzoomAxis(ctr.x, s.x, cam.zoom, cam.x), UnzoomAxis(ctr.y, s.y, cam.zoom, cam.y))
  }

  /** `clamp(v, min, max)`, written `Math.max(min, Math.min(max, v))`. */
  function Clamp(v: real, lo: real, hi: real): (r: real)
    requires lo <= hi
    ensures lo <= r <= hi
    ensures lo <= v <= hi ==> r == v
    ensures v < lo ==> r == lo
    ensures hi < v ==> r == hi
  {
    var m := if hi < v then hi else v;
    if lo < m then m else lo
  }

  /**
   * `zoomAt`: the camera after zooming by `scale` at screen point `s`. The zoom
   * is clamped into [MinZoom, MaxZoom]; when the clamped zoom equals the old
   * one nothing changes, otherwise the pan offset is recomputed so that the
   * canvas point under `s` stays under `s`.
   */
  function ZoomedAt(cam: Cam, c: Canvas, s: Point, scale: real): (r: Cam)
    requires cam.zoom != 0.0
    ensures r.zoom == Clamp(cam.zoom * scale, MinZoom, MaxZoom)
    ensures InZoomRange(r.zoom)
  {
    var newZoom := Clamp(cam.zoom * scale, MinZoom, MaxZoom);
    var actualScale := newZoom / cam.zoom;
    RatioIsOne(newZoom, cam.zoom);
    if actualScale == 1.0 then
      cam
    else
      var ctr := c.Center();
      var n := FromScreen(cam, c, s);
      Cam(AnchorPan(ctr.x, s.x, n.x, newZoom), AnchorPan(ctr.y, s.y, n.y, newZoom), newZoom)
  }

  /* ---------- Properties ---------- */

  /** `actualScale === 1` in `zoomAt` holds exactly when the clamped zoom equals the old one. */
  lemma RatioIsOne(a: real, b: real)
    requires b != 0.0
    ensures a / b == 1.0 <==> a == b
  {
    if a / b == 1.0 {
      assert a == (a / b) * b;
    }
  }

  lemma MulNonneg(a: real, b: real)
    requires 0.0 <= a && 0.0 <= b
    ensures 0.0 <= a * b
  {
  }

  /** A nonnegative fraction of a nonnegative length lies between 0 and that length. */
  lemma FractionOfLength(t: real, len: real)
    requires 0.0 <= t <= 1.0 && 0.0 <= len
    ensures 0.0 <= t * len <= len
  {
    assert len - t * len == (1.0 - t) * len;
  }

  /** A part of a positive whole, divided by it, is a fraction between 0 and 1. */
  lemma DivInUnit(a: real, d: real)
    requires 0.0 <= a <= d && 0.0 < d
    ensures 0.0 <= a / d <= 1.0
  {
    var t := a / d;
    assert t * d == a;
    if t > 1.0 {
      MulNonneg(t - 1.0, d);
      assert false;
    }
    if t < 0.0 {
      MulNonneg(-t, d);
      assert false;
    }
  }

  /** On one axis: a coordinate inside [lo, hi] lands inside [Margin, size - Margin]. */
  lemma AxisInsideMargin(v: real, lo: real, hi: real, size: real)
    requires lo <= v <= hi
    requires size >= 2.0 * Margin
    ensures Margin <= Stretch(v, lo, hi, size) <= size - Margin
  {
    var t := (v - lo) / Span(lo, hi);
    if hi - lo == 0.0 {
      assert v - lo == 0.0;
      assert t == 0.0;
    } else {
      DivInUnit(v - lo, hi - lo);
    }
    FractionOfLength(t, size - 2.0 * Margin);
  }

  /**
   * Every position inside the bounding box maps into
   * [20, width - 20] x [20, height - 20] once the canvas is at least 40px each way.
   */
  lemma ToCanvasInsideMargin(b: Box, c: Canvas, p: Point)
    requires b.Finite() && b.Contains(p)
    requires c.width as real >= 2.0 * Margin && c.height as real >= 2.0 * Margin
    ensures Margin <= ToCanvas(b, c, p).x <= c.width as real - Margin
    ensures Margin <= ToCanvas(b, c, p).y <= c.height as real - Margin
  {
    AxisInsideMargin(p.x, b.minX.v, b.maxX.v, c.width as real);
    AxisInsideMargin(p.y, b.minY.v, b.maxY.v, c.height as real);
  }

  /** The box corners map to the margin corners: the minimum to 20, a nonzero-span maximum to size - 20. */
  lemma ToCanvasCorners(b: Box, c: Canvas)
    requires b.Finite()
    ensures ToCanvas(b, c, Point(b.minX.v, b.minY.v)) == Point(Margin, Margin)
    ensures b.minX.v < b.maxX.v ==> ToCanvas(b, c, Point(b.maxX.v, b.minY.v)).x == c.width as real - Margin
    ensures b.minY.v < b.maxY.v ==> ToCanvas(b, c, Point(b.minX.v, b.maxY.v)).y == c.height as real - Margin
  {
  }

  /** A degenerate axis (zero span) maps every coordinate on it to the margin instead of dividing by zero. */
  lemma DegenerateAxisAtMargin(b: Box, c: Canvas, p: Point)
    requires b.Finite() && b.Contains(p)
    ensures b.minX.v == b.maxX.v ==> ToCanvas(b, c, p).x == Margin
    ensures b.minY.v == b.maxY.v ==> ToCanvas(b, c, p).y == Margin
  {
    if b.minX.v == b.maxX.v {
      assert p.x - b.minX.v == 0.0;
    }
    if b.minY.v == b.maxY.v {
      assert p.y - b.minY.v == 0.0;
    }
  }

  /** On one axis, the camera stage and its inverse undo each other. */
  lemma AxisInverse(ctr: real, zoom: real, pan: real, s: real, v: real)
    requires zoom != 0.0
    ensures ZoomAxis(ctr, UnzoomAxis(ctr, s, zoom, pan), zoom, pan) == s
    ensures UnzoomAxis(ctr, ZoomAxis(ctr, v, zoom, pan), zoom, pan) == v
  {
    assert (s - ctr - pan) / zoom * zoom == s - ctr - pan;
    assert (v - ctr) * zoom / zoom == v - ctr;
  }

  /** `screenToNormalizedCanvas` undoes the camera stage: mapping its result back gives `s`. */
  lemma ScreenRoundTrip(cam: Cam, c: Canvas, s: Point)
    requires cam.zoom != 0.0
    ensures ToScreen(cam, c, FromScreen(cam, c, s)) == s
  {
    var ctr := c.Center();
    AxisInverse(ctr.x, cam.zoom, cam.x, s.x, 0.0);
    AxisInverse(ctr.y, cam.zoom, cam.y, s.y, 0.0);
  }

  /** And the other way round: the camera stage is undone by `screenToNormalizedCanvas`. */
  lemma CanvasRoundTrip(cam: Cam, c: Canvas, n: Point)
    requires cam.zoom != 0.0
    ensures FromScreen(cam, c, ToScreen(cam, c, n)) == n
  {
    var ctr := c.Center();
    AxisInverse(ctr.x, cam.zoom, cam.x, 0.0, n.x);
    AxisInverse(ctr.y, cam.zoom, cam.y, 0.0, n.y);
  }

  /** `zoomAt` changes nothing exactly when the clamped zoom equals the old zoom. */
  lemma ZoomNoOp(cam: Cam, c: Canvas, s: Point, scale: real)
    requires cam.zoom != 0.0
    ensures ZoomedAt(cam, c, s, scale) == cam <==> Clamp(cam.zoom * scale, MinZoom, MaxZoom) == cam.zoom
  {
    var newZoom := Clamp(cam.zoom * scale, MinZoom, MaxZoom);
    if newZoom == cam.zoom {
      assert newZoom / cam.zoom == 1.0;
    }
  }

  /**
   * The anchor invariant of `zoomAt`: the canvas point under `s` is the same
   * before and after, and it is still drawn at `s`.
   */
  lemma ZoomAnchor(cam: Cam, c: Canvas, s: Point, scale: real)
    requires cam.zoom != 0.0
    ensures FromScreen(ZoomedAt(cam, c, s, scale), c, s) == FromScreen(cam, c, s)
    ensures ToScreen(ZoomedAt(cam, c, s, scale), c, FromScreen(cam, c, s)) == s
  {
    var r := ZoomedAt(cam, c, s, scale);
    var n := FromScreen(cam, c, s);
    var ctr := c.Center();
    if r != cam {
      AxisAnchor(ctr.x, s.x, n.x, r.zoom);
      AxisAnchor(ctr.y, s.y, n.y, r.zoom);
    } else {
      ScreenRoundTrip(cam, c, s);
    }
  }

  /** On one axis, the offset `zoomAt` sets draws `n` at `s`, and `s` maps back to `n`. */
  lemma AxisAnchor(ctr: real, s: real, n: real, zoom: real)
    requires zoom != 0.0
    ensures ZoomAxis(ctr, n, zoom, AnchorPan(ctr, s, n, zoom)) == s
    ensures UnzoomAxis(ctr, s, zoom, AnchorPan(ctr, s, n, zoom)) == n
  {
    assert s - ctr - AnchorPan(ctr, s, n, zoom) == (n - ctr) * zoom;
    assert (n - ctr) * zoom / zoom == n - ctr;
  }

  /** From a zoom in range, a scale above 1 never zooms out and a scale below 1 never zooms in. */
  lemma ClampedZoomMonotone(z: real, scale: real)
    requires InZoomRange(z) && scale > 0.0
    ensures scale >= 1.0 ==> Clamp(z * scale, MinZoom, MaxZoom) >= z
    ensures scale <= 1.0 ==> Clamp(z * scale, MinZoom, MaxZoom) <= z
  {
    if scale >= 1.0 {
      MulNonneg(z, scale - 1.0);
    } else {
      MulNonneg(z, 1.0 - scale);
    }
  }

  /** Zooming at the canvas centre from pan offset (0, 0) keeps the offset at (0, 0). */
  lemma ZoomAtCenterKeepsOrigin(cam: Cam, c: Canvas, scale: real)
    requires cam.zoom != 0.0 && cam.x == 0.0 && cam.y == 0.0
    ensures ZoomedAt(cam, c, c.Center(), scale).x == 0.0
    ensures ZoomedAt(cam, c, c.Center(), scale).y == 0.0
  {
    var ctr := c.Center();
    assert FromScreen(cam, c, ctr) == ctr;
  }

  /** At zoom 1 and offset (0, 0), a zoom by 2 at the centre gives zoom 2 at offset (0, 0). */
  lemma ZoomByTwoAtCenter(c: Canvas)
    ensures ZoomedAt(Cam(0.0, 0.0, 1.0), c, c.Center(), 2.0) == Cam(0.0, 0.0, 2.0)
  {
    ZoomAtCenterKeepsOrigin(Cam(0.0, 0.0, 1.0), c, 2.0);
  }

  /** With the initial camera (offset (0, 0), zoom 1) the screen position is the canvas position. */
  lemma InitialCameraIsIdentity(c: Canvas, n: Point)
    ensures ToScreen(Cam(0.0, 0.0, 1.0), c, n) == n
  {
  }
}
