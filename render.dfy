/*
 * What a redraw emits and what a click selects: the edges whose endpoints are
 * both in the node map (dangling ones are skipped), one disc per node with its
 * label to the right, and the 10px click radius of the hit-test.
 */
module Render {
  import opened Graph
  import opened Pipeline

  /** Radius of a node disc, and of the click target around it. */
  const ClickRadius: real := 10.0
  /** Where a node's label is drawn, relative to the disc centre. */
  const CaptionDx: real := 12.0
  const CaptionDy: real := 4.0

  /** A stroked edge, from screen point to screen point. */
  datatype Segment = Segment(from: Point, to: Point)

  /** A filled node disc and its label. */
  datatype Disc = Disc(centre: Point, caption: string, captionAt: Point)

  /** The click test `dx * dx + dy * dy <= clickRadius * clickRadius`. */
  predicate WithinClick(centre: Point, s: Point)
  {
    var dx := s.x - centre.x;
    var dy := s.y - centre.y;
    dx * dx + dy * dy <= ClickRadius * ClickRadius
  }

  /** A click at screen point `s` selects node `n` (where `n` is drawn). */
  predicate Hit(b: Box, cam: Cam, c: Canvas, n: Node, s: Point)
    requires b.Finite()
  {
    WithinClick(Normalize(b, cam, c, n.position), s)
  }

  /** Along one axis, a click selects a disc exactly when it is at most 10px from its centre. */
  lemma ClickRadiusExact(centre: Point, d: real)
    ensures WithinClick(centre, Point(centre.x + d, centre.y)) <==> -ClickRadius <= d <= ClickRadius
  {
    var p := Point(centre.x + d, centre.y);
    assert p.x - centre.x == d && p.y - centre.y == 0.0;
    if d > ClickRadius {
      assert d * d > ClickRadius * ClickRadius by {
        assert d * d - ClickRadius * ClickRadius == (d - ClickRadius) * (d + ClickRadius);
      }
    } else if d < -ClickRadius {
      assert d * d > ClickRadius * ClickRadius by {
        assert d * d - ClickRadius * ClickRadius == (-d - ClickRadius) * (-d + ClickRadius);
      }
    } else {
      if d >= 0.0 { MulNonneg(d, ClickRadius - d); } else { MulNonneg(-d, ClickRadius + d); }
    }
  }

  /** Both endpoints of `e` are in the node map. */
  predicate Present(nodes: seq<Node>, e: Edge)
  {
    e.from in Ids(nodes) && e.to in Ids(nodes)
  }

  /** The edges the edge loop of `drawCanvas` strokes, in list order. */
  function DrawnEdges(nodes: seq<Node>, edges: seq<Edge>): (r: seq<Edge>)
    ensures forall e :: e in r <==> e in edges && Present(nodes, e)
    ensures |r| <= |edges|
    ensures nodes == [] ==> r == []
    ensures (forall i :: 0 <= i < |edges| ==> Present(nodes, edges[i])) ==> r == edges
  {
    if edges == [] then []
    else
      var init := edges[..|edges| - 1];
      var e := edges[|edges| - 1];
      assert edges == init + [e];
      DrawnEdges(nodes, init) + (if Present(nodes, e) then [e] else [])
  }

  /** The line stroked for a drawn edge: between the screen positions of its endpoints. */
  function SegmentOf(nodes: seq<Node>, b: Box, cam: Cam, c: Canvas, e: Edge): Segment
    requires b.Finite() && Present(nodes, e)
  {
    Segment(Normalize(b, cam, c, Get(nodes, e.from).value.position),
            Normalize(b, cam, c, Get(nodes, e.to).value.position))
  }

  /**
   * The edge loop of `drawCanvas` as a whole: the segments it strokes, one per
   * drawn edge and in the same order. A map with nodes comes with a finite box.
   */
  function Stroked(nodes: seq<Node>, b: Box, cam: Cam, c: Canvas, edges: seq<Edge>): (r: seq<Segment>)
    requires nodes != [] ==> b.Finite()
    ensures |r| == |DrawnEdges(nodes, edges)|
    ensures forall k :: 0 <= k < |r| ==> r[k] == SegmentOf(nodes, b, cam, c, DrawnEdges(nodes, edges)[k])
  {
    if edges == [] then []
    else
      var init := edges[..|edges| - 1];
      var e := edges[|edges| - 1];
      assert edges == init + [e];
      Stroked(nodes, b, cam, c, init) + (if Present(nodes, e) then [SegmentOf(nodes, b, cam, c, e)] else [])
  }

  /** One more edge in the list: its segment follows the others exactly when it is not dangling. */
  lemma StrokedStep(nodes: seq<Node>, b: Box, cam: Cam, c: Canvas, edges: seq<Edge>, i: nat)
    requires nodes != [] ==> b.Finite()
    requires i < |edges|
    ensures Stroked(nodes, b, cam, c, edges[..i + 1])
            == Stroked(nodes, b, cam, c, edges[..i])
               + (if Present(nodes, edges[i]) then [SegmentOf(nodes, b, cam, c, edges[i])] else [])
  {
    assert edges[..i + 1][..i] == edges[..i];
  }

  /** The disc drawn for a node: at its screen position, label 12px right and 4px down. */
  function DiscOf(b: Box, cam: Cam, c: Canvas, n: Node): Disc
    requires b.Finite()
  {
    var centre := Normalize(b, cam, c, n.position);
    Disc(centre, n.caption, Point(centre.x + CaptionDx, centre.y + CaptionDy))
  }

  /**
   * With the initial camera, every node in the map after ingesting `s` is drawn
   * inside the 20px margin of a canvas at least 40px each way.
   */
  lemma InitialViewInsideMargin(s: seq<Node>, c: Canvas, n: Node)
    requires n in Ingest(s)
    requires c.width as real >= 2.0 * Margin && c.height as real >= 2.0 * Margin
    ensures Bounds(s).Finite()
    ensures Margin <= DiscOf(Bounds(s), Cam(0.0, 0.0, 1.0), c, n).centre.x <= c.width as real - Margin
    ensures Margin <= DiscOf(Bounds(s), Cam(0.0, 0.0, 1.0), c, n).centre.y <= c.height as real - Margin
  {
    IngestedInsideBox(s);
    ToCanvasInsideMargin(Bounds(s), c, n.position);
    InitialCameraIsIdentity(c, ToCanvas(Bounds(s), c, n.position));
  }

  /**
   * Two nodes a at (0, 0) and b at (10, 10) joined by one edge: the map keeps
   * both in parsed order, the box spans (0, 0) to (10, 10), and the edge is drawn.
   */
  lemma TwoNodeGraph()
    ensures var a := Node(1, "a", Point(0.0, 0.0), "/a");
            var b := Node(2, "b", Point(10.0, 10.0), "/b");
            && Ingest([a, b]) == [a, b]
            && Bounds([a, b]) == Box(Fin(0.0), Fin(0.0), Fin(10.0), Fin(10.0))
            && Get([a, b], 1) == Some(a) && Get([a, b], 2) == Some(b)
            && DrawnEdges([a, b], [Edge(1, 2)]) == [Edge(1, 2)]
  {
    var a := Node(1, "a", Point(0.0, 0.0), "/a");
    var b := Node(2, "b", Point(10.0, 10.0), "/b");
    IngestDistinct([a, b]);
    assert [a, b][..1] == [a];
    assert [a][..0] == [];
    assert Bounds([a]) == Box(Fin(0.0), Fin(0.0), Fin(0.0), Fin(0.0));
    assert IndexOf([a, b], 2) == Some(1) by {
      assert [a, b][1..] == [b];
    }
  }

  /**
   * The same scene on a canvas at least 60px each way with the initial camera:
   * the edge runs from corner to corner of the margin, and a click on b's disc
   * selects b and not a.
   */
  lemma TwoNodeScene(c: Canvas)
    requires c.width >= 60 && c.height >= 60
    ensures var a := Node(1, "a", Point(0.0, 0.0), "/a");
            var b := Node(2, "b", Point(10.0, 10.0), "/b");
            var box := Box(Fin(0.0), Fin(0.0), Fin(10.0), Fin(10.0));
            var cam := Cam(0.0, 0.0, 1.0);
            var corner := Point(c.width as real - Margin, c.height as real - Margin);
            && Present([a, b], Edge(1, 2))
            && SegmentOf([a, b], box, cam, c, Edge(1, 2)) == Segment(Point(Margin, Margin), corner)
            && Hit(box, cam, c, b, corner)
            && !Hit(box, cam, c, a, corner)
  {
    TwoNodeGraph();
    var corner := Point(c.width as real - Margin, c.height as real - Margin);
    var dx := corner.x - Margin;
    assert dx * dx >= 20.0 * 20.0 by {
      assert dx >= 20.0;
      assert dx * dx - 20.0 * 20.0 == (dx - 20.0) * (dx + 20.0);
    }
    var dy := corner.y - Margin;
    assert dy * dy >= 0.0;
  }
}
