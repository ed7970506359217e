/*
 * The graph snapshot of the viewport: nodes kept in a JavaScript `Map` keyed by
 * id (insertion order matters for drawing and hit-testing), the edge list, and
 * the data-space bounding box recomputed on every ingestion.
 */
module Graph {

  datatype Option<T> = None | Some(value: T)

  /** A position in data, canvas or screen space. */
  datatype Point = Point(x: real, y: real)

  /** `label` is a Dafny keyword, so the node's label is called `caption` here. */
  datatype Node = Node(id: int, caption: string, position: Point, filePath: string)

  /** An edge refers to its endpoints by id; an id may be missing from the map. */
  datatype Edge = Edge(from: int, to: int)

  /* ---------- The node map: a JavaScript Map<number, Node> ---------- */

  /** The keys of a map held as a sequence of entries. */
  function Ids(m: seq<Node>): (r: set<int>)
    ensures m == [] ==> r == {}
  {
    set i | 0 <= i < |m| :: m[i].id
  }

  ghost predicate UniqueIds(m: seq<Node>)
  {
    forall i, j :: 0 <= i < j < |m| ==> m[i].id != m[j].id
  }

  /** The slot that holds key `id`: the first entry with that id. */
  function IndexOf(m: seq<Node>, id: int): (r: Option<nat>)
    ensures r.Some? ==> r.value < |m| && m[r.value].id == id
    ensures r.Some? ==> forall k :: 0 <= k < r.value ==> m[k].id != id
    ensures r.None? <==> id !in Ids(m)
  {
    if m == [] then None
    else if m[0].id == id then Some(0)
    else
      match IndexOf(m[1..], id)
      case None =>
        assert forall k :: 0 < k < |m| ==> m[k] == m[1..][k - 1];
        None
      case Some(k) => Some(k + 1)
  }

  /** `Map.prototype.get`: the node stored under `id`, if any. */
  function Get(m: seq<Node>, id: int): (r: Option<Node>)
    ensures r.Some? <==> id in Ids(m)
    ensures r.Some? ==> r.value in m && r.value.id == id
  {
    match IndexOf(m, id)
    case None => None
    case Some(i) => Some(m[i])
  }

  /** Two maps whose entries carry the same ids slot by slot find every key in the same slot. */
  lemma {:induction false} IndexOfSameIds(m: seq<Node>, m': seq<Node>, id: int)
    requires |m| == |m'|
    requires forall k :: 0 <= k < |m| ==> m[k].id == m'[k].id
    ensures IndexOf(m, id) == IndexOf(m', id)
  {
    if m != [] && m[0].id != id {
      IndexOfSameIds(m[1..], m'[1..], id);
    }
  }

  /**
   * `Map.prototype.set`: a key already present keeps its slot and gets the new
   * value; a new key is appended at the end of the iteration order.
   */
  function Put(m: seq<Node>, n: Node): (r: seq<Node>)
    ensures |r| == if n.id in Ids(m) then |m| else |m| + 1
    ensures Ids(r) == Ids(m) + {n.id}
  {
    match IndexOf(m, n.id)
    case None =>
      var r := m + [n];
      assert Ids(r) == Ids(m) + {n.id} by {
        assert forall i :: 0 <= i < |m| ==> r[i] == m[i];
        assert r[|m|] == n;
      }
      r
    case Some(i) =>
      var r := m[i := n];
      assert Ids(r) == Ids(m) by {
        assert forall k :: 0 <= k < |m| ==> r[k].id == m[k].id;
      }
      r
  }

  /**
   * What `Map.set` promises: afterwards `get` finds the new node under its id
   * and the old answer under every other id; an existing key stays in its slot,
   * a new one goes last; no other entry appears, and keys stay unique.
   */
  lemma PutSpec(m: seq<Node>, n: Node)
    ensures Get(Put(m, n), n.id) == Some(n)
    ensures forall id :: id != n.id ==> Get(Put(m, n), id) == Get(m, id)
    ensures n.id in Ids(m) ==> forall k :: 0 <= k < |m| ==> Put(m, n)[k].id == m[k].id
    ensures n.id !in Ids(m) ==> Put(m, n) == m + [n]
    ensures forall x :: x in Put(m, n) ==> x in m || x == n
    ensures UniqueIds(m) ==> UniqueIds(Put(m, n))
  {
    var r := Put(m, n);
    match IndexOf(m, n.id)
    case None =>
      IndexOfAppend(m, n);
    case Some(i) =>
      forall id ensures IndexOf(r, id) == IndexOf(m, id) {
        IndexOfSameIds(r, m, id);
      }
  }

  /** Appending a fresh key leaves every other key in its slot and finds the new one at the end. */
  lemma {:induction false} IndexOfAppend(m: seq<Node>, n: Node)
    requires n.id !in Ids(m)
    ensures IndexOf(m + [n], n.id) == Some(|m|)
    ensures forall id :: id != n.id ==> IndexOf(m + [n], id) == IndexOf(m, id)
  {
    if m != [] {
      assert (m + [n])[1..] == m[1..] + [n];
      assert Ids(m[1..]) <= Ids(m) by {
        forall id | id in Ids(m[1..]) ensures id in Ids(m) {
          var k :| 0 <= k < |m[1..]| && m[1..][k].id == id;
          assert m[k + 1].id == id;
        }
      }
      IndexOfAppend(m[1..], n);
    }
  }

  /**
   * The node map after ingesting `s` into an empty map: the loop of
   * `updateGraphData`, one `Map.set` per parsed node in order.
   */
  function Ingest(s: seq<Node>): (r: seq<Node>)
    ensures Ids(r) == Ids(s)
    ensures s == [] <==> r == []
  {
    if s == [] then []
    else
      var prev := Ingest(s[..|s| - 1]);
      assert s == s[..|s| - 1] + [s[|s| - 1]];
      assert Ids(s) == Ids(s[..|s| - 1]) + {s[|s| - 1].id} by {
        assert forall i :: 0 <= i < |s| - 1 ==> s[..|s| - 1][i] == s[i];
      }
      Put(prev, s[|s| - 1])
  }

  /** The map after ingestion has unique keys and holds only parsed nodes. */
  lemma {:induction false} IngestSpec(s: seq<Node>)
    ensures UniqueIds(Ingest(s))
    ensures forall x :: x in Ingest(s) ==> x in s
  {
    if s != [] {
      var s' := s[..|s| - 1];
      IngestSpec(s');
      PutSpec(Ingest(s'), s[|s| - 1]);
    }
  }

  /** One more parsed node: one more `Map.set` and one more min/max update. */
  lemma IngestStep(s: seq<Node>, i: nat)
    requires i < |s|
    ensures Ingest(s[..i + 1]) == Put(Ingest(s[..i]), s[i])
    ensures Bounds(s[..i + 1]) == Extend(Bounds(s[..i]), s[i].position)
  {
    assert s[..i + 1][..i] == s[..i];
  }

  /** A duplicated id resolves to the LAST parsed node that carries it. */
  lemma {:induction false} IngestLastWins(s: seq<Node>, j: nat)
    requires j < |s|
    requires forall k :: j < k < |s| ==> s[k].id != s[j].id
    ensures Get(Ingest(s), s[j].id) == Some(s[j])
  {
    var s' := s[..|s| - 1];
    PutSpec(Ingest(s'), s[|s| - 1]);
    if j < |s| - 1 {
      assert s'[j] == s[j];
      IngestLastWins(s', j);
    }
  }

  /** With distinct ids the map iterates the parsed nodes in their parsed order. */
  lemma {:induction false} IngestDistinct(s: seq<Node>)
    requires UniqueIds(s)
    ensures Ingest(s) == s
  {
    if s != [] {
      var s' := s[..|s| - 1];
      var n := s[|s| - 1];
      assert UniqueIds(s') by {
        forall i, j | 0 <= i < j < |s'| ensures s'[i].id != s'[j].id {
          assert s'[i] == s[i] && s'[j] == s[j];
        }
      }
      IngestDistinct(s');
      assert n.id !in Ids(s') by {
        forall k | 0 <= k < |s'| ensures s'[k].id != n.id {
          assert s'[k] == s[k];
        }
      }
      PutSpec(s', n);
      assert s' + [n] == s;
    }
  }

  /* ---------- The bounding box, starting from ±Infinity ---------- */

  /** A coordinate bound: finite, or one of the IEEE infinities the box starts from. */
  datatype Ext = NegInf | Fin(v: real) | PosInf

  /** `x < b` with b possibly infinite. */
  predicate Below(x: real, b: Ext)
  {
    match b
    case NegInf => false
    case Fin(v) => x < v
    case PosInf => true
  }

  /** `x > b` with b possibly infinite. */
  predicate Above(x: real, b: Ext)
  {
    match b
    case NegInf => true
    case Fin(v) => x > v
    case PosInf => false
  }

  /** `minPosition` and `maxPosition`, coordinate by coordinate. */
  datatype Box = Box(minX: Ext, minY: Ext, maxX: Ext, maxY: Ext)
  {
    predicate Finite()
    {
      minX.Fin? && minY.Fin? && maxX.Fin? && maxY.Fin?
    }

    predicate Contains(p: Point)
      requires Finite()
    {
      minX.v <= p.x <= maxX.v && minY.v <= p.y <= maxY.v
    }
  }

  /** The box the ingestion starts from: minimum +Infinity, maximum -Infinity. */
  const Unbounded: Box := Box(PosInf, PosInf, NegInf, NegInf)

  /** One iteration of the min/max updates in the ingestion loop. */
  function Extend(b: Box, p: Point): Box
  {
    Box(if Below(p.x, b.minX) then Fin(p.x) else b.minX,
        if Below(p.y, b.minY) then Fin(p.y) else b.minY,
        if Above(p.x, b.maxX) then Fin(p.x) else b.maxX,
        if Above(p.y, b.maxY) then Fin(p.y) else b.maxY)
  }

  /**
   * The bounding box after ingesting `s`, from every parsed node (including
   * the ones whose id a later node overwrites in the map).
   */
  function Bounds(s: seq<Node>): (b: Box)
    ensures s == [] ==> b == Unbounded
    ensures s != [] ==> b.Finite()
    ensures s != [] ==> forall i :: 0 <= i < |s| ==> b.Contains(s[i].position)
  {
    if s == [] then Unbounded
    else
      var prev := Bounds(s[..|s| - 1]);
      assert forall i :: 0 <= i < |s| - 1 ==> s[..|s| - 1][i] == s[i];
      Extend(prev, s[|s| - 1].position)
  }

  /** The bounds are tight: each of the four is the coordinate of some parsed node. */
  lemma {:induction false} BoundsAttained(s: seq<Node>)
    requires s != []
    ensures exists i :: 0 <= i < |s| && s[i].position.x == Bounds(s).minX.v
    ensures exists i :: 0 <= i < |s| && s[i].position.y == Bounds(s).minY.v
    ensures exists i :: 0 <= i < |s| && s[i].position.x == Bounds(s).maxX.v
    ensures exists i :: 0 <= i < |s| && s[i].position.y == Bounds(s).maxY.v
  {
    var last := |s| - 1;
    var s' := s[..last];
    var b := Bounds(s);
    if s' == [] {
      assert s[0].position.x == b.minX.v && s[0].position.x == b.maxX.v;
      assert s[0].position.y == b.minY.v && s[0].position.y == b.maxY.v;
    } else {
      BoundsAttained(s');
      var b' := Bounds(s');
      var i1 :| 0 <= i1 < |s'| && s'[i1].position.x == b'.minX.v;
      var i2 :| 0 <= i2 < |s'| && s'[i2].position.y == b'.minY.v;
      var i3 :| 0 <= i3 < |s'| && s'[i3].position.x == b'.maxX.v;
      var i4 :| 0 <= i4 < |s'| && s'[i4].position.y == b'.maxY.v;
      assert s[last].position.x == b.minX.v || s[i1].position.x == b.minX.v;
      assert s[last].position.y == b.minY.v || s[i2].position.y == b.minY.v;
      assert s[last].position.x == b.maxX.v || s[i3].position.x == b.maxX.v;
      assert s[last].position.y == b.maxY.v || s[i4].position.y == b.maxY.v;
    }
  }

  /** Every node left in the map after ingestion lies inside the box. */
  lemma IngestedInsideBox(s: seq<Node>)
    ensures Ingest(s) != [] ==> Bounds(s).Finite()
    ensures forall n :: n in Ingest(s) ==> Bounds(s).Finite() && Bounds(s).Contains(n.position)
  {
    IngestSpec(s);
    forall n | n in Ingest(s) ensures Bounds(s).Finite() && Bounds(s).Contains(n.position) {
      var i :| 0 <= i < |s| && s[i] == n;
    }
  }
}
