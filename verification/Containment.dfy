/**
 What the scans and the boundary models say of points and polylines: whether the
 polygons and polylines of the other region contain them.
 */
module Containment {
  import opened Common
  import opened Shapes
  import opened EdgeScan
  import opened BoundaryRules
  import opened Processor

  // ----- polygons -----

  // Open polygons do not contain their vertices, closed ones contain them; the
  // semi-open answer is given.
  predicate VertexInPolygons(m: PolygonModel, contained: bool, isVertex: bool)
  {
    match m
    case PolygonOpen => contained && !isVertex
    case PolygonSemiOpen => contained
    case PolygonClosed => contained || isVertex
  }

  // A vertex of a polyline is inside the polygons and polylines of B, or inside
  // their complement; polylines do not count in a union.
  lemma VertexFollowsModel(m: Model, isUnion: bool, invertB: bool, inside: bool, onLine: bool, onPolygon: bool)
    ensures IsPolylineVertexInside(m, isUnion, invertB, inside, onLine, onPolygon)
            == (((onLine && !isUnion) || VertexInPolygons(m.polygon, inside != invertB, onPolygon)) != invertB)
  {
  }

  // A polyline edge likewise; a degenerate one is a vertex.
  lemma EdgeFollowsModel(m: Model, isUnion: bool, invertB: bool, inside: bool, r: EdgeCrossings, isDegenerate: bool)
    ensures var inLines := r.matchesPolyline || (isDegenerate && r.a0MatchesPolyline);
            var inPolygons :=
              if isDegenerate then VertexInPolygons(m.polygon, inside != invertB, r.a0MatchesPolygon)
              else EdgeInPolygons(m.polygon, inside != invertB, r.polygonMatch.Some?, r.siblingMatch.Some?);
            IsPolylineEdgeInside(m, isUnion, invertB, inside, r, isDegenerate) == (((inLines && !isUnion) || inPolygons) != invertB)
  {
  }

  // A point is inside the points, polylines and polygons of B, or inside their
  // complement; points do not count in a union.
  lemma PointFollowsModel(m: Model, isUnion: bool, invertB: bool, inside: bool, r: PointScan)
    ensures IsPointInside(m, isUnion, invertB, inside, r)
            == (((r.matchesPoint && !isUnion) || r.matchesPolyline
                 || VertexInPolygons(m.polygon, inside != invertB, r.matchesPolygon)) != invertB)
  {
  }

  // ----- what a scan finds -----

  datatype Flag = StartOnPolygon | EndOnPolygon | OnLine | StartInLine | EndInLine {
    predicate Of(r: EdgeCrossings)
    {
      match this
      case StartOnPolygon => r.a0MatchesPolygon
      case EndOnPolygon => r.a1MatchesPolygon
      case OnLine => r.matchesPolyline
      case StartInLine => r.a0MatchesPolyline
      case EndInLine => r.a1MatchesPolyline
    }

    predicate LooksAtLines()
    {
      StartInLine? || EndInLine?
    }
  }

  predicate IsEndOf(v: Point, b: Edge)
  {
    v == b.v0 || v == b.v1
  }

  // The model's answer for the chain that the edge belongs to.
  predicate InOwnLine(m: Model, bIndex: Index, b: ShapeEdgeId, v: Point, dimension: nat)
    requires ValidIndex(bIndex) && HasEdge(bIndex, b)
  {
    var shape := bIndex[b.shape];
    IsEndOf(v, shape.edges[b.edge]) && ContainsVertex(m, shape, b.edge, shape.chains[shape.ChainOf(b.edge)], v, dimension)
  }

  // Does a crossing raise a flag?
  predicate Raises(flag: Flag, side: Side, a: Edge, x: IndexCrossing)
    requires ValidIndex(side.bIndex) && HasEdge(side.bIndex, x.b)
  {
    var shape := side.bIndex[x.b.shape];
    var b := shape.edges[x.b.edge];
    && !x.isInterior
    && match flag
       case StartOnPolygon => shape.dimension == 2 && IsEndOf(a.v0, b)
       case EndOnPolygon => shape.dimension == 2 && IsEndOf(a.v1, b)
       case OnLine => shape.dimension == 1 && side.aDimension != 2 && (b == a || b == Reversed(a))
       case StartInLine => shape.dimension == 1 && side.aDimension != 2 && InOwnLine(side.model, side.bIndex, x.b, a.v0, 1)
       case EndInLine => shape.dimension == 1 && side.aDimension != 2 && InOwnLine(side.model, side.bIndex, x.b, a.v1, 1)
  }

  lemma LineRaises(flag: Flag, side: Side, a: Edge, x: IndexCrossing, s: Scan)
    requires ValidIndex(side.bIndex) && HasEdge(side.bIndex, x.b) && side.bIndex[x.b.shape].dimension == 1
    requires CacheFits(s.cache, side.bIndex) && s.cache.shape == x.b.shape && !x.isInterior && side.aDimension != 2
    requires flag.LooksAtLines() && LooksAtChain(side, a, x) ==> FindsOwnChain(side.bIndex, x.b, s.cache)
    ensures flag.Of(LineStep(side, a, x, s).r) == (flag.Of(s.r) || Raises(flag, side, a, x))
  {
  }

  lemma StepRaises(flag: Flag, side: Side, a: Edge, x: IndexCrossing, s: Scan)
    requires ValidIndex(side.bIndex) && HasEdge(side.bIndex, x.b)
    requires CacheFits(s.cache, side.bIndex) && s.cache.shape == x.b.shape
    requires flag.LooksAtLines() && LooksAtChain(side, a, x) ==> FindsOwnChain(side.bIndex, x.b, s.cache)
    ensures flag.Of(Step(side, a, x, s).r) == (flag.Of(s.r) || Raises(flag, side, a, x))
  {
    hide LineStep, CacheFits, IsLogged, InOwnLine, FindsOwnChain;
    assert side.bIndex[x.b.shape].Valid();
    if side.bIndex[x.b.shape].dimension == 1 && !x.isInterior && side.aDimension != 2 {
      LineRaises(flag, side, a, x, s);
    }
  }

  ghost predicate IsRaised(flag: Flag, side: Side, a: Edge, crossings: seq<IndexCrossing>, k: nat, e: nat)
    requires ValidIndex(side.bIndex) && k <= e <= |crossings| && forall j :: k <= j < e ==> HasEdge(side.bIndex, crossings[j].b)
  {
    exists j :: k <= j < e && Raises(flag, side, a, crossings[j])
  }

  // A flag is set if and only if some crossing of the edge raises it; what is said
  // of polylines is right if the scan looks at the right chains.
  lemma {:induction false} ScanRaises(flag: Flag, side: Side, id: ShapeEdgeId, a: Edge, crossings: seq<IndexCrossing>, k: nat,
                                      s: Scan)
    requires id != SENTINEL && At(side.bIndex, crossings, k, s.cache)
    requires flag.LooksAtLines() ==> ScansFresh(side, id, a, crossings, k, s)
    ensures forall j :: k <= j < SegmentEnd(crossings, id, k) ==> HasEdge(side.bIndex, crossings[j].b)
    ensures flag.Of(ScanFrom(side, id, a, crossings, k, s).r)
            == (flag.Of(s.r) || IsRaised(flag, side, a, crossings, k, SegmentEnd(crossings, id, k)))
    decreases |crossings| - k
  {
    hide Step, CacheFits, FindsOwnChain, LooksAtChain, Raises, Flag.Of, Flag.LooksAtLines;
    if crossings[k].a == id {
      StepKeepsCache(side, a, crossings[k], s);
      StepRaises(flag, side, a, crossings[k], s);
      var u := Step(side, a, crossings[k], s);
      MovedFits(side.bIndex, crossings, k + 1, u.cache);
      var next := u.(cache := Moved(u.cache, crossings[k + 1]));
      ScanRaises(flag, side, id, a, crossings, k + 1, next);
      SameFlag(flag, u, next);
    }
  }

  lemma SameFlag(flag: Flag, s: Scan, t: Scan)
    requires s.r == t.r
    ensures flag.Of(s.r) == flag.Of(t.r)
  {
  }

  // ----- polylines -----

  // The vertices of a polyline, from 0 to its length.
  function VertexOf(shape: Shape, chain: Chain, k: nat): Point
    requires shape.Valid() && chain in shape.chains && k <= chain.length && chain.length > 0
  {
    LastEdgeExists(shape, chain);
    if k < chain.length then shape.edges[chain.start + k].v0 else shape.edges[chain.start + chain.length - 1].v1
  }

  // Does a polyline of n edges contain its vertex number k?  Loops without
  // boundaries contain their first and last vertex.
  predicate ContainsNumber(m: Model, k: nat, n: nat, isLoop: bool)
  {
    match m.polyline
    case PolylineClosed => true
    case PolylineSemiOpen => k < n
    case PolylineOpen => 0 < k < n || (isLoop && !m.loopsHaveBoundaries && (k == 0 || k == n))
  }

  ghost predicate LineContains(m: Model, shape: Shape, chain: Chain, v: Point)
    requires shape.Valid() && chain in shape.chains && chain.length > 0
  {
    exists k :: IsContainedAs(m, shape, chain, v, k)
  }

  ghost predicate IsContainedAs(m: Model, shape: Shape, chain: Chain, v: Point, k: nat)
    requires shape.Valid() && chain in shape.chains && chain.length > 0
  {
    && k <= chain.length && VertexOf(shape, chain, k) == v
    && ContainsNumber(m, k, chain.length, VertexOf(shape, chain, 0) == VertexOf(shape, chain, chain.length))
  }

  // Does the code's answer for some edge of the polyline that ends at v say so?
  ghost predicate SomeEdgeContains(m: Model, shape: Shape, chain: Chain, v: Point, dimension: nat)
    requires shape.Valid() && chain in shape.chains && chain.length > 0
  {
    exists e :: EdgeContains(m, shape, chain, v, dimension, e)
  }

  ghost predicate EdgeContains(m: Model, shape: Shape, chain: Chain, v: Point, dimension: nat, e: nat)
    requires shape.Valid() && chain in shape.chains && chain.length > 0
  {
    LastEdgeExists(shape, chain);
    InChain(chain, e) && IsEndOf(v, shape.edges[e]) && ContainsVertex(m, shape, e, chain, v, dimension)
  }

  // Polylines that do not leave their first vertex are treated differently: AA
  // contains itself only as a polyline, and only with edge id 0; AAA does not
  // contain A in the open model.
  predicate IsTiny(m: Model, shape: Shape, chain: Chain, dimension: nat)
    requires shape.Valid() && chain in shape.chains && chain.length > 0
  {
    LastEdgeExists(shape, chain);
    var first := shape.edges[chain.start];
    first.v0 == first.v1
    && ((chain.length == 1 && m.polyline != PolylineClosed && (dimension == 0 || chain.start > 0))
        || (chain.length == 2 && first.v1 == shape.edges[chain.start + 1].v1 && m.polyline == PolylineOpen && m.loopsHaveBoundaries))
  }

  lemma EdgeIsRight(m: Model, shape: Shape, chain: Chain, v: Point, dimension: nat, e: nat)
    requires shape.Valid() && Connected(shape) && chain in shape.chains && chain.length > 0 && dimension <= 1
    requires EdgeContains(m, shape, chain, v, dimension, e)
    ensures LineContains(m, shape, chain, v) && !IsTiny(m, shape, chain, dimension)
  {
    LastEdgeExists(shape, chain);
    var i := e - chain.start;
    NextVertex(shape, chain, i);
    if v == shape.edges[e].v0 && ContainsNumber(m, i, chain.length, VertexOf(shape, chain, 0) == VertexOf(shape, chain, chain.length)) {
      assert IsContainedAs(m, shape, chain, v, i);
    } else {
      assert IsContainedAs(m, shape, chain, v, i + 1);
    }
  }

  lemma NextVertex(shape: Shape, chain: Chain, i: nat)
    requires shape.Valid() && Connected(shape) && chain in shape.chains && i < chain.length
    ensures chain.start + i < |shape.edges|
    ensures VertexOf(shape, chain, i) == shape.edges[chain.start + i].v0
    ensures VertexOf(shape, chain, i + 1) == shape.edges[chain.start + i].v1
  {
    LastEdgeExists(shape, chain);
  }

  // The edge that says so for vertex number k: the one that starts there, or the
  // one before if that is a degenerate last edge.
  lemma VertexIsFound(m: Model, shape: Shape, chain: Chain, v: Point, dimension: nat, k: nat)
    requires shape.Valid() && Connected(shape) && chain in shape.chains && chain.length > 0 && dimension <= 1
    requires IsContainedAs(m, shape, chain, v, k) && !IsTiny(m, shape, chain, dimension)
    ensures SomeEdgeContains(m, shape, chain, v, dimension)
  {
    LastEdgeExists(shape, chain);
    var n := chain.length;
    var i := if m.polyline == PolylineOpen && !(0 < k < n) then 0 else if k == n then n - 1 else k;
    NextVertex(shape, chain, i);
    if i == 0 || EdgeContains(m, shape, chain, v, dimension, chain.start + i) {
      FirstIsFound(m, shape, chain, v, dimension, k);
    } else {
      NextVertex(shape, chain, i - 1);
      assert EdgeContains(m, shape, chain, v, dimension, chain.start + i - 1);
    }
  }

  lemma FirstIsFound(m: Model, shape: Shape, chain: Chain, v: Point, dimension: nat, k: nat)
    requires shape.Valid() && Connected(shape) && chain in shape.chains && chain.length > 0 && dimension <= 1
    requires IsContainedAs(m, shape, chain, v, k) && !IsTiny(m, shape, chain, dimension)
    requires var i := if m.polyline == PolylineOpen && !(0 < k < chain.length) then 0 else if k == chain.length then chain.length - 1 else k;
             i == 0 || EdgeContains(m, shape, chain, v, dimension, chain.start + i)
    ensures SomeEdgeContains(m, shape, chain, v, dimension)
  {
    LastEdgeExists(shape, chain);
    var i := if m.polyline == PolylineOpen && !(0 < k < chain.length) then 0 else if k == chain.length then chain.length - 1 else k;
    NextVertex(shape, chain, 0);
    assert EdgeContains(m, shape, chain, v, dimension, chain.start + i);
  }

  // The code's answers for the edges of a polyline come to what its model says,
  // except for those tiny polylines.
  lemma PolylineContainsVertex(m: Model, shape: Shape, chain: Chain, v: Point, dimension: nat)
    requires shape.Valid() && Connected(shape) && chain in shape.chains && chain.length > 0 && dimension <= 1
    ensures SomeEdgeContains(m, shape, chain, v, dimension) <==> LineContains(m, shape, chain, v) && !IsTiny(m, shape, chain, dimension)
  {
    hide IsTiny, IsContainedAs, EdgeContains;
    forall e: nat | EdgeContains(m, shape, chain, v, dimension, e)
      ensures LineContains(m, shape, chain, v) && !IsTiny(m, shape, chain, dimension)
    {
      EdgeIsRight(m, shape, chain, v, dimension, e);
    }
    forall k: nat | IsContainedAs(m, shape, chain, v, k) && !IsTiny(m, shape, chain, dimension)
      ensures SomeEdgeContains(m, shape, chain, v, dimension)
    {
      VertexIsFound(m, shape, chain, v, dimension, k);
    }
  }

  // The documentation promises that a polyline AA contains itself in all models.
  // It does if it is the first in its shape, but not after another polyline.
  lemma LaterPointLineLosesItself(a: Point, b: Point)
    ensures var m, line := Model(PolygonSemiOpen, PolylineSemiOpen, true), Edge(a, a);
            var first, later := Shape(1, [line], [Chain(0, 1)]), Shape(1, [Edge(a, b), line], [Chain(0, 1), Chain(1, 1)]);
            && first.Valid() && ContainsVertex(m, first, 0, first.chains[0], a, 1)
            && later.Valid() && !ContainsVertex(m, later, 1, later.chains[1], a, 1)
  {
    var later := Shape(1, [Edge(a, b), Edge(a, a)], [Chain(0, 1), Chain(1, 1)]);
    assert later.chains[1] in later.chains;
  }

  // The start of a polyline edge may be emitted on its own if the polyline
  // contains it, unless it is the vertex of a loop without boundaries, and the end
  // of the last edge if it is that vertex or contained.
  lemma OwnVertices(t: Setting, id: ShapeEdgeId, inside: bool, v0EmittedMaxEdgeId: int, chainV0Emitted: bool, r: EdgeCrossings,
                    pending: seq<Crosser>)
    requires t.chainStart <= id.edge < t.chainLimit <= |t.shape.edges|
    ensures var l := t.LineOf(id, inside, v0EmittedMaxEdgeId, chainV0Emitted, r, pending);
            var k, n := id.edge - t.chainStart, t.chainLimit - t.chainStart;
            var isLoop := t.shape.edges[t.chainStart].v0 == t.shape.edges[t.chainLimit - 1].v1;
            var oneVertex := isLoop && !t.model.loopsHaveBoundaries;
            && l.a == t.shape.edges[id.edge] && l.edge == id.edge && (l.isLast <==> k == n - 1) && l.complete == t.complete
            && (l.startsLoop <==> k == 0 && oneVertex)
            && (l.containsV0 && !l.startsLoop <==> ContainsNumber(t.model, k, n, isLoop) && !(k == 0 && oneVertex))
            && (l.isLast ==> (l.containsLast <==> ContainsNumber(t.model, n, n, isLoop) || oneVertex))
  {
  }

  // ----- points -----

  datatype PointFlag = OnPoint | OnVertexOfPolygon | InLine {
    predicate Of(r: PointScan)
    {
      match this
      case OnPoint => r.matchesPoint
      case OnVertexOfPolygon => r.matchesPolygon
      case InLine => r.matchesPolyline
    }
  }

  predicate RaisesPoint(flag: PointFlag, m: Model, v: Point, b: ShapeEdgeId, bIndex: Index)
    requires ValidIndex(bIndex) && HasEdge(bIndex, b)
  {
    var shape := bIndex[b.shape];
    match flag
    case OnPoint => shape.dimension == 0
    case OnVertexOfPolygon => shape.dimension == 2
    case InLine => shape.dimension == 1 && ContainsVertex(m, shape, b.edge, shape.chains[shape.ChainOf(b.edge)], v, 0)
  }

  // Chains do not matter, or no polyline shape has more than one with edges.
  ghost predicate OneLineEach(m: Model, bIndex: Index)
  {
    m.polyline == PolylineClosed || forall s :: 0 <= s < |bIndex| && bIndex[s].dimension == 1 ==> OneChain(bIndex[s])
  }

  lemma PointStepRaises(flag: PointFlag, m: Model, v: Point, x: IndexCrossing, bIndex: Index, s: PointScan)
    requires ValidIndex(bIndex) && HasEdge(bIndex, x.b) && CacheFits(s.cache, bIndex) && s.cache.shape == x.b.shape
    requires OneLineEach(m, bIndex) && Remembered(s.cache)
    ensures flag.Of(PointStep(m, v, x, bIndex, s)) == (flag.Of(s) || RaisesPoint(flag, m, v, x.b, bIndex))
    ensures Remembered(PointStep(m, v, x, bIndex, s).cache)
  {
    hide CacheFits, OneChain;
    var shape := bIndex[x.b.shape];
    assert shape.Valid();
    if shape.dimension == 1 && m.polyline != PolylineClosed {
      OneChainIsOwn(bIndex, x.b, s.cache);
    }
  }

  ghost predicate IsRaisedAtPoint(flag: PointFlag, m: Model, v: Point, crossings: seq<IndexCrossing>, k: nat, e: nat, bIndex: Index)
    requires ValidIndex(bIndex) && k <= e <= |crossings| && forall j :: k <= j < e ==> HasEdge(bIndex, crossings[j].b)
  {
    exists j :: k <= j < e && RaisesPoint(flag, m, v, crossings[j].b, bIndex)
  }

  lemma {:induction false} PointScanRaises(flag: PointFlag, m: Model, id: ShapeEdgeId, v: Point, bIndex: Index,
                                           crossings: seq<IndexCrossing>, k: nat, s: PointScan)
    requires id != SENTINEL && At(bIndex, crossings, k, s.cache) && OneLineEach(m, bIndex) && Remembered(s.cache)
    ensures forall j :: k <= j < SegmentEnd(crossings, id, k) ==> HasEdge(bIndex, crossings[j].b)
    ensures flag.Of(PointScanFrom(m, id, v, bIndex, crossings, k, s))
            == (flag.Of(s) || IsRaisedAtPoint(flag, m, v, crossings, k, SegmentEnd(crossings, id, k), bIndex))
    decreases |crossings| - k
  {
    hide PointStep, CacheFits, RaisesPoint, PointFlag.Of, OneLineEach, Remembered;
    if crossings[k].a == id {
      PointStepRaises(flag, m, v, crossings[k], bIndex, s);
      var u := PointStep(m, v, crossings[k], bIndex, s);
      MovedFits(bIndex, crossings, k + 1, u.cache);
      MovedRemembers(u.cache, crossings[k + 1]);
      var next := u.(cache := Moved(u.cache, crossings[k + 1]));
      PointScanRaises(flag, m, id, v, bIndex, crossings, k + 1, next);
      SamePointFlag(flag, u, next);
    }
  }

  lemma SamePointFlag(flag: PointFlag, s: PointScan, t: PointScan)
    requires t == s.(cache := t.cache)
    ensures flag.Of(s) == flag.Of(t)
  {
  }

  // ----- what a scan logs -----

  // Interior crossings with polygons are logged, and with polylines if the edge
  // is one itself and they have not been dropped.
  predicate MustLog(side: Side, x: IndexCrossing)
    requires HasEdge(side.bIndex, x.b)
  {
    && x.isInterior
    && match side.bIndex[x.b.shape].dimension
       case 0 => false
       case 1 => side.aDimension < 2 && !side.dropLines
       case _ => true
  }

  // In order, those at positions k up to e.
  function MustBeLogged(side: Side, crossings: seq<IndexCrossing>, k: nat, e: nat): seq<Crosser>
    requires k <= e <= |crossings| && forall j :: k <= j < e ==> HasEdge(side.bIndex, crossings[j].b)
    decreases e - k
  {
    if k == e then []
    else
      var x := crossings[k];
      (if MustLog(side, x) then [Crosser(BySource(side.bRegion, x.b), x.leftToRight)] else [])
      + MustBeLogged(side, crossings, k + 1, e)
  }

  lemma {:induction false} ScanLogs(side: Side, id: ShapeEdgeId, a: Edge, crossings: seq<IndexCrossing>, k: nat, s: Scan)
    requires id != SENTINEL && At(side.bIndex, crossings, k, s.cache) && side.aDimension <= 2
    ensures forall j :: k <= j < SegmentEnd(crossings, id, k) ==> HasEdge(side.bIndex, crossings[j].b)
    ensures ScanFrom(side, id, a, crossings, k, s).pending
            == s.pending + MustBeLogged(side, crossings, k, SegmentEnd(crossings, id, k))
    decreases |crossings| - k
  {
    hide Step, CacheFits, MustLog;
    if crossings[k].a == id {
      StepKeepsCache(side, a, crossings[k], s);
      StepLogs(side, a, crossings[k], s);
      var u := Step(side, a, crossings[k], s);
      MovedFits(side.bIndex, crossings, k + 1, u.cache);
      ScanLogs(side, id, a, crossings, k + 1, u.(cache := Moved(u.cache, crossings[k + 1])));
    }
  }

  lemma StepLogs(side: Side, a: Edge, x: IndexCrossing, s: Scan)
    requires ValidIndex(side.bIndex) && HasEdge(side.bIndex, x.b) && side.aDimension <= 2
    requires CacheFits(s.cache, side.bIndex) && s.cache.shape == x.b.shape
    ensures Step(side, a, x, s).pending
            == s.pending + if MustLog(side, x) then [Crosser(BySource(side.bRegion, x.b), x.leftToRight)] else []
  {
    hide Step, CacheFits;
    assert side.bIndex[x.b.shape].Valid();
    StepInterior(side, a, x, s);
  }
}
