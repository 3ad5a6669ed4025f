/**
 CrossingProcessor: decides, edge by edge, what is emitted, and writes the log
 for the clipper.
 */
module Processor {
  import opened Common
  import opened Shapes
  import opened EdgeScan
  import opened BoundaryRules
  import opened ClipLog
  import opened Outputs

  class CrossingIterator {
    const bIndex: Index
    const crossings: seq<IndexCrossing>
    const crossingsComplete: bool
    var pos: nat
    var cache: ChainCache

    ghost predicate Valid()
      reads this
    {
      At(bIndex, crossings, pos, cache)
    }

    constructor (bIndex: Index, crossings: seq<IndexCrossing>, complete: bool)
      requires ValidIndex(bIndex) && ValidCrossings(crossings, bIndex)
      ensures Valid() && pos == 0 && cache == Moved(ChainCache(-1, None), crossings[0])
      ensures this.bIndex == bIndex && this.crossings == crossings && crossingsComplete == complete
    {
      this.bIndex, this.crossings, crossingsComplete := bIndex, crossings, complete;
      pos, cache := 0, Moved(ChainCache(-1, None), crossings[0]);
    }

    method Next()
      requires At(bIndex, crossings, pos, cache) && pos < |crossings| - 1
      modifies this
      ensures Valid() && pos == old(pos) + 1 && cache == Moved(old(cache), crossings[pos])
    {
      pos := pos + 1;
      cache := Moved(cache, crossings[pos]);
    }

    predicate Done(id: ShapeEdgeId)
      requires pos < |crossings|
      reads this
    {
      crossings[pos].a != id
    }
  }

  // ----- points -----

  datatype PointScan = PointScan(matchesPoint: bool, matchesPolyline: bool, matchesPolygon: bool, cache: ChainCache)

  function PointStep(m: Model, v: Point, x: IndexCrossing, bIndex: Index, s: PointScan): (t: PointScan)
    requires ValidIndex(bIndex) && HasEdge(bIndex, x.b)
    requires CacheFits(s.cache, bIndex) && s.cache.shape == x.b.shape
    ensures CacheFits(t.cache, bIndex) && t.cache.shape == x.b.shape
  {
    var shape := bIndex[x.b.shape];
    if shape.dimension == 0 then s.(matchesPoint := true)
    else if shape.dimension == 2 then s.(matchesPolygon := true)
    else
      var cache := if m.polyline != PolylineClosed then Filled(s.cache, shape, x.b.edge) else s.cache;
      var chain := if cache.info.Some? then cache.info.value else shape.chains[shape.ChainOf(x.b.edge)];
      s.(cache := cache, matchesPolyline := s.matchesPolyline || ContainsVertex(m, shape, x.b.edge, chain, v, 0))
  }

  function PointScanFrom(m: Model, id: ShapeEdgeId, v: Point, bIndex: Index, crossings: seq<IndexCrossing>, k: nat,
                         s: PointScan): (t: PointScan)
    requires id != SENTINEL && At(bIndex, crossings, k, s.cache)
    ensures At(bIndex, crossings, SegmentEnd(crossings, id, k), t.cache)
    decreases |crossings| - k
  {
    if crossings[k].a != id then s
    else
      var u := PointStep(m, v, crossings[k], bIndex, s);
      MovedFits(bIndex, crossings, k + 1, u.cache);
      PointScanFrom(m, id, v, bIndex, crossings, k + 1, u.(cache := Moved(u.cache, crossings[k + 1])))
  }

  // Is a point of A inside B?
  predicate IsPointInside(m: Model, isUnion: bool, invertB: bool, inside: bool, r: PointScan)
  {
    var contained :=
      (r.matchesPoint && !isUnion) || r.matchesPolyline ||
      if r.matchesPolygon && m.polygon != PolygonSemiOpen then m.polygon == PolygonClosed else inside != invertB;
    contained != invertB
  }

  // The cache after the crossings of an edge have been skipped.
  function SkipFrom(id: ShapeEdgeId, bIndex: Index, crossings: seq<IndexCrossing>, k: nat, cache: ChainCache): (c: ChainCache)
    requires id != SENTINEL && At(bIndex, crossings, k, cache)
    ensures At(bIndex, crossings, SegmentEnd(crossings, id, k), c)
    decreases |crossings| - k
  {
    if crossings[k].a != id then cache
    else
      MovedFits(bIndex, crossings, k + 1, cache);
      SkipFrom(id, bIndex, crossings, k + 1, Moved(cache, crossings[k + 1]))
  }

  // ----- what happens to one edge -----

  // What changes from edge to edge.
  datatype Status = Status(inside: bool, v0EmittedMaxEdgeId: int, chainV0Emitted: bool, holes: map<ShapeEdgeId, bool>,
                           pos: nat, cache: ChainCache)

  // What stays the same along a chain.
  datatype Setting = Setting(model: Model, aRegion: nat, invertA: bool, invertB: bool, invertResult: bool, isUnion: bool,
                             shape: Shape, chainStart: nat, chainLimit: nat, bIndex: Index,
                             crossings: seq<IndexCrossing>, complete: bool)
  {
    // The setting in which crossings with the other region are looked at.
    function Side(): Side
    {
      EdgeScan.Side(model, shape.dimension, if aRegion == 0 then 1 else 0, bIndex, invertB != invertResult)
    }

    // The clipper's state if an edge is emitted now.
    function State(inside: bool): ClipState
    {
      ClipState(inside, invertB, invertA != invertResult)
    }

    // Points and lines of an inverted region are dropped.
    predicate Dropped()
    {
      shape.dimension < 2 && invertA != invertResult
    }

    // The edge belongs to the region.
    ghost predicate Fits(regions: seq<Index>, id: ShapeEdgeId)
    {
      && |regions| == 2 && aRegion <= 1 && ValidIndex(regions[0]) && ValidIndex(regions[1])
      && HasEdge(regions[aRegion], id) && shape == regions[aRegion][id.shape] && bIndex == regions[1 - aRegion]
    }

    // The edge is of the current chain, and the iterator can be asked for its
    // crossings.
    ghost predicate Ready(id: ShapeEdgeId, s: Status)
    {
      && id != SENTINEL && chainStart <= id.edge < chainLimit <= |shape.edges|
      && At(bIndex, crossings, s.pos, s.cache)
    }

    function EdgeOf(id: ShapeEdgeId): Edge
      requires id.edge < |shape.edges|
    {
      shape.edges[id.edge]
    }

    // What the crossings of the edge amount to.
    function Scanned(id: ShapeEdgeId, s: Status): Scan
      requires Ready(id, s)
    {
      ScanFrom(Side(), id, EdgeOf(id), crossings, s.pos, Scan(NO_CROSSINGS, [], s.cache))
    }

    // The same for a point.
    function PointScanned(id: ShapeEdgeId, s: Status): PointScan
      requires Ready(id, s)
    {
      PointScanFrom(model, id, EdgeOf(id).v0, bIndex, crossings, s.pos, PointScan(false, false, false, s.cache))
    }

    predicate PointKept(id: ShapeEdgeId, s: Status)
      requires Ready(id, s)
    {
      IsPointInside(model, isUnion, invertB, s.inside, PointScanned(id, s))
    }

    // The parity of the polygon crossings of the edge.
    function Crossed(id: ShapeEdgeId, s: Status): bool
      requires Ready(id, s)
    {
      CrossedParity(EdgeOf(id), crossings, s.pos, SegmentEnd(crossings, id, s.pos), bIndex)
    }

    // ----- polylines -----

    predicate ContainsV0(edge: nat)
    {
      model.polyline != PolylineOpen || edge > chainStart
    }

    // The first edge of a loop whose closing vertex is decided at its end.
    predicate StartsLoop(id: ShapeEdgeId)
      requires chainStart <= id.edge < chainLimit <= |shape.edges|
    {
      !model.loopsHaveBoundaries && id.edge == chainStart && EdgeOf(id).v0 == shape.edges[chainLimit - 1].v1
    }

    predicate ContainsLastVertex(id: ShapeEdgeId)
      requires chainStart <= id.edge < chainLimit <= |shape.edges|
    {
      || model.polyline == PolylineClosed
      || (!model.loopsHaveBoundaries && EdgeOf(id).v1 == shape.edges[chainStart].v0)
    }

    // What the processing of a polyline edge depends on.
    function LineOf(id: ShapeEdgeId, inside: bool, v0EmittedMaxEdgeId: int, chainV0Emitted: bool, r: EdgeCrossings,
                    pending: seq<Crosser>): (l: Line)
      requires chainStart <= id.edge < chainLimit <= |shape.edges|
      ensures l.r == r && l.pending == pending && l.inside == inside
      ensures l.v0EmittedMaxEdgeId == v0EmittedMaxEdgeId && l.chainV0Emitted == chainV0Emitted
      ensures l.invertB == invertB && l.reverseA == (invertA != invertResult)
      ensures l.crossed == Odd(r.a0Crossings + r.a1Crossings + r.interiorCrossings)
    {
      Line(model, isUnion, invertB, invertA != invertResult, inside, v0EmittedMaxEdgeId, chainV0Emitted,
           StartsLoop(id), ContainsV0(id.edge), ContainsLastVertex(id), id.edge == chainLimit - 1,
           complete, id.edge, EdgeOf(id), r, pending, Odd(r.a0Crossings + r.a1Crossings + r.interiorCrossings))
    }

    function LineAt(id: ShapeEdgeId, s: Status): Line
      requires Ready(id, s)
    {
      LineOf(id, s.inside, s.v0EmittedMaxEdgeId, s.chainV0Emitted, Scanned(id, s).r, Scanned(id, s).pending)
    }

    // ----- polygons -----

    // What the processing of a polygon edge depends on.
    function FaceOf(id: ShapeEdgeId, inside: bool, holes: map<ShapeEdgeId, bool>, r: EdgeCrossings,
                    pending: seq<Crosser>): (f: Face)
      requires id.edge < |shape.edges|
      ensures f.pending == pending && f.inside == inside && f.r.interiorCrossings == r.interiorCrossings
      ensures f.invertB == invertB && f.reverseA == (invertA != invertResult)
      ensures f.r.a0Crossings == r.a0Crossings && f.r.a1Crossings == r.a1Crossings
      ensures r.polygonMatch.None? && r.siblingMatch.None? ==> f.r.polygonMatch.None? && f.r.siblingMatch.None?
      ensures f.a == EdgeOf(id) && f.holes == holes
    {
      var op := Operation(model.polygon, invertA, invertB, aRegion == 1);
      Face(op, invertB, invertA != invertResult, inside, holes, id, EdgeOf(id), op.Oriented(r), pending)
    }

    function FaceAt(id: ShapeEdgeId, s: Status): Face
      requires Ready(id, s)
    {
      FaceOf(id, s.inside, s.holes, Scanned(id, s).r, Scanned(id, s).pending)
    }

    // Interior crossings that are not counted, because the edge is left to the
    // second pass.
    predicate Excused(id: ShapeEdgeId, s: Status)
      requires Ready(id, s)
    {
      shape.dimension == 2 && FaceAt(id, s).Deferred() && Odd(FaceAt(id, s).r.interiorCrossings)
    }

    // ----- any edge -----

    // What is emitted for an edge: a point of the other region; for the edges
    // of lines and polygons what the boundary models decide.
    function Emissions(id: ShapeEdgeId, s: Status): seq<Emission>
      requires Ready(id, s)
    {
      if Dropped() then []
      else if shape.dimension == 0 then
        If(PointKept(id, s), PointEmission(EdgeOf(id).v0, 0, State(s.inside)))
      else if shape.dimension == 1 then LineAt(id, s).Emissions()
      else FaceAt(id, s).Emissions()
    }

    // The semi-open state afterwards: changed by the polygon crossings only,
    // whatever the boundary models decide, except that the interior crossings
    // of an edge that is left to the second pass are not counted.
    predicate InsideAfter(id: ShapeEdgeId, s: Status)
      requires Ready(id, s)
    {
      if shape.dimension == 0 || Dropped() then s.inside else s.inside != (Crossed(id, s) != Excused(id, s))
    }

    function CacheAfter(id: ShapeEdgeId, s: Status): (c: ChainCache)
      requires Ready(id, s)
      ensures At(bIndex, crossings, SegmentEnd(crossings, id, s.pos), c)
    {
      if Dropped() then SkipFrom(id, bIndex, crossings, s.pos, s.cache)
      else if shape.dimension == 0 then PointScanned(id, s).cache
      else Scanned(id, s).cache
    }

    // The status after an edge.
    function After(id: ShapeEdgeId, s: Status): (t: Status)
      requires Ready(id, s)
      ensures At(bIndex, crossings, t.pos, t.cache) && t.pos == SegmentEnd(crossings, id, s.pos)
      ensures t.inside == InsideAfter(id, s)
    {
      var t := s.(inside := InsideAfter(id, s), pos := SegmentEnd(crossings, id, s.pos), cache := CacheAfter(id, s));
      if shape.dimension == 0 || Dropped() then t
      else if shape.dimension == 1 then
        var l := LineAt(id, s);
        t.(v0EmittedMaxEdgeId := if l.EndKept() then l.edge + 1 else l.v0EmittedMaxEdgeId,
           chainV0Emitted := if l.startsLoop then l.Kept() else l.chainV0Emitted)
      else t.(holes := FaceAt(id, s).HolesAfter())
    }

    // Is the edge entered in the table of edges that others may cross?
    predicate Registers(id: ShapeEdgeId, s: Status)
      requires Ready(id, s)
    {
      && shape.dimension > 0 && !Dropped() && Scanned(id, s).r.interiorCrossings > 0
      && !(shape.dimension == 2 && FaceAt(id, s).Deferred())
    }

    // Facts about the crossings of an edge.
    lemma ScanFacts(regions: seq<Index>, id: ShapeEdgeId, s: Status)
      requires Fits(regions, id) && Ready(id, s)
      ensures shape.dimension <= 2
      ensures var t, r := Scanned(id, s), Scanned(id, s).r;
              && (Odd(r.a0Crossings + r.a1Crossings + r.interiorCrossings) == Crossed(id, s))
              && PendingFits(t.pending, r.interiorCrossings, regions)
              && FromCrossings(crossings, id, |crossings| - 1, Side(), t.pending)
              && IsSource(regions, BySource(aRegion, id), EdgeOf(id), shape.dimension)
              && (EdgeOf(id).v0 == EdgeOf(id).v1 ==>
                    r.a0Crossings == r.a1Crossings == 0 && r.polygonMatch.None? && r.siblingMatch.None?)
    {
      hide Step, CacheFits, PolygonParity, Odd, Sourced, FromCrossings, CrossedParity, ScanFrom;
      var side, a, scan := Side(), EdgeOf(id), Scan(NO_CROSSINGS, [], s.cache);
      NothingScanned(crossings, id, s.pos, side, a, scan, World(regions, []));
      ScanParity(side, id, a, crossings, s.pos, scan);
      ScanPending(side, id, a, crossings, s.pos, scan, World(regions, []));
      ScanSources(side, id, a, crossings, s.pos, scan);
      EndInside(crossings, id, s.pos, side, Scanned(id, s).pending);
      if a.v0 == a.v1 {
        PointHasNoVertexCrossings(side, id, a, crossings, s.pos, scan);
      }
    }

    lemma PointFacts(id: ShapeEdgeId, s: Status)
      requires Ready(id, s) && shape.dimension == 0 && !Dropped()
      ensures var kept := IsPointInside(model, isUnion, invertB, s.inside, PointScanned(id, s));
              && Emissions(id, s) == If(kept, PointEmission(EdgeOf(id).v0, 0, State(s.inside)))
              && After(id, s) == s.(pos := SegmentEnd(crossings, id, s.pos), cache := PointScanned(id, s).cache)
    {
      hide CacheFits, PointScanFrom, SegmentEnd, IsPointInside;
    }

    lemma DroppedFacts(id: ShapeEdgeId, s: Status, h: seq<Emission>)
      requires Ready(id, s)
      ensures Dropped() ==>
                && h + Emissions(id, s) == h && !Registers(id, s)
                && After(id, s) == s.(pos := SegmentEnd(crossings, id, s.pos),
                                      cache := SkipFrom(id, bIndex, crossings, s.pos, s.cache))
    {
      hide CacheFits, SkipFrom, SegmentEnd;
    }

    lemma LineFacts(regions: seq<Index>, id: ShapeEdgeId, s: Status)
      requires Fits(regions, id) && Ready(id, s) && shape.dimension == 1 && !Dropped()
      ensures var l := LineAt(id, s);
              && l.r == Scanned(id, s).r && l.pending == Scanned(id, s).pending
              && PendingFits(l.pending, l.r.interiorCrossings, regions)
              && IsSource(regions, BySource(aRegion, id), l.a, 1)
              && Emissions(id, s) == l.Emissions()
              && (Registers(id, s) <==> l.r.interiorCrossings > 0)
              && After(id, s) == Status(l.inside != l.crossed, if l.EndKept() then l.edge + 1 else l.v0EmittedMaxEdgeId,
                                        if l.startsLoop then l.Kept() else l.chainV0Emitted, s.holes,
                                        SegmentEnd(crossings, id, s.pos), Scanned(id, s).cache)
    {
      hide ScanFrom, CacheFits, Odd, CrossedParity, FromCrossings, IsSource, PendingFits, Line.EndKept, Line.Kept,
           Line.Emissions, SegmentEnd;
      ScanFacts(regions, id, s);
    }

    lemma FaceFacts(regions: seq<Index>, id: ShapeEdgeId, s: Status)
      requires Fits(regions, id) && Ready(id, s) && shape.dimension == 2
      ensures var f, r := FaceAt(id, s), Scanned(id, s).r;
              && f == FaceOf(id, s.inside, s.holes, r, Scanned(id, s).pending)
              && (f.IsPoint() ==> r.a0Crossings == r.a1Crossings == 0 && r.polygonMatch.None? && r.siblingMatch.None?)
              && PendingFits(f.pending, f.r.interiorCrossings, regions)
              && IsSource(regions, BySource(aRegion, id), f.a, 2)
              && Emissions(id, s) == f.Emissions()
              && (Registers(id, s) <==> f.r.interiorCrossings > 0 && !f.Deferred())
              && After(id, s) == Status(f.inside != (Odd(r.a0Crossings + r.a1Crossings + r.interiorCrossings)
                                                     != (f.Deferred() && Odd(r.interiorCrossings))),
                                        s.v0EmittedMaxEdgeId, s.chainV0Emitted, f.HolesAfter(),
                                        SegmentEnd(crossings, id, s.pos), Scanned(id, s).cache)
    {
      hide ScanFrom, CacheFits, Odd, CrossedParity, FromCrossings, IsSource, PendingFits, Face.Deferred, Face.HolesAfter,
           Face.Emissions, SegmentEnd, FaceOf;
      ScanFacts(regions, id, s);
    }

    // Crossings are left out only if the edge coincides with another edge, or is
    // a point, and crosses a third one in its interior.
    lemma DeferredWithInterior(id: ShapeEdgeId, s: Status)
      requires Ready(id, s) && shape.dimension == 2
      ensures var a := EdgeOf(id);
              FaceAt(id, s).Deferred() && Scanned(id, s).r.interiorCrossings > 0 ==>
                && (exists j :: 0 <= j < |crossings| - 1 && crossings[j].a == id && IsInterior(crossings[j], bIndex))
                && (a.v0 == a.v1
                    || exists j :: 0 <= j < |crossings| - 1 && crossings[j].a == id
                                   && (IsMatch(a, crossings[j], bIndex, a) || IsMatch(a, crossings[j], bIndex, Reversed(a))))
    {
      hide Step, CacheFits, FromCrossings, ScanFrom, IsMatch, IsLoopMatch, IsInterior;
      var side, a, scan := Side(), EdgeOf(id), Scan(NO_CROSSINGS, [], s.cache);
      NothingScanned(crossings, id, s.pos, side, a, scan, World([], []));
      ScanSources(side, id, a, crossings, s.pos, scan);
    }

    // An edge with an interior crossing is registered, unless it is deferred.
    lemma RegistersInterior(id: ShapeEdgeId, s: Status, k: nat)
      requires Ready(id, s) && shape.dimension > 0 && !Dropped()
      requires s.pos <= k < SegmentEnd(crossings, id, s.pos) && k < |crossings| - 1
      requires IsInterior(crossings[k], bIndex)
      ensures Scanned(id, s).r.interiorCrossings > 0
    {
      hide Step, CacheFits, ScanFrom, IsMatch, IsLoopMatch, IsInterior, SegmentEnd;
      ScanFinds(Side(), id, EdgeOf(id), crossings, s.pos, Scan(NO_CROSSINGS, [], s.cache), k);
    }

    // An edge without crossings is emitted as a whole or not at all: as the
    // state says.
    lemma UncrossedEdge(id: ShapeEdgeId, s: Status)
      requires Ready(id, s) && crossings[s.pos].a != id && !Dropped() && shape.dimension <= 2
      requires shape.dimension == 0 ==> EdgeOf(id).v0 == EdgeOf(id).v1
      ensures Emissions(id, s) == If(s.inside, EdgeEmission(EdgeOf(id), shape.dimension, State(true), 0, []))
      ensures InsideAfter(id, s) == s.inside
    {
      hide CacheFits, ValidIndex, Line.Emissions, Face.Emissions, Face.Deferred;
      assert Scanned(id, s) == Scan(NO_CROSSINGS, [], s.cache);
      assert !Crossed(id, s);
      if shape.dimension == 1 {
        UncrossedLine(LineAt(id, s));
      } else if shape.dimension == 2 {
        UncrossedFace(FaceAt(id, s));
      }
    }

    // An edge of a line or polygon that coincides with no edge of B is emitted as
    // the state just past its start says, or to be cut at interior crossings.
    lemma UnmatchedEdge(id: ShapeEdgeId, s: Status)
      requires Ready(id, s) && 1 <= shape.dimension <= 2 && !Dropped() && EdgeOf(id).v0 != EdgeOf(id).v1
      requires var r := Scanned(id, s).r; !r.matchesPolyline && r.polygonMatch.None? && r.siblingMatch.None?
      ensures var scan := Scanned(id, s);
              var kept := s.inside != Odd(scan.r.a0Crossings);
              var e := EdgeEmission(EdgeOf(id), shape.dimension, State(kept), scan.r.interiorCrossings, scan.pending);
              if kept || scan.r.interiorCrossings > 0 then e in Emissions(id, s)
              else forall x :: x in Emissions(id, s) ==> x.edge.v0 == x.edge.v1
    {
      hide Scanned, CacheFits, ValidIndex, At, Odd, Logged, Line.Emissions, Face.Emissions;
      if shape.dimension == 1 {
        UnmatchedLine(LineAt(id, s));
      } else {
        UnmatchedFace(FaceAt(id, s));
      }
    }

    // The crossings logged with the emitted edges are crossings of this edge.
    lemma LogsOwnCrossings(regions: seq<Index>, h: seq<Emission>, id: ShapeEdgeId, s: Status)
      requires Fits(regions, id) && Ready(id, s)
      ensures NewCrossers(h, h + Emissions(id, s), crossings, id, Side())
      ensures shape.dimension == 0 ==> NoNewCrossers(h, h + Emissions(id, s))
    {
      hide ScanFrom, PointScanFrom, CacheFits, FromCrossings, NewCrossers, NoNewCrossers, PendingFits, Odd, CrossedParity,
           IsSource, LineOf, FaceOf, Line.Emissions, Face.Emissions, PointKept;
      ScanFacts(regions, id, s);
      AddNothing(h);
      if Dropped() || shape.dimension == 0 {
        var c := !Dropped() && PointKept(id, s);
        PointsAddNone(h, c, EdgeOf(id).v0, State(s.inside), crossings, id, Side());
      } else if shape.dimension == 1 {
        LinesAdd(h, LineAt(id, s), crossings, id, Side());
      } else {
        FacesAdd(h, FaceAt(id, s), crossings, id, Side());
      }
    }
  }

  class CrossingProcessor {
    const model: Model
    // Is there a builder, that is, is more wanted than whether the result is empty?
    const hasBuilder: bool
    ghost const regions: seq<Index>

    var aRegion: nat
    var invertA: bool
    var invertB: bool
    var invertResult: bool
    var isUnion: bool

    var aShape: Shape
    var chainStart: nat
    var chainLimit: nat

    var out: Output
    var degenerateHole: map<ShapeEdgeId, bool>
    var inside: bool
    var v0EmittedMaxEdgeId: int
    var chainV0Emitted: bool

    // All edges emitted so far, and all edges processed so far.
    ghost var history: seq<Emission>
    ghost var processed: seq<ShapeEdgeId>

    // The clipper's state if the current edge is emitted now.
    function State(): ClipState
      reads this`inside, this`invertA, this`invertB, this`invertResult
    {
      ClipState(inside, invertB, invertA != invertResult)
    }

    ghost predicate Valid()
      reads this
    {
      Good(out, regions, history, State())
    }

    constructor (model: Model, hasBuilder: bool, ghost regions: seq<Index>)
      ensures Valid() && history == [] && processed == [] && this.regions == regions && this.model == model && this.hasBuilder == hasBuilder
      ensures out == Output([], [], [], [], map[], false) && degenerateHole == map[]
    {
      this.model, this.hasBuilder, this.regions := model, hasBuilder, regions;
      aRegion, invertA, invertB, invertResult, isUnion := 0, false, false, false, false;
      aShape, chainStart, chainLimit := Shape(0, [], []), 0, 0;
      out, degenerateHole := Output([], [], [], [], map[], false), map[];
      inside, v0EmittedMaxEdgeId, chainV0Emitted := false, -1, false;
      history, processed := [], [];
      new;
      NothingWritten(regions);
    }

    method StartBoundary(aRegion: nat, invertA: bool, invertB: bool, invertResult: bool)
      requires Valid()
      modifies this`aRegion, this`invertA, this`invertB, this`invertResult, this`isUnion, this`out
      ensures Valid()
      ensures this.aRegion == aRegion && this.invertA == invertA && this.invertB == invertB
      ensures this.invertResult == invertResult && isUnion == (invertB && invertResult)
      ensures out == old(out).SetState(SetReverseA, invertA != invertResult).SetState(SetInvertB, invertB)
    {
      hide Good;
      StatesKeepGood(out, regions, history, State(), ClipState(inside, invertB, invertA != invertResult));
      this.aRegion, this.invertA, this.invertB, this.invertResult := aRegion, invertA, invertB, invertResult;
      isUnion := invertB && invertResult;
      out := out.SetState(SetReverseA, invertA != invertResult);
      out := out.SetState(SetInvertB, invertB);
    }

    method StartShape(aShape: Shape)
      modifies this`aShape
      ensures this.aShape == aShape
    {
      this.aShape := aShape;
    }

    method StartChain(chain: Chain, inside: bool)
      requires Valid()
      modifies this`chainStart, this`chainLimit, this`inside, this`v0EmittedMaxEdgeId, this`chainV0Emitted
      ensures Valid()
      ensures chainStart == chain.start && chainLimit == chain.start + chain.length && this.inside == inside
      ensures v0EmittedMaxEdgeId == chain.start - 1 && !chainV0Emitted
    {
      hide Good;
      GoodIgnoresInside(out, regions, history, State(), inside);
      chainStart := chain.start;
      chainLimit := chain.start + chain.length;
      this.inside := inside;
      v0EmittedMaxEdgeId := chain.start - 1;
      chainV0Emitted := false;
    }

    // ----- the crossings of an edge -----

    function SettingFor(it: CrossingIterator): (t: Setting)
      reads this`aRegion, this`invertA, this`invertB, this`invertResult, this`isUnion, this`aShape, this`chainStart,
            this`chainLimit
    {
      Setting(model, aRegion, invertA, invertB, invertResult, isUnion, aShape, chainStart, chainLimit, it.bIndex,
              it.crossings, it.crossingsComplete)
    }

    function StatusAt(it: CrossingIterator): Status
      reads this`inside, this`v0EmittedMaxEdgeId, this`chainV0Emitted, this`degenerateHole, it
    {
      Status(inside, v0EmittedMaxEdgeId, chainV0Emitted, degenerateHole, it.pos, it.cache)
    }

    // The processor is set up for an edge of the current shape and chain.
    ghost predicate Ready(aId: ShapeEdgeId, it: CrossingIterator)
      reads this, it
    {
      SettingFor(it).Fits(regions, aId) && SettingFor(it).Ready(aId, StatusAt(it))
    }

    method SkipCrossings(aId: ShapeEdgeId, it: CrossingIterator)
      requires Ready(aId, it)
      modifies it
      ensures it.Valid() && it.pos == SegmentEnd(it.crossings, aId, old(it.pos))
      ensures it.cache == SkipFrom(aId, it.bIndex, it.crossings, old(it.pos), old(it.cache))
    {
      hide CacheFits, ValidIndex;
      while !it.Done(aId)
        invariant it.Valid() && SegmentEnd(it.crossings, aId, it.pos) == SegmentEnd(it.crossings, aId, old(it.pos))
        invariant SkipFrom(aId, it.bIndex, it.crossings, it.pos, it.cache)
                  == SkipFrom(aId, it.bIndex, it.crossings, old(it.pos), old(it.cache))
        decreases |it.crossings| - it.pos
      {
        it.Next();
      }
    }

    method ProcessPointCrossings(aId: ShapeEdgeId, v: Point, it: CrossingIterator) returns (r: PointScan)
      requires Ready(aId, it)
      modifies it
      ensures it.Valid() && it.pos == SegmentEnd(it.crossings, aId, old(it.pos)) && it.cache == r.cache
      ensures r == PointScanFrom(model, aId, v, it.bIndex, it.crossings, old(it.pos),
                                 PointScan(false, false, false, old(it.cache)))
    {
      hide PointStep, CacheFits, ValidIndex;
      r := PointScan(false, false, false, it.cache);
      while !it.Done(aId)
        invariant it.Valid() && it.cache == r.cache
        invariant SegmentEnd(it.crossings, aId, it.pos) == SegmentEnd(it.crossings, aId, old(it.pos))
        invariant PointScanFrom(model, aId, v, it.bIndex, it.crossings, it.pos, r)
                  == PointScanFrom(model, aId, v, it.bIndex, it.crossings, old(it.pos),
                                   PointScan(false, false, false, old(it.cache)))
        decreases |it.crossings| - it.pos
      {
        r := PointStep(model, v, it.crossings[it.pos], it.bIndex, r);
        it.cache := r.cache;
        it.Next();
        r := r.(cache := it.cache);
      }
    }

    method ProcessEdgeCrossings(aId: ShapeEdgeId, a: Edge, it: CrossingIterator)
      returns (r: EdgeCrossings, pending: seq<Crosser>)
      requires Ready(aId, it) && a == aShape.edges[aId.edge]
      modifies it
      ensures it.Valid() && it.pos == SegmentEnd(it.crossings, aId, old(it.pos))
      ensures Scan(r, pending, it.cache) == old(SettingFor(it).Scanned(aId, StatusAt(it)))
    {
      hide Step, CacheFits, ValidIndex;
      var side := SettingFor(it).Side();
      var s := Scan(NO_CROSSINGS, [], it.cache);
      ghost var expected := SettingFor(it).Scanned(aId, StatusAt(it));
      while !it.Done(aId)
        invariant it.Valid() && it.cache == s.cache
        invariant SegmentEnd(it.crossings, aId, it.pos) == SegmentEnd(it.crossings, aId, old(it.pos))
        invariant ScanFrom(side, aId, a, it.crossings, it.pos, s) == expected
        decreases |it.crossings| - it.pos
      {
        StepKeepsCache(side, a, it.crossings[it.pos], s);
        s := Step(side, a, it.crossings[it.pos], s);
        it.cache := s.cache;
        it.Next();
        s := s.(cache := it.cache);
      }
      r, pending := s.r, s.pending;
    }

    // ----- points -----

    method WritePoint(v: Point, r: PointScan) returns (ok: bool)
      requires Valid()
      modifies this`out, this`history
      ensures Valid() && (hasBuilder ==> ok)
      ensures ok ==>
                history == old(history) + If(IsPointInside(model, isUnion, invertB, inside, r), PointEmission(v, 0, State()))
      ensures out.sourceIdMap == old(out.sourceIdMap)
    {
      hide Good;
      AddNothing(history);
      var contained := inside != invertB;
      if r.matchesPolygon && model.polygon != PolygonSemiOpen {
        contained := model.polygon == PolygonClosed;
      }
      if r.matchesPolyline {
        contained := true;
      }
      if r.matchesPoint && !isUnion {
        contained := true;
      }
      if contained == invertB {
        return true;
      }
      if !hasBuilder {
        return false;
      }
      PointKeepsGood(out, regions, history, v, 0, State());
      history := history + [PointEmission(v, 0, State())];
      out := out.AddPointEdge(v, 0);
      ok := true;
    }

    // Points are dropped when their region is inverted; otherwise a point is
    // emitted if the other region contains it.
    method ProcessEdge0(aId: ShapeEdgeId, it: CrossingIterator, ghost setting: Setting, ghost status: Status)
      returns (ok: bool)
      requires Valid() && setting == SettingFor(it) && status == StatusAt(it)
      requires setting.Fits(regions, aId) && setting.Ready(aId, status) && aShape.dimension == 0
      modifies it, this`out, this`history
      ensures Valid() && (hasBuilder ==> ok)
      ensures it.Valid() && it.pos == SegmentEnd(it.crossings, aId, old(it.pos))
      ensures ok ==> StatusAt(it) == setting.After(aId, status)
      ensures ok ==> history == old(history) + setting.Emissions(aId, status)
      ensures out.sourceIdMap == old(out.sourceIdMap)
    {
      hide Good, PointScanFrom, SkipFrom, CacheFits, ValidIndex, SegmentEnd, At, IsPointInside;
      hide Setting.After, Setting.Emissions, Setting.Registers;
      setting.DroppedFacts(aId, status, history);
      if invertA != invertResult {
        SkipCrossings(aId, it);
        return true;
      }
      setting.PointFacts(aId, status);
      var r := ProcessPointCrossings(aId, aShape.edges[aId.edge].v0, it);
      ok := WritePoint(aShape.edges[aId.edge].v0, r);
    }

    // ----- polylines -----

    // Writes what has been decided for a polyline edge.
    method WriteLine(l: Line, source: Tag) returns (ok: bool)
      requires Valid() && State() == ClipState(l.inside, l.invertB, l.reverseA)
      requires l.crossed == Odd(l.r.a0Crossings + l.r.a1Crossings + l.r.interiorCrossings)
      requires l.v0EmittedMaxEdgeId == v0EmittedMaxEdgeId && l.chainV0Emitted == chainV0Emitted
      requires PendingFits(l.pending, l.r.interiorCrossings, regions)
      requires IsSource(regions, source, l.a, 1)
      modifies this`out, this`inside, this`v0EmittedMaxEdgeId, this`chainV0Emitted, this`history
      ensures Valid() && (hasBuilder ==> ok)
      ensures ok ==>
                && inside == (l.inside != l.crossed) && history == old(history) + l.Emissions()
                && v0EmittedMaxEdgeId == (if l.EndKept() then l.edge + 1 else l.v0EmittedMaxEdgeId)
                && chainV0Emitted == (if l.startsLoop then l.Kept() else l.chainV0Emitted)
                && (l.r.interiorCrossings > 0 ==> source in out.sourceIdMap)
      ensures old(out.sourceIdMap).Keys <= out.sourceIdMap.Keys
    {
      hide Good, PendingFits, IsSource, Odd, Line.Kept, Line.EndKept, Line.Emissions, Line.Write;
      LineKeepsGood(l, out, regions, history, State(), source, l.inside != l.crossed);
      var o, here, emitted, chainEmitted;
      ok, o, here, emitted, chainEmitted := EmitLine(l, out, source, hasBuilder);
      if ok {
        out, inside, v0EmittedMaxEdgeId, chainV0Emitted := o, here, emitted, chainEmitted;
        history := history + l.Emissions();
      }
    }

    method ProcessEdge1(aId: ShapeEdgeId, it: CrossingIterator, ghost setting: Setting, ghost status: Status)
      returns (ok: bool)
      requires Valid() && setting == SettingFor(it) && status == StatusAt(it)
      requires setting.Fits(regions, aId) && setting.Ready(aId, status) && aShape.dimension == 1
      modifies it, this`out, this`inside, this`v0EmittedMaxEdgeId, this`chainV0Emitted, this`history
      ensures Valid() && (hasBuilder ==> ok)
      ensures it.Valid() && it.pos == SegmentEnd(it.crossings, aId, old(it.pos))
      ensures ok ==> StatusAt(it) == setting.After(aId, status)
      ensures ok ==> history == old(history) + setting.Emissions(aId, status)
      ensures ok && setting.Registers(aId, status) ==> BySource(aRegion, aId) in out.sourceIdMap
      ensures old(out.sourceIdMap).Keys <= out.sourceIdMap.Keys
    {
      hide Good, SkipFrom, CacheFits, ValidIndex, SegmentEnd, At, Setting.After, Setting.Emissions, Setting.Registers;
      setting.DroppedFacts(aId, status, history);
      if invertA != invertResult {
        SkipCrossings(aId, it);
        return true;
      }
      ok := ProcessLine(aId, it, setting, status);
    }

    // A polyline edge that is not dropped.
    method ProcessLine(aId: ShapeEdgeId, it: CrossingIterator, ghost setting: Setting, ghost status: Status)
      returns (ok: bool)
      requires Valid() && setting == SettingFor(it) && status == StatusAt(it)
      requires setting.Fits(regions, aId) && setting.Ready(aId, status) && aShape.dimension == 1 && !setting.Dropped()
      modifies it, this`out, this`inside, this`v0EmittedMaxEdgeId, this`chainV0Emitted, this`history
      ensures Valid() && (hasBuilder ==> ok)
      ensures it.Valid() && it.pos == SegmentEnd(it.crossings, aId, old(it.pos))
      ensures ok ==> StatusAt(it) == setting.After(aId, status)
      ensures ok ==> history == old(history) + setting.Emissions(aId, status)
      ensures ok && setting.Registers(aId, status) ==> BySource(aRegion, aId) in out.sourceIdMap
      ensures old(out.sourceIdMap).Keys <= out.sourceIdMap.Keys
    {
      hide Good, ScanFrom, CacheFits, ValidIndex, SegmentEnd, IsSource, PendingFits, Odd, At;
      hide Setting.After, Setting.Emissions, Setting.Registers, Setting.LineOf, Setting.Scanned, Line.Kept, Line.EndKept,
           Line.Emissions;
      setting.LineFacts(regions, aId, status);
      var r, pending := ProcessEdgeCrossings(aId, aShape.edges[aId.edge], it);
      var l := SettingFor(it).LineOf(aId, inside, v0EmittedMaxEdgeId, chainV0Emitted, r, pending);
      ok := WriteLine(l, BySource(aRegion, aId));
    }

    // ----- polygons -----

    // Writes what has been decided for a polygon edge.
    method WriteFace(f: Face, source: Tag) returns (ok: bool)
      requires Valid() && State() == ClipState(f.inside, f.invertB, f.reverseA)
      requires f.IsPoint() ==> f.r.a0Crossings == f.r.a1Crossings == 0 && f.r.polygonMatch.None? && f.r.siblingMatch.None?
      requires PendingFits(f.pending, f.r.interiorCrossings, regions)
      requires IsSource(regions, source, f.a, 2)
      modifies this`out, this`inside, this`degenerateHole, this`history
      ensures Valid() && (hasBuilder ==> ok)
      ensures ok ==>
                && inside == (f.inside != (Odd(f.r.a0Crossings + f.r.a1Crossings + f.r.interiorCrossings)
                                           != (f.Deferred() && Odd(f.r.interiorCrossings))))
                && degenerateHole == f.HolesAfter() && history == old(history) + f.Emissions()
                && (f.r.interiorCrossings > 0 && !f.Deferred() ==> source in out.sourceIdMap)
      ensures old(out.sourceIdMap).Keys <= out.sourceIdMap.Keys
    {
      hide Good, PendingFits, IsSource, Odd, Face.Deferred, Face.HolesAfter, Face.Emissions, Face.Write;
      ghost var end := f.inside != (Odd(f.r.a0Crossings + f.r.a1Crossings + f.r.interiorCrossings)
                                    != (f.Deferred() && Odd(f.r.interiorCrossings)));
      FaceKeepsGood(f, out, regions, history, State(), source, end);
      var o, here, holes;
      ok, o, here, holes := EmitFace(f, out, source, hasBuilder);
      if ok {
        out, inside, degenerateHole := o, here, holes;
        history := history + f.Emissions();
      }
    }

    method ProcessEdge2(aId: ShapeEdgeId, it: CrossingIterator, ghost setting: Setting, ghost status: Status)
      returns (ok: bool)
      requires Valid() && setting == SettingFor(it) && status == StatusAt(it)
      requires setting.Fits(regions, aId) && setting.Ready(aId, status) && aShape.dimension == 2
      modifies it, this`out, this`inside, this`degenerateHole, this`history
      ensures Valid() && (hasBuilder ==> ok)
      ensures it.Valid() && it.pos == SegmentEnd(it.crossings, aId, old(it.pos))
      ensures ok ==> StatusAt(it) == setting.After(aId, status)
      ensures ok ==> history == old(history) + setting.Emissions(aId, status)
      ensures ok && setting.Registers(aId, status) ==> BySource(aRegion, aId) in out.sourceIdMap
      ensures old(out.sourceIdMap).Keys <= out.sourceIdMap.Keys
    {
      hide Good, ScanFrom, SkipFrom, CacheFits, ValidIndex, SegmentEnd, IsSource, PendingFits, Odd, At;
      hide Setting.After, Setting.Emissions, Setting.Registers, Setting.FaceOf, Face.Deferred, Face.HolesAfter,
           Face.Emissions;
      setting.FaceFacts(regions, aId, status);
      var r, pending := ProcessEdgeCrossings(aId, aShape.edges[aId.edge], it);
      var f := SettingFor(it).FaceOf(aId, inside, degenerateHole, r, pending);
      ok := WriteFace(f, BySource(aRegion, aId));
    }

    // ----- any edge -----

    method ProcessEdge(aId: ShapeEdgeId, it: CrossingIterator) returns (ok: bool)
      requires Valid() && Ready(aId, it)
      modifies it, this`out, this`inside, this`v0EmittedMaxEdgeId, this`chainV0Emitted, this`degenerateHole, this`history,
               this`processed
      ensures Valid() && (hasBuilder ==> ok)
      ensures it.Valid() && it.pos == SegmentEnd(it.crossings, aId, old(it.pos))
      ensures ok ==> StatusAt(it) == old(SettingFor(it).After(aId, StatusAt(it)))
      ensures ok ==> history == old(history) + old(SettingFor(it).Emissions(aId, StatusAt(it)))
      ensures ok ==> processed == old(processed) + [aId]
      ensures ok && old(SettingFor(it).Registers(aId, StatusAt(it))) ==> BySource(aRegion, aId) in out.sourceIdMap
      ensures old(out.sourceIdMap).Keys <= out.sourceIdMap.Keys
    {
      hide Good, CacheFits, SegmentEnd, Setting.After, Setting.Emissions, At;
      assert aShape.Valid();
      ghost var setting, status := SettingFor(it), StatusAt(it);
      if aShape.dimension == 0 {
        ok := ProcessEdge0(aId, it, setting, status);
      } else if aShape.dimension == 1 {
        ok := ProcessEdge1(aId, it, setting, status);
      } else {
        ok := ProcessEdge2(aId, it, setting, status);
      }
      if ok {
        processed := processed + [aId];
      }
    }

    // Gives the logged crossings the ids of the edges in the builder.
    method DoneBoundaryPair()
      requires Valid() && Resolved(out.sourceEdgeCrossings, out.sourceIdMap)
      modifies this`out, this`history
      ensures Valid() && AllByInput(history) && out == Finished(old(out))
      ensures history == RetagHistory(old(out).sourceIdMap, old(history))
      ensures NamesEdges(old(out).sourceIdMap, regions, history)
    {
      hide Good, Represents, NamesEdges;
      FinishedKeepsGood(out, regions, history, State());
      var o := out;
      var crossings := o.inputCrossings;
      for i := 0 to |o.sourceEdgeCrossings|
        invariant crossings == o.inputCrossings + RetagLog(o.sourceIdMap, o.sourceEdgeCrossings[..i])
      {
        var e := o.sourceEdgeCrossings[i];
        var tag := e.tag;
        if tag.BySource? {
          tag := ByInput(o.sourceIdMap[tag]);
        }
        assert RetagLog(o.sourceIdMap, o.sourceEdgeCrossings[..i + 1])
            == RetagLog(o.sourceIdMap, o.sourceEdgeCrossings[..i]) + [Entry(e.edge, tag, e.flag)];
        crossings := crossings + [Entry(e.edge, tag, e.flag)];
      }
      assert o.sourceEdgeCrossings[..|o.sourceEdgeCrossings|] == o.sourceEdgeCrossings;
      history := RetagHistory(o.sourceIdMap, history);
      out := Output(o.builder, o.inputDimensions, crossings, [], map[], o.prevInside);
    }
  }

  // The crossings of the edges emitted since "before" are crossings of edge "id".
  ghost predicate NewCrossers(before: seq<Emission>, after: seq<Emission>, crossings: seq<IndexCrossing>, id: ShapeEdgeId,
                              side: Side)
  {
    && ValidCrossings(crossings, side.bIndex)
    && before <= after
    && forall k :: |before| <= k < |after| ==> FromCrossings(crossings, id, |crossings| - 1, side, after[k].crossers)
  }

  ghost predicate NoNewCrossers(before: seq<Emission>, after: seq<Emission>)
  {
    before <= after && forall k :: |before| <= k < |after| ==> after[k].crossers == []
  }

  lemma PointsAddNone(h: seq<Emission>, c: bool, p: Point, state: ClipState, crossings: seq<IndexCrossing>, id: ShapeEdgeId,
                      side: Side)
    requires ValidCrossings(crossings, side.bIndex)
    ensures NewCrossers(h, h + If(c, PointEmission(p, 0, state)), crossings, id, side)
    ensures NoNewCrossers(h, h + If(c, PointEmission(p, 0, state)))
  {
  }

  lemma LinesAdd(h: seq<Emission>, l: Line, crossings: seq<IndexCrossing>, id: ShapeEdgeId, side: Side)
    requires ValidCrossings(crossings, side.bIndex) && FromCrossings(crossings, id, |crossings| - 1, side, l.pending)
    ensures NewCrossers(h, h, crossings, id, side)
    ensures NewCrossers(h, h + l.Emissions(), crossings, id, side)
  {
    hide Line.Kept, Line.StartIsolated, Line.EndIsolated, IsLoggedCrossing;
    assert FromCrossings(crossings, id, |crossings| - 1, side, []);
  }

  lemma FacesAdd(h: seq<Emission>, f: Face, crossings: seq<IndexCrossing>, id: ShapeEdgeId, side: Side)
    requires ValidCrossings(crossings, side.bIndex) && FromCrossings(crossings, id, |crossings| - 1, side, f.pending)
    ensures NewCrossers(h, h + f.Emissions(), crossings, id, side)
  {
    hide Face.Kept, Face.Deferred, Face.StartIsolated, Face.WithSibling, IsLoggedCrossing;
    assert FromCrossings(crossings, id, |crossings| - 1, side, []);
  }

  // The part of ProcessEdge1 that follows the scan of the crossings.
  method EmitLine(l: Line, out: Output, source: Tag, hasBuilder: bool)
    returns (ok: bool, o: Output, inside: bool, v0EmittedMaxEdgeId: int, chainV0Emitted: bool)
    requires l.crossed == Odd(l.r.a0Crossings + l.r.a1Crossings + l.r.interiorCrossings)
    ensures hasBuilder ==> ok
    ensures ok ==> o == l.Write(out, source) && inside == (l.inside != l.crossed)
    ensures ok ==> v0EmittedMaxEdgeId == if l.EndKept() then l.edge + 1 else l.v0EmittedMaxEdgeId
    ensures ok ==> chainV0Emitted == if l.startsLoop then l.Kept() else l.chainV0Emitted
  {
    hide IsPolylineEdgeInside, IsPolylineVertexInside, EdgeEntries, Odd;
    hide Line.Kept, Line.EndKept, Line.EndIsolated, Line.WriteFirst;
    LineDecisions(l);
    v0EmittedMaxEdgeId := l.v0EmittedMaxEdgeId;
    var m, r, a := l.model, l.r, l.a;
    Restored(l.inside, r.a0Crossings, r.a1Crossings, r.interiorCrossings, l.Kept());
    var a1Crossings: nat;
    ok, o, inside, chainV0Emitted, a1Crossings := EmitLineStart(l, out, source, hasBuilder);
    if !ok {
      return;
    }
    // The state just before the end of the edge.
    inside := inside != Odd(r.interiorCrossings);
    if inside {
      v0EmittedMaxEdgeId := l.edge + 1;
    }
    inside := inside != Odd(a1Crossings);
    if l.complete && a.v0 != a.v1 && l.isLast && !chainV0Emitted && v0EmittedMaxEdgeId <= l.edge && l.containsLast
       && IsPolylineVertexInside(m, l.isUnion, l.invertB, inside, r.a1MatchesPolyline, r.a1MatchesPolygon) {
      if !hasBuilder {
        return false, o, inside, v0EmittedMaxEdgeId, chainV0Emitted;
      }
      o := o.AddPointEdge(a.v1, 1);
    }
  }

  // Its start vertex and the edge itself; "inside" then says whether the part
  // just past the start is emitted.
  method EmitLineStart(l: Line, out: Output, source: Tag, hasBuilder: bool)
    returns (ok: bool, o: Output, inside: bool, chainV0Emitted: bool, a1Crossings: nat)
    ensures hasBuilder ==> ok
    ensures ok ==> o == l.WriteFirst(out, source) && inside == l.Kept()
    ensures ok ==> chainV0Emitted == if l.startsLoop then l.Kept() else l.chainV0Emitted
    ensures ok ==> a1Crossings == l.r.a1Crossings + if l.Kept() != (l.inside != Odd(l.r.a0Crossings)) then 1 else 0
  {
    hide IsPolylineEdgeInside, IsPolylineVertexInside, EdgeEntries, Odd, Line.Kept, Line.StartIsolated;
    LineDecisions(l);
    ok, o, inside, chainV0Emitted := true, out, l.inside, l.chainV0Emitted;
    var m, r, a := l.model, l.r, l.a;
    var a0Inside := IsPolylineVertexInside(m, l.isUnion, l.invertB, inside, r.a0MatchesPolyline, r.a0MatchesPolygon);
    var isDegenerate := a.v0 == a.v1;
    a1Crossings := r.a1Crossings;
    inside := inside != Odd(r.a0Crossings);
    if inside != IsPolylineEdgeInside(m, l.isUnion, l.invertB, inside, r, isDegenerate) {
      inside := !inside;
      // Restores the semi-open state later.
      a1Crossings := a1Crossings + 1;
    }
    if l.startsLoop {
      // Whether this vertex is isolated is decided at the last edge.
      chainV0Emitted := inside;
    } else if !inside && l.v0EmittedMaxEdgeId < l.edge && !isDegenerate && l.containsV0 && a0Inside {
      if !hasBuilder {
        return false, o, inside, chainV0Emitted, a1Crossings;
      }
      o := o.AddPointEdge(a.v0, 1);
    }
    if inside || r.interiorCrossings > 0 {
      if !hasBuilder {
        return false, o, inside, chainV0Emitted, a1Crossings;
      }
      o := o.AddEdge(source, a, 1, ClipState(inside, l.invertB, l.reverseA), r.interiorCrossings, l.pending);
    }
  }

  // An override of the state is compensated by one more crossing at the end.
  lemma Restored(inside: bool, a0: nat, a1: nat, interior: nat, keep: bool)
    ensures var flipped := keep != (inside != Odd(a0));
            ((keep != Odd(interior)) != Odd(if flipped then a1 + 1 else a1)) == (inside != Odd(a0 + a1 + interior))
  {
  }

  // A polyline edge about to be processed: the operation, the state of the
  // chain, and what the crossings amount to.
  datatype Line = Line(model: Model, isUnion: bool, invertB: bool, reverseA: bool, inside: bool, v0EmittedMaxEdgeId: int,
                       chainV0Emitted: bool, startsLoop: bool, containsV0: bool, containsLast: bool, isLast: bool,
                       complete: bool, edge: nat, a: Edge, r: EdgeCrossings, pending: seq<Crosser>, crossed: bool)
  {
    // Is the part of the edge just past its start emitted?
    predicate Kept()
    {
      IsPolylineEdgeInside(model, isUnion, invertB, inside != Odd(r.a0Crossings), r, a.v0 == a.v1)
    }

    // Is its start emitted as an isolated vertex?
    predicate StartIsolated()
    {
      && !startsLoop && !Kept() && v0EmittedMaxEdgeId < edge && a.v0 != a.v1 && containsV0
      && IsPolylineVertexInside(model, isUnion, invertB, inside, r.a0MatchesPolyline, r.a0MatchesPolygon)
    }

    // Is the part just before its end emitted?
    predicate EndKept()
    {
      Kept() != Odd(r.interiorCrossings)
    }

    // Is its end, as the end of the chain, emitted as an isolated vertex?
    predicate EndIsolated()
    {
      && complete && a.v0 != a.v1 && isLast && !(if startsLoop then Kept() else chainV0Emitted)
      && !EndKept() && v0EmittedMaxEdgeId <= edge && containsLast
      && IsPolylineVertexInside(model, isUnion, invertB, inside != crossed, r.a1MatchesPolyline, r.a1MatchesPolygon)
    }

    // What is written for the edge.
    function WriteFirst(o: Output, source: Tag): Output
    {
      var state := ClipState(Kept(), invertB, reverseA);
      var o1 := if StartIsolated() then o.AddPointEdge(a.v0, 1) else o;
      if Kept() || r.interiorCrossings > 0 then o1.AddEdge(source, a, 1, state, r.interiorCrossings, pending) else o1
    }

    function Write(o: Output, source: Tag): Output
    {
      var o2 := WriteFirst(o, source);
      if EndIsolated() then o2.AddPointEdge(a.v1, 1) else o2
    }

    function Emissions(): seq<Emission>
    {
      var state := ClipState(Kept(), invertB, reverseA);
      If(StartIsolated(), PointEmission(a.v0, 1, state))
      + If(Kept() || r.interiorCrossings > 0, EdgeEmission(a, 1, state, r.interiorCrossings, pending))
      + If(EndIsolated(), PointEmission(a.v1, 1, state))
    }
  }

  // A polygon edge about to be processed.
  datatype Face = Face(op: Operation, invertB: bool, reverseA: bool, inside: bool, holes: map<ShapeEdgeId, bool>,
                       aId: ShapeEdgeId, a: Edge, r: EdgeCrossings, pending: seq<Crosser>)
  {
    predicate IsPoint()
    {
      a.v0 == a.v1
    }

    // Is the edge left to the second pass?
    predicate Deferred()
    {
      op.Defers(r, IsPoint())
    }

    // The semi-open state just past the start.
    predicate SemiOpenInside()
    {
      inside != Odd(r.a0Crossings)
    }

    // The first pass notes which loops of the other region are holes.
    function HolesSeen(): map<ShapeEdgeId, bool>
    {
      if !op.emitShared && r.a0LoopMatch.Some? then holes[r.a0LoopMatch.value := inside] else holes
    }

    function HolesAfter(): map<ShapeEdgeId, bool>
    {
      if !Deferred() then op.HolesAfter(r, IsPoint(), HolesSeen())
      else if r.polygonMatch.Some? && r.siblingMatch.Some? then
        HolesSeen()[r.polygonMatch.value := SemiOpenInside()][r.siblingMatch.value := SemiOpenInside()]
      else HolesSeen()
    }

    // Is the part of the edge just past its start emitted?
    predicate Kept()
    {
      op.Override(r, IsPoint(), aId, HolesSeen(), SemiOpenInside())
    }

    // Is the start emitted as a degenerate vertex?
    predicate StartIsolated()
    {
      op.emitShared && r.a0MatchesPolygon && !Kept() && (op.CreateDegen() || (op.KeepDegenB() && r.a0LoopMatch.Some?))
    }

    // Is the sibling of the edge emitted along with it?
    predicate WithSibling()
    {
      && r.siblingMatch.Some? && (op.CreateDegen() || op.KeepDegenB()) && aId !in HolesAfter()
      && !(r.polygonMatch.Some? && SemiOpenInside())
    }

    function State(): ClipState
    {
      ClipState(Kept(), invertB, reverseA)
    }

    function WriteFirst(o: Output, source: Tag): Output
    {
      var o1 := if StartIsolated() then o.AddPointEdge(a.v0, 2) else o;
      if WithSibling() then o1.AddEdge(source, Reversed(a), 2, State(), 0, []) else o1
    }

    // What is written for the edge.
    function Write(o: Output, source: Tag): Output
    {
      if Deferred() then o
      else
        var o2 := WriteFirst(o, source);
        if Kept() || r.interiorCrossings > 0 then o2.AddEdge(source, a, 2, State(), r.interiorCrossings, pending) else o2
    }

    function Emissions(): seq<Emission>
    {
      if Deferred() then []
      else
        If(StartIsolated(), PointEmission(a.v0, 2, State()))
        + If(WithSibling(), EdgeEmission(Reversed(a), 2, State(), 0, []))
        + If(Kept() || r.interiorCrossings > 0, EdgeEmission(a, 2, State(), r.interiorCrossings, pending))
    }
  }

  // The part of ProcessEdge2 that follows the scan of the crossings.
  method EmitFace(f: Face, out: Output, source: Tag, hasBuilder: bool)
    returns (ok: bool, o: Output, inside: bool, holes: map<ShapeEdgeId, bool>)
    requires f.IsPoint() ==> f.r.a0Crossings == f.r.a1Crossings == 0
    requires f.IsPoint() ==> f.r.polygonMatch.None? && f.r.siblingMatch.None?
    ensures hasBuilder ==> ok
    ensures ok ==> o == f.Write(out, source) && holes == f.HolesAfter()
    ensures ok ==> inside == (f.inside != (Odd(f.r.a0Crossings + f.r.a1Crossings + f.r.interiorCrossings)
                                           != (f.Deferred() && Odd(f.r.interiorCrossings))))
  {
    hide EdgeEntries, Operation.Override, Operation.HolesAfter, Face.Write;
    DeferredWritesNothing(f, out, source);
    ok, o, inside, holes := true, out, f.inside, f.holes;
    var r, a, op := f.r, f.a, f.op;
    var isPoint := a.v0 == a.v1;
    if !op.emitShared {
      if r.a0LoopMatch.Some? {
        holes := holes[r.a0LoopMatch.value := inside];
        if isPoint {
          return;
        }
      }
      if op.polygon != PolygonSemiOpen && isPoint && r.a0MatchesPolygon {
        return;
      }
    }
    inside := inside != Odd(r.a0Crossings);
    if !op.emitShared && (r.polygonMatch.Some? || r.siblingMatch.Some?) {
      if r.polygonMatch.Some? && r.siblingMatch.Some? {
        holes := holes[r.polygonMatch.value := inside][r.siblingMatch.value := inside];
      }
      inside := inside != Odd(r.a1Crossings);
      return;
    }
    ok, o, inside, holes := EmitOwnFace(f, out, source, hasBuilder, holes);
  }

  // An edge that is not left to the second pass.
  method EmitOwnFace(f: Face, out: Output, source: Tag, hasBuilder: bool, holesSeen: map<ShapeEdgeId, bool>)
    returns (ok: bool, o: Output, inside: bool, holes: map<ShapeEdgeId, bool>)
    requires !f.Deferred() && holesSeen == f.HolesSeen()
    ensures hasBuilder ==> ok
    ensures ok ==> o == f.Write(out, source) && holes == f.HolesAfter()
    ensures ok ==> inside == (f.inside != Odd(f.r.a0Crossings + f.r.a1Crossings + f.r.interiorCrossings))
  {
    hide EdgeEntries, Odd, Operation.Override, Operation.CreateDegen, Operation.KeepDegenB, Operation.HolesAfter;
    hide Face.HolesSeen, Face.Kept, Face.Deferred, Face.StartIsolated, Face.WithSibling, Face.HolesAfter, Face.SemiOpenInside;
    var r, a, op := f.r, f.a, f.op;
    FaceDecisions(f);
    ok, o, inside := true, out, f.inside != Odd(r.a0Crossings);
    var isBHole := r.polygonMatch.Some? && r.siblingMatch.Some? && inside;
    var semiOpenInside := inside;
    var a1Crossings := r.a1Crossings;
    inside, holes := op.Override(r, a.v0 == a.v1, f.aId, holesSeen, inside), op.HolesAfter(r, a.v0 == a.v1, holesSeen);
    Restored(f.inside, r.a0Crossings, r.a1Crossings, r.interiorCrossings, inside);
    if inside != semiOpenInside {
      // Restores the semi-open state later.
      a1Crossings := a1Crossings + 1;
    }
    if op.emitShared && r.a0MatchesPolygon && !inside
       && (op.CreateDegen() || (op.KeepDegenB() && r.a0LoopMatch.Some?)) {
      if !hasBuilder {
        return false, o, inside, holes;
      }
      o := o.AddPointEdge(a.v0, 2);
    }
    if r.siblingMatch.Some? && (op.CreateDegen() || op.KeepDegenB()) && f.aId !in holes && !isBHole {
      if !hasBuilder {
        return false, o, inside, holes;
      }
      o := o.AddEdge(source, Edge(a.v1, a.v0), 2, ClipState(inside, f.invertB, f.reverseA), 0, []);
    }
    assert o == f.WriteFirst(out, source);
    if inside || r.interiorCrossings > 0 {
      if !hasBuilder {
        return false, o, inside, holes;
      }
      o := o.AddEdge(source, a, 2, ClipState(inside, f.invertB, f.reverseA), r.interiorCrossings, f.pending);
    }
    inside := inside != Odd(r.interiorCrossings);
    inside := inside != Odd(a1Crossings);
  }

  lemma FaceKeepsGood(f: Face, o: Output, regions: seq<Index>, h: seq<Emission>, before: ClipState, source: Tag, end: bool)
    requires Good(o, regions, h, before) && before == ClipState(before.inside, f.invertB, f.reverseA)
    requires f.r.interiorCrossings > 0 ==> PendingFits(f.pending, f.r.interiorCrossings, regions)
    requires IsSource(regions, source, f.a, 2)
    ensures Good(f.Write(o, source), regions, h + f.Emissions(), before.(inside := end))
    ensures !f.Deferred() && f.r.interiorCrossings > 0 ==> source in f.Write(o, source).sourceIdMap
    ensures o.sourceIdMap.Keys <= f.Write(o, source).sourceIdMap.Keys
  {
    hide Good, PendingFits, IsSource, Odd, If, EdgeEmission, PointEmission, Output.AddEdge, Output.AddPointEdge;
    hide Face.Kept, Face.Deferred, Face.StartIsolated, Face.WithSibling, Face.HolesAfter;
    var state := f.State();
    GoodIgnoresInside(o, regions, h, before, end);
    GoodIgnoresInside(o, regions, h, before, f.Kept());
    AddNothing(h);
    if !f.Deferred() {
      var c := f.Kept() || f.r.interiorCrossings > 0;
      var p0 := If(f.StartIsolated(), PointEmission(f.a.v0, 2, state));
      var p1 := If(f.WithSibling(), EdgeEmission(Reversed(f.a), 2, state, 0, []));
      var p2 := If(c, EdgeEmission(f.a, 2, state, f.r.interiorCrossings, f.pending));
      var o1 := if f.StartIsolated() then o.AddPointEdge(f.a.v0, 2) else o;
      PointIfKeepsGood(f.StartIsolated(), o, regions, h, f.a.v0, 2, state);
      EdgeIfKeepsGood(f.WithSibling(), o1, regions, h + p0, source, Reversed(f.a), 2, state, 0, []);
      EdgeIfKeepsGood(c, f.WriteFirst(o, source), regions, (h + p0) + p1, source, f.a, 2, state, f.r.interiorCrossings,
                      f.pending);
      GoodIgnoresInside(f.Write(o, source), regions, ((h + p0) + p1) + p2, state, end);
      FourParts(h, p0, p1, p2);
    }
  }

  lemma LineDecisions(l: Line)
    ensures l.Kept() == IsPolylineEdgeInside(l.model, l.isUnion, l.invertB, l.inside != Odd(l.r.a0Crossings), l.r,
                                             l.a.v0 == l.a.v1)
    ensures l.StartIsolated()
            == (!l.startsLoop && !l.Kept() && l.v0EmittedMaxEdgeId < l.edge && l.a.v0 != l.a.v1 && l.containsV0
                && IsPolylineVertexInside(l.model, l.isUnion, l.invertB, l.inside, l.r.a0MatchesPolyline,
                                          l.r.a0MatchesPolygon))
    ensures l.EndKept() == (l.Kept() != Odd(l.r.interiorCrossings))
    ensures var emitted := if l.EndKept() then l.edge + 1 else l.v0EmittedMaxEdgeId;
            l.EndIsolated()
            == (l.complete && l.a.v0 != l.a.v1 && l.isLast && !(if l.startsLoop then l.Kept() else l.chainV0Emitted)
                && emitted <= l.edge && l.containsLast
                && IsPolylineVertexInside(l.model, l.isUnion, l.invertB, l.inside != l.crossed, l.r.a1MatchesPolyline,
                                          l.r.a1MatchesPolygon))
  {
  }

  lemma FaceDecisions(f: Face)
    requires !f.Deferred()
    ensures var inside := f.inside != Odd(f.r.a0Crossings);
            var create, keepB := f.op.CreateDegen(), f.op.KeepDegenB();
            && f.Kept() == f.op.Override(f.r, f.a.v0 == f.a.v1, f.aId, f.HolesSeen(), inside)
            && f.HolesAfter() == f.op.HolesAfter(f.r, f.a.v0 == f.a.v1, f.HolesSeen())
            && f.StartIsolated() == (f.op.emitShared && f.r.a0MatchesPolygon && !f.Kept()
                                     && (create || (keepB && f.r.a0LoopMatch.Some?)))
            && f.WithSibling() == (f.r.siblingMatch.Some? && (create || keepB) && f.aId !in f.HolesAfter()
                                   && !(f.r.polygonMatch.Some? && f.r.siblingMatch.Some? && inside))
  {
  }

  lemma UncrossedLine(l: Line)
    requires l.r == NO_CROSSINGS && l.pending == [] && !l.crossed
    ensures l.Emissions() == If(l.inside, EdgeEmission(l.a, 1, ClipState(true, l.invertB, l.reverseA), 0, []))
  {
  }

  lemma UncrossedFace(f: Face)
    requires f.r == NO_CROSSINGS && f.pending == []
    ensures f.Emissions() == If(f.inside, EdgeEmission(f.a, 2, ClipState(true, f.invertB, f.reverseA), 0, []))
    ensures !f.Deferred()
  {
  }

  // Away from edges of B the state past the start decides.
  lemma UnmatchedLine(l: Line)
    requires !l.r.matchesPolyline && l.r.polygonMatch.None? && l.r.siblingMatch.None? && l.a.v0 != l.a.v1
    ensures var kept := l.inside != Odd(l.r.a0Crossings);
            var e := EdgeEmission(l.a, 1, ClipState(kept, l.invertB, l.reverseA), l.r.interiorCrossings, l.pending);
            if kept || l.r.interiorCrossings > 0 then e in l.Emissions()
            else forall x :: x in l.Emissions() ==> x.edge.v0 == x.edge.v1
  {
    hide IsPolylineVertexInside, Logged, Odd;
  }

  lemma UnmatchedFace(f: Face)
    requires f.r.polygonMatch.None? && f.r.siblingMatch.None? && f.a.v0 != f.a.v1
    ensures var kept := f.inside != Odd(f.r.a0Crossings);
            var e := EdgeEmission(f.a, 2, ClipState(kept, f.invertB, f.reverseA), f.r.interiorCrossings, f.pending);
            if kept || f.r.interiorCrossings > 0 then e in f.Emissions()
            else forall x :: x in f.Emissions() ==> x.edge.v0 == x.edge.v1
  {
    hide Logged, Odd, Operation.CreateDegen, Operation.KeepDegenB;
  }

  lemma FourParts<T>(a: seq<T>, b: seq<T>, c: seq<T>, d: seq<T>)
    ensures ((a + b) + c) + d == a + (b + c + d)
  {
  }

  lemma DeferredWritesNothing(f: Face, o: Output, source: Tag)
    ensures f.Deferred() ==> f.Write(o, source) == o && f.Emissions() == []
  {
  }

  lemma LineKeepsGood(l: Line, o: Output, regions: seq<Index>, h: seq<Emission>, before: ClipState, source: Tag, end: bool)
    requires Good(o, regions, h, before) && before == ClipState(before.inside, l.invertB, l.reverseA)
    requires l.r.interiorCrossings > 0 ==> PendingFits(l.pending, l.r.interiorCrossings, regions)
    requires IsSource(regions, source, l.a, 1)
    ensures Good(l.Write(o, source), regions, h + l.Emissions(), before.(inside := end))
    ensures l.r.interiorCrossings > 0 ==> source in l.Write(o, source).sourceIdMap
    ensures o.sourceIdMap.Keys <= l.Write(o, source).sourceIdMap.Keys
  {
    hide Good, PendingFits, IsSource, Odd, If, EdgeEmission, PointEmission, Output.AddEdge, Output.AddPointEdge;
    hide Line.Kept, Line.EndKept, Line.StartIsolated, Line.EndIsolated;
    var state := ClipState(l.Kept(), l.invertB, l.reverseA);
    GoodIgnoresInside(o, regions, h, before, l.Kept());
    var c := l.Kept() || l.r.interiorCrossings > 0;
    var p0 := If(l.StartIsolated(), PointEmission(l.a.v0, 1, state));
    var p1 := If(c, EdgeEmission(l.a, 1, state, l.r.interiorCrossings, l.pending));
    var p2 := If(l.EndIsolated(), PointEmission(l.a.v1, 1, state));
    var o1 := if l.StartIsolated() then o.AddPointEdge(l.a.v0, 1) else o;
    PointIfKeepsGood(l.StartIsolated(), o, regions, h, l.a.v0, 1, state);
    EdgeIfKeepsGood(c, o1, regions, h + p0, source, l.a, 1, state, l.r.interiorCrossings, l.pending);
    PointIfKeepsGood(l.EndIsolated(), l.WriteFirst(o, source), regions, (h + p0) + p1, l.a.v1, 1, state);
    GoodIgnoresInside(l.Write(o, source), regions, ((h + p0) + p1) + p2, state, end);
    FourParts(h, p0, p1, p2);
  }

  lemma NothingScanned(crossings: seq<IndexCrossing>, id: ShapeEdgeId, k: nat, side: Side, a: Edge, s: Scan, w: World)
    requires ValidCrossings(crossings, side.bIndex) && k < |crossings| && s.r == NO_CROSSINGS && s.pending == []
    ensures Sourced(a, crossings, id, k, side, s) && FromCrossings(crossings, id, k, side, s.pending)
    ensures !Odd(0) && !PolygonParity(s.pending, w)
  {
  }

  // A segment ends before the sentinel at the latest.
  lemma EndInside(crossings: seq<IndexCrossing>, id: ShapeEdgeId, k: nat, side: Side, pending: seq<Crosser>)
    requires ValidCrossings(crossings, side.bIndex) && k < |crossings| && id != SENTINEL
    requires SegmentEnd(crossings, id, k) < |crossings|
    requires FromCrossings(crossings, id, SegmentEnd(crossings, id, k), side, pending)
    ensures forall i :: 0 <= i < |pending| ==> pending[i].tag.BySource?
    ensures FromCrossings(crossings, id, |crossings| - 1, side, pending)
  {
    forall i | 0 <= i < |pending|
      ensures IsLoggedCrossing(crossings, id, |crossings| - 1, side, pending[i])
    {
      assert IsLoggedCrossing(crossings, id, SegmentEnd(crossings, id, k), side, pending[i]);
    }
  }

}
