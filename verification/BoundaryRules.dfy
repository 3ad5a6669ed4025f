/**
 The boundary models: which vertices and edges of one region belong to the
 other.
 */
module BoundaryRules {
  import opened Common
  import opened Shapes
  import opened EdgeScan

  // ----- polylines -----

  // Is a polyline vertex of A inside B?  "inside" is the semi-open answer for
  // polygons, after inversion.
  function IsPolylineVertexInside(m: Model, isUnion: bool, invertB: bool, inside: bool,
                                  matchesPolyline: bool, matchesPolygon: bool): bool
  {
    var contained := inside != invertB;
    var c :=
      if matchesPolyline && !isUnion then true
      else if matchesPolygon && m.polygon != PolygonSemiOpen then m.polygon == PolygonClosed
      else contained;
    c != invertB
  }

  // Is a polyline edge of A, just past its start, inside B?
  function IsPolylineEdgeInside(m: Model, isUnion: bool, invertB: bool, inside: bool, r: EdgeCrossings,
                                isDegenerate: bool): bool
  {
    var contained := inside != invertB;
    var c :=
      if r.matchesPolyline && !isUnion then true
      else if isDegenerate then
        (r.a0MatchesPolyline && !isUnion) ||
        if m.polygon != PolygonSemiOpen && r.a0MatchesPolygon then m.polygon == PolygonClosed else contained
      else if r.polygonMatch.Some? then
        if m.polygon == PolygonSemiOpen && r.siblingMatch.Some? then contained else m.polygon != PolygonOpen
      else if r.siblingMatch.Some? then m.polygon == PolygonClosed
      else contained;
    c != invertB
  }

  // Polygons contain their edges unless they are open, and reversed edges only
  // if they are closed; otherwise an edge runs through the inside or outside.
  // "along" and "against" say how polygon edges of B coincide with the edge.
  predicate EdgeInPolygons(m: PolygonModel, contained: bool, along: bool, against: bool)
  {
    match m
    case PolygonOpen => contained && !along && !against
    case PolygonSemiOpen => if along == against then contained else along
    case PolygonClosed => contained || along || against
  }

  // ----- polygons -----

  // The operation, as ProcessEdge2 looks at it.
  datatype Operation = Operation(polygon: PolygonModel, invertA: bool, invertB: bool, emitShared: bool) {
    // Degeneracies come into being only in closed intersections and open unions.
    predicate CreateDegen()
    {
      (polygon == PolygonClosed && !invertA && !invertB) || (polygon == PolygonOpen && invertA && invertB)
    }

    // Degeneracies survive the subtraction of an open boundary.
    predicate KeepDegenA()
    {
      polygon == PolygonOpen && invertB
    }

    predicate KeepDegenB()
    {
      polygon == PolygonOpen && invertA
    }

    // If one region is inverted, matching edges and siblings change roles.
    function Oriented(r: EdgeCrossings): EdgeCrossings
    {
      if invertA != invertB then r.(polygonMatch := r.siblingMatch, siblingMatch := r.polygonMatch) else r
    }

    // Is the edge left to the second pass?
    predicate Defers(r: EdgeCrossings, isPoint: bool)
    {
      && !emitShared
      && (r.polygonMatch.Some? || r.siblingMatch.Some? ||
          (isPoint && (r.a0LoopMatch.Some? || (polygon != PolygonSemiOpen && r.a0MatchesPolygon))))
    }

    // The boundary model's say about a polygon edge; "inside" is the semi-open
    // answer for its initial part.
    function Override(r: EdgeCrossings, isPoint: bool, aId: ShapeEdgeId, holes: map<ShapeEdgeId, bool>, inside: bool): bool
    {
      if isPoint then
        if r.a0LoopMatch.Some? then CreateDegen() || KeepDegenA() || inside == Lookup(holes, r.a0LoopMatch.value)
        else if r.a0MatchesPolygon && polygon != PolygonSemiOpen then CreateDegen() || KeepDegenA()
        else inside
      else if r.polygonMatch.Some? then
        if aId in holes then CreateDegen() || KeepDegenA() || (r.siblingMatch.None? || inside) == holes[aId]
        else inside || r.siblingMatch.None? || CreateDegen() || KeepDegenB()
      else if r.siblingMatch.Some? then
        if aId in holes then (CreateDegen() || KeepDegenA()) && !holes[aId] else CreateDegen()
      else inside
    }

    // operator[] of the table of holes is used, so a missing entry is created.
    function HolesAfter(r: EdgeCrossings, isPoint: bool, holes: map<ShapeEdgeId, bool>): map<ShapeEdgeId, bool>
    {
      if isPoint && r.a0LoopMatch.Some? && !CreateDegen() && !KeepDegenA() && r.a0LoopMatch.value !in holes then
        holes[r.a0LoopMatch.value := false]
      else holes
    }
  }

  function Lookup(holes: map<ShapeEdgeId, bool>, id: ShapeEdgeId): bool
  {
    if id in holes then holes[id] else false
  }
}
