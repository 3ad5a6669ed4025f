/**
 What the crossings of one edge with the opposite region amount to:
 CrossingIterator and ProcessEdgeCrossings.
 */
module EdgeScan {
  import opened Common
  import opened Shapes

  datatype PolygonModel = PolygonOpen | PolygonSemiOpen | PolygonClosed
  datatype PolylineModel = PolylineOpen | PolylineSemiOpen | PolylineClosed

  datatype Model = Model(polygon: PolygonModel, polyline: PolylineModel, loopsHaveBoundaries: bool)

  predicate Odd(n: int)
  {
    n % 2 == 1
  }

  // ----- the log of the clipping process -----

  // The other edge of a logged crossing, by where it comes from or by its
  // input edge id; or a marker that sets the clipper's state.
  datatype Tag = SetInside | SetInvertB | SetReverseA | BySource(region: nat, id: ShapeEdgeId) | ByInput(input: nat)

  datatype Crosser = Crosser(tag: Tag, leftToRight: bool)

  // ----- one crossing -----

  // Does walking along edge a past this crossing change whether the polygons
  // of the opposite region contain the current point?
  predicate Toggles(a: Edge, x: IndexCrossing, bIndex: Index)
    requires HasEdge(bIndex, x.b)
  {
    var b := bIndex[x.b.shape].edges[x.b.edge];
    bIndex[x.b.shape].dimension == 2 && (x.isInterior || MeetsAtVertex(a, b, x))
  }

  predicate MeetsAtVertex(a: Edge, b: Edge, x: IndexCrossing)
  {
    a.v0 != a.v1 && b.v0 != b.v1 && (a == b || a == Reversed(b) || x.isVertexCrossing)
  }

  function Reversed(e: Edge): Edge
  {
    Edge(e.v1, e.v0)
  }

  // ----- EdgeCrossingResult -----

  datatype EdgeCrossings = EdgeCrossings(
    matchesPolyline: bool, a0MatchesPolyline: bool, a1MatchesPolyline: bool,
    a0MatchesPolygon: bool, a1MatchesPolygon: bool,
    polygonMatch: Option<ShapeEdgeId>, siblingMatch: Option<ShapeEdgeId>, a0LoopMatch: Option<ShapeEdgeId>,
    a0Crossings: nat, a1Crossings: nat, interiorCrossings: nat)

  const NO_CROSSINGS := EdgeCrossings(false, false, false, false, false, None, None, None, 0, 0, 0)

  function PolygonStep(a: Edge, b: Edge, x: IndexCrossing, r: EdgeCrossings): (t: EdgeCrossings)
    ensures t.interiorCrossings == r.interiorCrossings
    ensures t.a0Crossings + t.a1Crossings == r.a0Crossings + r.a1Crossings + if MeetsAtVertex(a, b, x) then 1 else 0
  {
    var r1 :=
      if a.v0 == a.v1 || b.v0 == b.v1 then
        if a.v0 == b.v0 && a.v0 == b.v1 then r.(a0LoopMatch := Some(x.b)) else r
      else if a == b then r.(a0Crossings := r.a0Crossings + 1, polygonMatch := Some(x.b))
      else if a == Reversed(b) then r.(a0Crossings := r.a0Crossings + 1, siblingMatch := Some(x.b))
      else if !x.isVertexCrossing then r
      else if a.v0 == b.v0 || a.v0 == b.v1 then r.(a0Crossings := r.a0Crossings + 1)
      else r.(a1Crossings := r.a1Crossings + 1);
    var r2 := if a.v0 == b.v0 || a.v0 == b.v1 then r1.(a0MatchesPolygon := true) else r1;
    if a.v1 == b.v0 || a.v1 == b.v1 then r2.(a1MatchesPolygon := true) else r2
  }

  // ----- the chain that CrossingIterator remembers -----

  // The chain information is dropped only when the iterator moves to another
  // shape, so it can belong to an earlier edge of the same shape.
  datatype ChainCache = ChainCache(shape: int, info: Option<Chain>)

  function Moved(cache: ChainCache, x: IndexCrossing): ChainCache
  {
    if x.a != SENTINEL && x.b.shape != cache.shape then ChainCache(x.b.shape, None) else cache
  }

  // b_chain_info()
  function Filled(cache: ChainCache, shape: Shape, edge: nat): (c: ChainCache)
    requires shape.Valid() && edge < |shape.edges|
    ensures c.info.Some?
  {
    if cache.info.Some? then cache else cache.(info := Some(shape.chains[shape.ChainOf(edge)]))
  }

  ghost predicate CacheFits(cache: ChainCache, bIndex: Index)
  {
    cache.info.Some? ==> 0 <= cache.shape < |bIndex| && cache.info.value in bIndex[cache.shape].chains
  }

  // PolylineEdgeContainsVertex; a non-closed polyline looks at "chain".
  function ContainsVertex(m: Model, shape: Shape, edge: nat, chain: Chain, v: Point, dimension: nat): bool
    requires shape.Valid() && edge < |shape.edges| && chain in shape.chains
  {
    var b := shape.edges[edge];
    if m.polyline == PolylineClosed then true
    else if edge == chain.start + chain.length - 1 && v == b.v1 && (dimension == 0 || edge > 0 || v != b.v0) then false
    else if m.polyline != PolylineOpen || edge > chain.start then true
    else if v != b.v0 then true
    else if m.loopsHaveBoundaries then false
    else
      LastEdgeExists(shape, chain);
      chain.length > 0 && v == shape.edges[chain.start + chain.length - 1].v1
  }

  lemma LastEdgeExists(shape: Shape, chain: Chain)
    requires shape.Valid() && chain in shape.chains
    ensures chain.start + chain.length <= |shape.edges|
  {
    var c :| 0 <= c < |shape.chains| && shape.chains[c] == chain;
    ChainFits(shape, c);
  }

  // The remembered chain can be the wrong one: with the polylines AB and CD in
  // one shape, the last vertex D of the second one counts as contained once
  // the first has been looked at, although no half-open polyline contains
  // its last vertex.
  lemma StaleChainChangesAnswer(a: Point, b: Point, c: Point, d: Point)
    requires c != d
    ensures var shape := Shape(1, [Edge(a, b), Edge(c, d)], [Chain(0, 1), Chain(1, 1)]);
            var m := Model(PolygonSemiOpen, PolylineSemiOpen, true);
            && shape.Valid()
            && Filled(Filled(ChainCache(0, None), shape, 0), shape, 1) == ChainCache(0, Some(Chain(0, 1)))
            && Filled(ChainCache(0, None), shape, 1) == ChainCache(0, Some(Chain(1, 1)))
            && ContainsVertex(m, shape, 1, Chain(0, 1), d, 1)
            && !ContainsVertex(m, shape, 1, Chain(1, 1), d, 1)
  {
    var shape := Shape(1, [Edge(a, b), Edge(c, d)], [Chain(0, 1), Chain(1, 1)]);
    assert shape.chains[0] == Chain(0, 1) && shape.chains[1] == Chain(1, 1);
    assert InChain(shape.chains[0], 0) && InChain(shape.chains[1], 1);
    ChainOfIs(shape, 0, 0);
    ChainOfIs(shape, 1, 1);
  }

  // ----- the crossings of an edge -----

  // The side of the edge's owner that matters for its crossings; lines of B
  // are dropped when B is inverted with respect to the result.
  datatype Side = Side(model: Model, aDimension: nat, bRegion: nat, bIndex: Index, dropLines: bool)

  datatype Scan = Scan(r: EdgeCrossings, pending: seq<Crosser>, cache: ChainCache)

  // What a polyline edge b adds; "chain" is the one looked at.
  function LineResult(m: Model, a: Edge, shape: Shape, edge: nat, chain: Chain, r: EdgeCrossings): (t: EdgeCrossings)
    requires shape.Valid() && edge < |shape.edges| && chain in shape.chains
    ensures t == r.(matchesPolyline := t.matchesPolyline, a0MatchesPolyline := t.a0MatchesPolyline,
                    a1MatchesPolyline := t.a1MatchesPolyline)
  {
    var b := shape.edges[edge];
    var at0, at1 := a.v0 == b.v0 || a.v0 == b.v1, a.v1 == b.v0 || a.v1 == b.v1;
    r.(matchesPolyline := r.matchesPolyline || a == b || a == Reversed(b),
       a0MatchesPolyline := r.a0MatchesPolyline || (at0 && ContainsVertex(m, shape, edge, chain, a.v0, 1)),
       a1MatchesPolyline := r.a1MatchesPolyline || (at1 && ContainsVertex(m, shape, edge, chain, a.v1, 1)))
  }

  function LineStep(side: Side, a: Edge, x: IndexCrossing, s: Scan): (t: Scan)
    requires ValidIndex(side.bIndex) && HasEdge(side.bIndex, x.b)
    requires CacheFits(s.cache, side.bIndex) && s.cache.shape == x.b.shape
    ensures t.pending == s.pending && CacheFits(t.cache, side.bIndex) && t.cache.shape == s.cache.shape
    ensures t.r == s.r.(matchesPolyline := t.r.matchesPolyline, a0MatchesPolyline := t.r.a0MatchesPolyline,
                        a1MatchesPolyline := t.r.a1MatchesPolyline)
  {
    var shape := side.bIndex[x.b.shape];
    var b := shape.edges[x.b.edge];
    var touches := a.v0 == b.v0 || a.v0 == b.v1 || a.v1 == b.v0 || a.v1 == b.v1;
    var cache := if touches && side.model.polyline != PolylineClosed then Filled(s.cache, shape, x.b.edge) else s.cache;
    var chain := if cache.info.Some? then cache.info.value else shape.chains[shape.ChainOf(x.b.edge)];
    s.(cache := cache, r := LineResult(side.model, a, shape, x.b.edge, chain, s.r))
  }

  // Is an interior crossing with an edge of this dimension logged?
  predicate IsLogged(side: Side, bDimension: nat)
  {
    side.aDimension <= bDimension && !(side.dropLines && bDimension == 1)
  }

  function Step(side: Side, a: Edge, x: IndexCrossing, s: Scan): Scan
    requires ValidIndex(side.bIndex) && HasEdge(side.bIndex, x.b)
    requires CacheFits(s.cache, side.bIndex) && s.cache.shape == x.b.shape
  {
    var shape := side.bIndex[x.b.shape];
    if shape.dimension == 0 then s
    else if x.isInterior then
      var pending :=
        if IsLogged(side, shape.dimension) then s.pending + [Crosser(BySource(side.bRegion, x.b), x.leftToRight)]
        else s.pending;
      s.(pending := pending,
         r := s.r.(interiorCrossings := s.r.interiorCrossings + if shape.dimension == 1 then 2 else 1))
    else if shape.dimension == 1 then if side.aDimension == 2 then s else LineStep(side, a, x, s)
    else s.(r := PolygonStep(a, shape.edges[x.b.edge], x, s.r))
  }

  lemma StepKeepsCache(side: Side, a: Edge, x: IndexCrossing, s: Scan)
    requires ValidIndex(side.bIndex) && HasEdge(side.bIndex, x.b)
    requires CacheFits(s.cache, side.bIndex) && s.cache.shape == x.b.shape
    ensures CacheFits(Step(side, a, x, s).cache, side.bIndex) && Step(side, a, x, s).cache.shape == x.b.shape
  {
  }

  // The iterator at position k, with its cache for that position.
  ghost predicate At(bIndex: Index, crossings: seq<IndexCrossing>, k: nat, cache: ChainCache)
  {
    && ValidIndex(bIndex) && ValidCrossings(crossings, bIndex) && k < |crossings|
    && CacheFits(cache, bIndex)
    && (k < |crossings| - 1 ==> cache.shape == crossings[k].b.shape)
  }

  lemma MovedFits(bIndex: Index, crossings: seq<IndexCrossing>, k: nat, cache: ChainCache)
    requires ValidIndex(bIndex) && ValidCrossings(crossings, bIndex) && k < |crossings|
    requires CacheFits(cache, bIndex)
    ensures At(bIndex, crossings, k, Moved(cache, crossings[k]))
  {
  }

  // All crossings of edge "id" from position k on.
  function ScanFrom(side: Side, id: ShapeEdgeId, a: Edge, crossings: seq<IndexCrossing>, k: nat, s: Scan): (t: Scan)
    requires id != SENTINEL && At(side.bIndex, crossings, k, s.cache)
    ensures At(side.bIndex, crossings, SegmentEnd(crossings, id, k), t.cache)
    decreases |crossings| - k
  {
    if crossings[k].a != id then s
    else
      StepKeepsCache(side, a, crossings[k], s);
      var u := Step(side, a, crossings[k], s);
      MovedFits(side.bIndex, crossings, k + 1, u.cache);
      ScanFrom(side, id, a, crossings, k + 1, u.(cache := Moved(u.cache, crossings[k + 1])))
  }

  // ----- is the remembered chain the right one? -----

  // Does this crossing look at the chain of its edge?
  predicate LooksAtChain(side: Side, a: Edge, x: IndexCrossing)
    requires HasEdge(side.bIndex, x.b)
  {
    var b := side.bIndex[x.b.shape].edges[x.b.edge];
    && side.bIndex[x.b.shape].dimension == 1 && !x.isInterior && side.aDimension != 2
    && side.model.polyline != PolylineClosed
    && (a.v0 == b.v0 || a.v0 == b.v1 || a.v1 == b.v0 || a.v1 == b.v1)
  }

  ghost predicate FindsOwnChain(bIndex: Index, b: ShapeEdgeId, cache: ChainCache)
    requires ValidIndex(bIndex) && HasEdge(bIndex, b)
  {
    var shape := bIndex[b.shape];
    Filled(cache, shape, b.edge).info == Some(shape.chains[shape.ChainOf(b.edge)])
  }

  // Every crossing of the edge from position k on that looks at a chain looks at
  // that of its own edge.
  ghost predicate ScansFresh(side: Side, id: ShapeEdgeId, a: Edge, crossings: seq<IndexCrossing>, k: nat, s: Scan)
    requires id != SENTINEL && At(side.bIndex, crossings, k, s.cache)
    decreases |crossings| - k
  {
    crossings[k].a == id ==>
      && (LooksAtChain(side, a, crossings[k]) ==> FindsOwnChain(side.bIndex, crossings[k].b, s.cache))
      && (StepKeepsCache(side, a, crossings[k], s);
          var u := Step(side, a, crossings[k], s);
          MovedFits(side.bIndex, crossings, k + 1, u.cache);
          ScansFresh(side, id, a, crossings, k + 1, u.(cache := Moved(u.cache, crossings[k + 1]))))
  }

  function Unscanned(crossings: seq<IndexCrossing>): Scan
    requires 0 < |crossings|
  {
    Scan(NO_CROSSINGS, [], Moved(ChainCache(-1, None), crossings[0]))
  }

  // From the first crossing on.
  ghost predicate StartsFresh(side: Side, id: ShapeEdgeId, a: Edge, crossings: seq<IndexCrossing>)
    requires ValidIndex(side.bIndex)
  {
    id != SENTINEL && ValidCrossings(crossings, side.bIndex) ==>
      (MovedFits(side.bIndex, crossings, 0, ChainCache(-1, None));
       ScansFresh(side, id, a, crossings, 0, Unscanned(crossings)))
  }

  ghost predicate AlwaysFresh(side: Side)
    requires ValidIndex(side.bIndex)
  {
    forall id, a, crossings :: StartsFresh(side, id, a, crossings)
  }

  // At most one chain has edges.
  ghost predicate OneChain(shape: Shape)
  {
    forall c, d :: 0 <= c < |shape.chains| && 0 <= d < |shape.chains| ==>
                     shape.chains[c].length > 0 && shape.chains[d].length > 0 ==> c == d
  }

  // Chains matter to points and polylines unless polylines are closed; then no
  // polyline shape has edges in more than one chain.
  ghost predicate NeverStale(side: Side)
  {
    || side.aDimension == 2 || side.model.polyline == PolylineClosed
    || forall s :: 0 <= s < |side.bIndex| && side.bIndex[s].dimension == 1 ==> OneChain(side.bIndex[s])
  }

  // What is remembered is the chain of some edge.
  ghost predicate Remembered(cache: ChainCache)
  {
    cache.info.Some? ==> cache.info.value.length > 0
  }

  lemma OneChainIsOwn(bIndex: Index, b: ShapeEdgeId, cache: ChainCache)
    requires ValidIndex(bIndex) && HasEdge(bIndex, b) && CacheFits(cache, bIndex) && Remembered(cache)
    requires cache.shape == b.shape && OneChain(bIndex[b.shape])
    ensures FindsOwnChain(bIndex, b, cache)
  {
  }

  lemma StepRemembers(side: Side, a: Edge, x: IndexCrossing, s: Scan)
    requires ValidIndex(side.bIndex) && HasEdge(side.bIndex, x.b)
    requires CacheFits(s.cache, side.bIndex) && s.cache.shape == x.b.shape && Remembered(s.cache)
    ensures Remembered(Step(side, a, x, s).cache)
  {
    hide PolygonStep, ContainsVertex, CacheFits, IsLogged;
  }

  lemma {:induction false} OneChainStaysFresh(side: Side, id: ShapeEdgeId, a: Edge, crossings: seq<IndexCrossing>, k: nat,
                                              s: Scan)
    requires id != SENTINEL && At(side.bIndex, crossings, k, s.cache) && Remembered(s.cache) && NeverStale(side)
    ensures ScansFresh(side, id, a, crossings, k, s)
    decreases |crossings| - k
  {
    hide Step, CacheFits, FindsOwnChain, OneChain, Remembered;
    if crossings[k].a == id {
      if LooksAtChain(side, a, crossings[k]) {
        OneChainIsOwn(side.bIndex, crossings[k].b, s.cache);
      }
      StepKeepsCache(side, a, crossings[k], s);
      StepRemembers(side, a, crossings[k], s);
      var u := Step(side, a, crossings[k], s);
      MovedFits(side.bIndex, crossings, k + 1, u.cache);
      var next := u.(cache := Moved(u.cache, crossings[k + 1]));
      MovedRemembers(u.cache, crossings[k + 1]);
      OneChainStaysFresh(side, id, a, crossings, k + 1, next);
    }
  }

  lemma MovedRemembers(cache: ChainCache, x: IndexCrossing)
    requires Remembered(cache)
    ensures Remembered(Moved(cache, x))
  {
  }

  // Two crossings with edges of different chains of a polyline shape.
  function TwoCrossings(s: nat, e: nat, f: nat): seq<IndexCrossing>
  {
    [IndexCrossing(ShapeEdgeId(0, 0), ShapeEdgeId(s, e), false, false, false),
     IndexCrossing(ShapeEdgeId(0, 0), ShapeEdgeId(s, f), false, false, false),
     IndexCrossing(SENTINEL, SENTINEL, false, false, false)]
  }

  // An edge between the starts of two chains finds the first chain at both.
  lemma TwoChainsGoStale(side: Side, s: nat, c: nat, d: nat)
    requires ValidIndex(side.bIndex) && side.aDimension != 2 && side.model.polyline != PolylineClosed
    requires s < |side.bIndex| && side.bIndex[s].dimension == 1
    requires var chains := side.bIndex[s].chains;
             c < |chains| && d < |chains| && c != d && chains[c].length > 0 && chains[d].length > 0
    ensures !AlwaysFresh(side)
  {
    hide CacheFits, ContainsVertex;
    var shape := side.bIndex[s];
    var e, f := shape.chains[c].start, shape.chains[d].start;
    ChainOfIs(shape, e, c);
    ChainOfIs(shape, f, d);
    DifferentChains(shape, c, d);
    var a, xs, id := Edge(shape.edges[e].v0, shape.edges[f].v0), TwoCrossings(s, e, f), ShapeEdgeId(0, 0);
    MovedFits(side.bIndex, xs, 0, ChainCache(-1, None)) by {
      NothingRemembered(side.bIndex);
    }
    var s0 := Unscanned(xs);
    StepKeepsCache(side, a, xs[0], s0);
    var u := Step(side, a, xs[0], s0);
    assert u.cache == ChainCache(s, Some(shape.chains[c]));
    MovedFits(side.bIndex, xs, 1, u.cache);
    assert !FindsOwnChain(side.bIndex, xs[1].b, u.cache);
    assert LooksAtChain(side, a, xs[1]);
    assert !ScansFresh(side, id, a, xs, 1, u);
    assert !StartsFresh(side, id, a, xs);
  }

  lemma NothingRemembered(bIndex: Index)
    ensures CacheFits(ChainCache(-1, None), bIndex)
  {
  }

  lemma DifferentChains(shape: Shape, c: nat, d: nat)
    requires shape.Valid() && c < |shape.chains| && d < |shape.chains| && c != d
    requires shape.chains[c].length > 0 && shape.chains[d].length > 0
    ensures shape.chains[c] != shape.chains[d]
  {
    if c < d {
      ChainsInOrder(shape.chains, c, d);
    } else {
      ChainsInOrder(shape.chains, d, c);
    }
  }

  // Every scan over any crossings looks at the right chains if and only if no
  // polyline shape has edges in more than one chain, or chains do not matter.
  lemma FreshIffOneChainEach(side: Side)
    requires ValidIndex(side.bIndex)
    ensures AlwaysFresh(side) <==> NeverStale(side)
  {
    hide ScansFresh, OneChain;
    if NeverStale(side) {
      forall id, a, crossings
        ensures StartsFresh(side, id, a, crossings)
      {
        if id != SENTINEL && ValidCrossings(crossings, side.bIndex) {
          MovedFits(side.bIndex, crossings, 0, ChainCache(-1, None));
          OneChainStaysFresh(side, id, a, crossings, 0, Unscanned(crossings));
        }
      }
    } else {
      var s :| 0 <= s < |side.bIndex| && side.bIndex[s].dimension == 1 && !OneChain(side.bIndex[s]);
      TwoChainsIn(side.bIndex[s]);
      var c, d :| 0 <= c < |side.bIndex[s].chains| && 0 <= d < |side.bIndex[s].chains|
                  && side.bIndex[s].chains[c].length > 0 && side.bIndex[s].chains[d].length > 0 && c != d;
      TwoChainsGoStale(side, s, c, d);
    }
  }

  lemma TwoChainsIn(shape: Shape)
    requires !OneChain(shape)
    ensures exists c, d :: 0 <= c < |shape.chains| && 0 <= d < |shape.chains| && shape.chains[c].length > 0
                           && shape.chains[d].length > 0 && c != d
  {
  }

  // The two polylines AB and CD in one shape.
  function TwoPolylines(a: Point, b: Point, c: Point, d: Point): Shape
  {
    Shape(1, [Edge(a, b), Edge(c, d)], [Chain(0, 1), Chain(1, 1)])
  }

  function LineSide(bIndex: Index): Side
  {
    Side(Model(PolygonSemiOpen, PolylineSemiOpen, true), 1, 1, bIndex, false)
  }

  // Does the scan find that some polyline of B contains the end of the edge?
  ghost predicate EndIsOnPolyline(side: Side, a: Edge, crossings: seq<IndexCrossing>)
    requires ValidIndex(side.bIndex) && ValidCrossings(crossings, side.bIndex)
  {
    MovedFits(side.bIndex, crossings, 0, ChainCache(-1, None));
    ScanFrom(side, ShapeEdgeId(0, 0), a, crossings, 0, Unscanned(crossings)).r.a1MatchesPolyline
  }

  // For the edge AD, which meets both, the answer for its end D depends on which
  // of the two is looked at first, although no half-open polyline contains its
  // last vertex.
  lemma AnswerDependsOnOrder(a: Point, b: Point, c: Point, d: Point)
    requires d != a && d != b && d != c
    ensures var bIndex := [TwoPolylines(a, b, c, d)];
            && ValidIndex(bIndex)
            && ValidCrossings(TwoCrossings(0, 0, 1), bIndex) && ValidCrossings(TwoCrossings(0, 1, 0), bIndex)
            && EndIsOnPolyline(LineSide(bIndex), Edge(a, d), TwoCrossings(0, 0, 1))
            && !EndIsOnPolyline(LineSide(bIndex), Edge(a, d), TwoCrossings(0, 1, 0))
  {
    hide CacheFits;
    StaleChainChangesAnswer(a, b, c, d);
    var shape, bIndex := TwoPolylines(a, b, c, d), [TwoPolylines(a, b, c, d)];
    assert ValidIndex(bIndex);
    NothingRemembered(bIndex);
    FirstOfTwo(shape, a, d, 0, 1);
    FirstOfTwo(shape, a, d, 1, 0);
  }

  // A scan over two crossings.
  lemma FirstOfTwo(shape: Shape, a: Point, d: Point, e: nat, f: nat)
    requires shape.Valid() && shape.dimension == 1 && e < |shape.edges| && f < |shape.edges|
    ensures var bIndex, xs := [shape], TwoCrossings(0, e, f);
            && ValidIndex(bIndex) && ValidCrossings(xs, bIndex)
            && var s0 := Unscanned(xs);
               var s1 := LineStep(LineSide(bIndex), Edge(a, d), xs[0], s0);
               EndIsOnPolyline(LineSide(bIndex), Edge(a, d), xs)
               == LineStep(LineSide(bIndex), Edge(a, d), xs[1], s1).r.a1MatchesPolyline
  {
    hide LineStep;
    var bIndex, xs := [shape], TwoCrossings(0, e, f);
    var side, s0 := LineSide(bIndex), Unscanned(xs);
    MovedFits(bIndex, xs, 0, ChainCache(-1, None));
    var s1 := Step(side, Edge(a, d), xs[0], s0);
    StepKeepsCache(side, Edge(a, d), xs[0], s0);
    MovedFits(bIndex, xs, 1, s1.cache);
    assert s1.(cache := Moved(s1.cache, xs[1])) == s1;
    var s2 := Step(side, Edge(a, d), xs[1], s1);
    StepKeepsCache(side, Edge(a, d), xs[1], s1);
    MovedFits(bIndex, xs, 2, s2.cache);
    assert s2.(cache := Moved(s2.cache, xs[2])) == s2;
    var id := ShapeEdgeId(0, 0);
    assert ScanFrom(side, id, Edge(a, d), xs, 2, s2) == s2;
    assert ScanFrom(side, id, Edge(a, d), xs, 1, s1) == s2;
    assert ScanFrom(side, id, Edge(a, d), xs, 0, s0) == s2;
  }

  // ----- what the result means -----

  // Parity of the polygon crossings at positions k up to e.
  function CrossedParity(a: Edge, crossings: seq<IndexCrossing>, k: nat, e: nat, bIndex: Index): bool
    requires k <= e <= |crossings| && forall j :: k <= j < e ==> HasEdge(bIndex, crossings[j].b)
    decreases e - k
  {
    if k == e then false else Toggles(a, crossings[k], bIndex) != CrossedParity(a, crossings, k + 1, e, bIndex)
  }

  // ----- one step, field by field -----

  predicate IsMatch(a: Edge, x: IndexCrossing, bIndex: Index, other: Edge)
    requires HasEdge(bIndex, x.b)
  {
    bIndex[x.b.shape].dimension == 2 && !x.isInterior && a.v0 != a.v1 && bIndex[x.b.shape].edges[x.b.edge] == other
  }

  predicate IsLoopMatch(a: Edge, x: IndexCrossing, bIndex: Index)
    requires HasEdge(bIndex, x.b)
  {
    bIndex[x.b.shape].dimension == 2 && !x.isInterior && bIndex[x.b.shape].edges[x.b.edge] == Edge(a.v0, a.v0)
  }

  predicate IsInterior(x: IndexCrossing, bIndex: Index)
    requires HasEdge(bIndex, x.b)
  {
    x.isInterior && bIndex[x.b.shape].dimension != 0
  }

  lemma StepInterior(side: Side, a: Edge, x: IndexCrossing, s: Scan)
    requires ValidIndex(side.bIndex) && HasEdge(side.bIndex, x.b)
    requires CacheFits(s.cache, side.bIndex) && s.cache.shape == x.b.shape
    ensures var t, d := Step(side, a, x, s), side.bIndex[x.b.shape].dimension;
            && t.pending == (if IsInterior(x, side.bIndex) && IsLogged(side, d) then
                               s.pending + [Crosser(BySource(side.bRegion, x.b), x.leftToRight)]
                             else s.pending)
            && t.r.interiorCrossings
               == s.r.interiorCrossings + if !IsInterior(x, side.bIndex) then 0 else if d == 1 then 2 else 1
  {
    hide LineStep, PolygonStep, CacheFits, IsLogged;
  }

  lemma StepMatches(side: Side, a: Edge, x: IndexCrossing, s: Scan)
    requires ValidIndex(side.bIndex) && HasEdge(side.bIndex, x.b)
    requires CacheFits(s.cache, side.bIndex) && s.cache.shape == x.b.shape
    ensures var r := Step(side, a, x, s).r;
            && r.polygonMatch == (if IsMatch(a, x, side.bIndex, a) then Some(x.b) else s.r.polygonMatch)
            && r.siblingMatch == (if IsMatch(a, x, side.bIndex, Reversed(a)) then Some(x.b) else s.r.siblingMatch)
            && r.a0LoopMatch == (if IsLoopMatch(a, x, side.bIndex) then Some(x.b) else s.r.a0LoopMatch)
  {
    hide LineStep, CacheFits, IsLogged;
    assert side.bIndex[x.b.shape].dimension <= 2;
    PolygonStepMatches(a, side.bIndex[x.b.shape].edges[x.b.edge], x, s.r);
  }

  lemma PolygonStepMatches(a: Edge, b: Edge, x: IndexCrossing, r: EdgeCrossings)
    ensures var t := PolygonStep(a, b, x, r);
            && t.polygonMatch == (if a.v0 != a.v1 && b == a then Some(x.b) else r.polygonMatch)
            && t.siblingMatch == (if a.v0 != a.v1 && b == Reversed(a) then Some(x.b) else r.siblingMatch)
            && t.a0LoopMatch == (if b == Edge(a.v0, a.v0) then Some(x.b) else r.a0LoopMatch)
  {
  }

  lemma StepParity(side: Side, a: Edge, x: IndexCrossing, s: Scan)
    requires ValidIndex(side.bIndex) && HasEdge(side.bIndex, x.b)
    requires CacheFits(s.cache, side.bIndex) && s.cache.shape == x.b.shape
    ensures var t := Step(side, a, x, s);
            Odd(t.r.a0Crossings + t.r.a1Crossings + t.r.interiorCrossings)
            == (Odd(s.r.a0Crossings + s.r.a1Crossings + s.r.interiorCrossings) != Toggles(a, x, side.bIndex))
  {
    hide LineStep, PolygonStep, CacheFits, MeetsAtVertex, ContainsVertex;
    assert side.bIndex[x.b.shape].dimension <= 2;
  }

  // The three counts together count the toggles, modulo 2.
  lemma {:induction false} ScanParity(side: Side, id: ShapeEdgeId, a: Edge, crossings: seq<IndexCrossing>, k: nat, s: Scan)
    requires id != SENTINEL && At(side.bIndex, crossings, k, s.cache)
    ensures var t := ScanFrom(side, id, a, crossings, k, s);
            Odd(t.r.a0Crossings + t.r.a1Crossings + t.r.interiorCrossings)
            == (Odd(s.r.a0Crossings + s.r.a1Crossings + s.r.interiorCrossings)
                != CrossedParity(a, crossings, k, SegmentEnd(crossings, id, k), side.bIndex))
    decreases |crossings| - k
  {
    hide Toggles, Step, CacheFits, Odd;
    if crossings[k].a == id {
      StepKeepsCache(side, a, crossings[k], s);
      StepParity(side, a, crossings[k], s);
      var u := Step(side, a, crossings[k], s);
      MovedFits(side.bIndex, crossings, k + 1, u.cache);
      ScanParity(side, id, a, crossings, k + 1, u.(cache := Moved(u.cache, crossings[k + 1])));
    }
  }

  // ----- where the crossings lie -----

  datatype Place = AtStart | Inside | AtEnd

  // Does a crossing of polygons lie at this place of the edge?  One that touches
  // the start lies there, even if it touches the end as well.
  predicate TogglesAt(place: Place, a: Edge, x: IndexCrossing, bIndex: Index)
    requires HasEdge(bIndex, x.b)
  {
    var b := bIndex[x.b.shape].edges[x.b.edge];
    var touchesStart := a.v0 == b.v0 || a.v0 == b.v1;
    && Toggles(a, x, bIndex)
    && match place
       case AtStart => !x.isInterior && touchesStart
       case Inside => x.isInterior
       case AtEnd => !x.isInterior && !touchesStart
  }

  // The parity of those at positions k up to e.
  function ParityAt(place: Place, a: Edge, crossings: seq<IndexCrossing>, k: nat, e: nat, bIndex: Index): bool
    requires k <= e <= |crossings| && forall j :: k <= j < e ==> HasEdge(bIndex, crossings[j].b)
    decreases e - k
  {
    if k == e then false
    else TogglesAt(place, a, crossings[k], bIndex) != ParityAt(place, a, crossings, k + 1, e, bIndex)
  }

  function CountAt(place: Place, r: EdgeCrossings): nat
  {
    match place
    case AtStart => r.a0Crossings
    case Inside => r.interiorCrossings
    case AtEnd => r.a1Crossings
  }

  lemma PolygonStepAt(a: Edge, b: Edge, x: IndexCrossing, r: EdgeCrossings)
    ensures var t, start := PolygonStep(a, b, x, r), a.v0 == b.v0 || a.v0 == b.v1;
            && t.a0Crossings == r.a0Crossings + (if MeetsAtVertex(a, b, x) && start then 1 else 0)
            && t.a1Crossings == r.a1Crossings + (if MeetsAtVertex(a, b, x) && !start then 1 else 0)
  {
  }

  lemma StepAt(place: Place, side: Side, a: Edge, x: IndexCrossing, s: Scan)
    requires ValidIndex(side.bIndex) && HasEdge(side.bIndex, x.b)
    requires CacheFits(s.cache, side.bIndex) && s.cache.shape == x.b.shape
    ensures Odd(CountAt(place, Step(side, a, x, s).r)) == (Odd(CountAt(place, s.r)) != TogglesAt(place, a, x, side.bIndex))
  {
    hide LineStep, PolygonStep, CacheFits, MeetsAtVertex, IsLogged;
    assert side.bIndex[x.b.shape].dimension <= 2;
    PolygonStepAt(a, side.bIndex[x.b.shape].edges[x.b.edge], x, s.r);
  }

  // Each of the three counts has the parity of the polygon crossings at its place.
  lemma {:induction false} ScanParityAt(place: Place, side: Side, id: ShapeEdgeId, a: Edge, crossings: seq<IndexCrossing>,
                                        k: nat, s: Scan)
    requires id != SENTINEL && At(side.bIndex, crossings, k, s.cache)
    ensures Odd(CountAt(place, ScanFrom(side, id, a, crossings, k, s).r))
            == (Odd(CountAt(place, s.r)) != ParityAt(place, a, crossings, k, SegmentEnd(crossings, id, k), side.bIndex))
    decreases |crossings| - k
  {
    hide TogglesAt, Step, CacheFits, Odd, CountAt;
    if crossings[k].a == id {
      StepKeepsCache(side, a, crossings[k], s);
      StepAt(place, side, a, crossings[k], s);
      var u := Step(side, a, crossings[k], s);
      MovedFits(side.bIndex, crossings, k + 1, u.cache);
      ScanParityAt(place, side, id, a, crossings, k + 1, u.(cache := Moved(u.cache, crossings[k + 1])));
    }
  }

  // The three places make up the edge.
  lemma {:induction false} PlacesMakeUp(a: Edge, crossings: seq<IndexCrossing>, k: nat, e: nat, bIndex: Index)
    requires k <= e <= |crossings| && forall j :: k <= j < e ==> HasEdge(bIndex, crossings[j].b)
    ensures CrossedParity(a, crossings, k, e, bIndex)
            == (ParityAt(AtStart, a, crossings, k, e, bIndex)
                != (ParityAt(Inside, a, crossings, k, e, bIndex) != ParityAt(AtEnd, a, crossings, k, e, bIndex)))
    decreases e - k
  {
    hide Toggles;
    if k < e {
      PlacesMakeUp(a, crossings, k + 1, e, bIndex);
    }
  }

  // ----- dimensions of logged edges -----

  datatype World = World(regions: seq<Index>, dimensions: seq<nat>)

  // The dimension of the edge behind a tag: that of its shape, or what was
  // recorded when the edge was emitted.
  function TagDimension(w: World, tag: Tag): nat
  {
    match tag
    case BySource(region, id) =>
      if region < |w.regions| && HasEdge(w.regions[region], id) then w.regions[region][id.shape].dimension else 0
    case ByInput(input) => if input < |w.dimensions| then w.dimensions[input] else 0
    case _ => 0
  }

  // Parity of the logged crossings that are not with lines.
  function PolygonParity(crossers: seq<Crosser>, w: World): bool
  {
    if crossers == [] then false
    else PolygonParity(crossers[..|crossers| - 1], w) != (TagDimension(w, crossers[|crossers| - 1].tag) != 1)
  }

  lemma StepPending(side: Side, a: Edge, x: IndexCrossing, s: Scan, w: World)
    requires ValidIndex(side.bIndex) && HasEdge(side.bIndex, x.b)
    requires CacheFits(s.cache, side.bIndex) && s.cache.shape == x.b.shape
    requires side.bRegion < |w.regions| && w.regions[side.bRegion] == side.bIndex && side.aDimension <= 2
    requires Odd(s.r.interiorCrossings) == PolygonParity(s.pending, w)
    ensures var t := Step(side, a, x, s); Odd(t.r.interiorCrossings) == PolygonParity(t.pending, w)
  {
    hide Step, CacheFits, IsLogged;
    StepInterior(side, a, x, s);
    var t := Step(side, a, x, s);
    if IsInterior(x, side.bIndex) {
      assert side.bIndex[x.b.shape].dimension <= 2;
      IsLoggedPolygon(side, side.bIndex[x.b.shape].dimension);
      assert t.pending != s.pending ==> t.pending[..|t.pending| - 1] == s.pending;
    }
  }

  lemma IsLoggedPolygon(side: Side, d: nat)
    requires side.aDimension <= 2
    ensures d == 2 ==> IsLogged(side, d)
  {
  }

  // Interior crossings and logged polygon crossings have the same parity: lines
  // count twice, and every polygon crossing is logged.
  lemma {:induction false} ScanPending(side: Side, id: ShapeEdgeId, a: Edge, crossings: seq<IndexCrossing>, k: nat,
                                       s: Scan, w: World)
    requires id != SENTINEL && At(side.bIndex, crossings, k, s.cache)
    requires side.bRegion < |w.regions| && w.regions[side.bRegion] == side.bIndex && side.aDimension <= 2
    requires Odd(s.r.interiorCrossings) == PolygonParity(s.pending, w)
    ensures var t := ScanFrom(side, id, a, crossings, k, s); Odd(t.r.interiorCrossings) == PolygonParity(t.pending, w)
    decreases |crossings| - k
  {
    hide Step, CacheFits, Odd, PolygonParity;
    if crossings[k].a == id {
      StepKeepsCache(side, a, crossings[k], s);
      StepPending(side, a, crossings[k], s, w);
      var u := Step(side, a, crossings[k], s);
      MovedFits(side.bIndex, crossings, k + 1, u.cache);
      ScanPending(side, id, a, crossings, k + 1, u.(cache := Moved(u.cache, crossings[k + 1])), w);
    }
  }

  // Crossing number j of the segment is reflected in the result.
  lemma {:induction false} ScanFinds(side: Side, id: ShapeEdgeId, a: Edge, crossings: seq<IndexCrossing>, k: nat, s: Scan,
                                     j: nat)
    requires id != SENTINEL && At(side.bIndex, crossings, k, s.cache) && k <= j < SegmentEnd(crossings, id, k)
    ensures var r, x := ScanFrom(side, id, a, crossings, k, s).r, crossings[j];
            && (IsMatch(a, x, side.bIndex, a) ==> r.polygonMatch.Some?)
            && (IsMatch(a, x, side.bIndex, Reversed(a)) ==> r.siblingMatch.Some?)
            && (IsLoopMatch(a, x, side.bIndex) ==> r.a0LoopMatch.Some?)
            && (IsInterior(x, side.bIndex) ==> r.interiorCrossings > 0)
    decreases |crossings| - k
  {
    hide CacheFits, Step, IsMatch, IsLoopMatch, IsInterior;
    StepKeepsCache(side, a, crossings[k], s);
    StepMatches(side, a, crossings[k], s);
    StepInterior(side, a, crossings[k], s);
    var u := Step(side, a, crossings[k], s);
    MovedFits(side.bIndex, crossings, k + 1, u.cache);
    var next := u.(cache := Moved(u.cache, crossings[k + 1]));
    if j == k {
      ScanKeeps(side, id, a, crossings, k + 1, next);
    } else {
      ScanFinds(side, id, a, crossings, k + 1, next, j);
    }
  }

  // What has been found stays found, and the counts grow.
  lemma {:induction false} ScanKeeps(side: Side, id: ShapeEdgeId, a: Edge, crossings: seq<IndexCrossing>, k: nat, s: Scan)
    requires id != SENTINEL && At(side.bIndex, crossings, k, s.cache)
    ensures var r := ScanFrom(side, id, a, crossings, k, s).r;
            && (s.r.polygonMatch.Some? ==> r.polygonMatch.Some?)
            && (s.r.siblingMatch.Some? ==> r.siblingMatch.Some?)
            && (s.r.a0LoopMatch.Some? ==> r.a0LoopMatch.Some?)
            && s.r.interiorCrossings <= r.interiorCrossings
    decreases |crossings| - k
  {
    hide CacheFits, Step, IsMatch, IsLoopMatch, IsInterior;
    if crossings[k].a == id {
      StepKeepsCache(side, a, crossings[k], s);
      StepMatches(side, a, crossings[k], s);
      StepInterior(side, a, crossings[k], s);
      var u := Step(side, a, crossings[k], s);
      MovedFits(side.bIndex, crossings, k + 1, u.cache);
      ScanKeeps(side, id, a, crossings, k + 1, u.(cache := Moved(u.cache, crossings[k + 1])));
    }
  }

  // What is reported has been found at the crossings before position e.
  ghost predicate Sourced(a: Edge, crossings: seq<IndexCrossing>, id: ShapeEdgeId, e: nat, side: Side, s: Scan)
    requires ValidCrossings(crossings, side.bIndex) && e < |crossings|
  {
    && (s.r.polygonMatch.Some? ==> exists j :: 0 <= j < e && crossings[j].a == id && crossings[j].b == s.r.polygonMatch.value
                                               && IsMatch(a, crossings[j], side.bIndex, a))
    && (s.r.siblingMatch.Some? ==> exists j :: 0 <= j < e && crossings[j].a == id && crossings[j].b == s.r.siblingMatch.value
                                               && IsMatch(a, crossings[j], side.bIndex, Reversed(a)))
    && (s.r.a0LoopMatch.Some? ==> exists j :: 0 <= j < e && crossings[j].a == id && crossings[j].b == s.r.a0LoopMatch.value
                                              && IsLoopMatch(a, crossings[j], side.bIndex))
    && (s.r.interiorCrossings > 0 ==> exists j :: 0 <= j < e && crossings[j].a == id && IsInterior(crossings[j], side.bIndex))
  }

  // Where the logged crossings come from.
  ghost predicate FromCrossings(crossings: seq<IndexCrossing>, id: ShapeEdgeId, e: nat, side: Side, pending: seq<Crosser>)
    requires ValidCrossings(crossings, side.bIndex) && e < |crossings|
  {
    forall i :: 0 <= i < |pending| ==> IsLoggedCrossing(crossings, id, e, side, pending[i])
  }

  ghost predicate IsLoggedCrossing(crossings: seq<IndexCrossing>, id: ShapeEdgeId, e: nat, side: Side, c: Crosser)
    requires ValidCrossings(crossings, side.bIndex) && e < |crossings|
  {
    exists j :: 0 <= j < e && crossings[j].a == id && IsInterior(crossings[j], side.bIndex)
                && IsLogged(side, side.bIndex[crossings[j].b.shape].dimension)
                && c == Crosser(BySource(side.bRegion, crossings[j].b), crossings[j].leftToRight)
  }

  lemma StepSources(side: Side, id: ShapeEdgeId, a: Edge, crossings: seq<IndexCrossing>, k: nat, s: Scan)
    requires At(side.bIndex, crossings, k, s.cache) && k < |crossings| - 1 && crossings[k].a == id
    requires Sourced(a, crossings, id, k, side, s) && FromCrossings(crossings, id, k, side, s.pending)
    ensures var t := Step(side, a, crossings[k], s);
            && Sourced(a, crossings, id, k + 1, side, t)
            && FromCrossings(crossings, id, k + 1, side, t.pending)
  {
    hide Step, CacheFits, IsLogged, IsMatch, IsLoopMatch, IsInterior;
    StepMatches(side, a, crossings[k], s);
    StepInterior(side, a, crossings[k], s);
    var t := Step(side, a, crossings[k], s);
    forall i | 0 <= i < |t.pending|
      ensures IsLoggedCrossing(crossings, id, k + 1, side, t.pending[i])
    {
      if i < |s.pending| {
        assert IsLoggedCrossing(crossings, id, k, side, s.pending[i]);
      }
    }
  }

  lemma {:induction false} ScanSources(side: Side, id: ShapeEdgeId, a: Edge, crossings: seq<IndexCrossing>, k: nat, s: Scan)
    requires id != SENTINEL && At(side.bIndex, crossings, k, s.cache)
    requires Sourced(a, crossings, id, k, side, s) && FromCrossings(crossings, id, k, side, s.pending)
    ensures var t, e := ScanFrom(side, id, a, crossings, k, s), SegmentEnd(crossings, id, k);
            Sourced(a, crossings, id, e, side, t) && FromCrossings(crossings, id, e, side, t.pending)
    decreases |crossings| - k
  {
    hide Step, CacheFits, Sourced, FromCrossings;
    if crossings[k].a == id {
      StepKeepsCache(side, a, crossings[k], s);
      StepSources(side, id, a, crossings, k, s);
      var u := Step(side, a, crossings[k], s);
      MovedFits(side.bIndex, crossings, k + 1, u.cache);
      var next := u.(cache := Moved(u.cache, crossings[k + 1]));
      SourcedIgnoresCache(a, crossings, id, k + 1, side, u, next);
      ScanSources(side, id, a, crossings, k + 1, next);
    }
  }

  lemma SourcedIgnoresCache(a: Edge, crossings: seq<IndexCrossing>, id: ShapeEdgeId, e: nat, side: Side, s: Scan, t: Scan)
    requires ValidCrossings(crossings, side.bIndex) && e < |crossings|
    requires Sourced(a, crossings, id, e, side, s) && s.r == t.r
    ensures Sourced(a, crossings, id, e, side, t)
  {
  }

  // A degenerate edge meets polygons at its vertex without crossing them.
  lemma {:induction false} PointHasNoVertexCrossings(side: Side, id: ShapeEdgeId, a: Edge, crossings: seq<IndexCrossing>,
                                                     k: nat, s: Scan)
    requires id != SENTINEL && At(side.bIndex, crossings, k, s.cache) && a.v0 == a.v1
    ensures var r := ScanFrom(side, id, a, crossings, k, s).r;
            && r.a0Crossings == s.r.a0Crossings && r.a1Crossings == s.r.a1Crossings
            && r.polygonMatch == s.r.polygonMatch && r.siblingMatch == s.r.siblingMatch
    decreases |crossings| - k
  {
    hide CacheFits;
    if crossings[k].a == id {
      StepKeepsCache(side, a, crossings[k], s);
      StepMatches(side, a, crossings[k], s);
      var u := Step(side, a, crossings[k], s);
      MovedFits(side.bIndex, crossings, k + 1, u.cache);
      PointHasNoVertexCrossings(side, id, a, crossings, k + 1, u.(cache := Moved(u.cache, crossings[k + 1])));
    }
  }
}
