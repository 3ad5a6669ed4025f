/**
 GetChainStarts and AddBoundary: the walk along the boundary of one region that
 visits only what lies inside the other region or crosses it.
 */
module BoundaryWalk {
  import opened Common
  import opened Shapes
  import opened EdgeScan
  import opened BoundaryRules
  import opened ClipLog
  import opened Outputs
  import opened Processor

  // ----- the two regions -----

  // One pass over the boundary of region A.  "contains" tells which points the
  // polygons of B contain, with semi-open boundaries, and "past" of which edges
  // they contain the part just past the start.
  datatype Pass = Pass(model: Model, aRegion: nat, aIndex: Index, bIndex: Index, crossings: seq<IndexCrossing>,
                       contains: Point -> bool, past: ShapeEdgeId -> bool, invertA: bool, invertB: bool,
                       invertResult: bool)
  {
    function Regions(): seq<Index>
    {
      if aRegion == 0 then [aIndex, bIndex] else [bIndex, aIndex]
    }

    // Lower-dimensional shapes of an inverted region are dropped.
    predicate Tracked(s: nat)
      requires s < |aIndex|
    {
      aIndex[s].dimension == 2 || invertA == invertResult
    }

    predicate Inside(p: Point)
    {
      contains(p) != invertB
    }

    function EdgeOf(id: ShapeEdgeId): Edge
      requires HasEdge(aIndex, id)
    {
      aIndex[id.shape].edges[id.edge]
    }

    // Does the state say "inside" at the start of the edge?
    predicate StartsInside(id: ShapeEdgeId)
      requires HasEdge(aIndex, id)
    {
      Tracked(id.shape) && Inside(EdgeOf(id).v0)
    }

    // Does the walk have to visit this edge?
    ghost predicate Needed(id: ShapeEdgeId)
      requires HasEdge(aIndex, id)
    {
      HasCrossing(crossings, id) || StartsInside(id)
    }

    // The first edge of a chain that starts inside.
    ghost predicate IsStart(id: ShapeEdgeId)
    {
      && HasEdge(aIndex, id) && StartsInside(id)
      && exists c :: 0 <= c < |aIndex[id.shape].chains| && aIndex[id.shape].chains[c].start == id.edge
                     && aIndex[id.shape].chains[c].length > 0
    }

    ghost predicate Valid()
    {
      && aRegion <= 1 && ValidIndex(aIndex) && ValidIndex(bIndex)
      && (forall s :: 0 <= s < |aIndex| ==> Connected(aIndex[s]) && PointsAreDegenerate(aIndex[s]))
      && ValidCrossings(crossings, bIndex) && Ordered(crossings)
      && (forall k :: 0 <= k < |crossings| - 1 ==> HasEdge(aIndex, crossings[k].a))
    }

    // Containment changes along an edge exactly with the parity of the polygon
    // crossings found for it.
    ghost predicate Explained()
      requires Valid()
    {
      forall id :: HasEdge(aIndex, id) && Tracked(id.shape) ==>
                     contains(EdgeOf(id).v1) == (contains(EdgeOf(id).v0) != ParityOf(id))
    }

    ghost predicate ParityOf(id: ShapeEdgeId)
      requires Valid() && HasEdge(aIndex, id)
    {
      NotSentinel(aIndex, id);
      var k := First(crossings, id, 0);
      InSegment(crossings, bIndex, id, k);
      CrossedParity(EdgeOf(id), crossings, k, SegmentEnd(crossings, id, k), bIndex)
    }

    // Just past the start, it has changed with the polygon crossings there.
    ghost predicate ExplainedPast()
      requires Valid()
    {
      forall id :: HasEdge(aIndex, id) && Tracked(id.shape) ==>
                     past(id) == (contains(EdgeOf(id).v0) != ParityAtStartOf(id))
    }

    ghost predicate ParityAtStartOf(id: ShapeEdgeId)
      requires Valid() && HasEdge(aIndex, id)
    {
      NotSentinel(aIndex, id);
      var k := First(crossings, id, 0);
      InSegment(crossings, bIndex, id, k);
      ParityAt(AtStart, EdgeOf(id), crossings, k, SegmentEnd(crossings, id, k), bIndex)
    }

    // An edge that coincides with one of B, or is a point, crosses none of B in
    // its interior.
    ghost predicate Separated()
      requires Valid()
    {
      forall i :: 0 <= i < |crossings| - 1 && IsInterior(crossings[i], bIndex) ==>
                    var a := EdgeOf(crossings[i].a);
                    aIndex[crossings[i].a.shape].dimension == 2 ==>
                      && a.v0 != a.v1
                      && forall j :: 0 <= j < |crossings| - 1 && crossings[j].a == crossings[i].a ==>
                                       !IsMatch(a, crossings[j], bIndex, a) && !IsMatch(a, crossings[j], bIndex, Reversed(a))
    }

    // ----- what the walk makes of the edges it visits -----

    function SettingOf(id: ShapeEdgeId): (t: Setting)
      requires ValidIndex(aIndex) && HasEdge(aIndex, id)
      ensures t.chainStart <= id.edge < t.chainLimit <= |t.shape.edges| && t.bIndex == bIndex && t.crossings == crossings
    {
      var shape := aIndex[id.shape];
      var c := shape.ChainOf(id.edge);
      ChainFits(shape, c);
      Setting(model, aRegion, invertA, invertB, invertResult, invertB && invertResult, shape, shape.chains[c].start,
              ChainEnd(shape.chains, c), bIndex, crossings, true)
    }

    predicate SameChain(x: ShapeEdgeId, y: ShapeEdgeId)
      requires ValidIndex(aIndex) && HasEdge(aIndex, x) && HasEdge(aIndex, y)
    {
      x.shape == y.shape && aIndex[x.shape].ChainOf(x.edge) == aIndex[y.shape].ChainOf(y.edge)
    }

    predicate AreEdges(visited: seq<ShapeEdgeId>)
    {
      forall i :: 0 <= i < |visited| ==> HasEdge(aIndex, visited[i])
    }

    ghost predicate CanWalk(s: Status, visited: seq<ShapeEdgeId>)
    {
      ValidIndex(aIndex) && AreEdges(visited) && At(bIndex, crossings, s.pos, s.cache)
    }

    // The status in which an edge is processed after others: its state is given
    // by containment of its start; in a new chain nothing has been emitted yet.
    function Entered(seen: seq<ShapeEdgeId>, id: ShapeEdgeId, s: Status): (r: Status)
      requires ValidIndex(aIndex) && AreEdges(seen) && HasEdge(aIndex, id)
      ensures r.inside == StartsInside(id) && r.holes == s.holes && r.pos == s.pos && r.cache == s.cache
    {
      var t := s.(inside := StartsInside(id));
      if seen != [] && SameChain(seen[|seen| - 1], id) then t
      else t.(v0EmittedMaxEdgeId := SettingOf(id).chainStart - 1, chainV0Emitted := false)
    }

    // The status after some edges have been processed in order.
    function Walked(s: Status, visited: seq<ShapeEdgeId>): (t: Status)
      requires CanWalk(s, visited)
      ensures At(bIndex, crossings, t.pos, t.cache)
    {
      if visited == [] then s
      else
        var seen, id := visited[..|visited| - 1], visited[|visited| - 1];
        NotSentinel(aIndex, id);
        SettingOf(id).After(id, Entered(seen, id, Walked(s, seen)))
    }

    // What is emitted for them.
    function Emitted(s: Status, visited: seq<ShapeEdgeId>): seq<Emission>
      requires CanWalk(s, visited)
    {
      if visited == [] then []
      else
        var seen, id := visited[..|visited| - 1], visited[|visited| - 1];
        NotSentinel(aIndex, id);
        Emitted(s, seen) + SettingOf(id).Emissions(id, Entered(seen, id, Walked(s, seen)))
    }

    // The status at the start of the pass.
    function Start(holes: map<ShapeEdgeId, bool>): Status
      requires 0 < |crossings|
    {
      Status(false, -1, false, holes, 0, Moved(ChainCache(-1, None), crossings[0]))
    }
  }

  ghost predicate HasCrossing(crossings: seq<IndexCrossing>, id: ShapeEdgeId)
  {
    exists k :: 0 <= k < |crossings| && crossings[k].a == id
  }

  ghost predicate Ordered(crossings: seq<IndexCrossing>)
  {
    forall i, j :: 0 <= i < j < |crossings| ==> AtMost(crossings[i].a, crossings[j].a)
  }

  // Points are degenerate edges, each in a chain of its own.
  ghost predicate PointsAreDegenerate(s: Shape)
  {
    s.dimension == 0 ==>
      && (forall e :: 0 <= e < |s.edges| ==> s.edges[e].v0 == s.edges[e].v1)
      && forall c :: 0 <= c < |s.chains| ==> s.chains[c].length == 1
  }

  // The first position from k on whose edge is not before "id".
  function First(crossings: seq<IndexCrossing>, id: ShapeEdgeId, k: nat): (p: nat)
    requires k <= |crossings|
    ensures k <= p <= |crossings|
    ensures forall j :: k <= j < p ==> Before(crossings[j].a, id)
    ensures p < |crossings| ==> !Before(crossings[p].a, id)
    decreases |crossings| - k
  {
    if k < |crossings| && Before(crossings[k].a, id) then First(crossings, id, k + 1) else k
  }

  lemma InSegment(crossings: seq<IndexCrossing>, bIndex: Index, id: ShapeEdgeId, k: nat)
    requires ValidCrossings(crossings, bIndex) && k <= |crossings| && id != SENTINEL
    ensures forall j :: k <= j < SegmentEnd(crossings, id, k) ==> HasEdge(bIndex, crossings[j].b)
  {
  }

  // A position is first if everything before it is smaller and it is not.
  lemma FirstIs(crossings: seq<IndexCrossing>, id: ShapeEdgeId, p: nat)
    requires p < |crossings| && !Before(crossings[p].a, id)
    requires forall j :: 0 <= j < p ==> Before(crossings[j].a, id)
    ensures First(crossings, id, 0) == p
  {
  }

  // ----- chain starts -----

  // The starts in order, with a sentinel at the end.
  ghost predicate AreStarts(p: Pass, starts: seq<ShapeEdgeId>)
  {
    && 0 < |starts| && starts[|starts| - 1] == SENTINEL
    && (forall i, j :: 0 <= i < j < |starts| ==> Before(starts[i], starts[j]))
    && (forall i :: 0 <= i < |starts| - 1 ==> p.IsStart(starts[i]))
    && (forall id :: p.IsStart(id) ==> id in starts)
  }

  // The starts before an id have been found.
  ghost predicate PartStarts(p: Pass, starts: seq<ShapeEdgeId>, upTo: ShapeEdgeId)
  {
    && (forall i, j :: 0 <= i < j < |starts| ==> Before(starts[i], starts[j]))
    && (forall i :: 0 <= i < |starts| ==> p.IsStart(starts[i]) && Before(starts[i], upTo))
    && (forall id :: p.IsStart(id) && Before(id, upTo) ==> id in starts)
  }

  function EdgeLimit(shape: Shape, c: nat): nat
    requires c <= |shape.chains|
  {
    if c < |shape.chains| then shape.chains[c].start else |shape.edges|
  }

  // Between the start of a chain and that of the next there is no other start.
  lemma NextChain(p: Pass, starts: seq<ShapeEdgeId>, s: nat, c: nat)
    requires p.Valid() && s < |p.aIndex| && c < |p.aIndex[s].chains|
    requires PartStarts(p, starts, ShapeEdgeId(s, EdgeLimit(p.aIndex[s], c)))
    ensures var start := ShapeEdgeId(s, p.aIndex[s].chains[c].start);
            var next := ShapeEdgeId(s, EdgeLimit(p.aIndex[s], c + 1));
            && (p.aIndex[s].chains[c].length > 0 ==> HasEdge(p.aIndex, start))
            && if p.aIndex[s].chains[c].length > 0 && p.Tracked(s) && p.Inside(p.EdgeOf(start).v0)
               then PartStarts(p, starts + [start], next) else PartStarts(p, starts, next)
  {
    var shape := p.aIndex[s];
    var chain := shape.chains[c];
    var start, next := ShapeEdgeId(s, chain.start), ShapeEdgeId(s, EdgeLimit(shape, c + 1));
    ChainFits(shape, c);
    assert next.edge == chain.start + chain.length;
    forall id | p.IsStart(id) && Before(id, next) && !Before(id, start)
      ensures id == start && chain.length > 0
    {
      var d :| 0 <= d < |shape.chains| && shape.chains[d].start == id.edge && shape.chains[d].length > 0;
      if c < d {
        ChainsInOrder(shape.chains, c, d);
      } else if d < c {
        ChainsInOrder(shape.chains, d, c);
      }
    }
  }

  lemma NoStartsInShape(p: Pass, starts: seq<ShapeEdgeId>, s: nat)
    requires p.Valid() && s < |p.aIndex| && !p.Tracked(s) && PartStarts(p, starts, ShapeEdgeId(s, 0))
    ensures PartStarts(p, starts, ShapeEdgeId(s + 1, 0))
  {
  }

  lemma NextShape(p: Pass, starts: seq<ShapeEdgeId>, s: nat)
    requires p.Valid() && s < |p.aIndex| && PartStarts(p, starts, ShapeEdgeId(s, |p.aIndex[s].edges|))
    ensures PartStarts(p, starts, ShapeEdgeId(s + 1, 0))
  {
    forall id | p.IsStart(id) && Before(id, ShapeEdgeId(s + 1, 0))
      ensures Before(id, ShapeEdgeId(s, |p.aIndex[s].edges|))
    {
    }
  }

  method GetChainStarts(p: Pass, bHasInterior: bool) returns (starts: seq<ShapeEdgeId>)
    requires p.Valid() && (!bHasInterior ==> forall x :: !p.contains(x))
    ensures AreStarts(p, starts)
  {
    hide Ordered;
    starts := [];
    if bHasInterior || p.invertB {
      for s := 0 to |p.aIndex|
        invariant PartStarts(p, starts, ShapeEdgeId(s, 0))
      {
        var shape := p.aIndex[s];
        if p.invertA != p.invertResult && shape.dimension < 2 {
          NoStartsInShape(p, starts, s);
          continue;
        }
        assert shape.dimension <= 2 && shape.Valid();
        for c := 0 to |shape.chains|
          invariant PartStarts(p, starts, ShapeEdgeId(s, EdgeLimit(shape, c)))
        {
          NextChain(p, starts, s, c);
          var chain := shape.chains[c];
          if chain.length == 0 {
            continue;
          }
          var inside := (bHasInterior && p.contains(shape.edges[chain.start].v0)) != p.invertB;
          if inside {
            starts := starts + [ShapeEdgeId(s, chain.start)];
          }
        }
        NextShape(p, starts, s);
      }
    }
    AllStarts(p, starts);
    starts := starts + [SENTINEL];
  }

  lemma AllStarts(p: Pass, starts: seq<ShapeEdgeId>)
    requires p.Valid()
    requires PartStarts(p, starts, ShapeEdgeId(|p.aIndex|, 0)) || (starts == [] && forall id :: !p.IsStart(id))
    ensures AreStarts(p, starts + [SENTINEL])
  {
    forall id | p.IsStart(id)
      ensures id in starts + [SENTINEL]
    {
      assert Before(id, ShapeEdgeId(|p.aIndex|, 0));
    }
  }

  // ----- what lies between visited edges -----

  lemma NoCrossingNoParity(p: Pass, id: ShapeEdgeId)
    requires p.Valid() && HasEdge(p.aIndex, id) && !HasCrossing(p.crossings, id)
    ensures !p.ParityOf(id)
  {
    NotSentinel(p.aIndex, id);
    var k := First(p.crossings, id, 0);
    assert SegmentEnd(p.crossings, id, k) == k;
  }

  // From an outside point of a chain on, everything is outside up to the next
  // crossing.
  lemma {:induction false} OutsideRun(p: Pass, s: nat, c: nat, e0: nat, e1: nat)
    requires p.Valid() && p.Explained() && s < |p.aIndex| && c < |p.aIndex[s].chains| && p.Tracked(s)
    requires InChain(p.aIndex[s].chains[c], e0) && e0 <= e1 && InChain(p.aIndex[s].chains[c], e1)
    requires e1 < |p.aIndex[s].edges| && !p.Inside(p.EdgeOf(ShapeEdgeId(s, e0)).v0)
    requires forall e :: e0 <= e < e1 ==> !HasCrossing(p.crossings, ShapeEdgeId(s, e))
    ensures !p.Inside(p.EdgeOf(ShapeEdgeId(s, e1)).v0)
    decreases e1 - e0
  {
    if e0 < e1 {
      OutsideRun(p, s, c, e0, e1 - 1);
      NoCrossingNoParity(p, ShapeEdgeId(s, e1 - 1));
      assert Connected(p.aIndex[s]);
    }
  }

  // ----- one edge -----

  // The processor and the iterator work on this pass.
  ghost predicate SetUp(p: Pass, cp: CrossingProcessor, it: CrossingIterator)
    reads cp, it
  {
    && p.Valid() && cp.regions == p.Regions() && cp.model == p.model
    && cp.Valid() && cp.aRegion == p.aRegion
    && cp.invertA == p.invertA && cp.invertB == p.invertB && cp.invertResult == p.invertResult
    && cp.isUnion == (p.invertB && p.invertResult)
    && it.Valid() && it.bIndex == p.bIndex && it.crossings == p.crossings && it.crossingsComplete
  }

  // The processor is in chain c of shape s.
  ghost predicate InChainOf(p: Pass, cp: CrossingProcessor, s: nat, c: nat)
    reads cp
  {
    && s < |p.aIndex| && cp.aShape == p.aIndex[s] && c < |cp.aShape.chains|
    && cp.chainStart == cp.aShape.chains[c].start && cp.chainLimit == ChainEnd(cp.aShape.chains, c)
  }

  // Where a pass began.
  datatype Origin = Origin(status: Status, history: seq<Emission>, processed: seq<ShapeEdgeId>)

  // Since then these edges have been processed, and emitted as they should be.
  ghost predicate Followed(p: Pass, o: Origin, seen: seq<ShapeEdgeId>, cp: CrossingProcessor)
    reads cp`history, cp`processed
  {
    && p.CanWalk(o.status, seen)
    && cp.history == o.history + p.Emitted(o.status, seen) && cp.processed == o.processed + seen
  }

  // The processor is about to process edge "id".
  ghost predicate Poised(p: Pass, o: Origin, seen: seq<ShapeEdgeId>, id: ShapeEdgeId, cp: CrossingProcessor,
                         it: CrossingIterator)
    reads cp, it
  {
    && HasEdge(p.aIndex, id) && Followed(p, o, seen, cp)
    && cp.StatusAt(it) == p.Entered(seen, id, p.Walked(o.status, seen))
  }

  // The processor has just processed the last edge.
  ghost predicate Stopped(p: Pass, o: Origin, seen: seq<ShapeEdgeId>, cp: CrossingProcessor, it: CrossingIterator)
    reads cp, it
  {
    Followed(p, o, seen, cp) && cp.StatusAt(it) == p.Walked(o.status, seen)
  }

  // The processor is between two chains.
  ghost predicate Rests(p: Pass, o: Origin, seen: seq<ShapeEdgeId>, cp: CrossingProcessor, it: CrossingIterator)
    reads cp`history, cp`processed, cp`degenerateHole, it
  {
    && Followed(p, o, seen, cp)
    && var s := p.Walked(o.status, seen); cp.degenerateHole == s.holes && it.pos == s.pos && it.cache == s.cache
  }

  // All crossings before the iterator belong to edges before "id".
  ghost predicate Aligned(crossings: seq<IndexCrossing>, pos: nat, id: ShapeEdgeId)
  {
    && pos < |crossings| && !Before(crossings[pos].a, id)
    && forall j :: 0 <= j < pos ==> Before(crossings[j].a, id)
  }

  // Is crossing k reported to the clipper, so that its A edge must be known?
  ghost predicate MustRegister(p: Pass, k: nat)
    requires p.Valid() && k < |p.crossings| - 1
  {
    var d := p.aIndex[p.crossings[k].a.shape].dimension;
    d > 0 && p.Tracked(p.crossings[k].a.shape) && IsInterior(p.crossings[k], p.bIndex)
  }

  ghost predicate Registered(p: Pass, m: map<Tag, nat>, a: nat, b: nat)
    requires p.Valid() && b < |p.crossings|
  {
    forall k :: a <= k < b && MustRegister(p, k) ==> BySource(p.aRegion, p.crossings[k].a) in m
  }

  // A logged crossing, by the edge of B.
  ghost predicate LoggedIn(p: Pass, c: Crosser)
    requires p.Valid()
  {
    exists j :: 0 <= j < |p.crossings| - 1 && IsInterior(p.crossings[j], p.bIndex)
                && LogsFor(p, j) && c.tag == BySource(if p.aRegion == 0 then 1 else 0, p.crossings[j].b)
  }

  ghost predicate LogsFor(p: Pass, j: nat)
    requires p.Valid() && j < |p.crossings| - 1
  {
    var aDimension, bDimension := p.aIndex[p.crossings[j].a.shape].dimension, p.bIndex[p.crossings[j].b.shape].dimension;
    0 < aDimension <= bDimension && !(p.invertB != p.invertResult && bDimension == 1)
  }

  ghost predicate LogsFrom(p: Pass, before: seq<Emission>, after: seq<Emission>)
    requires p.Valid()
  {
    && before <= after
    && forall k, i :: |before| <= k < |after| && 0 <= i < |after[k].crossers| ==> LoggedIn(p, after[k].crossers[i])
  }

  lemma NewAreLogged(p: Pass, before: seq<Emission>, after: seq<Emission>, id: ShapeEdgeId, side: Side)
    requires p.Valid() && HasEdge(p.aIndex, id) && side.bIndex == p.bIndex
    requires side.bRegion == (if p.aRegion == 0 then 1 else 0) && side.dropLines == (p.invertB != p.invertResult)
    requires side.aDimension == p.aIndex[id.shape].dimension
    requires NewCrossers(before, after, p.crossings, id, side)
    requires side.aDimension == 0 ==> NoNewCrossers(before, after)
    ensures LogsFrom(p, before, after)
  {
    forall k, i | |before| <= k < |after| && 0 <= i < |after[k].crossers|
      ensures LoggedIn(p, after[k].crossers[i])
    {
      assert FromCrossings(p.crossings, id, |p.crossings| - 1, side, after[k].crossers);
      assert IsLoggedCrossing(p.crossings, id, |p.crossings| - 1, side, after[k].crossers[i]);
    }
  }

  lemma LogsFromTrans(p: Pass, h0: seq<Emission>, h1: seq<Emission>, h2: seq<Emission>)
    requires p.Valid() && LogsFrom(p, h0, h1) && LogsFrom(p, h1, h2)
    ensures LogsFrom(p, h0, h2)
  {
    hide LoggedIn;
    forall k, i | |h0| <= k < |h2| && 0 <= i < |h2[k].crossers|
      ensures LoggedIn(p, h2[k].crossers[i])
    {
      if k < |h1| {
        assert h2[k] == h1[k];
      }
    }
  }

  // Where the state stands at the start of an edge.
  ghost predicate StateAtStart(p: Pass, id: ShapeEdgeId, inside: bool)
    requires HasEdge(p.aIndex, id)
  {
    inside == p.StartsInside(id)
  }

  ghost predicate StateAtEnd(p: Pass, id: ShapeEdgeId, inside: bool)
    requires HasEdge(p.aIndex, id)
  {
    inside == (p.Tracked(id.shape) && p.Inside(p.EdgeOf(id).v1))
  }

  // The iterator is at the crossings of the edge.
  ghost predicate AtEdge(p: Pass, id: ShapeEdgeId, s: Status)
  {
    && p.Valid() && HasEdge(p.aIndex, id) && At(p.bIndex, p.crossings, s.pos, s.cache) && Aligned(p.crossings, s.pos, id)
  }

  lemma EdgeIsReady(p: Pass, id: ShapeEdgeId, s: Status)
    requires AtEdge(p, id, s)
    ensures id != SENTINEL && p.SettingOf(id).Ready(id, s) && p.SettingOf(id).Fits(p.Regions(), id)
  {
    hide At, Pass.Valid;
    ValidParts(p);
    NotSentinel(p.aIndex, id);
  }

  lemma ValidParts(p: Pass)
    requires p.Valid()
    ensures p.aRegion <= 1 && ValidIndex(p.aIndex) && ValidIndex(p.bIndex) && ValidCrossings(p.crossings, p.bIndex)
  {
  }

  // Processing an edge moves the state from its start to its end.
  lemma StateMoves(p: Pass, id: ShapeEdgeId, s: Status)
    requires AtEdge(p, id, s) && p.Explained() && p.Separated() && StateAtStart(p, id, s.inside)
    ensures p.SettingOf(id).Ready(id, s) && StateAtEnd(p, id, p.SettingOf(id).InsideAfter(id, s))
  {
    hide CrossedParity, CacheFits;
    EdgeIsReady(p, id, s);
    FirstIs(p.crossings, id, s.pos);
    assert p.aIndex[id.shape].Valid() && PointsAreDegenerate(p.aIndex[id.shape]);
    assert p.SettingOf(id).Crossed(id, s) == p.ParityOf(id);
    if p.aIndex[id.shape].dimension == 2 {
      NothingDeferred(p, id, s);
    }
  }

  // At an edge, the crossings at its start take the state to containment just past
  // the start.
  lemma StatePastStart(p: Pass, id: ShapeEdgeId, s: Status)
    requires AtEdge(p, id, s) && p.ExplainedPast() && p.Tracked(id.shape) && StateAtStart(p, id, s.inside)
    ensures p.SettingOf(id).Ready(id, s)
    ensures (s.inside != Odd(p.SettingOf(id).Scanned(id, s).r.a0Crossings)) == (p.past(id) != p.invertB)
  {
    hide ParityAt, CacheFits, ScanFrom, Odd;
    EdgeIsReady(p, id, s);
    FirstIs(p.crossings, id, s.pos);
    var t := p.SettingOf(id);
    ScanParityAt(AtStart, t.Side(), id, t.EdgeOf(id), p.crossings, s.pos, Scan(NO_CROSSINGS, [], s.cache));
    NoneIsEven();
    assert p.ParityAtStartOf(id)
        == ParityAt(AtStart, t.EdgeOf(id), p.crossings, s.pos, SegmentEnd(p.crossings, id, s.pos), p.bIndex);
  }

  lemma NoneIsEven()
    ensures !Odd(0)
  {
  }

  // An edge of a line or polygon that coincides with no edge of B is emitted as
  // containment just past its start says, or to be cut at interior crossings.
  lemma UnmatchedEdge(p: Pass, id: ShapeEdgeId, s: Status)
    requires AtEdge(p, id, s) && p.ExplainedPast() && p.Tracked(id.shape) && StateAtStart(p, id, s.inside)
    requires p.aIndex[id.shape].dimension > 0 && p.EdgeOf(id).v0 != p.EdgeOf(id).v1
    requires p.SettingOf(id).Ready(id, s)
    requires var r := p.SettingOf(id).Scanned(id, s).r; !r.matchesPolyline && r.polygonMatch.None? && r.siblingMatch.None?
    ensures var t := p.SettingOf(id);
            var scan, kept := t.Scanned(id, s), p.past(id) != p.invertB;
            var e := EdgeEmission(p.EdgeOf(id), p.aIndex[id.shape].dimension, t.State(kept), scan.r.interiorCrossings, scan.pending);
            if kept || scan.r.interiorCrossings > 0 then e in t.Emissions(id, s)
            else forall x :: x in t.Emissions(id, s) ==> x.edge.v0 == x.edge.v1
  {
    hide At, Setting.Scanned, Setting.Emissions, Odd, Logged, Pass.ExplainedPast;
    StatePastStart(p, id, s);
    assert p.aIndex[id.shape].Valid();
    p.SettingOf(id).UnmatchedEdge(id, s);
  }

  lemma NothingDeferred(p: Pass, id: ShapeEdgeId, s: Status)
    requires AtEdge(p, id, s) && p.Separated() && p.aIndex[id.shape].dimension == 2
    ensures var t := p.SettingOf(id);
            && t.Ready(id, s) && !t.Excused(id, s)
            && (t.FaceAt(id, s).Deferred() ==> t.Scanned(id, s).r.interiorCrossings == 0)
  {
    hide IsMatch, IsInterior, ScanFrom, CacheFits, Face.Deferred;
    EdgeIsReady(p, id, s);
    p.SettingOf(id).DeferredWithInterior(id, s);
  }

  lemma SegmentRegisters(p: Pass, id: ShapeEdgeId, s: Status)
    requires AtEdge(p, id, s) && p.Separated()
    ensures p.SettingOf(id).Ready(id, s)
    ensures forall k :: s.pos <= k < SegmentEnd(p.crossings, id, s.pos) && k < |p.crossings| - 1 && MustRegister(p, k) ==>
                          p.SettingOf(id).Registers(id, s)
  {
    hide IsInterior, ScanFrom, CacheFits, Face.Deferred;
    EdgeIsReady(p, id, s);
    assert p.aIndex[id.shape].Valid();
    if p.aIndex[id.shape].dimension == 2 {
      NothingDeferred(p, id, s);
    }
    forall k | s.pos <= k < SegmentEnd(p.crossings, id, s.pos) && k < |p.crossings| - 1 && MustRegister(p, k)
      ensures p.SettingOf(id).Registers(id, s)
    {
      p.SettingOf(id).RegistersInterior(id, s, k);
    }
  }

  // One more edge.
  lemma WalkOn(p: Pass, s: Status, seen: seq<ShapeEdgeId>, id: ShapeEdgeId, h: seq<Emission>, e: seq<ShapeEdgeId>)
    requires p.CanWalk(s, seen) && HasEdge(p.aIndex, id)
    ensures var t, u := p.SettingOf(id), p.Entered(seen, id, p.Walked(s, seen));
            && p.CanWalk(s, seen + [id]) && t.Ready(id, u)
            && p.Walked(s, seen + [id]) == t.After(id, u)
            && h + p.Emitted(s, seen + [id]) == (h + p.Emitted(s, seen)) + t.Emissions(id, u)
            && e + (seen + [id]) == (e + seen) + [id]
  {
    hide At, Setting.After, Setting.Emissions, Pass.SettingOf, Pass.Entered, HasEdge, ValidIndex;
    NotSentinel(p.aIndex, id);
    assert (seen + [id])[..|seen + [id]| - 1] == seen;
    AppendAssoc(h, p.Emitted(s, seen), p.SettingOf(id).Emissions(id, p.Entered(seen, id, p.Walked(s, seen))));
    AppendAssoc(e, seen, [id]);
  }

  method VisitEdge(p: Pass, cp: CrossingProcessor, it: CrossingIterator, id: ShapeEdgeId, ghost o: Origin,
                   ghost seen: seq<ShapeEdgeId>) returns (ok: bool)
    requires SetUp(p, cp, it) && p.Explained() && p.Separated() && Poised(p, o, seen, id, cp, it)
    requires cp.SettingFor(it) == p.SettingOf(id) && Aligned(p.crossings, it.pos, id)
    modifies cp, it
    ensures SetUp(p, cp, it) && (cp.hasBuilder ==> ok) && cp.SettingFor(it) == p.SettingOf(id)
    ensures it.pos == SegmentEnd(p.crossings, id, old(it.pos))
    ensures ok ==> Stopped(p, o, seen + [id], cp, it) && StateAtEnd(p, id, cp.inside)
    ensures ok ==> Registered(p, cp.out.sourceIdMap, old(it.pos), it.pos)
    ensures old(cp.out.sourceIdMap).Keys <= cp.out.sourceIdMap.Keys
  {
    hide CrossedParity, CacheFits, ScanFrom, IsInterior, Good, MustRegister, Setting.After, Setting.Emissions,
         Setting.Registers, Pass.SettingOf, Pass.Entered, Pass.Walked, Pass.Emitted, Pass.Explained, Pass.Separated;
    ghost var status := cp.StatusAt(it);
    EdgeIsReady(p, id, status);
    StateMoves(p, id, status);
    SegmentRegisters(p, id, status);
    WalkOn(p, o.status, seen, id, o.history, o.processed);
    ok := cp.ProcessEdge(id, it);
  }

  // ----- a chain -----

  // The edges visited are, in order, exactly those before "upTo" that have to be.
  ghost predicate Visited(p: Pass, visited: seq<ShapeEdgeId>, upTo: ShapeEdgeId)
  {
    && (forall i, j :: 0 <= i < j < |visited| ==> Before(visited[i], visited[j]))
    && (forall i :: 0 <= i < |visited| ==> HasEdge(p.aIndex, visited[i]) && Before(visited[i], upTo) && p.Needed(visited[i]))
    && (forall id :: HasEdge(p.aIndex, id) && Before(id, upTo) && p.Needed(id) ==> id in visited)
  }

  lemma VisitedNext(p: Pass, visited: seq<ShapeEdgeId>, id: ShapeEdgeId)
    requires Visited(p, visited, id) && HasEdge(p.aIndex, id) && p.Needed(id)
    ensures Visited(p, visited + [id], ShapeEdgeId(id.shape, id.edge + 1))
  {
    hide Pass.Needed;
  }

  // Nothing in between has to be visited.
  lemma VisitedSkip(p: Pass, visited: seq<ShapeEdgeId>, from: ShapeEdgeId, to: ShapeEdgeId)
    requires Visited(p, visited, from) && AtMost(from, to)
    requires forall id :: HasEdge(p.aIndex, id) && !Before(id, from) && Before(id, to) ==> !p.Needed(id)
    ensures Visited(p, visited, to)
  {
    hide Pass.Needed;
  }

  // Without crossings between two edges of a chain, and outside at the first,
  // nothing has to be visited in between, and the second starts outside as
  // well.
  lemma SkipInChain(p: Pass, visited: seq<ShapeEdgeId>, s: nat, c: nat, e0: nat, e1: nat, pos: nat)
    requires p.Valid() && p.Explained() && s < |p.aIndex| && c < |p.aIndex[s].chains|
    requires p.aIndex[s].chains[c].start <= e0 <= e1 <= ChainEnd(p.aIndex[s].chains, c)
    requires Visited(p, visited, ShapeEdgeId(s, e0)) && Aligned(p.crossings, pos, ShapeEdgeId(s, e0))
    requires !Before(p.crossings[pos].a, ShapeEdgeId(s, e1))
    requires e0 < e1 ==> HasEdge(p.aIndex, ShapeEdgeId(s, e0)) && StateAtStart(p, ShapeEdgeId(s, e0), false)
    ensures Visited(p, visited, ShapeEdgeId(s, e1)) && Aligned(p.crossings, pos, ShapeEdgeId(s, e1))
    ensures e0 < e1 < ChainEnd(p.aIndex[s].chains, c) ==>
              HasEdge(p.aIndex, ShapeEdgeId(s, e1)) && StateAtStart(p, ShapeEdgeId(s, e1), false)
  {
    hide Visited, Pass.Explained, CrossedParity;
    ChainFits(p.aIndex[s], c);
    forall e | e0 <= e < e1
      ensures !HasCrossing(p.crossings, ShapeEdgeId(s, e))
    {
      NotCrossedBetween(p, pos, ShapeEdgeId(s, e0), ShapeEdgeId(s, e1), ShapeEdgeId(s, e));
    }
    forall e | e0 <= e <= e1 && e < ChainEnd(p.aIndex[s].chains, c) && e0 < e1
      ensures StateAtStart(p, ShapeEdgeId(s, e), false)
    {
      if p.Tracked(s) {
        OutsideRun(p, s, c, e0, e);
      }
    }
    VisitedSkip(p, visited, ShapeEdgeId(s, e0), ShapeEdgeId(s, e1));
  }

  lemma NotCrossedBetween(p: Pass, pos: nat, from: ShapeEdgeId, to: ShapeEdgeId, id: ShapeEdgeId)
    requires p.Valid() && Aligned(p.crossings, pos, from) && !Before(p.crossings[pos].a, to)
    requires !Before(id, from) && Before(id, to)
    ensures !HasCrossing(p.crossings, id)
  {
    forall k | 0 <= k < |p.crossings|
      ensures p.crossings[k].a != id
    {
      if k > pos {
        assert AtMost(p.crossings[pos].a, p.crossings[k].a);
      }
    }
  }

  // After an edge, the iterator is past all its crossings.
  lemma AlignedNext(p: Pass, pos: nat, id: ShapeEdgeId)
    requires p.Valid() && Aligned(p.crossings, pos, id) && id != SENTINEL
    ensures SegmentEnd(p.crossings, id, pos) < |p.crossings|
    ensures Aligned(p.crossings, SegmentEnd(p.crossings, id, pos), ShapeEdgeId(id.shape, id.edge + 1))
    ensures p.crossings[pos].a == id ==> SegmentEnd(p.crossings, id, pos) > pos
  {
    var e := SegmentEnd(p.crossings, id, pos);
    assert p.crossings[|p.crossings| - 1].a == SENTINEL;
    assert e < |p.crossings|;
    if e > pos {
      assert AtMost(p.crossings[e - 1].a, p.crossings[e].a);
    }
  }

  lemma RegisteredJoin(p: Pass, m0: map<Tag, nat>, m1: map<Tag, nat>, a: nat, b: nat, c: nat)
    requires p.Valid() && a <= b <= c < |p.crossings|
    requires Registered(p, m0, a, b) && Registered(p, m1, b, c) && m0.Keys <= m1.Keys
    ensures Registered(p, m1, a, c)
  {
    hide MustRegister;
  }

  // Where the walk goes on, before edge "e" of the chain.
  lemma NextStop(p: Pass, visited: seq<ShapeEdgeId>, s: nat, c: nat, e: nat, pos: nat, inside: bool)
    requires p.Valid() && p.Explained() && s < |p.aIndex| && c < |p.aIndex[s].chains|
    requires p.aIndex[s].chains[c].start <= e <= ChainEnd(p.aIndex[s].chains, c)
    requires Visited(p, visited, ShapeEdgeId(s, e)) && Aligned(p.crossings, pos, ShapeEdgeId(s, e))
    requires e < ChainEnd(p.aIndex[s].chains, c) ==>
               HasEdge(p.aIndex, ShapeEdgeId(s, e)) && StateAtStart(p, ShapeEdgeId(s, e), inside)
    ensures !inside ==>
              var limit, a := ChainEnd(p.aIndex[s].chains, c), p.crossings[pos].a;
              var stop := if a.shape == s && a.edge < limit then a.edge else limit;
              && e <= stop
              && Visited(p, visited, ShapeEdgeId(s, stop)) && Aligned(p.crossings, pos, ShapeEdgeId(s, stop))
              && (stop < limit ==> HasEdge(p.aIndex, ShapeEdgeId(s, stop)) && StateAtStart(p, ShapeEdgeId(s, stop), false))
  {
    hide Visited, Pass.Explained, StateAtStart;
    if !inside {
      var limit, a := ChainEnd(p.aIndex[s].chains, c), p.crossings[pos].a;
      SkipInChain(p, visited, s, c, e, if a.shape == s && a.edge < limit then a.edge else limit, pos);
    }
  }

  // The walk along a chain from edge "start" on: the loop body of AddBoundary.
  method WalkChain(p: Pass, cp: CrossingProcessor, it: CrossingIterator, s: nat, c: nat, start: nat, ghost o: Origin,
                   ghost seen: seq<ShapeEdgeId>) returns (ok: bool, ghost visited: seq<ShapeEdgeId>)
    requires SetUp(p, cp, it) && p.Explained() && p.Separated()
    requires InChainOf(p, cp, s, c) && cp.chainStart <= start < cp.chainLimit
    requires Poised(p, o, seen, ShapeEdgeId(s, start), cp, it)
    requires Aligned(p.crossings, it.pos, ShapeEdgeId(s, start)) && Visited(p, seen, ShapeEdgeId(s, start))
    requires cp.inside || p.crossings[it.pos].a == ShapeEdgeId(s, start)
    requires Registered(p, cp.out.sourceIdMap, 0, it.pos)
    modifies cp, it
    ensures SetUp(p, cp, it) && InChainOf(p, cp, s, c) && (cp.hasBuilder ==> ok)
    ensures ok ==> Rests(p, o, visited, cp, it)
    ensures ok ==> Aligned(p.crossings, it.pos, ShapeEdgeId(s, ChainEnd(p.aIndex[s].chains, c)))
    ensures ok ==> Visited(p, visited, ShapeEdgeId(s, ChainEnd(p.aIndex[s].chains, c)))
    ensures ok ==> Registered(p, cp.out.sourceIdMap, 0, it.pos)
    ensures old(it.pos) <= it.pos && (ok && !old(cp.inside) ==> old(it.pos) < it.pos)
    ensures old(cp.out.sourceIdMap).Keys <= cp.out.sourceIdMap.Keys
  {
    hide Registered, Visited, Pass.Explained, Pass.Separated, CrossedParity, ScanFrom, CacheFits, Aligned, Stopped, Poised,
         Rests, StateAtStart, HasEdge, Pass.Valid, Good, ValidCrossings;
    visited := seen;
    ok := true;
    var edge := start;
    while edge < cp.chainLimit
      invariant SetUp(p, cp, it) && InChainOf(p, cp, s, c) && start <= edge <= cp.chainLimit
      invariant Aligned(p.crossings, it.pos, ShapeEdgeId(s, edge)) && Visited(p, visited, ShapeEdgeId(s, edge))
      invariant if edge < cp.chainLimit then Poised(p, o, visited, ShapeEdgeId(s, edge), cp, it)
                else Rests(p, o, visited, cp, it)
      invariant edge < cp.chainLimit ==> cp.inside || p.crossings[it.pos].a == ShapeEdgeId(s, edge)
      invariant Registered(p, cp.out.sourceIdMap, 0, it.pos)
      invariant old(it.pos) <= it.pos && (edge == start ==> cp.inside == old(cp.inside))
      invariant edge > start && !old(cp.inside) ==> old(it.pos) < it.pos
      invariant old(cp.out.sourceIdMap).Keys <= cp.out.sourceIdMap.Keys
    {
      var id := ShapeEdgeId(s, edge);
      ok := WalkEdge(p, cp, it, id, c, o, visited);
      if !ok {
        return;
      }
      visited := visited + [id];
      StopIsRest(p, o, visited, cp, it);
      NextStop(p, visited, s, c, edge + 1, it.pos, cp.inside);
      if cp.inside {
        edge := edge + 1;
      } else if it.crossings[it.pos].a.shape == s && it.crossings[it.pos].a.edge < cp.chainLimit {
        edge := it.crossings[it.pos].a.edge;
      } else {
        break;
      }
      if edge < cp.chainLimit {
        StaysPoised(p, o, visited, ShapeEdgeId(s, edge), c, cp, it);
      }
    }
  }

  lemma StopIsRest(p: Pass, o: Origin, seen: seq<ShapeEdgeId>, cp: CrossingProcessor, it: CrossingIterator)
    requires Stopped(p, o, seen, cp, it)
    ensures Rests(p, o, seen, cp, it)
  {
  }

  // In a chain the processor goes on with the status that it has.
  lemma StaysPoised(p: Pass, o: Origin, seen: seq<ShapeEdgeId>, id: ShapeEdgeId, c: nat, cp: CrossingProcessor,
                    it: CrossingIterator)
    requires p.Valid() && Stopped(p, o, seen, cp, it) && HasEdge(p.aIndex, id) && StateAtStart(p, id, cp.inside)
    requires c < |p.aIndex[id.shape].chains| && InChain(p.aIndex[id.shape].chains[c], id.edge)
    requires seen != [] && seen[|seen| - 1].shape == id.shape
    requires InChain(p.aIndex[id.shape].chains[c], seen[|seen| - 1].edge)
    ensures Poised(p, o, seen, id, cp, it)
  {
    hide Pass.Walked, Pass.Emitted;
    ChainOfIs(p.aIndex[id.shape], id.edge, c);
    ChainOfIs(p.aIndex[id.shape], seen[|seen| - 1].edge, c);
  }

  // One edge of the walk.
  method WalkEdge(p: Pass, cp: CrossingProcessor, it: CrossingIterator, id: ShapeEdgeId, c: nat, ghost o: Origin,
                  ghost seen: seq<ShapeEdgeId>) returns (ok: bool)
    requires SetUp(p, cp, it) && p.Explained() && p.Separated()
    requires InChainOf(p, cp, id.shape, c) && cp.chainStart <= id.edge < cp.chainLimit
    requires Poised(p, o, seen, id, cp, it)
    requires Aligned(p.crossings, it.pos, id) && Visited(p, seen, id)
    requires cp.inside || p.crossings[it.pos].a == id
    requires Registered(p, cp.out.sourceIdMap, 0, it.pos)
    modifies cp, it
    ensures SetUp(p, cp, it) && InChainOf(p, cp, id.shape, c) && (cp.hasBuilder ==> ok)
    ensures cp.chainLimit == old(cp.chainLimit) && cp.chainStart == old(cp.chainStart)
    ensures ok ==>
              var next := ShapeEdgeId(id.shape, id.edge + 1);
              && Stopped(p, o, seen + [id], cp, it)
              && Aligned(p.crossings, it.pos, next) && Visited(p, seen + [id], next)
              && (id.edge + 1 < cp.chainLimit ==> HasEdge(p.aIndex, next) && StateAtStart(p, next, cp.inside))
    ensures ok ==> Registered(p, cp.out.sourceIdMap, 0, it.pos)
    ensures old(it.pos) <= it.pos && (ok && !old(cp.inside) ==> old(it.pos) < it.pos)
    ensures old(cp.out.sourceIdMap).Keys <= cp.out.sourceIdMap.Keys
  {
    hide Registered, Visited, Pass.Explained, Pass.Separated, CrossedParity, ScanFrom, CacheFits, Good, Stopped, Followed,
         Pass.Walked, Pass.Emitted;
    NotSentinel(p.aIndex, id);
    ChainFits(p.aIndex[id.shape], c);
    ChainOfIs(p.aIndex[id.shape], id.edge, c);
    AlignedNext(p, it.pos, id);
    assert p.Needed(id);
    VisitedNext(p, seen, id);
    NextInChain(p, id, c);
    ghost var m := cp.out.sourceIdMap;
    ok := VisitEdge(p, cp, it, id, o, seen);
    if ok {
      RegisteredJoin(p, m, cp.out.sourceIdMap, 0, old(it.pos), it.pos);
    }
  }

  lemma NextInChain(p: Pass, id: ShapeEdgeId, c: nat)
    requires p.Valid() && HasEdge(p.aIndex, id) && c < |p.aIndex[id.shape].chains|
    requires InChain(p.aIndex[id.shape].chains[c], id.edge)
    ensures var next := ShapeEdgeId(id.shape, id.edge + 1);
            InChain(p.aIndex[id.shape].chains[c], next.edge) ==>
              HasEdge(p.aIndex, next) && forall inside :: StateAtEnd(p, id, inside) ==> StateAtStart(p, next, inside)
  {
    ChainFits(p.aIndex[id.shape], c);
    assert Connected(p.aIndex[id.shape]);
  }

  // ----- the whole boundary -----

  // An id between two chains.
  ghost predicate Boundary(p: Pass, f: ShapeEdgeId)
  {
    f.shape < |p.aIndex| ==>
      forall c :: 0 <= c < |p.aIndex[f.shape].chains| && p.aIndex[f.shape].chains[c].start < f.edge ==>
                    ChainEnd(p.aIndex[f.shape].chains, c) <= f.edge
  }

  // Everything before the boundary "f" is done: what had to be visited has been,
  // and the crossings and chain starts that are left come later.
  ghost predicate DoneBefore(p: Pass, starts: seq<ShapeEdgeId>, visited: seq<ShapeEdgeId>, next: nat, pos: nat, f: ShapeEdgeId)
    requires AreStarts(p, starts)
  {
    && Boundary(p, f) && Visited(p, visited, f) && Aligned(p.crossings, pos, f)
    && next < |starts| && !Before(starts[next], f) && forall i :: 0 <= i < next ==> Before(starts[i], f)
  }

  lemma ChainStartIs(p: Pass, s: nat, c: nat)
    requires p.Valid() && s < |p.aIndex| && c < |p.aIndex[s].chains| && p.aIndex[s].chains[c].length > 0 && p.Tracked(s)
    ensures var start := ShapeEdgeId(s, p.aIndex[s].chains[c].start);
            HasEdge(p.aIndex, start) && (p.IsStart(start) <==> p.Inside(p.EdgeOf(start).v0))
  {
    ChainFits(p.aIndex[s], c);
  }

  // An edge of a later chain without crossings on the way to it lies outside,
  // unless its chain start is still to come.
  lemma OutsideBeyond(p: Pass, starts: seq<ShapeEdgeId>, visited: seq<ShapeEdgeId>, next: nat, pos: nat, f: ShapeEdgeId,
                      id: ShapeEdgeId)
    requires p.Valid() && p.Explained() && AreStarts(p, starts) && DoneBefore(p, starts, visited, next, pos, f)
    requires HasEdge(p.aIndex, id) && p.Tracked(id.shape) && !Before(id, f)
    requires !Before(p.crossings[pos].a, id) && AtMost(id, starts[next]) && id != starts[next]
    ensures !p.Inside(p.EdgeOf(id).v0)
  {
    hide Visited, Pass.Explained;
    var shape := p.aIndex[id.shape];
    var c := shape.ChainOf(id.edge);
    var start := ShapeEdgeId(id.shape, shape.chains[c].start);
    assert !Before(start, f);
    assert start !in starts;
    ChainStartIs(p, id.shape, c);
    forall e | start.edge <= e < id.edge
      ensures !HasCrossing(p.crossings, ShapeEdgeId(id.shape, e))
    {
      NotCrossedBetween(p, pos, f, id, ShapeEdgeId(id.shape, e));
    }
    OutsideRun(p, id.shape, c, start.edge, id.edge);
  }

  // Nothing has to be visited up to the next start or crossing.
  lemma NextEntry(p: Pass, starts: seq<ShapeEdgeId>, visited: seq<ShapeEdgeId>, next: nat, pos: nat, f: ShapeEdgeId)
    requires p.Valid() && p.Explained() && AreStarts(p, starts) && DoneBefore(p, starts, visited, next, pos, f)
    ensures var id := MinId(starts[next], p.crossings[pos].a);
            && Visited(p, visited, id) && Aligned(p.crossings, pos, id) && !Before(id, f)
            && (id != SENTINEL ==> HasEdge(p.aIndex, id) && StateAtStart(p, id, id == starts[next]))
            && (id == SENTINEL ==> pos == |p.crossings| - 1)
  {
    hide Visited, Pass.Explained;
    var id := MinId(starts[next], p.crossings[pos].a);
    forall x | HasEdge(p.aIndex, x) && !Before(x, f) && Before(x, id)
      ensures !p.Needed(x)
    {
      NotCrossedBetween(p, pos, f, id, x);
      if p.Tracked(x.shape) {
        OutsideBeyond(p, starts, visited, next, pos, f, x);
      }
    }
    VisitedSkip(p, visited, f, id);
    SentinelIsLast(p, starts, next, pos);
    if id != SENTINEL && id != starts[next] && p.Tracked(id.shape) {
      OutsideBeyond(p, starts, visited, next, pos, f, id);
    }
  }

  lemma SentinelIsLast(p: Pass, starts: seq<ShapeEdgeId>, next: nat, pos: nat)
    requires p.Valid() && AreStarts(p, starts) && next < |starts| && pos < |p.crossings|
    ensures AtMost(p.crossings[pos].a, SENTINEL) && AtMost(starts[next], SENTINEL)
    ensures starts[next] != SENTINEL ==> p.IsStart(starts[next])
    ensures p.crossings[pos].a != SENTINEL ==> HasEdge(p.aIndex, p.crossings[pos].a)
    ensures p.crossings[pos].a == SENTINEL ==> pos == |p.crossings| - 1
  {
  }

  // A chain start after an edge is after the edge's whole chain.
  lemma StartBeyond(p: Pass, start: ShapeEdgeId, s: nat, c: nat, e: nat)
    requires p.Valid() && p.IsStart(start) && s < |p.aIndex| && c < |p.aIndex[s].chains|
    requires InChain(p.aIndex[s].chains[c], e) && Before(ShapeEdgeId(s, e), start)
    ensures !Before(start, ShapeEdgeId(s, ChainEnd(p.aIndex[s].chains, c)))
  {
    var chains := p.aIndex[start.shape].chains;
    var d :| 0 <= d < |chains| && chains[d].start == start.edge && chains[d].length > 0;
    if start.shape == s {
      if d < c {
        ChainsInOrder(chains, d, c);
      } else if c < d {
        ChainsInOrder(chains, c, d);
      }
    }
  }

  // After a chain, its end is the new boundary.
  lemma ChainDone(p: Pass, starts: seq<ShapeEdgeId>, visited: seq<ShapeEdgeId>, next: nat, pos: nat, s: nat, c: nat, e: nat)
    requires p.Valid() && AreStarts(p, starts) && s < |p.aIndex| && c < |p.aIndex[s].chains|
    requires InChain(p.aIndex[s].chains[c], e) && next < |starts| && Before(ShapeEdgeId(s, e), starts[next])
    requires forall i :: 0 <= i < next ==> AtMost(starts[i], ShapeEdgeId(s, e))
    requires var f := ShapeEdgeId(s, ChainEnd(p.aIndex[s].chains, c));
             Visited(p, visited, f) && Aligned(p.crossings, pos, f)
    ensures DoneBefore(p, starts, visited, next, pos, ShapeEdgeId(s, ChainEnd(p.aIndex[s].chains, c)))
  {
    hide Visited;
    var chains, f := p.aIndex[s].chains, ShapeEdgeId(s, ChainEnd(p.aIndex[s].chains, c));
    forall d | 0 <= d < |chains| && chains[d].start < f.edge
      ensures ChainEnd(chains, d) <= f.edge
    {
      if c < d {
        ChainsInOrder(chains, c, d);
      } else if d < c {
        ChainsInOrder(chains, d, c);
      }
    }
    SentinelIsLast(p, starts, next, pos);
    if Before(starts[next], f) {
      StartBeyond(p, starts[next], s, c, e);
      assert false;
    }
  }

  // One chain of the walk, entered at edge "id".
  method VisitChain(p: Pass, cp: CrossingProcessor, it: CrossingIterator, id: ShapeEdgeId, inside: bool, ghost o: Origin,
                    ghost seen: seq<ShapeEdgeId>) returns (ok: bool, ghost visited: seq<ShapeEdgeId>)
    requires SetUp(p, cp, it) && p.Explained() && p.Separated() && HasEdge(p.aIndex, id)
    requires cp.aShape == p.aIndex[id.shape] && StateAtStart(p, id, inside)
    requires Aligned(p.crossings, it.pos, id) && Visited(p, seen, id)
    requires inside || p.crossings[it.pos].a == id
    requires Rests(p, o, seen, cp, it) && (seen != [] ==> !p.SameChain(seen[|seen| - 1], id))
    requires Registered(p, cp.out.sourceIdMap, 0, it.pos)
    modifies cp, it
    ensures SetUp(p, cp, it) && cp.aShape == p.aIndex[id.shape] && (cp.hasBuilder ==> ok)
    ensures ok ==>
              var f := ShapeEdgeId(id.shape, ChainEnd(cp.aShape.chains, cp.aShape.ChainOf(id.edge)));
              Aligned(p.crossings, it.pos, f) && Visited(p, visited, f) && Rests(p, o, visited, cp, it)
    ensures ok ==> Registered(p, cp.out.sourceIdMap, 0, it.pos)
    ensures old(it.pos) <= it.pos && (ok && !inside ==> old(it.pos) < it.pos)
    ensures old(cp.out.sourceIdMap).Keys <= cp.out.sourceIdMap.Keys
  {
    hide Registered, Visited, Pass.Explained, Pass.Separated, Aligned, Good, CacheFits, Pass.Walked, Pass.Emitted;
    var chainId := cp.aShape.ChainOf(id.edge);
    cp.StartChain(cp.aShape.chains[chainId], inside);
    ok, visited := WalkChain(p, cp, it, id.shape, chainId, id.edge, o, seen);
  }

  // A chain is entered at a start, which is then used up, or at a crossing.
  method EnterChain(p: Pass, starts: seq<ShapeEdgeId>, cp: CrossingProcessor, it: CrossingIterator, id: ShapeEdgeId,
                    nextStart: nat, ghost o: Origin, ghost seen: seq<ShapeEdgeId>, ghost f: ShapeEdgeId)
    returns (ok: bool, next: nat, ghost visited: seq<ShapeEdgeId>)
    requires SetUp(p, cp, it) && p.Explained() && p.Separated() && AreStarts(p, starts)
    requires HasEdge(p.aIndex, id) && cp.aShape == p.aIndex[id.shape]
    requires DoneBefore(p, starts, seen, nextStart, it.pos, f) && Rests(p, o, seen, cp, it)
    requires id == MinId(starts[nextStart], p.crossings[it.pos].a)
    requires Registered(p, cp.out.sourceIdMap, 0, it.pos)
    modifies cp, it
    ensures SetUp(p, cp, it) && cp.aShape == p.aIndex[id.shape] && (cp.hasBuilder ==> ok)
    ensures ok ==> DoneBefore(p, starts, visited, next, it.pos,
                              ShapeEdgeId(id.shape, ChainEnd(cp.aShape.chains, cp.aShape.ChainOf(id.edge))))
    ensures ok ==> Rests(p, o, visited, cp, it)
    ensures ok ==> Registered(p, cp.out.sourceIdMap, 0, it.pos)
    ensures ok ==> nextStart <= next < |starts| && old(it.pos) <= it.pos && nextStart + old(it.pos) < next + it.pos
    ensures old(cp.out.sourceIdMap).Keys <= cp.out.sourceIdMap.Keys
  {
    hide Registered, Visited, Pass.Explained, Pass.Separated, Aligned, StateAtStart, Boundary, Good, CacheFits, Rests,
         Ordered;
    NotSentinel(p.aIndex, id);
    NextEntry(p, starts, seen, nextStart, it.pos, f);
    StartsInOrder(p, starts, nextStart, f, id);
    NewChain(p, seen, f, id);
    var inside := id == starts[nextStart];
    next := nextStart;
    if inside {
      next := next + 1;
    }
    ghost var c := cp.aShape.ChainOf(id.edge);
    ok, visited := VisitChain(p, cp, it, id, inside, o, seen);
    if ok {
      ChainDone(p, starts, visited, next, it.pos, id.shape, c, id.edge);
    }
  }

  // No edge of the chain that follows a boundary has been visited.
  lemma NewChain(p: Pass, seen: seq<ShapeEdgeId>, f: ShapeEdgeId, id: ShapeEdgeId)
    requires p.Valid() && Boundary(p, f) && Visited(p, seen, f) && HasEdge(p.aIndex, id) && !Before(id, f)
    ensures seen != [] ==> HasEdge(p.aIndex, seen[|seen| - 1]) && !p.SameChain(seen[|seen| - 1], id)
  {
    hide Pass.Needed;
    if seen != [] {
      var last := seen[|seen| - 1];
      assert Before(last, f);
    }
  }

  lemma StartsInOrder(p: Pass, starts: seq<ShapeEdgeId>, next: nat, f: ShapeEdgeId, id: ShapeEdgeId)
    requires AreStarts(p, starts) && next < |starts| && id != SENTINEL && !Before(id, f) && AtMost(id, starts[next])
    requires forall i :: 0 <= i < next ==> Before(starts[i], f)
    ensures forall i :: 0 <= i < next ==> AtMost(starts[i], id)
    ensures if id == starts[next] then next + 1 < |starts| && Before(id, starts[next + 1]) else Before(id, starts[next])
  {
  }

  lemma NothingDone(p: Pass, starts: seq<ShapeEdgeId>, m: map<Tag, nat>)
    requires p.Valid() && AreStarts(p, starts)
    ensures DoneBefore(p, starts, [], 0, 0, ShapeEdgeId(0, 0)) && 0 < |starts|
    ensures Registered(p, m, 0, 0)
  {
  }

  // Before the first chain.
  lemma RestsAtStart(p: Pass, o: Origin, cp: CrossingProcessor, it: CrossingIterator)
    requires p.Valid() && o == Origin(p.Start(cp.degenerateHole), cp.history, cp.processed)
    requires it.pos == 0 && it.cache == Moved(ChainCache(-1, None), p.crossings[0])
    ensures Rests(p, o, [], cp, it)
  {
    MovedFits(p.bIndex, p.crossings, 0, ChainCache(-1, None));
    AddNothing(cp.history);
    AddNothing(cp.processed);
  }

  // The chains of one shape, from edge "first" on.
  method VisitShape(p: Pass, starts: seq<ShapeEdgeId>, cp: CrossingProcessor, it: CrossingIterator, first: ShapeEdgeId,
                    start: nat, ghost o: Origin, ghost seen: seq<ShapeEdgeId>, ghost f0: ShapeEdgeId)
    returns (ok: bool, nextStart: nat, nextId: ShapeEdgeId, ghost visited: seq<ShapeEdgeId>, ghost f: ShapeEdgeId)
    requires SetUp(p, cp, it) && p.Explained() && p.Separated() && AreStarts(p, starts) && HasEdge(p.aIndex, first)
    requires DoneBefore(p, starts, seen, start, it.pos, f0) && Rests(p, o, seen, cp, it)
    requires start < |starts| && first == MinId(starts[start], p.crossings[it.pos].a)
    requires Registered(p, cp.out.sourceIdMap, 0, it.pos)
    modifies cp, it
    ensures SetUp(p, cp, it) && (cp.hasBuilder ==> ok)
    ensures ok ==> nextStart < |starts| && DoneBefore(p, starts, visited, nextStart, it.pos, f)
    ensures ok ==> Rests(p, o, visited, cp, it) && nextId == MinId(starts[nextStart], p.crossings[it.pos].a)
    ensures ok ==> Registered(p, cp.out.sourceIdMap, 0, it.pos)
    ensures ok ==> start <= nextStart && old(it.pos) <= it.pos && start + old(it.pos) < nextStart + it.pos
    ensures old(cp.out.sourceIdMap).Keys <= cp.out.sourceIdMap.Keys
  {
    hide Registered, Visited, Pass.Explained, Pass.Separated, Aligned, StateAtStart, DoneBefore, AreStarts, Ordered,
         CacheFits, Good, Rests, Pass.CanWalk, Pass.Walked, Pass.Emitted;
    var shape := first.shape;
    cp.StartShape(p.aIndex[shape]);
    ok, nextStart, nextId, visited, f := true, start, first, seen, f0;
    NotSentinel(p.aIndex, first);
    while nextId.shape == shape
      invariant SetUp(p, cp, it) && cp.aShape == p.aIndex[shape] && shape < MAX_ID && Rests(p, o, visited, cp, it)
      invariant DoneBefore(p, starts, visited, nextStart, it.pos, f) && nextStart < |starts|
      invariant nextId == MinId(starts[nextStart], p.crossings[it.pos].a)
      invariant Registered(p, cp.out.sourceIdMap, 0, it.pos)
      invariant start <= nextStart && old(it.pos) <= it.pos
      invariant nextId == first || start + old(it.pos) < nextStart + it.pos
      invariant old(cp.out.sourceIdMap).Keys <= cp.out.sourceIdMap.Keys
      decreases (|p.crossings| - it.pos) + (|starts| - nextStart)
    {
      NextEntry(p, starts, visited, nextStart, it.pos, f);
      ok, nextStart, visited := EnterChain(p, starts, cp, it, nextId, nextStart, o, visited, f);
      if !ok {
        return;
      }
      f := ShapeEdgeId(shape, ChainEnd(cp.aShape.chains, cp.aShape.ChainOf(nextId.edge)));
      nextId := MinId(starts[nextStart], it.crossings[it.pos].a);
    }
  }

  lemma RestIs(p: Pass, o: Origin, seen: seq<ShapeEdgeId>, cp: CrossingProcessor, it: CrossingIterator)
    requires Rests(p, o, seen, cp, it)
    ensures p.CanWalk(o.status, seen) && cp.history == o.history + p.Emitted(o.status, seen)
    ensures cp.processed == o.processed + seen && cp.degenerateHole == p.Walked(o.status, seen).holes
  {
  }

  // Clips the boundary of A to the inside of B.  The edges processed are exactly
  // those that start inside or have crossings, once each and in order; and what
  // is emitted for them is determined by the pass alone.
  method AddBoundary(p: Pass, starts: seq<ShapeEdgeId>, cp: CrossingProcessor)
    returns (ok: bool, ghost visited: seq<ShapeEdgeId>)
    requires p.Valid() && p.Explained() && p.Separated() && AreStarts(p, starts)
    requires cp.Valid() && cp.regions == p.Regions() && cp.model == p.model
    modifies cp
    ensures cp.Valid() && (cp.hasBuilder ==> ok)
    ensures ok ==> Visited(p, visited, SENTINEL) && cp.processed == old(cp.processed) + visited
    ensures ok ==>
              var s := p.Start(old(cp.degenerateHole));
              && p.CanWalk(s, visited) && cp.history == old(cp.history) + p.Emitted(s, visited)
              && cp.degenerateHole == p.Walked(s, visited).holes
    ensures ok ==> Registered(p, cp.out.sourceIdMap, 0, |p.crossings| - 1)
    ensures old(cp.out.sourceIdMap).Keys <= cp.out.sourceIdMap.Keys
  {
    hide Registered, Visited, Pass.Explained, Pass.Separated, Aligned, StateAtStart, DoneBefore, AreStarts, Ordered,
         CacheFits, Good, Rests, Pass.CanWalk, Pass.Walked, Pass.Emitted;
    cp.StartBoundary(p.aRegion, p.invertA, p.invertB, p.invertResult);
    var it := new CrossingIterator(p.bIndex, p.crossings, true);
    ghost var o := Origin(p.Start(cp.degenerateHole), cp.history, cp.processed);
    assert SetUp(p, cp, it);
    visited, ok := [], true;
    var nextStart: nat := 0;
    ghost var f := ShapeEdgeId(0, 0);
    NothingDone(p, starts, cp.out.sourceIdMap);
    RestsAtStart(p, o, cp, it);
    var nextId := MinId(starts[nextStart], it.crossings[it.pos].a);
    while nextId != SENTINEL
      invariant SetUp(p, cp, it) && fresh(it) && Rests(p, o, visited, cp, it)
      invariant DoneBefore(p, starts, visited, nextStart, it.pos, f) && nextStart < |starts|
      invariant nextId == MinId(starts[nextStart], p.crossings[it.pos].a)
      invariant Registered(p, cp.out.sourceIdMap, 0, it.pos)
      invariant old(cp.out.sourceIdMap).Keys <= cp.out.sourceIdMap.Keys
      decreases (|p.crossings| - it.pos) + (|starts| - nextStart)
    {
      NextEntry(p, starts, visited, nextStart, it.pos, f);
      ok, nextStart, nextId, visited, f := VisitShape(p, starts, cp, it, nextId, nextStart, o, visited, f);
      if !ok {
        return;
      }
    }
    NextEntry(p, starts, visited, nextStart, it.pos, f);
    RestIs(p, o, visited, cp, it);
  }

  // ----- what the walk amounts to -----

  lemma VisitedPrefix(p: Pass, visited: seq<ShapeEdgeId>, f: ShapeEdgeId, i: nat)
    requires Visited(p, visited, f) && i < |visited|
    ensures Visited(p, visited[..i], visited[i])
  {
    hide Pass.Needed;
    forall id | HasEdge(p.aIndex, id) && Before(id, visited[i]) && p.Needed(id)
      ensures id in visited[..i]
    {
      assert id in visited;
      var j :| 0 <= j < |visited| && visited[j] == id;
      assert j < i;
      assert visited[..i][j] == id;
    }
  }

  // Up to a needed edge, the crossings of the edges visited are all there are.
  lemma AlignedFurther(p: Pass, visited: seq<ShapeEdgeId>, pos: nat, from: ShapeEdgeId, to: ShapeEdgeId)
    requires p.Valid() && Visited(p, visited, to) && AtMost(from, to) && AtMost(to, SENTINEL)
    requires forall i :: 0 <= i < |visited| ==> Before(visited[i], from)
    requires Aligned(p.crossings, pos, from)
    ensures Aligned(p.crossings, pos, to)
  {
    var a := p.crossings[pos].a;
    if a != SENTINEL && Before(a, to) {
      assert HasCrossing(p.crossings, a);
      assert false;
    }
  }

  // A walk over the needed edges consumes all crossings before the place that
  // it has come to.
  lemma {:induction false} WalkConsumes(p: Pass, s: Status, visited: seq<ShapeEdgeId>, f: ShapeEdgeId)
    requires p.Valid() && Visited(p, visited, f) && AtMost(f, SENTINEL) && p.CanWalk(s, visited) && s.pos == 0
    ensures Aligned(p.crossings, p.Walked(s, visited).pos, f)
  {
    hide Visited, At, Pass.Needed, Aligned, Setting.After, Pass.Entered;
    if visited == [] {
      AlignedAtStart(p, f);
    } else {
      var n := |visited| - 1;
      var id := visited[n];
      NotSentinel(p.aIndex, id);
      VisitedPrefix(p, visited, f, n);
      LastVisited(p, visited, f);
      WalkConsumes(p, s, visited[..n], id);
      AlignedNext(p, p.Walked(s, visited[..n]).pos, id);
      AlignedFurther(p, visited, p.Walked(s, visited).pos, ShapeEdgeId(id.shape, id.edge + 1), f);
    }
  }

  lemma AlignedAtStart(p: Pass, f: ShapeEdgeId)
    requires p.Valid() && Visited(p, [], f) && AtMost(f, SENTINEL)
    ensures Aligned(p.crossings, 0, f)
  {
    AlignedFurther(p, [], 0, ShapeEdgeId(0, 0), f);
  }

  lemma LastVisited(p: Pass, visited: seq<ShapeEdgeId>, f: ShapeEdgeId)
    requires ValidIndex(p.aIndex) && Visited(p, visited, f) && AtMost(f, SENTINEL) && visited != []
    ensures var id := visited[|visited| - 1];
            && HasEdge(p.aIndex, id) && AtMost(id, SENTINEL) && AtMost(ShapeEdgeId(id.shape, id.edge + 1), f)
            && forall i :: 0 <= i < |visited| ==> Before(visited[i], ShapeEdgeId(id.shape, id.edge + 1))
  {
    hide Pass.Needed;
  }

  lemma PrefixCanWalk(p: Pass, s: Status, visited: seq<ShapeEdgeId>, i: nat)
    requires p.CanWalk(s, visited) && i < |visited|
    ensures p.CanWalk(s, visited[..i]) && HasEdge(p.aIndex, visited[i])
  {
    hide At;
  }

  // In a whole pass every edge visited scans exactly its own crossings, and in
  // the end none is left.
  lemma ScansOwnCrossings(p: Pass, s: Status, visited: seq<ShapeEdgeId>, i: nat)
    requires p.Valid() && Visited(p, visited, SENTINEL) && p.CanWalk(s, visited) && s.pos == 0 && i < |visited|
    ensures p.CanWalk(s, visited[..i]) && p.Walked(s, visited[..i]).pos == First(p.crossings, visited[i], 0)
    ensures p.Walked(s, visited).pos == |p.crossings| - 1
  {
    hide At, Pass.Needed, Pass.Walked, Visited;
    PrefixCanWalk(p, s, visited, i);
    VisitedPrefix(p, visited, SENTINEL, i);
    assert AtMost(visited[i], SENTINEL);
    WalkConsumes(p, s, visited[..i], visited[i]);
    FirstIs(p.crossings, visited[i], p.Walked(s, visited[..i]).pos);
    WalkConsumes(p, s, visited, SENTINEL);
  }

  // An edge without crossings is emitted, once and as it is, if and only if it
  // starts inside.
  lemma UncrossedEdges(p: Pass, s: Status, visited: seq<ShapeEdgeId>, id: ShapeEdgeId)
    requires p.Valid() && Visited(p, visited, SENTINEL) && p.CanWalk(s, visited)
    requires HasEdge(p.aIndex, id) && p.Tracked(id.shape) && !HasCrossing(p.crossings, id)
    ensures id in visited <==> p.StartsInside(id)
    ensures forall i, j :: 0 <= i < j < |visited| ==> visited[i] != visited[j]
    ensures forall i :: 0 <= i < |visited| && visited[i] == id ==>
                          var t, u := p.SettingOf(id), p.Entered(visited[..i], id, p.Walked(s, visited[..i]));
                          && t.Ready(id, u)
                          && t.Emissions(id, u) == [EdgeEmission(p.EdgeOf(id), p.aIndex[id.shape].dimension, t.State(true), 0, [])]
  {
    hide At, Pass.Walked, Pass.Tracked, Pass.Inside, Setting.Emissions;
    assert Before(id, SENTINEL);
    forall i | 0 <= i < |visited| && visited[i] == id
      ensures var t, u := p.SettingOf(id), p.Entered(visited[..i], id, p.Walked(s, visited[..i]));
              && t.Ready(id, u)
              && t.Emissions(id, u) == [EdgeEmission(p.EdgeOf(id), p.aIndex[id.shape].dimension, t.State(true), 0, [])]
    {
      PrefixCanWalk(p, s, visited, i);
      UncrossedEdge(p, id, p.Entered(visited[..i], id, p.Walked(s, visited[..i])));
    }
  }

  lemma UncrossedEdge(p: Pass, id: ShapeEdgeId, s: Status)
    requires p.Valid() && HasEdge(p.aIndex, id) && p.Tracked(id.shape) && !HasCrossing(p.crossings, id)
    requires At(p.bIndex, p.crossings, s.pos, s.cache) && s.inside
    ensures var t := p.SettingOf(id);
            && t.Ready(id, s)
            && t.Emissions(id, s) == [EdgeEmission(p.EdgeOf(id), p.aIndex[id.shape].dimension, t.State(true), 0, [])]
  {
    hide CacheFits, Setting.Emissions;
    NotSentinel(p.aIndex, id);
    assert p.aIndex[id.shape].Valid() && PointsAreDegenerate(p.aIndex[id.shape]);
    p.SettingOf(id).UncrossedEdge(id, s);
  }

  // ----- both boundaries -----

  ghost predicate HasPolygon(index: Index)
  {
    exists s :: 0 <= s < |index| && index[s].dimension == 2
  }

  method HasInterior(index: Index) returns (r: bool)
    ensures r <==> HasPolygon(index)
  {
    var s := |index|;
    while s > 0
      invariant 0 <= s <= |index| && forall t :: s <= t < |index| ==> index[t].dimension != 2
    {
      s := s - 1;
      if index[s].dimension == 2 {
        return true;
      }
    }
    r := false;
  }

  // Every crossing of the first pass is also one of the second, seen from the
  // other side.
  ghost predicate SeenBy(c: seq<IndexCrossing>, d: seq<IndexCrossing>)
  {
    forall j :: 0 <= j < |c| - 1 ==> SeenAs(c[j], d)
  }

  ghost predicate SeenAs(x: IndexCrossing, d: seq<IndexCrossing>)
  {
    exists k :: 0 <= k < |d| - 1 && d[k].a == x.b && d[k].b == x.a && d[k].isInterior == x.isInterior
  }

  // The two passes of an operation.
  ghost predicate ArePair(p: Pass, q: Pass)
  {
    && p.Valid() && q.Valid() && p.Explained() && q.Explained() && p.Separated() && q.Separated()
    && p.aRegion == 0 && q.aRegion == 1 && q.model == p.model && q.aIndex == p.bIndex && q.bIndex == p.aIndex
    && q.invertA == p.invertB && q.invertB == p.invertA && q.invertResult == p.invertResult
    && SeenBy(p.crossings, q.crossings) && SeenBy(q.crossings, p.crossings)
    && (HasPolygon(p.bIndex) || forall x :: !p.contains(x)) && (HasPolygon(q.bIndex) || forall x :: !q.contains(x))
  }

  // What one pass logs, the other registers.
  lemma LoggedIsRegistered(p: Pass, q: Pass, c: Crosser, m: map<Tag, nat>)
    requires p.Valid() && q.Valid() && SeenBy(p.crossings, q.crossings) && q.aRegion == 1 - p.aRegion
    requires q.aIndex == p.bIndex && q.bIndex == p.aIndex && q.invertA == p.invertB && q.invertResult == p.invertResult
    requires LoggedIn(p, c) && Registered(q, m, 0, |q.crossings| - 1)
    ensures c.tag in m
  {
    var j :| 0 <= j < |p.crossings| - 1 && IsInterior(p.crossings[j], p.bIndex)
             && LogsFor(p, j) && c.tag == BySource(if p.aRegion == 0 then 1 else 0, p.crossings[j].b);
    assert SeenAs(p.crossings[j], q.crossings);
    var k :| 0 <= k < |q.crossings| - 1 && q.crossings[k].a == p.crossings[j].b && q.crossings[k].b == p.crossings[j].a
             && q.crossings[k].isInterior == p.crossings[j].isInterior;
    assert q.aIndex[q.crossings[k].a.shape].Valid();
    assert MustRegister(q, k);
  }

  // Crossings with lines are logged exactly if the other pass emits lines.
  lemma DropsUntracked(p: Pass, q: Pass, x: ShapeEdgeId, s: nat)
    requires ValidIndex(p.aIndex) && HasEdge(p.aIndex, x) && q.aIndex == p.bIndex && s < |q.aIndex|
    requires q.invertA == p.invertB && q.invertResult == p.invertResult && q.aIndex[s].dimension == 1
    ensures p.SettingOf(x).Side().dropLines <==> !q.Tracked(s)
    ensures p.SettingOf(x).Side().bRegion != p.aRegion && p.SettingOf(x).Side().aDimension == p.aIndex[x.shape].dimension
  {
  }

  // After both passes every edge in the log has an input id.
  lemma AllResolved(p: Pass, q: Pass, o: Output, h0: seq<Emission>, h1: seq<Emission>, h2: seq<Emission>, current: ClipState)
    requires ArePair(p, q) && AllByInput(h0)
    requires LogsFrom(p, h0, h1) && LogsFrom(q, h1, h2)
    requires Registered(p, o.sourceIdMap, 0, |p.crossings| - 1) && Registered(q, o.sourceIdMap, 0, |q.crossings| - 1)
    requires Represents(o.inputCrossings + o.sourceEdgeCrossings, h2, current)
    ensures Resolved(o.sourceEdgeCrossings, o.sourceIdMap)
  {
    hide LoggedIn, Registered, SeenBy, Pass.Explained, Pass.Separated, EntriesOf, CrossersOf, ApplyAll, Pass.Valid;
    var log := o.inputCrossings + o.sourceEdgeCrossings;
    forall i | 0 <= i < |o.sourceEdgeCrossings| && o.sourceEdgeCrossings[i].tag.BySource?
      ensures o.sourceEdgeCrossings[i].tag in o.sourceIdMap
    {
      var e := o.sourceEdgeCrossings[i];
      assert log[|o.inputCrossings| + i] == e;
      var k, c := e.edge, Crosser(e.tag, e.flag);
      EntryIsRead(log, |o.inputCrossings| + i);
      CrosserIsRead(EntriesOf(log, k), e);
      assert k < |h2| && ReadsAs(log, h2, k);
      var n :| 0 <= n < |h2[k].crossers| && h2[k].crossers[n] == c;
      if |h1| <= k {
        LoggedIsRegistered(q, p, c, o.sourceIdMap);
      } else {
        assert h2[k] == h1[k] && |h0| <= k;
        LoggedIsRegistered(p, q, c, o.sourceIdMap);
      }
    }
  }

  lemma GoodRepresents(o: Output, regions: seq<Index>, h: seq<Emission>, state: ClipState)
    requires Good(o, regions, h, state)
    ensures Represents(o.inputCrossings + o.sourceEdgeCrossings, h, o.Current(state))
  {
  }

  lemma RegisteredGrows(p: Pass, m0: map<Tag, nat>, m1: map<Tag, nat>, b: nat)
    requires p.Valid() && b < |p.crossings| && Registered(p, m0, 0, b) && m0.Keys <= m1.Keys
    ensures Registered(p, m1, 0, b)
  {
    hide MustRegister;
  }

  // ----- identical regions -----

  ghost predicate SameStructure(a: Shape, b: Shape)
  {
    a.dimension == b.dimension && a.chains == b.chains && |a.edges| == |b.edges|
  }

  // Chains that follow one another are equal if their lengths are.
  lemma {:induction false} SameLengths(a: seq<Chain>, b: seq<Chain>, n: nat)
    requires Contiguous(a) && Contiguous(b) && n <= |a| == |b|
    requires forall c :: 0 <= c < n ==> a[c].length == b[c].length
    ensures a[..n] == b[..n]
  {
    if n > 0 {
      SameLengths(a, b, n - 1);
      if n > 1 {
        assert a[n - 2 + 1].start == ChainEnd(a, n - 2) && a[n - 2] == a[..n - 1][n - 2];
        assert b[n - 2 + 1].start == ChainEnd(b, n - 2) && b[n - 2] == b[..n - 1][n - 2];
      }
      assert a[..n] == a[..n - 1] + [a[n - 1]] && b[..n] == b[..n - 1] + [b[n - 1]];
    }
  }

  method HaveSameStructure(a: Shape, b: Shape) returns (r: bool)
    requires a.Valid() && b.Valid() && PointsAreDegenerate(a) && PointsAreDegenerate(b)
    ensures r <==> SameStructure(a, b)
  {
    if a.dimension != b.dimension || |a.chains| != |b.chains| || |a.edges| != |b.edges| {
      return false;
    }
    if a.dimension > 0 {
      for c := 0 to |a.chains|
        invariant forall d :: 0 <= d < c ==> a.chains[d].length == b.chains[d].length
      {
        if a.chains[c].length != b.chains[c].length {
          return false;
        }
      }
    }
    SameLengths(a.chains, b.chains, |a.chains|);
    assert a.chains == a.chains[..|a.chains|] && b.chains == b.chains[..|b.chains|];
    r := true;
  }

  method HaveSameEdges(a: Shape, b: Shape) returns (r: bool)
    requires a.Valid() && b.Valid() && SameStructure(a, b)
    ensures r <==> a == b
  {
    for c := 0 to |a.chains|
      invariant forall e :: 0 <= e < |a.edges| && e < EdgeLimit(a, c) ==> a.edges[e] == b.edges[e]
    {
      var chain := a.chains[c];
      ChainFits(a, c);
      for i := 0 to chain.length
        invariant forall e :: 0 <= e < chain.start + i ==> a.edges[e] == b.edges[e]
      {
        var e := chain.start + i;
        if a.edges[e].v0 != b.edges[e].v0 || a.edges[e].v1 != b.edges[e].v1 {
          return false;
        }
      }
    }
    assert a.edges == b.edges;
    r := true;
  }

  // Dimensions and chains are compared first, and vertices only if all of them
  // agree.
  method AreRegionsIdentical(a: Index, b: Index) returns (r: bool)
    requires ValidIndex(a) && ValidIndex(b)
    requires forall s :: 0 <= s < |a| ==> PointsAreDegenerate(a[s])
    requires forall s :: 0 <= s < |b| ==> PointsAreDegenerate(b[s])
    ensures r <==> a == b
  {
    hide Shape.Valid, PointsAreDegenerate;
    if |a| != |b| {
      return false;
    }
    for s := 0 to |a|
      invariant forall t :: 0 <= t < s ==> SameStructure(a[t], b[t])
    {
      r := HaveSameStructure(a[s], b[s]);
      if !r {
        return;
      }
    }
    for s := 0 to |a|
      invariant forall t :: 0 <= t < s ==> a[t] == b[t]
    {
      r := HaveSameEdges(a[s], b[s]);
      if !r {
        return;
      }
    }
    r := true;
  }

  // ----- both passes -----

  // What is logged with the emissions of a pass has been found on it.
  lemma {:induction false} EmittedLogs(p: Pass, s: Status, visited: seq<ShapeEdgeId>, h: seq<Emission>)
    requires p.Valid() && p.CanWalk(s, visited)
    ensures LogsFrom(p, h, h + p.Emitted(s, visited))
  {
    hide LoggedIn, At, LogsFrom, Pass.Valid, Pass.SettingOf, Setting.Emissions;
    if visited == [] {
      LogsNothing(p, h);
    } else {
      var seen, id := visited[..|visited| - 1], visited[|visited| - 1];
      EmittedLogs(p, s, seen, h);
      EdgeLogs(p, id, p.Entered(seen, id, p.Walked(s, seen)), h + p.Emitted(s, seen));
      AppendAssoc(h, p.Emitted(s, seen), p.SettingOf(id).Emissions(id, p.Entered(seen, id, p.Walked(s, seen))));
      LogsFromTrans(p, h, h + p.Emitted(s, seen), h + p.Emitted(s, visited));
    }
  }

  lemma LogsNothing(p: Pass, h: seq<Emission>)
    requires p.Valid()
    ensures LogsFrom(p, h, h + [])
  {
    AddNothing(h);
  }

  lemma EdgeLogs(p: Pass, id: ShapeEdgeId, s: Status, h: seq<Emission>)
    requires p.Valid() && HasEdge(p.aIndex, id) && At(p.bIndex, p.crossings, s.pos, s.cache)
    ensures p.SettingOf(id).Ready(id, s) && LogsFrom(p, h, h + p.SettingOf(id).Emissions(id, s))
  {
    hide Pass.Valid, At, LogsFrom, NewCrossers, NoNewCrossers, Setting.Emissions;
    ValidParts(p);
    NotSentinel(p.aIndex, id);
    var t := p.SettingOf(id);
    t.LogsOwnCrossings(p.Regions(), h, id, s);
    NewAreLogged(p, h, h + t.Emissions(id, s), id, t.Side());
  }

  // Both passes, unless two identical regions are subtracted.  Afterwards all
  // crossings in the log name emitted edges; what has been emitted is that of
  // the first pass followed by that of the second, which knows the degenerate
  // loops found by the first.
  method AddBoundaryPair(p: Pass, q: Pass, cp: CrossingProcessor, isDifference: bool)
    returns (ok: bool, ghost a: seq<ShapeEdgeId>, ghost b: seq<ShapeEdgeId>, ghost ids: map<Tag, nat>)
    requires ArePair(p, q) && cp.Valid() && cp.hasBuilder && cp.regions == p.Regions() && cp.model == p.model
    requires AllByInput(cp.history) && cp.out.sourceEdgeCrossings == []
    modifies cp
    ensures ok && cp.Valid() && AllByInput(cp.history) && cp.out.sourceEdgeCrossings == []
    ensures if isDifference && p.aIndex == p.bIndex then
              cp.history == old(cp.history) && cp.processed == old(cp.processed) && cp.out == old(cp.out)
            else
              var s := p.Start(old(cp.degenerateHole));
              && Visited(p, a, SENTINEL) && Visited(q, b, SENTINEL) && cp.processed == old(cp.processed) + a + b
              && p.CanWalk(s, a)
              && var t := q.Start(p.Walked(s, a).holes);
                 && q.CanWalk(t, b)
                 && cp.history == RetagHistory(ids, old(cp.history) + p.Emitted(s, a) + q.Emitted(t, b))
                 && NamesEdges(ids, cp.regions, cp.history)
  {
    hide Good, Pass.Explained, Pass.Separated, Registered, LogsFrom, Visited, AreStarts, SeenBy, AllByInput, Ordered,
         NamesEdges, Pass.Emitted, Pass.Walked, Pass.CanWalk;
    a, b, ids := [], [], map[];
    if isDifference {
      var identical := AreRegionsIdentical(p.aIndex, q.aIndex);
      if identical {
        return true, a, b, ids;
      }
    }
    var bHasInterior := HasInterior(p.bIndex);
    var aHasInterior := HasInterior(q.bIndex);
    var aStarts := GetChainStarts(p, bHasInterior);
    var bStarts := GetChainStarts(q, aHasInterior);
    ghost var s := p.Start(cp.degenerateHole);
    ok, a := AddBoundary(p, aStarts, cp);
    EmittedLogs(p, s, a, old(cp.history));
    ghost var h1, m1 := cp.history, cp.out.sourceIdMap;
    ghost var t := q.Start(cp.degenerateHole);
    ok, b := AddBoundary(q, bStarts, cp);
    EmittedLogs(q, t, b, h1);
    RegisteredGrows(p, m1, cp.out.sourceIdMap, |p.crossings| - 1);
    GoodRepresents(cp.out, cp.regions, cp.history, cp.State());
    AllResolved(p, q, cp.out, old(cp.history), h1, cp.history, cp.out.Current(cp.State()));
    ids := cp.out.sourceIdMap;
    cp.DoneBoundaryPair();
  }
}
