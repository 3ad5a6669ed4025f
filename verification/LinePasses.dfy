/**
 Points and polyline edges over a pass: they come out as containment in the
 polygons, polylines and points of the other region says.
 */
module LinePasses {
  import opened Common
  import opened Shapes
  import opened EdgeScan
  import opened BoundaryRules
  import opened ClipLog
  import opened Outputs
  import opened Processor
  import opened BoundaryWalk
  import opened Containment
  import opened SharedPasses
  import L = PointLoops

  // Does a region have a polyline edge between the same vertices?
  ghost predicate HasLineAlong(index: Index, e: Edge)
  {
    exists y, f :: IsEdgeIn(index, y, f, 1) && (f == e || f == Reversed(e))
  }

  lemma LineIsFound(p: Pass, x: ShapeEdgeId, s: Status)
    requires AtEdge(p, x, s) && p.SettingOf(x).Ready(x, s) && Listed(p) && p.aIndex[x.shape].dimension == 1
    ensures p.SettingOf(x).Scanned(x, s).r.matchesPolyline <==> HasLineAlong(p.bIndex, p.EdgeOf(x))
  {
    hide CacheFits, ScanFrom, Aligned, Ordered;
    ValidParts(p);
    var side, a := p.SettingOf(x).Side(), p.EdgeOf(x);
    ScanRaises(OnLine, side, x, a, p.crossings, s.pos, Scan(NO_CROSSINGS, [], s.cache));
    var e := SegmentEnd(p.crossings, x, s.pos);
    forall j: nat | s.pos <= j < e && Raises(OnLine, side, a, p.crossings[j])
      ensures HasLineAlong(p.bIndex, a)
    {
      var y := p.crossings[j].b;
      assert IsEdgeIn(p.bIndex, y, p.bIndex[y.shape].edges[y.edge], 1);
    }
    forall y, f | IsEdgeIn(p.bIndex, y, f, 1) && (f == a || f == Reversed(a))
      ensures IsRaised(OnLine, side, a, p.crossings, s.pos, e)
    {
      assert IsEdgeIn(p.aIndex, x, a, 1);
      assert ListsPair(p.crossings, x, y);
      var k :| 0 <= k < |p.crossings| - 1 && p.crossings[k].a == x && p.crossings[k].b == y && !p.crossings[k].isInterior;
      InOwnSegment(p, x, s.pos, k);
      assert Raises(OnLine, side, a, p.crossings[k]);
    }
  }

  // Is a polyline edge of A, just past its start, contained in B?
  ghost predicate LineIsInside(p: Pass, x: ShapeEdgeId)
    requires HasEdge(p.aIndex, x)
  {
    var a, isUnion := p.EdgeOf(x), p.invertB && p.invertResult;
    || (HasLineAlong(p.bIndex, a) && !isUnion)
    || EdgeInPolygons(p.model.polygon, p.past(x), HasPolygonEdge(p.bIndex, a), HasPolygonEdge(p.bIndex, Reversed(a)))
  }

  lemma LineIsKept(p: Pass, x: ShapeEdgeId, s: Status)
    requires AtEdge(p, x, s) && p.ExplainedPast() && Listed(p) && p.Tracked(x.shape) && StateAtStart(p, x, s.inside)
    requires p.aIndex[x.shape].dimension == 1 && p.EdgeOf(x).v0 != p.EdgeOf(x).v1
    ensures p.SettingOf(x).Ready(x, s) && p.SettingOf(x).LineAt(x, s).Kept() == (LineIsInside(p, x) != p.invertB)
  {
    hide CacheFits, Setting.Scanned, Odd, HasLineAlong, HasPolygonEdge, Listed, Pass.ExplainedPast, At, Aligned,
         IsPolylineEdgeInside, EdgeInPolygons;
    StatePastStart(p, x, s);
    LineIsFound(p, x, s);
    MatchIff(p, x, s);
    var r := p.SettingOf(x).Scanned(x, s).r;
    EdgeFollowsModel(p.model, p.invertB && p.invertResult, p.invertB, s.inside != Odd(r.a0Crossings), r, false);
  }

  // Main result: a polyline edge that is visited in a whole pass is emitted in that
  // state, or to be cut at its interior crossings; otherwise only vertices are.
  lemma LineEdgesFollowModel(p: Pass, s: Status, visited: seq<ShapeEdgeId>, i: nat)
    requires p.Valid() && p.CanWalk(s, visited) && s.pos == 0 && Visited(p, visited, SENTINEL) && i < |visited|
    requires p.ExplainedPast() && Listed(p)
    requires var x := visited[i];
             HasEdge(p.aIndex, x) && p.Tracked(x.shape) && p.aIndex[x.shape].dimension == 1 && p.EdgeOf(x).v0 != p.EdgeOf(x).v1
    ensures p.CanWalk(s, visited[..i])
    ensures var x, u := visited[i], p.Entered(visited[..i], visited[i], p.Walked(s, visited[..i]));
            && p.SettingOf(x).Ready(x, u)
            && var t, scan, inside := p.SettingOf(x), p.SettingOf(x).Scanned(x, u), LineIsInside(p, x) != p.invertB;
               var e := EdgeEmission(p.EdgeOf(x), 1, t.State(inside), scan.r.interiorCrossings, scan.pending);
               if inside || scan.r.interiorCrossings > 0 then e in t.Emissions(x, u)
               else forall y :: y in t.Emissions(x, u) ==> y.edge.v0 == y.edge.v1
  {
    hide At, Pass.Walked, Pass.ExplainedPast, Aligned, Visited, Listed, Setting.Scanned, LineIsInside, Line.Kept, Logged;
    PrefixWalk(p, s, visited, i);
    LineIsKept(p, visited[i], p.Entered(visited[..i], visited[i], p.Walked(s, visited[..i])));
    LineEmits(p, visited[i], p.Entered(visited[..i], visited[i], p.Walked(s, visited[..i])));
  }

  lemma LineEmits(p: Pass, x: ShapeEdgeId, u: Status)
    requires AtEdge(p, x, u) && p.SettingOf(x).Ready(x, u) && p.Tracked(x.shape) && p.aIndex[x.shape].dimension == 1
    ensures var t, scan, kept := p.SettingOf(x), p.SettingOf(x).Scanned(x, u), p.SettingOf(x).LineAt(x, u).Kept();
            var e := EdgeEmission(p.EdgeOf(x), 1, t.State(kept), scan.r.interiorCrossings, scan.pending);
            if kept || scan.r.interiorCrossings > 0 then e in t.Emissions(x, u)
            else forall y :: y in t.Emissions(x, u) ==> y.edge.v0 == y.edge.v1
  {
    hide At, Setting.Scanned, Aligned, Line.Kept, Line.StartIsolated, Line.EndIsolated, Logged, Odd;
  }

  // ----- points -----

  ghost predicate Meets(index: Index, y: ShapeEdgeId, v: Point)
  {
    HasEdge(index, y) && IsEndOf(v, index[y.shape].edges[y.edge])
  }

  ghost predicate Lists(crossings: seq<IndexCrossing>, x: ShapeEdgeId, y: ShapeEdgeId)
  {
    exists k :: 0 <= k < |crossings| - 1 && crossings[k].a == x && crossings[k].b == y
  }

  // The crossings of a point are with the edges that meet it.
  ghost predicate PointsListed(p: Pass)
  {
    forall x, y, v :: IsEdgeIn(p.aIndex, x, Edge(v, v), 0) ==> (Lists(p.crossings, x, y) <==> Meets(p.bIndex, y, v))
  }

  lemma PointFlagIs(p: Pass, x: ShapeEdgeId, s: Status, flag: PointFlag, v: Point)
    requires AtEdge(p, x, s) && p.SettingOf(x).Ready(x, s) && PointsListed(p) && IsEdgeIn(p.aIndex, x, Edge(v, v), 0)
    requires OneLineEach(p.model, p.bIndex) && Remembered(s.cache)
    ensures flag.Of(p.SettingOf(x).PointScanned(x, s))
            <==> exists y :: Meets(p.bIndex, y, v) && RaisesPoint(flag, p.model, v, y, p.bIndex)
  {
    hide CacheFits, PointScanFrom, Aligned, Ordered, RaisesPoint, OneLineEach;
    ValidParts(p);
    PointScanRaises(flag, p.model, x, v, p.bIndex, p.crossings, s.pos, PointScan(false, false, false, s.cache));
    var e := SegmentEnd(p.crossings, x, s.pos);
    forall j: nat | s.pos <= j < e && RaisesPoint(flag, p.model, v, p.crossings[j].b, p.bIndex)
      ensures Meets(p.bIndex, p.crossings[j].b, v)
    {
      SentinelEnds(p.crossings, p.bIndex, x, s.pos, j);
      assert Lists(p.crossings, x, p.crossings[j].b);
    }
    forall y | Meets(p.bIndex, y, v) && RaisesPoint(flag, p.model, v, y, p.bIndex)
      ensures IsRaisedAtPoint(flag, p.model, v, p.crossings, s.pos, e, p.bIndex)
    {
      assert Lists(p.crossings, x, y);
      var k :| 0 <= k < |p.crossings| - 1 && p.crossings[k].a == x && p.crossings[k].b == y;
      InOwnSegment(p, x, s.pos, k);
    }
  }

  lemma SentinelEnds(crossings: seq<IndexCrossing>, bIndex: Index, x: ShapeEdgeId, k: nat, j: nat)
    requires ValidCrossings(crossings, bIndex) && x != SENTINEL && k < |crossings| && k <= j < SegmentEnd(crossings, x, k)
    ensures j < |crossings| - 1 && crossings[j].a == x
  {
  }

  // Does some polyline contain the point?
  ghost predicate OnPolyline(m: Model, index: Index, v: Point)
    requires ValidIndex(index)
  {
    exists s, c :: ContainedInLine(m, index, v, s, c)
  }

  ghost predicate ContainedInLine(m: Model, index: Index, v: Point, s: nat, c: nat)
    requires ValidIndex(index)
  {
    && s < |index| && index[s].dimension == 1 && c < |index[s].chains| && index[s].chains[c].length > 0
    && LineContains(m, index[s], index[s].chains[c], v) && !IsTiny(m, index[s], index[s].chains[c], 0)
  }

  // That is so if some edge that meets it says so.
  lemma LinesContain(m: Model, index: Index, v: Point)
    requires ValidIndex(index) && forall s :: 0 <= s < |index| ==> Connected(index[s])
    ensures OnPolyline(m, index, v) <==> exists y :: Meets(index, y, v) && RaisesPoint(InLine, m, v, y, index)
  {
    hide LineContains, IsTiny, ContainsVertex, Connected;
    forall y | Meets(index, y, v) && RaisesPoint(InLine, m, v, y, index)
      ensures OnPolyline(m, index, v)
    {
      var shape, c := index[y.shape], index[y.shape].ChainOf(y.edge);
      PolylineContainsVertex(m, shape, shape.chains[c], v, 0);
      assert EdgeContains(m, shape, shape.chains[c], v, 0, y.edge);
      assert ContainedInLine(m, index, v, y.shape, c);
    }
    forall s: nat, c: nat | ContainedInLine(m, index, v, s, c)
      ensures exists y :: Meets(index, y, v) && RaisesPoint(InLine, m, v, y, index)
    {
      var shape := index[s];
      PolylineContainsVertex(m, shape, shape.chains[c], v, 0);
      var e: nat :| EdgeContains(m, shape, shape.chains[c], v, 0, e);
      ChainOfIs(shape, e, c);
      assert Meets(index, ShapeEdgeId(s, e), v) && RaisesPoint(InLine, m, v, ShapeEdgeId(s, e), index);
    }
  }

  // Is a point contained in B?
  ghost predicate PointIsInside(p: Pass, v: Point)
    requires ValidIndex(p.bIndex)
  {
    var isUnion := p.invertB && p.invertResult;
    || (!isUnion && exists y :: Meets(p.bIndex, y, v) && p.bIndex[y.shape].dimension == 0)
    || OnPolyline(p.model, p.bIndex, v)
    || VertexInPolygons(p.model.polygon, p.contains(v), exists y :: Meets(p.bIndex, y, v) && p.bIndex[y.shape].dimension == 2)
  }

  // A point comes out exactly if it is, if the chains that are looked at are the
  // right ones.
  lemma PointIsKept(p: Pass, x: ShapeEdgeId, s: Status, v: Point)
    requires AtEdge(p, x, s) && PointsListed(p) && IsEdgeIn(p.aIndex, x, Edge(v, v), 0) && p.Tracked(x.shape)
    requires s.inside == p.StartsInside(x) && OneLineEach(p.model, p.bIndex) && Remembered(s.cache)
    requires forall t :: 0 <= t < |p.bIndex| ==> Connected(p.bIndex[t])
    ensures p.SettingOf(x).Ready(x, s)
    ensures p.SettingOf(x).Emissions(x, s)
            == If(PointIsInside(p, v) != p.invertB, PointEmission(v, 0, p.SettingOf(x).State(s.inside)))
  {
    hide At, CacheFits, Setting.PointScanned, OneLineEach, PointsListed, OnPolyline, Aligned, IsPointInside, VertexInPolygons,
         Connected, Remembered, ContainsVertex;
    EdgeIsReady(p, x, s);
    ValidParts(p);
    PointFlagIs(p, x, s, OnPoint, v);
    PointFlagIs(p, x, s, OnVertexOfPolygon, v);
    PointFlagIs(p, x, s, InLine, v);
    LinesContain(p.model, p.bIndex, v);
    PointFollowsModel(p.model, p.invertB && p.invertResult, p.invertB, s.inside, p.SettingOf(x).PointScanned(x, s));
  }

  // ----- what is remembered is always the chain of some edge -----

  lemma {:induction false} ScanRemembers(side: Side, id: ShapeEdgeId, a: Edge, crossings: seq<IndexCrossing>, k: nat, s: Scan)
    requires id != SENTINEL && At(side.bIndex, crossings, k, s.cache) && Remembered(s.cache)
    ensures Remembered(ScanFrom(side, id, a, crossings, k, s).cache)
    decreases |crossings| - k
  {
    hide Step, CacheFits, Remembered;
    if crossings[k].a == id {
      StepKeepsCache(side, a, crossings[k], s);
      StepRemembers(side, a, crossings[k], s);
      var u := Step(side, a, crossings[k], s);
      MovedFits(side.bIndex, crossings, k + 1, u.cache);
      MovedRemembers(u.cache, crossings[k + 1]);
      ScanRemembers(side, id, a, crossings, k + 1, u.(cache := Moved(u.cache, crossings[k + 1])));
    }
  }

  lemma {:induction false} PointScanRemembers(m: Model, id: ShapeEdgeId, v: Point, bIndex: Index, crossings: seq<IndexCrossing>,
                                              k: nat, s: PointScan)
    requires id != SENTINEL && At(bIndex, crossings, k, s.cache) && Remembered(s.cache)
    ensures Remembered(PointScanFrom(m, id, v, bIndex, crossings, k, s).cache)
    decreases |crossings| - k
  {
    hide CacheFits, Remembered, PointStep;
    if crossings[k].a == id {
      PointStepRemembers(m, v, crossings[k], bIndex, s);
      var u := PointStep(m, v, crossings[k], bIndex, s);
      MovedFits(bIndex, crossings, k + 1, u.cache);
      MovedRemembers(u.cache, crossings[k + 1]);
      PointScanRemembers(m, id, v, bIndex, crossings, k + 1, u.(cache := Moved(u.cache, crossings[k + 1])));
    }
  }

  lemma PointStepRemembers(m: Model, v: Point, x: IndexCrossing, bIndex: Index, s: PointScan)
    requires ValidIndex(bIndex) && HasEdge(bIndex, x.b) && CacheFits(s.cache, bIndex) && s.cache.shape == x.b.shape
    requires Remembered(s.cache)
    ensures Remembered(PointStep(m, v, x, bIndex, s).cache)
  {
    hide CacheFits, ContainsVertex;
  }

  lemma {:induction false} SkipRemembers(id: ShapeEdgeId, bIndex: Index, crossings: seq<IndexCrossing>, k: nat, cache: ChainCache)
    requires id != SENTINEL && At(bIndex, crossings, k, cache) && Remembered(cache)
    ensures Remembered(SkipFrom(id, bIndex, crossings, k, cache))
    decreases |crossings| - k
  {
    hide CacheFits, Remembered;
    if crossings[k].a == id {
      MovedFits(bIndex, crossings, k + 1, cache);
      MovedRemembers(cache, crossings[k + 1]);
      SkipRemembers(id, bIndex, crossings, k + 1, Moved(cache, crossings[k + 1]));
    }
  }

  lemma EdgeRemembers(p: Pass, x: ShapeEdgeId, s: Status)
    requires p.Valid() && HasEdge(p.aIndex, x) && At(p.bIndex, p.crossings, s.pos, s.cache) && Remembered(s.cache)
    ensures p.SettingOf(x).Ready(x, s) && Remembered(p.SettingOf(x).After(x, s).cache)
  {
    hide At, ScanFrom, PointScanFrom, SkipFrom, Remembered, Setting.InsideAfter, Setting.LineAt, Setting.FaceAt, Pass.Valid;
    ValidParts(p);
    NotSentinel(p.aIndex, x);
    var t := p.SettingOf(x);
    ScanRemembers(t.Side(), x, t.EdgeOf(x), p.crossings, s.pos, Scan(NO_CROSSINGS, [], s.cache));
    PointScanRemembers(t.model, x, t.EdgeOf(x).v0, p.bIndex, p.crossings, s.pos, PointScan(false, false, false, s.cache));
    SkipRemembers(x, p.bIndex, p.crossings, s.pos, s.cache);
  }

  lemma {:induction false} WalkRemembers(p: Pass, s: Status, visited: seq<ShapeEdgeId>, n: nat)
    requires p.Valid() && p.CanWalk(s, visited) && n <= |visited| && Remembered(s.cache)
    ensures p.CanWalk(s, visited[..n]) && Remembered(p.Walked(s, visited[..n]).cache)
  {
    hide At, Setting.After, Pass.SettingOf, Pass.Valid, Pass.Entered, Remembered;
    if n > 0 {
      WalkRemembers(p, s, visited, n - 1);
      assert visited[..n][..n - 1] == visited[..n - 1];
      PrefixOf(p, s, visited, n);
      L.WalkedStep(p, s, visited[..n]);
      SameCache(p, visited[..n - 1], visited[n - 1], p.Walked(s, visited[..n - 1]));
      EdgeRemembers(p, visited[n - 1], p.Entered(visited[..n - 1], visited[n - 1], p.Walked(s, visited[..n - 1])));
    }
  }

  lemma SameCache(p: Pass, seen: seq<ShapeEdgeId>, x: ShapeEdgeId, s: Status)
    requires ValidIndex(p.aIndex) && p.AreEdges(seen) && HasEdge(p.aIndex, x)
    ensures p.Entered(seen, x, s).cache == s.cache
  {
  }

  // Main result: a point that is visited in a whole pass, from the start on, comes
  // out exactly if B, after inversion, contains it.
  lemma PointsFollowModel(p: Pass, holes: map<ShapeEdgeId, bool>, visited: seq<ShapeEdgeId>, i: nat, v: Point)
    requires p.Valid() && p.CanWalk(p.Start(holes), visited) && Visited(p, visited, SENTINEL) && i < |visited|
    requires PointsListed(p) && IsEdgeIn(p.aIndex, visited[i], Edge(v, v), 0) && p.Tracked(visited[i].shape)
    requires OneLineEach(p.model, p.bIndex) && forall t :: 0 <= t < |p.bIndex| ==> Connected(p.bIndex[t])
    ensures p.CanWalk(p.Start(holes), visited[..i])
    ensures var x, u := visited[i], p.Entered(visited[..i], visited[i], p.Walked(p.Start(holes), visited[..i]));
            && p.SettingOf(x).Ready(x, u)
            && p.SettingOf(x).Emissions(x, u)
               == If(PointIsInside(p, v) != p.invertB, PointEmission(v, 0, p.SettingOf(x).State(u.inside)))
  {
    hide At, Pass.Walked, Pass.Valid, Aligned, Visited, PointsListed, OneLineEach, Connected, Setting.Emissions, PointIsInside;
    ValidParts(p);
    var s := p.Start(holes);
    PrefixWalk(p, s, visited, i);
    WalkRemembers(p, s, visited, i);
    SameCache(p, visited[..i], visited[i], p.Walked(s, visited[..i]));
    PointIsKept(p, visited[i], p.Entered(visited[..i], visited[i], p.Walked(s, visited[..i])), v);
  }
}
