/**
 Point loops that both regions have at the same place: the table of degenerate
 loops that the first pass leaves to the second, and what the second makes of it.
 */
module PointLoops {
  import opened Common
  import opened Shapes
  import opened EdgeScan
  import opened BoundaryRules
  import opened ClipLog
  import opened Outputs
  import opened Processor
  import opened BoundaryWalk

  // ----- the table after the first pass -----

  // An edge of B that is a point loop.
  ghost predicate IsLoopAt(p: Pass, id: ShapeEdgeId, v: Point)
  {
    HasEdge(p.bIndex, id) && p.bIndex[id.shape].edges[id.edge] == Edge(v, v)
  }

  // What the matches of an edge are.
  lemma MatchesAre(p: Pass, x: ShapeEdgeId, s: Status)
    requires p.Valid() && HasEdge(p.aIndex, x) && At(p.bIndex, p.crossings, s.pos, s.cache)
    ensures p.SettingOf(x).Ready(x, s)
    ensures var r, a := p.SettingOf(x).Scanned(x, s).r, p.EdgeOf(x);
            && (r.a0LoopMatch.Some? ==> IsLoopAt(p, r.a0LoopMatch.value, a.v0))
            && (r.polygonMatch.Some? ==> forall v :: !IsLoopAt(p, r.polygonMatch.value, v))
            && (r.siblingMatch.Some? ==> forall v :: !IsLoopAt(p, r.siblingMatch.value, v))
  {
    hide Step, CacheFits, FromCrossings, ScanFrom, IsInterior;
    NotSentinel(p.aIndex, x);
    var t, a, scan := p.SettingOf(x), p.EdgeOf(x), Scan(NO_CROSSINGS, [], s.cache);
    NothingScanned(p.crossings, x, s.pos, t.Side(), a, scan, World([], []));
    ScanSources(t.Side(), x, a, p.crossings, s.pos, scan);
  }

  // One edge of the first pass: a loop gets the status of the place where it is
  // found, and no other entry concerns it.
  lemma EdgeKnowsLoops(p: Pass, x: ShapeEdgeId, s: Status, id: ShapeEdgeId, v: Point)
    requires p.Valid() && p.aRegion == 0 && HasEdge(p.aIndex, x) && At(p.bIndex, p.crossings, s.pos, s.cache)
    requires IsLoopAt(p, id, v) && s.inside == p.StartsInside(x)
    ensures var t := p.SettingOf(x);
            && t.Ready(x, s)
            && (id in t.After(x, s).holes ==>
                  t.After(x, s).holes[id] == p.Inside(v) || (id in s.holes && t.After(x, s).holes[id] == s.holes[id]))
            && (id in s.holes ==> id in t.After(x, s).holes)
            && (p.aIndex[x.shape].dimension == 2 && t.Scanned(x, s).r.a0LoopMatch == Some(id) ==> id in t.After(x, s).holes)
  {
    hide CacheFits, At, Setting.After, Setting.Scanned, Setting.FaceAt, Face.HolesAfter, IsLoopAt, Pass.SettingOf, Pass.Inside;
    MatchesAre(p, x, s);
    AfterHoles(p, x, s);
    if p.aIndex[x.shape].dimension == 2 {
      TrackedPolygon(p, x, id, v);
      FaceKnows(p.SettingOf(x).FaceAt(x, s), id);
    }
  }

  lemma TrackedPolygon(p: Pass, x: ShapeEdgeId, id: ShapeEdgeId, v: Point)
    requires HasEdge(p.aIndex, x) && p.aIndex[x.shape].dimension == 2 && IsLoopAt(p, id, v)
    ensures p.StartsInside(x) == p.Inside(p.EdgeOf(x).v0)
    ensures IsLoopAt(p, id, p.EdgeOf(x).v0) ==> v == p.EdgeOf(x).v0
  {
  }

  // The table after one edge.
  lemma AfterHoles(p: Pass, x: ShapeEdgeId, s: Status)
    requires p.Valid() && HasEdge(p.aIndex, x) && At(p.bIndex, p.crossings, s.pos, s.cache)
    ensures var t := p.SettingOf(x);
            && t.Ready(x, s)
            && var f, r := t.FaceAt(x, s), t.Scanned(x, s).r;
               && t.After(x, s).holes == (if p.aIndex[x.shape].dimension == 2 then f.HolesAfter() else s.holes)
               && f.holes == s.holes && f.inside == s.inside && f.op.emitShared == (p.aRegion == 1)
               && f.r.a0LoopMatch == r.a0LoopMatch
               && ((f.r.polygonMatch == r.polygonMatch && f.r.siblingMatch == r.siblingMatch)
                   || (f.r.polygonMatch == r.siblingMatch && f.r.siblingMatch == r.polygonMatch))
  {
    hide ScanFrom, CacheFits, At, Setting.InsideAfter, Setting.CacheAfter, Setting.Scanned, Setting.LineAt, Face.HolesAfter;
    ValidParts(p);
    NotSentinel(p.aIndex, x);
    assert p.aIndex[x.shape].Valid();
  }

  // An edge of the first pass that does not match a polygon edge "id" in full
  // only notes whether it found it as a loop.
  lemma FaceKnows(f: Face, id: ShapeEdgeId)
    requires !f.op.emitShared && f.r.polygonMatch != Some(id) && f.r.siblingMatch != Some(id)
    ensures id in f.HolesAfter() ==>
              || (f.r.a0LoopMatch == Some(id) && f.HolesAfter()[id] == f.inside)
              || (id in f.holes && f.HolesAfter()[id] == f.holes[id])
    ensures id in f.holes || f.r.a0LoopMatch == Some(id) ==> id in f.HolesAfter()
  {
  }

  lemma FaceKeepsTable(f: Face, id: ShapeEdgeId)
    requires f.op.emitShared
    ensures Lookup(f.HolesAfter(), id) == Lookup(f.holes, id)
  {
  }

  // After any edges of the first pass: whatever is known of a point loop of B is
  // whether it lies inside.
  lemma {:induction false} TableKnowsLoops(p: Pass, s: Status, visited: seq<ShapeEdgeId>, id: ShapeEdgeId, v: Point)
    requires p.Valid() && p.aRegion == 0 && p.CanWalk(s, visited) && IsLoopAt(p, id, v) && id !in s.holes
    ensures id in p.Walked(s, visited).holes ==> p.Walked(s, visited).holes[id] == p.Inside(v)
  {
    hide At, Setting.After, Pass.SettingOf, IsLoopAt, Pass.Valid;
    if visited != [] {
      var n := |visited| - 1;
      PrefixCanWalk(p, s, visited, n);
      TableKnowsLoops(p, s, visited[..n], id, v);
      EdgeKnowsLoops(p, visited[n], p.Entered(visited[..n], visited[n], p.Walked(s, visited[..n])), id, v);
    }
  }

  lemma WalkedStep(p: Pass, s: Status, visited: seq<ShapeEdgeId>)
    requires p.Valid() && p.CanWalk(s, visited) && visited != []
    ensures var seen, x := visited[..|visited| - 1], visited[|visited| - 1];
            && p.CanWalk(s, seen) && HasEdge(p.aIndex, x)
            && var u := p.Entered(seen, x, p.Walked(s, seen));
               p.SettingOf(x).Ready(x, u) && p.Walked(s, visited) == p.SettingOf(x).After(x, u)
  {
    hide At, Setting.After, Pass.Entered, Pass.Valid;
    ValidParts(p);
    NotSentinel(p.aIndex, visited[|visited| - 1]);
  }

  // A loop that some edge finds is in the table from then on.
  lemma {:induction false} TableFindsLoops(p: Pass, s: Status, visited: seq<ShapeEdgeId>, id: ShapeEdgeId, v: Point, i: nat)
    requires p.Valid() && p.aRegion == 0 && p.CanWalk(s, visited) && IsLoopAt(p, id, v) && i < |visited|
    requires p.CanWalk(s, visited[..i]) && Finds(p, s, visited[..i], visited[i], id)
    ensures id in p.Walked(s, visited).holes
  {
    hide At, Setting.After, Setting.Scanned, Pass.Walked, Pass.SettingOf, IsLoopAt, Pass.Valid;
    var n := |visited| - 1;
    WalkedStep(p, s, visited);
    EdgeKnowsLoops(p, visited[n], p.Entered(visited[..n], visited[n], p.Walked(s, visited[..n])), id, v);
    if i < n {
      assert visited[..n][..i] == visited[..i];
      TableFindsLoops(p, s, visited[..n], id, v, i);
    }
  }

  // The polygon edge "x", processed after others, finds this loop at its start.
  ghost predicate Finds(p: Pass, s: Status, seen: seq<ShapeEdgeId>, x: ShapeEdgeId, id: ShapeEdgeId)
    requires p.CanWalk(s, seen)
  {
    && HasEdge(p.aIndex, x) && p.aIndex[x.shape].dimension == 2 && x != SENTINEL
    && p.SettingOf(x).Scanned(x, p.Entered(seen, x, p.Walked(s, seen))).r.a0LoopMatch == Some(id)
  }

  // ----- the second pass -----

  // In the second pass entries are only added, and what is added reads as a
  // shell, as a missing entry does.
  lemma EdgeKeepsTable(p: Pass, x: ShapeEdgeId, s: Status, id: ShapeEdgeId)
    requires p.Valid() && p.aRegion == 1 && HasEdge(p.aIndex, x) && At(p.bIndex, p.crossings, s.pos, s.cache)
    ensures p.SettingOf(x).Ready(x, s)
    ensures Lookup(p.SettingOf(x).After(x, s).holes, id) == Lookup(s.holes, id)
  {
    hide CacheFits, At, Setting.After, Setting.Scanned, Setting.FaceAt, Face.HolesAfter, Pass.SettingOf, Lookup;
    AfterHoles(p, x, s);
    if p.aIndex[x.shape].dimension == 2 {
      FaceKeepsTable(p.SettingOf(x).FaceAt(x, s), id);
    }
  }

  lemma {:induction false} WalkKeepsTable(p: Pass, s: Status, visited: seq<ShapeEdgeId>, id: ShapeEdgeId)
    requires p.Valid() && p.aRegion == 1 && p.CanWalk(s, visited)
    ensures Lookup(p.Walked(s, visited).holes, id) == Lookup(s.holes, id)
  {
    hide At, Setting.After, Pass.SettingOf, Pass.Valid, Lookup;
    if visited != [] {
      var n := |visited| - 1;
      PrefixCanWalk(p, s, visited, n);
      WalkKeepsTable(p, s, visited[..n], id);
      EdgeKeepsTable(p, visited[n], p.Entered(visited[..n], visited[n], p.Walked(s, visited[..n])), id);
    }
  }

  // ----- both passes -----

  // What a pass does with its edge number i.
  function FaceAt(p: Pass, s: Status, visited: seq<ShapeEdgeId>, i: nat): Face
    requires p.CanWalk(s, visited) && i < |visited|
  {
    PrefixCanWalk(p, s, visited, i);
    NotSentinel(p.aIndex, visited[i]);
    p.SettingOf(visited[i]).FaceAt(visited[i], p.Entered(visited[..i], visited[i], p.Walked(s, visited[..i])))
  }

  // A point loop that finds another one.
  lemma LoopFace(p: Pass, s: Status, visited: seq<ShapeEdgeId>, i: nat, v: Point, id: ShapeEdgeId)
    requires p.Valid() && p.CanWalk(s, visited) && i < |visited| && HasEdge(p.aIndex, visited[i])
    requires p.EdgeOf(visited[i]) == Edge(v, v)
    requires p.CanWalk(s, visited[..i]) && Finds(p, s, visited[..i], visited[i], id)
    ensures var f := FaceAt(p, s, visited, i);
            && f.IsPoint() && f.aId == visited[i] && f.inside == p.Inside(v)
            && f.r.a0LoopMatch == Some(id) && f.r.polygonMatch.None? && f.r.siblingMatch.None? && f.r.a0Crossings == 0
            && f.op == Operation(p.model.polygon, p.invertA, p.invertB, p.aRegion == 1)
            && f.holes == p.Walked(s, visited[..i]).holes
  {
    hide ScanFrom, CacheFits, At, CrossedParity, PendingFits, FromCrossings, Pass.Walked, Pass.Valid;
    ValidParts(p);
    NotSentinel(p.aIndex, visited[i]);
    var u := p.Entered(visited[..i], visited[i], p.Walked(s, visited[..i]));
    p.SettingOf(visited[i]).ScanFacts(p.Regions(), visited[i], u);
  }

  // Both regions have a point loop at v, edge number i of the first pass and j of
  // the second, and each finds the other.  Unless degeneracies are created or
  // kept anyway, the loop is meant to be kept if both are holes or both are
  // shells.  The first pass leaves the loop to the second, which knows whether
  // the loop of region 1 is a hole under that loop's id, but looks under the id
  // of the loop of region 0.  So the rule is followed if and only if that entry,
  // which belongs to another edge of region 1 or is missing, says the same.
  lemma PointLoopRule(p: Pass, q: Pass, s: Status, t: Status, a: seq<ShapeEdgeId>, b: seq<ShapeEdgeId>, i: nat, j: nat,
                      v: Point)
    requires p.Valid() && q.Valid() && p.aRegion == 0 && q.aRegion == 1 && q.aIndex == p.bIndex
    requires p.CanWalk(s, a) && q.CanWalk(t, b) && s.holes == map[] && t.holes == p.Walked(s, a).holes
    requires IsLoopOf(p, s, a, i, v, b, j) && IsLoopOf(q, t, b, j, v, a, i)
    ensures var f, g := FaceAt(p, s, a, i), FaceAt(q, t, b, j);
            && f.Emissions() == []
            && b[j] in t.holes && t.holes[b[j]] == p.Inside(v)
            && (!g.op.CreateDegen() && !g.op.KeepDegenA() ==>
                  ((g.Kept() <==> q.Inside(v) == p.Inside(v)) <==> Lookup(t.holes, a[i]) == t.holes[b[j]]))
  {
    hide Finds, FaceAt, Pass.Walked, Pass.Valid, Pass.SettingOf, Operation.CreateDegen, Operation.KeepDegenA, At, Lookup,
         Face.Kept, Face.Emissions;
    TableFindsLoops(p, s, a, b[j], v, i);
    TableKnowsLoops(p, s, a, b[j], v);
    LoopFace(p, s, a, i, v, b[j]);
    LoopFace(q, t, b, j, v, a[i]);
    WalkKeepsTable(q, t, b[..j], a[i]);
    DeferredLoop(FaceAt(p, s, a, i));
    if !FaceAt(q, t, b, j).op.CreateDegen() && !FaceAt(q, t, b, j).op.KeepDegenA() {
      KeptLoop(FaceAt(q, t, b, j));
    }
  }

  // Edge number i of a pass is a point loop at v and finds edge number j of the
  // other pass.
  ghost predicate IsLoopOf(p: Pass, s: Status, visited: seq<ShapeEdgeId>, i: nat, v: Point, other: seq<ShapeEdgeId>, j: nat)
    requires p.CanWalk(s, visited)
  {
    && i < |visited| && j < |other| && HasEdge(p.aIndex, visited[i]) && p.EdgeOf(visited[i]) == Edge(v, v)
    && p.CanWalk(s, visited[..i]) && Finds(p, s, visited[..i], visited[i], other[j])
  }

  lemma KeptLoop(g: Face)
    requires g.IsPoint() && g.r.a0LoopMatch.Some? && g.r.a0Crossings == 0 && g.op.emitShared
    requires !g.op.CreateDegen() && !g.op.KeepDegenA()
    ensures g.Kept() <==> g.inside == Lookup(g.holes, g.r.a0LoopMatch.value)
  {
  }

  lemma DeferredLoop(f: Face)
    requires f.IsPoint() && f.r.a0LoopMatch.Some? && !f.op.emitShared
    ensures f.Emissions() == []
  {
  }

  // ----- an example -----

  // A point hole at v on either side; region 1 has another one at w before it.
  function HolePass(region: nat, v: Point, w: Point): Pass
  {
    var one, two := [Shape(2, [Edge(v, v)], [Chain(0, 1)])], [Shape(2, [Edge(w, w), Edge(v, v)], [Chain(0, 1), Chain(1, 1)])];
    var x, y, model := ShapeEdgeId(0, 0), ShapeEdgeId(0, 1), Model(PolygonSemiOpen, PolylineSemiOpen, true);
    var end := IndexCrossing(SENTINEL, SENTINEL, false, false, false);
    if region == 0 then
      Pass(model, 0, one, two, [IndexCrossing(x, y, false, false, false), end], (p: Point) => true, (id: ShapeEdgeId) => true, false, false,
           false)
    else
      Pass(model, 1, two, one, [IndexCrossing(y, x, false, false, false), end], (p: Point) => true, (id: ShapeEdgeId) => true, false, false,
           false)
  }

  lemma HolePassIsValid(region: nat, v: Point, w: Point)
    requires region <= 1
    ensures HolePass(region, v, w).Valid()
  {
    var one, two := Shape(2, [Edge(v, v)], [Chain(0, 1)]), Shape(2, [Edge(w, w), Edge(v, v)], [Chain(0, 1), Chain(1, 1)]);
    assert one.Valid() && two.Valid();
    assert Connected(one) && Connected(two);
  }

  // A point edge changes nothing if it has no interior crossings.
  lemma {:induction false} PointDoesNotToggle(a: Edge, crossings: seq<IndexCrossing>, k: nat, e: nat, bIndex: Index)
    requires k <= e <= |crossings| && (forall j :: k <= j < e ==> HasEdge(bIndex, crossings[j].b) && !crossings[j].isInterior)
    requires a.v0 == a.v1
    ensures !CrossedParity(a, crossings, k, e, bIndex)
    decreases e - k
  {
    if k < e {
      PointDoesNotToggle(a, crossings, k + 1, e, bIndex);
    }
  }

  lemma PointsAreExplained(p: Pass)
    requires p.Valid() && forall id :: HasEdge(p.aIndex, id) ==> p.EdgeOf(id).v0 == p.EdgeOf(id).v1
    requires forall j :: 0 <= j < |p.crossings| - 1 ==> !p.crossings[j].isInterior
    ensures p.Explained() && p.Separated()
  {
    hide CrossedParity, Pass.Valid, First;
    ValidParts(p);
    forall id | HasEdge(p.aIndex, id)
      ensures !p.ParityOf(id)
    {
      NotSentinel(p.aIndex, id);
      var k := First(p.crossings, id, 0);
      InSegment(p.crossings, p.bIndex, id, k);
      PointDoesNotToggle(p.EdgeOf(id), p.crossings, k, SegmentEnd(p.crossings, id, k), p.bIndex);
    }
  }

  lemma HolePassIsExplained(region: nat, v: Point, w: Point)
    requires region <= 1
    ensures HolePass(region, v, w).Valid() && HolePass(region, v, w).Explained() && HolePass(region, v, w).Separated()
  {
    hide Pass.Valid, Pass.Explained, Pass.Separated;
    HolePassIsValid(region, v, w);
    PointsAreExplained(HolePass(region, v, w));
  }

  lemma HolePassesArePair(v: Point, w: Point)
    ensures ArePair(HolePass(0, v, w), HolePass(1, v, w))
  {
    hide Pass.Valid, Pass.Explained, Pass.Separated, SeenAs;
    var p, q := HolePass(0, v, w), HolePass(1, v, w);
    HolePassIsExplained(0, v, w);
    HolePassIsExplained(1, v, w);
    Reflected(p.crossings, q.crossings);
    Reflected(q.crossings, p.crossings);
    assert p.bIndex[0].dimension == 2 && q.bIndex[0].dimension == 2;
  }

  lemma Reflected(c: seq<IndexCrossing>, d: seq<IndexCrossing>)
    requires |c| == |d| == 2 && d[0].a == c[0].b && d[0].b == c[0].a && d[0].isInterior == c[0].isInterior
    ensures SeenBy(c, d)
  {
    assert SeenAs(c[0], d);
  }

  // Every edge starts inside and is visited.
  function HoleEdges(region: nat): seq<ShapeEdgeId>
  {
    if region == 0 then [ShapeEdgeId(0, 0)] else [ShapeEdgeId(0, 0), ShapeEdgeId(0, 1)]
  }

  lemma HoleEdgesAreVisited(region: nat, v: Point, w: Point)
    requires region <= 1
    ensures Visited(HolePass(region, v, w), HoleEdges(region), SENTINEL)
  {
    var p, edges := HolePass(region, v, w), HoleEdges(region);
    forall id | HasEdge(p.aIndex, id)
      ensures id in edges && p.StartsInside(id)
    {
      assert edges[id.edge] == id;
    }
  }

  // A scan of one crossing, with a point loop at the place of the edge.
  lemma FindsOne(t: Setting, id: ShapeEdgeId, s: Status)
    requires t.Ready(id, s) && s.pos < |t.crossings| - 1 && t.crossings[s.pos].a == id && t.crossings[s.pos + 1].a != id
    requires t.shape.dimension == 2 && IsLoopMatch(t.EdgeOf(id), t.crossings[s.pos], t.bIndex)
    ensures t.Scanned(id, s).r.a0LoopMatch == Some(t.crossings[s.pos].b)
  {
    hide Step, CacheFits, IsMatch, IsLoopMatch, IsInterior;
    var scan := Scan(NO_CROSSINGS, [], s.cache);
    StepKeepsCache(t.Side(), t.EdgeOf(id), t.crossings[s.pos], scan);
    StepMatches(t.Side(), t.EdgeOf(id), t.crossings[s.pos], scan);
    var u := Step(t.Side(), t.EdgeOf(id), t.crossings[s.pos], scan);
    MovedFits(t.bIndex, t.crossings, s.pos + 1, u.cache);
    var next := u.(cache := Moved(u.cache, t.crossings[s.pos + 1]));
    assert ScanFrom(t.Side(), id, t.EdgeOf(id), t.crossings, s.pos + 1, next) == next;
    assert ScanFrom(t.Side(), id, t.EdgeOf(id), t.crossings, s.pos, scan) == next;
  }

  lemma StartCanWalk(p: Pass, holes: map<ShapeEdgeId, bool>, visited: seq<ShapeEdgeId>)
    requires p.Valid() && p.AreEdges(visited)
    ensures p.CanWalk(p.Start(holes), visited)
  {
    MovedFits(p.bIndex, p.crossings, 0, ChainCache(-1, None));
  }

  // A point loop of a whole pass with a single crossing, which is with another
  // point loop, finds that.
  lemma LoopIsFound(p: Pass, s: Status, visited: seq<ShapeEdgeId>, i: nat, id: ShapeEdgeId)
    requires p.Valid() && Visited(p, visited, SENTINEL) && p.CanWalk(s, visited) && s.pos == 0 && i < |visited|
    requires HasEdge(p.aIndex, visited[i]) && p.aIndex[visited[i].shape].dimension == 2
    requires var k := First(p.crossings, visited[i], 0);
             && k < |p.crossings| - 1 && p.crossings[k].a == visited[i] && p.crossings[k].b == id
             && p.crossings[k + 1].a != visited[i] && IsLoopMatch(p.EdgeOf(visited[i]), p.crossings[k], p.bIndex)
    ensures p.CanWalk(s, visited[..i]) && Finds(p, s, visited[..i], visited[i], id)
  {
    hide Visited, At, Pass.Walked, Setting.Scanned, IsLoopMatch, First, Pass.Valid;
    ValidParts(p);
    ScansOwnCrossings(p, s, visited, i);
    NotSentinel(p.aIndex, visited[i]);
    FindsOne(p.SettingOf(visited[i]), visited[i], p.Entered(visited[..i], visited[i], p.Walked(s, visited[..i])));
  }

  lemma WalkedNothing(p: Pass, s: Status, none: seq<ShapeEdgeId>)
    requires none == [] && p.CanWalk(s, none)
    ensures p.Walked(s, none) == s
  {
  }

  // What a first edge leaves alone.
  lemma FirstLeavesEntry(p: Pass, s: Status, x: ShapeEdgeId, id: ShapeEdgeId, other: ShapeEdgeId, v: Point)
    requires p.Valid() && p.aRegion == 0 && p.CanWalk(s, [x]) && id !in s.holes && id != other
    requires HasEdge(p.aIndex, x) && p.EdgeOf(x) == Edge(v, v) && p.CanWalk(s, [x][..0]) && Finds(p, s, [x][..0], x, other)
    ensures id !in p.Walked(s, [x]).holes
  {
    hide At, Pass.Walked, Pass.Valid, Setting.After, Setting.FaceAt, Face.HolesAfter;
    WalkedNothing(p, s, [x][..0]);
    WalkedStep(p, s, [x]);
    AfterHoles(p, x, p.Entered([x][..0], x, s));
    LoopFace(p, s, [x], 0, v, other);
    FaceKnows(p.SettingOf(x).FaceAt(x, p.Entered([x][..0], x, s)), id);
  }

  // Although both loops at v are holes, the second pass does not keep its own.
  lemma PointHolesAreDropped(v: Point, w: Point)
    requires v != w
    ensures var p, q, a, b := HolePass(0, v, w), HolePass(1, v, w), HoleEdges(0), HoleEdges(1);
            && ArePair(p, q) && Visited(p, a, SENTINEL) && Visited(q, b, SENTINEL)
            && var s := p.Start(map[]);
               && p.CanWalk(s, a)
               && var t := q.Start(p.Walked(s, a).holes);
                  && q.CanWalk(t, b) && p.Inside(v) && q.Inside(v)
                  && FaceAt(p, s, a, 0).Emissions() == [] && !FaceAt(q, t, b, 1).Kept()
  {
    hide Pass.Walked, Pass.Valid, Pass.Explained, Pass.Separated, Visited, FaceAt, Face.Kept, Face.Emissions;
    var p, q, a, b := HolePass(0, v, w), HolePass(1, v, w), HoleEdges(0), HoleEdges(1);
    HolePassesArePair(v, w);
    HoleEdgesAreVisited(0, v, w);
    HoleEdgesAreVisited(1, v, w);
    var s := p.Start(map[]);
    StartCanWalk(p, map[], a);
    var t := q.Start(p.Walked(s, a).holes);
    StartCanWalk(q, t.holes, b);
    LoopIsFound(p, s, a, 0, b[1]);
    LoopIsFound(q, t, b, 1, a[0]);
    FirstLeavesEntry(p, s, a[0], a[0], b[1], v);
    LoopFace(q, t, b, 1, v, a[0]);
    PointLoopRule(p, q, s, t, a, b, 0, 1, v);
  }
}
