/**
 Polygon edges that both regions have, over both passes: what the first pass
 finds out about sibling pairs of region 1 and the second pass knows.
 */
module SharedPasses {
  import opened Common
  import opened Shapes
  import opened EdgeScan
  import opened BoundaryRules
  import opened ClipLog
  import opened Outputs
  import opened Processor
  import opened BoundaryWalk
  import opened SharedEdges
  import L = PointLoops

  // ----- polygon edges -----

  ghost predicate IsEdgeIn(index: Index, id: ShapeEdgeId, e: Edge, dimension: nat)
  {
    HasEdge(index, id) && index[id.shape].dimension == dimension && index[id.shape].edges[id.edge] == e
  }

  ghost predicate IsPolygonEdge(index: Index, id: ShapeEdgeId, e: Edge)
  {
    IsEdgeIn(index, id, e, 2)
  }

  ghost predicate HasPolygonEdge(index: Index, e: Edge)
  {
    exists id :: IsPolygonEdge(index, id, e)
  }

  // No polygon edge occurs twice in a region.
  ghost predicate NoDuplicates(index: Index)
  {
    forall x, y, e: Edge :: e.v0 != e.v1 && IsPolygonEdge(index, x, e) && IsPolygonEdge(index, y, e) ==> x == y
  }

  ghost predicate ListsPair(crossings: seq<IndexCrossing>, x: ShapeEdgeId, y: ShapeEdgeId)
  {
    exists k :: 0 <= k < |crossings| - 1 && crossings[k].a == x && crossings[k].b == y && !crossings[k].isInterior
  }

  // All pairs of edges of lines or polygons that coincide, in either direction, are
  // among the crossings.
  ghost predicate Listed(p: Pass)
  {
    forall x, y, c, d, e, f | IsEdgeIn(p.aIndex, x, e, c) && IsEdgeIn(p.bIndex, y, f, d) && c > 0 && d > 0 ::
      f == e || f == Reversed(e) ==> ListsPair(p.crossings, x, y)
  }

  // The crossings of an edge lie together.
  lemma InOwnSegment(p: Pass, x: ShapeEdgeId, pos: nat, k: nat)
    requires p.Valid() && Aligned(p.crossings, pos, x) && x != SENTINEL && k < |p.crossings| && p.crossings[k].a == x
    ensures pos <= k < SegmentEnd(p.crossings, x, pos)
  {
    AlignedNext(p, pos, x);
  }

  // The scan finds a matching polygon edge of B if and only if there is one.
  lemma MatchIff(p: Pass, x: ShapeEdgeId, s: Status)
    requires AtEdge(p, x, s) && Listed(p) && p.aIndex[x.shape].dimension > 0 && p.EdgeOf(x).v0 != p.EdgeOf(x).v1
    ensures p.SettingOf(x).Ready(x, s)
    ensures var r, a := p.SettingOf(x).Scanned(x, s).r, p.EdgeOf(x);
            && (r.polygonMatch.Some? ==> IsPolygonEdge(p.bIndex, r.polygonMatch.value, a))
            && (r.siblingMatch.Some? ==> IsPolygonEdge(p.bIndex, r.siblingMatch.value, Reversed(a)))
            && (r.polygonMatch.Some? <==> HasPolygonEdge(p.bIndex, a))
            && (r.siblingMatch.Some? <==> HasPolygonEdge(p.bIndex, Reversed(a)))
  {
    hide CacheFits, Setting.Scanned, Listed, HasPolygonEdge;
    EdgeIsReady(p, x, s);
    MatchesAreEdges(p, x, s);
    MatchFound(p, x, s, false);
    MatchFound(p, x, s, true);
  }

  lemma MatchesAreEdges(p: Pass, x: ShapeEdgeId, s: Status)
    requires AtEdge(p, x, s) && p.SettingOf(x).Ready(x, s)
    ensures var r, a := p.SettingOf(x).Scanned(x, s).r, p.EdgeOf(x);
            && (r.polygonMatch.Some? ==> IsPolygonEdge(p.bIndex, r.polygonMatch.value, a))
            && (r.siblingMatch.Some? ==> IsPolygonEdge(p.bIndex, r.siblingMatch.value, Reversed(a)))
            && (r.polygonMatch.Some? ==> HasPolygonEdge(p.bIndex, a))
            && (r.siblingMatch.Some? ==> HasPolygonEdge(p.bIndex, Reversed(a)))
  {
    hide Step, CacheFits, FromCrossings, ScanFrom, IsInterior;
    ValidParts(p);
    var t, a, scan := p.SettingOf(x), p.EdgeOf(x), Scan(NO_CROSSINGS, [], s.cache);
    NothingScanned(p.crossings, x, s.pos, t.Side(), a, scan, World([], []));
    ScanSources(t.Side(), x, a, p.crossings, s.pos, scan);
  }

  lemma MatchFound(p: Pass, x: ShapeEdgeId, s: Status, sibling: bool)
    requires AtEdge(p, x, s) && Listed(p) && p.aIndex[x.shape].dimension > 0 && p.EdgeOf(x).v0 != p.EdgeOf(x).v1
    requires p.SettingOf(x).Ready(x, s)
    ensures var r, a := p.SettingOf(x).Scanned(x, s).r, p.EdgeOf(x);
            if sibling then HasPolygonEdge(p.bIndex, Reversed(a)) ==> r.siblingMatch.Some?
            else HasPolygonEdge(p.bIndex, a) ==> r.polygonMatch.Some?
  {
    hide CacheFits, ScanFrom, Step, At;
    var t, a := p.SettingOf(x), p.EdgeOf(x);
    var other := if sibling then Reversed(a) else a;
    if HasPolygonEdge(p.bIndex, other) {
      var y :| IsPolygonEdge(p.bIndex, y, other);
      assert IsEdgeIn(p.aIndex, x, a, p.aIndex[x.shape].dimension) && IsEdgeIn(p.bIndex, y, other, 2);
      assert ListsPair(p.crossings, x, y);
      var k :| 0 <= k < |p.crossings| - 1 && p.crossings[k].a == x && p.crossings[k].b == y && !p.crossings[k].isInterior;
      InOwnSegment(p, x, s.pos, k);
      ScanFinds(t.Side(), x, a, p.crossings, s.pos, Scan(NO_CROSSINGS, [], s.cache), k);
    }
  }

  // ----- the table after the first pass -----

  // Of both directions along e, those that B's polygons have.
  ghost predicate HasBoth(index: Index, e: Edge)
  {
    HasPolygonEdge(index, e) && HasPolygonEdge(index, Reversed(e))
  }

  // Next to every edge of A along e, B's polygons contain what lies around or not.
  ghost predicate PastIs(p: Pass, e: Edge, around: bool)
  {
    forall x, d :: IsPolygonEdge(p.aIndex, x, DirectedEdge(e, d)) ==> p.past(x) == around
  }

  // An edge of the first pass enters an edge that is no point loop only if it
  // finds that edge together with its sibling, and with the state past its start.
  lemma FaceKnowsPairs(f: Face, id: ShapeEdgeId)
    requires !f.op.emitShared && f.r.a0LoopMatch != Some(id)
    ensures var found := f.r.polygonMatch.Some? && f.r.siblingMatch.Some?
                         && (f.r.polygonMatch.value == id || f.r.siblingMatch.value == id);
            && (id in f.HolesAfter() ==>
                  (found && f.HolesAfter()[id] == f.SemiOpenInside()) || (id in f.holes && f.HolesAfter()[id] == f.holes[id]))
            && (id in f.holes || found ==> id in f.HolesAfter() || f.IsPoint())
            && (id in f.holes ==> id in f.HolesAfter())
  {
    hide Face.SemiOpenInside;
  }

  lemma EdgeKnowsPairs(p: Pass, x: ShapeEdgeId, s: Status, id: ShapeEdgeId, e: Edge, d: bool, around: bool)
    requires AtEdge(p, x, s) && p.aRegion == 0 && p.ExplainedPast() && s.inside == p.StartsInside(x)
    requires e.v0 != e.v1 && IsPolygonEdge(p.bIndex, id, DirectedEdge(e, d)) && (HasBoth(p.bIndex, e) ==> PastIs(p, e, around))
    ensures var t := p.SettingOf(x);
            && t.Ready(x, s)
            && (id in t.After(x, s).holes ==>
                  || (id in s.holes && t.After(x, s).holes[id] == s.holes[id])
                  || (HasBoth(p.bIndex, e) && t.After(x, s).holes[id] == (around != p.invertB)))
            && (id in s.holes ==> id in t.After(x, s).holes)
  {
    hide CacheFits, At, Setting.After, Setting.Scanned, Setting.FaceAt, Face.HolesAfter, Pass.SettingOf, Pass.ExplainedPast,
         PastIs, HasPolygonEdge, Aligned, Odd, Pass.Valid;
    EdgeIsReady(p, x, s);
    L.AfterHoles(p, x, s);
    if p.aIndex[x.shape].dimension == 2 {
      var f := p.SettingOf(x).FaceAt(x, s);
      L.MatchesAre(p, x, s);
      NotALoop(p, id, e, d);
      FaceKnowsPairs(f, id);
      if f.r.polygonMatch.Some? && f.r.siblingMatch.Some? && (f.r.polygonMatch.value == id || f.r.siblingMatch.value == id) {
        MatchesAreEdges(p, x, s);
        MatchedAlong(p, x, id, e, d, p.SettingOf(x).Scanned(x, s).r, around);
        StatePastStart(p, x, s);
        PastStart(p, x, s);
      }
    }
  }

  lemma PastStart(p: Pass, x: ShapeEdgeId, s: Status)
    requires AtEdge(p, x, s) && p.SettingOf(x).Ready(x, s)
    ensures p.SettingOf(x).FaceAt(x, s).SemiOpenInside() == (s.inside != Odd(p.SettingOf(x).Scanned(x, s).r.a0Crossings))
  {
    hide CacheFits, At, Setting.Scanned, Odd;
  }

  lemma NotALoop(p: Pass, id: ShapeEdgeId, e: Edge, d: bool)
    requires e.v0 != e.v1 && IsPolygonEdge(p.bIndex, id, DirectedEdge(e, d))
    ensures forall v :: !L.IsLoopAt(p, id, v)
  {
  }

  // Whoever finds the edge and its sibling lies along e.
  lemma MatchedAlong(p: Pass, x: ShapeEdgeId, id: ShapeEdgeId, e: Edge, d: bool, r: EdgeCrossings, around: bool)
    requires HasEdge(p.aIndex, x) && p.aIndex[x.shape].dimension == 2 && (HasBoth(p.bIndex, e) ==> PastIs(p, e, around))
    requires IsPolygonEdge(p.bIndex, id, DirectedEdge(e, d)) && r.polygonMatch.Some? && r.siblingMatch.Some?
    requires r.polygonMatch.value == id || r.siblingMatch.value == id
    requires IsPolygonEdge(p.bIndex, r.polygonMatch.value, p.EdgeOf(x))
    requires IsPolygonEdge(p.bIndex, r.siblingMatch.value, Reversed(p.EdgeOf(x)))
    ensures HasBoth(p.bIndex, e) && p.past(x) == around
  {
    assert IsPolygonEdge(p.aIndex, x, DirectedEdge(e, true)) || IsPolygonEdge(p.aIndex, x, DirectedEdge(e, false));
    assert HasPolygonEdge(p.bIndex, p.EdgeOf(x)) && HasPolygonEdge(p.bIndex, Reversed(p.EdgeOf(x)));
  }

  // After any edges of the first pass that are needed: an entry for an edge of B
  // means that its sibling is there as well, and says whether the pair lies inside.
  lemma {:induction false} TableKnowsPairs(p: Pass, s: Status, visited: seq<ShapeEdgeId>, upTo: ShapeEdgeId, id: ShapeEdgeId,
                                           e: Edge, d: bool, around: bool)
    requires p.Valid() && p.aRegion == 0 && p.ExplainedPast() && p.CanWalk(s, visited) && s.pos == 0
    requires Visited(p, visited, upTo) && AtMost(upTo, SENTINEL)
    requires e.v0 != e.v1 && IsPolygonEdge(p.bIndex, id, DirectedEdge(e, d)) && id !in s.holes
    requires HasBoth(p.bIndex, e) ==> PastIs(p, e, around)
    ensures id in p.Walked(s, visited).holes ==>
              HasBoth(p.bIndex, e) && p.Walked(s, visited).holes[id] == (around != p.invertB)
    decreases |visited|
  {
    hide At, Setting.After, Pass.SettingOf, Pass.Entered, Pass.ExplainedPast, Pass.Valid, Visited, PastIs, HasBoth,
         IsPolygonEdge;
    if visited != [] {
      var n := |visited| - 1;
      L.WalkedStep(p, s, visited);
      VisitedPrefix(p, visited, upTo, n);
      LastVisited(p, visited, upTo) by {
        ValidParts(p);
      }
      TableKnowsPairs(p, s, visited[..n], visited[n], id, e, d, around);
      WalkConsumes(p, s, visited[..n], visited[n]);
      EdgeKnowsPairs(p, visited[n], p.Entered(visited[..n], visited[n], p.Walked(s, visited[..n])), id, e, d, around);
    }
  }

  // An edge of the first pass that finds a pair enters it.
  lemma PairIsEntered(p: Pass, x: ShapeEdgeId, s: Status, id: ShapeEdgeId, e: Edge, d: bool)
    requires AtEdge(p, x, s) && p.aRegion == 0 && Listed(p) && NoDuplicates(p.bIndex) && HasBoth(p.bIndex, e)
    requires e.v0 != e.v1 && IsPolygonEdge(p.bIndex, id, DirectedEdge(e, d)) && IsAlong(p.aIndex, x, e)
    ensures p.SettingOf(x).Ready(x, s) && id in p.SettingOf(x).After(x, s).holes
  {
    hide CacheFits, At, Setting.After, Setting.Scanned, Setting.FaceAt, Face.HolesAfter, Pass.SettingOf, Listed,
         HasPolygonEdge, Aligned, Pass.Valid, NoDuplicates;
    ValidParts(p);
    MatchIff(p, x, s);
    L.AfterHoles(p, x, s);
    L.MatchesAre(p, x, s);
    NotALoop(p, id, e, d);
    var r, f := p.SettingOf(x).Scanned(x, s).r, p.SettingOf(x).FaceAt(x, s);
    OneOfPair(p.bIndex, id, e, d, p.EdgeOf(x), r);
    FaceKnowsPairs(f, id);
    IsNoPoint(p, x, s);
  }

  ghost predicate IsAlong(index: Index, x: ShapeEdgeId, e: Edge)
  {
    IsPolygonEdge(index, x, e) || IsPolygonEdge(index, x, Reversed(e))
  }

  lemma OneOfPair(index: Index, id: ShapeEdgeId, e: Edge, d: bool, a: Edge, r: EdgeCrossings)
    requires NoDuplicates(index) && e.v0 != e.v1 && IsPolygonEdge(index, id, DirectedEdge(e, d)) && (a == e || a == Reversed(e))
    requires r.polygonMatch.Some? && IsPolygonEdge(index, r.polygonMatch.value, a)
    requires r.siblingMatch.Some? && IsPolygonEdge(index, r.siblingMatch.value, Reversed(a))
    ensures r.polygonMatch.value == id || r.siblingMatch.value == id
  {
    assert DirectedEdge(e, d) == a || DirectedEdge(e, d) == Reversed(a);
  }

  lemma IsNoPoint(p: Pass, x: ShapeEdgeId, s: Status)
    requires AtEdge(p, x, s) && p.SettingOf(x).Ready(x, s)
    ensures p.SettingOf(x).FaceAt(x, s).IsPoint() == (p.EdgeOf(x).v0 == p.EdgeOf(x).v1)
  {
    hide CacheFits, At, Setting.Scanned;
  }

  // Once entered, it stays.
  lemma {:induction false} TableKeepsEntries(p: Pass, s: Status, visited: seq<ShapeEdgeId>, i: nat, id: ShapeEdgeId)
    requires p.Valid() && p.CanWalk(s, visited) && i <= |visited|
    ensures p.CanWalk(s, visited[..i]) && (id in p.Walked(s, visited[..i]).holes ==> id in p.Walked(s, visited).holes)
    decreases |visited|
  {
    hide At, Setting.After, Pass.SettingOf, Pass.Walked, Pass.Valid, Pass.Entered;
    if i == |visited| {
      assert visited[..i] == visited;
    } else {
      var n := |visited| - 1;
      L.WalkedStep(p, s, visited);
      assert visited[..n][..i] == visited[..i];
      TableKeepsEntries(p, s, visited[..n], i, id);
      EdgeKeepsEntries(p, visited[n], p.Entered(visited[..n], visited[n], p.Walked(s, visited[..n])), id);
      SameHoles(p, visited[..n], visited[n], p.Walked(s, visited[..n]));
    }
  }

  lemma SameHoles(p: Pass, seen: seq<ShapeEdgeId>, x: ShapeEdgeId, s: Status)
    requires ValidIndex(p.aIndex) && p.AreEdges(seen) && HasEdge(p.aIndex, x)
    ensures p.Entered(seen, x, s).holes == s.holes
  {
  }

  lemma EdgeKeepsEntries(p: Pass, x: ShapeEdgeId, s: Status, id: ShapeEdgeId)
    requires p.Valid() && HasEdge(p.aIndex, x) && At(p.bIndex, p.crossings, s.pos, s.cache)
    ensures p.SettingOf(x).Ready(x, s) && (id in s.holes ==> id in p.SettingOf(x).After(x, s).holes)
  {
    hide CacheFits, At, Setting.After, Setting.Scanned, Setting.FaceAt, Pass.SettingOf, Pass.Valid;
    L.AfterHoles(p, x, s);
  }

  // The first pass enters every pair that lies along an edge of region 0.
  lemma TableFindsPairs(p: Pass, s: Status, a: seq<ShapeEdgeId>, id: ShapeEdgeId, e: Edge, d: bool)
    requires p.Valid() && p.aRegion == 0 && p.CanWalk(s, a) && s.pos == 0 && Visited(p, a, SENTINEL)
    requires Listed(p) && NoDuplicates(p.bIndex) && HasBoth(p.bIndex, e) && e.v0 != e.v1
    requires IsPolygonEdge(p.bIndex, id, DirectedEdge(e, d)) && HasEither(p.aIndex, e)
    ensures id in p.Walked(s, a).holes
  {
    hide At, Setting.After, Pass.SettingOf, Pass.Walked, Pass.Valid, Pass.Entered, Pass.Needed, Listed, NoDuplicates, HasBoth,
         Aligned, Visited, IsPolygonEdge, IsAlong;
    var x := SomeAlong(p.aIndex, e);
    var i := PlaceOf(p, a, x, id, e, d);
    PrefixWalk(p, s, a, i);
    L.WalkedStep(p, s, a[..i + 1]);
    assert a[..i + 1][..i] == a[..i];
    PairIsEntered(p, x, p.Entered(a[..i], x, p.Walked(s, a[..i])), id, e, d);
    TableKeepsEntries(p, s, a, i + 1, id);
  }

  // Does a region have an edge along e, in either direction?
  ghost predicate HasEither(index: Index, e: Edge)
  {
    HasPolygonEdge(index, e) || HasPolygonEdge(index, Reversed(e))
  }

  lemma SomeAlong(index: Index, e: Edge) returns (x: ShapeEdgeId)
    requires HasEither(index, e)
    ensures IsAlong(index, x, e) && HasEdge(index, x)
  {
    if HasPolygonEdge(index, e) {
      x :| IsPolygonEdge(index, x, e);
    } else {
      x :| IsPolygonEdge(index, x, Reversed(e));
    }
  }

  // An edge along one of the other region is visited.
  lemma PlaceOf(p: Pass, visited: seq<ShapeEdgeId>, x: ShapeEdgeId, y: ShapeEdgeId, e: Edge, d: bool) returns (i: nat)
    requires p.Valid() && Visited(p, visited, SENTINEL) && Listed(p)
    requires IsAlong(p.aIndex, x, e) && IsPolygonEdge(p.bIndex, y, DirectedEdge(e, d))
    ensures i < |visited| && visited[i] == x
  {
    hide Ordered;
    assert ListsPair(p.crossings, x, y);
    assert HasCrossing(p.crossings, x);
    assert Before(x, SENTINEL);
    i :| 0 <= i < |visited| && visited[i] == x;
  }

  // The walk up to an edge has arrived at its crossings.
  lemma PrefixWalk(p: Pass, s: Status, visited: seq<ShapeEdgeId>, i: nat)
    requires p.Valid() && p.CanWalk(s, visited) && s.pos == 0 && Visited(p, visited, SENTINEL) && i < |visited|
    ensures p.CanWalk(s, visited[..i]) && p.CanWalk(s, visited[..i + 1]) && HasEdge(p.aIndex, visited[i])
    ensures AtEdge(p, visited[i], p.Entered(visited[..i], visited[i], p.Walked(s, visited[..i])))
  {
    hide At, Pass.Walked, Pass.Needed, Aligned, Visited;
    ValidParts(p);
    PrefixCanWalk(p, s, visited, i);
    VisitedPrefix(p, visited, SENTINEL, i);
    assert AtMost(visited[i], SENTINEL);
    WalkConsumes(p, s, visited[..i], visited[i]);
  }

  // ----- the table during the second pass -----

  // The point loop at place i of the second pass is decided by what the table says
  // of "id".  It asks under the id of a loop of region 0, although the entries are
  // those of region 1's edges, and a missing entry is created.
  ghost predicate Asks(q: Pass, t: Status, b: seq<ShapeEdgeId>, i: nat, id: ShapeEdgeId)
    requires q.CanWalk(t, b) && i < |b|
  {
    q.aIndex[b[i].shape].dimension == 2 && FaceAsks(L.FaceAt(q, t, b, i), id)
  }

  ghost predicate FaceAsks(f: Face, id: ShapeEdgeId)
  {
    f.IsPoint() && f.r.a0LoopMatch == Some(id) && !f.op.CreateDegen() && !f.op.KeepDegenA()
  }

  ghost predicate AskedBefore(q: Pass, t: Status, b: seq<ShapeEdgeId>, n: nat, id: ShapeEdgeId)
    requires q.CanWalk(t, b) && n <= |b|
  {
    exists i :: 0 <= i < n && Asks(q, t, b, i, id)
  }

  // An entry stays as it is, and a new one reads as "no hole".
  ghost predicate NextEntry(h0: map<ShapeEdgeId, bool>, h1: map<ShapeEdgeId, bool>, id: ShapeEdgeId, asked: bool)
  {
    if id in h0 then id in h1 && h1[id] == h0[id] else (id in h1 <==> asked) && (asked ==> !h1[id])
  }

  lemma FaceEnters(f: Face, id: ShapeEdgeId)
    requires f.op.emitShared
    ensures NextEntry(f.holes, f.HolesAfter(), id, FaceAsks(f, id))
  {
    hide Operation.CreateDegen, Operation.KeepDegenA;
  }

  lemma EdgeEnters(q: Pass, x: ShapeEdgeId, u: Status, id: ShapeEdgeId)
    requires q.Valid() && q.aRegion == 1 && HasEdge(q.aIndex, x) && At(q.bIndex, q.crossings, u.pos, u.cache)
    ensures q.SettingOf(x).Ready(x, u)
    ensures NextEntry(u.holes, q.SettingOf(x).After(x, u).holes, id,
                      q.aIndex[x.shape].dimension == 2 && FaceAsks(q.SettingOf(x).FaceAt(x, u), id))
  {
    hide CacheFits, At, Setting.After, Setting.Scanned, Setting.FaceAt, Face.HolesAfter, FaceAsks, Pass.SettingOf, Pass.Valid;
    ValidParts(q);
    L.AfterHoles(q, x, u);
    if q.aIndex[x.shape].dimension == 2 {
      FaceEnters(q.SettingOf(x).FaceAt(x, u), id);
    }
  }

  lemma {:induction false} WalkEnters(q: Pass, t: Status, b: seq<ShapeEdgeId>, n: nat, id: ShapeEdgeId)
    requires q.Valid() && q.aRegion == 1 && q.CanWalk(t, b) && n <= |b|
    ensures q.CanWalk(t, b[..n]) && NextEntry(t.holes, q.Walked(t, b[..n]).holes, id, AskedBefore(q, t, b, n, id))
  {
    hide At, Setting.After, Pass.SettingOf, Pass.Valid, Pass.Entered, Pass.Walked, Asks;
    if n == 0 {
      L.WalkedNothing(q, t, b[..n]);
    } else {
      WalkEnters(q, t, b, n - 1, id);
      assert b[..n][..n - 1] == b[..n - 1];
      PrefixOf(q, t, b, n);
      L.WalkedStep(q, t, b[..n]);
      SameHoles(q, b[..n - 1], b[n - 1], q.Walked(t, b[..n - 1]));
      EdgeEnters(q, b[n - 1], q.Entered(b[..n - 1], b[n - 1], q.Walked(t, b[..n - 1])), id);
      AsksIs(q, t, b, n - 1, id);
      AskedNext(q, t, b, n, id);
    }
  }

  lemma PrefixOf(q: Pass, t: Status, b: seq<ShapeEdgeId>, n: nat)
    requires q.CanWalk(t, b) && n <= |b|
    ensures q.CanWalk(t, b[..n])
  {
    hide At;
  }

  lemma AsksIs(q: Pass, t: Status, b: seq<ShapeEdgeId>, i: nat, id: ShapeEdgeId)
    requires q.Valid() && q.CanWalk(t, b) && i < |b| && HasEdge(q.aIndex, b[i]) && q.CanWalk(t, b[..i])
    ensures var u := q.Entered(b[..i], b[i], q.Walked(t, b[..i]));
            && q.SettingOf(b[i]).Ready(b[i], u)
            && Asks(q, t, b, i, id) == (q.aIndex[b[i].shape].dimension == 2 && FaceAsks(q.SettingOf(b[i]).FaceAt(b[i], u), id))
  {
    hide At, Setting.FaceAt, FaceAsks, Pass.Valid, Pass.Walked, Pass.Entered;
    NotSentinel(q.aIndex, b[i]);
  }

  lemma AskedNext(q: Pass, t: Status, b: seq<ShapeEdgeId>, n: nat, id: ShapeEdgeId)
    requires q.CanWalk(t, b) && 0 < n <= |b|
    ensures AskedBefore(q, t, b, n, id) <==> AskedBefore(q, t, b, n - 1, id) || Asks(q, t, b, n - 1, id)
  {
    hide Asks, At;
  }

  // ----- an edge of the second pass -----

  ghost function NearOf(index: Index, e: Edge, around: bool): Near
  {
    Near(HasPolygonEdge(index, e), HasPolygonEdge(index, Reversed(e)), around)
  }

  function CombinationOf(p: Pass): Combination
  {
    Combination(p.model.polygon, p.invertA, p.invertB, p.invertResult)
  }

  // The passes of one operation, from an empty table on, and what is known of
  // their crossings and of containment.
  ghost predicate AreRuns(p: Pass, q: Pass, s: Status, t: Status, a: seq<ShapeEdgeId>, b: seq<ShapeEdgeId>)
  {
    && ArePair(p, q) && p.CanWalk(s, a) && q.CanWalk(t, b) && Visited(p, a, SENTINEL) && Visited(q, b, SENTINEL)
    && s.pos == t.pos == 0 && s.holes == map[] && t.holes == p.Walked(s, a).holes
    && p.ExplainedPast() && q.ExplainedPast() && Listed(p) && Listed(q)
    && NoDuplicates(p.aIndex) && NoDuplicates(q.aIndex)
  }

  // Next to a sibling pair along e, the polygons contain what lies around or not.
  ghost predicate AroundIs(p: Pass, q: Pass, e: Edge, around0: bool, around1: bool)
  {
    (HasBoth(p.aIndex, e) ==> PastIs(q, e, around0)) && (HasBoth(q.aIndex, e) ==> PastIs(p, e, around1))
  }

  lemma FaceIs(q: Pass, x: ShapeEdgeId, s: Status)
    requires AtEdge(q, x, s) && q.SettingOf(x).Ready(x, s) && q.aRegion == 1
    ensures var f, r := q.SettingOf(x).FaceAt(x, s), q.SettingOf(x).Scanned(x, s).r;
            && f.op == Operation(q.model.polygon, q.invertA, q.invertB, true) && f.invertB == q.invertB
            && f.reverseA == (q.invertA != q.invertResult) && f.a == q.EdgeOf(x) && f.aId == x && f.holes == s.holes
            && f.r == if q.invertA != q.invertB then r.(polygonMatch := r.siblingMatch, siblingMatch := r.polygonMatch) else r
  {
    hide CacheFits, At, Setting.Scanned;
  }

  // An edge with a match has no interior crossings.
  lemma MatchedIsUncut(q: Pass, x: ShapeEdgeId, s: Status, y: ShapeEdgeId, f: Edge)
    requires AtEdge(q, x, s) && q.SettingOf(x).Ready(x, s) && q.Separated() && Listed(q)
    requires q.aIndex[x.shape].dimension == 2 && q.EdgeOf(x).v0 != q.EdgeOf(x).v1
    requires IsPolygonEdge(q.bIndex, y, f) && (f == q.EdgeOf(x) || f == Reversed(q.EdgeOf(x)))
    ensures q.SettingOf(x).Scanned(x, s).r.interiorCrossings == 0
  {
    hide Step, CacheFits, FromCrossings, ScanFrom, IsInterior, Listed, Ordered;
    var side, a, scan := q.SettingOf(x).Side(), q.EdgeOf(x), Scan(NO_CROSSINGS, [], s.cache);
    NothingScanned(q.crossings, x, s.pos, side, a, scan, World([], []));
    ScanSources(side, x, a, q.crossings, s.pos, scan);
    MatchIsListed(q, x, y, f);
  }

  lemma MatchIsListed(q: Pass, x: ShapeEdgeId, y: ShapeEdgeId, f: Edge)
    requires q.Valid() && HasEdge(q.aIndex, x) && Listed(q)
    requires q.aIndex[x.shape].dimension == 2 && q.EdgeOf(x).v0 != q.EdgeOf(x).v1
    requires IsPolygonEdge(q.bIndex, y, f) && (f == q.EdgeOf(x) || f == Reversed(q.EdgeOf(x)))
    ensures exists j :: 0 <= j < |q.crossings| - 1 && q.crossings[j].a == x
                        && (IsMatch(q.EdgeOf(x), q.crossings[j], q.bIndex, q.EdgeOf(x))
                            || IsMatch(q.EdgeOf(x), q.crossings[j], q.bIndex, Reversed(q.EdgeOf(x))))
  {
    hide Ordered;
    assert IsPolygonEdge(q.aIndex, x, q.EdgeOf(x));
    assert ListsPair(q.crossings, x, y);
    var k :| 0 <= k < |q.crossings| - 1 && q.crossings[k].a == x && q.crossings[k].b == y && !q.crossings[k].isInterior;
    assert IsMatch(q.EdgeOf(x), q.crossings[k], q.bIndex, f);
  }

  // The edge of region 1 at place j of the second pass.
  ghost predicate IsFaceAlong(p: Pass, q: Pass, b: seq<ShapeEdgeId>, j: nat, e: Edge, d: bool)
  {
    && e.v0 != e.v1 && j < |b| && IsPolygonEdge(q.aIndex, b[j], DirectedEdge(e, d))
    && HasEither(p.aIndex, e)
  }

  // What the table says of it.
  lemma EntryIs(p: Pass, q: Pass, s: Status, t: Status, a: seq<ShapeEdgeId>, b: seq<ShapeEdgeId>, j: nat, e: Edge, d: bool,
                around0: bool, around1: bool)
    requires AreRuns(p, q, s, t, a, b) && AroundIs(p, q, e, around0, around1) && IsFaceAlong(p, q, b, j, e, d)
    ensures q.CanWalk(t, b[..j])
    ensures var holes := q.Walked(t, b[..j]).holes;
            if HasBoth(q.aIndex, e) then b[j] in holes && holes[b[j]] == (around1 != p.invertB)
            else (b[j] in holes <==> AskedBefore(q, t, b, j, b[j])) && (b[j] in holes ==> !holes[b[j]])
  {
    hide At, Pass.Walked, Pass.Valid, Pass.Needed, Pass.Explained, Pass.ExplainedPast, Pass.Separated, Visited, Listed,
         NoDuplicates, HasBoth, HasEither, PastIs, IsPolygonEdge, SeenBy, AskedBefore;
    PrefixWalk(q, t, b, j);
    WalkEnters(q, t, b, j, b[j]);
    if HasBoth(q.aIndex, e) {
      TableFindsPairs(p, s, a, b[j], e, d);
    }
    TableKnowsPairs(p, s, a, SENTINEL, b[j], e, d, around1);
  }

  lemma StateOfFace(q: Pass, x: ShapeEdgeId, u: Status, e: Edge, d: bool, around: bool)
    requires AtEdge(q, x, u) && q.SettingOf(x).Ready(x, u) && q.ExplainedPast() && u.inside == q.StartsInside(x)
    requires IsPolygonEdge(q.aIndex, x, DirectedEdge(e, d)) && PastIs(q, e, around)
    ensures q.SettingOf(x).FaceAt(x, u).SemiOpenInside() == (around != q.invertB)
  {
    hide At, Pass.ExplainedPast, Setting.FaceAt, Setting.Scanned, Face.SemiOpenInside, Odd, Aligned;
    StatePastStart(q, x, u);
    PastStart(q, x, u);
  }

  lemma MatchesOfFace(q: Pass, x: ShapeEdgeId, u: Status, e: Edge, d: bool)
    requires AtEdge(q, x, u) && q.SettingOf(x).Ready(x, u) && q.Separated() && Listed(q) && e.v0 != e.v1 && q.aRegion == 1
    requires IsPolygonEdge(q.aIndex, x, DirectedEdge(e, d)) && HasEither(q.bIndex, e)
    ensures var n, r := NearOf(q.bIndex, e, false), q.SettingOf(x).FaceAt(x, u).r;
            && r.interiorCrossings == 0
            && r.polygonMatch.Some? == n.Has(d == (q.invertB == q.invertA))
            && r.siblingMatch.Some? == n.Has(d != (q.invertB == q.invertA))
  {
    hide At, Setting.FaceAt, Setting.Scanned, Aligned, Pass.Separated, Listed, HasPolygonEdge;
    MatchIff(q, x, u);
    FaceIs(q, x, u);
    var y := SomeAlong(q.bIndex, e);
    MatchedIsUncut(q, x, u, y, q.bIndex[y.shape].edges[y.edge]);
  }

  // The parts of a description.
  lemma Description(p: Pass, q: Pass, f: Face, e: Edge, d: bool, around0: bool, around1: bool)
    requires ArePair(p, q) && e.v0 != e.v1 && IsPolygonEdge(q.aIndex, f.aId, DirectedEdge(e, d))
    requires f.op == Operation(q.model.polygon, q.invertA, q.invertB, true) && f.invertB == q.invertB
    requires f.reverseA == (q.invertA != q.invertResult) && f.a == q.EdgeOf(f.aId) && f.r.interiorCrossings == 0
    requires f.r.polygonMatch.Some? == NearOf(q.bIndex, e, false).Has(d == (q.invertB == q.invertA))
    requires f.r.siblingMatch.Some? == NearOf(q.bIndex, e, false).Has(d != (q.invertB == q.invertA))
    requires HasBoth(p.aIndex, e) ==> f.SemiOpenInside() == (around0 != q.invertB)
    ensures Lies(f, CombinationOf(p), NearOf(p.aIndex, e, around0), NearOf(q.aIndex, e, around1), e, d)
  {
    hide Pass.Valid, Pass.Explained, Pass.Separated, SeenBy, Face.SemiOpenInside;
    OneOfBoth(q.aIndex, f.aId, e, d);
    hide HasPolygonEdge;
  }

  // A face of the second pass along an edge of region 0, and its entry.
  lemma FaceIsDescribed(p: Pass, q: Pass, s: Status, t: Status, a: seq<ShapeEdgeId>, b: seq<ShapeEdgeId>, j: nat, e: Edge,
                        d: bool, around0: bool, around1: bool)
    requires AreRuns(p, q, s, t, a, b) && AroundIs(p, q, e, around0, around1) && IsFaceAlong(p, q, b, j, e, d)
    ensures var f := L.FaceAt(q, t, b, j);
            && Lies(f, CombinationOf(p), NearOf(p.aIndex, e, around0), NearOf(q.aIndex, e, around1), e, d) && f.aId == b[j]
            && if HasBoth(q.aIndex, e) then b[j] in f.holes && f.holes[b[j]] == (around1 != p.invertB)
               else (b[j] in f.holes <==> AskedBefore(q, t, b, j, b[j])) && (b[j] in f.holes ==> !f.holes[b[j]])
  {
    hide At, Pass.Walked, Pass.Valid, Pass.Needed, Pass.Explained, Pass.ExplainedPast, Pass.Separated, Visited, Listed, Aligned,
         NoDuplicates, HasEither, HasBoth, PastIs, SeenBy, Setting.FaceAt, Setting.Scanned, Face.SemiOpenInside,
         HasPolygonEdge, Pass.SettingOf, Lies, NearOf, AskedBefore;
    PrefixWalk(q, t, b, j);
    var x, u := b[j], q.Entered(b[..j], b[j], q.Walked(t, b[..j]));
    EdgeIsReady(q, x, u);
    EntryIs(p, q, s, t, a, b, j, e, d, around0, around1);
    FaceIs(q, x, u);
    MatchesOfFace(q, x, u, e, d);
    if HasBoth(p.aIndex, e) {
      StateOfFace(q, x, u, e, d, around0);
    }
    Description(p, q, q.SettingOf(x).FaceAt(x, u), e, d, around0, around1);
  }

  lemma OneOfBoth(index: Index, x: ShapeEdgeId, e: Edge, d: bool)
    requires IsPolygonEdge(index, x, DirectedEdge(e, d))
    ensures HasPolygonEdge(index, DirectedEdge(e, d))
  {
  }

  // ----- both passes -----

  lemma {:induction false} CountJoin(g: seq<Emission>, h: seq<Emission>, e: Edge)
    ensures CountOut(g + h, e) == CountOut(g, e) + CountOut(h, e)
    decreases |h|
  {
    hide ComesOutAs;
    if h == [] {
      assert g + h == g;
    } else {
      CountJoin(g, h[..|h| - 1], e);
      assert (g + h)[..|g + h| - 1] == g + h[..|h| - 1];
    }
  }

  // Only edges along e come out along e.
  lemma FaceIsElsewhere(f: Face, e: Edge)
    requires e.v0 != e.v1 && f.a != e && f.a != Reversed(e)
    ensures CountOut(f.Emissions(), e) == 0
  {
    hide Face.Kept, Face.WithSibling, Face.StartIsolated, Face.Deferred, Logged;
    var state, n := f.State(), f.r.interiorCrossings;
    CountOfParts(f.StartIsolated(), f.WithSibling(), f.Kept() || n > 0, PointEmission(f.a.v0, 2, state),
                 EdgeEmission(Reversed(f.a), 2, state, 0, []), EdgeEmission(f.a, 2, state, n, f.pending), e);
  }

  lemma LineIsElsewhere(l: Line, e: Edge)
    ensures CountOut(l.Emissions(), e) == 0
  {
    hide Line.Kept, Line.StartIsolated, Line.EndIsolated, CountOut, Logged;
    var state, n := ClipState(l.Kept(), l.invertB, l.reverseA), l.r.interiorCrossings;
    CountOfParts(l.StartIsolated(), l.Kept() || n > 0, l.EndIsolated(), PointEmission(l.a.v0, 1, state),
                 EdgeEmission(l.a, 1, state, n, l.pending), PointEmission(l.a.v1, 1, state), e);
  }

  lemma EdgeIsElsewhere(p: Pass, x: ShapeEdgeId, u: Status, e: Edge)
    requires AtEdge(p, x, u) && p.SettingOf(x).Ready(x, u) && e.v0 != e.v1 && !IsAlong(p.aIndex, x, e)
    ensures CountOut(p.SettingOf(x).Emissions(x, u), e) == 0
  {
    hide At, Setting.Scanned, CountOut, Aligned, Face.Emissions, Line.Emissions, Setting.LineAt;
    ShapeIsValid(p, x);
    var t := p.SettingOf(x);
    if t.shape.dimension == 2 {
      FaceIsElsewhere(t.FaceAt(x, u), e);
    } else if t.shape.dimension == 1 {
      LineIsElsewhere(t.LineAt(x, u), e);
    } else {
      PointIsElsewhere(t.PointKept(x, u), p.EdgeOf(x).v0, t.State(u.inside), e);
    }
    NothingIsElsewhere(e);
  }

  lemma ShapeIsValid(p: Pass, x: ShapeEdgeId)
    requires p.Valid() && HasEdge(p.aIndex, x)
    ensures p.aIndex[x.shape].dimension <= 2
  {
    assert p.aIndex[x.shape].Valid();
  }

  lemma PointIsElsewhere(c: bool, v: Point, state: ClipState, e: Edge)
    ensures CountOut(If(c, PointEmission(v, 0, state)), e) == 0
  {
  }

  lemma NothingIsElsewhere(e: Edge)
    ensures CountOut([], e) == 0
  {
  }

  // The first pass leaves edges along one of the other region to the second.
  lemma FirstDefers(p: Pass, x: ShapeEdgeId, u: Status, e: Edge)
    requires AtEdge(p, x, u) && p.SettingOf(x).Ready(x, u) && p.aRegion == 0 && Listed(p) && e.v0 != e.v1
    requires IsAlong(p.aIndex, x, e) && HasEither(p.bIndex, e)
    ensures p.SettingOf(x).Emissions(x, u) == []
  {
    hide At, Setting.Scanned, Aligned, Setting.FaceAt, Listed, HasPolygonEdge, Pass.SettingOf;
    MatchIff(p, x, u);
    L.AfterHoles(p, x, u);
    FaceEmits(p, x, u);
  }

  lemma FaceEmits(p: Pass, x: ShapeEdgeId, u: Status)
    requires AtEdge(p, x, u) && p.SettingOf(x).Ready(x, u) && p.aIndex[x.shape].dimension == 2
    ensures p.SettingOf(x).Emissions(x, u) == p.SettingOf(x).FaceAt(x, u).Emissions()
  {
    hide At, Setting.Scanned, Aligned, Setting.FaceAt;
  }

  // One more edge.
  lemma EmittedStep(p: Pass, s: Status, visited: seq<ShapeEdgeId>, n: nat, e: Edge)
    requires p.Valid() && p.CanWalk(s, visited) && s.pos == 0 && Visited(p, visited, SENTINEL) && n < |visited|
    ensures p.CanWalk(s, visited[..n]) && p.CanWalk(s, visited[..n + 1]) && HasEdge(p.aIndex, visited[n])
    ensures var u := p.Entered(visited[..n], visited[n], p.Walked(s, visited[..n]));
            && AtEdge(p, visited[n], u) && p.SettingOf(visited[n]).Ready(visited[n], u)
            && CountOut(p.Emitted(s, visited[..n + 1]), e)
               == CountOut(p.Emitted(s, visited[..n]), e) + CountOut(p.SettingOf(visited[n]).Emissions(visited[n], u), e)
  {
    hide At, CountOut, Pass.Walked, Visited, Aligned, Setting.Emissions, Pass.SettingOf, Pass.Valid, Pass.Entered;
    ValidParts(p);
    PrefixWalk(p, s, visited, n);
    EdgeIsReady(p, visited[n], p.Entered(visited[..n], visited[n], p.Walked(s, visited[..n])));
    assert visited[..n + 1][..n] == visited[..n];
    CountJoin(p.Emitted(s, visited[..n]),
              p.SettingOf(visited[n]).Emissions(visited[n], p.Entered(visited[..n], visited[n], p.Walked(s, visited[..n]))), e);
  }

  lemma {:induction false} FirstPassCount(p: Pass, s: Status, visited: seq<ShapeEdgeId>, n: nat, e: Edge, d: bool)
    requires p.Valid() && p.CanWalk(s, visited) && s.pos == 0 && Visited(p, visited, SENTINEL) && n <= |visited|
    requires p.aRegion == 0 && Listed(p) && e.v0 != e.v1 && HasEither(p.bIndex, e)
    ensures p.CanWalk(s, visited[..n]) && CountOut(p.Emitted(s, visited[..n]), DirectedEdge(e, d)) == 0
  {
    hide At, CountOut, Pass.Walked, Pass.Emitted, Visited, Setting.Emissions, Pass.SettingOf, Pass.Valid, Pass.Entered, Listed,
         HasEither, IsPolygonEdge;
    if n == 0 {
      NothingEmitted(p, s, visited[..n]);
      NothingIsElsewhere(DirectedEdge(e, d));
    } else {
      FirstPassCount(p, s, visited, n - 1, e, d);
      EmittedStep(p, s, visited, n - 1, DirectedEdge(e, d));
      var x := visited[n - 1];
      var u := p.Entered(visited[..n - 1], x, p.Walked(s, visited[..n - 1]));
      if IsAlong(p.aIndex, x, e) {
        FirstDefers(p, x, u, e);
        NothingIsElsewhere(DirectedEdge(e, d));
      } else {
        EdgeIsElsewhere(p, x, u, DirectedEdge(e, d));
      }
    }
  }

  lemma NothingEmitted(p: Pass, s: Status, none: seq<ShapeEdgeId>)
    requires p.CanWalk(s, none) && none == []
    ensures p.Emitted(s, none) == []
  {
  }

  // The places of the edges of region 1 along e.
  ghost predicate AreAt(q: Pass, b: seq<ShapeEdgeId>, e: Edge, forward: Option<nat>, backward: Option<nat>)
  {
    && (forward.Some? <==> HasPolygonEdge(q.aIndex, e)) && IsAt(q, b, e, forward)
    && (backward.Some? <==> HasPolygonEdge(q.aIndex, Reversed(e))) && IsAt(q, b, Reversed(e), backward)
  }

  ghost predicate IsAt(q: Pass, b: seq<ShapeEdgeId>, e: Edge, place: Option<nat>)
  {
    place.Some? ==> place.value < |b| && IsPolygonEdge(q.aIndex, b[place.value], e)
  }

  // What comes out for the edge at a place before n.
  ghost function Part(q: Pass, t: Status, b: seq<ShapeEdgeId>, n: nat, place: Option<nat>, e: Edge): nat
    requires q.CanWalk(t, b) && (place.Some? ==> place.value < |b|)
  {
    if place.Some? && place.value < n then CountOut(L.FaceAt(q, t, b, place.value).Emissions(), e) else 0
  }

  lemma PartGrows(q: Pass, t: Status, b: seq<ShapeEdgeId>, n: nat, place: Option<nat>, e: Edge)
    requires q.Valid() && q.CanWalk(t, b) && (place.Some? ==> place.value < |b|) && 0 < n <= |b|
    requires t.pos == 0 && Visited(q, b, SENTINEL) && HasEdge(q.aIndex, b[n - 1]) && q.aIndex[b[n - 1].shape].dimension == 2
    requires q.CanWalk(t, b[..n - 1])
    requires AtEdge(q, b[n - 1], q.Entered(b[..n - 1], b[n - 1], q.Walked(t, b[..n - 1])))
    ensures q.SettingOf(b[n - 1]).Ready(b[n - 1], q.Entered(b[..n - 1], b[n - 1], q.Walked(t, b[..n - 1])))
    ensures Part(q, t, b, n, place, e)
            == Part(q, t, b, n - 1, place, e)
               + if place == Some(n - 1) then
                   CountOut(q.SettingOf(b[n - 1]).Emissions(b[n - 1], q.Entered(b[..n - 1], b[n - 1], q.Walked(t, b[..n - 1]))), e)
                 else 0
  {
    hide At, CountOut, Pass.Walked, Visited, Aligned, Setting.Emissions, Pass.SettingOf, Pass.Valid, Pass.Entered, Setting.FaceAt,
         Face.Emissions;
    EdgeIsReady(q, b[n - 1], q.Entered(b[..n - 1], b[n - 1], q.Walked(t, b[..n - 1])));
    FaceEmits(q, b[n - 1], q.Entered(b[..n - 1], b[n - 1], q.Walked(t, b[..n - 1])));
  }

  lemma PartStays(q: Pass, t: Status, b: seq<ShapeEdgeId>, n: nat, place: Option<nat>, e: Edge)
    requires q.CanWalk(t, b) && (place.Some? ==> place.value < |b|) && 0 < n <= |b| && place != Some(n - 1)
    ensures Part(q, t, b, n, place, e) == Part(q, t, b, n - 1, place, e)
  {
    hide L.FaceAt, CountOut, At;
  }

  // An edge along e is at its place, and at no other.
  lemma PlaceIs(q: Pass, b: seq<ShapeEdgeId>, e: Edge, forward: Option<nat>, backward: Option<nat>, n: nat)
    requires AreAt(q, b, e, forward, backward) && NoDuplicates(q.aIndex) && Visited(q, b, SENTINEL) && n < |b| && e.v0 != e.v1
    ensures IsAlong(q.aIndex, b[n], e) <==> forward == Some(n) || backward == Some(n)
    ensures !(forward == Some(n) && backward == Some(n))
  {
    hide Pass.Needed;
    if IsPolygonEdge(q.aIndex, b[n], e) {
      assert HasPolygonEdge(q.aIndex, e);
      assert b[forward.value] == b[n];
    }
    if IsPolygonEdge(q.aIndex, b[n], Reversed(e)) {
      assert HasPolygonEdge(q.aIndex, Reversed(e));
      assert b[backward.value] == b[n];
    }
  }

  lemma {:induction false} SecondPassCount(q: Pass, t: Status, b: seq<ShapeEdgeId>, n: nat, e: Edge, d: bool,
                                           forward: Option<nat>, backward: Option<nat>)
    requires q.Valid() && q.CanWalk(t, b) && t.pos == 0 && Visited(q, b, SENTINEL) && n <= |b|
    requires AreAt(q, b, e, forward, backward) && NoDuplicates(q.aIndex) && e.v0 != e.v1
    ensures q.CanWalk(t, b[..n])
    ensures CountOut(q.Emitted(t, b[..n]), DirectedEdge(e, d))
            == Part(q, t, b, n, forward, DirectedEdge(e, d)) + Part(q, t, b, n, backward, DirectedEdge(e, d))
  {
    hide At, CountOut, Pass.Walked, Pass.Emitted, Visited, Setting.Emissions, Pass.SettingOf, Pass.Valid, Pass.Entered,
         NoDuplicates, IsPolygonEdge, HasPolygonEdge, Part, Aligned;
    var other := DirectedEdge(e, d);
    if n == 0 {
      NothingEmitted(q, t, b[..n]);
      NothingIsElsewhere(other);
      NoPart(q, t, b, forward, other);
      NoPart(q, t, b, backward, other);
    } else {
      SecondPassCount(q, t, b, n - 1, e, d, forward, backward);
      EmittedStep(q, t, b, n - 1, other);
      PlaceIs(q, b, e, forward, backward, n - 1);
      if IsAlong(q.aIndex, b[n - 1], e) {
        AlongIsPolygon(q.aIndex, b[n - 1], e);
        PartGrows(q, t, b, n, forward, other);
        PartGrows(q, t, b, n, backward, other);
      } else {
        EdgeIsElsewhere(q, b[n - 1], q.Entered(b[..n - 1], b[n - 1], q.Walked(t, b[..n - 1])), other);
        PartStays(q, t, b, n, forward, other);
        PartStays(q, t, b, n, backward, other);
      }
    }
  }

  lemma NoPart(q: Pass, t: Status, b: seq<ShapeEdgeId>, place: Option<nat>, e: Edge)
    requires q.CanWalk(t, b) && (place.Some? ==> place.value < |b|)
    ensures Part(q, t, b, 0, place, e) == 0
  {
  }

  lemma AlongIsPolygon(index: Index, x: ShapeEdgeId, e: Edge)
    requires IsAlong(index, x, e)
    ensures HasEdge(index, x) && index[x.shape].dimension == 2
  {
  }

  // Where the edges of region 1 along e are visited.
  lemma Places(p: Pass, q: Pass, b: seq<ShapeEdgeId>, e: Edge) returns (forward: Option<nat>, backward: Option<nat>)
    requires q.Valid() && q.bIndex == p.aIndex && Visited(q, b, SENTINEL) && Listed(q) && HasEither(p.aIndex, e)
    ensures AreAt(q, b, e, forward, backward)
  {
    hide Visited, Listed, IsPolygonEdge, Pass.Valid;
    forward := Place(p, q, b, e, true);
    backward := Place(p, q, b, e, false);
  }

  lemma Place(p: Pass, q: Pass, b: seq<ShapeEdgeId>, e: Edge, d: bool) returns (place: Option<nat>)
    requires q.Valid() && q.bIndex == p.aIndex && Visited(q, b, SENTINEL) && Listed(q) && HasEither(p.aIndex, e)
    ensures (place.Some? <==> HasPolygonEdge(q.aIndex, DirectedEdge(e, d))) && IsAt(q, b, DirectedEdge(e, d), place)
  {
    hide Visited, Listed, Pass.Valid;
    place := None;
    if HasPolygonEdge(q.aIndex, DirectedEdge(e, d)) {
      var x :| IsPolygonEdge(q.aIndex, x, DirectedEdge(e, d));
      var y := SomeAlong(p.aIndex, e);
      var i := PlaceOf(q, b, x, y, e, IsPolygonEdge(q.bIndex, y, e));
      place := Some(i);
    }
  }

  // What comes out along e over both passes comes out for the faces of region 1.
  lemma TotalIs(p: Pass, q: Pass, s: Status, t: Status, a: seq<ShapeEdgeId>, b: seq<ShapeEdgeId>, e: Edge, d: bool,
                forward: Option<nat>, backward: Option<nat>)
    requires AreRuns(p, q, s, t, a, b) && e.v0 != e.v1 && HasEither(q.aIndex, e) && AreAt(q, b, e, forward, backward)
    ensures CountOut(p.Emitted(s, a) + q.Emitted(t, b), DirectedEdge(e, d))
            == PairOutputs(FaceOf(q, t, b, forward), FaceOf(q, t, b, backward), DirectedEdge(e, d))
  {
    hide At, CountOut, Pass.Walked, Pass.Emitted, Pass.Valid, Visited, NoDuplicates, Listed, PastIs, IsPolygonEdge, HasPolygonEdge,
         Pass.Explained, Pass.ExplainedPast, Pass.Separated, SeenBy, L.FaceAt, Face.Emissions;
    FirstPassCount(p, s, a, |a|, e, d);
    SecondPassCount(q, t, b, |b|, e, d, forward, backward);
    assert a[..|a|] == a && b[..|b|] == b;
    CountJoin(p.Emitted(s, a), q.Emitted(t, b), DirectedEdge(e, d));
  }

  ghost function FaceOf(q: Pass, t: Status, b: seq<ShapeEdgeId>, place: Option<nat>): Option<Face>
    requires q.CanWalk(t, b) && (place.Some? ==> place.value < |b|)
  {
    if place.Some? then Some(L.FaceAt(q, t, b, place.value)) else None
  }

  // The edge of region 1 along e is the only one, region 0 has it in the same
  // direction, after inversion, and its entry has been created for a point loop.
  ghost predicate IsSpoiled(p: Pass, q: Pass, t: Status, b: seq<ShapeEdgeId>, e: Edge)
    requires q.CanWalk(t, b)
  {
    exists j, d :: SpoilsAt(p, q, t, b, e, j, d)
  }

  ghost predicate SpoilsAt(p: Pass, q: Pass, t: Status, b: seq<ShapeEdgeId>, e: Edge, j: nat, d: bool)
    requires q.CanWalk(t, b)
  {
    && j < |b| && IsPolygonEdge(q.aIndex, b[j], DirectedEdge(e, d)) && !HasBoth(q.aIndex, e)
    && HasPolygonEdge(p.aIndex, DirectedEdge(e, d == (p.invertA == p.invertB))) && AskedBefore(q, t, b, j, b[j])
  }

  // Does the edge in direction d come out once if it bounds the result and
  // otherwise not at all, sibling pairs aside that an open subtraction keeps?
  ghost predicate FollowsRule(p: Pass, q: Pass, s: Status, t: Status, a: seq<ShapeEdgeId>, b: seq<ShapeEdgeId>, e: Edge,
                              around0: bool, around1: bool, d: bool)
    requires p.CanWalk(s, a) && q.CanWalk(t, b)
  {
    ByRule(CombinationOf(p), NearOf(p.aIndex, e, around0), NearOf(q.aIndex, e, around1), d,
           CountOut(p.Emitted(s, a) + q.Emitted(t, b), DirectedEdge(e, d)))
  }

  // Main result: over both passes, an edge that both regions have comes out by the
  // rule, in both directions, if and only if no point loop has spoiled its entry.
  lemma SharedEdgesFollowRule(p: Pass, q: Pass, s: Status, t: Status, a: seq<ShapeEdgeId>, b: seq<ShapeEdgeId>, e: Edge,
                              around0: bool, around1: bool)
    requires AreRuns(p, q, s, t, a, b) && AroundIs(p, q, e, around0, around1) && e.v0 != e.v1
    requires HasEither(p.aIndex, e) && HasEither(q.aIndex, e)
    ensures FollowsRule(p, q, s, t, a, b, e, around0, around1, true) && FollowsRule(p, q, s, t, a, b, e, around0, around1, false)
            <==> !IsSpoiled(p, q, t, b, e)
  {
    hide At, CountOut, Pass.Emitted, AreRuns, HasPolygonEdge, FaceOf, IsSpoiled, PastIs, AreAt, ByRule;
    RunsWalk(p, q, s, t, a, b);
    var forward, backward := PlacesIn(p, q, s, t, a, b, e);
    TotalIs(p, q, s, t, a, b, e, true, forward, backward);
    TotalIs(p, q, s, t, a, b, e, false, forward, backward);
    PlacesFollow(p, q, s, t, a, b, e, around0, around1, forward, backward);
  }

  lemma RunsWalk(p: Pass, q: Pass, s: Status, t: Status, a: seq<ShapeEdgeId>, b: seq<ShapeEdgeId>)
    requires AreRuns(p, q, s, t, a, b)
    ensures p.CanWalk(s, a) && q.CanWalk(t, b)
  {
  }

  lemma PlacesIn(p: Pass, q: Pass, s: Status, t: Status, a: seq<ShapeEdgeId>, b: seq<ShapeEdgeId>, e: Edge)
    returns (forward: Option<nat>, backward: Option<nat>)
    requires AreRuns(p, q, s, t, a, b) && HasEither(p.aIndex, e)
    ensures AreAt(q, b, e, forward, backward)
  {
    hide At, Pass.Valid, Visited, NoDuplicates, Listed, Pass.Explained, Pass.ExplainedPast, Pass.Separated, SeenBy, HasPolygonEdge;
    forward, backward := Places(p, q, b, e);
  }

  // A loop asks only where degeneracies are neither created nor kept.
  lemma AskedMeans(q: Pass, t: Status, b: seq<ShapeEdgeId>, n: nat, id: ShapeEdgeId)
    requires q.CanWalk(t, b) && n <= |b| && AskedBefore(q, t, b, n, id)
    ensures var op := Operation(q.model.polygon, q.invertA, q.invertB, q.aRegion == 1); !op.CreateDegen() && !op.KeepDegenA()
  {
    hide At, Pass.Walked, Operation.CreateDegen, Operation.KeepDegenA, Setting.Scanned;
    var i :| 0 <= i < n && Asks(q, t, b, i, id);
  }

  lemma OnlyPlace(p: Pass, q: Pass, t: Status, b: seq<ShapeEdgeId>, e: Edge, j: nat, own: bool)
    requires q.CanWalk(t, b) && NoDuplicates(q.aIndex) && Visited(q, b, SENTINEL) && e.v0 != e.v1 && !HasBoth(q.aIndex, e)
    requires j < |b| && IsPolygonEdge(q.aIndex, b[j], DirectedEdge(e, own))
    ensures IsSpoiled(p, q, t, b, e)
            <==> AskedBefore(q, t, b, j, b[j]) && HasPolygonEdge(p.aIndex, DirectedEdge(e, own == (p.invertA == p.invertB)))
  {
    hide At, AskedBefore, Pass.Needed;
    if AskedBefore(q, t, b, j, b[j]) && HasPolygonEdge(p.aIndex, DirectedEdge(e, own == (p.invertA == p.invertB))) {
      assert SpoilsAt(p, q, t, b, e, j, own);
    }
    forall k: nat, d | SpoilsAt(p, q, t, b, e, k, d)
      ensures k == j && d == own
    {
      OnlyDirection(q.aIndex, b[j], b[k], e, own, d);
    }
  }

  lemma OnlyDirection(index: Index, x: ShapeEdgeId, y: ShapeEdgeId, e: Edge, own: bool, d: bool)
    requires NoDuplicates(index) && e.v0 != e.v1 && !HasBoth(index, e)
    requires IsPolygonEdge(index, x, DirectedEdge(e, own)) && IsPolygonEdge(index, y, DirectedEdge(e, d))
    ensures x == y && own == d
  {
    OneOfBoth(index, x, e, own);
    OneOfBoth(index, y, e, d);
  }

  // A single edge of region 1.
  lemma SinglePlaceFollows(p: Pass, q: Pass, s: Status, t: Status, a: seq<ShapeEdgeId>, b: seq<ShapeEdgeId>, e: Edge,
                           around0: bool, around1: bool, j: nat, own: bool)
    requires AreRuns(p, q, s, t, a, b) && AroundIs(p, q, e, around0, around1) && IsFaceAlong(p, q, b, j, e, own)
    requires !HasBoth(q.aIndex, e)
    ensures q.CanWalk(t, b)
    ensures var c, n0, n1 := CombinationOf(p), NearOf(p.aIndex, e, around0), NearOf(q.aIndex, e, around1);
            var o := Some(L.FaceAt(q, t, b, j));
            var f, g := if own then o else None, if own then None else o;
            ByRule(c, n0, n1, true, PairOutputs(f, g, e)) && ByRule(c, n0, n1, false, PairOutputs(f, g, Reversed(e)))
            <==> !IsSpoiled(p, q, t, b, e)
  {
    hide At, CountOut, HasPolygonEdge, IsSpoiled, PastIs, L.FaceAt, Lies, ByRule, AskedBefore, Pass.Valid, Visited,
         NoDuplicates, Listed, Pass.Explained, Pass.ExplainedPast, Pass.Separated, SeenBy, Operation.CreateDegen,
         Operation.KeepDegenA, PairOutputs;
    FaceIsDescribed(p, q, s, t, a, b, j, e, own, around0, around1);
    OneOfBoth(q.aIndex, b[j], e, own);
    OnlyPlace(p, q, t, b, e, j, own);
    var f, asked := L.FaceAt(q, t, b, j), AskedBefore(q, t, b, j, b[j]);
    if asked {
      AskedMeans(q, t, b, j, b[j]);
    }
    OperationIs(f, CombinationOf(p), NearOf(p.aIndex, e, around0), NearOf(q.aIndex, e, around1), e, own);
    SingleFollows(f, CombinationOf(p), NearOf(p.aIndex, e, around0), NearOf(q.aIndex, e, around1), e, own, asked);
  }

  lemma OperationIs(f: Face, c: Combination, n0: Near, n1: Near, e: Edge, d: bool)
    requires Lies(f, c, n0, n1, e, d)
    ensures f.op == Operation(c.m, c.invert1, c.invert0, true)
  {
  }

  // The same for the faces at their places.
  lemma PlacesFollow(p: Pass, q: Pass, s: Status, t: Status, a: seq<ShapeEdgeId>, b: seq<ShapeEdgeId>, e: Edge, around0: bool,
                     around1: bool, forward: Option<nat>, backward: Option<nat>)
    requires AreRuns(p, q, s, t, a, b) && AroundIs(p, q, e, around0, around1) && e.v0 != e.v1
    requires HasEither(p.aIndex, e) && HasEither(q.aIndex, e) && AreAt(q, b, e, forward, backward)
    ensures var c, n0, n1 := CombinationOf(p), NearOf(p.aIndex, e, around0), NearOf(q.aIndex, e, around1);
            var f, g := FaceOf(q, t, b, forward), FaceOf(q, t, b, backward);
            ByRule(c, n0, n1, true, PairOutputs(f, g, e)) && ByRule(c, n0, n1, false, PairOutputs(f, g, Reversed(e)))
            <==> !IsSpoiled(p, q, t, b, e)
  {
    hide At, CountOut, AreRuns, HasPolygonEdge, PastIs, L.FaceAt, Lies, ByRule, AskedBefore, PairOutputs;
    RunsWalk(p, q, s, t, a, b);
    if forward.Some? && backward.Some? {
      FaceIsDescribed(p, q, s, t, a, b, forward.value, e, true, around0, around1);
      FaceIsDescribed(p, q, s, t, a, b, backward.value, e, false, around0, around1);
      var f, g := FaceOf(q, t, b, forward), FaceOf(q, t, b, backward);
      SharedEdgeRule(f, g, CombinationOf(p), NearOf(p.aIndex, e, around0), NearOf(q.aIndex, e, around1), e, true);
      SharedEdgeRule(f, g, CombinationOf(p), NearOf(p.aIndex, e, around0), NearOf(q.aIndex, e, around1), e, false);
    } else if forward.Some? {
      SinglePlaceFollows(p, q, s, t, a, b, e, around0, around1, forward.value, true);
    } else {
      SinglePlaceFollows(p, q, s, t, a, b, e, around0, around1, backward.value, false);
    }
  }
}
