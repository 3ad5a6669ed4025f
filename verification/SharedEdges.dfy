/**
 Polygon edges that both regions have at the same place: what the second pass
 emits, compared with what the polygons contain.
 */
module SharedEdges {
  import opened Common
  import opened Shapes
  import opened EdgeScan
  import opened BoundaryRules
  import opened ClipLog
  import opened Outputs
  import opened Processor

  // ----- the regions next to an edge -----

  // Which of the two directed edges between two vertices a region's polygons have,
  // "true" standing for the forward direction.  If they have none or both,
  // "around" says whether they contain what lies around.
  datatype Near = Near(forward: bool, backward: bool, around: bool) {
    predicate Has(d: bool)
    {
      if d then forward else backward
    }

    predicate IsPair()
    {
      forward && backward
    }

    predicate IsSingle()
    {
      forward != backward
    }

    // Polygons lie to the left of their edges.
    predicate ContainsSide(left: bool)
    {
      if forward == backward then around else Has(left)
    }

    // The model's say about the edge itself: open polygons do not contain their
    // edges, closed ones contain them in both directions, and semi-open ones in
    // their own direction, while sibling pairs have no effect.
    predicate ContainsEdge(m: PolygonModel, d: bool)
    {
      match m
      case PolygonOpen => !forward && !backward && around
      case PolygonSemiOpen => if forward == backward then around else Has(d)
      case PolygonClosed => forward || backward || around
    }
  }

  // An operation: intersection after inverting the regions as given, and the
  // result as well.
  datatype Combination = Combination(m: PolygonModel, invert0: bool, invert1: bool, invertResult: bool) {
    predicate Of(x0: bool, x1: bool)
    {
      ((x0 != invert0) && (x1 != invert1)) != invertResult
    }

    predicate Side(n0: Near, n1: Near, left: bool)
    {
      Of(n0.ContainsSide(left), n1.ContainsSide(left))
    }

    predicate OnEdge(n0: Near, n1: Near, d: bool)
    {
      Of(n0.ContainsEdge(m, d), n1.ContainsEdge(m, d))
    }

    // Is this a degenerate shell of a region from which the other is subtracted?
    // It is kept, although open polygons do not contain their edges.
    predicate KeepsShell(n: Near, invert: bool, other: bool)
    {
      m == PolygonOpen && !invert && other && n.IsPair() && !n.around
    }

    // Does the directed edge bound the result?  If the result lies on one side, in
    // the direction that has it on the left.  If it lies on both sides or on
    // neither, both directions do when the edge itself differs from that, that
    // is, when it is a hole or a shell; two sibling pairs of the same kind remain
    // in any model.
    predicate IsBoundary(n0: Near, n1: Near, d: bool)
    {
      if Side(n0, n1, true) != Side(n0, n1, false) then Side(n0, n1, d)
      else if n0.IsPair() && n1.IsPair() then
        (n0.around != invert0) == (n1.around != invert1) || OnEdge(n0, n1, d) != Side(n0, n1, d)
      else
        || OnEdge(n0, n1, d) != Side(n0, n1, d)
        || KeepsShell(n0, invert0, invert1) || KeepsShell(n1, invert1, invert0)
    }

    // The second pass keeps sibling pairs of region 1 when region 0, which is open,
    // is subtracted from it, even if region 0 has one of the opposite kind there.
    predicate Deviates(n0: Near, n1: Near)
    {
      && m == PolygonOpen && invert0 && !invert1 && n0.IsPair() && n1.IsPair()
      && (n0.around != invert0) != (n1.around != invert1)
    }
  }

  // ----- what is emitted -----

  function DirectedEdge(e: Edge, d: bool): Edge
  {
    if d then e else Reversed(e)
  }

  // An emission comes out as this polygon edge: it is inside, and reversed if the
  // state says so.
  predicate ComesOutAs(x: Emission, e: Edge)
  {
    x.dimension == 2 && x.state.inside && (if x.state.reverseA then Reversed(x.edge) else x.edge) == e
  }

  function CountOut(h: seq<Emission>, e: Edge): nat
  {
    if h == [] then 0 else CountOut(h[..|h| - 1], e) + if ComesOutAs(h[|h| - 1], e) then 1 else 0
  }

  // Region 1's edge in direction d, in the second pass.
  ghost predicate Lies(f: Face, c: Combination, n0: Near, n1: Near, e: Edge, d: bool)
  {
    && f.op == Operation(c.m, c.invert1, c.invert0, true) && f.invertB == c.invert0
    && f.reverseA == (c.invert1 != c.invertResult)
    && e.v0 != e.v1 && f.a == DirectedEdge(e, d) && n1.Has(d) && f.r.interiorCrossings == 0
    && f.r.polygonMatch.Some? == n0.Has(d == (c.invert0 == c.invert1))
    && f.r.siblingMatch.Some? == n0.Has(d != (c.invert0 == c.invert1))
    && (n0.IsPair() ==> f.SemiOpenInside() == (n0.around != c.invert0))
  }

  // The table of degenerate loops has an entry for it if it is one of a pair.
  ghost predicate Describes(f: Face, c: Combination, n0: Near, n1: Near, e: Edge, d: bool)
  {
    && Lies(f, c, n0, n1, e, d)
    && (f.aId in f.holes <==> n1.IsPair()) && (n1.IsPair() ==> f.holes[f.aId] == (n1.around != c.invert1))
  }

  lemma CountOfParts(p: bool, q: bool, r: bool, x: Emission, y: Emission, z: Emission, e: Edge)
    ensures CountOut(If(p, x) + If(q, y) + If(r, z), e)
            == (if p && ComesOutAs(x, e) then 1 else 0) + (if q && ComesOutAs(y, e) then 1 else 0)
               + (if r && ComesOutAs(z, e) then 1 else 0)
  {
    hide ComesOutAs;
    CountAppend(If(p, x) + If(q, y), r, z, e);
    CountAppend(If(p, x), q, y, e);
    CountAppend([], p, x, e);
    assert [] + If(p, x) == If(p, x);
  }

  lemma CountAppend(h: seq<Emission>, c: bool, x: Emission, e: Edge)
    ensures CountOut(h + If(c, x), e) == CountOut(h, e) + if c && ComesOutAs(x, e) then 1 else 0
  {
    hide ComesOutAs;
    AddNothing(h);
    assert (h + [x])[..|h|] == h;
  }

  // A face outputs its own edge if it is kept, and then possibly the sibling; its
  // vertex is no edge.
  lemma FaceOutputs(f: Face, e: Edge)
    requires !f.IsPoint() && e.v0 != e.v1 && f.op.emitShared && f.r.interiorCrossings == 0
    ensures var own := if f.reverseA then Reversed(f.a) else f.a;
            CountOut(f.Emissions(), e)
            == (if f.Kept() && e == own then 1 else 0) + if f.Kept() && f.WithSibling() && e == Reversed(own) then 1 else 0
  {
    hide Face.Kept, Face.WithSibling, Face.StartIsolated;
    var state := f.State();
    CountOfParts(f.StartIsolated(), f.WithSibling(), f.Kept() || f.r.interiorCrossings > 0,
                   PointEmission(f.a.v0, 2, state), EdgeEmission(Reversed(f.a), 2, state, 0, []),
                   EdgeEmission(f.a, 2, state, f.r.interiorCrossings, f.pending), e);
  }

  // The outputs for the edges that region 1 has, one face for each.
  function PairOutputs(forward: Option<Face>, backward: Option<Face>, e: Edge): nat
  {
    (if forward.Some? then CountOut(forward.value.Emissions(), e) else 0)
    + if backward.Some? then CountOut(backward.value.Emissions(), e) else 0
  }

  ghost predicate AreFaces(forward: Option<Face>, backward: Option<Face>, c: Combination, n0: Near, n1: Near, e: Edge)
  {
    && e.v0 != e.v1 && (n0.forward || n0.backward) && (n1.forward || n1.backward)
    && forward.Some? == n1.forward && (forward.Some? ==> Describes(forward.value, c, n0, n1, e, true))
    && backward.Some? == n1.backward && (backward.Some? ==> Describes(backward.value, c, n0, n1, e, false))
  }

  // Does a direction come out as the rule says?
  predicate ByRule(c: Combination, n0: Near, n1: Near, d: bool, count: nat)
  {
    count == if c.IsBoundary(n0, n1, d) || c.Deviates(n0, n1) then 1 else 0
  }

  // Main result: where both regions have edges, each direction comes out once if
  // it bounds the result and otherwise not at all; sibling pairs aside that an
  // open subtraction keeps against the rule.
  lemma SharedEdgeRule(forward: Option<Face>, backward: Option<Face>, c: Combination, n0: Near, n1: Near, e: Edge, d: bool)
    requires AreFaces(forward, backward, c, n0, n1, e)
    ensures ByRule(c, n0, n1, d, PairOutputs(forward, backward, DirectedEdge(e, d)))
  {
    hide CountOut, Combination.IsBoundary, Combination.Deviates, Describes, Face.Emissions;
    if forward.Some? {
      DirectionOutputs(forward.value, c, n0, n1, e, true, d);
    }
    if backward.Some? {
      DirectionOutputs(backward.value, c, n0, n1, e, false, d);
    }
    RuleTable(c, n0, n1, d);
  }

  // Is region 1's edge in direction d kept, by the code's conditions?
  predicate Keeps(c: Combination, n0: Near, n1: Near, d: bool)
  {
    var op := Operation(c.m, c.invert1, c.invert0, true);
    var along, against := n0.Has(d == (c.invert0 == c.invert1)), n0.Has(d != (c.invert0 == c.invert1));
    var inside, hole := n0.around != c.invert0, n1.around != c.invert1;
    if along then
      if n1.IsPair() then op.CreateDegen() || op.KeepDegenA() || (!against || inside) == hole
      else (against ==> inside || op.CreateDegen() || op.KeepDegenB())
    else if n1.IsPair() then (op.CreateDegen() || op.KeepDegenA()) && !hole
    else op.CreateDegen()
  }

  predicate AddsSibling(c: Combination, n0: Near, n1: Near, d: bool)
  {
    var op := Operation(c.m, c.invert1, c.invert0, true);
    var along, against := n0.Has(d == (c.invert0 == c.invert1)), n0.Has(d != (c.invert0 == c.invert1));
    against && (op.CreateDegen() || op.KeepDegenB()) && !n1.IsPair() && !(along && (n0.around != c.invert0))
  }

  lemma KeptIs(f: Face, c: Combination, n0: Near, n1: Near, e: Edge, d: bool)
    requires Describes(f, c, n0, n1, e, d) && (n0.forward || n0.backward)
    ensures f.Kept() == Keeps(c, n0, n1, d) && f.WithSibling() == AddsSibling(c, n0, n1, d)
    ensures !f.IsPoint() && f.op.emitShared && f.r.interiorCrossings == 0
  {
    hide Operation.CreateDegen, Operation.KeepDegenA, Operation.KeepDegenB, Face.SemiOpenInside;
  }

  lemma DirectionOutputs(f: Face, c: Combination, n0: Near, n1: Near, e: Edge, own: bool, d: bool)
    requires Describes(f, c, n0, n1, e, own) && (n0.forward || n0.backward)
    ensures var same := (own == d) != (c.invert1 != c.invertResult);
            CountOut(f.Emissions(), DirectedEdge(e, d))
            == if Keeps(c, n0, n1, own) && (same || AddsSibling(c, n0, n1, own)) then 1 else 0
  {
    KeptIs(f, c, n0, n1, e, own);
    FaceOutputs(f, DirectedEdge(e, d));
    hide Keeps, AddsSibling, Face.Kept, Face.WithSibling, Face.Emissions, CountOut;
  }

  // What the code's conditions amount to for direction d.
  function Kept(c: Combination, n0: Near, n1: Near, d: bool): nat
  {
    var same := d != (c.invert1 != c.invertResult);
    (if n1.forward && Keeps(c, n0, n1, true) && (same || AddsSibling(c, n0, n1, true)) then 1 else 0)
    + (if n1.backward && Keeps(c, n0, n1, false) && (!same || AddsSibling(c, n0, n1, false)) then 1 else 0)
  }

  // They agree with containment, case by case.
  lemma RuleTable(c: Combination, n0: Near, n1: Near, d: bool)
    requires (n0.forward || n0.backward) && (n1.forward || n1.backward)
    ensures Kept(c, n0, n1, d) == if c.IsBoundary(n0, n1, d) || c.Deviates(n0, n1) then 1 else 0
  {
    hide Kept, Combination.IsBoundary, Combination.Deviates;
    if n0.IsPair() && n1.IsPair() {
      PairsRule(c, n0, n1, d);
    } else if n0.IsPair() {
      PairRule(c, n0, n1, d);
    } else if n1.IsPair() {
      ShellOrHoleRule(c, n0, n1, d);
    } else {
      SingleRule(c, n0, n1, d);
    }
  }

  lemma SingleRule(c: Combination, n0: Near, n1: Near, d: bool)
    requires n0.IsSingle() && n1.IsSingle()
    ensures Kept(c, n0, n1, d) == if c.IsBoundary(n0, n1, d) || c.Deviates(n0, n1) then 1 else 0
  {
    hide Kept, Combination.IsBoundary, Combination.Deviates;
    if n0.forward == n1.forward {
      SameRule(c, n0, n1, d);
    } else {
      OppositeRule(c, n0, n1, d);
    }
  }

  lemma SameRule(c: Combination, n0: Near, n1: Near, d: bool)
    requires n0.IsSingle() && n1.IsSingle() && n0.forward == n1.forward
    ensures Kept(c, n0, n1, d) == if c.IsBoundary(n0, n1, d) || c.Deviates(n0, n1) then 1 else 0
  {
  }

  lemma OppositeRule(c: Combination, n0: Near, n1: Near, d: bool)
    requires n0.IsSingle() && n1.IsSingle() && n0.forward != n1.forward
    ensures Kept(c, n0, n1, d) == if c.IsBoundary(n0, n1, d) || c.Deviates(n0, n1) then 1 else 0
  {
  }

  lemma ShellOrHoleRule(c: Combination, n0: Near, n1: Near, d: bool)
    requires n0.IsSingle() && n1.IsPair()
    ensures Kept(c, n0, n1, d) == if c.IsBoundary(n0, n1, d) || c.Deviates(n0, n1) then 1 else 0
  {
  }

  lemma PairRule(c: Combination, n0: Near, n1: Near, d: bool)
    requires n0.IsPair() && n1.IsSingle()
    ensures Kept(c, n0, n1, d) == if c.IsBoundary(n0, n1, d) || c.Deviates(n0, n1) then 1 else 0
  {
  }

  lemma PairsRule(c: Combination, n0: Near, n1: Near, d: bool)
    requires n0.IsPair() && n1.IsPair()
    ensures Kept(c, n0, n1, d) == if c.IsBoundary(n0, n1, d) || c.Deviates(n0, n1) then 1 else 0
  {
  }

  // An entry that is meant for another edge: the rule is followed all the same if
  // and only if region 0 does not have the edge in the same direction.
  lemma SpoiledEntry(f: Face, c: Combination, n0: Near, n1: Near, e: Edge, own: bool)
    requires Lies(f, c, n0, n1, e, own) && (n0.forward || n0.backward) && n1.IsSingle()
    requires f.aId in f.holes && !f.holes[f.aId] && !f.op.CreateDegen() && !f.op.KeepDegenA()
    ensures ByRule(c, n0, n1, true, CountOut(f.Emissions(), e)) && ByRule(c, n0, n1, false, CountOut(f.Emissions(), Reversed(e)))
            <==> !n0.Has(own == (c.invert0 == c.invert1))
  {
    hide CountOut, Combination.IsBoundary, Combination.Deviates, Face.Emissions, Operation.CreateDegen, Operation.KeepDegenA;
    SpoiledOutputs(f, c, n0, n1, e, own, true);
    SpoiledOutputs(f, c, n0, n1, e, own, false);
    SpoiledTable(c, n0, n1, own);
  }

  // The only edge that region 1 has, whether its entry is spoiled or not.
  lemma SingleFollows(f: Face, c: Combination, n0: Near, n1: Near, e: Edge, own: bool, asked: bool)
    requires Lies(f, c, n0, n1, e, own) && (n0.forward || n0.backward) && n1.IsSingle()
    requires (f.aId in f.holes <==> asked) && (asked ==> !f.holes[f.aId] && !f.op.CreateDegen() && !f.op.KeepDegenA())
    ensures var o := Some(f);
            var g, h := if own then o else None, if own then None else o;
            ByRule(c, n0, n1, true, PairOutputs(g, h, e)) && ByRule(c, n0, n1, false, PairOutputs(g, h, Reversed(e)))
            <==> !(asked && n0.Has(own == (c.invert0 == c.invert1)))
  {
    hide CountOut, ByRule, Operation.CreateDegen, Operation.KeepDegenA, Face.Emissions, Face.SemiOpenInside;
    if asked {
      SpoiledEntry(f, c, n0, n1, e, own);
    } else {
      var g, h := if own then Some(f) else None, if own then None else Some(f);
      SharedEdgeRule(g, h, c, n0, n1, e, true);
      SharedEdgeRule(g, h, c, n0, n1, e, false);
    }
  }

  predicate KeepsSpoiled(c: Combination, n0: Near, own: bool)
  {
    n0.Has(own == (c.invert0 == c.invert1)) && n0.Has(own != (c.invert0 == c.invert1)) && n0.around == c.invert0
  }

  lemma SpoiledOutputs(f: Face, c: Combination, n0: Near, n1: Near, e: Edge, own: bool, d: bool)
    requires Lies(f, c, n0, n1, e, own) && (n0.forward || n0.backward) && n1.IsSingle()
    requires f.aId in f.holes && !f.holes[f.aId] && !f.op.CreateDegen() && !f.op.KeepDegenA()
    ensures CountOut(f.Emissions(), DirectedEdge(e, d))
            == if KeepsSpoiled(c, n0, own) && (own == d) != (c.invert1 != c.invertResult) then 1 else 0
  {
    SpoiledIsKept(f, c, n0, n1, e, own);
    FaceOutputs(f, DirectedEdge(e, d));
    hide KeepsSpoiled, Face.Kept, Face.WithSibling, Face.Emissions, CountOut, Operation.CreateDegen, Operation.KeepDegenA;
  }

  lemma SpoiledIsKept(f: Face, c: Combination, n0: Near, n1: Near, e: Edge, own: bool)
    requires Lies(f, c, n0, n1, e, own) && (n0.forward || n0.backward)
    requires f.aId in f.holes && !f.holes[f.aId] && !f.op.CreateDegen() && !f.op.KeepDegenA()
    ensures f.Kept() == KeepsSpoiled(c, n0, own) && !f.WithSibling()
    ensures !f.IsPoint() && f.op.emitShared && f.r.interiorCrossings == 0
  {
    hide Operation.CreateDegen, Operation.KeepDegenA, Operation.KeepDegenB, Face.SemiOpenInside;
  }

  function SpoiledCount(c: Combination, n0: Near, own: bool, d: bool): nat
  {
    if KeepsSpoiled(c, n0, own) && (own == d) != (c.invert1 != c.invertResult) then 1 else 0
  }

  lemma SpoiledTable(c: Combination, n0: Near, n1: Near, own: bool)
    requires (n0.forward || n0.backward) && n1.IsSingle() && n1.Has(own)
    requires var op := Operation(c.m, c.invert1, c.invert0, true); !op.CreateDegen() && !op.KeepDegenA()
    ensures ByRule(c, n0, n1, true, SpoiledCount(c, n0, own, true)) && ByRule(c, n0, n1, false, SpoiledCount(c, n0, own, false))
            <==> !n0.Has(own == (c.invert0 == c.invert1))
  {
    hide ByRule, SpoiledCount, Operation.CreateDegen, Operation.KeepDegenA;
    if n0.IsPair() {
      SpoiledPair(c, n0, n1, own);
    } else {
      SpoiledSingle(c, n0, n1, own);
    }
  }

  lemma SpoiledPair(c: Combination, n0: Near, n1: Near, own: bool)
    requires n0.IsPair() && n1.IsSingle() && n1.Has(own)
    requires var op := Operation(c.m, c.invert1, c.invert0, true); !op.CreateDegen() && !op.KeepDegenA()
    ensures ByRule(c, n0, n1, true, SpoiledCount(c, n0, own, true)) && ByRule(c, n0, n1, false, SpoiledCount(c, n0, own, false))
            <==> !n0.Has(own == (c.invert0 == c.invert1))
  {
  }

  lemma SpoiledSingle(c: Combination, n0: Near, n1: Near, own: bool)
    requires n0.IsSingle() && n1.IsSingle() && n1.Has(own)
    requires var op := Operation(c.m, c.invert1, c.invert0, true); !op.CreateDegen() && !op.KeepDegenA()
    ensures ByRule(c, n0, n1, true, SpoiledCount(c, n0, own, true)) && ByRule(c, n0, n1, false, SpoiledCount(c, n0, own, false))
            <==> !n0.Has(own == (c.invert0 == c.invert1))
  {
    hide ByRule, SpoiledCount, Operation.CreateDegen, Operation.KeepDegenA;
    if n0.forward == n1.forward {
      SpoiledSame(c, n0, n1, own);
    } else {
      SpoiledOpposite(c, n0, n1, own);
    }
  }

  lemma SpoiledSame(c: Combination, n0: Near, n1: Near, own: bool)
    requires n0.IsSingle() && n1.IsSingle() && n1.Has(own) && n0.forward == n1.forward
    requires var op := Operation(c.m, c.invert1, c.invert0, true); !op.CreateDegen() && !op.KeepDegenA()
    ensures ByRule(c, n0, n1, true, SpoiledCount(c, n0, own, true)) && ByRule(c, n0, n1, false, SpoiledCount(c, n0, own, false))
            <==> !n0.Has(own == (c.invert0 == c.invert1))
  {
  }

  lemma SpoiledOpposite(c: Combination, n0: Near, n1: Near, own: bool)
    requires n0.IsSingle() && n1.IsSingle() && n1.Has(own) && n0.forward != n1.forward
    requires var op := Operation(c.m, c.invert1, c.invert0, true); !op.CreateDegen() && !op.KeepDegenA()
    ensures ByRule(c, n0, n1, true, SpoiledCount(c, n0, own, true)) && ByRule(c, n0, n1, false, SpoiledCount(c, n0, own, false))
            <==> !n0.Has(own == (c.invert0 == c.invert1))
  {
  }

  // ----- the rule spelled out -----

  const ALONG := Near(true, false, false)
  const AGAINST := Near(false, true, false)
  const SHELL := Near(true, true, false)
  const HOLE := Near(true, true, true)

  function Intersection(m: PolygonModel): Combination
  {
    Combination(m, false, false, false)
  }

  // ~(~A & ~B)
  function Union(m: PolygonModel): Combination
  {
    Combination(m, true, true, true)
  }

  // A & ~B
  function Difference(m: PolygonModel): Combination
  {
    Combination(m, false, true, false)
  }

  // Both regions have the edge in the same direction.
  lemma SameDirection(m: PolygonModel, d: bool)
    ensures Intersection(m).IsBoundary(ALONG, ALONG, d) == Union(m).IsBoundary(ALONG, ALONG, d) == d
    ensures !Difference(m).IsBoundary(ALONG, ALONG, d)
  {
  }

  // The regions touch along the edge: their intersection is a sibling pair in the
  // closed model, their union lacks one in the open model, and the first region
  // keeps its edge when the other is subtracted.
  lemma OppositeDirections(m: PolygonModel, d: bool)
    ensures Intersection(m).IsBoundary(ALONG, AGAINST, d) == (m == PolygonClosed)
    ensures Union(m).IsBoundary(ALONG, AGAINST, d) == (m == PolygonOpen)
    ensures Difference(m).IsBoundary(ALONG, AGAINST, d) == d
  {
  }

  // A degenerate shell at an edge: only closed polygons contain it, and only an
  // open polygon leaves it when subtracted.
  lemma ShellAtEdge(m: PolygonModel, d: bool)
    ensures Intersection(m).IsBoundary(ALONG, SHELL, d) == Intersection(m).IsBoundary(SHELL, ALONG, d) == (m == PolygonClosed)
    ensures Union(m).IsBoundary(ALONG, SHELL, d) == Union(m).IsBoundary(SHELL, ALONG, d) == d
    ensures Difference(m).IsBoundary(SHELL, ALONG, d) == (m == PolygonOpen)
    ensures Difference(m).IsBoundary(ALONG, SHELL, d) == d
  {
  }

  // A degenerate hole at an edge: a union with an open polygon keeps it.
  lemma HoleAtEdge(m: PolygonModel, d: bool)
    ensures Intersection(m).IsBoundary(ALONG, HOLE, d) == Intersection(m).IsBoundary(HOLE, ALONG, d) == d
    ensures Union(m).IsBoundary(ALONG, HOLE, d) == Union(m).IsBoundary(HOLE, ALONG, d) == (m == PolygonOpen)
    ensures Difference(m).IsBoundary(HOLE, ALONG, d) == !d
  {
  }

  // Pairs of the same kind remain; of different kinds, what the models contain.
  lemma PairsAtEdge(m: PolygonModel, d: bool)
    ensures Intersection(m).IsBoundary(SHELL, SHELL, d) && Intersection(m).IsBoundary(HOLE, HOLE, d)
    ensures Union(m).IsBoundary(SHELL, SHELL, d) && Union(m).IsBoundary(HOLE, HOLE, d)
    ensures Intersection(m).IsBoundary(SHELL, HOLE, d) == (m == PolygonClosed)
    ensures Union(m).IsBoundary(SHELL, HOLE, d) == (m == PolygonOpen)
    ensures Difference(m).IsBoundary(SHELL, HOLE, d) && Difference(m).IsBoundary(HOLE, SHELL, d)
    ensures !Difference(m).IsBoundary(SHELL, SHELL, d) && !Difference(m).IsBoundary(HOLE, HOLE, d)
  {
  }

  // The rule is deviated from where one of two equal degenerate shells is
  // subtracted from the other: what remains depends on which.
  lemma SubtractedShell(d: bool)
    ensures var c := Combination(PolygonOpen, true, false, false);
            && !c.IsBoundary(SHELL, SHELL, d) && c.Deviates(SHELL, SHELL)
            && !Difference(PolygonOpen).IsBoundary(SHELL, SHELL, d) && !Difference(PolygonOpen).Deviates(SHELL, SHELL)
  {
  }

  // A point loop at w is processed before an edge uv that is not on its own side
  // in the table, but has the id of the other region's point loop at w.  Without
  // the loop the edge would be kept.
  lemma LoopSpoilsEdge(u: Point, v: Point, w: Point)
    requires u != v
    ensures var x, y, op := ShapeEdgeId(0, 0), ShapeEdgeId(0, 1), Operation(PolygonSemiOpen, false, false, true);
            var g := Face(op, false, false, true, map[], x, Edge(w, w), NO_CROSSINGS.(a0LoopMatch := Some(y)), []);
            var f := Face(op, false, false, false, g.HolesAfter(), y, Edge(u, v),
                          NO_CROSSINGS.(polygonMatch := Some(x), a0Crossings := 1), []);
            f.Emissions() == [] && CountOut(f.(holes := map[]).Emissions(), Edge(u, v)) == 1
  {
    var x, y, op := ShapeEdgeId(0, 0), ShapeEdgeId(0, 1), Operation(PolygonSemiOpen, false, false, true);
    var g := Face(op, false, false, true, map[], x, Edge(w, w), NO_CROSSINGS.(a0LoopMatch := Some(y)), []);
    var f := Face(op, false, false, false, map[], y, Edge(u, v), NO_CROSSINGS.(polygonMatch := Some(x), a0Crossings := 1), []);
    assert g.HolesAfter() == map[y := false];
    FaceOutputs(f, Edge(u, v));
  }

  // ----- vertices -----

  // Does a region, possibly inverted, contain the vertices of its polygons?
  predicate ContainsVertices(m: PolygonModel, invert: bool)
  {
    m != PolygonSemiOpen && (m == PolygonClosed) != invert
  }

  // A vertex where the polygons of both regions meet becomes a degenerate loop, if
  // no kept edge of region 1 starts there, exactly if both regions contain it.  A
  // point loop of region 0 also remains when region 1, which is open, is
  // subtracted.
  lemma IsolatedVertex(f: Face, c: Combination)
    requires f.op == Operation(c.m, c.invert1, c.invert0, true)
    ensures f.StartIsolated()
            <==> && f.r.a0MatchesPolygon && !f.Kept()
                 && ((ContainsVertices(c.m, c.invert0) && ContainsVertices(c.m, c.invert1))
                     || (f.r.a0LoopMatch.Some? && c.m == PolygonOpen && c.invert1))
  {
    hide Face.Kept;
  }

  // A point loop of region 1 at a vertex of region 0 is kept if region 0 contains
  // the vertex and region 1 does so as well or is open; at a point loop of region
  // 0, also if the table has the same for it.
  lemma LoopAtVertex(f: Face, c: Combination)
    requires f.op == Operation(c.m, c.invert1, c.invert0, true) && f.IsPoint() && (f.r.a0LoopMatch.Some? ==> f.r.a0MatchesPolygon)
    ensures f.Kept()
            <==> || (f.r.a0MatchesPolygon && ContainsVertices(c.m, c.invert0)
                     && (ContainsVertices(c.m, c.invert1) || c.m == PolygonOpen))
                 || (match f.r.a0LoopMatch
                     case Some(id) => f.SemiOpenInside() == Lookup(f.holes, id)
                     case None => (f.r.a0MatchesPolygon ==> c.m == PolygonSemiOpen) && f.SemiOpenInside())
  {
    hide Face.SemiOpenInside;
  }
}
