/**
 Shapes, the ids of their edges, and the crossings between two indexes.
 */
module Shapes {
  import opened Common

  datatype Point = Point(x: real, y: real, z: real)

  datatype Edge = Edge(v0: Point, v1: Point)

  datatype Chain = Chain(start: nat, length: nat)

  // ----- edge ids -----

  predicate AtMost(x: ShapeEdgeId, y: ShapeEdgeId)
  {
    !Before(y, x)
  }

  function MinId(x: ShapeEdgeId, y: ShapeEdgeId): ShapeEdgeId
  {
    if Before(y, x) then y else x
  }

  const MAX_ID: nat := 0x7fff_ffff

  // Marks the end of a vector.
  const SENTINEL := ShapeEdgeId(MAX_ID, 0)

  // ----- shapes -----

  predicate InChain(chain: Chain, e: int)
  {
    chain.start <= e < chain.start + chain.length
  }

  function ChainEnd(chains: seq<Chain>, c: nat): nat
    requires c < |chains|
  {
    chains[c].start + chains[c].length
  }

  // The chains cover the edges from 0 on without gaps.
  ghost predicate Contiguous(chains: seq<Chain>)
  {
    && (chains != [] ==> chains[0].start == 0)
    && forall c :: 0 <= c < |chains| - 1 ==> chains[c + 1].start == ChainEnd(chains, c)
  }

  lemma {:induction false} ChainsInOrder(chains: seq<Chain>, c: nat, d: nat)
    requires Contiguous(chains) && c < d < |chains|
    ensures ChainEnd(chains, c) <= chains[d].start
  {
    if c < d - 1 {
      ChainsInOrder(chains, c, d - 1);
    }
    assert chains[d - 1 + 1].start == ChainEnd(chains, d - 1);
  }

  function FindChain(chains: seq<Chain>, e: nat, n: nat): (c: nat)
    requires Contiguous(chains) && 0 < n <= |chains| && e < ChainEnd(chains, n - 1)
    ensures c < n && InChain(chains[c], e)
  {
    if e >= chains[n - 1].start then n - 1
    else
      assert n > 1 ==> chains[n - 2 + 1].start == ChainEnd(chains, n - 2);
      FindChain(chains, e, n - 1)
  }

  datatype Shape = Shape(dimension: nat, edges: seq<Edge>, chains: seq<Chain>) {
    ghost predicate Valid()
    {
      && dimension <= 2 && Contiguous(chains)
      && |edges| == if chains == [] then 0 else ChainEnd(chains, |chains| - 1)
    }

    // chain_position(e).chain_id
    function ChainOf(e: nat): (c: nat)
      requires Valid() && e < |edges|
      ensures c < |chains| && InChain(chains[c], e)
    {
      FindChain(chains, e, |chains|)
    }
  }

  // The chain that holds an edge is the only one.
  lemma ChainOfIs(s: Shape, e: nat, c: nat)
    requires s.Valid() && c < |s.chains| && InChain(s.chains[c], e)
    ensures e < |s.edges| && s.ChainOf(e) == c
  {
    ChainFits(s, c);
    var d := s.ChainOf(e);
    if d < c {
      ChainsInOrder(s.chains, d, c);
    } else if c < d {
      ChainsInOrder(s.chains, c, d);
    }
  }

  lemma ChainFits(s: Shape, c: nat)
    requires s.Valid() && c < |s.chains|
    ensures ChainEnd(s.chains, c) <= |s.edges|
  {
    if c < |s.chains| - 1 {
      ChainsInOrder(s.chains, c, |s.chains| - 1);
    }
  }

  // Vertices of consecutive edges of a chain agree.
  ghost predicate Connected(s: Shape)
  {
    forall c, e :: 0 <= c < |s.chains| && 0 <= e < |s.edges| - 1 && InChain(s.chains[c], e) && InChain(s.chains[c], e + 1)
      ==> s.edges[e].v1 == s.edges[e + 1].v0
  }

  type Index = seq<Shape>

  predicate HasEdge(index: Index, id: ShapeEdgeId)
  {
    id.shape < |index| && id.edge < |index[id.shape].edges|
  }

  ghost predicate ValidIndex(index: Index)
  {
    |index| < MAX_ID && forall s :: 0 <= s < |index| ==> index[s].Valid()
  }

  lemma NotSentinel(index: Index, id: ShapeEdgeId)
    requires ValidIndex(index) && HasEdge(index, id)
    ensures id != SENTINEL
  {
  }

  // ----- crossings -----

  datatype IndexCrossing = IndexCrossing(a: ShapeEdgeId, b: ShapeEdgeId, isInterior: bool, leftToRight: bool,
                                         isVertexCrossing: bool)

  // The crossings in order, with a sentinel at the end.
  ghost predicate ValidCrossings(crossings: seq<IndexCrossing>, bIndex: Index)
  {
    && 0 < |crossings| && crossings[|crossings| - 1].a == SENTINEL
    && (forall k :: 0 <= k < |crossings| - 1 ==> crossings[k].a != SENTINEL && HasEdge(bIndex, crossings[k].b))
  }

  // The first position from k on that belongs to another edge than "id".
  function SegmentEnd(crossings: seq<IndexCrossing>, id: ShapeEdgeId, k: nat): (e: nat)
    requires k <= |crossings|
    ensures k <= e <= |crossings|
    ensures forall j :: k <= j < e ==> crossings[j].a == id
    ensures e < |crossings| ==> crossings[e].a != id
    decreases |crossings| - k
  {
    if k < |crossings| && crossings[k].a == id then SegmentEnd(crossings, id, k + 1) else k
  }
}
