/**
 GraphEdgeClipper: replays the log on the snapped edges and keeps the parts that
 belong to the result.
 */
module EdgeClipper {
  import opened Common
  import opened Shapes
  import opened EdgeScan
  import opened ClipLog

  datatype GraphEdge = GraphEdge(src: nat, dst: nat)

  function Reverse(e: GraphEdge): GraphEdge
  {
    GraphEdge(e.dst, e.src)
  }

  // An edge of the result with the input edge that it comes from.
  datatype NewEdge = NewEdge(edge: GraphEdge, input: nat)

  // The input of the clipper: the snapped edges with their input edges, an order
  // in which the edges of each input edge form a chain, the log, the dimensions
  // of the input edges, and the choice of the vertex at which crossing number
  // bi of an input edge takes place, or a negative number if none is found.
  datatype Clip = Clip(edges: seq<GraphEdge>, inputIds: seq<nat>, order: seq<nat>, log: Log, dimensions: seq<nat>,
                       crossed: (nat, nat) -> int)
  {
    ghost predicate Valid()
    {
      && |inputIds| == |edges| && (forall i :: 0 <= i < |order| ==> order[i] < |edges|)
      && (forall i, j :: 0 <= i < j < |order| ==> inputIds[order[i]] <= inputIds[order[j]])
      && (forall i :: 0 <= i < |order| ==> inputIds[order[i]] < |dimensions|)
      && NamesInputs(log, |dimensions|)
      && Placed()
    }

    // Crossings are given vertices of the chain.
    ghost predicate Placed()
      requires |inputIds| == |edges| && forall i :: 0 <= i < |order| ==> order[i] < |edges|
    {
      forall i, bi :: 0 <= i < |order| ==> crossed(inputIds[order[i]], bi) < GroupEnd(i, i) - GroupStart(i) + 1
    }

    // Input edge and graph edge number i in the order.
    function A(i: nat): nat
      requires i < |order| && order[i] < |inputIds|
    {
      inputIds[order[i]]
    }

    function E(i: nat): GraphEdge
      requires i < |order| && order[i] < |edges|
    {
      edges[order[i]]
    }

    // The chain that position i belongs to.
    function GroupEnd(i: nat, j: nat): (e: nat)
      requires i <= j <= |order| && i < |order| && forall k :: 0 <= k < |order| ==> order[k] < |inputIds|
      ensures j <= e <= |order|
      ensures forall k :: j <= k < e ==> A(k) == A(i)
      ensures e < |order| ==> A(e) != A(i)
      decreases |order| - j
    {
      if j < |order| && A(j) == A(i) then GroupEnd(i, j + 1) else j
    }

    function GroupStart(i: nat): (s: nat)
      requires i < |order| && forall k :: 0 <= k < |order| ==> order[k] < |inputIds|
      ensures s <= i
      ensures forall k :: s <= k <= i ==> A(k) == A(i)
      ensures s > 0 ==> A(s - 1) != A(i)
    {
      if i > 0 && A(i - 1) == A(i) then GroupStart(i - 1) else i
    }
  }

  // All crossings are named by input ids.
  ghost predicate NamesInputs(log: Log, n: nat)
  {
    forall i :: 0 <= i < |log| ==> !log[i].tag.BySource? && (log[i].tag.ByInput? ==> log[i].tag.input < n)
  }

  // The first position from pos on whose entry is for another edge.
  function LogEnd(log: Log, a: nat, pos: nat): (e: nat)
    requires pos <= |log|
    ensures pos <= e <= |log|
    ensures forall j :: pos <= j < e ==> log[j].edge == a
    ensures e < |log| ==> log[e].edge != a
    decreases |log| - pos
  {
    if pos < |log| && log[pos].edge == a then LogEnd(log, a, pos + 1) else pos
  }

  // ----- one chain with crossings -----

  // How a crossing changes the number of edges: lines do not count.
  function Sign(b: Crosser, invertB: bool, dimensions: seq<nat>): int
  {
    if TagDimension(World([], dimensions), b.tag) == 1 then 0
    else if b.leftToRight == invertB then -1
    else 1
  }

  // The signs of the crossings found before vertex k.
  function SignsBefore(c: Clip, a: nat, b: seq<Crosser>, invertB: bool, k: int): int
  {
    if b == [] then 0
    else
      var bi := |b| - 1;
      SignsBefore(c, a, b[..bi], invertB, k)
      + if 0 <= c.crossed(a, bi) < k then Sign(b[bi], invertB, c.dimensions) else 0
  }

  // The number of copies of the k-th edge of the chain, k = 1, 2, ...
  function Multiplicity(c: Clip, a: nat, b: seq<Crosser>, s: ClipState, k: int): int
  {
    (if s.inside then 1 else 0) + SignsBefore(c, a, b, s.invertB, k)
  }

  function Copies(e: GraphEdge, a: nat, n: nat): (r: seq<NewEdge>)
    ensures |r| == n && forall i :: 0 <= i < n ==> r[i] == NewEdge(e, a)
  {
    seq(n, i => NewEdge(e, a))
  }

  // |m| copies, in the direction given by the sign of m.
  function SignedCopies(e: GraphEdge, a: nat, m: int): seq<NewEdge>
  {
    if m >= 0 then Copies(e, a, m) else Copies(Reverse(e), a, -m)
  }

  function Directed(m: int, reverse: bool): int
  {
    if reverse then -m else m
  }

  // The edges of the first n steps along the chain with vertices v.
  function ChainEdges(c: Clip, a: nat, b: seq<Crosser>, s: ClipState, v: seq<nat>, n: nat): seq<NewEdge>
    requires n < |v|
  {
    if n == 0 then []
    else
      ChainEdges(c, a, b, s, v, n - 1)
      + SignedCopies(GraphEdge(v[n - 1], v[n]), a, Directed(Multiplicity(c, a, b, s, n), s.reverseA))
  }

  // Is there a crossing at vertex k?
  ghost predicate CrossedAt(c: Clip, a: nat, n: nat, k: nat)
  {
    exists bi :: 0 <= bi < n && c.crossed(a, bi) == k
  }

  // A vertex with a crossing but without an edge of the result next to it.
  ghost predicate Isolated(c: Clip, a: nat, b: seq<Crosser>, s: ClipState, v: seq<nat>, k: nat)
  {
    && CrossedAt(c, a, |b|, k)
    && (k > 0 ==> Multiplicity(c, a, b, s, k) == 0)
    && (k + 1 < |v| ==> Multiplicity(c, a, b, s, k + 1) == 0)
  }

  ghost function IsolatedEdges(c: Clip, a: nat, b: seq<Crosser>, s: ClipState, v: seq<nat>, n: nat): seq<NewEdge>
    requires n <= |v|
  {
    if n == 0 then []
    else
      IsolatedEdges(c, a, b, s, v, n - 1)
      + if Isolated(c, a, b, s, v, n - 1) then [NewEdge(GraphEdge(v[n - 1], v[n - 1]), a)] else []
  }

  // Everything that is output for a chain with crossings.
  ghost function CrossedChain(c: Clip, a: nat, b: seq<Crosser>, s: ClipState, v: seq<nat>): seq<NewEdge>
    requires |v| > 0 && a < |c.dimensions|
  {
    ChainEdges(c, a, b, s, v, |v| - 1) + if c.dimensions[a] != 0 then IsolatedEdges(c, a, b, s, v, |v|) else []
  }

  function FinalInside(c: Clip, a: nat, b: seq<Crosser>, s: ClipState, v: seq<nat>): bool
  {
    Multiplicity(c, a, b, s, |v|) != 0
  }

  // ----- the run -----

  // The vertices of the chain from position i up to e.
  function Vertices(c: Clip, i: nat, e: nat): (v: seq<nat>)
    requires i <= e <= |c.order| && i < |c.order| && forall k :: 0 <= k < |c.order| ==> c.order[k] < |c.edges|
    ensures |v| == e - i + 1
  {
    if e == i then [c.E(i).src] else Vertices(c, i, e - 1) + [c.E(e - 1).dst]
  }

  // The loop variables.
  datatype Config = Config(i: nat, pos: nat, s: ClipState)

  ghost predicate InRange(c: Clip, q: Config)
  {
    c.Valid() && q.i < |c.order| && q.pos <= |c.log|
  }

  ghost function EntriesAt(c: Clip, q: Config): Log
    requires InRange(c, q)
  {
    c.log[q.pos..LogEnd(c.log, c.A(q.i), q.pos)]
  }

  // The state and the crossings after reading the entries of the edge.
  ghost function StateRead(c: Clip, q: Config): ClipState
    requires InRange(c, q)
  {
    ApplyAll(q.s, EntriesAt(c, q))
  }

  ghost function CrossersRead(c: Clip, q: Config): seq<Crosser>
    requires InRange(c, q)
  {
    CrossersOf(EntriesAt(c, q))
  }

  predicate Degenerate(e: GraphEdge)
  {
    e.src == e.dst
  }

  // One iteration of the main loop.
  ghost function Next(c: Clip, q: Config): (r: Config)
    requires InRange(c, q)
    ensures q.i < r.i <= |c.order| && r.pos <= |c.log|
  {
    var s, b, pos := StateRead(c, q), CrossersRead(c, q), LogEnd(c.log, c.A(q.i), q.pos);
    if Degenerate(c.E(q.i)) then Config(q.i + 1, pos, s.(inside := s.inside != Odd(|b|)))
    else if b == [] then Config(q.i + 1, pos, s)
    else
      var e := c.GroupEnd(q.i, q.i);
      Config(e, pos, s.(inside := FinalInside(c, c.A(q.i), b, s, Vertices(c, q.i, e))))
  }

  // What is output for an edge away from crossings.
  function PlainEdge(e: GraphEdge, a: nat, s: ClipState): seq<NewEdge>
  {
    if Degenerate(e) then [NewEdge(e, a)]
    else if s.inside then [NewEdge(if s.reverseA then Reverse(e) else e, a)]
    else []
  }

  ghost function Emit(c: Clip, q: Config): seq<NewEdge>
    requires InRange(c, q)
  {
    var s, b := StateRead(c, q), CrossersRead(c, q);
    if Degenerate(c.E(q.i)) || b == [] then PlainEdge(c.E(q.i), c.A(q.i), s)
    else CrossedChain(c, c.A(q.i), b, s, Vertices(c, q.i, c.GroupEnd(q.i, q.i)))
  }

  ghost function RunFrom(c: Clip, q: Config): seq<NewEdge>
    requires c.Valid() && q.i <= |c.order| && q.pos <= |c.log|
    decreases |c.order| - q.i
  {
    if q.i == |c.order| then [] else Emit(c, q) + RunFrom(c, Next(c, q))
  }

  // The loop variables when position "target" is reached.
  ghost function ConfigAt(c: Clip, q: Config, target: nat): (r: Config)
    requires c.Valid() && q.i <= target <= |c.order| && q.pos <= |c.log|
    ensures r.pos <= |c.log|
    decreases |c.order| - q.i
  {
    if q.i == target then q
    else
      var r := Next(c, q);
      if r.i <= target then ConfigAt(c, r, target) else r
  }

  // ----- the code of a chain with crossings -----

  lemma {:induction false} NoSignsBeforeStart(c: Clip, a: nat, b: seq<Crosser>, invertB: bool)
    ensures SignsBefore(c, a, b, invertB, 0) == 0
  {
    if b != [] {
      NoSignsBeforeStart(c, a, b[..|b| - 1], invertB);
    }
  }

  lemma SignsStep(c: Clip, a: nat, b: seq<Crosser>, invertB: bool, bi: nat, k: int)
    requires bi < |b|
    ensures SignsBefore(c, a, b[..bi + 1], invertB, k)
            == SignsBefore(c, a, b[..bi], invertB, k)
               + if 0 <= c.crossed(a, bi) < k then Sign(b[bi], invertB, c.dimensions) else 0
  {
    assert b[..bi + 1][..bi] == b[..bi];
  }

  // The signed crossings at each vertex, and which vertices have any.
  method CountCrossings(c: Clip, a: nat, b: seq<Crosser>, invertB: bool, n: nat)
    returns (num: seq<int>, isolated: seq<bool>)
    requires forall bi :: c.crossed(a, bi) < n
    ensures |num| == |isolated| == n
    ensures forall k :: 0 <= k < n ==> num[k] == SignsBefore(c, a, b, invertB, k + 1) - SignsBefore(c, a, b, invertB, k)
    ensures forall k :: 0 <= k < n ==> isolated[k] == CrossedAt(c, a, |b|, k)
  {
    hide SignsBefore, Sign, CrossedAt;
    num, isolated := seq(n, _ => 0), seq(n, _ => false);
    NoCrossers(c, a, b[..0], invertB, n);
    for bi := 0 to |b|
      invariant |num| == |isolated| == n
      invariant forall k :: 0 <= k < n ==>
                              num[k] == SignsBefore(c, a, b[..bi], invertB, k + 1) - SignsBefore(c, a, b[..bi], invertB, k)
      invariant forall k :: 0 <= k < n ==> isolated[k] == CrossedAt(c, a, bi, k)
    {
      ghost var num0, isolated0 := num, isolated;
      var index := c.crossed(a, bi);
      if index >= 0 {
        num := num[index := num[index] + Sign(b[bi], invertB, c.dimensions)];
        isolated := isolated[index := true];
      }
      forall k | 0 <= k < n
        ensures num[k] == SignsBefore(c, a, b[..bi + 1], invertB, k + 1) - SignsBefore(c, a, b[..bi + 1], invertB, k)
        ensures isolated[k] == CrossedAt(c, a, bi + 1, k)
      {
        assert num0[k] == SignsBefore(c, a, b[..bi], invertB, k + 1) - SignsBefore(c, a, b[..bi], invertB, k);
        assert isolated0[k] == CrossedAt(c, a, bi, k);
        SignsStep(c, a, b, invertB, bi, k);
        SignsStep(c, a, b, invertB, bi, k + 1);
        CrossedStep(c, a, bi, k);
      }
    }
    assert b[..|b|] == b;
  }

  lemma CrossedStep(c: Clip, a: nat, n: nat, k: nat)
    ensures CrossedAt(c, a, n + 1, k) == (CrossedAt(c, a, n, k) || c.crossed(a, n) == k)
  {
  }

  lemma NoCrossers(c: Clip, a: nat, b: seq<Crosser>, invertB: bool, n: nat)
    requires b == []
    ensures forall k :: SignsBefore(c, a, b, invertB, k) == 0
    ensures forall k :: 0 <= k < n ==> !CrossedAt(c, a, 0, k)
  {
  }

  method EmitCopies(out: seq<NewEdge>, e: GraphEdge, a: nat, edgeCount: int) returns (r: seq<NewEdge>)
    ensures r == out + SignedCopies(e, a, edgeCount)
  {
    r := out;
    if edgeCount > 0 {
      for i := 0 to edgeCount
        invariant r == out + Copies(e, a, i)
      {
        r := r + [NewEdge(e, a)];
      }
    }
    var i := edgeCount;
    if i < 0 {
      while i < 0
        invariant edgeCount <= i <= 0
        invariant r == out + Copies(Reverse(e), a, i - edgeCount)
      {
        r := r + [NewEdge(Reverse(e), a)];
        i := i + 1;
      }
    }
  }

  // Links up the crossings along the chain with vertices v.
  method ClipChain(c: Clip, a: nat, b: seq<Crosser>, s: ClipState, v: seq<nat>) returns (out: seq<NewEdge>, inside: bool)
    requires |v| > 0 && a < |c.dimensions| && forall bi :: c.crossed(a, bi) < |v|
    ensures out == CrossedChain(c, a, b, s, v) && inside == FinalInside(c, a, b, s, v)
  {
    hide SignsBefore, SignedCopies, CrossedAt;
    var num, isolated := CountCrossings(c, a, b, s.invertB, |v|);
    NoSignsBeforeStart(c, a, b, s.invertB);
    var multiplicity := (if s.inside then 1 else 0) + num[0];
    out := [];
    var ai := 1;
    while ai < |v|
      invariant 1 <= ai <= |v| && |isolated| == |v|
      invariant multiplicity == Multiplicity(c, a, b, s, ai)
      invariant out == ChainEdges(c, a, b, s, v, ai - 1)
      invariant forall k :: 0 <= k < ai - 1 ==> isolated[k] == Isolated(c, a, b, s, v, k)
      invariant isolated[ai - 1]
             == (CrossedAt(c, a, |b|, ai - 1) && (ai > 1 ==> Multiplicity(c, a, b, s, ai - 1) == 0))
      invariant forall k :: ai <= k < |v| ==> isolated[k] == CrossedAt(c, a, |b|, k)
    {
      if multiplicity != 0 {
        isolated := isolated[ai - 1 := false][ai := false];
      }
      var edgeCount := if s.reverseA then -multiplicity else multiplicity;
      out := EmitCopies(out, GraphEdge(v[ai - 1], v[ai]), a, edgeCount);
      multiplicity := multiplicity + num[ai];
      ai := ai + 1;
    }
    inside := multiplicity != 0;
    assert forall k :: 0 <= k < |v| ==> isolated[k] == Isolated(c, a, b, s, v, k);
    if c.dimensions[a] != 0 {
      ghost var chain := out;
      AppendNothing(chain);
      for k := 0 to |v|
        invariant out == chain + IsolatedEdges(c, a, b, s, v, k)
      {
        if isolated[k] {
          AppendAssoc(chain, IsolatedEdges(c, a, b, s, v, k), [NewEdge(GraphEdge(v[k], v[k]), a)]);
          out := out + [NewEdge(GraphEdge(v[k], v[k]), a)];
        } else {
          AppendNothing(IsolatedEdges(c, a, b, s, v, k));
        }
      }
    } else {
      AppendNothing(out);
    }
  }

  // ----- the code of the run -----

  lemma ReadOne(s: ClipState, read: Log, e: Entry)
    ensures ApplyAll(s, read + [e]) == if IsCrossing(e) then ApplyAll(s, read) else Apply(ApplyAll(s, read), e)
    ensures CrossersOf(read + [e])
            == if IsCrossing(e) then CrossersOf(read) + [Crosser(e.tag, e.flag)] else CrossersOf(read)
  {
    ApplyAppend(s, read, [e]);
    OneEntry(ApplyAll(s, read), e);
  }

  // Reads the log entries of an edge.
  method ReadEntries(c: Clip, q: Config) returns (s: ClipState, b: seq<Crosser>, next: nat)
    requires InRange(c, q)
    ensures s == StateRead(c, q) && b == CrossersRead(c, q) && next == LogEnd(c.log, c.A(q.i), q.pos)
  {
    hide ApplyAll, CrossersOf;
    s, b, next := q.s, [], q.pos;
    var a := c.A(q.i);
    NothingRead(q.s);
    assert c.log[q.pos..next] == [];
    while next < |c.log| && c.log[next].edge == a
      invariant q.pos <= next <= |c.log| && LogEnd(c.log, a, next) == LogEnd(c.log, a, q.pos)
      invariant s == ApplyAll(q.s, c.log[q.pos..next]) && b == CrossersOf(c.log[q.pos..next])
    {
      var e := c.log[next];
      assert c.log[q.pos..next + 1] == c.log[q.pos..next] + [e];
      ReadOne(q.s, c.log[q.pos..next], e);
      if IsCrossing(e) {
        b := b + [Crosser(e.tag, e.flag)];
      } else {
        s := Apply(s, e);
      }
      next := next + 1;
    }
  }

  method Run(c: Clip) returns (newEdges: seq<NewEdge>)
    requires c.Valid()
    ensures newEdges == RunFrom(c, Config(0, 0, INITIAL))
  {
    hide RunFrom, CrossedChain, FinalInside, ApplyAll, CrossersOf, NamesInputs;
    newEdges := [];
    var i: nat, next: nat, s := 0, 0, INITIAL;
    ghost var q := Config(0, 0, INITIAL);
    ghost var all := RunFrom(c, q);
    assert [] + all == all;
    while i < |c.order|
      invariant i <= |c.order| && next <= |c.log| && q == Config(i, next, s)
      invariant newEdges + RunFrom(c, q) == all
      invariant NothingLeft(c, q)
    {
      RunStep(c, q);
      NextLeavesNothing(c, q);
      var a, edge0 := c.A(i), c.E(i);
      var b;
      s, b, next := ReadEntries(c, Config(i, next, s));
      var out: seq<NewEdge>;
      if edge0.src == edge0.dst {
        out := [NewEdge(edge0, a)];
        s := s.(inside := s.inside != Odd(|b|));
        i := i + 1;
      } else if b == [] {
        out := if s.inside then [NewEdge(if s.reverseA then Reverse(edge0) else edge0, a)] else [];
        i := i + 1;
      } else {
        var v := [edge0.src];
        ghost var start := i;
        while i < |c.order| && c.A(i) == a
          invariant start <= i <= |c.order| && c.GroupEnd(start, i) == c.GroupEnd(start, start)
          invariant v == Vertices(c, start, i)
        {
          v := v + [c.E(i).dst];
          i := i + 1;
        }
        assert forall bi :: c.crossed(a, bi) < |v|;
        var inside;
        out, inside := ClipChain(c, a, b, s, v);
        s := s.(inside := inside);
      }
      AppendAssoc(newEdges, out, RunFrom(c, Next(c, q)));
      newEdges := newEdges + out;
      q := Next(c, q);
    }
    RunEnd(c, q);
    AppendNothing(newEdges);
  }

  // Within a chain there are no entries left for it.
  ghost predicate NothingLeft(c: Clip, q: Config)
    requires c.Valid() && q.pos <= |c.log|
  {
    0 < q.i < |c.order| && c.A(q.i - 1) == c.A(q.i) ==> q.pos == |c.log| || c.log[q.pos].edge != c.A(q.i)
  }

  lemma NextLeavesNothing(c: Clip, q: Config)
    requires InRange(c, q) && NothingLeft(c, q)
    ensures NothingLeft(c, Next(c, q))
    ensures CrossersRead(c, q) != [] ==> c.GroupStart(q.i) == q.i
  {
    hide CrossedChain, FinalInside;
  }

  lemma RunStep(c: Clip, q: Config)
    requires InRange(c, q)
    ensures RunFrom(c, q) == Emit(c, q) + RunFrom(c, Next(c, q))
  {
  }

  lemma RunEnd(c: Clip, q: Config)
    requires c.Valid() && q.i == |c.order| && q.pos <= |c.log|
    ensures RunFrom(c, q) == []
  {
  }
}
