/**
 GetInputEdgeChainOrder: puts the snapped edges of each input edge into the order
 in which they form a chain.
 */
module ChainOrder {
  import opened Common
  import opened EdgeClipper

  datatype Graph = Graph(edges: seq<GraphEdge>, inputIds: seq<nat>, numVertices: nat) {
    ghost predicate Valid()
    {
      && |inputIds| == |edges|
      && forall e :: 0 <= e < |edges| ==> edges[e].src < numVertices && edges[e].dst < numVertices
    }
  }

  ghost predicate AreEdges(g: Graph, s: seq<nat>)
  {
    |g.inputIds| == |g.edges| && forall i :: 0 <= i < |s| ==> s[i] < |g.edges|
  }

  // Each edge starts where the one before it ends.
  ghost predicate HeadToTail(g: Graph, p: seq<nat>)
    requires AreEdges(g, p)
  {
    forall i :: 0 <= i < |p| - 1 ==> g.edges[p[i]].dst == g.edges[p[i + 1]].src
  }

  // A directed path without repeated vertices.
  ghost predicate SimplePath(g: Graph, p: seq<nat>)
  {
    && p != [] && AreEdges(g, p) && HeadToTail(g, p)
    && (forall i, j :: 0 <= i < j < |p| ==> g.edges[p[i]].src != g.edges[p[j]].src)
    && forall i :: 0 <= i < |p| ==> g.edges[p[i]].src != g.edges[p[|p| - 1]].dst
  }

  ghost predicate FormsPath(g: Graph, group: seq<nat>)
  {
    exists p: seq<nat> :: multiset(p) == multiset(group) && SimplePath(g, p)
  }

  // The edges from a to b are all those of one input edge.
  ghost predicate IsGroup(g: Graph, s: seq<nat>, a: nat, b: nat)
    requires AreEdges(g, s)
  {
    && a < b <= |s|
    && (forall i :: a <= i < b ==> g.inputIds[s[i]] == g.inputIds[s[a]])
    && (a > 0 ==> g.inputIds[s[a - 1]] != g.inputIds[s[a]])
    && (b < |s| ==> g.inputIds[s[b]] != g.inputIds[s[a]])
  }

  // Sources with their edges.
  datatype Pair = Pair(vertex: nat, edge: nat)

  predicate PairBefore(x: Pair, y: Pair)
  {
    x.vertex < y.vertex || (x.vertex == y.vertex && x.edge < y.edge)
  }

  // lower_bound for (v, 0) in the sorted pairs: the least pair that is not before.
  method LowerBound(vmap: seq<Pair>, v: nat) returns (r: Pair)
    requires exists i :: 0 <= i < |vmap| && vmap[i].vertex >= v
    ensures r in vmap && r.vertex >= v
    ensures forall x :: x in vmap && x.vertex >= v ==> !PairBefore(x, r)
  {
    ghost var w :| 0 <= w < |vmap| && vmap[w].vertex >= v;
    var found := false;
    r := Pair(0, 0);
    for i := 0 to |vmap|
      invariant found ==> r in vmap[..i] && r.vertex >= v
      invariant found ==> forall x :: x in vmap[..i] && x.vertex >= v ==> !PairBefore(x, r)
      invariant !found ==> forall x :: x in vmap[..i] ==> x.vertex < v
    {
      if vmap[i].vertex >= v && (!found || PairBefore(vmap[i], r)) {
        r, found := vmap[i], true;
      }
    }
    assert vmap[..|vmap|] == vmap && vmap[w] in vmap;
  }

  // ----- facts about a group that is a path -----

  lemma InGroup(p: seq<nat>, group: seq<nat>, i: nat)
    requires multiset(p) == multiset(group) && i < |p|
    ensures p[i] in group
  {
    assert p[i] in multiset(p);
  }

  lemma InPath(p: seq<nat>, group: seq<nat>, e: nat)
    requires multiset(p) == multiset(group) && e in group
    ensures exists i :: 0 <= i < |p| && p[i] == e
  {
    assert e in multiset(group);
  }

  // Only the first edge of a path starts where no other ends.
  lemma FirstEdge(g: Graph, p: seq<nat>, group: seq<nat>, e: nat)
    requires multiset(p) == multiset(group) && SimplePath(g, p) && AreEdges(g, group) && e in group
    ensures (forall j :: 0 <= j < |group| ==> g.edges[group[j]].dst != g.edges[e].src) <==> e == p[0]
  {
    InPath(p, group, e);
    var i :| 0 <= i < |p| && p[i] == e;
    if i > 0 {
      InGroup(p, group, i - 1);
      assert g.edges[p[i - 1]].dst == g.edges[p[i - 1 + 1]].src;
    } else {
      forall j | 0 <= j < |group|
        ensures g.edges[group[j]].dst != g.edges[e].src
      {
        InPath(p, group, group[j]);
        var k :| 0 <= k < |p| && p[k] == group[j];
        if k + 1 < |p| {
          assert g.edges[p[k]].dst == g.edges[p[k + 1]].src;
        }
      }
    }
  }

  // The edge that starts at the end of edge k of the path.
  lemma NextEdge(g: Graph, p: seq<nat>, group: seq<nat>, vmap: seq<Pair>, k: nat)
    requires multiset(p) == multiset(group) && SimplePath(g, p) && AreEdges(g, group) && k + 1 < |p|
    requires Sources(g, group, vmap)
    ensures var v := g.edges[p[k]].dst;
            && (exists i :: 0 <= i < |vmap| && vmap[i].vertex >= v)
            && forall r :: r in vmap && r.vertex >= v && (forall x :: x in vmap && x.vertex >= v ==> !PairBefore(x, r)) ==>
                             r == Pair(v, p[k + 1])
  {
    var v, e := g.edges[p[k]].dst, p[k + 1];
    InGroup(p, group, k + 1);
    var j :| 0 <= j < |group| && group[j] == e;
    assert vmap[j] == Pair(v, e);
    forall r | r in vmap && r.vertex >= v && forall x :: x in vmap && x.vertex >= v ==> !PairBefore(x, r)
      ensures r == Pair(v, e)
    {
      assert !PairBefore(Pair(v, e), r);
      var i :| 0 <= i < |vmap| && vmap[i] == r;
      InPath(p, group, group[i]);
    }
  }

  ghost predicate Sources(g: Graph, group: seq<nat>, vmap: seq<Pair>)
    requires AreEdges(g, group)
  {
    |vmap| == |group| && forall i :: 0 <= i < |group| ==> vmap[i] == Pair(g.edges[group[i]].src, group[i])
  }

  // ----- one group -----

  // Which vertices some edge of the group leads to.
  ghost predicate Reached(g: Graph, s: seq<nat>, x: nat)
    requires AreEdges(g, s)
  {
    exists j :: 0 <= j < |s| && g.edges[s[j]].dst == x
  }

  // The sources of the group's edges, and how many edges lead to each vertex.
  method Gather(g: Graph, order: array<nat>, indegree: array<nat>, begin: nat, end: nat, ghost group: seq<nat>)
    returns (vmap: seq<Pair>)
    requires g.Valid() && order != indegree && AreEdges(g, group)
    requires begin < end <= order.Length && indegree.Length == g.numVertices && group == order[begin..end]
    requires forall x :: 0 <= x < indegree.Length ==> indegree[x] == 0
    modifies indegree
    ensures Sources(g, group, vmap)
    ensures forall x :: 0 <= x < indegree.Length ==> (indegree[x] > 0 <==> Reached(g, group, x))
  {
    hide Reached;
    vmap := [];
    ReachedNone(g, indegree.Length);
    for i := begin to end
      invariant order[begin..end] == group
      invariant |vmap| == i - begin && forall j :: 0 <= j < |vmap| ==> vmap[j] == Pair(g.edges[group[j]].src, group[j])
      invariant forall x :: 0 <= x < indegree.Length ==> (indegree[x] > 0 <==> Reached(g, group[..i - begin], x))
    {
      var e := order[i];
      assert e == group[i - begin];
      ghost var seen, more := group[..i - begin], group[..i + 1 - begin];
      assert more == seen + [e];
      forall x | 0 <= x < indegree.Length
        ensures Reached(g, more, x) <==> Reached(g, seen, x) || x == g.edges[e].dst
      {
        ReachedNext(g, seen, e, x);
      }
      vmap := vmap + [Pair(g.edges[e].src, e)];
      indegree[g.edges[e].dst] := indegree[g.edges[e].dst] + 1;
    }
    assert group[..end - begin] == group;
  }

  lemma ReachedNone(g: Graph, n: nat)
    requires g.Valid()
    ensures forall x :: 0 <= x < n ==> !Reached(g, [], x)
  {
  }

  // The starting edge: the one at whose source no edge ends.
  method FindFirst(g: Graph, order: array<nat>, indegree: array<nat>, begin: nat, end: nat, ghost group: seq<nat>,
                   ghost p: seq<nat>) returns (next: nat)
    requires g.Valid() && AreEdges(g, group) && multiset(p) == multiset(group) && SimplePath(g, p)
    requires begin < end <= order.Length && indegree.Length == g.numVertices && group == order[begin..end]
    requires forall x :: 0 <= x < indegree.Length ==> (indegree[x] > 0 <==> Reached(g, group, x))
    ensures next == p[0]
  {
    hide HeadToTail;
    next := |g.edges|;
    for i := begin to end
      invariant next == |g.edges| || next == p[0]
      invariant p[0] in group[..i - begin] ==> next == p[0]
    {
      var e := order[i];
      assert e == group[i - begin];
      FirstEdge(g, p, group, e);
      if indegree[g.edges[e].src] == 0 {
        next := e;
      }
    }
    InGroup(p, group, 0);
    assert group[..end - begin] == group;
  }

  // Writes the path into the order, clearing the degrees on the way.
  method BuildChain(g: Graph, order: array<nat>, indegree: array<nat>, begin: nat, end: nat, vmap: seq<Pair>, first: nat,
                    ghost group: seq<nat>, ghost p: seq<nat>)
    requires g.Valid() && order != indegree && AreEdges(g, group) && Sources(g, group, vmap)
    requires begin < end <= order.Length && indegree.Length == g.numVertices && |p| == end - begin
    requires multiset(p) == multiset(group) && SimplePath(g, p) && first == p[0]
    requires AreEdges(g, p)
    modifies order, indegree
    ensures order[..] == old(order[..begin]) + p + old(order[end..])
    ensures forall x :: 0 <= x < indegree.Length ==> indegree[x] == if Reached(g, p, x) then 0 else old(indegree[x])
  {
    hide SimplePath, Sources, Reached;
    var next := first;
    var i := begin;
    ghost var start, rest := order[..begin], order[end..];
    ReachedNone(g, indegree.Length);
    assert p[..0] == [];
    while true
      invariant begin <= i < end && next == p[i - begin]
      invariant order[..i] == start + p[..i - begin] && order[end..] == rest
      invariant forall x :: 0 <= x < indegree.Length ==>
                              indegree[x] == if Reached(g, p[..i - begin], x) then 0 else old(indegree[x])
      decreases end - i
    {
      ghost var k := i - begin;
      ghost var done := order[..i];
      order[i] := next;
      assert order[..i] == done && order[..i + 1] == done + [next];
      AppendAssoc(start, p[..k], [next]);
      var v := g.edges[next].dst;
      indegree[v] := 0;
      assert p[..k + 1] == p[..k] + [next];
      forall x | 0 <= x < indegree.Length
        ensures Reached(g, p[..k + 1], x) <==> Reached(g, p[..k], x) || x == v
      {
        ReachedNext(g, p[..k], next, x);
      }
      i := i + 1;
      if i == end {
        break;
      }
      NextEdge(g, p, group, vmap, k);
      var out := LowerBound(vmap, v);
      next := out.edge;
    }
    assert p[..end - begin] == p && order[..] == order[..end] + order[end..];
  }

  // Sorts the edges of one input edge; the scratch degrees are zero again
  // afterwards.
  method SortGroup(g: Graph, order: array<nat>, indegree: array<nat>, begin: nat, end: nat, ghost p: seq<nat>)
    requires g.Valid() && order != indegree && AreEdges(g, order[..])
    requires begin < end <= order.Length && indegree.Length == g.numVertices
    requires forall x :: 0 <= x < indegree.Length ==> indegree[x] == 0
    requires multiset(p) == multiset(order[begin..end]) && SimplePath(g, p)
    modifies order, indegree
    ensures order[..] == old(order[..begin]) + p + old(order[end..])
    ensures forall x :: 0 <= x < indegree.Length ==> indegree[x] == 0
  {
    hide Reached, HeadToTail, Sources;
    ghost var group := order[begin..end];
    assert |p| == |group| by {
      assert |multiset(p)| == |multiset(group)|;
    }
    var vmap := Gather(g, order, indegree, begin, end, group);
    var next := FindFirst(g, order, indegree, begin, end, group, p);
    label Gathered:
    BuildChain(g, order, indegree, begin, end, vmap, next, group, p);
    forall x | 0 <= x < indegree.Length
      ensures indegree[x] == 0
    {
      if old@Gathered(indegree[x]) > 0 {
        ReachedOnPath(g, p, group, x);
      }
    }
  }

  lemma ReachedNext(g: Graph, s: seq<nat>, e: nat, x: nat)
    requires AreEdges(g, s) && e < |g.edges|
    ensures AreEdges(g, s + [e]) && (Reached(g, s + [e], x) <==> Reached(g, s, x) || g.edges[e].dst == x)
  {
    assert forall j :: 0 <= j < |s| ==> (s + [e])[j] == s[j];
    assert (s + [e])[|s|] == e;
  }

  lemma ReachedOnPath(g: Graph, p: seq<nat>, group: seq<nat>, x: nat)
    requires multiset(p) == multiset(group) && AreEdges(g, p) && AreEdges(g, group) && Reached(g, group, x)
    ensures Reached(g, p, x)
  {
    var j :| 0 <= j < |group| && g.edges[group[j]].dst == x;
    InPath(p, group, group[j]);
  }

  // ----- all groups -----

  // The order from the input: all edges, those of each input edge together and
  // the input edges ascending.
  ghost predicate IsInputOrder(g: Graph, s: seq<nat>)
  {
    && AreEdges(g, s) && multiset(s) == multiset(seq(|g.edges|, i requires 0 <= i => i as nat))
    && forall i, j :: 0 <= i < j < |s| ==> g.inputIds[s[i]] <= g.inputIds[s[j]]
  }

  // Whatever is a group and has more than one edge forms a path.
  ghost predicate GroupsArePaths(g: Graph, s: seq<nat>)
    requires AreEdges(g, s)
  {
    forall a, b :: 0 <= a < b - 1 < |s| && IsGroup(g, s, a, b) ==> FormsPath(g, s[a..b])
  }

  ghost predicate SameIds(g: Graph, s: seq<nat>, t: seq<nat>)
  {
    && AreEdges(g, s) && AreEdges(g, t) && |s| == |t|
    && forall i :: 0 <= i < |s| ==> g.inputIds[s[i]] == g.inputIds[t[i]]
  }

  // Up to position n, edges of the same input edge join head to tail.
  ghost predicate ChainedUpTo(g: Graph, s: seq<nat>, n: nat)
    requires AreEdges(g, s) && n <= |s|
  {
    forall i :: 0 <= i < n - 1 && g.inputIds[s[i]] == g.inputIds[s[i + 1]] ==> g.edges[s[i]].dst == g.edges[s[i + 1]].src
  }

  // s with the part from a on replaced by p.
  function Spliced(s: seq<nat>, a: nat, p: seq<nat>): (t: seq<nat>)
    requires a + |p| <= |s|
    ensures |t| == |s|
    ensures forall i :: 0 <= i < |s| ==> t[i] == if a <= i < a + |p| then p[i - a] else s[i]
  {
    s[..a] + p + s[a + |p|..]
  }

  lemma SplicedMultiset(s: seq<nat>, a: nat, p: seq<nat>)
    requires a + |p| <= |s| && multiset(p) == multiset(s[a..a + |p|])
    ensures multiset(Spliced(s, a, p)) == multiset(s)
  {
    assert s == s[..a] + s[a..a + |p|] + s[a + |p|..];
  }

  lemma SplicedIds(g: Graph, s0: seq<nat>, s: seq<nat>, a: nat, b: nat, p: seq<nat>)
    requires SameIds(g, s, s0) && a < b <= |s| && s[a..] == s0[a..] && IsGroup(g, s0, a, b)
    requires multiset(p) == multiset(s[a..b]) && |p| == b - a
    ensures SameIds(g, Spliced(s, a, p), s0)
  {
    var group, t := s[a..b], Spliced(s, a, p);
    forall i | 0 <= i < |t|
      ensures t[i] < |g.edges| && g.inputIds[t[i]] == g.inputIds[s0[i]]
    {
      if a <= i < b {
        InGroup(p, group, i - a);
        var j :| 0 <= j < |group| && group[j] == p[i - a];
        assert s[a + j] == s[a..][j] == s0[a..][j] == s0[a + j];
      } else {
        assert s[i] < |g.edges|;
      }
    }
  }

  lemma SplicedChained(g: Graph, s0: seq<nat>, s: seq<nat>, a: nat, p: seq<nat>)
    requires SameIds(g, s, s0) && a + |p| <= |s| && ChainedUpTo(g, s, a) && SimplePath(g, p)
    requires SameIds(g, Spliced(s, a, p), s0) && (a > 0 ==> g.inputIds[s0[a - 1]] != g.inputIds[s0[a]])
    ensures ChainedUpTo(g, Spliced(s, a, p), a + |p|)
  {
    var t := Spliced(s, a, p);
    forall i | 0 <= i < a + |p| - 1 && g.inputIds[t[i]] == g.inputIds[t[i + 1]]
      ensures g.edges[t[i]].dst == g.edges[t[i + 1]].src
    {
      if i >= a {
        assert g.edges[p[i - a]].dst == g.edges[p[i - a + 1]].src;
      }
    }
  }

  // What has been achieved when the groups before "begin" are sorted.
  ghost predicate SortedUpTo(g: Graph, s0: seq<nat>, s: seq<nat>, begin: nat)
  {
    && SameIds(g, s, s0) && multiset(s) == multiset(s0) && begin <= |s| && s[begin..] == s0[begin..]
    && ChainedUpTo(g, s, begin)
    && (0 < begin < |s0| ==> g.inputIds[s0[begin - 1]] != g.inputIds[s0[begin]])
  }

  lemma SameSize(p: seq<nat>, q: seq<nat>)
    requires multiset(p) == multiset(q)
    ensures |p| == |q|
  {
    assert |multiset(p)| == |multiset(q)|;
  }

  // Replacing a group by its path.
  lemma GroupSorted(g: Graph, s0: seq<nat>, s: seq<nat>, a: nat, b: nat, p: seq<nat>)
    requires SortedUpTo(g, s0, s, a) && IsGroup(g, s0, a, b)
    requires multiset(p) == multiset(s[a..b]) && SimplePath(g, p)
    ensures |p| == b - a && SortedUpTo(g, s0, Spliced(s, a, p), b)
  {
    hide SimplePath, ChainedUpTo;
    SameSize(p, s[a..b]);
    SplicedMultiset(s, a, p);
    SplicedIds(g, s0, s, a, b, p);
    SplicedChained(g, s0, s, a, p);
    assert Spliced(s, a, p)[b..] == s[a..][b - a..] == s0[b..];
  }

  // A group of one edge needs no sorting.
  lemma SingleGroup(g: Graph, s0: seq<nat>, s: seq<nat>, a: nat)
    requires SortedUpTo(g, s0, s, a) && a < |s| && IsGroup(g, s0, a, a + 1)
    ensures SortedUpTo(g, s0, s, a + 1)
  {
    assert s[a + 1..] == s[a..][1..] == s0[a + 1..];
  }

  method FindEnd(g: Graph, order: array<nat>, begin: nat, ghost s0: seq<nat>) returns (end: nat)
    requires g.Valid() && AreEdges(g, s0) && begin < order.Length == |s0| && order[begin..] == s0[begin..]
    requires begin > 0 ==> g.inputIds[s0[begin - 1]] != g.inputIds[s0[begin]]
    ensures IsGroup(g, s0, begin, end) && begin < end <= order.Length
  {
    var inputId := g.inputIds[order[begin]];
    end := begin;
    while end < order.Length
      invariant begin <= end <= order.Length && forall i :: begin <= i < end ==> g.inputIds[s0[i]] == inputId
      decreases order.Length - end
    {
      assert order[begin..][end - begin] == s0[begin..][end - begin];
      if g.inputIds[order[end]] != inputId {
        break;
      }
      end := end + 1;
    }
  }

  // "inputOrder" is what Graph::GetInputEdgeOrder returns.
  method GetInputEdgeChainOrder(g: Graph, inputOrder: seq<nat>) returns (result: seq<nat>)
    requires g.Valid() && IsInputOrder(g, inputOrder) && GroupsArePaths(g, inputOrder)
    ensures IsInputOrder(g, result) && ChainedUpTo(g, result, |result|)
  {
    hide GroupsArePaths, ChainedUpTo, SortedUpTo;
    var order := new nat[|inputOrder|](i requires 0 <= i < |inputOrder| => inputOrder[i]);
    var indegree := new nat[g.numVertices](_ => 0);
    assert order[..] == inputOrder;
    var begin := 0;
    StartSorted(g, inputOrder);
    while begin < order.Length
      invariant begin <= order.Length && indegree.Length == g.numVertices && order.Length == |inputOrder|
      invariant SortedUpTo(g, inputOrder, order[..], begin)
      invariant forall x :: 0 <= x < indegree.Length ==> indegree[x] == 0
    {
      begin := SortNext(g, inputOrder, order, indegree, begin);
    }
    result := order[..];
    OrderKept(g, inputOrder, result);
  }

  method SortNext(g: Graph, inputOrder: seq<nat>, order: array<nat>, indegree: array<nat>, begin: nat) returns (end: nat)
    requires g.Valid() && AreEdges(g, inputOrder) && GroupsArePaths(g, inputOrder) && order != indegree
    requires begin < order.Length == |inputOrder| && indegree.Length == g.numVertices
    requires SortedUpTo(g, inputOrder, order[..], begin)
    requires forall x :: 0 <= x < indegree.Length ==> indegree[x] == 0
    modifies order, indegree
    ensures begin < end <= order.Length && SortedUpTo(g, inputOrder, order[..], end)
    ensures forall x :: 0 <= x < indegree.Length ==> indegree[x] == 0
  {
    hide *;
    ghost var s := order[..];
    Remaining(g, inputOrder, order[..], begin);
    assert s[begin..] == order[begin..];
    end := FindEnd(g, order, begin, inputOrder);
    if end - begin == 1 {
      SingleGroup(g, inputOrder, s, begin);
    } else {
      ghost var p := GroupAt(g, inputOrder, s, begin, end);
      assert s[begin..end] == order[begin..end] && s[..begin] == order[..begin] && s[end..] == order[end..];
      SortGroup(g, order, indegree, begin, end, p);
    }
  }

  lemma Remaining(g: Graph, s0: seq<nat>, s: seq<nat>, begin: nat)
    requires SortedUpTo(g, s0, s, begin)
    ensures begin <= |s| == |s0| && s[begin..] == s0[begin..] && AreEdges(g, s)
    ensures 0 < begin < |s0| && AreEdges(g, s0) ==> g.inputIds[s0[begin - 1]] != g.inputIds[s0[begin]]
  {
  }

  lemma GroupAt(g: Graph, s0: seq<nat>, s: seq<nat>, a: nat, b: nat) returns (p: seq<nat>)
    requires AreEdges(g, s0) && GroupsArePaths(g, s0) && SortedUpTo(g, s0, s, a)
    requires a + 1 < b <= |s| && IsGroup(g, s0, a, b)
    ensures multiset(p) == multiset(s[a..b]) && SimplePath(g, p) && |p| == b - a && AreEdges(g, s)
    ensures SortedUpTo(g, s0, s[..a] + p + s[b..], b)
  {
    hide GroupsArePaths, ChainedUpTo, SimplePath;
    assert s0[a..b] == s0[a..][..b - a] == s[a..][..b - a] == s[a..b];
    p := PathOf(g, s0, a, b);
    GroupSorted(g, s0, s, a, b, p);
  }

  lemma StartSorted(g: Graph, s: seq<nat>)
    requires AreEdges(g, s)
    ensures SortedUpTo(g, s, s, 0)
  {
  }

  lemma PathOf(g: Graph, s: seq<nat>, a: nat, b: nat) returns (p: seq<nat>)
    requires AreEdges(g, s) && GroupsArePaths(g, s) && a + 1 < b <= |s| && IsGroup(g, s, a, b)
    ensures multiset(p) == multiset(s[a..b]) && SimplePath(g, p)
  {
    assert FormsPath(g, s[a..b]);
    p :| multiset(p) == multiset(s[a..b]) && SimplePath(g, p);
  }

  lemma OrderKept(g: Graph, s: seq<nat>, t: seq<nat>)
    requires IsInputOrder(g, s) && SortedUpTo(g, s, t, |s|)
    ensures IsInputOrder(g, t) && ChainedUpTo(g, t, |t|)
  {
  }
}
