/**
 What the clipper outputs for a chain whose polygon crossings alternate between
 entering and leaving: exactly the steps that lie inside.
 */
module Alternation {
  import opened Common
  import opened Shapes
  import opened EdgeScan
  import opened ClipLog
  import opened EdgeClipper
  import opened Replay

  // ----- crossings along a chain -----

  predicate IsPolygon(c: Clip, x: Crosser)
  {
    TagDimension(World([], c.dimensions), x.tag) != 1
  }

  // Does the chain enter the other region, or its complement, at this crossing?
  predicate Enters(x: Crosser, s: ClipState)
  {
    x.leftToRight != s.invertB
  }

  predicate Counts(c: Clip, a: nat, b: seq<Crosser>, bi: nat)
    requires bi < |b|
  {
    IsPolygon(c, b[bi]) && c.crossed(a, bi) >= 0
  }

  // "order" lists each polygon crossing that has been given a vertex once.
  ghost predicate Lists(c: Clip, a: nat, b: seq<Crosser>, order: seq<nat>)
  {
    && (forall i :: 0 <= i < |order| ==> order[i] < |b| && Counts(c, a, b, order[i]))
    && (forall i, j :: 0 <= i < j < |order| ==> order[i] != order[j])
    && (forall bi :: 0 <= bi < |b| && Counts(c, a, b, bi) ==> bi in order)
  }

  // In the order of the chain the crossings alternate, and the first one enters
  // exactly if the chain starts outside.
  ghost predicate Alternates(c: Clip, a: nat, b: seq<Crosser>, s: ClipState, order: seq<nat>)
  {
    && Lists(c, a, b, order)
    && (forall i, j :: 0 <= i <= j < |order| ==> c.crossed(a, order[i]) <= c.crossed(a, order[j]))
    && forall i :: 0 <= i < |order| ==> Enters(b[order[i]], s) == (s.inside == Odd(i))
  }

  // How many of the crossings lie before vertex k.
  function Passed(c: Clip, a: nat, order: seq<nat>, k: int): nat
  {
    if order == [] then 0
    else Passed(c, a, order[..|order| - 1], k) + if c.crossed(a, order[|order| - 1]) < k then 1 else 0
  }

  // Does the step to vertex k lie inside?  Every crossing passed changes sides.
  predicate StepIsInside(c: Clip, a: nat, s: ClipState, order: seq<nat>, k: int)
  {
    s.inside != Odd(Passed(c, a, order, k))
  }

  // The steps inside, once each, forwards unless edges are reversed.
  function StepsInside(c: Clip, a: nat, s: ClipState, order: seq<nat>, v: seq<nat>, n: nat): seq<NewEdge>
    requires n < |v|
  {
    if n == 0 then []
    else
      StepsInside(c, a, s, order, v, n - 1)
      + if !StepIsInside(c, a, s, order, n) then []
        else [NewEdge(if s.reverseA then GraphEdge(v[n], v[n - 1]) else GraphEdge(v[n - 1], v[n]), a)]
  }

  // ----- sums in the order of the chain -----

  function SumOver(c: Clip, a: nat, b: seq<Crosser>, invertB: bool, order: seq<nat>, k: int): int
    requires forall i :: 0 <= i < |order| ==> order[i] < |b|
  {
    if order == [] then 0
    else
      var n := |order| - 1;
      SumOver(c, a, b, invertB, order[..n], k)
      + if c.crossed(a, order[n]) < k then Sign(b[order[n]], invertB, c.dimensions) else 0
  }

  lemma {:induction false} SumAppend(c: Clip, a: nat, b: seq<Crosser>, invertB: bool, x: seq<nat>, y: seq<nat>, k: int)
    requires forall i :: 0 <= i < |x| ==> x[i] < |b|
    requires forall i :: 0 <= i < |y| ==> y[i] < |b|
    ensures SumOver(c, a, b, invertB, x + y, k) == SumOver(c, a, b, invertB, x, k) + SumOver(c, a, b, invertB, y, k)
  {
    hide Sign;
    if y == [] {
      AppendNothing(x);
    } else {
      var n := |y| - 1;
      SumAppend(c, a, b, invertB, x, y[..n], k);
      assert (x + y)[..|x + y| - 1] == x + y[..n];
    }
  }

  lemma {:induction false} SumOfFewer(c: Clip, a: nat, b: seq<Crosser>, n: nat, invertB: bool, order: seq<nat>, k: int)
    requires n <= |b| && forall i :: 0 <= i < |order| ==> order[i] < n
    ensures SumOver(c, a, b, invertB, order, k) == SumOver(c, a, b[..n], invertB, order, k)
  {
    hide Sign;
    if order != [] {
      SumOfFewer(c, a, b, n, invertB, order[..|order| - 1], k);
    }
  }

  // Taking out one element.
  lemma SumWithout(c: Clip, a: nat, b: seq<Crosser>, invertB: bool, order: seq<nat>, j: nat, k: int)
    requires j < |order| && forall i :: 0 <= i < |order| ==> order[i] < |b|
    ensures SumOver(c, a, b, invertB, order, k)
            == SumOver(c, a, b, invertB, order[..j] + order[j + 1..], k)
               + if c.crossed(a, order[j]) < k then Sign(b[order[j]], invertB, c.dimensions) else 0
  {
    hide Sign;
    var x, y, z := order[..j], [order[j]], order[j + 1..];
    assert order == (x + y) + z;
    SumAppend(c, a, b, invertB, x + y, z, k);
    SumAppend(c, a, b, invertB, x, y, k);
    SumAppend(c, a, b, invertB, x, z, k);
    assert y[..0] == [];
  }

  lemma ListWithout(c: Clip, a: nat, b: seq<Crosser>, order: seq<nat>, j: nat)
    requires Lists(c, a, b, order) && j < |order| && order[j] == |b| - 1
    ensures Lists(c, a, b[..|b| - 1], order[..j] + order[j + 1..])
  {
    hide IsPolygon;
    var rest := order[..j] + order[j + 1..];
    forall bi | 0 <= bi < |b| - 1 && Counts(c, a, b[..|b| - 1], bi)
      ensures bi in rest
    {
      assert Counts(c, a, b, bi);
      var i :| 0 <= i < |order| && order[i] == bi;
      assert rest[if i < j then i else i - 1] == bi;
    }
    forall i | 0 <= i < |rest|
      ensures rest[i] < |b| - 1 && Counts(c, a, b[..|b| - 1], rest[i])
    {
      assert rest[i] == order[if i < j then i else i + 1];
    }
  }

  lemma ListStays(c: Clip, a: nat, b: seq<Crosser>, order: seq<nat>)
    requires b != [] && Lists(c, a, b, order) && |b| - 1 !in order
    ensures Lists(c, a, b[..|b| - 1], order) && !Counts(c, a, b, |b| - 1)
  {
    hide IsPolygon;
    forall bi | 0 <= bi < |b| - 1 && Counts(c, a, b[..|b| - 1], bi)
      ensures bi in order
    {
      assert Counts(c, a, b, bi);
    }
    forall i | 0 <= i < |order|
      ensures order[i] < |b| - 1
    {
      assert order[i] in order;
    }
  }

  // The clipper adds up signs in the order of the log; the order of the chain
  // gives the same.
  lemma {:induction false} SignsInOrder(c: Clip, a: nat, b: seq<Crosser>, invertB: bool, order: seq<nat>, k: int)
    requires Lists(c, a, b, order)
    ensures SignsBefore(c, a, b, invertB, k) == SumOver(c, a, b, invertB, order, k)
  {
    hide Lists;
    if b == [] {
      NothingListed(c, a, order);
    } else {
      var n := |b| - 1;
      if n in order {
        var j :| 0 <= j < |order| && order[j] == n;
        ListWithout(c, a, b, order, j);
        SignsInOrder(c, a, b[..n], invertB, order[..j] + order[j + 1..], k);
        ListedIndices(c, a, b, order);
        ListedIndices(c, a, b[..n], order[..j] + order[j + 1..]);
        SumOfFewer(c, a, b, n, invertB, order[..j] + order[j + 1..], k);
        SumWithout(c, a, b, invertB, order, j, k);
      } else {
        ListStays(c, a, b, order);
        SignsInOrder(c, a, b[..n], invertB, order, k);
        ListedIndices(c, a, b[..n], order);
        SumOfFewer(c, a, b, n, invertB, order, k);
      }
    }
  }

  lemma NothingListed(c: Clip, a: nat, order: seq<nat>)
    requires Lists(c, a, [], order)
    ensures order == []
  {
    hide Counts;
    if order != [] {
      SomeElement(order);
      assert false;
    }
  }

  lemma SomeElement(order: seq<nat>)
    requires order != []
    ensures exists i :: 0 <= i < |order| && order[i] >= 0
  {
    assert order[0] >= 0;
  }

  lemma ListedIndices(c: Clip, a: nat, b: seq<Crosser>, order: seq<nat>)
    requires Lists(c, a, b, order)
    ensures forall i :: 0 <= i < |order| ==> order[i] < |b| && Counts(c, a, b, order[i])
  {
  }

  // ----- alternating sums -----

  // Up to the last crossing before vertex k, or after all of them.
  lemma {:induction false} AlternatingSum(c: Clip, a: nat, b: seq<Crosser>, s: ClipState, order: seq<nat>, k: int)
    requires forall i :: 0 <= i < |order| ==> order[i] < |b| && Counts(c, a, b, order[i])
    requires forall i, j :: 0 <= i <= j < |order| ==> c.crossed(a, order[i]) <= c.crossed(a, order[j])
    requires forall i :: 0 <= i < |order| ==> Enters(b[order[i]], s) == (s.inside == Odd(i))
    ensures (if s.inside then 1 else 0) + SumOver(c, a, b, s.invertB, order, k)
            == if StepIsInside(c, a, s, order, k) then 1 else 0
    ensures order != [] && c.crossed(a, order[|order| - 1]) < k ==> Passed(c, a, order, k) == |order|
  {
    if order != [] {
      var n := |order| - 1;
      AlternatingSum(c, a, b, s, order[..n], k);
      if c.crossed(a, order[n]) < k {
        if n > 0 {
          assert c.crossed(a, order[n - 1]) <= c.crossed(a, order[n]);
        }
        assert Passed(c, a, order[..n], k) == n;
      }
    }
  }

  // So the clipper's number of copies is one inside and zero outside.
  lemma MultiplicityIsInside(c: Clip, a: nat, b: seq<Crosser>, s: ClipState, order: seq<nat>, k: int)
    requires Alternates(c, a, b, s, order)
    ensures Multiplicity(c, a, b, s, k) == if StepIsInside(c, a, s, order, k) then 1 else 0
  {
    hide Sign, IsPolygon, StepIsInside;
    SignsInOrder(c, a, b, s.invertB, order, k);
    AlternatingSum(c, a, b, s, order, k);
  }

  // Each step inside is output exactly once, and no other.
  lemma {:induction false} InsideIsOutput(c: Clip, a: nat, b: seq<Crosser>, s: ClipState, order: seq<nat>, v: seq<nat>, n: nat)
    requires Alternates(c, a, b, s, order) && n < |v|
    ensures ChainEdges(c, a, b, s, v, n) == StepsInside(c, a, s, order, v, n)
  {
    hide Multiplicity, StepIsInside, Alternates;
    if n > 0 {
      InsideIsOutput(c, a, b, s, order, v, n - 1);
      MultiplicityIsInside(c, a, b, s, order, n);
    }
  }

  // A vertex with a crossing is output on its own if neither step next to it lies
  // inside.
  lemma IsolatedIsOutside(c: Clip, a: nat, b: seq<Crosser>, s: ClipState, order: seq<nat>, v: seq<nat>, k: nat)
    requires Alternates(c, a, b, s, order) && k < |v|
    ensures Isolated(c, a, b, s, v, k)
            <==> && CrossedAt(c, a, |b|, k)
                 && (k > 0 ==> !StepIsInside(c, a, s, order, k))
                 && (k + 1 < |v| ==> !StepIsInside(c, a, s, order, k + 1))
  {
    hide Multiplicity, StepIsInside, Alternates, CrossedAt;
    MultiplicityIsInside(c, a, b, s, order, k);
    MultiplicityIsInside(c, a, b, s, order, k + 1);
  }

  // A chain with crossings comes out as the steps inside, followed by isolated
  // vertices; and the state afterwards is that past all crossings.
  lemma ChainIsClipped(c: Clip, i: nat, s: ClipState, b: seq<Crosser>, order: seq<nat>)
    requires c.Valid() && i < |c.order| && !Degenerate(c.E(i)) && b != []
    requires Alternates(c, c.A(i), b, s, order)
    ensures var v := Vertices(c, i, c.GroupEnd(i, i));
            && |v| > 0
            && GroupOutput(c, i, s, b)
               == StepsInside(c, c.A(i), s, order, v, |v| - 1)
                  + (if c.dimensions[c.A(i)] != 0 then IsolatedEdges(c, c.A(i), b, s, v, |v|) else [])
            && GroupAfter(c, i, s, b) == s.(inside := StepIsInside(c, c.A(i), s, order, |v|))
  {
    hide Clip.Placed, NamesInputs, Vertices, Multiplicity, StepIsInside, Alternates, IsolatedEdges, ChainEdges, StepsInside;
    var v := Vertices(c, i, c.GroupEnd(i, i));
    InsideIsOutput(c, c.A(i), b, s, order, v, |v| - 1);
    MultiplicityIsInside(c, c.A(i), b, s, order, |v|);
  }
}
