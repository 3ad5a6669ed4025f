/**
 The clipper replays the processor: what GraphEdgeClipper.Run does with each
 input edge is determined by the state in which CrossingProcessor emitted it.
 */
module Replay {
  import opened Common
  import opened Shapes
  import opened EdgeScan
  import opened ClipLog
  import opened Outputs
  import opened EdgeClipper

  // ----- the setting -----

  // The log and the graph belong to the edges h, and every one of them has been
  // snapped to some edge of the graph.
  ghost predicate Fits(c: Clip, h: seq<Emission>, regions: seq<Index>)
  {
    && c.Valid() && |c.dimensions| == |h|
    && (exists current :: Represents(c.log, h, current))
    && Consistent(h, World(regions, c.dimensions)) && AllByInput(h)
    && forall k :: 0 <= k < |h| ==> IsSnapped(c, k)
  }

  ghost predicate IsSnapped(c: Clip, k: nat)
    requires c.Valid()
  {
    exists i :: 0 <= i < |c.order| && c.A(i) == k
  }

  // What the processor leaves behind fits any graph made from its edges.
  lemma OutputFits(c: Clip, o: Output, regions: seq<Index>, h: seq<Emission>, state: ClipState)
    requires Good(o, regions, h, state) && AllByInput(h) && o.sourceEdgeCrossings == []
    requires c.Valid() && c.log == o.inputCrossings && c.dimensions == o.inputDimensions
    requires forall k :: 0 <= k < |h| ==> IsSnapped(c, k)
    ensures Fits(c, h, regions)
  {
    hide Represents;
    assert |o.inputDimensions| == |h|;
    AppendNothing(o.inputCrossings);
    assert Represents(c.log, h, o.Current(state));
  }

  // The first position of an input edge from k on, in the order and in the log.
  function StartOf(c: Clip, k: nat, i: nat): (r: nat)
    requires i <= |c.order| && forall j :: 0 <= j < |c.order| ==> c.order[j] < |c.inputIds|
    ensures i <= r <= |c.order|
    ensures forall j :: i <= j < r ==> c.A(j) < k
    ensures r < |c.order| ==> c.A(r) >= k
    decreases |c.order| - i
  {
    if i < |c.order| && c.A(i) < k then StartOf(c, k, i + 1) else i
  }

  function LogStart(log: Log, k: nat, pos: nat): (r: nat)
    requires pos <= |log|
    ensures pos <= r <= |log|
    ensures forall j :: pos <= j < r ==> log[j].edge < k
    ensures r < |log| ==> log[r].edge >= k
    decreases |log| - pos
  {
    if pos < |log| && log[pos].edge < k then LogStart(log, k, pos + 1) else pos
  }

  lemma LogStartNext(log: Log, k: nat)
    requires Sorted(log)
    ensures LogEnd(log, k, LogStart(log, k, 0)) == LogStart(log, k + 1, 0)
  {
    var e := LogEnd(log, k, LogStart(log, k, 0));
    var n := LogStart(log, k + 1, 0);
    assert n < |log| ==> log[n].edge >= k + 1;
    assert e < |log| && LogStart(log, k, 0) < |log| ==> log[LogStart(log, k, 0)].edge <= log[e].edge;
  }

  // In a sorted log the entries of an edge are contiguous.
  lemma {:induction false} SegmentIsEntries(log: Log, k: nat)
    requires Sorted(log)
    ensures LogStart(log, k, 0) <= LogStart(log, k + 1, 0)
    ensures log[LogStart(log, k, 0)..LogStart(log, k + 1, 0)] == EntriesOf(log, k)
  {
    hide EntriesOf;
    var a, b := LogStart(log, k, 0), LogStart(log, k + 1, 0);
    LogStartNext(log, k);
    AfterStart(log, k + 1);
    CutOut(log, k, a, b);
  }

  lemma CutOut(log: Log, k: nat, a: nat, b: nat)
    requires a <= b <= |log| && forall j :: 0 <= j < |log| ==> (log[j].edge == k <==> a <= j < b)
    ensures EntriesOf(log, k) == log[a..b]
  {
    hide EntriesOf;
    ThreeParts(log, a, b);
    EntriesInMiddle(log[..a], log[a..b], log[b..], k);
  }

  lemma ThreeParts<T>(s: seq<T>, a: nat, b: nat)
    requires a <= b <= |s|
    ensures s == s[..a] + (s[a..b] + s[b..])
  {
  }

  lemma AfterStart(log: Log, k: nat)
    requires Sorted(log)
    ensures forall j :: LogStart(log, k, 0) <= j < |log| ==> log[j].edge >= k
  {
  }

  lemma EntriesInMiddle(x: Log, y: Log, z: Log, k: nat)
    requires forall i :: 0 <= i < |x| ==> x[i].edge != k
    requires forall i :: 0 <= i < |y| ==> y[i].edge == k
    requires forall i :: 0 <= i < |z| ==> z[i].edge != k
    ensures EntriesOf(x + (y + z), k) == y
  {
    hide EntriesOf;
    EntriesAppend(x, y + z, k);
    EntriesAppend(y, z, k);
    NoEntriesIn(x, k);
    EntriesForOne(y, k, k);
    NoEntriesIn(z, k);
  }

  lemma {:induction false} NoEntriesIn(log: Log, k: nat)
    requires forall i :: 0 <= i < |log| ==> log[i].edge != k
    ensures EntriesOf(log, k) == []
  {
    if log != [] {
      NoEntriesIn(log[..|log| - 1], k);
    }
  }

  lemma StartsInOrder(c: Clip, h: seq<Emission>, regions: seq<Index>, k: nat)
    requires Fits(c, h, regions) && k < |h|
    ensures var i := StartOf(c, k, 0);
            && i < |c.order| && c.A(i) == k && c.GroupStart(i) == i && c.GroupEnd(i, i) == StartOf(c, k + 1, 0)
    ensures StartOf(c, 0, 0) == 0 && StartOf(c, |h|, 0) == |c.order|
  {
    hide Represents, Consistent, AllByInput, NamesInputs, Clip.Placed;
    assert IsSnapped(c, k);
    var j :| 0 <= j < |c.order| && c.A(j) == k;
    var i := StartOf(c, k, 0);
    assert i <= j && c.A(i) <= c.A(j);
    var e, n := c.GroupEnd(i, i), StartOf(c, k + 1, 0);
    assert n < |c.order| ==> c.A(n) >= k + 1;
    assert e < |c.order| ==> c.A(i) <= c.A(e);
    assert n >= e;
  }

  // ----- one input edge -----

  // The clipper's state after an input edge, and its output for the edge.
  ghost function GroupAfter(c: Clip, i: nat, s: ClipState, b: seq<Crosser>): ClipState
    requires c.Valid() && i < |c.order|
  {
    if Degenerate(c.E(i)) then s.(inside := s.inside != Odd(|b|))
    else if b == [] then s
    else s.(inside := FinalInside(c, c.A(i), b, s, Vertices(c, i, c.GroupEnd(i, i))))
  }

  function PlainEdges(c: Clip, i: nat, e: nat, s: ClipState): seq<NewEdge>
    requires i <= e <= |c.order| && |c.inputIds| == |c.edges| && forall k :: 0 <= k < |c.order| ==> c.order[k] < |c.edges|
    decreases e - i
  {
    if i == e then [] else PlainEdge(c.E(i), c.A(i), s) + PlainEdges(c, i + 1, e, s)
  }

  ghost function GroupOutput(c: Clip, i: nat, s: ClipState, b: seq<Crosser>): seq<NewEdge>
    requires c.Valid() && i < |c.order|
  {
    var e := c.GroupEnd(i, i);
    if Degenerate(c.E(i)) || b == [] then PlainEdge(c.E(i), c.A(i), s) + PlainEdges(c, i + 1, e, GroupAfter(c, i, s, b))
    else CrossedChain(c, c.A(i), b, s, Vertices(c, i, e))
  }

  // Once its entries are used up, the rest of a chain passes unchanged.
  lemma {:induction false} RestOfChain(c: Clip, q: Config, e: nat)
    requires c.Valid() && q.i <= e <= |c.order| && q.pos <= |c.log|
    requires forall j :: q.i <= j < e ==> q.pos == |c.log| || c.log[q.pos].edge != c.A(j)
    ensures ConfigAt(c, q, e) == Config(e, q.pos, q.s)
    ensures RunFrom(c, q) == PlainEdges(c, q.i, e, q.s) + RunFrom(c, Config(e, q.pos, q.s))
    decreases e - q.i
  {
    hide CrossedChain, FinalInside, Next, Emit;
    if q.i < e {
      NothingToRead(c, q);
      RestOfChain(c, Config(q.i + 1, q.pos, q.s), e);
      AppendAssoc(Emit(c, q), PlainEdges(c, q.i + 1, e, q.s), RunFrom(c, Config(e, q.pos, q.s)));
    }
  }

  lemma NothingToRead(c: Clip, q: Config)
    requires InRange(c, q) && (q.pos == |c.log| || c.log[q.pos].edge != c.A(q.i))
    ensures Next(c, q) == Config(q.i + 1, q.pos, q.s)
    ensures Emit(c, q) == PlainEdge(c.E(q.i), c.A(q.i), q.s)
  {
    hide CrossedChain, FinalInside;
    assert EntriesAt(c, q) == [];
    NothingRead(q.s);
  }

  lemma FirstOfGroup(c: Clip, q: Config)
    requires InRange(c, q)
    ensures var e, pos, s, b := c.GroupEnd(q.i, q.i), LogEnd(c.log, c.A(q.i), q.pos), StateRead(c, q), CrossersRead(c, q);
            if Degenerate(c.E(q.i)) || b == [] then
              Next(c, q) == Config(q.i + 1, pos, GroupAfter(c, q.i, s, b)) && Emit(c, q) == PlainEdge(c.E(q.i), c.A(q.i), s)
            else
              && Next(c, q) == Config(e, pos, GroupAfter(c, q.i, s, b))
              && Emit(c, q) == CrossedChain(c, c.A(q.i), b, s, Vertices(c, q.i, e))
  {
    hide CrossedChain, FinalInside, PlainEdge, StateRead, CrossersRead, Clip.Placed, NamesInputs, Odd, Vertices;
  }

  // Run deals with an input edge as a whole.
  lemma GroupRuns(c: Clip, q: Config)
    requires InRange(c, q)
    ensures var e, pos := c.GroupEnd(q.i, q.i), LogEnd(c.log, c.A(q.i), q.pos);
            var r := Config(e, pos, GroupAfter(c, q.i, StateRead(c, q), CrossersRead(c, q)));
            && q.i < e
            && ConfigAt(c, q, e) == r
            && RunFrom(c, q) == GroupOutput(c, q.i, StateRead(c, q), CrossersRead(c, q)) + RunFrom(c, r)
  {
    hide CrossedChain, FinalInside, PlainEdge, StateRead, CrossersRead, Clip.Placed, NamesInputs, Odd, Vertices, Emit, Next,
         GroupAfter;
    FirstOfGroup(c, q);
    var e := c.GroupEnd(q.i, q.i);
    var s, b := StateRead(c, q), CrossersRead(c, q);
    RunStep(c, q);
    if Degenerate(c.E(q.i)) || b == [] {
      var n := Next(c, q);
      RestOfChain(c, n, e);
      AppendAssoc(Emit(c, q), PlainEdges(c, n.i, e, n.s), RunFrom(c, Config(e, n.pos, n.s)));
    }
  }

  // ----- parities -----

  // Parity of the crossings with lines.
  function LineParity(b: seq<Crosser>, dimensions: seq<nat>): bool
  {
    if b == [] then false
    else
      LineParity(b[..|b| - 1], dimensions) != (TagDimension(World([], dimensions), b[|b| - 1].tag) == 1)
  }

  ghost predicate OnlyInputs(b: seq<Crosser>)
  {
    forall i :: 0 <= i < |b| ==> b[i].tag.ByInput?
  }

  lemma {:induction false} CountParity(b: seq<Crosser>, regions: seq<Index>, dimensions: seq<nat>)
    requires OnlyInputs(b)
    ensures Odd(|b|) == (PolygonParity(b, World(regions, dimensions)) != LineParity(b, dimensions))
  {
    if b != [] {
      CountParity(b[..|b| - 1], regions, dimensions);
    }
  }

  // Every crossing of an input edge has been given a vertex of the chain.
  ghost predicate AllFound(c: Clip, a: nat, b: seq<Crosser>, n: nat)
  {
    forall bi :: 0 <= bi < |b| ==> 0 <= c.crossed(a, bi) < n
  }

  // The signs add up to the number of polygon crossings, modulo 2.
  lemma {:induction false} SignsParity(c: Clip, a: nat, b: seq<Crosser>, invertB: bool, n: nat, regions: seq<Index>)
    requires AllFound(c, a, b, n) && OnlyInputs(b)
    ensures Odd(SignsBefore(c, a, b, invertB, n)) == PolygonParity(b, World(regions, c.dimensions))
  {
    if b != [] {
      SignsParity(c, a, b[..|b| - 1], invertB, n, regions);
    }
  }

  // The sum of all signs does not depend on the choice of vertices.
  lemma {:induction false} ChoiceIrrelevant(c: Clip, d: Clip, a: nat, b: seq<Crosser>, invertB: bool, n: nat)
    requires c.dimensions == d.dimensions && AllFound(c, a, b, n) && AllFound(d, a, b, n)
    ensures SignsBefore(c, a, b, invertB, n) == SignsBefore(d, a, b, invertB, n)
  {
    if b != [] {
      ChoiceIrrelevant(c, d, a, b[..|b| - 1], invertB, n);
    }
  }

  // Does the clipper follow the processor along this input edge?  A degenerate
  // snapped edge must carry an even number of line crossings, and the number of
  // edges at the end of any other chain must be 0 or odd.
  ghost predicate Follows(c: Clip, i: nat, s: ClipState, b: seq<Crosser>)
    requires c.Valid() && i < |c.order|
  {
    if Degenerate(c.E(i)) then !LineParity(b, c.dimensions)
    else b == [] || FinalMultiplicity(c, i, s, b) == 0 || Odd(FinalMultiplicity(c, i, s, b))
  }

  function FinalMultiplicity(c: Clip, i: nat, s: ClipState, b: seq<Crosser>): int
    requires i < |c.order| && |c.inputIds| == |c.edges| && forall k :: 0 <= k < |c.order| ==> c.order[k] < |c.edges|
  {
    Multiplicity(c, c.A(i), b, s, c.GroupEnd(i, i) - i + 1)
  }

  lemma GroupFollows(c: Clip, i: nat, s: ClipState, b: seq<Crosser>, regions: seq<Index>)
    requires c.Valid() && i < |c.order| && OnlyInputs(b)
    requires AllFound(c, c.A(i), b, c.GroupEnd(i, i) - i + 1)
    ensures GroupAfter(c, i, s, b) == s.(inside := s.inside != PolygonParity(b, World(regions, c.dimensions)))
            <==> Follows(c, i, s, b)
    ensures FinalMultiplicity(c, i, s, b) == 0 || FinalMultiplicity(c, i, s, b) == 1 || Degenerate(c.E(i)) ==>
              (Follows(c, i, s, b) <==> !(Degenerate(c.E(i)) && LineParity(b, c.dimensions)))
  {
    hide GroupAfter, SignsBefore, Vertices, PolygonParity, LineParity, Odd, Multiplicity, FinalMultiplicity, AllFound;
    var p, n := PolygonParity(b, World(regions, c.dimensions)), c.GroupEnd(i, i) - i + 1;
    MultiplicityIs(c, i, s, b);
    GroupAfterIs(c, i, s, b);
    NonZeroOrOdd(s.inside, SignsBefore(c, c.A(i), b, s.invertB, n));
    if Degenerate(c.E(i)) {
      CountParity(b, regions, c.dimensions);
    } else {
      SignsParity(c, c.A(i), b, s.invertB, n, regions);
      NoParity(World(regions, c.dimensions));
    }
  }

  lemma GroupAfterIs(c: Clip, i: nat, s: ClipState, b: seq<Crosser>)
    requires c.Valid() && i < |c.order|
    ensures GroupAfter(c, i, s, b)
            == s.(inside := if Degenerate(c.E(i)) then s.inside != Odd(|b|)
                            else if b == [] then s.inside
                            else FinalInside(c, c.A(i), b, s, Vertices(c, i, c.GroupEnd(i, i))))
  {
    hide FinalInside, Vertices, Odd;
  }

  lemma MultiplicityIs(c: Clip, i: nat, s: ClipState, b: seq<Crosser>)
    requires c.Valid() && i < |c.order|
    ensures var e := c.GroupEnd(i, i);
            && FinalMultiplicity(c, i, s, b)
               == (if s.inside then 1 else 0) + SignsBefore(c, c.A(i), b, s.invertB, e - i + 1)
            && FinalInside(c, c.A(i), b, s, Vertices(c, i, e)) == (FinalMultiplicity(c, i, s, b) != 0)
  {
    hide SignsBefore;
  }

  lemma NonZeroOrOdd(inside: bool, signs: int)
    ensures var m := (if inside then 1 else 0) + signs;
            && Odd(m) == (inside != Odd(signs))
            && ((m != 0) == (inside != Odd(signs)) <==> m == 0 || Odd(m))
            && (m == 1 ==> Odd(m))
  {
  }

  lemma NoParity(w: World)
    ensures !PolygonParity([], w)
  {
  }

  // ----- all input edges -----

  ghost predicate FollowsAt(c: Clip, h: seq<Emission>, regions: seq<Index>, k: nat)
    requires Fits(c, h, regions) && k < |h|
  {
    StartsInOrder(c, h, regions, k);
    Follows(c, StartOf(c, k, 0), h[k].state, h[k].crossers)
  }

  ghost predicate FoundAt(c: Clip, h: seq<Emission>, regions: seq<Index>, k: nat)
    requires Fits(c, h, regions) && k < |h|
  {
    StartsInOrder(c, h, regions, k);
    var i := StartOf(c, k, 0);
    AllFound(c, k, h[k].crossers, c.GroupEnd(i, i) - i + 1)
  }

  // The loop variables when input edge k is reached, before its entries are
  // read, if the clipper is where the processor was.
  function InStep(c: Clip, h: seq<Emission>, k: nat): Config
    requires k <= |h| && forall j :: 0 <= j < |c.order| ==> c.order[j] < |c.inputIds|
  {
    Config(StartOf(c, k, 0), LogStart(c.log, k, 0), StateAt(h, k))
  }

  // One input edge, from the right state: the entries lead to the state in which
  // the processor emitted the edge, and afterwards the clipper is in step if
  // and only if it follows the processor along the edge.
  lemma EdgeReplays(c: Clip, h: seq<Emission>, regions: seq<Index>, k: nat)
    requires Fits(c, h, regions) && k < |h| && FoundAt(c, h, regions, k)
    ensures InRange(c, InStep(c, h, k))
    ensures StateRead(c, InStep(c, h, k)) == h[k].state && CrossersRead(c, InStep(c, h, k)) == h[k].crossers
    ensures var r := ConfigAt(c, InStep(c, h, k), StartOf(c, k + 1, 0));
            && r.i == StartOf(c, k + 1, 0) && r.pos == LogStart(c.log, k + 1, 0)
            && (r == InStep(c, h, k + 1) <==> FollowsAt(c, h, regions, k))
            && RunFrom(c, InStep(c, h, k))
               == GroupOutput(c, StartOf(c, k, 0), h[k].state, h[k].crossers) + RunFrom(c, r)
  {
    hide RunFrom, ConfigAt, GroupOutput, GroupAfter, Follows, Consistent, EntriesOf, PolygonParity;
    StartsInOrder(c, h, regions, k);
    var q := InStep(c, h, k);
    var current :| Represents(c.log, h, current);
    SegmentIsEntries(c.log, k);
    LogStartNext(c.log, k);
    assert ReadsAs(c.log, h, k);
    assert EntriesAt(c, q) == EntriesOf(c.log, k);
    GroupRuns(c, q);
    assert OnlyInputs(h[k].crossers);
    GroupFollows(c, q.i, h[k].state, h[k].crossers, regions);
    ConsistentAt(h, World(regions, c.dimensions), k);
  }

  lemma ConsistentAt(h: seq<Emission>, w: World, k: nat)
    requires Consistent(h, w) && k < |h|
    ensures StateAt(h, k + 1) == h[k].state.(inside := h[k].state.inside != PolygonParity(h[k].crossers, w))
  {
  }

  // Reaching a later position goes through an earlier one that is reached.
  lemma {:induction false} ConfigThrough(c: Clip, q: Config, t1: nat, t2: nat)
    requires c.Valid() && q.i <= t1 <= t2 <= |c.order| && q.pos <= |c.log|
    requires ConfigAt(c, q, t1).i == t1
    ensures ConfigAt(c, q, t2) == ConfigAt(c, ConfigAt(c, q, t1), t2)
    decreases |c.order| - q.i
  {
    hide Next;
    if q.i < t1 {
      ConfigThrough(c, Next(c, q), t1, t2);
    }
  }

  // What the processor's edges come to when each is clipped in the state in
  // which it was emitted.
  ghost function Clipped(c: Clip, h: seq<Emission>, regions: seq<Index>, k: nat): seq<NewEdge>
    requires Fits(c, h, regions) && k <= |h|
    decreases |h| - k
  {
    if k == |h| then []
    else
      StartsInOrder(c, h, regions, k);
      GroupOutput(c, StartOf(c, k, 0), h[k].state, h[k].crossers) + Clipped(c, h, regions, k + 1)
  }

  ghost predicate Start(q: Config)
  {
    q == Config(0, 0, INITIAL)
  }

  // The clipper is in step with the processor at every input edge, if and only if
  // it follows it along every input edge.
  lemma ClipperReplaysProcessor(c: Clip, h: seq<Emission>, regions: seq<Index>)
    requires Fits(c, h, regions) && forall k :: 0 <= k < |h| ==> FoundAt(c, h, regions, k)
    ensures (forall k :: 0 <= k <= |h| ==> InStepAt(c, h, k)) <==> forall k :: 0 <= k < |h| ==> FollowsAt(c, h, regions, k)
  {
    hide ConfigAt, FollowsAt, FoundAt, InStepAt, Represents, Consistent;
    if forall k :: 0 <= k < |h| ==> FollowsAt(c, h, regions, k) {
      forall k | 0 <= k <= |h|
        ensures InStepAt(c, h, k)
      {
        StaysInStep(c, h, regions, k);
      }
    }
    if forall k :: 0 <= k <= |h| ==> InStepAt(c, h, k) {
      forall k | 0 <= k < |h|
        ensures FollowsAt(c, h, regions, k)
      {
        assert InStepAt(c, h, k) && InStepAt(c, h, k + 1);
        StepFollows(c, h, regions, k);
      }
    }
  }

  // Run reaches input edge k with the processor's state.
  ghost predicate InStepAt(c: Clip, h: seq<Emission>, k: nat)
    requires k <= |h| && c.Valid()
  {
    ConfigAt(c, Config(0, 0, INITIAL), StartOf(c, k, 0)) == InStep(c, h, k)
  }

  lemma StepFollows(c: Clip, h: seq<Emission>, regions: seq<Index>, k: nat)
    requires Fits(c, h, regions) && k < |h| && FoundAt(c, h, regions, k) && InStepAt(c, h, k)
    ensures InStepAt(c, h, k + 1) <==> FollowsAt(c, h, regions, k)
  {
    hide ConfigAt, RunFrom, GroupOutput, FollowsAt, FoundAt, Represents, Consistent;
    StartsInOrder(c, h, regions, k);
    EdgeReplays(c, h, regions, k);
    ConfigThrough(c, Config(0, 0, INITIAL), StartOf(c, k, 0), StartOf(c, k + 1, 0));
  }

  lemma {:induction false} StaysInStep(c: Clip, h: seq<Emission>, regions: seq<Index>, k: nat)
    requires Fits(c, h, regions) && k <= |h|
    requires forall j :: 0 <= j < k ==> FoundAt(c, h, regions, j) && FollowsAt(c, h, regions, j)
    ensures InStepAt(c, h, k)
  {
    hide FollowsAt, FoundAt, Represents, Consistent;
    if k == 0 {
      StartOfNothing(c);
    } else {
      StaysInStep(c, h, regions, k - 1);
      StepFollows(c, h, regions, k - 1);
    }
  }

  lemma StartOfNothing(c: Clip)
    requires c.Valid()
    ensures StartOf(c, 0, 0) == 0 && LogStart(c.log, 0, 0) == 0
  {
  }

  // So the result is every emitted edge clipped as the processor meant it.
  lemma {:induction false} OutputFromStep(c: Clip, h: seq<Emission>, regions: seq<Index>, k: nat)
    requires Fits(c, h, regions) && k <= |h|
    requires forall j :: 0 <= j < |h| ==> FoundAt(c, h, regions, j) && FollowsAt(c, h, regions, j)
    ensures RunFrom(c, InStep(c, h, k)) == Clipped(c, h, regions, k)
    decreases |h| - k
  {
    hide FollowsAt, FoundAt, Represents, Consistent, GroupOutput, ConfigAt, Clipped, RunFrom, InStep;
    ClippedStep(c, h, regions, k);
    if k == |h| {
      StartOfAll(c, h, regions, InStep(c, h, k));
    } else {
      EdgeReplays(c, h, regions, k);
      OutputFromStep(c, h, regions, k + 1);
    }
  }

  lemma ClippedStep(c: Clip, h: seq<Emission>, regions: seq<Index>, k: nat)
    requires Fits(c, h, regions) && k <= |h|
    ensures k == |h| ==> Clipped(c, h, regions, k) == []
    ensures k < |h| ==>
              && StartOf(c, k, 0) < |c.order|
              && Clipped(c, h, regions, k)
                 == GroupOutput(c, StartOf(c, k, 0), h[k].state, h[k].crossers) + Clipped(c, h, regions, k + 1)
  {
    hide GroupOutput, Represents, Consistent;
    if k < |h| {
      StartsInOrder(c, h, regions, k);
    }
  }

  lemma StartOfAll(c: Clip, h: seq<Emission>, regions: seq<Index>, q: Config)
    requires Fits(c, h, regions) && q == InStep(c, h, |h|)
    ensures q.i == |c.order| && RunFrom(c, q) == []
  {
    hide Represents, Consistent;
    StartsInOrder0(c, h, regions);
  }

  lemma StartsInOrder0(c: Clip, h: seq<Emission>, regions: seq<Index>)
    requires Fits(c, h, regions)
    ensures StartOf(c, |h|, 0) == |c.order|
  {
    hide Represents, Consistent;
  }

  lemma RunClipsAsMeant(c: Clip, h: seq<Emission>, regions: seq<Index>)
    requires Fits(c, h, regions)
    requires forall k :: 0 <= k < |h| ==> FoundAt(c, h, regions, k) && FollowsAt(c, h, regions, k)
    ensures RunFrom(c, Config(0, 0, INITIAL)) == Clipped(c, h, regions, 0)
  {
    hide FollowsAt, FoundAt, Represents, Consistent, RunFrom, Clipped;
    StartOfNothing(c);
    OutputFromStep(c, h, regions, 0);
  }

  // Wherever the crossings are placed, the state after an input edge is the same.
  lemma StateIgnoresChoice(c: Clip, d: Clip, i: nat, s: ClipState, b: seq<Crosser>)
    requires c.Valid() && d.Valid() && d == c.(crossed := d.crossed) && i < |c.order|
    requires AllFound(c, c.A(i), b, c.GroupEnd(i, i) - i + 1) && AllFound(d, d.A(i), b, d.GroupEnd(i, i) - i + 1)
    ensures GroupAfter(c, i, s, b) == GroupAfter(d, i, s, b)
  {
    hide Clip.Placed, SignsBefore, GroupAfter, FinalInside, FinalMultiplicity, Vertices, Odd, Clip.GroupEnd, AllFound,
         NamesInputs;
    EndIgnoresChoice(c, d, i, i);
    SamePosition(c, d, i);
    ChoiceIrrelevant(c, d, c.A(i), b, s.invertB, c.GroupEnd(i, i) - i + 1);
    MultiplicityIs(c, i, s, b);
    MultiplicityIs(d, i, s, b);
    GroupAfterIs(c, i, s, b);
    GroupAfterIs(d, i, s, b);
  }

  lemma SamePosition(c: Clip, d: Clip, i: nat)
    requires c.Valid() && d == c.(crossed := d.crossed) && i < |c.order|
    ensures d.A(i) == c.A(i) && d.E(i) == c.E(i)
  {
  }

  lemma {:induction false} EndIgnoresChoice(c: Clip, d: Clip, i: nat, j: nat)
    requires c.Valid() && d.Valid() && d == c.(crossed := d.crossed) && i <= j <= |c.order| && i < |c.order|
    ensures c.GroupEnd(i, j) == d.GroupEnd(i, j)
    decreases |c.order| - j
  {
    if j < |c.order| && c.A(j) == c.A(i) {
      EndIgnoresChoice(c, d, i, j + 1);
    }
  }

  // ----- where the clipper loses step -----

  // Two regions that are lines, which cross.
  function TwoLines(e: Edge, f: Edge): seq<Index>
  {
    [[Shape(1, [e], [Chain(0, 1)])], [Shape(1, [f], [Chain(0, 1)])]]
  }

  // The source of either line.
  function Line(region: nat): Tag
  {
    BySource(region, ShapeEdgeId(0, 0))
  }

  // What the processor writes in one pass: the markers of StartBoundary and the
  // line.
  function WriteLine(o: Output, e: Edge, region: nat, other: nat, flag: bool): Output
  {
    o.SetState(SetReverseA, false).SetState(SetInvertB, false)
    .AddEdge(Line(region), e, 1, INITIAL, 2, [Crosser(Line(other), flag)])
  }

  // And for the intersection of both.
  function Crossing(e: Edge, f: Edge): Output
  {
    WriteLine(WriteLine(Output([], [], [], [], map[], false), e, 0, 1, true), f, 1, 0, false)
  }

  function Lines(e: Edge, f: Edge): seq<Emission>
  {
    [Emission(e, 1, INITIAL, [Crosser(ByInput(1), true)], false), Emission(f, 1, INITIAL, [Crosser(ByInput(0), false)], false)]
  }

  // The first line is snapped to a point.
  function PointCrossingLine(e: Edge, f: Edge): Clip
  {
    Clip([GraphEdge(0, 0), GraphEdge(1, 2)], [0, 1], [0, 1], Finished(Crossing(e, f)).inputCrossings, [1, 1],
         (a: nat, bi: nat) => 0)
  }

  lemma OneParity(x: Crosser, w: World)
    ensures PolygonParity([x], w) == (TagDimension(w, x.tag) != 1)
    ensures LineParity([x], w.dimensions) == (TagDimension(World([], w.dimensions), x.tag) == 1)
  {
    assert [x][..0] == [];
  }

  lemma LineKeepsGood(o: Output, regions: seq<Index>, h: seq<Emission>, e: Edge, region: nat, other: nat, flag: bool)
    requires Good(o, regions, h, INITIAL) && region < |regions| && other < |regions|
    requires IsSource(regions, Line(region), e, 1) && TagDimension(World(regions, []), Line(other)) == 1
    ensures Good(WriteLine(o, e, region, other, flag), regions, h + [Emission(e, 1, INITIAL, [Crosser(Line(other), flag)], false)], INITIAL)
  {
    hide Good, IsSource, TagDimension, EdgeEntries;
    StatesKeepGood(o, regions, h, INITIAL, INITIAL);
    OneParity(Crosser(Line(other), flag), World(regions, []));
    EdgeKeepsGood(o.SetState(SetReverseA, false).SetState(SetInvertB, false), regions, h, Line(region), e, 1, INITIAL, 2,
                  [Crosser(Line(other), flag)]);
  }

  lemma RetaggedLines(m: map<Tag, nat>, g: seq<Emission>, h: seq<Emission>)
    requires Line(0) in m && m[Line(0)] == 0 && Line(1) in m && m[Line(1)] == 1 && |g| == |h| == 2
    requires g[0].crossers == [Crosser(Line(1), true)] && h[0] == g[0].(crossers := [Crosser(ByInput(1), true)])
    requires g[1].crossers == [Crosser(Line(0), false)] && h[1] == g[1].(crossers := [Crosser(ByInput(0), false)])
    ensures RetagHistory(m, g) == h
  {
    assert RetagCrossers(m, g[0].crossers) == h[0].crossers;
    assert RetagCrossers(m, g[1].crossers) == h[1].crossers;
  }

  lemma WrittenLine(o: Output, e: Edge, region: nat, other: nat, flag: bool)
    requires !o.prevInside
    ensures var p, n := WriteLine(o, e, region, other, flag), |o.inputDimensions|;
            && p.sourceEdgeCrossings == o.sourceEdgeCrossings + [Entry(n, SetReverseA, false), Entry(n, SetInvertB, false),
                                                                 Entry(n, Line(other), flag)]
            && p.sourceIdMap == o.sourceIdMap[Line(region) := n] && p.inputDimensions == o.inputDimensions + [1]
            && p.inputCrossings == o.inputCrossings && !p.prevInside
  {
    assert EdgeEntries(|o.inputDimensions|, [Crosser(Line(other), flag)], false, false)
        == [Entry(|o.inputDimensions|, Line(other), flag)];
  }

  lemma RetaggedLog(m: map<Tag, nat>)
    requires m == map[Line(0) := 0, Line(1) := 1]
    ensures RetagLog(m, [Entry(0, SetReverseA, false), Entry(0, SetInvertB, false), Entry(0, Line(1), true),
                         Entry(1, SetReverseA, false), Entry(1, SetInvertB, false), Entry(1, Line(0), false)])
            == [Entry(0, SetReverseA, false), Entry(0, SetInvertB, false), Entry(0, ByInput(1), true),
                Entry(1, SetReverseA, false), Entry(1, SetInvertB, false), Entry(1, ByInput(0), false)]
  {
  }

  // The log, with the lines named by their input ids.
  lemma CrossingLog(e: Edge, f: Edge)
    ensures Crossing(e, f).sourceIdMap == map[Line(0) := 0, Line(1) := 1]
    ensures Finished(Crossing(e, f)).inputCrossings
            == [Entry(0, SetReverseA, false), Entry(0, SetInvertB, false), Entry(0, ByInput(1), true),
                Entry(1, SetReverseA, false), Entry(1, SetInvertB, false), Entry(1, ByInput(0), false)]
    ensures Finished(Crossing(e, f)).inputDimensions == [1, 1] && Finished(Crossing(e, f)).sourceEdgeCrossings == []
    ensures Resolved(Crossing(e, f).sourceEdgeCrossings, Crossing(e, f).sourceIdMap)
  {
    hide WriteLine, RetagLog;
    var empty := Output([], [], [], [], map[], false);
    WrittenLine(empty, e, 0, 1, true);
    WrittenLine(WriteLine(empty, e, 0, 1, true), f, 1, 0, false);
    assert Crossing(e, f).sourceEdgeCrossings
        == [Entry(0, SetReverseA, false), Entry(0, SetInvertB, false), Entry(0, Line(1), true),
            Entry(1, SetReverseA, false), Entry(1, SetInvertB, false), Entry(1, Line(0), false)];
    RetaggedLog(Crossing(e, f).sourceIdMap);
  }

  lemma CrossingIsGood(e: Edge, f: Edge)
    ensures Good(Finished(Crossing(e, f)), TwoLines(e, f), Lines(e, f), INITIAL)
  {
    hide Good, Finished, WriteLine, Resolved;
    var regions := TwoLines(e, f);
    CrossingLog(e, f);
    NothingWritten(regions);
    LineKeepsGood(Output([], [], [], [], map[], false), regions, [], e, 0, 1, true);
    var h := [Emission(e, 1, INITIAL, [Crosser(Line(1), true)], false)];
    assert [] + h == h;
    LineKeepsGood(WriteLine(Output([], [], [], [], map[], false), e, 0, 1, true), regions, h, f, 1, 0, false);
    var g := h + [Emission(f, 1, INITIAL, [Crosser(Line(0), false)], false)];
    FinishedKeepsGood(Crossing(e, f), regions, g, INITIAL);
    RetaggedLines(Crossing(e, f).sourceIdMap, g, Lines(e, f));
  }

  lemma ExampleIsValid(e: Edge, f: Edge)
    ensures PointCrossingLine(e, f).Valid()
    ensures forall k :: 0 <= k < 2 ==> IsSnapped(PointCrossingLine(e, f), k)
  {
    hide Clip.GroupEnd, Clip.GroupStart, Finished, Crossing;
    CrossingLog(e, f);
    var c := PointCrossingLine(e, f);
    assert c.A(0) == 0 && c.A(1) == 1;
  }

  // Although log and graph fit the edges, the clipper is out of step after the
  // first line: a degenerate edge with a single crossing turns its state
  // around.
  lemma DegenerateEdgeLosesStep(e: Edge, f: Edge)
    ensures var c, h, regions := PointCrossingLine(e, f), Lines(e, f), TwoLines(e, f);
            && Fits(c, h, regions) && FoundAt(c, h, regions, 0) && FoundAt(c, h, regions, 1)
            && InStepAt(c, h, 0) && !InStepAt(c, h, 1)
  {
    hide Good, Clip.Valid, InStepAt, Crossing, Finished, IsSnapped, Clip.GroupEnd, StartOf;
    var c, h, regions := PointCrossingLine(e, f), Lines(e, f), TwoLines(e, f);
    ExampleIsValid(e, f);
    CrossingLog(e, f);
    CrossingIsGood(e, f);
    OutputFits(c, Finished(Crossing(e, f)), regions, h, INITIAL);
    StartsInOrder(c, h, regions, 0);
    StartsInOrder(c, h, regions, 1);
    OneParity(h[0].crossers[0], World(regions, c.dimensions));
    StaysInStep(c, h, regions, 0);
    StepFollows(c, h, regions, 0);
  }
}
