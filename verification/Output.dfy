/**
 What CrossingProcessor writes: edges for the builder, and the log that the
 clipper reads.
 */
module Outputs {
  import opened Common
  import opened Shapes
  import opened EdgeScan
  import opened ClipLog

  // ----- emitting -----

  // Everything that is written: the builder's edges with their dimensions, the
  // finished log, the log of this pair of boundaries with the table of the
  // edges in it, and where the clipper is at the end of the last edge.
  datatype Output = Output(builder: seq<Edge>, inputDimensions: seq<nat>, inputCrossings: Log, sourceEdgeCrossings: Log,
                           sourceIdMap: map<Tag, nat>, prevInside: bool)
  {
    function Current(state: ClipState): ClipState
    {
      state.(inside := prevInside)
    }

    // SetClippingState
    function SetState(tag: Tag, flag: bool): Output
    {
      this.(sourceEdgeCrossings := sourceEdgeCrossings + [Entry(|inputDimensions|, tag, flag)])
    }

    // "state" is the processor's state at the start of the edge.
    function AddEdge(source: Tag, a: Edge, dimension: nat, state: ClipState, interior: nat, pending: seq<Crosser>): Output
    {
      this.(sourceEdgeCrossings := sourceEdgeCrossings + EdgeEntries(|inputDimensions|, Logged(interior, pending),
                                                                     state.inside != prevInside, state.inside),
            sourceIdMap := if interior > 0 then sourceIdMap[source := |inputDimensions|] else sourceIdMap,
            inputDimensions := inputDimensions + [dimension],
            builder := builder + [a],
            prevInside := state.inside != Odd(interior))
    }

    function AddPointEdge(p: Point, dimension: nat): Output
    {
      this.(sourceEdgeCrossings := sourceEdgeCrossings + EdgeEntries(|inputDimensions|, [], !prevInside, true),
            inputDimensions := inputDimensions + [dimension],
            builder := builder + [Edge(p, p)],
            prevInside := true)
    }
  }

  function Logged(interior: nat, pending: seq<Crosser>): seq<Crosser>
  {
    if interior > 0 then pending else []
  }

  function PointEmission(p: Point, dimension: nat, state: ClipState): Emission
  {
    Emission(Edge(p, p), dimension, state.(inside := true), [], true)
  }

  function EdgeEmission(e: Edge, dimension: nat, state: ClipState, interior: nat, pending: seq<Crosser>): Emission
  {
    Emission(e, dimension, state, Logged(interior, pending), state.inside != Odd(interior))
  }

  function If<T>(c: bool, e: T): seq<T>
  {
    if c then [e] else []
  }

  lemma AddNothing<T>(s: seq<T>)
    ensures s + [] == s
  {
  }

  // ----- the invariant -----

  // What the builder was given.
  ghost predicate Records(o: Output, h: seq<Emission>)
  {
    && |o.builder| == |o.inputDimensions| == |h|
    && forall k :: 0 <= k < |h| ==> o.builder[k] == h[k].edge && o.inputDimensions[k] == h[k].dimension
  }

  ghost predicate Untranslated(log: Log)
  {
    forall i :: 0 <= i < |log| ==> !log[i].tag.ByInput?
  }

  ghost predicate Translated(log: Log)
  {
    forall i :: 0 <= i < |log| ==> !log[i].tag.BySource?
  }

  function WorldOf(o: Output, regions: seq<Index>): World
  {
    World(regions, o.inputDimensions)
  }

  // This is the edge behind a tag.
  ghost predicate IsSource(regions: seq<Index>, t: Tag, edge: Edge, dimension: nat)
  {
    && t.BySource? && t.region < |regions| && HasEdge(regions[t.region], t.id)
    && var shape := regions[t.region][t.id.shape]; shape.edges[t.id.edge] == edge && shape.dimension == dimension
  }

  // The table leads from an edge of the input to its emitted copy.
  ghost predicate NamesEdges(m: map<Tag, nat>, regions: seq<Index>, h: seq<Emission>)
  {
    forall t :: t in m ==> m[t] < |h| && IsSource(regions, t, h[m[t]].edge, h[m[t]].dimension)
  }

  // Everything that has been written agrees with the edges emitted so far.
  ghost predicate Good(o: Output, regions: seq<Index>, h: seq<Emission>, state: ClipState)
  {
    && Records(o, h)
    && Represents(o.inputCrossings + o.sourceEdgeCrossings, h, o.Current(state))
    && Consistent(h, WorldOf(o, regions))
    && AllKnown(h, WorldOf(o, regions))
    && NamesEdges(o.sourceIdMap, regions, h)
    && Untranslated(o.sourceEdgeCrossings) && Translated(o.inputCrossings)
  }

  // The crossings to be logged for an edge are from the other region, and as
  // many polygons are among them as were counted, modulo 2.
  ghost predicate PendingFits(pending: seq<Crosser>, interior: nat, regions: seq<Index>)
  {
    && (forall i :: 0 <= i < |pending| ==> pending[i].tag.BySource?)
    && Odd(interior) == PolygonParity(pending, World(regions, []))
  }

  lemma StatesKeepGood(o: Output, regions: seq<Index>, h: seq<Emission>, before: ClipState, state: ClipState)
    requires Good(o, regions, h, before)
    ensures Good(o.SetState(SetReverseA, state.reverseA).SetState(SetInvertB, state.invertB), regions, h, state)
  {
    hide Represents, Consistent, AllKnown, NamesEdges;
    var e0, e1 := Entry(|h|, SetReverseA, state.reverseA), Entry(|h|, SetInvertB, state.invertB);
    var log := o.inputCrossings + o.sourceEdgeCrossings;
    AddState(log, h, o.Current(before), e0);
    AddState(log + [e0], h, Apply(o.Current(before), e0), e1);
    var p := o.SetState(SetReverseA, state.reverseA).SetState(SetInvertB, state.invertB);
    assert p.inputCrossings + p.sourceEdgeCrossings == (log + [e0]) + [e1];
  }

  lemma {:induction false} SourceParity(pending: seq<Crosser>, regions: seq<Index>, dimensions: seq<nat>)
    requires forall i :: 0 <= i < |pending| ==> pending[i].tag.BySource?
    ensures PolygonParity(pending, World(regions, [])) == PolygonParity(pending, World(regions, dimensions))
  {
    if pending != [] {
      SourceParity(pending[..|pending| - 1], regions, dimensions);
    }
  }

  lemma NothingPending(w: World)
    ensures !PolygonParity([], w)
  {
  }

  lemma MapGrows(m: map<Tag, nat>, regions: seq<Index>, h: seq<Emission>, e: Emission, t: Tag, added: bool)
    requires NamesEdges(m, regions, h) && (added ==> IsSource(regions, t, e.edge, e.dimension))
    ensures NamesEdges(if added then m[t := |h|] else m, regions, h + [e])
  {
    hide IsSource;
  }

  lemma UntranslatedEntries(n: nat, crossers: seq<Crosser>, changed: bool, inside: bool)
    requires forall i :: 0 <= i < |crossers| ==> crossers[i].tag.BySource?
    ensures Untranslated(EdgeEntries(n, crossers, changed, inside))
  {
  }

  // The log parts of an emission, for points as well as edges.
  lemma LogKeepsGood(o: Output, regions: seq<Index>, h: seq<Emission>, state: ClipState, e: Emission, t: Tag, added: bool)
    requires Good(o, regions, h, state)
    requires e.state == o.Current(state).(inside := e.state.inside)
    requires e.after == (e.state.inside != PolygonParity(e.crossers, WorldOf(o, regions)))
    requires forall i :: 0 <= i < |e.crossers| ==> e.crossers[i].tag.BySource?
    requires added ==> IsSource(regions, t, e.edge, e.dimension)
    ensures var more := EdgeEntries(|h|, e.crossers, e.state.inside != o.prevInside, e.state.inside);
            var m := if added then o.sourceIdMap[t := |o.inputDimensions|] else o.sourceIdMap;
            Good(Output(o.builder + [e.edge], o.inputDimensions + [e.dimension], o.inputCrossings,
                        o.sourceEdgeCrossings + more, m, e.after), regions, h + [e], state)
  {
    hide Represents, Consistent, AllKnown, NamesEdges, PolygonParity, TagDimension, EdgeEntries;
    var more := EdgeEntries(|h|, e.crossers, e.state.inside != o.prevInside, e.state.inside);
    AddEmission(o.inputCrossings + o.sourceEdgeCrossings, h, o.Current(state), e);
    AppendAssoc(o.inputCrossings, o.sourceEdgeCrossings, more);
    ConsistentGrows(h, WorldOf(o, regions), e);
    MapGrows(o.sourceIdMap, regions, h, e, t, added);
    UntranslatedEntries(|h|, e.crossers, e.state.inside != o.prevInside, e.state.inside);
  }

  lemma EdgeKeepsGood(o: Output, regions: seq<Index>, h: seq<Emission>, source: Tag, a: Edge, dimension: nat,
                      state: ClipState, interior: nat, pending: seq<Crosser>)
    requires Good(o, regions, h, state)
    requires interior > 0 ==> PendingFits(pending, interior, regions)
    requires interior > 0 ==> IsSource(regions, source, a, dimension)
    ensures Good(o.AddEdge(source, a, dimension, state, interior, pending), regions,
                 h + [EdgeEmission(a, dimension, state, interior, pending)], state)
  {
    hide Good, PolygonParity, EdgeEntries;
    GoodLength(o, regions, h, state);
    var e := EdgeEmission(a, dimension, state, interior, pending);
    if interior > 0 {
      SourceParity(pending, regions, o.inputDimensions);
    } else {
      NothingPending(WorldOf(o, regions));
    }
    LogKeepsGood(o, regions, h, state, e, source, interior > 0);
  }

  lemma PointKeepsGood(o: Output, regions: seq<Index>, h: seq<Emission>, p: Point, dimension: nat, state: ClipState)
    requires Good(o, regions, h, state)
    ensures Good(o.AddPointEdge(p, dimension), regions, h + [PointEmission(p, dimension, state)], state)
  {
    hide Good, PolygonParity, EdgeEntries;
    GoodLength(o, regions, h, state);
    NothingPending(WorldOf(o, regions));
    LogKeepsGood(o, regions, h, state, PointEmission(p, dimension, state), BySource(0, SENTINEL), false);
  }

  lemma GoodLength(o: Output, regions: seq<Index>, h: seq<Emission>, state: ClipState)
    requires Good(o, regions, h, state)
    ensures |o.inputDimensions| == |h|
  {
  }

  // Only the fixed part of the state matters.
  lemma GoodIgnoresInside(o: Output, regions: seq<Index>, h: seq<Emission>, state: ClipState, inside: bool)
    requires Good(o, regions, h, state)
    ensures Good(o, regions, h, state.(inside := inside))
  {
  }

  lemma NothingWritten(regions: seq<Index>)
    ensures Good(Output([], [], [], [], map[], false), regions, [], INITIAL)
  {
    EmptyLog();
    var none: Log := [];
    assert none + none == none;
  }

  // The same under a condition.
  lemma PointIfKeepsGood(c: bool, o: Output, regions: seq<Index>, h: seq<Emission>, p: Point, dimension: nat,
                         state: ClipState)
    requires Good(o, regions, h, state)
    ensures var q := if c then o.AddPointEdge(p, dimension) else o;
            && Good(q, regions, h + If(c, PointEmission(p, dimension, state)), state)
            && q.sourceIdMap == o.sourceIdMap
  {
    hide Good;
    AddNothing(h);
    if c {
      PointKeepsGood(o, regions, h, p, dimension, state);
    }
  }

  lemma EdgeIfKeepsGood(c: bool, o: Output, regions: seq<Index>, h: seq<Emission>, source: Tag, a: Edge, dimension: nat,
                        state: ClipState, interior: nat, pending: seq<Crosser>)
    requires Good(o, regions, h, state)
    requires interior > 0 ==> PendingFits(pending, interior, regions)
    requires interior > 0 ==> IsSource(regions, source, a, dimension)
    ensures var p := if c then o.AddEdge(source, a, dimension, state, interior, pending) else o;
            && Good(p, regions, h + If(c, EdgeEmission(a, dimension, state, interior, pending)), state)
            && (c && interior > 0 ==> source in p.sourceIdMap)
            && o.sourceIdMap.Keys <= p.sourceIdMap.Keys
  {
    hide Good, PendingFits, IsSource;
    AddNothing(h);
    if c {
      EdgeKeepsGood(o, regions, h, source, a, dimension, state, interior, pending);
    }
  }

  // ----- the end of a pair of boundaries -----

  // Every edge named in the log has been emitted.
  ghost predicate Resolved(log: Log, m: map<Tag, nat>)
  {
    forall i :: 0 <= i < |log| && log[i].tag.BySource? ==> log[i].tag in m
  }

  function Finished(o: Output): Output
  {
    Output(o.builder, o.inputDimensions, o.inputCrossings + RetagLog(o.sourceIdMap, o.sourceEdgeCrossings), [], map[],
           o.prevInside)
  }

  lemma RetagSplit(m: map<Tag, nat>, input: Log, log: Log)
    requires Translated(input)
    ensures RetagLog(m, input + log) == input + RetagLog(m, log)
  {
  }

  lemma RetagKnown(m: map<Tag, nat>, h: seq<Emission>, w: World)
    requires KeepsDimensions(m, w) && AllKnown(h, w) && Consistent(h, w)
    ensures AllKnown(RetagHistory(m, h), w) && Consistent(RetagHistory(m, h), w)
  {
    hide PolygonParity, TagDimension;
    forall k | 0 <= k < |h|
      ensures PolygonParity(RetagCrossers(m, h[k].crossers), w) == PolygonParity(h[k].crossers, w)
      ensures KnownTags(RetagCrossers(m, h[k].crossers), w)
    {
      RetagParity(m, h[k].crossers, w);
      assert KnownTags(h[k].crossers, w);
    }
  }

  // The clipper is told the same with input ids instead of sources.
  lemma FinishedKeepsGood(o: Output, regions: seq<Index>, h: seq<Emission>, state: ClipState)
    requires Good(o, regions, h, state) && Resolved(o.sourceEdgeCrossings, o.sourceIdMap)
    ensures Good(Finished(o), regions, RetagHistory(o.sourceIdMap, h), state)
    ensures AllByInput(RetagHistory(o.sourceIdMap, h)) && NamesEdges(o.sourceIdMap, regions, RetagHistory(o.sourceIdMap, h))
  {
    hide Represents, AllKnown, Consistent, KeepsDimensions, NamesEdges;
    NamedDimensions(o, regions, h, state);
    RetagNames(o.sourceIdMap, regions, h);
    var m, log := o.sourceIdMap, o.inputCrossings + o.sourceEdgeCrossings;
    RetagRepresents(m, log, h, o.Current(state));
    RetagSplit(m, o.inputCrossings, o.sourceEdgeCrossings);
    RetagKnown(m, h, WorldOf(o, regions));
    var p := Finished(o);
    AddNothing(p.inputCrossings);
    assert Translated(p.inputCrossings) by {
      RetagResolves(o.sourceEdgeCrossings, m, WorldOf(o, regions));
    }
    EmptyMap(regions, RetagHistory(m, h));
    NoSourcesLeft(p.inputCrossings, RetagHistory(m, h), o.Current(state));
  }

  lemma EmptyMap(regions: seq<Index>, h: seq<Emission>)
    ensures NamesEdges(map[], regions, h)
  {
  }

  lemma RetagNames(m: map<Tag, nat>, regions: seq<Index>, h: seq<Emission>)
    requires NamesEdges(m, regions, h)
    ensures NamesEdges(m, regions, RetagHistory(m, h))
  {
    hide IsSource;
  }

  lemma NamedDimensions(o: Output, regions: seq<Index>, h: seq<Emission>, state: ClipState)
    requires Good(o, regions, h, state)
    ensures KeepsDimensions(o.sourceIdMap, WorldOf(o, regions))
  {
    hide Represents, AllKnown, Consistent;
  }

  lemma RetagResolves(log: Log, m: map<Tag, nat>, w: World)
    requires Resolved(log, m)
    ensures Translated(RetagLog(m, log))
  {
  }

  ghost predicate AllByInput(h: seq<Emission>)
  {
    forall k, i :: 0 <= k < |h| && 0 <= i < |h[k].crossers| ==> h[k].crossers[i].tag.ByInput?
  }

  lemma NoSourcesLeft(log: Log, h: seq<Emission>, current: ClipState)
    requires Represents(log, h, current) && Translated(log)
    ensures AllByInput(h)
  {
    hide EntriesOf, CrossersOf, ApplyAll;
    forall k, i | 0 <= k < |h| && 0 <= i < |h[k].crossers|
      ensures h[k].crossers[i].tag.ByInput?
    {
      assert ReadsAs(log, h, k);
      var c := h[k].crossers[i];
      CrosserFromEntry(EntriesOf(log, k), c);
      var e :| e in EntriesOf(log, k) && IsCrossing(e) && c == Crosser(e.tag, e.flag);
      EntriesFromLog(log, k, e);
    }
  }
}
