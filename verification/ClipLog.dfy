/**
 The log through which CrossingProcessor tells GraphEdgeClipper what to do with
 each emitted edge, and what it means for a reader.
 */
module ClipLog {
  import opened Shapes
  import opened EdgeScan

  // The clipper's state while it deals with an edge.
  datatype ClipState = ClipState(inside: bool, invertB: bool, reverseA: bool)

  const INITIAL := ClipState(false, false, false)

  datatype Entry = Entry(edge: nat, tag: Tag, flag: bool)

  type Log = seq<Entry>

  predicate IsCrossing(e: Entry)
  {
    e.tag.BySource? || e.tag.ByInput?
  }

  ghost predicate Sorted(log: Log)
  {
    forall i, j :: 0 <= i < j < |log| ==> log[i].edge <= log[j].edge
  }

  // ----- reading -----

  function EntriesOf(log: Log, k: nat): (r: Log)
  {
    if log == [] then []
    else EntriesOf(log[..|log| - 1], k) + if log[|log| - 1].edge == k then [log[|log| - 1]] else []
  }

  function Apply(s: ClipState, e: Entry): ClipState
  {
    match e.tag
    case SetInside => s.(inside := e.flag)
    case SetInvertB => s.(invertB := e.flag)
    case SetReverseA => s.(reverseA := e.flag)
    case _ => s
  }

  function ApplyAll(s: ClipState, entries: Log): ClipState
  {
    if entries == [] then s else Apply(ApplyAll(s, entries[..|entries| - 1]), entries[|entries| - 1])
  }

  function CrossersOf(entries: Log): seq<Crosser>
  {
    if entries == [] then []
    else
      var e := entries[|entries| - 1];
      CrossersOf(entries[..|entries| - 1]) + if IsCrossing(e) then [Crosser(e.tag, e.flag)] else []
  }

  lemma {:induction false} EntriesAppend(log: Log, more: Log, k: nat)
    ensures EntriesOf(log + more, k) == EntriesOf(log, k) + EntriesOf(more, k)
  {
    if more == [] {
      assert log + more == log;
    } else {
      EntriesAppend(log, more[..|more| - 1], k);
      assert (log + more)[..|log + more| - 1] == log + more[..|more| - 1];
    }
  }

  // Entries for a single edge.
  lemma {:induction false} EntriesForOne(more: Log, n: nat, k: nat)
    requires forall i :: 0 <= i < |more| ==> more[i].edge == n
    ensures EntriesOf(more, k) == if k == n then more else []
  {
    if more != [] {
      EntriesForOne(more[..|more| - 1], n, k);
      assert more == more[..|more| - 1] + [more[|more| - 1]];
    }
  }

  lemma {:induction false} ApplyAppend(s: ClipState, a: Log, b: Log)
    ensures ApplyAll(s, a + b) == ApplyAll(ApplyAll(s, a), b)
    ensures CrossersOf(a + b) == CrossersOf(a) + CrossersOf(b)
  {
    if b == [] {
      assert a + b == a;
    } else {
      ApplyAppend(s, a, b[..|b| - 1]);
      assert (a + b)[..|a + b| - 1] == a + b[..|b| - 1];
    }
  }

  // ----- emitted edges -----

  // An edge as the processor emits it: the clipper's state at its start, the
  // crossings logged for it, and whether its end is inside.
  datatype Emission = Emission(edge: Edge, dimension: nat, state: ClipState, crossers: seq<Crosser>, after: bool)

  // The state before the entries of edge k are read.
  function StateAt(h: seq<Emission>, k: nat): ClipState
    requires k <= |h|
  {
    if k == 0 then INITIAL else h[k - 1].state.(inside := h[k - 1].after)
  }

  // The entries of edge k take the clipper from one edge to the next.
  ghost predicate ReadsAs(log: Log, h: seq<Emission>, k: nat)
    requires k < |h|
  {
    && CrossersOf(EntriesOf(log, k)) == h[k].crossers
    && ApplyAll(StateAt(h, k), EntriesOf(log, k)) == h[k].state
  }

  // The log tells about these edges; "current" is the state that the entries
  // for the edge still to come lead to.
  ghost predicate Represents(log: Log, h: seq<Emission>, current: ClipState)
  {
    && Sorted(log)
    && (forall i :: 0 <= i < |log| ==> log[i].edge <= |h|)
    && (forall k :: 0 <= k < |h| ==> ReadsAs(log, h, k))
    && CrossersOf(EntriesOf(log, |h|)) == []
    && ApplyAll(StateAt(h, |h|), EntriesOf(log, |h|)) == current
  }

  // The states before and after each edge differ by the parity of its polygon
  // crossings.
  ghost predicate Consistent(h: seq<Emission>, w: World)
  {
    forall k :: 0 <= k < |h| ==> h[k].after == (h[k].state.inside != PolygonParity(h[k].crossers, w))
  }

  lemma EmptyLog()
    ensures Represents([], [], INITIAL)
  {
  }

  lemma AddState(log: Log, h: seq<Emission>, current: ClipState, e: Entry)
    requires Represents(log, h, current) && e.edge == |h| && !IsCrossing(e)
    ensures Represents(log + [e], h, Apply(current, e))
  {
    hide EntriesOf, ApplyAll, CrossersOf;
    forall k | 0 <= k < |h|
      ensures ReadsAs(log + [e], h, k)
    {
      EntriesAppend(log, [e], k);
      EntriesForOne([e], |h|, k);
      assert ReadsAs(log, h, k) && EntriesOf(log, k) + [] == EntriesOf(log, k);
    }
    EntriesAppend(log, [e], |h|);
    EntriesForOne([e], |h|, |h|);
    ApplyAppend(StateAt(h, |h|), EntriesOf(log, |h|), [e]);
    OneEntry(current, e);
  }

  lemma OneEntry(s: ClipState, e: Entry)
    ensures ApplyAll(s, [e]) == Apply(s, e)
    ensures CrossersOf([e]) == if IsCrossing(e) then [Crosser(e.tag, e.flag)] else []
  {
    assert [e][..0] == [];
  }

  // The entries for one edge: its crossings, and the state if it has changed.
  function EdgeEntries(n: nat, crossers: seq<Crosser>, changed: bool, inside: bool): (r: Log)
    ensures forall i :: 0 <= i < |r| ==> r[i].edge == n
  {
    CrosserEntries(n, crossers) + if changed then [Entry(n, SetInside, inside)] else []
  }

  function CrosserEntries(n: nat, crossers: seq<Crosser>): (r: Log)
    ensures |r| == |crossers|
    ensures forall i :: 0 <= i < |r| ==> r[i] == Entry(n, crossers[i].tag, crossers[i].leftToRight)
  {
    seq(|crossers|, i requires 0 <= i < |crossers| => Entry(n, crossers[i].tag, crossers[i].leftToRight))
  }

  ghost predicate OnlyEdges(crossers: seq<Crosser>)
  {
    forall i :: 0 <= i < |crossers| ==> crossers[i].tag.BySource? || crossers[i].tag.ByInput?
  }

  lemma {:induction false} CrosserEntriesRead(n: nat, crossers: seq<Crosser>, s: ClipState)
    requires OnlyEdges(crossers)
    ensures CrossersOf(CrosserEntries(n, crossers)) == crossers
    ensures ApplyAll(s, CrosserEntries(n, crossers)) == s
  {
    var r := CrosserEntries(n, crossers);
    if crossers != [] {
      var c := crossers[..|crossers| - 1];
      CrosserEntriesRead(n, c, s);
      assert r[..|r| - 1] == CrosserEntries(n, c);
      assert crossers == c + [crossers[|crossers| - 1]];
    }
  }

  lemma AddEmission(log: Log, h: seq<Emission>, current: ClipState, e: Emission)
    requires Represents(log, h, current) && OnlyEdges(e.crossers)
    requires e.state == current.(inside := e.state.inside)
    ensures Represents(log + EdgeEntries(|h|, e.crossers, e.state.inside != current.inside, e.state.inside), h + [e],
                       e.state.(inside := e.after))
  {
    hide EntriesOf, ApplyAll, CrossersOf;
    var n := |h|;
    var changed := e.state.inside != current.inside;
    var more := EdgeEntries(n, e.crossers, changed, e.state.inside);
    var h1 := h + [e];
    forall k | 0 <= k < n
      ensures ReadsAs(log + more, h1, k)
    {
      EntriesAppend(log, more, k);
      EntriesForOne(more, n, k);
      assert ReadsAs(log, h, k) && EntriesOf(log, k) + [] == EntriesOf(log, k);
    }
    EntriesAppend(log, more, n);
    EntriesForOne(more, n, n);
    ApplyAppend(StateAt(h, n), EntriesOf(log, n), more);
    EdgeEntriesRead(n, e.crossers, changed, e.state.inside, current);
    EntriesAppend(log, more, n + 1);
    EntriesForOne(more, n, n + 1);
    NoEntriesBeyond(log, n + 1);
    NothingRead(e.state.(inside := e.after));
  }

  lemma NothingRead(s: ClipState)
    ensures CrossersOf([]) == [] && ApplyAll(s, []) == s
  {
  }

  lemma {:induction false} NoEntriesBeyond(log: Log, k: nat)
    requires forall i :: 0 <= i < |log| ==> log[i].edge < k
    ensures EntriesOf(log, k) == []
  {
    if log != [] {
      NoEntriesBeyond(log[..|log| - 1], k);
    }
  }

  lemma EdgeEntriesRead(n: nat, crossers: seq<Crosser>, changed: bool, inside: bool, s: ClipState)
    requires OnlyEdges(crossers)
    ensures var r := EdgeEntries(n, crossers, changed, inside);
            && CrossersOf(r) == crossers
            && ApplyAll(s, r) == if changed then s.(inside := inside) else s
  {
    hide ApplyAll, CrossersOf;
    CrosserEntriesRead(n, crossers, s);
    NothingRead(s);
    if changed {
      ApplyAppend(s, CrosserEntries(n, crossers), [Entry(n, SetInside, inside)]);
      OneEntry(s, Entry(n, SetInside, inside));
    } else {
      assert EdgeEntries(n, crossers, changed, inside) == CrosserEntries(n, crossers);
    }
  }

  // ----- growing the world -----

  ghost predicate KnownTags(crossers: seq<Crosser>, w: World)
  {
    forall i :: 0 <= i < |crossers| && crossers[i].tag.ByInput? ==> crossers[i].tag.input < |w.dimensions|
  }

  ghost predicate AllKnown(h: seq<Emission>, w: World)
  {
    forall k :: 0 <= k < |h| ==> KnownTags(h[k].crossers, w)
  }

  // More emitted edges do not change the dimensions of earlier ones.
  lemma {:induction false} ParityGrows(crossers: seq<Crosser>, w: World, dimension: nat)
    requires KnownTags(crossers, w)
    ensures PolygonParity(crossers, w) == PolygonParity(crossers, w.(dimensions := w.dimensions + [dimension]))
  {
    if crossers != [] {
      ParityGrows(crossers[..|crossers| - 1], w, dimension);
    }
  }

  lemma ConsistentGrows(h: seq<Emission>, w: World, e: Emission)
    requires Consistent(h, w) && AllKnown(h, w)
    requires KnownTags(e.crossers, w) && e.after == (e.state.inside != PolygonParity(e.crossers, w))
    ensures var w1 := w.(dimensions := w.dimensions + [e.dimension]);
            Consistent(h + [e], w1) && AllKnown(h + [e], w1)
  {
    hide PolygonParity;
    forall k | 0 <= k <= |h|
      ensures var x := (h + [e])[k];
              x.after == (x.state.inside != PolygonParity(x.crossers, w.(dimensions := w.dimensions + [e.dimension])))
    {
      ParityGrows((h + [e])[k].crossers, w, e.dimension);
    }
  }

  // ----- translating the log -----

  // Edges named by their source get the input id under which they were emitted.
  function Retag(m: map<Tag, nat>, t: Tag): Tag
  {
    if t.BySource? && t in m then ByInput(m[t]) else t
  }

  function RetagLog(m: map<Tag, nat>, log: Log): (r: Log)
    ensures |r| == |log|
    ensures forall i :: 0 <= i < |log| ==> r[i] == log[i].(tag := Retag(m, log[i].tag))
  {
    seq(|log|, i requires 0 <= i < |log| => log[i].(tag := Retag(m, log[i].tag)))
  }

  function RetagCrossers(m: map<Tag, nat>, c: seq<Crosser>): (r: seq<Crosser>)
    ensures |r| == |c|
    ensures forall i :: 0 <= i < |c| ==> r[i] == c[i].(tag := Retag(m, c[i].tag))
  {
    seq(|c|, i requires 0 <= i < |c| => c[i].(tag := Retag(m, c[i].tag)))
  }

  function RetagHistory(m: map<Tag, nat>, h: seq<Emission>): (r: seq<Emission>)
    ensures |r| == |h|
    ensures forall k :: 0 <= k < |h| ==> r[k] == h[k].(crossers := RetagCrossers(m, h[k].crossers))
  {
    seq(|h|, k requires 0 <= k < |h| => h[k].(crossers := RetagCrossers(m, h[k].crossers)))
  }

  lemma {:induction false} RetagEntries(m: map<Tag, nat>, log: Log, k: nat)
    ensures EntriesOf(RetagLog(m, log), k) == RetagLog(m, EntriesOf(log, k))
  {
    if log != [] {
      RetagEntries(m, log[..|log| - 1], k);
      assert RetagLog(m, log)[..|log| - 1] == RetagLog(m, log[..|log| - 1]);
    }
  }

  lemma {:induction false} RetagApply(m: map<Tag, nat>, s: ClipState, entries: Log)
    ensures ApplyAll(s, RetagLog(m, entries)) == ApplyAll(s, entries)
    ensures CrossersOf(RetagLog(m, entries)) == RetagCrossers(m, CrossersOf(entries))
  {
    if entries != [] {
      var init := entries[..|entries| - 1];
      RetagApply(m, s, init);
      assert RetagLog(m, entries)[..|entries| - 1] == RetagLog(m, init);
      var e := entries[|entries| - 1];
      if IsCrossing(e) {
        assert RetagCrossers(m, CrossersOf(init) + [Crosser(e.tag, e.flag)])
            == RetagCrossers(m, CrossersOf(init)) + [Crosser(Retag(m, e.tag), e.flag)];
      }
    }
  }

  lemma RetagRepresents(m: map<Tag, nat>, log: Log, h: seq<Emission>, current: ClipState)
    requires Represents(log, h, current)
    ensures Represents(RetagLog(m, log), RetagHistory(m, h), current)
  {
    hide EntriesOf, ApplyAll, CrossersOf;
    forall k | 0 <= k < |h|
      ensures ReadsAs(RetagLog(m, log), RetagHistory(m, h), k)
    {
      assert ReadsAs(log, h, k);
      RetagEntries(m, log, k);
      RetagApply(m, StateAt(h, k), EntriesOf(log, k));
    }
    RetagEntries(m, log, |h|);
    RetagApply(m, StateAt(h, |h|), EntriesOf(log, |h|));
  }

  // The dimension recorded for an edge is that of its source.
  ghost predicate KeepsDimensions(m: map<Tag, nat>, w: World)
  {
    forall t :: t in m ==> t.BySource? && m[t] < |w.dimensions| && w.dimensions[m[t]] == TagDimension(w, t)
  }

  lemma {:induction false} RetagParity(m: map<Tag, nat>, c: seq<Crosser>, w: World)
    requires KeepsDimensions(m, w)
    ensures PolygonParity(RetagCrossers(m, c), w) == PolygonParity(c, w)
  {
    if c != [] {
      RetagParity(m, c[..|c| - 1], w);
      assert RetagCrossers(m, c)[..|c| - 1] == RetagCrossers(m, c[..|c| - 1]);
    }
  }

  // Entries of a log show up among the crossers of their edges.
  lemma {:induction false} EntryIsRead(log: Log, i: nat)
    requires i < |log|
    ensures log[i] in EntriesOf(log, log[i].edge)
  {
    if i < |log| - 1 {
      EntryIsRead(log[..|log| - 1], i);
    }
  }

  lemma {:induction false} CrosserIsRead(entries: Log, e: Entry)
    requires e in entries && IsCrossing(e)
    ensures Crosser(e.tag, e.flag) in CrossersOf(entries)
  {
    var last := entries[|entries| - 1];
    if e != last {
      CrosserIsRead(entries[..|entries| - 1], e);
    }
  }

  // Conversely, crossers come from entries.
  lemma {:induction false} CrosserFromEntry(entries: Log, c: Crosser)
    requires c in CrossersOf(entries)
    ensures exists e :: e in entries && IsCrossing(e) && c == Crosser(e.tag, e.flag)
  {
    var last := entries[|entries| - 1];
    if !(IsCrossing(last) && c == Crosser(last.tag, last.flag)) {
      CrosserFromEntry(entries[..|entries| - 1], c);
      var e :| e in entries[..|entries| - 1] && IsCrossing(e) && c == Crosser(e.tag, e.flag);
      assert e in entries;
    }
  }

  lemma {:induction false} EntriesFromLog(log: Log, k: nat, e: Entry)
    requires e in EntriesOf(log, k)
    ensures e in log && e.edge == k
  {
    if log[|log| - 1] != e || log[|log| - 1].edge != k {
      EntriesFromLog(log[..|log| - 1], k, e);
    }
  }
}
