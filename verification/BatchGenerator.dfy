/**
 BatchGenerator: divides the edges of an index update into batches of limited
 size.
 */
module BatchGenerator {
  import opened Common
  import opened BatchSizes

  // The edges from begin up to end, and how many they are; the first batch
  // counts the removed edges as well.
  datatype Batch = Batch(begin: ShapeEdgeId, end: ShapeEdgeId, numEdges: nat)

  // ----- what the update consists of -----

  // "counts" are the numbers of edges of the shapes from "first" on; a shape that
  // has been removed counts as one without edges.
  datatype Update = Update(removed: nat, added: nat, first: nat)

  // How many edges come before an id.
  function Pos(u: Update, counts: seq<nat>, id: ShapeEdgeId): nat
    requires u.first <= id.shape <= u.first + |counts|
  {
    Prefix(counts, id.shape - u.first) + id.edge
  }

  // The ids that can start or end a batch.
  predicate IsId(u: Update, counts: seq<nat>, id: ShapeEdgeId)
  {
    && u.first <= id.shape <= u.first + |counts|
    && (id.edge == 0 || (id.shape < u.first + |counts| && id.edge < counts[id.shape - u.first]))
  }

  // ----- maximum sizes -----

  // The ideal batch sizes, the last one duplicated.
  ghost predicate AreMaxima(u: Update, max: seq<nat>)
  {
    && |max| >= 2 && max[|max| - 1] == max[|max| - 2]
    && (forall i, j :: 0 <= i <= j < |max| ==> max[j] <= max[i])
    && (|max| > 2 ==> forall i :: 0 <= i < |max| ==> max[i] >= 1)
    && (forall i :: 1 <= i < |max| - 1 ==> max[i] <= 2 * max[i + 1])
    && u.removed + u.added <= Prefix(max, |max| - 1) && u.removed <= max[0]
  }

  // The index of the maximum that is in force after t edges.
  function IndexFor(max: seq<nat>, t: nat, i: nat): (r: nat)
    requires i <= |max|
    ensures i <= r <= |max|
    ensures r < |max| ==> t <= Prefix(max, r)
    ensures forall j :: i <= j < r ==> Prefix(max, j) < t
    decreases |max| - i
  {
    if i < |max| && Prefix(max, i) < t then IndexFor(max, t, i + 1) else i
  }

  lemma IndexIs(max: seq<nat>, t: nat, r: nat)
    requires r < |max| && t <= Prefix(max, r) && (r > 0 ==> Prefix(max, r - 1) < t)
    ensures IndexFor(max, t, 0) == r
  {
    var i := IndexFor(max, t, 0);
    if i < r {
      PrefixMono(max, i, r - 1);
    }
  }

  // ----- the state of the generator -----

  datatype Gen = Gen(max: seq<nat>, index: nat, left: int, begin: ShapeEdgeId, size: nat, batches: seq<Batch>)

  // The number of edges in finished batches.
  function Done(batches: seq<Batch>): nat
  {
    if batches == [] then 0 else Done(batches[..|batches| - 1]) + batches[|batches| - 1].numEdges
  }

  // The finished batches lie one after the other, each has the edges it says,
  // and none exceeds the maximum that was in force.
  ghost predicate BatchesFit(u: Update, max: seq<nat>, counts: seq<nat>, batches: seq<Batch>, next: ShapeEdgeId)
  {
    forall k :: 0 <= k < |batches| ==> BatchFits(u, max, counts, batches, next, k)
  }

  // A batch that starts inside a shape ends with it at the latest.
  predicate StaysInShape(begin: ShapeEdgeId, end: ShapeEdgeId)
  {
    begin.edge > 0 ==> (end.shape == begin.shape && end.edge > 0) || end == ShapeEdgeId(begin.shape + 1, 0)
  }

  ghost predicate BatchFits(u: Update, max: seq<nat>, counts: seq<nat>, batches: seq<Batch>, next: ShapeEdgeId, k: nat)
    requires k < |batches|
  {
    var b := batches[k];
    && IsId(u, counts, b.begin) && IsId(u, counts, b.end)
    && b.end == (if k + 1 < |batches| then batches[k + 1].begin else next)
    && b.begin == (if k == 0 then ShapeEdgeId(u.first, 0) else batches[k - 1].end)
    && (b.begin == b.end || Before(b.begin, b.end))
    && StaysInShape(b.begin, b.end)
    && b.numEdges == Pos(u, counts, b.end) - Pos(u, counts, b.begin) + (if k == 0 then u.removed else 0)
    && (var i := IndexFor(max, Done(batches[..k]), 0); i < |max| && b.numEdges <= max[i])
  }

  // "given" edges have been put into finished batches or the current one.
  ghost predicate Inv(g: Gen, u: Update, counts: seq<nat>, given: nat)
  {
    && AreMaxima(u, g.max)
    && g.index < |g.max| && g.left == Prefix(g.max, g.index) - Done(g.batches) && g.left >= 0
    && (g.index > 0 ==> Prefix(g.max, g.index - 1) < Done(g.batches))
    && g.size <= g.max[g.index]
    && IsId(u, counts, g.begin)
    && given <= u.added && Pos(u, counts, g.begin) <= given
    && g.size == given - Pos(u, counts, g.begin) + (if g.batches == [] then u.removed else 0)
    && Done(g.batches) == Pos(u, counts, g.begin) + (if g.batches == [] then 0 else u.removed)
    && (g.batches == [] ==> g.begin == ShapeEdgeId(u.first, 0))
    && BatchesFit(u, g.max, counts, g.batches, g.begin)
  }

  // ----- steps -----

  // The loop of FinishBatch.
  function Advance(max: seq<nat>, index: nat, left: int): (r: (nat, int))
    requires index <= |max|
    decreases |max| - index
  {
    if left < 0 && index < |max| then Advance(max, index + 1, left + max[index]) else (index, left)
  }

  function Finished(g: Gen, n: nat, end: ShapeEdgeId): Gen
    requires g.index <= |g.max|
  {
    var size := g.size + n;
    var (index, left) := Advance(g.max, g.index, g.left - size);
    Gen(g.max, index, left, end, 0, g.batches + [Batch(g.begin, end, size)])
  }

  // The maxima cover all edges, so the loop ends in time.
  lemma {:induction false} AdvanceEnds(max: seq<nat>, index: nat, left: int, done: nat)
    requires index < |max| && left == Prefix(max, index) - done && done <= Prefix(max, |max| - 1)
    requires index > 0 ==> Prefix(max, index - 1) < done
    ensures var (i, l) := Advance(max, index, left);
            i < |max| && l == Prefix(max, i) - done && l >= 0 && i >= index && (i > 0 ==> Prefix(max, i - 1) < done)
    decreases |max| - index
  {
    if left < 0 {
      PrefixStep(max, index);
      AdvanceEnds(max, index + 1, left + max[index], done);
    }
  }

  lemma DoneAppend(batches: seq<Batch>, b: Batch)
    ensures Done(batches + [b]) == Done(batches) + b.numEdges
  {
    assert (batches + [b])[..|batches|] == batches;
  }

  // What FinishBatch needs of its caller.
  ghost predicate CanFinish(g: Gen, u: Update, counts: seq<nat>, given: nat, n: nat, end: ShapeEdgeId)
  {
    && g.index < |g.max| && g.size + n <= g.max[g.index] && given + n <= u.added
    && IsId(u, counts, end) && Pos(u, counts, end) == given + n
    && (g.begin == end || Before(g.begin, end)) && StaysInShape(g.begin, end)
  }

  lemma FinishedIndex(g: Gen, u: Update, counts: seq<nat>, given: nat, n: nat, end: ShapeEdgeId)
    requires Inv(g, u, counts, given) && CanFinish(g, u, counts, given, n, end)
    ensures var f := Finished(g, n, end);
            && Done(f.batches) == Done(g.batches) + g.size + n
            && f.max == g.max && f.index < |f.max| && f.left == Prefix(f.max, f.index) - Done(f.batches) && f.left >= 0
            && (f.index > 0 ==> Prefix(f.max, f.index - 1) < Done(f.batches))
            && g.index <= f.index <= g.index + 1
  {
    hide BatchesFit, Sum, IsId, Pos, StaysInShape;
    var size := g.size + n;
    DoneAppend(g.batches, Batch(g.begin, end, size));
    AdvanceEnds(g.max, g.index, g.left - size, Done(g.batches) + size);
    PrefixStep(g.max, g.index);
    var f := Finished(g, n, end);
    if f.index > g.index {
      PrefixMono(g.max, if f.index == g.index + 1 then g.index else g.index + 1, f.index - 1);
    }
  }

  lemma FinishedBatches(g: Gen, u: Update, counts: seq<nat>, given: nat, n: nat, end: ShapeEdgeId)
    requires Inv(g, u, counts, given) && CanFinish(g, u, counts, given, n, end)
    ensures BatchesFit(u, g.max, counts, g.batches + [Batch(g.begin, end, g.size + n)], end)
  {
    hide AreMaxima, Prefix, Pos;
    var b := Batch(g.begin, end, g.size + n);
    var all := g.batches + [b];
    IndexIs(g.max, Done(g.batches), g.index);
    forall k | 0 <= k < |all|
      ensures BatchFits(u, g.max, counts, all, end, k)
    {
      if k < |g.batches| {
        assert BatchFits(u, g.max, counts, g.batches, g.begin, k);
        assert all[..k] == g.batches[..k];
      } else {
        assert all[..k] == g.batches;
        if k > 0 {
          assert BatchFits(u, g.max, counts, g.batches, g.begin, k - 1);
        }
      }
    }
  }

  lemma FinishedShape(g: Gen, n: nat, end: ShapeEdgeId)
    requires g.index <= |g.max|
    ensures var f := Finished(g, n, end);
            f.max == g.max && f.begin == end && f.size == 0 && f.batches == g.batches + [Batch(g.begin, end, g.size + n)]
  {
  }

  lemma FinishKeeps(g: Gen, u: Update, counts: seq<nat>, given: nat, n: nat, end: ShapeEdgeId)
    requires Inv(g, u, counts, given) && CanFinish(g, u, counts, given, n, end)
    ensures var f := Finished(g, n, end);
            && Inv(f, u, counts, given + n)
            && f.max == g.max && g.index <= f.index <= g.index + 1 && f.begin == end && f.size == 0
            && f.batches == g.batches + [Batch(g.begin, end, g.size + n)]
            && Done(f.batches) == Done(g.batches) + g.size + n
  {
    hide BatchesFit, Sum, Advance, Pos, AreMaxima, Prefix, Done, IsId, StaysInShape, BatchFits;
    FinishedIndex(g, u, counts, given, n, end);
    FinishedBatches(g, u, counts, given, n, end);
    FinishedShape(g, n, end);
    var f := Finished(g, n, end);
    hide Finished;
  }

  // ----- more shapes -----

  lemma PosGrows(u: Update, counts: seq<nat>, more: seq<nat>, id: ShapeEdgeId)
    requires IsId(u, counts, id)
    ensures IsId(u, counts + more, id) && Pos(u, counts + more, id) == Pos(u, counts, id)
  {
    var n := id.shape - u.first;
    assert (counts + more)[..n] == counts[..n];
  }

  lemma CountsGrow(g: Gen, u: Update, counts: seq<nat>, more: seq<nat>, given: nat)
    requires Inv(g, u, counts, given)
    ensures Inv(g, u, counts + more, given)
  {
    hide IsId, Pos, AreMaxima, Prefix;
    PosGrows(u, counts, more, g.begin);
    forall k | 0 <= k < |g.batches|
      ensures BatchFits(u, g.max, counts + more, g.batches, g.begin, k)
    {
      assert BatchFits(u, g.max, counts, g.batches, g.begin, k);
      PosGrows(u, counts, more, g.batches[k].begin);
      PosGrows(u, counts, more, g.batches[k].end);
    }
  }

  // ----- splitting a shape -----

  // The loop of AddShape: some of a shape's edges have been distributed, and
  // those that are left fit neither in the current batch nor in the next.
  ghost predicate Splitting(g: Gen, u: Update, counts: seq<nat>, given: nat, shape: nat, eBegin: nat, numEdges: nat)
  {
    && Inv(g, u, counts, given + eBegin) && given + eBegin + numEdges <= u.added
    && shape == u.first + |counts| - 1 && counts != [] && counts[|counts| - 1] == eBegin + numEdges
    && Prefix(counts, |counts| - 1) == given
    && g.index + 1 < |g.max|
    && numEdges > g.max[g.index + 1]
    && numEdges + g.max[g.index + 1] > g.max[g.index] - g.size
    && (eBegin > 0 ==> g.begin == ShapeEdgeId(shape, eBegin))
    && (eBegin == 0 ==> g.begin.edge == 0)
  }

  lemma SplitPosition(g: Gen, u: Update, counts: seq<nat>, given: nat, shape: nat, eBegin: nat, numEdges: nat, n: nat)
    requires Splitting(g, u, counts, given, shape, eBegin, numEdges) && n < numEdges && g.size + n <= g.max[g.index]
    ensures CanFinish(g, u, counts, given + eBegin, n, ShapeEdgeId(shape, eBegin + n))
  {
    hide BatchesFit, AreMaxima, Sum, Prefix;
    PrefixStep(counts, |counts| - 1);
    assert counts[..|counts|] == counts;
  }

  // A turn of the loop leaves edges for two batches, and a maximum above zero.
  lemma SplitRoom(g: Gen, f: Gen, u: Update, counts: seq<nat>, given: nat, numEdges: nat)
    requires Inv(f, u, counts, given) && given + numEdges <= u.added && f.size == 0 && f.batches != []
    requires f.max == g.max && g.index <= f.index <= g.index + 1 < |g.max| && numEdges > g.max[g.index + 1]
    requires Done(f.batches) >= g.max[g.index]
    ensures f.index + 1 < |f.max| && f.max[f.index] > 0
    ensures numEdges > f.max[f.index + 1] && numEdges + f.max[f.index + 1] > f.max[f.index]
  {
    hide BatchesFit, IsId, Pos, Sum, Prefix;
    var k := |f.max| - 1;
    PrefixStep(f.max, k - 1);
    assert Done(f.batches) + numEdges <= Prefix(f.max, k);
    assert f.index + 1 < |f.max|;
    assert f.max[f.index + 1] <= f.max[g.index + 1];
    PrefixZero(f.max);
  }

  // Neither this batch nor the next can take the remaining edges.
  predicate NeedsMore(g: Gen, numEdges: nat)
    requires g.index + 1 < |g.max|
  {
    g.max[g.index] - g.size + g.max[g.index + 1] < numEdges
  }

  // One turn of the loop.
  lemma SplitStep(g: Gen, f: Gen, u: Update, counts: seq<nat>, given: nat, shape: nat, eBegin: nat, numEdges: nat, rem: nat)
    requires Splitting(g, u, counts, given, shape, eBegin, numEdges) && NeedsMore(g, numEdges)
    requires rem == g.max[g.index] - g.size && f == Finished(g, rem, ShapeEdgeId(shape, eBegin + rem))
    ensures rem <= numEdges && Splitting(f, u, counts, given, shape, eBegin + rem, numEdges - rem)
    ensures f.size == 0 && f.max[f.index] > 0
  {
    var end := ShapeEdgeId(shape, eBegin + rem);
    SplitPosition(g, u, counts, given, shape, eBegin, numEdges, rem);
    FinishKeeps(g, u, counts, given + eBegin, rem, end);
    assert f.batches != [];
    hide BatchesFit, Sum, Pos, Prefix, AreMaxima, Advance, IsId, Finished, Done, StaysInShape, CanFinish;
    SplitRoom(g, f, u, counts, given + eBegin + rem, numEdges - rem);
  }

  // The rest of a shape goes into this batch and the next, which keep the same
  // space up to one edge; neither is empty.
  lemma SplitLast(g: Gen, f: Gen, u: Update, counts: seq<nat>, given: nat, shape: nat, eBegin: nat, numEdges: nat, n: int)
    requires Splitting(g, u, counts, given, shape, eBegin, numEdges) && !NeedsMore(g, numEdges)
    requires n == (numEdges + g.max[g.index] - g.size - g.max[g.index + 1]) / 2
    requires n >= 0 ==> f == Finished(g, n, ShapeEdgeId(shape, eBegin + n))
    ensures 1 <= n < numEdges && CanFinish(g, u, counts, given + eBegin, n, ShapeEdgeId(shape, eBegin + n))
    ensures 0 <= (g.max[g.index] - g.size - n) - (g.max[g.index + 1] - (numEdges - n)) <= 1
    ensures Inv(f, u, counts, given + eBegin + n)
    ensures CanFinish(f, u, counts, given + eBegin + n, numEdges - n, ShapeEdgeId(shape + 1, 0))
  {
    var end := ShapeEdgeId(shape, eBegin + n);
    hide BatchesFit, Sum, Pos, Prefix, AreMaxima, Advance, IsId, Finished, Done, StaysInShape, CanFinish;
    SplitPosition(g, u, counts, given, shape, eBegin, numEdges, n);
    FinishKeeps(g, u, counts, given + eBegin, n, end);
    LastMaximum(g, f, u, counts, given + eBegin + n);
    LastPosition(f, u, counts, given, shape, eBegin + n, numEdges - n);
  }

  lemma LastMaximum(g: Gen, f: Gen, u: Update, counts: seq<nat>, given: nat)
    requires Inv(f, u, counts, given) && f.max == g.max && g.index <= f.index <= g.index + 1 < |g.max|
    ensures f.max[f.index] >= f.max[g.index + 1]
  {
    hide BatchesFit, IsId, Pos, Sum, Prefix;
  }

  lemma LastPosition(f: Gen, u: Update, counts: seq<nat>, given: nat, shape: nat, edge: nat, rest: nat)
    requires Inv(f, u, counts, given + edge) && given + edge + rest <= u.added
    requires f.begin == ShapeEdgeId(shape, edge) && edge > 0 && f.size + rest <= f.max[f.index]
    requires counts != [] && shape == u.first + |counts| - 1 && counts[|counts| - 1] == edge + rest
    requires Prefix(counts, |counts| - 1) == given
    ensures CanFinish(f, u, counts, given + edge, rest, ShapeEdgeId(shape + 1, 0))
  {
    hide BatchesFit, AreMaxima, Sum;
    PrefixStep(counts, |counts| - 1);
  }

  // ----- the other branches of AddShape -----

  lemma ExtendKeeps(g: Gen, u: Update, counts: seq<nat>, given: nat, n: nat)
    requires Inv(g, u, counts, given) && g.size + n <= g.max[g.index] && given + n <= u.added
    ensures Inv(g.(size := g.size + n), u, counts, given + n)
  {
    hide BatchesFit, IsId, Pos, Prefix, AreMaxima;
  }

  function Zeros(n: nat): (r: seq<nat>)
    ensures |r| == n
  {
    seq(n, i => 0)
  }

  lemma {:induction false} SumZeros(n: nat)
    ensures Sum(Zeros(n)) == 0
  {
    if n > 0 {
      assert Zeros(n)[..n - 1] == Zeros(n - 1);
      SumZeros(n - 1);
    }
  }

  // A shape is announced: the ids between the last shape and it have no edges.
  function Announce(counts: seq<nat>, gap: nat, n: nat): (r: seq<nat>)
    ensures |r| == |counts| + gap + 1 && r[|r| - 1] == n
  {
    counts + Zeros(gap) + [n]
  }

  lemma Announced(counts: seq<nat>, gap: nat, n: nat)
    ensures Prefix(Announce(counts, gap, n), |counts| + gap) == Sum(counts)
    ensures Sum(Announce(counts, gap, n)) == Sum(counts) + n
  {
    var s := Announce(counts, gap, n);
    assert s[..|counts| + gap] == counts + Zeros(gap);
    SumAppend(counts, Zeros(gap));
    SumZeros(gap);
    assert s[..|s| - 1] == s[..|counts| + gap];
  }

  // What the generator keeps between two shapes.
  ghost predicate Ready(g: Gen, u: Update, counts: seq<nat>)
  {
    Inv(g, u, counts, Sum(counts)) && g.begin.edge == 0
  }

  lemma ShapeAnnounced(g: Gen, u: Update, counts: seq<nat>, gap: nat, n: nat)
    requires Ready(g, u, counts)
    ensures Inv(g, u, Announce(counts, gap, n), Sum(counts)) && g.begin.shape <= u.first + |counts|
  {
    CountsGrow(g, u, counts, Zeros(gap) + [n], Sum(counts));
    assert counts + (Zeros(gap) + [n]) == Announce(counts, gap, n);
  }

  // A shape that does not fit into the current batch leaves room for a next one.
  lemma NextExists(g: Gen, u: Update, counts: seq<nat>, numEdges: nat)
    requires Ready(g, u, counts) && Sum(counts) + numEdges <= u.added && g.size + numEdges > g.max[g.index]
    ensures g.index + 1 < |g.max|
  {
    hide BatchesFit, Pos, IsId, Sum;
    var k := |g.max| - 1;
    if g.index == k {
      PrefixStep(g.max, k - 1);
    }
  }

  lemma FitsHere(g: Gen, u: Update, counts: seq<nat>, gap: nat, n: nat)
    requires Ready(g, u, counts) && Sum(counts) + n <= u.added && g.size + n <= g.max[g.index]
    ensures Ready(g.(size := g.size + n), u, Announce(counts, gap, n))
  {
    hide Inv, Sum;
    ShapeAnnounced(g, u, counts, gap, n);
    ExtendKeeps(g, u, Announce(counts, gap, n), Sum(counts), n);
    Announced(counts, gap, n);
  }

  lemma FitsNext(g: Gen, f: Gen, u: Update, counts: seq<nat>, gap: nat, n: nat)
    requires Ready(g, u, counts) && Sum(counts) + n <= u.added && g.index + 1 < |g.max| && n <= g.max[g.index + 1]
    requires f == Finished(g, 0, ShapeEdgeId(u.first + |counts| + gap, 0))
    ensures CanFinish(g, u, Announce(counts, gap, n), Sum(counts), 0, ShapeEdgeId(u.first + |counts| + gap, 0))
    ensures Inv(f, u, Announce(counts, gap, n), Sum(counts))
    ensures Ready(f.(size := n), u, Announce(counts, gap, n))
  {
    hide BatchesFit, Sum, Pos, AreMaxima, Prefix, Done, IsId, StaysInShape, Announce, Advance;
    var all := Announce(counts, gap, n);
    var end := ShapeEdgeId(u.first + |counts| + gap, 0);
    ShapeAnnounced(g, u, counts, gap, n);
    Announced(counts, gap, n);
    NextPosition(g, u, counts, gap, n, end);
    FinishKeeps(g, u, all, Sum(counts), 0, end);
    LastMaximum(g, f, u, all, Sum(counts));
    ExtendKeeps(f, u, all, Sum(counts), n);
    hide *;
    assert f.(size := f.size + n) == f.(size := n);
  }

  lemma NextPosition(g: Gen, u: Update, counts: seq<nat>, gap: nat, n: nat, end: ShapeEdgeId)
    requires Ready(g, u, counts) && Inv(g, u, Announce(counts, gap, n), Sum(counts)) && Sum(counts) <= u.added
    requires g.begin.shape <= u.first + |counts| && end == ShapeEdgeId(u.first + |counts| + gap, 0)
    requires Prefix(Announce(counts, gap, n), |counts| + gap) == Sum(counts)
    ensures CanFinish(g, u, Announce(counts, gap, n), Sum(counts), 0, end)
  {
    hide BatchesFit, AreMaxima, Sum, Prefix, Done, Announce;
  }

  lemma StartsSplit(g: Gen, u: Update, counts: seq<nat>, gap: nat, n: nat)
    requires Ready(g, u, counts) && Sum(counts) + n <= u.added && g.index + 1 < |g.max|
    requires n > g.max[g.index] - g.size && n > g.max[g.index + 1]
    ensures Splitting(g, u, Announce(counts, gap, n), Sum(counts), u.first + |counts| + gap, 0, n)
  {
    hide BatchesFit, AreMaxima, Sum, Prefix, Done, Announce, Pos, IsId;
    ShapeAnnounced(g, u, counts, gap, n);
    Announced(counts, gap, n);
  }

  // ----- the sizes of the batches -----

  // The maxima are the sizes for this budget, with the last one repeated, so that
  // every batch has a next one.
  ghost predicate AreMaximaFor(u: Update, budget: real, max: seq<nat>)
    requires budget >= 0.0
  {
    && |max| >= 2 && max[|max| - 1] == max[|max| - 2]
    && AreBatchSizes(u.removed, u.added, budget, max[..|max| - 1])
  }

  lemma AreMaximaOf(u: Update, sizes: seq<nat>)
    requires sizes != [] && u.removed <= sizes[0] && u.removed + u.added <= Sum(sizes)
    requires |sizes| == 1 || Falling(sizes)
    ensures AreMaxima(u, sizes + [sizes[|sizes| - 1]])
  {
    hide Sum, Prefix;
    PrefixAppend(sizes, sizes[|sizes| - 1]);
    if |sizes| > 1 {
      FallingGrows(sizes, sizes[|sizes| - 1]);
    }
  }

  lemma MaximaFor(u: Update, budget: real, sizes: seq<nat>)
    requires budget >= 0.0 && sizes != [] && AreBatchSizes(u.removed, u.added, budget, sizes)
    ensures AreMaximaFor(u, budget, sizes + [sizes[|sizes| - 1]])
  {
    hide AreBatchSizes;
    assert (sizes + [sizes[|sizes| - 1]])[..|sizes|] == sizes;
  }

  lemma StartIsReady(u: Update, max: seq<nat>)
    requires AreMaxima(u, max)
    ensures Ready(Gen(max, 0, 0, ShapeEdgeId(u.first, 0), u.removed, []), u, [])
  {
    PrefixZero(max);
  }

  // ----- the generator -----

  class Generator {
    const maxBatchSizes: seq<nat>
    var batchIndex: nat
    var batchIndexEdgesLeft: int
    var batchBegin: ShapeEdgeId
    var shapeIdEnd: nat
    var batchSize: nat
    var batches: seq<Batch>
    ghost const update: Update
    ghost var counts: seq<nat>

    ghost function State(): Gen
      reads `batchIndex, `batchIndexEdgesLeft, `batchBegin, `batchSize, `batches
    {
      Gen(maxBatchSizes, batchIndex, batchIndexEdgesLeft, batchBegin, batchSize, batches)
    }

    ghost predicate Valid()
      reads this
    {
      Ready(State(), update, counts) && shapeIdEnd == update.first + |counts|
    }

    constructor (numEdgesRemoved: nat, numEdgesAdded: nat, shapeIdBegin: nat, budget: real)
      requires budget >= 0.0
      ensures Valid() && update == Update(numEdgesRemoved, numEdgesAdded, shapeIdBegin) && counts == []
      ensures AreMaximaFor(update, budget, maxBatchSizes)
    {
      hide Ready, AreMaxima, Prefix, Falling, AreBatchSizes, AreMaximaFor;
      var sizes := GetMaxBatchSizes(numEdgesRemoved, numEdgesAdded, budget);
      SizesServe(numEdgesRemoved, numEdgesAdded, budget, sizes);
      MaximaFor(Update(numEdgesRemoved, numEdgesAdded, shapeIdBegin), budget, sizes);
      AreMaximaOf(Update(numEdgesRemoved, numEdgesAdded, shapeIdBegin), sizes);
      maxBatchSizes := sizes + [sizes[|sizes| - 1]];
      batchIndex, batchIndexEdgesLeft := 0, 0;
      batchBegin, shapeIdEnd := ShapeEdgeId(shapeIdBegin, 0), shapeIdBegin;
      batchSize, batches := numEdgesRemoved, [];
      update, counts := Update(numEdgesRemoved, numEdgesAdded, shapeIdBegin), [];
      new;
      StartIsReady(update, maxBatchSizes);
    }

    method ExtendBatch(numEdges: nat)
      modifies `batchSize
      ensures State() == old(State()).(size := old(batchSize) + numEdges)
    {
      batchSize := batchSize + numEdges;
    }

    method FinishBatch(numEdges: nat, batchEnd: ShapeEdgeId, ghost all: seq<nat>, ghost given: nat)
      requires Inv(State(), update, all, given) && CanFinish(State(), update, all, given, numEdges, batchEnd)
      modifies `batchIndex, `batchIndexEdgesLeft, `batchBegin, `batchSize, `batches
      ensures State() == Finished(old(State()), numEdges, batchEnd)
      ensures Inv(State(), update, all, given + numEdges)
    {
      hide Inv, CanFinish;
      ghost var g := State();
      assert g.index < |g.max| && Finished(g, numEdges, batchEnd).index < |g.max| by {
        StaysInRange(g, update, all, given, numEdges, batchEnd);
      }
      FinishKeeps(g, update, all, given, numEdges, batchEnd);
      var size := batchSize + numEdges;
      var index, left := batchIndex, batchIndexEdgesLeft - size;
      ghost var target := Advance(g.max, index, left);
      while left < 0
        invariant index <= |maxBatchSizes| && Advance(maxBatchSizes, index, left) == target
        decreases |maxBatchSizes| - index
      {
        index, left := index + 1, left + maxBatchSizes[index];
      }
      batches := batches + [Batch(batchBegin, batchEnd, size)];
      batchBegin, batchSize := batchEnd, 0;
      batchIndex, batchIndexEdgesLeft := index, left;
    }

    // What fits neither here nor in the next batch is split.
    method SplitShape(shapeId: nat, numEdges: nat, ghost all: seq<nat>, ghost given: nat)
      requires Splitting(State(), update, all, given, shapeId, 0, numEdges)
      modifies `batchIndex, `batchIndexEdgesLeft, `batchBegin, `batchSize, `batches
      ensures Inv(State(), update, all, given + numEdges) && batchBegin == ShapeEdgeId(shapeId + 1, 0)
    {
      hide Inv, CanFinish, Advance;
      var eBegin: nat, rest: nat := 0, numEdges;
      assert batchIndex + 1 < |maxBatchSizes|;
      SpaceLeft(State(), update, all, given);
      var batchRemaining := maxBatchSizes[batchIndex] - batchSize;
      while batchRemaining + maxBatchSizes[batchIndex + 1] < rest
        invariant eBegin + rest == numEdges && Splitting(State(), update, all, given, shapeId, eBegin, rest)
        invariant batchRemaining == maxBatchSizes[batchIndex] - batchSize && batchRemaining >= 0
        decreases rest + (if batchRemaining == 0 then 1 else 0)
      {
        ghost var g := State();
        SplitPosition(g, update, all, given, shapeId, eBegin, rest, batchRemaining);
        FinishBatch(batchRemaining, ShapeEdgeId(shapeId, eBegin + batchRemaining), all, given + eBegin);
        SplitStep(g, State(), update, all, given, shapeId, eBegin, rest, batchRemaining);
        eBegin := eBegin + batchRemaining;
        rest := rest - batchRemaining;
        batchRemaining := maxBatchSizes[batchIndex];
      }
      var n := (rest + batchRemaining - maxBatchSizes[batchIndex + 1]) / 2;
      ghost var g := State();
      SplitLast(g, Finished(g, n, ShapeEdgeId(shapeId, eBegin + n)), update, all, given, shapeId, eBegin, rest, n);
      FinishBatch(n, ShapeEdgeId(shapeId, eBegin + n), all, given + eBegin);
      FinishBatch(rest - n, ShapeEdgeId(shapeId + 1, 0), all, given + eBegin + n);
    }

    method AddShape(shapeId: nat, numEdges: nat)
      requires Valid() && shapeId >= shapeIdEnd && Sum(counts) + numEdges <= update.added
      modifies this
      ensures Valid() && counts == Announce(old(counts), shapeId - old(shapeIdEnd), numEdges)
    {
      hide Inv, Ready, Announce, Splitting, CanFinish, Finished, Sum;
      ghost var g := State();
      ghost var gap := shapeId - shapeIdEnd;
      ghost var all := Announce(counts, gap, numEdges);
      ghost var given := Sum(counts);
      ReadySpace(g, update, counts);
      var batchRemaining := maxBatchSizes[batchIndex] - batchSize;
      if numEdges <= batchRemaining {
        FitsHere(g, update, counts, gap, numEdges);
        ExtendBatch(numEdges);
      } else {
        NextExists(g, update, counts, numEdges);
        if numEdges <= maxBatchSizes[batchIndex + 1] {
          FitsNext(g, Finished(g, 0, ShapeEdgeId(shapeId, 0)), update, counts, gap, numEdges);
          ShapeAnnounced(g, update, counts, gap, numEdges);
          FinishBatch(0, ShapeEdgeId(shapeId, 0), all, given);
          FinishEmpties(g, 0, ShapeEdgeId(shapeId, 0));
          ExtendBatch(numEdges);
        } else {
          StartsSplit(g, update, counts, gap, numEdges);
          SplitShape(shapeId, numEdges, all, given);
          Announced(counts, gap, numEdges);
          IsReady(State(), update, all);
        }
      }
      shapeIdEnd := shapeId + 1;
      counts := all;
    }

    method Finish() returns (result: seq<Batch>)
      requires Valid()
      modifies this
      ensures Complete(update, maxBatchSizes, counts, result)
      ensures counts == old(counts)
    {
      hide Inv, Ready, CanFinish, Finished, Sum, Complete;
      var end := ShapeEdgeId(shapeIdEnd, 0);
      ghost var g := State();
      ReadySpace(g, update, counts);
      if batches == [] || shapeIdEnd != batchBegin.shape {
        EndPosition(g, update, counts);
        FinishBatch(0, end, counts, Sum(counts));
        FinishEmpties(g, 0, end);
      }
      AllGiven(State(), update, counts);
      result := batches;
      batches := [];
    }
  }

  lemma StaysInRange(g: Gen, u: Update, counts: seq<nat>, given: nat, n: nat, end: ShapeEdgeId)
    requires Inv(g, u, counts, given) && CanFinish(g, u, counts, given, n, end)
    ensures g.index < |g.max| && Finished(g, n, end).index < |g.max|
  {
    FinishKeeps(g, u, counts, given, n, end);
  }

  lemma ReadySpace(g: Gen, u: Update, counts: seq<nat>)
    requires Ready(g, u, counts)
    ensures g.index < |g.max| && g.size <= g.max[g.index] && g.begin.edge == 0 && Inv(g, u, counts, Sum(counts))
  {
  }

  lemma IsReady(g: Gen, u: Update, counts: seq<nat>)
    requires Inv(g, u, counts, Sum(counts)) && g.begin.edge == 0
    ensures Ready(g, u, counts)
  {
  }

  lemma FinishEmpties(g: Gen, n: nat, end: ShapeEdgeId)
    requires g.index <= |g.max|
    ensures var f := Finished(g, n, end);
            f.size == 0 && f.begin == end && f.batches != []
  {
  }

  lemma AllGiven(g: Gen, u: Update, counts: seq<nat>)
    requires Inv(g, u, counts, Sum(counts)) && g.begin == ShapeEdgeId(u.first + |counts|, 0) && g.batches != []
    ensures Complete(u, g.max, counts, g.batches)
  {
    hide BatchesFit, AreMaxima, Sum, Done;
    assert counts[..|counts|] == counts;
  }

  lemma SpaceLeft(g: Gen, u: Update, counts: seq<nat>, given: nat)
    requires Inv(g, u, counts, given)
    ensures g.index < |g.max| && g.size <= g.max[g.index]
  {
  }

  // The batches are all of the update.
  ghost predicate Complete(u: Update, max: seq<nat>, counts: seq<nat>, batches: seq<Batch>)
  {
    && batches != [] && Done(batches) == u.removed + Sum(counts)
    && AreMaxima(u, max)
    && BatchesFit(u, max, counts, batches, ShapeEdgeId(u.first + |counts|, 0))
  }

  lemma EndPosition(g: Gen, u: Update, counts: seq<nat>)
    requires Ready(g, u, counts)
    ensures CanFinish(g, u, counts, Sum(counts), 0, ShapeEdgeId(u.first + |counts|, 0))
  {
    hide BatchesFit, AreMaxima, Sum, Done;
    assert counts[..|counts|] == counts;
  }

  // ----- every edge once -----

  predicate Holds(b: Batch, id: ShapeEdgeId)
  {
    !Before(id, b.begin) && Before(id, b.end)
  }

  lemma {:induction false} LaterStarts(u: Update, max: seq<nat>, counts: seq<nat>, batches: seq<Batch>, next: ShapeEdgeId,
                                      i: nat, j: nat)
    requires BatchesFit(u, max, counts, batches, next) && i < j < |batches|
    ensures !Before(batches[j].begin, batches[i].end)
  {
    hide Pos, IsId, Done, StaysInShape;
    assert BatchFits(u, max, counts, batches, next, i) && BatchFits(u, max, counts, batches, next, j - 1);
    if i + 1 < j {
      LaterStarts(u, max, counts, batches, next, i, j - 1);
    }
  }

  // Some batch up to the k-th holds an id that comes before its end.
  lemma {:induction false} SomeHolds(u: Update, max: seq<nat>, counts: seq<nat>, batches: seq<Batch>, next: ShapeEdgeId,
                                    id: ShapeEdgeId, k: nat)
    returns (found: nat)
    requires BatchesFit(u, max, counts, batches, next) && k < |batches|
    requires u.first <= id.shape && Before(id, batches[k].end)
    ensures found <= k && Holds(batches[found], id)
  {
    hide Pos, IsId, Done, StaysInShape;
    assert BatchFits(u, max, counts, batches, next, k);
    if !Before(id, batches[k].begin) {
      found := k;
    } else {
      found := SomeHolds(u, max, counts, batches, next, id, k - 1);
    }
  }

  // Each id of a shape lies in exactly one batch, so a shape without edges is
  // reached once as well.
  lemma InExactlyOne(u: Update, max: seq<nat>, counts: seq<nat>, batches: seq<Batch>, id: ShapeEdgeId) returns (k: nat)
    requires Complete(u, max, counts, batches) && u.first <= id.shape < u.first + |counts|
    ensures k < |batches|
    ensures forall j :: 0 <= j < |batches| ==> (Holds(batches[j], id) <==> j == k)
  {
    hide Pos, IsId, Done, StaysInShape, AreMaxima, Sum;
    var next := ShapeEdgeId(u.first + |counts|, 0);
    assert BatchFits(u, max, counts, batches, next, |batches| - 1);
    k := SomeHolds(u, max, counts, batches, next, id, |batches| - 1);
    forall j | 0 <= j < |batches| && j != k
      ensures !Holds(batches[j], id)
    {
      hide BatchesFit;
      if j < k {
        LaterStarts(u, max, counts, batches, next, j, k);
      } else {
        LaterStarts(u, max, counts, batches, next, k, j);
      }
    }
  }

  // When the update calls FinishPartialShape.
  predicate FinishesShape(b: Batch)
  {
    b.begin.edge > 0 && b.end.edge == 0
  }

  lemma {:induction false} SomeFinishes(u: Update, max: seq<nat>, counts: seq<nat>, batches: seq<Batch>, k: nat) returns (t: nat)
    requires Complete(u, max, counts, batches) && k < |batches| && batches[k].begin.edge > 0
    ensures k <= t < |batches| && FinishesShape(batches[t]) && batches[t].begin.shape == batches[k].begin.shape
    ensures batches[t].end.shape == batches[t].begin.shape + 1
    decreases |batches| - k
  {
    hide Pos, IsId, Done, AreMaxima, Sum;
    assert BatchFits(u, max, counts, batches, ShapeEdgeId(u.first + |counts|, 0), k);
    if batches[k].end.edge == 0 {
      t := k;
    } else {
      assert BatchFits(u, max, counts, batches, ShapeEdgeId(u.first + |counts|, 0), k + 1);
      t := SomeFinishes(u, max, counts, batches, k + 1);
    }
  }

  // A shape that is split over batches is finished exactly once, by the batch
  // that has the last of its edges.
  lemma FinishedOnce(u: Update, max: seq<nat>, counts: seq<nat>, batches: seq<Batch>, k: nat) returns (t: nat)
    requires Complete(u, max, counts, batches) && k < |batches| && batches[k].begin.edge > 0
    ensures k <= t < |batches| && batches[t].end == ShapeEdgeId(batches[k].begin.shape + 1, 0)
    ensures forall j :: 0 <= j < |batches| ==>
              (FinishesShape(batches[j]) && batches[j].begin.shape == batches[k].begin.shape <==> j == t)
  {
    hide Pos, IsId, Done, AreMaxima, Sum, BatchFits;
    t := SomeFinishes(u, max, counts, batches, k);
    forall j | 0 <= j < |batches| && FinishesShape(batches[j]) && batches[j].begin.shape == batches[k].begin.shape
      ensures j == t
    {
      var x := SomeFinishes(u, max, counts, batches, j);
      OnlyOneEnds(u, max, counts, batches, j, t);
    }
  }

  lemma OnlyOneEnds(u: Update, max: seq<nat>, counts: seq<nat>, batches: seq<Batch>, i: nat, j: nat)
    requires Complete(u, max, counts, batches) && i < |batches| && j < |batches|
    requires FinishesShape(batches[i]) && FinishesShape(batches[j]) && batches[i].begin.shape == batches[j].begin.shape
    ensures i == j
  {
    hide Pos, IsId, Done, AreMaxima, Sum;
    var next := ShapeEdgeId(u.first + |counts|, 0);
    assert BatchFits(u, max, counts, batches, next, i) && BatchFits(u, max, counts, batches, next, j);
    hide BatchFits, BatchesFit;
    if i < j {
      LaterStarts(u, max, counts, batches, next, i, j);
    } else if j < i {
      LaterStarts(u, max, counts, batches, next, j, i);
    }
  }

  // ----- the update -----

  // A shape id is in use, or its shape has been removed before it was added.
  datatype Slot = Removed | Shape(numEdges: nat)

  function Counts(slots: seq<Slot>): (r: seq<nat>)
    ensures |r| == |slots|
    ensures forall i :: 0 <= i < |slots| ==> r[i] == (if slots[i].Shape? then slots[i].numEdges else 0)
  {
    seq(|slots|, i requires 0 <= i < |slots| => if slots[i].Shape? then slots[i].numEdges else 0)
  }

  lemma CountsStep(slots: seq<Slot>, n: nat)
    requires n < |slots|
    ensures Sum(Counts(slots[..n + 1])) == Sum(Counts(slots[..n])) + (if slots[n].Shape? then slots[n].numEdges else 0)
  {
    var c := Counts(slots[..n + 1]);
    assert c[..|c| - 1] == Counts(slots[..n]);
  }

  // The shapes announced so far are those of the first m slots, and the next ones
  // up to n are not in use.
  ghost predicate Seen(slots: seq<Slot>, counts: seq<nat>, m: nat, n: nat)
  {
    && m <= n <= |slots| && counts == Counts(slots[..m])
    && (forall i :: m <= i < n ==> slots[i].Removed?)
  }

  lemma SeenStep(slots: seq<Slot>, counts: seq<nat>, m: nat, n: nat)
    requires Seen(slots, counts, m, n) && n < |slots|
    ensures slots[n].Removed? ==> Seen(slots, counts, m, n + 1)
    ensures slots[n].Shape? ==> Seen(slots, Announce(counts, n - m, slots[n].numEdges), n + 1, n + 1)
  {
    if slots[n].Shape? {
      assert Announce(counts, n - m, slots[n].numEdges) == Counts(slots[..n + 1]);
    }
  }

  lemma {:induction false} SeenSum(slots: seq<Slot>, counts: seq<nat>, m: nat, n: nat)
    requires Seen(slots, counts, m, n)
    ensures Sum(counts) == Sum(Counts(slots[..n]))
    decreases n - m
  {
    if m < n {
      CountsStep(slots, n - 1);
      SeenSum(slots, counts, m, n - 1);
    }
  }

  lemma {:induction false} CountsMono(slots: seq<Slot>, n: nat)
    requires n <= |slots|
    ensures Sum(Counts(slots[..n])) <= Sum(Counts(slots))
    decreases |slots| - n
  {
    if n < |slots| {
      CountsStep(slots, n);
      CountsMono(slots, n + 1);
    } else {
      assert slots[..n] == slots;
    }
  }

  // The batches of an update cover the shapes up to the last one in use; "slots"
  // are the shape ids from "first" on.
  method GetUpdateBatches(removed: nat, first: nat, slots: seq<Slot>, budget: real)
    returns (batches: seq<Batch>, ghost max: seq<nat>, ghost m: nat)
    requires budget >= 0.0
    ensures m <= |slots| && forall i :: m <= i < |slots| ==> slots[i].Removed?
    ensures Complete(Update(removed, Sum(Counts(slots)), first), max, Counts(slots[..m]), batches)
    ensures AreMaximaFor(Update(removed, Sum(Counts(slots)), first), budget, max)
    ensures Done(batches) == removed + Sum(Counts(slots))
  {
    hide Complete, Announce, Sum, Counts, AreMaximaFor;
    var added := CountAdded(slots);
    var gen := new Generator(removed, added, first, budget);
    m := 0;
    assert slots[..0] == [];
    for id := 0 to |slots|
      invariant gen.Valid() && gen.update == Update(removed, added, first) && fresh(gen)
      invariant Seen(slots, gen.counts, m, id)
    {
      SeenStep(slots, gen.counts, m, id);
      if slots[id].Shape? {
        SeenSum(slots, gen.counts, m, id);
        CountsStep(slots, id);
        CountsMono(slots, id + 1);
        gen.AddShape(first + id, slots[id].numEdges);
        m := id + 1;
      }
    }
    SeenSum(slots, gen.counts, m, |slots|);
    assert slots[..|slots|] == slots;
    max := gen.maxBatchSizes;
    batches := gen.Finish();
    SizesSum(gen.update, max, gen.counts, batches);
  }

  lemma SizesSum(u: Update, max: seq<nat>, counts: seq<nat>, batches: seq<Batch>)
    requires Complete(u, max, counts, batches)
    ensures Done(batches) == u.removed + Sum(counts)
  {
  }

  method CountAdded(slots: seq<Slot>) returns (added: nat)
    ensures added == Sum(Counts(slots))
  {
    added := 0;
    for id := 0 to |slots|
      invariant added == Sum(Counts(slots[..id]))
    {
      CountsStep(slots, id);
      if slots[id].Shape? {
        added := added + slots[id].numEdges;
      }
    }
    assert slots[..|slots|] == slots;
  }

  // ----- memory -----

  lemma {:induction false} DoneUpTo(batches: seq<Batch>, k: nat)
    requires k < |batches|
    ensures Done(batches[..k]) + batches[k].numEdges <= Done(batches)
  {
    if k == |batches| - 1 {
    } else {
      DoneUpTo(batches[..|batches| - 1], k);
      assert batches[..|batches| - 1][..k] == batches[..k];
    }
  }

  // What a batch needs: its own edges, and the edges added by the batches before
  // it in their final form.
  function Bytes(u: Update, batches: seq<Batch>, k: nat): int
    requires k < |batches|
  {
    FINAL_BYTES_PER_EDGE * (Done(batches[..k]) - if k == 0 then 0 else u.removed)
    + TMP_BYTES_PER_EDGE * batches[k].numEdges
  }

  // The maximum in force for a batch.
  lemma BatchAt(u: Update, max: seq<nat>, counts: seq<nat>, batches: seq<Batch>, k: nat) returns (i: nat)
    requires Complete(u, max, counts, batches) && k < |batches|
    ensures i < |max| && Done(batches[..k]) <= Prefix(max, i) && (i > 0 ==> Prefix(max, i - 1) < Done(batches[..k]))
    ensures batches[k].numEdges <= max[i]
    ensures Done(batches[..k]) + batches[k].numEdges <= u.removed + Sum(counts)
  {
    hide Sum, Prefix, IsId, Pos;
    i := IndexFor(max, Done(batches[..k]), 0);
    assert BatchFits(u, max, counts, batches, ShapeEdgeId(u.first + |counts|, 0), k);
    DoneUpTo(batches, k);
  }

  lemma Within(t: nat, size: nat, prefix: nat, last: nat)
    requires (t <= prefix && size <= last) || (prefix <= t && t + size <= prefix + last)
    ensures FINAL_BYTES_PER_EDGE * t + TMP_BYTES_PER_EDGE * size
            <= FINAL_BYTES_PER_EDGE * prefix + TMP_BYTES_PER_EDGE * last
  {
  }

  // A batch needs no more than the size that applies to it and all before it; the
  // repeated maximum is never used up.
  lemma BatchWithin(u: Update, max: seq<nat>, counts: seq<nat>, batches: seq<Batch>, k: nat) returns (j: nat)
    requires Complete(u, max, counts, batches) && k < |batches| && Sum(counts) <= u.added
    ensures j <= |max| - 2 && (j == 0 ==> |max| == 2 || Done(batches[..k]) == 0)
    ensures FINAL_BYTES_PER_EDGE * Done(batches[..k]) + TMP_BYTES_PER_EDGE * batches[k].numEdges
            <= FINAL_BYTES_PER_EDGE * Prefix(max, j) + TMP_BYTES_PER_EDGE * max[j]
  {
    hide Sum, Done, Prefix, BatchesFit;
    var i := BatchAt(u, max, counts, batches, k);
    j := if i < |max| - 1 then i else |max| - 2;
    PrefixStep(max, |max| - 2);
    PrefixZero(max);
    Within(Done(batches[..k]), batches[k].numEdges, Prefix(max, j), max[j]);
  }

  lemma {:induction false} DoneFrom(batches: seq<Batch>, k: nat)
    requires 0 < k <= |batches|
    ensures Done(batches[..k]) >= batches[0].numEdges
  {
    if k > 1 {
      DoneFrom(batches, k - 1);
      assert batches[..k][..k - 1] == batches[..k - 1];
    } else {
      assert batches[..1][..0] == [];
    }
  }

  // The removed edges are in the first batch.
  lemma RemovedFirst(u: Update, max: seq<nat>, counts: seq<nat>, batches: seq<Batch>, k: nat)
    requires Complete(u, max, counts, batches) && 0 < k < |batches|
    ensures Done(batches[..k]) >= u.removed
  {
    hide Sum, Done, AreMaxima, IsId, IndexFor;
    var next := ShapeEdgeId(u.first + |counts|, 0);
    assert BatchFits(u, max, counts, batches, next, 0);
    PosMono(u, counts, batches[0].begin, batches[0].end);
    DoneFrom(batches, k);
  }

  lemma PosMono(u: Update, counts: seq<nat>, x: ShapeEdgeId, y: ShapeEdgeId)
    requires IsId(u, counts, x) && IsId(u, counts, y) && (x == y || Before(x, y))
    ensures Pos(u, counts, x) <= Pos(u, counts, y)
  {
    if x.shape < y.shape {
      PrefixStep(counts, x.shape - u.first);
      PrefixMono(counts, x.shape - u.first + 1, y.shape - u.first);
    }
  }

  // Each batch keeps to the memory that is meant for it: the final size of all
  // added edges and the budget, or what 100 batches take; except for a first
  // batch with more removed edges than that, and up to rounding.
  lemma BatchMemory(u: Update, budget: real, max: seq<nat>, counts: seq<nat>, batches: seq<Batch>, k: nat)
    requires budget >= 0.0 && AreMaximaFor(u, budget, max) && Complete(u, max, counts, batches) && Sum(counts) <= u.added
    requires k < |batches| && (k > 0 || u.removed as real <= Ideal(u.added, budget))
    ensures FitsAtOnce(u.removed, u.added, budget) ==> (TMP_BYTES_PER_EDGE * Done(batches)) as real <= budget
    ensures !FitsAtOnce(u.removed, u.added, budget) ==>
              Bytes(u, batches, k) as real
              <= TotalBudget(u.added, budget) + (FINAL_BYTES_PER_EDGE * |max| + TMP_BYTES_PER_EDGE) as real
  {
    hide Sum, Sizes, SizeAt, TotalBudget, JustCover, Done, BatchesFit, Prefix, AreMaxima;
    if !FitsAtOnce(u.removed, u.added, budget) {
      var ideal := Ideal(u.added, budget);
      var j := BatchWithin(u, max, counts, batches, k);
      if u.removed as real <= ideal {
        SharedSize(u, budget, max, j);
      } else {
        RemovedFirst(u, max, counts, batches, k);
        if j > 0 {
          OwnSize(u, budget, max, j);
        } else {
          OwnAlone(u, budget, max);
          var _ := BatchAt(u, max, counts, batches, k);
        }
      }
    }
  }

  lemma PrefixOfMax(max: seq<nat>, j: nat)
    requires |max| >= 2 && j <= |max| - 2
    ensures Prefix(max, j) == Prefix(max[..|max| - 1], j) && max[j] == max[..|max| - 1][j]
  {
    assert max[..|max| - 1][..j] == max[..j];
  }

  // The sizes up to number j, if the removed edges are part of the first.
  lemma SharedSize(u: Update, budget: real, max: seq<nat>, j: nat)
    requires budget >= 0.0 && AreMaximaFor(u, budget, max) && j <= |max| - 2
    requires !FitsAtOnce(u.removed, u.added, budget) && u.removed as real <= Ideal(u.added, budget)
    ensures (FINAL_BYTES_PER_EDGE * Prefix(max, j) + TMP_BYTES_PER_EDGE * max[j]) as real
            <= TotalBudget(u.added, budget) + (FINAL_BYTES_PER_EDGE * j + TMP_BYTES_PER_EDGE) as real
  {
    hide Sum, Sizes, SizeAt, TotalBudget, JustCover, Prefix;
    var ideal, n := Ideal(u.added, budget), |max| - 1;
    PrefixOfMax(max, j);
    SizesAfter([], ideal, n, j);
    assert [] + Sizes(ideal, n) == max[..n];
    SumOfNone();
    MemoryOfBatch(ideal, j);
  }

  // And if they are a batch of their own.
  lemma OwnSize(u: Update, budget: real, max: seq<nat>, j: nat)
    requires budget >= 0.0 && AreMaximaFor(u, budget, max) && 0 < j <= |max| - 2
    requires !FitsAtOnce(u.removed, u.added, budget) && u.removed as real > Ideal(u.added, budget)
    ensures (FINAL_BYTES_PER_EDGE * (Prefix(max, j) - u.removed) + TMP_BYTES_PER_EDGE * max[j]) as real
            <= TotalBudget(u.added, budget) + (FINAL_BYTES_PER_EDGE * j + TMP_BYTES_PER_EDGE) as real
  {
    hide Sum, Sizes, SizeAt, TotalBudget, JustCover, Prefix;
    var ideal, n := Ideal(u.added, budget), |max| - 1;
    PrefixOfMax(max, j);
    SizesAfter([u.removed], ideal, n - 1, j);
    PrefixAppend([], u.removed);
    SumOfNone();
    assert [] + [u.removed] == [u.removed];
    MemoryOfBatch(ideal, j - 1);
  }

  // A batch of removed edges is alone only if nothing is added.
  lemma OwnAlone(u: Update, budget: real, max: seq<nat>)
    requires budget >= 0.0 && AreMaximaFor(u, budget, max) && |max| == 2
    requires !FitsAtOnce(u.removed, u.added, budget) && u.removed as real > Ideal(u.added, budget)
    ensures u.added == 0
  {
    hide Sum, SizeAt, TotalBudget;
    SizesOfNone(Ideal(u.added, budget));
  }

  // ----- one batch -----

  // The edges of a shape from begin up to end.
  datatype Piece = Piece(shape: nat, begin: nat, end: nat)

  ghost predicate Adds(pieces: seq<Piece>, shape: nat, edge: nat)
  {
    exists i :: 0 <= i < |pieces| && pieces[i].shape == shape && pieces[i].begin <= edge < pieces[i].end
  }

  ghost predicate Starts(pieces: seq<Piece>, shape: nat)
  {
    exists i :: 0 <= i < |pieces| && pieces[i].shape == shape && pieces[i].begin == 0
  }

  // The loop that adds the shapes of a batch, up to the shape "next".
  ghost predicate AddsBatch(first: nat, slots: seq<Slot>, b: Batch, pieces: seq<Piece>, next: nat)
  {
    && (forall i, j :: 0 <= i < j < |pieces| ==> pieces[i].shape < pieces[j].shape)
    && (forall i :: 0 <= i < |pieces| ==> InUse(first, slots, pieces[i].shape) && pieces[i].shape < next)
    && (forall s: nat, e: nat :: InUse(first, slots, s) && e < slots[s - first].numEdges && s < next ==>
          (Adds(pieces, s, e) <==> Holds(b, ShapeEdgeId(s, e))))
    && (forall s: nat :: InUse(first, slots, s) && s < next ==> (Starts(pieces, s) <==> Holds(b, ShapeEdgeId(s, 0))))
  }

  predicate InUse(first: nat, slots: seq<Slot>, shape: nat)
  {
    first <= shape < first + |slots| && slots[shape - first].Shape?
  }

  lemma AddsAppend(pieces: seq<Piece>, p: Piece, shape: nat, edge: nat)
    ensures Adds(pieces + [p], shape, edge) <==> Adds(pieces, shape, edge) || (p.shape == shape && p.begin <= edge < p.end)
    ensures Starts(pieces + [p], shape) <==> Starts(pieces, shape) || (p.shape == shape && p.begin == 0)
  {
    var all := pieces + [p];
    assert all[|pieces|] == p;
    forall i | 0 <= i < |pieces|
      ensures all[i] == pieces[i]
    {
    }
  }

  lemma PieceAdded(first: nat, slots: seq<Slot>, b: Batch, pieces: seq<Piece>, begin: ShapeEdgeId, p: Piece)
    requires AddsBatch(first, slots, b, pieces, begin.shape) && Before(begin, b.end) && InUse(first, slots, begin.shape)
    requires begin == b.begin || (begin.edge == 0 && begin.shape > b.begin.shape)
    requires p.shape == begin.shape && p.begin == begin.edge
    requires p.end == if begin.shape == b.end.shape then b.end.edge else slots[begin.shape - first].numEdges
    ensures AddsBatch(first, slots, b, pieces + [p], begin.shape + 1)
  {
    forall s: nat, e: nat | InUse(first, slots, s) && e < slots[s - first].numEdges && s < begin.shape + 1
      ensures Adds(pieces + [p], s, e) <==> Holds(b, ShapeEdgeId(s, e))
    {
      AddsAppend(pieces, p, s, e);
    }
    forall s: nat | InUse(first, slots, s) && s < begin.shape + 1
      ensures Starts(pieces + [p], s) <==> Holds(b, ShapeEdgeId(s, 0))
    {
      AddsAppend(pieces, p, s, 0);
    }
  }

  lemma NothingMore(first: nat, slots: seq<Slot>, b: Batch, pieces: seq<Piece>, begin: ShapeEdgeId)
    requires AddsBatch(first, slots, b, pieces, begin.shape) && !Before(begin, b.end)
    requires begin == b.begin || (begin.edge == 0 && begin.shape > b.begin.shape)
    ensures AddsBatch(first, slots, b, pieces, first + |slots|)
  {
    forall s: nat, e: nat | s >= begin.shape
      ensures !Adds(pieces, s, e) || !InUse(first, slots, s)
      ensures !Holds(b, ShapeEdgeId(s, e))
    {
    }
  }

  // A shape is added in at most one piece, which has just the edges that the batch
  // holds.
  method AddBatch(first: nat, slots: seq<Slot>, batch: Batch) returns (pieces: seq<Piece>)
    requires first <= batch.begin.shape && IsId(Update(0, 0, first), Counts(slots), batch.end)
    ensures AddsBatch(first, slots, batch, pieces, first + |slots|)
  {
    var begin := batch.begin;
    pieces := [];
    while Before(begin, batch.end)
      invariant begin.shape >= first
      invariant begin == batch.begin || (begin.edge == 0 && begin.shape > batch.begin.shape)
      invariant AddsBatch(first, slots, batch, pieces, begin.shape)
      decreases batch.end.shape + 1 - begin.shape
    {
      var slot := slots[begin.shape - first];
      if slot.Shape? {
        var edgesEnd := if begin.shape == batch.end.shape then batch.end.edge else slot.numEdges;
        PieceAdded(first, slots, batch, pieces, begin, Piece(begin.shape, begin.edge, edgesEnd));
        pieces := pieces + [Piece(begin.shape, begin.edge, edgesEnd)];
      }
      begin := ShapeEdgeId(begin.shape + 1, 0);
    }
    NothingMore(first, slots, batch, pieces, begin);
  }

  // Over the whole update, every edge of a shape in use is added exactly once.
  lemma EdgeAddedOnce(u: Update, max: seq<nat>, slots: seq<Slot>, m: nat, batches: seq<Batch>, added: seq<seq<Piece>>,
                      id: ShapeEdgeId)
    returns (k: nat)
    requires m <= |slots| && (forall i :: m <= i < |slots| ==> slots[i].Removed?)
    requires Complete(u, max, Counts(slots[..m]), batches) && |added| == |batches|
    requires forall k :: 0 <= k < |added| ==> AddsBatch(u.first, slots, batches[k], added[k], u.first + |slots|)
    requires InUse(u.first, slots, id.shape) && id.edge < slots[id.shape - u.first].numEdges
    ensures k < |added|
    ensures forall j :: 0 <= j < |added| ==> (Adds(added[j], id.shape, id.edge) <==> j == k)
  {
    hide Complete;
    k := InExactlyOne(u, max, Counts(slots[..m]), batches, id);
    forall j | 0 <= j < |added|
      ensures Adds(added[j], id.shape, id.edge) <==> Holds(batches[j], id)
    {
      assert AddsBatch(u.first, slots, batches[j], added[j], u.first + |slots|);
      assert id == ShapeEdgeId(id.shape, id.edge);
    }
  }
}
