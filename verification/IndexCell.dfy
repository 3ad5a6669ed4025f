/**
 The cells of MutableS2ShapeIndex: tracking which shapes contain the current
 point, and merging them with the shapes that have edges in a cell.
 */
module IndexCells {
  import opened Common

  datatype ClippedEdge = ClippedEdge(shapeId: nat, edgeId: nat, hasInterior: bool, maxLevel: int)

  // A shape in a cell: its edges there, and whether it contains the cell center.
  datatype ClippedShape = ClippedShape(shapeId: nat, edges: seq<nat>, containsCenter: bool)

  predicate Increasing(ids: seq<nat>)
  {
    forall i, j :: 0 <= i < j < |ids| ==> ids[i] < ids[j]
  }

  function Ids(ids: seq<nat>): set<nat>
  {
    set id | id in ids
  }

  // ----- the tracker -----

  function Toggle(ids: set<nat>, id: nat): set<nat>
  {
    if id in ids then ids - {id} else ids + {id}
  }

  lemma InsertKeeps(ids: seq<nat>, pos: nat, id: nat)
    requires Increasing(ids) && pos <= |ids|
    requires (forall i :: 0 <= i < pos ==> ids[i] < id) && (forall i :: pos <= i < |ids| ==> id < ids[i])
    ensures Increasing(ids[..pos] + [id] + ids[pos..]) && Ids(ids[..pos] + [id] + ids[pos..]) == Toggle(Ids(ids), id)
  {
    var r := ids[..pos] + [id] + ids[pos..];
    forall x
      ensures x in r <==> x in ids || x == id
    {
      assert ids == ids[..pos] + ids[pos..];
    }
    assert id !in ids;
  }

  lemma EraseKeeps(ids: seq<nat>, pos: nat)
    requires Increasing(ids) && pos < |ids|
    ensures Increasing(ids[..pos] + ids[pos + 1..]) && Ids(ids[..pos] + ids[pos + 1..]) == Toggle(Ids(ids), ids[pos])
  {
    var r := ids[..pos] + ids[pos + 1..];
    forall x
      ensures x in r <==> x in ids && x != ids[pos]
    {
      assert ids == ids[..pos] + [ids[pos]] + ids[pos + 1..];
    }
  }

  // The edges that cross, in order; only shapes with an interior are tracked.
  function ToggleAll(ids: set<nat>, edges: seq<ClippedEdge>, crosses: seq<bool>): set<nat>
    requires |crosses| == |edges|
  {
    if edges == [] then ids
    else
      var n := |edges| - 1;
      var before := ToggleAll(ids, edges[..n], crosses[..n]);
      if edges[n].hasInterior && crosses[n] then Toggle(before, edges[n].shapeId) else before
  }

  // How often a shape is crossed.
  function Crossings(edges: seq<ClippedEdge>, crosses: seq<bool>, id: nat): nat
    requires |crosses| == |edges|
  {
    if edges == [] then 0
    else
      var n := |edges| - 1;
      Crossings(edges[..n], crosses[..n], id) + if edges[n].shapeId == id && edges[n].hasInterior && crosses[n] then 1 else 0
  }

  // A shape changes sides if it is crossed an odd number of times.
  lemma {:induction false} ToggledByParity(ids: set<nat>, edges: seq<ClippedEdge>, crosses: seq<bool>, id: nat)
    requires |crosses| == |edges|
    ensures id in ToggleAll(ids, edges, crosses) <==> (id in ids) == (Crossings(edges, crosses, id) % 2 == 0)
  {
    if edges != [] {
      var n := |edges| - 1;
      ToggledByParity(ids, edges[..n], crosses[..n], id);
    }
  }

  class InteriorTracker {
    var isActive: bool
    var shapeIds: seq<nat>
    var savedIds: seq<nat>
    var savedIsActive: bool

    predicate Valid()
      reads `shapeIds
    {
      Increasing(shapeIds)
    }

    constructor ()
      ensures Valid() && shapeIds == [] && savedIds == [] && !isActive
    {
      isActive, shapeIds, savedIds, savedIsActive := false, [], [], false;
    }

    method AddShape(shapeId: nat, containsFocus: bool)
      requires Valid()
      modifies `isActive, `shapeIds
      ensures Valid() && isActive
      ensures Ids(shapeIds) == if containsFocus then Toggle(old(Ids(shapeIds)), shapeId) else old(Ids(shapeIds))
    {
      isActive := true;
      if containsFocus {
        ToggleShape(shapeId);
      }
    }

    method ToggleShape(shapeId: nat)
      requires Valid()
      modifies `shapeIds
      ensures Valid() && Ids(shapeIds) == Toggle(old(Ids(shapeIds)), shapeId)
    {
      hide Ids, Toggle;
      ghost var was := shapeIds;
      if shapeIds == [] {
        InsertKeeps(was, 0, shapeId);
        assert was[..0] + [shapeId] + was[0..] == was + [shapeId];
        shapeIds := shapeIds + [shapeId];
      } else if shapeIds[0] == shapeId {
        EraseKeeps(was, 0);
        assert was[..0] + was[1..] == was[1..];
        shapeIds := shapeIds[1..];
      } else {
        var pos := 0;
        while shapeIds[pos] < shapeId
          invariant 0 <= pos < |shapeIds| && shapeIds == was
          invariant forall i :: 0 <= i < pos ==> was[i] < shapeId
        {
          pos := pos + 1;
          if pos == |shapeIds| {
            InsertKeeps(was, pos, shapeId);
            assert was[..pos] + [shapeId] + was[pos..] == was + [shapeId];
            shapeIds := shapeIds + [shapeId];
            return;
          }
        }
        if shapeIds[pos] == shapeId {
          EraseKeeps(was, pos);
          shapeIds := shapeIds[..pos] + shapeIds[pos + 1..];
        } else {
          InsertKeeps(was, pos, shapeId);
          shapeIds := shapeIds[..pos] + [shapeId] + shapeIds[pos..];
        }
      }
    }

    // "crosses" says which edges cross the line to the new focus.
    method TestAllEdges(edges: seq<ClippedEdge>, crosses: seq<bool>)
      requires Valid() && |crosses| == |edges|
      modifies `shapeIds
      ensures Valid() && Ids(shapeIds) == ToggleAll(old(Ids(shapeIds)), edges, crosses)
    {
      for i := 0 to |edges|
        invariant Valid() && Ids(shapeIds) == ToggleAll(old(Ids(shapeIds)), edges[..i], crosses[..i])
      {
        assert edges[..i + 1][..i] == edges[..i] && crosses[..i + 1][..i] == crosses[..i];
        if edges[i].hasInterior && crosses[i] {
          ToggleShape(edges[i].shapeId);
        }
      }
      assert edges[..|edges|] == edges && crosses[..|edges|] == crosses;
    }

    // The position of the first id that is not below.
    method LowerBound(shapeId: nat) returns (pos: nat)
      requires Valid()
      ensures pos <= |shapeIds|
      ensures forall i :: 0 <= i < |shapeIds| ==> (shapeIds[i] < shapeId <==> i < pos)
    {
      pos := 0;
      while pos != |shapeIds| && shapeIds[pos] < shapeId
        invariant pos <= |shapeIds| && forall i :: 0 <= i < pos ==> shapeIds[i] < shapeId
      {
        pos := pos + 1;
      }
    }

    method SaveAndClearStateBefore(limit: nat)
      requires Valid() && savedIds == []
      modifies this
      ensures Valid() && Increasing(savedIds)
      ensures shapeIds == Above(old(shapeIds), limit) && savedIds == Below(old(shapeIds), limit)
      ensures isActive == old(isActive) && savedIsActive == old(isActive)
    {
      var pos := LowerBound(limit);
      SplitAt(shapeIds, limit, pos);
      savedIds := shapeIds[..pos];
      shapeIds := shapeIds[pos..];
      savedIsActive := isActive;
    }

    // Only the ids from the limit on keep what has happened since.
    method RestoreStateBefore(limit: nat)
      requires Valid() && Increasing(savedIds) && forall id :: id in savedIds ==> id < limit
      modifies this
      ensures Valid() && shapeIds == old(savedIds) + Above(old(shapeIds), limit)
      ensures savedIds == [] && isActive == old(savedIsActive)
    {
      var pos := LowerBound(limit);
      SplitAt(shapeIds, limit, pos);
      JoinKeeps(savedIds, shapeIds[pos..], limit);
      shapeIds := savedIds + shapeIds[pos..];
      savedIds := [];
      isActive := savedIsActive;
    }
  }

  lemma JoinKeeps(below: seq<nat>, above: seq<nat>, limit: nat)
    requires Increasing(below) && Increasing(above)
    requires (forall id :: id in below ==> id < limit) && (forall i :: 0 <= i < |above| ==> limit <= above[i])
    ensures Increasing(below + above)
  {
    assert forall i :: 0 <= i < |below| ==> below[i] in below;
  }

  function Below(ids: seq<nat>, limit: nat): (r: seq<nat>)
    ensures forall id :: id in r <==> id in ids && id < limit
  {
    if ids == [] then []
    else if ids[0] < limit then [ids[0]] + Below(ids[1..], limit) else Below(ids[1..], limit)
  }

  function Above(ids: seq<nat>, limit: nat): (r: seq<nat>)
    ensures forall id :: id in r <==> id in ids && id >= limit
  {
    if ids == [] then []
    else if ids[0] >= limit then [ids[0]] + Above(ids[1..], limit) else Above(ids[1..], limit)
  }

  lemma {:induction false} SplitAt(ids: seq<nat>, limit: nat, pos: nat)
    requires pos <= |ids| && forall i :: 0 <= i < |ids| ==> (ids[i] < limit <==> i < pos)
    ensures ids[..pos] == Below(ids, limit) && ids[pos..] == Above(ids, limit)
  {
    if ids != [] {
      SplitAt(ids[1..], limit, if pos == 0 then 0 else pos - 1);
      if pos > 0 {
        assert ids[..pos] == [ids[0]] + ids[1..][..pos - 1];
        assert ids[pos..] == ids[1..][pos - 1..];
      } else {
        assert ids[0..] == [ids[0]] + ids[1..][0..];
      }
    }
  }

  // ----- merging -----

  predicate SortedByShape(edges: seq<ClippedEdge>)
  {
    forall i, j :: 0 <= i <= j < |edges| ==> edges[i].shapeId <= edges[j].shapeId
  }

  function EdgeShapes(edges: seq<ClippedEdge>): set<nat>
  {
    set i | 0 <= i < |edges| :: edges[i].shapeId
  }

  // The shapes that belong into the cell.
  function AllShapes(edges: seq<ClippedEdge>, ids: seq<nat>): set<nat>
  {
    EdgeShapes(edges) + Ids(ids)
  }

  // The edges of one shape.
  function EdgesOf(edges: seq<ClippedEdge>, id: nat): seq<nat>
  {
    if edges == [] then []
    else
      var n := |edges| - 1;
      EdgesOf(edges[..n], id) + if edges[n].shapeId == id then [edges[n].edgeId] else []
  }

  lemma ShapesStep(edges: seq<ClippedEdge>, k: nat)
    requires k < |edges|
    ensures EdgeShapes(edges[..k + 1]) == EdgeShapes(edges[..k]) + {edges[k].shapeId}
  {
    var s := edges[..k + 1];
    forall id
      ensures id in EdgeShapes(s) <==> id in EdgeShapes(edges[..k]) || id == edges[k].shapeId
    {
      if id in EdgeShapes(edges[..k]) {
        var i :| 0 <= i < k && edges[..k][i].shapeId == id;
        assert s[i].shapeId == id;
      }
      assert s[k].shapeId in EdgeShapes(s);
      if id in EdgeShapes(s) {
        var i :| 0 <= i < |s| && s[i].shapeId == id;
        assert i < k ==> edges[..k][i].shapeId == id;
      }
    }
  }

  lemma IdsStep(ids: seq<nat>, k: nat)
    requires k < |ids|
    ensures Ids(ids[..k + 1]) == Ids(ids[..k]) + {ids[k]}
  {
    assert ids[..k + 1] == ids[..k] + [ids[k]];
  }

  // The number of shapes among the first k edges and the first n ids.
  function NumShapes(edges: seq<ClippedEdge>, k: nat, ids: seq<nat>, n: nat): nat
    requires k <= |edges| && n <= |ids|
  {
    |AllShapes(edges[..k], ids[..n])|
  }

  lemma EdgeShapesUpTo(edges: seq<ClippedEdge>, k: nat)
    requires SortedByShape(edges) && k <= |edges|
    ensures forall id :: id in EdgeShapes(edges[..k]) ==> k > 0 && id <= edges[k - 1].shapeId
  {
  }

  // The next edge belongs to another shape than those before it.
  lemma NewShape(edges: seq<ClippedEdge>, ids: seq<nat>, k: nat, cnext: nat)
    requires SortedByShape(edges) && k < |edges| && cnext <= |ids|
    requires k > 0 ==> edges[k - 1].shapeId != edges[k].shapeId && UpTo(ids, cnext, edges[k - 1].shapeId)
    requires k == 0 ==> cnext == 0
    ensures NumShapes(edges, k + 1, ids, cnext) == NumShapes(edges, k, ids, cnext) + 1
  {
    var id := edges[k].shapeId;
    ShapesStep(edges, k);
    assert AllShapes(edges[..k + 1], ids[..cnext]) == AllShapes(edges[..k], ids[..cnext]) + {id};
    EdgeShapesUpTo(edges, k);
  }

  lemma SameShape(edges: seq<ClippedEdge>, ids: seq<nat>, k: nat, cnext: nat)
    requires 0 < k < |edges| && cnext <= |ids| && edges[k - 1].shapeId == edges[k].shapeId
    ensures NumShapes(edges, k + 1, ids, cnext) == NumShapes(edges, k, ids, cnext)
  {
    ShapesStep(edges, k);
    assert edges[k].shapeId == edges[..k][k - 1].shapeId;
    assert EdgeShapes(edges[..k + 1]) == EdgeShapes(edges[..k]);
  }

  // The next id is that of the shape of the k-th edge, or one without edges.
  lemma NewId(edges: seq<ClippedEdge>, ids: seq<nat>, k: nat, cnext: nat)
    requires SortedByShape(edges) && Increasing(ids) && k < |edges| && cnext < |ids| && ids[cnext] <= edges[k].shapeId
    requires k > 0 ==> From(ids, cnext, edges[k - 1].shapeId)
    ensures NumShapes(edges, k + 1, ids, cnext + 1)
            == NumShapes(edges, k + 1, ids, cnext) + if ids[cnext] < edges[k].shapeId then 1 else 0
  {
    var id := ids[cnext];
    ShapesStep(edges, k);
    IdsStep(ids, cnext);
    var s := AllShapes(edges[..k + 1], ids[..cnext]);
    assert AllShapes(edges[..k + 1], ids[..cnext + 1]) == s + {id};
    if id == edges[k].shapeId {
      assert s + {id} == s;
    } else {
      EdgeShapesUpTo(edges, k);
    }
  }

  lemma LaterId(edges: seq<ClippedEdge>, ids: seq<nat>, cnext: nat)
    requires SortedByShape(edges) && Increasing(ids) && cnext < |ids|
    requires edges != [] ==> ids[cnext] > edges[|edges| - 1].shapeId
    ensures NumShapes(edges, |edges|, ids, cnext + 1) == NumShapes(edges, |edges|, ids, cnext) + 1
  {
    IdsStep(ids, cnext);
    assert edges[..|edges|] == edges;
    var s := AllShapes(edges, ids[..cnext]);
    assert AllShapes(edges, ids[..cnext + 1]) == s + {ids[cnext]};
    EdgeShapesUpTo(edges, |edges|);
    hide EdgeShapes, SortedByShape;
  }

  lemma {:induction false} Remaining(edges: seq<ClippedEdge>, ids: seq<nat>, cnext: nat)
    requires SortedByShape(edges) && Increasing(ids) && cnext <= |ids|
    requires edges != [] ==> From(ids, cnext, edges[|edges| - 1].shapeId)
    ensures NumShapes(edges, |edges|, ids, |ids|) == NumShapes(edges, |edges|, ids, cnext) + |ids| - cnext
    decreases |ids| - cnext
  {
    hide NumShapes;
    if cnext < |ids| {
      Remaining(edges, ids, cnext + 1);
      LaterId(edges, ids, cnext);
    }
  }

  // The first n ids are at most x, and the others are above it.
  ghost predicate UpTo(ids: seq<nat>, n: nat, x: int)
    requires n <= |ids|
  {
    forall i :: 0 <= i < n ==> ids[i] <= x
  }

  ghost predicate From(ids: seq<nat>, n: nat, x: int)
    requires n <= |ids|
  {
    forall i :: n <= i < |ids| ==> ids[i] > x
  }

  lemma FromHere(ids: seq<nat>, n: nat, x: int)
    requires Increasing(ids) && n < |ids| && ids[n] > x
    ensures From(ids, n, x)
  {
  }

  lemma FromEnd(ids: seq<nat>, x: int)
    ensures From(ids, |ids|, x)
  {
  }

  lemma FromNext(ids: seq<nat>, n: nat, x: int)
    requires n < |ids| && From(ids, n, x)
    ensures From(ids, n + 1, x)
  {
  }

  lemma UpToNext(ids: seq<nat>, n: nat, x: int)
    requires n < |ids| && UpTo(ids, n, x) && ids[n] <= x
    ensures UpTo(ids, n + 1, x)
  {
  }

  lemma UpToLater(edges: seq<ClippedEdge>, ids: seq<nat>, k: nat, n: nat, x: int)
    requires SortedByShape(edges) && k < |edges| && n <= |ids| && UpTo(ids, n, x)
    requires x == if k == 0 then -1 else edges[k - 1].shapeId
    ensures UpTo(ids, n, edges[k].shapeId)
  {
  }

  lemma WholeRange(edges: seq<ClippedEdge>, ids: seq<nat>)
    ensures NumShapes(edges, 0, ids, 0) == 0 && NumShapes(edges, |edges|, ids, |ids|) == |AllShapes(edges, ids)|
    ensures UpTo(ids, 0, -1)
  {
    assert AllShapes(edges[..0], ids[..0]) == {};
    assert edges[..|edges|] == edges && ids[..|ids|] == ids;
  }

  // The number of shapes with edges in the cell or around its center.
  method CountShapes(edges: seq<ClippedEdge>, ids: seq<nat>) returns (count: nat)
    requires SortedByShape(edges) && Increasing(ids)
    ensures count == |AllShapes(edges, ids)|
  {
    hide *;
    WholeRange(edges, ids);
    count := 0;
    var last: int := -1;
    var cnext := 0;
    for k := 0 to |edges|
      invariant cnext <= |ids| && last == if k == 0 then -1 else edges[k - 1].shapeId
      invariant UpTo(ids, cnext, last) && (k > 0 ==> From(ids, cnext, last))
      invariant k == 0 ==> cnext == 0
      invariant count == NumShapes(edges, k, ids, cnext)
    {
      if edges[k].shapeId != last {
        NewShape(edges, ids, k, cnext);
        count := count + 1;
        UpToLater(edges, ids, k, cnext, last);
        last := edges[k].shapeId;
        while cnext != |ids|
          invariant cnext <= |ids| && UpTo(ids, cnext, last)
          invariant k > 0 ==> From(ids, cnext, edges[k - 1].shapeId)
          invariant count == NumShapes(edges, k + 1, ids, cnext)
        {
          if ids[cnext] > last {
            FromHere(ids, cnext, last);
            break;
          }
          NewId(edges, ids, k, cnext);
          UpToNext(ids, cnext, last);
          if k > 0 {
            FromNext(ids, cnext, edges[k - 1].shapeId);
          }
          if ids[cnext] < last {
            count := count + 1;
          }
          cnext := cnext + 1;
        }
        FromEnd(ids, last);
      } else {
        SameShape(edges, ids, k, cnext);
      }
    }
    Remaining(edges, ids, cnext);
    count := count + (|ids| - cnext);
  }

  // ----- the cell -----

  function CellIds(cell: seq<ClippedShape>): set<nat>
  {
    set i | 0 <= i < |cell| :: cell[i].shapeId
  }

  ghost predicate InOrder(cell: seq<ClippedShape>)
  {
    forall i, j :: 0 <= i < j < |cell| ==> cell[i].shapeId < cell[j].shapeId
  }

  // A shape has just its own edges, and contains the center if it is tracked.
  predicate IsRight(edges: seq<ClippedEdge>, ids: seq<nat>, shape: ClippedShape)
  {
    shape.edges == EdgesOf(edges, shape.shapeId) && shape.containsCenter == (shape.shapeId in ids)
  }

  // The cell has every shape exactly once.
  ghost predicate IsCell(edges: seq<ClippedEdge>, ids: seq<nat>, cell: seq<ClippedShape>)
  {
    && InOrder(cell) && CellIds(cell) == AllShapes(edges, ids)
    && forall i :: 0 <= i < |cell| ==> IsRight(edges, ids, cell[i])
  }

  // The shapes of the first e edges and the first c ids have been added.
  ghost predicate Filled(edges: seq<ClippedEdge>, ids: seq<nat>, e: nat, c: nat, cell: seq<ClippedShape>)
  {
    && e <= |edges| && c <= |ids|
    && InOrder(cell) && CellIds(cell) == AllShapes(edges[..e], ids[..c])
    && (forall i :: 0 <= i < |cell| ==> IsRight(edges, ids, cell[i]))
    && (forall i, j :: 0 <= i < |cell| && e <= j < |edges| ==> cell[i].shapeId < edges[j].shapeId)
    && (forall i, j :: 0 <= i < |cell| && c <= j < |ids| ==> cell[i].shapeId < ids[j])
  }

  lemma {:induction false} CellSize(cell: seq<ClippedShape>)
    requires InOrder(cell)
    ensures |CellIds(cell)| == |cell|
  {
    if cell != [] {
      var n := |cell| - 1;
      CellSize(cell[..n]);
      CellIdsStep(cell[..n], cell[n]);
      assert cell[..n] + [cell[n]] == cell;
    }
  }

  lemma CellIdsStep(cell: seq<ClippedShape>, shape: ClippedShape)
    ensures CellIds(cell + [shape]) == CellIds(cell) + {shape.shapeId}
  {
    var r := cell + [shape];
    assert r[|cell|] == shape;
    forall id
      ensures id in CellIds(r) <==> id in CellIds(cell) || id == shape.shapeId
    {
      if id in CellIds(cell) {
        var i :| 0 <= i < |cell| && cell[i].shapeId == id;
        assert r[i].shapeId == id;
      }
      if id in CellIds(r) {
        var i :| 0 <= i < |r| && r[i].shapeId == id;
        assert i < |cell| ==> cell[i].shapeId == id;
      }
    }
  }

  lemma {:induction false} NoEdges(edges: seq<ClippedEdge>, id: nat)
    requires forall i :: 0 <= i < |edges| ==> edges[i].shapeId != id
    ensures EdgesOf(edges, id) == []
  {
    if edges != [] {
      NoEdges(edges[..|edges| - 1], id);
    }
  }

  function EdgeIds(edges: seq<ClippedEdge>): (r: seq<nat>)
    ensures |r| == |edges| && forall i :: 0 <= i < |edges| ==> r[i] == edges[i].edgeId
  {
    seq(|edges|, i requires 0 <= i < |edges| => edges[i].edgeId)
  }

  // The edges of a shape are next to each other.
  lemma {:induction false} EdgesInRun(edges: seq<ClippedEdge>, id: nat, b: nat, e: nat, n: nat)
    requires b <= e <= |edges| && n <= |edges|
    requires forall i :: 0 <= i < |edges| ==> (edges[i].shapeId == id <==> b <= i < e)
    ensures EdgesOf(edges[..n], id) == if n <= b then [] else if n <= e then EdgeIds(edges[b..n]) else EdgeIds(edges[b..e])
  {
    if n > 0 {
      EdgesInRun(edges, id, b, e, n - 1);
      assert edges[..n][..n - 1] == edges[..n - 1];
      if b < n <= e {
        assert EdgeIds(edges[b..n]) == (if n - 1 <= b then [] else EdgeIds(edges[b..n - 1])) + [edges[n - 1].edgeId];
      }
    }
  }

  lemma TakeId(edges: seq<ClippedEdge>, ids: seq<nat>, e: nat, c: nat, cell: seq<ClippedShape>)
    requires SortedByShape(edges) && Increasing(ids) && Filled(edges, ids, e, c, cell) && c < |ids|
    requires e < |edges| ==> ids[c] < edges[e].shapeId
    ensures Filled(edges, ids, e, c + 1, cell + [ClippedShape(ids[c], [], true)])
  {
    var shape := ClippedShape(ids[c], [], true);
    CellIdsStep(cell, shape);
    IdsStep(ids, c);
    assert forall i :: 0 <= i < e ==> edges[i].shapeId < ids[c] by {
      BeforeIsInCell(edges, ids, e, c, cell);
    }
    NoEdges(edges, ids[c]);
    assert IsRight(edges, ids, shape);
    hide EdgesOf, EdgeShapes, Ids, CellIds, IsRight;
  }

  lemma BeforeIsInCell(edges: seq<ClippedEdge>, ids: seq<nat>, e: nat, c: nat, cell: seq<ClippedShape>)
    requires Filled(edges, ids, e, c, cell)
    ensures forall i, j :: 0 <= i < e && e <= j < |edges| ==> edges[i].shapeId < edges[j].shapeId
    ensures forall i, j :: 0 <= i < e && c <= j < |ids| ==> edges[i].shapeId < ids[j]
    ensures forall i, j :: 0 <= i < c && e <= j < |edges| ==> ids[i] < edges[j].shapeId
  {
    forall i | 0 <= i < e
      ensures edges[i].shapeId in CellIds(cell)
    {
      assert edges[..e][i].shapeId in EdgeShapes(edges[..e]);
    }
    forall i | 0 <= i < c
      ensures ids[i] in CellIds(cell)
    {
      assert ids[..c][i] in Ids(ids[..c]);
    }
  }

  // The edges from b up to e are those of the next shape, and no smaller id is next.
  ghost predicate NextRun(edges: seq<ClippedEdge>, ids: seq<nat>, b: nat, e: nat, c: nat)
  {
    && b < e <= |edges| && c <= |ids|
    && (forall i :: b <= i < e ==> edges[i].shapeId == edges[b].shapeId)
    && (e < |edges| ==> edges[e].shapeId != edges[b].shapeId)
    && (c < |ids| ==> edges[b].shapeId <= ids[c])
  }

  lemma RunIsRight(edges: seq<ClippedEdge>, ids: seq<nat>, b: nat, e: nat, c: nat, cell: seq<ClippedShape>)
    requires SortedByShape(edges) && Increasing(ids) && Filled(edges, ids, b, c, cell) && NextRun(edges, ids, b, e, c)
    ensures IsRight(edges, ids, ClippedShape(edges[b].shapeId, EdgeIds(edges[b..e]), c < |ids| && ids[c] == edges[b].shapeId))
    ensures forall i :: e <= i < |edges| ==> edges[b].shapeId < edges[i].shapeId
  {
    var id := edges[b].shapeId;
    BeforeIsInCell(edges, ids, b, c, cell);
    hide Filled, Increasing;
    assert forall i :: 0 <= i < |edges| ==> (edges[i].shapeId == id <==> b <= i < e);
    EdgesInRun(edges, id, b, e, |edges|);
    assert edges[..|edges|] == edges;
    hide EdgesOf, EdgeIds, SortedByShape;
    InIds(ids, c, id);
  }

  lemma InIds(ids: seq<nat>, c: nat, id: nat)
    requires Increasing(ids) && c <= |ids| && (forall i :: 0 <= i < c ==> ids[i] < id) && (c < |ids| ==> id <= ids[c])
    ensures id in ids <==> c < |ids| && ids[c] == id
  {
  }

  lemma TakeEdges(edges: seq<ClippedEdge>, ids: seq<nat>, b: nat, e: nat, c: nat, cell: seq<ClippedShape>)
    requires SortedByShape(edges) && Increasing(ids) && Filled(edges, ids, b, c, cell) && NextRun(edges, ids, b, e, c)
    ensures var center := c < |ids| && ids[c] == edges[b].shapeId;
            Filled(edges, ids, e, if center then c + 1 else c,
                   cell + [ClippedShape(edges[b].shapeId, EdgeIds(edges[b..e]), center)])
  {
    var id := edges[b].shapeId;
    var center := c < |ids| && ids[c] == id;
    var shape := ClippedShape(id, EdgeIds(edges[b..e]), center);
    RunIsRight(edges, ids, b, e, c, cell);
    CellIdsStep(cell, shape);
    RunShapes(edges, b, e, e);
    if center {
      IdsStep(ids, c);
    }
    hide EdgesOf, EdgeShapes, Ids, CellIds, EdgeIds, IsRight, SortedByShape;
  }

  lemma {:induction false} RunShapes(edges: seq<ClippedEdge>, b: nat, e: nat, n: nat)
    requires b < e <= |edges| && b < n <= e && forall i :: b <= i < e ==> edges[i].shapeId == edges[b].shapeId
    ensures EdgeShapes(edges[..n]) == EdgeShapes(edges[..b]) + {edges[b].shapeId}
  {
    ShapesStep(edges, n - 1);
    if n - 1 > b {
      RunShapes(edges, b, e, n - 1);
    }
  }

  lemma MoreToFill(edges: seq<ClippedEdge>, ids: seq<nat>, e: nat, c: nat, cell: seq<ClippedShape>)
    requires Filled(edges, ids, e, c, cell)
    ensures |cell| <= |AllShapes(edges, ids)|
    ensures |cell| < |AllShapes(edges, ids)| ==> e < |edges| || c < |ids|
    ensures |cell| == |AllShapes(edges, ids)| ==> IsCell(edges, ids, cell)
  {
    CellSize(cell);
    PrefixShapes(edges, e);
    assert AllShapes(edges[..e], ids[..c]) <= AllShapes(edges, ids);
    SubsetSize(CellIds(cell), AllShapes(edges, ids));
    if e == |edges| && c == |ids| {
      assert edges[..e] == edges && ids[..c] == ids;
    }
  }

  lemma PrefixShapes(edges: seq<ClippedEdge>, e: nat)
    requires e <= |edges|
    ensures EdgeShapes(edges[..e]) <= EdgeShapes(edges)
  {
    forall id | id in EdgeShapes(edges[..e])
      ensures id in EdgeShapes(edges)
    {
      var i :| 0 <= i < e && edges[..e][i].shapeId == id;
      assert edges[i].shapeId == id;
    }
  }

  lemma SubsetSize(s: set<nat>, t: set<nat>)
    requires s <= t
    ensures |s| <= |t| && (|s| == |t| ==> s == t)
  {
    assert t == s + (t - s);
  }

  // Merges the shapes with edges and the containing shapes; numShapeIds is above
  // all ids.
  method FillCell(edges: seq<ClippedEdge>, ids: seq<nat>, numShapeIds: nat, numShapes: nat) returns (cell: seq<ClippedShape>)
    requires SortedByShape(edges) && Increasing(ids) && numShapes == |AllShapes(edges, ids)|
    requires (forall i :: 0 <= i < |edges| ==> edges[i].shapeId < numShapeIds)
             && (forall i :: 0 <= i < |ids| ==> ids[i] < numShapeIds)
    ensures |cell| == numShapes && IsCell(edges, ids, cell)
  {
    NothingFilled(edges, ids);
    hide Filled, SortedByShape, Increasing, AllShapes, IsCell;
    cell := [];
    var enext, cnext := 0, 0;
    for i := 0 to numShapes
      invariant enext <= |edges| && cnext <= |ids| && |cell| == i
      invariant Filled(edges, ids, enext, cnext, cell)
    {
      MoreToFill(edges, ids, enext, cnext, cell);
      var eshapeId, cshapeId := numShapeIds, numShapeIds;
      if enext != |edges| {
        eshapeId := edges[enext].shapeId;
      }
      if cnext != |ids| {
        cshapeId := ids[cnext];
      }
      var ebegin := enext;
      if cshapeId < eshapeId {
        TakeId(edges, ids, enext, cnext, cell);
        cell := cell + [ClippedShape(cshapeId, [], true)];
        cnext := cnext + 1;
      } else {
        while enext < |edges| && edges[enext].shapeId == eshapeId
          invariant ebegin <= enext <= |edges|
          invariant forall j :: ebegin <= j < enext ==> edges[j].shapeId == eshapeId
        {
          enext := enext + 1;
        }
        TakeEdges(edges, ids, ebegin, enext, cnext, cell);
        cell := cell + [ClippedShape(eshapeId, EdgeIds(edges[ebegin..enext]), cshapeId == eshapeId)];
        if cshapeId == eshapeId {
          cnext := cnext + 1;
        }
      }
    }
    MoreToFill(edges, ids, enext, cnext, cell);
  }

  lemma NothingFilled(edges: seq<ClippedEdge>, ids: seq<nat>)
    ensures Filled(edges, ids, 0, 0, [])
  {
    assert CellIds([]) == {} && AllShapes(edges[..0], ids[..0]) == {};
  }

  // ----- MakeIndexCell -----

  function ShortEdges(edges: seq<ClippedEdge>, level: int): nat
  {
    if edges == [] then 0
    else ShortEdges(edges[..|edges| - 1], level) + if level < edges[|edges| - 1].maxLevel then 1 else 0
  }

  // The cell has too many short edges and must be subdivided.
  predicate TooMany(edges: seq<ClippedEdge>, level: int, maxEdges: nat, fraction: real, numTracked: nat)
  {
    var limit := (fraction * (|edges| + numTracked) as real).Floor;
    |edges| > maxEdges && ShortEdges(edges, level) > (if limit > maxEdges then limit else maxEdges)
  }

  // Which edges are short: those that may be passed on to smaller cells.
  ghost function ShortOnes(edges: seq<ClippedEdge>, level: int): set<nat>
  {
    set k | 0 <= k < |edges| && level < edges[k].maxLevel
  }

  lemma {:induction false} ShortEdgesAre(edges: seq<ClippedEdge>, level: int)
    ensures ShortEdges(edges, level) == |ShortOnes(edges, level)|
    decreases |edges|
  {
    if edges == [] {
      assert ShortOnes(edges, level) == {};
    } else {
      var n := |edges| - 1;
      ShortEdgesAre(edges[..n], level);
      assert ShortOnes(edges, level) == ShortOnes(edges[..n], level) + if level < edges[n].maxLevel then {n} else {};
    }
  }

  // What the limit means: a cell is subdivided if and only if it has more short
  // edges than any cell may have, and they are more than the given fraction of
  // all its edges and shapes.
  lemma TooManyMeans(edges: seq<ClippedEdge>, level: int, maxEdges: nat, fraction: real, numTracked: nat)
    ensures var short := |ShortOnes(edges, level)|;
            TooMany(edges, level, maxEdges, fraction, numTracked)
            <==> short > maxEdges && short as real > fraction * (|edges| + numTracked) as real
  {
    ShortEdgesAre(edges, level);
    ShortIsPart(edges, level);
    hide ShortEdges;
  }

  lemma {:induction false} ShortIsPart(edges: seq<ClippedEdge>, level: int)
    ensures ShortEdges(edges, level) <= |edges|
    decreases |edges|
  {
    if edges != [] {
      ShortIsPart(edges[..|edges| - 1], level);
    }
  }

  lemma {:induction false} ShortMono(edges: seq<ClippedEdge>, level: int, n: nat)
    requires n <= |edges|
    ensures ShortEdges(edges[..n], level) <= ShortEdges(edges, level)
    decreases |edges| - n
  {
    if n == |edges| {
      assert edges[..n] == edges;
    } else {
      ShortMono(edges, level, n + 1);
      assert edges[..n + 1][..n] == edges[..n];
    }
  }

  method MustSubdivide(edges: seq<ClippedEdge>, level: int, maxEdges: nat, fraction: real, numTracked: nat) returns (yes: bool)
    ensures yes == TooMany(edges, level, maxEdges, fraction, numTracked)
  {
    if |edges| > maxEdges {
      var limit := (fraction * (|edges| + numTracked) as real).Floor;
      var maxShortEdges := if limit > maxEdges then limit else maxEdges;
      var count := 0;
      for k := 0 to |edges|
        invariant count == ShortEdges(edges[..k], level) <= maxShortEdges
      {
        assert edges[..k + 1][..k] == edges[..k];
        count := count + if level < edges[k].maxLevel then 1 else 0;
        if count > maxShortEdges {
          ShortMono(edges, level, k + 1);
          return true;
        }
      }
      assert edges[..|edges|] == edges;
    }
    return false;
  }

  lemma {:induction false} ToggledBelow(ids: set<nat>, edges: seq<ClippedEdge>, crosses: seq<bool>, limit: nat)
    requires |crosses| == |edges| && (forall id :: id in ids ==> id < limit)
    requires forall i :: 0 <= i < |edges| ==> edges[i].shapeId < limit
    ensures forall id :: id in ToggleAll(ids, edges, crosses) ==> id < limit
  {
    if edges != [] {
      ToggledBelow(ids, edges[..|edges| - 1], crosses[..|edges| - 1], limit);
    }
  }

  // "toCenter" and "toExit" say which edges cross the line from the entry vertex
  // of the cell to its center, and from there to its exit vertex.
  method MakeIndexCell(tracker: InteriorTracker, edges: seq<ClippedEdge>, toCenter: seq<bool>, toExit: seq<bool>,
                       level: int, maxEdges: nat, fraction: real, numShapeIds: nat)
    returns (done: bool, cell: Option<seq<ClippedShape>>)
    requires tracker.Valid() && SortedByShape(edges) && |toCenter| == |edges| == |toExit|
    requires forall i :: 0 <= i < |edges| ==> edges[i].shapeId < numShapeIds
    requires forall id :: id in Ids(tracker.shapeIds) ==> id < numShapeIds
    modifies tracker`shapeIds
    ensures tracker.Valid()
    ensures done == ((edges == [] && old(tracker.shapeIds) == [])
                     || !TooMany(edges, level, maxEdges, fraction, |old(tracker.shapeIds)|))
    ensures cell.Some? <==> done && !(edges == [] && old(tracker.shapeIds) == [])
    ensures cell.Some? ==>
              var center := if tracker.isActive then ToggleAll(old(Ids(tracker.shapeIds)), edges, toCenter) else old(Ids(tracker.shapeIds));
              && InOrder(cell.value) && CellIds(cell.value) == EdgeShapes(edges) + center
              && (forall i :: 0 <= i < |cell.value| ==>
                    && cell.value[i].edges == EdgesOf(edges, cell.value[i].shapeId)
                    && cell.value[i].containsCenter == (cell.value[i].shapeId in center))
              && Ids(tracker.shapeIds) == if tracker.isActive then ToggleAll(center, edges, toExit) else center
    ensures cell.None? ==> tracker.shapeIds == old(tracker.shapeIds)
  {
    if edges == [] && tracker.shapeIds == [] {
      return true, None;
    }
    var tooMany := MustSubdivide(edges, level, maxEdges, fraction, |tracker.shapeIds|);
    if tooMany {
      return false, None;
    }
    ToggledBelow(Ids(tracker.shapeIds), edges, toCenter, numShapeIds);
    if tracker.isActive && edges != [] {
      tracker.TestAllEdges(edges, toCenter);
    }
    var ids := tracker.shapeIds;
    assert forall i :: 0 <= i < |ids| ==> ids[i] in Ids(ids);
    var numShapes := CountShapes(edges, ids);
    var shapes := FillCell(edges, ids, numShapeIds, numShapes);
    if tracker.isActive && edges != [] {
      tracker.TestAllEdges(edges, toExit);
    }
    done, cell := true, Some(shapes);
  }
}
