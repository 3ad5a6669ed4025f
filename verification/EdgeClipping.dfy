/**
 The recursive clipping of edges in MutableS2ShapeIndex: how the bound of an edge
 is divided among the four children of a padded cell.  Coordinates are exact.
 */
module EdgeClipping {
  import opened Common

  // R1Interval
  datatype Interval = Interval(lo: real, hi: real) {
    predicate Contains(p: real)
    {
      lo <= p <= hi
    }

    predicate IsEmpty()
    {
      lo > hi
    }

    predicate Within(y: Interval)
    {
      y.lo <= lo && hi <= y.hi
    }

    // The closest point of the interval.
    function Project(p: real): real
    {
      var q := if hi < p then hi else p;
      if lo > q then lo else q
    }

    // The interval with one endpoint replaced (0 = lo, 1 = hi).
    function With(end: nat, p: real): Interval
    {
      if end == 0 then Interval(p, hi) else Interval(lo, p)
    }
  }

  function FromPointPair(p: real, q: real): Interval
  {
    if p <= q then Interval(p, q) else Interval(q, p)
  }

  datatype Rect = Rect(u: Interval, v: Interval) {
    predicate Contains(p: Point)
    {
      u.Contains(p.u) && v.Contains(p.v)
    }

    predicate IsEmpty()
    {
      u.IsEmpty() || v.IsEmpty()
    }

    predicate Within(y: Rect)
    {
      u.Within(y.u) && v.Within(y.v)
    }
  }

  datatype Point = Point(u: real, v: real)

  // From a to b as the parameter goes from 0 to 1.
  function Along(a: real, b: real, t: real): real
  {
    a + t * (b - a)
  }

  // The end points of an edge on a cube face.
  datatype FaceEdge = FaceEdge(a: Point, b: Point) {
    // The point at parameter t, 0 <= t <= 1.
    function At(t: real): Point
    {
      Point(Along(a.u, b.u, t), Along(a.v, b.v, t))
    }

    function Hull(): Rect
    {
      Rect(FromPointPair(a.u, b.u), FromPointPair(a.v, b.v))
    }
  }

  // The part of an edge that is relevant in some cell, as a bounding box.
  datatype ClippedEdge = ClippedEdge(edge: FaceEdge, bound: Rect) {
    ghost predicate Valid()
    {
      !bound.IsEmpty() && bound.Within(edge.Hull())
    }
  }

  // ----- interpolation -----

  function Abs(x: real): real
  {
    if x < 0.0 then -x else x
  }

  // S2::InterpolateDouble
  function Interpolate(x: real, a: real, b: real, a1: real, b1: real): real
    requires a != b
  {
    if Abs(a - x) <= Abs(b - x) then a1 + (b1 - a1) * ((x - a) / (b - a))
    else b1 + (a1 - b1) * ((x - b) / (a - b))
  }

  // Both formulas give the point of the line at x: where the parameter is s.
  lemma InterpolateIs(x: real, a: real, b: real, a1: real, b1: real, s: real)
    requires a != b && x == Along(a, b, s)
    ensures Interpolate(x, a, b, a1, b1) == Along(a1, b1, s)
  {
    Quotient(x - a, s, b - a);
    Quotient(x - b, 1.0 - s, a - b);
    FromOtherEnd(a1, b1, s);
  }

  lemma Quotient(x: real, q: real, d: real)
    requires d != 0.0 && x == q * d
    ensures x / d == q
  {
  }

  lemma FromOtherEnd(a: real, b: real, s: real)
    ensures b + (a - b) * (1.0 - s) == Along(a, b, s) == a + (b - a) * s
  {
  }

  lemma ParameterExists(x: real, a: real, b: real) returns (s: real)
    requires a != b
    ensures x == Along(a, b, s)
  {
    s := (x - a) / (b - a);
  }

  // Along an edge that rises, points before x are below the value at x; along one
  // that falls they are above.
  lemma OnItsSide(a: real, b: real, a1: real, b1: real, t: real, x: real)
    requires a != b
    ensures var p, p1, y := Along(a, b, t), Along(a1, b1, t), Interpolate(x, a, b, a1, b1);
            && ((a > b) == (a1 > b1) || a1 == b1 ==> (p <= x ==> p1 <= y) && (p >= x ==> p1 >= y))
            && ((a > b) != (a1 > b1) || a1 == b1 ==> (p <= x ==> p1 >= y) && (p >= x ==> p1 <= y))
  {
    hide Interpolate, Along;
    var s := ParameterExists(x, a, b);
    InterpolateIs(x, a, b, a1, b1, s);
    LineOrder(a, b, t, s);
    LineOrder(a, b, s, t);
    LineOrder(a1, b1, t, s);
    LineOrder(a1, b1, s, t);
  }

  // The order of two points of a line is that of their parameters, or its reverse.
  lemma LineOrder(a: real, b: real, t: real, s: real)
    ensures a <= b && t <= s ==> Along(a, b, t) <= Along(a, b, s)
    ensures a >= b && t <= s ==> Along(a, b, t) >= Along(a, b, s)
    ensures a < b && t < s ==> Along(a, b, t) < Along(a, b, s)
    ensures a > b && t < s ==> Along(a, b, t) > Along(a, b, s)
  {
    Difference(a, b, t, s);
    ProductSign(s - t, b - a);
  }

  lemma Difference(a: real, b: real, t: real, s: real)
    ensures Along(a, b, s) - Along(a, b, t) == (s - t) * (b - a)
  {
  }

  lemma ProductSign(x: real, d: real)
    ensures x >= 0.0 && d >= 0.0 ==> x * d >= 0.0
    ensures x >= 0.0 && d <= 0.0 ==> x * d <= 0.0
    ensures x > 0.0 && d > 0.0 ==> x * d > 0.0
    ensures x > 0.0 && d < 0.0 ==> x * d < 0.0
  {
  }

  // ----- clipping at one boundary -----

  // The other axis: the same endpoint if the edge rises, the opposite otherwise.
  function OtherEnd(e: FaceEdge, end: nat): nat
    requires end <= 1
  {
    if (e.a.u > e.b.u) != (e.a.v > e.b.v) then 1 - end else end
  }

  // Would the bound extend past the value, so that it has to be clipped?
  predicate NeedsClip(i: Interval, end: nat, x: real)
  {
    if end == 0 then i.lo < x else i.hi > x
  }

  // The boundary lies inside the bound, which therefore is not flat.
  predicate Crosses(i: Interval, x: real)
  {
    i.lo < x < i.hi
  }

  lemma NotFlat(e: ClippedEdge, u: real)
    requires e.Valid()
    ensures Crosses(e.bound.u, u) ==> e.edge.a.u != e.edge.b.u
    ensures Crosses(e.bound.v, u) ==> e.edge.a.v != e.edge.b.v
  {
  }

  function ClipUBound(e: ClippedEdge, uEnd: nat, u: real): (c: ClippedEdge)
    requires e.Valid() && uEnd <= 1 && (NeedsClip(e.bound.u, uEnd, u) ==> Crosses(e.bound.u, u))
    ensures c.Valid() && c.edge == e.edge && c.bound.Within(e.bound)
    ensures uEnd == 0 ==> c.bound.u.lo >= u
    ensures uEnd == 1 ==> c.bound.u.hi <= u
  {
    if !NeedsClip(e.bound.u, uEnd, u) then e
    else
      NotFlat(e, u);
      var f := e.edge;
      var v := e.bound.v.Project(Interpolate(u, f.a.u, f.b.u, f.a.v, f.b.v));
      ClippedEdge(f, Rect(e.bound.u.With(uEnd, u), e.bound.v.With(OtherEnd(f, uEnd), v)))
  }

  function ClipVBound(e: ClippedEdge, vEnd: nat, v: real): (c: ClippedEdge)
    requires e.Valid() && vEnd <= 1 && (NeedsClip(e.bound.v, vEnd, v) ==> Crosses(e.bound.v, v))
    ensures c.Valid() && c.edge == e.edge && c.bound.Within(e.bound)
    ensures vEnd == 0 ==> c.bound.v.lo >= v
    ensures vEnd == 1 ==> c.bound.v.hi <= v
  {
    if !NeedsClip(e.bound.v, vEnd, v) then e
    else
      NotFlat(e, v);
      var f := e.edge;
      var u := e.bound.u.Project(Interpolate(v, f.a.v, f.b.v, f.a.u, f.b.u));
      ClippedEdge(f, Rect(e.bound.u.With(OtherEnd(f, vEnd), u), e.bound.v.With(vEnd, v)))
  }

  // On the kept side of a boundary?
  predicate Kept(end: nat, p: real, x: real)
  {
    if end == 0 then p >= x else p <= x
  }

  // No point of the edge on the kept side is lost.
  lemma ClipUKeeps(e: ClippedEdge, uEnd: nat, u: real, t: real)
    requires e.Valid() && uEnd <= 1 && (NeedsClip(e.bound.u, uEnd, u) ==> Crosses(e.bound.u, u))
    requires e.bound.Contains(e.edge.At(t)) && Kept(uEnd, e.edge.At(t).u, u)
    ensures ClipUBound(e, uEnd, u).bound.Contains(e.edge.At(t))
  {
    hide Interpolate, Along;
    if NeedsClip(e.bound.u, uEnd, u) {
      NotFlat(e, u);
      OnItsSide(e.edge.a.u, e.edge.b.u, e.edge.a.v, e.edge.b.v, t, u);
    }
  }

  lemma ClipVKeeps(e: ClippedEdge, vEnd: nat, v: real, t: real)
    requires e.Valid() && vEnd <= 1 && (NeedsClip(e.bound.v, vEnd, v) ==> Crosses(e.bound.v, v))
    requires e.bound.Contains(e.edge.At(t)) && Kept(vEnd, e.edge.At(t).v, v)
    ensures ClipVBound(e, vEnd, v).bound.Contains(e.edge.At(t))
  {
    hide Interpolate, Along;
    if NeedsClip(e.bound.v, vEnd, v) {
      NotFlat(e, v);
      OnItsSide(e.edge.a.v, e.edge.b.v, e.edge.a.u, e.edge.b.u, t, v);
    }
  }

  // ----- dividing among the children -----

  // What part of an edge goes to the child at one side (0 = low, 1 = high) of
  // "middle", the interval that belongs to both.
  function UPart(e: ClippedEdge, middle: Interval, i: nat): (r: Option<ClippedEdge>)
    requires e.Valid() && i <= 1 && middle.lo < middle.hi
    ensures r.Some? ==> r.value.Valid() && r.value.edge == e.edge && r.value.bound.Within(e.bound)
  {
    if e.bound.u.hi <= middle.lo then if i == 0 then Some(e) else None
    else if e.bound.u.lo >= middle.hi then if i == 1 then Some(e) else None
    else if i == 0 then Some(ClipUBound(e, 1, middle.hi))
    else Some(ClipUBound(e, 0, middle.lo))
  }

  function VPart(e: ClippedEdge, middle: Interval, j: nat): (r: Option<ClippedEdge>)
    requires e.Valid() && j <= 1 && middle.lo < middle.hi
    ensures r.Some? ==> r.value.Valid() && r.value.edge == e.edge && r.value.bound.Within(e.bound)
  {
    if e.bound.v.hi <= middle.lo then if j == 0 then Some(e) else None
    else if e.bound.v.lo >= middle.hi then if j == 1 then Some(e) else None
    else if j == 0 then Some(ClipVBound(e, 1, middle.hi))
    else Some(ClipVBound(e, 0, middle.lo))
  }

  // First left and right, then lower and upper.
  function Part(e: ClippedEdge, middle: Rect, i: nat, j: nat): (r: Option<ClippedEdge>)
    requires e.Valid() && i <= 1 && j <= 1 && Overlaps(middle)
    ensures r.Some? ==> r.value.Valid() && r.value.edge == e.edge && r.value.bound.Within(e.bound)
  {
    match UPart(e, middle.u, i)
    case None => None
    case Some(c) => VPart(c, middle.v, j)
  }

  // The padding makes the four children overlap.
  predicate Overlaps(middle: Rect)
  {
    middle.u.lo < middle.u.hi && middle.v.lo < middle.v.hi
  }

  // Strictly on the side of a child, as seen from the far boundary of "middle".
  predicate OnSide(x: real, middle: Interval, i: nat)
  {
    if i == 0 then x < middle.hi else x > middle.lo
  }

  predicate InQuadrant(p: Point, middle: Rect, i: nat, j: nat)
  {
    OnSide(p.u, middle.u, i) && OnSide(p.v, middle.v, j)
  }

  // Clipping loses nothing: every point of the edge in the parent's bound is in
  // the bound that each quadrant it belongs to receives.
  lemma PartKeeps(e: ClippedEdge, middle: Rect, i: nat, j: nat, t: real)
    requires e.Valid() && i <= 1 && j <= 1 && Overlaps(middle)
    requires e.bound.Contains(e.edge.At(t)) && InQuadrant(e.edge.At(t), middle, i, j)
    ensures Part(e, middle, i, j).Some? && Part(e, middle, i, j).value.bound.Contains(e.edge.At(t))
  {
    hide ClipUBound, ClipVBound, Interpolate, Along;
    if e.bound.u.hi > middle.u.lo && e.bound.u.lo < middle.u.hi {
      ClipUKeeps(e, 1 - i, if i == 0 then middle.u.hi else middle.u.lo, t);
    }
    var c := UPart(e, middle.u, i).value;
    if c.bound.v.hi > middle.v.lo && c.bound.v.lo < middle.v.hi {
      ClipVKeeps(c, 1 - j, if j == 0 then middle.v.hi else middle.v.lo, t);
    }
  }

  // Each point belongs to a quadrant.
  lemma SomeQuadrant(p: Point, middle: Rect)
    requires Overlaps(middle)
    ensures exists i: nat, j: nat :: i <= 1 && j <= 1 && InQuadrant(p, middle, i, j)
  {
    assert InQuadrant(p, middle, if p.u < middle.u.hi then 0 else 1, if p.v < middle.v.hi then 0 else 1);
  }

  // ----- any descent -----

  datatype Turn = Turn(middle: Rect, i: nat, j: nat) {
    predicate Valid()
    {
      Overlaps(middle) && i <= 1 && j <= 1
    }
  }

  predicate Turns(path: seq<Turn>)
  {
    forall k :: 0 <= k < |path| ==> path[k].Valid()
  }

  // The part of an edge that reaches the cell at the end of a path.
  function Descend(e: ClippedEdge, path: seq<Turn>): (r: Option<ClippedEdge>)
    requires e.Valid() && Turns(path)
    ensures r.Some? ==> r.value.Valid() && r.value.edge == e.edge && r.value.bound.Within(e.bound)
    decreases |path|
  {
    if path == [] then Some(e)
    else
      match Part(e, path[0].middle, path[0].i, path[0].j)
      case None => None
      case Some(c) => Descend(c, path[1..])
  }

  // A point that belongs to the chosen quadrant at every turn is still there.
  lemma {:induction false} DescentKeeps(e: ClippedEdge, path: seq<Turn>, t: real)
    requires e.Valid() && Turns(path) && e.bound.Contains(e.edge.At(t))
    requires forall k :: 0 <= k < |path| ==> InQuadrant(e.edge.At(t), path[k].middle, path[k].i, path[k].j)
    ensures Descend(e, path).Some? && Descend(e, path).value.bound.Contains(e.edge.At(t))
    decreases |path|
  {
    hide Part, Along;
    if path != [] {
      PartKeeps(e, path[0].middle, path[0].i, path[0].j, t);
      DescentKeeps(Part(e, path[0].middle, path[0].i, path[0].j).value, path[1..], t);
    }
  }

  // ----- bounds are exact -----

  // The bound is the bounding box of the piece of the edge from t0 to t1.
  ghost predicate IsBox(e: ClippedEdge, t0: real, t1: real)
  {
    && 0.0 <= t0 <= t1 <= 1.0
    && e.bound.u == FromPointPair(e.edge.At(t0).u, e.edge.At(t1).u)
    && e.bound.v == FromPointPair(e.edge.At(t0).v, e.edge.At(t1).v)
  }

  // Between two parameters the values lie between the values there.
  lemma ValuesBetween(a: real, b: real, t0: real, t: real, t1: real)
    requires t0 <= t <= t1
    ensures FromPointPair(Along(a, b, t0), Along(a, b, t1)).Contains(Along(a, b, t))
  {
    hide Along;
    LineOrder(a, b, t0, t);
    LineOrder(a, b, t, t1);
  }

  // The order of parameters is that of the values on a line that rises, and the
  // reverse of it on one that falls.
  lemma ParameterOrder(a: real, b: real, t: real, s: real)
    requires a != b
    ensures t <= s <==> if a < b then Along(a, b, t) <= Along(a, b, s) else Along(a, b, t) >= Along(a, b, s)
  {
    hide Along;
    LineOrder(a, b, t, s);
    LineOrder(a, b, s, t);
  }

  lemma FlatLine(a: real, t: real)
    ensures Along(a, a, t) == a
  {
  }

  // The parameter where a boundary is crossed divides the piece.
  lemma CrossingParameter(a: real, b: real, t0: real, t1: real, x: real) returns (s: real)
    requires t0 <= t1 && Crosses(FromPointPair(Along(a, b, t0), Along(a, b, t1)), x)
    ensures a != b && t0 < s < t1 && x == Along(a, b, s)
  {
    FlatLine(a, t0);
    FlatLine(a, t1);
    s := ParameterExists(x, a, b);
    hide Along;
    ParameterOrder(a, b, t0, t1);
    ParameterOrder(a, b, s, t0);
    ParameterOrder(a, b, t1, s);
  }

  // Clipping at a boundary gives the bounding box of the part on the kept side.
  lemma ClipUIsBox(e: ClippedEdge, t0: real, t1: real, uEnd: nat, u: real) returns (s0: real, s1: real)
    requires e.Valid() && uEnd <= 1 && (NeedsClip(e.bound.u, uEnd, u) ==> Crosses(e.bound.u, u)) && IsBox(e, t0, t1)
    ensures t0 <= s0 <= s1 <= t1 && IsBox(ClipUBound(e, uEnd, u), s0, s1)
    ensures forall t :: t0 <= t <= t1 ==> (Kept(uEnd, e.edge.At(t).u, u) <==> s0 <= t <= s1)
  {
    hide Interpolate, Along;
    var f := e.edge;
    if NeedsClip(e.bound.u, uEnd, u) {
      var s := CrossingParameter(f.a.u, f.b.u, t0, t1, u);
      InterpolateIs(u, f.a.u, f.b.u, f.a.v, f.b.v, s);
      ValuesBetween(f.a.v, f.b.v, t0, s, t1);
      LineOrder(f.a.v, f.b.v, t0, s);
      LineOrder(f.a.v, f.b.v, s, t1);
      LineOrder(f.a.u, f.b.u, t0, s);
      LineOrder(f.a.u, f.b.u, s, t1);
      s0, s1 := if (uEnd == 0) == (f.a.u < f.b.u) then s else t0, if (uEnd == 0) == (f.a.u < f.b.u) then t1 else s;
      forall t | t0 <= t <= t1
        ensures Kept(uEnd, e.edge.At(t).u, u) <==> s0 <= t <= s1
      {
        ParameterOrder(f.a.u, f.b.u, t, s);
        ParameterOrder(f.a.u, f.b.u, s, t);
      }
    } else {
      s0, s1 := t0, t1;
      forall t | t0 <= t <= t1
        ensures Kept(uEnd, e.edge.At(t).u, u)
      {
        ValuesBetween(f.a.u, f.b.u, t0, t, t1);
      }
    }
  }

  // The axes exchanged.
  function Swapped(p: Point): Point
  {
    Point(p.v, p.u)
  }

  function SwappedClip(e: ClippedEdge): ClippedEdge
  {
    ClippedEdge(FaceEdge(Swapped(e.edge.a), Swapped(e.edge.b)), Rect(e.bound.v, e.bound.u))
  }

  lemma ClipVIsClipU(e: ClippedEdge, vEnd: nat, v: real)
    requires e.Valid() && vEnd <= 1 && (NeedsClip(e.bound.v, vEnd, v) ==> Crosses(e.bound.v, v))
    ensures SwappedClip(e).Valid() && ClipVBound(e, vEnd, v) == SwappedClip(ClipUBound(SwappedClip(e), vEnd, v))
  {
    hide Interpolate;
    if NeedsClip(e.bound.v, vEnd, v) {
      NotFlat(e, v);
    }
  }

  lemma ClipVIsBox(e: ClippedEdge, t0: real, t1: real, vEnd: nat, v: real) returns (s0: real, s1: real)
    requires e.Valid() && vEnd <= 1 && (NeedsClip(e.bound.v, vEnd, v) ==> Crosses(e.bound.v, v)) && IsBox(e, t0, t1)
    ensures t0 <= s0 <= s1 <= t1 && IsBox(ClipVBound(e, vEnd, v), s0, s1)
    ensures forall t :: t0 <= t <= t1 ==> (Kept(vEnd, e.edge.At(t).v, v) <==> s0 <= t <= s1)
  {
    hide Along, ClipUBound, ClipVBound, FromPointPair;
    ClipVIsClipU(e, vEnd, v);
    s0, s1 := ClipUIsBox(SwappedClip(e), t0, t1, vEnd, v);
    assert forall t :: SwappedClip(e).edge.At(t) == Swapped(e.edge.At(t));
  }

  // On the side of a child or at the far boundary of "middle".
  predicate AtSide(x: real, middle: Interval, i: nat)
  {
    if i == 0 then x <= middle.hi else x >= middle.lo
  }

  predicate AtQuadrant(p: Point, middle: Rect, i: nat, j: nat)
  {
    AtSide(p.u, middle.u, i) && AtSide(p.v, middle.v, j)
  }

  // A side gets the box of what lies on it, if some of that lies strictly on it.
  lemma UPartIsBox(e: ClippedEdge, t0: real, t1: real, middle: Interval, i: nat) returns (s0: real, s1: real)
    requires e.Valid() && i <= 1 && middle.lo < middle.hi && IsBox(e, t0, t1)
    ensures UPart(e, middle, i).Some? ==>
              && t0 <= s0 <= s1 <= t1 && IsBox(UPart(e, middle, i).value, s0, s1)
              && (OnSide(e.edge.At(t0).u, middle, i) || OnSide(e.edge.At(t1).u, middle, i))
    ensures UPart(e, middle, i).Some? ==> forall t :: t0 <= t <= t1 ==> (AtSide(e.edge.At(t).u, middle, i) <==> s0 <= t <= s1)
  {
    hide Along, ClipUBound;
    s0, s1 := t0, t1;
    if e.bound.u.hi > middle.lo && e.bound.u.lo < middle.hi {
      s0, s1 := ClipUIsBox(e, t0, t1, 1 - i, if i == 0 then middle.hi else middle.lo);
    } else {
      forall t | t0 <= t <= t1
        ensures e.bound.u.Contains(e.edge.At(t).u)
      {
        ValuesBetween(e.edge.a.u, e.edge.b.u, t0, t, t1);
      }
    }
  }

  lemma VPartIsBox(e: ClippedEdge, t0: real, t1: real, middle: Interval, j: nat) returns (s0: real, s1: real)
    requires e.Valid() && j <= 1 && middle.lo < middle.hi && IsBox(e, t0, t1)
    ensures VPart(e, middle, j).Some? ==>
              && t0 <= s0 <= s1 <= t1 && IsBox(VPart(e, middle, j).value, s0, s1)
              && (OnSide(e.edge.At(t0).v, middle, j) || OnSide(e.edge.At(t1).v, middle, j))
    ensures VPart(e, middle, j).Some? ==> forall t :: t0 <= t <= t1 ==> (AtSide(e.edge.At(t).v, middle, j) <==> s0 <= t <= s1)
  {
    hide Along, ClipVBound;
    s0, s1 := t0, t1;
    if e.bound.v.hi > middle.lo && e.bound.v.lo < middle.hi {
      s0, s1 := ClipVIsBox(e, t0, t1, 1 - j, if j == 0 then middle.hi else middle.lo);
    } else {
      forall t | t0 <= t <= t1
        ensures e.bound.v.Contains(e.edge.At(t).v)
      {
        ValuesBetween(e.edge.a.v, e.edge.b.v, t0, t, t1);
      }
    }
  }

  // A quadrant gets the bounding box of exactly the part of the piece in it.
  lemma PartIsBox(e: ClippedEdge, t0: real, t1: real, middle: Rect, i: nat, j: nat) returns (s0: real, s1: real)
    requires e.Valid() && i <= 1 && j <= 1 && Overlaps(middle) && IsBox(e, t0, t1) && Part(e, middle, i, j).Some?
    ensures t0 <= s0 <= s1 <= t1 && IsBox(Part(e, middle, i, j).value, s0, s1)
    ensures forall t :: t0 <= t <= t1 ==> (AtQuadrant(e.edge.At(t), middle, i, j) <==> s0 <= t <= s1)
  {
    hide Along, UPart, VPart, AtSide;
    var r0, r1 := UPartIsBox(e, t0, t1, middle.u, i);
    s0, s1 := VPartIsBox(UPart(e, middle.u, i).value, r0, r1, middle.v, j);
  }

  // ----- an edge is passed on only where it enters -----

  // Moving a little from one parameter towards another.
  function Toward(t: real, goal: real, step: real): real
  {
    Along(t, goal, step)
  }

  lemma AlongToward(a: real, b: real, t: real, goal: real, step: real)
    ensures Along(a, b, Toward(t, goal, step)) == Along(Along(a, b, t), Along(a, b, goal), step)
  {
  }

  // From a point on a side, small enough steps stay on it.
  function Gap(x: real, middle: Interval, i: nat): real
  {
    if i == 0 then middle.hi - x else x - middle.lo
  }

  function Limit(gap: real, d: real): real
    requires gap + d > 0.0
  {
    gap / (gap + d)
  }

  lemma SmallSteps(x: real, y: real, middle: Interval, i: nat) returns (limit: real)
    requires OnSide(x, middle, i)
    ensures 0.0 < limit <= 1.0
    ensures forall step :: 0.0 < step <= limit ==> OnSide(Along(x, y, step), middle, i)
  {
    hide Limit, Along;
    var gap, d := Gap(x, middle, i), Abs(y - x);
    LimitFits(gap, d);
    limit := Limit(gap, d);
    forall step | 0.0 < step <= limit
      ensures OnSide(Along(x, y, step), middle, i)
    {
      StepFits(gap, d, step);
      SignedStep(y - x, step);
      StepStays(x, y, middle, i, step);
    }
  }

  lemma StepStays(x: real, y: real, middle: Interval, i: nat, step: real)
    requires step * Abs(y - x) < Gap(x, middle, i)
    requires -(step * Abs(y - x)) <= step * (y - x) <= step * Abs(y - x)
    ensures OnSide(Along(x, y, step), middle, i)
  {
    hide Abs;
  }

  lemma LimitFits(gap: real, d: real)
    requires gap > 0.0 && d >= 0.0
    ensures 0.0 < Limit(gap, d) <= 1.0
  {
    RatioFits(gap, gap + d, Limit(gap, d));
  }

  lemma RatioFits(x: real, y: real, q: real)
    requires 0.0 < x <= y && q == x / y
    ensures 0.0 < q <= 1.0
  {
    if q > 1.0 {
      ProductSign(q - 1.0, y);
    }
  }

  lemma StepFits(gap: real, d: real, step: real)
    requires gap > 0.0 && d >= 0.0 && 0.0 < step <= Limit(gap, d)
    ensures step * d < gap
  {
    assert step * (gap + d) <= gap by {
      var q := Limit(gap, d);
      assert q * (gap + d) == gap;
      ProductSign(q - step, gap + d);
    }
    ProductSign(step, gap);
  }

  lemma SignedStep(d: real, step: real)
    requires step > 0.0
    ensures -(step * Abs(d)) <= step * d <= step * Abs(d)
  {
    ProductSign(step, d);
  }

  // From a point at a side towards one on it, any step leads onto it.
  lemma AnyStep(x: real, y: real, middle: Interval, i: nat, step: real)
    requires AtSide(x, middle, i) && OnSide(y, middle, i) && 0.0 < step <= 1.0
    ensures OnSide(Along(x, y, step), middle, i)
  {
    ProductSign(step, y - x);
    ProductSign(1.0 - step, y - x);
    Split(step, y - x);
  }

  lemma Split(step: real, d: real)
    ensures step * d + (1.0 - step) * d == d
  {
  }

  // Some step leads into a quadrant, from a point that lies in it or at its
  // boundary towards one that lies in it.
  lemma QuadrantStep(f: FaceEdge, t: real, goal: real, middle: Rect, i: nat, j: nat, step: real)
    requires 0.0 < step <= 1.0 && AtQuadrant(f.At(t), middle, i, j) && InQuadrant(f.At(goal), middle, i, j)
    ensures InQuadrant(f.At(Toward(t, goal, step)), middle, i, j)
  {
    hide Along, Toward;
    AlongToward(f.a.u, f.b.u, t, goal, step);
    AlongToward(f.a.v, f.b.v, t, goal, step);
    AnyStep(f.At(t).u, f.At(goal).u, middle.u, i, step);
    AnyStep(f.At(t).v, f.At(goal).v, middle.v, j, step);
  }

  lemma TowardIsBetween(t: real, goal: real, step: real, t0: real, t1: real)
    requires 0.0 <= step <= 1.0 && t0 <= t <= t1 && t0 <= goal <= t1
    ensures t0 <= Toward(t, goal, step) <= t1
  {
    hide Along;
    Between(t, goal, step);
  }

  // What is passed to a quadrant enters it.
  lemma PartEnters(e: ClippedEdge, t0: real, t1: real, middle: Rect, i: nat, j: nat) returns (t: real)
    requires e.Valid() && i <= 1 && j <= 1 && Overlaps(middle) && IsBox(e, t0, t1) && Part(e, middle, i, j).Some?
    ensures t0 <= t <= t1 && InQuadrant(e.edge.At(t), middle, i, j)
  {
    hide Along, UPart, VPart, IsBox, Toward;
    var f := e.edge;
    var r0, r1 := UPartIsBox(e, t0, t1, middle.u, i);
    var s0, s1 := VPartIsBox(UPart(e, middle.u, i).value, r0, r1, middle.v, j);
    var inU := if OnSide(f.At(t0).u, middle.u, i) then t0 else t1;
    var inV := if OnSide(f.At(r0).v, middle.v, j) then r0 else r1;
    var step := SmallSteps(f.At(inV).v, f.At(inU).v, middle.v, j);
    t := Toward(inV, inU, step);
    InOrder(e, t0, t1);
    TowardIsBetween(inV, inU, step, t0, t1);
    AlongToward(f.a.u, f.b.u, inV, inU, step);
    AlongToward(f.a.v, f.b.v, inV, inU, step);
    AnyStep(f.At(inV).u, f.At(inU).u, middle.u, i, step);
  }

  lemma InOrder(e: ClippedEdge, t0: real, t1: real)
    requires IsBox(e, t0, t1)
    ensures 0.0 <= t0 <= t1 <= 1.0
  {
  }

  // In all quadrants chosen on a path.
  ghost predicate InAll(p: Point, path: seq<Turn>)
  {
    forall k :: 0 <= k < |path| ==> InQuadrant(p, path[k].middle, path[k].i, path[k].j)
  }

  ghost predicate AtAll(p: Point, path: seq<Turn>)
  {
    forall k :: 0 <= k < |path| ==> AtQuadrant(p, path[k].middle, path[k].i, path[k].j)
  }

  lemma {:induction false} StepsInAll(f: FaceEdge, t: real, goal: real, path: seq<Turn>) returns (limit: real)
    requires InAll(f.At(t), path)
    ensures 0.0 < limit <= 1.0
    ensures forall step :: 0.0 < step <= limit ==> InAll(f.At(Toward(t, goal, step)), path)
    decreases |path|
  {
    hide Along, Toward;
    if path == [] {
      limit := 1.0;
    } else {
      var turn := path[0];
      var u := SmallSteps(f.At(t).u, f.At(goal).u, turn.middle.u, turn.i);
      var v := SmallSteps(f.At(t).v, f.At(goal).v, turn.middle.v, turn.j);
      limit := StepsInAll(f, t, goal, path[1..]);
      limit := if u < limit then u else limit;
      limit := if v < limit then v else limit;
      forall step | 0.0 < step <= limit
        ensures InAll(f.At(Toward(t, goal, step)), path)
      {
        AlongToward(f.a.u, f.b.u, t, goal, step);
        AlongToward(f.a.v, f.b.v, t, goal, step);
        InAllNext(f.At(Toward(t, goal, step)), path);
      }
    }
  }

  lemma InAllNext(p: Point, path: seq<Turn>)
    requires path != []
    ensures InAll(p, path) <==> InQuadrant(p, path[0].middle, path[0].i, path[0].j) && InAll(p, path[1..])
    ensures AtAll(p, path) <==> AtQuadrant(p, path[0].middle, path[0].i, path[0].j) && AtAll(p, path[1..])
  {
    hide InQuadrant, AtQuadrant;
    if InQuadrant(p, path[0].middle, path[0].i, path[0].j) && InAll(p, path[1..]) {
      forall k | 0 <= k < |path|
        ensures InQuadrant(p, path[k].middle, path[k].i, path[k].j)
      {
        assert k > 0 ==> path[1..][k - 1] == path[k];
      }
    }
    if AtQuadrant(p, path[0].middle, path[0].i, path[0].j) && AtAll(p, path[1..]) {
      forall k | 0 <= k < |path|
        ensures AtQuadrant(p, path[k].middle, path[k].i, path[k].j)
      {
        assert k > 0 ==> path[1..][k - 1] == path[k];
      }
    }
  }

  // Along any path: what arrives is the bounding box of exactly the part of the
  // piece in all quadrants, and that part enters all of them.
  lemma {:induction false} DescentIsBox(e: ClippedEdge, t0: real, t1: real, path: seq<Turn>)
    returns (s0: real, s1: real, t: real)
    requires e.Valid() && Turns(path) && IsBox(e, t0, t1) && Descend(e, path).Some?
    ensures t0 <= s0 <= s1 <= t1 && IsBox(Descend(e, path).value, s0, s1)
    ensures forall r :: t0 <= r <= t1 ==> (AtAll(e.edge.At(r), path) <==> s0 <= r <= s1)
    ensures t0 <= t <= t1 && InAll(e.edge.At(t), path)
    decreases |path|
  {
    hide Along, Part, InQuadrant, AtQuadrant, InAll, AtAll, Toward;
    if path == [] {
      s0, s1, t := t0, t1, t0;
      Everywhere(e, t0);
    } else {
      var turn := path[0];
      var c := Part(e, turn.middle, turn.i, turn.j).value;
      var r0, r1 := PartIsBox(e, t0, t1, turn.middle, turn.i, turn.j);
      s0, s1, t := DescentIsBox(c, r0, r1, path[1..]);
      forall r | t0 <= r <= t1
        ensures AtAll(e.edge.At(r), path) <==> s0 <= r <= s1
      {
        InAllNext(e.edge.At(r), path);
      }
      var goal := PartEnters(e, t0, t1, turn.middle, turn.i, turn.j);
      var step := StepsInAll(e.edge, t, goal, path[1..]);
      QuadrantStep(e.edge, t, goal, turn.middle, turn.i, turn.j, step);
      TowardIsBetween(t, goal, step, t0, t1);
      t := Toward(t, goal, step);
      InAllNext(e.edge.At(t), path);
    }
  }

  lemma Everywhere(e: ClippedEdge, t: real)
    ensures InAll(e.edge.At(t), []) && forall r :: AtAll(e.edge.At(r), [])
  {
  }

  // Main result: an edge reaches a cell if and only if it has a point in all
  // quadrants on the way there.
  lemma CellGetsEdge(f: FaceEdge, path: seq<Turn>)
    requires Turns(path)
    ensures ClippedEdge(f, f.Hull()).Valid()
    ensures Descend(ClippedEdge(f, f.Hull()), path).Some? <==> exists t :: 0.0 <= t <= 1.0 && InAll(f.At(t), path)
  {
    hide Along, Descend, InQuadrant;
    var e := ClippedEdge(f, f.Hull());
    HullIsBox(f);
    if Descend(e, path).Some? {
      var s0, s1, t := DescentIsBox(e, 0.0, 1.0, path);
    }
    forall t | 0.0 <= t <= 1.0 && InAll(f.At(t), path)
      ensures Descend(e, path).Some?
    {
      StartHoldsEdge(f, t);
      DescentKeeps(e, path, t);
    }
  }

  lemma HullIsBox(f: FaceEdge)
    ensures ClippedEdge(f, f.Hull()).Valid() && IsBox(ClippedEdge(f, f.Hull()), 0.0, 1.0)
  {
  }

  // Its bound there is the bounding box of exactly the part in those quadrants.
  lemma CellBoundIsExact(f: FaceEdge, path: seq<Turn>)
    requires Turns(path) && ClippedEdge(f, f.Hull()).Valid() && Descend(ClippedEdge(f, f.Hull()), path).Some?
    ensures exists s0, s1 :: IsBox(Descend(ClippedEdge(f, f.Hull()), path).value, s0, s1)
                             && forall t :: 0.0 <= t <= 1.0 ==> (AtAll(f.At(t), path) <==> s0 <= t <= s1)
  {
    hide Along, Descend, AtAll;
    HullIsBox(f);
    var s0, s1, t := DescentIsBox(ClippedEdge(f, f.Hull()), 0.0, 1.0, path);
    assert IsBox(Descend(ClippedEdge(f, f.Hull()), path).value, s0, s1);
  }

  // ----- the code of UpdateEdges -----

  // The edges that the children get, child (i, j) at position 2 * i + j.
  type Children = c: seq<seq<ClippedEdge>> | |c| == 4 witness [[], [], [], []]

  function Push(c: Children, i: nat, j: nat, e: ClippedEdge): (r: Children)
    requires i <= 1 && j <= 1
  {
    c[2 * i + j := c[2 * i + j] + [e]]
  }

  // What each child gets from a list of edges.
  ghost function Gather(edges: seq<ClippedEdge>, middle: Rect, i: nat, j: nat): seq<ClippedEdge>
    requires i <= 1 && j <= 1 && Overlaps(middle) && forall k :: 0 <= k < |edges| ==> edges[k].Valid()
  {
    if edges == [] then []
    else
      var n := |edges| - 1;
      Gather(edges[..n], middle, i, j)
      + match Part(edges[n], middle, i, j) { case None => [] case Some(c) => [c] }
  }

  method ClipVAxis(e: ClippedEdge, middle: Interval, i: nat, c: Children) returns (r: Children)
    requires e.Valid() && i <= 1 && middle.lo < middle.hi
    ensures forall k :: 0 <= k < 4 && k / 2 != i ==> r[k] == c[k]
    ensures forall j :: 0 <= j <= 1 ==> r[2 * i + j] == Added(c[2 * i + j], VPart(e, middle, j))
  {
    if e.bound.v.hi <= middle.lo {
      r := Push(c, i, 0, e);
    } else if e.bound.v.lo >= middle.hi {
      r := Push(c, i, 1, e);
    } else {
      r := Push(c, i, 0, ClipVBound(e, 1, middle.hi));
      r := Push(r, i, 1, ClipVBound(e, 0, middle.lo));
    }
  }

  function Added(s: seq<ClippedEdge>, e: Option<ClippedEdge>): seq<ClippedEdge>
  {
    match e case None => s case Some(c) => s + [c]
  }

  // The five cases for one edge.
  method DivideEdge(e: ClippedEdge, middle: Rect, c: Children) returns (r: Children)
    requires e.Valid() && Overlaps(middle)
    ensures forall i, j :: 0 <= i <= 1 && 0 <= j <= 1 ==> r[2 * i + j] == Added(c[2 * i + j], Part(e, middle, i, j))
  {
    hide ClipUBound, ClipVBound, Interpolate, FaceEdge.Hull, Along;
    if e.bound.u.hi <= middle.u.lo {
      r := ClipVAxis(e, middle.v, 0, c);
    } else if e.bound.u.lo >= middle.u.hi {
      r := ClipVAxis(e, middle.v, 1, c);
    } else if e.bound.v.hi <= middle.v.lo {
      r := Push(c, 0, 0, ClipUBound(e, 1, middle.u.hi));
      r := Push(r, 1, 0, ClipUBound(e, 0, middle.u.lo));
    } else if e.bound.v.lo >= middle.v.hi {
      r := Push(c, 0, 1, ClipUBound(e, 1, middle.u.hi));
      r := Push(r, 1, 1, ClipUBound(e, 0, middle.u.lo));
    } else {
      var left := ClipUBound(e, 1, middle.u.hi);
      r := ClipVAxis(left, middle.v, 0, c);
      var right := ClipUBound(e, 0, middle.u.lo);
      r := ClipVAxis(right, middle.v, 1, r);
    }
  }

  method DivideEdges(edges: seq<ClippedEdge>, middle: Rect) returns (children: Children)
    requires Overlaps(middle) && forall k :: 0 <= k < |edges| ==> edges[k].Valid()
    ensures forall i, j :: 0 <= i <= 1 && 0 <= j <= 1 ==> children[2 * i + j] == Gather(edges, middle, i, j)
  {
    hide Part;
    children := [[], [], [], []];
    for e := 0 to |edges|
      invariant forall i, j :: 0 <= i <= 1 && 0 <= j <= 1 ==> children[2 * i + j] == Gather(edges[..e], middle, i, j)
    {
      assert edges[..e + 1][..e] == edges[..e];
      children := DivideEdge(edges[e], middle, children);
    }
    assert edges[..|edges|] == edges;
  }

  // So each child holds, for every edge and every point that belongs to it, a
  // part with that point.
  lemma {:induction false} ChildHoldsPoint(edges: seq<ClippedEdge>, middle: Rect, i: nat, j: nat, k: nat, t: real)
    requires i <= 1 && j <= 1 && Overlaps(middle) && (forall k :: 0 <= k < |edges| ==> edges[k].Valid()) && k < |edges|
    requires edges[k].bound.Contains(edges[k].edge.At(t)) && InQuadrant(edges[k].edge.At(t), middle, i, j)
    ensures exists m :: 0 <= m < |Gather(edges, middle, i, j)|
                        && Gather(edges, middle, i, j)[m].edge == edges[k].edge
                        && Gather(edges, middle, i, j)[m].bound.Contains(edges[k].edge.At(t))
  {
    hide Part;
    var n := |edges| - 1;
    var g := Gather(edges[..n], middle, i, j);
    if k == n {
      PartKeeps(edges[n], middle, i, j, t);
      assert Gather(edges, middle, i, j)[|g|] == Part(edges[n], middle, i, j).value;
    } else {
      ChildHoldsPoint(edges[..n], middle, i, j, k, t);
      var m :| 0 <= m < |g| && g[m].edge == edges[k].edge && g[m].bound.Contains(edges[k].edge.At(t));
      assert Gather(edges, middle, i, j)[m] == g[m];
    }
  }

  // And nothing else: what a child holds is the part of some edge.
  lemma {:induction false} ChildHoldsParts(edges: seq<ClippedEdge>, middle: Rect, i: nat, j: nat, m: nat)
    requires i <= 1 && j <= 1 && Overlaps(middle) && forall k :: 0 <= k < |edges| ==> edges[k].Valid()
    requires m < |Gather(edges, middle, i, j)|
    ensures exists k :: 0 <= k < |edges| && Part(edges[k], middle, i, j) == Some(Gather(edges, middle, i, j)[m])
  {
    hide Part;
    var n := |edges| - 1;
    var g := Gather(edges[..n], middle, i, j);
    if m < |g| {
      ChildHoldsParts(edges[..n], middle, i, j, m);
      var k :| 0 <= k < n && Part(edges[..n][k], middle, i, j) == Some(g[m]);
      assert edges[..n][k] == edges[k];
    }
  }

  // The bound that UpdateFaceEdges starts with holds the whole edge.
  lemma StartHoldsEdge(f: FaceEdge, t: real)
    requires 0.0 <= t <= 1.0
    ensures ClippedEdge(f, f.Hull()).Valid() && f.Hull().Contains(f.At(t))
  {
    hide Along;
    Between(f.a.u, f.b.u, t);
    Between(f.a.v, f.b.v, t);
  }

  lemma Between(a: real, b: real, t: real)
    requires 0.0 <= t <= 1.0
    ensures FromPointPair(a, b).Contains(Along(a, b, t))
  {
    assert Along(a, b, 0.0) == a && Along(a, b, 1.0) == b;
    hide Along;
    LineOrder(a, b, 0.0, t);
    LineOrder(a, b, t, 1.0);
  }
}
