/**
 S1Interval: closed intervals on the circle, with exact real arithmetic.  Every
 operation is compared with the set of points of its operands.
 */
module S1Intervals {

  // Half a turn.
  type Positive = x: real | x > 0.0 witness 1.0
  const HALF_TURN: Positive
  const PI: real := HALF_TURN

  // ----- points -----

  // The angle -PI stands for the same point as PI.
  predicate IsAngle(p: real)
  {
    -PI <= p <= PI
  }

  predicate IsPoint(p: real)
  {
    -PI < p <= PI
  }

  function Normalized(p: real): (r: real)
    requires IsAngle(p)
    ensures IsPoint(r)
  {
    if p == -PI then PI else p
  }

  // How far it is from a to b counterclockwise.
  function PositiveDistance(a: real, b: real): real
  {
    if b - a >= 0.0 then b - a else (b + PI) - (a - PI)
  }

  function Min(a: real, b: real): real
  {
    if a <= b then a else b
  }

  function Max(a: real, b: real): real
  {
    if a >= b then a else b
  }

  // The distance along the circle.
  function Distance(p: real, q: real): real
  {
    Min(PositiveDistance(p, q), PositiveDistance(q, p))
  }

  // ----- intervals -----

  datatype Interval = Interval(lo: real, hi: real)
  {
    predicate IsValid()
    {
      && IsAngle(lo) && IsAngle(hi)
      && !(lo == -PI && hi != PI) && !(hi == -PI && lo != PI)
    }

    predicate IsFull()
    {
      lo == -PI && hi == PI
    }

    predicate IsEmpty()
    {
      lo == PI && hi == -PI
    }

    predicate IsInverted()
    {
      lo > hi
    }

    // The points from lo to hi, counterclockwise.
    predicate Has(p: real)
    {
      !IsEmpty() && (IsFull() || PositiveDistance(lo, p) <= PositiveDistance(lo, hi))
    }

    function GetCenter(): (r: real)
      requires IsValid()
      ensures IsAngle(r)
    {
      var center := 0.5 * (lo + hi);
      if !IsInverted() then center
      else if center <= 0.0 then center + PI else center - PI
    }

    function GetLength(): real
    {
      if hi - lo >= 0.0 then hi - lo
      else if hi - lo + 2.0 * PI > 0.0 then hi - lo + 2.0 * PI else -1.0
    }

    function Complement(): (r: Interval)
      requires IsValid()
      ensures r.IsValid()
    {
      if lo == hi then Full() else Interval(hi, lo)
    }

    function GetComplementCenter(): (r: real)
      requires IsValid()
      ensures IsAngle(r)
    {
      if lo != hi then Complement().GetCenter()
      else if hi <= 0.0 then hi + PI else hi - PI
    }

    predicate FastContains(p: real)
    {
      if IsInverted() then (p >= lo || p <= hi) && !IsEmpty() else p >= lo && p <= hi
    }

    predicate ContainsPoint(p: real)
      requires IsAngle(p)
    {
      FastContains(Normalized(p))
    }

    predicate Contains(y: Interval)
    {
      if IsInverted() then
        if y.IsInverted() then y.lo >= lo && y.hi <= hi
        else (y.lo >= lo || y.hi <= hi) && !IsEmpty()
      else
        if y.IsInverted() then IsFull() || y.IsEmpty()
        else y.lo >= lo && y.hi <= hi
    }

    predicate Intersects(y: Interval)
    {
      if IsEmpty() || y.IsEmpty() then false
      else if IsInverted() then y.IsInverted() || y.lo <= hi || y.hi >= lo
      else if y.IsInverted() then y.lo <= hi || y.hi >= lo
      else y.lo <= hi && y.hi >= lo
    }

    function Union(y: Interval): Interval
    {
      if y.IsEmpty() then this
      else if FastContains(y.lo) then
        if FastContains(y.hi) then
          if Contains(y) then this else Full()
        else Interval(lo, y.hi)
      else if FastContains(y.hi) then Interval(y.lo, hi)
      else if IsEmpty() || y.FastContains(lo) then y
      else if PositiveDistance(y.hi, lo) < PositiveDistance(hi, y.lo) then Interval(y.lo, hi)
      else Interval(lo, y.hi)
    }

    function Intersection(y: Interval): Interval
    {
      if y.IsEmpty() then Empty()
      else if FastContains(y.lo) then
        if FastContains(y.hi) then
          if y.GetLength() < GetLength() then y else this
        else Interval(y.lo, hi)
      else if FastContains(y.hi) then Interval(lo, y.hi)
      else if y.FastContains(lo) then this
      else Empty()
    }

    function GetDirectedHausdorffDistance(y: Interval): real
      requires IsValid() && y.IsValid()
    {
      if y.Contains(this) then 0.0
      else if y.IsEmpty() then PI
      else
        var center := y.GetComplementCenter();
        if ContainsPoint(center) then PositiveDistance(y.hi, center)
        else
          var hiHi := if FromBounds(y.hi, center).ContainsPoint(hi) then PositiveDistance(y.hi, hi) else 0.0;
          var loLo := if FromBounds(center, y.lo).ContainsPoint(lo) then PositiveDistance(lo, y.lo) else 0.0;
          Max(hiHi, loLo)
    }

    function Project(p: real): real
      requires IsAngle(p)
    {
      var q := Normalized(p);
      if FastContains(q) then q
      else if PositiveDistance(q, lo) < PositiveDistance(hi, q) then lo else hi
    }
  }

  function Empty(): Interval
  {
    Interval(PI, -PI)
  }

  function Full(): Interval
  {
    Interval(-PI, PI)
  }

  // The constructor replaces -PI except in the empty and the full interval.
  function FromBounds(lo: real, hi: real): Interval
  {
    Interval(if lo == -PI && hi != PI then PI else lo, if hi == -PI && lo != PI then PI else hi)
  }

  function FromPoint(p: real): Interval
    requires IsAngle(p)
  {
    Interval(Normalized(p), Normalized(p))
  }

  function FromPointPair(p1: real, p2: real): Interval
    requires IsAngle(p1) && IsAngle(p2)
  {
    var q1, q2 := Normalized(p1), Normalized(p2);
    if PositiveDistance(q1, q2) <= PI then Interval(q1, q2) else Interval(q2, q1)
  }

  // ----- points and subsets -----

  lemma BoundsAreValid(lo: real, hi: real)
    requires IsAngle(lo) && IsAngle(hi)
    ensures FromBounds(lo, hi).IsValid()
    ensures FromBounds(lo, hi) == if Interval(lo, hi).IsValid() then Interval(lo, hi)
                                  else Interval(Normalized(lo), Normalized(hi))
  {
  }

  lemma ContainsPointIsHas(x: Interval, p: real)
    requires x.IsValid() && IsAngle(p)
    ensures x.ContainsPoint(p) <==> x.Has(Normalized(p))
  {
  }

  ghost predicate Subset(x: Interval, y: Interval)
  {
    forall p :: IsPoint(p) && x.Has(p) ==> y.Has(p)
  }

  // The middle of what an interval leaves out.
  lemma CenterIsOutside(x: Interval)
    requires x.IsValid() && !x.IsFull() && !x.IsEmpty()
    ensures IsPoint(x.GetComplementCenter()) && !x.Has(x.GetComplementCenter())
  {
  }

  lemma ContainsIsSubset(x: Interval, y: Interval)
    requires x.IsValid() && y.IsValid()
    ensures x.Contains(y) <==> Subset(y, x)
  {
    if Subset(y, x) {
      var lo, hi := Normalized(y.lo), Normalized(y.hi);
      assert y.IsEmpty() || (y.Has(lo) && y.Has(hi));
      assert x.Has(lo) || y.IsEmpty();
      assert x.Has(hi) || y.IsEmpty();
      if !x.IsFull() && !x.IsEmpty() {
        CenterIsOutside(x);
        assert !y.Has(x.GetComplementCenter());
      }
    }
  }

  lemma IntersectsIsCommonPoint(x: Interval, y: Interval)
    requires x.IsValid() && y.IsValid()
    ensures x.Intersects(y) <==> exists p :: IsPoint(p) && x.Has(p) && y.Has(p)
  {
    if x.Intersects(y) {
      var p := if x.Has(Normalized(y.lo)) then Normalized(y.lo) else Normalized(x.lo);
      assert IsPoint(p) && x.Has(p) && y.Has(p);
    }
  }

  // ----- union -----

  lemma UnionCovers(x: Interval, y: Interval)
    requires x.IsValid() && y.IsValid()
    ensures x.Union(y).IsValid() && x.Union(y).Contains(x) && x.Union(y).Contains(y)
  {
  }

  lemma UnionIsLeast(x: Interval, y: Interval, z: Interval)
    requires x.IsValid() && y.IsValid() && z.IsValid() && z.Contains(x) && z.Contains(y)
    ensures x.Union(y).GetLength() <= z.GetLength()
  {
  }

  // The union is a shortest interval with all points of both.
  lemma UnionIsSmallest(x: Interval, y: Interval)
    requires x.IsValid() && y.IsValid()
    ensures x.Union(y).IsValid() && Subset(x, x.Union(y)) && Subset(y, x.Union(y))
    ensures forall z: Interval :: z.IsValid() && Subset(x, z) && Subset(y, z) ==> x.Union(y).GetLength() <= z.GetLength()
  {
    UnionCovers(x, y);
    ContainsIsSubset(x.Union(y), x);
    ContainsIsSubset(x.Union(y), y);
    forall z: Interval | z.IsValid() && Subset(x, z) && Subset(y, z)
      ensures x.Union(y).GetLength() <= z.GetLength()
    {
      ContainsIsSubset(z, x);
      ContainsIsSubset(z, y);
      UnionIsLeast(x, y, z);
    }
  }

  // ----- intersection -----

  ghost predicate CoversBoth(x: Interval, y: Interval, z: Interval)
  {
    forall p :: IsPoint(p) && x.Has(p) && y.Has(p) ==> z.Has(p)
  }

  lemma IntersectionCovers(x: Interval, y: Interval)
    requires x.IsValid() && y.IsValid()
    ensures x.Intersection(y).IsValid() && CoversBoth(x, y, x.Intersection(y))
  {
  }

  // Unless each operand has both ends of the other, the result is the intersection.
  lemma IntersectionIsExact(x: Interval, y: Interval)
    requires x.IsValid() && y.IsValid()
    requires y.IsEmpty() || !x.FastContains(y.lo) || !x.FastContains(y.hi)
    ensures Subset(x.Intersection(y), x) && Subset(x.Intersection(y), y)
  {
  }

  lemma ContainedIsShorter(x: Interval, y: Interval)
    requires x.IsValid() && y.IsValid() && x.Contains(y)
    ensures y.GetLength() <= x.GetLength()
  {
  }

  // What an interval leaves out lies in one gap of the two pieces.
  lemma TwoPieces(x: Interval, y: Interval, z: Interval)
    requires x.IsValid() && y.IsValid() && z.IsValid() && CoversBoth(x, y, z)
    requires !y.IsEmpty() && x.FastContains(y.lo) && x.FastContains(y.hi)
    ensures x.GetLength() <= z.GetLength() || y.GetLength() <= z.GetLength()
  {
    if y.Contains(x) || x.Contains(y) {
      OneInOther(x, y, z);
    } else {
      EndsAreCommon(x, y);
      var a, b, c, d := Normalized(x.lo), Normalized(x.hi), Normalized(y.lo), Normalized(y.hi);
      assert z.Has(a) && z.Has(b) && z.Has(c) && z.Has(d);
      var e := z.GetComplementCenter();
      if !z.IsFull() {
        CenterIsOutside(z);
        assert !x.Has(e) || !y.Has(e);
      }
      hide CoversBoth;
      if z.IsFull() || !x.Has(e) {
        ThreePoints(z, x);
        ContainedIsShorter(z, x);
      } else {
        ThreePoints(z, y);
        ContainedIsShorter(z, y);
      }
    }
  }

  lemma OneInOther(x: Interval, y: Interval, z: Interval)
    requires x.IsValid() && y.IsValid() && z.IsValid() && CoversBoth(x, y, z) && (y.Contains(x) || x.Contains(y))
    ensures x.GetLength() <= z.GetLength() || y.GetLength() <= z.GetLength()
  {
    ContainsIsSubset(x, y);
    ContainsIsSubset(y, x);
    if y.Contains(x) {
      assert Subset(x, z);
      ContainsIsSubset(z, x);
      ContainedIsShorter(z, x);
    } else {
      assert Subset(y, z);
      ContainsIsSubset(z, y);
      ContainedIsShorter(z, y);
    }
  }

  lemma EndsAreCommon(x: Interval, y: Interval)
    requires x.IsValid() && y.IsValid() && !y.IsEmpty() && x.FastContains(y.lo) && x.FastContains(y.hi)
    requires !y.Contains(x) && !x.Contains(y)
    ensures forall p :: p in [Normalized(x.lo), Normalized(x.hi), Normalized(y.lo), Normalized(y.hi)] ==> x.Has(p) && y.Has(p)
  {
  }

  // An interval with both ends of another contains it unless it leaves out its middle.
  lemma ThreePoints(z: Interval, r: Interval)
    requires z.IsValid() && r.IsValid() && !r.IsEmpty() && z.Has(Normalized(r.lo)) && z.Has(Normalized(r.hi))
    requires z.IsFull() || !r.Has(z.GetComplementCenter())
    ensures z.Contains(r)
  {
  }

  lemma IntersectionIsLeast(x: Interval, y: Interval, z: Interval)
    requires x.IsValid() && y.IsValid() && z.IsValid() && CoversBoth(x, y, z)
    ensures x.Intersection(y).GetLength() <= z.GetLength()
  {
    if !y.IsEmpty() && x.FastContains(y.lo) && x.FastContains(y.hi) {
      TwoPieces(x, y, z);
    } else {
      var r := x.Intersection(y);
      IntersectionCovers(x, y);
      IntersectionIsExact(x, y);
      assert Subset(r, z);
      ContainsIsSubset(z, r);
      ContainedIsShorter(z, r);
    }
  }

  // The intersection is a shortest interval with all common points.
  lemma IntersectionIsSmallest(x: Interval, y: Interval)
    requires x.IsValid() && y.IsValid()
    ensures x.Intersection(y).IsValid() && CoversBoth(x, y, x.Intersection(y))
    ensures forall z: Interval :: z.IsValid() && CoversBoth(x, y, z) ==> x.Intersection(y).GetLength() <= z.GetLength()
  {
    IntersectionCovers(x, y);
    forall z: Interval | z.IsValid() && CoversBoth(x, y, z)
      ensures x.Intersection(y).GetLength() <= z.GetLength()
    {
      IntersectionIsLeast(x, y, z);
    }
  }

  // ----- distances -----

  // d is the distance of a point to an interval.
  ghost predicate IsDistanceTo(y: Interval, p: real, d: real)
  {
    && (exists q :: IsPoint(q) && y.Has(q) && Distance(p, q) == d)
    && (forall q :: IsPoint(q) && y.Has(q) ==> d <= Distance(p, q))
  }

  // Project finds a nearest point.
  lemma ProjectIsNearest(y: Interval, p: real)
    requires y.IsValid() && !y.IsEmpty() && IsPoint(p)
    ensures IsPoint(y.Project(p)) && y.Has(y.Project(p)) && IsDistanceTo(y, p, Distance(p, y.Project(p)))
  {
    var r := y.Project(p);
    assert IsPoint(r) && y.Has(r);
    forall q | IsPoint(q) && y.Has(q)
      ensures Distance(p, r) <= Distance(p, q)
    {
      NoneNearer(y, p, q);
    }
  }

  lemma NoneNearer(y: Interval, p: real, q: real)
    requires y.IsValid() && !y.IsEmpty() && IsPoint(p) && IsPoint(q) && y.Has(q)
    ensures Distance(p, y.Project(p)) <= Distance(p, q)
  {
  }

  // The distance of a point outside is that to an end.
  function DistanceTo(y: Interval, p: real): real
    requires IsAngle(p)
  {
    Distance(p, y.Project(p))
  }

  // h is the greatest distance of a point of x to y.
  ghost predicate IsHausdorff(x: Interval, y: Interval, h: real)
  {
    && (forall p, d :: IsPoint(p) && x.Has(p) && IsDistanceTo(y, p, d) ==> d <= h)
    && (exists p :: IsPoint(p) && x.Has(p) && IsDistanceTo(y, p, h))
  }

  lemma DistanceIsUnique(y: Interval, p: real, d: real, e: real)
    requires IsDistanceTo(y, p, d) && IsDistanceTo(y, p, e)
    ensures d == e
  {
  }

  // How much of the circle an interval leaves out.
  function Gap(y: Interval): real
  {
    2.0 * PI - y.GetLength()
  }

  // Where a point outside an interval lies in the gap.
  lemma InGap(y: Interval, p: real)
    requires y.IsValid() && !y.IsEmpty() && IsPoint(p) && !y.Has(p)
    ensures 0.0 < PositiveDistance(y.hi, p) && 0.0 < PositiveDistance(p, y.lo)
    ensures PositiveDistance(y.hi, p) + PositiveDistance(p, y.lo) == Gap(y)
    ensures DistanceTo(y, p) == Min(PositiveDistance(y.hi, p), PositiveDistance(p, y.lo))
  {
  }

  lemma InsideOrNot(y: Interval, p: real)
    requires y.IsValid() && !y.IsEmpty() && !y.IsFull() && IsPoint(p)
    ensures y.Has(p) <==> DistanceTo(y, p) == 0.0
    ensures y.Has(p) <==> PositiveDistance(y.hi, p) >= Gap(y) || p == y.hi
    ensures y.Has(p) <==> PositiveDistance(p, y.lo) >= Gap(y) || p == y.lo
  {
  }

  lemma CenterInGap(y: Interval)
    requires y.IsValid() && !y.IsEmpty() && !y.IsFull()
    ensures var c := y.GetComplementCenter();
            IsPoint(c) && PositiveDistance(y.hi, c) == Gap(y) / 2.0 && PositiveDistance(c, y.lo) == Gap(y) / 2.0
    ensures 0.0 < Gap(y) <= 2.0 * PI
  {
  }

  // From one of its points, an interval ends before any point that it leaves out.
  lemma EndsBefore(x: Interval, p: real, c: real)
    requires x.IsValid() && IsPoint(p) && IsPoint(c) && x.Has(p) && !x.Has(c)
    ensures IsPoint(x.lo) && IsPoint(x.hi) && x.Has(x.lo) && x.Has(x.hi)
    ensures PositiveDistance(p, x.hi) < PositiveDistance(p, c) && PositiveDistance(x.lo, p) < PositiveDistance(c, p)
  {
  }

  lemma Between(a: real, p: real, q: real, c: real)
    requires IsPoint(a) && IsPoint(p) && IsPoint(q) && IsPoint(c)
    ensures PositiveDistance(a, p) <= PositiveDistance(a, c) && PositiveDistance(p, q) <= PositiveDistance(p, c) ==>
              PositiveDistance(a, p) <= PositiveDistance(a, q) <= PositiveDistance(a, c)
    ensures PositiveDistance(p, a) <= PositiveDistance(c, a) && PositiveDistance(q, p) <= PositiveDistance(c, p) ==>
              PositiveDistance(p, a) <= PositiveDistance(q, a) <= PositiveDistance(c, a)
  {
  }

  lemma InArc(a: real, b: real, p: real)
    requires IsPoint(a) && IsPoint(b) && IsPoint(p)
    ensures FromBounds(a, b).ContainsPoint(p) <==> PositiveDistance(a, p) <= PositiveDistance(a, b)
    ensures FromBounds(a, b).ContainsPoint(p) <==> PositiveDistance(p, b) <= PositiveDistance(a, b)
  {
  }

  // The distance counts an end of x only if it is nearer than the middle of the gap.
  function NearEnd(d: real, half: real): real
  {
    if d <= half then d else 0.0
  }

  lemma HausdorffIs(x: Interval, y: Interval)
    requires x.IsValid() && y.IsValid() && !x.IsEmpty() && !y.IsEmpty() && !y.Contains(x)
    ensures !y.IsFull()
    ensures if x.Has(y.GetComplementCenter()) then x.GetDirectedHausdorffDistance(y) == Gap(y) / 2.0
            else IsPoint(x.lo) && IsPoint(x.hi)
                 && x.GetDirectedHausdorffDistance(y)
                    == Max(NearEnd(PositiveDistance(y.hi, x.hi), Gap(y) / 2.0), NearEnd(PositiveDistance(x.lo, y.lo), Gap(y) / 2.0))
  {
    NotFull(x, y);
    var c := y.GetComplementCenter();
    CenterInGap(y);
    ContainsPointIsHas(x, c);
    if !x.Has(c) {
      EndsArePoints(x, c);
      EndsArePoints(y, c);
      InArc(y.hi, c, x.hi);
      InArc(c, y.lo, x.lo);
    }
    hide PositiveDistance, Normalized, FromBounds, Interval.ContainsPoint, Interval.Has, Interval.GetComplementCenter, Gap;
  }

  lemma NotFull(x: Interval, y: Interval)
    requires x.IsValid() && y.IsValid() && !y.Contains(x)
    ensures !y.IsFull()
  {
  }

  lemma EndsArePoints(x: Interval, c: real)
    requires x.IsValid() && !x.IsEmpty() && !x.IsFull()
    ensures IsPoint(x.lo) && IsPoint(x.hi) && x.Has(x.lo) && x.Has(x.hi)
  {
  }

  // No point of x is farther from y.
  lemma HausdorffBounds(x: Interval, y: Interval, p: real)
    requires x.IsValid() && y.IsValid() && !y.IsEmpty() && IsPoint(p) && x.Has(p)
    ensures DistanceTo(y, p) <= x.GetDirectedHausdorffDistance(y)
  {
    if y.Contains(x) {
      ContainsIsSubset(y, x);
      InsideIsZero(y, p);
    } else {
      HausdorffIs(x, y);
      InsideOrNot(y, p);
      CenterInGap(y);
      if !y.Has(p) {
        InGap(y, p);
        if !x.Has(y.GetComplementCenter()) {
          EndIsFarther(x, y, p, y.GetComplementCenter());
        }
      }
      hide PositiveDistance, Interval.GetComplementCenter, Interval.Has, Interval.GetDirectedHausdorffDistance, DistanceTo, Gap,
           NearEnd, Interval.Contains;
    }
  }

  lemma EndIsFarther(x: Interval, y: Interval, p: real, c: real)
    requires x.IsValid() && y.IsValid() && !y.IsEmpty() && !y.IsFull() && IsPoint(p) && x.Has(p) && IsPoint(c) && !x.Has(c)
    requires PositiveDistance(y.hi, c) == Gap(y) / 2.0 && PositiveDistance(c, y.lo) == Gap(y) / 2.0
    requires PositiveDistance(y.hi, p) + PositiveDistance(p, y.lo) == Gap(y)
    ensures Min(PositiveDistance(y.hi, p), PositiveDistance(p, y.lo))
            <= Max(NearEnd(PositiveDistance(y.hi, x.hi), Gap(y) / 2.0), NearEnd(PositiveDistance(x.lo, y.lo), Gap(y) / 2.0))
  {
    EndsBefore(x, p, c);
    EndsArePoints(y, c);
    Between(y.hi, p, x.hi, c);
    Between(y.lo, p, x.lo, c);
    hide PositiveDistance, Interval.Has, Gap;
  }

  lemma InsideIsZero(y: Interval, p: real)
    requires y.IsValid() && IsPoint(p) && y.Has(p)
    ensures DistanceTo(y, p) == 0.0
  {
  }

  // Where the distance is attained.
  function Farthest(x: Interval, y: Interval): (p: real)
    requires x.IsValid() && y.IsValid() && !x.IsEmpty() && !y.IsEmpty()
    ensures IsPoint(p)
  {
    var center := Normalized(y.GetComplementCenter());
    if y.Contains(x) then Normalized(x.lo)
    else if x.Has(center) then center
    else if DistanceTo(y, x.hi) >= DistanceTo(y, x.lo) then Normalized(x.hi) else Normalized(x.lo)
  }

  lemma HausdorffAttained(x: Interval, y: Interval)
    requires x.IsValid() && y.IsValid() && !x.IsEmpty() && !y.IsEmpty()
    ensures x.Has(Farthest(x, y)) && DistanceTo(y, Farthest(x, y)) == x.GetDirectedHausdorffDistance(y)
  {
    if y.Contains(x) {
      ContainsIsSubset(y, x);
      assert x.Has(Normalized(x.lo));
      InsideIsZero(y, Normalized(x.lo));
    } else {
      HausdorffIs(x, y);
      CenterInGap(y);
      CenterIsOutside(y);
      var c := y.GetComplementCenter();
      if x.Has(c) {
        InGap(y, c);
        hide PositiveDistance, Interval.GetComplementCenter, Interval.Has, Interval.GetDirectedHausdorffDistance, DistanceTo, Gap;
      } else {
        SomePointOutside(x, y);
        EndsArePoints(x, c);
        EndAttains(x, y, x.GetDirectedHausdorffDistance(y));
        HausdorffBounds(x, y, x.hi);
        HausdorffBounds(x, y, x.lo);
        hide PositiveDistance, Interval.GetComplementCenter, Interval.Has, Interval.GetDirectedHausdorffDistance, DistanceTo, Gap,
             NearEnd, Interval.Contains;
      }
    }
  }

  lemma SomePointOutside(x: Interval, y: Interval)
    requires x.IsValid() && y.IsValid() && !y.IsEmpty() && !y.IsFull() && !y.Contains(x)
    ensures x.GetDirectedHausdorffDistance(y) > 0.0
  {
    ContainsIsSubset(y, x);
    var p :| IsPoint(p) && x.Has(p) && !y.Has(p);
    HausdorffBounds(x, y, p);
    InGap(y, p);
    hide Interval.GetDirectedHausdorffDistance, PositiveDistance, DistanceTo, Interval.Has, Gap;
  }

  lemma EndAttains(x: Interval, y: Interval, h: real)
    requires y.IsValid() && !y.IsEmpty() && !y.IsFull() && IsPoint(x.lo) && IsPoint(x.hi) && h > 0.0
    requires h == Max(NearEnd(PositiveDistance(y.hi, x.hi), Gap(y) / 2.0), NearEnd(PositiveDistance(x.lo, y.lo), Gap(y) / 2.0))
    ensures h == DistanceTo(y, x.hi) || h == DistanceTo(y, x.lo)
  {
    CenterInGap(y);
    InsideOrNot(y, x.hi);
    InsideOrNot(y, x.lo);
    assert PositiveDistance(y.hi, y.hi) == 0.0 && PositiveDistance(y.lo, y.lo) == 0.0;
    if h == NearEnd(PositiveDistance(y.hi, x.hi), Gap(y) / 2.0) {
      assert !y.Has(x.hi);
      InGap(y, x.hi);
    } else {
      assert !y.Has(x.lo);
      InGap(y, x.lo);
    }
    hide PositiveDistance, DistanceTo, Interval.Has, Gap;
  }

  lemma HausdorffIsGreatest(x: Interval, y: Interval)
    requires x.IsValid() && y.IsValid()
    ensures var h := x.GetDirectedHausdorffDistance(y);
            if x.IsEmpty() then h == 0.0 else if y.IsEmpty() then h == PI else IsHausdorff(x, y, h)
  {
    var h := x.GetDirectedHausdorffDistance(y);
    if !x.IsEmpty() && !y.IsEmpty() {
      forall p, d | IsPoint(p) && x.Has(p) && IsDistanceTo(y, p, d)
        ensures d <= h
      {
        ProjectIsNearest(y, p);
        DistanceIsUnique(y, p, d, DistanceTo(y, p));
        HausdorffBounds(x, y, p);
      }
      HausdorffAttained(x, y);
      ProjectIsNearest(y, Farthest(x, y));
    }
  }

  // ----- adding points -----

  class S1Interval {
    var lo: real
    var hi: real

    function Value(): Interval
      reads this
    {
      Interval(lo, hi)
    }

    constructor ()
      ensures Value() == Empty()
    {
      lo, hi := PI, -PI;
    }

    // The result is the union with the one point.
    method AddPoint(p: real)
      requires Value().IsValid() && IsAngle(p)
      modifies this
      ensures Value() == old(Value()).Union(FromPoint(p)) && Value().IsValid()
      ensures !old(Value()).IsFull() ==> !Value().IsFull()
    {
      var q := Normalized(p);
      if Value().FastContains(q) {
        return;
      }
      if Value().IsEmpty() {
        hi := q;
        lo := q;
      } else {
        var dlo := PositiveDistance(q, lo);
        var dhi := PositiveDistance(hi, q);
        if dlo < dhi {
          lo := q;
        } else {
          hi := q;
        }
      }
    }
  }

  // An added point extends an interval as little as possible.
  lemma AddedPointIsLeast(x: Interval, p: real)
    requires x.IsValid() && IsAngle(p)
    ensures x.Union(FromPoint(p)).IsValid() && Subset(x, x.Union(FromPoint(p))) && x.Union(FromPoint(p)).Has(Normalized(p))
    ensures forall z: Interval :: z.IsValid() && Subset(x, z) && z.Has(Normalized(p)) ==>
              x.Union(FromPoint(p)).GetLength() <= z.GetLength()
  {
    var y := FromPoint(p);
    UnionIsSmallest(x, y);
    assert y.Has(Normalized(p));
    forall z: Interval | z.IsValid() && Subset(x, z) && z.Has(Normalized(p))
      ensures Subset(y, z)
    {
    }
  }

  // A pair of points is added as one after the other.
  lemma PairIsAddedTwice(p1: real, p2: real)
    requires IsAngle(p1) && IsAngle(p2)
    ensures FromPointPair(p1, p2) == Empty().Union(FromPoint(p1)).Union(FromPoint(p2))
    ensures FromPointPair(p1, p2).GetLength() <= PI
  {
  }
}
