/**
 GetMaxBatchSizes: the sizes of the batches of an index update, and what they
 mean for its use of memory.
 */
module BatchSizes {
  import opened Common

  // ----- sums -----

  function Sum(s: seq<nat>): nat
  {
    if s == [] then 0 else Sum(s[..|s| - 1]) + s[|s| - 1]
  }

  lemma {:induction false} SumAppend(s: seq<nat>, t: seq<nat>)
    ensures Sum(s + t) == Sum(s) + Sum(t)
  {
    if t == [] {
      assert s + t == s;
    } else {
      SumAppend(s, t[..|t| - 1]);
      assert (s + t)[..|s + t| - 1] == s + t[..|t| - 1];
    }
  }

  // The sum of the first n elements.
  function Prefix(s: seq<nat>, n: nat): nat
    requires n <= |s|
  {
    Sum(s[..n])
  }

  lemma PrefixZero(s: seq<nat>)
    ensures Prefix(s, 0) == 0
  {
  }

  lemma PrefixStep(s: seq<nat>, n: nat)
    requires n < |s|
    ensures Prefix(s, n + 1) == Prefix(s, n) + s[n]
  {
    assert s[..n + 1][..n] == s[..n];
  }

  lemma {:induction false} PrefixMono(s: seq<nat>, m: nat, n: nat)
    requires m <= n <= |s|
    ensures Prefix(s, m) <= Prefix(s, n)
  {
    if m < n {
      PrefixMono(s, m, n - 1);
      PrefixStep(s, n - 1);
    }
  }

  lemma PrefixAppend(s: seq<nat>, x: nat)
    ensures Prefix(s + [x], |s|) == Sum(s) && Sum(s + [x]) == Sum(s) + x
  {
    assert (s + [x])[..|s|] == s;
    assert (s + [x])[..|s + [x]| - 1] == s;
  }

  // ----- powers -----

  function Power(x: real, n: nat): (r: real)
    requires 0.0 < x < 1.0
    ensures 0.0 < r && (if n == 0 then r == 1.0 else r < 1.0)
  {
    if n == 0 then 1.0 else x * Power(x, n - 1)
  }

  // ----- the sizes -----

  // What an edge takes during the update and afterwards, and a limit on the
  // number of batches.
  const TMP_BYTES_PER_EDGE := 226
  const FINAL_BYTES_PER_EDGE := 8
  const MAX_BATCHES := 100
  const TMP_SPACE_MULTIPLIER: real := 1.0 - 8.0 / 226.0

  // What a batch may use, along with the edges that have been indexed before.
  function TotalBudget(added: nat, budget: real): (r: real)
    requires budget >= 0.0
    ensures r >= 0.0
  {
    var finalBytes := (added * FINAL_BYTES_PER_EDGE) as real;
    var least := finalBytes / (1.0 - Power(TMP_SPACE_MULTIPLIER, MAX_BATCHES - 1));
    if finalBytes + budget >= least then finalBytes + budget else least
  }

  // It is the least that leaves the budget to the first batch and has room, over
  // the first 99 batches, for all the edges.
  lemma TotalIsLeast(added: nat, budget: real, total: real)
    requires budget >= 0.0
    ensures var finalBytes := (added * FINAL_BYTES_PER_EDGE) as real;
            total >= TotalBudget(added, budget)
            <==> && total >= finalBytes + budget
                 && finalBytes <= total * (1.0 - Power(TMP_SPACE_MULTIPLIER, MAX_BATCHES - 1))
  {
    hide Power;
    AtLeastQuotient((added * FINAL_BYTES_PER_EDGE) as real, 1.0 - Power(TMP_SPACE_MULTIPLIER, MAX_BATCHES - 1), total);
  }

  lemma AtLeastQuotient(x: real, y: real, q: real)
    requires y > 0.0
    ensures q >= x / y <==> x <= q * y
  {
    var p := x / y;
    assert p * y == x;
    if q >= p {
      ProductAtLeast(q - p, y);
    } else {
      StrictProduct(p - q, y);
    }
  }

  lemma StrictProduct(x: real, y: real)
    requires x > 0.0 && y > 0.0
    ensures x * y > 0.0
  {
  }

  // The size of the first batch, before rounding.
  function Ideal(added: nat, budget: real): (r: real)
    requires budget >= 0.0
    ensures r >= 0.0 && r * TMP_BYTES_PER_EDGE as real == TotalBudget(added, budget)
  {
    TotalBudget(added, budget) / TMP_BYTES_PER_EDGE as real
  }

  // That of batch number j, and its size.
  function IdealAt(ideal: real, j: nat): (r: real)
    requires ideal >= 0.0
    ensures r >= 0.0
  {
    ProductAtLeast(ideal, Power(TMP_SPACE_MULTIPLIER, j));
    ideal * Power(TMP_SPACE_MULTIPLIER, j)
  }

  function SizeAt(ideal: real, j: nat): (r: nat)
    requires ideal >= 0.0
    ensures r >= 1 && IdealAt(ideal, j) < r as real <= IdealAt(ideal, j) + 1.0
  {
    (IdealAt(ideal, j) + 1.0).Floor
  }

  lemma ProductAtLeast(x: real, y: real)
    requires x >= 0.0 && y >= 0.0
    ensures x * y >= 0.0
  {
  }

  function Sizes(ideal: real, n: nat): (r: seq<nat>)
    requires ideal >= 0.0
    ensures |r| == n
  {
    if n == 0 then [] else Sizes(ideal, n - 1) + [SizeAt(ideal, n - 1)]
  }

  // n batches are just enough for this number of edges.
  ghost predicate JustCover(ideal: real, n: nat, edges: int)
    requires ideal >= 0.0
  {
    edges <= Sum(Sizes(ideal, n)) && (n > 0 ==> Sum(Sizes(ideal, n - 1)) < edges)
  }

  predicate FitsAtOnce(removed: nat, added: nat, budget: real)
  {
    ((removed + added) * TMP_BYTES_PER_EDGE) as real <= budget
  }

  // One batch if everything fits.  Otherwise the removed edges are part of the
  // first batch, or a batch of their own if they exceed it.
  ghost predicate AreBatchSizes(removed: nat, added: nat, budget: real, sizes: seq<nat>)
    requires budget >= 0.0
  {
    var ideal := Ideal(added, budget);
    && sizes != []
    && if FitsAtOnce(removed, added, budget) then sizes == [removed + added]
       else if removed as real > ideal then
         sizes == [removed] + Sizes(ideal, |sizes| - 1) && JustCover(ideal, |sizes| - 1, added)
       else sizes == Sizes(ideal, |sizes|) && JustCover(ideal, |sizes|, removed + added)
  }

  lemma NextIdeal(ideal: real, j: nat)
    requires ideal >= 0.0
    ensures IdealAt(ideal, j + 1) == IdealAt(ideal, j) * TMP_SPACE_MULTIPLIER
    ensures 226.0 * IdealAt(ideal, j + 1) == 218.0 * IdealAt(ideal, j)
  {
    var p := Power(TMP_SPACE_MULTIPLIER, j);
    Regroup(ideal, TMP_SPACE_MULTIPLIER, p);
  }

  lemma Regroup(x: real, y: real, z: real)
    ensures x * (y * z) == x * z * y
  {
  }

  method GetMaxBatchSizes(removed: nat, added: nat, budget: real) returns (sizes: seq<nat>)
    requires budget >= 0.0
    ensures AreBatchSizes(removed, added, budget, sizes)
  {
    hide Power, IdealAt, TotalBudget, Sum, Sizes;
    var total := removed + added;
    if (total * TMP_BYTES_PER_EDGE) as real <= budget {
      return [total];
    }
    ghost var first := Ideal(added, budget);
    var ideal := TotalBudget(added, budget) / TMP_BYTES_PER_EDGE as real;
    sizes := [];
    var left: int := added;
    if removed as real > ideal {
      sizes := sizes + [removed];
    } else {
      left := left + removed;
    }
    ghost var own, edges, n: nat := sizes, left, 0;
    SizesOfNone(first);
    AppendNothing(own);
    while left > 0
      invariant sizes == own + Sizes(first, n) && left == edges - Sum(Sizes(first, n))
      invariant n > 0 ==> Sum(Sizes(first, n - 1)) < edges
      invariant ideal == IdealAt(first, n)
      decreases left
    {
      var size := (ideal + 1.0).Floor;
      SizesGrow(first, n);
      AppendAssoc(own, Sizes(first, n), [size]);
      sizes := sizes + [size];
      left := left - size;
      NextIdeal(first, n);
      ideal := ideal * TMP_SPACE_MULTIPLIER;
      n := n + 1;
    }
    TotalIsPositive(removed, added, budget);
  }

  lemma SizesOfNone(ideal: real)
    requires ideal >= 0.0
    ensures Sizes(ideal, 0) == [] && Sum(Sizes(ideal, 0)) == 0
    ensures IdealAt(ideal, 0) == ideal
  {
  }

  lemma SizesGrow(ideal: real, n: nat)
    requires ideal >= 0.0
    ensures Sizes(ideal, n + 1) == Sizes(ideal, n) + [SizeAt(ideal, n)]
    ensures Sum(Sizes(ideal, n + 1)) == Sum(Sizes(ideal, n)) + SizeAt(ideal, n)
  {
    hide IdealAt, SizeAt, Sum;
    PrefixAppend(Sizes(ideal, n), SizeAt(ideal, n));
  }

  // What does not fit at once has edges.
  lemma TotalIsPositive(removed: nat, added: nat, budget: real)
    requires budget >= 0.0
    ensures !FitsAtOnce(removed, added, budget) ==> removed + added > 0
  {
  }

  // ----- what the generator needs of them -----

  // Each size allows for at least one edge, they fall, but to no less than half.
  ghost predicate Falling(sizes: seq<nat>)
  {
    && (forall i :: 0 <= i < |sizes| ==> sizes[i] >= 1)
    && (forall i, j :: 0 <= i <= j < |sizes| ==> sizes[j] <= sizes[i])
    && (forall i :: 1 <= i < |sizes| - 1 ==> sizes[i] <= 2 * sizes[i + 1])
  }

  // A batch that may hold "ideal" edges, followed by one for a smaller ideal.
  lemma HalfAtMost(ideal: real, next: real)
    requires 0.0 <= ideal && 226.0 * next == 218.0 * ideal
    ensures 0.0 <= next <= ideal
    ensures 1 <= (next + 1.0).Floor <= (ideal + 1.0).Floor <= 2 * (next + 1.0).Floor
  {
    assert ideal <= 2.0 * next;
  }

  lemma FallingGrows(sizes: seq<nat>, size: nat)
    requires Falling(sizes) && size >= 1
    requires sizes != [] ==> size <= sizes[|sizes| - 1]
    requires |sizes| > 1 ==> sizes[|sizes| - 1] <= 2 * size
    ensures Falling(sizes + [size])
  {
  }

  // After "own", if any, which is not below the first size.
  lemma {:induction false} SizesFall(own: seq<nat>, ideal: real, n: nat)
    requires ideal >= 0.0 && |own| <= 1 && (own != [] ==> own[0] as real > ideal)
    ensures Falling(own + Sizes(ideal, n))
  {
    hide Power, IdealAt;
    if n == 0 {
      AppendNothing(own);
    } else {
      SizesFall(own, ideal, n - 1);
      AppendAssoc(own, Sizes(ideal, n - 1), [SizeAt(ideal, n - 1)]);
      if n > 1 {
        NextSize(ideal, n - 2);
      } else {
        SizesOfNone(ideal);
        AppendNothing(own);
      }
      FallingGrows(own + Sizes(ideal, n - 1), SizeAt(ideal, n - 1));
    }
  }

  lemma NextSize(ideal: real, j: nat)
    requires ideal >= 0.0
    ensures SizeAt(ideal, j + 1) <= SizeAt(ideal, j) <= 2 * SizeAt(ideal, j + 1)
  {
    hide Power, IdealAt;
    NextIdeal(ideal, j);
    HalfAtMost(IdealAt(ideal, j), IdealAt(ideal, j + 1));
  }

  lemma SizesServe(removed: nat, added: nat, budget: real, sizes: seq<nat>)
    requires budget >= 0.0 && AreBatchSizes(removed, added, budget, sizes)
    ensures sizes != [] && removed <= sizes[0] && removed + added <= Sum(sizes) && (|sizes| == 1 || Falling(sizes))
  {
    hide Power, IdealAt, SizeAt, TotalBudget, Sum, Sizes;
    var ideal := Ideal(added, budget);
    if FitsAtOnce(removed, added, budget) {
      PrefixAppend([], removed + added);
      SumOfNone();
    } else if removed as real > ideal {
      SizesFall([removed], ideal, |sizes| - 1);
      SumAppend([removed], Sizes(ideal, |sizes| - 1));
      PrefixAppend([], removed);
      SumOfNone();
    } else {
      SizesFall([], ideal, |sizes|);
      FirstSize(ideal, |sizes|);
      assert [] + Sizes(ideal, |sizes|) == sizes;
    }
  }

  lemma SumOfNone()
    ensures Sum([]) == 0
  {
  }

  lemma {:induction false} FirstSize(ideal: real, n: nat)
    requires ideal >= 0.0 && n > 0
    ensures Sizes(ideal, n)[0] as real > ideal
  {
    hide Power, IdealAt;
    if n > 1 {
      FirstSize(ideal, n - 1);
    } else {
      SizesOfNone(ideal);
    }
  }

  // ----- memory -----

  // The bytes left for batches after "sum" edges, of which "y" edges before
  // rounding may come next.
  ghost predicate Shares(total: real, y: real, sum: nat, j: nat)
  {
    total - 226.0 * y <= 8.0 * sum as real <= total - 226.0 * y + 8.0 * j as real
  }

  lemma SharesNext(total: real, y: real, next: real, sum: nat, size: nat, j: nat)
    requires Shares(total, y, sum, j) && 226.0 * next == 218.0 * y && y < size as real <= y + 1.0
    ensures Shares(total, next, sum + size, j + 1)
  {
  }

  lemma SharesBytes(total: real, y: real, sum: nat, size: nat, j: nat)
    requires Shares(total, y, sum, j) && y < size as real <= y + 1.0
    ensures total < (FINAL_BYTES_PER_EDGE * sum + TMP_BYTES_PER_EDGE * size) as real
                 <= total + (FINAL_BYTES_PER_EDGE * j + TMP_BYTES_PER_EDGE) as real
  {
  }

  // The room for batches shrinks just as edges take their final form.
  lemma {:induction false} SpaceShared(ideal: real, j: nat)
    requires ideal >= 0.0
    ensures Shares(226.0 * ideal, IdealAt(ideal, j), Sum(Sizes(ideal, j)), j)
  {
    hide IdealAt, SizeAt, Sum, Shares;
    if j == 0 {
      SizesOfNone(ideal);
      SharesStart(ideal);
    } else {
      SpaceShared(ideal, j - 1);
      NextIdeal(ideal, j - 1);
      PrefixAppend(Sizes(ideal, j - 1), SizeAt(ideal, j - 1));
      SharesNext(226.0 * ideal, IdealAt(ideal, j - 1), IdealAt(ideal, j), Sum(Sizes(ideal, j - 1)), SizeAt(ideal, j - 1), j - 1);
    }
  }

  lemma SharesStart(ideal: real)
    ensures Shares(226.0 * ideal, ideal, 0, 0)
  {
  }

  // Every batch, together with the edges of the batches before it in their final
  // form, takes the same memory up to rounding: the total budget.
  lemma MemoryOfBatch(ideal: real, j: nat)
    requires ideal >= 0.0
    ensures 226.0 * ideal < (FINAL_BYTES_PER_EDGE * Sum(Sizes(ideal, j)) + TMP_BYTES_PER_EDGE * SizeAt(ideal, j)) as real
                         <= 226.0 * ideal + (FINAL_BYTES_PER_EDGE * j + TMP_BYTES_PER_EDGE) as real
  {
    hide IdealAt, SizeAt, Sum, Shares, Sizes;
    SpaceShared(ideal, j);
    SharesBytes(226.0 * ideal, IdealAt(ideal, j), Sum(Sizes(ideal, j)), SizeAt(ideal, j), j);
  }

  lemma {:induction false} SizesUpTo(ideal: real, n: nat, m: nat)
    requires ideal >= 0.0 && m < n
    ensures Sizes(ideal, n)[..m] == Sizes(ideal, m) && Sizes(ideal, n)[m] == SizeAt(ideal, m)
  {
    hide SizeAt;
    if m < n - 1 {
      SizesUpTo(ideal, n - 1, m);
    }
  }

  // Size number j after "own" and the sizes before it.
  lemma SizesAfter(own: seq<nat>, ideal: real, n: nat, j: nat)
    requires ideal >= 0.0 && |own| <= j < |own| + n
    ensures var sizes, m := own + Sizes(ideal, n), j - |own|;
            sizes[j] == SizeAt(ideal, m) && Prefix(sizes, j) == Sum(own) + Sum(Sizes(ideal, m))
  {
    hide SizeAt, Sizes, Sum;
    var m := j - |own|;
    SizesUpTo(ideal, n, m);
    assert (own + Sizes(ideal, n))[..j] == own + Sizes(ideal, m);
    SumAppend(own, Sizes(ideal, m));
  }

  // ----- the number of batches -----

  lemma {:induction false} SumsGrow(ideal: real, m: nat, n: nat)
    requires ideal >= 0.0 && m <= n
    ensures Sum(Sizes(ideal, m)) <= Sum(Sizes(ideal, n))
  {
    hide IdealAt, SizeAt, Sum, Sizes;
    if m < n {
      SumsGrow(ideal, m, n - 1);
      SizesGrow(ideal, n - 1);
    }
  }

  lemma CoverIsLeast(ideal: real, n: nat, edges: int, m: nat)
    requires ideal >= 0.0 && JustCover(ideal, n, edges)
    ensures n <= m <==> edges <= Sum(Sizes(ideal, m))
  {
    hide Power, IdealAt, SizeAt, Sum, Sizes;
    if n <= m {
      SumsGrow(ideal, n, m);
    } else {
      SumsGrow(ideal, m, n - 1);
    }
  }

  // 99 batches take all added edges.
  lemma AddedFitIn99(added: nat, budget: real)
    requires budget >= 0.0
    ensures added <= Sum(Sizes(Ideal(added, budget), MAX_BATCHES - 1))
  {
    hide Power, IdealAt, SizeAt, Sum, Sizes, Shares, Ideal, TotalBudget;
    var n := MAX_BATCHES - 1;
    var ideal, p := Ideal(added, budget), Power(TMP_SPACE_MULTIPLIER, n);
    SpaceShared(ideal, n);
    IdealShare(ideal, n);
    LeastBudget(added, budget);
    SharesCover(226.0 * ideal, IdealAt(ideal, n), Sum(Sizes(ideal, n)), n, p, added);
  }

  lemma IdealShare(ideal: real, j: nat)
    requires ideal >= 0.0
    ensures 226.0 * IdealAt(ideal, j) == 226.0 * ideal * Power(TMP_SPACE_MULTIPLIER, j)
  {
    hide Power;
    Regroup226(ideal, Power(TMP_SPACE_MULTIPLIER, j));
  }

  // The total budget is large enough for 100 batches.
  lemma LeastBudget(added: nat, budget: real)
    requires budget >= 0.0
    ensures var p := Power(TMP_SPACE_MULTIPLIER, MAX_BATCHES - 1);
            8.0 * added as real <= 226.0 * Ideal(added, budget) * (1.0 - p)
  {
    hide Power;
    var p := Power(TMP_SPACE_MULTIPLIER, MAX_BATCHES - 1);
    Quotient((added * FINAL_BYTES_PER_EDGE) as real, 1.0 - p, TotalBudget(added, budget));
  }

  lemma SharesCover(total: real, y: real, sum: nat, j: nat, p: real, added: nat)
    requires Shares(total, y, sum, j) && 226.0 * y == total * p && 8.0 * added as real <= total * (1.0 - p)
    ensures added <= sum
  {
    Distribute(total, p);
  }

  lemma Quotient(x: real, y: real, z: real)
    requires x >= 0.0 && y > 0.0 && z >= x / y
    ensures x <= z * y
  {
  }

  lemma Distribute(x: real, p: real)
    ensures x * (1.0 - p) == x - x * p
  {
  }

  lemma Regroup226(x: real, p: real)
    ensures 226.0 * x * p == 226.0 * (x * p)
  {
  }

  // At most 100 batches are promised.  That holds if and only if everything fits
  // at once, or the removed edges get a batch of their own, or 100 batches are
  // enough for the removed edges as well.
  lemma BatchesAreLimitedIff(removed: nat, added: nat, budget: real, sizes: seq<nat>)
    requires budget >= 0.0 && AreBatchSizes(removed, added, budget, sizes)
    ensures |sizes| <= MAX_BATCHES
            <==> FitsAtOnce(removed, added, budget) || removed as real > Ideal(added, budget)
                 || removed + added <= Sum(Sizes(Ideal(added, budget), MAX_BATCHES))
    ensures removed == 0 ==> |sizes| <= MAX_BATCHES
  {
    hide Power, IdealAt, SizeAt, Sum, Sizes, TotalBudget, JustCover;
    var ideal := Ideal(added, budget);
    AddedFitIn99(added, budget);
    SumsGrow(ideal, MAX_BATCHES - 1, MAX_BATCHES);
    if !FitsAtOnce(removed, added, budget) {
      if removed as real > ideal {
        CoverIsLeast(ideal, |sizes| - 1, added, MAX_BATCHES - 1);
      } else {
        CoverIsLeast(ideal, |sizes|, removed + added, MAX_BATCHES);
      }
    }
  }

  // ----- more than 100 batches -----

  lemma {:induction false} PowerAdd(x: real, m: nat, n: nat)
    requires 0.0 < x < 1.0
    ensures Power(x, m + n) == Power(x, m) * Power(x, n)
  {
    if m > 0 {
      PowerAdd(x, m - 1, n);
      Regroup3(x, Power(x, m - 1), Power(x, n));
    }
  }

  lemma Regroup3(x: real, y: real, z: real)
    ensures x * (y * z) == (x * y) * z
  {
  }

  lemma Doubled(x: real, n: nat, m: nat, bound: real, square: real)
    requires 0.0 < x < 1.0 && m == 2 * n && Power(x, n) <= bound && square == bound * bound
    ensures Power(x, m) <= square
  {
    PowerAdd(x, n, n);
    Monotone(Power(x, n), bound);
  }

  lemma Monotone(y: real, bound: real)
    requires 0.0 <= y <= bound
    ensures y * y <= bound * bound
  {
  }

  lemma PowerOfOne(x: real)
    requires 0.0 < x < 1.0
    ensures Power(x, 1) == x
  {
    assert Power(x, 0) == 1.0;
  }

  // The space left after 99 batches is less than a quarter.
  lemma LittleIsLeft()
    ensures Power(TMP_SPACE_MULTIPLIER, 99) <= 0.25
  {
    hide Power;
    var x := TMP_SPACE_MULTIPLIER;
    PowerOfOne(x);
    Doubled(x, 1, 2, 0.97, 0.9409);
    Doubled(x, 2, 4, 0.95, 0.9025);
    Doubled(x, 4, 8, 0.91, 0.8281);
    Doubled(x, 8, 16, 0.83, 0.6889);
    Doubled(x, 16, 32, 0.69, 0.4761);
    Doubled(x, 32, 64, 0.48, 0.2304);
    PowerAdd(x, 64, 35);
    Chain(Power(x, 99), Power(x, 64), Power(x, 35));
  }

  lemma Chain(x: real, y: real, z: real)
    requires x == y * z && 0.0 < y <= 0.2304 && 0.0 < z <= 1.0
    ensures x <= 0.25
  {
    Shrinks(y, z);
  }

  lemma Shrinks(y: real, z: real)
    requires 0.0 < y && z <= 1.0
    ensures y * z <= y
  {
  }

  // With no temporary memory to spend, a million edges added and 35000 removed
  // need more.
  lemma TooManyBatches(sizes: seq<nat>)
    requires AreBatchSizes(35_000, 1_000_000, 0.0, sizes)
    ensures |sizes| > MAX_BATCHES
  {
    hide Power, IdealAt, SizeAt, Sum, Sizes, JustCover, Shares, Ideal;
    var ideal, p := Ideal(1_000_000, 0.0), Power(TMP_SPACE_MULTIPLIER, 99);
    LittleIsLeft();
    BudgetOfMillion(p);
    SpaceShared(ideal, 100);
    NextIdeal(ideal, 99);
    IdealShare(ideal, 99);
    SharesLittle(226.0 * ideal, IdealAt(ideal, 99), IdealAt(ideal, 100), Sum(Sizes(ideal, 100)), p);
    BatchesAreLimitedIff(35_000, 1_000_000, 0.0, sizes);
  }

  lemma BudgetOfMillion(p: real)
    requires p == Power(TMP_SPACE_MULTIPLIER, 99) && p <= 0.25
    ensures var total := 226.0 * Ideal(1_000_000, 0.0); total >= 8_000_000.0 && total * (1.0 - p) == 8_000_000.0
  {
    hide Power;
    var q := 8_000_000.0 / (1.0 - p);
    assert q * (1.0 - p) == 8_000_000.0;
    Between(q, p);
  }

  lemma Between(q: real, p: real)
    requires 0.0 < p <= 0.25 && q * (1.0 - p) == 8_000_000.0
    ensures 8_000_000.0 <= q <= 10_666_667.0
  {
  }

  lemma SharesLittle(total: real, y: real, next: real, sum: nat, p: real)
    requires Shares(total, next, sum, 100) && 226.0 * next == 218.0 * y && 226.0 * y == total * p
    requires 0.0 < p <= 0.25 && total * (1.0 - p) == 8_000_000.0
    ensures sum < 1_035_000
  {
    Between(total, p);
    Distribute(total, p);
  }
}
