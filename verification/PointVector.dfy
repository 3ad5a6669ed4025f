/**
 EncodedS2PointVector: points stored as cell centres where possible, in blocks
 of 16, or uncompressed.
 */
module PointVector {
  import opened Common
  import opened Words
  import opened Coder
  import opened BlockCodes
  import opened PointBase
  import opened CellValue
  import opened PointBlock
  import S = StringVector

  // The conversions between points and cells: S2::XYZtoFaceSiTi, and
  // S2::FaceUVtoXYZ composed with the coordinate projections.
  datatype Geometry = Geometry(cellOf: S2Point -> CellPoint, centre: (bv32, bv32, bv32) -> S2Point)

  // A point that is reported to be the centre of a cell is that centre.
  ghost predicate Faithful(g: Geometry)
  {
    forall p: S2Point :: FaithfulAt(g, p)
  }

  ghost predicate FaithfulAt(g: Geometry, p: S2Point)
  {
    var c := g.cellOf(p);
    c.level <= MAX_LEVEL && (c.level >= 0 ==> IsCellCentre(c, c.level) && g.centre(c.face, c.si, c.ti) == p)
  }

  // ----- choosing a level -----

  function CellsOf(points: seq<S2Point>, g: Geometry): (cells: seq<CellPoint>)
    ensures |cells| == |points|
    ensures forall i :: 0 <= i < |points| ==> cells[i] == g.cellOf(points[i])
  {
    seq(|points|, i requires 0 <= i < |points| => g.cellOf(points[i]))
  }

  function LevelCount(cells: seq<CellPoint>, level: int): (n: nat)
    ensures n <= |cells|
  {
    if cells == [] then 0
    else LevelCount(cells[..|cells| - 1], level) + if cells[|cells| - 1].level == level then 1 else 0
  }

  lemma {:induction false} CountedLevel(cells: seq<CellPoint>, level: int)
    requires LevelCount(cells, level) > 0
    ensures exists i :: 0 <= i < |cells| && cells[i].level == level
  {
    var j := |cells| - 1;
    if cells[j].level != level {
      CountedLevel(cells[..j], level);
    }
  }

  // The first level below "limit" with the most points.
  function BestLevel(cells: seq<CellPoint>, limit: nat): (best: nat)
    requires limit >= 1
    ensures best < limit
  {
    if limit == 1 then 0
    else
      var best := BestLevel(cells, limit - 1);
      if LevelCount(cells, limit - 1) > LevelCount(cells, best) then limit - 1 else best
  }

  lemma {:induction false} BestLevelIsMost(cells: seq<CellPoint>, limit: nat, level: nat)
    requires level < limit
    ensures LevelCount(cells, level) <= LevelCount(cells, BestLevel(cells, limit))
    ensures level < BestLevel(cells, limit) ==> LevelCount(cells, level) < LevelCount(cells, BestLevel(cells, limit))
  {
    hide LevelCount;
    if limit > 1 && level < limit - 1 {
      BestLevelIsMost(cells, limit - 1, level);
    }
  }

  // Too few points at the best level for the compact format to pay off?
  predicate TooFew(count: nat, size: nat)
  {
    count as real <= 0.05 * size as real
  }

  function ChosenLevel(cells: seq<CellPoint>): (level: int)
    ensures -1 <= level <= MAX_LEVEL
  {
    var best := BestLevel(cells, MAX_LEVEL + 1);
    if TooFew(LevelCount(cells, best), |cells|) then -1 else best
  }

  method ChooseBestLevel(points: seq<S2Point>, g: Geometry) returns (level: int, cells: seq<CellPoint>)
    requires forall i :: 0 <= i < |points| ==> FaithfulAt(g, points[i])
    ensures cells == CellsOf(points, g) && level == ChosenLevel(cells)
  {
    cells := [];
    var levelCounts := new nat[MAX_LEVEL + 1](_ => 0);
    for i := 0 to |points|
      invariant cells == CellsOf(points, g)[..i]
      invariant forall l :: 0 <= l <= MAX_LEVEL ==> levelCounts[l] == LevelCount(cells, l)
    {
      assert FaithfulAt(g, points[i]);
      var c := g.cellOf(points[i]);
      assert (cells + [c])[..|cells|] == cells;
      cells := cells + [c];
      if c.level >= 0 {
        levelCounts[c.level] := levelCounts[c.level] + 1;
      }
    }
    assert CellsOf(points, g)[..|points|] == CellsOf(points, g);
    var best := 0;
    for l := 1 to MAX_LEVEL + 1
      invariant 0 <= best < l && best == BestLevel(cells, l)
      invariant forall l :: 0 <= l <= MAX_LEVEL ==> levelCounts[l] == LevelCount(cells, l)
    {
      if levelCounts[l] > levelCounts[best] {
        best := l;
      }
    }
    level := if levelCounts[best] as real <= 0.05 * |points| as real then -1 else best;
  }

  // ----- values -----

  function CellNumber(c: CellPoint, level: nat): (v: u64)
    requires level <= MAX_LEVEL
  {
    if c.level != level then EXCEPTION else ValueNumber(c, level)
  }

  function ValuesOf(cells: seq<CellPoint>, level: nat): (values: seq<u64>)
    requires level <= MAX_LEVEL
    ensures |values| == |cells|
    ensures forall i :: 0 <= i < |cells| ==> values[i] == CellNumber(cells[i], level)
  {
    seq(|cells|, i requires 0 <= i < |cells| => CellNumber(cells[i], level))
  }

  predicate HaveExceptions(cells: seq<CellPoint>, level: nat)
  {
    exists i :: 0 <= i < |cells| && cells[i].level != level
  }

  method ConvertCellsToValues(cells: seq<CellPoint>, level: nat) returns (values: seq<u64>, haveExceptions: bool)
    requires level <= MAX_LEVEL
    ensures values == ValuesOf(cells, level) && haveExceptions == HaveExceptions(cells, level)
  {
    hide ValueNumber;
    values, haveExceptions := [], false;
    for i := 0 to |cells|
      invariant |values| == i && forall k :: 0 <= k < i ==> values[k] == CellNumber(cells[k], level)
      invariant haveExceptions <==> exists k :: 0 <= k < i && cells[k].level != level
    {
      if cells[i].level != level {
        values := values + [EXCEPTION];
        haveExceptions := true;
      } else {
        values := values + [ValueNumber(cells[i], level)];
      }
    }
  }

  // All cells are centres of their level.
  ghost predicate GoodCells(cells: seq<CellPoint>)
  {
    forall i :: 0 <= i < |cells| ==>
                  cells[i].level <= MAX_LEVEL && (cells[i].level >= 0 ==> IsCellCentre(cells[i], cells[i].level))
  }

  lemma NumberIsSmall(cells: seq<CellPoint>, level: nat, i: nat)
    requires level <= MAX_LEVEL && GoodCells(cells) && i < |cells|
    ensures cells[i].level == level ==> CellNumber(cells[i], level) < Pow2(MaxBitsForLevel(level)) <= TWO63
    ensures cells[i].level != level <==> CellNumber(cells[i], level) == EXCEPTION
  {
    hide IsCellCentre, ValueNumber, Pow2;
    if cells[i].level == level {
      ValueNumberFits(cells[i], level);
    }
  }

  // The values lie between the base and 2^63, exceptions aside; in
  // particular not all of them are exceptions at a chosen level.
  lemma ValuesAreValid(cells: seq<CellPoint>, level: nat)
    requires GoodCells(cells) && ChosenLevel(cells) == level
    ensures level <= MAX_LEVEL
    ensures var values := ValuesOf(cells, level);
            && LeastValue(values) != EXCEPTION
            && LeastValue(values) < Pow2(MaxBitsForLevel(level))
            && ValidValues(values, BaseOf(values, level, HaveExceptions(cells, level)), HaveExceptions(cells, level))
  {
    hide GoodCells, LevelCount, BestLevel, LeastValue, Pow2, BaseBitsOf, ClearLow;
    var values := ValuesOf(cells, level);
    assert LevelCount(cells, level) > 0;
    CountedLevel(cells, level);
    var i :| 0 <= i < |cells| && cells[i].level == level;
    NumberIsSmall(cells, level, i);
    assert LeastValue(values) <= values[i];
    forall k | 0 <= k < |values|
      ensures if values[k] == EXCEPTION then HaveExceptions(cells, level)
              else LeastValue(values) <= values[k] < TWO63
    {
      ValueInRange(cells, level, k);
    }
  }

  lemma ValueInRange(cells: seq<CellPoint>, level: nat, k: nat)
    requires GoodCells(cells) && level <= MAX_LEVEL && k < |cells|
    ensures var values := ValuesOf(cells, level);
            if values[k] == EXCEPTION then HaveExceptions(cells, level)
            else LeastValue(values) <= values[k] < TWO63
  {
    hide GoodCells, Pow2;
    NumberIsSmall(cells, level, k);
  }

  // ----- the format -----

  function FlattenPoints(points: seq<S2Point>): (s: seq<byte>)
    ensures |s| == 24 * |points|
  {
    if points == [] then [] else FlattenPoints(points[..|points| - 1]) + points[|points| - 1]
  }

  lemma {:induction false} PointInFlat(points: seq<S2Point>, i: nat)
    requires i < |points|
    ensures FlattenPoints(points)[24 * i..24 * i + 24] == points[i]
  {
    var j := |points| - 1;
    if i < j {
      PointInFlat(points[..j], i);
      Nibbles.WindowOfPrefix(FlattenPoints(points[..j]), points[j], 24 * i, 24 * i + 24);
    }
  }

  // UNCOMPRESSED
  function FastBytes(points: seq<S2Point>): seq<byte>
    requires |points| < TWO32
  {
    VarintBytes(|points| * 8) + FlattenPoints(points)
  }

  function Blocks(values: seq<u64>, points: seq<S2Point>, base: u64, haveExceptions: bool, n: nat): (b: seq<seq<byte>>)
    requires |values| == |points| && BLOCK_SIZE * n < |values| + BLOCK_SIZE
    requires ValidValues(values, base, haveExceptions)
    ensures |b| == n
  {
    if n == 0 then []
    else
      Blocks(values, points, base, haveExceptions, n - 1) + [BlockAt(values, points, base, haveExceptions, n - 1)]
  }

  function BlockEnd(size: nat, i: nat): (e: nat)
    requires BLOCK_SIZE * i < size
    ensures BLOCK_SIZE * i < e <= size && e <= BLOCK_SIZE * i + BLOCK_SIZE
  {
    if BLOCK_SIZE * i + BLOCK_SIZE < size then BLOCK_SIZE * i + BLOCK_SIZE else size
  }

  lemma SliceIsValid(values: seq<u64>, base: u64, haveExceptions: bool, a: nat, b: nat)
    requires ValidValues(values, base, haveExceptions) && a <= b <= |values|
    ensures ValidValues(values[a..b], base, haveExceptions)
  {
  }

  function BlockAt(values: seq<u64>, points: seq<S2Point>, base: u64, haveExceptions: bool, i: nat): (s: seq<byte>)
    requires |values| == |points| && BLOCK_SIZE * i < |values|
    requires ValidValues(values, base, haveExceptions)
  {
    hide BlockBytes, BlockCodeOf, BlockFits, LeastValue, GreatestValue, ValidValues;
    var a, b := BLOCK_SIZE * i, BlockEnd(|values|, i);
    SliceIsValid(values, base, haveExceptions, a, b);
    ChosenCodeFits(values[a..b], base, haveExceptions);
    BlockBytes(values[a..b], points[a..b], base, haveExceptions, BlockCodeOf(values[a..b], base, haveExceptions))
  }

  function NumBlocks(size: nat): (n: nat)
    ensures BLOCK_SIZE * n < size + BLOCK_SIZE
    ensures size <= BLOCK_SIZE * n
  {
    (size + BLOCK_SIZE - 1) / BLOCK_SIZE
  }

  function VectorHeader(haveExceptions: bool, lastBlockCount: nat, baseBytes: nat, level: nat): (s: seq<byte>)
    requires 1 <= lastBlockCount <= BLOCK_SIZE && baseBytes <= 7 && level <= MAX_LEVEL
    ensures |s| == 2
  {
    [1 + (if haveExceptions then 8 else 0) + (lastBlockCount - 1) * 16, baseBytes + level * 8]
  }

  function LastBlockCount(size: nat): (n: nat)
    requires size > 0
    ensures 1 <= n <= BLOCK_SIZE
  {
    size - BLOCK_SIZE * (NumBlocks(size) - 1)
  }

  lemma BlockLength(values: seq<u64>, points: seq<S2Point>, base: u64, haveExceptions: bool, i: nat)
    requires |values| == |points| && BLOCK_SIZE * i < |values|
    requires ValidValues(values, base, haveExceptions)
    ensures |BlockAt(values, points, base, haveExceptions, i)| <= 521
  {
    hide Nibbles.PackDeltas, ExceptionBytes, Exceptions, LeastValue, GreatestValue, BlockParams, ValidValues, Shr, Pow2;
    var a, b := BLOCK_SIZE * i, BlockEnd(|values|, i);
    SliceIsValid(values, base, haveExceptions, a, b);
    ChosenCodeFits(values[a..b], base, haveExceptions);
    var c := BlockCodeOf(values[a..b], base, haveExceptions);
    EncodableParts(c);
    var offset := BlockOffset(values[a..b], base, c);
    var deltas := DeltasOf(values[a..b], base + offset, haveExceptions);
    Nibbles.PackedLength(deltas, c.deltaBits / 4);
    ProductBound(|deltas|, c.deltaBits / 4);
  }

  lemma ProductBound(k: nat, n: nat)
    requires k <= 16 && n <= 16
    ensures (k * n + 1) / 2 <= 128
  {
    assert k * n <= 16 * 16;
  }

  lemma {:induction false} BlocksBound(values: seq<u64>, points: seq<S2Point>, base: u64, haveExceptions: bool, n: nat)
    requires |values| == |points| && BLOCK_SIZE * n < |values| + BLOCK_SIZE
    requires ValidValues(values, base, haveExceptions)
    ensures |S.Flatten(Blocks(values, points, base, haveExceptions, n))| <= 521 * n
  {
    hide BlockAt, ValidValues;
    if n > 0 {
      BlocksBound(values, points, base, haveExceptions, n - 1);
      BlockLength(values, points, base, haveExceptions, n - 1);
      var b := Blocks(values, points, base, haveExceptions, n);
      assert b[..|b| - 1] == Blocks(values, points, base, haveExceptions, n - 1);
    }
  }

  lemma {:induction false} BlocksAt(values: seq<u64>, points: seq<S2Point>, base: u64, haveExceptions: bool, n: nat, i: nat)
    requires |values| == |points| && BLOCK_SIZE * n < |values| + BLOCK_SIZE && i < n
    requires ValidValues(values, base, haveExceptions)
    ensures Blocks(values, points, base, haveExceptions, n)[i] == BlockAt(values, points, base, haveExceptions, i)
  {
    hide BlockAt, ValidValues;
    if i < n - 1 {
      BlocksAt(values, points, base, haveExceptions, n - 1, i);
    }
  }

  // What the compact encoder works with, once a level has been chosen.
  datatype Plan = Plan(values: seq<u64>, base: u64, baseBits: nat, haveExceptions: bool, level: nat)

  function PlanOf(cells: seq<CellPoint>, level: nat): (p: Plan)
    requires level <= MAX_LEVEL
  {
    var values, haveExceptions := ValuesOf(cells, level), HaveExceptions(cells, level);
    Plan(values, BaseOf(values, level, haveExceptions), BaseBitsOf(values, level, haveExceptions), haveExceptions, level)
  }

  ghost predicate GoodPlan(p: Plan, points: seq<S2Point>)
  {
    && 0 < |p.values| == |points| < TWO32
    && ValidValues(p.values, p.base, p.haveExceptions)
    && p.level <= MAX_LEVEL
    && p.baseBits % 8 == 0 && p.baseBits <= 56
    && Shr(p.base, BaseShift(p.level, p.baseBits)) < Pow2(p.baseBits)
    && Shl(Shr(p.base, BaseShift(p.level, p.baseBits)), BaseShift(p.level, p.baseBits)) == p.base
  }

  lemma ChosenPlanIsGood(cells: seq<CellPoint>, points: seq<S2Point>)
    requires GoodCells(cells) && |cells| == |points| < TWO32 && ChosenLevel(cells) >= 0
    ensures GoodPlan(PlanOf(cells, ChosenLevel(cells)), points)
  {
    hide GoodCells, LevelCount, BestLevel, LeastValue, GreatestValue, Pow2, BaseBits, ClearLow, Shl, Shr, ValuesOf,
         ValidValues, HaveExceptions;
    var level := ChosenLevel(cells);
    ValuesAreValid(cells, level);
    var p := PlanOf(cells, level);
    BaseBitsSound(LeastValue(p.values), GreatestValue(p.values), level, WideDeltas(p.values, p.haveExceptions));
    assert p.values != [] by {
      NothingIsException(p.values);
    }
  }

  lemma NothingIsException(values: seq<u64>)
    ensures values == [] ==> LeastValue(values) == EXCEPTION
  {
  }

  function BlocksOf(p: Plan, points: seq<S2Point>): (b: seq<seq<byte>>)
    requires GoodPlan(p, points)
    ensures |b| == NumBlocks(|points|)
    ensures S.Addressable(b)
  {
    hide Blocks, ValidValues, S.Flatten;
    BlocksBound(p.values, points, p.base, p.haveExceptions, NumBlocks(|points|));
    Blocks(p.values, points, p.base, p.haveExceptions, NumBlocks(|points|))
  }

  function BaseBytes(p: Plan): (s: seq<byte>)
  {
    LeBytes(Shr(p.base, BaseShift(p.level, p.baseBits)), p.baseBits / 8)
  }

  // CELL_IDS
  function CompactBytes(p: Plan, points: seq<S2Point>): seq<byte>
    requires GoodPlan(p, points)
  {
    VectorHeader(p.haveExceptions, LastBlockCount(|points|), p.baseBits / 8, p.level)
    + (BaseBytes(p) + S.StringVectorBytes(BlocksOf(p, points)))
  }

  lemma FaithfulCells(points: seq<S2Point>, g: Geometry)
    requires forall i :: 0 <= i < |points| ==> FaithfulAt(g, points[i])
    ensures GoodCells(CellsOf(points, g))
  {
    hide IsCellCentre;
    forall i | 0 <= i < |points|
      ensures g.cellOf(points[i]).level >= 0 ==> IsCellCentre(g.cellOf(points[i]), g.cellOf(points[i]).level)
    {
      assert FaithfulAt(g, points[i]);
    }
  }

  // What the compact encoder writes, in either format.
  function VectorBytes(points: seq<S2Point>, g: Geometry): seq<byte>
    requires |points| < TWO32 && forall i :: 0 <= i < |points| ==> FaithfulAt(g, points[i])
  {
    hide GoodPlan, IsCellCentre, ChosenLevel, PlanOf, GoodCells, CompactBytes, FaithfulAt;
    FaithfulCells(points, g);
    var cells := CellsOf(points, g);
    var level := ChosenLevel(cells);
    if level < 0 then FastBytes(points)
    else
      ChosenPlanIsGood(cells, points);
      CompactBytes(PlanOf(cells, level), points)
  }

  // ----- what a reader sees -----

  datatype PointView =
    | Uncompressed(data: seq<byte>, size: nat)
    | CellIds(blocks: S.StringView, base: u64, level: nat, haveExceptions: bool, size: nat)
  {
    // The number of points in the block that holds point i.
    function BlockSize(i: nat): (n: nat)
      requires i < size
    {
      if size - (i - i % BLOCK_SIZE) < BLOCK_SIZE then size - (i - i % BLOCK_SIZE) else BLOCK_SIZE
    }

    // Reading point i stays inside the memory.
    ghost predicate CanRead(i: nat)
    {
      && i < size
      && match this
         case Uncompressed(data, _) => 24 * i + 24 <= |data|
         case CellIds(blocks, _, level, haveExceptions, _) =>
           && level <= MAX_LEVEL && blocks.Valid() && i / BLOCK_SIZE < blocks.offsets.size
           && blocks.Start(i / BLOCK_SIZE) <= |blocks.data|
           && Readable(blocks.GetStart(i / BLOCK_SIZE), i % BLOCK_SIZE, BlockSize(i), haveExceptions)
    }

    // operator[]
    function At(i: nat, g: Geometry): S2Point
      requires CanRead(i)
    {
      match this
      case Uncompressed(data, _) => data[24 * i..24 * i + 24]
      case CellIds(blocks, base, level, haveExceptions, _) =>
        PointOf(DecodeEntry(blocks.GetStart(i / BLOCK_SIZE), i % BLOCK_SIZE, BlockSize(i), haveExceptions),
                base, level, g)
    }

    ghost predicate AllReadable()
    {
      forall i :: 0 <= i < size ==> CanRead(i)
    }

    ghost function Points(g: Geometry): (points: seq<S2Point>)
      requires AllReadable()
      ensures |points| == size
    {
      seq(size, i requires 0 <= i < size => At(i, g))
    }

    // What writing the vector again produces: the same format.
    ghost function BytesAgain(g: Geometry): seq<byte>
      requires AllReadable() && size < TWO32 && Faithful(g)
    {
      assert forall i :: 0 <= i < size ==> FaithfulAt(g, Points(g)[i]);
      if Uncompressed? then FastBytes(Points(g)) else VectorBytes(Points(g), g)
    }
  }

  function PointOf(e: Entry, base: u64, level: nat, g: Geometry): S2Point
    requires level <= MAX_LEVEL
  {
    match e
    case Exception(point) => point
    case Value(offset, delta) =>
      var (face, si, ti) := CellOfNumber((base + offset + delta) % TWO64, level);
      g.centre(face, si, ti)
  }

  function ParseUncompressed(s: seq<byte>): (r: Parsed<PointView>)
  {
    match ParseVarint64(s)
    case Malformed => Malformed
    case Parsed(v, rest) =>
      var size := v / 8;
      if size >= TWO32 || |rest| < 24 * size then Malformed
      else Parsed(Uncompressed(rest, size), rest[24 * size..])
  }

  // The number of points, as an unsigned 32-bit word.
  function SizeFrom(numBlocks: nat, lastBlockCount: nat): nat
  {
    (BLOCK_SIZE * (numBlocks - 1) + lastBlockCount) % TWO32
  }

  // A base as stored, back in its place.
  function BaseFrom(raw: nat, level: nat, baseBytes: nat): u64
  {
    Shl(raw, BaseShift(level, 8 * baseBytes)) % TWO64
  }

  function ParseCellIds(s: seq<byte>): (r: Parsed<PointView>)
  {
    if |s| < 2 then Malformed
    else
      var lastBlockCount, baseBytes, level := s[0] / 16 + 1, s[1] % 8, s[1] / 8;
      var rest := s[2..];
      if |rest| < baseBytes then Malformed
      else
        var base := BaseFrom(FromLe(rest[..baseBytes]), level, baseBytes);
        match S.ParseStringVector(rest[baseBytes..])
        case Malformed => Malformed
        case Parsed(blocks, tail) =>
          Parsed(CellIds(blocks, base, level, s[0] / 8 % 2 == 1, SizeFrom(blocks.offsets.size, lastBlockCount)), tail)
  }

  function ParsePointVector(s: seq<byte>): (r: Parsed<PointView>)
  {
    if s == [] then Malformed
    else if s[0] % 8 == 0 then ParseUncompressed(s)
    else if s[0] % 8 == 1 then ParseCellIds(s)
    else Malformed
  }

  // ----- round trip -----

  ghost predicate Represents(view: PointView, points: seq<S2Point>, g: Geometry)
  {
    && view.size == |points|
    && forall i :: 0 <= i < |points| ==> view.CanRead(i) && view.At(i, g) == points[i]
  }

  lemma FastRoundTrip(points: seq<S2Point>, g: Geometry, tail: seq<byte>)
    requires |points| < TWO32
    ensures var r := ParsePointVector(FastBytes(points) + tail);
            r.Parsed? && r.rest == tail && Represents(r.value, points, g)
  {
    FastParsed(points, tail);
    hide FlattenPoints, ParsePointVector, FastBytes;
    var flat := FlattenPoints(points);
    forall i | 0 <= i < |points|
      ensures (flat + tail)[24 * i..24 * i + 24] == points[i]
    {
      PointInFlat(points, i);
      Nibbles.WindowOfPrefix(flat, tail, 24 * i, 24 * i + 24);
    }
  }

  lemma FastParsed(points: seq<S2Point>, tail: seq<byte>)
    requires |points| < TWO32
    ensures ParsePointVector(FastBytes(points) + tail) == Parsed(Uncompressed(FlattenPoints(points) + tail, |points|), tail)
  {
    hide FlattenPoints, ParseVarint64, ParseCellIds, VarintBytes;
    var flat, v := FlattenPoints(points), |points| * 8;
    AppendAssoc(VarintBytes(v), flat, tail);
    VarintRoundTrip(v, flat + tail);
    FirstVarintByte(v);
    CutPrefix(flat, tail);
  }

  lemma FirstVarintByte(v: nat)
    ensures VarintBytes(v) != [] && VarintBytes(v)[0] % 8 == v % 8
  {
  }

  lemma CutPrefix<T>(s: seq<T>, tail: seq<T>)
    ensures (s + tail)[..|s|] == s && (s + tail)[|s|..] == tail
  {
  }

  lemma HeaderFields(haveExceptions: bool, lastBlockCount: nat, baseBytes: nat, level: nat)
    requires 1 <= lastBlockCount <= BLOCK_SIZE && baseBytes <= 7 && level <= MAX_LEVEL
    ensures var h := VectorHeader(haveExceptions, lastBlockCount, baseBytes, level);
            && h[0] % 8 == 1 && h[0] / 16 + 1 == lastBlockCount && (h[0] / 8 % 2 == 1 <==> haveExceptions)
            && h[1] % 8 == baseBytes && h[1] / 8 == level
  {
  }

  // Parsing, given the header's fields and what the rest of the memory is.
  lemma ParsedParts(s: seq<byte>, base: seq<byte>, rest: seq<byte>, level: nat, haveExceptions: bool, last: nat,
                    blocks: S.StringView, tail: seq<byte>)
    requires |s| >= 2 && s[0] % 8 == 1 && s[0] / 16 + 1 == last && (s[0] / 8 % 2 == 1 <==> haveExceptions)
    requires s[1] % 8 == |base| && s[1] / 8 == level
    requires s[2..] == base + rest && S.ParseStringVector(rest) == Parsed(blocks, tail)
    ensures ParsePointVector(s)
            == Parsed(CellIds(blocks, BaseFrom(FromLe(base), level, |base|), level, haveExceptions,
                              SizeFrom(blocks.offsets.size, last)), tail)
  {
    hide BaseFrom, SizeFrom, FromLe, S.ParseStringVector;
    CutPrefix(base, rest);
  }

  lemma SizeOfBlocks(size: nat)
    requires 0 < size < TWO32
    ensures SizeFrom(NumBlocks(size), LastBlockCount(size)) == size
  {
  }

  lemma BaseBytesRead(p: Plan, points: seq<S2Point>)
    requires GoodPlan(p, points)
    ensures BaseFrom(FromLe(BaseBytes(p)), p.level, |BaseBytes(p)|) == p.base
  {
    hide Shl, Shr, Pow2, LeBytes, FromLe, ValidValues;
    assert 8 * (p.baseBits / 8) == p.baseBits;
    FromLeBytes(Shr(p.base, BaseShift(p.level, p.baseBits)), p.baseBits / 8);
  }

  lemma ParsedCompact(p: Plan, points: seq<S2Point>, tail: seq<byte>)
    requires GoodPlan(p, points)
    ensures var b := S.ParseStringVector(S.StringVectorBytes(BlocksOf(p, points)) + tail);
            && b.Parsed? && b.rest == tail && S.Represents(b.value, BlocksOf(p, points))
            && ParsePointVector(CompactBytes(p, points) + tail)
               == Parsed(CellIds(b.value, p.base, p.level, p.haveExceptions, |points|), tail)
  {
    hide Shl, Shr, Pow2, ValidValues, LeBytes, FromLe, BlocksOf, VectorHeader, ParsePointVector, LastBlockCount, SizeFrom,
         BaseFrom;
    hide S.StringVectorBytes, S.ParseStringVector, S.Addressable;
    var last := LastBlockCount(|points|);
    var header := VectorHeader(p.haveExceptions, last, p.baseBits / 8, p.level);
    var base, body := BaseBytes(p), S.StringVectorBytes(BlocksOf(p, points));
    HeaderFields(p.haveExceptions, last, p.baseBits / 8, p.level);
    AppendAssoc(header, base + body, tail);
    AppendAssoc(base, body, tail);
    CutPrefix(header, base + (body + tail));
    BaseBytesRead(p, points);
    S.StringVectorRoundTrip(BlocksOf(p, points), tail);
    SizeOfBlocks(|points|);
    ParsedParts(CompactBytes(p, points) + tail, base, body + tail, p.level, p.haveExceptions, last,
                S.ParseStringVector(body + tail).value, tail);
  }

  // Where point i sits.
  lemma BlockOfIndex(size: nat, i: nat)
    requires i < size
    ensures var b := i / BLOCK_SIZE;
            && BLOCK_SIZE * b + i % BLOCK_SIZE == i < BlockEnd(size, b)
            && b < NumBlocks(size)
            && BlockEnd(size, b) - BLOCK_SIZE * b
               == if size - (i - i % BLOCK_SIZE) < BLOCK_SIZE then size - (i - i % BLOCK_SIZE) else BLOCK_SIZE
  {
  }

  lemma EntryOfBlock(p: Plan, points: seq<S2Point>, ptr: seq<byte>, i: nat)
    requires GoodPlan(p, points) && i < |points|
    requires BlocksOf(p, points)[i / BLOCK_SIZE] <= ptr
    ensures var n := BlockEnd(|points|, i / BLOCK_SIZE) - BLOCK_SIZE * (i / BLOCK_SIZE);
            && Readable(ptr, i % BLOCK_SIZE, n, p.haveExceptions)
            && var e := DecodeEntry(ptr, i % BLOCK_SIZE, n, p.haveExceptions);
               if p.values[i] == EXCEPTION then e == Exception(points[i])
               else e.Value? && p.base + e.offset + e.delta == p.values[i]
  {
    hide ValidValues, Blocks, BlockBytes, BlockFits, Readable, DecodeEntry, BlockCodeOf;
    BlockOfIndex(|points|, i);
    var b, j := i / BLOCK_SIZE, i % BLOCK_SIZE;
    var a, e := BLOCK_SIZE * b, BlockEnd(|points|, b);
    BlocksAt(p.values, points, p.base, p.haveExceptions, NumBlocks(|points|), b);
    SliceIsValid(p.values, p.base, p.haveExceptions, a, e);
    SliceAt(p.values, a, e, j);
    SliceAt(points, a, e, j);
    EntryOf(p.values[a..e], points[a..e], p.base, p.haveExceptions, ptr, j);
    hide BlockEnd;
  }

  lemma SliceAt<T>(s: seq<T>, a: nat, e: nat, j: nat)
    requires a <= e <= |s| && j < e - a
    ensures s[a..e][j] == s[a + j]
  {
  }

  // Reading an entry of a block at the start of the memory.
  lemma EntryOf(values: seq<u64>, points: seq<S2Point>, base: u64, haveExceptions: bool, ptr: seq<byte>, j: nat)
    requires 0 < |values| == |points| <= BLOCK_SIZE && j < |values| && ValidValues(values, base, haveExceptions)
    requires BlockFits(values, base, haveExceptions, BlockCodeOf(values, base, haveExceptions)) ==>
               BlockBytes(values, points, base, haveExceptions, BlockCodeOf(values, base, haveExceptions)) <= ptr
    ensures Readable(ptr, j, |values|, haveExceptions)
            && var e := DecodeEntry(ptr, j, |values|, haveExceptions);
               if values[j] == EXCEPTION then e == Exception(points[j])
               else e.Value? && base + e.offset + e.delta == values[j]
  {
    hide ValidValues, BlockBytes, BlockFits, Readable, DecodeEntry, BlockCodeOf;
    ChosenCodeFits(values, base, haveExceptions);
    var c := BlockCodeOf(values, base, haveExceptions);
    var bytes := BlockBytes(values, points, base, haveExceptions, c);
    assert ptr == bytes + ptr[|bytes|..];
    BlockRoundTrip(values, points, base, haveExceptions, c, ptr[|bytes|..], j);
  }

  lemma CompactRoundTrip(points: seq<S2Point>, g: Geometry, tail: seq<byte>)
    requires |points| < TWO32 && forall i :: 0 <= i < |points| ==> FaithfulAt(g, points[i])
    requires ChosenLevel(CellsOf(points, g)) >= 0
    ensures GoodPlan(PlanOf(CellsOf(points, g), ChosenLevel(CellsOf(points, g))), points)
    ensures var p := PlanOf(CellsOf(points, g), ChosenLevel(CellsOf(points, g)));
            var r := ParsePointVector(CompactBytes(p, points) + tail);
            r.Parsed? && r.rest == tail && Represents(r.value, points, g)
  {
    hide GoodPlan, IsCellCentre, Readable, DecodeEntry, S.Represents, CompactBytes, ParsePointVector, ChosenLevel;
    hide ValueNumber, CellOfNumber, LevelCount, BestLevel, BlocksOf;
    var cells := CellsOf(points, g);
    var level := ChosenLevel(cells);
    ChosenPlanIsGood(cells, points);
    var p := PlanOf(cells, level);
    ParsedCompact(p, points, tail);
    var view := ParsePointVector(CompactBytes(p, points) + tail).value;
    forall i | 0 <= i < |points|
      ensures view.CanRead(i) && view.At(i, g) == points[i]
    {
      CompactPoint(points, g, p, view, i);
    }
  }

  // The cell of a value is the point that was reported to be its centre.
  lemma CentreOfValue(p: S2Point, g: Geometry, level: nat)
    requires FaithfulAt(g, p) && level <= MAX_LEVEL && CellNumber(g.cellOf(p), level) != EXCEPTION
    ensures var (face, si, ti) := CellOfNumber(CellNumber(g.cellOf(p), level), level); g.centre(face, si, ti) == p
  {
    hide IsCellCentre, ValueNumber, CellOfNumber;
    ValueNumberRoundTrip(g.cellOf(p), level);
  }

  lemma PointOfEntry(p: S2Point, g: Geometry, base: u64, level: nat, e: Entry)
    requires FaithfulAt(g, p) && level <= MAX_LEVEL
    requires var v := CellNumber(g.cellOf(p), level);
             if v == EXCEPTION then e == Exception(p) else e.Value? && base + e.offset + e.delta == v
    ensures PointOf(e, base, level, g) == p
  {
    hide CellOfNumber, CellNumber, FaithfulAt;
    if e.Value? {
      CentreOfValue(p, g, level);
    }
  }

  lemma CompactPoint(points: seq<S2Point>, g: Geometry, p: Plan, view: PointView, i: nat)
    requires i < |points| && FaithfulAt(g, points[i])
    requires p.level <= MAX_LEVEL && p == PlanOf(CellsOf(points, g), p.level) && GoodPlan(p, points)
    requires view.CellIds? && S.Represents(view.blocks, BlocksOf(p, points))
    requires view == CellIds(view.blocks, p.base, p.level, p.haveExceptions, |points|)
    ensures view.CanRead(i) && view.At(i, g) == points[i]
  {
    hide GoodPlan, FaithfulAt, Readable, DecodeEntry, BlocksOf, BaseOf, BaseBitsOf, HaveExceptions, PointOf;
    hide CellNumber, Pow2, BlockEnd, NumBlocks, S.Flatten;
    hide S.StringView.Start, S.StringView.At;
    BlockOfIndex(|points|, i);
    var b := i / BLOCK_SIZE;
    var ptr := view.blocks.GetStart(b);
    assert BlocksOf(p, points)[b] <= ptr;
    EntryOfBlock(p, points, ptr, i);
    assert p.values[i] == CellNumber(g.cellOf(points[i]), p.level);
    var n := BlockEnd(|points|, b) - BLOCK_SIZE * b;
    assert view.BlockSize(i) == n;
    PointOfEntry(points[i], g, p.base, p.level, DecodeEntry(ptr, i % BLOCK_SIZE, n, p.haveExceptions));
  }

  // Every point comes back, whichever format and level were chosen.
  lemma PointVectorRoundTrip(points: seq<S2Point>, g: Geometry, tail: seq<byte>)
    requires |points| < TWO32 && Faithful(g)
    ensures forall i :: 0 <= i < |points| ==> FaithfulAt(g, points[i])
    ensures var r := ParsePointVector(VectorBytes(points, g) + tail);
            r.Parsed? && r.rest == tail && Represents(r.value, points, g)
  {
    hide ParsePointVector, FastBytes, CompactBytes, FaithfulAt, Represents, PlanOf, ChosenLevel, GoodPlan;
    assert forall i :: 0 <= i < |points| ==> FaithfulAt(g, points[i]);
    if ChosenLevel(CellsOf(points, g)) < 0 {
      FastRoundTrip(points, g, tail);
    } else {
      CompactRoundTrip(points, g, tail);
    }
  }

  // ----- encoding -----

  method EncodeS2PointVectorFast(points: seq<S2Point>, encoder: Encoder)
    requires |points| < TWO32
    modifies encoder
    ensures encoder.buf == old(encoder.buf) + FastBytes(points)
  {
    hide FlattenPoints, VarintBytes;
    encoder.PutVarint64(|points| * 8);
    encoder.PutN(FlattenPoints(points));
    AppendAssoc(old(encoder.buf), VarintBytes(|points| * 8), FlattenPoints(points));
  }

  // "unset" is whatever the variable for the number of base bits held before.
  method EncodeS2PointVectorCompact(points: seq<S2Point>, g: Geometry, unset: nat, encoder: Encoder)
    requires |points| < TWO32 && forall i :: 0 <= i < |points| ==> FaithfulAt(g, points[i])
    modifies encoder
    ensures encoder.buf == old(encoder.buf) + VectorBytes(points, g)
  {
    hide FaithfulAt, FastBytes, CompactBytes, ChosenLevel, GoodCells, ValidValues, LeastValue, ValuesOf, HaveExceptions,
         BaseOf, BaseBitsOf, GoodPlan;
    FaithfulCells(points, g);
    var level, cells := ChooseBestLevel(points, g);
    if level < 0 {
      EncodeS2PointVectorFast(points, encoder);
      return;
    }
    ChosenPlanIsGood(cells, points);
    ValuesAreValid(cells, level);
    var values, haveExceptions := ConvertCellsToValues(cells, level);
    var base, baseBits := ChooseBase(values, level, haveExceptions, unset);
    EncodePlan(Plan(values, base, baseBits, haveExceptions, level), points, encoder);
  }

  // The second half of the compact encoder: header, base and blocks.
  method EncodePlan(p: Plan, points: seq<S2Point>, encoder: Encoder)
    requires GoodPlan(p, points)
    modifies encoder
    ensures encoder.buf == old(encoder.buf) + CompactBytes(p, points)
  {
    hide ValidValues, LeBytes, Pow2, Shl, Shr, VectorHeader, BlocksOf, S.Addressable, S.StringVectorBytes, NumBlocks, S.Cut;
    var numBlocks, baseBytes := NumBlocks(|p.values|), p.baseBits / 8;
    var lastBlockCount := |p.values| - BLOCK_SIZE * (numBlocks - 1);
    assert lastBlockCount == LastBlockCount(|points|);
    WriteHeader(p.haveExceptions, lastBlockCount, baseBytes, p.level, encoder);
    ghost var header := VectorHeader(p.haveExceptions, lastBlockCount, baseBytes, p.level);
    assert 8 * baseBytes == p.baseBits;
    WriteBase(p, encoder);
    var blocks := new S.StringVectorEncoder();
    EncodeBlocks(p.values, points, p.base, p.haveExceptions, blocks);
    BlocksOfPlan(p, points);
    blocks.Encode(encoder);
    AppendAssoc4(old(encoder.buf), header, BaseBytes(p), S.StringVectorBytes(BlocksOf(p, points)));
  }

  method WriteBase(p: Plan, encoder: Encoder)
    requires p.baseBits % 8 == 0 && p.baseBits <= 56
    requires Shr(p.base, BaseShift(p.level, p.baseBits)) < Pow2(p.baseBits)
    modifies encoder
    ensures encoder.buf == old(encoder.buf) + BaseBytes(p)
  {
    hide LeBytes, Shr, Pow2;
    var x := Shr(p.base, BaseShift(p.level, p.baseBits));
    Pow2Consts();
    Pow2Mono(p.baseBits, 64);
    assert Pow2(8 * (p.baseBits / 8)) == Pow2(p.baseBits);
    EncodeUintWithLength(x, p.baseBits / 8, encoder);
  }

  lemma BlocksOfPlan(p: Plan, points: seq<S2Point>)
    requires GoodPlan(p, points)
    ensures BlocksOf(p, points) == Blocks(p.values, points, p.base, p.haveExceptions, NumBlocks(|points|))
    ensures S.Addressable(BlocksOf(p, points))
  {
  }

  method WriteHeader(haveExceptions: bool, lastBlockCount: nat, baseBytes: nat, level: nat, encoder: Encoder)
    requires 1 <= lastBlockCount <= BLOCK_SIZE && baseBytes <= 7 && level <= MAX_LEVEL
    modifies encoder
    ensures encoder.buf == old(encoder.buf) + VectorHeader(haveExceptions, lastBlockCount, baseBytes, level)
  {
    encoder.Put8(1 + (if haveExceptions then 8 else 0) + (lastBlockCount - 1) * 16);
    encoder.Put8(baseBytes + level * 8);
  }

  method EncodeBlocks(values: seq<u64>, points: seq<S2Point>, base: u64, haveExceptions: bool,
                      blocks: S.StringVectorEncoder)
    requires |values| == |points| && ValidValues(values, base, haveExceptions)
    requires blocks.Valid() && blocks.Strings() == []
    modifies blocks, blocks.data_
    ensures blocks.Valid()
    ensures blocks.Strings() == Blocks(values, points, base, haveExceptions, NumBlocks(|points|))
  {
    hide BlockBytes, BlockFits, BlockCodeOf, ValidValues, S.Cut;
    ghost var n: nat := 0;
    var i := 0;
    while i < |values|
      invariant i == BLOCK_SIZE * n && BLOCK_SIZE * n < |values| + BLOCK_SIZE
      invariant blocks.Valid() && blocks.Strings() == Blocks(values, points, base, haveExceptions, n)
    {
      var blockSize := if BLOCK_SIZE < |values| - i then BLOCK_SIZE else |values| - i;
      assert i + blockSize == BlockEnd(|values|, n);
      SliceIsValid(values, base, haveExceptions, i, i + blockSize);
      ghost var before := blocks.Strings();
      var block := blocks.AddViaEncoder();
      ghost var buf := block.buf;
      ghost var bytes := BlockAt(values, points, base, haveExceptions, n);
      S.WriteExtendsLast(blocks.offsets_, buf, bytes);
      EncodeBlock(values[i..i + blockSize], points[i..i + blockSize], base, haveExceptions, block);
      assert block.buf == buf + bytes;
      assert [] + bytes == bytes && (before + [[]])[..|before|] == before;
      i := i + BLOCK_SIZE;
      n := n + 1;
    }
  }

  // ----- EncodedS2PointVector -----

  // The two bytes of the header, and the bytes of the base.
  method ReadHeader(decoder: Decoder) returns (ok: bool, header1: byte, header2: byte, base: u64)
    modifies decoder
    ensures ok <==> |old(decoder.rest)| >= 2 && |old(decoder.rest)[2..]| >= old(decoder.rest)[1] % 8
    ensures ok ==> header1 == old(decoder.rest)[0] && header2 == old(decoder.rest)[1]
    ensures ok ==> base == FromLe(old(decoder.rest)[2..][..header2 % 8]) && decoder.rest == old(decoder.rest)[2..][header2 % 8..]
  {
    hide FromLe;
    ok, header1, header2, base := false, 0, 0, 0;
    if decoder.Avail() < 2 {
      return;
    }
    header1 := decoder.Get8();
    header2 := decoder.Get8();
    assert decoder.rest == old(decoder.rest)[2..];
    ok, base := decoder.GetUint(header2 % 8);
  }

  class EncodedS2PointVector {
    var format_: nat
    var size_: nat
    var uncompressed_: seq<byte>
    const blocks_: S.EncodedStringVector
    var base_: u64
    var level_: nat
    var haveExceptions_: bool

    constructor ()
      ensures fresh(blocks_) && fresh(blocks_.offsets_)
    {
      format_, size_, uncompressed_ := 0, 0, [];
      blocks_ := new S.EncodedStringVector();
      base_, level_, haveExceptions_ := 0, 0, false;
    }

    function View(): PointView
      reads this, blocks_, blocks_.offsets_
    {
      if format_ == 0 then Uncompressed(uncompressed_, size_)
      else CellIds(blocks_.View(), base_, level_, haveExceptions_, size_)
    }

    method Init(decoder: Decoder) returns (ok: bool)
      modifies this, blocks_, blocks_.offsets_, decoder
      ensures ok <==> ParsePointVector(old(decoder.rest)).Parsed?
      ensures ok ==> Parsed(View(), decoder.rest) == ParsePointVector(old(decoder.rest))
    {
      hide S.ParseStringVector, ParseVarint64, FromLe, Shl;
      if decoder.Avail() < 1 {
        return false;
      }
      format_ := decoder.rest[0] % 8;
      match format_
      case 0 =>
        ok := InitUncompressedFormat(decoder);
      case 1 =>
        ok := InitCellIdsFormat(decoder);
      case _ =>
        ok := false;
    }

    method InitUncompressedFormat(decoder: Decoder) returns (ok: bool)
      modifies this, decoder
      ensures format_ == old(format_)
      ensures ok <==> ParseUncompressed(old(decoder.rest)).Parsed?
      ensures ok ==> Parsed(Uncompressed(uncompressed_, size_), decoder.rest) == ParseUncompressed(old(decoder.rest))
    {
      hide ParseVarint64;
      var size: nat;
      ok, size := decoder.GetVarint64();
      if !ok {
        return;
      }
      size := size / 8;
      if size > TWO32 - 1 {
        return false;
      }
      size_ := size;
      var bytes := size_ * 24;
      if decoder.Avail() < bytes {
        return false;
      }
      uncompressed_ := decoder.rest;
      decoder.Skip(bytes);
    }

    method InitCellIdsFormat(decoder: Decoder) returns (ok: bool)
      modifies this, blocks_, blocks_.offsets_, decoder
      ensures format_ == old(format_)
      ensures ok <==> ParseCellIds(old(decoder.rest)).Parsed?
      ensures ok ==> Parsed(CellIds(blocks_.View(), base_, level_, haveExceptions_, size_), decoder.rest)
                     == ParseCellIds(old(decoder.rest))
    {
      hide S.ParseStringVector, FromLe, BaseFrom, SizeFrom, S.EncodedStringVector.View, S.StringView.Valid;
      var header1, header2, base;
      ok, header1, header2, base := ReadHeader(decoder);
      if !ok {
        return;
      }
      ok := blocks_.Init(decoder);
      if !ok {
        return;
      }
      haveExceptions_, level_ := header1 / 8 % 2 == 1, header2 / 8;
      base_ := BaseFrom(base, level_, header2 % 8);
      size_ := SizeFrom(blocks_.View().offsets.size, header1 / 16 + 1);
    }

    method Decode(g: Geometry) returns (points: seq<S2Point>)
      requires View().AllReadable()
      ensures points == View().Points(g)
    {
      hide PointView.CanRead, PointView.At;
      var view := View();
      points := [];
      for i := 0 to view.size
        invariant points == view.Points(g)[..i]
      {
        points := points + [view.At(i, g)];
      }
    }

    // Writes the vector again.
    method Encode(g: Geometry, unset: nat, encoder: Encoder)
      requires View().AllReadable() && size_ < TWO32 && Faithful(g)
      modifies encoder
      ensures encoder.buf == old(encoder.buf) + View().BytesAgain(g)
    {
      hide VectorBytes, FastBytes, FaithfulAt;
      var points := Decode(g);
      assert forall i :: 0 <= i < |points| ==> FaithfulAt(g, points[i]);
      if format_ == 0 {
        EncodeS2PointVectorFast(points, encoder);
      } else {
        EncodeS2PointVectorCompact(points, g, unset, encoder);
      }
    }
  }

  // Reading a vector and writing it again gives the bytes of the first writing.
  lemma ReencodeIsIdentity(points: seq<S2Point>, g: Geometry, tail: seq<byte>)
    requires |points| < TWO32 && Faithful(g)
    ensures forall i :: 0 <= i < |points| ==> FaithfulAt(g, points[i])
    ensures var r := ParsePointVector(VectorBytes(points, g) + tail);
            && r.Parsed? && r.value.AllReadable() && r.value.size == |points|
            && r.value.BytesAgain(g) == VectorBytes(points, g)
  {
    hide FastBytes, CompactBytes, FaithfulAt, PlanOf, ChosenLevel, GoodPlan, ParsePointVector, FlattenPoints;
    assert forall i :: 0 <= i < |points| ==> FaithfulAt(g, points[i]);
    PointVectorRoundTrip(points, g, tail);
    var view := ParsePointVector(VectorBytes(points, g) + tail).value;
    assert view.Points(g) == points;
    if ChosenLevel(CellsOf(points, g)) >= 0 {
      ChosenPlanOf(points, g);
      ParsedCompact(PlanOf(CellsOf(points, g), ChosenLevel(CellsOf(points, g))), points, tail);
    }
  }

  lemma ChosenPlanOf(points: seq<S2Point>, g: Geometry)
    requires |points| < TWO32 && forall i :: 0 <= i < |points| ==> FaithfulAt(g, points[i])
    requires ChosenLevel(CellsOf(points, g)) >= 0
    ensures var p := PlanOf(CellsOf(points, g), ChosenLevel(CellsOf(points, g)));
            GoodPlan(p, points) && VectorBytes(points, g) == CompactBytes(p, points)
  {
    hide FaithfulAt, GoodPlan, ChosenLevel, GoodCells, PlanOf, CompactBytes;
    FaithfulCells(points, g);
    ChosenPlanIsGood(CellsOf(points, g), points);
  }
}
