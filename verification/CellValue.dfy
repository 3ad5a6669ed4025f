/**
 The 64-bit value of a cell centre: (face, si, ti) at a given level with the
 constant bits removed and bit pairs interleaved.  This module works on
 bit vectors, with the source's own shifts and masks.
 */
module CellValue {
  import opened Words

  const MAX_LEVEL := 30

  // ----- interleaving of bit pairs -----

  function InterleaveUint32BitPairs(val0: bv32, val1: bv32): (v: bv64)
  {
    var v0, v1 := val0 as bv64, val1 as bv64;
    var v0 := (v0 | (v0 << 16)) & 0x0000ffff0000ffff;
    var v1 := (v1 | (v1 << 16)) & 0x0000ffff0000ffff;
    var v0 := (v0 | (v0 << 8)) & 0x00ff00ff00ff00ff;
    var v1 := (v1 | (v1 << 8)) & 0x00ff00ff00ff00ff;
    var v0 := (v0 | (v0 << 4)) & 0x0f0f0f0f0f0f0f0f;
    var v1 := (v1 | (v1 << 4)) & 0x0f0f0f0f0f0f0f0f;
    var v0 := (v0 | (v0 << 2)) & 0x3333333333333333;
    var v1 := (v1 | (v1 << 2)) & 0x3333333333333333;
    v0 | (v1 << 2)
  }

  // The final assignments to uint32 variables drop the upper halves.
  function DeinterleaveUint32BitPairs(code: bv64): (r: (bv32, bv32))
  {
    var v0, v1 := code, code >> 2;
    var v0 := v0 & 0x3333333333333333;
    var v0 := v0 | (v0 >> 2);
    var v1 := v1 & 0x3333333333333333;
    var v1 := v1 | (v1 >> 2);
    var v0 := v0 & 0x0f0f0f0f0f0f0f0f;
    var v0 := v0 | (v0 >> 4);
    var v1 := v1 & 0x0f0f0f0f0f0f0f0f;
    var v1 := v1 | (v1 >> 4);
    var v0 := v0 & 0x00ff00ff00ff00ff;
    var v0 := v0 | (v0 >> 8);
    var v1 := v1 & 0x00ff00ff00ff00ff;
    var v1 := v1 | (v1 >> 8);
    var v0 := v0 & 0x0000ffff0000ffff;
    var v0 := v0 | (v0 >> 16);
    var v1 := v1 & 0x0000ffff0000ffff;
    var v1 := v1 | (v1 >> 16);
    ((v0 & 0xffffffff) as bv32, (v1 & 0xffffffff) as bv32)
  }

  lemma InterleaveRoundTrip(a: bv32, b: bv32)
    ensures DeinterleaveUint32BitPairs(InterleaveUint32BitPairs(a, b)) == (a, b)
  {
  }

  // ----- cell centres -----

  // A point as the centre of a cell; level < 0 if it is not one.
  datatype CellPoint = CellPoint(level: int, face: bv32, si: bv32, ti: bv32)

  // The number of low-order bits dropped at a level.
  function LevelShift(level: nat): (shift: bv32)
    requires level <= MAX_LEVEL
    ensures shift <= 30 && 30 - shift == Count(level)
  {
    CountAtMost(level);
    30 - Count(level)
  }

  // What S2::XYZtoFaceSiTi promises when it reports a level: "si" and "ti" are
  // 31-bit values that end in a 1 bit followed by 30 - level zeros.
  predicate IsCentre(c: CellPoint, shift: bv32)
    requires shift <= 30
  {
    c.face < 6 && HasSuffix(c.si, shift) && HasSuffix(c.ti, shift)
  }

  predicate HasSuffix(x: bv32, shift: bv32)
    requires shift <= 30
  {
    x < 0x80000000 && x & (((2 as bv32) << shift) - 1) == (1 as bv32) << shift
  }

  // ConvertCellsToValues, for one cell.
  function Sj(c: CellPoint, shift: bv32): bv32
    requires shift <= 30
  {
    (((c.face & 3) << 30) | (c.si >> 1)) >> shift
  }

  function Tj(c: CellPoint, shift: bv32): bv32
    requires shift <= 30
  {
    (((c.face & 4) << 29) | c.ti) >> (shift + 1)
  }

  function ValueOf(c: CellPoint, shift: bv32): bv64
    requires shift <= 30
  {
    InterleaveUint32BitPairs(Sj(c, shift), Tj(c, shift))
  }

  // The last part of DecodeCellIdsFormat: (face, si, ti).
  function CellOf(value: bv64, shift: bv32): (bv32, bv32, bv32)
    requires shift <= 30
  {
    var (sj, tj) := DeinterleaveUint32BitPairs(value);
    (FaceOf(sj, tj, shift), SiOf(sj, shift), SiOf(tj, shift))
  }

  function SiOf(sj: bv32, shift: bv32): bv32
    requires shift <= 30
  {
    (((sj << 1) | 1) << shift) & 0x7fffffff
  }

  function FaceOf(sj: bv32, tj: bv32, shift: bv32): bv32
    requires shift <= 30
  {
    ((sj << shift) >> 30) | (((tj << (shift + 1)) >> 29) & 4)
  }

  lemma RecoverSi(c: CellPoint, shift: bv32)
    requires shift <= 30 && IsCentre(c, shift)
    ensures SiOf(Sj(c, shift), shift) == c.si && (Sj(c, shift) << shift) >> 30 == c.face & 3
  {
  }

  lemma RecoverTi(c: CellPoint, shift: bv32)
    requires shift <= 30 && IsCentre(c, shift)
    ensures SiOf(Tj(c, shift), shift) == c.ti && ((Tj(c, shift) << (shift + 1)) >> 29) & 4 == c.face & 4
  {
  }

  lemma FaceFromParts(face: bv32)
    requires face < 6
    ensures (face & 3) | (face & 4) == face
  {
  }

  // The decoder inverts the encoder at the level of one value.
  lemma CellRoundTrip(c: CellPoint, shift: bv32)
    requires shift <= 30 && IsCentre(c, shift)
    ensures CellOf(ValueOf(c, shift), shift) == (c.face, c.si, c.ti)
  {
    hide InterleaveUint32BitPairs, DeinterleaveUint32BitPairs, HasSuffix, Sj, Tj, SiOf;
    InterleaveRoundTrip(Sj(c, shift), Tj(c, shift));
    RecoverSi(c, shift);
    RecoverTi(c, shift);
    FaceFromParts(c.face);
  }

  // ----- the width of a value -----

  // The value has at most 2 * level + 3 == 63 - 2 * shift bits.
  lemma ValueWidth(c: CellPoint, shift: bv32)
    requires shift <= 30 && IsCentre(c, shift)
    ensures ValueOf(c, shift) >> (63 - 2 * shift) == 0
  {
    PartWidths(c, shift);
    InterleaveWidth(Sj(c, shift), Tj(c, shift), shift);
  }

  lemma PartWidths(c: CellPoint, shift: bv32)
    requires shift <= 30 && IsCentre(c, shift)
    ensures Sj(c, shift) <= 0xffffffff >> shift && Tj(c, shift) <= 0x7fffffff >> shift
  {
  }

  lemma InterleaveWidth(a: bv32, b: bv32, shift: bv32)
    requires shift <= 30 && a <= 0xffffffff >> shift && b <= 0x7fffffff >> shift
    ensures InterleaveUint32BitPairs(a, b) >> (63 - 2 * shift) == 0
  {
  }

  // ----- values as numbers -----

  // The number denoted by the n low bits of v, and the bit vector that denotes
  // x.  (Both are built bit by bit: the solver has no useful rules for its own
  // conversions.)
  function Number(v: bv64, n: nat): (x: nat)
  {
    if n == 0 then 0 else (if Odd(v) then 1 else 0) + 2 * Number(v >> 1, n - 1)
  }

  function Bits(x: nat, n: nat): (v: bv64)
  {
    if n == 0 then 0 else WithLowBit(x % 2 == 1, Bits(x / 2, n - 1))
  }

  function WithLowBit(odd: bool, rest: bv64): bv64
  {
    (if odd then 1 else 0) | (rest << 1)
  }

  predicate Odd(v: bv64)
  {
    v & 1 == 1
  }

  // v has at most n bits.
  predicate Fits(v: bv64, n: nat)
  {
    if n == 0 then v == 0 else Fits(v >> 1, n - 1)
  }

  lemma {:induction false} NumberBound(v: bv64, n: nat)
    ensures Number(v, n) < Pow2(n)
  {
    if n > 0 {
      NumberBound(v >> 1, n - 1);
    }
  }

  lemma {:induction false} BitsOfNumber(v: bv64, n: nat)
    requires Fits(v, n)
    ensures Bits(Number(v, n), n) == v
  {
    if n > 0 {
      hide Odd, WithLowBit, Bits;
      BitsOfNumber(v >> 1, n - 1);
      BitsStep(Number(v >> 1, n - 1), Odd(v), n);
      RestoreLowBit(v);
    }
  }

  lemma BitsStep(rest: nat, odd: bool, n: nat)
    requires n > 0
    ensures Bits((if odd then 1 else 0) + 2 * rest, n) == WithLowBit(odd, Bits(rest, n - 1))
  {
    var x := (if odd then 1 else 0) + 2 * rest;
    assert x / 2 == rest && (x % 2 == 1 <==> odd);
  }

  lemma RestoreLowBit(v: bv64)
    ensures WithLowBit(Odd(v), v >> 1) == v
  {
  }

  // A wider reading of a value that fits is the same number.
  lemma {:induction false} WiderNumber(v: bv64, n: nat, m: nat)
    requires Fits(v, n) && n <= m
    ensures Number(v, m) == Number(v, n) && Fits(v, m)
  {
    if m > 0 {
      if n == 0 {
        ZeroShifted(v);
        WiderNumber(v >> 1, 0, m - 1);
      } else {
        WiderNumber(v >> 1, n - 1, m - 1);
      }
    }
  }

  lemma ZeroShifted(v: bv64)
    requires v == 0
    ensures v >> 1 == 0 && !Odd(v)
  {
  }

  // A level as a bit vector.
  function Count(n: nat): (v: bv32)
  {
    if n == 0 then 0 else Count(n - 1) + 1
  }

  lemma {:induction false} FitsLevel(v: bv64, level: nat)
    requires level <= MAX_LEVEL && Count(level) <= 30 && v >> (3 + 2 * Count(level)) == 0
    ensures Fits(v, 2 * level + 3)
  {
    if level == 0 {
      ShiftOutThree(v);
      assert Fits(v >> 1 >> 1 >> 1, 0);
      assert Fits(v >> 1 >> 1, 1);
      assert Fits(v >> 1, 2);
    } else {
      CountAtMost(level - 1);
      ShiftOutTwo(v, Count(level - 1));
      FitsLevel(v >> 1 >> 1, level - 1);
      assert Fits(v >> 1, 2 * level + 2);
    }
  }

  lemma ShiftOutThree(v: bv64)
    requires v >> 3 == 0
    ensures v >> 1 >> 1 >> 1 == 0
  {
  }

  lemma ShiftOutTwo(v: bv64, k: bv32)
    requires k <= 30 && k + 1 <= 30 && v >> (3 + 2 * (k + 1)) == 0
    ensures v >> 1 >> 1 >> (3 + 2 * k) == 0
  {
  }

  lemma CountAtMost(n: nat)
    requires n <= MAX_LEVEL
    ensures Count(n) <= 30
  {
    assert Count(0) == 0 && Count(1) == 1 && Count(2) == 2 && Count(3) == 3;
    assert Count(4) == 4 && Count(5) == 5 && Count(6) == 6 && Count(7) == 7;
    assert Count(8) == 8 && Count(9) == 9 && Count(10) == 10 && Count(11) == 11;
    assert Count(12) == 12 && Count(13) == 13 && Count(14) == 14 && Count(15) == 15;
    assert Count(16) == 16 && Count(17) == 17 && Count(18) == 18 && Count(19) == 19;
    assert Count(20) == 20 && Count(21) == 21 && Count(22) == 22 && Count(23) == 23;
    assert Count(24) == 24 && Count(25) == 25 && Count(26) == 26 && Count(27) == 27;
    assert Count(28) == 28 && Count(29) == 29 && Count(30) == 30;
    match n
    case 0 =>
    case 1 =>
    case 2 =>
    case 3 =>
    case 4 =>
    case 5 =>
    case 6 =>
    case 7 =>
    case 8 =>
    case 9 =>
    case 10 =>
    case 11 =>
    case 12 =>
    case 13 =>
    case 14 =>
    case 15 =>
    case 16 =>
    case 17 =>
    case 18 =>
    case 19 =>
    case 20 =>
    case 21 =>
    case 22 =>
    case 23 =>
    case 24 =>
    case 25 =>
    case 26 =>
    case 27 =>
    case 28 =>
    case 29 =>
    case 30 =>
  }

  // The value of a cell centre as a 64-bit number, and back.
  function ValueNumber(c: CellPoint, level: nat): (x: u64)
    requires level <= MAX_LEVEL
  {
    CountAtMost(level);
    Pow2Consts();
    NumberBound(ValueOf(c, LevelShift(level)), 64);
    Number(ValueOf(c, LevelShift(level)), 64)
  }

  function CellOfNumber(value: u64, level: nat): (bv32, bv32, bv32)
    requires level <= MAX_LEVEL
  {
    CountAtMost(level);
    CellOf(Bits(value, 64), LevelShift(level))
  }

  predicate IsCellCentre(c: CellPoint, level: nat)
    requires level <= MAX_LEVEL
  {
    CountAtMost(level);
    IsCentre(c, LevelShift(level))
  }

  lemma ValueNumberFits(c: CellPoint, level: nat)
    requires level <= MAX_LEVEL && IsCellCentre(c, level)
    ensures Fits(ValueOf(c, LevelShift(level)), 2 * level + 3)
    ensures ValueNumber(c, level) < Pow2(2 * level + 3) <= TWO63
  {
    hide ValueOf, IsCentre, Pow2, Fits, Number;
    var v := ValueOf(c, LevelShift(level));
    CountAtMost(level);
    ValueWidth(c, LevelShift(level));
    FitsLevel(v, level);
    WiderNumber(v, 2 * level + 3, 64);
    NumberBound(v, 2 * level + 3);
    Pow2Mono(2 * level + 3, 63);
    Pow2Consts();
  }

  lemma ValueNumberRoundTrip(c: CellPoint, level: nat)
    requires level <= MAX_LEVEL && IsCellCentre(c, level)
    ensures CellOfNumber(ValueNumber(c, level), level) == (c.face, c.si, c.ti)
  {
    hide ValueOf, CellOf, IsCentre, Pow2, Fits, Number, Bits;
    var v := ValueOf(c, LevelShift(level));
    ValueNumberFits(c, level);
    WiderNumber(v, 2 * level + 3, 64);
    BitsOfNumber(v, 64);
    CellRoundTrip(c, LevelShift(level));
  }
}
