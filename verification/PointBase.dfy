/**
 The base that all encoded values of a point vector share.
 */
module PointBase {
  import opened Words
  import opened BlockCodes

  function MaxBitsForLevel(level: nat): nat
  {
    2 * level + 3
  }

  // How far to shift "base" right so that only its leading bits remain.
  function BaseShift(level: nat, baseBits: nat): nat
  {
    if MaxBitsForLevel(level) > baseBits then MaxBitsForLevel(level) - baseBits else 0
  }

  function Max(a: nat, b: nat): nat
  {
    if a < b then b else a
  }

  // The low-order bits that the first version of the base leaves out.
  function ExcludedBits(vMin: u64, vMax: u64, level: nat, wide: bool): nat
  {
    Max(BitWidth(Xor(vMin, vMax)), Max(if wide then 8 else 4, BaseShift(level, 56)))
  }

  function BaseBits(vMin: u64, vMax: u64, level: nat, wide: bool): (bits: nat)
  {
    var base := ClearLow(vMin, ExcludedBits(vMin, vMax, level, wide));
    if base == 0 then 0
    else
      var bits := RoundUpToBytes(MaxBitsForLevel(level) - LowestBit(base));
      if bits > 0 then bits else 0
  }

  // The base has at most 7 bytes and survives its shift out and back.
  lemma BaseBitsSound(vMin: u64, vMax: u64, level: nat, wide: bool)
    requires level <= 30 && vMin < Pow2(MaxBitsForLevel(level))
    ensures var bits := BaseBits(vMin, vMax, level, wide);
            var shift := BaseShift(level, bits);
            var base := ClearLow(vMin, shift);
            && bits % 8 == 0 && bits <= 56
            && base <= vMin
            && Shr(base, shift) < Pow2(bits)
            && Shl(Shr(base, shift), shift) == base
  {
    hide Pow2, ClearLow, BitWidth, Xor, LowestBit, Shl, Shr, Low;
    var bits := BaseBits(vMin, vMax, level, wide);
    var shift := BaseShift(level, bits);
    var excluded := ExcludedBits(vMin, vMax, level, wide);
    var first := ClearLow(vMin, excluded);
    ClearLowIs(vMin, excluded);
    if first > 0 {
      LowestBitIs(first, excluded);
    }
    assert bits % 8 == 0 && bits <= 56;
    ClearLowIs(vMin, shift);
    Split(ClearLow(vMin, shift), shift);
    ShrBound(vMin, shift, bits);
    Pow2Mono(MaxBitsForLevel(level), shift + bits);
  }

  // Beyond the excluded bits all values agree, which is what makes them a
  // common prefix.
  lemma PrefixIsShared(values: seq<u64>, level: nat, wide: bool, k: nat)
    requires k < |values| && values[k] != EXCEPTION
    ensures var excluded := ExcludedBits(LeastValue(values), GreatestValue(values), level, wide);
            Shr(values[k], excluded) == Shr(LeastValue(values), excluded)
  {
    hide Shr, Xor, LeastValue, GreatestValue;
    var vMin, vMax := LeastValue(values), GreatestValue(values);
    var excluded := ExcludedBits(vMin, vMax, level, wide);
    XorWidth(vMin, vMax, excluded);
    ShrMono(vMin, values[k], excluded);
    ShrMono(values[k], vMax, excluded);
  }

  // The base is as long as it can be: it leaves out what the values do not share,
  // what the shortest deltas cover, and what goes beyond seven bytes.
  lemma ExcludedIsLeast(vMin: u64, vMax: u64, level: nat, wide: bool, e: nat)
    ensures ExcludedBits(vMin, vMax, level, wide) <= e
            <==> Shr(vMin, e) == Shr(vMax, e) && e >= (if wide then 8 else 4) && MaxBitsForLevel(level) <= e + 56
  {
    hide Shr, Xor, BitWidth;
    XorWidth(vMin, vMax, e);
  }

  // Its length is the least number of bytes that holds it.
  lemma BaseBitsIsLeast(vMin: u64, vMax: u64, level: nat, wide: bool, bytes: nat)
    requires vMin < Pow2(MaxBitsForLevel(level))
    ensures var base := ClearLow(vMin, ExcludedBits(vMin, vMax, level, wide));
            BaseBits(vMin, vMax, level, wide) <= 8 * bytes <==> Low(base, BaseShift(level, 8 * bytes)) == 0
  {
    hide Pow2, ClearLow, ExcludedBits, LowestBit, Low;
    var base, bits := ClearLow(vMin, ExcludedBits(vMin, vMax, level, wide)), MaxBitsForLevel(level);
    if base == 0 {
      LowOfZero(BaseShift(level, 8 * bytes));
    } else {
      LowestBitIs(base, BaseShift(level, 8 * bytes));
      LowestBitIs(base, bits);
      LowOfSmall(base, bits);
    }
  }

  // A number other than 0 has a bit below its width.
  lemma LowOfSmall(x: nat, n: nat)
    requires 0 < x < Pow2(n)
    ensures Low(x, n) != 0
  {
    hide Low, Shr, Pow2;
    ClearLowIs(x, n);
  }

  function WideDeltas(values: seq<u64>, haveExceptions: bool): bool
  {
    haveExceptions || |values| == 1
  }

  function BaseBitsOf(values: seq<u64>, level: nat, haveExceptions: bool): nat
  {
    BaseBits(LeastValue(values), GreatestValue(values), level, WideDeltas(values, haveExceptions))
  }

  function BaseOf(values: seq<u64>, level: nat, haveExceptions: bool): u64
  {
    ClearLow(LeastValue(values), BaseShift(level, BaseBitsOf(values, level, haveExceptions)))
  }

  // "unset" stands for the indeterminate contents of the caller's variable: it
  // is returned unchanged when there are only exceptions.
  method ChooseBase(values: seq<u64>, level: nat, haveExceptions: bool, unset: nat)
    returns (base: u64, baseBits: nat)
    ensures LeastValue(values) == EXCEPTION ==> base == 0 && baseBits == unset
    ensures LeastValue(values) != EXCEPTION ==>
              base == BaseOf(values, level, haveExceptions) && baseBits == BaseBitsOf(values, level, haveExceptions)
  {
    hide LeastValue, GreatestValue, Xor, BitWidth, ClearLow, LowestBit;
    var vMin, vMax := LeastAndGreatestOf(values);
    if vMin == EXCEPTION {
      return 0, unset;
    }
    var minDeltaBits := if haveExceptions || |values| == 1 then 8 else 4;
    var excluded := Max(BitWidth(Xor(vMin, vMax)), Max(minDeltaBits, BaseShift(level, 56)));
    base := ClearLow(vMin, excluded);
    if base == 0 {
      baseBits := 0;
    } else {
      var bits := RoundUpToBytes(MaxBitsForLevel(level) - LowestBit(base));
      baseBits := if bits > 0 then bits else 0;
    }
    base := ClearLow(vMin, BaseShift(level, baseBits));
  }
}
