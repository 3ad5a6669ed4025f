/**
 EncodedS2CellIdVector: 64-bit cell ids stored as a base, a shift and a vector
 of deltas.
 */
module CellIdVector {
  import opened Common
  import opened Words
  import opened Coder
  import U = UintVector

  // S2CellId::End(S2CellId::kMaxLevel).id()
  const END_LEAF: nat := 0xC000_0000_0000_0001

  // ----- choice of parameters -----

  function OrOf(v: seq<u64>): nat
  {
    if v == [] then 0 else Or(OrOf(v[..|v| - 1]), v[|v| - 1])
  }

  function AndOf(v: seq<u64>): nat
  {
    if v == [] then TWO64 - 1 else And(AndOf(v[..|v| - 1]), v[|v| - 1])
  }

  function MinOf(v: seq<u64>): (m: u64)
    ensures forall k :: 0 <= k < |v| ==> m <= v[k]
    ensures v != [] ==> m in v
  {
    if v == [] then TWO64 - 1
    else
      var m := MinOf(v[..|v| - 1]);
      assert |v| == 1 || m in v[..|v| - 1];
      if m < v[|v| - 1] then m else v[|v| - 1]
  }

  function MaxOf(v: seq<u64>): (m: u64)
    ensures forall k :: 0 <= k < |v| ==> v[k] <= m
    ensures v == [] ==> m == 0
    ensures v != [] ==> m in v || m == 0
  {
    if v == [] then 0
    else
      var m := MaxOf(v[..|v| - 1]);
      if m > v[|v| - 1] then m else v[|v| - 1]
  }

  lemma {:induction false} OrOfLow(v: seq<u64>, n: nat, k: nat)
    requires Low(OrOf(v), n) == 0 && k < |v|
    ensures Low(v[k], n) == 0
  {
    OrLow(OrOf(v[..|v| - 1]), v[|v| - 1], n);
    if k < |v| - 1 {
      OrOfLow(v[..|v| - 1], n, k);
    }
  }

  lemma {:induction false} AndOfBit(v: seq<u64>, n: nat, k: nat)
    requires Bit(AndOf(v), n) && k < |v|
    ensures Bit(v[k], n)
  {
    AndBit(AndOf(v[..|v| - 1]), v[|v| - 1], n);
    if k < |v| - 1 {
      AndOfBit(v[..|v| - 1], n, k);
    }
  }

  // x with all but its "n" most significant bytes cleared.
  function TopBytes(x: u64, n: nat): (r: u64)
    requires n <= 7
    ensures r <= x
  {
    ClearLow(x, 64 - 8 * n)
  }

  lemma TopBytesOfNone(x: u64)
    ensures TopBytes(x, 0) == 0
  {
    Pow2Consts();
    ClearLowIs(x, 64);
  }

  // The largest shift under which no set bit is lost; 57 is possible here.
  function WidestShift(v: seq<u64>): (s: nat)
    ensures s <= 57
  {
    if OrOf(v) == 0 then 0
    else
      var low := LowestBit(OrOf(v));
      var even := if low - low % 2 < 56 then low - low % 2 else 56;
      if Bit(AndOf(v), even) then even + 1 else even
  }

  // The position of the highest bit of the largest delta.
  function MaxDeltaMsb(v: seq<u64>, shift: nat, len: nat): (b: nat)
    requires len <= 7
  {
    TopBit(Shr(SubClamped(MaxOf(v), TopBytes(MinOf(v), len)), shift))
  }

  function TopBit(x: nat): (b: nat)
  {
    if BitWidth(x) == 0 then 0 else BitWidth(x) - 1
  }

  // The unsigned difference; the clamp only matters for the empty vector, for
  // which no delta is written.
  function SubClamped(x: nat, y: nat): nat
  {
    if y <= x then x - y else 0
  }

  // The size of the variable portion of the encoding.
  function Cost(v: seq<u64>, shift: nat, len: nat): nat
    requires len <= 7
  {
    VariableSize(len, |v|, MaxDeltaMsb(v, shift, len))
  }

  function VariableSize(len: nat, size: nat, msb: nat): nat
  {
    len + size * (msb / 8 + 1)
  }

  function BestLen(v: seq<u64>, shift: nat, limit: nat): (len: nat)
    requires 1 <= limit <= 8
    ensures len < limit
  {
    if limit == 1 then 0
    else
      var best := BestLen(v, shift, limit - 1);
      if Cost(v, shift, limit - 1) < Cost(v, shift, best) then limit - 1 else best
  }

  lemma {:induction false} BestLenIsCheapest(v: seq<u64>, shift: nat, limit: nat, len: nat)
    requires 1 <= limit <= 8 && len < limit
    ensures Cost(v, shift, BestLen(v, shift, limit)) <= Cost(v, shift, len)
    ensures len < BestLen(v, shift, limit) ==> Cost(v, shift, BestLen(v, shift, limit)) < Cost(v, shift, len)
  {
    hide Cost;
    if limit > 1 {
      if len < limit - 1 {
        BestLenIsCheapest(v, shift, limit - 1, len);
      }
    }
  }

  datatype Params = Params(baseLen: nat, shift: nat)

  function ChooseParams(v: seq<u64>): (p: Params)
    ensures p.baseLen <= 7
  {
    if OrOf(v) == 0 then Params(0, 0)
    else
      var shift := WidestShift(v);
      var len := BestLen(v, shift, 8);
      if shift % 2 == 1 && MaxDeltaMsb(v, shift, len) % 8 != 7 then Params(len, shift - 1) else Params(len, shift)
  }

  // The low bits, below the shift, that an id must have: none, or for odd
  // shifts the one just below the shift.
  function ImpliedBits(shift: nat): nat
  {
    if shift % 2 == 0 then 0 else Pow2(shift - 1)
  }

  ghost predicate Admissible(v: seq<u64>, p: Params)
  {
    && p.baseLen <= 7 && p.shift <= 56
    && forall k :: 0 <= k < |v| ==> Low(v[k], p.shift) == ImpliedBits(p.shift)
  }

  // An odd shift of 57 is always given up again: its deltas have at most 7 bits.
  lemma ShiftIsAtMost56(v: seq<u64>)
    ensures ChooseParams(v).shift <= 56
  {
    hide OrOf, WidestShift, BestLen, MaxOf, MinOf, TopBytes, Shr, BitWidth;
    if OrOf(v) != 0 && WidestShift(v) == 57 {
      var d := SubClamped(MaxOf(v), TopBytes(MinOf(v), BestLen(v, 57, 8)));
      Pow2Consts();
      ShrBound(d, 57, 7);
      BitWidthAtMost(Shr(d, 57), 7);
    }
  }

  // The ids have no bits below the even part of the shift, and all have the
  // next bit if the shift is odd.
  lemma WidestShiftClears(v: seq<u64>, k: nat)
    requires OrOf(v) != 0 && k < |v|
    ensures var even := WidestShift(v) - WidestShift(v) % 2;
            Low(v[k], even) == 0 && (WidestShift(v) % 2 == 1 ==> Bit(v[k], even))
  {
    var even := WidestShift(v) - WidestShift(v) % 2;
    LowestBitIs(OrOf(v), even);
    OrOfLow(v, even, k);
    if WidestShift(v) % 2 == 1 {
      AndOfBit(v, even, k);
    }
  }

  lemma {:induction false} OrOfLowAll(v: seq<u64>, n: nat)
    requires forall k :: 0 <= k < |v| ==> Low(v[k], n) == 0
    ensures Low(OrOf(v), n) == 0
  {
    if v != [] {
      OrOfLowAll(v[..|v| - 1], n);
      OrLow(OrOf(v[..|v| - 1]), v[|v| - 1], n);
    } else {
      LowOfZero(n);
    }
  }

  lemma {:induction false} AndOfBitAll(v: seq<u64>, n: nat)
    requires v != [] && forall k :: 0 <= k < |v| ==> Bit(v[k], n)
    ensures Bit(AndOf(v), n)
  {
    var w := v[..|v| - 1];
    AndBit(AndOf(w), v[|v| - 1], n);
    if w != [] {
      AndOfBitAll(w, n);
    } else {
      assert v[0] < TWO64;
      BitOfAll(v[0], n);
    }
  }

  // What a word has is set in the word of all ones.
  lemma BitOfAll(x: u64, n: nat)
    requires Bit(x, n)
    ensures Bit(TWO64 - 1, n)
  {
    hide Pow2;
    Pow2Consts();
    BitInWord(x, n);
    if n >= 64 {
      Pow2Mono(64, n);
    }
    MaskBit(64, n);
  }

  lemma {:induction false} BitInWord(x: nat, n: nat)
    requires Bit(x, n)
    ensures x >= Pow2(n)
  {
    if n > 0 {
      BitInWord(x / 2, n - 1);
    }
  }

  lemma {:induction false} MaskBit(bits: nat, n: nat)
    requires n < bits
    ensures Bit(Pow2(bits) - 1, n)
  {
    if n > 0 {
      MaskBit(bits - 1, n - 1);
      assert (Pow2(bits) - 1) / 2 == Pow2(bits - 1) - 1;
    }
  }

  // The shift is as wide as it can be: up to 56, no even shift beyond it loses
  // nothing, and it takes one bit more if all ids have that bit.
  lemma WidestShiftIsWidest(v: seq<u64>, shift: nat)
    requires OrOf(v) != 0 && shift % 2 == 0 && shift <= 56
    ensures var even := WidestShift(v) - WidestShift(v) % 2;
            && ((forall k :: 0 <= k < |v| ==> Low(v[k], shift) == 0) <==> shift <= even)
            && (WidestShift(v) % 2 == 1 <==> forall k :: 0 <= k < |v| ==> Bit(v[k], even))
  {
    hide Low, Bit, LowestBit, OrOf, AndOf;
    var even := WidestShift(v) - WidestShift(v) % 2;
    LowestBitIs(OrOf(v), shift);
    if forall k :: 0 <= k < |v| ==> Low(v[k], shift) == 0 {
      OrOfLowAll(v, shift);
    }
    if shift <= even {
      forall k | 0 <= k < |v|
        ensures Low(v[k], shift) == 0
      {
        OrOfLow(v, shift, k);
      }
    }
    AllBits(v, even);
  }

  lemma AllBits(v: seq<u64>, n: nat)
    requires OrOf(v) != 0
    ensures Bit(AndOf(v), n) <==> forall k :: 0 <= k < |v| ==> Bit(v[k], n)
  {
    hide Bit, AndOf;
    if forall k :: 0 <= k < |v| ==> Bit(v[k], n) {
      AndOfBitAll(v, n);
    }
    if Bit(AndOf(v), n) {
      forall k | 0 <= k < |v|
        ensures Bit(v[k], n)
      {
        AndOfBit(v, n, k);
      }
    }
  }

  lemma ChosenFitsId(v: seq<u64>, k: nat)
    requires k < |v|
    ensures Low(v[k], ChooseParams(v).shift) == ImpliedBits(ChooseParams(v).shift)
  {
    hide OrOf, WidestShift, BestLen, MaxDeltaMsb, Shr, Pow2;
    if OrOf(v) != 0 {
      var wide, shift := WidestShift(v), ChooseParams(v).shift;
      WidestShiftClears(v, k);
      if wide % 2 == 1 {
        assert shift == wide || shift == wide - 1;
        LowNext(v[k], wide - 1);
      } else {
        assert shift == wide;
      }
    }
  }

  lemma ChosenIsAdmissible(v: seq<u64>)
    ensures Admissible(v, ChooseParams(v))
  {
    ShiftIsAtMost56(v);
    forall k | 0 <= k < |v|
      ensures Low(v[k], ChooseParams(v).shift) == ImpliedBits(ChooseParams(v).shift)
    {
      ChosenFitsId(v, k);
    }
  }

  // ----- the format -----

  function ShiftCode(shift: nat): nat
  {
    if shift % 2 == 0 then shift / 2
    else if shift / 2 + 29 < 31 then shift / 2 + 29 else 31
  }

  function HeaderBytes(p: Params): seq<byte>
    requires p.baseLen <= 7 && p.shift <= 56
  {
    [ShiftCode(p.shift) * 8 + p.baseLen] + if ShiftCode(p.shift) == 31 then [p.shift / 2] else []
  }

  function BaseShift(len: nat): (s: nat)
    requires len <= 7
  {
    64 - 8 * if len > 1 then len else 1
  }

  function Delta(x: u64, base: u64, shift: nat): u64
    requires base <= x
  {
    Shr(x - base, shift)
  }

  function Deltas(v: seq<u64>, p: Params): (d: seq<u64>)
    requires p.baseLen <= 7
    ensures |d| == |v|
  {
    var base := TopBytes(MinOf(v), p.baseLen);
    seq(|v|, i requires 0 <= i < |v| => Delta(v[i], base, p.shift))
  }

  function CellIdBytes(v: seq<u64>, p: Params): seq<byte>
    requires |v| < TWO32 && p.baseLen <= 7 && p.shift <= 56
  {
    HeaderBytes(p)
    + (LeBytes(Shr(TopBytes(MinOf(v), p.baseLen), BaseShift(p.baseLen)), p.baseLen)
       + U.UintVectorBytes(Deltas(v, p)))
  }

  // ----- the choice is cheapest -----

  // The bytes that the base and the deltas take.
  function BodySize(v: seq<u64>, p: Params): nat
    requires p.baseLen <= 7
  {
    p.baseLen + |v| * U.ElementLength(Deltas(v, p))
  }

  // The largest delta.
  function MaxDelta(v: seq<u64>, p: Params): u64
    requires p.baseLen <= 7
  {
    Shr(SubClamped(MaxOf(v), TopBytes(MinOf(v), p.baseLen)), p.shift)
  }

  lemma DeltasAtMost(v: seq<u64>, p: Params)
    requires p.baseLen <= 7 && v != []
    ensures forall k :: 0 <= k < |v| ==> Deltas(v, p)[k] <= MaxDelta(v, p)
    ensures MaxDelta(v, p) in Deltas(v, p)
  {
    hide Shr, TopBytes, MinOf, MaxOf;
    var base := TopBytes(MinOf(v), p.baseLen);
    forall k | 0 <= k < |v|
      ensures Deltas(v, p)[k] <= MaxDelta(v, p)
    {
      ShrMono(v[k] - base, MaxOf(v) - base, p.shift);
    }
    var k := MaxPlace(v);
    assert Deltas(v, p)[k] == MaxDelta(v, p);
  }

  lemma MaxPlace(v: seq<u64>) returns (k: nat)
    requires v != []
    ensures k < |v| && v[k] == MaxOf(v)
  {
    assert v[0] <= MaxOf(v);
    k :| 0 <= k < |v| && v[k] == MaxOf(v);
  }

  lemma FitsAll(v: seq<u64>, p: Params, len: nat)
    requires p.baseLen <= 7 && v != [] && len >= 1
    ensures U.ElementLength(Deltas(v, p)) <= len <==> MaxDelta(v, p) < Pow2(8 * len)
  {
    hide Pow2, MaxDelta, U.ElementLength, Deltas;
    var d := Deltas(v, p);
    DeltasAtMost(v, p);
    var n := U.ElementLength(d);
    if n <= len {
      Pow2Mono(8 * n, 8 * len);
      var k :| 0 <= k < |d| && d[k] == MaxDelta(v, p);
      U.ElementFits(d, k);
    } else {
      U.ElementLengthIsLeast(d, len);
    }
  }

  // The cost that the choice is based on is the size of the encoding.
  lemma CostIsSize(v: seq<u64>, p: Params)
    requires p.baseLen <= 7 && v != []
    ensures Cost(v, p.shift, p.baseLen) == BodySize(v, p)
  {
    hide Pow2, MaxDelta, U.ElementLength, Deltas, BitWidth, TopBytes, MinOf, MaxOf, Shr;
    var msb, n := MaxDeltaMsb(v, p.shift, p.baseLen), U.ElementLength(Deltas(v, p));
    assert msb == TopBit(MaxDelta(v, p)) by {
      DeltaIs(v, p);
    }
    FitsAll(v, p, n);
    BitWidthAtMost(MaxDelta(v, p), 8 * n);
    FitsAll(v, p, msb / 8 + 1);
    BitWidthAtMost(MaxDelta(v, p), 8 * (msb / 8 + 1));
    assert n == msb / 8 + 1;
  }

  lemma DeltaIs(v: seq<u64>, p: Params)
    requires p.baseLen <= 7
    ensures MaxDeltaMsb(v, p.shift, p.baseLen) == TopBit(MaxDelta(v, p))
  {
  }

  // One bit more of the delta: the same number of bytes if its top byte has room,
  // and never less.
  lemma OneBitMore(v: seq<u64>, shift: nat, len: nat)
    requires len <= 7 && shift > 0
    ensures Cost(v, shift, len) <= Cost(v, shift - 1, len)
    ensures MaxDeltaMsb(v, shift, len) % 8 != 7 ==> Cost(v, shift, len) == Cost(v, shift - 1, len)
  {
    hide TopBytes, MinOf, MaxOf, Shr, BitWidth;
    var d := SubClamped(MaxOf(v), TopBytes(MinOf(v), len));
    HalfIs(d, shift);
    U.MulOrder(MaxDeltaMsb(v, shift, len) / 8 + 1, MaxDeltaMsb(v, shift - 1, len) / 8 + 1, |v|);
  }

  lemma HalfIs(d: nat, shift: nat)
    requires shift > 0
    ensures TopBit(Shr(d, shift)) <= TopBit(Shr(d, shift - 1)) <= TopBit(Shr(d, shift)) + 1
  {
    ShrShr(d, shift - 1, 1);
    HalfWidth(Shr(d, shift - 1));
    hide Shr;
  }

  lemma HalfWidth(x: nat)
    ensures TopBit(Shr(x, 1)) <= TopBit(x) <= TopBit(Shr(x, 1)) + 1
  {
    assert Shr(x, 1) == x / 2;
  }

  // Main result about the choice: no other number of base bytes makes the
  // encoding shorter.
  lemma EncodingIsShortest(v: seq<u64>, len: nat)
    requires v != [] && OrOf(v) != 0 && len <= 7
    ensures BodySize(v, ChooseParams(v)) <= BodySize(v, Params(len, ChooseParams(v).shift))
  {
    hide BodySize, Cost, BestLen, WidestShift, MaxDeltaMsb, OrOf;
    var wide, p := WidestShift(v), ChooseParams(v);
    BestLenIsCheapest(v, wide, 8, len);
    CostIsSize(v, p);
    CostIsSize(v, Params(len, p.shift));
    if p.shift != wide {
      OneBitMore(v, wide, p.baseLen);
      OneBitMore(v, wide, len);
    }
  }

  // ----- what a reader sees -----

  datatype CellIdView = CellIdView(deltas: U.UintView, base: u64, shift: nat) {
    // operator[]: 64-bit arithmetic, wrapping for malformed input.
    function At(i: nat): (id: u64)
      requires deltas.Valid() && i < deltas.size
    {
      (Shl(deltas.At(i), shift) % TWO64 + base) % TWO64
    }

    ghost predicate Valid()
    {
      deltas.Valid() && shift <= 56
    }

    // No element is subject to wrap-around.
    ghost predicate Exact()
      requires deltas.Valid()
    {
      forall i :: 0 <= i < deltas.size ==> Shl(deltas.At(i), shift) + base < TWO64
    }
  }

  // The header: shift and number of base bytes.
  function ParseHeader(s: seq<byte>): (r: Parsed<Params>)
    ensures r.Parsed? ==> r.value.baseLen <= 7 && r.value.shift <= 56
    ensures r.Parsed? ==> |r.rest| < |s|
  {
    if |s| < 2 then Malformed
    else
      var baseLen := s[0] % 8;
      if s[0] / 8 == 31 then
        var code: nat := 29 + (s[1] as int);
        if code > 56 then Malformed else Parsed(Params(baseLen, 2 * (code - 29) + 1), s[2..])
      else
        var code := s[0] / 8;
        Parsed(Params(baseLen, if code >= 29 then 2 * (code - 29) + 1 else 2 * code), s[1..])
  }

  // The base with the bit that an odd shift implies.
  function ReaderBase(raw: nat, p: Params): (b: u64)
    requires p.baseLen <= 7 && p.shift <= 56
  {
    var b := Shl(raw, BaseShift(p.baseLen)) % TWO64;
    if p.shift % 2 == 1 then
      OrStaysWord(b, p.shift - 1);
      Or(b, Pow2(p.shift - 1))
    else b
  }

  lemma OrStaysWord(b: u64, k: nat)
    requires k < 64
    ensures Or(b, Pow2(k)) < TWO64
  {
    Pow2Consts();
    Pow2Mono(k, 64);
    OrWidth(b, Pow2(k));
    BitWidthAtMost(b, 64);
    BitWidthAtMost(Pow2(k), 64);
    BitWidthAtMost(Or(b, Pow2(k)), 64);
  }

  function ParseCellIdVector(s: seq<byte>): (r: Parsed<CellIdView>)
    ensures r.Parsed? ==> r.value.Valid()
  {
    match ParseHeader(s)
    case Malformed => Malformed
    case Parsed(p, rest) =>
      if |rest| < p.baseLen then Malformed
      else
        GetUintIsFromLe(rest, 0, p.baseLen);
        var base := ReaderBase(FromLe(rest[..p.baseLen]), p);
        match U.ParseUintVector(rest[p.baseLen..])
        case Malformed => Malformed
        case Parsed(deltas, tail) => Parsed(CellIdView(deltas, base, p.shift), tail)
  }

  lemma HeaderRoundTrip(p: Params, tail: seq<byte>)
    requires p.baseLen <= 7 && p.shift <= 56 && tail != []
    ensures ParseHeader(HeaderBytes(p) + tail) == Parsed(p, tail)
  {
    var s := HeaderBytes(p) + tail;
    assert s[|HeaderBytes(p)|..] == tail;
  }

  // The base bytes survive their shift out and back.
  lemma BaseRoundTrip(x: u64, len: nat)
    requires len <= 7
    ensures Shr(TopBytes(x, len), BaseShift(len)) < Pow2(8 * len)
    ensures Shl(Shr(TopBytes(x, len), BaseShift(len)), BaseShift(len)) == TopBytes(x, len)
  {
    hide Shl, Shr, Low, Pow2;
    var n := 64 - 8 * len;
    Pow2Consts();
    ClearLowIs(x, n);
    LowDown(TopBytes(x, len), n, BaseShift(len));
    Split(TopBytes(x, len), BaseShift(len));
    ShrBound(TopBytes(x, len), n, 8 * len);
  }

  ghost predicate Represents(view: CellIdView, v: seq<u64>)
  {
    && view.Valid() && view.deltas.size == |v|
    && forall k :: 0 <= k < |v| ==> view.At(k) == v[k]
  }

  // Removing the base and adding it back loses nothing, whether or not the
  // base covers the implied bit.  "m" is the smallest id.
  lemma DeltaRoundTrip(x: u64, m: u64, p: Params)
    requires p.baseLen <= 7 && p.shift <= 56 && m <= x
    requires Low(x, p.shift) == ImpliedBits(p.shift) && Low(m, p.shift) == ImpliedBits(p.shift)
    ensures var base := TopBytes(m, p.baseLen);
            Shl(Delta(x, base, p.shift), p.shift) + ReaderBase(Shr(base, BaseShift(p.baseLen)), p) == x
  {
    hide Shl, Shr, Low, Or, Pow2;
    var s, n := p.shift, 64 - 8 * p.baseLen;
    var base := TopBytes(m, p.baseLen);
    BaseRoundTrip(m, p.baseLen);
    ClearLowIs(m, n);
    if s % 2 == 1 {
      OrPow2(base, s - 1);
    }
    if n >= s {
      DeltaAboveBase(x, base, n, s);
    } else {
      BaseCoversShift(m, n, s);
      SameLow(x, m, s);
    }
  }

  lemma DeltaAboveBase(x: nat, base: nat, n: nat, s: nat)
    requires base <= x && Low(base, n) == 0 && s <= n
    ensures Shl(Shr(x - base, s), s) + Low(x, s) == x - base
    ensures s > 0 ==> !Bit(base, s - 1)
  {
    hide *;
    var d := x - base;
    LowDown(base, n, s);
    assert Low(x, s) == Low(d, s) by {
      LowOfSum(base, d, s);
      assert base + d == x;
    }
    Split(d, s);
    if s > 0 {
      LowDown(base, s, s - 1);
      LowNext(base, s - 1);
    }
  }

  lemma BaseCoversShift(m: nat, n: nat, s: nat)
    requires n < s && Low(m, s) == ImpliedBits(s)
    ensures Low(m, n) == 0
    ensures s % 2 == 1 ==> Bit(m, s - 1)
  {
    LowNext(m, s - 1);
    Split(m, s - 1);
    if s % 2 == 1 {
      LowDown(m, s - 1, n);
    } else {
      LowDown(m, s, n);
    }
  }

  // Ids that agree in their low bits differ by a multiple of the shift.
  lemma SameLow(x: nat, m: nat, s: nat)
    requires m <= x && Low(x, s) == Low(m, s)
    ensures Shl(Shr(x - m, s), s) == x - m
  {
    hide *;
    Split(x, s);
    Split(m, s);
    ShlMono(Shr(m, s), Shr(x, s), s);
    ShlAdd(Shr(m, s), Shr(x, s) - Shr(m, s), s);
    Join(Shr(x, s) - Shr(m, s), 0, s);
  }

  lemma ParsedCellIds(v: seq<u64>, p: Params, tail: seq<byte>)
    requires |v| < TWO32 && Admissible(v, p)
    ensures var raw := Shr(TopBytes(MinOf(v), p.baseLen), BaseShift(p.baseLen));
            var u := U.ParseUintVector(U.UintVectorBytes(Deltas(v, p)) + tail);
            u.Parsed? && u.rest == tail && U.Represents(u.value, Deltas(v, p)) &&
            ParseCellIdVector(CellIdBytes(v, p) + tail) == Parsed(CellIdView(u.value, ReaderBase(raw, p), p.shift), tail)
  {
    hide Shl, Shr, Low, MinOf, TopBytes, ReaderBase, LeBytes, FromLe, HeaderBytes, ParseHeader, Deltas;
    hide U.UintVectorBytes, U.ParseUintVector;
    var raw := Shr(TopBytes(MinOf(v), p.baseLen), BaseShift(p.baseLen));
    var baseBytes := LeBytes(raw, p.baseLen);
    var body := U.UintVectorBytes(Deltas(v, p));
    BaseRoundTrip(MinOf(v), p.baseLen);
    FromLeBytes(raw, p.baseLen);
    AppendAssoc(HeaderBytes(p), baseBytes + body, tail);
    AppendAssoc(baseBytes, body, tail);
    U.UintVectorRoundTrip(Deltas(v, p), tail);
    assert body + tail != [];
    HeaderRoundTrip(p, baseBytes + (body + tail));
    DropPrefix(baseBytes, body + tail);
  }

  lemma DropPrefix(a: seq<byte>, b: seq<byte>)
    ensures (a + b)[..|a|] == a && (a + b)[|a|..] == b
  {
  }

  lemma ViewedId(v: seq<u64>, p: Params, u: U.UintView, k: nat)
    requires Admissible(v, p) && U.Represents(u, Deltas(v, p)) && k < |v|
    ensures var raw := Shr(TopBytes(MinOf(v), p.baseLen), BaseShift(p.baseLen));
            Shl(u.At(k), p.shift) + ReaderBase(raw, p) == v[k]
  {
    hide Shl, Shr, Low, ReaderBase, TopBytes, MinOf, Delta, BaseShift;
    var j :| 0 <= j < |v| && v[j] == MinOf(v);
    assert u.At(k) == Deltas(v, p)[k];
    DeltaRoundTrip(v[k], MinOf(v), p);
  }

  lemma CellIdVectorRoundTrip(v: seq<u64>, p: Params, tail: seq<byte>)
    requires |v| < TWO32 && Admissible(v, p)
    ensures var r := ParseCellIdVector(CellIdBytes(v, p) + tail);
            r.Parsed? && r.rest == tail && Represents(r.value, v) && r.value.Exact()
  {
    hide ParseCellIdVector, CellIdBytes, Shl, Shr, Low, MinOf, ReaderBase, TopBytes, Deltas, BaseShift;
    hide U.ParseUintVector, U.UintVectorBytes, U.UintView.At, GetUintWithLength;
    ParsedCellIds(v, p, tail);
    var view := ParseCellIdVector(CellIdBytes(v, p) + tail).value;
    forall k | 0 <= k < |v|
      ensures view.At(k) == v[k] && Shl(view.deltas.At(k), view.shift) + view.base < TWO64
    {
      ViewedId(v, p, view.deltas, k);
    }
  }

  // What the encoder writes is read back as the ids it was given.
  lemma EncodedIdsRoundTrip(v: seq<u64>, tail: seq<byte>)
    requires |v| < TWO32
    ensures Admissible(v, ChooseParams(v))
    ensures var r := ParseCellIdVector(CellIdBytes(v, ChooseParams(v)) + tail);
            r.Parsed? && r.rest == tail && Represents(r.value, v) && r.value.Exact()
  {
    ChosenIsAdmissible(v);
    CellIdVectorRoundTrip(v, ChooseParams(v), tail);
  }

  // ----- EncodeS2CellIdVector -----

  lemma PrefixStep(v: seq<u64>, i: nat)
    requires i < |v|
    ensures OrOf(v[..i + 1]) == Or(OrOf(v[..i]), v[i])
    ensures AndOf(v[..i + 1]) == And(AndOf(v[..i]), v[i])
    ensures MinOf(v[..i + 1]) == if MinOf(v[..i]) < v[i] then MinOf(v[..i]) else v[i]
    ensures MaxOf(v[..i + 1]) == if MaxOf(v[..i]) > v[i] then MaxOf(v[..i]) else v[i]
  {
    assert v[..i + 1][..i] == v[..i];
  }

  // A pass over the ids, the choice of parameters, and the three parts of the
  // encoding.
  method EncodeS2CellIdVector(v: seq<u64>, encoder: Encoder)
    requires |v| < TWO32
    modifies encoder
    ensures ChooseParams(v).shift <= 56
    ensures encoder.buf == old(encoder.buf) + CellIdBytes(v, ChooseParams(v))
  {
    hide OrOf, AndOf, MinOf, MaxOf, ChooseParams, Shr, TopBytes, HeaderBytes, LeBytes, U.UintVectorBytes;
    var vOr, vAnd, vMin, vMax := Summarize(v);
    var p, base := FindParams(v, vOr, vAnd, vMin, vMax);
    ShiftIsAtMost56(v);
    BaseRoundTrip(vMin, p.baseLen);
    WriteHeader(p, encoder);
    EncodeUintWithLength(Shr(base, BaseShift(p.baseLen)), p.baseLen, encoder);
    var deltas := ComputeDeltas(v, base, p);
    U.EncodeUintVector(deltas, encoder);
    AppendAssoc4(old(encoder.buf), HeaderBytes(p), LeBytes(Shr(base, BaseShift(p.baseLen)), p.baseLen),
                 U.UintVectorBytes(deltas));
  }

  method Summarize(v: seq<u64>) returns (vOr: nat, vAnd: nat, vMin: u64, vMax: u64)
    ensures vOr == OrOf(v) && vAnd == AndOf(v) && vMin == MinOf(v) && vMax == MaxOf(v)
  {
    vOr, vAnd, vMin, vMax := 0, TWO64 - 1, TWO64 - 1, 0;
    for i := 0 to |v|
      invariant vOr == OrOf(v[..i]) && vAnd == AndOf(v[..i])
      invariant vMin == MinOf(v[..i]) && vMax == MaxOf(v[..i])
    {
      PrefixStep(v, i);
      vOr := Or(vOr, v[i]);
      vAnd := And(vAnd, v[i]);
      vMin := if vMin < v[i] then vMin else v[i];
      vMax := if vMax > v[i] then vMax else v[i];
    }
    assert v[..|v|] == v;
  }

  method FindParams(v: seq<u64>, vOr: nat, vAnd: nat, vMin: u64, vMax: u64) returns (p: Params, base: u64)
    requires |v| < TWO32
    requires vOr == OrOf(v) && vAnd == AndOf(v) && vMin == MinOf(v) && vMax == MaxOf(v)
    ensures p == ChooseParams(v) && base == TopBytes(vMin, p.baseLen)
  {
    hide OrOf, AndOf, MinOf, MaxOf, BestLen, MaxDeltaMsb, TopBytes, LowestBit, Bit;
    p, base := Params(0, 0), 0;
    TopBytesOfNone(vMin);
    if vOr > 0 {
      var low := LowestBit(vOr);
      var shift: nat := if low - low % 2 < 56 then low - low % 2 else 56;
      if Bit(vAnd, shift) {
        shift := shift + 1;
      }
      assert shift == WidestShift(v);
      var baseLen, maxDeltaMsb;
      baseLen, base, maxDeltaMsb := ChooseBaseLength(v, shift, vMin, vMax);
      // One byte less if the deltas have room for one more bit.
      if shift % 2 == 1 && maxDeltaMsb % 8 != 7 {
        shift := shift - 1;
      }
      p := Params(baseLen, shift);
    }
  }

  method WriteHeader(p: Params, encoder: Encoder)
    requires p.baseLen <= 7 && p.shift <= 56
    modifies encoder
    ensures encoder.buf == old(encoder.buf) + HeaderBytes(p)
  {
    var shiftCode := p.shift / 2;
    if p.shift % 2 == 1 {
      shiftCode := if shiftCode + 29 < 31 then shiftCode + 29 else 31;
    }
    encoder.Put8(shiftCode * 8 + p.baseLen);
    if shiftCode == 31 {
      encoder.Put8(p.shift / 2);
    }
  }

  method ComputeDeltas(v: seq<u64>, base: u64, p: Params) returns (deltas: seq<u64>)
    requires p.baseLen <= 7 && base == TopBytes(MinOf(v), p.baseLen)
    ensures deltas == Deltas(v, p)
  {
    hide MinOf, TopBytes, Shr;
    deltas := [];
    for i := 0 to |v|
      invariant |deltas| == i && forall k :: 0 <= k < i ==> deltas[k] == Delta(v[k], base, p.shift)
    {
      deltas := deltas + [Delta(v[i], base, p.shift)];
    }
  }

  // Every candidate beats the initial best size of ~0.
  lemma CostIsSmall(v: seq<u64>, shift: nat, len: nat)
    requires |v| < TWO32 && len <= 7
    ensures Cost(v, shift, len) < TWO64 - 1
  {
    hide BitWidth, MaxOf, MinOf, TopBytes, Shr;
    var d := SubClamped(MaxOf(v), TopBytes(MinOf(v), len));
    Pow2Consts();
    BitWidthAtMost(Shr(d, shift), 64);
    var msb := MaxDeltaMsb(v, shift, len);
    SizeIsSmall(len, |v|, msb / 8 + 1);
  }

  lemma SizeIsSmall(len: nat, n: nat, perItem: nat)
    requires len <= 7 && n < TWO32 && perItem <= 8
    ensures len + n * perItem < TWO64 - 1
  {
    U.MulOrder(perItem, 8, n);
  }

  // The cheapest base length in 0..7.
  method ChooseBaseLength(v: seq<u64>, shift: nat, vMin: u64, vMax: u64)
    returns (baseLen: nat, base: u64, maxDeltaMsb: nat)
    requires |v| < TWO32 && vMin == MinOf(v) && vMax == MaxOf(v)
    ensures baseLen == BestLen(v, shift, 8) && base == TopBytes(vMin, baseLen)
    ensures maxDeltaMsb == MaxDeltaMsb(v, shift, baseLen)
  {
    hide MinOf, MaxOf, Shr, BitWidth, TopBytes, VariableSize, TopBit;
    var bytes: nat := TWO64 - 1;
    base, baseLen, maxDeltaMsb := 0, 0, 0;
    for len := 0 to 8
      invariant len > 0 ==> baseLen == BestLen(v, shift, len) && base == TopBytes(vMin, baseLen)
      invariant len > 0 ==> maxDeltaMsb == MaxDeltaMsb(v, shift, baseLen)
      invariant bytes == if len == 0 then TWO64 - 1 else Cost(v, shift, baseLen)
    {
      var tBase := TopBytes(vMin, len);
      var tMaxDeltaMsb := TopBit(Shr(SubClamped(vMax, tBase), shift));
      var tBytes := VariableSize(len, |v|, tMaxDeltaMsb);
      CostIsSmall(v, shift, len);
      if tBytes < bytes {
        base, baseLen, maxDeltaMsb, bytes := tBase, len, tMaxDeltaMsb, tBytes;
      }
    }
  }

  // ----- EncodedS2CellIdVector -----

  // r is the index of the first element that is >= target.
  ghost predicate IsLowerBound(view: CellIdView, target: u64, r: nat)
    requires view.Valid()
  {
    && r <= view.deltas.size
    && (forall i :: 0 <= i < r ==> view.At(i) < target)
    && (forall i :: r <= i < view.deltas.size ==> target <= view.At(i))
  }

  // What the search answers.
  ghost predicate IsAnswer(view: CellIdView, target: u64, r: nat)
    requires view.Valid()
  {
    if target > view.base && target >= END_LEAF then r == view.deltas.size else IsLowerBound(view, target, r)
  }

  ghost predicate Sorted(view: CellIdView)
    requires view.Valid()
  {
    forall i, j :: 0 <= i < j < view.deltas.size ==> view.At(i) <= view.At(j)
  }

  // The target in delta space, rounded up.
  function DeltaTarget(target: u64, base: u64, shift: nat): nat
    requires base < target
  {
    Shr(target - base + Pow2(shift) - 1, shift)
  }

  // Rounding up makes the comparison of deltas agree with that of ids.
  lemma DeltaTargetIsExact(d: nat, target: u64, base: u64, shift: nat)
    requires base < target
    ensures d < DeltaTarget(target, base, shift) <==> Shl(d, shift) + base < target
  {
    hide *;
    var x := target - base + Pow2(shift) - 1;
    Split(x, shift);
    ShlMono(d, Shr(x, shift), shift);
    ShlMono(Shr(x, shift), d, shift);
    assert DeltaTarget(target, base, shift) == Shr(x, shift) by {
      DeltaTargetDef(target, base, shift);
    }
  }

  lemma DeltaTargetDef(target: u64, base: u64, shift: nat)
    requires base < target
    ensures DeltaTarget(target, base, shift) == Shr(target - base + Pow2(shift) - 1, shift)
  {
  }

  // The sum that DeltaTarget shifts does not wrap around for a target below
  // END_LEAF.
  lemma DeltaTargetIsWord(target: u64, base: u64, shift: nat)
    requires base < target < END_LEAF && shift <= 56
    ensures target - base + Pow2(shift) - 1 < TWO64
  {
    Pow2Consts();
    Pow2Mono(shift, 56);
  }

  lemma ExactAt(view: CellIdView, i: nat)
    requires view.Valid() && view.Exact() && i < view.deltas.size
    ensures view.At(i) == Shl(view.deltas.At(i), view.shift) + view.base
  {
    hide Shl, U.UintView.At;
  }

  // What the search in delta space relies on.
  lemma DeltaSpace(view: CellIdView, target: u64)
    requires view.Valid() && view.Exact() && Sorted(view)
    ensures forall i, j :: 0 <= i < j < view.deltas.size ==> view.deltas.At(i) <= view.deltas.At(j)
    ensures target > view.base ==>
              forall i :: 0 <= i < view.deltas.size ==>
                            (view.At(i) < target <==> view.deltas.At(i) < DeltaTarget(target, view.base, view.shift))
  {
    hide Shl, U.UintView.At, CellIdView.At, DeltaTarget;
    forall i, j | 0 <= i < j < view.deltas.size
      ensures view.deltas.At(i) <= view.deltas.At(j)
    {
      ExactAt(view, i);
      ExactAt(view, j);
      assert view.At(i) <= view.At(j);
      ShlMono(view.deltas.At(i), view.deltas.At(j), view.shift);
    }
    if target > view.base {
      forall i | 0 <= i < view.deltas.size
        ensures view.At(i) < target <==> view.deltas.At(i) < DeltaTarget(target, view.base, view.shift)
      {
        ExactAt(view, i);
        DeltaTargetIsExact(view.deltas.At(i), target, view.base, view.shift);
      }
    }
  }

  class EncodedS2CellIdVector {
    const deltas_: U.EncodedUintVector
    var base_: u64
    var shift_: nat

    constructor ()
      ensures fresh(deltas_)
    {
      deltas_ := new U.EncodedUintVector();
      base_, shift_ := 0, 0;
    }

    function View(): CellIdView
      reads this, deltas_
    {
      CellIdView(deltas_.View(), base_, shift_)
    }

    method Init(decoder: Decoder) returns (ok: bool)
      modifies this, deltas_, decoder
      ensures ok <==> ParseCellIdVector(old(decoder.rest)).Parsed?
      ensures ok ==> Parsed(View(), decoder.rest) == ParseCellIdVector(old(decoder.rest)) && View().Valid()
    {
      hide U.ParseUintVector, Shl, Or, FromLe, BaseShift, Pow2;
      if decoder.Avail() < 2 {
        return false;
      }
      ghost var input := decoder.rest;
      var codePlusLen := decoder.Get8();
      var shiftCode: nat := codePlusLen / 8;
      if shiftCode == 31 {
        var extra := decoder.Get8();
        shiftCode := 29 + (extra as int);
        if shiftCode > 56 {
          return false;
        }
      }
      var baseLen := codePlusLen % 8;
      assert ParseHeader(input).Parsed? && ParseHeader(input).rest == decoder.rest;
      var raw: u64;
      ok, raw := decoder.GetUint(baseLen);
      if !ok {
        return;
      }
      base_ := Shl(raw, BaseShift(baseLen)) % TWO64;
      if shiftCode >= 29 {
        shift_ := 2 * (shiftCode - 29) + 1;
        OrStaysWord(base_, shift_ - 1);
        base_ := Or(base_, Pow2(shift_ - 1));
      } else {
        shift_ := 2 * shiftCode;
      }
      ok := deltas_.Init(decoder);
    }

    // The search runs on the deltas; targets from END_LEAF on are beyond every
    // valid cell id.
    method LowerBound(target: u64) returns (r: nat)
      requires View().Valid() && View().Exact() && Sorted(View())
      ensures IsAnswer(View(), target, r)
    {
      hide Shl, Pow2, DeltaTarget, U.UintView.At, CellIdView.At, GetUintWithLength;
      ghost var view := View();
      if target <= base_ {
        forall i | 0 <= i < view.deltas.size
          ensures target <= view.At(i)
        {
          ExactAt(view, i);
        }
        return 0;
      }
      if target >= END_LEAF {
        return deltas_.size_;
      }
      DeltaSpace(view, target);
      DeltaTargetIsWord(target, base_, shift_);
      r := deltas_.LowerBound(DeltaTarget(target, base_, shift_));
    }
  }

  // A target from END_LEAF on (and above the base) is answered with size(),
  // which is right exactly when every stored id is smaller than the target.
  lemma EndAnswerIsRightIff(view: CellIdView, target: u64)
    requires view.Valid() && Sorted(view)
    ensures IsLowerBound(view, target, view.deltas.size)
            <==> view.deltas.size == 0 || view.At(view.deltas.size - 1) < target
  {
    hide CellIdView.At;
    if view.deltas.size > 0 && view.At(view.deltas.size - 1) < target {
      forall i | 0 <= i < view.deltas.size
        ensures view.At(i) < target
      {
        assert i < view.deltas.size - 1 ==> view.At(i) <= view.At(view.deltas.size - 1);
      }
    }
  }

  // The search is right for every target if and only if the vector is empty, or
  // its last id is below END_LEAF, or no id exceeds the base.
  lemma SearchIsRightIff(view: CellIdView)
    requires view.Valid() && Sorted(view)
    ensures (forall target: u64, r: nat :: IsAnswer(view, target, r) ==> IsLowerBound(view, target, r))
            <==> (view.deltas.size == 0 || view.At(view.deltas.size - 1) < END_LEAF
                  || view.At(view.deltas.size - 1) <= view.base)
  {
    hide CellIdView.At, Sorted;
    var n := view.deltas.size;
    if n > 0 && view.At(n - 1) >= END_LEAF && view.At(n - 1) > view.base {
      EndAnswerIsRightIff(view, view.At(n - 1));
      assert IsAnswer(view, view.At(n - 1), n);
    } else {
      forall target: u64, r: nat | IsAnswer(view, target, r)
        ensures IsLowerBound(view, target, r)
      {
        if target > view.base && target >= END_LEAF {
          EndAnswerIsRightIff(view, target);
        }
      }
    }
  }

  // The id 0xFF << 56 is stored exactly, yet a search for END_LEAF answers "not
  // found".
  lemma EndAnswerCanBeWrong()
    ensures var p := Params(0, 56);
            var id := 0xFF00_0000_0000_0000;
            var view := CellIdView(U.UintView([255], 1, 1), 0, 56);
            && Admissible([id], p) && view.Valid() && view.Exact() && Sorted(view)
            && view.At(0) == id && view.base < END_LEAF
            && !IsLowerBound(view, END_LEAF, 1) && IsLowerBound(view, END_LEAF, 0)
  {
    hide Shl, Low, Pow2, U.UintView.At;
    ByteAtTop();
    var view := CellIdView(U.UintView([255], 1, 1), 0, 56);
    ExactAtLiteral();
  }

  lemma ByteAtTop()
    ensures Shl(255, 56) == 0xFF00_0000_0000_0000 && Low(0xFF00_0000_0000_0000, 56) == 0
  {
    hide Shl, Low, Pow2;
    ShlAdd(255, 1, 56);
    Pow2Consts();
    assert Shl(256, 56) == TWO64 && Shl(1, 56) == Pow2(56) by {
      Pow2Shl(8, 56);
      Pow2Shl(0, 56);
    }
    Join(255, 0, 56);
  }

  lemma ExactAtLiteral()
    ensures U.UintView([255], 1, 1).At(0) == 255
  {
    GetUintIsFromLe([255], 0, 1);
    assert [255][0..1] == [255] && FromLe([255]) == 255;
  }
}
