/**
 The encoding parameters of a block of up to 16 values: how many bits each
 delta gets, how many the block's offset, and whether the two overlap.
 */
module BlockCodes {
  import opened Words

  const BLOCK_SIZE: nat := 16

  // Marks a point that is stored as an exception.
  const EXCEPTION: u64 := 0xFFFF_FFFF_FFFF_FFFF

  datatype BlockCode = BlockCode(deltaBits: nat, offsetBits: nat, overlapBits: nat)

  function Reserved(haveExceptions: bool): nat
  {
    if haveExceptions then BLOCK_SIZE else 0
  }

  // ----- CanEncode -----

  predicate CanEncode(dMin: u64, dMax: u64, deltaBits: nat, overlapBits: nat, haveExceptions: bool)
    requires overlapBits <= deltaBits <= 64
  {
    var d := ClearLow(dMin, deltaBits - overlapBits);
    var maxDelta := BitMask(deltaBits);
    if haveExceptions && maxDelta < BLOCK_SIZE then false
    else
      var m := maxDelta - Reserved(haveExceptions);
      // The first test keeps the sum in the second from wrapping around.
      d > TWO64 - 1 - m || d + m >= dMax
  }

  // The test decides whether the block fits, with no effect of 64-bit overflow.
  ghost predicate Spans(dMin: nat, dMax: nat, deltaBits: nat, overlapBits: nat, haveExceptions: bool)
    requires overlapBits <= deltaBits
  {
    && Pow2(deltaBits) > Reserved(haveExceptions)
    && dMax < ClearLow(dMin, deltaBits - overlapBits) + Pow2(deltaBits) - Reserved(haveExceptions)
  }

  lemma CanEncodeIsSpans(dMin: u64, dMax: u64, deltaBits: nat, overlapBits: nat, haveExceptions: bool)
    requires overlapBits <= deltaBits <= 64
    ensures CanEncode(dMin, dMax, deltaBits, overlapBits, haveExceptions)
            <==> Spans(dMin, dMax, deltaBits, overlapBits, haveExceptions)
  {
    hide ClearLow, Pow2;
    Pow2Consts();
    Pow2Mono(deltaBits, 64);
  }

  // ----- delta length and overlap -----

  // One bit less than the range needs, rounded up to nibbles.
  function FirstDeltaNibbles(range: u64): (k: nat)
    ensures 1 <= k && BitWidth(range) <= 4 * k + 1
  {
    hide BitWidth;
    var w := BitWidth(range);
    ((if w > 2 then w - 1 else 1) + 3) / 4
  }

  function FirstDeltaBits(range: u64): (d: nat)
  {
    4 * FirstDeltaNibbles(range)
  }

  lemma FirstDeltaBitsAtMost64(range: u64)
    requires range < TWO63
    ensures FirstDeltaNibbles(range) <= 16
  {
    Pow2Consts();
    BitWidthAtMost(range, 63);
  }

  // 64-bit deltas always suffice, so the length is never raised beyond 64.
  lemma FullWidthSpans(bMin: nat, bMax: nat, haveExceptions: bool)
    requires bMax < TWO63
    ensures Spans(bMin, bMax, 64, 0, haveExceptions)
  {
    hide ClearLow, Pow2;
    Pow2Consts();
  }

  // The worst case: one nibble more together with an overlap always suffices.
  lemma LastAttemptSpans(bMin: nat, bMax: nat, d: nat, haveExceptions: bool)
    requires bMin <= bMax && d >= 4 && BitWidth(bMax - bMin) <= d + 1
    ensures Spans(bMin, bMax, d + 4, 4, haveExceptions)
  {
    hide ClearLow, Pow2, BitWidth;
    BitWidthAtMost(bMax - bMin, d + 1);
    assert Pow2(d + 1) == 2 * Pow2(d) && Pow2(d + 4) == 16 * Pow2(d) by {
      Pow2Shl(d, 1);
      ShlOne(Pow2(d));
      Pow2Step(d);
    }
    ClearLowIs(bMin, d);
    Pow2Mono(4, d);
    Pow2Consts();
  }

  lemma ShlOne(x: nat)
    ensures Shl(x, 1) == 2 * x
  {
  }

  // The first of the four combinations, in order of preference, that works.
  function ChooseDelta(bMin: u64, bMax: u64, haveExceptions: bool): (r: (nat, nat))
    requires bMin <= bMax < TWO63
    ensures r.0 % 4 == 0 && 4 <= r.0 <= 64 && (r.1 == 0 || r.1 == 4)
    ensures Spans(bMin, bMax, r.0, r.1, haveExceptions)
    ensures r.1 == 4 ==> !Spans(bMin, bMax, r.0, 0, haveExceptions)
    ensures haveExceptions ==> r.0 >= 8
  {
    hide Spans, CanEncode, FirstDeltaBits;
    var d := FirstDeltaBits(bMax - bMin);
    Attempts(bMin, bMax, d, haveExceptions);
    if CanEncode(bMin, bMax, d, 0, haveExceptions) then (d, 0)
    else if CanEncode(bMin, bMax, d, 4, haveExceptions) then (d, 4)
    else if CanEncode(bMin, bMax, d + 4, 0, haveExceptions) then (d + 4, 0) else (d + 4, 4)
  }

  // No shorter deltas span the block, with or without overlap.
  lemma DeltaIsLeast(bMin: u64, bMax: u64, haveExceptions: bool, d: nat, overlapBits: nat)
    requires bMin <= bMax < TWO63 && d % 4 == 0 && 4 <= d < ChooseDelta(bMin, bMax, haveExceptions).0
    requires overlapBits == 0 || overlapBits == 4
    ensures !Spans(bMin, bMax, d, overlapBits, haveExceptions)
  {
    hide Spans, CanEncode, FirstDeltaBits;
    var first := FirstDeltaBits(bMax - bMin);
    Attempts(bMin, bMax, first, haveExceptions);
    if d < first {
      TooShort(bMax - bMin, d);
      SpansItsRange(bMin, bMax, d, overlapBits, haveExceptions);
    }
  }

  lemma SpansItsRange(bMin: nat, bMax: nat, d: nat, overlapBits: nat, haveExceptions: bool)
    requires bMin <= bMax && overlapBits <= d
    ensures Spans(bMin, bMax, d, overlapBits, haveExceptions) ==> bMax - bMin < Pow2(d)
  {
    hide ClearLow, Pow2;
  }

  lemma TooShort(range: u64, d: nat)
    requires d % 4 == 0 && 4 <= d < FirstDeltaBits(range)
    ensures range >= Pow2(d)
  {
    hide BitWidth, Pow2;
    BitWidthAtMost(range, d);
  }

  // What the four attempts come to.
  lemma Attempts(bMin: u64, bMax: u64, d: nat, haveExceptions: bool)
    requires bMin <= bMax < TWO63 && d == FirstDeltaBits(bMax - bMin)
    ensures d % 4 == 0 && (d + 4) % 4 == 0 && 4 <= d <= 64
    ensures CanEncode(bMin, bMax, d, 0, haveExceptions) <==> Spans(bMin, bMax, d, 0, haveExceptions)
    ensures CanEncode(bMin, bMax, d, 4, haveExceptions) <==> Spans(bMin, bMax, d, 4, haveExceptions)
    ensures CanEncode(bMin, bMax, d, 0, haveExceptions) || LaterAttempts(bMin, bMax, d, haveExceptions)
    ensures haveExceptions && d < 8 ==> !Spans(bMin, bMax, d, 0, haveExceptions) && !Spans(bMin, bMax, d, 4, haveExceptions)
  {
    hide Spans, CanEncode, ClearLow, Pow2, BitWidth, FirstDeltaNibbles;
    var k := FirstDeltaNibbles(bMax - bMin);
    FirstDeltaBitsAtMost64(bMax - bMin);
    CanEncodeIsSpans(bMin, bMax, d, 0, haveExceptions);
    CanEncodeIsSpans(bMin, bMax, d, 4, haveExceptions);
    if k == 16 {
      FullWidthSpans(bMin, bMax, haveExceptions);
    } else {
      CanEncodeIsSpans(bMin, bMax, d + 4, 0, haveExceptions);
      LastAttemptSpans(bMin, bMax, d, haveExceptions);
    }
    if k == 1 {
      NibbleTooSmall(bMin, bMax, 0, haveExceptions);
      NibbleTooSmall(bMin, bMax, 4, haveExceptions);
    }
  }

  ghost predicate LaterAttempts(bMin: u64, bMax: u64, d: nat, haveExceptions: bool)
  {
    && 4 <= d <= 60
    && (CanEncode(bMin, bMax, d + 4, 0, haveExceptions) <==> Spans(bMin, bMax, d + 4, 0, haveExceptions))
    && Spans(bMin, bMax, d + 4, 4, haveExceptions)
  }

  // With exceptions in play a single nibble has no codes left for values.
  lemma NibbleTooSmall(bMin: nat, bMax: nat, overlapBits: nat, haveExceptions: bool)
    requires overlapBits <= 4
    ensures haveExceptions ==> !Spans(bMin, bMax, 4, overlapBits, haveExceptions)
  {
    Pow2Consts();
  }

  // ----- offset length -----

  function RoundUpToBytes(bits: int): int
  {
    (bits + 7) / 8 * 8
  }

  // The smallest offset, rounded up to the next encodable one.
  function MinOffset(bMax: nat, maxDelta: nat, shift: nat): nat
    requires maxDelta < bMax
  {
    ClearLow(bMax - maxDelta + Pow2(shift) - 1, shift)
  }

  // The number of bytes, in bits, to keep for an offset that is needed.
  function OffsetBits(bMax: u64, maxDelta: u64, deltaBits: nat, overlapBits: nat): (bits: nat)
    requires maxDelta < bMax < TWO63 && overlapBits <= deltaBits <= 64
    requires Pow2(deltaBits) <= maxDelta + 1 + BLOCK_SIZE
    ensures 8 <= bits <= 64 && bits % 8 == 0
  {
    hide Pow2, MinOffset, BitWidth;
    var shift := deltaBits - overlapBits;
    Pow2Mono(shift, deltaBits);
    var bits := RoundUpToBytes(BitWidth(MinOffset(bMax, maxDelta, shift)) - shift);
    OffsetLength(bMax, maxDelta, shift, bits);
    bits
  }

  // The decisions that depend only on the least and greatest value, both
  // relative to the base.
  function BlockParams(bMin: u64, bMax: u64, size: nat, haveExceptions: bool): (c: BlockCode)
    requires bMin <= bMax < TWO63
  {
    var (d, overlapBits) := ChooseDelta(bMin, bMax, haveExceptions);
    var deltaBits := if size == 1 && !haveExceptions then 8 else d;
    EnoughCodes(deltaBits, haveExceptions);
    var maxDelta := BitMask(deltaBits) - Reserved(haveExceptions);
    if bMax > maxDelta then
      var offsetBits := OffsetBits(bMax, maxDelta, deltaBits, overlapBits);
      // A 64-bit offset can only be encoded with an overlap.
      BlockCode(deltaBits, offsetBits, if offsetBits == 64 then 4 else overlapBits)
    else BlockCode(deltaBits, 0, overlapBits)
  }

  lemma EnoughCodes(deltaBits: nat, haveExceptions: bool)
    requires deltaBits <= 64 && (haveExceptions ==> deltaBits >= 8)
    ensures Reserved(haveExceptions) <= BitMask(deltaBits)
  {
    hide Pow2;
    Pow2Consts();
    if haveExceptions {
      Pow2Mono(8, deltaBits);
    }
  }

  // Deltas of 64 bits come without overlap and offset, and ranges from 2^61 on need
  // them.
  lemma WideDelta(bMin: u64, bMax: u64, size: nat, haveExceptions: bool)
    requires bMin <= bMax < TWO63
    ensures var c := BlockParams(bMin, bMax, size, haveExceptions);
            && (c.deltaBits - c.overlapBits == 64 <==> c.deltaBits == 64)
            && (c.deltaBits == 64 ==> c.offsetBits == 0)
    ensures bMax - bMin >= Pow2(61) && (size != 1 || haveExceptions) ==>
              BlockParams(bMin, bMax, size, haveExceptions).deltaBits == 64
  {
    hide Spans, CanEncode, ClearLow, Pow2, BitWidth, FirstDeltaBits, OffsetBits;
    FullWidthSpans(bMin, bMax, haveExceptions);
    Pow2Consts();
    if bMax - bMin >= Pow2(61) {
      BitWidthAtMost(bMax - bMin, 61);
      WideFirst(bMax - bMin);
      Attempts(bMin, bMax, 64, haveExceptions);
      assert ChooseDelta(bMin, bMax, haveExceptions) == (64, 0);
    }
    hide ChooseDelta;
  }

  lemma WideFirst(range: u64)
    requires range < TWO63 && BitWidth(range) > 61
    ensures FirstDeltaBits(range) == 64
  {
    FirstDeltaBitsAtMost64(range);
    hide BitWidth;
  }

  // What the block encoder relies on: the header fields fit, the masked offset
  // is zero exactly when no byte is kept for it and fits the bytes that are,
  // and the deltas of all values between bMin and bMax fit.
  ghost predicate Sound(c: BlockCode, bMin: nat, bMax: nat, haveExceptions: bool)
  {
    && c.deltaBits % 4 == 0 && 4 <= c.deltaBits <= 64
    && (c.overlapBits == 0 || c.overlapBits == 4)
    && c.offsetBits % 8 == 0 && c.offsetBits <= 64
    && c.overlapBits / 4 <= c.offsetBits / 8 <= 7 + c.overlapBits / 4
    && var shift := c.deltaBits - c.overlapBits;
       && (ClearLow(bMin, shift) == 0 <==> c.offsetBits == 0)
       && Shr(bMin, shift) < Pow2(c.offsetBits)
       && bMax - ClearLow(bMin, shift) + Reserved(haveExceptions) < Pow2(c.deltaBits)
  }

  // If no offset byte is kept then the masked offset is indeed zero, and there
  // is no overlap.
  lemma NoOffsetNeeded(bMin: nat, bMax: nat, d: nat, overlapBits: nat, haveExceptions: bool)
    requires bMin <= bMax && overlapBits <= d && bMax + Reserved(haveExceptions) < Pow2(d)
    requires overlapBits != 0 ==> !Spans(bMin, bMax, d, 0, haveExceptions)
    ensures overlapBits == 0 && ClearLow(bMin, d) == 0
  {
    hide Pow2, ClearLow;
    ClearLowIs(bMin, d);
  }

  // An offset that is needed is at least one unit, and at most 64 bits long.
  lemma OffsetLength(bMax: nat, m: nat, s: nat, bits: int)
    requires m < bMax < TWO63 && s <= 64
    requires Pow2(s) <= m + 1 + BLOCK_SIZE
    requires bits == RoundUpToBytes(BitWidth(MinOffset(bMax, m, s)) - s)
    ensures 8 <= bits <= 64 && bits % 8 == 0
    ensures bits >= 0 && Shr(MinOffset(bMax, m, s), s) < Pow2(bits)
    ensures bits == 64 ==> s <= 7
    ensures bits == 64 && Pow2(s) <= m + 1 ==> s <= 6
  {
    hide Pow2, ClearLow, BitWidth, Shr, Low;
    var x := bMax - m + Pow2(s) - 1;
    var g := MinOffset(bMax, m, s);
    ClearLowIs(x, s);
    assert g > 0 && g < TWO64;
    assert Pow2(s) <= m + 1 ==> g < TWO63;
    var w := BitWidth(g);
    Pow2Consts();
    BitWidthAtMost(g, 64);
    BitWidthAtMost(g, 63);
    BitWidthAtMost(g, w);
    MultipleIsWide(g, s);
    BitWidthAtMost(g, s);
    ShrBound(g, s, bits);
    Pow2Mono(w, s + bits);
  }

  lemma MultipleIsWide(g: nat, s: nat)
    requires g > 0 && Low(g, s) == 0
    ensures Pow2(s) <= g
  {
    ClearLowIs(g, s);
  }

  // Without overlap, the smallest offset is at least the block's own offset.
  lemma OffsetFitsPlain(bMin: nat, bMax: nat, m: nat, d: nat, bits: nat)
    requires bMin <= bMax && m < bMax && m < Pow2(d)
    requires Shr(MinOffset(bMax, m, d), d) < Pow2(bits)
    ensures Shr(bMin, d) < Pow2(bits)
  {
    hide Pow2, Shr, ClearLow;
    var x := bMax - m + Pow2(d) - 1;
    ShrMono(bMin, x, d);
    ClearLowIs(x, d);
  }

  // With an overlap the smallest offset may be smaller than the block's own,
  // but only in its last nibble: overlap 0 had failed, so the rest agrees or
  // is larger.
  lemma OffsetFitsOverlapped(bMin: nat, bMax: nat, m: nat, s: nat, bits: nat)
    requires m < bMax && ClearLow(bMin, s + 4) + m < bMax && bits >= 4
    requires Shr(MinOffset(bMax, m, s), s) < Pow2(bits)
    ensures Shr(bMin, s) < Pow2(bits)
  {
    hide Pow2, Shr, ClearLow, Shl, Low;
    var x := bMax - m + Pow2(s) - 1;
    var q := Shr(bMin, s + 4);
    assert Shr(bMin, s) / 16 == q by {
      ShrShr(bMin, s, 4);
      ShlNibble(Shr(bMin, s));
    }
    assert ClearLow(bMin, s + 4) == Shl(16 * q, s) by {
      Cleared(bMin, s + 4);
      ShlNibble(q);
      ShlShl(q, 4, s);
    }
    var g := MinOffset(bMax, m, s);
    ClearLowIs(x, s);
    assert g > Shl(16 * q, s);
    Split(g, s);
    ShlMono(Shr(g, s), 16 * q, s);
    assert Shr(g, s) > 16 * q;
    Pow2Step(bits - 4);
  }

  lemma Cleared(x: nat, n: nat)
    ensures ClearLow(x, n) == Shl(Shr(x, n), n)
  {
  }

  // If the block's own offset were zero the greatest value would be in reach.
  lemma OffsetIsPositive(bMin: nat, bMax: nat, m: nat, s: nat)
    requires m < bMax <= ClearLow(bMin, s) + m
    ensures ClearLow(bMin, s) > 0
  {
  }

  lemma BlockParamsSound(bMin: u64, bMax: u64, size: nat, haveExceptions: bool)
    requires bMin <= bMax < TWO63 && (size == 1 && !haveExceptions ==> bMin == bMax)
    ensures Sound(BlockParams(bMin, bMax, size, haveExceptions), bMin, bMax, haveExceptions)
  {
    hide Pow2, Shr, ClearLow, BitWidth, MinOffset, ChooseDelta, Low;
    var (d, ov) := ChooseDelta(bMin, bMax, haveExceptions);
    var single := size == 1 && !haveExceptions;
    if single {
      SinglePlain(bMin);
    }
    var db := if single then 8 else d;
    EnoughCodes(db, haveExceptions);
    if bMax + Reserved(haveExceptions) < Pow2(db) {
      NoOffsetNeeded(bMin, bMax, db, ov, haveExceptions);
      ClearLowIs(bMin, db);
      ShrBound(bMin, db, 0);
      Pow2Consts();
    } else {
      WithOffset(bMin, bMax, db, ov, haveExceptions);
    }
  }

  // A block of one value starts out with one nibble and no overlap.
  lemma SinglePlain(b: u64)
    requires b < TWO63
    ensures ChooseDelta(b, b, false) == (4, 0)
    ensures Spans(b, b, 8, 0, false)
  {
    hide Pow2, ClearLow;
    assert FirstDeltaBits(0) == 4;
    ClearLowIs(b, 4);
    ClearLowIs(b, 8);
    CanEncodeIsSpans(b, b, 4, 0, false);
  }

  // The branch of BlockParams that keeps bytes for an offset.
  lemma WithOffset(bMin: u64, bMax: u64, db: nat, ov: nat, haveExceptions: bool)
    requires bMin <= bMax < TWO63 && db % 4 == 0 && 4 <= db <= 64 && (ov == 0 || ov == 4)
    requires Reserved(haveExceptions) < Pow2(db) && bMax + Reserved(haveExceptions) >= Pow2(db)
    requires Spans(bMin, bMax, db, ov, haveExceptions)
    requires ov == 4 ==> !Spans(bMin, bMax, db, 0, haveExceptions)
    requires haveExceptions ==> db >= 8
    ensures var m := Pow2(db) - 1 - Reserved(haveExceptions);
            var bits := OffsetBits(bMax, m, db, ov);
            Sound(BlockCode(db, bits, if bits == 64 then 4 else ov), bMin, bMax, haveExceptions)
  {
    hide Pow2, Shr, ClearLow, BitWidth, MinOffset, Low;
    var m := Pow2(db) - 1 - Reserved(haveExceptions);
    var s := db - ov;
    var bits := OffsetBits(bMax, m, db, ov);
    Pow2Mono(s, db);
    OffsetLength(bMax, m, s, bits);
    OffsetIsPositive(bMin, bMax, m, s);
    if ov == 0 {
      OffsetFitsPlain(bMin, bMax, m, db, bits);
    } else {
      OffsetFitsOverlapped(bMin, bMax, m, s, bits);
    }
    if bits == 64 && ov == 0 {
      // Only one-nibble deltas leave room for 64 bits of offset.  The overlap
      // makes the offset equal to bMin.
      assert db == 4;
      ClearNone(bMin);
      ClearLowIs(bMin, 4);
      Pow2Consts();
    }
  }

  lemma ClearNone(x: nat)
    ensures ClearLow(x, 0) == x && Shr(x, 0) == x
  {
  }

  // ----- GetBlockCode -----

  function LeastValue(values: seq<u64>): (m: u64)
    ensures forall k :: 0 <= k < |values| ==> m <= values[k]
    ensures m != EXCEPTION ==> m in values
  {
    if values == [] then EXCEPTION
    else
      var m := LeastValue(values[..|values| - 1]);
      assert m != EXCEPTION ==> m in values[..|values| - 1];
      if values[|values| - 1] < m then values[|values| - 1] else m
  }

  function GreatestValue(values: seq<u64>): (m: u64)
    ensures forall k :: 0 <= k < |values| && values[k] != EXCEPTION ==> values[k] <= m
    ensures m == 0 || (m in values && m != EXCEPTION)
  {
    if values == [] then 0
    else
      var m := GreatestValue(values[..|values| - 1]);
      assert m == 0 || m in values[..|values| - 1];
      var v := values[|values| - 1];
      if v != EXCEPTION && v > m then v else m
  }

  // Exceptions aside, the values lie between the base and 2^63.
  ghost predicate ValidValues(values: seq<u64>, base: u64, haveExceptions: bool)
  {
    forall k :: 0 <= k < |values| ==>
                  if values[k] == EXCEPTION then haveExceptions else base <= values[k] < TWO63
  }

  lemma LeastAndGreatest(values: seq<u64>, base: u64, haveExceptions: bool)
    requires ValidValues(values, base, haveExceptions) && LeastValue(values) != EXCEPTION
    ensures base <= LeastValue(values) <= GreatestValue(values) < TWO63
    ensures |values| == 1 ==> LeastValue(values) == GreatestValue(values)
  {
    hide LeastValue, GreatestValue;
    var k :| 0 <= k < |values| && values[k] == LeastValue(values);
    assert values[k] <= GreatestValue(values);
  }

  function BlockCodeOf(values: seq<u64>, base: u64, haveExceptions: bool): (c: BlockCode)
    requires ValidValues(values, base, haveExceptions)
  {
    if LeastValue(values) == EXCEPTION then BlockCode(4, 0, 0)
    else
      LeastAndGreatest(values, base, haveExceptions);
      BlockParams(LeastValue(values) - base, GreatestValue(values) - base, |values|, haveExceptions)
  }

  method LeastAndGreatestOf(values: seq<u64>) returns (bMin: u64, bMax: u64)
    ensures bMin == LeastValue(values) && bMax == GreatestValue(values)
  {
    bMin, bMax := EXCEPTION, 0;
    for i := 0 to |values|
      invariant bMin == LeastValue(values[..i]) && bMax == GreatestValue(values[..i])
    {
      assert values[..i + 1][..i] == values[..i];
      var v := values[i];
      if v != EXCEPTION {
        bMin := if v < bMin then v else bMin;
        bMax := if v > bMax then v else bMax;
      }
    }
    assert values[..|values|] == values;
  }

  method GetBlockCode(values: seq<u64>, base: u64, haveExceptions: bool) returns (c: BlockCode)
    requires ValidValues(values, base, haveExceptions)
    ensures c == BlockCodeOf(values, base, haveExceptions)
  {
    hide Pow2, OffsetBits, BitMask, LeastValue, GreatestValue, ChooseDelta, ValidValues;
    var bMin, bMax := LeastAndGreatestOf(values);
    if bMin == EXCEPTION {
      return BlockCode(4, 0, 0);
    }
    LeastAndGreatest(values, base, haveExceptions);
    bMin, bMax := bMin - base, bMax - base;
    var (deltaBits, overlapBits) := ChooseDelta(bMin, bMax, haveExceptions);
    if |values| == 1 && !haveExceptions {
      SinglePlain(bMin);
      assert deltaBits == 4 && overlapBits == 0;
      deltaBits := 8;
    }
    EnoughCodes(deltaBits, haveExceptions);
    MaskIs(deltaBits);
    var maxDelta := BitMask(deltaBits) - Reserved(haveExceptions);
    var offsetBits: nat := 0;
    if bMax > maxDelta {
      offsetBits := OffsetBits(bMax, maxDelta, deltaBits, overlapBits);
      if offsetBits == 64 {
        overlapBits := 4;
      }
    }
    c := BlockCode(deltaBits, offsetBits, overlapBits);
  }

  lemma MaskIs(n: nat)
    requires n <= 64
    ensures BitMask(n) == Pow2(n) - 1
  {
  }

  // The parameters chosen for a block are sound for it.
  lemma BlockCodeIsSound(values: seq<u64>, base: u64, haveExceptions: bool)
    requires ValidValues(values, base, haveExceptions) && LeastValue(values) != EXCEPTION
    ensures base <= LeastValue(values)
    ensures Sound(BlockCodeOf(values, base, haveExceptions), LeastValue(values) - base, GreatestValue(values) - base,
                  haveExceptions)
  {
    hide BlockParams, LeastValue, GreatestValue, Sound;
    LeastAndGreatest(values, base, haveExceptions);
    BlockParamsSound(LeastValue(values) - base, GreatestValue(values) - base, |values|, haveExceptions);
  }
}
