/**
 One block of a compressed point vector: a header byte, the block's offset, the
 packed deltas, and the points that are stored as exceptions.
 */
module PointBlock {
  import opened Common
  import opened Words
  import opened Coder
  import opened BlockCodes
  import opened Nibbles

  // An S2Point as the 24 bytes of its memory image.
  type S2Point = p: seq<byte> | |p| == 24 witness seq(24, i => 0 as byte)

  // ----- the format -----

  // The number of exceptions among the values.
  function Exceptions(values: seq<u64>): (n: nat)
    ensures n <= |values|
  {
    if values == [] then 0
    else Exceptions(values[..|values| - 1]) + if values[|values| - 1] == EXCEPTION then 1 else 0
  }

  // The points stored as exceptions, in order.
  function ExceptionBytes(values: seq<u64>, points: seq<S2Point>): (s: seq<byte>)
    requires |values| == |points|
    ensures |s| == 24 * Exceptions(values)
  {
    if values == [] then []
    else
      var j := |values| - 1;
      ExceptionBytes(values[..j], points[..j]) + if values[j] == EXCEPTION then points[j] else []
  }

  lemma {:induction false} ExceptionSlice(values: seq<u64>, points: seq<S2Point>, j: nat)
    requires |values| == |points| && j < |values| && values[j] == EXCEPTION
    ensures var k := Exceptions(values[..j]);
            24 * k + 24 <= |ExceptionBytes(values, points)| &&
            ExceptionBytes(values, points)[24 * k..24 * k + 24] == points[j]
  {
    var n := |values| - 1;
    var s := ExceptionBytes(values[..n], points[..n]);
    var last: seq<byte> := if values[n] == EXCEPTION then points[n] else [];
    assert ExceptionBytes(values, points) == s + last;
    if j < n {
      assert values[..n][..j] == values[..j];
      ExceptionSlice(values[..n], points[..n], j);
      WindowOfPrefix(s, last, 24 * Exceptions(values[..j]), 24 * Exceptions(values[..j]) + 24);
    } else {
      AppendedWindow(s, last);
    }
  }

  // The offset that is encoded: the least value relative to the base, as far
  // as it can be represented.
  function BlockOffset(values: seq<u64>, base: u64, c: BlockCode): (offset: u64)
    requires LeastValue(values) != EXCEPTION ==> base <= LeastValue(values)
    requires c.overlapBits <= c.deltaBits
  {
    if LeastValue(values) == EXCEPTION then 0
    else ClearLow(LeastValue(values) - base, c.deltaBits - c.overlapBits)
  }

  // What is packed for value j: the index of an exception, or a delta.
  function DeltaOf(values: seq<u64>, j: nat, start: nat, haveExceptions: bool): (d: nat)
    requires j < |values|
    requires values[j] != EXCEPTION ==> start <= values[j]
  {
    if values[j] == EXCEPTION then Exceptions(values[..j])
    else values[j] - start + Reserved(haveExceptions)
  }

  // "start" is base plus offset.
  ghost predicate Startable(values: seq<u64>, start: nat)
  {
    forall j :: 0 <= j < |values| && values[j] != EXCEPTION ==> start <= values[j]
  }

  function DeltasOf(values: seq<u64>, start: nat, haveExceptions: bool): (deltas: seq<nat>)
    requires Startable(values, start)
    ensures |deltas| == |values|
    ensures forall j :: 0 <= j < |values| ==> deltas[j] == DeltaOf(values, j, start, haveExceptions)
  {
    seq(|values|, j requires 0 <= j < |values| => DeltaOf(values, j, start, haveExceptions))
  }

  // The fields of the header: offset bytes less the overlap, overlap, and delta
  // nibbles less one.
  function PackHeader(offset: nat, overlap: nat, delta: nat): (b: byte)
    requires offset <= 7 && overlap <= 1 && delta <= 15
  {
    offset + overlap * 8 + delta * 16
  }

  // The fields of the header are in the ranges that it can represent.
  ghost predicate Encodable(c: BlockCode)
  {
    && c.deltaBits % 4 == 0 && 4 <= c.deltaBits <= 64
    && (c.overlapBits == 0 || c.overlapBits == 4)
    && c.offsetBits % 8 == 0 && c.offsetBits <= 64
    && c.overlapBits / 4 <= c.offsetBits / 8 <= 7 + c.overlapBits / 4
  }

  // Everything about a block that its encoding relies on.
  ghost predicate BlockFits(values: seq<u64>, base: u64, haveExceptions: bool, c: BlockCode)
  {
    && Encodable(c)
    && (LeastValue(values) != EXCEPTION ==> base <= LeastValue(values))
    && var offset := BlockOffset(values, base, c);
       && base + offset < TWO64
       && (offset == 0 <==> c.offsetBits == 0)
       && Shr(offset, c.deltaBits - c.overlapBits) < Pow2(c.offsetBits)
       && Startable(values, base + offset)
       && AllFit(DeltasOf(values, base + offset, haveExceptions), c.deltaBits / 4)
  }

  function BlockBytes(values: seq<u64>, points: seq<S2Point>, base: u64, haveExceptions: bool, c: BlockCode): seq<byte>
    requires |values| == |points| && BlockFits(values, base, haveExceptions, c)
  {
    var offset := BlockOffset(values, base, c);
    HeaderBytes(c)
    + (LeBytes(Shr(offset, c.deltaBits - c.overlapBits), c.offsetBits / 8)
       + (PackDeltas(DeltasOf(values, base + offset, haveExceptions), c.deltaBits / 4)
          + ExceptionBytes(values, points)))
  }

  function HeaderBytes(c: BlockCode): (s: seq<byte>)
    requires Encodable(c)
    ensures |s| == 1
  {
    EncodableParts(c);
    [PackHeader(c.offsetBits / 8 - c.overlapBits / 4, c.overlapBits / 4, c.deltaBits / 4 - 1)]
  }

  lemma EncodableParts(c: BlockCode)
    requires Encodable(c)
    ensures 4 * (c.deltaBits / 4) == c.deltaBits && 8 * (c.offsetBits / 8) == c.offsetBits
    ensures 4 * (c.overlapBits / 4) == c.overlapBits
    ensures 1 <= c.deltaBits / 4 <= 16 && c.offsetBits / 8 <= 8 && c.overlapBits <= c.deltaBits
    ensures c.overlapBits / 4 <= 1 && c.overlapBits / 4 <= c.offsetBits / 8 <= 7 + c.overlapBits / 4
  {
  }

  // ----- the chosen parameters fit the block -----

  lemma {:induction false} NoExceptions(values: seq<u64>, base: u64)
    requires ValidValues(values, base, false)
    ensures Exceptions(values) == 0
    ensures values != [] ==> LeastValue(values) != EXCEPTION
  {
    if values != [] {
      NoExceptions(values[..|values| - 1], base);
      assert values[|values| - 1] != EXCEPTION && LeastValue(values) <= values[|values| - 1];
    }
  }

  lemma DeltaFits(values: seq<u64>, base: u64, haveExceptions: bool, c: BlockCode, j: nat)
    requires ValidValues(values, base, haveExceptions) && j < |values| <= BLOCK_SIZE
    requires LeastValue(values) != EXCEPTION && base <= LeastValue(values)
    requires Sound(c, LeastValue(values) - base, GreatestValue(values) - base, haveExceptions)
    ensures var start := base + ClearLow(LeastValue(values) - base, c.deltaBits - c.overlapBits);
            && (values[j] != EXCEPTION ==> start <= values[j])
            && DeltaOf(values, j, start, haveExceptions) < Pow2(c.deltaBits)
  {
    hide Pow2, ClearLow, Shr, LeastValue, GreatestValue, Exceptions;
    ClearLowIs(LeastValue(values) - base, c.deltaBits - c.overlapBits);
    if values[j] == EXCEPTION {
      Pow2Consts();
      Pow2Mono(4, c.deltaBits);
      assert Exceptions(values[..j]) <= j;
    }
  }

  lemma ChosenCodeFits(values: seq<u64>, base: u64, haveExceptions: bool)
    requires ValidValues(values, base, haveExceptions) && 0 < |values| <= BLOCK_SIZE
    ensures BlockFits(values, base, haveExceptions, BlockCodeOf(values, base, haveExceptions))
  {
    hide Pow2, ClearLow, Shr, LeastValue, GreatestValue, Exceptions, BlockParams;
    var c := BlockCodeOf(values, base, haveExceptions);
    if LeastValue(values) == EXCEPTION {
      AllExceptionsFit(values, base, haveExceptions);
    } else {
      BlockCodeIsSound(values, base, haveExceptions);
      var least := LeastValue(values) - base;
      var shift := c.deltaBits - c.overlapBits;
      ClearLowIs(least, shift);
      assert 4 * (c.deltaBits / 4) == c.deltaBits;
      forall j | 0 <= j < |values|
        ensures values[j] != EXCEPTION ==> base + ClearLow(least, shift) <= values[j]
        ensures DeltaOf(values, j, base + ClearLow(least, shift), haveExceptions) < Pow2(c.deltaBits)
      {
        DeltaFits(values, base, haveExceptions, c, j);
      }
    }
  }

  lemma AllExceptionsFit(values: seq<u64>, base: u64, haveExceptions: bool)
    requires |values| <= BLOCK_SIZE && LeastValue(values) == EXCEPTION
    ensures BlockFits(values, base, haveExceptions, BlockCode(4, 0, 0))
  {
    hide LeastValue, Exceptions, Pow2, Shr, Encodable;
    var c := BlockCode(4, 0, 0);
    assert Encodable(c) by {
      Pow2Consts();
      CodeOfExceptions();
    }
    forall j | 0 <= j < |values|
      ensures values[j] == EXCEPTION && DeltaOf(values, j, base, haveExceptions) < Pow2(4)
    {
      assert LeastValue(values) <= values[j];
      assert Exceptions(values[..j]) <= j;
      Pow2Consts();
    }
    Pow2Consts();
  }

  lemma CodeOfExceptions()
    ensures Encodable(BlockCode(4, 0, 0))
  {
  }

  // ----- what a reader does -----

  datatype BlockHeader = BlockHeader(offsetBytes: nat, overlapNibbles: nat, deltaNibbles: nat)

  function ParseBlockHeader(header: byte): (h: BlockHeader)
    ensures h.offsetBytes <= 8 && h.overlapNibbles <= 1 && 1 <= h.deltaNibbles <= 16
  {
    var overlapNibbles := header / 8 % 2;
    BlockHeader(header % 8 + overlapNibbles, overlapNibbles, header / 16 + 1)
  }

  datatype Entry = Exception(point: S2Point) | Value(offset: nat, delta: nat)

  // The bytes that reading entry j touches.  "ptr" is the memory from the
  // start of the block onwards, and "deltas" that from the packed deltas on.
  ghost predicate Readable(ptr: seq<byte>, j: nat, blockSize: nat, haveExceptions: bool)
  {
    && |ptr| >= 1
    && var h := ParseBlockHeader(ptr[0]);
       && 1 + h.offsetBytes <= |ptr|
       && DeltaReadable(ptr[1 + h.offsetBytes..], j, h.deltaNibbles, blockSize, haveExceptions)
  }

  ghost predicate DeltaReadable(deltas: seq<byte>, j: nat, n: nat, blockSize: nat, haveExceptions: bool)
    requires 1 <= n <= 16
  {
    && j * n / 2 + DeltaBytes(n) <= |deltas|
    && var delta := DeltaAt(deltas, j, n);
       haveExceptions && delta < BLOCK_SIZE ==> ExceptionAt(blockSize, n, delta) + 24 <= |deltas|
  }

  // Where an exception is stored: after all the deltas of the block.
  function ExceptionAt(blockSize: nat, n: nat, index: nat): nat
  {
    (blockSize * n + 1) / 2 + 24 * index
  }

  // The first part of DecodeCellIdsFormat.  For deltas of 16 nibbles without an
  // overlap the code shifts a 64-bit word by 64, which C++ leaves undefined; here
  // the result is zero (see WideShift).
  function DecodeEntry(ptr: seq<byte>, j: nat, blockSize: nat, haveExceptions: bool): (e: Entry)
    requires Readable(ptr, j, blockSize, haveExceptions)
  {
    var h := ParseBlockHeader(ptr[0]);
    var offset := Shl(GetUintWithLength(ptr, 1, h.offsetBytes), 4 * (h.deltaNibbles - h.overlapNibbles)) % TWO64;
    DecodeDelta(ptr[1 + h.offsetBytes..], offset, j, h.deltaNibbles, blockSize, haveExceptions)
  }

  function DecodeDelta(deltas: seq<byte>, offset: nat, j: nat, n: nat, blockSize: nat, haveExceptions: bool): (e: Entry)
    requires 1 <= n <= 16 && DeltaReadable(deltas, j, n, blockSize, haveExceptions)
  {
    hide DeltaAt, DeltaBytes, ExceptionAt;
    var delta := DeltaAt(deltas, j, n);
    if haveExceptions && delta < BLOCK_SIZE then
      var at := ExceptionAt(blockSize, n, delta);
      Exception(deltas[at..at + 24])
    else Value(offset, delta - Reserved(haveExceptions))
  }

  // When the shift is 64: such blocks exist, and the word that is shifted is that
  // of an offset without bytes, zero.
  lemma WideShift(values: seq<u64>, base: u64, haveExceptions: bool)
    requires ValidValues(values, base, haveExceptions)
    ensures var c := BlockCodeOf(values, base, haveExceptions);
            && (c.deltaBits - c.overlapBits == 64 <==> c.deltaBits == 64)
            && (c.deltaBits == 64 ==> c.offsetBits == 0)
    ensures LeastValue(values) != EXCEPTION && GreatestValue(values) - LeastValue(values) >= Pow2(61)
            && (|values| > 1 || haveExceptions) ==>
              BlockCodeOf(values, base, haveExceptions).deltaBits == 64
  {
    hide LeastValue, GreatestValue, BlockParams, Pow2, ValidValues;
    if LeastValue(values) != EXCEPTION {
      LeastAndGreatest(values, base, haveExceptions);
      var bMin, bMax := LeastValue(values) - base, GreatestValue(values) - base;
      WideDelta(bMin, bMax, |values|, haveExceptions);
      assert LeastValue(values) in values;
    }
  }

  // ----- round trip -----

  lemma HeaderRoundTrip(c: BlockCode)
    requires Encodable(c)
    ensures ParseBlockHeader(HeaderBytes(c)[0]) == BlockHeader(c.offsetBits / 8, c.overlapBits / 4, c.deltaBits / 4)
  {
    hide Encodable, PackHeader, ParseBlockHeader;
    EncodableParts(c);
    HeaderFields(c.offsetBits / 8 - c.overlapBits / 4, c.overlapBits / 4, c.deltaBits / 4 - 1);
  }

  lemma HeaderFields(offset: nat, overlap: nat, delta: nat)
    requires offset <= 7 && overlap <= 1 && delta <= 15
    ensures ParseBlockHeader(PackHeader(offset, overlap, delta)) == BlockHeader(offset + overlap, overlap, delta + 1)
  {
    var high := overlap + delta * 2;
    var x := PackHeader(offset, overlap, delta);
    assert x == high * 8 + offset && x / 8 == high && x % 8 == offset by {
      DivideBy8(high, offset);
    }
    assert high % 2 == overlap by {
      DivideBy2(delta, overlap);
    }
    assert x == delta * 16 + (overlap * 8 + offset) && x / 16 == delta by {
      DivideBy16(delta, overlap * 8 + offset);
    }
  }

  lemma DivideBy2(q: nat, r: nat)
    requires r < 2
    ensures (r + q * 2) % 2 == r
  {
  }

  lemma DivideBy8(q: nat, r: nat)
    requires r < 8
    ensures (q * 8 + r) / 8 == q && (q * 8 + r) % 8 == r
  {
  }

  lemma DivideBy16(q: nat, r: nat)
    requires r < 16
    ensures (q * 16 + r) / 16 == q
  {
  }

  // Bits that were masked away are zero again after the shift out and back.
  lemma OffsetRoundTrip(values: seq<u64>, base: u64, c: BlockCode)
    requires c.overlapBits <= c.deltaBits
    requires LeastValue(values) != EXCEPTION ==> base <= LeastValue(values)
    ensures var offset := BlockOffset(values, base, c);
            Shl(Shr(offset, c.deltaBits - c.overlapBits), c.deltaBits - c.overlapBits) == offset
  {
    hide LeastValue, Shl, Shr, Low, ClearLow;
    var shift := c.deltaBits - c.overlapBits;
    var offset := BlockOffset(values, base, c);
    if LeastValue(values) == EXCEPTION {
      Split(0, shift);
    } else {
      ClearLowIs(LeastValue(values) - base, shift);
      Split(offset, shift);
    }
  }

  // The entry that reading position j of the block must give.
  function ExpectedEntry(values: seq<u64>, points: seq<S2Point>, base: u64, haveExceptions: bool, c: BlockCode, j: nat)
    : Entry
    requires |values| == |points| && j < |values| && BlockFits(values, base, haveExceptions, c)
  {
    var offset := BlockOffset(values, base, c);
    if values[j] == EXCEPTION then Exception(points[j])
    else Value(offset, values[j] - base - offset)
  }

  // The memory of a block: header, n bytes of offset, and the rest.
  lemma BlockParts(header: seq<byte>, offset: seq<byte>, rest: seq<byte>)
    requires |header| == 1
    ensures var ptr := header + (offset + rest);
            && ptr[0] == header[0]
            && ptr[1..1 + |offset|] == offset
            && ptr[1 + |offset|..] == rest
  {
  }

  // Reads of a block laid out as header, offset, deltas and whatever follows.
  lemma EntryFromParts(c: BlockCode, o: nat, deltas: seq<nat>, extra: seq<byte>, j: nat, haveExceptions: bool)
    requires Encodable(c) && o < Pow2(c.offsetBits) && AllFit(deltas, c.deltaBits / 4) && j < |deltas|
    requires haveExceptions && deltas[j] < BLOCK_SIZE ==> 24 * deltas[j] + 24 <= |extra|
    ensures var packed := PackDeltas(deltas, c.deltaBits / 4);
            var ptr := HeaderBytes(c) + (LeBytes(o, c.offsetBits / 8) + (packed + extra));
            && Readable(ptr, j, |deltas|, haveExceptions)
            && DecodeEntry(ptr, j, |deltas|, haveExceptions)
               == if haveExceptions && deltas[j] < BLOCK_SIZE then
                    Exception(extra[24 * deltas[j]..24 * deltas[j] + 24])
                  else Value(Shl(o, c.deltaBits - c.overlapBits) % TWO64, deltas[j] - Reserved(haveExceptions))
  {
    hide *;
    EncodableParts(c);
    var n, m, k := c.deltaBits / 4, c.offsetBits / 8, c.overlapBits / 4;
    var packed, offset := PackDeltas(deltas, n), LeBytes(o, m);
    var ptr := HeaderBytes(c) + (offset + (packed + extra));
    BlockParts(HeaderBytes(c), offset, packed + extra);
    HeaderRoundTrip(c);
    FromLeBytes(o, m);
    GetUintIsFromLe(ptr, 1, m);
    var x := Shl(o, 4 * (n - k)) % TWO64;
    DeltaFromParts(deltas, n, extra, x, j, haveExceptions);
    EntryOfPtr(ptr, BlockHeader(m, k, n), o, packed + extra, j, |deltas|, haveExceptions);
  }

  // Reading an entry, given what the memory holds.
  lemma EntryOfPtr(ptr: seq<byte>, h: BlockHeader, o: nat, rest: seq<byte>, j: nat, blockSize: nat,
                   haveExceptions: bool)
    requires |ptr| >= 1 && ParseBlockHeader(ptr[0]) == h
    requires 1 + h.offsetBytes <= |ptr| && ptr[1 + h.offsetBytes..] == rest
    requires GetUintWithLength(ptr, 1, h.offsetBytes) == o
    requires DeltaReadable(rest, j, h.deltaNibbles, blockSize, haveExceptions)
    ensures Readable(ptr, j, blockSize, haveExceptions)
    ensures DecodeEntry(ptr, j, blockSize, haveExceptions)
            == DecodeDelta(rest, Shl(o, 4 * (h.deltaNibbles - h.overlapNibbles)) % TWO64, j, h.deltaNibbles, blockSize,
                           haveExceptions)
  {
    hide DeltaReadable, DecodeDelta, Shl, GetUintWithLength;
  }

  lemma DeltaFromParts(deltas: seq<nat>, n: nat, extra: seq<byte>, offset: nat, j: nat, haveExceptions: bool)
    requires 1 <= n <= 16 && AllFit(deltas, n) && j < |deltas|
    requires haveExceptions && deltas[j] < BLOCK_SIZE ==> 24 * deltas[j] + 24 <= |extra|
    ensures var packed := PackDeltas(deltas, n);
            && DeltaReadable(packed + extra, j, n, |deltas|, haveExceptions)
            && DecodeDelta(packed + extra, offset, j, n, |deltas|, haveExceptions)
               == if haveExceptions && deltas[j] < BLOCK_SIZE then
                    Exception(extra[24 * deltas[j]..24 * deltas[j] + 24])
                  else Value(offset, deltas[j] - Reserved(haveExceptions))
  {
    hide PackDeltas, DeltaAt, AllFit, DeltaBytes;
    DeltaRoundTrip(deltas, n, j, extra);
    if haveExceptions && deltas[j] < BLOCK_SIZE {
      PackedLength(deltas, n);
      WindowAfter(PackDeltas(deltas, n), extra, 24 * deltas[j], 24 * deltas[j] + 24);
    }
  }

  lemma WindowAfter(s: seq<byte>, t: seq<byte>, a: nat, b: nat)
    requires a <= b <= |t|
    ensures (s + t)[|s| + a..|s| + b] == t[a..b]
  {
  }

  // Every entry of a block decodes to its value or exception, whatever follows
  // the block in memory.
  lemma BlockRoundTrip(values: seq<u64>, points: seq<S2Point>, base: u64, haveExceptions: bool, c: BlockCode,
                       tail: seq<byte>, j: nat)
    requires |values| == |points| <= BLOCK_SIZE && j < |values|
    requires ValidValues(values, base, haveExceptions) && BlockFits(values, base, haveExceptions, c)
    ensures var ptr := BlockBytes(values, points, base, haveExceptions, c) + tail;
            && Readable(ptr, j, |values|, haveExceptions)
            && DecodeEntry(ptr, j, |values|, haveExceptions)
               == ExpectedEntry(values, points, base, haveExceptions, c, j)
  {
    hide Pow2, Shl, Shr, LeBytes, PackDeltas, AllFit, Encodable, LeastValue, HeaderBytes, DecodeEntry, Readable,
         Exceptions, ExceptionBytes, BlockOffset;
    EncodableParts(c);
    var offset := BlockOffset(values, base, c);
    var start := base + offset;
    var deltas := DeltasOf(values, start, haveExceptions);
    var shift, n := c.deltaBits - c.overlapBits, c.deltaBits / 4;
    var extra := ExceptionBytes(values, points);
    var o, packed := LeBytes(Shr(offset, shift), c.offsetBits / 8), PackDeltas(deltas, n);
    AppendAssoc(HeaderBytes(c), o + (packed + extra), tail);
    AppendAssoc(o, packed + extra, tail);
    AppendAssoc(packed, extra, tail);
    OffsetRoundTrip(values, base, c);
    if values[j] == EXCEPTION {
      ExceptionSlice(values, points, j);
      assert deltas[j] == Exceptions(values[..j]) <= j;
      WindowOfPrefix(extra, tail, 24 * deltas[j], 24 * deltas[j] + 24);
    }
    EntryFromParts(c, Shr(offset, shift), deltas, extra + tail, j, haveExceptions);
  }

  // ----- encoding a block -----

  method FindOffset(values: seq<u64>, base: u64) returns (offset: u64, numExceptions: nat)
    requires LeastValue(values) != EXCEPTION ==> base <= LeastValue(values)
    ensures numExceptions == Exceptions(values)
    ensures offset == if LeastValue(values) == EXCEPTION then 0 else LeastValue(values) - base
  {
    offset := TWO64 - 1;
    numExceptions := 0;
    for j := 0 to |values|
      invariant numExceptions == Exceptions(values[..j])
      invariant LeastValue(values[..j]) == EXCEPTION <==> numExceptions == j
      invariant LeastValue(values[..j]) != EXCEPTION ==> base <= LeastValue(values[..j])
      invariant offset == if numExceptions == j then TWO64 - 1 else LeastValue(values[..j]) - base
    {
      assert values[..j + 1][..j] == values[..j];
      LeastOfPrefix(values, j);
      if values[j] == EXCEPTION {
        numExceptions := numExceptions + 1;
      } else {
        var v := values[j] - base;
        offset := if offset < v then offset else v;
      }
    }
    assert values[..|values|] == values;
    if numExceptions == |values| {
      offset := 0;
    }
  }

  lemma LeastOfPrefix(values: seq<u64>, j: nat)
    requires j < |values|
    ensures LeastValue(values) <= values[j]
  {
  }

  // The packing step of one delta, as the encoder performs it on its buffer.
  method PutDelta(delta: u64, j: nat, n: nat, ghost before: seq<nat>, ghost prefix: seq<byte>, block: Encoder)
    requires 1 <= n <= 16 && delta < Pow2(4 * n) && |before| == j && AllFit(before, n)
    requires block.buf == prefix + PackDeltas(before, n)
    modifies block
    ensures block.buf == prefix + PackDeltas(before + [delta], n)
  {
    hide PackDeltas, LeBytes, Pow2, DeltaBytes;
    ghost var packed := PackDeltas(before, n);
    assert (before + [delta])[..j] == before;
    PackedNext(before + [delta], n);
    NextParity(j, n);
    var d: nat := delta;
    if OddLength(j, n) {
      // Combine this delta with the high-order half of the last byte.
      var lastByte := block.buf[|block.buf| - 1];
      assert lastByte == packed[|packed| - 1];
      block.RemoveLast(1);
      assert block.buf == prefix + packed[..|packed| - 1];
      d := 16 * delta + lastByte % 16;
      AppendAssoc(prefix, packed[..|packed| - 1], LeBytes(d, DeltaBytes(n)));
    } else {
      AppendAssoc(prefix, packed, LeBytes(d, DeltaBytes(n)));
    }
    CombinedFits(delta, d - 16 * delta, n, OddLength(j, n), d);
    EncodeUintWithLength(d, DeltaBytes(n), block);
  }

  // With an odd number of nibbles there is room for one more.
  lemma CombinedFits(delta: nat, r: int, n: nat, combined: bool, d: nat)
    requires n <= 16 && delta < Pow2(4 * n)
    requires if combined then n % 2 == 1 && 0 <= r < 16 && d == 16 * delta + r else d == delta
    ensures DeltaBytes(n) <= 8 && d < Pow2(8 * DeltaBytes(n)) <= TWO64
  {
    Pow2Consts();
    Pow2Step(4 * n);
    Pow2Mono(4 * n, 8 * DeltaBytes(n));
    Pow2Mono(8 * DeltaBytes(n), 64);
    if n % 2 == 1 {
      assert 8 * DeltaBytes(n) == 4 * n + 4;
    }
  }

  method EncodeBlock(values: seq<u64>, points: seq<S2Point>, base: u64, haveExceptions: bool, block: Encoder)
    requires 0 < |values| == |points| <= BLOCK_SIZE && ValidValues(values, base, haveExceptions)
    modifies block
    ensures BlockFits(values, base, haveExceptions, BlockCodeOf(values, base, haveExceptions))
    ensures block.buf == old(block.buf) + BlockBytes(values, points, base, haveExceptions,
                                                     BlockCodeOf(values, base, haveExceptions))
  {
    hide Pow2, Shl, Shr, ClearLow, LeBytes, PackDeltas, AllFit, LeastValue, GreatestValue, ExceptionBytes, Exceptions,
         BlockCodeOf, ValidValues;
    ChosenCodeFits(values, base, haveExceptions);
    var code := GetBlockCode(values, base, haveExceptions);
    EncodableParts(code);
    var offsetBytes, deltaNibbles, overlapNibbles := code.offsetBits / 8, code.deltaBits / 4, code.overlapBits / 4;
    block.Put8(PackHeader(offsetBytes - overlapNibbles, overlapNibbles, deltaNibbles - 1));
    assert block.buf == old(block.buf) + HeaderBytes(code);

    var offset, numExceptions := FindOffset(values, base);
    var offsetShift := code.deltaBits - code.overlapBits;
    ClearNothing(offsetShift);
    offset := ClearLow(offset, offsetShift);
    assert offset == BlockOffset(values, base, code);
    if offset > 0 {
      assert Pow2(8 * offsetBytes) == Pow2(code.offsetBits);
      EncodeUintWithLength(Shr(offset, offsetShift), offsetBytes, block);
    }
    ghost var o := LeBytes(Shr(offset, offsetShift), offsetBytes);
    assert block.buf == (old(block.buf) + HeaderBytes(code)) + o;

    EncodeDeltas(values, points, base + offset, haveExceptions, deltaNibbles, numExceptions, block);
    FlattenParts(old(block.buf), HeaderBytes(code), o,
                 PackDeltas(DeltasOf(values, base + offset, haveExceptions), deltaNibbles),
                 ExceptionBytes(values, points));
  }

  lemma ClearNothing(n: nat)
    ensures ClearLow(0, n) == 0
  {
  }

  lemma FlattenParts(a: seq<byte>, b: seq<byte>, c: seq<byte>, d: seq<byte>, e: seq<byte>)
    ensures (((a + b) + c) + d) + e == a + (b + (c + (d + e)))
  {
  }

  // The deltas, and then the points that turned out to be exceptions.
  method EncodeDeltas(values: seq<u64>, points: seq<S2Point>, start: u64, haveExceptions: bool, n: nat,
                      numExceptions: nat, block: Encoder)
    requires |values| == |points| && 1 <= n <= 16 && numExceptions == Exceptions(values)
    requires Startable(values, start) && AllFit(DeltasOf(values, start, haveExceptions), n)
    modifies block
    ensures block.buf == (old(block.buf) + PackDeltas(DeltasOf(values, start, haveExceptions), n))
                         + ExceptionBytes(values, points)
  {
    hide Pow2, PackDeltas, ExceptionBytes, Exceptions;
    ghost var deltas := DeltasOf(values, start, haveExceptions);
    ghost var prefix := block.buf;
    var exceptions: seq<byte>, count: nat := [], 0;
    NothingYet(values, points, deltas, n);
    assert prefix + [] == prefix;
    for j := 0 to |values|
      invariant block.buf == prefix + PackDeltas(deltas[..j], n)
      invariant exceptions == ExceptionBytes(values[..j], points[..j]) && count == Exceptions(values[..j])
    {
      OneMore(values, points, j);
      var delta: nat;
      if values[j] == EXCEPTION {
        delta := count;
        exceptions := exceptions + points[j];
        count := count + 1;
      } else {
        delta := values[j] - start;
        if haveExceptions {
          delta := delta + BLOCK_SIZE;
        }
      }
      assert delta == deltas[j] && deltas[j] < Pow2(4 * n);
      assert deltas[..j] + [delta] == deltas[..j + 1];
      Pow2Consts();
      Pow2Mono(4 * n, 64);
      PutDelta(delta, j, n, deltas[..j], prefix, block);
    }
    assert deltas[..|values|] == deltas && values[..|values|] == values && points[..|values|] == points;
    if numExceptions > 0 {
      block.PutN(exceptions);
    } else {
      assert exceptions == [];
      AppendNothing(block.buf);
    }
  }

  lemma NothingYet(values: seq<u64>, points: seq<S2Point>, deltas: seq<nat>, n: nat)
    requires |values| == |points| && 1 <= n
    ensures PackDeltas(deltas[..0], n) == [] && ExceptionBytes(values[..0], points[..0]) == []
    ensures Exceptions(values[..0]) == 0
  {
  }

  lemma OneMore(values: seq<u64>, points: seq<S2Point>, j: nat)
    requires |values| == |points| && j < |values|
    ensures ExceptionBytes(values[..j + 1], points[..j + 1])
            == ExceptionBytes(values[..j], points[..j]) + if values[j] == EXCEPTION then points[j] else []
    ensures Exceptions(values[..j + 1]) == Exceptions(values[..j]) + if values[j] == EXCEPTION then 1 else 0
  {
    assert values[..j + 1][..j] == values[..j] && points[..j + 1][..j] == points[..j];
  }
}
