/**
 Byte buffers: the Encoder and Decoder objects, little-endian integers of a
 given byte length, and 64-bit varints.
 */
module Coder {
  import opened Words

  // The result of parsing a prefix of a byte string.
  datatype Parsed<+T> = Malformed | Parsed(value: T, rest: seq<byte>)

  // ----- little-endian integers -----

  function LeBytes(value: nat, length: nat): (s: seq<byte>)
    ensures |s| == length
  {
    if length == 0 then [] else [value % 256] + LeBytes(value / 256, length - 1)
  }

  function FromLe(s: seq<byte>): (v: nat)
  {
    if s == [] then 0 else s[0] + 256 * FromLe(s[1..])
  }

  lemma {:induction false} FromLeBytes(value: nat, length: nat)
    requires value < Pow2(8 * length)
    ensures FromLe(LeBytes(value, length)) == value
  {
    if length > 0 {
      Pow2Step(8 * (length - 1));
      FromLeBytes(value / 256, length - 1);
      assert LeBytes(value, length)[1..] == LeBytes(value / 256, length - 1);
    }
  }

  lemma {:induction false} FromLeBound(s: seq<byte>)
    ensures FromLe(s) < Pow2(8 * |s|)
  {
    if s != [] {
      Pow2Step(8 * (|s| - 1));
      FromLeBound(s[1..]);
    }
  }

  lemma {:induction false} FromLeAppend(s: seq<byte>, t: seq<byte>)
    ensures FromLe(s + t) == FromLe(s) + Shl(FromLe(t), 8 * |s|)
  {
    if s == [] {
      assert s + t == t;
    } else {
      FromLeAppend(s[1..], t);
      assert (s + t)[1..] == s[1..] + t;
      ShlShl(FromLe(t), 8 * (|s| - 1), 8);
      ShlNibble(Shl(FromLe(t), 8 * (|s| - 1)));
    }
  }

  // ABSL_INTERNAL_UNALIGNED_LOAD16/32/64 on a little-endian machine.
  function Load(s: seq<byte>, ptr: nat, size: nat): (v: nat)
    requires ptr + size <= |s|
    ensures v < Pow2(8 * size)
  {
    FromLeBound(s[ptr..ptr + size]);
    FromLe(s[ptr..ptr + size])
  }

  // x shifted up by "size" bytes, with the bytes just below "ptr" filled in.
  function LoadBelow(x: nat, s: seq<byte>, ptr: nat, size: nat): (v: nat)
    requires size <= ptr <= |s|
  {
    Shl(x, 8 * size) + Load(s, ptr - size, size)
  }

  // Loads of 4, 2 and 1 bytes, as selected, from the far end "end" downwards.
  function LoadParts(s: seq<byte>, end: nat, has4: bool, has2: bool, has1: bool): (v: nat)
    requires (if has4 then 4 else 0) + (if has2 then 2 else 0) + (if has1 then 1 else 0) <= end <= |s|
  {
    var x4 := if has4 then Load(s, end - 4, 4) else 0;
    var end2 := if has4 then end - 4 else end;
    var x2 := if has2 then LoadBelow(x4, s, end2, 2) else x4;
    var end1 := if has2 then end2 - 2 else end2;
    if has1 then LoadBelow(x2, s, end1, 1) else x2
  }

  // Reads "length" bytes starting at "ptr": one 8-byte load, or the loads that
  // the low three bits of "length" select.
  function GetUintWithLength(s: seq<byte>, ptr: nat, length: nat): (v: nat)
    requires length <= 8 && ptr + length <= |s|
  {
    if length == 8 then Load(s, ptr, 8)
    else LoadParts(s, ptr + length, length / 4 % 2 == 1, length / 2 % 2 == 1, length % 2 == 1)
  }

  // The loads together read exactly the little-endian integer.
  lemma GetUintIsFromLe(s: seq<byte>, ptr: nat, length: nat)
    requires length <= 8 && ptr + length <= |s|
    ensures GetUintWithLength(s, ptr, length) == FromLe(s[ptr..ptr + length])
    ensures GetUintWithLength(s, ptr, length) < Pow2(8 * length) <= TWO64
  {
    hide Pow2, FromLe, LoadParts;
    FromLeBound(s[ptr..ptr + length]);
    Pow2Mono(8 * length, 64);
    Pow2Consts();
    if length < 8 {
      LoadPartsRead(s, ptr, ptr + length, length / 4 % 2 == 1, length / 2 % 2 == 1, length % 2 == 1);
    }
  }

  lemma LoadPartsRead(s: seq<byte>, ptr: nat, end: nat, has4: bool, has2: bool, has1: bool)
    requires ptr + (if has4 then 4 else 0) + (if has2 then 2 else 0) + (if has1 then 1 else 0) == end <= |s|
    ensures LoadParts(s, end, has4, has2, has1) == FromLe(s[ptr..end])
  {
    var end2 := if has4 then end - 4 else end;
    var end1 := if has2 then end2 - 2 else end2;
    assert FromLe(s[end..end]) == 0;
    if has2 {
      LoadBelowIs(s, end2, end, 2);
    }
    if has1 {
      LoadBelowIs(s, end1, end, 1);
    }
  }

  lemma LoadBelowIs(s: seq<byte>, ptr: nat, end: nat, size: nat)
    requires size <= ptr <= end <= |s|
    ensures LoadBelow(FromLe(s[ptr..end]), s, ptr, size) == FromLe(s[ptr - size..end])
  {
    FromLeAppend(s[ptr - size..ptr], s[ptr..end]);
    assert s[ptr - size..ptr] + s[ptr..end] == s[ptr - size..end];
  }

  // ----- 64-bit varints -----

  function VarintBytes(v: nat): (s: seq<byte>)
    ensures |s| > 0
  {
    if v < 128 then [v] else [v % 128 + 128] + VarintBytes(v / 128)
  }

  // The varint at the start of s, whose first byte is byte number k of its
  // encoding.  Byte number 9 holds bit 63 only.
  function ParseVarintFrom(s: seq<byte>, k: nat): (r: Parsed<nat>)
    requires k <= 9
    ensures r.Parsed? ==> |r.rest| < |s|
    decreases 9 - k
  {
    if s == [] then Malformed
    else if k == 9 then if s[0] < 2 then Parsed(s[0], s[1..]) else Malformed
    else if s[0] < 128 then Parsed(s[0], s[1..])
    else
      match ParseVarintFrom(s[1..], k + 1)
      case Malformed => Malformed
      case Parsed(v, rest) => Parsed(s[0] - 128 + 128 * v, rest)
  }

  lemma {:induction false} ParsedVarintFits(s: seq<byte>, k: nat)
    requires k <= 9
    ensures ParseVarintFrom(s, k).Parsed? ==> ParseVarintFrom(s, k).value < Pow2(64 - 7 * k)
    decreases 9 - k
  {
    Pow2Mono(1, 64 - 7 * k);
    if k < 9 {
      Pow2Step(57 - 7 * k);
      if s != [] {
        ParsedVarintFits(s[1..], k + 1);
      }
    }
  }

  function ParseVarint64(s: seq<byte>): (r: Parsed<u64>)
    ensures r.Parsed? ==> |r.rest| < |s|
  {
    Pow2Consts();
    ParsedVarintFits(s, 0);
    match ParseVarintFrom(s, 0)
    case Malformed => Malformed
    case Parsed(v, rest) => Parsed(v, rest)
  }

  lemma {:induction false} VarintRoundTripFrom(v: nat, k: nat, tail: seq<byte>)
    requires k <= 9 && v < Pow2(64 - 7 * k)
    ensures ParseVarintFrom(VarintBytes(v) + tail, k) == Parsed(v, tail)
    decreases 9 - k
  {
    hide Pow2;
    PowerOfOne();
    if v < 128 {
      assert (VarintBytes(v) + tail)[1..] == tail;
    } else {
      LaterByte(v, k);
      VarintRoundTripFrom(v / 128, k + 1, tail);
      assert (VarintBytes(v) + tail)[1..] == VarintBytes(v / 128) + tail;
    }
  }

  lemma PowerOfOne()
    ensures Pow2(1) == 2
  {
  }

  // What the next byte of a varint has to hold.
  lemma LaterByte(v: nat, k: nat)
    requires k <= 9 && 128 <= v < Pow2(64 - 7 * k)
    ensures k < 9 && v / 128 < Pow2(64 - 7 * (k + 1))
  {
    if k == 9 {
      PowerOfOne();
    } else {
      Pow2Step(57 - 7 * k);
    }
  }

  lemma VarintRoundTrip(v: u64, tail: seq<byte>)
    ensures ParseVarint64(VarintBytes(v) + tail) == Parsed(v, tail)
  {
    Pow2Consts();
    VarintRoundTripFrom(v, 0, tail);
  }

  // ----- buffers -----

  class Encoder {
    var buf: seq<byte>

    constructor ()
      ensures buf == []
    {
      buf := [];
    }

    method Put8(x: byte)
      modifies this
      ensures buf == old(buf) + [x]
    {
      buf := buf + [x];
    }

    method PutN(s: seq<byte>)
      modifies this
      ensures buf == old(buf) + s
    {
      buf := buf + s;
    }

    method PutVarint64(v: u64)
      modifies this
      ensures buf == old(buf) + VarintBytes(v)
    {
      buf := buf + VarintBytes(v);
    }

    method RemoveLast(n: nat)
      requires n <= |buf|
      modifies this
      ensures buf == old(buf)[..|old(buf)| - n]
    {
      buf := buf[..|buf| - n];
    }
  }

  // "rest" is the part of the buffer that has not been consumed yet.
  class Decoder {
    var rest: seq<byte>

    constructor (data: seq<byte>)
      ensures rest == data
    {
      rest := data;
    }

    function Avail(): nat
      reads this
    {
      |rest|
    }

    method Get8() returns (x: byte)
      requires rest != []
      modifies this
      ensures x == old(rest)[0] && rest == old(rest)[1..]
    {
      x := rest[0];
      rest := rest[1..];
    }

    method Skip(n: nat)
      requires n <= |rest|
      modifies this
      ensures rest == old(rest)[n..]
    {
      rest := rest[n..];
    }

    // On failure the position is unspecified, as for every reader of malformed
    // input in this project.
    method GetVarint64() returns (ok: bool, v: u64)
      modifies this
      ensures ok <==> ParseVarint64(old(rest)).Parsed?
      ensures ok ==> Parsed(v, rest) == ParseVarint64(old(rest))
    {
      match ParseVarint64(rest)
      case Malformed =>
        ok, v := false, 0;
      case Parsed(value, r) =>
        ok, v := true, value;
        rest := r;
    }

    // DecodeUintWithLength.
    method GetUint(length: nat) returns (ok: bool, v: u64)
      requires length <= 8
      modifies this
      ensures ok <==> length <= |old(rest)|
      ensures ok ==> v == FromLe(old(rest)[..length]) && rest == old(rest)[length..]
    {
      if Avail() < length {
        return false, 0;
      }
      GetUintIsFromLe(rest, 0, length);
      ok, v := true, GetUintWithLength(rest, 0, length);
      Skip(length);
    }
  }

  // Appends the low-order "length" bytes of "value"; the value must fit.
  method EncodeUintWithLength(value: u64, length: nat, encoder: Encoder)
    requires length <= 8 && value < Pow2(8 * length)
    modifies encoder
    ensures encoder.buf == old(encoder.buf) + LeBytes(value, length)
  {
    var x: nat, n: nat := value, length;
    while n > 0
      invariant n <= length && x < Pow2(8 * n) && x < TWO64
      invariant encoder.buf + LeBytes(x, n) == old(encoder.buf) + LeBytes(value, length)
      decreases n
    {
      ghost var before := encoder.buf;
      Pow2Step(8 * (n - 1));
      assert LeBytes(x, n) == [x % 256] + LeBytes(x / 256, n - 1);
      encoder.Put8(x % 256);
      assert encoder.buf + LeBytes(x / 256, n - 1) == before + LeBytes(x, n);
      x := x / 256;
      n := n - 1;
    }
    assert x == 0;
  }
}
