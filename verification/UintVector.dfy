/**
 EncodedUintVector<uint64>: a vector of integers stored with the same number
 of bytes each, read in place.
 */
module UintVector {
  import opened Common
  import opened Words
  import opened Coder

  // ----- the format -----

  // The union of the bits of v, and of the bit that forces a length >= 1.
  function OrAll(v: seq<u64>): (r: nat)
  {
    if v == [] then 1 else Or(OrAll(v[..|v| - 1]), v[|v| - 1])
  }

  lemma {:induction false} OrAllCovers(v: seq<u64>, k: nat)
    requires k < |v|
    ensures BitWidth(v[k]) <= BitWidth(OrAll(v))
  {
    var w := v[..|v| - 1];
    OrWidth(OrAll(w), v[|v| - 1]);
    if k < |w| {
      OrAllCovers(w, k);
    }
  }

  lemma {:induction false} OrAllBound(v: seq<u64>)
    ensures 1 <= OrAll(v) < TWO64
  {
    Pow2Consts();
    if v != [] {
      var w := v[..|v| - 1];
      OrAllBound(w);
      OrWidth(OrAll(w), v[|v| - 1]);
      BitWidthAtMost(OrAll(w), 64);
      BitWidthAtMost(v[|v| - 1], 64);
      BitWidthAtMost(OrAll(v), 64);
    }
  }

  // Bytes per element: just enough for the largest.
  function ElementLength(v: seq<u64>): (len: nat)
    ensures 1 <= len <= 8
  {
    OrAllBound(v);
    Pow2Consts();
    BitWidthAtMost(OrAll(v), 64);
    BitWidthAtMost(OrAll(v), 0);
    (BitWidth(OrAll(v)) - 1) / 8 + 1
  }

  function PackUints(v: seq<u64>, len: nat): (s: seq<byte>)
    ensures |s| == |v| * len
  {
    if v == [] then [] else PackUints(v[..|v| - 1], len) + LeBytes(v[|v| - 1], len)
  }

  function VectorBytes(v: seq<u64>, len: nat): (s: seq<byte>)
    requires |v| < TWO32 && 1 <= len <= 8
    ensures s != []
  {
    VarintBytes(|v| * 8 + len - 1) + PackUints(v, len)
  }

  function UintVectorBytes(v: seq<u64>): (s: seq<byte>)
    requires |v| < TWO32
    ensures s != []
  {
    VectorBytes(v, ElementLength(v))
  }

  lemma ElementFits(v: seq<u64>, k: nat)
    requires k < |v|
    ensures v[k] < Pow2(8 * ElementLength(v))
  {
    OrAllCovers(v, k);
    BitWidthAtMost(v[k], 8 * ElementLength(v));
  }

  // No shorter length could hold every element.
  lemma ElementLengthIsLeast(v: seq<u64>, len: nat)
    requires 1 <= len < ElementLength(v)
    ensures exists k :: 0 <= k < |v| && v[k] >= Pow2(8 * len)
  {
    if forall k :: 0 <= k < |v| ==> v[k] < Pow2(8 * len) {
      OrAllFits(v, 8 * len);
      assert false;
    }
  }

  lemma {:induction false} OrAllFits(v: seq<u64>, bits: nat)
    requires bits > 0 && forall k :: 0 <= k < |v| ==> v[k] < Pow2(bits)
    ensures BitWidth(OrAll(v)) <= bits
  {
    if v == [] {
      assert BitWidth(1) == 1;
    } else {
      var w := v[..|v| - 1];
      OrAllFits(w, bits);
      OrWidth(OrAll(w), v[|v| - 1]);
      BitWidthAtMost(v[|v| - 1], bits);
    }
  }

  lemma {:induction false} PackedAt(v: seq<u64>, len: nat, k: nat)
    requires k < |v|
    ensures (k + 1) * len <= |v| * len
    ensures PackUints(v, len)[k * len..(k + 1) * len] == LeBytes(v[k], len)
  {
    var w := v[..|v| - 1];
    MulOrder(k + 1, |v|, len);
    assert (|w| + 1) * len == |w| * len + len;
    if k < |w| {
      PackedAt(w, len, k);
      assert PackUints(v, len)[k * len..(k + 1) * len] == PackUints(w, len)[k * len..(k + 1) * len];
    }
  }

  lemma MulOrder(a: nat, b: nat, m: nat)
    requires a <= b
    ensures a * m <= b * m
  {
    assert b * m == a * m + (b - a) * m;
  }

  // ----- what a reader sees -----

  // The fields set by Init: the memory from data_ onwards, size_ and len_.
  datatype UintView = UintView(data: seq<byte>, size: nat, len: nat) {
    ghost predicate Valid()
    {
      1 <= len <= 8 && size * len <= |data|
    }

    // operator[]
    function At(i: nat): (x: u64)
      requires Valid() && i < size
    {
      ElementInside(i);
      GetUintIsFromLe(data, i * len, len);
      GetUintWithLength(data, i * len, len)
    }

    lemma ElementInside(i: nat)
      requires Valid() && i < size
      ensures i * len + len <= size * len
    {
      MulOrder(i + 1, size, len);
      assert (i + 1) * len == i * len + len;
    }
  }

  function ParseUintVector(s: seq<byte>): (r: Parsed<UintView>)
    ensures r.Parsed? ==> r.value.Valid() && |r.rest| <= |s|
  {
    match ParseVarint64(s)
    case Malformed => Malformed
    case Parsed(sizeLen, rest) =>
      var size := sizeLen / 8 % TWO32;  // size_ is a uint32
      var len := sizeLen % 8 + 1;
      if size > (TWO64 - 1) / 8 then Malformed
      else if |rest| < size * len then Malformed
      else Parsed(UintView(rest, size, len), rest[size * len..])
  }

  ghost predicate Represents(view: UintView, v: seq<u64>)
  {
    view.Valid() && view.size == |v| && forall k :: 0 <= k < |v| ==> view.At(k) == v[k]
  }

  lemma HeaderSplits(size: nat, len: nat)
    requires size < TWO32 && 1 <= len <= 8
    ensures size * 8 + len - 1 < TWO64
    ensures (size * 8 + len - 1) / 8 % TWO32 == size && (size * 8 + len - 1) % 8 + 1 == len
  {
  }

  lemma ParsedHeader(packed: seq<byte>, size: nat, len: nat, tail: seq<byte>)
    requires size < TWO32 && 1 <= len <= 8 && |packed| == size * len
    ensures ParseUintVector(VarintBytes(size * 8 + len - 1) + (packed + tail))
            == Parsed(UintView(packed + tail, size, len), tail)
  {
    hide VarintBytes, ParseVarint64;
    HeaderSplits(size, len);
    VarintRoundTrip(size * 8 + len - 1, packed + tail);
    assert (packed + tail)[|packed|..] == tail;
  }

  lemma ParsedUintVector(v: seq<u64>, len: nat, tail: seq<byte>)
    requires |v| < TWO32 && 1 <= len <= 8
    ensures ParseUintVector(VectorBytes(v, len) + tail) == Parsed(UintView(PackUints(v, len) + tail, |v|, len), tail)
  {
    hide PackUints, VarintBytes, ParseUintVector;
    var header, packed := VarintBytes(|v| * 8 + len - 1), PackUints(v, len);
    ParsedHeader(packed, |v|, len, tail);
    AppendAssoc(header, packed, tail);
  }

  lemma UintVectorRoundTrip(v: seq<u64>, tail: seq<byte>)
    requires |v| < TWO32
    ensures var p := ParseUintVector(UintVectorBytes(v) + tail);
            p.Parsed? && p.rest == tail && Represents(p.value, v)
  {
    var len := ElementLength(v);
    ParsedUintVector(v, len, tail);
    var view := UintView(PackUints(v, len) + tail, |v|, len);
    forall k | 0 <= k < |v|
      ensures view.At(k) == v[k]
    {
      ViewedElement(v, len, tail, k);
    }
  }

  lemma ViewedElement(v: seq<u64>, len: nat, tail: seq<byte>, k: nat)
    requires k < |v| && len == ElementLength(v)
    ensures UintView(PackUints(v, len) + tail, |v|, len).At(k) == v[k]
  {
    hide PackUints, ElementLength, GetUintWithLength, FromLe, LeBytes;
    var packed := PackUints(v, len);
    var view := UintView(packed + tail, |v|, len);
    view.ElementInside(k);
    GetUintIsFromLe(view.data, k * len, len);
    PackedAt(v, len, k);
    assert k * len + len == (k + 1) * len;
    assert view.data[k * len..k * len + len] == packed[k * len..k * len + len];
    ElementFits(v, k);
    FromLeBytes(v[k], len);
  }

  // ----- EncodeUintVector -----

  lemma PrefixSteps(v: seq<u64>, i: nat, len: nat)
    requires i < |v|
    ensures OrAll(v[..i + 1]) == Or(OrAll(v[..i]), v[i])
    ensures PackUints(v[..i + 1], len) == PackUints(v[..i], len) + LeBytes(v[i], len)
  {
    assert v[..i + 1][..i] == v[..i];
  }

  method EncodeUintVector(v: seq<u64>, encoder: Encoder)
    requires |v| < TWO32
    modifies encoder
    ensures encoder.buf == old(encoder.buf) + UintVectorBytes(v)
  {
    var oneBits: nat := 1;
    for i := 0 to |v|
      invariant oneBits == OrAll(v[..i]) && encoder.buf == old(encoder.buf)
    {
      PrefixSteps(v, i, 1);
      oneBits := Or(oneBits, v[i]);
    }
    assert v[..|v|] == v;
    var len := (BitWidth(oneBits) - 1) / 8 + 1;
    assert len == ElementLength(v);
    encoder.PutVarint64(|v| * 8 + len - 1);
    ghost var header := encoder.buf;
    for i := 0 to |v|
      invariant encoder.buf == header + PackUints(v[..i], len)
    {
      PrefixSteps(v, i, len);
      ElementFits(v, i);
      EncodeUintWithLength(v[i], len, encoder);
      AppendAssoc(header, PackUints(v[..i], len), LeBytes(v[i], len));
    }
    AppendAssoc(old(encoder.buf), VarintBytes(|v| * 8 + len - 1), PackUints(v, len));
    assert v[..|v|] == v;
  }

  // ----- EncodedUintVector -----

  class EncodedUintVector {
    var data_: seq<byte>
    var size_: nat
    var len_: nat

    constructor ()
      ensures Valid()
    {
      data_, size_, len_ := [], 0, 1;
    }

    function View(): UintView
      reads this
    {
      UintView(data_, size_, len_)
    }

    ghost predicate Valid()
      reads this
    {
      View().Valid()
    }

    method Init(decoder: Decoder) returns (ok: bool)
      modifies this, decoder
      ensures ok <==> ParseUintVector(old(decoder.rest)).Parsed?
      ensures ok ==> Parsed(View(), decoder.rest) == ParseUintVector(old(decoder.rest)) && Valid()
    {
      var sizeLen: u64;
      ok, sizeLen := decoder.GetVarint64();
      if !ok {
        return false;
      }
      size_ := sizeLen / 8 % TWO32;
      len_ := sizeLen % 8 + 1;
      if size_ > (TWO64 - 1) / 8 {
        return false;
      }
      var bytes := size_ * len_;
      if decoder.Avail() < bytes {
        return false;
      }
      data_ := decoder.rest;
      decoder.Skip(bytes);
    }

    // The index of the first element that is >= target.
    method LowerBound(target: nat) returns (lo: nat)
      requires Valid()
      requires forall i, j :: 0 <= i < j < size_ ==> View().At(i) <= View().At(j)
      ensures lo <= size_
      ensures forall i :: 0 <= i < lo ==> View().At(i) < target
      ensures forall i :: lo <= i < size_ ==> target <= View().At(i)
    {
      lo := 0;
      var hi := size_;
      while lo < hi
        invariant lo <= hi <= size_
        invariant forall i :: 0 <= i < lo ==> View().At(i) < target
        invariant forall i :: hi <= i < size_ ==> target <= View().At(i)
      {
        var mid := (lo + hi) / 2;
        View().ElementInside(mid);
        var value := GetUintWithLength(data_, mid * len_, len_);
        assert value == View().At(mid);
        if value < target {
          lo := mid + 1;
        } else {
          hi := mid;
        }
      }
    }

    // Writes the vector back.  This reproduces the canonical bytes.
    method Encode(encoder: Encoder)
      requires Valid() && size_ < TWO32
      modifies encoder
      ensures encoder.buf == old(encoder.buf) + VarintBytes(size_ * 8 + len_ - 1) + data_[..size_ * len_]
    {
      encoder.PutVarint64(size_ * 8 + len_ - 1);
      encoder.PutN(data_[..size_ * len_]);
    }
  }

  // Re-encoding a decoded vector gives the original bytes.
  lemma ReencodeIsIdentity(v: seq<u64>, tail: seq<byte>)
    requires |v| < TWO32
    ensures var p := ParseUintVector(UintVectorBytes(v) + tail);
            p.Parsed? && p.value.Valid() &&
            VarintBytes(p.value.size * 8 + p.value.len - 1) + p.value.data[..p.value.size * p.value.len]
            == UintVectorBytes(v)
  {
    var len := ElementLength(v);
    ParsedUintVector(v, len, tail);
    assert (PackUints(v, len) + tail)[..|v| * len] == PackUints(v, len);
  }
}
