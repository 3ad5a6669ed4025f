/**
 EncodedStringVector: a vector of byte strings stored as the end offset of each
 string followed by all the bytes.
 */
module StringVector {
  import opened Common
  import opened Words
  import opened Coder
  import opened UintVector

  // ----- the format -----

  function Flatten(v: seq<seq<byte>>): (s: seq<byte>)
  {
    if v == [] then [] else Flatten(v[..|v| - 1]) + v[|v| - 1]
  }

  // The offset just past each string.
  function Ends(v: seq<seq<byte>>): (e: seq<nat>)
    ensures |e| == |v|
    ensures forall k :: 0 <= k < |e| ==> e[k] <= |Flatten(v)|
  {
    if v == [] then [] else Ends(v[..|v| - 1]) + [|Flatten(v)|]
  }

  predicate Addressable(v: seq<seq<byte>>)
  {
    |v| < TWO32 && |Flatten(v)| < TWO64
  }

  function EndWords(v: seq<seq<byte>>): (e: seq<u64>)
    requires |Flatten(v)| < TWO64
    ensures e == Ends(v)
  {
    AsWords(Ends(v))
  }

  function StringVectorBytes(v: seq<seq<byte>>): seq<byte>
    requires Addressable(v)
  {
    UintVectorBytes(EndWords(v)) + Flatten(v)
  }

  function StartOf(v: seq<seq<byte>>, k: nat): nat
    requires k < |v|
  {
    if k == 0 then 0 else Ends(v)[k - 1]
  }

  lemma {:induction false} StringInFlat(v: seq<seq<byte>>, k: nat)
    requires k < |v|
    ensures StartOf(v, k) + |v[k]| == Ends(v)[k] <= |Flatten(v)|
    ensures Flatten(v)[StartOf(v, k)..Ends(v)[k]] == v[k]
  {
    var w := v[..|v| - 1];
    if k < |w| {
      StringInFlat(w, k);
      assert StartOf(w, k) == StartOf(v, k) && w[k] == v[k];
      assert Flatten(v)[StartOf(v, k)..Ends(v)[k]] == Flatten(w)[StartOf(v, k)..Ends(v)[k]];
    } else if k > 0 {
      StringInFlat(w, k - 1);
      LastEnd(w);
    }
  }

  lemma LastEnd(v: seq<seq<byte>>)
    ensures v != [] ==> Ends(v)[|v| - 1] == |Flatten(v)|
    ensures v == [] ==> Flatten(v) == []
  {
  }

  // ----- what a reader sees -----

  datatype StringView = StringView(offsets: UintView, data: seq<byte>) {
    ghost predicate Valid()
    {
      offsets.Valid()
    }

    function Start(i: nat): nat
      requires Valid() && i < offsets.size
    {
      if i == 0 then 0 else offsets.At(i - 1)
    }

    // The memory from the start of string i onwards, unbounded.
    function GetStart(i: nat): seq<byte>
      requires Valid() && i < offsets.size
      requires Start(i) <= |data|
    {
      data[Start(i)..]
    }

    function At(i: nat): seq<byte>
      requires Valid() && i < offsets.size
      requires Start(i) <= offsets.At(i) <= |data|
    {
      data[Start(i)..offsets.At(i)]
    }
  }

  function ParseStringVector(s: seq<byte>): (r: Parsed<StringView>)
    ensures r.Parsed? ==> r.value.Valid()
  {
    match ParseUintVector(s)
    case Malformed => Malformed
    case Parsed(offsets, rest) =>
      if offsets.size > 0 then
        var length := offsets.At(offsets.size - 1);
        if |rest| < length then Malformed else Parsed(StringView(offsets, rest), rest[length..])
      else Parsed(StringView(offsets, rest), rest)
  }

  ghost predicate Represents(view: StringView, v: seq<seq<byte>>)
  {
    && view.Valid() && view.offsets.size == |v|
    && forall k :: 0 <= k < |v| ==>
                   && view.Start(k) <= view.offsets.At(k) <= |view.data|
                   && view.At(k) == v[k]
                   && v[k] <= view.GetStart(k)
  }

  lemma StringVectorRoundTrip(v: seq<seq<byte>>, tail: seq<byte>)
    requires Addressable(v)
    ensures var p := ParseStringVector(StringVectorBytes(v) + tail);
            p.Parsed? && p.rest == tail && Represents(p.value, v)
  {
    var flat := Flatten(v);
    AppendAssoc(UintVectorBytes(EndWords(v)), flat, tail);
    UintVectorRoundTrip(EndWords(v), flat + tail);
    LastEnd(v);
    assert (flat + tail)[|flat|..] == tail;
    var view := ParseStringVector(StringVectorBytes(v) + tail).value;
    forall k | 0 <= k < |v|
      ensures view.Start(k) <= view.offsets.At(k) <= |view.data|
      ensures view.At(k) == v[k] && v[k] <= view.GetStart(k)
    {
      StringInFlat(v, k);
      assert view.Start(k) == StartOf(v, k) && view.offsets.At(k) == Ends(v)[k];
      SlicePrefix(flat, tail, StartOf(v, k), Ends(v)[k]);
    }
  }

  lemma SlicePrefix(flat: seq<byte>, tail: seq<byte>, a: nat, b: nat)
    requires a <= b <= |flat|
    ensures (flat + tail)[a..b] == flat[a..b] <= (flat + tail)[a..]
  {
  }

  // ----- StringVectorEncoder -----

  // The strings that a list of start offsets cuts a buffer into.
  function Cut(offsets: seq<nat>, buf: seq<byte>): (v: seq<seq<byte>>)
    requires Increasing(offsets, |buf|)
    ensures |v| == |offsets|
  {
    seq(|offsets|, i requires 0 <= i < |offsets| =>
        buf[offsets[i]..if i + 1 < |offsets| then offsets[i + 1] else |buf|])
  }

  predicate Increasing(offsets: seq<nat>, limit: nat)
  {
    && (forall i :: 0 <= i < |offsets| ==> offsets[i] <= limit)
    && (forall i, j :: 0 <= i < j < |offsets| ==> offsets[i] <= offsets[j])
  }

  lemma CutPrefix(offsets: seq<nat>, buf: seq<byte>, n: nat)
    requires Increasing(offsets, |buf|) && n + 1 == |offsets|
    ensures Increasing(offsets[..n], |buf[..offsets[n]]|)
    ensures Cut(offsets, buf) == Cut(offsets[..n], buf[..offsets[n]]) + [buf[offsets[n]..]]
  {
    var v, w := Cut(offsets, buf), Cut(offsets[..n], buf[..offsets[n]]);
    var whole := w + [buf[offsets[n]..]];
    forall i | 0 <= i < n
      ensures v[i] == whole[i]
    {
      var e := if i + 1 < n then offsets[..n][i + 1] else offsets[n];
      assert e == offsets[i + 1];
      assert buf[..offsets[n]][offsets[i]..e] == buf[offsets[i]..e];
    }
    assert v[n] == whole[n];
  }

  lemma {:induction false} CutIsExact(offsets: seq<nat>, buf: seq<byte>)
    requires Increasing(offsets, |buf|)
    requires if offsets == [] then buf == [] else offsets[0] == 0
    ensures Flatten(Cut(offsets, buf)) == buf
    ensures offsets != [] ==> Ends(Cut(offsets, buf)) == offsets[1..] + [|buf|]
  {
    if offsets != [] {
      var n := |offsets| - 1;
      var v := Cut(offsets, buf);
      var w := Cut(offsets[..n], buf[..offsets[n]]);
      CutPrefix(offsets, buf, n);
      CutIsExact(offsets[..n], buf[..offsets[n]]);
      assert v[..n] == w;
      assert buf == buf[..offsets[n]] + buf[offsets[n]..];
      assert Ends(v) == Ends(w) + [|buf|];
      if n > 0 {
        assert offsets[1..] == offsets[..n][1..] + [offsets[n]];
      }
    }
  }

  class StringVectorEncoder {
    var offsets_: seq<nat>
    const data_: Encoder

    ghost predicate Valid()
      reads this, data_
    {
      && Increasing(offsets_, |data_.buf|)
      && if offsets_ == [] then data_.buf == [] else offsets_[0] == 0
    }

    // The strings added so far.
    ghost function Strings(): seq<seq<byte>>
      requires Valid()
      reads this, data_
    {
      Cut(offsets_, data_.buf)
    }

    constructor ()
      ensures Valid() && Strings() == [] && fresh(data_)
    {
      offsets_ := [];
      data_ := new Encoder();
    }

    // Everything written to the encoder before the next call becomes the new
    // last string.
    method AddViaEncoder() returns (encoder: Encoder)
      requires Valid()
      modifies this
      ensures Valid() && encoder == data_ && Strings() == old(Strings()) + [[]]
    {
      CutAppend(offsets_, data_.buf);
      offsets_ := offsets_ + [|data_.buf|];
      encoder := data_;
    }

    method Add(str: seq<byte>)
      requires Valid()
      modifies this, data_
      ensures Valid() && Strings() == old(Strings()) + [str]
    {
      var encoder := AddViaEncoder();
      WriteExtendsLast(offsets_, data_.buf, str);
      ghost var v := Strings();
      encoder.PutN(str);
      assert [] + str == str && v[..|v| - 1] == old(Strings());
    }

    method Encode(encoder: Encoder)
      requires Valid() && Addressable(Strings())
      requires encoder != data_
      modifies this, encoder
      ensures encoder.buf == old(encoder.buf) + old(StringVectorBytes(Strings()))
      ensures data_.buf == old(data_.buf)
    {
      ghost var v := Strings();
      CutIsExact(offsets_, data_.buf);
      offsets_ := offsets_ + [|data_.buf|];
      assert offsets_[1..] == Ends(v);
      // The first offset is always zero and is not written.
      EncodeUintVector(AsWords(offsets_[1..]), encoder);
      encoder.PutN(data_.buf);
    }
  }

  function AsWords(s: seq<nat>): (r: seq<u64>)
    requires forall k :: 0 <= k < |s| ==> s[k] < TWO64
    ensures r == s
  {
    s
  }

  lemma CutAppend(offsets: seq<nat>, buf: seq<byte>)
    requires Increasing(offsets, |buf|)
    ensures Increasing(offsets + [|buf|], |buf|)
    ensures Cut(offsets + [|buf|], buf) == Cut(offsets, buf) + [[]]
  {
    var more := offsets + [|buf|];
    CutPrefix(more, buf, |offsets|);
    assert more[..|offsets|] == offsets && buf[..|buf|] == buf && buf[|buf|..] == [];
  }

  // Writing to the encoder extends the last string only.
  lemma WriteExtendsLast(offsets: seq<nat>, buf: seq<byte>, s: seq<byte>)
    requires offsets != [] && Increasing(offsets, |buf|)
    ensures Increasing(offsets, |buf + s|)
    ensures var v := Cut(offsets, buf);
            Cut(offsets, buf + s) == v[..|v| - 1] + [v[|v| - 1] + s]
  {
    var v, w := Cut(offsets, buf), Cut(offsets, buf + s);
    assert forall i :: 0 <= i < |v| - 1 ==> w[i] == v[i];
    assert w[|v| - 1] == v[|v| - 1] + s;
  }

  // ----- EncodedStringVector -----

  class EncodedStringVector {
    const offsets_: EncodedUintVector
    var data_: seq<byte>

    constructor ()
      ensures fresh(offsets_)
    {
      offsets_ := new EncodedUintVector();
      data_ := [];
    }

    function View(): StringView
      reads this, offsets_
    {
      StringView(offsets_.View(), data_)
    }

    method Init(decoder: Decoder) returns (ok: bool)
      modifies this, offsets_, decoder
      ensures ok <==> ParseStringVector(old(decoder.rest)).Parsed?
      ensures ok ==> Parsed(View(), decoder.rest) == ParseStringVector(old(decoder.rest)) && View().Valid()
    {
      ok := offsets_.Init(decoder);
      if !ok {
        return;
      }
      data_ := decoder.rest;
      if offsets_.size_ > 0 {
        var length := offsets_.View().At(offsets_.size_ - 1);
        if decoder.Avail() < length {
          return false;
        }
        decoder.Skip(length);
      }
    }
  }
}
