/**
 Arrays of deltas packed one to sixteen nibbles each, readable in any order.
 */
module Nibbles {
  import opened Common
  import opened Words
  import opened Coder

  type nibble = x: nat | x < 16

  // ----- bytes as nibbles -----

  function ToNibbles(s: seq<byte>): (ns: seq<nibble>)
    ensures |ns| == 2 * |s|
  {
    if s == [] then [] else [s[0] % 16, s[0] / 16] + ToNibbles(s[1..])
  }

  // The n low-order nibbles of x, least significant first.
  function NibblesOf(x: nat, n: nat): (ns: seq<nibble>)
    ensures |ns| == n
  {
    if n == 0 then [] else [x % 16] + NibblesOf(x / 16, n - 1)
  }

  function FromNibbles(ns: seq<nibble>): nat
  {
    if ns == [] then 0 else ns[0] + 16 * FromNibbles(ns[1..])
  }

  lemma {:induction false} FromLeIsFromNibbles(s: seq<byte>)
    ensures FromLe(s) == FromNibbles(ToNibbles(s))
  {
    if s != [] {
      var ns := ToNibbles(s);
      FromLeIsFromNibbles(s[1..]);
      assert ns[1..][1..] == ToNibbles(s[1..]);
      assert FromNibbles(ns[1..]) == s[0] / 16 + 16 * FromNibbles(ns[1..][1..]);
    }
  }

  lemma {:induction false} LeBytesNibbles(x: nat, n: nat)
    ensures ToNibbles(LeBytes(x, n)) == NibblesOf(x, 2 * n)
  {
    if n > 0 {
      LeBytesNibbles(x / 256, n - 1);
      assert NibblesOf(x, 2 * n) == [x % 16] + NibblesOf(x / 16, 2 * n - 1);
      assert NibblesOf(x / 16, 2 * n - 1) == [x / 16 % 16] + NibblesOf(x / 256, 2 * n - 2);
      hide NibblesOf;
      var low: byte := x % 256;
      var rest := LeBytes(x / 256, n - 1);
      assert LeBytes(x, n) == [low] + rest;
      hide LeBytes;
      FirstByte(low, rest);
      assert low % 16 == x % 16 && low / 16 == x / 16 % 16;
    }
  }

  lemma FirstByte(b: byte, rest: seq<byte>)
    ensures ToNibbles([b] + rest) == [b % 16, b / 16] + ToNibbles(rest)
  {
    assert ([b] + rest)[1..] == rest;
  }

  lemma {:induction false} ToNibblesAppend(s: seq<byte>, t: seq<byte>)
    ensures ToNibbles(s + t) == ToNibbles(s) + ToNibbles(t)
  {
    if s == [] {
      assert s + t == t;
    } else {
      ToNibblesAppend(s[1..], t);
      assert (s + t)[1..] == s[1..] + t;
    }
  }

  lemma ToNibblesSlice(s: seq<byte>, a: nat, b: nat)
    requires a <= b <= |s|
    ensures ToNibbles(s[a..b]) == ToNibbles(s)[2 * a..2 * b]
  {
    hide *;
    var x, y, z := s[..a], s[a..b], s[b..];
    ToNibblesAppend(x, y);
    ToNibblesAppend(x + y, z);
    ThreeParts(s, a, b);
    Middle(ToNibbles(x), ToNibbles(y), ToNibbles(z));
  }

  lemma ThreeParts<T>(s: seq<T>, a: nat, b: nat)
    requires a <= b <= |s|
    ensures (s[..a] + s[a..b]) + s[b..] == s
  {
  }

  lemma Middle<T>(x: seq<T>, y: seq<T>, z: seq<T>)
    ensures ((x + y) + z)[|x|..|x| + |y|] == y
  {
  }

  lemma {:induction false} FromNibblesOf(x: nat, n: nat)
    requires x < Pow2(4 * n)
    ensures FromNibbles(NibblesOf(x, n)) == x
  {
    if n > 0 {
      Pow2Step(4 * (n - 1));
      FromNibblesOf(x / 16, n - 1);
      assert NibblesOf(x, n)[1..] == NibblesOf(x / 16, n - 1);
    }
  }

  // A value of n nibbles has zeros beyond.
  lemma {:induction false} NibblesPadded(x: nat, n: nat)
    requires x < Pow2(4 * n)
    ensures NibblesOf(x, n + 1) == NibblesOf(x, n) + [0]
  {
    if n > 0 {
      Pow2Step(4 * (n - 1));
      NibblesPadded(x / 16, n - 1);
    }
  }

  // Masking keeps the first n nibbles.
  lemma {:induction false} LowOfNibbles(ns: seq<nibble>, n: nat)
    requires n <= |ns|
    ensures Low(FromNibbles(ns), 4 * n) == FromNibbles(ns[..n])
  {
    if n > 0 {
      LowOfNibbles(ns[1..], n - 1);
      LowNibble(ns[0], FromNibbles(ns[1..]), 4 * (n - 1));
      assert ns[1..][..n - 1] == ns[..n][1..];
    }
  }

  lemma LowNibble(d: nibble, x: nat, n: nat)
    ensures Low(d + 16 * x, n + 4) == d + 16 * Low(x, n)
  {
    hide Low;
    LowUnfold(d + 16 * x, n + 3);
    LowUnfold(d / 2 + 8 * x, n + 2);
    LowUnfold(d / 4 + 4 * x, n + 1);
    LowUnfold(d / 8 + 2 * x, n);
  }

  lemma LowUnfold(x: nat, n: nat)
    ensures Low(x, n + 1) == x % 2 + 2 * Low(x / 2, n)
  {
  }

  lemma DropNibble(ns: seq<nibble>)
    requires ns != []
    ensures Shr(FromNibbles(ns), 4) == FromNibbles(ns[1..])
  {
    ShlNibble(FromNibbles(ns));
  }

  // ----- packing -----

  // The bytes that one delta of n nibbles takes when written on its own.
  function DeltaBytes(n: nat): nat
  {
    (n + 1) / 2
  }

  // Do k deltas of n nibbles end in the middle of a byte?
  predicate OddLength(k: nat, n: nat)
  {
    k % 2 == 1 && n % 2 == 1
  }

  lemma NextParity(k: nat, n: nat)
    ensures OddLength(k, n) ==> !OddLength(k + 1, n) && n == 2 * DeltaBytes(n) - 1
    ensures !OddLength(k, n) ==> (OddLength(k + 1, n) <==> n == 2 * DeltaBytes(n) - 1)
    ensures n == 2 * DeltaBytes(n) - 1 || n == 2 * DeltaBytes(n)
  {
  }

  // Encodes the deltas one after the other.  With an odd number of nibbles,
  // every second delta shares its first byte with the last nibble of the
  // previous one.
  function PackDeltas(deltas: seq<nat>, n: nat): (s: seq<byte>)
    requires 1 <= n
    ensures deltas != [] ==> s != []
  {
    if deltas == [] then []
    else
      var j := |deltas| - 1;
      var s := PackDeltas(deltas[..j], n);
      if OddLength(j, n) then s[..|s| - 1] + LeBytes(16 * deltas[j] + s[|s| - 1] % 16, DeltaBytes(n))
      else s + LeBytes(deltas[j], DeltaBytes(n))
  }

  // The nibbles of all deltas in order.
  function Stream(deltas: seq<nat>, n: nat): (ns: seq<nibble>)
    ensures |ns| == |deltas| * n
  {
    if deltas == [] then []
    else
      StreamLength(|deltas|, n);
      Stream(deltas[..|deltas| - 1], n) + NibblesOf(deltas[|deltas| - 1], n)
  }

  lemma StreamLength(k: nat, n: nat)
    requires k > 0
    ensures (k - 1) * n + n == k * n
  {
  }

  ghost predicate AllFit(deltas: seq<nat>, n: nat)
  {
    forall k :: 0 <= k < |deltas| ==> deltas[k] < Pow2(4 * n)
  }

  function Pad(odd: bool): (ns: seq<nibble>)
  {
    if odd then [0] else []
  }

  // The packed bytes are the stream, completed to whole bytes.
  lemma {:induction false} PackedIsStream(deltas: seq<nat>, n: nat)
    requires 1 <= n && AllFit(deltas, n)
    ensures ToNibbles(PackDeltas(deltas, n)) == Stream(deltas, n) + Pad(OddLength(|deltas|, n))
    decreases |deltas|, 1
  {
    if deltas == [] {
    } else {
      PackedLast(deltas, n, |deltas| - 1);
    }
  }

  lemma {:induction false} PackedLast(deltas: seq<nat>, n: nat, j: nat)
    requires 1 <= n && AllFit(deltas, n) && |deltas| == j + 1
    ensures ToNibbles(PackDeltas(deltas, n)) == Stream(deltas, n) + Pad(OddLength(j + 1, n))
    decreases |deltas|, 0
  {
    hide ToNibbles, NibblesOf, LeBytes, Pow2, Stream, PackDeltas, OddLength, DeltaBytes, Pad;
    var before := deltas[..j];
    assert |before| == j;
    PackedIsStream(before, n);
    PackedNext(deltas, n);
    PackedStep(PackDeltas(before, n), Stream(before, n), deltas[j], j, n);
  }

  lemma PackedStep(s: seq<byte>, stream: seq<nibble>, d: nat, j: nat, n: nat)
    requires 1 <= n && d < Pow2(4 * n)
    requires ToNibbles(s) == stream + Pad(OddLength(j, n))
    ensures OddLength(j, n) ==> s != []
    ensures ToNibbles(if OddLength(j, n) then s[..|s| - 1] + LeBytes(16 * d + s[|s| - 1] % 16, DeltaBytes(n))
                      else s + LeBytes(d, DeltaBytes(n)))
            == (stream + NibblesOf(d, n)) + Pad(OddLength(j + 1, n))
  {
    hide ToNibbles, NibblesOf, LeBytes, Pow2, OddLength, DeltaBytes;
    NextParity(j, n);
    AppendNothing(stream);
    AppendNothing(stream + NibblesOf(d, n));
    if OddLength(j, n) {
      LastByteHalf(s, stream);
      SharedByteStep(s[..|s| - 1], s[|s| - 1] % 16, stream, d, DeltaBytes(n));
    } else {
      PackStep(s, stream, d, n);
    }
  }

  // One step of packing and of the stream.
  lemma PackedNext(deltas: seq<nat>, n: nat)
    requires 1 <= n && deltas != []
    ensures var j := |deltas| - 1;
            var before, d := deltas[..j], deltas[j];
            var s := PackDeltas(before, n);
            && Stream(deltas, n) == Stream(before, n) + NibblesOf(d, n)
            && (OddLength(j, n) ==> s != [])
            && PackDeltas(deltas, n)
               == if OddLength(j, n) then s[..|s| - 1] + LeBytes(16 * d + s[|s| - 1] % 16, DeltaBytes(n))
                  else s + LeBytes(d, DeltaBytes(n))
  {
    hide LeBytes, NibblesOf, DeltaBytes;
  }

  lemma PackStep(s: seq<byte>, stream: seq<nibble>, d: nat, n: nat)
    requires 1 <= n && d < Pow2(4 * n)
    requires ToNibbles(s) == stream
    ensures ToNibbles(s + LeBytes(d, DeltaBytes(n)))
            == (stream + NibblesOf(d, n)) + Pad(n == 2 * DeltaBytes(n) - 1)
  {
    hide ToNibbles, NibblesOf, LeBytes, Pow2, DeltaBytes;
    var m := DeltaBytes(n);
    NextParity(0, n);
    LeBytesNibbles(d, m);
    ToNibblesAppend(s, LeBytes(d, m));
    if n == 2 * m - 1 {
      NibblesPadded(d, n);
      AppendAssoc(stream, NibblesOf(d, n), [0]);
    } else {
      AppendNothing(stream + NibblesOf(d, n));
    }
  }

  // The last byte so far, whose upper half is padding, is written again.
  // "init" is everything before that byte and "last" its lower half.
  lemma SharedByteStep(init: seq<byte>, last: nibble, stream: seq<nibble>, d: nat, m: nat)
    requires m > 0 && ToNibbles(init) + [last] == stream
    ensures ToNibbles(init + LeBytes(16 * d + last, m)) == stream + NibblesOf(d, 2 * m - 1)
  {
    hide *;
    var x := 16 * d + last;
    var before, after := ToNibbles(init), NibblesOf(d, 2 * m - 1);
    ToNibblesAppend(init, LeBytes(x, m));
    LeBytesNibbles(x, m);
    NibblesShift(d, last, 2 * m - 1);
    AppendAssoc(before, [last], after);
  }

  lemma LastByteHalf(s: seq<byte>, stream: seq<nibble>)
    requires ToNibbles(s) == stream + [0]
    ensures s != [] && ToNibbles(s[..|s| - 1]) + [s[|s| - 1] % 16] == stream
  {
    hide ToNibbles;
    assert |ToNibbles(s)| == 2 * |s|;
    LastByteNibbles(s);
    ReplaceLast(stream, ToNibbles(s[..|s| - 1]), s[|s| - 1] % 16);
  }

  lemma NibblesShift(d: nat, r: nibble, n: nat)
    ensures NibblesOf(16 * d + r, n + 1) == [r] + NibblesOf(d, n)
  {
    var x := 16 * d + r;
    assert x / 16 == d && x % 16 == r;
    assert NibblesOf(x, n + 1) == [x % 16] + NibblesOf(x / 16, n);
  }

  lemma ReplaceLast(stream: seq<nibble>, before: seq<nibble>, last: nibble)
    requires before + [last, 0] == stream + [0]
    ensures before + [last] == stream
  {
    assert (before + [last, 0])[..|before| + 1] == before + [last];
    assert (stream + [0])[..|stream|] == stream;
  }

  lemma LastByteNibbles(s: seq<byte>)
    requires s != [] && ToNibbles(s)[|ToNibbles(s)| - 1] == 0
    ensures ToNibbles(s) == ToNibbles(s[..|s| - 1]) + [s[|s| - 1] % 16, 0]
  {
    var k := |s| - 1;
    assert ToNibbles([s[k]]) == [s[k] % 16, s[k] / 16];
    hide ToNibbles;
    ToNibblesAppend(s[..k], [s[k]]);
    assert s[..k] + [s[k]] == s;
  }

  lemma {:induction false} PackedLength(deltas: seq<nat>, n: nat)
    requires 1 <= n && AllFit(deltas, n)
    ensures 2 * |PackDeltas(deltas, n)| == |deltas| * n + if OddLength(|deltas|, n) then 1 else 0
    ensures |PackDeltas(deltas, n)| == (|deltas| * n + 1) / 2
  {
    hide Stream, ToNibbles, PackDeltas;
    PackedIsStream(deltas, n);
    OddProduct(|deltas|, n);
  }

  lemma {:induction false} OddProduct(k: nat, n: nat)
    ensures k * n % 2 == if OddLength(k, n) then 1 else 0
  {
    if k > 0 {
      OddProduct(k - 1, n);
      StreamLength(k, n);
      OddSum((k - 1) * n, n);
    }
  }

  lemma OddSum(a: nat, b: nat)
    ensures (a + b) % 2 == (a % 2 + b % 2) % 2
  {
  }

  lemma {:induction false} StreamSlice(deltas: seq<nat>, n: nat, i: nat)
    requires i < |deltas|
    ensures i * n + n <= |deltas| * n
    ensures Stream(deltas, n)[i * n..i * n + n] == NibblesOf(deltas[i], n)
  {
    var j := |deltas| - 1;
    StreamLength(|deltas|, n);
    var stream, last := Stream(deltas[..j], n), NibblesOf(deltas[j], n);
    assert Stream(deltas, n) == stream + last;
    hide Stream, NibblesOf;
    if i < j {
      StreamSlice(deltas[..j], n, i);
      WindowOfPrefix(stream, last, i * n, i * n + n);
    } else {
      AppendedWindow(stream, last);
    }
  }

  lemma AppendedWindow<T>(s: seq<T>, t: seq<T>)
    ensures (s + t)[|s|..|s| + |t|] == t
  {
  }

  // ----- random access -----

  // The read of delta i of n nibbles, as DecodeCellIdsFormat does it.
  function DeltaAt(s: seq<byte>, i: nat, n: nat): nat
    requires 1 <= n <= 16 && i * n / 2 + DeltaBytes(n) <= |s|
  {
    var x := GetUintWithLength(s, i * n / 2, DeltaBytes(n));
    var x := if i * n % 2 == 1 then Shr(x, 4) else x;
    Low(x, 4 * n)
  }

  // Every read stays inside the packed bytes.
  lemma ReadInside(deltas: seq<nat>, i: nat, n: nat)
    requires 1 <= n <= 16 && AllFit(deltas, n) && i < |deltas|
    ensures i * n / 2 + DeltaBytes(n) <= |PackDeltas(deltas, n)|
  {
    hide PackDeltas, Stream;
    StreamSlice(deltas, n, i);
    PackedLength(deltas, n);
    OddProduct(i, n);
    OddProduct(i + 1, n);
    OddProduct(|deltas|, n);
  }

  // Position i decodes to the i-th packed delta, whatever follows the bytes.
  lemma DeltaRoundTrip(deltas: seq<nat>, n: nat, i: nat, tail: seq<byte>)
    requires 1 <= n <= 16 && AllFit(deltas, n) && i < |deltas|
    ensures i * n / 2 + DeltaBytes(n) <= |PackDeltas(deltas, n)|
    ensures DeltaAt(PackDeltas(deltas, n) + tail, i, n) == deltas[i]
  {
    hide PackDeltas, Stream, ToNibbles, DeltaAt;
    var packed := PackDeltas(deltas, n);
    ReadInside(deltas, i, n);
    WindowNibbles(deltas, n, i);
    var p, m := i * n / 2, DeltaBytes(n);
    WindowOfPrefix(packed, tail, p, p + m);
    ReadWindow(packed + tail, i, n, packed[p..p + m], deltas[i]);
  }

  lemma WindowOfPrefix<T>(s: seq<T>, tail: seq<T>, a: nat, b: nat)
    requires a <= b <= |s|
    ensures (s + tail)[a..b] == s[a..b]
  {
  }

  // The bytes read hold the wanted nibbles first, or after one other nibble.
  lemma WindowNibbles(deltas: seq<nat>, n: nat, i: nat)
    requires 1 <= n <= 16 && AllFit(deltas, n) && i < |deltas|
    requires i * n / 2 + DeltaBytes(n) <= |PackDeltas(deltas, n)|
    ensures var ns := ToNibbles(PackDeltas(deltas, n)[i * n / 2..i * n / 2 + DeltaBytes(n)]);
            var skip := i * n % 2;
            skip + n <= |ns| && ns[skip..skip + n] == NibblesOf(deltas[i], n)
  {
    hide PackDeltas, Stream, ToNibbles, NibblesOf, Pad, DeltaBytes, OddLength;
    SkipFits(i, n);
    PackedIsStream(deltas, n);
    StreamSlice(deltas, n, i);
    var p, skip := i * n / 2, i * n % 2;
    assert i * n == 2 * p + skip;
    var packed := PackDeltas(deltas, n);
    ToNibblesSlice(packed, p, p + DeltaBytes(n));
    WindowOf(ToNibbles(packed), Stream(deltas, n), 2 * p, skip, n, 2 * (p + DeltaBytes(n)));
  }

  lemma SkipFits(i: nat, n: nat)
    ensures i * n % 2 + n <= 2 * DeltaBytes(n)
  {
    OddProduct(i, n);
  }

  lemma WindowOf<T>(ns: seq<T>, stream: seq<T>, lo: nat, skip: nat, n: nat, hi: nat)
    requires stream <= ns && lo + skip + n <= |stream| && lo + skip + n <= hi <= |ns|
    ensures ns[lo..hi][skip..skip + n] == stream[lo + skip..lo + skip + n]
  {
    var w, u := ns[lo..hi][skip..skip + n], stream[lo + skip..lo + skip + n];
    forall k | 0 <= k < n
      ensures w[k] == u[k]
    {
      assert ns[lo + skip + k] == stream[lo + skip + k];
    }
  }

  lemma ReadWindow(s: seq<byte>, i: nat, n: nat, w: seq<byte>, d: nat)
    requires 1 <= n <= 16 && i * n / 2 + DeltaBytes(n) <= |s| && d < Pow2(4 * n)
    requires w == s[i * n / 2..i * n / 2 + DeltaBytes(n)]
    requires var skip := i * n % 2;
             skip + n <= |ToNibbles(w)| && ToNibbles(w)[skip..skip + n] == NibblesOf(d, n)
    ensures DeltaAt(s, i, n) == d
  {
    hide ToNibbles, NibblesOf, FromNibbles, Shr, Low, Pow2, GetUintWithLength;
    var ns := ToNibbles(w);
    GetUintIsFromLe(s, i * n / 2, DeltaBytes(n));
    FromLeIsFromNibbles(w);
    FromNibblesOf(d, n);
    if i * n % 2 == 1 {
      DropNibble(ns);
      LowOfNibbles(ns[1..], n);
      assert ns[1..][..n] == ns[1..1 + n];
    } else {
      LowOfNibbles(ns, n);
      assert ns[..n] == ns[0..0 + n];
    }
  }
}
