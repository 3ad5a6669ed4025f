/**
 Unsigned machine words as bounded natural numbers.

 Every quantity of the codecs that the C++ code keeps in a uint64 is a `u64`
 here, so a sum that could wrap around has to be proved not to, or has to be
 reduced modulo TWO64 by hand.

 Shifts, masks and bitwise operators work one bit at a time, which keeps every
 proof about them linear.
 */
module Words {

  const TWO63: nat := 0x8000_0000_0000_0000
  const TWO64: nat := 0x1_0000_0000_0000_0000
  const TWO32: nat := 0x1_0000_0000

  type byte = x: nat | x < 256
  type u64 = x: nat | x < 0x1_0000_0000_0000_0000

  // ----- shifts and masks -----

  function Pow2(n: nat): (r: nat)
    ensures r >= 1
  {
    if n == 0 then 1 else 2 * Pow2(n - 1)
  }

  // x << n, without reduction to a word
  function Shl(x: nat, n: nat): (r: nat)
    ensures r >= x
    ensures x == 0 ==> r == 0
  {
    if n == 0 then x else 2 * Shl(x, n - 1)
  }

  // x >> n
  function Shr(x: nat, n: nat): (r: nat)
    ensures r <= x
  {
    if n == 0 then x else Shr(x / 2, n - 1)
  }

  // x & BitMask(n)
  function Low(x: nat, n: nat): (r: nat)
    ensures r <= x
  {
    if n == 0 then 0 else x % 2 + 2 * Low(x / 2, n - 1)
  }

  // x & ~BitMask(n)
  function ClearLow(x: nat, n: nat): (r: nat)
    ensures r <= x
  {
    Split(x, n);
    Shl(Shr(x, n), n)
  }

  // A mask with n low-order 1 bits, for 0 <= n <= 64.
  function BitMask(n: nat): (r: u64)
    requires n <= 64
  {
    Pow2Mono(n, 64);
    Pow2Consts();
    Pow2(n) - 1
  }

  // x >> n is odd.
  predicate Bit(x: nat, n: nat)
  {
    Shr(x, n) % 2 == 1
  }

  lemma {:induction false} Pow2Mono(a: nat, b: nat)
    requires a <= b
    ensures Pow2(a) <= Pow2(b)
    ensures a < b ==> 2 * Pow2(a) <= Pow2(b)
  {
    if a < b {
      Pow2Mono(a, b - 1);
    }
  }

  lemma {:induction false} Pow2Shl(a: nat, n: nat)
    ensures Shl(Pow2(a), n) == Pow2(a + n)
  {
    if n > 0 {
      Pow2Shl(a, n - 1);
    }
  }

  lemma Pow2Consts()
    ensures Pow2(0) == 1 && Pow2(1) == 2 && Pow2(3) == 8 && Pow2(4) == 16 && Pow2(8) == 256
    ensures Pow2(32) == TWO32 && Pow2(63) == TWO63 && Pow2(64) == TWO64
    ensures Pow2(56) == 0x100_0000_0000_0000
  {
    assert Pow2(16) == 0x1_0000;
    Pow2Shl(16, 16);
    assert Pow2(24) == 0x100_0000;
    assert Pow2(32) == TWO32;
    assert Pow2(40) == 0x100_0000_0000;
    assert Pow2(48) == 0x1_0000_0000_0000;
    assert Pow2(56) == 0x100_0000_0000_0000;
  }

  lemma {:induction false} ShlAdd(a: nat, b: nat, n: nat)
    ensures Shl(a + b, n) == Shl(a, n) + Shl(b, n)
  {
    if n > 0 {
      ShlAdd(a, b, n - 1);
    }
  }

  lemma {:induction false} ShlMono(a: nat, b: nat, n: nat)
    ensures a <= b <==> Shl(a, n) <= Shl(b, n)
    ensures a < b <==> Shl(a, n) + Pow2(n) <= Shl(b, n)
  {
    if n > 0 {
      ShlMono(a, b, n - 1);
    }
  }

  lemma {:induction false} ShlShl(a: nat, m: nat, n: nat)
    ensures Shl(Shl(a, m), n) == Shl(a, m + n)
  {
    if n > 0 {
      ShlShl(a, m, n - 1);
    }
  }

  lemma {:induction false} ShrShr(a: nat, m: nat, n: nat)
    ensures Shr(Shr(a, m), n) == Shr(a, m + n)
  {
    if m > 0 {
      ShrShr(a / 2, m - 1, n);
    }
  }

  // Shifts by a nibble and by a byte.
  lemma ShlNibble(x: nat)
    ensures Shl(x, 4) == 16 * x && Shl(x, 8) == 256 * x && Shl(x, 7) == 128 * x
    ensures Shr(x, 4) == x / 16 && Shr(x, 8) == x / 256
  {
    assert Shl(x, 1) == 2 * x;
    assert Shl(x, 2) == 4 * x;
    assert Shl(x, 3) == 8 * x;
    assert Shl(x, 4) == 16 * x;
    assert Shl(x, 5) == 32 * x;
    assert Shl(x, 6) == 64 * x;
    assert Shl(x, 7) == 128 * x;
    assert Shl(x, 8) == 256 * x;
    ShrFour(x);
    ShrShr(x, 4, 4);
    ShrFour(x / 16);
  }

  lemma ShrFour(x: nat)
    ensures Shr(x, 4) == x / 16
  {
    assert Shr(x / 8, 1) == x / 16;
    assert Shr(x / 4, 2) == x / 16;
    assert Shr(x / 2, 3) == x / 16;
  }

  lemma Pow2Step(n: nat)
    ensures Pow2(n + 4) == 16 * Pow2(n) && Pow2(n + 8) == 256 * Pow2(n) && Pow2(n + 7) == 128 * Pow2(n)
  {
    Pow2Shl(n, 4);
    Pow2Shl(n, 7);
    Pow2Shl(n, 8);
    ShlNibble(Pow2(n));
  }

  // A word is its high part and its low part.
  lemma {:induction false} Split(x: nat, n: nat)
    ensures x == Shl(Shr(x, n), n) + Low(x, n)
    ensures Low(x, n) < Pow2(n)
  {
    if n > 0 {
      Split(x / 2, n - 1);
    }
  }

  lemma {:induction false} Join(q: nat, r: nat, n: nat)
    requires r < Pow2(n)
    ensures Shr(Shl(q, n) + r, n) == q
    ensures Low(Shl(q, n) + r, n) == r
  {
    if n > 0 {
      Join(q, r / 2, n - 1);
      assert (Shl(q, n) + r) / 2 == Shl(q, n - 1) + r / 2;
    }
  }

  lemma {:induction false} ShrMono(a: nat, b: nat, n: nat)
    requires a <= b
    ensures Shr(a, n) <= Shr(b, n)
  {
    if n > 0 {
      ShrMono(a / 2, b / 2, n - 1);
    }
  }

  lemma {:induction false} ShrBound(x: nat, n: nat, k: nat)
    ensures Shr(x, n) < Pow2(k) <==> x < Pow2(n + k)
  {
    if n > 0 {
      ShrBound(x / 2, n - 1, k);
    }
  }

  lemma ClearLowIs(x: nat, n: nat)
    ensures ClearLow(x, n) + Low(x, n) == x < ClearLow(x, n) + Pow2(n)
    ensures Shr(ClearLow(x, n), n) == Shr(x, n)
    ensures Low(ClearLow(x, n), n) == 0
    ensures x < Pow2(n) <==> ClearLow(x, n) == 0
  {
    hide Low;
    Split(x, n);
    Join(Shr(x, n), 0, n);
    ShrBound(x, n, 0);
  }

  // The low bits of a sum whose first term has none.
  lemma LowOfSum(a: nat, b: nat, n: nat)
    requires Low(a, n) == 0
    ensures Low(a + b, n) == Low(b, n)
    ensures Shr(a + b, n) == Shr(a, n) + Shr(b, n)
  {
    Split(a, n);
    Split(b, n);
    ShlAdd(Shr(a, n), Shr(b, n), n);
    Join(Shr(a, n) + Shr(b, n), Low(b, n), n);
  }

  lemma LowOfZero(n: nat)
    ensures Low(0, n) == 0
  {
  }

  // Divisibility by a power of two passes to smaller powers.
  lemma {:induction false} LowDown(x: nat, n: nat, k: nat)
    requires Low(x, n) == 0 && k <= n
    ensures Low(x, k) == 0
  {
    if k > 0 {
      LowDown(x / 2, n - 1, k - 1);
    }
  }

  // The top bit of the low part.
  lemma {:induction false} LowNext(x: nat, n: nat)
    ensures Low(x, n + 1) == Low(x, n) + if Bit(x, n) then Pow2(n) else 0
  {
    if n > 0 {
      LowNext(x / 2, n - 1);
    }
  }

  // ----- bit width, lowest set bit -----

  // The number of bits needed to represent x (absl::bit_width).
  function BitWidth(x: nat): (w: nat)
  {
    if x == 0 then 0 else 1 + BitWidth(x / 2)
  }

  lemma {:induction false} BitWidthAtMost(x: nat, n: nat)
    ensures BitWidth(x) <= n <==> x < Pow2(n)
  {
    if x > 0 && n > 0 {
      BitWidthAtMost(x / 2, n - 1);
    }
  }

  // The position of the lowest set bit (Bits::FindLSBSetNonZero64).
  function LowestBit(x: nat): (k: nat)
    requires x > 0
  {
    if x % 2 == 1 then 0 else 1 + LowestBit(x / 2)
  }

  lemma {:induction false} LowestBitIs(x: nat, n: nat)
    requires x > 0
    ensures n <= LowestBit(x) <==> Low(x, n) == 0
    ensures Bit(x, LowestBit(x))
  {
    if x % 2 == 0 {
      LowestBitIs(x / 2, if n == 0 then 0 else n - 1);
    }
  }

  // ----- bitwise or, and, xor -----

  function Or(a: nat, b: nat): (r: nat)
  {
    if a == 0 && b == 0 then 0
    else (if a % 2 == 1 || b % 2 == 1 then 1 else 0) + 2 * Or(a / 2, b / 2)
  }

  function And(a: nat, b: nat): (r: nat)
  {
    if a == 0 && b == 0 then 0
    else (if a % 2 == 1 && b % 2 == 1 then 1 else 0) + 2 * And(a / 2, b / 2)
  }

  function Xor(a: nat, b: nat): (r: nat)
  {
    if a == 0 && b == 0 then 0
    else (a + b) % 2 + 2 * Xor(a / 2, b / 2)
  }

  lemma {:induction false} OrWidth(a: nat, b: nat)
    ensures BitWidth(Or(a, b)) == if BitWidth(a) < BitWidth(b) then BitWidth(b) else BitWidth(a)
    ensures Or(a, b) >= a && Or(a, b) >= b
  {
    if a == 0 && b == 0 {
    } else {
      OrWidth(a / 2, b / 2);
      assert Or(a, b) / 2 == Or(a / 2, b / 2);
    }
  }

  // A low-order run of zeros in a | b is one in both a and b.
  lemma {:induction false} OrLow(a: nat, b: nat, n: nat)
    ensures Low(Or(a, b), n) == 0 <==> Low(a, n) == 0 && Low(b, n) == 0
  {
    if n > 0 {
      OrLow(a / 2, b / 2, n - 1);
      assert Or(a, b) / 2 == Or(a / 2, b / 2);
    }
  }

  lemma {:induction false} AndBit(a: nat, b: nat, n: nat)
    ensures Bit(And(a, b), n) <==> Bit(a, n) && Bit(b, n)
  {
    assert And(a, b) / 2 == And(a / 2, b / 2);
    if n > 0 {
      AndBit(a / 2, b / 2, n - 1);
    }
  }

  // Setting one bit.
  lemma {:induction false} OrPow2(b: nat, k: nat)
    ensures Or(b, Pow2(k)) == if Bit(b, k) then b else b + Pow2(k)
  {
    if k == 0 {
      OrZero(b / 2);
    } else {
      OrPow2(b / 2, k - 1);
    }
  }

  lemma {:induction false} OrZero(b: nat)
    ensures Or(b, 0) == b
  {
    if b > 0 {
      OrZero(b / 2);
    }
  }

  // The width of a ^ b is the least number of low bits whose removal makes a
  // and b equal.
  lemma {:induction false} XorWidth(a: nat, b: nat, n: nat)
    ensures BitWidth(Xor(a, b)) <= n <==> Shr(a, n) == Shr(b, n)
  {
    if n == 0 {
      XorZero(a, b);
    } else {
      XorWidth(a / 2, b / 2, n - 1);
      assert Xor(a, b) / 2 == Xor(a / 2, b / 2);
      if Xor(a, b) == 0 {
        XorZero(a, b);
      }
    }
  }

  lemma {:induction false} XorZero(a: nat, b: nat)
    ensures Xor(a, b) == 0 <==> a == b
  {
    if a == 0 && b == 0 {
    } else {
      XorZero(a / 2, b / 2);
    }
  }
}
