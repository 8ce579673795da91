/** Fixed-width unsigned integers as natural numbers, with the bitwise operators the
    firmware applies to them.  A `byte` is a `uint8_t`, a `word` a `uint32_t`. */
module Bits {

  type byte = b: int | 0 <= b < 0x100
  type word = w: int | 0 <= w < 0x1_0000_0000

  function Pow2(k: nat): (p: nat)
    ensures p >= 1
  {
    if k == 0 then 1 else 2 * Pow2(k - 1)
  }

  /** Bitwise exclusive or. */
  function Xor(x: nat, y: nat): nat
    decreases x + y
  {
    if x == 0 && y == 0 then 0
    else (if x % 2 == y % 2 then 0 else 1) + 2 * Xor(x / 2, y / 2)
  }

  /** Bitwise inclusive or. */
  function Or(x: nat, y: nat): nat
    decreases x + y
  {
    if x == 0 && y == 0 then 0
    else (if x % 2 == 1 || y % 2 == 1 then 1 else 0) + 2 * Or(x / 2, y / 2)
  }

  lemma {:induction false} XorBound(x: nat, y: nat, k: nat)
    requires x < Pow2(k) && y < Pow2(k)
    ensures Xor(x, y) < Pow2(k)
    decreases k
  {
    if k > 0 && !(x == 0 && y == 0) {
      XorBound(x / 2, y / 2, k - 1);
    }
  }

  lemma {:induction false} XorComm(x: nat, y: nat)
    ensures Xor(x, y) == Xor(y, x)
    decreases x + y
  {
    if !(x == 0 && y == 0) {
      XorComm(x / 2, y / 2);
    }
  }

  lemma {:induction false} XorAssoc(x: nat, y: nat, z: nat)
    ensures Xor(Xor(x, y), z) == Xor(x, Xor(y, z))
    decreases x + y + z
  {
    if !(x == 0 && y == 0 && z == 0) {
      XorAssoc(x / 2, y / 2, z / 2);
      assert Xor(x, y) / 2 == Xor(x / 2, y / 2);
      assert Xor(y, z) / 2 == Xor(y / 2, z / 2);
    }
  }

  lemma {:induction false} XorZero(x: nat)
    ensures Xor(x, 0) == x
  {
    if x != 0 {
      XorZero(x / 2);
    }
  }

  /** Exclusive or with a fixed word on the right is injective. */
  lemma {:induction false} XorCancel(x: nat, y: nat, c: nat)
    requires Xor(x, c) == Xor(y, c)
    ensures x == y
    decreases x + y + c
  {
    if !(x == 0 && y == 0 && c == 0) {
      assert Xor(x, c) / 2 == Xor(x / 2, c / 2);
      assert Xor(y, c) / 2 == Xor(y / 2, c / 2);
      XorCancel(x / 2, y / 2, c / 2);
    }
  }

  lemma XorCancelLeft(c: nat, x: nat, y: nat)
    requires Xor(c, x) == Xor(c, y)
    ensures x == y
  {
    XorComm(c, x);
    XorComm(c, y);
    XorCancel(x, y, c);
  }

  /** A bit that only one operand has survives. */
  lemma {:induction false} XorTopBit(x: nat, y: nat, k: nat)
    requires x < Pow2(k) <= y < Pow2(k + 1)
    ensures Pow2(k) <= Xor(x, y) < Pow2(k + 1)
    decreases k
  {
    if k == 0 {
      assert Pow2(1) == 2;
      assert Xor(0, 0) == 0;
    } else {
      XorTopBit(x / 2, y / 2, k - 1);
    }
  }

  /** Shift left, without truncation. */
  function Shl(y: nat, k: nat): (r: nat)
    ensures r >= y
  {
    if k == 0 then y else 2 * Shl(y, k - 1)
  }

  lemma Shl8(y: nat)
    ensures Shl(y, 8) == 256 * y
  {
    assert Shl(y, 1) == 2 * y;
    assert Shl(y, 2) == 4 * y;
    assert Shl(y, 3) == 8 * y;
    assert Shl(y, 4) == 16 * y;
    assert Shl(y, 5) == 32 * y;
    assert Shl(y, 6) == 64 * y;
    assert Shl(y, 7) == 128 * y;
  }

  lemma XorDouble(x: nat, z: nat)
    ensures Xor(x, 2 * z) == x % 2 + 2 * Xor(x / 2, z)
  {
  }

  lemma OrDouble(x: nat, z: nat)
    ensures Or(x, 2 * z) == x % 2 + 2 * Or(x / 2, z)
  {
  }

  /** Disjoint operands: a value below 2^k combined with a multiple of 2^k. */
  lemma {:induction false} OrDisjoint(x: nat, y: nat, k: nat)
    requires x < Pow2(k)
    ensures Or(x, Shl(y, k)) == x + Shl(y, k)
    decreases k
  {
    if k == 0 {
      OrZeroLeft(y);
    } else {
      OrDisjoint(x / 2, y, k - 1);
      OrDouble(x, Shl(y, k - 1));
    }
  }

  lemma {:induction false} XorDisjoint(x: nat, y: nat, k: nat)
    requires x < Pow2(k)
    ensures Xor(x, Shl(y, k)) == x + Shl(y, k)
    decreases k
  {
    if k == 0 {
      XorComm(0, y);
      XorZero(y);
    } else {
      XorDisjoint(x / 2, y, k - 1);
      XorDouble(x, Shl(y, k - 1));
    }
  }

  lemma {:induction false} OrZeroLeft(y: nat)
    ensures Or(0, y) == y
  {
    if y != 0 {
      OrZeroLeft(y / 2);
    }
  }

  lemma {:induction false} Pow2Mono(a: nat, b: nat)
    requires a <= b
    ensures Pow2(a) <= Pow2(b)
  {
    if a < b {
      Pow2Mono(a, b - 1);
    }
  }

  lemma NotPositive(a: nat, e: nat)
    ensures a * e >= 0
  {
  }

  lemma TimesOrder(p: nat, q: nat, d: nat)
    ensures p <= q ==> p * d <= q * d
  {
    if p <= q {
      assert q * d == p * d + (q - p) * d;
      NotPositive(q - p, d);
    }
  }

  lemma Below(p: nat, q: nat, d: nat)
    requires p * d < (q + 1) * d
    ensures p <= q
  {
    TimesOrder(q + 1, p, d);
  }

  lemma {:induction false} Pow2Add(a: nat, b: nat)
    ensures Pow2(a + b) == Pow2(a) * Pow2(b)
    decreases a
  {
    if a > 0 {
      Pow2Add(a - 1, b);
    }
  }

  lemma Pow2Values()
    ensures Pow2(0) == 1 && Pow2(1) == 2 && Pow2(2) == 4 && Pow2(3) == 8 && Pow2(4) == 16
    ensures Pow2(5) == 32 && Pow2(6) == 64 && Pow2(7) == 128 && Pow2(8) == 256
    ensures Pow2(11) == 2048 && Pow2(16) == 0x1_0000 && Pow2(18) == 0x4_0000
    ensures Pow2(24) == 0x100_0000 && Pow2(31) == 0x8000_0000 && Pow2(32) == 0x1_0000_0000
  {
    assert Pow2(8) == 256;
    assert Pow2(16) == 256 * Pow2(8);
    assert Pow2(24) == 256 * Pow2(16);
    assert Pow2(32) == 256 * Pow2(24);
  }

  /** Bitwise and. */
  function And(x: nat, y: nat): (r: nat)
    ensures r <= x
    decreases x
  {
    if x == 0 then 0
    else (if x % 2 == 1 && y % 2 == 1 then 1 else 0) + 2 * And(x / 2, y / 2)
  }

  predicate Bit(n: nat, i: nat) {
    if i == 0 then n % 2 == 1 else Bit(n / 2, i - 1)
  }

  lemma BitFour(x: nat)
    ensures Bit(x, 4) == (x / 16 % 2 == 1)
  {
    var a, b, c, d := x / 2, x / 2 / 2, x / 2 / 2 / 2, x / 2 / 2 / 2 / 2;
    assert Bit(x, 4) == Bit(a, 3) && Bit(a, 3) == Bit(b, 2) && Bit(b, 2) == Bit(c, 1) && Bit(c, 1) == Bit(d, 0);
  }

  function XorWord(x: word, y: word): word {
    Pow2Values();
    XorBound(x, y, 32);
    Xor(x, y)
  }

  function NotWord(x: word): word {
    0xFFFF_FFFF - x
  }

  function AddWord(x: word, y: word): word {
    (x + y) % 0x1_0000_0000
  }
}
