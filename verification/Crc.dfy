/** The checksums of the model file format (`crc32`) and of the CRSF link (`crc8_dvb_s2`):
    the byte loops, the register update they implement, and what the register detects. */
module Crc {
  import opened Bits

  const CRC32_POLYNOMIAL: word := 0xEDB8_8320
  const CRC8_POLYNOMIAL: byte := 0xD5

  // ---------------------------------------------------------------- CRC-32

  function Step32(c: word): word {
    Pow2Values();
    if c % 2 == 1 then (XorBound(c / 2, CRC32_POLYNOMIAL, 32); Xor(c / 2, CRC32_POLYNOMIAL)) else c / 2
  }

  /** `n` single-bit steps of the reflected register. */
  function Shift32(c: word, n: nat): word
    decreases n
  {
    if n == 0 then c else Shift32(Step32(c), n - 1)
  }

  function Update32(c: word, b: byte): word {
    Shift32(XorWord(c, b), 8)
  }

  function Fold32(c: word, data: seq<byte>): word
    decreases |data|
  {
    if data == [] then c else Fold32(Update32(c, data[0]), data[1..])
  }

  function Crc32(data: seq<byte>): word {
    0xFFFF_FFFF - Fold32(0xFFFF_FFFF, data)
  }

  lemma {:induction false} Fold32Append(c: word, a: seq<byte>, b: seq<byte>)
    ensures Fold32(c, a + b) == Fold32(Fold32(c, a), b)
    decreases |a|
  {
    if a == [] {
      assert a + b == b;
    } else {
      assert (a + b)[1..] == a[1..] + b;
      Fold32Append(Update32(c, a[0]), a[1..], b);
    }
  }

  lemma {:induction false} Shift32Last(c: word, n: nat)
    ensures Shift32(c, n + 1) == Step32(Shift32(c, n))
    decreases n
  {
    if n > 0 {
      Shift32Last(Step32(c), n - 1);
    }
  }

  /** The loop over bytes and bits. */
  method ComputeCrc32(data: seq<byte>) returns (crc: word)
    ensures crc == Crc32(data)
  {
    crc := 0xFFFF_FFFF;
    var i := 0;
    while i < |data|
      invariant 0 <= i <= |data|
      invariant crc == Fold32(0xFFFF_FFFF, data[..i])
    {
      ghost var before := crc;
      crc := XorWord(crc, data[i]);
      var bit := 0;
      while bit < 8
        invariant 0 <= bit <= 8
        invariant crc == Shift32(XorWord(before, data[i]), bit)
      {
        Shift32Last(XorWord(before, data[i]), bit);
        crc := Step32(crc);
        bit := bit + 1;
      }
      Fold32Append(0xFFFF_FFFF, data[..i], [data[i]]);
      assert data[..i + 1] == data[..i] + [data[i]];
      assert Fold32(before, [data[i]]) == Fold32(Update32(before, data[i]), []);
      i := i + 1;
    }
    assert data[..|data|] == data;
    crc := 0xFFFF_FFFF - crc;
  }

  lemma Step32Injective(x: word, y: word)
    requires Step32(x) == Step32(y)
    ensures x == y
  {
    Pow2Values();
    if x % 2 == 1 && y % 2 == 1 {
      XorCancel(x / 2, y / 2, CRC32_POLYNOMIAL);
    } else if x % 2 == 1 {
      XorTopBit(x / 2, CRC32_POLYNOMIAL, 31);
    } else if y % 2 == 1 {
      XorTopBit(y / 2, CRC32_POLYNOMIAL, 31);
    }
  }

  lemma {:induction false} Shift32Injective(x: word, y: word, n: nat)
    requires Shift32(x, n) == Shift32(y, n)
    ensures x == y
    decreases n
  {
    if n > 0 {
      Shift32Injective(Step32(x), Step32(y), n - 1);
      Step32Injective(x, y);
    }
  }

  /** Two different registers stay different over any common data. */
  lemma {:induction false} Fold32Injective(x: word, y: word, data: seq<byte>)
    requires Fold32(x, data) == Fold32(y, data)
    ensures x == y
    decreases |data|
  {
    if data != [] {
      Fold32Injective(Update32(x, data[0]), Update32(y, data[0]), data[1..]);
      Shift32Injective(XorWord(x, data[0]), XorWord(y, data[0]), 8);
      XorCancel(x, y, data[0]);
    }
  }

  /** Bits above the lowest are only shifted by one step. */
  lemma Step32Linear(r: word, v: nat)
    requires 2 * v < 0x1_0000_0000
    ensures Step32(XorWord(r, 2 * v)) == XorWord(Step32(r), v)
  {
    var x := XorWord(r, 2 * v);
    if r == 0 && v == 0 {
    } else {
      assert x % 2 == r % 2 && x / 2 == Xor(r / 2, v);
    }
    if r % 2 == 1 {
      XorAssoc(r / 2, v, CRC32_POLYNOMIAL);
      XorComm(v, CRC32_POLYNOMIAL);
      XorAssoc(r / 2, CRC32_POLYNOMIAL, v);
    }
  }

  lemma {:induction false} Shift32Linear(r: word, v: nat, k: nat)
    requires Shl(v, k) < 0x1_0000_0000
    ensures Shift32(XorWord(r, Shl(v, k)), k) == XorWord(Shift32(r, k), v)
    decreases k
  {
    if k > 0 {
      Step32Linear(r, Shl(v, k - 1));
      Shift32Linear(Step32(r), v, k - 1);
    }
  }

  lemma {:induction false} Shift32Add(c: word, m: nat, n: nat)
    ensures Shift32(c, m + n) == Shift32(Shift32(c, m), n)
    decreases m
  {
    if m > 0 {
      Shift32Add(Step32(c), m - 1, n);
    }
  }

  /** Up to four bytes read as one little-endian number. */
  function Little(data: seq<byte>): (w: nat)
    requires |data| <= 4
    ensures w < Pow2(8 * |data|)
  {
    if data == [] then 0
    else
      Pow2Add(8, 8 * |data| - 8);
      Pow2Values();
      data[0] + 256 * Little(data[1..])
  }

  lemma LittleWord(data: seq<byte>)
    requires |data| <= 4
    ensures Little(data) < 0x1_0000_0000
  {
    Pow2Values();
    Pow2Mono(8 * |data|, 32);
  }

  lemma {:induction false} LittleInjective(x: seq<byte>, y: seq<byte>)
    requires |x| == |y| <= 4
    requires Little(x) == Little(y)
    ensures x == y
    decreases |x|
  {
    if x != [] {
      LittleInjective(x[1..], y[1..]);
      assert x == [x[0]] + x[1..];
      assert y == [y[0]] + y[1..];
    }
  }

  lemma LittleByte(c: word, b: byte, w: nat)
    requires b + 256 * w < 0x1_0000_0000
    ensures Shift32(XorWord(c, b + 256 * w), 8) == XorWord(Update32(c, b), w)
  {
    Pow2Values();
    Shl8(w);
    XorDisjoint(b, w, 8);
    XorAssoc(c, b, Shl(w, 8));
    Shift32Linear(XorWord(c, b), w, 8);
  }

  /** Feeding at most four bytes equals adding them as one word and shifting them through. */
  lemma {:induction false} Fold32Word(c: word, data: seq<byte>)
    requires |data| <= 4
    ensures Little(data) < 0x1_0000_0000
    ensures Fold32(c, data) == Shift32(XorWord(c, Little(data)), 8 * |data|)
    decreases |data|
  {
    LittleWord(data);
    if data == [] {
      XorZero(c);
    } else {
      var b, w := data[0], Little(data[1..]);
      Fold32Word(Update32(c, b), data[1..]);
      LittleByte(c, b, w);
      Shift32Add(XorWord(c, Little(data)), 8, 8 * |data[1..]|);
    }
  }

  /** `b` is `a` with some bytes of the window [i, i+4) altered. */
  predicate BurstAt(a: seq<byte>, b: seq<byte>, i: nat) {
    |a| == |b| && a != b && forall k :: 0 <= k < |a| && !(i <= k < i + 4) ==> a[k] == b[k]
  }

  /** Different windows of at most four bytes leave different registers, whatever follows. */
  lemma WindowDetected(c: word, x: seq<byte>, y: seq<byte>, suffix: seq<byte>)
    requires |x| == |y| <= 4 && x != y
    ensures Fold32(c, x + suffix) != Fold32(c, y + suffix)
  {
    Fold32Append(c, x, suffix);
    Fold32Append(c, y, suffix);
    if Fold32(c, x + suffix) == Fold32(c, y + suffix) {
      Fold32Injective(Fold32(c, x), Fold32(c, y), suffix);
      Fold32Word(c, x);
      Fold32Word(c, y);
      Shift32Injective(XorWord(c, Little(x)), XorWord(c, Little(y)), 8 * |x|);
      XorCancelLeft(c, Little(x), Little(y));
      LittleInjective(x, y);
      assert false;
    }
  }

  /** Any alteration confined to four consecutive bytes changes the CRC-32. */
  lemma BurstDetected(a: seq<byte>, b: seq<byte>, i: nat)
    requires BurstAt(a, b, i)
    ensures Crc32(a) != Crc32(b)
  {
    var lo := if i < |a| then i else |a|;
    var hi := if i + 4 < |a| then i + 4 else |a|;
    assert a[..lo] == b[..lo] && a[hi..] == b[hi..];
    assert a == a[..lo] + (a[lo..hi] + a[hi..]);
    assert b == b[..lo] + (b[lo..hi] + b[hi..]);
    Fold32Append(0xFFFF_FFFF, a[..lo], a[lo..hi] + a[hi..]);
    Fold32Append(0xFFFF_FFFF, b[..lo], b[lo..hi] + b[hi..]);
    WindowDetected(Fold32(0xFFFF_FFFF, a[..lo]), a[lo..hi], b[lo..hi], a[hi..]);
  }

  // ---------------------------------------------------------------- CRC-8 (DVB-S2)

  function XorByte(x: byte, y: byte): byte {
    Pow2Values();
    XorBound(x, y, 8);
    Xor(x, y)
  }

  function Step8(c: byte): byte {
    if c >= 0x80 then XorByte(2 * c - 0x100, CRC8_POLYNOMIAL) else 2 * c
  }

  function Shift8(c: byte, n: nat): byte
    decreases n
  {
    if n == 0 then c else Shift8(Step8(c), n - 1)
  }

  function Update8(c: byte, b: byte): byte {
    Shift8(XorByte(c, b), 8)
  }

  function Fold8(c: byte, data: seq<byte>): byte
    decreases |data|
  {
    if data == [] then c else Fold8(Update8(c, data[0]), data[1..])
  }

  function Crc8(data: seq<byte>): byte {
    Fold8(0, data)
  }

  lemma {:induction false} Fold8Append(c: byte, a: seq<byte>, b: seq<byte>)
    ensures Fold8(c, a + b) == Fold8(Fold8(c, a), b)
    decreases |a|
  {
    if a == [] {
      assert a + b == b;
    } else {
      assert (a + b)[1..] == a[1..] + b;
      Fold8Append(Update8(c, a[0]), a[1..], b);
    }
  }

  lemma {:induction false} Shift8Last(c: byte, n: nat)
    ensures Shift8(c, n + 1) == Step8(Shift8(c, n))
    decreases n
  {
    if n > 0 {
      Shift8Last(Step8(c), n - 1);
    }
  }

  method ComputeCrc8(data: seq<byte>) returns (crc: byte)
    ensures crc == Crc8(data)
  {
    crc := 0;
    var i := 0;
    while i < |data|
      invariant 0 <= i <= |data|
      invariant crc == Fold8(0, data[..i])
    {
      ghost var before := crc;
      crc := XorByte(crc, data[i]);
      var bit := 0;
      while bit < 8
        invariant 0 <= bit <= 8
        invariant crc == Shift8(XorByte(before, data[i]), bit)
      {
        Shift8Last(XorByte(before, data[i]), bit);
        crc := Step8(crc);
        bit := bit + 1;
      }
      Fold8Append(0, data[..i], [data[i]]);
      assert data[..i + 1] == data[..i] + [data[i]];
      assert Fold8(before, [data[i]]) == Fold8(Update8(before, data[i]), []);
      i := i + 1;
    }
    assert data[..|data|] == data;
  }

  lemma Step8Injective(x: byte, y: byte)
    requires Step8(x) == Step8(y)
    ensures x == y
  {
    if x >= 0x80 && y >= 0x80 {
      XorCancel(2 * x - 0x100, 2 * y - 0x100, CRC8_POLYNOMIAL);
    }
  }

  lemma {:induction false} Shift8Injective(x: byte, y: byte, n: nat)
    requires Shift8(x, n) == Shift8(y, n)
    ensures x == y
    decreases n
  {
    if n > 0 {
      Shift8Injective(Step8(x), Step8(y), n - 1);
      Step8Injective(x, y);
    }
  }

  lemma {:induction false} Fold8Injective(x: byte, y: byte, data: seq<byte>)
    requires Fold8(x, data) == Fold8(y, data)
    ensures x == y
    decreases |data|
  {
    if data != [] {
      Fold8Injective(Update8(x, data[0]), Update8(y, data[0]), data[1..]);
      Shift8Injective(XorByte(x, data[0]), XorByte(y, data[0]), 8);
      XorCancel(x, y, data[0]);
    }
  }

  /** Altering one byte always changes the DVB-S2 CRC-8. */
  lemma ByteChangeDetected(data: seq<byte>, i: nat, b: byte)
    requires i < |data| && data[i] != b
    ensures Crc8(data[i := b]) != Crc8(data)
  {
    var c := Fold8(0, data[..i]);
    assert data == data[..i] + ([data[i]] + data[i + 1..]);
    assert data[i := b] == data[..i] + ([b] + data[i + 1..]);
    Fold8Append(0, data[..i], [data[i]] + data[i + 1..]);
    Fold8Append(0, data[..i], [b] + data[i + 1..]);
    assert ([data[i]] + data[i + 1..])[1..] == data[i + 1..] == ([b] + data[i + 1..])[1..];
    if Crc8(data[i := b]) == Crc8(data) {
      Fold8Injective(Update8(c, b), Update8(c, data[i]), data[i + 1..]);
      Shift8Injective(XorByte(c, b), XorByte(c, data[i]), 8);
      XorCancelLeft(c, b, data[i]);
      assert false;
    }
  }

  // ---------------------------------------------------------------- which checksums these are

  /** A step of the register is the one that divides by the polynomial 0x04C11DB7, its bits in reverse order: it is
      linear, moves every bit but the last down, and turns the last one into the polynomial. */
  lemma StepDivides32(x: word, y: word)
    ensures Step32(XorWord(x, y)) == XorWord(Step32(x), Step32(y))
    ensures Step32(1) == 0xEDB8_8320 && (x % 2 == 0 ==> Step32(x) == x / 2)
  {
    Pow2Values();
    hide Pow2;
    var p := CRC32_POLYNOMIAL;
    XorHead(x, y);
    XorComm(0, p);
    XorZero(p);
    var a, b := x / 2, y / 2;
    XorAssoc(a, b, p);
    XorAssoc(a, p, Xor(b, p));
    XorComm(p, Xor(b, p));
    XorAssoc(b, p, p);
    XorSelf(p);
    XorZero(b);
    XorAssoc(a, p, b);
    XorComm(p, b);
    hide Xor;
  }

  lemma XorHead(x: nat, y: nat)
    ensures Xor(x, y) % 2 == (if x % 2 == y % 2 then 0 else 1) && Xor(x, y) / 2 == Xor(x / 2, y / 2)
  {
  }

  lemma {:induction false} XorSelf(x: nat)
    ensures Xor(x, x) == 0
  {
    if x != 0 {
      XorSelf(x / 2);
    }
  }

  /** The register of the link divides by 0xD5, its bits in order. */
  lemma StepDivides8(x: byte, y: byte)
    ensures Step8(XorByte(x, y)) == XorByte(Step8(x), Step8(y))
    ensures Step8(0x80) == 0xD5 && (x < 0x80 ==> Step8(x) == 2 * x)
  {
    Pow2Values();
    hide Pow2;
    XorComm(0, CRC8_POLYNOMIAL);
    XorZero(CRC8_POLYNOMIAL);
    if x < 0x80 && y < 0x80 {
      StepLow(x, y);
    } else if y < 0x80 {
      StepHigh(x, y);
    } else if x < 0x80 {
      StepHigh(y, x);
      XorComm(x, y);
      XorComm(Step8(x), Step8(y));
    } else {
      StepBoth(x, y);
    }
    hide Xor, Step8;
  }

  lemma XorTwice(x: nat, y: nat)
    ensures Xor(2 * x, 2 * y) == 2 * Xor(x, y)
  {
  }

  lemma StepLow(x: byte, y: byte)
    requires x < 0x80 && y < 0x80
    ensures Step8(XorByte(x, y)) == XorByte(Step8(x), Step8(y))
  {
    Pow2Values();
    XorBound(x, y, 7);
    XorTwice(x, y);
    hide Xor, Pow2;
  }

  lemma TopBit(x: byte)
    requires x >= 0x80
    ensures Xor(x - 0x80, 0x80) == x
  {
    Pow2Values();
    assert Shl(1, 7) == 0x80 by {
      assert Shl(1, 4) == 16;
    }
    XorDisjoint(x - 0x80, 1, 7);
  }

  lemma StepHigh(x: byte, y: byte)
    requires x >= 0x80 && y < 0x80
    ensures Step8(XorByte(x, y)) == XorByte(Step8(x), Step8(y))
  {
    hide Xor, Pow2;
    var u, p := x - 0x80, CRC8_POLYNOMIAL;
    HighXor(x, y);
    XorTwice(u, y);
    XorAssoc(2 * u, p, 2 * y);
    XorComm(p, 2 * y);
    XorAssoc(2 * u, 2 * y, p);
  }

  lemma HighXor(x: byte, y: byte)
    requires x >= 0x80 && y < 0x80
    ensures Xor(x, y) == Xor(x - 0x80, y) + 0x80 && Xor(x - 0x80, y) < 0x80
  {
    hide Xor, Pow2;
    var u := x - 0x80;
    Pow2Values();
    TopBit(x);
    XorAssoc(u, 0x80, y);
    XorComm(0x80, y);
    XorAssoc(u, y, 0x80);
    XorBound(u, y, 7);
    TopBit(Xor(u, y) + 0x80);
  }

  lemma StepBoth(x: byte, y: byte)
    requires x >= 0x80 && y >= 0x80
    ensures Step8(XorByte(x, y)) == XorByte(Step8(x), Step8(y))
  {
    hide Xor, Pow2;
    var u, v, p := x - 0x80, y - 0x80, CRC8_POLYNOMIAL;
    BothXor(x, y);
    Cancel(2 * u, 2 * v, p);
    XorTwice(u, v);
  }

  lemma BothXor(x: byte, y: byte)
    requires x >= 0x80 && y >= 0x80
    ensures Xor(x, y) == Xor(x - 0x80, y - 0x80) < 0x80
  {
    hide Xor, Pow2;
    Pow2Values();
    TopBit(x);
    TopBit(y);
    Cancel(x - 0x80, y - 0x80, 0x80);
    XorBound(x - 0x80, y - 0x80, 7);
  }

  lemma Cancel(u: nat, v: nat, p: nat)
    ensures Xor(Xor(u, p), Xor(v, p)) == Xor(u, v)
  {
    hide Xor;
    XorAssoc(u, p, Xor(v, p));
    XorComm(p, Xor(v, p));
    XorAssoc(v, p, p);
    XorSelf(p);
    XorZero(v);
  }

  lemma LowXor(h: nat)
    ensures Xor(0xFF + 0x100 * h, 0xFF) == 0x100 * h
  {
    hide Xor, Pow2;
    Pow2Values();
    Shl8(h);
    XorDisjoint(0xFF, h, 8);
    XorComm(0xFF, 0x100 * h);
    XorAssoc(0x100 * h, 0xFF, 0xFF);
    XorSelf(0xFF);
    XorZero(0x100 * h);
  }

  lemma {:induction false} ZerosShift(c: word, h: nat, n: nat)
    requires c == h * Pow2(n)
    ensures Shift32(c, n) == h
    decreases n
  {
    hide Step32;
    if n > 0 {
      Half(c, h, Pow2(n - 1));
      ZerosShift(c / 2, h, n - 1);
    }
  }

  lemma Half(c: word, h: nat, p: nat)
    requires c == h * (2 * p)
    ensures c / 2 == h * p && Step32(c) == c / 2
  {
    hide Xor;
    var x := h * p;
    assert c == 2 * x;
  }

  lemma OnesShift(h: nat)
    requires 0xFF + 0x100 * h < 0x1_0000_0000
    ensures Update32(0xFF + 0x100 * h, 0xFF) == h
  {
    hide Xor, Pow2, Shift32;
    Pow2Values();
    LowXor(h);
    ZerosShift(0x100 * h, h, 8);
  }

  lemma BitShifts(c: byte, n: nat)
    requires n >= 1
    ensures c < 0x80 ==> Shift8(c, n) == Shift8(2 * c, n - 1)
  {
  }

  /** Messages whose checksums are known. */
  lemma KnownAnswers()
    ensures Crc32([]) == 0 && Crc32([0xFF, 0xFF, 0xFF, 0xFF]) == 0xFFFF_FFFF
    ensures Crc8([]) == 0 && Crc8([1]) == 0xD5
  {
    hide Update32, Shift8;
    OnesShift(0xFF_FFFF);
    OnesShift(0xFFFF);
    OnesShift(0xFF);
    OnesShift(0);
    OneShifts();
    var four: seq<byte> := [0xFF, 0xFF, 0xFF, 0xFF];
    assert four[1..][1..][1..][1..] == [];
    assert Fold32(0xFFFF_FFFF, four) == Fold32(0xFF_FFFF, four[1..]);
    assert Fold32(0xFF_FFFF, four[1..]) == Fold32(0xFFFF, four[1..][1..]);
    assert Fold32(0xFFFF, four[1..][1..]) == Fold32(0xFF, four[1..][1..][1..]);
    assert Fold32(0xFF, four[1..][1..][1..]) == Fold32(0, four[1..][1..][1..][1..]);
    var one: seq<byte> := [1];
    assert one[1..] == [];
    assert Fold8(0, one) == Fold8(Update8(0, 1), one[1..]);
  }

  lemma OneShifts()
    ensures Update8(0, 1) == 0xD5
  {
    XorComm(0, 1);
    XorZero(1);
    StepDivides8(0, 0);
    hide Shift8, Xor, Step8;
    BitShifts(1, 8);
    BitShifts(2, 7);
    BitShifts(4, 6);
    BitShifts(8, 5);
    BitShifts(0x10, 4);
    BitShifts(0x20, 3);
    BitShifts(0x40, 2);
    LastShift();
  }

  lemma LastShift()
    ensures Shift8(0x80, 1) == 0xD5
  {
    StepDivides8(0, 0);
    hide Step8;
    assert Shift8(0x80, 1) == Shift8(0xD5, 0);
  }
}
