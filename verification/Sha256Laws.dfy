/** The constants and the rotations of SHA-256 are those of FIPS 180-4: fractional parts of roots of the first
    primes (sections 4.2.2 and 5.3.3), and functions that move single bits as the standard's do (section 4.1.2). */
module Sha256Laws {
  import opened Bits
  import opened Sha256

  /** `n` is 2^32 times the cube root of `prime`, rounded down. */
  predicate CubeRoot(prime: nat, n: nat) {
    n * n * n <= prime * 0x1_0000_0000_0000_0000_0000_0000 < (n + 1) * (n + 1) * (n + 1)
  }

  predicate SquareRoot(prime: nat, n: nat) {
    n * n <= prime * 0x1_0000_0000_0000_0000 < (n + 1) * (n + 1)
  }

  // The round constants are those of the first 64 primes.

  lemma RoundConstants0()
    ensures CubeRoot(2, 0x1_428a2f98) && ROUND_CONSTANTS[0] == 0x428a2f98
    ensures CubeRoot(3, 0x1_71374491) && ROUND_CONSTANTS[1] == 0x71374491
    ensures CubeRoot(5, 0x1_b5c0fbcf) && ROUND_CONSTANTS[2] == 0xb5c0fbcf
    ensures CubeRoot(7, 0x1_e9b5dba5) && ROUND_CONSTANTS[3] == 0xe9b5dba5
    ensures CubeRoot(11, 0x2_3956c25b) && ROUND_CONSTANTS[4] == 0x3956c25b
    ensures CubeRoot(13, 0x2_59f111f1) && ROUND_CONSTANTS[5] == 0x59f111f1
    ensures CubeRoot(17, 0x2_923f82a4) && ROUND_CONSTANTS[6] == 0x923f82a4
    ensures CubeRoot(19, 0x2_ab1c5ed5) && ROUND_CONSTANTS[7] == 0xab1c5ed5
  {
  }

  lemma RoundConstants8()
    ensures CubeRoot(23, 0x2_d807aa98) && ROUND_CONSTANTS[8] == 0xd807aa98
    ensures CubeRoot(29, 0x3_12835b01) && ROUND_CONSTANTS[9] == 0x12835b01
    ensures CubeRoot(31, 0x3_243185be) && ROUND_CONSTANTS[10] == 0x243185be
    ensures CubeRoot(37, 0x3_550c7dc3) && ROUND_CONSTANTS[11] == 0x550c7dc3
    ensures CubeRoot(41, 0x3_72be5d74) && ROUND_CONSTANTS[12] == 0x72be5d74
    ensures CubeRoot(43, 0x3_80deb1fe) && ROUND_CONSTANTS[13] == 0x80deb1fe
    ensures CubeRoot(47, 0x3_9bdc06a7) && ROUND_CONSTANTS[14] == 0x9bdc06a7
    ensures CubeRoot(53, 0x3_c19bf174) && ROUND_CONSTANTS[15] == 0xc19bf174
  {
  }

  lemma RoundConstants16()
    ensures CubeRoot(59, 0x3_e49b69c1) && ROUND_CONSTANTS[16] == 0xe49b69c1
    ensures CubeRoot(61, 0x3_efbe4786) && ROUND_CONSTANTS[17] == 0xefbe4786
    ensures CubeRoot(67, 0x4_0fc19dc6) && ROUND_CONSTANTS[18] == 0x0fc19dc6
    ensures CubeRoot(71, 0x4_240ca1cc) && ROUND_CONSTANTS[19] == 0x240ca1cc
    ensures CubeRoot(73, 0x4_2de92c6f) && ROUND_CONSTANTS[20] == 0x2de92c6f
    ensures CubeRoot(79, 0x4_4a7484aa) && ROUND_CONSTANTS[21] == 0x4a7484aa
    ensures CubeRoot(83, 0x4_5cb0a9dc) && ROUND_CONSTANTS[22] == 0x5cb0a9dc
    ensures CubeRoot(89, 0x4_76f988da) && ROUND_CONSTANTS[23] == 0x76f988da
  {
  }

  lemma RoundConstants24()
    ensures CubeRoot(97, 0x4_983e5152) && ROUND_CONSTANTS[24] == 0x983e5152
    ensures CubeRoot(101, 0x4_a831c66d) && ROUND_CONSTANTS[25] == 0xa831c66d
    ensures CubeRoot(103, 0x4_b00327c8) && ROUND_CONSTANTS[26] == 0xb00327c8
    ensures CubeRoot(107, 0x4_bf597fc7) && ROUND_CONSTANTS[27] == 0xbf597fc7
    ensures CubeRoot(109, 0x4_c6e00bf3) && ROUND_CONSTANTS[28] == 0xc6e00bf3
    ensures CubeRoot(113, 0x4_d5a79147) && ROUND_CONSTANTS[29] == 0xd5a79147
    ensures CubeRoot(127, 0x5_06ca6351) && ROUND_CONSTANTS[30] == 0x06ca6351
    ensures CubeRoot(131, 0x5_14292967) && ROUND_CONSTANTS[31] == 0x14292967
  {
  }

  lemma RoundConstants32()
    ensures CubeRoot(137, 0x5_27b70a85) && ROUND_CONSTANTS[32] == 0x27b70a85
    ensures CubeRoot(139, 0x5_2e1b2138) && ROUND_CONSTANTS[33] == 0x2e1b2138
    ensures CubeRoot(149, 0x5_4d2c6dfc) && ROUND_CONSTANTS[34] == 0x4d2c6dfc
    ensures CubeRoot(151, 0x5_53380d13) && ROUND_CONSTANTS[35] == 0x53380d13
    ensures CubeRoot(157, 0x5_650a7354) && ROUND_CONSTANTS[36] == 0x650a7354
    ensures CubeRoot(163, 0x5_766a0abb) && ROUND_CONSTANTS[37] == 0x766a0abb
    ensures CubeRoot(167, 0x5_81c2c92e) && ROUND_CONSTANTS[38] == 0x81c2c92e
    ensures CubeRoot(173, 0x5_92722c85) && ROUND_CONSTANTS[39] == 0x92722c85
  {
  }

  lemma RoundConstants40()
    ensures CubeRoot(179, 0x5_a2bfe8a1) && ROUND_CONSTANTS[40] == 0xa2bfe8a1
    ensures CubeRoot(181, 0x5_a81a664b) && ROUND_CONSTANTS[41] == 0xa81a664b
    ensures CubeRoot(191, 0x5_c24b8b70) && ROUND_CONSTANTS[42] == 0xc24b8b70
    ensures CubeRoot(193, 0x5_c76c51a3) && ROUND_CONSTANTS[43] == 0xc76c51a3
    ensures CubeRoot(197, 0x5_d192e819) && ROUND_CONSTANTS[44] == 0xd192e819
    ensures CubeRoot(199, 0x5_d6990624) && ROUND_CONSTANTS[45] == 0xd6990624
    ensures CubeRoot(211, 0x5_f40e3585) && ROUND_CONSTANTS[46] == 0xf40e3585
    ensures CubeRoot(223, 0x6_106aa070) && ROUND_CONSTANTS[47] == 0x106aa070
  {
  }

  lemma RoundConstants48()
    ensures CubeRoot(227, 0x6_19a4c116) && ROUND_CONSTANTS[48] == 0x19a4c116
    ensures CubeRoot(229, 0x6_1e376c08) && ROUND_CONSTANTS[49] == 0x1e376c08
    ensures CubeRoot(233, 0x6_2748774c) && ROUND_CONSTANTS[50] == 0x2748774c
    ensures CubeRoot(239, 0x6_34b0bcb5) && ROUND_CONSTANTS[51] == 0x34b0bcb5
    ensures CubeRoot(241, 0x6_391c0cb3) && ROUND_CONSTANTS[52] == 0x391c0cb3
    ensures CubeRoot(251, 0x6_4ed8aa4a) && ROUND_CONSTANTS[53] == 0x4ed8aa4a
    ensures CubeRoot(257, 0x6_5b9cca4f) && ROUND_CONSTANTS[54] == 0x5b9cca4f
    ensures CubeRoot(263, 0x6_682e6ff3) && ROUND_CONSTANTS[55] == 0x682e6ff3
  {
  }

  lemma RoundConstants56()
    ensures CubeRoot(269, 0x6_748f82ee) && ROUND_CONSTANTS[56] == 0x748f82ee
    ensures CubeRoot(271, 0x6_78a5636f) && ROUND_CONSTANTS[57] == 0x78a5636f
    ensures CubeRoot(277, 0x6_84c87814) && ROUND_CONSTANTS[58] == 0x84c87814
    ensures CubeRoot(281, 0x6_8cc70208) && ROUND_CONSTANTS[59] == 0x8cc70208
    ensures CubeRoot(283, 0x6_90befffa) && ROUND_CONSTANTS[60] == 0x90befffa
    ensures CubeRoot(293, 0x6_a4506ceb) && ROUND_CONSTANTS[61] == 0xa4506ceb
    ensures CubeRoot(307, 0x6_bef9a3f7) && ROUND_CONSTANTS[62] == 0xbef9a3f7
    ensures CubeRoot(311, 0x6_c67178f2) && ROUND_CONSTANTS[63] == 0xc67178f2
  {
  }

  /** The initial words are the fractional parts of the square roots of the first eight primes. */
  lemma InitialWords()
    ensures SquareRoot(2, 0x1_6a09e667) && INITIAL.a == 0x6a09e667
    ensures SquareRoot(3, 0x1_bb67ae85) && INITIAL.b == 0xbb67ae85
    ensures SquareRoot(5, 0x2_3c6ef372) && INITIAL.c == 0x3c6ef372
    ensures SquareRoot(7, 0x2_a54ff53a) && INITIAL.d == 0xa54ff53a
    ensures SquareRoot(11, 0x3_510e527f) && INITIAL.e == 0x510e527f
    ensures SquareRoot(13, 0x3_9b05688c) && INITIAL.f == 0x9b05688c
    ensures SquareRoot(17, 0x4_1f83d9ab) && INITIAL.g == 0x1f83d9ab
    ensures SquareRoot(19, 0x4_5be0cd19) && INITIAL.h == 0x5be0cd19
  {
  }

  // ---------------------------------------------------------------- the functions, bit by bit

  lemma {:induction false} BitXor(x: nat, y: nat, i: nat)
    ensures Bit(Xor(x, y), i) == (Bit(x, i) != Bit(y, i))
    decreases i
  {
    if x == 0 && y == 0 {
      BitNothing(i);
    } else {
      assert Xor(x, y) / 2 == Xor(x / 2, y / 2);
      if i > 0 {
        BitXor(x / 2, y / 2, i - 1);
      }
    }
  }

  lemma {:induction false} BitAnd(x: nat, y: nat, i: nat)
    ensures Bit(And(x, y), i) == (Bit(x, i) && Bit(y, i))
    decreases i
  {
    if x == 0 {
      BitNothing(i);
    } else {
      assert And(x, y) / 2 == And(x / 2, y / 2);
      if i > 0 {
        BitAnd(x / 2, y / 2, i - 1);
      }
    }
  }

  lemma {:induction false} BitNothing(i: nat)
    ensures !Bit(0, i)
  {
    if i > 0 {
      BitNothing(i - 1);
    }
  }

  lemma {:induction false} BitNot(x: nat, k: nat, i: nat)
    requires x < Pow2(k) && i < k
    ensures Bit(Pow2(k) - 1 - x, i) == !Bit(x, i)
    decreases k
  {
    assert (Pow2(k) - 1 - x) / 2 == Pow2(k - 1) - 1 - x / 2;
    if i > 0 {
      BitNot(x / 2, k - 1, i - 1);
    }
  }

  lemma Quotient(x: nat, d: nat, q: nat, r: nat)
    requires x == q * d + r && r < d
    ensures x / d == q && x % d == r
  {
    var q' := x / d;
    assert q' * d <= x < (q' + 1) * d;
    assert q * d <= x < (q + 1) * d;
    Below(q, q', d);
    Below(q', q, d);
  }

  lemma {:induction false} BitAdd(a: nat, b: nat, m: nat, i: nat)
    requires a < Pow2(m)
    ensures Bit(a + b * Pow2(m), i) == if i < m then Bit(a, i) else Bit(b, i - m)
    decreases m
  {
    if m > 0 {
      var p := Pow2(m - 1);
      assert b * Pow2(m) == 2 * (b * p);
      assert (a + b * Pow2(m)) / 2 == a / 2 + b * p;
      if i > 0 {
        BitAdd(a / 2, b, m - 1, i - 1);
      }
    }
  }

  lemma Whole(n: nat)
    requires n <= 32
    ensures Pow2(n) * Pow2(32 - n) == 0x1_0000_0000
  {
    Pow2Add(n, 32 - n);
    Pow2Values();
  }

  /** A rotation moves every bit `n` places down, and the ones that leave come in at the top. */
  lemma RotatesBits(x: word, n: nat, i: nat)
    requires n <= 32 && i < 32
    ensures Bit(RotateRight(x, n), i) == Bit(x, (i + n) % 32)
  {
    hide Bit, Pow2, RotateRight;
    var q, r := Parts(x, n);
    RotatedBit(x, RotateRight(x, n), q, r, n, i);
    Around(i + n);
  }

  lemma Around(k: nat)
    requires k < 64
    ensures k % 32 == if k < 32 then k else k - 32
  {
  }

  lemma Parts(x: word, n: nat) returns (q: nat, r: nat)
    requires n <= 32
    ensures q < Pow2(32 - n) && r < Pow2(n)
    ensures x == r + q * Pow2(n) && RotateRight(x, n) == q + r * Pow2(32 - n)
  {
    hide Pow2;
    Whole(n);
    q, r := x / Pow2(n), x % Pow2(n);
    Halves(x, Pow2(n), Pow2(32 - n));
  }

  lemma RotatedBit(x: nat, y: nat, q: nat, r: nat, n: nat, i: nat)
    requires n <= 32 && i < 32 && q < Pow2(32 - n) && r < Pow2(n)
    requires x == r + q * Pow2(n) && y == q + r * Pow2(32 - n)
    ensures Bit(y, i) == Bit(x, if i + n < 32 then i + n else i + n - 32)
  {
    hide Bit, Pow2;
    BitAdd(q, r, 32 - n, i);
    if i < 32 - n {
      BitAdd(r, q, n, i + n);
    } else {
      BitAdd(r, q, n, i - (32 - n));
    }
  }

  /** The two parts of a rotated word change places. */
  lemma Halves(x: nat, p: nat, m: nat)
    requires p > 0 && m > 0 && p * m == 0x1_0000_0000 && x < 0x1_0000_0000
    ensures x / p < m
    ensures (x / p + x * m) % 0x1_0000_0000 == x / p + x % p * m
  {
    var q, r := x / p, x % p;
    assert x == q * p + r;
    Upper(x, p, m, q, r);
    Crossed(q, r, p, m);
    assert x * m == (q * p + r) * m;
    Lower(q, r, p, m);
    Quotient(q + x * m, 0x1_0000_0000, q, q + r * m);
  }

  lemma Upper(x: nat, p: nat, m: nat, q: nat, r: nat)
    requires x == q * p + r && x < p * m && p > 0 && m > 0
    ensures q < m
  {
    assert q * p < (m - 1 + 1) * p;
    Below(q, m - 1, p);
  }

  lemma Crossed(q: nat, r: nat, p: nat, m: nat)
    ensures (q * p + r) * m == q * (p * m) + r * m
  {
  }

  lemma Lower(q: nat, r: nat, p: nat, m: nat)
    requires q < m && r < p
    ensures q + r * m < p * m
  {
    TimesOrder(r + 1, p, m);
    assert (r + 1) * m == r * m + m;
  }

  /** A shift does the same, and what leaves is lost. */
  lemma ShiftsBits(x: word, n: nat, i: nat)
    requires n <= 32
    ensures Bit(ShiftRight(x, n), i) == Bit(x, i + n)
  {
    hide Bit, Pow2;
    var p := Pow2(n);
    BitAdd(x % p, x / p, n, i + n);
    assert x % p + x / p * p == x;
  }

  lemma BitXor3(x: word, y: word, z: word, i: nat)
    ensures Bit(Xor3(x, y, z), i) == ((Bit(x, i) != Bit(y, i)) != Bit(z, i))
  {
    hide Bit, Xor;
    BitXor(x, y, i);
    BitXor(Xor(x, y), z, i);
  }

  /** The four functions of FIPS 180-4, section 4.1.2, that rotate and shift, bit by bit. */
  lemma SigmaBits(x: word, i: nat)
    requires i < 32
    ensures Bit(BigSigma0(x), i) == ((Bit(x, (i + 2) % 32) != Bit(x, (i + 13) % 32)) != Bit(x, (i + 22) % 32))
    ensures Bit(BigSigma1(x), i) == ((Bit(x, (i + 6) % 32) != Bit(x, (i + 11) % 32)) != Bit(x, (i + 25) % 32))
    ensures Bit(SmallSigma0(x), i) == ((Bit(x, (i + 7) % 32) != Bit(x, (i + 18) % 32)) != Bit(x, i + 3))
    ensures Bit(SmallSigma1(x), i) == ((Bit(x, (i + 17) % 32) != Bit(x, (i + 19) % 32)) != Bit(x, i + 10))
  {
    hide Bit, Xor3, RotateRight, ShiftRight;
    RotatesBits(x, 2, i);
    RotatesBits(x, 13, i);
    RotatesBits(x, 22, i);
    BitXor3(RotateRight(x, 2), RotateRight(x, 13), RotateRight(x, 22), i);
    RotatesBits(x, 6, i);
    RotatesBits(x, 11, i);
    RotatesBits(x, 25, i);
    BitXor3(RotateRight(x, 6), RotateRight(x, 11), RotateRight(x, 25), i);
    RotatesBits(x, 7, i);
    RotatesBits(x, 18, i);
    ShiftsBits(x, 3, i);
    BitXor3(RotateRight(x, 7), RotateRight(x, 18), ShiftRight(x, 3), i);
    RotatesBits(x, 17, i);
    RotatesBits(x, 19, i);
    ShiftsBits(x, 10, i);
    BitXor3(RotateRight(x, 17), RotateRight(x, 19), ShiftRight(x, 10), i);
  }

  /** The two that choose and that vote. */
  lemma VoteBits(x: word, y: word, z: word, i: nat)
    requires i < 32
    ensures Bit(Choose(x, y, z), i) == if Bit(x, i) then Bit(y, i) else Bit(z, i)
    ensures Bit(Majority(x, y, z), i)
      == ((Bit(x, i) && Bit(y, i)) || (Bit(x, i) && Bit(z, i)) || (Bit(y, i) && Bit(z, i)))
  {
    hide Bit, Xor, And, Xor3, Pow2;
    Pow2Values();
    BitNot(x, 32, i);
    BitAnd(x, y, i);
    BitAnd(NotWord(x), z, i);
    BitXor(And(x, y), And(NotWord(x), z), i);
    BitAnd(x, z, i);
    BitAnd(y, z, i);
    BitXor3(And(x, y), And(x, z), And(y, z), i);
  }

  // ---------------------------------------------------------------- one round, one word

  lemma AddBoth(s: nat, t: nat)
    ensures AddWord(s % 0x1_0000_0000, t % 0x1_0000_0000) == (s + t) % 0x1_0000_0000
  {
  }

  lemma Small(x: word)
    ensures x % 0x1_0000_0000 == x
  {
  }

  /** A round adds up what section 6.2.2 of FIPS 180-4 adds up, modulo 2^32, and moves the other variables on. */
  lemma RoundAdds(v: Words, k: word, w: word)
    ensures var r := Round(v, k, w);
      var t1: nat := v.h + BigSigma1(v.e) + Choose(v.e, v.f, v.g) + k + w;
      && r.a == (t1 + BigSigma0(v.a) + Majority(v.a, v.b, v.c)) % 0x1_0000_0000 && r.e == (v.d + t1) % 0x1_0000_0000
      && (r.b, r.c, r.d, r.f, r.g, r.h) == (v.a, v.b, v.c, v.e, v.f, v.g)
  {
    hide BigSigma0, BigSigma1, Choose, Majority, AddWord;
    var x, y, s, m: word := BigSigma1(v.e), Choose(v.e, v.f, v.g), BigSigma0(v.a), Majority(v.a, v.b, v.c);
    SumOfFive(v.h, x, y, k, w);
    var t1: nat := v.h + x + y + k + w;
    Small(s);
    Small(m);
    Small(v.d);
    AddBoth(s, m);
    AddBoth(t1, s + m);
    AddBoth(v.d, t1);
  }

  lemma SumOfFive(h: word, x: word, y: word, k: word, w: word)
    ensures AddWord(AddWord(AddWord(AddWord(h, x), y), k), w) == (h + x + y + k + w) % 0x1_0000_0000
  {
    hide AddWord;
    Small(h);
    Small(x);
    Small(y);
    Small(k);
    Small(w);
    AddBoth(h, x);
    AddBoth(h + x, y);
    AddBoth(h + x + y, k);
    AddBoth(h + x + y + k, w);
  }

  /** The schedule starts with the block, in big-endian words, and goes on with sums of four earlier words. */
  lemma ScheduleAdds(block: seq<byte>, t: nat)
    requires |block| == 64 && t < 64
    ensures var w := Schedule(block, 64);
      w[t] == if t < 16 then
          block[4 * t] * 0x100_0000 + block[4 * t + 1] * 0x1_0000 + block[4 * t + 2] * 0x100 + block[4 * t + 3]
        else (w[t - 16] + SmallSigma0(w[t - 15]) + w[t - 7] + SmallSigma1(w[t - 2])) % 0x1_0000_0000
  {
    hide SmallSigma0, SmallSigma1, NextWord, Schedule;
    SchedulePrefix(block, t + 1, 64);
    SchedulePrefix(block, t, t + 1);
    LastWord(block, t);
    NextAdds(block, Schedule(block, t));
  }

  lemma LastWord(block: seq<byte>, t: nat)
    requires |block| == 64 && t < 64
    ensures Schedule(block, t + 1)[t] == NextWord(block, Schedule(block, t))
  {
    hide NextWord;
  }

  lemma {:induction false} SchedulePrefix(block: seq<byte>, m: nat, n: nat)
    requires |block| == 64 && m <= n <= 64
    ensures Schedule(block, n)[..m] == Schedule(block, m)
    decreases n
  {
    hide NextWord;
    if m < n {
      SchedulePrefix(block, m, n - 1);
      assert Schedule(block, n)[..m] == Schedule(block, n - 1)[..m];
    }
  }

  lemma NextAdds(block: seq<byte>, words: seq<word>)
    requires |block| == 64 && |words| < 64
    ensures var t := |words|;
      NextWord(block, words) == if t < 16 then Big(block, t)
        else (words[t - 16] + SmallSigma0(words[t - 15]) + words[t - 7] + SmallSigma1(words[t - 2])) % 0x1_0000_0000
  {
    hide SmallSigma0, SmallSigma1, AddWord, Big;
    var t := |words|;
    if t >= 16 {
      SumOfFour(words[t - 16], SmallSigma0(words[t - 15]), words[t - 7], SmallSigma1(words[t - 2]));
    }
  }

  lemma SumOfFour(a: word, b: word, c: word, d: word)
    ensures AddWord(AddWord(AddWord(a, b), c), d) == (a + b + c + d) % 0x1_0000_0000
  {
    hide AddWord;
    Small(a);
    Small(b);
    Small(c);
    Small(d);
    AddBoth(a, b);
    AddBoth(a + b, c);
    AddBoth(a + b + c, d);
  }
}
