/** SHA-256 as the flash programmer computes it, incrementally over a 64-byte buffer, against the
    one-shot hash of FIPS 180-4: padding (section 5.1.1), schedule and compression (section 6.2.2). */
module Sha256 {
  import opened Bits

  const ROUND_CONSTANTS: seq<word> := [
    0x428a2f98, 0x71374491, 0xb5c0fbcf, 0xe9b5dba5, 0x3956c25b, 0x59f111f1, 0x923f82a4, 0xab1c5ed5,
    0xd807aa98, 0x12835b01, 0x243185be, 0x550c7dc3, 0x72be5d74, 0x80deb1fe, 0x9bdc06a7, 0xc19bf174,
    0xe49b69c1, 0xefbe4786, 0x0fc19dc6, 0x240ca1cc, 0x2de92c6f, 0x4a7484aa, 0x5cb0a9dc, 0x76f988da,
    0x983e5152, 0xa831c66d, 0xb00327c8, 0xbf597fc7, 0xc6e00bf3, 0xd5a79147, 0x06ca6351, 0x14292967] + [
    0x27b70a85, 0x2e1b2138, 0x4d2c6dfc, 0x53380d13, 0x650a7354, 0x766a0abb, 0x81c2c92e, 0x92722c85,
    0xa2bfe8a1, 0xa81a664b, 0xc24b8b70, 0xc76c51a3, 0xd192e819, 0xd6990624, 0xf40e3585, 0x106aa070,
    0x19a4c116, 0x1e376c08, 0x2748774c, 0x34b0bcb5, 0x391c0cb3, 0x4ed8aa4a, 0x5b9cca4f, 0x682e6ff3,
    0x748f82ee, 0x78a5636f, 0x84c87814, 0x8cc70208, 0x90befffa, 0xa4506ceb, 0xbef9a3f7, 0xc67178f2]

  /** The eight words of the chaining value, or the eight working variables. */
  datatype Words = Words(a: word, b: word, c: word, d: word, e: word, f: word, g: word, h: word)

  const INITIAL := Words(
    0x6a09e667, 0xbb67ae85, 0x3c6ef372, 0xa54ff53a, 0x510e527f, 0x9b05688c, 0x1f83d9ab, 0x5be0cd19)

  // ---------------------------------------------------------------- compression

  function ShiftRight(x: word, n: nat): word {
    DivAtMost(x, Pow2(n));
    x / Pow2(n)
  }

  lemma DivAtMost(x: nat, m: nat)
    requires m > 0
    ensures 0 <= x / m <= x
  {
    if x / m > x {
      MulAtLeast(x / m - x, m);
      MulAtLeast(m, x + 1);
    }
  }

  function RotateRight(x: word, n: nat): word
    requires n <= 32
  {
    (x / Pow2(n) + x * Pow2(32 - n)) % 0x1_0000_0000
  }

  function Xor3(x: word, y: word, z: word): word {
    XorWord(XorWord(x, y), z)
  }

  function BigSigma0(x: word): word {
    Xor3(RotateRight(x, 2), RotateRight(x, 13), RotateRight(x, 22))
  }

  function BigSigma1(x: word): word {
    Xor3(RotateRight(x, 6), RotateRight(x, 11), RotateRight(x, 25))
  }

  function SmallSigma0(x: word): word {
    Xor3(RotateRight(x, 7), RotateRight(x, 18), ShiftRight(x, 3))
  }

  function SmallSigma1(x: word): word {
    Xor3(RotateRight(x, 17), RotateRight(x, 19), ShiftRight(x, 10))
  }

  function Choose(x: word, y: word, z: word): word {
    XorWord(And(x, y), And(NotWord(x), z))
  }

  function Majority(x: word, y: word, z: word): word {
    Xor3(And(x, y), And(x, z), And(y, z))
  }

  /** Four bytes as a big-endian word. */
  function Big(block: seq<byte>, i: nat): word
    requires 4 * i + 4 <= |block|
  {
    var b0: int, b1: int, b2: int, b3: int := block[4 * i], block[4 * i + 1], block[4 * i + 2], block[4 * i + 3];
    b0 * 0x100_0000 + b1 * 0x1_0000 + b2 * 0x100 + b3
  }

  function NextWord(block: seq<byte>, words: seq<word>): word
    requires |block| == 64 && |words| < 64
  {
    var t := |words|;
    if t < 16 then Big(block, t)
    else
      AddWord(AddWord(AddWord(words[t - 16], SmallSigma0(words[t - 15])), words[t - 7]), SmallSigma1(words[t - 2]))
  }

  /** The first `n` words of the message schedule. */
  function Schedule(block: seq<byte>, n: nat): (words: seq<word>)
    requires |block| == 64 && n <= 64
    ensures |words| == n
  {
    if n == 0 then []
    else
      var words := Schedule(block, n - 1);
      words + [NextWord(block, words)]
  }

  function Round(v: Words, k: word, w: word): Words {
    var t1 := AddWord(AddWord(AddWord(AddWord(v.h, BigSigma1(v.e)), Choose(v.e, v.f, v.g)), k), w);
    var t2 := AddWord(BigSigma0(v.a), Majority(v.a, v.b, v.c));
    Words(AddWord(t1, t2), v.a, v.b, v.c, AddWord(v.d, t1), v.e, v.f, v.g)
  }

  /** One round for each word of the schedule. */
  function Rounds(v: Words, words: seq<word>): Words
    requires |words| <= 64
  {
    if words == [] then v
    else
      var n := |words| - 1;
      Round(Rounds(v, words[..n]), ROUND_CONSTANTS[n], words[n])
  }

  function AddWords(x: Words, y: Words): Words {
    Words(AddWord(x.a, y.a), AddWord(x.b, y.b), AddWord(x.c, y.c), AddWord(x.d, y.d),
          AddWord(x.e, y.e), AddWord(x.f, y.f), AddWord(x.g, y.g), AddWord(x.h, y.h))
  }

  function Compress(state: Words, block: seq<byte>): Words
    requires |block| == 64
  {
    AddWords(state, Rounds(state, Schedule(block, |block|)))
  }

  // ---------------------------------------------------------------- the one-shot hash

  /** The whole blocks of `data`, in order. */
  function FoldBlocks(state: Words, data: seq<byte>): Words
    decreases |data|
  {
    if |data| < 64 then state else FoldBlocks(Compress(state, data[..64]), data[64..])
  }

  /** The low `n` bytes of `x`, highest first. */
  function BigEndian(x: nat, n: nat): (r: seq<byte>)
    ensures |r| == n
    decreases n
  {
    if n == 0 then [] else BigEndian(x / 0x100, n - 1) + [x % 0x100]
  }

  /** The message length in bits as eight big-endian bytes. */
  function LengthField(length: nat): (r: seq<byte>)
    ensures |r| == 8
  {
    BigEndian(8 * length, 8)
  }

  function Zeros(n: nat): (r: seq<byte>)
    ensures |r| == n
  {
    seq(n, _ => 0)
  }

  /** The zeros needed to reach 56 modulo 64 after the closing bit. */
  function PadZeros(length: nat): nat {
    if length % 64 < 56 then 55 - length % 64 else 119 - length % 64
  }

  lemma PadFits(length: nat)
    ensures (length + 1 + PadZeros(length) + 8) % 64 == 0
  {
    var q, n := length / 64, length % 64;
    assert length + 9 + PadZeros(length) == 64 * (if n < 56 then q + 1 else q + 2);
  }

  /** No smaller number of zeros would do. */
  lemma PadMinimal(length: nat, z: nat)
    requires z < PadZeros(length)
    ensures (length + 1 + z + 8) % 64 != 0
  {
    var q, n := length / 64, length % 64;
    var r := if n + 9 + z < 64 then n + 9 + z else n + 9 + z - 64;
    assert length + 9 + z == 64 * (if n + 9 + z < 64 then q else q + 1) + r;
  }

  /** One bit, then the fewest zeros that leave room for the length in a whole number of blocks. */
  function Pad(message: seq<byte>): (r: seq<byte>)
    ensures |r| % 64 == 0
  {
    PadFits(|message|);
    message + [0x80] + Zeros(PadZeros(|message|)) + LengthField(|message|)
  }

  function BigBytes(w: word): (r: seq<byte>)
    ensures |r| == 4
  {
    [w / 0x100_0000, w / 0x1_0000 % 0x100, w / 0x100 % 0x100, w % 0x100]
  }

  function Digest(s: Words): (r: seq<byte>)
    ensures |r| == 32
  {
    BigBytes(s.a) + BigBytes(s.b) + BigBytes(s.c) + BigBytes(s.d)
      + BigBytes(s.e) + BigBytes(s.f) + BigBytes(s.g) + BigBytes(s.h)
  }

  function Hash(message: seq<byte>): (digest: seq<byte>)
    ensures |digest| == 32
  {
    Digest(FoldBlocks(INITIAL, Pad(message)))
  }

  lemma {:induction false} FoldAppend(state: Words, a: seq<byte>, b: seq<byte>)
    requires |a| % 64 == 0 && |b| % 64 == 0
    ensures FoldBlocks(state, a + b) == FoldBlocks(FoldBlocks(state, a), b)
    decreases |a|
  {
    hide Compress;
    if a == [] {
      assert a + b == b;
    } else {
      assert (a + b)[..64] == a[..64] && (a + b)[64..] == a[64..] + b;
      FoldAppend(Compress(state, a[..64]), a[64..], b);
    }
  }

  lemma FoldOne(state: Words, a: seq<byte>, block: seq<byte>)
    requires |a| % 64 == 0 && |block| == 64
    ensures FoldBlocks(state, a + block) == Compress(FoldBlocks(state, a), block)
  {
    hide Compress;
    FoldAppend(state, a, block);
    assert block[..64] == block && block[64..] == [];
  }

  // ---------------------------------------------------------------- the streaming context

  const UINT64: nat := 0x1_0000_0000_0000_0000

  class Context {
    var state: Words
    const buffer: array<byte>
    var bytes: nat
    var buffered: nat

    /** `prefix` has been compressed, `pending` is waiting in the buffer. */
    ghost predicate Holding(prefix: seq<byte>, pending: seq<byte>)
      reads this, buffer
    {
      && buffer.Length == 64 && buffered == |pending| < 64 && buffer[..buffered] == pending
      && |prefix| % 64 == 0 && state == FoldBlocks(INITIAL, prefix)
    }

    /** The context has absorbed exactly `message`. */
    ghost predicate Absorbed(message: seq<byte>)
      reads this, buffer
    {
      && buffered <= |message| && bytes == |message| % UINT64
      && Holding(message[..|message| - buffered], message[|message| - buffered..])
    }

    constructor ()
      ensures Absorbed([]) && fresh(buffer)
    {
      hide Compress;
      state := INITIAL;
      buffer := new byte[64](_ => 0);
      bytes := 0;
      buffered := 0;
    }

    method Transform()
      requires buffer.Length == 64
      modifies this`state
      ensures state == Compress(old(state), buffer[..])
    {
      hide Round, NextWord, Compress, AddWords;
      var block := buffer[..];
      assert |block| == 64;
      var words := new word[64](_ => 0);
      for i := 0 to 64
        invariant state == old(state) && words[..i] == Schedule(block, i)
      {
        words[i] := NextWord(block, words[..i]);
        assert words[..i + 1] == words[..i] + [words[i]];
      }
      var v := state;
      for i := 0 to 64
        invariant state == old(state) && v == Rounds(state, words[..i])
      {
        assert words[..i + 1][..i] == words[..i];
        v := Round(v, ROUND_CONSTANTS[i], words[i]);
      }
      assert words[..64] == Schedule(block, |block|);
      CompressIs(state, block);
      state := AddWords(state, v);
    }

    /** Absorb `data`, whatever its size and whatever was absorbed before. */
    method Update(data: seq<byte>, ghost message: seq<byte>)
      requires Absorbed(message)
      modifies this, buffer
      ensures Absorbed(message + data)
    {
      hide Compress, FoldBlocks;
      if data == [] {
        assert message + data == message;
        return;
      }
      ModAdd(|message|, |data|, UINT64);
      bytes := (bytes + |data|) % UINT64;
      var position := 0;
      ghost var prefix, pending := message[..|message| - buffered], message[|message| - buffered..];
      while position < |data|
        invariant position <= |data| && bytes == |message + data| % UINT64
        invariant Holding(prefix, pending) && prefix + pending == message + data[..position]
      {
        ghost var all := prefix + pending;
        ghost var before := position;
        position, prefix, pending := Fill(data, position, prefix, pending);
        assert all + data[before..position] == message + data[..position];
      }
      assert data[..position] == data;
      SplitAt(message + data, prefix, pending);
    }

    /** One round of the copy loop: fill the buffer as far as possible, and compress it when full. */
    method Fill(data: seq<byte>, position: nat, ghost prefix: seq<byte>, ghost pending: seq<byte>)
        returns (next: nat, ghost prefix': seq<byte>, ghost pending': seq<byte>)
      requires position < |data| && Holding(prefix, pending)
      modifies this`state, this`buffered, buffer
      ensures position < next <= |data| && Holding(prefix', pending')
      ensures prefix' + pending' == prefix + pending + data[position..next]
    {
      hide Compress, FoldBlocks;
      var count := if |data| - position < 64 - buffered then |data| - position else 64 - buffered;
      forall k | 0 <= k < count {
        buffer[buffered + k] := data[position + k];
      }
      next := position + count;
      buffered := buffered + count;
      prefix', pending' := prefix, pending + data[position..next];
      assert buffer[..buffered] == pending';
      if buffered == 64 {
        CompressFull(prefix, pending');
        prefix', pending' := prefix + pending', [];
      }
    }

    /** Compress a full buffer. */
    method CompressFull(ghost prefix: seq<byte>, ghost block: seq<byte>)
      requires buffer.Length == 64 == |block| && buffer[..64] == block
      requires |prefix| % 64 == 0 && state == FoldBlocks(INITIAL, prefix)
      modifies this`state, this`buffered
      ensures Holding(prefix + block, [])
    {
      hide Compress, FoldBlocks;
      assert buffer[..] == buffer[..64];
      FoldOne(INITIAL, prefix, block);
      BlockSizes(|prefix|);
      Transform();
      buffered := 0;
    }

    /** `std::fill` from the end of the pending bytes. */
    method ClearTo(end: nat)
      requires buffered <= end <= 64 == buffer.Length
      modifies buffer
      ensures buffer[..end] == old(buffer[..buffered]) + Zeros(end - buffered)
    {
      forall k | buffered <= k < end {
        buffer[k] := 0;
      }
    }

    /** Append the closing bit; if the length no longer fits behind it, close the block with zeros. */
    method CloseMessage(ghost message: seq<byte>) returns (ghost prefix: seq<byte>, ghost pending: seq<byte>)
      requires Absorbed(message)
      modifies this`state, this`buffered, buffer
      ensures Holding(prefix, pending) && |pending| <= 56
      ensures prefix + pending + Zeros(56 - |pending|) == message + [0x80] + Zeros(PadZeros(|message|))
    {
      hide Compress, FoldBlocks;
      prefix := message[..|message| - buffered];
      pending := message[|message| - buffered..] + [0x80];
      assert prefix + pending == message + [0x80];
      Residue(|prefix|, buffered);
      buffer[buffered] := 0x80;
      buffered := buffered + 1;
      assert buffer[..buffered] == pending;
      if buffered > 56 {
        ClearTo(64);
        ghost var block := pending + Zeros(64 - |pending|);
        CompressFull(prefix, block);
        prefix, pending := prefix + block, [];
      }
    }

    /** Pad, compress and emit the digest; the context is spent. */
    method Finish(ghost message: seq<byte>) returns (digest: seq<byte>)
      requires Absorbed(message)
      modifies this, buffer
      ensures digest == Hash(message)
    {
      hide Compress, FoldBlocks, Digest, BigBytes, Zeros, LengthField, PadZeros, Pad;
      var bits := 8 * bytes % UINT64;
      LengthWraps(|message|);
      ghost var prefix, pending := CloseMessage(message);
      ClearTo(56);
      PutLength(bits);
      ghost var block := pending + Zeros(56 - |pending|) + LengthField(|message|);
      assert buffer[..64] == buffer[..56] + buffer[56..];
      CompressFull(prefix, block);
      PadIs(message, prefix, pending);
      digest := Digest(state);
    }

    method PutLength(bits: nat)
      requires buffer.Length == 64
      modifies buffer
      ensures buffer[..56] == old(buffer[..56]) && buffer[56..] == BigEndian(bits, 8)
    {
      var rest := bits;
      for i := 0 to 8
        invariant buffer[..56] == old(buffer[..56])
        invariant BigEndian(rest, 8 - i) + buffer[64 - i..] == BigEndian(bits, 8)
      {
        buffer[63 - i] := rest % 0x100;
        assert buffer[63 - i..] == [rest % 0x100] + buffer[64 - i..];
        rest := rest / 0x100;
      }
    }
  }

  lemma PadIs(message: seq<byte>, prefix: seq<byte>, pending: seq<byte>)
    requires |pending| <= 56
    requires prefix + pending + Zeros(56 - |pending|) == message + [0x80] + Zeros(PadZeros(|message|))
    ensures prefix + (pending + Zeros(56 - |pending|) + LengthField(|message|)) == Pad(message)
  {
    var a, z, l := prefix + pending, Zeros(56 - |pending|), LengthField(|message|);
    assert prefix + (pending + z + l) == (a + z) + l;
  }

  lemma SplitAt(whole: seq<byte>, prefix: seq<byte>, pending: seq<byte>)
    requires whole == prefix + pending
    ensures whole[..|whole| - |pending|] == prefix && whole[|whole| - |pending|..] == pending
  {
  }

  lemma BlockSizes(n: nat)
    requires n % 64 == 0
    ensures (n + 64) % 64 == 0
  {
  }

  lemma Residue(n: nat, r: nat)
    requires n % 64 == 0 && r < 64
    ensures (n + r) % 64 == r
  {
  }

  lemma CompressIs(state: Words, block: seq<byte>)
    requires |block| == 64
    ensures Compress(state, block) == AddWords(state, Rounds(state, Schedule(block, |block|)))
  {
  }

  /** A length counted modulo 2^64 gives the same length field. */
  lemma LengthWraps(length: nat)
    ensures BigEndian(8 * (length % UINT64) % UINT64, 8) == LengthField(length)
  {
    var q, r := length / UINT64, length % UINT64;
    assert 8 * length == (8 * q) * UINT64 + 8 * r;
    ModMultiple(8 * q, 8 * r, UINT64);
    Range8();
    BigEndianWraps(8 * r, 8);
    BigEndianWraps(8 * length, 8);
  }

  function Range(n: nat): (r: nat)
    ensures r > 0
  {
    if n == 0 then 1 else 0x100 * Range(n - 1)
  }

  lemma Range8()
    ensures Range(8) == UINT64
  {
    assert Range(2) == 0x1_0000;
    assert Range(4) == 0x1_0000_0000;
    assert Range(6) == 0x1_0000_0000_0000;
  }

  lemma {:induction false} BigEndianWraps(x: nat, n: nat)
    ensures BigEndian(x % Range(n), n) == BigEndian(x, n)
    decreases n
  {
    if n > 0 {
      DropByte(x, Range(n - 1));
      BigEndianWraps(x / 0x100, n - 1);
    }
  }

  /** Reducing modulo 256 b and then dropping the low byte is reducing the rest modulo b. */
  lemma DropByte(x: nat, b: nat)
    requires b > 0
    ensures (x % (0x100 * b)) % 0x100 == x % 0x100
    ensures (x % (0x100 * b)) / 0x100 == (x / 0x100) % b
  {
    var y, low := x / 0x100, x % 0x100;
    var q, r := y / b, y % b;
    var z := 0x100 * r + low;
    assert x == 0x100 * (q * b + r) + low;
    assert 0x100 * (q * b) == q * (0x100 * b);
    DivUnique(q, z, x / (0x100 * b), x % (0x100 * b), 0x100 * b);
  }

  /** Quotient and remainder are unique. */
  lemma DivUnique(q1: int, r1: int, q2: int, r2: int, m: nat)
    requires 0 <= r1 < m && 0 <= r2 < m && q1 * m + r1 == q2 * m + r2
    ensures q1 == q2 && r1 == r2
  {
    if q1 < q2 {
      MulAtLeast(q2 - q1, m);
    } else if q2 < q1 {
      MulAtLeast(q1 - q2, m);
    }
  }

  lemma MulAtLeast(a: int, m: nat)
    requires a >= 1
    ensures a * m >= m
  {
  }

  lemma ModMultiple(q: nat, r: nat, m: nat)
    requires m > 0
    ensures (q * m + r) % m == r % m
  {
    var x := q * m + r;
    assert x == (q + r / m) * m + r % m;
    DivUnique(x / m, x % m, q + r / m, r % m, m);
  }

  lemma ModAdd(x: nat, y: nat, m: nat)
    requires m > 0
    ensures (x % m + y) % m == (x + y) % m
  {
    assert x + y == (x / m) * m + (x % m + y);
    ModMultiple(x / m, x % m + y, m);
  }

  /** `amt630a_sha256`. */
  method HashOf(data: seq<byte>) returns (digest: seq<byte>)
    ensures digest == Hash(data)
  {
    hide Hash;
    digest := HashChunks([data]);
    ConcatLast([], data);
    assert [] + [data] == [data];
    assert Concat([]) + data == data;
  }

  function Concat(chunks: seq<seq<byte>>): seq<byte> {
    if chunks == [] then [] else chunks[0] + Concat(chunks[1..])
  }

  lemma {:induction false} ConcatLast(chunks: seq<seq<byte>>, chunk: seq<byte>)
    ensures Concat(chunks + [chunk]) == Concat(chunks) + chunk
    decreases |chunks|
  {
    if chunks == [] {
      assert Concat([chunk]) == chunk + Concat([]);
    } else {
      assert (chunks + [chunk])[1..] == chunks[1..] + [chunk];
      ConcatLast(chunks[1..], chunk);
    }
  }

  /** However a message is split into updates, the digest is that of the whole message. */
  method HashChunks(chunks: seq<seq<byte>>) returns (digest: seq<byte>)
    ensures digest == Hash(Concat(chunks))
  {
    hide Hash, Context.Absorbed, FoldBlocks;
    var context := new Context();
    for i := 0 to |chunks|
      invariant context.Absorbed(Concat(chunks[..i])) && fresh(context) && fresh(context.buffer)
    {
      context.Update(chunks[i], Concat(chunks[..i]));
      assert chunks[..i + 1] == chunks[..i] + [chunks[i]];
      ConcatLast(chunks[..i], chunks[i]);
    }
    assert chunks[..|chunks|] == chunks;
    digest := context.Finish(Concat(chunks));
  }
}
