/** Sixteen channels in eleven bits each: the packing loop of the transmitter and the unpacking loop of
    the simulated module.  Both re-read one number, written in base 2^11 and in base 2^8. */
module CrsfPacking {
  import opened Bits
  import opened Wire
  import opened Safety
  import opened Crc

  const ADDRESS_MODULE: byte := 0xEE
  const FRAME_RC_CHANNELS: byte := 0x16
  const MAXIMUM_FRAME_SIZE := 64

  // ---------------------------------------------------------------- cutting a number at a bit

  /** The `k` lowest bits. */
  function Low(x: nat, k: nat): nat
    decreases k
  {
    if k == 0 then 0 else x % 2 + 2 * Low(x / 2, k - 1)
  }

  /** The bits from `k` on. */
  function High(x: nat, k: nat): nat
    decreases k
  {
    if k == 0 then x else High(x / 2, k - 1)
  }

  lemma {:induction false} LowBound(x: nat, k: nat)
    ensures Low(x, k) < Pow2(k)
    decreases k
  {
    if k > 0 {
      LowBound(x / 2, k - 1);
    }
  }

  lemma {:induction false} HighBound(x: nat, j: nat, k: nat)
    requires x < Pow2(j + k)
    ensures High(x, k) < Pow2(j)
    decreases k
  {
    if k > 0 {
      HighBound(x / 2, j, k - 1);
    }
  }

  lemma {:induction false} Recompose(x: nat, k: nat)
    ensures x == Low(x, k) + Shl(High(x, k), k)
    decreases k
  {
    if k > 0 {
      Recompose(x / 2, k - 1);
    }
  }

  lemma {:induction false} Cut(d: nat, y: nat, k: nat)
    requires d < Pow2(k)
    ensures Low(d + Shl(y, k), k) == d && High(d + Shl(y, k), k) == y
    decreases k
  {
    if k > 0 {
      var x := d + Shl(y, k);
      assert x % 2 == d % 2 && x / 2 == d / 2 + Shl(y, k - 1);
      Cut(d / 2, y, k - 1);
    }
  }

  /** What `&` with a mask of ones computes. */
  lemma {:induction false} AndMask(x: nat, k: nat)
    ensures And(x, Pow2(k) - 1) == Low(x, k)
    decreases k
  {
    if k == 0 {
      AndNothing(x);
    } else if x == 0 {
      LowNothing(k);
    } else {
      AndMask(x / 2, k - 1);
      Ones(k);
      assert And(x, Pow2(k) - 1) == x % 2 + 2 * And(x / 2, Pow2(k - 1) - 1);
      hide And, Pow2;
    }
  }

  /** A mask of ones ends in a one, in front of a shorter mask. */
  lemma Ones(k: nat)
    requires k > 0
    ensures (Pow2(k) - 1) / 2 == Pow2(k - 1) - 1 && (Pow2(k) - 1) % 2 == 1
  {
  }

  lemma {:induction false} AndNothing(x: nat)
    ensures And(x, 0) == 0
    decreases x
  {
    if x > 0 {
      AndNothing(x / 2);
    }
  }

  lemma {:induction false} LowNothing(k: nat)
    ensures Low(0, k) == 0
    decreases k
  {
    if k > 0 {
      LowNothing(k - 1);
    }
  }

  lemma HighByte(x: nat)
    ensures High(x, 8) == x / 256
  {
    assert High(x, 4) == x / 16;
    assert High(x, 8) == High(x / 16, 4) by {
      assert High(x, 8) == High(x / 2, 7) == High(x / 4, 6) == High(x / 8, 5);
    }
  }

  lemma HighEleven(x: nat)
    ensures High(x, 11) == x / 2048
  {
    assert High(x, 11) == High(x / 2, 10) == High(x / 4, 9) == High(x / 8, 8);
    HighByte(x / 8);
  }

  // ---------------------------------------------------------------- numbers and their digits

  predicate AreDigits(width: nat, s: seq<nat>) {
    forall i :: 0 <= i < |s| ==> s[i] < Pow2(width)
  }

  /** The number with the given digits of `width` bits, least significant first. */
  function Number(width: nat, s: seq<nat>): nat
    decreases |s|
  {
    if s == [] then 0 else s[0] + Shl(Number(width, s[1..]), width)
  }

  /** The `n` lowest digits of a number. */
  function Digits(width: nat, n: nat, x: nat): (s: seq<nat>)
    ensures |s| == n && AreDigits(width, s)
    decreases n
  {
    LowBound(x, width);
    if n == 0 then [] else [Low(x, width)] + Digits(width, n - 1, High(x, width))
  }

  lemma {:induction false} ShlAdd(x: nat, y: nat, k: nat)
    ensures Shl(x + y, k) == Shl(x, k) + Shl(y, k)
    decreases k
  {
    if k > 0 {
      ShlAdd(x, y, k - 1);
    }
  }

  lemma {:induction false} ShlShl(x: nat, j: nat, k: nat)
    ensures Shl(Shl(x, j), k) == Shl(x, j + k)
    decreases k
  {
    if k > 0 {
      ShlShl(x, j, k - 1);
    }
  }

  lemma {:induction false} ShlBound(x: nat, j: nat, k: nat)
    requires x < Pow2(j)
    ensures Shl(x, k) + Pow2(k) <= Pow2(j + k)
    decreases k
  {
    if k > 0 {
      ShlBound(x, j, k - 1);
    }
  }

  lemma {:induction false} ShlZero(k: nat)
    ensures Shl(0, k) == 0
    decreases k
  {
    if k > 0 {
      ShlZero(k - 1);
    }
  }

  lemma {:induction false} NumberAppend(width: nat, a: seq<nat>, d: nat)
    ensures Number(width, a + [d]) == Number(width, a) + Shl(d, width * |a|)
    decreases |a|
  {
    if a == [] {
      assert [] + [d] == [d];
      assert Number(width, [d]) == d + Shl(Number(width, []), width);
      ShlZero(width);
    } else {
      assert (a + [d])[1..] == a[1..] + [d];
      NumberAppend(width, a[1..], d);
      ShlAdd(Number(width, a[1..]), Shl(d, width * (|a| - 1)), width);
      ShlShl(d, width * (|a| - 1), width);
      OneMore(width, |a| - 1);
    }
  }

  /** Digits and number determine each other. */
  lemma {:induction false} DigitsOfNumber(width: nat, s: seq<nat>)
    requires AreDigits(width, s)
    ensures Digits(width, |s|, Number(width, s)) == s
    decreases |s|
  {
    if s != [] {
      Cut(s[0], Number(width, s[1..]), width);
      DigitsOfNumber(width, s[1..]);
    }
  }

  // ---------------------------------------------------------------- one channel

  function Clamp(low: int, value: int, high: int): (r: int)
    requires low <= high
    ensures low <= r <= high
  {
    if value < low then low else if value > high then high else value
  }

  /** Division that rounds toward zero. */
  function Truncate(a: int, b: int): int
    requires b > 0
  {
    if a >= 0 then a / b else -(-a / b)
  }

  function ToCrsf(channel: int16): (v: nat)
    ensures 172 <= v <= 1811
  {
    Clamp(172, 992 + Truncate(channel * 820, 1024), 1811)
  }

  function FromCrsf(v: nat): (channel: int16)
    ensures -1024 <= channel <= 1024
  {
    Clamp(-1024, Truncate((v - 992) * 1024, 820), 1024)
  }

  /** A channel in range comes back within 2, and never larger in magnitude. */
  lemma ChannelSurvives(channel: int16)
    requires -1024 <= channel <= 1024
    ensures var back := FromCrsf(ToCrsf(channel));
      && -2 <= back - channel <= 2
      && (channel >= 0 ==> 0 <= back <= channel)
      && (channel <= 0 ==> channel <= back <= 0)
  {
  }

  /** The ends and the centre of a channel are the ends and the centre of the protocol's range, and more is never sent
      as less. */
  lemma ChannelScale(channel: int16, more: int16)
    ensures ToCrsf(-1024) == 172 && ToCrsf(0) == 992 && ToCrsf(1024) == 1811
    ensures FromCrsf(172) == -1024 && FromCrsf(992) == 0 && FromCrsf(1811) == 1022
    ensures channel <= more ==> ToCrsf(channel) <= ToCrsf(more)
    ensures 0 <= channel <= 1023 ==> 1024 * (ToCrsf(channel) - 992) <= 820 * channel < 1024 * (ToCrsf(channel) - 991)
    ensures -1024 <= channel <= 0 ==> 1024 * (992 - ToCrsf(channel)) <= 820 * -channel < 1024 * (993 - ToCrsf(channel))
  {
  }

  /** The values sent for a frame of channels. */
  function Values(channels: Channels): (s: seq<nat>)
    ensures |s| == 16 && AreDigits(11, s)
  {
    Pow2Values();
    seq(16, i requires 0 <= i < 16 => ToCrsf(channels[i]))
  }

  // ---------------------------------------------------------------- packing

  /** The 22 payload bytes: the channels' number in base 256. */
  function Payload(channels: Channels): (s: seq<byte>)
    ensures |s| == 22
  {
    Pow2Values();
    var digits := Digits(8, 22, Number(11, Values(channels)));
    seq(22, i requires 0 <= i < 22 => digits[i] as byte)
  }

  function ChannelsFrame(channels: Channels): (f: seq<byte>)
    ensures |f| == 26
  {
    var body := [FRAME_RC_CHANNELS] + Payload(channels);
    [ADDRESS_MODULE, 24] + body + [Crc8(body)]
  }

  /** A frame of channels goes to the module, with its length, its type, the payload and the checksum of both. */
  lemma FrameLayout(channels: Channels)
    ensures var f := ChannelsFrame(channels);
      && f[0] == 0xEE && f[1] == 24 && f[2] == 0x16 && f[3..25] == Payload(channels) && f[25] == Crc8(f[2..25])
  {
    hide Payload, Crc8;
    var f := ChannelsFrame(channels);
    assert f[2..25] == [0x16] + Payload(channels);
  }

  /** The channels the simulated module reads from a payload. */
  function Unpacked(payload: seq<byte>): (channels: Channels)
    requires |payload| == 22
  {
    var values := Digits(11, 16, Number(8, payload));
    seq(16, i requires 0 <= i < 16 => FromCrsf(values[i]))
  }

  /** Every channel value survives the packing: only the scaling of each channel by itself is left. */
  lemma PackingRoundTrip(channels: Channels, i: nat)
    requires i < 16
    ensures Number(8, Payload(channels)) == Number(11, Values(channels))
    ensures Unpacked(Payload(channels))[i] == FromCrsf(ToCrsf(channels[i]))
    ensures -1024 <= channels[i] <= 1024 ==> -2 <= Unpacked(Payload(channels))[i] - channels[i] <= 2
  {
    var values, payload := Values(channels), Payload(channels);
    var x := Number(11, values);
    assert payload == Digits(8, 22, x);
    NumberBound(11, values);
    assert 11 * |values| == 8 * 22;
    NumberOfDigits(8, 22, x);
    DigitsOfNumber(11, values);
    if -1024 <= channels[i] <= 1024 {
      ChannelSurvives(channels[i]);
    }
  }

  lemma {:induction false} NumberBound(width: nat, s: seq<nat>)
    requires AreDigits(width, s)
    ensures Number(width, s) < Pow2(width * |s|)
    decreases |s|
  {
    if s != [] {
      var n := width * (|s| - 1);
      NumberBound(width, s[1..]);
      ShlBound(Number(width, s[1..]), n, width);
      assert n + width == width * |s|;
    }
  }

  lemma {:induction false} NumberOfDigits(width: nat, n: nat, x: nat)
    requires x < Pow2(width * n)
    ensures Number(width, Digits(width, n, x)) == x
    decreases n
  {
    if n > 0 {
      assert width * (n - 1) + width == width * n;
      HighBound(x, width * (n - 1), width);
      NumberOfDigits(width, n - 1, High(x, width));
      Recompose(x, width);
    } else {
      assert width * n == 0;
    }
  }

  // ---------------------------------------------------------------- the loops

  /** Re-reading digits of one width as digits of another: what has come out, the bits held back in the
      accumulator and the digits still to come make up the same number. */
  ghost predicate Carries(from: nat, to: nat, values: seq<nat>, i: nat, out: seq<nat>, acc: nat, bits: nat)
    requires i <= |values|
  {
    && acc < Pow2(bits) && bits + to * |out| == from * i && AreDigits(to, out)
    && Number(to, out) + Shl(acc + Shl(Number(from, values[i..]), bits), to * |out|) == Number(from, values)
  }

  lemma Accumulate(from: nat, to: nat, values: seq<nat>, i: nat, out: seq<nat>, acc: nat, bits: nat)
    requires i < |values| && AreDigits(from, values) && Carries(from, to, values, i, out, acc, bits)
    ensures var merged := Or(acc, Shl(values[i], bits));
      merged == acc + Shl(values[i], bits) && Carries(from, to, values, i + 1, out, merged, bits + from)
  {
    hide Shl, Pow2, Or;
    var rest := Number(from, values[i + 1..]);
    ShlBound(values[i], from, bits);
    OrDisjoint(acc, values[i], bits);
    assert values[i..][1..] == values[i + 1..];
    assert Number(from, values[i..]) == values[i] + Shl(rest, from);
    ShlAdd(values[i], Shl(rest, from), bits);
    ShlShl(rest, from, bits);
    assert from + bits == bits + from;
    assert acc + Shl(Number(from, values[i..]), bits) == (acc + Shl(values[i], bits)) + Shl(rest, bits + from);
    OneMore(from, i);
  }

  /** Nothing is shifted out of the 32-bit accumulator. */
  lemma NoOverflow(v: nat, width: nat, bits: nat)
    requires v < Pow2(width) && width + bits <= 18
    ensures Shl(v, bits) < 0x4_0000
  {
    ShlBound(v, width, bits);
    Pow2Mono(width + bits, 18);
    Pow2Values();
  }

  lemma Emit(from: nat, to: nat, values: seq<nat>, i: nat, out: seq<nat>, acc: nat, bits: nat)
    requires i <= |values| && Carries(from, to, values, i, out, acc, bits) && bits >= to
    ensures Carries(from, to, values, i, out + [Low(acc, to)], High(acc, to), bits - to)
  {
    hide Shl, Pow2, Low, High, Number;
    var low, high, rest, n := Low(acc, to), High(acc, to), Number(from, values[i..]), to * |out|;
    LowBound(acc, to);
    assert bits - to + to == bits;
    HighBound(acc, bits - to, to);
    NumberAppend(to, out, low);
    CutTotal(acc, rest, to, bits - to, n);
    OneMore(to, |out|);
  }

  lemma OneMore(width: nat, n: nat)
    ensures width * (n + 1) == width * n + width
  {
  }

  /** Cutting `k` bits off the accumulator does not change the total. */
  lemma CutTotal(acc: nat, rest: nat, k: nat, bits: nat, n: nat)
    ensures Shl(acc + Shl(rest, bits + k), n) == Shl(Low(acc, k), n) + Shl(High(acc, k) + Shl(rest, bits), n + k)
  {
    hide Shl, Low, High;
    var low, high := Low(acc, k), High(acc, k);
    Recompose(acc, k);
    ShlShl(rest, bits, k);
    ShlAdd(high, Shl(rest, bits), k);
    assert acc + Shl(rest, bits + k) == low + Shl(high + Shl(rest, bits), k);
    ShlAdd(low, Shl(high + Shl(rest, bits), k), n);
    ShlShl(high + Shl(rest, bits), k, n);
    assert k + n == n + k;
  }

  /** All digits in and no bit left: the digits that came out are the digits of the number. */
  lemma Finished(from: nat, to: nat, values: seq<nat>, out: seq<nat>, acc: nat)
    requires Carries(from, to, values, |values|, out, acc, 0)
    ensures acc == 0 && out == Digits(to, |out|, Number(from, values))
  {
    ShlZero(0);
    ShlZero(to * |out|);
    DigitsOfNumber(to, out);
  }

  method MakeChannelsFrame(channels: Channels) returns (bytes: array<byte>, size: nat)
    ensures fresh(bytes) && bytes.Length == MAXIMUM_FRAME_SIZE && size == 26
    ensures bytes[..size] == ChannelsFrame(channels)
  {
    hide Carries, Number, Digits, Crc8, Shl, Or, And, Low, High, Pow2;
    bytes := new byte[64](_ => 0);
    bytes[0] := ADDRESS_MODULE;
    bytes[1] := 24;
    bytes[2] := FRAME_RC_CHANNELS;
    var accumulator: nat, available: nat, output: nat := 0, 0, 3;
    ghost var values, out: seq<nat> := Values(channels), [];
    CarriesNothing(values);
    for i := 0 to 16
      invariant bytes.Length == 64 && fresh(bytes)
      invariant Carries(11, 8, values, i, out, accumulator, available) && available < 8
      invariant available + 8 * |out| == 11 * i && output == 3 + |out|
      invariant bytes[..3] == [ADDRESS_MODULE, 24, FRAME_RC_CHANNELS]
      invariant forall k :: 0 <= k < |out| ==> bytes[3 + k] == out[k]
    {
      var value := ToCrsf(channels[i]);
      Pow2Values();
      Accumulate(11, 8, values, i, out, accumulator, available);
      NoOverflow(value, 11, available);
      accumulator := Or(accumulator, Shl(value, available) % 0x1_0000_0000);
      available := available + 11;
      while available >= 8
        invariant bytes.Length == 64 && fresh(bytes)
        invariant Carries(11, 8, values, i + 1, out, accumulator, available)
        invariant available + 8 * |out| == 11 * (i + 1) && output == 3 + |out|
        invariant bytes[..3] == [ADDRESS_MODULE, 24, FRAME_RC_CHANNELS]
        invariant forall k :: 0 <= k < |out| ==> bytes[3 + k] == out[k]
      {
        Emit(11, 8, values, i + 1, out, accumulator, available);
        AndMask(accumulator, 8);
        HighByte(accumulator);
        LowBound(accumulator, 8);
        Pow2Values();
        bytes[output] := And(accumulator, 0xFF);
        output := output + 1;
        out := out + [Low(accumulator, 8)];
        accumulator := accumulator / 256;
        available := available - 8;
      }
    }
    Finished(11, 8, values, out, accumulator);
    assert bytes[3..25] == Payload(channels);
    assert bytes[2..output] == [FRAME_RC_CHANNELS] + Payload(channels);
    var crc := ComputeCrc8(bytes[2..output]);
    bytes[output] := crc;
    size := output + 1;
    assert bytes[..size] == bytes[..2] + bytes[2..25] + [bytes[25]];
  }

  lemma CarriesNothing(values: seq<nat>)
    ensures Carries(11, 8, values, 0, [], 0, 0) && Carries(8, 11, values, 0, [], 0, 0)
  {
    assert values[0..] == values;
  }

  lemma Balance(payload: seq<nat>, i: nat, out: seq<nat>, acc: nat, bits: nat)
    requires i <= |payload| && Carries(8, 11, payload, i, out, acc, bits)
    ensures bits + 11 * |out| == 8 * i
  {
  }

  /** Take bytes in until a whole channel is there or the payload ends. */
  method Fetch(data: seq<byte>, held: nat, heldBits: nat, from: nat, ghost out: seq<nat>)
    returns (accumulator: nat, available: nat, input: nat)
    requires |data| == 26 && 3 <= from <= 25 && heldBits < 11
    requires Carries(8, 11, data[3..25], from - 3, out, held, heldBits)
    ensures from <= input <= 25 && (available >= 11 || input == 25)
    ensures Carries(8, 11, data[3..25], input - 3, out, accumulator, available) && available < 19
  {
    hide Carries, Number, Digits, Shl, Or, Pow2;
    accumulator, available, input := held, heldBits, from;
    BytesAreDigits(data[3..25]);
    while available < 11 && input < |data| - 1
      invariant from <= input <= 25 && available < 19
      invariant Carries(8, 11, data[3..25], input - 3, out, accumulator, available)
      decreases 25 - input
    {
      Accumulate(8, 11, data[3..25], input - 3, out, accumulator, available);
      Pow2Values();
      NoOverflow(data[input], 8, available);
      accumulator := Or(accumulator, Shl(data[input], available) % 0x1_0000_0000);
      input := input + 1;
      available := available + 8;
    }
  }

  method UnpackChannels(data: seq<byte>) returns (channels: array<int16>)
    requires |data| == 26
    ensures fresh(channels) && channels.Length == 16 && channels[..] == Unpacked(data[3..25])
  {
    hide Carries, Number, Digits, Shl, Or, And, Low, High, Pow2, FromCrsf;
    channels := new int16[16](_ => 0);
    var accumulator: nat, available: nat, input: nat := 0, 0, 3;
    ghost var payload: seq<nat>, out: seq<nat> := data[3..25], [];
    CarriesNothing(payload);
    for i := 0 to 16
      invariant channels.Length == 16 && fresh(channels) && |out| == i && 3 <= input <= 25
      invariant Carries(8, 11, payload, input - 3, out, accumulator, available) && available < 11
      invariant available + 11 * |out| == 8 * (input - 3)
      invariant forall k :: 0 <= k < i ==> channels[k] == FromCrsf(out[k])
    {
      accumulator, available, input := Fetch(data, accumulator, available, input, out);
      Balance(payload, input - 3, out, accumulator, available);
      Emit(8, 11, payload, input - 3, out, accumulator, available);
      AndMask(accumulator, 11);
      HighEleven(accumulator);
      Pow2Values();
      var value := And(accumulator, 0x7FF);
      out := out + [value];
      accumulator := accumulator / 2048;
      available := available - 11;
      channels[i] := FromCrsf(value);
    }
    Finished(8, 11, payload, out, accumulator);
  }

  lemma BytesAreDigits(s: seq<byte>)
    ensures AreDigits(8, s)
  {
    Pow2Values();
  }
}
