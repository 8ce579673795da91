/** The little-endian `Writer` and `Reader` of the model store.  Pure functions say what each
    `put` appends and what each `get` consumes; the classes are the mutable objects. */
module Wire {
  import opened Bits

  type int8 = x: int | -0x80 <= x < 0x80
  type int16 = x: int | -0x8000 <= x < 0x8000
  type int32 = x: int | -0x8000_0000 <= x < 0x8000_0000
  type uint16 = x: int | 0 <= x < 0x1_0000

  /** A value read, with the position after it; or a failed read. */
  datatype Parsed<+T> = Fail | Done(value: T, pos: nat) {
    predicate IsFailure() { Fail? }
    function PropagateFailure<U>(): Parsed<U> requires Fail? { Fail }
    function Extract(): (T, nat) requires Done? { (value, pos) }
  }

  /** `data` begins with `written`. */
  predicate Starts(written: seq<byte>, data: seq<byte>) {
    |written| <= |data| && data[..|written|] == written
  }

  lemma StartsSelf(data: seq<byte>)
    ensures Starts(data, data)
  {
  }

  // ---------------------------------------------------------------- integers

  function Bound(n: nat): (b: int)
    ensures b >= 1
  {
    if n == 0 then 1 else 0x100 * Bound(n - 1)
  }

  lemma Bounds()
    ensures Bound(1) == 0x100 && Bound(2) == 0x1_0000 && Bound(4) == 0x1_0000_0000
  {
    assert Bound(2) == 0x100 * Bound(1);
    assert Bound(4) == 0x1_0000 * Bound(2);
  }

  /** Append the `n` low bytes of `v`, lowest first. */
  function PutLe(acc: seq<byte>, v: nat, n: nat): (r: seq<byte>)
    ensures |r| == |acc| + n && acc <= r
    decreases n
  {
    if n == 0 then acc else PutLe(acc + [v % 0x100], v / 0x100, n - 1)
  }

  function GetLe(data: seq<byte>, pos: nat, n: nat): (v: nat)
    requires pos + n <= |data|
    ensures v < Bound(n)
    decreases n
  {
    if n == 0 then 0 else data[pos] + 0x100 * GetLe(data, pos + 1, n - 1)
  }

  lemma {:induction false} LeForward(acc: seq<byte>, v: nat, n: nat, data: seq<byte>)
    requires v < Bound(n) && Starts(PutLe(acc, v, n), data)
    ensures Starts(acc, data) && GetLe(data, |acc|, n) == v
    decreases n
  {
    if n > 0 {
      LeForward(acc + [v % 0x100], v / 0x100, n - 1, data);
      assert data[|acc|] == v % 0x100;
      assert data[..|acc|] == data[..|acc| + 1][..|acc|];
    }
  }

  lemma LowByte(b: byte, v: nat)
    ensures (b + 0x100 * v) % 0x100 == b && (b + 0x100 * v) / 0x100 == v
  {
  }

  lemma {:induction false} LeBackward(data: seq<byte>, pos: nat, n: nat)
    requires pos + n <= |data|
    ensures PutLe(data[..pos], GetLe(data, pos, n), n) == data[..pos + n]
    decreases n
  {
    if n > 0 {
      var rest := GetLe(data, pos + 1, n - 1);
      LowByte(data[pos], rest);
      assert data[..pos] + [data[pos]] == data[..pos + 1];
      LeBackward(data, pos + 1, n - 1);
      assert PutLe(data[..pos], data[pos] + 0x100 * rest, n) == PutLe(data[..pos + 1], rest, n - 1);
    }
  }

  // ---------------------------------------------------------------- fields

  /** An unsigned field of `n` bytes. */
  function PutU(acc: seq<byte>, v: nat, n: nat): seq<byte> {
    PutLe(acc, v, n)
  }

  function GetU(data: seq<byte>, pos: nat, n: nat): (r: Parsed<nat>)
    ensures r.Done? ==> r.value < Bound(n) && r.pos == pos + n <= |data|
    ensures r.Done? ==> (n == 1 ==> r.value < 0x100) && (n == 2 ==> r.value < 0x1_0000)
    ensures r.Done? ==> (n == 4 ==> r.value < 0x1_0000_0000)
  {
    Bounds();
    if pos + n > |data| then Fail else Done(GetLe(data, pos, n), pos + n)
  }

  /** A two's-complement field of `n` bytes. */
  function PutI(acc: seq<byte>, v: int, n: nat): seq<byte> {
    PutLe(acc, if 0 <= v then v else if v + Bound(n) < 0 then 0 else v + Bound(n), n)
  }

  function GetI(data: seq<byte>, pos: nat, n: nat): (r: Parsed<int>)
    ensures r.Done? ==> -Bound(n) <= 2 * r.value < Bound(n) && r.pos == pos + n <= |data|
    ensures r.Done? ==> (n == 1 ==> -0x80 <= r.value < 0x80) && (n == 2 ==> -0x8000 <= r.value < 0x8000)
    ensures r.Done? ==> (n == 4 ==> -0x8000_0000 <= r.value < 0x8000_0000)
  {
    Bounds();
    if pos + n > |data| then Fail
    else
      var raw := GetLe(data, pos, n);
      Done(if 2 * raw >= Bound(n) then raw - Bound(n) else raw, pos + n)
  }

  function PutBool(acc: seq<byte>, v: bool): seq<byte> {
    PutLe(acc, if v then 1 else 0, 1)
  }

  /** A byte above 1 is not a boolean. */
  function GetBool(data: seq<byte>, pos: nat): (r: Parsed<bool>)
    ensures r.Done? ==> r.pos == pos + 1 <= |data|
  {
    if pos + 1 > |data| || GetLe(data, pos, 1) > 1 then Fail
    else Done(GetLe(data, pos, 1) != 0, pos + 1)
  }

  /** Every field is read back as written, and what was read is written again as it was. */
  lemma FieldsForward()
    ensures forall acc: seq<byte>, v: nat, n: nat, data: seq<byte> {:trigger Starts(PutU(acc, v, n), data)} ::
      v < Bound(n) && Starts(PutU(acc, v, n), data) ==>
        Starts(acc, data) && GetU(data, |acc|, n) == Done(v, |PutU(acc, v, n)|)
    ensures forall acc: seq<byte>, v: int, n: nat, data: seq<byte> {:trigger Starts(PutI(acc, v, n), data)} ::
      -Bound(n) <= 2 * v < Bound(n) && Starts(PutI(acc, v, n), data) ==>
        Starts(acc, data) && GetI(data, |acc|, n) == Done(v, |PutI(acc, v, n)|)
    ensures forall acc: seq<byte>, v: bool, data: seq<byte> {:trigger Starts(PutBool(acc, v), data)} ::
      Starts(PutBool(acc, v), data) ==>
        Starts(acc, data) && GetBool(data, |acc|) == Done(v, |PutBool(acc, v)|)
  {
    Bounds();
    forall acc: seq<byte>, v: nat, n: nat, data: seq<byte> | v < Bound(n) && Starts(PutU(acc, v, n), data)
      ensures Starts(acc, data) && GetU(data, |acc|, n) == Done(v, |PutU(acc, v, n)|)
    {
      LeForward(acc, v, n, data);
    }
    forall acc: seq<byte>, v: int, n: nat, data: seq<byte> |
        -Bound(n) <= 2 * v < Bound(n) && Starts(PutI(acc, v, n), data)
      ensures Starts(acc, data) && GetI(data, |acc|, n) == Done(v, |PutI(acc, v, n)|)
    {
      LeForward(acc, if 0 <= v then v else v + Bound(n), n, data);
    }
    forall acc: seq<byte>, v: bool, data: seq<byte> | Starts(PutBool(acc, v), data)
      ensures Starts(acc, data) && GetBool(data, |acc|) == Done(v, |PutBool(acc, v)|)
    {
      LeForward(acc, if v then 1 else 0, 1, data);
    }
  }

  lemma FieldsBackward()
    ensures forall data: seq<byte>, pos: nat, n: nat {:trigger GetU(data, pos, n)} ::
      GetU(data, pos, n).Done? ==>
        PutU(data[..pos], GetU(data, pos, n).value, n) == data[..pos + n]
    ensures forall data: seq<byte>, pos: nat, n: nat {:trigger GetI(data, pos, n)} ::
      GetI(data, pos, n).Done? ==>
        PutI(data[..pos], GetI(data, pos, n).value, n) == data[..pos + n]
    ensures forall data: seq<byte>, pos: nat {:trigger GetBool(data, pos)} ::
      GetBool(data, pos).Done? ==>
        PutBool(data[..pos], GetBool(data, pos).value) == data[..pos + 1]
  {
    Bounds();
    forall data: seq<byte>, pos: nat, n: nat | GetU(data, pos, n).Done?
      ensures PutU(data[..pos], GetU(data, pos, n).value, n) == data[..pos + n]
    {
      LeBackward(data, pos, n);
    }
    forall data: seq<byte>, pos: nat, n: nat | GetI(data, pos, n).Done?
      ensures PutI(data[..pos], GetI(data, pos, n).value, n) == data[..pos + n]
    {
      LeBackward(data, pos, n);
    }
    forall data: seq<byte>, pos: nat | GetBool(data, pos).Done?
      ensures PutBool(data[..pos], GetBool(data, pos).value) == data[..pos + 1]
    {
      LeBackward(data, pos, 1);
    }
  }

  // ---------------------------------------------------------------- codecs

  /** A printer, the parser that should undo it, and the values the parser accepts. */
  datatype Codec<!T> = Codec(
    put: (seq<byte>, T) -> seq<byte>,
    get: (seq<byte>, nat) -> Parsed<T>,
    ok: T -> bool)

  /** What the printer wrote, the parser reads back. */
  ghost predicate Forward<T(!new)>(c: Codec<T>) {
    forall acc: seq<byte>, x: T, data: seq<byte> ::
      c.ok(x) && Starts(c.put(acc, x), data) ==>
        Starts(acc, data) && c.get(data, |acc|) == Done(x, |c.put(acc, x)|)
  }

  /** What the parser read, the printer writes again, byte for byte. */
  ghost predicate Backward<T(!new)>(c: Codec<T>) {
    forall data: seq<byte>, pos: nat :: pos <= |data| && c.get(data, pos).Done? ==>
      var r := c.get(data, pos);
      c.ok(r.value) && pos <= r.pos <= |data| && c.put(data[..pos], r.value) == data[..r.pos]
  }

  ghost predicate Lawful<T(!new)>(c: Codec<T>) {
    Forward(c) && Backward(c)
  }

  // ---------------------------------------------------------------- tables

  /** The entries of a table, in order. */
  function PutTable<T>(c: Codec<T>, acc: seq<byte>, xs: seq<T>): seq<byte> {
    if xs == [] then acc else c.put(PutTable(c, acc, xs[..|xs| - 1]), xs[|xs| - 1])
  }

  function GetTable<T>(c: Codec<T>, data: seq<byte>, pos: nat, n: nat): (r: Parsed<seq<T>>)
    ensures r.Done? ==> |r.value| == n
    decreases n
  {
    if n == 0 then Done([], pos)
    else
      var (xs, p) :- GetTable(c, data, pos, n - 1);
      var (x, q) :- c.get(data, p);
      Done(xs + [x], q)
  }

  ghost predicate AllOk<T>(c: Codec<T>, xs: seq<T>) {
    forall i :: 0 <= i < |xs| ==> c.ok(xs[i])
  }

  lemma {:induction false} TableForward<T(!new)>(c: Codec<T>, acc: seq<byte>, xs: seq<T>, data: seq<byte>)
    requires Forward(c) && AllOk(c, xs) && Starts(PutTable(c, acc, xs), data)
    ensures Starts(acc, data)
    ensures GetTable(c, data, |acc|, |xs|) == Done(xs, |PutTable(c, acc, xs)|)
    decreases |xs|
  {
    if xs != [] {
      var init := xs[..|xs| - 1];
      assert Starts(PutTable(c, acc, init), data);
      TableForward(c, acc, init, data);
      assert xs == init + [xs[|xs| - 1]];
    }
  }

  lemma {:induction false} TableBackward<T(!new)>(c: Codec<T>, data: seq<byte>, pos: nat, n: nat)
    requires Backward(c) && pos <= |data| && GetTable(c, data, pos, n).Done?
    ensures var r := GetTable(c, data, pos, n);
      AllOk(c, r.value) && pos <= r.pos <= |data| && PutTable(c, data[..pos], r.value) == data[..r.pos]
    decreases n
  {
    if n > 0 {
      TableBackward(c, data, pos, n - 1);
      var r := GetTable(c, data, pos, n);
      assert r.value[..n - 1] == GetTable(c, data, pos, n - 1).value;
    }
  }

  /** A table of entries of `size` bytes each. */
  lemma {:induction false} TableSize<T(!new)>(c: Codec<T>, acc: seq<byte>, xs: seq<T>, size: nat)
    requires forall a: seq<byte>, x: T :: |c.put(a, x)| == |a| + size
    ensures |PutTable(c, acc, xs)| == |acc| + size * |xs|
    decreases |xs|
  {
    if xs != [] {
      TableSize(c, acc, xs[..|xs| - 1], size);
    }
  }

  /** A table that fails early fails as a whole. */
  lemma {:induction false} TableFails<T>(c: Codec<T>, data: seq<byte>, pos: nat, i: nat, n: nat)
    requires i <= n && GetTable(c, data, pos, i).Fail?
    ensures GetTable(c, data, pos, n).Fail?
    decreases n
  {
    if i < n {
      TableFails(c, data, pos, i, n - 1);
    }
  }
}
