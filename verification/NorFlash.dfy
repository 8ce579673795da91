/** The serial NOR flash behind the AMT630A, with the answers of the bus left to the environment. */
module NorFlash {
  import opened Bits

  const FLASH_SIZE := 0x1_0000
  const PAGE_SIZE := 256

  type Memory = m: seq<byte> | |m| == 0x1_0000 witness seq(0x1_0000, _ => 0xFF)

  /** `latch` is the write-enable latch, `owned` the mux position. */
  datatype Flash = Flash(mem: Memory, latch: bool, busy: bool, owned: bool)

  datatype Runtime = Runtime(booted: bool, videoPresent: bool, panelTimingActive: bool)

  /** What the environment answers to the next hardware call: whether it succeeds, whether a failed
      command took effect nevertheless, and the values it delivers. */
  datatype Reply = Reply(
    ok: bool, effect: bool, word: nat, busy: bool, faithful: bool, noise: seq<byte>, runtime: Runtime)

  /** Switching the mux to the chip.  An erase or program begun before, by a run that was cut off, may have
      ended by itself since. */
  function Acquire(d: Flash, r: Reply): Flash {
    if r.ok && !d.owned then d.(owned := true, busy := d.busy && r.busy) else d
  }

  function Release(d: Flash): Flash {
    d.(owned := false)
  }

  /** Commands reach the chip when the call succeeds, and possibly when it fails. */
  predicate Delivered(r: Reply) {
    r.ok || r.effect
  }

  /** A busy chip ignores every command but the status poll. */
  function WriteEnable(d: Flash, r: Reply): Flash {
    if Delivered(r) && !d.busy then d.(latch := true) else d
  }

  function Erased(): Memory {
    seq(0x1_0000, _ => 0xFF)
  }

  function ChipErase(d: Flash, r: Reply): Flash {
    if Delivered(r) && !d.busy && d.latch then Flash(Erased(), false, true, d.owned) else d
  }

  function AndByte(x: byte, y: byte): byte {
    And(x, y)
  }

  /** The data byte that lands on cell `i`: addresses wrap inside the 256-byte page. */
  function Column(address: nat, i: nat): nat {
    (i % PAGE_SIZE + PAGE_SIZE - address % PAGE_SIZE) % PAGE_SIZE
  }

  predicate Touched(address: nat, size: nat, i: nat) {
    i / PAGE_SIZE == address / PAGE_SIZE && Column(address, i) < size
  }

  /** Programming can only clear bits. */
  function Programmed(mem: Memory, address: nat, data: seq<byte>): Memory {
    seq(0x1_0000, i requires 0 <= i < 0x1_0000 =>
      if Touched(address, |data|, i) then AndByte(mem[i], data[Column(address, i)]) else mem[i])
  }

  function ProgramPage(d: Flash, address: nat, data: seq<byte>, r: Reply): Flash {
    if Delivered(r) && !d.busy && d.latch then Flash(Programmed(d.mem, address, data), false, true, d.owned) else d
  }

  /** When the chip reports that it is idle, it is. */
  function Poll(d: Flash, r: Reply): Flash {
    if r.ok && !r.busy then d.(busy := false) else d
  }

  function ReadBack(d: Flash, address: nat, size: nat, r: Reply): (data: seq<byte>)
    requires address + size <= FLASH_SIZE
    ensures |data| == size
  {
    if r.faithful then d.mem[address..address + size]
    else seq(size, i requires 0 <= i < size => if i < |r.noise| then r.noise[i] else 0)
  }

  lemma {:induction false} AndOnes(x: nat, k: nat)
    requires x < Pow2(k)
    ensures And(Pow2(k) - 1, x) == x
    decreases k
  {
    if k > 0 {
      assert (Pow2(k) - 1) / 2 == Pow2(k - 1) - 1 && (Pow2(k) - 1) % 2 == 1;
      AndOnes(x / 2, k - 1);
    } else {
      assert And(0, 0) == 0;
    }
  }

  /** Within one page, programming writes exactly `data` onto erased cells and leaves the rest. */
  lemma ProgramErased(mem: Memory, address: nat, data: seq<byte>)
    requires address % PAGE_SIZE == 0 && 0 < |data| <= PAGE_SIZE && address + |data| <= FLASH_SIZE
    requires forall i :: address <= i < FLASH_SIZE ==> mem[i] == 0xFF
    ensures var m := Programmed(mem, address, data);
      && m[..address] == mem[..address] && m[address..address + |data|] == data
      && forall i :: address + |data| <= i < FLASH_SIZE ==> m[i] == 0xFF
  {
    var m := Programmed(mem, address, data);
    forall i | 0 <= i < FLASH_SIZE
      ensures m[i] == if address <= i < address + |data| then data[i - address] else mem[i]
    {
      TouchedExactly(address, |data|, i);
      if address <= i < address + |data| {
        AndOnes(data[i - address], 8);
        Pow2Values();
      }
    }
  }

  lemma TouchedExactly(address: nat, size: nat, i: nat)
    requires address % PAGE_SIZE == 0 && size <= PAGE_SIZE
    ensures Touched(address, size, i) <==> address <= i < address + size
    ensures address <= i < address + size ==> Column(address, i) == i - address
  {
    var p, q, k := address / PAGE_SIZE, i / PAGE_SIZE, i % PAGE_SIZE;
    assert address == PAGE_SIZE * p && i == PAGE_SIZE * q + k;
    assert Column(address, i) == k;
  }
}
