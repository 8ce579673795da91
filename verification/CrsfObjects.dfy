/** The framer and its two frame queues as objects: a fixed buffer, rings of eight slots addressed by
    wrapping 32-bit counters, and counters of 32 bits. */
module CrsfObjects {
  import opened Bits
  import opened Crc
  import opened CrsfParser

  /** A ring of frames.  `read` and `write` count pops and pushes modulo 2^32. */
  class FrameQueue {
    const slots: array<Frame>
    var read: word
    var write: word
    ghost var contents: seq<Frame>

    ghost predicate Valid()
      reads this, slots
    {
      && slots.Length == QUEUE_DEPTH && |contents| <= QUEUE_DEPTH
      && write == AddWord(read, |contents|)
      && forall k :: 0 <= k < |contents| ==> contents[k] == slots[AddWord(read, k) % QUEUE_DEPTH]
    }

    constructor ()
      ensures Valid() && contents == [] && fresh(slots)
    {
      slots := new Frame[8](_ => []);
      read, write := 0, 0;
      contents := [];
    }

    method TryPush(f: Frame) returns (ok: bool)
      requires Valid()
      modifies this`write, this`contents, slots
      ensures Valid() && ok == (|old(contents)| < QUEUE_DEPTH)
      ensures contents == Offer(old(contents), f)
    {
      var held := (write - read) % 0x1_0000_0000;
      HeldIs(read, |contents|);
      ok := held < QUEUE_DEPTH;
      if ok {
        SlotsDiffer(read, |contents|);
        NextWord(read, |contents|);
        hide AddWord;
        slots[write % QUEUE_DEPTH] := f;
        write := AddWord(write, 1);
        contents := contents + [f];
      }
    }

    method Pop() returns (ok: bool, f: Frame)
      requires Valid()
      modifies this`read, this`contents
      ensures Valid() && ok == (old(contents) != [])
      ensures ok ==> f == old(contents)[0] && contents == old(contents)[1..]
      ensures !ok ==> contents == old(contents)
    {
      NotWrapped(read, |contents|);
      hide AddWord;
      ok := read != write;
      f := [];
      if ok {
        f := slots[read % QUEUE_DEPTH];
        forall k | 0 <= k < |contents| - 1
          ensures contents[k + 1] == slots[AddWord(AddWord(read, 1), k) % QUEUE_DEPTH]
        {
          NextSlot(read, k);
        }
        NextSlot(read, |contents| - 1);
        read := AddWord(read, 1);
        contents := contents[1..];
      }
    }

    /** The reader gives up everything written so far. */
    method Clear()
      requires Valid()
      modifies this`read, this`contents
      ensures Valid() && contents == []
    {
      read := write;
      contents := [];
      NotWrapped(read, 0);
    }
  }

  lemma NextSlot(read: word, k: nat)
    requires k < QUEUE_DEPTH
    ensures AddWord(AddWord(read, 1), k) == AddWord(read, k + 1)
  {
  }

  lemma NotWrapped(read: word, n: nat)
    requires n <= QUEUE_DEPTH
    ensures AddWord(read, n) == read <==> n == 0
    ensures AddWord(read, 0) == read
  {
  }

  lemma HeldIs(read: word, n: nat)
    requires n <= QUEUE_DEPTH
    ensures (AddWord(read, n) - read) % 0x1_0000_0000 == n
  {
  }

  lemma NextWord(read: word, n: nat)
    requires n < QUEUE_DEPTH
    ensures AddWord(AddWord(read, n), 1) == AddWord(read, n + 1)
  {
  }

  /** The slot to be written is none of those in use. */
  lemma SlotsDiffer(read: word, n: nat)
    requires n < QUEUE_DEPTH
    ensures forall k :: 0 <= k < n ==> AddWord(read, k) % QUEUE_DEPTH != AddWord(read, n) % QUEUE_DEPTH
  {
  }

  datatype Stats = Stats(
    validFrames: word, crcErrors: word, lengthErrors: word, droppedBytes: word, luaDrops: word, managementDrops: word)

  class StreamParser {
    const buffer: array<byte>
    const received: FrameQueue
    const management: FrameQueue
    var position: nat
    var expectedSize: nat
    var lastType: byte
    var lastValid: nat
    var luaEnabled: bool
    var stats: Stats
    ghost var state: Parser

    ghost predicate Valid()
      reads this, buffer, received, received.slots, management, management.slots
    {
      && received != management && received.slots != management.slots
      && received.Valid() && management.Valid()
      && Mirrored()
    }

    ghost predicate Mirrored()
      reads this, buffer, received, management
    {
      && buffer.Length == MAXIMUM_FRAME_SIZE && position < MAXIMUM_FRAME_SIZE
      && Partial(state.buffer) && buffer[..position] == state.buffer
      && (position >= 2 ==> expectedSize == buffer[1] + 2)
      && lastType == state.lastType && lastValid == state.lastValid && luaEnabled == state.luaEnabled
      && received.contents == state.lua && management.contents == state.management
      && stats == Counters(state)
    }

    constructor ()
      ensures Valid() && state == NEW
    {
      buffer := new byte[64](_ => 0);
      received := new FrameQueue();
      management := new FrameQueue();
      position, expectedSize, lastValid := 0, 0, 0;
      lastType := 0;
      luaEnabled := false;
      stats := Stats(0, 0, 0, 0, 0, 0);
      state := NEW;
    }

    method FeedByte(b: byte, now: nat) returns (accepted: bool)
      requires Valid()
      modifies this`position, this`expectedSize, this`lastType, this`lastValid, this`stats, this`state, buffer
      modifies received`write, received`contents, received.slots
      modifies management`write, management`contents, management.slots
      ensures Valid() && state == Feed(old(state), b, now)
      ensures accepted == (|state.log| > |old(state).log| && state.log[|state.log| - 1].Accepted?)
    {
      hide Valid, Feed;
      if position == 0 {
        FeedAddress(b, now);
        accepted := false;
      } else if position == 1 {
        FeedLength(b, now);
        accepted := false;
      } else {
        accepted := FeedBody(b, now);
      }
    }

    method PopFrame() returns (ok: bool, f: Frame)
      requires Valid()
      modifies this`state, received`read, received`contents
      ensures Valid() && state == Step(old(state), PopScript) && ok == (old(state).lua != [])
      ensures ok ==> f == old(state).lua[0]
    {
      hide Crc8, Count, FrameQueue.Valid;
      ok, f := received.Pop();
      state := state.(lua := Rest(state.lua));
    }

    method PopManagementFrame() returns (ok: bool, f: Frame)
      requires Valid()
      modifies this`state, management`read, management`contents
      ensures Valid() && state == Step(old(state), PopManagement) && ok == (old(state).management != [])
      ensures ok ==> f == old(state).management[0]
    {
      hide Crc8, Count, FrameQueue.Valid;
      ok, f := management.Pop();
      state := state.(management := Rest(state.management));
    }

    method SetLuaFrameQueueEnabled(enabled: bool)
      requires Valid()
      modifies this`state, this`luaEnabled, received`read, received`contents
      ensures Valid() && state == Step(old(state), EnableScripts(enabled))
    {
      hide Crc8, Count, FrameQueue.Valid;
      if !enabled {
        received.Clear();
      }
      luaEnabled := enabled;
      state := Step(state, EnableScripts(enabled));
    }

    method FeedBody(b: byte, now: nat) returns (accepted: bool)
      requires Valid() && position >= 2
      modifies this`position, this`expectedSize, this`lastType, this`lastValid, this`stats, this`state, buffer
      modifies received`write, received`contents, received.slots
      modifies management`write, management`contents, management.slots
      ensures Valid() && state == Feed(old(state), b, now)
      ensures accepted == (|state.log| > |old(state).log| && state.log[|state.log| - 1].Accepted?)
    {
      hide Crc8, Count, FrameQueue.Valid, Accept;
      AcceptLogs(state, now);
      // The source also guards against a full buffer here; `Partial` rules it out.
      buffer[position] := b;
      position := position + 1;
      ghost var f := state.buffer + [b];
      assert buffer[..position] == f;
      accepted := false;
      if position < expectedSize {
        state := state.(buffer := f);
        return;
      }
      assert Ready(f);
      var crc := ComputeCrc8(buffer[2..expectedSize - 1]);
      assert buffer[2..expectedSize - 1] == f[2..|f| - 1];
      accepted := buffer[expectedSize - 1] == crc;
      hide Ready, Valid;
      if accepted {
        AcceptFrame(f, now);
      } else {
        RejectFrame(f);
      }
    }

    method RejectFrame(ghost f: Frame)
      requires Ready(f)
      modifies this`position, this`stats, this`state
      ensures Valid() && state == old(state).(buffer := [], log := old(state).log + [BadCrc(f)])
    {
      hide Crc8, Count, FrameQueue.Valid, Shaped;
      LogCounts(state.log, BadCrc(f));
      stats := stats.(crcErrors := AddWord(stats.crcErrors, 1));
      state := state.(buffer := [], log := state.log + [BadCrc(f)]);
      position := 0;
    }

    /** A whole frame is in the buffer; the ghost state still lacks its last byte. */
    ghost predicate Ready(f: Frame)
      reads this, buffer, received, received.slots, management, management.slots
    {
      && received != management && received.slots != management.slots
      && received.Valid() && management.Valid()
      && buffer.Length == MAXIMUM_FRAME_SIZE && position == expectedSize == |f| && Shaped(f)
      && buffer[..position] == f
      && lastType == state.lastType && lastValid == state.lastValid && luaEnabled == state.luaEnabled
      && received.contents == state.lua && management.contents == state.management
      && stats == Counters(state)
    }

    method FeedAddress(b: byte, now: nat)
      requires Valid() && position == 0
      modifies this`position, this`stats, this`state, buffer
      ensures Valid() && state == Feed(old(state), b, now)
      ensures !(|state.log| > |old(state).log| && state.log[|state.log| - 1].Accepted?)
    {
      hide Crc8, Count, FrameQueue.Valid;
      if b != ADDRESS_RADIO && b != ADDRESS_BROADCAST {
        LogCounts(state.log, Dropped(b));
        stats := stats.(droppedBytes := AddWord(stats.droppedBytes, 1));
        state := state.(log := state.log + [Dropped(b)]);
      } else {
        buffer[0] := b;
        position := 1;
        state := state.(buffer := [b]);
      }
    }

    method FeedLength(b: byte, now: nat)
      requires Valid() && position == 1
      modifies this`position, this`expectedSize, this`stats, this`state, buffer
      ensures Valid() && state == Feed(old(state), b, now)
      ensures !(|state.log| > |old(state).log| && state.log[|state.log| - 1].Accepted?)
    {
      hide Crc8, Count, FrameQueue.Valid;
      if b < 2 || b > 62 {
        LogCounts(state.log, BadLength(state.buffer[0], b));
        stats := stats.(lengthErrors := AddWord(stats.lengthErrors, 1));
        state := state.(buffer := [], log := state.log + [BadLength(state.buffer[0], b)]);
        position := 0;
      } else {
        buffer[1] := b;
        position := 2;
        expectedSize := b + 2;
        state := state.(buffer := state.buffer + [b]);
      }
    }

    /** A complete frame with a matching CRC is offered to the queues. */
    method AcceptFrame(ghost f: Frame, now: nat)
      requires Ready(f)
      modifies this`position, this`lastType, this`lastValid, this`stats, this`state
      modifies received`write, received`contents, received.slots
      modifies management`write, management`contents, management.slots
      ensures Valid() && state == Accept(old(state), f, now)
    {
      hide Crc8, Counters, FrameQueue.Valid, ForScripts, ForManagement, Shaped, Offer, AddWord;
      ShapedLong(f);
      AcceptCounts(state, f, now);
      var frame := buffer[..expectedSize];
      var t := frame[2];
      var scriptDrop, managementDrop := OfferFrame(frame, ForScripts(t) && luaEnabled, ForManagement(t));
      stats := stats.(validFrames := AddWord(stats.validFrames, 1));
      lastValid, lastType := now, t;
      CountDrops(scriptDrop, managementDrop);
      position := 0;
      state := Accept(state, f, now);
    }

    method OfferFrame(frame: Frame, script: bool, managed: bool) returns (scriptDrop: bool, managementDrop: bool)
      requires received != management && received.slots != management.slots
      requires received.Valid() && management.Valid()
      modifies received`write, received`contents, received.slots
      modifies management`write, management`contents, management.slots
      ensures received.Valid() && management.Valid()
      ensures received.contents == if script then Offer(old(received.contents), frame) else old(received.contents)
      ensures management.contents
              == if managed then Offer(old(management.contents), frame) else old(management.contents)
      ensures scriptDrop == (script && |old(received.contents)| >= QUEUE_DEPTH)
      ensures managementDrop == (managed && |old(management.contents)| >= QUEUE_DEPTH)
    {
      hide Offer;
      scriptDrop, managementDrop := false, false;
      if script {
        var ok := received.TryPush(frame);
        scriptDrop := !ok;
      }
      if managed {
        var ok := management.TryPush(frame);
        managementDrop := !ok;
      }
    }

    method CountDrops(script: bool, managed: bool)
      modifies this`stats
      ensures stats == old(stats).(
                luaDrops := AddWord(old(stats).luaDrops, if script then 1 else 0),
                managementDrops := AddWord(old(stats).managementDrops, if managed then 1 else 0))
    {
      if script {
        stats := stats.(luaDrops := AddWord(stats.luaDrops, 1));
      }
      if managed {
        stats := stats.(managementDrops := AddWord(stats.managementDrops, 1));
      }
    }
  }

  lemma AcceptCounts(p: Parser, f: Frame, now: nat)
    requires Shaped(f)
    ensures var c, script, managed := Counters(p), ForScripts(f[2]) && p.luaEnabled, ForManagement(f[2]);
      Counters(Accept(p, f, now)) == c.(
        validFrames := AddWord(c.validFrames, 1),
        luaDrops := AddWord(c.luaDrops, if script && |p.lua| >= QUEUE_DEPTH then 1 else 0),
        managementDrops := AddWord(c.managementDrops, if managed && |p.management| >= QUEUE_DEPTH then 1 else 0))
  {
    hide Crc8, Shaped, ForScripts, ForManagement, Count, Offer, AddWord;
    LogCounts(p.log, Accepted(f));
    Wrapped(Count(p.log).valid, 1);
    Wrapped(p.luaDrops, 0);
    Wrapped(p.luaDrops, 1);
    Wrapped(p.managementDrops, 0);
    Wrapped(p.managementDrops, 1);
  }

  lemma Wrapped(n: nat, d: word)
    ensures AddWord(n % 0x1_0000_0000, d) == (n + d) % 0x1_0000_0000
    ensures n % 0x1_0000_0000 < 0x1_0000_0000
  {
  }

  lemma AcceptLogs(p: Parser, now: nat)
    ensures forall f :: Shaped(f) ==> Accept(p, f, now).log == p.log + [Accepted(f)]
  {
  }

  lemma ShapedLong(f: Frame)
    requires Shaped(f)
    ensures 4 <= |f| <= MAXIMUM_FRAME_SIZE
  {
  }

  /** The 32-bit counters against the history. */
  ghost function Counters(p: Parser): Stats {
    var t := Count(p.log);
    Stats(t.valid % 0x1_0000_0000, t.crcErrors % 0x1_0000_0000, t.lengthErrors % 0x1_0000_0000,
          t.dropped % 0x1_0000_0000, p.luaDrops % 0x1_0000_0000, p.managementDrops % 0x1_0000_0000)
  }

  lemma LogCounts(log: seq<Segment>, s: Segment)
    ensures var t, t' := Count(log), Count(log + [s]);
      && t'.dropped == t.dropped + (if s.Dropped? then 1 else 0)
      && t'.lengthErrors == t.lengthErrors + (if s.BadLength? then 1 else 0)
      && t'.crcErrors == t.crcErrors + (if s.BadCrc? then 1 else 0)
      && t'.valid == t.valid + (if s.Accepted? then 1 else 0)
  {
    assert (log + [s])[..|log + [s]| - 1] == log;
  }
}
