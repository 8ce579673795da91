/** The byte-stream framer of the CRSF link.  Its history is a list of segments that cut the stream fed
    so far into dropped bytes, bad headers, frames with a bad CRC and accepted frames. */
module CrsfParser {
  import opened Bits
  import opened Crc

  const ADDRESS_BROADCAST: byte := 0x00
  const ADDRESS_RADIO: byte := 0xEA
  const MAXIMUM_FRAME_SIZE := 64
  const QUEUE_DEPTH := 8

  const FRAME_GPS: byte := 0x02
  const FRAME_BATTERY: byte := 0x08
  const FRAME_LINK_STATISTICS: byte := 0x14
  const FRAME_RC_CHANNELS: byte := 0x16
  const FRAME_DEVICE_INFO: byte := 0x29
  const FRAME_PARAMETER_ENTRY: byte := 0x2B
  const FRAME_ELRS_STATUS: byte := 0x2E

  type Frame = seq<byte>

  datatype Segment =
    | Dropped(b: byte) | BadLength(address: byte, length: byte) | BadCrc(frame: Frame) | Accepted(frame: Frame)

  function BytesOf(s: Segment): seq<byte> {
    match s
    case Dropped(b) => [b]
    case BadLength(address, length) => [address, length]
    case BadCrc(frame) => frame
    case Accepted(frame) => frame
  }

  function Flatten(log: seq<Segment>): seq<byte>
    decreases |log|
  {
    if log == [] then [] else Flatten(log[..|log| - 1]) + BytesOf(log[|log| - 1])
  }

  datatype Parser = Parser(
    buffer: seq<byte>, log: seq<Segment>, lastType: byte, lastValid: nat,
    luaEnabled: bool, lua: seq<Frame>, luaDrops: nat, management: seq<Frame>, managementDrops: nat)

  const NEW := Parser([], [], 0, 0, false, [], 0, [], 0)

  // ---------------------------------------------------------------- frames

  predicate IsAddress(b: byte) {
    b == ADDRESS_RADIO || b == ADDRESS_BROADCAST
  }

  predicate LengthOk(length: byte) {
    2 <= length <= 62
  }

  /** Address, length and overall size fit together. */
  predicate Shaped(f: Frame) {
    4 <= |f| <= MAXIMUM_FRAME_SIZE && IsAddress(f[0]) && f[1] == |f| - 2
  }

  predicate CrcOk(f: Frame)
    requires Shaped(f)
  {
    f[|f| - 1] == Crc8(f[2..|f| - 1])
  }

  predicate WellFormed(f: Frame) {
    Shaped(f) && CrcOk(f)
  }

  /** Telemetry types are consumed by the registry; everything else is offered to scripts. */
  predicate ForScripts(t: byte) {
    t != FRAME_GPS && t != FRAME_BATTERY && t != FRAME_LINK_STATISTICS && t != FRAME_RC_CHANNELS
  }

  predicate ForManagement(t: byte) {
    t == FRAME_DEVICE_INFO || t == FRAME_PARAMETER_ENTRY || t == FRAME_ELRS_STATUS
  }

  // ---------------------------------------------------------------- one byte

  /** A frame is in the making: below its size, and below the size of the buffer. */
  predicate Partial(buffer: seq<byte>) {
    && (|buffer| >= 1 ==> IsAddress(buffer[0]))
    && (|buffer| >= 2 ==> LengthOk(buffer[1]) && |buffer| < buffer[1] + 2)
  }

  function Offer(queue: seq<Frame>, f: Frame): seq<Frame> {
    if |queue| < QUEUE_DEPTH then queue + [f] else queue
  }

  function Accept(p: Parser, f: Frame, now: nat): Parser
    requires Shaped(f)
  {
    var script := ForScripts(f[2]) && p.luaEnabled;
    var managed := ForManagement(f[2]);
    Parser([], p.log + [Accepted(f)], f[2], now, p.luaEnabled,
           if script then Offer(p.lua, f) else p.lua,
           if script && |p.lua| >= QUEUE_DEPTH then p.luaDrops + 1 else p.luaDrops,
           if managed then Offer(p.management, f) else p.management,
           if managed && |p.management| >= QUEUE_DEPTH then p.managementDrops + 1 else p.managementDrops)
  }

  function Feed(p: Parser, b: byte, now: nat): (r: Parser)
    requires Partial(p.buffer)
    ensures Partial(r.buffer)
  {
    if |p.buffer| == 0 then
      if IsAddress(b) then p.(buffer := [b]) else p.(log := p.log + [Dropped(b)])
    else if |p.buffer| == 1 then
      if LengthOk(b) then p.(buffer := p.buffer + [b])
      else p.(buffer := [], log := p.log + [BadLength(p.buffer[0], b)])
    else
      var f := p.buffer + [b];
      if |f| < f[1] + 2 then p.(buffer := f)
      else if CrcOk(f) then Accept(p, f, now)
      else p.(buffer := [], log := p.log + [BadCrc(f)])
  }

  function FeedAll(p: Parser, data: seq<byte>, now: nat): (r: Parser)
    requires Partial(p.buffer)
    ensures Partial(r.buffer)
    decreases |data|
  {
    if data == [] then p else FeedAll(Feed(p, data[0], now), data[1..], now)
  }

  lemma {:induction false} FeedAppend(p: Parser, a: seq<byte>, b: seq<byte>, now: nat)
    requires Partial(p.buffer)
    ensures FeedAll(p, a + b, now) == FeedAll(FeedAll(p, a, now), b, now)
    decreases |a|
  {
    if a == [] {
      assert a + b == b;
    } else {
      assert (a + b)[1..] == a[1..] + b;
      FeedAppend(Feed(p, a[0], now), a[1..], b, now);
    }
  }

  // ---------------------------------------------------------------- calls

  /** What the receiving task and the readers of the two queues do; a queue disabled for scripts is emptied. */
  datatype Event = FeedByte(b: byte, now: nat) | PopScript | PopManagement | EnableScripts(enabled: bool)

  function Rest(queue: seq<Frame>): seq<Frame> {
    if queue == [] then [] else queue[1..]
  }

  function Step(p: Parser, e: Event): (r: Parser)
    requires Partial(p.buffer)
    ensures Partial(r.buffer)
  {
    match e
    case FeedByte(b, now) => Feed(p, b, now)
    case PopScript => p.(lua := Rest(p.lua))
    case PopManagement => p.(management := Rest(p.management))
    case EnableScripts(enabled) => p.(luaEnabled := enabled, lua := if enabled then p.lua else [])
  }

  function Run(p: Parser, es: seq<Event>): (r: Parser)
    requires Partial(p.buffer)
    ensures Partial(r.buffer)
    decreases |es|
  {
    if es == [] then p else Run(Step(p, es[0]), es[1..])
  }

  function FedBy(e: Event): seq<byte> {
    if e.FeedByte? then [e.b] else []
  }

  /** The stream that a run feeds. */
  function Stream(es: seq<Event>): seq<byte>
    decreases |es|
  {
    if es == [] then [] else FedBy(es[0]) + Stream(es[1..])
  }

  // ---------------------------------------------------------------- every byte is accounted for

  /** Each segment is what its name says. */
  predicate Honest(s: Segment) {
    match s
    case Dropped(b) => !IsAddress(b)
    case BadLength(address, length) => IsAddress(address) && !LengthOk(length)
    case BadCrc(frame) => Shaped(frame) && !CrcOk(frame)
    case Accepted(frame) => WellFormed(frame)
  }

  predicate AllHonest(log: seq<Segment>) {
    forall s :: s in log ==> Honest(s)
  }

  lemma Logged(log: seq<Segment>, s: Segment)
    ensures Flatten(log + [s]) == Flatten(log) + BytesOf(s)
    ensures AllHonest(log) && Honest(s) ==> AllHonest(log + [s])
  {
    assert (log + [s])[..|log + [s]| - 1] == log;
  }

  /** Feeding a byte keeps it in the buffer or closes one honest segment. */
  lemma FeedCloses(p: Parser, b: byte, now: nat)
    requires Partial(p.buffer)
    ensures var r := Feed(p, b, now);
      || (r.log == p.log && r.buffer == p.buffer + [b])
      || (r.buffer == [] && |r.log| == |p.log| + 1 && r.log == p.log + [r.log[|p.log|]]
          && BytesOf(r.log[|p.log|]) == p.buffer + [b] && Honest(r.log[|p.log|]))
  {
    hide Crc8;
  }

  lemma FeedAccounts(p: Parser, b: byte, now: nat)
    requires Partial(p.buffer)
    ensures var r := Feed(p, b, now);
      && Flatten(r.log) + r.buffer == Flatten(p.log) + (p.buffer + [b])
      && (AllHonest(p.log) ==> AllHonest(r.log))
  {
    var r := Feed(p, b, now);
    FeedCloses(p, b, now);
    if |r.log| > |p.log| {
      Logged(p.log, r.log[|p.log|]);
    }
    hide Feed, Flatten, AllHonest;
  }

  lemma StepAccounts(p: Parser, e: Event)
    requires Partial(p.buffer)
    ensures var r := Step(p, e);
      && Flatten(r.log) + r.buffer == Flatten(p.log) + (p.buffer + FedBy(e))
      && (AllHonest(p.log) ==> AllHonest(r.log))
  {
    hide Feed, Flatten, AllHonest;
    if e.FeedByte? {
      FeedAccounts(p, e.b, e.now);
    } else {
      assert p.buffer + FedBy(e) == p.buffer;
    }
  }

  /** Whatever is fed, and however the queues are read and switched in between, the segments and the buffer
      are the stream, byte for byte and in order, and each segment deserves its name: in particular every
      accepted frame is well formed. */
  lemma {:induction false} StreamAccounts(p: Parser, es: seq<Event>)
    requires Partial(p.buffer)
    ensures var r := Run(p, es);
      && Flatten(r.log) + r.buffer == Flatten(p.log) + p.buffer + Stream(es)
      && (AllHonest(p.log) ==> AllHonest(r.log))
    decreases |es|
  {
    hide Step, Flatten, AllHonest, FedBy;
    if es == [] {
      assert Flatten(p.log) + p.buffer + Stream(es) == Flatten(p.log) + p.buffer;
    } else {
      StepAccounts(p, es[0]);
      StreamAccounts(Step(p, es[0]), es[1..]);
      Regroup(Flatten(p.log), p.buffer, FedBy(es[0]), Stream(es[1..]));
    }
  }

  lemma Regroup(a: seq<byte>, b: seq<byte>, fed: seq<byte>, rest: seq<byte>)
    ensures a + (b + fed) + rest == a + b + (fed + rest)
  {
  }

  datatype Tally = Tally(dropped: nat, lengthErrors: nat, crcErrors: nat, valid: nat, crcBytes: nat, validBytes: nat)

  /** What the counters of the parser count. */
  function Count(log: seq<Segment>): Tally
    decreases |log|
  {
    if log == [] then Tally(0, 0, 0, 0, 0, 0)
    else
      var t := Count(log[..|log| - 1]);
      match log[|log| - 1]
      case Dropped(_) => t.(dropped := t.dropped + 1)
      case BadLength(_, _) => t.(lengthErrors := t.lengthErrors + 1)
      case BadCrc(f) => t.(crcErrors := t.crcErrors + 1, crcBytes := t.crcBytes + |f|)
      case Accepted(f) => t.(valid := t.valid + 1, validBytes := t.validBytes + |f|)
  }

  lemma {:induction false} CountFlatten(log: seq<Segment>)
    ensures var t := Count(log); |Flatten(log)| == t.dropped + 2 * t.lengthErrors + t.crcBytes + t.validBytes
    decreases |log|
  {
    if log != [] {
      CountFlatten(log[..|log| - 1]);
    }
  }

  /** Conservation: bytes fed are buffered, dropped, in a bad header (two each), CRC-rejected or accepted. */
  lemma BytesConserved(es: seq<Event>)
    ensures var r := Run(NEW, es); var t := Count(r.log);
      |Stream(es)| == |r.buffer| + t.dropped + 2 * t.lengthErrors + t.crcBytes + t.validBytes
  {
    StreamAccounts(NEW, es);
    CountFlatten(Run(NEW, es).log);
    hide Run;
  }

  /** The accepted frames that a management queue is for. */
  function Managed(log: seq<Segment>): nat
    decreases |log|
  {
    if log == [] then 0
    else
      var last := log[|log| - 1];
      Managed(log[..|log| - 1]) + (if last.Accepted? && |last.frame| > 2 && ForManagement(last.frame[2]) then 1 else 0)
  }

  /** The pops of a run that found a management frame. */
  function Popped(p: Parser, es: seq<Event>): nat
    requires Partial(p.buffer)
    decreases |es|
  {
    if es == [] then 0
    else (if es[0].PopManagement? && p.management != [] then 1 else 0) + Popped(Step(p, es[0]), es[1..])
  }

  lemma StepManages(p: Parser, e: Event)
    requires Partial(p.buffer)
    ensures var r := Step(p, e);
      Managed(r.log) + |p.management| + p.managementDrops ==
        Managed(p.log) + |r.management| + r.managementDrops
        + (if e.PopManagement? && p.management != [] then 1 else 0)
  {
    hide Crc8;
    if e.FeedByte? {
      FeedManages(p, e.b, e.now);
      hide Feed;
    }
  }

  lemma ManagedMore(log: seq<Segment>, s: Segment)
    ensures Managed(log + [s]) ==
              Managed(log) + (if s.Accepted? && |s.frame| > 2 && ForManagement(s.frame[2]) then 1 else 0)
  {
    assert (log + [s])[..|log + [s]| - 1] == log;
  }

  lemma FeedManages(p: Parser, b: byte, now: nat)
    requires Partial(p.buffer)
    ensures var r := Feed(p, b, now);
      Managed(r.log) + |p.management| + p.managementDrops == Managed(p.log) + |r.management| + r.managementDrops
  {
    hide Crc8, Managed, ForManagement, ForScripts, IsAddress;
    var f := p.buffer + [b];
    if |p.buffer| == 0 {
      ManagedMore(p.log, Dropped(b));
    } else if |p.buffer| == 1 {
      ManagedMore(p.log, BadLength(p.buffer[0], b));
    } else if |f| == f[1] as int + 2 {
      assert Shaped(f) by {
        BodyShaped(p, b);
      }
      ManagedMore(p.log, BadCrc(f));
      ManagedMore(p.log, Accepted(f));
      hide CrcOk, Shaped;
    }
  }

  lemma BodyShaped(p: Parser, b: byte)
    requires Partial(p.buffer) && |p.buffer| >= 2 && |p.buffer| + 1 == p.buffer[1] + 2
    ensures Shaped(p.buffer + [b])
  {
  }

  /** Conservation of the frames for management: each one accepted has been popped, waits in the queue, or is
      counted as dropped. */
  lemma {:induction false} ManagementConserved(p: Parser, es: seq<Event>)
    requires Partial(p.buffer)
    ensures var r := Run(p, es);
      Managed(r.log) + |p.management| + p.managementDrops ==
        Managed(p.log) + |r.management| + r.managementDrops + Popped(p, es)
    decreases |es|
  {
    hide Step, Managed;
    if es != [] {
      StepManages(p, es[0]);
      ManagementConserved(Step(p, es[0]), es[1..]);
    }
  }

  // ---------------------------------------------------------------- well-formed streams

  /** A shaped frame from a boundary ends in a boundary, accepted or rejected by its CRC. */
  lemma FrameDecided(p: Parser, f: Frame, now: nat)
    requires p.buffer == [] && Shaped(f)
    ensures FeedAll(p, f, now) == if CrcOk(f) then Accept(p, f, now) else p.(log := p.log + [BadCrc(f)])
  {
    var n := |f| - 1;
    PrefixBuffered(p, f, n, now);
    FeedAppend(p, f[..n], f[n..], now);
    assert f[..n] + f[n..] == f;
    LastByte(p, f, now);
    hide *;
  }

  lemma LastByte(p: Parser, f: Frame, now: nat)
    requires p.buffer == [] && Shaped(f) && Partial(f[..|f| - 1])
    ensures FeedAll(p.(buffer := f[..|f| - 1]), f[|f| - 1..], now)
            == if CrcOk(f) then Accept(p, f, now) else p.(log := p.log + [BadCrc(f)])
  {
    hide Crc8, CrcOk;
    var q := p.(buffer := f[..|f| - 1]);
    assert f[|f| - 1..] == [f[|f| - 1]] && q.buffer + [f[|f| - 1]] == f;
    assert FeedAll(q, f[|f| - 1..], now) == Feed(q, f[|f| - 1], now);
  }

  lemma {:induction false} PrefixBuffered(p: Parser, f: Frame, n: nat, now: nat)
    requires p.buffer == [] && Shaped(f) && n < |f|
    ensures Partial(f[..n]) && FeedAll(p, f[..n], now) == p.(buffer := f[..n])
    decreases n
  {
    if n == 0 {
      assert f[..0] == [];
    } else {
      PrefixBuffered(p, f, n - 1, now);
      assert f[..n] == f[..n - 1] + [f[n - 1]];
      FeedAppend(p, f[..n - 1], [f[n - 1]], now);
      var q := p.(buffer := f[..n - 1]);
      assert FeedAll(q, [f[n - 1]], now) == Feed(q, f[n - 1], now);
    }
  }

  function Concat(frames: seq<Frame>): seq<byte>
    decreases |frames|
  {
    if frames == [] then [] else frames[0] + Concat(frames[1..])
  }

  predicate AllWellFormed(frames: seq<Frame>)
    decreases |frames|
  {
    frames != [] ==> WellFormed(frames[0]) && AllWellFormed(frames[1..])
  }

  function AcceptAll(p: Parser, frames: seq<Frame>, now: nat): Parser
    requires AllWellFormed(frames)
    decreases |frames|
  {
    if frames == [] then p
    else
      AcceptAll(Accept(p, frames[0], now), frames[1..], now)
  }

  /** From a boundary, a concatenation of well-formed frames is accepted frame by frame. */
  lemma {:induction false} StreamAccepted(p: Parser, frames: seq<Frame>, now: nat)
    requires p.buffer == [] && AllWellFormed(frames)
    ensures FeedAll(p, Concat(frames), now) == AcceptAll(p, frames, now)
    decreases |frames|
  {
    hide Feed, Crc8, Shaped;
    if frames != [] {
      assert CrcOk(frames[0]);
      FrameDecided(p, frames[0], now);
      FeedAppend(p, frames[0], Concat(frames[1..]), now);
      StreamAccepted(Accept(p, frames[0], now), frames[1..], now);
    }
  }

  /** One byte of type, payload or CRC altered: one CRC error, nothing accepted, and the parser is back at
      a boundary, ready for the next frame. */
  lemma AlteredFrameRejected(p: Parser, f: Frame, i: nat, b: byte, rest: seq<Frame>, now: nat)
    requires p.buffer == [] && WellFormed(f) && 2 <= i < |f| && b != f[i] && AllWellFormed(rest)
    ensures FeedAll(p, f[i := b], now) == p.(log := p.log + [BadCrc(f[i := b])])
    ensures FeedAll(p, f[i := b] + Concat(rest), now) == AcceptAll(p.(log := p.log + [BadCrc(f[i := b])]), rest, now)
  {
    AlteredCrc(f, i, b);
    hide Crc8, FeedAll, Feed, Accept, CrcOk, Shaped, AllWellFormed;
    FrameDecided(p, f[i := b], now);
    FeedAppend(p, f[i := b], Concat(rest), now);
    StreamAccepted(p.(log := p.log + [BadCrc(f[i := b])]), rest, now);
  }

  lemma AlteredCrc(f: Frame, i: nat, b: byte)
    requires WellFormed(f) && 2 <= i < |f| && b != f[i]
    ensures Shaped(f[i := b]) && !CrcOk(f[i := b])
  {
    hide Crc8;
    var g := f[i := b];
    if i < |f| - 1 {
      ByteChangeDetected(f[2..|f| - 1], i - 2, b);
      assert g[2..|g| - 1] == f[2..|f| - 1][i - 2 := b];
    } else {
      assert g[2..|g| - 1] == f[2..|f| - 1];
    }
  }

  // ---------------------------------------------------------------- where frames go

  /** Any whole frame to the radio or to everybody, of four to 64 bytes with its length and CRC right, is accepted:
      offered to scripts, while they are enabled, unless it is one of the four kinds of telemetry, and to the
      management queue if it is a device description, a parameter or a module status; each queue holds eight. */
  lemma FrameRouted(p: Parser, f: Frame, now: nat)
    requires p.buffer == [] && 4 <= |f| <= 64 && (f[0] == 0xEA || f[0] == 0x00) && f[1] == |f| - 2
    requires f[|f| - 1] == Crc8(f[2..|f| - 1])
    ensures var r, t := FeedAll(p, f, now), f[2];
      var script := p.luaEnabled && t != 0x02 && t != 0x08 && t != 0x14 && t != 0x16;
      var managed := t == 0x29 || t == 0x2B || t == 0x2E;
      && r.buffer == [] && r.log == p.log + [Accepted(f)] && r.lastType == t && r.lastValid == now
      && r.lua == (if script && |p.lua| < 8 then p.lua + [f] else p.lua)
      && r.luaDrops == p.luaDrops + (if script && |p.lua| >= 8 then 1 else 0)
      && r.management == (if managed && |p.management| < 8 then p.management + [f] else p.management)
      && r.managementDrops == p.managementDrops + (if managed && |p.management| >= 8 then 1 else 0)
  {
    hide Crc8;
    FrameDecided(p, f, now);
    hide FeedAll;
  }

  /** The frame that a call has accepted, if any. */
  function AcceptedBy(p: Parser, e: Event): seq<Frame>
    requires Partial(p.buffer)
  {
    var log := Step(p, e).log;
    if |log| > |p.log| && log[|log| - 1].Accepted? then [log[|log| - 1].frame] else []
  }

  predicate IsManaged(f: Frame) {
    |f| >= 3 && (f[2] == 0x29 || f[2] == 0x2B || f[2] == 0x2E)
  }

  predicate IsScript(f: Frame) {
    |f| >= 3 && f[2] != 0x02 && f[2] != 0x08 && f[2] != 0x14 && f[2] != 0x16
  }

  /** The management frames that were accepted and found room. */
  function ManagementTaken(p: Parser, es: seq<Event>): seq<Frame>
    requires Partial(p.buffer)
    decreases |es|
  {
    if es == [] then []
    else
      var f := AcceptedBy(p, es[0]);
      (if f != [] && IsManaged(f[0]) && |p.management| < 8 then f else []) + ManagementTaken(Step(p, es[0]), es[1..])
  }

  /** What the calls for a management frame deliver. */
  function ManagementPopped(p: Parser, es: seq<Event>): seq<Frame>
    requires Partial(p.buffer)
    decreases |es|
  {
    if es == [] then []
    else
      (if es[0].PopManagement? && p.management != [] then p.management[..1] else [])
      + ManagementPopped(Step(p, es[0]), es[1..])
  }

  function ScriptsTaken(p: Parser, es: seq<Event>): seq<Frame>
    requires Partial(p.buffer)
    decreases |es|
  {
    if es == [] then []
    else
      var f := AcceptedBy(p, es[0]);
      (if f != [] && IsScript(f[0]) && p.luaEnabled && |p.lua| < 8 then f else [])
      + ScriptsTaken(Step(p, es[0]), es[1..])
  }

  /** What the calls for a script frame deliver, and what switching the queue off gives up. */
  function ScriptsGone(p: Parser, es: seq<Event>): seq<Frame>
    requires Partial(p.buffer)
    decreases |es|
  {
    if es == [] then []
    else
      (if es[0].PopScript? && p.lua != [] then p.lua[..1]
       else if es[0].EnableScripts? && !es[0].enabled then p.lua else [])
      + ScriptsGone(Step(p, es[0]), es[1..])
  }

  lemma FeedRoutes(p: Parser, b: byte, now: nat)
    requires Partial(p.buffer)
    ensures var r, f := Feed(p, b, now), AcceptedBy(p, FeedByte(b, now));
      && r.management == p.management + (if f != [] && IsManaged(f[0]) && |p.management| < 8 then f else [])
      && r.lua == p.lua + (if f != [] && IsScript(f[0]) && p.luaEnabled && |p.lua| < 8 then f else [])
  {
    hide Crc8, CrcOk, IsManaged, IsScript;
    var f := p.buffer + [b];
    if |p.buffer| >= 2 && |f| == f[1] as int + 2 {
      BodyShaped(p, b);
      if CrcOk(f) {
        AcceptRoutes(p, f, now);
        assert Feed(p, b, now) == Accept(p, f, now);
        hide Accept;
      }
    }
  }

  lemma AcceptRoutes(p: Parser, f: Frame, now: nat)
    requires Shaped(f)
    ensures var r := Accept(p, f, now);
      && r.log == p.log + [Accepted(f)]
      && r.management == p.management + (if IsManaged(f) && |p.management| < 8 then [f] else [])
      && r.lua == p.lua + (if IsScript(f) && p.luaEnabled && |p.lua| < 8 then [f] else [])
  {
    hide Crc8;
  }

  lemma ManagementStep(p: Parser, e: Event)
    requires Partial(p.buffer)
    ensures var f := AcceptedBy(p, e);
      (if e.PopManagement? && p.management != [] then p.management[..1] else []) + Step(p, e).management
      == p.management + (if f != [] && IsManaged(f[0]) && |p.management| < 8 then f else [])
  {
    if e.FeedByte? {
      FeedRoutes(p, e.b, e.now);
      hide Feed;
    }
  }

  lemma ScriptsStep(p: Parser, e: Event)
    requires Partial(p.buffer)
    ensures var f := AcceptedBy(p, e);
      (if e.PopScript? && p.lua != [] then p.lua[..1] else if e.EnableScripts? && !e.enabled then p.lua else [])
      + Step(p, e).lua == p.lua + (if f != [] && IsScript(f[0]) && p.luaEnabled && |p.lua| < 8 then f else [])
  {
    if e.FeedByte? {
      FeedRoutes(p, e.b, e.now);
      hide Feed;
    }
  }

  lemma Spliced(out: seq<Frame>, outs: seq<Frame>, held: seq<Frame>, now: seq<Frame>, into: seq<Frame>,
                intos: seq<Frame>, left: seq<Frame>)
    requires out + now == held + into && outs + left == now + intos
    ensures (out + outs) + left == held + (into + intos)
  {
    assert (out + outs) + left == out + (outs + left) == (out + now) + intos;
    assert held + (into + intos) == (held + into) + intos;
  }

  /** Both queues are first in, first out: in every run the frames delivered, followed by the ones still held, are the
      ones held at first followed by those that came and found room, in order. */
  lemma {:induction false} InOrder(p: Parser, es: seq<Event>)
    requires Partial(p.buffer)
    ensures ManagementPopped(p, es) + Run(p, es).management == p.management + ManagementTaken(p, es)
    ensures ScriptsGone(p, es) + Run(p, es).lua == p.lua + ScriptsTaken(p, es)
    decreases |es|
  {
    hide Step, AcceptedBy, IsManaged, IsScript;
    if es != [] {
      var q, f := Step(p, es[0]), AcceptedBy(p, es[0]);
      ManagementStep(p, es[0]);
      ScriptsStep(p, es[0]);
      InOrder(q, es[1..]);
      Spliced(if es[0].PopManagement? && p.management != [] then p.management[..1] else [],
              ManagementPopped(q, es[1..]), p.management, q.management,
              if f != [] && IsManaged(f[0]) && |p.management| < 8 then f else [], ManagementTaken(q, es[1..]),
              Run(p, es).management);
      Spliced(if es[0].PopScript? && p.lua != [] then p.lua[..1]
              else if es[0].EnableScripts? && !es[0].enabled then p.lua else [],
              ScriptsGone(q, es[1..]), p.lua, q.lua,
              if f != [] && IsScript(f[0]) && p.luaEnabled && |p.lua| < 8 then f else [], ScriptsTaken(q, es[1..]),
              Run(p, es).lua);
    }
  }
}
