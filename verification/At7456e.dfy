/** The AT7456E on-screen-display driver: a shadow of the chip's display memory, brought in line with
    the submitted frame by asynchronous auto-increment runs.  `Step` is the behaviour of one call on
    driver and chip together; transfers may complete, stall or fail at the environment's choice. */
module At7456e {
  import opened Bits

  const COLUMNS := 30
  const CELLS := 480
  const MAXIMUM_RUN := 24
  const GLYPH_BYTES := 54
  const GLYPH_QUEUE_DEPTH := 4
  const STATUS_PERIOD_US := 100000
  const TRANSFER_TIMEOUT_US := 20000
  const RETRY_DELAY_US := 100000

  // Registers and the values written to them.
  const VM0: byte := 0x00
  const DMM: byte := 0x04
  const DMAH: byte := 0x05
  const DMAL: byte := 0x06
  const CMM: byte := 0x08
  const CMAH: byte := 0x09
  const CMAL: byte := 0x0A
  const CMDI: byte := 0x0B
  const OSDBL: byte := 0x6C
  const VM0_READ: byte := 0x80
  const STATUS_READ: byte := 0xA0
  const OSDBL_READ: byte := 0xEC
  const VM0_RESET: byte := 0x02
  const AUTO_INCREMENT: byte := 0x01
  const AUTO_INCREMENT_END: byte := 0xFF
  const WRITE_NVM: byte := 0xA0

  type Cells = s: seq<byte> | |s| == 480 witness seq(480, _ => 0x20)
  type Marks = s: seq<bool> | |s| == 480 witness seq(480, _ => false)

  datatype Standard = Unknown | Ntsc | Pal

  datatype Phase =
    | Stopped | Reset | ResetDelay | ReadBlackLevel | WriteBlackLevel | Probe | Configure | VerifyConfigure
    | Ready | CellAddressHigh | CellAddressLow | CellMode | CellData | CellEnd
    | GlyphDisable | GlyphAddress | GlyphDataAddress | GlyphDataValue | GlyphCommit | GlyphWait | GlyphEnable

  /** The operation in flight; the status poll of a glyph upload has its own. */
  datatype Operation = NoOperation | Of(phase: Phase) | StatusPoll | GlyphStatus

  type Pixels = s: seq<byte> | |s| == 54 witness seq(54, _ => 0)
  const NO_PIXELS: Pixels := seq(54, _ => 0)

  type Characters = s: seq<Pixels> | |s| == 256 witness seq<Pixels>(256, _ => NO_PIXELS)

  datatype Glyph = Glyph(index: byte, pixels: Pixels)

  datatype Status = Status(
    standard: Standard, visibleRows: nat, pendingCharacters: nat, failures: nat,
    initialized: bool, healthy: bool, videoPresent: bool, uploadActive: bool)

  /** The run being sent: where it begins, its cells, and how many have been delivered. */
  datatype RunState = RunState(begin: nat, cells: seq<byte>, progress: nat)

  datatype Driver = Driver(
    phase: Phase, operation: Operation, pending: bool, transmit: seq<byte>, started: nat,
    deadline: nat, nextStatus: nat, active: Standard, fallback: Standard, probes: nat, black: byte,
    desired: Cells, shadow: Cells, valid: Marks, run: RunState,
    glyphs: seq<Glyph>, glyphByte: nat, status: Status)

  /** The registers behind no display memory: the video mode, the black level, and the character memory with
      its address, its byte address, and the number of characters committed. */
  datatype Registers = Registers(
    vm0: byte, black: byte, charAddress: byte, charByte: byte, characters: Characters, commits: nat)

  /** The part of the chip the driver writes to. */
  datatype Chip = Chip(display: Cells, address: nat, autoIncrement: bool, regs: Registers)

  datatype Transfer = Busy | Complete | Failed

  /** The environment's answers: whether a transfer can be queued, how the pending one stands, the byte
      received, and the chip a reset or a broken transfer leaves behind. */
  datatype Reply = Reply(queueOk: bool, transfer: Transfer, received: byte, chaos: Chip)

  datatype World = World(d: Driver, chip: Chip)

  // ---------------------------------------------------------------- the chip

  /** A completed transfer.  One byte is auto-increment data, two are a register write or read. */
  function Apply(chip: Chip, data: seq<byte>, chaos: Chip): Chip {
    if |data| == 1 then
      if !chip.autoIncrement then chip
      else if data[0] == AUTO_INCREMENT_END then chip.(autoIncrement := false)
      else chip.(
        display := if chip.address < CELLS then chip.display[chip.address := data[0]] else chip.display,
        address := (chip.address + 1) % 0x1_0000)
    else if |data| == 2 then
      if data[0] == VM0 && Flag(data[1], 2) then chaos
      else if data[0] == DMAH then chip.(address := chip.address % 0x100 + 0x100 * (data[1] as int % 2))
      else if data[0] == DMAL then chip.(address := 0x100 * (chip.address / 0x100 % 2) + (data[1] as int))
      else if data[0] == DMM then chip.(autoIncrement := Flag(data[1], 1))
      else chip.(regs := Written(chip.regs, data[0], data[1]))
    else chip
  }

  /** A register write; reading, and every other address, changes nothing. */
  function Written(regs: Registers, register: byte, value: byte): Registers {
    if register == VM0 then regs.(vm0 := value)
    else if register == OSDBL then regs.(black := value)
    else if register == CMAH then regs.(charAddress := value)
    else if register == CMAL then regs.(charByte := value)
    else if register == CMDI && regs.charByte < GLYPH_BYTES then
      regs.(characters := regs.characters[
        regs.charAddress := regs.characters[regs.charAddress][regs.charByte := value]])
    else if register == CMM && value / 0x10 == 0x0A then regs.(commits := regs.commits + 1)
    else regs
  }

  /** Whether the bit of the given weight is set. */
  predicate Flag(value: byte, weight: nat)
    requires weight > 0
  {
    value / weight % 2 == 1
  }

  // ---------------------------------------------------------------- pure helpers

  /** A cell may not hold the auto-increment terminator. */
  function Code(value: byte): byte {
    if value == AUTO_INCREMENT_END then 0x3F else value
  }

  function Configured(d: Driver): Standard {
    if d.active.Unknown? then d.fallback else d.active
  }

  function Rows(d: Driver): nat {
    if Configured(d).Ntsc? then 13 else 16
  }

  function Limit(d: Driver): (n: nat)
    ensures n == 390 || n == 480
  {
    COLUMNS * Rows(d)
  }

  function VideoMode(d: Driver, enabled: bool): byte {
    (if Configured(d).Pal? then 0x40 else 0) + (if enabled then 0x08 else 0)
  }

  /** Cell `i` of the chip is not known to show the frame. */
  predicate Dirty(d: Driver, i: nat)
    requires i < CELLS
  {
    !d.valid[i] || d.shadow[i] != Code(d.desired[i])
  }

  function DirtyCount(d: Driver, limit: nat): nat
    requires limit <= CELLS
  {
    if limit == 0 then 0 else DirtyCount(d, limit - 1) + (if Dirty(d, limit - 1) then 1 else 0)
  }

  function Counted(d: Driver): Driver {
    d.(status := d.status.(pendingCharacters := DirtyCount(d, Limit(d))))
  }

  function NoMarks(): Marks {
    seq(480, _ => false)
  }

  function Invalidated(d: Driver): Driver {
    Counted(d.(valid := NoMarks()))
  }

  // ---------------------------------------------------------------- failing and queueing

  function FailDriver(d: Driver, now: nat): Driver {
    Invalidated(d.(
      pending := false, operation := NoOperation, active := Unknown, probes := 0, phase := Reset,
      deadline := now + RETRY_DELAY_US,
      status := d.status.(failures := (d.status.failures + 1) % 0x1_0000_0000, initialized := false,
        healthy := false, videoPresent := false, standard := Unknown, visibleRows := 0)))
  }

  /** A failure aborts whatever transfer is in flight. */
  function Fail(w: World, now: nat, r: Reply): World {
    World(FailDriver(w.d, now), r.chaos)
  }

  function Queue(w: World, data: seq<byte>, operation: Operation, now: nat, r: Reply): World {
    if !r.queueOk then Fail(World(w.d.(transmit := data, operation := operation), w.chip), now, r)
    else World(w.d.(transmit := data, operation := operation, pending := true, started := now), w.chip)
  }

  // ---------------------------------------------------------------- runs

  function FirstDirty(d: Driver, from: nat, limit: nat): (i: nat)
    requires from <= limit <= CELLS
    ensures from <= i <= limit && (i < limit ==> Dirty(d, i))
    ensures forall k :: from <= k < i ==> !Dirty(d, k)
    decreases limit - from
  {
    if from == limit || Dirty(d, from) then from else FirstDirty(d, from + 1, limit)
  }

  /** `cells` is what the frame has from cell `begin` on, and none of it is known to be on the chip. */
  predicate Outstanding(d: Driver, begin: nat, cells: seq<byte>) {
    && begin + |cells| <= Limit(d)
    && forall k :: 0 <= k < |cells| ==> OutstandingAt(d, begin + k, cells[k])
  }

  predicate OutstandingAt(d: Driver, i: nat, cell: byte) {
    i < CELLS && Dirty(d, i) && cell == Code(d.desired[i])
  }

  lemma OutstandingNext(d: Driver, begin: nat, cells: seq<byte>)
    requires Outstanding(d, begin, cells) && begin + |cells| < Limit(d) && Dirty(d, begin + |cells|)
    ensures Outstanding(d, begin, cells + [Code(d.desired[begin + |cells|])])
  {
    var next := cells + [Code(d.desired[begin + |cells|])];
    forall k | 0 <= k < |next| ensures OutstandingAt(d, begin + k, next[k]) {
      if k < |cells| {
        assert OutstandingAt(d, begin + k, cells[k]);
      }
    }
  }

  /** Extend a run over adjacent dirty cells, up to the maximum length. */
  function Collect(d: Driver, begin: nat, cells: seq<byte>): (r: seq<byte>)
    requires |cells| <= MAXIMUM_RUN && Outstanding(d, begin, cells)
    ensures |cells| <= |r| <= MAXIMUM_RUN && Outstanding(d, begin, r)
    decreases MAXIMUM_RUN - |cells|
  {
    var i := begin + |cells|;
    if i >= Limit(d) || |cells| == MAXIMUM_RUN || !Dirty(d, i) then cells
    else
      OutstandingNext(d, begin, cells);
      Collect(d, begin, cells + [Code(d.desired[i])])
  }

  function PrepareCells(d: Driver): Driver {
    var begin := FirstDirty(d, 0, Limit(d));
    if begin == Limit(d) then d.(status := d.status.(pendingCharacters := 0))
    else d.(run := RunState(begin, Collect(d, begin, []), 0), phase := CellAddressHigh)
  }

  // ---------------------------------------------------------------- queueing a phase

  function GlyphIndex(glyphs: seq<Glyph>): byte {
    if glyphs != [] then glyphs[0].index else 0
  }

  function GlyphPixel(glyphs: seq<Glyph>, at: nat): byte {
    if glyphs != [] && at < |glyphs[0].pixels| then glyphs[0].pixels[at] else 0
  }

  function NextCell(run: RunState): seq<byte> {
    if run.progress < |run.cells| then [run.cells[run.progress]] else []
  }

  /** The bytes the current phase sends. */
  function Bytes(d: Driver): seq<byte> {
    match d.phase
    case Reset => [VM0, VM0_RESET]
    case ResetDelay => [OSDBL_READ, 0]
    case ReadBlackLevel => [OSDBL_READ, 0]
    case WriteBlackLevel => [OSDBL, d.black]
    case Probe => [STATUS_READ, 0]
    case Configure => [VM0, VideoMode(d, true)]
    case VerifyConfigure => [VM0_READ, 0]
    case Ready => [STATUS_READ, 0]
    case CellAddressHigh => [DMAH, d.run.begin / 0x100 % 2]
    case CellAddressLow => [DMAL, d.run.begin % 0x100]
    case CellMode => [DMM, AUTO_INCREMENT]
    case CellData => NextCell(d.run)
    case CellEnd => [AUTO_INCREMENT_END]
    case GlyphDisable => [VM0, VideoMode(d, false)]
    case GlyphAddress => [CMAH, GlyphIndex(d.glyphs)]
    case GlyphDataAddress => [CMAL, d.glyphByte % 0x100]
    case GlyphDataValue => [CMDI, GlyphPixel(d.glyphs, d.glyphByte)]
    case GlyphCommit => [CMM, WRITE_NVM]
    case GlyphWait => [STATUS_READ, 0]
    case GlyphEnable => [VM0, VideoMode(d, true)]
    case Stopped => []
  }

  function OperationOf(p: Phase): Operation {
    match p
    case ResetDelay => Of(ReadBlackLevel)
    case Probe => StatusPoll
    case Ready => StatusPoll
    case GlyphWait => GlyphStatus
    case _ => Of(p)
  }

  function Dispatch(w: World, now: nat, r: Reply): World {
    var d := w.d;
    if d.phase.Ready? && now < d.nextStatus then
      if d.glyphs != [] then World(d.(phase := GlyphDisable, status := d.status.(uploadActive := true)), w.chip)
      else World(PrepareCells(d), w.chip)
    else if d.phase.ResetDelay? then
      Queue(World(d.(phase := ReadBlackLevel), w.chip), Bytes(d), Of(ReadBlackLevel), now, r)
    else Queue(w, Bytes(d), OperationOf(d.phase), now, r)
  }

  // ---------------------------------------------------------------- completing a transfer

  function AcceptStatus(w: World, value: byte, now: nat, r: Reply): World {
    var d := w.d;
    if value == 0xFF then Fail(w, now, r)
    else if Flag(value, 0x40) then
      var probes := (d.probes + 1) % 0x1_0000;
      if probes > 100 then Fail(World(d.(probes := probes), w.chip), now, r)
      else World(d.(probes := probes, phase := Probe, deadline := now + 1000), w.chip)
    else
      var video := !Flag(value, 4);
      var detected := if video && Flag(value, 2) then Pal else if video && Flag(value, 1) then Ntsc else Unknown;
      var recovered := video && !d.status.videoPresent;
      var selected := if detected.Unknown? then Configured(d) else detected;
      var d := d.(probes := 0, status := d.status.(videoPresent := video, standard := detected));
      if selected != d.active then World(Reselected(d, selected), w.chip)
      else if !d.status.initialized then World(d.(phase := Configure), w.chip)
      else World(Resumed(d, recovered, now), w.chip)
  }

  /** Another standard: the chip is configured anew. */
  function Reselected(d: Driver, selected: Standard): Driver {
    var d := d.(active := selected, phase := Configure);
    Invalidated(d.(status := d.status.(visibleRows := Rows(d))))
  }

  /** Video that has come back casts doubt on every cell. */
  function Resumed(d: Driver, recovered: bool, now: nat): Driver {
    var d := if recovered then Invalidated(d) else d;
    d.(phase := Ready, nextStatus := now + STATUS_PERIOD_US, status := d.status.(healthy := true))
  }

  /** The run is over: its cells are now known to be on the chip. */
  function RunDone(d: Driver): Driver {
    var run := d.run;
    var shadow := seq(480, i requires 0 <= i < 480 =>
      if run.begin <= i < run.begin + |run.cells| then run.cells[i - run.begin] else d.shadow[i]);
    var valid := seq(480, i requires 0 <= i < 480 =>
      d.valid[i] || run.begin <= i < run.begin + |run.cells|);
    Counted(d.(shadow := shadow, valid := valid)).(phase := Ready)
  }

  function VerifyConfigured(w: World, now: nat, r: Reply): World {
    if And(r.received, 0x49) != VideoMode(w.d, true) then Fail(w, now, r)
    else World(
      Invalidated(w.d.(phase := Ready, deadline := now, nextStatus := now + STATUS_PERIOD_US,
        status := w.d.status.(initialized := true, healthy := true, visibleRows := Rows(w.d)))),
      w.chip)
  }

  function GlyphPolled(d: Driver, busy: bool, now: nat): Driver {
    if busy then d.(phase := GlyphWait, deadline := now + 1000)
    else
      var rest := if d.glyphs != [] then d.glyphs[1..] else [];
      d.(glyphs := rest, glyphByte := 0, phase := if rest == [] then GlyphEnable else GlyphAddress)
  }

  function CompleteRegister(d: Driver, p: Phase, received: byte, now: nat): Driver {
    match p
    case Reset => d.(phase := ResetDelay, deadline := now + 200)
    case ReadBlackLevel => d.(black := And(received, 0xEF), phase := WriteBlackLevel)
    case WriteBlackLevel => d.(phase := Probe)
    case Configure => d.(phase := VerifyConfigure)
    case CellAddressHigh => d.(phase := CellAddressLow)
    case CellAddressLow => d.(phase := CellMode)
    case CellMode => d.(phase := CellData)
    case CellData =>
      d.(run := d.run.(progress := d.run.progress + 1),
         phase := if d.run.progress + 1 < |d.run.cells| then CellData else CellEnd)
    case CellEnd => RunDone(d)
    case GlyphDisable => d.(glyphByte := 0, phase := GlyphAddress)
    case GlyphAddress => d.(phase := GlyphDataAddress)
    case GlyphDataAddress => d.(phase := GlyphDataValue)
    case GlyphDataValue =>
      d.(glyphByte := d.glyphByte + 1,
         phase := if d.glyphByte + 1 < GLYPH_BYTES then GlyphDataAddress else GlyphCommit)
    case GlyphCommit => d.(phase := GlyphWait, deadline := now + 1000)
    case GlyphEnable =>
      d.(phase := Ready, nextStatus := now, status := d.status.(uploadActive := d.glyphs != []))
    case _ => d
  }

  function CompleteOperation(w: World, now: nat, r: Reply): World {
    var d := w.d.(operation := NoOperation);
    match w.d.operation
    case NoOperation => World(d, w.chip)
    case StatusPoll => AcceptStatus(World(d, w.chip), r.received, now, r)
    case GlyphStatus => World(GlyphPolled(d, Flag(r.received, 0x20), now), w.chip)
    case Of(p) =>
      if p.VerifyConfigure? then VerifyConfigured(World(d, w.chip), now, r)
      else World(CompleteRegister(d, p, r.received, now), w.chip)
  }

  // ---------------------------------------------------------------- the calls

  predicate Overdue(d: Driver, now: nat) {
    now < d.started || now - d.started >= TRANSFER_TIMEOUT_US
  }

  function Poll(w: World, now: nat, r: Reply): World {
    match r.transfer
    case Busy => if Overdue(w.d, now) then Fail(w, now, r) else w
    case Failed => Fail(World(w.d.(pending := false), w.chip), now, r)
    case Complete =>
      CompleteOperation(World(w.d.(pending := false), Apply(w.chip, w.d.transmit, r.chaos)), now, r)
  }

  function Tick(w: World, now: nat, r: Reply): World {
    if w.d.phase.Stopped? || now < w.d.deadline then w
    else if w.d.pending then Poll(w, now, r)
    else Dispatch(w, now, r)
  }

  function Start(w: World, now: nat, r: Reply): World {
    World(Invalidated(Restarted(w.d, now)), if w.d.pending then r.chaos else w.chip)
  }

  function Restarted(d: Driver, now: nat): Driver {
    d.(pending := false, operation := NoOperation, phase := Reset, probes := 0, deadline := now,
       nextStatus := now, active := Unknown,
       status := d.status.(standard := Unknown, visibleRows := 0, initialized := false, healthy := false,
         videoPresent := false, uploadActive := false))
  }

  function Submit(w: World, frame: Cells): World {
    World(Counted(w.d.(desired := frame)), w.chip)
  }

  function Upload(w: World, glyph: Glyph): World {
    if |w.d.glyphs| >= GLYPH_QUEUE_DEPTH then w
    else World(w.d.(glyphs := w.d.glyphs + [glyph], status := w.d.status.(uploadActive := true)), w.chip)
  }

  datatype Event =
    | TickEvent(now: nat, r: Reply) | StartEvent(now: nat, r: Reply)
    | SubmitEvent(frame: Cells) | UploadEvent(glyph: Glyph)

  function Step(w: World, e: Event): World {
    match e
    case TickEvent(now, r) => Tick(w, now, r)
    case StartEvent(now, r) => Start(w, now, r)
    case SubmitEvent(frame) => Submit(w, frame)
    case UploadEvent(glyph) => Upload(w, glyph)
  }
}
