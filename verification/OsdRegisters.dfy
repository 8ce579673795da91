/** What the driver leaves in the chip's registers: the display switched on in the configured standard, off while
    characters are written, and the characters themselves. */
module OsdRegisters {
  import opened Bits
  import opened At7456e
  import opened OsdLaws

  // ---------------------------------------------------------------- the invariant

  /** A glyph is there to be written, and its next byte exists. */
  predicate GlyphOk(d: Driver) {
    && (GlyphPhase(d.phase) && !d.phase.GlyphEnable? ==> d.glyphs != [])
    && (d.phase.GlyphAddress? ==> d.glyphByte == 0)
    && (d.phase.GlyphDataAddress? || d.phase.GlyphDataValue? ==> d.glyphByte < GLYPH_BYTES)
    && (d.phase.GlyphCommit? || d.phase.GlyphWait? ==> d.glyphByte == GLYPH_BYTES)
  }

  /** From the chip's reset until it is configured. */
  predicate Starting(p: Phase) {
    p.Stopped? || p.Reset? || p.ResetDelay? || p.ReadBlackLevel? || p.WriteBlackLevel?
  }

  /** The characters are being written, with the display off. */
  predicate Dark(p: Phase) {
    GlyphPhase(p) && !p.GlyphDisable?
  }

  /** The bit that switches the display on, and the one that selects PAL. */
  predicate DisplayOn(regs: Registers) {
    Flag(regs.vm0, 0x08)
  }

  predicate PalMode(regs: Registers) {
    Flag(regs.vm0, 0x40)
  }

  /** The standard is the one last detected, or the fallback while none is. */
  predicate StandardOk(d: Driver) {
    && !d.fallback.Unknown?
    && (d.status.initialized || d.phase.Configure? || d.phase.VerifyConfigure? ==> !d.active.Unknown?)
    && (d.status.standard.Unknown? || d.active == d.status.standard)
  }

  /** Nothing but the two bits is ever set. */
  predicate ModeIs(regs: Registers, on: bool, pal: bool) {
    regs.vm0 == (if on then 0x08 else 0) + (if pal then 0x40 else 0)
  }

  predicate ModeOk(d: Driver, regs: Registers) {
    if Starting(d.phase) then !d.status.initialized
    else if d.phase.VerifyConfigure? then ModeIs(regs, true, d.active.Pal?)
    else if d.phase.Configure? then d.status.initialized ==> ModeIs(regs, true, false) || ModeIs(regs, true, true)
    else if d.phase.Probe? then d.status.initialized ==> ModeIs(regs, true, d.active.Pal?)
    else ModeIs(regs, !Dark(d.phase), d.active.Pal?)
  }

  /** The bytes of the current character sent so far are in the character memory. */
  predicate CharacterOk(d: Driver, regs: Registers)
    requires GlyphOk(d)
  {
    var p := d.phase;
    p.GlyphDataAddress? || p.GlyphDataValue? || p.GlyphCommit? || p.GlyphWait? ==>
      && regs.charAddress == d.glyphs[0].index
      && regs.characters[regs.charAddress][..d.glyphByte] == d.glyphs[0].pixels[..d.glyphByte]
      && (p.GlyphDataValue? ==> regs.charByte == d.glyphByte)
  }

  predicate RegsInv(w: World) {
    && GlyphOk(w.d) && StandardOk(w.d) && ModeOk(w.d, w.chip.regs) && CharacterOk(w.d, w.chip.regs)
    && (w.d.phase.WriteBlackLevel? ==> !Flag(w.d.black, 0x10))
    && (!Starting(w.d.phase) ==> !Flag(w.chip.regs.black, 0x10))
    && (w.d.pending ==> w.d.transmit == Bytes(w.d))
  }

  // ---------------------------------------------------------------- every step keeps it

  lemma FailRegs(w: World, now: nat, r: Reply)
    requires !w.d.fallback.Unknown?
    ensures RegsInv(Fail(w, now, r))
  {
    hide DirtyCount, Bytes;
  }

  /** The bytes of a phase change neither with the transfer nor with the calls that queue work. */
  lemma BytesKept(a: Driver, b: Driver)
    requires a.phase == b.phase && a.run == b.run && a.black == b.black && Configured(a) == Configured(b)
    requires a.glyphByte == b.glyphByte && (GlyphPhase(a.phase) && !a.phase.GlyphEnable? ==> a.glyphs != [])
    requires a.glyphs <= b.glyphs
    ensures Bytes(a) == Bytes(b)
  {
  }

  lemma QueueRegs(w: World, operation: Operation, now: nat, r: Reply)
    requires RegsInv(w) && !w.d.pending
    ensures RegsInv(Queue(w, Bytes(w.d), operation, now, r))
  {
    hide DirtyCount, CharacterOk, ModeOk;
    if !r.queueOk {
      FailRegs(World(w.d.(transmit := Bytes(w.d), operation := operation), w.chip), now, r);
    } else {
      var w' := Queue(w, Bytes(w.d), operation, now, r);
      BytesKept(w.d, w'.d);
      CharacterSame(w.d, w'.d, w.chip.regs);
      ModeSame(w.d, w'.d, w.chip.regs);
    }
    hide Bytes;
  }

  lemma CharacterSame(a: Driver, b: Driver, regs: Registers)
    requires GlyphOk(a) && CharacterOk(a, regs) && a.phase == b.phase && a.glyphByte == b.glyphByte
    requires a.glyphs <= b.glyphs
    ensures GlyphOk(b) && CharacterOk(b, regs)
  {
  }

  lemma ModeSame(a: Driver, b: Driver, regs: Registers)
    requires ModeOk(a, regs) && a.phase == b.phase && a.active == b.active
    requires a.status.initialized == b.status.initialized
    ensures ModeOk(b, regs)
  {
  }

  lemma DispatchRegs(w: World, now: nat, r: Reply)
    requires Inv(w) && RegsInv(w) && !w.d.pending && !w.d.phase.Stopped?
    ensures RegsInv(Dispatch(w, now, r))
  {
    hide DirtyCount, Queue, Bytes, OperationOf, FirstDirty, Collect, Inv;
    var d := w.d;
    if d.phase.Ready? && now < d.nextStatus {
      LiveFacts(w);
    } else if d.phase.ResetDelay? {
      var read := World(d.(phase := ReadBlackLevel), w.chip);
      ReadBytes(d);
      QueueRegs(read, Of(ReadBlackLevel), now, r);
    } else {
      QueueRegs(w, OperationOf(d.phase), now, r);
    }
  }

  lemma ReadBytes(d: Driver)
    requires d.phase.ResetDelay?
    ensures Bytes(d) == Bytes(d.(phase := ReadBlackLevel))
  {
  }

  lemma LiveFacts(w: World)
    requires Inv(w)
    ensures w.d.phase.Ready? || CellPhase(w.d.phase) || GlyphPhase(w.d.phase) ==> w.d.status.initialized
    ensures w.d.pending ==> w.d.operation == OperationOf(w.d.phase) && !w.d.phase.ResetDelay? && !w.d.phase.Stopped?
  {
  }

  lemma AcceptRegs(w: World, value: byte, now: nat, r: Reply)
    requires Inv(w) && RegsInv(w) && !w.d.pending && (w.d.phase.Ready? || w.d.phase.Probe?)
    ensures RegsInv(AcceptStatus(w, value, now, r))
  {
    hide DirtyCount, Inv, Bytes, Fail, NoMarks, OperationOf, Reselected, Resumed, Flag, RegsInv, Configured;
    LiveFacts(w);
    FallbackKnown(w);
    if value == 0xFF {
      FailRegs(w, now, r);
    } else if Flag(value, 0x40) {
      FailRegs(World(w.d.(probes := (w.d.probes + 1) % 0x1_0000), w.chip), now, r);
      ProbeRegs(w, now);
    } else {
      var video := !Flag(value, 4);
      var detected := if video && Flag(value, 2) then Pal else if video && Flag(value, 1) then Ntsc else Unknown;
      var selected := if detected.Unknown? then Configured(w.d) else detected;
      var d := w.d.(probes := 0, status := w.d.status.(videoPresent := video, standard := detected));
      ConfiguredKnown(w, d);
      if selected != d.active {
        ReselectRegs(w, d, selected);
      } else if d.status.initialized {
        ResumeRegs(w, d, video && !w.d.status.videoPresent, now);
      } else {
        ConfigureRegs(w, d);
      }
    }
  }

  lemma ProbeRegs(w: World, now: nat)
    requires RegsInv(w) && !w.d.pending && (w.d.phase.Ready? || w.d.phase.Probe?)
    ensures RegsInv(World(w.d.(probes := (w.d.probes + 1) % 0x1_0000, phase := Probe, deadline := now + 1000), w.chip))
  {
    hide Bytes, Flag;
  }

  lemma ConfiguredKnown(w: World, d: Driver)
    requires RegsInv(w) && d.active == w.d.active && d.fallback == w.d.fallback
    ensures !Configured(w.d).Unknown? && Configured(d) == Configured(w.d)
  {
  }

  lemma ConfigureRegs(w: World, d: Driver)
    requires Probed(w, d) && !d.status.initialized && !d.active.Unknown?
    requires d.status.standard.Unknown? || d.status.standard == d.active
    ensures RegsInv(World(d.(phase := Configure), w.chip))
  {
    hide Bytes, Flag;
  }

  /** Only the status has changed so far. */
  predicate Probed(w: World, d: Driver) {
    && RegsInv(w) && !w.d.pending && (w.d.phase.Ready? || w.d.phase.Probe?)
    && (w.d.phase.Ready? ==> w.d.status.initialized)
    && d == w.d.(probes := 0, status := d.status) && d.status.initialized == w.d.status.initialized
  }

  lemma ReselectRegs(w: World, d: Driver, selected: Standard)
    requires Probed(w, d) && !selected.Unknown? && (d.status.standard.Unknown? || d.status.standard == selected)
    ensures RegsInv(World(Reselected(d, selected), w.chip))
  {
    hide DirtyCount, Bytes, NoMarks, Flag;
  }

  lemma ResumeRegs(w: World, d: Driver, recovered: bool, now: nat)
    requires Probed(w, d) && d.status.initialized
    requires d.status.standard.Unknown? || d.status.standard == d.active
    ensures RegsInv(World(Resumed(d, recovered, now), w.chip))
  {
    hide DirtyCount, Bytes, NoMarks, Flag;
  }

  lemma VerifyRegs(w: World, now: nat, r: Reply)
    requires RegsInv(w) && !w.d.pending && w.d.phase.VerifyConfigure?
    ensures RegsInv(VerifyConfigured(w, now, r))
  {
    hide DirtyCount, Bytes, Fail, NoMarks, And;
    FailRegs(w, now, r);
  }

  lemma AndHead(x: nat, y: nat)
    ensures And(x, y) == (if x % 2 == 1 && y % 2 == 1 then 1 else 0) + 2 * And(x / 2, y / 2)
  {
  }

  /** All ones keep a value. */
  lemma {:induction false} AndAll(x: nat, y: nat, k: nat)
    requires x <= y && y + 1 == Pow2(k)
    ensures And(x, y) == x
    decreases k
  {
    if x > 0 {
      assert k > 0;
      AndAll(x / 2, y / 2, k - 1);
    }
  }

  /** Clearing bit `k` of a value of `k + n + 1` bits. */
  lemma {:induction false} AndClears(x: nat, y: nat, k: nat, n: nat)
    requires x < Pow2(k + n + 1) && y == Pow2(k + n + 1) - 1 - Pow2(k)
    ensures And(x, y) == if Bit(x, k) then x - Pow2(k) else x
    ensures Bit(x, k) ==> x >= Pow2(k)
    decreases k
  {
    if k == 0 {
      assert y % 2 == 0 && y / 2 == Pow2(n) - 1;
      AndAll(x / 2, y / 2, n);
      AndHead(x, y);
    } else {
      assert y % 2 == 1 && y / 2 == Pow2(k + n) - 1 - Pow2(k - 1);
      AndClears(x / 2, y / 2, k - 1, n);
      AndHead(x, y);
    }
  }

  /** The driver clears one bit of the black level and keeps the others. */
  lemma BlackLevel(value: byte)
    ensures And(value, 0xEF) == if Flag(value, 0x10) then value - 0x10 else value
  {
    hide And, Bit, Pow2;
    Pow2Values();
    BitFour(value);
    AndClears(value, 0xEF, 4, 3);
  }

  lemma SetupRegs(w: World, now: nat, r: Reply)
    requires Inv(w) && RegsInv(w) && w.d.pending && !CellPhase(w.d.phase) && !GlyphPhase(w.d.phase)
    requires w.d.operation == Of(w.d.phase) && !w.d.phase.VerifyConfigure?
    ensures RegsInv(Completed(w, now, r))
  {
    BlackLevel(r.received);
    hide DirtyCount, Inv, And;
  }

  lemma CellRegs(w: World, now: nat, r: Reply)
    requires Inv(w) && RegsInv(w) && w.d.pending && CellPhase(w.d.phase)
    ensures RegsInv(Completed(w, now, r))
  {
    LiveFacts(w);
    CellWrites(w.d, w.chip, r.chaos);
    hide DirtyCount, Inv, Apply, Bytes, Flag, NoMarks;
  }

  lemma CellWrites(d: Driver, chip: Chip, chaos: Chip)
    requires CellPhase(d.phase)
    ensures Apply(chip, Bytes(d), chaos).regs == chip.regs
  {
  }

  lemma GlyphRegs(w: World, now: nat, r: Reply)
    requires Inv(w) && RegsInv(w) && w.d.pending && GlyphPhase(w.d.phase) && !w.d.phase.GlyphWait?
    ensures RegsInv(Completed(w, now, r))
  {
    LiveFacts(w);
    hide DirtyCount, Inv;
  }

  /** The transfer of a phase that only reads leaves the registers alone. */
  lemma ReadRegs(w: World, chaos: Chip)
    requires RegsInv(w) && w.d.pending
    requires w.d.phase.Ready? || w.d.phase.Probe? || w.d.phase.VerifyConfigure? || w.d.phase.GlyphWait?
    ensures Apply(w.chip, w.d.transmit, chaos) == w.chip
  {
  }

  lemma IdleRegs(w: World)
    requires RegsInv(w)
    ensures RegsInv(World(w.d.(pending := false, operation := NoOperation), w.chip))
  {
    hide DirtyCount, Bytes;
  }

  lemma PolledRegs(w: World, busy: bool, now: nat)
    requires RegsInv(w) && !w.d.pending && w.d.phase.GlyphWait? && w.d.status.initialized
    ensures RegsInv(World(GlyphPolled(w.d, busy, now), w.chip))
  {
    hide DirtyCount, Bytes;
  }

  lemma PollRegs(w: World, now: nat, r: Reply)
    requires Inv(w) && RegsInv(w) && w.d.pending
    ensures RegsInv(Poll(w, now, r))
  {
    FallbackKnown(w);
    hide DirtyCount, Bytes, Fail, AcceptStatus, VerifyConfigured, CompleteRegister, Apply, RegsInv, GlyphPolled, Flag;
    LiveFacts(w);
    FailRegs(w, now, r);
    FailRegs(World(w.d.(pending := false), w.chip), now, r);
    if r.transfer.Complete? {
      var d := w.d.(pending := false, operation := NoOperation);
      if w.d.phase.Ready? || w.d.phase.Probe? || w.d.phase.VerifyConfigure? || w.d.phase.GlyphWait? {
        ReadRegs(w, r.chaos);
        IdleRegs(w);
        IdleInv(w, d, w.chip);
        var idle := World(d, w.chip);
        hide Inv;
        if w.d.phase.VerifyConfigure? {
          VerifyRegs(idle, now, r);
        } else if w.d.phase.GlyphWait? {
          PolledRegs(idle, Flag(r.received, 0x20), now);
        } else {
          AcceptRegs(idle, r.received, now, r);
        }
      } else {
        hide Inv;
        if CellPhase(w.d.phase) {
          CellRegs(w, now, r);
        } else if GlyphPhase(w.d.phase) {
          GlyphRegs(w, now, r);
        } else {
          SetupRegs(w, now, r);
        }
      }
    }
  }

  lemma FallbackKnown(w: World)
    requires RegsInv(w)
    ensures !w.d.fallback.Unknown?
  {
  }

  /** Every call keeps what the registers hold in line with the phase. */
  lemma StepKeepsRegs(w: World, e: Event)
    requires Inv(w) && RegsInv(w)
    ensures RegsInv(Step(w, e))
  {
    match e
    case TickEvent(now, r) =>
      hide Inv, RegsInv, Poll, Dispatch;
      if w.d.pending {
        PollRegs(w, now, r);
      } else if !w.d.phase.Stopped? {
        DispatchRegs(w, now, r);
      }
      if w.d.phase.Stopped? {
        StoppedIdle(w);
      }
    case StartEvent(now, r) => hide DirtyCount, Bytes, Inv;
    case SubmitEvent(frame) => SubmitRegs(w, frame);
    case UploadEvent(glyph) => UploadRegs(w, glyph);
  }

  lemma SubmitRegs(w: World, frame: Cells)
    requires RegsInv(w)
    ensures RegsInv(Submit(w, frame))
  {
    BytesKept(w.d, Submit(w, frame).d);
    hide DirtyCount, Bytes;
  }

  lemma UploadRegs(w: World, glyph: Glyph)
    requires RegsInv(w)
    ensures RegsInv(Upload(w, glyph))
  {
    BytesKept(w.d, Upload(w, glyph).d);
    hide DirtyCount, Bytes;
  }

  lemma {:induction false} RunKeepsRegs(w: World, events: seq<Event>)
    requires Inv(w) && RegsInv(w)
    ensures RegsInv(Run(w, events))
    decreases |events|
  {
    hide Inv, RegsInv, Step;
    if events != [] {
      RunKeepsRegs(w, events[..|events| - 1]);
      RunKeepsInv(w, events[..|events| - 1]);
      StepKeepsRegs(Run(w, events[..|events| - 1]), events[|events| - 1]);
    }
  }

  lemma InitialRegs(noVideoFallback: Standard, chip: Chip)
    ensures RegsInv(Initial(noVideoFallback, chip))
  {
    hide DirtyCount, Bytes;
  }

  /** In every reachable state of an initialized driver the chip's display is on, in PAL exactly if that is the
      standard the driver works with, except while characters are written, when it is off; and while a change of
      standard is still to be configured it is on in one of the two.  The standard is the one last detected.  The
      automatic black level is on. */
  lemma DisplayAlwaysOn(noVideoFallback: Standard, chip: Chip, events: seq<Event>)
    ensures var w := Run(Initial(noVideoFallback, chip), events);
      w.d.status.initialized ==>
        && (DisplayOn(w.chip.regs) <==> !Dark(w.d.phase))
        && (!w.d.phase.Configure? ==> (PalMode(w.chip.regs) <==> w.d.active.Pal?))
        && !w.d.active.Unknown? && (w.d.status.standard.Unknown? || w.d.active == w.d.status.standard)
        && !Flag(w.chip.regs.black, 0x10)
  {
    var w0 := Initial(noVideoFallback, chip);
    InitialInv(noVideoFallback, chip);
    InitialRegs(noVideoFallback, chip);
    RunKeepsRegs(w0, events);
    RunKeepsInv(w0, events);
    var w := Run(w0, events);
    hide Run, Initial;
    ModeBits(w.chip.regs);
    if w.d.status.initialized {
      hide Bytes, DirtyCount, Coherent, CharacterOk, Flag;
    }
  }

  lemma ModeBits(regs: Registers)
    ensures forall on, pal :: ModeIs(regs, on, pal) ==> DisplayOn(regs) == on && PalMode(regs) == pal
  {
  }

  // ---------------------------------------------------------------- characters

  /** The character memory after the glyphs have been written into it in turn. */
  function Loaded(memory: Characters, glyphs: seq<Glyph>): Characters
    decreases |glyphs|
  {
    if glyphs == [] then memory else Loaded(memory[glyphs[0].index := glyphs[0].pixels], glyphs[1..])
  }

  /** The commits still to come. */
  function Owed(d: Driver): int {
    |d.glyphs| - if d.phase.GlyphWait? then 1 else 0
  }

  /** What the character memory and the commits will be when the queue is empty. */
  predicate SameOutlook(w: World, v: World) {
    && Loaded(v.chip.regs.characters, v.d.glyphs) == Loaded(w.chip.regs.characters, w.d.glyphs)
    && v.chip.regs.commits + Owed(v.d) == w.chip.regs.commits + Owed(w.d)
  }

  /** A failure that is counted. */
  predicate Fails(w: World, v: World) {
    v.d.status.failures != w.d.status.failures
  }

  lemma FailCounts(w: World, now: nat, r: Reply)
    ensures Fails(w, Fail(w, now, r))
  {
    hide DirtyCount;
  }

  lemma QuietOutlook(w: World, v: World)
    requires v.d.glyphs == w.d.glyphs && v.d.phase.GlyphWait? == w.d.phase.GlyphWait?
    requires v.chip.regs.characters == w.chip.regs.characters && v.chip.regs.commits == w.chip.regs.commits
    ensures SameOutlook(w, v)
  {
  }

  /** What completing a register write changes of glyphs and characters. */
  lemma WriteOutlook(w: World, now: nat, r: Reply)
    requires Inv(w) && RegsInv(w) && w.d.pending && w.d.operation == Of(w.d.phase)
    requires !w.d.phase.VerifyConfigure? && !w.d.phase.Reset?
    ensures SameOutlook(w, Completed(w, now, r))
  {
    var v := Completed(w, now, r);
    if w.d.phase.GlyphDataValue? {
      DataOutlook(w, now, r);
    } else if w.d.phase.GlyphCommit? {
      hide DirtyCount, Inv, Loaded;
    } else {
      WriteQuiet(w, now, r);
      hide *;
      QuietOutlook(w, v);
    }
  }

  lemma WriteQuiet(w: World, now: nat, r: Reply)
    requires Inv(w) && RegsInv(w) && w.d.pending && w.d.operation == Of(w.d.phase)
    requires !w.d.phase.VerifyConfigure? && !w.d.phase.Reset? && !w.d.phase.GlyphDataValue? && !w.d.phase.GlyphCommit?
    ensures var v := Completed(w, now, r);
      && v.d.glyphs == w.d.glyphs && !v.d.phase.GlyphWait? && !w.d.phase.GlyphWait?
      && v.chip.regs.characters == w.chip.regs.characters && v.chip.regs.commits == w.chip.regs.commits
  {
    LiveFacts(w);
    hide DirtyCount, Inv, NoMarks, And;
    if CellPhase(w.d.phase) {
      CellWrites(w.d, w.chip, r.chaos);
      hide Apply, Bytes;
    }
  }

  lemma DataOutlook(w: World, now: nat, r: Reply)
    requires Inv(w) && RegsInv(w) && w.d.pending && w.d.operation == Of(w.d.phase) && w.d.phase.GlyphDataValue?
    ensures SameOutlook(w, Completed(w, now, r))
  {
    var v := Completed(w, now, r);
    var before, after := w.chip.regs.characters, v.chip.regs.characters;
    var glyph := w.d.glyphs[0];
    assert w.d.transmit == [CMDI, glyph.pixels[w.d.glyphByte]];
    assert after == before[glyph.index := before[glyph.index][w.d.glyphByte := glyph.pixels[w.d.glyphByte]]];
    assert after[glyph.index := glyph.pixels] == before[glyph.index := glyph.pixels];
    hide DirtyCount, Inv, Apply, Bytes;
  }

  lemma StoredOutlook(w: World, busy: bool, now: nat)
    requires RegsInv(w) && w.d.phase.GlyphWait?
    ensures SameOutlook(w, World(GlyphPolled(w.d, busy, now), w.chip))
  {
    hide DirtyCount, Bytes;
    if !busy {
      var memory, glyph := w.chip.regs.characters, w.d.glyphs[0];
      assert memory[glyph.index] == memory[glyph.index][..54] == glyph.pixels[..54] == glyph.pixels;
      assert memory[glyph.index := glyph.pixels] == memory;
    }
  }

  /** No transfer fails and the chip is not reset. */
  predicate Smooth(w: World, e: Event) {
    && !e.StartEvent? && !Fails(w, Step(w, e))
    && (e.TickEvent? && w.d.pending && e.now >= w.d.deadline ==> !w.d.phase.Reset?)
  }

  lemma DispatchOutlook(w: World, now: nat, r: Reply)
    requires !Fails(w, Dispatch(w, now, r))
    ensures SameOutlook(w, Dispatch(w, now, r))
  {
    FailCounts(World(w.d.(transmit := Bytes(w.d), operation := OperationOf(w.d.phase)), w.chip), now, r);
    var read := w.d.(phase := ReadBlackLevel, transmit := Bytes(w.d), operation := Of(ReadBlackLevel));
    FailCounts(World(read, w.chip), now, r);
    hide DirtyCount, Fail, Bytes, OperationOf, FirstDirty, Collect, Loaded;
  }

  lemma AcceptOutlook(w: World, value: byte, now: nat, r: Reply)
    requires (w.d.phase.Ready? || w.d.phase.Probe?) && !Fails(w, AcceptStatus(w, value, now, r))
    ensures SameOutlook(w, AcceptStatus(w, value, now, r))
  {
    FailCounts(w, now, r);
    FailCounts(World(w.d.(probes := (w.d.probes + 1) % 0x1_0000), w.chip), now, r);
    hide DirtyCount, Fail, Flag, Loaded, NoMarks;
  }

  lemma VerifyOutlook(w: World, now: nat, r: Reply)
    requires w.d.phase.VerifyConfigure? && !Fails(w, VerifyConfigured(w, now, r))
    ensures SameOutlook(w, VerifyConfigured(w, now, r))
  {
    FailCounts(w, now, r);
    hide DirtyCount, Fail, And, Loaded, NoMarks;
  }

  lemma PollOutlook(w: World, now: nat, r: Reply)
    requires Inv(w) && RegsInv(w) && w.d.pending && !w.d.phase.Reset? && !Fails(w, Poll(w, now, r))
    ensures SameOutlook(w, Poll(w, now, r))
  {
    FailCounts(w, now, r);
    FailCounts(World(w.d.(pending := false), w.chip), now, r);
    LiveFacts(w);
    hide DirtyCount, Fail, Bytes, RegsInv, Inv, Loaded, AcceptStatus, VerifyConfigured, CompleteRegister, GlyphPolled;
    hide Apply, Flag;
    if r.transfer.Complete? {
      var d := w.d.(pending := false, operation := NoOperation);
      var idle := World(d, w.chip);
      if w.d.phase.Ready? || w.d.phase.Probe? || w.d.phase.VerifyConfigure? || w.d.phase.GlyphWait? {
        ReadRegs(w, r.chaos);
        IdleRegs(w);
        if w.d.phase.VerifyConfigure? {
          VerifyOutlook(idle, now, r);
        } else if w.d.phase.GlyphWait? {
          StoredOutlook(idle, Flag(r.received, 0x20), now);
        } else {
          AcceptOutlook(idle, r.received, now, r);
        }
      } else {
        WriteOutlook(w, now, r);
      }
    }
  }

  lemma TickOutlook(w: World, now: nat, r: Reply)
    requires Inv(w) && RegsInv(w) && Smooth(w, TickEvent(now, r))
    ensures SameOutlook(w, Tick(w, now, r))
  {
    hide Inv, RegsInv, Poll, Dispatch, SameOutlook;
    if w.d.phase.Stopped? || now < w.d.deadline {
      OutlookSame(w);
    } else if w.d.pending {
      PollOutlook(w, now, r);
    } else {
      DispatchOutlook(w, now, r);
    }
  }

  lemma OutlookSame(w: World)
    ensures SameOutlook(w, w)
  {
  }

  lemma {:induction false} LoadedMore(memory: Characters, glyphs: seq<Glyph>, glyph: Glyph)
    ensures Loaded(memory, glyphs + [glyph]) == Loaded(memory, glyphs)[glyph.index := glyph.pixels]
    decreases |glyphs|
  {
    if glyphs == [] {
      assert [] + [glyph] == [glyph];
    } else {
      assert (glyphs + [glyph])[1..] == glyphs[1..] + [glyph];
      LoadedMore(memory[glyphs[0].index := glyphs[0].pixels], glyphs[1..], glyph);
    }
  }

  predicate AllSmooth(w: World, events: seq<Event>)
    decreases |events|
  {
    events != [] ==>
      var before := events[..|events| - 1];
      AllSmooth(w, before) && Smooth(Run(w, before), events[|events| - 1])
  }

  /** The glyphs in the queue and the ones accepted since. */
  function Queued(w: World, events: seq<Event>): seq<Glyph>
    decreases |events|
  {
    if events == [] then w.d.glyphs
    else
      var before, e := events[..|events| - 1], events[|events| - 1];
      if e.UploadEvent? && |Run(w, before).d.glyphs| < 4 then Queued(w, before) + [e.glyph] else Queued(w, before)
  }

  /** Characters arrive: while no transfer fails, what the memory holds and what the queue adds to it is what it held
      with every glyph queued or accepted since written over it in turn, and each of them is committed once; so once
      the queue is empty the memory holds exactly that. */
  lemma {:induction false} UploadsArrive(w: World, events: seq<Event>)
    requires Inv(w) && RegsInv(w) && AllSmooth(w, events)
    ensures var v := Run(w, events);
      && Loaded(v.chip.regs.characters, v.d.glyphs) == Loaded(w.chip.regs.characters, Queued(w, events))
      && v.chip.regs.commits + Owed(v.d) - Owed(w.d) == w.chip.regs.commits + |Queued(w, events)| - |w.d.glyphs|
      && (v.d.glyphs == [] ==> v.chip.regs.characters == Loaded(w.chip.regs.characters, Queued(w, events)))
    decreases |events|
  {
    hide Inv, RegsInv, Smooth, Step, Loaded;
    if events != [] {
      var before, e := events[..|events| - 1], events[|events| - 1];
      var at := Run(w, before);
      UploadsArrive(w, before);
      RunKeepsInv(w, before);
      RunKeepsRegs(w, before);
      StepOutlook(at, e);
      if e.UploadEvent? && |at.d.glyphs| < 4 {
        LoadedMore(at.chip.regs.characters, at.d.glyphs, e.glyph);
        LoadedMore(w.chip.regs.characters, Queued(w, before), e.glyph);
      }
    }
    LoadedNone(Run(w, events).chip.regs.characters);
  }

  lemma LoadedNone(memory: Characters)
    ensures Loaded(memory, []) == memory
  {
  }

  lemma StepOutlook(w: World, e: Event)
    requires Inv(w) && RegsInv(w) && Smooth(w, e)
    ensures var v := Step(w, e);
      if e.UploadEvent? && |w.d.glyphs| < 4 then
        && v.chip == w.chip && v.d.glyphs == w.d.glyphs + [e.glyph] && Owed(v.d) == Owed(w.d) + 1
      else SameOutlook(w, v)
  {
    match e
    case TickEvent(now, r) =>
      TickOutlook(w, now, r);
      hide Inv, RegsInv, Tick, SameOutlook, Smooth;
    case StartEvent(now, r) => hide Inv, RegsInv;
    case SubmitEvent(frame) => hide Inv, RegsInv, DirtyCount;
    case UploadEvent(glyph) => hide Inv, RegsInv;
  }

  /** What was written last under an index is what stays. */
  lemma {:induction false} LoadedLast(memory: Characters, glyphs: seq<Glyph>, k: nat)
    requires k < |glyphs| && forall j :: k < j < |glyphs| ==> glyphs[j].index != glyphs[k].index
    ensures Loaded(memory, glyphs)[glyphs[k].index] == glyphs[k].pixels
    decreases |glyphs|
  {
    var next := memory[glyphs[0].index := glyphs[0].pixels];
    if k == 0 {
      LoadedOther(next, glyphs[1..], glyphs[0].index);
    } else {
      LoadedLast(next, glyphs[1..], k - 1);
    }
  }

  lemma {:induction false} LoadedOther(memory: Characters, glyphs: seq<Glyph>, index: byte)
    requires forall j :: 0 <= j < |glyphs| ==> glyphs[j].index != index
    ensures Loaded(memory, glyphs)[index] == memory[index]
    decreases |glyphs|
  {
    if glyphs != [] {
      LoadedOther(memory[glyphs[0].index := glyphs[0].pixels], glyphs[1..], index);
    }
  }

  /** Every glyph is in the character memory, the last one where several have the same index. */
  predicate Uploaded(memory: Characters, glyphs: seq<Glyph>) {
    forall k :: 0 <= k < |glyphs| && LastOf(glyphs, k) ==> memory[glyphs[k].index] == glyphs[k].pixels
  }

  predicate LastOf(glyphs: seq<Glyph>, k: nat)
    requires k < |glyphs|
  {
    forall j :: k < j < |glyphs| ==> glyphs[j].index != glyphs[k].index
  }

  lemma LoadedUploads(memory: Characters, glyphs: seq<Glyph>)
    ensures Uploaded(Loaded(memory, glyphs), glyphs)
  {
    forall k | 0 <= k < |glyphs| && LastOf(glyphs, k)
      ensures Loaded(memory, glyphs)[glyphs[k].index] == glyphs[k].pixels
    {
      LoadedLast(memory, glyphs, k);
    }
  }
}
