/** The on-screen-display driver as the object it is: buffers and fields updated in place, one bus
    operation per tick, tied to the step function of `At7456e`. */
module At7456eObject {
  import opened Bits
  import opened At7456e
  import opened OsdLaws

  /** The bus with the chip behind it, and the environment's answers to the next call. */
  class Spi {
    var chip: Chip
    var reply: Reply

    constructor (first: Chip, answers: Reply)
      ensures chip == first && reply == answers
    {
      chip, reply := first, answers;
    }

    method Queue() returns (ok: bool)
      ensures ok == reply.queueOk
    {
      ok := reply.queueOk;
    }

    /** A transfer takes effect on the chip when it completes. */
    method Poll(data: seq<byte>) returns (transfer: Transfer)
      modifies this`chip
      ensures transfer == reply.transfer
      ensures chip == if transfer.Complete? then Apply(old(chip), data, reply.chaos) else old(chip)
    {
      transfer := reply.transfer;
      if transfer.Complete? {
        chip := Apply(chip, data, reply.chaos);
      }
    }

    /** A transfer cut short leaves the chip in any state. */
    method Abort()
      modifies this`chip
      ensures chip == reply.chaos
    {
      chip := reply.chaos;
    }
  }

  class OsdDriver {
    const spi: Spi
    const fallback: Standard
    const shadow: array<byte>
    const shadowValid: array<bool>
    var phase: Phase
    var operation: Operation
    var pending: bool
    var transmit: seq<byte>
    var started: nat
    var deadline: nat
    var nextStatus: nat
    var active: Standard
    var probes: nat
    var black: byte
    var desired: Cells
    var run: RunState
    var glyphs: seq<Glyph>
    var glyphByte: nat
    var status: Status

    ghost predicate Sized()
    {
      shadow.Length == CELLS && shadowValid.Length == CELLS
    }

    ghost function View(): Driver
      reads this, shadow, shadowValid
      requires Sized()
    {
      Driver(phase, operation, pending, transmit, started, deadline, nextStatus, active, fallback, probes, black,
             desired, shadow[..], shadowValid[..], run, glyphs, glyphByte, status)
    }

    ghost function Now(): World
      reads this, shadow, shadowValid, spi
      requires Sized()
    {
      World(View(), spi.chip)
    }

    ghost predicate Valid()
      reads this, shadow, shadowValid, spi
    {
      Sized() && Inv(Now())
    }

    constructor (bus: Spi, noVideoFallback: Standard)
      ensures Valid() && spi == bus && Now() == Initial(noVideoFallback, bus.chip)
      ensures fresh(shadow) && fresh(shadowValid)
    {
      hide DirtyCount, Inv;
      spi := bus;
      fallback := if noVideoFallback.Ntsc? then Ntsc else Pal;
      shadow := new byte[480](_ => 0);
      shadowValid := new bool[480](_ => false);
      phase, operation, pending, transmit := Stopped, NoOperation, false, [];
      started, deadline, nextStatus, probes, black, glyphByte := 0, 0, 0, 0, 0, 0;
      active := Unknown;
      desired := seq(480, _ => 0x20);
      run := RunState(0, [], 0);
      glyphs := [];
      status := Status(Unknown, 0, 0, 0, false, false, false, false);
      new;
      InvalidateShadow();
      assert shadow[..] == seq(480, _ => 0 as byte);
      InitialInv(noVideoFallback, bus.chip);
    }

    // -------------------------------------------------------------- helpers

    method ConfiguredStandard() returns (standard: Standard)
      requires Sized()
      ensures standard == Configured(View())
    {
      standard := if active.Unknown? then fallback else active;
    }

    method VisibleRows() returns (rows: nat)
      requires Sized()
      ensures rows == Rows(View())
    {
      var standard := ConfiguredStandard();
      rows := if standard.Ntsc? then 13 else 16;
    }

    method UpdatePendingCount()
      requires Sized()
      modifies this`status
      ensures View() == Counted(old(View()))
    {
      var rows := VisibleRows();
      var limit := COLUMNS * rows;
      var count := 0;
      for i := 0 to limit
        invariant View() == old(View()) && limit == Limit(View()) && count == DirtyCount(View(), i)
      {
        var code := Code(desired[i]);
        if !shadowValid[i] || shadow[i] != code {
          count := count + 1;
        }
      }
      status := status.(pendingCharacters := count);
      assert View() == old(View()).(status := old(status).(pendingCharacters := count));
    }

    method InvalidateShadow()
      requires Sized()
      modifies this`status, shadowValid
      ensures View() == Invalidated(old(View()))
    {
      hide DirtyCount;
      for i := 0 to CELLS
        invariant forall k :: 0 <= k < i ==> !shadowValid[k]
        invariant old(View()).(valid := shadowValid[..]) == View()
      {
        shadowValid[i] := false;
      }
      assert shadowValid[..] == NoMarks();
      UpdatePendingCount();
    }

    method FailNow(now: nat)
      requires Sized()
      modifies this, shadowValid, spi`chip
      ensures Now() == Fail(old(Now()), now, spi.reply)
    {
      hide DirtyCount, Invalidated;
      spi.Abort();
      pending, operation := false, NoOperation;
      status := status.(failures := (status.failures + 1) % 0x1_0000_0000, initialized := false, healthy := false,
                        videoPresent := false, standard := Unknown, visibleRows := 0);
      active, probes, phase, deadline := Unknown, 0, Reset, now + RETRY_DELAY_US;
      InvalidateShadow();
    }

    method QueueTransfer(data: seq<byte>, kind: Operation, now: nat)
      requires Sized()
      modifies this, shadowValid, spi`chip
      ensures Now() == Queue(old(Now()), data, kind, now, spi.reply)
    {
      hide FailDriver;
      transmit, operation := data, kind;
      var ok := spi.Queue();
      if !ok {
        FailNow(now);
      } else {
        pending, started := true, now;
      }
    }

    // -------------------------------------------------------------- runs

    /** The first cell not known to show the frame. */
    method FindDirty(limit: nat) returns (begin: nat)
      requires Sized() && limit <= CELLS
      ensures begin == FirstDirty(View(), 0, limit)
    {
      begin := 0;
      while begin < limit
        invariant begin <= limit && FirstDirty(View(), 0, limit) == FirstDirty(View(), begin, limit)
      {
        var code := Code(desired[begin]);
        if !shadowValid[begin] || shadow[begin] != code {
          break;
        }
        begin := begin + 1;
      }
    }

    method PrepareRun()
      requires Sized()
      modifies this`status, this`run, this`phase
      ensures View() == PrepareCells(old(View()))
    {
      hide DirtyCount;
      var rows := VisibleRows();
      var limit := COLUMNS * rows;
      var begin := FindDirty(limit);
      if begin == limit {
        status := status.(pendingCharacters := 0);
        return;
      }
      var cells := CollectRun(begin, limit);
      run, phase := RunState(begin, cells, 0), CellAddressHigh;
    }

    /** Extend the run over adjacent dirty cells. */
    method CollectRun(begin: nat, limit: nat) returns (cells: seq<byte>)
      requires Sized() && limit == Limit(View()) && begin < limit && Dirty(View(), begin)
      ensures cells == Collect(View(), begin, [])
    {
      hide DirtyCount, Limit;
      ghost var d := View();
      cells := [];
      while begin + |cells| < limit && |cells| < MAXIMUM_RUN
        invariant |cells| <= MAXIMUM_RUN && Outstanding(d, begin, cells)
        invariant Collect(d, begin, cells) == Collect(d, begin, [])
        decreases MAXIMUM_RUN - |cells|
      {
        var i := begin + |cells|;
        var code := Code(desired[i]);
        if |cells| != 0 && shadowValid[i] && shadow[i] == code {
          break;
        }
        OutstandingNext(d, begin, cells);
        cells := cells + [code];
      }
    }

    /** The terminator has been delivered: the run's cells enter the shadow. */
    method FinishRun()
      requires Sized() && run.begin + |run.cells| <= CELLS
      modifies this`status, this`phase, shadow, shadowValid
      ensures View() == RunDone(old(View()))
    {
      CopyRun();
      hide DirtyCount;
      UpdatePendingCount();
      phase := Ready;
    }

    method CopyRun()
      requires Sized() && run.begin + |run.cells| <= CELLS
      modifies shadow, shadowValid
      ensures View() == old(View()).(shadow := RunDone(old(View())).shadow, valid := RunDone(old(View())).valid)
    {
      hide DirtyCount, Counted;
      ghost var after := RunDone(View());
      DoneCells(View());
      hide RunDone;
      CopyCells();
      assert shadow[..] == after.shadow && shadowValid[..] == after.valid;
    }

    method CopyCells()
      requires Sized() && run.begin + |run.cells| <= CELLS
      modifies shadow, shadowValid
      ensures forall i :: 0 <= i < CELLS && run.begin <= i < run.begin + |run.cells| ==>
        shadow[i] == run.cells[i - run.begin] && shadowValid[i]
      ensures forall i :: 0 <= i < CELLS && !(run.begin <= i < run.begin + |run.cells|) ==>
        shadow[i] == old(shadow[i]) && shadowValid[i] == old(shadowValid[i])
    {
      for k := 0 to |run.cells|
        invariant forall i :: run.begin <= i < run.begin + k ==> shadow[i] == run.cells[i - run.begin] && shadowValid[i]
        invariant forall i :: 0 <= i < CELLS && !(run.begin <= i < run.begin + k) ==>
          shadow[i] == old(shadow[i]) && shadowValid[i] == old(shadowValid[i])
      {
        shadow[run.begin + k] := run.cells[k];
        shadowValid[run.begin + k] := true;
      }
    }

    // -------------------------------------------------------------- completing a transfer

    method AcceptStatusNow(value: byte, now: nat)
      requires Sized()
      modifies this, shadowValid, spi`chip
      ensures Now() == AcceptStatus(old(Now()), value, now, spi.reply)
    {
      hide DirtyCount, Invalidated, FailDriver;
      if value == 0xFF {
        FailNow(now);
      } else if Flag(value, 0x40) {
        probes := (probes + 1) % 0x1_0000;
        if probes > 100 {
          FailNow(now);
        } else {
          phase, deadline := Probe, now + 1000;
        }
      } else {
        AcceptLive(value, now);
      }
    }

    method AcceptLive(value: byte, now: nat)
      requires Sized() && value != 0xFF && !Flag(value, 0x40)
      modifies this, shadowValid
      ensures Now() == AcceptStatus(old(Now()), value, now, spi.reply)
    {
      hide DirtyCount, Invalidated, Flag, Reselected, Resumed;
      var video := !Flag(value, 4);
      var detected := if video && Flag(value, 2) then Pal else if video && Flag(value, 1) then Ntsc else Unknown;
      var recovered := video && !status.videoPresent;
      probes := 0;
      status := status.(videoPresent := video, standard := detected);
      assert View() == old(View()).(probes := 0, status := status);
      var current := ConfiguredStandard();
      var selected := if detected.Unknown? then current else detected;
      if selected != active {
        Reselect(selected);
      } else if !status.initialized {
        phase := Configure;
      } else {
        Resume(recovered, now);
      }
    }

    method Reselect(selected: Standard)
      requires Sized()
      modifies this`active, this`status, this`phase, shadowValid
      ensures View() == Reselected(old(View()), selected)
    {
      hide DirtyCount, Invalidated;
      active := selected;
      var rows := VisibleRows();
      status := status.(visibleRows := rows);
      phase := Configure;
      InvalidateShadow();
    }

    method Resume(recovered: bool, now: nat)
      requires Sized()
      modifies this`nextStatus, this`status, this`phase, shadowValid
      ensures View() == Resumed(old(View()), recovered, now)
    {
      hide DirtyCount, Invalidated;
      if recovered {
        InvalidateShadow();
      }
      status := status.(healthy := true);
      phase, nextStatus := Ready, now + STATUS_PERIOD_US;
    }

    method VerifyConfiguredNow(now: nat)
      requires Sized()
      modifies this, shadowValid, spi`chip
      ensures Now() == VerifyConfigured(old(Now()), now, spi.reply)
    {
      hide DirtyCount, Invalidated, FailDriver, And;
      var standard := ConfiguredStandard();
      var mode: byte := (if standard.Pal? then 0x40 else 0) + 0x08;
      if And(spi.reply.received, 0x49) != mode {
        FailNow(now);
      } else {
        var rows := VisibleRows();
        status := status.(initialized := true, healthy := true, visibleRows := rows);
        phase, deadline, nextStatus := Ready, now, now + STATUS_PERIOD_US;
        InvalidateShadow();
      }
    }

    method GlyphStatusNow(busy: bool, now: nat)
      requires Sized()
      modifies this`phase, this`deadline, this`glyphs, this`glyphByte
      ensures View() == GlyphPolled(old(View()), busy, now)
    {
      if busy {
        phase, deadline := GlyphWait, now + 1000;
      } else {
        glyphs := if glyphs != [] then glyphs[1..] else [];
        glyphByte := 0;
        phase := if glyphs == [] then GlyphEnable else GlyphAddress;
      }
    }

    method CompleteSetup(p: Phase, now: nat)
      requires Sized() && !CellPhase(p) && !GlyphPhase(p)
      modifies this`phase, this`deadline, this`black
      ensures View() == CompleteRegister(old(View()), p, spi.reply.received, now)
    {
      hide RunDone, And;
      match p
      case Reset => phase, deadline := ResetDelay, now + 200;
      case ReadBlackLevel => black, phase := And(spi.reply.received, 0xEF), WriteBlackLevel;
      case WriteBlackLevel => phase := Probe;
      case Configure => phase := VerifyConfigure;
      case _ =>
    }

    method CompleteCell(p: Phase, now: nat)
      requires Sized() && CellPhase(p) && run.begin + |run.cells| <= CELLS
      modifies this`phase, this`run, this`status, shadow, shadowValid
      ensures View() == CompleteRegister(old(View()), p, spi.reply.received, now)
    {
      hide RunDone, And;
      match p
      case CellAddressHigh => phase := CellAddressLow;
      case CellAddressLow => phase := CellMode;
      case CellMode => phase := CellData;
      case CellData =>
        run := run.(progress := run.progress + 1);
        phase := if run.progress < |run.cells| then CellData else CellEnd;
      case CellEnd => FinishRun();
    }

    method CompleteGlyph(p: Phase, now: nat)
      requires Sized() && GlyphPhase(p) && !p.GlyphWait?
      modifies this`phase, this`deadline, this`glyphByte, this`nextStatus, this`status
      ensures View() == CompleteRegister(old(View()), p, spi.reply.received, now)
    {
      if p.GlyphCommit? {
        phase, deadline := GlyphWait, now + 1000;
      } else if p.GlyphEnable? {
        phase, nextStatus := Ready, now;
        status := status.(uploadActive := glyphs != []);
      } else {
        CompletePixel(p, now);
      }
    }

    method CompletePixel(p: Phase, now: nat)
      requires Sized() && (p.GlyphDisable? || p.GlyphAddress? || p.GlyphDataAddress? || p.GlyphDataValue?)
      modifies this`phase, this`glyphByte
      ensures View() == CompleteRegister(old(View()), p, spi.reply.received, now)
    {
      match p
      case GlyphDisable => glyphByte, phase := 0, GlyphAddress;
      case GlyphAddress => phase := GlyphDataAddress;
      case GlyphDataAddress => phase := GlyphDataValue;
      case GlyphDataValue =>
        glyphByte := glyphByte + 1;
        phase := if glyphByte < GLYPH_BYTES then GlyphDataAddress else GlyphCommit;
    }

    /** A completed operation never is one of a phase without a transfer of its own. */
    ghost predicate Completing()
      reads this
    {
      operation.Of? ==>
        && !operation.phase.GlyphWait?
        && (CellPhase(operation.phase) ==> run.begin + |run.cells| <= CELLS)
    }

    method CompleteNow(now: nat)
      requires Sized() && Completing()
      modifies this, shadow, shadowValid, spi`chip
      ensures Now() == CompleteOperation(old(Now()), now, spi.reply)
    {
      hide DirtyCount, FailDriver, AcceptStatus, VerifyConfigured, GlyphPolled, CompleteRegister, Flag;
      var completed := operation;
      operation := NoOperation;
      match completed
      case NoOperation =>
      case StatusPoll => AcceptStatusNow(spi.reply.received, now);
      case GlyphStatus => GlyphStatusNow(Flag(spi.reply.received, 0x20), now);
      case Of(p) =>
        if p.VerifyConfigure? {
          VerifyConfiguredNow(now);
        } else if CellPhase(p) {
          CompleteCell(p, now);
        } else if GlyphPhase(p) {
          CompleteGlyph(p, now);
        } else {
          CompleteSetup(p, now);
        }
    }

    // -------------------------------------------------------------- queueing a phase

    method DispatchSetup(now: nat)
      requires Sized() && !CellPhase(phase) && !GlyphPhase(phase) && !phase.Stopped? && !phase.Ready?
      modifies this, shadowValid, spi`chip
      ensures Now() == Dispatch(old(Now()), now, spi.reply)
    {
      hide DirtyCount, Fail, PrepareCells;
      var standard := ConfiguredStandard();
      match phase
      case Reset => QueueTransfer([VM0, VM0_RESET], Of(Reset), now);
      case ResetDelay =>
        phase := ReadBlackLevel;
        QueueTransfer([OSDBL_READ, 0], Of(ReadBlackLevel), now);
      case ReadBlackLevel => QueueTransfer([OSDBL_READ, 0], Of(ReadBlackLevel), now);
      case WriteBlackLevel => QueueTransfer([OSDBL, black], Of(WriteBlackLevel), now);
      case Probe => QueueTransfer([STATUS_READ, 0], StatusPoll, now);
      case Configure => QueueTransfer([VM0, (if standard.Pal? then 0x40 else 0) + 0x08], Of(Configure), now);
      case VerifyConfigure => QueueTransfer([VM0_READ, 0], Of(VerifyConfigure), now);
    }

    method DispatchReady(now: nat)
      requires Sized() && phase.Ready?
      modifies this, shadowValid, spi`chip
      ensures Now() == Dispatch(old(Now()), now, spi.reply)
    {
      hide DirtyCount, Fail, PrepareCells;
      if now >= nextStatus {
        QueueTransfer([STATUS_READ, 0], StatusPoll, now);
      } else if glyphs != [] {
        phase := GlyphDisable;
        status := status.(uploadActive := true);
      } else {
        PrepareRun();
      }
    }

    method DispatchCell(now: nat)
      requires Sized() && CellPhase(phase) && (phase.CellData? ==> run.progress < |run.cells|)
      modifies this, shadowValid, spi`chip
      ensures Now() == Dispatch(old(Now()), now, spi.reply)
    {
      hide DirtyCount, Fail, PrepareCells;
      match phase
      case CellAddressHigh => QueueTransfer([DMAH, run.begin / 0x100 % 2], Of(CellAddressHigh), now);
      case CellAddressLow => QueueTransfer([DMAL, run.begin % 0x100], Of(CellAddressLow), now);
      case CellMode => QueueTransfer([DMM, AUTO_INCREMENT], Of(CellMode), now);
      case CellData => QueueTransfer([run.cells[run.progress]], Of(CellData), now);
      case CellEnd => QueueTransfer([AUTO_INCREMENT_END], Of(CellEnd), now);
    }

    method DispatchGlyph(now: nat)
      requires Sized() && GlyphPhase(phase)
      modifies this, shadowValid, spi`chip
      ensures Now() == Dispatch(old(Now()), now, spi.reply)
    {
      hide DirtyCount, Fail, PrepareCells, GlyphIndex, GlyphPixel;
      var standard := ConfiguredStandard();
      var pal: byte := if standard.Pal? then 0x40 else 0;
      match phase
      case GlyphDisable => QueueTransfer([VM0, pal], Of(GlyphDisable), now);
      case GlyphAddress => QueueTransfer([CMAH, GlyphIndex(glyphs)], Of(GlyphAddress), now);
      case GlyphDataAddress => QueueTransfer([CMAL, glyphByte % 0x100], Of(GlyphDataAddress), now);
      case GlyphDataValue => QueueTransfer([CMDI, GlyphPixel(glyphs, glyphByte)], Of(GlyphDataValue), now);
      case GlyphCommit => QueueTransfer([CMM, WRITE_NVM], Of(GlyphCommit), now);
      case GlyphWait => QueueTransfer([STATUS_READ, 0], GlyphStatus, now);
      case GlyphEnable => QueueTransfer([VM0, pal + 0x08], Of(GlyphEnable), now);
    }

    // -------------------------------------------------------------- the calls

    method PollNow(now: nat)
      requires Sized() && Completing()
      modifies this, shadow, shadowValid, spi`chip
      ensures Now() == Poll(old(Now()), now, spi.reply)
    {
      hide DirtyCount, FailDriver, CompleteOperation, Apply;
      var transfer := spi.Poll(transmit);
      if transfer.Busy? {
        if now < started || now - started >= TRANSFER_TIMEOUT_US {
          FailNow(now);
        }
        return;
      }
      pending := false;
      if transfer.Failed? {
        FailNow(now);
        return;
      }
      CompleteNow(now);
    }

    method TickNow(now: nat)
      requires Valid()
      modifies this, shadow, shadowValid, spi`chip
      ensures Now() == Tick(old(Now()), now, spi.reply) && Valid()
    {
      StepKeepsInv(Now(), TickEvent(now, spi.reply));
      RunFits(Now());
      PendingCompletes();
      assert Step(Now(), TickEvent(now, spi.reply)) == Tick(Now(), now, spi.reply);
      hide Inv, Poll, Dispatch, Step;
      if phase.Stopped? || now < deadline {
        return;
      }
      if pending {
        PollNow(now);
      } else if CellPhase(phase) {
        DispatchCell(now);
      } else if GlyphPhase(phase) {
        DispatchGlyph(now);
      } else if phase.Ready? {
        DispatchReady(now);
      } else {
        DispatchSetup(now);
      }
    }

    lemma PendingCompletes()
      requires Valid()
      ensures pending ==> Completing()
    {
    }

    method StartNow(now: nat)
      requires Valid()
      modifies this, shadowValid, spi`chip
      ensures Now() == Start(old(Now()), now, spi.reply) && Valid()
    {
      StepKeepsInv(Now(), StartEvent(now, spi.reply));
      assert Step(Now(), StartEvent(now, spi.reply)) == Start(Now(), now, spi.reply);
      hide Inv, Step, DirtyCount, Invalidated, Restarted;
      if pending {
        spi.Abort();
      }
      Restart(now);
      InvalidateShadow();
    }

    method Restart(now: nat)
      requires Sized()
      modifies this`pending, this`operation, this`phase, this`probes, this`deadline, this`nextStatus
      modifies this`active, this`status
      ensures View() == Restarted(old(View()), now)
    {
      ghost var d := View();
      ClearTransfer();
      deadline, nextStatus := now, now;
      active := Unknown;
      status := status.(standard := Unknown, visibleRows := 0, initialized := false, healthy := false,
                        videoPresent := false, uploadActive := false);
      assert View() == d.(pending := false, operation := NoOperation, phase := Reset, probes := 0,
                          deadline := now, nextStatus := now, active := Unknown, status := status);
    }

    method ClearTransfer()
      requires Sized()
      modifies this`pending, this`operation, this`phase, this`probes
      ensures View() == old(View()).(pending := false, operation := NoOperation, phase := Reset, probes := 0)
    {
      pending, operation, phase, probes := false, NoOperation, Reset, 0;
    }

    method SubmitFrame(frame: Cells)
      requires Valid()
      modifies this`desired, this`status
      ensures Now() == Submit(old(Now()), frame) && Valid()
    {
      StepKeepsInv(Now(), SubmitEvent(frame));
      hide Inv, DirtyCount, Counted;
      desired := frame;
      UpdatePendingCount();
    }

    method UploadGlyph(glyph: Glyph) returns (accepted: bool)
      requires Valid()
      modifies this`glyphs, this`status
      ensures accepted == (|old(glyphs)| < GLYPH_QUEUE_DEPTH)
      ensures Now() == Upload(old(Now()), glyph) && Valid()
    {
      StepKeepsInv(Now(), UploadEvent(glyph));
      hide Inv;
      if |glyphs| >= GLYPH_QUEUE_DEPTH {
        return false;
      }
      glyphs := glyphs + [glyph];
      status := status.(uploadActive := true);
      accepted := true;
    }
  }

  /** What the end of a run leaves in shadow and marks. */
  lemma DoneCells(d: Driver)
    ensures forall i :: 0 <= i < CELLS ==>
      RunDone(d).shadow[i] ==
        if d.run.begin <= i < d.run.begin + |d.run.cells| then d.run.cells[i - d.run.begin] else d.shadow[i]
    ensures forall i :: 0 <= i < CELLS ==>
      RunDone(d).valid[i] == (d.valid[i] || d.run.begin <= i < d.run.begin + |d.run.cells|)
  {
    hide DirtyCount;
  }
}
