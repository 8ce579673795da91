/** Coherence of the shadow with the chip in every run, however transfers fail or stall. */
module OsdLaws {
  import opened Bits
  import opened At7456e

  // ---------------------------------------------------------------- the invariant

  predicate CellPhase(p: Phase) {
    p.CellAddressHigh? || p.CellAddressLow? || p.CellMode? || p.CellData? || p.CellEnd?
  }

  /** A run stays inside the visible rows, never contains the terminator, and its progress fits the
      phase. */
  predicate RunOk(d: Driver) {
    CellPhase(d.phase) ==>
      && 0 < |d.run.cells| <= MAXIMUM_RUN && d.run.begin + |d.run.cells| <= Limit(d)
      && (forall k :: 0 <= k < |d.run.cells| ==> d.run.cells[k] != AUTO_INCREMENT_END)
      && (if d.phase.CellData? then d.run.progress < |d.run.cells|
          else if d.phase.CellEnd? then d.run.progress == |d.run.cells|
          else d.run.progress == 0)
  }

  /** A register access that touches neither display memory nor the auto-increment state. */
  predicate Harmless(data: seq<byte>) {
    && |data| == 2 && data[0] != DMM && data[0] != DMAH && data[0] != DMAL
    && !(data[0] == VM0 && Flag(data[1], 2))
  }

  predicate PendingOk(d: Driver) {
    d.pending ==>
      && d.operation == OperationOf(d.phase) && !d.phase.ResetDelay?
      && (if CellPhase(d.phase) then d.transmit == Bytes(d) else Harmless(d.transmit) || d.phase.Reset?)
  }

  /** The chip's address counter follows the run. */
  predicate ChipOk(d: Driver, chip: Chip) {
    && (d.phase.CellAddressLow? ==> chip.address / 0x100 % 2 == d.run.begin / 0x100)
    && (d.phase.CellMode? ==> chip.address == d.run.begin)
    && (Sending(d) ==>
        && chip.autoIncrement && chip.address == d.run.begin + d.run.progress
        && d.run.begin + d.run.progress <= CELLS && d.run.progress <= |d.run.cells|
        && chip.display[d.run.begin..d.run.begin + d.run.progress] == d.run.cells[..d.run.progress])
  }

  predicate Sending(d: Driver) {
    d.phase.CellData? || d.phase.CellEnd?
  }

  /** Cell `i` belongs to the part of the current run that has been sent. */
  predicate Sent(d: Driver, i: nat) {
    Sending(d) && d.run.begin <= i < d.run.begin + d.run.progress
  }

  /** Every valid shadow cell outside the part of the run already sent equals the chip's cell. */
  predicate Coherent(w: World) {
    forall i :: 0 <= i < CELLS && w.d.valid[i] && !Sent(w.d, i) ==> w.d.shadow[i] == w.chip.display[i]
  }

  /** Phases in which the chip may lose its display memory. */
  predicate Blind(d: Driver) {
    || !d.status.initialized || d.phase.Stopped? || d.phase.Reset? || d.phase.ResetDelay? || d.phase.ReadBlackLevel?
    || d.phase.WriteBlackLevel? || d.phase.Configure? || d.phase.VerifyConfigure?
  }

  /** Cells and glyphs are sent only to a configured chip. */
  predicate LiveOk(d: Driver) {
    d.phase.Ready? || CellPhase(d.phase) || GlyphPhase(d.phase) ==> d.status.initialized
  }

  predicate GlyphPhase(p: Phase) {
    || p.GlyphDisable? || p.GlyphAddress? || p.GlyphDataAddress? || p.GlyphDataValue?
    || p.GlyphCommit? || p.GlyphWait? || p.GlyphEnable?
  }

  predicate NothingValid(d: Driver) {
    forall i :: 0 <= i < CELLS ==> !d.valid[i]
  }

  predicate Inv(w: World) {
    && RunOk(w.d) && PendingOk(w.d) && ChipOk(w.d, w.chip) && Coherent(w)
    && (Blind(w.d) ==> NothingValid(w.d)) && LiveOk(w.d)
    && (w.d.phase.Stopped? ==> !w.d.pending)
  }

  // ---------------------------------------------------------------- every step keeps it

  lemma FailInv(w: World, now: nat, r: Reply)
    ensures Inv(Fail(w, now, r))
  {
    hide DirtyCount;
  }

  lemma QueueInv(w: World, data: seq<byte>, operation: Operation, now: nat, r: Reply)
    requires Inv(w) && !w.d.pending
    requires operation == OperationOf(w.d.phase)
    requires if CellPhase(w.d.phase) then data == Bytes(w.d) else Harmless(data) || w.d.phase.Reset?
    requires !w.d.phase.Stopped? && !w.d.phase.ResetDelay?
    ensures Inv(Queue(w, data, operation, now, r))
  {
    hide Bytes, OperationOf, Harmless;
    if !r.queueOk {
      FailInv(World(w.d.(transmit := data, operation := operation), w.chip), now, r);
    } else {
      var w' := Queue(w, data, operation, now, r);
      BytesSame(w.d, w'.d);
      assert Limit(w'.d) == Limit(w.d);
    }
  }

  /** The bytes of a cell phase depend on the run alone. */
  lemma BytesSame(a: Driver, b: Driver)
    requires a.phase == b.phase && CellPhase(a.phase) ==> a.run == b.run
    ensures a.phase == b.phase && CellPhase(a.phase) ==> Bytes(a) == Bytes(b)
  {
  }

  lemma PrepareInv(w: World)
    requires Inv(w) && w.d.phase.Ready? && !w.d.pending
    ensures Inv(World(PrepareCells(w.d), w.chip))
  {
    hide Bytes, OperationOf, Harmless, DirtyCount;
    var d := w.d;
    var begin := FirstDirty(d, 0, Limit(d));
    if begin < Limit(d) {
      var cells := Collect(d, begin, []);
      CollectNonEmpty(d, begin);
      assert forall k :: 0 <= k < |cells| ==> cells[k] == Code(d.desired[begin + k]);
      assert Limit(PrepareCells(d)) == Limit(d);
    }
  }

  lemma CollectNonEmpty(d: Driver, begin: nat)
    requires begin < Limit(d) && Dirty(d, begin)
    ensures Collect(d, begin, []) != []
  {
    OutstandingNext(d, begin, []);
    assert [] + [Code(d.desired[begin])] == [Code(d.desired[begin])];
  }

  lemma DispatchInv(w: World, now: nat, r: Reply)
    requires Inv(w) && !w.d.pending && !w.d.phase.Stopped?
    ensures Inv(Dispatch(w, now, r))
  {
    hide DirtyCount;
    var d := w.d;
    if d.phase.Ready? && now < d.nextStatus {
      if d.glyphs == [] {
        PrepareInv(w);
      }
    } else if d.phase.ResetDelay? {
      QueueInv(World(d.(phase := ReadBlackLevel), w.chip), Bytes(d), Of(ReadBlackLevel), now, r);
    } else {
      if !CellPhase(d.phase) && !d.phase.Reset? {
        HarmlessBytes(d);
      }
      QueueInv(w, Bytes(d), OperationOf(d.phase), now, r);
    }
  }

  lemma HarmlessBytes(d: Driver)
    requires !CellPhase(d.phase) && !d.phase.Stopped? && !d.phase.Reset?
    ensures Harmless(Bytes(d))
  {
  }

  lemma AcceptInv(w: World, value: byte, now: nat, r: Reply)
    requires Inv(w) && !w.d.pending && (w.d.phase.Ready? || w.d.phase.Probe?)
    ensures Inv(AcceptStatus(w, value, now, r))
  {
    hide DirtyCount, Bytes, OperationOf, Invalidated, Fail;
    if value == 0xFF {
      FailInv(w, now, r);
    } else if Flag(value, 0x40) {
      FailInv(World(w.d.(probes := (w.d.probes + 1) % 0x1_0000), w.chip), now, r);
    } else {
      AcceptLiveInv(w, value, now, r);
    }
  }

  lemma AcceptLiveInv(w: World, value: byte, now: nat, r: Reply)
    requires Inv(w) && !w.d.pending && (w.d.phase.Ready? || w.d.phase.Probe?)
    requires value != 0xFF && !Flag(value, 0x40)
    ensures Inv(AcceptStatus(w, value, now, r))
  {
    hide DirtyCount, Bytes, OperationOf, Rows;
  }

  lemma VerifyInv(w: World, now: nat, r: Reply)
    requires Inv(w) && !w.d.pending && w.d.phase.VerifyConfigure?
    ensures Inv(VerifyConfigured(w, now, r))
  {
    hide DirtyCount, Bytes, OperationOf, Rows, VideoMode;
    FailInv(w, now, r);
  }

  function Completed(w: World, now: nat, r: Reply): World {
    World(CompleteRegister(w.d.(pending := false, operation := NoOperation), w.d.phase, r.received, now),
          Apply(w.chip, w.d.transmit, r.chaos))
  }

  /** Setting up a run: the chip's address counter takes the run's first cell. */
  lemma AddressInv(w: World, now: nat, r: Reply)
    requires Inv(w) && w.d.pending
    requires w.d.phase.CellAddressHigh? || w.d.phase.CellAddressLow? || w.d.phase.CellMode?
    ensures Inv(Completed(w, now, r))
  {
    hide DirtyCount;
    assert w.d.transmit == Bytes(w.d);
    AddressSet(w.d, w.chip, r.chaos);
    hide Apply, Bytes;
  }

  lemma AddressSet(d: Driver, chip: Chip, chaos: Chip)
    requires RunOk(d) && ChipOk(d, chip)
    requires d.phase.CellAddressHigh? || d.phase.CellAddressLow? || d.phase.CellMode?
    ensures var chip' := Apply(chip, Bytes(d), chaos);
      && chip'.display == chip.display
      && (d.phase.CellAddressHigh? ==> chip'.address / 0x100 % 2 == d.run.begin / 0x100)
      && (!d.phase.CellAddressHigh? ==> chip'.address == d.run.begin)
      && (d.phase.CellMode? ==> chip'.autoIncrement)
  {
  }

  /** A cell transfer: the chip's counter and memory advance with the run. */
  lemma DataInv(w: World, now: nat, r: Reply)
    requires Inv(w) && w.d.pending && w.d.phase.CellData?
    ensures Inv(Completed(w, now, r))
  {
    hide DirtyCount, RunDone;
    var run := w.d.run;
    assert w.d.transmit == Bytes(w.d) == [run.cells[run.progress]];
    assert run.cells[..run.progress + 1] == run.cells[..run.progress] + [run.cells[run.progress]];
    var chip' := Apply(w.chip, w.d.transmit, r.chaos);
    assert chip'.display == w.chip.display[run.begin + run.progress := run.cells[run.progress]];
    hide Apply, Bytes;
  }

  lemma CellEndInv(w: World, now: nat, r: Reply)
    requires Inv(w) && w.d.pending && w.d.phase.CellEnd?
    ensures Inv(Completed(w, now, r))
  {
    hide DirtyCount;
    var d, run := w.d, w.d.run;
    assert d.transmit == Bytes(d);
    forall i | run.begin <= i < run.begin + |run.cells| ensures w.chip.display[i] == run.cells[i - run.begin] {
      assert w.chip.display[run.begin..run.begin + run.progress][i - run.begin] == w.chip.display[i];
    }
  }

  /** The chips agree in display memory and in the state that writes to it. */
  predicate SameCells(a: Chip, b: Chip) {
    a.display == b.display && a.address == b.address && a.autoIncrement == b.autoIncrement
  }

  lemma RegisterInv(w: World, now: nat, r: Reply)
    requires Inv(w) && w.d.pending && !CellPhase(w.d.phase) && w.d.operation == Of(w.d.phase)
    requires !w.d.phase.VerifyConfigure?
    ensures Inv(Completed(w, now, r))
  {
    hide DirtyCount, Bytes;
    if !w.d.phase.Reset? {
      assert SameCells(Apply(w.chip, w.d.transmit, r.chaos), w.chip);
    }
  }

  lemma PollInv(w: World, now: nat, r: Reply)
    requires Inv(w) && w.d.pending
    ensures Inv(Poll(w, now, r))
  {
    hide DirtyCount, Bytes, Fail, AcceptStatus, VerifyConfigured, CompleteRegister;
    FailInv(w, now, r);
    FailInv(World(w.d.(pending := false), w.chip), now, r);
    if r.transfer.Complete? {
      var d := w.d.(pending := false, operation := NoOperation);
      var chip := Apply(w.chip, w.d.transmit, r.chaos);
      if CellPhase(w.d.phase) {
        if w.d.phase.CellEnd? {
          CellEndInv(w, now, r);
        } else if w.d.phase.CellData? {
          DataInv(w, now, r);
        } else {
          AddressInv(w, now, r);
        }
      } else {
        if !w.d.phase.Reset? {
          assert SameCells(chip, w.chip);
        }
        IdleInv(w, d, chip);
        if w.d.operation.StatusPoll? {
          AcceptInv(World(d, chip), r.received, now, r);
        } else if w.d.phase.VerifyConfigure? {
          VerifyInv(World(d, chip), now, r);
        } else if w.d.operation.GlyphStatus? {
        } else {
          RegisterInv(w, now, r);
        }
      }
    }
  }

  lemma IdleInv(w: World, d: Driver, chip: Chip)
    requires Inv(w) && !CellPhase(w.d.phase) && d == w.d.(pending := false, operation := NoOperation)
    requires SameCells(chip, w.chip) || w.d.phase.Reset?
    ensures Inv(World(d, chip))
  {
    hide DirtyCount, Bytes, OperationOf;
  }

  /** The invariant holds after every call, whatever the environment answers. */
  lemma StepKeepsInv(w: World, e: Event)
    requires Inv(w)
    ensures Inv(Step(w, e))
  {
    match e
    case TickEvent(now, r) =>
      hide Inv, Poll, Dispatch;
      if w.d.phase.Stopped? {
        StoppedIdle(w);
      }
      if w.d.pending {
        PollInv(w, now, r);
      } else if !w.d.phase.Stopped? {
        DispatchInv(w, now, r);
      }
    case StartEvent(now, r) => hide DirtyCount, Bytes, OperationOf;
    case SubmitEvent(frame) => SubmitInv(w, frame);
    case UploadEvent(glyph) => UploadInv(w, glyph);
  }

  lemma StoppedIdle(w: World)
    requires Inv(w) && w.d.phase.Stopped?
    ensures !w.d.pending
  {
  }

  lemma SubmitInv(w: World, frame: Cells)
    requires Inv(w)
    ensures Inv(Submit(w, frame))
  {
    hide DirtyCount, Bytes, OperationOf;
    BytesSame(w.d, Submit(w, frame).d);
  }

  lemma UploadInv(w: World, glyph: Glyph)
    requires Inv(w)
    ensures Inv(Upload(w, glyph))
  {
    hide DirtyCount, Bytes, OperationOf;
    BytesSame(w.d, Upload(w, glyph).d);
  }

  // ---------------------------------------------------------------- runs

  /** The driver as constructed: stopped, a frame of spaces, nothing valid. */
  function Initial(noVideoFallback: Standard, chip: Chip): World {
    World(
      Invalidated(Driver(
        Stopped, NoOperation, false, [], 0, 0, 0, Unknown, if noVideoFallback.Ntsc? then Ntsc else Pal, 0, 0,
        seq(480, _ => 0x20), seq(480, _ => 0), NoMarks(), RunState(0, [], 0), [], 0,
        Status(Unknown, 0, 0, 0, false, false, false, false))),
      chip)
  }

  function Run(w: World, events: seq<Event>): World {
    if events == [] then w else Step(Run(w, events[..|events| - 1]), events[|events| - 1])
  }

  lemma {:induction false} RunKeepsInv(w: World, events: seq<Event>)
    requires Inv(w)
    ensures Inv(Run(w, events))
    decreases |events|
  {
    hide Inv, Step;
    if events != [] {
      RunKeepsInv(w, events[..|events| - 1]);
      StepKeepsInv(Run(w, events[..|events| - 1]), events[|events| - 1]);
    }
  }

  /** Coherence in every reachable state, however transfers fail or stall and whenever a new frame is
      submitted, also in the middle of a run. */
  lemma AlwaysCoherent(noVideoFallback: Standard, chip: Chip, events: seq<Event>)
    ensures Coherent(Run(Initial(noVideoFallback, chip), events))
  {
    InitialInv(noVideoFallback, chip);
    RunKeepsInv(Initial(noVideoFallback, chip), events);
    hide Coherent, Run, Initial;
  }

  lemma InitialInv(noVideoFallback: Standard, chip: Chip)
    ensures Inv(Initial(noVideoFallback, chip))
  {
    hide DirtyCount;
  }

  /** No transfer but a reset changes a cell below the visible rows. */
  lemma VisibleRowsOnly(w: World, chaos: Chip, i: nat)
    requires Inv(w) && w.d.pending && !w.d.phase.Reset? && Limit(w.d) <= i < CELLS
    ensures Apply(w.chip, w.d.transmit, chaos).display[i] == w.chip.display[i]
  {
    hide DirtyCount;
  }

  lemma RunFits(w: World)
    requires Inv(w)
    ensures RunOk(w.d)
  {
  }
}
