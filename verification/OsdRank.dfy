/** How much cell transfer a frame still needs, and what each tick without a failure does to that amount. */
module OsdRank {
  import opened Bits
  import opened At7456e
  import opened OsdLaws
  import opened OsdRegisters

  /** The chip is configured, and cells may be sent.  A run may be in progress, also one collected for an
      earlier frame. */
  predicate Settled(w: World) {
    Inv(w) && !Configured(w.d).Unknown? && (w.d.phase.Ready? || CellPhase(w.d.phase))
  }

  /** A status byte that reports the standard already configured and no video returning. */
  predicate Steady(d: Driver, value: byte) {
    var video := !Flag(value, 4);
    var detected := if video && Flag(value, 2) then Pal else if video && Flag(value, 1) then Ntsc else Unknown;
    && value != 0xFF && !Flag(value, 0x40) && (video ==> d.status.videoPresent)
    && (if detected.Unknown? then Configured(d) else detected) == d.active
  }

  /** The answer to the pending transfer is the one a working chip gives: a probe may still find it resetting
      while the driver is willing to wait, and the video mode reads as what the register holds. */
  predicate Answered(w: World, value: byte) {
    match w.d.phase
    case Ready => Steady(w.d, value)
    case Probe => value != 0xFF && (Flag(value, 0x40) ==> w.d.probes < 100)
    case VerifyConfigure => value == w.chip.regs.vm0
    case _ => true
  }

  /** Transfers are accepted and complete with such an answer. */
  predicate Good(w: World, r: Reply) {
    r.queueOk && r.transfer.Complete? && (w.d.pending ==> Answered(w, r.received))
  }

  /** The driver acts. */
  predicate Due(w: World, now: nat) {
    now >= w.d.deadline
  }

  /** Polling the status, instead of sending cells. */
  predicate StatusTick(w: World, now: nat) {
    w.d.phase.Ready? && (w.d.pending || now >= w.d.nextStatus)
  }

  /** The cells still dirty when the current run has ended. */
  function After(d: Driver): nat {
    DirtyCount(RunDone(d), Limit(d))
  }

  /** An upper bound on the ticks of cell transfer until the frame is shown: eleven for each dirty cell
      in a run of its own, and two for each transfer left in the current run. */
  function Rank(d: Driver): nat
    requires RunOk(d)
  {
    var q := if d.pending then 1 else 0;
    var n := |d.run.cells|;
    match d.phase
    case CellAddressHigh => 11 * After(d) + 2 * (n + 4) - q
    case CellAddressLow => 11 * After(d) + 2 * (n + 3) - q
    case CellMode => 11 * After(d) + 2 * (n + 2) - q
    case CellData => 11 * After(d) + 2 * (n - d.run.progress + 1) - q
    case CellEnd => 11 * After(d) + 2 - q
    case _ => 11 * DirtyCount(d, Limit(d))
  }

  /** Cells of the interval [begin, begin+n) below `limit`. */
  function Overlap(begin: nat, n: nat, limit: nat): nat {
    if limit <= begin then 0 else if limit - begin < n then limit - begin else n
  }

  lemma {:induction false} DirtyDrops(a: Driver, b: Driver, begin: nat, n: nat, limit: nat)
    requires limit <= CELLS && begin + n <= CELLS
    requires forall i :: begin <= i < begin + n ==> Dirty(a, i) && !Dirty(b, i)
    requires forall i :: 0 <= i < CELLS && !(begin <= i < begin + n) ==> Dirty(a, i) == Dirty(b, i)
    ensures DirtyCount(b, limit) == DirtyCount(a, limit) - Overlap(begin, n, limit)
    decreases limit
  {
    if limit > 0 {
      DirtyDrops(a, b, begin, n, limit - 1);
    }
  }

  lemma {:induction false} DirtySame(a: Driver, b: Driver, limit: nat)
    requires limit <= CELLS && forall i :: 0 <= i < limit ==> Dirty(a, i) == Dirty(b, i)
    ensures DirtyCount(a, limit) == DirtyCount(b, limit)
    decreases limit
  {
    if limit > 0 {
      DirtySame(a, b, limit - 1);
    }
  }

  /** A finished run lowers the pending count by exactly its length. */
  lemma RunPaysOff(d: Driver)
    requires d.run.cells != [] && Outstanding(d, d.run.begin, d.run.cells)
    ensures var d' := RunDone(d);
      && d'.status.pendingCharacters == DirtyCount(d', Limit(d'))
      && DirtyCount(d', Limit(d')) == DirtyCount(d, Limit(d)) - |d.run.cells|
  {
    var d', begin, n := RunDone(d), d.run.begin, |d.run.cells|;
    forall i | begin <= i < begin + n ensures Dirty(d, i) && !Dirty(d', i) {
      assert OutstandingAt(d, begin + (i - begin), d.run.cells[i - begin]);
    }
    assert Limit(d') == Limit(d);
    hide DirtyCount;
    DirtyDrops(d, d', begin, n, Limit(d));
    DirtySame(Counted(d'), d', Limit(d));
    CountedAlready(d);
  }

  lemma CountedAlready(d: Driver)
    ensures RunDone(d).status.pendingCharacters == DirtyCount(RunDone(d), Limit(RunDone(d)))
  {
    hide DirtyCount;
    var before := RunDone(d).(phase := d.phase, status := d.status);
    DirtySame(RunDone(d), before, Limit(d));
    assert RunDone(d) == Counted(before).(phase := Ready);
  }

  lemma SameAfter(a: Driver, b: Driver)
    requires a.run.begin == b.run.begin && a.run.cells == b.run.cells && a.shadow == b.shadow
    requires a.valid == b.valid && a.desired == b.desired && Limit(a) == Limit(b)
    ensures After(a) == After(b)
  {
    hide DirtyCount;
    DirtySame(RunDone(a), RunDone(b), Limit(a));
  }

  lemma {:induction false} NoneDirty(d: Driver, limit: nat, i: nat)
    requires i < limit <= CELLS && DirtyCount(d, limit) == 0
    ensures !Dirty(d, i)
    decreases limit
  {
    if i < limit - 1 {
      NoneDirty(d, limit - 1, i);
    }
  }

  lemma {:induction false} SomeDirty(d: Driver, limit: nat, i: nat)
    requires i < limit <= CELLS && Dirty(d, i)
    ensures DirtyCount(d, limit) > 0
    decreases limit
  {
    if i < limit - 1 {
      SomeDirty(d, limit - 1, i);
    }
  }

  // What one good tick does, by phase.

  /** The tick kept the driver settled on the same frame, and changed rank and chip as it should. */
  predicate TickedWell(w: World, now: nat, w': World)
    requires Settled(w)
  {
    && Settled(w') && w'.d.desired == w.d.desired && Limit(w'.d) == Limit(w.d)
    && (if StatusTick(w, now) then Rank(w'.d) == Rank(w.d) && w'.chip == w.chip
        else if Rank(w.d) == 0 then Rank(w'.d) == 0 && w'.chip == w.chip && !w'.d.pending
        else Rank(w'.d) < Rank(w.d))
  }

  lemma StatusRank(w: World, now: nat, r: Reply)
    requires Settled(w) && RegsInv(w) && Due(w, now) && Good(w, r) && StatusTick(w, now)
    ensures TickedWell(w, now, Tick(w, now, r))
  {
    StepKeepsInv(w, TickEvent(now, r));
    var w' := Tick(w, now, r);
    StatusEffect(w, now, r);
    hide Inv, RegsInv, DirtyCount, Tick, Step, Good, Due, StatusTick;
    DirtySame(w.d, w'.d, Limit(w.d));
  }

  lemma StatusEffect(w: World, now: nat, r: Reply)
    requires Settled(w) && RegsInv(w) && Due(w, now) && Good(w, r) && StatusTick(w, now)
    ensures var w' := Tick(w, now, r);
      && w'.chip == w.chip && w'.d.phase.Ready? && w'.d.glyphs == w.d.glyphs && w'.d.active == w.d.active
      && w'.d.fallback == w.d.fallback && w'.d.desired == w.d.desired && w'.d.shadow == w.d.shadow
      && w'.d.valid == w.d.valid && Step(w, TickEvent(now, r)) == w' && w'.d.deadline == w.d.deadline
      && (if w.d.pending then !w'.d.pending && w'.d.nextStatus == now + STATUS_PERIOD_US
          else w'.d.pending && w'.d.nextStatus == w.d.nextStatus)
  {
    if w.d.pending {
      ReadRegs(w, r.chaos);
    }
    hide DirtyCount, Apply, RegsInv, Bytes;
  }

  lemma PrepareRank(w: World, now: nat, r: Reply)
    requires Settled(w) && Due(w, now) && Good(w, r) && w.d.phase.Ready? && !StatusTick(w, now) && w.d.glyphs == []
    ensures TickedWell(w, now, Tick(w, now, r))
  {
    StepKeepsInv(w, TickEvent(now, r));
    assert Step(w, TickEvent(now, r)) == Tick(w, now, r) == World(PrepareCells(w.d), w.chip);
    hide Inv, Tick, Step, Good, Due, DirtyCount, Rank;
    RankOfPrepared(w.d);
  }

  /** A run prepared is worth its cells: eleven each, against two for each transfer of the run. */
  lemma RankOfPrepared(d: Driver)
    requires d.phase.Ready? && !d.pending
    ensures var d' := PrepareCells(d);
      && RunOk(d') && d'.desired == d.desired && Configured(d') == Configured(d) && !d'.pending
      && (if FirstDirty(d, 0, Limit(d)) == Limit(d) then d'.phase.Ready? && Rank(d') == Rank(d) == 0
          else d'.phase.CellAddressHigh? && Rank(d') < Rank(d))
  {
    hide DirtyCount, Bytes;
    var d', limit := PrepareCells(d), Limit(d);
    var begin := FirstDirty(d, 0, limit);
    if begin == limit {
      AllClean(d, limit);
      DirtySame(d, d', limit);
    } else {
      var run := Collect(d, begin, []);
      SomeDirty(d, limit, begin);
      CollectNonEmpty(d, begin);
      StillOutstanding(d, d', begin, run);
      assert d'.run == RunState(begin, run, 0) && Limit(d') == limit && d'.phase.CellAddressHigh?;
      hide PrepareCells, FirstDirty, Collect;
      RunPaysOff(d');
      DirtySame(d, d', limit);
      assert After(d') == DirtyCount(d, limit) - |run|;
      hide RunDone, Outstanding, After, Limit, Dirty;
    }
  }

  /** Preparing a run changes nothing that the run depends on. */
  lemma StillOutstanding(d: Driver, d': Driver, begin: nat, run: seq<byte>)
    requires Outstanding(d, begin, run) && d'.desired == d.desired && Limit(d') == Limit(d)
    requires d'.shadow == d.shadow && d'.valid == d.valid
    ensures Outstanding(d', begin, run)
    ensures forall k :: 0 <= k < |run| ==> run[k] != AUTO_INCREMENT_END
  {
    forall k | 0 <= k < |run| ensures OutstandingAt(d', begin + k, run[k]) && run[k] != AUTO_INCREMENT_END {
      assert OutstandingAt(d, begin + k, run[k]);
    }
  }

  lemma {:induction false} AllClean(d: Driver, limit: nat)
    requires limit <= CELLS && forall i :: 0 <= i < limit ==> !Dirty(d, i)
    ensures DirtyCount(d, limit) == 0
    decreases limit
  {
    if limit > 0 {
      AllClean(d, limit - 1);
    }
  }

  lemma CellRank(w: World, now: nat, r: Reply)
    requires Settled(w) && Due(w, now) && Good(w, r) && CellPhase(w.d.phase)
    ensures TickedWell(w, now, Tick(w, now, r))
  {
    StepKeepsInv(w, TickEvent(now, r));
    CellEffect(w, now, r);
    CellLower(w.d, Tick(w, now, r).d);
    RunFits(w);
    RunFits(Tick(w, now, r));
    hide Inv, Tick, Step, Good, Due, Rank, DirtyCount, RunDone, Limit, Configured, Advanced;
  }

  lemma CellLower(d: Driver, d': Driver)
    requires RunOk(d) && RunOk(d') && CellPhase(d.phase) && CellStep(d, d')
    ensures Rank(d') < Rank(d)
  {
    hide DirtyCount, RunDone, Limit;
    if d.phase.CellEnd? && d.pending {
      DoneRank(d, d');
    } else {
      SameAfter(d, d');
    }
    hide After;
  }

  lemma DoneRank(d: Driver, d': Driver)
    requires RunOk(d) && d'.phase.Ready? && d'.shadow == RunDone(d).shadow && d'.valid == RunDone(d).valid
    requires d'.desired == d.desired && Limit(d') == Limit(d)
    ensures DirtyCount(d', Limit(d')) == After(d)
  {
    hide DirtyCount;
    assert RunDone(d).desired == d.desired;
    DirtySame(d', RunDone(d), Limit(d));
  }

  /** A tick in a cell phase queues the phase's transfer or moves on to the next phase. */
  predicate CellStep(d: Driver, d': Driver) {
    && d'.desired == d.desired && Limit(d') == Limit(d) && d'.glyphs == d.glyphs && Configured(d') == Configured(d)
    && (if !d.pending then
          d'.phase == d.phase && d'.run == d.run && d'.pending && d'.shadow == d.shadow && d'.valid == d.valid
        else
          && !d'.pending
          && (if d.phase.CellEnd? then
                d'.phase.Ready? && d'.shadow == RunDone(d).shadow && d'.valid == RunDone(d).valid
              else
                && d'.shadow == d.shadow && d'.valid == d.valid
                && d'.run.begin == d.run.begin && d'.run.cells == d.run.cells && Advanced(d, d')))
  }

  lemma CellEffect(w: World, now: nat, r: Reply)
    requires Settled(w) && Due(w, now) && Good(w, r) && CellPhase(w.d.phase)
    ensures CellStep(w.d, Tick(w, now, r).d) && Step(w, TickEvent(now, r)) == Tick(w, now, r)
    ensures Tick(w, now, r).d.phase.Ready? || CellPhase(Tick(w, now, r).d.phase)
  {
    hide DirtyCount;
  }

  predicate Advanced(d: Driver, d': Driver) {
    match d.phase
    case CellAddressHigh => d'.phase.CellAddressLow?
    case CellAddressLow => d'.phase.CellMode?
    case CellMode => d'.phase.CellData? && d'.run.progress == 0
    case CellData => d'.run.progress == d.run.progress + 1 && (d'.phase.CellData? || d'.phase.CellEnd?)
    case _ => false
  }

  lemma GoodTick(w: World, now: nat, r: Reply)
    requires Settled(w) && RegsInv(w) && Due(w, now) && Good(w, r) && w.d.glyphs == []
    ensures TickedWell(w, now, Tick(w, now, r)) && Tick(w, now, r).d.glyphs == []
  {
    KeepsGlyphs(w, now, r);
    hide Inv, RegsInv, Tick, Good, Due, Rank, StatusTick, TickedWell;
    if CellPhase(w.d.phase) {
      CellRank(w, now, r);
    } else if StatusTick(w, now) {
      StatusRank(w, now, r);
    } else {
      PrepareRank(w, now, r);
    }
  }

  lemma KeepsGlyphs(w: World, now: nat, r: Reply)
    requires Settled(w) && Due(w, now) && Good(w, r)
    ensures var d := Tick(w, now, r).d;
      d.glyphs == w.d.glyphs && d.deadline == w.d.deadline && d.fallback == w.d.fallback && d.desired == w.d.desired
  {
    hide DirtyCount;
  }

  /** The display is on, in the standard the driver works with, which is the one detected if there is one; every
      cell of its rows shows the frame, a question mark standing for the code that cannot be sent; and no transfer
      of cells is under way. */
  predicate Shown(w: World) {
    && w.d.phase.Ready? && DisplayOn(w.chip.regs) && (PalMode(w.chip.regs) <==> w.d.active.Pal?)
    && (w.d.status.standard.Unknown? || w.d.active == w.d.status.standard)
    && CellsShown(w)
  }

  predicate CellsShown(w: World) {
    forall i :: 0 <= i < (if PalMode(w.chip.regs) then 480 else 390) ==>
      w.chip.display[i] == if w.d.desired[i] == 0xFF then 0x3F else w.d.desired[i]
  }

  /** The display of an initialized driver that is not writing characters. */
  lemma DisplayReady(w: World)
    requires Settled(w) && RegsInv(w)
    ensures DisplayOn(w.chip.regs) && (PalMode(w.chip.regs) <==> w.d.active.Pal?)
    ensures w.d.status.standard.Unknown? || w.d.active == w.d.status.standard
    ensures Limit(w.d) == if PalMode(w.chip.regs) then 480 else 390
  {
    LiveFacts(w);
    hide Inv, Bytes, CharacterOk;
  }

  lemma RankZeroShown(w: World)
    requires Settled(w) && RegsInv(w) && Rank(w.d) == 0
    ensures Shown(w)
  {
    DisplayReady(w);
    RankZeroReady(w);
    hide RegsInv, DisplayOn, PalMode;
    forall i | 0 <= i < Limit(w.d)
      ensures w.chip.display[i] == if w.d.desired[i] == 0xFF then 0x3F else w.d.desired[i]
    {
      NoneDirty(w.d, Limit(w.d), i);
    }
  }

  lemma RankZeroReady(w: World)
    requires Settled(w) && Rank(w.d) == 0
    ensures w.d.phase.Ready? && DirtyCount(w.d, Limit(w.d)) == 0 && Coherent(w)
  {
    hide After, Limit, DirtyCount;
  }
}
