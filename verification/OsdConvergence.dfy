/** Convergence: from any started state, through reset, configuration and queued glyphs, ticks without a
    failure bring the visible display to the frame, as long as they come more often than the status is
    polled.  Otherwise the status polls can starve the cells for ever. */
module OsdConvergence {
  import opened Bits
  import opened At7456e
  import opened OsdLaws
  import opened OsdRegisters
  import opened OsdRank

  /** A glyph takes 222 ticks, one of which sets a wait of 1000 microseconds. */
  const GLYPH_COST := 1222

  /** Eleven ticks for each of 480 cells, and twice as many status ticks. */
  const FRAME_COST := 3 * 11 * 480 + 2

  // ---------------------------------------------------------------- what is kept besides the invariant

  /** Only a reset, a probe and a glyph's commit wait for a time to come, and never for long. */
  predicate Timely(d: Driver, last: nat) {
    && d.deadline <= last + RETRY_DELAY_US
    && (d.deadline > last ==> d.phase.Reset? || d.phase.ResetDelay? || d.phase.Probe? || d.phase.GlyphWait?)
  }

  /** What holds of every reachable state, `last` being the time of the last call. */
  predicate Live(w: World, last: nat) {
    Inv(w) && RegsInv(w) && Timely(w.d, last)
  }

  predicate NotBefore(e: Event, last: nat) {
    match e
    case TickEvent(now, _) => now >= last
    case StartEvent(now, _) => now >= last
    case _ => true
  }

  function TimeOf(e: Event, last: nat): nat {
    match e
    case TickEvent(now, _) => now
    case StartEvent(now, _) => now
    case _ => last
  }

  lemma FailLive(w: World, now: nat, r: Reply)
    ensures Timely(Fail(w, now, r).d, now)
  {
    hide DirtyCount;
  }

  lemma PollLive(w: World, now: nat, r: Reply)
    requires Inv(w) && w.d.pending && w.d.deadline <= now
    ensures Timely(Poll(w, now, r).d, now)
  {
    hide DirtyCount, Fail, Bytes, RunDone, NoMarks, Counted;
    FailLive(w, now, r);
    FailLive(World(w.d.(pending := false), w.chip), now, r);
    if r.transfer.Complete? {
      CompleteLive(World(w.d.(pending := false), Apply(w.chip, w.d.transmit, r.chaos)), now, r);
      hide CompleteOperation;
    }
  }

  lemma CompleteLive(w: World, now: nat, r: Reply)
    requires w.d.operation == OperationOf(w.d.phase) && !w.d.phase.ResetDelay? && !w.d.phase.Stopped?
    requires w.d.deadline <= now
    ensures Timely(CompleteOperation(w, now, r).d, now)
  {
    hide DirtyCount, Fail, Bytes, RunDone, AcceptStatus, VerifyConfigured, And, Flag, CompleteRegister;
    var d := w.d.(operation := NoOperation);
    if w.d.operation.StatusPoll? {
      AcceptLive(World(d, w.chip), r.received, now, r);
    } else if w.d.phase.VerifyConfigure? {
      VerifyLive(World(d, w.chip), now, r);
    } else if !w.d.phase.GlyphWait? {
      RegisterLive(d, r.received, now);
    }
  }

  lemma RegisterLive(d: Driver, received: byte, now: nat)
    requires d.deadline <= now && !d.phase.ResetDelay? && !d.phase.Probe? && !d.phase.GlyphWait?
    ensures Timely(CompleteRegister(d, d.phase, received, now), now)
  {
    hide DirtyCount, RunDone, And;
    DoneKeeps(d);
  }

  lemma DoneKeeps(d: Driver)
    ensures RunDone(d).phase.Ready? && RunDone(d).deadline == d.deadline
  {
    hide DirtyCount;
  }

  lemma AcceptLive(w: World, value: byte, now: nat, r: Reply)
    requires w.d.deadline <= now
    ensures Timely(AcceptStatus(w, value, now, r).d, now)
  {
    hide DirtyCount, Fail, Flag;
    FailLive(w, now, r);
    FailLive(World(w.d.(probes := (w.d.probes + 1) % 0x1_0000), w.chip), now, r);
  }

  lemma VerifyLive(w: World, now: nat, r: Reply)
    requires w.d.deadline <= now
    ensures Timely(VerifyConfigured(w, now, r).d, now)
  {
    hide DirtyCount, Fail, And;
    FailLive(w, now, r);
  }

  lemma DispatchLive(w: World, now: nat, r: Reply)
    requires w.d.deadline <= now
    ensures Timely(Dispatch(w, now, r).d, now)
  {
    hide DirtyCount, Fail, Bytes, OperationOf;
    FailLive(World(w.d.(transmit := Bytes(w.d), operation := OperationOf(w.d.phase)), w.chip), now, r);
    var read := w.d.(phase := ReadBlackLevel, transmit := Bytes(w.d), operation := Of(ReadBlackLevel));
    FailLive(World(read, w.chip), now, r);
  }

  /** Every call keeps what convergence needs, and the driver starts with it. */
  lemma StepKeepsLive(w: World, last: nat, e: Event)
    requires Live(w, last) && NotBefore(e, last)
    ensures Live(Step(w, e), TimeOf(e, last))
  {
    StepKeepsInv(w, e);
    StepKeepsRegs(w, e);
    hide Inv, RegsInv, DirtyCount;
    match e
    case TickEvent(now, r) =>
      if !w.d.phase.Stopped? && now >= w.d.deadline {
        if w.d.pending {
          PollLive(w, now, r);
        } else {
          DispatchLive(w, now, r);
        }
      }
      hide Poll, Dispatch;
    case _ =>
  }

  lemma InitialLive(noVideoFallback: Standard, chip: Chip)
    ensures Live(Initial(noVideoFallback, chip), 0)
  {
    InitialInv(noVideoFallback, chip);
    InitialRegs(noVideoFallback, chip);
    hide DirtyCount, Inv, RegsInv;
  }

  // ---------------------------------------------------------------- the budget of ticks

  function UploadCost(glyphs: nat): nat {
    if glyphs == 0 then 0 else GLYPH_COST * glyphs + 8
  }

  /** The status ticks before the next cell can be sent, unless the driver is kept waiting. */
  function PollCost(d: Driver, last: nat): nat {
    if d.pending then 1 else if d.nextStatus >= last + STATUS_PERIOD_US then 0 else 2
  }

  /** What is left of the first glyph. */
  function GlyphLeft(d: Driver): nat
    requires GlyphOk(d)
  {
    match d.phase
    case GlyphAddress => GLYPH_COST
    case GlyphDataAddress => 4 * (GLYPH_BYTES - d.glyphByte) + 1004
    case GlyphDataValue => 4 * (GLYPH_BYTES - d.glyphByte) + 1002
    case GlyphCommit => 1004
    case _ => 2
  }

  /** The ticks, and the microseconds of waiting still to be asked for, until the frame is shown: three for
      each tick of cell transfer, as at most two status ticks come between two of them. */
  function Work(d: Driver, last: nat): nat
    requires RunOk(d) && GlyphOk(d)
  {
    var q := if d.pending then 1 else 0;
    var rest := 3 * Rank(d);
    var uploads := UploadCost(|d.glyphs|);
    match d.phase
    case Stopped => 0
    case Reset => FRAME_COST + uploads + 213 - q
    case ResetDelay => FRAME_COST + uploads + 11
    case ReadBlackLevel => FRAME_COST + uploads + 10 - q
    case WriteBlackLevel => FRAME_COST + uploads + 8 - q
    case Probe => FRAME_COST + uploads + 6 - q
    case Configure => FRAME_COST + uploads + 4 - q
    case VerifyConfigure => FRAME_COST + uploads + 2 - q
    case Ready => rest + PollCost(d, last) + uploads
    case GlyphDisable => rest + GLYPH_COST * |d.glyphs| + 6 - q
    case GlyphEnable => rest + 4 - q + uploads
    case _ =>
      if CellPhase(d.phase) then rest + 2 + uploads
      else rest + GLYPH_COST * (|d.glyphs| - 1) + GlyphLeft(d) + 4 - q
  }

  /** The microseconds until the driver acts again. */
  function Wait(d: Driver, last: nat): nat {
    if d.deadline > last then d.deadline - last else 0
  }

  function Budget(d: Driver, last: nat): nat
    requires RunOk(d) && GlyphOk(d)
  {
    Work(d, last) + Wait(d, last)
  }

  /** The chip answers that it is still resetting, or still storing a glyph. */
  predicate BusyAnswer(w: World, now: nat, r: Reply) {
    && Due(w, now) && w.d.pending
    && ((w.d.phase.Probe? && Flag(r.received, 0x40)) || (w.d.phase.GlyphWait? && Flag(r.received, 0x20)))
  }

  /** The tick after a status poll comes so late that the next poll is due already. */
  predicate Late(w: World, last: nat, now: nat) {
    w.d.phase.Ready? && !w.d.pending && last + STATUS_PERIOD_US <= w.d.nextStatus <= now
  }

  /** The ticks a tick may cost in addition. */
  function Penalty(w: World, last: nat, now: nat, r: Reply): nat {
    1002 * (if BusyAnswer(w, now, r) then 1 else 0) + 2 * (if Late(w, last, now) then 1 else 0)
  }

  /** The frame has been sent and no glyph waits. */
  predicate Done(w: World) {
    Settled(w) && w.d.glyphs == [] && Rank(w.d) == 0
  }

  // ---------------------------------------------------------------- what each tick does to the budget

  predicate SameFrame(d: Driver, d': Driver) {
    && d'.desired == d.desired && d'.shadow == d.shadow && d'.valid == d.valid && Limit(d') == Limit(d)
    && !CellPhase(d.phase) && !CellPhase(d'.phase)
  }

  lemma SameRank(d: Driver, d': Driver)
    requires SameFrame(d, d')
    ensures Rank(d') == Rank(d)
  {
    hide DirtyCount;
    DirtySame(d, d', Limit(d));
  }

  lemma {:induction false} AtMost(d: Driver, limit: nat)
    requires limit <= CELLS
    ensures DirtyCount(d, limit) <= limit
    decreases limit
  {
    if limit > 0 {
      AtMost(d, limit - 1);
    }
  }

  lemma RankBound(d: Driver)
    requires RunOk(d)
    ensures Rank(d) <= 11 * CELLS + 56
    ensures !CellPhase(d.phase) ==> Rank(d) <= 11 * CELLS
  {
    hide DirtyCount, RunDone;
    AtMost(d, Limit(d));
    AtMost(RunDone(d), Limit(d));
  }

  lemma QueueEffect(w: World, now: nat, r: Reply)
    requires Due(w, now) && r.queueOk && !w.d.pending
    requires !w.d.phase.Ready? && !CellPhase(w.d.phase) && !w.d.phase.Stopped?
    ensures var d := Tick(w, now, r).d;
      && d.pending && d.phase == (if w.d.phase.ResetDelay? then ReadBlackLevel else w.d.phase)
      && d.glyphs == w.d.glyphs && d.glyphByte == w.d.glyphByte && d.deadline == w.d.deadline && SameFrame(w.d, d)
  {
    hide DirtyCount, Bytes;
  }

  lemma QueueSpends(w: World, last: nat, now: nat, r: Reply)
    requires Live(w, last) && Due(w, now) && last < now && r.queueOk && !w.d.pending
    requires !w.d.phase.Ready? && !CellPhase(w.d.phase) && !w.d.phase.Stopped?
    requires Live(Tick(w, now, r), now)
    ensures Budget(Tick(w, now, r).d, now) < Budget(w.d, last)
  {
    QueueEffect(w, now, r);
    SameRank(w.d, Tick(w, now, r).d);
    hide Tick, Rank, SameFrame, UploadCost;
  }

  lemma GlyphEffect(w: World, now: nat, r: Reply)
    requires Inv(w) && Due(w, now) && w.d.pending && GlyphPhase(w.d.phase) && r.transfer.Complete?
    ensures var d := w.d.(pending := false, operation := NoOperation);
      Tick(w, now, r).d ==
        if w.d.phase.GlyphWait? then GlyphPolled(d, Flag(r.received, 0x20), now)
        else CompleteRegister(d, w.d.phase, r.received, now)
  {
    hide DirtyCount, GlyphPolled, CompleteRegister, Bytes, Apply, Flag;
  }

  lemma StoredSpends(d: Driver, busy: bool, last: nat, now: nat)
    requires d.pending && GlyphOk(d) && d.phase.GlyphWait? && d.deadline <= now && last < now
    ensures var d' := GlyphPolled(d.(pending := false, operation := NoOperation), busy, now);
      && RunOk(d') && GlyphOk(d') && !d'.phase.Stopped? && d'.desired == d.desired
      && Budget(d', now) < Budget(d, last) + (if busy then 1002 else 0)
  {
    var d' := GlyphPolled(d.(pending := false, operation := NoOperation), busy, now);
    SameRank(d, d');
    hide Rank, SameFrame;
  }

  lemma WrittenSpends(d: Driver, received: byte, last: nat, now: nat)
    requires d.pending && GlyphOk(d) && GlyphPhase(d.phase) && !d.phase.GlyphWait? && d.deadline <= now && last < now
    ensures var d' := CompleteRegister(d.(pending := false, operation := NoOperation), d.phase, received, now);
      && RunOk(d') && GlyphOk(d') && !d'.phase.Stopped? && d'.desired == d.desired
      && Budget(d', now) < Budget(d, last)
  {
    hide RunDone, And;
    var d' := CompleteRegister(d.(pending := false, operation := NoOperation), d.phase, received, now);
    SameRank(d, d');
    hide Rank, SameFrame;
  }

  lemma GlyphSpends(w: World, last: nat, now: nat, r: Reply)
    requires Live(w, last) && Due(w, now) && last < now && w.d.pending
    requires GlyphPhase(w.d.phase) && r.transfer.Complete? && Live(Tick(w, now, r), now)
    ensures Budget(Tick(w, now, r).d, now) < Budget(w.d, last) + Penalty(w, last, now, r)
    ensures !Tick(w, now, r).d.phase.Stopped? && Tick(w, now, r).d.desired == w.d.desired
  {
    GlyphEffect(w, now, r);
    hide Tick, Rank, Inv, Flag, Timely, GlyphPolled, CompleteRegister, Budget;
    if w.d.phase.GlyphWait? {
      StoredSpends(w.d, Flag(r.received, 0x20), last, now);
    } else {
      WrittenSpends(w.d, r.received, last, now);
    }
  }

  /** A tick in the bring-up moves on to the next phase, or keeps probing. */
  predicate SetupStep(d: Driver, busy: bool, now: nat, d': Driver) {
    && !d'.pending && d'.glyphs == d.glyphs && d'.desired == d.desired
    && match d.phase
       case Reset => d'.phase.ResetDelay? && d'.deadline == now + 200
       case ReadBlackLevel => d'.phase.WriteBlackLevel? && d'.deadline == d.deadline
       case WriteBlackLevel => d'.phase.Probe? && d'.deadline == d.deadline
       case Configure => d'.phase.VerifyConfigure? && d'.deadline == d.deadline
       case VerifyConfigure => d'.phase.Ready? && d'.deadline == now && d'.nextStatus == now + STATUS_PERIOD_US
       case Probe =>
         if busy then d'.phase.Probe? && d'.deadline == now + 1000
         else
           && d'.deadline == d.deadline
           && (d'.phase.Configure? || (d'.phase.Ready? && d'.nextStatus == now + STATUS_PERIOD_US))
       case _ => false
  }

  lemma ProbeEffect(w: World, value: byte, now: nat, r: Reply)
    requires !w.d.pending && w.d.phase.Probe? && value != 0xFF && (Flag(value, 0x40) ==> w.d.probes < 100)
    ensures SetupStep(w.d, Flag(value, 0x40), now, AcceptStatus(w, value, now, r).d)
  {
    hide DirtyCount, Flag, NoMarks;
  }

  /** The video mode that was configured passes the driver's check. */
  lemma ModeReads(w: World)
    requires RegsInv(w) && w.d.phase.VerifyConfigure?
    ensures And(w.chip.regs.vm0, 0x49) == VideoMode(w.d, true)
  {
    hide Bytes, And;
    AndMode();
  }

  lemma AndMode()
    ensures And(0x08, 0x49) == 0x08 && And(0x48, 0x49) == 0x48
  {
    assert And(0x01, 0x09) == 1;
    assert And(0x09, 0x09) == 9;
    assert And(0x02, 0x12) == 2 && And(0x12, 0x12) == 0x12;
    assert And(0x04, 0x24) == 4 && And(0x24, 0x24) == 0x24;
  }

  lemma SetupEffect(w: World, now: nat, r: Reply)
    requires Inv(w) && RegsInv(w) && Due(w, now) && w.d.pending && Good(w, r)
    requires !w.d.phase.Ready? && !CellPhase(w.d.phase) && !GlyphPhase(w.d.phase)
    ensures SetupStep(w.d, Flag(r.received, 0x40), now, Tick(w, now, r).d)
  {
    hide DirtyCount, Bytes, Apply, AcceptStatus, Flag, And, NoMarks, RunDone, RegsInv;
    if w.d.phase.VerifyConfigure? {
      ModeReads(w);
    }
    if w.d.phase.Probe? {
      var d := w.d.(pending := false, operation := NoOperation);
      ProbeEffect(World(d, Apply(w.chip, w.d.transmit, r.chaos)), r.received, now, r);
    }
  }

  lemma SetupSpends(w: World, last: nat, now: nat, r: Reply)
    requires Live(w, last) && Due(w, now) && last < now && w.d.pending && Good(w, r)
    requires !w.d.phase.Ready? && !CellPhase(w.d.phase) && !GlyphPhase(w.d.phase)
    requires Live(Tick(w, now, r), now)
    ensures Budget(Tick(w, now, r).d, now) < Budget(w.d, last) + Penalty(w, last, now, r)
    ensures !Tick(w, now, r).d.phase.Stopped? && Tick(w, now, r).d.desired == w.d.desired
  {
    SetupEffect(w, now, r);
    RankBound(Tick(w, now, r).d);
    hide Tick, Rank, Inv, Flag, UploadCost, Good;
  }

  lemma EarlySpends(w: World, last: nat, now: nat, r: Reply)
    requires Live(w, last) && !Due(w, now) && last < now && !w.d.phase.Stopped?
    ensures Tick(w, now, r) == w && Budget(w.d, now) < Budget(w.d, last)
  {
    hide Rank;
  }

  lemma LiveSettled(w: World, last: nat)
    requires Live(w, last) && (w.d.phase.Ready? || CellPhase(w.d.phase))
    ensures Settled(w) && RegsInv(w) && Due(w, last)
  {
    hide Inv;
  }

  lemma CellMoves(w: World, now: nat, r: Reply)
    requires Settled(w) && Due(w, now) && Good(w, r) && CellPhase(w.d.phase)
    ensures var w' := Tick(w, now, r);
      && RunOk(w.d) && RunOk(w'.d) && (w'.d.phase.Ready? || CellPhase(w'.d.phase)) && Rank(w'.d) < Rank(w.d)
      && w'.d.glyphs == w.d.glyphs && w'.d.deadline == w.d.deadline && w'.d.desired == w.d.desired
  {
    CellRank(w, now, r);
    KeepsGlyphs(w, now, r);
    RunFits(w);
    RunFits(Tick(w, now, r));
    hide Tick, Good, Inv, Rank, RunOk, Limit, Due;
    RankPositive(w.d);
  }

  lemma RankPositive(d: Driver)
    requires RunOk(d) && CellPhase(d.phase)
    ensures Rank(d) > 0
  {
    hide After;
  }

  lemma CellBudget(d: Driver, last: nat)
    requires RunOk(d) && GlyphOk(d) && (d.phase.Ready? || CellPhase(d.phase)) && d.deadline <= last
    ensures Budget(d, last) <= 3 * Rank(d) + 2 + UploadCost(|d.glyphs|)
    ensures CellPhase(d.phase) ==> Budget(d, last) == 3 * Rank(d) + 2 + UploadCost(|d.glyphs|)
  {
    hide Rank, UploadCost;
  }

  lemma CellSpends(w: World, last: nat, now: nat, r: Reply)
    requires Live(w, last) && last < now && Good(w, r) && CellPhase(w.d.phase)
    requires Live(Tick(w, now, r), now)
    ensures Budget(Tick(w, now, r).d, now) < Budget(w.d, last)
    ensures !Tick(w, now, r).d.phase.Stopped? && Tick(w, now, r).d.desired == w.d.desired
  {
    LiveSettled(w, last);
    CellMoves(w, now, r);
    var w' := Tick(w, now, r);
    LiveSettled(w', now);
    assert w.d.deadline <= now && w'.d.deadline <= now;
    hide *;
    CellBudget(w.d, last);
    CellBudget(w'.d, now);
  }

  lemma UploadEffect(w: World, now: nat, r: Reply)
    requires Due(w, now) && w.d.phase.Ready? && !StatusTick(w, now) && w.d.glyphs != []
    ensures var d := Tick(w, now, r).d;
      && d.phase.GlyphDisable? && !d.pending && d.glyphs == w.d.glyphs && d.deadline == w.d.deadline
      && SameFrame(w.d, d)
  {
    hide DirtyCount;
  }

  lemma ReadySpends(w: World, last: nat, now: nat, r: Reply)
    requires Live(w, last) && last < now && Good(w, r) && w.d.phase.Ready? && !Done(w)
    requires Live(Tick(w, now, r), now)
    ensures Budget(Tick(w, now, r).d, now) < Budget(w.d, last) + Penalty(w, last, now, r)
    ensures !Tick(w, now, r).d.phase.Stopped? && Tick(w, now, r).d.desired == w.d.desired
  {
    LiveSettled(w, last);
    if StatusTick(w, now) {
      StatusRank(w, now, r);
      StatusEffect(w, now, r);
    } else if w.d.glyphs != [] {
      UploadEffect(w, now, r);
      SameRank(w.d, Tick(w, now, r).d);
    } else {
      PrepareRank(w, now, r);
      KeepsGlyphs(w, now, r);
    }
    hide Inv, Tick, Rank, Good;
  }

  lemma DoneStays(w: World, last: nat, now: nat, r: Reply)
    requires Live(w, last) && last <= now && Good(w, r) && Done(w)
    ensures Done(Tick(w, now, r)) && Tick(w, now, r).chip == w.chip && Tick(w, now, r).d.desired == w.d.desired
  {
    LiveSettled(w, last);
    GoodTick(w, now, r);
    RankZeroShown(w);
    hide Inv, Tick, Rank, Good;
  }

  /** Every tick that meets a working chip spends of the budget, unless the frame is shown already. */
  lemma TickSpends(w: World, last: nat, now: nat, r: Reply)
    requires Live(w, last) && !w.d.phase.Stopped? && last < now && (Due(w, now) ==> Good(w, r)) && !Done(w)
    ensures var w' := Tick(w, now, r);
      && Live(w', now) && !w'.d.phase.Stopped? && w'.d.desired == w.d.desired
      && Budget(w'.d, now) < Budget(w.d, last) + Penalty(w, last, now, r)
  {
    StepKeepsLive(w, last, TickEvent(now, r));
    assert Step(w, TickEvent(now, r)) == Tick(w, now, r);
    hide Tick, Step, Live, Done, Budget, Penalty, Inv, Good;
    if !Due(w, now) {
      EarlySpends(w, last, now, r);
    } else if w.d.phase.Ready? {
      ReadySpends(w, last, now, r);
    } else if CellPhase(w.d.phase) {
      CellSpends(w, last, now, r);
    } else if !w.d.pending {
      QueueEffect(w, now, r);
      QueueSpends(w, last, now, r);
    } else if GlyphPhase(w.d.phase) {
      GlyphSpends(w, last, now, r);
    } else {
      SetupSpends(w, last, now, r);
    }
  }

  // ---------------------------------------------------------------- runs of ticks

  datatype At = At(now: nat, r: Reply)

  function Ticks(w: World, ticks: seq<At>): World
    decreases |ticks|
  {
    if ticks == [] then w else Ticks(Tick(w, ticks[0].now, ticks[0].r), ticks[1..])
  }

  /** Time passes between the ticks. */
  predicate Rising(last: nat, ticks: seq<At>)
    decreases |ticks|
  {
    ticks != [] ==> last < ticks[0].now && Rising(ticks[0].now, ticks[1..])
  }

  /** Whenever the driver acts, the transfer is accepted or complete, with the answer of a working chip. */
  predicate Working(w: World, ticks: seq<At>)
    decreases |ticks|
  {
    ticks != [] ==>
      && (Due(w, ticks[0].now) ==> Good(w, ticks[0].r))
      && Working(Tick(w, ticks[0].now, ticks[0].r), ticks[1..])
  }

  /** How often the chip answers that it is busy. */
  function BusyAnswers(w: World, ticks: seq<At>): nat
    decreases |ticks|
  {
    if ticks == [] then 0
    else
      (if BusyAnswer(w, ticks[0].now, ticks[0].r) then 1 else 0) +
      BusyAnswers(Tick(w, ticks[0].now, ticks[0].r), ticks[1..])
  }

  /** How often the tick after a status poll is late. */
  function LateTicks(w: World, last: nat, ticks: seq<At>): nat
    decreases |ticks|
  {
    if ticks == [] then 0
    else
      (if Late(w, last, ticks[0].now) then 1 else 0) +
      LateTicks(Tick(w, ticks[0].now, ticks[0].r), ticks[0].now, ticks[1..])
  }

  /** Convergence from every state of a started driver, also one still to be reset or configured, with glyphs
      waiting, or behind a failure: after the budgeted ticks the visible display shows the frame. */
  lemma {:induction false} Converges(w: World, last: nat, ticks: seq<At>)
    requires Live(w, last) && !w.d.phase.Stopped? && Rising(last, ticks) && Working(w, ticks)
    requires |ticks| >= Budget(w.d, last) + 1002 * BusyAnswers(w, ticks) + 2 * LateTicks(w, last, ticks)
    ensures Shown(Ticks(w, ticks)) && Ticks(w, ticks).d.desired == w.d.desired
    ensures Done(Ticks(w, ticks))
    decreases |ticks|
  {
    hide Inv, Tick, Good, Rank, Shown, Settled, BusyAnswer, Late, Live;
    if Done(w) {
      Quiescent(w, last, ticks);
    } else if ticks == [] {
      BudgetSpent(w, last);
    } else {
      TickSpends(w, last, ticks[0].now, ticks[0].r);
      Converges(Tick(w, ticks[0].now, ticks[0].r), ticks[0].now, ticks[1..]);
    }
  }

  lemma BudgetSpent(w: World, last: nat)
    requires Live(w, last) && !w.d.phase.Stopped? && Budget(w.d, last) == 0
    ensures Done(w)
  {
    hide Rank, Inv;
    if w.d.phase.Ready? || CellPhase(w.d.phase) {
      LiveSettled(w, last);
    }
  }

  /** Once the frame is shown nothing more is written to the chip. */
  lemma {:induction false} Quiescent(w: World, last: nat, ticks: seq<At>)
    requires Live(w, last) && Done(w) && Rising(last, ticks) && Working(w, ticks)
    ensures Ticks(w, ticks).chip == w.chip && Ticks(w, ticks).d.desired == w.d.desired
    ensures Shown(Ticks(w, ticks)) && Done(Ticks(w, ticks))
    decreases |ticks|
  {
    hide Inv, RegsInv, Tick, Good, Rank;
    RankZeroShown(w);
    hide Live;
    hide Shown;
    if ticks != [] {
      DoneActs(w, last, ticks[0].now);
      DoneStays(w, last, ticks[0].now, ticks[0].r);
      StepKeepsLive(w, last, TickEvent(ticks[0].now, ticks[0].r));
      Quiescent(Tick(w, ticks[0].now, ticks[0].r), ticks[0].now, ticks[1..]);
    }
  }

  lemma DoneActs(w: World, last: nat, now: nat)
    requires Live(w, last) && Done(w) && last <= now
    ensures Due(w, now)
  {
    hide Inv, Rank;
  }

  /** The budget is never large. */
  lemma BudgetBound(w: World, last: nat)
    requires Live(w, last)
    ensures Budget(w.d, last) <= 120000 + GLYPH_COST * |w.d.glyphs|
  {
    RankBound(w.d);
    hide Rank, Inv;
  }

  // ---------------------------------------------------------------- the characters of the queue

  lemma GoodCounts(w: World, last: nat, now: nat, r: Reply)
    requires Live(w, last) && Due(w, now) && Good(w, r) && !w.d.phase.Stopped?
    ensures !Fails(w, Tick(w, now, r))
  {
    hide DirtyCount, Bytes, Apply, And, NoMarks, RegsInv, FirstDirty, Collect;
    if w.d.pending && w.d.phase.VerifyConfigure? {
      ModeReads(w);
    } else if w.d.pending {
      hide Flag;
    }
  }

  /** The memory that the queue is written over: the one at the start, unless a reset is still to come. */
  ghost predicate Carried(w: World, v: World) {
    exists memory: Characters ::
      && Loaded(v.chip.regs.characters, v.d.glyphs) == Loaded(memory, w.d.glyphs)
      && (w.d.phase.Reset? || memory == w.chip.regs.characters)
  }

  lemma ResetKeepsQueue(w: World, now: nat, r: Reply)
    requires Inv(w) && w.d.phase.Reset? && Due(w, now) && Good(w, r)
    ensures Tick(w, now, r).d.glyphs == w.d.glyphs
  {
    hide DirtyCount, Bytes, Apply;
  }

  lemma TickCarries(w: World, last: nat, now: nat, r: Reply, v: World)
    requires Live(w, last) && !w.d.phase.Stopped? && (Due(w, now) ==> Good(w, r)) && Carried(Tick(w, now, r), v)
    ensures Carried(w, v)
  {
    var w' := Tick(w, now, r);
    assert Step(w, TickEvent(now, r)) == w';
    if !Due(w, now) {
      assert w' == w;
    } else if w.d.phase.Reset? {
      ResetKeepsQueue(w, now, r);
    } else {
      GoodCounts(w, last, now, r);
      TickOutlook(w, now, r);
      StaysReset(w, last, now, r);
    }
    hide Tick, Step, Inv, RegsInv, Loaded;
  }

  lemma StaysReset(w: World, last: nat, now: nat, r: Reply)
    requires Live(w, last) && Due(w, now) && Good(w, r) && !w.d.phase.Stopped? && !w.d.phase.Reset?
    ensures !Tick(w, now, r).d.phase.Reset?
  {
    LiveFacts(w);
    if !w.d.pending {
      hide DirtyCount, Bytes, NoMarks, RegsInv, FirstDirty, Collect, Inv, OperationOf, Fail;
    } else {
      if w.d.phase.VerifyConfigure? {
        ModeReads(w);
      }
      hide RegsInv, Inv, CompleteOperation, Fail;
      CompletedReset(World(w.d.(pending := false), Apply(w.chip, w.d.transmit, r.chaos)), now, r);
      hide Apply;
    }
  }

  lemma CompletedReset(w: World, now: nat, r: Reply)
    requires w.d.operation == OperationOf(w.d.phase) && !w.d.phase.Reset?
    requires w.d.phase.Ready? ==> r.received != 0xFF && !Flag(r.received, 0x40)
    requires w.d.phase.Probe? ==> r.received != 0xFF && (Flag(r.received, 0x40) ==> w.d.probes < 100)
    requires w.d.phase.VerifyConfigure? ==> And(r.received, 0x49) == VideoMode(w.d, true)
    ensures !CompleteOperation(w, now, r).d.phase.Reset?
  {
    hide DirtyCount, Bytes, NoMarks, And, Fail, Flag, RunDone;
    if w.d.operation == Of(CellEnd) {
      DoneKeeps(w.d.(operation := NoOperation));
    }
  }

  lemma {:induction false} QueueCarried(w: World, last: nat, ticks: seq<At>)
    requires Live(w, last) && !w.d.phase.Stopped? && Rising(last, ticks) && Working(w, ticks)
    ensures Carried(w, Ticks(w, ticks))
    decreases |ticks|
  {
    hide Live, Tick, Good, Due, Carried;
    if ticks == [] {
      CarriedSame(w);
    } else {
      var (now, r) := (ticks[0].now, ticks[0].r);
      StepKeepsLive(w, last, TickEvent(now, r));
      assert Step(w, TickEvent(now, r)) == Tick(w, now, r);
      StaysStarted(w, now, r);
      QueueCarried(Tick(w, now, r), now, ticks[1..]);
      TickCarries(w, last, now, r, Ticks(w, ticks));
    }
  }

  lemma CarriedSame(w: World)
    ensures Carried(w, w)
  {
    hide Loaded;
    assert Loaded(w.chip.regs.characters, w.d.glyphs) == Loaded(w.chip.regs.characters, w.d.glyphs);
  }

  lemma StaysStarted(w: World, now: nat, r: Reply)
    requires !w.d.phase.Stopped?
    ensures !Tick(w, now, r).d.phase.Stopped?
  {
    hide DirtyCount, Bytes, Apply, And, NoMarks, FirstDirty, Collect, Flag;
  }

  lemma CarriedUploads(w: World, v: World)
    requires Carried(w, v) && v.d.glyphs == []
    ensures Uploaded(v.chip.regs.characters, w.d.glyphs)
    ensures !w.d.phase.Reset? ==> v.chip.regs.characters == Loaded(w.chip.regs.characters, w.d.glyphs)
  {
    var memory :| Loaded(v.chip.regs.characters, v.d.glyphs) == Loaded(memory, w.d.glyphs)
      && (w.d.phase.Reset? || memory == w.chip.regs.characters);
    LoadedUploads(memory, w.d.glyphs);
    LoadedNone(v.chip.regs.characters);
  }

  /** With the frame come the characters: after the same ticks the queue is empty and every glyph of it is in the
      chip; and unless the chip had to be reset first, its character memory has changed in no other way. */
  lemma GlyphsArrive(w: World, last: nat, ticks: seq<At>)
    requires Live(w, last) && !w.d.phase.Stopped? && Rising(last, ticks) && Working(w, ticks)
    requires |ticks| >= Budget(w.d, last) + 1002 * BusyAnswers(w, ticks) + 2 * LateTicks(w, last, ticks)
    ensures var v := Ticks(w, ticks);
      && v.d.glyphs == [] && Uploaded(v.chip.regs.characters, w.d.glyphs)
      && (!w.d.phase.Reset? ==> v.chip.regs.characters == Loaded(w.chip.regs.characters, w.d.glyphs))
  {
    hide Live, Working, Rising, Budget, Shown, Settled, Rank, Uploaded, Loaded, Carried;
    Converges(w, last, ticks);
    QueueCarried(w, last, ticks);
    CarriedUploads(w, Ticks(w, ticks));
  }

  // ---------------------------------------------------------------- how often the driver must be called

  predicate Gaps(last: nat, least: nat, most: nat, ticks: seq<At>)
    decreases |ticks|
  {
    ticks != [] ==> last + least <= ticks[0].now <= last + most && Gaps(ticks[0].now, least, most, ticks[1..])
  }

  lemma {:induction false} NeverLate(w: World, last: nat, ticks: seq<At>)
    requires Gaps(last, 1, STATUS_PERIOD_US - 1, ticks)
    ensures LateTicks(w, last, ticks) == 0 && Rising(last, ticks)
    decreases |ticks|
  {
    if ticks != [] {
      NeverLate(Tick(w, ticks[0].now, ticks[0].r), ticks[0].now, ticks[1..]);
    }
  }

  /** Called no more often than the status is polled, a driver does nothing but poll: no cell and no glyph is
      sent, however long it goes on and although every transfer completes. */
  lemma {:induction false} Starves(w: World, last: nat, most: nat, ticks: seq<At>)
    requires Live(w, last) && w.d.phase.Ready? && (w.d.pending || w.d.nextStatus <= last + STATUS_PERIOD_US)
    requires Gaps(last, STATUS_PERIOD_US, most, ticks) && Working(w, ticks)
    ensures var w' := Ticks(w, ticks);
      && w'.chip == w.chip && w'.d.phase.Ready? && w'.d.glyphs == w.d.glyphs && w'.d.desired == w.d.desired
      && Limit(w'.d) == Limit(w.d) && w'.d.active == w.d.active
    ensures Settled(Ticks(w, ticks)) && RegsInv(Ticks(w, ticks))
    decreases |ticks|
  {
    hide Inv, RegsInv, Tick, Good, Rank, Live;
    LiveSettled(w, last);
    if ticks != [] {
      StatusEffect(w, ticks[0].now, ticks[0].r);
      StepKeepsLive(w, last, TickEvent(ticks[0].now, ticks[0].r));
      Starves(Tick(w, ticks[0].now, ticks[0].r), ticks[0].now, most, ticks[1..]);
    }
  }

  /** Called at a fixed period, a driver about to poll brings a frame not yet shown to the display exactly
      when the period is shorter than that of the status polls. */
  lemma ShownExactly(w: World, last: nat, period: nat, ticks: seq<At>)
    requires Live(w, last) && w.d.phase.Ready? && !w.d.pending && w.d.nextStatus <= last + STATUS_PERIOD_US
    requires !Shown(w) && period > 0 && Gaps(last, period, period, ticks) && Working(w, ticks)
    requires |ticks| >= Budget(w.d, last) + 1002 * BusyAnswers(w, ticks)
    ensures Shown(Ticks(w, ticks)) <==> period < STATUS_PERIOD_US
  {
    hide Inv, Tick, Good, Rank, Live, Budget;
    if period < STATUS_PERIOD_US {
      Wider(last, period, period, 1, STATUS_PERIOD_US - 1, ticks);
      NeverLate(w, last, ticks);
      Converges(w, last, ticks);
    } else {
      Wider(last, period, period, STATUS_PERIOD_US, period, ticks);
      Starves(w, last, period, ticks);
      LiveSettled(w, last);
      DisplayReady(w);
      DisplayReady(Ticks(w, ticks));
      hide DisplayOn, PalMode, RegsInv, Settled;
    }
  }

  lemma {:induction false} Wider(last: nat, least: nat, most: nat, less: nat, more: nat, ticks: seq<At>)
    requires Gaps(last, least, most, ticks) && less <= least && most <= more
    ensures Gaps(last, less, more, ticks)
    decreases |ticks|
  {
    if ticks != [] {
      Wider(ticks[0].now, least, most, less, more, ticks[1..]);
    }
  }

  // ---------------------------------------------------------------- from every reachable state

  /** Calls come with times that never go back. */
  predicate Ordered(last: nat, events: seq<Event>)
    decreases |events|
  {
    events != [] ==> NotBefore(events[0], last) && Ordered(TimeOf(events[0], last), events[1..])
  }

  function Latest(last: nat, events: seq<Event>): nat
    decreases |events|
  {
    if events == [] then last else Latest(TimeOf(events[0], last), events[1..])
  }

  function Calls(w: World, events: seq<Event>): World
    decreases |events|
  {
    if events == [] then w else Calls(Step(w, events[0]), events[1..])
  }

  lemma {:induction false} CallsKeepLive(w: World, last: nat, events: seq<Event>)
    requires Live(w, last) && Ordered(last, events)
    ensures Live(Calls(w, events), Latest(last, events))
    decreases |events|
  {
    hide Live, Step;
    if events != [] {
      StepKeepsLive(w, last, events[0]);
      CallsKeepLive(Step(w, events[0]), TimeOf(events[0], last), events[1..]);
    }
  }

  /** Whatever happened before, calls less than a status period apart that meet a working chip lead a started
      driver to the frame and leave it there, with every queued glyph in the chip. */
  lemma {:induction false} AlwaysConverges(noVideoFallback: Standard, chip: Chip, events: seq<Event>, ticks: seq<At>)
    requires Ordered(0, events)
    requires var w, last := Calls(Initial(noVideoFallback, chip), events), Latest(0, events);
      && !w.d.phase.Stopped? && Working(w, ticks) && Gaps(last, 1, STATUS_PERIOD_US - 1, ticks)
      && |ticks| >= 120000 + GLYPH_COST * |w.d.glyphs| + 1002 * BusyAnswers(w, ticks)
    ensures var w := Calls(Initial(noVideoFallback, chip), events);
      && Shown(Ticks(w, ticks)) && Ticks(w, ticks).d.desired == w.d.desired
      && Ticks(w, ticks).d.glyphs == [] && Uploaded(Ticks(w, ticks).chip.regs.characters, w.d.glyphs)
  {
    var w, last := Calls(Initial(noVideoFallback, chip), events), Latest(0, events);
    InitialLive(noVideoFallback, chip);
    CallsKeepLive(Initial(noVideoFallback, chip), 0, events);
    BudgetBound(w, last);
    NeverLate(w, last, ticks);
    Converges(w, last, ticks);
    GlyphsArrive(w, last, ticks);
    hide Initial, Calls, Working, Ticks, Shown, Gaps, Live, Budget, Done, Uploaded;
  }
}
