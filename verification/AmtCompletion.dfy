/** What a programming run achieves over a chip that works: it completes, after an exact number of ticks, and
    leaves in the flash exactly what it was started for. */
module AmtCompletion {
  import opened Bits
  import opened NorFlash
  import opened Amt630a
  import Sha256

  /** A tick over a working chip: it comes in time, the call succeeds and reads what is there, and the chip that
      identifies itself is the expected one and idle. */
  predicate Working(w: World, now: nat, r: Reply) {
    (InRun(w.c.state) ==> now < w.c.deadline) && Answering(w, r)
  }

  predicate Answering(w: World, r: Reply) {
    r.ok && r.faithful && (w.c.state.AcquiringFlash? ==> r.word == 0xEF3010 && !(w.d.busy && r.busy))
  }

  /** The chip is still erasing or programming, or the display has not started yet. */
  predicate Waits(s: State, r: Reply) {
    || ((s.WaitingForErase? || s.WaitingForProgram?) && r.busy)
    || (s.WaitingForBoot? && !(r.runtime.booted && r.runtime.panelTimingActive))
  }

  predicate AllWorking(w: World, ticks: seq<(nat, Reply)>)
    decreases |ticks|
  {
    ticks != [] ==>
      Working(w, ticks[0].0, ticks[0].1) && AllWorking(Tick(w, ticks[0].0, ticks[0].1), ticks[1..])
  }

  /** The ticks of the run that had nothing to wait for. */
  function Counted(w: World, ticks: seq<(nat, Reply)>): nat
    decreases |ticks|
  {
    if ticks == [] then 0
    else
      (if InRun(w.c.state) && !Waits(w.c.state, ticks[0].1) then 1 else 0)
      + Counted(Tick(w, ticks[0].0, ticks[0].1), ticks[1..])
  }

  // ---------------------------------------------------------------- how far it is to the end

  /** The pages of `n` bytes. */
  function PageCount(n: nat): nat {
    (n + 255) / 256
  }

  /** Erase, three ticks a page, verify, release, boot. */
  function Rewrite(c: Controller): nat {
    4 * PageCount(c.imageSize) + 7
  }

  /** The flash already holds the image. */
  predicate Present(w: World) {
    w.c.imageSize <= FLASH_SIZE && Sha256.Hash(w.d.mem[..w.c.imageSize]) == w.c.expected
  }

  function AfterCheck(w: World): nat {
    if Present(w) then 2 else Rewrite(w.c)
  }

  function Left(size: nat, done: nat): nat {
    if done <= size then PageCount(size - done) else 0
  }

  /** The ticks to the end, not counting the ones that wait. */
  function Steps(w: World): nat {
    var c := w.c;
    var pages := PageCount(c.imageSize);
    match c.state
    case AcquiringFlash => 1 + if c.checking then pages + 1 + AfterCheck(w) else Rewrite(c)
    case CheckingFlash => Left(c.imageSize, c.verifyOffset) + 1 + AfterCheck(w)
    case EnablingErase => Rewrite(c)
    case Erasing => Rewrite(c) - 1
    case WaitingForErase => Rewrite(c) - 2
    case EnablingProgram => 3 * Left(c.imageSize, c.offset) + pages + 4
    case Programming => 3 * Left(c.imageSize, c.offset) + pages + 3
    case WaitingForProgram => 3 * Left(c.imageSize, c.offset) + pages + 2
    case Verifying => Left(c.imageSize, c.verifyOffset) + 3
    case ReleasingFlash => 2
    case WaitingForBoot => 1
    case _ => 0
  }

  /** What has been done to the flash, when `kept` tells whether it is to keep what it held, `mem`. */
  predicate Kept(w: World, kept: bool, mem: Memory) {
    match w.c.state
    case AcquiringFlash => w.d.mem == mem && kept == (w.c.checking && Present(w)) && w.c.programmed == 0
    case CheckingFlash => w.d.mem == mem && kept == Present(w) && w.c.programmed == 0
    case EnablingErase => !kept && w.c.programmed == 0
    case Erasing => !kept && w.c.programmed == 0
    case WaitingForErase => !kept && w.c.programmed == 0
    case EnablingProgram => !kept && w.c.programmed == w.c.offset
    case Programming => !kept && w.c.programmed == w.c.offset
    case WaitingForProgram => !kept && w.c.programmed == w.c.offset
    case Verifying => !kept && w.c.programmed == w.c.imageSize
    case _ => Finished(w, kept, mem)
  }

  predicate Finished(w: World, kept: bool, mem: Memory) {
    && w.c.imageSize == |w.c.image| <= FLASH_SIZE
    && (if kept then w.d.mem == mem && w.c.programmed == 0
        else w.c.programmed == w.c.imageSize && Written(w.c.image, w.d.mem, w.c.imageSize))
    && Present(w)
  }

  predicate Going(w: World, kept: bool, mem: Memory) {
    && FlashInv(w) && (InRun(w.c.state) || w.c.state.Complete?) && w.c.fault.NoFault? && Kept(w, kept, mem)
    && (w.c.state.Complete? ==> w.c.progress == 100)
  }

  // ---------------------------------------------------------------- one tick

  lemma PageLeft(size: nat, done: nat)
    requires done < size
    ensures Left(size, Min(size, done + 256)) == Left(size, done) - 1
  {
  }

  /** What a tick of a run over a working chip does: it keeps the run going, one step further unless it waits. */
  predicate Advances(w: World, v: World, r: Reply, kept: bool, mem: Memory) {
    && v.c.fault.NoFault? && Kept(v, kept, mem)
    && (InRun(v.c.state) || (v.c.state.Complete? && v.c.progress == 100))
    && Steps(v) == Steps(w) - (if Waits(w.c.state, r) then 0 else 1)
    && (v.c.image, v.c.expected, v.c.imageSize) == (w.c.image, w.c.expected, w.c.imageSize)
  }

  lemma MuxGoes(w: World, now: nat, r: Reply, kept: bool, mem: Memory)
    requires Going(w, kept, mem) && Working(w, now, r) && !TimedOut(w.c, now)
    requires w.c.state.AcquiringFlash? || w.c.state.ReleasingFlash? || w.c.state.WaitingForBoot?
    ensures Advances(w, TickState(w, now, r), r, kept, mem)
  {
    hide Sha256.Hash, Written;
  }

  lemma CheckGoes(w: World, now: nat, r: Reply, kept: bool, mem: Memory)
    requires Going(w, kept, mem) && Working(w, now, r) && !TimedOut(w.c, now) && w.c.state.CheckingFlash?
    ensures Advances(w, TickChecking(w, now, r), r, kept, mem)
  {
    hide Sha256.Hash, Kept, Steps, TickChecking, Advances;
    if w.c.verifyOffset < w.c.imageSize {
      CheckReads(w, now, r, kept, mem);
    } else {
      CheckEnds(w, now, r, kept, mem);
    }
  }

  lemma CheckReads(w: World, now: nat, r: Reply, kept: bool, mem: Memory)
    requires Going(w, kept, mem) && r.ok && w.c.state.CheckingFlash? && w.c.verifyOffset < w.c.imageSize
    ensures Advances(w, TickChecking(w, now, r), r, kept, mem)
  {
    hide Sha256.Hash, Written, ReadBack, ReadFaithfully;
    PageLeft(w.c.imageSize, w.c.verifyOffset);
  }

  lemma CheckEnds(w: World, now: nat, r: Reply, kept: bool, mem: Memory)
    requires Going(w, kept, mem) && w.c.state.CheckingFlash? && w.c.verifyOffset == w.c.imageSize
    ensures Advances(w, TickChecking(w, now, r), r, kept, mem)
  {
    hide Sha256.Hash, Written, ReadBack;
    assert Begun(w.c).hashed == w.d.mem[..w.c.imageSize];
  }

  lemma VerifyGoes(w: World, now: nat, r: Reply, kept: bool, mem: Memory)
    requires Going(w, kept, mem) && Working(w, now, r) && !TimedOut(w.c, now) && w.c.state.Verifying?
    ensures Advances(w, TickVerifying(w, now, r), r, kept, mem)
  {
    VerifyInvs(w, kept, mem);
    hide Sha256.Hash, Written, Kept, Steps, Going, TickVerifying, Advances;
    if w.c.verifyOffset < w.c.imageSize {
      VerifyReads(w, now, r, kept, mem);
    } else {
      VerifyEnds(w, now, r, kept, mem);
    }
  }

  lemma VerifyInvs(w: World, kept: bool, mem: Memory)
    requires Going(w, kept, mem) && w.c.state.Verifying?
    ensures w.c.verifyOffset <= w.c.imageSize <= FLASH_SIZE
    ensures Sha256.Hash(w.d.mem[..w.c.imageSize]) == w.c.expected
  {
    hide Sha256.Hash, Written, Kept;
    VerifiedImage(w);
    hide ReadFaithfully, ImageAcceptable;
  }

  lemma VerifyReads(w: World, now: nat, r: Reply, kept: bool, mem: Memory)
    requires Going(w, kept, mem) && r.ok && w.c.state.Verifying? && w.c.verifyOffset < w.c.imageSize
    ensures Advances(w, TickVerifying(w, now, r), r, kept, mem)
  {
    hide Sha256.Hash, Written, ReadBack, ReadFaithfully;
    PageLeft(w.c.imageSize, w.c.verifyOffset);
  }

  lemma VerifyEnds(w: World, now: nat, r: Reply, kept: bool, mem: Memory)
    requires Going(w, kept, mem) && w.c.state.Verifying? && w.c.verifyOffset == w.c.imageSize <= FLASH_SIZE
    requires Sha256.Hash(w.d.mem[..w.c.imageSize]) == w.c.expected
    ensures Advances(w, TickVerifying(w, now, r), r, kept, mem)
  {
    hide Sha256.Hash, Written, ReadBack;
    assert Begun(w.c).hashed == w.d.mem[..w.c.imageSize];
  }

  lemma EraseGoes(w: World, now: nat, r: Reply, kept: bool, mem: Memory)
    requires Going(w, kept, mem) && Working(w, now, r) && !TimedOut(w.c, now)
    requires w.c.state.EnablingErase? || w.c.state.Erasing? || w.c.state.WaitingForErase?
    ensures Advances(w, TickState(w, now, r), r, kept, mem)
  {
    hide Sha256.Hash, Written, Erased;
  }

  lemma PageGoes(w: World, now: nat, r: Reply, kept: bool, mem: Memory)
    requires Going(w, kept, mem) && Working(w, now, r) && !TimedOut(w.c, now)
    requires w.c.state.EnablingProgram? || w.c.state.Programming? || w.c.state.WaitingForProgram?
    ensures Advances(w, TickState(w, now, r), r, kept, mem)
  {
    hide Sha256.Hash, Written, Programmed;
    if w.c.offset < w.c.imageSize {
      PageLeft(w.c.imageSize, w.c.offset);
    }
  }

  lemma IdleGoes(w: World, now: nat, r: Reply, kept: bool, mem: Memory)
    requires Going(w, kept, mem) && Working(w, now, r) && w.c.state.Complete?
    ensures var v := Tick(w, now, r);
      && v.c.fault.NoFault? && Kept(v, kept, mem) && v.c.state.Complete? && v.c.progress == 100
      && Steps(v) == Steps(w) == 0
      && (v.c.image, v.c.expected, v.c.imageSize) == (w.c.image, w.c.expected, w.c.imageSize)
  {
    hide Sha256.Hash, Written;
  }

  lemma TickGoes(w: World, now: nat, r: Reply, kept: bool, mem: Memory)
    requires Going(w, kept, mem) && Working(w, now, r)
    ensures var v := Tick(w, now, r);
      && Going(v, kept, mem)
      && Steps(v) == Steps(w) - (if InRun(w.c.state) && !Waits(w.c.state, r) then 1 else 0)
      && (v.c.image, v.c.expected, v.c.imageSize) == (w.c.image, w.c.expected, w.c.imageSize)
  {
    hide Sha256.Hash, Steps, Kept, TickChecking, TickVerifying;
    StepKeepsFlash(w, TickEvent(now, r));
    var s := w.c.state;
    if s.Complete? {
      IdleGoes(w, now, r, kept, mem);
    } else if s.CheckingFlash? {
      CheckGoes(w, now, r, kept, mem);
    } else if s.Verifying? {
      VerifyGoes(w, now, r, kept, mem);
    } else if s.EnablingProgram? || s.Programming? || s.WaitingForProgram? {
      PageGoes(w, now, r, kept, mem);
    } else if s.AcquiringFlash? || s.ReleasingFlash? || s.WaitingForBoot? {
      MuxGoes(w, now, r, kept, mem);
    } else {
      EraseGoes(w, now, r, kept, mem);
    }
    hide TickState;
  }

  // ---------------------------------------------------------------- the run

  lemma StepsLeft(w: World)
    requires Inv(w)
    ensures InRun(w.c.state) <==> Steps(w) > 0
  {
    hide Sha256.Hash;
  }

  lemma {:induction false} TicksGo(w: World, ticks: seq<(nat, Reply)>, kept: bool, mem: Memory)
    requires Going(w, kept, mem) && AllWorking(w, ticks)
    ensures var v := Ticks(w, ticks);
      && Going(v, kept, mem)
      && Steps(v) == (if Counted(w, ticks) <= Steps(w) then Steps(w) - Counted(w, ticks) else 0)
      && Counted(w, ticks) <= Steps(w)
      && (v.c.image, v.c.expected, v.c.imageSize) == (w.c.image, w.c.expected, w.c.imageSize)
    decreases |ticks|
  {
    hide Going, Working, Tick, Steps, Waits, InRun;
    if ticks != [] {
      TickGoes(w, ticks[0].0, ticks[0].1, kept, mem);
      TicksGo(Tick(w, ticks[0].0, ticks[0].1), ticks[1..], kept, mem);
    }
  }

  lemma AcquiringGoes(v: World)
    requires FlashInv(v) && v.c.state.AcquiringFlash? && v.c.fault.NoFault? && v.c.programmed == 0
    ensures Going(v, v.c.checking && Present(v), v.d.mem)
    ensures Steps(v)
      == if !v.c.checking then 1 + Rewrite(v.c) else PageCount(v.c.imageSize) + 2 + AfterCheck(v)
  {
    hide FlashInv, Present;
  }

  lemma StartGoes(w: World, e: Event)
    requires FlashInv(w) && e.StartEvent? && StartAccepted(w, e.image, e.expected)
    ensures Going(Step(w, e), Installed(w, e), w.d.mem) && Steps(Step(w, e)) == Needed(w, e)
    ensures Step(w, e).c.image == e.image && Step(w, e).c.expected == e.expected
  {
    hide Sha256.Hash, FlashInv, Steps, Going;
    StepKeepsFlash(w, e);
    AcquiringGoes(Step(w, e));
  }

  lemma EnsureGoes(w: World, e: Event)
    requires FlashInv(w) && e.EnsureEvent? && EnsureAccepted(w, e.image, e.expected, e.r)
    ensures Going(Step(w, e), Installed(w, e), w.d.mem) && Steps(Step(w, e)) == Needed(w, e)
    ensures Step(w, e).c.image == e.image && Step(w, e).c.expected == e.expected
  {
    hide Sha256.Hash, FlashInv, Step, EnsureAccepted, Steps, Going;
    StepKeepsFlash(w, e);
    EnsuredWorld(w, e);
    AcquiringGoes(Step(w, e));
  }

  /** The calls that begin a run. */
  predicate Accepted(w: World, e: Event) {
    || (e.StartEvent? && StartAccepted(w, e.image, e.expected))
    || (e.EnsureEvent? && EnsureAccepted(w, e.image, e.expected, e.r))
  }

  lemma AcceptedGoes(w: World, e: Event)
    requires FlashInv(w) && Accepted(w, e)
    ensures e.StartEvent? || e.EnsureEvent?
    ensures Going(Step(w, e), Installed(w, e), w.d.mem) && Steps(Step(w, e)) == Needed(w, e)
    ensures Step(w, e).c.image == e.image && Step(w, e).c.expected == e.expected
  {
    hide FlashInv, Going, Installed, Steps, Needed, Step;
    if e.StartEvent? {
      StartGoes(w, e);
    } else {
      EnsureGoes(w, e);
    }
  }

  lemma EnsuredWorld(w: World, e: Event)
    requires e.EnsureEvent? && EnsureAccepted(w, e.image, e.expected, e.r)
    ensures var v := Step(w, e);
      && v.d == w.d && v.c.image == e.image && v.c.expected == e.expected
      && v.c.imageSize == |e.image| <= FLASH_SIZE
      && v.c.state.AcquiringFlash? && v.c.checking && v.c.fault.NoFault? && v.c.programmed == 0
  {
    hide Sha256.Hash;
  }

  /** The flash holds what a check is started for. */
  predicate Installed(w: World, e: Event)
    requires e.StartEvent? || e.EnsureEvent?
  {
    e.EnsureEvent? && |e.image| <= FLASH_SIZE && Sha256.Hash(w.d.mem[..|e.image|]) == e.expected
  }

  /** The ticks of a run: one to acquire the flash, one a page and one more for a check, three for the erase, three
      a page and one more to program, one a page and one more to verify, and two to release and boot. */
  function Needed(w: World, e: Event): nat
    requires e.StartEvent? || e.EnsureEvent?
  {
    var pages := (|e.image| + 255) / 256;
    if e.StartEvent? then 4 * pages + 8 else if Installed(w, e) then pages + 4 else 5 * pages + 9
  }

  /** What the flash holds when a run is complete. */
  predicate Achieved(w: World, e: Event, v: World)
    requires e.StartEvent? || e.EnsureEvent?
  {
    && |e.image| <= FLASH_SIZE && Sha256.Hash(v.d.mem[..|e.image|]) == e.expected
    && if Installed(w, e) then v.d.mem == w.d.mem && v.c.programmed == 0
       else v.d.mem == e.image + seq(FLASH_SIZE - |e.image|, _ => 0xFF) && v.c.programmed == |e.image|
  }

  lemma FinishedAchieved(w: World, e: Event, v: World)
    requires e.StartEvent? || e.EnsureEvent?
    requires Finished(v, Installed(w, e), w.d.mem) && v.c.image == e.image && v.c.expected == e.expected
    ensures Achieved(w, e, v)
  {
    hide Sha256.Hash;
    if !Installed(w, e) {
      var n := |e.image|;
      assert v.d.mem == v.d.mem[..n] + v.d.mem[n..];
      assert v.c.image[..n] == v.c.image;
      assert v.d.mem[n..] == seq(FLASH_SIZE - n, _ => 0xFF);
    }
  }

  /** Every run that was accepted completes over a working chip, and after exactly the needed number of ticks
      besides those that wait: no earlier, and for any number of further ticks it stays so.  The flash is given
      back without a fault; it is untouched if a check found the image in it, and else holds the image and nothing
      besides. */
  lemma RunCompletes(w: World, e: Event, ticks: seq<(nat, Reply)>)
    requires FlashInv(w) && Accepted(w, e)
    requires AllWorking(Step(w, e), ticks)
    ensures (e.StartEvent? || e.EnsureEvent?) && var v := Ticks(Step(w, e), ticks);
      && (if Counted(Step(w, e), ticks) >= Needed(w, e) then v.c.state.Complete? else InRun(v.c.state))
      && v.c.fault.NoFault?
      && (v.c.state.Complete? ==> v.c.progress == 100 && !v.d.owned && Achieved(w, e, v))
  {
    hide Going, Needed, Installed, Step, FlashInv, Accepted, AllWorking, Achieved, Steps;
    AcceptedGoes(w, e);
    TicksGo(Step(w, e), ticks, Installed(w, e), w.d.mem);
    var v := Ticks(Step(w, e), ticks);
    GoingEnds(v, Installed(w, e), w.d.mem);
    if v.c.state.Complete? {
      FinishedAchieved(w, e, v);
    }
  }

  lemma GoingEnds(v: World, kept: bool, mem: Memory)
    requires Going(v, kept, mem)
    ensures if Steps(v) > 0 then InRun(v.c.state) else v.c.state.Complete?
    ensures v.c.fault.NoFault?
    ensures v.c.state.Complete? ==> v.c.progress == 100 && !v.d.owned && Finished(v, kept, mem)
  {
    StepsLeft(v);
    hide Sha256.Hash, Steps;
  }

  // ---------------------------------------------------------------- when no deadline is met

  /** The ticks up to the next new deadline, not counting the ones that wait. */
  function Until(c: Controller): nat {
    match c.state
    case AcquiringFlash => if c.checking then PageCount(c.imageSize) + 3 else 4
    case CheckingFlash => Left(c.imageSize, c.verifyOffset) + 2
    case EnablingErase => 3
    case Erasing => 2
    case WaitingForErase => 1
    case EnablingProgram => 3
    case Programming => 2
    case WaitingForProgram => 1
    case Verifying => 2
    case _ => 1
  }

  /** The ticks of the run that wait. */
  function Waited(w: World, ticks: seq<(nat, Reply)>): nat
    decreases |ticks|
  {
    if ticks == [] then 0
    else
      (if InRun(w.c.state) && Waits(w.c.state, ticks[0].1) then 1 else 0)
      + Waited(Tick(w, ticks[0].0, ticks[0].1), ticks[1..])
  }

  /** Ticks that come at most `gap` apart, over a chip that works. */
  predicate Regular(w: World, last: nat, gap: nat, ticks: seq<(nat, Reply)>)
    decreases |ticks|
  {
    ticks != [] ==>
      && ticks[0].0 <= last + gap && Answering(w, ticks[0].1)
      && Regular(Tick(w, ticks[0].0, ticks[0].1), ticks[0].0, gap, ticks[1..])
  }

  /** A tick sets a new deadline, waits, or is one tick nearer to the next new one. */
  predicate Nearer(c: Controller, c': Controller, now: nat, waits: bool) {
    && c'.timeoutUs == c.timeoutUs
    && (InRun(c'.state) ==>
        || (c'.deadline == now + c.timeoutUs && Until(c') <= 259)
        || (c'.deadline == c.deadline && Until(c') == Until(c) - (if waits then 0 else 1)))
  }

  lemma PassNearer(w: World, now: nat, r: Reply)
    requires Inv(w) && r.ok && (w.c.state.CheckingFlash? || w.c.state.Verifying?)
    ensures Nearer(w.c, TickState(w, now, r).c, now, false)
  {
    hide Sha256.Hash, ReadBack;
    if w.c.verifyOffset < w.c.imageSize {
      PageLeft(w.c.imageSize, w.c.verifyOffset);
    }
  }

  lemma OtherNearer(w: World, now: nat, r: Reply)
    requires Inv(w) && Answering(w, r) && InRun(w.c.state) && !w.c.state.CheckingFlash? && !w.c.state.Verifying?
    ensures Nearer(w.c, TickState(w, now, r).c, now, Waits(w.c.state, r))
  {
    hide Sha256.Hash, ReadBack, Programmed, Erased, ProgramPage, ChipErase, WriteEnable, Poll, Release;
  }

  lemma TickNearer(w: World, now: nat, r: Reply)
    requires Inv(w) && Answering(w, r) && InRun(w.c.state) && now < w.c.deadline
    ensures Nearer(w.c, Tick(w, now, r).c, now, Waits(w.c.state, r))
  {
    if w.c.state.CheckingFlash? || w.c.state.Verifying? {
      PassNearer(w, now, r);
    } else {
      OtherNearer(w, now, r);
    }
    hide TickState, Nearer, Inv;
  }

  /** The time of `count` ticks. */
  function Span(gap: nat, count: nat): nat {
    gap * count
  }

  lemma SpanIs(gap: nat, count: nat)
    ensures Span(gap, count) == gap * count
  {
  }

  lemma SpanMono(gap: nat, a: nat, b: nat)
    requires a <= b
    ensures Span(gap, a) <= Span(gap, b)
    ensures Span(gap, a + 1) == Span(gap, a) + gap
  {
    assert gap * a + gap * (b - a) == gap * b;
  }

  /** The deadline is out of reach for as many ticks. */
  predicate Ahead(c: Controller, last: nat, gap: nat, count: nat) {
    InRun(c.state) ==> last + Span(gap, count) < c.deadline
  }

  lemma StaysAhead(c: Controller, c': Controller, last: nat, now: nat, gap: nat, count: nat, waits: bool)
    requires InRun(c.state) && Nearer(c, c', now, waits) && now <= last + gap
    requires Ahead(c, last, gap, Until(c) + count + (if waits then 1 else 0)) && Span(gap, count + 259) < c.timeoutUs
    requires Until(c) >= 1
    ensures Ahead(c', now, gap, Until(c') + count)
  {
    hide Until, InRun, Span;
    if InRun(c'.state) {
      var n := Until(c') + count;
      if c'.deadline == now + c.timeoutUs && Until(c') <= 259 {
        SpanMono(gap, n, count + 259);
      } else {
        SpanMono(gap, n, n + 1);
      }
    }
  }

  lemma UntilPositive(c: Controller)
    ensures Until(c) >= 1
  {
  }

  lemma AheadNow(c: Controller, last: nat, now: nat, gap: nat, count: nat)
    requires InRun(c.state) && Ahead(c, last, gap, count) && count >= 1 && now <= last + gap
    ensures now < c.deadline
  {
    hide InRun;
    SpanMono(gap, 1, count);
  }

  lemma GoingFacts(w: World, kept: bool, mem: Memory)
    requires Going(w, kept, mem)
    ensures Inv(w) && (InRun(w.c.state) || w.c.state.Complete?)
  {
  }

  lemma IdleAhead(w: World, now: nat, r: Reply, gap: nat, count: nat)
    requires w.c.state.Complete? && Answering(w, r)
    ensures Ahead(Tick(w, now, r).c, now, gap, count) && Tick(w, now, r).c.timeoutUs == w.c.timeoutUs
  {
  }

  lemma {:induction false} RegularWorks(
    w: World, last: nat, gap: nat, ticks: seq<(nat, Reply)>, kept: bool, mem: Memory)
    requires Going(w, kept, mem) && Regular(w, last, gap, ticks)
    requires Ahead(w.c, last, gap, Until(w.c) + Waited(w, ticks))
    requires Span(gap, Waited(w, ticks) + 259) < w.c.timeoutUs
    ensures AllWorking(w, ticks)
    decreases |ticks|
  {
    hide Going, Tick, Waits, InRun, Until, Ahead, Answering, Nearer, Span, Inv;
    if ticks != [] {
      var (now, r) := ticks[0];
      var w', rest := Tick(w, now, r), ticks[1..];
      GoingFacts(w, kept, mem);
      UntilPositive(w.c);
      if InRun(w.c.state) {
        AheadNow(w.c, last, now, gap, Until(w.c) + Waited(w, ticks));
        TickNearer(w, now, r);
        RegularAhead(w, last, now, r, gap, Waited(w', rest));
      } else {
        IdleAhead(w, now, r, gap, Until(w'.c) + Waited(w', rest));
      }
      TickGoes(w, now, r, kept, mem);
      SpanMono(gap, Waited(w', rest) + 259, Waited(w, ticks) + 259);
      RegularWorks(w', now, gap, rest, kept, mem);
    }
  }

  lemma RegularAhead(w: World, last: nat, now: nat, r: Reply, gap: nat, count: nat)
    requires Inv(w) && Answering(w, r) && InRun(w.c.state) && now < w.c.deadline && now <= last + gap
    requires var more := if Waits(w.c.state, r) then 1 else 0;
      Ahead(w.c, last, gap, Until(w.c) + count + more) && Span(gap, count + more + 259) < w.c.timeoutUs
    ensures var c' := Tick(w, now, r).c; Ahead(c', now, gap, Until(c') + count) && c'.timeoutUs == w.c.timeoutUs
  {
    hide Inv, Tick, Waits, InRun, Until, Ahead, Answering, Span;
    TickNearer(w, now, r);
    UntilPositive(w.c);
    var more := if Waits(w.c.state, r) then 1 else 0;
    SpanMono(gap, count + 259, count + more + 259);
    StaysAhead(w.c, Tick(w, now, r).c, last, now, gap, count, Waits(w.c.state, r));
  }

  lemma StartAhead(w: World, e: Event)
    requires Accepted(w, e)
    ensures var c := Step(w, e).c;
      c.deadline == e.now + w.c.timeoutUs && c.timeoutUs == w.c.timeoutUs && Until(c) <= 259
  {
    hide Sha256.Hash;
  }

  /** No deadline is met by ticks that come regularly: at most `gap` apart from the start on, where the timeout
      holds 259 such gaps and one for each tick that waits. */
  lemma RegularRunCompletes(w: World, e: Event, gap: nat, ticks: seq<(nat, Reply)>)
    requires FlashInv(w) && Accepted(w, e)
    requires Regular(Step(w, e), e.now, gap, ticks)
    requires gap * (Waited(Step(w, e), ticks) + 259) < w.c.timeoutUs
    requires (e.StartEvent? || e.EnsureEvent?) && Counted(Step(w, e), ticks) >= Needed(w, e)
    ensures Ticks(Step(w, e), ticks).c.state.Complete? && Achieved(w, e, Ticks(Step(w, e), ticks))
  {
    hide Going, Needed, Installed, Step, FlashInv, Accepted, AllWorking, Achieved, Until, Span, Regular, Inv;
    SpanIs(gap, Waited(Step(w, e), ticks) + 259);
    AcceptedGoes(w, e);
    var v := Step(w, e);
    StartAhead(w, e);
    SpanMono(gap, Until(v.c) + Waited(v, ticks), Waited(v, ticks) + 259);
    RegularWorks(v, e.now, gap, ticks, Installed(w, e), w.d.mem);
    RunCompletes(w, e, ticks);
  }

  // ---------------------------------------------------------------- and why a run fails

  /** A tick of a run that meets its deadline. */
  predicate Late(w: World, now: nat) {
    (InRun(w.c.state) || w.c.state.Detecting?) && TimedOut(w.c, now)
  }

  /** The tick has to rely on an answer: all but the ones that compare digests or enter verification, and the
      wait for the display, which takes a failed call for a display not yet there. */
  predicate Relies(c: Controller) {
    match c.state
    case CheckingFlash => c.verifyOffset < c.imageSize
    case Verifying => c.verifyOffset < c.imageSize
    case EnablingProgram => c.offset < c.imageSize
    case WaitingForBoot => false
    case s => InRun(s) || s.Detecting?
  }

  /** A device, or a chip, that is not the expected one. */
  predicate Stranger(s: State, r: Reply) {
    (s.Detecting? && r.word != 0x630A) || (s.AcquiringFlash? && r.word != 0xEF3010)
  }

  predicate Mismatch(c: Controller) {
    c.state.Verifying? && c.verifyOffset == c.imageSize && Sha256.Hash(Begun(c).hashed) != c.expected
  }

  function Reason(w: World, now: nat, r: Reply): FaultKind {
    if Late(w, now) then Timeout
    else if Mismatch(w.c) then Checksum
    else if r.ok then (if w.c.state.Detecting? then Identity else FlashIdentity)
    else if w.c.state.CheckingFlash? || w.c.state.Verifying? then Readback
    else Communication
  }

  /** Outside the idle states a tick fails exactly if it is late, the call it relies on fails, the device or the chip
      is not the expected one, or what was read back has another digest; and the fault says which. */
  lemma FaultsExactly(w: World, now: nat, r: Reply)
    requires Inv(w) && (InRun(w.c.state) || w.c.state.Detecting?)
    ensures var v := Tick(w, now, r);
      && (v.c.state.Fault? <==>
          Late(w, now) || (Relies(w.c) && !r.ok) || Stranger(w.c.state, r) || Mismatch(w.c))
      && (v.c.state.Fault? ==> v.c.fault == Reason(w, now, r))
  {
    hide Sha256.Hash, ReadBack, Programmed, Erased;
    if w.c.state.CheckingFlash? || w.c.state.Verifying? {
      PassFaults(w, now, r);
      hide TickState;
    }
  }

  lemma PassFaults(w: World, now: nat, r: Reply)
    requires Inv(w) && (w.c.state.CheckingFlash? || w.c.state.Verifying?)
    ensures var v := TickState(w, now, r);
      && (v.c.state.Fault? <==> (Relies(w.c) && !r.ok) || Mismatch(w.c))
      && (v.c.state.Fault? ==> v.c.fault == if Mismatch(w.c) then Checksum else Readback)
  {
    hide Sha256.Hash, ReadBack;
  }

  // ---------------------------------------------------------------- the idle states

  predicate Idle(s: State) {
    s.Ready? || s.Complete?
  }

  /** Ticks at the times at which the status is due. */
  predicate Due(w: World, ticks: seq<(nat, Reply)>)
    decreases |ticks|
  {
    ticks != [] ==>
      (Idle(w.c.state) ==> ticks[0].0 >= w.c.nextStatus) && Due(Tick(w, ticks[0].0, ticks[0].1), ticks[1..])
  }

  /** Somewhere three readings fail in a row, when `failed` readings failed just before. */
  predicate ThreeFail(failed: nat, ticks: seq<(nat, Reply)>)
    decreases |ticks|
  {
    failed >= 3 || (ticks != [] && ThreeFail(if ticks[0].1.ok then 0 else failed + 1, ticks[1..]))
  }

  /** An idle programmer gives its device up exactly when three readings of its status fail in a row. */
  lemma {:induction false} IdleFaults(w: World, ticks: seq<(nat, Reply)>)
    requires Idle(w.c.state) && w.c.readFailures < 3 && Due(w, ticks)
    ensures var v := Ticks(w, ticks);
      && (if ThreeFail(w.c.readFailures, ticks) then v.c.state.Fault? && v.c.fault.Communication?
          else Idle(v.c.state))
      && v.d == w.d
    decreases |ticks|
  {
    if ticks != [] {
      var v := Tick(w, ticks[0].0, ticks[0].1);
      if Idle(v.c.state) {
        IdleFaults(v, ticks[1..]);
      } else {
        assert ThreeFail(w.c.readFailures + 1, ticks[1..]);
        FaultStays(v, ticks[1..]);
      }
    }
  }

  lemma {:induction false} FaultStays(w: World, ticks: seq<(nat, Reply)>)
    requires w.c.state.Fault?
    ensures Ticks(w, ticks) == w
    decreases |ticks|
  {
    if ticks != [] {
      FaultStays(w, ticks[1..]);
    }
  }
}
