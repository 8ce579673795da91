/** The AMT630A flash programmer: one hardware operation per tick, over a NOR flash whose answers
    the environment chooses.  `Step` is the behaviour of one call; the lemmas are about runs. */
module Amt630a {
  import opened Bits
  import opened NorFlash
  import Sha256

  const EXPECTED_IDENTITY := 0x630A
  const EXPECTED_JEDEC := 0xEF3010

  datatype State =
    | Unavailable | Detecting | Ready
    | AcquiringFlash | CheckingFlash
    | EnablingErase | Erasing | WaitingForErase
    | EnablingProgram | Programming | WaitingForProgram
    | Verifying | ReleasingFlash | WaitingForBoot
    | Complete | Fault

  datatype FaultKind =
    | NoFault | Configuration | Communication | Identity | FlashIdentity | Timeout | Readback | Checksum

  /** `hashed` is the content of the hash context: the bytes absorbed since it was last reset. */
  datatype Controller = Controller(
    state: State, fault: FaultKind, runtime: Runtime, identity: nat, jedec: nat,
    programmed: nat, imageSize: nat, progress: nat,
    image: seq<byte>, expected: seq<byte>, offset: nat, verifyOffset: nat, pageSize: nat,
    deadline: nat, nextStatus: nat, verifyStarted: bool, checking: bool, readFailures: nat,
    hashed: seq<byte>, timeoutUs: nat, intervalUs: nat)

  datatype World = World(c: Controller, d: Flash)

  const NO_RUNTIME := Runtime(false, false, false)

  /** From acquiring to releasing the flash, a failure releases it. */
  predicate Releases(s: State) {
    s.AcquiringFlash? || Owns(s)
  }

  predicate Owns(s: State) {
    || s.CheckingFlash? || s.EnablingErase? || s.Erasing? || s.WaitingForErase? || s.EnablingProgram?
    || s.Programming? || s.WaitingForProgram? || s.Verifying? || s.ReleasingFlash?
  }

  predicate InRun(s: State) {
    Releases(s) || s.WaitingForBoot?
  }

  // ---------------------------------------------------------------- the calls

  function Failed(w: World, fault: FaultKind): World {
    World(w.c.(fault := fault, state := Fault), if Releases(w.c.state) then Release(w.d) else w.d)
  }

  function Deadline(c: Controller, now: nat): nat {
    now + c.timeoutUs
  }

  predicate TimedOut(c: Controller, now: nat) {
    c.deadline != 0 && now >= c.deadline
  }

  function Min(a: nat, b: nat): nat {
    if a < b then a else b
  }

  /** `status_ = {}`. */
  function ClearStatus(c: Controller): Controller {
    c.(state := Unavailable, fault := NoFault, runtime := NO_RUNTIME, identity := 0, jedec := 0,
       programmed := 0, imageSize := 0, progress := 0)
  }

  function Initialize(w: World, now: nat, r: Reply): World {
    if !r.ok then Failed(w, Configuration)
    else World(ClearStatus(w.c).(state := Detecting, deadline := Deadline(w.c, now)), w.d)
  }

  predicate ImageAcceptable(image: seq<byte>, expected: seq<byte>) {
    0 < |image| <= FLASH_SIZE && Sha256.Hash(image) == expected
  }

  predicate StartAccepted(w: World, image: seq<byte>, expected: seq<byte>) {
    (w.c.state.Ready? || w.c.state.Complete?) && ImageAcceptable(image, expected)
  }

  function StartProgram(w: World, image: seq<byte>, expected: seq<byte>, now: nat): World {
    if !StartAccepted(w, image, expected) then w
    else World(
      w.c.(image := image, expected := expected, offset := 0, verifyOffset := 0, verifyStarted := false,
           checking := false, imageSize := |image|, programmed := 0, progress := 0, fault := NoFault,
           state := AcquiringFlash, deadline := Deadline(w.c, now)),
      w.d)
  }

  predicate EnsureAccepted(w: World, image: seq<byte>, expected: seq<byte>, r: Reply) {
    && ImageAcceptable(image, expected)
    && (w.c.state.Ready? || w.c.state.Complete? || w.c.state.Fault? || (w.c.state.Unavailable? && r.ok))
  }

  function EnsureProgram(w: World, image: seq<byte>, expected: seq<byte>, now: nat, r: Reply): World {
    if !ImageAcceptable(image, expected) then w
    else if w.c.state.Unavailable? && !r.ok then Failed(w, Configuration)
    else if !EnsureAccepted(w, image, expected, r) then w
    else World(
      ClearStatus(w.c).(image := image, expected := expected, offset := 0, verifyOffset := 0,
        verifyStarted := false, checking := true, imageSize := |image|, state := AcquiringFlash,
        deadline := Deadline(w.c, now)),
      w.d)
  }

  function Cancel(w: World): World {
    if !InRun(w.c.state) then w else Failed(World(w.c, Release(w.d)), Communication)
  }

  function Recover(w: World, now: nat): World {
    if !w.c.state.Fault? && !w.c.state.Unavailable? then w
    else World(w.c.(fault := NoFault, state := Detecting, deadline := Deadline(w.c, now)), Release(w.d))
  }

  // ---------------------------------------------------------------- tick

  function TickDetecting(w: World, now: nat, r: Reply): World {
    if !r.ok then Failed(w, Communication)
    else if r.word != EXPECTED_IDENTITY then Failed(World(w.c.(identity := r.word), w.d), Identity)
    else World(w.c.(identity := r.word, state := Ready, nextStatus := now), w.d)
  }

  function TickIdle(w: World, now: nat, r: Reply): World {
    if now < w.c.nextStatus then w
    else
      var next := now + w.c.intervalUs;
      if r.ok then World(w.c.(runtime := r.runtime, readFailures := 0, nextStatus := next), w.d)
      else
        var failures := (w.c.readFailures + 1) % 0x100;
        var w' := World(w.c.(readFailures := failures, nextStatus := next), w.d);
        if failures >= 3 then Failed(w', Communication) else w'
  }

  function TickAcquiring(w: World, r: Reply): World {
    if !r.ok || w.d.owned then Failed(w, Communication)
    else
      var w' := World(w.c.(jedec := r.word), Acquire(w.d, r));
      if r.word != EXPECTED_JEDEC then Failed(w', FlashIdentity)
      else World(w'.c.(state := if w.c.checking then CheckingFlash else EnablingErase), w'.d)
  }

  /** Reset the hash context on the first tick of a pass. */
  function Begun(c: Controller): Controller {
    if c.verifyStarted then c else c.(hashed := [], verifyStarted := true)
  }

  function TickChecking(w: World, now: nat, r: Reply): World {
    var c := Begun(w.c);
    if c.verifyOffset >= c.imageSize then
      var current := Sha256.Hash(c.hashed) == c.expected;
      var c := c.(verifyStarted := false, checking := false);
      if current then World(c.(state := ReleasingFlash), w.d)
      else World(c.(offset := 0, verifyOffset := 0, state := EnablingErase, deadline := Deadline(c, now)), w.d)
    else if !r.ok || c.verifyOffset + Chunk(c) > FLASH_SIZE then Failed(World(c, w.d), Readback)
    else World(Absorb(c, w.d, r), w.d)
  }

  /** The size of the next read. */
  function Chunk(c: Controller): nat
    requires c.verifyOffset <= c.imageSize
  {
    Min(PAGE_SIZE, c.imageSize - c.verifyOffset)
  }

  function Absorb(c: Controller, d: Flash, r: Reply): Controller
    requires c.verifyOffset <= c.imageSize && c.verifyOffset + Chunk(c) <= FLASH_SIZE
  {
    c.(hashed := c.hashed + ReadBack(d, c.verifyOffset, Chunk(c), r), verifyOffset := c.verifyOffset + Chunk(c))
  }

  function TickVerifying(w: World, now: nat, r: Reply): World {
    var c := Begun(w.c);
    if c.verifyOffset >= c.imageSize then
      if Sha256.Hash(c.hashed) != c.expected then Failed(World(c, w.d), Checksum)
      else World(c.(state := ReleasingFlash), w.d)
    else if !r.ok || c.verifyOffset + Chunk(c) > FLASH_SIZE then Failed(World(c, w.d), Readback)
    else World(Absorb(c, w.d, r).(deadline := Deadline(c, now)), w.d)
  }

  function TickWaitingForErase(w: World, now: nat, r: Reply): World {
    if !r.ok then Failed(w, Communication)
    else if r.busy then w
    else World(w.c.(state := EnablingProgram, deadline := Deadline(w.c, now)), Poll(w.d, r))
  }

  function TickEnablingProgram(w: World, now: nat, r: Reply): World {
    if w.c.offset >= w.c.imageSize then
      World(w.c.(verifyStarted := false, state := Verifying, deadline := Deadline(w.c, now)), w.d)
    else if !r.ok then Failed(World(w.c, WriteEnable(w.d, r)), Communication)
    else World(
      w.c.(pageSize := Min(PAGE_SIZE, w.c.imageSize - w.c.offset), state := Programming), WriteEnable(w.d, r))
  }

  function TickProgramming(w: World, r: Reply): World {
    var end := w.c.offset + w.c.pageSize;
    var data := if end <= |w.c.image| then w.c.image[w.c.offset..end] else [];
    var d := ProgramPage(w.d, w.c.offset, data, r);
    if !r.ok then Failed(World(w.c, d), Communication) else World(w.c.(state := WaitingForProgram), d)
  }

  function TickWaitingForProgram(w: World, now: nat, r: Reply): World {
    if !r.ok then Failed(w, Communication)
    else if r.busy then w
    else
      var offset := w.c.offset + w.c.pageSize;
      World(
        w.c.(offset := offset, programmed := offset,
             progress := if w.c.imageSize == 0 then 0 else Min(100, offset * 100 / w.c.imageSize),
             state := EnablingProgram, deadline := Deadline(w.c, now)),
        Poll(w.d, r))
  }

  function TickWaitingForBoot(w: World, now: nat, r: Reply): World {
    if r.ok && r.runtime.booted && r.runtime.panelTimingActive then
      World(w.c.(runtime := r.runtime, state := Complete, progress := 100, nextStatus := now + w.c.intervalUs), w.d)
    else w
  }

  function TickState(w: World, now: nat, r: Reply): World {
    match w.c.state
    case Unavailable => w
    case Fault => w
    case Detecting => TickDetecting(w, now, r)
    case Ready => TickIdle(w, now, r)
    case Complete => TickIdle(w, now, r)
    case AcquiringFlash => TickAcquiring(w, r)
    case CheckingFlash => TickChecking(w, now, r)
    case EnablingErase =>
      if !r.ok then Failed(World(w.c, WriteEnable(w.d, r)), Communication)
      else World(w.c.(state := Erasing), WriteEnable(w.d, r))
    case Erasing =>
      if !r.ok then Failed(World(w.c, ChipErase(w.d, r)), Communication)
      else World(w.c.(state := WaitingForErase), ChipErase(w.d, r))
    case WaitingForErase => TickWaitingForErase(w, now, r)
    case EnablingProgram => TickEnablingProgram(w, now, r)
    case Programming => TickProgramming(w, r)
    case WaitingForProgram => TickWaitingForProgram(w, now, r)
    case Verifying => TickVerifying(w, now, r)
    case ReleasingFlash =>
      if !r.ok then Failed(World(w.c, Release(w.d)), Communication)
      else World(w.c.(state := WaitingForBoot, deadline := Deadline(w.c, now)), Release(w.d))
    case WaitingForBoot => TickWaitingForBoot(w, now, r)
  }

  function Tick(w: World, now: nat, r: Reply): World {
    if !w.c.state.Ready? && !w.c.state.Complete? && !w.c.state.Fault? && TimedOut(w.c, now)
    then Failed(w, Timeout)
    else TickState(w, now, r)
  }

  // ---------------------------------------------------------------- runs

  datatype Event =
    | InitializeEvent(now: nat, r: Reply)
    | StartEvent(image: seq<byte>, expected: seq<byte>, now: nat)
    | EnsureEvent(image: seq<byte>, expected: seq<byte>, now: nat, r: Reply)
    | CancelEvent
    | RecoverEvent(now: nat)
    | TickEvent(now: nat, r: Reply)

  function Step(w: World, e: Event): World {
    match e
    case InitializeEvent(now, r) => Initialize(w, now, r)
    case StartEvent(image, expected, now) => StartProgram(w, image, expected, now)
    case EnsureEvent(image, expected, now, r) => EnsureProgram(w, image, expected, now, r)
    case CancelEvent => Cancel(w)
    case RecoverEvent(now) => Recover(w, now)
    case TickEvent(now, r) => Tick(w, now, r)
  }

  function Run(w: World, events: seq<Event>): World {
    if events == [] then w else Step(Run(w, events[..|events| - 1]), events[|events| - 1])
  }

  /** The hash context holds exactly the bytes read so far in this pass. */
  predicate PassInv(c: Controller) {
    && c.verifyOffset <= c.imageSize
    && (if c.verifyStarted then |c.hashed| == c.verifyOffset else c.verifyOffset == 0)
  }

  predicate StateInv(c: Controller) {
    match c.state
    case AcquiringFlash => c.offset == 0 && c.verifyOffset == 0 && !c.verifyStarted && c.programmed == 0
    case CheckingFlash => c.offset == 0 && PassInv(c) && c.programmed == 0
    case EnablingErase => c.offset == 0 && c.verifyOffset == 0
    case Erasing => c.offset == 0 && c.verifyOffset == 0
    case WaitingForErase => c.offset == 0 && c.verifyOffset == 0
    case EnablingProgram =>
      c.offset <= c.imageSize && (c.offset % PAGE_SIZE == 0 || c.offset == c.imageSize) && c.verifyOffset == 0
    case Programming => PageInv(c)
    case WaitingForProgram => PageInv(c)
    case Verifying => c.offset == c.imageSize && PassInv(c)
    case ReleasingFlash => |c.hashed| == c.imageSize && Sha256.Hash(c.hashed) == c.expected
    case _ => true
  }

  predicate PageInv(c: Controller) {
    && c.offset < c.imageSize && c.offset % PAGE_SIZE == 0 && c.verifyOffset == 0
    && c.pageSize == Min(PAGE_SIZE, c.imageSize - c.offset)
  }

  /** Holds in every reachable state, whatever the environment answers. */
  predicate Inv(w: World) {
    && w.c.timeoutUs >= 100000
    && (w.d.owned <==> Owns(w.c.state))
    && (InRun(w.c.state) ==>
        && ImageAcceptable(w.c.image, w.c.expected) && w.c.imageSize == |w.c.image| && w.c.deadline > 0)
    && StateInv(w.c)
  }

  /** `initialize` is called only before anything else. */
  predicate Allowed(w: World, e: Event) {
    e.InitializeEvent? ==> w.c.state.Unavailable?
  }

  /** A failure leaves the programmer in Fault with the flash released. */
  lemma FailedInv(w: World, fault: FaultKind)
    requires w.c.timeoutUs >= 100000 && (w.d.owned ==> Releases(w.c.state))
    ensures Inv(Failed(w, fault))
  {
  }

  lemma CheckingInv(w: World, now: nat, r: Reply)
    requires Inv(w) && w.c.state.CheckingFlash?
    ensures Inv(TickChecking(w, now, r))
  {
    hide Sha256.Hash, ReadBack;
    FailedInv(World(Begun(w.c), w.d), Readback);
  }

  lemma VerifyingInv(w: World, now: nat, r: Reply)
    requires Inv(w) && w.c.state.Verifying?
    ensures Inv(TickVerifying(w, now, r))
  {
    hide Sha256.Hash, ReadBack;
    FailedInv(World(Begun(w.c), w.d), Readback);
    FailedInv(World(Begun(w.c), w.d), Checksum);
  }

  lemma EnablingInv(w: World, now: nat, r: Reply)
    requires Inv(w) && w.c.state.EnablingProgram?
    ensures Inv(TickEnablingProgram(w, now, r))
  {
    hide Sha256.Hash;
  }

  lemma ProgrammingInv(w: World, now: nat, r: Reply)
    requires Inv(w)
    ensures w.c.state.Programming? ==> Inv(TickProgramming(w, r))
    ensures w.c.state.WaitingForProgram? ==> Inv(TickWaitingForProgram(w, now, r))
  {
    hide Sha256.Hash, Programmed;
  }

  lemma EraseInv(w: World, now: nat, r: Reply)
    requires Inv(w) && (w.c.state.EnablingErase? || w.c.state.Erasing? || w.c.state.WaitingForErase?)
    ensures Inv(TickState(w, now, r))
  {
    hide Sha256.Hash, Erased;
  }

  lemma MuxInv(w: World, now: nat, r: Reply)
    requires Inv(w) && (w.c.state.AcquiringFlash? || w.c.state.ReleasingFlash? || w.c.state.WaitingForBoot?)
    ensures Inv(TickState(w, now, r))
  {
    hide Sha256.Hash;
  }

  lemma IdleInv(w: World, now: nat, r: Reply)
    requires Inv(w) && !InRun(w.c.state)
    ensures Inv(TickState(w, now, r))
  {
    hide Sha256.Hash;
  }

  lemma TickKeepsInv(w: World, now: nat, r: Reply)
    requires Inv(w)
    ensures Inv(Tick(w, now, r))
  {
    OwnedReleases(w);
    hide Inv, TickChecking, TickVerifying, TickEnablingProgram, TickProgramming, TickWaitingForProgram;
    FailedInv(w, Timeout);
    if w.c.state.CheckingFlash? {
      CheckingInv(w, now, r);
    } else if w.c.state.Verifying? {
      VerifyingInv(w, now, r);
    } else if w.c.state.EnablingProgram? {
      EnablingInv(w, now, r);
    } else if w.c.state.Programming? || w.c.state.WaitingForProgram? {
      ProgrammingInv(w, now, r);
    } else {
      if !InRun(w.c.state) {
        IdleInv(w, now, r);
      } else if w.c.state.AcquiringFlash? || w.c.state.ReleasingFlash? || w.c.state.WaitingForBoot? {
        MuxInv(w, now, r);
      } else {
        EraseInv(w, now, r);
      }
      hide TickState;
    }
  }

  lemma OwnedReleases(w: World)
    requires Inv(w)
    ensures w.c.timeoutUs >= 100000 && (w.d.owned ==> Releases(w.c.state))
  {
  }

  lemma StepKeepsInv(w: World, e: Event)
    requires Inv(w) && Allowed(w, e)
    ensures Inv(Step(w, e))
  {
    hide Sha256.Hash, Tick;
    if e.TickEvent? {
      TickKeepsInv(w, e.now, e.r);
    }
  }

  ghost predicate AllAllowed(w: World, events: seq<Event>) {
    forall i :: 0 <= i < |events| ==> Allowed(Run(w, events[..i]), events[i])
  }

  lemma {:induction false} RunKeepsInv(w: World, events: seq<Event>)
    requires Inv(w) && AllAllowed(w, events)
    ensures Inv(Run(w, events))
    decreases |events|
  {
    hide Inv, Step, Allowed;
    if events != [] {
      var init := events[..|events| - 1];
      assert forall i :: 0 <= i < |init| ==> events[..i] == init[..i];
      RunKeepsInv(w, init);
      StepKeepsInv(Run(w, init), events[|events| - 1]);
    }
  }

  /** Ownership, spelled out: in every run the flash is owned exactly from CheckingFlash to
      ReleasingFlash, also after timeouts, faults and cancellation. */
  lemma OwnedExactly(w: World, events: seq<Event>)
    requires Inv(w) && AllAllowed(w, events)
    ensures Run(w, events).d.owned <==> Owns(Run(w, events).c.state)
  {
    RunKeepsInv(w, events);
  }

  /** `initialize` does not release the flash, so its precondition is exact. */
  lemma InitializeOwnership(w: World, now: nat, r: Reply)
    requires Inv(w) && r.ok
    ensures Inv(Initialize(w, now, r)) <==> !Owns(w.c.state)
  {
  }

  // ---------------------------------------------------------------- what a pass reads

  /** One tick of a reading pass: the read starts where the last one ended, is cut at the image end,
      and what the flash delivered is appended to what is hashed. */
  lemma ReadTick(w: World, now: nat, r: Reply)
    requires Inv(w) && (w.c.state.CheckingFlash? || w.c.state.Verifying?)
    requires !TimedOut(w.c, now) && r.ok && w.c.verifyOffset < w.c.imageSize
    ensures var c' := Tick(w, now, r).c;
      var before := if w.c.verifyStarted then w.c.hashed else [];
      && |before| == w.c.verifyOffset
      && c'.verifyOffset == Min(w.c.imageSize, w.c.verifyOffset + PAGE_SIZE) <= FLASH_SIZE
      && c'.hashed == before + ReadBack(w.d, w.c.verifyOffset, c'.verifyOffset - w.c.verifyOffset, r)
      && c'.state == w.c.state && c'.verifyStarted
  {
    hide Sha256.Hash, ReadBack;
  }

  /** The phases one tick may lead to, besides staying or failing. */
  predicate LeadsTo(s: State, t: State) {
    match s
    case Detecting => t.Ready?
    case AcquiringFlash => t.CheckingFlash? || t.EnablingErase?
    case CheckingFlash => t.ReleasingFlash? || t.EnablingErase?
    case EnablingErase => t.Erasing?
    case Erasing => t.WaitingForErase?
    case WaitingForErase => t.EnablingProgram?
    case EnablingProgram => t.Programming? || t.Verifying?
    case Programming => t.WaitingForProgram?
    case WaitingForProgram => t.EnablingProgram?
    case Verifying => t.ReleasingFlash?
    case ReleasingFlash => t.WaitingForBoot?
    case WaitingForBoot => t.Complete?
    case _ => false
  }

  lemma PhaseGraph(w: World, now: nat, r: Reply)
    ensures var s := Tick(w, now, r).c.state; s == w.c.state || s.Fault? || LeadsTo(w.c.state, s)
  {
    hide Sha256.Hash, ReadBack, Programmed, Erased, Release, Acquire, WriteEnable, ChipErase, ProgramPage, Poll;
  }

  /** The flash is handed back for booting only after a pass over the whole image whose bytes hash
      to the expected digest. */
  lemma ReleaseNeedsDigest(w: World, e: Event)
    requires Inv(w) && Allowed(w, e)
    requires Step(w, e).c.state.ReleasingFlash? && !w.c.state.ReleasingFlash?
    ensures var c := Step(w, e).c;
      && e.TickEvent? && (w.c.state.CheckingFlash? || w.c.state.Verifying?)
      && |c.hashed| == |c.image| && Sha256.Hash(c.hashed) == c.expected == Sha256.Hash(c.image)
  {
    StepKeepsInv(w, e);
    ReleasingInv(Step(w, e));
    OnlyTicksRelease(w, e);
    hide Sha256.Hash, Step, Inv;
    PhaseGraph(w, e.now, e.r);
  }

  lemma ReleasingInv(w: World)
    requires Inv(w) && w.c.state.ReleasingFlash?
    ensures |w.c.hashed| == |w.c.image| && Sha256.Hash(w.c.hashed) == w.c.expected == Sha256.Hash(w.c.image)
  {
    hide Sha256.Hash;
  }

  lemma OnlyTicksRelease(w: World, e: Event)
    requires Step(w, e).c.state.ReleasingFlash? && !w.c.state.ReleasingFlash?
    ensures e.TickEvent? && Step(w, e) == Tick(w, e.now, e.r)
  {
    hide Sha256.Hash, Tick, ImageAcceptable, Release;
  }

  // ---------------------------------------------------------------- flash contents

  /** From `from` on, the flash is erased. */
  predicate Blank(mem: Memory, from: nat) {
    forall i :: from <= i < FLASH_SIZE ==> mem[i] == 0xFF
  }

  predicate Written(image: seq<byte>, mem: Memory, end: nat) {
    end <= |image| <= FLASH_SIZE && mem[..end] == image[..end] && Blank(mem, end)
  }

  /** The pass has read exactly what the flash holds. */
  predicate ReadFaithfully(c: Controller, mem: Memory) {
    c.verifyOffset <= FLASH_SIZE && (c.verifyStarted ==> c.hashed == mem[..c.verifyOffset])
  }

  /** What the flash holds in each phase. */
  predicate Contents(w: World) {
    match w.c.state
    case CheckingFlash => !w.d.busy && ReadFaithfully(w.c, w.d.mem)
    case EnablingErase => !w.d.busy
    case Erasing => !w.d.busy && w.d.latch
    case WaitingForErase => Blank(w.d.mem, 0)
    case EnablingProgram => !w.d.busy && Written(w.c.image, w.d.mem, w.c.offset)
    case Programming => !w.d.busy && w.d.latch && Written(w.c.image, w.d.mem, w.c.offset)
    case WaitingForProgram => Written(w.c.image, w.d.mem, w.c.offset + w.c.pageSize)
    case Verifying => !w.d.busy && Written(w.c.image, w.d.mem, w.c.imageSize) && ReadFaithfully(w.c, w.d.mem)
    case ReleasingFlash =>
      && w.c.imageSize <= FLASH_SIZE && Sha256.Hash(w.d.mem[..w.c.imageSize]) == w.c.expected
      && (w.c.programmed > 0 ==> Written(w.c.image, w.d.mem, w.c.imageSize))
    case _ => true
  }

  predicate FlashInv(w: World) {
    Inv(w) && w.c.fault != Checksum && Contents(w)
  }

  /** Reads return what the flash holds, and only an idle chip answers the identity command: while it erases
      or programs it ignores every command but the status poll. */
  predicate Faithful(w: World, e: Event) {
    && Allowed(w, e)
    && (e.TickEvent? ==> e.r.faithful && (w.c.state.AcquiringFlash? ==> Identified(w.d, e.r)))
  }

  predicate Identified(d: Flash, r: Reply) {
    r.ok && r.word == EXPECTED_JEDEC ==> !Acquire(d, r).busy
  }

  lemma CheckingContents(w: World, now: nat, r: Reply)
    requires Contents(w) && w.c.state.CheckingFlash? && r.faithful
    requires PassInv(w.c) && w.c.imageSize <= FLASH_SIZE && w.c.programmed == 0
    ensures Contents(TickChecking(w, now, r))
  {
    hide Sha256.Hash, Written;
    var c := Begun(w.c);
    if c.verifyOffset < c.imageSize {
      var end := c.verifyOffset + Chunk(c);
      assert w.d.mem[..c.verifyOffset] + w.d.mem[c.verifyOffset..end] == w.d.mem[..end];
    }
  }

  lemma VerifyingContents(w: World, now: nat, r: Reply)
    requires Contents(w) && w.c.state.Verifying? && r.faithful
    requires PassInv(w.c) && w.c.imageSize <= FLASH_SIZE
    requires Sha256.Hash(w.d.mem[..w.c.imageSize]) == w.c.expected
    ensures Contents(TickVerifying(w, now, r))
    ensures w.c.fault != Checksum ==> TickVerifying(w, now, r).c.fault != Checksum
  {
    hide Sha256.Hash, Written;
    var c := Begun(w.c);
    if c.verifyOffset < c.imageSize {
      var end := c.verifyOffset + Chunk(c);
      assert w.d.mem[..c.verifyOffset] + w.d.mem[c.verifyOffset..end] == w.d.mem[..end];
    } else {
      assert c.hashed == w.d.mem[..c.imageSize];
    }
  }

  /** Once the image is written, the flash prefix is the image and so has its digest. */
  lemma VerifiedImage(w: World)
    requires Inv(w) && Contents(w) && w.c.state.Verifying?
    ensures w.c.imageSize <= FLASH_SIZE && w.d.mem[..w.c.imageSize] == w.c.image
    ensures Sha256.Hash(w.d.mem[..w.c.imageSize]) == w.c.expected
  {
    hide Sha256.Hash, Blank;
    assert w.c.image[..w.c.imageSize] == w.c.image;
  }

  lemma EraseContents(w: World, now: nat, r: Reply)
    requires Contents(w) && |w.c.image| <= FLASH_SIZE
    requires w.c.state.EnablingErase? || w.c.state.Erasing? || (w.c.state.WaitingForErase? && w.c.offset == 0)
    ensures Contents(TickState(w, now, r))
  {
    hide Sha256.Hash;
  }

  lemma ProgrammingContents(w: World, r: Reply)
    requires Contents(w) && w.c.state.Programming?
    requires PageInv(w.c) && w.c.imageSize == |w.c.image| <= FLASH_SIZE
    ensures Contents(TickProgramming(w, r))
  {
    hide Sha256.Hash, Programmed;
    var c := w.c;
    var end := c.offset + c.pageSize;
    ProgramErased(w.d.mem, c.offset, c.image[c.offset..end]);
    var m := Programmed(w.d.mem, c.offset, c.image[c.offset..end]);
    assert m[..end] == m[..c.offset] + m[c.offset..end];
    assert c.image[..end] == c.image[..c.offset] + c.image[c.offset..end];
  }

  lemma PageContents(w: World, now: nat, r: Reply)
    requires Contents(w) && w.c.verifyOffset == 0
    ensures w.c.state.EnablingProgram? && w.c.offset <= w.c.imageSize ==> Contents(TickEnablingProgram(w, now, r))
    ensures w.c.state.WaitingForProgram? ==> Contents(TickWaitingForProgram(w, now, r))
  {
    hide Sha256.Hash, Written;
  }

  lemma AcquiringContents(w: World, r: Reply)
    requires w.c.state.AcquiringFlash? && w.c.verifyOffset == 0 && !w.c.verifyStarted && Identified(w.d, r)
    ensures Contents(TickAcquiring(w, r))
  {
    hide Sha256.Hash, Written;
  }

  /** The contents matter only while the flash is owned. */
  lemma UnownedContents(w: World)
    requires !Owns(w.c.state)
    ensures Contents(w)
  {
  }

  /** Only verification can raise the Checksum fault. */
  lemma OnlyVerifyingChecksum(w: World, now: nat, r: Reply)
    requires w.c.fault != Checksum && (TimedOut(w.c, now) || !w.c.state.Verifying?)
    ensures Tick(w, now, r).c.fault != Checksum
  {
    hide Sha256.Hash, ReadBack, Programmed, Erased, Release, Acquire, WriteEnable, ChipErase, ProgramPage, Poll;
  }

  lemma TickKeepsContents(w: World, now: nat, r: Reply)
    requires FlashInv(w) && Faithful(w, TickEvent(now, r)) && !TimedOut(w.c, now) && Releases(w.c.state)
    requires !w.c.state.ReleasingFlash?
    ensures Contents(TickState(w, now, r))
    ensures TickState(w, now, r).c.fault != Checksum
  {
    var s := w.c.state;
    if s.Verifying? {
      VerifiedImage(w);
    } else {
      OnlyVerifyingChecksum(w, now, r);
    }
    hide Sha256.Hash, Contents, TickAcquiring, TickChecking, TickVerifying;
    hide TickEnablingProgram, TickWaitingForProgram, TickProgramming, TickWaitingForErase, Poll, WriteEnable, ChipErase;
    if s.AcquiringFlash? {
      AcquiringContents(w, r);
    } else if s.CheckingFlash? {
      CheckingContents(w, now, r);
    } else if s.Verifying? {
      VerifyingContents(w, now, r);
    } else if s.Programming? {
      ProgrammingContents(w, r);
    } else if s.EnablingProgram? || s.WaitingForProgram? {
      PageContents(w, now, r);
    } else {
      EraseContents(w, now, r);
    }
  }

  lemma CallKeepsChecksum(w: World, e: Event)
    requires w.c.fault != Checksum && !e.TickEvent?
    ensures Step(w, e).c.fault != Checksum && (Step(w, e) == w || !Owns(Step(w, e).c.state))
  {
    hide Sha256.Hash, ImageAcceptable;
  }

  /** With faithful reads, every step keeps the flash in the state the phase promises; in particular
      the Checksum fault is never raised, and the flash is released only when its contents hash to
      the expected digest and, if it was programmed, equal the image. */
  lemma StepKeepsFlash(w: World, e: Event)
    requires FlashInv(w) && Faithful(w, e)
    ensures FlashInv(Step(w, e))
  {
    StepKeepsInv(w, e);
    hide Sha256.Hash, Inv, Contents;
    var w' := Step(w, e);
    if !e.TickEvent? {
      CallKeepsChecksum(w, e);
      if !Owns(w'.c.state) {
        UnownedContents(w');
      }
    } else if TimedOut(w.c, e.now) || !Releases(w.c.state) || w.c.state.ReleasingFlash? {
      OnlyVerifyingChecksum(w, e.now, e.r);
      UnownedNext(w, e.now, e.r);
      if Owns(w'.c.state) {
        assert w' == w;
      } else {
        UnownedContents(w');
      }
    } else {
      hide TickState;
      TickKeepsContents(w, e.now, e.r);
    }
  }

  /** A timeout, and every tick outside the owned phases, ends outside them. */
  lemma UnownedNext(w: World, now: nat, r: Reply)
    requires TimedOut(w.c, now) || !Releases(w.c.state) || w.c.state.ReleasingFlash?
    ensures !Owns(Tick(w, now, r).c.state) || Tick(w, now, r) == w
  {
    hide Sha256.Hash, Release;
  }

  ghost predicate AllFaithful(w: World, events: seq<Event>) {
    forall i :: 0 <= i < |events| ==> Faithful(Run(w, events[..i]), events[i])
  }

  lemma {:induction false} RunKeepsFlash(w: World, events: seq<Event>)
    requires FlashInv(w) && AllFaithful(w, events)
    ensures FlashInv(Run(w, events))
    decreases |events|
  {
    hide FlashInv, Step, Faithful;
    if events != [] {
      var init := events[..|events| - 1];
      assert forall i :: 0 <= i < |init| ==> events[..i] == init[..i];
      RunKeepsFlash(w, init);
      StepKeepsFlash(Run(w, init), events[|events| - 1]);
    }
  }

  /** The flash prefix has the expected digest, and is the image if the run programmed it. */
  predicate HandedBack(w: World) {
    && w.c.imageSize == |w.c.image| <= FLASH_SIZE && Sha256.Hash(w.d.mem[..w.c.imageSize]) == w.c.expected
    && (w.c.programmed > 0 ==> w.d.mem[..w.c.imageSize] == w.c.image)
  }

  lemma ReleasingHandsBack(w: World)
    requires FlashInv(w) && w.c.state.ReleasingFlash?
    ensures HandedBack(w)
  {
    hide Sha256.Hash;
    assert w.c.imageSize == |w.c.image| ==> w.c.image[..w.c.imageSize] == w.c.image;
  }

  /** Whatever was programmed, aborted and started again before: when the flash is handed back it holds what
      the run was started for. */
  lemma ReleasedFlashIsImage(w: World, events: seq<Event>)
    requires FlashInv(w) && AllFaithful(w, events) && Run(w, events).c.state.ReleasingFlash?
    ensures HandedBack(Run(w, events))
  {
    hide Run, AllFaithful, FlashInv, HandedBack;
    RunKeepsFlash(w, events);
    ReleasingHandsBack(Run(w, events));
  }

  // ---------------------------------------------------------------- a chip left busy by an aborted run

  /** A run aborted in the middle of an erase or a program leaves the chip busy.  The identity check of the
      next run is what guards against it: the run goes on exactly if the chip is idle again and identifies
      itself, and otherwise faults and gives the flash back. */
  lemma BusyAcquisition(w: World, now: nat, r: Reply)
    requires Inv(w) && w.c.state.AcquiringFlash? && Faithful(w, TickEvent(now, r)) && !TimedOut(w.c, now)
    ensures var v := Tick(w, now, r);
      && (Owns(v.c.state) <==> r.ok && r.word == EXPECTED_JEDEC)
      && (Owns(v.c.state) ==> !v.d.busy)
      && (!Owns(v.c.state) ==> v.c.state.Fault? && !v.d.owned)
  {
    hide Sha256.Hash;
  }

  /** Every run can be aborted while the chip is busy and started again: cancelling leaves the chip as it is,
      a recovery, a detection and a start lead back to the acquisition, and a chip that has become idle is
      then acquired by a faithful tick. */
  lemma AbortedRunRetries(w: World, image: seq<byte>, expected: seq<byte>, now: nat, found: Reply, acquired: Reply)
    requires FlashInv(w) && (w.c.state.WaitingForErase? || w.c.state.WaitingForProgram?)
    requires ImageAcceptable(image, expected) && found.ok && found.word == EXPECTED_IDENTITY && found.faithful
    requires acquired.ok && acquired.word == EXPECTED_JEDEC && acquired.faithful && !acquired.busy
    ensures var events := [CancelEvent, RecoverEvent(now), TickEvent(now, found), StartEvent(image, expected, now),
                           TickEvent(now, acquired)];
      && var v0 := Step(w, events[0]);
      && var v1 := Step(v0, events[1]);
      && var v2 := Step(v1, events[2]);
      && var v3 := Step(v2, events[3]);
      && Faithful(w, events[0]) && Faithful(v0, events[1]) && Faithful(v1, events[2]) && Faithful(v2, events[3])
      && Faithful(v3, events[4])
      && v3.d.busy == w.d.busy && v3.c.state.AcquiringFlash? && Step(v3, events[4]).c.state.EnablingErase?
  {
    hide Sha256.Hash, ImageAcceptable, Contents;
    var v0 := Step(w, CancelEvent);
    assert v0.c.state.Fault? && v0.d == w.d.(owned := false);
    var v1 := Step(v0, RecoverEvent(now));
    assert v1.c.state.Detecting? && v1.d == v0.d && !TimedOut(v1.c, now);
    var v2 := Step(v1, TickEvent(now, found));
    assert v2.c.state.Ready? && v2.d == v0.d;
    var v3 := Step(v2, StartEvent(image, expected, now));
    assert v3.c.state.AcquiringFlash? && v3.d == v0.d && !v3.c.checking && !TimedOut(v3.c, now);
  }

  // ---------------------------------------------------------------- termination

  /** How far a run has to go, in steps that make progress. */
  function Phase(c: Controller): nat {
    var size := c.imageSize;
    var left := if c.offset <= size then size - c.offset else 0;
    var unread := if c.verifyOffset <= size then size - c.verifyOffset else 0;
    match c.state
    case WaitingForBoot => 0
    case ReleasingFlash => 1
    case Verifying => 2 + unread
    case EnablingProgram => size + 3 + 3 * left + 2
    case Programming => size + 3 + 3 * left + 1
    case WaitingForProgram => size + 3 + 3 * left
    case WaitingForErase => 4 * size + 6
    case Erasing => 4 * size + 7
    case EnablingErase => 4 * size + 8
    case CheckingFlash => 4 * size + 9 + unread
    case AcquiringFlash => 5 * size + 10
    case _ => 0
  }

  /** Ticks left at most, when every tick comes at least one microsecond after the last: progress
      first, then the time to the deadline. */
  function Budget(c: Controller, now: nat): nat {
    if !InRun(c.state) then 0
    else 1 + Phase(c) * (c.timeoutUs + 2) + (if c.deadline > now then c.deadline - now else 0)
  }

  /** The deadline is never further away than one timeout. */
  predicate DeadlineInv(c: Controller, now: nat) {
    InRun(c.state) ==> c.deadline <= now + c.timeoutUs
  }

  /** The run ends, or moves to a smaller phase with a deadline at most one timeout away, or phase and
      deadline stay. */
  predicate Progress(c: Controller, c': Controller, now: nat) {
    && c'.timeoutUs == c.timeoutUs
    && (|| !InRun(c'.state)
        || (Phase(c') < Phase(c) && (c'.deadline == c.deadline || c'.deadline == now + c.timeoutUs))
        || (Phase(c') == Phase(c) && c'.deadline == c.deadline))
  }

  lemma PassProgress(w: World, now: nat, r: Reply)
    requires PassInv(w.c) && w.c.imageSize <= FLASH_SIZE
    ensures w.c.state.CheckingFlash? ==> Progress(w.c, TickChecking(w, now, r).c, now)
    ensures w.c.state.Verifying? ==> Progress(w.c, TickVerifying(w, now, r).c, now)
  {
    hide Sha256.Hash, ReadBack;
  }

  lemma PageProgress(w: World, now: nat, r: Reply)
    requires w.c.verifyOffset == 0 && w.c.offset <= w.c.imageSize
    ensures w.c.state.EnablingProgram? ==> Progress(w.c, TickEnablingProgram(w, now, r).c, now)
    ensures w.c.state.Programming? ==> Progress(w.c, TickProgramming(w, r).c, now)
    ensures w.c.state.WaitingForProgram? && PageInv(w.c) ==> Progress(w.c, TickWaitingForProgram(w, now, r).c, now)
  {
    hide ProgramPage, WriteEnable;
  }

  lemma OtherProgress(w: World, now: nat, r: Reply)
    requires w.c.offset == 0 && w.c.verifyOffset == 0
    requires w.c.state.AcquiringFlash? || w.c.state.EnablingErase? || w.c.state.Erasing? || w.c.state.WaitingForErase?
    ensures Progress(w.c, TickState(w, now, r).c, now)
  {
    hide ChipErase, WriteEnable, Acquire, Release;
  }

  lemma TickProgress(w: World, now: nat, r: Reply)
    requires Inv(w) && InRun(w.c.state)
    ensures Progress(w.c, TickState(w, now, r).c, now)
  {
    hide Sha256.Hash, Progress;
    var s := w.c.state;
    if s.CheckingFlash? || s.Verifying? {
      hide TickChecking, TickVerifying;
      PassProgress(w, now, r);
    } else if s.EnablingProgram? || s.Programming? || s.WaitingForProgram? {
      hide TickEnablingProgram, TickProgramming, TickWaitingForProgram;
      PageProgress(w, now, r);
    } else if s.ReleasingFlash? || s.WaitingForBoot? {
      BootProgress(w, now, r);
    } else {
      hide TickState;
      OtherProgress(w, now, r);
    }
  }

  lemma BootProgress(w: World, now: nat, r: Reply)
    requires w.c.state.ReleasingFlash? || w.c.state.WaitingForBoot?
    ensures Progress(w.c, TickState(w, now, r).c, now)
  {
    hide Release;
  }

  lemma TickSpendsBudget(w: World, last: nat, now: nat, r: Reply)
    requires Inv(w) && InRun(w.c.state) && last < now && DeadlineInv(w.c, last)
    ensures var c' := Tick(w, now, r).c;
      Budget(c', now) < Budget(w.c, last) && DeadlineInv(c', now)
  {
    DeadlineSet(w);
    TickProgress(w, now, r);
    hide TickState, Phase, Inv, Progress, Budget, InRun, DeadlineInv, Failed;
    var c' := Tick(w, now, r).c;
    if TimedOut(w.c, now) {
      TimeoutEnds(w);
      BudgetPositive(w.c, last);
      OutsideRun(c', now);
    } else {
      SpendProgress(w.c, c', last, now);
    }
  }

  lemma TimeoutEnds(w: World)
    ensures !InRun(Failed(w, Timeout).c.state)
  {
  }

  lemma OutsideRun(c: Controller, now: nat)
    requires !InRun(c.state)
    ensures Budget(c, now) == 0 && DeadlineInv(c, now)
  {
  }

  lemma SpendProgress(c: Controller, c': Controller, last: nat, now: nat)
    requires InRun(c.state) && DeadlineInv(c, last) && Progress(c, c', now)
    requires last < now < c.deadline
    ensures Budget(c', now) < Budget(c, last) && DeadlineInv(c', now)
  {
    hide Phase, InRun;
    if InRun(c'.state) && Phase(c') < Phase(c) {
      MulStep(Phase(c'), Phase(c), c.timeoutUs + 2);
    }
  }

  lemma DeadlineSet(w: World)
    requires Inv(w) && InRun(w.c.state)
    ensures w.c.deadline > 0
  {
  }

  lemma MulStep(a: nat, b: nat, t: nat)
    requires a < b
    ensures a * t + t <= b * t
  {
    assert (a + 1) * t <= b * t;
  }

  /** A run of ticks at increasing times. */
  predicate Advancing(last: nat, ticks: seq<(nat, Reply)>)
    decreases |ticks|
  {
    ticks == [] || (last < ticks[0].0 && Advancing(ticks[0].0, ticks[1..]))
  }

  function Ticks(w: World, ticks: seq<(nat, Reply)>): World
    decreases |ticks|
  {
    if ticks == [] then w else Ticks(Tick(w, ticks[0].0, ticks[0].1), ticks[1..])
  }

  /** The ends of a run. */
  predicate Ended(s: State) {
    s.Complete? || s.Fault?
  }

  /** Starting a program, or a check, establishes what termination needs. */
  lemma StartSetsDeadline(w: World, e: Event)
    requires e.StartEvent? || e.EnsureEvent?
    ensures Step(w, e) != w && InRun(Step(w, e).c.state) ==> DeadlineInv(Step(w, e).c, e.now)
  {
    hide Sha256.Hash, ImageAcceptable;
  }

  /** A tick leads a run on, or to one of its ends. */
  lemma TickEnds(w: World, now: nat, r: Reply)
    requires InRun(w.c.state)
    ensures InRun(Tick(w, now, r).c.state) || Ended(Tick(w, now, r).c.state)
  {
    PhaseGraph(w, now, r);
    hide Tick;
  }

  /** However the hardware answers, a run has ended in Complete or Fault once as many ticks were made
      as the budget allows; the budget is bounded by the image size and the timeout. */
  lemma {:induction false} RunTerminates(w: World, last: nat, ticks: seq<(nat, Reply)>)
    requires Inv(w) && InRun(w.c.state) && DeadlineInv(w.c, last) && Advancing(last, ticks)
    requires |ticks| >= Budget(w.c, last)
    ensures exists n :: 0 < n <= |ticks| && Ended(Ticks(w, ticks[..n]).c.state)
    decreases |ticks|
  {
    hide Inv, Tick, Budget, InRun, DeadlineInv, Ended;
    BudgetPositive(w.c, last);
    var (now, r) := ticks[0];
    TickEnds(w, now, r);
    var w' := Tick(w, now, r);
    TickSpendsBudget(w, last, now, r);
    TickKeepsInv(w, now, r);
    assert Ticks(w, ticks[..1]) == Ticks(w', ticks[..1][1..]);
    if InRun(w'.c.state) {
      var rest := ticks[1..];
      RunTerminates(w', now, rest);
      var n :| 0 < n <= |rest| && Ended(Ticks(w', rest[..n]).c.state);
      assert ticks[..n + 1][1..] == rest[..n] && ticks[..n + 1][0] == ticks[0];
      assert Ticks(w, ticks[..n + 1]) == Ticks(w', rest[..n]);
    }
  }

  lemma BudgetPositive(c: Controller, now: nat)
    requires InRun(c.state)
    ensures Budget(c, now) > 0
  {
    hide Phase;
  }

  lemma BudgetBound(c: Controller, now: nat)
    requires DeadlineInv(c, now) && InRun(c.state)
    ensures Budget(c, now) <= (5 * c.imageSize + 11) * (c.timeoutUs + 2)
  {
    assert Phase(c) <= 5 * c.imageSize + 10;
    var t, p := c.timeoutUs + 2, 5 * c.imageSize + 10;
    hide Phase;
    if Phase(c) < p {
      MulStep(Phase(c), p, t);
    }
    assert (p + 1) * t == p * t + t;
  }
}
