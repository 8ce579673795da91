/** The programmer as the object it is: fields updated in place by one bounded hardware operation per
    tick, tied to the step function of `Amt630a`. */
module Amt630aController {
  import opened Bits
  import opened NorFlash
  import opened Amt630a
  import Sha256

  /** The bus: the chip behind it, and the environment's answer to the next call. */
  class Hardware {
    var d: Flash
    var reply: Reply

    constructor (flash: Flash, first: Reply)
      ensures d == flash && reply == first
    {
      d := flash;
      reply := first;
    }

    method Initialize() returns (ok: bool)
      ensures ok == reply.ok
    {
      ok := reply.ok;
    }

    method ReadIdentity() returns (ok: bool, identity: nat)
      ensures ok == reply.ok && identity == reply.word
    {
      ok, identity := reply.ok, reply.word;
    }

    method AcquireFlash() returns (ok: bool, jedec: nat)
      modifies this`d
      ensures d == Acquire(old(d), reply) && ok == (reply.ok && !old(d).owned) && jedec == reply.word
    {
      ok, jedec := reply.ok && !d.owned, reply.word;
      d := Acquire(d, reply);
    }

    method FlashWriteEnable() returns (ok: bool)
      modifies this`d
      ensures d == WriteEnable(old(d), reply) && ok == reply.ok
    {
      ok := reply.ok;
      d := WriteEnable(d, reply);
    }

    method FlashChipErase() returns (ok: bool)
      modifies this`d
      ensures d == ChipErase(old(d), reply) && ok == reply.ok
    {
      ok := reply.ok;
      d := ChipErase(d, reply);
    }

    method FlashBusy() returns (ok: bool, busy: bool)
      modifies this`d
      ensures d == Poll(old(d), reply) && ok == reply.ok && busy == reply.busy
    {
      ok, busy := reply.ok, reply.busy;
      d := Poll(d, reply);
    }

    method FlashProgramPage(address: nat, data: seq<byte>) returns (ok: bool)
      modifies this`d
      ensures d == ProgramPage(old(d), address, data, reply) && ok == reply.ok
    {
      ok := reply.ok;
      d := ProgramPage(d, address, data, reply);
    }

    /** The board refuses a read past the end of the chip. */
    method FlashRead(address: nat, size: nat) returns (ok: bool, data: seq<byte>)
      ensures ok == (reply.ok && address + size <= FLASH_SIZE)
      ensures ok ==> data == ReadBack(d, address, size, reply)
    {
      ok := reply.ok && address + size <= FLASH_SIZE;
      data := if ok then ReadBack(d, address, size, reply) else [];
    }

    method ReleaseFlashAndReset() returns (ok: bool)
      modifies this`d
      ensures d == Release(old(d)) && ok == reply.ok
    {
      ok := reply.ok;
      d := Release(d);
    }

    method ReadRuntimeStatus() returns (ok: bool, runtime: Runtime)
      ensures ok == reply.ok && runtime == reply.runtime
    {
      ok, runtime := reply.ok, reply.runtime;
    }
  }

  lemma InitializeKeepsInv(w: World, now: nat, r: Reply)
    requires Inv(w) && w.c.state.Unavailable?
    ensures Inv(Initialize(w, now, r))
  {
    hide Inv;
    StepKeepsInv(w, InitializeEvent(now, r));
  }

  lemma StartKeepsInv(w: World, image: seq<byte>, expected: seq<byte>, now: nat)
    requires Inv(w)
    ensures Inv(StartProgram(w, image, expected, now))
  {
    hide Inv, ImageAcceptable;
    StepKeepsInv(w, StartEvent(image, expected, now));
  }

  lemma EnsureKeepsInv(w: World, image: seq<byte>, expected: seq<byte>, now: nat, r: Reply)
    requires Inv(w)
    ensures Inv(EnsureProgram(w, image, expected, now, r))
  {
    hide Inv, ImageAcceptable;
    StepKeepsInv(w, EnsureEvent(image, expected, now, r));
  }

  /** An image is usable if it fits and has the digest it is supposed to have. */
  method ImageMatches(image: seq<byte>, expected: seq<byte>) returns (matches: bool)
    ensures matches == ImageAcceptable(image, expected)
  {
    hide Sha256.Hash;
    if |image| == 0 || |image| > FLASH_SIZE {
      return false;
    }
    var digest := Sha256.HashOf(image);
    matches := digest == expected;
  }

  /** `status_`. */
  datatype Status = Status(
    state: State, fault: FaultKind, runtime: Runtime, identity: nat, jedec: nat,
    programmed: nat, imageSize: nat, progress: nat)

  const CLEAR_STATUS := Status(Unavailable, NoFault, NO_RUNTIME, 0, 0, 0, 0, 0)

  class Programmer {
    const hw: Hardware
    const timeoutUs: nat
    const intervalUs: nat
    var status: Status
    var image: seq<byte>
    var expected: seq<byte>
    var offset: nat
    var verifyOffset: nat
    var pageSize: nat
    var deadline: nat
    var nextStatus: nat
    var verifyStarted: bool
    var checking: bool
    var readFailures: nat
    var sha: Sha256.Context
    ghost var hashed: seq<byte>

    ghost function View(): Controller
      reads this
    {
      Controller(status.state, status.fault, status.runtime, status.identity, status.jedec,
                 status.programmed, status.imageSize, status.progress,
                 image, expected, offset, verifyOffset, pageSize, deadline, nextStatus,
                 verifyStarted, checking, readFailures, hashed, timeoutUs, intervalUs)
    }

    ghost function Now(): World
      reads this, hw
    {
      World(View(), hw.d)
    }

    /** The hash context holds what the pass has read. */
    ghost predicate Valid()
      reads this, hw, sha, sha.buffer
    {
      && Inv(Now())
      && ((status.state.CheckingFlash? || status.state.Verifying?) && verifyStarted ==> sha.Absorbed(hashed))
    }

    constructor (hardware: Hardware, operationTimeoutMs: nat, statusIntervalMs: nat)
      requires !hardware.d.owned
      ensures Valid() && hw == hardware && status.state.Unavailable?
      ensures timeoutUs == 1000 * (if operationTimeoutMs < 100 then 100 else operationTimeoutMs)
      ensures intervalUs == 1000 * (if statusIntervalMs < 20 then 20 else statusIntervalMs)
      ensures fresh(sha) && fresh(sha.buffer)
    {
      hide Sha256.Hash, ImageAcceptable, Sha256.Context.Absorbed;
      hw := hardware;
      timeoutUs := 1000 * (if operationTimeoutMs < 100 then 100 else operationTimeoutMs);
      intervalUs := 1000 * (if statusIntervalMs < 20 then 20 else statusIntervalMs);
      status := CLEAR_STATUS;
      image, expected := [], [];
      offset, verifyOffset, pageSize, deadline, nextStatus, readFailures := 0, 0, 0, 0, 0, 0;
      verifyStarted, checking := false, false;
      hashed := [];
      sha := new Sha256.Context();
    }

    method Fail(kind: FaultKind)
      modifies this`status, hw`d
      ensures Now() == Failed(old(Now()), kind)
    {
      if Releases(status.state) {
        var _ := hw.ReleaseFlashAndReset();
      }
      status := status.(fault := kind, state := Fault);
    }

    method SetDeadline(now: nat)
      modifies this`deadline
      ensures deadline == now + timeoutUs
    {
      deadline := now + timeoutUs;
    }

    method InitializeNow(now: nat) returns (ok: bool)
      requires Valid() && status.state.Unavailable?
      modifies this, hw`d
      ensures ok == hw.reply.ok
      ensures Now() == Initialize(old(Now()), now, hw.reply) && Valid()
    {
      hide Inv, Sha256.Context.Absorbed, Step;
      InitializeKeepsInv(Now(), now, hw.reply);
      ok := hw.Initialize();
      if !ok {
        Fail(Configuration);
      } else {
        status := CLEAR_STATUS.(state := Detecting);
        SetDeadline(now);
      }
    }

    method Start(newImage: seq<byte>, newExpected: seq<byte>, now: nat) returns (accepted: bool)
      requires Valid()
      modifies this
      ensures accepted == StartAccepted(old(Now()), newImage, newExpected)
      ensures Now() == StartProgram(old(Now()), newImage, newExpected, now) && Valid()
    {
      hide Inv, ImageAcceptable, Sha256.Context.Absorbed, Step;
      StartKeepsInv(Now(), newImage, newExpected, now);
      accepted := status.state.Ready? || status.state.Complete?;
      if accepted {
        accepted := ImageMatches(newImage, newExpected);
      }
      if accepted {
        LoadImage(newImage, newExpected, false);
        status := status.(imageSize := |newImage|, programmed := 0, progress := 0, fault := NoFault,
                          state := AcquiringFlash);
        SetDeadline(now);
      }
    }

    method LoadImage(newImage: seq<byte>, newExpected: seq<byte>, check: bool)
      modifies this`image, this`expected, this`offset, this`verifyOffset, this`verifyStarted, this`checking
      ensures View() == old(View()).(image := newImage, expected := newExpected, offset := 0, verifyOffset := 0,
                                     verifyStarted := false, checking := check)
    {
      image, expected := newImage, newExpected;
      offset, verifyOffset := 0, 0;
      verifyStarted, checking := false, check;
    }

    method Ensure(newImage: seq<byte>, newExpected: seq<byte>, now: nat) returns (accepted: bool)
      requires Valid()
      modifies this, hw`d
      ensures accepted == EnsureAccepted(old(Now()), newImage, newExpected, hw.reply)
      ensures Now() == EnsureProgram(old(Now()), newImage, newExpected, now, hw.reply) && Valid()
    {
      hide Inv, ImageAcceptable, Sha256.Context.Absorbed, Step;
      EnsureKeepsInv(Now(), newImage, newExpected, now, hw.reply);
      var matches := ImageMatches(newImage, newExpected);
      if !matches {
        return false;
      }
      if status.state.Unavailable? {
        var ok := hw.Initialize();
        if !ok {
          Fail(Configuration);
          return false;
        }
      } else if !status.state.Ready? && !status.state.Complete? && !status.state.Fault? {
        return false;
      }
      LoadImage(newImage, newExpected, true);
      status := CLEAR_STATUS.(imageSize := |newImage|, state := AcquiringFlash);
      SetDeadline(now);
      accepted := true;
    }

    method RecoverNow(now: nat) returns (accepted: bool)
      requires Valid()
      modifies this, hw`d
      ensures accepted == (old(status.state).Fault? || old(status.state).Unavailable?)
      ensures Now() == Recover(old(Now()), now) && Valid()
    {
      StepKeepsInv(Now(), RecoverEvent(now));
      hide Inv;
      if !status.state.Fault? && !status.state.Unavailable? {
        return false;
      }
      var _ := hw.ReleaseFlashAndReset();
      status := status.(fault := NoFault, state := Detecting);
      SetDeadline(now);
      accepted := true;
    }

    method CancelProgram() returns (cancelled: bool)
      requires Valid()
      modifies this, hw`d
      ensures cancelled == InRun(old(status.state))
      ensures Now() == Cancel(old(Now())) && Valid()
    {
      StepKeepsInv(Now(), CancelEvent);
      hide Inv;
      if !InRun(status.state) {
        return false;
      }
      var _ := hw.ReleaseFlashAndReset();
      Fail(Communication);
      cancelled := true;
    }

    /** Reset the hash context on the first tick of a pass. */
    method BeginPass()
      modifies this`sha, this`hashed, this`verifyStarted
      ensures View() == Begun(old(View()))
      ensures old(verifyStarted) ==> sha == old(sha)
      ensures !old(verifyStarted) ==> fresh(sha) && fresh(sha.buffer) && sha.Absorbed([])
    {
      hide Sha256.Context.Absorbed;
      if !verifyStarted {
        sha := new Sha256.Context();
        hashed := [];
        verifyStarted := true;
      }
    }

    /** Read the next chunk into the hash; false on a read error. */
    method ReadChunk() returns (ok: bool)
      requires verifyOffset < status.imageSize && sha.Absorbed(hashed)
      modifies this`verifyOffset, this`hashed, sha, sha.buffer
      ensures ok == (hw.reply.ok && old(verifyOffset + Chunk(View())) <= FLASH_SIZE)
      ensures ok ==> View() == Absorb(old(View()), hw.d, hw.reply) && sha.Absorbed(hashed)
      ensures !ok ==> View() == old(View()) && sha.Absorbed(hashed)
    {
      hide Sha256.Context.Absorbed, ReadBack;
      var count := Min(PAGE_SIZE, status.imageSize - verifyOffset);
      var data;
      ok, data := hw.FlashRead(verifyOffset, count);
      if ok {
        sha.Update(data, hashed);
        hashed := hashed + data;
        verifyOffset := verifyOffset + count;
      }
    }

    /** Finish the hash and compare it. */
    method DigestMatches() returns (current: bool)
      requires sha.Absorbed(hashed)
      modifies sha, sha.buffer
      ensures current == (Sha256.Hash(hashed) == expected) && View() == old(View())
    {
      hide Sha256.Hash, Sha256.Context.Absorbed;
      var digest := sha.Finish(hashed);
      current := digest == expected;
    }

    method CheckTick(now: nat)
      requires status.state.CheckingFlash? && PassInv(View()) && (verifyStarted ==> sha.Absorbed(hashed))
      modifies this, hw`d, sha, sha.buffer
      ensures Now() == TickChecking(old(Now()), now, hw.reply)
      ensures status.state.CheckingFlash? ==> sha.Absorbed(hashed)
    {
      hide Sha256.Hash, ReadBack, Sha256.Context.Absorbed;
      BeginPass();
      if verifyOffset >= status.imageSize {
        var current := DigestMatches();
        verifyStarted, checking := false, false;
        if current {
          status := status.(state := ReleasingFlash);
        } else {
          BeginErase(now);
        }
      } else {
        var ok := ReadChunk();
        if !ok {
          Fail(Readback);
        }
      }
    }

    /** The installed image is not the one wanted: erase and program. */
    method BeginErase(now: nat)
      modifies this`offset, this`verifyOffset, this`status, this`deadline
      ensures View() == old(View()).(offset := 0, verifyOffset := 0, state := EnablingErase,
                                     deadline := Deadline(old(View()), now))
    {
      offset, verifyOffset := 0, 0;
      status := status.(state := EnablingErase);
      SetDeadline(now);
    }

    method VerifyTick(now: nat)
      requires status.state.Verifying? && PassInv(View()) && (verifyStarted ==> sha.Absorbed(hashed))
      modifies this, hw`d, sha, sha.buffer
      ensures Now() == TickVerifying(old(Now()), now, hw.reply)
      ensures status.state.Verifying? ==> sha.Absorbed(hashed)
    {
      hide Sha256.Hash, ReadBack, Sha256.Context.Absorbed;
      BeginPass();
      if verifyOffset >= status.imageSize {
        var current := DigestMatches();
        if !current {
          Fail(Checksum);
        } else {
          status := status.(state := ReleasingFlash);
        }
      } else {
        var ok := ReadChunk();
        if !ok {
          Fail(Readback);
        } else {
          SetDeadline(now);
        }
      }
    }

    method IdleTick(now: nat)
      requires status.state.Ready? || status.state.Complete?
      modifies this, hw`d
      ensures Now() == TickIdle(old(Now()), now, hw.reply)
    {
      if now >= nextStatus {
        var ok, latest := hw.ReadRuntimeStatus();
        if ok {
          status := status.(runtime := latest);
          readFailures := 0;
        } else {
          readFailures := (readFailures + 1) % 0x100;
          if readFailures >= 3 {
            Fail(Communication);
          }
        }
        nextStatus := now + intervalUs;
      }
    }

    method EraseTick(now: nat)
      requires status.state.EnablingErase? || status.state.Erasing? || status.state.WaitingForErase?
      modifies this, hw`d
      ensures Now() == TickState(old(Now()), now, hw.reply)
    {
      hide ChipErase, WriteEnable;
      if status.state.EnablingErase? {
        var ok := hw.FlashWriteEnable();
        if !ok { Fail(Communication); } else { status := status.(state := Erasing); }
      } else if status.state.Erasing? {
        var ok := hw.FlashChipErase();
        if !ok { Fail(Communication); } else { status := status.(state := WaitingForErase); }
      } else {
        var ok, busy := hw.FlashBusy();
        if !ok {
          Fail(Communication);
        } else if !busy {
          status := status.(state := EnablingProgram);
          SetDeadline(now);
        }
      }
    }

    method ProgramTick(now: nat)
      requires status.state.EnablingProgram? || status.state.Programming? || status.state.WaitingForProgram?
      requires status.state.Programming? ==> offset + pageSize <= |image|
      modifies this, hw`d
      ensures Now() == TickState(old(Now()), now, hw.reply)
    {
      hide ProgramPage, WriteEnable;
      if status.state.EnablingProgram? {
        if offset >= status.imageSize {
          verifyStarted := false;
          status := status.(state := Verifying);
          SetDeadline(now);
        } else {
          var ok := hw.FlashWriteEnable();
          if !ok {
            Fail(Communication);
          } else {
            pageSize := Min(PAGE_SIZE, status.imageSize - offset);
            status := status.(state := Programming);
          }
        }
      } else if status.state.Programming? {
        var ok := hw.FlashProgramPage(offset, image[offset..offset + pageSize]);
        if !ok { Fail(Communication); } else { status := status.(state := WaitingForProgram); }
      } else {
        ProgramWaitTick(now);
      }
    }

    method ProgramWaitTick(now: nat)
      requires status.state.WaitingForProgram?
      modifies this, hw`d
      ensures Now() == TickState(old(Now()), now, hw.reply)
    {
      var ok, busy := hw.FlashBusy();
      if !ok {
        Fail(Communication);
      } else if !busy {
        offset := offset + pageSize;
        status := status.(
          programmed := offset,
          progress := if status.imageSize == 0 then 0 else Min(100, offset * 100 / status.imageSize),
          state := EnablingProgram);
        SetDeadline(now);
      }
    }

    method BusTick(now: nat)
      requires
        || status.state.Detecting? || status.state.AcquiringFlash? || status.state.ReleasingFlash?
        || status.state.WaitingForBoot?
      modifies this, hw`d
      ensures Now() == TickState(old(Now()), now, hw.reply)
    {
      if status.state.Detecting? {
        var ok, id := hw.ReadIdentity();
        if !ok {
          Fail(Communication);
        } else if id != EXPECTED_IDENTITY {
          status := status.(identity := id);
          Fail(Identity);
        } else {
          status := status.(identity := id, state := Ready);
          nextStatus := now;
        }
      } else if status.state.AcquiringFlash? {
        var ok, id := hw.AcquireFlash();
        if !ok {
          Fail(Communication);
        } else if id != EXPECTED_JEDEC {
          status := status.(jedec := id);
          Fail(FlashIdentity);
        } else {
          status := status.(jedec := id, state := if checking then CheckingFlash else EnablingErase);
        }
      } else if status.state.ReleasingFlash? {
        var ok := hw.ReleaseFlashAndReset();
        if !ok {
          Fail(Communication);
        } else {
          status := status.(state := WaitingForBoot);
          SetDeadline(now);
        }
      } else {
        var ok, latest := hw.ReadRuntimeStatus();
        if ok && latest.booted && latest.panelTimingActive {
          status := status.(runtime := latest, state := Complete, progress := 100);
          nextStatus := now + intervalUs;
        }
      }
    }

    /** One tick does exactly what the step function says. */
    method TickNow(now: nat)
      requires Valid()
      modifies this, hw`d, sha, sha.buffer
      ensures Now() == Tick(old(Now()), now, hw.reply) && Valid()
    {
      TickKeepsInv(Now(), now, hw.reply);
      hide Inv, Sha256.Hash, Sha256.Context.Absorbed, ReadBack, Failed;
      hide TickIdle, TickChecking, TickVerifying, TickDetecting, TickAcquiring, TickWaitingForErase;
      hide TickEnablingProgram, TickProgramming, TickWaitingForProgram, TickWaitingForBoot;
      PassStates(Now(), now, hw.reply);
      if !status.state.Ready? && !status.state.Complete? && !status.state.Fault? && deadline != 0 && now >= deadline {
        Fail(Timeout);
      } else if status.state.Ready? || status.state.Complete? {
        IdleTick(now);
      } else if status.state.CheckingFlash? {
        CheckTick(now);
      } else if status.state.Verifying? {
        VerifyTick(now);
      } else if status.state.EnablingErase? || status.state.Erasing? || status.state.WaitingForErase? {
        EraseTick(now);
      } else if status.state.EnablingProgram? || status.state.Programming? || status.state.WaitingForProgram? {
        ProgramTick(now);
      } else if !status.state.Unavailable? && !status.state.Fault? {
        BusTick(now);
      }
    }
  }

  /** A pass is entered only afresh, and only its own ticks keep it going. */
  lemma PassStates(w: World, now: nat, r: Reply)
    requires Inv(w)
    ensures w.c.state.CheckingFlash? || w.c.state.Verifying? ==> PassInv(w.c)
    ensures w.c.state.Programming? ==> w.c.offset + w.c.pageSize <= |w.c.image|
    ensures var c' := Tick(w, now, r).c;
      (c'.state.CheckingFlash? || c'.state.Verifying?) && c'.state != w.c.state ==> !c'.verifyStarted
  {
    hide Sha256.Hash, ReadBack, Programmed, Erased, Release, Acquire, WriteEnable, ChipErase, ProgramPage, Poll;
    hide ImageAcceptable;
  }
}
