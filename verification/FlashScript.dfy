/** The commands a programming run sends to the flash, whatever the flash answers: an optional pass of
    reads, erase, pages that tile the image, each with its own write-enable, and a pass of reads. */
module FlashScript {
  import opened Bits
  import opened NorFlash
  import opened Amt630a
  import Sha256

  datatype Command = Enable | Erase | Program(address: nat, data: seq<byte>) | Read(address: nat, size: nat)

  // ---------------------------------------------------------------- what a tick sends

  /** The command of the next tick. */
  function Issued(w: World, now: nat): seq<Command> {
    if TimedOut(w.c, now) then []
    else
      match w.c.state
      case CheckingFlash => NextRead(w.c)
      case Verifying => NextRead(w.c)
      case EnablingErase => [Enable]
      case Erasing => [Erase]
      case EnablingProgram => if w.c.offset < w.c.imageSize then [Enable] else []
      case Programming =>
        var end := w.c.offset + w.c.pageSize;
        [Program(w.c.offset, if end <= |w.c.image| then w.c.image[w.c.offset..end] else [])]
      case _ => []
  }

  function NextRead(c: Controller): seq<Command> {
    if c.verifyOffset < c.imageSize && c.verifyOffset + Chunk(c) <= FLASH_SIZE then
      [Read(c.verifyOffset, Chunk(c))]
    else []
  }

  /** What a command does to the memory. */
  function Performed(d: Flash, commands: seq<Command>, r: Reply): Memory {
    if commands == [Erase] then ChipErase(d, r).mem
    else if |commands| == 1 && commands[0].Program? then ProgramPage(d, commands[0].address, commands[0].data, r).mem
    else d.mem
  }

  lemma QuietMemory(w: World, now: nat, r: Reply)
    requires !w.c.state.Erasing? && !w.c.state.Programming?
    ensures Tick(w, now, r).d.mem == w.d.mem
  {
    hide TickState;
    if w.c.state.CheckingFlash? || w.c.state.Verifying? || w.c.state.AcquiringFlash? {
      PassMemory(w, now, r);
    } else {
      WaitMemory(w, now, r);
    }
  }

  lemma PassMemory(w: World, now: nat, r: Reply)
    requires w.c.state.CheckingFlash? || w.c.state.Verifying? || w.c.state.AcquiringFlash?
    ensures TickState(w, now, r).d.mem == w.d.mem
  {
    hide Sha256.Hash, ReadBack, Absorb, Chunk;
    hide TickDetecting, TickIdle, TickWaitingForErase, TickEnablingProgram, TickProgramming, TickWaitingForProgram;
    hide TickWaitingForBoot, ChipErase, WriteEnable;
  }

  lemma WaitMemory(w: World, now: nat, r: Reply)
    requires !w.c.state.CheckingFlash? && !w.c.state.Verifying? && !w.c.state.AcquiringFlash?
    requires !w.c.state.Erasing? && !w.c.state.Programming?
    ensures TickState(w, now, r).d.mem == w.d.mem
  {
    hide TickChecking, TickVerifying, TickAcquiring, TickProgramming, ChipErase;
  }

  lemma TickMemory(w: World, now: nat, r: Reply)
    ensures Tick(w, now, r).d.mem == Performed(w.d, Issued(w, now), r)
  {
    if !w.c.state.Erasing? && !w.c.state.Programming? {
      QuietMemory(w, now, r);
      hide Tick;
    }
    hide Sha256.Hash, Programmed, Erased, ReadBack, Absorb, Chunk;
  }

  lemma CallMemory(w: World, e: Event)
    requires !e.TickEvent?
    ensures Step(w, e).d.mem == w.d.mem
  {
    hide Sha256.Hash, ImageAcceptable;
  }

  /** The commands a call sends. */
  function Sends(w: World, e: Event): seq<Command> {
    if e.TickEvent? then Issued(w, e.now) else []
  }

  /** The memory changes by the commands sent and in no other way. */
  lemma MemoryFollows(w: World, e: Event)
    ensures Step(w, e).d.mem == if e.TickEvent? then Performed(w.d, Sends(w, e), e.r) else w.d.mem
  {
    if e.TickEvent? {
      TickMemory(w, e.now, e.r);
      hide Tick, Performed;
    } else {
      CallMemory(w, e);
      hide Step;
    }
  }

  /** The calls of a run send neither an erase nor a program command. */
  predicate OnlyReads(w: World, events: seq<Event>)
    decreases |events|
  {
    events != [] ==>
      var before, e := events[..|events| - 1], events[|events| - 1];
      OnlyReads(w, before) && forall c :: c in Sends(Run(w, before), e) ==> !c.Erase? && !c.Program?
  }

  /** Nothing else can wear out or damage the flash: such a run leaves its memory as it was. */
  lemma {:induction false} MemoryKept(w: World, events: seq<Event>)
    requires OnlyReads(w, events)
    ensures Run(w, events).d.mem == w.d.mem
    decreases |events|
  {
    hide Step, Sends;
    if events != [] {
      var before, e := events[..|events| - 1], events[|events| - 1];
      MemoryKept(w, before);
      MemoryFollows(Run(w, before), e);
      if e.TickEvent? {
        PerformsNothing(Run(w, before).d, Sends(Run(w, before), e), e.r);
      }
      hide Performed;
    }
  }

  lemma PerformsNothing(d: Flash, commands: seq<Command>, r: Reply)
    requires forall c :: c in commands ==> !c.Erase? && !c.Program?
    ensures Performed(d, commands, r) == d.mem
  {
    if |commands| == 1 {
      assert commands[0] in commands;
    }
  }

  /** The commands since the flash was last acquired. */
  function Log(w: World, events: seq<Event>): seq<Command>
    decreases |events|
  {
    if events == [] then []
    else
      var before, e := events[..|events| - 1], events[|events| - 1];
      var at := Run(w, before);
      if !e.TickEvent? then Log(w, before)
      else if at.c.state.AcquiringFlash? then []
      else Log(w, before) + Issued(at, e.now)
  }

  // ---------------------------------------------------------------- what a run sends

  /** Start of the last page below `n`. */
  function PageStart(n: nat): (k: nat)
    requires n > 0
    ensures k < n <= k + PAGE_SIZE && k % PAGE_SIZE == 0
  {
    (n - 1) / PAGE_SIZE * PAGE_SIZE
  }

  lemma PageStartIs(k: nat, n: nat)
    requires k < n <= k + PAGE_SIZE && k % PAGE_SIZE == 0
    ensures PageStart(n) == k
  {
    var p := k / PAGE_SIZE;
    assert k == p * PAGE_SIZE;
  }

  /** The reads of a pass up to byte `n`. */
  function Reads(n: nat): seq<Command>
    decreases n
  {
    if n == 0 then [] else Reads(PageStart(n)) + [Read(PageStart(n), n - PageStart(n))]
  }

  /** The writes of a run up to byte `n`, each after its own write-enable. */
  function Pages(image: seq<byte>, n: nat): seq<Command>
    requires n <= |image|
    decreases n
  {
    if n == 0 then []
    else Pages(image, PageStart(n)) + [Enable, Program(PageStart(n), image[PageStart(n)..n])]
  }

  /** The commands since acquisition are `tail`, possibly after a pass of reads that found the image not
      to be there. */
  predicate Sent(log: seq<Command>, c: Controller, tail: seq<Command>) {
    log == tail || log == Reads(c.imageSize) + tail
  }

  predicate Follows(log: seq<Command>, c: Controller) {
    && (Owns(c.state) ==> c.imageSize <= |c.image| && c.offset <= c.imageSize)
    && (Owns(c.state) ==> c.verifyOffset % PAGE_SIZE == 0 || c.verifyOffset == c.imageSize)
    && match c.state
       case CheckingFlash => log == Reads(c.verifyOffset)
       case EnablingErase => Sent(log, c, [])
       case Erasing => Sent(log, c, [Enable])
       case WaitingForErase => Sent(log, c, [Enable, Erase])
       case EnablingProgram => Sent(log, c, [Enable, Erase] + Pages(c.image, c.offset))
       case Programming => Sent(log, c, [Enable, Erase] + Pages(c.image, c.offset) + [Enable])
       case WaitingForProgram =>
         c.offset + c.pageSize <= |c.image| && Sent(log, c, [Enable, Erase] + Pages(c.image, c.offset + c.pageSize))
       case Verifying => Sent(log, c, [Enable, Erase] + Pages(c.image, c.imageSize) + Reads(c.verifyOffset))
       case ReleasingFlash => log == Reads(c.imageSize) || Sent(log, c, WholeScript(c.image, c.imageSize))
       case _ => true
  }

  function WholeScript(image: seq<byte>, n: nat): seq<Command>
    requires n <= |image|
  {
    [Enable, Erase] + Pages(image, n) + Reads(n)
  }

  // ---------------------------------------------------------------- every tick follows the script

  /** Reading on extends the reads so far. */
  lemma NextPage(c: Controller)
    requires c.verifyOffset < c.imageSize && c.verifyOffset % PAGE_SIZE == 0
    ensures Reads(c.verifyOffset + Chunk(c)) == Reads(c.verifyOffset) + [Read(c.verifyOffset, Chunk(c))]
    ensures (c.verifyOffset + Chunk(c)) % PAGE_SIZE == 0 || c.verifyOffset + Chunk(c) == c.imageSize
  {
    PageStartIs(c.verifyOffset, c.verifyOffset + Chunk(c));
  }

  lemma SentMore(log: seq<Command>, c: Controller, tail: seq<Command>, more: seq<Command>)
    requires Sent(log, c, tail)
    ensures Sent(log + more, c, tail + more)
  {
    assert Reads(c.imageSize) + tail + more == Reads(c.imageSize) + (tail + more);
  }

  lemma CheckingFollows(w: World, now: nat, r: Reply, log: seq<Command>)
    requires Inv(w) && w.c.state.CheckingFlash? && Follows(log, w.c) && !TimedOut(w.c, now)
    ensures Follows(log + Issued(w, now), TickChecking(w, now, r).c)
  {
    hide Sha256.Hash, ReadBack, Reads, Pages;
    if w.c.verifyOffset < w.c.imageSize {
      NextPage(w.c);
    }
    assert log + [] == log;
  }

  lemma VerifyingFollows(w: World, now: nat, r: Reply, log: seq<Command>)
    requires Inv(w) && w.c.state.Verifying? && Follows(log, w.c) && !TimedOut(w.c, now)
    ensures Follows(log + Issued(w, now), TickVerifying(w, now, r).c)
  {
    hide Sha256.Hash, ReadBack, Reads, Pages, Sent;
    var c := w.c;
    var written := [Enable, Erase] + Pages(c.image, c.imageSize);
    if c.verifyOffset < c.imageSize {
      NextPage(c);
      SentMore(log, c, written + Reads(c.verifyOffset), NextRead(c));
      assert written + Reads(c.verifyOffset) + NextRead(c) == written + (Reads(c.verifyOffset) + NextRead(c));
    }
    assert log + [] == log;
    SameSize(log + Issued(w, now), c, TickVerifying(w, now, r).c);
  }

  /** Only the image size matters to what has been sent. */
  lemma SameSize(log: seq<Command>, a: Controller, b: Controller)
    requires a.imageSize == b.imageSize
    ensures forall tail: seq<Command> :: Sent(log, a, tail) ==> Sent(log, b, tail)
  {
  }

  lemma EraseFollows(w: World, now: nat, r: Reply, log: seq<Command>)
    requires Inv(w) && Follows(log, w.c) && !TimedOut(w.c, now)
    requires w.c.state.EnablingErase? || w.c.state.Erasing? || w.c.state.WaitingForErase?
    ensures Follows(log + Issued(w, now), TickState(w, now, r).c)
  {
    hide Sha256.Hash, Erased, Reads, Sent;
    var c := w.c;
    assert log + [] == log;
    if c.state.EnablingErase? {
      SentMore(log, c, [], [Enable]);
      assert [] + [Enable] == [Enable];
    } else if c.state.Erasing? {
      SentMore(log, c, [Enable], [Erase]);
      assert [Enable] + [Erase] == [Enable, Erase];
    } else {
      assert [Enable, Erase] + Pages(c.image, 0) == [Enable, Erase];
    }
    SameSize(log + Issued(w, now), c, TickState(w, now, r).c);
  }

  lemma EnablingFollows(w: World, now: nat, r: Reply, log: seq<Command>)
    requires Inv(w) && Follows(log, w.c) && !TimedOut(w.c, now) && w.c.state.EnablingProgram?
    ensures Follows(log + Issued(w, now), TickEnablingProgram(w, now, r).c)
  {
    hide Sha256.Hash, Pages, Sent;
    var c := w.c;
    assert log + [] == log;
    var written := [Enable, Erase] + Pages(c.image, c.offset);
    if c.offset < c.imageSize {
      SentMore(log, c, written, [Enable]);
    } else {
      assert written + Reads(0) == written;
    }
    SameSize(log + Issued(w, now), c, TickEnablingProgram(w, now, r).c);
  }

  lemma ProgrammingFollows(w: World, now: nat, r: Reply, log: seq<Command>)
    requires Inv(w) && Follows(log, w.c) && !TimedOut(w.c, now) && w.c.state.Programming?
    ensures Follows(log + Issued(w, now), TickProgramming(w, r).c)
  {
    hide Sha256.Hash, Programmed, Sent, Reads;
    var c := w.c;
    var written, end := Pages(c.image, c.offset), c.offset + c.pageSize;
    var page := Program(c.offset, c.image[c.offset..end]);
    SentMore(log, c, [Enable, Erase] + written + [Enable], [page]);
    PageStartIs(c.offset, end);
    assert Pages(c.image, end) == written + [Enable, page];
    assert [Enable, Erase] + written + [Enable] + [page] == [Enable, Erase] + (written + [Enable, page]);
    hide Pages;
    SameSize(log + [page], c, TickProgramming(w, r).c);
  }

  lemma WaitingFollows(w: World, now: nat, r: Reply, log: seq<Command>)
    requires Inv(w) && Follows(log, w.c) && !TimedOut(w.c, now) && w.c.state.WaitingForProgram?
    ensures Follows(log + Issued(w, now), TickWaitingForProgram(w, now, r).c)
  {
    hide Sha256.Hash, Pages, Sent, Reads;
    assert log + [] == log;
    SameSize(log, w.c, TickWaitingForProgram(w, now, r).c);
  }

  lemma TickFollows(w: World, now: nat, r: Reply, log: seq<Command>)
    requires Inv(w) && Follows(log, w.c)
    ensures Follows(if w.c.state.AcquiringFlash? then [] else log + Issued(w, now), Tick(w, now, r).c)
  {
    hide Sha256.Hash, TickChecking, TickVerifying, TickEnablingProgram, TickProgramming, TickWaitingForProgram;
    hide Issued, Follows, Inv;
    if !Owns(w.c.state) || w.c.state.ReleasingFlash? {
      OutsideFollows(w, now, r, log + Issued(w, now));
    } else if TimedOut(w.c, now) {
      FaultFollows(log + Issued(w, now), Tick(w, now, r).c);
    } else if w.c.state.CheckingFlash? {
      CheckingFollows(w, now, r, log);
    } else if w.c.state.Verifying? {
      VerifyingFollows(w, now, r, log);
    } else if w.c.state.EnablingProgram? {
      EnablingFollows(w, now, r, log);
    } else if w.c.state.Programming? {
      ProgrammingFollows(w, now, r, log);
    } else if w.c.state.WaitingForProgram? {
      WaitingFollows(w, now, r, log);
    } else {
      EraseFollows(w, now, r, log);
    }
  }

  lemma FaultFollows(log: seq<Command>, c: Controller)
    requires !Owns(c.state)
    ensures Follows(log, c)
  {
  }

  /** The flash is entered by acquisition only, with nothing sent yet. */
  lemma OutsideFollows(w: World, now: nat, r: Reply, log: seq<Command>)
    requires Inv(w) && (!Owns(w.c.state) || w.c.state.ReleasingFlash?)
    ensures Follows(if w.c.state.AcquiringFlash? then [] else log, Tick(w, now, r).c)
  {
    hide Sha256.Hash, TickChecking, TickVerifying, TickEnablingProgram, TickProgramming, TickWaitingForProgram;
    hide Pages;
  }

  lemma CallFollows(w: World, e: Event, log: seq<Command>)
    requires Inv(w) && Allowed(w, e) && !e.TickEvent? && Follows(log, w.c)
    ensures Follows(log, Step(w, e).c)
  {
    hide Sha256.Hash, Reads, Pages, Sent, ImageAcceptable;
  }

  /** In every run the commands sent since acquisition are the ones the phase promises. */
  lemma {:induction false} RunFollows(w: World, events: seq<Event>)
    requires Inv(w) && !Owns(w.c.state) && AllAllowed(w, events)
    ensures Follows(Log(w, events), Run(w, events).c)
    decreases |events|
  {
    hide Inv, Step, Allowed, Follows, Issued;
    if events == [] {
      FaultFollows([], w.c);
    } else {
      var before, e := events[..|events| - 1], events[|events| - 1];
      assert forall i :: 0 <= i < |before| ==> events[..i] == before[..i];
      RunFollows(w, before);
      RunKeepsInv(w, before);
      var at := Run(w, before);
      if e.TickEvent? {
        TickFollows(at, e.now, e.r, Log(w, before));
        assert Step(at, e) == Tick(at, e.now, e.r) by {
          TickStep(at, e);
        }
      } else {
        assert before == events[..|before|];
        CallFollows(at, e, Log(w, before));
      }
    }
  }

  lemma TickStep(w: World, e: Event)
    requires e.TickEvent?
    ensures Step(w, e) == Tick(w, e.now, e.r)
  {
  }

  /** The flash is handed back after a pass of reads over the image, each byte once and in order; or, with
      or without such a pass first, after write-enable and erase, the pages that tile the image, each with
      its own write-enable, and a pass of reads. */
  lemma ReleasedAfterScript(w: World, events: seq<Event>)
    requires Inv(w) && !Owns(w.c.state) && AllAllowed(w, events)
    requires Run(w, events).c.state.ReleasingFlash?
    ensures var c, log := Run(w, events).c, Log(w, events);
      && c.imageSize == |c.image|
      && (log == Reads(|c.image|) || log == WholeScript(c.image, |c.image|)
          || log == Reads(|c.image|) + WholeScript(c.image, |c.image|))
  {
    hide Run, Log, AllAllowed, Inv, Follows;
    RunFollows(w, events);
    RunKeepsInv(w, events);
    ReleasingMeans(Run(w, events), Log(w, events));
  }

  lemma ReleasingMeans(w: World, log: seq<Command>)
    requires Inv(w) && w.c.state.ReleasingFlash? && Follows(log, w.c)
    ensures w.c.imageSize == |w.c.image|
    ensures || log == Reads(|w.c.image|) || log == WholeScript(w.c.image, |w.c.image|)
            || log == Reads(|w.c.image|) + WholeScript(w.c.image, |w.c.image|)
  {
    hide Reads, WholeScript, Sha256.Hash;
  }

  // ---------------------------------------------------------------- what the script covers

  function Written(commands: seq<Command>): seq<byte>
    decreases |commands|
  {
    if commands == [] then []
    else
      var last := commands[|commands| - 1];
      Written(commands[..|commands| - 1]) + (if last.Program? then last.data else [])
  }

  predicate InPage(command: Command) {
    command.Program? ==>
      command.address % PAGE_SIZE == 0 && 0 < |command.data| <= PAGE_SIZE
  }

  lemma WrittenMore(commands: seq<Command>, page: Command)
    requires page.Program?
    ensures Written(commands + [Enable, page]) == Written(commands) + page.data
  {
    var enabled, all := commands + [Enable], commands + [Enable, page];
    assert all[..|all| - 1] == enabled && enabled[..|enabled| - 1] == commands;
    assert Written(enabled) == Written(commands) + [];
  }

  lemma {:induction false} PagesWrite(image: seq<byte>, n: nat)
    requires n <= |image|
    ensures Written(Pages(image, n)) == image[..n]
    decreases n
  {
    if n > 0 {
      var k := PageStart(n);
      PagesWrite(image, k);
      WrittenMore(Pages(image, k), Program(k, image[k..n]));
      assert image[..k] + image[k..n] == image[..n];
      hide Written, PageStart;
    } else {
      assert image[..0] == [];
    }
  }

  lemma {:induction false} PagesFit(image: seq<byte>, n: nat)
    requires n <= |image|
    ensures forall i :: 0 <= i < |Pages(image, n)| ==> InPage(Pages(image, n)[i])
    ensures forall i :: 0 <= i < |Pages(image, n)| && Pages(image, n)[i].Program? ==>
      i > 0 && Pages(image, n)[i - 1].Enable?
    decreases n
  {
    if n > 0 {
      PagesFit(image, PageStart(n));
    }
  }

  /** The pages tile the image: each starts at a page boundary, none crosses one, and together they are the
      image. */
  lemma PagesTile(image: seq<byte>, n: nat)
    requires n <= |image|
    ensures Written(Pages(image, n)) == image[..n]
    ensures forall i :: 0 <= i < |Pages(image, n)| ==> InPage(Pages(image, n)[i])
    ensures forall i :: 0 <= i < |Pages(image, n)| && Pages(image, n)[i].Program? ==>
      i > 0 && Pages(image, n)[i - 1].Enable?
  {
    PagesWrite(image, n);
    PagesFit(image, n);
    hide *;
  }

  function Covered(commands: seq<Command>): nat
    decreases |commands|
  {
    if commands == [] then 0
    else
      var last := commands[|commands| - 1];
      Covered(commands[..|commands| - 1]) + (if last.Read? then last.size else 0)
  }

  /** Each read starts where the reads before it end. */
  predicate InOrder(commands: seq<Command>) {
    forall i :: 0 <= i < |commands| && commands[i].Read? ==> commands[i].address == Covered(commands[..i])
  }

  lemma {:induction false} ReadsCover(n: nat)
    ensures Covered(Reads(n)) == n && InOrder(Reads(n))
    decreases n
  {
    if n > 0 {
      var k := PageStart(n);
      ReadsCover(k);
      var before, read := Reads(k), Read(k, n - k);
      var all := before + [read];
      assert all[..|all| - 1] == before;
      forall i | 0 <= i < |all| && all[i].Read? ensures all[i].address == Covered(all[..i]) {
        if i < |before| {
          assert all[..i] == before[..i];
        }
      }
    }
  }
}
