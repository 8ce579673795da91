/** What the safety gate promises over whole runs. */
module SafetyLaws {
  import opened Bits
  import opened Wire
  import opened Model
  import opened Safety

  /** What holds of every reachable state, however often `boot_complete` is called. */
  predicate Inv(c: Config, s: Manager) {
    && s.healthy <= c.healthyCycles as int
    && (s.status.state.Enabled? ==>
        && s.requested && s.healthy == c.healthyCycles as int && !s.deadlinePending
        && s.storageValid && s.calibrationValid)
    && (s.maintenance ==> !s.requested && !s.status.state.Enabled?)
  }

  /** What one `gate` call does, by the checks it meets. */
  predicate GateEffect(c: Config, s: Manager, call: GateCall, s': Manager)
    requires Indexed(call.model)
  {
    && s'.storageValid == s.storageValid && s'.calibrationValid == s.calibrationValid && s'.watchdog == s.watchdog
    && s'.moduleReady == s.moduleReady && s'.maintenance == s.maintenance
    && s'.status.batteryMv == s.status.batteryMv
    && (if !s.storageValid || !s.calibrationValid then
          SameCounts(s, s') && s'.deadlinePending == s.deadlinePending && !s'.status.state.Enabled?
        else if s.watchdog && s.deadlinePending then
          SameCounts(s, s') && !s'.deadlinePending && s'.status.state == s.status.state
        else if !BaseOk(c, s, call) then
          !s'.requested && s'.healthy == 0 && !s'.status.state.Enabled? && s'.deadlinePending == s.deadlinePending
        else if !s.status.state.Enabled? && !FullOk(c, s, call) then
          s'.requested == s.requested && s'.healthy == 0 && !s'.status.state.Enabled? && !s'.deadlinePending
        else s' == Counted(c, s))
  }

  predicate SameCounts(s: Manager, s': Manager) {
    s'.requested == s.requested && s'.healthy == s.healthy
  }

  lemma GateDoes(c: Config, s: Manager, call: GateCall)
    requires Indexed(call.model) && (s.status.state.Enabled? ==> !s.deadlinePending)
    ensures GateEffect(c, s, call, Gate(c, s, call))
  {
    hide SwitchesMatch, ThrottleLow, Fresh, BatteryOk;
    if BaseOk(c, s, call) && (s.status.state.Enabled? || FullOk(c, s, call)) {
      assert Gate(c, s, call) == Counted(c, s);
    } else {
      hide Counted;
    }
  }

  /** What any other call does. */
  predicate ReportEffect(c: Config, s: Manager, e: Event, s': Manager) {
    && s'.storageValid == (if e.BootComplete? then e.storage else s.storageValid)
    && s'.calibrationValid == (if e.BootComplete? then e.calibration else s.calibrationValid)
    && s'.watchdog == (s.watchdog && !e.WatchdogFault?)
    && s'.moduleReady == (if e.ModuleReport? then e.ready else s.moduleReady)
    && s'.status.batteryMv == (if e.Battery? then e.mv else s.status.batteryMv)
    && s'.deadlinePending == (s.deadlinePending || (e.MixerDuration? && e.us > c.maximumMixerDuration))
    && s'.maintenance ==
       (if e.BeginMaintenance? then s.maintenance || MaintenanceFree(s) else s.maintenance && !e.EndMaintenance?)
    && s'.requested ==
       (if e.RequestEnable? then s.requested || !s.maintenance else s.requested && !Clears(c, s, e))
    && s'.healthy == (if Clears(c, s, e) && !e.BeginMaintenance? then 0 else s.healthy)
    && (s'.status.state.Enabled? ==> s.status.state.Enabled?)
    && (s.status.state.Enabled? ==>
          (s'.status.state.Enabled? <==> !e.BootComplete? && !(Clears(c, s, e) && !e.BeginMaintenance?)))
  }

  lemma ReportDoes(c: Config, s: Manager, e: Event)
    requires EventOk(e) && !e.GateEvent?
    ensures ReportEffect(c, s, e, Step(c, s, e))
  {
    match e
    case Battery(_, _) => BatteryDoes(c, s, e);
    case ModuleReport(_) => ModuleDoes(c, s, e);
    case MixerDuration(_) => DurationDoes(c, s, e);
    case _ =>
      if e.BootComplete? {
        BootDoes(c, s, e);
      } else if e.BatteryFault? || e.WatchdogFault? {
        FaultDoes(c, s, e);
      } else {
        LockDoes(c, s, e);
      }
      hide ReportEffect, Step;
  }

  lemma BootDoes(c: Config, s: Manager, e: Event)
    requires e.BootComplete?
    ensures ReportEffect(c, s, e, Boot(s, e.storage, e.recovery, e.calibration))
  {
  }

  lemma FaultDoes(c: Config, s: Manager, e: Event)
    requires EventOk(e) && (e.BatteryFault? || e.WatchdogFault?)
    ensures ReportEffect(c, s, e, Step(c, s, e))
  {
    hide Gate, ReportBattery, ReportModule, ReportDuration;
  }

  lemma LockDoes(c: Config, s: Manager, e: Event)
    requires e.RequestEnable? || e.RequestLock? || e.BeginMaintenance? || e.EndMaintenance?
    ensures ReportEffect(c, s, e, Step(c, s, e))
  {
    hide Gate, ReportBattery, ReportModule, ReportDuration;
  }

  lemma BatteryDoes(c: Config, s: Manager, e: Event)
    requires e.Battery?
    ensures ReportEffect(c, s, e, ReportBattery(c, s, e.mv, e.configured))
  {
    var low := e.configured && e.mv < c.minimumBattery;
    var read := s.(status := s.status.(batteryMv := e.mv));
    assert Clears(c, s, e) == low;
    assert ReportBattery(c, s, e.mv, e.configured) == if low then Into(Cleared(read), Fault, BatteryCritical) else read;
    hide Clears, ReportBattery;
  }

  lemma ModuleDoes(c: Config, s: Manager, e: Event)
    requires e.ModuleReport?
    ensures ReportEffect(c, s, e, ReportModule(s, e.ready))
  {
  }

  lemma DurationDoes(c: Config, s: Manager, e: Event)
    requires e.MixerDuration?
    ensures ReportEffect(c, s, e, ReportDuration(c, s, e.us))
  {
  }

  lemma StepKeepsInv(c: Config, s: Manager, e: Event)
    requires Inv(c, s) && EventOk(e)
    ensures Inv(c, Step(c, s, e))
  {
    if e.GateEvent? {
      FullBase(c, s, e.call);
      GateDoes(c, s, e.call);
      hide Gate, FullOk, BaseOk;
    } else {
      ReportDoes(c, s, e);
      hide Step, Clears;
    }
  }

  lemma {:induction false} RunInv(c: Config, es: seq<Event>)
    requires RunOk(es)
    ensures Inv(c, Run(c, es))
    decreases |es|
  {
    hide Inv, Step;
    if es == [] {
      InitialInv(c);
    } else {
      RunInv(c, Front(es));
      StepKeepsInv(c, Run(c, Front(es)), Last(es));
    }
  }

  lemma InitialInv(c: Config)
    ensures Inv(c, INITIAL)
  {
  }

  // ---------------------------------------------------------------- the checks, spelled out

  /** The bit of a switch in a mask of eight. */
  predicate MaskBit(mask: byte, i: nat)
    requires i < 8
  {
    mask / [1, 2, 4, 8, 16, 32, 64, 128][i] % 2 == 1
  }

  /** All that a call must find on the way to Enabled. */
  predicate Passing(c: Config, s: Manager, call: GateCall)
    requires Indexed(call.model)
  {
    var head, inputs := call.model.head, call.inputs;
    && s.storageValid && s.calibrationValid && s.watchdog && !s.deadlinePending && s.moduleReady
    && inputs.valid && inputs.sampledAt <= call.now <= inputs.sampledAt + c.maximumInputAge
    && (s.status.batteryMv == 0 || s.status.batteryMv >= c.minimumBattery)
    && inputs.axes[head.throttleAxis] <= c.throttleSafe
    && (forall i :: 0 <= i < 8 && MaskBit(head.requiredSwitchMask, i) ==>
          inputs.switches[i] == MaskBit(head.requiredSwitchValues, i))
  }

  lemma PassingIsFull(c: Config, s: Manager, call: GateCall)
    requires Indexed(call.model)
    ensures Passing(c, s, call) <==> FullOk(c, s, call)
  {
    SwitchesSpelled(call.model, call.inputs);
    hide MaskBit, SwitchesMatch;
  }

  lemma SwitchesSpelled(m: Model, inputs: Controls)
    ensures SwitchesMatch(m, inputs) <==>
      forall i :: 0 <= i < 8 && MaskBit(m.head.requiredSwitchMask, i) ==>
        inputs.switches[i] == MaskBit(m.head.requiredSwitchValues, i)
  {
    forall i | 0 <= i < 8
      ensures SwitchMatches(m, inputs, i) == (MaskBit(m.head.requiredSwitchMask, i) ==>
                inputs.switches[i] == MaskBit(m.head.requiredSwitchValues, i))
    {
      SwitchBit(m.head.requiredSwitchMask, i);
      SwitchBit(m.head.requiredSwitchValues, i);
      hide MaskBit, BitSet;
    }
    hide MaskBit, SwitchMatches;
  }

  lemma SwitchBit(mask: byte, i: nat)
    requires i < 8
    ensures MaskBit(mask, i) == BitSet(mask, i)
  {
    Pow2Values();
  }

  datatype Check = Check(passed: bool, state: State, reason: Reason)

  /** The checks of a call in their order, each with the state and the reason that stand for it.  An overrun of the
      mixer has set them already; so has the fault of a module that went offline in it. */
  function Checks(c: Config, s: Manager, call: GateCall): (r: seq<Check>)
    requires Indexed(call.model)
    ensures |r| == 10
  {
    var inputs, at := call.inputs, s.status.state;
    [Check(s.storageValid, Fault, StorageInvalid), Check(s.calibrationValid, Fault, CalibrationRequired),
     Check(s.watchdog, Fault, WatchdogUnavailable), Check(!s.deadlinePending, at, s.status.reason),
     Check(inputs.valid, Locked, InputsInvalid),
     Check(inputs.sampledAt <= call.now <= inputs.sampledAt + c.maximumInputAge, Locked, InputsStale),
     Check(s.status.batteryMv == 0 || s.status.batteryMv >= c.minimumBattery, Fault, BatteryCritical),
     Check(s.moduleReady, if at.Fault? then Fault else Locked, if at.Fault? then s.status.reason else ModuleOffline),
     Check(at.Enabled? || SwitchesMatch(call.model, inputs), Locked, SwitchMismatch),
     Check(at.Enabled? || inputs.axes[call.model.head.throttleAxis] <= c.throttleSafe, Locked, ThrottleHigh)]
  }

  /** A call that does not pass shows the first check that failed. */
  lemma ReasonIsFirstFailure(c: Config, s: Manager, call: GateCall, k: nat)
    requires Indexed(call.model) && k < 10
    requires var checks := Checks(c, s, call); !checks[k].passed && forall j :: 0 <= j < k ==> checks[j].passed
    ensures var status, check := Gate(c, s, call).status, Checks(c, s, call)[k];
      status.state == check.state && status.reason == check.reason
  {
    hide SwitchesMatch;
    var checks := Checks(c, s, call);
    assert k > 0 ==> checks[0].passed;
    assert k > 1 ==> checks[1].passed;
    assert k > 2 ==> checks[2].passed;
    assert k > 3 ==> checks[3].passed;
    assert k > 4 ==> checks[4].passed;
    assert k > 5 ==> checks[5].passed;
    assert k > 6 ==> checks[6].passed;
    assert k > 7 ==> checks[7].passed;
    assert k > 8 ==> checks[8].passed;
  }

  // ---------------------------------------------------------------- the counters

  /** The overruns that were reported. */
  function Overruns(c: Config, es: seq<Event>): nat
    decreases |es|
  {
    if es == [] then 0
    else Overruns(c, Front(es)) + (if Last(es).MixerDuration? && Last(es).us > c.maximumMixerDuration then 1 else 0)
  }

  /** The calls that failed at the age of their inputs. */
  function StaleCalls(c: Config, es: seq<Event>): nat
    requires RunOk(es)
    decreases |es|
  {
    if es == [] then 0
    else
      var s, e := Run(c, Front(es)), Last(es);
      StaleCalls(c, Front(es)) + (if e.GateEvent? && Stale(c, s, e.call) then 1 else 0)
  }

  predicate Stale(c: Config, s: Manager, call: GateCall) {
    && s.storageValid && s.calibrationValid && s.watchdog && !s.deadlinePending && call.inputs.valid
    && !(call.inputs.sampledAt <= call.now <= call.inputs.sampledAt + c.maximumInputAge)
  }

  lemma StepCounts(c: Config, s: Manager, e: Event)
    requires EventOk(e)
    ensures var status, status' := s.status, Step(c, s, e).status;
      && status'.missedDeadlines
         == (if e.MixerDuration? && e.us > c.maximumMixerDuration then (status.missedDeadlines + 1) % 0x1_0000_0000
             else status.missedDeadlines)
      && status'.staleFrames
         == (if e.GateEvent? && Stale(c, s, e.call) then (status.staleFrames + 1) % 0x1_0000_0000
             else status.staleFrames)
  {
    hide Gate, Stale, Boot, ReportBattery, ReportModule;
    match e
    case GateEvent(call) => GateCounts(c, s, call);
    case BootComplete(_, _, _) => ReportCounts(c, s, e);
    case Battery(_, _) => ReportCounts(c, s, e);
    case ModuleReport(_) => ReportCounts(c, s, e);
    case _ =>
  }

  lemma ReportCounts(c: Config, s: Manager, e: Event)
    requires e.BootComplete? || e.Battery? || e.ModuleReport?
    ensures Step(c, s, e).status.missedDeadlines == s.status.missedDeadlines
    ensures Step(c, s, e).status.staleFrames == s.status.staleFrames
  {
    hide Gate, Boot, ReportBattery, ReportModule, Cleared;
    if e.BootComplete? {
      BootCounts(s, e.storage, e.recovery, e.calibration);
    } else if e.Battery? {
      BatteryCounts(c, s, e.mv, e.configured);
    } else {
      ModuleCounts(s, e.ready);
    }
  }

  lemma BootCounts(s: Manager, storage: bool, recovery: bool, calibration: bool)
    ensures var status := Boot(s, storage, recovery, calibration).status;
      status.missedDeadlines == s.status.missedDeadlines && status.staleFrames == s.status.staleFrames
  {
  }

  lemma BatteryCounts(c: Config, s: Manager, mv: nat, configured: bool)
    ensures var status := ReportBattery(c, s, mv, configured).status;
      status.missedDeadlines == s.status.missedDeadlines && status.staleFrames == s.status.staleFrames
  {
  }

  lemma ModuleCounts(s: Manager, ready: bool)
    ensures var status := ReportModule(s, ready).status;
      status.missedDeadlines == s.status.missedDeadlines && status.staleFrames == s.status.staleFrames
  {
  }

  lemma GateCounts(c: Config, s: Manager, call: GateCall)
    requires Indexed(call.model)
    ensures var status, status' := s.status, Gate(c, s, call).status;
      && status'.missedDeadlines == status.missedDeadlines
      && status'.staleFrames
         == if Stale(c, s, call) then (status.staleFrames + 1) % 0x1_0000_0000 else status.staleFrames
  {
    hide SwitchesMatch, ThrottleLow, BatteryOk;
  }

  /** The counters of the status count what they are named for, in 32 bits. */
  lemma {:induction false} CountersCount(c: Config, es: seq<Event>)
    requires RunOk(es)
    ensures Run(c, es).status.missedDeadlines == Overruns(c, es) % 0x1_0000_0000
    ensures Run(c, es).status.staleFrames == StaleCalls(c, es) % 0x1_0000_0000
    decreases |es|
  {
    hide Step, Stale;
    if es != [] {
      CountersCount(c, Front(es));
      StepCounts(c, Run(c, Front(es)), Last(es));
    }
  }

  // ---------------------------------------------------------------- the state against the history

  /** The flags are what the history says. */
  predicate Mirrors(c: Config, s: Manager, es: seq<Event>)
    requires RunOk(es)
  {
    && (s.storageValid && s.calibrationValid <==> BootedWell(es))
    && (s.watchdog <==> WatchdogKept(es))
    && (s.moduleReady <==> ModuleOnline(es))
    && s.status.batteryMv == BatteryOf(es)
    && (s.deadlinePending <==> Overrun(c, es))
    && (s.requested <==> Asked(c, es))
  }

  lemma MirrorStep(c: Config, s: Manager, es: seq<Event>, e: Event)
    requires RunOk(es + [e]) && RunOk(es) && s == Run(c, es) && Mirrors(c, s, es) && Inv(c, s)
    ensures Mirrors(c, Step(c, s, e), es + [e])
  {
    assert Front(es + [e]) == es && Last(es + [e]) == e;
    if e.GateEvent? {
      MirrorGate(c, s, es, e);
    } else {
      MirrorReport(c, s, es, e);
    }
  }

  lemma MirrorGate(c: Config, s: Manager, es: seq<Event>, e: Event)
    requires RunOk(es + [e]) && RunOk(es) && s == Run(c, es) && Mirrors(c, s, es) && Inv(c, s) && e.GateEvent?
    requires Front(es + [e]) == es && Last(es + [e]) == e
    ensures Mirrors(c, Step(c, s, e), es + [e])
  {
    GateDoes(c, s, e.call);
    hide Gate, FullOk, Run, BaseOk;
  }

  lemma MirrorReport(c: Config, s: Manager, es: seq<Event>, e: Event)
    requires RunOk(es + [e]) && RunOk(es) && s == Run(c, es) && Mirrors(c, s, es) && Inv(c, s) && !e.GateEvent?
    requires Front(es + [e]) == es && Last(es + [e]) == e
    ensures Mirrors(c, Step(c, s, e), es + [e])
  {
    HistoryGrows(c, es, e);
    ReportDoes(c, s, e);
    hide Step, Clears, Gate, FullOk, Run, BaseOk, RunOk;
    hide BootedWell, WatchdogKept, ModuleOnline, BatteryOf, Overrun, Asked;
  }

  /** How each reading of the history changes with one more event. */
  lemma HistoryGrows(c: Config, es: seq<Event>, e: Event)
    requires RunOk(es + [e]) && RunOk(es) && Front(es + [e]) == es && Last(es + [e]) == e
    ensures BootedWell(es + [e]) <==> (if e.BootComplete? then e.storage && e.calibration else BootedWell(es))
    ensures WatchdogKept(es + [e]) <==> (WatchdogKept(es) && !e.WatchdogFault?)
    ensures ModuleOnline(es + [e]) <==> (if e.ModuleReport? then e.ready else ModuleOnline(es))
    ensures BatteryOf(es + [e]) == if e.Battery? then e.mv else BatteryOf(es)
    ensures Overrun(c, es + [e]) <==>
              (if e.GateEvent? then Overrun(c, es) && !(BootedWell(es) && WatchdogKept(es))
               else (e.MixerDuration? && e.us > c.maximumMixerDuration) || Overrun(c, es))
    ensures Asked(c, es + [e]) <==>
              (if e.RequestEnable? then !Run(c, es).maintenance || Asked(c, es)
               else !Clears(c, Run(c, es), e) && Asked(c, es))
  {
    hide Run, Clears, RunOk;
  }

  lemma {:induction false} Mirrored(c: Config, es: seq<Event>)
    requires RunOk(es)
    ensures Mirrors(c, Run(c, es), es)
    decreases |es|
  {
    if es != [] {
      Mirrored(c, Front(es));
      RunInv(c, Front(es));
      MirrorStep(c, Run(c, Front(es)), Front(es), Last(es));
      assert Front(es) + [Last(es)] == es;
    }
  }

  /** A live frame leaves the gate only if every check holds at that call, each stated on the history:
      a good boot, no watchdog fault ever, no overrun since the last call, valid and fresh inputs, the
      last battery report not low, the last module report good, and a standing request. */
  lemma LiveOnlyIfAllChecks(c: Config, es: seq<Event>, call: GateCall)
    requires RunOk(es) && Indexed(call.model) && !call.proposed.safe
    requires !Gated(c, Run(c, es), call).safe
    ensures Gated(c, Run(c, es), call) == call.proposed
    ensures BootedWell(es) && WatchdogKept(es) && !Overrun(c, es)
    ensures call.inputs.valid && call.inputs.sampledAt <= call.now <= call.inputs.sampledAt + c.maximumInputAge
    ensures BatteryOf(es) == 0 || BatteryOf(es) >= c.minimumBattery
    ensures ModuleOnline(es) && Asked(c, es)
  {
    Mirrored(c, es);
    RunInv(c, es);
    hide Run, SwitchesMatch;
  }

  function LockedChannel(m: Model, i: nat): int16
    requires i < 16
  {
    if i == m.head.throttleChannel as int || i == 4 then -1024 else m.outputs[i].failsafe
  }

  /** Every other frame is the locked one: the failsafe values, but throttle and channel 5 at -1024 whatever theirs
      are, with the call's time and the number of the frame it stands for. */
  lemma OtherwiseLocked(c: Config, s: Manager, call: GateCall)
    requires Indexed(call.model) && Inv(c, s)
    ensures var f := Gated(c, s, call);
      || (f == call.proposed && Gate(c, s, call).status.state.Enabled?)
      || (f.safe && f.generatedAt == call.now && f.sequence == call.proposed.sequence
          && forall i :: 0 <= i < 16 ==> f.channels[i] == LockedChannel(call.model, i))
    ensures Gate(c, s, call).status.state.Enabled? ==> Gated(c, s, call) == call.proposed
  {
    hide SwitchesMatch;
  }

  // ---------------------------------------------------------------- the way to Enabled

  /** With at most one boot, the count never exceeds the streak of full passes outside Enabled. */
  predicate Earned(c: Config, s: Manager, es: seq<Event>)
    requires RunOk(es)
  {
    && (!s.status.state.Enabled? ==> s.healthy <= Streak(c, es))
    && (!(s.storageValid && s.calibrationValid) ==> s.healthy == 0)
    && (s.deadlinePending ==> s.healthy == 0)
    && (Boots(es) == 0 ==> !s.storageValid && !s.calibrationValid)
  }

  lemma EarnStep(c: Config, s: Manager, es: seq<Event>, e: Event)
    requires RunOk(es + [e]) && RunOk(es) && s == Run(c, es) && Earned(c, s, es) && Inv(c, s)
    requires Boots(es + [e]) <= 1
    ensures Earned(c, Step(c, s, e), es + [e])
  {
    assert Front(es + [e]) == es && Last(es + [e]) == e;
    if e.GateEvent? {
      EarnGate(c, s, es, e);
    } else {
      EarnReport(c, s, es, e);
    }
  }

  lemma EarnGate(c: Config, s: Manager, es: seq<Event>, e: Event)
    requires RunOk(es + [e]) && RunOk(es) && s == Run(c, es) && Earned(c, s, es) && Inv(c, s) && e.GateEvent?
    requires Front(es + [e]) == es && Last(es + [e]) == e
    ensures Earned(c, Step(c, s, e), es + [e])
  {
    GateDoes(c, s, e.call);
    FullBase(c, s, e.call);
    hide Gate, FullOk, Run, BaseOk;
  }

  lemma FullBase(c: Config, s: Manager, call: GateCall)
    requires Indexed(call.model)
    ensures FullOk(c, s, call) ==> BaseOk(c, s, call)
    ensures BaseOk(c, s, call) ==> s.storageValid && s.calibrationValid && s.watchdog && !s.deadlinePending
  {
  }

  lemma EarnReport(c: Config, s: Manager, es: seq<Event>, e: Event)
    requires RunOk(es + [e]) && RunOk(es) && s == Run(c, es) && Earned(c, s, es) && Inv(c, s) && !e.GateEvent?
    requires Front(es + [e]) == es && Last(es + [e]) == e && Boots(es + [e]) <= 1
    ensures Earned(c, Step(c, s, e), es + [e])
  {
    assert Boots(es + [e]) == Boots(es) + (if e.BootComplete? then 1 else 0);
    assert Streak(c, es + [e]) == if Clears(c, s, e) && !e.BeginMaintenance? then 0 else Streak(c, es);
    ReportDoes(c, s, e);
    hide Step, Clears, Gate, FullOk, Run, BaseOk, RunOk, Boots, Streak;
  }

  lemma {:induction false} AlwaysEarned(c: Config, es: seq<Event>)
    requires RunOk(es) && Boots(es) <= 1
    ensures Earned(c, Run(c, es), es)
    decreases |es|
  {
    if es != [] {
      AlwaysEarned(c, Front(es));
      RunInv(c, Front(es));
      assert Front(es) + [Last(es)] == es;
      EarnStep(c, Run(c, Front(es)), Front(es), Last(es));
    }
  }

  /** Each entry into Enabled is a `gate` call that passes every check, throttle and required switches included, and
      ends at least the configured number of consecutive passes, with an enable request standing. */
  lemma EnabledIsEarned(c: Config, es: seq<Event>, e: Event)
    requires RunOk(es) && EventOk(e) && Boots(es + [e]) <= 1 && RunOk(es + [e])
    requires !Run(c, es).status.state.Enabled? && Step(c, Run(c, es), e).status.state.Enabled?
    ensures e.GateEvent? && Passing(c, Run(c, es), e.call)
    ensures Streak(c, es + [e]) >= c.healthyCycles as int && Streak(c, es + [e]) >= 1 && Asked(c, es)
  {
    assert Front(es + [e]) == es && Last(es + [e]) == e && Boots(es) <= 1;
    AlwaysEarned(c, es);
    Mirrored(c, es);
    RunInv(c, es);
    EnabledByGate(c, Run(c, es), e);
    PassingIsFull(c, Run(c, es), e.call);
    hide Passing, Run, Gate, FullOk, BaseOk, Asked, BootedWell, WatchdogKept, ModuleOnline, BatteryOf, Overrun, Step;
    hide RunOk;
  }

  lemma EnabledByGate(c: Config, s: Manager, e: Event)
    requires EventOk(e) && Inv(c, s) && !s.status.state.Enabled? && Step(c, s, e).status.state.Enabled?
    ensures e.GateEvent? && FullOk(c, s, e.call) && s.requested && s.healthy + 1 >= c.healthyCycles as int
  {
    if e.GateEvent? {
      GateDoes(c, s, e.call);
      FullBase(c, s, e.call);
      hide Gate, FullOk, BaseOk;
    } else {
      ReportDoes(c, s, e);
      hide Step, Clears;
    }
  }

  /** Conversely, the configured number of full passes with a standing request does enable. */
  lemma {:induction false} PassesEnable(c: Config, s: Manager, calls: seq<GateCall>)
    requires Inv(c, s) && s.requested && AllPass(c, s, calls)
    requires |calls| >= 1 && |calls| + s.healthy >= c.healthyCycles as int
    ensures Passed(c, s, calls).status.state.Enabled?
    decreases |calls|
  {
    var s' := Gate(c, s, calls[0]);
    PassingIsFull(c, s, calls[0]);
    hide Passing;
    assert s' == Counted(c, s);
    StepKeepsInv(c, s, GateEvent(calls[0]));
    hide FullOk;
    if |calls| > 1 {
      PassesEnable(c, s', calls[1..]);
    }
  }

  predicate AllPass(c: Config, s: Manager, calls: seq<GateCall>)
    decreases |calls|
  {
    calls != [] ==>
      Indexed(calls[0].model) && Passing(c, s, calls[0]) && AllPass(c, Gate(c, s, calls[0]), calls[1..])
  }

  function Passed(c: Config, s: Manager, calls: seq<GateCall>): Manager
    requires AllPass(c, s, calls)
    decreases |calls|
  {
    if calls == [] then s else Passed(c, Gate(c, s, calls[0]), calls[1..])
  }

  // ---------------------------------------------------------------- leaving Enabled

  /** Leaving Enabled zeroes the count, so a new streak is needed, unless the event is another
      `boot_complete`: that one keeps the count. */
  lemma LeavingZeroes(c: Config, es: seq<Event>, e: Event)
    requires RunOk(es) && EventOk(e)
    requires Run(c, es).status.state.Enabled? && !Step(c, Run(c, es), e).status.state.Enabled?
    ensures Step(c, Run(c, es), e).healthy == 0 <==> !e.BootComplete? || c.healthyCycles == 0
    ensures Step(c, Run(c, es), e).requested <==> e.BootComplete?
  {
    RunInv(c, es);
    if e.GateEvent? {
      GateDoes(c, Run(c, es), e.call);
      hide Run, Gate, FullOk, BaseOk;
    } else {
      ReportDoes(c, Run(c, es), e);
      hide Run, Step, Clears;
    }
  }

  /** After a second good boot in Enabled one passing call re-enables, whatever number is configured. */
  lemma SecondBootSkipsStreak(c: Config, es: seq<Event>, recovery: bool, call: GateCall)
    requires RunOk(es) && Indexed(call.model) && Run(c, es).status.state.Enabled?
    requires Passing(c, Boot(Run(c, es), true, recovery, true), call)
    ensures var again := Boot(Run(c, es), true, recovery, true);
      !again.status.state.Enabled? && Gate(c, again, call).status.state.Enabled?
      && Gated(c, again, call) == call.proposed
  {
    RunInv(c, es);
    PassingIsFull(c, Boot(Run(c, es), true, recovery, true), call);
    hide Passing;
    hide Run, SwitchesMatch;
  }

  // ---------------------------------------------------------------- maintenance

  /** Maintenance and live output exclude each other, and no request survives into maintenance. */
  lemma MaintenanceExcludesLive(c: Config, es: seq<Event>, call: GateCall)
    requires RunOk(es) && Indexed(call.model) && Run(c, es).maintenance
    ensures !Run(c, es).status.state.Enabled? && !Run(c, es).requested
    ensures Gated(c, Run(c, es), call).safe
  {
    RunInv(c, es);
    hide Run, SwitchesMatch;
  }
}
