/** The safety gate between the mixer and the radio.  Every public call runs under one mutex, so a run is
    a sequence of calls, and what a run promises is stated against its history of calls. */
module Safety {
  import opened Bits
  import opened Wire
  import opened Model

  const CH5 := 4

  datatype State = Booting | Locked | Ready | Enabled | Fault

  datatype Reason =
    | NoReason | Startup | InputsInvalid | InputsStale | ThrottleHigh | SwitchMismatch | MixerDeadline
    | BatteryCritical | BatterySensor | StorageInvalid | CalibrationRequired | WatchdogRecovery
    | WatchdogUnavailable | ModuleOffline | ManualLock

  datatype Config = Config(
    maximumInputAge: nat, maximumMixerDuration: nat, throttleSafe: int16, minimumBattery: nat, healthyCycles: byte)

  datatype Status = Status(state: State, reason: Reason, missedDeadlines: nat, staleFrames: nat, batteryMv: nat)

  type Channels = s: seq<int16> | |s| == 16 witness seq(16, _ => 0)
  type Switches = s: seq<bool> | |s| == 16 witness seq(16, _ => false)

  datatype Controls = Controls(axes: AxisValues, switches: Switches, sampledAt: nat, valid: bool)
  datatype Frame = Frame(channels: Channels, generatedAt: nat, sequence: nat, safe: bool)

  datatype Manager = Manager(
    status: Status, healthy: nat, deadlinePending: bool, requested: bool, storageValid: bool,
    calibrationValid: bool, watchdog: bool, moduleReady: bool, maintenance: bool)

  const INITIAL := Manager(Status(Booting, Startup, 0, 0, 0), 0, false, false, false, false, true, false, false)

  /** The arguments of one `gate` call. */
  datatype GateCall = GateCall(model: Model, inputs: Controls, proposed: Frame, now: nat)

  predicate Indexed(m: Model) {
    m.head.throttleAxis < MAX_AXES && m.head.throttleChannel < CHANNEL_COUNT
  }

  // ---------------------------------------------------------------- the checks

  predicate BitSet(mask: byte, i: nat) {
    mask / Pow2(i) % 2 == 1
  }

  predicate SwitchMatches(m: Model, inputs: Controls, i: nat)
    requires i < 16
  {
    BitSet(m.head.requiredSwitchMask, i) ==> inputs.switches[i] == BitSet(m.head.requiredSwitchValues, i)
  }

  predicate SwitchesMatch(m: Model, inputs: Controls) {
    forall i :: 0 <= i < 8 ==> SwitchMatches(m, inputs, i)
  }

  predicate Fresh(c: Config, inputs: Controls, now: nat) {
    inputs.sampledAt <= now && now - inputs.sampledAt <= c.maximumInputAge
  }

  predicate BatteryOk(c: Config, mv: nat) {
    mv == 0 || mv >= c.minimumBattery
  }

  predicate ThrottleLow(c: Config, call: GateCall)
    requires Indexed(call.model)
  {
    call.inputs.axes[call.model.head.throttleAxis] <= c.throttleSafe
  }

  /** The checks every call must pass, also while the outputs are enabled. */
  predicate BaseOk(c: Config, s: Manager, call: GateCall) {
    && s.storageValid && s.calibrationValid && s.watchdog && !s.deadlinePending
    && call.inputs.valid && Fresh(c, call.inputs, call.now)
    && BatteryOk(c, s.status.batteryMv) && s.moduleReady
  }

  /** All checks, with the switches and the throttle that only the way to Enabled looks at. */
  predicate FullOk(c: Config, s: Manager, call: GateCall)
    requires Indexed(call.model)
  {
    BaseOk(c, s, call) && SwitchesMatch(call.model, call.inputs) && ThrottleLow(c, call)
  }

  // ---------------------------------------------------------------- the calls

  function Into(s: Manager, state: State, reason: Reason): Manager {
    s.(status := s.status.(state := state, reason := reason))
  }

  /** The enable request and the count of healthy cycles are withdrawn together. */
  function Cleared(s: Manager): Manager {
    s.(requested := false, healthy := 0)
  }

  function Boot(s: Manager, storage: bool, recovery: bool, calibration: bool): Manager {
    var s := s.(storageValid := storage, calibrationValid := calibration);
    if !storage then Into(s, Fault, StorageInvalid)
    else if !calibration then Into(s, Fault, CalibrationRequired)
    else Into(s, Locked, if recovery then WatchdogRecovery else Startup)
  }

  function ReportBattery(c: Config, s: Manager, mv: nat, configured: bool): Manager {
    var s := s.(status := s.status.(batteryMv := mv));
    if configured && mv < c.minimumBattery then Into(Cleared(s), Fault, BatteryCritical) else s
  }

  function ReportModule(s: Manager, ready: bool): Manager {
    var s := s.(moduleReady := ready);
    if ready then s
    else if s.status.state.Booting? || s.status.state.Fault? then Cleared(s)
    else Into(Cleared(s), Locked, ModuleOffline)
  }

  function ReportDuration(c: Config, s: Manager, us: nat): Manager {
    if us <= c.maximumMixerDuration then s
    else
      Into(Cleared(s), Fault, MixerDeadline).(
        deadlinePending := true,
        status := Status(Fault, MixerDeadline, (s.status.missedDeadlines + 1) % 0x1_0000_0000,
                         s.status.staleFrames, s.status.batteryMv))
  }

  /** The frame of a locked radio: the failsafe values, but throttle and CH5 always low. */
  function SafeFrame(call: GateCall): (f: Frame)
    requires Indexed(call.model)
    ensures f.safe && f.channels[call.model.head.throttleChannel] == -1024 && f.channels[CH5] == -1024
    ensures forall i :: 0 <= i < 16 && i != call.model.head.throttleChannel as int && i != CH5 ==>
      f.channels[i] == call.model.outputs[i].failsafe
  {
    var failsafe := seq(16, i requires 0 <= i < 16 => call.model.outputs[i].failsafe);
    Frame(failsafe[call.model.head.throttleChannel := -1024][CH5 := -1024], call.now, call.proposed.sequence, true)
  }

  /** The manager after a `gate` call. */
  function Gate(c: Config, s: Manager, call: GateCall): Manager
    requires Indexed(call.model)
  {
    if !s.storageValid then Into(s, Fault, StorageInvalid)
    else if !s.calibrationValid then Into(s, Fault, CalibrationRequired)
    else if !s.watchdog then Into(Cleared(s), Fault, WatchdogUnavailable)
    else if s.deadlinePending then s.(deadlinePending := false)
    else if !call.inputs.valid then Into(Cleared(s), Locked, InputsInvalid)
    else if !Fresh(c, call.inputs, call.now) then
      Into(Cleared(s), Locked, InputsStale).(
        status := Status(Locked, InputsStale, s.status.missedDeadlines,
                         (s.status.staleFrames + 1) % 0x1_0000_0000, s.status.batteryMv))
    else if !BatteryOk(c, s.status.batteryMv) then Into(Cleared(s), Fault, BatteryCritical)
    else if !s.moduleReady then
      if s.status.state.Fault? then Cleared(s) else Into(Cleared(s), Locked, ModuleOffline)
    else if !s.status.state.Enabled? && !SwitchesMatch(call.model, call.inputs) then
      Into(s.(healthy := 0), Locked, SwitchMismatch)
    else if !s.status.state.Enabled? && !ThrottleLow(c, call) then Into(s.(healthy := 0), Locked, ThrottleHigh)
    else Counted(c, s)
  }

  /** One more healthy cycle; enough of them make the radio ready, or enabled if that was asked for. */
  function Counted(c: Config, s: Manager): Manager {
    var s := s.(healthy := if s.healthy < c.healthyCycles as int then s.healthy + 1 else s.healthy);
    if s.healthy >= c.healthyCycles as int then Into(s, if s.requested then Enabled else Ready, NoReason) else s
  }

  /** The frame a `gate` call returns. */
  function Gated(c: Config, s: Manager, call: GateCall): Frame
    requires Indexed(call.model)
  {
    if BaseOk(c, s, call) && (s.status.state.Enabled? || FullOk(c, s, call)) && Counted(c, s).status.state.Enabled?
    then call.proposed else SafeFrame(call)
  }

  predicate MaintenanceFree(s: Manager) {
    !s.maintenance && !s.status.state.Enabled?
  }

  datatype Event =
    | BootComplete(storage: bool, recovery: bool, calibration: bool)
    | RequestEnable | RequestLock
    | Battery(mv: nat, configured: bool) | BatteryFault | WatchdogFault
    | ModuleReport(ready: bool) | MixerDuration(us: nat)
    | GateEvent(call: GateCall)
    | BeginMaintenance | EndMaintenance

  predicate EventOk(e: Event) {
    e.GateEvent? ==> Indexed(e.call.model)
  }

  function Step(c: Config, s: Manager, e: Event): Manager
    requires EventOk(e)
  {
    match e
    case BootComplete(storage, recovery, calibration) => Boot(s, storage, recovery, calibration)
    case RequestEnable => if s.maintenance then s else s.(requested := true)
    case RequestLock => Into(Cleared(s), Locked, ManualLock)
    case Battery(mv, configured) => ReportBattery(c, s, mv, configured)
    case BatteryFault => Into(Cleared(s), Fault, BatterySensor)
    case WatchdogFault => Into(Cleared(s), Fault, WatchdogUnavailable).(watchdog := false)
    case ModuleReport(ready) => ReportModule(s, ready)
    case MixerDuration(us) => ReportDuration(c, s, us)
    case GateEvent(call) => Gate(c, s, call)
    case BeginMaintenance => if MaintenanceFree(s) then s.(maintenance := true, requested := false) else s
    case EndMaintenance => s.(maintenance := false)
  }

  // ---------------------------------------------------------------- histories

  predicate RunOk(es: seq<Event>) {
    forall e :: e in es ==> EventOk(e)
  }

  function Run(c: Config, es: seq<Event>): Manager
    requires RunOk(es)
    decreases |es|
  {
    if es == [] then INITIAL else Step(c, Run(c, Front(es)), Last(es))
  }

  function Front(es: seq<Event>): (r: seq<Event>)
    requires es != []
    ensures |r| == |es| - 1 && forall e :: e in r ==> e in es
  {
    es[..|es| - 1]
  }

  function Last(es: seq<Event>): (e: Event)
    requires es != []
    ensures e in es
  {
    es[|es| - 1]
  }

  function Boots(es: seq<Event>): nat
    decreases |es|
  {
    if es == [] then 0 else Boots(Front(es)) + (if Last(es).BootComplete? then 1 else 0)
  }

  /** A boot was reported, with storage and calibration valid. */
  predicate BootedWell(es: seq<Event>)
    decreases |es|
  {
    es != [] && (if Last(es).BootComplete? then Last(es).storage && Last(es).calibration else BootedWell(Front(es)))
  }

  predicate WatchdogKept(es: seq<Event>) {
    WatchdogFault !in es
  }

  /** What the last module report said. */
  predicate ModuleOnline(es: seq<Event>)
    decreases |es|
  {
    es != [] && (if Last(es).ModuleReport? then Last(es).ready else ModuleOnline(Front(es)))
  }

  /** The last reported battery voltage. */
  function BatteryOf(es: seq<Event>): nat
    decreases |es|
  {
    if es == [] then 0 else if Last(es).Battery? then Last(es).mv else BatteryOf(Front(es))
  }

  /** The mixer overran since the last `gate` call that got as far as looking: one after a good boot and without
      a watchdog fault. */
  predicate Overrun(c: Config, es: seq<Event>)
    decreases |es|
  {
    && es != []
    && ((Last(es).MixerDuration? && Last(es).us > c.maximumMixerDuration) || Overrun(c, Front(es)))
    && !(Last(es).GateEvent? && BootedWell(Front(es)) && WatchdogKept(Front(es)))
  }

  /** The events that withdraw an enable request, in the state they meet. */
  predicate Clears(c: Config, s: Manager, e: Event) {
    match e
    case RequestLock => true
    case Battery(mv, configured) => configured && mv < c.minimumBattery
    case BatteryFault => true
    case WatchdogFault => true
    case ModuleReport(ready) => !ready
    case MixerDuration(us) => us > c.maximumMixerDuration
    case BeginMaintenance => MaintenanceFree(s)
    case GateEvent(call) =>
      && s.storageValid && s.calibrationValid && !BaseOk(c, s, call) && (s.watchdog ==> !s.deadlinePending)
    case _ => false
  }

  /** Enabling was requested outside maintenance, and nothing has withdrawn the request since. */
  predicate Asked(c: Config, es: seq<Event>)
    requires RunOk(es)
    decreases |es|
  {
    && es != []
    && (var s := Run(c, Front(es));
        if Last(es).RequestEnable? then !s.maintenance || Asked(c, Front(es))
        else !Clears(c, s, Last(es)) && Asked(c, Front(es)))
  }

  /** The number of `gate` calls at the end of the history that passed every check, switches and throttle
      included, with no fault or lock in between. */
  function Streak(c: Config, es: seq<Event>): nat
    requires RunOk(es)
    decreases |es|
  {
    if es == [] then 0
    else
      var s, e := Run(c, Front(es)), Last(es);
      if e.GateEvent? then if FullOk(c, s, e.call) then Streak(c, Front(es)) + 1 else 0
      else if Clears(c, s, e) && !e.BeginMaintenance? then 0
      else Streak(c, Front(es))
  }
}
