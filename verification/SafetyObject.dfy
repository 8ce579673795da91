/** The safety manager as the object it is: its fields updated in place under the lock. */
module SafetyObject {
  import opened Bits
  import opened Wire
  import opened Model
  import opened Safety
  import opened SafetyLaws

  class SafetyManager {
    const config: Config
    var status: Status
    var healthy: nat
    var deadlinePending: bool
    var requested: bool
    var storageValid: bool
    var calibrationValid: bool
    var watchdog: bool
    var moduleReady: bool
    var maintenance: bool

    ghost function Now(): Manager
      reads this
    {
      Manager(status, healthy, deadlinePending, requested, storageValid, calibrationValid, watchdog, moduleReady,
              maintenance)
    }

    ghost predicate Valid()
      reads this
    {
      Inv(config, Now())
    }

    constructor (c: Config)
      ensures config == c && Now() == INITIAL && Valid()
    {
      config := c;
      status := Status(Booting, Startup, 0, 0, 0);
      healthy := 0;
      deadlinePending, requested, storageValid, calibrationValid := false, false, false, false;
      watchdog, moduleReady, maintenance := true, false, false;
    }

    method Enter(state: State, reason: Reason)
      modifies this`status
      ensures Now() == Into(old(Now()), state, reason)
    {
      status := status.(state := state, reason := reason);
    }

    /** The shared ending of every fault and lock. */
    method Drop(state: State, reason: Reason)
      modifies this`requested, this`healthy, this`status
      ensures Now() == Into(Cleared(old(Now())), state, reason)
    {
      requested := false;
      healthy := 0;
      Enter(state, reason);
    }

    method BootCompleted(storage: bool, recovery: bool, calibration: bool)
      requires Valid()
      modifies this`storageValid, this`calibrationValid, this`status
      ensures Now() == Step(config, old(Now()), BootComplete(storage, recovery, calibration)) && Valid()
    {
      StepKeepsInv(config, Now(), BootComplete(storage, recovery, calibration));
      hide Inv;
      storageValid := storage;
      calibrationValid := calibration;
      if !storage {
        Enter(Fault, StorageInvalid);
      } else if !calibration {
        Enter(Fault, CalibrationRequired);
      } else if recovery {
        Enter(Locked, WatchdogRecovery);
      } else {
        Enter(Locked, Startup);
      }
    }

    method AskEnable()
      requires Valid()
      modifies this`requested
      ensures Now() == Step(config, old(Now()), RequestEnable) && Valid()
    {
      if !maintenance {
        requested := true;
      }
    }

    method AskLock()
      requires Valid()
      modifies this`requested, this`healthy, this`status
      ensures Now() == Step(config, old(Now()), RequestLock) && Valid()
    {
      Drop(Locked, ManualLock);
    }

    method ReportBatteryLevel(mv: nat, configured: bool)
      requires Valid()
      modifies this`requested, this`healthy, this`status
      ensures Now() == Step(config, old(Now()), Battery(mv, configured)) && Valid()
    {
      StepKeepsInv(config, Now(), Battery(mv, configured));
      hide Inv;
      status := status.(batteryMv := mv);
      if configured && mv < config.minimumBattery {
        Drop(Fault, BatteryCritical);
      }
    }

    method ReportBatteryFault()
      requires Valid()
      modifies this`requested, this`healthy, this`status
      ensures Now() == Step(config, old(Now()), BatteryFault) && Valid()
    {
      Drop(Fault, BatterySensor);
    }

    method ReportWatchdogFault()
      requires Valid()
      modifies this`watchdog, this`requested, this`healthy, this`status
      ensures Now() == Step(config, old(Now()), WatchdogFault) && Valid()
    {
      watchdog := false;
      Drop(Fault, WatchdogUnavailable);
    }

    method ReportModuleReady(ready: bool)
      requires Valid()
      modifies this`moduleReady, this`requested, this`healthy, this`status
      ensures Now() == Step(config, old(Now()), ModuleReport(ready)) && Valid()
    {
      StepKeepsInv(config, Now(), ModuleReport(ready));
      hide Inv;
      moduleReady := ready;
      if !ready {
        requested := false;
        healthy := 0;
        if !status.state.Booting? && !status.state.Fault? {
          Enter(Locked, ModuleOffline);
        }
      }
    }

    method ReportMixerDuration(us: nat)
      requires Valid()
      modifies this`deadlinePending, this`requested, this`healthy, this`status
      ensures Now() == Step(config, old(Now()), MixerDuration(us)) && Valid()
    {
      StepKeepsInv(config, Now(), MixerDuration(us));
      hide Inv;
      if us > config.maximumMixerDuration {
        status := status.(missedDeadlines := (status.missedDeadlines + 1) % 0x1_0000_0000);
        deadlinePending := true;
        Drop(Fault, MixerDeadline);
      }
    }

    method SwitchesOk(m: Model, inputs: Controls) returns (ok: bool)
      ensures ok == SwitchesMatch(m, inputs)
    {
      for i := 0 to 8
        invariant forall k :: 0 <= k < i ==> SwitchMatches(m, inputs, k)
      {
        if BitSet(m.head.requiredSwitchMask, i) {
          var expected := BitSet(m.head.requiredSwitchValues, i);
          if inputs.switches[i] != expected {
            assert !SwitchMatches(m, inputs, i);
            return false;
          }
        }
      }
      ok := true;
    }

    /** The failsafe values with throttle and CH5 forced low. */
    method BuildSafeFrame(call: GateCall) returns (f: Frame)
      requires Indexed(call.model)
      ensures f == SafeFrame(call)
    {
      var channels := new int16[16](_ => 0);
      for i := 0 to 16
        invariant forall k :: 0 <= k < i ==> channels[k] == call.model.outputs[k].failsafe
      {
        channels[i] := call.model.outputs[i].failsafe;
      }
      channels[call.model.head.throttleChannel] := -1024;
      channels[CH5] := -1024;
      f := Frame(channels[..], call.now, call.proposed.sequence, true);
      assert f.channels == SafeFrame(call).channels;
    }

    /** The checks that look at nothing but the manager's own flags. */
    method Refused(call: GateCall) returns (refused: bool)
      requires Indexed(call.model)
      modifies this`deadlinePending, this`requested, this`healthy, this`status
      ensures refused == (!storageValid || !calibrationValid || !watchdog || old(deadlinePending))
      ensures Now() == if refused then Gate(config, old(Now()), call) else old(Now())
    {
      hide SwitchesMatch;
      refused := true;
      if !storageValid {
        Enter(Fault, StorageInvalid);
      } else if !calibrationValid {
        Enter(Fault, CalibrationRequired);
      } else if !watchdog {
        Drop(Fault, WatchdogUnavailable);
      } else if deadlinePending {
        deadlinePending := false;
      } else {
        refused := false;
      }
    }

    /** The checks on the inputs, the battery and the module. */
    method Unfit(call: GateCall) returns (unfit: bool)
      requires Indexed(call.model) && storageValid && calibrationValid && watchdog && !deadlinePending
      modifies this`requested, this`healthy, this`status
      ensures unfit == !BaseOk(config, old(Now()), call)
      ensures Now() == if unfit then Gate(config, old(Now()), call) else old(Now())
    {
      hide SwitchesMatch;
      unfit := true;
      if !call.inputs.valid {
        Drop(Locked, InputsInvalid);
      } else if call.now < call.inputs.sampledAt || call.now - call.inputs.sampledAt > config.maximumInputAge {
        status := status.(staleFrames := (status.staleFrames + 1) % 0x1_0000_0000);
        Drop(Locked, InputsStale);
      } else if status.batteryMv != 0 && status.batteryMv < config.minimumBattery {
        Drop(Fault, BatteryCritical);
      } else if !moduleReady {
        requested := false;
        healthy := 0;
        if !status.state.Fault? {
          Enter(Locked, ModuleOffline);
        }
      } else {
        unfit := false;
      }
    }

    method GateNow(call: GateCall) returns (f: Frame)
      requires Valid() && Indexed(call.model)
      modifies this`deadlinePending, this`requested, this`healthy, this`status
      ensures Now() == Step(config, old(Now()), GateEvent(call)) && Valid()
      ensures f == Gated(config, old(Now()), call)
    {
      StepKeepsInv(config, Now(), GateEvent(call));
      hide Inv, SwitchesMatch, ThrottleLow, Fresh, BatteryOk;
      var low := call.inputs.axes[call.model.head.throttleAxis] <= config.throttleSafe;
      assert low == ThrottleLow(config, call);
      var refused := Refused(call);
      if refused {
        f := BuildSafeFrame(call);
        return;
      }
      var unfit := Unfit(call);
      if unfit {
        f := BuildSafeFrame(call);
        return;
      }
      var matching := true;
      if !status.state.Enabled? {
        matching := SwitchesOk(call.model, call.inputs);
      }
      if !matching {
        healthy := 0;
        Enter(Locked, SwitchMismatch);
        f := BuildSafeFrame(call);
        return;
      }
      if !low && !status.state.Enabled? {
        healthy := 0;
        Enter(Locked, ThrottleHigh);
        f := BuildSafeFrame(call);
        return;
      }
      f := CountCycle(call);
    }

    method CountCycle(call: GateCall) returns (f: Frame)
      requires Indexed(call.model)
      modifies this`healthy, this`status
      ensures Now() == Counted(config, old(Now()))
      ensures f == if status.state.Enabled? then call.proposed else SafeFrame(call)
    {
      if healthy < config.healthyCycles as int {
        healthy := healthy + 1;
      }
      if healthy >= config.healthyCycles as int {
        Enter(if requested then Enabled else Ready, NoReason);
      }
      if status.state.Enabled? {
        f := call.proposed;
      } else {
        f := BuildSafeFrame(call);
      }
    }

    method BeginMaintenanceNow() returns (begun: bool)
      requires Valid()
      modifies this`maintenance, this`requested
      ensures begun == MaintenanceFree(old(Now()))
      ensures Now() == Step(config, old(Now()), BeginMaintenance) && Valid()
    {
      if maintenance || status.state.Enabled? {
        return false;
      }
      maintenance := true;
      requested := false;
      begun := true;
    }

    method EndMaintenanceNow()
      requires Valid()
      modifies this`maintenance
      ensures Now() == Step(config, old(Now()), EndMaintenance) && Valid()
    {
      maintenance := false;
    }
  }
}
