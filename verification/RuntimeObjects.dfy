/** The mixer's output stage, the trim controller and the model they work on as objects, with the loops
    over channels and axes. */
module RuntimeObjects {
  import opened Bits
  import opened Wire
  import opened Model
  import opened Safety
  import opened CrsfPacking
  import Mixer
  import opened RuntimeModel

  class MixerOutput {
    const previous: array<int16>
    const fadeFrom: array<int16>
    var initialized: bool
    var previousMode: nat
    var transition: nat
    var duration: nat
    var sequence: nat

    ghost predicate Sized()
    {
      previous.Length == 16 && fadeFrom.Length == 16 && previous != fadeFrom
    }

    ghost function View(): Mixer.State
      reads this, previous, fadeFrom
      requires Sized()
    {
      Mixer.State(previous[..], fadeFrom[..], initialized, previousMode, transition, duration, sequence)
    }

    constructor ()
      ensures Sized() && View() == Mixer.Reset() && fresh(previous) && fresh(fadeFrom)
    {
      previous := new int16[16](_ => 0);
      fadeFrom := new int16[16](_ => 0);
      initialized, previousMode, transition, duration, sequence := false, 0, 0, 0, 0;
    }

    /** Start a fade when the flight mode has changed. */
    method EnterMode(m: Model, mode: nat, now: nat)
      requires Sized() && mode < 5 && previousMode < 5
      modifies this, fadeFrom
      ensures View() == Mixer.Entered(m, old(View()), mode, now)
    {
      if !initialized {
        previousMode, initialized := mode, true;
      } else if mode != previousMode {
        for i := 0 to 16
          invariant forall k :: 0 <= k < i ==> fadeFrom[k] == Clamp(-RESOLUTION, previous[k], RESOLUTION)
          invariant previous[..] == old(previous[..]) && unchanged(this)
        {
          fadeFrom[i] := Clamp(-RESOLUTION, previous[i], RESOLUTION);
        }
        assert fadeFrom[..] == Mixer.Entered(m, old(View()), mode, now).fadeFrom;
        var fadeOut: int, fadeIn: int := m.modes[previousMode].fadeOutMs, m.modes[mode].fadeInMs;
        duration := 1000 * (if fadeOut > fadeIn then fadeOut else fadeIn);
        transition, previousMode := now, mode;
      }
    }

    /** The frame's channels, and the frame kept as the one before the next. */
    method EvaluateNow(m: Model, mode: nat, sums: Mixer.Sums, now: nat) returns (frame: Frame)
      requires Sized() && mode < 5 && previousMode < 5 && Mixer.LimitsOk(m)
      modifies this, previous, fadeFrom
      ensures View() == Mixer.Evaluate(m, old(View()), mode, sums, now)
      ensures frame == Frame(View().previous, now, View().sequence, false)
    {
      hide Mixer.Limited, Mixer.Faded;
      EnterMode(m, mode, now);
      ghost var entered := View();
      ghost var output := Mixer.Output(m, entered, sums, now);
      ghost var over :=
        entered.duration != 0 && now >= entered.transition && now - entered.transition >= entered.duration;
      var channels := Limit(m, sums);
      channels := Fade(channels, now);
      assert channels == Mixer.Output(m, entered, sums, now);
      if duration != 0 && now >= transition && now - transition >= duration {
        duration := 0;
      }
      Remember(channels);
      sequence := (sequence + 1) % 0x1_0000_0000;
      frame := Frame(channels, now, sequence, false);
    }

    method Limit(m: Model, sums: Mixer.Sums) returns (channels: Channels)
      requires Mixer.LimitsOk(m)
      ensures channels == Mixer.Targets(m, sums)
    {
      channels := Mixer.Zeros();
      for i := 0 to 16
        invariant forall k :: 0 <= k < i ==> channels[k] == Mixer.Limited(m.outputs[k], sums[k])
      {
        var output := m.outputs[i];
        var value := Clamp(-RESOLUTION, sums[i], RESOLUTION);
        if output.reversed {
          value := -value;
        }
        value := Clamp(output.minimum, value + output.subtrim, output.maximum);
        channels := channels[i := value];
      }
    }

    method Fade(targets: Channels, now: nat) returns (channels: Channels)
      requires Sized()
      ensures channels == Mixer.FadedAll(View(), targets, now)
    {
      hide Mixer.Faded;
      channels := targets;
      if duration != 0 && now >= transition {
        var elapsed := now - transition;
        if elapsed < duration {
          for i := 0 to 16
            invariant forall k :: 0 <= k < i ==> channels[k] == Mixer.Faded(fadeFrom[k], targets[k], elapsed, duration)
            invariant forall k :: i <= k < 16 ==> channels[k] == targets[k]
          {
            channels := channels[i := Mixer.Faded(fadeFrom[i], channels[i], elapsed, duration)];
          }
          assert channels == Mixer.FadedAll(View(), targets, now);
        }
      }
    }

    method Remember(channels: Channels)
      requires Sized()
      modifies previous
      ensures View() == old(View()).(previous := channels)
    {
      for i := 0 to 16
        invariant forall k :: 0 <= k < i ==> previous[k] == channels[k]
        invariant fadeFrom[..] == old(fadeFrom[..])
      {
        previous[i] := channels[i];
      }
      assert previous[..] == channels;
    }
  }

  class TrimController {
    const previous: array<int>
    const nextRepeat: array<nat>
    var initialized: bool

    ghost predicate Sized()
    {
      previous.Length == 4 && nextRepeat.Length == 4
    }

    ghost function View(): TrimState
      reads this, previous, nextRepeat
      requires Sized()
    {
      TrimState(previous[..], nextRepeat[..], initialized)
    }

    constructor ()
      ensures Sized() && View() == TrimReset() && fresh(previous) && fresh(nextRepeat)
    {
      previous := new int[4](_ => 0);
      nextRepeat := new nat[4](_ => 0);
      initialized := false;
    }

    method Update(m: Model, mode: nat, inputs: Controls, now: nat) returns (updated: Model)
      requires Sized()
      modifies this, previous, nextRepeat
      ensures updated == TrimModel(m, old(View()), mode, inputs, now)
      ensures View() == TrimNext(m, old(View()), mode, inputs, now)
    {
      hide Direction, Acts, NextRepeat, Trimmed;
      updated := m;
      if !inputs.valid || mode >= m.head.modeCount as int || mode >= MAX_FLIGHT_MODES {
        return;
      }
      if !initialized {
        for axis := 0 to TRIM_AXES
          invariant forall k :: 0 <= k < axis ==> previous[k] == Direction(inputs, k)
          invariant nextRepeat[..] == old(nextRepeat[..]) && unchanged(this)
        {
          previous[axis] := Direction(inputs, axis);
        }
        initialized := true;
        assert previous[..] == AllDirections(inputs);
        return;
      }
      ghost var s := View();
      var trims := m.modes[mode].trims;
      for axis := 0 to TRIM_AXES
        invariant unchanged(this)
        invariant forall k :: 0 <= k < axis ==>
          previous[k] == Direction(inputs, k) && nextRepeat[k] == NextRepeat(s, Direction(inputs, k), k, now)
        invariant forall k :: axis <= k < 4 ==> previous[k] == s.previous[k] && nextRepeat[k] == s.nextRepeat[k]
        invariant forall k :: 0 <= k < 8 ==>
          trims[k] == if k < axis then Trims(s, m.modes[mode].trims, inputs, now)[k] else m.modes[mode].trims[k]
      {
        trims := StepAxis(axis, trims, inputs, now, s);
      }
      assert previous[..] == AllDirections(inputs) && nextRepeat[..] == AllRepeats(s, inputs, now);
      assert trims == Trims(s, m.modes[mode].trims, inputs, now);
      updated := m.(modes := m.modes[mode := m.modes[mode].(trims := trims)]);
    }

    method StepAxis(axis: nat, trims: AxisValues, inputs: Controls, now: nat, ghost s: TrimState)
      returns (after: AxisValues)
      requires Sized() && axis < TRIM_AXES
      requires previous[axis] == s.previous[axis] && nextRepeat[axis] == s.nextRepeat[axis]
      modifies previous, nextRepeat
      ensures previous[axis] == Direction(inputs, axis)
      ensures nextRepeat[axis] == NextRepeat(s, Direction(inputs, axis), axis, now)
      ensures forall k :: 0 <= k < 4 && k != axis ==>
        previous[k] == old(previous[k]) && nextRepeat[k] == old(nextRepeat[k])
      ensures after == if Acts(s, Direction(inputs, axis), axis, now)
                       then trims[axis := Trimmed(trims[axis], Direction(inputs, axis))] else trims
    {
      hide Direction, Trimmed;
      var direction := Direction(inputs, axis);
      var act := false;
      if direction != previous[axis] {
        act := direction != 0;
        nextRepeat[axis] := if direction == -1 || direction == 1 then now + TRIM_INITIAL_REPEAT_US else 0;
      } else if (direction == -1 || direction == 1) && nextRepeat[axis] != 0 && now >= nextRepeat[axis] {
        act := true;
        nextRepeat[axis] := now + TRIM_REPEAT_US;
      }
      previous[axis] := direction;
      after := if act then trims[axis := Trimmed(trims[axis], direction)] else trims;
    }
  }

  /** The model in memory, changed in place. */
  class ModelInUse {
    var model: Model

    constructor (m: Model)
      ensures model == m
    {
      model := m;
    }

    /** An edit is committed whole or not at all. */
    method ApplyEdit(e: Edit) returns (ok: bool)
      requires Valid(model)
      modifies this
      ensures Valid(model) && ok == Apply(old(model), e).Accepted?
      ensures model == if ok then Apply(old(model), e).model else old(model)
    {
      ValidParts(model);
      hide Valid, Apply;
      var candidate := Apply(model, e);
      ok := candidate.Accepted?;
      if ok {
        EditKeepsValid(model, e);
        model := candidate.model;
      }
    }

    method Capture(frame: Channels)
      requires Valid(model) && Mixer.Within(model, frame)
      modifies this
      ensures Valid(model) && model == CaptureFailsafe(old(model), frame)
    {
      CaptureKeepsValid(model, frame);
      hide Valid, Mixer.Within;
      var outputs := model.outputs;
      for i := 0 to CHANNEL_COUNT
        invariant forall k :: 0 <= k < i ==> outputs[k] == model.outputs[k].(failsafe := frame[k])
        invariant forall k :: i <= k < CHANNEL_COUNT ==> outputs[k] == model.outputs[k]
      {
        outputs := outputs[i := outputs[i].(failsafe := frame[i])];
      }
      assert outputs == CaptureFailsafe(model, frame).outputs;
      model := model.(outputs := outputs);
    }

    method TrimFromSticks(mode: nat, axes: AxisValues)
      requires Valid(model) && mode < model.head.modeCount as int
      modifies this
      ensures Valid(model) && model == InstantTrim(old(model), mode, axes)
    {
      ValidParts(model);
      InstantTrimKeepsValid(model, mode, axes);
      hide Valid;
      var trims := model.modes[mode].trims;
      for axis := 0 to MAX_AXES
        invariant forall k :: 0 <= k < axis ==>
          trims[k] == Clamp(-RESOLUTION, (model.modes[mode].trims[k] as int) - axes[k], RESOLUTION)
        invariant forall k :: axis <= k < MAX_AXES ==> trims[k] == model.modes[mode].trims[k]
      {
        trims := trims[axis := Clamp(-RESOLUTION, (trims[axis] as int) - axes[axis], RESOLUTION)];
      }
      assert trims == InstantTrim(model, mode, axes).modes[mode].trims;
      model := model.(modes := model.modes[mode := model.modes[mode].(trims := trims)]);
    }

    /** Trims of all modes and failsafe values are taken over from the model in use. */
    method TakeValues(runtime: Model)
      modifies this
      ensures model == WithValues(old(model), runtime)
      ensures Fine(old(model)) && Fine(runtime) ==> Fine(model)
    {
      hide Valid;
      var modes, outputs := model.modes, model.outputs;
      for mode := 0 to MAX_FLIGHT_MODES
        invariant forall k :: 0 <= k < mode ==> modes[k] == model.modes[k].(trims := runtime.modes[k].trims)
        invariant forall k :: mode <= k < MAX_FLIGHT_MODES ==> modes[k] == model.modes[k]
      {
        modes := modes[mode := modes[mode].(trims := runtime.modes[mode].trims)];
      }
      for channel := 0 to CHANNEL_COUNT
        invariant forall k :: 0 <= k < channel ==>
          outputs[k] == model.outputs[k].(failsafe := runtime.outputs[k].failsafe)
        invariant forall k :: channel <= k < CHANNEL_COUNT ==> outputs[k] == model.outputs[k]
      {
        outputs := outputs[channel := outputs[channel].(failsafe := runtime.outputs[channel].failsafe)];
      }
      assert modes == WithValues(model, runtime).modes && outputs == WithValues(model, runtime).outputs;
      if Fine(model) && Fine(runtime) {
        WithValuesIsFine(model, runtime);
      }
      model := model.(modes := modes, outputs := outputs);
    }
  }
}
