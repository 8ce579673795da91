/** Everything that changes a model while the radio runs: edits on the screens, trims, instant trims, a
    captured failsafe, and values taken over.  Each maps a valid model to a valid one. */
module RuntimeModel {
  import opened Bits
  import opened Wire
  import opened Model
  import opened Safety
  import opened CrsfPacking
  import Mixer

  const TRIM_AXES := 4
  const FIRST_TRIM_SWITCH := 8
  const TRIM_LIMIT := 512
  const TRIM_STEP := 8
  const TRIM_INITIAL_REPEAT_US := 500000
  const TRIM_REPEAT_US := 100000

  // ---------------------------------------------------------------- edits on the screens

  /** The fields a screen can change. */
  datatype Field =
    | ModelId | ThrottleAxis | ThrottleChannel | VrxBand | VrxChannel | Overlay | RfLock
    | InputWeight(i: nat) | InputExpo(i: nat) | MixWeight(i: nat) | MixOffset(i: nat)
    | OutputMinimum(i: nat) | OutputMaximum(i: nat) | OutputSubtrim(i: nat) | OutputReversed(i: nat)
    | LogicalThreshold(i: nat) | LogicalDelay(i: nat) | SpecialEnabled(i: nat) | SpecialParameter(i: nat)
    | TimerStart(i: nat) | ModeTrim(i: nat, axis: nat) | CurvePoint(i: nat, point: nat)
    | UnknownField

  /** A field and the value the screen sends for it. */
  datatype Edit = Edit(field: Field, v: int32)

  datatype Edited = Rejected | Accepted(model: Model)

  function EditHead(m: Model, e: Edit): Edited {
    var v := e.v;
    match e.field
    case ModelId => if 0 <= v <= 63 then Accepted(m.(head := m.head.(modelId := v))) else Rejected
    case ThrottleAxis => if 0 <= v <= 7 then Accepted(m.(head := m.head.(throttleAxis := v))) else Rejected
    case ThrottleChannel =>
      if 1 <= v <= 16 then Accepted(m.(head := m.head.(throttleChannel := v - 1))) else Rejected
    case VrxBand => if 0 <= v <= 5 then Accepted(m.(video := m.video.(band := v))) else Rejected
    case VrxChannel => if 1 <= v <= 8 then Accepted(m.(video := m.video.(channel := v - 1))) else Rejected
    case Overlay => if 0 <= v <= 1 then Accepted(m.(video := m.video.(overlay := v != 0))) else Rejected
    case RfLock => if 0 <= v <= 1 then Accepted(m.(video := m.video.(rfLock := v != 0))) else Rejected
    case _ => Rejected
  }

  function EditLine(m: Model, e: Edit): Edited
    requires HeadOk(m.head)
  {
    var v := e.v;
    match e.field
    case InputWeight(i) =>
      if i < m.head.inputCount as int && -100 <= v <= 100 then
        Accepted(m.(inputs := m.inputs[i := m.inputs[i].(weightPercent := v)])) else Rejected
    case InputExpo(i) =>
      if i < m.head.inputCount as int && -100 <= v <= 100 then
        Accepted(m.(inputs := m.inputs[i := m.inputs[i].(expoPercent := v)])) else Rejected
    case MixWeight(i) =>
      if i < m.head.mixCount as int && -100 <= v <= 100 then
        Accepted(m.(mixes := m.mixes[i := m.mixes[i].(weightPercent := v)])) else Rejected
    case MixOffset(i) =>
      if i < m.head.mixCount as int && InResolution(v) then
        Accepted(m.(mixes := m.mixes[i := m.mixes[i].(offset := v)])) else Rejected
    case LogicalThreshold(i) =>
      if i < m.head.logicalCount as int && InResolution(v) then
        Accepted(m.(logicals := m.logicals[i := m.logicals[i].(threshold := v)])) else Rejected
    case LogicalDelay(i) =>
      if i < m.head.logicalCount as int && 0 <= v <= 65535 then
        Accepted(m.(logicals := m.logicals[i := m.logicals[i].(delayMs := v)])) else Rejected
    case SpecialEnabled(i) =>
      if i < m.head.specialCount as int && 0 <= v <= 1 then
        Accepted(m.(specials := m.specials[i := m.specials[i].(enabled := v != 0)])) else Rejected
    case SpecialParameter(i) =>
      if i < m.head.specialCount as int && -32768 <= v <= 32767 then
        Accepted(m.(specials := m.specials[i := m.specials[i].(parameter := v)])) else Rejected
    case TimerStart(i) =>
      if i < MAX_TIMERS && -86400 <= v <= 86400 then
        Accepted(m.(timers := m.timers[i := m.timers[i].(startSeconds := v)])) else Rejected
    case _ => Rejected
  }

  /** Limits must stay in order, whichever of the four fields is edited. */
  function EditOutput(m: Model, e: Edit): Edited {
    var v := e.v;
    match e.field
    case OutputMinimum(i) =>
      if i < CHANNEL_COUNT && InResolution(v) then WithOutput(m, i, m.outputs[i].(minimum := v)) else Rejected
    case OutputMaximum(i) =>
      if i < CHANNEL_COUNT && InResolution(v) then WithOutput(m, i, m.outputs[i].(maximum := v)) else Rejected
    case OutputSubtrim(i) =>
      if i < CHANNEL_COUNT && InResolution(v) then WithOutput(m, i, m.outputs[i].(subtrim := v)) else Rejected
    case OutputReversed(i) =>
      if i < CHANNEL_COUNT && 0 <= v <= 1 then WithOutput(m, i, m.outputs[i].(reversed := v != 0)) else Rejected
    case _ => Rejected
  }

  function WithOutput(m: Model, i: nat, output: OutputLimit): Edited
    requires i < CHANNEL_COUNT
  {
    if output.minimum <= output.maximum then Accepted(m.(outputs := m.outputs[i := output])) else Rejected
  }

  function EditPoint(m: Model, e: Edit): Edited
    requires HeadOk(m.head)
  {
    var v := e.v;
    match e.field
    case ModeTrim(i, axis) =>
      if i < m.head.modeCount as int && axis < MAX_AXES && InResolution(v) then
        Accepted(m.(modes := m.modes[i := m.modes[i].(trims := m.modes[i].trims[axis := v])])) else Rejected
    case CurvePoint(i, point) =>
      if i < m.head.curveCount as int && point < CURVE_POINTS && InResolution(v) then
        Accepted(m.(curves := m.curves[i := m.curves[i].(points := m.curves[i].points[point := v])])) else Rejected
    case _ => Rejected
  }

  /** `apply_model_change`. */
  function Apply(m: Model, e: Edit): Edited
    requires HeadOk(m.head)
  {
    match e.field
    case OutputMinimum(_) => EditOutput(m, e)
    case OutputMaximum(_) => EditOutput(m, e)
    case OutputSubtrim(_) => EditOutput(m, e)
    case OutputReversed(_) => EditOutput(m, e)
    case ModeTrim(_, _) => EditPoint(m, e)
    case CurvePoint(_, _) => EditPoint(m, e)
    case ModelId => EditHead(m, e)
    case ThrottleAxis => EditHead(m, e)
    case ThrottleChannel => EditHead(m, e)
    case VrxBand => EditHead(m, e)
    case VrxChannel => EditHead(m, e)
    case Overlay => EditHead(m, e)
    case RfLock => EditHead(m, e)
    case _ => EditLine(m, e)
  }

  // An accepted edit keeps the model valid.

  lemma HeadEditValid(m: Model, e: Edit)
    requires Valid(m) && EditHead(m, e).Accepted?
    ensures Valid(EditHead(m, e).model)
  {
    hide SwitchOk, SourceOk;
  }

  lemma LineEditValid(m: Model, e: Edit)
    requires Valid(m) && EditLine(m, e).Accepted?
    ensures Valid(EditLine(m, e).model)
  {
    hide SwitchOk, SourceOk, OutputOk, ModeOk, ValuesOk, VideoOk;
    if e.field.InputWeight? || e.field.InputExpo? {
      InputEditValid(m, e);
    } else if e.field.MixWeight? || e.field.MixOffset? {
      MixEditValid(m, e);
    } else if e.field.LogicalThreshold? || e.field.LogicalDelay? {
      LogicalEditValid(m, e);
    } else {
      hide InputOk, MixOk, LogicalOk;
    }
  }

  lemma InputEditValid(m: Model, e: Edit)
    requires Valid(m) && EditLine(m, e).Accepted? && (e.field.InputWeight? || e.field.InputExpo?)
    ensures Valid(EditLine(m, e).model)
  {
    hide SwitchOk, SourceOk, OutputOk, ModeOk, ValuesOk, VideoOk, MixOk, LogicalOk, TimerOk, SpecialOk;
  }

  lemma MixEditValid(m: Model, e: Edit)
    requires Valid(m) && EditLine(m, e).Accepted? && (e.field.MixWeight? || e.field.MixOffset?)
    ensures Valid(EditLine(m, e).model)
  {
    hide SwitchOk, SourceOk, OutputOk, ModeOk, ValuesOk, VideoOk, InputOk, LogicalOk, TimerOk, SpecialOk;
  }

  lemma LogicalEditValid(m: Model, e: Edit)
    requires Valid(m) && EditLine(m, e).Accepted? && (e.field.LogicalThreshold? || e.field.LogicalDelay?)
    ensures Valid(EditLine(m, e).model)
  {
    hide SwitchOk, SourceOk, OutputOk, ModeOk, ValuesOk, VideoOk, InputOk, MixOk, TimerOk, SpecialOk;
  }

  lemma OutputEditValid(m: Model, e: Edit)
    requires Valid(m) && EditOutput(m, e).Accepted?
    ensures Valid(EditOutput(m, e).model)
  {
    hide SwitchOk, SourceOk;
  }

  lemma PointEditValid(m: Model, e: Edit)
    requires Valid(m) && EditPoint(m, e).Accepted?
    ensures Valid(EditPoint(m, e).model)
  {
    hide SwitchOk, SourceOk;
  }

  lemma EditKeepsValid(m: Model, e: Edit)
    requires Valid(m) && Apply(m, e).Accepted?
    ensures Valid(Apply(m, e).model)
  {
    ValidParts(m);
    hide Valid, EditHead, EditLine, EditOutput, EditPoint;
    if EditHead(m, e).Accepted? {
      HeadEditValid(m, e);
    }
    if EditLine(m, e).Accepted? {
      LineEditValid(m, e);
    }
    if EditOutput(m, e).Accepted? {
      OutputEditValid(m, e);
    }
    if EditPoint(m, e).Accepted? {
      PointEditValid(m, e);
    }
  }

  /** An output edit whose value is in range is refused exactly when the model would stop being valid. */
  lemma OutputEditRefused(m: Model, i: nat, v: int16)
    requires Valid(m) && i < CHANNEL_COUNT && InResolution(v)
    ensures Apply(m, Edit(OutputMinimum(i), v)).Rejected? <==>
              !Valid(m.(outputs := m.outputs[i := m.outputs[i].(minimum := v)]))
    ensures Apply(m, Edit(OutputMaximum(i), v)).Rejected? <==>
              !Valid(m.(outputs := m.outputs[i := m.outputs[i].(maximum := v)]))
  {
    var low := m.(outputs := m.outputs[i := m.outputs[i].(minimum := v)]);
    var high := m.(outputs := m.outputs[i := m.outputs[i].(maximum := v)]);
    if Apply(m, Edit(OutputMinimum(i), v)).Accepted? {
      EditKeepsValid(m, Edit(OutputMinimum(i), v));
    } else {
      assert !OutputOk(low.outputs[i]);
    }
    if Apply(m, Edit(OutputMaximum(i), v)).Accepted? {
      EditKeepsValid(m, Edit(OutputMaximum(i), v));
    } else {
      assert !OutputOk(high.outputs[i]);
    }
    hide SwitchOk, SourceOk, InputOk, MixOk, LogicalOk, ModeOk, TimerOk, SpecialOk;
  }

  // ---------------------------------------------------------------- trims

  type Directions = s: seq<int> | |s| == 4 witness [0, 0, 0, 0]
  type Times = s: seq<nat> | |s| == 4 witness [0, 0, 0, 0]

  datatype TrimState = TrimState(previous: Directions, nextRepeat: Times, initialized: bool)

  function TrimReset(): TrimState {
    TrimState([0, 0, 0, 0], [0, 0, 0, 0], false)
  }

  /** -1 and 1 for one switch of the pair, 2 for both. */
  function Direction(inputs: Controls, axis: nat): int
    requires axis < TRIM_AXES
  {
    var negative := inputs.switches[FIRST_TRIM_SWITCH + axis * 2];
    var positive := inputs.switches[FIRST_TRIM_SWITCH + axis * 2 + 1];
    if negative && positive then 2 else if negative then -1 else if positive then 1 else 0
  }

  predicate Single(direction: int) {
    direction == -1 || direction == 1
  }

  /** A press acts at once, and again after the repeat delays while it lasts. */
  predicate Acts(s: TrimState, direction: int, axis: nat, now: nat)
    requires axis < TRIM_AXES
  {
    if direction != s.previous[axis] then direction != 0
    else Single(direction) && s.nextRepeat[axis] != 0 && now >= s.nextRepeat[axis]
  }

  function NextRepeat(s: TrimState, direction: int, axis: nat, now: nat): nat
    requires axis < TRIM_AXES
  {
    if direction != s.previous[axis] then if Single(direction) then now + TRIM_INITIAL_REPEAT_US else 0
    else if Acts(s, direction, axis, now) then now + TRIM_REPEAT_US
    else s.nextRepeat[axis]
  }

  function Trimmed(before: int16, direction: int): int16 {
    if direction == 2 then 0 else Clamp(-TRIM_LIMIT, before + direction * TRIM_STEP, TRIM_LIMIT)
  }

  function Trims(s: TrimState, trims: AxisValues, inputs: Controls, now: nat): AxisValues {
    seq(8, i requires 0 <= i < 8 =>
      if i < TRIM_AXES && Acts(s, Direction(inputs, i), i, now) then Trimmed(trims[i], Direction(inputs, i))
      else trims[i])
  }

  predicate TrimsIdle(m: Model, mode: nat, inputs: Controls) {
    !inputs.valid || mode >= m.head.modeCount as int || mode >= MAX_FLIGHT_MODES
  }

  function TrimModel(m: Model, s: TrimState, mode: nat, inputs: Controls, now: nat): Model {
    if TrimsIdle(m, mode, inputs) || !s.initialized then m
    else m.(modes := m.modes[mode := m.modes[mode].(trims := Trims(s, m.modes[mode].trims, inputs, now))])
  }

  function TrimNext(m: Model, s: TrimState, mode: nat, inputs: Controls, now: nat): TrimState {
    if TrimsIdle(m, mode, inputs) then s
    else if !s.initialized then s.(previous := AllDirections(inputs), initialized := true)
    else TrimState(AllDirections(inputs), AllRepeats(s, inputs, now), true)
  }

  function AllDirections(inputs: Controls): Directions {
    [Direction(inputs, 0), Direction(inputs, 1), Direction(inputs, 2), Direction(inputs, 3)]
  }

  function AllRepeats(s: TrimState, inputs: Controls, now: nat): Times {
    [NextRepeat(s, Direction(inputs, 0), 0, now), NextRepeat(s, Direction(inputs, 1), 1, now),
     NextRepeat(s, Direction(inputs, 2), 2, now), NextRepeat(s, Direction(inputs, 3), 3, now)]
  }

  lemma TrimKeepsValid(m: Model, s: TrimState, mode: nat, inputs: Controls, now: nat)
    requires Valid(m)
    ensures Valid(TrimModel(m, s, mode, inputs, now))
  {
    hide SwitchOk, SourceOk, InputOk, MixOk, LogicalOk, TimerOk, SpecialOk, OutputOk, Direction, Acts;
    if !TrimsIdle(m, mode, inputs) && s.initialized {
      assert ModeOk(m.modes[mode]);
    }
  }

  /** One step moves a trim inside its limit by at most one step, or centres it; held without a change, a
      trim moves again only after the repeat time. */
  lemma TrimMovesLittle(m: Model, s: TrimState, mode: nat, inputs: Controls, now: nat, axis: nat)
    requires Valid(m) && mode < m.head.modeCount as int && axis < MAX_AXES
    ensures var before, after := m.modes[mode].trims[axis], TrimModel(m, s, mode, inputs, now).modes[mode].trims[axis];
      && (-TRIM_LIMIT <= before <= TRIM_LIMIT ==> after == 0 || -TRIM_STEP <= after - before <= TRIM_STEP)
      && (after != before ==> axis < TRIM_AXES && -TRIM_LIMIT <= after <= TRIM_LIMIT)
      && (after != before && Direction(inputs, axis) == s.previous[axis] ==> now >= s.nextRepeat[axis])
  {
    hide Valid;
  }

  /** One step down or up, within the limit. */
  function Stepped(trim: int, step: int): int {
    if trim + step < -512 then -512 else if trim + step > 512 then 512 else trim + step
  }

  /** The first switch of an axis steps its trim down by eight and the second up by eight, at once when it is pressed
      alone, then half a second later and every tenth of a second while it is held; pressing both centres the trim
      once; and nothing else moves it. */
  lemma TrimSteps(m: Model, s: TrimState, mode: nat, inputs: Controls, now: nat, axis: nat)
    requires mode < m.head.modeCount as int <= 5 && axis < 4 && inputs.valid && s.initialized
    ensures var before, after := m.modes[mode].trims[axis], TrimModel(m, s, mode, inputs, now).modes[mode].trims[axis];
      var down, up := inputs.switches[8 + 2 * axis], inputs.switches[9 + 2 * axis];
      var s' := TrimNext(m, s, mode, inputs, now);
      var pressed := if down && up then 2 else if down then -1 else if up then 1 else 0;
      var due := s.nextRepeat[axis] != 0 && now >= s.nextRepeat[axis];
      && s'.initialized && s'.previous[axis] == pressed
      && (!down && !up ==> after == before)
      && (down && up ==> after == if s.previous[axis] == 2 then before else 0)
      && (down != up && s.previous[axis] != pressed ==>
            after == Stepped(before, if up then 8 else -8) && s'.nextRepeat[axis] == now + 500000)
      && (down != up && s.previous[axis] == pressed && due ==>
            after == Stepped(before, if up then 8 else -8) && s'.nextRepeat[axis] == now + 100000)
      && (down != up && s.previous[axis] == pressed && !due ==>
            after == before && s'.nextRepeat[axis] == s.nextRepeat[axis])
  {
    assert axis == 0 || axis == 1 || axis == 2 || axis == 3;
  }

  // ---------------------------------------------------------------- instant trim and captured failsafe

  /** The sticks' positions become the trims of the active flight mode. */
  function InstantTrim(m: Model, mode: nat, axes: AxisValues): Model
    requires mode < MAX_FLIGHT_MODES
  {
    m.(modes := m.modes[mode := m.modes[mode].(trims :=
      seq(8, i requires 0 <= i < 8 => Clamp(-RESOLUTION, (m.modes[mode].trims[i] as int) - axes[i], RESOLUTION)))])
  }

  function CaptureFailsafe(m: Model, frame: Channels): Model {
    m.(outputs := seq(16, i requires 0 <= i < 16 => m.outputs[i].(failsafe := frame[i])))
  }

  lemma InstantTrimKeepsValid(m: Model, mode: nat, axes: AxisValues)
    requires Valid(m) && mode < m.head.modeCount as int
    ensures Valid(InstantTrim(m, mode, axes))
  {
    hide SwitchOk, SourceOk, InputOk, MixOk, LogicalOk, TimerOk, SpecialOk, OutputOk;
    assert ModeOk(m.modes[mode]);
  }

  /** The instant trim takes a stick's position out of the trim, as far as the trim reaches: position and new trim
      give the old trim.  It changes nothing but the trims of its mode. */
  lemma InstantTrimTakesOver(m: Model, mode: nat, axes: AxisValues, i: nat)
    requires mode < MAX_FLIGHT_MODES && i < MAX_AXES
    ensures var r := InstantTrim(m, mode, axes);
      var old', new' := m.modes[mode].trims[i] as int, r.modes[mode].trims[i] as int;
      && (-1024 <= old' - axes[i] <= 1024 ==> axes[i] + new' == old')
      && (old' - axes[i] > 1024 ==> new' == 1024) && (old' - axes[i] < -1024 ==> new' == -1024)
      && r == m.(modes := r.modes) && (forall k :: 0 <= k < 5 && k != mode ==> r.modes[k] == m.modes[k])
      && r.modes[mode] == m.modes[mode].(trims := r.modes[mode].trims)
  {
  }

  /** A radio that locks after a failsafe was captured sends the frame that was captured, but for the throttle and
      channel 5, which are always low; and the capture changes nothing but the failsafe values. */
  lemma CapturedIsSent(m: Model, frame: Channels, call: GateCall, i: nat)
    requires Indexed(m) && call.model == CaptureFailsafe(m, frame) && i < 16
    ensures SafeFrame(call).channels[i] == if i == m.head.throttleChannel as int || i == 4 then -1024 else frame[i]
    ensures call.model == m.(outputs := call.model.outputs)
    ensures call.model.outputs[i] == m.outputs[i].(failsafe := frame[i])
  {
  }

  /** What is captured is a frame within the limits, so it is a failsafe within the limits too. */
  lemma CaptureKeepsValid(m: Model, frame: Channels)
    requires Valid(m) && Mixer.Within(m, frame)
    ensures Valid(CaptureFailsafe(m, frame))
    ensures Mixer.Within(CaptureFailsafe(m, frame), frame)
  {
    hide SwitchOk, SourceOk, InputOk, MixOk, LogicalOk, TimerOk, SpecialOk, ModeOk;
    var m' := CaptureFailsafe(m, frame);
    forall i | 0 <= i < CHANNEL_COUNT ensures OutputOk(m'.outputs[i]) {
      assert OutputOk(m.outputs[i]);
      assert m.outputs[i].minimum <= frame[i] <= m.outputs[i].maximum;
    }
  }

  // ---------------------------------------------------------------- values taken over from the model in use

  /** All five modes have their trims in range, also those the model does not use. */
  predicate TrimsOk(m: Model) {
    forall i :: 0 <= i < MAX_FLIGHT_MODES ==> ValuesOk(m.modes[i].trims)
  }

  predicate Fine(m: Model) {
    Valid(m) && TrimsOk(m)
  }

  /** `edited` with the trims and failsafe values of `runtime`. */
  function WithValues(edited: Model, runtime: Model): Model {
    edited.(
      modes := seq(5, i requires 0 <= i < 5 => edited.modes[i].(trims := runtime.modes[i].trims)),
      outputs := seq(16, i requires 0 <= i < 16 => edited.outputs[i].(failsafe := runtime.outputs[i].failsafe)))
  }

  lemma WithValuesIsFine(edited: Model, runtime: Model)
    requires Fine(edited) && Fine(runtime)
    ensures Fine(WithValues(edited, runtime))
  {
    hide SwitchOk, SourceOk, InputOk, MixOk, LogicalOk, TimerOk, SpecialOk;
    var m := WithValues(edited, runtime);
    forall i | 0 <= i < CHANNEL_COUNT ensures OutputOk(m.outputs[i]) {
      assert OutputOk(edited.outputs[i]) && OutputOk(runtime.outputs[i]);
    }
  }

  /** Trims and failsafe values are the running model's, everything else is the edited one's. */
  lemma ValuesTaken(edited: Model, runtime: Model, i: nat)
    ensures var m := WithValues(edited, runtime);
      && m == edited.(modes := m.modes, outputs := m.outputs)
      && (i < 5 ==> m.modes[i] == edited.modes[i].(trims := runtime.modes[i].trims))
      && (i < 16 ==> m.outputs[i] == edited.outputs[i].(failsafe := runtime.outputs[i].failsafe))
  {
  }

  // ---------------------------------------------------------------- what the mixer sees of a change

  /** The limits of the outputs are the same in both models. */
  predicate SameLimits(a: Model, b: Model) {
    forall i :: 0 <= i < 16 ==>
      a.outputs[i].minimum == b.outputs[i].minimum && a.outputs[i].maximum == b.outputs[i].maximum
  }

  lemma LimitsCarry(a: Model, b: Model, s: Mixer.State)
    requires SameLimits(a, b) && Mixer.Inv(a, s)
    ensures Mixer.Inv(b, s)
  {
  }

  lemma ValidParts(m: Model)
    requires Valid(m)
    ensures HeadOk(m.head) && Mixer.LimitsOk(m)
  {
  }

  lemma TrimKeepsLimits(m: Model, s: TrimState, mode: nat, inputs: Controls, now: nat)
    ensures SameLimits(m, TrimModel(m, s, mode, inputs, now)) && TrimModel(m, s, mode, inputs, now).head == m.head
  {
  }

  lemma InstantKeepsLimits(m: Model, mode: nat, axes: AxisValues)
    requires mode < MAX_FLIGHT_MODES
    ensures SameLimits(m, InstantTrim(m, mode, axes)) && InstantTrim(m, mode, axes).head == m.head
  {
  }

  lemma CaptureKeepsLimits(m: Model, frame: Channels)
    ensures SameLimits(m, CaptureFailsafe(m, frame)) && CaptureFailsafe(m, frame).head == m.head
  {
  }

  lemma ResetInv(m: Model)
    requires Valid(m)
    ensures Mixer.Inv(m, Mixer.Reset()) && Mixer.Reset().previousMode < m.head.modeCount as int
  {
  }
}
