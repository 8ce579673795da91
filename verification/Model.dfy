/** The radio model: the plain records of `types.hpp` and the shape check that guards every
    encode and decode.  Enumerators are kept as the raw bytes the codec stores, so that an
    out-of-range enumerator can be represented and has to be rejected. */
module Model {
  import opened Bits
  import opened Wire

  const MAX_AXES := 8
  const MAX_INPUTS := 16
  const CHANNEL_COUNT := 16
  const MAX_SWITCHES := 16
  const FIRST_AUX_SWITCH := 4
  const AUX_SWITCH_COUNT := 4
  const MAX_LOGICAL_SWITCHES := 24
  const MAX_MIXES := 64
  const MAX_CURVES := 16
  const CURVE_POINTS := 9
  const MAX_FLIGHT_MODES := 5
  const MAX_GVARS := 9
  const MAX_TIMERS := 3
  const MAX_SPECIAL_FUNCTIONS := 24
  const MAX_TELEMETRY_SENSORS := 32
  const RESOLUTION := 1024
  const NAME_SIZE := 24

  // SourceKind
  const SOURCE_AXIS: byte := 0
  const SOURCE_INPUT: byte := 1
  const SOURCE_CHANNEL: byte := 2
  const SOURCE_CONSTANT: byte := 3
  const SOURCE_TELEMETRY: byte := 4
  const SOURCE_GVAR: byte := 5
  const SOURCE_SWITCH: byte := 6
  // SwitchPosition
  const POSITION_ACTIVE: byte := 0
  const POSITION_HIGH: byte := 3
  // The last enumerators of the remaining enumerations
  const MIX_REPLACE: byte := 2
  const LOGICAL_TIMER: byte := 10
  const TIMER_SWITCH: byte := 3
  const SPECIAL_ENTER_PASSTHROUGH: byte := 8

  type Name = s: seq<byte> | |s| == 24 witness seq(24, _ => 0)
  type AxisValues = s: seq<int16> | |s| == 8 witness seq(8, _ => 0)
  type GVarValues = s: seq<int16> | |s| == 9 witness seq(9, _ => 0)

  datatype SourceRef = SourceRef(kind: byte, index: byte, constant: int16)

  /** -1 is always active, 0..15 a physical switch, 16..39 a logical one. */
  datatype SwitchRef = SwitchRef(index: int8, inverted: bool, position: byte)

  datatype Curve = Curve(enabled: bool, points: GVarValues)

  datatype InputLine = InputLine(
    enabled: bool, sourceAxis: byte, destination: byte, weightPercent: int16, expoPercent: int8,
    curveIndex: int8, condition: SwitchRef, flightModeMask: byte)

  datatype MixLine = MixLine(
    enabled: bool, destination: byte, source: SourceRef, weightPercent: int16, offset: int16,
    curveIndex: int8, condition: SwitchRef, mode: byte, delayUpMs: uint16, delayDownMs: uint16,
    speedUpPerSecond: uint16, speedDownPerSecond: uint16, flightModeMask: byte, carryTrim: bool)

  datatype LogicalSwitch = LogicalSwitch(
    operation: byte, lhs: SourceRef, rhs: SourceRef, first: SwitchRef, second: SwitchRef,
    andCondition: SwitchRef, threshold: int16, delayMs: uint16, durationMs: uint16)

  datatype FlightMode = FlightMode(
    enabled: bool, condition: SwitchRef, trims: AxisValues, gvars: GVarValues,
    gvarOverrideMask: uint16, fadeInMs: uint16, fadeOutMs: uint16)

  datatype OutputLimit = OutputLimit(
    minimum: int16, maximum: int16, subtrim: int16, failsafe: int16, reversed: bool)

  datatype TimerConfig = TimerConfig(
    mode: byte, condition: SwitchRef, startSeconds: int32, countdown: bool, persistent: bool)

  datatype SpecialFunction = SpecialFunction(
    enabled: bool, condition: SwitchRef, action: byte, parameter: int16)

  const DEFAULT_SOURCE := SourceRef(SOURCE_CONSTANT, 0, 0)
  const DEFAULT_SWITCH := SwitchRef(-1, false, POSITION_ACTIVE)
  const DEFAULT_INPUT := InputLine(false, 0, 0, 100, 0, -1, DEFAULT_SWITCH, 0xFF)
  const DEFAULT_MIX := MixLine(
    false, 0, DEFAULT_SOURCE, 100, 0, -1, DEFAULT_SWITCH, 0, 0, 0, 0, 0, 0xFF, true)
  const DEFAULT_LOGICAL := LogicalSwitch(
    0, DEFAULT_SOURCE, DEFAULT_SOURCE, DEFAULT_SWITCH, DEFAULT_SWITCH, DEFAULT_SWITCH, 0, 0, 0)
  const DEFAULT_MODE := FlightMode(
    false, DEFAULT_SWITCH, [0, 0, 0, 0, 0, 0, 0, 0], [0, 0, 0, 0, 0, 0, 0, 0, 0], 0, 0, 0)
  const DEFAULT_CURVE := Curve(false, [-1024, -768, -512, -256, 0, 256, 512, 768, 1024])
  const DEFAULT_SPECIAL := SpecialFunction(false, DEFAULT_SWITCH, 0, 0)

  type Inputs = s: seq<InputLine> | |s| == 16 witness seq(16, _ => DEFAULT_INPUT)
  type Mixes = s: seq<MixLine> | |s| == 64 witness seq(64, _ => DEFAULT_MIX)
  type Logicals = s: seq<LogicalSwitch> | |s| == 24 witness seq(24, _ => DEFAULT_LOGICAL)
  type FlightModes = s: seq<FlightMode> | |s| == 5 witness seq(5, _ => DEFAULT_MODE)
  type Curves = s: seq<Curve> | |s| == 16 witness seq(16, _ => DEFAULT_CURVE)
  type Outputs = s: seq<OutputLimit> | |s| == 16
    witness seq(16, _ => OutputLimit(-1024, 1024, 0, 0, false))
  type Timers = s: seq<TimerConfig> | |s| == 3
    witness seq(3, _ => TimerConfig(0, DEFAULT_SWITCH, 0, false, false))
  type Specials = s: seq<SpecialFunction> | |s| == 24 witness seq(24, _ => DEFAULT_SPECIAL)

  datatype Head = Head(
    name: Name, modelId: byte, throttleAxis: byte, throttleChannel: byte,
    requiredSwitchMask: byte, requiredSwitchValues: byte,
    inputCount: byte, mixCount: byte, logicalCount: byte, modeCount: byte, curveCount: byte,
    specialCount: byte)

  datatype Video = Video(band: byte, channel: byte, overlay: bool, rfLock: bool)

  datatype Model = Model(
    head: Head, inputs: Inputs, mixes: Mixes, logicals: Logicals, modes: FlightModes,
    curves: Curves, gvars: GVarValues, outputs: Outputs, timers: Timers, specials: Specials,
    video: Video)

  predicate InResolution(v: int) {
    -RESOLUTION <= v <= RESOLUTION
  }

  predicate SwitchOk(s: SwitchRef) {
    && -1 <= s.index < MAX_SWITCHES + MAX_LOGICAL_SWITCHES
    && s.position <= POSITION_HIGH
    && (0 <= s.index < MAX_SWITCHES || s.position == POSITION_ACTIVE)
  }

  predicate SourceOk(s: SourceRef) {
    if s.kind == SOURCE_AXIS then s.index < MAX_AXES
    else if s.kind == SOURCE_INPUT then s.index < MAX_INPUTS
    else if s.kind == SOURCE_CHANNEL then s.index < CHANNEL_COUNT
    else if s.kind == SOURCE_TELEMETRY then 0 < s.index <= MAX_TELEMETRY_SENSORS
    else if s.kind == SOURCE_GVAR then s.index < MAX_GVARS
    else if s.kind == SOURCE_SWITCH then s.index < MAX_SWITCHES
    else s.kind == SOURCE_CONSTANT && InResolution(s.constant)
  }

  predicate CurveIndexOk(i: int8) {
    -1 <= i < MAX_CURVES
  }

  predicate InputOk(x: InputLine) {
    && x.sourceAxis < MAX_AXES && x.destination < MAX_INPUTS
    && -100 <= x.weightPercent <= 100 && -100 <= x.expoPercent <= 100
    && CurveIndexOk(x.curveIndex) && SwitchOk(x.condition)
  }

  predicate MixOk(x: MixLine) {
    && x.destination < CHANNEL_COUNT && SourceOk(x.source)
    && -100 <= x.weightPercent <= 100 && InResolution(x.offset)
    && CurveIndexOk(x.curveIndex) && SwitchOk(x.condition) && x.mode <= MIX_REPLACE
  }

  predicate LogicalOk(x: LogicalSwitch) {
    && x.operation <= LOGICAL_TIMER && SourceOk(x.lhs) && SourceOk(x.rhs)
    && SwitchOk(x.first) && SwitchOk(x.second) && SwitchOk(x.andCondition)
  }

  predicate ValuesOk(s: seq<int16>) {
    forall i :: 0 <= i < |s| ==> InResolution(s[i])
  }

  predicate ModeOk(x: FlightMode) {
    && SwitchOk(x.condition) && x.gvarOverrideMask < 0x200
    && ValuesOk(x.trims) && ValuesOk(x.gvars)
  }

  predicate OutputOk(x: OutputLimit) {
    && -RESOLUTION <= x.minimum <= x.maximum <= RESOLUTION
    && InResolution(x.subtrim) && InResolution(x.failsafe)
  }

  predicate TimerOk(x: TimerConfig) {
    x.mode <= TIMER_SWITCH && SwitchOk(x.condition) && -86400 <= x.startSeconds <= 86400
  }

  predicate SpecialOk(x: SpecialFunction) {
    SwitchOk(x.condition) && x.action <= SPECIAL_ENTER_PASSTHROUGH
  }

  /** The counts and indices that `decode_payload` itself checks. */
  predicate HeadOk(h: Head) {
    && 0 in h.name
    && h.inputCount <= MAX_INPUTS && h.mixCount <= MAX_MIXES
    && h.logicalCount <= MAX_LOGICAL_SWITCHES && 0 < h.modeCount <= MAX_FLIGHT_MODES
    && h.curveCount <= MAX_CURVES && h.specialCount <= MAX_SPECIAL_FUNCTIONS
    && h.throttleAxis < MAX_AXES && h.throttleChannel < CHANNEL_COUNT
  }

  predicate VideoOk(v: Video) {
    v.band < 6 && v.channel < 8
  }

  /** `model_shape_valid`. */
  predicate Valid(m: Model) {
    && HeadOk(m.head) && VideoOk(m.video)
    && (forall i :: 0 <= i < m.head.inputCount ==> InputOk(m.inputs[i]))
    && (forall i :: 0 <= i < m.head.mixCount ==> MixOk(m.mixes[i]))
    && (forall i :: 0 <= i < m.head.logicalCount ==> LogicalOk(m.logicals[i]))
    && (forall i :: 0 <= i < m.head.modeCount ==> ModeOk(m.modes[i]))
    && (forall i :: 0 <= i < m.head.curveCount ==> ValuesOk(m.curves[i].points))
    && ValuesOk(m.gvars)
    && (forall i :: 0 <= i < CHANNEL_COUNT ==> OutputOk(m.outputs[i]))
    && (forall i :: 0 <= i < MAX_TIMERS ==> TimerOk(m.timers[i]))
    && (forall i :: 0 <= i < m.head.specialCount ==> SpecialOk(m.specials[i]))
  }

  /** The first `n` entries of a fixed-size table, the rest at their default. */
  function Fill<T>(xs: seq<T>, size: nat, default: T): (r: seq<T>)
    requires |xs| <= size
    ensures |r| == size && r[..|xs|] == xs
    ensures forall i :: |xs| <= i < size ==> r[i] == default
  {
    xs + seq(size - |xs|, _ => default)
  }

  /** The model with every table entry beyond its count at the default, which is what the file
      format can carry. */
  function Normalize(m: Model): Model
    requires HeadOk(m.head)
  {
    Model(
      m.head,
      Fill(m.inputs[..m.head.inputCount], 16, DEFAULT_INPUT),
      Fill(m.mixes[..m.head.mixCount], 64, DEFAULT_MIX),
      Fill(m.logicals[..m.head.logicalCount], 24, DEFAULT_LOGICAL),
      Fill(m.modes[..m.head.modeCount], 5, DEFAULT_MODE),
      Fill(m.curves[..m.head.curveCount], 16, DEFAULT_CURVE),
      m.gvars, m.outputs, m.timers,
      Fill(m.specials[..m.head.specialCount], 24, DEFAULT_SPECIAL),
      m.video)
  }
}
