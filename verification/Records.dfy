/** How each record of the model is printed and parsed, field by field, and the proof that the
    two undo each other in every schema.  Only the printers of the current schema are in the firmware; those of
    the older ones say what the parser has to understand. */
module Records {
  import opened Bits
  import opened Wire
  import opened Model

  const SCHEMA: uint16 := 6

  // ---------------------------------------------------------------- sources and switches

  function PutSource(acc: seq<byte>, s: SourceRef): seq<byte> {
    PutI(PutU(PutU(acc, s.kind, 1), s.index, 1), s.constant, 2)
  }

  function GetSource(data: seq<byte>, pos: nat): Parsed<SourceRef> {
    var (kind, p) :- GetU(data, pos, 1);
    var (index, p) :- GetU(data, p, 1);
    var (constant, p) :- GetI(data, p, 2);
    var s := SourceRef(kind, index, constant);
    if SourceOk(s) then Done(s, p) else Fail
  }

  /** Before schema 6 a switch reference had no position. */
  function PutSwitch(acc: seq<byte>, s: SwitchRef, schema: uint16): seq<byte> {
    var acc := PutBool(PutI(acc, s.index, 1), s.inverted);
    if schema >= 6 then PutU(acc, s.position, 1) else acc
  }

  /** What a file of the schema can carry. */
  predicate SwitchIn(s: SwitchRef, schema: uint16) {
    schema >= 6 || s.position == POSITION_ACTIVE
  }

  function GetSwitch(data: seq<byte>, pos: nat, schema: uint16): Parsed<SwitchRef> {
    var (index, p) :- GetI(data, pos, 1);
    var (inverted, p) :- GetBool(data, p);
    var (position, p) :- if schema >= 6 then GetU(data, p, 1) else Done(POSITION_ACTIVE, p);
    var s := SwitchRef(index, inverted, position);
    if SwitchOk(s) then Done(s, p) else Fail
  }

  lemma ReferencesForward(schema: uint16)
    ensures forall acc: seq<byte>, s: SourceRef, data: seq<byte> {:trigger Starts(PutSource(acc, s), data)} ::
      SourceOk(s) && Starts(PutSource(acc, s), data) ==>
        Starts(acc, data) && GetSource(data, |acc|) == Done(s, |PutSource(acc, s)|)
    ensures forall acc: seq<byte>, s: SwitchRef, data: seq<byte> {:trigger Starts(PutSwitch(acc, s, schema), data)} ::
      SwitchOk(s) && SwitchIn(s, schema) && Starts(PutSwitch(acc, s, schema), data) ==>
        Starts(acc, data) && GetSwitch(data, |acc|, schema) == Done(s, |PutSwitch(acc, s, schema)|)
  {
    hide Starts, PutU, PutI, PutBool, GetU, GetI, GetBool;
    FieldsForward();
    Bounds();
  }

  lemma ReferencesBackward(schema: uint16)
    ensures forall data: seq<byte>, pos: nat {:trigger GetSource(data, pos)} ::
      GetSource(data, pos).Done? ==>
        var r := GetSource(data, pos);
        SourceOk(r.value) && pos <= r.pos <= |data| && PutSource(data[..pos], r.value) == data[..r.pos]
    ensures forall data: seq<byte>, pos: nat {:trigger GetSwitch(data, pos, schema)} ::
      GetSwitch(data, pos, schema).Done? ==>
        var r := GetSwitch(data, pos, schema);
        SwitchOk(r.value) && SwitchIn(r.value, schema) && pos <= r.pos <= |data| &&
        PutSwitch(data[..pos], r.value, schema) == data[..r.pos]
  {
    hide Starts, PutU, PutI, PutBool, GetU, GetI, GetBool;
    FieldsBackward();
  }

  // ---------------------------------------------------------------- value lists

  function PutValue(acc: seq<byte>, v: int16): seq<byte> {
    PutI(acc, v, 2)
  }

  function GetValue(data: seq<byte>, pos: nat): Parsed<int16> {
    var (v, p) :- GetI(data, pos, 2);
    Done(v, p)
  }

  predicate AnyValue(v: int16) {
    true
  }

  const VALUE := Codec(PutValue, GetValue, AnyValue)

  lemma ValueLawful()
    ensures Lawful(VALUE)
  {
    hide Starts, PutI, GetI;
    FieldsForward();
    FieldsBackward();
    Bounds();
  }

  function PutValues(acc: seq<byte>, xs: seq<int16>): seq<byte> {
    PutTable(VALUE, acc, xs)
  }

  function GetValues(data: seq<byte>, pos: nat, n: nat): (r: Parsed<seq<int16>>)
    ensures r.Done? ==> |r.value| == n
  {
    GetTable(VALUE, data, pos, n)
  }

  lemma ValuesForward()
    ensures forall acc: seq<byte>, xs: seq<int16>, data: seq<byte> {:trigger Starts(PutValues(acc, xs), data)} ::
      Starts(PutValues(acc, xs), data) ==>
        Starts(acc, data) && GetValues(data, |acc|, |xs|) == Done(xs, |PutValues(acc, xs)|)
  {
    ValueLawful();
    forall acc: seq<byte>, xs: seq<int16>, data: seq<byte> | Starts(PutValues(acc, xs), data)
      ensures Starts(acc, data) && GetValues(data, |acc|, |xs|) == Done(xs, |PutValues(acc, xs)|)
    {
      TableForward(VALUE, acc, xs, data);
    }
  }

  lemma ValuesBackward()
    ensures forall data: seq<byte>, pos: nat, n: nat {:trigger GetValues(data, pos, n)} ::
      pos <= |data| && GetValues(data, pos, n).Done? ==>
        var r := GetValues(data, pos, n);
        pos <= r.pos <= |data| && PutValues(data[..pos], r.value) == data[..r.pos]
  {
    ValueLawful();
    forall data: seq<byte>, pos: nat, n: nat | pos <= |data| && GetValues(data, pos, n).Done?
      ensures var r := GetValues(data, pos, n);
        pos <= r.pos <= |data| && PutValues(data[..pos], r.value) == data[..r.pos]
    {
      TableBackward(VALUE, data, pos, n);
    }
  }

  // ---------------------------------------------------------------- input lines

  predicate InputReadable(x: InputLine) {
    && x.sourceAxis < MAX_AXES && x.destination < MAX_INPUTS
    && CurveIndexOk(x.curveIndex) && SwitchOk(x.condition)
  }

  function PutInput(acc: seq<byte>, x: InputLine, schema: uint16): seq<byte> {
    var acc := PutU(PutU(PutBool(acc, x.enabled), x.sourceAxis, 1), x.destination, 1);
    var acc := PutI(PutI(PutI(acc, x.weightPercent, 2), x.expoPercent, 1), x.curveIndex, 1);
    PutU(PutSwitch(acc, x.condition, schema), x.flightModeMask, 1)
  }

  function GetInput(data: seq<byte>, pos: nat, schema: uint16): Parsed<InputLine> {
    var (enabled, p) :- GetBool(data, pos);
    var (axis, p) :- GetU(data, p, 1);
    var (destination, p) :- GetU(data, p, 1);
    var (weight, p) :- GetI(data, p, 2);
    var (expo, p) :- GetI(data, p, 1);
    var (curve, p) :- GetI(data, p, 1);
    var (condition, p) :- GetSwitch(data, p, schema);
    var (mask, p) :- GetU(data, p, 1);
    var x := InputLine(enabled, axis, destination, weight, expo, curve, condition, mask);
    if InputReadable(x) then Done(x, p) else Fail
  }

  predicate InputIn(x: InputLine, schema: uint16) {
    InputReadable(x) && SwitchIn(x.condition, schema)
  }

  lemma InputForward(acc: seq<byte>, x: InputLine, data: seq<byte>, schema: uint16)
    requires InputIn(x, schema) && Starts(PutInput(acc, x, schema), data)
    ensures Starts(acc, data) && GetInput(data, |acc|, schema) == Done(x, |PutInput(acc, x, schema)|)
  {
    hide Starts, PutU, PutI, PutBool, GetU, GetI, GetBool, PutSource, GetSource, PutSwitch, GetSwitch;
    FieldsForward();
    ReferencesForward(schema);
    Bounds();
  }

  lemma InputBackward(data: seq<byte>, pos: nat, schema: uint16)
    requires pos <= |data| && GetInput(data, pos, schema).Done?
    ensures var r := GetInput(data, pos, schema);
      InputIn(r.value, schema) && pos <= r.pos <= |data| &&
      PutInput(data[..pos], r.value, schema) == data[..r.pos]
  {
    hide Starts, PutU, PutI, PutBool, GetU, GetI, GetBool, PutSource, GetSource, PutSwitch, GetSwitch;
    FieldsBackward();
    ReferencesBackward(schema);
  }

  function InputCodec(schema: uint16): Codec<InputLine> {
    Codec(
      (acc, x) => PutInput(acc, x, schema), (data, pos) => GetInput(data, pos, schema), x => InputIn(x, schema))
  }

  lemma InputLawful(schema: uint16)
    ensures Lawful(InputCodec(schema))
  {
    forall acc: seq<byte>, x: InputLine, data: seq<byte> |
      InputIn(x, schema) && Starts(PutInput(acc, x, schema), data)
      ensures Starts(acc, data) && GetInput(data, |acc|, schema) == Done(x, |PutInput(acc, x, schema)|)
    {
      InputForward(acc, x, data, schema);
    }
    forall data: seq<byte>, pos: nat | pos <= |data| && GetInput(data, pos, schema).Done?
      ensures var r := GetInput(data, pos, schema);
        InputIn(r.value, schema) && pos <= r.pos <= |data| &&
        PutInput(data[..pos], r.value, schema) == data[..r.pos]
    {
      InputBackward(data, pos, schema);
    }
  }

  // ---------------------------------------------------------------- mix lines

  predicate MixReadable(x: MixLine) {
    && x.destination < CHANNEL_COUNT && SourceOk(x.source) && CurveIndexOk(x.curveIndex)
    && SwitchOk(x.condition) && x.mode <= MIX_REPLACE
  }

  function PutMix(acc: seq<byte>, x: MixLine, schema: uint16): seq<byte> {
    var acc := PutSource(PutU(PutBool(acc, x.enabled), x.destination, 1), x.source);
    var acc := PutI(PutI(PutI(acc, x.weightPercent, 2), x.offset, 2), x.curveIndex, 1);
    var acc := PutU(PutSwitch(acc, x.condition, schema), x.mode, 1);
    var acc := PutU(PutU(acc, x.delayUpMs, 2), x.delayDownMs, 2);
    var acc := PutU(PutU(acc, x.speedUpPerSecond, 2), x.speedDownPerSecond, 2);
    PutBool(PutU(acc, x.flightModeMask, 1), x.carryTrim)
  }

  function GetMix(data: seq<byte>, pos: nat, schema: uint16): Parsed<MixLine> {
    var (enabled, p) :- GetBool(data, pos);
    var (destination, p) :- GetU(data, p, 1);
    var (source, p) :- GetSource(data, p);
    var (weight, p) :- GetI(data, p, 2);
    var (offset, p) :- GetI(data, p, 2);
    var (curve, p) :- GetI(data, p, 1);
    var (condition, p) :- GetSwitch(data, p, schema);
    var (mode, p) :- GetU(data, p, 1);
    var (delayUp, p) :- GetU(data, p, 2);
    var (delayDown, p) :- GetU(data, p, 2);
    var (speedUp, p) :- GetU(data, p, 2);
    var (speedDown, p) :- GetU(data, p, 2);
    var (mask, p) :- GetU(data, p, 1);
    var (carryTrim, p) :- GetBool(data, p);
    var x := MixLine(enabled, destination, source, weight, offset, curve, condition, mode,
                     delayUp, delayDown, speedUp, speedDown, mask, carryTrim);
    if MixReadable(x) then Done(x, p) else Fail
  }

  predicate MixIn(x: MixLine, schema: uint16) {
    MixReadable(x) && SwitchIn(x.condition, schema)
  }

  lemma MixForward(acc: seq<byte>, x: MixLine, data: seq<byte>, schema: uint16)
    requires MixIn(x, schema) && Starts(PutMix(acc, x, schema), data)
    ensures Starts(acc, data) && GetMix(data, |acc|, schema) == Done(x, |PutMix(acc, x, schema)|)
  {
    hide Starts, PutU, PutI, PutBool, GetU, GetI, GetBool, PutSource, GetSource, PutSwitch, GetSwitch;
    FieldsForward();
    ReferencesForward(schema);
    Bounds();
  }

  lemma MixBackward(data: seq<byte>, pos: nat, schema: uint16)
    requires pos <= |data| && GetMix(data, pos, schema).Done?
    ensures var r := GetMix(data, pos, schema);
      MixIn(r.value, schema) && pos <= r.pos <= |data| &&
      PutMix(data[..pos], r.value, schema) == data[..r.pos]
  {
    hide Starts, PutU, PutI, PutBool, GetU, GetI, GetBool, PutSource, GetSource, PutSwitch, GetSwitch;
    FieldsBackward();
    ReferencesBackward(schema);
  }

  function MixCodec(schema: uint16): Codec<MixLine> {
    Codec(
      (acc, x) => PutMix(acc, x, schema), (data, pos) => GetMix(data, pos, schema), x => MixIn(x, schema))
  }

  lemma MixLawful(schema: uint16)
    ensures Lawful(MixCodec(schema))
  {
    forall acc: seq<byte>, x: MixLine, data: seq<byte> |
      MixIn(x, schema) && Starts(PutMix(acc, x, schema), data)
      ensures Starts(acc, data) && GetMix(data, |acc|, schema) == Done(x, |PutMix(acc, x, schema)|)
    {
      MixForward(acc, x, data, schema);
    }
    forall data: seq<byte>, pos: nat | pos <= |data| && GetMix(data, pos, schema).Done?
      ensures var r := GetMix(data, pos, schema);
        MixIn(r.value, schema) && pos <= r.pos <= |data| &&
        PutMix(data[..pos], r.value, schema) == data[..r.pos]
    {
      MixBackward(data, pos, schema);
    }
  }

  // ---------------------------------------------------------------- logical switches

  function PutLogical(acc: seq<byte>, x: LogicalSwitch, schema: uint16): seq<byte> {
    var acc := PutSource(PutSource(PutU(acc, x.operation, 1), x.lhs), x.rhs);
    var acc := PutSwitch(PutSwitch(PutSwitch(acc, x.first, schema), x.second, schema), x.andCondition, schema);
    PutU(PutU(PutI(acc, x.threshold, 2), x.delayMs, 2), x.durationMs, 2)
  }

  function GetLogical(data: seq<byte>, pos: nat, schema: uint16): Parsed<LogicalSwitch> {
    var (operation, p) :- GetU(data, pos, 1);
    var (lhs, p) :- GetSource(data, p);
    var (rhs, p) :- GetSource(data, p);
    var (first, p) :- GetSwitch(data, p, schema);
    var (second, p) :- GetSwitch(data, p, schema);
    var (andCondition, p) :- GetSwitch(data, p, schema);
    var (threshold, p) :- GetI(data, p, 2);
    var (delay, p) :- GetU(data, p, 2);
    var (duration, p) :- GetU(data, p, 2);
    var x := LogicalSwitch(operation, lhs, rhs, first, second, andCondition, threshold, delay, duration);
    if LogicalOk(x) then Done(x, p) else Fail
  }

  predicate LogicalIn(x: LogicalSwitch, schema: uint16) {
    LogicalOk(x) && SwitchIn(x.first, schema) && SwitchIn(x.second, schema) && SwitchIn(x.andCondition, schema)
  }

  lemma LogicalForward(acc: seq<byte>, x: LogicalSwitch, data: seq<byte>, schema: uint16)
    requires LogicalIn(x, schema) && Starts(PutLogical(acc, x, schema), data)
    ensures Starts(acc, data) && GetLogical(data, |acc|, schema) == Done(x, |PutLogical(acc, x, schema)|)
  {
    hide Starts, PutU, PutI, PutBool, GetU, GetI, GetBool, PutSource, GetSource, PutSwitch, GetSwitch;
    FieldsForward();
    ReferencesForward(schema);
    Bounds();
  }

  lemma LogicalBackward(data: seq<byte>, pos: nat, schema: uint16)
    requires pos <= |data| && GetLogical(data, pos, schema).Done?
    ensures var r := GetLogical(data, pos, schema);
      LogicalIn(r.value, schema) && pos <= r.pos <= |data| &&
      PutLogical(data[..pos], r.value, schema) == data[..r.pos]
  {
    hide Starts, PutU, PutI, PutBool, GetU, GetI, GetBool, PutSource, GetSource, PutSwitch, GetSwitch;
    FieldsBackward();
    ReferencesBackward(schema);
  }

  function LogicalCodec(schema: uint16): Codec<LogicalSwitch> {
    Codec(
      (acc, x) => PutLogical(acc, x, schema), (data, pos) => GetLogical(data, pos, schema), x => LogicalIn(x, schema))
  }

  lemma LogicalLawful(schema: uint16)
    ensures Lawful(LogicalCodec(schema))
  {
    forall acc: seq<byte>, x: LogicalSwitch, data: seq<byte> |
      LogicalIn(x, schema) && Starts(PutLogical(acc, x, schema), data)
      ensures Starts(acc, data) && GetLogical(data, |acc|, schema) == Done(x, |PutLogical(acc, x, schema)|)
    {
      LogicalForward(acc, x, data, schema);
    }
    forall data: seq<byte>, pos: nat | pos <= |data| && GetLogical(data, pos, schema).Done?
      ensures var r := GetLogical(data, pos, schema);
        LogicalIn(r.value, schema) && pos <= r.pos <= |data| &&
        PutLogical(data[..pos], r.value, schema) == data[..r.pos]
    {
      LogicalBackward(data, pos, schema);
    }
  }

  // ---------------------------------------------------------------- flight modes and curves

  predicate ModeReadable(x: FlightMode) {
    SwitchOk(x.condition)
  }

  /** Before schema 3 a flight mode had no override mask. */
  function PutMode(acc: seq<byte>, x: FlightMode, schema: uint16): seq<byte> {
    var acc := PutSwitch(PutBool(acc, x.enabled), x.condition, schema);
    var acc := PutValues(PutValues(acc, x.trims), x.gvars);
    var acc := if schema >= 3 then PutU(acc, x.gvarOverrideMask, 2) else acc;
    PutU(PutU(acc, x.fadeInMs, 2), x.fadeOutMs, 2)
  }

  function GetMode(data: seq<byte>, pos: nat, schema: uint16): Parsed<FlightMode> {
    var (enabled, p) :- GetBool(data, pos);
    var (condition, p) :- GetSwitch(data, p, schema);
    var (trims, p) :- GetValues(data, p, MAX_AXES);
    var (gvars, p) :- GetValues(data, p, MAX_GVARS);
    var (mask, p) :- if schema >= 3 then GetU(data, p, 2) else Done(0, p);
    var (fadeIn, p) :- GetU(data, p, 2);
    var (fadeOut, p) :- GetU(data, p, 2);
    var x := FlightMode(enabled, condition, trims, gvars, mask, fadeIn, fadeOut);
    if ModeReadable(x) then Done(x, p) else Fail
  }

  predicate ModeIn(x: FlightMode, schema: uint16) {
    ModeReadable(x) && SwitchIn(x.condition, schema) && (schema >= 3 || x.gvarOverrideMask == 0)
  }

  lemma ModeForward(acc: seq<byte>, x: FlightMode, data: seq<byte>, schema: uint16)
    requires ModeIn(x, schema) && Starts(PutMode(acc, x, schema), data)
    ensures Starts(acc, data) && GetMode(data, |acc|, schema) == Done(x, |PutMode(acc, x, schema)|)
  {
    hide Starts, PutU, PutI, PutBool, GetU, GetI, GetBool;
    hide PutSource, GetSource, PutSwitch, GetSwitch, PutValues, GetValues;
    FieldsForward();
    ReferencesForward(schema);
    Bounds();
    ValuesForward();
  }

  lemma ModeBackward(data: seq<byte>, pos: nat, schema: uint16)
    requires pos <= |data| && GetMode(data, pos, schema).Done?
    ensures var r := GetMode(data, pos, schema);
      ModeIn(r.value, schema) && pos <= r.pos <= |data| &&
      PutMode(data[..pos], r.value, schema) == data[..r.pos]
  {
    hide Starts, PutU, PutI, PutBool, GetU, GetI, GetBool;
    hide PutSource, GetSource, PutSwitch, GetSwitch, PutValues, GetValues;
    FieldsBackward();
    ReferencesBackward(schema);
    ValuesBackward();
  }

  function ModeCodec(schema: uint16): Codec<FlightMode> {
    Codec(
      (acc, x) => PutMode(acc, x, schema), (data, pos) => GetMode(data, pos, schema), x => ModeIn(x, schema))
  }

  lemma ModeLawful(schema: uint16)
    ensures Lawful(ModeCodec(schema))
  {
    forall acc: seq<byte>, x: FlightMode, data: seq<byte> |
      ModeIn(x, schema) && Starts(PutMode(acc, x, schema), data)
      ensures Starts(acc, data) && GetMode(data, |acc|, schema) == Done(x, |PutMode(acc, x, schema)|)
    {
      ModeForward(acc, x, data, schema);
    }
    forall data: seq<byte>, pos: nat | pos <= |data| && GetMode(data, pos, schema).Done?
      ensures var r := GetMode(data, pos, schema);
        ModeIn(r.value, schema) && pos <= r.pos <= |data| &&
        PutMode(data[..pos], r.value, schema) == data[..r.pos]
    {
      ModeBackward(data, pos, schema);
    }
  }

  predicate CurveReadable(x: Curve) {
    true
  }

  function PutCurve(acc: seq<byte>, x: Curve): seq<byte> {
    PutValues(PutBool(acc, x.enabled), x.points)
  }

  function GetCurve(data: seq<byte>, pos: nat, schema: uint16): Parsed<Curve> {
    var (enabled, p) :- GetBool(data, pos);
    var (points, p) :- GetValues(data, p, CURVE_POINTS);
    Done(Curve(enabled, points), p)
  }

  lemma CurveForward(acc: seq<byte>, x: Curve, data: seq<byte>, schema: uint16)
    requires CurveReadable(x) && Starts(PutCurve(acc, x), data)
    ensures Starts(acc, data) && GetCurve(data, |acc|, schema) == Done(x, |PutCurve(acc, x)|)
  {
    hide Starts, PutU, PutI, PutBool, GetU, GetI, GetBool;
    hide PutSource, GetSource, PutSwitch, GetSwitch, PutValues, GetValues;
    FieldsForward();
    ReferencesForward(schema);
    Bounds();
    ValuesForward();
  }

  lemma CurveBackward(data: seq<byte>, pos: nat, schema: uint16)
    requires pos <= |data| && GetCurve(data, pos, schema).Done?
    ensures var r := GetCurve(data, pos, schema);
      CurveReadable(r.value) && pos <= r.pos <= |data| && PutCurve(data[..pos], r.value) == data[..r.pos]
  {
    hide Starts, PutU, PutI, PutBool, GetU, GetI, GetBool;
    hide PutSource, GetSource, PutSwitch, GetSwitch, PutValues, GetValues;
    FieldsBackward();
    ReferencesBackward(schema);
    ValuesBackward();
  }

  function CurveCodec(schema: uint16): Codec<Curve> {
    Codec(PutCurve, (data, pos) => GetCurve(data, pos, schema), CurveReadable)
  }

  lemma CurveLawful(schema: uint16)
    ensures Lawful(CurveCodec(schema))
  {
    forall acc: seq<byte>, x: Curve, data: seq<byte> | CurveReadable(x) && Starts(PutCurve(acc, x), data)
      ensures Starts(acc, data) && GetCurve(data, |acc|, schema) == Done(x, |PutCurve(acc, x)|)
    {
      CurveForward(acc, x, data, schema);
    }
    forall data: seq<byte>, pos: nat | pos <= |data| && GetCurve(data, pos, schema).Done?
      ensures var r := GetCurve(data, pos, schema);
        CurveReadable(r.value) && pos <= r.pos <= |data| && PutCurve(data[..pos], r.value) == data[..r.pos]
    {
      CurveBackward(data, pos, schema);
    }
  }

  // ---------------------------------------------------------------- outputs, timers, special functions

  predicate OutputReadable(x: OutputLimit) {
    x.minimum <= x.maximum
  }

  function PutOutput(acc: seq<byte>, x: OutputLimit): seq<byte> {
    var acc := PutI(PutI(acc, x.minimum, 2), x.maximum, 2);
    PutBool(PutI(PutI(acc, x.subtrim, 2), x.failsafe, 2), x.reversed)
  }

  function GetOutput(data: seq<byte>, pos: nat, schema: uint16): Parsed<OutputLimit> {
    var (minimum, p) :- GetI(data, pos, 2);
    var (maximum, p) :- GetI(data, p, 2);
    var (subtrim, p) :- GetI(data, p, 2);
    var (failsafe, p) :- GetI(data, p, 2);
    var (reversed, p) :- GetBool(data, p);
    var x := OutputLimit(minimum, maximum, subtrim, failsafe, reversed);
    if OutputReadable(x) then Done(x, p) else Fail
  }

  lemma OutputForward(acc: seq<byte>, x: OutputLimit, data: seq<byte>, schema: uint16)
    requires OutputReadable(x) && Starts(PutOutput(acc, x), data)
    ensures Starts(acc, data) && GetOutput(data, |acc|, schema) == Done(x, |PutOutput(acc, x)|)
  {
    hide Starts, PutU, PutI, PutBool, GetU, GetI, GetBool, PutSource, GetSource, PutSwitch, GetSwitch;
    FieldsForward();
    ReferencesForward(schema);
    Bounds();
  }

  lemma OutputBackward(data: seq<byte>, pos: nat, schema: uint16)
    requires pos <= |data| && GetOutput(data, pos, schema).Done?
    ensures var r := GetOutput(data, pos, schema);
      OutputReadable(r.value) && pos <= r.pos <= |data| && PutOutput(data[..pos], r.value) == data[..r.pos]
  {
    hide Starts, PutU, PutI, PutBool, GetU, GetI, GetBool, PutSource, GetSource, PutSwitch, GetSwitch;
    FieldsBackward();
    ReferencesBackward(schema);
  }

  function OutputCodec(schema: uint16): Codec<OutputLimit> {
    Codec(PutOutput, (data, pos) => GetOutput(data, pos, schema), OutputReadable)
  }

  lemma OutputLawful(schema: uint16)
    ensures Lawful(OutputCodec(schema))
  {
    forall acc: seq<byte>, x: OutputLimit, data: seq<byte> | OutputReadable(x) && Starts(PutOutput(acc, x), data)
      ensures Starts(acc, data) && GetOutput(data, |acc|, schema) == Done(x, |PutOutput(acc, x)|)
    {
      OutputForward(acc, x, data, schema);
    }
    forall data: seq<byte>, pos: nat | pos <= |data| && GetOutput(data, pos, schema).Done?
      ensures var r := GetOutput(data, pos, schema);
        OutputReadable(r.value) && pos <= r.pos <= |data| && PutOutput(data[..pos], r.value) == data[..r.pos]
    {
      OutputBackward(data, pos, schema);
    }
  }

  predicate TimerReadable(x: TimerConfig) {
    x.mode <= TIMER_SWITCH && SwitchOk(x.condition)
  }

  function PutTimer(acc: seq<byte>, x: TimerConfig, schema: uint16): seq<byte> {
    var acc := PutI(PutSwitch(PutU(acc, x.mode, 1), x.condition, schema), x.startSeconds, 4);
    PutBool(PutBool(acc, x.countdown), x.persistent)
  }

  function GetTimer(data: seq<byte>, pos: nat, schema: uint16): Parsed<TimerConfig> {
    var (mode, p) :- GetU(data, pos, 1);
    var (condition, p) :- GetSwitch(data, p, schema);
    var (start, p) :- GetI(data, p, 4);
    var (countdown, p) :- GetBool(data, p);
    var (persistent, p) :- GetBool(data, p);
    var x := TimerConfig(mode, condition, start, countdown, persistent);
    if TimerReadable(x) then Done(x, p) else Fail
  }

  predicate TimerIn(x: TimerConfig, schema: uint16) {
    TimerReadable(x) && SwitchIn(x.condition, schema)
  }

  lemma TimerForward(acc: seq<byte>, x: TimerConfig, data: seq<byte>, schema: uint16)
    requires TimerIn(x, schema) && Starts(PutTimer(acc, x, schema), data)
    ensures Starts(acc, data) && GetTimer(data, |acc|, schema) == Done(x, |PutTimer(acc, x, schema)|)
  {
    hide Starts, PutU, PutI, PutBool, GetU, GetI, GetBool, PutSource, GetSource, PutSwitch, GetSwitch;
    FieldsForward();
    ReferencesForward(schema);
    Bounds();
  }

  lemma TimerBackward(data: seq<byte>, pos: nat, schema: uint16)
    requires pos <= |data| && GetTimer(data, pos, schema).Done?
    ensures var r := GetTimer(data, pos, schema);
      TimerIn(r.value, schema) && pos <= r.pos <= |data| &&
      PutTimer(data[..pos], r.value, schema) == data[..r.pos]
  {
    hide Starts, PutU, PutI, PutBool, GetU, GetI, GetBool, PutSource, GetSource, PutSwitch, GetSwitch;
    FieldsBackward();
    ReferencesBackward(schema);
  }

  function TimerCodec(schema: uint16): Codec<TimerConfig> {
    Codec(
      (acc, x) => PutTimer(acc, x, schema), (data, pos) => GetTimer(data, pos, schema), x => TimerIn(x, schema))
  }

  lemma TimerLawful(schema: uint16)
    ensures Lawful(TimerCodec(schema))
  {
    forall acc: seq<byte>, x: TimerConfig, data: seq<byte> |
      TimerIn(x, schema) && Starts(PutTimer(acc, x, schema), data)
      ensures Starts(acc, data) && GetTimer(data, |acc|, schema) == Done(x, |PutTimer(acc, x, schema)|)
    {
      TimerForward(acc, x, data, schema);
    }
    forall data: seq<byte>, pos: nat | pos <= |data| && GetTimer(data, pos, schema).Done?
      ensures var r := GetTimer(data, pos, schema);
        TimerIn(r.value, schema) && pos <= r.pos <= |data| &&
        PutTimer(data[..pos], r.value, schema) == data[..r.pos]
    {
      TimerBackward(data, pos, schema);
    }
  }

  function PutSpecial(acc: seq<byte>, x: SpecialFunction, schema: uint16): seq<byte> {
    PutI(PutU(PutSwitch(PutBool(acc, x.enabled), x.condition, schema), x.action, 1), x.parameter, 2)
  }

  function GetSpecial(data: seq<byte>, pos: nat, schema: uint16): Parsed<SpecialFunction> {
    var (enabled, p) :- GetBool(data, pos);
    var (condition, p) :- GetSwitch(data, p, schema);
    var (action, p) :- GetU(data, p, 1);
    var (parameter, p) :- GetI(data, p, 2);
    var x := SpecialFunction(enabled, condition, action, parameter);
    if SpecialOk(x) then Done(x, p) else Fail
  }

  predicate SpecialIn(x: SpecialFunction, schema: uint16) {
    SpecialOk(x) && SwitchIn(x.condition, schema)
  }

  lemma SpecialForward(acc: seq<byte>, x: SpecialFunction, data: seq<byte>, schema: uint16)
    requires SpecialIn(x, schema) && Starts(PutSpecial(acc, x, schema), data)
    ensures Starts(acc, data) && GetSpecial(data, |acc|, schema) == Done(x, |PutSpecial(acc, x, schema)|)
  {
    hide Starts, PutU, PutI, PutBool, GetU, GetI, GetBool, PutSource, GetSource, PutSwitch, GetSwitch;
    FieldsForward();
    ReferencesForward(schema);
    Bounds();
  }

  lemma SpecialBackward(data: seq<byte>, pos: nat, schema: uint16)
    requires pos <= |data| && GetSpecial(data, pos, schema).Done?
    ensures var r := GetSpecial(data, pos, schema);
      SpecialIn(r.value, schema) && pos <= r.pos <= |data| &&
      PutSpecial(data[..pos], r.value, schema) == data[..r.pos]
  {
    hide Starts, PutU, PutI, PutBool, GetU, GetI, GetBool, PutSource, GetSource, PutSwitch, GetSwitch;
    FieldsBackward();
    ReferencesBackward(schema);
  }

  function SpecialCodec(schema: uint16): Codec<SpecialFunction> {
    Codec(
      (acc, x) => PutSpecial(acc, x, schema), (data, pos) => GetSpecial(data, pos, schema), x => SpecialIn(x, schema))
  }

  lemma SpecialLawful(schema: uint16)
    ensures Lawful(SpecialCodec(schema))
  {
    forall acc: seq<byte>, x: SpecialFunction, data: seq<byte> |
      SpecialIn(x, schema) && Starts(PutSpecial(acc, x, schema), data)
      ensures Starts(acc, data) && GetSpecial(data, |acc|, schema) == Done(x, |PutSpecial(acc, x, schema)|)
    {
      SpecialForward(acc, x, data, schema);
    }
    forall data: seq<byte>, pos: nat | pos <= |data| && GetSpecial(data, pos, schema).Done?
      ensures var r := GetSpecial(data, pos, schema);
        SpecialIn(r.value, schema) && pos <= r.pos <= |data| &&
        PutSpecial(data[..pos], r.value, schema) == data[..r.pos]
    {
      SpecialBackward(data, pos, schema);
    }
  }
}
