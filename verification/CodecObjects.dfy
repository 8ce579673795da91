/** The mutable side of the codec: `Writer::bytes_` grows, `Reader::position_` advances, and the
    payload is written and filled in place, entry by entry.  Every method is tied to the pure
    function that says what it writes or reads. */
module CodecObjects {
  import opened Bits
  import opened Wire
  import opened Model
  import opened Records
  import opened Payload
  import opened ModelCodec
  import Crc

  /** What a `get` call delivers: a value, or the failure that ends the decode. */
  datatype Read<+T> = Missing | Got(value: T) {
    predicate IsFailure() { Missing? }
    function PropagateFailure<U>(): Read<U> requires Missing? { Missing }
    function Extract(): T requires Got? { value }
  }

  /** The object-level result `r`, with the reader now at `position`, is what the pure parser gave. */
  predicate Agrees<T(==)>(r: Read<T>, position: nat, spec: Parsed<T>) {
    match spec
    case Fail => r.Missing?
    case Done(x, p) => r == Got(x) && position == p
  }

  class Writer {
    var bytes: seq<byte>

    constructor ()
      ensures bytes == []
    {
      bytes := [];
    }

    method Put(value: nat, size: nat)
      modifies this
      ensures bytes == PutU(old(bytes), value, size)
    {
      var raw := value;
      for i := 0 to size
        invariant PutLe(bytes, raw, size - i) == PutLe(old(bytes), value, size)
      {
        bytes := bytes + [raw % 0x100];
        raw := raw / 0x100;
      }
    }

    method PutSigned(value: int, size: nat)
      requires -Bound(size) <= value
      modifies this
      ensures bytes == PutI(old(bytes), value, size)
    {
      Put(if value < 0 then value + Bound(size) else value, size);
    }

    method PutFlag(value: bool)
      modifies this
      ensures bytes == PutBool(old(bytes), value)
    {
      Put(if value then 1 else 0, 1);
    }

    method PutBytes(data: seq<byte>)
      modifies this
      ensures bytes == old(bytes) + data
    {
      bytes := bytes + data;
    }

    method PutSourceRef(s: SourceRef)
      modifies this
      ensures bytes == PutSource(old(bytes), s)
    {
      Bounds();
      Put(s.kind, 1);
      Put(s.index, 1);
      PutSigned(s.constant, 2);
    }

    method PutSwitchRef(s: SwitchRef)
      modifies this
      ensures bytes == PutSwitch(old(bytes), s, SCHEMA)
    {
      Bounds();
      PutSigned(s.index, 1);
      PutFlag(s.inverted);
      Put(s.position, 1);
    }

    method PutValueList(xs: seq<int16>)
      modifies this
      ensures bytes == PutValues(old(bytes), xs)
    {
      Bounds();
      for i := 0 to |xs|
        invariant bytes == PutValues(old(bytes), xs[..i])
      {
        PutSigned(xs[i], 2);
        assert xs[..i + 1][..i] == xs[..i];
      }
      assert xs[..|xs|] == xs;
    }

    method PutHeadFields(h: Head)
      requires bytes == []
      modifies this
      ensures bytes == PutHead(h, SCHEMA)
    {
      PutBytes(h.name);
      assert bytes == h.name;
      Put(h.modelId, 1);
      Put(h.throttleAxis, 1);
      Put(h.throttleChannel, 1);
      Put(h.requiredSwitchMask, 1);
      Put(h.requiredSwitchValues, 1);
      Put(h.inputCount, 1);
      Put(h.mixCount, 1);
      Put(h.logicalCount, 1);
      Put(h.modeCount, 1);
      Put(h.curveCount, 1);
      Put(h.specialCount, 1);
    }

    method PutInputLine(x: InputLine)
      modifies this
      ensures bytes == PutInput(old(bytes), x, SCHEMA)
    {
      hide PutU, PutI, PutBool, PutSource, PutSwitch, PutValues;
      Bounds();
      PutFlag(x.enabled);
      Put(x.sourceAxis, 1);
      Put(x.destination, 1);
      PutSigned(x.weightPercent, 2);
      PutSigned(x.expoPercent, 1);
      PutSigned(x.curveIndex, 1);
      PutSwitchRef(x.condition);
      Put(x.flightModeMask, 1);
    }

    method PutInputs(xs: seq<InputLine>)
      modifies this
      ensures bytes == PutTable(InputCodec(SCHEMA), old(bytes), xs)
    {
      hide PutInput;
      for i := 0 to |xs|
        invariant bytes == PutTable(InputCodec(SCHEMA), old(bytes), xs[..i])
      {
        PutInputLine(xs[i]);
        assert xs[..i + 1][..i] == xs[..i];
      }
      assert xs[..|xs|] == xs;
    }

    method PutMixLine(x: MixLine)
      modifies this
      ensures bytes == PutMix(old(bytes), x, SCHEMA)
    {
      hide PutU, PutI, PutBool, PutSource, PutSwitch, PutValues;
      Bounds();
      PutFlag(x.enabled);
      Put(x.destination, 1);
      PutSourceRef(x.source);
      PutSigned(x.weightPercent, 2);
      PutSigned(x.offset, 2);
      PutSigned(x.curveIndex, 1);
      PutSwitchRef(x.condition);
      Put(x.mode, 1);
      Put(x.delayUpMs, 2);
      Put(x.delayDownMs, 2);
      Put(x.speedUpPerSecond, 2);
      Put(x.speedDownPerSecond, 2);
      Put(x.flightModeMask, 1);
      PutFlag(x.carryTrim);
    }

    method PutMixes(xs: seq<MixLine>)
      modifies this
      ensures bytes == PutTable(MixCodec(SCHEMA), old(bytes), xs)
    {
      hide PutMix;
      for i := 0 to |xs|
        invariant bytes == PutTable(MixCodec(SCHEMA), old(bytes), xs[..i])
      {
        PutMixLine(xs[i]);
        assert xs[..i + 1][..i] == xs[..i];
      }
      assert xs[..|xs|] == xs;
    }

    method PutLogicalSwitch(x: LogicalSwitch)
      modifies this
      ensures bytes == PutLogical(old(bytes), x, SCHEMA)
    {
      hide PutU, PutI, PutBool, PutSource, PutSwitch, PutValues;
      Bounds();
      Put(x.operation, 1);
      PutSourceRef(x.lhs);
      PutSourceRef(x.rhs);
      PutSwitchRef(x.first);
      PutSwitchRef(x.second);
      PutSwitchRef(x.andCondition);
      PutSigned(x.threshold, 2);
      Put(x.delayMs, 2);
      Put(x.durationMs, 2);
    }

    method PutLogicals(xs: seq<LogicalSwitch>)
      modifies this
      ensures bytes == PutTable(LogicalCodec(SCHEMA), old(bytes), xs)
    {
      hide PutLogical;
      for i := 0 to |xs|
        invariant bytes == PutTable(LogicalCodec(SCHEMA), old(bytes), xs[..i])
      {
        PutLogicalSwitch(xs[i]);
        assert xs[..i + 1][..i] == xs[..i];
      }
      assert xs[..|xs|] == xs;
    }

    method PutFlightMode(x: FlightMode)
      modifies this
      ensures bytes == PutMode(old(bytes), x, SCHEMA)
    {
      hide PutU, PutI, PutBool, PutSource, PutSwitch, PutValues;
      Bounds();
      PutFlag(x.enabled);
      PutSwitchRef(x.condition);
      PutValueList(x.trims);
      PutValueList(x.gvars);
      Put(x.gvarOverrideMask, 2);
      Put(x.fadeInMs, 2);
      Put(x.fadeOutMs, 2);
    }

    method PutModes(xs: seq<FlightMode>)
      modifies this
      ensures bytes == PutTable(ModeCodec(SCHEMA), old(bytes), xs)
    {
      hide PutMode;
      for i := 0 to |xs|
        invariant bytes == PutTable(ModeCodec(SCHEMA), old(bytes), xs[..i])
      {
        PutFlightMode(xs[i]);
        assert xs[..i + 1][..i] == xs[..i];
      }
      assert xs[..|xs|] == xs;
    }

    method PutCurves(xs: seq<Curve>)
      modifies this
      ensures bytes == PutTable(CurveCodec(SCHEMA), old(bytes), xs)
    {
      hide PutU, PutI, PutBool, PutSource, PutSwitch, PutValues;
      for i := 0 to |xs|
        invariant bytes == PutTable(CurveCodec(SCHEMA), old(bytes), xs[..i])
      {
        PutFlag(xs[i].enabled);
        PutValueList(xs[i].points);
        assert xs[..i + 1][..i] == xs[..i];
      }
      assert xs[..|xs|] == xs;
    }

    method PutOutputs(xs: seq<OutputLimit>)
      modifies this
      ensures bytes == PutTable(OutputCodec(SCHEMA), old(bytes), xs)
    {
      Bounds();
      hide PutU, PutI, PutBool, PutSource, PutSwitch, PutValues;
      for i := 0 to |xs|
        invariant bytes == PutTable(OutputCodec(SCHEMA), old(bytes), xs[..i])
      {
        PutSigned(xs[i].minimum, 2);
        PutSigned(xs[i].maximum, 2);
        PutSigned(xs[i].subtrim, 2);
        PutSigned(xs[i].failsafe, 2);
        PutFlag(xs[i].reversed);
        assert xs[..i + 1][..i] == xs[..i];
      }
      assert xs[..|xs|] == xs;
    }

    method PutTimers(xs: seq<TimerConfig>)
      modifies this
      ensures bytes == PutTable(TimerCodec(SCHEMA), old(bytes), xs)
    {
      Bounds();
      hide PutU, PutI, PutBool, PutSource, PutSwitch, PutValues;
      for i := 0 to |xs|
        invariant bytes == PutTable(TimerCodec(SCHEMA), old(bytes), xs[..i])
      {
        Put(xs[i].mode, 1);
        PutSwitchRef(xs[i].condition);
        PutSigned(xs[i].startSeconds, 4);
        PutFlag(xs[i].countdown);
        PutFlag(xs[i].persistent);
        assert xs[..i + 1][..i] == xs[..i];
      }
      assert xs[..|xs|] == xs;
    }

    method PutSpecials(xs: seq<SpecialFunction>)
      modifies this
      ensures bytes == PutTable(SpecialCodec(SCHEMA), old(bytes), xs)
    {
      Bounds();
      hide PutU, PutI, PutBool, PutSource, PutSwitch, PutValues;
      for i := 0 to |xs|
        invariant bytes == PutTable(SpecialCodec(SCHEMA), old(bytes), xs[..i])
      {
        PutFlag(xs[i].enabled);
        PutSwitchRef(xs[i].condition);
        Put(xs[i].action, 1);
        PutSigned(xs[i].parameter, 2);
        assert xs[..i + 1][..i] == xs[..i];
      }
      assert xs[..|xs|] == xs;
    }
  }

  /** `encode_payload`. */
  method WritePayload(m: Model) returns (payload: seq<byte>)
    requires HeadOk(m.head)
    ensures payload == EncodePayload(m, SCHEMA)
  {
    var writer := new Writer();
    writer.PutHeadFields(m.head);
    writer.PutInputs(m.inputs[..m.head.inputCount]);
    writer.PutMixes(m.mixes[..m.head.mixCount]);
    writer.PutLogicals(m.logicals[..m.head.logicalCount]);
    writer.PutModes(m.modes[..m.head.modeCount]);
    writer.PutCurves(m.curves[..m.head.curveCount]);
    writer.PutValueList(m.gvars);
    writer.PutOutputs(m.outputs);
    writer.PutTimers(m.timers);
    writer.PutSpecials(m.specials[..m.head.specialCount]);
    writer.Put(m.video.band, 1);
    writer.Put(m.video.channel, 1);
    writer.PutFlag(m.video.overlay);
    writer.PutFlag(m.video.rfLock);
    payload := writer.bytes;
  }

  /** `ModelCodec::encode`. */
  method WriteFile(m: Model, generation: word) returns (data: seq<byte>)
    ensures data == EncodeFile(m, generation)
  {
    if !Valid(m) {
      return [];
    }
    var payload := WritePayload(m);
    var crc := Crc.ComputeCrc32(payload);
    PayloadFits(m, SCHEMA);
    var writer := new Writer();
    writer.Put(MAGIC, 4);
    writer.Put(SCHEMA, 2);
    writer.Put(0, 2);
    writer.Put(|payload|, 4);
    writer.Put(generation, 4);
    writer.Put(crc, 4);
    writer.PutBytes(payload);
    data := writer.bytes;
  }

  class Reader {
    const data: seq<byte>
    var position: nat

    constructor (bytes: seq<byte>)
      ensures data == bytes && position == 0
    {
      data := bytes;
      position := 0;
    }

    method Get(size: nat) returns (r: Read<nat>)
      modifies this
      ensures Agrees(r, position, GetU(data, old(position), size))
    {
      if position + size > |data| {
        return Missing;
      }
      var value := 0;
      ghost var whole := GetLe(data, position, size);
      hide GetLe, Bound, ReadSoFar;
      FirstPlace(data, position, size);
      for i := 0 to size
        invariant position == old(position) + i
        invariant ReadSoFar(data, position, size - i, i, value, whole)
      {
        PlaceByte(data, position, size - i, i, value, whole);
        value := value + Bound(i) * data[position];
        position := position + 1;
      }
      LastPlace(data, position, size, value, whole);
      r := Got(value);
    }

    method GetSigned(size: nat) returns (r: Read<int>)
      modifies this
      ensures Agrees(r, position, GetI(data, old(position), size))
    {
      var raw :- Get(size);
      r := Got(if 2 * raw >= Bound(size) then raw - Bound(size) else raw);
    }

    method GetFlag() returns (r: Read<bool>)
      modifies this
      ensures Agrees(r, position, GetBool(data, old(position)))
    {
      var raw :- Get(1);
      r := if raw > 1 then Missing else Got(raw != 0);
    }

    /** A byte that older schemas did not store. */
    method GetSince(present: bool, size: nat) returns (r: Read<nat>)
      modifies this
      ensures Agrees(r, position, if present then GetU(data, old(position), size) else Done(0, old(position)))
    {
      if !present {
        return Got(0);
      }
      r := Get(size);
    }

    method GetSourceRef() returns (r: Read<SourceRef>)
      modifies this
      ensures Agrees(r, position, GetSource(data, old(position)))
    {
      hide GetU, GetI, GetBool, GetSwitch, GetValues;
      var kind :- Get(1);
      var index :- Get(1);
      var constant :- GetSigned(2);
      var x := SourceRef(kind, index, constant);
      r := if SourceOk(x) then Got(x) else Missing;
    }

    method GetSwitchRef(schema: uint16) returns (r: Read<SwitchRef>)
      modifies this
      ensures Agrees(r, position, GetSwitch(data, old(position), schema))
    {
      hide GetU, GetI, GetBool, GetSource, GetValues;
      var index :- GetSigned(1);
      var inverted :- GetFlag();
      var state :- GetSince(schema >= 6, 1);
      var x := SwitchRef(index, inverted, state);
      r := if SwitchOk(x) then Got(x) else Missing;
    }

    method GetValueList(n: nat) returns (r: Read<seq<int16>>)
      modifies this
      ensures Agrees(r, position, GetValues(data, old(position), n))
    {
      var xs: seq<int16> := [];
      for i := 0 to n
        invariant GetTable(VALUE, data, old(position), i) == Done(xs, position)
      {
        var v := GetSigned(2);
        if v.Missing? {
          TableFails(VALUE, data, old(position), i + 1, n);
          return Missing;
        }
        xs := xs + [v.value];
      }
      r := Got(xs);
    }

    method GetInputLine(schema: uint16) returns (r: Read<InputLine>)
      modifies this
      ensures Agrees(r, position, GetInput(data, old(position), schema))
    {
      hide GetU, GetI, GetBool, GetSource, GetSwitch, GetValues;
      var enabled :- GetFlag();
      var axis :- Get(1);
      var destination :- Get(1);
      var weight :- GetSigned(2);
      var expo :- GetSigned(1);
      var curve :- GetSigned(1);
      var condition :- GetSwitchRef(schema);
      var mask :- Get(1);
      var x := InputLine(enabled, axis, destination, weight, expo, curve, condition, mask);
      r := if InputReadable(x) then Got(x) else Missing;
    }

    method GetMixLine(schema: uint16) returns (r: Read<MixLine>)
      modifies this
      ensures Agrees(r, position, GetMix(data, old(position), schema))
    {
      hide GetU, GetI, GetBool, GetSource, GetSwitch, GetValues;
      var enabled :- GetFlag();
      var destination :- Get(1);
      var source :- GetSourceRef();
      var weight :- GetSigned(2);
      var offset :- GetSigned(2);
      var curve :- GetSigned(1);
      var condition :- GetSwitchRef(schema);
      var mode :- Get(1);
      var delayUp :- Get(2);
      var delayDown :- Get(2);
      var speedUp :- Get(2);
      var speedDown :- Get(2);
      var mask :- Get(1);
      var carryTrim :- GetFlag();
      var x := MixLine(enabled, destination, source, weight, offset, curve, condition, mode,
                       delayUp, delayDown, speedUp, speedDown, mask, carryTrim);
      r := if MixReadable(x) then Got(x) else Missing;
    }

    method GetLogicalSwitch(schema: uint16) returns (r: Read<LogicalSwitch>)
      modifies this
      ensures Agrees(r, position, GetLogical(data, old(position), schema))
    {
      hide GetU, GetI, GetBool, GetSource, GetSwitch, GetValues;
      var operation :- Get(1);
      var lhs :- GetSourceRef();
      var rhs :- GetSourceRef();
      var first :- GetSwitchRef(schema);
      var second :- GetSwitchRef(schema);
      var andCondition :- GetSwitchRef(schema);
      var threshold :- GetSigned(2);
      var delay :- Get(2);
      var duration :- Get(2);
      var x := LogicalSwitch(operation, lhs, rhs, first, second, andCondition, threshold, delay, duration);
      r := if LogicalOk(x) then Got(x) else Missing;
    }

    method GetFlightMode(schema: uint16) returns (r: Read<FlightMode>)
      modifies this
      ensures Agrees(r, position, GetMode(data, old(position), schema))
    {
      hide GetU, GetI, GetBool, GetSource, GetSwitch, GetValues;
      var enabled :- GetFlag();
      var condition :- GetSwitchRef(schema);
      var trims :- GetValueList(MAX_AXES);
      var gvars :- GetValueList(MAX_GVARS);
      var mask :- GetSince(schema >= 3, 2);
      var fadeIn :- Get(2);
      var fadeOut :- Get(2);
      var x := FlightMode(enabled, condition, trims, gvars, mask, fadeIn, fadeOut);
      r := if ModeReadable(x) then Got(x) else Missing;
    }

    method GetCurveLine(schema: uint16) returns (r: Read<Curve>)
      modifies this
      ensures Agrees(r, position, GetCurve(data, old(position), schema))
    {
      hide GetU, GetI, GetBool, GetSource, GetSwitch, GetValues;
      var enabled :- GetFlag();
      var points :- GetValueList(CURVE_POINTS);
      r := Got(Curve(enabled, points));
    }

    method GetOutputLimit(schema: uint16) returns (r: Read<OutputLimit>)
      modifies this
      ensures Agrees(r, position, GetOutput(data, old(position), schema))
    {
      hide GetU, GetI, GetBool, GetSource, GetSwitch, GetValues;
      var minimum :- GetSigned(2);
      var maximum :- GetSigned(2);
      var subtrim :- GetSigned(2);
      var failsafe :- GetSigned(2);
      var reversed :- GetFlag();
      var x := OutputLimit(minimum, maximum, subtrim, failsafe, reversed);
      r := if OutputReadable(x) then Got(x) else Missing;
    }

    method GetTimerConfig(schema: uint16) returns (r: Read<TimerConfig>)
      modifies this
      ensures Agrees(r, position, GetTimer(data, old(position), schema))
    {
      hide GetU, GetI, GetBool, GetSource, GetSwitch, GetValues;
      var mode :- Get(1);
      var condition :- GetSwitchRef(schema);
      var start :- GetSigned(4);
      var countdown :- GetFlag();
      var persistent :- GetFlag();
      var x := TimerConfig(mode, condition, start, countdown, persistent);
      r := if TimerReadable(x) then Got(x) else Missing;
    }

    method GetSpecialFunction(schema: uint16) returns (r: Read<SpecialFunction>)
      modifies this
      ensures Agrees(r, position, GetSpecial(data, old(position), schema))
    {
      hide GetU, GetI, GetBool, GetSource, GetSwitch, GetValues;
      var enabled :- GetFlag();
      var condition :- GetSwitchRef(schema);
      var action :- Get(1);
      var parameter :- GetSigned(2);
      var x := SpecialFunction(enabled, condition, action, parameter);
      r := if SpecialOk(x) then Got(x) else Missing;
    }

    method GetInputs(n: nat, schema: uint16) returns (r: Read<Inputs>)
      requires n <= 16
      modifies this
      ensures Agrees(r, position, Filled(GetTable(InputCodec(schema), data, old(position), n), 16, DEFAULT_INPUT))
    {
      hide GetInput, Fill;
      ghost var xs := [];
      var table: Inputs := seq(16, _ => DEFAULT_INPUT);
      FillNone(table, DEFAULT_INPUT);
      for i := 0 to n
        invariant GetTable(InputCodec(schema), data, old(position), i) == Done(xs, position)
        invariant table == Fill(xs, 16, DEFAULT_INPUT)
      {
        var x := GetInputLine(schema);
        if x.Missing? {
          TableFails(InputCodec(schema), data, old(position), i + 1, n);
          return Missing;
        }
        FillNext(xs, x.value, 16, DEFAULT_INPUT);
        table := table[i := x.value];
        xs := xs + [x.value];
      }
      r := Got(table);
    }

    method GetMixes(n: nat, schema: uint16) returns (r: Read<Mixes>)
      requires n <= 64
      modifies this
      ensures Agrees(r, position, Filled(GetTable(MixCodec(schema), data, old(position), n), 64, DEFAULT_MIX))
    {
      hide GetMix, Fill;
      ghost var xs := [];
      var table: Mixes := seq(64, _ => DEFAULT_MIX);
      FillNone(table, DEFAULT_MIX);
      for i := 0 to n
        invariant GetTable(MixCodec(schema), data, old(position), i) == Done(xs, position)
        invariant table == Fill(xs, 64, DEFAULT_MIX)
      {
        var x := GetMixLine(schema);
        if x.Missing? {
          TableFails(MixCodec(schema), data, old(position), i + 1, n);
          return Missing;
        }
        FillNext(xs, x.value, 64, DEFAULT_MIX);
        table := table[i := x.value];
        xs := xs + [x.value];
      }
      r := Got(table);
    }

    method GetLogicals(n: nat, schema: uint16) returns (r: Read<Logicals>)
      requires n <= 24
      modifies this
      ensures Agrees(r, position, Filled(GetTable(LogicalCodec(schema), data, old(position), n), 24, DEFAULT_LOGICAL))
    {
      hide GetLogical, Fill;
      ghost var xs := [];
      var table: Logicals := seq(24, _ => DEFAULT_LOGICAL);
      FillNone(table, DEFAULT_LOGICAL);
      for i := 0 to n
        invariant GetTable(LogicalCodec(schema), data, old(position), i) == Done(xs, position)
        invariant table == Fill(xs, 24, DEFAULT_LOGICAL)
      {
        var x := GetLogicalSwitch(schema);
        if x.Missing? {
          TableFails(LogicalCodec(schema), data, old(position), i + 1, n);
          return Missing;
        }
        FillNext(xs, x.value, 24, DEFAULT_LOGICAL);
        table := table[i := x.value];
        xs := xs + [x.value];
      }
      r := Got(table);
    }

    method GetModes(n: nat, schema: uint16) returns (r: Read<FlightModes>)
      requires n <= 5
      modifies this
      ensures Agrees(r, position, Filled(GetTable(ModeCodec(schema), data, old(position), n), 5, DEFAULT_MODE))
    {
      hide GetMode, Fill;
      ghost var xs := [];
      var table: FlightModes := seq(5, _ => DEFAULT_MODE);
      FillNone(table, DEFAULT_MODE);
      for i := 0 to n
        invariant GetTable(ModeCodec(schema), data, old(position), i) == Done(xs, position)
        invariant table == Fill(xs, 5, DEFAULT_MODE)
      {
        var x := GetFlightMode(schema);
        if x.Missing? {
          TableFails(ModeCodec(schema), data, old(position), i + 1, n);
          return Missing;
        }
        FillNext(xs, x.value, 5, DEFAULT_MODE);
        table := table[i := x.value];
        xs := xs + [x.value];
      }
      r := Got(table);
    }

    method GetCurves(n: nat, schema: uint16) returns (r: Read<Curves>)
      requires n <= 16
      modifies this
      ensures Agrees(r, position, Filled(GetTable(CurveCodec(schema), data, old(position), n), 16, DEFAULT_CURVE))
    {
      hide GetCurve, Fill;
      ghost var xs := [];
      var table: Curves := seq(16, _ => DEFAULT_CURVE);
      FillNone(table, DEFAULT_CURVE);
      for i := 0 to n
        invariant GetTable(CurveCodec(schema), data, old(position), i) == Done(xs, position)
        invariant table == Fill(xs, 16, DEFAULT_CURVE)
      {
        var x := GetCurveLine(schema);
        if x.Missing? {
          TableFails(CurveCodec(schema), data, old(position), i + 1, n);
          return Missing;
        }
        FillNext(xs, x.value, 16, DEFAULT_CURVE);
        table := table[i := x.value];
        xs := xs + [x.value];
      }
      r := Got(table);
    }

    method GetOutputs(n: nat, schema: uint16) returns (r: Read<Outputs>)
      requires n <= 16
      modifies this
      ensures Agrees(r, position, Filled(GetTable(OutputCodec(schema), data, old(position), n), 16, DEFAULT_OUTPUT))
    {
      hide GetOutput, Fill;
      ghost var xs := [];
      var table: Outputs := seq(16, _ => DEFAULT_OUTPUT);
      FillNone(table, DEFAULT_OUTPUT);
      for i := 0 to n
        invariant GetTable(OutputCodec(schema), data, old(position), i) == Done(xs, position)
        invariant table == Fill(xs, 16, DEFAULT_OUTPUT)
      {
        var x := GetOutputLimit(schema);
        if x.Missing? {
          TableFails(OutputCodec(schema), data, old(position), i + 1, n);
          return Missing;
        }
        FillNext(xs, x.value, 16, DEFAULT_OUTPUT);
        table := table[i := x.value];
        xs := xs + [x.value];
      }
      r := Got(table);
    }

    method GetTimers(n: nat, schema: uint16) returns (r: Read<Timers>)
      requires n <= 3
      modifies this
      ensures Agrees(r, position, Filled(GetTable(TimerCodec(schema), data, old(position), n), 3, DEFAULT_TIMER))
    {
      hide GetTimer, Fill;
      ghost var xs := [];
      var table: Timers := seq(3, _ => DEFAULT_TIMER);
      FillNone(table, DEFAULT_TIMER);
      for i := 0 to n
        invariant GetTable(TimerCodec(schema), data, old(position), i) == Done(xs, position)
        invariant table == Fill(xs, 3, DEFAULT_TIMER)
      {
        var x := GetTimerConfig(schema);
        if x.Missing? {
          TableFails(TimerCodec(schema), data, old(position), i + 1, n);
          return Missing;
        }
        FillNext(xs, x.value, 3, DEFAULT_TIMER);
        table := table[i := x.value];
        xs := xs + [x.value];
      }
      r := Got(table);
    }

    method GetSpecials(n: nat, schema: uint16) returns (r: Read<Specials>)
      requires n <= 24
      modifies this
      ensures Agrees(r, position, Filled(GetTable(SpecialCodec(schema), data, old(position), n), 24, DEFAULT_SPECIAL))
    {
      hide GetSpecial, Fill;
      ghost var xs := [];
      var table: Specials := seq(24, _ => DEFAULT_SPECIAL);
      FillNone(table, DEFAULT_SPECIAL);
      for i := 0 to n
        invariant GetTable(SpecialCodec(schema), data, old(position), i) == Done(xs, position)
        invariant table == Fill(xs, 24, DEFAULT_SPECIAL)
      {
        var x := GetSpecialFunction(schema);
        if x.Missing? {
          TableFails(SpecialCodec(schema), data, old(position), i + 1, n);
          return Missing;
        }
        FillNext(xs, x.value, 24, DEFAULT_SPECIAL);
        table := table[i := x.value];
        xs := xs + [x.value];
      }
      r := Got(table);
    }

    method GetHeadFields(schema: uint16) returns (r: Read<Head>)
      requires position == 0
      modifies this
      ensures Agrees(r, position, GetHead(data, schema))
    {
      hide GetU, HeadOk;
      if position + NAME_SIZE > |data| {
        return Missing;
      }
      var name := data[..NAME_SIZE];
      position := position + NAME_SIZE;
      var modelId :- Get(1);
      var axis :- Get(1);
      var channel :- Get(1);
      var mask :- GetSince(schema >= 2, 1);
      var values :- GetSince(schema >= 2, 1);
      var inputs :- Get(1);
      var mixes :- Get(1);
      var logicals :- Get(1);
      var modes :- Get(1);
      var curves :- Get(1);
      var specials :- Get(1);
      var h := Head(name, modelId, axis, channel, mask, values, inputs, mixes, logicals, modes, curves, specials);
      r := if HeadOk(h) then Got(h) else Missing;
    }

    method GetVideoFields(schema: uint16) returns (r: Read<Video>)
      modifies this
      ensures Agrees(r, position, GetVideo(data, old(position), schema))
    {
      hide GetU, GetBool;
      if schema < 6 {
        return Got(Video(0, 0, true, true));
      }
      var band :- Get(1);
      var channel :- Get(1);
      var overlay :- GetFlag();
      var rfLock :- GetFlag();
      var v := Video(band, channel, overlay, rfLock);
      r := if VideoOk(v) then Got(v) else Missing;
    }
  }

  const DEFAULT_OUTPUT := OutputLimit(-1024, 1024, 0, 0, false)
  const DEFAULT_TIMER := TimerConfig(0, DEFAULT_SWITCH, 0, false, false)

  /** A parsed table placed at the front of a table of defaults. */
  function Filled<T>(table: Parsed<seq<T>>, size: nat, default: T): Parsed<seq<T>>
    requires table.Done? ==> |table.value| <= size
  {
    match table
    case Fail => Fail
    case Done(xs, p) => Done(Fill(xs, size, default), p)
  }

  lemma FillNone<T>(table: seq<T>, default: T)
    requires forall i :: 0 <= i < |table| ==> table[i] == default
    ensures Fill([], |table|, default) == table
  {
  }

  lemma FillNext<T>(xs: seq<T>, x: T, size: nat, default: T)
    requires |xs| < size
    ensures Fill(xs, size, default)[|xs| := x] == Fill(xs + [x], size, default)
  {
  }

  /** `value` is what the first `i` bytes of `whole` amount to, with `n` bytes left to read. */
  ghost predicate ReadSoFar(data: seq<byte>, pos: nat, n: nat, i: nat, value: int, whole: nat) {
    0 <= value && pos + n <= |data| && whole == value + Bound(i) * GetLe(data, pos, n)
  }

  lemma FirstPlace(data: seq<byte>, pos: nat, n: nat)
    requires pos + n <= |data|
    ensures ReadSoFar(data, pos, n, 0, 0, GetLe(data, pos, n))
  {
  }

  lemma PlaceByte(data: seq<byte>, pos: nat, n: nat, i: nat, value: int, whole: nat)
    requires n > 0 && ReadSoFar(data, pos, n, i, value, whole)
    ensures pos < |data|
    ensures ReadSoFar(data, pos + 1, n - 1, i + 1, value + Bound(i) * data[pos], whole)
  {
    var b, rest, bound := data[pos], GetLe(data, pos + 1, n - 1), Bound(i);
    assert GetLe(data, pos, n) == b + 0x100 * rest && Bound(i + 1) == 0x100 * bound;
    hide GetLe, Bound;
    Distribute(b, bound, rest);
  }

  lemma Distribute(b: int, bound: int, rest: int)
    ensures bound * (b + 0x100 * rest) == bound * b + (0x100 * bound) * rest
  {
  }

  lemma LastPlace(data: seq<byte>, pos: nat, i: nat, value: int, whole: nat)
    requires ReadSoFar(data, pos, 0, i, value, whole)
    ensures value == whole
  {
  }

  /** `decode_payload`, filling the tables of a default model. */
  method ReadPayload(data: seq<byte>, schema: uint16) returns (r: Read<Model>)
    ensures Agrees(r, |data|, DecodePayload(data, schema))
  {
    hide GetHead, GetTable, Fill, DecodeRest;
    var reader := new Reader(data);
    var h :- reader.GetHeadFields(schema);
    ghost var p1 := reader.position;
    var inputs :- reader.GetInputs(h.inputCount, schema);
    var mixes :- reader.GetMixes(h.mixCount, schema);
    var logicals :- reader.GetLogicals(h.logicalCount, schema);
    assert GetLines(data, p1, schema, h).Done?;
    r := ReadRest(reader, schema, h, inputs, mixes, logicals, GetLines(data, p1, schema, h).value);
  }

  method ReadRest(reader: Reader, schema: uint16, h: Head, inputs: Inputs, mixes: Mixes, logicals: Logicals,
                  ghost a: Lines)
      returns (r: Read<Model>)
    requires HeadOk(h) && LinesFit(a, h)
    requires inputs == Fill(a.inputs, 16, DEFAULT_INPUT) && mixes == Fill(a.mixes, 64, DEFAULT_MIX)
    requires logicals == Fill(a.logicals, 24, DEFAULT_LOGICAL)
    modifies reader
    ensures Agrees(r, |reader.data|, DecodeRest(reader.data, old(reader.position), schema, h, a))
  {
    hide GetTable, GetValues, GetVideo, Fill;
    var modes :- reader.GetModes(h.modeCount, schema);
    var curves :- reader.GetCurves(h.curveCount, schema);
    var gvars :- reader.GetValueList(MAX_GVARS);
    assert GetShapes(reader.data, old(reader.position), schema, h).Done?;
    ghost var p := reader.position;
    var outputs :- reader.GetOutputs(CHANNEL_COUNT, schema);
    var timers :- reader.GetTimers(MAX_TIMERS, schema);
    var specials :- reader.GetSpecials(h.specialCount, schema);
    assert GetLimits(reader.data, p, schema, h).Done?;
    var video :- reader.GetVideoFields(schema);
    var m := Model(h, inputs, mixes, logicals, modes, curves, gvars, outputs, timers, specials, video);
    ghost var spec := DecodeRest(reader.data, old(reader.position), schema, h, a);
    assert reader.position == |reader.data| ==> spec.Done?;
    assert reader.position == |reader.data| ==> spec.value == m;
    r := if reader.position == |reader.data| then Got(m) else Missing;
  }

  method DeriveMask(mode: FlightMode) returns (mask: uint16)
    ensures mask == OverrideMode(mode).gvarOverrideMask
  {
    Pow2Values();
    mask := mode.gvarOverrideMask;
    for i := 0 to MAX_GVARS
      invariant OverrideMask(mask, mode.gvars, i) == OverrideMask(mode.gvarOverrideMask, mode.gvars, 0)
    {
      if mode.gvars[i] != 0 {
        Pow2Below(i, 16);
        OrBound(mask, Pow2(i), 16);
        mask := Or(mask, Pow2(i));
      }
    }
  }

  /** The axes of a stock model are still mixed one to one. */
  method AxesAreStock(m: Model) returns (stock: bool)
    ensures stock == forall axis :: 0 <= axis < 4 ==> LegacyAxis(m, axis)
  {
    stock := true;
    for axis := 0 to 4
      invariant stock == forall k :: 0 <= k < axis ==> LegacyAxis(m, k)
    {
      stock := stock && LegacyAxis(m, axis);
    }
  }

  method AuxesAreStock(m: Model) returns (stock: bool)
    ensures stock == forall aux :: 0 <= aux < AUX_SWITCH_COUNT ==> LegacyAux(m, aux)
  {
    stock := true;
    for aux := 0 to AUX_SWITCH_COUNT
      invariant stock == forall k :: 0 <= k < aux ==> LegacyAux(m, k)
    {
      stock := stock && LegacyAux(m, aux);
    }
  }

  /** Four mixes, from the given switches or inputs on, are appended to a stock model. */
  method AppendMixes(mixes: Mixes, first: byte, kind: byte) returns (r: Mixes)
    requires first == 4 || first == 8
    ensures r == mixes[first := WithSource(mixes[first], first, SourceRef(kind, 4, 0))]
                      [first + 1 := WithSource(mixes[first + 1], first + 1, SourceRef(kind, 5, 0))]
                      [first + 2 := WithSource(mixes[first + 2], first + 2, SourceRef(kind, 6, 0))]
                      [first + 3 := WithSource(mixes[first + 3], first + 3, SourceRef(kind, 7, 0))]
  {
    r := mixes;
    for i := 0 to 4
      invariant forall k :: 0 <= k < 64 ==>
        r[k] == if first as int <= k < first as int + i
                then WithSource(mixes[k], k, SourceRef(kind, 4 + k - first as int, 0)) else mixes[k]
    {
      var at := first + i;
      r := r[at := WithSource(r[at], at, SourceRef(kind, 4 + i, 0))];
    }
  }

  method AddAuxMixes(schema: uint16, m: Model) returns (r: Model)
    requires schema < 4
    ensures r == MigrateAux(schema, m)
  {
    r := m;
    if NamedDefault(m) && m.head.inputCount == 4 && m.head.mixCount == 4 {
      var stock := AxesAreStock(m);
      if stock {
        var mixes := AppendMixes(m.mixes, 4, SOURCE_SWITCH);
        r := m.(head := m.head.(mixCount := 8, requiredSwitchMask := AuxRequired(m.head.requiredSwitchMask)),
                mixes := mixes, outputs := m.outputs[4 := m.outputs[4].(failsafe := -RESOLUTION)]);
      }
    }
  }

  method AddAxes(schema: uint16, m: Model) returns (r: Model)
    requires schema < 5
    ensures r == MigrateAxes(schema, m)
  {
    r := m;
    if NamedDefault(m) && m.head.inputCount == 4 && m.head.mixCount == 8 {
      var axes := AxesAreStock(m);
      var auxes := AuxesAreStock(m);
      if axes && auxes {
        var inputs := m.inputs;
        for axis := 4 to MAX_AXES
          invariant forall k :: 0 <= k < 16 ==>
            inputs[k] == if 4 <= k < axis then WithAxis(m.inputs[k], k) else m.inputs[k]
        {
          inputs := inputs[axis := WithAxis(inputs[axis], axis)];
        }
        assert inputs == MigrateAxes(schema, m).inputs;
        var mixes := AppendMixes(m.mixes, 8, SOURCE_INPUT);
        r := m.(head := m.head.(inputCount := 8, mixCount := 12), inputs := inputs, mixes := mixes);
      }
    }
  }

  /** `ModelCodec::migrate`: the model is upgraded in place, step by step. */
  method MigrateInPlace(schema: uint16, old_: Model) returns (m: Model)
    ensures m == Migrate(schema, old_)
  {
    m := old_;
    if schema == 1 {
      m := m.(head := m.head.(requiredSwitchMask := 0, requiredSwitchValues := 0));
    }
    ghost var m1 := m;
    if schema < 3 {
      for i := 0 to MAX_FLIGHT_MODES
        invariant m == m1.(modes := m.modes)
        invariant forall k :: 0 <= k < MAX_FLIGHT_MODES ==>
          m.modes[k] == if k < i then OverrideMode(m1.modes[k]) else m1.modes[k]
      {
        var mask := DeriveMask(m.modes[i]);
        m := m.(modes := m.modes[i := m.modes[i].(gvarOverrideMask := mask)]);
      }
    }
    assert m.modes == MigrateModes(schema, m1).modes;
    if schema < 4 {
      m := AddAuxMixes(schema, m);
    }
    if schema < 5 {
      m := AddAxes(schema, m);
    }
    if schema < 6 {
      m := m.(video := Video(0, 0, true, true));
    }
  }

  /** `ModelCodec::decode`. */
  method ReadFile(data: seq<byte>) returns (r: DecodeResult)
    ensures r == DecodeFile(data)
  {
    hide Migrate, Valid, DecodePayload;
    if |data| < HEADER_SIZE {
      return Rejected(HeaderTruncated);
    }
    var header := GetHeader(data).value;
    if header.magic != MAGIC || header.payloadSize != |data| - HEADER_SIZE {
      return Rejected(InvalidHeader);
    }
    var payload := data[HEADER_SIZE..];
    var crc := Crc.ComputeCrc32(payload);
    if crc != header.crc {
      return Rejected(CrcMismatch);
    }
    if header.schema == 0 || header.schema > SCHEMA {
      return Rejected(UnsupportedSchema);
    }
    var parsed := ReadPayload(payload, header.schema);
    if parsed.Missing? {
      return Rejected(InvalidPayload);
    }
    var m := MigrateInPlace(header.schema, parsed.value);
    r := if Valid(m) then Accepted(m, header.generation) else Rejected(InvalidValues);
  }
}
