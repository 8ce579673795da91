/** `ModelCodec`: the file header, the CRC, the schema migrations, and what the format promises
    as a whole. */
module ModelCodec {
  import opened Bits
  import opened Wire
  import opened Model
  import opened Records
  import opened Payload
  import Crc

  const MAGIC: word := 0x4D56_5252
  const HEADER_SIZE := 20

  datatype DecodeError =
    | HeaderTruncated | InvalidHeader | CrcMismatch | UnsupportedSchema | InvalidPayload | InvalidValues

  datatype DecodeResult = Accepted(model: Model, generation: word) | Rejected(error: DecodeError)

  datatype Header = Header(
    magic: word, schema: uint16, reserved: uint16, payloadSize: word, generation: word, crc: word)

  // ---------------------------------------------------------------- sizes

  lemma {:induction false} ValuesSize(acc: seq<byte>, xs: seq<int16>)
    ensures |PutValues(acc, xs)| == |acc| + 2 * |xs|
  {
    TableSize(VALUE, acc, xs, 2);
  }

  /** The byte a switch reference has more since schema 6. */
  function Position(schema: uint16): nat {
    if schema >= 6 then 1 else 0
  }

  function ModeBytes(schema: uint16): nat {
    if schema >= 6 then 44 else if schema >= 3 then 43 else 41
  }

  lemma LineSizes(schema: uint16)
    ensures forall a: seq<byte>, x: InputLine :: |PutInput(a, x, schema)| == |a| + 10 + Position(schema)
    ensures forall a: seq<byte>, x: MixLine :: |PutMix(a, x, schema)| == |a| + 24 + Position(schema)
    ensures forall a: seq<byte>, x: LogicalSwitch :: |PutLogical(a, x, schema)| == |a| + 21 + 3 * Position(schema)
  {
    forall a: seq<byte>, x: InputLine ensures |PutInput(a, x, schema)| == |a| + 10 + Position(schema) {}
    forall a: seq<byte>, x: MixLine ensures |PutMix(a, x, schema)| == |a| + 24 + Position(schema) {}
    forall a: seq<byte>, x: LogicalSwitch ensures |PutLogical(a, x, schema)| == |a| + 21 + 3 * Position(schema) {}
  }

  lemma LinesSize(acc: seq<byte>, t: Lines, schema: uint16)
    ensures |PutLines(acc, t, schema)| == |acc| + (10 + Position(schema)) * |t.inputs|
      + (24 + Position(schema)) * |t.mixes| + (21 + 3 * Position(schema)) * |t.logicals|
  {
    hide PutInput, PutMix, PutLogical;
    LineSizes(schema);
    hide Position;
    var acc1 := PutTable(InputCodec(schema), acc, t.inputs);
    var acc2 := PutTable(MixCodec(schema), acc1, t.mixes);
    TableSize(InputCodec(schema), acc, t.inputs, 10 + Position(schema));
    TableSize(MixCodec(schema), acc1, t.mixes, 24 + Position(schema));
    TableSize(LogicalCodec(schema), acc2, t.logicals, 21 + 3 * Position(schema));
  }

  lemma ModeSize(acc: seq<byte>, x: FlightMode, schema: uint16)
    ensures |PutMode(acc, x, schema)| == |acc| + ModeBytes(schema)
  {
    var acc1 := PutSwitch(PutBool(acc, x.enabled), x.condition, schema);
    ValuesSize(acc1, x.trims);
    ValuesSize(PutValues(acc1, x.trims), x.gvars);
  }

  lemma CurveSize(acc: seq<byte>, x: Curve)
    ensures |PutCurve(acc, x)| == |acc| + 19
  {
    ValuesSize(PutBool(acc, x.enabled), x.points);
  }

  lemma ShapesSize(acc: seq<byte>, t: Shapes, schema: uint16)
    ensures |PutShapes(acc, t, schema)|
            == |acc| + ModeBytes(schema) * |t.modes| + 19 * |t.curves| + 2 * |t.gvars|
  {
    hide ModeBytes;
    forall a: seq<byte>, x: FlightMode ensures |ModeCodec(schema).put(a, x)| == |a| + ModeBytes(schema) {
      ModeSize(a, x, schema);
    }
    forall a: seq<byte>, x: Curve ensures |CurveCodec(schema).put(a, x)| == |a| + 19 {
      CurveSize(a, x);
    }
    var acc1 := PutTable(ModeCodec(schema), acc, t.modes);
    TableSize(ModeCodec(schema), acc, t.modes, ModeBytes(schema));
    TableSize(CurveCodec(schema), acc1, t.curves, 19);
    ValuesSize(PutTable(CurveCodec(schema), acc1, t.curves), t.gvars);
  }

  lemma LimitsSize(acc: seq<byte>, t: Limits, schema: uint16)
    ensures |PutLimits(acc, t, schema)|
            == |acc| + 9 * |t.outputs| + (9 + Position(schema)) * |t.timers| + (6 + Position(schema)) * |t.specials|
  {
    var acc1 := PutTable(OutputCodec(schema), acc, t.outputs);
    var acc2 := PutTable(TimerCodec(schema), acc1, t.timers);
    TableSize(OutputCodec(schema), acc, t.outputs, 9);
    TableSize(TimerCodec(schema), acc1, t.timers, 9 + Position(schema));
    TableSize(SpecialCodec(schema), acc2, t.specials, 6 + Position(schema));
  }

  lemma HeadSize(h: Head, schema: uint16)
    ensures |PutHead(h, schema)| == if schema >= 2 then 35 else 33
  {
  }

  /** The bytes of a table. */
  function Times(size: nat, count: nat): nat {
    size * count
  }

  /** The payload size as a function of the six counts and the schema. */
  lemma PayloadSize(m: Model, schema: uint16)
    requires HeadOk(m.head)
    ensures |EncodePayload(m, schema)| ==
      (if schema >= 6 then 231 else if schema >= 2 then 224 else 222)
      + Times(10 + Position(schema), m.head.inputCount) + Times(24 + Position(schema), m.head.mixCount)
      + Times(21 + 3 * Position(schema), m.head.logicalCount) + Times(ModeBytes(schema), m.head.modeCount)
      + 19 * m.head.curveCount + Times(6 + Position(schema), m.head.specialCount)
  {
    hide PutHead, PutLines, PutShapes, PutLimits;
    HeadSize(m.head, schema);
    var acc1 := PutHead(m.head, schema);
    LinesSize(acc1, LinesOf(m), schema);
    var acc2 := PutLines(acc1, LinesOf(m), schema);
    ShapesSize(acc2, ShapesOf(m), schema);
    var acc3 := PutShapes(acc2, ShapesOf(m), schema);
    LimitsSize(acc3, LimitsOf(m), schema);
  }

  lemma PayloadFits(m: Model, schema: uint16)
    requires HeadOk(m.head)
    ensures |EncodePayload(m, schema)| < 0x1_0000
  {
    hide EncodePayload, Times, HeadOk, Position, ModeBytes;
    PayloadSize(m, schema);
    var h := m.head;
    Counts(h);
    Widths(schema);
    Product(10 + Position(schema), h.inputCount);
    Product(24 + Position(schema), h.mixCount);
    Product(21 + 3 * Position(schema), h.logicalCount);
    Product(ModeBytes(schema), h.modeCount);
    Product(6 + Position(schema), h.specialCount);
  }

  lemma Counts(h: Head)
    requires HeadOk(h)
    ensures h.inputCount <= 16 && h.mixCount <= 64 && h.logicalCount <= 24 && h.modeCount <= 5
    ensures h.curveCount <= 16 && h.specialCount <= 24
  {
  }

  lemma Widths(schema: uint16)
    ensures Position(schema) <= 1 && ModeBytes(schema) <= 44
  {
  }

  lemma Product(size: nat, count: nat)
    requires size <= 44 && count <= 64
    ensures Times(size, count) <= 2816
  {
    assert size * count <= 44 * count;
  }

  // ---------------------------------------------------------------- header

  function PutHeader(h: Header): (r: seq<byte>)
    ensures |r| == HEADER_SIZE
  {
    var acc := PutU(PutU(PutU([], h.magic, 4), h.schema, 2), h.reserved, 2);
    PutU(PutU(PutU(acc, h.payloadSize, 4), h.generation, 4), h.crc, 4)
  }

  function GetHeader(data: seq<byte>): (r: Parsed<Header>)
    ensures |data| >= HEADER_SIZE ==> r.Done? && r.pos == HEADER_SIZE
  {
    var (magic, p) :- GetU(data, 0, 4);
    var (schema, p) :- GetU(data, p, 2);
    var (reserved, p) :- GetU(data, p, 2);
    var (size, p) :- GetU(data, p, 4);
    var (generation, p) :- GetU(data, p, 4);
    var (crc, p) :- GetU(data, p, 4);
    Done(Header(magic, schema, reserved, size, generation, crc), p)
  }

  lemma HeaderForward(h: Header, data: seq<byte>)
    requires Starts(PutHeader(h), data)
    ensures GetHeader(data) == Done(h, HEADER_SIZE)
  {
    hide Starts, PutU, GetU;
    FieldsForward();
    Bounds();
  }

  lemma HeaderBackward(data: seq<byte>)
    requires GetHeader(data).Done?
    ensures PutHeader(GetHeader(data).value) == data[..HEADER_SIZE]
  {
    FieldsBackward();
    assert data[..0] == [];
    hide PutU, GetU;
  }

  // ---------------------------------------------------------------- migration

  /** The NUL-terminated name "Default". */
  predicate NamedDefault(m: Model) {
    m.head.name[..8] == [0x44, 0x65, 0x66, 0x61, 0x75, 0x6C, 0x74, 0]
  }

  /** The override bits of the global variables that are not zero, from index `i` on. */
  function OverrideMask(mask: nat, gvars: seq<int16>, i: nat): nat
    requires i <= |gvars|
    decreases |gvars| - i
  {
    if i == |gvars| then mask
    else OverrideMask(if gvars[i] != 0 then Or(mask, Pow2(i)) else mask, gvars, i + 1)
  }

  lemma {:induction false} OrBound(x: nat, y: nat, k: nat)
    requires x < Pow2(k) && y < Pow2(k)
    ensures Or(x, y) < Pow2(k)
    decreases k
  {
    if k > 0 && !(x == 0 && y == 0) {
      OrBound(x / 2, y / 2, k - 1);
    }
  }

  lemma {:induction false} Pow2Below(i: nat, k: nat)
    requires i < k
    ensures Pow2(i) < Pow2(k)
  {
    if i + 1 < k {
      Pow2Below(i, k - 1);
    }
  }

  lemma {:induction false} OverrideMaskBound(mask: nat, gvars: seq<int16>, i: nat)
    requires i <= |gvars| <= 16 && mask < Pow2(16)
    ensures OverrideMask(mask, gvars, i) < 0x1_0000
    decreases |gvars| - i
  {
    Pow2Values();
    if i < |gvars| {
      Pow2Below(i, 16);
      OrBound(mask, Pow2(i), 16);
      OverrideMaskBound(if gvars[i] != 0 then Or(mask, Pow2(i)) else mask, gvars, i + 1);
    }
  }

  /** Before schema 3 a mode's non-zero global variables always applied. */
  function OverrideMode(x: FlightMode): FlightMode {
    Pow2Values();
    OverrideMaskBound(x.gvarOverrideMask, x.gvars, 0);
    x.(gvarOverrideMask := OverrideMask(x.gvarOverrideMask, x.gvars, 0))
  }

  predicate LegacyAxis(m: Model, axis: nat)
    requires axis < 8
  {
    && m.inputs[axis].enabled && m.inputs[axis].sourceAxis == axis && m.inputs[axis].destination == axis
    && m.mixes[axis].enabled && m.mixes[axis].destination == axis
    && m.mixes[axis].source.kind == SOURCE_INPUT && m.mixes[axis].source.index == axis
  }

  predicate LegacyAux(m: Model, aux: nat)
    requires aux < AUX_SWITCH_COUNT
  {
    var mix := m.mixes[4 + aux];
    && mix.enabled && mix.destination == 4 + aux && mix.source.kind == SOURCE_SWITCH
    && mix.source.index == FIRST_AUX_SWITCH + aux
  }

  function WithSource(x: MixLine, destination: byte, source: SourceRef): MixLine {
    x.(enabled := true, destination := destination, source := source, weightPercent := 100)
  }

  function WithAxis(x: InputLine, axis: byte): InputLine {
    x.(enabled := true, sourceAxis := axis, destination := axis, weightPercent := 100)
  }

  /** Schema 1: no required switches. */
  function MigrateSwitches(schema: uint16, m: Model): Model {
    if schema == 1 then m.(head := m.head.(requiredSwitchMask := 0, requiredSwitchValues := 0)) else m
  }

  /** Before schema 3: derive the override masks. */
  function MigrateModes(schema: uint16, m: Model): Model {
    if schema < 3 then m.(modes := seq(5, i requires 0 <= i < 5 => OverrideMode(m.modes[i]))) else m
  }

  function AuxRequired(mask: byte): byte {
    Pow2Values();
    OrBound(mask, 0x10, 8);
    Or(mask, 0x10)
  }

  /** Before schema 4: a stock four-channel model gains the four auxiliary switches. */
  function MigrateAux(schema: uint16, m: Model): Model {
    if schema < 4 && NamedDefault(m) && m.head.inputCount == 4 && m.head.mixCount == 4
       && forall axis :: 0 <= axis < 4 ==> LegacyAxis(m, axis)
    then
      m.(head := m.head.(mixCount := 8, requiredSwitchMask := AuxRequired(m.head.requiredSwitchMask)),
         mixes := m.mixes[4 := WithSource(m.mixes[4], 4, SourceRef(SOURCE_SWITCH, 4, 0))]
                         [5 := WithSource(m.mixes[5], 5, SourceRef(SOURCE_SWITCH, 5, 0))]
                         [6 := WithSource(m.mixes[6], 6, SourceRef(SOURCE_SWITCH, 6, 0))]
                         [7 := WithSource(m.mixes[7], 7, SourceRef(SOURCE_SWITCH, 7, 0))],
         outputs := m.outputs[4 := m.outputs[4].(failsafe := -RESOLUTION)])
    else m
  }

  /** Before schema 5: a stock eight-mix model gains the four further axes. */
  function MigrateAxes(schema: uint16, m: Model): Model {
    if schema < 5 && NamedDefault(m) && m.head.inputCount == 4 && m.head.mixCount == 8
       && (forall axis :: 0 <= axis < 4 ==> LegacyAxis(m, axis))
       && forall aux :: 0 <= aux < AUX_SWITCH_COUNT ==> LegacyAux(m, aux)
    then
      m.(head := m.head.(inputCount := 8, mixCount := 12),
         inputs := m.inputs[4 := WithAxis(m.inputs[4], 4)][5 := WithAxis(m.inputs[5], 5)]
                           [6 := WithAxis(m.inputs[6], 6)][7 := WithAxis(m.inputs[7], 7)],
         mixes := m.mixes[8 := WithSource(m.mixes[8], 8, SourceRef(SOURCE_INPUT, 4, 0))]
                         [9 := WithSource(m.mixes[9], 9, SourceRef(SOURCE_INPUT, 5, 0))]
                         [10 := WithSource(m.mixes[10], 10, SourceRef(SOURCE_INPUT, 6, 0))]
                         [11 := WithSource(m.mixes[11], 11, SourceRef(SOURCE_INPUT, 7, 0))])
    else m
  }

  /** Before schema 6: default video settings. */
  function MigrateVideo(schema: uint16, m: Model): Model {
    if schema < 6 then m.(video := Video(0, 0, true, true)) else m
  }

  function Migrate(schema: uint16, m: Model): Model {
    MigrateVideo(schema,
      MigrateAxes(schema, MigrateAux(schema, MigrateModes(schema, MigrateSwitches(schema, m)))))
  }

  // ---------------------------------------------------------------- files

  function EncodeFile(m: Model, generation: word): seq<byte> {
    if !Valid(m) then []
    else
      var payload := EncodePayload(m, SCHEMA);
      PayloadFits(m, SCHEMA);
      PutHeader(Header(MAGIC, SCHEMA, 0, |payload|, generation, Crc.Crc32(payload))) + payload
  }

  function DecodeFile(data: seq<byte>): DecodeResult {
    if |data| < HEADER_SIZE then Rejected(HeaderTruncated)
    else
      var h := GetHeader(data).value;
      var payload := data[HEADER_SIZE..];
      if h.magic != MAGIC || h.payloadSize != |data| - HEADER_SIZE then Rejected(InvalidHeader)
      else if Crc.Crc32(payload) != h.crc then Rejected(CrcMismatch)
      else if h.schema == 0 || h.schema > SCHEMA then Rejected(UnsupportedSchema)
      else
        match DecodePayload(payload, h.schema)
        case Fail => Rejected(InvalidPayload)
        case Done(m, _) =>
          var migrated := Migrate(h.schema, m);
          if Valid(migrated) then Accepted(migrated, h.generation) else Rejected(InvalidValues)
  }
}
