/** The payload of a model file: `encode_payload` and `decode_payload` as functions, and the proof
    that in every schema each is the other's inverse. */
module Payload {
  import opened Bits
  import opened Wire
  import opened Model
  import opened Records

  // ---------------------------------------------------------------- head

  /** Schema 1 had no required-switch bytes. */
  function PutHead(h: Head, schema: uint16): seq<byte> {
    var acc := PutU(PutU(PutU(h.name, h.modelId, 1), h.throttleAxis, 1), h.throttleChannel, 1);
    var acc := if schema >= 2 then PutU(PutU(acc, h.requiredSwitchMask, 1), h.requiredSwitchValues, 1) else acc;
    var acc := PutU(PutU(PutU(acc, h.inputCount, 1), h.mixCount, 1), h.logicalCount, 1);
    PutU(PutU(PutU(acc, h.modeCount, 1), h.curveCount, 1), h.specialCount, 1)
  }

  /** What a file of the schema can carry. */
  predicate HeadIn(h: Head, schema: uint16) {
    HeadOk(h) && (schema >= 2 || (h.requiredSwitchMask == 0 && h.requiredSwitchValues == 0))
  }

  function GetHead(data: seq<byte>, schema: uint16): (r: Parsed<Head>)
    ensures r.Done? ==> HeadOk(r.value)
  {
    if |data| < NAME_SIZE then Fail
    else
      var (modelId, p) :- GetU(data, NAME_SIZE, 1);
      var (axis, p) :- GetU(data, p, 1);
      var (channel, p) :- GetU(data, p, 1);
      var (mask, p) :- if schema >= 2 then GetU(data, p, 1) else Done(0, p);
      var (values, p) :- if schema >= 2 then GetU(data, p, 1) else Done(0, p);
      var (inputs, p) :- GetU(data, p, 1);
      var (mixes, p) :- GetU(data, p, 1);
      var (logicals, p) :- GetU(data, p, 1);
      var (modes, p) :- GetU(data, p, 1);
      var (curves, p) :- GetU(data, p, 1);
      var (specials, p) :- GetU(data, p, 1);
      var h := Head(data[..NAME_SIZE], modelId, axis, channel, mask, values,
                    inputs, mixes, logicals, modes, curves, specials);
      if HeadOk(h) then Done(h, p) else Fail
  }

  lemma HeadForward(h: Head, data: seq<byte>, schema: uint16)
    requires HeadIn(h, schema) && Starts(PutHead(h, schema), data)
    ensures GetHead(data, schema) == Done(h, |PutHead(h, schema)|)
  {
    FieldsForward();
    Bounds();
    hide PutU, GetU, HeadOk;
  }

  lemma HeadBackward(data: seq<byte>, schema: uint16)
    requires GetHead(data, schema).Done?
    ensures var r := GetHead(data, schema);
      HeadIn(r.value, schema) && r.pos <= |data| && PutHead(r.value, schema) == data[..r.pos]
  {
    FieldsBackward();
    hide PutU, GetU, HeadOk;
  }

  // ---------------------------------------------------------------- tables, three groups of three

  datatype Lines = Lines(inputs: seq<InputLine>, mixes: seq<MixLine>, logicals: seq<LogicalSwitch>)
  datatype Shapes = Shapes(modes: seq<FlightMode>, curves: seq<Curve>, gvars: seq<int16>)
  datatype Limits = Limits(
    outputs: seq<OutputLimit>, timers: seq<TimerConfig>, specials: seq<SpecialFunction>)

  predicate LinesFit(t: Lines, h: Head) {
    |t.inputs| == h.inputCount && |t.mixes| == h.mixCount && |t.logicals| == h.logicalCount
  }

  predicate ShapesFit(t: Shapes, h: Head) {
    |t.modes| == h.modeCount && |t.curves| == h.curveCount && |t.gvars| == MAX_GVARS
  }

  predicate LimitsFit(t: Limits, h: Head) {
    |t.outputs| == CHANNEL_COUNT && |t.timers| == MAX_TIMERS && |t.specials| == h.specialCount
  }

  function PutLines(acc: seq<byte>, t: Lines, schema: uint16): seq<byte> {
    var acc := PutTable(InputCodec(schema), acc, t.inputs);
    var acc := PutTable(MixCodec(schema), acc, t.mixes);
    PutTable(LogicalCodec(schema), acc, t.logicals)
  }

  function GetLines(data: seq<byte>, pos: nat, schema: uint16, h: Head): (r: Parsed<Lines>)
    ensures r.Done? ==> LinesFit(r.value, h)
  {
    var (inputs, p) :- GetTable(InputCodec(schema), data, pos, h.inputCount);
    var (mixes, p) :- GetTable(MixCodec(schema), data, p, h.mixCount);
    var (logicals, p) :- GetTable(LogicalCodec(schema), data, p, h.logicalCount);
    Done(Lines(inputs, mixes, logicals), p)
  }

  function PutShapes(acc: seq<byte>, t: Shapes, schema: uint16): seq<byte> {
    var acc := PutTable(ModeCodec(schema), acc, t.modes);
    PutValues(PutTable(CurveCodec(schema), acc, t.curves), t.gvars)
  }

  function GetShapes(data: seq<byte>, pos: nat, schema: uint16, h: Head): (r: Parsed<Shapes>)
    ensures r.Done? ==> ShapesFit(r.value, h)
  {
    var (modes, p) :- GetTable(ModeCodec(schema), data, pos, h.modeCount);
    var (curves, p) :- GetTable(CurveCodec(schema), data, p, h.curveCount);
    var (gvars, p) :- GetValues(data, p, MAX_GVARS);
    Done(Shapes(modes, curves, gvars), p)
  }

  function PutLimits(acc: seq<byte>, t: Limits, schema: uint16): seq<byte> {
    var acc := PutTable(OutputCodec(schema), acc, t.outputs);
    var acc := PutTable(TimerCodec(schema), acc, t.timers);
    PutTable(SpecialCodec(schema), acc, t.specials)
  }

  function GetLimits(data: seq<byte>, pos: nat, schema: uint16, h: Head): (r: Parsed<Limits>)
    ensures r.Done? ==> LimitsFit(r.value, h)
  {
    var (outputs, p) :- GetTable(OutputCodec(schema), data, pos, CHANNEL_COUNT);
    var (timers, p) :- GetTable(TimerCodec(schema), data, p, MAX_TIMERS);
    var (specials, p) :- GetTable(SpecialCodec(schema), data, p, h.specialCount);
    Done(Limits(outputs, timers, specials), p)
  }

  predicate LinesReadable(t: Lines, h: Head, schema: uint16) {
    && LinesFit(t, h)
    && (forall i :: 0 <= i < |t.inputs| ==> InputIn(t.inputs[i], schema))
    && (forall i :: 0 <= i < |t.mixes| ==> MixIn(t.mixes[i], schema))
    && (forall i :: 0 <= i < |t.logicals| ==> LogicalIn(t.logicals[i], schema))
  }

  predicate ShapesReadable(t: Shapes, h: Head, schema: uint16) {
    && ShapesFit(t, h)
    && (forall i :: 0 <= i < |t.modes| ==> ModeIn(t.modes[i], schema))
  }

  predicate LimitsReadable(t: Limits, h: Head, schema: uint16) {
    && LimitsFit(t, h)
    && (forall i :: 0 <= i < |t.outputs| ==> OutputReadable(t.outputs[i]))
    && (forall i :: 0 <= i < |t.timers| ==> TimerIn(t.timers[i], schema))
    && (forall i :: 0 <= i < |t.specials| ==> SpecialIn(t.specials[i], schema))
  }

  lemma LinesForward(acc: seq<byte>, t: Lines, h: Head, data: seq<byte>, schema: uint16)
    requires LinesReadable(t, h, schema) && Starts(PutLines(acc, t, schema), data)
    ensures Starts(acc, data) && GetLines(data, |acc|, schema, h) == Done(t, |PutLines(acc, t, schema)|)
  {
    hide PutTable, GetTable, InputCodec, MixCodec, LogicalCodec, InputIn, MixIn, LogicalIn, Starts;
    var acc1 := PutTable(InputCodec(schema), acc, t.inputs);
    var acc2 := PutTable(MixCodec(schema), acc1, t.mixes);
    LogicalsForward(acc2, t.logicals, data, schema);
    MixesForward(acc1, t.mixes, data, schema);
    InputsForward(acc, t.inputs, data, schema);
  }

  lemma InputsForward(acc: seq<byte>, inputs: seq<InputLine>, data: seq<byte>, schema: uint16)
    requires forall i :: 0 <= i < |inputs| ==> InputIn(inputs[i], schema)
    requires Starts(PutTable(InputCodec(schema), acc, inputs), data)
    ensures Starts(acc, data)
    ensures GetTable(InputCodec(schema), data, |acc|, |inputs|)
            == Done(inputs, |PutTable(InputCodec(schema), acc, inputs)|)
  {
    InputLawful(schema);
    TableForward(InputCodec(schema), acc, inputs, data);
  }

  lemma MixesForward(acc: seq<byte>, mixes: seq<MixLine>, data: seq<byte>, schema: uint16)
    requires forall i :: 0 <= i < |mixes| ==> MixIn(mixes[i], schema)
    requires Starts(PutTable(MixCodec(schema), acc, mixes), data)
    ensures Starts(acc, data)
    ensures GetTable(MixCodec(schema), data, |acc|, |mixes|) == Done(mixes, |PutTable(MixCodec(schema), acc, mixes)|)
  {
    MixLawful(schema);
    TableForward(MixCodec(schema), acc, mixes, data);
  }

  lemma LogicalsForward(acc: seq<byte>, logicals: seq<LogicalSwitch>, data: seq<byte>, schema: uint16)
    requires forall i :: 0 <= i < |logicals| ==> LogicalIn(logicals[i], schema)
    requires Starts(PutTable(LogicalCodec(schema), acc, logicals), data)
    ensures Starts(acc, data)
    ensures GetTable(LogicalCodec(schema), data, |acc|, |logicals|)
            == Done(logicals, |PutTable(LogicalCodec(schema), acc, logicals)|)
  {
    LogicalLawful(schema);
    TableForward(LogicalCodec(schema), acc, logicals, data);
  }

  lemma LinesBackward(data: seq<byte>, pos: nat, h: Head, schema: uint16)
    requires pos <= |data| && GetLines(data, pos, schema, h).Done?
    ensures var r := GetLines(data, pos, schema, h);
      LinesReadable(r.value, h, schema) && pos <= r.pos <= |data| &&
      PutLines(data[..pos], r.value, schema) == data[..r.pos]
  {
    InputLawful(schema);
    MixLawful(schema);
    LogicalLawful(schema);
    var p1 := GetTable(InputCodec(schema), data, pos, h.inputCount).pos;
    TableBackward(InputCodec(schema), data, pos, h.inputCount);
    var p2 := GetTable(MixCodec(schema), data, p1, h.mixCount).pos;
    TableBackward(MixCodec(schema), data, p1, h.mixCount);
    TableBackward(LogicalCodec(schema), data, p2, h.logicalCount);
  }

  lemma ShapesForward(acc: seq<byte>, t: Shapes, h: Head, data: seq<byte>, schema: uint16)
    requires ShapesReadable(t, h, schema) && Starts(PutShapes(acc, t, schema), data)
    ensures Starts(acc, data) && GetShapes(data, |acc|, schema, h) == Done(t, |PutShapes(acc, t, schema)|)
  {
    ModeLawful(schema);
    CurveLawful(schema);
    ValuesForward();
    var acc1 := PutTable(ModeCodec(schema), acc, t.modes);
    TableForward(CurveCodec(schema), acc1, t.curves, data);
    TableForward(ModeCodec(schema), acc, t.modes, data);
  }

  lemma ShapesBackward(data: seq<byte>, pos: nat, h: Head, schema: uint16)
    requires pos <= |data| && GetShapes(data, pos, schema, h).Done?
    ensures var r := GetShapes(data, pos, schema, h);
      ShapesReadable(r.value, h, schema) && pos <= r.pos <= |data| &&
      PutShapes(data[..pos], r.value, schema) == data[..r.pos]
  {
    ModeLawful(schema);
    CurveLawful(schema);
    ValuesBackward();
    var p1 := GetTable(ModeCodec(schema), data, pos, h.modeCount).pos;
    TableBackward(ModeCodec(schema), data, pos, h.modeCount);
    TableBackward(CurveCodec(schema), data, p1, h.curveCount);
  }

  lemma LimitsForward(acc: seq<byte>, t: Limits, h: Head, data: seq<byte>, schema: uint16)
    requires LimitsReadable(t, h, schema) && Starts(PutLimits(acc, t, schema), data)
    ensures Starts(acc, data) && GetLimits(data, |acc|, schema, h) == Done(t, |PutLimits(acc, t, schema)|)
  {
    OutputLawful(schema);
    TimerLawful(schema);
    SpecialLawful(schema);
    var acc1 := PutTable(OutputCodec(schema), acc, t.outputs);
    var acc2 := PutTable(TimerCodec(schema), acc1, t.timers);
    TableForward(SpecialCodec(schema), acc2, t.specials, data);
    TableForward(TimerCodec(schema), acc1, t.timers, data);
    TableForward(OutputCodec(schema), acc, t.outputs, data);
  }

  lemma LimitsBackward(data: seq<byte>, pos: nat, h: Head, schema: uint16)
    requires pos <= |data| && GetLimits(data, pos, schema, h).Done?
    ensures var r := GetLimits(data, pos, schema, h);
      LimitsReadable(r.value, h, schema) && pos <= r.pos <= |data| &&
      PutLimits(data[..pos], r.value, schema) == data[..r.pos]
  {
    OutputLawful(schema);
    TimerLawful(schema);
    SpecialLawful(schema);
    var p1 := GetTable(OutputCodec(schema), data, pos, CHANNEL_COUNT).pos;
    TableBackward(OutputCodec(schema), data, pos, CHANNEL_COUNT);
    var p2 := GetTable(TimerCodec(schema), data, p1, MAX_TIMERS).pos;
    TableBackward(TimerCodec(schema), data, p1, MAX_TIMERS);
    TableBackward(SpecialCodec(schema), data, p2, h.specialCount);
  }

  // ---------------------------------------------------------------- video settings

  /** Before schema 6 the video settings were not stored. */
  function PutVideo(acc: seq<byte>, v: Video, schema: uint16): seq<byte> {
    if schema < 6 then acc
    else PutBool(PutBool(PutU(PutU(acc, v.band, 1), v.channel, 1), v.overlay), v.rfLock)
  }

  predicate VideoIn(v: Video, schema: uint16) {
    if schema < 6 then v == Video(0, 0, true, true) else VideoOk(v)
  }

  function GetVideo(data: seq<byte>, pos: nat, schema: uint16): Parsed<Video> {
    if schema < 6 then Done(Video(0, 0, true, true), pos)
    else
      var (band, p) :- GetU(data, pos, 1);
      var (channel, p) :- GetU(data, p, 1);
      var (overlay, p) :- GetBool(data, p);
      var (rfLock, p) :- GetBool(data, p);
      var v := Video(band, channel, overlay, rfLock);
      if VideoOk(v) then Done(v, p) else Fail
  }

  lemma VideoForward(acc: seq<byte>, v: Video, data: seq<byte>, schema: uint16)
    requires VideoIn(v, schema) && Starts(PutVideo(acc, v, schema), data)
    ensures Starts(acc, data) && GetVideo(data, |acc|, schema) == Done(v, |PutVideo(acc, v, schema)|)
  {
    hide Starts, PutU, PutBool, GetU, GetBool;
    FieldsForward();
    Bounds();
  }

  lemma VideoBackward(data: seq<byte>, pos: nat, schema: uint16)
    requires pos <= |data| && GetVideo(data, pos, schema).Done?
    ensures var r := GetVideo(data, pos, schema);
      VideoIn(r.value, schema) && pos <= r.pos <= |data| && PutVideo(data[..pos], r.value, schema) == data[..r.pos]
  {
    hide Starts, PutU, PutBool, GetU, GetBool;
    FieldsBackward();
  }

  // ---------------------------------------------------------------- the whole payload

  function LinesOf(m: Model): Lines
    requires HeadOk(m.head)
  {
    Lines(m.inputs[..m.head.inputCount], m.mixes[..m.head.mixCount], m.logicals[..m.head.logicalCount])
  }

  function ShapesOf(m: Model): Shapes
    requires HeadOk(m.head)
  {
    Shapes(m.modes[..m.head.modeCount], m.curves[..m.head.curveCount], m.gvars)
  }

  function LimitsOf(m: Model): Limits
    requires HeadOk(m.head)
  {
    Limits(m.outputs, m.timers, m.specials[..m.head.specialCount])
  }

  function Assemble(h: Head, a: Lines, b: Shapes, c: Limits, v: Video): (m: Model)
    requires HeadOk(h)
    requires LinesFit(a, h) && ShapesFit(b, h) && LimitsFit(c, h)
    ensures m.head == h && m.video == v && LinesOf(m) == a && ShapesOf(m) == b && LimitsOf(m) == c
  {
    Model(
      h,
      Fill(a.inputs, 16, DEFAULT_INPUT), Fill(a.mixes, 64, DEFAULT_MIX), Fill(a.logicals, 24, DEFAULT_LOGICAL),
      Fill(b.modes, 5, DEFAULT_MODE), Fill(b.curves, 16, DEFAULT_CURVE), b.gvars,
      c.outputs, c.timers, Fill(c.specials, 24, DEFAULT_SPECIAL), v)
  }

  lemma AssembleNormal(m: Model)
    requires HeadOk(m.head)
    ensures Assemble(m.head, LinesOf(m), ShapesOf(m), LimitsOf(m), m.video) == Normalize(m)
  {
  }

  /** The payload in the layout of the given schema; the firmware writes the current one. */
  function EncodePayload(m: Model, schema: uint16): seq<byte>
    requires HeadOk(m.head)
  {
    var acc := PutLines(PutHead(m.head, schema), LinesOf(m), schema);
    var acc := PutLimits(PutShapes(acc, ShapesOf(m), schema), LimitsOf(m), schema);
    PutVideo(acc, m.video, schema)
  }

  /** Every byte has to be consumed. */
  function DecodePayload(data: seq<byte>, schema: uint16): Parsed<Model> {
    var (h, p) :- GetHead(data, schema);
    var (a, p) :- GetLines(data, p, schema, h);
    DecodeRest(data, p, schema, h, a)
  }

  function DecodeRest(data: seq<byte>, pos: nat, schema: uint16, h: Head, a: Lines): Parsed<Model>
    requires HeadOk(h) && LinesFit(a, h)
  {
    var (b, p) :- GetShapes(data, pos, schema, h);
    var (c, p) :- GetLimits(data, p, schema, h);
    var (v, p) :- GetVideo(data, p, schema);
    if p == |data| then Done(Assemble(h, a, b, c, v), p) else Fail
  }

  /** The values `decode_payload` accepts in a file of the schema, before `model_shape_valid` narrows them. */
  predicate Readable(m: Model, schema: uint16) {
    && HeadIn(m.head, schema) && LinesReadable(LinesOf(m), m.head, schema)
    && ShapesReadable(ShapesOf(m), m.head, schema)
    && LimitsReadable(LimitsOf(m), m.head, schema) && VideoIn(m.video, schema)
  }

  lemma ValidReadable(m: Model)
    requires Valid(m)
    ensures Readable(m, SCHEMA)
  {
  }

  /** What is printed is parsed back, up to the table entries the format does not carry. */
  lemma PayloadForward(m: Model, schema: uint16)
    requires Readable(m, schema)
    ensures DecodePayload(EncodePayload(m, schema), schema) == Done(Normalize(m), |EncodePayload(m, schema)|)
  {
    hide LinesReadable, ShapesReadable, LimitsReadable, PutHead, GetHead, PutLines, GetLines;
    hide PutShapes, GetShapes, PutLimits, GetLimits, PutVideo, GetVideo, Assemble, Normalize, Starts;
    var data := EncodePayload(m, schema);
    var acc1 := PutHead(m.head, schema);
    var acc2 := PutLines(acc1, LinesOf(m), schema);
    var acc3 := PutShapes(acc2, ShapesOf(m), schema);
    var acc4 := PutLimits(acc3, LimitsOf(m), schema);
    StartsSelf(data);
    VideoForward(acc4, m.video, data, schema);
    LimitsForward(acc3, LimitsOf(m), m.head, data, schema);
    ShapesForward(acc2, ShapesOf(m), m.head, data, schema);
    LinesForward(acc1, LinesOf(m), m.head, data, schema);
    HeadForward(m.head, data, schema);
    AssembleNormal(m);
  }

  /** What is parsed is printed back, byte for byte. */
  lemma PayloadBackward(data: seq<byte>, schema: uint16)
    requires DecodePayload(data, schema).Done?
    ensures var m := DecodePayload(data, schema).value;
      Readable(m, schema) && Normalize(m) == m && EncodePayload(m, schema) == data
  {
    hide LinesReadable, ShapesReadable, LimitsReadable, PutHead, GetHead, PutLines, GetLines;
    hide PutShapes, GetShapes, PutLimits, GetLimits, PutVideo, GetVideo, Assemble, Normalize;
    HeadBackward(data, schema);
    var (h, p1) := GetHead(data, schema).Extract();
    LinesBackward(data, p1, h, schema);
    var (a, p2) := GetLines(data, p1, schema, h).Extract();
    ShapesBackward(data, p2, h, schema);
    var (b, p3) := GetShapes(data, p2, schema, h).Extract();
    LimitsBackward(data, p3, h, schema);
    var (c, p4) := GetLimits(data, p3, schema, h).Extract();
    VideoBackward(data, p4, schema);
    assert data[..|data|] == data;
    AssembleNormal(DecodePayload(data, schema).value);
  }
}
