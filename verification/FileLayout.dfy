/** The bytes of a model file of the current schema, record by record, and the proof that these are the bytes
    `encode` writes. */
module FileLayout {
  import opened Bits
  import opened Wire
  import opened Model
  import opened Records
  import opened Payload
  import opened ModelCodec
  import Crc

  // ---------------------------------------------------------------- fields

  /** The low bytes of a number, or of a negative number's two's complement. */
  function B0(v: int): byte {
    v % 0x100
  }

  function B1(v: int): byte {
    v / 0x100 % 0x100
  }

  function B2(v: int): byte {
    v / 0x1_0000 % 0x100
  }

  function B3(v: int): byte {
    v / 0x100_0000 % 0x100
  }

  function Bool(v: bool): byte {
    if v then 1 else 0
  }

  /** Two bytes each, low byte first. */
  function Words(xs: seq<int16>): seq<byte>
    decreases |xs|
  {
    if xs == [] then [] else Words(xs[..|xs| - 1]) + [B0(xs[|xs| - 1]), B1(xs[|xs| - 1])]
  }

  // ---------------------------------------------------------------- records

  function SourceBytes(s: SourceRef): seq<byte> {
    [s.kind, s.index, B0(s.constant), B1(s.constant)]
  }

  function SwitchBytes(s: SwitchRef): seq<byte> {
    [B0(s.index), Bool(s.inverted), s.position]
  }

  function InputBytes(x: InputLine): seq<byte> {
    [Bool(x.enabled), x.sourceAxis, x.destination, B0(x.weightPercent), B1(x.weightPercent), B0(x.expoPercent),
     B0(x.curveIndex)] + SwitchBytes(x.condition) + [x.flightModeMask]
  }

  function MixBytes(x: MixLine): seq<byte> {
    [Bool(x.enabled), x.destination] + SourceBytes(x.source)
    + [B0(x.weightPercent), B1(x.weightPercent), B0(x.offset), B1(x.offset), B0(x.curveIndex)]
    + SwitchBytes(x.condition) + [x.mode]
    + [B0(x.delayUpMs), B1(x.delayUpMs), B0(x.delayDownMs), B1(x.delayDownMs),
       B0(x.speedUpPerSecond), B1(x.speedUpPerSecond), B0(x.speedDownPerSecond), B1(x.speedDownPerSecond),
       x.flightModeMask, Bool(x.carryTrim)]
  }

  function LogicalBytes(x: LogicalSwitch): seq<byte> {
    [x.operation] + SourceBytes(x.lhs) + SourceBytes(x.rhs)
    + SwitchBytes(x.first) + SwitchBytes(x.second) + SwitchBytes(x.andCondition)
    + [B0(x.threshold), B1(x.threshold), B0(x.delayMs), B1(x.delayMs), B0(x.durationMs), B1(x.durationMs)]
  }

  function FlightModeBytes(x: FlightMode): seq<byte> {
    [Bool(x.enabled)] + SwitchBytes(x.condition) + Words(x.trims) + Words(x.gvars)
    + ModeTimes(x)
  }

  function ModeTimes(x: FlightMode): seq<byte> {
    [B0(x.gvarOverrideMask), B1(x.gvarOverrideMask), B0(x.fadeInMs), B1(x.fadeInMs), B0(x.fadeOutMs), B1(x.fadeOutMs)]
  }

  function CurveBytes(x: Curve): seq<byte> {
    [Bool(x.enabled)] + Words(x.points)
  }

  function OutputBytes(x: OutputLimit): seq<byte> {
    [B0(x.minimum), B1(x.minimum), B0(x.maximum), B1(x.maximum), B0(x.subtrim), B1(x.subtrim),
     B0(x.failsafe), B1(x.failsafe), Bool(x.reversed)]
  }

  function TimerBytes(x: TimerConfig): seq<byte> {
    [x.mode] + SwitchBytes(x.condition)
    + [B0(x.startSeconds), B1(x.startSeconds), B2(x.startSeconds), B3(x.startSeconds),
       Bool(x.countdown), Bool(x.persistent)]
  }

  function SpecialBytes(x: SpecialFunction): seq<byte> {
    [Bool(x.enabled)] + SwitchBytes(x.condition) + [x.action, B0(x.parameter), B1(x.parameter)]
  }

  function Rows<T>(row: T -> seq<byte>, xs: seq<T>): seq<byte>
    decreases |xs|
  {
    if xs == [] then [] else Rows(row, xs[..|xs| - 1]) + row(xs[|xs| - 1])
  }

  // ---------------------------------------------------------------- what a field appends

  lemma Fields()
    ensures forall acc: seq<byte>, v: byte {:trigger PutU(acc, v, 1)} :: PutU(acc, v, 1) == acc + [v]
    ensures forall acc: seq<byte>, v: uint16 {:trigger PutU(acc, v, 2)} :: PutU(acc, v, 2) == acc + [B0(v), B1(v)]
    ensures forall acc: seq<byte>, v: int8 {:trigger PutI(acc, v, 1)} :: PutI(acc, v, 1) == acc + [B0(v)]
    ensures forall acc: seq<byte>, v: int16 {:trigger PutI(acc, v, 2)} :: PutI(acc, v, 2) == acc + [B0(v), B1(v)]
    ensures forall acc: seq<byte>, v: bool {:trigger PutBool(acc, v)} :: PutBool(acc, v) == acc + [Bool(v)]
  {
    Bounds();
    forall acc: seq<byte>, v: nat ensures PutLe(acc, v, 1) == acc + [v % 0x100] {
      One(acc, v);
    }
    forall acc: seq<byte>, v: nat ensures PutLe(acc, v, 2) == acc + [v % 0x100, v / 0x100 % 0x100] {
      Two(acc, v);
    }
  }

  lemma One(acc: seq<byte>, v: nat)
    ensures PutLe(acc, v, 1) == acc + [v % 0x100]
  {
    assert PutLe(acc + [v % 0x100], v / 0x100, 0) == acc + [v % 0x100];
  }

  lemma Two(acc: seq<byte>, v: nat)
    ensures PutLe(acc, v, 2) == acc + [v % 0x100, v / 0x100 % 0x100]
  {
    One(acc + [v % 0x100], v / 0x100);
    assert acc + [v % 0x100] + [v / 0x100 % 0x100] == acc + [v % 0x100, v / 0x100 % 0x100];
  }

  lemma Four(acc: seq<byte>, v: nat)
    ensures PutLe(acc, v, 4) == acc + [B0(v), B1(v), B2(v), B3(v)]
  {
    var low := acc + [v % 0x100, v / 0x100 % 0x100];
    assert PutLe(acc, v, 4) == PutLe(low, v / 0x100 / 0x100, 2) by {
      assert acc + [v % 0x100] + [v / 0x100 % 0x100] == low;
    }
    Two(low, v / 0x100 / 0x100);
    assert v / 0x100 / 0x100 == v / 0x1_0000 && v / 0x1_0000 / 0x100 == v / 0x100_0000;
  }

  lemma Glue(acc: seq<byte>, a: seq<byte>, b: seq<byte>)
    ensures acc + a + b == acc + (a + b)
  {
  }

  lemma SourceLayout(acc: seq<byte>, s: SourceRef)
    ensures PutSource(acc, s) == acc + SourceBytes(s)
  {
    hide PutU, PutI, B0, B1;
    Fields();
  }

  lemma SwitchLayout(acc: seq<byte>, s: SwitchRef)
    ensures PutSwitch(acc, s, 6) == acc + SwitchBytes(s)
  {
    hide PutU, PutI, PutBool, B0, B1;
    Fields();
  }

  lemma InputFront(acc: seq<byte>, x: InputLine)
    ensures
      PutI(PutI(PutI(PutU(PutU(PutBool(acc, x.enabled), x.sourceAxis, 1), x.destination, 1), x.weightPercent, 2),
        x.expoPercent, 1), x.curveIndex, 1)
      == acc + [Bool(x.enabled), x.sourceAxis, x.destination, B0(x.weightPercent), B1(x.weightPercent),
                B0(x.expoPercent), B0(x.curveIndex)]
  {
    hide PutU, PutI, PutBool, B0, B1;
    Fields();
  }

  lemma InputLayout(acc: seq<byte>, x: InputLine)
    ensures PutInput(acc, x, 6) == acc + InputBytes(x)
  {
    hide PutU, PutI, PutBool, PutSwitch, SwitchBytes, B0, B1;
    Fields();
    var a := [Bool(x.enabled), x.sourceAxis, x.destination, B0(x.weightPercent), B1(x.weightPercent),
              B0(x.expoPercent), B0(x.curveIndex)];
    InputFront(acc, x);
    SwitchLayout(acc + a, x.condition);
    Glue(acc, a, SwitchBytes(x.condition));
    Glue(acc, a + SwitchBytes(x.condition), [x.flightModeMask]);
  }

  lemma MixLayout(acc: seq<byte>, x: MixLine)
    ensures PutMix(acc, x, 6) == acc + MixBytes(x)
  {
    hide PutU, PutI, PutBool, PutSource, PutSwitch, SourceBytes, SwitchBytes, B0, B1;
    Fields();
    var a := [Bool(x.enabled), x.destination];
    assert PutU(PutBool(acc, x.enabled), x.destination, 1) == acc + a;
    SourceLayout(acc + a, x.source);
    Glue(acc, a, SourceBytes(x.source));
    var front := a + SourceBytes(x.source);
    var b := [B0(x.weightPercent), B1(x.weightPercent), B0(x.offset), B1(x.offset), B0(x.curveIndex)];
    MixMiddle(acc + front, x);
    Glue(acc, front, b);
    SwitchLayout(acc + (front + b), x.condition);
    Glue(acc, front + b, SwitchBytes(x.condition));
    Glue(acc, front + b + SwitchBytes(x.condition), [x.mode]);
    MixTail(acc + (front + b + SwitchBytes(x.condition) + [x.mode]), x);
    Glue(acc, front + b + SwitchBytes(x.condition) + [x.mode], MixTailBytes(x));
  }

  lemma MixMiddle(acc: seq<byte>, x: MixLine)
    ensures PutI(PutI(PutI(acc, x.weightPercent, 2), x.offset, 2), x.curveIndex, 1)
      == acc + [B0(x.weightPercent), B1(x.weightPercent), B0(x.offset), B1(x.offset), B0(x.curveIndex)]
  {
    hide PutI, B0, B1;
    Fields();
  }

  function MixTailBytes(x: MixLine): seq<byte> {
    [B0(x.delayUpMs), B1(x.delayUpMs), B0(x.delayDownMs), B1(x.delayDownMs),
     B0(x.speedUpPerSecond), B1(x.speedUpPerSecond), B0(x.speedDownPerSecond), B1(x.speedDownPerSecond),
     x.flightModeMask, Bool(x.carryTrim)]
  }

  lemma MixTail(acc: seq<byte>, x: MixLine)
    ensures
      PutBool(PutU(PutU(PutU(PutU(PutU(acc, x.delayUpMs, 2), x.delayDownMs, 2), x.speedUpPerSecond, 2),
        x.speedDownPerSecond, 2), x.flightModeMask, 1), x.carryTrim) == acc + MixTailBytes(x)
  {
    hide PutU, PutI, PutBool, B0, B1;
    Fields();
  }

  lemma LogicalLayout(acc: seq<byte>, x: LogicalSwitch)
    ensures PutLogical(acc, x, 6) == acc + LogicalBytes(x)
  {
    hide PutU, PutI, PutSource, PutSwitch, SourceBytes, SwitchBytes, B0, B1;
    Fields();
    var a := [x.operation];
    SourceLayout(acc + a, x.lhs);
    Glue(acc, a, SourceBytes(x.lhs));
    var b := a + SourceBytes(x.lhs);
    SourceLayout(acc + b, x.rhs);
    Glue(acc, b, SourceBytes(x.rhs));
    var c := b + SourceBytes(x.rhs);
    SwitchLayout(acc + c, x.first);
    Glue(acc, c, SwitchBytes(x.first));
    var d := c + SwitchBytes(x.first);
    SwitchLayout(acc + d, x.second);
    Glue(acc, d, SwitchBytes(x.second));
    var e := d + SwitchBytes(x.second);
    SwitchLayout(acc + e, x.andCondition);
    Glue(acc, e, SwitchBytes(x.andCondition));
    var f := e + SwitchBytes(x.andCondition);
    LogicalTail(acc + f, x);
    Glue(acc, f, [B0(x.threshold), B1(x.threshold), B0(x.delayMs), B1(x.delayMs), B0(x.durationMs), B1(x.durationMs)]);
  }

  lemma LogicalTail(acc: seq<byte>, x: LogicalSwitch)
    ensures PutU(PutU(PutI(acc, x.threshold, 2), x.delayMs, 2), x.durationMs, 2) == acc
      + [B0(x.threshold), B1(x.threshold), B0(x.delayMs), B1(x.delayMs), B0(x.durationMs), B1(x.durationMs)]
  {
    hide PutU, PutI, B0, B1;
    Fields();
  }

  lemma {:induction false} WordsLayout(acc: seq<byte>, xs: seq<int16>)
    ensures PutValues(acc, xs) == acc + Words(xs)
    decreases |xs|
  {
    hide PutI, B0, B1;
    Fields();
    if xs != [] {
      var init, last := xs[..|xs| - 1], xs[|xs| - 1];
      WordsLayout(acc, init);
      assert PutValues(acc, xs) == PutI(PutValues(acc, init), last, 2);
      Glue(acc, Words(init), [B0(last), B1(last)]);
    }
  }

  lemma ModeLayout(acc: seq<byte>, x: FlightMode)
    ensures PutMode(acc, x, 6) == acc + FlightModeBytes(x)
  {
    hide PutU, PutBool, PutSwitch, PutValues, SwitchBytes, Words, B0, B1;
    Fields();
    var a := [Bool(x.enabled)];
    SwitchLayout(acc + a, x.condition);
    Glue(acc, a, SwitchBytes(x.condition));
    var b := a + SwitchBytes(x.condition);
    WordsLayout(acc + b, x.trims);
    Glue(acc, b, Words(x.trims));
    var c := b + Words(x.trims);
    WordsLayout(acc + c, x.gvars);
    Glue(acc, c, Words(x.gvars));
    var d := c + Words(x.gvars);
    ModeTail(acc + d, x);
    Glue(acc, d, ModeTimes(x));
  }

  lemma ModeTail(acc: seq<byte>, x: FlightMode)
    ensures PutU(PutU(PutU(acc, x.gvarOverrideMask, 2), x.fadeInMs, 2), x.fadeOutMs, 2) == acc + ModeTimes(x)
  {
    hide PutU, B0, B1;
    Fields();
  }

  lemma CurveLayout(acc: seq<byte>, x: Curve)
    ensures PutCurve(acc, x) == acc + CurveBytes(x)
  {
    hide PutBool, PutValues, Words;
    Fields();
    WordsLayout(acc + [Bool(x.enabled)], x.points);
    Glue(acc, [Bool(x.enabled)], Words(x.points));
  }

  lemma OutputLayout(acc: seq<byte>, x: OutputLimit)
    ensures PutOutput(acc, x) == acc + OutputBytes(x)
  {
    hide PutI, PutBool, B0, B1;
    Fields();
  }

  lemma TimerLayout(acc: seq<byte>, x: TimerConfig)
    ensures PutTimer(acc, x, 6) == acc + TimerBytes(x)
  {
    hide PutU, PutI, PutBool, PutSwitch, SwitchBytes, B0, B1, B2, B3;
    Fields();
    SwitchLayout(acc + [x.mode], x.condition);
    Glue(acc, [x.mode], SwitchBytes(x.condition));
    var a := [x.mode] + SwitchBytes(x.condition);
    TimerTail(acc + a, x);
    Glue(acc, a, [B0(x.startSeconds), B1(x.startSeconds), B2(x.startSeconds), B3(x.startSeconds),
                  Bool(x.countdown), Bool(x.persistent)]);
  }

  lemma TimerTail(acc: seq<byte>, x: TimerConfig)
    ensures PutBool(PutBool(PutI(acc, x.startSeconds, 4), x.countdown), x.persistent) == acc
      + [B0(x.startSeconds), B1(x.startSeconds), B2(x.startSeconds), B3(x.startSeconds),
         Bool(x.countdown), Bool(x.persistent)]
  {
    FourSigned(acc, x.startSeconds);
    hide PutI, PutBool, B0, B1, B2, B3;
    Fields();
  }

  lemma FourSigned(acc: seq<byte>, v: int32)
    ensures PutI(acc, v, 4) == acc + [B0(v), B1(v), B2(v), B3(v)]
  {
    hide PutLe, B0, B1, B2, B3;
    Bounds();
    if v >= 0 {
      Four(acc, v);
    } else {
      Four(acc, v + 0x1_0000_0000);
      Complement(v);
    }
  }

  /** The bytes of a negative number are those of its two's complement. */
  lemma Complement(v: int)
    ensures var u := v + 0x1_0000_0000; B0(u) == B0(v) && B1(u) == B1(v) && B2(u) == B2(v) && B3(u) == B3(v)
  {
    hide B0, B1, B2, B3;
    Complement0(v);
    Complement1(v);
    Complement2(v);
    Complement3(v);
  }

  lemma Complement0(v: int)
    ensures B0(v + 0x1_0000_0000) == B0(v)
  {
  }

  lemma Complement1(v: int)
    ensures B1(v + 0x1_0000_0000) == B1(v)
  {
    var q := v / 0x100;
    assert (v + 0x1_0000_0000) / 0x100 == q + 0x100_0000;
    assert (q + 0x100_0000) % 0x100 == q % 0x100;
  }

  lemma Complement2(v: int)
    ensures B2(v + 0x1_0000_0000) == B2(v)
  {
    var q := v / 0x1_0000;
    assert (v + 0x1_0000_0000) / 0x1_0000 == q + 0x1_0000;
    assert (q + 0x1_0000) % 0x100 == q % 0x100;
  }

  lemma Complement3(v: int)
    ensures B3(v + 0x1_0000_0000) == B3(v)
  {
    var q := v / 0x100_0000;
    assert (v + 0x1_0000_0000) / 0x100_0000 == q + 0x100;
    assert (q + 0x100) % 0x100 == q % 0x100;
  }

  lemma SpecialLayout(acc: seq<byte>, x: SpecialFunction)
    ensures PutSpecial(acc, x, 6) == acc + SpecialBytes(x)
  {
    hide PutU, PutI, PutBool, PutSwitch, SwitchBytes, B0, B1;
    Fields();
    var a := [Bool(x.enabled)];
    SwitchLayout(acc + a, x.condition);
    Glue(acc, a, SwitchBytes(x.condition));
    Glue(acc, a + SwitchBytes(x.condition), [x.action]);
    Glue(acc, a + SwitchBytes(x.condition) + [x.action], [B0(x.parameter), B1(x.parameter)]);
  }

  // ---------------------------------------------------------------- tables and the whole

  lemma {:induction false} RowsLayout<T(!new)>(c: Codec<T>, row: T -> seq<byte>, acc: seq<byte>, xs: seq<T>)
    requires forall a: seq<byte>, x: T :: c.put(a, x) == a + row(x)
    ensures PutTable(c, acc, xs) == acc + Rows(row, xs)
    decreases |xs|
  {
    if xs != [] {
      var init, last := xs[..|xs| - 1], xs[|xs| - 1];
      RowsLayout(c, row, acc, init);
      Glue(acc, Rows(row, init), row(last));
    }
  }

  function HeadBytes(h: Head): seq<byte> {
    h.name + [h.modelId, h.throttleAxis, h.throttleChannel, h.requiredSwitchMask, h.requiredSwitchValues,
              h.inputCount, h.mixCount, h.logicalCount, h.modeCount, h.curveCount, h.specialCount]
  }

  /** The tables hold as many records as their counts say; outputs, timers, global variables and video settings
      have no count. */
  function PayloadBytes(m: Model): seq<byte>
    requires HeadOk(m.head)
  {
    HeadBytes(m.head)
    + Rows(InputBytes, m.inputs[..m.head.inputCount]) + Rows(MixBytes, m.mixes[..m.head.mixCount])
    + Rows(LogicalBytes, m.logicals[..m.head.logicalCount]) + Rows(FlightModeBytes, m.modes[..m.head.modeCount])
    + Rows(CurveBytes, m.curves[..m.head.curveCount]) + Words(m.gvars)
    + Rows(OutputBytes, m.outputs) + Rows(TimerBytes, m.timers)
    + Rows(SpecialBytes, m.specials[..m.head.specialCount])
    + [m.video.band, m.video.channel, Bool(m.video.overlay), Bool(m.video.rfLock)]
  }

  lemma HeadLayout(h: Head)
    ensures PutHead(h, 6) == HeadBytes(h)
  {
    hide PutU;
    Fields();
  }

  lemma LinesLayout(acc: seq<byte>, t: Lines)
    ensures PutLines(acc, t, 6)
      == acc + Rows(InputBytes, t.inputs) + Rows(MixBytes, t.mixes) + Rows(LogicalBytes, t.logicals)
  {
    hide PutInput, PutMix, PutLogical, InputBytes, MixBytes, LogicalBytes, Rows;
    forall a: seq<byte>, x: InputLine ensures InputCodec(6).put(a, x) == a + InputBytes(x) {
      InputLayout(a, x);
    }
    forall a: seq<byte>, x: MixLine ensures MixCodec(6).put(a, x) == a + MixBytes(x) {
      MixLayout(a, x);
    }
    forall a: seq<byte>, x: LogicalSwitch ensures LogicalCodec(6).put(a, x) == a + LogicalBytes(x) {
      LogicalLayout(a, x);
    }
    RowsLayout(InputCodec(6), InputBytes, acc, t.inputs);
    var acc1 := acc + Rows(InputBytes, t.inputs);
    RowsLayout(MixCodec(6), MixBytes, acc1, t.mixes);
    RowsLayout(LogicalCodec(6), LogicalBytes, acc1 + Rows(MixBytes, t.mixes), t.logicals);
  }

  lemma ShapesLayout(acc: seq<byte>, t: Shapes)
    ensures PutShapes(acc, t, 6)
      == acc + Rows(FlightModeBytes, t.modes) + Rows(CurveBytes, t.curves) + Words(t.gvars)
  {
    hide PutMode, PutCurve, FlightModeBytes, CurveBytes, Rows, PutValues, Words;
    forall a: seq<byte>, x: FlightMode ensures ModeCodec(6).put(a, x) == a + FlightModeBytes(x) {
      ModeLayout(a, x);
    }
    forall a: seq<byte>, x: Curve ensures CurveCodec(6).put(a, x) == a + CurveBytes(x) {
      CurveLayout(a, x);
    }
    RowsLayout(ModeCodec(6), FlightModeBytes, acc, t.modes);
    var acc1 := acc + Rows(FlightModeBytes, t.modes);
    RowsLayout(CurveCodec(6), CurveBytes, acc1, t.curves);
    WordsLayout(acc1 + Rows(CurveBytes, t.curves), t.gvars);
  }

  lemma LimitsLayout(acc: seq<byte>, t: Limits)
    ensures PutLimits(acc, t, 6)
      == acc + Rows(OutputBytes, t.outputs) + Rows(TimerBytes, t.timers) + Rows(SpecialBytes, t.specials)
  {
    hide PutOutput, PutTimer, PutSpecial, OutputBytes, TimerBytes, SpecialBytes, Rows;
    forall a: seq<byte>, x: OutputLimit ensures OutputCodec(6).put(a, x) == a + OutputBytes(x) {
      OutputLayout(a, x);
    }
    forall a: seq<byte>, x: TimerConfig ensures TimerCodec(6).put(a, x) == a + TimerBytes(x) {
      TimerLayout(a, x);
    }
    forall a: seq<byte>, x: SpecialFunction ensures SpecialCodec(6).put(a, x) == a + SpecialBytes(x) {
      SpecialLayout(a, x);
    }
    RowsLayout(OutputCodec(6), OutputBytes, acc, t.outputs);
    var acc1 := acc + Rows(OutputBytes, t.outputs);
    RowsLayout(TimerCodec(6), TimerBytes, acc1, t.timers);
    RowsLayout(SpecialCodec(6), SpecialBytes, acc1 + Rows(TimerBytes, t.timers), t.specials);
  }

  lemma VideoLayout(acc: seq<byte>, v: Video)
    ensures PutVideo(acc, v, 6) == acc + [v.band, v.channel, Bool(v.overlay), Bool(v.rfLock)]
  {
    hide PutU, PutBool;
    Fields();
  }

  lemma PayloadLayout(m: Model)
    requires HeadOk(m.head)
    ensures EncodePayload(m, 6) == PayloadBytes(m)
  {
    hide PutHead, PutLines, PutShapes, PutLimits, PutVideo, HeadBytes, Words, Rows, HeadOk;
    HeadLayout(m.head);
    LinesLayout(HeadBytes(m.head), LinesOf(m));
    var acc := PutLines(HeadBytes(m.head), LinesOf(m), 6);
    ShapesLayout(acc, ShapesOf(m));
    var acc1 := PutShapes(acc, ShapesOf(m), 6);
    LimitsLayout(acc1, LimitsOf(m));
    VideoLayout(PutLimits(acc1, LimitsOf(m), 6), m.video);
  }

  function WordBytes(v: word): seq<byte> {
    [B0(v), B1(v), B2(v), B3(v)]
  }

  /** A model file byte by byte: the letters "RRVM", the schema, a reserved field, the length of the payload, the
      generation, the checksum of the payload, and the payload. */
  lemma FileBytes(m: Model, generation: word)
    requires Valid(m)
    ensures var payload := PayloadBytes(m);
      && |payload| < 0x1_0000
      && EncodeFile(m, generation)
         == [0x52, 0x52, 0x56, 0x4D, 6, 0, 0, 0] + WordBytes(|payload|) + WordBytes(generation)
            + WordBytes(Crc.Crc32(payload)) + payload
  {
    hide Valid, EncodePayload, PayloadBytes, WordBytes, PutHeader, Crc.Crc32;
    HeadValid(m);
    PayloadLayout(m);
    PayloadFits(m, 6);
    var payload := PayloadBytes(m);
    HeaderLayout(|payload|, generation, Crc.Crc32(payload));
  }

  lemma HeadValid(m: Model)
    requires Valid(m)
    ensures HeadOk(m.head)
  {
  }

  lemma HeaderLayout(size: word, generation: word, crc: word)
    ensures PutHeader(Header(MAGIC, 6, 0, size, generation, crc))
      == [0x52, 0x52, 0x56, 0x4D, 6, 0, 0, 0] + WordBytes(size) + WordBytes(generation) + WordBytes(crc)
  {
    hide PutLe, B0, B1, B2, B3;
    Fields();
    MagicLayout();
    var start := PutU(PutU(PutU([], MAGIC, 4), 6, 2), 0, 2);
    Four(start, size);
    Four(start + WordBytes(size), generation);
    Four(start + WordBytes(size) + WordBytes(generation), crc);
  }

  lemma MagicLayout()
    ensures PutU(PutU(PutU([], MAGIC, 4), 6, 2), 0, 2) == [0x52, 0x52, 0x56, 0x4D, 6, 0, 0, 0]
  {
    hide PutLe;
    var start: seq<byte> := [0x52, 0x52, 0x56, 0x4D];
    Four([], MAGIC);
    assert [] + [B0(MAGIC), B1(MAGIC), B2(MAGIC), B3(MAGIC)] == start;
    Two(start, 6);
    assert start + [6, 0] == [0x52, 0x52, 0x56, 0x4D, 6, 0];
    Two([0x52, 0x52, 0x56, 0x4D, 6, 0], 0);
  }
}
