/** What the upgrades do to the model of an older file: exactly which fields of which files change, and to
    what. */
module MigrateLaws {
  import opened Bits
  import opened Wire
  import opened Model
  import opened Records
  import opened Payload
  import opened ModelCodec
  import opened CodecLaws

  function SchemaOf(data: seq<byte>): uint16
    requires DecodeFile(data).Accepted?
  {
    GetHeader(data).value.schema
  }

  /** What the payload of an accepted file says. */
  function ParsedOf(data: seq<byte>): Model
    requires DecodeFile(data).Accepted?
  {
    DecodePayload(data[HEADER_SIZE..], SchemaOf(data)).value
  }

  // ---------------------------------------------------------------- the files that are upgraded

  /** Input and mix of the axis are the ones of a stock model: the axis feeds its input, and that its channel. */
  predicate OneToOne(m: Model, axis: nat)
    requires axis < 4
  {
    && m.inputs[axis].enabled && m.inputs[axis].sourceAxis == axis && m.inputs[axis].destination == axis
    && m.mixes[axis].enabled && m.mixes[axis].destination == axis
    && m.mixes[axis].source.kind == 1 && m.mixes[axis].source.index == axis
  }

  /** The model named "Default", with its four sticks one to one. */
  predicate Stock(m: Model) {
    && m.head.name[..8] == [0x44, 0x65, 0x66, 0x61, 0x75, 0x6C, 0x74, 0x00] && m.head.inputCount == 4
    && OneToOne(m, 0) && OneToOne(m, 1) && OneToOne(m, 2) && OneToOne(m, 3)
  }

  /** Channel `i` follows switch `i`. */
  predicate FollowsSwitch(m: Model, i: nat)
    requires i < 64
  {
    m.mixes[i].enabled && m.mixes[i].destination == i && m.mixes[i].source.kind == 6 && m.mixes[i].source.index == i
  }

  /** Files before schema 4 of a stock model gain its switches. */
  predicate GainsSwitches(schema: uint16, m: Model) {
    schema < 4 && Stock(m) && m.head.mixCount == 4
  }

  /** Files before schema 5 of a stock model with its switches gain the other axes. */
  predicate GainsAxes(schema: uint16, m: Model) {
    || GainsSwitches(schema, m)
    || (schema < 5 && Stock(m) && m.head.mixCount == 8
        && FollowsSwitch(m, 4) && FollowsSwitch(m, 5) && FollowsSwitch(m, 6) && FollowsSwitch(m, 7))
  }

  // ---------------------------------------------------------------- what they become

  const ALWAYS := SwitchRef(-1, false, 0)

  /** A whole input line: the axis feeds its own input with weight 100, always, in every flight mode. */
  function FromAxis(i: byte): InputLine {
    InputLine(true, i, i, 100, 0, -1, ALWAYS, 0xFF)
  }

  /** A whole mix line: channel `i` takes the source with weight 100, always, in every flight mode. */
  function Whole(i: byte, kind: byte, index: byte): MixLine {
    MixLine(true, i, SourceRef(kind, index, 0), 100, 0, -1, ALWAYS, 0, 0, 0, 0, 0, 0xFF, true)
  }

  /** Inputs 4 to 7 of a model that gains the other axes feed on them. */
  function InputOf(schema: uint16, p: Model, i: nat): InputLine
    requires i < 16
  {
    if GainsAxes(schema, p) && 4 <= i < 8 then FromAxis(i) else p.inputs[i]
  }

  /** Channels 4 to 7 of a model that gains the switches follow the switches 4 to 7, channels 8 to 11 of one that
      gains the other axes follow the inputs 4 to 7. */
  function MixOf(schema: uint16, p: Model, i: nat): MixLine
    requires i < 64
  {
    if GainsSwitches(schema, p) && 4 <= i < 8 then Whole(i, 6, i)
    else if GainsAxes(schema, p) && 8 <= i < 12 then Whole(i, 1, i - 4)
    else p.mixes[i]
  }

  /** Channel 4 of a model that gains the switches fails safe at the lower end. */
  function OutputOf(schema: uint16, p: Model, i: nat): OutputLimit
    requires i < 16
  {
    if GainsSwitches(schema, p) && i == 4 then p.outputs[4].(failsafe := -1024) else p.outputs[i]
  }

  /** The mask with switch 4 among the required ones. */
  function WithSwitchFour(mask: byte): byte {
    if mask / 16 % 2 == 1 then mask else mask + 16
  }

  lemma {:induction false} OrZero(x: nat)
    ensures Or(x, 0) == x
  {
    if x != 0 {
      OrZero(x / 2);
    }
  }

  lemma {:induction false} OrPower(x: nat, k: nat)
    ensures Or(x, Pow2(k)) == if Bit(x, k) then x else x + Pow2(k)
    decreases k
  {
    if k == 0 {
      OrZero(x / 2);
    } else {
      OrDouble(x, Pow2(k - 1));
      OrPower(x / 2, k - 1);
    }
  }

  lemma RequiredMask(mask: byte)
    ensures AuxRequired(mask) == WithSwitchFour(mask)
  {
    hide Or, Bit;
    OrPower(mask, 4);
    Pow2Values();
    BitFour(mask);
  }

  /** The four steps that change lines, on the model that was parsed. */
  lemma StepsApart(schema: uint16, p: Model)
    requires Normal(p)
    ensures var q := MigrateModes(schema, MigrateSwitches(schema, p));
      && Migrate(schema, p) == MigrateVideo(schema, MigrateAxes(schema, MigrateAux(schema, q)))
      && (q.inputs, q.mixes, q.logicals, q.curves, q.gvars, q.outputs, q.timers, q.specials, q.video)
         == (p.inputs, p.mixes, p.logicals, p.curves, p.gvars, p.outputs, p.timers, p.specials, p.video)
      && (if schema == 1 then q.head == p.head.(requiredSwitchMask := 0, requiredSwitchValues := 0)
          else q.head == p.head)
      && (schema >= 3 ==> q.modes == p.modes)
      && forall i :: 0 <= i < 5 ==> q.modes[i] == p.modes[i].(gvarOverrideMask := q.modes[i].gvarOverrideMask)
  {
    hide Normal, OverrideMask;
  }

  lemma StockIs(m: Model)
    ensures Stock(m) ==
      (NamedDefault(m) && m.head.inputCount == 4 && forall axis :: 0 <= axis < 4 ==> LegacyAxis(m, axis))
  {
    assert forall axis: nat :: axis < 4 ==> LegacyAxis(m, axis) == OneToOne(m, axis);
  }

  lemma FollowersAre(m: Model)
    ensures (forall aux :: 0 <= aux < AUX_SWITCH_COUNT ==> LegacyAux(m, aux))
      <==> FollowsSwitch(m, 4) && FollowsSwitch(m, 5) && FollowsSwitch(m, 6) && FollowsSwitch(m, 7)
  {
    assert LegacyAux(m, 0) == FollowsSwitch(m, 4) && LegacyAux(m, 1) == FollowsSwitch(m, 5);
    assert LegacyAux(m, 2) == FollowsSwitch(m, 6) && LegacyAux(m, 3) == FollowsSwitch(m, 7);
  }

  /** Schema 4: a stock model gains its switches, every other model nothing. */
  lemma SwitchesGained(schema: uint16, m: Model)
    requires Normal(m)
    ensures var r := MigrateAux(schema, m);
      && (!GainsSwitches(schema, m) ==> r == m)
      && (GainsSwitches(schema, m) ==>
        && r.head == m.head.(mixCount := 8, requiredSwitchMask := WithSwitchFour(m.head.requiredSwitchMask))
        && (forall i :: 0 <= i < 64 ==> r.mixes[i] == if 4 <= i < 8 then Whole(i, 6, i) else m.mixes[i])
        && (forall i :: 0 <= i < 16 ==>
              r.outputs[i] == if i == 4 then m.outputs[4].(failsafe := -1024) else m.outputs[i])
        && r == m.(head := r.head, mixes := r.mixes, outputs := r.outputs))
  {
    hide NamedDefault, LegacyAxis, OneToOne, AuxRequired;
    StockIs(m);
    RequiredMask(m.head.requiredSwitchMask);
  }

  /** Schema 5: a stock model with its switches gains the other axes, every other model nothing. */
  lemma AxesGained(schema: uint16, m: Model)
    requires Normal(m)
    ensures var r := MigrateAxes(schema, m);
      var gains := schema < 5 && Stock(m) && m.head.mixCount == 8
        && FollowsSwitch(m, 4) && FollowsSwitch(m, 5) && FollowsSwitch(m, 6) && FollowsSwitch(m, 7);
      && (!gains ==> r == m)
      && (gains ==>
        && r.head == m.head.(inputCount := 8, mixCount := 12)
        && (forall i :: 0 <= i < 16 ==> r.inputs[i] == if 4 <= i < 8 then FromAxis(i) else m.inputs[i])
        && (forall i :: 0 <= i < 64 ==> r.mixes[i] == if 8 <= i < 12 then Whole(i, 1, i - 4) else m.mixes[i])
        && r == m.(head := r.head, inputs := r.inputs, mixes := r.mixes))
  {
    hide NamedDefault, LegacyAxis, OneToOne, LegacyAux, FollowsSwitch;
    StockIs(m);
    FollowersAre(m);
  }

  // ---------------------------------------------------------------- what an accepted file becomes

  /** An accepted file is the migrated form of what its payload says, whatever its schema. */
  lemma Accepts(data: seq<byte>)
    requires DecodeFile(data).Accepted?
    ensures 1 <= SchemaOf(data) <= SCHEMA && Normal(ParsedOf(data))
    ensures DecodePayload(data[HEADER_SIZE..], SchemaOf(data)).Done?
    ensures DecodeFile(data).model == Migrate(SchemaOf(data), ParsedOf(data))
  {
    hide Valid, Normalize, DecodePayload, Migrate, GetHeader, Normal;
    DecodedNormal(data[HEADER_SIZE..], SchemaOf(data));
    NormalIff(ParsedOf(data));
  }

  lemma NormalSteps(schema: uint16, p: Model)
    requires Normal(p)
    ensures var q := MigrateModes(schema, MigrateSwitches(schema, p)); Normal(q) && Normal(MigrateAux(schema, q))
  {
    hide MigrateModes, MigrateAux;
    assert Normal(MigrateSwitches(schema, p));
    MigrateModesNormal(schema, MigrateSwitches(schema, p));
    MigrateAuxNormal(schema, MigrateModes(schema, MigrateSwitches(schema, p)));
  }

  /** Which files are upgraded depends on the name, the counts and the lines alone. */
  lemma SameLines(q: Model, p: Model)
    requires q.inputs == p.inputs && q.mixes == p.mixes && q.head.name == p.head.name
    requires q.head.inputCount == p.head.inputCount && q.head.mixCount == p.head.mixCount
    ensures Stock(q) == Stock(p)
    ensures forall i: nat :: i < 64 ==> FollowsSwitch(q, i) == FollowsSwitch(p, i)
  {
  }

  /** A model that gained its switches is one that gains the other axes. */
  lemma SwitchesFollowed(q: Model, r: Model)
    requires Stock(q) && r.inputs == q.inputs && r.head.name == q.head.name && r.head.inputCount == q.head.inputCount
    requires forall i :: 0 <= i < 64 ==> r.mixes[i] == if 4 <= i < 8 then Whole(i, 6, i) else q.mixes[i]
    ensures Stock(r)
    ensures FollowsSwitch(r, 4) && FollowsSwitch(r, 5) && FollowsSwitch(r, 6) && FollowsSwitch(r, 7)
  {
  }

  /** The lines a model gains, on the model that was parsed. */
  lemma Gained(schema: uint16, p: Model)
    requires Normal(p)
    ensures var m, eight := Migrate(schema, p), GainsAxes(schema, p);
      && (forall i :: 0 <= i < 16 ==> m.inputs[i] == InputOf(schema, p, i))
      && (forall i :: 0 <= i < 64 ==> m.mixes[i] == MixOf(schema, p, i))
      && (forall i :: 0 <= i < 16 ==> m.outputs[i] == OutputOf(schema, p, i))
      && m.head == p.head.(
           inputCount := if eight then 8 else p.head.inputCount,
           mixCount := if eight then 12 else p.head.mixCount,
           requiredSwitchMask := Required(schema, p),
           requiredSwitchValues := if schema == 1 then 0 else p.head.requiredSwitchValues)
      && (m.logicals, m.curves, m.gvars, m.timers, m.specials)
         == (p.logicals, p.curves, p.gvars, p.timers, p.specials)
      && m.video == (if schema < 6 then Video(0, 0, true, true) else p.video)
  {
    hide Normal, MigrateModes, MigrateAux, MigrateAxes, Migrate, Stock, FollowsSwitch;
    StepsApart(schema, p);
    var q := MigrateModes(schema, MigrateSwitches(schema, p));
    NormalSteps(schema, p);
    SameLines(q, p);
    SwitchesGained(schema, q);
    var r := MigrateAux(schema, q);
    AxesGained(schema, r);
    if GainsSwitches(schema, q) {
      SwitchesFollowed(q, r);
    }
  }

  /** The switches an upgraded model requires: none of schema 1's, and switch 4 where the switches are gained. */
  function Required(schema: uint16, p: Model): byte {
    var mask := if schema == 1 then 0 else p.head.requiredSwitchMask;
    if GainsSwitches(schema, p) then WithSwitchFour(mask) else mask
  }

  /** The head of an accepted file: its name, numbers and counts are the file's own, but for the counts of the
      lines that were gained and for the required switches. */
  lemma HeadUpgraded(data: seq<byte>)
    requires DecodeFile(data).Accepted?
    ensures var schema, p := SchemaOf(data), ParsedOf(data);
      DecodeFile(data).model.head == p.head.(
        inputCount := if GainsAxes(schema, p) then 8 else p.head.inputCount,
        mixCount := if GainsAxes(schema, p) then 12 else p.head.mixCount,
        requiredSwitchMask := Required(schema, p),
        requiredSwitchValues := if schema == 1 then 0 else p.head.requiredSwitchValues)
  {
    hide Valid, Normalize, DecodePayload, DecodeFile, Migrate, GetHeader, Normal, GainsAxes, GainsSwitches;
    Accepts(data);
    Gained(SchemaOf(data), ParsedOf(data));
  }

  /** The lines and outputs of an accepted file are the file's own, except that a stock model of before schema 4
      has channels 4 to 7 follow the switches 4 to 7 and channel 4 fail safe at the lower end, and a stock model of
      before schema 5 has channels 8 to 11 follow the axes 4 to 7. */
  lemma LinesUpgraded(data: seq<byte>, i: nat)
    requires DecodeFile(data).Accepted?
    ensures var m, schema, p := DecodeFile(data).model, SchemaOf(data), ParsedOf(data);
      && (i < 16 ==> m.inputs[i] == InputOf(schema, p, i))
      && (i < 64 ==> m.mixes[i] == MixOf(schema, p, i))
      && (i < 16 ==> m.outputs[i] == OutputOf(schema, p, i))
  {
    hide Valid, Normalize, DecodePayload, DecodeFile, Migrate, GetHeader, Normal, GainsAxes, GainsSwitches;
    Accepts(data);
    Gained(SchemaOf(data), ParsedOf(data));
  }

  /** Everything else in an accepted file is the file's own, except that the video settings of before schema 6 are
      band 0, channel 0, overlay and lock on, and that a mode of before schema 3 has its mask derived: it is what
      makes every variable of the mode read as it did. */
  lemma RestKept(data: seq<byte>, i: nat)
    requires DecodeFile(data).Accepted?
    ensures var m, schema, p := DecodeFile(data).model, SchemaOf(data), ParsedOf(data);
      && (m.logicals, m.curves, m.gvars, m.timers, m.specials)
         == (p.logicals, p.curves, p.gvars, p.timers, p.specials)
      && m.video == (if schema < 6 then Video(0, 0, true, true) else p.video)
      && (schema >= 3 ==> m.modes == p.modes)
      && (i < 5 ==> m.modes[i] == p.modes[i].(gvarOverrideMask := m.modes[i].gvarOverrideMask))
  {
    hide Valid, Normalize, DecodePayload, DecodeFile, Migrate, GetHeader, Normal, GainsAxes, GainsSwitches;
    Accepts(data);
    Gained(SchemaOf(data), ParsedOf(data));
    ModesKept(SchemaOf(data), ParsedOf(data));
  }

  lemma ModesKept(schema: uint16, p: Model)
    requires Normal(p)
    ensures schema >= 3 ==> Migrate(schema, p).modes == p.modes
    ensures forall i :: 0 <= i < 5 ==>
      Migrate(schema, p).modes[i] == p.modes[i].(gvarOverrideMask := Migrate(schema, p).modes[i].gvarOverrideMask)
  {
    hide Normal, MigrateModes, MigrateAux, MigrateAxes, Migrate, Stock, FollowsSwitch;
    StepsApart(schema, p);
    var q := MigrateModes(schema, MigrateSwitches(schema, p));
    NormalSteps(schema, p);
    SwitchesGained(schema, q);
    AxesGained(schema, MigrateAux(schema, q));
  }

  /** Switch 4 is a required switch of every stock model that gained it. */
  lemma SwitchFourRequired(data: seq<byte>)
    requires DecodeFile(data).Accepted? && GainsSwitches(SchemaOf(data), ParsedOf(data))
    ensures Bit(DecodeFile(data).model.head.requiredSwitchMask, 4)
  {
    hide DecodeFile, GainsSwitches, GainsAxes, GetHeader, DecodePayload, Bit;
    HeadUpgraded(data);
    BitFour(DecodeFile(data).model.head.requiredSwitchMask);
  }
}
