/** What the model file format promises: printer and parser undo each other, migrated files are
    fixed points, truncation and short bursts are always detected. */
module CodecLaws {
  import opened Bits
  import opened Wire
  import opened Model
  import opened Records
  import opened Payload
  import opened ModelCodec
  import Crc

  /** A whole header is at the front of every encoded file. */
  lemma FileParts(h: Header, payload: seq<byte>)
    ensures var data := PutHeader(h) + payload;
      GetHeader(data).value == h && data[HEADER_SIZE..] == payload
  {
    HeaderForward(h, PutHeader(h) + payload);
  }

  lemma MigrateCurrent(m: Model)
    ensures Migrate(SCHEMA, m) == m
  {
  }

  /** Normalizing never touches an entry that counts. */
  lemma NormalizeValid(m: Model)
    requires Valid(m)
    ensures Valid(Normalize(m)) && Normalize(Normalize(m)) == Normalize(m)
    ensures EncodePayload(Normalize(m), SCHEMA) == EncodePayload(m, SCHEMA)
  {
    var n := Normalize(m);
    assert n.inputs[..m.head.inputCount] == m.inputs[..m.head.inputCount];
    assert LinesOf(n) == LinesOf(m) && ShapesOf(n) == ShapesOf(m) && LimitsOf(n) == LimitsOf(m);
    NormalValid(m);
  }

  lemma NormalValid(m: Model)
    requires Valid(m)
    ensures Valid(Normalize(m))
  {
  }

  /** Decoding an encoded model gives the model back, with its generation. */
  lemma DecodeEncode(m: Model, generation: word)
    requires Valid(m)
    ensures DecodeFile(EncodeFile(m, generation)) == Accepted(Normalize(m), generation)
  {
    hide Valid, Normalize, EncodePayload, DecodePayload, Migrate, PutHeader, GetHeader, Readable;
    ValidHead(m);
    var payload := EncodePayload(m, SCHEMA);
    PayloadFits(m, SCHEMA);
    FileParts(Header(MAGIC, SCHEMA, 0, |payload|, generation, Crc.Crc32(payload)), payload);
    ValidReadable(m);
    PayloadForward(m, SCHEMA);
    NormalValid(m);
    MigrateCurrent(Normalize(m));
  }

  /** A file as the firmware of an older schema wrote it. */
  function OldFile(m: Model, schema: uint16, generation: word): seq<byte>
    requires HeadOk(m.head)
  {
    var payload := EncodePayload(m, schema);
    PayloadFits(m, schema);
    PutHeader(Header(MAGIC, schema, 0, |payload|, generation, Crc.Crc32(payload))) + payload
  }

  /** Files of every schema are understood: what an older firmware wrote decodes to the migrated model. */
  lemma DecodeOld(m: Model, schema: uint16, generation: word)
    requires 1 <= schema <= SCHEMA && Readable(m, schema)
    ensures var migrated := Migrate(schema, Normalize(m));
      DecodeFile(OldFile(m, schema, generation))
      == if Valid(migrated) then Accepted(migrated, generation) else Rejected(InvalidValues)
  {
    hide Valid, Normalize, EncodePayload, DecodePayload, Migrate, PutHeader, GetHeader;
    var payload := EncodePayload(m, schema);
    PayloadFits(m, schema);
    FileParts(Header(MAGIC, schema, 0, |payload|, generation, Crc.Crc32(payload)), payload);
    PayloadForward(m, schema);
    hide Readable;
  }

  /** An accepted file of the current schema is what encoding its model produces, byte for byte,
      provided its reserved field is zero. */
  lemma EncodeDecode(data: seq<byte>)
    requires DecodeFile(data).Accepted?
    requires GetHeader(data).value.schema == SCHEMA && GetHeader(data).value.reserved == 0
    ensures EncodeFile(DecodeFile(data).model, DecodeFile(data).generation) == data
  {
    hide Valid, EncodePayload, DecodePayload, Migrate, PutHeader, GetHeader, Readable;
    var payload := data[HEADER_SIZE..];
    PayloadBackward(payload, SCHEMA);
    MigrateCurrent(DecodePayload(payload, SCHEMA).value);
    HeaderBackward(data);
    assert data == data[..HEADER_SIZE] + payload;
  }

  // ---------------------------------------------------------------- migration

  /** An accepted payload was put together from its parsed parts. */
  lemma DecodedParts(data: seq<byte>, schema: uint16)
      returns (h: Head, a: Lines, b: Shapes, c: Limits, v: Video, p: nat)
    requires DecodePayload(data, schema).Done?
    ensures GetHead(data, schema).Done? && h == GetHead(data, schema).value
    ensures LinesFit(a, h) && ShapesFit(b, h) && LimitsFit(c, h)
    ensures DecodePayload(data, schema).value == Assemble(h, a, b, c, v)
    ensures GetShapes(data, p, schema, h).Done? && GetShapes(data, p, schema, h).value == b
  {
    hide GetHead, GetLines, GetShapes, GetLimits, GetVideo, Assemble, LinesFit, ShapesFit, LimitsFit, HeadOk;
    var (h', p1) := GetHead(data, schema).Extract();
    var (a', p2) := GetLines(data, p1, schema, h').Extract();
    var (b', p3) := GetShapes(data, p2, schema, h').Extract();
    var (c', p4) := GetLimits(data, p3, schema, h').Extract();
    var (v', p5) := GetVideo(data, p4, schema).Extract();
    h, a, b, c, v, p := h', a', b', c', v', p2;
  }

  lemma DecodedNormal(data: seq<byte>, schema: uint16)
    requires DecodePayload(data, schema).Done?
    ensures var m := DecodePayload(data, schema).value; HeadOk(m.head) && Normalize(m) == m
  {
    hide GetHead, DecodePayload, Assemble, HeadOk, Normalize;
    var h, a, b, c, v, p := DecodedParts(data, schema);
    AssembleNormal(Assemble(h, a, b, c, v));
  }

  lemma OverrideDefault()
    ensures OverrideMode(DEFAULT_MODE) == DEFAULT_MODE
  {
    OverrideMaskZero(DEFAULT_MODE.gvars, 0);
  }

  lemma {:induction false} OverrideMaskZero(gvars: seq<int16>, i: nat)
    requires i <= |gvars| && forall k :: 0 <= k < |gvars| ==> gvars[k] == 0
    ensures OverrideMask(0, gvars, i) == 0
    decreases |gvars| - i
  {
    if i < |gvars| {
      OverrideMaskZero(gvars, i + 1);
    }
  }

  /** Entries beyond the counts stay at their defaults through every migration. */
  ghost predicate Normal(m: Model) {
    && HeadOk(m.head)
    && (forall i :: m.head.inputCount <= i < 16 ==> m.inputs[i] == DEFAULT_INPUT)
    && (forall i :: m.head.mixCount <= i < 64 ==> m.mixes[i] == DEFAULT_MIX)
    && (forall i :: m.head.logicalCount <= i < 24 ==> m.logicals[i] == DEFAULT_LOGICAL)
    && (forall i :: m.head.modeCount <= i < 5 ==> m.modes[i] == DEFAULT_MODE)
    && (forall i :: m.head.curveCount <= i < 16 ==> m.curves[i] == DEFAULT_CURVE)
    && (forall i :: m.head.specialCount <= i < 24 ==> m.specials[i] == DEFAULT_SPECIAL)
  }

  lemma {:induction false} FillSame<T>(xs: seq<T>, n: nat, default: T)
    requires n <= |xs|
    ensures Fill(xs[..n], |xs|, default) == xs <==> forall i :: n <= i < |xs| ==> xs[i] == default
  {
    var r := Fill(xs[..n], |xs|, default);
    if r == xs {
    } else if forall i :: n <= i < |xs| ==> xs[i] == default {
      forall i | 0 <= i < |xs| ensures r[i] == xs[i] {
        if i < n {
          assert r[..n][i] == xs[..n][i];
        }
      }
      assert false;
    }
  }

  lemma NormalIff(m: Model)
    requires HeadOk(m.head)
    ensures Normalize(m) == m <==> Normal(m)
  {
    hide Fill;
    FillSame(m.inputs, m.head.inputCount, DEFAULT_INPUT);
    FillSame(m.mixes, m.head.mixCount, DEFAULT_MIX);
    FillSame(m.logicals, m.head.logicalCount, DEFAULT_LOGICAL);
    FillSame(m.modes, m.head.modeCount, DEFAULT_MODE);
    FillSame(m.curves, m.head.curveCount, DEFAULT_CURVE);
    FillSame(m.specials, m.head.specialCount, DEFAULT_SPECIAL);
  }

  lemma MigrateModesNormal(schema: uint16, m: Model)
    requires Normal(m)
    ensures Normal(MigrateModes(schema, m))
  {
    OverrideDefault();
  }

  lemma MigrateAuxNormal(schema: uint16, m: Model)
    requires Normal(m)
    ensures Normal(MigrateAux(schema, m))
  {
  }

  lemma MigrateAxesNormal(schema: uint16, m: Model)
    requires Normal(m)
    ensures Normal(MigrateAxes(schema, m))
  {
  }

  lemma MigrateNormal(schema: uint16, m: Model)
    requires Normal(m)
    ensures Normal(Migrate(schema, m))
  {
    hide MigrateModes, MigrateAux, MigrateAxes;
    var m1 := MigrateSwitches(schema, m);
    assert Normal(m1);
    var m2 := MigrateModes(schema, m1);
    MigrateModesNormal(schema, m1);
    var m3 := MigrateAux(schema, m2);
    MigrateAuxNormal(schema, m2);
    MigrateAxesNormal(schema, m3);
    assert Normal(MigrateVideo(schema, MigrateAxes(schema, m3)));
  }

  /** Every accepted file, of whatever schema, yields a valid model that the current format stores
      without loss: encoding and decoding it again gives exactly that model and generation. */
  lemma AcceptedIsFixedPoint(data: seq<byte>)
    requires DecodeFile(data).Accepted?
    ensures var r := DecodeFile(data);
      Valid(r.model) && DecodeFile(EncodeFile(r.model, r.generation)) == r
  {
    hide Valid, Normalize, EncodePayload, DecodePayload, Migrate, GetHeader, Normal;
    var r := DecodeFile(data);
    var schema := GetHeader(data).value.schema;
    var payload := data[HEADER_SIZE..];
    DecodedNormal(payload, schema);
    var m := DecodePayload(payload, schema).value;
    NormalIff(m);
    MigrateNormal(schema, m);
    ValidHead(r.model);
    NormalIff(r.model);
    DecodeEncode(r.model, r.generation);
  }

  lemma ValidHead(m: Model)
    requires Valid(m)
    ensures HeadOk(m.head)
  {
  }

  // ---------------------------------------------------------------- the meaning of a migrated mode

  lemma {:induction false} BitOr(x: nat, y: nat, i: nat)
    ensures Bit(Or(x, y), i) == (Bit(x, i) || Bit(y, i))
    decreases i
  {
    if x == 0 && y == 0 {
    } else {
      assert Or(x, y) / 2 == Or(x / 2, y / 2);
      if i > 0 {
        BitOr(x / 2, y / 2, i - 1);
      }
    }
  }

  lemma {:induction false} BitZero(i: nat)
    ensures !Bit(0, i)
  {
    if i > 0 {
      BitZero(i - 1);
    }
  }

  lemma {:induction false} BitPow2(k: nat, i: nat)
    ensures Bit(Pow2(k), i) == (i == k)
    decreases k
  {
    if k == 0 {
      if i > 0 {
        BitZero(i - 1);
      }
    } else if i > 0 {
      BitPow2(k - 1, i - 1);
    }
  }

  lemma {:induction false} OverrideBits(mask: nat, gvars: seq<int16>, from: nat, i: nat)
    requires from <= |gvars|
    ensures Bit(OverrideMask(mask, gvars, from), i)
      == (Bit(mask, i) || (from <= i < |gvars| && gvars[i] != 0))
    decreases |gvars| - from
  {
    if from < |gvars| {
      BitOr(mask, Pow2(from), i);
      BitPow2(from, i);
      OverrideBits(if gvars[from] != 0 then Or(mask, Pow2(from)) else mask, gvars, from + 1, i);
    }
  }

  /** The value the mixer reads for global variable `i` in flight mode `mode`. */
  function EffectiveGVar(m: Model, mode: nat, i: nat): int16
    requires mode < MAX_FLIGHT_MODES && i < MAX_GVARS
  {
    if Bit(m.modes[mode].gvarOverrideMask, i) then m.modes[mode].gvars[i] else m.gvars[i]
  }

  /** Migrating a file older than schema 3 keeps the meaning its modes had: a non-zero mode value
      replaces the global one, a zero value does not. */
  lemma MigrateKeepsGVars(data: seq<byte>, schema: uint16, mode: nat, i: nat)
    requires schema < 3 && DecodePayload(data, schema).Done? && mode < MAX_FLIGHT_MODES && i < MAX_GVARS
    requires mode < DecodePayload(data, schema).value.head.modeCount
    ensures var m := DecodePayload(data, schema).value;
      EffectiveGVar(Migrate(schema, m), mode, i)
        == if m.modes[mode].gvars[i] != 0 then m.modes[mode].gvars[i] else m.gvars[i]
  {
    var m := DecodePayload(data, schema).value;
    OldModesHaveNoMask(data, schema, mode);
    OverrideBits(0, m.modes[mode].gvars, 0, i);
    BitZero(i);
    MigrateModesOnly(schema, m, mode);
  }

  lemma MigrateModesOnly(schema: uint16, m: Model, mode: nat)
    requires schema < 3 && mode < MAX_FLIGHT_MODES
    ensures Migrate(schema, m).modes[mode] == OverrideMode(m.modes[mode])
    ensures Migrate(schema, m).gvars == m.gvars
  {
    hide OverrideMode, NamedDefault, LegacyAxis, LegacyAux;
  }

  lemma OldModeHasNoMask(data: seq<byte>, pos: nat, schema: uint16)
    requires schema < 3 && GetMode(data, pos, schema).Done?
    ensures GetMode(data, pos, schema).value.gvarOverrideMask == 0
  {
    hide GetU, GetBool, GetSwitch, GetValues, ModeReadable;
  }

  lemma {:induction false} TableModes(data: seq<byte>, pos: nat, n: nat, schema: uint16)
    requires schema < 3 && GetTable(ModeCodec(schema), data, pos, n).Done?
    ensures forall k :: 0 <= k < n ==> GetTable(ModeCodec(schema), data, pos, n).value[k].gvarOverrideMask == 0
    decreases n
  {
    hide GetMode;
    if n > 0 {
      TableModes(data, pos, n - 1, schema);
      OldModeHasNoMask(data, GetTable(ModeCodec(schema), data, pos, n - 1).pos, schema);
    }
  }

  lemma OldModesHaveNoMask(data: seq<byte>, schema: uint16, mode: nat)
    requires schema < 3 && DecodePayload(data, schema).Done?
    requires mode < DecodePayload(data, schema).value.head.modeCount <= MAX_FLIGHT_MODES
    ensures DecodePayload(data, schema).value.modes[mode].gvarOverrideMask == 0
  {
    hide GetHead, DecodePayload, Assemble, HeadOk, GetMode;
    var h, a, b, c, v, p := DecodedParts(data, schema);
    TableModes(data, p, h.modeCount, schema);
    assert ShapesOf(Assemble(h, a, b, c, v)).modes[mode] == Assemble(h, a, b, c, v).modes[mode];
  }

  // ---------------------------------------------------------------- detection

  /** The header of a file does not depend on what follows it. */
  lemma HeaderPrefix(a: seq<byte>, b: seq<byte>)
    requires |a| >= HEADER_SIZE && |b| >= HEADER_SIZE && a[..HEADER_SIZE] == b[..HEADER_SIZE]
    ensures GetHeader(a) == GetHeader(b)
  {
    HeaderBackward(a);
    var h := GetHeader(a).value;
    assert a == PutHeader(h) + a[HEADER_SIZE..];
    assert b == PutHeader(h) + b[HEADER_SIZE..];
    FileParts(h, a[HEADER_SIZE..]);
    FileParts(h, b[HEADER_SIZE..]);
  }

  /** No strict prefix of an accepted file is accepted: a torn write never looks complete. */
  lemma TornFileRejected(data: seq<byte>, n: nat)
    requires DecodeFile(data).Accepted? && n < |data|
    ensures DecodeFile(data[..n]) == Rejected(if n < HEADER_SIZE then HeaderTruncated else InvalidHeader)
  {
    if n >= HEADER_SIZE {
      assert data[..n][..HEADER_SIZE] == data[..HEADER_SIZE];
      HeaderPrefix(data, data[..n]);
    }
  }

  /** Altering any payload bytes inside a window of four is reported as a CRC mismatch. */
  lemma BurstRejected(data: seq<byte>, damaged: seq<byte>, i: nat)
    requires DecodeFile(data).Accepted?
    requires |data| == |damaged| && data[..HEADER_SIZE] == damaged[..HEADER_SIZE]
    requires Crc.BurstAt(data[HEADER_SIZE..], damaged[HEADER_SIZE..], i)
    ensures DecodeFile(damaged) == Rejected(CrcMismatch)
  {
    HeaderPrefix(data, damaged);
    Crc.BurstDetected(data[HEADER_SIZE..], damaged[HEADER_SIZE..], i);
  }
}
