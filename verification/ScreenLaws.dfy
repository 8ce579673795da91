/** Screens and editor belong together: a screen shows each field's value, and the editor takes a new one.
    They are tied by the laws that tie any pair of reading and writing. */
module ScreenLaws {
  import opened Bits
  import opened Wire
  import opened Model
  import opened RuntimeModel

  // ---------------------------------------------------------------- what a screen shows

  /** The field exists in the model. */
  predicate Exists(m: Model, f: Field) {
    match f
    case InputWeight(i) => i < m.head.inputCount as int
    case InputExpo(i) => i < m.head.inputCount as int
    case MixWeight(i) => i < m.head.mixCount as int
    case MixOffset(i) => i < m.head.mixCount as int
    case OutputMinimum(i) => i < CHANNEL_COUNT
    case OutputMaximum(i) => i < CHANNEL_COUNT
    case OutputSubtrim(i) => i < CHANNEL_COUNT
    case OutputReversed(i) => i < CHANNEL_COUNT
    case LogicalThreshold(i) => i < m.head.logicalCount as int
    case LogicalDelay(i) => i < m.head.logicalCount as int
    case SpecialEnabled(i) => i < m.head.specialCount as int
    case SpecialParameter(i) => i < m.head.specialCount as int
    case TimerStart(i) => i < MAX_TIMERS
    case ModeTrim(i, axis) => i < m.head.modeCount as int && axis < MAX_AXES
    case CurvePoint(i, point) => i < m.head.curveCount as int && point < CURVE_POINTS
    case UnknownField => false
    case _ => true
  }

  function Flag(b: bool): int {
    if b then 1 else 0
  }

  /** The value the screens show for a field.  Band, channel and overlay of the receiver have no screen of their
      own; they are given in the editor's units. */
  function Shown(m: Model, f: Field): int
    requires HeadOk(m.head) && Exists(m, f)
  {
    match f
    case ModelId => m.head.modelId
    case ThrottleAxis => m.head.throttleAxis
    case ThrottleChannel => m.head.throttleChannel + 1
    case VrxBand => m.video.band
    case VrxChannel => m.video.channel + 1
    case Overlay => Flag(m.video.overlay)
    case RfLock => Flag(m.video.rfLock)
    case InputWeight(i) => m.inputs[i].weightPercent
    case InputExpo(i) => m.inputs[i].expoPercent
    case MixWeight(i) => m.mixes[i].weightPercent
    case MixOffset(i) => m.mixes[i].offset
    case OutputMinimum(i) => m.outputs[i].minimum
    case OutputMaximum(i) => m.outputs[i].maximum
    case OutputSubtrim(i) => m.outputs[i].subtrim
    case OutputReversed(i) => Flag(m.outputs[i].reversed)
    case LogicalThreshold(i) => m.logicals[i].threshold
    case LogicalDelay(i) => m.logicals[i].delayMs
    case SpecialEnabled(i) => Flag(m.specials[i].enabled)
    case SpecialParameter(i) => m.specials[i].parameter
    case TimerStart(i) => m.timers[i].startSeconds
    case ModeTrim(i, axis) => m.modes[i].trims[axis]
    case CurvePoint(i, point) => m.curves[i].points[point]
  }

  /** The range the screens offer for a field. */
  function Lowest(f: Field): int {
    match f
    case ThrottleChannel => 1
    case VrxChannel => 1
    case InputWeight(_) => -100
    case InputExpo(_) => -100
    case MixWeight(_) => -100
    case MixOffset(_) => -1024
    case OutputMinimum(_) => -1024
    case OutputSubtrim(_) => -1024
    case LogicalThreshold(_) => -1024
    case SpecialParameter(_) => -32768
    case TimerStart(_) => -86400
    case ModeTrim(_, _) => -1024
    case CurvePoint(_, _) => -1024
    case _ => 0
  }

  function Highest(f: Field): int {
    match f
    case ModelId => 63
    case ThrottleAxis => 7
    case ThrottleChannel => 16
    case VrxBand => 5
    case VrxChannel => 8
    case Overlay => 1
    case RfLock => 1
    case InputWeight(_) => 100
    case InputExpo(_) => 100
    case MixWeight(_) => 100
    case OutputMinimum(_) => 0
    case OutputReversed(_) => 1
    case LogicalDelay(_) => 30000
    case SpecialEnabled(_) => 1
    case SpecialParameter(_) => 32767
    case TimerStart(_) => 86400
    case UnknownField => 0
    case _ => 1024
  }

  // ---------------------------------------------------------------- the laws

  /** A new value, once accepted, is what is shown. */
  lemma PutGet(m: Model, e: Edit)
    requires Valid(m) && Apply(m, e).Accepted?
    ensures Exists(m, e.field) && HeadOk(Apply(m, e).model.head) && Exists(Apply(m, e).model, e.field)
    ensures Shown(Apply(m, e).model, e.field) == e.v
  {
    ValidParts(m);
    hide Valid;
  }

  lemma HeadLocal(m: Model, e: Edit, f: Field)
    requires HeadOk(m.head) && EditHead(m, e).Accepted? && Exists(m, f) && f != e.field
    ensures Exists(EditHead(m, e).model, f) && Shown(EditHead(m, e).model, f) == Shown(m, f)
  {
  }

  predicate IsMixing(f: Field) {
    f.InputWeight? || f.InputExpo? || f.MixWeight? || f.MixOffset?
  }

  lemma LineLocal(m: Model, e: Edit, f: Field)
    requires HeadOk(m.head) && EditLine(m, e).Accepted? && Exists(m, f) && f != e.field
    ensures Exists(EditLine(m, e).model, f) && Shown(EditLine(m, e).model, f) == Shown(m, f)
  {
    hide EditLine, Shown, Exists, HeadOk;
    if IsMixing(e.field) {
      MixingLocal(m, e, f);
    } else {
      SwitchingLocal(m, e, f);
    }
  }

  lemma MixingLocal(m: Model, e: Edit, f: Field)
    requires HeadOk(m.head) && EditLine(m, e).Accepted? && Exists(m, f) && f != e.field && IsMixing(e.field)
    ensures Exists(EditLine(m, e).model, f) && Shown(EditLine(m, e).model, f) == Shown(m, f)
  {
  }

  predicate IsLogical(f: Field) {
    f.LogicalThreshold? || f.LogicalDelay?
  }

  lemma SwitchingLocal(m: Model, e: Edit, f: Field)
    requires HeadOk(m.head) && EditLine(m, e).Accepted? && Exists(m, f) && f != e.field && !IsMixing(e.field)
    ensures Exists(EditLine(m, e).model, f) && Shown(EditLine(m, e).model, f) == Shown(m, f)
  {
    hide EditLine, Shown, Exists, HeadOk;
    if IsLogical(e.field) {
      LogicalLocal(m, e, f);
    } else {
      SpecialLocal(m, e, f);
    }
  }

  lemma LogicalLocal(m: Model, e: Edit, f: Field)
    requires HeadOk(m.head) && EditLine(m, e).Accepted? && Exists(m, f) && f != e.field && IsLogical(e.field)
    ensures Exists(EditLine(m, e).model, f) && Shown(EditLine(m, e).model, f) == Shown(m, f)
  {
  }

  lemma SpecialLocal(m: Model, e: Edit, f: Field)
    requires HeadOk(m.head) && EditLine(m, e).Accepted? && Exists(m, f) && f != e.field
    requires !IsMixing(e.field) && !IsLogical(e.field)
    ensures Exists(EditLine(m, e).model, f) && Shown(EditLine(m, e).model, f) == Shown(m, f)
  {
  }

  lemma OutputLocal(m: Model, e: Edit, f: Field)
    requires HeadOk(m.head) && EditOutput(m, e).Accepted? && Exists(m, f) && f != e.field
    ensures Exists(EditOutput(m, e).model, f) && Shown(EditOutput(m, e).model, f) == Shown(m, f)
  {
    hide Shown, Exists;
    if e.field.OutputMinimum? || e.field.OutputMaximum? {
      LimitLocal(m, e, f);
    } else {
      TrimLocal(m, e, f);
    }
  }

  lemma LimitLocal(m: Model, e: Edit, f: Field)
    requires HeadOk(m.head) && EditOutput(m, e).Accepted? && Exists(m, f) && f != e.field
    requires e.field.OutputMinimum? || e.field.OutputMaximum?
    ensures Exists(EditOutput(m, e).model, f) && Shown(EditOutput(m, e).model, f) == Shown(m, f)
  {
  }

  lemma TrimLocal(m: Model, e: Edit, f: Field)
    requires HeadOk(m.head) && EditOutput(m, e).Accepted? && Exists(m, f) && f != e.field
    requires !e.field.OutputMinimum? && !e.field.OutputMaximum?
    ensures Exists(EditOutput(m, e).model, f) && Shown(EditOutput(m, e).model, f) == Shown(m, f)
  {
  }

  lemma PointLocal(m: Model, e: Edit, f: Field)
    requires HeadOk(m.head) && EditPoint(m, e).Accepted? && Exists(m, f) && f != e.field
    ensures Exists(EditPoint(m, e).model, f) && Shown(EditPoint(m, e).model, f) == Shown(m, f)
  {
  }

  /** No other field changes. */
  lemma PutLocal(m: Model, e: Edit, f: Field)
    requires Valid(m) && Apply(m, e).Accepted? && Exists(m, f) && f != e.field
    ensures HeadOk(Apply(m, e).model.head) && Exists(Apply(m, e).model, f)
    ensures Shown(Apply(m, e).model, f) == Shown(m, f)
  {
    ValidParts(m);
    EditKeepsValid(m, e);
    ValidParts(Apply(m, e).model);
    hide Valid, EditHead, EditLine, EditOutput, EditPoint, Shown, Exists;
    if EditHead(m, e).Accepted? {
      HeadLocal(m, e, f);
    }
    if EditLine(m, e).Accepted? {
      LineLocal(m, e, f);
    }
    if EditOutput(m, e).Accepted? {
      OutputLocal(m, e, f);
    }
    if EditPoint(m, e).Accepted? {
      PointLocal(m, e, f);
    }
  }

  /** Putting an entry back where it was changes nothing. */
  lemma SamePlace<T>(s: seq<T>)
    ensures forall i :: 0 <= i < |s| ==> s[i := s[i]] == s
  {
  }

  /** The entry behind a valid model's field is valid. */
  lemma EntryOk(m: Model, f: Field)
    requires Valid(m) && Exists(m, f)
    ensures f.InputWeight? || f.InputExpo? ==> InputOk(m.inputs[f.i])
    ensures f.MixWeight? || f.MixOffset? ==> MixOk(m.mixes[f.i])
    ensures f.OutputMinimum? || f.OutputMaximum? || f.OutputSubtrim? || f.OutputReversed? ==> OutputOk(m.outputs[f.i])
    ensures f.TimerStart? ==> TimerOk(m.timers[f.i])
    ensures f.ModeTrim? ==> InResolution(m.modes[f.i].trims[f.axis])
    ensures f.CurvePoint? ==> InResolution(m.curves[f.i].points[f.point])
    ensures HeadOk(m.head) && VideoOk(m.video)
  {
    if f.ModeTrim? {
      assert ModeOk(m.modes[f.i]);
    }
  }

  /** Entering the value shown changes nothing, exactly unless it is a model id or a threshold that only the
      file format allows. */
  lemma GetPut(m: Model, f: Field)
    requires Valid(m) && Exists(m, f)
    ensures HeadOk(m.head)
    ensures Apply(m, Edit(f, Shown(m, f))) == Accepted(m) <==>
              ((f.ModelId? ==> m.head.modelId <= 63)
               && (f.LogicalThreshold? ==> InResolution(m.logicals[f.i].threshold)))
  {
    EntryOk(m, f);
    hide Valid, HeadOk, SwitchOk, SourceOk, ValuesOk;
    SamePlace(m.inputs);
    SamePlace(m.mixes);
    SamePlace(m.outputs);
    SamePlace(m.logicals);
    SamePlace(m.specials);
    SamePlace(m.timers);
    SamePlace(m.modes);
    SamePlace(m.curves);
    if f.ModeTrim? {
      SamePlace(m.modes[f.i].trims);
    } else if f.CurvePoint? {
      SamePlace(m.curves[f.i].points);
    }
  }

  /** A value the screen offers is accepted, exactly unless it would put an output's limits out of order. */
  lemma OfferedAccepted(m: Model, e: Edit)
    requires Valid(m) && Exists(m, e.field) && Lowest(e.field) <= e.v <= Highest(e.field)
    ensures Apply(m, e).Accepted? <==>
              ((e.field.OutputMinimum? ==> e.v <= m.outputs[e.field.i].maximum)
               && (e.field.OutputMaximum? ==> m.outputs[e.field.i].minimum <= e.v))
  {
    ValidParts(m);
    hide Valid;
  }
}
