/** The copies of the model that the control task and the user-interface task keep: the model in use, the copy
    offered for saving whenever a trim or a failsafe has changed, the model being edited, and the candidate on
    its way to the control task.  Slot and generation label what a copy was loaded from or saved as.  A step
    that its task is not ready for leaves the radio as it is. */
module EditSession {
  import opened Bits
  import opened Model
  import opened Safety
  import opened CrsfPacking
  import opened RuntimeModel
  import CodecLaws
  import Mixer
  import ModelCodec

  datatype Copy = Copy(model: Model, slot: nat, generation: nat)

  /** `due` says that the offered copy has not been taken over yet, `needed` that the edits want activation,
      `late` that values taken over during an activation do; `state` is the hand-off variable.  `merged` is
      where the user-interface loop stands: each pass merges before it saves, and the end of an activation
      restarts the second of quiet that a save waits for. */
  datatype Radio = Radio(
    running: Copy, mixer: Mixer.State, trims: TrimState, offered: Copy, due: bool,
    editing: Copy, needed: bool, late: bool, pending: Copy, state: nat, merged: bool)

  /** After start-up.  The offered and the pending copy are not read before they are written. */
  function Started(m: Model, slot: nat, generation: nat): Radio {
    var copy := Copy(m, slot, generation);
    Radio(copy, Mixer.Reset(), TrimReset(), copy, false, copy, false, false, copy, 0, false)
  }

  datatype Event =
    | MixFrame(mode: nat, sums: Mixer.Sums, now: nat)
    | TrimTick(inputs: Controls, at: nat)
    | TrimInstantly(axes: AxisValues)
    | Capture
    | Adopt
    | Screen(e: Edit)
    | ChooseVideo(band: byte, channel: byte)
    | Merge(saved: bool)
    | Save
    | Select(file: seq<byte>, slot: nat, restored: bool)
    | Conclude

  predicate Inv(r: Radio) {
    && Fine(r.running.model) && Fine(r.offered.model) && Fine(r.editing.model) && Fine(r.pending.model)
    && Mixer.Inv(r.running.model, r.mixer) && r.mixer.previousMode < r.running.model.head.modeCount as int
  }

  /** The active flight mode is one the model has; a capture follows a frame; the receiver has 48 channels. */
  predicate Possible(r: Radio, e: Event) {
    && (e.MixFrame? ==> e.mode < r.running.model.head.modeCount as int)
    && (e.Capture? ==> r.mixer.initialized)
    && (e.ChooseVideo? ==> e.band < 6 && e.channel < 8)
  }

  // ---------------------------------------------------------------- the control task

  function Offered(r: Radio, m: Model): Radio {
    var running := r.running.(model := m);
    r.(running := running, offered := running, due := true)
  }

  function Trim(r: Radio, inputs: Controls, at: nat): Radio {
    var m := TrimModel(r.running.model, r.trims, r.mixer.previousMode, inputs, at);
    var r := r.(trims := TrimNext(r.running.model, r.trims, r.mixer.previousMode, inputs, at));
    if m == r.running.model then r else Offered(r, m)
  }

  function Adopted(r: Radio): Radio {
    if r.state == 1 then r.(running := r.pending, mixer := Mixer.Reset(), trims := TrimReset(), state := 2) else r
  }

  // ---------------------------------------------------------------- the user-interface task

  function Screened(r: Radio, e: Edit): Radio
    requires HeadOk(r.editing.model.head)
  {
    var edited := Apply(r.editing.model, e);
    if edited.Accepted? then r.(editing := r.editing.(model := edited.model), needed := true) else r
  }

  /** A channel chosen on the video page, or found by a scan. */
  function Chosen(m: Model, band: byte, channel: byte): Model {
    m.(video := m.video.(band := band, channel := channel))
  }

  /** The edited model is dropped for the offered one only if it wants no activation and the labels agree. */
  predicate Replaces(r: Radio) {
    !r.needed && r.offered.slot == r.editing.slot && r.offered.generation == r.editing.generation
  }

  function Merged(r: Radio, saved: bool): Radio {
    var r := r.(merged := true);
    if !r.due then r
    else if r.offered.slot != r.editing.slot then r.(due := !saved)
    else if Replaces(r) then r.(editing := r.editing.(model := r.offered.model), due := false)
    else
      var stale := r.offered.generation != r.editing.generation;
      r.(editing := r.editing.(model := WithValues(r.editing.model, r.offered.model)), due := false,
         late := r.late || (stale && r.state != 0), needed := r.needed || (stale && r.state == 0))
  }

  /** A successful save, under the next generation. */
  function Saved(r: Radio): Radio {
    if r.state != 0 || !r.merged then r
    else
      var editing := r.editing.(generation := r.editing.generation + 1);
      if r.needed then r.(editing := editing, pending := editing, state := 1, merged := false)
      else
        r.(editing := editing, merged := false,
           running := r.running.(slot := editing.slot, generation := editing.generation))
  }

  /** Another slot is selected, or the active one read again after its file was replaced. */
  function Selected(r: Radio, file: seq<byte>, slot: nat, restored: bool): Radio {
    var found := ModelCodec.DecodeFile(file);
    if r.state != 0 || !found.Accepted? then r
    else
      var copy := Copy(found.model, slot, found.generation);
      r.(editing := copy, pending := copy, state := 1, needed := restored && r.needed)
  }

  function Concluded(r: Radio): Radio {
    if r.state == 2 then r.(needed := r.late, late := false, state := 0, merged := false) else r
  }

  function Step(r: Radio, e: Event): Radio
    requires Inv(r) && Possible(r, e)
  {
    match e
    case MixFrame(mode, sums, now) => r.(mixer := Mixer.Evaluate(r.running.model, r.mixer, mode, sums, now))
    case TrimTick(inputs, at) => Trim(r, inputs, at)
    case TrimInstantly(axes) => Offered(r, InstantTrim(r.running.model, r.mixer.previousMode, axes))
    case Capture => Offered(r, CaptureFailsafe(r.running.model, r.mixer.previous))
    case Adopt => Adopted(r)
    case Screen(edit) => Screened(r, edit)
    case ChooseVideo(band, channel) => r.(editing := r.editing.(model := Chosen(r.editing.model, band, channel)))
    case Merge(saved) => Merged(r, saved)
    case Save => Saved(r)
    case Select(file, slot, restored) => Selected(r, file, slot, restored)
    case Conclude => Concluded(r)
  }

  // ---------------------------------------------------------------- every model stays one that can be saved

  lemma EditKeepsTrims(m: Model, e: Edit)
    requires HeadOk(m.head) && TrimsOk(m) && Apply(m, e).Accepted?
    ensures TrimsOk(Apply(m, e).model)
  {
    hide EditHead, EditLine, EditOutput;
    OthersKeepModes(m, e);
  }

  lemma OthersKeepModes(m: Model, e: Edit)
    requires HeadOk(m.head)
    ensures EditHead(m, e).Accepted? ==> EditHead(m, e).model.modes == m.modes
    ensures EditLine(m, e).Accepted? ==> EditLine(m, e).model.modes == m.modes
    ensures EditOutput(m, e).Accepted? ==> EditOutput(m, e).model.modes == m.modes
  {
  }

  lemma TrimIsFine(m: Model, s: TrimState, mode: nat, inputs: Controls, now: nat)
    requires Fine(m)
    ensures Fine(TrimModel(m, s, mode, inputs, now))
  {
    TrimKeepsValid(m, s, mode, inputs, now);
    hide Valid;
  }

  lemma InstantIsFine(m: Model, mode: nat, axes: AxisValues)
    requires Fine(m) && mode < m.head.modeCount as int <= MAX_FLIGHT_MODES
    ensures Fine(InstantTrim(m, mode, axes))
  {
    InstantTrimKeepsValid(m, mode, axes);
    hide Valid;
  }

  lemma ChosenIsFine(m: Model, band: byte, channel: byte)
    requires Fine(m) && band < 6 && channel < 8
    ensures Fine(Chosen(m, band, channel))
  {
    hide SwitchOk, SourceOk, InputOk, MixOk, LogicalOk, TimerOk, SpecialOk, OutputOk, ModeOk;
  }

  /** What is read from a file has its unused modes at their defaults. */
  lemma FileIsFine(file: seq<byte>)
    requires ModelCodec.DecodeFile(file).Accepted?
    ensures Fine(ModelCodec.DecodeFile(file).model)
  {
    CodecLaws.AcceptedIsFixedPoint(file);
    var found := ModelCodec.DecodeFile(file);
    CodecLaws.DecodeEncode(found.model, found.generation);
    NormalTrims(found.model);
    hide Valid, ModelCodec.DecodeFile, ModelCodec.EncodeFile, Normalize, TrimsOk;
  }

  lemma NormalTrims(m: Model)
    requires Valid(m) && Normalize(m) == m
    ensures TrimsOk(m)
  {
    forall i | 0 <= i < MAX_FLIGHT_MODES ensures ValuesOk(m.modes[i].trims) {
      if i < m.head.modeCount as int {
        assert ModeOk(m.modes[i]);
      } else {
        assert Normalize(m).modes[i] == DEFAULT_MODE;
      }
    }
  }

  lemma ControlKeepsInv(r: Radio, e: Event)
    requires Inv(r) && Possible(r, e)
    requires e.MixFrame? || e.TrimTick? || e.TrimInstantly? || e.Capture? || e.Adopt?
    ensures Inv(Step(r, e))
  {
    hide Valid, TrimsOk, Mixer.Inv, TrimModel, TrimNext, InstantTrim, CaptureFailsafe, Mixer.Evaluate, SameLimits;
    var m, mode := r.running.model, r.mixer.previousMode;
    ValidParts(m);
    match e
    case MixFrame(mode, sums, now) => FrameKeeps(r, mode, sums, now);
    case TrimTick(inputs, at) =>
      TrimIsFine(m, r.trims, mode, inputs, at);
      TrimKeepsLimits(m, r.trims, mode, inputs, at);
      LimitsCarry(m, TrimModel(m, r.trims, mode, inputs, at), r.mixer);
    case TrimInstantly(axes) =>
      InstantIsFine(m, mode, axes);
      InstantKeepsLimits(m, mode, axes);
      LimitsCarry(m, InstantTrim(m, mode, axes), r.mixer);
    case Capture => CaptureKeeps(r);
    case Adopt => ResetInv(r.pending.model);
  }

  lemma FrameKeeps(r: Radio, mode: nat, sums: Mixer.Sums, now: nat)
    requires Inv(r) && mode < r.running.model.head.modeCount as int
    ensures Mixer.Inv(r.running.model, Mixer.Evaluate(r.running.model, r.mixer, mode, sums, now))
    ensures Mixer.Evaluate(r.running.model, r.mixer, mode, sums, now).previousMode == mode
  {
    Mixer.EvaluateKeeps(r.running.model, r.mixer, mode, sums, now);
    hide Valid, Mixer.Inv, Mixer.Output;
  }

  lemma CaptureKeeps(r: Radio)
    requires Inv(r) && r.mixer.initialized
    ensures var m := CaptureFailsafe(r.running.model, r.mixer.previous);
      Fine(m) && Mixer.Inv(m, r.mixer) && m.head == r.running.model.head
  {
    hide Valid;
    CaptureKeepsValid(r.running.model, r.mixer.previous);
    CaptureKeepsLimits(r.running.model, r.mixer.previous);
    LimitsCarry(r.running.model, CaptureFailsafe(r.running.model, r.mixer.previous), r.mixer);
    hide Mixer.Inv, SameLimits;
  }

  /** Every copy stays valid with all trims in range, whatever the two tasks do. */
  lemma StepKeepsInv(r: Radio, e: Event)
    requires Inv(r) && Possible(r, e)
    ensures Inv(Step(r, e))
  {
    hide Valid, TrimsOk, Mixer.Inv, Apply, WithValues, ModelCodec.DecodeFile;
    ValidParts(r.editing.model);
    match e
    case Screen(edit) =>
      if Apply(r.editing.model, edit).Accepted? {
        EditKeepsValid(r.editing.model, edit);
        EditKeepsTrims(r.editing.model, edit);
      }
    case ChooseVideo(band, channel) => ChosenIsFine(r.editing.model, band, channel);
    case Merge(_) => WithValuesIsFine(r.editing.model, r.offered.model);
    case Select(file, _, _) =>
      if ModelCodec.DecodeFile(file).Accepted? {
        FileIsFine(file);
      }
    case Save =>
    case Conclude =>
    case _ =>
      ControlKeepsInv(r, e);
      hide Step;
  }

  predicate AllPossible(r: Radio, es: seq<Event>)
    requires Inv(r)
    decreases |es|
  {
    es != [] ==>
      Possible(r, es[0]) && (StepKeepsInv(r, es[0]); AllPossible(Step(r, es[0]), es[1..]))
  }

  function Run(r: Radio, es: seq<Event>): (q: Radio)
    requires Inv(r) && AllPossible(r, es)
    ensures Inv(q)
    decreases |es|
  {
    if es == [] then r
    else
      StepKeepsInv(r, es[0]);
      Run(Step(r, es[0]), es[1..])
  }
}
