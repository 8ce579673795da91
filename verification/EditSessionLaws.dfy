/** What a whole session guarantees: every copy can be saved and loaded again, and edits survive the merging
    of trims and failsafe values.  Two ways of losing a choice are real and stated exactly. */
module EditSessionLaws {
  import opened Bits
  import opened Model
  import opened RuntimeModel
  import opened EditSession
  import Mixer
  import ModelCodec
  import Safety
  import CodecLaws

  /** Whatever is edited, trimmed, captured, merged, selected and adopted, the model in use, the offered copy
      and the edited model can be saved, and loading them gives them back up to unused table entries; every
      mixed frame is within the limits of its outputs, also in the middle of a fade. */
  lemma AlwaysSaveable(r: Radio, es: seq<Event>, generation: word)
    requires Inv(r) && AllPossible(r, es)
    ensures var q := Run(r, es);
      && Saveable(q.running.model, generation) && Saveable(q.editing.model, generation)
      && Saveable(q.offered.model, generation)
      && (q.mixer.initialized ==> Mixer.Within(q.running.model, q.mixer.previous))
  {
    hide Valid, Run, ModelCodec.EncodeFile, ModelCodec.DecodeFile, Normalize;
    var q := Run(r, es);
    ValidParts(q.running.model);
    ValidParts(q.editing.model);
    ValidParts(q.offered.model);
    CodecLaws.DecodeEncode(q.running.model, generation);
    CodecLaws.DecodeEncode(q.editing.model, generation);
    CodecLaws.DecodeEncode(q.offered.model, generation);
  }

  predicate Saveable(m: Model, generation: word) {
    && HeadOk(m.head)
    && ModelCodec.DecodeFile(ModelCodec.EncodeFile(m, generation)) == ModelCodec.Accepted(Normalize(m), generation)
  }

  // ---------------------------------------------------------------- what only the screens change

  /** The model without what trims, captures and the video page change. */
  function Base(m: Model): Model {
    m.(modes := seq(5, i requires 0 <= i < 5 => m.modes[i].(trims := [0, 0, 0, 0, 0, 0, 0, 0])),
       outputs := seq(16, i requires 0 <= i < 16 => m.outputs[i].(failsafe := 0)),
       video := m.video.(band := 0, channel := 0))
  }

  lemma TrimBase(m: Model, s: TrimState, mode: nat, inputs: Safety.Controls, now: nat)
    ensures Base(TrimModel(m, s, mode, inputs, now)) == Base(m)
  {
    hide Trims;
  }

  lemma InstantBase(m: Model, mode: nat, axes: AxisValues)
    requires mode < MAX_FLIGHT_MODES
    ensures Base(InstantTrim(m, mode, axes)) == Base(m)
  {
    assert Base(InstantTrim(m, mode, axes)).modes == Base(m).modes;
  }

  lemma CaptureBase(m: Model, frame: Safety.Channels)
    ensures Base(CaptureFailsafe(m, frame)) == Base(m)
  {
    assert Base(CaptureFailsafe(m, frame)).outputs == Base(m).outputs;
  }

  lemma ValuesBase(edited: Model, runtime: Model)
    ensures Base(WithValues(edited, runtime)) == Base(edited)
  {
    assert Base(WithValues(edited, runtime)).modes == Base(edited).modes;
    assert Base(WithValues(edited, runtime)).outputs == Base(edited).outputs;
  }

  lemma ChosenBase(m: Model, band: byte, channel: byte)
    ensures Base(Chosen(m, band, channel)) == Base(m)
  {
  }

  /** Whether an edit is accepted, and what it does, depends on what only the screens change. */
  lemma ApplyBase(a: Model, b: Model, e: Edit)
    requires HeadOk(a.head) && Base(a) == Base(b)
    ensures a.head == b.head && Apply(a, e).Accepted? == Apply(b, e).Accepted?
    ensures Apply(a, e).Accepted? ==> Base(Apply(a, e).model) == Base(Apply(b, e).model)
  {
    SameParts(a, b);
    hide Base, EditHead, EditLine, EditOutput, EditPoint;
    HeadBase(a, b, e);
    LineBase(a, b, e);
    OutputBase(a, b, e);
    PointBase(a, b, e);
  }

  /** Two models with the same base, part by part. */
  predicate Alike(a: Model, b: Model) {
    && b == a.(modes := b.modes, outputs := b.outputs, video := b.video)
    && a.video.overlay == b.video.overlay && a.video.rfLock == b.video.rfLock
    && (forall i :: 0 <= i < 5 ==> b.modes[i] == a.modes[i].(trims := b.modes[i].trims))
    && (forall i :: 0 <= i < 16 ==> b.outputs[i] == a.outputs[i].(failsafe := b.outputs[i].failsafe))
  }

  lemma SameParts(a: Model, b: Model)
    ensures Base(a) == Base(b) <==> Alike(a, b)
  {
    if Base(a) == Base(b) {
      assert Base(a).head == Base(b).head && Base(a).video == Base(b).video;
      forall i | 0 <= i < 5 ensures b.modes[i] == a.modes[i].(trims := b.modes[i].trims) {
        assert Base(a).modes[i] == Base(b).modes[i];
      }
      forall i | 0 <= i < 16 ensures b.outputs[i] == a.outputs[i].(failsafe := b.outputs[i].failsafe) {
        assert Base(a).outputs[i] == Base(b).outputs[i];
      }
    }
    if Alike(a, b) {
      assert Base(a).modes == Base(b).modes;
      assert Base(a).outputs == Base(b).outputs;
    }
  }

  lemma HeadBase(a: Model, b: Model, e: Edit)
    requires Alike(a, b)
    ensures EditHead(a, e).Accepted? == EditHead(b, e).Accepted?
    ensures EditHead(a, e).Accepted? ==> Base(EditHead(a, e).model) == Base(EditHead(b, e).model)
  {
    hide Base;
    if EditHead(a, e).Accepted? {
      SameParts(EditHead(a, e).model, EditHead(b, e).model);
    }
  }

  lemma LineBase(a: Model, b: Model, e: Edit)
    requires HeadOk(a.head) && Alike(a, b)
    ensures EditLine(a, e).Accepted? == EditLine(b, e).Accepted?
    ensures EditLine(a, e).Accepted? ==> Base(EditLine(a, e).model) == Base(EditLine(b, e).model)
  {
    LineElsewhere(a, b, e);
    hide Base, EditLine;
    if EditLine(a, e).Accepted? {
      SameParts(EditLine(a, e).model, EditLine(b, e).model);
    }
  }

  /** Such an edit neither sees nor touches modes, outputs and video. */
  lemma LineElsewhere(a: Model, b: Model, e: Edit)
    requires HeadOk(a.head) && b == a.(modes := b.modes, outputs := b.outputs, video := b.video)
    ensures EditLine(a, e).Accepted? == EditLine(b, e).Accepted?
    ensures EditLine(a, e).Accepted? ==>
              var m, n := EditLine(a, e).model, EditLine(b, e).model;
              && n == m.(modes := n.modes, outputs := n.outputs, video := n.video)
              && m.modes == a.modes && m.outputs == a.outputs && m.video == a.video
              && n.modes == b.modes && n.outputs == b.outputs && n.video == b.video
  {
    if EditLine(a, e).Accepted? {
      var m := EditLine(a, e).model;
      assert m == a.(inputs := m.inputs, mixes := m.mixes, logicals := m.logicals, timers := m.timers,
                     specials := m.specials);
      assert EditLine(b, e) == Accepted(m.(modes := b.modes, outputs := b.outputs, video := b.video));
    }
  }

  lemma OutputBase(a: Model, b: Model, e: Edit)
    requires Alike(a, b)
    ensures EditOutput(a, e).Accepted? == EditOutput(b, e).Accepted?
    ensures EditOutput(a, e).Accepted? ==> Base(EditOutput(a, e).model) == Base(EditOutput(b, e).model)
  {
    hide Base;
    if EditOutput(a, e).Accepted? {
      SameParts(EditOutput(a, e).model, EditOutput(b, e).model);
    }
  }

  lemma PointBase(a: Model, b: Model, e: Edit)
    requires HeadOk(a.head) && Alike(a, b)
    ensures EditPoint(a, e).Accepted? == EditPoint(b, e).Accepted?
    ensures EditPoint(a, e).Accepted? ==> Base(EditPoint(a, e).model) == Base(EditPoint(b, e).model)
  {
    hide Base;
    if EditPoint(a, e).Accepted? {
      SameParts(EditPoint(a, e).model, EditPoint(b, e).model);
    }
  }

  // ---------------------------------------------------------------- the copies agree

  predicate SameLabel(a: Copy, b: Copy) {
    a.slot == b.slot && a.generation == b.generation
  }

  /** Copies with the same label hold the same model, but for trims, failsafe values and the video channel. */
  predicate Agreed(a: Copy, b: Copy) {
    SameLabel(a, b) ==> Base(a.model) == Base(b.model)
  }

  /** The copy the control task has, or is about to have. */
  function Next(r: Radio): Copy {
    if r.state == 1 then r.pending else r.running
  }

  predicate Consistent(r: Radio) {
    && r.state <= 2
    && SameLabel(Next(r), r.editing)
    && (!r.needed || r.state != 0 ==> Base(r.editing.model) == Base(Next(r).model))
    && Agreed(r.running, Next(r))
    && (r.due ==> Agreed(r.offered, r.running) && Agreed(r.offered, Next(r)))
    && (r.merged && r.state == 0 && r.due && r.offered.slot == r.editing.slot ==> SameLabel(r.offered, r.editing))
  }

  /** A file agrees with the copies on their way from the control task. */
  predicate Fits(r: Radio, file: Copy) {
    Agreed(r.running, file) && (r.due ==> Agreed(r.offered, file))
  }

  /** Edits on the screens come while no activation is under way, and a file that is selected holds no other
      model under the label of a copy in use: `LateEditLost`, `RestoreLost` and `OfferOverSelection` say exactly
      what happens otherwise. */
  predicate Calm(r: Radio, e: Event) {
    && (e.Screen? ==> r.state == 0)
    && (e.Select? && r.state == 0 && ModelCodec.DecodeFile(e.file).Accepted? ==>
          var found := ModelCodec.DecodeFile(e.file);
          Fits(r, Copy(found.model, e.slot, found.generation)))
  }

  /** What a step does to an edited model: edits change it, a selection replaces it, and nothing else. */
  function EditedBy(r: Radio, m: Model, e: Event): (m': Model)
    requires HeadOk(m.head)
    ensures HeadOk(m'.head)
  {
    if e.Screen? then
      EditKeepsHead(m, e.e);
      if Apply(m, e.e).Accepted? then Apply(m, e.e).model else m
    else if e.Select? && r.state == 0 && ModelCodec.DecodeFile(e.file).Accepted? then
      FileIsFine(e.file);
      ModelCodec.DecodeFile(e.file).model
    else m
  }

  lemma EditKeepsHead(m: Model, e: Edit)
    requires HeadOk(m.head)
    ensures Apply(m, e).Accepted? ==> HeadOk(Apply(m, e).model.head)
  {
  }

  lemma ControlConsistent(r: Radio, e: Event)
    requires Inv(r) && Possible(r, e) && Consistent(r)
    requires e.MixFrame? || e.TrimTick? || e.TrimInstantly? || e.Capture? || e.Adopt?
    ensures Consistent(Step(r, e)) && Step(r, e).editing == r.editing
  {
    hide Inv, Base, TrimModel, TrimNext, InstantTrim, CaptureFailsafe, Mixer.Evaluate;
    var m, mode := r.running.model, r.mixer.previousMode;
    match e
    case TrimTick(inputs, at) => TrimBase(m, r.trims, mode, inputs, at);
    case TrimInstantly(axes) =>
      ModeInRange(r);
      InstantBase(m, mode, axes);
    case Capture => CaptureBase(m, r.mixer.previous);
    case _ =>
  }

  lemma ModeInRange(r: Radio)
    requires Inv(r)
    ensures r.mixer.previousMode < MAX_FLIGHT_MODES
  {
  }

  lemma UiConsistent(r: Radio, e: Event)
    requires Inv(r) && Possible(r, e) && Consistent(r) && Calm(r, e)
    requires !e.MixFrame? && !e.TrimTick? && !e.TrimInstantly? && !e.Capture? && !e.Adopt?
    ensures Consistent(Step(r, e))
  {
    hide Inv, Base, Apply, WithValues, Chosen, ModelCodec.DecodeFile;
    match e
    case ChooseVideo(band, channel) => ChosenBase(r.editing.model, band, channel);
    case Merge(_) => ValuesBase(r.editing.model, r.offered.model);
    case _ =>
  }

  /** A step leaves the edited model as the edits alone make it. */
  lemma StepKeepsEdits(r: Radio, m: Model, e: Event)
    requires Inv(r) && Possible(r, e) && Consistent(r) && Calm(r, e)
    requires HeadOk(m.head) && Base(m) == Base(r.editing.model)
    ensures Consistent(Step(r, e)) && Base(EditedBy(r, m, e)) == Base(Step(r, e).editing.model)
  {
    hide Inv, Base, Apply, WithValues, Chosen, ModelCodec.DecodeFile, Consistent, Calm;
    match e
    case Screen(edit) =>
      UiConsistent(r, e);
      ApplyBase(m, r.editing.model, edit);
    case ChooseVideo(band, channel) =>
      UiConsistent(r, e);
      ChosenBase(r.editing.model, band, channel);
    case Merge(_) =>
      UiConsistent(r, e);
      MergeKeepsEdits(r, e.saved);
    case Select(_, _, _) => UiConsistent(r, e);
    case Save => UiConsistent(r, e);
    case Conclude => UiConsistent(r, e);
    case _ =>
      ControlConsistent(r, e);
      hide Step;
  }

  lemma MergeKeepsEdits(r: Radio, saved: bool)
    requires Consistent(r)
    ensures Base(Merged(r, saved).editing.model) == Base(r.editing.model)
  {
    ValuesBase(r.editing.model, r.offered.model);
    hide Base, WithValues;
  }

  predicate AllCalm(r: Radio, es: seq<Event>)
    requires Inv(r) && AllPossible(r, es)
    decreases |es|
  {
    es != [] ==>
      Calm(r, es[0]) && (StepKeepsInv(r, es[0]); AllCalm(Step(r, es[0]), es[1..]))
  }

  /** The edited model as the edits and selections of a run alone make it. */
  function Edits(r: Radio, m: Model, es: seq<Event>): Model
    requires Inv(r) && AllPossible(r, es) && HeadOk(m.head)
    decreases |es|
  {
    if es == [] then m
    else
      StepKeepsInv(r, es[0]);
      Edits(Step(r, es[0]), EditedBy(r, m, es[0]), es[1..])
  }

  /** Edits survive: however trims, captures, merges, saves and activations interleave with them, the edited
      model is the one the edits alone make, but for trims, failsafe values and the video channel. */
  lemma {:induction false} EditsSurvive(r: Radio, m: Model, es: seq<Event>)
    requires Inv(r) && AllPossible(r, es) && Consistent(r) && AllCalm(r, es)
    requires HeadOk(m.head) && Base(m) == Base(r.editing.model)
    ensures Consistent(Run(r, es)) && Base(Run(r, es).editing.model) == Base(Edits(r, m, es))
    decreases |es|
  {
    hide Inv, Base, Consistent, Calm, EditedBy, Step;
    if es != [] {
      StepKeepsInv(r, es[0]);
      StepKeepsEdits(r, m, es[0]);
      EditsSurvive(Step(r, es[0]), EditedBy(r, m, es[0]), es[1..]);
    }
  }

  /** The radio after start-up: every copy is the loaded model. */
  predicate Booted(r: Radio) {
    && Inv(r) && r.running == r.editing && r.state == 0 && !r.due && !r.needed && !r.late
  }

  lemma BootedConsistent(r: Radio)
    requires Booted(r)
    ensures Consistent(r)
  {
    hide Base;
  }

  /** From any accepted file the radio starts with copies that agree and can all be saved. */
  lemma StartsBooted(file: seq<byte>, slot: nat)
    requires ModelCodec.DecodeFile(file).Accepted?
    ensures var found := ModelCodec.DecodeFile(file);
      Booted(Started(found.model, slot, found.generation)) && Consistent(Started(found.model, slot, found.generation))
  {
    FileIsFine(file);
    var found := ModelCodec.DecodeFile(file);
    hide ModelCodec.DecodeFile;
    ResetInv(found.model);
    hide Valid, Mixer.Inv, TrimsOk;
    BootedConsistent(Started(found.model, slot, found.generation));
  }

  // ---------------------------------------------------------------- what is lost

  /** A trim offers the model in use, under its label. */
  lemma TrimOffers(r: Radio, axes: AxisValues)
    requires Inv(r)
    ensures var q := Step(r, TrimInstantly(axes));
      && q.due && q.editing == r.editing && q.needed == r.needed && SameLabel(q.offered, r.running)
      && Base(q.offered.model) == Base(r.running.model) && q.offered.model.video == r.running.model.video
  {
    ModeInRange(r);
    InstantBase(r.running.model, r.mixer.previousMode, axes);
    hide Inv, Base;
  }

  /** The merge takes the base of the offered model, or keeps that of the edited one. */
  lemma MergeTakes(r: Radio, saved: bool)
    requires r.due
    ensures var q := Merged(r, saved).editing.model;
      && Base(q) == (if Replaces(r) then Base(r.offered.model) else Base(r.editing.model))
      && q.video == (if Replaces(r) then r.offered.model.video else r.editing.model.video)
  {
    ValuesBase(r.editing.model, r.offered.model);
    hide Base;
  }

  /** A trim, and the merge that follows it. */
  function TrimMerged(r: Radio, axes: AxisValues, saved: bool): Radio
    requires Inv(r)
  {
    Merged(Step(r, TrimInstantly(axes)), saved)
  }

  lemma TrimMergedBase(r: Radio, axes: AxisValues, saved: bool)
    requires Inv(r)
    ensures var q := TrimMerged(r, axes, saved).editing.model;
      var kept := if r.needed || !SameLabel(r.running, r.editing) then r.editing.model else r.running.model;
      Base(q) == Base(kept) && q.video == kept.video
  {
    hide Inv, Base, Merged;
    TrimOffers(r, axes);
    hide Step;
    MergeTakes(Step(r, TrimInstantly(axes)), saved);
  }

  /** Whether the edits want an activation once the one under way has ended. */
  predicate StillNeeded(r: Radio) {
    if r.state == 0 then r.needed else r.late
  }

  /** An edit accepted while an activation is under way is lost: once the activation has ended, the next
      trim or capture replaces the edited model by the one in use, which never saw the edit.  It stays exactly
      if it comes at another time, or changes nothing, or values of another generation have been merged in
      during the activation. */
  lemma LateEditLost(r: Radio, e: Edit, axes: AxisValues, saved: bool)
    requires Inv(r) && Consistent(r)
    ensures HeadOk(r.editing.model.head)
    ensures var edited := Screened(r, e);
      && Inv(Concluded(Adopted(edited)))
      && var merged := TrimMerged(Concluded(Adopted(edited)), axes, saved);
      Base(merged.editing.model) == Base(edited.editing.model) <==>
        r.state == 0 || r.late || Base(edited.editing.model) == Base(r.editing.model)
  {
    ValidParts(r.editing.model);
    hide Inv, Base, Step, Consistent, Adopted, Concluded, TrimMerged, Apply, Screened;
    ScreenedInv(r, e);
    EndedInv(Screened(r, e));
    EndingEdited(r, e);
    RejectedSame(r, e);
    TrimMergedBase(Concluded(Adopted(Screened(r, e))), axes, saved);
  }

  lemma RejectedSame(r: Radio, e: Edit)
    requires HeadOk(r.editing.model.head)
    ensures Apply(r.editing.model, e).Rejected? ==> Screened(r, e) == r
  {
    hide Apply;
  }

  lemma ScreenedInv(r: Radio, e: Edit)
    requires Inv(r) && HeadOk(r.editing.model.head)
    ensures Inv(Screened(r, e))
  {
    hide Inv;
    StepKeepsInv(r, Screen(e));
    hide Screened;
  }

  lemma EndedInv(r: Radio)
    requires Inv(r)
    ensures Inv(Concluded(Adopted(r)))
  {
    hide Inv;
    StepKeepsInv(r, Adopt);
    hide Adopted;
    StepKeepsInv(Adopted(r), Conclude);
    hide Concluded;
  }

  lemma EndingEdited(r: Radio, e: Edit)
    requires HeadOk(r.editing.model.head) && Consistent(r)
    ensures var edited := Screened(r, e);
      var q := Concluded(Adopted(edited));
      && q.editing == edited.editing && SameLabel(q.running, q.editing)
      && (r.state != 0 ==> q.needed == r.late && Base(q.running.model) == Base(r.editing.model))
      && (r.state == 0 && Apply(r.editing.model, e).Accepted? ==> q.needed)
      && (r.state == 0 && Apply(r.editing.model, e).Rejected? && !q.needed ==>
            Base(q.running.model) == Base(q.editing.model))
  {
    hide Base, Apply;
  }

  /** The radio after a channel was chosen, and, if asked for, saved. */
  function ChosenAt(r: Radio, band: byte, channel: byte, save: bool): Radio {
    var chosen := r.(editing := r.editing.(model := Chosen(r.editing.model, band, channel)));
    if save then Saved(chosen) else chosen
  }

  /** A video channel, chosen at any time and saved or not, is given back for the one in use by the next trim or
      capture after an activation under way has ended.  It stays exactly if an activation is wanted then, or it
      is the channel of the model then in use. */
  lemma VideoReverts(r: Radio, band: byte, channel: byte, save: bool, axes: AxisValues, saved: bool)
    requires Inv(r) && Consistent(r) && band < 6 && channel < 8
    ensures var ended := Concluded(Adopted(ChosenAt(r, band, channel, save)));
      && Inv(ended)
      && var video := TrimMerged(ended, axes, saved).editing.model.video;
      video.band == band && video.channel == channel <==>
        StillNeeded(r) || (Next(r).model.video.band == band && Next(r).model.video.channel == channel)
  {
    hide Inv, Base, TrimMerged, Consistent;
    ChosenInv(r, band, channel, save);
    EndedInv(ChosenAt(r, band, channel, save));
    EndingChosen(r, band, channel, save);
    hide ChosenAt, Adopted, Concluded, Next, StillNeeded;
    TrimMergedBase(Concluded(Adopted(ChosenAt(r, band, channel, save))), axes, saved);
  }

  lemma ChosenInv(r: Radio, band: byte, channel: byte, save: bool)
    requires Inv(r) && band < 6 && channel < 8
    ensures Inv(ChosenAt(r, band, channel, save))
  {
    hide Inv, Chosen, Saved;
    StepKeepsInv(r, ChooseVideo(band, channel));
    StepKeepsInv(ChosenAt(r, band, channel, false), Save);
  }

  /** What the next trim offers, and whether it replaces the edited model. */
  lemma EndingChosen(r: Radio, band: byte, channel: byte, save: bool)
    requires Consistent(r)
    ensures var q := Concluded(Adopted(ChosenAt(r, band, channel, save)));
      && SameLabel(q.running, q.editing)
      && q.editing.model.video.band == band && q.editing.model.video.channel == channel
      && (StillNeeded(r) ==>
            q.needed || (q.running.model.video.band == band && q.running.model.video.channel == channel))
      && (!StillNeeded(r) ==> !q.needed && q.running.model == Next(r).model)
  {
    hide Base;
  }

  /** The model a file holds, and the trim, merge and next save after it was selected. */
  function SavedAfter(r: Radio, axes: AxisValues, first: bool, second: bool): Radio
    requires Inv(r)
  {
    Saved(Merged(Concluded(Adopted(TrimMerged(r, axes, first))), second))
  }

  /** A model selected, or read again after a backup was restored over its file, is lost if a trim comes before
      the control task has adopted it: the model still in use is merged over it, and the next save writes that
      over the file.  It stays exactly if the slot or the generation is another one, edits want an activation
      during a restore, or the file holds the model in use. */
  lemma RestoreLost(r: Radio, file: seq<byte>, slot: nat, restored: bool, axes: AxisValues, first: bool,
                    second: bool)
    requires Inv(r) && r.state == 0 && ModelCodec.DecodeFile(file).Accepted?
    ensures var found := ModelCodec.DecodeFile(file);
      var q := Selected(r, file, slot, restored);
      && Inv(q)
      && var written := SavedAfter(q, axes, first, second);
      && written.editing.slot == slot && written.editing.generation == found.generation + 1
      && (Base(written.editing.model) == Base(found.model) <==>
            || slot != r.running.slot || found.generation != r.running.generation || (restored && r.needed)
            || Base(found.model) == Base(r.running.model))
  {
    hide Inv, Base, ModelCodec.DecodeFile;
    StepKeepsInv(r, Select(file, slot, restored));
    var q := Selected(r, file, slot, restored);
    TrimMergedBase(q, axes, first);
    TrimMergedHands(q, axes, first);
    hide TrimMerged, Step;
    SavesMerged(TrimMerged(q, axes, first), second);
    hide Saved, Merged, Adopted, Concluded;
  }

  /** The same of a copy offered before the selection: merged after it, that copy replaces the selected model
      under the corresponding condition. */
  lemma OfferOverSelection(r: Radio, file: seq<byte>, slot: nat, restored: bool, saved: bool)
    requires Inv(r) && r.state == 0 && r.due && ModelCodec.DecodeFile(file).Accepted?
    ensures var found := ModelCodec.DecodeFile(file);
      Base(Merged(Selected(r, file, slot, restored), saved).editing.model) == Base(found.model) <==>
        || slot != r.offered.slot || found.generation != r.offered.generation || (restored && r.needed)
        || Base(found.model) == Base(r.offered.model)
  {
    hide Inv, Base, ModelCodec.DecodeFile;
    MergeTakes(Selected(r, file, slot, restored), saved);
    hide Merged;
  }

  lemma TrimMergedHands(r: Radio, axes: AxisValues, saved: bool)
    requires Inv(r)
    ensures var q := TrimMerged(r, axes, saved);
      && q.state == r.state && q.pending == r.pending && SameLabel(q.editing, r.editing)
      && (q.due ==> q.offered.slot != q.editing.slot)
  {
    hide Inv, WithValues;
  }

  /** The save after an activation writes what was merged during it. */
  lemma SavesMerged(r: Radio, saved: bool)
    requires r.state == 1 && (r.due ==> r.offered.slot != r.editing.slot)
    ensures Saved(Merged(Concluded(Adopted(r)), saved)).editing
            == r.editing.(generation := r.editing.generation + 1)
  {
  }
}
