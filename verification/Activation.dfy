/** Handing a new model from the user-interface task to the control task.  The two tasks and the other
    users of maintenance mode interleave; every locked call and every atomic load or store is one step.
    A step that its task is not ready for leaves the world as it is. */
module Activation {
  import opened Bits
  import opened Model
  import opened Safety

  /** What travels in `pending_model_activation` and the two fields beside it. */
  datatype Candidate = Candidate(model: Model, slot: nat, generation: nat)

  /** Where the control task stands in its cycle. */
  datatype Control =
    | Loading                       // about to load the activation state
    | Copying | Locking(taken: Candidate) | Adopting(taken: Candidate) | Reporting
    | Chord | Acting(enabled: bool)
    | Mixing                        // trims, actions, reports, then the gate
    | Sending(frame: Frame)

  /** Where the user-interface task stands in a hand-off. */
  datatype Handoff = Idle | Begun | Published | Seen | Stored

  datatype World = World(
    safety: Manager, control: Control, model: Model, state: nat, pending: Candidate,
    ui: Handoff, awaiting: bool, others: bool,
    published: seq<Candidate>, adopted: seq<Candidate>, foreignLock: bool, leaked: nat)

  datatype Event =
    | SimulatorLock | Load | Copy | LockForModel | Adopt | StoreTwo
    | ReadChord(fire: bool) | ActOnChord | Tweak(model: Model) | Report(e: Safety.Event)
    | GateFrame(inputs: Controls, proposed: Frame, now: nat) | Send
    | UiBegin | UiAbandon | UiPublish(candidate: Candidate) | UiStoreOne | UiLoad | UiStoreZero | UiEnd
    | OtherBegin | OtherEnd | ForeignLock | AskEnable

  /** The reports of the control task. */
  predicate IsReport(e: Safety.Event) {
    e.Battery? || e.BatteryFault? || e.WatchdogFault? || e.ModuleReport? || e.MixerDuration?
  }

  /** What trims, instant trims and a captured failsafe change: values inside flight modes and outputs. */
  predicate Tweaked(a: Model, b: Model) {
    b == a.(modes := b.modes, outputs := b.outputs)
  }

  /** Models come from the store and the editor, so their indices are in range; the mixer marks its
      frames as not safe. */
  predicate EventOk(e: Event) {
    && (e.UiPublish? ==> Indexed(e.candidate.model))
    && (e.GateFrame? ==> !e.proposed.safe)
  }

  function Call(w: World, e: Event): GateCall
    requires e.GateFrame?
  {
    GateCall(w.model, e.inputs, e.proposed, e.now)
  }

  function AfterLock(c: Config, w: World): World {
    w.(safety := Safety.Step(c, w.safety, RequestLock))
  }

  function AfterBegin(c: Config, w: World): World {
    w.(safety := Safety.Step(c, w.safety, BeginMaintenance), leaked := 0)
  }

  function AfterEnd(c: Config, w: World): World {
    w.(safety := Safety.Step(c, w.safety, EndMaintenance))
  }

  // ---------------------------------------------------------------- the control task

  /** Adopted models have their indices in range, as `ActivationLaws.LogOk` shows, so that the guard of the
      gate never stops a frame. */
  function ControlStep(c: Config, w: World, e: Event): World
    requires EventOk(e)
  {
    match w.control
    case Loading =>
      if e.SimulatorLock? then AfterLock(c, w)
      else if e.Load? then w.(control := if w.state == 1 then Copying else Chord)
      else w
    case Copying => if e.Copy? then w.(control := Locking(w.pending)) else w
    case Locking(taken) => if e.LockForModel? then AfterLock(c, w).(control := Adopting(taken)) else w
    case Adopting(taken) =>
      if e.Adopt? then w.(model := taken.model, adopted := w.adopted + [taken], control := Reporting) else w
    case Reporting => if e.StoreTwo? then w.(state := 2, control := Chord) else w
    case Chord =>
      if e.ReadChord? then w.(control := if e.fire then Acting(w.safety.status.state.Enabled?) else Mixing) else w
    case Acting(enabled) =>
      if e.ActOnChord? then
        w.(safety := Safety.Step(c, w.safety, if enabled then RequestLock else RequestEnable), control := Mixing)
      else w
    case Mixing =>
      if e.Tweak? && Tweaked(w.model, e.model) then w.(model := e.model)
      else if e.Report? && IsReport(e.e) then w.(safety := Safety.Step(c, w.safety, e.e))
      else if e.GateFrame? && Indexed(w.model) then
        w.(safety := Gate(c, w.safety, Call(w, e)), control := Sending(Gated(c, w.safety, Call(w, e))),
           foreignLock := false)
      else w
    case Sending(frame) =>
      if e.Send? then
        w.(control := Loading, leaked := w.leaked + (if w.safety.maintenance && !frame.safe then 1 else 0))
      else w
  }

  // ---------------------------------------------------------------- the user-interface task

  function UiStep(c: Config, w: World, e: Event): World {
    match w.ui
    case Idle =>
      if e.UiBegin? && MaintenanceFree(w.safety) then AfterBegin(c, w).(ui := Begun)
      else if e.UiLoad? && w.awaiting && w.state == 2 then w.(ui := Seen)
      else w
    case Begun =>
      if e.UiAbandon? then AfterEnd(c, w).(ui := Idle)
      else if e.UiPublish? then w.(pending := e.candidate, ui := Published)
      else w
    case Published =>
      if e.UiStoreOne? then w.(state := 1, awaiting := true, published := w.published + [w.pending], ui := Idle) else w
    case Seen => if e.UiStoreZero? then w.(state := 0, ui := Stored) else w
    case Stored => if e.UiEnd? then AfterEnd(c, w).(awaiting := false, ui := Idle) else w
  }

  // ---------------------------------------------------------------- everything else

  function OtherStep(c: Config, w: World, e: Event): World {
    match e
    case OtherBegin => if MaintenanceFree(w.safety) then AfterBegin(c, w).(others := true) else w
    case OtherEnd => if w.others then AfterEnd(c, w).(others := false) else w
    case ForeignLock => AfterLock(c, w).(foreignLock := true)
    case AskEnable => w.(safety := Safety.Step(c, w.safety, RequestEnable))
    case _ => w
  }

  predicate IsControl(e: Event) {
    || e.SimulatorLock? || e.Load? || e.Copy? || e.LockForModel? || e.Adopt? || e.StoreTwo? || e.ReadChord?
    || e.ActOnChord? || e.Tweak? || e.Report? || e.GateFrame? || e.Send?
  }

  predicate IsUi(e: Event) {
    e.UiBegin? || e.UiAbandon? || e.UiPublish? || e.UiStoreOne? || e.UiLoad? || e.UiStoreZero? || e.UiEnd?
  }

  function Step(c: Config, w: World, e: Event): World
    requires EventOk(e)
  {
    if IsControl(e) then ControlStep(c, w, e) else if IsUi(e) then UiStep(c, w, e) else OtherStep(c, w, e)
  }
}
