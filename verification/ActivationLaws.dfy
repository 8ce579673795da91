/** Under every interleaving: maintenance and live output exclude each other, each published candidate is
    adopted exactly once and whole, and the model is never replaced while the outputs are enabled. */
module ActivationLaws {
  import opened Bits
  import opened Model
  import opened Safety
  import opened Activation
  import SafetyLaws

  // ---------------------------------------------------------------- the invariant

  /** The hand-off holds maintenance mode. */
  predicate UiHolds(w: World) {
    w.awaiting || w.ui.Begun? || w.ui.Published?
  }

  /** Maintenance mode has exactly one holder. */
  predicate HolderOk(w: World) {
    && (w.safety.maintenance <==> UiHolds(w) || w.others)
    && !(UiHolds(w) && w.others)
    && (w.ui.Seen? || w.ui.Stored? ==> w.awaiting)
    && (w.ui.Begun? || w.ui.Published? ==> !w.awaiting)
  }

  /** The control task is between seeing the candidate and reporting it adopted. */
  predicate Taking(control: Control) {
    control.Copying? || control.Locking? || control.Adopting? || control.Reporting?
  }

  /** The atomic hand-off variable against the two program counters. */
  predicate VariableOk(w: World) {
    && w.state <= 2
    && (w.awaiting <==> w.state != 0 || w.ui.Stored?)
    && (w.state == 1 ==> w.ui.Idle?)
    && (w.state == 2 ==> w.ui.Idle? || w.ui.Seen?)
    && (w.ui.Stored? ==> w.state == 0)
    && (w.ui.Seen? ==> w.state == 2)
    && (Taking(w.control) ==> w.state == 1)
  }

  /** A candidate has been published and not yet adopted. */
  predicate InFlight(w: World) {
    w.state == 1 && !w.control.Reporting?
  }

  predicate LogOk(w: World) {
    && w.published == (if InFlight(w) then w.adopted + [w.pending] else w.adopted)
    && (w.control.Locking? || w.control.Adopting? ==> w.control.taken == w.pending)
    && Indexed(w.model) && Indexed(w.pending.model)
  }

  /** A live frame waits to be sent. */
  predicate LiveWaiting(w: World) {
    w.control.Sending? && !w.control.frame.safe
  }

  predicate FrameOk(w: World) {
    && (LiveWaiting(w) && !w.foreignLock ==> w.safety.status.state.Enabled?)
    && (LiveWaiting(w) && w.safety.maintenance ==> w.leaked == 0)
    && (LiveWaiting(w) && w.awaiting ==> w.state == 1)
    && (w.safety.maintenance ==> w.leaked <= 1)
  }

  predicate Inv(c: Config, w: World) {
    SafetyLaws.Inv(c, w.safety) && HolderOk(w) && VariableOk(w) && LogOk(w) && FrameOk(w)
  }

  // ---------------------------------------------------------------- every step keeps it

  lemma LockEffect(c: Config, s: Manager, e: Safety.Event)
    requires SafetyLaws.Inv(c, s) && !e.GateEvent? && !e.BootComplete?
    ensures var s' := Safety.Step(c, s, e);
      && SafetyLaws.Inv(c, s')
      && (e.RequestLock? ==> s'.maintenance == s.maintenance && !s'.status.state.Enabled?)
      && (IsReport(e) || e.RequestEnable? ==> s'.maintenance == s.maintenance)
      && (e.RequestEnable? ==> s'.status == s.status)
      && (e.BeginMaintenance? ==> s'.maintenance == (s.maintenance || MaintenanceFree(s)))
      && (e.EndMaintenance? ==> !s'.maintenance && s'.status == s.status)
  {
    SafetyLaws.StepKeepsInv(c, s, e);
    SafetyLaws.ReportDoes(c, s, e);
    hide SafetyLaws.Inv;
  }

  lemma GateKeeps(c: Config, s: Manager, call: GateCall)
    requires SafetyLaws.Inv(c, s) && Indexed(call.model) && !call.proposed.safe
    ensures SafetyLaws.Inv(c, Gate(c, s, call)) && Gate(c, s, call).maintenance == s.maintenance
    ensures !Gated(c, s, call).safe ==> Gate(c, s, call).status.state.Enabled? && !s.maintenance
  {
    SafetyLaws.StepKeepsInv(c, s, GateEvent(call));
    SafetyLaws.GateDoes(c, s, call);
    SafetyLaws.OtherwiseLocked(c, s, call);
    hide Gate, Gated, BaseOk, FullOk;
  }

  lemma ControlKeepsInv(c: Config, w: World, e: Activation.Event)
    requires Inv(c, w) && Activation.EventOk(e) && IsControl(e)
    ensures Inv(c, ControlStep(c, w, e))
  {
    hide ControlStep, SafetyLaws.Inv, HolderOk, VariableOk, FrameOk;
    if w.control.Mixing? {
      MixingKeepsInv(c, w, e);
    } else if w.control.Loading? || Taking(w.control) {
      TakingKeepsInv(c, w, e);
    } else {
      ChordKeepsInv(c, w, e);
    }
  }

  lemma ChordKeepsInv(c: Config, w: World, e: Activation.Event)
    requires Inv(c, w) && Activation.EventOk(e) && (w.control.Chord? || w.control.Acting? || w.control.Sending?)
    ensures Inv(c, ControlStep(c, w, e))
  {
    LockEffect(c, w.safety, RequestLock);
    LockEffect(c, w.safety, RequestEnable);
    hide SafetyLaws.Inv, Safety.Step, Gate, Gated, Tweaked;
  }

  lemma TakingKeepsInv(c: Config, w: World, e: Activation.Event)
    requires Inv(c, w) && Activation.EventOk(e) && (w.control.Loading? || Taking(w.control))
    ensures Inv(c, ControlStep(c, w, e))
  {
    hide SafetyLaws.Inv, Safety.Step, Gate, Gated, Tweaked;
    if w.control.Loading? || w.control.Locking? {
      LockingKeepsInv(c, w, e);
      hide Inv, ControlStep;
    }
  }

  lemma LockingKeepsInv(c: Config, w: World, e: Activation.Event)
    requires Inv(c, w) && Activation.EventOk(e) && (w.control.Loading? || w.control.Locking?)
    ensures Inv(c, ControlStep(c, w, e))
  {
    LockEffect(c, w.safety, RequestLock);
    hide SafetyLaws.Inv, Safety.Step, Gate, Gated, Tweaked, Indexed;
  }

  lemma MixingKeepsInv(c: Config, w: World, e: Activation.Event)
    requires Inv(c, w) && Activation.EventOk(e) && w.control.Mixing?
    ensures Inv(c, ControlStep(c, w, e))
  {
    hide SafetyLaws.Inv, Safety.Step, Gate, Gated;
    if e.Report? && IsReport(e.e) {
      LockEffect(c, w.safety, e.e);
    } else if e.GateFrame? {
      GateKeeps(c, w.safety, Call(w, e));
    }
  }

  lemma UiKeepsInv(c: Config, w: World, e: Activation.Event)
    requires Inv(c, w) && Activation.EventOk(e)
    ensures Inv(c, UiStep(c, w, e))
  {
    LockEffect(c, w.safety, BeginMaintenance);
    LockEffect(c, w.safety, EndMaintenance);
    BeginKeepsState(c, w.safety);
    hide SafetyLaws.Inv, Safety.Step, Indexed;
  }

  lemma BeginKeepsState(c: Config, s: Manager)
    ensures Safety.Step(c, s, BeginMaintenance).status == s.status
  {
  }

  lemma OtherKeepsInv(c: Config, w: World, e: Activation.Event)
    requires Inv(c, w)
    ensures Inv(c, OtherStep(c, w, e))
  {
    LockEffect(c, w.safety, BeginMaintenance);
    LockEffect(c, w.safety, EndMaintenance);
    LockEffect(c, w.safety, RequestLock);
    LockEffect(c, w.safety, RequestEnable);
    BeginKeepsState(c, w.safety);
    hide SafetyLaws.Inv, Safety.Step, Indexed;
  }

  lemma StepKeepsInv(c: Config, w: World, e: Activation.Event)
    requires Inv(c, w) && Activation.EventOk(e)
    ensures Inv(c, Activation.Step(c, w, e))
  {
    hide HolderOk, VariableOk, FrameOk, SafetyLaws.Inv;
    if IsControl(e) {
      ControlKeepsInv(c, w, e);
    } else if IsUi(e) {
      UiKeepsInv(c, w, e);
    } else {
      OtherKeepsInv(c, w, e);
    }
  }

  // ---------------------------------------------------------------- runs

  /** The tasks start after boot, outside maintenance and not enabled. */
  predicate Start(c: Config, w: World) {
    && SafetyLaws.Inv(c, w.safety) && !w.safety.maintenance
    && w.control.Loading? && w.ui.Idle? && w.state == 0 && !w.awaiting && !w.others
    && w.published == [] && w.adopted == [] && Indexed(w.model) && Indexed(w.pending.model)
  }

  predicate EventsOk(es: seq<Activation.Event>)
    decreases |es|
  {
    es != [] ==> Activation.EventOk(es[|es| - 1]) && EventsOk(es[..|es| - 1])
  }

  function Run(c: Config, w: World, es: seq<Activation.Event>): World
    requires EventsOk(es)
    decreases |es|
  {
    if es == [] then w else Activation.Step(c, Run(c, w, es[..|es| - 1]), es[|es| - 1])
  }

  lemma {:induction false} RunKeepsInv(c: Config, w: World, es: seq<Activation.Event>)
    requires Inv(c, w) && EventsOk(es)
    ensures Inv(c, Run(c, w, es))
    decreases |es|
  {
    hide Inv, Activation.Step;
    if es != [] {
      RunKeepsInv(c, w, es[..|es| - 1]);
      StepKeepsInv(c, Run(c, w, es[..|es| - 1]), es[|es| - 1]);
    }
  }

  lemma StartInv(c: Config, w: World)
    requires Start(c, w)
    ensures Inv(c, w)
  {
    hide SafetyLaws.Inv;
  }

  /** Maintenance implies not enabled and no outstanding request, in every reachable state. */
  lemma MaintenanceIsQuiet(c: Config, w: World, es: seq<Activation.Event>)
    requires Start(c, w) && EventsOk(es)
    ensures var r := Run(c, w, es);
      r.safety.maintenance ==> !r.safety.status.state.Enabled? && !r.safety.requested
  {
    StartInv(c, w);
    RunKeepsInv(c, w, es);
    hide Run;
  }

  /** At most one candidate is in flight, and what the control task has adopted is what was published, each
      candidate once, whole and in order. */
  lemma AdoptedAsPublished(c: Config, w: World, es: seq<Activation.Event>)
    requires Start(c, w) && EventsOk(es)
    ensures var r := Run(c, w, es);
      && r.adopted <= r.published && |r.published| <= |r.adopted| + 1
      && (!r.awaiting ==> r.adopted == r.published)
  {
    StartInv(c, w);
    RunKeepsInv(c, w, es);
    hide Run, SafetyLaws.Inv, FrameOk, HolderOk;
  }

  /** The model is replaced only by adoption, of the candidate published last, in maintenance and not
      enabled; while enabled only trims and failsafe values change. */
  lemma NeverReplacedWhileEnabled(c: Config, w: World, e: Activation.Event)
    requires Inv(c, w) && Activation.EventOk(e)
    ensures var r := Activation.Step(c, w, e);
      && (!Tweaked(w.model, r.model) || r.adopted != w.adopted ==>
            && w.safety.maintenance && !w.safety.status.state.Enabled? && !r.safety.status.state.Enabled?
            && w.published != [] && r.model == w.published[|w.published| - 1].model && r.adopted == w.published)
  {
    AdoptOnly(c, w, e);
    hide Activation.Step, FrameOk, Tweaked;
  }

  lemma AdoptOnly(c: Config, w: World, e: Activation.Event)
    requires Activation.EventOk(e)
    ensures var r := Activation.Step(c, w, e);
      || (Tweaked(w.model, r.model) && r.adopted == w.adopted)
      || (e.Adopt? && w.control.Adopting? && r.model == w.control.taken.model
          && r.adopted == w.adopted + [w.control.taken] && r.safety == w.safety)
  {
    assert Tweaked(w.model, w.model);
    hide Tweaked;
    if IsControl(e) {
      ControlAdoptsOnly(c, w, e);
      hide ControlStep;
    } else {
      OthersKeepModel(c, w, e);
      hide Activation.Step;
    }
  }

  lemma ControlAdoptsOnly(c: Config, w: World, e: Activation.Event)
    requires Activation.EventOk(e)
    ensures var r := ControlStep(c, w, e);
      || (r.model == w.model && r.adopted == w.adopted)
      || (Tweaked(w.model, r.model) && r.adopted == w.adopted)
      || (e.Adopt? && w.control.Adopting? && r.model == w.control.taken.model
          && r.adopted == w.adopted + [w.control.taken] && r.safety == w.safety)
  {
    hide Safety.Step, Gate, Gated, Indexed, Tweaked;
    if w.control.Mixing? {
      MixingAdoptsNothing(c, w, e);
      hide ControlStep;
    }
  }

  lemma MixingAdoptsNothing(c: Config, w: World, e: Activation.Event)
    requires Activation.EventOk(e) && w.control.Mixing?
    ensures var r := ControlStep(c, w, e);
      (r.model == w.model || Tweaked(w.model, r.model)) && r.adopted == w.adopted
  {
    hide Safety.Step, Gate, Gated, Indexed, Tweaked;
  }

  lemma OthersKeepModel(c: Config, w: World, e: Activation.Event)
    requires Activation.EventOk(e) && !IsControl(e)
    ensures Activation.Step(c, w, e).model == w.model && Activation.Step(c, w, e).adopted == w.adopted
  {
    hide Safety.Step, Gate, Gated, Indexed;
  }

  /** The gate passes no live frame in maintenance. */
  lemma GateClosedInMaintenance(c: Config, w: World, e: Activation.Event)
    requires Inv(c, w) && Activation.EventOk(e) && w.control.Mixing? && e.GateFrame? && w.safety.maintenance
    ensures !LiveWaiting(Activation.Step(c, w, e))
  {
    GateKeeps(c, w.safety, Call(w, e));
    hide Gate, Gated;
  }

  // ---------------------------------------------------------------- a frame gated before, sent within

  /** A frame that passed the gate just before can still be sent in maintenance.  It takes a lock by a
      task other than the control task between gate and send, it happens at most once in a maintenance
      period, and never once the candidate has been adopted. */
  lemma LeakIsBounded(c: Config, w: World)
    requires Inv(c, w)
    ensures w.safety.maintenance ==> w.leaked <= 1
    ensures LiveWaiting(w) && w.safety.maintenance ==> w.foreignLock && w.leaked == 0
    ensures LiveWaiting(w) && w.awaiting ==> InFlight(w) && !Taking(w.control)
  {
  }

  /** It does happen: from every state with a live frame waiting and nobody in maintenance, a foreign lock
      followed by the start of a hand-off lets the frame out in maintenance. */
  lemma LeakHappens(c: Config, w: World)
    requires Inv(c, w) && LiveWaiting(w) && !w.safety.maintenance && w.ui.Idle?
    ensures var locked := Activation.Step(c, w, ForeignLock);
      && var begun := Activation.Step(c, locked, UiBegin);
      && begun.ui.Begun? && begun.safety.maintenance && Activation.Step(c, begun, Send).leaked == 1
  {
    hide Indexed;
  }

  /** Steps of the other tasks, none of them a lock. */
  predicate NoLock(es: seq<Activation.Event>)
    decreases |es|
  {
    es != [] ==> !IsControl(es[|es| - 1]) && !es[|es| - 1].ForeignLock? && NoLock(es[..|es| - 1])
  }

  /** Whatever the other tasks do between gate and send, as long as none of them calls for a lock the waiting
      frame is sent outside maintenance. */
  lemma {:induction false} NoLockNoLeak(c: Config, w: World, es: seq<Activation.Event>)
    requires Inv(c, w) && EventsOk(es) && LiveWaiting(w) && !w.foreignLock && NoLock(es)
    ensures LiveWaiting(Run(c, w, es)) && !Run(c, w, es).foreignLock && !Run(c, w, es).safety.maintenance
    decreases |es|
  {
    hide Inv, Activation.Step;
    if es == [] {
      LeakIsBounded(c, w);
    } else {
      var front, e := es[..|es| - 1], es[|es| - 1];
      NoLockNoLeak(c, w, front);
      RunKeepsInv(c, w, front);
      StepKeepsInv(c, Run(c, w, front), e);
      OthersKeepFrame(c, Run(c, w, front), e);
      LeakIsBounded(c, Run(c, w, es));
    }
  }

  lemma OthersKeepFrame(c: Config, w: World, e: Activation.Event)
    requires Activation.EventOk(e) && !IsControl(e) && !e.ForeignLock?
    ensures Activation.Step(c, w, e).control == w.control && Activation.Step(c, w, e).foreignLock == w.foreignLock
  {
  }

  /** What the other tasks have made of maintenance mode between gate and send: nobody can begin it, somebody
      could, a hand-off has begun or published, another user has begun. */
  datatype Grip = Shut | Free | Begun | Given | Other

  function Grasped(grip: Grip, e: Activation.Event): Grip {
    match grip
    case Shut => if e.ForeignLock? then Free else Shut
    case Free => if e.UiBegin? then Grip.Begun else if e.OtherBegin? then Other else Free
    case Begun => if e.UiAbandon? then Free else if e.UiPublish? then Given else Grip.Begun
    case Given => Given
    case Other => if e.OtherEnd? then Free else Other
  }

  /** A lock followed by a begin that has not ended, read off the calls alone. */
  function GripOf(es: seq<Activation.Event>): Grip
    decreases |es|
  {
    if es == [] then Shut else Grasped(GripOf(es[..|es| - 1]), es[|es| - 1])
  }

  predicate InMaintenance(grip: Grip) {
    grip.Begun? || grip.Given? || grip.Other?
  }

  /** Steps of the other tasks. */
  predicate NoControl(es: seq<Activation.Event>)
    decreases |es|
  {
    es != [] ==> !IsControl(es[|es| - 1]) && NoControl(es[..|es| - 1])
  }

  /** The world is in the grip. */
  predicate Gripped(w: World, grip: Grip) {
    && LiveWaiting(w) && (w.safety.status.state.Enabled? <==> grip.Shut?)
    && (w.safety.maintenance <==> InMaintenance(grip)) && (w.others <==> grip.Other?)
    && match grip
       case Begun => w.ui.Begun?
       case Given => w.ui.Published? || (w.ui.Idle? && w.awaiting && w.state == 1)
       case _ => w.ui.Idle? && !w.awaiting
  }

  lemma GripHolds(c: Config, w: World, grip: Grip, e: Activation.Event)
    requires Inv(c, w) && Activation.EventOk(e) && Gripped(w, grip) && !IsControl(e)
    ensures Gripped(Activation.Step(c, w, e), Grasped(grip, e))
  {
    LockEffect(c, w.safety, RequestLock);
    LockEffect(c, w.safety, RequestEnable);
    LockEffect(c, w.safety, BeginMaintenance);
    LockEffect(c, w.safety, EndMaintenance);
    BeginKeepsState(c, w.safety);
    hide SafetyLaws.Inv, Safety.Step, Indexed, FrameOk, LogOk, ControlStep;
    if IsUi(e) {
      hide OtherStep;
    } else {
      hide UiStep;
    }
  }

  /** The exact condition: the waiting frame leaks if and only if, between gate and send, another task's lock
      was followed by the beginning of a hand-off or of another use of maintenance that has not ended. */
  lemma {:induction false} LeakExactly(c: Config, w: World, es: seq<Activation.Event>)
    requires Inv(c, w) && EventsOk(es) && LiveWaiting(w) && !w.foreignLock && NoControl(es)
    ensures var r := Run(c, w, es);
      && Gripped(r, GripOf(es))
      && Activation.Step(c, r, Send).leaked == r.leaked + (if InMaintenance(GripOf(es)) then 1 else 0)
    decreases |es|
  {
    hide Inv, Activation.Step, Gripped, Grasped;
    if es == [] {
      GatedGrip(c, w);
    } else {
      var front, e := es[..|es| - 1], es[|es| - 1];
      LeakExactly(c, w, front);
      RunKeepsInv(c, w, front);
      GripHolds(c, Run(c, w, front), GripOf(front), e);
    }
    SendLeaks(c, Run(c, w, es), GripOf(es));
  }

  lemma GatedGrip(c: Config, w: World)
    requires Inv(c, w) && LiveWaiting(w) && !w.foreignLock
    ensures Gripped(w, Shut)
  {
  }

  lemma SendLeaks(c: Config, w: World, grip: Grip)
    requires Gripped(w, grip)
    ensures Activation.Step(c, w, Send).leaked == w.leaked + (if InMaintenance(grip) then 1 else 0)
  {
  }

  // ---------------------------------------------------------------- the hand-off ends

  lemma Takes(c: Config, w: World)
    requires w.state == 1 && w.control.Loading?
    ensures Activation.Step(c, w, Load) == w.(control := Copying)
    ensures Activation.Step(c, w.(control := Copying), Copy) == w.(control := Locking(w.pending))
    ensures Activation.Step(c, w.(control := Locking(w.pending)), LockForModel)
            == AfterLock(c, w).(control := Adopting(w.pending))
    ensures Activation.Step(c, AfterLock(c, w).(control := Adopting(w.pending)), Adopt)
            == AfterLock(c, w).(model := w.pending.model, adopted := w.adopted + [w.pending], control := Reporting)
    ensures Activation.Step(
              c, AfterLock(c, w).(model := w.pending.model, adopted := w.adopted + [w.pending], control := Reporting),
              StoreTwo) == Taken(c, w)
  {
    hide Safety.Step;
  }

  /** After the control task's five steps. */
  function Taken(c: Config, w: World): World {
    AfterLock(c, w).(model := w.pending.model, adopted := w.adopted + [w.pending], state := 2, control := Chord)
  }

  lemma Concludes(c: Config, w: World)
    requires w.state == 2 && w.awaiting && w.ui.Idle?
    ensures Activation.Step(c, w, UiLoad) == w.(ui := Seen)
    ensures Activation.Step(c, w.(ui := Seen), UiStoreZero) == w.(state := 0, ui := Stored)
    ensures Activation.Step(c, w.(state := 0, ui := Stored), UiEnd)
            == AfterEnd(c, w).(state := 0, awaiting := false, ui := Idle)
  {
    hide Safety.Step;
  }

  /** Undisturbed, the two tasks need eight steps. */
  lemma HandoffUndisturbed(c: Config, w: World)
    requires Inv(c, w) && w.state == 1 && w.control.Loading?
    ensures
      var locked := Activation.Step(c, Activation.Step(c, Activation.Step(c, w, Load), Copy), LockForModel);
      var taken := Activation.Step(c, Activation.Step(c, locked, Adopt), StoreTwo);
      var r := Activation.Step(c, Activation.Step(c, Activation.Step(c, taken, UiLoad), UiStoreZero), UiEnd);
      r.adopted == w.published && r.model == w.pending.model && !r.safety.maintenance && !r.awaiting && r.state == 0
  {
    Takes(c, w);
    Concludes(c, Taken(c, w));
    assert w.published == w.adopted + [w.pending];
    hide Inv, Activation.Step;
  }

  /** How far a hand-off is from its end. */
  function Stage(w: World): nat {
    if !w.awaiting then 0
    else if w.ui.Stored? then 1
    else if w.state == 2 then if w.ui.Seen? then 2 else 3
    else
      match w.control
      case Reporting => 4
      case Adopting(_) => 5
      case Locking(_) => 6
      case Copying => 7
      case Loading => 8
      case Sending(_) => 9
      case Mixing => 10
      case Acting(_) => 11
      case Chord => 12
  }

  /** The step of the control task, or then of the user-interface task, that ends a stage. */
  predicate Ends(e: Activation.Event, stage: nat) {
    match stage
    case 12 => e.ReadChord?
    case 11 => e.ActOnChord?
    case 10 => e.GateFrame?
    case 9 => e.Send?
    case 8 => e.Load?
    case 7 => e.Copy?
    case 6 => e.LockForModel?
    case 5 => e.Adopt?
    case 4 => e.StoreTwo?
    case 3 => e.UiLoad?
    case 2 => e.UiStoreZero?
    case 1 => e.UiEnd?
    case _ => false
  }

  /** The stages for which the steps have not come yet, in their order and among any others. */
  function StagesLeft(es: seq<Activation.Event>, stage: nat): nat
    decreases |es|
  {
    if es == [] then stage
    else
      var left := StagesLeft(es[..|es| - 1], stage);
      if left > 0 && Ends(es[|es| - 1], left) then left - 1 else left
  }

  /** The model in use is the one adopted last, but for trims and failsafe values. */
  predicate Stems(w: World) {
    w.adopted != [] ==> Tweaked(w.adopted[|w.adopted| - 1].model, w.model)
  }

  lemma StepKeepsStems(c: Config, w: World, e: Activation.Event)
    requires Activation.EventOk(e) && Stems(w)
    ensures Stems(Activation.Step(c, w, e))
  {
    AdoptOnly(c, w, e);
    var r := Activation.Step(c, w, e);
    if w.adopted != [] && r.adopted == w.adopted {
      TweakedTwice(w.adopted[|w.adopted| - 1].model, w.model, r.model);
    }
    assert Tweaked(r.model, r.model);
    hide Tweaked, Activation.Step;
  }

  lemma TweakedTwice(a: Model, b: Model, d: Model)
    ensures Tweaked(a, b) && Tweaked(b, d) ==> Tweaked(a, d)
  {
  }

  lemma {:induction false} RunKeepsStems(c: Config, w: World, es: seq<Activation.Event>)
    requires Stems(w) && EventsOk(es)
    ensures Stems(Run(c, w, es))
    decreases |es|
  {
    hide Stems, Activation.Step;
    if es != [] {
      RunKeepsStems(c, w, es[..|es| - 1]);
      StepKeepsStems(c, Run(c, w, es[..|es| - 1]), es[|es| - 1]);
    }
  }

  /** A step does not lead away from the end of a hand-off, and the awaited one leads toward it. */
  predicate Falls(w: World, e: Activation.Event, r: World) {
    && r.published == w.published && Stage(r) <= Stage(w) && (Ends(e, Stage(w)) ==> Stage(r) < Stage(w))
    && (!r.awaiting ==> !r.safety.maintenance)
  }

  lemma StageFalls(c: Config, w: World, e: Activation.Event)
    requires Inv(c, w) && Activation.EventOk(e) && w.awaiting
    ensures Falls(w, e, Activation.Step(c, w, e))
  {
    hide Inv, Falls, ControlStep, UiStep, OtherStep;
    if IsUi(e) {
      UiFalls(c, w, e);
    } else if IsControl(e) {
      ControlFalls(c, w, e);
    } else {
      OtherFalls(c, w, e);
    }
  }

  lemma ControlFalls(c: Config, w: World, e: Activation.Event)
    requires Inv(c, w) && Activation.EventOk(e) && w.awaiting && IsControl(e)
    ensures Falls(w, e, ControlStep(c, w, e))
  {
    hide SafetyLaws.Inv, Safety.Step, Gate, Gated, Tweaked, FrameOk, Indexed;
    assert Indexed(w.model);
  }

  lemma OtherFalls(c: Config, w: World, e: Activation.Event)
    requires Inv(c, w) && Activation.EventOk(e) && w.awaiting && !IsControl(e) && !IsUi(e)
    ensures Falls(w, e, OtherStep(c, w, e))
  {
    hide SafetyLaws.Inv, Safety.Step, FrameOk, LogOk;
  }

  lemma UiFalls(c: Config, w: World, e: Activation.Event)
    requires Inv(c, w) && Activation.EventOk(e) && w.awaiting && IsUi(e)
    ensures Falls(w, e, UiStep(c, w, e))
  {
    hide SafetyLaws.Inv, LogOk, FrameOk;
  }

  /** The hand-off of `w` has ended in `r`. */
  predicate HandedOver(w: World, r: World) {
    && !r.awaiting && !r.safety.maintenance && r.state == 0
    && r.published == w.published == r.adopted && Stems(r)
  }

  /** It has ended after a part of the run. */
  predicate EndsWithin(c: Config, w: World, es: seq<Activation.Event>)
    requires EventsOk(es)
    decreases |es|
  {
    HandedOver(w, Run(c, w, es)) || (es != [] && EndsWithin(c, w, es[..|es| - 1]))
  }

  lemma {:induction false} StagesPass(c: Config, w: World, es: seq<Activation.Event>)
    requires Inv(c, w) && Stems(w) && EventsOk(es) && w.awaiting
    ensures
      || EndsWithin(c, w, es)
      || (var r := Run(c, w, es);
          r.awaiting && r.published == w.published && Stage(r) <= StagesLeft(es, Stage(w)))
    decreases |es|
  {
    hide Inv, Activation.Step, Stage, Ends, HandedOver;
    if es != [] {
      var front, e := es[..|es| - 1], es[|es| - 1];
      StagesPass(c, w, front);
      if !EndsWithin(c, w, front) {
        RunKeepsInv(c, w, front);
        StageFalls(c, Run(c, w, front), e);
        if !Run(c, w, es).awaiting {
          RunKeepsInv(c, w, es);
          RunKeepsStems(c, w, es);
          OverIfNotAwaiting(c, w, Run(c, w, es));
        }
      }
    }
  }

  lemma OverIfNotAwaiting(c: Config, w: World, r: World)
    requires Inv(c, r) && Stems(r) && !r.awaiting && !r.safety.maintenance && r.published == w.published
    ensures HandedOver(w, r)
  {
    hide SafetyLaws.Inv, FrameOk;
  }

  /** A published candidate is adopted and maintenance ends under every interleaving: whatever the others do
      and wherever the control task stands, once its own steps and then those of the user interface have
      come in their order. */
  lemma HandoffCompletes(c: Config, w: World, es: seq<Activation.Event>)
    requires Inv(c, w) && Stems(w) && w.awaiting && EventsOk(es) && StagesLeft(es, Stage(w)) == 0
    ensures EndsWithin(c, w, es)
  {
    StagesPass(c, w, es);
    if !EndsWithin(c, w, es) {
      StageZero(Run(c, w, es));
    }
    hide *;
  }

  lemma StageZero(w: World)
    requires Stage(w) == 0
    ensures !w.awaiting
  {
  }
}
