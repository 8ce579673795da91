/** The service that owns the memory card: debounced insertion, a fixed sequence of checks before anything
    is written, and a queue of requests carried out one per tick. */
module RemovableStorage {
  const QUEUE_DEPTH := 16
  const COMPLETION_DEPTH := 4
  const PATH_CAPACITY := 128
  const CHUNK_BYTES := 512
  const ROOT := "/OPENPOCKET/"

  datatype State =
    | Absent | Debouncing | Powering | Identifying | MountedReadOnly | Validating | Ready
    | Unsupported | Corrupt | IoFault

  datatype Operation = LogRecord | AudioRead | ModelExport | UpdateRead | DiagnosticWrite

  datatype Media = MediaOk | MediaUnsupported | MediaCorrupt | MediaError

  datatype Request = Request(operation: Operation, path: string, size: nat, token: nat, payload: seq<int>)

  datatype Completion = Completion(token: nat, data: seq<int>)

  /** A call to the card since it was inserted. */
  datatype Call =
    | PowerOn | Identify | MountReadOnly | Validate | Unmount | MountWritable | MakeDirectories
    | Execute(request: Request)

  /** How each accepted request ended. */
  datatype Outcome = Executed(request: Request) | Discarded(request: Request)

  datatype Config = Config(debounceUs: nat, settleUs: nat, cooldownUs: nat)

  datatype Service = Service(
    state: State, cardPresent: bool, powered: bool, mounted: bool, writable: bool,
    completed: nat, failed: nat, droppedLogs: nat, removals: nat,
    queue: seq<Request>, completions: seq<Completion>,
    raw: bool, debounced: bool, changedAt: nat, deadline: nat,
    calls: seq<Call>, accepted: seq<Request>, settled: seq<Outcome>)

  const NEW := Service(Absent, false, false, false, false, 0, 0, 0, 0, [], [], false, false, 0, 0, [], [], [])

  /** The card's answers to the calls of one tick. */
  datatype Reply = Reply(
    power: bool, identify: Media, mountReadOnly: Media, validate: Media, unmount: bool, mountWritable: Media,
    directories: bool, execute: bool, data: seq<int>)

  // ---------------------------------------------------------------- requests

  predicate HasPair(s: string, a: char, b: char) {
    exists i :: 0 <= i < |s| - 1 && s[i] == a && s[i + 1] == b
  }

  /** A path below the root that cannot leave it. */
  predicate ValidPath(path: string) {
    && |ROOT| <= |path| < PATH_CAPACITY && path[..|ROOT|] == ROOT
    && !HasPair(path, '.', '.') && !HasPair(path, '/', '/') && '\\' !in path && ':' !in path
    && forall i :: 0 <= i < |path| ==> path[i] >= ' ' && path[i] != '\U{7f}'
  }

  predicate WellFormed(request: Request) {
    ValidPath(request.path) && request.size <= CHUNK_BYTES && |request.payload| <= CHUNK_BYTES
  }

  predicate Admitted(s: Service, request: Request) {
    WellFormed(request) && s.state.Ready? && |s.queue| < QUEUE_DEPTH
  }

  function Enqueue(s: Service, request: Request): Service {
    if Admitted(s, request) then s.(queue := s.queue + [request], accepted := s.accepted + [request])
    else if WellFormed(request) && request.operation.LogRecord? then
      s.(droppedLogs := (s.droppedLogs + 1) % 0x1_0000_0000)
    else s
  }

  // ---------------------------------------------------------------- faults and removal

  predicate Faulted(state: State) {
    state.Unsupported? || state.Corrupt? || state.IoFault?
  }

  function Fail(c: Config, s: Service, state: State, now: nat): Service {
    s.(state := state, powered := false, mounted := false, writable := false,
       failed := (s.failed + 1) % 0x1_0000_0000, deadline := now + c.cooldownUs)
  }

  function AllDiscarded(queue: seq<Request>): (r: seq<Outcome>)
    ensures |r| == |queue|
  {
    seq(|queue|, i requires 0 <= i < |queue| => Discarded(queue[i]))
  }

  function Remove(s: Service): Service {
    s.(queue := [], completions := [], cardPresent := false, powered := false, mounted := false, writable := false,
       state := Absent, removals := (s.removals + 1) % 0x1_0000_0000, calls := [],
       settled := s.settled + AllDiscarded(s.queue))
  }

  function Because(media: Media): State {
    match media
    case MediaUnsupported => Unsupported
    case MediaCorrupt => Corrupt
    case _ => IoFault
  }

  // ---------------------------------------------------------------- one tick

  predicate Settled(c: Config, s: Service, now: nat) {
    s.raw != s.debounced && now - s.changedAt >= c.debounceUs
  }

  function Insert(c: Config, s: Service, now: nat, r: Reply): Service {
    var s := s.(debounced := true, cardPresent := true, state := Powering);
    if !r.power then Fail(c, s, IoFault, now)
    else s.(powered := true, deadline := now + c.settleUs, calls := [PowerOn])
  }

  function IdentifyCard(c: Config, s: Service, now: nat, r: Reply): Service {
    var s := s.(calls := s.calls + [Identify]);
    if !r.identify.MediaOk? then Fail(c, s, if r.identify.MediaUnsupported? then Unsupported else IoFault, now)
    else if !r.mountReadOnly.MediaOk? then
      Fail(c, s, if r.mountReadOnly.MediaCorrupt? then Corrupt else IoFault, now)
    else s.(state := MountedReadOnly, mounted := true, calls := s.calls + [MountReadOnly])
  }

  function ValidateCard(c: Config, s: Service, now: nat, r: Reply): Service {
    if !r.validate.MediaOk? then Fail(c, s.(mounted := false), Because(r.validate), now)
    else if !r.unmount then Fail(c, s, IoFault, now)
    else if !r.mountWritable.MediaOk? || !r.directories then
      Fail(c, s.(mounted := r.mountWritable.MediaOk?),
           if r.mountWritable.MediaCorrupt? then Corrupt else IoFault, now)
    else
      s.(state := Ready, mounted := true, writable := true,
         calls := s.calls + [Validate, Unmount, MountWritable, MakeDirectories])
  }

  function Serve(s: Service, r: Reply): Service {
    if s.queue == [] then s
    else
      var request := s.queue[0];
      var s := s.(queue := s.queue[1..], calls := s.calls + [Execute(request)],
                  settled := s.settled + [Executed(request)]);
      if r.execute && request.operation.LogRecord? then s.(completed := (s.completed + 1) % 0x1_0000_0000)
      else if r.execute && |s.completions| < COMPLETION_DEPTH then
        s.(completed := (s.completed + 1) % 0x1_0000_0000,
           completions := s.completions + [Completion(request.token, r.data)])
      else s.(failed := (s.failed + 1) % 0x1_0000_0000)
  }

  function Tick(c: Config, s: Service, now: nat, r: Reply): Service {
    if Settled(c, s, now) then
      if s.raw then Insert(c, s, now, r) else Remove(s.(debounced := false))
    else if !s.debounced then s
    else
      match s.state
      case Powering => if now >= s.deadline then s.(state := Identifying) else s
      case Identifying => IdentifyCard(c, s, now, r)
      case MountedReadOnly => s.(state := Validating)
      case Validating => ValidateCard(c, s, now, r)
      case Ready => Serve(s, r)
      case _ => s
  }

  function Detect(s: Service, present: bool, now: nat): Service {
    if present == s.raw then s
    else
      s.(raw := present, changedAt := now, state := if present && s.state.Absent? then Debouncing else s.state)
  }

  function Take(s: Service): Service {
    if s.completions == [] then s else s.(completions := s.completions[1..])
  }

  datatype Event =
    | DetectEvent(present: bool, now: nat) | EnqueueEvent(request: Request) | TakeEvent | TickEvent(now: nat, r: Reply)

  function Step(c: Config, s: Service, e: Event): Service {
    match e
    case DetectEvent(present, now) => Detect(s, present, now)
    case EnqueueEvent(request) => Enqueue(s, request)
    case TakeEvent => Take(s)
    case TickEvent(now, r) => Tick(c, s, now, r)
  }

  // ---------------------------------------------------------------- what holds in every run

  /** The checks since insertion that come before the card is written to. */
  function Checks(): seq<Call> {
    [PowerOn, Identify, MountReadOnly, Validate, Unmount, MountWritable, MakeDirectories]
  }

  predicate OnlyExecutes(calls: seq<Call>) {
    forall i :: 0 <= i < |calls| ==> calls[i].Execute?
  }

  /** The requests behind the outcomes. */
  function Requests(settled: seq<Outcome>): (r: seq<Request>)
    ensures |r| == |settled|
  {
    seq(|settled|, i requires 0 <= i < |settled| => settled[i].request)
  }

  predicate CallsOk(s: Service) {
    match s.state
    case Powering => s.calls == [PowerOn]
    case Identifying => s.calls == [PowerOn]
    case MountedReadOnly => s.calls == Checks()[..3]
    case Validating => s.calls == Checks()[..3]
    case Ready => Checks() <= s.calls && OnlyExecutes(s.calls[|Checks()|..])
    case Absent => s.calls == []
    case Debouncing => s.calls == []
    case _ => OnlyChecks(s.calls)
  }

  /** Nothing has been carried out on the card. */
  predicate OnlyChecks(calls: seq<Call>) {
    forall i :: 0 <= i < |calls| ==> !calls[i].Execute?
  }

  predicate FlagsOk(s: Service) {
    && (s.writable <==> s.state.Ready?)
    && (s.state.Absent? || s.state.Debouncing? <==> !s.debounced)
    && (s.cardPresent <==> s.debounced)
    && (s.mounted <==> s.state.MountedReadOnly? || s.state.Validating? || s.state.Ready?)
    && (s.powered <==> s.debounced && !Faulted(s.state))
  }

  predicate QueueOk(s: Service) {
    && |s.queue| <= QUEUE_DEPTH && |s.completions| <= COMPLETION_DEPTH
    && (s.queue != [] ==> s.state.Ready?)
    && s.accepted == Requests(s.settled) + s.queue
  }

  predicate Inv(s: Service) {
    FlagsOk(s) && CallsOk(s) && QueueOk(s)
  }

  lemma ServeKeeps(s: Service, r: Reply)
    requires Inv(s) && s.state.Ready?
    ensures Inv(Serve(s, r))
  {
    if s.queue != [] {
      var s' := Serve(s, r);
      assert Requests(s'.settled) == Requests(s.settled) + [s.queue[0]];
      assert s.queue == [s.queue[0]] + s.queue[1..];
      assert s'.calls[|Checks()|..] == s.calls[|Checks()|..] + [Execute(s.queue[0])];
    }
  }

  lemma RemoveKeeps(s: Service)
    requires Inv(s)
    ensures Inv(Remove(s.(debounced := false)))
  {
    var s' := Remove(s.(debounced := false));
    assert Requests(s'.settled) == Requests(s.settled) + s.queue;
  }

  lemma EnqueueKeeps(s: Service, request: Request)
    requires Inv(s)
    ensures Inv(Enqueue(s, request))
  {
    hide WellFormed;
  }

  lemma CheckKeeps(c: Config, s: Service, now: nat, r: Reply)
    requires Inv(s) && s.debounced && !s.state.Ready?
    ensures Inv(Tick(c, s, now, r)) || Settled(c, s, now)
  {
    hide Remove, Serve, Insert;
  }

  lemma InsertKeeps(c: Config, s: Service, now: nat, r: Reply)
    requires Inv(s) && !s.debounced
    ensures Inv(Insert(c, s, now, r))
  {
  }

  lemma StepKeepsInv(c: Config, s: Service, e: Event)
    requires Inv(s)
    ensures Inv(Step(c, s, e))
  {
    match e
    case TickEvent(now, r) =>
      if Settled(c, s, now) {
        if s.raw {
          InsertKeeps(c, s, now, r);
        } else {
          RemoveKeeps(s);
        }
      } else if s.debounced {
        if s.state.Ready? {
          ServeKeeps(s, r);
        } else {
          CheckKeeps(c, s, now, r);
        }
      }
      hide Inv, Serve, Remove, Insert, IdentifyCard, ValidateCard;
    case EnqueueEvent(request) => EnqueueKeeps(s, request);
    case DetectEvent(_, _) =>
    case TakeEvent =>
  }

  function Run(c: Config, s: Service, es: seq<Event>): Service
    decreases |es|
  {
    if es == [] then s else Run(c, Step(c, s, es[0]), es[1..])
  }

  lemma {:induction false} RunKeepsInv(c: Config, s: Service, es: seq<Event>)
    requires Inv(s)
    ensures Inv(Run(c, s, es))
    decreases |es|
  {
    hide Inv, Step;
    if es != [] {
      StepKeepsInv(c, s, es[0]);
      RunKeepsInv(c, Step(c, s, es[0]), es[1..]);
    }
  }

  /** In every run the card is writable exactly in Ready, and then it was powered, identified, mounted
      read-only, validated, remounted and given its directories since its insertion, in that order and
      before the first request was carried out. */
  lemma WritableOnlyAfterChecks(c: Config, es: seq<Event>)
    ensures var s := Run(c, NEW, es);
      && (s.writable <==> s.state.Ready?)
      && (s.writable ==> s.powered && s.mounted && Checks() <= s.calls && OnlyExecutes(s.calls[|Checks()|..]))
      && (!s.writable ==> OnlyChecks(s.calls))
  {
    RunKeepsInv(c, NEW, es);
    hide Run;
  }

  /** Requests are carried out in the order accepted and at most once each: what was accepted is what was
      carried out or discarded at a removal, followed by what still waits. */
  lemma FirstInFirstOut(c: Config, es: seq<Event>)
    ensures var s := Run(c, NEW, es);
      s.accepted == Requests(s.settled) + s.queue && |s.queue| <= QUEUE_DEPTH
      && |s.accepted| == Tally(s.settled, true) + |s.queue| + Tally(s.settled, false)
  {
    RunKeepsInv(c, NEW, es);
    TallyAll(Run(c, NEW, es).settled);
    hide Run;
  }

  /** How many were carried out, or discarded. */
  function Tally(settled: seq<Outcome>, executed: bool): nat
    decreases |settled|
  {
    if settled == [] then 0
    else Tally(settled[1..], executed) + (if settled[0].Executed? == executed then 1 else 0)
  }

  lemma {:induction false} TallyAll(settled: seq<Outcome>)
    ensures Tally(settled, true) + Tally(settled, false) == |settled|
    decreases |settled|
  {
    if settled != [] {
      TallyAll(settled[1..]);
    }
  }

  /** A fault ends by a debounced removal and by nothing else. */
  lemma FaultEndsByRemovalOnly(c: Config, s: Service, e: Event)
    requires Inv(s) && Faulted(s.state)
    ensures Step(c, s, e).state != s.state <==> e.TickEvent? && !s.raw && Settled(c, s, e.now)
    ensures Step(c, s, e).state != s.state ==> Step(c, s, e).state.Absent?
  {
    hide Remove, Serve, Insert, IdentifyCard, ValidateCard, WellFormed;
    assert Remove(s.(debounced := false)).state.Absent? by {
      RemovedAbsent(s.(debounced := false));
    }
  }

  lemma RemovedAbsent(s: Service)
    ensures Remove(s).state.Absent?
  {
  }

  // ---------------------------------------------------------------- a card that works

  /** The card does what it is asked. */
  predicate Obliging(r: Reply) {
    && r.power && r.identify.MediaOk? && r.mountReadOnly.MediaOk? && r.validate.MediaOk? && r.unmount
    && r.mountWritable.MediaOk? && r.directories && r.execute
  }

  predicate AllObliging(ticks: seq<(nat, Reply)>) {
    forall i :: 0 <= i < |ticks| ==> Obliging(ticks[i].1)
  }

  function Ticks(c: Config, s: Service, ticks: seq<(nat, Reply)>): Service
    decreases |ticks|
  {
    if ticks == [] then s else Ticks(c, Tick(c, s, ticks[0].0, ticks[0].1), ticks[1..])
  }

  /** The detection has not been stable for long enough, or the supply has not settled. */
  predicate Waits(c: Config, s: Service, now: nat) {
    if s.debounced then s.state.Powering? && now < s.deadline else now - s.changedAt < c.debounceUs
  }

  function Moves(c: Config, s: Service, ticks: seq<(nat, Reply)>): nat
    decreases |ticks|
  {
    if ticks == [] then 0
    else
      (if Waits(c, s, ticks[0].0) then 0 else 1) + Moves(c, Tick(c, s, ticks[0].0, ticks[0].1), ticks[1..])
  }

  /** The steps to Ready: power, identify, two to mount, and validate. */
  function Steps(s: Service): nat {
    if !s.debounced then 5
    else
      match s.state
      case Powering => 4
      case Identifying => 3
      case MountedReadOnly => 2
      case Validating => 1
      case _ => 0
  }

  /** On the way to Ready, or there. */
  predicate Rising(s: Service) {
    && s.raw && (s.debounced ==> !Faulted(s.state) && !s.state.Absent? && !s.state.Debouncing?)
  }

  lemma TickRises(c: Config, s: Service, now: nat, r: Reply)
    requires Inv(s) && Rising(s) && Obliging(r)
    ensures var s' := Tick(c, s, now, r);
      && Inv(s') && Rising(s')
      && Steps(s') == if Steps(s) == 0 || Waits(c, s, now) then Steps(s) else Steps(s) - 1
  {
    StepKeepsInv(c, s, TickEvent(now, r));
    assert Step(c, s, TickEvent(now, r)) == Tick(c, s, now, r);
    hide Inv, Serve, Step;
    ServeStays(s, r);
  }

  lemma ServeStays(s: Service, r: Reply)
    ensures var s' := Serve(s, r); s'.state == s.state && s'.raw == s.raw && s'.debounced == s.debounced
  {
    if s.queue != [] {
      var request := s.queue[0];
      var t := s.(queue := s.queue[1..], calls := s.calls + [Execute(request)],
                  settled := s.settled + [Executed(request)]);
      assert t.state == s.state && t.raw == s.raw && t.debounced == s.debounced;
      if r.execute && request.operation.LogRecord? {
      } else if r.execute && |t.completions| < COMPLETION_DEPTH {
      }
    }
  }

  /** An inserted card that works becomes writable, after exactly five ticks besides those that wait for the detection
      and for the supply. */
  lemma {:induction false} CardBecomesReady(c: Config, s: Service, ticks: seq<(nat, Reply)>)
    requires Inv(s) && Rising(s) && AllObliging(ticks)
    ensures var v := Ticks(c, s, ticks);
      (v.debounced && v.state.Ready? && v.writable && v.powered && v.mounted) <==> Moves(c, s, ticks) >= Steps(s)
    decreases |ticks|
  {
    hide Inv, Tick, Obliging, Waits;
    if ticks == [] {
      ReadyExactly(s);
    } else {
      TickRises(c, s, ticks[0].0, ticks[0].1);
      assert AllObliging(ticks[1..]);
      CardBecomesReady(c, Tick(c, s, ticks[0].0, ticks[0].1), ticks[1..]);
      if Steps(s) == 0 {
        ReadyNeverWaits(c, s, ticks[0].0);
      }
    }
  }

  lemma ReadyExactly(s: Service)
    requires Inv(s) && Rising(s)
    ensures s.debounced && s.state.Ready? && s.writable && s.powered && s.mounted <==> Steps(s) == 0
  {
  }

  lemma ReadyNeverWaits(c: Config, s: Service, now: nat)
    requires Steps(s) == 0
    ensures s.debounced && !s.state.Powering?
  {
  }

  /** A card newly detected is on its way. */
  lemma DetectedRises(c: Config, s: Service, now: nat)
    requires Inv(s) && s.state.Absent? && !s.raw
    ensures var d := Detect(s, true, now); Rising(d) && Steps(d) == 5 && Inv(d) && d.state.Debouncing?
  {
    StepKeepsInv(c, s, DetectEvent(true, now));
  }

  // ---------------------------------------------------------------- and one that does not

  /** What goes wrong in a tick decides the fault, and a card with a fault has no power. */
  lemma CardFaults(c: Config, s: Service, now: nat, r: Reply)
    requires Inv(s) && s.debounced && s.raw && (s.state.Identifying? || s.state.Validating?)
    ensures var v := Tick(c, s, now, r);
      var media := if s.state.Validating? then (if r.validate.MediaOk? then r.mountWritable else r.validate)
        else if r.identify.MediaOk? then r.mountReadOnly else r.identify;
      var ok := if s.state.Validating? then
          r.validate.MediaOk? && r.unmount && r.mountWritable.MediaOk? && r.directories
        else r.identify.MediaOk? && r.mountReadOnly.MediaOk?;
      && (Faulted(v.state) <==> !ok)
      && (Faulted(v.state) ==>
            !v.powered && !v.mounted && !v.writable && v.failed == (s.failed + 1) % 0x1_0000_0000)
      && (v.state.Corrupt? ==> media.MediaCorrupt?) && (v.state.Unsupported? ==> media.MediaUnsupported?)
      && (s.state.Validating? && !r.validate.MediaOk? ==>
            && (r.validate.MediaCorrupt? <==> v.state.Corrupt?)
            && (r.validate.MediaUnsupported? <==> v.state.Unsupported?))
      && (s.state.Identifying? && !r.identify.MediaOk? ==> (r.identify.MediaUnsupported? <==> v.state.Unsupported?))
      && (s.state.Identifying? && r.identify.MediaOk? ==> (r.mountReadOnly.MediaCorrupt? <==> v.state.Corrupt?))
  {
  }

  // ---------------------------------------------------------------- what becomes of requests

  /** The requests that are answered with a completion. */
  function Answered(queue: seq<Request>): nat
    decreases |queue|
  {
    if queue == [] then 0 else (if queue[0].operation.LogRecord? then 0 else 1) + Answered(queue[1..])
  }

  /** The completions that ticks with the given answers give to a queue. */
  function Given(queue: seq<Request>, ticks: seq<(nat, Reply)>): seq<Completion>
    decreases |queue|
  {
    if queue == [] || ticks == [] then []
    else
      (if queue[0].operation.LogRecord? then [] else [Completion(queue[0].token, ticks[0].1.data)])
      + Given(queue[1..], ticks[1..])
  }

  /** A working card carries out every request in turn, one a tick, and each of them but the log records is answered
      with its token and the data read, as long as there is room for the answers. */
  lemma {:induction false} RequestsServed(c: Config, s: Service, ticks: seq<(nat, Reply)>)
    requires Inv(s) && s.state.Ready? && s.raw && s.debounced && AllObliging(ticks) && |ticks| == |s.queue|
    requires |s.completions| + Answered(s.queue) <= COMPLETION_DEPTH
    ensures var v := Ticks(c, s, ticks);
      && v.state.Ready? && v.queue == [] && v.completions == s.completions + Given(s.queue, ticks)
      && v.failed == s.failed && (s.completed < 0x1_0000_0000 ==>
            v.completed == (s.completed + |s.queue|) % 0x1_0000_0000)
    decreases |ticks|
  {
    hide Inv, Tick, Obliging;
    if ticks != [] {
      var v := Tick(c, s, ticks[0].0, ticks[0].1);
      ServedOne(c, s, ticks[0].0, ticks[0].1);
      assert AllObliging(ticks[1..]);
      RequestsServed(c, v, ticks[1..]);
    }
  }

  lemma ServedOne(c: Config, s: Service, now: nat, r: Reply)
    requires Inv(s) && s.state.Ready? && s.raw && s.debounced && Obliging(r) && s.queue != []
    requires |s.completions| + Answered(s.queue) <= COMPLETION_DEPTH
    ensures var v, request := Tick(c, s, now, r), s.queue[0];
      && Inv(v) && v.state.Ready? && v.raw && v.debounced && v.queue == s.queue[1..] && v.failed == s.failed
      && v.completed == (s.completed + 1) % 0x1_0000_0000
      && v.completions
         == s.completions + (if request.operation.LogRecord? then [] else [Completion(request.token, r.data)])
  {
    StepKeepsInv(c, s, TickEvent(now, r));
    hide Inv;
  }

  // ---------------------------------------------------------------- where requests may lead

  /** The part of a path between two slashes, or between the last slash and the end. */
  predicate Component(path: string, i: nat, j: nat) {
    && i < j <= |path| && path[i] == '/' && (j < |path| ==> path[j] == '/')
    && forall k :: i < k < j ==> path[k] != '/'
  }

  /** No request that is accepted leads out of the root: its path starts there, and no part of it is empty, save the
      last, or goes up, or could be read as another separator or a drive. */
  lemma StaysBelowRoot(s: Service, request: Request, i: nat, j: nat)
    requires Admitted(s, request) && Component(request.path, i, j)
    ensures request.path[..12] == "/OPENPOCKET/" && |request.path| < 128
    ensures request.path[i + 1..j] != ".." && (j < |request.path| ==> j > i + 1)
    ensures '\\' !in request.path[i + 1..j] && ':' !in request.path[i + 1..j]
  {
    var path, part := request.path, request.path[i + 1..j];
    if |part| == 2 {
      NoPair(path, '.', '.', i + 1);
    }
    if j < |path| {
      NoPair(path, '/', '/', i);
    }
  }

  lemma NoPair(s: string, a: char, b: char, i: nat)
    requires !HasPair(s, a, b) && i + 1 < |s|
    ensures s[i] != a || s[i + 1] != b
  {
  }
}
