/** `TransactionalModelStore` and the slot index of `ModelLibrary`: crash safety of every save and
    load, over whole runs with failing operations, torn writes and power cuts. */
module ModelStore {
  import opened Bits
  import opened Wire
  import opened Model
  import opened ModelCodec
  import opened FileStore
  import CodecLaws
  import CodecObjects
  import Crc

  type Saved = (Model, word)

  function ModelOf(data: seq<byte>): Option<Saved> {
    match DecodeFile(data)
    case Accepted(m, generation) => Some((m, generation))
    case Rejected(_) => None
  }

  /** The join of codec and protocol: an encoded model is intact, and no torn copy of it is. */
  lemma EncodedUnmistakable(m: Model, generation: word)
    requires Valid(m)
    ensures Unmistakable(ModelOf, EncodeFile(m, generation), (Normalize(m), generation))
    ensures EncodeFile(m, generation) != []
  {
    hide DecodeFile, EncodeFile, Valid, Normalize;
    var data := EncodeFile(m, generation);
    EmptyExactly(m, generation);
    CodecLaws.DecodeEncode(m, generation);
    forall n | 0 <= n < |data| ensures ModelOf(data[..n]).None? {
      CodecLaws.TornFileRejected(data, n);
    }
  }

  /** Only an invalid model has an empty encoding. */
  lemma EmptyExactly(m: Model, generation: word)
    ensures EncodeFile(m, generation) == [] <==> !Valid(m)
  {
  }

  datatype LoadResult = NotFound | Loaded(model: Model, generation: word, recovered: bool, restored: bool)

  class TransactionalModelStore {
    const medium: Medium

    constructor (files: Medium)
      ensures medium == files
    {
      medium := files;
    }

    /** `allowed` bounds what any reader could find before the call.  From any store with an intact active or
        backup file, also one whose active file is present and corrupt, a record can be found at every cut. */
    method Save(model: Model, generation: word, ghost allowed: set<Saved>) returns (ok: bool)
      modifies medium
      ensures !Valid(model) ==> !ok && medium.files == old(medium.files)
      ensures |old(medium.history)| <= |medium.history|
      ensures Valid(model) && Sound(ModelOf, old(medium.files), allowed) ==>
        (Sound(ModelOf, medium.files, allowed + {(Normalize(model), generation)})
          && SoundSince(ModelOf, medium.history, |old(medium.history)|,
               allowed + {(Normalize(model), generation)}, Recoverable(ModelOf, old(medium.files))))
      ensures Valid(model) && BackedUp(ModelOf, old(medium.files)) ==>
        (FoundSince(ModelOf, medium.history, |old(medium.history)|, old(medium.files), (Normalize(model), generation))
          && Found(ModelOf, medium.files, old(medium.files), (Normalize(model), generation)))
      ensures Recoverable(ModelOf, old(medium.files)) ==> Recoverable(ModelOf, medium.files)
      ensures Valid(model) && !medium.silent ==>
        (SaveLeaves(old(medium.files), EncodeFile(model, generation), medium.files)
          && SaveLeavesSince(medium.history, |old(medium.history)|, old(medium.files), EncodeFile(model, generation)))
      ensures ok ==> Valid(model) && Holds(ModelOf, medium.files, Active) == Some((Normalize(model), generation))
      ensures ok ==> Sound(ModelOf, medium.files, {(Normalize(model), generation)})
      ensures medium.refused >= old(medium.refused)
      ensures Valid(model) && medium.refused == old(medium.refused) ==> ok
      ensures ok ==> medium.files == InPlace(old(medium.files)[Temporary := EncodeFile(model, generation)])
    {
      hide DecodeFile, EncodeFile, Valid, Normalize;
      var encoded := CodecObjects.WriteFile(model, generation);
      EmptyExactly(model, generation);
      if encoded == [] {
        return false;
      }
      CodecLaws.ValidHead(model);
      ghost var v := (Normalize(model), generation);
      EncodedUnmistakable(model, generation);
      hide StageLeaves, ActivateLeaves, SaveLeavesSince, SoundSince, FoundSince, Found;
      ghost var before, start := medium.files, |medium.history|;
      ghost var kept := Recoverable(ModelOf, before);
      ok := Stage(medium, encoded, ModelOf, v, allowed + {v});
      if !ok { return; }
      SameRestIs(medium.files, before);
      var verified := CodecObjects.ReadFile(medium.files[Temporary]);
      if verified.Rejected? || verified.generation != generation {
        Discard(medium, ModelOf, v, allowed + {v}, kept, before, start);
        return false;
      }
      StagedIs(medium.files, before, encoded);
      ghost var staged, staging := medium.files, medium.history;
      ok := Activate(medium, ModelOf, v, allowed + {v});
      if BackedUp(ModelOf, before) {
        FoundThrough(ModelOf, staging, medium.history, start, staged, before, v);
      }
      if Sound(ModelOf, before, allowed + {v}) {
        SoundThrough(ModelOf, staging, medium.history, start, allowed + {v}, kept);
      }
      if !medium.silent {
        SaveLeavesThrough(staging, medium.history, start, before, encoded);
      }
    }

    /** The first intact candidate of active, temporary and backup; a recovered one is copied back to
        the active file. */
    method Load(ghost allowed: set<Saved>) returns (r: LoadResult)
      modifies medium
      ensures Resolve(ModelOf, old(medium.files)).None? ==> r == NotFound && medium.files == old(medium.files)
      ensures Resolve(ModelOf, old(medium.files)).Some? ==> r.Loaded?
      ensures r.Loaded? ==> Resolve(ModelOf, old(medium.files)) == Some((r.model, r.generation))
      ensures r.Loaded? ==> r.recovered == Holds(ModelOf, old(medium.files), Active).None?
      ensures r.Loaded? && !r.recovered ==> r.restored && medium.files == old(medium.files)
      ensures r.Loaded? && r.restored && !medium.silent ==>
                Holds(ModelOf, medium.files, Active) == Some((r.model, r.generation))
      ensures BackedUp(ModelOf, old(medium.files)) ==> BackedUp(ModelOf, medium.files)
      ensures !medium.silent && Sound(ModelOf, old(medium.files), allowed) ==>
        (Sound(ModelOf, medium.files, allowed) && SoundSince(
          ModelOf, medium.history, |old(medium.history)|, allowed, Recoverable(ModelOf, old(medium.files))))
      ensures !medium.silent && Recoverable(ModelOf, old(medium.files)) ==> Recoverable(ModelOf, medium.files)
      ensures r.Loaded? && r.recovered && !medium.silent ==>
        (RepairLeaves(old(medium.files), EncodeFile(r.model, r.generation), medium.files)
          && RepairLeavesSince(
               medium.history, |old(medium.history)|, old(medium.files), EncodeFile(r.model, r.generation)))
      ensures medium.refused >= old(medium.refused)
      ensures r.Loaded? && medium.refused == old(medium.refused) ==> r.restored
      ensures r.Loaded? && r.recovered && r.restored && (!medium.silent || medium.refused == old(medium.refused)) ==>
        medium.files ==
          Activated(old(medium.files)[Temporary := EncodeFile(r.model, r.generation)] - {Active})
    {
      hide DecodeFile, EncodeFile, Valid, Normalize;
      var candidates := [Active, Temporary, Backup];
      for i := 0 to |candidates|
        invariant medium.files == old(medium.files) && medium.history == old(medium.history)
        invariant medium.refused == old(medium.refused)
        invariant i > 0 ==> Holds(ModelOf, medium.files, Active).None?
        invariant i > 1 ==> Holds(ModelOf, medium.files, Temporary).None?
        invariant i > 2 ==> Holds(ModelOf, medium.files, Backup).None?
      {
        if candidates[i] in medium.files {
          var candidate := CodecObjects.ReadFile(medium.files[candidates[i]]);
          if candidate.Accepted? {
            var restored := i == 0;
            assert Holds(ModelOf, medium.files, candidates[i]) == Some((candidate.model, candidate.generation));
            if i != 0 {
              restored := Restore(candidate.model, candidate.generation, medium.files[candidates[i]], allowed);
            }
            return Loaded(candidate.model, candidate.generation, i != 0, restored);
          }
        }
      }
      r := NotFound;
    }

    /** Copy a recovered model, decoded from `data`, back to the active file. */
    method Restore(model: Model, generation: word, ghost data: seq<byte>, ghost allowed: set<Saved>)
        returns (ok: bool)
      requires DecodeFile(data) == Accepted(model, generation)
      requires Holds(ModelOf, medium.files, Active).None?
      requires Resolve(ModelOf, medium.files) == Some((model, generation))
      modifies medium
      ensures ok && !medium.silent ==> Holds(ModelOf, medium.files, Active) == Some((model, generation))
      ensures BackedUp(ModelOf, old(medium.files)) ==> BackedUp(ModelOf, medium.files)
      ensures !medium.silent && Sound(ModelOf, old(medium.files), allowed) ==>
        (Sound(ModelOf, medium.files, allowed) && SoundSince(
          ModelOf, medium.history, |old(medium.history)|, allowed, Recoverable(ModelOf, old(medium.files))))
      ensures !medium.silent && Recoverable(ModelOf, old(medium.files)) ==> Recoverable(ModelOf, medium.files)
      ensures !medium.silent ==>
        (RepairLeaves(old(medium.files), EncodeFile(model, generation), medium.files)
          && RepairLeavesSince(
               medium.history, |old(medium.history)|, old(medium.files), EncodeFile(model, generation)))
      ensures medium.refused >= old(medium.refused) && (medium.refused == old(medium.refused) ==> ok)
      ensures ok && (!medium.silent || medium.refused == old(medium.refused)) ==>
        medium.files == Activated(old(medium.files)[Temporary := EncodeFile(model, generation)] - {Active})
    {
      hide DecodeFile, EncodeFile, Valid, Normalize;
      CodecLaws.AcceptedIsFixedPoint(data);
      EncodedUnmistakable(model, generation);
      ghost var v := (model, generation);
      var encoded := CodecObjects.WriteFile(model, generation);
      assert Unmistakable(ModelOf, encoded, v);
      ok := CopyBack(medium, encoded, ModelOf, v, allowed);
    }
  }

  // ---------------------------------------------------------------- whole runs

  datatype Request = SaveRequest(model: Model, generation: word) | LoadRequest | PowerUp

  datatype Event = SaveDone(v: Saved) | SaveFailed(v: Saved) | SaveRefused | LoadDone(r: LoadResult)

  /** What a load after `trace` may return: the last model whose save reported success (or what was
      stored at the start), or a model passed to a failed save since. */
  function Allowed(trace: seq<Event>, initial: set<Saved>): set<Saved> {
    if trace == [] then initial
    else AllowedAfter(Allowed(trace[..|trace| - 1], initial), trace[|trace| - 1])
  }

  function AllowedAfter(before: set<Saved>, e: Event): set<Saved> {
    if e.SaveDone? then {e.v} else if e.SaveFailed? then before + {e.v} else before
  }

  lemma AllowedNext(trace: seq<Event>, e: Event, initial: set<Saved>)
    ensures Allowed(trace + [e], initial) == AllowedAfter(Allowed(trace, initial), e)
  {
    assert (trace + [e])[..|trace|] == trace;
  }

  /** Event `i`, if it is a load, succeeded with a model it was allowed to return, and right after a
      successful save with exactly that model and generation, unrecovered. */
  ghost predicate FaithfulAt(trace: seq<Event>, i: nat, initial: set<Saved>)
    requires i < |trace|
  {
    trace[i].LoadDone? ==>
      var r := trace[i].r;
      && r.Loaded? && (r.model, r.generation) in Allowed(trace[..i], initial)
      && (i > 0 && trace[i - 1].SaveDone? ==> r == Loaded(trace[i - 1].v.0, trace[i - 1].v.1, false, true))
  }

  ghost predicate LoadsFaithful(trace: seq<Event>, initial: set<Saved>) {
    forall i :: 0 <= i < |trace| ==> FaithfulAt(trace, i, initial)
  }

  lemma FaithfulNext(trace: seq<Event>, e: Event, initial: set<Saved>)
    requires LoadsFaithful(trace, initial)
    requires e.LoadDone? ==> e.r.Loaded? && (e.r.model, e.r.generation) in Allowed(trace, initial)
    requires e.LoadDone? && trace != [] && trace[|trace| - 1].SaveDone? ==>
      e.r == Loaded(trace[|trace| - 1].v.0, trace[|trace| - 1].v.1, false, true)
    ensures LoadsFaithful(trace + [e], initial)
  {
    var t := trace + [e];
    forall i | 0 <= i < |t| ensures FaithfulAt(t, i, initial) {
      assert t[..i] == trace[..i];
      if i < |trace| {
        assert FaithfulAt(trace, i, initial);
      } else {
        assert trace[..|trace|] == trace;
      }
    }
  }

  /** The event that answers a request when nothing is refused: a valid model is saved, a load restores what it
      recovers. */
  predicate Answers(request: Request, e: Event) {
    match request
    case SaveRequest(m, g) => if Valid(m) then e == SaveDone((Normalized(m), g)) else e == SaveRefused
    case LoadRequest => e.LoadDone? && e.r.Loaded? && e.r.restored
    case PowerUp => false
  }

  predicate AllAnswered(requests: seq<Request>, trace: seq<Event>)
    decreases |requests|
  {
    if requests == [] then trace == []
    else
      var last := requests[|requests| - 1];
      if last.PowerUp? then AllAnswered(requests[..|requests| - 1], trace)
      else
        trace != [] && Answers(last, trace[|trace| - 1]) &&
        AllAnswered(requests[..|requests| - 1], trace[..|trace| - 1])
  }

  lemma AnsweredNext(requests: seq<Request>, trace: seq<Event>, request: Request, e: Event)
    requires AllAnswered(requests, trace)
    ensures request.PowerUp? ==> AllAnswered(requests + [request], trace)
    ensures Answers(request, e) ==> AllAnswered(requests + [request], trace + [e])
  {
    assert (requests + [request])[..|requests|] == requests && (trace + [e])[..|trace|] == trace;
    hide Answers;
  }

  lemma NoneAnswered()
    ensures AllAnswered([], [])
  {
  }

  lemma Continues(requests: seq<Request>, i: nat, trace: seq<Event>, e: Event)
    requires i < |requests|
    ensures AllAnswered(requests[..i], trace) && requests[i].PowerUp? ==> AllAnswered(requests[..i + 1], trace)
    ensures AllAnswered(requests[..i], trace) && Answers(requests[i], e) ==>
      AllAnswered(requests[..i + 1], trace + [e])
  {
    assert requests[..i + 1] == requests[..i] + [requests[i]];
    if AllAnswered(requests[..i], trace) {
      AnsweredNext(requests[..i], trace, requests[i], e);
    }
    hide *;
  }

  /** What holds between two requests. */
  ghost predicate Kept(store: TransactionalModelStore, trace: seq<Event>, initial: set<Saved>)
    reads store.medium
  {
    && !store.medium.silent
    && Sound(ModelOf, store.medium.files, Allowed(trace, initial)) && Recoverable(ModelOf, store.medium.files)
    && LoadsFaithful(trace, initial)
    && (trace != [] && trace[|trace| - 1].SaveDone? ==>
          Holds(ModelOf, store.medium.files, Active) == Some(trace[|trace| - 1].v))
  }

  method HandleSave(store: TransactionalModelStore, m: Model, g: word, before: seq<Event>, ghost initial: set<Saved>)
      returns (e: Event)
    requires Kept(store, before, initial)
    modifies store.medium
    ensures Kept(store, before + [e], initial)
    ensures store.medium.refused >= old(store.medium.refused)
    ensures store.medium.refused == old(store.medium.refused) ==> Answers(SaveRequest(m, g), e)
  {
    hide Valid, Normalize, DecodeFile, EncodeFile;
    hide SaveLeaves, SaveLeavesSince, RepairLeaves, RepairLeavesSince, Found, FoundSince, SoundSince;
    hide Sound, Recoverable, Holds, InPlace, Activated, LoadsFaithful, BackedUp;
    var ok := store.Save(m, g, Allowed(before, initial));
    e := if !Valid(m) then SaveRefused
         else if ok then SaveDone((Normalized(m), g)) else SaveFailed((Normalized(m), g));
    AllowedNext(before, e, initial);
    FaithfulNext(before, e, initial);
  }

  method HandleLoad(store: TransactionalModelStore, before: seq<Event>, ghost initial: set<Saved>) returns (e: Event)
    requires Kept(store, before, initial)
    modifies store.medium
    ensures Kept(store, before + [e], initial)
    ensures store.medium.refused >= old(store.medium.refused)
    ensures store.medium.refused == old(store.medium.refused) ==> Answers(LoadRequest, e)
  {
    hide Valid, Normalize, DecodeFile, EncodeFile;
    hide SaveLeaves, SaveLeavesSince, RepairLeaves, RepairLeavesSince, Found, FoundSince, SoundSince;
    hide Sound, Recoverable, Holds, InPlace, Activated, LoadsFaithful, BackedUp;
    ghost var allowed := Allowed(before, initial);
    ResolveSound(ModelOf, store.medium.files, allowed);
    var r := store.Load(allowed);
    e := LoadDone(r);
    AllowedNext(before, e, initial);
    FaithfulNext(before, e, initial);
  }

  /** Any sequence of saves, loads and power-ups, with any operation failing and power cut at any
      operation: the store is recoverable in every state, and every load is faithful. */
  method Run(store: TransactionalModelStore, requests: seq<Request>, ghost initial: set<Saved>)
      returns (trace: seq<Event>)
    requires !store.medium.silent
    requires Sound(ModelOf, store.medium.files, initial) && Recoverable(ModelOf, store.medium.files)
    modifies store.medium
    ensures Recoverable(ModelOf, store.medium.files)
    ensures Sound(ModelOf, store.medium.files, Allowed(trace, initial))
    ensures LoadsFaithful(trace, initial)
    ensures store.medium.refused >= old(store.medium.refused)
    ensures store.medium.refused == old(store.medium.refused) ==> AllAnswered(requests, trace)
  {
    hide Sound, Recoverable, Holds, AllAnswered, Answers, FaithfulAt;
    trace := [];
    NoneAnswered();
    for i := 0 to |requests|
      invariant Kept(store, trace, initial)
      invariant store.medium.refused >= old(store.medium.refused)
      invariant store.medium.refused == old(store.medium.refused) ==> AllAnswered(requests[..i], trace)
    {
      match requests[i]
      case SaveRequest(m, g) =>
        var e := HandleSave(store, m, g, trace, initial);
        Continues(requests, i, trace, e);
        trace := trace + [e];
      case LoadRequest =>
        var e := HandleLoad(store, trace, initial);
        Continues(requests, i, trace, e);
        trace := trace + [e];
      case PowerUp =>
        Continues(requests, i, trace, SaveRefused);
        store.medium.Boot();
    }
    assert requests[..|requests|] == requests;
  }

  function Normalized(m: Model): Model
    requires Valid(m)
  {
    Normalize(m)
  }

  // ---------------------------------------------------------------- an unfinished recovery

  /** The newest record sits only in the temporary file, which the recovery rewrites. */
  predicate Exposed<V(==)>(dec: seq<byte> -> Option<V>, files: Files) {
    && Holds(dec, files, Active).None?
    && Holds(dec, files, Temporary).Some?
    && Holds(dec, files, Backup) != Holds(dec, files, Temporary)
  }

  /** `load` repairs the active file by first rewriting the temporary one.  Whatever that repair leaves behind,
      failing or cut anywhere, the next load still finds the same record exactly when the record was not
      exposed. */
  lemma RecoveryIsStable(files: Files, m: Model, generation: word)
    requires Valid(m) && Holds(ModelOf, files, Active).None?
    requires Resolve(ModelOf, files) == Some((Normalize(m), generation))
    ensures (forall after :: RepairLeaves(files, EncodeFile(m, generation), after) ==>
        Resolve(ModelOf, after) == Resolve(ModelOf, files))
      <==> !Exposed(ModelOf, files)
  {
    hide DecodeFile, EncodeFile, Valid, Normalize;
    EncodedUnmistakable(m, generation);
    var data := EncodeFile(m, generation);
    if Exposed(ModelOf, files) {
      assert StageLeaves(files, data, files[Temporary := data[..0]]);
      assert ModelOf(data[..0]).None?;
      assert Resolve(ModelOf, files[Temporary := data[..0]]) == Holds(ModelOf, files, Backup);
    } else {
      forall after | RepairLeaves(files, data, after) ensures Resolve(ModelOf, after) == Resolve(ModelOf, files) {
        assert data[..|data|] == data;
      }
    }
  }

  /** Two saves in a row, each failing or cut anywhere, always leave a model to be loaded exactly if the store
      was recoverable before. */
  lemma SavesLeaveAModel(files: Files, m: Model, g: word, m': Model, g': word)
    requires Valid(m) && Valid(m')
    ensures (forall between, after ::
        SaveLeaves(files, EncodeFile(m, g), between) && SaveLeaves(between, EncodeFile(m', g'), after) ==>
          Resolve(ModelOf, after).Some?)
      <==> Recoverable(ModelOf, files)
  {
    hide DecodeFile, EncodeFile, Valid, Normalize;
    EncodedUnmistakable(m, g);
    EncodedUnmistakable(m', g');
    RetriesSafe(ModelOf, files, EncodeFile(m, g), (Normalized(m), g), EncodeFile(m', g'), (Normalized(m'), g'));
  }

  // ---------------------------------------------------------------- the slot index

  const INDEX_MAGIC: word := 0x494D_5652
  const MAXIMUM_STORED_MODELS := 32

  function EncodeIndex(slot: byte): (r: seq<byte>)
    ensures |r| == 13
  {
    PutU(PutU(PutU(PutU(PutU([], INDEX_MAGIC, 4), 1, 2), 0, 2), Crc.Crc32([slot]), 4), slot, 1)
  }

  function DecodeIndex(data: seq<byte>): Option<byte> {
    if |data| != 13 then None
    else
      var magic := GetU(data, 0, 4).value;
      var version := GetU(data, 4, 2).value;
      var crc := GetU(data, 8, 4).value;
      var slot: byte := GetU(data, 12, 1).value;
      if magic != INDEX_MAGIC || version != 1 || slot >= MAXIMUM_STORED_MODELS || Crc.Crc32([slot]) != crc
      then None else Some(slot)
  }

  lemma IndexUnmistakable(slot: byte)
    requires slot < MAXIMUM_STORED_MODELS
    ensures Unmistakable(DecodeIndex, EncodeIndex(slot), slot)
  {
    hide PutU, GetU, Starts;
    FieldsForward();
    Bounds();
    var data := EncodeIndex(slot);
    StartsSelf(data);
    assert DecodeIndex(data) == Some(slot);
  }

  class SlotIndex {
    const medium: Medium
    var activeSlot: byte

    constructor (files: Medium)
      ensures medium == files && activeSlot == 0
    {
      medium := files;
      activeSlot := 0;
    }

    /** At every cut the index resolves to a slot that was allowed before, or to the new one. */
    method WriteActiveIndex(slot: byte, ghost allowed: set<byte>) returns (ok: bool)
      requires !medium.silent
      modifies this, medium
      ensures slot >= MAXIMUM_STORED_MODELS ==> !ok && medium.files == old(medium.files)
      ensures |old(medium.history)| <= |medium.history|
      ensures slot < MAXIMUM_STORED_MODELS && Sound(DecodeIndex, old(medium.files), allowed) ==>
        (Sound(DecodeIndex, medium.files, allowed + {slot})
          && SoundSince(DecodeIndex, medium.history, |old(medium.history)|, allowed + {slot},
               Recoverable(DecodeIndex, old(medium.files))))
      ensures slot < MAXIMUM_STORED_MODELS && BackedUp(DecodeIndex, old(medium.files)) ==>
        FoundSince(DecodeIndex, medium.history, |old(medium.history)|, old(medium.files), slot)
      ensures Recoverable(DecodeIndex, old(medium.files)) ==> Recoverable(DecodeIndex, medium.files)
      ensures ok ==> activeSlot == slot && Holds(DecodeIndex, medium.files, Active) == Some(slot)
      ensures ok ==> Sound(DecodeIndex, medium.files, {slot})
      ensures !ok ==> activeSlot == old(activeSlot)
      ensures slot < MAXIMUM_STORED_MODELS && medium.refused == old(medium.refused) ==> ok
      ensures ok ==> medium.files == InPlace(old(medium.files)[Temporary := EncodeIndex(slot)])
    {
      hide DecodeIndex, EncodeIndex;
      if slot >= MAXIMUM_STORED_MODELS {
        return false;
      }
      IndexUnmistakable(slot);
      ghost var before, start := medium.files, |medium.history|;
      ok := Stage(medium, EncodeIndex(slot), DecodeIndex, slot, allowed + {slot});
      if !ok { return; }
      SameRestIs(medium.files, before);
      ghost var staged, staging := medium.files, medium.history;
      ok := Activate(medium, DecodeIndex, slot, allowed + {slot});
      if BackedUp(DecodeIndex, before) {
        FoundThrough(DecodeIndex, staging, medium.history, start, staged, before, slot);
      }
      if ok {
        activeSlot := slot;
      }
    }

    method ReadActiveIndex() returns (slot: Option<byte>)
      ensures slot == Resolve(DecodeIndex, medium.files)
    {
      hide DecodeIndex;
      var candidates := [Active, Temporary, Backup];
      for i := 0 to |candidates|
        invariant i > 0 ==> Holds(DecodeIndex, medium.files, Active).None?
        invariant i > 1 ==> Holds(DecodeIndex, medium.files, Temporary).None?
        invariant i > 2 ==> Holds(DecodeIndex, medium.files, Backup).None?
      {
        if candidates[i] in medium.files {
          var decoded := DecodeIndex(medium.files[candidates[i]]);
          if decoded.Some? {
            return decoded;
          }
        }
      }
      slot := None;
    }
  }
}
