/** The three files of a copy-on-write record (`x`, `x.new`, `x.bak`) on a medium where every
    mutating operation may fail, a write may be torn, and power may be cut at any operation. */
module FileStore {
  import opened Bits

  datatype Option<+T> = None | Some(value: T)

  datatype Path = Active | Temporary | Backup

  type Files = map<Path, seq<byte>>

  /** Reads and existence tests are faithful.  A failed write leaves the old file or any prefix of
      the new one; any other failed operation has no effect.  On a `silent` medium a write may also
      report success and leave a strict prefix.  Once power is gone nothing changes, so the state
      after a call that lost power is the state at the cut. */
  class Medium {
    const silent: bool
    var files: Files
    var powered: bool
    /** Every state the medium has been in, one per operation. */
    ghost var history: seq<Files>
    /** How many operations were refused, torn or cut off. */
    ghost var refused: nat

    constructor (initial: Files, silentWrites: bool)
      ensures files == initial && powered && history == [initial] && silent == silentWrites && refused == 0
    {
      silent := silentWrites;
      files := initial;
      powered := true;
      history := [initial];
      refused := 0;
    }

    /** Power may be lost just before any operation takes effect. */
    method MayLosePower()
      modifies this`powered
      ensures powered ==> old(powered)
    {
      var cut: bool := *;
      if cut {
        powered := false;
      }
    }

    method Boot()
      modifies this`powered
      ensures powered
    {
      powered := true;
    }

    method Write(path: Path, data: seq<byte>) returns (ok: bool)
      modifies this
      ensures ok ==> (files == old(files)[path := data]
        || (silent && exists n :: 0 <= n < |data| && files == old(files)[path := data[..n]]))
      ensures !ok ==> (files == old(files)
        || exists n :: 0 <= n <= |data| && files == old(files)[path := data[..n]])
      ensures !old(powered) ==> !ok && files == old(files) && !powered
      ensures history == old(history) + [files]
      ensures refused == old(refused) + (if ok && files == old(files)[path := data] then 0 else 1)
    {
      var wasPowered := powered;
      ghost var whole := files[path := data];
      MayLosePower();
      ok := *;
      var torn: bool := *;
      if ok && powered {
        if silent && torn && data != [] {
          var n :| 0 <= n < |data|;
          files := files[path := data[..n]];
        } else {
          files := files[path := data];
        }
      } else {
        ok := false;
        if torn && wasPowered {
          var n :| 0 <= n <= |data|;
          files := files[path := data[..n]];
        }
      }
      history := history + [files];
      refused := refused + (if ok && files == whole then 0 else 1);
    }

    method Rename(source: Path, target: Path) returns (ok: bool)
      modifies this
      ensures ok ==> source in old(files) && files == (old(files) - {source})[target := old(files)[source]]
      ensures !ok ==> files == old(files)
      ensures !old(powered) ==> !ok && !powered
      ensures history == old(history) + [files]
      ensures refused == old(refused) + (if ok || source !in old(files) then 0 else 1)
    {
      MayLosePower();
      ok := *;
      refused := refused + (if (ok && powered) || source !in files then 0 else 1);
      ok := ok && powered && source in files;
      if ok {
        files := (files - {source})[target := files[source]];
      }
      history := history + [files];
    }

    /** Removing an absent file succeeds. */
    method Remove(path: Path) returns (ok: bool)
      modifies this
      ensures ok ==> files == old(files) - {path}
      ensures !ok ==> files == old(files)
      ensures !old(powered) ==> !powered && files == old(files)
      ensures history == old(history) + [files]
      ensures refused == old(refused) + (if ok then 0 else 1)
    {
      MayLosePower();
      ok := *;
      ok := path !in files || (ok && powered);
      refused := refused + (if ok then 0 else 1);
      if ok {
        files := files - {path};
      }
      history := history + [files];
    }

    /** A sync of a file or of the directory: it may fail, and never changes the contents. */
    method Sync() returns (ok: bool)
      modifies this`powered, this`refused
      ensures !old(powered) ==> !ok && !powered
      ensures refused == old(refused) + (if ok then 0 else 1)
    {
      MayLosePower();
      ok := *;
      ok := ok && powered;
      refused := refused + (if ok then 0 else 1);
    }
  }

  // ---------------------------------------------------------------- what a set of files holds

  /** The record in one file, if it is present and intact. */
  function Holds<V>(dec: seq<byte> -> Option<V>, files: Files, path: Path): Option<V> {
    if path in files then dec(files[path]) else None
  }

  /** The record a reader finds: the first intact one of active, temporary, backup. */
  function Resolve<V>(dec: seq<byte> -> Option<V>, files: Files): Option<V> {
    if Holds(dec, files, Active).Some? then Holds(dec, files, Active)
    else if Holds(dec, files, Temporary).Some? then Holds(dec, files, Temporary)
    else Holds(dec, files, Backup)
  }

  /** The active file is intact, or it is absent and the backup is intact. */
  predicate Recoverable<V>(dec: seq<byte> -> Option<V>, files: Files) {
    || Holds(dec, files, Active).Some?
    || (Active !in files && Holds(dec, files, Backup).Some?)
  }

  /** An intact record outside the temporary file, the weaker property that corruption of the active
      file leaves. */
  predicate BackedUp<V>(dec: seq<byte> -> Option<V>, files: Files) {
    Holds(dec, files, Active).Some? || Holds(dec, files, Backup).Some?
  }

  /** Nothing has ever been activated. */
  predicate Virgin(files: Files) {
    Active !in files && Backup !in files
  }

  /** Only records of `allowed` can be found: in the active file, in the temporary file, and, while
      there is no active file, in the backup. */
  ghost predicate Sound<V>(dec: seq<byte> -> Option<V>, files: Files, allowed: set<V>) {
    && (Recoverable(dec, files) || Virgin(files))
    && (Holds(dec, files, Active).Some? ==> Holds(dec, files, Active).value in allowed)
    && (Holds(dec, files, Temporary).Some? ==> Holds(dec, files, Temporary).value in allowed)
    && (Active !in files && Holds(dec, files, Backup).Some? ==> Holds(dec, files, Backup).value in allowed)
  }

  /** What a reader finds in a sound set of files is an allowed record, and a recoverable set of
      files always has one. */
  lemma ResolveSound<V>(dec: seq<byte> -> Option<V>, files: Files, allowed: set<V>)
    requires Sound(dec, files, allowed)
    ensures Resolve(dec, files).Some? ==> Resolve(dec, files).value in allowed
    ensures Recoverable(dec, files) ==> Resolve(dec, files).Some?
  {
  }

  /** `encoded` is an intact record and none of its strict prefixes is. */
  ghost predicate Unmistakable<V>(dec: seq<byte> -> Option<V>, encoded: seq<byte>, v: V) {
    dec(encoded) == Some(v) && forall n :: 0 <= n < |encoded| ==> dec(encoded[..n]).None?
  }

  /** Every state from operation `from` on is sound for `allowed`, and recoverable if `kept`. */
  ghost predicate SoundSince<V>(dec: seq<byte> -> Option<V>, history: seq<Files>, from: nat, allowed: set<V>,
                                kept: bool) {
    from <= |history| && forall i :: from <= i < |history| ==>
      Sound(dec, history[i], allowed) && (kept ==> Recoverable(dec, history[i]))
  }

  /** A reader finds a record, and it is `v` or one that was there `before`. */
  predicate Found<V(==)>(dec: seq<byte> -> Option<V>, files: Files, before: Files, v: V) {
    var found := Resolve(dec, files);
    && found.Some?
    && (found.value == v || found == Holds(dec, before, Active) || found == Holds(dec, before, Temporary)
        || found == Holds(dec, before, Backup))
  }

  /** In every state from operation `from` on a reader finds a record. */
  ghost predicate FoundSince<V>(dec: seq<byte> -> Option<V>, history: seq<Files>, from: nat, before: Files, v: V) {
    from <= |history| && forall i :: from <= i < |history| ==> Found(dec, history[i], before, v)
  }

  /** Soundness over the first part of a history and over the rest. */
  lemma SoundThrough<V>(dec: seq<byte> -> Option<V>, staging: seq<Files>, history: seq<Files>, from: nat,
                        allowed: set<V>, kept: bool)
    requires |staging| <= |history| && history[..|staging|] == staging
    requires SoundSince(dec, staging, from, allowed, kept) && SoundSince(dec, history, |staging|, allowed, kept)
    ensures SoundSince(dec, history, from, allowed, kept)
  {
    hide Sound, Recoverable;
    forall i | from <= i < |history|
      ensures Sound(dec, history[i], allowed) && (kept ==> Recoverable(dec, history[i]))
    {
      if i < |staging| {
        assert history[i] == staging[i];
      }
    }
  }

  /** What was found relative to the staged files was found relative to the files before. */
  lemma FoundThrough<V>(dec: seq<byte> -> Option<V>, staging: seq<Files>, history: seq<Files>, from: nat,
                        staged: Files, before: Files, v: V)
    requires |staging| <= |history| && history[..|staging|] == staging
    requires FoundSince(dec, staging, from, before, v) && FoundSince(dec, history, |staging|, staged, v)
    requires Holds(dec, staged, Temporary) == Some(v) && SameRest(staged, before)
    ensures FoundSince(dec, history, from, before, v)
    ensures forall files :: Found(dec, files, staged, v) ==> Found(dec, files, before, v)
  {
    forall files | Found(dec, files, staged, v) ensures Found(dec, files, before, v) {
    }
    hide Found;
    forall i | from <= i < |history| ensures Found(dec, history[i], before, v) {
      if i < |staging| {
        assert history[i] == staging[i];
      } else {
        assert Found(dec, history[i], staged, v);
      }
    }
  }

  /** Only the temporary file differs. */
  predicate SameRest(a: Files, b: Files) {
    && (Active in a <==> Active in b) && (Active in a ==> a[Active] == b[Active])
    && (Backup in a <==> Backup in b) && (Backup in a ==> a[Backup] == b[Backup])
  }

  lemma SameRestIs(a: Files, b: Files)
    requires a - {Temporary} == b - {Temporary}
    ensures SameRest(a, b)
  {
    assert forall p :: p in a - {Temporary} <==> p in a && p != Temporary;
    assert forall p :: p in b - {Temporary} <==> p in b && p != Temporary;
    assert Active in a ==> (a - {Temporary})[Active] == a[Active];
    assert Backup in a ==> (a - {Temporary})[Backup] == a[Backup];
  }

  lemma StagedIs(a: Files, b: Files, encoded: seq<byte>)
    requires a - {Temporary} == b - {Temporary} && Temporary in a && a[Temporary] == encoded
    ensures a == b[Temporary := encoded]
  {
    SameRestIs(a, b);
    var c := b[Temporary := encoded];
    forall p: Path ensures (p in a <==> p in c) && (p in a ==> a[p] == c[p]) {
      assert p == Active || p == Temporary || p == Backup;
    }
  }

  /** With the temporary file gone, what is found was there before. */
  lemma FoundWithout<V>(dec: seq<byte> -> Option<V>, staged: Files, before: Files, v: V)
    requires SameRest(staged, before) && BackedUp(dec, before)
    ensures Found(dec, staged - {Temporary}, before, v)
  {
  }

  // ---------------------------------------------------------------- what a call can leave behind

  /** The backup removed, the active file moved to the backup, the temporary file moved to the active one. */
  function Unbacked(files: Files): Files {
    files - {Backup}
  }

  function Moved(files: Files): Files
    requires Active in files
  {
    (files - {Backup} - {Active})[Backup := files[Active]]
  }

  function Activated(files: Files): Files
    requires Temporary in files
  {
    (files - {Temporary})[Active := files[Temporary]]
  }

  /** The temporary file in place of the active one, which becomes the backup if there was one. */
  function InPlace(files: Files): Files
    requires Temporary in files
  {
    if Active in files then Activated(Moved(files)) else Activated(files)
  }

  /** What a finished save leaves: the new record active, no temporary file, and as the backup the former
      active file, or the old backup if there was none. */
  lemma InPlaceIs(files: Files, encoded: seq<byte>)
    ensures var after := InPlace(files[Temporary := encoded]);
      && Active in after && after[Active] == encoded && Temporary !in after
      && (Active in files ==> Backup in after && after[Backup] == files[Active])
      && (Active !in files ==> (Backup in after <==> Backup in files))
      && (Active !in files && Backup in files ==> after[Backup] == files[Backup])
  {
  }

  /** A write of the temporary file, whole or torn. */
  ghost predicate StageLeaves(files: Files, encoded: seq<byte>, after: Files) {
    after == files || exists n :: 0 <= n <= |encoded| && after == files[Temporary := encoded[..n]]
  }

  predicate PreserveLeaves(files: Files, after: Files) {
    after == files || after == Unbacked(files) || (Active in files && after == Moved(files))
  }

  predicate ActivateLeaves(files: Files, after: Files)
    requires Temporary in files
  {
    if Active in files then PreserveLeaves(files, after) || after == Activated(Moved(files))
    else after == files || after == Activated(files)
  }

  /** What a save can leave behind, whichever operation fails and wherever power is cut. */
  ghost predicate SaveLeaves(files: Files, encoded: seq<byte>, after: Files) {
    StageLeaves(files, encoded, after) || ActivateLeaves(files[Temporary := encoded], after)
  }

  /** What the repair of a load can leave behind. */
  ghost predicate RepairLeaves(files: Files, encoded: seq<byte>, after: Files) {
    var staged := files[Temporary := encoded];
    || StageLeaves(files, encoded, after) || after == staged - {Active}
    || after == Activated(staged - {Active})
  }

  ghost predicate SaveLeavesSince(history: seq<Files>, from: nat, files: Files, encoded: seq<byte>) {
    from <= |history| && forall i :: from <= i < |history| ==> SaveLeaves(files, encoded, history[i])
  }

  ghost predicate RepairLeavesSince(history: seq<Files>, from: nat, files: Files, encoded: seq<byte>) {
    from <= |history| && forall i :: from <= i < |history| ==> RepairLeaves(files, encoded, history[i])
  }

  /** What the two halves of a save leave behind. */
  lemma SaveLeavesThrough(staging: seq<Files>, history: seq<Files>, from: nat, files: Files, encoded: seq<byte>)
    requires |staging| <= |history| && history[..|staging|] == staging
    requires SaveLeavesSince(staging, from, files, encoded)
    requires forall i :: |staging| <= i < |history| ==> ActivateLeaves(files[Temporary := encoded], history[i])
    ensures SaveLeavesSince(history, from, files, encoded)
  {
    hide ActivateLeaves, StageLeaves;
    forall i | from <= i < |history| ensures SaveLeaves(files, encoded, history[i]) {
      if i < |staging| {
        assert history[i] == staging[i];
      }
    }
  }

  /** The states a repair passes through. */
  lemma RepairPasses(files: Files, encoded: seq<byte>)
    ensures var staged := files[Temporary := encoded];
      && RepairLeaves(files, encoded, files) && RepairLeaves(files, encoded, staged)
      && RepairLeaves(files, encoded, staged - {Active})
      && RepairLeaves(files, encoded, Activated(staged - {Active}))
    ensures forall n :: 0 <= n <= |encoded| ==> RepairLeaves(files, encoded, files[Temporary := encoded[..n]])
  {
    assert encoded[..|encoded|] == encoded;
  }

  lemma SaveLeavesRecoverable<V>(dec: seq<byte> -> Option<V>, files: Files, encoded: seq<byte>, v: V, after: Files)
    requires Unmistakable(dec, encoded, v) && SaveLeaves(files, encoded, after) && Recoverable(dec, files)
    ensures Recoverable(dec, after)
  {
  }

  /** Two saves in a row, each failing or cut anywhere, always leave a record to be found exactly if the files
      before were recoverable: an active file that is there and corrupt, or none and no intact backup, can end
      without any, also if an intact backup was there.  A save looks only at whether the active file exists. */
  lemma RetriesSafe<V>(dec: seq<byte> -> Option<V>, files: Files, first: seq<byte>, v: V, second: seq<byte>, u: V)
    requires Unmistakable(dec, first, v) && Unmistakable(dec, second, u) && first != [] && second != []
    ensures (forall between, after :: SaveLeaves(files, first, between) && SaveLeaves(between, second, after) ==>
        Resolve(dec, after).Some?)
      <==> Recoverable(dec, files)
  {
    if Recoverable(dec, files) {
      forall between, after | SaveLeaves(files, first, between) && SaveLeaves(between, second, after)
        ensures Resolve(dec, after).Some?
      {
        SaveLeavesRecoverable(dec, files, first, v, between);
        SaveLeavesRecoverable(dec, between, second, u, after);
      }
    } else {
      var between := if Active in files then Unbacked(files[Temporary := first]) else files[Temporary := first[..0]];
      var after := between[Temporary := second[..0]];
      assert SaveLeaves(files, first, between) by {
        if Active in files {
          assert PreserveLeaves(files[Temporary := first], between);
        } else {
          assert StageLeaves(files, first, between);
        }
      }
      assert StageLeaves(between, second, after);
      assert dec(first[..0]).None? && dec(second[..0]).None?;
      assert Resolve(dec, after).None?;
    }
  }

  /** Write the temporary file: a torn write is never mistaken for a record. */
  method Stage<V>(m: Medium, encoded: seq<byte>, ghost dec: seq<byte> -> Option<V>, ghost v: V,
                  ghost allowed: set<V>) returns (ok: bool)
    requires Unmistakable(dec, encoded, v) && v in allowed
    modifies m
    ensures Recoverable(dec, old(m.files)) ==> Recoverable(dec, m.files)
    ensures |old(m.history)| <= |m.history| && m.history[..|old(m.history)|] == old(m.history)
    ensures Sound(dec, old(m.files), allowed) ==>
      (Sound(dec, m.files, allowed)
        && SoundSince(dec, m.history, |old(m.history)|, allowed, Recoverable(dec, old(m.files))))
    ensures BackedUp(dec, old(m.files)) ==>
      (BackedUp(dec, m.files) && Found(dec, m.files, old(m.files), v)
        && FoundSince(dec, m.history, |old(m.history)|, old(m.files), v))
    ensures m.files - {Temporary} == old(m.files) - {Temporary}
    ensures ok ==> Temporary in m.files
    ensures ok ==> m.files[Temporary] == encoded || (m.silent && dec(m.files[Temporary]).None?)
    ensures !m.silent ==>
      (StageLeaves(old(m.files), encoded, m.files)
        && SaveLeavesSince(m.history, |old(m.history)|, old(m.files), encoded))
    ensures ok && !m.silent ==> m.files == old(m.files)[Temporary := encoded]
    ensures m.refused >= old(m.refused)
    ensures m.refused == old(m.refused) ==> ok && m.files == old(m.files)[Temporary := encoded]
  {
    ok := m.Write(Temporary, encoded);
    assert encoded[..|encoded|] == encoded;
    if ok {
      ok := m.Sync();
    }
  }

  /** Move the active file to the backup. */
  method Preserve<V>(m: Medium, ghost dec: seq<byte> -> Option<V>, ghost v: V, ghost allowed: set<V>)
      returns (ok: bool)
    requires Holds(dec, m.files, Temporary) == Some(v) && Active in m.files
    modifies m
    ensures Recoverable(dec, old(m.files)) ==> Recoverable(dec, m.files)
    ensures |old(m.history)| <= |m.history| && m.history[..|old(m.history)|] == old(m.history)
    ensures Sound(dec, old(m.files), allowed) ==>
      (Sound(dec, m.files, allowed)
        && SoundSince(dec, m.history, |old(m.history)|, allowed, Recoverable(dec, old(m.files))))
    ensures FoundSince(dec, m.history, |old(m.history)|, old(m.files), v)
    ensures Holds(dec, m.files, Temporary) == Some(v)
    ensures Active in m.files ==> m.files[Active] == old(m.files)[Active]
    ensures Active !in m.files && Backup in m.files ==> m.files[Backup] == old(m.files)[Active]
    ensures ok ==> Active !in m.files && m.files == Moved(old(m.files))
    ensures PreserveLeaves(old(m.files), m.files)
    ensures Active !in m.files ==> m.files == Moved(old(m.files))
    ensures forall i :: |old(m.history)| <= i < |m.history| ==> PreserveLeaves(old(m.files), m.history[i])
    ensures m.refused >= old(m.refused) && (m.refused == old(m.refused) ==> ok)
  {
    ok := m.Remove(Backup);
    if !ok { return; }
    ok := m.Rename(Active, Backup);
    if !ok { return; }
    ok := m.Sync();
  }

  /** Move the active file to the backup and the temporary file to the active one; on failure put
      the backup back if that left no active file. */
  method Activate<V>(m: Medium, ghost dec: seq<byte> -> Option<V>, ghost v: V, ghost allowed: set<V>)
      returns (ok: bool)
    requires Holds(dec, m.files, Temporary) == Some(v) && v in allowed
    modifies m
    ensures Recoverable(dec, old(m.files)) ==> Recoverable(dec, m.files)
    ensures |old(m.history)| <= |m.history| && m.history[..|old(m.history)|] == old(m.history)
    ensures Sound(dec, old(m.files), allowed) ==>
      (Sound(dec, m.files, allowed)
        && SoundSince(dec, m.history, |old(m.history)|, allowed, Recoverable(dec, old(m.files))))
    ensures FoundSince(dec, m.history, |old(m.history)|, old(m.files), v)
    ensures Found(dec, m.files, old(m.files), v)
    ensures ok ==> Holds(dec, m.files, Active) == Some(v) && Temporary !in m.files
    ensures ActivateLeaves(old(m.files), m.files)
    ensures forall i :: |old(m.history)| <= i < |m.history| ==> ActivateLeaves(old(m.files), m.history[i])
    ensures m.refused >= old(m.refused) && (m.refused == old(m.refused) ==> ok)
    ensures ok ==> m.files == InPlace(old(m.files))
  {
    var hadActive := Active in m.files;
    if hadActive {
      ok := Preserve(m, dec, v, allowed);
      if !ok { return; }
    }
    ok := m.Rename(Temporary, Active);
    if ok {
      ok := m.Sync();
      if ok {
        ok := m.Sync();
      }
    }
    if !ok && hadActive && Active !in m.files && Backup in m.files {
      var restored := m.Rename(Backup, Active);
      var _ := m.Sync();
    }
  }

  /** Give up a temporary file that does not read back. */
  method Discard<V>(m: Medium, ghost dec: seq<byte> -> Option<V>, ghost v: V, ghost allowed: set<V>,
                    ghost kept: bool, ghost before: Files, ghost from: nat)
    requires SameRest(m.files, before)
    modifies m
    ensures m.refused >= old(m.refused)
    ensures |old(m.history)| <= |m.history| && m.history[..|old(m.history)|] == old(m.history)
    ensures Recoverable(dec, old(m.files)) ==> Recoverable(dec, m.files)
    ensures Sound(dec, old(m.files), allowed) ==> Sound(dec, m.files, allowed)
    ensures
      (Sound(dec, old(m.files), allowed) && (kept ==> Recoverable(dec, old(m.files)))
        && SoundSince(dec, old(m.history), from, allowed, kept)) ==>
      SoundSince(dec, m.history, from, allowed, kept)
    ensures
      (BackedUp(dec, before) && Found(dec, old(m.files), before, v)
        && FoundSince(dec, old(m.history), from, before, v)) ==>
      (Found(dec, m.files, before, v) && FoundSince(dec, m.history, from, before, v))
  {
    if BackedUp(dec, before) {
      FoundWithout(dec, m.files, before, v);
    }
    hide Found;
    var _ := m.Remove(Temporary);
  }

  /** What a repair leaves behind is as good as what it found. */
  lemma RepairKeeps<V>(dec: seq<byte> -> Option<V>, files: Files, encoded: seq<byte>, v: V, allowed: set<V>,
                       after: Files)
    requires Unmistakable(dec, encoded, v) && Holds(dec, files, Active).None? && Resolve(dec, files) == Some(v)
    requires RepairLeaves(files, encoded, after)
    ensures Sound(dec, files, allowed) ==> Sound(dec, after, allowed)
    ensures Recoverable(dec, files) ==> Recoverable(dec, after)
  {
    assert encoded[..|encoded|] == encoded;
  }

  /** Write the temporary file and move it into place. */
  method Repair(m: Medium, encoded: seq<byte>) returns (ok: bool)
    modifies m
    ensures |old(m.history)| <= |m.history| && m.history[..|old(m.history)|] == old(m.history)
    ensures !m.silent ==>
      (RepairLeaves(old(m.files), encoded, m.files)
        && RepairLeavesSince(m.history, |old(m.history)|, old(m.files), encoded))
    ensures Backup in m.files <==> Backup in old(m.files)
    ensures Backup in m.files ==> m.files[Backup] == old(m.files)[Backup]
    ensures ok && !m.silent ==> m.files == Activated(old(m.files)[Temporary := encoded] - {Active})
    ensures m.refused >= old(m.refused)
    ensures m.refused == old(m.refused) ==>
      ok && m.files == Activated(old(m.files)[Temporary := encoded] - {Active})
  {
    RepairPasses(m.files, encoded);
    hide RepairLeaves;
    ok := m.Write(Temporary, encoded);
    if !ok { return; }
    ok := m.Sync();
    if !ok { return; }
    ok := m.Remove(Active);
    if !ok { return; }
    ok := m.Rename(Temporary, Active);
    if !ok { return; }
    ok := m.Sync();
    if !ok { return; }
    ok := m.Sync();
  }

  /** Copy a recovered record back to the active file, without reading it back. */
  method CopyBack<V>(m: Medium, encoded: seq<byte>, ghost dec: seq<byte> -> Option<V>, ghost v: V,
                     ghost allowed: set<V>) returns (ok: bool)
    requires Unmistakable(dec, encoded, v) && Holds(dec, m.files, Active).None?
    requires Resolve(dec, m.files) == Some(v)
    modifies m
    ensures ok && !m.silent ==> Holds(dec, m.files, Active) == Some(v)
    ensures BackedUp(dec, old(m.files)) ==> BackedUp(dec, m.files)
    ensures |old(m.history)| <= |m.history| && m.history[..|old(m.history)|] == old(m.history)
    ensures !m.silent && Sound(dec, old(m.files), allowed) ==>
      (Sound(dec, m.files, allowed)
        && SoundSince(dec, m.history, |old(m.history)|, allowed, Recoverable(dec, old(m.files))))
    ensures !m.silent && Recoverable(dec, old(m.files)) ==> Recoverable(dec, m.files)
    ensures !m.silent ==>
      (RepairLeaves(old(m.files), encoded, m.files)
        && RepairLeavesSince(m.history, |old(m.history)|, old(m.files), encoded))
    ensures ok && !m.silent ==> m.files == Activated(old(m.files)[Temporary := encoded] - {Active})
    ensures m.refused >= old(m.refused)
    ensures m.refused == old(m.refused) ==>
      ok && m.files == Activated(old(m.files)[Temporary := encoded] - {Active})
  {
    ghost var files := m.files;
    ok := Repair(m, encoded);
    hide RepairLeaves, Sound, Recoverable;
    if !m.silent {
      RepairKeeps(dec, files, encoded, v, allowed, m.files);
      forall i | |old(m.history)| <= i < |m.history|
        ensures Sound(dec, files, allowed) ==> Sound(dec, m.history[i], allowed)
        ensures Recoverable(dec, files) ==> Recoverable(dec, m.history[i])
      {
        RepairKeeps(dec, files, encoded, v, allowed, m.history[i]);
      }
    }
  }
}
