/**
 The two protocols that replace the live pair of files, store and revision marker: key
 rotation and staged recovery. The file system may refuse any set of operations,
 compensations included. A refused operation changes nothing, so a crash before
 operation n leaves what a run leaves whose operations are refused from n on: a statement
 about every set of refusals covers a crash between any two steps.
 */
module FileSwap {
  import opened Prelude
  import opened Aead
  import opened RecordCodec
  import opened StoreFile
  import opened StoreProtocol
  import opened EncryptedStores
  import RecoveryArtifact

  datatype Path = Live | LiveMarker | Aside | AsideMarker | Staged | StagedMarker | Check | CheckMarker | Pending

  // What each path holds.
  datatype Files = Files(live: Disk, aside: Disk, staged: Disk, check: Disk, pending: Option<Bytes>)

  function At(f: Files, p: Path): Option<Bytes> {
    match p
    case Live => f.live.store
    case LiveMarker => f.live.marker
    case Aside => f.aside.store
    case AsideMarker => f.aside.marker
    case Staged => f.staged.store
    case StagedMarker => f.staged.marker
    case Check => f.check.store
    case CheckMarker => f.check.marker
    case Pending => f.pending
  }

  function With(f: Files, p: Path, contents: Option<Bytes>): (g: Files)
    ensures forall q :: At(g, q) == if q == p then contents else At(f, q)
  {
    match p
    case Live => f.(live := f.live.(store := contents))
    case LiveMarker => f.(live := f.live.(marker := contents))
    case Aside => f.(aside := f.aside.(store := contents))
    case AsideMarker => f.(aside := f.aside.(marker := contents))
    case Staged => f.(staged := f.staged.(store := contents))
    case StagedMarker => f.(staged := f.staged.(marker := contents))
    case Check => f.(check := f.check.(store := contents))
    case CheckMarker => f.(check := f.check.(marker := contents))
    case Pending => f.(pending := contents)
  }

  // Each file of the earlier live pair is still there, live or set aside.
  predicate OldKept(f: Files, before: Disk) {
    && (before.store.Some? ==> f.live.store == before.store || f.aside.store == before.store)
    && (before.marker.Some? ==> f.live.marker == before.marker || f.aside.marker == before.marker)
  }

  // The four renames of a swap.
  predicate SwapWorks(fails: nat -> bool, at: nat) {
    !fails(at) && !fails(at + 1) && !fails(at + 2) && !fails(at + 3)
  }

  // After the failure of swap rename number `stage`, the renames that put the old pair back go through.
  predicate UndoWorks(fails: nat -> bool, at: nat, stage: nat) {
    match stage
    case 0 => true
    case 1 => !fails(at + 1)
    case 2 => !fails(at + 1) && !fails(at + 2)
    case _ => !fails(at + 2) && !fails(at + 3)
  }

  // The file system refuses none of these operations.
  predicate Allowed(fails: nat -> bool, from: nat, to: nat) {
    forall k :: from <= k < to ==> !fails(k)
  }

  // How the first writes of a new store end, and whether the clean-up after a failed one gets through.
  datatype StartEnv = StartEnv(storeWrite: Write, markerWrite: Write, storeRemoved: bool, markerRemoved: bool)

  // What a file operation was, for naming the one that failed.
  datatype FileOp = Opened | Renamed(from: Path, to: Path) | Removed(path: Path) | Wrote(path: Path) | Looked(path: Path)

  datatype SwapError = FileRefused | InvalidRecovery | Storage(error: StorageError)

  class Folder {
    var files: Files
    var clock: nat           // file operations so far
    const fails: nat -> bool // the operations the file system refuses
    ghost var last: FileOp   // the latest one

    constructor (files: Files, fails: nat -> bool)
      ensures this.files == files && this.fails == fails && clock == 0
    {
      this.files, this.fails, this.clock, this.last := files, fails, 0, Opened;
    }

    // rename: refused, or without a source, it changes nothing; otherwise it replaces the target.
    method Rename(from: Path, to: Path) returns (ok: bool)
      modifies this
      ensures ok == (!fails(old(clock)) && At(old(files), from).Some?)
      ensures files == if ok then With(With(old(files), from, None), to, At(old(files), from)) else old(files)
      ensures clock == old(clock) + 1 && last == Renamed(from, to)
    {
      ok := !fails(clock) && At(files, from).Some?;
      if ok {
        files := With(With(files, from, None), to, At(files, from));
      }
      clock, last := clock + 1, Renamed(from, to);
    }

    method Remove(p: Path) returns (ok: bool)
      modifies this
      ensures ok == (!fails(old(clock)) && At(old(files), p).Some?)
      ensures files == if ok then With(old(files), p, None) else old(files)
      ensures clock == old(clock) + 1 && last == Removed(p)
    {
      ok := !fails(clock) && At(files, p).Some?;
      if ok {
        files := With(files, p, None);
      }
      clock, last := clock + 1, Removed(p);
    }

    // The command line's atomic_write: its last step is the rename, so a failure changes nothing.
    method Write(p: Path, contents: Bytes) returns (ok: bool)
      modifies this
      ensures ok == !fails(old(clock))
      ensures files == if ok then With(old(files), p, Some(contents)) else old(files)
      ensures clock == old(clock) + 1 && last == Wrote(p)
    {
      ok := !fails(clock);
      if ok {
        files := With(files, p, Some(contents));
      }
      clock, last := clock + 1, Wrote(p);
    }

    method Read(p: Path) returns (r: Option<Bytes>)
      modifies this`clock, this`last
      ensures r == (if fails(old(clock)) then None else At(files, p)) && clock == old(clock) + 1 && last == Looked(p)
    {
      r := if fails(clock) then None else At(files, p);
      clock, last := clock + 1, Looked(p);
    }

    // ---- key rotation ----

    // The four renames of rotate, each with its own compensation. `at` is the operation that failed.
    method SwapIn() returns (ok: bool, ghost at: nat)
      requires files.live.store.Some? && files.live.marker.Some?
      requires files.staged.store.Some? && files.staged.marker.Some?
      modifies this
      ensures ok ==> files.live == old(files.staged)
      ensures ok <==> SwapWorks(fails, old(clock))
      ensures ok && !fails(old(clock) + 4) && !fails(old(clock) + 5) ==> files.aside == files.staged == Disk(None, None)
      ensures !ok ==> old(clock) <= at <= old(clock) + 3 && fails(at)
      ensures !ok && UndoWorks(fails, at, at - old(clock)) ==> files.live == old(files.live)
      ensures !ok && old(files.staged.store != files.live.store) && !UndoWorks(fails, at, at - old(clock)) ==>
                files.live != old(files.live)
      ensures OldKept(files, old(files.live)) || files.live == old(files.staged)
    {
      at := clock;
      ok := Rename(Live, Aside);
      if !ok {
        var _ := Remove(Staged);
        var _ := Remove(StagedMarker);
        return;
      }
      at := clock;
      ok := Rename(LiveMarker, AsideMarker);
      if !ok {
        var _ := Rename(Aside, Live);
        var _ := Remove(Staged);
        var _ := Remove(StagedMarker);
        return;
      }
      at := clock;
      ok := Rename(Staged, Live);
      if !ok {
        var _ := Rename(Aside, Live);
        var _ := Rename(AsideMarker, LiveMarker);
        var _ := Remove(StagedMarker);
        return;
      }
      at := clock;
      ok := Rename(StagedMarker, LiveMarker);
      if !ok {
        var _ := Remove(Live);
        var _ := Rename(Aside, Live);
        var _ := Rename(AsideMarker, LiveMarker);
        return;
      }
      var _ := Remove(Aside);
      var _ := Remove(AsideMarker);
    }

    // rekey_to: the records of the opened store in a new pair beside the live one.
    method StageCopy(current: EncryptedStore, rekeyed: Vault, nonce: Nonce, start: StartEnv, env: CommitEnv)
      returns (r: Result<(), SwapError>)
      requires Lawful(rekeyed.aead) && Settled(current.vault, current.State())
      modifies this
      ensures files == old(files).(staged := files.staged) && clock == old(clock) + 2
      ensures r.Ok? <==> Copies(fails, old(clock), old(files), start, env)
      ensures r.Ok? ==> files.staged.store.Some? && files.staged.marker.Some?
      ensures r.Ok? ==> OpensTo(rekeyed, files.staged, View(current.records, 1))
    {
      hide Apply, Settled, OpensTo, SortedEntries, PutAll, SealRecords, Encode, OpenFile, Open, StepDisks, Initialized;
      SettledPair(current.vault, current.State());
      var _ := Remove(Staged);
      var _ := Remove(StagedMarker);
      var created, disk, _ := EncryptedStore.Create(rekeyed, nonce, files.staged, start.storeWrite, start.markerWrite,
                                                 start.storeRemoved, start.markerRemoved);
      files := files.(staged := disk);
      if created.Err? {
        return Err(Storage(created.error));
      }
      var replacement := created.value;
      RekeyKeepsRecords(current.vault, current.State(), rekeyed, nonce, env);
      RekeySucceeds(current.vault, current.State(), rekeyed, nonce, env);
      var done := replacement.ApplyBatch(PutAll(SortedEntries(current.records)), env);
      files := files.(staged := replacement.disk);
      if done.Err? {
        return Err(Storage(done.error));
      }
      SettledPair(rekeyed, replacement.State());
      r := Ok(());
    }

    // rotate, from the opened store on: a re-encrypted copy beside the live pair, then the swap.
    method Rotate(current: EncryptedStore, rekeyed: Vault, nonce: Nonce, start: StartEnv, env: CommitEnv)
      returns (r: Result<(), SwapError>, ghost at: nat)
      requires Lawful(rekeyed.aead) && Settled(current.vault, current.State()) && current.disk == files.live
      modifies this
      ensures r.Ok? <==>
                Copies(fails, old(clock), old(files), start, env) && SwapWorks(fails, old(clock) + 2)
      ensures r.Ok? ==> OpensTo(rekeyed, files.live, View(current.records, 1))
      ensures r.Err? && (forall k :: at < k ==> !fails(k)) ==> files.live == old(files.live)
      ensures OldKept(files, old(files.live)) || OpensTo(rekeyed, files.live, View(current.records, 1))
    {
      hide Settled, OpensTo;
      SettledPair(current.vault, current.State());
      at := clock;
      r := StageCopy(current, rekeyed, nonce, start, env);
      if r.Err? {
        return;
      }
      var ok;
      ok, at := SwapIn();
      if !ok {
        r := Err(FileRefused);
      }
    }

    // ---- staged recovery ----

    // The checks before any live file moves: the artifact parses, opens under the passphrase's
    // key and names an authorized device.
    method CheckCandidate(t: RecoveryArtifact.Tools, aead: Aead, key: Bytes, authorized: Records -> bool)
      returns (r: Result<(Bytes, Bytes), SwapError>)
      modifies this
      ensures files == old(files).(check := files.check) && old(clock) < clock
      ensures r.Ok? ==> Candidate(t, aead, key, authorized, files.pending, r.value) && files.check == Disk(None, None)
      ensures Allowed(fails, old(clock), clock) && files.pending.Some? ==>
                && (r.Ok? <==> HasCandidate(t, aead, key, authorized, files.pending))
                && (r.Err? ==> r.error == RefusalOf(t, aead, key, files.pending.value))
                && files.check == if RecoveryArtifact.ParseArtifact(t, files.pending.value).Ok? then Disk(None, None) else old(files).check
    {
      hide Open, RecoveryArtifact.ParseArtifact;
      var artifact := Read(Pending);
      if artifact.None? {
        return Err(FileRefused);
      }
      var parsed := RecoveryArtifact.ParseArtifact(t, artifact.value);
      if parsed.Err? {
        return Err(InvalidRecovery);
      }
      var (store, marker) := parsed.value;
      var stored := Write(Check, store);
      if !stored {
        return Err(FileRefused);
      }
      var marked := Write(CheckMarker, marker);
      if !marked {
        return Err(FileRefused);
      }
      var view := Open(aead, key, files.check);
      var unstored := Remove(Check);
      if view.Err? {
        var _ := Remove(CheckMarker);
        return Err(Storage(view.error));
      }
      if !unstored {
        return Err(FileRefused);
      }
      var unmarked := Remove(CheckMarker);
      if !unmarked {
        return Err(FileRefused);
      }
      if !authorized(view.value.records) {
        return Err(InvalidRecovery);
      }
      r := Ok((store, marker));
    }

    // Moves whichever live files exist aside.
    method MoveAside() returns (ok: bool, ghost at: nat)
      requires files.aside == Disk(None, None)
      modifies this
      ensures ok ==> files == old(files).(live := Disk(None, None), aside := old(files).live)
      ensures old(clock) <= clock && (!ok ==> old(clock) <= at < clock && fails(at))
      ensures !ok ==> files.pending == old(files).pending
      ensures !ok && (forall k :: at < k < clock ==> !fails(k)) ==> files.live == old(files).live
      ensures OldKept(files, old(files).live)
    {
      at := clock;
      var movedStore := files.live.store.Some?;
      if movedStore {
        ok := Rename(Live, Aside);
        if !ok {
          return;
        }
      }
      if files.live.marker.Some? {
        at := clock;
        ok := Rename(LiveMarker, AsideMarker);
        if !ok {
          if movedStore {
            var _ := Rename(Aside, Live);
          }
          return;
        }
      }
      ok := true;
    }

    // Writes the candidate where the live pair was, and puts the pair set aside back if a write fails.
    method WriteCandidate(store: Bytes, marker: Bytes) returns (ok: bool, ghost at: nat)
      requires files.live == Disk(None, None)
      modifies this
      ensures ok ==> files == old(files).(live := Disk(Some(store), Some(marker)))
      ensures old(clock) <= clock && (!ok ==> old(clock) <= at < clock && fails(at))
      ensures !ok ==> files.pending == old(files).pending
      ensures !ok && (forall k :: at < k < clock ==> !fails(k)) ==> files.live == old(files).aside
      ensures OldKept(files, old(files).aside)
    {
      at := clock;
      ok := Write(Live, store);
      if ok {
        at := clock;
        ok := Write(LiveMarker, marker);
      }
      if !ok {
        var _ := Remove(Live);
        var _ := Remove(LiveMarker);
        if files.aside.store.Some? {
          var _ := Rename(Aside, Live);
        }
        if files.aside.marker.Some? {
          var _ := Rename(AsideMarker, LiveMarker);
        }
      }
    }

    method InstallCandidate(store: Bytes, marker: Bytes) returns (r: Result<(), SwapError>, ghost at: nat)
      requires files.pending.Some?
      modifies this
      ensures r.Ok? ==> files.live == Disk(Some(store), Some(marker)) && files.pending.None?
      ensures old(clock) <= clock
      ensures Allowed(fails, old(clock), clock) ==>
                && (r.Ok? <==> old(files).aside == Disk(None, None)) && (r.Err? ==> r.error == InvalidRecovery)
                && files.aside == old(files).aside
      ensures r.Err? && (forall k :: at < k < clock ==> !fails(k)) ==>
                || files.live == old(files).live
                || (files.live == Disk(Some(store), Some(marker)) && files.pending == old(files).pending
                    && fails(at) && at + 1 == clock && last == Removed(Pending))
      ensures OldKept(files, old(files).live) || files.live == Disk(Some(store), Some(marker))
    {
      at := clock;
      if files.aside != Disk(None, None) {
        return Err(InvalidRecovery), at;
      }
      var ok;
      ok, at := MoveAside();
      if !ok {
        return Err(FileRefused), at;
      }
      ok, at := WriteCandidate(store, marker);
      if !ok {
        return Err(FileRefused), at;
      }
      var _ := Remove(Aside);
      var _ := Remove(AsideMarker);
      at := clock;
      ok := Remove(Pending);
      r := if ok then Ok(()) else Err(FileRefused);
    }

    method ApplyPendingRecovery(t: RecoveryArtifact.Tools, aead: Aead, key: Bytes, authorized: Records -> bool)
      returns (r: Result<(), SwapError>, ghost at: nat)
      modifies this
      ensures old(files.pending).None? ==> r.Ok? && files == old(files)
      ensures old(files.pending).Some? && r.Ok? ==>
                files.pending.None? && Recovered(t, aead, key, authorized, old(files.pending), files.live)
      ensures old(clock) <= clock
      ensures old(files.pending).Some? && Allowed(fails, old(clock), clock) ==>
                && (r.Ok? <==> HasCandidate(t, aead, key, authorized, old(files.pending)) && old(files.aside) == Disk(None, None))
                && files.aside == old(files.aside)
      ensures r.Err? && (forall k :: at < k < clock ==> !fails(k)) ==>
                || files.live == old(files.live)
                || (Recovered(t, aead, key, authorized, old(files.pending), files.live) && files.pending == old(files.pending)
                    && fails(at) && at + 1 == clock && last == Removed(Pending))
      ensures OldKept(files, old(files.live)) || Recovered(t, aead, key, authorized, old(files.pending), files.live)
    {
      hide Candidate;
      at := clock;
      if files.pending.None? {
        return Ok(()), at;
      }
      var checked := CheckCandidate(t, aead, key, authorized);
      if checked.Err? {
        return Err(checked.error), at;
      }
      var (store, marker) := checked.value;
      assert Candidate(t, aead, key, authorized, old(files.pending), (store, marker));
      r, at := InstallCandidate(store, marker);
    }
  }

  // What apply_pending_recovery may install: the pair of the pending artifact, opened and authorized.
  ghost predicate Candidate(t: RecoveryArtifact.Tools, aead: Aead, key: Bytes, authorized: Records -> bool,
                            pending: Option<Bytes>, pair: (Bytes, Bytes))
  {
    && pending.Some? && RecoveryArtifact.ParseArtifact(t, pending.value) == Ok(pair)
    && Open(aead, key, Disk(Some(pair.0), Some(pair.1))).Ok?
    && authorized(Open(aead, key, Disk(Some(pair.0), Some(pair.1))).value.records)
  }

  ghost predicate HasCandidate(t: RecoveryArtifact.Tools, aead: Aead, key: Bytes, authorized: Records -> bool, pending: Option<Bytes>) {
    exists pair :: Candidate(t, aead, key, authorized, pending, pair)
  }

  // Why an artifact is no candidate.
  function RefusalOf(t: RecoveryArtifact.Tools, aead: Aead, key: Bytes, artifact: Bytes): SwapError {
    match RecoveryArtifact.ParseArtifact(t, artifact)
    case Err(_) => InvalidRecovery
    case Ok((store, marker)) =>
      match Open(aead, key, Disk(Some(store), Some(marker)))
      case Err(e) => Storage(e)
      case Ok(_) => InvalidRecovery  // no authorized device
  }

  // Told before the call: nothing is left of an earlier copy, or it can be removed, and every write works.
  predicate Copies(fails: nat -> bool, at: nat, f: Files, start: StartEnv, env: CommitEnv) {
    && (f.staged.store.None? || !fails(at))
    && start.storeWrite == Done && start.markerWrite == Done && env.prepared && Succeeds(env)
  }

  // Whatever a settled store holds fits the copy.
  lemma RekeySucceeds(v: Vault, s: StoreState, rekeyed: Vault, nonce: Nonce, env: CommitEnv)
    requires Lawful(rekeyed.aead) && Settled(v, s)
    ensures Encode(map[]).Ok?
    ensures Apply(rekeyed, Initialized(rekeyed, nonce), Batch(PutAll(SortedEntries(s.records))), env).result.Ok?
            <==> env.prepared && Succeeds(env)
  {
    hide Open, SealRecords, Encode, SortedEntries, ReadMarker, Apply, ValidKey;
    InitializedSettled(rekeyed, nonce);
    var es := SortedEntries(s.records);
    PutAllMap(es);
    SortedEntriesMap(s.records);
    OpenedWithinLimits(v.aead, v.key, s.disk);
    CopiedEntriesOk(s.records);
    OperationSucceeds(rekeyed, Initialized(rekeyed, nonce), Batch(PutAll(es)), env);
  }

  lemma CopiedEntriesOk(records: Records)
    requires RecordsOk(records)
    ensures BatchOk(PutAll(SortedEntries(records)))
  {
    hide SortedEntries, ValidKey;
    var es := SortedEntries(records);
    forall i | 0 <= i < |es| ensures EntryOk(es[i]) {
      assert es[i] == Entry(es[i].id, records[es[i].id]);
    }
  }

  ghost predicate Recovered(t: RecoveryArtifact.Tools, aead: Aead, key: Bytes, authorized: Records -> bool,
                            pending: Option<Bytes>, live: Disk)
  {
    live.store.Some? && live.marker.Some? && Candidate(t, aead, key, authorized, pending, (live.store.value, live.marker.value))
  }

  // An accepted artifact's marker is its file's own revision, so checking it opens the pair as it stands.
  lemma CheckingWritesNoMarker(t: RecoveryArtifact.Tools, aead: Aead, key: Bytes, artifact: Bytes)
    ensures RecoveryArtifact.ParseArtifact(t, artifact).Ok? ==>
              var (store, marker) := RecoveryArtifact.ParseArtifact(t, artifact).value;
              var disk := Disk(Some(store), Some(marker));
              Open(aead, key, disk).Ok? ==> OpenedDisk(Open(aead, key, disk).value, disk) == disk
  {
    hide RecoveryArtifact.SplitArtifact, ParseFile, Decode;
  }

  // A settled store has both its files.
  lemma SettledPair(v: Vault, s: StoreState)
    requires Settled(v, s)
    ensures s.disk.store.Some? && s.disk.marker.Some? && Agrees(v, s)
    ensures OpensTo(v, s.disk, View(s.records, s.revision))
  {
    hide OpenFile;
  }
}
