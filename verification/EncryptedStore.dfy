/** The store object: records and revision in memory, and the two files it keeps in place. */
module EncryptedStores {
  import opened Prelude
  import opened Text
  import opened Aead
  import opened RecordCodec
  import opened StoreFile
  import opened StoreProtocol

  class EncryptedStore {
    const vault: Vault
    var records: Records
    var revision: U64
    var locked: bool
    var disk: Disk
    ghost var passed: seq<Disk>  // every disk a file step has left behind, for a crash to find

    function State(): StoreState
      reads this
    {
      StoreState(records, revision, locked, disk)
    }

    // The store a successful initialization holds.
    constructor Initialize(vault: Vault, nonce: Nonce)
      requires Lawful(vault.aead)
      ensures this.vault == vault
      ensures Encode(map[]).Ok? && State() == Initialized(vault, nonce) && Settled(vault, State())
      ensures passed == [disk]
    {
      EmptyEncodes();
      InitializedSettled(vault, nonce);
      this.vault := vault;
      this.records, this.revision, this.locked := map[], 0, false;
      this.disk := Initialized(vault, nonce).disk;
      this.passed := [Initialized(vault, nonce).disk];
    }

    // The store a successful open holds, the marker brought up to date.
    constructor Reopen(vault: Vault, found: Disk)
      requires Open(vault.aead, vault.key, found).Ok?
      ensures this.vault == vault
      ensures Settled(vault, State()) && View(records, revision) == Open(vault.aead, vault.key, found).value
      ensures disk == OpenedDisk(View(records, revision), found)
    {
      var view := Open(vault.aead, vault.key, found).value;
      OpenIsRepeatable(vault.aead, vault.key, found);
      this.vault := vault;
      this.records, this.revision, this.locked := view.records, view.revision, false;
      this.disk := OpenedDisk(view, found);
      this.passed := [OpenedDisk(view, found)];
    }

    // initialize_with_key: never over an existing store, and a failed first write is cleaned up.
    static method Create(vault: Vault, nonce: Nonce, found: Disk, storeWrite: Write, markerWrite: Write,
                         storeRemoved: bool, markerRemoved: bool)
      returns (r: Result<EncryptedStore, StorageError>, disk: Disk, ghost passed: seq<Disk>)
      requires Lawful(vault.aead)
      ensures r.Ok? <==> found.store.None? && storeWrite == Done && markerWrite == Done
      ensures r.Ok? ==> fresh(r.value) && r.value.vault == vault && Encode(map[]).Ok?
                        && r.value.State() == Initialized(vault, nonce) && r.value.disk == disk
      ensures found.store.Some? ==> r == Err(CorruptStore) && disk == found
      ensures r.Err? && found.store.None? && storeRemoved ==> disk.store.None?
      ensures r.Err? && found.store.None? && markerRemoved ==> disk.marker.None?
      ensures r.Err? && found.store.None? && disk.store.Some? ==>
                OpenFile(vault.aead, vault.key, disk.store.value) == Ok(View(map[], 0))
      // where there were no files, a crash anywhere leaves no store, or one that opens empty
      ensures passed != [] && passed[0] == found && passed[|passed| - 1] == disk
      ensures found == Disk(None, None) ==>
                forall i :: 0 <= i < |passed| && passed[i].store.Some? ==> OpensTo(vault, passed[i], View(map[], 0))
    {
      hide OpenFile, Settled, Encode, SealRecords, Open, ReadMarker;
      disk, passed := found, [found];
      if found.store.Some? {
        return Err(CorruptStore), disk, passed;
      }
      InitialDisks(vault, nonce);
      EmptyEncodes();
      SealedOpens(vault, View(map[], 0), nonce);
      var files := Initialized(vault, nonce).disk;
      disk := WriteStore(disk, files.store, storeWrite);
      passed := passed + [disk];
      if storeWrite == Done {
        disk := WriteMarker(disk, files.marker, markerWrite);
        passed := passed + [disk];
      }
      if storeWrite != Done || markerWrite != Done {
        if storeRemoved {
          disk := disk.(store := None);
        }
        passed := passed + [disk];
        if markerRemoved {
          disk := disk.(marker := None);
        }
        passed := passed + [disk];
        return Err(Io), disk, passed;
      }
      var store := new EncryptedStore.Initialize(vault, nonce);
      r := Ok(store);
    }

    // open_with_key: a missing or older marker is rewritten, and a failure to do so loses nothing.
    static method OpenFiles(vault: Vault, found: Disk, markerWrite: Write)
      returns (r: Result<EncryptedStore, StorageError>, disk: Disk)
      ensures Open(vault.aead, vault.key, found).Err? ==>
                r.Err? && r.error == Open(vault.aead, vault.key, found).error && disk == found
      ensures Open(vault.aead, vault.key, found).Ok? ==>
                var view := Open(vault.aead, vault.key, found).value;
                && OpensTo(vault, disk, view)
                && (r.Err? <==> OpenedDisk(view, found) != found && markerWrite != Done)
                && (r.Ok? ==> fresh(r.value) && r.value.vault == vault && Settled(vault, r.value.State())
                              && View(r.value.records, r.value.revision) == view && r.value.disk == disk)
    {
      hide OpenFile, ReadMarker;
      disk := found;
      var read := Open(vault.aead, vault.key, found);
      if read.Err? {
        return Err(read.error), disk;
      }
      OpenIsRepeatable(vault.aead, vault.key, found);
      if OpenedDisk(read.value, found) != found {
        if Landed(markerWrite) {
          disk := OpenedDisk(read.value, found);
        }
        if markerWrite != Done {
          return Err(Io), disk;
        }
      }
      var store := new EncryptedStore.Reopen(vault, found);
      r := Ok(store);
    }

    // atomic_write on the store file.
    method WriteStoreFile(contents: Option<Bytes>, w: Write) returns (ok: bool)
      modifies this`disk, this`passed
      ensures disk == WriteStore(old(disk), contents, w) && passed == old(passed) + [disk]
      ensures ok == (w == Done)
    {
      if Landed(w) {
        disk := disk.(store := contents);
      }
      passed := passed + [disk];
      ok := w == Done;
    }

    // atomic_write, or removal, of the revision marker.
    method WriteMarkerFile(contents: Option<Bytes>, w: Write) returns (ok: bool)
      modifies this`disk, this`passed
      ensures disk == WriteMarker(old(disk), contents, w) && passed == old(passed) + [disk]
      ensures ok == (w == Done)
    {
      if Landed(w) {
        disk := disk.(marker := contents);
      }
      passed := passed + [disk];
      ok := w == Done;
    }

    // The file steps of a commit: every disk it passes through is one of CommitDisks.
    method ReplaceFiles(store: Bytes, marker: Bytes, env: CommitEnv) returns (ok: bool)
      modifies this`disk, this`passed
      ensures ok == Succeeds(env)
      ensures var disks := CommitDisks(old(disk), store, marker, env);
              disk == disks[|disks| - 1] && passed == old(passed) + disks[1..]
    {
      var previousStore, previousMarker := disk.store, disk.marker;
      ok := WriteStoreFile(Some(store), env.storeWrite);
      if !ok {
        return;
      }
      ok := WriteMarkerFile(Some(marker), env.markerWrite);
      if !ok {
        var storeRestored := WriteStoreFile(previousStore, env.storeRestore);
        var markerRestored := WriteMarkerFile(previousMarker, env.markerRestore);
      }
    }

    // Commits the records now in memory; on failure they stay as the caller staged them.
    method Commit(env: CommitEnv) returns (r: Result<(), StorageError>)
      modifies this`disk, this`passed, this`revision
      ensures locked ==> r == Err(Locked) && unchanged(this)
      ensures !locked ==>
                var step := Attempt(vault, old(State()), records, env);
                r == step.result && disk == step.state.disk && revision == step.state.revision
      ensures !locked ==> passed == old(passed) + AttemptDisks(vault, old(State()), records, env)
    {
      hide Encode, SealRecords, CommitDisks, Decimal;
      if locked {
        return Err(Locked);
      }
      if |records| > MAX_RECORDS {
        return Err(TooManyRecords);
      }
      if revision == MAX_U64 {
        return Err(RollbackDetected);
      }
      var plain := EncodeRecords(records);
      if plain.Err? {
        return Err(plain.error);
      }
      if !env.prepared || disk.store.None? {
        return Err(Io);
      }
      var next := View(records, revision + 1);
      var ok := ReplaceFiles(SealRecords(vault, next, env.nonce), Decimal(next.revision), env);
      if !ok {
        return Err(Io);
      }
      revision := revision + 1;
      r := Ok(());
    }

    method PutRecord(id: RecordId, value: Bytes, env: CommitEnv) returns (r: Result<(), StorageError>)
      modifies this
      ensures Carry(Step(State(), r)) == Apply(vault, old(State()), PutOne(id, value), env)
      ensures passed == old(passed) + StepDisks(vault, old(State()), PutOne(id, value), env)
    {
      hide Attempt, AttemptDisks, ValidKey;
      if locked {
        return Err(Locked);
      }
      if !ValidKey(id.key) {
        return Err(RecordTooLarge);
      }
      if |value| > MAX_VALUE_BYTES {
        return Err(RecordTooLarge);
      }
      var previous := if id in records then Some(records[id]) else None;
      ghost var before := records;
      records := records[id := value];
      CommitOfStaged(vault, old(State()), records, env);
      r := Commit(env);
      if r.Err? {
        if previous.Some? {
          records := records[id := previous.value];
        } else {
          records := records - {id};
        }
        assert records == before;
      }
    }

    method DeleteRecord(id: RecordId, env: CommitEnv) returns (r: Result<bool, StorageError>)
      modifies this
      ensures Step(State(), r) == Apply(vault, old(State()), DeleteOne(id), env)
      ensures passed == old(passed) + StepDisks(vault, old(State()), DeleteOne(id), env)
    {
      hide Attempt, AttemptDisks, ValidKey;
      if locked {
        return Err(Locked);
      }
      if id !in records {
        return Ok(false);
      }
      var previous := records[id];
      ghost var before := records;
      records := records - {id};
      CommitOfStaged(vault, old(State()), records, env);
      var done := Commit(env);
      if done.Err? {
        records := records[id := previous];
        assert records == before;
        return Err(done.error);
      }
      r := Ok(true);
    }

    // The staging loop of apply_batch; it stops, without undoing anything, at the first invalid mutation.
    method Stage(ms: seq<Mutation>) returns (ok: bool)
      modifies this`records
      ensures ok == BatchOk(ms) && ok == (ValidPrefix(ms) == |ms|)
      ensures records == ApplyAll(old(records), ms[..ValidPrefix(ms)])
    {
      hide ValidKey, ApplyAll;
      ApplyAllNone(records);
      for i := 0 to |ms|
        invariant records == ApplyAll(old(records), ms[..i])
        invariant forall j :: 0 <= j < i ==> MutationOk(ms[j])
      {
        var m := ms[i];
        ApplyAllGrows(old(records), ms, i);
        if !ValidKey(m.id.key) || (m.Put? && |m.value| > MAX_VALUE_BYTES) {
          return false;
        }
        match m {
          case Put(id, value) => records := records[id := value];
          case Delete(id) => records := records - {id};
        }
      }
      ok := true;
    }

    method ApplyBatch(ms: seq<Mutation>, env: CommitEnv) returns (r: Result<(), StorageError>)
      modifies this
      ensures Carry(Step(State(), r)) == Apply(vault, old(State()), Batch(ms), env)
      ensures passed == old(passed) + StepDisks(vault, old(State()), Batch(ms), env)
    {
      hide Attempt, AttemptDisks, ApplyAll;
      if locked {
        return Err(Locked);
      }
      var previous := records;
      var ok := Stage(ms);
      if !ok {
        return Err(RecordTooLarge);
      }
      assert ms[..|ms|] == ms;
      CommitOfStaged(vault, old(State()), records, env);
      r := Commit(env);
      if r.Err? {
        records := previous;
      }
    }

    // Zeroizes and drops the records and the key; the files stay.
    method Lock()
      modifies this
      ensures locked && records == map[]
      ensures disk == old(disk) && revision == old(revision) && passed == old(passed)
    {
      records := map[];
      locked := true;
    }

    method Get(id: RecordId) returns (r: Option<Bytes>)
      ensures r == if !locked && id in records then Some(records[id]) else None
      ensures Agrees(vault, State()) ==>
                var stored := Open(vault.aead, vault.key, disk).value.records;
                r == if id in stored then Some(stored[id]) else None
    {
      hide Open;
      if locked {
        return None;
      }
      r := if id in records then Some(records[id]) else None;
    }
  }

  lemma ApplyAllNone(records: Records)
    ensures ApplyAll(records, []) == records
  {}

  // Committing records already staged in memory does to the files what the value-level commit does.
  lemma CommitOfStaged(v: Vault, s: StoreState, staged: Records, env: CommitEnv)
    ensures var memory, value := Attempt(v, s.(records := staged), staged, env), Attempt(v, s, staged, env);
            && memory.result == value.result
            && AttemptDisks(v, s.(records := staged), staged, env) == AttemptDisks(v, s, staged, env)
            && value.state == StoreState(if value.result.Ok? then staged else s.records,
                                         memory.state.revision, s.locked, memory.state.disk)
  {
    hide Encode, SealRecords, CommitDisks, Decimal;
  }

  lemma ApplyAllGrows(records: Records, ms: seq<Mutation>, i: nat)
    requires i < |ms|
    ensures ApplyAll(records, ms[..i + 1]) == ApplyMutation(ApplyAll(records, ms[..i]), ms[i])
  {
    assert ms[..i + 1][..i] == ms[..i];
  }

  // The empty store file opens with its own marker and with none.
  lemma InitialDisks(v: Vault, nonce: Nonce)
    requires Lawful(v.aead)
    ensures Encode(map[]).Ok?
    ensures var disk := Initialized(v, nonce).disk;
            && disk.store.Some? && OpensTo(v, disk, View(map[], 0))
            && OpensTo(v, Disk(disk.store, None), View(map[], 0))
  {
    hide Open, SealRecords, Encode, ReadMarker, Decimal;
    InitializedSettled(v, nonce);
    MarkerDecides(v, Initialized(v, nonce), 0);
  }
}
