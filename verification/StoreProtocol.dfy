/**
 The commit protocol of the encrypted store on values: the store file is replaced
 first, the revision marker second, and a failed marker write is compensated.
 Every file step may fail, before or after its rename, and the process may stop
 between any two steps.
 */
module StoreProtocol {
  import opened Prelude
  import opened Text
  import opened Aead
  import opened RecordCodec
  import opened StoreFile

  // How one atomic_write ends. The directory sync comes after the rename, so an
  // error does not say whether the new contents are in place.
  datatype Write = Done | FailedBefore | FailedAfter

  predicate Landed(w: Write) { w != FailedBefore }

  // Everything a commit does not control: whether reads, randomness and encryption
  // succeed, the nonce it draws, and how its file steps end.
  datatype CommitEnv = CommitEnv(
    prepared: bool, nonce: Nonce,
    storeWrite: Write, markerWrite: Write, storeRestore: Write, markerRestore: Write)

  function WriteStore(disk: Disk, contents: Option<Bytes>, w: Write): Disk {
    if Landed(w) then disk.(store := contents) else disk
  }

  function WriteMarker(disk: Disk, contents: Option<Bytes>, w: Write): Disk {
    if Landed(w) then disk.(marker := contents) else disk
  }

  // The disks a commit passes through, the first being the one it starts from.
  function CommitDisks(disk: Disk, store: Bytes, marker: Bytes, env: CommitEnv): (disks: seq<Disk>)
    ensures disks != []
  {
    var d1 := WriteStore(disk, Some(store), env.storeWrite);
    if env.storeWrite != Done then [disk, d1]
    else
      var d2 := WriteMarker(d1, Some(marker), env.markerWrite);
      if env.markerWrite == Done then [disk, d1, d2]
      else
        var d3 := WriteStore(d2, disk.store, env.storeRestore);
        var d4 := WriteMarker(d3, disk.marker, env.markerRestore);
        [disk, d1, d2, d3, d4]
  }

  predicate Succeeds(env: CommitEnv) { env.storeWrite == Done && env.markerWrite == Done }

  // ---- crash safety of one commit ----

  ghost predicate OpensTo(v: Vault, disk: Disk, view: View) {
    Open(v.aead, v.key, disk) == Ok(view)
  }

  // The four disks a commit can mix from the old and new files.
  lemma MixedDisks(v: Vault, disk: Disk, was: View, next: View, nonce: Nonce)
    requires Lawful(v.aead) && OpensTo(v, disk, was)
    requires Encode(next.records).Ok? && was.revision < next.revision
    ensures var store, marker := Some(SealRecords(v, next, nonce)), Some(Decimal(next.revision));
            && OpensTo(v, Disk(store, disk.marker), next)
            && OpensTo(v, Disk(store, marker), next)
            && Open(v.aead, v.key, Disk(disk.store, marker)) == Err(RollbackDetected)
  {
    hide OpenFile, SealRecords, ReadMarker, Encode;
    SealedOpens(v, next, nonce);
    MarkerReads(next.revision);
  }

  // The one window: the marker write lands but reports failure, and the old store is put back under it.
  predicate RollbackWindow(env: CommitEnv) {
    env.storeWrite == Done && env.markerWrite == FailedAfter && Landed(env.storeRestore)
  }

  // A crash anywhere in a commit, compensation included, leaves a disk that opens to exactly
  // the old or exactly the new records, if and only if the commit avoids that window.
  lemma CommitCrashSafety(v: Vault, disk: Disk, was: View, records: Records, env: CommitEnv)
    requires Lawful(v.aead) && OpensTo(v, disk, was)
    requires Encode(records).Ok? && was.revision < MAX_U64
    ensures var next := View(records, was.revision + 1);
            var disks := CommitDisks(disk, SealRecords(v, next, env.nonce), Decimal(next.revision), env);
            && ((forall i :: 0 <= i < |disks| ==> OpensTo(v, disks[i], was) || OpensTo(v, disks[i], next))
                <==> !RollbackWindow(env))
            && (forall i :: 0 <= i < |disks| ==>
                  OpensTo(v, disks[i], was) || OpensTo(v, disks[i], next)
                  || Open(v.aead, v.key, disks[i]) == Err(RollbackDetected))
  {
    hide Open, SealRecords, Encode, Decimal;
    var next := View(records, was.revision + 1);
    var store, marker := SealRecords(v, next, env.nonce), Decimal(next.revision);
    MixedDisks(v, disk, was, next, env.nonce);
    assert disk == Disk(disk.store, disk.marker);
    var disks := CommitDisks(disk, store, marker, env);
    if RollbackWindow(env) {
      assert disks[3] == Disk(disk.store, Some(marker));
    }
  }

  // With writes that fail only before their rename there is no such window.
  lemma CommitCrashSafetyBeforeRename(v: Vault, disk: Disk, was: View, records: Records, env: CommitEnv)
    requires Lawful(v.aead) && OpensTo(v, disk, was)
    requires Encode(records).Ok? && was.revision < MAX_U64
    requires env.markerWrite != FailedAfter
    ensures var next := View(records, was.revision + 1);
            var disks := CommitDisks(disk, SealRecords(v, next, env.nonce), Decimal(next.revision), env);
            forall i :: 0 <= i < |disks| ==> OpensTo(v, disks[i], was) || OpensTo(v, disks[i], next)
  {
    hide Open, SealRecords, Encode, Decimal, CommitDisks;
    CommitCrashSafety(v, disk, was, records, env);
  }

  // ---- the store in memory and on disk ----

  datatype StoreState = StoreState(records: Records, revision: U64, locked: bool, disk: Disk)

  ghost predicate Agrees(v: Vault, s: StoreState) {
    !s.locked && OpensTo(v, s.disk, View(s.records, s.revision))
  }

  datatype Step<T> = Step(state: StoreState, result: Result<T, StorageError>)

  // Commit `staged` as the next revision; memory keeps its records unless the commit succeeds.
  function Attempt(v: Vault, s: StoreState, staged: Records, env: CommitEnv): Step<()> {
    if |staged| > MAX_RECORDS then Step(s, Err(TooManyRecords))
    else if s.revision == MAX_U64 then Step(s, Err(RollbackDetected))
    else if Encode(staged).Err? then Step(s, Err(Encode(staged).error))
    else if !env.prepared || s.disk.store.None? then Step(s, Err(Io))
    else
      var next := View(staged, s.revision + 1);
      var disks := CommitDisks(s.disk, SealRecords(v, next, env.nonce), Decimal(next.revision), env);
      var disk := disks[|disks| - 1];
      if Succeeds(env) then Step(StoreState(staged, next.revision, s.locked, disk), Ok(()))
      else Step(s.(disk := disk), Err(Io))
  }

  // Whether the commit reaches its file steps at all.
  predicate Reaches(s: StoreState, staged: Records, env: CommitEnv) {
    |staged| <= MAX_RECORDS && s.revision < MAX_U64 && Encode(staged).Ok? && env.prepared && s.disk.store.Some?
  }

  // The file outcomes that leave memory and disk in step.
  predicate Settles(env: CommitEnv) {
    || Succeeds(env)
    || env.storeWrite == FailedBefore
    || (env.storeWrite == Done && Landed(env.storeRestore)
        && (env.markerWrite == FailedBefore || Landed(env.markerRestore)))
  }

  // After a commit memory equals what open would return exactly for those outcomes,
  // and an unsuccessful commit of that kind restores the disk byte for byte.
  lemma AttemptAgreement(v: Vault, s: StoreState, staged: Records, env: CommitEnv)
    requires Lawful(v.aead) && Agrees(v, s)
    ensures Agrees(v, Attempt(v, s, staged, env).state) <==> !Reaches(s, staged, env) || Settles(env)
    ensures Settles(env) && Attempt(v, s, staged, env).result.Err? ==> Attempt(v, s, staged, env).state == s
  {
    hide Open, SealRecords, Encode, Decimal;
    if Reaches(s, staged, env) {
      var next := View(staged, s.revision + 1);
      MixedDisks(v, s.disk, View(s.records, s.revision), next, env.nonce);
      assert s.disk == Disk(s.disk.store, s.disk.marker);
    }
  }

  // ---- operations ----

  datatype Mutation = Put(id: RecordId, value: Bytes) | Delete(id: RecordId)

  predicate MutationOk(m: Mutation) {
    ValidKey(m.id.key) && (m.Put? ==> |m.value| <= MAX_VALUE_BYTES)
  }

  function ApplyMutation(records: Records, m: Mutation): Records {
    match m
    case Put(id, value) => records[id := value]
    case Delete(id) => records - {id}
  }

  function ApplyAll(records: Records, ms: seq<Mutation>): Records {
    if ms == [] then records else ApplyMutation(ApplyAll(records, ms[..|ms| - 1]), ms[|ms| - 1])
  }

  // How many leading mutations pass validation.
  function ValidPrefix(ms: seq<Mutation>): (n: nat)
    ensures n <= |ms|
    ensures forall i :: 0 <= i < n ==> MutationOk(ms[i])
    ensures n < |ms| ==> !MutationOk(ms[n])
  {
    if ms == [] then 0
    else if ValidPrefix(ms[..|ms| - 1]) == |ms| - 1 && MutationOk(ms[|ms| - 1]) then |ms|
    else ValidPrefix(ms[..|ms| - 1])
  }

  predicate BatchOk(ms: seq<Mutation>) {
    forall i :: 0 <= i < |ms| ==> MutationOk(ms[i])
  }

  datatype Operation =
    | PutOne(id: RecordId, value: Bytes)
    | DeleteOne(id: RecordId)
    | Batch(mutations: seq<Mutation>)

  function Carry(step: Step<()>): Step<bool> {
    match step.result
    case Ok(_) => Step(step.state, Ok(true))
    case Err(e) => Step(step.state, Err(e))
  }

  // put, delete and apply_batch. A batch stops at its first invalid mutation without
  // undoing the earlier ones in memory.
  function Apply(v: Vault, s: StoreState, op: Operation, env: CommitEnv): Step<bool> {
    if s.locked then Step(s, Err(Locked))
    else
      match op
      case PutOne(id, value) =>
        if !MutationOk(Put(id, value)) then Step(s, Err(RecordTooLarge))
        else Carry(Attempt(v, s, s.records[id := value], env))
      case DeleteOne(id) =>
        if id !in s.records then Step(s, Ok(false))
        else Carry(Attempt(v, s, s.records - {id}, env))
      case Batch(ms) =>
        if ValidPrefix(ms) < |ms| then Step(s.(records := ApplyAll(s.records, ms[..ValidPrefix(ms)])), Err(RecordTooLarge))
        else Carry(Attempt(v, s, ApplyAll(s.records, ms), env))
  }

  // The map an operation stands for.
  function Effect(records: Records, op: Operation): Records {
    match op
    case PutOne(id, value) => records[id := value]
    case DeleteOne(id) => records - {id}
    case Batch(ms) => ApplyAll(records, ms)
  }

  predicate WellFormed(op: Operation) {
    op.Batch? ==> BatchOk(op.mutations)
  }

  // The disks a commit's file steps leave behind, in order; none if it stops before them.
  function AttemptDisks(v: Vault, s: StoreState, staged: Records, env: CommitEnv): seq<Disk> {
    if !Reaches(s, staged, env) then []
    else
      var next := View(staged, s.revision + 1);
      CommitDisks(s.disk, SealRecords(v, next, env.nonce), Decimal(next.revision), env)[1..]
  }

  function StepDisks(v: Vault, s: StoreState, op: Operation, env: CommitEnv): seq<Disk> {
    var refused := match op
      case PutOne(id, value) => !MutationOk(Put(id, value))
      case DeleteOne(id) => id !in s.records
      case Batch(ms) => !BatchOk(ms);
    if s.locked || refused then [] else AttemptDisks(v, s, Effect(s.records, op), env)
  }

  // What any one of those disks holds: exactly the old or exactly the new records, or, only in
  // the window, a rollback report.
  ghost predicate OldOrNew(v: Vault, s: StoreState, staged: Records, env: CommitEnv, disk: Disk) {
    || OpensTo(v, disk, View(s.records, s.revision))
    || (s.revision < MAX_U64 && OpensTo(v, disk, View(staged, s.revision + 1)))
    || (RollbackWindow(env) && Open(v.aead, v.key, disk) == Err(RollbackDetected))
  }

  lemma AttemptCrashSafety(v: Vault, s: StoreState, staged: Records, env: CommitEnv)
    requires Lawful(v.aead) && Agrees(v, s)
    ensures var disks := AttemptDisks(v, s, staged, env);
            && Attempt(v, s, staged, env).state.disk == (if disks == [] then s.disk else disks[|disks| - 1])
            && forall i :: 0 <= i < |disks| ==> OldOrNew(v, s, staged, env, disks[i])
  {
    hide Open, SealRecords, Encode, Decimal, CommitDisks, OldOrNew;
    if Reaches(s, staged, env) {
      var next := View(staged, s.revision + 1);
      var all := CommitDisks(s.disk, SealRecords(v, next, env.nonce), Decimal(next.revision), env);
      CommitDisksStart(s.disk, SealRecords(v, next, env.nonce), Decimal(next.revision), env);
      forall i | 0 <= i < |all| - 1 ensures OldOrNew(v, s, staged, env, all[1..][i]) {
        CommitDiskOpens(v, s, staged, env, i + 1);
        assert all[1..][i] == all[i + 1];
      }
    }
  }

  lemma CommitDiskOpens(v: Vault, s: StoreState, staged: Records, env: CommitEnv, k: nat)
    requires Lawful(v.aead) && Agrees(v, s) && Reaches(s, staged, env)
    ensures var next := View(staged, s.revision + 1);
            var disks := CommitDisks(s.disk, SealRecords(v, next, env.nonce), Decimal(next.revision), env);
            k < |disks| ==> OldOrNew(v, s, staged, env, disks[k])
  {
    hide Open, SealRecords, Encode, Decimal, CommitDisks, RollbackWindow;
    CommitCrashSafety(v, s.disk, View(s.records, s.revision), staged, env);
  }

  lemma CommitDisksStart(disk: Disk, store: Bytes, marker: Bytes, env: CommitEnv)
    ensures var disks := CommitDisks(disk, store, marker, env);
            |disks| > 1 && disks[0] == disk
  {}

  // Wherever an operation is cut short, and however it ends, its disk is old or new.
  lemma OperationCrashSafety(v: Vault, s: StoreState, op: Operation, env: CommitEnv)
    requires Lawful(v.aead) && Agrees(v, s)
    ensures var disks := StepDisks(v, s, op, env);
            && Apply(v, s, op, env).state.disk == (if disks == [] then s.disk else disks[|disks| - 1])
            && forall i :: 0 <= i < |disks| ==> OldOrNew(v, s, Effect(s.records, op), env, disks[i])
  {
    hide Attempt, AttemptDisks, OldOrNew, ApplyAll, MutationOk;
    AttemptCrashSafety(v, s, Effect(s.records, op), env);
  }

  // A rejected batch leaves memory and disk in step exactly when its accepted prefix changes nothing.
  lemma RejectedBatch(v: Vault, s: StoreState, ms: seq<Mutation>, env: CommitEnv)
    requires Agrees(v, s) && !BatchOk(ms)
    ensures var step := Apply(v, s, Batch(ms), env);
            && step.result == Err(RecordTooLarge) && step.state.disk == s.disk
            && (Agrees(v, step.state) <==> ApplyAll(s.records, ms[..ValidPrefix(ms)]) == s.records)
  {
    hide Open, Attempt, ApplyAll;
    assert ValidPrefix(ms) < |ms|;
  }

  // What such a batch leaked is made durable by the next operation that commits.
  lemma LeakedPrefixBecomesDurable(v: Vault, s: StoreState, ms: seq<Mutation>, id: RecordId, value: Bytes,
                                   first: CommitEnv, second: CommitEnv)
    requires Lawful(v.aead)
    ensures var leaked := Apply(v, s, Batch(ms), first).state;
            var later := Apply(v, leaked, PutOne(id, value), second);
            Agrees(v, s) && !BatchOk(ms) && later.result.Ok? ==>
              OpensTo(v, later.state.disk,
                      View(ApplyAll(s.records, ms[..ValidPrefix(ms)])[id := value], s.revision + 1))
  {
    hide Open, SealRecords, Encode, Decimal, ApplyAll;
    var leaked := Apply(v, s, Batch(ms), first).state;
    var later := Apply(v, leaked, PutOne(id, value), second);
    if Agrees(v, s) && !BatchOk(ms) && later.result.Ok? {
      assert leaked == s.(records := ApplyAll(s.records, ms[..ValidPrefix(ms)]));
      var next := View(leaked.records[id := value], s.revision + 1);
      MixedDisks(v, s.disk, View(s.records, s.revision), next, second.nonce);
    }
  }

  // A first mutation that is valid and a second that is not: memory has the record, disk does not.
  lemma RejectedBatchLeaks(v: Vault, s: StoreState, env: CommitEnv)
    ensures Agrees(v, s) && RecordId(Outbox, [97]) !in s.records ==>
              exists ms :: !BatchOk(ms) && !Agrees(v, Apply(v, s, Batch(ms), env).state)
  {
    hide Open, Attempt;
    if !Agrees(v, s) || RecordId(Outbox, [97]) in s.records {
      return;
    }
    var good, bad := Put(RecordId(Outbox, [97]), []), Delete(RecordId(Outbox, []));
    var ms := [good, bad];
    assert MutationOk(good) && !MutationOk(bad);
    assert !MutationOk(ms[1]);
    RejectedBatch(v, s, ms, env);
    assert ValidPrefix(ms) == 1 by { assert MutationOk(ms[0]); }
    assert ms[..1] == [good];
    assert ApplyAll(s.records, [good]) == ApplyAll(s.records, [])[good.id := good.value];
    assert good.id in ApplyAll(s.records, [good]);
  }

  // ---- runs ----

  datatype Event = Event(op: Operation, env: CommitEnv)

  function Run(v: Vault, s: StoreState, events: seq<Event>): StoreState {
    if events == [] then s
    else Apply(v, Run(v, s, events[..|events| - 1]), events[|events| - 1].op, events[|events| - 1].env).state
  }

  // A store whose marker names its revision, as initialize and open leave it.
  ghost predicate Settled(v: Vault, s: StoreState) {
    Agrees(v, s) && ReadMarker(s.disk.marker) == Ok(Some(s.revision))
  }

  ghost predicate CleanRun(events: seq<Event>) {
    forall i :: 0 <= i < |events| ==> WellFormed(events[i].op) && Settles(events[i].env)
  }

  lemma AttemptIsAtomic(v: Vault, s: StoreState, staged: Records, env: CommitEnv)
    requires Lawful(v.aead) && Settled(v, s)
    ensures var step := Attempt(v, s, staged, env);
            && !s.locked
            && (step.result.Err? ==> step.state == s.(disk := step.state.disk))
            && (step.result.Err? && Settles(env) ==> step.state == s)
            && (step.result.Ok? ==>
                  && Succeeds(env) && Settled(v, step.state)
                  && step.state.records == staged && s.revision < MAX_U64 && step.state.revision == s.revision + 1)
  {
    hide Open, SealRecords, Encode, ReadMarker, Decimal;
    AttemptAgreement(v, s, staged, env);
    if s.revision < MAX_U64 {
      MarkerReads(s.revision + 1);
    }
  }

  // One operation: success applies exactly its map effect and raises the revision by one (a delete
  // of a missing key does neither); failure changes nothing in memory, and nothing on disk either
  // when its file steps settle.
  lemma OperationIsAtomic(v: Vault, s: StoreState, e: Event)
    requires Lawful(v.aead) && Settled(v, s) && WellFormed(e.op)
    ensures var step := Apply(v, s, e.op, e.env);
            && (step.result.Ok? || Settles(e.env) ==> Settled(v, step.state))
            && (step.result.Err? ==> step.state == s.(disk := step.state.disk))
            && (step.result.Err? && Settles(e.env) ==> step.state == s)
            && (step.result.Ok? ==>
                  && step.state.records == Effect(s.records, e.op)
                  && step.state.revision == s.revision + (if step.result.value then 1 else 0)
                  && (!step.result.value ==> step.state == s)
                  && (step.result.value ==> Succeeds(e.env)))
  {
    hide Attempt, Settled, Settles, ApplyAll, MutationOk;
    AttemptIsAtomic(v, s, Effect(s.records, e.op), e.env);
    if e.op.DeleteOne? && e.op.id !in s.records {
      assert s.records - {e.op.id} == s.records;
    }
  }

  lemma {:induction false} BatchKeepsLimits(records: Records, ms: seq<Mutation>)
    requires RecordsOk(records) && BatchOk(ms)
    ensures RecordsOk(ApplyAll(records, ms))
  {
    hide ValidKey;
    if ms != [] {
      BatchKeepsLimits(records, ms[..|ms| - 1]);
    }
  }

  // When an operation succeeds, told before the call: its entries are valid, the result has room, a
  // revision is left, and preparation and both file steps work out. A delete of a missing key always does,
  // and is the one that reports false.
  lemma OperationSucceeds(v: Vault, s: StoreState, op: Operation, env: CommitEnv)
    requires Settled(v, s)
    ensures var r, idle := Apply(v, s, op, env).result, op.DeleteOne? && op.id !in s.records;
            && (r.Ok? <==>
                  || idle
                  || (&& (op.PutOne? ==> MutationOk(Put(op.id, op.value))) && WellFormed(op)
                      && |Effect(s.records, op)| <= MAX_RECORDS && s.revision < MAX_U64 && env.prepared && Succeeds(env)))
            && (r.Ok? ==> r.value == !idle)
            && (r.Err? ==>
                  r.error == if (op.PutOne? && !MutationOk(Put(op.id, op.value))) || !WellFormed(op) then RecordTooLarge
                             else if |Effect(s.records, op)| > MAX_RECORDS then TooManyRecords
                             else if s.revision == MAX_U64 then RollbackDetected else Io)
  {
    hide Open, ReadMarker, ValidKey, Attempt, ApplyAll, Succeeds;
    OpenedWithinLimits(v.aead, v.key, s.disk);
    if op.Batch? && BatchOk(op.mutations) {
      BatchKeepsLimits(s.records, op.mutations);
    }
    SettledHasStore(v, s);
    AttemptSucceeds(v, s, Effect(s.records, op), env);
  }

  lemma AttemptSucceeds(v: Vault, s: StoreState, staged: Records, env: CommitEnv)
    requires s.disk.store.Some?
    ensures RecordsOk(staged) ==>
              var r := Attempt(v, s, staged, env).result;
              && (r.Ok? <==> |staged| <= MAX_RECORDS && s.revision < MAX_U64 && env.prepared && Succeeds(env))
              && (r.Err? ==>
                    r.error == if |staged| > MAX_RECORDS then TooManyRecords else if s.revision == MAX_U64 then RollbackDetected else Io)
  {
    hide RecordsOk, Payload, SealRecords, Decimal, CommitDisks;
  }

  lemma SettledHasStore(v: Vault, s: StoreState)
    requires Settled(v, s)
    ensures s.disk.store.Some? && !s.locked
  {
    hide OpenFile, ReadMarker;
  }

  // The map a run stands for, and how many of its operations committed.
  ghost function RunEffect(v: Vault, s: StoreState, events: seq<Event>): (Records, nat) {
    if events == [] then (s.records, 0)
    else
      var before := RunEffect(v, s, events[..|events| - 1]);
      var e := events[|events| - 1];
      match Apply(v, Run(v, s, events[..|events| - 1]), e.op, e.env).result
      case Err(_) => before
      case Ok(committed) => (Effect(before.0, e.op), before.1 + if committed then 1 else 0)
  }

  // In every run memory is what open would return, it holds exactly the effects of the
  // operations that reported success, and the revision counts the commits.
  lemma {:induction false} RunIsFaithful(v: Vault, s: StoreState, events: seq<Event>)
    requires Lawful(v.aead) && Settled(v, s) && CleanRun(events)
    ensures Settled(v, Run(v, s, events))
    ensures Run(v, s, events).records == RunEffect(v, s, events).0
    ensures Run(v, s, events).revision == s.revision + RunEffect(v, s, events).1
  {
    hide Open, Apply, Effect, ReadMarker;
    if events != [] {
      var front, last := events[..|events| - 1], events[|events| - 1];
      RunIsFaithful(v, s, front);
      OperationIsAtomic(v, Run(v, s, front), last);
    }
  }

  // Putting back the store file of any earlier point of a run, once something was
  // committed after it, makes open report a rollback.
  lemma EarlierFileIsRejected(v: Vault, s: StoreState, events: seq<Event>, cut: nat)
    requires Lawful(v.aead) && Settled(v, s) && CleanRun(events) && cut <= |events|
    ensures var earlier, now := Run(v, s, events[..cut]), Run(v, s, events);
            Open(v.aead, v.key, Disk(earlier.disk.store, now.disk.marker))
            == if earlier.revision < now.revision then Err(RollbackDetected) else Ok(View(earlier.records, earlier.revision))
  {
    hide OpenFile, Run, ReadMarker;
    RunIsFaithful(v, s, events[..cut]);
    RunIsFaithful(v, s, events);
    RevisionGrows(v, s, events, cut);
  }

  lemma {:induction false} RevisionGrows(v: Vault, s: StoreState, events: seq<Event>, cut: nat)
    requires Lawful(v.aead) && Settled(v, s) && CleanRun(events) && cut <= |events|
    ensures Run(v, s, events[..cut]).revision <= Run(v, s, events).revision
    decreases |events|
  {
    hide Open, Apply, Effect, ReadMarker;
    if cut == |events| {
      assert events[..cut] == events;
    } else {
      var front, last := events[..|events| - 1], events[|events| - 1];
      assert events[..cut] == front[..cut];
      RevisionGrows(v, s, front, cut);
      RunIsFaithful(v, s, front);
      OperationIsAtomic(v, Run(v, s, front), last);
    }
  }

  // ---- initialize and rekey_to ----

  // initialize: an empty map at revision 0; both writes must succeed.
  function Initialized(v: Vault, nonce: Nonce): StoreState
    requires Encode(map[]).Ok?
  {
    StoreState(map[], 0, false, Disk(Some(SealRecords(v, View(map[], 0), nonce)), Some(Decimal(0))))
  }

  lemma EmptyEncodes()
    ensures Encode(map[]).Ok?
  {}

  lemma InitializedSettled(v: Vault, nonce: Nonce)
    requires Lawful(v.aead)
    ensures Encode(map[]).Ok? && Settled(v, Initialized(v, nonce))
  {
    hide OpenFile, SealRecords, Encode, ReadMarker;
    EmptyEncodes();
    SealedOpens(v, View(map[], 0), nonce);
    MarkerReads(0);
  }

  function PutAll(es: seq<Entry>): (ms: seq<Mutation>)
    ensures |ms| == |es|
  {
    seq(|es|, i requires 0 <= i < |es| => Put(es[i].id, es[i].value))
  }

  lemma {:induction false} PutAllMap(es: seq<Entry>)
    ensures ApplyAll(map[], PutAll(es)) == ToMap(es)
  {
    if es != [] {
      PutAllMap(es[..|es| - 1]);
      assert PutAll(es)[..|es| - 1] == PutAll(es[..|es| - 1]);
    }
  }

  // rekey_to: the records of a live store written, as one batch, to a new store under another key.
  // When it reports success the new pair opens, under the new key, to exactly the same records.
  lemma RekeyKeepsRecords(v: Vault, s: StoreState, rekeyed: Vault, nonce: Nonce, env: CommitEnv)
    requires Lawful(rekeyed.aead) && Agrees(v, s)
    ensures Encode(map[]).Ok?
    ensures var step := Apply(rekeyed, Initialized(rekeyed, nonce), Batch(PutAll(SortedEntries(s.records))), env);
            step.result.Ok? ==> Settled(rekeyed, step.state) && step.state.records == s.records && step.state.revision == 1
  {
    hide Open, SealRecords, Encode, Decimal, SortedEntries, ReadMarker;
    InitializedSettled(rekeyed, nonce);
    var es := SortedEntries(s.records);
    var start, op := Initialized(rekeyed, nonce), Batch(PutAll(es));
    PutAllMap(es);
    SortedEntriesMap(s.records);
    var step := Apply(rekeyed, start, op, env);
    if step.result.Ok? {
      assert Succeeds(env);
      OperationIsAtomic(rekeyed, start, Event(op, env));
    }
  }

  // ---- batches and attempts, piece by piece ----

  lemma {:induction false} BatchFrame(records: Records, ms: seq<Mutation>, id: RecordId)
    requires forall i :: 0 <= i < |ms| ==> ms[i].id != id
    ensures id in ApplyAll(records, ms) <==> id in records
    ensures id in records ==> ApplyAll(records, ms)[id] == records[id]
  {
    if ms != [] {
      BatchFrame(records, ms[..|ms| - 1], id);
    }
  }

  lemma BatchOfTwo(records: Records, m: Mutation, n: Mutation)
    ensures ApplyAll(records, [m, n]) == ApplyMutation(ApplyMutation(records, m), n)
    ensures BatchOk([m, n]) <==> MutationOk(m) && MutationOk(n)
  {
    assert [m, n][..1] == [m] && [m][..0] == [];
    assert ApplyAll(records, [m]) == ApplyMutation(ApplyAll(records, []), m);
    assert BatchOk([m, n]) ==> MutationOk([m, n][0]) && MutationOk([m, n][1]);
  }

  lemma SettledIsUnlocked(v: Vault, s: StoreState)
    requires Settled(v, s)
    ensures !s.locked
  {}

  lemma AttemptRecords(v: Vault, s: StoreState, staged: Records, env: CommitEnv)
    ensures var step := Attempt(v, s, staged, env);
            step.state.records == (if step.result.Ok? then staged else s.records) && step.state.locked == s.locked
  {
    hide Encode, SealRecords, CommitDisks, Decimal;
  }

  // The same commit with every step working out.
  function Working(env: CommitEnv): CommitEnv { env.(prepared := true, storeWrite := Done, markerWrite := Done) }

  // Reported or not, the store file a batch leaves is the old one, or the sealed records of the whole
  // batch, the ones it commits when everything works out.
  lemma BatchLands(v: Vault, s: StoreState, ms: seq<Mutation>, env: CommitEnv)
    ensures var step, good := Apply(v, s, Batch(ms), env), Apply(v, s, Batch(ms), Working(env));
            && (step.result.Ok? ==> step == good)
            && (step.state.disk.store != s.disk.store || step.result.Ok? ==>
                  && good.result.Ok? && Encode(good.state.records).Ok?
                  && step.state.disk.store
                     == Some(SealRecords(v, View(good.state.records, good.state.revision), env.nonce)))
  {
    hide Encode, SealRecords, Decimal, ApplyAll, MutationOk;
  }

  // A store file that lands and is reported as failed: the caller sees an error and unchanged memory,
  // while the files open to the whole batch.
  lemma BatchLandsUnreported(v: Vault, s: StoreState, ms: seq<Mutation>, env: CommitEnv)
    requires Lawful(v.aead) && Settled(v, s) && env.prepared && env.storeWrite == FailedAfter
    ensures var step, good := Apply(v, s, Batch(ms), env), Apply(v, s, Batch(ms), Working(env));
            good.result.Ok? ==>
              && step.result.Err? && step.state.records == s.records
              && OpensTo(v, step.state.disk, View(good.state.records, good.state.revision))
  {
    hide Open, Encode, SealRecords, Decimal, ApplyAll, MutationOk, ReadMarker;
    var good := Apply(v, s, Batch(ms), Working(env));
    if good.result.Ok? {
      MixedDisks(v, s.disk, View(s.records, s.revision), View(good.state.records, good.state.revision), env.nonce);
    }
  }

  lemma BatchOfOne(records: Records, m: Mutation)
    ensures ApplyAll(records, [m]) == ApplyMutation(records, m)
    ensures BatchOk([m]) <==> MutationOk(m)
    ensures m.Put? && m.id in records ==> |ApplyAll(records, [m])| == |records|
  {
    assert [m][..0] == [];
    assert BatchOk([m]) ==> MutationOk([m][0]);
    if m.Put? && m.id in records {
      assert records[m.id := m.value].Keys == records.Keys;
    }
  }

  // ---- the marker beside a store file ----

  // A store whose marker is missing, as a crash between the two first writes leaves it, opens to all it
  // holds. A marker up to the store's own revision opens too, and a later one reports rollback.
  lemma MarkerDecides(v: Vault, s: StoreState, m: U64)
    requires Agrees(v, s)
    ensures Open(v.aead, v.key, s.disk.(marker := None)) == Ok(View(s.records, s.revision))
    ensures Open(v.aead, v.key, s.disk.(marker := Some(Decimal(m))))
            == if m <= s.revision then Ok(View(s.records, s.revision)) else Err(RollbackDetected)
  {
    hide OpenFile, ReadMarker, Decimal;
    NoMarker();
    MarkerReads(m);
  }

  // A marker that names no revision is an error.
  lemma UnreadableMarker(v: Vault, s: StoreState, marker: Bytes)
    requires Agrees(v, s)
    ensures ReadMarker(Some(marker)).Err? ==> Open(v.aead, v.key, s.disk.(marker := Some(marker))).Err?
    ensures ReadMarker(Some(marker)) != Ok(None)
  {
    hide OpenFile, Trim, ParseU64, Utf8;
  }

  lemma NoMarker()
    ensures ReadMarker(None) == Ok(None)
  {}

  // ---- a new process on the same files ----

  // What open_with_key makes of the state: without it the old process is the last one.
  function Reopened(v: Vault, s: StoreState, marker: Write): StoreState {
    match Open(v.aead, v.key, s.disk)
    case Err(_) => s
    case Ok(view) =>
      var disk := OpenedDisk(view, s.disk);
      if disk == s.disk || marker == Done then StoreState(view.records, view.revision, false, disk)
      else s.(disk := if Landed(marker) then disk else s.disk)
  }

  predicate Reopens(v: Vault, s: StoreState, marker: Write) {
    var view := Open(v.aead, v.key, s.disk);
    view.Ok? && (OpenedDisk(view.value, s.disk) == s.disk || marker == Done)
  }

  lemma ReopenedState(v: Vault, s: StoreState, marker: Write)
    ensures var after := Reopened(v, s, marker);
            && after.disk.store == s.disk.store
            && (!Reopens(v, s, marker) ==> after == s.(disk := after.disk))
            && (Reopens(v, s, marker) ==>
                  && Settled(v, after) && s.disk.store.Some?
                  && OpenFile(v.aead, v.key, s.disk.store.value) == Ok(View(after.records, after.revision)))
  {
    hide OpenFile, ReadMarker, Decimal;
    OpenIsRepeatable(v.aead, v.key, s.disk);
  }
}
