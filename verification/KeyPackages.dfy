/**
 One-time MLS key packages in the record store. A package is known by the digest of its id;
 beside the package itself the store keeps a small state record that only moves forward.
 */
module KeyPackages {
  import opened Prelude
  import opened Text
  import opened RecordCodec
  import opened StoreFile
  import opened StoreProtocol
  import Aead

  datatype KeyPackageState = Available | Reserved | Consumed | Expired

  datatype KeyPackageRecord = KeyPackageRecord(
    state: KeyPackageState, reservationDigest: Option<Text>, notBefore: Option<U64>, notAfter: Option<U64>)

  datatype KeyPackageError =
    | Storage(error: StorageError) | Codec | AlreadyRegistered | NotAvailable | ReservationMismatch | InvalidLifetime

  // SHA-256, and serde_json on the state record.
  datatype Tools = Tools(sha: Bytes -> Bytes, write: KeyPackageRecord -> Bytes, read: Bytes -> Option<KeyPackageRecord>)

  ghost predicate Lawful(t: Tools) {
    && (forall b :: |t.sha(b)| == 32)
    && (forall r :: t.read(t.write(r)) == Some(r))
  }

  function DigestOf(t: Tools, b: Bytes): Text { Hex(t.sha(b)) }

  const PACKAGE_PREFIX: Bytes := Ascii("mls/v1/crypto/key-package/")
  const STATE_PREFIX: Bytes := Ascii("mls/v1/crypto/key-package-state/")

  function PackageId(digest: Text): RecordId { RecordId(ProtocolSession, PACKAGE_PREFIX + digest) }

  function StateId(digest: Text): RecordId { RecordId(ProtocolSession, STATE_PREFIX + digest) }

  predicate IsStateId(id: RecordId) { id.cls == ProtocolSession && STATE_PREFIX <= id.key }

  lemma IdsApart(digest: Text)
    ensures !IsStateId(PackageId(digest)) && IsStateId(StateId(digest))
    ensures forall other :: StateId(digest) == StateId(other) ==> digest == other
  {
    assert PACKAGE_PREFIX[25] == 47 && STATE_PREFIX[25] == 45;
    assert PackageId(digest).key[25] == 47;
    assert |STATE_PREFIX| == 32 && STATE_PREFIX[..] == STATE_PREFIX;
    assert (STATE_PREFIX + digest)[..32] == STATE_PREFIX;
    forall other | StateId(digest) == StateId(other) ensures digest == other {
      assert (STATE_PREFIX + digest)[32..] == digest && (STATE_PREFIX + other)[32..] == other;
    }
  }

  // ---- reading ----

  function Decoded(t: Tools, value: Bytes): Option<KeyPackageRecord> {
    if |value| > MAX_VALUE_BYTES then None else t.read(value)
  }

  function RecordOf(t: Tools, records: Records, digest: Text): Option<KeyPackageRecord> {
    if StateId(digest) in records then Decoded(t, records[StateId(digest)]) else None
  }

  predicate IsExpired(r: KeyPackageRecord, now: U64) { r.notAfter.Some? && now >= r.notAfter.value }

  predicate IsAvailable(t: Tools, value: Bytes, now: U64) {
    match Decoded(t, value)
    case None => false
    case Some(r) => r.state == Available && !IsExpired(r, now)
  }

  // The records available_key_package_count counts.
  function AvailableIds(t: Tools, records: Records, now: U64): set<RecordId> {
    set id | id in records && IsStateId(id) && IsAvailable(t, records[id], now)
  }

  // ---- the operations ----

  datatype Fresh = Fresh(id: Bytes, package: Bytes, notBefore: U64, notAfter: U64)

  datatype KeyPackageOp =
    | Register(id: Bytes, package: Bytes, lifetime: Option<(U64, U64)>)
    | Reserve(id: Bytes, reservation: Bytes, now: U64)
    | Consume(id: Bytes, reservation: Bytes)
    | Replenish(minimum: nat, now: U64, packages: seq<Fresh>)

  datatype Plan = Refused(error: KeyPackageError) | Nothing | Write(mutations: seq<Mutation>)

  predicate Known(t: Tools, records: Records, digest: Text) {
    PackageId(digest) in records || RecordOf(t, records, digest).Some?
  }

  function Store(t: Tools, digest: Text, r: KeyPackageRecord): Plan {
    if |t.write(r)| > MAX_VALUE_BYTES then Refused(Codec) else Write([Put(StateId(digest), t.write(r))])
  }

  function NewRecord(lifetime: Option<(U64, U64)>): KeyPackageRecord {
    match lifetime
    case None => KeyPackageRecord(Available, None, None, None)
    case Some((notBefore, notAfter)) => KeyPackageRecord(Available, None, Some(notBefore), Some(notAfter))
  }

  function PutPackage(t: Tools, digest: Text, package: Bytes, r: KeyPackageRecord): seq<Mutation> {
    [Put(PackageId(digest), package), Put(StateId(digest), t.write(r))]
  }

  // Why the replenish loop refuses a fresh package.
  function Problem(t: Tools, records: Records, now: U64, f: Fresh): Option<KeyPackageError> {
    if f.notBefore >= f.notAfter || f.notAfter <= now || f.package == [] then Some(InvalidLifetime)
    else if Known(t, records, DigestOf(t, f.id)) then Some(AlreadyRegistered)
    else if |t.write(NewRecord(Some((f.notBefore, f.notAfter))))| > MAX_VALUE_BYTES then Some(Codec)
    else None
  }

  function FirstProblem(t: Tools, records: Records, now: U64, fs: seq<Fresh>): Option<KeyPackageError> {
    if fs == [] then None
    else if FirstProblem(t, records, now, fs[..|fs| - 1]).Some? then FirstProblem(t, records, now, fs[..|fs| - 1])
    else Problem(t, records, now, fs[|fs| - 1])
  }

  function PutAll(t: Tools, fs: seq<Fresh>): seq<Mutation> {
    if fs == [] then []
    else
      var f := fs[|fs| - 1];
      PutAll(t, fs[..|fs| - 1]) + PutPackage(t, DigestOf(t, f.id), f.package, NewRecord(Some((f.notBefore, f.notAfter))))
  }

  function Needed(t: Tools, records: Records, minimum: nat, now: U64): nat {
    var current := |AvailableIds(t, records, now)|;
    if minimum > current then minimum - current else 0
  }

  // The packages the loop gets to look at.
  function Taken(t: Tools, records: Records, op: KeyPackageOp): seq<Fresh>
    requires op.Replenish?
  {
    var needed := Needed(t, records, op.minimum, op.now);
    if needed <= |op.packages| then op.packages[..needed] else op.packages
  }

  function PlanOf(t: Tools, records: Records, op: KeyPackageOp): Plan {
    match op
    case Register(id, package, lifetime) =>
      var digest := DigestOf(t, id);
      if lifetime.Some? && (lifetime.value.0 >= lifetime.value.1 || package == []) then Refused(InvalidLifetime)
      else if Known(t, records, digest) then Refused(AlreadyRegistered)
      else if |t.write(NewRecord(lifetime))| > MAX_VALUE_BYTES then Refused(Codec)
      else Write(PutPackage(t, digest, package, NewRecord(lifetime)))
    case Reserve(id, reservation, now) =>
      var digest := DigestOf(t, id);
      (match RecordOf(t, records, digest)
       case None => Refused(NotAvailable)
       case Some(r) =>
         if r.state != Available || IsExpired(r, now) then Refused(NotAvailable)
         else Store(t, digest, r.(state := Reserved, reservationDigest := Some(DigestOf(t, reservation)))))
    case Consume(id, reservation) =>
      var digest := DigestOf(t, id);
      (match RecordOf(t, records, digest)
       case None => Refused(NotAvailable)
       case Some(r) =>
         if r.state != Reserved || r.reservationDigest != Some(DigestOf(t, reservation)) then Refused(ReservationMismatch)
         else Store(t, digest, r.(state := Consumed, reservationDigest := None)))
    case Replenish(minimum, now, packages) =>
      var taken := Taken(t, records, op);
      if Needed(t, records, minimum, now) == 0 then Nothing
      else if FirstProblem(t, records, now, taken).Some? then Refused(FirstProblem(t, records, now, taken).value)
      else if |taken| < Needed(t, records, minimum, now) then Refused(NotAvailable)
      else Write(PutAll(t, taken))
  }

  datatype Performed = Performed(state: StoreState, result: Result<(), KeyPackageError>)

  function Perform(t: Tools, v: Vault, s: StoreState, op: KeyPackageOp, env: CommitEnv): Performed {
    var visible := if s.locked then map[] else s.records;
    match PlanOf(t, visible, op)
    case Refused(e) => Performed(s, Err(e))
    case Nothing => Performed(s, Ok(()))
    case Write(ms) =>
      var step := Apply(v, s, Batch(ms), env);
      Performed(step.state, if step.result.Ok? then Ok(()) else Err(Storage(step.result.error)))
  }

  // ---- all or nothing ----

  lemma KeysOk(t: Tools, b: Bytes)
    requires Lawful(t)
    ensures ValidKey(PackageId(DigestOf(t, b)).key) && ValidKey(StateId(DigestOf(t, b)).key)
  {
    hide ValidKey, Hex, Ascii;
    PrefixesPlain();
    HexIsPlain(t.sha(b));
    PlainTextConcat(PACKAGE_PREFIX, DigestOf(t, b));
    PlainTextConcat(STATE_PREFIX, DigestOf(t, b));
    PlainKeyOk(PackageId(DigestOf(t, b)).key);
    PlainKeyOk(StateId(DigestOf(t, b)).key);
  }

  lemma PrefixesPlain()
    ensures |PACKAGE_PREFIX| == 26 && |STATE_PREFIX| == 32
    ensures PlainText(PACKAGE_PREFIX) && PlainText(STATE_PREFIX)
  {
    AsciiIsPlain("mls/v1/crypto/key-package/");
    AsciiIsPlain("mls/v1/crypto/key-package-state/");
  }

  // How many packages come before the first one over the store's value limit.
  function FirstLarge(fs: seq<Fresh>): (k: nat)
    ensures k <= |fs|
    ensures k == |fs| <==> forall i :: 0 <= i < |fs| ==> |fs[i].package| <= MAX_VALUE_BYTES
  {
    if fs == [] then 0
    else
      var front := FirstLarge(fs[..|fs| - 1]);
      if front < |fs| - 1 then front else if |fs[|fs| - 1].package| > MAX_VALUE_BYTES then |fs| - 1 else |fs|
  }

  // The part of a replenishing batch that is staged before it is refused, if it is.
  lemma {:induction false} PutAllPrefix(t: Tools, records: Records, now: U64, fs: seq<Fresh>)
    requires Lawful(t) && FirstProblem(t, records, now, fs).None?
    ensures var ms := PutAll(t, fs);
            && (BatchOk(ms) <==> FirstLarge(fs) == |fs|)
            && ms[..ValidPrefix(ms)] == PutAll(t, fs[..FirstLarge(fs)])
  {
    hide ValidKey, DigestOf, PackageId, StateId, Known, FirstLarge;
    if fs != [] {
      var front, f := fs[..|fs| - 1], fs[|fs| - 1];
      PutAllPrefix(t, records, now, front);
      KeysOk(t, f.id);
      var before := PutAll(t, front);
      var pair := PutPackage(t, DigestOf(t, f.id), f.package, NewRecord(Some((f.notBefore, f.notAfter))));
      PrefixOfPair(before, pair[0], pair[1]);
      FirstLargeGrows(fs);
      assert fs[..FirstLarge(front)] == front[..FirstLarge(front)] && front[..|front|] == front && fs[..|fs|] == fs;
    } else {
      FirstLargeGrows(fs);
    }
  }

  lemma FirstLargeGrows(fs: seq<Fresh>)
    ensures fs == [] ==> FirstLarge(fs) == 0
    ensures fs != [] ==>
              var front := FirstLarge(fs[..|fs| - 1]);
              FirstLarge(fs) == if front < |fs| - 1 then front
                                else if |fs[|fs| - 1].package| > MAX_VALUE_BYTES then |fs| - 1 else |fs|
  {}

  lemma PrefixOfPair(ms: seq<Mutation>, m: Mutation, n: Mutation)
    requires MutationOk(n)
    ensures var all := ms + [m, n];
            && (BatchOk(all) <==> BatchOk(ms) && MutationOk(m))
            && all[..ValidPrefix(all)]
               == if !BatchOk(ms) then ms[..ValidPrefix(ms)] else if !MutationOk(m) then ms else all
  {
    hide MutationOk;
    var all := ms + [m, n];
    var k := ValidPrefix(all);
    assert forall i :: 0 <= i < |ms| ==> all[i] == ms[i];
    assert all[|ms|] == m && all[|ms| + 1] == n;
    if BatchOk(ms) {
      assert !MutationOk(m) ==> k == |ms|;
      assert all[..|ms|] == ms && all[..|all|] == all;
    } else {
      assert k == ValidPrefix(ms);
    }
  }

  lemma {:induction false} ProblemPrefix(t: Tools, records: Records, now: U64, fs: seq<Fresh>, k: nat)
    requires k <= |fs| && FirstProblem(t, records, now, fs).None?
    ensures FirstProblem(t, records, now, fs[..k]).None?
  {
    hide Problem;
    if k == |fs| {
      assert fs[..k] == fs;
    } else {
      assert fs[..|fs| - 1][..k] == fs[..k];
      ProblemPrefix(t, records, now, fs[..|fs| - 1], k);
    }
  }

  // A replenishing batch that meets an oversized package after a good one: it is refused, but what came
  // before stays in memory.
  predicate Leaks(t: Tools, s: StoreState, op: KeyPackageOp) {
    && op.Replenish? && !s.locked && PlanOf(t, s.records, op).Write?
    && 0 < FirstLarge(Taken(t, s.records, op)) < |Taken(t, s.records, op)|
  }

  function Leaked(t: Tools, s: StoreState, op: KeyPackageOp): Records
    requires Leaks(t, s, op)
  {
    ApplyAll(s.records, PutAll(t, Taken(t, s.records, op)[..FirstLarge(Taken(t, s.records, op))]))
  }

  // What an operation does to memory, in every state of the store and for every outcome of its commit.
  lemma PerformEffect(t: Tools, v: Vault, s: StoreState, op: KeyPackageOp, env: CommitEnv)
    requires Lawful(t)
    ensures var p := Perform(t, v, s, op, env);
            && (p.result.Ok? && !s.locked ==>
                  match PlanOf(t, s.records, op)
                  case Refused(_) => false
                  case Nothing => p.state == s
                  case Write(ms) => BatchOk(ms) && p.state.records == ApplyAll(s.records, ms))
            && (s.locked || (p.result.Err? && !Leaks(t, s, op)) ==> p.state.records == s.records)
            && (Leaks(t, s, op) ==>
                  p.result == Err(Storage(RecordTooLarge)) && p.state == s.(records := Leaked(t, s, op)))
  {
    hide PlanOf, ApplyAll, Attempt, MutationOk, FirstLarge, PutAll;
    var visible := if s.locked then map[] else s.records;
    match PlanOf(t, visible, op) {
      case Write(ms) =>
        AttemptRecords(v, s, ApplyAll(s.records, ms), env);
        if !s.locked {
          WritePrefix(t, s.records, op);
          ApplyNothing(s.records);
        }
      case _ =>
    }
  }

  lemma ApplyNothing(records: Records)
    ensures ApplyAll(records, []) == records
  {}

  // Only a package over the value limit can be refused by the batch itself.
  lemma WritePrefix(t: Tools, records: Records, op: KeyPackageOp)
    requires Lawful(t) && PlanOf(t, records, op).Write?
    ensures var ms := PlanOf(t, records, op).mutations;
            && (!op.Replenish? && !BatchOk(ms) ==> ms[..ValidPrefix(ms)] == [])
            && (op.Replenish? ==>
                  var taken := Taken(t, records, op);
                  && (BatchOk(ms) <==> FirstLarge(taken) == |taken|)
                  && ms[..ValidPrefix(ms)] == PutAll(t, taken[..FirstLarge(taken)])
                  && (FirstLarge(taken) == 0 ==> ms[..ValidPrefix(ms)] == []))
  {
    hide ValidKey, DigestOf, PackageId, StateId, Known, RecordOf, Needed, FirstLarge;
    var ms := PlanOf(t, records, op).mutations;
    if op.Replenish? {
      PutAllPrefix(t, records, op.now, Taken(t, records, op));
      assert Taken(t, records, op)[..0] == [];
    } else {
      KeysOk(t, op.id);
      assert !BatchOk(ms) ==> !MutationOk(ms[0]);
    }
  }

  // From a settled store: success makes exactly the planned records durable. An error changes neither
  // memory nor, when its file steps settle, disk, exactly when the batch does not leak.
  lemma PerformIsAtomic(t: Tools, v: Vault, s: StoreState, op: KeyPackageOp, env: CommitEnv)
    requires Lawful(t) && Aead.Lawful(v.aead) && Settled(v, s)
    ensures var p := Perform(t, v, s, op, env);
            && (p.result.Ok? ==>
                  && Settled(v, p.state)
                  && match PlanOf(t, s.records, op)
                     case Refused(_) => false
                     case Nothing => p.state == s
                     case Write(ms) => p.state.records == ApplyAll(s.records, ms))
            && (p.result.Err? && Settles(env) ==> (p.state == s <==> !Leaks(t, s, op)))
  {
    hide PlanOf, Settled, Settles, ApplyAll, Attempt, MutationOk, Leaks, Leaked, Apply;
    SettledIsUnlocked(v, s);
    PerformEffect(t, v, s, op, env);
    match PlanOf(t, s.records, op) {
      case Write(ms) =>
        if BatchOk(ms) {
          OperationIsAtomic(v, s, Event(Batch(ms), env));
          NoLeak(t, s, op);
        } else {
          RefusedState(v, s, ms, env);
        }
      case _ => NoLeak(t, s, op);
    }
    if Leaks(t, s, op) {
      LeakShows(t, s, op);
    }
  }

  lemma NoLeak(t: Tools, s: StoreState, op: KeyPackageOp)
    requires Lawful(t)
    ensures PlanOf(t, s.records, op).Write? && BatchOk(PlanOf(t, s.records, op).mutations) ==> !Leaks(t, s, op)
    ensures !PlanOf(t, s.records, op).Write? ==> !Leaks(t, s, op)
  {
    hide PlanOf, MutationOk, FirstLarge, BatchOk;
    if PlanOf(t, s.records, op).Write? {
      WritePrefix(t, s.records, op);
    }
  }

  lemma RefusedState(v: Vault, s: StoreState, ms: seq<Mutation>, env: CommitEnv)
    requires !s.locked && !BatchOk(ms)
    ensures var step := Apply(v, s, Batch(ms), env);
            step.result.Err? && step.state == s.(records := step.state.records)
  {
    hide Attempt, ApplyAll, MutationOk;
  }

  // Any good new package followed by one over the value limit, when two are needed.
  lemma LeakHappens(t: Tools, s: StoreState, good: Fresh, large: Fresh, now: U64)
    requires !s.locked && AvailableIds(t, s.records, now) == {}
    requires Problem(t, s.records, now, good).None? && Problem(t, s.records, now, large).None?
    requires |good.package| <= MAX_VALUE_BYTES < |large.package|
    ensures Leaks(t, s, Replenish(2, now, [good, large]))
  {
    hide AvailableIds, Problem;
    var pair := [good, large];
    assert Taken(t, s.records, Replenish(2, now, pair)) == pair;
    assert pair[..1] == [good] && [good][..0] == [];
    assert FirstProblem(t, s.records, now, [good]) == Problem(t, s.records, now, good);
    assert FirstLarge([good]) == 1;
  }

  // What leaked was not there before.
  lemma LeakShows(t: Tools, s: StoreState, op: KeyPackageOp)
    requires Lawful(t) && Leaks(t, s, op)
    ensures Leaked(t, s, op) != s.records
  {
    hide DigestOf, PackageId, StateId, ApplyAll, RecordOf, Needed, FirstLarge, Known;
    var taken := Taken(t, s.records, op);
    var k := FirstLarge(taken);
    ProblemPrefix(t, s.records, op.now, taken, k);
    PutAllHas(t, s.records, op.now, taken[..k], k - 1);
  }

  lemma {:induction false} PutAllHas(t: Tools, records: Records, now: U64, fs: seq<Fresh>, i: nat)
    requires i < |fs| && FirstProblem(t, records, now, fs).None?
    ensures PackageId(DigestOf(t, fs[i].id)) in ApplyAll(records, PutAll(t, fs))
    ensures PackageId(DigestOf(t, fs[i].id)) !in records
  {
    hide DigestOf, PackageId, StateId, ApplyAll, RecordOf, PutAll;
    PutAllGrows(t, records, fs);
    FirstProblemFront(t, records, now, fs);
    if i < |fs| - 1 {
      PutAllHas(t, records, now, fs[..|fs| - 1], i);
    }
  }

  // ---- the life of one package ----

  function Phase(t: Tools, records: Records, digest: Text): Option<KeyPackageState> {
    match RecordOf(t, records, digest)
    case None => None
    case Some(r) => Some(r.state)
  }

  predicate Forward(from: Option<KeyPackageState>, to: Option<KeyPackageState>) {
    || from == to
    || (from == None && to == Some(Available))
    || (from == Some(Available) && to == Some(Reserved))
    || (from == Some(Reserved) && to == Some(Consumed))
  }

  function Target(t: Tools, op: KeyPackageOp): Option<Text> {
    if op.Replenish? then None else Some(DigestOf(t, op.id))
  }

  // What a planned batch does to the state record of `digest`.
  lemma {:induction false} PutAllRecord(t: Tools, records: Records, now: U64, fs: seq<Fresh>, digest: Text)
    requires Lawful(t) && FirstProblem(t, records, now, fs).None?
    ensures var after := ApplyAll(records, PutAll(t, fs));
            RecordOf(t, after, digest) == RecordOf(t, records, digest)
            || (RecordOf(t, records, digest).None? && RecordOf(t, after, digest).Some?
                && RecordOf(t, after, digest).value.state == Available)
  {
    hide DigestOf, StateId, PackageId, FirstProblem, ApplyAll;
    if fs == [] {
      PutNothing(t, records);
    } else {
      var front, f := fs[..|fs| - 1], fs[|fs| - 1];
      FirstProblemFront(t, records, now, fs);
      PutAllRecord(t, records, now, front, digest);
      PutAllGrows(t, records, fs);
      var before := ApplyAll(records, PutAll(t, front));
      PutPackageRecord(t, before, DigestOf(t, f.id), f.package, NewRecord(Some((f.notBefore, f.notAfter))), digest);
    }
  }

  lemma PutNothing(t: Tools, records: Records)
    ensures ApplyAll(records, PutAll(t, [])) == records
  {}

  lemma FirstProblemFront(t: Tools, records: Records, now: U64, fs: seq<Fresh>)
    requires fs != [] && FirstProblem(t, records, now, fs).None?
    ensures FirstProblem(t, records, now, fs[..|fs| - 1]).None? && Problem(t, records, now, fs[|fs| - 1]).None?
  {}

  lemma PutAllGrows(t: Tools, records: Records, fs: seq<Fresh>)
    requires fs != []
    ensures var f := fs[|fs| - 1];
            var r := NewRecord(Some((f.notBefore, f.notAfter)));
            ApplyAll(records, PutAll(t, fs))
            == ApplyAll(records, PutAll(t, fs[..|fs| - 1]))[PackageId(DigestOf(t, f.id)) := f.package][StateId(DigestOf(t, f.id)) := t.write(r)]
  {
    hide DigestOf, StateId, PackageId;
    var f := fs[|fs| - 1];
    var front := PutAll(t, fs[..|fs| - 1]);
    var pair := PutPackage(t, DigestOf(t, f.id), f.package, NewRecord(Some((f.notBefore, f.notAfter))));
    assert PutAll(t, fs) == front + pair;
    ApplyTwo(records, front, pair[0], pair[1]);
  }

  lemma ApplyTwo(records: Records, front: seq<Mutation>, m: Mutation, n: Mutation)
    ensures ApplyAll(records, front + [m, n]) == ApplyMutation(ApplyMutation(ApplyAll(records, front), m), n)
  {
    var all := front + [m, n];
    assert all[..|all| - 1] == front + [m];
    assert (front + [m])[..|front|] == front;
  }

  // Writing a package and its state record changes the record of that digest only.
  lemma PutPackageRecord(t: Tools, records: Records, digest: Text, package: Bytes, r: KeyPackageRecord, other: Text)
    requires Lawful(t) && |t.write(r)| <= MAX_VALUE_BYTES
    ensures var after := records[PackageId(digest) := package][StateId(digest) := t.write(r)];
            RecordOf(t, after, other) == if other == digest then Some(r) else RecordOf(t, records, other)
  {
    IdsApart(digest);
    IdsApart(other);
  }

  lemma PutStateRecord(t: Tools, records: Records, digest: Text, r: KeyPackageRecord, other: Text)
    requires Lawful(t) && |t.write(r)| <= MAX_VALUE_BYTES
    ensures RecordOf(t, ApplyAll(records, [Put(StateId(digest), t.write(r))]), other)
            == if other == digest then Some(r) else RecordOf(t, records, other)
  {
    IdsApart(digest);
    var ms := [Put(StateId(digest), t.write(r))];
    assert ms[..0] == [];
    assert ApplyAll(records, ms) == records[StateId(digest) := t.write(r)];
  }

  // Every operation moves every package forward or not at all; a reservation or consumption
  // touches only the package it names; registering stores a new package with the lifetime given;
  // an expired package cannot be reserved; and a consumption needs the recorded reservation.
  // This holds of memory in every state of the store and for every outcome of a commit.
  lemma PackageMovesForward(t: Tools, v: Vault, s: StoreState, op: KeyPackageOp, env: CommitEnv, digest: Text)
    requires Lawful(t)
    ensures var p := Perform(t, v, s, op, env);
            var from, to := RecordOf(t, s.records, digest), RecordOf(t, p.state.records, digest);
            && Forward(Phase(t, s.records, digest), Phase(t, p.state.records, digest))
            && (p.result.Ok? && Target(t, op) == Some(digest) && op.Register? ==>
                  from.None?
                  && to == Some(KeyPackageRecord(Available, None, if op.lifetime.None? then None else Some(op.lifetime.value.0),
                                                 if op.lifetime.None? then None else Some(op.lifetime.value.1)))
                  && PackageId(digest) !in s.records
                  && PackageId(digest) in p.state.records && p.state.records[PackageId(digest)] == op.package)
            && (p.result.Ok? && Target(t, op) == Some(digest) && op.Reserve? ==>
                  from.Some? && from.value.state == Available && !IsExpired(from.value, op.now)
                  && to == Some(from.value.(state := Reserved, reservationDigest := Some(DigestOf(t, op.reservation)))))
            && (p.result.Ok? && Target(t, op) == Some(digest) && op.Consume? ==>
                  from.Some? && from.value.state == Reserved && to.Some? && to.value.state == Consumed
                  && from.value.reservationDigest == Some(DigestOf(t, op.reservation)))
            && (to == from || (from.None? && to.Some?)
                || (p.result.Ok? && Target(t, op) == Some(digest) && (op.Reserve? || op.Consume?)))
  {
    hide DigestOf, StateId, PackageId, ApplyAll, Perform, FirstProblem, Needed, Taken, RecordOf, IsExpired, FirstLarge, BatchOk;
    PerformEffect(t, v, s, op, env);
    var p := Perform(t, v, s, op, env);
    if Leaks(t, s, op) {
      var taken := Taken(t, s.records, op);
      ProblemPrefix(t, s.records, op.now, taken, FirstLarge(taken));
      PutAllRecord(t, s.records, op.now, taken[..FirstLarge(taken)], digest);
    } else if s.locked {
      LockedDoesNothing(t, v, s, op, env);
    } else if p.result.Ok? {
      match PlanOf(t, s.records, op) {
        case Nothing =>
        case Write(ms) =>
          match op {
            case Register(id, package, lifetime) =>
              BatchOfTwo(s.records, ms[0], ms[1]);
              PutPackageRecord(t, s.records, DigestOf(t, id), package, NewRecord(lifetime), digest);
              IdsApart(digest);
            case Reserve(id, reservation, now) =>
              var r := RecordOf(t, s.records, DigestOf(t, id)).value;
              PutStateRecord(t, s.records, DigestOf(t, id),
                             r.(state := Reserved, reservationDigest := Some(DigestOf(t, reservation))), digest);
            case Consume(id, reservation) =>
              var r := RecordOf(t, s.records, DigestOf(t, id)).value;
              PutStateRecord(t, s.records, DigestOf(t, id), r.(state := Consumed, reservationDigest := None), digest);
            case Replenish(_, now, _) =>
              PutAllRecord(t, s.records, now, Taken(t, s.records, op), digest);
          }
      }
    }
  }

  lemma LockedDoesNothing(t: Tools, v: Vault, s: StoreState, op: KeyPackageOp, env: CommitEnv)
    requires s.locked
    ensures !op.Replenish? ==> Perform(t, v, s, op, env).result.Err?
  {
    hide Attempt, DigestOf, StateId, PackageId, NewRecord;
  }

  // ---- when an operation succeeds ----

  // A package that can be added: its lifetime is not empty and not over, it fits the store, and neither it
  // nor a state record of its id is known.
  predicate CanAdd(t: Tools, records: Records, id: Bytes, package: Bytes, lifetime: Option<(U64, U64)>) {
    && (lifetime.Some? ==> lifetime.value.0 < lifetime.value.1 && package != [])
    && PackageId(DigestOf(t, id)) !in records && RecordOf(t, records, DigestOf(t, id)).None?
    && |package| <= MAX_VALUE_BYTES && |t.write(NewRecord(lifetime))| <= MAX_VALUE_BYTES
  }

  // What the records must allow for an operation to go through.
  predicate Allows(t: Tools, records: Records, op: KeyPackageOp) {
    match op
    case Register(id, package, lifetime) => CanAdd(t, records, id, package, lifetime)
    case Reserve(id, reservation, now) =>
      var r := RecordOf(t, records, DigestOf(t, id));
      && r.Some? && r.value.state == Available && (r.value.notAfter.Some? ==> now < r.value.notAfter.value)
      && |t.write(r.value.(state := Reserved, reservationDigest := Some(DigestOf(t, reservation))))| <= MAX_VALUE_BYTES
    case Consume(id, reservation) =>
      var r := RecordOf(t, records, DigestOf(t, id));
      && r.Some? && r.value.state == Reserved && r.value.reservationDigest == Some(DigestOf(t, reservation))
      && |t.write(r.value.(state := Consumed, reservationDigest := None))| <= MAX_VALUE_BYTES
    case Replenish(minimum, now, packages) =>
      var missing := minimum - |AvailableIds(t, records, now)|;
      missing <= |packages| && forall i :: 0 <= i < missing && i < |packages| ==>
        var f := packages[i];
        f.notAfter > now && CanAdd(t, records, f.id, f.package, Some((f.notBefore, f.notAfter)))
  }

  // Told before the call, on a settled store: an operation succeeds exactly when the records allow it and,
  // unless nothing is missing, there is room and a revision left and the commit's steps work out.
  lemma PerformSucceeds(t: Tools, v: Vault, s: StoreState, op: KeyPackageOp, env: CommitEnv)
    requires Lawful(t) && Settled(v, s)
    ensures Perform(t, v, s, op, env).result.Ok? <==>
              && Allows(t, s.records, op)
              && var plan := PlanOf(t, s.records, op);
              (plan.Write? ==>
                 |ApplyAll(s.records, plan.mutations)| <= MAX_RECORDS && s.revision < MAX_U64 && env.prepared && Succeeds(env))
  {
    hide DigestOf, PackageId, StateId, RecordOf, IsExpired, ApplyAll, Settled, Apply, BatchOk, Succeeds, FirstProblem, AvailableIds, FirstLarge,
         PutAll, Allows, PlanOf, ValidKey;
    SettledIsUnlocked(v, s);
    AllowedPlans(t, s.records, op);
    match PlanOf(t, s.records, op) {
      case Write(ms) => OperationSucceeds(v, s, Batch(ms), env);
      case _ =>
    }
  }

  // The packages counted as available are those a reserve would get, and a refusal says what is wrong.
  lemma CountedIsReservable(t: Tools, v: Vault, s: StoreState, id: Bytes, reservation: Bytes, now: U64, env: CommitEnv)
    requires Lawful(t) && Settled(v, s)
    ensures var p := Perform(t, v, s, Reserve(id, reservation, now), env);
            && (StateId(DigestOf(t, id)) !in AvailableIds(t, s.records, now) <==> p.result == Err(NotAvailable))
    ensures var p := Perform(t, v, s, Consume(id, reservation), env);
            var r := RecordOf(t, s.records, DigestOf(t, id));
            && (p.result == Err(NotAvailable) <==> r.None?)
            && (p.result == Err(ReservationMismatch) <==>
                  r.Some? && !(r.value.state == Reserved && r.value.reservationDigest == Some(DigestOf(t, reservation))))
  {
    hide DigestOf, Settled, Apply, ValidKey;
    SettledIsUnlocked(v, s);
    IdsApart(DigestOf(t, id));
  }

  // Registering is refused as known, or for its lifetime, exactly for that reason.
  lemma RegisterRefusals(t: Tools, v: Vault, s: StoreState, id: Bytes, package: Bytes, lifetime: Option<(U64, U64)>, env: CommitEnv)
    requires Lawful(t) && Settled(v, s)
    ensures var p, digest := Perform(t, v, s, Register(id, package, lifetime), env), DigestOf(t, id);
            var stale := lifetime.Some? && (lifetime.value.0 >= lifetime.value.1 || package == []);
            && (p.result == Err(InvalidLifetime) <==> stale)
            && (p.result == Err(AlreadyRegistered) <==>
                  !stale && (PackageId(digest) in s.records || RecordOf(t, s.records, digest).Some?))
  {
    hide DigestOf, Settled, Apply, StateId, PackageId, RecordOf;
    SettledIsUnlocked(v, s);
  }

  lemma AllowedPlans(t: Tools, records: Records, op: KeyPackageOp)
    requires Lawful(t)
    ensures Allows(t, records, op) <==>
              var plan := PlanOf(t, records, op);
              plan.Nothing? || (plan.Write? && BatchOk(plan.mutations))
  {
    hide DigestOf, PackageId, StateId, RecordOf, FirstProblem, AvailableIds, FirstLarge, PutAll, ValidKey;
    if op.Replenish? {
      ReplenishPlans(t, records, op);
    } else {
      KeysOk(t, op.id);
      var plan := PlanOf(t, records, op);
      if plan.Write? {
        if op.Register? {
          BatchOfTwo(records, plan.mutations[0], plan.mutations[1]);
        } else {
          BatchOfOne(records, plan.mutations[0]);
        }
      }
    }
  }

  lemma ReplenishPlans(t: Tools, records: Records, op: KeyPackageOp)
    requires Lawful(t) && op.Replenish?
    ensures Allows(t, records, op) <==>
              var plan := PlanOf(t, records, op);
              plan.Nothing? || (plan.Write? && BatchOk(plan.mutations))
  {
    hide DigestOf, PackageId, StateId, RecordOf, FirstProblem, AvailableIds, FirstLarge, PutAll, MutationOk;
    var taken := Taken(t, records, op);
    ProblemFree(t, records, op.now, taken);
    if FirstProblem(t, records, op.now, taken).None? {
      PutAllPrefix(t, records, op.now, taken);
    }
    assert forall i :: 0 <= i < |taken| ==> taken[i] == op.packages[i];
  }

  lemma {:induction false} ProblemFree(t: Tools, records: Records, now: U64, fs: seq<Fresh>)
    ensures FirstProblem(t, records, now, fs).None? <==>
              forall i :: 0 <= i < |fs| ==> Problem(t, records, now, fs[i]).None?
  {
    hide Problem;
    if fs != [] {
      ProblemFree(t, records, now, fs[..|fs| - 1]);
    }
  }

  // ---- the record on disk ----

  // The record a new process would find.
  function OnDisk(t: Tools, v: Vault, s: StoreState, digest: Text): Option<KeyPackageRecord> {
    if s.disk.store.None? then None
    else
      match OpenFile(v.aead, v.key, s.disk.store.value)
      case Err(_) => None
      case Ok(view) => RecordOf(t, view.records, digest)
  }

  // However a call ends, the disk keeps its record or has the one the call gives memory when it succeeds.
  lemma DiskStep(t: Tools, v: Vault, s: StoreState, op: KeyPackageOp, env: CommitEnv, digest: Text)
    requires Lawful(t) && Aead.Lawful(v.aead)
    ensures var p, good := Perform(t, v, s, op, env), Perform(t, v, s, op, Working(env));
            && (p.result.Ok? ==> p == good)
            && (p.state.disk.store != s.disk.store || (p.result.Ok? && !op.Replenish?) ==>
                  good.result.Ok? && OnDisk(t, v, p.state, digest) == RecordOf(t, good.state.records, digest))
  {
    hide Apply, RecordOf, OpenFile, Encode, SealRecords, Known, DigestOf, FirstProblem, Needed, Taken, PutAll;
    var visible := if s.locked then map[] else s.records;
    match PlanOf(t, visible, op) {
      case Write(ms) =>
        BatchLands(v, s, ms, env);
        var p, good := Perform(t, v, s, op, env), Perform(t, v, s, op, Working(env));
        if p.state.disk.store != s.disk.store || p.result.Ok? {
          SealedOpens(v, View(good.state.records, good.state.revision), env.nonce);
        }
      case _ =>
    }
  }

  // ---- whole runs, restarts included ----

  // A call, or a new process opening the files. A call cut short by a crash leaves the disk of one that
  // ends in an error.
  datatype KeyPackageEvent = Call(op: KeyPackageOp, env: CommitEnv) | Reopen(marker: StoreProtocol.Write)

  function After(t: Tools, v: Vault, s: StoreState, e: KeyPackageEvent): StoreState {
    match e
    case Call(op, env) => Perform(t, v, s, op, env).state
    case Reopen(marker) => Reopened(v, s, marker)
  }

  function Run(t: Tools, v: Vault, s: StoreState, events: seq<KeyPackageEvent>): StoreState {
    if events == [] then s else After(t, v, Run(t, v, s, events[..|events| - 1]), events[|events| - 1])
  }

  predicate Succeeded(t: Tools, v: Vault, s: StoreState, e: KeyPackageEvent, digest: Text) {
    e.Call? && Target(t, e.op) == Some(digest) && Perform(t, v, s, e.op, e.env).result.Ok?
  }

  predicate ConsumesNow(t: Tools, v: Vault, s: StoreState, e: KeyPackageEvent, digest: Text) {
    Succeeded(t, v, s, e, digest) && e.op.Consume?
  }

  // Successful consumptions of a package in a run.
  function Consumptions(t: Tools, v: Vault, s: StoreState, events: seq<KeyPackageEvent>, digest: Text): nat {
    if events == [] then 0
    else
      var front, e := events[..|events| - 1], events[|events| - 1];
      Consumptions(t, v, s, front, digest) + if ConsumesNow(t, v, Run(t, v, s, front), e, digest) then 1 else 0
  }

  predicate IsConsumed(r: Option<KeyPackageRecord>) { r.Some? && r.value.state == Consumed }

  predicate GoneForGood(t: Tools, v: Vault, s: StoreState, digest: Text) {
    IsConsumed(RecordOf(t, s.records, digest)) && IsConsumed(OnDisk(t, v, s, digest))
  }

  // A consumption is in memory and on disk when it returns, and neither ever loses it.
  lemma ConsumedStep(t: Tools, v: Vault, s: StoreState, e: KeyPackageEvent, digest: Text)
    requires Lawful(t) && Aead.Lawful(v.aead)
    ensures var after := After(t, v, s, e);
            && (GoneForGood(t, v, s, digest) || ConsumesNow(t, v, s, e, digest) ==> GoneForGood(t, v, after, digest))
            && (GoneForGood(t, v, s, digest) ==> !ConsumesNow(t, v, s, e, digest))
  {
    hide Perform, RecordOf, Target, DigestOf, IsExpired, PackageId, OpenFile, Reopened;
    match e {
      case Call(op, env) =>
        PackageMovesForward(t, v, s, op, env, digest);
        PackageMovesForward(t, v, s, op, Working(env), digest);
        DiskStep(t, v, s, op, env, digest);
      case Reopen(marker) => ReopenedState(v, s, marker);
    }
  }

  // In every run, restarts and failed or cut-short commits included, at most one consumption of a package
  // succeeds; after it the package is Consumed in memory and in the store file.
  lemma {:induction false} ConsumedOnce(t: Tools, v: Vault, s: StoreState, events: seq<KeyPackageEvent>, digest: Text)
    requires Lawful(t) && Aead.Lawful(v.aead)
    ensures Consumptions(t, v, s, events, digest) == 0 || GoneForGood(t, v, Run(t, v, s, events), digest)
    ensures Consumptions(t, v, s, events, digest) <= 1
  {
    hide After, GoneForGood, ConsumesNow;
    if events != [] {
      var front, e := events[..|events| - 1], events[|events| - 1];
      ConsumedOnce(t, v, s, front, digest);
      ConsumedStep(t, v, Run(t, v, s, front), e, digest);
    }
  }

  // ---- whose reservation a consumption names ----

  // The reservation memory holds and the one on disk. A reserve that returns Ok sets the first; one
  // whose store file lands, reported or not, the second; any other write copies memory to disk; and a
  // new process takes over what is on disk.
  datatype Held = Held(memory: Option<Text>, disk: Option<Text>)

  function HeldAfter(t: Tools, v: Vault, s: StoreState, held: Held, e: KeyPackageEvent, digest: Text): Held {
    match e
    case Reopen(marker) => if Reopens(v, s, marker) then Held(held.disk, held.disk) else held
    case Call(op, env) =>
      var p := Perform(t, v, s, op, env);
      var named := if op.Reserve? && Target(t, op) == Some(digest) then Some(DigestOf(t, op.reservation)) else held.memory;
      Held(if p.result.Ok? then named else held.memory,
           if p.state.disk.store != s.disk.store then named else held.disk)
  }

  function Reservations(t: Tools, v: Vault, s: StoreState, events: seq<KeyPackageEvent>, digest: Text): Held {
    if events == [] then Held(None, None)
    else
      var front, e := events[..|events| - 1], events[|events| - 1];
      HeldAfter(t, v, Run(t, v, s, front), Reservations(t, v, s, front, digest), e, digest)
  }

  predicate ReservedFor(r: Option<KeyPackageRecord>, reservation: Option<Text>) {
    r.Some? && r.value.state == Reserved ==> r.value.reservationDigest == reservation
  }

  predicate HoldsFor(t: Tools, v: Vault, s: StoreState, held: Held, digest: Text) {
    ReservedFor(RecordOf(t, s.records, digest), held.memory) && ReservedFor(OnDisk(t, v, s, digest), held.disk)
  }

  lemma HeldStep(t: Tools, v: Vault, s: StoreState, held: Held, e: KeyPackageEvent, digest: Text)
    requires Lawful(t) && Aead.Lawful(v.aead) && HoldsFor(t, v, s, held, digest)
    ensures HoldsFor(t, v, After(t, v, s, e), HeldAfter(t, v, s, held, e, digest), digest)
    ensures ConsumesNow(t, v, s, e, digest) ==> held.memory == Some(DigestOf(t, e.op.reservation))
  {
    hide Perform, RecordOf, Target, DigestOf, IsExpired, PackageId, OpenFile, Reopened, Reopens;
    match e {
      case Call(op, env) =>
        PackageMovesForward(t, v, s, op, env, digest);
        PackageMovesForward(t, v, s, op, Working(env), digest);
        DiskStep(t, v, s, op, env, digest);
      case Reopen(marker) => ReopenedState(v, s, marker);
    }
  }

  // The digest of the last reservation of a package that returned Ok.
  function ReservedBy(t: Tools, v: Vault, s: StoreState, events: seq<KeyPackageEvent>, digest: Text): Option<Text> {
    if events == [] then None
    else
      var front, e := events[..|events| - 1], events[|events| - 1];
      if Succeeded(t, v, Run(t, v, s, front), e, digest) && e.op.Reserve? then Some(DigestOf(t, e.op.reservation))
      else ReservedBy(t, v, s, front, digest)
  }

  predicate NoRestart(events: seq<KeyPackageEvent>) {
    forall i :: 0 <= i < |events| ==> events[i].Call?
  }

  // A consumption names the reservation memory holds: in a process's own run that of the last reserve
  // that returned Ok, and after a restart that of the last one whose store file was in place.
  lemma {:induction false} ConsumesReserved(t: Tools, v: Vault, s: StoreState, events: seq<KeyPackageEvent>, digest: Text)
    requires Lawful(t) && Aead.Lawful(v.aead) && HoldsFor(t, v, s, Held(None, None), digest)
    ensures HoldsFor(t, v, Run(t, v, s, events), Reservations(t, v, s, events, digest), digest)
    ensures NoRestart(events) ==> Reservations(t, v, s, events, digest).memory == ReservedBy(t, v, s, events, digest)
    ensures events != [] ==>
              var front, e := events[..|events| - 1], events[|events| - 1];
              ConsumesNow(t, v, Run(t, v, s, front), e, digest) ==>
                Reservations(t, v, s, front, digest).memory == Some(DigestOf(t, e.op.reservation))
  {
    hide Perform, After, Reopens, HoldsFor, Target, DigestOf;
    if events != [] {
      var front, e := events[..|events| - 1], events[|events| - 1];
      ConsumesReserved(t, v, s, front, digest);
      HeldStep(t, v, Run(t, v, s, front), Reservations(t, v, s, front, digest), e, digest);
    }
  }

  // Such a reserve: it returns an error because only the directory sync failed, the daemon restarts, and
  // the reservation that was never granted consumes the package.
  lemma UnreportedReservation(t: Tools, v: Vault, s: StoreState, id: Bytes, reservation: Bytes, now: U64, r: KeyPackageRecord,
                              first: CommitEnv, second: CommitEnv)
    requires Lawful(t) && Aead.Lawful(v.aead) && Settled(v, s) && s.revision + 1 < MAX_U64
    requires RecordOf(t, s.records, DigestOf(t, id)) == Some(r) && r.state == Available && !IsExpired(r, now)
    requires |t.write(r.(state := Reserved, reservationDigest := Some(DigestOf(t, reservation))))| <= MAX_VALUE_BYTES
    requires |t.write(r.(state := Consumed, reservationDigest := None))| <= MAX_VALUE_BYTES
    requires first.prepared && first.storeWrite == FailedAfter && second.prepared && Succeeds(second)
    ensures var reserved := Perform(t, v, s, Reserve(id, reservation, now), first);
            && reserved.result.Err? && reserved.state.records == s.records
            && Perform(t, v, Reopened(v, reserved.state, Done), Consume(id, reservation), second).result.Ok?
  {
    hide Settled, Apply, ApplyAll, DigestOf, RecordOf, IsExpired, Open, OpenFile, Reopened, BatchOk, StateId, Store;
    var digest := DigestOf(t, id);
    var claimed := r.(state := Reserved, reservationDigest := Some(DigestOf(t, reservation)));
    SettledIsUnlocked(v, s);
    var reserve := StateWrite(t, v, s, id, r, claimed, Working(first));
    BatchLandsUnreported(v, s, reserve, first);
    PackageMovesForward(t, v, s, Reserve(id, reservation, now), Working(first), digest);
    var step, good := Apply(v, s, Batch(reserve), first), Apply(v, s, Batch(reserve), Working(first));
    OperationIsAtomic(v, s, Event(Batch(reserve), Working(first)));
    OpensReopens(v, step.state, View(good.state.records, good.state.revision));
    var found := Reopened(v, step.state, Done);
    SettledIsUnlocked(v, found);
    var consume := StateWrite(t, v, found, id, claimed, r.(state := Consumed, reservationDigest := None), second);
  }

  // Rewriting the state record of a known package succeeds when the file steps do.
  lemma StateWrite(t: Tools, v: Vault, s: StoreState, id: Bytes, from: KeyPackageRecord, to: KeyPackageRecord, env: CommitEnv)
    returns (ms: seq<Mutation>)
    requires Lawful(t) && Settled(v, s) && s.revision < MAX_U64 && env.prepared && Succeeds(env)
    requires RecordOf(t, s.records, DigestOf(t, id)) == Some(from) && |t.write(to)| <= MAX_VALUE_BYTES
    ensures Store(t, DigestOf(t, id), to) == Write(ms) && BatchOk(ms)
    ensures Apply(v, s, Batch(ms), env).result.Ok?
  {
    hide Settled, Apply, ApplyAll, DigestOf, ValidKey, StateId;
    var digest := DigestOf(t, id);
    ms := [Put(StateId(digest), t.write(to))];
    KeysOk(t, id);
    BatchOfOne(s.records, ms[0]);
    WithinCount(v, s);
    OperationSucceeds(v, s, Batch(ms), env);
  }

  lemma WithinCount(v: Vault, s: StoreState)
    requires Settled(v, s)
    ensures |s.records| <= MAX_RECORDS
  {
    hide Open, RecordsOk;
    OpenedWithinLimits(v.aead, v.key, s.disk);
  }

  lemma OpensReopens(v: Vault, s: StoreState, view: View)
    requires OpensTo(v, s.disk, view)
    ensures var found := Reopened(v, s, Done);
            Settled(v, found) && found.records == view.records && found.revision == view.revision
  {
    hide Open, OpenedDisk, OpenFile;
    ReopenedState(v, s, Done);
  }

  // ---- replenishing ----

  function Digests(t: Tools, fs: seq<Fresh>): (ds: seq<Text>)
    ensures |ds| == |fs|
  {
    seq(|fs|, i requires 0 <= i < |fs| => DigestOf(t, fs[i].id))
  }

  function StateIds(ds: seq<Text>): set<RecordId> {
    set d | d in ds :: StateId(d)
  }

  lemma {:induction false} StateIdCount(ds: seq<Text>)
    ensures |StateIds(ds)| == |Elements(ds)|
  {
    hide StateId, StateIds, Elements;
    if ds == [] {
      NoIds();
    } else {
      var front, last := ds[..|ds| - 1], ds[|ds| - 1];
      StateIdCount(front);
      OneIdMore(ds);
    }
  }

  lemma NoIds()
    ensures StateIds([]) == {} && Elements<Text>([]) == {}
  {}

  lemma OneIdMore(ds: seq<Text>)
    requires ds != []
    ensures var front, last := ds[..|ds| - 1], ds[|ds| - 1];
            && StateIds(ds) == StateIds(front) + {StateId(last)} && Elements(ds) == Elements(front) + {last}
            && (StateId(last) in StateIds(front) <==> last in Elements(front))
  {
    hide StateId;
    var front, last := ds[..|ds| - 1], ds[|ds| - 1];
    assert ds == front + [last];
    IdsApart(last);
    if StateId(last) in StateIds(front) {
      var other :| other in front && StateId(other) == StateId(last);
    }
  }

  lemma AvailableGrows(t: Tools, records: Records, digest: Text, package: Bytes, r: KeyPackageRecord, now: U64)
    requires Lawful(t) && |t.write(r)| <= MAX_VALUE_BYTES && r.state == Available && !IsExpired(r, now)
    ensures AvailableIds(t, records[PackageId(digest) := package][StateId(digest) := t.write(r)], now)
            == AvailableIds(t, records, now) + {StateId(digest)}
  {
    IdsApart(digest);
  }

  lemma {:induction false} AvailableAfter(t: Tools, records: Records, now: U64, fs: seq<Fresh>)
    requires Lawful(t) && FirstProblem(t, records, now, fs).None?
    ensures AvailableIds(t, ApplyAll(records, PutAll(t, fs)), now) == AvailableIds(t, records, now) + StateIds(Digests(t, fs))
    ensures AvailableIds(t, records, now) !! StateIds(Digests(t, fs))
  {
    hide DigestOf, FirstProblem, ApplyAll, AvailableIds, StateId, PackageId;
    if fs == [] {
      PutNothing(t, records);
    } else {
      var front, f := fs[..|fs| - 1], fs[|fs| - 1];
      FirstProblemFront(t, records, now, fs);
      AvailableAfter(t, records, now, front);
      PutAllGrows(t, records, fs);
      AvailableGrows(t, ApplyAll(records, PutAll(t, front)), DigestOf(t, f.id), f.package,
                     NewRecord(Some((f.notBefore, f.notAfter))), now);
      assert Digests(t, fs) == Digests(t, front) + [DigestOf(t, f.id)];
      assert StateIds(Digests(t, fs)) == StateIds(Digests(t, front)) + {StateId(DigestOf(t, f.id))};
      UnknownIsNotAvailable(t, records, DigestOf(t, f.id), now);
    }
  }

  lemma UnknownIsNotAvailable(t: Tools, records: Records, digest: Text, now: U64)
    ensures !Known(t, records, digest) ==> StateId(digest) !in AvailableIds(t, records, now)
  {}

  // A successful replenish raises the available count by one for each distinct digest it took, so it
  // reaches max(previous, minimum) exactly when the packages it took are distinct. An error leaves the
  // count as it was unless the batch leaks, and then adds what leaked.
  lemma ReplenishReachesMinimum(t: Tools, v: Vault, s: StoreState, op: KeyPackageOp, env: CommitEnv)
    requires Lawful(t) && !s.locked && op.Replenish?
    ensures var p := Perform(t, v, s, op, env);
            var before, after := |AvailableIds(t, s.records, op.now)|, |AvailableIds(t, p.state.records, op.now)|;
            var taken := Taken(t, s.records, op);
            && (p.result.Err? ==>
                  after == before + if Leaks(t, s, op) then |Elements(Digests(t, taken[..FirstLarge(taken)]))| else 0)
            && (p.result.Ok? ==>
                  && after == before + |Elements(Digests(t, taken))|
                  && (after == (if before >= op.minimum then before else op.minimum) <==> Distinct(Digests(t, taken))))
  {
    hide DigestOf, ApplyAll, Perform, FirstProblem, AvailableIds, StateId, PackageId, FirstLarge, BatchOk;
    PerformEffect(t, v, s, op, env);
    var p := Perform(t, v, s, op, env);
    var taken := Taken(t, s.records, op);
    ElementCount(Digests(t, taken));
    if Leaks(t, s, op) {
      var k := FirstLarge(taken);
      ProblemPrefix(t, s.records, op.now, taken, k);
      AvailableAfter(t, s.records, op.now, taken[..k]);
      StateIdCount(Digests(t, taken[..k]));
    } else if p.result.Ok? {
      match PlanOf(t, s.records, op) {
        case Nothing =>
          assert Digests(t, taken) == [];
          assert Elements(Digests(t, taken)) == {};
        case Write(ms) =>
          AvailableAfter(t, s.records, op.now, taken);
          StateIdCount(Digests(t, taken));
      }
    }
  }

  // Two copies of one fresh package are accepted, and the minimum of two is then missed.
  lemma DuplicateFallsShort(t: Tools, v: Vault, s: StoreState, f: Fresh, now: U64, env: CommitEnv)
    requires Lawful(t) && Settled(v, s) && env.prepared && Succeeds(env)
    requires |s.records| + 2 <= MAX_RECORDS && s.revision < MAX_U64
    requires |f.package| <= MAX_VALUE_BYTES && Problem(t, s.records, now, f).None?
    requires AvailableIds(t, s.records, now) == {}
    ensures var p := Perform(t, v, s, Replenish(2, now, [f, f]), env);
            p.result.Ok? && |AvailableIds(t, p.state.records, now)| == 1
  {
    hide DigestOf, Settled, AvailableIds, StateId, PackageId, Problem, Apply, ApplyAll, PutAll;
    var op, pair := Replenish(2, now, [f, f]), [f, f];
    SettledIsUnlocked(v, s);
    assert Taken(t, s.records, op) == pair;
    assert pair[..1] == [f] && [f][..0] == [];
    assert FirstProblem(t, s.records, now, [f]) == Problem(t, s.records, now, f);
    assert FirstProblem(t, s.records, now, pair).None?;
    assert FirstLarge(pair) == 2;
    PutAllPrefix(t, s.records, now, pair);
    PairSize(t, s.records, f);
    OperationSucceeds(v, s, Batch(PutAll(t, pair)), env);
    ReplenishReachesMinimum(t, v, s, op, env);
    var ds := Digests(t, pair);
    assert ds == [DigestOf(t, f.id), DigestOf(t, f.id)];
    assert Elements(ds) == {DigestOf(t, f.id)};
  }

  lemma PairSize(t: Tools, records: Records, f: Fresh)
    ensures |ApplyAll(records, PutAll(t, [f, f]))| <= |records| + 2
  {
    hide DigestOf, StateId, PackageId, ApplyAll, PutAll;
    assert [f, f][..1] == [f] && [f][..0] == [];
    PutAllGrows(t, records, [f, f]);
    PutAllGrows(t, records, [f]);
    PutNothing(t, records);
    var after := ApplyAll(records, PutAll(t, [f, f]));
    var package, state := PackageId(DigestOf(t, f.id)), StateId(DigestOf(t, f.id));
    assert after.Keys == records.Keys + {package, state};
  }
}
