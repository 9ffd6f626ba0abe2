/** Persisting the ledger as one store record, and when `restore` takes it back. */
module LedgerRestore {
  import opened Prelude
  import opened Text
  import opened Ledger
  import RecordCodec

  const MAX_DIGEST_BYTES := 128
  const MAX_RELAY_ID_BYTES := 256
  const MAX_WIRE_BYTES := 256 * 1024
  const MAX_DESTINATION_BYTES := 2 * 1024

  // serde_json on the record map.
  datatype Json = Json(write: Ledger -> Bytes, read: Bytes -> Option<Ledger>)

  ghost predicate LawfulJson(j: Json) {
    forall l :: j.read(j.write(l)) == Some(l)
  }

  predicate Bounded(t: Option<Text>, limit: nat) {
    t.Some? ==> t.value != [] && |t.value| <= limit
  }

  predicate ValidPersisted(key: Text, r: DeliveryRecord) {
    && key != [] && |key| <= MAX_DIGEST_BYTES && r.digest == key
    && r.attempts <= MAX_ATTEMPTS
    && Bounded(r.relayId, MAX_RELAY_ID_BYTES)
    && Bounded(r.wire, MAX_WIRE_BYTES)
    && Bounded(r.destination, MAX_DESTINATION_BYTES)
    && match r.state {
         case Retryable => r.attempts > 0 && r.nextRetryAt.Some? && r.wire.Some?
         case Queued => r.nextRetryAt.None? && r.wire.Some? && r.destination.Some?
         case _ => r.nextRetryAt.None?
       }
  }

  predicate Restorable(l: Ledger) {
    |l| <= RecordCodec.MAX_RECORDS && forall d :: d in l ==> ValidPersisted(d, l[d])
  }

  // DeliveryLedger::restore on the stored value, if any.
  function Restore(j: Json, stored: Option<Bytes>): Result<Ledger, RecordCodec.StorageError> {
    match stored
    case None => Ok(map[])
    case Some(bytes) =>
      match j.read(bytes)
      case None => Err(RecordCodec.CorruptStore)
      case Some(l) => if Restorable(l) then Ok(l) else Err(RecordCodec.CorruptStore)
  }

  // ---- the calls the delivery routes make ----

  predicate Fits(t: Option<Text>, limit: nat) { t.Some? && Bounded(t, limit) }

  predicate Routed(op: Op) {
    match op
    case Register(d, _, wire, _, destination) =>
      |d| <= MAX_DIGEST_BYTES && Fits(wire, MAX_WIRE_BYTES) && Fits(destination, MAX_DESTINATION_BYTES)
    case RegisterReceived(d, id) => |d| <= MAX_DIGEST_BYTES && Bounded(Some(id), MAX_RELAY_ID_BYTES)
    case Discard(_, _) => true
    case ExpireDue(_) => true
    case OnRecord(_, act) =>
      match act {
        case BindRelayId(id) => Bounded(Some(id), MAX_RELAY_ID_BYTES)
        case AcceptRetry(expected, id) => expected in {Queued, Retryable} && Bounded(Some(id), MAX_RELAY_ID_BYTES)
        case ScheduleRetry(_) => false
        case ScheduleRetryIfCurrent(expected, _) => expected in {Encrypted, Queued, Retryable}
        case _ => true
      }
  }

  predicate RoutedRun(ops: seq<Op>) {
    forall i :: 0 <= i < |ops| ==> Routed(ops[i])
  }

  // What such calls keep of every record: all that restore demands except the attempt limit.
  predicate Persistable(key: Text, r: DeliveryRecord) {
    && RetryInvariant(r)
    && key != [] && |key| <= MAX_DIGEST_BYTES && r.digest == key
    && Bounded(r.relayId, MAX_RELAY_ID_BYTES)
    && Bounded(r.wire, MAX_WIRE_BYTES)
    && Bounded(r.destination, MAX_DESTINATION_BYTES)
    && (r.state in {Encrypted, Queued, Retryable} ==> r.wire.Some? && r.destination.Some?)
  }

  predicate LedgerPersistable(l: Ledger) {
    forall d :: d in l ==> Persistable(d, l[d])
  }

  lemma ActKeepsPersistable(key: Text, r: DeliveryRecord, act: Act)
    requires Persistable(key, r) && Routed(OnRecord(key, act))
    ensures Persistable(key, ActOn(r, act).record)
  {
    ActKeepsRetryInvariant(r, act);
  }

  lemma StepKeepsPersistable(l: Ledger, op: Op)
    requires LedgerPersistable(l) && Routed(op)
    ensures LedgerPersistable(Apply(l, op).ledger)
  {
    hide ActOn;
    if op.OnRecord? && op.digest in l {
      hide Persistable;
      ActKeepsPersistable(op.digest, l[op.digest], op.act);
    }
  }

  lemma {:induction false} RunKeepsPersistable(l: Ledger, ops: seq<Op>)
    requires LedgerPersistable(l) && RoutedRun(ops)
    ensures LedgerPersistable(Run(l, ops))
  {
    if ops != [] {
      RunKeepsPersistable(l, ops[..|ops| - 1]);
      StepKeepsPersistable(Run(l, ops[..|ops| - 1]), ops[|ops| - 1]);
    }
  }

  predicate NoneExhausted(l: Ledger) {
    forall d :: d in l ==> l[d].attempts <= MAX_ATTEMPTS
  }

  // After any run of those calls, persist then restore returns the ledger unchanged exactly
  // when no record has exhausted its retries; otherwise restore refuses the whole ledger.
  lemma RestoreOfPersisted(j: Json, l: Ledger, ops: seq<Op>)
    requires LawfulJson(j) && LedgerPersistable(l) && RoutedRun(ops)
    requires |Run(l, ops)| <= RecordCodec.MAX_RECORDS
    ensures var now := Run(l, ops);
            Restore(j, Some(j.write(now))) == if NoneExhausted(now) then Ok(now) else Err(RecordCodec.CorruptStore)
  {
    RunKeepsPersistable(l, ops);
    var now := Run(l, ops);
    forall d | d in now ensures ValidPersisted(d, now[d]) <==> now[d].attempts <= MAX_ATTEMPTS {
      assert Persistable(d, now[d]);
    }
  }

  // Whatever restore accepts can be worked with: every record is under its own digest and within its
  // limits, keeps the retry invariant with a retry to spare, and a queued one is due at once.
  lemma RestoredIsUsable(j: Json, stored: Option<Bytes>, d: Text)
    ensures Restore(j, stored).Ok? && d in Restore(j, stored).value ==>
              var r := Restore(j, stored).value[d];
              && r.digest == d && 0 < |d| <= 128 && RetryInvariant(r) && r.attempts <= MAX_ATTEMPTS
              && (r.relayId.Some? ==> 0 < |r.relayId.value| <= 256)
              && (r.wire.Some? ==> 0 < |r.wire.value| <= 262144)
              && (r.destination.Some? ==> 0 < |r.destination.value| <= 2048)
              && (r.state == Queued ==> forall now: U64 :: IsDue(r, now))
              && (r.state == Retryable ==> r.wire.Some?)
    ensures Restore(j, stored).Ok? ==> |Restore(j, stored).value| <= 4096
  {
    if Restore(j, stored).Ok? && d in Restore(j, stored).value {
      assert ValidPersisted(d, Restore(j, stored).value[d]);
    }
  }

  // ---- a relay that stays down ----

  // When a message first posted at `at` is due again after n failures, with no failure late.
  function DueTime(at: nat, n: nat): nat { at + 5 * (Pow2(n) - 1) }

  // n posts of one message, each made and failed at the moment the message is due.
  function FailedPosts(d: Text, at: U64, n: nat): seq<Op>
    requires n <= MAX_ATTEMPTS + 1 && at + 155 <= MAX_U64
  {
    if n == 0 then []
    else
      DueTimeInRange(at, n - 1);
      FailedPosts(d, at, n - 1)
      + [OnRecord(d, ScheduleRetryIfCurrent(if n == 1 then Queued else Retryable, DueTime(at, n - 1)))]
  }

  // The record after n failures.
  function FailedRecord(register: Op, at: U64, n: nat): DeliveryRecord
    requires register.Register? && n <= MAX_ATTEMPTS + 1 && at + 155 <= MAX_U64
  {
    if n == 0 then NewRecord(register)
    else if n <= MAX_ATTEMPTS then
      DueTimeInRange(at, n);
      NewRecord(register).(state := Retryable, attempts := n, nextRetryAt := Some(DueTime(at, n)))
    else NewRecord(register).(state := Failed, attempts := n)
  }

  lemma DueTimeInRange(at: nat, n: nat)
    requires n <= MAX_ATTEMPTS
    ensures at <= DueTime(at, n) <= at + 155
    ensures n > 0 ==> DueTime(at, n) == DueTime(at, n - 1) + Backoff(n)
  {
    assert Pow2(1) == 2 && Pow2(2) == 4;
    assert Pow2(3) == 2 * Pow2(2) && Pow2(4) == 2 * Pow2(3) && Pow2(5) == 2 * Pow2(4);
  }

  lemma FailsOnceMore(register: Op, at: U64, n: nat)
    requires register.Register? && register.queued && 0 < n <= MAX_ATTEMPTS + 1 && at + 155 <= MAX_U64
    ensures DueTime(at, n - 1) <= MAX_U64
    ensures ActOn(FailedRecord(register, at, n - 1), ScheduleRetryIfCurrent(if n == 1 then Queued else Retryable, DueTime(at, n - 1))).record
            == FailedRecord(register, at, n)
  {
    hide Backoff, Pow2;
    DueTimeInRange(at, n - 1);
    if n <= MAX_ATTEMPTS {
      DueTimeInRange(at, n);
    }
  }

  // One message, posted and failed n times: it is due at exactly the times it is posted, up to the last.
  lemma {:induction false} FailedRun(register: Op, at: U64, n: nat)
    requires register.Register? && register.queued && register.digest != []
    requires n <= MAX_ATTEMPTS + 1 && at + 155 <= MAX_U64
    ensures Run(map[], [register] + FailedPosts(register.digest, at, n)) == map[register.digest := FailedRecord(register, at, n)]
    ensures n <= MAX_ATTEMPTS && register.wire.Some? && register.destination.Some? ==>
              forall now: U64 :: IsDue(FailedRecord(register, at, n), now) <==> n == 0 || DueTime(at, n) <= now
    ensures n <= MAX_ATTEMPTS && (register.expiresAt.Some? ==> at + 155 < register.expiresAt.value) ==>
              DueTime(at, n) <= MAX_U64 && !Expires(FailedRecord(register, at, n), DueTime(at, n))
  {
    hide Run, ActOn, DueTime;
    var d := register.digest;
    if n <= MAX_ATTEMPTS {
      DueTimeInRange(at, n);
    }
    if n == 0 {
      assert [register] + FailedPosts(d, at, 0) == [] + [register];
      RunNone(map[]);
      RunExtends(map[], [], register);
    } else {
      FailedRun(register, at, n - 1);
      FailsOnceMore(register, at, n);
      var act := ScheduleRetryIfCurrent(if n == 1 then Queued else Retryable, DueTime(at, n - 1));
      var front := [register] + FailedPosts(d, at, n - 1);
      assert [register] + FailedPosts(d, at, n) == front + [OnRecord(d, act)];
      RunExtends(map[], front, OnRecord(d, act));
    }
  }

  lemma RunExtends(l: Ledger, ops: seq<Op>, op: Op)
    ensures Run(l, ops + [op]) == Apply(Run(l, ops), op).ledger
  {
    assert (ops + [op])[..|ops|] == ops;
  }

  lemma RunNone(l: Ledger)
    ensures Run(l, []) == l
  {}

  lemma {:induction false} FailedPostsRouted(d: Text, at: U64, n: nat)
    requires n <= MAX_ATTEMPTS + 1 && at + 155 <= MAX_U64
    ensures RoutedRun(FailedPosts(d, at, n))
  {
    hide DueTime;
    if n > 0 {
      FailedPostsRouted(d, at, n - 1);
    }
  }

  // A relay that stays down is enough: a message is posted, fails, and fails again at each of its five
  // retries. The ledger then holds one record, Failed with six attempts, and what was persisted can no
  // longer be restored, while after every earlier failure it could.
  lemma ExhaustionLocksTheLedger(j: Json, register: Op, at: U64, n: nat)
    requires LawfulJson(j) && register.Register? && register.queued && register.digest != [] && Routed(register)
    requires n <= MAX_ATTEMPTS + 1 && at + 155 <= MAX_U64
    ensures RoutedRun([register] + FailedPosts(register.digest, at, n))
    ensures var l := Run(map[], [register] + FailedPosts(register.digest, at, n));
            && l == map[register.digest := FailedRecord(register, at, n)]
            && Restore(j, Some(j.write(l))) == if n <= MAX_ATTEMPTS then Ok(l) else Err(RecordCodec.CorruptStore)
  {
    hide Run, FailedPosts, DueTime;
    FailedRun(register, at, n);
    FailedPostsRouted(register.digest, at, n);
    var l := map[register.digest := FailedRecord(register, at, n)];
    assert Restorable(l) <==> ValidPersisted(register.digest, l[register.digest]);
  }

  // The unconditional schedule_retry of the attachment route is not one of those calls. On a ledger
  // they have produced, its result can be restored exactly when the record was past scheduling, or
  // has a retry left and still carries its wire.
  lemma UnconditionalRetryRestores(j: Json, l: Ledger, d: Text, now: U64)
    requires LawfulJson(j) && LedgerPersistable(l) && NoneExhausted(l) && |l| <= RecordCodec.MAX_RECORDS && d in l
    ensures Restore(j, Some(j.write(Apply(l, OnRecord(d, ScheduleRetry(now))).ledger))).Ok? <==>
              || l[d].state in {RecipientReceived, Decrypted, Failed, Cancelled}
              || (l[d].attempts < MAX_ATTEMPTS && l[d].wire.Some?)
  {
    hide Backoff;
    var after := Apply(l, OnRecord(d, ScheduleRetry(now))).ledger;
    assert Persistable(d, l[d]);
    assert after.Keys == l.Keys;
    forall e | e in after && e != d ensures ValidPersisted(e, after[e]) {
      assert Persistable(e, l[e]);
    }
    assert Restorable(after) <==> ValidPersisted(d, after[d]);
  }
}
