/**
 The delivery ledger on values. Every operation but registration and discard acts on
 one record at a time, so the ledger is a map of records and `ActOn` is the state machine.
 */
module Ledger {
  import opened Prelude
  import opened Text

  datatype DeliveryState =
    | Draft | Encrypted | Queued | RelayAccepted | RecipientReceived | Decrypted | Retryable | Failed | Cancelled

  datatype DeliveryRecord = DeliveryRecord(
    digest: Text, state: DeliveryState, attempts: Byte, nextRetryAt: Option<U64>,
    relayId: Option<Text>, wire: Option<Text>, expiresAt: Option<U64>, destination: Option<Text>)

  type Ledger = map<Text, DeliveryRecord>

  datatype LedgerError = InvalidWire

  const MAX_ATTEMPTS := 5
  const MAX_BACKOFF := 3600

  predicate ValidTransition(from: DeliveryState, to: DeliveryState) {
    || (from == Encrypted && to == Queued)
    || (from == Queued && to == RelayAccepted)
    || (from == RelayAccepted && to == RecipientReceived)
    || (from == RecipientReceived && to == Decrypted)
    || (from == Retryable && to == Queued)
  }

  function Pow2(k: nat): (p: nat)
    ensures p > 0
  {
    if k == 0 then 1 else 2 * Pow2(k - 1)
  }

  // 5 * 2^(attempt - 1) seconds, saturating, capped at an hour.
  function Backoff(attempt: nat): nat
    requires attempt > 0
  {
    var raw := 5 * Pow2(attempt - 1);
    var saturated := if raw <= MAX_U64 then raw else MAX_U64;
    if saturated <= MAX_BACKOFF then saturated else MAX_BACKOFF
  }

  // ---- what each method does to the record it finds ----

  datatype Act =
    | Transition(to: DeliveryState)
    | AcknowledgeRecipient
    | BindRelayId(id: Text)
    | MarkDecrypted
    | Cancel
    | ScheduleRetry(now: U64)
    | ScheduleRetryIfCurrent(expected: DeliveryState, now: U64)
    | MarkFailed
    | MarkFailedIfCurrent(expected: DeliveryState)
    | AcceptRetry(expected: DeliveryState, id: Text)

  datatype Acted = Acted(record: DeliveryRecord, result: Result<bool, LedgerError>)

  function Schedule(r: DeliveryRecord, now: U64): Acted {
    if r.state in {RecipientReceived, Decrypted, Failed, Cancelled} then Acted(r, Ok(false))
    else
      var attempts := if r.attempts < 255 then r.attempts + 1 else 255;
      if attempts > MAX_ATTEMPTS then Acted(r.(attempts := attempts, state := Failed, nextRetryAt := None), Ok(false))
      else Acted(r.(attempts := attempts, state := Retryable, nextRetryAt := Some(SaturatingAdd(now, Backoff(attempts)))),
                 Ok(true))
  }

  function Fail(r: DeliveryRecord): Acted {
    if r.state == Failed then Acted(r, Ok(false))
    else Acted(r.(state := Failed, nextRetryAt := None, wire := None, destination := None), Ok(true))
  }

  function ActOn(r: DeliveryRecord, act: Act): Acted {
    match act
    case Transition(to) =>
      if ValidTransition(r.state, to) then Acted(r.(state := to, nextRetryAt := None), Ok(true))
      else Acted(r, Err(InvalidWire))
    case AcknowledgeRecipient =>
      if r.state in {RecipientReceived, Decrypted} then Acted(r, Ok(false))
      else if r.state != RelayAccepted then Acted(r, Err(InvalidWire))
      else Acted(r.(state := RecipientReceived), Ok(true))
    case BindRelayId(id) => Acted(r.(relayId := Some(id)), Ok(true))
    case MarkDecrypted =>
      if r.state == Decrypted then Acted(r, Ok(false))
      else if r.state != RecipientReceived then Acted(r, Err(InvalidWire))
      else Acted(r.(state := Decrypted), Ok(true))
    case Cancel =>
      if r.state in {RelayAccepted, RecipientReceived, Decrypted, Failed, Cancelled} then Acted(r, Ok(false))
      else Acted(r.(state := Cancelled, nextRetryAt := None, wire := None), Ok(true))
    case ScheduleRetry(now) => Schedule(r, now)
    case ScheduleRetryIfCurrent(expected, now) => if r.state != expected then Acted(r, Ok(false)) else Schedule(r, now)
    case MarkFailed => Fail(r)
    case MarkFailedIfCurrent(expected) => if r.state != expected then Acted(r, Ok(false)) else Fail(r)
    case AcceptRetry(expected, id) =>
      if r.state != expected && r.state != Cancelled then Acted(r, Ok(false))
      else Acted(r.(relayId := Some(id), state := RelayAccepted, nextRetryAt := None), Ok(true))
  }

  // expire_due, for one record.
  predicate Expires(r: DeliveryRecord, now: U64) {
    r.expiresAt.Some? && r.expiresAt.value <= now && r.state != Decrypted && r.state != Cancelled
  }

  function Expire(r: DeliveryRecord, now: U64): DeliveryRecord {
    if Expires(r, now) then r.(state := Failed, nextRetryAt := None, wire := None) else r
  }

  // due_retries, for one record.
  predicate IsDue(r: DeliveryRecord, now: U64) {
    && r.state in {Retryable, Queued}
    && (r.nextRetryAt.Some? ==> r.nextRetryAt.value <= now)
    && r.wire.Some? && r.destination.Some?
  }

  // ---- the operations of the ledger ----

  datatype Op =
    | Register(digest: Text, queued: bool, wire: Option<Text>, expiresAt: Option<U64>, destination: Option<Text>)
    | RegisterReceived(digest: Text, relayId: Text)
    | Discard(digest: Text, expected: DeliveryState)
    | OnRecord(digest: Text, act: Act)
    | ExpireDue(now: U64)

  datatype Applied = Applied(ledger: Ledger, result: Result<bool, LedgerError>)

  function NewRecord(op: Op): DeliveryRecord
    requires op.Register? || op.RegisterReceived?
  {
    match op
    case Register(d, queued, wire, expiresAt, destination) =>
      DeliveryRecord(d, if queued then Queued else Encrypted, 0, None, None, wire, expiresAt, destination)
    case RegisterReceived(d, relayId) =>
      DeliveryRecord(d, RecipientReceived, 0, None, Some(relayId), None, None, None)
  }

  function Apply(l: Ledger, op: Op): Applied {
    match op
    case Register(d, _, _, _, _) =>
      if d == [] || d in l then Applied(l, Err(InvalidWire)) else Applied(l[d := NewRecord(op)], Ok(true))
    case RegisterReceived(d, _) =>
      if d == [] then Applied(l, Err(InvalidWire))
      else if d in l then Applied(l, Ok(false))
      else Applied(l[d := NewRecord(op)], Ok(true))
    case Discard(d, expected) =>
      if d in l && l[d].state == expected then Applied(l - {d}, Ok(true)) else Applied(l, Ok(false))
    case OnRecord(d, act) =>
      if d !in l then Applied(l, Err(InvalidWire))
      else Applied(l[d := ActOn(l[d], act).record], ActOn(l[d], act).result)
    case ExpireDue(now) => Applied(map d | d in l :: Expire(l[d], now), Ok(true))
  }

  function Run(l: Ledger, ops: seq<Op>): Ledger {
    if ops == [] then l else Apply(Run(l, ops[..|ops| - 1]), ops[|ops| - 1]).ledger
  }

  // ---- retry accounting over whole runs ----

  function Attempts(l: Ledger, d: Text): nat {
    if d in l then l[d].attempts else 0
  }

  predicate Schedules(op: Op, d: Text) {
    op.OnRecord? && op.digest == d && (op.act.ScheduleRetry? || op.act.ScheduleRetryIfCurrent?)
  }

  // Does this operation exhaust d's retries?
  predicate Exhausts(l: Ledger, op: Op, d: Text) {
    Schedules(op, d) && d in l && Apply(l, op).result == Ok(false) && Apply(l, op).ledger != l
  }

  // Successful schedulings and exhaustions of d in a run.
  function Scheduled(l: Ledger, ops: seq<Op>, d: Text): nat {
    if ops == [] then 0
    else
      var before, op := Run(l, ops[..|ops| - 1]), ops[|ops| - 1];
      Scheduled(l, ops[..|ops| - 1], d) + if Schedules(op, d) && Apply(before, op).result == Ok(true) then 1 else 0
  }

  function Exhausted(l: Ledger, ops: seq<Op>, d: Text): nat {
    if ops == [] then 0
    else
      var before, op := Run(l, ops[..|ops| - 1]), ops[|ops| - 1];
      Exhausted(l, ops[..|ops| - 1], d) + if Exhausts(before, op, d) then 1 else 0
  }

  // Callers of accept_retry pass the state of a record they found Queued or Retryable.
  predicate Disciplined(op: Op) {
    && !op.Discard?
    && (op.OnRecord? && op.act.AcceptRetry? ==> op.act.expected in {Queued, Retryable})
  }

  predicate DisciplinedRun(ops: seq<Op>) {
    forall i :: 0 <= i < |ops| ==> Disciplined(ops[i])
  }

  // What every record keeps: a retry time exactly while Retryable, a sixth attempt only when Failed.
  predicate RetryInvariant(r: DeliveryRecord) {
    && (r.nextRetryAt.Some? <==> r.state == Retryable)
    && (r.state == Retryable ==> r.attempts >= 1)
    && r.attempts <= MAX_ATTEMPTS + 1
    && (r.attempts == MAX_ATTEMPTS + 1 ==> r.state == Failed)
  }

  predicate LedgerInvariant(l: Ledger) {
    forall d :: d in l ==> RetryInvariant(l[d])
  }

  // One act: attempts move only by a scheduling, by exactly one, and Failed is final.
  lemma ActKeepsRetryInvariant(r: DeliveryRecord, act: Act)
    requires RetryInvariant(r)
    requires act.AcceptRetry? ==> act.expected in {Queued, Retryable}
    ensures RetryInvariant(ActOn(r, act).record)
    ensures r.state == Failed ==> ActOn(r, act).record.state == Failed
    ensures var a := ActOn(r, act);
            var scheduling := act.ScheduleRetry? || act.ScheduleRetryIfCurrent?;
            && (scheduling ==> a.result.Ok?)
            && (scheduling && a.result == Ok(true) ==> a.record.attempts == r.attempts + 1 && a.record.state == Retryable)
            && (scheduling && a.result == Ok(false) && a.record != r ==> a.record.attempts == r.attempts + 1 == 6)
            && (!(scheduling && a.record != r) ==> a.record.attempts == r.attempts)
  {}

  // The states an act takes a record out of, and the one it takes it to (a retry that is the last one
  // ends in Failed instead).
  predicate MovesFrom(act: Act, state: DeliveryState) {
    match act
    case Transition(to) =>
      || (to == Queued && state in {Encrypted, Retryable}) || (to == RelayAccepted && state == Queued)
      || (to == RecipientReceived && state == RelayAccepted) || (to == Decrypted && state == RecipientReceived)
    case AcknowledgeRecipient => state == RelayAccepted
    case BindRelayId(_) => false
    case MarkDecrypted => state == RecipientReceived
    case Cancel => state in {Draft, Encrypted, Queued, Retryable}
    case ScheduleRetry(_) => state in {Draft, Encrypted, Queued, Retryable, RelayAccepted}
    case ScheduleRetryIfCurrent(expected, _) => state == expected && state in {Draft, Encrypted, Queued, Retryable, RelayAccepted}
    case MarkFailed => state != Failed
    case MarkFailedIfCurrent(expected) => state == expected && state != Failed
    case AcceptRetry(expected, _) => state == expected || state == Cancelled
  }

  function Destination(act: Act, attempts: nat): Option<DeliveryState> {
    match act
    case Transition(to) => Some(to)
    case AcknowledgeRecipient => Some(RecipientReceived)
    case BindRelayId(_) => None
    case MarkDecrypted => Some(Decrypted)
    case Cancel => Some(Cancelled)
    case ScheduleRetry(_) => Some(if attempts < MAX_ATTEMPTS then Retryable else Failed)
    case ScheduleRetryIfCurrent(_, _) => Some(if attempts < MAX_ATTEMPTS then Retryable else Failed)
    case MarkFailed => Some(Failed)
    case MarkFailedIfCurrent(_) => Some(Failed)
    case AcceptRetry(_, _) => Some(RelayAccepted)
  }

  // The state machine as a table. An act moves a record exactly out of its source states, to its
  // destination; a record it does not move it leaves alone, but for the relay id. What a record is about
  // never changes: only cancelling and failing drop its wire, and only failing its destination.
  lemma ActMoves(r: DeliveryRecord, act: Act)
    ensures var a := ActOn(r, act);
            && (MovesFrom(act, r.state) && Destination(act, r.attempts).Some? ==>
                  && a.record.state == Destination(act, r.attempts).value && a.result.Ok?
                  && (a.result == Ok(false) <==> (act.ScheduleRetry? || act.ScheduleRetryIfCurrent?) && r.attempts >= MAX_ATTEMPTS))
            && (!MovesFrom(act, r.state) ==>
                  && a.record == (if act.BindRelayId? then r.(relayId := Some(act.id)) else r)
                  && (a.result == Ok(true) ==> act.BindRelayId?))
            && a.record.digest == r.digest && a.record.expiresAt == r.expiresAt
            && a.record.relayId == (if act.BindRelayId? || (act.AcceptRetry? && MovesFrom(act, r.state)) then Some(act.id) else r.relayId)
            && a.record.wire
               == (if MovesFrom(act, r.state) && (act.Cancel? || act.MarkFailed? || act.MarkFailedIfCurrent?) then None else r.wire)
            && a.record.destination
               == (if MovesFrom(act, r.state) && (act.MarkFailed? || act.MarkFailedIfCurrent?) then None else r.destination)
  {
    hide Backoff;
    var s := r.state;
    assert s.Draft? || s.Encrypted? || s.Queued? || s.RelayAccepted? || s.RecipientReceived? || s.Decrypted? || s.Retryable? || s.Failed?
           || s.Cancelled?;
  }

  // What an operation makes of each digest. Registering adds one new record, for sending as given and for
  // receiving under the relay's id, refuses the empty digest, and never touches a known one; discarding
  // removes one in the expected state; the others act on records that are there.
  lemma OpMeans(l: Ledger, op: Op, d: Text)
    ensures var after := Apply(l, op);
            && (d in l && d in after.ledger && (op.Register? || op.RegisterReceived? || op.Discard?) ==> after.ledger[d] == l[d])
            && (d in l && d !in after.ledger <==> op.Discard? && op.digest == d && d in l && l[d].state == op.expected)
            && (d !in l && d in after.ledger <==> (op.Register? || op.RegisterReceived?) && op.digest == d && d != [] && d !in l)
            && (d !in l && d in after.ledger ==>
                  after.ledger[d] == if op.Register?
                                     then DeliveryRecord(d, if op.queued then Queued else Encrypted, 0, None, None, op.wire, op.expiresAt, op.destination)
                                     else DeliveryRecord(d, RecipientReceived, 0, None, Some(op.relayId), None, None, None))
            && (d in l && op.OnRecord? ==> after.ledger[d] == if op.digest == d then ActOn(l[d], op.act).record else l[d])
            && (op.Register? ==> (after.result == Ok(true) <==> op.digest != [] && op.digest !in l) && after.result != Ok(false))
            && (op.RegisterReceived? ==> (after.result.Err? <==> op.digest == []) && (after.result == Ok(true) <==> op.digest != [] && op.digest !in l))
            && (op.Discard? ==> after.result == Ok(op.digest in l && l[op.digest].state == op.expected))
  {
    hide ActOn;
  }

  // Expiry ends every message that is not Decrypted or Cancelled, once its time has come.
  lemma ExpiryMoves(r: DeliveryRecord, now: U64)
    ensures var e := Expire(r, now);
            if r.expiresAt.Some? && r.expiresAt.value <= now && r.state !in {Decrypted, Cancelled}
            then e == r.(state := Failed, nextRetryAt := None, wire := None) && !IsDue(e, now) else e == r
  {}

  // The k-th scheduling backs off 5 * 2^(k-1) seconds; with five attempts the cap is never reached.
  lemma BackoffIsExponential(attempt: nat)
    requires 1 <= attempt <= MAX_ATTEMPTS
    ensures Backoff(attempt) == 5 * Pow2(attempt - 1) <= 80 < MAX_BACKOFF
  {
    assert Pow2(1) == 2 && Pow2(2) == 4;
    assert Pow2(3) == 2 * Pow2(2) && Pow2(4) == 2 * Pow2(3);
  }

  lemma SchedulingBacksOff(r: DeliveryRecord, act: Act)
    requires act.ScheduleRetry? || act.ScheduleRetryIfCurrent?
    ensures ActOn(r, act).result == Ok(true) ==>
              5 * Pow2(r.attempts) < MAX_BACKOFF
              && ActOn(r, act).record.nextRetryAt == Some(SaturatingAdd(act.now, 5 * Pow2(r.attempts)))
  {
    if ActOn(r, act).result == Ok(true) {
      BackoffIsExponential(r.attempts + 1);
    }
  }

  // In any run: attempts are conserved (every unit is one successful scheduling or one
  // exhaustion), at most five schedulings of a digest succeed, and at most one exhausts it.
  lemma {:induction false} RetryAccounting(l: Ledger, ops: seq<Op>, d: Text)
    requires LedgerInvariant(l) && DisciplinedRun(ops)
    ensures LedgerInvariant(Run(l, ops))
    ensures Attempts(Run(l, ops), d) == Attempts(l, d) + Scheduled(l, ops, d) + Exhausted(l, ops, d)
    ensures Scheduled(l, ops, d) <= MAX_ATTEMPTS
    ensures d in l ==> d in Run(l, ops)
  {
    if ops != [] {
      var front, op := ops[..|ops| - 1], ops[|ops| - 1];
      RetryAccounting(l, front, d);
      StepAccounting(Run(l, front), op, d);
      ScheduledBound(l, front, op, d);
    }
  }

  lemma StepAccounting(l: Ledger, op: Op, d: Text)
    requires LedgerInvariant(l) && Disciplined(op)
    ensures LedgerInvariant(Apply(l, op).ledger)
    ensures d in l ==> d in Apply(l, op).ledger
    ensures Attempts(Apply(l, op).ledger, d) == Attempts(l, d)
              + (if Schedules(op, d) && Apply(l, op).result == Ok(true) then 1 else 0)
              + (if Exhausts(l, op, d) then 1 else 0)
  {
    hide ActOn;
    if op.OnRecord? && op.digest in l {
      ActKeepsRetryInvariant(l[op.digest], op.act);
      var after := ActOn(l[op.digest], op.act).record;
      assert Apply(l, op).ledger == l[op.digest := after];
      assert l[op.digest := after][op.digest] == after;
      if after == l[op.digest] {
        assert l[op.digest := after] == l;
      }
      assert op.digest == d ==> Attempts(Apply(l, op).ledger, d) == after.attempts;
      assert op.digest != d ==> Attempts(Apply(l, op).ledger, d) == Attempts(l, d);
      if Schedules(op, d) && !Apply(l, op).result.value {
        assert Exhausts(l, op, d) <==> after != l[d];
      }
    }
  }

  // Every operation keeps what every record keeps.
  lemma StepKeepsInvariant(l: Ledger, op: Op)
    ensures LedgerInvariant(l) && (Disciplined(op) || op.Discard?) ==> LedgerInvariant(Apply(l, op).ledger)
  {
    hide ActOn, RetryInvariant;
    if LedgerInvariant(l) && Disciplined(op) {
      StepAccounting(l, op, []);
    }
  }

  lemma ScheduledBound(l: Ledger, front: seq<Op>, op: Op, d: Text)
    requires LedgerInvariant(l) && LedgerInvariant(Run(l, front)) && Disciplined(op)
    requires Attempts(Run(l, front), d) == Attempts(l, d) + Scheduled(l, front, d) + Exhausted(l, front, d)
    requires Scheduled(l, front, d) <= MAX_ATTEMPTS
    ensures Scheduled(l, front, d) + (if Schedules(op, d) && Apply(Run(l, front), op).result == Ok(true) then 1 else 0)
            <= MAX_ATTEMPTS
  {
    hide ActOn;
    var now := Run(l, front);
    if Schedules(op, d) && d in now {
      ActKeepsRetryInvariant(now[d], op.act);
    }
  }
}
