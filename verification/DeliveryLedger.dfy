/** The ledger object: a map of records that its methods update in place. */
module DeliveryLedgers {
  import opened Prelude
  import opened Text
  import opened Ledger
  import opened LedgerRestore
  import Aead
  import RecordCodec
  import StoreFile
  import StoreProtocol
  import EncryptedStores

  // RecordClass::Outbox, "delivery/ledger"
  const LEDGER_ID := RecordCodec.RecordId(RecordCodec.Outbox, Ascii("delivery/ledger"))

  class DeliveryLedger {
    var records: Ledger

    constructor ()
      ensures records == map[]
    {
      records := map[];
    }

    // register_encrypted_with_destination and register_queued_with_destination.
    method RegisterOutbound(digest: Text, queued: bool, wire: Option<Text>, expiresAt: Option<U64>, destination: Option<Text>)
      returns (r: Result<bool, LedgerError>)
      modifies this
      ensures Applied(records, r) == Apply(old(records), Register(digest, queued, wire, expiresAt, destination))
      ensures LedgerInvariant(old(records)) ==> LedgerInvariant(records)
    {
      StepKeepsInvariant(records, Register(digest, queued, wire, expiresAt, destination));
      if digest == [] || digest in records {
        return Err(InvalidWire);
      }
      records := records[digest := DeliveryRecord(digest, if queued then Queued else Encrypted, 0, None, None, wire, expiresAt, destination)];
      r := Ok(true);
    }

    method RegisterRecipientReceived(digest: Text, relayId: Text) returns (r: Result<bool, LedgerError>)
      modifies this
      ensures Applied(records, r) == Apply(old(records), RegisterReceived(digest, relayId))
      ensures LedgerInvariant(old(records)) ==> LedgerInvariant(records)
    {
      StepKeepsInvariant(records, RegisterReceived(digest, relayId));
      if digest == [] {
        return Err(InvalidWire);
      }
      if digest in records {
        return Ok(false);
      }
      records := records[digest := DeliveryRecord(digest, RecipientReceived, 0, None, Some(relayId), None, None, None)];
      r := Ok(true);
    }

    method DiscardIfState(digest: Text, expected: DeliveryState) returns (r: bool)
      modifies this
      ensures Applied(records, Ok(r)) == Apply(old(records), Discard(digest, expected))
      ensures LedgerInvariant(old(records)) ==> LedgerInvariant(records)
    {
      StepKeepsInvariant(records, Discard(digest, expected));
      if digest in records && records[digest].state == expected {
        records := records - {digest};
        return true;
      }
      r := false;
    }

    method TransitionTo(digest: Text, to: DeliveryState) returns (r: Result<bool, LedgerError>)
      modifies this
      ensures Applied(records, r) == Apply(old(records), OnRecord(digest, Transition(to)))
      ensures LedgerInvariant(old(records)) ==> LedgerInvariant(records)
    {
      StepKeepsInvariant(records, OnRecord(digest, Transition(to)));
      if digest !in records {
        return Err(InvalidWire);
      }
      var record := records[digest];
      if !ValidTransition(record.state, to) {
        Untouched(records, digest);
        return Err(InvalidWire);
      }
      record := record.(state := to);
      record := record.(nextRetryAt := None);
      records := records[digest := record];
      r := Ok(true);
    }

    method AcknowledgeRecipientOf(digest: Text) returns (r: Result<bool, LedgerError>)
      modifies this
      ensures Applied(records, r) == Apply(old(records), OnRecord(digest, AcknowledgeRecipient))
      ensures LedgerInvariant(old(records)) ==> LedgerInvariant(records)
    {
      StepKeepsInvariant(records, OnRecord(digest, AcknowledgeRecipient));
      if digest !in records {
        return Err(InvalidWire);
      }
      Untouched(records, digest);
      var record := records[digest];
      if record.state == RecipientReceived || record.state == Decrypted {
        return Ok(false);
      }
      if record.state != RelayAccepted {
        return Err(InvalidWire);
      }
      records := records[digest := record.(state := RecipientReceived)];
      r := Ok(true);
    }

    method BindRelayIdOf(digest: Text, relayId: Text) returns (r: Result<bool, LedgerError>)
      modifies this
      ensures Applied(records, r) == Apply(old(records), OnRecord(digest, BindRelayId(relayId)))
      ensures LedgerInvariant(old(records)) ==> LedgerInvariant(records)
    {
      StepKeepsInvariant(records, OnRecord(digest, BindRelayId(relayId)));
      if digest !in records {
        return Err(InvalidWire);
      }
      records := records[digest := records[digest].(relayId := Some(relayId))];
      r := Ok(true);
    }

    method MarkDecryptedOf(digest: Text) returns (r: Result<bool, LedgerError>)
      modifies this
      ensures Applied(records, r) == Apply(old(records), OnRecord(digest, MarkDecrypted))
      ensures LedgerInvariant(old(records)) ==> LedgerInvariant(records)
    {
      StepKeepsInvariant(records, OnRecord(digest, MarkDecrypted));
      if digest !in records {
        return Err(InvalidWire);
      }
      Untouched(records, digest);
      var record := records[digest];
      if record.state == Decrypted {
        return Ok(false);
      }
      if record.state != RecipientReceived {
        return Err(InvalidWire);
      }
      records := records[digest := record.(state := Decrypted)];
      r := Ok(true);
    }

    method CancelDelivery(digest: Text) returns (r: Result<bool, LedgerError>)
      modifies this
      ensures Applied(records, r) == Apply(old(records), OnRecord(digest, Cancel))
      ensures LedgerInvariant(old(records)) ==> LedgerInvariant(records)
    {
      StepKeepsInvariant(records, OnRecord(digest, Cancel));
      if digest !in records {
        return Err(InvalidWire);
      }
      Untouched(records, digest);
      var record := records[digest];
      if record.state in {RelayAccepted, RecipientReceived, Decrypted, Failed, Cancelled} {
        return Ok(false);
      }
      record := record.(state := Cancelled);
      record := record.(nextRetryAt := None);
      record := record.(wire := None);
      records := records[digest := record];
      r := Ok(true);
    }

    // Visits every record; counts those it expires.
    method ExpireDueRecords(now: U64) returns (expired: nat)
      modifies this
      ensures records == Apply(old(records), ExpireDue(now)).ledger
      ensures LedgerInvariant(old(records)) ==> LedgerInvariant(records)
      ensures expired == |ExpiredAmong(old(records), old(records).Keys, now)|
    {
      hide ExpiredAmong, ExpiredPart, LedgerInvariant, Apply;
      StepKeepsInvariant(records, ExpireDue(now));
      var todo := records.Keys;
      expired := 0;
      ghost var done: set<Text> := {};
      ExpiredAtEnds(records, now);
      while todo != {}
        invariant done !! todo && done + todo == old(records).Keys
        invariant records == ExpiredPart(old(records), done, now)
        invariant expired == |ExpiredAmong(old(records), done, now)|
        decreases todo
      {
        var d :| d in todo;
        ExpiredGrows(old(records), done, d, now);
        var record := records[d];
        if record.expiresAt.Some? && record.expiresAt.value <= now
           && record.state != Decrypted && record.state != Cancelled {
          record := record.(state := Failed);
          record := record.(nextRetryAt := None);
          record := record.(wire := None);
          records := records[d := record];
          expired := expired + 1;
        }
        todo := todo - {d};
        done := done + {d};
      }
    }

    method ScheduleRetryOf(digest: Text, now: U64) returns (r: Result<bool, LedgerError>)
      modifies this
      ensures Applied(records, r) == Apply(old(records), OnRecord(digest, ScheduleRetry(now)))
      ensures LedgerInvariant(old(records)) ==> LedgerInvariant(records)
    {
      StepKeepsInvariant(records, OnRecord(digest, ScheduleRetry(now)));
      if digest !in records {
        return Err(InvalidWire);
      }
      Untouched(records, digest);
      var record := records[digest];
      if record.state in {RecipientReceived, Decrypted, Failed, Cancelled} {
        return Ok(false);
      }
      record := record.(attempts := if record.attempts < 255 then record.attempts + 1 else 255);
      if record.attempts > MAX_ATTEMPTS {
        record := record.(state := Failed);
        record := record.(nextRetryAt := None);
        records := records[digest := record];
        return Ok(false);
      }
      record := record.(state := Retryable);
      record := record.(nextRetryAt := Some(SaturatingAdd(now, Backoff(record.attempts))));
      records := records[digest := record];
      r := Ok(true);
    }

    method ScheduleRetryIfCurrentOf(digest: Text, expected: DeliveryState, now: U64) returns (r: Result<bool, LedgerError>)
      modifies this
      ensures Applied(records, r) == Apply(old(records), OnRecord(digest, ScheduleRetryIfCurrent(expected, now)))
      ensures LedgerInvariant(old(records)) ==> LedgerInvariant(records)
    {
      StepKeepsInvariant(records, OnRecord(digest, ScheduleRetryIfCurrent(expected, now)));
      if digest !in records {
        return Err(InvalidWire);
      }
      Untouched(records, digest);
      if records[digest].state != expected {
        return Ok(false);
      }
      r := ScheduleRetryOf(digest, now);
    }

    method MarkFailedOf(digest: Text) returns (r: Result<bool, LedgerError>)
      modifies this
      ensures Applied(records, r) == Apply(old(records), OnRecord(digest, MarkFailed))
      ensures LedgerInvariant(old(records)) ==> LedgerInvariant(records)
    {
      StepKeepsInvariant(records, OnRecord(digest, MarkFailed));
      if digest !in records {
        return Err(InvalidWire);
      }
      Untouched(records, digest);
      var record := records[digest];
      if record.state == Failed {
        return Ok(false);
      }
      record := record.(state := Failed);
      record := record.(nextRetryAt := None);
      record := record.(wire := None);
      record := record.(destination := None);
      records := records[digest := record];
      r := Ok(true);
    }

    method MarkFailedIfCurrentOf(digest: Text, expected: DeliveryState) returns (r: Result<bool, LedgerError>)
      modifies this
      ensures Applied(records, r) == Apply(old(records), OnRecord(digest, MarkFailedIfCurrent(expected)))
      ensures LedgerInvariant(old(records)) ==> LedgerInvariant(records)
    {
      StepKeepsInvariant(records, OnRecord(digest, MarkFailedIfCurrent(expected)));
      if digest !in records {
        return Err(InvalidWire);
      }
      Untouched(records, digest);
      if records[digest].state != expected {
        return Ok(false);
      }
      r := MarkFailedOf(digest);
    }

    method AcceptRetryOf(digest: Text, expected: DeliveryState, relayId: Text) returns (r: Result<bool, LedgerError>)
      modifies this
      ensures Applied(records, r) == Apply(old(records), OnRecord(digest, AcceptRetry(expected, relayId)))
      ensures LedgerInvariant(old(records)) && expected in {Queued, Retryable} ==> LedgerInvariant(records)
    {
      StepKeepsInvariant(records, OnRecord(digest, AcceptRetry(expected, relayId)));
      if digest !in records {
        return Err(InvalidWire);
      }
      Untouched(records, digest);
      var record := records[digest];
      if record.state != expected && record.state != Cancelled {
        return Ok(false);
      }
      record := record.(relayId := Some(relayId));
      record := record.(state := RelayAccepted);
      record := record.(nextRetryAt := None);
      records := records[digest := record];
      r := Ok(true);
    }

    // Writes the encoded ledger as one record of the store.
    method Persist(j: Json, store: EncryptedStores.EncryptedStore, env: StoreProtocol.CommitEnv)
      returns (r: Result<(), RecordCodec.StorageError>)
      modifies store
      ensures StoreProtocol.Carry(StoreProtocol.Step(store.State(), r))
              == StoreProtocol.Apply(store.vault, old(store.State()), StoreProtocol.PutOne(LEDGER_ID, j.write(records)), env)
      ensures store.passed
              == old(store.passed)
                 + StoreProtocol.StepDisks(store.vault, old(store.State()), StoreProtocol.PutOne(LEDGER_ID, j.write(records)), env)
    {
      r := store.PutRecord(LEDGER_ID, j.write(records), env);
    }

    // Replaces the ledger by what the store holds, unless that is refused.
    method RestoreFrom(j: Json, store: EncryptedStores.EncryptedStore) returns (r: Result<(), RecordCodec.StorageError>)
      modifies this
      ensures var stored := if !store.locked && LEDGER_ID in store.records then Some(store.records[LEDGER_ID]) else None;
              match Restore(j, stored)
              case Ok(l) => r.Ok? && records == l
              case Err(e) => r == Err(e) && records == old(records)
    {
      var stored := store.Get(LEDGER_ID);
      match Restore(j, stored) {
        case Ok(l) =>
          records := l;
          r := Ok(());
        case Err(e) => r := Err(e);
      }
    }
  }

  // Through the store: a ledger written successfully is the one the reopened files give back, unless a
  // record has exhausted its retries, and then they give an error; one over the value limit is refused
  // and changes nothing.
  lemma PersistThenReopen(j: Json, v: StoreFile.Vault, s: StoreProtocol.StoreState, l: Ledger, env: StoreProtocol.CommitEnv)
    requires LawfulJson(j) && Aead.Lawful(v.aead) && StoreProtocol.Settled(v, s)
    requires LedgerPersistable(l) && |l| <= RecordCodec.MAX_RECORDS
    ensures var step := StoreProtocol.Apply(v, s, StoreProtocol.PutOne(LEDGER_ID, j.write(l)), env);
            && (|j.write(l)| > RecordCodec.MAX_VALUE_BYTES ==>
                  step == StoreProtocol.Step(s, Err(RecordCodec.RecordTooLarge)))
            && (step.result.Ok? ==>
                  var reopened := StoreFile.Open(v.aead, v.key, step.state.disk);
                  && reopened.Ok? && LEDGER_ID in reopened.value.records
                  && Restore(j, Some(reopened.value.records[LEDGER_ID]))
                     == if NoneExhausted(l) then Ok(l) else Err(RecordCodec.CorruptStore))
  {
    hide StoreProtocol.Attempt, StoreFile.Open, StoreFile.ReadMarker, RecordCodec.ValidKey, LEDGER_ID, NoneExhausted, LedgerPersistable;
    var op := StoreProtocol.PutOne(LEDGER_ID, j.write(l));
    StoreProtocol.OperationIsAtomic(v, s, StoreProtocol.Event(op, env));
    RunNone(l);
    RestoreOfPersisted(j, l, []);
  }

  function ExpiredAmong(l: Ledger, ds: set<Text>, now: U64): set<Text> {
    set d | d in ds && d in l && Expires(l[d], now)
  }

  // The ledger once the records in ds have been visited.
  function ExpiredPart(l: Ledger, ds: set<Text>, now: U64): Ledger {
    map d | d in l :: if d in ds then Expire(l[d], now) else l[d]
  }

  lemma ExpiredGrows(l: Ledger, ds: set<Text>, d: Text, now: U64)
    requires d in l && d !in ds
    ensures d in ExpiredPart(l, ds, now) && ExpiredPart(l, ds, now)[d] == l[d]
    ensures ExpiredPart(l, ds + {d}, now) == if Expires(l[d], now) then ExpiredPart(l, ds, now)[d := Expire(l[d], now)]
                                             else ExpiredPart(l, ds, now)
    ensures |ExpiredAmong(l, ds + {d}, now)| == |ExpiredAmong(l, ds, now)| + if Expires(l[d], now) then 1 else 0
  {
    hide Expires;
    if Expires(l[d], now) {
      assert ExpiredAmong(l, ds + {d}, now) == ExpiredAmong(l, ds, now) + {d};
    } else {
      assert ExpiredAmong(l, ds + {d}, now) == ExpiredAmong(l, ds, now);
    }
  }

  lemma ExpiredAtEnds(l: Ledger, now: U64)
    ensures ExpiredPart(l, {}, now) == l && ExpiredAmong(l, {}, now) == {}
    ensures ExpiredPart(l, l.Keys, now) == Apply(l, ExpireDue(now)).ledger
  {}

  lemma Untouched(l: Ledger, d: Text)
    requires d in l
    ensures l[d := l[d]] == l
  {}
}
