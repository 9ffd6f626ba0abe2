/**
 Deliveries past the limits of the ledger's own record: one whose ledger no longer fits a store value,
 and one whose ledger has more records than a restore accepts.
 */
module InboxLimits {
  import opened Prelude
  import opened Text
  import opened RecordCodec
  import opened StoreFile
  import opened StoreProtocol
  import opened Sessions
  import opened DeliveryLedgers
  import opened Inbox
  import L = Ledger
  import R = LedgerRestore

  // What the batch writes before the ledger.
  function BeforeLedger(x: Tools, w: World, conversation: Text, d: Delivery, env: ItemEnv): seq<Mutation>
    requires ReachesBatch(x, w, conversation, d, env)
  {
    var received := Received(x.mls, w.sessions, conversation, d.ciphertext).value;
    var staged := if received.1.None? then [] else env.staged.value;
    [Put(CheckpointId(conversation), Checkpoint(x.mls, received.0, conversation).value)] + staged
  }

  // It is valid, moves this conversation's checkpoint one message on, and leaves the ledger alone.
  lemma BeforeLedgerEffect(x: Tools, w: World, conversation: Text, d: Delivery, env: ItemEnv)
    requires LawfulTools(x) && Sound(x, w) && EnvOk(env) && ReachesBatch(x, w, conversation, d, env)
    ensures var first := BeforeLedger(x, w, conversation, d, env);
            var after := ApplyAll(w.store.records, first);
            && BatchOk(first) && Remembers(x, after, w.ledger) && DurableGroup(x, after, conversation).Some?
            && DurableGroup(x, after, conversation) == Next(x.mls, DurableGroup(x, w.store.records, conversation), d.ciphertext)
            && DurableGroup(x, after, conversation) != DurableGroup(x, w.store.records, conversation)
  {
    hide Settled, ApplyAll, Marked, ValidKey, ValidConversation, R.Restore, CheckpointId, LEDGER_ID;
    var received := Received(x.mls, w.sessions, conversation, d.ciphertext).value;
    var checkpoint := Checkpoint(x.mls, received.0, conversation).value;
    var staged := if received.1.None? then [] else env.staged.value;
    var id, first := CheckpointId(conversation), BeforeLedger(x, w, conversation, d, env);
    assert InStep(x, w, conversation);
    CheckpointClass();
    KeysOk(conversation);
    var one := [Put(id, checkpoint)];
    assert first == one + staged && [] + one == one;
    BatchExtends(w.store.records, [], one[0]);
    BatchJoins(w.store.records, one, staged);
    BatchFrame(ApplyAll(w.store.records, one), staged, id);
    BatchFrame(w.store.records, first, LEDGER_ID);
  }

  lemma RefusedAtLast(first: seq<Mutation>, bad: Mutation)
    requires BatchOk(first) && !MutationOk(bad)
    ensures var ms := first + [bad];
            !BatchOk(ms) && ValidPrefix(ms) == |first| && ms[..|first|] == first
  {
    hide MutationOk;
    var ms := first + [bad];
    assert ms[|first|] == bad;
    assert forall i :: 0 <= i < |first| ==> ms[i] == first[i];
  }

  // A ledger that no longer fits one store value: the delivery stops, files and ledger are as before, but
  // the new checkpoint stays in the store's memory. The next put that succeeds makes it durable, a
  // message further than the ledger beside it says.
  lemma OversizedLedgerLeaks(x: Tools, w: World, conversation: Text, d: Delivery, env: ItemEnv, strict: bool,
                             id: RecordId, value: Bytes, later: CommitEnv)
    requires LawfulTools(x) && Sound(x, w) && EnvOk(env) && ReachesBatch(x, w, conversation, d, env)
    requires |x.ledger.write(Marked(w.ledger, d).value)| > MAX_VALUE_BYTES
    requires id != CheckpointId(conversation) && id != LEDGER_ID
    ensures var r := Deliver(x, w, conversation, d, env, strict);
            && r.outcome == Stopped(NotCommitted) && r.world.ledger == w.ledger
            && r.world.store == w.store.(records := r.world.store.records)
            && DeliverDisks(x, w, conversation, d, env) == []
            && DurableGroup(x, r.world.store.records, conversation) != DurableGroup(x, w.store.records, conversation)
    ensures var put := Apply(x.vault, Deliver(x, w, conversation, d, env, strict).world.store, PutOne(id, value), later);
            put.result.Ok? ==>
              && Open(x.vault.aead, x.vault.key, put.state.disk).Ok?
              && var found := Open(x.vault.aead, x.vault.key, put.state.disk).value.records;
              && Remembers(x, found, w.ledger)
              && DurableGroup(x, found, conversation)
                 == Next(x.mls, DurableGroup(x, w.store.records, conversation), d.ciphertext)
              && DurableGroup(x, found, conversation) != DurableGroup(x, w.store.records, conversation)
  {
    hide Settled, Live, ApplyAll, Marked, ValidConversation, R.Restore, CheckpointId, LEDGER_ID, Open, Received, Checkpoint,
         BeforeLedger, DurableGroup, Remembers;
    BeforeLedgerEffect(x, w, conversation, d, env);
    var first := BeforeLedger(x, w, conversation, d, env);
    var bad := Put(LEDGER_ID, x.ledger.write(Marked(w.ledger, d).value));
    RefusedAtLast(first, bad);
    BatchSplits(x, w, conversation, d, env);
    SettledAgrees(x.vault, w.store);
    RefusedDelivery(x, w, conversation, d, env, strict);
    LeakedPrefixBecomesDurable(x.vault, w.store, first + [bad], id, value, env.commit, later);
    OtherPut(x, ApplyAll(w.store.records, first), conversation, w.ledger, id, value);
  }

  lemma BatchSplits(x: Tools, w: World, conversation: Text, d: Delivery, env: ItemEnv)
    requires ReachesBatch(x, w, conversation, d, env)
    ensures var received := Received(x.mls, w.sessions, conversation, d.ciphertext).value;
            BatchFor(x, conversation, Checkpoint(x.mls, received.0, conversation).value,
                     if received.1.None? then [] else env.staged.value, Marked(w.ledger, d).value)
            == BeforeLedger(x, w, conversation, d, env) + [Put(LEDGER_ID, x.ledger.write(Marked(w.ledger, d).value))]
  {
    hide Received, Checkpoint, Marked, CheckpointId, LEDGER_ID;
  }

  lemma RefusedDelivery(x: Tools, w: World, conversation: Text, d: Delivery, env: ItemEnv, strict: bool)
    requires Sound(x, w) && ReachesBatch(x, w, conversation, d, env)
    requires var ms := BeforeLedger(x, w, conversation, d, env) + [Put(LEDGER_ID, x.ledger.write(Marked(w.ledger, d).value))];
             var after := ApplyAll(w.store.records, BeforeLedger(x, w, conversation, d, env));
             !BatchOk(ms) && ms[..ValidPrefix(ms)] == BeforeLedger(x, w, conversation, d, env) && Remembers(x, after, w.ledger)
    ensures var r, first := Deliver(x, w, conversation, d, env, strict), BeforeLedger(x, w, conversation, d, env);
            var ms := first + [Put(LEDGER_ID, x.ledger.write(Marked(w.ledger, d).value))];
            && r.outcome == Stopped(NotCommitted) && r.world.ledger == w.ledger && DeliverDisks(x, w, conversation, d, env) == []
            && r.world.store == w.store.(records := ApplyAll(w.store.records, first))
            && r.world.store == Apply(x.vault, w.store, Batch(ms), env.commit).state
  {
    hide Settled, ApplyAll, Marked, R.Restore, CheckpointId, LEDGER_ID, Received, Checkpoint, BeforeLedger, BatchFor, Attempt,
         AttemptDisks, MutationOk, InStep;
    BatchSplits(x, w, conversation, d, env);
  }

  lemma OtherPut(x: Tools, records: Records, conversation: Text, l: L.Ledger, id: RecordId, value: Bytes)
    requires id != CheckpointId(conversation) && id != LEDGER_ID
    ensures DurableGroup(x, records[id := value], conversation) == DurableGroup(x, records, conversation)
    ensures Remembers(x, records[id := value], l) <==> Remembers(x, records, l)
  {
    hide R.Restore, CheckpointId, LEDGER_ID;
  }

  // Nothing bounds the number of records a delivery writes: what it has committed is restored exactly
  // when there are no more than the store's own limit of records, and otherwise refused as a whole.
  lemma CommittedLedgerRestores(x: Tools, w: World, conversation: Text, d: Delivery, env: ItemEnv, strict: bool)
    requires LawfulTools(x) && Sound(x, w) && EnvOk(env) && DeliveryOk(d)
    ensures var r := Deliver(x, w, conversation, d, env, strict);
            r.outcome.Committed? ==>
              R.Restore(x.ledger, StoredLedger(r.world.store))
              == if |r.world.ledger| <= MAX_RECORDS then Ok(r.world.ledger) else Err(CorruptStore)
  {
    hide Settled, ApplyAll, Marked, CheckpointId, LEDGER_ID, Received, Checkpoint, BeforeLedger, R.ValidPersisted, Apply, BatchFor,
         InStep, Live, BatchOk, LawfulTools;
    var r := Deliver(x, w, conversation, d, env, strict);
    if r.outcome.Committed? {
      MarkedLedger(w.ledger, d);
      LedgerRestorable(x, w);
      BatchSplits(x, w, conversation, d, env);
      var l, first := Marked(w.ledger, d).value, BeforeLedger(x, w, conversation, d, env);
      LastWrite(x, w.store, first, l, env.commit);
      WrittenBack(x, l);
      if |l| <= MAX_RECORDS {
        assert R.Restorable(l);
      }
    }
  }

  lemma LedgerRestorable(x: Tools, w: World)
    requires Sound(x, w)
    ensures R.Restorable(w.ledger)
  {
    hide Settled, R.Restorable;
    RestorableLedger(x, w.store.records, w.ledger);
  }

  lemma WrittenBack(x: Tools, l: L.Ledger)
    requires LawfulTools(x)
    ensures x.ledger.read(x.ledger.write(l)) == Some(l)
  {}

  lemma LastWrite(x: Tools, s: StoreState, first: seq<Mutation>, l: L.Ledger, env: CommitEnv)
    ensures var step := Apply(x.vault, s, Batch(first + [Put(LEDGER_ID, x.ledger.write(l))]), env);
            step.result.Ok? ==> StoredLedger(step.state) == Some(x.ledger.write(l))
  {
    hide Attempt, MutationOk, LEDGER_ID;
    var ms := first + [Put(LEDGER_ID, x.ledger.write(l))];
    assert ms[..|ms| - 1] == first;
    AttemptRecords(x.vault, s, ApplyAll(s.records, ms), env);
  }
}
