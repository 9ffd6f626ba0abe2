/** The two inbox loops over the live objects: session catalog, store and ledger. */
module InboxProcessing {
  import opened Prelude
  import opened Text
  import opened StoreProtocol
  import opened EncryptedStores
  import opened Sessions
  import opened DeliveryLedgers
  import opened Inbox
  import opened Maintenance
  import L = Ledger
  import R = LedgerRestore
  import E = Envelopes

  function Now(catalog: MlsSessionCatalog, store: EncryptedStore, ledger: DeliveryLedger): World
    reads catalog, store, ledger
  {
    World(store.State(), ledger.records, catalog.sessions)
  }

  method ValidateItem(x: Tools, capability: Text, item: RelayItem, now: U64) returns (r: Option<Delivery>)
    ensures r == Validate(x, capability, item, now)
    ensures r.Some? ==>
              && item.id == Hex(x.sha(item.envelope)) && r.value.id == item.id
              && exists e :: E.WellFormed(e) && E.InDate(e.expiresAt, now) && e.mailbox == capability
                             && r.value.ciphertext == e.ciphertext
                             && r.value.digest == Hex(x.sha(x.envelopes.write(E.WireOf(e))))
  {
    hide E.FromWire, E.Digest, Hex;
    AcceptedItem(x, capability, item, now);
    if !(ENVELOPE_PREFIX <= item.envelope) {
      return None;
    }
    var envelope := E.FromWire(x.envelopes, item.envelope[|ENVELOPE_PREFIX|..], now);
    if envelope.Err? {
      return None;
    }
    if envelope.value.mailbox != capability || Hex(x.sha(item.envelope)) != item.id {
      return None;
    }
    var digest := E.Digest(x.envelopes, x.sha, envelope.value);
    if digest.Err? {
      return None;
    }
    r := Some(Delivery(item.id, digest.value, envelope.value.ciphertext));
  }

  // A refused mark leaves the ledger as it was.
  lemma MarkRefused(l: L.Ledger, d: Delivery)
    ensures var registered := L.Apply(l, L.RegisterReceived(d.digest, d.id));
            var decrypted := L.Apply(registered.ledger, L.OnRecord(d.digest, L.MarkDecrypted));
            && (registered.result.Err? ==> registered.ledger == l)
            && (registered.result.Ok? && decrypted.result.Err? ==> decrypted.ledger == l)
  {
    if d.digest in l {
      Untouched(l, d.digest);
    }
  }

  method MarkDelivered(ledger: DeliveryLedger, d: Delivery) returns (ok: bool)
    modifies ledger
    ensures ok == Marked(old(ledger.records), d).Some?
    ensures ledger.records == if ok then Marked(old(ledger.records), d).value else old(ledger.records)
  {
    hide L.Apply;
    MarkRefused(ledger.records, d);
    var registered := ledger.RegisterRecipientReceived(d.digest, d.id);
    if registered.Err? {
      return false;
    }
    var decrypted := ledger.MarkDecryptedOf(d.digest);
    ok := decrypted.Ok?;
  }

  // Receive in memory, checkpoint, stage, mark, commit; on a failed commit poison and restore.
  method DeliverTo(x: Tools, catalog: MlsSessionCatalog, store: EncryptedStore, ledger: DeliveryLedger,
                   conversation: Text, d: Delivery, env: ItemEnv, strict: bool) returns (outcome: Outcome)
    requires catalog.mls == x.mls && store.vault == x.vault
    modifies catalog, store, ledger
    ensures Delivered(Now(catalog, store, ledger), outcome)
            == Deliver(x, old(Now(catalog, store, ledger)), conversation, d, env, strict)
    ensures store.passed == old(store.passed) + DeliverDisks(x, old(Now(catalog, store, ledger)), conversation, d, env)
  {
    hide Received, Checkpoint, Poisoned, Marked, Apply, StepDisks, R.Restore, CheckpointId;
    var received := catalog.ReceiveDeliveryUnpersisted(conversation, d.ciphertext);
    if received.None? {
      return Stopped(NotReceived);
    }
    var checkpoint := catalog.CheckpointBytes(conversation);
    if checkpoint.None? {
      if strict {
        catalog.Poison(conversation);
      }
      return Stopped(NoCheckpoint);
    }
    var mutations := [Put(CheckpointId(conversation), checkpoint.value)];
    if received.value.Some? {
      if env.staged.None? {
        if strict {
          catalog.Poison(conversation);
        }
        return Stopped(NotStaged);
      }
      mutations := mutations + env.staged.value;
    }
    var marked := MarkDelivered(ledger, d);
    if !marked {
      if strict {
        catalog.Poison(conversation);
      }
      return Stopped(LedgerRefused);
    }
    mutations := mutations + [Put(LEDGER_ID, x.ledger.write(ledger.records))];
    assert received.value.None? ==> mutations == BatchFor(x, conversation, checkpoint.value, [], ledger.records);
    var done := store.ApplyBatch(mutations, env.commit);
    if done.Err? {
      catalog.Poison(conversation);
      var _ := ledger.RestoreFrom(x.ledger, store);
      return Stopped(NotCommitted);
    }
    outcome := Committed;
  }

  // process_sync_items: validate everything first, then deliver item by item.
  method ProcessSyncItems(x: Tools, catalog: MlsSessionCatalog, store: EncryptedStore, ledger: DeliveryLedger,
                          conversation: Text, capability: Text, items: seq<RelayItem>, now: U64, envs: nat -> ItemEnv)
    returns (r: Option<seq<Text>>)
    requires catalog.mls == x.mls && store.vault == x.vault
    modifies catalog, store, ledger
    ensures Synced(Now(catalog, store, ledger), r)
            == Sync(x, old(Now(catalog, store, ledger)), conversation, capability, items, now, envs)
    ensures store.passed == old(store.passed)
                            + match ValidateAll(x, capability, items, now)
                              case None => []
                              case Some(ds) => SyncDisks(x, old(Now(catalog, store, ledger)), conversation, ds, envs)
  {
    hide Validate, Deliver, Handled, SyncDisks;
    var valid: seq<Delivery> := [];
    for i := 0 to |items|
      invariant ValidateAll(x, capability, items[..i], now) == Some(valid)
      invariant Now(catalog, store, ledger) == old(Now(catalog, store, ledger)) && store.passed == old(store.passed)
    {
      assert items[..i + 1][..i] == items[..i];
      var one := ValidateItem(x, capability, items[i], now);
      if one.None? {
        ValidPrefixOf(x, capability, items, now, i + 1);
        return None;
      }
      valid := valid + [one.value];
    }
    assert items[..|items|] == items;
    r := DeliverAll(x, catalog, store, ledger, conversation, valid, envs);
  }

  method DeliverAll(x: Tools, catalog: MlsSessionCatalog, store: EncryptedStore, ledger: DeliveryLedger,
                    conversation: Text, ds: seq<Delivery>, envs: nat -> ItemEnv)
    returns (r: Option<seq<Text>>)
    requires catalog.mls == x.mls && store.vault == x.vault
    modifies catalog, store, ledger
    ensures var p := ProcessSync(x, old(Now(catalog, store, ledger)), conversation, ds, envs);
            Now(catalog, store, ledger) == p.world && r == (if p.stopped.Some? then None else Some(p.acked))
    ensures store.passed == old(store.passed) + SyncDisks(x, old(Now(catalog, store, ledger)), conversation, ds, envs)
  {
    hide Deliver, DeliverDisks, Handled, ProcessSync, SyncDisks;
    ghost var w := Now(catalog, store, ledger);
    var acked := [];
    SyncOfNone(x, w, conversation, ds, envs);
    for i := 0 to |ds|
      invariant ProcessSync(x, w, conversation, ds[..i], envs).stopped.None?
      invariant ProcessSync(x, w, conversation, ds[..i], envs).world == Now(catalog, store, ledger)
      invariant ProcessSync(x, w, conversation, ds[..i], envs).acked == acked
      invariant store.passed == old(store.passed) + SyncDisks(x, w, conversation, ds[..i], envs)
    {
      SyncGrows(x, w, conversation, ds, envs, i);
      var d := ds[i];
      if !Handled(ledger.records, d.digest) {
        var outcome := DeliverTo(x, catalog, store, ledger, conversation, d, envs(i), true);
        if outcome.Stopped? {
          StoppedStays(x, w, conversation, ds, envs, i + 1);
          return None;
        }
      }
      acked := acked + [d.id];
    }
    assert ds[..|ds|] == ds;
    r := Some(acked);
  }

  lemma SyncOfNone(x: Tools, w: World, conversation: Text, ds: seq<Delivery>, envs: nat -> ItemEnv)
    ensures ProcessSync(x, w, conversation, ds[..0], envs) == Progress(w, [], [], None) && SyncDisks(x, w, conversation, ds[..0], envs) == []
  {}

  lemma SyncGrows(x: Tools, w: World, conversation: Text, ds: seq<Delivery>, envs: nat -> ItemEnv, i: nat)
    requires i < |ds| && ProcessSync(x, w, conversation, ds[..i], envs).stopped.None?
    ensures var p, q := ProcessSync(x, w, conversation, ds[..i], envs), ProcessSync(x, w, conversation, ds[..i + 1], envs);
            var more := SyncDisks(x, w, conversation, ds[..i + 1], envs);
            if Handled(p.world.ledger, ds[i].digest) then
              q == p.(acked := p.acked + [ds[i].id]) && more == SyncDisks(x, w, conversation, ds[..i], envs)
            else
              var r := Deliver(x, p.world, conversation, ds[i], envs(i), true);
              && more == SyncDisks(x, w, conversation, ds[..i], envs) + DeliverDisks(x, p.world, conversation, ds[i], envs(i))
              && q.world == r.world && (q.stopped.Some? <==> r.outcome.Stopped?)
              && (r.outcome.Committed? ==> q.acked == p.acked + [ds[i].id])
  {
    hide Deliver, DeliverDisks, Handled;
    assert ds[..i + 1][..i] == ds[..i];
  }

  lemma {:induction false} ValidPrefixOf(x: Tools, capability: Text, items: seq<RelayItem>, now: U64, n: nat)
    requires n <= |items| && ValidateAll(x, capability, items[..n], now).None?
    ensures ValidateAll(x, capability, items, now).None?
  {
    hide Validate;
    if n == |items| {
      assert items[..n] == items;
    } else {
      assert items[..|items| - 1][..n] == items[..n];
      ValidPrefixOf(x, capability, items[..|items| - 1], now, n);
    }
  }

  lemma {:induction false} StoppedStays(x: Tools, w: World, conversation: Text, ds: seq<Delivery>, envs: nat -> ItemEnv, n: nat)
    requires n <= |ds| && ProcessSync(x, w, conversation, ds[..n], envs).stopped.Some?
    ensures ProcessSync(x, w, conversation, ds, envs) == ProcessSync(x, w, conversation, ds[..n], envs)
    ensures SyncDisks(x, w, conversation, ds, envs) == SyncDisks(x, w, conversation, ds[..n], envs)
  {
    hide Deliver, DeliverDisks, Handled;
    if n == |ds| {
      assert ds[..n] == ds;
    } else {
      assert ds[..|ds| - 1][..n] == ds[..n];
      StoppedStays(x, w, conversation, ds[..|ds| - 1], envs, n);
    }
  }

  // ---- process_inbox_items ----

  // Offers one item to each conversation until one receives it or something fails.
  method OfferToAll(x: Tools, catalog: MlsSessionCatalog, store: EncryptedStore, ledger: DeliveryLedger,
                    conversations: seq<Text>, d: Delivery, env: ItemEnv) returns (outcome: Outcome)
    requires catalog.mls == x.mls && store.vault == x.vault
    modifies catalog, store, ledger
    ensures var t := TryEach(x, old(Now(catalog, store, ledger)), conversations, d, env);
            Now(catalog, store, ledger) == t.world && outcome == t.outcome
    ensures store.passed == old(store.passed) + TryDisks(x, old(Now(catalog, store, ledger)), conversations, d, env)
  {
    hide Deliver, DeliverDisks;
    ghost var w := Now(catalog, store, ledger);
    for i := 0 to |conversations|
      invariant var t := TryEach(x, w, conversations[..i], d, env);
                t.outcome == Stopped(NotReceived) && t.world == Now(catalog, store, ledger)
      invariant store.passed == old(store.passed)
    {
      NothingReceived(x, Now(catalog, store, ledger), conversations[i], d, env);
      assert conversations[..i + 1][..i] == conversations[..i];
      outcome := DeliverTo(x, catalog, store, ledger, conversations[i], d, env, false);
      if outcome != Stopped(NotReceived) {
        TriedStays(x, w, conversations, d, env, i + 1);
        return;
      }
    }
    assert conversations[..|conversations|] == conversations;
    TriedNoDisks(x, w, conversations, d, env);
    outcome := Stopped(NotReceived);
  }

  lemma NothingReceived(x: Tools, w: World, conversation: Text, d: Delivery, env: ItemEnv)
    ensures Deliver(x, w, conversation, d, env, false).outcome == Stopped(NotReceived) ==>
              DeliverDisks(x, w, conversation, d, env) == []
  {
    hide Received, Checkpoint, Marked, Apply, BatchFor, StepDisks;
  }

  lemma {:induction false} TriedNoDisks(x: Tools, w: World, conversations: seq<Text>, d: Delivery, env: ItemEnv)
    ensures TryEach(x, w, conversations, d, env).outcome == Stopped(NotReceived) ==> TryDisks(x, w, conversations, d, env) == []
  {
    hide Deliver, DeliverDisks;
    if conversations != [] {
      var n := |conversations| - 1;
      NothingReceived(x, TryEach(x, w, conversations[..n], d, env).world, conversations[n], d, env);
    }
  }

  lemma {:induction false} TriedStays(x: Tools, w: World, conversations: seq<Text>, d: Delivery, env: ItemEnv, n: nat)
    requires n <= |conversations| && TryEach(x, w, conversations[..n], d, env).outcome != Stopped(NotReceived)
    ensures TryEach(x, w, conversations, d, env) == TryEach(x, w, conversations[..n], d, env)
    ensures TryDisks(x, w, conversations, d, env) == TryDisks(x, w, conversations[..n], d, env)
  {
    hide Deliver, DeliverDisks;
    if n == |conversations| {
      assert conversations[..n] == conversations;
    } else {
      assert conversations[..|conversations| - 1][..n] == conversations[..n];
      TriedStays(x, w, conversations[..|conversations| - 1], d, env, n);
    }
  }

  lemma {:induction false} TriedInVain(x: Tools, w: World, conversations: seq<Text>, d: Delivery, env: ItemEnv)
    ensures var t := TryEach(x, w, conversations, d, env);
            t.outcome == Stopped(NotReceived) ==> t.world == w
  {
    hide Received, Checkpoint, Marked, Apply, BatchFor;
    if conversations != [] {
      TriedInVain(x, w, conversations[..|conversations| - 1], d, env);
    }
  }

  // process_inbox_items; `conversations` are the catalog's ids in its order.
  method ProcessInboxItems(x: Tools, catalog: MlsSessionCatalog, store: EncryptedStore, ledger: DeliveryLedger,
                           conversations: seq<Text>, capability: Text, items: seq<RelayItem>, now: U64,
                           envs: nat -> ItemEnv, last: CommitEnv)
    returns (r: Option<(nat, seq<Text>)>)
    requires catalog.mls == x.mls && store.vault == x.vault
    modifies catalog, store, ledger
    ensures Maintained(Now(catalog, store, ledger), r)
            == Maintain(x, old(Now(catalog, store, ledger)), conversations, capability, items, now, envs, last)
    ensures store.passed == old(store.passed)
                            + MaintainDisks(x, old(Now(catalog, store, ledger)), conversations, capability, items, now, envs, last)
  {
    hide Validate, SweepItem, ItemDisks, Apply, StepDisks, Sweep, SweepDisks;
    ghost var w := Now(catalog, store, ledger);
    var acked, processed := [], 0;
    SweepOfNone(x, w, conversations, capability, items, now, envs);
    for i := 0 to |items|
      invariant Sweep(x, w, conversations, capability, items[..i], now, envs).stopped.None?
      invariant Sweep(x, w, conversations, capability, items[..i], now, envs).world == Now(catalog, store, ledger)
      invariant DeliveryIds(Sweep(x, w, conversations, capability, items[..i], now, envs).acked) == acked
      invariant |Sweep(x, w, conversations, capability, items[..i], now, envs).committed| == processed
      invariant store.passed == old(store.passed) + SweepDisks(x, w, conversations, capability, items[..i], now, envs)
    {
      ghost var p := Sweep(x, w, conversations, capability, items[..i], now, envs);
      SweepGrows(x, w, conversations, capability, items, now, envs, i);
      SweptStays(x, w, conversations, capability, items, now, envs, i + 1);
      var valid := ValidateItem(x, capability, items[i], now);
      if valid.None? {
        MalformedStops(x, p, conversations, envs(i));
        return None;
      }
      var outcome := DeliverItem(x, catalog, store, ledger, conversations, p, valid.value, envs(i));
      if outcome.Broken? {
        return None;
      }
      if outcome.Acknowledged? {
        acked := acked + [items[i].id];
        processed := processed + if outcome.isNew then 1 else 0;
      }
    }
    assert items[..|items|] == items;
    var done := ledger.Persist(x.ledger, store, last);
    r := if done.Ok? then Some((processed, acked)) else None;
  }

  datatype ItemOutcome = Acknowledged(isNew: bool) | Unclaimed | Broken

  // One item of the pass: already decrypted, claimed by a conversation, by none, or broken off.
  method DeliverItem(x: Tools, catalog: MlsSessionCatalog, store: EncryptedStore, ledger: DeliveryLedger,
                     conversations: seq<Text>, ghost p: Swept, d: Delivery, env: ItemEnv) returns (outcome: ItemOutcome)
    requires catalog.mls == x.mls && store.vault == x.vault
    requires p.world == Now(catalog, store, ledger) && p.stopped.None?
    modifies catalog, store, ledger
    ensures var q := SweepItem(x, p, conversations, Some(d), env);
            && Now(catalog, store, ledger) == q.world && (outcome.Broken? <==> q.stopped.Some?)
            && (q.stopped.None? ==>
                  && DeliveryIds(q.acked) == DeliveryIds(p.acked) + (if outcome.Acknowledged? then [d.id] else [])
                  && |q.committed| == |p.committed| + if outcome == Acknowledged(true) then 1 else 0)
    ensures store.passed == old(store.passed) + ItemDisks(x, p, conversations, Some(d), env)
  {
    hide TryEach, TryDisks, IsDecrypted;
    DeliveryIdsGrow(p.acked, d);
    if IsDecrypted(ledger.records, d.digest) {
      return Acknowledged(false);
    }
    TriedInVain(x, p.world, conversations, d, env);
    var result := OfferToAll(x, catalog, store, ledger, conversations, d, env);
    match result {
      case Committed => outcome := Acknowledged(true);
      case Stopped(NotReceived) => outcome := Unclaimed;
      case Stopped(_) => outcome := Broken;
    }
  }

  lemma SweepOfNone(x: Tools, w: World, conversations: seq<Text>, capability: Text, items: seq<RelayItem>, now: U64, envs: nat -> ItemEnv)
    ensures Sweep(x, w, conversations, capability, items[..0], now, envs) == Swept(w, 0, [], [], None, [])
    ensures SweepDisks(x, w, conversations, capability, items[..0], now, envs) == []
  {}

  lemma SweepGrows(x: Tools, w: World, conversations: seq<Text>, capability: Text, items: seq<RelayItem>, now: U64,
                   envs: nat -> ItemEnv, i: nat)
    requires i < |items| && Sweep(x, w, conversations, capability, items[..i], now, envs).stopped.None?
    ensures var p, valid := Sweep(x, w, conversations, capability, items[..i], now, envs), Validate(x, capability, items[i], now);
            && Sweep(x, w, conversations, capability, items[..i + 1], now, envs) == SweepItem(x, p, conversations, valid, envs(i))
            && SweepDisks(x, w, conversations, capability, items[..i + 1], now, envs)
               == SweepDisks(x, w, conversations, capability, items[..i], now, envs) + ItemDisks(x, p, conversations, valid, envs(i))
  {
    hide SweepItem, ItemDisks, Validate;
    assert items[..i + 1][..i] == items[..i];
  }

  lemma MalformedStops(x: Tools, p: Swept, conversations: seq<Text>, env: ItemEnv)
    ensures SweepItem(x, p, conversations, None, env) == p.(stopped := Some(Malformed))
    ensures ItemDisks(x, p, conversations, None, env) == []
  {}

  lemma DeliveryIdsGrow(ds: seq<Delivery>, d: Delivery)
    ensures DeliveryIds(ds + [d]) == DeliveryIds(ds) + [d.id] && DeliveryIds([]) == []
  {}

  lemma {:induction false} SweptStays(x: Tools, w: World, conversations: seq<Text>, capability: Text,
                                      items: seq<RelayItem>, now: U64, envs: nat -> ItemEnv, n: nat)
    requires n <= |items|
    ensures Sweep(x, w, conversations, capability, items[..n], now, envs).stopped.Some? ==>
              && Sweep(x, w, conversations, capability, items, now, envs)
                 == Sweep(x, w, conversations, capability, items[..n], now, envs)
              && SweepDisks(x, w, conversations, capability, items, now, envs)
                 == SweepDisks(x, w, conversations, capability, items[..n], now, envs)
  {
    hide SweepItem, ItemDisks, Validate;
    if n == |items| {
      assert items[..n] == items;
    } else {
      assert items[..|items| - 1][..n] == items[..n];
      SweptStays(x, w, conversations, capability, items[..|items| - 1], now, envs, n);
    }
  }
}
