/**
 Restarting the daemon from its files, and what a restart makes of a sync run that was cut short:
 processing the same items again completes it, each message folded into its session exactly once.
 */
module InboxRecovery {
  import opened Prelude
  import opened Text
  import opened RecordCodec
  import opened StoreFile
  import opened StoreProtocol
  import opened Sessions
  import opened DeliveryLedgers
  import opened Inbox
  import L = Ledger
  import R = LedgerRestore

  // ---- restarting ----

  // The conversations restore_all finds a checkpoint of.
  function Conversations(records: Records): set<Text> {
    set id | id in records && id.cls == ProtocolSession && SESSION_PREFIX <= id.key :: id.key[|SESSION_PREFIX|..]
  }

  lemma ConversationsFound(records: Records, c: Text)
    ensures c in Conversations(records) <==> CheckpointOf(records, c).Some?
  {
    if c in Conversations(records) {
      var id :| id in records && id.cls == ProtocolSession && SESSION_PREFIX <= id.key && id.key[|SESSION_PREFIX|..] == c;
      assert id.key == SESSION_PREFIX + c;
    }
    if CheckpointId(c) in records {
      assert SESSION_PREFIX <= SESSION_PREFIX + c && (SESSION_PREFIX + c)[|SESSION_PREFIX|..] == c;
    }
  }

  predicate Loadable(x: Tools, records: Records) {
    forall c :: c in Conversations(records) ==> ValidConversation(c) && DurableGroup(x, records, c).Some?
  }

  // Open the store, restore the ledger, restore every session; any refusal stops the daemon.
  function Restart(x: Tools, disk: Disk): Option<World> {
    match Open(x.vault.aead, x.vault.key, disk)
    case Err(_) => None
    case Ok(view) =>
      var store := StoreState(view.records, view.revision, false, OpenedDisk(view, disk));
      match R.Restore(x.ledger, StoredLedger(store))
      case Err(_) => None
      case Ok(l) =>
        if !Loadable(x, view.records) then None
        else Some(World(store, l, map c | c in Conversations(view.records) :: Session(DurableGroup(x, view.records, c), false)))
  }

  // A restart brings memory, ledger, sessions and files into agreement, with a usable session for every
  // stored checkpoint, holding its group, and no other. It works exactly when the store opens, its ledger
  // is restored and every checkpoint loads.
  lemma RestartIsSound(x: Tools, disk: Disk)
    ensures Restart(x, disk).Some? <==>
              && Open(x.vault.aead, x.vault.key, disk).Ok?
              && var records := Open(x.vault.aead, x.vault.key, disk).value.records;
              && R.Restore(x.ledger, if LEDGER_ID in records then Some(records[LEDGER_ID]) else None).Ok?
              && forall c :: CheckpointOf(records, c).Some? ==> ValidConversation(c) && DurableGroup(x, records, c).Some?
    ensures Restart(x, disk).Some? ==>
              var w := Restart(x, disk).value;
              forall c :: (c in w.sessions <==> CheckpointOf(w.store.records, c).Some?)
                          && (c in w.sessions ==> w.sessions[c] == Session(DurableGroup(x, w.store.records, c), false))
    ensures Restart(x, disk).Some? ==>
              && Sound(x, Restart(x, disk).value)
              && Open(x.vault.aead, x.vault.key, disk).Ok?
              && Restart(x, disk).value.store.records == Open(x.vault.aead, x.vault.key, disk).value.records
  {
    hide Open, ReadMarker, R.Restore, Conversations, DurableGroup, Decimal, CheckpointOf, ValidConversation, LEDGER_ID;
    OpenIsRepeatable(x.vault.aead, x.vault.key, disk);
    if Open(x.vault.aead, x.vault.key, disk).Ok? {
      var records := Open(x.vault.aead, x.vault.key, disk).value.records;
      forall c ensures c in Conversations(records) <==> CheckpointOf(records, c).Some? {
        ConversationsFound(records, c);
      }
    }
  }

  // ---- a run that was cut short ----

  // Records in which a run has dealt with some of its items can be restarted from.
  lemma RecordedRestarts(x: Tools, w: World, conversation: Text, done: seq<Delivery>, disk: Disk)
    requires Loadable(x, w.store.records) && Open(x.vault.aead, x.vault.key, disk).Ok?
    requires Recorded(x, w, conversation, done, Open(x.vault.aead, x.vault.key, disk).value.records)
    ensures Restart(x, disk).Some?
    ensures var again := Restart(x, disk).value;
            && Sound(x, again) && again.ledger == MarkAll(w.ledger, done)
            && Recorded(x, w, conversation, done, again.store.records)
  {
    hide Open, Conversations, Folded, MarkedBy, Handled, MarkAll, New, R.Restore, CheckpointOf, ValidConversation, OpenedDisk, Live;
    var records := Open(x.vault.aead, x.vault.key, disk).value.records;
    forall c | c in Conversations(records) ensures ValidConversation(c) && DurableGroup(x, records, c).Some? {
      ConversationsFound(records, c);
      ConversationsFound(w.store.records, c);
    }
    RestartIsSound(x, disk);
  }

  lemma {:induction false} FoldJoins(m: Mls, g: Option<Group>, a: seq<Delivery>, b: seq<Delivery>)
    ensures Folded(m, g, a + b) == Folded(m, Folded(m, g, a), b)
  {
    if b == [] {
      assert a + b == a;
    } else {
      var front, d := b[..|b| - 1], b[|b| - 1];
      FoldJoins(m, g, a, front);
      assert (a + b)[..|a + b| - 1] == a + front;
    }
  }

  lemma DigestsJoin(a: seq<Delivery>, b: seq<Delivery>)
    ensures Digests(a + b) == Digests(a) + Digests(b)
  {}

  // All of these are handled: nothing is new and nothing is marked.
  lemma {:induction false} NothingNew(l: L.Ledger, ds: seq<Delivery>)
    requires forall i :: 0 <= i < |ds| ==> Handled(l, ds[i].digest)
    ensures New(l, ds) == [] && MarkAll(l, ds) == l
  {
    hide Handled, Marked;
    if ds != [] {
      NothingNew(l, ds[..|ds| - 1]);
    }
  }

  // What is new from the start is what was new among the first n and what is new after them.
  lemma {:induction false} NewSplits(l: L.Ledger, ds: seq<Delivery>, n: nat, k: nat)
    requires n <= k <= |ds|
    requires MarkedBy(l, MarkAll(l, ds[..n]), Digests(New(l, ds[..n])))
    requires forall i :: 0 <= i < n ==> Handled(MarkAll(l, ds[..n]), ds[i].digest)
    ensures New(l, ds[..k]) == New(l, ds[..n]) + New(MarkAll(l, ds[..n]), ds[..k])
    ensures MarkAll(l, ds[..k]) == MarkAll(MarkAll(l, ds[..n]), ds[..k])
    decreases k
  {
    hide Handled, Marked, IsDecrypted, New, MarkAll, Digests;
    var marked := MarkAll(l, ds[..n]);
    if k == n {
      NothingNew(marked, ds[..n]);
    } else {
      NewSplits(l, ds, n, k - 1);
      NewGrows(l, ds, k - 1);
      NewGrows(marked, ds, k - 1);
      DigestsJoin(New(l, ds[..n]), New(marked, ds[..k - 1]));
    }
  }

  lemma NewGrows(l: L.Ledger, ds: seq<Delivery>, k: nat)
    requires k < |ds|
    ensures var d, before, marked := ds[k], New(l, ds[..k]), MarkAll(l, ds[..k]);
            && New(l, ds[..k + 1]) == (if Handled(l, d.digest) || d.digest in Digests(before) then before else before + [d])
            && MarkAll(l, ds[..k + 1])
               == if Handled(marked, d.digest) || Marked(marked, d).None? then marked else Marked(marked, d).value
  {
    hide Handled, Marked, Digests;
    assert ds[..k + 1][..k] == ds[..k];
  }

  // Dealing with the first n items, and then, from there, with the first k, is dealing with the first k.
  lemma RecordedChain(x: Tools, w: World, again: World, conversation: Text, ds: seq<Delivery>, n: nat, k: nat, records: Records)
    requires n <= k <= |ds| && again.ledger == MarkAll(w.ledger, ds[..n])
    requires Recorded(x, w, conversation, ds[..n], again.store.records)
    requires Recorded(x, again, conversation, ds[..k], records)
    ensures Recorded(x, w, conversation, ds[..k], records)
  {
    hide Handled, IsDecrypted, New, MarkAll, Folded, CheckpointOf, Remembers, Digests, ValidConversation;
    var first, second := New(w.ledger, ds[..n]), New(again.ledger, ds[..k]);
    assert forall i :: 0 <= i < n ==> ds[i] in ds[..n];
    NewSplits(w.ledger, ds, n, k);
    FoldJoins(x.mls, DurableGroup(x, w.store.records, conversation), first, second);
    FoldsOfNone(x.mls, DurableGroup(x, again.store.records, conversation));
    DigestsJoin(first, second);
  }

  lemma FoldsOfNone(m: Mls, g: Option<Group>)
    ensures Folded(m, g, []) == g
  {}

  // Handled items at the front are never in the way.
  lemma {:induction false} AckedAtLeast(x: Tools, w: World, conversation: Text, ds: seq<Delivery>, n: nat, envs: nat -> ItemEnv)
    requires n <= |ds| && forall i :: 0 <= i < n ==> Handled(w.ledger, ds[i].digest)
    ensures n <= |ProcessSync(x, w, conversation, ds, envs).acked|
  {
    hide Deliver, Handled;
    if n == |ds| {
      Rerun(x, w, conversation, ds, envs);
    } else {
      AckedAtLeast(x, w, conversation, ds[..|ds| - 1], n, envs);
    }
  }

  lemma RoomAgain(x: Tools, l: L.Ledger, ds: seq<Delivery>, n: nat)
    requires n <= |ds| && RoomFor(x, l, ds)
    requires MarkedBy(l, MarkAll(l, ds[..n]), Digests(New(l, ds[..n])))
    requires forall i :: 0 <= i < n ==> Handled(MarkAll(l, ds[..n]), ds[i].digest)
    ensures RoomFor(x, MarkAll(l, ds[..n]), ds)
  {
    hide Handled, MarkAll, New, LedgerFits, MarkedBy;
    var marked := MarkAll(l, ds[..n]);
    forall k | 0 <= k <= |ds| ensures LedgerFits(x, MarkAll(marked, ds[..k])) {
      if k < n {
        NothingNew(marked, ds[..k]);
      } else {
        NewSplits(l, ds, n, k);
      }
    }
  }

  // Restart from this disk and process the same items again: the restart works, the first items are
  // recognised, and when the second run gets through, the durable checkpoint is the fold of MLS receive
  // over exactly the deliveries that were new at the outset, in order, and exactly these are newly marked.
  ghost predicate CompletesFrom(x: Tools, w: World, conversation: Text, ds: seq<Delivery>, disk: Disk, envs: nat -> ItemEnv) {
    && Restart(x, disk).Some? && Sound(x, Restart(x, disk).value)
    && var p := ProcessSync(x, Restart(x, disk).value, conversation, ds, envs);
    && |p.acked| <= |ds| && Recorded(x, w, conversation, ds[..|p.acked|], p.world.store.records)
    && (p.stopped.None? ==> Sound(x, p.world) && Recorded(x, w, conversation, ds, p.world.store.records))
  }

  // Exactly once. Take any disk a sync run passes through, from the one it starts on to the last,
  // wherever it is cut short and however its commits fail: a second run completes it. The one exception
  // is the rollback window of the commit that ended the run, where the disk no longer opens.
  lemma CutShortThenAgain(x: Tools, w: World, conversation: Text, ds: seq<Delivery>, envs: nat -> ItemEnv, i: nat, later: nat -> ItemEnv)
    requires LawfulTools(x) && Sound(x, w) && EnvsOk(envs) && EnvsOk(later) && DeliveriesOk(ds) && RoomFor(x, w.ledger, ds)
    requires Loadable(x, w.store.records) && i <= |SyncDisks(x, w, conversation, ds, envs)|
    ensures var p := ProcessSync(x, w, conversation, ds, envs);
            var disk := ([w.store.disk] + SyncDisks(x, w, conversation, ds, envs))[i];
            || CompletesFrom(x, w, conversation, ds, disk, later)
            || (&& p.stopped == Some(NotCommitted) && RollbackWindow(envs(|p.acked|).commit)
                && Open(x.vault.aead, x.vault.key, disk) == Err(RollbackDetected) && Restart(x, disk).None?)
  {
    hide Open, LawfulTools, EnvOk, DeliveryOk, RoomFor, Loadable, ProcessSync, Live, Settled, SyncState, RecoversTo, SyncDisks,
         CompletesFrom, RollbackWindow, Recorded;
    var p, disks := ProcessSync(x, w, conversation, ds, envs), SyncDisks(x, w, conversation, ds, envs);
    var disk := ([w.store.disk] + disks)[i];
    if i == 0 {
      StartRecovers(x, w, conversation, ds);
      RecoveredThenAgain(x, w, conversation, ds, disk, later);
    } else {
      SyncFold(x, w, conversation, ds, envs);
      assert disk == disks[i - 1];
      if RecoversTo(x, w, conversation, ds, 0, |p.acked| + 1, disk) {
        RecoversWider(x, w, conversation, ds, |p.acked| + 1, disk);
        RecoveredThenAgain(x, w, conversation, ds, disk, later);
      }
    }
  }

  lemma StartRecovers(x: Tools, w: World, conversation: Text, ds: seq<Delivery>)
    requires Sound(x, w)
    ensures RecoversTo(x, w, conversation, ds, 0, |ds|, w.store.disk)
  {
    hide Open, Settled, Live, Recorded, SyncState, RecoversTo;
    SyncStart(x, w, conversation);
    RecordedIn(x, w, conversation, [], w, []);
    SettledAgrees(x.vault, w.store);
    assert ds[..0] == [];
    RecoversAt(x, w, conversation, ds, 0, w.store.disk);
  }

  lemma RecoversWider(x: Tools, w: World, conversation: Text, ds: seq<Delivery>, most: nat, disk: Disk)
    requires RecoversTo(x, w, conversation, ds, 0, most, disk)
    ensures RecoversTo(x, w, conversation, ds, 0, |ds|, disk)
  {
    hide Open, Recorded;
  }

  lemma RecoveredThenAgain(x: Tools, w: World, conversation: Text, ds: seq<Delivery>, disk: Disk, envs: nat -> ItemEnv)
    requires LawfulTools(x) && EnvsOk(envs) && DeliveriesOk(ds) && RoomFor(x, w.ledger, ds) && Loadable(x, w.store.records)
    requires RecoversTo(x, w, conversation, ds, 0, |ds|, disk)
    ensures CompletesFrom(x, w, conversation, ds, disk, envs)
  {
    hide Open, Recorded, LawfulTools, EnvOk, DeliveryOk, RoomFor, Loadable, Restart, ProcessSync, Live, Settled, SyncState, MarkAll,
         DisksState;
    var records := Open(x.vault.aead, x.vault.key, disk).value.records;
    var n :| 0 <= n <= |ds| && Recorded(x, w, conversation, ds[..n], records);
    RecordedRestarts(x, w, conversation, ds[..n], disk);
    var again := Restart(x, disk).value;
    RecordedParts(x, w, conversation, ds, n, again.store.records);
    RoomAgain(x, w.ledger, ds, n);
    SyncFold(x, again, conversation, ds, envs);
    var p := ProcessSync(x, again, conversation, ds, envs);
    AckedAtLeast(x, again, conversation, ds, n, envs);
    RecordedIn(x, again, conversation, ds[..|p.acked|], p.world, p.committed);
    RecordedChain(x, w, again, conversation, ds, n, |p.acked|, p.world.store.records);
    assert ds[..|ds|] == ds;
  }

  lemma RecordedParts(x: Tools, w: World, conversation: Text, ds: seq<Delivery>, n: nat, records: Records)
    requires n <= |ds| && Recorded(x, w, conversation, ds[..n], records)
    ensures MarkedBy(w.ledger, MarkAll(w.ledger, ds[..n]), Digests(New(w.ledger, ds[..n])))
    ensures forall i :: 0 <= i < n ==> Handled(MarkAll(w.ledger, ds[..n]), ds[i].digest)
  {
    hide Handled, IsDecrypted, New, MarkAll, Folded, CheckpointOf, Remembers, Digests;
    assert forall i :: 0 <= i < n ==> ds[i] in ds[..n];
  }
}
