/**
 The background pass over the inbox: each item is offered to every known conversation in
 turn, and the first one that can receive it commits it.
 */
module Maintenance {
  import opened Prelude
  import opened Text
  import opened RecordCodec
  import opened StoreFile
  import opened StoreProtocol
  import opened Sessions
  import opened DeliveryLedgers
  import opened Inbox
  import L = Ledger
  import R = LedgerRestore

  datatype Tried = Tried(world: World, outcome: Outcome, conversation: Text)

  function TryEach(x: Tools, w: World, conversations: seq<Text>, d: Delivery, env: ItemEnv): Tried {
    if conversations == [] then Tried(w, Stopped(NotReceived), [])
    else
      var n := |conversations| - 1;
      var t := TryEach(x, w, conversations[..n], d, env);
      if t.outcome != Stopped(NotReceived) then t
      else
        var r := Deliver(x, t.world, conversations[n], d, env, false);
        Tried(r.world, r.outcome, conversations[n])
  }

  datatype Note = Note(conversation: Text, delivery: Delivery)

  // A pass so far: how many items it has been through, what it will acknowledge, what it has
  // committed, and, once stopped, why and which delivery was being committed, if any.
  datatype Swept = Swept(
    world: World, done: nat, acked: seq<Delivery>, committed: seq<Note>, stopped: Option<Site>, pending: seq<Note>)

  function SweepItem(x: Tools, p: Swept, conversations: seq<Text>, valid: Option<Delivery>, env: ItemEnv): Swept {
    match valid
    case None => p.(stopped := Some(Malformed))
    case Some(d) =>
      var next := p.(done := p.done + 1);
      if IsDecrypted(p.world.ledger, d.digest) then next.(acked := p.acked + [d])
      else
        var t := TryEach(x, p.world, conversations, d, env);
        var note := Note(t.conversation, d);
        match t.outcome
        case Committed => next.(world := t.world, acked := p.acked + [d], committed := p.committed + [note])
        case Stopped(NotReceived) => next
        case Stopped(site) =>
          p.(world := t.world, stopped := Some(site), pending := if site == NotCommitted then [note] else [])
  }

  function Sweep(x: Tools, w: World, conversations: seq<Text>, capability: Text, items: seq<RelayItem>, now: U64,
                 envs: nat -> ItemEnv): Swept
  {
    if items == [] then Swept(w, 0, [], [], None, [])
    else
      var n := |items| - 1;
      var p := Sweep(x, w, conversations, capability, items[..n], now, envs);
      if p.stopped.Some? then p
      else SweepItem(x, p, conversations, Validate(x, capability, items[n], now), envs(n))
  }

  datatype Maintained = Maintained(world: World, result: Option<(nat, seq<Text>)>)

  // process_inbox_items, with the ledger written once more at the end.
  function Maintain(x: Tools, w: World, conversations: seq<Text>, capability: Text, items: seq<RelayItem>, now: U64,
                    envs: nat -> ItemEnv, last: CommitEnv): Maintained
  {
    var p := Sweep(x, w, conversations, capability, items, now, envs);
    if p.stopped.Some? then Maintained(p.world, None)
    else
      var step := Apply(x.vault, p.world.store, PutOne(LEDGER_ID, x.ledger.write(p.world.ledger)), last);
      Maintained(p.world.(store := step.state), if step.result.Ok? then Some((|p.committed|, DeliveryIds(p.acked))) else None)
  }

  // ---- the disks a pass leaves behind ----

  function TryDisks(x: Tools, w: World, conversations: seq<Text>, d: Delivery, env: ItemEnv): seq<Disk> {
    if conversations == [] then []
    else
      var n := |conversations| - 1;
      var t := TryEach(x, w, conversations[..n], d, env);
      if t.outcome != Stopped(NotReceived) then TryDisks(x, w, conversations[..n], d, env)
      else DeliverDisks(x, t.world, conversations[n], d, env)
  }

  function ItemDisks(x: Tools, p: Swept, conversations: seq<Text>, valid: Option<Delivery>, env: ItemEnv): seq<Disk> {
    if valid.None? || IsDecrypted(p.world.ledger, valid.value.digest) then []
    else TryDisks(x, p.world, conversations, valid.value, env)
  }

  function SweepDisks(x: Tools, w: World, conversations: seq<Text>, capability: Text, items: seq<RelayItem>, now: U64,
                      envs: nat -> ItemEnv): seq<Disk>
  {
    if items == [] then []
    else
      var n := |items| - 1;
      var p := Sweep(x, w, conversations, capability, items[..n], now, envs);
      SweepDisks(x, w, conversations, capability, items[..n], now, envs)
      + if p.stopped.Some? then [] else ItemDisks(x, p, conversations, Validate(x, capability, items[n], now), envs(n))
  }

  // The whole call, the closing ledger write included.
  function MaintainDisks(x: Tools, w: World, conversations: seq<Text>, capability: Text, items: seq<RelayItem>, now: U64,
                         envs: nat -> ItemEnv, last: CommitEnv): seq<Disk>
  {
    var p := Sweep(x, w, conversations, capability, items, now, envs);
    SweepDisks(x, w, conversations, capability, items, now, envs)
    + if p.stopped.Some? then []
      else StepDisks(x.vault, p.world.store, PutOne(LEDGER_ID, x.ledger.write(p.world.ledger)), last)
  }

  // ---- what every pass keeps ----

  // The deliveries committed to one conversation, in order.
  function CommittedTo(notes: seq<Note>, conversation: Text): seq<Delivery> {
    if notes == [] then []
    else
      var front, n := CommittedTo(notes[..|notes| - 1], conversation), notes[|notes| - 1];
      if n.conversation == conversation then front + [n.delivery] else front
  }

  function NoteDigests(notes: seq<Note>): set<Text> {
    set n | n in notes :: n.delivery.digest
  }

  // What records say once exactly `notes` have been committed since `w`: every checkpoint is the
  // fold of MLS receive over what was committed to its conversation, and the ledger newly marks
  // exactly the committed digests.
  ghost predicate Noted(x: Tools, w: World, notes: seq<Note>, l: L.Ledger, records: Records) {
    && Remembers(x, records, l)
    && (forall c :: DurableGroup(x, records, c)
                    == Folded(x.mls, DurableGroup(x, w.store.records, c), CommittedTo(notes, c)))
    && (forall e :: IsDecrypted(l, e) <==> IsDecrypted(w.ledger, e) || e in NoteDigests(notes))
  }

  // Memory after a pass: records and ledger say what was committed, and everything to be
  // acknowledged is Decrypted. The files agree unless the pass stopped.
  ghost predicate SweepState(x: Tools, w: World, p: Swept) {
    && !p.world.store.locked && Noted(x, w, p.committed, p.world.ledger, p.world.store.records)
    && (forall d :: d in p.acked ==> IsDecrypted(p.world.ledger, d.digest))
    && (p.stopped.None? ==> Settled(x.vault, p.world.store) && p.pending == [])
    && |p.pending| <= 1
  }

  // Every session is poisoned or in step, unless the pass stopped where it forgets to poison.
  ghost predicate SessionsState(x: Tools, p: Swept) {
    Live(x, p.world) <==> p.stopped.None? || !Unpoisoned(p.stopped.value)
  }

  // The disk opens to records that say at least the first `least` of these notes, in order, were committed.
  ghost predicate Recovers(x: Tools, w: World, notes: seq<Note>, least: nat, disk: Disk) {
    var r := Open(x.vault.aead, x.vault.key, disk);
    r.Ok? && exists n, l :: least <= n <= |notes| && Noted(x, w, notes[..n], l, r.value.records)
  }

  // Wherever a pass is cut short the disk opens to a prefix of what it committed, the delivery whose
  // commit failed perhaps included; where it ends, nothing committed is missing. Only a commit in the
  // window leaves a disk that reports rollback instead.
  ghost predicate PassDisks(x: Tools, w: World, p: Swept, disks: seq<Disk>, window: bool) {
    var notes := p.committed + p.pending;
    && p.world.store.disk == (if disks == [] then w.store.disk else disks[|disks| - 1])
    && (forall i :: 0 <= i < |disks| ==>
          || Recovers(x, w, notes, 0, disks[i])
          || (window && Open(x.vault.aead, x.vault.key, disks[i]) == Err(RollbackDetected)))
    && (|| Recovers(x, w, notes, |p.committed|, p.world.store.disk)
        || (window && Open(x.vault.aead, x.vault.key, p.world.store.disk) == Err(RollbackDetected)))
  }

  predicate Window(p: Swept, envs: nat -> ItemEnv) {
    p.stopped == Some(NotCommitted) && RollbackWindow(envs(p.done).commit)
  }

  // Each ledger about to be committed fits one store record.
  predicate Fits(x: Tools, w: World, valid: Option<Delivery>) {
    valid.Some? && Marked(w.ledger, valid.value).Some? ==> LedgerFits(x, Marked(w.ledger, valid.value).value)
  }

  ghost predicate RoomForAll(x: Tools, w: World, conversations: seq<Text>, capability: Text, items: seq<RelayItem>, now: U64,
                             envs: nat -> ItemEnv)
  {
    forall n :: 0 <= n < |items| ==>
      Fits(x, Sweep(x, w, conversations, capability, items[..n], now, envs).world, Validate(x, capability, items[n], now))
  }

  // Offering an item to every conversation is one delivery to at most one of them.
  lemma {:induction false} TryStep(x: Tools, w: World, conversations: seq<Text>, d: Delivery, env: ItemEnv)
    requires LawfulTools(x) && Sound(x, w) && EnvOk(env) && DeliveryOk(d) && Fits(x, w, Some(d))
    ensures var t := TryEach(x, w, conversations, d, env);
            && !t.world.store.locked && Remembers(x, t.world.store.records, t.world.ledger)
            && (Live(x, t.world) <==> t.outcome.Committed? || !Unpoisoned(t.outcome.site))
    ensures var t := TryEach(x, w, conversations, d, env);
            && (t.outcome.Committed? ==>
                  && !RollbackWindow(env.commit) && Settled(x.vault, t.world.store) && Some(t.world.ledger) == Marked(w.ledger, d)
                  && Delivers(x, w, t.conversation, d, StagedFor(x, w, t.conversation, d, env), t.world.store.records))
            && (t.outcome.Stopped? ==>
                  t.world.store == w.store.(disk := t.world.store.disk) && t.world.ledger == w.ledger)
            && (t.outcome == Stopped(NotReceived) ==> t.world == w)
    ensures var t, disks := TryEach(x, w, conversations, d, env), TryDisks(x, w, conversations, d, env);
            && (disks != [] ==> t.outcome == Committed || t.outcome == Stopped(NotCommitted))
            && t.world.store.disk == (if disks == [] then w.store.disk else disks[|disks| - 1])
            && (forall i :: 0 <= i < |disks| ==>
                  BeforeOrAfter(x, w, t.conversation, d, StagedFor(x, w, t.conversation, d, env), env.commit, disks[i]))
  {
    hide Deliver, DeliverDisks, Settled, InStep, EnvOk, DeliveryOk, LawfulTools, LedgerFits, Marked, Delivers, Remembers,
         BeforeOrAfter, RollbackWindow;
    if conversations != [] {
      TryStep(x, w, conversations[..|conversations| - 1], d, env);
      DeliverStep(x, w, conversations[|conversations| - 1], d, env, false);
    }
  }

  // Which deliveries leave a session ahead of its checkpoint and unpoisoned, told before the call:
  // those that MLS receives and whose checkpoint cannot be taken, whose records cannot be staged,
  // or whose digest the ledger already holds in a state other than received or decrypted.
  lemma LeftAhead(x: Tools, w: World, conversation: Text, d: Delivery, env: ItemEnv)
    requires LawfulTools(x) && Sound(x, w) && EnvOk(env) && DeliveryOk(d) && Fits(x, w, Some(d))
    ensures var received := Received(x.mls, w.sessions, conversation, d.ciphertext);
            Live(x, Deliver(x, w, conversation, d, env, false).world) <==>
              (received.Some? ==>
                 && Checkpoint(x.mls, received.value.0, conversation).Some?
                 && (received.value.1.Some? ==> env.staged.Some?)
                 && (d.digest in w.ledger ==> Handled(w.ledger, d.digest)))
  {
    hide Settled, Live, EnvOk, LedgerFits, Marked, Delivers, DeliverDisks, BeforeOrAfter, Remembers, Apply, Received, Checkpoint,
         R.Restorable;
    DeliverStep(x, w, conversation, d, env, false);
    MarkedLedger(w.ledger, d);
  }

  // ---- what becomes of each item ----

  // The first conversation whose session can receive this message.
  function FirstReceiver(x: Tools, w: World, conversations: seq<Text>, d: Delivery): Option<Text> {
    if conversations == [] then None
    else
      var n := |conversations| - 1;
      var before := FirstReceiver(x, w, conversations[..n], d);
      if before.Some? then before
      else if Received(x.mls, w.sessions, conversations[n], d.ciphertext).Some? then Some(conversations[n])
      else None
  }

  lemma {:induction false} FirstReceiverIsFirst(x: Tools, w: World, conversations: seq<Text>, d: Delivery)
    ensures FirstReceiver(x, w, conversations, d).None? <==>
              forall i :: 0 <= i < |conversations| ==> Received(x.mls, w.sessions, conversations[i], d.ciphertext).None?
    ensures FirstReceiver(x, w, conversations, d).Some? ==>
              exists k :: 0 <= k < |conversations| && FirstReceiver(x, w, conversations, d) == Some(conversations[k])
                          && Received(x.mls, w.sessions, conversations[k], d.ciphertext).Some?
                          && forall i :: 0 <= i < k ==> Received(x.mls, w.sessions, conversations[i], d.ciphertext).None?
  {
    hide Received;
    if conversations != [] {
      var n := |conversations| - 1;
      FirstReceiverIsFirst(x, w, conversations[..n], d);
      if FirstReceiver(x, w, conversations[..n], d).Some? {
        var k :| 0 <= k < n && FirstReceiver(x, w, conversations[..n], d) == Some(conversations[..n][k])
                 && Received(x.mls, w.sessions, conversations[..n][k], d.ciphertext).Some?
                 && forall i :: 0 <= i < k ==> Received(x.mls, w.sessions, conversations[..n][i], d.ciphertext).None?;
        forall i | 0 <= i < k ensures Received(x.mls, w.sessions, conversations[i], d.ciphertext).None? {
          assert conversations[..n][i] == conversations[i];
        }
        assert conversations[k] == conversations[..n][k];
      } else {
        forall i | 0 <= i < n ensures Received(x.mls, w.sessions, conversations[i], d.ciphertext).None? {
          assert conversations[..n][i] == conversations[i];
        }
      }
    }
  }

  // The message goes to that conversation and to no other; without one nothing happens.
  lemma {:induction false} TriedAtFirst(x: Tools, w: World, conversations: seq<Text>, d: Delivery, env: ItemEnv)
    ensures var t, first := TryEach(x, w, conversations, d, env), FirstReceiver(x, w, conversations, d);
            && (first.None? ==> t.world == w && t.outcome == Stopped(NotReceived))
            && (first.Some? ==>
                  var r := Deliver(x, w, first.value, d, env, false);
                  t == Tried(r.world, r.outcome, first.value) && t.outcome != Stopped(NotReceived))
  {
    hide Received, Checkpoint, Marked, BatchFor, Apply, R.Restore;
    if conversations != [] {
      TriedAtFirst(x, w, conversations[..|conversations| - 1], d, env);
    }
  }

  // Told before the item: it is malformed, or its first receiver cannot commit it.
  predicate Stops(x: Tools, w: World, conversations: seq<Text>, valid: Option<Delivery>, env: ItemEnv) {
    || valid.None?
    || (&& !IsDecrypted(w.ledger, valid.value.digest)
        && var first := FirstReceiver(x, w, conversations, valid.value);
        && first.Some? && !CanCommit(x, w, first.value, valid.value, env))
  }

  // The fate of one item. The pass stops there exactly when told above. Otherwise it goes on: an item
  // already Decrypted is acknowledged; one no conversation receives leaves everything as it was; and any
  // other is committed to its first receiver and acknowledged. Either way it is acknowledged exactly when
  // it is Decrypted after its turn.
  lemma ItemFate(x: Tools, p: Swept, conversations: seq<Text>, valid: Option<Delivery>, env: ItemEnv)
    requires LawfulTools(x) && Sound(x, p.world) && EnvOk(env) && p.stopped.None?
    requires valid.Some? ==> DeliveryOk(valid.value)
    requires Fits(x, p.world, valid)
    ensures var q := SweepItem(x, p, conversations, valid, env);
            && (q.stopped.Some? <==> Stops(x, p.world, conversations, valid, env))
            && (q.stopped.None? ==> valid.Some?)
            && (q.stopped.Some? ==> q.acked == p.acked && q.committed == p.committed)
    ensures var q := SweepItem(x, p, conversations, valid, env);
            q.stopped.None? ==>
              var d := valid.value;
              var first := FirstReceiver(x, p.world, conversations, d);
              && q.acked == p.acked + (if IsDecrypted(q.world.ledger, d.digest) then [d] else [])
              && (IsDecrypted(p.world.ledger, d.digest) || first.None? ==> q.world == p.world && q.committed == p.committed)
              && (!IsDecrypted(p.world.ledger, d.digest) && first.Some? ==>
                    && q.world == Deliver(x, p.world, first.value, d, env, false).world
                    && q.committed == p.committed + [Note(first.value, d)]
                    && IsDecrypted(q.world.ledger, d.digest))
  {
    hide TryEach, FirstReceiver, CanCommit, Deliver, Settled, Live, EnvOk, DeliveryOk, LawfulTools, LedgerFits, Marked, IsDecrypted,
         DeliverDisks, BeforeOrAfter, Delivers, Remembers;
    if valid.Some? && !IsDecrypted(p.world.ledger, valid.value.digest) {
      var d := valid.value;
      TriedAtFirst(x, p.world, conversations, d, env);
      var first := FirstReceiver(x, p.world, conversations, d);
      if first.Some? {
        CommitsExactly(x, p.world, first.value, d, env, false);
        DeliverStep(x, p.world, first.value, d, env, false);
        if CanCommit(x, p.world, first.value, d, env) {
          DecryptedKeeps(p.world.ledger, d);
        }
      }
    }
  }

  lemma NotedNext(x: Tools, w: World, notes: seq<Note>, now: World, note: Note, staged: seq<Mutation>, records: Records)
    requires Noted(x, w, notes, now.ledger, now.store.records) && DeliveryOk(note.delivery)
    requires Delivers(x, now, note.conversation, note.delivery, staged, records)
    ensures Marked(now.ledger, note.delivery).Some?
    ensures Noted(x, w, notes + [note], Marked(now.ledger, note.delivery).value, records)
  {
    hide CheckpointOf, IsDecrypted, Marked, Handled, Folded, CommittedTo, Remembers;
    MarkedByOne(now.ledger, note.delivery);
    assert NoteDigests(notes + [note]) == NoteDigests(notes) + {note.delivery.digest};
    forall c ensures DurableGroup(x, records, c)
                     == Folded(x.mls, DurableGroup(x, w.store.records, c), CommittedTo(notes + [note], c)) {
      FoldExtends(x.mls, DurableGroup(x, w.store.records, c), notes, note, c);
    }
  }

  lemma FoldExtends(m: Mls, g: Option<Group>, notes: seq<Note>, n: Note, c: Text)
    ensures Folded(m, g, CommittedTo(notes + [n], c))
            == if n.conversation == c then Next(m, Folded(m, g, CommittedTo(notes, c)), n.delivery.ciphertext)
               else Folded(m, g, CommittedTo(notes, c))
  {
    var ds := CommittedTo(notes, c);
    assert (notes + [n])[..|notes|] == notes;
    assert (ds + [n.delivery])[..|ds|] == ds;
  }

  lemma SweepStart(x: Tools, w: World)
    requires Sound(x, w)
    ensures var p := Swept(w, 0, [], [], None, []);
            SweepState(x, w, p) && SessionsState(x, p) && PassDisks(x, w, p, [], false)
  {
    hide DurableGroup, IsDecrypted, Settled, InStep, Open, Remembers;
    SettledAgrees(x.vault, w.store);
    var p := Swept(w, 0, [], [], None, []);
    assert SweepState(x, w, p);
    hide Noted;
    var none: seq<Note> := [];
    assert none[..0] == none && none + none == none;
    RecoversAt(x, w, none, 0, w.ledger, w.store.disk);
  }

  lemma RecoversAt(x: Tools, w: World, notes: seq<Note>, n: nat, l: L.Ledger, disk: Disk)
    requires n <= |notes| && Open(x.vault.aead, x.vault.key, disk).Ok?
    requires Noted(x, w, notes[..n], l, Open(x.vault.aead, x.vault.key, disk).value.records)
    ensures forall least :: 0 <= least <= n ==> Recovers(x, w, notes, least, disk)
  {
    hide Noted, Open;
  }

  lemma RecoversMore(x: Tools, w: World, notes: seq<Note>, least: nat, more: seq<Note>, disk: Disk)
    requires Recovers(x, w, notes, least, disk)
    ensures Recovers(x, w, notes + more, least, disk) && Recovers(x, w, notes + more, 0, disk)
  {
    hide Noted, Open;
    var records := Open(x.vault.aead, x.vault.key, disk).value.records;
    var n, l :| least <= n <= |notes| && Noted(x, w, notes[..n], l, records);
    assert (notes + more)[..n] == notes[..n];
  }

  // What the disks of one delivery recover to.
  lemma DeliveryRecovers(x: Tools, w: World, notes: seq<Note>, now: World, note: Note, staged: seq<Mutation>, env: CommitEnv, disk: Disk)
    requires Noted(x, w, notes, now.ledger, now.store.records) && DeliveryOk(note.delivery)
    requires BeforeOrAfter(x, now, note.conversation, note.delivery, staged, env, disk)
    ensures || Recovers(x, w, notes + [note], |notes|, disk)
            || (RollbackWindow(env) && Open(x.vault.aead, x.vault.key, disk) == Err(RollbackDetected))
  {
    hide Noted, Open, RollbackWindow, Delivers, Marked, DeliveryOk;
    var r, all := Open(x.vault.aead, x.vault.key, disk), notes + [note];
    assert all[..|notes|] == notes && all[..|notes| + 1] == all;
    if r.Ok? && Delivers(x, now, note.conversation, note.delivery, staged, r.value.records) {
      NotedNext(x, w, notes, now, note, staged, r.value.records);
      RecoversAt(x, w, all, |notes| + 1, Marked(now.ledger, note.delivery).value, disk);
    } else if r.Ok? {
      RecoversAt(x, w, all, |notes|, now.ledger, disk);
    }
  }

  // The next state of the disks, from the last one and those of one more item.
  lemma PassDisksNext(x: Tools, w: World, p: Swept, disks: seq<Disk>, q: Swept, more: seq<Disk>, window: bool)
    requires PassDisks(x, w, p, disks, false) && p.pending == []
    requires p.committed <= q.committed + q.pending && |p.committed| <= |q.committed|
    requires q.world.store.disk == if more == [] then p.world.store.disk else more[|more| - 1]
    requires forall i :: 0 <= i < |more| ==>
               || Recovers(x, w, q.committed + q.pending, |p.committed|, more[i])
               || (window && Open(x.vault.aead, x.vault.key, more[i]) == Err(RollbackDetected))
    requires || Recovers(x, w, q.committed + q.pending, |q.committed|, q.world.store.disk)
             || (window && Open(x.vault.aead, x.vault.key, q.world.store.disk) == Err(RollbackDetected))
             || (more == [] && q.committed == p.committed)
    ensures PassDisks(x, w, q, disks + more, window)
  {
    hide Recovers, Open;
    var notes, all := p.committed, q.committed + q.pending;
    assert p.committed + p.pending == notes && all == notes + all[|notes|..];
    forall i | 0 <= i < |disks| ensures Recovers(x, w, all, 0, disks[i]) {
      RecoversMore(x, w, notes, 0, all[|notes|..], disks[i]);
    }
    forall i | 0 <= i < |more| && Recovers(x, w, all, |notes|, more[i]) ensures Recovers(x, w, all, 0, more[i]) {
      assert all + [] == all;
      RecoversMore(x, w, all, |notes|, [], more[i]);
    }
    if more == [] && q.committed == p.committed {
      RecoversMore(x, w, notes, |notes|, all[|notes|..], p.world.store.disk);
    }
  }

  lemma SweepOne(x: Tools, w: World, p: Swept, disks: seq<Disk>, conversations: seq<Text>, valid: Option<Delivery>, env: ItemEnv)
    requires LawfulTools(x) && SweepState(x, w, p) && Live(x, p.world) && EnvOk(env)
    requires valid.Some? ==> DeliveryOk(valid.value)
    requires Fits(x, p.world, valid) && p.stopped.None? && PassDisks(x, w, p, disks, false)
    ensures var q := SweepItem(x, p, conversations, valid, env);
            && SweepState(x, w, q) && SessionsState(x, q)
            && PassDisks(x, w, q, disks + ItemDisks(x, p, conversations, valid, env),
                         q.stopped == Some(NotCommitted) && RollbackWindow(env.commit))
  {
    hide TryEach, TryDisks, Live, Settled, EnvOk, DeliveryOk, LawfulTools, Fits, Marked, Delivers, IsDecrypted, Noted, PassDisks,
         BeforeOrAfter, RollbackWindow, Recovers, Open;
    var q, more := SweepItem(x, p, conversations, valid, env), ItemDisks(x, p, conversations, valid, env);
    var window := q.stopped == Some(NotCommitted) && RollbackWindow(env.commit);
    if valid.Some? && !IsDecrypted(p.world.ledger, valid.value.digest) {
      var d := valid.value;
      TryStep(x, p.world, conversations, d, env);
      var t := TryEach(x, p.world, conversations, d, env);
      var note := Note(t.conversation, d);
      if t.outcome.Committed? {
        DecryptedKeeps(p.world.ledger, d);
        NotedNext(x, w, p.committed, p.world, note, StagedFor(x, p.world, t.conversation, d, env), t.world.store.records);
        SettledAgrees(x.vault, t.world.store);
        assert (p.committed + [note])[..|p.committed| + 1] == p.committed + [note];
        RecoversAt(x, w, p.committed + [note], |p.committed| + 1, t.world.ledger, t.world.store.disk);
      }
      forall i | 0 <= i < |more|
        ensures || Recovers(x, w, q.committed + q.pending, |p.committed|, more[i])
                || (window && Open(x.vault.aead, x.vault.key, more[i]) == Err(RollbackDetected))
      {
        DeliveryRecovers(x, w, p.committed, p.world, note, StagedFor(x, p.world, t.conversation, d, env), env.commit, more[i]);
        assert q.committed + q.pending == p.committed + [note];
      }
    }
    assert q.committed + q.pending == (q.committed + q.pending)[..|q.committed| + |q.pending|];
    PassDisksNext(x, w, p, disks, q, more, window);
  }

  lemma DecryptedKeeps(l: L.Ledger, d: Delivery)
    requires DeliveryOk(d) && Marked(l, d).Some?
    ensures IsDecrypted(Marked(l, d).value, d.digest)
    ensures forall e :: IsDecrypted(l, e) ==> IsDecrypted(Marked(l, d).value, e)
  {
    hide Marked, IsDecrypted, Handled;
    MarkedByOne(l, d);
  }

  lemma {:induction false} SweepFold(x: Tools, w: World, conversations: seq<Text>, capability: Text,
                                     items: seq<RelayItem>, now: U64, envs: nat -> ItemEnv)
    requires LawfulTools(x) && Sound(x, w) && EnvsOk(envs)
    requires RoomForAll(x, w, conversations, capability, items, now, envs)
    ensures var p := Sweep(x, w, conversations, capability, items, now, envs);
            && SweepState(x, w, p) && SessionsState(x, p)
            && (p.stopped.None? ==> p.done == |items|) && p.done <= |items|
            && PassDisks(x, w, p, SweepDisks(x, w, conversations, capability, items, now, envs), Window(p, envs))
  {
    hide SweepItem, ItemDisks, Live, Settled, EnvOk, LawfulTools, Fits, Validate, SweepState, PassDisks, RollbackWindow;
    if items == [] {
      SweepStart(x, w);
    } else {
      var n := |items| - 1;
      var front := items[..n];
      forall k | 0 <= k < n ensures front[..k] == items[..k] && front[k] == items[k] {}
      SweepFold(x, w, conversations, capability, front, now, envs);
      var p, disks := Sweep(x, w, conversations, capability, front, now, envs), SweepDisks(x, w, conversations, capability, front, now, envs);
      if p.stopped.None? {
        ValidatedItem(x, capability, items[n], now);
        SweepOne(x, w, p, disks, conversations, Validate(x, capability, items[n], now), envs(n));
        ItemCounts(x, p, conversations, Validate(x, capability, items[n], now), envs(n));
      } else {
        assert disks + [] == disks;
      }
    }
  }

  // Whether any item of the pass stops it, each told before its turn.
  ghost predicate NeverStops(x: Tools, w: World, conversations: seq<Text>, capability: Text, items: seq<RelayItem>, now: U64,
                             envs: nat -> ItemEnv)
  {
    forall n :: 0 <= n < |items| ==>
      !Stops(x, Sweep(x, w, conversations, capability, items[..n], now, envs).world, conversations,
             Validate(x, capability, items[n], now), envs(n))
  }

  function ItemDigests(x: Tools, capability: Text, items: seq<RelayItem>, now: U64): set<Text> {
    set i | 0 <= i < |items| && Validate(x, capability, items[i], now).Some? :: Validate(x, capability, items[i], now).value.digest
  }

  function AckedDigests(p: Swept): set<Text> { set d | d in p.acked :: d.digest }

  // A pass gets through exactly when no item stops it, and then the digests it acknowledges are exactly
  // those of its items that are Decrypted afterwards.
  lemma {:induction false} SweepGetsThrough(x: Tools, w: World, conversations: seq<Text>, capability: Text,
                                            items: seq<RelayItem>, now: U64, envs: nat -> ItemEnv)
    requires LawfulTools(x) && Sound(x, w) && EnvsOk(envs)
    requires RoomForAll(x, w, conversations, capability, items, now, envs)
    ensures var p := Sweep(x, w, conversations, capability, items, now, envs);
            && (p.stopped.None? <==> NeverStops(x, w, conversations, capability, items, now, envs))
            && (p.stopped.None? ==> AckedExactly(x, capability, items, now, p))
  {
    hide SweepItem, Stops, Sound, EnvsOk, LawfulTools, Fits, Validate, AckedExactly, SweepState, SessionsState, PassDisks, SweepDisks,
         Window, NeverStops, RoomForAll;
    PassGrows(x, w, conversations, capability, items, now, envs);
    if items == [] {
      EmptyPass(x, w, capability, now);
    } else {
      var n := |items| - 1;
      var front := items[..n];
      SweepGetsThrough(x, w, conversations, capability, front, now, envs);
      SweepFold(x, w, conversations, capability, front, now, envs);
      var q, valid := Sweep(x, w, conversations, capability, front, now, envs), Validate(x, capability, items[n], now);
      if q.stopped.None? {
        ValidatedItem(x, capability, items[n], now);
        EnvOkAt(envs, n);
        RunningIsSound(x, w, q);
        ItemFate(x, q, conversations, valid, envs(n));
        AckedNext(x, q, conversations, capability, items, now, envs(n));
      }
    }
  }

  lemma EnvOkAt(envs: nat -> ItemEnv, n: nat)
    requires EnvsOk(envs)
    ensures EnvOk(envs(n))
  {}

  // Both conditions on a pass, one item longer.
  lemma PassGrows(x: Tools, w: World, conversations: seq<Text>, capability: Text, items: seq<RelayItem>, now: U64, envs: nat -> ItemEnv)
    ensures items == [] ==> NeverStops(x, w, conversations, capability, items, now, envs)
    ensures items != [] ==>
              var n := |items| - 1;
              var before, valid := Sweep(x, w, conversations, capability, items[..n], now, envs).world, Validate(x, capability, items[n], now);
              && (NeverStops(x, w, conversations, capability, items, now, envs) <==>
                    NeverStops(x, w, conversations, capability, items[..n], now, envs) && !Stops(x, before, conversations, valid, envs(n)))
              && (RoomForAll(x, w, conversations, capability, items, now, envs) ==>
                    RoomForAll(x, w, conversations, capability, items[..n], now, envs) && Fits(x, before, valid))
  {
    hide Sweep, Stops, Fits, Validate;
    if items != [] {
      var front := items[..|items| - 1];
      forall k | 0 <= k < |front| ensures front[..k] == items[..k] && front[k] == items[k] {}
    }
  }

  ghost predicate AckedExactly(x: Tools, capability: Text, items: seq<RelayItem>, now: U64, p: Swept) {
    forall e :: e in AckedDigests(p) <==> e in ItemDigests(x, capability, items, now) && IsDecrypted(p.world.ledger, e)
  }

  lemma AckedNext(x: Tools, p: Swept, conversations: seq<Text>, capability: Text, items: seq<RelayItem>, now: U64, env: ItemEnv)
    requires LawfulTools(x) && Sound(x, p.world) && EnvOk(env) && p.stopped.None? && items != []
    requires Fits(x, p.world, Validate(x, capability, items[|items| - 1], now))
    requires AckedExactly(x, capability, items[..|items| - 1], now, p)
    ensures var q := SweepItem(x, p, conversations, Validate(x, capability, items[|items| - 1], now), env);
            q.stopped.None? ==> AckedExactly(x, capability, items, now, q)
  {
    hide SweepItem, Stops, Sound, EnvOk, LawfulTools, Fits, Validate, IsDecrypted, AckedDigests, ItemDigests, FirstReceiver, Deliver, DeliveryOk;
    var valid := Validate(x, capability, items[|items| - 1], now);
    ValidatedItem(x, capability, items[|items| - 1], now);
    ItemFate(x, p, conversations, valid, env);
    var q := SweepItem(x, p, conversations, valid, env);
    if q.stopped.None? {
      AckedGrows(p, q, valid.value);
      DigestsGrow(x, capability, items, now);
      LedgerKeeps(x, p, conversations, valid.value, env);
    }
  }

  lemma EmptyPass(x: Tools, w: World, capability: Text, now: U64)
    ensures AckedExactly(x, capability, [], now, Swept(w, 0, [], [], None, []))
  {}

  lemma RunningIsSound(x: Tools, w: World, p: Swept)
    requires SweepState(x, w, p) && SessionsState(x, p) && p.stopped.None?
    ensures Sound(x, p.world)
  {
    hide Settled, Live, Noted;
  }

  lemma AckedGrows(p: Swept, q: Swept, d: Delivery)
    requires q.acked == p.acked || q.acked == p.acked + [d]
    ensures AckedDigests(q) == AckedDigests(p) + if q.acked == p.acked then {} else {d.digest}
  {
    if q.acked != p.acked {
      assert d in q.acked;
    }
  }

  lemma DigestsGrow(x: Tools, capability: Text, items: seq<RelayItem>, now: U64)
    requires items != [] && Validate(x, capability, items[|items| - 1], now).Some?
    ensures ItemDigests(x, capability, items, now)
            == ItemDigests(x, capability, items[..|items| - 1], now) + {Validate(x, capability, items[|items| - 1], now).value.digest}
  {
    hide Validate;
    var front, all := items[..|items| - 1], ItemDigests(x, capability, items, now);
    forall i | 0 <= i < |front| ensures front[i] == items[i] {}
    forall e ensures e in all <==> e in ItemDigests(x, capability, front, now) + {Validate(x, capability, items[|front|], now).value.digest} {
      if e in all {
        var i :| 0 <= i < |items| && Validate(x, capability, items[i], now).Some? && Validate(x, capability, items[i], now).value.digest == e;
        if i < |front| {
          assert front[i] == items[i];
        }
      }
      if e in ItemDigests(x, capability, front, now) {
        var i :| 0 <= i < |front| && Validate(x, capability, front[i], now).Some? && Validate(x, capability, front[i], now).value.digest == e;
        assert items[i] == front[i];
      }
    }
  }

  // An item that does not stop the pass changes only its own digest.
  lemma LedgerKeeps(x: Tools, p: Swept, conversations: seq<Text>, d: Delivery, env: ItemEnv)
    requires LawfulTools(x) && Sound(x, p.world) && EnvOk(env) && p.stopped.None? && DeliveryOk(d) && Fits(x, p.world, Some(d))
    ensures var q := SweepItem(x, p, conversations, Some(d), env);
            q.stopped.None? ==>
              forall e :: IsDecrypted(q.world.ledger, e) <==>
                IsDecrypted(p.world.ledger, e) || (e == d.digest && IsDecrypted(q.world.ledger, d.digest))
  {
    hide TryEach, TryDisks, Settled, Live, EnvOk, LawfulTools, LedgerFits, Marked, IsDecrypted, BeforeOrAfter, Delivers, Remembers, Handled;
    if !IsDecrypted(p.world.ledger, d.digest) {
      TryStep(x, p.world, conversations, d, env);
      if TryEach(x, p.world, conversations, d, env).outcome.Committed? {
        MarkedByOne(p.world.ledger, d);
      }
    }
  }

  lemma ItemCounts(x: Tools, p: Swept, conversations: seq<Text>, valid: Option<Delivery>, env: ItemEnv)
    ensures var q := SweepItem(x, p, conversations, valid, env);
            p.stopped.None? ==> q.done == p.done + if q.stopped.None? then 1 else 0
  {
    hide TryEach;
  }

  // Told before the closing write of the ledger: it fits, and the commit's steps work out.
  predicate Closes(x: Tools, w: World, env: CommitEnv) {
    && MutationOk(Put(LEDGER_ID, x.ledger.write(w.ledger)))
    && |w.store.records[LEDGER_ID := x.ledger.write(w.ledger)]| <= MAX_RECORDS && w.store.revision < MAX_U64
    && env.prepared && Succeeds(env)
  }

  // A whole call: it reports a result exactly when no item stops it and the closing write goes through. The
  // ids it hands over for acknowledgement are all durably Decrypted, the reported
  // count is that of the pass, and every disk, those of the closing write included, recovers to a
  // prefix of what was committed unless a commit falls in the window.
  lemma MaintainCall(x: Tools, w: World, conversations: seq<Text>, capability: Text, items: seq<RelayItem>, now: U64,
                     envs: nat -> ItemEnv, last: CommitEnv)
    requires LawfulTools(x) && Sound(x, w) && EnvsOk(envs)
    requires RoomForAll(x, w, conversations, capability, items, now, envs)
    ensures var p := Sweep(x, w, conversations, capability, items, now, envs);
            var m := Maintain(x, w, conversations, capability, items, now, envs, last);
            && Noted(x, w, p.committed, m.world.ledger, m.world.store.records)
            && (forall d :: d in p.acked ==> IsDecrypted(m.world.ledger, d.digest))
            && (m.result.Some? <==>
                  && NeverStops(x, w, conversations, capability, items, now, envs)
                  && Closes(x, p.world, last))
            && (m.result.Some? ==> p.stopped.None? && m.result.value == (|p.committed|, DeliveryIds(p.acked)) && Sound(x, m.world))
            && (p.stopped.None? ==> Live(x, m.world))
            && PassDisks(x, w, p.(world := m.world), MaintainDisks(x, w, conversations, capability, items, now, envs, last),
                         Window(p, envs) || (p.stopped.None? && RollbackWindow(last)))
  {
    hide Sweep, SweepDisks, Live, EnvOk, LawfulTools, Settled, Noted, IsDecrypted, Apply, StepDisks, R.Restorable, RollbackWindow,
         PassDisks, NeverStops, Closes, AckedExactly, RoomForAll;
    SweepFold(x, w, conversations, capability, items, now, envs);
    SweepGetsThrough(x, w, conversations, capability, items, now, envs);
    var p, disks := Sweep(x, w, conversations, capability, items, now, envs), SweepDisks(x, w, conversations, capability, items, now, envs);
    if p.stopped.Some? {
      assert disks + [] == disks && p.(world := p.world) == p;
    } else {
      ClosingWrite(x, w, p, disks, last);
    }
  }

  lemma ClosingWrite(x: Tools, w: World, p: Swept, disks: seq<Disk>, env: CommitEnv)
    requires LawfulTools(x) && SweepState(x, w, p) && Live(x, p.world) && p.stopped.None? && PassDisks(x, w, p, disks, false)
    ensures var op := PutOne(LEDGER_ID, x.ledger.write(p.world.ledger));
            var step, more := Apply(x.vault, p.world.store, op, env), StepDisks(x.vault, p.world.store, op, env);
            var after := p.world.(store := step.state);
            && Live(x, after) && (step.result.Ok? ==> Sound(x, after))
            && (step.result.Ok? <==> Closes(x, p.world, env))
            && Noted(x, w, p.committed, p.world.ledger, step.state.records)
            && PassDisks(x, w, p.(world := after), disks + more, RollbackWindow(env))
  {
    hide Apply, StepDisks, Settled, IsDecrypted, Noted, PassDisks, RollbackWindow, Recovers, Open, Live, LEDGER_ID, Settles;
    var s, op := p.world.store, PutOne(LEDGER_ID, x.ledger.write(p.world.ledger));
    var step, more := Apply(x.vault, s, op, env), StepDisks(x.vault, s, op, env);
    var after := p.world.(store := step.state);
    var written := s.records[LEDGER_ID := x.ledger.write(p.world.ledger)];
    OperationIsAtomic(x.vault, s, Event(op, env));
    OperationSucceeds(x.vault, s, op, env);
    SettledAgrees(x.vault, s);
    OperationCrashSafety(x.vault, s, op, env);
    WrittenAgain(x, w, p);
    if step.result.Ok? {
      SettledIsUnlocked(x.vault, step.state);
    }
    StoreSwapped(x, p.world, step.state);
    var q := p.(world := after);
    assert p.committed + p.pending == p.committed && p.committed[..|p.committed|] == p.committed;
    RecoversOld(x, w, p, written);
    forall i | 0 <= i < |more|
      ensures || Recovers(x, w, p.committed, |p.committed|, more[i])
              || (RollbackWindow(env) && Open(x.vault.aead, x.vault.key, more[i]) == Err(RollbackDetected))
    {
      assert OldOrNew(x.vault, s, written, env, more[i]);
    }
    PassDisksNext(x, w, p, disks, q, more, RollbackWindow(env));
  }

  // Rewriting the ledger record changes nothing that is read from the records.
  lemma WrittenAgain(x: Tools, w: World, p: Swept)
    requires LawfulTools(x) && SweepState(x, w, p)
    ensures var written := p.world.store.records[LEDGER_ID := x.ledger.write(p.world.ledger)];
            && Remembers(x, written, p.world.ledger) && Noted(x, w, p.committed, p.world.ledger, written)
            && forall c :: CheckpointOf(written, c) == CheckpointOf(p.world.store.records, c)
  {
    hide Settled, IsDecrypted, Folded, R.Restorable, CheckpointId, LEDGER_ID, Remembers;
    var written := p.world.store.records[LEDGER_ID := x.ledger.write(p.world.ledger)];
    CheckpointClass();
    RestorableLedger(x, p.world.store.records, p.world.ledger);
    RemembersWritten(x, written, p.world.ledger);
    assert forall c :: CheckpointOf(written, c) == CheckpointOf(p.world.store.records, c);
  }

  lemma StoreSwapped(x: Tools, w: World, s: StoreState)
    requires Live(x, w) && !s.locked
    requires s.records == w.store.records
             || (Remembers(x, s.records, w.ledger) && forall c :: CheckpointOf(s.records, c) == CheckpointOf(w.store.records, c))
    ensures Live(x, w.(store := s))
  {
    hide Remembers, CheckpointOf;
    assert forall c :: c in w.sessions ==> InStep(x, w, c);
  }

  lemma RecoversOld(x: Tools, w: World, p: Swept, written: Records)
    requires Noted(x, w, p.committed, p.world.ledger, p.world.store.records) && Noted(x, w, p.committed, p.world.ledger, written)
    ensures forall disk, revision ::
              (OpensTo(x.vault, disk, View(p.world.store.records, revision)) || OpensTo(x.vault, disk, View(written, revision)))
              ==> Recovers(x, w, p.committed, |p.committed|, disk)
  {
    hide Noted, Open;
    assert p.committed[..|p.committed|] == p.committed;
  }
}
