/**
 How sessions and ledger records come to be in the files: creating a conversation, persisting the
 ledger. With them the inbox theorems are shown to speak of something: a message does get
 committed, and the background pass does leave a session ahead; what follows then is stated too.
 */
module Establishing {
  import opened Prelude
  import opened Text
  import opened RecordCodec
  import opened StoreFile
  import opened StoreProtocol
  import opened EncryptedStores
  import opened Sessions
  import opened DeliveryLedgers
  import opened Inbox
  import Aead
  import Maintenance
  import Codecs
  import E = Envelopes
  import L = Ledger
  import R = LedgerRestore

  datatype Established = Established(world: World, ok: bool)

  // MlsSessionCatalog::create: a new group (none if MLS fails) is persisted first, then listed.
  function Establish(x: Tools, w: World, conversation: Text, group: Option<Group>, env: CommitEnv): Established {
    if !ValidConversation(conversation) || conversation in w.sessions || group.None? then Established(w, false)
    else
      var snapshot := x.mls.snapshot(group.value);
      if snapshot.None? || |snapshot.value| > SNAPSHOT_LIMIT then Established(w, false)
      else
        var step := Apply(x.vault, w.store, PutOne(CheckpointId(conversation), snapshot.value), env);
        if step.result.Err? then Established(w.(store := step.state), false)
        else Established(World(step.state, w.ledger, w.sessions[conversation := Session(group, false)]), true)
  }

  // The same on the live objects.
  method CreateSession(x: Tools, catalog: MlsSessionCatalog, store: EncryptedStore, ghost ledger: L.Ledger,
                       conversation: Text, group: Option<Group>, env: CommitEnv) returns (ok: bool)
    requires catalog.mls == x.mls && store.vault == x.vault
    modifies catalog, store
    ensures Established(World(store.State(), ledger, catalog.sessions), ok)
            == Establish(x, World(old(store.State()), ledger, old(catalog.sessions)), conversation, group, env)
    ensures LawfulTools(x) && Sound(x, World(old(store.State()), ledger, old(catalog.sessions))) ==>
              && Live(x, World(store.State(), ledger, catalog.sessions))
              && (ok ==> Sound(x, World(store.State(), ledger, catalog.sessions)))
  {
    hide Apply, Live, Settled, CheckpointId, StepDisks, ValidConversation;
    ghost var w := World(store.State(), ledger, catalog.sessions);
    if LawfulTools(x) && Sound(x, w) {
      EstablishKeepsAgreement(x, w, conversation, group, env);
    }
    if !ValidConversation(conversation) || conversation in catalog.sessions || group.None? {
      return false;
    }
    var snapshot := x.mls.snapshot(group.value);
    if snapshot.None? || |snapshot.value| > SNAPSHOT_LIMIT {
      return false;
    }
    var done := store.PutRecord(CheckpointId(conversation), snapshot.value, env);
    if done.Err? {
      return false;
    }
    catalog.sessions := catalog.sessions[conversation := Session(group, false)];
    ok := true;
  }

  lemma PutCheckpoint(x: Tools, records: Records, conversation: Text, bytes: Bytes, l: L.Ledger)
    requires Remembers(x, records, l)
    ensures var after := records[CheckpointId(conversation) := bytes];
            && Remembers(x, after, l) && CheckpointOf(after, conversation) == Some(bytes)
            && forall c :: c != conversation ==> CheckpointOf(after, c) == CheckpointOf(records, c)
  {
    hide R.Restore, LEDGER_ID, CheckpointId;
    CheckpointClass();
    forall c | c != conversation ensures CheckpointId(c) != CheckpointId(conversation) {
      CheckpointsApart(c, conversation);
    }
  }

  // Creating a conversation keeps everything in agreement; success leaves a live session whose group
  // is durable, failure leaves sessions, ledger and records as they were.
  lemma EstablishKeepsAgreement(x: Tools, w: World, conversation: Text, group: Option<Group>, env: CommitEnv)
    requires LawfulTools(x) && Sound(x, w)
    ensures var r := Establish(x, w, conversation, group, env);
            && Live(x, r.world) && (r.ok || Settles(env) ==> Sound(x, r.world))
            && r.world.ledger == w.ledger
            && (r.ok ==>
                  && ValidConversation(conversation) && group.Some?
                  && r.world.sessions == w.sessions[conversation := Session(group, false)]
                  && DurableGroup(x, r.world.store.records, conversation) == group)
            && (!r.ok ==> r.world.sessions == w.sessions && r.world.store.records == w.store.records)
  {
    hide Settled, Apply, R.Restore, CheckpointId, LEDGER_ID, ValidConversation, Settles, Remembers, CheckpointOf;
    var r := Establish(x, w, conversation, group, env);
    if ValidConversation(conversation) && conversation !in w.sessions && group.Some? && x.mls.snapshot(group.value).Some?
       && |x.mls.snapshot(group.value).value| <= SNAPSHOT_LIMIT {
      var bytes := x.mls.snapshot(group.value).value;
      OperationIsAtomic(x.vault, w.store, Event(PutOne(CheckpointId(conversation), bytes), env));
      PutCheckpoint(x, w.store.records, conversation, bytes, w.ledger);
      assert forall c :: c in w.sessions ==> InStep(x, w, c);
      if r.ok {
        SettledIsUnlocked(x.vault, r.world.store);
      }
    }
  }

  // When a conversation is created, told before the call: a valid new id, a group whose snapshot fits, room
  // and a revision left, and a commit whose steps work out. However its put ends, the store is what it leaves.
  lemma EstablishesExactly(x: Tools, w: World, conversation: Text, group: Option<Group>, env: CommitEnv)
    requires Settled(x.vault, w.store)
    ensures Establish(x, w, conversation, group, env).ok <==>
              && ValidConversation(conversation) && conversation !in w.sessions && group.Some?
              && var snapshot := x.mls.snapshot(group.value);
              && snapshot.Some? && |snapshot.value| <= 4194304
              && |w.store.records[CheckpointId(conversation) := snapshot.value]| <= MAX_RECORDS && w.store.revision < MAX_U64
              && env.prepared && Succeeds(env)
    ensures var r := Establish(x, w, conversation, group, env);
            ValidConversation(conversation) && conversation !in w.sessions && group.Some?
            && x.mls.snapshot(group.value).Some? && |x.mls.snapshot(group.value).value| <= SNAPSHOT_LIMIT ==>
              r.world.store == Apply(x.vault, w.store, PutOne(CheckpointId(conversation), x.mls.snapshot(group.value).value), env).state
  {
    hide Settled, Apply, CheckpointId, ValidConversation, ValidKey, Succeeds;
    if ValidConversation(conversation) && conversation !in w.sessions && group.Some? && x.mls.snapshot(group.value).Some? {
      KeysOk(conversation);
      OperationSucceeds(x.vault, w.store, PutOne(CheckpointId(conversation), x.mls.snapshot(group.value).value), env);
    }
  }

  // Any restorable ledger, once persisted, is the one a restart would read: memory and files agree on it.
  lemma PersistKeepsAgreement(x: Tools, w: World, l: L.Ledger, env: CommitEnv)
    requires LawfulTools(x) && Sound(x, w) && R.Restorable(l)
    ensures var step := Apply(x.vault, w.store, PutOne(LEDGER_ID, x.ledger.write(l)), env);
            step.result.Ok? ==> Sound(x, World(step.state, l, w.sessions))
  {
    hide Settled, Apply, R.Restorable, CheckpointId, LEDGER_ID, Settles;
    var step := Apply(x.vault, w.store, PutOne(LEDGER_ID, x.ledger.write(l)), env);
    OperationIsAtomic(x.vault, w.store, Event(PutOne(LEDGER_ID, x.ledger.write(l)), env));
    if step.result.Ok? {
      SettledIsUnlocked(x.vault, step.state);
      CheckpointClass();
      RemembersWritten(x, step.state.records, l);
      assert forall c :: CheckpointOf(step.state.records, c) == CheckpointOf(w.store.records, c);
      assert forall c :: c in w.sessions ==> InStep(x, w, c);
    }
  }

  // ---- what a session left ahead leads to ----

  // The message that left the session ahead is never recorded, yet the next one committed to that
  // session makes a checkpoint durable that lies beyond both: the fold no longer matches the ledger.
  lemma AheadThenCommitted(x: Tools, w: World, conversation: Text, d: Delivery, env: ItemEnv, next: Delivery, nextEnv: ItemEnv)
    requires LawfulTools(x) && Sound(x, w) && EnvOk(env) && EnvOk(nextEnv) && DeliveryOk(d) && DeliveryOk(next)
    requires Marked(w.ledger, d).Some? ==> LedgerFits(x, Marked(w.ledger, d).value)
    requires Marked(w.ledger, next).Some? ==> LedgerFits(x, Marked(w.ledger, next).value)
    ensures var first := Deliver(x, w, conversation, d, env, false);
            var second := Deliver(x, first.world, conversation, next, nextEnv, false);
            first.outcome.Stopped? && Unpoisoned(first.outcome.site) && second.outcome.Committed? ==>
              && DurableGroup(x, second.world.store.records, conversation)
                 == Folded(x.mls, DurableGroup(x, w.store.records, conversation), [d, next])
              && Some(second.world.ledger) == Marked(w.ledger, next)
              && (d.digest != next.digest ==>
                    (IsDecrypted(second.world.ledger, d.digest) <==> IsDecrypted(w.ledger, d.digest)))
  {
    hide Settled, Live, Deliver, Marked, LedgerFits, DeliverDisks, BeforeOrAfter, IsDecrypted, Handled, Remembers, Settles;
    var first := Deliver(x, w, conversation, d, env, false);
    var second := Deliver(x, first.world, conversation, next, nextEnv, false);
    DeliverStep(x, w, conversation, d, env, false);
    if first.outcome.Stopped? && Unpoisoned(first.outcome.site) && second.outcome.Committed? {
      AheadShape(x, w, conversation, d, env);
      CommittedFrom(x, first.world, conversation, next, nextEnv);
      FoldOfTwo(x.mls, DurableGroup(x, w.store.records, conversation), d, next);
      MarkedByOne(w.ledger, next);
    }
  }

  lemma AheadShape(x: Tools, w: World, conversation: Text, d: Delivery, env: ItemEnv)
    requires Sound(x, w)
    ensures var r := Deliver(x, w, conversation, d, env, false);
            r.outcome.Stopped? && Unpoisoned(r.outcome.site) ==>
              && r.world.store == w.store && r.world.ledger == w.ledger && conversation in r.world.sessions
              && r.world.sessions[conversation].group == Next(x.mls, DurableGroup(x, w.store.records, conversation), d.ciphertext)
  {
    hide Settled, Apply, Marked, BatchFor, R.Restore, ValidConversation, Remembers, CheckpointOf, Checkpoint;
    assert InStep(x, w, conversation);
  }

  // What a commit makes durable is the session's own next group, whatever was durable before.
  lemma CommittedFrom(x: Tools, w: World, conversation: Text, d: Delivery, env: ItemEnv)
    requires LawfulTools(x) && Settled(x.vault, w.store) && EnvOk(env) && conversation in w.sessions
    requires Marked(w.ledger, d).Some? ==> LedgerFits(x, Marked(w.ledger, d).value)
    ensures var r := Deliver(x, w, conversation, d, env, false);
            r.outcome.Committed? ==>
              && Some(r.world.ledger) == Marked(w.ledger, d)
              && DurableGroup(x, r.world.store.records, conversation) == Next(x.mls, w.sessions[conversation].group, d.ciphertext)
  {
    hide Settled, Apply, Marked, BatchFor, ApplyAll, R.Restore, LedgerFits, CheckpointId, LEDGER_ID, Settles, BatchOk, ValidConversation;
    var r := Deliver(x, w, conversation, d, env, false);
    if r.outcome.Committed? {
      var received := Received(x.mls, w.sessions, conversation, d.ciphertext);
      var checkpoint := Checkpoint(x.mls, received.value.0, conversation).value;
      var staged := if received.value.1.None? then [] else env.staged.value;
      NoneIsOk();
      BatchEffect(x, w.store.records, conversation, checkpoint, staged, Marked(w.ledger, d).value);
      var ms := BatchFor(x, conversation, checkpoint, staged, Marked(w.ledger, d).value);
      OperationIsAtomic(x.vault, w.store, Event(Batch(ms), env.commit));
    }
  }

  lemma FoldOfTwo(m: Mls, g: Option<Group>, d: Delivery, next: Delivery)
    ensures Folded(m, g, [d, next]) == Next(m, Next(m, g, d.ciphertext), next.ciphertext)
  {
    assert [d, next][..1] == [d] && [d][..0] == [];
    assert Folded(m, g, [d]) == Next(m, Folded(m, g, []), d.ciphertext);
  }

  // ---- both things happen ----

  function GoodCommit(nonce: Aead.Nonce): CommitEnv { CommitEnv(true, nonce, Done, Done, Done, Done) }

  // The first conversation of a fresh store.
  lemma FirstSession(x: Tools, conversation: Text, g: Group, nonce: Aead.Nonce)
    requires LawfulTools(x) && ValidConversation(conversation)
    requires x.mls.snapshot(g).Some? && |x.mls.snapshot(g).value| <= SNAPSHOT_LIMIT
    ensures Encode(map[]).Ok?
    ensures var r := Establish(x, World(Initialized(x.vault, nonce), map[], map[]), conversation, Some(g), GoodCommit(nonce));
            && r.ok && Sound(x, r.world) && r.world.ledger == map[] && r.world.sessions == map[conversation := Session(Some(g), false)]
            && |r.world.store.records| == 1 && r.world.store.revision == 1
  {
    hide Settled, SealRecords, Live, ValidConversation, ValidKey, Encode;
    FreshIsSound(x, nonce);
    var w := World(Initialized(x.vault, nonce), map[], map[]);
    var op := PutOne(CheckpointId(conversation), x.mls.snapshot(g).value);
    KeysOk(conversation);
    OperationSucceeds(x.vault, w.store, op, GoodCommit(nonce));
    EstablishKeepsAgreement(x, w, conversation, Some(g), GoodCommit(nonce));
    OperationIsAtomic(x.vault, w.store, Event(op, GoodCommit(nonce)));
    PutReportsTrue(x.vault, w.store, op, GoodCommit(nonce));
  }

  lemma PutReportsTrue(v: Vault, s: StoreState, op: Operation, env: CommitEnv)
    requires op.PutOne?
    ensures Apply(v, s, op, env).result.Ok? ==> Apply(v, s, op, env).result.value
  {
    hide Attempt;
  }

  // A group that counts, standing for one that ratchets.
  function CountingMls(): Mls {
    Mls((g, c) => Some((g + [0], Some(c))), g => Some(g), b => Some(b))
  }

  lemma CountingMlsIsLawful()
    ensures Sessions.Lawful(CountingMls())
  {
    assert forall g: Group :: g + [0] != g;
  }

  function Digits(b: Byte): Text { seq(64, i => b) }

  const ALICE: Text := Ascii("alice")

  // Tools that meet every law, with two ledgers that are sure to be small.
  lemma ToolsExist(small: L.Ledger, other: L.Ledger) returns (x: Tools)
    ensures LawfulTools(x) && x.mls == CountingMls() && x.ledger.write(small) == [] && |x.ledger.write(other)| <= 1
  {
    CountingMlsIsLawful();
    var aead := Aead.LawfulAeadExists();
    var j := Codecs.LawfulJsonExists(small, other);
    var salt: Salt := seq(SALT_BYTES, i => 0);
    x := Tools(CountingMls(), E.Json(w => [], t => None), j, b => seq(32, i => 0), Vault(aead, [], salt));
  }

  lemma {:induction false} BatchSize(records: Records, ms: seq<Mutation>)
    ensures |ApplyAll(records, ms)| <= |records| + |ms|
  {
    if ms != [] {
      BatchSize(records, ms[..|ms| - 1]);
      var front, m := ApplyAll(records, ms[..|ms| - 1]), ms[|ms| - 1];
      match m {
        case Put(id, value) => assert front[id := value].Keys == front.Keys + {id};
        case Delete(id) => assert (front - {id}).Keys == front.Keys - {id};
      }
    }
  }

  // A fresh store, one new conversation, one message: it is committed.
  lemma ReceivingHappens() returns (x: Tools, w: World, d: Delivery, env: ItemEnv)
    ensures LawfulTools(x) && Sound(x, w) && EnvOk(env) && DeliveryOk(d)
    ensures Marked(w.ledger, d).Some? && LedgerFits(x, Marked(w.ledger, d).value)
    ensures Deliver(x, w, ALICE, d, env, true).outcome == Committed
  {
    hide Settled, Live, Apply, Encode, SealRecords, EnvOk, Deliver;
    var nonce: Aead.Nonce := seq(Aead.NONCE_BYTES, i => 0);
    d := Delivery(Digits(48), Digits(49), [7]);
    MarkedValue(map[], d);
    var marked := Marked(map[], d).value;
    x := ToolsExist(marked, marked);
    AliceIsValid();
    FirstSession(x, ALICE, [], nonce);
    w := Establish(x, World(Initialized(x.vault, nonce), map[], map[]), ALICE, Some([]), GoodCommit(nonce)).world;
    env := ItemEnv(GoodCommit(nonce), Some([]));
    EmptyStaging(env);
    AliceCommits(x, w, [], d, env, true);
  }

  // A message to a session that has received at most one, in a store with room.
  lemma AliceCommits(x: Tools, w: World, g: Group, d: Delivery, env: ItemEnv, strict: bool)
    requires LawfulTools(x) && x.mls == CountingMls() && Settled(x.vault, w.store) && EnvOk(env) && DeliveryOk(d)
    requires ALICE in w.sessions && w.sessions[ALICE] == Session(Some(g), false) && |g| < 2 && d.ciphertext == [7]
    requires Marked(w.ledger, d).Some? && LedgerFits(x, Marked(w.ledger, d).value)
    requires |w.store.records| <= 2 && w.store.revision <= 2 && env.commit.prepared && Succeeds(env.commit) && env.staged == Some([])
    ensures Deliver(x, w, ALICE, d, env, strict).outcome == Committed
  {
    hide Settled, EnvOk, Received, Checkpoint, Marked, ApplyAll, BatchFor, Deliver, LedgerFits, LawfulTools, Succeeds;
    AliceReceives(w.sessions, g, d);
    var marked := Marked(w.ledger, d).value;
    CommitsExactly(x, w, ALICE, d, env, strict);
    BatchSize(w.store.records, BatchFor(x, ALICE, g + [0], [], marked));
    BatchIsTwo(x, ALICE, g + [0], marked);
  }

  lemma AliceIsValid()
    ensures ValidConversation(ALICE)
  {
    assert ALICE == [97, 108, 105, 99, 101];
  }

  lemma AliceReceives(catalog: Catalog, g: Group, d: Delivery)
    requires ALICE in catalog && catalog[ALICE] == Session(Some(g), false) && |g| < 2 && d.ciphertext == [7]
    ensures var received := Received(CountingMls(), catalog, ALICE, d.ciphertext);
            && received.Some? && received.value.1 == Some([7])
            && Checkpoint(CountingMls(), received.value.0, ALICE) == Some(g + [0])
  {
    hide ValidConversation;
    AliceIsValid();
  }

  lemma EmptyStaging(env: ItemEnv)
    requires env.staged == Some([])
    ensures EnvOk(env)
  {}

  lemma BatchIsTwo(x: Tools, conversation: Text, checkpoint: Bytes, l: L.Ledger)
    ensures |BatchFor(x, conversation, checkpoint, [], l)| == 2
  {}

  // The same, but the digest is already queued here as an own message: the background pass leaves the
  // session ahead of its checkpoint and unpoisoned. The next message is committed on top of it: the
  // ledger newly marks that one alone, and the durable group is no longer the fold over what it marks.
  lemma FallingBehindHappens() returns (x: Tools, w: World, d: Delivery, next: Delivery, env: ItemEnv)
    ensures LawfulTools(x) && Sound(x, w) && EnvOk(env) && DeliveryOk(d) && DeliveryOk(next) && Maintenance.Fits(x, w, Some(d))
    ensures var after := Deliver(x, w, ALICE, d, env, false).world;
            && !Live(x, after) && after.store == w.store
            && ALICE in after.sessions && !after.sessions[ALICE].poisoned
    ensures var after := Deliver(x, w, ALICE, d, env, false).world;
            var second := Deliver(x, after, ALICE, next, env, false);
            && second.outcome == Committed && MarkedBy(w.ledger, second.world.ledger, {next.digest})
            && DurableGroup(x, second.world.store.records, ALICE)
               != Folded(x.mls, DurableGroup(x, w.store.records, ALICE), [next])
  {
    hide Settled, Live, Apply, Encode, SealRecords, ApplyAll, EnvOk, Received, Checkpoint, R.Restorable, DurableGroup, Folded,
         MarkedBy, Deliver, BatchFor;
    var nonce: Aead.Nonce := seq(Aead.NONCE_BYTES, i => 0);
    d, next := Delivery(Digits(48), Digits(49), [7]), Delivery(Digits(50), Digits(51), [7]);
    assert Digits(49)[0] != Digits(51)[0];
    var queued := map[d.digest := L.DeliveryRecord(d.digest, L.Queued, 0, None, None, Some([1]), None, Some([1]))];
    MarkedValue(queued, d);
    MarkedValue(queued, next);
    var marked := Marked(queued, next).value;
    x := ToolsExist(queued, marked);
    AliceIsValid();
    FirstSession(x, ALICE, [], nonce);
    var first := Establish(x, World(Initialized(x.vault, nonce), map[], map[]), ALICE, Some([]), GoodCommit(nonce)).world;
    w := Persisted(x, first, queued, nonce);
    env := ItemEnv(GoodCommit(nonce), Some([]));
    EmptyStaging(env);
    Maintenance.LeftAhead(x, w, ALICE, d, env);
    AliceReceives(w.sessions, [], d);
    RefusedShape(x, w, d, env);
    CommitsOnTop(x, w, d, next, env);
  }

  lemma CommitsOnTop(x: Tools, w: World, d: Delivery, next: Delivery, env: ItemEnv)
    requires LawfulTools(x) && Sound(x, w) && x.mls == CountingMls() && EnvOk(env) && DeliveryOk(d) && DeliveryOk(next)
    requires w.sessions == map[ALICE := Session(Some([]), false)] && d.ciphertext == next.ciphertext == [7]
    requires Marked(w.ledger, d).None? && Marked(w.ledger, next).Some? && LedgerFits(x, Marked(w.ledger, next).value)
    requires |w.store.records| <= 2 && w.store.revision <= 2 && env.commit.prepared && Succeeds(env.commit) && env.staged == Some([])
    ensures var after := Deliver(x, w, ALICE, d, env, false).world;
            var second := Deliver(x, after, ALICE, next, env, false);
            && second.outcome == Committed && MarkedBy(w.ledger, second.world.ledger, {next.digest})
            && DurableGroup(x, second.world.store.records, ALICE)
               != Folded(x.mls, DurableGroup(x, w.store.records, ALICE), [next])
  {
    hide Settled, Live, EnvOk, Marked, LedgerFits, LawfulTools, DurableGroup, Folded, MarkedBy, Deliver, IsDecrypted, Succeeds;
    RefusedShape(x, w, d, env);
    AheadShape(x, w, ALICE, d, env);
    StartsEmpty(x, w);
    var after := Deliver(x, w, ALICE, d, env, false).world;
    var none: Group := [];
    assert after.sessions[ALICE] == Session(Some(none + [0]), false);
    AliceCommits(x, after, none + [0], next, env, false);
    AheadThenCommitted(x, w, ALICE, d, env, next, env);
    MarkedByOne(w.ledger, next);
    OneIsNotTwo(d, next);
  }

  lemma StartsEmpty(x: Tools, w: World)
    requires Sound(x, w) && w.sessions == map[ALICE := Session(Some([]), false)]
    ensures DurableGroup(x, w.store.records, ALICE) == Some([])
  {
    hide Settled, Remembers, CheckpointOf;
    assert InStep(x, w, ALICE);
  }

  lemma OneIsNotTwo(d: Delivery, next: Delivery)
    ensures Folded(CountingMls(), Some([]), [d, next]) != Folded(CountingMls(), Some([]), [next])
  {
    hide Folded;
    FoldOfTwo(CountingMls(), Some([]), d, next);
    FoldOfOne(CountingMls(), Some([]), next);
    var none: Group := [];
    assert |(none + [0]) + [0]| == 2;
  }

  lemma FoldOfOne(m: Mls, g: Option<Group>, d: Delivery)
    ensures Folded(m, g, [d]) == Next(m, g, d.ciphertext)
  {
    assert [d][..0] == [];
  }

  lemma Persisted(x: Tools, w: World, l: L.Ledger, nonce: Aead.Nonce) returns (after: World)
    requires LawfulTools(x) && Sound(x, w) && x.ledger.write(l) == []
    requires |w.store.records| < MAX_RECORDS && w.store.revision < MAX_U64
    requires |l| <= MAX_RECORDS && forall d :: d in l ==> R.ValidPersisted(d, l[d])
    ensures Sound(x, after) && after.ledger == l && after.sessions == w.sessions
    ensures |after.store.records| <= |w.store.records| + 1 && after.store.revision == w.store.revision + 1
  {
    hide Settled, Live, Apply, ValidKey, R.ValidPersisted;
    AliceIsValid();
    KeysOk(ALICE);
    var op := PutOne(LEDGER_ID, x.ledger.write(l));
    assert w.store.records[LEDGER_ID := []].Keys == w.store.records.Keys + {LEDGER_ID};
    OperationSucceeds(x.vault, w.store, op, GoodCommit(nonce));
    PersistKeepsAgreement(x, w, l, GoodCommit(nonce));
    OperationIsAtomic(x.vault, w.store, Event(op, GoodCommit(nonce)));
    PutReportsTrue(x.vault, w.store, op, GoodCommit(nonce));
    after := World(Apply(x.vault, w.store, op, GoodCommit(nonce)).state, l, w.sessions);
  }

  lemma RefusedShape(x: Tools, w: World, d: Delivery, env: ItemEnv)
    requires x.mls == CountingMls() && w.sessions == map[ALICE := Session(Some([]), false)] && d.ciphertext == [7]
    requires Marked(w.ledger, d).None? && env.staged.Some?
    ensures var after := Deliver(x, w, ALICE, d, env, false).world;
            && Deliver(x, w, ALICE, d, env, false).outcome == Stopped(LedgerRefused)
            && after.store == w.store && ALICE in after.sessions && !after.sessions[ALICE].poisoned
  {
    hide Marked, ValidConversation, Apply;
    AliceReceives(w.sessions, [], d);
    AliceIsValid();
  }
}
