/**
 Processing fetched relay items: validate, skip what is already handled, receive in memory,
 commit checkpoint, message records and ledger as one batch, and only then acknowledge.
 `process_sync_items` serves one conversation; `process_inbox_items` tries every one.
 */
module Inbox {
  import opened Prelude
  import opened Text
  import opened RecordCodec
  import opened StoreFile
  import opened StoreProtocol
  import opened Sessions
  import opened DeliveryLedgers
  import L = Ledger
  import R = LedgerRestore
  import E = Envelopes
  import Aead

  datatype Tools = Tools(mls: Mls, envelopes: E.Json, ledger: R.Json, sha: Bytes -> Bytes, vault: Vault)

  ghost predicate LawfulTools(x: Tools) {
    && Sessions.Lawful(x.mls) && R.LawfulJson(x.ledger) && Aead.Lawful(x.vault.aead)
    && (forall b :: |x.sha(b)| == 32)
  }

  // ---- validating items ----

  datatype RelayItem = RelayItem(id: Text, envelope: Text)

  datatype Delivery = Delivery(id: Text, digest: Text, ciphertext: Bytes)

  const ENVELOPE_PREFIX: Bytes := Ascii("ADENV1.")

  function Validate(x: Tools, capability: Text, item: RelayItem, now: U64): Option<Delivery> {
    if !(ENVELOPE_PREFIX <= item.envelope) then None
    else
      match E.FromWire(x.envelopes, item.envelope[|ENVELOPE_PREFIX|..], now)
      case Err(_) => None
      case Ok(e) =>
        if e.mailbox != capability || Hex(x.sha(item.envelope)) != item.id then None
        else
          match E.Digest(x.envelopes, x.sha, e)
          case Err(_) => None
          case Ok(digest) => Some(Delivery(item.id, digest, e.ciphertext))
  }

  // What an accepted item is: the hash-named text of a well-formed, in-date envelope for this mailbox.
  lemma AcceptedItem(x: Tools, capability: Text, item: RelayItem, now: U64)
    ensures Validate(x, capability, item, now).Some? ==>
              var d := Validate(x, capability, item, now).value;
              && ENVELOPE_PREFIX <= item.envelope && item.id == Hex(x.sha(item.envelope)) && d.id == item.id
              && exists e :: E.WellFormed(e) && E.InDate(e.expiresAt, now) && e.mailbox == capability
                             && E.FromWire(x.envelopes, item.envelope[|ENVELOPE_PREFIX|..], now) == Ok(e)
                             && d == Delivery(item.id, Hex(x.sha(x.envelopes.write(E.WireOf(e)))), e.ciphertext)
  {
    hide E.FromWire, Hex, E.InDate, E.WireOf;
    if Validate(x, capability, item, now).Some? {
      var wire := item.envelope[|ENVELOPE_PREFIX|..];
      E.FromWireWellFormed(x.envelopes, wire, now);
      E.ToWireOf(x.envelopes, E.FromWire(x.envelopes, wire, now).value);
    }
  }

  // What a sender posts is accepted by its recipient exactly while in date, under the digest the
  // sender registered it by.
  lemma SentItemArrives(x: Tools, e: E.Envelope, now: U64)
    requires E.LawfulJson(x.envelopes) && E.WellFormed(e)
    ensures E.ToWire(x.envelopes, e).Ok? && E.Digest(x.envelopes, x.sha, e).Ok?
    ensures var text := ENVELOPE_PREFIX + E.ToWire(x.envelopes, e).value;
            var item := RelayItem(Hex(x.sha(text)), text);
            Validate(x, e.mailbox, item, now)
            == if E.InDate(e.expiresAt, now) then Some(Delivery(item.id, E.Digest(x.envelopes, x.sha, e).value, e.ciphertext))
               else None
  {
    hide E.FromWire, Hex, E.InDate, E.WellFormed, E.LawfulJson;
    E.WireRoundTrip(x.envelopes, e, now);
    var wire := E.ToWire(x.envelopes, e).value;
    assert (ENVELOPE_PREFIX + wire)[|ENVELOPE_PREFIX|..] == wire;
  }

  // From sender to recipient: what is created for a mailbox, once posted, is accepted at that mailbox
  // exactly while in date, and carries the ciphertext it was created with.
  lemma CreatedArrives(x: Tools, mailbox: Text, ciphertext: Bytes, expiresAt: U64, created: U64, padding: Bytes, id: Bytes, now: U64)
    requires E.LawfulJson(x.envelopes)
    requires |padding| == E.PaddingFor(|ciphertext|) && |id| == 16
    requires E.CoarseExpiry(expiresAt) <= MAX_U64
    ensures var r := E.Create(mailbox, ciphertext, expiresAt, created, padding, id);
            r.Ok? ==>
              && E.ToWire(x.envelopes, r.value).Ok? && E.Digest(x.envelopes, x.sha, r.value).Ok?
              && var text := ENVELOPE_PREFIX + E.ToWire(x.envelopes, r.value).value;
              var item := RelayItem(Hex(x.sha(text)), text);
              Validate(x, mailbox, item, now)
              == if now < E.CoarseExpiry(expiresAt) <= SaturatingAdd(now, E.MAX_TTL)
                 then Some(Delivery(item.id, E.Digest(x.envelopes, x.sha, r.value).value, ciphertext)) else None
  {
    hide E.ToWire, E.Digest, Validate, Hex, E.WellFormed, E.LawfulJson, E.ValidMailbox;
    var r := E.Create(mailbox, ciphertext, expiresAt, created, padding, id);
    E.CreatedShape(mailbox, ciphertext, expiresAt, created, padding, id);
    if r.Ok? {
      SentItemArrives(x, r.value, now);
    }
  }

  function ValidateAll(x: Tools, capability: Text, items: seq<RelayItem>, now: U64): Option<seq<Delivery>> {
    if items == [] then Some([])
    else
      var front := ValidateAll(x, capability, items[..|items| - 1], now);
      var last := Validate(x, capability, items[|items| - 1], now);
      if front.Some? && last.Some? then Some(front.value + [last.value]) else None
  }

  // ---- delivering one message to one conversation ----

  datatype World = World(store: StoreState, ledger: L.Ledger, sessions: Catalog)

  // What a delivery meets: its commit, and the records staged for a plaintext (none if staging fails).
  datatype ItemEnv = ItemEnv(commit: CommitEnv, staged: Option<seq<Mutation>>)

  datatype Site = Malformed | NotReceived | NoCheckpoint | NotStaged | LedgerRefused | NotCommitted

  datatype Outcome = Committed | Stopped(site: Site)

  datatype Delivered = Delivered(world: World, outcome: Outcome)

  // register_recipient_received, then mark_decrypted.
  function Marked(l: L.Ledger, d: Delivery): Option<L.Ledger> {
    var registered := L.Apply(l, L.RegisterReceived(d.digest, d.id));
    var decrypted := L.Apply(registered.ledger, L.OnRecord(d.digest, L.MarkDecrypted));
    if registered.result.Ok? && decrypted.result.Ok? then Some(decrypted.ledger) else None
  }

  function BatchFor(x: Tools, conversation: Text, checkpoint: Bytes, staged: seq<Mutation>, l: L.Ledger): seq<Mutation> {
    [Put(CheckpointId(conversation), checkpoint)] + staged + [Put(LEDGER_ID, x.ledger.write(l))]
  }

  function StoredLedger(s: StoreState): Option<Bytes> {
    if !s.locked && LEDGER_ID in s.records then Some(s.records[LEDGER_ID]) else None
  }

  // `strict` is process_sync_items, which poisons the session on every failure after receive;
  // process_inbox_items poisons it only when the commit fails.
  function Deliver(x: Tools, w: World, conversation: Text, d: Delivery, env: ItemEnv, strict: bool): Delivered {
    match Received(x.mls, w.sessions, conversation, d.ciphertext)
    case None => Delivered(w, Stopped(NotReceived))
    case Some((sessions, plaintext)) =>
      var abandoned := w.(sessions := if strict then Poisoned(sessions, conversation) else sessions);
      var checkpoint := Checkpoint(x.mls, sessions, conversation);
      var staged := if plaintext.None? then Some([]) else env.staged;
      var marked := Marked(w.ledger, d);
      if checkpoint.None? then Delivered(abandoned, Stopped(NoCheckpoint))
      else if staged.None? then Delivered(abandoned, Stopped(NotStaged))
      else if marked.None? then Delivered(abandoned, Stopped(LedgerRefused))
      else
        var ms := BatchFor(x, conversation, checkpoint.value, staged.value, marked.value);
        var step := Apply(x.vault, w.store, Batch(ms), env.commit);
        if step.result.Ok? then Delivered(World(step.state, marked.value, sessions), Committed)
        else
          var restored := R.Restore(x.ledger, StoredLedger(step.state));
          var ledger := if restored.Ok? then restored.value else marked.value;
          Delivered(World(step.state, ledger, Poisoned(sessions, conversation)), Stopped(NotCommitted))
  }

  // ---- agreement of memory and disk ----

  function CheckpointOf(records: Records, conversation: Text): Option<Bytes> {
    if CheckpointId(conversation) in records then Some(records[CheckpointId(conversation)]) else None
  }

  function DurableGroup(x: Tools, records: Records, conversation: Text): Option<Group> {
    var checkpoint := CheckpointOf(records, conversation);
    if checkpoint.Some? then x.mls.load(checkpoint.value) else None
  }

  // The ledger a restart would read from these records.
  ghost predicate Remembers(x: Tools, records: Records, l: L.Ledger) {
    R.Restore(x.ledger, if LEDGER_ID in records then Some(records[LEDGER_ID]) else None) == Ok(l)
  }

  // A session is poisoned or holds what its checkpoint holds.
  predicate InStep(x: Tools, w: World, conversation: Text) {
    conversation in w.sessions ==>
      var s := w.sessions[conversation];
      s.poisoned || s.group == DurableGroup(x, w.store.records, conversation)
  }

  // Ledger, sessions and the records in memory agree.
  ghost predicate Live(x: Tools, w: World) {
    && !w.store.locked && Remembers(x, w.store.records, w.ledger)
    && forall c :: c in w.sessions ==> InStep(x, w, c)
  }

  // And so do the files.
  ghost predicate Sound(x: Tools, w: World) {
    Settled(x.vault, w.store) && Live(x, w)
  }

  // A fresh store, an empty ledger and no sessions agree: runs have a place to start.
  lemma FreshIsSound(x: Tools, nonce: Aead.Nonce)
    requires LawfulTools(x)
    ensures Encode(map[]).Ok? && Sound(x, World(Initialized(x.vault, nonce), map[], map[]))
  {
    hide Settled, Encode, SealRecords;
    InitializedSettled(x.vault, nonce);
  }

  // Staged records belong to messages, contacts and attachments, and fit the store.
  predicate EnvOk(env: ItemEnv) {
    env.staged.Some? ==>
      && BatchOk(env.staged.value)
      && forall i :: 0 <= i < |env.staged.value| ==> env.staged.value[i].id.cls in {Message, Contact, Attachment}
  }

  predicate DeliveryOk(d: Delivery) { |d.id| == 64 && |d.digest| == 64 }

  predicate LedgerFits(x: Tools, l: L.Ledger) {
    |l| <= MAX_RECORDS && |x.ledger.write(l)| <= MAX_VALUE_BYTES
  }

  predicate Handled(l: L.Ledger, digest: Text) {
    digest in l && l[digest].state in {L.RecipientReceived, L.Decrypted}
  }

  predicate IsDecrypted(l: L.Ledger, digest: Text) {
    digest in l && l[digest].state == L.Decrypted
  }

  // Marking turns exactly this digest Decrypted and keeps the ledger restorable.
  lemma MarkedLedger(l: L.Ledger, d: Delivery)
    requires DeliveryOk(d)
    ensures Marked(l, d).Some? <==> d.digest !in l || Handled(l, d.digest)
    ensures Marked(l, d).Some? ==>
              var m := Marked(l, d).value;
              && IsDecrypted(m, d.digest)
              && (forall e :: e != d.digest ==> (e in m <==> e in l) && (e in l ==> m[e] == l[e]))
              && (R.Restorable(l) && |m| <= MAX_RECORDS ==> R.Restorable(m))
  {
    hide R.ValidPersisted;
    MarkedValue(l, d);
    if Marked(l, d).Some? && R.Restorable(l) {
      var m := Marked(l, d).value;
      assert forall e :: e in m && e != d.digest ==> R.ValidPersisted(e, m[e]);
      MarkedPersists(l, d);
    }
  }

  lemma MarkedValue(l: L.Ledger, d: Delivery)
    requires DeliveryOk(d)
    ensures var found := if d.digest in l then l[d.digest] else L.NewRecord(L.RegisterReceived(d.digest, d.id));
            Marked(l, d) == if d.digest !in l || Handled(l, d.digest) then Some(l[d.digest := found.(state := L.Decrypted)]) else None
  {
    if d.digest !in l {
      var made := L.NewRecord(L.RegisterReceived(d.digest, d.id));
      assert l[d.digest := made][d.digest := made.(state := L.Decrypted)] == l[d.digest := made.(state := L.Decrypted)];
    } else if l[d.digest].state == L.Decrypted {
      assert l[d.digest].(state := L.Decrypted) == l[d.digest];
    }
  }

  lemma MarkedPersists(l: L.Ledger, d: Delivery)
    requires DeliveryOk(d) && (d.digest !in l || Handled(l, d.digest))
    requires d.digest in l ==> R.ValidPersisted(d.digest, l[d.digest])
    ensures var found := if d.digest in l then l[d.digest] else L.NewRecord(L.RegisterReceived(d.digest, d.id));
            R.ValidPersisted(d.digest, found.(state := L.Decrypted))
  {}

  lemma KeysOk(conversation: Text)
    requires ValidConversation(conversation)
    ensures ValidKey(CheckpointId(conversation).key) && ValidKey(LEDGER_ID.key)
  {
    hide ValidKey, Ascii;
    PrefixesPlain();
    assert PlainText(conversation);
    hide PlainText, ValidConversation;
    PlainTextConcat(SESSION_PREFIX, conversation);
    PlainKeyOk(SESSION_PREFIX + conversation);
    PlainKeyOk(LEDGER_ID.key);
    assert |conversation| <= 128;
  }

  lemma PrefixesPlain()
    ensures |SESSION_PREFIX| == 12 && PlainText(SESSION_PREFIX)
    ensures |LEDGER_ID.key| == 15 && PlainText(LEDGER_ID.key)
  {
    AsciiIsPlain("mls/session/");
    AsciiIsPlain("delivery/ledger");
  }

  lemma CheckpointsApart(a: Text, b: Text)
    ensures CheckpointId(a) == CheckpointId(b) ==> a == b
  {
    if CheckpointId(a) == CheckpointId(b) {
      assert (SESSION_PREFIX + a)[|SESSION_PREFIX|..] == a && (SESSION_PREFIX + b)[|SESSION_PREFIX|..] == b;
    }
  }

  // The batch is within the store's limits, and changes this checkpoint, the ledger and no other checkpoint.
  lemma BatchEffect(x: Tools, records: Records, conversation: Text, checkpoint: Bytes, staged: seq<Mutation>, l: L.Ledger)
    requires ValidConversation(conversation) && |checkpoint| <= SNAPSHOT_LIMIT && LedgerFits(x, l)
    requires BatchOk(staged)
    requires forall i :: 0 <= i < |staged| ==> staged[i].id.cls in {Message, Contact, Attachment}
    ensures var ms := BatchFor(x, conversation, checkpoint, staged, l);
            var after := ApplyAll(records, ms);
            && BatchOk(ms)
            && LEDGER_ID in after && after[LEDGER_ID] == x.ledger.write(l)
            && CheckpointId(conversation) in after && after[CheckpointId(conversation)] == checkpoint
            && (forall c :: c != conversation ==> CheckpointOf(after, c) == CheckpointOf(records, c))
            && SameApart(after, ApplyAll(records, staged), conversation)
  {
    hide ValidKey, ApplyAll, ValidConversation, CheckpointId, LEDGER_ID;
    var id, ms := CheckpointId(conversation), BatchFor(x, conversation, checkpoint, staged, l);
    CheckpointClass();
    KeysOk(conversation);
    var first := [Put(id, checkpoint)];
    BatchExtends(records, [], first[0]);
    assert [] + first == first;
    var middle := first + staged;
    BatchJoins(records, first, staged);
    BatchFrame(ApplyAll(records, first), staged, id);
    BatchExtends(records, middle, Put(LEDGER_ID, x.ledger.write(l)));
    assert ms == middle + [Put(LEDGER_ID, x.ledger.write(l))];
    forall c | c != conversation ensures CheckpointOf(ApplyAll(records, ms), c) == CheckpointOf(records, c) {
      CheckpointsApart(c, conversation);
      BatchFrame(records, ms, CheckpointId(c));
    }
    forall other | other != id && other != LEDGER_ID
      ensures SameAt(ApplyAll(records, ms), ApplyAll(records, staged), other)
    {
      SameAfter(ApplyAll(records, first), records, staged, other);
    }
  }

  // Two stores agree on this record.
  predicate SameAt(a: Records, b: Records, id: RecordId) {
    (id in a <==> id in b) && (id in a ==> a[id] == b[id])
  }

  // They agree on everything but this conversation's checkpoint and the ledger.
  ghost predicate SameApart(a: Records, b: Records, conversation: Text) {
    forall id :: id != CheckpointId(conversation) && id != LEDGER_ID ==> SameAt(a, b, id)
  }

  lemma {:induction false} SameAfter(a: Records, b: Records, ms: seq<Mutation>, id: RecordId)
    requires SameAt(a, b, id)
    ensures SameAt(ApplyAll(a, ms), ApplyAll(b, ms), id)
  {
    if ms != [] {
      SameAfter(a, b, ms[..|ms| - 1], id);
    }
  }

  lemma CheckpointClass()
    ensures LEDGER_ID.cls == Outbox && forall c :: CheckpointId(c).cls == ProtocolSession
  {}

  lemma BatchExtends(records: Records, ms: seq<Mutation>, m: Mutation)
    ensures ApplyAll(records, ms + [m]) == ApplyMutation(ApplyAll(records, ms), m)
    ensures ms == [] ==> ApplyAll(records, ms) == records
  {
    assert (ms + [m])[..|ms|] == ms;
  }

  lemma {:induction false} BatchJoins(records: Records, a: seq<Mutation>, b: seq<Mutation>)
    ensures ApplyAll(records, a + b) == ApplyAll(ApplyAll(records, a), b)
  {
    hide ApplyAll;
    if b == [] {
      assert a + b == a;
      BatchExtends(ApplyAll(records, a), b, Delete(LEDGER_ID));
    } else {
      var front, m := b[..|b| - 1], b[|b| - 1];
      BatchJoins(records, a, front);
      assert a + b == (a + front) + [m] && b == front + [m];
      BatchExtends(records, a + front, m);
      BatchExtends(ApplyAll(records, a), front, m);
    }
  }

  // ---- one delivery ----

  function Next(m: Mls, g: Option<Group>, ciphertext: Bytes): Option<Group> {
    if g.None? then None
    else
      match m.receive(g.value, ciphertext)
      case None => None
      case Some((next, _)) => Some(next)
  }

  // The durable checkpoint of one conversation takes one receive step; the others stay.
  ghost predicate Advances(x: Tools, before: Records, after: Records, conversation: Text, d: Delivery) {
    && ValidConversation(conversation) && DurableGroup(x, after, conversation).Some?
    && DurableGroup(x, after, conversation) == Next(x.mls, DurableGroup(x, before, conversation), d.ciphertext)
    && forall c :: c != conversation ==> CheckpointOf(after, c) == CheckpointOf(before, c)
  }

  predicate Unpoisoned(site: Site) { site in {NoCheckpoint, NotStaged, LedgerRefused} }

  lemma RestorableLedger(x: Tools, records: Records, l: L.Ledger)
    requires Remembers(x, records, l)
    ensures R.Restorable(l)
  {
    hide R.ValidPersisted;
  }

  lemma RemembersWritten(x: Tools, records: Records, l: L.Ledger)
    requires LawfulTools(x) && R.Restorable(l)
    requires LEDGER_ID in records && records[LEDGER_ID] == x.ledger.write(l)
    ensures Remembers(x, records, l)
  {
    hide R.Restorable;
    assert x.ledger.read(x.ledger.write(l)) == Some(l);
  }

  // The records of the message itself, if it has a plaintext.
  function StagedFor(x: Tools, w: World, conversation: Text, d: Delivery, env: ItemEnv): seq<Mutation> {
    var received := Received(x.mls, w.sessions, conversation, d.ciphertext);
    if received.Some? && received.value.1.Some? && env.staged.Some? then env.staged.value else []
  }

  // Records in which this delivery has been made: its checkpoint advanced, its digest marked, its own
  // records stored, and nothing else changed.
  ghost predicate Delivers(x: Tools, w: World, conversation: Text, d: Delivery, staged: seq<Mutation>, records: Records) {
    && Marked(w.ledger, d).Some? && Remembers(x, records, Marked(w.ledger, d).value)
    && Advances(x, w.store.records, records, conversation, d)
    && SameApart(records, ApplyAll(w.store.records, staged), conversation)
  }

  // The disks one delivery leaves behind.
  function DeliverDisks(x: Tools, w: World, conversation: Text, d: Delivery, env: ItemEnv): seq<Disk> {
    match Received(x.mls, w.sessions, conversation, d.ciphertext)
    case None => []
    case Some((sessions, plaintext)) =>
      var checkpoint := Checkpoint(x.mls, sessions, conversation);
      var staged := if plaintext.None? then Some([]) else env.staged;
      var marked := Marked(w.ledger, d);
      if checkpoint.None? || staged.None? || marked.None? then []
      else
        var ms := BatchFor(x, conversation, checkpoint.value, staged.value, marked.value);
        StepDisks(x.vault, w.store, Batch(ms), env.commit)
  }

  // Any disk of a delivery opens to the records before it or to records in which it is made, or,
  // only in the window, reports rollback.
  ghost predicate BeforeOrAfter(x: Tools, w: World, conversation: Text, d: Delivery, staged: seq<Mutation>, env: CommitEnv, disk: Disk)
  {
    || OpensTo(x.vault, disk, View(w.store.records, w.store.revision))
    || (var r := Open(x.vault.aead, x.vault.key, disk); r.Ok? && Delivers(x, w, conversation, d, staged, r.value.records))
    || (RollbackWindow(env) && Open(x.vault.aead, x.vault.key, disk) == Err(RollbackDetected))
  }

  // What the commit of a received message does, and what its failure leaves, in memory and on disk.
  lemma CommitStep(x: Tools, w: World, conversation: Text, d: Delivery, checkpoint: Bytes, staged: seq<Mutation>, env: CommitEnv)
    requires LawfulTools(x) && Settled(x.vault, w.store) && Remembers(x, w.store.records, w.ledger) && DeliveryOk(d)
    requires ValidConversation(conversation) && |checkpoint| <= SNAPSHOT_LIMIT && BatchOk(staged)
    requires forall i :: 0 <= i < |staged| ==> staged[i].id.cls in {Message, Contact, Attachment}
    requires Marked(w.ledger, d).Some? && LedgerFits(x, Marked(w.ledger, d).value)
    requires x.mls.load(checkpoint).Some?
    requires x.mls.load(checkpoint) == Next(x.mls, DurableGroup(x, w.store.records, conversation), d.ciphertext)
    ensures var op := Batch(BatchFor(x, conversation, checkpoint, staged, Marked(w.ledger, d).value));
            var step, disks := Apply(x.vault, w.store, op, env), StepDisks(x.vault, w.store, op, env);
            && (step.result.Err? ==> step.state == w.store.(disk := step.state.disk))
            && (step.result.Err? && Settles(env) ==> step.state == w.store)
            && (step.result.Ok? ==>
                  && !RollbackWindow(env) && Settled(x.vault, step.state) && !step.state.locked
                  && Delivers(x, w, conversation, d, staged, step.state.records)
                  && DurableGroup(x, step.state.records, conversation) == x.mls.load(checkpoint))
            && step.state.disk == (if disks == [] then w.store.disk else disks[|disks| - 1])
            && forall i :: 0 <= i < |disks| ==> BeforeOrAfter(x, w, conversation, d, staged, env, disks[i])
  {
    hide Settled, Settles, ApplyAll, Marked, Apply, StepDisks, ValidConversation, BatchOk, R.Restorable, CheckpointId,
         LEDGER_ID, BatchFor, Remembers, DurableGroup, Open, SameApart;
    var marked := Marked(w.ledger, d).value;
    var ms := BatchFor(x, conversation, checkpoint, staged, marked);
    RestorableLedger(x, w.store.records, w.ledger);
    MarkedLedger(w.ledger, d);
    BatchEffect(x, w.store.records, conversation, checkpoint, staged, marked);
    var next := ApplyAll(w.store.records, ms);
    RemembersWritten(x, next, marked);
    assert Delivers(x, w, conversation, d, staged, next) by { AdvancedBy(x, w.store.records, next, conversation, d, checkpoint); }
    OperationIsAtomic(x.vault, w.store, Event(Batch(ms), env));
    SettledAgrees(x.vault, w.store);
    OperationCrashSafety(x.vault, w.store, Batch(ms), env);
    var disks := StepDisks(x.vault, w.store, Batch(ms), env);
    forall i | 0 <= i < |disks| ensures BeforeOrAfter(x, w, conversation, d, staged, env, disks[i]) {
      assert OldOrNew(x.vault, w.store, next, env, disks[i]);
    }
    var step := Apply(x.vault, w.store, Batch(ms), env);
    if step.result.Ok? {
      SettledIsUnlocked(x.vault, step.state);
      BatchReportsTrue(x.vault, w.store, ms, env);
    }
  }

  lemma BatchReportsTrue(v: Vault, s: StoreState, ms: seq<Mutation>, env: CommitEnv)
    ensures Apply(v, s, Batch(ms), env).result.Ok? ==> Apply(v, s, Batch(ms), env).result.value
  {
    hide Attempt, ApplyAll;
  }

  lemma SettledAgrees(v: Vault, s: StoreState)
    requires Settled(v, s)
    ensures Agrees(v, s) && OpensTo(v, s.disk, View(s.records, s.revision))
  {
    hide Open;
  }

  lemma AdvancedBy(x: Tools, before: Records, after: Records, conversation: Text, d: Delivery, checkpoint: Bytes)
    requires CheckpointId(conversation) in after && after[CheckpointId(conversation)] == checkpoint
    requires x.mls.load(checkpoint).Some? && ValidConversation(conversation)
    requires x.mls.load(checkpoint) == Next(x.mls, DurableGroup(x, before, conversation), d.ciphertext)
    requires forall c :: c != conversation ==> CheckpointOf(after, c) == CheckpointOf(before, c)
    ensures Advances(x, before, after, conversation, d)
    ensures DurableGroup(x, after, conversation) == x.mls.load(checkpoint)
  {
    hide CheckpointId;
  }

  // One delivery, whatever its commit does. Committing makes one message durable and leaves every
  // session in step. Any other outcome leaves records and ledger as they were, and the files too
  // unless a commit was under way; the session of a failed commit is poisoned. Every disk on the way
  // holds the state before or after the delivery, or reports rollback inside the window. All sessions
  // are then still poisoned or in step exactly when it did not stop where poisoning is forgotten.
  lemma DeliverStep(x: Tools, w: World, conversation: Text, d: Delivery, env: ItemEnv, strict: bool)
    requires LawfulTools(x) && Sound(x, w) && EnvOk(env) && DeliveryOk(d)
    requires Marked(w.ledger, d).Some? ==> LedgerFits(x, Marked(w.ledger, d).value)
    ensures var r := Deliver(x, w, conversation, d, env, strict);
            && !r.world.store.locked && Remembers(x, r.world.store.records, r.world.ledger)
            && (Live(x, r.world) <==> r.outcome.Committed? || strict || !Unpoisoned(r.outcome.site))
    ensures var r := Deliver(x, w, conversation, d, env, strict);
            && (r.outcome.Committed? ==>
                  && !RollbackWindow(env.commit) && Settled(x.vault, r.world.store) && Some(r.world.ledger) == Marked(w.ledger, d)
                  && Delivers(x, w, conversation, d, StagedFor(x, w, conversation, d, env), r.world.store.records))
            && (r.outcome.Stopped? ==>
                  && r.world.store == w.store.(disk := r.world.store.disk) && r.world.ledger == w.ledger
                  && (r.outcome.site != NotCommitted || Settles(env.commit) ==> r.world.store == w.store))
            && (r.outcome == Stopped(NotReceived) ==> r.world == w)
            && (r.outcome == Stopped(NotCommitted) ==>
                  conversation in r.world.sessions && r.world.sessions[conversation].poisoned)
    ensures var r, disks := Deliver(x, w, conversation, d, env, strict), DeliverDisks(x, w, conversation, d, env);
            && (disks != [] ==> r.outcome == Committed || r.outcome == Stopped(NotCommitted))
            && r.world.store.disk == (if disks == [] then w.store.disk else disks[|disks| - 1])
            && (forall i :: 0 <= i < |disks| ==>
                  BeforeOrAfter(x, w, conversation, d, StagedFor(x, w, conversation, d, env), env.commit, disks[i]))
  {
    hide Settled, Settles, Marked, Apply, StepDisks, ValidConversation, BatchFor, R.Restore, CheckpointId, LEDGER_ID,
         BeforeOrAfter, LedgerFits, SameApart, ApplyAll, R.Restorable;
    var received := Received(x.mls, w.sessions, conversation, d.ciphertext);
    if received.Some? {
      var (sessions, plaintext) := received.value;
      var g := w.sessions[conversation].group.value;
      assert InStep(x, w, conversation);
      var checkpoint := Checkpoint(x.mls, sessions, conversation);
      var staged := if plaintext.None? then Some([]) else env.staged;
      assert x.mls.receive(g, d.ciphertext).value.0 != g;
      if checkpoint.Some? && staged.Some? && Marked(w.ledger, d).Some? {
        assert x.mls.load(checkpoint.value) == sessions[conversation].group;
        CommitStep(x, w, conversation, d, checkpoint.value, staged.value, env.commit);
      }
    }
  }

  // ---- when a delivery is committed ----

  // The delivery gets as far as its batch: received, checkpoint taken, records staged, ledger marked.
  predicate ReachesBatch(x: Tools, w: World, conversation: Text, d: Delivery, env: ItemEnv) {
    var received := Received(x.mls, w.sessions, conversation, d.ciphertext);
    && received.Some? && Checkpoint(x.mls, received.value.0, conversation).Some?
    && (received.value.1.Some? ==> env.staged.Some?) && Marked(w.ledger, d).Some?
  }

  function DeliveryBatch(x: Tools, w: World, conversation: Text, d: Delivery, env: ItemEnv): seq<Mutation>
    requires ReachesBatch(x, w, conversation, d, env)
  {
    var received := Received(x.mls, w.sessions, conversation, d.ciphertext).value;
    BatchFor(x, conversation, Checkpoint(x.mls, received.0, conversation).value,
             if received.1.None? then [] else env.staged.value, Marked(w.ledger, d).value)
  }

  // Told before the call: it gets that far, the store has room and a revision left, and the commit's
  // steps work out. When the ledger can mark it is in MarkedLedger.
  predicate CanCommit(x: Tools, w: World, conversation: Text, d: Delivery, env: ItemEnv) {
    && ReachesBatch(x, w, conversation, d, env)
    && |ApplyAll(w.store.records, DeliveryBatch(x, w, conversation, d, env))| <= MAX_RECORDS && w.store.revision < MAX_U64
    && env.commit.prepared && Succeeds(env.commit)
  }

  lemma CommitsExactly(x: Tools, w: World, conversation: Text, d: Delivery, env: ItemEnv, strict: bool)
    requires LawfulTools(x) && Settled(x.vault, w.store) && EnvOk(env) && DeliveryOk(d)
    requires Marked(w.ledger, d).Some? ==> LedgerFits(x, Marked(w.ledger, d).value)
    ensures Deliver(x, w, conversation, d, env, strict).outcome.Committed? <==> CanCommit(x, w, conversation, d, env)
  {
    hide Settled, Live, Apply, Received, Checkpoint, Marked, BatchFor, ApplyAll, R.Restorable, R.Restore, Succeeds, BatchOk,
         LedgerFits, ValidConversation;
    MarkedLedger(w.ledger, d);
    if ReachesBatch(x, w, conversation, d, env) {
      var received := Received(x.mls, w.sessions, conversation, d.ciphertext);
      var checkpoint := Checkpoint(x.mls, received.value.0, conversation).value;
      var staged := if received.value.1.None? then [] else env.staged.value;
      CheckpointFits(x.mls, received.value.0, conversation);
      NoneIsOk();
      BatchEffect(x, w.store.records, conversation, checkpoint, staged, Marked(w.ledger, d).value);
      OperationSucceeds(x.vault, w.store, Batch(DeliveryBatch(x, w, conversation, d, env)), env.commit);
    }
  }

  lemma NoneIsOk()
    ensures BatchOk([])
  {}

  lemma CheckpointFits(m: Mls, catalog: Catalog, conversation: Text)
    ensures Checkpoint(m, catalog, conversation).Some? ==>
              ValidConversation(conversation) && |Checkpoint(m, catalog, conversation).value| <= SNAPSHOT_LIMIT
  {
    hide ValidConversation;
  }

  // ---- process_sync_items ----

  datatype Progress = Progress(world: World, acked: seq<Text>, committed: seq<Delivery>, stopped: Option<Site>)

  function ProcessSync(x: Tools, w: World, conversation: Text, ds: seq<Delivery>, envs: nat -> ItemEnv): Progress {
    if ds == [] then Progress(w, [], [], None)
    else
      var p := ProcessSync(x, w, conversation, ds[..|ds| - 1], envs);
      var d := ds[|ds| - 1];
      if p.stopped.Some? then p
      else if Handled(p.world.ledger, d.digest) then p.(acked := p.acked + [d.id])
      else
        var r := Deliver(x, p.world, conversation, d, envs(|ds| - 1), true);
        if r.outcome.Committed? then Progress(r.world, p.acked + [d.id], p.committed + [d], None)
        else p.(world := r.world, stopped := Some(r.outcome.site))
  }

  function DeliveryIds(ds: seq<Delivery>): (ids: seq<Text>)
    ensures |ids| == |ds|
  {
    seq(|ds|, i requires 0 <= i < |ds| => ds[i].id)
  }

  function Digests(ds: seq<Delivery>): set<Text> {
    set d | d in ds :: d.digest
  }

  // The deliveries that are new to a ledger: the first of each digest it has not handled.
  function New(l: L.Ledger, ds: seq<Delivery>): seq<Delivery> {
    if ds == [] then []
    else
      var front, d := New(l, ds[..|ds| - 1]), ds[|ds| - 1];
      if Handled(l, d.digest) || d.digest in Digests(front) then front else front + [d]
  }

  // MLS receive folded over deliveries.
  function Folded(m: Mls, g: Option<Group>, ds: seq<Delivery>): Option<Group> {
    if ds == [] then g else Next(m, Folded(m, g, ds[..|ds| - 1]), ds[|ds| - 1].ciphertext)
  }

  // The ledger after the first n deliveries, if nothing stops.
  function MarkAll(l: L.Ledger, ds: seq<Delivery>): L.Ledger {
    if ds == [] then l
    else
      var front, d := MarkAll(l, ds[..|ds| - 1]), ds[|ds| - 1];
      if Handled(front, d.digest) || Marked(front, d).None? then front else Marked(front, d).value
  }

  // Every ledger on the way fits one store record.
  predicate RoomFor(x: Tools, l: L.Ledger, ds: seq<Delivery>) {
    forall n :: 0 <= n <= |ds| ==> LedgerFits(x, MarkAll(l, ds[..n]))
  }

  ghost predicate EnvsOk(envs: nat -> ItemEnv) { forall i :: EnvOk(envs(i)) }

  predicate DeliveriesOk(ds: seq<Delivery>) { forall i :: 0 <= i < |ds| ==> DeliveryOk(ds[i]) }

  ghost predicate MarkedBy(before: L.Ledger, after: L.Ledger, digests: set<Text>) {
    && (forall e :: Handled(after, e) <==> Handled(before, e) || e in digests)
    && (forall e :: IsDecrypted(after, e) <==> IsDecrypted(before, e) || e in digests)
  }

  // What records say once exactly the items `done` have been dealt with since `w`: the durable
  // checkpoint is the fold of MLS receive over the new ones among them, in order, no other
  // checkpoint has moved, these are what the ledger newly marks, and every item done is handled.
  ghost predicate Recorded(x: Tools, w: World, conversation: Text, done: seq<Delivery>, records: Records) {
    var l, committed := MarkAll(w.ledger, done), New(w.ledger, done);
    && Remembers(x, records, l)
    && DurableGroup(x, records, conversation)
       == Folded(x.mls, DurableGroup(x, w.store.records, conversation), committed)
    && (committed != [] ==> ValidConversation(conversation) && DurableGroup(x, records, conversation).Some?)
    && (forall c :: c != conversation || committed == [] ==> CheckpointOf(records, c) == CheckpointOf(w.store.records, c))
    && MarkedBy(w.ledger, l, Digests(committed))
    && (forall d :: d in done ==> Handled(l, d.digest))
  }

  // Memory after a run has dealt with `done`: it agrees with itself and records exactly that.
  ghost predicate SyncState(x: Tools, w: World, conversation: Text, done: seq<Delivery>, now: World, committed: seq<Delivery>) {
    && Live(x, now)
    && committed == New(w.ledger, done)
    && now.ledger == MarkAll(w.ledger, done)
    && (committed == [] ==> now.store.records == w.store.records)
    && Recorded(x, w, conversation, done, now.store.records)
  }

  lemma SyncStart(x: Tools, w: World, conversation: Text)
    requires Live(x, w)
    ensures SyncState(x, w, conversation, [], w, [])
  {
    hide InStep, DurableGroup, Handled, IsDecrypted, Remembers;
  }

  lemma SyncSkip(x: Tools, w: World, conversation: Text, done: seq<Delivery>, now: World, committed: seq<Delivery>, d: Delivery)
    requires SyncState(x, w, conversation, done, now, committed) && Handled(now.ledger, d.digest)
    ensures SyncState(x, w, conversation, done + [d], now, committed)
  {
    hide Live, DurableGroup, Handled, IsDecrypted, Folded, Remembers;
    assert (done + [d])[..|done|] == done;
  }

  lemma MarkedByOne(l: L.Ledger, d: Delivery)
    requires DeliveryOk(d) && Marked(l, d).Some?
    ensures MarkedBy(l, Marked(l, d).value, {d.digest})
  {
    hide Marked, R.Restorable;
    MarkedLedger(l, d);
  }

  // One more new item delivered, in memory or on a disk that outlived the run.
  lemma RecordedNext(x: Tools, w: World, conversation: Text, done: seq<Delivery>, now: World, d: Delivery, staged: seq<Mutation>,
                     records: Records)
    requires Recorded(x, w, conversation, done, now.store.records) && now.ledger == MarkAll(w.ledger, done)
    requires !Handled(now.ledger, d.digest) && DeliveryOk(d) && Delivers(x, now, conversation, d, staged, records)
    ensures Recorded(x, w, conversation, done + [d], records)
    ensures New(w.ledger, done + [d]) == New(w.ledger, done) + [d]
    ensures Some(MarkAll(w.ledger, done + [d])) == Marked(now.ledger, d)
  {
    hide DurableGroup, Handled, IsDecrypted, Marked, Remembers, New, MarkAll, Folded, Digests;
    assert Recorded(x, w, conversation, done, now.store.records);
    NextNew(w.ledger, done, d);
    NextFold(x.mls, DurableGroup(x, w.store.records, conversation), New(w.ledger, done), d);
    MarkedByOne(now.ledger, d);
  }

  lemma NextNew(l: L.Ledger, done: seq<Delivery>, d: Delivery)
    requires MarkedBy(l, MarkAll(l, done), Digests(New(l, done)))
    requires !Handled(MarkAll(l, done), d.digest) && Marked(MarkAll(l, done), d).Some?
    ensures New(l, done + [d]) == New(l, done) + [d] && Some(MarkAll(l, done + [d])) == Marked(MarkAll(l, done), d)
    ensures Digests(New(l, done + [d])) == Digests(New(l, done)) + {d.digest}
  {
    hide Handled, IsDecrypted, Marked;
    assert (done + [d])[..|done|] == done;
  }

  lemma NextFold(m: Mls, g: Option<Group>, ds: seq<Delivery>, d: Delivery)
    ensures Folded(m, g, ds + [d]) == Next(m, Folded(m, g, ds), d.ciphertext)
  {
    assert (ds + [d])[..|ds|] == ds;
  }

  // The disk opens to records that say some number of items between the bounds has been dealt with.
  ghost predicate RecoversTo(x: Tools, w: World, conversation: Text, ds: seq<Delivery>, least: nat, most: nat, disk: Disk) {
    var r := Open(x.vault.aead, x.vault.key, disk);
    r.Ok? && exists n :: least <= n <= most && n <= |ds| && Recorded(x, w, conversation, ds[..n], r.value.records)
  }

  // Every disk a run leaves behind, in order.
  function SyncDisks(x: Tools, w: World, conversation: Text, ds: seq<Delivery>, envs: nat -> ItemEnv): seq<Disk> {
    if ds == [] then []
    else
      var front, d := ds[..|ds| - 1], ds[|ds| - 1];
      var p := ProcessSync(x, w, conversation, front, envs);
      SyncDisks(x, w, conversation, front, envs)
      + if p.stopped.Some? || Handled(p.world.ledger, d.digest) then []
        else DeliverDisks(x, p.world, conversation, d, envs(|ds| - 1))
  }

  // One item: what it leaves in memory, and what every disk on its way opens to.
  lemma SyncItem(x: Tools, w: World, conversation: Text, done: seq<Delivery>, now: World, committed: seq<Delivery>,
                 d: Delivery, env: ItemEnv)
    requires LawfulTools(x) && SyncState(x, w, conversation, done, now, committed) && EnvOk(env) && DeliveryOk(d)
    requires Settled(x.vault, now.store) && !Handled(now.ledger, d.digest)
    requires LedgerFits(x, MarkAll(w.ledger, done + [d]))
    ensures var r := Deliver(x, now, conversation, d, env, true);
            && (if r.outcome.Committed? then SyncState(x, w, conversation, done + [d], r.world, committed + [d])
                else SyncState(x, w, conversation, done, r.world, committed))
            && (r.outcome.Committed? ==> !RollbackWindow(env.commit) && Settled(x.vault, r.world.store))
            && (r.outcome == Stopped(NotCommitted) ==>
                  conversation in r.world.sessions && r.world.sessions[conversation].poisoned)
    ensures var r, disks := Deliver(x, now, conversation, d, env, true), DeliverDisks(x, now, conversation, d, env);
            && r.world.store.disk == (if disks == [] then now.store.disk else disks[|disks| - 1])
            && (disks != [] ==> r.outcome == Committed || r.outcome == Stopped(NotCommitted))
            && forall i :: 0 <= i < |disks| ==> ItemDisk(x, w, conversation, done, d, env.commit, disks[i])
  {
    hide Settled, Deliver, DeliverDisks, Handled, Marked, EnvOk, LedgerFits, Delivers, Folded, DurableGroup, IsDecrypted, New,
         InStep, Recorded, BeforeOrAfter, ItemDisk, Remembers, RollbackWindow;
    assert (done + [d])[..|done|] == done;
    DeliverStep(x, now, conversation, d, env, true);
    var r, disks := Deliver(x, now, conversation, d, env, true), DeliverDisks(x, now, conversation, d, env);
    if r.outcome.Committed? {
      RecordedNext(x, w, conversation, done, now, d, StagedFor(x, now, conversation, d, env), r.world.store.records);
    }
    forall i | 0 <= i < |disks| ensures ItemDisk(x, w, conversation, done, d, env.commit, disks[i]) {
      ItemDiskOpens(x, w, conversation, done, now, d, StagedFor(x, now, conversation, d, env), env.commit, disks[i]);
    }
  }

  ghost predicate ItemDisk(x: Tools, w: World, conversation: Text, done: seq<Delivery>, d: Delivery, env: CommitEnv, disk: Disk) {
    var r := Open(x.vault.aead, x.vault.key, disk);
    || (r.Ok? && Recorded(x, w, conversation, done, r.value.records))
    || (r.Ok? && Recorded(x, w, conversation, done + [d], r.value.records))
    || (RollbackWindow(env) && r == Err(RollbackDetected))
  }

  lemma ItemDiskOpens(x: Tools, w: World, conversation: Text, done: seq<Delivery>, now: World, d: Delivery, staged: seq<Mutation>,
                      env: CommitEnv, disk: Disk)
    requires Recorded(x, w, conversation, done, now.store.records) && now.ledger == MarkAll(w.ledger, done)
    requires !Handled(now.ledger, d.digest) && DeliveryOk(d) && BeforeOrAfter(x, now, conversation, d, staged, env, disk)
    ensures ItemDisk(x, w, conversation, done, d, env, disk)
  {
    hide Recorded, Delivers, Handled, Marked, Open, RollbackWindow, MarkAll;
    var r := Open(x.vault.aead, x.vault.key, disk);
    if r.Ok? && Delivers(x, now, conversation, d, staged, r.value.records) {
      RecordedNext(x, w, conversation, done, now, d, staged, r.value.records);
    }
  }

  // What a run leaves on disk. Wherever it is cut short the disk opens to records that say exactly
  // which items have been dealt with; where it ends, no acknowledged item is missing from them, and
  // at most the one whose commit failed is there besides. Only a commit in the window, which ends
  // the run, leaves a disk that reports rollback instead.
  ghost predicate DisksState(x: Tools, w: World, conversation: Text, ds: seq<Delivery>, p: Progress, disks: seq<Disk>, envs: nat -> ItemEnv) {
    var n := |p.acked|;
    var window := p.stopped == Some(NotCommitted) && RollbackWindow(envs(n).commit);
    && p.world.store.disk == (if disks == [] then w.store.disk else disks[|disks| - 1])
    && (forall i :: 0 <= i < |disks| ==>
          || RecoversTo(x, w, conversation, ds, 0, n + 1, disks[i])
          || (window && Open(x.vault.aead, x.vault.key, disks[i]) == Err(RollbackDetected)))
    && (|| RecoversTo(x, w, conversation, ds, n, n + 1, p.world.store.disk)
        || (window && Open(x.vault.aead, x.vault.key, p.world.store.disk) == Err(RollbackDetected)))
  }

  lemma RecoversMore(x: Tools, w: World, conversation: Text, ds: seq<Delivery>, d: Delivery, least: nat, most: nat, disk: Disk)
    requires RecoversTo(x, w, conversation, ds, least, most, disk)
    ensures RecoversTo(x, w, conversation, ds + [d], least, most, disk) && RecoversTo(x, w, conversation, ds + [d], 0, most + 1, disk)
  {
    hide Recorded, Open;
    var records := Open(x.vault.aead, x.vault.key, disk).value.records;
    var n :| least <= n <= most && n <= |ds| && Recorded(x, w, conversation, ds[..n], records);
    assert (ds + [d])[..n] == ds[..n];
  }

  lemma RecoversAt(x: Tools, w: World, conversation: Text, ds: seq<Delivery>, n: nat, disk: Disk)
    requires n <= |ds| && Open(x.vault.aead, x.vault.key, disk).Ok?
    requires Recorded(x, w, conversation, ds[..n], Open(x.vault.aead, x.vault.key, disk).value.records)
    ensures forall least, most :: 0 <= least <= n <= most ==> RecoversTo(x, w, conversation, ds, least, most, disk)
  {
    hide Recorded, Open;
  }

  lemma DisksStart(x: Tools, w: World, conversation: Text, envs: nat -> ItemEnv)
    requires Sound(x, w)
    ensures DisksState(x, w, conversation, [], Progress(w, [], [], None), [], envs)
  {
    hide Settled, Live, Recorded, RecoversTo, Open;
    SyncStart(x, w, conversation);
    SettledAgrees(x.vault, w.store);
    var none: seq<Delivery> := [];
    assert none[..0] == [];
    RecoversAt(x, w, conversation, [], 0, w.store.disk);
  }

  lemma DisksLonger(x: Tools, w: World, conversation: Text, ds: seq<Delivery>, d: Delivery, p: Progress, disks: seq<Disk>, envs: nat -> ItemEnv)
    requires DisksState(x, w, conversation, ds, p, disks, envs)
    ensures DisksState(x, w, conversation, ds + [d], p, disks, envs)
  {
    hide RecoversTo, Open, RollbackWindow;
    var n := |p.acked|;
    forall i | 0 <= i < |disks| && RecoversTo(x, w, conversation, ds, 0, n + 1, disks[i])
      ensures RecoversTo(x, w, conversation, ds + [d], 0, n + 1, disks[i])
    {
      RecoversMore(x, w, conversation, ds, d, 0, n + 1, disks[i]);
    }
    if RecoversTo(x, w, conversation, ds, n, n + 1, p.world.store.disk) {
      RecoversMore(x, w, conversation, ds, d, n, n + 1, p.world.store.disk);
    }
  }

  // One more item, skipped, committed or failed.
  lemma DisksNext(x: Tools, w: World, conversation: Text, ds: seq<Delivery>, d: Delivery, p: Progress, disks: seq<Disk>,
                  q: Progress, more: seq<Disk>, envs: nat -> ItemEnv)
    requires DisksState(x, w, conversation, ds, p, disks, envs) && p.stopped.None? && |p.acked| == |ds|
    requires |q.acked| == |ds| + if q.stopped.None? then 1 else 0
    requires q.world.store.disk == if more == [] then p.world.store.disk else more[|more| - 1]
    requires forall i :: 0 <= i < |more| ==> ItemDisk(x, w, conversation, ds, d, envs(|ds|).commit, more[i])
    requires more != [] ==> if q.stopped.None? then !RollbackWindow(envs(|ds|).commit) else q.stopped == Some(NotCommitted)
    requires q.stopped.None? ==> Settled(x.vault, q.world.store) && Recorded(x, w, conversation, ds + [d], q.world.store.records)
    ensures DisksState(x, w, conversation, ds + [d], q, disks + more, envs)
  {
    hide RecoversTo, Open, RollbackWindow, Recorded, Settled;
    var n, all := |ds|, ds + [d];
    assert all[..n] == ds && all[..n + 1] == all;
    forall i | 0 <= i < |disks| ensures RecoversTo(x, w, conversation, all, 0, n + 1, disks[i]) && RecoversTo(x, w, conversation, all, 0, n + 2, disks[i]) {
      RecoversMore(x, w, conversation, ds, d, 0, n + 1, disks[i]);
    }
    forall i | 0 <= i < |more|
      ensures var r := Open(x.vault.aead, x.vault.key, more[i]);
              || (RollbackWindow(envs(n).commit) && r == Err(RollbackDetected))
              || (RecoversTo(x, w, conversation, all, 0, n + 1, more[i]) && RecoversTo(x, w, conversation, all, 0, n + 2, more[i])
                  && RecoversTo(x, w, conversation, all, n, n + 1, more[i]))
    {
      var r := Open(x.vault.aead, x.vault.key, more[i]);
      if r.Ok? && Recorded(x, w, conversation, ds, r.value.records) {
        RecoversAt(x, w, conversation, all, n, more[i]);
      } else if r.Ok? && Recorded(x, w, conversation, all, r.value.records) {
        RecoversAt(x, w, conversation, all, n + 1, more[i]);
      }
    }
    if q.stopped.None? {
      SettledAgrees(x.vault, q.world.store);
      RecoversAt(x, w, conversation, all, n + 1, q.world.store.disk);
    } else if more == [] {
      RecoversMore(x, w, conversation, ds, d, n, n + 1, p.world.store.disk);
    }
  }

  lemma RecordedIn(x: Tools, w: World, conversation: Text, done: seq<Delivery>, now: World, committed: seq<Delivery>)
    requires SyncState(x, w, conversation, done, now, committed)
    ensures Live(x, now) && Recorded(x, w, conversation, done, now.store.records) && now.ledger == MarkAll(w.ledger, done)
  {}

  // Every run, whatever its commits do, has dealt with a prefix of the items, all of it unless it
  // stopped, and the acknowledged ids are those of that prefix. A run that did not stop leaves the
  // files agreeing with memory; one stopped by a failed commit leaves its session poisoned.
  lemma {:induction false} SyncFold(x: Tools, w: World, conversation: Text, ds: seq<Delivery>, envs: nat -> ItemEnv)
    requires LawfulTools(x) && Sound(x, w) && EnvsOk(envs) && DeliveriesOk(ds) && RoomFor(x, w.ledger, ds)
    ensures var p := ProcessSync(x, w, conversation, ds, envs);
            && |p.acked| <= |ds| && p.acked == DeliveryIds(ds[..|p.acked|])
            && (p.stopped.None? <==> |p.acked| == |ds|)
            && SyncState(x, w, conversation, ds[..|p.acked|], p.world, p.committed)
            && (p.stopped.None? ==> Settled(x.vault, p.world.store))
            && (p.stopped == Some(NotCommitted) ==>
                  conversation in p.world.sessions && p.world.sessions[conversation].poisoned)
            && DisksState(x, w, conversation, ds, p, SyncDisks(x, w, conversation, ds, envs), envs)
  {
    hide Settled, Live, Deliver, DeliverDisks, Handled, EnvOk, DeliveryOk, LedgerFits, SyncState, MarkAll, DisksState, LawfulTools;
    if ds == [] {
      assert ds[..0] == [];
      SyncStart(x, w, conversation);
      DisksStart(x, w, conversation, envs);
    } else {
      var front, d := ds[..|ds| - 1], ds[|ds| - 1];
      forall k | 0 <= k <= |front| ensures front[..k] == ds[..k] {}
      SyncFold(x, w, conversation, front, envs);
      var p, disks := ProcessSync(x, w, conversation, front, envs), SyncDisks(x, w, conversation, front, envs);
      assert ds == front + [d] && front[..|front|] == front && ds[..|ds|] == ds && disks + [] == disks;
      if p.stopped.Some? {
        DisksLonger(x, w, conversation, front, d, p, disks, envs);
      } else {
        SyncNext(x, w, conversation, front, d, p, disks, envs);
      }
    }
  }

  lemma SyncNext(x: Tools, w: World, conversation: Text, front: seq<Delivery>, d: Delivery, p: Progress, disks: seq<Disk>, envs: nat -> ItemEnv)
    requires LawfulTools(x) && EnvsOk(envs) && DeliveryOk(d) && LedgerFits(x, MarkAll(w.ledger, front + [d]))
    requires p.stopped.None? && |p.acked| == |front| && SyncState(x, w, conversation, front, p.world, p.committed)
    requires Settled(x.vault, p.world.store) && DisksState(x, w, conversation, front, p, disks, envs)
    ensures Handled(p.world.ledger, d.digest) ==>
              && SyncState(x, w, conversation, front + [d], p.world, p.committed)
              && DisksState(x, w, conversation, front + [d], p.(acked := p.acked + [d.id]), disks, envs)
    ensures !Handled(p.world.ledger, d.digest) ==>
              var r := Deliver(x, p.world, conversation, d, envs(|front|), true);
              var q := if r.outcome.Committed? then Progress(r.world, p.acked + [d.id], p.committed + [d], None)
                       else p.(world := r.world, stopped := Some(r.outcome.site));
              && SyncState(x, w, conversation, if r.outcome.Committed? then front + [d] else front, q.world, q.committed)
              && (r.outcome.Committed? ==> Settled(x.vault, q.world.store))
              && (q.stopped == Some(NotCommitted) ==>
                    conversation in q.world.sessions && q.world.sessions[conversation].poisoned)
              && DisksState(x, w, conversation, front + [d], q, disks + DeliverDisks(x, p.world, conversation, d, envs(|front|)), envs)
  {
    hide Settled, Live, Deliver, DeliverDisks, Handled, EnvOk, DeliveryOk, LedgerFits, SyncState, MarkAll, DisksState, LawfulTools,
         ItemDisk, Recorded, RollbackWindow;
    if Handled(p.world.ledger, d.digest) {
      SyncSkip(x, w, conversation, front, p.world, p.committed, d);
      RecordedIn(x, w, conversation, front + [d], p.world, p.committed);
      DisksNext(x, w, conversation, front, d, p, disks, p.(acked := p.acked + [d.id]), [], envs);
      assert disks + [] == disks;
    } else {
      SyncItem(x, w, conversation, front, p.world, p.committed, d, envs(|front|));
      var r := Deliver(x, p.world, conversation, d, envs(|front|), true);
      var q := if r.outcome.Committed? then Progress(r.world, p.acked + [d.id], p.committed + [d], None)
               else p.(world := r.world, stopped := Some(r.outcome.site));
      if r.outcome.Committed? {
        RecordedIn(x, w, conversation, front + [d], q.world, q.committed);
      }
      DisksNext(x, w, conversation, front, d, p, disks, q, DeliverDisks(x, p.world, conversation, d, envs(|front|)), envs);
    }
  }

  // ---- whole calls of process_sync_items ----

  datatype Synced = Synced(world: World, acked: Option<seq<Text>>)

  function Sync(x: Tools, w: World, conversation: Text, capability: Text, items: seq<RelayItem>, now: U64, envs: nat -> ItemEnv): Synced {
    match ValidateAll(x, capability, items, now)
    case None => Synced(w, None)
    case Some(ds) =>
      var p := ProcessSync(x, w, conversation, ds, envs);
      Synced(p.world, if p.stopped.Some? then None else Some(p.acked))
  }

  lemma ValidatedItem(x: Tools, capability: Text, item: RelayItem, now: U64)
    requires LawfulTools(x)
    ensures Validate(x, capability, item, now).Some? ==>
              DeliveryOk(Validate(x, capability, item, now).value) && Validate(x, capability, item, now).value.id == item.id
  {
    hide E.FromWire, E.ToWire, Sessions.Lawful, R.LawfulJson, Aead.Lawful;
    assert |Hex(x.sha(item.envelope))| == 64;
  }

  lemma {:induction false} ValidatedItems(x: Tools, capability: Text, items: seq<RelayItem>, now: U64)
    requires LawfulTools(x)
    ensures ValidateAll(x, capability, items, now).Some? <==>
              forall i :: 0 <= i < |items| ==> Validate(x, capability, items[i], now).Some?
    ensures ValidateAll(x, capability, items, now).Some? ==>
              var ds := ValidateAll(x, capability, items, now).value;
              && |ds| == |items| && DeliveriesOk(ds)
              && forall i :: 0 <= i < |items| ==> Some(ds[i]) == Validate(x, capability, items[i], now) && ds[i].id == items[i].id
  {
    hide Validate, DeliveryOk, LawfulTools;
    if items != [] {
      ValidatedItems(x, capability, items[..|items| - 1], now);
      ValidatedItem(x, capability, items[|items| - 1], now);
    }
  }

  function ItemIds(items: seq<RelayItem>): seq<Text> {
    seq(|items|, i requires 0 <= i < |items| => items[i].id)
  }

  // A malformed item anywhere leaves everything untouched; otherwise the run is as SyncFold says,
  // and success acknowledges every item, duplicates included, with memory and files agreeing.
  lemma SyncCall(x: Tools, w: World, conversation: Text, capability: Text, items: seq<RelayItem>, now: U64, envs: nat -> ItemEnv)
    requires LawfulTools(x) && Sound(x, w) && EnvsOk(envs)
    requires ValidateAll(x, capability, items, now).Some? ==> RoomFor(x, w.ledger, ValidateAll(x, capability, items, now).value)
    ensures var r := Sync(x, w, conversation, capability, items, now, envs);
            && Live(x, r.world)
            && ((exists i :: 0 <= i < |items| && Validate(x, capability, items[i], now).None?) ==> r == Synced(w, None))
            && (r.acked.Some? <==>
                  && ValidateAll(x, capability, items, now).Some?
                  && NeverHalts(x, w, conversation, ValidateAll(x, capability, items, now).value, envs))
            && (r.acked.Some? ==>
                  && Sound(x, r.world) && r.acked.value == ItemIds(items)
                  && forall i :: 0 <= i < |items| ==>
                       Validate(x, capability, items[i], now).Some?
                       && Handled(r.world.ledger, Validate(x, capability, items[i], now).value.digest))
  {
    hide Settled, Live, ProcessSync, Validate, ValidateAll, RoomFor, LawfulTools, EnvOk, SyncState, DisksState, SyncDisks, Handled,
         NeverHalts;
    ValidatedItems(x, capability, items, now);
    var valid := ValidateAll(x, capability, items, now);
    if valid.Some? {
      var ds := valid.value;
      SyncFold(x, w, conversation, ds, envs);
      SyncGetsThrough(x, w, conversation, ds, envs);
      var p := ProcessSync(x, w, conversation, ds, envs);
      HandledIn(x, w, conversation, ds[..|p.acked|], p.world, p.committed);
      assert ds[..|ds|] == ds;
    }
  }

  lemma HandledIn(x: Tools, w: World, conversation: Text, done: seq<Delivery>, now: World, committed: seq<Delivery>)
    requires SyncState(x, w, conversation, done, now, committed)
    ensures Live(x, now) && forall i :: 0 <= i < |done| ==> Handled(now.ledger, done[i].digest)
  {
    hide Live, DurableGroup, Handled, IsDecrypted, Folded, Remembers, New, MarkAll;
    assert forall i :: 0 <= i < |done| ==> done[i] in done;
  }

  // No item stops the run, each told before its turn: it is handled already or can be committed.
  ghost predicate NeverHalts(x: Tools, w: World, conversation: Text, ds: seq<Delivery>, envs: nat -> ItemEnv) {
    forall n :: 0 <= n < |ds| ==>
      var before := ProcessSync(x, w, conversation, ds[..n], envs).world;
      Handled(before.ledger, ds[n].digest) || CanCommit(x, before, conversation, ds[n], envs(n))
  }

  // A run gets through exactly then.
  lemma {:induction false} SyncGetsThrough(x: Tools, w: World, conversation: Text, ds: seq<Delivery>, envs: nat -> ItemEnv)
    requires LawfulTools(x) && Sound(x, w) && EnvsOk(envs) && DeliveriesOk(ds) && RoomFor(x, w.ledger, ds)
    ensures ProcessSync(x, w, conversation, ds, envs).stopped.None? <==> NeverHalts(x, w, conversation, ds, envs)
  {
    hide Sound, Deliver, Handled, EnvsOk, DeliveriesOk, RoomFor, LedgerFits, SyncState, MarkAll, DisksState, LawfulTools, CanCommit,
         ProcessSync, NeverHalts, SyncDisks, DeliveryIds;
    if ds == [] {
      NothingHalts(x, w, conversation, envs);
    } else {
      var front, d := ds[..|ds| - 1], ds[|ds| - 1];
      assert ds == front + [d] && front[..|front|] == front;
      OneItemMore(x, w, conversation, front, d, envs);
      SyncGetsThrough(x, w, conversation, front, envs);
      SyncFold(x, w, conversation, front, envs);
      NeverHaltsGrows(x, w, conversation, front, d, envs);
      var p := ProcessSync(x, w, conversation, front, envs);
      if p.stopped.None? {
        RecordedIn(x, w, conversation, front, p.world, p.committed);
        NextFits(x, w.ledger, front, d);
        CommitsUnlessHandled(x, p.world, conversation, d, envs(|front|));
      }
    }
  }

  lemma NothingHalts(x: Tools, w: World, conversation: Text, envs: nat -> ItemEnv)
    ensures ProcessSync(x, w, conversation, [], envs).stopped.None? && NeverHalts(x, w, conversation, [], envs)
  {}

  lemma OneItemMore(x: Tools, w: World, conversation: Text, front: seq<Delivery>, d: Delivery, envs: nat -> ItemEnv)
    requires DeliveriesOk(front + [d]) && RoomFor(x, w.ledger, front + [d]) && EnvsOk(envs)
    ensures DeliveriesOk(front) && DeliveryOk(d) && EnvOk(envs(|front|))
    ensures RoomFor(x, w.ledger, front) && LedgerFits(x, MarkAll(w.ledger, front + [d]))
    ensures var p := ProcessSync(x, w, conversation, front, envs);
            ProcessSync(x, w, conversation, front + [d], envs).stopped.None? <==>
              && p.stopped.None?
              && (Handled(p.world.ledger, d.digest) || Deliver(x, p.world, conversation, d, envs(|front|), true).outcome.Committed?)
  {
    hide Deliver, Handled, DeliveryOk, EnvOk, LedgerFits, MarkAll;
    var all := front + [d];
    assert all[..|front|] == front && all[..|all|] == all && all[|front|] == d;
    forall k | 0 <= k <= |front| ensures all[..k] == front[..k] {}
    forall i | 0 <= i < |front| ensures all[i] == front[i] {}
  }

  lemma CommitsUnlessHandled(x: Tools, w: World, conversation: Text, d: Delivery, env: ItemEnv)
    requires LawfulTools(x) && Settled(x.vault, w.store) && EnvOk(env) && DeliveryOk(d)
    requires !Handled(w.ledger, d.digest) && Marked(w.ledger, d).Some? ==> LedgerFits(x, Marked(w.ledger, d).value)
    ensures !Handled(w.ledger, d.digest) ==>
              (Deliver(x, w, conversation, d, env, true).outcome.Committed? <==> CanCommit(x, w, conversation, d, env))
  {
    hide Deliver, Handled, EnvOk, DeliveryOk, LedgerFits, LawfulTools, CanCommit, Settled, Marked;
    if !Handled(w.ledger, d.digest) {
      CommitsExactly(x, w, conversation, d, env, true);
    }
  }

  lemma NextFits(x: Tools, l: L.Ledger, front: seq<Delivery>, d: Delivery)
    requires LedgerFits(x, MarkAll(l, front + [d]))
    ensures var marked := MarkAll(l, front);
            !Handled(marked, d.digest) && Marked(marked, d).Some? ==> LedgerFits(x, Marked(marked, d).value)
  {
    hide Handled, Marked, LedgerFits;
    assert (front + [d])[..|front|] == front;
  }

  lemma NeverHaltsGrows(x: Tools, w: World, conversation: Text, front: seq<Delivery>, d: Delivery, envs: nat -> ItemEnv)
    ensures NeverHalts(x, w, conversation, front + [d], envs) <==>
              && NeverHalts(x, w, conversation, front, envs)
              && var before := ProcessSync(x, w, conversation, front, envs).world;
              (Handled(before.ledger, d.digest) || CanCommit(x, before, conversation, d, envs(|front|)))
  {
    hide ProcessSync, Handled, CanCommit;
    var all := front + [d];
    assert all[..|front|] == front && all[|front|] == d;
    forall k | 0 <= k < |front| ensures all[..k] == front[..k] && all[k] == front[k] {}
  }

  // The records of the messages a run commits, in order.
  function StagedBy(x: Tools, w: World, conversation: Text, ds: seq<Delivery>, envs: nat -> ItemEnv): seq<Mutation> {
    if ds == [] then []
    else
      var front, d := ds[..|ds| - 1], ds[|ds| - 1];
      var p := ProcessSync(x, w, conversation, front, envs);
      StagedBy(x, w, conversation, front, envs)
      + if |ProcessSync(x, w, conversation, ds, envs).committed| == |p.committed| then []
        else StagedFor(x, p.world, conversation, d, envs(|front|))
  }

  // A run stores exactly these beside the checkpoint and the ledger, and touches nothing else.
  lemma {:induction false} SyncStores(x: Tools, w: World, conversation: Text, ds: seq<Delivery>, envs: nat -> ItemEnv)
    requires LawfulTools(x) && Sound(x, w) && EnvsOk(envs) && DeliveriesOk(ds) && RoomFor(x, w.ledger, ds)
    ensures SameApart(ProcessSync(x, w, conversation, ds, envs).world.store.records,
                      ApplyAll(w.store.records, StagedBy(x, w, conversation, ds, envs)), conversation)
  {
    hide Sound, Deliver, Handled, EnvsOk, DeliveriesOk, RoomFor, LedgerFits, SyncState, MarkAll, DisksState, LawfulTools, ApplyAll,
         SyncDisks, StagedFor, SameApart, DeliveryIds;
    if ds == [] {
      StoresNothing(w.store.records, conversation);
    } else {
      var front, d := ds[..|ds| - 1], ds[|ds| - 1];
      assert ds == front + [d] && front[..|front|] == front;
      OneItemMore(x, w, conversation, front, d, envs);
      SyncStores(x, w, conversation, front, envs);
      var p := ProcessSync(x, w, conversation, front, envs);
      var before := StagedBy(x, w, conversation, front, envs);
      assert before + [] == before;
      if p.stopped.None? && !Handled(p.world.ledger, d.digest) {
        SyncFold(x, w, conversation, front, envs);
        RecordedIn(x, w, conversation, front, p.world, p.committed);
        NextFits(x, w.ledger, front, d);
        DeliverStores(x, p.world, conversation, d, envs(|front|));
        StoresMore(w.store.records, p.world.store.records, before, Deliver(x, p.world, conversation, d, envs(|front|), true).world.store.records,
                   StagedFor(x, p.world, conversation, d, envs(|front|)), conversation);
      }
    }
  }

  lemma StoresNothing(records: Records, conversation: Text)
    ensures SameApart(records, ApplyAll(records, []), conversation)
  {}

  lemma StoresMore(start: Records, now: Records, before: seq<Mutation>, after: Records, staged: seq<Mutation>, conversation: Text)
    requires SameApart(now, ApplyAll(start, before), conversation)
    ensures SameApart(after, ApplyAll(now, staged), conversation) ==> SameApart(after, ApplyAll(start, before + staged), conversation)
  {
    hide ApplyAll, CheckpointId, LEDGER_ID;
    BatchJoins(start, before, staged);
    if SameApart(after, ApplyAll(now, staged), conversation) {
      forall id | id != CheckpointId(conversation) && id != LEDGER_ID ensures SameAt(after, ApplyAll(start, before + staged), id) {
        assert SameAt(after, ApplyAll(now, staged), id);
        SameAfter(now, ApplyAll(start, before), staged, id);
      }
    }
  }

  lemma DeliverStores(x: Tools, w: World, conversation: Text, d: Delivery, env: ItemEnv)
    requires LawfulTools(x) && Settled(x.vault, w.store) && Live(x, w) && EnvOk(env) && DeliveryOk(d)
    requires Marked(w.ledger, d).Some? ==> LedgerFits(x, Marked(w.ledger, d).value)
    ensures var r := Deliver(x, w, conversation, d, env, true);
            && (r.outcome.Committed? ==>
                  SameApart(r.world.store.records, ApplyAll(w.store.records, StagedFor(x, w, conversation, d, env)), conversation))
            && (r.outcome.Stopped? ==> r.world.store.records == w.store.records)
  {
    hide Settled, Live, Deliver, DeliverDisks, Marked, EnvOk, LedgerFits, SameApart, StagedFor, ApplyAll, Remembers, Advances, BeforeOrAfter;
    DeliverStep(x, w, conversation, d, env, true);
  }

  // ---- running it again ----

  lemma {:induction false} Rerun(x: Tools, w: World, conversation: Text, ds: seq<Delivery>, envs: nat -> ItemEnv)
    requires forall i :: 0 <= i < |ds| ==> Handled(w.ledger, ds[i].digest)
    ensures ProcessSync(x, w, conversation, ds, envs) == Progress(w, DeliveryIds(ds), [], None)
  {
    hide Deliver, Handled;
    if ds != [] {
      Rerun(x, w, conversation, ds[..|ds| - 1], envs);
      assert DeliveryIds(ds) == DeliveryIds(ds[..|ds| - 1]) + [ds[|ds| - 1].id];
    }
  }

  predicate Readable(x: Tools, item: RelayItem, now: U64) {
    ENVELOPE_PREFIX <= item.envelope && E.FromWire(x.envelopes, item.envelope[|ENVELOPE_PREFIX|..], now).Ok?
  }

  // Validation depends on the time only through the expiry date.
  lemma ValidateLater(x: Tools, capability: Text, item: RelayItem, now: U64, later: U64)
    requires Validate(x, capability, item, now).Some? && Readable(x, item, later)
    ensures Validate(x, capability, item, later) == Validate(x, capability, item, now)
  {
    hide DecodeHex, Hex, E.ToWire, E.ValidMailbox;
  }

  // Items whose digests are handled change nothing, every id is acknowledged, and MLS is not
  // consulted: the outcome is the same whatever it would answer.
  lemma HandledIsIdle(x: Tools, w: World, conversation: Text, capability: Text, items: seq<RelayItem>, now: U64, envs: nat -> ItemEnv,
                      mls: Mls)
    requires LawfulTools(x) && Sessions.Lawful(mls)
    requires forall i :: 0 <= i < |items| ==>
               var d := Validate(x, capability, items[i], now); d.Some? && Handled(w.ledger, d.value.digest)
    ensures Sync(x.(mls := mls), w, conversation, capability, items, now, envs) == Synced(w, Some(ItemIds(items)))
  {
    hide ProcessSync, Validate, ValidateAll, Handled, Sessions.Lawful;
    var y := x.(mls := mls);
    forall i | 0 <= i < |items| ensures Validate(y, capability, items[i], now) == Validate(x, capability, items[i], now) {
      ValidateIgnoresMls(x, mls, capability, items[i], now);
    }
    ValidatedItems(y, capability, items, now);
    var ds := ValidateAll(y, capability, items, now).value;
    Rerun(y, w, conversation, ds, envs);
    assert DeliveryIds(ds) == ItemIds(items);
  }

  predicate Among(item: RelayItem, items: seq<RelayItem>, n: nat) {
    exists k :: 0 <= k < n && k < |items| && items[k] == item
  }

  // After a call, whether it succeeded or stopped, any selection of the items it had dealt with, in
  // any order and with repeats, can be processed again while still in date, to no effect.
  lemma RerunIsIdle(x: Tools, w: World, conversation: Text, capability: Text, items: seq<RelayItem>, now: U64, envs: nat -> ItemEnv,
                    mls: Mls, again: seq<RelayItem>, later: U64, laterEnvs: nat -> ItemEnv)
    requires LawfulTools(x) && Sound(x, w) && EnvsOk(envs) && Sessions.Lawful(mls)
    requires var valid := ValidateAll(x, capability, items, now);
             && valid.Some? && |valid.value| == |items| && RoomFor(x, w.ledger, valid.value)
             && var done := |ProcessSync(x, w, conversation, valid.value, envs).acked|;
             forall i :: 0 <= i < |again| ==>
               Readable(x, again[i], later) && Among(again[i], items, done)
    ensures var after := Sync(x, w, conversation, capability, items, now, envs).world;
            Sync(x.(mls := mls), after, conversation, capability, again, later, laterEnvs) == Synced(after, Some(ItemIds(again)))
  {
    hide Settled, Live, ProcessSync, Validate, ValidateAll, RoomFor, EnvOk, Handled, Readable, Sessions.Lawful, SyncState, DisksState;
    ValidatedItems(x, capability, items, now);
    var ds := ValidateAll(x, capability, items, now).value;
    SyncFold(x, w, conversation, ds, envs);
    var p := ProcessSync(x, w, conversation, ds, envs);
    HandledIn(x, w, conversation, ds[..|p.acked|], p.world, p.committed);
    forall i | 0 <= i < |again|
      ensures var d := Validate(x, capability, again[i], later); d.Some? && Handled(p.world.ledger, d.value.digest)
    {
      assert Readable(x, again[i], later) && Among(again[i], items, |p.acked|);
      var k :| 0 <= k < |p.acked| && k < |items| && items[k] == again[i];
      assert Some(ds[k]) == Validate(x, capability, items[k], now) && Handled(p.world.ledger, ds[..|p.acked|][k].digest);
      ValidateLater(x, capability, again[i], now, later);
    }
    HandledIsIdle(x, p.world, conversation, capability, again, later, laterEnvs, mls);
  }

  lemma ValidateIgnoresMls(x: Tools, mls: Mls, capability: Text, item: RelayItem, now: U64)
    ensures Validate(x.(mls := mls), capability, item, now) == Validate(x, capability, item, now)
  {
    hide E.FromWire, E.ToWire, Hex;
  }
}
