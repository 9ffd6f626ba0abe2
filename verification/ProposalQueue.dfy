/**
 The queue of pending MLS proposals, kept in the flat record store as one list of
 references per group plus one body per reference.
 */
module ProposalQueue {
  import opened Prelude
  import opened Text
  import opened RecordCodec
  import opened StoreFile
  import opened StoreProtocol
  import Aead

  // SHA-256, and serde_json on the reference list.
  datatype Tools = Tools(sha: Bytes -> Bytes, writeRefs: seq<Text> -> Bytes, readRefs: Bytes -> Option<seq<Text>>)

  ghost predicate Lawful(t: Tools) {
    && (forall b :: |t.sha(b)| == 32)
    && (forall refs :: t.readRefs(t.writeRefs(refs)) == Some(refs))
  }

  // ---- keys: "mls/v1/{group}/{item}" ----

  const PREFIX: Bytes := Ascii("mls/v1/")
  const SLASH: Byte := 47

  function KeyOf(group: Text, item: Text): RecordId {
    RecordId(ProtocolSession, PREFIX + group + [SLASH] + item)
  }

  const REFS_ITEM: Bytes := Ascii("proposal-refs")
  const BODY_ITEM: Bytes := Ascii("proposal/")

  function RefsId(group: Text): RecordId { KeyOf(group, REFS_ITEM) }

  function BodyId(group: Text, reference: Text): RecordId { KeyOf(group, BODY_ITEM + reference) }

  predicate SlashFree(group: Text) { SLASH !in group }

  // Distinct items of a group, and items of distinct slash-free groups, have distinct keys.
  lemma KeysApart(g: Text, x: Text, h: Text, y: Text)
    requires SlashFree(g) && SlashFree(h) && KeyOf(g, x) == KeyOf(h, y)
    ensures g == h && x == y
  {
    var n := |PREFIX|;
    assert PREFIX + g + [SLASH] + x == PREFIX + (g + [SLASH] + x);
    assert PREFIX + h + [SLASH] + y == PREFIX + (h + [SLASH] + y);
    assert (PREFIX + (g + [SLASH] + x))[n..] == g + [SLASH] + x;
    assert (PREFIX + (h + [SLASH] + y))[n..] == h + [SLASH] + y;
    SplitAtSlash(g, x, h, y);
  }

  lemma SplitAtSlash(g: Text, x: Text, h: Text, y: Text)
    requires SlashFree(g) && SlashFree(h) && g + [SLASH] + x == h + [SLASH] + y
    ensures g == h && x == y
  {
    var s := g + [SLASH] + x;
    assert s[|g|] == SLASH && s[|h|] == SLASH;
    assert forall i :: 0 <= i < |g| ==> s[i] == g[i] && g[i] in g;
    assert forall i :: 0 <= i < |h| ==> s[i] == h[i] && h[i] in h;
    assert |g| == |h|;
    assert g == s[..|g|] && h == s[..|h|];
    assert x == s[|g| + 1..] && y == s[|h| + 1..];
  }

  lemma ItemsApart(reference: Text)
    ensures REFS_ITEM != BODY_ITEM + reference
    ensures forall other :: BODY_ITEM + reference == BODY_ITEM + other ==> reference == other
  {
    assert REFS_ITEM[8] == 45;
    assert BODY_ITEM[8] == 47;
    assert (BODY_ITEM + reference)[8] == 47;
    forall other | BODY_ITEM + reference == BODY_ITEM + other ensures reference == other {
      assert (BODY_ITEM + reference)[9..] == reference && (BODY_ITEM + other)[9..] == other;
    }
  }

  // ---- the stored queue and the ordered map it stands for ----

  function Refs(t: Tools, records: Records, group: Text): seq<Text> {
    if RefsId(group) !in records || |records[RefsId(group)]| > MAX_VALUE_BYTES then []
    else
      match t.readRefs(records[RefsId(group)])
      case None => []
      case Some(refs) => refs
  }

  // References are distinct and a body exists exactly for each of them.
  ghost predicate QueueOk(t: Tools, records: Records, group: Text) {
    && Distinct(Refs(t, records, group))
    && forall r {:trigger BodyId(group, r)} :: BodyId(group, r) in records <==> r in Refs(t, records, group)
  }

  datatype Proposal = Proposal(reference: Text, body: Bytes)

  function Listing(records: Records, group: Text, refs: seq<Text>): (q: seq<Proposal>)
    ensures |q| == |refs|
  {
    seq(|refs|, i requires 0 <= i < |refs| =>
      Proposal(refs[i], if BodyId(group, refs[i]) in records then records[BodyId(group, refs[i])] else []))
  }

  // The group's proposals, oldest first.
  function Queue(t: Tools, records: Records, group: Text): seq<Proposal> {
    Listing(records, group, Refs(t, records, group))
  }

  // Only the refs and body records of a group matter to it.
  lemma QueueFrame(t: Tools, a: Records, b: Records, group: Text)
    requires QueueOk(t, a, group)
    requires RefsId(group) in a <==> RefsId(group) in b
    requires RefsId(group) in a ==> a[RefsId(group)] == b[RefsId(group)]
    requires forall r {:trigger BodyId(group, r)} :: BodyId(group, r) in a <==> BodyId(group, r) in b
    requires forall r {:trigger BodyId(group, r)} :: BodyId(group, r) in a ==> a[BodyId(group, r)] == b[BodyId(group, r)]
    ensures QueueOk(t, b, group) && Queue(t, b, group) == Queue(t, a, group)
  {
    hide KeyOf, RefsId, BodyId;
    assert Refs(t, b, group) == Refs(t, a, group);
  }

  // ---- the operations ----

  function RefOf(t: Tools, proposalRef: Bytes): Text { Hex(t.sha(proposalRef)) }

  datatype QueueOp = Enqueue(proposalRef: Bytes, body: Bytes) | Remove(proposalRef: Bytes) | Clear

  // What an operation does before it commits: nothing, give up on the list size, or one batch.
  datatype Plan = Nothing | ListTooLarge | Write(mutations: seq<Mutation>)

  function Without(refs: seq<Text>, reference: Text): seq<Text> {
    if refs == [] then []
    else if refs[|refs| - 1] == reference then Without(refs[..|refs| - 1], reference)
    else Without(refs[..|refs| - 1], reference) + [refs[|refs| - 1]]
  }

  function BodyDeletes(group: Text, refs: seq<Text>): (ms: seq<Mutation>)
    ensures |ms| == |refs|
  {
    seq(|refs|, i requires 0 <= i < |refs| => Delete(BodyId(group, refs[i])))
  }

  // queue_proposal, remove_proposal and clear_proposals.
  function PlanOf(t: Tools, records: Records, group: Text, op: QueueOp): Plan {
    var refs := Refs(t, records, group);
    match op
    case Enqueue(proposalRef, body) =>
      var reference := RefOf(t, proposalRef);
      var list := t.writeRefs(refs + [reference]);
      if reference in refs then Nothing
      else if |list| > MAX_VALUE_BYTES then ListTooLarge
      else Write([Put(RefsId(group), list), Put(BodyId(group, reference), body)])
    case Remove(proposalRef) =>
      var reference := RefOf(t, proposalRef);
      var list := t.writeRefs(Without(refs, reference));
      if |list| > MAX_VALUE_BYTES then ListTooLarge
      else Write([Put(RefsId(group), list), Delete(BodyId(group, reference))])
    case Clear => Write([Delete(RefsId(group))] + BodyDeletes(group, refs))
  }

  function Perform(t: Tools, v: Vault, s: StoreState, group: Text, op: QueueOp, env: CommitEnv): Step<bool> {
    var visible := if s.locked then map[] else s.records;
    match PlanOf(t, visible, group, op)
    case Nothing => Step(s, Ok(true))
    case ListTooLarge => Step(s, Err(RecordTooLarge))
    case Write(ms) => Apply(v, s, Batch(ms), env)
  }

  // ---- limits on group ids ----

  // A slash-free string without control bytes, short enough for the longest key built from it.
  predicate GroupOk(group: Text) {
    SlashFree(group) && Utf8(group) && |group| <= MAX_KEY_BYTES - 81 && NoControl(group)
  }

  predicate NoControl(t: Text) {
    forall i :: 0 <= i < |t| ==> 32 <= t[i] && t[i] != 127
  }

  lemma KeyOk(group: Text, item: Text)
    requires GroupOk(group) && |item| <= 73 && PlainText(item)
    ensures ValidKey(KeyOf(group, item).key)
  {
    hide Utf8, Ascii;
    PrefixPlain();
    AsciiIsUtf8(PREFIX);
    AsciiIsUtf8([SLASH]);
    AsciiIsUtf8(item);
    Utf8Joins(PREFIX, group);
    Utf8Joins(PREFIX + group, [SLASH]);
    Utf8Joins(PREFIX + group + [SLASH], item);
  }

  // A group is acceptable exactly when the body key of a digest-sized reference is a valid key.
  lemma GroupOkExact(group: Text, reference: Text)
    requires SlashFree(group) && Utf8(group) && |reference| == 64 && PlainText(reference)
    ensures GroupOk(group) <==> ValidKey(BodyId(group, reference).key)
  {
    hide Utf8, ValidKey;
    if GroupOk(group) {
      BodyKeyOk(group, reference);
    }
    ValidKeyShape(group, reference);
  }

  lemma ValidKeyShape(group: Text, reference: Text)
    requires |reference| == 64
    ensures ValidKey(BodyId(group, reference).key) ==> |group| <= MAX_KEY_BYTES - 81 && NoControl(group)
  {
    hide Utf8, Ascii;
    var key := BodyId(group, reference).key;
    assert |PREFIX| == 7 && |BODY_ITEM| == 9 && |key| == |group| + 81;
    assert forall i :: 0 <= i < |group| ==> key[7 + i] == group[i];
  }

  lemma PrefixPlain()
    ensures |PREFIX| == 7 && PlainText(PREFIX) && PlainText([SLASH])
  {
    assert PREFIX == [109, 108, 115, 47, 118, 49, 47];
  }

  lemma QueueKeysOk(t: Tools, group: Text, proposalRef: Bytes)
    requires Lawful(t) && GroupOk(group)
    ensures ValidKey(RefsId(group).key) && ValidKey(BodyId(group, RefOf(t, proposalRef)).key)
  {
    hide ValidKey, Hex, GroupOk;
    assert REFS_ITEM == [112, 114, 111, 112, 111, 115, 97, 108, 45, 114, 101, 102, 115];
    KeyOk(group, REFS_ITEM);
    HexIsPlain(t.sha(proposalRef));
    BodyKeyOk(group, RefOf(t, proposalRef));
  }

  // ---- what a staged batch does to the queues ----

  // Bodies of a group never collide with its reference list or with each other.
  lemma BodiesApart(group: Text)
    requires SlashFree(group)
    ensures forall r {:trigger BodyId(group, r)} :: BodyId(group, r) != RefsId(group)
    ensures forall r, q {:trigger BodyId(group, r), BodyId(group, q)} :: BodyId(group, r) == BodyId(group, q) ==> r == q
  {
    forall r {:trigger BodyId(group, r)} ensures BodyId(group, r) != RefsId(group) {
      ItemsApart(r);
      if BodyId(group, r) == RefsId(group) {
        KeysApart(group, BODY_ITEM + r, group, REFS_ITEM);
      }
    }
    forall r, q {:trigger BodyId(group, r), BodyId(group, q)} | BodyId(group, r) == BodyId(group, q) ensures r == q {
      KeysApart(group, BODY_ITEM + r, group, BODY_ITEM + q);
      ItemsApart(r);
    }
  }

  lemma StagedQueue(t: Tools, records: Records, group: Text, reference: Text, body: Bytes)
    requires Lawful(t) && SlashFree(group) && QueueOk(t, records, group)
    requires reference !in Refs(t, records, group)
    requires |t.writeRefs(Refs(t, records, group) + [reference])| <= MAX_VALUE_BYTES
    ensures var staged := records[RefsId(group) := t.writeRefs(Refs(t, records, group) + [reference])][BodyId(group, reference) := body];
            QueueOk(t, staged, group) && Queue(t, staged, group) == Queue(t, records, group) + [Proposal(reference, body)]
  {
    hide KeyOf, RefsId, BodyId;
    var refs := Refs(t, records, group);
    var staged := records[RefsId(group) := t.writeRefs(refs + [reference])][BodyId(group, reference) := body];
    BodiesApart(group);
    assert Refs(t, staged, group) == refs + [reference];
    forall r {:trigger BodyId(group, r)} ensures BodyId(group, r) in staged <==> r in refs + [reference] {}
  }

  function Dropped(q: seq<Proposal>, reference: Text): seq<Proposal> {
    if q == [] then []
    else if q[|q| - 1].reference == reference then Dropped(q[..|q| - 1], reference)
    else Dropped(q[..|q| - 1], reference) + [q[|q| - 1]]
  }

  lemma {:induction false} WithoutContents(refs: seq<Text>, reference: Text)
    ensures forall r :: r in Without(refs, reference) <==> r in refs && r != reference
    ensures Distinct(refs) ==> Distinct(Without(refs, reference))
  {
    if refs != [] {
      var front, last := refs[..|refs| - 1], refs[|refs| - 1];
      WithoutContents(front, reference);
      assert refs == front + [last];
      if Distinct(refs) {
        assert Distinct(front) && last !in front;
      }
    }
  }

  lemma {:induction false} ListingWithout(records: Records, staged: Records, group: Text, refs: seq<Text>, reference: Text)
    requires forall r {:trigger BodyId(group, r)} :: r != reference ==>
               (BodyId(group, r) in records <==> BodyId(group, r) in staged)
               && (BodyId(group, r) in records ==> records[BodyId(group, r)] == staged[BodyId(group, r)])
    ensures Listing(staged, group, Without(refs, reference)) == Dropped(Listing(records, group, refs), reference)
  {
    hide BodyId;
    if refs != [] {
      var front := refs[..|refs| - 1];
      ListingWithout(records, staged, group, front, reference);
      assert Listing(records, group, refs)[..|refs| - 1] == Listing(records, group, front);
    }
  }

  lemma StagedRemove(t: Tools, records: Records, group: Text, reference: Text)
    requires Lawful(t) && SlashFree(group) && QueueOk(t, records, group)
    requires |t.writeRefs(Without(Refs(t, records, group), reference))| <= MAX_VALUE_BYTES
    ensures var staged := records[RefsId(group) := t.writeRefs(Without(Refs(t, records, group), reference))] - {BodyId(group, reference)};
            QueueOk(t, staged, group) && Queue(t, staged, group) == Dropped(Queue(t, records, group), reference)
  {
    hide KeyOf, RefsId, BodyId, Without;
    var refs := Refs(t, records, group);
    var staged := records[RefsId(group) := t.writeRefs(Without(refs, reference))] - {BodyId(group, reference)};
    BodiesApart(group);
    WithoutContents(refs, reference);
    assert Refs(t, staged, group) == Without(refs, reference);
    ListingWithout(records, staged, group, refs, reference);
  }

  // A batch of deletes removes exactly the ids it lists.
  lemma {:induction false} DeleteBatch(records: Records, ms: seq<Mutation>)
    requires forall i :: 0 <= i < |ms| ==> ms[i].Delete?
    ensures ApplyAll(records, ms) == records - (set m | m in ms :: m.id)
  {
    if ms != [] {
      var front, last := ms[..|ms| - 1], ms[|ms| - 1];
      DeleteBatch(records, front);
      assert ms == front + [last];
      assert (set m | m in ms :: m.id) == (set m | m in front :: m.id) + {last.id};
    }
  }

  lemma StagedClear(t: Tools, records: Records, group: Text)
    requires SlashFree(group) && QueueOk(t, records, group)
    ensures var staged := ApplyAll(records, [Delete(RefsId(group))] + BodyDeletes(group, Refs(t, records, group)));
            QueueOk(t, staged, group) && Queue(t, staged, group) == []
  {
    hide KeyOf, RefsId, BodyId, ApplyAll;
    var refs := Refs(t, records, group);
    var ms := [Delete(RefsId(group))] + BodyDeletes(group, refs);
    DeleteBatch(records, ms);
    var staged := ApplyAll(records, ms);
    assert ms[0] in ms && ms[0].id == RefsId(group);
    assert Refs(t, staged, group) == [];
    forall r {:trigger BodyId(group, r)} ensures BodyId(group, r) !in staged {
      if r in refs {
        var i :| 0 <= i < |refs| && refs[i] == r;
        assert ms[i + 1] in ms && ms[i + 1].id == BodyId(group, r);
      }
    }
  }

  // ---- other groups ----

  ghost predicate TouchesOnly(ms: seq<Mutation>, group: Text) {
    forall i :: 0 <= i < |ms| ==> InGroup(ms[i].id, group)
  }

  ghost predicate InGroup(id: RecordId, group: Text) {
    exists item :: id == KeyOf(group, item)
  }

  lemma GroupBatchFrame(t: Tools, records: Records, ms: seq<Mutation>, group: Text, other: Text)
    requires TouchesOnly(ms, group) && SlashFree(group) && SlashFree(other) && other != group
    requires QueueOk(t, records, other)
    ensures QueueOk(t, ApplyAll(records, ms), other) && Queue(t, ApplyAll(records, ms), other) == Queue(t, records, other)
  {
    hide ApplyAll, QueueOk, Queue;
    forall item {:trigger KeyOf(other, item)}
      ensures KeyOf(other, item) in ApplyAll(records, ms) <==> KeyOf(other, item) in records
      ensures KeyOf(other, item) in records ==> ApplyAll(records, ms)[KeyOf(other, item)] == records[KeyOf(other, item)]
    {
      forall i | 0 <= i < |ms| ensures ms[i].id != KeyOf(other, item) {
        var x :| ms[i].id == KeyOf(group, x);
        if KeyOf(group, x) == KeyOf(other, item) {
          KeysApart(group, x, other, item);
        }
      }
      BatchFrame(records, ms, KeyOf(other, item));
    }
    QueueFrame(t, records, ApplyAll(records, ms), other);
  }

  // ---- the refinement: an insertion-ordered map per group ----

  // The queue an operation stands for, on an insertion-ordered map.
  function Intended(t: Tools, q: seq<Proposal>, op: QueueOp): seq<Proposal> {
    match op
    case Enqueue(proposalRef, body) =>
      var reference := RefOf(t, proposalRef);
      if exists i :: 0 <= i < |q| && q[i].reference == reference then q else q + [Proposal(reference, body)]
    case Remove(proposalRef) => Dropped(q, RefOf(t, proposalRef))
    case Clear => []
  }

  lemma ListedExactly(records: Records, group: Text, refs: seq<Text>, reference: Text)
    ensures var q := Listing(records, group, refs);
            (exists i :: 0 <= i < |q| && q[i].reference == reference) <==> reference in refs
  {
    var q := Listing(records, group, refs);
    if reference in refs {
      var i :| 0 <= i < |refs| && refs[i] == reference;
      assert q[i].reference == reference;
    }
  }

  // Within the store's key and value limits.
  predicate WithinLimits(group: Text, op: QueueOp) {
    GroupOk(group) && (op.Enqueue? ==> |op.body| <= MAX_VALUE_BYTES)
  }

  lemma PlanIsOk(t: Tools, records: Records, group: Text, op: QueueOp)
    requires Lawful(t) && WithinLimits(group, op) && RecordsOk(records) && QueueOk(t, records, group)
    ensures PlanOf(t, records, group, op).Write? ==> BatchOk(PlanOf(t, records, group, op).mutations)
  {
    hide RefOf, Refs, KeyOf, RefsId, BodyId, PlainText, ValidKey, Without, GroupOk;
    if PlanOf(t, records, group, op).Write? {
      var refs := Refs(t, records, group);
      var ms := PlanOf(t, records, group, op).mutations;
      QueueKeysOk(t, group, if op.Clear? then [] else op.proposalRef);
      forall i | 0 <= i < |ms| ensures MutationOk(ms[i]) {
        if op.Clear? && i > 0 {
          assert ms[i] == Delete(BodyId(group, refs[i - 1])) && refs[i - 1] in refs;
          assert EntryOk(Entry(BodyId(group, refs[i - 1]), records[BodyId(group, refs[i - 1])]));
        }
      }
    }
  }

  lemma BodyKeyOk(group: Text, reference: Text)
    requires GroupOk(group) && |reference| <= 64 && PlainText(reference)
    ensures ValidKey(BodyId(group, reference).key)
  {
    hide ValidKey;
    assert BODY_ITEM == [112, 114, 111, 112, 111, 115, 97, 108, 47];
    KeyOk(group, BODY_ITEM + reference);
  }

  lemma PlanIsIntended(t: Tools, records: Records, group: Text, op: QueueOp)
    requires Lawful(t) && SlashFree(group) && QueueOk(t, records, group)
    ensures PlanOf(t, records, group, op).Nothing? ==> Intended(t, Queue(t, records, group), op) == Queue(t, records, group)
    ensures PlanOf(t, records, group, op).Write? ==>
              var staged := ApplyAll(records, PlanOf(t, records, group, op).mutations);
              QueueOk(t, staged, group) && Queue(t, staged, group) == Intended(t, Queue(t, records, group), op)
  {
    hide RefOf, Refs, QueueOk, Listing, KeyOf, RefsId, BodyId, ApplyAll, Without;
    if op.Enqueue? {
      ListedExactly(records, group, Refs(t, records, group), RefOf(t, op.proposalRef));
    }
    match PlanOf(t, records, group, op) {
      case Write(ms) =>
        match op {
          case Enqueue(proposalRef, body) =>
            BatchOfTwo(records, ms[0], ms[1]);
            StagedQueue(t, records, group, RefOf(t, proposalRef), body);
          case Remove(proposalRef) =>
            BatchOfTwo(records, ms[0], ms[1]);
            StagedRemove(t, records, group, RefOf(t, proposalRef));
          case Clear => StagedClear(t, records, group);
        }
      case _ =>
    }
  }

  // One operation in memory, whatever its commit does: success gives exactly the intended queue, with a
  // body for each reference and for no other; an error leaves every record as it was.
  lemma QueueStep(t: Tools, v: Vault, s: StoreState, group: Text, op: QueueOp, env: CommitEnv)
    requires Lawful(t)
    ensures RecordsOk(s.records) && !s.locked && WithinLimits(group, op) && QueueOk(t, s.records, group) ==>
              var step := Perform(t, v, s, group, op, env);
              && RecordsOk(step.state.records) && !step.state.locked && QueueOk(t, step.state.records, group)
              && (step.result.Err? ==> step.state.records == s.records)
              && (step.result.Ok? ==>
                    Queue(t, step.state.records, group) == Intended(t, Queue(t, s.records, group), op))
  {
    hide PlanOf, Intended, QueueOk, Queue, RecordsOk, BatchOk, Attempt, ApplyAll, WithinLimits;
    if !(RecordsOk(s.records) && !s.locked && WithinLimits(group, op) && QueueOk(t, s.records, group)) {
      return;
    }
    GroupIsSlashFree(group, op);
    PlanIsOk(t, s.records, group, op);
    PlanIsIntended(t, s.records, group, op);
    match PlanOf(t, s.records, group, op) {
      case Write(ms) =>
        AttemptRecords(v, s, ApplyAll(s.records, ms), env);
        BatchKeepsLimits(s.records, ms);
        WholeBatch(ms);
      case _ =>
    }
  }

  lemma GroupIsSlashFree(group: Text, op: QueueOp)
    requires WithinLimits(group, op)
    ensures SlashFree(group)
  {}

  lemma WholeBatch(ms: seq<Mutation>)
    ensures BatchOk(ms) <==> ValidPrefix(ms) == |ms|
  {
    hide MutationOk;
  }

  // The stored queue refines an insertion-ordered map, and from a settled store durably so.
  lemma QueueRefinesOrderedMap(t: Tools, v: Vault, s: StoreState, group: Text, op: QueueOp, env: CommitEnv)
    requires Lawful(t) && Aead.Lawful(v.aead)
    ensures Settled(v, s) && WithinLimits(group, op) && QueueOk(t, s.records, group) ==>
              var step := Perform(t, v, s, group, op, env);
              && QueueOk(t, step.state.records, group)
              && (step.result.Err? ==> step.state.records == s.records && (Settles(env) ==> step.state == s))
              && (step.result.Ok? ==>
                    && Settled(v, step.state)
                    && Queue(t, step.state.records, group) == Intended(t, Queue(t, s.records, group), op))
  {
    hide PlanOf, Intended, QueueOk, Queue, Settled, Settles, StoreProtocol.Apply, ApplyAll, RecordsOk, Open, WithinLimits, BatchOk;
    if Settled(v, s) && WithinLimits(group, op) && QueueOk(t, s.records, group) {
      SettledIsUnlocked(v, s);
      SettledIsOk(v, s);
      QueueStep(t, v, s, group, op, env);
      PlanIsOk(t, s.records, group, op);
      match PlanOf(t, s.records, group, op) {
        case Write(ms) => OperationIsAtomic(v, s, Event(Batch(ms), env));
        case _ =>
      }
    }
  }

  lemma SettledIsOk(v: Vault, s: StoreState)
    requires Settled(v, s)
    ensures RecordsOk(s.records)
  {
    hide Open, RecordsOk;
    OpenedWithinLimits(v.aead, v.key, s.disk);
  }

  // ---- when an operation succeeds ----

  // What records and limits must allow for an operation to go through. Queueing a listed reference is
  // always possible, and needs no write.
  predicate Allows(t: Tools, records: Records, group: Text, op: QueueOp) {
    var refs := Refs(t, records, group);
    match op
    case Enqueue(proposalRef, body) =>
      var reference := RefOf(t, proposalRef);
      || reference in refs
      || (&& |t.writeRefs(refs + [reference])| <= MAX_VALUE_BYTES && |body| <= MAX_VALUE_BYTES
          && ValidKey(RefsId(group).key) && ValidKey(BodyId(group, reference).key))
    case Remove(proposalRef) =>
      var reference := RefOf(t, proposalRef);
      && |t.writeRefs(Without(refs, reference))| <= MAX_VALUE_BYTES
      && ValidKey(RefsId(group).key) && ValidKey(BodyId(group, reference).key)
    case Clear => ValidKey(RefsId(group).key)
  }

  // Told before the call, on a settled store with this queue in order: an operation succeeds exactly when
  // it is allowed and, unless it writes nothing, there is room and a revision left and the commit's steps
  // work out.
  lemma QueueSucceeds(t: Tools, v: Vault, s: StoreState, group: Text, op: QueueOp, env: CommitEnv)
    requires Lawful(t)
    ensures Settled(v, s) && QueueOk(t, s.records, group) ==>
              var plan := PlanOf(t, s.records, group, op);
              && (Perform(t, v, s, group, op, env).result.Ok? <==>
                    && Allows(t, s.records, group, op)
                    && (plan.Write? ==>
                          |ApplyAll(s.records, plan.mutations)| <= MAX_RECORDS && s.revision < MAX_U64 && env.prepared && Succeeds(env)))
              && (plan.Nothing? <==> op.Enqueue? && RefOf(t, op.proposalRef) in Refs(t, s.records, group))
  {
    hide PlanOf, Allows, QueueOk, Settled, Apply, ApplyAll, RecordsOk, BatchOk, Succeeds, RefOf, Refs, MutationOk;
    if Settled(v, s) && QueueOk(t, s.records, group) {
      SettledIsUnlocked(v, s);
      SettledIsOk(v, s);
      AllowedPlans(t, s.records, group, op);
      match PlanOf(t, s.records, group, op) {
        case Write(ms) => OperationSucceeds(v, s, Batch(ms), env);
        case _ =>
      }
    }
  }

  lemma AllowedPlans(t: Tools, records: Records, group: Text, op: QueueOp)
    requires RecordsOk(records) && QueueOk(t, records, group)
    ensures var plan := PlanOf(t, records, group, op);
            && (Allows(t, records, group, op) <==> plan.Nothing? || (plan.Write? && BatchOk(plan.mutations)))
            && (plan.Nothing? <==> op.Enqueue? && RefOf(t, op.proposalRef) in Refs(t, records, group))
  {
    hide RefOf, Refs, RefsId, BodyId, ValidKey, Without, QueueOk;
    match PlanOf(t, records, group, op) {
      case Write(ms) =>
        if op.Clear? {
          assert ms[0] == Delete(RefsId(group));
          if MutationOk(ms[0]) {
            ListedBodiesValid(t, records, group);
          }
        } else {
          BatchOfTwo(records, ms[0], ms[1]);
        }
      case _ =>
    }
  }

  // ---- what breaks a queue ----

  // Told before the call: a new reference whose list can be stored, with a body that cannot, because
  // it is over the value limit or its key is not valid. The batch is refused at its second entry, and
  // the reference stays listed in memory without a body.
  predicate Breaks(t: Tools, records: Records, group: Text, op: QueueOp) {
    && op.Enqueue?
    && var reference := RefOf(t, op.proposalRef);
    && reference !in Refs(t, records, group)
    && |t.writeRefs(Refs(t, records, group) + [reference])| <= MAX_VALUE_BYTES
    && ValidKey(RefsId(group).key)
    && (|op.body| > MAX_VALUE_BYTES || !ValidKey(BodyId(group, reference).key))
  }

  // A queue in order stays in order, whatever the operation and whatever its commit does, exactly when
  // the operation is not a breaking one; then success gives the intended queue and an error the old one.
  lemma QueueExact(t: Tools, v: Vault, s: StoreState, group: Text, op: QueueOp, env: CommitEnv)
    requires Lawful(t)
    ensures SlashFree(group) && RecordsOk(s.records) && !s.locked && QueueOk(t, s.records, group) ==>
              var step := Perform(t, v, s, group, op, env);
              && RecordsOk(step.state.records) && !step.state.locked
              && (QueueOk(t, step.state.records, group) <==> !Breaks(t, s.records, group, op))
              && (!Breaks(t, s.records, group, op) ==>
                    Queue(t, step.state.records, group)
                    == if step.result.Ok? then Intended(t, Queue(t, s.records, group), op) else Queue(t, s.records, group))
  {
    hide PlanOf, Intended, QueueOk, Queue, RecordsOk, BatchOk, Attempt, ApplyAll, Breaks;
    if !(SlashFree(group) && RecordsOk(s.records) && !s.locked && QueueOk(t, s.records, group)) {
      return;
    }
    PlanIsIntended(t, s.records, group, op);
    BreaksOnlyRefused(t, s.records, group, op);
    match PlanOf(t, s.records, group, op) {
      case Write(ms) =>
        AttemptRecords(v, s, ApplyAll(s.records, ms), env);
        WholeBatch(ms);
        if BatchOk(ms) {
          BatchKeepsLimits(s.records, ms);
        } else {
          PrefixIsOk(ms);
          BatchKeepsLimits(s.records, ms[..ValidPrefix(ms)]);
          if Breaks(t, s.records, group, op) {
            BreakingEnqueue(t, s.records, group, op);
          } else {
            RefusedKeepsQueue(t, s.records, group, op);
          }
        }
      case _ =>
    }
  }

  lemma PrefixIsOk(ms: seq<Mutation>)
    ensures BatchOk(ms[..ValidPrefix(ms)])
  {
    hide MutationOk;
  }

  lemma BreaksOnlyRefused(t: Tools, records: Records, group: Text, op: QueueOp)
    ensures Breaks(t, records, group, op) ==>
              PlanOf(t, records, group, op).Write? && !BatchOk(PlanOf(t, records, group, op).mutations)
  {
    hide RefOf, Refs, RefsId, BodyId, ValidKey;
    if Breaks(t, records, group, op) {
      var ms := PlanOf(t, records, group, op).mutations;
      assert !MutationOk(ms[1]);
    }
  }

  lemma BreakingEnqueue(t: Tools, records: Records, group: Text, op: QueueOp)
    requires Lawful(t) && SlashFree(group) && QueueOk(t, records, group) && Breaks(t, records, group, op)
    ensures PlanOf(t, records, group, op).Write?
    ensures var ms := PlanOf(t, records, group, op).mutations;
            !QueueOk(t, ApplyAll(records, ms[..ValidPrefix(ms)]), group)
  {
    hide RefOf, KeyOf, RefsId, BodyId, ValidKey;
    var reference := RefOf(t, op.proposalRef);
    var list := t.writeRefs(Refs(t, records, group) + [reference]);
    var good, bad := Put(RefsId(group), list), Put(BodyId(group, reference), op.body);
    FirstOnly(records, good, bad);
    var after := records[RefsId(group) := list];
    BodiesApart(group);
    assert reference in Refs(t, after, group) && BodyId(group, reference) !in after;
  }

  lemma FirstOnly(records: Records, good: Mutation, bad: Mutation)
    requires MutationOk(good) && !MutationOk(bad)
    ensures ValidPrefix([good, bad]) == 1
    ensures ApplyAll(records, [good, bad][..1]) == ApplyMutation(records, good)
  {
    hide MutationOk;
    var ms := [good, bad];
    assert MutationOk(ms[0]) && !MutationOk(ms[1]);
    assert ms[..1] == [good] && [good][..0] == [];
    assert ApplyAll(records, [good]) == ApplyMutation(ApplyAll(records, []), good);
  }

  lemma NoneStaged(records: Records, ms: seq<Mutation>)
    requires ms != [] && !MutationOk(ms[0])
    ensures ValidPrefix(ms) == 0 && ApplyAll(records, ms[..0]) == records
  {
    hide MutationOk;
  }

  // Any other refused batch leaves the queue as it was.
  lemma RefusedKeepsQueue(t: Tools, records: Records, group: Text, op: QueueOp)
    requires Lawful(t) && SlashFree(group) && RecordsOk(records) && QueueOk(t, records, group) && !Breaks(t, records, group, op)
    requires PlanOf(t, records, group, op).Write? && !BatchOk(PlanOf(t, records, group, op).mutations)
    ensures var ms := PlanOf(t, records, group, op).mutations;
            var staged := ApplyAll(records, ms[..ValidPrefix(ms)]);
            QueueOk(t, staged, group) && Queue(t, staged, group) == Queue(t, records, group)
  {
    hide RefOf, Refs, KeyOf, RefsId, BodyId, ValidKey, Without, QueueOk, Queue, ApplyAll;
    var ms := PlanOf(t, records, group, op).mutations;
    if !MutationOk(ms[0]) {
      NoneStaged(records, ms);
    } else {
      match op {
        case Enqueue(proposalRef, body) =>
          BatchOfTwo(records, ms[0], ms[1]);
        case Remove(proposalRef) =>
          BatchOfTwo(records, ms[0], ms[1]);
          FirstOnly(records, ms[0], ms[1]);
          RemoveUnlisted(t, records, group, RefOf(t, proposalRef));
        case Clear =>
          ListedBodiesValid(t, records, group);
      }
    }
  }

  lemma ListedBodiesValid(t: Tools, records: Records, group: Text)
    requires RecordsOk(records) && QueueOk(t, records, group) && MutationOk(Delete(RefsId(group)))
    ensures BatchOk([Delete(RefsId(group))] + BodyDeletes(group, Refs(t, records, group)))
  {
    hide Refs, KeyOf, RefsId, BodyId, ValidKey;
    var refs := Refs(t, records, group);
    var ms := [Delete(RefsId(group))] + BodyDeletes(group, refs);
    forall i | 0 <= i < |ms| ensures MutationOk(ms[i]) {
      if i > 0 {
        assert ms[i] == Delete(BodyId(group, refs[i - 1])) && refs[i - 1] in refs;
        StoredKeyOk(records, BodyId(group, refs[i - 1]));
      }
    }
  }

  lemma StoredKeyOk(records: Records, id: RecordId)
    requires RecordsOk(records)
    ensures id in records ==> MutationOk(Delete(id))
  {
    hide ValidKey;
    if id in records {
      assert EntryOk(Entry(id, records[id]));
    }
  }

  // A reference whose body key is not valid cannot be listed, so removing it only rewrites the list.
  lemma RemoveUnlisted(t: Tools, records: Records, group: Text, reference: Text)
    requires Lawful(t) && SlashFree(group) && RecordsOk(records) && QueueOk(t, records, group)
    requires |t.writeRefs(Without(Refs(t, records, group), reference))| <= MAX_VALUE_BYTES
    requires !MutationOk(Delete(BodyId(group, reference)))
    ensures var staged := records[RefsId(group) := t.writeRefs(Without(Refs(t, records, group), reference))];
            QueueOk(t, staged, group) && Queue(t, staged, group) == Queue(t, records, group)
  {
    hide KeyOf, RefsId, BodyId, ValidKey, Without;
    var refs := Refs(t, records, group);
    var staged := records[RefsId(group) := t.writeRefs(Without(refs, reference))];
    StoredKeyOk(records, BodyId(group, reference));
    BodiesApart(group);
    assert staged - {BodyId(group, reference)} == staged;
    StagedRemove(t, records, group, reference);
    DropsNothing(records, group, refs, reference);
  }

  lemma {:induction false} DropsNothing(records: Records, group: Text, refs: seq<Text>, reference: Text)
    requires reference !in refs
    ensures Dropped(Listing(records, group, refs), reference) == Listing(records, group, refs)
  {
    hide BodyId;
    if refs != [] {
      var front := refs[..|refs| - 1];
      var q := Listing(records, group, refs);
      assert q[..|q| - 1] == Listing(records, group, front);
      DropsNothing(records, group, front, reference);
    }
  }

  // Within the limits nothing breaks.
  lemma LimitsKeepOrder(t: Tools, records: Records, group: Text, op: QueueOp)
    requires Lawful(t) && WithinLimits(group, op)
    ensures !Breaks(t, records, group, op)
  {
    hide RefOf, Refs, RefsId, BodyId, ValidKey;
    QueueKeysOk(t, group, if op.Enqueue? then op.proposalRef else []);
  }

  // The two ways to break it: a body over the value limit in any acceptable group, and any body at all
  // in a group of 176 to 235 bytes, whose reference key is just short enough and whose body key is not.
  lemma OversizedBodyBreaks(t: Tools, records: Records, group: Text, proposalRef: Bytes, body: Bytes)
    requires Lawful(t) && GroupOk(group) && |body| > MAX_VALUE_BYTES
    requires RefOf(t, proposalRef) !in Refs(t, records, group)
    requires |t.writeRefs(Refs(t, records, group) + [RefOf(t, proposalRef)])| <= MAX_VALUE_BYTES
    ensures Breaks(t, records, group, Enqueue(proposalRef, body))
  {
    hide RefOf, Refs, RefsId, BodyId, ValidKey, GroupOk;
    QueueKeysOk(t, group, proposalRef);
  }

  lemma LongGroupBreaks(t: Tools, records: Records, group: Text, proposalRef: Bytes, body: Bytes)
    requires Lawful(t) && Utf8(group) && NoControl(group) && MAX_KEY_BYTES - 80 <= |group| <= MAX_KEY_BYTES - 21
    requires RefOf(t, proposalRef) !in Refs(t, records, group)
    requires |t.writeRefs(Refs(t, records, group) + [RefOf(t, proposalRef)])| <= MAX_VALUE_BYTES
    ensures Breaks(t, records, group, Enqueue(proposalRef, body))
  {
    hide Refs, Utf8, Ascii, Hex;
    RefsKeyOk(group);
    var key := BodyId(group, RefOf(t, proposalRef)).key;
    assert |PREFIX| == 7 && |BODY_ITEM| == 9 && |RefOf(t, proposalRef)| == 64;
    assert |key| == |group| + 81;
  }

  lemma RefsKeyOk(group: Text)
    requires Utf8(group) && NoControl(group) && |group| <= MAX_KEY_BYTES - 21
    ensures ValidKey(RefsId(group).key)
  {
    hide Utf8, Ascii;
    PrefixPlain();
    RefsItemPlain();
    RefsKeyUtf8(group);
  }

  lemma RefsKeyUtf8(group: Text)
    requires Utf8(group)
    ensures Utf8(RefsId(group).key)
  {
    hide Utf8, Ascii;
    PrefixPlain();
    RefsItemPlain();
    AsciiIsUtf8(PREFIX);
    AsciiIsUtf8([SLASH]);
    AsciiIsUtf8(REFS_ITEM);
    Utf8Joins(PREFIX, group);
    Utf8Joins(PREFIX + group, [SLASH]);
    Utf8Joins(PREFIX + group + [SLASH], REFS_ITEM);
  }

  lemma RefsItemPlain()
    ensures |REFS_ITEM| == 13 && PlainText(REFS_ITEM)
  {
    AsciiIsPlain("proposal-refs");
  }

  // ---- whole runs over every group ----

  datatype QueueEvent = QueueEvent(group: Text, op: QueueOp, env: CommitEnv)

  function Run(t: Tools, v: Vault, s: StoreState, events: seq<QueueEvent>): StoreState {
    if events == [] then s
    else
      var e := events[|events| - 1];
      Perform(t, v, Run(t, v, s, events[..|events| - 1]), e.group, e.op, e.env).state
  }

  // The ordered map of one group: its start, then every operation on it that returned Ok.
  function QueueFold(t: Tools, v: Vault, s: StoreState, events: seq<QueueEvent>, group: Text): seq<Proposal> {
    if events == [] then Queue(t, s.records, group)
    else
      var front, e := events[..|events| - 1], events[|events| - 1];
      var q := QueueFold(t, v, s, front, group);
      if e.group == group && Perform(t, v, Run(t, v, s, front), e.group, e.op, e.env).result.Ok? then Intended(t, q, e.op) else q
  }

  predicate NeverBreaks(t: Tools, v: Vault, s: StoreState, events: seq<QueueEvent>) {
    forall i :: 0 <= i < |events| ==>
      SlashFree(events[i].group) && !Breaks(t, Run(t, v, s, events[..i]).records, events[i].group, events[i].op)
  }

  // In every run without a breaking operation, whatever its commits do, the stored queue of every group
  // is that fold: references stay distinct and a body exists exactly for each of them.
  lemma {:induction false} QueueRun(t: Tools, v: Vault, s: StoreState, events: seq<QueueEvent>, group: Text)
    requires Lawful(t) && RecordsOk(s.records) && !s.locked && NeverBreaks(t, v, s, events)
    requires SlashFree(group) && QueueOk(t, s.records, group)
    requires forall i :: 0 <= i < |events| ==> QueueOk(t, s.records, events[i].group)
    ensures var now := Run(t, v, s, events);
            && RecordsOk(now.records) && !now.locked && QueueOk(t, now.records, group)
            && Queue(t, now.records, group) == QueueFold(t, v, s, events, group)
  {
    hide Perform, Queue, QueueOk, RecordsOk, Breaks, Intended, SlashFree;
    if events != [] {
      var front, e := events[..|events| - 1], events[|events| - 1];
      forall k | 0 <= k < |front| ensures front[..k] == events[..k] && front[k] == events[k] {}
      QueueRun(t, v, s, front, group);
      QueueRun(t, v, s, front, e.group);
      var before := Run(t, v, s, front);
      QueueExact(t, v, before, e.group, e.op, e.env);
      if e.group != group {
        GroupsAreIndependent(t, v, before, e.group, group, e.op, e.env);
      }
    }
  }

  // A store without records has every queue in order, and empty.
  lemma FreshQueues(t: Tools, group: Text)
    ensures QueueOk(t, map[], group) && Queue(t, map[], group) == []
  {}

  lemma PlanTouchesOnly(t: Tools, records: Records, group: Text, op: QueueOp)
    ensures PlanOf(t, records, group, op).Write? ==> TouchesOnly(PlanOf(t, records, group, op).mutations, group)
  {
    hide RefOf, Refs, KeyOf, Without;
    assert InGroup(RefsId(group), group);
    assert forall r {:trigger BodyId(group, r)} :: InGroup(BodyId(group, r), group);
  }

  // Whatever happens, memory ends up with some prefix of the batch applied.
  lemma BatchPrefix(v: Vault, s: StoreState, ms: seq<Mutation>, env: CommitEnv) returns (k: nat)
    ensures k <= |ms| && Apply(v, s, Batch(ms), env).state.records == ApplyAll(s.records, ms[..k])
  {
    hide Attempt;
    AttemptRecords(v, s, ApplyAll(s.records, ms), env);
    assert ms[..0] == [] && ApplyAll(s.records, []) == s.records;
    assert ms[..|ms|] == ms;
    var step := Apply(v, s, Batch(ms), env);
    k := if s.locked then 0 else if ValidPrefix(ms) < |ms| then ValidPrefix(ms) else if step.result.Ok? then |ms| else 0;
  }

  // No operation on one group, however it ends, changes the queue of another.
  lemma GroupsAreIndependent(t: Tools, v: Vault, s: StoreState, group: Text, other: Text, op: QueueOp, env: CommitEnv)
    requires SlashFree(group) && SlashFree(other) && other != group && QueueOk(t, s.records, other)
    ensures var after := Perform(t, v, s, group, op, env).state.records;
            QueueOk(t, after, other) && Queue(t, after, other) == Queue(t, s.records, other)
  {
    hide PlanOf, QueueOk, Queue, StoreProtocol.Apply, ApplyAll, InGroup;
    var visible := if s.locked then map[] else s.records;
    match PlanOf(t, visible, group, op) {
      case Write(ms) =>
        PlanTouchesOnly(t, visible, group, op);
        var k := BatchPrefix(v, s, ms, env);
        GroupBatchFrame(t, s.records, ms[..k], group, other);
      case _ =>
    }
  }
}
