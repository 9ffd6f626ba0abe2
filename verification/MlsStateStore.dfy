/** The MLS state adapter over the record store: key packages and the proposal queue. */
module MlsStateStores {
  import opened Prelude
  import opened Text
  import opened RecordCodec
  import opened StoreProtocol
  import opened EncryptedStores
  import K = KeyPackages
  import Q = ProposalQueue

  class MlsStateStore {
    const store: EncryptedStore
    const packages: K.Tools
    const queue: Q.Tools

    constructor (store: EncryptedStore, packages: K.Tools, queue: Q.Tools)
      ensures this.store == store && this.packages == packages && this.queue == queue
    {
      this.store, this.packages, this.queue := store, packages, queue;
    }

    // The records a read sees: none once the store is locked.
    function Visible(): Records
      reads store
    {
      if store.locked then map[] else store.records
    }

    // ---- key packages ----

    method ReadKeyPackageRecord(id: Bytes) returns (r: Option<K.KeyPackageRecord>)
      ensures r == K.RecordOf(packages, Visible(), K.DigestOf(packages, id))
    {
      hide K.DigestOf, K.StateId;
      var value := store.Get(K.StateId(K.DigestOf(packages, id)));
      if value.None? {
        return None;
      }
      r := K.Decoded(packages, value.value);
    }

    method IsKnown(id: Bytes) returns (known: bool)
      ensures known == K.Known(packages, Visible(), K.DigestOf(packages, id))
    {
      hide K.DigestOf, K.StateId, K.PackageId, K.RecordOf;
      var package := store.Get(K.PackageId(K.DigestOf(packages, id)));
      var record := ReadKeyPackageRecord(id);
      known := package.Some? || record.Some?;
    }

    method CommitBatch(ms: seq<Mutation>, env: CommitEnv) returns (r: Result<(), K.KeyPackageError>)
      modifies store
      ensures var step := Apply(store.vault, old(store.State()), Batch(ms), env);
              && store.State() == step.state
              && (r.Ok? <==> step.result.Ok?) && (r.Err? ==> r.error == K.Storage(step.result.error))
    {
      hide Apply;
      var done := store.ApplyBatch(ms, env);
      r := if done.Ok? then Ok(()) else Err(K.Storage(done.error));
    }

    method RegisterKeyPackage(id: Bytes, package: Bytes, lifetime: Option<(U64, U64)>, env: CommitEnv)
      returns (r: Result<(), K.KeyPackageError>)
      modifies store
      ensures var p := K.Perform(packages, store.vault, old(store.State()), K.Register(id, package, lifetime), env);
              && store.State() == p.state
              && (r.Ok? <==> p.result.Ok?) && (r.Err? ==> r.error == p.result.error)
    {
      hide Apply, K.DigestOf, K.StateId, K.PackageId, K.Known;
      if lifetime.Some? && (lifetime.value.0 >= lifetime.value.1 || package == []) {
        return Err(K.InvalidLifetime);
      }
      var known := IsKnown(id);
      if known {
        return Err(K.AlreadyRegistered);
      }
      var record := packages.write(K.NewRecord(lifetime));
      if |record| > MAX_VALUE_BYTES {
        return Err(K.Codec);
      }
      var digest := K.DigestOf(packages, id);
      r := CommitBatch([Put(K.PackageId(digest), package), Put(K.StateId(digest), record)], env);
    }

    method ReserveKeyPackage(id: Bytes, reservation: Bytes, now: U64, env: CommitEnv)
      returns (r: Result<Bytes, K.KeyPackageError>)
      modifies store
      ensures var p := K.Perform(packages, store.vault, old(store.State()), K.Reserve(id, reservation, now), env);
              && store.State() == p.state
              && r == (if p.result.Ok? then Ok(packages.sha(reservation)) else Err(p.result.error))
    {
      hide Apply, K.StateId, K.RecordOf;
      var found := ReadKeyPackageRecord(id);
      if found.None? || found.value.state != K.Available || K.IsExpired(found.value, now) {
        return Err(K.NotAvailable);
      }
      var digest := packages.sha(reservation);
      var record := packages.write(found.value.(state := K.Reserved, reservationDigest := Some(Hex(digest))));
      if |record| > MAX_VALUE_BYTES {
        return Err(K.Codec);
      }
      var done := CommitBatch([Put(K.StateId(K.DigestOf(packages, id)), record)], env);
      r := if done.Ok? then Ok(digest) else Err(done.error);
    }

    method ConsumeKeyPackage(id: Bytes, reservation: Bytes, env: CommitEnv) returns (r: Result<(), K.KeyPackageError>)
      modifies store
      ensures var p := K.Perform(packages, store.vault, old(store.State()), K.Consume(id, reservation), env);
              && store.State() == p.state
              && (r.Ok? <==> p.result.Ok?) && (r.Err? ==> r.error == p.result.error)
    {
      hide Apply, K.StateId, K.RecordOf;
      var found := ReadKeyPackageRecord(id);
      if found.None? {
        return Err(K.NotAvailable);
      }
      var digest := Hex(packages.sha(reservation));
      if found.value.state != K.Reserved || found.value.reservationDigest != Some(digest) {
        return Err(K.ReservationMismatch);
      }
      var record := packages.write(found.value.(state := K.Consumed, reservationDigest := None));
      if |record| > MAX_VALUE_BYTES {
        return Err(K.Codec);
      }
      r := CommitBatch([Put(K.StateId(K.DigestOf(packages, id)), record)], env);
    }

    // Walks the state records once; the order does not matter to a count.
    method AvailableCount(now: U64) returns (count: nat)
      ensures count == |K.AvailableIds(packages, Visible(), now)|
    {
      hide K.IsStateId, K.IsAvailable;
      var records := if store.locked then map[] else store.records;
      var left := set id | id in records && K.IsStateId(id);
      ghost var counted: set<RecordId> := {};
      count := 0;
      while left != {}
        invariant forall id :: id in left ==> id in records && K.IsStateId(id)
        invariant forall id :: id in counted ==> id in K.AvailableIds(packages, records, now) && id !in left
        invariant forall id :: id in K.AvailableIds(packages, records, now) ==> id in counted || id in left
        invariant count == |counted|
        decreases |left|
      {
        var id :| id in left;
        left := left - {id};
        if K.IsAvailable(packages, records[id], now) {
          count := count + 1;
          counted := counted + {id};
        }
      }
      assert counted == K.AvailableIds(packages, records, now);
    }

    // The loop of replenish: mutations for the packages it may take, or the first problem it meets.
    method Collect(fs: seq<K.Fresh>, needed: nat, now: U64) returns (r: Result<seq<Mutation>, K.KeyPackageError>)
      ensures var taken := if needed <= |fs| then fs[..needed] else fs;
              r == match K.FirstProblem(packages, Visible(), now, taken)
                   case Some(e) => Err(e)
                   case None => if |taken| < needed then Err(K.NotAvailable) else Ok(K.PutAll(packages, taken))
    {
      hide K.DigestOf, K.StateId, K.PackageId, K.Known;
      var mutations := [];
      var added := 0;
      while added < |fs| && added < needed
        invariant added <= |fs| && added <= needed
        invariant K.FirstProblem(packages, Visible(), now, fs[..added]).None?
        invariant mutations == K.PutAll(packages, fs[..added])
      {
        var f := fs[added];
        assert fs[..added + 1][..added] == fs[..added];
        ghost var taken := if needed <= |fs| then fs[..needed] else fs;
        FirstProblemKeeps(packages, Visible(), now, taken, added + 1);
        assert taken[..added + 1] == fs[..added + 1];
        if f.notBefore >= f.notAfter || f.notAfter <= now || f.package == [] {
          return Err(K.InvalidLifetime);
        }
        var known := IsKnown(f.id);
        if known {
          return Err(K.AlreadyRegistered);
        }
        var record := packages.write(K.NewRecord(Some((f.notBefore, f.notAfter))));
        if |record| > MAX_VALUE_BYTES {
          return Err(K.Codec);
        }
        var digest := K.DigestOf(packages, f.id);
        mutations := mutations + [Put(K.PackageId(digest), f.package), Put(K.StateId(digest), record)];
        added := added + 1;
      }
      if added < needed {
        assert fs[..added] == fs;
        return Err(K.NotAvailable);
      }
      r := Ok(mutations);
    }

    method ReplenishKeyPackages(minimum: nat, now: U64, fs: seq<K.Fresh>, env: CommitEnv)
      returns (r: Result<nat, K.KeyPackageError>)
      modifies store
      ensures var p := K.Perform(packages, store.vault, old(store.State()), K.Replenish(minimum, now, fs), env);
              && store.State() == p.state
              && r == (if p.result.Ok? then Ok(K.Needed(packages, old(Visible()), minimum, now)) else Err(p.result.error))
    {
      hide Apply, K.PutAll, K.FirstProblem, K.AvailableIds;
      var current := AvailableCount(now);
      var needed := if minimum > current then minimum - current else 0;
      if needed == 0 {
        return Ok(0);
      }
      var collected := Collect(fs, needed, now);
      if collected.Err? {
        return Err(collected.error);
      }
      var done := CommitBatch(collected.value, env);
      r := if done.Ok? then Ok(needed) else Err(done.error);
    }

    // ---- the proposal queue ----

    method QueuedProposalRefs(group: Text) returns (refs: seq<Text>)
      ensures refs == Q.Refs(queue, Visible(), group)
    {
      hide Q.RefsId;
      var value := store.Get(Q.RefsId(group));
      if value.None? || |value.value| > MAX_VALUE_BYTES {
        return [];
      }
      var decoded := queue.readRefs(value.value);
      refs := if decoded.Some? then decoded.value else [];
    }

    method QueueProposal(group: Text, proposalRef: Bytes, proposal: Bytes, env: CommitEnv)
      returns (r: Result<(), StorageError>)
      modifies store
      ensures Carry(Step(store.State(), r))
              == Q.Perform(queue, store.vault, old(store.State()), group, Q.Enqueue(proposalRef, proposal), env)
    {
      hide Apply, Q.RefOf, Q.RefsId, Q.BodyId, Q.Refs;
      var reference := Q.RefOf(queue, proposalRef);
      var refs := QueuedProposalRefs(group);
      if reference in refs {
        return Ok(());
      }
      var list := queue.writeRefs(refs + [reference]);
      if |list| > MAX_VALUE_BYTES {
        return Err(RecordTooLarge);
      }
      r := store.ApplyBatch([Put(Q.RefsId(group), list), Put(Q.BodyId(group, reference), proposal)], env);
    }

    // Vec::retain: one pass that keeps every other reference.
    method Retain(refs: seq<Text>, reference: Text) returns (kept: seq<Text>)
      ensures kept == Q.Without(refs, reference)
    {
      kept := [];
      for i := 0 to |refs|
        invariant kept == Q.Without(refs[..i], reference)
      {
        assert refs[..i + 1][..i] == refs[..i];
        if refs[i] != reference {
          kept := kept + [refs[i]];
        }
      }
      assert refs[..|refs|] == refs;
    }

    method RemoveProposal(group: Text, proposalRef: Bytes, env: CommitEnv) returns (r: Result<(), StorageError>)
      modifies store
      ensures Carry(Step(store.State(), r))
              == Q.Perform(queue, store.vault, old(store.State()), group, Q.Remove(proposalRef), env)
    {
      hide Apply, Q.RefOf, Q.RefsId, Q.BodyId, Q.Refs, Q.Without;
      var reference := Q.RefOf(queue, proposalRef);
      var refs := QueuedProposalRefs(group);
      var kept := Retain(refs, reference);
      var list := queue.writeRefs(kept);
      if |list| > MAX_VALUE_BYTES {
        return Err(RecordTooLarge);
      }
      r := store.ApplyBatch([Put(Q.RefsId(group), list), Delete(Q.BodyId(group, reference))], env);
    }

    method ClearProposals(group: Text, env: CommitEnv) returns (r: Result<(), StorageError>)
      modifies store
      ensures Carry(Step(store.State(), r)) == Q.Perform(queue, store.vault, old(store.State()), group, Q.Clear, env)
    {
      hide Apply, Q.RefsId, Q.BodyId, Q.Refs;
      var refs := QueuedProposalRefs(group);
      var changes := [Delete(Q.RefsId(group))];
      for i := 0 to |refs|
        invariant changes == [Delete(Q.RefsId(group))] + Q.BodyDeletes(group, refs[..i])
      {
        changes := changes + [Delete(Q.BodyId(group, refs[i]))];
        assert Q.BodyDeletes(group, refs[..i + 1]) == Q.BodyDeletes(group, refs[..i]) + [Delete(Q.BodyId(group, refs[i]))];
      }
      assert refs[..|refs|] == refs;
      r := store.ApplyBatch(changes, env);
    }
  }

  // The first problem of a longer list is the first problem of any prefix that has one.
  lemma {:induction false} FirstProblemKeeps(t: K.Tools, records: Records, now: U64, fs: seq<K.Fresh>, n: nat)
    requires n <= |fs|
    ensures K.FirstProblem(t, records, now, fs[..n]).Some? ==>
              K.FirstProblem(t, records, now, fs) == K.FirstProblem(t, records, now, fs[..n])
  {
    hide K.Problem;
    if n == |fs| {
      assert fs[..n] == fs;
    } else {
      FirstProblemKeeps(t, records, now, fs[..|fs| - 1], n);
      assert fs[..|fs| - 1][..n] == fs[..n];
    }
  }
}
