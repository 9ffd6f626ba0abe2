/**
 Posting without holding the state locks: a request takes a snapshot of its record under
 the lock, talks to the relay unlocked, and applies the reply only if the record is still
 in the state it saw. Requests overlap freely with each other, with local events, with ledger
 writes that fail, and with restarts. The attachment route is the exception: it applies a failure
 without looking at the state.
 */
module DetachedDelivery {
  import opened Prelude
  import opened Text
  import opened Ledger
  import opened DeliveryLedgers
  import S = StoreProtocol
  import R = LedgerRestore

  datatype Route = Post | Tick | Attachment

  // What a request remembers: the record, its state then, and which route started it.
  datatype Ticket = Ticket(digest: Text, expected: DeliveryState, route: Route)

  // The ledger in memory, the requests in flight, the ledger the store holds in memory (that of the
  // last write reported successful) and the one on disk.
  datatype Net = Net(ledger: Ledger, inflight: map<nat, Ticket>, kept: Ledger, saved: Ledger)

  datatype Reply = Accepted(id: Text) | Gone | BadEndpoint | Unavailable

  datatype Event =
    | BeginPost(request: nat, digest: Text, wire: Option<Text>, expiresAt: Option<U64>, destination: Option<Text>, write: S.Write)
    | BeginAttachment(request: nat, digest: Text, wire: Option<Text>, expiresAt: Option<U64>, destination: Option<Text>, write: S.Write)
    | BeginRetry(request: nat, digest: Text, automatic: bool, now: U64, readable: bool)
    | Finish(request: nat, reply: Reply, now: U64, write: S.Write)
    | Local(op: Op, write: S.Write)
    | OtherCommit // any other commit of the store rewrites the ledger record it holds
    | Reload      // a failed inbox batch puts the store's ledger back
    | Restart

  // Cancellation, expiry and receipts.
  predicate LocalOp(op: Op) {
    || op.ExpireDue?
    || op.RegisterReceived?
    || (op.OnRecord? && (op.act.Cancel? || op.act.AcknowledgeRecipient? || op.act.MarkDecrypted? || op.act.BindRelayId?))
  }

  predicate WellFormedEvent(e: Event) {
    e.Local? ==> LocalOp(e.op)
  }

  // May a retry of this record start? The tick also needs a stored destination; the retry route
  // needs a wire it can read and that names its mailbox.
  predicate MayRetry(r: DeliveryRecord, automatic: bool, now: U64, readable: bool) {
    if automatic then IsDue(r, now)
    else
      && r.state in {Retryable, Queued}
      && (r.nextRetryAt.Some? ==> r.nextRetryAt.value <= now)
      && r.wire.Some? && readable
  }

  // How a reply is applied. A malformed reply fails the record on the tick and is retried elsewhere.
  function ReplyActs(t: Ticket, reply: Reply, now: U64): seq<Act> {
    if t.route == Attachment then
      if reply.Accepted? then [BindRelayId(reply.id), Transition(RelayAccepted)] else [ScheduleRetry(now)]
    else
      match reply
      case Accepted(id) => [AcceptRetry(t.expected, id)]
      case Gone => [MarkFailedIfCurrent(t.expected)]
      case BadEndpoint => [if t.route == Tick then MarkFailedIfCurrent(t.expected) else ScheduleRetryIfCurrent(t.expected, now)]
      case Unavailable => [ScheduleRetryIfCurrent(t.expected, now)]
  }

  function ActAll(r: DeliveryRecord, acts: seq<Act>): DeliveryRecord {
    if acts == [] then r else ActOn(ActAll(r, acts[..|acts| - 1]), acts[|acts| - 1]).record
  }

  // The ledger after a reply; an unknown record stays unknown.
  function Replied(l: Ledger, t: Ticket, reply: Reply, now: U64): Ledger {
    if t.digest in l then l[t.digest := ActAll(l[t.digest], ReplyActs(t, reply, now))] else l
  }

  // One write of the ledger: it may land and still be reported as failed.
  function Saved(n: Net, w: S.Write): Net {
    match w
    case Done => n.(kept := n.ledger, saved := n.ledger)
    case FailedBefore => n
    case FailedAfter => n.(saved := n.ledger)
  }

  // DeliveryLedger::restore into a running daemon: a refused ledger changes nothing.
  function Reloaded(n: Net): Net {
    if R.Restorable(n.kept) then n.(ledger := n.kept) else n
  }

  function Advance(n: Net, e: Event): Net {
    match e
    case BeginPost(request, digest, wire, expiresAt, destination, write) =>
      var applied := Apply(n.ledger, Register(digest, true, wire, expiresAt, destination));
      if applied.result.Err? then n
      else
        var m := Saved(n.(ledger := applied.ledger), write);
        if write != S.Done then m.(ledger := n.ledger)  // discarded again under the same lock
        else m.(inflight := n.inflight[request := Ticket(digest, Queued, Post)])
    case BeginAttachment(request, digest, wire, expiresAt, destination, write) =>
      var applied := Apply(n.ledger, Register(digest, false, wire, expiresAt, destination));
      if applied.result.Err? then n
      else
        var m := Saved(n.(ledger := Apply(applied.ledger, OnRecord(digest, Transition(Queued))).ledger), write);
        if write != S.Done then Reloaded(m) else m.(inflight := n.inflight[request := Ticket(digest, Queued, Attachment)])
    case BeginRetry(request, digest, automatic, now, readable) =>
      if digest in n.ledger && MayRetry(n.ledger[digest], automatic, now, readable)
      then n.(inflight := n.inflight[request := Ticket(digest, n.ledger[digest].state, if automatic then Tick else Post)])
      else n
    case Finish(request, reply, now, write) =>
      if request !in n.inflight then n
      else
        var t := n.inflight[request];
        var m := n.(ledger := Replied(n.ledger, t, reply, now), inflight := n.inflight - {request});
        // an acceptance that does not apply is not written
        if reply.Accepted? && t.route != Attachment && m.ledger == n.ledger then m else Saved(m, write)
    case Local(op, write) => Saved(n.(ledger := Apply(n.ledger, op).ledger), write)
    case OtherCommit => n.(saved := n.kept)
    case Reload => Reloaded(n)
    case Restart => if R.Restorable(n.saved) then Net(n.saved, map[], n.saved, n.saved) else n
  }

  function Run(n: Net, events: seq<Event>): Net {
    if events == [] then n else Advance(Run(n, events[..|events| - 1]), events[|events| - 1])
  }

  predicate WellFormedRun(events: seq<Event>) {
    forall i :: 0 <= i < |events| ==> WellFormedEvent(events[i])
  }

  // Requests are only ever started for a record found Queued or Retryable.
  predicate TicketsOk(n: Net) {
    forall q :: q in n.inflight ==> n.inflight[q].expected in {Queued, Retryable}
  }

  // How far along a delivery is. Decrypted and Failed are final.
  function Rank(s: DeliveryState): nat {
    match s
    case Draft => 0
    case Encrypted => 0
    case Queued => 1
    case Retryable => 1
    case Cancelled => 2
    case RelayAccepted => 3
    case RecipientReceived => 4
    case Decrypted => 5
    case Failed => 5
  }

  predicate Progress(from: DeliveryState, to: DeliveryState) {
    Rank(from) <= Rank(to) && (Rank(from) == 5 ==> to == from)
  }

  // d is no less far along in `after` than in `before`, if it was there at all.
  predicate Kept(before: Ledger, after: Ledger, d: Text) {
    d in before ==> d in after && Progress(before[d].state, after[d].state)
  }

  // ---- one late result ----

  // A late result of a post or retry leaves a settled record exactly as it is, and moves a cancelled
  // one only on acceptance. A late failure of an attachment post does not look: it changes the state
  // of a settled record exactly when that is RelayAccepted.
  lemma LateResultIsHarmless(n: Net, request: nat, reply: Reply, now: U64, write: S.Write, d: Text)
    requires TicketsOk(n) && request in n.inflight && d in n.ledger
    ensures var after, t := Advance(n, Finish(request, reply, now, write)).ledger, n.inflight[request];
            && d in after
            && (t.digest != d ==> after[d] == n.ledger[d])
            && (t.route != Attachment && n.ledger[d].state in {RelayAccepted, RecipientReceived, Decrypted, Failed} ==>
                  after[d] == n.ledger[d])
            && (n.ledger[d].state == Cancelled && after[d].state != Cancelled ==>
                  reply.Accepted? && t.route != Attachment && after[d].state == RelayAccepted)
            && (t.route == Attachment && t.digest == d && n.ledger[d].state in {RelayAccepted, RecipientReceived, Decrypted, Failed} ==>
                  (after[d].state != n.ledger[d].state <==> !reply.Accepted? && n.ledger[d].state == RelayAccepted))
  {
    hide ActAll, R.Restorable, IsDue;
    var t := n.inflight[request];
    if t.digest == d {
      ReplyOnRecord(n.ledger[d], t, reply, now);
    }
  }

  // What a reply makes of the record it finds.
  lemma ReplyOnRecord(r: DeliveryRecord, t: Ticket, reply: Reply, now: U64)
    requires t.expected in {Queued, Retryable}
    ensures var after := ActAll(r, ReplyActs(t, reply, now));
            && after.digest == r.digest
            && (Progress(r.state, after.state) <==>
                  !(t.route == Attachment && !reply.Accepted? && r.state == RelayAccepted && r.attempts < MAX_ATTEMPTS))
            && (t.route != Attachment && r.state in {RelayAccepted, RecipientReceived, Decrypted, Failed} ==> after == r)
            && (r.state == Cancelled ==>
                  after.state == if reply.Accepted? && t.route != Attachment then RelayAccepted else Cancelled)
            && (t.route == Attachment && r.state in {RelayAccepted, RecipientReceived, Decrypted, Failed} ==>
                  (after.state != r.state <==> !reply.Accepted? && r.state == RelayAccepted))
  {
    hide Backoff;
    ActsUnfold(r, t, reply, now);
  }

  lemma ActsUnfold(r: DeliveryRecord, t: Ticket, reply: Reply, now: U64)
    ensures var acts := ReplyActs(t, reply, now);
            if |acts| == 1 then ActAll(r, acts) == ActOn(r, acts[0]).record
            else |acts| == 2 && t.route == Attachment && reply.Accepted?
                 && ActAll(r, acts) == ActOn(ActOn(r, acts[0]).record, acts[1]).record
  {
    hide ActOn;
    var acts := ReplyActs(t, reply, now);
    assert acts[..0] == [];
    if |acts| == 2 {
      assert acts[..1] == [acts[0]] && [acts[0]][..0] == [];
      assert ActAll(r, [acts[0]]) == ActOn(ActAll(r, []), acts[0]).record;
    }
  }

  // ---- what a reply does ----

  // The failure a route retries: anything on the attachment route, otherwise an unreachable relay, or an
  // unusable endpoint reported to a post. The other failures are final.
  predicate Retries(route: Route, reply: Reply) {
    !reply.Accepted? && (route == Attachment || reply.Unavailable? || (reply.BadEndpoint? && route == Post))
  }

  function RetryTime(now: U64, attempts: nat): U64
    requires attempts < MAX_ATTEMPTS
  {
    SmallBackoff(attempts);
    SaturatingAdd(now, 5 * Pow2(attempts))
  }

  // A reply to a request whose record is still as the request found it. Accepted, it is with the relay
  // under that id. A failure worth retrying keeps wire and destination and makes the record due again
  // 5 * 2^attempts seconds later, five times; the sixth leaves it Failed. A final failure drops both.
  // Where the record has moved on meanwhile, only an acceptance of a cancelled one is still applied. The
  // ledger is written afterwards, unless an acceptance changed nothing.
  lemma ReplyMeans(n: Net, request: nat, reply: Reply, now: U64, write: S.Write)
    requires request in n.inflight
    ensures var t, after := n.inflight[request], Advance(n, Finish(request, reply, now, write));
            && request !in after.inflight
            && (if reply.Accepted? && t.route != Attachment && after.ledger == n.ledger then after.kept == n.kept && after.saved == n.saved
                else after.kept == (if write == S.Done then after.ledger else n.kept)
                     && after.saved == if write == S.FailedBefore then n.saved else after.ledger)
            && after.ledger.Keys == n.ledger.Keys && (forall d :: d in n.ledger && d != t.digest ==> after.ledger[d] == n.ledger[d])
            && (t.digest in n.ledger && n.ledger[t.digest].state == t.expected && t.expected in {Queued, Retryable} ==>
                  var was, made := n.ledger[t.digest], after.ledger[t.digest];
                  && (reply.Accepted? && (t.route != Attachment || was.state == Queued) ==>
                        made == was.(state := RelayAccepted, relayId := Some(reply.id), nextRetryAt := None))
                  && (reply.Accepted? && t.route == Attachment && was.state == Retryable ==>
                        made == was.(relayId := Some(reply.id)))
                  && (Retries(t.route, reply) && was.attempts < MAX_ATTEMPTS ==>
                        made == was.(state := Retryable, attempts := was.attempts + 1,
                                   nextRetryAt := Some(RetryTime(now, was.attempts))))
                  && (Retries(t.route, reply) && was.attempts == MAX_ATTEMPTS ==>
                        made == was.(state := Failed, attempts := 6, nextRetryAt := None))
                  && (!reply.Accepted? && !Retries(t.route, reply) ==>
                        made == was.(state := Failed, nextRetryAt := None, wire := None, destination := None)))
            && (t.digest in n.ledger && n.ledger[t.digest].state != t.expected && t.route != Attachment ==>
                  var was, made := n.ledger[t.digest], after.ledger[t.digest];
                  made == if was.state == Cancelled && reply.Accepted?
                          then was.(state := RelayAccepted, relayId := Some(reply.id), nextRetryAt := None) else was)
  {
    hide ActAll, R.Restorable, ReplyActs, Retries, RetryTime, Apply, MayRetry, Backoff, Pow2;
    var t := n.inflight[request];
    if t.digest in n.ledger {
      SmallBackoff(n.ledger[t.digest].attempts);
      ReplyValue(n.ledger[t.digest], t, reply, now);
    }
  }

  lemma SmallBackoff(attempts: nat)
    requires attempts < 256
    ensures attempts < MAX_ATTEMPTS ==> Backoff(attempts + 1) == 5 * Pow2(attempts) <= MAX_U64
  {
    if attempts < MAX_ATTEMPTS {
      BackoffIsExponential(attempts + 1);
    }
  }

  lemma ReplyValue(r: DeliveryRecord, t: Ticket, reply: Reply, now: U64)
    requires r.attempts < MAX_ATTEMPTS ==> Backoff(r.attempts + 1) == 5 * Pow2(r.attempts) <= MAX_U64
    ensures r.state == t.expected && t.expected in {Queued, Retryable} ==>
              var after := ActAll(r, ReplyActs(t, reply, now));
              && (reply.Accepted? && (t.route != Attachment || r.state == Queued) ==>
                    after == r.(state := RelayAccepted, relayId := Some(reply.id), nextRetryAt := None))
              && (reply.Accepted? && t.route == Attachment && r.state == Retryable ==> after == r.(relayId := Some(reply.id)))
              && (Retries(t.route, reply) && r.attempts < MAX_ATTEMPTS ==>
                    after == r.(state := Retryable, attempts := r.attempts + 1,
                                nextRetryAt := Some(RetryTime(now, r.attempts))))
              && (Retries(t.route, reply) && r.attempts == MAX_ATTEMPTS ==>
                    after == r.(state := Failed, attempts := 6, nextRetryAt := None))
              && (!reply.Accepted? && !Retries(t.route, reply) ==>
                    after == r.(state := Failed, nextRetryAt := None, wire := None, destination := None))
    ensures r.state != t.expected && t.route != Attachment ==>
              ActAll(r, ReplyActs(t, reply, now))
              == if r.state == Cancelled && reply.Accepted?
                 then r.(state := RelayAccepted, relayId := Some(reply.id), nextRetryAt := None) else r
  {
    hide Backoff, Pow2, ActAll;
    ActsUnfold(r, t, reply, now);
  }

  // A send starts exactly for a new digest whose ledger is written. A post that cannot be written down
  // leaves memory as it was; an attachment then falls back to the ledger the store holds, if it can.
  lemma SendStarts(n: Net, e: Event)
    requires (e.BeginPost? || e.BeginAttachment?) && e.request !in n.inflight
    ensures var after, fits := Advance(n, e), e.digest != [] && e.digest !in n.ledger;
            && (e.request in after.inflight <==> fits && e.write == S.Done)
            && (!fits ==> after == n)
            && (fits && e.write == S.Done ==>
                  && after.inflight == n.inflight[e.request := Ticket(e.digest, Queued, if e.BeginPost? then Post else Attachment)]
                  && after.ledger == n.ledger[e.digest := DeliveryRecord(e.digest, Queued, 0, None, None, e.wire, e.expiresAt, e.destination)]
                  && after.kept == after.ledger && after.saved == after.ledger)
            && (fits && e.write != S.Done ==>
                  && after.inflight == n.inflight && after.kept == n.kept
                  && (e.write == S.FailedBefore ==> after.saved == n.saved)
                  && (e.BeginPost? ==> after.ledger == n.ledger)
                  && (e.BeginAttachment? && R.Restorable(n.kept) ==> after.ledger == n.kept))
  {
    hide R.Restorable, Replied, MayRetry;
    var d := e.digest;
    if d != [] && d !in n.ledger {
      var made := DeliveryRecord(d, Encrypted, 0, None, None, e.wire, e.expiresAt, e.destination);
      assert n.ledger[d := made][d := made.(state := Queued)] == n.ledger[d := made.(state := Queued)];
    }
  }

  // A retry starts exactly for a record that waits for one: queued, or retryable once its time has come,
  // its wire at hand, and for the tick a destination, for the user a wire that can be read.
  lemma RetryStarts(n: Net, request: nat, d: Text, automatic: bool, now: U64, readable: bool)
    requires request !in n.inflight
    ensures var after := Advance(n, BeginRetry(request, d, automatic, now, readable));
            && (request in after.inflight <==>
                  && d in n.ledger && n.ledger[d].wire.Some? && (if automatic then n.ledger[d].destination.Some? else readable)
                  && n.ledger[d].state in {Queued, Retryable}
                  && (n.ledger[d].nextRetryAt.None? || n.ledger[d].nextRetryAt.value <= now))
            && after.(inflight := n.inflight) == n
            && (request in after.inflight ==>
                  after.inflight == n.inflight[request := Ticket(d, n.ledger[d].state, if automatic then Tick else Post)])
  {}

  // ---- what can take a delivery backwards ----

  // An attachment post fails after another request had the message accepted, with retries left.
  predicate FailsLate(n: Net, e: Event, d: Text) {
    && e.Finish? && e.request in n.inflight
    && n.inflight[e.request].route == Attachment && n.inflight[e.request].digest == d
    && !e.reply.Accepted? && d in n.ledger && n.ledger[d].state == RelayAccepted && n.ledger[d].attempts < MAX_ATTEMPTS
  }

  // That, or a reload or restart from a ledger that is behind memory.
  predicate Regresses(n: Net, e: Event, d: Text) {
    match e
    case Finish(_, _, _, _) => FailsLate(n, e, d)
    case BeginAttachment(_, digest, _, _, _, write) =>
      digest != [] && digest !in n.ledger && write != S.Done && R.Restorable(n.kept) && !Kept(n.ledger, n.kept, d)
    case Reload => R.Restorable(n.kept) && !Kept(n.ledger, n.kept, d)
    case Restart => R.Restorable(n.saved) && !Kept(n.ledger, n.saved, d)
    case _ => false
  }

  lemma OpProgress(l: Ledger, op: Op, d: Text)
    requires LocalOp(op) || op.Register? || (op.OnRecord? && op.act.Transition?)
    ensures Kept(l, Apply(l, op).ledger, d)
  {
    hide Backoff;
  }

  lemma KeptJoins(a: Ledger, b: Ledger, c: Ledger, d: Text)
    requires Kept(a, b, d) && Kept(b, c, d)
    ensures Kept(a, c, d)
  {}

  lemma StepTickets(n: Net, e: Event)
    requires TicketsOk(n)
    ensures TicketsOk(Advance(n, e))
  {
    hide Replied, R.Restorable, Apply;
  }

  // One event keeps every delivery where it was or moves it on, exactly when it is not one of these.
  // While memory, store and disk hold the same ledger only the late attachment failure is left.
  lemma StepProgress(n: Net, e: Event, d: Text)
    requires TicketsOk(n) && WellFormedEvent(e)
    ensures TicketsOk(Advance(n, e))
    ensures Kept(n.ledger, Advance(n, e).ledger, d) <==> !Regresses(n, e, d)
    ensures InStep(n) ==> (Regresses(n, e, d) <==> FailsLate(n, e, d))
  {
    hide ActAll, ReplyActs, R.Restorable, Apply, Rank, MayRetry;
    StepTickets(n, e);
    KeptItself(n.ledger, d);
    match e {
      case BeginPost(_, digest, wire, expiresAt, destination, _) =>
        OpProgress(n.ledger, Register(digest, true, wire, expiresAt, destination), d);
      case BeginAttachment(_, digest, wire, expiresAt, destination, _) =>
        RegisterAdds(n.ledger, Register(digest, false, wire, expiresAt, destination));
        var registered := Apply(n.ledger, Register(digest, false, wire, expiresAt, destination)).ledger;
        OpProgress(n.ledger, Register(digest, false, wire, expiresAt, destination), d);
        OpProgress(registered, OnRecord(digest, Transition(Queued)), d);
        KeptJoins(n.ledger, registered, Apply(registered, OnRecord(digest, Transition(Queued))).ledger, d);
      case Finish(request, reply, now, _) =>
        if request in n.inflight && n.inflight[request].digest in n.ledger {
          var t := n.inflight[request];
          ReplyOnRecord(n.ledger[t.digest], t, reply, now);
        }
      case Local(op, _) => OpProgress(n.ledger, op, d);
      case _ =>
    }
  }

  lemma KeptItself(l: Ledger, d: Text)
    ensures Kept(l, l, d)
  {}

  // ---- when memory, store and disk hold the same ledger ----

  predicate InStep(n: Net) { n.ledger == n.kept && n.ledger == n.saved }

  // Told before the event: its ledger write works, or has nothing new to write; or it fails before
  // landing and the route takes its new record back.
  predicate WriteHolds(n: Net, e: Event) {
    match e
    case BeginPost(_, digest, _, _, _, write) => digest == [] || digest in n.ledger || write != S.FailedAfter
    case BeginAttachment(_, digest, _, _, _, write) =>
      digest == [] || digest in n.ledger || write == S.Done || (write == S.FailedBefore && R.Restorable(n.kept))
    case Finish(request, reply, now, write) =>
      request !in n.inflight || write == S.Done || Replied(n.ledger, n.inflight[request], reply, now) == n.ledger
    case Local(op, write) => write == S.Done || Apply(n.ledger, op).ledger == n.ledger
    case _ => true
  }

  // One event keeps the three in step exactly when its write holds.
  lemma StepInStep(n: Net, e: Event)
    requires InStep(n)
    ensures InStep(Advance(n, e)) <==> WriteHolds(n, e)
  {
    hide Replied, R.Restorable, ActOn, MayRetry;
    match e {
      case BeginPost(_, digest, wire, expiresAt, destination, _) =>
        RegisterAdds(n.ledger, Register(digest, true, wire, expiresAt, destination));
      case BeginAttachment(_, digest, wire, expiresAt, destination, _) =>
        RegisterAdds(n.ledger, Register(digest, false, wire, expiresAt, destination));
      case _ =>
    }
  }

  lemma RegisterAdds(l: Ledger, op: Op)
    requires op.Register?
    ensures Apply(l, op).result.Err? <==> op.digest == [] || op.digest in l
    ensures Apply(l, op).result.Ok? ==> op.digest in Apply(l, op).ledger
  {}

  // An acceptance whose write is reported as failed is put back by the next reload, and by a restart
  // after the next commit; one that was written is not.
  lemma AcceptanceNeedsWrite(n: Net, e: Event, d: Text)
    requires TicketsOk(n) && WellFormedEvent(e) && InStep(n) && R.Restorable(n.ledger) && Accepts(n, e, d)
    ensures var m := Advance(n, e);
            && (Regresses(m, Reload, d) <==> e.write != S.Done)
            && (Regresses(Advance(m, OtherCommit), Restart, d) <==> e.write != S.Done)
  {
    hide ActAll, ReplyActs, R.Restorable;
    StepProgress(n, e, d);
    var m := Advance(n, e);
    assert e.write != S.Done ==> m.kept == n.ledger;
    assert e.write == S.Done ==> m.kept == m.ledger;
  }

  // ---- whole runs ----

  // From any point of the run to any later one, d is not lost and not moved backwards.
  ghost predicate Monotone(n: Net, events: seq<Event>, d: Text) {
    forall i, j :: 0 <= i <= j <= |events| ==> Kept(Run(n, events[..i]).ledger, Run(n, events[..j]).ledger, d)
  }

  predicate NeverRegresses(n: Net, events: seq<Event>, d: Text) {
    forall k :: 0 <= k < |events| ==> !Regresses(Run(n, events[..k]), events[k], d)
  }

  lemma {:induction false} RunTickets(n: Net, events: seq<Event>)
    requires TicketsOk(n) && WellFormedRun(events)
    ensures TicketsOk(Run(n, events))
  {
    hide Advance, TicketsOk;
    if events != [] {
      RunTickets(n, events[..|events| - 1]);
      StepProgress(Run(n, events[..|events| - 1]), events[|events| - 1], []);
    }
  }

  lemma RunStep(n: Net, events: seq<Event>, k: nat)
    requires k < |events|
    ensures Run(n, events[..k + 1]) == Advance(Run(n, events[..k]), events[k])
  {
    assert events[..k + 1][..k] == events[..k];
  }

  lemma {:induction false} KeptBetween(n: Net, events: seq<Event>, d: Text, i: nat, j: nat)
    requires TicketsOk(n) && WellFormedRun(events) && NeverRegresses(n, events, d) && i <= j <= |events|
    ensures Kept(Run(n, events[..i]).ledger, Run(n, events[..j]).ledger, d)
    decreases j
  {
    hide Advance, Run, Regresses, Rank, TicketsOk;
    if i == j {
      RankReflexive();
    } else {
      KeptBetween(n, events, d, i, j - 1);
      RunTickets(n, events[..j - 1]);
      StepProgress(Run(n, events[..j - 1]), events[j - 1], d);
      RunStep(n, events, j - 1);
    }
  }

  lemma RankReflexive()
    ensures forall s :: Progress(s, s)
  {}

  predicate WritesHold(n: Net, events: seq<Event>) {
    forall k :: 0 <= k < |events| ==> WriteHolds(Run(n, events[..k]), events[k])
  }

  predicate NeverFailsLate(n: Net, events: seq<Event>, d: Text) {
    forall k :: 0 <= k < |events| ==> !FailsLate(Run(n, events[..k]), events[k], d)
  }

  // In a run whose writes hold, whatever reloads and restarts it contains, the three stay in step.
  lemma {:induction false} RunInStep(n: Net, events: seq<Event>, k: nat)
    requires InStep(n) && WritesHold(n, events) && k <= |events|
    ensures InStep(Run(n, events[..k]))
  {
    hide Advance, InStep, WriteHolds;
    if k > 0 {
      RunInStep(n, events, k - 1);
      StepInStep(Run(n, events[..k - 1]), events[k - 1]);
      RunStep(n, events, k - 1);
    }
  }

  lemma OnlyLateFailures(n: Net, events: seq<Event>, d: Text)
    requires TicketsOk(n) && WellFormedRun(events) && InStep(n) && WritesHold(n, events)
    ensures NeverRegresses(n, events, d) <==> NeverFailsLate(n, events, d)
  {
    hide Advance, Run, Regresses, FailsLate, InStep, WriteHolds, TicketsOk;
    forall k | 0 <= k < |events|
      ensures Regresses(Run(n, events[..k]), events[k], d) <==> FailsLate(Run(n, events[..k]), events[k], d)
    {
      RunInStep(n, events, k);
      RunTickets(n, events[..k]);
      StepProgress(Run(n, events[..k]), events[k], d);
    }
  }

  // A delivery is never lost and never moves backwards, at any point of any interleaving, exactly when
  // none of the regressing events strikes it. When the ledger writes hold, that is: exactly when no
  // late attachment failure strikes it, however often the daemon reloads or restarts.
  lemma RunProgress(n: Net, events: seq<Event>, d: Text)
    requires TicketsOk(n) && WellFormedRun(events)
    ensures Monotone(n, events, d) <==> NeverRegresses(n, events, d)
    ensures InStep(n) && WritesHold(n, events) ==> (Monotone(n, events, d) <==> NeverFailsLate(n, events, d))
  {
    hide Advance, Run, Regresses, Kept, TicketsOk, InStep, WriteHolds, FailsLate;
    if InStep(n) && WritesHold(n, events) {
      OnlyLateFailures(n, events, d);
    }
    if NeverRegresses(n, events, d) {
      forall i, j | 0 <= i <= j <= |events| ensures Kept(Run(n, events[..i]).ledger, Run(n, events[..j]).ledger, d) {
        KeptBetween(n, events, d, i, j);
      }
    }
    if Monotone(n, events, d) {
      forall k | 0 <= k < |events| ensures !Regresses(Run(n, events[..k]), events[k], d) {
        assert Kept(Run(n, events[..k]).ledger, Run(n, events[..k + 1]).ledger, d);
        RunTickets(n, events[..k]);
        StepProgress(Run(n, events[..k]), events[k], d);
        RunStep(n, events, k);
      }
    }
  }

  // ---- acceptances ----

  // A reply turns d into RelayAccepted.
  predicate Accepts(n: Net, e: Event, d: Text) {
    && e.Finish? && d in n.ledger && n.ledger[d].state != RelayAccepted
    && d in Advance(n, e).ledger && Advance(n, e).ledger[d].state == RelayAccepted
  }

  function Acceptances(n: Net, events: seq<Event>, d: Text): nat {
    if events == [] then 0
    else
      Acceptances(n, events[..|events| - 1], d)
      + if Accepts(Run(n, events[..|events| - 1]), events[|events| - 1], d) then 1 else 0
  }

  function Regressions(n: Net, events: seq<Event>, d: Text): nat {
    if events == [] then 0
    else
      Regressions(n, events[..|events| - 1], d)
      + if Regresses(Run(n, events[..|events| - 1]), events[|events| - 1], d) then 1 else 0
  }

  // Past the point of being posted again.
  function Through(l: Ledger, d: Text): nat {
    if d in l && Rank(l[d].state) >= 3 then 1 else 0
  }

  lemma AcceptanceStep(n: Net, e: Event, d: Text)
    requires TicketsOk(n) && WellFormedEvent(e)
    ensures Through(n.ledger, d) + (if Accepts(n, e, d) then 1 else 0)
            <= Through(Advance(n, e).ledger, d) + if Regresses(n, e, d) then 1 else 0
  {
    hide Advance, Regresses, TicketsOk;
    StepProgress(n, e, d);
  }

  // However many requests overlap, every acceptance of a message beyond the first is paid for by a
  // regression: without one at most one is ever applied, and none to a message already through. So it
  // is when the ledger writes hold and no attachment post of the message fails late.
  lemma {:induction false} AcceptedOnce(n: Net, events: seq<Event>, d: Text)
    requires TicketsOk(n) && WellFormedRun(events)
    ensures Acceptances(n, events, d) + Through(n.ledger, d)
            <= Regressions(n, events, d) + Through(Run(n, events).ledger, d)
    ensures NeverRegresses(n, events, d) ==> Acceptances(n, events, d) + Through(n.ledger, d) <= 1
    ensures InStep(n) && WritesHold(n, events) && NeverFailsLate(n, events, d) ==>
              Acceptances(n, events, d) + Through(n.ledger, d) <= 1
  {
    hide Advance, Accepts, Regresses, Through, TicketsOk, InStep, WriteHolds, FailsLate;
    if events != [] {
      var front, last := events[..|events| - 1], events[|events| - 1];
      AcceptedOnce(n, front, d);
      RunTickets(n, front);
      AcceptanceStep(Run(n, front), last, d);
    }
    if InStep(n) && WritesHold(n, events) && NeverFailsLate(n, events, d) {
      OnlyLateFailures(n, events, d);
    }
    if NeverRegresses(n, events, d) {
      NoRegressions(n, events, d);
      ThroughAtMostOne(Run(n, events).ledger, d);
    }
  }

  lemma ThroughAtMostOne(l: Ledger, d: Text)
    ensures Through(l, d) <= 1
  {}

  lemma {:induction false} NoRegressions(n: Net, events: seq<Event>, d: Text)
    requires NeverRegresses(n, events, d)
    ensures Regressions(n, events, d) == 0
  {
    hide Regresses, Advance;
    if events != [] {
      var front := events[..|events| - 1];
      forall k | 0 <= k < |front| ensures front[..k] == events[..k] && front[k] == events[k] {}
      NoRegressions(n, front, d);
    }
  }

  // The ledger in memory is not replaced as a whole.
  predicate Uninterrupted(events: seq<Event>) {
    forall k :: 0 <= k < |events| ==>
      !events[k].Reload? && !events[k].Restart? && (events[k].BeginAttachment? ==> events[k].write == S.Done)
  }

  // A cancelled message stays cancelled exactly when no acceptance is applied to it.
  lemma {:induction false} CancelSticks(n: Net, events: seq<Event>, d: Text)
    requires TicketsOk(n) && WellFormedRun(events) && NeverRegresses(n, events, d) && Uninterrupted(events)
    requires d in n.ledger && n.ledger[d].state == Cancelled
    ensures d in Run(n, events).ledger
    ensures var state := Run(n, events).ledger[d].state;
            && (state == Cancelled <==> Acceptances(n, events, d) == 0)
            && (state != Cancelled ==> Rank(state) >= 3)
  {
    hide Advance, Regresses, TicketsOk, Accepts;
    if events != [] {
      var front, last := events[..|events| - 1], events[|events| - 1];
      forall k | 0 <= k < |front| ensures front[..k] == events[..k] && front[k] == events[k] {}
      CancelSticks(n, front, d);
      RunTickets(n, front);
      assert !Regresses(Run(n, events[..|front|]), events[|front|], d);
      StepProgress(Run(n, front), last, d);
      CancelStep(Run(n, front), last, d);
    }
  }

  lemma CancelStep(n: Net, e: Event, d: Text)
    requires TicketsOk(n) && WellFormedEvent(e) && Uninterrupted([e])
    ensures d in n.ledger && n.ledger[d].state == Cancelled ==>
              && d in Advance(n, e).ledger
              && Advance(n, e).ledger[d].state == if Accepts(n, e, d) then RelayAccepted else Cancelled
  {
    hide ActAll, ReplyActs, R.Restorable, ActOn, IsDue;
    assert [e][0] == e;
    if d in n.ledger && n.ledger[d].state == Cancelled {
      match e {
        case Finish(request, reply, now, _) =>
          if request in n.inflight && n.inflight[request].digest == d {
            ReplyOnRecord(n.ledger[d], n.inflight[request], reply, now);
          }
        case Local(op, _) => OpOnCancelled(n.ledger, op, d);
        case _ =>
      }
    }
  }

  lemma OpOnCancelled(l: Ledger, op: Op, d: Text)
    requires LocalOp(op) && d in l && l[d].state == Cancelled
    ensures d in Apply(l, op).ledger && Apply(l, op).ledger[d].state == Cancelled
  {
    hide Backoff;
  }

  // ---- a regression lets the message be accepted again ----

  // Any record the tick may retry is two events away from an acceptance.
  lemma DueIsAccepted(n: Net, request: nat, d: Text, id: Text, now: U64)
    requires d in n.ledger && IsDue(n.ledger[d], now)
    ensures var m := Advance(n, BeginRetry(request, d, true, now, true));
            Accepts(m, Finish(request, Accepted(id), now, S.Done), d)
  {
    hide Backoff;
    var m := Advance(n, BeginRetry(request, d, true, now, true));
    ActsUnfold(m.ledger[d], m.inflight[request], Accepted(id), now);
  }

  // After a late attachment failure an accepted message that still has its wire and destination is
  // due again at its new retry time.
  lemma FailureMakesDue(n: Net, request: nat, reply: Reply, now: U64, write: S.Write, d: Text)
    requires Regresses(n, Finish(request, reply, now, write), d) && n.ledger[d].wire.Some? && n.ledger[d].destination.Some?
    ensures var after := Advance(n, Finish(request, reply, now, write)).ledger;
            && d in after && after[d].state == Retryable && after[d].nextRetryAt.Some?
            && IsDue(after[d], after[d].nextRetryAt.value)
  {
    hide Backoff;
    ActsUnfold(n.ledger[d], n.inflight[request], reply, now);
  }

  // ---- it happens ----

  function Empty(): Net { Net(map[], map[], map[], map[]) }

  // A message as the routes register it, sent at `at`.
  datatype Parcel = Parcel(digest: Text, wire: Text, destination: Text, at: U64, expiresAt: U64)

  // Still in date when its first retry is due.
  predicate Sendable(p: Parcel) { p.digest != [] && p.at + 5 < p.expiresAt }

  function PostOf(p: Parcel): Event { BeginPost(0, p.digest, Some(p.wire), Some(p.expiresAt), Some(p.destination), S.Done) }

  function AttachmentOf(p: Parcel): Event {
    BeginAttachment(0, p.digest, Some(p.wire), Some(p.expiresAt), Some(p.destination), S.Done)
  }

  function TickAt(request: nat, d: Text, now: U64): Event { BeginRetry(request, d, true, now, true) }

  function Took(request: nat, id: Text, now: U64): Event { Finish(request, Accepted(id), now, S.Done) }

  // An attachment is posted, the tick posts it too and is accepted.
  function Overlap(p: Parcel, id: Text): seq<Event> {
    [AttachmentOf(p)] + [TickAt(1, p.digest, p.at)] + [Took(1, id, p.at)]
  }

  // The same with a cancel in between.
  function CancelledOverlap(p: Parcel, id: Text): seq<Event> {
    [AttachmentOf(p)] + [TickAt(1, p.digest, p.at)] + [Local(OnRecord(p.digest, Cancel), S.Done)] + [Took(1, id, p.at)]
  }

  // Then the attachment's own post reports failure.
  function LateFailure(p: Parcel): Event { Finish(0, Unavailable, p.at, S.Done) }

  // A post is accepted and writing that down fails.
  function LostAcceptance(p: Parcel, id: Text): seq<Event> {
    [PostOf(p)] + [Finish(0, Accepted(id), p.at, S.FailedBefore)]
  }

  // The parcel's record just queued, and as it goes on.
  function QueuedRecord(p: Parcel): DeliveryRecord {
    DeliveryRecord(p.digest, Queued, 0, None, None, Some(p.wire), Some(p.expiresAt), Some(p.destination))
  }

  function AcceptedRecord(p: Parcel, id: Text): DeliveryRecord {
    QueuedRecord(p).(state := RelayAccepted, relayId := Some(id))
  }

  function BackInLine(p: Parcel, id: Text): DeliveryRecord
    requires Sendable(p)
  {
    AcceptedRecord(p, id).(state := Retryable, attempts := 1, nextRetryAt := Some(p.at + 5))
  }

  function One(r: DeliveryRecord): Ledger { map[r.digest := r] }

  lemma FirstBackoff()
    ensures Backoff(1) == 5
  {
    assert Pow2(0) == 1;
  }

  lemma PostBegins(p: Parcel)
    requires Sendable(p)
    ensures var q := One(QueuedRecord(p));
            && Advance(Empty(), AttachmentOf(p)) == Net(q, map[0 := Ticket(p.digest, Queued, Attachment)], q, q)
            && Advance(Empty(), PostOf(p)) == Net(q, map[0 := Ticket(p.digest, Queued, Post)], q, q)
  {
    var n := Advance(Empty(), AttachmentOf(p));
    assert n.ledger == One(QueuedRecord(p));
    assert n.inflight == map[0 := Ticket(p.digest, Queued, Attachment)];
    var m := Advance(Empty(), PostOf(p));
    assert m.ledger == One(QueuedRecord(p));
    assert m.inflight == map[0 := Ticket(p.digest, Queued, Post)];
  }

  // The tick takes up the one record there is.
  lemma TickBegins(n: Net, request: nat, r: DeliveryRecord, now: U64)
    requires n.ledger == One(r) && IsDue(r, now)
    ensures Advance(n, BeginRetry(request, r.digest, true, now, true))
            == n.(inflight := n.inflight[request := Ticket(r.digest, r.state, Tick)])
  {}

  lemma OnlyRepliesAccept(n: Net, e: Event, d: Text)
    ensures !e.Finish? ==> !Accepts(n, e, d)
  {}

  // A reply applied to it, and written.
  lemma ReplyLands(n: Net, request: nat, reply: Reply, now: U64, r: DeliveryRecord)
    requires n.ledger == One(r) && request in n.inflight && n.inflight[request].digest == r.digest
    requires |ReplyActs(n.inflight[request], reply, now)| == 1
    requires ActOn(r, ReplyActs(n.inflight[request], reply, now)[0]).record != r
    ensures var l := One(ActOn(r, ReplyActs(n.inflight[request], reply, now)[0]).record);
            && Advance(n, Finish(request, reply, now, S.Done)) == Net(l, n.inflight - {request}, l, l)
            && Advance(n, Finish(request, reply, now, S.FailedBefore)) == Net(l, n.inflight - {request}, n.kept, n.saved)
  {
    hide Backoff, ActOn, ReplyActs;
    var t, act := n.inflight[request], ReplyActs(n.inflight[request], reply, now)[0];
    ActsUnfold(r, t, reply, now);
    var after := ActOn(r, act).record;
    SameDigest(r, act);
    assert One(r)[r.digest := after] == One(after);
    assert One(after)[r.digest] != One(r)[r.digest];
  }

  // The one record is accepted, and that is written or not.
  lemma AcceptLands(n: Net, request: nat, id: Text, now: U64, r: DeliveryRecord)
    requires n.ledger == One(r) && request in n.inflight && r.state in {Queued, Retryable, Cancelled}
    requires n.inflight[request].digest == r.digest && n.inflight[request].route != Attachment
    requires r.state != Cancelled ==> n.inflight[request].expected == r.state
    ensures var l := One(r.(relayId := Some(id), state := RelayAccepted, nextRetryAt := None));
            && Advance(n, Finish(request, Accepted(id), now, S.Done)) == Net(l, n.inflight - {request}, l, l)
            && Advance(n, Finish(request, Accepted(id), now, S.FailedBefore)) == Net(l, n.inflight - {request}, n.kept, n.saved)
            && Accepts(n, Finish(request, Accepted(id), now, S.Done), r.digest)
            && Accepts(n, Finish(request, Accepted(id), now, S.FailedBefore), r.digest)
  {
    ReplyLands(n, request, Accepted(id), now, r);
  }

  // The attachment post of the accepted record fails late.
  lemma FailureLands(n: Net, request: nat, now: U64, r: DeliveryRecord)
    requires n.ledger == One(r) && request in n.inflight && r.state == RelayAccepted && r.attempts == 0
    requires now + 5 <= MAX_U64
    requires n.inflight[request].digest == r.digest && n.inflight[request].route == Attachment
    ensures var l := One(r.(attempts := 1, state := Retryable, nextRetryAt := Some(now + 5)));
            var e := Finish(request, Unavailable, now, S.Done);
            Advance(n, e) == Net(l, n.inflight - {request}, l, l) && FailsLate(n, e, r.digest) && !Accepts(n, e, r.digest)
  {
    hide Backoff;
    FirstBackoff();
    ReplyLands(n, request, Unavailable, now, r);
  }

  lemma SameDigest(r: DeliveryRecord, act: Act)
    ensures ActOn(r, act).record.digest == r.digest
  {
    hide Backoff;
  }

  // One more event of a run, and whether it is an acceptance.
  lemma Grows(n: Net, events: seq<Event>, e: Event, d: Text)
    ensures Run(n, events + [e]) == Advance(Run(n, events), e)
    ensures Acceptances(n, events + [e], d) == Acceptances(n, events, d) + if Accepts(Run(n, events), e, d) then 1 else 0
    ensures !e.Finish? ==> !Accepts(Run(n, events), e, d)
  {
    hide Advance, Accepts;
    assert (events + [e])[..|events|] == events;
    OnlyRepliesAccept(Run(n, events), e, d);
  }

  lemma Starts(n: Net, e: Event, d: Text)
    ensures Run(n, [e]) == Advance(n, e) && Acceptances(n, [e], d) == if Accepts(n, e, d) then 1 else 0
    ensures !e.Finish? ==> !Accepts(n, e, d)
  {
    hide Advance, Accepts;
    assert [e][..0] == [];
    OnlyRepliesAccept(n, e, d);
  }

  lemma RunOfOverlap(p: Parcel, id: Text)
    requires Sendable(p)
    ensures var a := One(AcceptedRecord(p, id));
            Run(Empty(), Overlap(p, id)) == Net(a, map[0 := Ticket(p.digest, Queued, Attachment)], a, a)
    ensures Acceptances(Empty(), Overlap(p, id), p.digest) == 1
  {
    hide Run, Advance, Acceptances, Accepts;
    var n, q, d := Empty(), QueuedRecord(p), p.digest;
    var first := [AttachmentOf(p)];
    Starts(n, first[0], d);
    PostBegins(p);
    Grows(n, first, TickAt(1, d, p.at), d);
    TickBegins(Run(n, first), 1, q, p.at);
    var second := first + [TickAt(1, d, p.at)];
    Grows(n, second, Took(1, id, p.at), d);
    AcceptLands(Run(n, second), 1, id, p.at, q);
    assert Run(n, second).inflight - {1} == map[0 := Ticket(d, Queued, Attachment)];
  }

  // After the late failure the accepted message is back in line; five seconds later, still in date, it
  // is posted and accepted a second time.
  lemma AcceptedTwice(p: Parcel, id: Text, again: Text)
    requires Sendable(p)
    ensures FailsLate(Run(Empty(), Overlap(p, id)), LateFailure(p), p.digest)
    ensures Run(Empty(), Overlap(p, id) + [LateFailure(p)]).ledger == One(BackInLine(p, id))
    ensures var events := Overlap(p, id) + [LateFailure(p)] + [TickAt(2, p.digest, p.at + 5)] + [Took(2, again, p.at + 5)];
            Acceptances(Empty(), events, p.digest) == 2
  {
    hide Run, Advance, Acceptances, Accepts, FailsLate, Overlap;
    RunOfOverlap(p, id);
    var n, b, d := Empty(), BackInLine(p, id), p.digest;
    Grows(n, Overlap(p, id), LateFailure(p), d);
    FailureLands(Run(n, Overlap(p, id)), 0, p.at, AcceptedRecord(p, id));
    var failed := Overlap(p, id) + [LateFailure(p)];
    var tick := TickAt(2, d, p.at + 5);
    Grows(n, failed, tick, d);
    TickBegins(Run(n, failed), 2, b, p.at + 5);
    Grows(n, failed + [tick], Took(2, again, p.at + 5), d);
    AcceptLands(Run(n, failed + [tick]), 2, again, p.at + 5, b);
  }

  // With the cancel in between the message comes back without its wire: the ledger that was written
  // can no longer be restored, and the daemon does not come up again.
  lemma RestartRefused(p: Parcel, id: Text)
    requires Sendable(p)
    ensures var n := Run(Empty(), CancelledOverlap(p, id) + [LateFailure(p)]);
            && n.saved == One(BackInLine(p, id).(wire := None)) && !R.Restorable(n.saved)
  {
    hide Run, Advance, Acceptances, Accepts, FailsLate;
    var n, q, d := Empty(), QueuedRecord(p), p.digest;
    var first := [AttachmentOf(p)];
    Starts(n, first[0], d);
    PostBegins(p);
    Grows(n, first, TickAt(1, d, p.at), d);
    TickBegins(Run(n, first), 1, q, p.at);
    var second := first + [TickAt(1, d, p.at)];
    Grows(n, second, Local(OnRecord(d, Cancel), S.Done), d);
    CancelLands(Run(n, second), q);
    var third := second + [Local(OnRecord(d, Cancel), S.Done)];
    Grows(n, third, Took(1, id, p.at), d);
    AcceptLands(Run(n, third), 1, id, p.at, q.(state := Cancelled, wire := None));
    Grows(n, third + [Took(1, id, p.at)], LateFailure(p), d);
    FailureLands(Run(n, third + [Took(1, id, p.at)]), 0, p.at, AcceptedRecord(p, id).(wire := None));
    assert !R.ValidPersisted(d, One(BackInLine(p, id).(wire := None))[d]);
  }

  lemma CancelLands(n: Net, r: DeliveryRecord)
    requires n.ledger == One(r) && r.state == Queued
    ensures var l := One(r.(state := Cancelled, nextRetryAt := None, wire := None));
            Advance(n, Local(OnRecord(r.digest, Cancel), S.Done)) == Net(l, n.inflight, l, l)
  {
    var l := One(r.(state := Cancelled, nextRetryAt := None, wire := None));
    assert Apply(One(r), OnRecord(r.digest, Cancel)).ledger == l;
  }

  // An acceptance that was not written down does not survive a restart: the message is accepted again.
  lemma LostAcceptanceRepeats(p: Parcel, id: Text, again: Text)
    requires Sendable(p) && R.ValidPersisted(p.digest, QueuedRecord(p))
    ensures Regresses(Run(Empty(), LostAcceptance(p, id)), Restart, p.digest)
    ensures var events := LostAcceptance(p, id) + [Restart] + [TickAt(2, p.digest, p.at)] + [Took(2, again, p.at)];
            Acceptances(Empty(), events, p.digest) == 2
  {
    hide Run, Advance, Acceptances, Accepts, Regresses, R.Restorable, R.ValidPersisted;
    var n, q, a, d := Empty(), QueuedRecord(p), AcceptedRecord(p, id), p.digest;
    var first := [PostOf(p)];
    Starts(n, first[0], d);
    PostBegins(p);
    Grows(n, first, Finish(0, Accepted(id), p.at, S.FailedBefore), d);
    AcceptLands(Run(n, first), 0, id, p.at, q);
    var lost, tick := LostAcceptance(p, id), TickAt(2, d, p.at);
    OneRestores(q);
    RestartReads(Run(n, lost), a, q);
    Grows(n, lost, Restart, d);
    Grows(n, lost + [Restart], tick, d);
    TickBegins(Run(n, lost + [Restart]), 2, q, p.at);
    Grows(n, lost + [Restart] + [tick], Took(2, again, p.at), d);
    AcceptLands(Run(n, lost + [Restart] + [tick]), 2, again, p.at, q);
  }

  lemma OneRestores(r: DeliveryRecord)
    requires R.ValidPersisted(r.digest, r)
    ensures R.Restorable(One(r))
  {
    hide R.ValidPersisted;
  }

  lemma RestartReads(n: Net, now: DeliveryRecord, before: DeliveryRecord)
    requires n.ledger == One(now) && n.saved == One(before) && R.Restorable(n.saved)
    requires now.digest == before.digest && now.state == RelayAccepted && before.state == Queued
    ensures Advance(n, Restart) == Net(n.saved, map[], n.saved, n.saved) && Regresses(n, Restart, now.digest)
  {
    hide R.Restorable;
  }

  // ---- a relay that stays down ----

  function RegisterOf(p: Parcel): Op { Register(p.digest, true, Some(p.wire), Some(p.expiresAt), Some(p.destination)) }

  // The parcel is posted, by the user's retry or by the tick whenever it is due, and every post fails.
  function FailedPosts(p: Parcel, automatic: nat -> bool, n: nat): seq<Event>
    requires n <= MAX_ATTEMPTS + 1 && p.at + 155 <= MAX_U64
  {
    if n == 0 then [PostOf(p)]
    else
      R.DueTimeInRange(p.at, n - 1);
      var now := R.DueTime(p.at, n - 1);
      var front := FailedPosts(p, automatic, n - 1);
      (if n == 1 then front else front + [BeginRetry(0, p.digest, automatic(n), now, true)])
      + [Finish(0, Unavailable, now, S.Done)]
  }

  // The parcel's record, and whether the request for the next post is already under way.
  ghost predicate Failing(p: Parcel, n: nat, net: Net)
    requires n <= MAX_ATTEMPTS + 1 && p.at + 155 <= MAX_U64
  {
    var l := One(R.FailedRecord(RegisterOf(p), p.at, n));
    net == Net(l, if n == 0 then map[0 := Ticket(p.digest, Queued, Post)] else map[], l, l)
  }

  // After n failures the record has n attempts and keeps its wire; it may be retried, by the user or the
  // tick, from 5 * (2^n - 1) seconds after the first post and not before. The sixth failure is the last,
  // and leaves a ledger on disk that no restart accepts.
  lemma {:induction false} FailedPostsRun(p: Parcel, automatic: nat -> bool, n: nat)
    requires p.digest != [] && p.at + 155 < p.expiresAt && n <= MAX_ATTEMPTS + 1
    ensures Failing(p, n, Run(Empty(), FailedPosts(p, automatic, n)))
    ensures var r := R.FailedRecord(RegisterOf(p), p.at, n);
            && (0 < n <= MAX_ATTEMPTS ==>
                  forall auto, now: U64 :: MayRetry(r, auto, now, true) <==> R.DueTime(p.at, n) <= now)
            && (n > MAX_ATTEMPTS ==> forall auto, now: U64 :: !MayRetry(r, auto, now, true))
            && (n > MAX_ATTEMPTS ==> !R.Restorable(Run(Empty(), FailedPosts(p, automatic, n)).saved))
  {
    hide Run, Advance, R.DueTime, R.ValidPersisted;
    if n == 0 {
      Starts(Empty(), PostOf(p), p.digest);
      PostBegins(p);
    } else {
      FailedPostsRun(p, automatic, n - 1);
      FailsAgain(p, automatic, n);
      if n > MAX_ATTEMPTS {
        ExhaustedIsRefused(p);
      }
    }
  }

  lemma ExhaustedIsRefused(p: Parcel)
    requires p.at + 155 <= MAX_U64
    ensures !R.Restorable(One(R.FailedRecord(RegisterOf(p), p.at, 6)))
  {
    var r := R.FailedRecord(RegisterOf(p), p.at, 6);
    assert !R.ValidPersisted(p.digest, One(r)[p.digest]);
  }

  lemma FailsAgain(p: Parcel, automatic: nat -> bool, n: nat)
    requires p.digest != [] && p.at + 155 < p.expiresAt && 0 < n <= MAX_ATTEMPTS + 1
    requires Failing(p, n - 1, Run(Empty(), FailedPosts(p, automatic, n - 1)))
    ensures Failing(p, n, Run(Empty(), FailedPosts(p, automatic, n)))
  {
    hide Run, Advance, Accepts, R.DueTime, ActOn;
    R.DueTimeInRange(p.at, n - 1);
    var now, front := R.DueTime(p.at, n - 1), FailedPosts(p, automatic, n - 1);
    var start := BeginRetry(0, p.digest, automatic(n), now, true);
    var posted := if n == 1 then front else front + [start];
    var before := Run(Empty(), posted);
    if n > 1 {
      Grows(Empty(), front, start, p.digest);
      RetryBegins(Run(Empty(), front), R.FailedRecord(RegisterOf(p), p.at, n - 1), automatic(n), now);
    }
    Grows(Empty(), posted, Finish(0, Unavailable, now, S.Done), p.digest);
    var route := if n > 1 && automatic(n) then Tick else Post;
    assert before.inflight == map[0 := Ticket(p.digest, if n == 1 then Queued else Retryable, route)];
    R.FailsOnceMore(RegisterOf(p), p.at, n);
    ReplyLands(before, 0, Unavailable, now, R.FailedRecord(RegisterOf(p), p.at, n - 1));
    assert before.inflight - {0} == map[];
  }

  lemma RetryBegins(n: Net, r: DeliveryRecord, automatic: bool, now: U64)
    requires n.ledger == One(r) && n.inflight == map[] && MayRetry(r, automatic, now, true)
    ensures Advance(n, BeginRetry(0, r.digest, automatic, now, true))
            == n.(inflight := map[0 := Ticket(r.digest, r.state, if automatic then Tick else Post)])
  {}

  // ---- the shared object the routes lock ----

  class OutboundRequests {
    const ledger: DeliveryLedger
    var inflight: map<nat, Ticket>
    var kept: Ledger
    var saved: Ledger

    ghost function Value(): Net
      reads this, ledger
    {
      Net(ledger.records, inflight, kept, saved)
    }

    constructor (ledger: DeliveryLedger)
      ensures this.ledger == ledger && Value() == Net(ledger.records, map[], ledger.records, ledger.records)
      ensures TicketsOk(Value())
    {
      this.ledger := ledger;
      this.inflight, this.kept, this.saved := map[], ledger.records, ledger.records;
    }

    // One ledger write: reported or not, landed or not.
    method Save(w: S.Write) returns (ok: bool)
      modifies this
      ensures Value() == Saved(old(Value()), w) && ok == (w == S.Done)
    {
      if S.Landed(w) {
        saved := ledger.records;
      }
      if w == S.Done {
        kept := ledger.records;
      }
      ok := w == S.Done;
    }

    // First half of the post route, under the lock.
    method StartPost(request: nat, digest: Text, wire: Option<Text>, expiresAt: Option<U64>, destination: Option<Text>, write: S.Write)
      returns (started: bool)
      modifies this, ledger
      ensures Value() == Advance(old(Value()), BeginPost(request, digest, wire, expiresAt, destination, write))
      ensures started ==> digest in ledger.records && digest in saved && !(digest in old(ledger.records))
    {
      ghost var before := ledger.records;
      var r := ledger.RegisterOutbound(digest, true, wire, expiresAt, destination);
      if r.Err? {
        return false;
      }
      var ok := Save(write);
      if !ok {
        var discarded := ledger.DiscardIfState(digest, Queued);
        assert ledger.records == before;
        return false;
      }
      inflight := inflight[request := Ticket(digest, Queued, Post)];
      started := true;
    }

    // First half of the attachment route: a failed batch puts the store's ledger back.
    method StartAttachment(request: nat, digest: Text, wire: Option<Text>, expiresAt: Option<U64>, destination: Option<Text>, write: S.Write)
      returns (started: bool)
      modifies this, ledger
      ensures Value() == Advance(old(Value()), BeginAttachment(request, digest, wire, expiresAt, destination, write))
    {
      hide R.Restorable;
      var r := ledger.RegisterOutbound(digest, false, wire, expiresAt, destination);
      if r.Err? {
        return false;
      }
      var queued := ledger.TransitionTo(digest, Queued);
      var ok := Save(write);
      if !ok {
        if R.Restorable(kept) {
          ledger.records := kept;
        }
        return false;
      }
      inflight := inflight[request := Ticket(digest, Queued, Attachment)];
      started := true;
    }

    // The snapshot of the retry route and of the maintenance tick.
    method StartRetry(request: nat, digest: Text, automatic: bool, now: U64, readable: bool) returns (started: bool)
      modifies this
      ensures Value() == Advance(old(Value()), BeginRetry(request, digest, automatic, now, readable))
    {
      if digest !in ledger.records || !MayRetry(ledger.records[digest], automatic, now, readable) {
        return false;
      }
      inflight := inflight[request := Ticket(digest, ledger.records[digest].state, if automatic then Tick else Post)];
      started := true;
    }

    // The ledger calls of the second half; reports whether an acceptance applied.
    method ApplyReply(t: Ticket, reply: Reply, now: U64) returns (applied: bool)
      requires t.expected in {Queued, Retryable}
      modifies ledger
      ensures ledger.records == Replied(old(ledger.records), t, reply, now)
      ensures reply.Accepted? && t.route != Attachment ==> (applied <==> ledger.records != old(ledger.records))
    {
      hide Backoff;
      applied := true;
      ghost var before := ledger.records;
      if t.digest in before {
        ActsUnfold(before[t.digest], t, reply, now);
        Untouched(before, t.digest);
      }
      if t.route == Attachment {
        if reply.Accepted? {
          var bound := ledger.BindRelayIdOf(t.digest, reply.id);
          var moved := ledger.TransitionTo(t.digest, RelayAccepted);
          assert ledger.records == Replied(before, t, reply, now);
        } else {
          var r := ledger.ScheduleRetryOf(t.digest, now);
        }
        return;
      }
      match reply {
        case Accepted(id) =>
          var r := ledger.AcceptRetryOf(t.digest, t.expected, id);
          applied := r == Ok(true);
          if t.digest in before {
            assert ledger.records[t.digest] != before[t.digest] <==> applied;
          }
        case Gone =>
          var r := ledger.MarkFailedIfCurrentOf(t.digest, t.expected);
        case BadEndpoint =>
          if t.route == Tick {
            var r := ledger.MarkFailedIfCurrentOf(t.digest, t.expected);
          } else {
            var r := ledger.ScheduleRetryIfCurrentOf(t.digest, t.expected, now);
          }
        case Unavailable =>
          var r := ledger.ScheduleRetryIfCurrentOf(t.digest, t.expected, now);
      }
    }

    // The second half of all routes: apply the reply under the lock, and write it unless it did not apply.
    method FinishRequest(request: nat, reply: Reply, now: U64, write: S.Write) returns (accepted: bool)
      requires request in inflight && TicketsOk(Value())
      modifies this, ledger
      ensures Value() == Advance(old(Value()), Finish(request, reply, now, write))
      ensures TicketsOk(Value())
      ensures accepted ==> reply.Accepted? && write == S.Done
    {
      hide Replied, R.Restorable;
      StepTickets(Value(), Finish(request, reply, now, write));
      var t := inflight[request];
      inflight := inflight - {request};
      var applied := ApplyReply(t, reply, now);
      accepted := false;
      if applied || !reply.Accepted? || t.route == Attachment {
        var ok := Save(write);
        accepted := reply.Accepted? && ok;
      }
    }

    // A new process: the ledger on disk, if restore takes it, and no requests.
    method RestartDaemon() returns (up: bool)
      modifies this, ledger
      ensures Value() == Advance(old(Value()), Restart) && up == R.Restorable(old(saved))
    {
      hide R.ValidPersisted;
      up := R.Restorable(saved);
      if up {
        ledger.records := saved;
        inflight, kept := map[], saved;
      }
    }
  }
}
