/** MLS sessions, one per conversation: receive in memory, checkpoint, poison. */
module Sessions {
  import opened Prelude
  import opened Text
  import opened RecordCodec

  // The state of one MLS group, as the provider's storage holds it.
  type Group = Bytes

  datatype Mls = Mls(
    receive: (Group, Bytes) -> Option<(Group, Option<Bytes>)>, // plaintext, or none for a commit
    snapshot: Group -> Option<Bytes>,
    load: Bytes -> Option<Group>)

  // A snapshot loads back, and a message that is accepted moves the group on.
  ghost predicate Lawful(m: Mls) {
    && (forall g :: m.snapshot(g).Some? ==> m.load(m.snapshot(g).value) == Some(g))
    && (forall g, c :: m.receive(g, c).Some? ==> m.receive(g, c).value.0 != g)
  }

  lemma LawfulMlsExists() returns (m: Mls)
    ensures Lawful(m)
  {
    m := Mls((g, c) => Some((g + [0], Some(c))), g => Some(g), b => Some(b));
    assert forall g: Group :: g + [0] != g;
  }

  datatype Session = Session(group: Option<Group>, poisoned: bool)

  type Catalog = map<Text, Session>

  const SNAPSHOT_LIMIT := 4 * 1024 * 1024

  predicate ValidConversation(id: Text) {
    && id != [] && |id| <= 128
    && forall i :: 0 <= i < |id| ==>
         48 <= id[i] <= 57 || 65 <= id[i] <= 90 || 97 <= id[i] <= 122 || id[i] == 45 || id[i] == 95
  }

  const SESSION_PREFIX: Bytes := Ascii("mls/session/")

  function CheckpointId(conversation: Text): RecordId {
    RecordId(ProtocolSession, SESSION_PREFIX + conversation)
  }

  // receive_delivery_unpersisted: a failure changes nothing.
  function Received(m: Mls, catalog: Catalog, conversation: Text, wire: Bytes): Option<(Catalog, Option<Bytes>)> {
    if !ValidConversation(conversation) || conversation !in catalog then None
    else
      var s := catalog[conversation];
      if s.poisoned || s.group.None? then None
      else
        match m.receive(s.group.value, wire)
        case None => None
        case Some((next, plaintext)) => Some((catalog[conversation := s.(group := Some(next))], plaintext))
  }

  function Checkpoint(m: Mls, catalog: Catalog, conversation: Text): Option<Bytes> {
    if !ValidConversation(conversation) || conversation !in catalog then None
    else
      var s := catalog[conversation];
      if s.poisoned || s.group.None? then None
      else
        match m.snapshot(s.group.value)
        case None => None
        case Some(bytes) => if |bytes| > SNAPSHOT_LIMIT then None else Some(bytes)
  }

  function Poisoned(catalog: Catalog, conversation: Text): Catalog {
    if conversation in catalog then catalog[conversation := catalog[conversation].(poisoned := true)] else catalog
  }

  class MlsSessionCatalog {
    const mls: Mls
    var sessions: Catalog

    constructor (mls: Mls, sessions: Catalog)
      ensures this.mls == mls && this.sessions == sessions
    {
      this.mls, this.sessions := mls, sessions;
    }

    method ReceiveDeliveryUnpersisted(conversation: Text, wire: Bytes) returns (r: Option<Option<Bytes>>)
      modifies this
      ensures match Received(mls, old(sessions), conversation, wire)
              case None => r.None? && sessions == old(sessions)
              case Some((catalog, plaintext)) => r == Some(plaintext) && sessions == catalog
    {
      if !ValidConversation(conversation) || conversation !in sessions {
        return None;
      }
      var session := sessions[conversation];
      if session.poisoned || session.group.None? {
        return None;
      }
      match mls.receive(session.group.value, wire) {
        case None => r := None;
        case Some((next, plaintext)) =>
          sessions := sessions[conversation := session.(group := Some(next))];
          r := Some(plaintext);
      }
    }

    method CheckpointBytes(conversation: Text) returns (r: Option<Bytes>)
      ensures r == Checkpoint(mls, sessions, conversation)
      ensures Lawful(mls) && r.Some? ==>
                && conversation in sessions && !sessions[conversation].poisoned && |r.value| <= SNAPSHOT_LIMIT
                && mls.load(r.value) == sessions[conversation].group
    {
      if !ValidConversation(conversation) || conversation !in sessions {
        return None;
      }
      var session := sessions[conversation];
      if session.poisoned || session.group.None? {
        return None;
      }
      r := mls.snapshot(session.group.value);
      if r.Some? && |r.value| > SNAPSHOT_LIMIT {
        r := None;
      }
    }

    method Poison(conversation: Text)
      modifies this
      ensures sessions == Poisoned(old(sessions), conversation)
    {
      if conversation in sessions {
        sessions := sessions[conversation := sessions[conversation].(poisoned := true)];
      }
    }
  }
}
