/** The plaintext record payload of the encrypted store: `encode_records` and `decode_records`. */
module RecordCodec {
  import opened Prelude
  import opened Text

  datatype RecordClass =
    | AccountRoot | Device | ProtocolSession | Transcript | Recovery | Account | Contact
    | Conversation | Message | Outbox | Inbox | Attachment | Seen

  datatype StorageError =
    | Io | CorruptStore | AuthenticationFailed | RollbackDetected | RecordTooLarge | TooManyRecords | Locked

  const MAX_RECORDS := 4096
  const MAX_KEY_BYTES := 256
  const MAX_VALUE_BYTES := 4 * 1024 * 1024

  function ClassByte(c: RecordClass): Byte {
    match c
    case AccountRoot => 1
    case Device => 2
    case ProtocolSession => 3
    case Transcript => 4
    case Recovery => 5
    case Account => 6
    case Contact => 7
    case Conversation => 8
    case Message => 9
    case Outbox => 10
    case Inbox => 11
    case Attachment => 12
    case Seen => 13
  }

  function ClassFromByte(b: Byte): Option<RecordClass> {
    match b
    case 1 => Some(AccountRoot)
    case 2 => Some(Device)
    case 3 => Some(ProtocolSession)
    case 4 => Some(Transcript)
    case 5 => Some(Recovery)
    case 6 => Some(Account)
    case 7 => Some(Contact)
    case 8 => Some(Conversation)
    case 9 => Some(Message)
    case 10 => Some(Outbox)
    case 11 => Some(Inbox)
    case 12 => Some(Attachment)
    case 13 => Some(Seen)
    case _ => None
  }

  datatype RecordId = RecordId(cls: RecordClass, key: Text)

  type Records = map<RecordId, Bytes>

  datatype Entry = Entry(id: RecordId, value: Bytes)

  // validate_record_key: non-empty, bounded, no ASCII control byte. A Rust key is a String, hence UTF-8.
  predicate ValidKey(key: Text) {
    Utf8(key) && key != [] && |key| <= MAX_KEY_BYTES && forall i :: 0 <= i < |key| ==> 32 <= key[i] && key[i] != 127
  }

  lemma PlainKeyOk(key: Text)
    requires key != [] && |key| <= MAX_KEY_BYTES && PlainText(key)
    ensures ValidKey(key)
  {
    AsciiIsUtf8(key);
  }

  predicate EntryOk(e: Entry) {
    ValidKey(e.id.key) && |e.value| <= MAX_VALUE_BYTES
  }

  predicate RecordsOk(records: Records) {
    forall id :: id in records ==> EntryOk(Entry(id, records[id]))
  }

  // ---- the iteration order of BTreeMap<(RecordClass, String), _> ----

  predicate LexLe(a: Bytes, b: Bytes) {
    a == [] || (b != [] && (a[0] < b[0] || (a[0] == b[0] && LexLe(a[1..], b[1..]))))
  }

  predicate IdLe(a: RecordId, b: RecordId) {
    ClassByte(a.cls) < ClassByte(b.cls) || (a.cls == b.cls && LexLe(a.key, b.key))
  }

  lemma {:induction false} LexTotal(a: Bytes, b: Bytes)
    ensures LexLe(a, b) || LexLe(b, a)
    ensures LexLe(a, b) && LexLe(b, a) ==> a == b
  {
    if a != [] && b != [] {
      LexTotal(a[1..], b[1..]);
      assert a == [a[0]] + a[1..] && b == [b[0]] + b[1..];
    }
  }

  lemma {:induction false} LexTransitive(a: Bytes, b: Bytes, c: Bytes)
    requires LexLe(a, b) && LexLe(b, c)
    ensures LexLe(a, c)
  {
    if a != [] && a[0] == b[0] && b[0] == c[0] {
      LexTransitive(a[1..], b[1..], c[1..]);
    }
  }

  lemma IdTotal(a: RecordId, b: RecordId)
    ensures IdLe(a, b) || IdLe(b, a)
    ensures IdLe(a, b) && IdLe(b, a) ==> a == b
  {
    LexTotal(a.key, b.key);
  }

  lemma IdTransitive(a: RecordId, b: RecordId, c: RecordId)
    requires IdLe(a, b) && IdLe(b, c)
    ensures IdLe(a, c)
  {
    if a.cls == b.cls && b.cls == c.cls {
      LexTransitive(a.key, b.key, c.key);
    }
  }

  predicate IsLeast(least: RecordId, s: set<RecordId>) {
    least in s && forall o :: o in s ==> IdLe(least, o)
  }

  lemma {:induction false} LeastExists(s: set<RecordId>)
    requires s != {}
    ensures exists k :: IsLeast(k, s)
    ensures forall j, k :: IsLeast(j, s) && IsLeast(k, s) ==> j == k
  {
    forall j, k | IsLeast(j, s) && IsLeast(k, s) ensures j == k {
      IdTotal(j, k);
    }
    var x :| x in s;
    var rest := s - {x};
    IdTotal(x, x);
    if rest == {} {
      assert s == {x};
      assert IsLeast(x, s);
    } else {
      LeastExists(rest);
      var y :| IsLeast(y, rest);
      IdTotal(x, y);
      if IdLe(x, y) {
        forall o | o in s ensures IdLe(x, o) {
          if o in rest { IdTransitive(x, y, o); }
        }
        assert IsLeast(x, s);
      } else {
        assert IsLeast(y, s);
      }
    }
  }

  predicate Sorted(ids: seq<RecordId>) {
    && Distinct(ids)
    && forall i, j :: 0 <= i < j < |ids| ==> IdLe(ids[i], ids[j])
  }

  // The keys of the tree in iteration order.
  function SortedIds(s: set<RecordId>): (ids: seq<RecordId>)
    ensures Elements(ids) == s
    ensures Sorted(ids)
  {
    if s == {} then []
    else
      LeastExists(s);
      var k :| IsLeast(k, s);
      var rest := SortedIds(s - {k});
      LeastFirst(k, rest, s);
      [k] + rest
  }

  lemma LeastFirst(k: RecordId, rest: seq<RecordId>, s: set<RecordId>)
    requires IsLeast(k, s) && Sorted(rest) && Elements(rest) == s - {k}
    ensures Sorted([k] + rest) && Elements([k] + rest) == s
  {
    hide IdLe;
    assert forall i :: 0 <= i < |rest| ==> rest[i] in Elements(rest);
    var ids := [k] + rest;
    assert Elements(ids) == {k} + Elements(rest);
    forall i, j | 0 <= i < j < |ids| ensures ids[i] != ids[j] && IdLe(ids[i], ids[j]) {
      assert ids[j] == rest[j - 1];
      if i > 0 { assert ids[i] == rest[i - 1]; }
    }
  }

  // The iteration order is determined by the key set.
  lemma {:induction false} SortedUnique(a: seq<RecordId>, b: seq<RecordId>)
    requires Sorted(a) && Sorted(b) && Elements(a) == Elements(b)
    ensures a == b
  {
    ElementCount(a);
    ElementCount(b);
    if a != [] {
      assert a[0] in Elements(b) && b[0] in Elements(a);
      var i :| 0 <= i < |b| && b[i] == a[0];
      var j :| 0 <= j < |a| && a[j] == b[0];
      IdTotal(a[0], b[0]);
      assert a[0] == b[0];
      TailElements(a);
      TailElements(b);
      SortedUnique(a[1..], b[1..]);
      assert a == [a[0]] + a[1..] && b == [b[0]] + b[1..];
    }
  }

  lemma TailElements(a: seq<RecordId>)
    requires a != [] && Distinct(a)
    ensures Elements(a[1..]) == Elements(a) - {a[0]}
  {
    forall x | x in Elements(a) - {a[0]} ensures x in Elements(a[1..]) {
      var i :| 0 <= i < |a| && a[i] == x;
      assert a[1..][i - 1] == x;
    }
  }

  // ---- entry lists ----

  function Ids(es: seq<Entry>): (ids: seq<RecordId>)
    ensures |ids| == |es|
  {
    seq(|es|, i requires 0 <= i < |es| => es[i].id)
  }

  function ToMap(es: seq<Entry>): Records {
    if es == [] then map[] else ToMap(es[..|es| - 1])[es[|es| - 1].id := es[|es| - 1].value]
  }

  ghost predicate EntriesOk(es: seq<Entry>) {
    && Distinct(Ids(es))
    && forall i :: 0 <= i < |es| ==> EntryOk(es[i])
  }

  lemma ToMapGrows(es: seq<Entry>, e: Entry)
    ensures ToMap(es + [e]) == ToMap(es)[e.id := e.value]
    ensures Ids(es + [e]) == Ids(es) + [e.id]
    ensures Elements(Ids(es + [e])) == Elements(Ids(es)) + {e.id}
    ensures Distinct(Ids(es + [e])) <==> Distinct(Ids(es)) && e.id !in Ids(es)
  {
    var all := es + [e];
    assert all[..|all| - 1] == es;
    assert Ids(all) == Ids(es) + [e.id];
    assert forall i :: 0 <= i < |es| ==> Ids(all)[i] == Ids(es)[i];
    assert Ids(all)[|es|] == e.id;
  }

  lemma {:induction false} ToMapKeys(es: seq<Entry>)
    ensures ToMap(es).Keys == Elements(Ids(es))
  {
    if es != [] {
      var front, last := es[..|es| - 1], es[|es| - 1];
      ToMapKeys(front);
      assert es == front + [last];
      ToMapGrows(front, last);
    }
  }

  lemma {:induction false} ToMapContents(es: seq<Entry>)
    requires Distinct(Ids(es))
    ensures ToMap(es).Keys == Elements(Ids(es)) && |ToMap(es)| == |es|
    ensures forall i :: 0 <= i < |es| ==> es[i].id in ToMap(es) && ToMap(es)[es[i].id] == es[i].value
  {
    ToMapKeys(es);
    ElementCount(Ids(es));
    assert |ToMap(es)| == |ToMap(es).Keys|;
    forall i | 0 <= i < |es| ensures es[i].id in ToMap(es) && ToMap(es)[es[i].id] == es[i].value {
      assert Ids(es)[i] in Elements(Ids(es));
      ToMapAt(es, i);
    }
  }

  lemma {:induction false} ToMapAt(es: seq<Entry>, i: nat)
    requires Distinct(Ids(es)) && i < |es|
    ensures es[i].id in ToMap(es) && ToMap(es)[es[i].id] == es[i].value
  {
    var front, last := es[..|es| - 1], es[|es| - 1];
    assert es == front + [last];
    ToMapGrows(front, last);
    if i < |front| {
      assert front[i] == es[i];
      assert Ids(front)[i] == es[i].id;
      ToMapAt(front, i);
    }
  }

  // The tree's entries in iteration order.
  function SortedEntries(records: Records): (es: seq<Entry>)
    ensures |es| == |records| && Ids(es) == SortedIds(records.Keys)
    ensures forall i :: 0 <= i < |es| ==> es[i].id in records && es[i].value == records[es[i].id]
  {
    var ids := SortedIds(records.Keys);
    assert forall i :: 0 <= i < |ids| ==> ids[i] in Elements(ids);
    ElementCount(ids);
    var es := seq(|ids|, i requires 0 <= i < |ids| => Entry(ids[i], records[ids[i]]));
    assert Ids(es) == ids;
    es
  }

  lemma EntryOf(records: Records, id: RecordId) returns (i: nat)
    requires id in records
    ensures i < |SortedEntries(records)| && SortedEntries(records)[i] == Entry(id, records[id])
  {
    var es := SortedEntries(records);
    assert id in Elements(Ids(es));
    i :| i < |es| && Ids(es)[i] == id;
  }

  lemma SortedEntriesMap(records: Records)
    ensures ToMap(SortedEntries(records)) == records
  {
    var es := SortedEntries(records);
    ToMapContents(es);
    assert ToMap(es).Keys == records.Keys;
    forall id | id in records ensures ToMap(es)[id] == records[id] {
      var i := EntryOf(records, id);
      assert es[i].id == id;
    }
  }

  // ---- encoding ----

  function EntryBytes(e: Entry): Bytes {
    [ClassByte(e.id.cls)] + BigEndian(|e.id.key|, 2) + BigEndian(|e.value|, 4) + e.id.key + e.value
  }

  function EncodeEntries(es: seq<Entry>): Bytes {
    if es == [] then [] else EncodeEntries(es[..|es| - 1]) + EntryBytes(es[|es| - 1])
  }

  const MAGIC: Bytes := [65, 68, 80, 65, 89, 49]  // "ADPAY1"

  function Payload(es: seq<Entry>): Bytes {
    MAGIC + BigEndian(|es|, 4) + EncodeEntries(es)
  }

  function Encode(records: Records): Result<Bytes, StorageError> {
    if |records| > MAX_RECORDS then Err(TooManyRecords)
    else if !RecordsOk(records) then Err(RecordTooLarge)
    else Ok(Payload(SortedEntries(records)))
  }

  // ---- decoding ----

  datatype Parsed = Parsed(entry: Entry, rest: Bytes)

  // One turn of the decode loop, on the bytes from the current offset on.
  function ParseEntry(b: Bytes): Result<Parsed, StorageError> {
    if |b| < 7 || ClassFromByte(b[0]).None? then Err(CorruptStore)
    else
      var keyLen := FromBigEndian(b[1..3]);
      var valueLen := FromBigEndian(b[3..7]);
      if keyLen > MAX_KEY_BYTES || valueLen > MAX_VALUE_BYTES || |b| < 7 + keyLen + valueLen then Err(CorruptStore)
      else if !Utf8(b[7..7 + keyLen]) then Err(CorruptStore)
      else if !ValidKey(b[7..7 + keyLen]) then Err(RecordTooLarge)
      else Ok(Parsed(Entry(RecordId(ClassFromByte(b[0]).value, b[7..7 + keyLen]), b[7 + keyLen..7 + keyLen + valueLen]),
                     b[7 + keyLen + valueLen..]))
  }

  // The rest of the loop: `done` are the entries already read, `count` those still announced.
  function ParseEntries(b: Bytes, count: nat, done: seq<Entry>): Result<seq<Entry>, StorageError>
    decreases count
  {
    if count == 0 then if b == [] then Ok(done) else Err(CorruptStore)
    else
      match ParseEntry(b)
      case Err(e) => Err(e)
      case Ok(p) =>
        if p.entry.id in Ids(done) then Err(CorruptStore) else ParseEntries(p.rest, count - 1, done + [p.entry])
  }

  function ParsePayload(b: Bytes): Result<seq<Entry>, StorageError> {
    if |b| < 10 || b[..6] != MAGIC then Err(CorruptStore)
    else if FromBigEndian(b[6..10]) > MAX_RECORDS then Err(TooManyRecords)
    else ParseEntries(b[10..], FromBigEndian(b[6..10]), [])
  }

  function Decode(b: Bytes): Result<Records, StorageError> {
    match ParsePayload(b)
    case Err(e) => Err(e)
    case Ok(es) => Ok(ToMap(es))
  }

  // ---- one entry ----

  lemma ClassRoundTrip(c: RecordClass)
    ensures ClassFromByte(ClassByte(c)) == Some(c)
    ensures forall b :: ClassFromByte(b) == Some(c) ==> b == ClassByte(c)
  {}

  lemma ParseEntryOfBytes(e: Entry, rest: Bytes)
    requires EntryOk(e)
    ensures ParseEntry(EntryBytes(e) + rest) == Ok(Parsed(e, rest))
  {
    var k, v := e.id.key, e.value;
    var b := EntryBytes(e) + rest;
    WordSizes();
    BigEndianRoundTrip(|k|, 2);
    BigEndianRoundTrip(|v|, 4);
    ClassRoundTrip(e.id.cls);
    assert b[0] == ClassByte(e.id.cls);
    assert b[1..3] == BigEndian(|k|, 2);
    assert b[3..7] == BigEndian(|v|, 4);
    assert b[7..7 + |k|] == k;
    assert b[7 + |k|..7 + |k| + |v|] == v;
    assert b[7 + |k| + |v|..] == rest;
  }

  lemma ParseEntryExact(b: Bytes)
    requires ParseEntry(b).Ok?
    ensures EntryOk(ParseEntry(b).value.entry)
    ensures b == EntryBytes(ParseEntry(b).value.entry) + ParseEntry(b).value.rest
  {
    var p := ParseEntry(b).value;
    var keyLen, valueLen := FromBigEndian(b[1..3]), FromBigEndian(b[3..7]);
    FromBigEndianRoundTrip(b[1..3]);
    FromBigEndianRoundTrip(b[3..7]);
    assert ClassByte(p.entry.id.cls) == b[0];
    Slices(b, 1, 3, 7, 7 + keyLen, 7 + keyLen + valueLen);
    assert b[..1] == [b[0]];
  }

  // ---- the list of entries ----

  lemma {:induction false} EncodeEntriesHead(e: Entry, es: seq<Entry>)
    ensures EncodeEntries([e] + es) == EntryBytes(e) + EncodeEntries(es)
  {
    hide EntryBytes;
    if es == [] {
      assert [e] + es == [e];
      assert EncodeEntries([e]) == EncodeEntries([]) + EntryBytes(e);
    } else {
      var all := [e] + es;
      assert all[..|all| - 1] == [e] + es[..|es| - 1];
      EncodeEntriesHead(e, es[..|es| - 1]);
    }
  }

  lemma NextIsFresh(done: seq<Entry>, es: seq<Entry>)
    requires EntriesOk(done + es) && es != []
    ensures es[0].id !in Ids(done) && EntryOk(es[0])
  {
    var all := done + es;
    assert all[|done|] == es[0];
    assert Ids(all)[|done|] == es[0].id;
    assert forall i :: 0 <= i < |done| ==> Ids(all)[i] == Ids(done)[i];
  }

  lemma ParseEntriesStep(b: Bytes, count: nat, done: seq<Entry>, p: Parsed)
    requires count > 0 && ParseEntry(b) == Ok(p) && p.entry.id !in Ids(done)
    ensures ParseEntries(b, count, done) == ParseEntries(p.rest, count - 1, done + [p.entry])
  {}

  lemma {:induction false} ParseOfEncoded(done: seq<Entry>, es: seq<Entry>)
    requires EntriesOk(done + es)
    ensures ParseEntries(EncodeEntries(es), |es|, done) == Ok(done + es)
    decreases |es|
  {
    hide ParseEntry, EntryBytes, EntryOk;
    if es == [] {
      assert done + es == done;
    } else {
      var e, tail := es[0], es[1..];
      assert es == [e] + tail;
      EncodeEntriesHead(e, tail);
      NextIsFresh(done, es);
      ParseEntryOfBytes(e, EncodeEntries(tail));
      ParseEntriesStep(EncodeEntries(es), |es|, done, Parsed(e, EncodeEntries(tail)));
      assert done + es == (done + [e]) + tail;
      ParseOfEncoded(done + [e], tail);
    }
  }

  lemma {:induction false} ParseExact(b: Bytes, count: nat, done: seq<Entry>)
    requires EntriesOk(done)
    requires ParseEntries(b, count, done).Ok?
    ensures var es := ParseEntries(b, count, done).value;
            && done <= es && |es| == |done| + count && EntriesOk(es)
            && b == EncodeEntries(es[|done|..])
    decreases count
  {
    hide ParseEntry, EntryBytes, EntryOk;
    if count > 0 {
      ParseEntryExact(b);
      var p := ParseEntry(b).value;
      var next := done + [p.entry];
      assert EntriesOk(next) by {
        assert Ids(next) == Ids(done) + [p.entry.id];
      }
      ParseExact(p.rest, count - 1, next);
      var es := ParseEntries(b, count, done).value;
      assert es[|done|] == p.entry by { assert next <= es; }
      assert es[|done|..] == [p.entry] + es[|next|..];
      EncodeEntriesHead(p.entry, es[|next|..]);
    }
  }

  // ---- the payload ----

  // Any list of valid entries with distinct ids is read back from its payload.
  lemma ParsePayloadOfList(es: seq<Entry>)
    requires EntriesOk(es) && |es| <= MAX_RECORDS
    ensures ParsePayload(Payload(es)) == Ok(es)
  {
    var b := Payload(es);
    WordSizes();
    BigEndianRoundTrip(|es|, 4);
    assert b[..6] == MAGIC;
    assert b[6..10] == BigEndian(|es|, 4);
    assert b[10..] == EncodeEntries(es);
    assert [] + es == es;
    ParseOfEncoded([], es);
  }

  // Only such payloads are accepted: the decoder has no second spelling of a list.
  lemma ParsePayloadExact(b: Bytes)
    ensures ParsePayload(b).Ok? ==>
              var es := ParsePayload(b).value;
              EntriesOk(es) && |es| <= MAX_RECORDS && b == Payload(es)
  {
    hide ParseEntries, EncodeEntries;
    if ParsePayload(b).Ok? {
      var es := ParsePayload(b).value;
      ParseExact(b[10..], FromBigEndian(b[6..10]), []);
      FromBigEndianRoundTrip(b[6..10]);
      assert es[0..] == es;
      assert b[..10] == b[..6] + b[6..10];
      assert b == b[..10] + b[10..];
    }
  }

  lemma SortedEntriesOk(records: Records)
    requires RecordsOk(records)
    ensures EntriesOk(SortedEntries(records))
  {}

  // decode_records(encode_records(m)) == m for every map the encoder accepts.
  lemma DecodeOfEncode(records: Records)
    requires Encode(records).Ok?
    ensures Decode(Encode(records).value) == Ok(records)
  {
    SortedEntriesOk(records);
    SortedEntriesMap(records);
    ParsePayloadOfList(SortedEntries(records));
  }

  // Whatever the decoder accepts, the encoder accepts again, and the two byte
  // strings are the same exactly when the input lists its keys in map order.
  lemma EncodeOfDecode(b: Bytes)
    ensures Decode(b).Ok? ==>
              var again := Encode(Decode(b).value);
              && again.Ok? && Decode(again.value) == Decode(b)
              && (again.value == b <==> Sorted(Ids(ParsePayload(b).value)))
  {
    hide ParsePayload, Payload;
    if Decode(b).Ok? {
      ParsePayloadExact(b);
      var es, records := ParsePayload(b).value, Decode(b).value;
      EntriesEncodable(es);
      DecodeOfEncode(records);
      var sorted := SortedEntries(records);
      SortedEntriesOk(records);
      ParsePayloadOfList(sorted);
      if Sorted(Ids(es)) {
        SortedListIsOrder(es);
      }
    }
  }

  lemma MappedEntryOk(es: seq<Entry>, id: RecordId)
    requires EntriesOk(es) && id in ToMap(es)
    ensures EntryOk(Entry(id, ToMap(es)[id]))
  {
    ToMapContents(es);
    var i :| 0 <= i < |es| && Ids(es)[i] == id;
    assert es[i] == Entry(id, ToMap(es)[id]);
  }

  lemma EntriesEncodable(es: seq<Entry>)
    requires EntriesOk(es) && |es| <= MAX_RECORDS
    ensures Encode(ToMap(es)).Ok?
  {
    ToMapContents(es);
    forall id | id in ToMap(es) ensures EntryOk(Entry(id, ToMap(es)[id])) {
      MappedEntryOk(es, id);
    }
  }

  lemma SortedListIsOrder(es: seq<Entry>)
    requires EntriesOk(es) && Sorted(Ids(es))
    ensures es == SortedEntries(ToMap(es))
  {
    var sorted := SortedEntries(ToMap(es));
    ToMapContents(es);
    SortedUnique(Ids(es), Ids(sorted));
    forall i | 0 <= i < |es| ensures es[i] == sorted[i] {
      assert Ids(es)[i] == Ids(sorted)[i];
    }
  }

  // ---- the loops of the daemon ----

  method AppendEntry(bytes: Bytes, e: Entry) returns (grown: Bytes)
    ensures grown == bytes + EntryBytes(e)
  {
    grown := bytes + [ClassByte(e.id.cls)];
    grown := grown + BigEndian(|e.id.key|, 2);
    grown := grown + BigEndian(|e.value|, 4);
    grown := grown + e.id.key;
    grown := grown + e.value;
  }

  lemma EncodeEntriesGrows(header: Bytes, es: seq<Entry>, i: nat)
    requires i < |es|
    ensures header + EncodeEntries(es[..i + 1]) == header + EncodeEntries(es[..i]) + EntryBytes(es[i])
  {
    assert es[..i + 1][..i] == es[..i];
  }

  lemma EncodeEntriesNone()
    ensures EncodeEntries([]) == []
  {}

  // The encode loop, over the tree's entries in iteration order.
  method EncodeInOrder(order: seq<Entry>) returns (r: Result<Bytes, StorageError>)
    ensures r == if forall i :: 0 <= i < |order| ==> EntryOk(order[i]) then Ok(Payload(order)) else Err(RecordTooLarge)
  {
    var bytes := MAGIC + BigEndian(|order|, 4);
    ghost var header := bytes;
    EncodeEntriesNone();
    assert order[..0] == [];
    for i := 0 to |order|
      invariant bytes == header + EncodeEntries(order[..i])
      invariant forall j :: 0 <= j < i ==> EntryOk(order[j])
    {
      var e := order[i];
      if !ValidKey(e.id.key) || |e.value| > MAX_VALUE_BYTES {
        return Err(RecordTooLarge);
      }
      bytes := AppendEntry(bytes, e);
      EncodeEntriesGrows(header, order, i);
    }
    assert order[..|order|] == order;
    r := Ok(bytes);
  }

  method EncodeRecords(records: Records) returns (r: Result<Bytes, StorageError>)
    ensures r == Encode(records)
  {
    if |records| > MAX_RECORDS {
      return Err(TooManyRecords);
    }
    r := EncodeInOrder(SortedEntries(records));
    OrderCovers(records);
  }

  lemma OrderCovers(records: Records)
    ensures RecordsOk(records) <==> forall i :: 0 <= i < |SortedEntries(records)| ==> EntryOk(SortedEntries(records)[i])
  {
    var es := SortedEntries(records);
    assert forall i :: 0 <= i < |es| ==> es[i] == Entry(es[i].id, records[es[i].id]);
    forall id | id in records ensures exists i :: 0 <= i < |es| && es[i] == Entry(id, records[id]) {
      var i := EntryOf(records, id);
    }
  }

  // Reads the record at `offset`; the result carries the offset after it.
  method ReadEntry(bytes: Bytes, offset: nat) returns (r: Result<(Entry, nat), StorageError>)
    requires offset <= |bytes|
    ensures r.Err? ==> ParseEntry(bytes[offset..]) == Err(r.error)
    ensures r.Ok? ==> offset <= r.value.1 <= |bytes|
                      && ParseEntry(bytes[offset..]) == Ok(Parsed(r.value.0, bytes[r.value.1..]))
  {
    hide FromBigEndian, ClassFromByte, Utf8, ValidKey;
    if |bytes| < offset + 7 {
      return Err(CorruptStore);
    }
    var cls := ClassFromByte(bytes[offset]);
    if cls.None? {
      return Err(CorruptStore);
    }
    var next := offset + 1;
    var keyLen := FromBigEndian(bytes[next..next + 2]);
    SliceOfSuffix(bytes, offset, 1, 3);
    next := next + 2;
    var valueLen := FromBigEndian(bytes[next..next + 4]);
    SliceOfSuffix(bytes, offset, 3, 7);
    next := next + 4;
    if keyLen > MAX_KEY_BYTES || valueLen > MAX_VALUE_BYTES || |bytes| < next + keyLen + valueLen {
      return Err(CorruptStore);
    }
    var key := bytes[next..next + keyLen];
    SliceOfSuffix(bytes, offset, 7, 7 + keyLen);
    if !Utf8(key) {
      return Err(CorruptStore);
    }
    next := next + keyLen;
    if !ValidKey(key) {
      return Err(RecordTooLarge);
    }
    var value := bytes[next..next + valueLen];
    SliceOfSuffix(bytes, offset, 7 + keyLen, 7 + keyLen + valueLen);
    next := next + valueLen;
    r := Ok((Entry(RecordId(cls.value, key), value), next));
  }

  method DecodeRecords(bytes: Bytes) returns (r: Result<Records, StorageError>)
    ensures r == Decode(bytes)
  {
    hide ParseEntry, Ids, FromBigEndian;
    if |bytes| < 10 || bytes[..6] != MAGIC {
      return Err(CorruptStore);
    }
    var offset := 6;
    var count := FromBigEndian(bytes[offset..offset + 4]);
    offset := offset + 4;
    if count > MAX_RECORDS {
      return Err(TooManyRecords);
    }
    var records: Records := map[];
    ghost var done: seq<Entry> := [];
    for i := 0 to count
      invariant 10 <= offset <= |bytes|
      invariant records == ToMap(done)
      invariant records.Keys == Elements(Ids(done))
      invariant ParsePayload(bytes) == ParseEntries(bytes[offset..], count - i, done)
    {
      var entry := ReadEntry(bytes, offset);
      if entry.Err? {
        return Err(entry.error);
      }
      var e := entry.value.0;
      if e.id in records {
        assert e.id in Elements(Ids(done));
        return Err(CorruptStore);
      }
      ParseEntriesStep(bytes[offset..], count - i, done, Parsed(e, bytes[entry.value.1..]));
      offset := entry.value.1;
      records := records[e.id := e.value];
      ToMapGrows(done, e);
      done := done + [e];
    }
    if offset != |bytes| {
      return Err(CorruptStore);
    }
    r := Ok(records);
  }
}
