/** The encrypted store file, the revision marker beside it, and what `open` makes of the two. */
module StoreFile {
  import opened Prelude
  import opened Text
  import opened Aead
  import opened RecordCodec

  const FILE_MAGIC: Bytes := [65, 68, 83, 84, 79, 82, 69, 49]  // "ADSTORE1"
  const FILE_VERSION: Byte := 1
  const SALT_BYTES := 16

  type Salt = s: Bytes | |s| == SALT_BYTES witness seq(SALT_BYTES, i => 0)

  datatype Sealed = Sealed(salt: Salt, revision: U64, nonce: Nonce, ciphertext: Bytes)

  // ---- encode_file / parse_file ----

  function AssociatedData(salt: Salt, revision: U64): Bytes {
    FILE_MAGIC + [FILE_VERSION] + salt + BigEndian(revision, 8)
  }

  function EncodeFile(f: Sealed): Bytes {
    FILE_MAGIC + [FILE_VERSION] + f.salt + BigEndian(f.revision, 8) + f.nonce + f.ciphertext
  }

  const MIN_FILE_BYTES := 8 + 1 + SALT_BYTES + 8 + NONCE_BYTES + TAG_BYTES

  function ParseFile(b: Bytes): Result<Sealed, StorageError> {
    if |b| < MIN_FILE_BYTES || b[..8] != FILE_MAGIC || b[8] != FILE_VERSION then Err(CorruptStore)
    else
      RevisionFits(b[25..33]);
      Ok(Sealed(b[9..25], FromBigEndian(b[25..33]), b[33..45], b[45..]))
  }

  lemma RevisionFits(b: Bytes)
    requires |b| == 8
    ensures FromBigEndian(b) <= MAX_U64
  {
    FromBigEndianRoundTrip(b);
    WordSizes();
  }

  lemma ParseOfFile(f: Sealed)
    requires |f.ciphertext| >= TAG_BYTES
    ensures ParseFile(EncodeFile(f)) == Ok(f)
  {
    var b := EncodeFile(f);
    WordSizes();
    BigEndianRoundTrip(f.revision, 8);
    assert b[..8] == FILE_MAGIC;
    assert b[9..25] == f.salt;
    assert b[25..33] == BigEndian(f.revision, 8);
    assert b[33..45] == f.nonce;
    assert b[45..] == f.ciphertext;
  }

  // The parser accepts only what the encoder writes.
  lemma FileOfParse(b: Bytes)
    ensures ParseFile(b).Ok? ==> EncodeFile(ParseFile(b).value) == b
  {
    if ParseFile(b).Ok? {
      FromBigEndianRoundTrip(b[25..33]);
      Slices(b, 8, 9, 25, 33, 45);
      assert b[8..9] == [b[8]];
    }
  }

  // The header is bound to the contents: the associated data determines salt and revision.
  lemma AssociatedDataBinds(salt: Salt, revision: U64, otherSalt: Salt, otherRevision: U64)
    ensures AssociatedData(salt, revision) == AssociatedData(otherSalt, otherRevision) ==>
              salt == otherSalt && revision == otherRevision
  {
    WordSizes();
    BigEndianRoundTrip(revision, 8);
    BigEndianRoundTrip(otherRevision, 8);
    var a, b := AssociatedData(salt, revision), AssociatedData(otherSalt, otherRevision);
    assert a[9..25] == salt && a[25..33] == BigEndian(revision, 8);
    assert b[9..25] == otherSalt && b[25..33] == BigEndian(otherRevision, 8);
  }

  // ---- the disk ----

  datatype Disk = Disk(store: Option<Bytes>, marker: Option<Bytes>)

  // The keys a running store holds.
  datatype Vault = Vault(aead: Aead, key: Bytes, salt: Salt)

  datatype View = View(records: Records, revision: U64)

  function SealRecords(v: Vault, view: View, nonce: Nonce): Bytes
    requires Encode(view.records).Ok?
  {
    var ciphertext := v.aead.seal(v.key, nonce, AssociatedData(v.salt, view.revision), Encode(view.records).value);
    EncodeFile(Sealed(v.salt, view.revision, nonce, ciphertext))
  }

  function ReadMarker(marker: Option<Bytes>): Result<Option<U64>, StorageError> {
    match marker
    case None => Ok(None)
    case Some(b) =>
      if !Utf8(b) then Err(Io)
      else
        match ParseU64(Trim(b))
        case None => Err(CorruptStore)
        case Some(n) => Ok(Some(n))
  }

  // Parse, decrypt and decode one store file.
  function OpenFile(aead: Aead, key: Bytes, b: Bytes): Result<View, StorageError> {
    match ParseFile(b)
    case Err(e) => Err(e)
    case Ok(f) =>
      match aead.open(key, f.nonce, AssociatedData(f.salt, f.revision), f.ciphertext)
      case None => Err(AuthenticationFailed)
      case Some(plain) =>
        match Decode(plain)
        case Err(e) => Err(e)
        case Ok(records) => Ok(View(records, f.revision))
  }

  // What open_with_key returns; it also brings a missing or older marker up to date.
  function Open(aead: Aead, key: Bytes, disk: Disk): Result<View, StorageError> {
    match disk.store
    case None => Err(Io)
    case Some(b) =>
      match OpenFile(aead, key, b)
      case Err(e) => Err(e)
      case Ok(view) =>
        match ReadMarker(disk.marker)
        case Err(e) => Err(e)
        case Ok(None) => Ok(view)
        case Ok(Some(m)) => if view.revision < m then Err(RollbackDetected) else Ok(view)
  }

  function OpenedDisk(view: View, disk: Disk): Disk {
    if ReadMarker(disk.marker) == Ok(Some(view.revision)) then disk
    else disk.(marker := Some(Decimal(view.revision)))
  }

  // ---- what a sealed file opens to ----

  lemma SealedOpens(v: Vault, view: View, nonce: Nonce)
    requires Lawful(v.aead) && Encode(view.records).Ok?
    ensures OpenFile(v.aead, v.key, SealRecords(v, view, nonce)) == Ok(view)
  {
    hide Encode, Decode, ParseFile, EncodeFile;
    var plain := Encode(view.records).value;
    var ad := AssociatedData(v.salt, view.revision);
    var f := Sealed(v.salt, view.revision, nonce, v.aead.seal(v.key, nonce, ad, plain));
    ParseOfFile(f);
    DecodeOfEncode(view.records);
  }

  // Where a ciphertext opens only under the associated data it was sealed with, a store file whose salt or
  // revision has been rewritten does not open.
  lemma RewrittenHeaderIsRejected(v: Vault, view: View, nonce: Nonce, salt: Salt, revision: U64)
    requires Lawful(v.aead) && Encode(view.records).Ok?
    requires var sealed := v.aead.seal(v.key, nonce, AssociatedData(v.salt, view.revision), Encode(view.records).value);
             forall ad :: ad != AssociatedData(v.salt, view.revision) ==> v.aead.open(v.key, nonce, ad, sealed).None?
    ensures var sealed := v.aead.seal(v.key, nonce, AssociatedData(v.salt, view.revision), Encode(view.records).value);
            OpenFile(v.aead, v.key, EncodeFile(Sealed(salt, revision, nonce, sealed)))
            == if salt == v.salt && revision == view.revision then Ok(view) else Err(AuthenticationFailed)
  {
    hide Encode, Decode, ParseFile, EncodeFile, AssociatedData;
    var sealed := v.aead.seal(v.key, nonce, AssociatedData(v.salt, view.revision), Encode(view.records).value);
    ParseOfFile(Sealed(salt, revision, nonce, sealed));
    DecodeOfEncode(view.records);
    AssociatedDataBinds(v.salt, view.revision, salt, revision);
  }

  lemma MarkerReads(revision: U64)
    ensures ReadMarker(Some(Decimal(revision))) == Ok(Some(revision))
  {
    DecimalRoundTrip(revision);
  }

  // Whatever opens is within every limit of the store.
  lemma OpenedWithinLimits(aead: Aead, key: Bytes, disk: Disk)
    ensures Open(aead, key, disk).Ok? ==>
              var records := Open(aead, key, disk).value.records;
              Encode(records).Ok? && RecordsOk(records) && |records| <= MAX_RECORDS
  {
    hide ParseFile, Decode, ReadMarker;
    if Open(aead, key, disk).Ok? {
      var f := ParseFile(disk.store.value).value;
      EncodeOfDecode(aead.open(key, f.nonce, AssociatedData(f.salt, f.revision), f.ciphertext).value);
    }
  }

  // Opening again, or after a crash before the marker is rewritten, gives the same records.
  lemma OpenIsRepeatable(aead: Aead, key: Bytes, disk: Disk)
    ensures Open(aead, key, disk).Ok? ==>
              var view := Open(aead, key, disk).value;
              && Open(aead, key, OpenedDisk(view, disk)) == Ok(view)
              && ReadMarker(OpenedDisk(view, disk).marker) == Ok(Some(view.revision))
  {
    hide OpenFile;
    if Open(aead, key, disk).Ok? {
      MarkerReads(Open(aead, key, disk).value.revision);
    }
  }
}
