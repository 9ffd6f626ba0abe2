/** The encrypted recovery artifact: a magic and three length-prefixed blobs around the two store files. */
module RecoveryArtifact {
  import opened Prelude
  import opened Text
  import opened RecordCodec
  import opened StoreFile
  import opened StoreProtocol

  const RECOVERY_MAGIC: Bytes := [65, 68, 82, 69, 67, 79, 86, 69, 82, 89, 50, 0, 0]  // "ADRECOVERY2\0\0"
  const MAX_ARTIFACT_BYTES := 64 * 1024 * 1024

  datatype Manifest = Manifest(
    schemaVersion: nat, createdAt: U64, storeBytes: nat, revisionBytes: nat,
    storeDigest: Text, revisionDigest: Text)

  // serde_json on the manifest, and SHA-256.
  datatype Tools = Tools(write: Manifest -> Bytes, read: Bytes -> Option<Manifest>, digest: Bytes -> Bytes)

  ghost predicate LawfulTools(t: Tools) {
    forall m :: t.read(t.write(m)) == Some(m)
  }

  // ---- append_blob / read_blob ----

  function Blob(value: Bytes): Bytes {
    BigEndian(|value|, 8) + value
  }

  // The blob at `offset` and the offset after it; both additions are checked in usize.
  function ReadBlob(b: Bytes, offset: nat): Option<(Bytes, nat)> {
    if offset + 8 > MAX_U64 || offset + 8 > |b| then None
    else
      var length := FromBigEndian(b[offset..offset + 8]);
      var end := offset + 8 + length;
      if end > MAX_U64 || end > |b| then None else Some((b[offset + 8..end], end))
  }

  lemma ReadBlobAt(front: Bytes, value: Bytes, back: Bytes)
    requires |front| + 8 + |value| <= MAX_U64
    ensures ReadBlob(front + Blob(value) + back, |front|) == Some((value, |front| + 8 + |value|))
  {
    hide BigEndian, FromBigEndian;
    var b := front + Blob(value) + back;
    WordSizes();
    BigEndianRoundTrip(|value|, 8);
    assert b[|front|..|front| + 8] == BigEndian(|value|, 8);
    assert b[|front| + 8..|front| + 8 + |value|] == value;
  }

  lemma ReadBlobExact(b: Bytes, offset: nat)
    requires offset <= |b|
    ensures ReadBlob(b, offset).Some? ==>
              var (value, end) := ReadBlob(b, offset).value;
              offset <= end <= |b| && b[offset..end] == Blob(value)
  {
    if ReadBlob(b, offset).Some? {
      var (value, end) := ReadBlob(b, offset).value;
      FromBigEndianRoundTrip(b[offset..offset + 8]);
      assert b[offset..end] == b[offset..offset + 8] + b[offset + 8..end];
    }
  }

  // ---- export_recovery_artifact / parse_recovery_artifact ----

  function ManifestFor(t: Tools, store: Bytes, marker: Bytes, createdAt: U64): Manifest {
    Manifest(2, createdAt, |store|, |marker|, Hex(t.digest(store)), Hex(t.digest(marker)))
  }

  function Assemble(manifest: Bytes, store: Bytes, marker: Bytes): Bytes {
    RECOVERY_MAGIC + Blob(manifest) + Blob(store) + Blob(marker)
  }

  function Export(t: Tools, s: StoreState, createdAt: U64): Result<Bytes, StorageError> {
    if s.locked then Err(Locked)
    else if s.disk.store.None? || s.disk.marker.None? then Err(Io)
    else
      var store, marker := s.disk.store.value, s.disk.marker.value;
      Ok(Assemble(t.write(ManifestFor(t, store, marker, createdAt)), store, marker))
  }

  function MarkerRevision(marker: Bytes): Option<U64> {
    if Utf8(marker) then ParseU64(Trim(marker)) else None
  }

  // The checks on the three blobs once they are split.
  predicate Accepts(t: Tools, manifest: Bytes, store: Bytes, marker: Bytes) {
    match t.read(manifest)
    case None => false
    case Some(m) =>
      && m.schemaVersion == 2
      && m.storeBytes == |store| && m.revisionBytes == |marker|
      && m.storeDigest == Hex(t.digest(store)) && m.revisionDigest == Hex(t.digest(marker))
      && store != [] && marker != []
      && ParseFile(store).Ok?
      && MarkerRevision(marker) == Some(ParseFile(store).value.revision)
  }

  datatype Split = Split(manifest: Bytes, store: Bytes, marker: Bytes)

  function SplitArtifact(b: Bytes): Option<Split> {
    if !(RECOVERY_MAGIC <= b) then None
    else
      match ReadBlob(b, |RECOVERY_MAGIC|)
      case None => None
      case Some((manifest, o1)) =>
        match ReadBlob(b, o1)
        case None => None
        case Some((store, o2)) =>
          match ReadBlob(b, o2)
          case None => None
          case Some((marker, end)) => if end == |b| then Some(Split(manifest, store, marker)) else None
  }

  function ParseArtifact(t: Tools, b: Bytes): Result<(Bytes, Bytes), StorageError> {
    if |b| > MAX_ARTIFACT_BYTES then Err(CorruptStore)
    else
      match SplitArtifact(b)
      case None => Err(CorruptStore)
      case Some(s) => if Accepts(t, s.manifest, s.store, s.marker) then Ok((s.store, s.marker)) else Err(CorruptStore)
  }

  // ---- splitting undoes assembling, and only assembled artifacts split ----

  lemma SplitOfAssembled(manifest: Bytes, store: Bytes, marker: Bytes)
    requires |Assemble(manifest, store, marker)| <= MAX_U64
    ensures SplitArtifact(Assemble(manifest, store, marker)) == Some(Split(manifest, store, marker))
  {
    hide ReadBlob;
    var b := Assemble(manifest, store, marker);
    var f1 := RECOVERY_MAGIC;
    var f2 := f1 + Blob(manifest);
    var f3 := f2 + Blob(store);
    assert b == f1 + Blob(manifest) + (Blob(store) + Blob(marker));
    ReadBlobAt(f1, manifest, Blob(store) + Blob(marker));
    assert b == f2 + Blob(store) + Blob(marker);
    ReadBlobAt(f2, store, Blob(marker));
    assert b == f3 + Blob(marker) + [];
    ReadBlobAt(f3, marker, []);
  }

  lemma SplitIsUnique(p: Split, q: Split)
    requires Assemble(p.manifest, p.store, p.marker) == Assemble(q.manifest, q.store, q.marker)
    requires |Assemble(p.manifest, p.store, p.marker)| <= MAX_U64
    ensures p == q
  {
    hide SplitArtifact, Assemble;
    SplitOfAssembled(p.manifest, p.store, p.marker);
    SplitOfAssembled(q.manifest, q.store, q.marker);
  }

  // What splits is exactly its three blobs behind the magic, with nothing left over.
  lemma SplitExact(b: Bytes)
    ensures SplitArtifact(b).Some? ==>
              var s := SplitArtifact(b).value;
              b == Assemble(s.manifest, s.store, s.marker)
  {
    hide ReadBlob, Blob;
    if SplitArtifact(b).Some? {
      var (manifest, o1) := ReadBlob(b, |RECOVERY_MAGIC|).value;
      ReadBlobExact(b, |RECOVERY_MAGIC|);
      var (store, o2) := ReadBlob(b, o1).value;
      ReadBlobExact(b, o1);
      var (marker, end) := ReadBlob(b, o2).value;
      ReadBlobExact(b, o2);
      Slices(b, |RECOVERY_MAGIC|, o1, o2, end, end);
      assert b[end..end] == [] && b[end..] == [];
    }
  }

  // A file a store has written is read back from its own artifact exactly when the artifact is
  // within the limit and the marker names the revision inside the store file.
  lemma ExportThenParse(t: Tools, s: StoreState, createdAt: U64)
    requires LawfulTools(t) && !s.locked && s.disk.store.Some? && s.disk.marker.Some?
    ensures var artifact := Export(t, s, createdAt).value;
            var store, marker := s.disk.store.value, s.disk.marker.value;
            ParseArtifact(t, artifact) ==
              if |artifact| <= MAX_ARTIFACT_BYTES && ParseFile(store).Ok?
                 && MarkerRevision(marker) == Some(ParseFile(store).value.revision)
              then Ok((store, marker)) else Err(CorruptStore)
  {
    hide SplitArtifact, ParseFile, Hex, Trim, ParseU64;
    var store, marker := s.disk.store.value, s.disk.marker.value;
    var manifest := t.write(ManifestFor(t, store, marker, createdAt));
    var artifact := Assemble(manifest, store, marker);
    if |artifact| <= MAX_ARTIFACT_BYTES {
      SplitOfAssembled(manifest, store, marker);
      NonEmptyFiles(store, marker);
    }
  }

  // What parses is exactly an artifact within the limit whose manifest is the one export would have
  // written for these two files at that time, the marker naming the revision inside the store file.
  lemma ParsesExactly(t: Tools, b: Bytes, store: Bytes, marker: Bytes)
    ensures ParseArtifact(t, b) == Ok((store, marker)) <==>
              && |b| <= 67108864
              && exists manifest :: b == Assemble(manifest, store, marker) && Describes(t, manifest, store, marker)
    ensures ParseArtifact(t, b).Err? ==> ParseArtifact(t, b).error == CorruptStore
  {
    hide SplitArtifact, ParseFile, Hex, Assemble, MarkerRevision;
    SplitExact(b);
    if |b| <= MAX_ARTIFACT_BYTES {
      NonEmptyFiles(store, marker);
      forall manifest | b == Assemble(manifest, store, marker) ensures SplitArtifact(b) == Some(Split(manifest, store, marker)) {
        SplitOfAssembled(manifest, store, marker);
      }
    }
  }

  predicate Describes(t: Tools, manifest: Bytes, store: Bytes, marker: Bytes) {
    var m := t.read(manifest);
    && m.Some? && m.value == ManifestFor(t, store, marker, m.value.createdAt)
    && ParseFile(store).Ok? && MarkerRevision(marker) == Some(ParseFile(store).value.revision)
  }

  lemma NonEmptyFiles(store: Bytes, marker: Bytes)
    ensures ParseFile(store).Ok? ==> store != []
    ensures MarkerRevision(marker).Some? ==> marker != []
  {}

  // Under the manifest of one pair, any pair with another digest in it is refused.
  lemma SubstitutionIsRefused(t: Tools, store: Bytes, marker: Bytes, createdAt: U64, otherStore: Bytes, otherMarker: Bytes)
    requires LawfulTools(t)
    requires t.digest(otherStore) != t.digest(store) || t.digest(otherMarker) != t.digest(marker)
    ensures ParseArtifact(t, Assemble(t.write(ManifestFor(t, store, marker, createdAt)), otherStore, otherMarker)).Err?
  {
    hide SplitArtifact, ParseFile, Hex, Trim, ParseU64;
    var manifest := t.write(ManifestFor(t, store, marker, createdAt));
    var artifact := Assemble(manifest, otherStore, otherMarker);
    if |artifact| <= MAX_ARTIFACT_BYTES {
      SplitOfAssembled(manifest, otherStore, otherMarker);
      HexApart(t.digest(otherStore), t.digest(store));
      HexApart(t.digest(otherMarker), t.digest(marker));
    }
  }

  lemma HexApart(a: Bytes, b: Bytes)
    ensures a != b ==> Hex(a) != Hex(b)
  {
    if Hex(a) == Hex(b) {
      HexInjective(a, b);
    }
  }

  // For every store a clean run can reach, only the size limit is left. Once locked it exports nothing.
  lemma ReachableStoreExports(t: Tools, v: Vault, s: StoreState, createdAt: U64)
    requires LawfulTools(t) && Settled(v, s)
    ensures Export(t, s.(locked := true), createdAt) == Err(Locked)
    ensures Export(t, s, createdAt).Ok?
    ensures |Export(t, s, createdAt).value| <= MAX_ARTIFACT_BYTES ==>
              ParseArtifact(t, Export(t, s, createdAt).value) == Ok((s.disk.store.value, s.disk.marker.value))
  {
    hide ParseArtifact, ParseFile, Trim, ParseU64, Assemble;
    ExportThenParse(t, s, createdAt);
  }

  // The export buffer, filled piece by piece; what it holds parses back to the two files.
  method ExportArtifact(t: Tools, s: StoreState, createdAt: U64) returns (r: Result<Bytes, StorageError>)
    ensures r == Export(t, s, createdAt)
    ensures LawfulTools(t) && r.Ok? ==>
              var store, marker := s.disk.store.value, s.disk.marker.value;
              ParseArtifact(t, r.value) ==
                if |r.value| <= MAX_ARTIFACT_BYTES && ParseFile(store).Ok?
                   && MarkerRevision(marker) == Some(ParseFile(store).value.revision)
                then Ok((store, marker)) else Err(CorruptStore)
  {
    hide ParseArtifact, ParseFile, MarkerRevision, Blob;
    if LawfulTools(t) && !s.locked && s.disk.store.Some? && s.disk.marker.Some? {
      ExportThenParse(t, s, createdAt);
    }
    if s.locked {
      return Err(Locked);
    }
    if s.disk.store.None? || s.disk.marker.None? {
      return Err(Io);
    }
    var store, marker := s.disk.store.value, s.disk.marker.value;
    var manifest := t.write(ManifestFor(t, store, marker, createdAt));
    var artifact := RECOVERY_MAGIC;
    artifact := artifact + Blob(manifest);
    artifact := artifact + Blob(store);
    artifact := artifact + Blob(marker);
    r := Ok(artifact);
  }
}
