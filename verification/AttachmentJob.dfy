/** The attachment loops of the daemon and the in-memory streaming job, against the package model. */
module AttachmentJobs {
  import opened Prelude
  import opened Text
  import opened Aead
  import opened Attachments

  // ---- validate_descriptor ----

  method ValidateDescriptor(d: Descriptor) returns (r: Result<(), AttachmentError>)
    ensures r.Ok? <==> Validation(d).Ok?
    ensures r.Err? ==> Validation(d) == Err(r.error)
  {
    hide NonceOf, ValidBlobId, FileNameOk, MediaTypeOk;
    if !ValidBlobId(d.blobId) || d.version != ATTACHMENT_VERSION || d.chunkSize != CHUNK_SIZE
       || d.originalSize == 0 || d.originalSize > MAX_ATTACHMENT_BYTES
       || |d.chunks| == 0 || |d.chunks| > MAX_CHUNKS {
      return Err(InvalidManifest);
    }
    if !FileNameOk(d.fileName) || !MediaTypeOk(d.mediaType) {
      return Err(InvalidManifest);
    }
    var plaintextSize := 0;
    for i := 0 to |d.chunks|
      invariant forall j :: 0 <= j < i ==> ChunkOk(d, j)
      invariant plaintextSize + TAG_BYTES * i == Offset(d.chunks, i)
    {
      var c := d.chunks[i];
      if c.index != i || c.ciphertextSize < TAG_BYTES || c.ciphertextSize > SEALED_CHUNK || NonceOf(c.nonce).None? {
        assert !ChunkOk(d, i);
        return Err(InvalidChunk);
      }
      plaintextSize := plaintextSize + (c.ciphertextSize - TAG_BYTES);
      if i + 1 < |d.chunks| && c.ciphertextSize != SEALED_CHUNK {
        assert !ChunkOk(d, i);
        return Err(InvalidChunk);
      }
    }
    if plaintextSize != d.originalSize {
      return Err(InvalidManifest);
    }
    r := Ok(());
  }

  // ---- encrypt and encrypt_for_blob ----

  function SealedManifest(a: Aead, plain: Bytes, key: Bytes, nonces: seq<Nonce>): Manifest
    requires |nonces| == PieceCount(|plain|)
  {
    Manifest(ATTACHMENT_VERSION, CHUNK_SIZE, |plain|,
             seq(|nonces|, i requires 0 <= i < |nonces| =>
               Chunk(i, Hex(nonces[i]), Hex(a.seal(key, nonces[i], Aad(i, |plain|), Pieces(plain)[i])))))
  }

  // One random nonce is drawn per chunk.
  function Encrypt(a: Aead, plain: Bytes, key: Bytes, nonces: seq<Nonce>): Result<Manifest, AttachmentError>
    requires |nonces| == PieceCount(|plain|)
  {
    if plain == [] then Err(Empty)
    else if |plain| > MAX_ATTACHMENT_BYTES then Err(TooLarge)
    else Ok(SealedManifest(a, plain, key, nonces))
  }

  lemma SealedAt(a: Aead, key: Bytes, total: nat, pieces: seq<Bytes>, nonces: seq<Nonce>, i: nat)
    requires Lawful(a) && |nonces| == |pieces| && i < |pieces|
    ensures SealedPieces(a, key, total, pieces, nonces)[i] == a.seal(key, nonces[i], Aad(i, total), pieces[i])
    ensures |SealedPieces(a, key, total, pieces, nonces)[i]| == |pieces[i]| + TAG_BYTES
  {
    assert |a.seal(key, nonces[i], Aad(i, total), pieces[i])| == |pieces[i]| + TAG_BYTES;
  }

  method EncryptForBlob(a: Aead, plain: Bytes, key: Bytes, blobId: Text, nonces: seq<Nonce>)
    returns (r: Result<EncryptedAttachment, AttachmentError>)
    requires Lawful(a) && |nonces| == PieceCount(|plain|)
    ensures r == if !ValidBlobId(blobId) then Err(InvalidManifest)
                 else if plain == [] then Err(Empty)
                 else if |plain| > MAX_ATTACHMENT_BYTES then Err(TooLarge)
                 else Ok(Package(a, key, blobId, |plain|, Pieces(plain), nonces, None, None))
  {
    hide Aad, Hex, DecodeHex, Pieces, ValidBlobId, PieceCount;
    if !ValidBlobId(blobId) {
      return Err(InvalidManifest);
    }
    var encrypted := Encrypt(a, plain, key, nonces);
    if encrypted.Err? {
      return Err(encrypted.error);
    }
    var manifest := encrypted.value;
    ghost var sealed := SealedPieces(a, key, |plain|, Pieces(plain), nonces);
    ghost var described := Descriptors(a, key, |plain|, Pieces(plain), nonces);
    var blob: Bytes := [];
    var chunks: seq<ChunkDescriptor> := [];
    for i := 0 to |manifest.chunks|
      invariant chunks == described[..i]
      invariant blob == Concat(sealed[..i])
    {
      var chunk := manifest.chunks[i];
      SealedAt(a, key, |plain|, Pieces(plain), nonces, i);
      assert chunk.ciphertext == Hex(sealed[i]);
      HexRoundTrip(sealed[i]);
      assert chunk.ciphertext != [] by { assert |Hex(sealed[i])| == 2 * |sealed[i]|; }
      var ciphertext := DecodeHexNonEmpty(chunk.ciphertext);
      if ciphertext.None? {
        return Err(InvalidChunk);
      }
      chunks := chunks + [ChunkDescriptor(chunk.index, chunk.nonce, |ciphertext.value|)];
      blob := blob + ciphertext.value;
      assert sealed[..i + 1][..i] == sealed[..i];
    }
    assert sealed[..|sealed|] == sealed && described[..|described|] == described;
    r := Ok(EncryptedAttachment(
      Descriptor(manifest.version, blobId, key, manifest.chunkSize, manifest.originalSize, chunks, None, None), blob));
  }

  // ---- decrypt ----

  predicate ManifestOk(m: Manifest) {
    && m.version == ATTACHMENT_VERSION && m.chunkSize == CHUNK_SIZE
    && 0 < m.originalSize <= MAX_ATTACHMENT_BYTES && m.chunks != []
  }

  // What the loop makes of chunk i.
  function ChunkPlain(a: Aead, m: Manifest, key: Bytes, i: nat): Result<Bytes, AttachmentError>
    requires i < |m.chunks|
  {
    var c := m.chunks[i];
    var ciphertext := DecodeHexNonEmpty(c.ciphertext);
    if c.index != i || NonceOf(c.nonce).None? || ciphertext.None? then Err(InvalidChunk)
    else if |ciphertext.value| < TAG_BYTES || |ciphertext.value| > SEALED_CHUNK then Err(InvalidChunk)
    else
      match a.open(key, NonceOf(c.nonce).value, Aad(c.index, m.originalSize), ciphertext.value)
      case None => Err(AuthenticationFailed)
      case Some(p) => if |p| > CHUNK_SIZE || (i + 1 < |m.chunks| && |p| != CHUNK_SIZE) then Err(InvalidChunk) else Ok(p)
  }

  function DecryptPrefix(a: Aead, m: Manifest, key: Bytes, n: nat): Result<Bytes, AttachmentError>
    requires n <= |m.chunks|
  {
    if n == 0 then Ok([])
    else if DecryptPrefix(a, m, key, n - 1).Err? then DecryptPrefix(a, m, key, n - 1)
    else
      match ChunkPlain(a, m, key, n - 1)
      case Err(e) => Err(e)
      case Ok(p) => Ok(DecryptPrefix(a, m, key, n - 1).value + p)
  }

  function DecryptManifest(a: Aead, m: Manifest, key: Bytes): Result<Bytes, AttachmentError> {
    if !ManifestOk(m) then Err(InvalidManifest)
    else if |m.chunks| > MAX_CHUNKS then Err(TooLarge)
    else
      match DecryptPrefix(a, m, key, |m.chunks|)
      case Err(e) => Err(e)
      case Ok(p) => if |p| != m.originalSize then Err(InvalidManifest) else Ok(p)
  }

  method Decrypt(a: Aead, m: Manifest, key: Bytes) returns (r: Result<Bytes, AttachmentError>)
    ensures r == DecryptManifest(a, m, key)
  {
    hide DecodeHex, Aad, NonceOf;
    if m.version != ATTACHMENT_VERSION || m.chunkSize != CHUNK_SIZE || m.originalSize == 0
       || m.originalSize > MAX_ATTACHMENT_BYTES || m.chunks == [] {
      return Err(InvalidManifest);
    }
    if |m.chunks| > MAX_CHUNKS {
      return Err(TooLarge);
    }
    var plaintext: Bytes := [];
    for i := 0 to |m.chunks|
      invariant DecryptPrefix(a, m, key, i) == Ok(plaintext)
    {
      var chunk := DecryptChunk(a, m, key, i);
      PrefixError(a, m, key, i);
      if chunk.Err? {
        return Err(chunk.error);
      }
      plaintext := plaintext + chunk.value;
    }
    if |plaintext| != m.originalSize {
      return Err(InvalidManifest);
    }
    r := Ok(plaintext);
  }

  method DecryptChunk(a: Aead, m: Manifest, key: Bytes, i: nat) returns (r: Result<Bytes, AttachmentError>)
    requires i < |m.chunks|
    ensures r == ChunkPlain(a, m, key, i)
  {
    hide DecodeHex, Aad, NonceOf;
    var c := m.chunks[i];
    if c.index != i {
      return Err(InvalidChunk);
    }
    var nonce := NonceOf(c.nonce);
    var ciphertext := DecodeHexNonEmpty(c.ciphertext);
    if nonce.None? || ciphertext.None? || |ciphertext.value| < TAG_BYTES || |ciphertext.value| > SEALED_CHUNK {
      return Err(InvalidChunk);
    }
    var plain := a.open(key, nonce.value, Aad(c.index, m.originalSize), ciphertext.value);
    if plain.None? {
      return Err(AuthenticationFailed);
    }
    if |plain.value| > CHUNK_SIZE || (i + 1 < |m.chunks| && |plain.value| != CHUNK_SIZE) {
      return Err(InvalidChunk);
    }
    r := Ok(plain.value);
  }

  // The first chunk that fails decides the result.
  lemma {:induction false} PrefixErrorFrom(a: Aead, m: Manifest, key: Bytes, i: nat, n: nat)
    requires i < n <= |m.chunks|
    requires DecryptPrefix(a, m, key, i).Ok? && ChunkPlain(a, m, key, i).Err?
    ensures DecryptPrefix(a, m, key, n) == Err(ChunkPlain(a, m, key, i).error)
  {
    if i + 1 < n {
      PrefixErrorFrom(a, m, key, i, n - 1);
    }
  }

  lemma PrefixError(a: Aead, m: Manifest, key: Bytes, i: nat)
    requires i < |m.chunks| && DecryptPrefix(a, m, key, i).Ok?
    ensures ChunkPlain(a, m, key, i).Err? ==> DecryptPrefix(a, m, key, |m.chunks|) == Err(ChunkPlain(a, m, key, i).error)
  {
    if ChunkPlain(a, m, key, i).Err? {
      PrefixErrorFrom(a, m, key, i, |m.chunks|);
    }
  }

  // Every chunk is in its place and opens to its piece, all pieces full but the last.
  ghost predicate OpensAs(a: Aead, m: Manifest, key: Bytes, pieces: seq<Bytes>) {
    && |pieces| == |m.chunks|
    && forall i :: 0 <= i < |pieces| ==> PieceOf(a, m, key, i, pieces[i])
  }

  predicate PieceOf(a: Aead, m: Manifest, key: Bytes, i: nat, piece: Bytes)
    requires i < |m.chunks|
  {
    var nonce, ciphertext := NonceOf(m.chunks[i].nonce), DecodeHexNonEmpty(m.chunks[i].ciphertext);
    && m.chunks[i].index == i && nonce.Some? && ciphertext.Some?
    && a.open(key, nonce.value, Aad(i, m.originalSize), ciphertext.value) == Some(piece)
    && (if i + 1 < |m.chunks| then |piece| == 65536 else |piece| <= 65536)
  }

  lemma PieceExactly(a: Aead, m: Manifest, key: Bytes, i: nat, piece: Bytes)
    requires Lawful(a) && i < |m.chunks|
    ensures ChunkPlain(a, m, key, i) == Ok(piece) <==> PieceOf(a, m, key, i, piece)
  {
    hide NonceOf, DecodeHex, Aad;
  }

  lemma {:induction false} PrefixExactly(a: Aead, m: Manifest, key: Bytes, n: nat, pieces: seq<Bytes>)
    requires Lawful(a) && n <= |m.chunks| && |pieces| == n
    requires forall i :: 0 <= i < n ==> PieceOf(a, m, key, i, pieces[i])
    ensures DecryptPrefix(a, m, key, n) == Ok(Concat(pieces))
  {
    hide ChunkPlain, PieceOf;
    if n > 0 {
      PrefixExactly(a, m, key, n - 1, pieces[..n - 1]);
      PieceExactly(a, m, key, n - 1, pieces[n - 1]);
    }
  }

  lemma {:induction false} PiecesOf(a: Aead, m: Manifest, key: Bytes, n: nat) returns (pieces: seq<Bytes>)
    requires Lawful(a) && n <= |m.chunks| && DecryptPrefix(a, m, key, n).Ok?
    ensures |pieces| == n && forall i :: 0 <= i < n ==> PieceOf(a, m, key, i, pieces[i])
  {
    hide ChunkPlain, PieceOf;
    pieces := [];
    if n > 0 {
      var front := PiecesOf(a, m, key, n - 1);
      var last := ChunkPlain(a, m, key, n - 1).value;
      PieceExactly(a, m, key, n - 1, last);
      pieces := front + [last];
    }
  }

  // What a manifest decrypts to: the pieces its chunks open to, put together, when there are as many bytes
  // as it announces. Any other manifest is refused.
  lemma DecryptsExactly(a: Aead, m: Manifest, key: Bytes, plain: Bytes)
    requires Lawful(a)
    ensures DecryptManifest(a, m, key) == Ok(plain) <==>
              && m.version == 1 && m.chunkSize == 65536 && |plain| == m.originalSize && 0 < m.originalSize <= 33554432
              && 0 < |m.chunks| <= 512
              && exists pieces: seq<Bytes> :: OpensAs(a, m, key, pieces) && Concat(pieces) == plain
  {
    hide ChunkPlain, PieceOf, DecryptPrefix, Concat;
    var n := |m.chunks|;
    if DecryptPrefix(a, m, key, n).Ok? {
      var pieces := PiecesOf(a, m, key, n);
      PrefixExactly(a, m, key, n, pieces);
      assert OpensAs(a, m, key, pieces);
    }
    forall pieces: seq<Bytes> | OpensAs(a, m, key, pieces) ensures DecryptPrefix(a, m, key, n) == Ok(Concat(pieces)) {
      PrefixExactly(a, m, key, n, pieces);
    }
  }

  // ---- decrypt_blob ----

  // The manifest decrypt_blob rebuilds from the descriptor and the blob.
  function BlobChunks(d: Descriptor, blob: Bytes): (s: seq<Chunk>)
    requires |blob| == BlobLength(d)
    ensures |s| == |d.chunks|
  {
    seq(|d.chunks|, i requires 0 <= i < |d.chunks| => Chunk(d.chunks[i].index, d.chunks[i].nonce, Hex(Segment(d, blob, i))))
  }

  function BlobManifest(d: Descriptor, blob: Bytes): Manifest
    requires |blob| == BlobLength(d)
  {
    Manifest(d.version, d.chunkSize, d.originalSize, BlobChunks(d, blob))
  }

  lemma BlobChunkPlain(a: Aead, d: Descriptor, blob: Bytes, i: nat)
    requires Lawful(a) && Validation(d).Ok? && |blob| == BlobLength(d) && i < |d.chunks|
    ensures ChunkOk(d, i)
    ensures ChunkPlain(a, BlobManifest(d, blob), d.key, i)
            == match OpenSegment(a, d, blob, i) case None => Err(AuthenticationFailed) case Some(p) => Ok(p)
    ensures OpenSegment(a, d, blob, i).Some? ==> |OpenSegment(a, d, blob, i).value| == d.chunks[i].ciphertextSize - TAG_BYTES
  {
    hide DecodeHex, Aad, NonceOf, HeaderOk;
    assert ChunkOk(d, i);
    var segment := Segment(d, blob, i);
    OffsetMonotone(d.chunks, i + 1, |d.chunks|);
    assert |segment| == d.chunks[i].ciphertextSize;
    HexRoundTrip(segment);
    assert |Hex(segment)| == 2 * |segment|;
    assert DecodeHexNonEmpty(BlobManifest(d, blob).chunks[i].ciphertext) == Some(segment);
  }

  lemma {:induction false} OpenedLength(a: Aead, d: Descriptor, blob: Bytes, n: nat)
    requires Lawful(a) && Validation(d).Ok? && |blob| == BlobLength(d) && AllOpen(a, d, blob) && n <= |d.chunks|
    ensures |Concat(Opened(a, d, blob)[..n])| + TAG_BYTES * n == Offset(d.chunks, n)
  {
    hide Validation, OpenSegment, AllOpen, Opened, ChunkPlain, BlobManifest, ChunkOk, Lawful;
    var parts := Opened(a, d, blob);
    if n > 0 {
      OpenedLength(a, d, blob, n - 1);
      BlobChunkPlain(a, d, blob, n - 1);
      OpenedAt(a, d, blob, n - 1);
      assert parts[..n][..n - 1] == parts[..n - 1];
    }
  }

  lemma OpenedAt(a: Aead, d: Descriptor, blob: Bytes, i: nat)
    requires Validation(d).Ok? && |blob| == BlobLength(d) && AllOpen(a, d, blob) && i < |d.chunks|
    ensures ChunkOk(d, i) && OpenSegment(a, d, blob, i) == Some(Opened(a, d, blob)[i])
  {
    hide OpenSegment, Validation;
  }

  lemma {:induction false} BlobPrefix(a: Aead, d: Descriptor, blob: Bytes, n: nat)
    requires Lawful(a) && Validation(d).Ok? && |blob| == BlobLength(d) && n <= |d.chunks|
    ensures AllOpen(a, d, blob) ==>
              DecryptPrefix(a, BlobManifest(d, blob), d.key, n) == Ok(Concat(Opened(a, d, blob)[..n]))
    ensures DecryptPrefix(a, BlobManifest(d, blob), d.key, n).Err? ==>
              DecryptPrefix(a, BlobManifest(d, blob), d.key, n) == Err(AuthenticationFailed)
    ensures DecryptPrefix(a, BlobManifest(d, blob), d.key, n).Ok? ==>
              forall i :: 0 <= i < n ==> ChunkOk(d, i) && OpenSegment(a, d, blob, i).Some?
  {
    hide Validation, OpenSegment, ChunkPlain, BlobChunks, ChunkOk, AllOpen;
    if n > 0 {
      BlobPrefix(a, d, blob, n - 1);
      BlobChunkPlain(a, d, blob, n - 1);
      if AllOpen(a, d, blob) {
        OpenedAt(a, d, blob, n - 1);
        assert Opened(a, d, blob)[..n][..n - 1] == Opened(a, d, blob)[..n - 1];
      }
    }
  }

  // Rebuilding the manifest and decrypting it is decrypting the blob chunk by chunk.
  lemma ManifestOfBlob(a: Aead, d: Descriptor, blob: Bytes)
    requires Lawful(a) && Validation(d).Ok? && |blob| == BlobLength(d)
    ensures DecryptManifest(a, BlobManifest(d, blob), d.key) == BlobPlaintext(a, d, blob)
  {
    hide OpenSegment, BlobChunks, DecryptPrefix, ChunkOk;
    var n := |d.chunks|;
    BlobPrefix(a, d, blob, n);
    if AllOpen(a, d, blob) {
      OpenedLength(a, d, blob, n);
      assert Opened(a, d, blob)[..n] == Opened(a, d, blob);
    }
  }

  // What is encrypted decrypts, under the same key, to the same bytes.
  lemma EncryptThenDecrypt(a: Aead, plain: Bytes, key: Bytes, nonces: seq<Nonce>)
    requires Lawful(a) && |nonces| == PieceCount(|plain|)
    ensures Encrypt(a, plain, key, nonces).Ok? <==> 0 < |plain| <= 33554432
    ensures Encrypt(a, plain, key, nonces).Ok? ==> DecryptManifest(a, Encrypt(a, plain, key, nonces).value, key) == Ok(plain)
  {
    hide Aad, Hex, NonceOf, DecryptManifest, BlobPlaintext, Pieces, Offset, Validation, PieceCount, Concat, SealedManifest;
    if 0 < |plain| <= MAX_ATTACHMENT_BYTES {
      var blobId: Text := seq(32, i => 97);
      var pieces := Pieces(plain);
      var p := Package(a, key, blobId, |plain|, pieces, nonces, None, None);
      PiecesChunked(plain);
      assert ValidBlobId(blobId);
      PackageIsValid(a, key, blobId, |plain|, pieces, nonces, None, None);
      PackageDecrypts(a, key, blobId, |plain|, pieces, nonces, None, None);
      ManifestOfBlob(a, p.descriptor, p.blob);
      SameManifest(a, plain, key, blobId, nonces);
    }
  }

  // The manifest of the package's blob is the one encrypt makes.
  lemma SameManifest(a: Aead, plain: Bytes, key: Bytes, blobId: Text, nonces: seq<Nonce>)
    requires Lawful(a) && |nonces| == PieceCount(|plain|)
    requires var p := Package(a, key, blobId, |plain|, Pieces(plain), nonces, None, None);
             |p.blob| == BlobLength(p.descriptor)
    ensures var p := Package(a, key, blobId, |plain|, Pieces(plain), nonces, None, None);
            BlobManifest(p.descriptor, p.blob) == SealedManifest(a, plain, key, nonces)
  {
    hide Aad, Hex, Pieces, Offset, PieceCount, BlobLength, Segment, Concat;
    var pieces := Pieces(plain);
    var p := Package(a, key, blobId, |plain|, pieces, nonces, None, None);
    forall i | 0 <= i < |pieces|
      ensures BlobChunks(p.descriptor, p.blob)[i]
              == Chunk(i, Hex(nonces[i]), Hex(a.seal(key, nonces[i], Aad(i, |plain|), pieces[i])))
    {
      SegmentIsSealed(a, key, blobId, |plain|, pieces, nonces, i);
    }
    assert BlobManifest(p.descriptor, p.blob).chunks == SealedManifest(a, plain, key, nonces).chunks;
  }

  lemma SegmentIsSealed(a: Aead, key: Bytes, blobId: Text, total: nat, pieces: seq<Bytes>, nonces: seq<Nonce>, i: nat)
    requires |nonces| == |pieces| && i < |pieces|
    requires var p := Package(a, key, blobId, total, pieces, nonces, None, None);
             |p.blob| == BlobLength(p.descriptor)
    ensures var p := Package(a, key, blobId, total, pieces, nonces, None, None);
            Segment(p.descriptor, p.blob, i) == a.seal(key, nonces[i], Aad(i, total), pieces[i])
  {
    hide Aad, Hex, Offset;
    var sealed := SealedPieces(a, key, total, pieces, nonces);
    PackageOffsets(a, key, total, pieces, nonces, i);
    PackageOffsets(a, key, total, pieces, nonces, i + 1);
    ConcatPart(sealed, i);
    assert sealed[..i + 1][..i] == sealed[..i];
  }

  // Splitting the blob: it ends too early for some chunk, or it tiles exactly up to `end`.
  method SplitBlob(d: Descriptor, blob: Bytes) returns (r: Result<seq<Chunk>, AttachmentError>)
    requires Validation(d).Ok?
    ensures |blob| < BlobLength(d) ==> r == Err(InvalidChunk)
    ensures |blob| > BlobLength(d) ==> r == Err(InvalidManifest)
    ensures |blob| == BlobLength(d) ==> r == Ok(BlobChunks(d, blob))
  {
    hide Hex, HeaderOk, NonceOf, BlobChunks;
    var offset := 0;
    var chunks: seq<Chunk> := [];
    for i := 0 to |d.chunks|
      invariant offset == Offset(d.chunks, i) <= |blob|
      invariant |chunks| == i
      invariant |blob| == BlobLength(d) ==> chunks == BlobChunks(d, blob)[..i]
    {
      var c := d.chunks[i];
      assert ChunkOk(d, i);
      OffsetMonotone(d.chunks, i + 1, |d.chunks|);
      if |blob| == BlobLength(d) {
        NextBlobChunk(d, blob, i);
      }
      if c.index != i || c.ciphertextSize < TAG_BYTES || c.ciphertextSize > SEALED_CHUNK {
        return Err(InvalidChunk);
      }
      var end := offset + c.ciphertextSize;
      if end > |blob| {
        return Err(InvalidChunk);
      }
      chunks := chunks + [Chunk(c.index, c.nonce, Hex(blob[offset..end]))];
      offset := end;
    }
    if offset != |blob| {
      return Err(InvalidManifest);
    }
    assert BlobChunks(d, blob)[..|d.chunks|] == BlobChunks(d, blob);
    r := Ok(chunks);
  }

  lemma NextBlobChunk(d: Descriptor, blob: Bytes, i: nat)
    requires i < |d.chunks| && |blob| == BlobLength(d)
    ensures 0 <= Offset(d.chunks, i) <= Offset(d.chunks, i) + d.chunks[i].ciphertextSize <= |blob|
    ensures BlobChunks(d, blob)[..i + 1]
            == BlobChunks(d, blob)[..i]
               + [Chunk(d.chunks[i].index, d.chunks[i].nonce, Hex(blob[Offset(d.chunks, i)..Offset(d.chunks, i) + d.chunks[i].ciphertextSize]))]
  {
    hide Hex;
    OffsetMonotone(d.chunks, i + 1, |d.chunks|);
  }

  method DecryptBlob(a: Aead, d: Descriptor, blob: Bytes) returns (r: Result<Bytes, AttachmentError>)
    requires Lawful(a)
    ensures r == BlobPlaintext(a, d, blob)
  {
    hide Validation, BlobChunks, AllOpen, Opened;
    var valid := ValidateDescriptor(d);
    if valid.Err? {
      return Err(valid.error);
    }
    var chunks := SplitBlob(d, blob);
    if chunks.Err? {
      return Err(chunks.error);
    }
    ManifestOfBlob(a, d, blob);
    r := Decrypt(a, Manifest(d.version, d.chunkSize, d.originalSize, chunks.value), d.key);
  }

  // ---- the streaming job ----

  // A cut into such pieces is the one plaintext.chunks makes, so a streamed attachment and one
  // encrypted whole, with the same nonces, are the same package.
  lemma ChunkingIsUnique(pieces: seq<Bytes>, total: nat)
    requires Chunked(pieces, total)
    ensures Pieces(Concat(pieces)) == pieces
  {
    hide PieceCount, Cut;
    var plain := Concat(pieces);
    ChunkedCount(pieces, total);
    forall i | 0 <= i < |pieces| ensures Pieces(plain)[i] == pieces[i] {
      Cuts(|plain|, i);
      ConcatPart(pieces, i);
      FullPiecesLength(pieces[..i]);
    }
  }

  class AttachmentJob {
    const aead: Aead
    const blobId: Text
    const key: Bytes
    const total: nat
    const fileName: Option<Text>
    const mediaType: Option<Text>
    var nextIndex: nat
    var received: nat
    var chunks: seq<ChunkDescriptor>
    var blob: Bytes
    ghost var pieces: seq<Bytes>  // the plaintext chunks accepted so far
    ghost var nonces: seq<Nonce>  // and the nonces drawn for them

    ghost predicate Valid()
      reads this
    {
      && Lawful(aead) && ValidBlobId(blobId) && FileNameOk(fileName) && MediaTypeOk(mediaType)
      && 0 < total <= MAX_ATTACHMENT_BYTES
      && |nonces| == |pieces| == nextIndex
      && received == |Concat(pieces)| <= total
      && chunks == Descriptors(aead, key, total, pieces, nonces)
      && blob == Concat(SealedPieces(aead, key, total, pieces, nonces))
      && (received < total ==> forall i :: 0 <= i < |pieces| ==> |pieces[i]| == CHUNK_SIZE)
      && (received == total ==> Chunked(pieces, total))
    }

    // start_with_metadata, once its checks have passed.
    constructor (aead: Aead, blobId: Text, key: Bytes, total: nat, fileName: Option<Text>, mediaType: Option<Text>)
      requires Lawful(aead) && ValidBlobId(blobId) && 0 < total <= MAX_ATTACHMENT_BYTES
      requires FileNameOk(fileName) && MediaTypeOk(mediaType)
      ensures Valid() && pieces == [] && this.total == total && this.aead == aead && this.key == key && this.blobId == blobId
      ensures this.fileName == Sanitized(fileName) && this.mediaType == Sanitized(mediaType)
    {
      this.aead, this.blobId, this.key, this.total := aead, blobId, key, total;
      this.fileName, this.mediaType := Sanitized(fileName), Sanitized(mediaType);
      this.nextIndex, this.received, this.chunks, this.blob := 0, 0, [], [];
      this.pieces, this.nonces := [], [];
    }

    static method Start(aead: Aead, blobId: Text, key: Bytes, total: nat, fileName: Option<Text>, mediaType: Option<Text>)
      returns (r: Result<AttachmentJob, AttachmentError>)
      requires Lawful(aead)
      ensures r.Err? <==> !ValidBlobId(blobId) || total == 0 || total > MAX_ATTACHMENT_BYTES
                          || !FileNameOk(fileName) || !MediaTypeOk(mediaType)
      ensures r.Err? && ValidBlobId(blobId) && total == 0 ==> r.error == Empty
      ensures r.Err? && ValidBlobId(blobId) && total > MAX_ATTACHMENT_BYTES ==> r.error == TooLarge
      ensures r.Err? && (!ValidBlobId(blobId) || 0 < total <= MAX_ATTACHMENT_BYTES) ==> r.error == InvalidManifest
      ensures r.Ok? ==> fresh(r.value) && r.value.Valid() && r.value.pieces == [] && r.value.total == total
      ensures r.Ok? ==> r.value.aead == aead && r.value.blobId == blobId && r.value.key == key
                        && r.value.fileName == Sanitized(fileName) && r.value.mediaType == Sanitized(mediaType)
    {
      if !ValidBlobId(blobId) {
        return Err(InvalidManifest);
      }
      if total == 0 {
        return Err(Empty);
      }
      if total > MAX_ATTACHMENT_BYTES {
        return Err(TooLarge);
      }
      if !FileNameOk(fileName) || !MediaTypeOk(mediaType) {
        return Err(InvalidManifest);
      }
      var job := new AttachmentJob(aead, blobId, key, total, fileName, mediaType);
      r := Ok(job);
    }

    // An accepted chunk is sealed and appended; a refused one changes nothing.
    method Append(index: nat, plaintext: Bytes, nonce: Nonce) returns (r: Result<(), AttachmentError>)
      requires Valid()
      modifies this
      ensures Valid()
      ensures r.Ok? <==> index == old(nextIndex) && 0 < |plaintext| <= CHUNK_SIZE
                         && old(received) + |plaintext| <= total
                         && (old(received) + |plaintext| < total ==> |plaintext| == CHUNK_SIZE)
      ensures r.Ok? ==> pieces == old(pieces) + [plaintext] && nonces == old(nonces) + [nonce]
      ensures r.Err? ==> r.error == InvalidChunk && unchanged(this)
    {
      hide Aad, Hex, ValidBlobId, FileNameOk, MediaTypeOk, Concat, Chunked, SealedPieces, Descriptors;
      if index != nextIndex || plaintext == [] || |plaintext| > CHUNK_SIZE {
        return Err(InvalidChunk);
      }
      if received + |plaintext| > total || (received + |plaintext| < total && |plaintext| != CHUNK_SIZE) {
        return Err(InvalidChunk);
      }
      var ciphertext := aead.seal(key, nonce, Aad(index, total), plaintext);
      PackageGrows(aead, key, total, pieces, nonces, plaintext, nonce);
      LastPiece(pieces, plaintext);
      blob := blob + ciphertext;
      chunks := chunks + [ChunkDescriptor(index, Hex(nonce), |ciphertext|)];
      received := received + |plaintext|;
      nextIndex := nextIndex + 1;
      pieces := pieces + [plaintext];
      nonces := nonces + [nonce];
      r := Ok(());
    }

    // A finished job is exactly the package of whole-file encryption: its descriptor validates, the
    // blob carries one tag per chunk, and decrypting it returns everything appended.
    method Finish() returns (r: Result<EncryptedAttachment, AttachmentError>)
      requires Valid()
      ensures r.Ok? <==> received == total
      ensures r.Err? ==> r.error == InvalidManifest
      ensures r.Ok? ==>
                && |nonces| == |Pieces(Concat(pieces))|
                && r.value == Package(aead, key, blobId, total, Pieces(Concat(pieces)), nonces, fileName, mediaType)
                && Validation(r.value.descriptor).Ok?
                && |r.value.descriptor.chunks| == PieceCount(total)
                && |r.value.blob| == total + TAG_BYTES * PieceCount(total)
                && BlobPlaintext(aead, r.value.descriptor, r.value.blob) == Ok(Concat(pieces))
    {
      hide Pieces, PieceCount, Validation, SealedPieces, Descriptors, BlobPlaintext;
      if received == total {
        ChunkingIsUnique(pieces, total);
        PackageIsValid(aead, key, blobId, total, pieces, nonces, fileName, mediaType);
        PackageDecrypts(aead, key, blobId, total, pieces, nonces, fileName, mediaType);
      }
      if received != total || blob == [] {
        return Err(InvalidManifest);
      }
      r := Ok(EncryptedAttachment(
        Descriptor(ATTACHMENT_VERSION, blobId, key, CHUNK_SIZE, total, chunks, fileName, mediaType), blob));
    }
  }

  lemma LastPiece(pieces: seq<Bytes>, piece: Bytes)
    requires 0 < |piece| <= CHUNK_SIZE
    requires forall i :: 0 <= i < |pieces| ==> |pieces[i]| == CHUNK_SIZE
    ensures Chunked(pieces + [piece], |Concat(pieces + [piece])|)
  {
    hide Concat;
  }

  lemma PackageGrows(a: Aead, key: Bytes, total: nat, pieces: seq<Bytes>, nonces: seq<Nonce>, piece: Bytes, nonce: Nonce)
    requires |nonces| == |pieces|
    ensures var index := |pieces|;
            var sealed := a.seal(key, nonce, Aad(index, total), piece);
            && Descriptors(a, key, total, pieces + [piece], nonces + [nonce])
               == Descriptors(a, key, total, pieces, nonces) + [ChunkDescriptor(index, Hex(nonce), |sealed|)]
            && Concat(SealedPieces(a, key, total, pieces + [piece], nonces + [nonce]))
               == Concat(SealedPieces(a, key, total, pieces, nonces)) + sealed
            && Concat(pieces + [piece]) == Concat(pieces) + piece
  {
    hide Aad, Hex;
    var all := SealedPieces(a, key, total, pieces + [piece], nonces + [nonce]);
    assert all[..|pieces|] == SealedPieces(a, key, total, pieces, nonces);
    assert (pieces + [piece])[..|pieces|] == pieces;
  }

  // ---- the upload loop of the attachment routes ----

  // `relay` says which requests the relay itself accepts. The ranges that got through are the first ones,
  // in order; all do exactly when client and relay accept every one.
  method UploadBlob(blob: Bytes, relay: nat -> bool) returns (sent: seq<(nat, Bytes)>, ok: bool)
    ensures |sent| <= |Pieces(blob)|
    ensures forall i :: 0 <= i < |sent| ==> sent[i] == (i * CHUNK_SIZE, Pieces(blob)[i])
    ensures ok <==> |sent| == |Pieces(blob)|
    ensures ok <==> forall i :: 0 <= i < |Pieces(blob)| ==> RangeOk(i * CHUNK_SIZE, |blob|, |Pieces(blob)[i]|) && relay(i)
  {
    hide Pieces;
    sent := [];
    var pieces := Pieces(blob);
    for i := 0 to |pieces|
      invariant |sent| == i
      invariant forall j :: 0 <= j < i ==> sent[j] == (j * CHUNK_SIZE, pieces[j])
      invariant forall j :: 0 <= j < i ==> RangeOk(j * CHUNK_SIZE, |blob|, |pieces[j]|) && relay(j)
    {
      var offset := i * CHUNK_SIZE;
      if !RangeOk(offset, |blob|, |pieces[i]|) || !relay(i) {
        return sent, false;
      }
      sent := sent + [(offset, pieces[i])];
    }
    ok := true;
  }
}
