/**
 Chunked attachment encryption on values: one package, reached by whole-file encryption and
 by streaming, and two decoders, for the whole blob and for single chunks of it.
 */
module Attachments {
  import opened Prelude
  import opened Text
  import opened Aead

  const ATTACHMENT_VERSION: nat := 1
  const CHUNK_SIZE: nat := 64 * 1024
  const SEALED_CHUNK: nat := CHUNK_SIZE + TAG_BYTES
  const MAX_ATTACHMENT_BYTES: nat := 32 * 1024 * 1024
  const MAX_CHUNKS: nat := 512  // MAX_ATTACHMENT_BYTES.div_ceil(CHUNK_SIZE)

  datatype AttachmentError =
    | Empty | TooLarge | InvalidManifest | InvalidChunk | AuthenticationFailed

  datatype Chunk = Chunk(index: nat, nonce: Text, ciphertext: Text)

  datatype Manifest = Manifest(version: nat, chunkSize: nat, originalSize: nat, chunks: seq<Chunk>)

  datatype ChunkDescriptor = ChunkDescriptor(index: nat, nonce: Text, ciphertextSize: nat)

  datatype Descriptor = Descriptor(
    version: nat, blobId: Text, key: Bytes, chunkSize: nat, originalSize: nat,
    chunks: seq<ChunkDescriptor>, fileName: Option<Text>, mediaType: Option<Text>)

  datatype EncryptedAttachment = EncryptedAttachment(descriptor: Descriptor, blob: Bytes)

  function Aad(index: nat, originalSize: nat): Bytes {
    Ascii("another-dimension/attachment/v1") + BigEndian(index, 4) + BigEndian(originalSize, 8)
  }

  // The associated data of a chunk determines its place and the attachment's size.
  lemma AadBinds(index: nat, size: nat, otherIndex: nat, otherSize: nat)
    requires index < Pow256(4) && otherIndex < Pow256(4) && size < Pow256(8) && otherSize < Pow256(8)
    ensures Aad(index, size) == Aad(otherIndex, otherSize) ==> index == otherIndex && size == otherSize
  {
    hide Ascii, Pow256;
    BigEndianRoundTrip(index, 4);
    BigEndianRoundTrip(otherIndex, 4);
    BigEndianRoundTrip(size, 8);
    BigEndianRoundTrip(otherSize, 8);
    var a, b := Aad(index, size), Aad(otherIndex, otherSize);
    assert a[31..35] == BigEndian(index, 4) && b[31..35] == BigEndian(otherIndex, 4);
    assert a[35..43] == BigEndian(size, 8) && b[35..43] == BigEndian(otherSize, 8);
  }

  // Where a ciphertext opens only under the associated data it was sealed with, a chunk opens in its own
  // place of an attachment of its own size, and in no other.
  lemma ChunkKeepsItsPlace(a: Aead, key: Bytes, nonce: Nonce, index: nat, size: nat, piece: Bytes, otherIndex: nat, otherSize: nat)
    requires Lawful(a) && index < Pow256(4) && otherIndex < Pow256(4) && size < Pow256(8) && otherSize < Pow256(8)
    requires forall ad :: ad != Aad(index, size) ==> a.open(key, nonce, ad, a.seal(key, nonce, Aad(index, size), piece)).None?
    ensures a.open(key, nonce, Aad(otherIndex, otherSize), a.seal(key, nonce, Aad(index, size), piece)).Some?
            <==> otherIndex == index && otherSize == size
  {
    hide Aad, Pow256;
    AadBinds(index, size, otherIndex, otherSize);
  }

  predicate ValidBlobId(id: Text) {
    && 32 <= |id| <= 128
    && forall i :: 0 <= i < |id| ==>
         48 <= id[i] <= 57 || 65 <= id[i] <= 90 || 97 <= id[i] <= 122 || id[i] == 95 || id[i] == 45
  }

  // sanitize_file_name and sanitize_media_type: an empty name counts as none.
  predicate FileNameOk(name: Option<Text>) {
    name.Some? && name.value != [] ==> |name.value| <= 255 && 47 !in name.value && 92 !in name.value && 0 !in name.value
  }

  predicate MediaTypeOk(name: Option<Text>) {
    name.Some? && name.value != [] ==>
      |name.value| <= 128 && 13 !in name.value && 10 !in name.value && forall b :: b in name.value ==> b < 128
  }

  function Sanitized(name: Option<Text>): Option<Text> {
    if name == Some([]) then None else name
  }

  // A chunk's nonce text, when it decodes to twelve bytes.
  function NonceOf(t: Text): Option<Nonce> {
    match DecodeHexNonEmpty(t)
    case None => None
    case Some(n) => if |n| == NONCE_BYTES then Some(n) else None
  }

  // ---- descriptor validity, in closed form ----

  predicate HeaderOk(d: Descriptor) {
    && ValidBlobId(d.blobId) && d.version == ATTACHMENT_VERSION && d.chunkSize == CHUNK_SIZE
    && 0 < d.originalSize <= MAX_ATTACHMENT_BYTES
    && 0 < |d.chunks| <= MAX_CHUNKS
    && FileNameOk(d.fileName) && MediaTypeOk(d.mediaType)
  }

  predicate ChunkOk(d: Descriptor, i: nat)
    requires i < |d.chunks|
  {
    var c := d.chunks[i];
    && c.index == i && TAG_BYTES <= c.ciphertextSize <= SEALED_CHUNK && NonceOf(c.nonce).Some?
    && (i + 1 < |d.chunks| ==> c.ciphertextSize == SEALED_CHUNK)
  }

  predicate ChunksOk(d: Descriptor) {
    forall i :: 0 <= i < |d.chunks| ==> ChunkOk(d, i)
  }

  // The prefix sum the download route computes.
  function Offset(chunks: seq<ChunkDescriptor>, i: nat): nat
    requires i <= |chunks|
  {
    if i == 0 then 0 else Offset(chunks, i - 1) + chunks[i - 1].ciphertextSize
  }

  function BlobLength(d: Descriptor): nat { Offset(d.chunks, |d.chunks|) }

  function Validation(d: Descriptor): Result<(), AttachmentError> {
    if !HeaderOk(d) then Err(InvalidManifest)
    else if !ChunksOk(d) then Err(InvalidChunk)
    else if BlobLength(d) != d.originalSize + TAG_BYTES * |d.chunks| then Err(InvalidManifest)
    else Ok(())
  }

  // ---- offsets ----

  lemma {:induction false} OffsetClosedForm(d: Descriptor, i: nat)
    requires ChunksOk(d) && i < |d.chunks|
    ensures Offset(d.chunks, i) == i * SEALED_CHUNK
  {
    if i > 0 {
      OffsetClosedForm(d, i - 1);
      assert ChunkOk(d, i - 1);
    }
  }

  lemma {:induction false} OffsetMonotone(chunks: seq<ChunkDescriptor>, i: nat, j: nat)
    requires i <= j <= |chunks|
    ensures Offset(chunks, i) <= Offset(chunks, j)
  {
    if i < j {
      OffsetMonotone(chunks, i, j - 1);
    }
  }

  // The part of the blob that belongs to chunk i.
  function Segment(d: Descriptor, blob: Bytes, i: nat): Bytes
    requires i < |d.chunks| && |blob| == BlobLength(d)
  {
    OffsetMonotone(d.chunks, i + 1, |d.chunks|);
    blob[Offset(d.chunks, i)..Offset(d.chunks, i + 1)]
  }

  function Segments(d: Descriptor, blob: Bytes, n: nat): (s: seq<Bytes>)
    requires n <= |d.chunks| && |blob| == BlobLength(d)
    ensures |s| == n
  {
    seq(n, i requires 0 <= i < n => Segment(d, blob, i))
  }

  // The segments tile the blob.
  lemma {:induction false} SegmentsTile(d: Descriptor, blob: Bytes, n: nat)
    requires n <= |d.chunks| && |blob| == BlobLength(d)
    ensures Offset(d.chunks, n) <= |blob| && Concat(Segments(d, blob, n)) == blob[..Offset(d.chunks, n)]
  {
    OffsetMonotone(d.chunks, n, |d.chunks|);
    if n > 0 {
      SegmentsTile(d, blob, n - 1);
      assert Segments(d, blob, n)[..n - 1] == Segments(d, blob, n - 1);
    }
  }

  // ---- which descriptors are valid ----

  // The sealed size of chunk i of an attachment of this many bytes.
  function SealedSize(size: nat, i: nat): int {
    TAG_BYTES + if size - i * CHUNK_SIZE < CHUNK_SIZE then size - i * CHUNK_SIZE else CHUNK_SIZE
  }

  predicate ListsChunk(d: Descriptor, i: nat)
    requires i < |d.chunks|
  {
    && d.chunks[i].index == i && NonceOf(d.chunks[i].nonce).Some?
    && d.chunks[i].ciphertextSize == SealedSize(d.originalSize, i)
  }

  // The size of the attachment decides the size of every chunk, and with it their number, but for one
  // thing: after a whole number of full chunks an empty one may follow.
  lemma ValidExactly(d: Descriptor)
    ensures Validation(d).Ok? <==>
              && ValidBlobId(d.blobId) && FileNameOk(d.fileName) && MediaTypeOk(d.mediaType)
              && d.version == 1 && d.chunkSize == 65536 && 0 < d.originalSize <= 33554432 && |d.chunks| <= MAX_CHUNKS
              && (|| |d.chunks| == PieceCount(d.originalSize)
                  || (|d.chunks| == PieceCount(d.originalSize) + 1 && d.originalSize % 65536 == 0))
              && forall i :: 0 <= i < |d.chunks| ==> ListsChunk(d, i)
  {
    hide ValidBlobId, FileNameOk, MediaTypeOk, ListsChunk, ChunkOk, BlobLength;
    if d.chunks != [] {
      CountFits(d.originalSize, |d.chunks|);
      ChunksFit(d);
    }
  }

  lemma ChunksFit(d: Descriptor)
    requires d.chunks != []
    ensures var n := |d.chunks|;
            ChunksOk(d) && BlobLength(d) == d.originalSize + TAG_BYTES * n <==>
              (n - 1) * CHUNK_SIZE <= d.originalSize <= n * CHUNK_SIZE && forall i :: 0 <= i < n ==> ListsChunk(d, i)
  {
    hide NonceOf, Offset, BlobLength, SealedSize;
    var n := |d.chunks|;
    if ChunksOk(d) {
      LastOffset(d);
      SizesOfChunks(d);
      if BlobLength(d) == d.originalSize + TAG_BYTES * n {
        forall i | 0 <= i < n ensures ListsChunk(d, i) {
          assert ChunkOk(d, i);
        }
      }
    }
    if (n - 1) * CHUNK_SIZE <= d.originalSize <= n * CHUNK_SIZE && forall i :: 0 <= i < n ==> ListsChunk(d, i) {
      forall i | 0 <= i < n ensures ChunkOk(d, i) {
        assert ListsChunk(d, i);
        FullBefore(d.originalSize, n, i);
      }
      LastOffset(d);
      assert ListsChunk(d, n - 1);
      FullBefore(d.originalSize, n, n - 1);
    }
  }

  // What a valid descriptor may be called: no path, no control of the receiver's file system or headers.
  lemma NamesAreTame(d: Descriptor)
    requires Validation(d).Ok?
    ensures 32 <= |d.blobId| <= 128 && forall b :: b in d.blobId ==> 48 <= b <= 57 || 65 <= b <= 90 || 97 <= b <= 122 || b in {45, 95}
    ensures d.fileName.Some? ==> |d.fileName.value| <= 255 && forall b :: b in d.fileName.value ==> b !in {0, 47, 92}
    ensures d.mediaType.Some? ==> |d.mediaType.value| <= 128 && forall b :: b in d.mediaType.value ==> b < 128 && b !in {10, 13}
  {
    hide NonceOf, ChunksOk, BlobLength;
    if d.fileName.Some? && d.fileName.value == [] {
      assert forall b :: b !in d.fileName.value;
    }
  }

  // How many chunks a size leaves room for.
  lemma CountFits(size: nat, n: nat)
    requires n > 0
    ensures size > 0 ==>
              ((n - 1) * CHUNK_SIZE <= size <= n * CHUNK_SIZE <==>
                 n == PieceCount(size) || (n == PieceCount(size) + 1 && size % 65536 == 0))
  {}

  lemma FullBefore(size: nat, n: nat, i: nat)
    requires i < n && (n - 1) * CHUNK_SIZE <= size <= n * CHUNK_SIZE
    ensures SealedSize(size, i) == TAG_BYTES + if i < n - 1 then CHUNK_SIZE else size - (n - 1) * CHUNK_SIZE
  {
    if i < n - 1 {
      assert (i + 1) * CHUNK_SIZE <= (n - 1) * CHUNK_SIZE;
    }
  }

  lemma LastOffset(d: Descriptor)
    requires ChunksOk(d) && d.chunks != []
    ensures var n := |d.chunks|;
            BlobLength(d) == (n - 1) * SEALED_CHUNK + d.chunks[n - 1].ciphertextSize
  {
    hide ChunkOk;
    OffsetClosedForm(d, |d.chunks| - 1);
  }

  lemma SizesOfChunks(d: Descriptor)
    requires ChunksOk(d) && d.chunks != []
    requires BlobLength(d) == (|d.chunks| - 1) * SEALED_CHUNK + d.chunks[|d.chunks| - 1].ciphertextSize
    ensures BlobLength(d) == d.originalSize + TAG_BYTES * |d.chunks| ==>
              && (|d.chunks| - 1) * CHUNK_SIZE <= d.originalSize <= |d.chunks| * CHUNK_SIZE
              && forall i :: 0 <= i < |d.chunks| ==> d.chunks[i].ciphertextSize == SealedSize(d.originalSize, i)
  {
    hide NonceOf, BlobLength, SealedSize;
    var n := |d.chunks|;
    if BlobLength(d) == d.originalSize + TAG_BYTES * n {
      assert ChunkOk(d, n - 1);
      assert d.originalSize == (n - 1) * CHUNK_SIZE + d.chunks[n - 1].ciphertextSize - TAG_BYTES;
      forall i | 0 <= i < n ensures d.chunks[i].ciphertextSize == SealedSize(d.originalSize, i) {
        assert ChunkOk(d, i);
        FullBefore(d.originalSize, n, i);
      }
    }
  }

  // ---- decryption ----

  // Chunk i of the blob opened under the descriptor's key.
  function OpenSegment(a: Aead, d: Descriptor, blob: Bytes, i: nat): Option<Bytes>
    requires i < |d.chunks| && |blob| == BlobLength(d) && NonceOf(d.chunks[i].nonce).Some?
  {
    a.open(d.key, NonceOf(d.chunks[i].nonce).value, Aad(i, d.originalSize), Segment(d, blob, i))
  }

  predicate AllOpen(a: Aead, d: Descriptor, blob: Bytes)
    requires Validation(d).Ok? && |blob| == BlobLength(d)
  {
    forall i :: 0 <= i < |d.chunks| ==> ChunkOk(d, i) && OpenSegment(a, d, blob, i).Some?
  }

  function Opened(a: Aead, d: Descriptor, blob: Bytes): (s: seq<Bytes>)
    requires Validation(d).Ok? && |blob| == BlobLength(d) && AllOpen(a, d, blob)
    ensures |s| == |d.chunks|
  {
    seq(|d.chunks|, i requires 0 <= i < |d.chunks| => assert ChunkOk(d, i); OpenSegment(a, d, blob, i).value)
  }

  // What decrypt_blob returns, as a statement about all chunks at once.
  function BlobPlaintext(a: Aead, d: Descriptor, blob: Bytes): Result<Bytes, AttachmentError> {
    if Validation(d).Err? then Err(Validation(d).error)
    else if |blob| < BlobLength(d) then Err(InvalidChunk)
    else if |blob| > BlobLength(d) then Err(InvalidManifest)
    else if !AllOpen(a, d, blob) then Err(AuthenticationFailed)
    else Ok(Concat(Opened(a, d, blob)))
  }

  function DecryptBlobChunk(a: Aead, d: Descriptor, index: nat, ciphertext: Bytes): Result<Bytes, AttachmentError> {
    if Validation(d).Err? then Err(Validation(d).error)
    else if index >= |d.chunks| then Err(InvalidChunk)
    else
      var c := d.chunks[index];
      if c.index != index || c.ciphertextSize != |ciphertext|
         || |ciphertext| < TAG_BYTES || |ciphertext| > SEALED_CHUNK then Err(InvalidChunk)
      else if NonceOf(c.nonce).None? then Err(InvalidChunk)
      else
        match a.open(d.key, NonceOf(c.nonce).value, Aad(index, d.originalSize), ciphertext)
        case None => Err(AuthenticationFailed)
        case Some(plain) => Ok(plain)
  }

  // The range the download route asks for, and what decrypting it gives.
  function DownloadChunk(a: Aead, d: Descriptor, blob: Bytes, i: nat): Result<Bytes, AttachmentError>
    requires i < |d.chunks| && |blob| == BlobLength(d)
  {
    DecryptBlobChunk(a, d, i, Segment(d, blob, i))
  }

  function Values(parts: seq<Result<Bytes, AttachmentError>>): (s: seq<Bytes>)
    requires forall i :: 0 <= i < |parts| ==> parts[i].Ok?
    ensures |s| == |parts|
  {
    seq(|parts|, i requires 0 <= i < |parts| => parts[i].value)
  }

  function Downloads(a: Aead, d: Descriptor, blob: Bytes): (s: seq<Result<Bytes, AttachmentError>>)
    requires |blob| == BlobLength(d)
    ensures |s| == |d.chunks|
  {
    seq(|d.chunks|, i requires 0 <= i < |d.chunks| => DownloadChunk(a, d, blob, i))
  }

  lemma DownloadIsOpen(a: Aead, d: Descriptor, blob: Bytes, i: nat)
    requires Validation(d).Ok? && |blob| == BlobLength(d) && i < |d.chunks|
    ensures NonceOf(d.chunks[i].nonce).Some?
    ensures DownloadChunk(a, d, blob, i)
            == match OpenSegment(a, d, blob, i) case None => Err(AuthenticationFailed) case Some(p) => Ok(p)
  {
    hide Aad, NonceOf;
    assert ChunkOk(d, i);
    OffsetMonotone(d.chunks, i + 1, |d.chunks|);
  }

  // A range decrypts as chunk i exactly when it has that chunk's length and opens in its place.
  lemma ChunkDecryptsExactly(a: Aead, d: Descriptor, index: nat, ciphertext: Bytes, plain: Bytes)
    requires Validation(d).Ok?
    ensures DecryptBlobChunk(a, d, index, ciphertext) == Ok(plain) <==>
              && index < |d.chunks| && |ciphertext| == SealedSize(d.originalSize, index)
              && NonceOf(d.chunks[index].nonce).Some?
              && a.open(d.key, NonceOf(d.chunks[index].nonce).value, Aad(index, d.originalSize), ciphertext) == Some(plain)
  {
    hide Aad, NonceOf, HeaderOk, PieceCount, SealedSize, BlobLength;
    ValidExactly(d);
    if index < |d.chunks| {
      assert ChunkOk(d, index) && ListsChunk(d, index);
    }
  }

  // For every valid descriptor and blob of its length: chunk i starts at i * 65552, the ranges
  // tile the blob, and downloading them one by one succeeds exactly when decrypting the whole
  // blob does, with the same bytes in the same order.
  lemma RandomAccessAgrees(a: Aead, d: Descriptor, blob: Bytes)
    requires Validation(d).Ok? && |blob| == BlobLength(d)
    ensures forall i :: 0 <= i < |d.chunks| ==> Offset(d.chunks, i) == i * SEALED_CHUNK
    ensures Concat(Segments(d, blob, |d.chunks|)) == blob
    ensures var parts := Downloads(a, d, blob);
            && (BlobPlaintext(a, d, blob).Ok? <==> forall i :: 0 <= i < |parts| ==> parts[i].Ok?)
            && (BlobPlaintext(a, d, blob).Ok? ==> BlobPlaintext(a, d, blob).value == Concat(Values(parts)))
  {
    hide OpenSegment, DownloadChunk, Segment, HeaderOk;
    forall i | 0 <= i < |d.chunks| ensures Offset(d.chunks, i) == i * SEALED_CHUNK {
      OffsetClosedForm(d, i);
    }
    SegmentsTile(d, blob, |d.chunks|);
    assert blob[..|blob|] == blob;
    var parts := Downloads(a, d, blob);
    forall i | 0 <= i < |d.chunks|
      ensures NonceOf(d.chunks[i].nonce).Some?
      ensures parts[i] == match OpenSegment(a, d, blob, i) case None => Err(AuthenticationFailed) case Some(p) => Ok(p)
    {
      DownloadIsOpen(a, d, blob, i);
    }
    if AllOpen(a, d, blob) {
      assert Values(parts) == Opened(a, d, blob);
    }
  }

  // ---- the package every encoder produces ----

  // How a plaintext of `total` bytes is cut: full pieces, then one of 1..CHUNK_SIZE bytes.
  ghost predicate Chunked(pieces: seq<Bytes>, total: nat) {
    && pieces != []
    && (forall i :: 0 <= i < |pieces| - 1 ==> |pieces[i]| == CHUNK_SIZE)
    && 0 < |pieces[|pieces| - 1]| <= CHUNK_SIZE
    && |Concat(pieces)| == total
  }

  function PieceCount(total: nat): nat { (total + CHUNK_SIZE - 1) / CHUNK_SIZE }

  function SealedPieces(a: Aead, key: Bytes, total: nat, pieces: seq<Bytes>, nonces: seq<Nonce>): (s: seq<Bytes>)
    requires |nonces| == |pieces|
    ensures |s| == |pieces|
  {
    seq(|pieces|, i requires 0 <= i < |pieces| => a.seal(key, nonces[i], Aad(i, total), pieces[i]))
  }

  function Descriptors(a: Aead, key: Bytes, total: nat, pieces: seq<Bytes>, nonces: seq<Nonce>): (s: seq<ChunkDescriptor>)
    requires |nonces| == |pieces|
    ensures |s| == |pieces|
  {
    seq(|pieces|, i requires 0 <= i < |pieces| =>
      ChunkDescriptor(i, Hex(nonces[i]), |a.seal(key, nonces[i], Aad(i, total), pieces[i])|))
  }

  function Package(a: Aead, key: Bytes, blobId: Text, total: nat, pieces: seq<Bytes>, nonces: seq<Nonce>,
                   fileName: Option<Text>, mediaType: Option<Text>): EncryptedAttachment
    requires |nonces| == |pieces|
  {
    EncryptedAttachment(
      Descriptor(ATTACHMENT_VERSION, blobId, key, CHUNK_SIZE, total, Descriptors(a, key, total, pieces, nonces),
                 fileName, mediaType),
      Concat(SealedPieces(a, key, total, pieces, nonces)))
  }

  lemma {:induction false} FullPiecesLength(pieces: seq<Bytes>)
    requires forall i :: 0 <= i < |pieces| ==> |pieces[i]| == CHUNK_SIZE
    ensures |Concat(pieces)| == |pieces| * CHUNK_SIZE
  {
    if pieces != [] {
      FullPiecesLength(pieces[..|pieces| - 1]);
    }
  }

  lemma ChunkedCount(pieces: seq<Bytes>, total: nat)
    requires Chunked(pieces, total)
    ensures |pieces| == PieceCount(total)
    ensures total == (|pieces| - 1) * CHUNK_SIZE + |pieces[|pieces| - 1]|
    ensures total <= MAX_ATTACHMENT_BYTES ==> |pieces| <= MAX_CHUNKS
  {
    FullPiecesLength(pieces[..|pieces| - 1]);
  }

  lemma NonceRoundTrip(n: Nonce)
    ensures NonceOf(Hex(n)) == Some(n)
  {
    hide Hex, DecodeHex;
    HexRoundTrip(n);
  }

  lemma {:induction false} PackageOffsets(a: Aead, key: Bytes, total: nat, pieces: seq<Bytes>, nonces: seq<Nonce>, n: nat)
    requires |nonces| == |pieces| && n <= |pieces|
    ensures Offset(Descriptors(a, key, total, pieces, nonces), n)
            == |Concat(SealedPieces(a, key, total, pieces, nonces)[..n])|
  {
    var sealed := SealedPieces(a, key, total, pieces, nonces);
    if n > 0 {
      PackageOffsets(a, key, total, pieces, nonces, n - 1);
      assert sealed[..n][..n - 1] == sealed[..n - 1];
    }
  }

  lemma {:induction false} SealedLength(a: Aead, key: Bytes, total: nat, pieces: seq<Bytes>, nonces: seq<Nonce>, n: nat)
    requires Lawful(a) && |nonces| == |pieces| && n <= |pieces|
    ensures |Concat(SealedPieces(a, key, total, pieces, nonces)[..n])| == |Concat(pieces[..n])| + TAG_BYTES * n
  {
    var sealed := SealedPieces(a, key, total, pieces, nonces);
    if n > 0 {
      SealedLength(a, key, total, pieces, nonces, n - 1);
      assert sealed[..n][..n - 1] == sealed[..n - 1];
      assert pieces[..n][..n - 1] == pieces[..n - 1];
      assert sealed[n - 1] == a.seal(key, nonces[n - 1], Aad(n - 1, total), pieces[n - 1]);
    }
  }

  lemma {:induction false} ConcatPart(parts: seq<Bytes>, i: nat)
    requires i < |parts|
    ensures |Concat(parts[..i])| + |parts[i]| <= |Concat(parts)|
    ensures Concat(parts)[|Concat(parts[..i])|..|Concat(parts[..i])| + |parts[i]|] == parts[i]
  {
    var front := parts[..|parts| - 1];
    if i == |parts| - 1 {
      assert parts[..i] == front;
    } else {
      ConcatPart(front, i);
      assert front[..i] == parts[..i];
      assert Concat(front) <= Concat(parts);
    }
  }

  // A package made of such pieces passes validation and has the promised sizes.
  lemma PackageIsValid(a: Aead, key: Bytes, blobId: Text, total: nat, pieces: seq<Bytes>, nonces: seq<Nonce>,
                       fileName: Option<Text>, mediaType: Option<Text>)
    requires Lawful(a) && Chunked(pieces, total) && |nonces| == |pieces| && total <= MAX_ATTACHMENT_BYTES
    requires ValidBlobId(blobId) && FileNameOk(fileName) && MediaTypeOk(mediaType)
    ensures var p := Package(a, key, blobId, total, pieces, nonces, fileName, mediaType);
            && Validation(p.descriptor).Ok?
            && |p.descriptor.chunks| == PieceCount(total)
            && |p.blob| == BlobLength(p.descriptor) == total + TAG_BYTES * PieceCount(total)
  {
    hide Aad, Hex, NonceOf, FileNameOk, MediaTypeOk, ValidBlobId, SealedPieces;
    var d := Package(a, key, blobId, total, pieces, nonces, fileName, mediaType).descriptor;
    ChunkedCount(pieces, total);
    PackageOffsets(a, key, total, pieces, nonces, |pieces|);
    SealedLength(a, key, total, pieces, nonces, |pieces|);
    var sealed := SealedPieces(a, key, total, pieces, nonces);
    assert sealed[..|pieces|] == sealed && pieces[..|pieces|] == pieces;
    forall i | 0 <= i < |d.chunks| ensures ChunkOk(d, i) {
      NonceRoundTrip(nonces[i]);
      assert d.chunks[i] == ChunkDescriptor(i, Hex(nonces[i]), |a.seal(key, nonces[i], Aad(i, total), pieces[i])|);
      assert d.chunks[i].ciphertextSize == |pieces[i]| + TAG_BYTES;
    }
  }

  // Decrypting a package gives back the concatenation of its pieces.
  lemma PackageDecrypts(a: Aead, key: Bytes, blobId: Text, total: nat, pieces: seq<Bytes>, nonces: seq<Nonce>,
                        fileName: Option<Text>, mediaType: Option<Text>)
    requires Lawful(a) && Chunked(pieces, total) && |nonces| == |pieces| && total <= MAX_ATTACHMENT_BYTES
    requires ValidBlobId(blobId) && FileNameOk(fileName) && MediaTypeOk(mediaType)
    ensures var p := Package(a, key, blobId, total, pieces, nonces, fileName, mediaType);
            BlobPlaintext(a, p.descriptor, p.blob) == Ok(Concat(pieces))
  {
    hide Aad, Hex, NonceOf, Validation, SealedPieces, OpenSegment, BlobLength, Offset, Concat, BlobPlaintext;
    var p := Package(a, key, blobId, total, pieces, nonces, fileName, mediaType);
    PackageIsValid(a, key, blobId, total, pieces, nonces, fileName, mediaType);
    forall i | 0 <= i < |pieces|
      ensures NonceOf(p.descriptor.chunks[i].nonce).Some? && OpenSegment(a, p.descriptor, p.blob, i) == Some(pieces[i])
    {
      PackageSegment(a, key, blobId, total, pieces, nonces, fileName, mediaType, i);
    }
    OpenedPieces(a, p.descriptor, p.blob, pieces);
  }

  lemma OpenedPieces(a: Aead, d: Descriptor, blob: Bytes, pieces: seq<Bytes>)
    requires Validation(d).Ok? && |blob| == BlobLength(d) && |pieces| == |d.chunks|
    requires forall i :: 0 <= i < |d.chunks| ==> NonceOf(d.chunks[i].nonce).Some? && OpenSegment(a, d, blob, i) == Some(pieces[i])
    ensures BlobPlaintext(a, d, blob) == Ok(Concat(pieces))
  {
    hide OpenSegment, BlobLength, Concat, NonceOf;
    assert AllOpen(a, d, blob);
    assert Opened(a, d, blob) == pieces;
  }

  lemma PackageSegment(a: Aead, key: Bytes, blobId: Text, total: nat, pieces: seq<Bytes>, nonces: seq<Nonce>,
                       fileName: Option<Text>, mediaType: Option<Text>, i: nat)
    requires Lawful(a) && |nonces| == |pieces| && i < |pieces|
    requires var p := Package(a, key, blobId, total, pieces, nonces, fileName, mediaType);
             |p.blob| == BlobLength(p.descriptor)
    ensures var p := Package(a, key, blobId, total, pieces, nonces, fileName, mediaType);
            && NonceOf(p.descriptor.chunks[i].nonce).Some?
            && OpenSegment(a, p.descriptor, p.blob, i) == Some(pieces[i])
  {
    hide Aad, Hex, NonceOf, Offset;
    var p := Package(a, key, blobId, total, pieces, nonces, fileName, mediaType);
    var sealed := SealedPieces(a, key, total, pieces, nonces);
    PackageOffsets(a, key, total, pieces, nonces, i);
    PackageOffsets(a, key, total, pieces, nonces, i + 1);
    ConcatPart(sealed, i);
    assert sealed[..i + 1][..i] == sealed[..i];
    NonceRoundTrip(nonces[i]);
    assert Segment(p.descriptor, p.blob, i) == sealed[i];
  }

  // ---- plaintext.chunks(CHUNK_SIZE) ----

  function Cut(length: nat, i: nat): nat {
    if i * CHUNK_SIZE <= length then i * CHUNK_SIZE else length
  }

  lemma Cuts(length: nat, i: nat)
    requires i < PieceCount(length)
    ensures Cut(length, i) == i * CHUNK_SIZE < length
    ensures Cut(length, i) < Cut(length, i + 1) <= Cut(length, i) + CHUNK_SIZE
    ensures if i + 1 < PieceCount(length) then Cut(length, i + 1) == Cut(length, i) + CHUNK_SIZE
            else Cut(length, i + 1) == length
  {}

  function Pieces(plain: Bytes): (s: seq<Bytes>)
    ensures |s| == PieceCount(|plain|)
  {
    seq(PieceCount(|plain|), i requires 0 <= i < PieceCount(|plain|) =>
      Cuts(|plain|, i);
      plain[Cut(|plain|, i)..Cut(|plain|, i + 1)])
  }

  lemma {:induction false} PiecesPrefix(plain: Bytes, n: nat)
    requires n <= PieceCount(|plain|)
    ensures Concat(Pieces(plain)[..n]) == plain[..Cut(|plain|, n)]
  {
    if n > 0 {
      hide PieceCount, Cut;
      Cuts(|plain|, n - 1);
      PiecesPrefix(plain, n - 1);
      assert Pieces(plain)[..n][..n - 1] == Pieces(plain)[..n - 1];
    }
  }

  lemma PiecesChunked(plain: Bytes)
    requires plain != []
    ensures Concat(Pieces(plain)) == plain && Chunked(Pieces(plain), |plain|)
  {
    var n := PieceCount(|plain|);
    assert n > 0;
    hide PieceCount, Cut;
    PiecesPrefix(plain, n);
    Cuts(|plain|, n - 1);
    assert Pieces(plain)[..n] == Pieces(plain);
    assert plain[..|plain|] == plain;
    forall i | 0 <= i < n - 1 ensures |Pieces(plain)[i]| == CHUNK_SIZE {
      Cuts(|plain|, i);
    }
  }

  // ---- the relay upload ----

  const MAX_BLOB_BYTES: nat := 32 * 1024 * 1024

  // The client-side check on one uploaded range.
  predicate RangeOk(offset: nat, total: nat, length: nat) {
    !(total == 0 || total > MAX_BLOB_BYTES || offset > total || offset + length > total)
  }

  // Every range of the upload loop passes exactly when the plaintext is at most 33,546,240 bytes:
  // the tags push the largest attachments over the relay's limit.
  lemma UploadLimit(total: nat, blob: Bytes)
    requires 0 < total <= MAX_ATTACHMENT_BYTES && |blob| == total + TAG_BYTES * PieceCount(total)
    ensures (forall i :: 0 <= i < |Pieces(blob)| ==> RangeOk(i * CHUNK_SIZE, |blob|, |Pieces(blob)[i]|))
            <==> total <= 33_546_240
    ensures Concat(Pieces(blob)) == blob
  {
    PiecesChunked(blob);
    SealedLimit(total);
    hide PieceCount, Cut;
    forall i | 0 <= i < |Pieces(blob)|
      ensures RangeOk(i * CHUNK_SIZE, |blob|, |Pieces(blob)[i]|) <==> |blob| <= MAX_BLOB_BYTES
    {
      Cuts(|blob|, i);
    }
  }

  lemma SealedLimit(total: nat)
    requires 0 < total <= MAX_ATTACHMENT_BYTES
    ensures total + TAG_BYTES * PieceCount(total) <= MAX_BLOB_BYTES <==> total <= 33_546_240
  {
    if total <= 33_546_240 {
      assert PieceCount(total) <= 512;
    } else {
      assert PieceCount(total) == 512;
    }
  }
}
