/** AEAD_AES_256_GCM (section 5.2 of RFC 5116) as a pair of functions with the laws the daemon relies on. */
module Aead {
  import opened Prelude

  const TAG_BYTES := 16
  const NONCE_BYTES := 12

  type Nonce = n: Bytes | |n| == NONCE_BYTES witness seq(NONCE_BYTES, i => 0)

  datatype Aead = Aead(
    seal: (Bytes, Nonce, Bytes, Bytes) -> Bytes,         // key, nonce, associated data, plaintext
    open: (Bytes, Nonce, Bytes, Bytes) -> Option<Bytes>  // key, nonce, associated data, ciphertext
  )

  // Sealing adds the tag and is undone by opening; opening never returns a text of another length.
  ghost predicate Lawful(a: Aead) {
    && (forall key, nonce, ad, plain ::
          |a.seal(key, nonce, ad, plain)| == |plain| + TAG_BYTES
          && a.open(key, nonce, ad, a.seal(key, nonce, ad, plain)) == Some(plain))
    && (forall key, nonce, ad, cipher :: a.open(key, nonce, ad, cipher).Some? ==>
          |cipher| == |a.open(key, nonce, ad, cipher).value| + TAG_BYTES)
  }

  // The laws are consistent: a keyless cipher that only appends a zero tag has them.
  lemma LawfulAeadExists() returns (a: Aead)
    ensures Lawful(a)
  {
    var tag: Bytes := seq(TAG_BYTES, i => 0);
    a := Aead((key, nonce, ad, plain) => plain + tag,
              (key, nonce, ad, cipher) =>
                if |cipher| >= TAG_BYTES then Some(cipher[..|cipher| - TAG_BYTES]) else None);
    forall key: Bytes, nonce: Nonce, ad: Bytes, plain: Bytes
      ensures a.open(key, nonce, ad, a.seal(key, nonce, ad, plain)) == Some(plain)
    {
      assert (plain + tag)[..|plain + tag| - TAG_BYTES] == plain;
    }
  }
}
