/**
 * AES-256-GCM (NIST SP 800-38D) as Node's `createCipheriv` / `createDecipheriv`
 * use it, kept abstract: a pair of functions and the laws the envelope relies on.
 * The cipher's internals are not modelled and no security claim is made.
 */
module Aead {
  import opened Wrappers
  import opened Hex

  /** Length in bytes of the authentication tag that `getAuthTag()` returns. */
  const GcmTagLength: nat := 16

  /** Output of one encryption: ciphertext and authentication tag. */
  datatype Ciphertext = Ciphertext(ct: Bytes, tag: Bytes)

  /**
   * `Enc(key, iv, plaintext)` is `update` + `final` + `getAuthTag` on a cipher;
   * `Dec(key, iv, ct, tag)` is `setAuthTag` + `update` + `final` on a decipher,
   * with `None` where `final` throws "Unsupported state or unable to authenticate data".
   * No associated data is ever passed.
   */
  datatype Cipher = Cipher(
    Enc: (Bytes, Bytes, Bytes) -> Ciphertext,
    Dec: (Bytes, Bytes, Bytes, Bytes) -> Option<Bytes>)

  /**
   * The laws of an AEAD in counter mode:
   * the ciphertext is as long as the plaintext and the tag is 16 bytes;
   * decryption inverts encryption;
   * decryption accepts only genuine encryptions (an accepted `(ct, tag)` is the
   * encryption of what it returns);
   * under one key and IV the ciphertext determines the plaintext (GCM's
   * counter-mode keystream is a bijection on each length).
   */
  ghost predicate Lawful(c: Cipher) {
    && (forall k, n, p :: |c.Enc(k, n, p).ct| == |p| && |c.Enc(k, n, p).tag| == GcmTagLength)
    && (forall k, n, p :: c.Dec(k, n, c.Enc(k, n, p).ct, c.Enc(k, n, p).tag) == Some(p))
    && (forall k, n, ct, tag :: c.Dec(k, n, ct, tag).Some? ==>
          c.Enc(k, n, c.Dec(k, n, ct, tag).value) == Ciphertext(ct, tag))
    && (forall k, n, p, q :: c.Enc(k, n, p).ct == c.Enc(k, n, q).ct ==> p == q)
  }

  /**
   * Decryption succeeds exactly on genuine encryptions: `Dec` returns `p`
   * precisely when `(ct, tag)` is what `Enc` produces from `p`.
   */
  lemma DecIffEnc(c: Cipher, k: Bytes, n: Bytes, ct: Bytes, tag: Bytes, p: Bytes)
    requires Lawful(c)
    ensures c.Dec(k, n, ct, tag) == Some(p) <==> c.Enc(k, n, p) == Ciphertext(ct, tag)
  {
    if c.Enc(k, n, p) == Ciphertext(ct, tag) {
      assert c.Dec(k, n, c.Enc(k, n, p).ct, c.Enc(k, n, p).tag) == Some(p);
    }
  }

  /**
   * A tag other than the one `Enc` produced for the same key, IV and
   * ciphertext is always rejected.
   */
  lemma AltTagRejected(c: Cipher, k: Bytes, n: Bytes, p: Bytes, tag: Bytes)
    requires Lawful(c)
    requires tag != c.Enc(k, n, p).tag
    ensures c.Dec(k, n, c.Enc(k, n, p).ct, tag) == None
  {
    var ct := c.Enc(k, n, p).ct;
    var r := c.Dec(k, n, ct, tag);
    assert forall q :: r == Some(q) ==> c.Enc(k, n, q) == Ciphertext(ct, tag) && q == p;
  }

  /** A plaintext-preserving cipher with an all-zero tag: it shows the laws can be met. */
  function Witness(): (c: Cipher)
    ensures Lawful(c)
  {
    var zeros: Bytes := seq(GcmTagLength, _ => 0);
    Cipher(
      (k, n, p) => Ciphertext(p, zeros),
      (k, n, ct, tag) => if tag == zeros then Some(ct) else None)
  }
}
