/**
 * What `encryptPayload` and `decryptPayload` promise, proved of `Envelope.Seal`
 * and `Envelope.Open` for every lawful AEAD and every JSON codec that round-trips.
 */
module EnvelopeProperties {
  import opened Wrappers
  import opened Hex
  import opened Aead
  import opened Json
  import opened Envelope

  /** The payload layer `Seal` computes: the serialised payload under the DEK. */
  function PayloadLayer<V>(cipher: Cipher, json: Codec<V>, payload: V, draws: Draws): (c: Ciphertext) {
    cipher.Enc(draws.dek, draws.payloadIv, json.Stringify(payload))
  }

  /** The key layer `Seal` computes: the DEK under the master key. */
  function DekLayer(cipher: Cipher, masterKeyHex: string, draws: Draws): (c: Ciphertext) {
    cipher.Enc(Decode(masterKeyHex), draws.dekIv, draws.dek)
  }

  /**
   * A master key that does not decode to 32 bytes is refused, and the outcome
   * does not depend on the random draws or the clock: the check comes before
   * any of them is used.
   */
  lemma SealRejectsBadKey<V>(cipher: Cipher, json: Codec<V>, partyId: string, payload: V,
                             masterKeyHex: string, d1: Draws, d2: Draws, t1: string, t2: string)
    requires |Decode(masterKeyHex)| != KeyLength
    ensures Seal(cipher, json, partyId, payload, masterKeyHex, d1, t1) == Failure(InvalidKeyLength)
    ensures Seal(cipher, json, partyId, payload, masterKeyHex, d1, t1)
         == Seal(cipher, json, partyId, payload, masterKeyHex, d2, t2)
  {
  }

  /** The key "1234" (two bytes) is refused. */
  lemma SealRejectsShortKey<V>(cipher: Cipher, json: Codec<V>, payload: V, draws: Draws, now: string)
    ensures Seal(cipher, json, "p1", payload, "1234", draws, now) == Failure(InvalidKeyLength)
  {
    assert IsHex("1234");
    DecodeLength("1234");
  }

  /**
   * The shape of a sealed record: the caller's `partyId`, the fixed `alg` and
   * `mk_version`, lower-case hex everywhere, 24-character nonces, 32-character
   * tags, a 64-character wrapped DEK, and a payload ciphertext twice as long as
   * the serialised payload. The nonces are the drawn IVs.
   */
  lemma SealedShape<V>(cipher: Cipher, json: Codec<V>, partyId: string, payload: V,
                       masterKeyHex: string, draws: Draws, now: string)
    requires Lawful(cipher)
    requires |Decode(masterKeyHex)| == KeyLength
    ensures Seal(cipher, json, partyId, payload, masterKeyHex, draws, now).Success?
    ensures var s := Seal(cipher, json, partyId, payload, masterKeyHex, draws, now).value;
            && s.partyId == partyId && s.createdAt == now
            && s.alg == "AES-256-GCM" && s.mkVersion == 1
            && |s.payloadNonce| == 24 && |s.dekWrapNonce| == 24
            && |s.payloadTag| == 32 && |s.dekWrapTag| == 32
            && |s.dekWrapped| == 64
            && |s.payloadCt| == 2 * |json.Stringify(payload)|
            && IsLowerHex(s.payloadNonce) && IsLowerHex(s.payloadCt) && IsLowerHex(s.payloadTag)
            && IsLowerHex(s.dekWrapNonce) && IsLowerHex(s.dekWrapped) && IsLowerHex(s.dekWrapTag)
            && Decode(s.payloadNonce) == draws.payloadIv && Decode(s.dekWrapNonce) == draws.dekIv
  {
    DecodeEncode(draws.payloadIv);
    DecodeEncode(draws.dekIv);
  }

  /** Every hex field of a sealed record decodes to the bytes `Seal` computed. */
  lemma SealedDecodes<V>(cipher: Cipher, json: Codec<V>, partyId: string, payload: V,
                         masterKeyHex: string, draws: Draws, now: string)
    requires |Decode(masterKeyHex)| == KeyLength
    ensures Seal(cipher, json, partyId, payload, masterKeyHex, draws, now).Success?
    ensures var s := Seal(cipher, json, partyId, payload, masterKeyHex, draws, now).value;
            && Decode(s.payloadNonce) == draws.payloadIv
            && Decode(s.payloadCt) == PayloadLayer(cipher, json, payload, draws).ct
            && Decode(s.payloadTag) == PayloadLayer(cipher, json, payload, draws).tag
            && Decode(s.dekWrapNonce) == draws.dekIv
            && Decode(s.dekWrapped) == DekLayer(cipher, masterKeyHex, draws).ct
            && Decode(s.dekWrapTag) == DekLayer(cipher, masterKeyHex, draws).tag
  {
    DecodeEncode(draws.payloadIv);
    DecodeEncode(PayloadLayer(cipher, json, payload, draws).ct);
    DecodeEncode(PayloadLayer(cipher, json, payload, draws).tag);
    DecodeEncode(draws.dekIv);
    DecodeEncode(DekLayer(cipher, masterKeyHex, draws).ct);
    DecodeEncode(DekLayer(cipher, masterKeyHex, draws).tag);
  }

  /**
   * Two seals differ in their nonces whenever their draws differ in the IVs,
   * so fresh randomness gives fresh nonces.
   */
  lemma SealNoncesFollowDraws<V>(cipher: Cipher, json: Codec<V>, partyId: string, payload: V,
                                 masterKeyHex: string, d1: Draws, d2: Draws, t1: string, t2: string)
    requires |Decode(masterKeyHex)| == KeyLength
    ensures var s1 := Seal(cipher, json, partyId, payload, masterKeyHex, d1, t1).value;
            var s2 := Seal(cipher, json, partyId, payload, masterKeyHex, d2, t2).value;
            && (s1.payloadNonce == s2.payloadNonce <==> d1.payloadIv == d2.payloadIv)
            && (s1.dekWrapNonce == s2.dekWrapNonce <==> d1.dekIv == d2.dekIv)
  {
    SealedDecodes(cipher, json, partyId, payload, masterKeyHex, d1, t1);
    SealedDecodes(cipher, json, partyId, payload, masterKeyHex, d2, t2);
  }

  /**
   * Round trip: opening a sealed record, given any `id`, with the same master
   * key returns the payload that was sealed.
   */
  lemma RoundTrip<V(!new)>(cipher: Cipher, json: Codec<V>, partyId: string, payload: V,
                     masterKeyHex: string, draws: Draws, now: string, id: string)
    requires Lawful(cipher) && RoundTrips(json)
    requires |Decode(masterKeyHex)| == KeyLength
    ensures Seal(cipher, json, partyId, payload, masterKeyHex, draws, now).Success?
    ensures Open(cipher, json, WithId(id, Seal(cipher, json, partyId, payload, masterKeyHex, draws, now).value),
                 masterKeyHex) == Success(payload)
  {
    SealedDecodes(cipher, json, partyId, payload, masterKeyHex, draws, now);
    var record := WithId(id, Seal(cipher, json, partyId, payload, masterKeyHex, draws, now).value);
    var wrap := DekLayer(cipher, masterKeyHex, draws);
    var body := PayloadLayer(cipher, json, payload, draws);
    assert cipher.Dec(Decode(masterKeyHex), draws.dekIv, wrap.ct, wrap.tag) == Some(draws.dek);
    assert cipher.Dec(draws.dek, draws.payloadIv, body.ct, body.tag) == Some(json.Stringify(payload));
    assert Unwrap(cipher, json, record, Decode(masterKeyHex)) == Success(payload);
  }

  /** The record as stored: a sealed record given its `id`. */
  function Stored<V>(cipher: Cipher, json: Codec<V>, partyId: string, payload: V,
                     masterKeyHex: string, draws: Draws, now: string, id: string): (r: SecureRecord)
    requires |Decode(masterKeyHex)| == KeyLength
    ensures r.id == id && r.alg == AlgName
  {
    WithId(id, Seal(cipher, json, partyId, payload, masterKeyHex, draws, now).value)
  }

  /** Both records carry the same `alg` and DEK nonce. */
  ghost predicate AgreeOnDekNonce(a: SecureRecord, b: SecureRecord) {
    a.alg == b.alg && a.dekWrapNonce == b.dekWrapNonce
  }

  /** ... and the same DEK tag. */
  ghost predicate AgreeOnDekChecks(a: SecureRecord, b: SecureRecord) {
    AgreeOnDekNonce(a, b) && a.dekWrapTag == b.dekWrapTag
  }

  /** ... and the same wrapped DEK: everything the key layer reads. */
  ghost predicate AgreeOnDekLayer(a: SecureRecord, b: SecureRecord) {
    AgreeOnDekChecks(a, b) && a.dekWrapped == b.dekWrapped
  }

  /** ... and the same payload nonce. */
  ghost predicate AgreeOnPayloadNonce(a: SecureRecord, b: SecureRecord) {
    AgreeOnDekLayer(a, b) && a.payloadNonce == b.payloadNonce
  }

  /** ... and the same payload tag: everything but the payload ciphertext. */
  ghost predicate AgreeOnPayloadChecks(a: SecureRecord, b: SecureRecord) {
    AgreeOnPayloadNonce(a, b) && a.payloadTag == b.payloadTag
  }

  /**
   * The checks of `decryptPayload` run in a fixed order and the first that fails
   * decides the error: key length, `alg`, DEK nonce, DEK tag, DEK decipher,
   * payload nonce, payload tag, DEK key length. Each clause says that once a
   * check fails, `other`, a record that agrees only on the fields read so far,
   * fails with the same error, whatever its remaining fields hold.
   */
  lemma FirstFailingCheckDecides<V>(cipher: Cipher, json: Codec<V>, record: SecureRecord,
                                    other: SecureRecord, masterKeyHex: string)
    ensures var mk := Decode(masterKeyHex);
            |mk| != KeyLength ==>
              Open(cipher, json, record, masterKeyHex) == Failure(InvalidKeyLength)
              == Open(cipher, json, other, masterKeyHex)
    ensures var mk := Decode(masterKeyHex);
            |mk| == KeyLength && record.alg != AlgName && other.alg == record.alg ==>
              Open(cipher, json, record, masterKeyHex) == Failure(UnsupportedAlgorithm(record.alg))
              == Open(cipher, json, other, masterKeyHex)
    ensures var mk := Decode(masterKeyHex);
            |mk| == KeyLength && record.alg == AlgName && AgreeOnDekNonce(record, other)
            && |Decode(record.dekWrapNonce)| != IvLength ==>
              Open(cipher, json, record, masterKeyHex) == Failure(InvalidDekNonceLength)
              == Open(cipher, json, other, masterKeyHex)
    ensures var mk := Decode(masterKeyHex);
            |mk| == KeyLength && record.alg == AlgName && AgreeOnDekChecks(record, other)
            && |Decode(record.dekWrapNonce)| == IvLength && |Decode(record.dekWrapTag)| != TagLength ==>
              Open(cipher, json, record, masterKeyHex) == Failure(InvalidDekTagLength)
              == Open(cipher, json, other, masterKeyHex)
    ensures var mk := Decode(masterKeyHex);
            |mk| == KeyLength && record.alg == AlgName && AgreeOnDekLayer(record, other)
            && |Decode(record.dekWrapNonce)| == IvLength && |Decode(record.dekWrapTag)| == TagLength
            && cipher.Dec(mk, Decode(record.dekWrapNonce), Decode(record.dekWrapped), Decode(record.dekWrapTag)) == None ==>
              Open(cipher, json, record, masterKeyHex) == Failure(IntegrityFailure)
              == Open(cipher, json, other, masterKeyHex)
    ensures var mk := Decode(masterKeyHex);
            var dek := cipher.Dec(mk, Decode(record.dekWrapNonce), Decode(record.dekWrapped), Decode(record.dekWrapTag));
            |mk| == KeyLength && record.alg == AlgName && AgreeOnPayloadNonce(record, other)
            && |Decode(record.dekWrapNonce)| == IvLength && |Decode(record.dekWrapTag)| == TagLength
            && dek.Some? && |Decode(record.payloadNonce)| != IvLength ==>
              Open(cipher, json, record, masterKeyHex) == Failure(InvalidPayloadNonceLength)
              == Open(cipher, json, other, masterKeyHex)
    ensures var mk := Decode(masterKeyHex);
            var dek := cipher.Dec(mk, Decode(record.dekWrapNonce), Decode(record.dekWrapped), Decode(record.dekWrapTag));
            |mk| == KeyLength && record.alg == AlgName && AgreeOnPayloadChecks(record, other)
            && |Decode(record.dekWrapNonce)| == IvLength && |Decode(record.dekWrapTag)| == TagLength
            && dek.Some? && |Decode(record.payloadNonce)| == IvLength && |Decode(record.payloadTag)| != TagLength ==>
              Open(cipher, json, record, masterKeyHex) == Failure(InvalidPayloadTagLength)
              == Open(cipher, json, other, masterKeyHex)
    ensures var mk := Decode(masterKeyHex);
            var dek := cipher.Dec(mk, Decode(record.dekWrapNonce), Decode(record.dekWrapped), Decode(record.dekWrapTag));
            |mk| == KeyLength && record.alg == AlgName && AgreeOnPayloadChecks(record, other)
            && |Decode(record.dekWrapNonce)| == IvLength && |Decode(record.dekWrapTag)| == TagLength
            && dek.Some? && |Decode(record.payloadNonce)| == IvLength && |Decode(record.payloadTag)| == TagLength
            && |dek.value| != KeyLength ==>
              Open(cipher, json, record, masterKeyHex) == Failure(CipherKeyRejected)
              == Open(cipher, json, other, masterKeyHex)
  {
    NormaliseOnlyAuth(InvalidDekNonceLength);
    NormaliseOnlyAuth(InvalidDekTagLength);
    NormaliseOnlyAuth(InvalidPayloadNonceLength);
    NormaliseOnlyAuth(InvalidPayloadTagLength);
    NormaliseOnlyAuth(CipherKeyRejected);
  }

  /**
   * An authentication failure at either layer surfaces as the one integrity
   * error, so a caller cannot tell which layer refused the record.
   */
  lemma AuthFailureIsIntegrityFailure<V>(cipher: Cipher, json: Codec<V>, record: SecureRecord, masterKeyHex: string)
    requires |Decode(masterKeyHex)| == KeyLength && record.alg == AlgName
    requires Unwrap(cipher, json, record, Decode(masterKeyHex)) == Failure(CipherAuthFailed)
    ensures Open(cipher, json, record, masterKeyHex) == Failure(IntegrityFailure)
  {
    NormaliseOnlyAuth(CipherAuthFailed);
  }

  /**
   * Neither `dek_wrapped` nor `payload_ct` is length-checked: once the key, `alg`
   * and the four nonce and tag fields pass, no nonce or tag length error can
   * arise, whatever the two ciphertext fields hold; only the DEK key-length error
   * depends on a ciphertext's length.
   */
  lemma CiphertextLengthsUnchecked<V>(cipher: Cipher, json: Codec<V>, record: SecureRecord, masterKeyHex: string)
    requires |Decode(masterKeyHex)| == KeyLength && record.alg == AlgName
    requires |Decode(record.dekWrapNonce)| == IvLength && |Decode(record.dekWrapTag)| == TagLength
    requires |Decode(record.payloadNonce)| == IvLength && |Decode(record.payloadTag)| == TagLength
    ensures var r := Open(cipher, json, record, masterKeyHex);
            r.Failure? ==> r.error == IntegrityFailure || r.error == CipherKeyRejected || r.error.DecodeFailure?
  {
    var r := Unwrap(cipher, json, record, Decode(masterKeyHex));
    assert r.Failure? ==> r.error == CipherAuthFailed || r.error == CipherKeyRejected || r.error.DecodeFailure?;
    NormaliseOnlyAuth(CipherAuthFailed);
    NormaliseOnlyAuth(CipherKeyRejected);
    if r.Failure? && r.error.DecodeFailure? {
      NormaliseOnlyAuth(r.error);
    }
  }

  /**
   * `Open` reads neither `id`, `partyId`, `createdAt` nor `mk_version`: no
   * associated data is bound, so changing them never changes the outcome.
   */
  lemma OpenIgnoresMetadata<V>(cipher: Cipher, json: Codec<V>, record: SecureRecord, masterKeyHex: string,
                               id: string, partyId: string, createdAt: string, mkVersion: int)
    ensures Open(cipher, json, record.(id := id, partyId := partyId, createdAt := createdAt, mkVersion := mkVersion), masterKeyHex)
         == Open(cipher, json, record, masterKeyHex)
  {
  }

  /**
   * A payload tag other than the sealed one is refused: with an 11-byte or
   * other wrong-length tag by the tag-length check, with any other 16-byte tag
   * by the integrity error.
   */
  lemma TamperedPayloadTag<V>(cipher: Cipher, json: Codec<V>, partyId: string, payload: V,
                              masterKeyHex: string, draws: Draws, now: string, id: string, tag: string)
    requires Lawful(cipher)
    requires |Decode(masterKeyHex)| == KeyLength
    requires Decode(tag) != PayloadLayer(cipher, json, payload, draws).tag
    ensures Open(cipher, json, Stored(cipher, json, partyId, payload, masterKeyHex, draws, now, id).(payloadTag := tag), masterKeyHex)
         == if |Decode(tag)| == TagLength then Failure(IntegrityFailure) else Failure(InvalidPayloadTagLength)
  {
    SealedDecodes(cipher, json, partyId, payload, masterKeyHex, draws, now);
    var wrap := DekLayer(cipher, masterKeyHex, draws);
    assert cipher.Dec(Decode(masterKeyHex), draws.dekIv, wrap.ct, wrap.tag) == Some(draws.dek);
    AltTagRejected(cipher, draws.dek, draws.payloadIv, json.Stringify(payload), Decode(tag));
    NormaliseOnlyAuth(CipherAuthFailed);
    NormaliseOnlyAuth(InvalidPayloadTagLength);
  }

  /** A DEK tag other than the sealed one is refused in the same two ways. */
  lemma TamperedDekTag<V>(cipher: Cipher, json: Codec<V>, partyId: string, payload: V,
                          masterKeyHex: string, draws: Draws, now: string, id: string, tag: string)
    requires Lawful(cipher)
    requires |Decode(masterKeyHex)| == KeyLength
    requires Decode(tag) != DekLayer(cipher, masterKeyHex, draws).tag
    ensures Open(cipher, json, Stored(cipher, json, partyId, payload, masterKeyHex, draws, now, id).(dekWrapTag := tag), masterKeyHex)
         == if |Decode(tag)| == TagLength then Failure(IntegrityFailure) else Failure(InvalidDekTagLength)
  {
    SealedDecodes(cipher, json, partyId, payload, masterKeyHex, draws, now);
    AltTagRejected(cipher, Decode(masterKeyHex), draws.dekIv, draws.dek, Decode(tag));
    NormaliseOnlyAuth(CipherAuthFailed);
    NormaliseOnlyAuth(InvalidDekTagLength);
  }

  /**
   * A changed payload ciphertext is refused with the integrity error unless it
   * is itself the genuine encryption, under the same DEK and nonce, of a
   * different plaintext that happens to carry the same tag (a GCM forgery).
   */
  lemma TamperedPayloadCt<V>(cipher: Cipher, json: Codec<V>, partyId: string, payload: V,
                             masterKeyHex: string, draws: Draws, now: string, id: string, ct: string)
    requires Lawful(cipher)
    requires |Decode(masterKeyHex)| == KeyLength
    requires Decode(ct) != PayloadLayer(cipher, json, payload, draws).ct
    ensures var r := Open(cipher, json, Stored(cipher, json, partyId, payload, masterKeyHex, draws, now, id).(payloadCt := ct), masterKeyHex);
            r == Failure(IntegrityFailure)
            || exists p :: p != json.Stringify(payload)
                 && cipher.Enc(draws.dek, draws.payloadIv, p) == Ciphertext(Decode(ct), PayloadLayer(cipher, json, payload, draws).tag)
  {
    SealedDecodes(cipher, json, partyId, payload, masterKeyHex, draws, now);
    var wrap := DekLayer(cipher, masterKeyHex, draws);
    var body := PayloadLayer(cipher, json, payload, draws);
    assert cipher.Dec(Decode(masterKeyHex), draws.dekIv, wrap.ct, wrap.tag) == Some(draws.dek);
    NormaliseOnlyAuth(CipherAuthFailed);
    match cipher.Dec(draws.dek, draws.payloadIv, Decode(ct), body.tag)
    case None =>
    case Some(p) =>
      DecIffEnc(cipher, draws.dek, draws.payloadIv, Decode(ct), body.tag, p);
  }

  /**
   * A changed wrapped DEK is refused with the integrity error unless it is the
   * genuine encryption, under the master key and DEK nonce, of a different key
   * that happens to carry the same tag.
   */
  lemma TamperedDekWrapped<V>(cipher: Cipher, json: Codec<V>, partyId: string, payload: V,
                              masterKeyHex: string, draws: Draws, now: string, id: string, wrapped: string)
    requires Lawful(cipher)
    requires |Decode(masterKeyHex)| == KeyLength
    requires Decode(wrapped) != DekLayer(cipher, masterKeyHex, draws).ct
    ensures var r := Open(cipher, json, Stored(cipher, json, partyId, payload, masterKeyHex, draws, now, id).(dekWrapped := wrapped), masterKeyHex);
            r == Failure(IntegrityFailure)
            || exists d :: d != draws.dek
                 && cipher.Enc(Decode(masterKeyHex), draws.dekIv, d) == Ciphertext(Decode(wrapped), DekLayer(cipher, masterKeyHex, draws).tag)
  {
    SealedDecodes(cipher, json, partyId, payload, masterKeyHex, draws, now);
    var wrap := DekLayer(cipher, masterKeyHex, draws);
    NormaliseOnlyAuth(CipherAuthFailed);
    match cipher.Dec(Decode(masterKeyHex), draws.dekIv, Decode(wrapped), wrap.tag)
    case None =>
    case Some(d) =>
      DecIffEnc(cipher, Decode(masterKeyHex), draws.dekIv, Decode(wrapped), wrap.tag, d);
  }

  /**
   * Opening with a different valid master key gives the integrity error unless
   * the wrapped DEK and its tag are also a genuine encryption under that key.
   */
  lemma WrongMasterKey<V>(cipher: Cipher, json: Codec<V>, partyId: string, payload: V,
                          masterKeyHex: string, draws: Draws, now: string, id: string, otherKeyHex: string)
    requires Lawful(cipher)
    requires |Decode(masterKeyHex)| == KeyLength && |Decode(otherKeyHex)| == KeyLength
    ensures var r := Open(cipher, json, Stored(cipher, json, partyId, payload, masterKeyHex, draws, now, id), otherKeyHex);
            r == Failure(IntegrityFailure)
            || exists d :: cipher.Enc(Decode(otherKeyHex), draws.dekIv, d) == DekLayer(cipher, masterKeyHex, draws)
  {
    SealedDecodes(cipher, json, partyId, payload, masterKeyHex, draws, now);
    var wrap := DekLayer(cipher, masterKeyHex, draws);
    NormaliseOnlyAuth(CipherAuthFailed);
    match cipher.Dec(Decode(otherKeyHex), draws.dekIv, wrap.ct, wrap.tag)
    case None =>
    case Some(d) =>
      DecIffEnc(cipher, Decode(otherKeyHex), draws.dekIv, wrap.ct, wrap.tag, d);
  }

  /**
   * A payload nonce of the wrong length is reported as such, not as an
   * integrity error: an 11-byte nonce written as 22 zeros is the case at hand.
   */
  lemma WrongLengthPayloadNonce<V>(cipher: Cipher, json: Codec<V>, partyId: string, payload: V,
                                   masterKeyHex: string, draws: Draws, now: string, id: string, nonce: string)
    requires Lawful(cipher)
    requires |Decode(masterKeyHex)| == KeyLength
    requires |Decode(nonce)| != IvLength
    ensures Open(cipher, json, Stored(cipher, json, partyId, payload, masterKeyHex, draws, now, id).(payloadNonce := nonce), masterKeyHex)
         == Failure(InvalidPayloadNonceLength)
  {
    SealedDecodes(cipher, json, partyId, payload, masterKeyHex, draws, now);
    var wrap := DekLayer(cipher, masterKeyHex, draws);
    assert cipher.Dec(Decode(masterKeyHex), draws.dekIv, wrap.ct, wrap.tag) == Some(draws.dek);
    NormaliseOnlyAuth(InvalidPayloadNonceLength);
  }

  /** `"00".repeat(11)` decodes to 11 bytes, so it is such a nonce. */
  lemma ElevenByteNonce()
    ensures |Decode("0000000000000000000000")| == 11
  {
    var s := "0000000000000000000000";
    assert IsHex(s);
    DecodeLength(s);
  }
}
