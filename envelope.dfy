/**
 * Envelope encryption of a transaction payload (packages/crypto/src/index.ts).
 * `Seal` is `encryptPayload`, `Open` is `decryptPayload`. Each thrown `Error` is
 * a `Failure`; the random bytes that `crypto.randomBytes` would draw and the
 * `new Date().toISOString()` timestamp are parameters, so both operations are
 * functions of their inputs.
 */
module Envelope {
  import opened Wrappers
  import opened Hex
  import opened JsText
  import opened Aead
  import opened Json

  /** `KEY_LENGTH`: AES-256 keys are 32 bytes. */
  const KeyLength: nat := 32
  /** `IV_LENGTH`: GCM nonces are 12 bytes. */
  const IvLength: nat := 12
  /** `TAG_LENGTH`: GCM tags are 16 bytes. */
  const TagLength: nat := 16
  /** The only value of `alg` a record may carry. */
  const AlgName := "AES-256-GCM"
  /** The master-key version every record is written with. */
  const MasterKeyVersion := 1

  /** The record without its `id` (`Omit<TxSecureRecord, "id">`); binary fields are hex. */
  datatype Sealed = Sealed(
    partyId: string,
    createdAt: string,
    payloadNonce: string,
    payloadCt: string,
    payloadTag: string,
    dekWrapNonce: string,
    dekWrapped: string,
    dekWrapTag: string,
    alg: string,
    mkVersion: int)

  /** `TxSecureRecord`, the stored record, as `decryptPayload` receives it. */
  datatype SecureRecord = SecureRecord(
    id: string,
    partyId: string,
    createdAt: string,
    payloadNonce: string,
    payloadCt: string,
    payloadTag: string,
    dekWrapNonce: string,
    dekWrapped: string,
    dekWrapTag: string,
    alg: string,
    mkVersion: int)

  /** `{id, ...sealed}`. */
  function WithId(id: string, s: Sealed): (r: SecureRecord) {
    SecureRecord(id, s.partyId, s.createdAt, s.payloadNonce, s.payloadCt, s.payloadTag,
                 s.dekWrapNonce, s.dekWrapped, s.dekWrapTag, s.alg, s.mkVersion)
  }

  type Key = b: Bytes | |b| == KeyLength witness seq(KeyLength, _ => 0)
  type Iv = b: Bytes | |b| == IvLength witness seq(IvLength, _ => 0)

  /** What one call of `encryptPayload` draws from `crypto.randomBytes`, in order. */
  datatype Draws = Draws(dek: Key, payloadIv: Iv, dekIv: Iv)

  /** The errors `encryptPayload` and `decryptPayload` can throw. */
  datatype Failure =
    | InvalidKeyLength
    | UnsupportedAlgorithm(alg: string)
    | InvalidDekNonceLength
    | InvalidDekTagLength
    | InvalidPayloadNonceLength
    | InvalidPayloadTagLength
      /** `createDecipheriv` refusing a recovered DEK that is not 32 bytes. */
    | CipherKeyRejected
      /** `final()` of a decipher whose tag does not verify. */
    | CipherAuthFailed
      /** What the catch block turns an authentication error into. */
    | IntegrityFailure
      /** The `SyntaxError` of `JSON.parse`, with its message. */
    | DecodeFailure(reason: string)

  /** The `message` of each error; the `alg` error names the value it refused. */
  function Message(e: Failure): (m: string)
    ensures e.UnsupportedAlgorithm? ==> Includes(m, e.alg)
  {
    match e
    case InvalidKeyLength => "Master Key must be 32 bytes"
    case UnsupportedAlgorithm(alg) =>
      var m := "Unsupported algorithm: " + alg;
      assert OccursAt(m, alg, 23);
      m
    case InvalidDekNonceLength => "Invalid DEK nonce length"
    case InvalidDekTagLength => "Invalid DEK tag length"
    case InvalidPayloadNonceLength => "Invalid payload nonce length"
    case InvalidPayloadTagLength => "Invalid payload tag length"
    case CipherKeyRejected => "Invalid key length"
    case CipherAuthFailed => "Unsupported state or unable to authenticate data"
    case IntegrityFailure => "Decryption failed: Integrity check failed"
    case DecodeFailure(reason) => reason
  }

  /**
   * The catch block of `decryptPayload`: only messages naming an authentication
   * problem are rewritten. It rethrows the error or throws the integrity error,
   * and never lets the cipher's own authentication error out.
   */
  function Normalise(e: Failure): (r: Failure)
    ensures r == e || r == IntegrityFailure
    ensures r != CipherAuthFailed
  {
    var m := Message(e);
    PrefixIncluded(Message(CipherAuthFailed), "Unsupported state");
    if Includes(m, "Unsupported state") || Includes(m, "auth tag") then IntegrityFailure else e
  }

  /**
   * `encryptPayload(partyId, payload, masterKeyHex)`: check the master key,
   * encrypt the serialised payload under a fresh DEK, wrap the DEK under the
   * master key, and return the hex record.
   */
  function Seal<V>(cipher: Cipher, json: Codec<V>, partyId: string, payload: V,
                   masterKeyHex: string, draws: Draws, now: string): (r: Result<Sealed, Failure>)
    ensures r.Failure? <==> |Decode(masterKeyHex)| != KeyLength
    ensures r.Failure? ==> r.error == InvalidKeyLength
    ensures r.Success? ==> r.value.partyId == partyId && r.value.createdAt == now
  {
    var masterKey := Decode(masterKeyHex);
    if |masterKey| != KeyLength then Failure(InvalidKeyLength)
    else
      var body := cipher.Enc(draws.dek, draws.payloadIv, json.Stringify(payload));
      var wrap := cipher.Enc(masterKey, draws.dekIv, draws.dek);
      Success(Sealed(
        partyId, now,
        Encode(draws.payloadIv), Encode(body.ct), Encode(body.tag),
        Encode(draws.dekIv), Encode(wrap.ct), Encode(wrap.tag),
        AlgName, MasterKeyVersion))
  }

  /** The payload layer of the `try` block, once the DEK is recovered. */
  function OpenPayload<V>(cipher: Cipher, json: Codec<V>, record: SecureRecord, dek: Bytes): (r: Result<V, Failure>)
    ensures r.Failure? ==> r.error in {InvalidPayloadNonceLength, InvalidPayloadTagLength,
                                       CipherKeyRejected, CipherAuthFailed} || r.error.DecodeFailure?
  {
    var payloadIv := Decode(record.payloadNonce);
    var payloadCt := Decode(record.payloadCt);
    var payloadTag := Decode(record.payloadTag);
    if |payloadIv| != IvLength then Failure(InvalidPayloadNonceLength)
    else if |payloadTag| != TagLength then Failure(InvalidPayloadTagLength)
    else if |dek| != KeyLength then Failure(CipherKeyRejected)
    else match cipher.Dec(dek, payloadIv, payloadCt, payloadTag)
      case None => Failure(CipherAuthFailed)
      case Some(plaintext) =>
        match json.Parse(plaintext)
        case Success(v) => Success(v)
        case Failure(reason) => Failure(DecodeFailure(reason))
  }

  /** The `try` block of `decryptPayload`, before its errors are normalised. */
  function Unwrap<V>(cipher: Cipher, json: Codec<V>, record: SecureRecord, masterKey: Bytes): (r: Result<V, Failure>)
    ensures r.Failure? ==> !r.error.InvalidKeyLength? && !r.error.UnsupportedAlgorithm? && !r.error.IntegrityFailure?
  {
    var dekIv := Decode(record.dekWrapNonce);
    var dekWrapped := Decode(record.dekWrapped);
    var dekTag := Decode(record.dekWrapTag);
    if |dekIv| != IvLength then Failure(InvalidDekNonceLength)
    else if |dekTag| != TagLength then Failure(InvalidDekTagLength)
    else match cipher.Dec(masterKey, dekIv, dekWrapped, dekTag)
      case None => Failure(CipherAuthFailed)
      case Some(dek) => OpenPayload(cipher, json, record, dek)
  }

  /**
   * `decryptPayload(record, masterKeyHex)`: check the key and `alg` outside the
   * `try`, run the two layers inside it, and normalise what the catch block sees.
   */
  function Open<V>(cipher: Cipher, json: Codec<V>, record: SecureRecord, masterKeyHex: string): (r: Result<V, Failure>)
    ensures r.Failure? ==> r.error != CipherAuthFailed
  {
    var masterKey := Decode(masterKeyHex);
    if |masterKey| != KeyLength then Failure(InvalidKeyLength)
    else if record.alg != AlgName then Failure(UnsupportedAlgorithm(record.alg))
    else match Unwrap(cipher, json, record, masterKey)
      case Success(v) => Success(v)
      case Failure(e) => Failure(Normalise(e))
  }

  /** Rewriting is idempotent: a normalised error passes through the catch block unchanged. */
  lemma NormaliseIdempotent(e: Failure)
    ensures Normalise(Normalise(e)) == Normalise(e)
  {
  }

  /**
   * Each fixed message belongs to one error, and the `alg` error's message
   * determines the refused value: the message tells the caller which check failed.
   */
  lemma MessagesIdentifyErrors(e1: Failure, e2: Failure)
    requires !e1.DecodeFailure? && !e2.DecodeFailure?
    ensures Message(e1) == Message(e2) <==> e1 == e2
  {
    if e1.UnsupportedAlgorithm? && e2.UnsupportedAlgorithm? {
      if Message(e1) == Message(e2) {
        assert e1.alg == Message(e1)[23..] == e2.alg;
      }
    } else if e1.UnsupportedAlgorithm? {
      // Only the `alg` message starts "U" and has "a" at index 12.
      assert Message(e1)[0] == 'U' && Message(e1)[12] == 'a';
    } else if e2.UnsupportedAlgorithm? {
      assert Message(e2)[0] == 'U' && Message(e2)[12] == 'a';
    }
  }

  /** The cipher's authentication error names "Unsupported state", so it is rewritten. */
  lemma AuthErrorNormalised()
    ensures Normalise(CipherAuthFailed) == IntegrityFailure
  {
    PrefixIncluded(Message(CipherAuthFailed), "Unsupported state");
  }

  /** A message with neither an upper-case nor a lower-case `u` names neither phrase. */
  lemma NoUNamesNeither(m: string)
    requires 'U' !in m && 'u' !in m
    ensures !Includes(m, "Unsupported state") && !Includes(m, "auth tag")
  {
    var u, v := "Unsupported state", "auth tag";
    assert u[0] == 'U' && v[1] == 'u';
    MissingCharExcludes(m, u, 'U');
    MissingCharExcludes(m, v, 'u');
  }

  /** "Invalid DEK nonce length" is rethrown unchanged. */
  lemma DekNonceErrorPassesThrough()
    ensures Normalise(InvalidDekNonceLength) == InvalidDekNonceLength
  {
    NoUNamesNeither(Message(InvalidDekNonceLength));
  }

  /** "Invalid DEK tag length" is rethrown unchanged. */
  lemma DekTagErrorPassesThrough()
    ensures Normalise(InvalidDekTagLength) == InvalidDekTagLength
  {
    NoUNamesNeither(Message(InvalidDekTagLength));
  }

  /** "Invalid payload nonce length" is rethrown unchanged. */
  lemma PayloadNonceErrorPassesThrough()
    ensures Normalise(InvalidPayloadNonceLength) == InvalidPayloadNonceLength
  {
    NoUNamesNeither(Message(InvalidPayloadNonceLength));
  }

  /** "Invalid payload tag length" is rethrown unchanged. */
  lemma PayloadTagErrorPassesThrough()
    ensures Normalise(InvalidPayloadTagLength) == InvalidPayloadTagLength
  {
    NoUNamesNeither(Message(InvalidPayloadTagLength));
  }

  /** "Invalid key length" for a recovered DEK is rethrown unchanged. */
  lemma CipherKeyErrorPassesThrough()
    ensures Normalise(CipherKeyRejected) == CipherKeyRejected
  {
    NoUNamesNeither(Message(CipherKeyRejected));
  }

  /**
   * Only the cipher's authentication error becomes the integrity error; every
   * length error and the DEK key-length error pass through unchanged, and a JSON
   * error passes through unless its own message happens to name one of the two
   * phrases the catch block looks for.
   */
  lemma NormaliseOnlyAuth(e: Failure)
    ensures Normalise(CipherAuthFailed) == IntegrityFailure
    ensures (e in {InvalidDekNonceLength, InvalidDekTagLength, InvalidPayloadNonceLength,
                   InvalidPayloadTagLength, CipherKeyRejected}) ==> Normalise(e) == e
    ensures e.DecodeFailure? ==>
              (Normalise(e) == e <==> !Includes(e.reason, "Unsupported state") && !Includes(e.reason, "auth tag"))
    ensures Normalise(e) == IntegrityFailure || Normalise(e) == e
  {
    AuthErrorNormalised();
    DekNonceErrorPassesThrough();
    DekTagErrorPassesThrough();
    PayloadNonceErrorPassesThrough();
    PayloadTagErrorPassesThrough();
    CipherKeyErrorPassesThrough();
  }
}
