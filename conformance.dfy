/**
 * The record `encryptPayload` builds, once the store gives it an `id`, is one
 * that `txSecureRecordSchema` accepts.
 */
module Conformance {
  import opened Wrappers
  import opened Hex
  import opened JsText
  import opened Aead
  import opened Json
  import opened Envelope
  import opened EnvelopeProperties
  import opened JsValues
  import opened TransactionSchema

  /** The JavaScript object of a record, with its wire field names. */
  function RecordObject(r: SecureRecord): (v: JsValue)
    ensures v.JsObject?
  {
    var m := map[
      "id" := JsString(r.id),
      "partyId" := JsString(r.partyId),
      "createdAt" := JsString(r.createdAt),
      "payload_nonce" := JsString(r.payloadNonce),
      "payload_ct" := JsString(r.payloadCt),
      "payload_tag" := JsString(r.payloadTag),
      "dek_wrap_nonce" := JsString(r.dekWrapNonce),
      "dek_wrapped" := JsString(r.dekWrapped),
      "dek_wrap_tag" := JsString(r.dekWrapTag),
      "alg" := JsString(r.alg),
      "mk_version" := JsNumber(r.mkVersion as real)];
    JsObject(m)
  }

  /**
   * On records, `txSecureRecordSchema` accepts exactly those with a UUID `id`,
   * 24-unit nonces, 32-unit tags, `alg = "AES-256-GCM"` and `mk_version = 1`;
   * `payload_ct` and `dek_wrapped` play no part.
   */
  lemma RecordSchemaOnRecords(r: SecureRecord, isUuid: string -> bool)
    ensures TxSecureRecordSchema(Some(RecordObject(r)), isUuid) <==>
              && isUuid(r.id)
              && JsLength(r.payloadNonce) == 24 && JsLength(r.dekWrapNonce) == 24
              && JsLength(r.payloadTag) == 32 && JsLength(r.dekWrapTag) == 32
              && r.alg == "AES-256-GCM" && r.mkVersion == 1
  {
  }

  /** Lower-case hex is ASCII, so its JavaScript length is its character count. */
  lemma HexLength(s: string)
    requires IsLowerHex(s)
    ensures JsLength(s) == |s|
  {
    JsLengthInBmp(s);
  }

  /**
   * Every sealed record, given a UUID `id`, satisfies `txSecureRecordSchema`.
   */
  lemma SealedRecordConforms<V>(cipher: Cipher, json: Codec<V>, partyId: string, payload: V,
                                masterKeyHex: string, draws: Draws, now: string, id: string,
                                isUuid: string -> bool)
    requires Lawful(cipher)
    requires |Decode(masterKeyHex)| == KeyLength
    requires isUuid(id)
    ensures TxSecureRecordSchema(Some(RecordObject(Stored(cipher, json, partyId, payload, masterKeyHex, draws, now, id))), isUuid)
  {
    var r := Stored(cipher, json, partyId, payload, masterKeyHex, draws, now, id);
    SealedShape(cipher, json, partyId, payload, masterKeyHex, draws, now);
    HexLength(r.payloadNonce);
    HexLength(r.dekWrapNonce);
    HexLength(r.payloadTag);
    HexLength(r.dekWrapTag);
    RecordSchemaOnRecords(r, isUuid);
  }
}
