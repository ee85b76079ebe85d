/**
 * The transaction schemas (packages/schema/src/transaction/index.ts) as
 * predicates over JavaScript values: each holds exactly when zod's `safeParse`
 * succeeds. Keys a schema does not name are allowed (zod strips them from its
 * output, which the predicates do not describe).
 */
module TransactionSchema {
  import opened Wrappers
  import opened JsValues

  /** `txSecureRecordSchema`. */
  predicate TxSecureRecordSchema(v: Option<JsValue>, isUuid: string -> bool) {
    && IsObject(v)
    && IsUuidString(Field(v, "id"), isUuid)
    && IsString(Field(v, "partyId"))
    && IsString(Field(v, "createdAt"))
    && IsStringOfLength(Field(v, "payload_nonce"), 24)
    && IsString(Field(v, "payload_ct"))
    && IsStringOfLength(Field(v, "payload_tag"), 32)
    && IsStringOfLength(Field(v, "dek_wrap_nonce"), 24)
    && IsString(Field(v, "dek_wrapped"))
    && IsStringOfLength(Field(v, "dek_wrap_tag"), 32)
    && Field(v, "alg") == Some(JsString("AES-256-GCM"))
    && Field(v, "mk_version") == Some(JsNumber(1.0))
  }

  /** `payloadSchema`. */
  predicate PayloadSchema(v: Option<JsValue>) {
    IsObject(v) && IsNumber(Field(v, "amount")) && IsString(Field(v, "currency"))
  }

  /** `createTxInputSchema`. */
  predicate CreateTxInputSchema(v: Option<JsValue>) {
    IsObject(v) && IsString(Field(v, "partyId")) && PayloadSchema(Field(v, "payload"))
  }

  /** `decryptTxInputSchema`. */
  predicate DecryptTxInputSchema(v: Option<JsValue>, isUuid: string -> bool) {
    IsObject(v) && IsUuidString(Field(v, "id"), isUuid)
  }

  /** `getTransactionByIdSchema`, declared as `decryptTxInputSchema` itself. */
  predicate GetTransactionByIdSchema(v: Option<JsValue>, isUuid: string -> bool) {
    DecryptTxInputSchema(v, isUuid)
  }

  /** The request both schemas describe: an object with a UUID `id` and nothing required besides. */
  lemma ByIdSchemasAgree(v: Option<JsValue>, isUuid: string -> bool)
    ensures GetTransactionByIdSchema(v, isUuid) == DecryptTxInputSchema(v, isUuid)
    ensures GetTransactionByIdSchema(v, isUuid) <==>
              v.Some? && v.value.JsObject? && "id" in v.value.fields
              && v.value.fields["id"].JsString? && isUuid(v.value.fields["id"].s)
  {
  }

  /**
   * `alg` and `mk_version` are literals: a record whose `alg` is any other
   * string, or whose `mk_version` is any other number, is refused.
   */
  lemma RecordLiterals(v: Option<JsValue>, isUuid: string -> bool, alg: string, version: real)
    requires IsObject(v)
    ensures alg != "AES-256-GCM" ==>
              !TxSecureRecordSchema(Some(JsObject(v.value.fields["alg" := JsString(alg)])), isUuid)
    ensures version != 1.0 ==>
              !TxSecureRecordSchema(Some(JsObject(v.value.fields["mk_version" := JsNumber(version)])), isUuid)
  {
  }

  /**
   * Only the nonces and tags have a length: replacing `payload_ct` or
   * `dek_wrapped` of an accepted record by any string keeps it accepted.
   */
  lemma CiphertextFieldsUnconstrained(v: Option<JsValue>, isUuid: string -> bool, ct: string, wrapped: string)
    requires TxSecureRecordSchema(v, isUuid)
    ensures TxSecureRecordSchema(Some(JsObject(v.value.fields["payload_ct" := JsString(ct)])), isUuid)
    ensures TxSecureRecordSchema(Some(JsObject(v.value.fields["dek_wrapped" := JsString(wrapped)])), isUuid)
  {
  }

  /**
   * `z.object` is not strict: a key the input schema does not name, at the top
   * level or inside `payload`, never makes an accepted input refused.
   */
  lemma CreateTxInputAllowsExtraKeys(v: Option<JsValue>, k: string, x: JsValue)
    requires CreateTxInputSchema(v)
    ensures k != "partyId" && k != "payload" ==>
              CreateTxInputSchema(Some(JsObject(v.value.fields[k := x])))
    ensures k != "amount" && k != "currency" ==>
              var payload := v.value.fields["payload"];
              CreateTxInputSchema(Some(JsObject(v.value.fields["payload" := JsObject(payload.fields[k := x])])))
  {
  }

  /**
   * The request of the encryption route is accepted, and it stops being
   * accepted once `amount` is a string, `currency` is missing or `payload` is
   * missing.
   */
  lemma CreateTxInputExamples()
    ensures var payload := JsObject(map["amount" := JsNumber(100.0), "currency" := JsString("USD")]);
            CreateTxInputSchema(Some(JsObject(map["partyId" := JsString("party_123"), "payload" := payload])))
    ensures var payload := JsObject(map["amount" := JsString("100"), "currency" := JsString("USD")]);
            !CreateTxInputSchema(Some(JsObject(map["partyId" := JsString("party_123"), "payload" := payload])))
    ensures var payload := JsObject(map["amount" := JsNumber(100.0)]);
            !CreateTxInputSchema(Some(JsObject(map["partyId" := JsString("party_123"), "payload" := payload])))
    ensures !CreateTxInputSchema(Some(JsObject(map["partyId" := JsString("party_123")])))
  {
    var good := JsObject(map["amount" := JsNumber(100.0), "currency" := JsString("USD")]);
    assert PayloadSchema(Some(good));
  }
}
