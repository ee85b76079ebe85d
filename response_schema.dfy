/**
 * The response schemas (packages/schema/src/response/index.ts) as predicates
 * over JavaScript values. `ClientResponseSchema` is generic in the schema of
 * `data`, which is a parameter here: a predicate on the value at `data`, where
 * `None` stands for `undefined`.
 */
module ResponseSchema {
  import opened Wrappers
  import opened JsValues

  /** `ResponseErrorSchema`. */
  predicate ResponseErrorSchema(v: Option<JsValue>) {
    && IsObject(v)
    && IsString(Field(v, "message"))
    && IsString(Field(v, "error"))
    && IsNumber(Field(v, "statusCode"))
  }

  /** `schema.nullable()`. */
  predicate Nullable(schema: Option<JsValue> -> bool, v: Option<JsValue>) {
    IsStrictNull(v) || schema(v)
  }

  /** The refinement: `success ? data !== null && error == null : data == null && error !== null`. */
  predicate Refinement(success: bool, data: Option<JsValue>, error: Option<JsValue>) {
    if success then !IsStrictNull(data) && IsLooseNull(error)
    else IsLooseNull(data) && !IsStrictNull(error)
  }

  /** `ClientResponseSchema(dataSchema)`: the object shape, then the refinement. */
  predicate ClientResponseSchema(dataSchema: Option<JsValue> -> bool, v: Option<JsValue>) {
    && IsObject(v)
    && IsBoolean(Field(v, "success"))
    && Nullable(ResponseErrorSchema, Field(v, "error"))
    && Nullable(dataSchema, Field(v, "data"))
    && Refinement(Field(v, "success").value.b, Field(v, "data"), Field(v, "error"))
  }

  /** Present in the sense of `!= null`: neither `null` nor `undefined`. */
  predicate Present(v: Option<JsValue>) {
    !IsLooseNull(v)
  }

  /**
   * An accepted response with `success = true` has its `data` and `error = null`;
   * one with `success = false` has `data` absent and an `error` that is a
   * `ResponseError`.
   */
  lemma AcceptedResponseBranches(dataSchema: Option<JsValue> -> bool, v: Option<JsValue>)
    requires ClientResponseSchema(dataSchema, v)
    ensures Field(v, "success") == Some(JsBool(true)) ==>
              Field(v, "data") != Some(JsNull) && Field(v, "error") == Some(JsNull)
              && dataSchema(Field(v, "data"))
    ensures Field(v, "success") == Some(JsBool(false)) ==>
              IsLooseNull(Field(v, "data")) && ResponseErrorSchema(Field(v, "error"))
  {
  }

  /**
   * When the data schema refuses `undefined` (every `z.object` schema does),
   * an accepted response carries exactly one of `data` and `error`, and
   * `success` says which.
   */
  lemma ExactlyOneOfDataAndError(dataSchema: Option<JsValue> -> bool, v: Option<JsValue>)
    requires !dataSchema(None)
    requires ClientResponseSchema(dataSchema, v)
    ensures Present(Field(v, "data")) <==> Field(v, "success") == Some(JsBool(true))
    ensures Present(Field(v, "error")) <==> Field(v, "success") == Some(JsBool(false))
    ensures Present(Field(v, "data")) != Present(Field(v, "error"))
  {
  }

  /**
   * The data side compares strictly (`!== null`) when `success` is true, so a
   * data schema that accepts `undefined` lets a successful response carry
   * neither `data` nor `error`.
   */
  lemma UndefinedDataPassesStrictCheck()
    ensures var v := Some(JsObject(map["success" := JsBool(true), "error" := JsNull]));
            ClientResponseSchema(_ => true, v) && !Present(Field(v, "data")) && !Present(Field(v, "error"))
  {
  }

  /**
   * A well-formed error response is accepted; a `statusCode` given as a
   * string, an `error` given as a number, a missing `message`, `undefined` and
   * `null` are refused.
   */
  lemma ResponseErrorExamples()
    ensures ResponseErrorSchema(Some(JsObject(map["message" := JsString("Decryption failed"),
                                                  "error" := JsString("Bad Request"),
                                                  "statusCode" := JsNumber(400.0)])))
    ensures !ResponseErrorSchema(Some(JsObject(map["message" := JsString("Decryption failed"),
                                                   "error" := JsString("Bad Request"),
                                                   "statusCode" := JsString("400")])))
    ensures !ResponseErrorSchema(Some(JsObject(map["message" := JsString("Decryption failed"),
                                                   "error" := JsNumber(1.0),
                                                   "statusCode" := JsNumber(400.0)])))
    ensures !ResponseErrorSchema(Some(JsObject(map["error" := JsString("Bad Request"),
                                                   "statusCode" := JsNumber(400.0)])))
    ensures !ResponseErrorSchema(None) && !ResponseErrorSchema(Some(JsNull))
  {
  }

  /**
   * All three keys are required: removing any of them from an object, or
   * replacing its value by `null`, makes it fail the error schema.
   */
  lemma ResponseErrorKeysRequired(fields: map<string, JsValue>, k: string)
    requires k == "message" || k == "error" || k == "statusCode"
    ensures !ResponseErrorSchema(Some(JsObject(fields - {k})))
    ensures !ResponseErrorSchema(Some(JsObject(fields[k := JsNull])))
  {
  }
}
