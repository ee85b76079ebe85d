# Envelope encryption of transaction payloads — a Dafny model

The system stores each transaction payload as a *secure record*. The payload,
serialised as JSON, is encrypted with AES-256-GCM under a fresh 32-byte data key
(the DEK). The DEK is then encrypted ("wrapped") under a long-lived 32-byte master
key. Every binary field of the record is lower-case hex. `encryptPayload` builds
such a record. `decryptPayload` checks a record field by field, unwraps the DEK,
decrypts the payload and parses it. Zod schemas describe the record, the API
inputs and the client responses.

The model is functional, like the source:

- `Hex` (hex.dfy): bytes, plus Node's hex codec, including how `Buffer.from(s, "hex")` truncates malformed text.
- `Aead` (aead.dfy): AES-256-GCM as an abstract cipher, a pair `Enc`/`Dec` with the laws the envelope needs (`Lawful`); `Witness` shows the laws can be met.
- `Json` (json.dfy): JSON text as an abstract codec whose parse undoes its serialisation (`RoundTrips`).
- `JsText` (js_text.dfy): `String.prototype.includes`, and `length` counted in UTF-16 code units.
- `Envelope` (envelope.dfy): the constants, the record, the thrown errors with their messages, `Seal` (`encryptPayload`), `Open` (`decryptPayload`), and the catch block as `Normalise`.
- `EnvelopeProperties` (envelope_properties.dfy): the round trip, record shape, check order, error normalisation, tampering and independence results.
- `JsValues`, `TransactionSchema`, `ResponseSchema` (js_values.dfy, transaction_schema.dfy, response_schema.dfy): the zod schemas, as predicates over JavaScript values.
- `Conformance` (conformance.dfy): every sealed record, given a UUID `id`, satisfies `txSecureRecordSchema`.

Randomness and time are parameters. `Draws` holds the DEK and the two IVs that
`crypto.randomBytes` would return (32, 12 and 12 bytes). `now` stands for the
`new Date().toISOString()` timestamp. That makes `Seal` a function. The key check
comes before any draw, and `SealRejectsBadKey` shows that on a bad key the
outcome does not depend on the draws.

The system's design description and its source differ in four places. In each case the model follows
the source:

- In the design description, length errors at the payload layer become the integrity error. In `decryptPayload` they do not: the catch block only rewrites messages containing "Unsupported state" or "auth tag", so every length error is rethrown with its own message (`NormaliseOnlyAuth`).
- The design description has one nonce-length and one tag-length error. The source throws four distinct ones, for the DEK and payload nonces and tags.
- The design description says `open` succeeds exactly when the key matches and no field was altered. The source binds no associated data. `id`, `partyId`, `createdAt` and `mk_version` can change freely (`OpenIgnoresMetadata`). Hex text that decodes to the same bytes, such as upper-case digits, is accepted as well.
- The design description calls `partyId` non-empty. Nothing checks it.

A recovered DEK that is not 32 bytes makes `createDecipheriv` throw Node's
"Invalid key length" error. The catch block rethrows it unchanged; it is
`CipherKeyRejected`. A `JSON.parse` failure keeps its `SyntaxError` message
(`DecodeFailure`), which the model leaves abstract. A parse error is rewritten
exactly when its message, which may quote part of the input, contains one of
the two phrases. `NormaliseOnlyAuth` states exactly this.

## Model

| member | source | states |
|---|---|---|
| `Hex.Encode` | packages/crypto/src/index.ts:42-47 | `toString("hex")` writes two lower-case hex digits per byte, so the text is twice the byte length |
| `Hex.Decode` | packages/crypto/src/index.ts:16 | `Buffer.from(s, "hex")` yields at most half as many bytes as there are characters (it stops at the first malformed pair) |
| `Hex.DecodeEncode` | packages/crypto/src/index.ts:68-70 | decoding a field that was written by `toString("hex")` gives back exactly its bytes |
| `Hex.EncodeInjective` | packages/crypto/src/index.ts:42-47 | different byte strings are stored as different hex text |
| `Hex.DecodeLength` | packages/crypto/src/index.ts:16-17 | well-formed even-length hex decodes to half its length in bytes |
| `Hex.DecodeStopsAtMalformedPair` | packages/crypto/src/index.ts:16 | decoding ignores everything from the first pair that is not two hex digits |
| `Aead.DecIffEnc` | packages/crypto/src/index.ts:75-81 | the decipher returns `p` for `(ct, tag)` exactly when `(ct, tag)` is the encryption of `p` under that key and IV |
| `Aead.AltTagRejected` | packages/crypto/src/index.ts:76-81 | a tag other than the one GCM produced for that key, IV and ciphertext always fails authentication |
| `JsText.JsLength` | packages/schema/src/transaction/index.ts:7 | `length` counts characters outside the Basic Multilingual Plane twice, so it lies between the character count and twice it |
| `JsText.Includes` | packages/crypto/src/index.ts:103-104 | `s.includes(t)` holds when `t` occurs in `s` at some index, so only when `t` is no longer than `s` |
| `JsText.MissingCharExcludes` | packages/crypto/src/index.ts:102-105 | `includes(t)` is false when some character of `t` is absent from the message |
| `Envelope.Message` | packages/crypto/src/index.ts:59-106 | the `message` of each thrown error, word for word; the `alg` error's message includes the refused `alg` |
| `Envelope.MessagesIdentifyErrors` | packages/crypto/src/index.ts:59-106 | two errors other than a JSON error have the same message exactly when they are the same error, so the message says which check failed |
| `Envelope.Normalise` | packages/crypto/src/index.ts:101-109 | the catch block rethrows the caught error or throws the integrity error, and never lets the cipher's authentication error out |
| `Envelope.NormaliseIdempotent` | packages/crypto/src/index.ts:101-109 | an error that has been through the catch block passes through it again unchanged |
| `Envelope.Seal` | packages/crypto/src/index.ts:11-51 | fails exactly when the master key does not decode to 32 bytes, and then with the key-length error; on success keeps `partyId` and the timestamp |
| `Envelope.Unwrap` | packages/crypto/src/index.ts:67-100 | the `try` block never throws the key-length, `alg` or integrity errors; those arise outside it or in the catch |
| `Envelope.OpenPayload` | packages/crypto/src/index.ts:83-100 | the payload layer fails only with a payload nonce or tag length error, the DEK key-length error, an authentication failure or a JSON error |
| `Envelope.Open` | packages/crypto/src/index.ts:54-110 | `decryptPayload` never surfaces the cipher's raw authentication error |
| `Envelope.AuthErrorNormalised` | packages/crypto/src/index.ts:101-107 | the cipher's "Unsupported state or unable to authenticate data" becomes "Decryption failed: Integrity check failed" |
| `Envelope.NoUNamesNeither` | packages/crypto/src/index.ts:102-105 | a message without `U` or `u` names neither "Unsupported state" nor "auth tag" |
| `Envelope.DekNonceErrorPassesThrough` | packages/crypto/src/index.ts:72 | the DEK nonce length error is rethrown unchanged |
| `Envelope.DekTagErrorPassesThrough` | packages/crypto/src/index.ts:73 | the DEK tag length error is rethrown unchanged, though its message contains "tag" |
| `Envelope.PayloadNonceErrorPassesThrough` | packages/crypto/src/index.ts:87-88 | the payload nonce length error is rethrown unchanged |
| `Envelope.PayloadTagErrorPassesThrough` | packages/crypto/src/index.ts:89-90 | the payload tag length error is rethrown unchanged |
| `Envelope.CipherKeyErrorPassesThrough` | packages/crypto/src/index.ts:92 | `createDecipheriv`'s "Invalid key length" for a recovered DEK is rethrown unchanged |
| `Envelope.NormaliseOnlyAuth` | packages/crypto/src/index.ts:101-109 | only the authentication error turns into the integrity error; length and key-length errors pass through; a JSON error passes through exactly when its message names neither phrase; nothing else is produced |
| `EnvelopeProperties.SealRejectsBadKey` | packages/crypto/src/index.ts:16-21 | a key that does not decode to 32 bytes fails with the key-length error, whatever the random draws and clock would have given |
| `EnvelopeProperties.SealRejectsShortKey` | packages/crypto/src/index.test.ts:67-71 | the key "1234" is refused with the key-length error |
| `EnvelopeProperties.SealedShape` | packages/crypto/src/index.ts:39-50 | a sealed record keeps `partyId` and the timestamp, has `alg = "AES-256-GCM"` and `mk_version = 1`, all-lower-case hex, 24-character nonces, 32-character tags, a 64-character wrapped DEK and a payload ciphertext twice the serialised payload's byte length; its nonces are the drawn IVs |
| `EnvelopeProperties.SealedDecodes` | packages/crypto/src/index.ts:42-47 | each hex field of a sealed record decodes to the IV, ciphertext or tag that sealing computed |
| `EnvelopeProperties.SealNoncesFollowDraws` | packages/crypto/src/index.ts:24-33 | two seals have equal payload (DEK) nonces exactly when their drawn payload (DEK) IVs are equal |
| `EnvelopeProperties.RoundTrip` | packages/crypto/src/index.ts:11-100 | with a valid key, opening `{id, ...seal(partyId, payload, key)}` with the same key returns `payload` |
| `EnvelopeProperties.FirstFailingCheckDecides` | packages/crypto/src/index.ts:58-92 | checks run in the order key, `alg`, DEK nonce, DEK tag, DEK decipher, payload nonce, payload tag, DEK key length; the first failing one fixes the error, whatever the fields read later hold |
| `EnvelopeProperties.AuthFailureIsIntegrityFailure` | packages/crypto/src/index.ts:101-107 | an authentication failure at either layer surfaces as the integrity error |
| `EnvelopeProperties.CiphertextLengthsUnchecked` | packages/crypto/src/index.ts:68-90 | once key, `alg`, nonces and tags pass, no nonce or tag length error arises whatever `dek_wrapped` and `payload_ct` hold; the only length-dependent outcome left is the DEK key-length error (`CipherKeyRejected`) for an authenticated `dek_wrapped` that is not 32 bytes |
| `EnvelopeProperties.OpenIgnoresMetadata` | packages/crypto/src/index.ts:63-100 | changing `id`, `partyId`, `createdAt` or `mk_version` never changes the result of opening |
| `EnvelopeProperties.TamperedPayloadTag` | packages/crypto/src/index.test.ts:39-53 | any other `payload_tag` is refused: a 16-byte one with the integrity error, any other length with the payload tag length error |
| `EnvelopeProperties.TamperedDekTag` | packages/crypto/src/index.ts:73-81 | any other `dek_wrap_tag` is refused: a 16-byte one with the integrity error, any other length with the DEK tag length error |
| `EnvelopeProperties.TamperedPayloadCt` | packages/crypto/src/index.test.ts:23-37 | a changed `payload_ct` gives the integrity error unless it is a genuine encryption of a different plaintext under the same DEK and nonce with the same tag |
| `EnvelopeProperties.TamperedDekWrapped` | packages/crypto/src/index.test.ts:73-87 | a changed `dek_wrapped` gives the integrity error unless it is a genuine encryption of a different key under the master key and DEK nonce with the same tag |
| `EnvelopeProperties.WrongMasterKey` | packages/crypto/src/index.ts:75-81 | another valid master key gives the integrity error unless the wrapped DEK and tag are also a genuine encryption under that key |
| `EnvelopeProperties.WrongLengthPayloadNonce` | packages/crypto/src/index.test.ts:55-65 | a payload nonce that does not decode to 12 bytes gives the payload nonce length error, not the integrity error |
| `EnvelopeProperties.ElevenByteNonce` | packages/crypto/src/index.test.ts:60 | `"00".repeat(11)` decodes to 11 bytes |
| `TransactionSchema.TxSecureRecordSchema` | packages/schema/src/transaction/index.ts:3-15 | an object whose `id` is a UUID string, `partyId`, `createdAt`, `payload_ct` and `dek_wrapped` are strings, the nonces are strings of length 24 and the tags of length 32, `alg` is "AES-256-GCM" and `mk_version` is 1 |
| `TransactionSchema.PayloadSchema` | packages/schema/src/transaction/index.ts:17-19 | an object with a numeric `amount` and a string `currency` |
| `TransactionSchema.CreateTxInputSchema` | packages/schema/src/transaction/index.ts:21-24 | an object with a string `partyId` and a `payload` accepted by `payloadSchema` |
| `TransactionSchema.CreateTxInputAllowsExtraKeys` | packages/schema/src/transaction/index.ts:17-24 | adding a key that neither object schema names, at the top level or inside `payload`, keeps an accepted input accepted |
| `TransactionSchema.DecryptTxInputSchema` | packages/schema/src/transaction/index.ts:26-28 | an object whose `id` is a UUID string |
| `TransactionSchema.GetTransactionByIdSchema` | packages/schema/src/transaction/index.ts:30 | the very same schema as `decryptTxInputSchema` |
| `TransactionSchema.ByIdSchemasAgree` | packages/schema/src/transaction/index.ts:26-30 | `getTransactionByIdSchema` is `decryptTxInputSchema`: an object whose `id` is a UUID string |
| `TransactionSchema.RecordLiterals` | packages/schema/src/transaction/index.ts:13-14 | any `alg` other than "AES-256-GCM" and any `mk_version` other than 1 is refused |
| `TransactionSchema.CiphertextFieldsUnconstrained` | packages/schema/src/transaction/index.ts:8-11 | `payload_ct` and `dek_wrapped` may be any string in an accepted record |
| `TransactionSchema.CreateTxInputExamples` | packages/schema/src/transaction/index.ts:17-24 | the test's `{partyId, payload: {amount: 100, currency: "USD"}}` is accepted; a string `amount`, a missing `currency` or a missing `payload` is refused |
| `ResponseSchema.ResponseErrorSchema` | packages/schema/src/response/index.ts:3-7 | an object with a string `message`, a string `error` and a numeric `statusCode` |
| `ResponseSchema.Refinement` | packages/schema/src/response/index.ts:16-19 | with `success`, `data !== null` and `error == null`; without it, `data == null` and `error !== null` (strict and loose comparisons with `null` kept apart) |
| `ResponseSchema.ClientResponseSchema` | packages/schema/src/response/index.ts:9-20 | an object with a boolean `success`, a nullable `ResponseError` at `error`, a nullable value of the data schema at `data`, and the refinement on the three |
| `ResponseSchema.AcceptedResponseBranches` | packages/schema/src/response/index.ts:16-19 | `success = true` requires non-null data of the data schema and a null `error`; `success = false` requires null or absent data and a valid `ResponseError` |
| `ResponseSchema.ExactlyOneOfDataAndError` | packages/schema/src/response/index.ts:9-20 | when the data schema refuses `undefined`, an accepted response has exactly one of `data` and `error`, and `success` says which |
| `ResponseSchema.UndefinedDataPassesStrictCheck` | packages/schema/src/response/index.ts:17-18 | with a data schema that accepts `undefined`, `{success: true, error: null}` is accepted and carries neither |
| `ResponseSchema.ResponseErrorExamples` | packages/schema/src/response/index.ts:3-7 | a well-formed error object is accepted; a string `statusCode`, a numeric `error`, a missing `message`, `undefined` and `null` are refused |
| `ResponseSchema.ResponseErrorKeysRequired` | packages/schema/src/response/index.ts:3-7 | `message`, `error` and `statusCode` are all required: removing any one of them, or setting it to `null`, makes any object fail the schema |
| `Conformance.RecordSchemaOnRecords` | packages/schema/src/transaction/index.ts:3-15 | on a record, the schema holds exactly when `id` is a UUID, the nonces have length 24, the tags length 32, `alg = "AES-256-GCM"` and `mk_version = 1` |
| `Conformance.SealedRecordConforms` | packages/schema/src/transaction/index.ts:3-15 | every sealed record, given a UUID `id`, satisfies `txSecureRecordSchema` |

## Left out

- AES-256-GCM internals are not modelled: GHASH, the counter keystream and Node's cipher objects. `Aead.Cipher` is abstract, with laws for length, correctness, authenticity, and "the ciphertext determines the plaintext" (true of GCM's counter mode in NIST SP 800-38D). No cryptographic security is claimed.
- `crypto.randomBytes`, and with it any claim that nonces are unique across calls, is not modelled. The draws are parameters. `SealNoncesFollowDraws` only ties the stored nonces to the draws.
- `new Date().toISOString()` is an opaque timestamp parameter.
- The JSON text grammar and UTF-8 are not modelled. The codec is abstract, and its round-trip law is a hypothesis. It holds for JSON-normal values only. It is false for, e.g., `NaN`, `Infinity` (both written as `null`), `undefined` members or `Date` objects.
- Every payload on which `JSON.stringify` throws (a `BigInt`, a cyclic object) or returns `undefined` (`undefined`, a function or a symbol, after which `Buffer.from` throws a `TypeError`) is excluded: `Stringify` is total.
- Record fields that are not strings are excluded by typing (for example `null` from the database, where `Buffer.from` would throw a `TypeError`).
- Hex.Decode claims Node's `Buffer.from(s, "hex")` behaviour only for text whose code points are all below 0x100. Node reads UTF-16 code units, and how it narrows larger code units is not modelled.
- Zod's UUID pattern is the abstract predicate `isUuid`.
- Zod's stripping of unknown keys from its output is not modelled. Only acceptance is.
- ResponseSchema.ClientResponseSchema: the data schema is taken to be non-transforming. Zod runs the refinement on the object schema's parsed output, and the model runs it on the input, so the two differ for a data schema with `.default` or `.transform` that changes whether `data` is `null`. No schema the system passes transforms.
- JSON numbers are reals. `NaN` cannot come from JSON text, but an out-of-range literal such as `1e400` parses to `Infinity` (or `-Infinity`), which `z.number()` accepts and the model does not represent.
- Discarding the DEK from memory has no meaning in a value model.
- HTTP routes, the Postgres plugin, the server bootstrap, the environment-variable configuration check, the API client and the web page are not modelled. They are I/O plumbing around the core. The configuration's 64-character check on the master key is not modelled; with it the process key is exactly 64 characters. `Decode` alone also accepts longer text whose first 64 characters are hex digits and whose remainder yields no further byte (a single trailing digit, or text from a malformed pair on), and such text acts as the same key.
- EnvelopeProperties.TamperedPayloadCt: states "integrity error or a GCM tag collision", not "always the integrity error", because an abstract 16-byte tag cannot rule out collisions (forgery is only improbable).
- EnvelopeProperties.TamperedDekWrapped: weaker in the same way, for collisions at the key layer.
- EnvelopeProperties.WrongMasterKey: weaker in the same way, for a wrapped DEK that also authenticates under the other key.
