/**
 * JSON text, abstracted. `Stringify` stands for `Buffer.from(JSON.stringify(v), "utf8")`
 * and `Parse` for `JSON.parse(buffer.toString("utf8"))`, whose failure carries the
 * message of the `SyntaxError` it throws.
 */
module Json {
  import opened Wrappers
  import opened Hex

  datatype Codec<!V> = Codec(Stringify: V -> Bytes, Parse: Bytes -> Result<V, string>)

  /** Parsing the serialisation of a value gives the value back. */
  ghost predicate RoundTrips<V(!new)>(j: Codec<V>) {
    forall v :: j.Parse(j.Stringify(v)) == Success(v)
  }
}
