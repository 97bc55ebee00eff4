/** `TantivyIndexError`, the one error type every fallible operation of the
    binding returns, and the fixed messages it carries. */
module Errors {

  /** The engine errors the modelled code can meet; everything else the engine
      reports is `Other`. */
  datatype EngineError =
    | FieldNotFound(name: string)
    | InvalidArgument
    | Other

  datatype IndexError =
    | IoError
    | OpenDirectoryError
    | TantivyError(cause: EngineError)
    | SerializationError
    | DocParsingError
    | FacetParseError
    | TryFromIntError
    | WriterAcquisitionError
    | DocRetrievalError(name: string)
    | SchemaBuilderError(message: string)
    | QueryError(message: string)

  const SCHEMA_TAKEN: string := "Schema already built or empty"
  const JSON_TERM_UNSUPPORTED: string := "JSON term queries are not supported yet"
  const PHRASE_NEEDS_TWO_TERMS: string := "Phrase query requires at least two terms"
  const PHRASE_PREFIX_NEEDS_A_TERM: string := "Phrase prefix query requires at least one term"
  const RANGE_NEEDS_A_BOUND: string := "Range query requires at least one bound"

  /** The message of a value whose kind the schema field does not accept. */
  function TypeMismatch(fieldName: string): (m: string)
    ensures |m| > |fieldName| && m[|m| - |fieldName|..] == fieldName
  {
    "Field value type does not match schema field " + fieldName
  }
}
