/** The exceptions, assertion failures and aborts the modelled code can raise,
    and a result type that carries either a value or one of them. */
module Errors {

  /** Every way a modelled operation can stop without producing its value. */
  datatype Error =
    | UnknownDataType           // sizeOf / stringForType on a tag outside their tables
    | UnknownTextureFormat      // sizeOf on a texture format outside its table
    | StringArraysUnsupported   // a Data of OSP_STRING requested on the coprocessor
    | BufferAddRefFailed        // the transport refused to retain a bulk buffer
    | BadAlloc                  // an allocation whose size wrapped around size_t
    | AssertionFailed           // an Assert / assert in the dispatcher fired
    | UnsupportedValueType      // set_value with a type tag it has no case for
    | MissingFlagValue          // a value-taking command-line flag is the last argument

  datatype Option<T> = None | Some(value: T)

  datatype Result<T> = Ok(value: T) | Throw(error: Error)
}
