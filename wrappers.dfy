/** Failure-carrying values and the error kinds the loader raises. */
module Wrappers {

  datatype Option<+T> = None | Some(value: T)

  /** The value of an operation that either returns or throws. */
  datatype Result<+T, +E> = Ok(value: T) | Err(error: E)

  /** The value of an operation that returns nothing or throws. */
  datatype Outcome<+E> = Pass | Fail(error: E)

  /** One variant per `throw new Error(...)` (or runtime failure) in the loader. */
  datatype Error =
    | ModelFileNotFound(path: string)                           // "there is no saved_model.pb file in the directory"
    | UnsupportedType(tfDtype: string)                          // "Unsupported tensor DataType"
    | TagsNotFound(tags: seq<string>)                           // "The SavedModel does not have tags"
    | SignatureNotFound(signature: string)                      // "The SavedModel does not have a signature"
    | InputNameMismatch(expected: seq<string>, provided: seq<string>)  // "The model signatureDef inputs name are ..."
    | MissingInput(name: string)                                // the backend is handed `undefined` for this name
    | OutputCountMismatch(tensors: nat, nodes: nat)             // "Output tensors do not match output node names"
    | AlreadyDisposed                                           // "... has already been deleted"
    | NotSupported                                              // "execute() of TFSavedModel is not supported yet."
    | UndefinedAccess                                           // a TypeError raised by the runtime
}
