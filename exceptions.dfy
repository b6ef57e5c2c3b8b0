/** The exceptions the workspace-edit path raises or lets through, and the
    shape of a Python call that either returns or raises. */
module LspExceptions {

  datatype Option<T> = None | Some(value: T)

  /** `EditApplicationError` and its subclass `VersionMismatchError` (both
      carry the URI they are about), the `OSError` a file read raises, and
      the `KeyError` of the document-state store. */
  datatype Exception =
    | EditApplicationError(message: string, uri: string)
    | VersionMismatchError(message: string, uri: string, expectedVersion: int, actualVersion: int)
    | OSError(message: string)
    | KeyError(message: string)

  /** `except EditApplicationError` also catches its subclass. */
  predicate IsEditApplicationError(e: Exception) {
    e.EditApplicationError? || e.VersionMismatchError?
  }

  /** What a call did: returned a value or raised. */
  datatype Raising<T> = Returned(value: T) | Raised(error: Exception)
}
