/** Option and Result, plus the exceptions the modelled Python code raises. */
module Wrappers {

  datatype Option<+T> = None | Some(value: T) {
    function GetOr(default: T): T {
      match this
      case Some(v) => v
      case None => default
    }
  }

  datatype Result<+T, +E> = Success(value: T) | Failure(error: E) {
    predicate IsFailure() {
      Failure?
    }

    function PropagateFailure<U>(): Result<U, E>
      requires Failure?
    {
      Failure(error)
    }

    function Extract(): T
      requires Success?
    {
      value
    }
  }

  /** The Python exceptions that can escape from the modelled functions. */
  datatype Exception =
    | AssertionError(message: string)
    | TypeError(message: string)
    | FileNotFoundError(path: string)
    | FileExistsError(path: string)
    | IsADirectoryError(path: string)
    | NotADirectoryError(path: string)
    | DecodeError(path: string)
    | KeyError(key: string)
    | IndexError
    | BinasciiError(message: string)
    | ProviderError(message: string)
    | AttributeError(message: string)

  /** `str(e)` for the exceptions whose text the HTTP routes forward; an `OSError` carries its
      POSIX error number (ENOENT 2, EEXIST 17, ENOTDIR 20, EISDIR 21). */
  function Describe(e: Exception): string {
    match e
    case AssertionError(m) => m
    case TypeError(m) => m
    case FileNotFoundError(p) => "[Errno 2] No such file or directory: '" + p + "'"
    case FileExistsError(p) => "[Errno 17] File exists: '" + p + "'"
    case IsADirectoryError(p) => "[Errno 21] Is a directory: '" + p + "'"
    case NotADirectoryError(p) => "[Errno 20] Not a directory: '" + p + "'"
    case DecodeError(p) => "cannot decode '" + p + "'"
    case KeyError(k) => "'" + k + "'"
    case IndexError => "list index out of range"
    case BinasciiError(m) => m
    case ProviderError(m) => m
    case AttributeError(m) => m
  }
}
