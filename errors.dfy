/** Results, options and the error taxonomy raised by the handler and the generator. */
module Errors {

  datatype Option<+T> = None | Some(value: T) {
    function GetOr(default: T): T {
      match this
      case Some(v) => v
      case None => default
    }
  }

  /** The three cardinality limits, in the order the handler evaluates them. */
  datatype LimitKind = LimitMin | LimitMax | LimitExact

  /** One entry of the message list the limit check accumulates. */
  datatype LimitNote =
    | Skipped(kind: LimitKind)
    | Passed(kind: LimitKind, bound: int)
    | Failed(kind: LimitKind, bound: int)

  /** Why a generic PytanError was raised. */
  datatype Reason =
    | EmptySearch
    | DeleteNotSupported(getType: string)
    | NothingFound(getType: string)
    | ExportBeforeDeleteUnsupported
    | ReallyDeleteUnset
    | ActionNotStopped
    | UnknownSseFormat(format: string)

  /** Why a ServerSideExportError was raised. */
  datatype SseReason = ExportTooSoon | EmptyResultSet | PollerFailed(status: string)

  datatype Error =
    | PytanError(reason: Reason)
    | UnsupportedVersionError
    | PickerError
    | ParseJobError
    | CheckLimitError(notes: seq<LimitNote>)
    | ServerSideExportError(sseReason: SseReason)
    /** getattr on an attribute the object does not have */
    | AttributeError(field: string)
    /** a dictionary lookup of a missing key */
    | KeyError(key: string)
    /** the generator's search of the schema text found nothing */
    | PatternNotFound(name: string)

  datatype Result<+T> = Ok(value: T) | Err(error: Error)

  /** A check that either passes or raises. */
  datatype Outcome = Pass | Fail(error: Error)
}
