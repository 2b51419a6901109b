/** Result values shared by every stage of the parser: an optional value for a
    goquery selection that may have no node set, the errors the program can
    report, and a result that carries either a value or one of those errors. */
module Outcomes {

  /** `None` stands for a selection whose `Nodes` slice is nil. */
  datatype Option<+T> = None | Some(value: T)

  /** The errors main.go can meet. `Transport` covers every error returned
      while building the request, sending it or parsing the body as HTML;
      its text comes from the Go runtime and is taken as given. The other
      two are the extractors' own errors. */
  datatype Failure =
    | Transport(reason: string)
    | TitleNotFound
    | PaymentsNotFound
  {
    /** The text of `err.Error()` for this error. */
    function Text(): string
    {
      match this
      case Transport(reason) => reason
      case TitleNotFound => "getTitle(): data not found"
      case PaymentsNotFound => "getPaymentsInfo(): data not found"
    }
  }

  /** A Go `(value, error)` pair where exactly one side is meaningful. */
  datatype Result<+T> = Ok(value: T) | Err(error: Failure)
}
