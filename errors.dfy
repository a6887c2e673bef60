/** `ClientError` and its `Display` text (src/errors.rs). */
module Errors {

  /**
   * The client errors the modelled code can produce. Each detail string stands
   * for the `Display` text of the wrapped library error, which is not modelled.
   */
  datatype ClientError =
    | Reqwest(detail: string)   // HTTP transport or status error
    | HeaderInvalid             // a header value with a forbidden character
    | Json(detail: string)      // JSON deserialisation error
    | Decode(detail: string)    // bytes that are not valid UTF-8

  /** The text `format!("{}", e)` gives. */
  function Display(e: ClientError): (r: string)
    ensures |r| > 0
    ensures e.Reqwest? ==> r == "HTTP error: " + e.detail
    ensures e.HeaderInvalid? ==> r == "Invalid header: failed to parse header value"
    ensures e.Json? ==> r == "JSON error: " + e.detail
    ensures e.Decode? ==> r == "Decoding error: " + e.detail
  {
    match e
    case Reqwest(d) => "HTTP error: " + d
    case HeaderInvalid => "Invalid header: failed to parse header value"
    case Json(d) => "JSON error: " + d
    case Decode(d) => "Decoding error: " + d
  }
}
