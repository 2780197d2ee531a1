/**
 * `HTTPStatus`: the response status classes of section 15 of RFC 9110
 * (1xx to 5xx) plus a bucket for an absent or out-of-range code, and the
 * `NetworkError` each class stands for.
 */
module HTTPStatuses {
  import opened Primitives
  import opened Errors

  datatype HTTPStatus = Info | Success | Redirect | ClientError | ServerError | NoStatus {

    /** `error`: the `NetworkError` a response of this class is reported as. */
    function Error(): NetworkError {
      match this
      case ClientError => Client
      case ServerError => Server
      case _ => Unknown
    }
  }

  /**
   * The class RFC 9110 assigns to a status code by its first digit, for the
   * five defined classes 1xx to 5xx.
   */
  function ClassOfFirstDigit(digit: int): HTTPStatus
    requires 1 <= digit <= 5
  {
    [Info, Success, Redirect, ClientError, ServerError][digit - 1]
  }

  /**
   * `HTTPStatus.init(_ rawValue: Int?)`: a missing code counts as 0, and a
   * code is classified by the range 100...199 to 500...599 it falls in.
   * The result is the RFC's class of the code's first digit for every
   * three-digit code from 100 to 599, and `NoStatus` for everything else.
   */
  function Classify(rawValue: Option<int>): (status: HTTPStatus)
    ensures status == NoStatus <==> rawValue.None? || rawValue.value < 100 || 599 < rawValue.value
    ensures status != NoStatus ==> status == ClassOfFirstDigit(rawValue.value / 100)
  {
    var statusCode := if rawValue.Some? then rawValue.value else 0;
    if 100 <= statusCode <= 199 then Info
    else if 200 <= statusCode <= 299 then Success
    else if 300 <= statusCode <= 399 then Redirect
    else if 400 <= statusCode <= 499 then ClientError
    else if 500 <= statusCode <= 599 then ServerError
    else NoStatus
  }

  /** The five ranges, and the codes the library's tests name. */
  lemma ClassifyRanges(code: int)
    ensures 100 <= code <= 199 ==> Classify(Some(code)) == Info
    ensures 200 <= code <= 299 ==> Classify(Some(code)) == Success
    ensures 300 <= code <= 399 ==> Classify(Some(code)) == Redirect
    ensures 400 <= code <= 499 ==> Classify(Some(code)) == ClientError
    ensures 500 <= code <= 599 ==> Classify(Some(code)) == ServerError
    ensures Classify(None) == Classify(Some(0)) == Classify(Some(1000)) == Classify(Some(600)) == NoStatus
    ensures code < 0 ==> Classify(Some(code)) == NoStatus
  {
  }

  /** `error` maps the two error classes to their kinds and every other class to `unknown`. */
  lemma ErrorMapping(status: HTTPStatus)
    ensures status.Error() == Client <==> status == ClientError
    ensures status.Error() == Server <==> status == ServerError
    ensures status.Error() == Unknown <==> status in {Info, Success, Redirect, NoStatus}
  {
  }
}

/**
 * The older revision's failable `NSHTTPURLResponse.HTTPStatus.init?(_:)`:
 * the same five classes, with `nil` where the newer classifier answers
 * `noStatus`.
 */
module LegacyHTTPStatuses {
  import opened Primitives
  import Current = HTTPStatuses

  datatype HTTPStatus = Info | Success | Redirect | ClientError | ServerError

  /** `init?(_ rawValue: Int?)`: `nil` for a missing code and for a code outside 100...599. */
  function Classify(rawValue: Option<int>): Option<HTTPStatus> {
    if rawValue.None? then None
    else
      var statusCode := rawValue.value;
      if 100 <= statusCode <= 199 then Some(Info)
      else if 200 <= statusCode <= 299 then Some(Success)
      else if 300 <= statusCode <= 399 then Some(Redirect)
      else if 400 <= statusCode <= 499 then Some(ClientError)
      else if 500 <= statusCode <= 599 then Some(ServerError)
      else None
  }

  /** The newer revision's case of the same name. */
  function AsCurrent(status: HTTPStatus): Current.HTTPStatus {
    match status
    case Info => Current.Info
    case Success => Current.Success
    case Redirect => Current.Redirect
    case ClientError => Current.ClientError
    case ServerError => Current.ServerError
  }

  /**
   * The two revisions agree on every input: the older classifier fails
   * exactly where the newer one answers `noStatus`, and otherwise names the
   * same class.
   */
  lemma AgreesWithCurrent(rawValue: Option<int>)
    ensures Classify(rawValue).None? <==> Current.Classify(rawValue) == Current.NoStatus
    ensures Classify(rawValue).Some? ==> AsCurrent(Classify(rawValue).value) == Current.Classify(rawValue)
  {
  }

  /** The five ranges; `nil`, and any code outside 100...599, fail. */
  lemma ClassifyRanges(code: int)
    ensures Classify(None) == None
    ensures 100 <= code <= 199 <==> Classify(Some(code)) == Some(Info)
    ensures 200 <= code <= 299 <==> Classify(Some(code)) == Some(Success)
    ensures 300 <= code <= 399 <==> Classify(Some(code)) == Some(Redirect)
    ensures 400 <= code <= 499 <==> Classify(Some(code)) == Some(ClientError)
    ensures 500 <= code <= 599 <==> Classify(Some(code)) == Some(ServerError)
    ensures code < 100 || 599 < code <==> Classify(Some(code)) == None
  {
  }
}
