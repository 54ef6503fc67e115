/** The shape of what every client operation returns
    (Erlc.Net/ErlcResponse.cs) and the error taxonomy it is meant to
    convey: an invalid token, a failed request, an unparsable body, or the
    parsed value. */
module Responses {

  import opened Wrappers

  /** `ErlcResponse<TResult>`; a null `Result` or `ErrorMessage` is `None`. */
  datatype Response<T> = Response(result: Option<T>, success: bool, statusCode: int, errorMessage: Option<string>)

  /** `ErlcResponse`, returned by RunCommand: no result. */
  datatype CommandResponse = CommandResponse(success: bool, statusCode: int, errorMessage: Option<string>)

  /** The status codes the client names. */
  const BadRequest: int := 400
  const Forbidden: int := 403
  const UnprocessableEntity: int := 422
  const InternalServerError: int := 500

  /** The message of every 403 response. */
  const InvalidAccessToken: string := "Invalid access token"

  /** How every parse-failure message begins. */
  const UnableToParse: string := "Unable to parse "

  /** `HttpResponseMessage.IsSuccessStatusCode`: the status is in 200-299.
      None of the statuses the client gives a message for is a success. */
  function IsSuccessStatusCode(status: int): (success: bool)
    ensures success ==> status !in {BadRequest, Forbidden, UnprocessableEntity, InternalServerError}
    ensures status == 200 ==> success
  {
    200 <= status <= 299
  }

  predicate StartsWith(s: string, prefix: string)
  {
    |prefix| <= |s| && s[..|prefix|] == prefix
  }

  /** What a fetch can end in. */
  datatype Outcome<T> =
    | Ok(value: T)
    | AuthenticationFailure
    | RequestFailure(status: int)
    | ParseFailure

  /** The shared request algorithm: a 403 is an authentication failure
      before any other check, any other status outside 200-299 a request
      failure, a body that does not parse a parse failure, and otherwise
      the parsed value is the result. */
  function Expected<T>(status: int, parsed: Option<T>): Outcome<T>
  {
    if status == Forbidden then AuthenticationFailure
    else if !IsSuccessStatusCode(status) then RequestFailure(status)
    else if parsed.None? then ParseFailure
    else Ok(parsed.value)
  }

  /** How a response conveys an outcome: success only with a result and no
      message; a 403 failure with the invalid-token message; any other
      failing status with no message; a parse failure with a message that
      says so. A failure never carries a result. */
  predicate Reports<T(==)>(r: Response<T>, o: Outcome<T>)
  {
    match o
    case Ok(v) =>
      r.success && r.result == Some(v) && r.errorMessage.None?
    case AuthenticationFailure =>
      !r.success && r.result.None? && r.statusCode == Forbidden
      && r.errorMessage == Some(InvalidAccessToken)
    case RequestFailure(status) =>
      !r.success && r.result.None? && r.statusCode == status && r.errorMessage.None?
    case ParseFailure =>
      !r.success && r.result.None? && IsSuccessStatusCode(r.statusCode)
      && r.errorMessage.Some? && StartsWith(r.errorMessage.value, UnableToParse)
  }

  /** A response never reports two different outcomes. */
  lemma ReportsUnique<T>(r: Response<T>, o1: Outcome<T>, o2: Outcome<T>)
    requires Reports(r, o1) && Reports(r, o2)
    ensures o1 == o2
  {
  }
}
