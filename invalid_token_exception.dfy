/** InvalidTokenException (Erlc.Net/Exceptions/InvalidTokenException.cs):
    the exception for a 403 Forbidden answer and its status check. */
module Exceptions {

  import opened Wrappers
  import opened Responses
  import Client

  /** An HttpRequestException whose message is fixed. */
  datatype InvalidTokenException = InvalidTokenException
  {
    function Message(): string
    {
      "Invalid access token"
    }
  }

  /** ThrowIfInvalid: reads only the status of the response; `Some` is the
      exception it throws, `None` a normal return. */
  function ThrowIfInvalid(status: int): (thrown: Option<InvalidTokenException>)
    ensures thrown.Some? <==> status == Forbidden
  {
    if status == Forbidden then Some(InvalidTokenException) else None
  }

  /** The check throws for no other status, whether 4xx, 5xx or a success. */
  lemma OnlyForbiddenThrows(status: int)
    requires status != Forbidden
    ensures ThrowIfInvalid(status).None?
  {
  }

  /** The check throws exactly when RunCommand and every fetch operation
      answer with the exception's own message, whatever the body parsed to. */
  lemma ThrowsIffClientReportsInvalidToken<T>(e: InvalidTokenException, status: int, parsed: Option<T>, what: string, responseText: string)
    ensures e.Message() == InvalidAccessToken
    ensures ThrowIfInvalid(status).Some?
      <==> Client.RunCommand(status).errorMessage == Some(e.Message())
    ensures ThrowIfInvalid(status).Some?
      <==> Client.Classify(status, parsed, what, responseText).errorMessage == Some(e.Message())
  {
  }
}
