/**
 * Handler results: the HTTP-like status of a response, its body, the
 * domain event it carries, and the three-valued execution status that the
 * transaction executor acts on.
 */
module Responses {
  import opened Common
  import opened Json

  datatype HttpStatus = Ok | Created | NoContent | InvalidRequest | ValidationError | Forbidden | NotFound | InternalError

  /** A domain event: its name and its body. */
  datatype Event = Event(name: string, body: JsonObject)

  datatype MessageResponse = MessageResponse(
    status: HttpStatus,
    body: JsonObject,
    event: Option<Event>,
    location: Option<string>)

  datatype ExecutionStatus = ContinueProcessing | Successful | Failed

  datatype ExecutionResult = ExecutionResult(response: Option<MessageResponse>, status: ExecutionStatus)
  {
    predicate IsContinue() { status == ContinueProcessing }
    predicate IsSuccessful() { status == Successful }
    /** A FAILED result carrying a response with the given status. */
    predicate FailedWith(s: HttpStatus) { status == Failed && response.Some? && response.value.status == s }
    predicate SucceededWith(s: HttpStatus) { status == Successful && response.Some? && response.value.status == s }
  }

  /** What a phase hands back: a result, or an exception with its message. */
  datatype Outcome = Returned(result: ExecutionResult) | Threw(message: string)

  const MESSAGE: string := "message"

  function Continue(): (r: ExecutionResult)
    ensures r.IsContinue() && r.response.None?
  {
    ExecutionResult(None, ContinueProcessing)
  }

  /** A FAILED result whose body is {message: text}. */
  function Fail(s: HttpStatus, text: string): (r: ExecutionResult)
    ensures r.FailedWith(s) && r.response.value.event.None?
  {
    ExecutionResult(Some(MessageResponse(s, map[MESSAGE := Str(text)], None, None)), Failed)
  }

  /** A FAILED validation-error result whose body is the error object itself. */
  function FailValidation(errors: JsonObject): (r: ExecutionResult)
    ensures r.FailedWith(ValidationError) && r.response.value.body == errors
  {
    ExecutionResult(Some(MessageResponse(ValidationError, errors, None, None)), Failed)
  }

  function CreatedResponse(location: string, e: Event): (r: ExecutionResult)
    ensures r.SucceededWith(Created) && r.response.value.location == Some(location)
    ensures r.response.value.event == Some(e)
  {
    ExecutionResult(Some(MessageResponse(Created, map[], Some(e), Some(location))), Successful)
  }

  /** A SUCCESSFUL no-content result with body {message: text} and an optional event. */
  function NoContentResponse(text: string, e: Option<Event>): (r: ExecutionResult)
    ensures r.SucceededWith(NoContent) && r.response.value.event == e
  {
    ExecutionResult(Some(MessageResponse(NoContent, map[MESSAGE := Str(text)], e, None)), Successful)
  }

  function OkayResponse(body: JsonObject): (r: ExecutionResult)
    ensures r.SucceededWith(Ok) && r.response.value.body == body && r.response.value.event.None?
  {
    ExecutionResult(Some(MessageResponse(Ok, body, None, None)), Successful)
  }
}
