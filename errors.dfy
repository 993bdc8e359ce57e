// ExceptionService.GetErrorResult: the HTTP answer (status codes of section 15 of RFC 9110) the API
// layer gives for an exception escaping the core.
module Errors {
  import opened Common

  /** The action results GetErrorResult builds. */
  datatype ActionResult =
    | UnauthorizedObject(body: string)
    | BadRequestObject(body: string)
    | NotFoundObject(body: string)
    | StatusCode(code: int)

  /** The HTTP status each result sends. */
  function Status(a: ActionResult): int
  {
    match a
    case UnauthorizedObject(_) => 401
    case BadRequestObject(_) => 400
    case NotFoundObject(_) => 404
    case StatusCode(code) => code
  }

  const IdFormatMessage: string := "Id Format wrong"

  /** The switch on the exception's class, arm by arm in source order; an arm matches the class and every class derived from it. */
  function GetErrorResult(e: Exception): (a: ActionResult)
    ensures IsA(e.kind, UnauthorizedAccess) ==> a == UnauthorizedObject(e.message)
    ensures IsA(e.kind, KeyNotFound) ==> a == NotFoundObject(e.message)
    ensures IsA(e.kind, InvalidOperation) ==> a == BadRequestObject(e.message)
    ensures IsA(e.kind, ArgumentNull) ==>
      a == BadRequestObject("Expected a value but none was given: " + (if e.paramName.Some? then e.paramName.value else ""))
    ensures IsA(e.kind, Argument) && !IsA(e.kind, ArgumentNull) ==> a == BadRequestObject("Input error" + e.message)
  {
    if IsA(e.kind, UnauthorizedAccess) then UnauthorizedObject(e.message)
    else if IsA(e.kind, InvalidOperation) then BadRequestObject(e.message)
    else if IsA(e.kind, ArgumentNull) then
      BadRequestObject("Expected a value but none was given: " + (if e.paramName.Some? then e.paramName.value else ""))
    else if IsA(e.kind, KeyNotFound) then NotFoundObject(e.message)
    else if IsA(e.kind, FormatFailure) then BadRequestObject(IdFormatMessage)
    else if IsA(e.kind, Overflow) then BadRequestObject(IdFormatMessage)
    else if IsA(e.kind, Argument) then BadRequestObject("Input error" + e.message)
    else if IsA(e.kind, Json) then BadRequestObject("Body malformed: " + e.message)
    else if IsA(e.kind, ThreadInterrupted) then StatusCode(504)
    else StatusCode(500)
  }

  /** The status of each exception class, read off the class hierarchy by hand. */
  function ClassStatus(t: ExceptionType): int
  {
    match t
    case UnauthorizedAccess => 401
    case KeyNotFound => 404
    case InvalidOperation | ObjectDisposed | Argument | ArgumentNull | ArgumentOutOfRange
      | FormatFailure | Overflow | Json => 400
    case ThreadInterrupted => 504
    case BaseException | SystemException | NotSupported | Arithmetic | NullReference | Mongo | FirebaseAuth => 500
  }

  /** GetErrorResult answers every exception with the status of its class. */
  lemma StatusByClass(e: Exception)
    ensures Status(GetErrorResult(e)) == ClassStatus(e.kind)
  {
    if ClassStatus(e.kind) == 400 {
      BadRequestClasses(e);
    } else {
      OtherClasses(e);
    }
  }

  /** The eight classes answered 400: invalid operations, argument errors, format, overflow and JSON errors. */
  lemma BadRequestClasses(e: Exception)
    requires ClassStatus(e.kind) == 400
    ensures Status(GetErrorResult(e)) == 400
  {
    match e.kind
    case InvalidOperation =>
    case ObjectDisposed =>
    case Argument =>
    case ArgumentNull =>
    case ArgumentOutOfRange =>
    case FormatFailure =>
    case Overflow =>
    case Json =>
  }

  /** The classes answered 401, 404, 504 or 500. */
  lemma OtherClasses(e: Exception)
    requires ClassStatus(e.kind) != 400
    ensures Status(GetErrorResult(e)) == ClassStatus(e.kind)
  {
    match e.kind
    case BaseException =>
    case SystemException =>
    case UnauthorizedAccess =>
    case NotSupported =>
    case KeyNotFound =>
    case Arithmetic =>
    case ThreadInterrupted =>
    case NullReference =>
    case Mongo =>
    case FirebaseAuth =>
  }

  /** Only the five statuses of the switch are ever sent. */
  lemma StatusesSent(e: Exception)
    ensures Status(GetErrorResult(e)) in {400, 401, 404, 500, 504}
  {
    StatusByClass(e);
  }

  /** ArgumentNullException, though an ArgumentException, gets its own message naming the parameter. */
  lemma ArgumentNullBeforeArgument(param: string, message: string)
    ensures GetErrorResult(Exception(ArgumentNull, message, Some(param))) ==
      BadRequestObject("Expected a value but none was given: " + param)
    ensures IsA(ArgumentNull, Argument)
  {
  }

  /** The 400 answers for format and overflow errors carry a fixed text, not the exception's message. */
  lemma IdFormatFixedText(e: Exception)
    requires e.kind == FormatFailure || e.kind == Overflow
    ensures GetErrorResult(e) == BadRequestObject(IdFormatMessage)
  {
  }
}
