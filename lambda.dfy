/**
 * What a Lambda handler invocation ends in: either it returns a response object
 * `{statusCode, body}`, or it raises an error that the hosting runtime turns
 * into a failed invocation.
 */
module Lambda {
  import opened Js

  /**
   * `body` is the value the handler hands to `JSON.stringify`; the
   * serialisation itself is not modelled.
   */
  datatype Response = Response(statusCode: int, body: Value)

  datatype Exception =
    | TypeError(property: string)  // reading `property` of undefined or null
    | SyntaxError                  // JSON.parse given malformed text
    | Error(message: string)       // `new Error(message)`, or an SDK client error with that message
    | NotConvertible               // TypeError: an object that `String()` cannot convert (see Js.Printable)

  datatype Outcome = Returned(response: Response) | Raised(exception: Exception)

  /** Whether the closing log line, which interpolates `${event.path}`, can be formed. */
  predicate LogsCleanly(event: Value) {
    GetProperty(event, "path").Read? && Printable(GetProperty(event, "path").value)
  }

  /**
   * Both handlers end by logging `${event.path}` with the response, and then
   * return it; converting a path that is not printable throws instead.
   */
  function LogResponse(event: Value, response: Response): (o: Outcome)
    ensures o.Returned? <==> LogsCleanly(event)
    ensures o.Returned? ==> o.response == response
    // once a property of the event has been read, only the conversion can fail
    ensures o.Raised? ==>
              o.exception == if event.Undefined? || event.Null? then TypeError("path") else NotConvertible
  {
    match GetProperty(event, "path")
    case CannotRead => Raised(TypeError("path"))
    case Read(path) => if Printable(path) then Returned(response) else Raised(NotConvertible)
  }

  /** The one-field object literal `{name: v}` */
  function Record1(name: string, v: Value): Value {
    Obj(map[name := v])
  }
}
