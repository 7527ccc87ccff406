/**
 * The StatusCheck Lambda handler: an API Gateway POST whose JSON body carries
 * the ARN of a Step Functions execution; the handler answers with that
 * execution's description, or a structured 500.
 *
 * `JSON.parse` is the parameter `parse` (None: the text is not JSON and
 * JSON.parse throws a SyntaxError), and `StepFunctions.describeExecution` is
 * the parameter `describe`. Besides its outcome the handler returns the ARNs
 * it passed to `describe`, in order.
 */
module StatusCheck {
  import opened Js
  import opened Lambda

  /** How a `describeExecution` call settles. */
  datatype Describe = Described(document: Value) | DescribeFailed(message: string)

  const MethodErrorPrefix := "Only accept POST method, you tried: "

  /** The body of the 500 answered when the request names no execution. */
  const MissingArnBody: Value := Record1("error", Str("Provide StateMachine Execution Arn"))

  /** `lambdaHandler(event)` */
  method LambdaHandler(event: Value, parse: string -> Option<Value>, describe: Value -> Describe)
    returns (outcome: Outcome, described: seq<Value>)
    // the method check comes first: nothing is parsed and nothing is described
    ensures GetProperty(event, "httpMethod").CannotRead? ==>
              outcome == Raised(TypeError("httpMethod")) && described == []
    ensures var m := GetProperty(event, "httpMethod");
            m.Read? && m.value != Str("POST") ==>
              && described == []
              && (Printable(m.value) ==> outcome == Raised(Error(MethodErrorPrefix + Text(m.value))))
              && (!Printable(m.value) ==> outcome == Raised(NotConvertible))
    // a POST: the body is converted to text, parsed, and must name an execution;
    // every answer then passes through the closing log line
    ensures GetProperty(event, "httpMethod") == Read(Str("POST")) ==>
              var text := GetProperty(event, "body").value;
              && (!Printable(text) ==> outcome == Raised(NotConvertible) && described == [])
              && (Printable(text) ==>
                    var body := parse(Text(text));
                    && (body.None? ==> outcome == Raised(SyntaxError) && described == [])
                    && (body.Some? && GetProperty(body.value, "executionArn").CannotRead? ==>
                          outcome == Raised(TypeError("executionArn")) && described == [])
                    && (body.Some? && GetProperty(body.value, "executionArn").Read? ==>
                          var arn := GetProperty(body.value, "executionArn").value;
                          && (!Truthy(arn) ==>
                                outcome == LogResponse(event, Response(500, MissingArnBody)) && described == [])
                          && (Truthy(arn) ==>
                                && described == [arn]
                                && outcome == LogResponse(event, match describe(arn)
                                     case Described(doc) => Response(200, doc)
                                     case DescribeFailed(msg) => Response(500, Record1("error", Str(msg)))))))
    // whenever it answers, it answers 200 or 500; describe is called at most once, and only for a POST
    ensures outcome.Returned? ==> outcome.response.statusCode in {200, 500}
    ensures |described| <= 1
    ensures described != [] ==>
              GetProperty(event, "httpMethod") == Read(Str("POST")) && Truthy(described[0])
    ensures outcome.Returned? && outcome.response.statusCode == 200 ==>
              |described| == 1 && describe(described[0]) == Described(outcome.response.body)
  {
    described := [];
    var httpMethod := GetProperty(event, "httpMethod");
    if httpMethod.CannotRead? {
      return Raised(TypeError("httpMethod")), described;
    }
    if httpMethod.value != Str("POST") {
      if !Printable(httpMethod.value) {
        return Raised(NotConvertible), described;
      }
      return Raised(Error(MethodErrorPrefix + Text(httpMethod.value))), described;
    }

    var response: Option<Response> := None;

    // reading `event.httpMethod` did not throw, so reading `event.body` cannot either;
    // JSON.parse converts its argument to a string first
    var text := GetProperty(event, "body").value;
    if !Printable(text) {
      return Raised(NotConvertible), described;
    }
    var body := parse(Text(text));
    if body.None? {
      return Raised(SyntaxError), described;
    }
    var arnRead := GetProperty(body.value, "executionArn");
    if arnRead.CannotRead? {
      return Raised(TypeError("executionArn")), described;
    }
    var executionArn := Or(arnRead.value, Null);

    if executionArn == Null || executionArn == Undefined {
      response := Some(Response(500, MissingArnBody));
    }

    if response.None? {
      described := described + [executionArn];
      var result := describe(executionArn);
      match result
      case Described(doc) =>
        response := Some(Response(200, doc));
      case DescribeFailed(msg) =>
        response := Some(Response(500, Record1("error", Str(msg))));
    }

    // the closing log line interpolates `event.path`
    outcome := LogResponse(event, response.value);
  }
}
