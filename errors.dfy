/** The server's own error envelope (server/error.go). */
module ServerErrors {
  import opened Wrappers
  import opened Fixture
  import opened Json

  const ErrorDescription := "An internal error occurred."
  const ErrorCode := "invalid-request"

  datatype ErrorInfo = ErrorInfo(code: string, description: string)

  /** `ErrorContainer`: `result` is a nil pointer in every value the server builds. */
  datatype ErrorContainer = ErrorContainer(result: Option<Value>, errorInfo: ErrorInfo)

  /** `ResponseError`, whose container is written under the key "error". */
  datatype ResponseError = ResponseError(container: ErrorContainer)

  /** `createAPIError(code, description)`. */
  function CreateAPIError(code: string, description: string): (e: ResponseError)
    ensures e.container.result.None?
    ensures e.container.errorInfo.code == code
    ensures e.container.errorInfo.description == description
  {
    ResponseError(ErrorContainer(None, ErrorInfo(code, description)))
  }

  /** `createInternalServerError()`. */
  function CreateInternalServerError(): (e: ResponseError)
    ensures e.container.result.None?
    ensures e.container.errorInfo.code == "invalid-request"
    ensures e.container.errorInfo.description == "An internal error occurred."
  {
    CreateAPIError(ErrorCode, ErrorDescription)
  }

  /** The JSON document of `ResponseError`, following its struct tags. */
  function ToJson(e: ResponseError): (j: Json)
    ensures Keys(j) == ["error"] && Keys(Field(j, "error")) == ["result", "error"]
    ensures Field(Field(j, "error"), "result").Null? <==> e.container.result.None?
    ensures Keys(Field(Field(j, "error"), "error")) == ["code", "description"]
  {
    var c := e.container;
    var info := Obj([("code", Str(c.errorInfo.code)), ("description", Str(c.errorInfo.description))]);
    var inner := [("result", if c.result.Some? then Raw(c.result.value) else Null), ("error", info)];
    assert FieldIn(inner, "error") == FieldIn(inner[1..], "error");
    Obj([("error", Obj(inner))])
  }

  /** Reads a `ResponseError` back from its JSON document. */
  function FromJson(j: Json): Option<ResponseError>
  {
    if !(j.Obj? && |j.fields| == 1 && j.fields[0].0 == "error") then None
    else
      var c := j.fields[0].1;
      if !(c.Obj? && |c.fields| == 2 && c.fields[0].0 == "result" && c.fields[1].0 == "error") then None
      else
        var r := c.fields[0].1;
        var info := c.fields[1].1;
        if !(r.Null? || r.Raw?) then None
        else if !(info.Obj? && |info.fields| == 2 && info.fields[0].0 == "code"
                  && info.fields[1].0 == "description"
                  && info.fields[0].1.Str? && info.fields[1].1.Str?) then None
        else
          Some(ResponseError(ErrorContainer(
            if r.Raw? then Some(r.v) else None,
            ErrorInfo(info.fields[0].1.s, info.fields[1].1.s))))
  }

  /** The internal error is the generic API error with the internal code and description. */
  lemma InternalErrorIsAPIError()
    ensures CreateInternalServerError() == CreateAPIError(ErrorCode, ErrorDescription)
  {
  }

  /** Decoding the written document gives the error back, so no two errors look alike on the wire. */
  lemma JsonRoundTrip(e: ResponseError)
    ensures FromJson(ToJson(e)) == Some(e)
  {
  }

  /** Every error document has the single outer key "error", and its `result` is null. */
  lemma ErrorDocumentShape(code: string, description: string)
    ensures Keys(ToJson(CreateAPIError(code, description))) == ["error"]
    ensures Field(Field(ToJson(CreateAPIError(code, description)), "error"), "result") == Null
    ensures Field(Field(Field(ToJson(CreateAPIError(code, description)), "error"), "error"), "code") == Str(code)
  {
    var c := Field(ToJson(CreateAPIError(code, description)), "error");
    assert c.fields[1..][0].0 == "error";
    assert FieldIn(c.fields, "error") == FieldIn(c.fields[1..], "error");
  }
}
