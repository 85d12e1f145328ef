/** The Yahoo-finance response envelopes (yfin/response.go). */
module YFinResponse {
  import opened Wrappers
  import opened Fixture
  import opened Json
  import opened Http

  const InternalErrorDescription := "An internal error occurred."
  const InternalErrorInfo := "invalid-request"
  const SymbolsErrorDescription := "Missing value for the \"symbols\" argument"
  const SymbolsErrorInfo := "argument-error"
  const ChartErrorDescription := "No data found, symbol may be delisted"
  const ChartErrorInfo := "Not Found"

  /** `Error`, written as `{code, description}`. */
  datatype Error = Error(info: string, description: string)

  /** `Response`: a result list (nil for errors) and an error (nil for results). */
  datatype Response = Response(result: Option<seq<Option<Value>>>, error: Option<Error>)

  /** The three envelopes; each writes its `Response` under its own outer key. */
  datatype Envelope =
    | ErrorResponse(response: Response)
    | QuoteResponse(response: Response)
    | ChartResponse(response: Response)

  /** A status code together with the envelope a handler returns. */
  datatype Reply = Reply(status: int, body: Envelope)

  /** The JSON key the envelope's `Response` is written under. */
  function OuterKey(e: Envelope): (k: string)
    ensures e.QuoteResponse? <==> k == "quoteResponse"
    ensures e.ChartResponse? <==> k == "chart"
    ensures e.ErrorResponse? <==> k == "error"
  {
    match e
    case ErrorResponse(_) => "error"
    case QuoteResponse(_) => "quoteResponse"
    case ChartResponse(_) => "chart"
  }

  /** `CreateQuote(quotes)`: 200 with the list as given. */
  function CreateQuote(quotes: seq<Option<Value>>): (r: Reply)
    ensures r.status == StatusOK && r.body.QuoteResponse?
    ensures r.body.response.result == Some(quotes)
    ensures r.body.response.error.None?
  {
    Reply(StatusOK, QuoteResponse(Response(Some(quotes), None)))
  }

  /** `CreateChart(chart)`: 200 with a one-element list holding the chart. */
  function CreateChart(chart: Value): (r: Reply)
    ensures r.status == StatusOK && r.body.ChartResponse?
    ensures r.body.response.result == Some([Some(chart)])
    ensures r.body.response.error.None?
  {
    Reply(StatusOK, ChartResponse(Response(Some([Some(chart)]), None)))
  }

  /** `createAPIError(info, description)`. */
  function CreateAPIError(info: string, description: string): (e: Envelope)
    ensures e.ErrorResponse?
    ensures e.response.result.None?
    ensures e.response.error == Some(Error(info, description))
  {
    ErrorResponse(Response(None, Some(Error(info, description))))
  }

  /** `CreateMissingSymbolsError()`: 400, "argument-error". */
  function CreateMissingSymbolsError(): (r: Reply)
    ensures r.status == StatusBadRequest && r.body.ErrorResponse?
    ensures r.body.response.result.None?
    ensures r.body.response.error == Some(Error("argument-error", "Missing value for the \"symbols\" argument"))
  {
    Reply(StatusBadRequest, CreateAPIError(SymbolsErrorInfo, SymbolsErrorDescription))
  }

  /** `CreateInternalServerError()`: 500, "invalid-request". */
  function CreateInternalServerError(): (r: Reply)
    ensures r.status == StatusInternalServerError && r.body.ErrorResponse?
    ensures r.body.response.result.None?
    ensures r.body.response.error == Some(Error("invalid-request", "An internal error occurred."))
  {
    Reply(StatusInternalServerError, CreateAPIError(InternalErrorInfo, InternalErrorDescription))
  }

  /** A reply is one of those the constructors above build. */
  ghost predicate Constructed(r: Reply)
  {
    (exists q :: r == CreateQuote(q)) || (exists c :: r == CreateChart(c))
    || r == CreateMissingSymbolsError() || r == CreateInternalServerError()
  }

  /**
   * Across the constructors, the error is nil exactly for the 200 replies and
   * the result is nil exactly for the error replies.
   */
  lemma ConstructedConsistent(r: Reply)
    requires Constructed(r)
    ensures r.body.response.error.None? <==> r.status == StatusOK
    ensures r.body.response.result.None? <==> r.status != StatusOK
    ensures r.body.ErrorResponse? <==> r.status != StatusOK
  {
  }

  function ErrorJson(e: Option<Error>): Json
  {
    if e.None? then Null
    else Obj([("code", Str(e.value.info)), ("description", Str(e.value.description))])
  }

  function ResultJson(r: Option<seq<Option<Value>>>): Json
  {
    if r.None? then Null
    else Arr(seq(|r.value|, i requires 0 <= i < |r.value| =>
                 if r.value[i].Some? then Raw(r.value[i].value) else Null))
  }

  /** The JSON document of an envelope, following the struct tags. */
  function ToJson(e: Envelope): (j: Json)
    ensures Keys(j) == [OuterKey(e)]
    ensures Field(Field(j, OuterKey(e)), "result").Null? <==> e.response.result.None?
    ensures Field(Field(j, OuterKey(e)), "error").Null? <==> e.response.error.None?
  {
    var inner := [("result", ResultJson(e.response.result)), ("error", ErrorJson(e.response.error))];
    assert FieldIn(inner, "error") == FieldIn(inner[1..], "error");
    Obj([(OuterKey(e), Obj(inner))])
  }

  function ErrorFromJson(j: Json): Option<Option<Error>>
  {
    if j.Null? then Some(None)
    else if j.Obj? && |j.fields| == 2 && j.fields[0].0 == "code" && j.fields[1].0 == "description"
            && j.fields[0].1.Str? && j.fields[1].1.Str?
    then Some(Some(Error(j.fields[0].1.s, j.fields[1].1.s)))
    else None
  }

  function ItemFromJson(j: Json): Option<Option<Value>>
  {
    if j.Null? then Some(None) else if j.Raw? then Some(Some(j.v)) else None
  }

  function ItemsFromJson(items: seq<Json>): (r: Option<seq<Option<Value>>>)
    ensures r.Some? ==> |r.value| == |items|
  {
    if items == [] then Some([])
    else
      var init := ItemsFromJson(items[..|items| - 1]);
      var last := ItemFromJson(items[|items| - 1]);
      if init.None? || last.None? then None else Some(init.value + [last.value])
  }

  function ResultFromJson(j: Json): Option<Option<seq<Option<Value>>>>
  {
    if j.Null? then Some(None)
    else if j.Arr? then
      var items := ItemsFromJson(j.items);
      if items.None? then None else Some(Some(items.value))
    else None
  }

  /** Reads an envelope back from its JSON document; the outer key decides its kind. */
  function FromJson(j: Json): Option<Envelope>
  {
    if !(j.Obj? && |j.fields| == 1) then None
    else
      var key := j.fields[0].0;
      var inner := j.fields[0].1;
      if !(inner.Obj? && |inner.fields| == 2 && inner.fields[0].0 == "result" && inner.fields[1].0 == "error")
      then None
      else
        var result := ResultFromJson(inner.fields[0].1);
        var error := ErrorFromJson(inner.fields[1].1);
        if result.None? || error.None? then None
        else
          var resp := Response(result.value, error.value);
          if key == "quoteResponse" then Some(QuoteResponse(resp))
          else if key == "chart" then Some(ChartResponse(resp))
          else if key == "error" then Some(ErrorResponse(resp))
          else None
  }

  lemma {:induction false} ItemsRoundTrip(xs: seq<Option<Value>>)
    ensures ItemsFromJson(ResultJson(Some(xs)).items) == Some(xs)
    decreases |xs|
  {
    var items := ResultJson(Some(xs)).items;
    if xs != [] {
      var init := xs[..|xs| - 1];
      ItemsRoundTrip(init);
      assert items[..|items| - 1] == ResultJson(Some(init)).items;
      assert init + [xs[|xs| - 1]] == xs;
    }
  }

  /** Decoding an envelope's document gives the envelope back. */
  lemma JsonRoundTrip(e: Envelope)
    ensures FromJson(ToJson(e)) == Some(e)
  {
    if e.response.result.Some? {
      ItemsRoundTrip(e.response.result.value);
    }
  }

  /** Each envelope document has exactly one outer key, the one of its kind. */
  lemma EnvelopeOuterKey(e: Envelope)
    ensures Keys(ToJson(e)) == [OuterKey(e)]
    ensures Keys(Field(ToJson(e), OuterKey(e))) == ["result", "error"]
  {
  }
}
