/**
 * The loaded specification and fixture data (fixture/fixtures.go), already
 * decoded. Go maps whose iteration order matters become sequences in an
 * arbitrary but fixed order; the fixture payloads themselves stay opaque.
 */
module Fixture {
  import opened Wrappers

  /** Any decoded JSON payload of a fixture, returned verbatim. */
  datatype Value = Value(token: nat)

  const YFinQuotes := "quote"
  const YFinQuotePath := "/v7/finance/quote"
  const YFinChart := "chart"
  const YFinChartPath := "/v8/finance/chart"
  const ServiceYFin := "yfin"

  datatype Parameter = Parameter(description: string, name: string, required: bool)

  /** A declared response of an operation; `content["resource"]` names the fixture. */
  datatype SpecResponse = SpecResponse(content: map<string, string>)

  /**
   * An operation of the specification. The `resourceID` field is read by the
   * yfin service, the `responses` table by the generic request handler.
   */
  datatype Operation = Operation(
    parameters: seq<Parameter>,
    resourceID: string,
    responses: map<string, SpecResponse>)

  /** A service's `Paths` map, in iteration order. */
  datatype Service = Service(paths: seq<(string, Operation)>)

  /** symbol -> upper-cased market state -> quote (null when the state has no quote). */
  type QuoteTree = map<string, map<string, Option<Value>>>

  /** symbol (or "error") -> chart. */
  type ChartTree = map<string, Value>

  /** The resources of the yfin service, one typed tree per resource type. */
  datatype Resources = Resources(quotes: QuoteTree, charts: ChartTree)
}
