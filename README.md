# finance-mock routing and Yahoo-finance stub, in Dafny

finance-mock is a Go HTTP server that mocks the Yahoo Finance API. It reads
an API specification (paths, verbs and operations) and a tree of fixtures,
and it answers requests from that data. This project models its core:

- **Path compilation** (`compilePath`). A path template such as
  `/v7/quote/{symbols}` becomes an anchored pattern. Patterns are a list of
  segments: a literal, or a named parameter. `Compile` builds that list,
  `Render` gives the regular-expression text the Go code builds, and
  `Matches` is what that expression accepts.
- **The routing table** (`InitRouter`). A class field maps each upper-cased
  verb to its routes. A nested loop fills it, and the loop is proved against
  a reference definition `RoutesFor`.
- **Route lookup** (`routeRequest`): the first route under the request's
  method whose pattern accepts the path.
- **Request handling** (`HandleRequest`): a chain of checks ending in 404,
  500 or 200.
- **Response writing** (`writeResponse`): picking the body and the encoding.
- **Response envelopes** of the yfin package. Also the server's own error
  document (`server/error.go`).
- **The yfin service** (`YFinService.Handle`, `quote`, `chart`).
  - `quote` is a loop over the symbol list, proved against the function
    `QuoteResults`.
  - `Handle` is a scan over the service paths, proved against `Dispatch`.
- **The market-state switch** (`HandleConfigRequest`). The package-level
  `Market` variable is a field of a `MarketConfig` object.
- **`utils.Contains`**, as a method with a loop.

Files:
- `wrappers.dfy`: Option.
- `http.dfy`: the HTTP status codes the server writes and their status text.
- `text.dfy`: `strings.Split`, `HasPrefix`, `ToUpper`, `path.Base`.
- `fixture.dfy`: specification and fixture types.
- `json.dfy`: an abstract JSON document.
- `errors.dfy`: `server/error.go`.
- `response.dfy`: `yfin/response.go`.
- `compiler.dfy`: path templates and patterns.
- `server.dfy`: router, request handling and `writeResponse`.
- `yfin.dfy`: the yfin service.
- `config.dfy`: the market switch.
- `utils.dfy`: `Contains`.

Some modelling choices:
- Go map iteration order is not fixed. The specification's paths, each
  path's verbs and the service's paths are therefore sequences in arbitrary
  order. Every lemma holds for every order.
- `utils.ParseFormString` and `url.PathUnescape` are partial functions
  passed in as parameters. So are `json.Marshal` and `json.MarshalIndent`.
- The request's query and the Go `Market` value are explicit parameters.
- `quote` and `chart` are a method and a function over values. Nothing they
  touch can change: they read the fixture tree and the market state only.

Where the code and its tests disagree, the model follows the code:
- `compilePath` appends `\z` to every pattern (server/server.go:172).
- The tests in server/server_test.go:11-14 expect the pattern text without
  it.
- `PathCompiler.RenderDiffersFromTestExpectation` proves that the rendered
  patterns for the two test templates differ from the expected strings.
- The regexp library would print `\z` too, so those two assertions cannot hold
  against the code as written.

`YFinService.Handle` matches the route pattern against the service's
template strings, not against the request path (server/yfin.go:36). The
model keeps that. `PathCompiler.TemplateMissesOwnPattern` and
`YFin.PlaceholderTemplateNeverResolves` prove what follows from it:

- a template with a `{name}` placeholder never matches its own compiled
  pattern;
- so the entry for such a template cannot answer a request routed by that
  pattern.

## Model

| member | source | states |
|---|---|---|
| Utils.Contains | utils/utils.go:15-22 | true exactly when `e` is an element of `s`, so false on an empty slice; when true, the ghost index is the first position holding `e` |
| Text.Split | server/server.go:157 | `strings.Split` always yields at least one piece |
| Text.JoinSplit | server/server.go:157 | joining the pieces of a split with the separator gives back the input |
| Text.SplitPieces | server/server.go:157 | no piece holds the separator, and there is one piece more than separators |
| Text.SplitJoin | server/yfin.go:65 | splitting a join of separator-free parts gives back the parts |
| Text.SplitAround | server/server.go:157 | splitting at one separator is splitting each side |
| Text.SplitNoSep | server/yfin.go:65 | a string without the separator splits into itself alone |
| Text.ToUpper | server/server.go:134 | same length; each character upper-cased independently |
| Text.Base | server/yfin.go:42 | `path.Base`: "." for the empty path; "/" exactly when a non-empty path has only empty pieces (slashes only); otherwise the last non-empty piece, which holds no slash |
| Text.LastNonEmpty | server/yfin.go:42 | the last non-empty piece of a path, when it has one |
| PathCompiler.WordRun | server/server.go:16 | the maximal run of `\w` characters from a position |
| PathCompiler.PlaceholderIsWordRun | server/server.go:16 | a `{name}` placeholder's name is the whole `\w` run after the brace |
| PathCompiler.FirstPlaceholder | server/server.go:164 | the leftmost `\{(\w+)\}` match of a segment, and none exists exactly when it returns none |
| PathCompiler.SegmentOf | server/server.go:164-168 | a segment is literal exactly when it has no placeholder, and is then kept verbatim; otherwise it becomes a parameter named by a placeholder in it |
| PathCompiler.PlaceholderSegment | server/server.go:164-168 | a segment with a placeholder becomes one group named after its first placeholder, rendered as `/(?P<name>[\w-_.]+)` |
| PathCompiler.LiteralSegment | server/server.go:164-166 | a segment without braces renders as `/` followed by the segment verbatim |
| PathCompiler.BracedName | server/server.go:164-168 | `{name}` for a word `name` becomes the parameter `name` |
| PathCompiler.CompilePath | server/server.go:155-173 | the loop over split segments, skipping empty ones, produces `Compile(path)` |
| PathCompiler.Render | server/server.go:156-172 | every compiled pattern starts with `\A` and ends with `\z` |
| PathCompiler.ParamRun | server/server.go:168 | the greedy run of `[\w-_.]` characters a parameter group consumes |
| PathCompiler.CompileSlashFree | server/server.go:157-166 | literal segments of a compiled pattern never contain `/` |
| PathCompiler.CompilePartsIsMap | server/server.go:159-169 | the pattern has one segment per non-empty piece, in order, each that piece's segment |
| PathCompiler.CompilePartsAppend | server/server.go:159-169 | compiling concatenated pieces concatenates the patterns |
| PathCompiler.EmptySegmentsIgnored | server/server.go:157-162 | leading, trailing and doubled slashes do not change the compiled pattern |
| PathCompiler.Matches | server/server.go:148 | `MatchString` of the anchored pattern: the empty path matches only the empty pattern, and any other matched path starts with `/`; `MatchesIff` gives the full segment-wise meaning |
| PathCompiler.MatchesIff | server/server.go:155-173 | a pattern accepts a path exactly when the path is `/s1/.../sn` with one segment per pattern entry, each literal equal to its segment and each parameter a non-empty run of letters, digits, `_`, `-`, `.` |
| PathCompiler.NotAPath | server/server.go:156-166 | a non-empty string not starting with `/` is accepted by no pattern |
| PathCompiler.CompileQuoteExample | server/server_test.go:11-12 | `/v7/quote` compiles to two literals and renders as `\A/v7/quote\z` |
| PathCompiler.CompileSymbolsExample | server/server_test.go:13-14 | `/v7/quote/{symbols}` compiles to two literals and the parameter `symbols`, rendered as `\A/v7/quote/(?P<symbols>[\w-_.]+)\z` |
| PathCompiler.RenderDiffersFromTestExpectation | server/server_test.go:11-14 | the code's pattern text differs from the tests' expected strings, which lack `\z` |
| PathCompiler.SegmentsOfJoined | server/server.go:155-173 | a `/`-joined list of slash-free segments reads back as those segments |
| PathCompiler.MatchExamples | server/server.go:155-173 | `/v7/quote/{symbols}` accepts `/v7/quote/AAPL` and `/v7/quote/BRK-B.A_1`, and rejects an empty symbol, a `/` inside it, a trailing slash; `/v7/quote` rejects an extra segment |
| PathCompiler.TemplateMissesOwnPattern | server/yfin.go:36 | a template holding a placeholder never matches its own compiled pattern |
| Server.WriteResponse | server/server.go:179-192 | status as given; a missing body is replaced by the status text; curl clients exactly get the indented encoding |
| Server.Encode | server/server.go:187-192 | indented output is the indented document plus one trailing newline; compact output is the compact document |
| Server.EncodingByClient | server/server.go:187-192 | curl output is the indented document followed by a newline; anyone else gets the compact document |
| Server.IsCurl | server/server.go:175-177 | a user agent is curl exactly when it is `curl/` followed by anything (a version) |
| Server.IsCurlExamples | server/server_test.go:17-35 | `curl/7.51.0` is curl; `curl`, `Mozilla` and the empty agent are not |
| Server.VerbRoutes | server/server.go:124-137 | a path adds at most one route per verb, all carrying the path's one compiled pattern |
| Server.StubServer.InitRouter | server/server.go:109-143 | the table built is `BuildRoutes(paths)`; the counts are the number of paths and of (path, verb) pairs |
| Server.AddVerbsLookup | server/server.go:124-137 | a path's routes are appended after the existing routes of each verb; no other key is added |
| Server.BuildRoutesLookup | server/server.go:113-137 | under each verb the table holds exactly the reference list `RoutesFor`, one route per (path, verb) pair with that upper-cased verb, in iteration order; the key exists exactly when that list is non-empty |
| Server.RoutesForAppend | server/server.go:115-137 | routes of later paths come after those of earlier ones |
| Server.EveryPairRouted | server/server.go:124-136 | every (path, verb) pair has its route, with the path's compiled pattern, under the upper-cased verb |
| Server.RoutesCount | server/server.go:124-137 | exactly one route per (path, verb) pair: the list under a verb is as long as the number of pairs whose verb upper-cases to it |
| Server.MethodNotNormalised | server/server.go:132-146 | table keys are upper case and the request method is not normalised, so a method that is not upper case finds no route |
| Server.FirstMatch | server/server.go:145-153 | the index of the first route accepting the path; none exactly when no route does; no earlier route accepts it |
| Server.StubServer.RouteRequest | server/server.go:145-153 | returns the first matching route under the request's method as given, or none when the method has no list or nothing matches |
| Server.StubServer.HandleRequest | server/server.go:36-106 | 404 exactly when no route matches, with `invalid-request` and `Unrecognized request URL (METHOD: PATH).`; 200 exactly when there is a "200" response, the query parses, has `symbols` and the fixture exists, with that fixture; every other outcome is the 500 internal error; curl gets indentation |
| ServerErrors.CreateAPIError | server/error.go:28-40 | nil result; the error info is exactly the given code and description |
| ServerErrors.CreateInternalServerError | server/error.go:23-25 | code `invalid-request`, description `An internal error occurred.` |
| ServerErrors.InternalErrorIsAPIError | server/error.go:23-25 | the internal error is `createAPIError(errorCode, errorDescription)` |
| ServerErrors.ToJson | server/error.go:8-20 | following the struct tags: one outer key `error`, inside it `result` then `error`, and inside that `code` then `description`; `result` is null exactly when the container's result is nil |
| ServerErrors.JsonRoundTrip | server/error.go:8-20 | the error document decodes back to the error it encodes |
| ServerErrors.ErrorDocumentShape | server/error.go:18-20 | the document is one field `error`; inside it `result` is null and the error code is the given code |
| YFinResponse.OuterKey | yfin/response.go:29-41 | `error`, `quoteResponse` and `chart` key the three envelopes, and each key belongs to one envelope only |
| YFinResponse.CreateQuote | yfin/response.go:44-50 | status 200, result exactly the given list, no error |
| YFinResponse.CreateChart | yfin/response.go:53-59 | status 200, a one-element result holding the chart, no error |
| YFinResponse.CreateAPIError | yfin/response.go:72-81 | nil result; the error holds exactly the given code and description |
| YFinResponse.CreateMissingSymbolsError | yfin/response.go:62-64 | status 400, `argument-error`, `Missing value for the "symbols" argument` |
| YFinResponse.CreateInternalServerError | yfin/response.go:67-69 | status 500, `invalid-request`, `An internal error occurred.` |
| YFinResponse.ConstructedConsistent | yfin/response.go:44-81 | across the constructors the error is nil exactly for status 200 and the result is nil exactly for errors |
| YFinResponse.ToJson | yfin/response.go:16-41 | following the struct tags: the envelope's only key is its outer key; `result` is null exactly when the result is nil and `error` null exactly when the error is nil |
| YFinResponse.ItemsFromJson | yfin/response.go:22-26 | decoding a result list keeps its length |
| YFinResponse.ItemsRoundTrip | yfin/response.go:22-26 | a result list decodes back to itself |
| YFinResponse.JsonRoundTrip | yfin/response.go:16-41 | every envelope decodes back to itself |
| YFinResponse.EnvelopeOuterKey | yfin/response.go:29-41 | an envelope's document has exactly one field, under its outer key |
| YFin.QuoteResults | server/yfin.go:68-79 | the quote list is never longer than the symbol list |
| YFin.Quote | server/yfin.go:56-82 | without `symbols`, the missing-symbols error; otherwise `CreateQuote` of the quote list for the comma-separated symbols and the upper-cased market |
| YFin.QuoteResultsAppend | server/yfin.go:69-79 | results follow the order of the symbol list: splitting the list splits the results |
| YFin.QuoteResultsSingle | server/yfin.go:71-78 | a symbol absent from the tree is skipped; a present one adds exactly its entry for the market state, possibly nil |
| YFin.QuoteResultsAligned | server/yfin.go:69-79 | when all symbols are present, slot `i` is the entry of symbol `i` |
| YFin.QuoteResultsFromTree | server/yfin.go:69-79 | each slot is the entry of some listed symbol in the tree; with no listed symbol in the tree the list is empty |
| YFin.QuoteExample | server/yfin.go:56-82 | `symbols=AAPL` in the post session gives that symbol's `POST` entry |
| YFin.TwoSymbolExample | server/yfin.go:65-79 | `AAPL,MSFT` gives both entries in that order, or only MSFT's when AAPL is absent |
| YFin.Chart | server/yfin.go:84-99 | status 200, a one-element result: the symbol's chart, or the tree's `error` chart when the symbol has none |
| YFin.QuoteScanNeedsNoChart | server/yfin.go:39-40 | a request the scan resolves to a quote entry places no demand on the chart tree |
| YFin.FirstResolving | server/yfin.go:34-50 | the first service path whose template matches and whose resource is quote, or chart with an unescapable symbol |
| YFin.DispatchFirst | server/yfin.go:34-53 | the scan answers from the first resolving path, and with the internal error when none resolves |
| YFin.Handle | server/yfin.go:23-54 | the reply is `HandleReply`: internal error on a parse failure, otherwise the scan over the service paths, matching the templates, not the request path |
| YFin.HandleInternalError | server/yfin.go:27-53 | 500 exactly when the query does not parse or no path resolves (no match, a resource other than quote/chart, or an unescapable chart symbol), and then the reply is the internal error |
| YFin.PlaceholderTemplateNeverResolves | server/yfin.go:36 | a template entry with a placeholder never resolves a request routed by its own pattern |
| Config.NextMarket | server/config.go:30-39 | the new market state is the requested value or the old state |
| Config.ConfigStatus | server/config.go:31-42 | the answer is 200 or 400 |
| Config.MarketConfig.HandleConfigRequest | server/config.go:25-43 | the state becomes `NextMarket(old, state)`; the reply is the status text at `ConfigStatus(state)` |
| Config.AcceptedExactly | server/config.go:28-31 | the accepted values are exactly `pre`, `regular`, `post`; the empty value is rejected |
| Config.ConfigOutcome | server/config.go:30-42 | a rejected value answers 400 and keeps the state; an accepted one answers 200 and becomes the state |
| Config.ValidStatePreserved | server/config.go:31-39 | a valid market state stays valid |
| Config.ConfigIdempotent | server/config.go:39 | setting the same value twice is the same as setting it once |

## Left out

- main.go: flag parsing, file reading, decoding the specification and fixtures, listeners. All of it is I/O and start-up.
- Logging (`utils.Log`, `fmt.Printf`), the `Verbose` pretty-print of the fixture, timing (`time.Now`) and the `Request-Id` header: output only.
- JSON text encoding and `http.StatusText`. The encoders are function parameters. `StatusText` covers only the four codes the server writes.
- The retry of `writeResponse` after an encoding failure (server/server.go:194-197), and the `ResponseWriter` writes.
- The RE2 engine. Patterns are segment lists, and `Matches` is the anchored expression's meaning. Literal segments are assumed free of regexp metacharacters, since the code pastes them in without escaping.
- `utils.ParseFormString` is a partial function parameter: its definition is not among the modelled sources, and this model assumes nothing about it.
- `url.PathUnescape` (percent-decoding, section 2.1 of RFC 3986) is a partial function parameter.
- Text.ToUpper: upper-cases ASCII letters only, where Go's `strings.ToUpper` follows Unicode.
- Go type assertions that would panic are preconditions or types instead. This covers `s.(string)`, the casts on the fixture tree, and a missing `error` chart. It also covers a fixture-tree entry whose value is nil rather than absent, which counts as absent.
- YFin.Handle: requires, when the query parses and the scan resolves to a chart entry, that the chart tree holds the unescaped symbol or an `error` entry. This is exactly the case in which Go's type assertion at server/yfin.go:96 would panic on a nil entry; a query that fails to parse (answered 500 at server/yfin.go:27-31) and requests that resolve to a quote entry or to nothing are unconstrained (`YFin.QuoteScanNeedsNoChart`).
- Server.StubServer.HandleRequest: a fixture resource present in the map with a nil value is modelled as absent.
- Go map iteration order: the model takes a fixed order, and every property holds for every order.
- Concurrency: the unsynchronised global `Market` is one field of one object, updated sequentially.
- fixture/fixtures.go has only types and constants. They are datatypes and constants here.
