/**
 * The stub server of server/server.go: the routing table built from the
 * specification's paths, route lookup, the decision chain of
 * `HandleRequest`, and the body and encoding choice of `writeResponse`.
 */
module Server {
  import opened Wrappers
  import opened Text
  import opened Fixture
  import opened Json
  import opened PathCompiler
  import opened ServerErrors
  import opened Http

  /** `fmt.Sprintf(invalidRoute, method, path)`. */
  function InvalidRouteDescription(verb: string, path: string): string
  {
    "Unrecognized request URL (" + verb + ": " + path + ")."
  }

  /** `stubServerRoute`: a compiled path and the operation it leads to. */
  datatype Route = Route(pattern: Pattern, operation: Operation)

  /** `Routes`: verb -> routes in the order they were added. */
  type RouteTable = map<string, seq<Route>>

  /** One entry of the specification's `Paths`: a template and its verbs, in iteration order. */
  datatype PathItem = PathItem(path: string, verbs: seq<(string, Operation)>)

  /** The parts of an HTTP request the server reads. */
  datatype Request = Request(verb: string, path: string, rawQuery: string, userAgent: string)

  /** The parsed query string (`ParseFormString`'s result). */
  type RequestData = map<string, string>

  /** The `data` handed to `writeResponse`. */
  datatype Payload =
    | ErrorBody(error: ResponseError)
    | FixtureBody(value: Value)
    | StatusTextBody(text: string)

  /** `json.Marshal` for other clients, `json.MarshalIndent` plus a newline for curl. */
  datatype Encoding = Compact | Indented

  /** What `writeResponse` writes: status, encoding and the value encoded. */
  datatype Written = Written(status: int, encoding: Encoding, body: Payload)

  // ---------------------------------------------------------------------
  // Responses

  /** `isCurl`: the user agent starts with "curl/". */
  predicate IsCurl(userAgent: string)
    ensures IsCurl(userAgent) <==> exists version :: userAgent == "curl/" + version
  {
    assert forall version :: ("curl/" + version)[..5] == "curl/";
    assert HasPrefix(userAgent, "curl/") ==> userAgent == "curl/" + userAgent[5..];
    HasPrefix(userAgent, "curl/")
  }

  /** The user agents of server/server_test.go. */
  lemma IsCurlExamples()
    ensures IsCurl("curl/7.51.0")
    ensures !IsCurl("curl") && !IsCurl("Mozilla") && !IsCurl("")
  {
    assert "curl/7.51.0"[..5] == "curl/";
    assert "Mozilla"[..5][0] == 'M';
  }

  /**
   * `writeResponse` without the write itself: a nil `data` becomes the status
   * text, and curl clients get the indented encoding.
   */
  function WriteResponse(status: int, data: Option<Payload>, userAgent: string): (w: Written)
    ensures w.status == status
    ensures w.body == data.GetOr(StatusTextBody(StatusText(status)))
    ensures w.encoding.Indented? <==> IsCurl(userAgent)
  {
    Written(status, if IsCurl(userAgent) then Indented else Compact,
            if data.Some? then data.value else StatusTextBody(StatusText(status)))
  }

  /** The document each payload encodes to. */
  function PayloadJson(p: Payload): Json
  {
    match p
    case ErrorBody(e) => ServerErrors.ToJson(e)
    case FixtureBody(v) => Raw(v)
    case StatusTextBody(t) => Str(t)
  }

  /** The bytes written, given the two encoders of `encoding/json`. */
  function Encode(w: Written, marshal: Json -> string, marshalIndent: Json -> string): (out: string)
    ensures w.encoding.Indented? ==> |out| == |marshalIndent(PayloadJson(w.body))| + 1 && out[|out| - 1] == '\n'
    ensures w.encoding.Indented? ==> out[..|out| - 1] == marshalIndent(PayloadJson(w.body))
    ensures w.encoding.Compact? ==> out == marshal(PayloadJson(w.body))
  {
    if w.encoding.Indented? then marshalIndent(PayloadJson(w.body)) + "\n"
    else marshal(PayloadJson(w.body))
  }

  /** A curl client's output is the indented document and a newline; anyone else's is compact. */
  lemma EncodingByClient(status: int, data: Option<Payload>, userAgent: string,
                         marshal: Json -> string, marshalIndent: Json -> string)
    ensures var out := Encode(WriteResponse(status, data, userAgent), marshal, marshalIndent);
            var doc := PayloadJson(data.GetOr(StatusTextBody(StatusText(status))));
            if IsCurl(userAgent) then out == marshalIndent(doc) + "\n" && out[|out| - 1] == '\n'
            else out == marshal(doc)
  {
  }

  // ---------------------------------------------------------------------
  // The routing table

  /** The routes an item's verbs add under the upper-cased verb `v`, in order. */
  function VerbRoutes(pattern: Pattern, verbs: seq<(string, Operation)>, v: string): (r: seq<Route>)
    ensures |r| <= |verbs|
    ensures forall k :: 0 <= k < |r| ==> r[k].pattern == pattern
  {
    if verbs == [] then []
    else
      var last := verbs[|verbs| - 1];
      VerbRoutes(pattern, verbs[..|verbs| - 1], v)
      + (if ToUpper(last.0) == v then [Route(pattern, last.1)] else [])
  }

  /** Reference definition: every (path, verb) pair in order, one route each, grouped by upper-cased verb. */
  function RoutesFor(paths: seq<PathItem>, v: string): seq<Route>
  {
    if paths == [] then []
    else
      var last := paths[|paths| - 1];
      RoutesFor(paths[..|paths| - 1], v) + VerbRoutes(Compile(last.path), last.verbs, v)
  }

  /** The routes under a verb; a missing verb reads as an empty list, as a nil slice does. */
  function RoutesOf(table: RouteTable, v: string): seq<Route>
  {
    if v in table then table[v] else []
  }

  /** `s.Routes[verb] = append(s.Routes[verb], route)`, for each verb in turn. */
  function AddVerbs(table: RouteTable, pattern: Pattern, verbs: seq<(string, Operation)>): RouteTable
  {
    if verbs == [] then table
    else
      var t := AddVerbs(table, pattern, verbs[..|verbs| - 1]);
      var last := verbs[|verbs| - 1];
      var v := ToUpper(last.0);
      t[v := RoutesOf(t, v) + [Route(pattern, last.1)]]
  }

  /** The table `InitRouter` leaves behind. */
  function BuildRoutes(paths: seq<PathItem>): RouteTable
  {
    if paths == [] then map[]
    else
      var last := paths[|paths| - 1];
      AddVerbs(BuildRoutes(paths[..|paths| - 1]), Compile(last.path), last.verbs)
  }

  /** The number of (path, verb) pairs. */
  function TotalVerbs(paths: seq<PathItem>): nat
  {
    if paths == [] then 0 else TotalVerbs(paths[..|paths| - 1]) + |paths[|paths| - 1].verbs|
  }

  /** Adding an item's verbs appends its routes after the existing ones, and adds no other key. */
  lemma {:induction false} AddVerbsLookup(table: RouteTable, pattern: Pattern,
                                          verbs: seq<(string, Operation)>, v: string)
    ensures RoutesOf(AddVerbs(table, pattern, verbs), v) == RoutesOf(table, v) + VerbRoutes(pattern, verbs, v)
    ensures v in AddVerbs(table, pattern, verbs) <==> v in table || VerbRoutes(pattern, verbs, v) != []
  {
    if verbs != [] {
      var init := verbs[..|verbs| - 1];
      var last := verbs[|verbs| - 1];
      var t := AddVerbs(table, pattern, init);
      var u := ToUpper(last.0);
      var added := RoutesOf(t, u) + [Route(pattern, last.1)];
      AddVerbsLookup(table, pattern, init, v);
      assert AddVerbs(table, pattern, verbs) == t[u := added];
      assert VerbRoutes(pattern, verbs, v)
             == VerbRoutes(pattern, init, v) + (if u == v then [Route(pattern, last.1)] else []);
      if u == v {
        assert RoutesOf(t[u := added], v) == added;
      } else {
        assert RoutesOf(t[u := added], v) == RoutesOf(t, v);
        assert v in t[u := added] <==> v in t;
      }
    }
  }

  /**
   * The table holds, under every verb, exactly the reference routes: one per
   * (path, verb) pair whose upper-cased verb it is, in order, each with its
   * path's compiled pattern; and it has a key exactly where that list is not empty.
   */
  lemma {:induction false} BuildRoutesLookup(paths: seq<PathItem>, v: string)
    ensures RoutesOf(BuildRoutes(paths), v) == RoutesFor(paths, v)
    ensures v in BuildRoutes(paths) <==> RoutesFor(paths, v) != []
  {
    if paths != [] {
      var last := paths[|paths| - 1];
      BuildRoutesLookup(paths[..|paths| - 1], v);
      AddVerbsLookup(BuildRoutes(paths[..|paths| - 1]), Compile(last.path), last.verbs, v);
    }
  }

  /** Routes of later paths come after those of earlier ones. */
  lemma {:induction false} RoutesForAppend(a: seq<PathItem>, b: seq<PathItem>, v: string)
    ensures RoutesFor(a + b, v) == RoutesFor(a, v) + RoutesFor(b, v)
    decreases |b|
  {
    if b == [] {
      assert a + b == a;
    } else {
      var init, last := b[..|b| - 1], b[|b| - 1];
      assert (a + b)[..|a + b| - 1] == a + init;
      assert (a + b)[|a + b| - 1] == last;
      RoutesForAppend(a, init, v);
      var added := VerbRoutes(Compile(last.path), last.verbs, v);
      assert RoutesFor(a + b, v) == RoutesFor(a + init, v) + added;
      assert RoutesFor(b, v) == RoutesFor(init, v) + added;
    }
  }

  /** Each (path, verb) pair has its route, with that path's pattern, under the upper-cased verb. */
  lemma {:induction false} EveryPairRouted(paths: seq<PathItem>, k: nat, j: nat)
    requires k < |paths| && j < |paths[k].verbs|
    ensures Route(Compile(paths[k].path), paths[k].verbs[j].1)
            in RoutesFor(paths, ToUpper(paths[k].verbs[j].0))
  {
    var v := ToUpper(paths[k].verbs[j].0);
    var item := paths[k];
    assert paths == paths[..k] + [item] + paths[k + 1..];
    RoutesForAppend(paths[..k] + [item], paths[k + 1..], v);
    RoutesForAppend(paths[..k], [item], v);
    assert [item][..0] == [];
    VerbRouted(Compile(item.path), item.verbs, j);
  }

  lemma {:induction false} VerbRouted(pattern: Pattern, verbs: seq<(string, Operation)>, j: nat)
    requires j < |verbs|
    ensures Route(pattern, verbs[j].1) in VerbRoutes(pattern, verbs, ToUpper(verbs[j].0))
  {
    var n := |verbs| - 1;
    if j < n {
      VerbRouted(pattern, verbs[..n], j);
    }
  }

  /** The number of an item's verbs that upper-case to `v`. */
  function VerbsUnder(verbs: seq<(string, Operation)>, v: string): nat
  {
    if verbs == [] then 0
    else VerbsUnder(verbs[..|verbs| - 1], v) + (if ToUpper(verbs[|verbs| - 1].0) == v then 1 else 0)
  }

  /** The number of (path, verb) pairs whose verb upper-cases to `v`. */
  function PairsUnder(paths: seq<PathItem>, v: string): nat
  {
    if paths == [] then 0
    else PairsUnder(paths[..|paths| - 1], v) + VerbsUnder(paths[|paths| - 1].verbs, v)
  }

  lemma {:induction false} VerbRoutesCount(pattern: Pattern, verbs: seq<(string, Operation)>, v: string)
    ensures |VerbRoutes(pattern, verbs, v)| == VerbsUnder(verbs, v)
  {
    if verbs != [] {
      VerbRoutesCount(pattern, verbs[..|verbs| - 1], v);
    }
  }

  /** Exactly one route per (path, verb) pair: each verb's list is as long as its number of pairs. */
  lemma {:induction false} RoutesCount(paths: seq<PathItem>, v: string)
    ensures |RoutesFor(paths, v)| == PairsUnder(paths, v)
  {
    if paths != [] {
      var last := paths[|paths| - 1];
      RoutesCount(paths[..|paths| - 1], v);
      VerbRoutesCount(Compile(last.path), last.verbs, v);
    }
  }

  /** Upper-casing is idempotent. */
  lemma ToUpperIdempotent(s: string)
    ensures ToUpper(ToUpper(s)) == ToUpper(s)
  {
  }

  /**
   * Every key of the table is upper case, so a request whose method is not
   * upper case finds no route: the request method is not normalised.
   */
  lemma {:induction false} MethodNotNormalised(paths: seq<PathItem>, verb: string)
    requires ToUpper(verb) != verb
    ensures verb !in BuildRoutes(paths) && RoutesOf(BuildRoutes(paths), verb) == []
  {
    BuildRoutesLookup(paths, verb);
    NoRoutesUnderLowerCase(paths, verb);
  }

  lemma {:induction false} NoRoutesUnderLowerCase(paths: seq<PathItem>, v: string)
    requires ToUpper(v) != v
    ensures RoutesFor(paths, v) == []
  {
    if paths != [] {
      NoRoutesUnderLowerCase(paths[..|paths| - 1], v);
      NoVerbRoutesUnderLowerCase(Compile(paths[|paths| - 1].path), paths[|paths| - 1].verbs, v);
    }
  }

  lemma {:induction false} NoVerbRoutesUnderLowerCase(pattern: Pattern, verbs: seq<(string, Operation)>, v: string)
    requires ToUpper(v) != v
    ensures VerbRoutes(pattern, verbs, v) == []
  {
    if verbs != [] {
      NoVerbRoutesUnderLowerCase(pattern, verbs[..|verbs| - 1], v);
      ToUpperIdempotent(verbs[|verbs| - 1].0);
    }
  }

  // ---------------------------------------------------------------------
  // Route lookup

  /** The index of the first route whose pattern accepts `path`. */
  function FirstMatch(routes: seq<Route>, path: string): (r: Option<nat>)
    ensures r.None? <==> forall i :: 0 <= i < |routes| ==> !Matches(routes[i].pattern, path)
    ensures r.Some? ==> r.value < |routes| && Matches(routes[r.value].pattern, path)
    ensures r.Some? ==> forall i :: 0 <= i < r.value ==> !Matches(routes[i].pattern, path)
  {
    if routes == [] then None
    else if Matches(routes[0].pattern, path) then Some(0)
    else
      var rest := FirstMatch(routes[1..], path);
      assert forall i :: 1 <= i < |routes| ==> routes[i] == routes[1..][i - 1];
      if rest.None? then None else Some(rest.value + 1)
  }

  /** The fixture a matched operation's "200" response names; "" when it names none. */
  function ResourceOf(op: Operation): string
    requires "200" in op.responses
  {
    var content := op.responses["200"].content;
    if "resource" in content then content["resource"] else ""
  }

  /** Every check of `HandleRequest` passes for this request. */
  predicate Serves(routes: seq<Route>, req: Request, query: Option<RequestData>, fixtures: map<string, Value>)
  {
    var m := FirstMatch(routes, req.path);
    m.Some? && "200" in routes[m.value].operation.responses
    && query.Some? && "symbols" in query.value
    && ResourceOf(routes[m.value].operation) in fixtures
  }

  class StubServer {
    /** `s.Fixtures.Resources`: resource id -> fixture. */
    const fixtures: map<string, Value>
    /** `s.Routes`. */
    var routes: RouteTable

    constructor (fixtures: map<string, Value>)
      ensures this.fixtures == fixtures && routes == map[]
    {
      this.fixtures := fixtures;
      routes := map[];
    }

    /**
     * `InitRouter`: compiles each path once and appends one route per verb
     * under the upper-cased verb; returns the path and endpoint counts it reports.
     */
    method InitRouter(paths: seq<PathItem>) returns (numPaths: nat, numEndpoints: nat)
      modifies this
      ensures routes == BuildRoutes(paths)
      ensures numPaths == |paths| && numEndpoints == TotalVerbs(paths)
    {
      numPaths, numEndpoints := 0, 0;
      routes := map[];
      var i := 0;
      while i < |paths|
        invariant 0 <= i <= |paths|
        invariant routes == BuildRoutes(paths[..i])
        invariant numPaths == i && numEndpoints == TotalVerbs(paths[..i])
      {
        var item := paths[i];
        assert paths[..i + 1][..i] == paths[..i];
        numPaths := numPaths + 1;
        var pattern := CompilePath(item.path);
        var j := 0;
        while j < |item.verbs|
          invariant 0 <= j <= |item.verbs|
          invariant routes == AddVerbs(BuildRoutes(paths[..i]), pattern, item.verbs[..j])
          invariant numEndpoints == TotalVerbs(paths[..i]) + j
        {
          numEndpoints := numEndpoints + 1;
          var (verb, operation) := item.verbs[j];
          var route := Route(pattern, operation);
          var upper := ToUpper(verb);
          assert item.verbs[..j + 1][..j] == item.verbs[..j];
          routes := routes[upper := RoutesOf(routes, upper) + [route]];
          j := j + 1;
        }
        assert item.verbs[..j] == item.verbs;
        i := i + 1;
      }
      assert paths[..i] == paths;
    }

    /** `routeRequest`: the first route under the request's method whose pattern accepts its path. */
    method RouteRequest(req: Request) returns (route: Option<Route>)
      ensures var m := FirstMatch(RoutesOf(routes, req.verb), req.path);
              route == if m.Some? then Some(RoutesOf(routes, req.verb)[m.value]) else None
    {
      var verbRoutes := RoutesOf(routes, req.verb);
      var i := 0;
      while i < |verbRoutes|
        invariant 0 <= i <= |verbRoutes|
        invariant forall k :: 0 <= k < i ==> !Matches(verbRoutes[k].pattern, req.path)
      {
        if Matches(verbRoutes[i].pattern, req.path) {
          return Some(verbRoutes[i]);
        }
        i := i + 1;
      }
      return None;
    }
  
    /**
     * `HandleRequest`: 404 when no route matches; 500 when the route has no
     * "200" response, the query does not parse, it has no `symbols` or the
     * named fixture is missing; otherwise 200 with that fixture.
     * `parse` stands for `ParseFormString`.
     */
    method HandleRequest(req: Request, parse: string -> Option<RequestData>) returns (w: Written)
      ensures var m := FirstMatch(RoutesOf(routes, req.verb), req.path);
              m.None? <==> w.status == StatusNotFound
      ensures w.status == StatusNotFound ==>
                w.body == ErrorBody(CreateAPIError(ErrorCode, InvalidRouteDescription(req.verb, req.path)))
      ensures var rs := RoutesOf(routes, req.verb);
              Serves(rs, req, parse(req.rawQuery), fixtures) <==> w.status == StatusOK
      ensures w.status == StatusOK ==>
                var rs := RoutesOf(routes, req.verb);
                w.body == FixtureBody(fixtures[ResourceOf(rs[FirstMatch(rs, req.path).value].operation)])
      ensures w.status == StatusNotFound || w.status == StatusOK || w.status == StatusInternalServerError
      ensures w.status == StatusInternalServerError ==> w.body == ErrorBody(CreateInternalServerError())
      ensures w.encoding.Indented? <==> IsCurl(req.userAgent)
    {
      var route := RouteRequest(req);
      if route.None? {
        var description := InvalidRouteDescription(req.verb, req.path);
        var apiError := CreateAPIError(ErrorCode, description);
        return WriteResponse(StatusNotFound, Some(ErrorBody(apiError)), req.userAgent);
      }

      if "200" !in route.value.operation.responses {
        return WriteResponse(StatusInternalServerError, Some(ErrorBody(CreateInternalServerError())), req.userAgent);
      }

      var requestData := parse(req.rawQuery);
      if requestData.None? {
        return WriteResponse(StatusInternalServerError, Some(ErrorBody(CreateInternalServerError())), req.userAgent);
      }

      if "symbols" !in requestData.value {
        return WriteResponse(StatusInternalServerError, Some(ErrorBody(CreateInternalServerError())), req.userAgent);
      }

      var resourceID := ResourceOf(route.value.operation);
      if resourceID !in fixtures {
        return WriteResponse(StatusInternalServerError, Some(ErrorBody(CreateInternalServerError())), req.userAgent);
      }

      return WriteResponse(StatusOK, Some(FixtureBody(fixtures[resourceID])), req.userAgent);
    }
  }
}
