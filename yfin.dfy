/**
 * The Yahoo-finance service of server/yfin.go: picking the resource a
 * request asks for, and resolving quotes and charts against the fixture trees.
 */
module YFin {
  import opened Wrappers
  import opened Text
  import opened Fixture
  import opened PathCompiler
  import opened YFinResponse
  import opened Http
  import Server

  /** `YFinService`: the service's specification and its fixture trees. */
  datatype YFinService = YFinService(service: Service, resources: Resources)

  // ---------------------------------------------------------------------
  // Quotes

  /** `quoteMap[key]`: the entry for one market state, nil when it has none. */
  function StateEntry(entries: map<string, Option<Value>>, key: string): Option<Value>
  {
    if key in entries then entries[key] else None
  }

  /** The quote list for `symbols`: one slot per symbol in the tree, in order; absent symbols are skipped. */
  function QuoteResults(symbols: seq<string>, tree: QuoteTree, key: string): (r: seq<Option<Value>>)
    ensures |r| <= |symbols|
  {
    if symbols == [] then []
    else
      var last := symbols[|symbols| - 1];
      QuoteResults(symbols[..|symbols| - 1], tree, key)
      + (if last in tree then [StateEntry(tree[last], key)] else [])
  }

  /** What `quote` returns. */
  function QuoteReply(data: Server.RequestData, tree: QuoteTree, market: string): Reply
  {
    if "symbols" !in data then CreateMissingSymbolsError()
    else CreateQuote(QuoteResults(Split(data["symbols"], ','), tree, ToUpper(market)))
  }

  /**
   * `quote`: without a `symbols` argument, the missing-symbols error; otherwise
   * the entries under the upper-cased market state of every listed symbol the
   * tree holds, in list order.
   */
  method Quote(y: YFinService, data: Server.RequestData, market: string) returns (r: Reply)
    ensures "symbols" !in data ==> r == CreateMissingSymbolsError()
    ensures "symbols" in data ==>
              r == CreateQuote(QuoteResults(Split(data["symbols"], ','), y.resources.quotes, ToUpper(market)))
  {
    if "symbols" !in data {
      return CreateMissingSymbolsError();
    }
    var symbolList := Split(data["symbols"], ',');
    var resourceTree := y.resources.quotes;
    var key := ToUpper(market);
    var quotes: seq<Option<Value>> := [];
    var i := 0;
    while i < |symbolList|
      invariant 0 <= i <= |symbolList|
      invariant quotes == QuoteResults(symbolList[..i], resourceTree, key)
    {
      var symbol := symbolList[i];
      assert symbolList[..i + 1][..i] == symbolList[..i];
      if symbol !in resourceTree {
        i := i + 1;
        continue;
      }
      var quoteMap := resourceTree[symbol];
      var q := StateEntry(quoteMap, key);
      quotes := quotes + [q];
      i := i + 1;
    }
    assert symbolList[..i] == symbolList;
    return CreateQuote(quotes);
  }

  /** The quote list of a concatenation of symbol lists is the concatenation of their lists: order is kept. */
  lemma {:induction false} QuoteResultsAppend(a: seq<string>, b: seq<string>, tree: QuoteTree, key: string)
    ensures QuoteResults(a + b, tree, key) == QuoteResults(a, tree, key) + QuoteResults(b, tree, key)
    decreases |b|
  {
    if b == [] {
      assert a + b == a;
    } else {
      var init, last := b[..|b| - 1], b[|b| - 1];
      assert (a + b)[..|a + b| - 1] == a + init;
      assert (a + b)[|a + b| - 1] == last;
      QuoteResultsAppend(a, init, tree, key);
      var added := if last in tree then [StateEntry(tree[last], key)] else [];
      assert QuoteResults(a + b, tree, key) == QuoteResults(a + init, tree, key) + added;
      assert QuoteResults(b, tree, key) == QuoteResults(init, tree, key) + added;
    }
  }

  /** One symbol contributes one slot, its state entry (possibly nil), when the tree has it, and none otherwise. */
  lemma QuoteResultsSingle(symbol: string, tree: QuoteTree, key: string)
    ensures QuoteResults([symbol], tree, key)
            == if symbol in tree then [StateEntry(tree[symbol], key)] else []
  {
    assert [symbol][..0] == [];
  }

  /** When every listed symbol is in the tree, slot `i` holds the entry of the `i`-th symbol. */
  lemma {:induction false} QuoteResultsAligned(symbols: seq<string>, tree: QuoteTree, key: string)
    requires forall i :: 0 <= i < |symbols| ==> symbols[i] in tree
    ensures |QuoteResults(symbols, tree, key)| == |symbols|
    ensures forall i :: 0 <= i < |symbols| ==>
              QuoteResults(symbols, tree, key)[i] == StateEntry(tree[symbols[i]], key)
  {
    if symbols != [] {
      QuoteResultsAligned(symbols[..|symbols| - 1], tree, key);
    }
  }

  /** `v` is the state entry of one of the listed symbols the tree holds. */
  ghost predicate EntryOfListed(v: Option<Value>, symbols: seq<string>, tree: QuoteTree, key: string)
  {
    exists i :: 0 <= i < |symbols| && symbols[i] in tree && v == StateEntry(tree[symbols[i]], key)
  }

  /** The slots are the entries of the listed symbols the tree holds, and of nothing else. */
  lemma {:induction false} QuoteResultsFromTree(symbols: seq<string>, tree: QuoteTree, key: string)
    ensures forall k :: 0 <= k < |QuoteResults(symbols, tree, key)| ==>
              EntryOfListed(QuoteResults(symbols, tree, key)[k], symbols, tree, key)
    ensures (forall i :: 0 <= i < |symbols| ==> symbols[i] !in tree) ==> QuoteResults(symbols, tree, key) == []
  {
    if symbols != [] {
      var last := |symbols| - 1;
      var init := symbols[..last];
      QuoteResultsFromTree(init, tree, key);
      var front := QuoteResults(init, tree, key);
      var r := QuoteResults(symbols, tree, key);
      assert r == front + (if symbols[last] in tree then [StateEntry(tree[symbols[last]], key)] else []);
      forall k | 0 <= k < |r|
        ensures EntryOfListed(r[k], symbols, tree, key)
      {
        if k < |front| {
          assert EntryOfListed(front[k], init, tree, key);
          var i :| 0 <= i < |init| && init[i] in tree && front[k] == StateEntry(tree[init[i]], key);
          assert symbols[i] == init[i];
        } else {
          assert symbols[last] in tree && r[k] == StateEntry(tree[symbols[last]], key);
        }
      }
    }
  }

  /** The example request `symbols=AAPL` in the post-market session. */
  lemma QuoteExample(q: Value)
    ensures QuoteReply(map["symbols" := "AAPL"], map["AAPL" := map["POST" := Some(q)]], "post")
            == CreateQuote([Some(q)])
  {
    SplitNoSep("AAPL", ',');
    assert ToUpper("post") == "POST";
    QuoteResultsSingle("AAPL", map["AAPL" := map["POST" := Some(q)]], "POST");
  }

  /** `symbols=AAPL,MSFT` gives the two entries in that order, or only the one the tree has. */
  lemma TwoSymbolExample(tree: QuoteTree, key: string)
    ensures "AAPL" in tree && "MSFT" in tree ==>
              QuoteResults(Split("AAPL,MSFT", ','), tree, key)
              == [StateEntry(tree["AAPL"], key), StateEntry(tree["MSFT"], key)]
    ensures "AAPL" !in tree && "MSFT" in tree ==>
              QuoteResults(Split("AAPL,MSFT", ','), tree, key) == [StateEntry(tree["MSFT"], key)]
  {
    var parts := ["AAPL", "MSFT"];
    SplitJoin(parts, ',');
    assert Join(parts[1..], ',') == "MSFT";
    assert Join(parts, ',') == "AAPL,MSFT";
    QuoteResultsAppend(["AAPL"], ["MSFT"], tree, key);
    assert ["AAPL"] + ["MSFT"] == parts;
    QuoteResultsSingle("AAPL", tree, key);
    QuoteResultsSingle("MSFT", tree, key);
  }

  // ---------------------------------------------------------------------
  // Charts

  /** The fixture `chart` reads for `symbol`, falling back to the "error" entry. */
  predicate ChartDefined(charts: ChartTree, symbol: string)
  {
    symbol in charts || "error" in charts
  }

  /** `chart`: 200 with the symbol's chart, or the "error" chart when the symbol has none. */
  function Chart(y: YFinService, symbol: string, data: Server.RequestData): (r: Reply)
    requires ChartDefined(y.resources.charts, symbol)
    ensures r.status == StatusOK && r.body.ChartResponse? && r.body.response.error.None?
    ensures symbol in y.resources.charts ==> r.body.response.result == Some([Some(y.resources.charts[symbol])])
    ensures symbol !in y.resources.charts ==> r.body.response.result == Some([Some(y.resources.charts["error"])])
  {
    var resourceTree := y.resources.charts;
    var chartMap := if symbol in resourceTree then resourceTree[symbol] else resourceTree["error"];
    CreateChart(chartMap)
  }

  // ---------------------------------------------------------------------
  // Picking the resource

  /** Whether the path entry `(p, op)` ends `Handle`'s scan: its template matches and its resource is handled. */
  predicate Resolves(rte: Pattern, p: string, op: Operation, symbol: Option<string>)
  {
    Matches(rte, p) && (op.resourceID == YFinQuotes || (op.resourceID == YFinChart && symbol.Some?))
  }

  /**
   * Where the scan lands on a chart entry, the chart lookup is defined for the
   * request's symbol: the one case in which `chart` dereferences the tree.
   */
  predicate ChartLookupDefined(charts: ChartTree, paths: seq<(string, Operation)>, rte: Pattern,
                               symbol: Option<string>)
  {
    var k := FirstResolving(paths, rte, symbol);
    k.Some? && paths[k.value].1.resourceID == YFinChart ==> symbol.Some? && ChartDefined(charts, symbol.value)
  }

  /** A scan that resolves to a quote entry needs nothing of the chart tree. */
  lemma QuoteScanNeedsNoChart(charts: ChartTree, paths: seq<(string, Operation)>, rte: Pattern,
                              symbol: Option<string>)
    requires FirstResolving(paths, rte, symbol).Some?
    requires paths[FirstResolving(paths, rte, symbol).value].1.resourceID == YFinQuotes
    ensures ChartLookupDefined(charts, paths, rte, symbol)
  {
  }

  /** The scan of `Handle`'s loop over the service paths, first to last. */
  function Dispatch(y: YFinService, paths: seq<(string, Operation)>, rte: Pattern, data: Server.RequestData,
                    symbol: Option<string>, market: string): Reply
    requires ChartLookupDefined(y.resources.charts, paths, rte, symbol)
  {
    if paths == [] then CreateInternalServerError()
    else
      var (p, op) := paths[0];
      if Matches(rte, p) && op.resourceID == YFinQuotes then QuoteReply(data, y.resources.quotes, market)
      else if Matches(rte, p) && op.resourceID == YFinChart && symbol.Some? then Chart(y, symbol.value, data)
      else Dispatch(y, paths[1..], rte, data, symbol, market)
  }

  /** The reply for the path entry that resolves the request. */
  function Resolve(y: YFinService, op: Operation, data: Server.RequestData, symbol: Option<string>, market: string): Reply
    requires op.resourceID == YFinQuotes || (op.resourceID == YFinChart && symbol.Some?)
    requires op.resourceID == YFinChart ==> ChartDefined(y.resources.charts, symbol.value)
  {
    if op.resourceID == YFinQuotes then QuoteReply(data, y.resources.quotes, market)
    else Chart(y, symbol.value, data)
  }

  /** The index of the first path entry that resolves the request. */
  function FirstResolving(paths: seq<(string, Operation)>, rte: Pattern, symbol: Option<string>): (r: Option<nat>)
    ensures r.None? <==> forall i :: 0 <= i < |paths| ==> !Resolves(rte, paths[i].0, paths[i].1, symbol)
    ensures r.Some? ==> r.value < |paths| && Resolves(rte, paths[r.value].0, paths[r.value].1, symbol)
    ensures r.Some? ==> forall i :: 0 <= i < r.value ==> !Resolves(rte, paths[i].0, paths[i].1, symbol)
  {
    if paths == [] then None
    else if Resolves(rte, paths[0].0, paths[0].1, symbol) then Some(0)
    else
      var rest := FirstResolving(paths[1..], rte, symbol);
      assert forall i :: 1 <= i < |paths| ==> paths[i] == paths[1..][i - 1];
      if rest.None? then None else Some(rest.value + 1)
  }

  /**
   * The scan answers from the first entry that resolves the request, and with
   * the internal error when no entry does.
   */
  lemma {:induction false} DispatchFirst(y: YFinService, paths: seq<(string, Operation)>, rte: Pattern,
                                         data: Server.RequestData, symbol: Option<string>, market: string)
    requires ChartLookupDefined(y.resources.charts, paths, rte, symbol)
    ensures var k := FirstResolving(paths, rte, symbol);
            Dispatch(y, paths, rte, data, symbol, market)
            == if k.None? then CreateInternalServerError() else Resolve(y, paths[k.value].1, data, symbol, market)
  {
    if paths != [] && !Resolves(rte, paths[0].0, paths[0].1, symbol) {
      DispatchFirst(y, paths[1..], rte, data, symbol, market);
    }
  }

  /** What `Handle` returns; `parse` and `unescape` stand for `ParseFormString` and `url.PathUnescape`. */
  function HandleReply(y: YFinService, req: Server.Request, rte: Pattern,
                       parse: string -> Option<Server.RequestData>, unescape: string -> Option<string>,
                       market: string): Reply
    requires parse(req.rawQuery).Some? ==> ChartLookupDefined(y.resources.charts, y.service.paths, rte, unescape(Base(req.path)))
  {
    var requestData := parse(req.rawQuery);
    if requestData.None? then CreateInternalServerError()
    else Dispatch(y, y.service.paths, rte, requestData.value, unescape(Base(req.path)), market)
  }

  /**
   * `YFinService.Handle`: scans the service paths in order for one whose
   * template string `rte` matches, and answers with the quote or chart
   * resource; a chart whose symbol does not unescape is passed over.
   */
  method Handle(y: YFinService, req: Server.Request, rte: Pattern,
                parse: string -> Option<Server.RequestData>, unescape: string -> Option<string>,
                market: string) returns (r: Reply)
    requires parse(req.rawQuery).Some? ==> ChartLookupDefined(y.resources.charts, y.service.paths, rte, unescape(Base(req.path)))
    ensures r == HandleReply(y, req, rte, parse, unescape, market)
  {
    var requestData := parse(req.rawQuery);
    if requestData.None? {
      return CreateInternalServerError();
    }
    var data := requestData.value;
    var paths := y.service.paths;
    ghost var symbolOpt := unescape(Base(req.path));
    var i := 0;
    while i < |paths|
      invariant 0 <= i <= |paths|
      invariant ChartLookupDefined(y.resources.charts, paths[i..], rte, symbolOpt)
      invariant Dispatch(y, paths[i..], rte, data, symbolOpt, market) == Dispatch(y, paths, rte, data, symbolOpt, market)
    {
      var (p, op) := paths[i];
      assert paths[i..][1..] == paths[i + 1..];
      if Matches(rte, p) {
        if op.resourceID == YFinQuotes {
          r := Quote(y, data, market);
          return;
        } else if op.resourceID == YFinChart {
          var symbol := unescape(Base(req.path));
          if symbol.Some? {
            return Chart(y, symbol.value, data);
          }
        }
      }
      i := i + 1;
    }
    return CreateInternalServerError();
  }

  /**
   * `Handle` answers 500 with the internal error exactly when the query does
   * not parse or no service path both matches and names a resource it can
   * serve (quote, or chart with an unescapable symbol).
   */
  lemma HandleInternalError(y: YFinService, req: Server.Request, rte: Pattern,
                            parse: string -> Option<Server.RequestData>, unescape: string -> Option<string>,
                            market: string)
    requires parse(req.rawQuery).Some? ==> ChartLookupDefined(y.resources.charts, y.service.paths, rte, unescape(Base(req.path)))
    ensures var r := HandleReply(y, req, rte, parse, unescape, market);
            var none := FirstResolving(y.service.paths, rte, unescape(Base(req.path))).None?;
            (r.status == StatusInternalServerError <==> parse(req.rawQuery).None? || none)
            && (r.status == StatusInternalServerError ==> r == CreateInternalServerError())
  {
    var data := parse(req.rawQuery);
    if data.Some? {
      DispatchFirst(y, y.service.paths, rte, data.value, unescape(Base(req.path)), market);
    }
  }

  /**
   * `Handle` matches `rte` against the template strings, not the request
   * path; a template containing a placeholder never matches its own pattern,
   * so such an entry can never resolve a request routed to it.
   */
  lemma PlaceholderTemplateNeverResolves(t: string, op: Operation, symbol: Option<string>, i: nat)
    requires i < |Compile(t)| && Compile(t)[i].Param?
    ensures !Resolves(Compile(t), t, op, symbol)
  {
    TemplateMissesOwnPattern(t, i);
  }
}
