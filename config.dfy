/** The market-session switch of server/config.go. */
module Config {
  import opened Wrappers
  import Utils
  import Server
  import Http

  /** The three market sessions. */
  const MarketStatePre: string := "pre"
  const MarketStateRegular: string := "regular"
  const MarketStatePost: string := "post"

  /** The values `HandleConfigRequest` accepts. */
  const ValidStates: seq<string> := [MarketStatePre, MarketStateRegular, MarketStatePost]

  predicate ValidState(s: string)
  {
    s in ValidStates
  }

  /** The request's `state` form value is accepted: it is non-empty and names a session. */
  predicate Accepted(newState: string)
  {
    newState != "" && ValidState(newState)
  }

  /** The market state after a request with form value `newState`. */
  function NextMarket(market: string, newState: string): (m: string)
    ensures m == newState || m == market
  {
    if Accepted(newState) then newState else market
  }

  /** The status a request with form value `newState` is answered with. */
  function ConfigStatus(newState: string): (status: int)
    ensures status == Http.StatusOK || status == Http.StatusBadRequest
  {
    if Accepted(newState) then Http.StatusOK else Http.StatusBadRequest
  }

  /** The global `Market`, held by the object that handles config requests. */
  class MarketConfig {
    var market: string

    constructor(initial: string)
      ensures market == initial
    {
      market := initial;
    }

    /**
     * `HandleConfigRequest`: a valid non-empty `state` becomes the market
     * state and is answered 200; anything else is answered 400 and leaves the
     * state alone. Either way the body is the status text.
     */
    method HandleConfigRequest(newState: string, userAgent: string) returns (w: Server.Written)
      modifies this
      ensures market == NextMarket(old(market), newState)
      ensures w == Server.WriteResponse(ConfigStatus(newState), None, userAgent)
    {
      var validStates := [MarketStatePre, MarketStateRegular, MarketStatePost];
      var found, _ := Utils.Contains(validStates, newState);
      if newState == "" || !found {
        w := Server.WriteResponse(Http.StatusBadRequest, None, userAgent);
        return;
      }
      market := newState;
      w := Server.WriteResponse(Http.StatusOK, None, userAgent);
    }
  }

  /** The accepted values are exactly "pre", "regular" and "post"; the empty value is not one of them. */
  lemma AcceptedExactly(newState: string)
    ensures Accepted(newState) <==> newState == "pre" || newState == "regular" || newState == "post"
    ensures !Accepted("")
  {
  }

  /** A rejected value answers 400 and keeps the state; an accepted one answers 200 and becomes the state. */
  lemma ConfigOutcome(market: string, newState: string)
    ensures !Accepted(newState) ==> ConfigStatus(newState) == Http.StatusBadRequest && NextMarket(market, newState) == market
    ensures Accepted(newState) ==> ConfigStatus(newState) == Http.StatusOK && NextMarket(market, newState) == newState
  {
  }

  /** A valid market state stays valid whatever the request. */
  lemma ValidStatePreserved(market: string, newState: string)
    requires ValidState(market)
    ensures ValidState(NextMarket(market, newState))
  {
  }

  /** Sending the same request twice leaves the state sending it once leaves. */
  lemma ConfigIdempotent(market: string, newState: string)
    ensures NextMarket(NextMarket(market, newState), newState) == NextMarket(market, newState)
  {
  }
}
