/** Strategy signals and the validation every order request passes. */
module Signals {
  import opened MarketData
  import opened Numbers
  import opened Positions
  import opened Sequences
  import opened SimulatedBroker

  datatype Direction = GoLong | GoShort | Hold | Exit | NoSignal

  /** Confidence between 0 and 1, as the signal model validates it. */
  type Strength = x: real | 0.0 <= x <= 1.0 witness 1.0

  datatype Signal = Signal(
    strategyName: string,
    symbol: string,
    exchange: string,
    direction: Direction,
    strength: Strength,
    suggestedPrice: Option<real>,
    suggestedQuantity: Option<int>,
    stopLossPrice: Option<real>
  )

  /** A value that Python treats as true: present and not zero. */
  predicate GivenInt(x: Option<int>) { x.Some? && x.value != 0 }

  predicate GivenReal(x: Option<real>) { x.Some? && x.value != 0.0 }

  /** The field validators of an order request: a quantity must be positive, and so must
      a price or trigger price that is present. A request that fails is never built. */
  function Validated(symbol: string, side: Side, orderType: OrderType, quantity: int,
                     price: Option<real>, trigger: Option<real>): Option<OrderRequest> {
    if quantity <= 0 || (price.Some? && price.value <= 0.0) || (trigger.Some? && trigger.value <= 0.0) then None
    else Some(OrderRequest(symbol, side, orderType, quantity, price, trigger))
  }

  /** The backtester turns a signal into an order without a risk check; an EXIT sells. */
  function BacktestRequest(s: Signal): Option<OrderRequest> {
    if s.direction.Hold? || s.direction.NoSignal? then None
    else
      Validated(
        s.symbol,
        if s.direction.GoLong? then Buy else Sell,
        if GivenReal(s.suggestedPrice) then Limit else Market,
        if GivenInt(s.suggestedQuantity) then s.suggestedQuantity.value else 1,
        s.suggestedPrice,
        s.stopLossPrice)
  }

  /** The orders a list of signals becomes. */
  function Requests(signals: seq<Signal>): seq<OrderRequest> {
    if signals == [] then []
    else
      var r := BacktestRequest(signals[0]);
      (if r.Some? then [r.value] else []) + Requests(signals[1..])
  }

  function AllRequests(batches: seq<seq<Signal>>): seq<seq<OrderRequest>> {
    if batches == [] then [] else [Requests(batches[0])] + AllRequests(batches[1..])
  }

  /** The signal asks for a trade, at no quantity below zero and at no price or stop-loss price
      that is not above it. */
  predicate Orderable(s: Signal) {
    && !s.direction.Hold? && !s.direction.NoSignal?
    && (s.suggestedQuantity.Some? ==> s.suggestedQuantity.value >= 0)
    && (s.suggestedPrice.Some? ==> s.suggestedPrice.value > 0.0)
    && (s.stopLossPrice.Some? ==> s.stopLossPrice.value > 0.0)
  }

  /** The order the signal asks for: a BUY for a long signal and a SELL for any other, limited
      by a suggested price, for the suggested quantity or one. */
  predicate Carries(r: OrderRequest, s: Signal) {
    && r.symbol == s.symbol
    && (r.side == Buy <==> s.direction == GoLong)
    && (r.orderType == Limit <==> s.suggestedPrice.Some?)
    && (r.orderType == OrderType.Market <==> s.suggestedPrice.None?)
    && r.limitPrice == s.suggestedPrice && r.triggerPrice == s.stopLossPrice
    && (s.suggestedQuantity.Some? && s.suggestedQuantity.value > 0 ==> r.quantity == s.suggestedQuantity.value)
    && (s.suggestedQuantity.None? || s.suggestedQuantity.value == 0 ==> r.quantity == 1)
  }

  /** A list of signals becomes one order for each orderable one, in order. */
  lemma {:induction false} RequestsCarrySignals(signals: seq<Signal>)
    ensures var asked := Filter(signals, (s: Signal) => Orderable(s));
      && |Requests(signals)| == |asked|
      && forall i :: 0 <= i < |asked| ==> Carries(Requests(signals)[i], asked[i])
    decreases |signals|
  {
    if signals != [] {
      var rest := signals[1..];
      RequestsCarrySignals(rest);
      assert signals == [signals[0]] + rest;
      FilterAppend([signals[0]], rest, (s: Signal) => Orderable(s));
      assert Init([signals[0]]) == [];
      RequestCarriesSignal(signals[0]);
      hide BacktestRequest;
    }
  }

  lemma RequestCarriesSignal(s: Signal)
    ensures BacktestRequest(s).Some? <==> Orderable(s)
    ensures BacktestRequest(s).Some? ==> Carries(BacktestRequest(s).value, s)
  {
  }

  lemma {:induction false} RequestsOfEach(batches: seq<seq<Signal>>)
    ensures |AllRequests(batches)| == |batches|
    ensures forall i :: 0 <= i < |batches| ==> AllRequests(batches)[i] == Requests(batches[i])
  {
    if batches != [] {
      RequestsOfEach(batches[1..]);
    }
  }

  /** A signal becomes a market or a limit order, never a stop order, so its stop-loss price
      is carried along and changes neither when the order fills nor at what price. */
  lemma StopLossPriceChangesNoFill(s: Signal, stop: Option<real>, slippagePct: real, c: Candle)
    requires BacktestRequest(s).Some? && BacktestRequest(s.(stopLossPrice := stop)).Some?
    ensures FillPrice(slippagePct, BacktestRequest(s).value, c)
            == FillPrice(slippagePct, BacktestRequest(s.(stopLossPrice := stop)).value, c)
  {
    hide SlippageOn;
  }
}
