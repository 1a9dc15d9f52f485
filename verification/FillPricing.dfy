/** What the simulated broker's fill prices mean, stated without its formulas: which bars
    execute an order, at which of the bar's prices, and whom slippage favours. */
module FillPricing {
  import opened MarketData
  import opened Numbers
  import opened Positions
  import opened SimulatedBroker
  import PaperBroker

  /** Open and close lie within the traded range, and prices are positive. */
  predicate IsBar(c: Candle) { 0.0 < c.low <= c.open <= c.high && c.low <= c.close <= c.high }

  /** Price levels are positive where they are given, as order validation demands. */
  predicate HasPositiveLevels(r: OrderRequest) {
    && (r.limitPrice.Some? ==> r.limitPrice.value > 0.0)
    && (r.triggerPrice.Some? ==> r.triggerPrice.value > 0.0)
  }

  /** The market prices at which the order may execute. */
  predicate Acceptable(r: OrderRequest, x: real) {
    match r.orderType
    case Market => true
    case Limit => r.limitPrice.Some? && if r.side.Buy? then x <= r.limitPrice.value else x >= r.limitPrice.value
    case _ => r.triggerPrice.Some? && if r.side.Buy? then x >= r.triggerPrice.value else x <= r.triggerPrice.value
  }

  /** The bar trades at an acceptable price. */
  ghost predicate Reaches(c: Candle, r: OrderRequest) {
    exists x :: c.low <= x <= c.high && Acceptable(r, x)
  }

  /** An order is triggered exactly by the bars that trade at an acceptable price, and, short
      of a slippage that eats the whole price, fills exactly then. */
  lemma FillsExactlyWhenReached(slippagePct: real, r: OrderRequest, c: Candle)
    requires IsBar(c) && HasPositiveLevels(r)
    ensures TriggeredPrice(slippagePct, r, c).Some? <==> Reaches(c, r)
    ensures 0.0 <= slippagePct < 100.0 ==> (FillPrice(slippagePct, r, c).Some? <==> Reaches(c, r))
  {
    hide SlippageOn;
    assert Acceptable(r, c.low) || Acceptable(r, c.high) ==> Reaches(c, r);
    if 0.0 <= slippagePct < 100.0 && TriggeredPrice(slippagePct, r, c).Some? {
      PositivePrice(slippagePct, r, c);
    }
  }

  lemma PositivePrice(slippagePct: real, r: OrderRequest, c: Candle)
    requires IsBar(c) && HasPositiveLevels(r) && 0.0 <= slippagePct < 100.0 && TriggeredPrice(slippagePct, r, c).Some?
    ensures TriggeredPrice(slippagePct, r, c).value > 0.0
  {
    hide SlippageOn;
    SlippageIsPart(c.open, slippagePct);
    if r.orderType.Limit? {
      SlippageIsPart(r.limitPrice.value, slippagePct);
    } else if !r.orderType.Market? {
      SlippageIsPart(r.triggerPrice.value, slippagePct);
    }
  }

  lemma SlippageIsPart(x: real, slippagePct: real)
    requires x > 0.0 && 0.0 <= slippagePct < 100.0
    ensures 0.0 <= SlippageOn(x, slippagePct) < x
  {
    assert x * (1.0 - slippagePct / 100.0) > 0.0;
  }

  lemma SlippageGrows(x: real, a: real, b: real)
    requires x > 0.0 && a <= b
    ensures SlippageOn(x, a) <= SlippageOn(x, b)
  {
    MulMonotone(x, a / 100.0, b / 100.0);
  }

  /** A stop order whose trigger the bar's very first trade is already beyond. */
  predicate OpensBeyond(c: Candle, r: OrderRequest) {
    && (r.orderType.StopLoss? || r.orderType.StopLossMarket?)
    && r.triggerPrice.Some?
    && if r.side.Buy? then c.open > r.triggerPrice.value else c.open < r.triggerPrice.value
  }

  /** Where the whole bar is beyond the trigger. */
  predicate GapsOver(c: Candle, r: OrderRequest) {
    && (r.orderType.StopLoss? || r.orderType.StopLossMarket?)
    && r.triggerPrice.Some?
    && if r.side.Buy? then c.low > r.triggerPrice.value else c.high < r.triggerPrice.value
  }

  /** The acceptable price nearest to the open: where the order would first execute. */
  ghost predicate NearestToOpen(c: Candle, r: OrderRequest, p: real) {
    Acceptable(r, p) && forall x :: Acceptable(r, x) ==> Abs(p - c.open) <= Abs(x - c.open)
  }

  /** Slippage aside, an order executes at the acceptable price nearest to the open, with one
      exact exception: a stop that the bar opens beyond is filled at its trigger, which the
      market has already left. That price was not even traded when the bar gaps over it. */
  lemma FillsAtNearestAcceptablePrice(r: OrderRequest, c: Candle)
    requires IsBar(c) && HasPositiveLevels(r) && TriggeredPrice(0.0, r, c).Some?
    ensures var p := TriggeredPrice(0.0, r, c).value;
      && Acceptable(r, p)
      && (NearestToOpen(c, r, p) <==> !OpensBeyond(c, r))
      && (c.low <= p <= c.high <==> !GapsOver(c, r))
  {
    NoSlippage(r, c);
    var p := TriggeredPrice(0.0, r, c).value;
    if OpensBeyond(c, r) {
      assert Acceptable(r, c.open) && Abs(c.open - c.open) < Abs(p - c.open);
    }
  }

  /** The price without slippage, spelled out. */
  lemma NoSlippage(r: OrderRequest, c: Candle)
    requires TriggeredPrice(0.0, r, c).Some?
    ensures TriggeredPrice(0.0, r, c).value
            == match r.orderType
               case Market => c.open
               case Limit => if r.side.Buy? then Min(c.open, r.limitPrice.value) else Max(c.open, r.limitPrice.value)
               case _ => r.triggerPrice.value
  {
  }

  /** The price that slippage is a percentage of: the open for a market order, and otherwise
      the order's own level. */
  function SlippageBase(r: OrderRequest, c: Candle): real
    requires r.orderType.Limit? ==> r.limitPrice.Some?
    requires r.orderType.StopLoss? || r.orderType.StopLossMarket? ==> r.triggerPrice.Some?
  {
    match r.orderType
    case Market => c.open
    case Limit => r.limitPrice.value
    case _ => r.triggerPrice.value
  }

  /** In amounts: a buyer pays, and a seller gives up, the percentage of that base on top of the
      price without slippage; and nothing fills below one paisa. */
  lemma SlippageInAmounts(slippagePct: real, r: OrderRequest, c: Candle)
    requires FillPrice(slippagePct, r, c).Some?
    ensures TriggeredPrice(0.0, r, c).Some?
    ensures (r.orderType.Limit? ==> r.limitPrice.Some?)
            && (r.orderType.StopLoss? || r.orderType.StopLossMarket? ==> r.triggerPrice.Some?)
    ensures var amount := SlippageBase(r, c) * slippagePct / 100.0;
      FillPrice(slippagePct, r, c).value
      == Max(if r.side.Buy? then TriggeredPrice(0.0, r, c).value + amount
             else TriggeredPrice(0.0, r, c).value - amount, 0.01)
  {
    NoSlippage(r, c);
    AmountOf(SlippageBase(r, c), slippagePct);
    hide SlippageOn;
  }

  lemma AmountOf(x: real, slippagePct: real)
    ensures SlippageOn(x, slippagePct) == x * slippagePct / 100.0
  {
  }

  /** More slippage never helps: a buyer pays more and a seller receives less. */
  lemma SlippageIsAdverse(a: real, b: real, r: OrderRequest, c: Candle)
    requires IsBar(c) && HasPositiveLevels(r) && a <= b && TriggeredPrice(a, r, c).Some?
    ensures TriggeredPrice(b, r, c).Some?
    ensures var x, y := TriggeredPrice(a, r, c).value, TriggeredPrice(b, r, c).value;
      if r.side.Buy? then x <= y else y <= x
  {
    hide SlippageOn;
    SlippageGrows(c.open, a, b);
    if r.orderType.Limit? {
      SlippageGrows(r.limitPrice.value, a, b);
    } else if !r.orderType.Market? {
      SlippageGrows(r.triggerPrice.value, a, b);
    }
  }

  /** Slippage is charged on limit orders too, so a limit can be overshot: exactly when there
      is slippage and the bar opens within it of the limit, or when a BUY limit is below the
      smallest price of one paisa; and by no more than that slippage or the rest of the paisa. */
  lemma LimitsCanBeOvershot(slippagePct: real, r: OrderRequest, c: Candle)
    requires IsBar(c) && HasPositiveLevels(r) && r.orderType.Limit? && slippagePct >= 0.0
    requires FillPrice(slippagePct, r, c).Some?
    ensures var limit, price := r.limitPrice.value, FillPrice(slippagePct, r, c).value;
      var slippage := SlippageOn(limit, slippagePct);
      if r.side.Buy? then
        && (price > limit <==> (slippagePct > 0.0 && c.open > limit - slippage) || limit < 0.01)
        && price <= Max(limit + slippage, 0.01)
      else
        && (price < limit <==> slippagePct > 0.0 && c.open < limit + slippage && limit > 0.01)
        && price >= limit - slippage
  {
    hide SlippageOn;
    SlippageSign(r.limitPrice.value, slippagePct);
  }

  lemma SlippageSign(x: real, slippagePct: real)
    requires x > 0.0 && slippagePct >= 0.0
    ensures SlippageOn(x, slippagePct) >= 0.0 && (SlippageOn(x, slippagePct) > 0.0 <==> slippagePct > 0.0)
  {
    assert slippagePct > 0.0 ==> slippagePct / 100.0 > 0.0;
  }

  // ---------------------------------------------------------------------------
  // The paper broker's triggers

  /** The same order for the simulated broker, and a bar that trades at one price only. */
  function AsSimulated(q: PaperBroker.Request): OrderRequest {
    OrderRequest(q.key.symbol, q.side, q.orderType, q.quantity, q.price, q.trigger)
  }

  function PointBar(time: int, price: real): Candle { Candle(time, price, price, price, price, 0.0) }

  /** What the paper broker quotes for an order at a last price, slippage aside. */
  function PaperPrice(q: PaperBroker.Request, ltp: real): real {
    PaperBroker.QuotedPrice(PaperBroker.Config(0.0, 0.0), map[q.key.symbol := ltp], q.key.symbol, q.side, q.price)
  }

  /** A waiting order is triggered by a tick in the paper broker exactly when a bar at that
      price triggers it in a backtest. Slippage aside, limit orders then get the same price
      from both, and stop orders without a price exactly when the tick is at the trigger. */
  lemma EnginesTriggerAlike(q: PaperBroker.Request, time: int, ltp: real, slippagePct: real)
    requires !q.orderType.Market?
    ensures PaperBroker.Triggered(q, q.key.symbol, ltp)
            <==> TriggeredPrice(slippagePct, AsSimulated(q), PointBar(time, ltp)).Some?
    ensures PaperBroker.Triggered(q, q.key.symbol, ltp) ==>
      && TriggeredPrice(0.0, AsSimulated(q), PointBar(time, ltp)).Some?
      && var simulated := TriggeredPrice(0.0, AsSimulated(q), PointBar(time, ltp)).value;
         && (q.orderType.Limit? ==> PaperPrice(q, ltp) == simulated)
         && (!q.orderType.Limit? && q.price.None? ==> (PaperPrice(q, ltp) == simulated <==> ltp == q.trigger.value))
  {
    assert SlippageOn(ltp, 0.0) == 0.0;
    assert ltp * (0.0 / 100.0) == 0.0;
    if PaperBroker.Triggered(q, q.key.symbol, ltp) {
      NoSlippage(AsSimulated(q), PointBar(time, ltp));
    }
  }
}
