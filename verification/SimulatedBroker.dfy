/** The backtester's in-memory broker: a queue of pending orders drained against each
    candle, and the ledger of cash, positions and commission that fills update. */
module SimulatedBroker {
  import opened MarketData
  import opened Numbers
  import opened Positions
  import opened Sequences

  datatype OrderRequest = OrderRequest(
    symbol: string,
    side: Side,
    orderType: OrderType,
    quantity: Quantity,
    limitPrice: Option<real>,
    triggerPrice: Option<real>
  )

  /** When an order was submitted: the bar being replayed, and whether it came from a
      fill callback. Stands for the wall-clock `submitted_at` of the source. */
  datatype Origin = Origin(bar: int, fromFill: bool)

  /** Order identifiers are fresh; an order's is its place in the submission log. */
  datatype Order = Order(id: nat, request: OrderRequest, origin: Origin)

  datatype FilledOrder = FilledOrder(order: Order, price: real, commission: real, pnl: real, bar: int) {
    function AsTrade(): Trade { Trade(order.request.side, order.request.quantity, price) }
  }

  /** The recorded execution, whose price and commission are rounded to 4 places. */
  datatype Fill = Fill(
    orderId: nat,
    symbol: string,
    side: Side,
    quantity: Quantity,
    price: real,
    commission: real,
    executedAt: int
  )

  datatype Snapshot = Snapshot(
    datetime: int,
    portfolioValue: real,
    cash: real,
    realizedPnl: real,
    unrealizedPnl: real
  )

  datatype Config = Config(initialCapital: real, slippagePct: real, commissionPct: real)

  datatype State = State(
    cash: real,
    symbols: seq<string>,              // insertion order of the positions dictionary
    positions: map<string, Position>,
    pending: seq<Order>,
    filled: seq<FilledOrder>,
    fills: seq<Fill>,
    equity: seq<Snapshot>,
    totalCommission: real,
    totalSlippage: real,
    submitted: seq<Order>              // every order ever accepted
  )

  function Initial(cfg: Config): State {
    State(cfg.initialCapital, [], map[], [], [], [], [], 0.0, 0.0, [])
  }

  // ---------------------------------------------------------------------------
  // Submission and fill price

  function Submit(s: State, r: OrderRequest, at: Origin): State {
    var o := Order(|s.submitted|, r, at);
    s.(pending := s.pending + [o], submitted := s.submitted + [o])
  }

  function SubmitAll(s: State, rs: seq<OrderRequest>, at: Origin): (s': State)
    ensures |s'.pending| == |s.pending| + |rs|
    decreases |rs|
  {
    if rs == [] then s else SubmitAll(Submit(s, rs[0], at), rs[1..], at)
  }

  function SlippageOn(price: real, slippagePct: real): real { price * (slippagePct / 100.0) }

  /** The price before the floor of one paisa, if the candle triggers the order. A
      limit or trigger price of zero counts as absent. */
  function TriggeredPrice(slippagePct: real, r: OrderRequest, c: Candle): Option<real> {
    match r.orderType
    case Market =>
      var slippage := SlippageOn(c.open, slippagePct);
      Some(if r.side.Buy? then c.open + slippage else c.open - slippage)
    case Limit =>
      if r.limitPrice.None? || r.limitPrice.value == 0.0 then None
      else
        var limit, slippage := r.limitPrice.value, SlippageOn(r.limitPrice.value, slippagePct);
        if r.side.Buy? && c.low <= limit then Some(Min(c.open, limit) + slippage)
        else if r.side.Sell? && c.high >= limit then Some(Max(c.open, limit) - slippage)
        else None
    case _ =>
      if r.triggerPrice.None? || r.triggerPrice.value == 0.0 then None
      else
        var trigger, slippage := r.triggerPrice.value, SlippageOn(r.triggerPrice.value, slippagePct);
        if r.side.Buy? && c.high >= trigger then Some(trigger + slippage)
        else if r.side.Sell? && c.low <= trigger then Some(trigger - slippage)
        else None
  }

  /** A computed price of exactly zero is falsy, so such an order stays pending. */
  function FillPrice(slippagePct: real, r: OrderRequest, c: Candle): Option<real> {
    match TriggeredPrice(slippagePct, r, c)
    case None => None
    case Some(p) => if p == 0.0 then None else Some(Max(p, 0.01))
  }

  predicate Fills(slippagePct: real, c: Candle, o: Order) {
    FillPrice(slippagePct, o.request, c).Some?
  }

  // ---------------------------------------------------------------------------
  // Execution

  /** A symbol never traded is flat. */
  function At(positions: map<string, Position>, symbol: string): Position {
    if symbol in positions then positions[symbol] else FLAT
  }

  function CommissionOn(tradeValue: real, commissionPct: real): real { tradeValue * (commissionPct / 100.0) }

  function Execute(cfg: Config, s: State, o: Order, price: real, c: Candle, bar: int): State {
    var r := o.request;
    var t := Trade(r.side, r.quantity, price);
    var tradeValue := t.Value();
    var commission := CommissionOn(tradeValue, cfg.commissionPct);
    var before := At(s.positions, r.symbol);
    s.(
      totalCommission := s.totalCommission + commission,
      totalSlippage := s.totalSlippage + Abs(price - c.open) * r.quantity as real,
      symbols := if r.symbol in s.positions then s.symbols else s.symbols + [r.symbol],
      positions := s.positions[r.symbol := ApplyTrade(before, t)],
      cash := if r.side.Buy? then s.cash - (tradeValue + commission) else s.cash + (tradeValue - commission),
      fills := s.fills + [Fill(o.id, r.symbol, r.side, r.quantity, Round4(price), Round4(commission), c.datetime)],
      filled := s.filled + [FilledOrder(o, price, commission, TradePnl(before, t), bar)]
    )
  }

  /** Reaction number `k` of a script; a script that has run out reacts with nothing. */
  function Head(reactions: seq<seq<OrderRequest>>): seq<OrderRequest> {
    if reactions == [] then [] else reactions[0]
  }

  function Tail(reactions: seq<seq<OrderRequest>>): seq<seq<OrderRequest>> {
    if reactions == [] then [] else reactions[1..]
  }

  /** Draining the pending list from index `i`. The strategy's callback runs after each
      fill and appends to the very list being iterated; `reactions` holds what it
      submits after the first, second, ... fill of this drain. Every drain that
      terminates, whatever the strategy, is the drain for some such script. */
  function DrainFrom(cfg: Config, s: State, i: nat, kept: seq<Order>, c: Candle, bar: int,
                     reactions: seq<seq<OrderRequest>>): State
    requires i <= |s.pending|
    decreases |reactions|, |s.pending| - i
  {
    if i == |s.pending| then s.(pending := kept)
    else
      var o := s.pending[i];
      match FillPrice(cfg.slippagePct, o.request, c)
      case None => DrainFrom(cfg, s, i + 1, kept + [o], c, bar, reactions)
      case Some(price) =>
        var s1 := SubmitAll(Execute(cfg, s, o, price, c, bar), Head(reactions), Origin(bar, true));
        DrainFrom(cfg, s1, i + 1, kept, c, bar, Tail(reactions))
  }

  function Drain(cfg: Config, s: State, c: Candle, bar: int, reactions: seq<seq<OrderRequest>>): State {
    DrainFrom(cfg, s, 0, [], c, bar, reactions)
  }

  // ---------------------------------------------------------------------------
  // Valuation

  function PriceOf(prices: map<string, real>, symbol: string, p: Position): real {
    if symbol in prices then prices[symbol] else p.averagePrice
  }

  /** Market value and paper gain of one position; a flat one is skipped. */
  function ValueOf(p: Position, price: real): real {
    if p.quantity != 0 then p.quantity as real * price else 0.0
  }

  function GainOf(p: Position, price: real): real {
    if p.quantity != 0 then (price - p.averagePrice) * p.quantity as real else 0.0
  }

  function PositionValue(symbols: seq<string>, positions: map<string, Position>, prices: map<string, real>): real
  {
    if symbols == [] then 0.0
    else
      var p := At(positions, Last(symbols));
      PositionValue(Init(symbols), positions, prices)
      + ValueOf(p, PriceOf(prices, Last(symbols), p))
  }

  function UnrealizedPnl(symbols: seq<string>, positions: map<string, Position>, prices: map<string, real>): real
  {
    if symbols == [] then 0.0
    else
      var p := At(positions, Last(symbols));
      UnrealizedPnl(Init(symbols), positions, prices)
      + GainOf(p, PriceOf(prices, Last(symbols), p))
  }

  function RealizedPnl(symbols: seq<string>, positions: map<string, Position>): real
  {
    if symbols == [] then 0.0
    else RealizedPnl(Init(symbols), positions) + At(positions, Last(symbols)).realizedPnl
  }

  function Snap(s: State, c: Candle, prices: map<string, real>): State
  {
    s.(equity := s.equity + [Snapshot(
      c.datetime,
      Round2(s.cash + PositionValue(s.symbols, s.positions, prices)),
      Round2(s.cash),
      Round2(RealizedPnl(s.symbols, s.positions)),
      Round2(UnrealizedPnl(s.symbols, s.positions, prices)))])
  }
}
