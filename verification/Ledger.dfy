/** Conservation laws of the simulated broker's ledger. */
module Ledger {
  import opened MarketData
  import opened Numbers
  import opened Positions
  import opened Sequences
  import opened SimulatedBroker

  /** Cash received, or paid when negative, for an execution of the given value. */
  function Flow(side: Side, value: real, commission: real): real {
    (if side.Buy? then -value else value) - commission
  }

  function CashFlow(f: FilledOrder): real {
    Flow(f.order.request.side, f.AsTrade().Value(), f.commission)
  }

  function TotalCashFlow(filled: seq<FilledOrder>): real {
    if filled == [] then 0.0 else TotalCashFlow(Init(filled)) + CashFlow(Last(filled))
  }

  function TotalCommission(filled: seq<FilledOrder>): real {
    if filled == [] then 0.0 else TotalCommission(Init(filled)) + Last(filled).commission
  }

  /** The fills of one symbol, in order. */
  function TradesOf(filled: seq<FilledOrder>, symbol: string): seq<Trade> {
    if filled == [] then []
    else
      TradesOf(Init(filled), symbol)
      + if Last(filled).order.request.symbol == symbol then [Last(filled).AsTrade()] else []
  }

  /** Money put into the market: bought value minus sold value, over all symbols. */
  function NetSpend(symbols: seq<string>, positions: map<string, Position>): real {
    if symbols == [] then 0.0
    else
      var p := At(positions, Last(symbols));
      NetSpend(Init(symbols), positions) + (p.buyValue - p.sellValue)
  }

  /** Each position is what the averaging engine makes of its symbol's fills. */
  ghost predicate History(positions: map<string, Position>, filled: seq<FilledOrder>) {
    forall x :: At(positions, x) == PositionAfter(TradesOf(filled, x))
  }

  /** The positions dictionary and its insertion order agree. */
  ghost predicate Indexed(symbols: seq<string>, positions: map<string, Position>) {
    Unique(symbols) && forall x :: x in symbols <==> x in positions
  }

  ghost predicate CashAddsUp(cfg: Config, s: State) {
    && s.totalCommission == TotalCommission(s.filled)
    && s.cash == cfg.initialCapital + TotalCashFlow(s.filled)
    && s.cash == cfg.initialCapital - NetSpend(s.symbols, s.positions) - s.totalCommission
  }

  /** Every field of the ledger is a function of the fill history. */
  ghost predicate Books(cfg: Config, s: State) {
    && Indexed(s.symbols, s.positions)
    && History(s.positions, s.filled)
    && CashAddsUp(cfg, s)
    && Charged(cfg, s.filled)
    && ProfitAddsUp(s.positions, s.filled)
    && Recorded(s)
  }

  /** Profit reported with the fills of one symbol. */
  function ReportedPnl(filled: seq<FilledOrder>, symbol: string): real {
    if filled == [] then 0.0
    else
      ReportedPnl(Init(filled), symbol)
      + if Last(filled).order.request.symbol == symbol then Last(filled).pnl else 0.0
  }

  /** What the fills of a symbol report adds up to what its position has realised. */
  ghost predicate ProfitAddsUp(positions: map<string, Position>, filled: seq<FilledOrder>) {
    forall x :: At(positions, x).realizedPnl == ReportedPnl(filled, x)
  }

  /** Each fill was charged the configured percentage of its value. */
  ghost predicate Charged(cfg: Config, filled: seq<FilledOrder>) {
    forall f :: f in filled ==> f.commission == CommissionOn(f.AsTrade().Value(), cfg.commissionPct)
  }

  /** The record kept of each fill, price and commission rounded to 4 places. */
  ghost predicate Recorded(s: State) {
    && |s.fills| == |s.filled|
    && forall i :: 0 <= i < |s.fills| ==>
         var f, o := s.fills[i], s.filled[i];
         && f.orderId == o.order.id && f.symbol == o.order.request.symbol
         && f.side == o.order.request.side && f.quantity == o.order.request.quantity
         && f.price == Round4(o.price) && f.commission == Round4(o.commission)
  }

  // ---------------------------------------------------------------------------
  // The step that changes the ledger

  lemma {:induction false} NetSpendFrame(symbols: seq<string>, a: map<string, Position>, b: map<string, Position>)
    requires forall x :: x in symbols ==> At(a, x) == At(b, x)
    ensures NetSpend(symbols, a) == NetSpend(symbols, b)
  {
    if symbols != [] {
      NetSpendFrame(Init(symbols), a, b);
    }
  }

  lemma {:induction false} NetSpendUpdate(symbols: seq<string>, positions: map<string, Position>, x: string, p: Position)
    requires Unique(symbols) && x in symbols
    ensures NetSpend(symbols, positions[x := p])
            == NetSpend(symbols, positions) + (p.buyValue - p.sellValue)
               - (At(positions, x).buyValue - At(positions, x).sellValue)
  {
    if Last(symbols) == x {
      NetSpendFrame(Init(symbols), positions, positions[x := p]);
    } else {
      NetSpendUpdate(Init(symbols), positions, x, p);
    }
  }

  /** Money put into the market grows by the outlay of the fill. */
  lemma ExecuteSpends(cfg: Config, s: State, o: Order, price: real, c: Candle, bar: int)
    requires Indexed(s.symbols, s.positions)
    ensures var s', r := Execute(cfg, s, o, price, c, bar), o.request;
      && Indexed(s'.symbols, s'.positions)
      && NetSpend(s'.symbols, s'.positions)
         == NetSpend(s.symbols, s.positions) + Outlay(Trade(r.side, r.quantity, price))
  {
    var s', r := Execute(cfg, s, o, price, c, bar), o.request;
    var t := Trade(r.side, r.quantity, price);
    var before := At(s.positions, r.symbol);
    var after := ApplyTrade(before, t);
    TradeAddsUp(before, t);
    assert after.buyValue - after.sellValue == before.buyValue - before.sellValue + Outlay(t);
    if r.symbol in s.positions {
      NetSpendUpdate(s.symbols, s.positions, r.symbol, after);
    } else {
      NetSpendFrame(s.symbols, s.positions, s'.positions);
      assert Init(s'.symbols) == s.symbols;
    }
  }

  lemma ExecuteKeepsBooks(cfg: Config, s: State, o: Order, price: real, c: Candle, bar: int)
    requires Books(cfg, s)
    ensures Books(cfg, Execute(cfg, s, o, price, c, bar))
  {
    ExecuteKeepsCash(cfg, s, o, price, c, bar);
    ExecuteKeepsHistory(cfg, s, o, price, c, bar);
    ExecuteKeepsRecords(cfg, s, o, price, c, bar);
    ExecuteKeepsProfit(cfg, s, o, price, c, bar);
  }

  lemma ExecuteKeepsProfit(cfg: Config, s: State, o: Order, price: real, c: Candle, bar: int)
    requires ProfitAddsUp(s.positions, s.filled)
    ensures var s' := Execute(cfg, s, o, price, c, bar); ProfitAddsUp(s'.positions, s'.filled)
  {
    hide ApplyTrade, TradePnl;
    var s', r := Execute(cfg, s, o, price, c, bar), o.request;
    assert Init(s'.filled) == s.filled;
    TradeAddsUp(At(s.positions, r.symbol), Trade(r.side, r.quantity, price));
    forall x
      ensures At(s'.positions, x).realizedPnl == ReportedPnl(s'.filled, x)
    {
      assert At(s.positions, x).realizedPnl == ReportedPnl(s.filled, x);
      assert x != r.symbol ==> At(s'.positions, x) == At(s.positions, x);
    }
  }

  lemma ExecuteKeepsCash(cfg: Config, s: State, o: Order, price: real, c: Candle, bar: int)
    requires Indexed(s.symbols, s.positions) && CashAddsUp(cfg, s)
    ensures var s' := Execute(cfg, s, o, price, c, bar);
      Indexed(s'.symbols, s'.positions) && CashAddsUp(cfg, s')
  {
    ExecuteSpends(cfg, s, o, price, c, bar);
    ExecuteMovesCash(cfg, s, o, price, c, bar);
  }

  lemma ExecuteKeepsHistory(cfg: Config, s: State, o: Order, price: real, c: Candle, bar: int)
    requires History(s.positions, s.filled)
    ensures var s' := Execute(cfg, s, o, price, c, bar); History(s'.positions, s'.filled)
  {
    HistoryStep(s.positions, s.filled, Last(Execute(cfg, s, o, price, c, bar).filled));
  }

  lemma ExecuteKeepsRecords(cfg: Config, s: State, o: Order, price: real, c: Candle, bar: int)
    requires Recorded(s) && Charged(cfg, s.filled)
    ensures Recorded(Execute(cfg, s, o, price, c, bar)) && Charged(cfg, Execute(cfg, s, o, price, c, bar).filled)
  {
  }

  lemma ExecuteMovesCash(cfg: Config, s: State, o: Order, price: real, c: Candle, bar: int)
    ensures var s', r := Execute(cfg, s, o, price, c, bar), o.request;
      && s'.totalCommission - s.totalCommission == TotalCommission(s'.filled) - TotalCommission(s.filled)
      && s'.cash - s.cash == TotalCashFlow(s'.filled) - TotalCashFlow(s.filled)
      && s'.cash - s.cash
         == -Outlay(Trade(r.side, r.quantity, price)) - (s'.totalCommission - s.totalCommission)
  {
    assert Init(Execute(cfg, s, o, price, c, bar).filled) == s.filled;
  }

  lemma HistoryStep(positions: map<string, Position>, filled: seq<FilledOrder>, f: FilledOrder)
    requires History(positions, filled)
    ensures var x := f.order.request.symbol;
      History(positions[x := ApplyTrade(At(positions, x), f.AsTrade())], filled + [f])
  {
    var symbol, ts := f.order.request.symbol, TradesOf(filled, f.order.request.symbol);
    var filled' := filled + [f];
    assert Init(filled') == filled;
    AfterOneMore(ts, f.AsTrade());
    assert TradesOf(filled', symbol) == ts + [f.AsTrade()];
    forall x | x != symbol
      ensures PositionAfter(TradesOf(filled', x)) == PositionAfter(TradesOf(filled, x))
    {
      assert TradesOf(filled', x) == TradesOf(filled, x);
    }
  }

  lemma AfterOneMore(ts: seq<Trade>, t: Trade)
    ensures PositionAfter(ts + [t]) == ApplyTrade(PositionAfter(ts), t)
  {
    assert (ts + [t])[..|ts|] == ts;
  }

  /** The ledger laws hold after every drain, whatever its callbacks submit. */
  lemma {:induction false} DrainKeepsBooks(cfg: Config, s: State, i: nat, kept: seq<Order>, c: Candle, bar: int,
                                           reactions: seq<seq<OrderRequest>>)
    requires i <= |s.pending| && Books(cfg, s)
    ensures Books(cfg, DrainFrom(cfg, s, i, kept, c, bar, reactions))
    decreases |reactions|, |s.pending| - i
  {
    if i < |s.pending| {
      var o := s.pending[i];
      match FillPrice(cfg.slippagePct, o.request, c) {
        case None => DrainKeepsBooks(cfg, s, i + 1, kept + [o], c, bar, reactions);
        case Some(price) =>
          var e := Execute(cfg, s, o, price, c, bar);
          ExecuteKeepsBooks(cfg, s, o, price, c, bar);
          SubmitAllKeepsBooks(cfg, e, Head(reactions), Origin(bar, true));
          var s1 := SubmitAll(e, Head(reactions), Origin(bar, true));
          DrainKeepsBooks(cfg, s1, i + 1, kept, c, bar, Tail(reactions));
      }
    }
  }

  lemma {:induction false} SubmitAllKeepsBooks(cfg: Config, s: State, rs: seq<OrderRequest>, at: Origin)
    requires Books(cfg, s)
    ensures Books(cfg, SubmitAll(s, rs, at))
    decreases |rs|
  {
    if rs != [] {
      SubmitAllKeepsBooks(cfg, Submit(s, rs[0], at), rs[1..], at);
    }
  }

  // ---------------------------------------------------------------------------
  // Conservation

  /** Valued at any prices, the portfolio is the initial capital plus all profit, made
      or on paper, less commission. */
  lemma Conservation(cfg: Config, s: State, prices: map<string, real>)
    requires Books(cfg, s)
    ensures s.cash + PositionValue(s.symbols, s.positions, prices)
            == cfg.initialCapital + RealizedPnl(s.symbols, s.positions)
               + UnrealizedPnl(s.symbols, s.positions, prices) - s.totalCommission
  {
    forall x | x in s.symbols
      ensures Balanced(At(s.positions, x))
    {
      HistoryFixesPosition(TradesOf(s.filled, x));
    }
    ValueIsProfitPlusSpend(s.symbols, s.positions, prices);
  }

  lemma {:induction false} ValueIsProfitPlusSpend(symbols: seq<string>, positions: map<string, Position>,
                                                  prices: map<string, real>)
    requires forall x :: x in symbols ==> Balanced(At(positions, x))
    ensures PositionValue(symbols, positions, prices)
            == RealizedPnl(symbols, positions) + UnrealizedPnl(symbols, positions, prices)
               + NetSpend(symbols, positions)
  {
    if symbols != [] {
      ValueIsProfitPlusSpend(Init(symbols), positions, prices);
      var p := At(positions, Last(symbols));
      OnePositionConserves(p, PriceOf(prices, Last(symbols), p));
    }
  }

  lemma OnePositionConserves(p: Position, price: real)
    requires Balanced(p)
    ensures ValueOf(p, price) == p.realizedPnl + GainOf(p, price) + (p.buyValue - p.sellValue)
  {
    var q, a := p.quantity as real, p.averagePrice;
    assert (price - a) * q == q * price - q * a;
  }

  /** Once every position is flat, all profit has become cash. */
  lemma FlatAccountHoldsItsProfitInCash(cfg: Config, s: State)
    requires Books(cfg, s)
    requires forall x :: x in s.symbols ==> At(s.positions, x).quantity == 0
    ensures s.cash - cfg.initialCapital == RealizedPnl(s.symbols, s.positions) - s.totalCommission
  {
    Conservation(cfg, s, map[]);
    FlatPositionsAreWorthless(s.symbols, s.positions, map[]);
  }

  lemma {:induction false} FlatPositionsAreWorthless(symbols: seq<string>, positions: map<string, Position>,
                                                     prices: map<string, real>)
    requires forall x :: x in symbols ==> At(positions, x).quantity == 0
    ensures PositionValue(symbols, positions, prices) == 0.0 && UnrealizedPnl(symbols, positions, prices) == 0.0
  {
    if symbols != [] {
      FlatPositionsAreWorthless(Init(symbols), positions, prices);
    }
  }

  /** The rounded figures of a snapshot obey the law to within a paisa and a half. */
  lemma SnapshotConserves(cfg: Config, s: State, c: Candle, prices: map<string, real>)
    requires Books(cfg, s)
    ensures var snap := Last(Snap(s, c, prices).equity);
      Abs(snap.portfolioValue
          - (cfg.initialCapital + snap.realizedPnl + snap.unrealizedPnl - s.totalCommission)) <= 0.015
  {
    Conservation(cfg, s, prices);
    RoundErrors(s.cash + PositionValue(s.symbols, s.positions, prices));
    RoundErrors(RealizedPnl(s.symbols, s.positions));
    RoundErrors(UnrealizedPnl(s.symbols, s.positions, prices));
  }

  // ---------------------------------------------------------------------------
  // Replaying the recorded fills

  function RecordedFlow(f: Fill): real { Flow(f.side, CostOf(f.quantity, f.price), f.commission) }

  /** Cash rebuilt from the fill records alone. */
  function ReplayCash(initialCapital: real, fills: seq<Fill>): real {
    if fills == [] then initialCapital else ReplayCash(initialCapital, Init(fills)) + RecordedFlow(Last(fills))
  }

  /** Half a unit in the fourth place for each unit traded and for the commission. */
  function ReplayTolerance(fills: seq<Fill>): real {
    if fills == [] then 0.0 else ReplayTolerance(Init(fills)) + HALF_UNIT * Last(fills).quantity as real + HALF_UNIT
  }

  /** Rounding of the records can move the replayed cash by at most the tolerance. */
  lemma ReplayErrorBound(cfg: Config, s: State)
    requires Books(cfg, s)
    ensures Abs(ReplayCash(cfg.initialCapital, s.fills) - s.cash) <= ReplayTolerance(s.fills)
  {
    ReplayPrefix(cfg, s, |s.fills|);
    assert s.fills[..|s.fills|] == s.fills && s.filled[..|s.filled|] == s.filled;
  }

  lemma {:induction false} ReplayPrefix(cfg: Config, s: State, n: nat)
    requires Recorded(s) && n <= |s.fills|
    ensures Abs(ReplayCash(cfg.initialCapital, s.fills[..n]) - cfg.initialCapital - TotalCashFlow(s.filled[..n]))
            <= ReplayTolerance(s.fills[..n])
  {
    hide Round4, RecordedFlow, CashFlow;
    if n > 0 {
      ReplayPrefix(cfg, s, n - 1);
      assert Init(s.fills[..n]) == s.fills[..n - 1] && Init(s.filled[..n]) == s.filled[..n - 1];
      RoundErrors(s.filled[n - 1].price);
      RoundErrors(s.filled[n - 1].commission);
      RecordError(s.fills[n - 1], s.filled[n - 1]);
    }
  }

  lemma RecordError(f: Fill, o: FilledOrder)
    requires f.side == o.order.request.side && f.quantity == o.order.request.quantity
    requires Abs(f.price - o.price) <= HALF_UNIT && Abs(f.commission - o.commission) <= HALF_UNIT
    ensures Abs(RecordedFlow(f) - CashFlow(o)) <= HALF_UNIT * f.quantity as real + HALF_UNIT
  {
    hide CostOf, Flow;
    ErrorScales(f.quantity, f.price, o.price, HALF_UNIT);
    FlowError(f.side, CostOf(f.quantity, f.price), CostOf(o.order.request.quantity, o.price),
              f.commission, o.commission, HALF_UNIT * f.quantity as real, HALF_UNIT);
  }

  lemma FlowError(side: Side, v: real, v': real, c: real, c': real, e: real, e': real)
    requires Abs(v - v') <= e && Abs(c - c') <= e'
    ensures Abs(Flow(side, v, c) - Flow(side, v', c')) <= e + e'
  {
  }

  lemma ErrorScales(quantity: Quantity, x: real, y: real, tolerance: real)
    requires Abs(x - y) <= tolerance
    ensures Abs(CostOf(quantity, x) - CostOf(quantity, y)) <= tolerance * quantity as real
  {
    var q := quantity as real;
    MulMonotone(q, x, y + tolerance);
    MulMonotone(q, y - tolerance, x);
    assert q * (y + tolerance) == q * y + tolerance * q;
    assert q * (y - tolerance) == q * y - tolerance * q;
  }
}
