/** The event-driven replay: the broker object, the bar loop, and what holds over every
    run of it whatever the strategy does. */
module Backtester {
  import opened MarketData
  import opened Numbers
  import opened Positions
  import opened Sequences
  import opened Signals
  import opened SimulatedBroker
  import opened OrderQueue
  import opened Ledger
  import opened Replay

  class SimBroker {
    const config: Config
    var cash: real
    var symbols: seq<string>
    var positions: map<string, Position>
    var pendingOrders: seq<Order>
    var filledOrders: seq<FilledOrder>
    var fills: seq<Fill>
    var equityCurve: seq<Snapshot>
    var totalCommission: real
    var totalSlippage: real
    var submitted: seq<Order>

    function Contents(): State
      reads this
    {
      State(cash, symbols, positions, pendingOrders, filledOrders, fills, equityCurve,
            totalCommission, totalSlippage, submitted)
    }

    constructor (cfg: Config)
      ensures config == cfg && Contents() == Initial(cfg)
    {
      config := cfg;
      cash := cfg.initialCapital;
      symbols, positions := [], map[];
      pendingOrders, filledOrders, fills, equityCurve, submitted := [], [], [], [], [];
      totalCommission, totalSlippage := 0.0, 0.0;
    }

    method SubmitOrder(request: OrderRequest, at: Origin) returns (id: nat)
      modifies this
      ensures Contents() == Submit(old(Contents()), request, at)
      ensures id == |old(submitted)|
    {
      id := |submitted|;
      var entry := Order(id, request, at);
      pendingOrders := pendingOrders + [entry];
      submitted := submitted + [entry];
    }

    method SubmitOrders(requests: seq<OrderRequest>, at: Origin)
      modifies this
      ensures Contents() == SubmitAll(old(Contents()), requests, at)
    {
      var k := 0;
      while k < |requests|
        invariant 0 <= k <= |requests|
        invariant SubmitAll(Contents(), requests[k..], at) == SubmitAll(old(Contents()), requests, at)
      {
        assert requests[k..][1..] == requests[k + 1..];
        var id := SubmitOrder(requests[k], at);
        k := k + 1;
      }
    }

    method UpdatePosition(symbol: string, t: Trade) returns (pnl: real)
      modifies this`symbols, this`positions
      ensures var before := At(old(positions), symbol);
        positions == old(positions)[symbol := ApplyTrade(before, t)] && pnl == TradePnl(before, t)
      ensures symbols == if symbol in old(positions) then old(symbols) else old(symbols) + [symbol]
    {
      if symbol !in positions {
        positions := positions[symbol := FLAT];
        symbols := symbols + [symbol];
      }
      var pos;
      pos, pnl := UpdateRecord(positions[symbol], t);
      positions := positions[symbol := pos];
      assert positions == old(positions)[symbol := pos];
    }

    /** The four branches of the update, each assigning the fields in the source's order. */
    static method UpdateRecord(before: Position, t: Trade) returns (pos: Position, pnl: real)
      ensures pos == ApplyTrade(before, t) && pnl == TradePnl(before, t)
    {
      hide Gain, Blend;
      var held, average := before.quantity, before.averagePrice;
      pos, pnl := before, 0.0;
      assert held <= 0 ==> AbsInt(held) == -held;
      if t.side.Buy? {
        if held >= 0 {
          pos := pos.(averagePrice := Blend(held, average, t));
          pos := pos.(quantity := held + t.quantity);
        } else {
          pnl := Gain(t.price, average, MinInt(t.quantity, AbsInt(held)));
          pos := pos.(realizedPnl := pos.realizedPnl + pnl);
          pos := pos.(quantity := held + t.quantity);
          if pos.quantity > 0 {
            pos := pos.(averagePrice := t.price);
          }
        }
        pos := pos.(buyValue := pos.buyValue + t.Value());
      } else {
        if held <= 0 {
          // held - quantity is never zero, so the source's fallback average is unreachable
          pos := pos.(averagePrice := Blend(AbsInt(held), average, t));
          pos := pos.(quantity := held - t.quantity);
        } else {
          pnl := Gain(average, t.price, MinInt(t.quantity, held));
          pos := pos.(realizedPnl := pos.realizedPnl + pnl);
          pos := pos.(quantity := held - t.quantity);
          if pos.quantity < 0 {
            pos := pos.(averagePrice := t.price);
          }
        }
        pos := pos.(sellValue := pos.sellValue + t.Value());
      }
    }

    method ExecuteFill(order: Order, fillPrice: real, candle: Candle, bar: int)
      modifies this
      ensures Contents() == Execute(config, old(Contents()), order, fillPrice, candle, bar)
    {
      hide ApplyTrade, TradePnl, CommissionOn, Round4;
      var r := order.request;
      var t := Trade(r.side, r.quantity, fillPrice);
      var tradeValue := t.Value();
      var commission := CommissionOn(tradeValue, config.commissionPct);
      var slippageCost := Abs(fillPrice - candle.open) * r.quantity as real;
      totalCommission := totalCommission + commission;
      totalSlippage := totalSlippage + slippageCost;
      var pnl := UpdatePosition(r.symbol, t);
      if r.side.Buy? {
        cash := cash - (tradeValue + commission);
      } else {
        cash := cash + (tradeValue - commission);
      }
      var fill := Fill(order.id, r.symbol, r.side, r.quantity, Round4(fillPrice), Round4(commission), candle.datetime);
      fills := fills + [fill];
      filledOrders := filledOrders + [FilledOrder(order, fillPrice, commission, pnl, bar)];
    }

    /** The list being iterated grows while callbacks run: the loop reads its length anew
        each time round, and only at the end is it replaced. */
    method ProcessPendingOrders(candle: Candle, bar: int, reactions: seq<seq<OrderRequest>>)
      modifies this
      ensures Contents() == Drain(config, old(Contents()), candle, bar, reactions)
    {
      var stillPending: seq<Order> := [];
      var left := reactions;
      var i := 0;
      while i < |pendingOrders|
        invariant 0 <= i <= |pendingOrders|
        invariant DrainFrom(config, Contents(), i, stillPending, candle, bar, left)
                  == Drain(config, old(Contents()), candle, bar, reactions)
        decreases |left|, |pendingOrders| - i
      {
        var order := pendingOrders[i];
        var price := FillPrice(config.slippagePct, order.request, candle);
        if price.Some? {
          ExecuteFill(order, price.value, candle, bar);
          SubmitOrders(Head(left), Origin(bar, true));
          left := Tail(left);
        } else {
          stillPending := stillPending + [order];
        }
        i := i + 1;
      }
      pendingOrders := stillPending;
    }

    method RecordEquitySnapshot(candle: Candle, prices: map<string, real>)
      modifies this`equityCurve
      ensures Contents() == Snap(old(Contents()), candle, prices)
    {
      var portfolioValue := cash + PositionValue(symbols, positions, prices);
      var realized := RealizedPnl(symbols, positions);
      var unrealized := UnrealizedPnl(symbols, positions, prices);
      equityCurve := equityCurve + [
        Snapshot(candle.datetime, Round2(portfolioValue), Round2(cash), Round2(realized), Round2(unrealized))];
    }
  }

  const REQUIRED_COLUMNS := {"open", "high", "low", "close", "volume"}

  /** The event-driven replay. A data frame that is empty or lacks a column is refused before
      anything happens. */
  method Run(broker: SimBroker, setup: Setup, script: Script, columns: set<string>) returns (ok: bool)
    requires broker.config == setup.config && broker.Contents() == Initial(setup.config)
    modifies broker
    ensures ok <==> setup.candles != [] && REQUIRED_COLUMNS <= columns
    ensures !ok ==> broker.Contents() == old(broker.Contents())
    ensures ok ==>
      var n := BarsRun(setup, script, 0);
      && broker.Contents() == SubmitAll(After(setup, script, n), Requests(script.onStop), Origin(n, false))
      && Sound(setup.config, broker.Contents(), n + 1, n)
  {
    hide Drain, SubmitAll, Snap, Sound, Requests, AllRequests;
    if setup.candles == [] {
      return false;
    }
    if !(REQUIRED_COLUMNS <= columns) {
      return false;
    }
    broker.SubmitOrders(Requests(script.onStart), Origin(-1, false));
    var running := !script.stopAtStart;
    var k := 0;
    while k < |setup.candles| && running
      invariant 0 <= k <= |setup.candles|
      invariant broker.Contents() == After(setup, script, k)
      invariant running <==> !(if k == 0 then script.stopAtStart else ScriptAt(script, k - 1).stop)
      invariant BarsRun(setup, script, k) == BarsRun(setup, script, 0)
    {
      var candle, b := setup.candles[k], ScriptAt(script, k);
      broker.ProcessPendingOrders(candle, k, AllRequests(b.onFill));
      broker.SubmitOrders(Requests(b.onTick), Origin(k, false));
      if k >= setup.warmupBars {
        broker.SubmitOrders(Requests(b.onCandle), Origin(k, false));
      }
      broker.RecordEquitySnapshot(candle, map[setup.symbol := candle.close]);
      running := !b.stop;
      k := k + 1;
    }
    FinishedRunIsSound(setup, script, k);
    broker.SubmitOrders(Requests(script.onStop), Origin(k, false));
    return true;
  }
}
