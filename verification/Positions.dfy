/** The averaging position engine of the simulated broker and that of the paper
    broker, as functions of the fills they are given. */
module Positions {
  import opened Numbers

  datatype Side = Buy | Sell

  datatype OrderType = Market | Limit | StopLoss | StopLossMarket

  /** `OrderRequest.quantity` is validated to be positive. */
  type Quantity = n: int | 0 < n witness 1

  datatype Trade = Trade(side: Side, quantity: Quantity, price: real) {
    /** Units added to the position: positive for a BUY, negative for a SELL. */
    function Signed(): int { if side.Buy? then quantity as int else -(quantity as int) }

    function Value(): real { CostOf(quantity, price) }
  }

  // ---------------------------------------------------------------------------
  // The simulated broker's position record

  datatype Position = Position(
    quantity: int,
    averagePrice: real,
    realizedPnl: real,
    buyValue: real,
    sellValue: real
  )

  const FLAT := Position(0, 0.0, 0.0, 0.0, 0.0)

  /** Quantity-weighted average of the held units and the traded ones. */
  function Blend(held: int, average: real, t: Trade): real
    requires held >= 0
  {
    (average * held as real + t.price * t.quantity as real) / (held + t.quantity) as real
  }

  /** Profit on units bought at one price and sold at another. */
  function Gain(bought: real, sold: real, units: int): real { (sold - bought) * units as real }

  /** One fill applied to a position; the two branches of each side are "add to the
      position" and "close it, and open the other side with what is left". */
  function ApplyTrade(p: Position, t: Trade): Position {
    if t.side.Buy? then
      var p1 := p.(quantity := p.quantity + t.quantity, buyValue := p.buyValue + t.Value());
      if p.quantity >= 0 then
        p1.(averagePrice := Blend(p.quantity, p.averagePrice, t))
      else
        var p2 := p1.(realizedPnl := p.realizedPnl + TradePnl(p, t));
        if p2.quantity > 0 then p2.(averagePrice := t.price) else p2
    else
      var p1 := p.(quantity := p.quantity - t.quantity, sellValue := p.sellValue + t.Value());
      if p.quantity <= 0 then
        p1.(averagePrice := Blend(-p.quantity, p.averagePrice, t))
      else
        var p2 := p1.(realizedPnl := p.realizedPnl + TradePnl(p, t));
        if p2.quantity < 0 then p2.(averagePrice := t.price) else p2
  }

  /** Profit realised by a fill: only units that close the opposite side count. */
  function TradePnl(p: Position, t: Trade): real {
    if t.side.Buy? then
      if p.quantity >= 0 then 0.0
      else Gain(t.price, p.averagePrice, MinInt(t.quantity, -p.quantity))
    else
      if p.quantity <= 0 then 0.0
      else Gain(p.averagePrice, t.price, MinInt(t.quantity, p.quantity))
  }

  /** The fill adds to the position instead of closing it. */
  predicate Adds(p: Position, t: Trade) { if t.side.Buy? then p.quantity >= 0 else p.quantity <= 0 }

  /** The fill closes the position and opens the other side with what is left. */
  predicate Flips(p: Position, t: Trade) { !Adds(p, t) && t.quantity > AbsInt(p.quantity) }

  function PositionAfter(ts: seq<Trade>): Position {
    if ts == [] then FLAT else ApplyTrade(PositionAfter(ts[..|ts| - 1]), ts[|ts| - 1])
  }

  // ---------------------------------------------------------------------------
  // Conservation for one symbol

  /** Units times price; of a position, its cost basis: positive for a long, negative for
      a short. */
  function CostOf(quantity: int, price: real): real { quantity as real * price }

  function Cost(p: Position): real { CostOf(p.quantity, p.averagePrice) }

  /** Cash a fill takes out of the account, commission aside. */
  function Outlay(t: Trade): real { if t.side.Buy? then t.Value() else -t.Value() }

  /** Realised profit is what was received minus what was paid, plus the cost basis
      of the units still held. */
  ghost predicate Balanced(p: Position) {
    p.realizedPnl == p.sellValue - p.buyValue + Cost(p)
  }

  /** Every fill moves exactly its outlay into cost basis, less what it realises. */
  lemma TradeConservesCost(p: Position, t: Trade)
    ensures Cost(ApplyTrade(p, t)) == Cost(p) + Outlay(t) + TradePnl(p, t)
  {
    if t.side.Buy? {
      BuyConservesCost(p, t);
    } else {
      SellConservesCost(p, t);
    }
  }

  lemma BuyConservesCost(p: Position, t: Trade)
    requires t.side.Buy?
    ensures Cost(ApplyTrade(p, t)) == Cost(p) + Outlay(t) + TradePnl(p, t)
  {
    var h, q, a, x := p.quantity as real, t.quantity as real, p.averagePrice, t.price;
    if p.quantity >= 0 {
      WeightTimesMean(h, q, a, x);
    } else {
      CoverShort(h, q, a, x);
    }
  }

  lemma SellConservesCost(p: Position, t: Trade)
    requires t.side.Sell?
    ensures Cost(ApplyTrade(p, t)) == Cost(p) + Outlay(t) + TradePnl(p, t)
  {
    var h, q, a, x := p.quantity as real, t.quantity as real, p.averagePrice, t.price;
    if p.quantity <= 0 {
      WeightTimesMean(-h, q, a, x);
      Negate(-h + q, (a * -h + x * q) / (-h + q));
      Negate(h, a);
    } else {
      SellLong(h, q, a, x);
    }
  }

  /** A weighted mean carries exactly the weighted total. */
  lemma WeightTimesMean(h: real, q: real, a: real, x: real)
    requires h + q != 0.0
    ensures (h + q) * ((a * h + x * q) / (h + q)) == h * a + q * x
  {
    var d, n := h + q, a * h + x * q;
    assert d * (n / d) == n;
  }

  lemma CoverShort(h: real, q: real, a: real, x: real)
    ensures (h + q) * a == h * a + q * x + (a - x) * q
    ensures (h + q) * x == h * a + q * x + (a - x) * -h
  {
  }

  lemma SellLong(h: real, q: real, a: real, x: real)
    ensures (h - q) * a == h * a - q * x + (x - a) * q
    ensures (h - q) * x == h * a - q * x + (x - a) * h
  {
  }

  lemma Negate(n: real, x: real)
    ensures -n * x == -(n * x)
  {
  }

  lemma TradeKeepsBalance(p: Position, t: Trade)
    requires Balanced(p)
    ensures Balanced(ApplyTrade(p, t))
  {
    TradeConservesCost(p, t);
  }

  function NetQuantity(ts: seq<Trade>): int {
    if ts == [] then 0 else NetQuantity(ts[..|ts| - 1]) + ts[|ts| - 1].Signed()
  }

  /** Value traded on one side. */
  function SideValue(ts: seq<Trade>, side: Side): real {
    if ts == [] then 0.0
    else
      var t := ts[|ts| - 1];
      SideValue(ts[..|ts| - 1], side) + if t.side == side then t.Value() else 0.0
  }

  lemma TradeAddsUp(p: Position, t: Trade)
    ensures var p' := ApplyTrade(p, t);
      && p'.quantity == p.quantity + t.Signed()
      && p'.buyValue == p.buyValue + (if t.side.Buy? then t.Value() else 0.0)
      && p'.sellValue == p.sellValue + (if t.side.Sell? then t.Value() else 0.0)
      && p'.realizedPnl == p.realizedPnl + TradePnl(p, t)
  {
  }

  /** What a whole fill history fixes about a position, whatever adds, reductions
      and flips through zero it contains. */
  lemma {:induction false} HistoryFixesPosition(ts: seq<Trade>)
    ensures var p := PositionAfter(ts);
      && p.quantity == NetQuantity(ts)
      && p.buyValue == SideValue(ts, Buy)
      && p.sellValue == SideValue(ts, Sell)
      && Balanced(p)
  {
    if ts != [] {
      HistoryFixesPosition(ts[..|ts| - 1]);
      TradeAddsUp(PositionAfter(ts[..|ts| - 1]), ts[|ts| - 1]);
      TradeKeepsBalance(PositionAfter(ts[..|ts| - 1]), ts[|ts| - 1]);
    }
  }

  // ---------------------------------------------------------------------------
  // What the average price means

  /** The accounting rules a fill must obey, stated without the averaging formula:
      quantities and values add up, the books stay balanced, adding to a position
      realises nothing, reducing it keeps its average, and flipping it restarts the
      average at the fill price. */
  ghost predicate ObeysRules(p: Position, t: Trade, p': Position) {
    && p'.quantity == p.quantity + t.Signed()
    && p'.buyValue == p.buyValue + (if t.side.Buy? then t.Value() else 0.0)
    && p'.sellValue == p.sellValue + (if t.side.Sell? then t.Value() else 0.0)
    && Balanced(p')
    && (Adds(p, t) ==> p'.realizedPnl == p.realizedPnl)
    && (!Adds(p, t) ==> p'.averagePrice == if Flips(p, t) then t.price else p.averagePrice)
  }

  /** The rules determine the engine: any record obeying them is the one it computes. */
  lemma RulesDetermineTrade(p: Position, t: Trade, p': Position)
    requires Balanced(p)
    ensures ObeysRules(p, t, p') <==> p' == ApplyTrade(p, t)
  {
    EngineObeysRules(p, t);
    if ObeysRules(p, t, p') {
      RulesAgree(p, t, p', ApplyTrade(p, t));
    }
  }

  lemma RulesAgree(p: Position, t: Trade, a: Position, b: Position)
    requires ObeysRules(p, t, a) && ObeysRules(p, t, b)
    ensures a == b
  {
    if Adds(p, t) {
      CancelFactor(a.quantity as real, a.averagePrice, b.averagePrice);
    }
  }

  lemma EngineObeysRules(p: Position, t: Trade)
    requires Balanced(p)
    ensures ObeysRules(p, t, ApplyTrade(p, t))
  {
    TradeKeepsBalance(p, t);
    TradeAddsUp(p, t);
  }

  lemma CancelFactor(n: real, x: real, y: real)
    requires n != 0.0 && n * x == n * y
    ensures x == y
  {
    assert n * (x - y) == 0.0;
  }

  /** Same side of the market: both long or both short. */
  predicate SameSide(a: int, b: int) { (a > 0 && b > 0) || (a < 0 && b < 0) }

  function SideOf(n: int): Side { if n > 0 then Buy else Sell }

  /** While a position is open, its average lies within the prices of the fills that
      opened it or added to it since fill number `k`, where `k` is any moment at which
      the account was flat or on the other side of the market. */
  lemma {:induction false} AverageWithinOpeningPrices(ts: seq<Trade>, k: nat, lo: real, hi: real)
    requires k < |ts| && NetQuantity(ts) != 0
    requires !SameSide(NetQuantity(ts[..k]), NetQuantity(ts))
    requires forall j :: k <= j < |ts| && ts[j].side == SideOf(NetQuantity(ts)) ==> lo <= ts[j].price <= hi
    ensures lo <= PositionAfter(ts).averagePrice <= hi
  {
    var before, t := ts[..|ts| - 1], ts[|ts| - 1];
    HistoryFixesPosition(ts);
    HistoryFixesPosition(before);
    if SameSide(NetQuantity(before), NetQuantity(ts)) {
      assert before[..k] == ts[..k];
      AverageWithinOpeningPrices(before, k, lo, hi);
    }
    AverageStaysWithin(PositionAfter(before), t, lo, hi);
  }

  lemma AverageStaysWithin(p: Position, t: Trade, lo: real, hi: real)
    requires p.quantity + t.Signed() != 0
    requires SameSide(p.quantity, p.quantity + t.Signed()) ==> lo <= p.averagePrice <= hi
    requires t.side == SideOf(p.quantity + t.Signed()) ==> lo <= t.price <= hi
    ensures lo <= ApplyTrade(p, t).averagePrice <= hi
  {
    if Adds(p, t) {
      BlendBetween(AbsInt(p.quantity), p.averagePrice, t, lo, hi);
    }
  }

  lemma BlendBetween(held: int, average: real, t: Trade, lo: real, hi: real)
    requires held >= 0 && (held > 0 ==> lo <= average <= hi) && lo <= t.price <= hi
    ensures lo <= Blend(held, average, t) <= hi
  {
    if held == 0 {
      MeanOfOne(average, t.price, t.quantity as real);
    } else {
      MeanBetween(held as real, t.quantity as real, average, t.price, lo, hi);
    }
  }

  // ---------------------------------------------------------------------------
  // The paper broker's engine

  datatype PaperPosition = PaperPosition(quantity: int, averagePrice: real, realizedPnl: real)

  const PAPER_FLAT := PaperPosition(0, 0.0, 0.0)

  /** The paper broker keeps no traded values, works with the magnitude of a short and
      decides a flip by the remaining quantity. */
  function ApplyPaperTrade(p: PaperPosition, t: Trade): PaperPosition {
    if t.side.Buy? then
      if p.quantity >= 0 then
        PaperPosition(p.quantity + t.quantity, Blend(p.quantity, p.averagePrice, t), p.realizedPnl)
      else
        var pnl := Gain(t.price, p.averagePrice, MinInt(t.quantity, AbsInt(p.quantity)));
        var remaining := p.quantity + t.quantity;
        PaperPosition(remaining, if remaining > 0 then t.price else p.averagePrice, p.realizedPnl + pnl)
    else
      if p.quantity <= 0 then
        PaperPosition(p.quantity - t.quantity, Blend(AbsInt(p.quantity), p.averagePrice, t), p.realizedPnl)
      else
        var pnl := Gain(p.averagePrice, t.price, MinInt(t.quantity, p.quantity));
        var remaining := p.quantity - t.quantity;
        PaperPosition(remaining, if remaining < 0 then t.price else p.averagePrice, p.realizedPnl + pnl)
  }

  function PaperPositionAfter(ts: seq<Trade>): PaperPosition {
    if ts == [] then PAPER_FLAT else ApplyPaperTrade(PaperPositionAfter(ts[..|ts| - 1]), ts[|ts| - 1])
  }

  /** On every fill history the two engines hold the same position. */
  lemma {:induction false} EnginesAgree(ts: seq<Trade>)
    ensures var p, s := PaperPositionAfter(ts), PositionAfter(ts);
      p.quantity == s.quantity && p.averagePrice == s.averagePrice && p.realizedPnl == s.realizedPnl
  {
    if ts != [] {
      EnginesAgree(ts[..|ts| - 1]);
      EngineStepsAgree(PaperPositionAfter(ts[..|ts| - 1]), PositionAfter(ts[..|ts| - 1]), ts[|ts| - 1]);
    }
  }

  lemma EngineStepsAgree(p: PaperPosition, s: Position, t: Trade)
    requires p.quantity == s.quantity && p.averagePrice == s.averagePrice && p.realizedPnl == s.realizedPnl
    ensures var p', s' := ApplyPaperTrade(p, t), ApplyTrade(s, t);
      p'.quantity == s'.quantity && p'.averagePrice == s'.averagePrice && p'.realizedPnl == s'.realizedPnl
  {
    hide Gain, Blend;
    assert p.quantity <= 0 ==> AbsInt(p.quantity) == -p.quantity;
  }
}
