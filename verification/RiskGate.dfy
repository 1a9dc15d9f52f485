/** The risk manager object in front of the key store, and the signal pipeline behind it. */
module RiskGate {
  import opened Numbers
  import opened Positions
  import opened Sequences
  import opened Signals
  import opened RedisClient
  import opened RiskManager
  import SimulatedBroker

  class Manager {
    const redis: Redis
    var approved: nat
    var blocked: nat
    var reasons: seq<Reason>
    var counts: map<Reason, nat>

    function Contents(): Gate
      reads this, redis
    {
      Gate(redis.Contents(), approved, blocked, reasons, counts)
    }

    constructor (client: Redis)
      ensures redis == client && Contents() == Gate(client.Contents(), 0, 0, [], map[])
    {
      redis := client;
      approved, blocked, reasons, counts := 0, 0, [], map[];
    }

    method CheckKillSwitch(r: Request) returns (reason: Option<Reason>)
      ensures reason == Verdict(0, redis.Contents(), r)
    {
      var globalOn := redis.IsKillSwitchActive(ALL_BROKERS);
      if globalOn {
        return Some(GlobalKillSwitch);
      }
      var brokerOn := redis.IsKillSwitchActive(r.broker);
      if brokerOn {
        return Some(BrokerKillSwitch(r.broker));
      }
      return None;
    }

    /** Exits are always in hours. */
    method CheckMarketHours(r: Request) returns (reason: Option<Reason>)
      ensures reason == Verdict(1, redis.Contents(), r)
    {
      if r.signal.direction.Exit? {
        return None;
      }
      if !r.market.open {
        return Some(MarketClosed(redis.now));
      }
      return None;
    }

    /** A breach arms the broker's switch. */
    method CheckDailyLossLimit(r: Request) returns (reason: Option<Reason>)
      modifies redis
      ensures reason == Verdict(2, old(redis.Contents()), r)
      ensures redis.Contents() == Effect(2, old(redis.Contents()), r)
    {
      if r.market.dailyPnl <= -Abs(r.cfg.dailyLossLimit) {
        redis.SetKillSwitch(r.broker, true);
        return Some(DailyLossLimit(r.market.dailyPnl));
      }
      return None;
    }

    /** No snapshot, no objection. */
    method CheckDrawdown(r: Request) returns (reason: Option<Reason>)
      ensures reason == Verdict(3, redis.Contents(), r)
    {
      if r.market.drawdownPct.Some? {
        var current := r.market.drawdownPct.value;
        if current >= r.cfg.maxDrawdownPct {
          return Some(MaxDrawdown(current));
        }
      }
      return None;
    }

    method CheckMaxPositions(r: Request) returns (reason: Option<Reason>)
      ensures reason == Verdict(4, redis.Contents(), r)
    {
      if r.market.openPositions >= r.cfg.maxOpenPositions {
        return Some(MaxPositions(r.market.openPositions));
      }
      return None;
    }

    method CheckCapitalPerTrade(r: Request) returns (reason: Option<Reason>)
      ensures reason == Verdict(5, redis.Contents(), r)
    {
      var s := r.signal;
      var maxTradeValue := TradeLimit(r.cfg);
      if GivenInt(s.suggestedQuantity) && GivenReal(s.suggestedPrice) {
        var tradeValue := CostOf(s.suggestedQuantity.value, s.suggestedPrice.value);
        if tradeValue > maxTradeValue {
          return Some(CapitalPerTrade(tradeValue, maxTradeValue));
        }
      }
      return None;
    }

    method CheckBlacklist(r: Request) returns (reason: Option<Reason>)
      ensures reason == Verdict(6, redis.Contents(), r)
    {
      if r.signal.symbol in r.cfg.blockedSymbols {
        return Some(SymbolBlacklisted(r.signal.symbol));
      }
      if r.signal.exchange in r.cfg.blockedExchanges {
        return Some(ExchangeBlacklisted(r.signal.exchange));
      }
      return None;
    }

    /** A signal seen for the first time is remembered for its lifetime. */
    method CheckDuplicateSignal(r: Request) returns (reason: Option<Reason>)
      modifies redis
      ensures reason == Verdict(7, old(redis.Contents()), r)
      ensures redis.Contents() == Effect(7, old(redis.Contents()), r)
    {
      var key := DedupKey(r.signal);
      var existing := redis.GetValue(key);
      if existing.Some? {
        return Some(DuplicateSignal(key));
      }
      redis.SetValue(key, "1", r.cfg.signalTtlSeconds);
      return None;
    }

    method CheckPositionSize(r: Request) returns (reason: Option<Reason>)
      ensures reason == Verdict(8, redis.Contents(), r)
    {
      var maximum := SizeLimit(r.cfg);
      if GivenInt(r.signal.suggestedQuantity) {
        if r.signal.suggestedQuantity.value > maximum {
          return Some(PositionSize(r.signal.suggestedQuantity.value, maximum));
        }
      }
      return None;
    }

    method CheckDirectionConflict(r: Request) returns (reason: Option<Reason>)
      ensures reason == Verdict(9, redis.Contents(), r)
    {
      var s := r.signal;
      if s.direction.Hold? {
        return Some(HoldNotExecutable);
      }
      if s.direction.Exit? || r.market.heldQuantity.None? {
        return None;
      }
      var held := r.market.heldQuantity.value;
      if s.direction.GoLong? && held > 0 {
        return Some(AlreadyLong(s.symbol, held));
      }
      if s.direction.GoShort? && held < 0 {
        return Some(AlreadyShort(s.symbol, held));
      }
      return None;
    }

    /** Check number `i`: its verdict, and the key it may write on the way. */
    method RunCheck(i: nat, r: Request) returns (reason: Option<Reason>)
      requires i < CHECKS
      modifies redis
      ensures reason == Verdict(i, old(redis.Contents()), r)
      ensures redis.Contents() == Effect(i, old(redis.Contents()), r)
    {
      hide Verdict;
      match i {
        case 0 => reason := CheckKillSwitch(r);
        case 1 => reason := CheckMarketHours(r);
        case 2 => reason := CheckDailyLossLimit(r);
        case 3 => reason := CheckDrawdown(r);
        case 4 => reason := CheckMaxPositions(r);
        case 5 => reason := CheckCapitalPerTrade(r);
        case 6 => reason := CheckBlacklist(r);
        case 7 => reason := CheckDuplicateSignal(r);
        case 8 => reason := CheckPositionSize(r);
        case _ => reason := CheckDirectionConflict(r);
      }
    }

    method ApproveSignal(r: Request) returns (ok: bool)
      modifies this, redis
      ensures Contents() == Approve(old(Contents()), r)
      ensures ok == Passes(old(Contents()), r)
    {
      hide Verdict, Effect;
      var i := 0;
      while i < CHECKS
        invariant 0 <= i <= CHECKS
        invariant RunChecks(i, redis.Contents(), r) == RunChecks(0, old(redis.Contents()), r)
        invariant unchanged(this)
      {
        var reason := RunCheck(i, r);
        if reason.Some? {
          blocked := blocked + 1;
          if reason.value !in counts {
            counts := counts[reason.value := 0];
            reasons := reasons + [reason.value];
          }
          counts := counts[reason.value := counts[reason.value] + 1];
          return false;
        }
        i := i + 1;
      }
      approved := approved + 1;
      return true;
    }

    method ArmKillSwitch(broker: string)
      modifies redis
      ensures Contents() == Step(old(Contents()), Arm(broker))
    {
      redis.SetKillSwitch(broker, true);
    }

    method DisarmKillSwitch(broker: string)
      modifies redis
      ensures Contents() == Step(old(Contents()), Disarm(broker))
    {
      redis.SetKillSwitch(broker, false);
    }

    method ArmGlobalKillSwitch()
      modifies redis
      ensures Contents() == Step(old(Contents()), ArmAll)
    {
      redis.SetKillSwitch(ALL_BROKERS, true);
    }

    method DisarmGlobalKillSwitch()
      modifies redis
      ensures Contents() == Step(old(Contents()), DisarmAll)
    {
      redis.SetKillSwitch(ALL_BROKERS, false);
    }

    method ResetCounters()
      modifies this
      ensures Contents() == Step(old(Contents()), ResetStats)
    {
      approved, blocked, reasons, counts := 0, 0, [], map[];
    }
  }

  // ---------------------------------------------------------------------------
  // From signal to order

  /** Python's `int`: drops the fraction. */
  function Truncate(x: real): int { if x >= 0.0 then x.Floor else -(-x).Floor }

  /** The engine's own default for an unset position limit differs from the gate's. */
  function EngineLimit(cfg: Config): int { if cfg.maxPositionSize.Some? then cfg.maxPositionSize.value else 100 }

  function Scaled(whole: real, share: Strength): real { whole * share }

  /** Gate and engine go by the same position limit exactly when one is configured; without
      one the gate lets through up to five times what the engine derives. */
  lemma LimitsAgreeExactlyWhenConfigured(cfg: Config)
    ensures SizeLimit(cfg) == EngineLimit(cfg) <==> cfg.maxPositionSize.Some?
    ensures cfg.maxPositionSize.Some? ==> EngineLimit(cfg) == cfg.maxPositionSize.value
    ensures cfg.maxPositionSize.None? ==> EngineLimit(cfg) == 100
    ensures cfg.maxPositionSize.None? ==> SizeLimit(cfg) == 5 * EngineLimit(cfg)
  {
  }

  /** The quantity suggested, or else derived from the signal's strength. */
  function OrderQuantity(s: Signal, cfg: Config): int {
    if GivenInt(s.suggestedQuantity) then s.suggestedQuantity.value
    else MaxInt(1, Truncate(Scaled(EngineLimit(cfg) as real, s.strength)))
  }

  /** No order for HOLD and NONE, nor when the request fails its validation; an EXIT sells,
      whatever is held. A suggested price of zero is not carried over. */
  function ToRequest(s: Signal, cfg: Config): Option<SimulatedBroker.OrderRequest> {
    if s.direction.Hold? || s.direction.NoSignal? then None
    else
      Validated(
        s.symbol,
        if s.direction.GoLong? then Buy else Sell,
        if GivenReal(s.suggestedPrice) then OrderType.Limit else OrderType.Market,
        OrderQuantity(s, cfg),
        if GivenReal(s.suggestedPrice) then s.suggestedPrice else None,
        s.stopLossPrice)
  }

  /** Every order that leaves the pipeline has a positive quantity; it respects the position
      limit, suggested or derived, exactly when that limit is at least one. */
  lemma OrdersRespectSizeLimit(g: Gate, r: Request)
    requires Passes(g, r) && ToRequest(r.signal, r.cfg).Some?
    ensures var quantity := ToRequest(r.signal, r.cfg).value.quantity;
      quantity >= 1 && (quantity <= SizeLimit(r.cfg) <==> SizeLimit(r.cfg) >= 1)
  {
    hide Verdict, Truncate, OrderQuantity;
    PassesExactlyWhenNoCheckObjects(g, r);
    SizeCheckBoundsSuggestion(g.store, r);
    DerivedQuantityBounds(r.signal, r.cfg);
  }

  lemma SizeCheckBoundsSuggestion(store: Store, r: Request)
    requires Verdict(8, store, r).None?
    ensures var s := r.signal; GivenInt(s.suggestedQuantity) ==>
      OrderQuantity(s, r.cfg) == s.suggestedQuantity.value <= SizeLimit(r.cfg)
  {
  }

  lemma DerivedQuantityBounds(s: Signal, cfg: Config)
    ensures !GivenInt(s.suggestedQuantity) ==> 1 <= OrderQuantity(s, cfg) <= MaxInt(1, EngineLimit(cfg))
  {
    hide Truncate, Scaled;
    DerivedQuantity(EngineLimit(cfg), s.strength);
  }

  lemma DerivedQuantity(limit: int, strength: Strength)
    ensures Truncate(Scaled(limit as real, strength)) <= MaxInt(0, limit)
  {
    hide Scaled;
    var whole := limit as real;
    if limit >= 1 {
      ShareIsPart(whole, strength);
      TruncateBelow(Scaled(whole, strength), limit);
    } else {
      ShareIsPart(-whole, strength);
      ShareOfNegation(whole, strength);
    }
  }

  lemma ShareOfNegation(whole: real, share: Strength)
    ensures Scaled(-whole, share) == -Scaled(whole, share)
  {
  }

  lemma ShareIsPart(whole: real, share: Strength)
    requires whole >= 0.0
    ensures 0.0 <= Scaled(whole, share) <= whole
  {
    assert whole * (1.0 - share) >= 0.0;
  }

  lemma TruncateBelow(x: real, n: int)
    requires 0.0 <= x <= n as real
    ensures Truncate(x) <= n
  {
  }

  lemma CapitalCheckBoundsSuggestion(store: Store, r: Request)
    requires Verdict(5, store, r).None?
    requires GivenInt(r.signal.suggestedQuantity) && GivenReal(r.signal.suggestedPrice)
    ensures CostOf(r.signal.suggestedQuantity.value, r.signal.suggestedPrice.value) <= TradeLimit(r.cfg)
  {
  }

  /** An order whose quantity and price were both suggested stays within the capital limit
      per trade. */
  lemma SuggestedOrdersRespectCapital(g: Gate, r: Request)
    requires Passes(g, r) && ToRequest(r.signal, r.cfg).Some?
    requires GivenInt(r.signal.suggestedQuantity) && GivenReal(r.signal.suggestedPrice)
    ensures var order := ToRequest(r.signal, r.cfg).value;
      && order.limitPrice == r.signal.suggestedPrice
      && CostOf(order.quantity, order.limitPrice.value) <= TradeLimit(r.cfg)
  {
    hide Verdict, Truncate, CostOf;
    PassesExactlyWhenNoCheckObjects(g, r);
    CapitalCheckBoundsSuggestion(g.store, r);
  }

  /** A derived quantity is not subject to that limit: the check has no objection, whatever
      the price, and the order exceeds the limit exactly when the price is above the limit
      divided by the quantity. */
  lemma DerivedOrdersEscapeCapitalLimit(store: Store, r: Request)
    requires !GivenInt(r.signal.suggestedQuantity) && GivenReal(r.signal.suggestedPrice)
    requires ToRequest(r.signal, r.cfg).Some?
    ensures Verdict(5, store, r).None?
    ensures var order, quantity := ToRequest(r.signal, r.cfg).value, OrderQuantity(r.signal, r.cfg);
      && order.quantity == quantity && order.limitPrice == r.signal.suggestedPrice
      && (CostOf(quantity, order.limitPrice.value) > TradeLimit(r.cfg)
          <==> order.limitPrice.value > TradeLimit(r.cfg) / quantity as real)
  {
    hide Truncate, CostOf, TradeLimit, OrderQuantity;
    AboveShare(OrderQuantity(r.signal, r.cfg), r.signal.suggestedPrice.value, TradeLimit(r.cfg));
  }

  lemma AboveShare(quantity: Quantity, price: real, limit: real)
    ensures CostOf(quantity, price) > limit <==> price > limit / quantity as real
  {
    var q := quantity as real;
    var share := limit / q;
    assert q * share == limit;
    assert price > share ==> q * (price - share) > 0.0;
    assert price <= share ==> q * (share - price) >= 0.0;
  }

  /** So an order with a price leaves the pipeline above the capital limit exactly when its
      quantity was derived and its price is that high. */
  lemma OrderExceedsCapitalExactly(g: Gate, r: Request)
    requires Passes(g, r) && ToRequest(r.signal, r.cfg).Some? && GivenReal(r.signal.suggestedPrice)
    ensures var order := ToRequest(r.signal, r.cfg).value;
      && order.limitPrice == r.signal.suggestedPrice
      && (CostOf(order.quantity, order.limitPrice.value) > TradeLimit(r.cfg)
          <==> !GivenInt(r.signal.suggestedQuantity)
               && order.limitPrice.value > TradeLimit(r.cfg) / order.quantity as real)
  {
    hide Passes, Verdict, CostOf, TradeLimit, OrderQuantity;
    if GivenInt(r.signal.suggestedQuantity) {
      SuggestedOrdersRespectCapital(g, r);
    } else {
      DerivedOrdersEscapeCapitalLimit(g.store, r);
    }
  }

  /** The source's default limits, and a signal that suggests a price and no quantity. */
  const DEFAULTS := Config(10000.0, 5.0, 10, 1000000.0, 10.0, {}, {}, None, 300)

  const QUIET := RiskManager.Market.Market(true, 0.0, None, 0, None)

  function PricedSignal(price: real): Signal { Signal("s", "INFY", "NSE", GoLong, 1.0, Some(price), None, None) }

  /** Such signals pass a fresh gate in a quiet market, and above 1000 they do exceed it. */
  lemma EscapingOrdersPassTheGate(price: real)
    requires price > 0.0
    ensures var r := Request(PricedSignal(price), "paper", DEFAULTS, QUIET);
      && Passes(RiskManager.INITIAL, r) && ToRequest(r.signal, r.cfg).Some?
      && var order := ToRequest(r.signal, r.cfg).value;
         order.quantity == 100 && (CostOf(order.quantity, price) > TradeLimit(r.cfg) <==> price > 1000.0)
  {
    hide Passes;
    var r := Request(PricedSignal(price), "paper", DEFAULTS, QUIET);
    PassesExactlyWithinLimits(RiskManager.INITIAL, r);
    assert Scaled(100.0, 1.0) == 100.0;
  }

  /** The order of a signal: a BUY for a long signal and a SELL for any other, at a suggested
      price that is not zero, for a suggested quantity that is not zero, and else for the whole
      units in the position limit times the strength, but at least one. */
  lemma OrderCarriesSignal(s: Signal, cfg: Config)
    requires ToRequest(s, cfg).Some?
    ensures var r := ToRequest(s, cfg).value;
      && r.symbol == s.symbol && (r.side == Buy <==> s.direction == GoLong)
      && r.limitPrice == (if s.suggestedPrice == Some(0.0) then None else s.suggestedPrice)
      && r.triggerPrice == s.stopLossPrice
      && (r.orderType == OrderType.Limit <==> r.limitPrice.Some?)
      && (r.orderType == OrderType.Market <==> r.limitPrice.None?)
      && (s.suggestedQuantity.Some? && s.suggestedQuantity.value != 0 ==> r.quantity == s.suggestedQuantity.value)
      && (s.suggestedQuantity.None? || s.suggestedQuantity.value == 0 ==>
            IsWholePart(r.quantity, Scaled(EngineLimit(cfg) as real, s.strength)))
  {
    hide Truncate, Scaled;
    WholePart(Scaled(EngineLimit(cfg) as real, s.strength));
  }

  /** The whole units in an amount, but at least one. */
  predicate IsWholePart(n: int, x: real) {
    && n >= 1
    && (x >= 1.0 ==> n as real <= x < n as real + 1.0)
    && (x < 1.0 ==> n == 1)
  }

  lemma WholePart(x: real)
    ensures IsWholePart(MaxInt(1, Truncate(x)), x)
  {
  }

  /** The signal asks for a trade, and no level or quantity it suggests is negative, nor a
      stop-loss price zero. */
  predicate Tradable(s: Signal) {
    && !s.direction.Hold? && !s.direction.NoSignal?
    && (s.suggestedQuantity.Some? ==> s.suggestedQuantity.value >= 0)
    && (s.suggestedPrice.Some? ==> s.suggestedPrice.value >= 0.0)
    && (s.stopLossPrice.Some? ==> s.stopLossPrice.value > 0.0)
  }

  /** The backtester's translation is the live one exactly when the signal makes no order in
      either, or suggests no price of zero and a quantity, unless the limit times the strength
      is too small to derive more than one unit. */
  lemma BacktestOrdersMatchLiveOrders(s: Signal, cfg: Config)
    ensures BacktestRequest(s) == ToRequest(s, cfg)
            <==> || !Tradable(s)
                 || (s.suggestedPrice != Some(0.0)
                     && (GivenInt(s.suggestedQuantity) || Scaled(EngineLimit(cfg) as real, s.strength) < 2.0))
    ensures ToRequest(s, cfg).Some? <==> Tradable(s)
  {
    hide Truncate, Scaled;
    DerivesOneUnit(Scaled(EngineLimit(cfg) as real, s.strength));
  }

  lemma DerivesOneUnit(x: real)
    ensures MaxInt(1, Truncate(x)) == 1 <==> x < 2.0
  {
  }

  /** An EXIT sells, whatever is held, so it shrinks the position exactly when that is long
      and not oversold by as much again; a short grows. */
  lemma ExitShrinksOnlyLongs(s: Signal, cfg: Config, held: Position, price: real)
    requires s.direction.Exit? && ToRequest(s, cfg).Some?
    ensures var order := ToRequest(s, cfg).value;
      var after := ApplyTrade(held, Trade(order.side, order.quantity, price));
      AbsInt(after.quantity) < AbsInt(held.quantity) <==> 0 < order.quantity < 2 * held.quantity
  {
    hide ApplyTrade, Truncate;
    var order := ToRequest(s, cfg).value;
    TradeAddsUp(held, Trade(order.side, order.quantity, price));
  }

  /** The pipeline object: gate, translation, placement, and routing of the order back to
      the strategy that caused it. */
  class StrategyEngine {
    const risk: Manager
    var active: map<string, nat>              // active strategies and their order counts
    var orderStrategy: map<nat, string>       // routing table
    var placed: seq<SimulatedBroker.OrderRequest>

    constructor (manager: Manager, strategies: set<string>)
      ensures risk == manager && orderStrategy == map[] && placed == []
      ensures active == map name | name in strategies :: 0
    {
      risk := manager;
      active := map name | name in strategies :: 0;
      orderStrategy, placed := map[], [];
    }

    /** An order is placed exactly when the gate approves, the signal translates and the broker
        does not fail; it is routed to its strategy under the identifier it got. */
    method ProcessSignal(r: Request, strategyName: string, brokerAnswers: bool) returns (order: Option<SimulatedBroker.OrderRequest>)
      modifies this, risk, risk.redis
      ensures risk.Contents() == Approve(old(risk.Contents()), r)
      ensures order == if Passes(old(risk.Contents()), r) && brokerAnswers then ToRequest(r.signal, r.cfg) else None
      ensures order.None? ==> placed == old(placed) && orderStrategy == old(orderStrategy) && active == old(active)
      ensures order.Some? ==>
        && placed == old(placed) + [order.value]
        && orderStrategy == old(orderStrategy)[|old(placed)| := strategyName]
        && active == (if strategyName in old(active) then old(active)[strategyName := old(active)[strategyName] + 1] else old(active))
        && order.value.quantity >= 1
        && (order.value.quantity <= SizeLimit(r.cfg) <==> SizeLimit(r.cfg) >= 1)
    {
      hide RunChecks, Verdict, Effect, ToRequest;
      ghost var before := risk.Contents();
      var approved := risk.ApproveSignal(r);
      if !approved {
        return None;
      }
      order := ToRequest(r.signal, r.cfg);
      if order.None? {
        return;
      }
      if !brokerAnswers {
        return None;
      }
      OrdersRespectSizeLimit(before, r);
      orderStrategy := orderStrategy[|placed| := strategyName];
      placed := placed + [order.value];
      if strategyName in active {
        active := active[strategyName := active[strategyName] + 1];
      }
    }
  }
}
