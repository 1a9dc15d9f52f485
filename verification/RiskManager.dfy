/** The risk gate: ten checks in order, the first failure blocks. Storage calls succeed
    and signals arrive one at a time. */
module RiskManager {
  import opened Numbers
  import opened Positions
  import opened Sequences
  import opened Signals
  import opened RedisClient

  datatype Config = Config(
    dailyLossLimit: real,
    maxDrawdownPct: real,
    maxOpenPositions: int,
    totalCapital: real,
    maxCapitalPerTradePct: real,
    blockedSymbols: set<string>,
    blockedExchanges: set<string>,
    maxPositionSize: Option<int>,
    signalTtlSeconds: nat
  )

  /** What the gate reads from the clock, the P&L cache, the position tables. */
  datatype Market = Market(
    open: bool,
    dailyPnl: real,
    drawdownPct: Option<real>,
    openPositions: nat,
    heldQuantity: Option<int>
  )

  datatype Request = Request(signal: Signal, broker: string, cfg: Config, market: Market)

  datatype Reason =
    | GlobalKillSwitch
    | BrokerKillSwitch(broker: string)
    | MarketClosed(time: int)
    | DailyLossLimit(pnl: real)
    | MaxDrawdown(pct: real)
    | MaxPositions(count: nat)
    | CapitalPerTrade(value: real, limit: real)
    | SymbolBlacklisted(symbol: string)
    | ExchangeBlacklisted(exchange: string)
    | DuplicateSignal(key: string)
    | PositionSize(quantity: int, maximum: int)
    | HoldNotExecutable
    | AlreadyLong(symbol: string, quantity: int)
    | AlreadyShort(symbol: string, quantity: int)

  function DirectionName(d: Direction): string {
    match d
    case GoLong => "BUY"
    case GoShort => "SELL"
    case Hold => "HOLD"
    case Exit => "EXIT"
    case NoSignal => "NONE"
  }

  /** Strategy and symbol, as the dedup key joins them. */
  function Subject(s: Signal): string { s.strategyName + ":" + s.symbol }

  function DedupKey(s: Signal): string { "dedup:" + Subject(s) + ":" + DirectionName(s.direction) }

  /** The gate's default for an unset position limit. */
  function SizeLimit(cfg: Config): int { if cfg.maxPositionSize.Some? then cfg.maxPositionSize.value else 500 }

  function TradeLimit(cfg: Config): real { cfg.totalCapital * (cfg.maxCapitalPerTradePct / 100.0) }

  // ---------------------------------------------------------------------------
  // The checks

  const CHECKS := 10

  /** The verdict of check `i`; `None` lets the signal through. */
  function Verdict(i: nat, store: Store, r: Request): Option<Reason> {
    var s, cfg, m := r.signal, r.cfg, r.market;
    if i == 0 then
      if SwitchOn(store, ALL_BROKERS) then Some(GlobalKillSwitch)
      else if SwitchOn(store, r.broker) then Some(BrokerKillSwitch(r.broker))
      else None
    else if i == 1 then
      if s.direction.Exit? || m.open then None else Some(MarketClosed(store.now))
    else if i == 2 then
      if m.dailyPnl <= -Abs(cfg.dailyLossLimit) then Some(DailyLossLimit(m.dailyPnl)) else None
    else if i == 3 then
      if m.drawdownPct.Some? && m.drawdownPct.value >= cfg.maxDrawdownPct then Some(MaxDrawdown(m.drawdownPct.value))
      else None
    else if i == 4 then
      if m.openPositions >= cfg.maxOpenPositions then Some(MaxPositions(m.openPositions)) else None
    else if i == 5 then
      if GivenInt(s.suggestedQuantity) && GivenReal(s.suggestedPrice)
         && CostOf(s.suggestedQuantity.value, s.suggestedPrice.value) > TradeLimit(cfg)
      then Some(CapitalPerTrade(CostOf(s.suggestedQuantity.value, s.suggestedPrice.value), TradeLimit(cfg)))
      else None
    else if i == 6 then
      if s.symbol in cfg.blockedSymbols then Some(SymbolBlacklisted(s.symbol))
      else if s.exchange in cfg.blockedExchanges then Some(ExchangeBlacklisted(s.exchange))
      else None
    else if i == 7 then
      if Get(store, DedupKey(s)).Some? then Some(DuplicateSignal(DedupKey(s))) else None
    else if i == 8 then
      if GivenInt(s.suggestedQuantity) && s.suggestedQuantity.value > SizeLimit(cfg)
      then Some(PositionSize(s.suggestedQuantity.value, SizeLimit(cfg)))
      else None
    else
      if s.direction.Hold? then Some(HoldNotExecutable)
      else if s.direction.Exit? || m.heldQuantity.None? then None
      else if s.direction.GoLong? && m.heldQuantity.value > 0 then Some(AlreadyLong(s.symbol, m.heldQuantity.value))
      else if s.direction.GoShort? && m.heldQuantity.value < 0 then Some(AlreadyShort(s.symbol, m.heldQuantity.value))
      else None
  }

  /** What check `i` writes: a breached loss limit arms the broker's switch, and a signal
      seen for the first time is remembered, whatever the later checks decide. */
  function Effect(i: nat, store: Store, r: Request): Store {
    if i == 2 && Verdict(2, store, r).Some? then SetSwitch(store, r.broker, true)
    else if i == 7 && Verdict(7, store, r).None? then Set(store, DedupKey(r.signal), "1", r.cfg.signalTtlSeconds)
    else store
  }

  /** Checks from number `i` on, stopping at the first that blocks. */
  function RunChecks(i: nat, store: Store, r: Request): (Store, Option<Reason>)
    decreases CHECKS - i
  {
    if i >= CHECKS then (store, None)
    else
      var after := Effect(i, store, r);
      if Verdict(i, store, r).Some? then (after, Verdict(i, store, r)) else RunChecks(i + 1, after, r)
  }

  // ---------------------------------------------------------------------------
  // The gate's state

  datatype Gate = Gate(
    store: Store,
    approved: nat,
    blocked: nat,
    reasons: seq<Reason>,            // insertion order of the counter dictionary
    counts: map<Reason, nat>
  )

  function CountOf(g: Gate, reason: Reason): nat { if reason in g.counts then g.counts[reason] else 0 }

  function Approve(g: Gate, r: Request): Gate {
    var (store, reason) := RunChecks(0, g.store, r);
    match reason
    case None => g.(store := store, approved := g.approved + 1)
    case Some(x) =>
      g.(store := store, blocked := g.blocked + 1,
         reasons := if x in g.counts then g.reasons else g.reasons + [x],
         counts := g.counts[x := CountOf(g, x) + 1])
  }

  predicate Passes(g: Gate, r: Request) { RunChecks(0, g.store, r).1.None? }

  datatype Event =
    | SignalEvent(request: Request)
    | Arm(broker: string)
    | Disarm(broker: string)
    | ArmAll
    | DisarmAll
    | ResetStats
    | Advance(seconds: nat)
    | OtherWrite(key: string, value: string, ttl: nat)    // any other user of the store

  const INITIAL := Gate(Store(0, map[]), 0, 0, [], map[])

  /** Keys that neither the switches nor the duplicate guard use. */
  predicate Foreign(key: string) { !("ks:" <= key) && !("dedup:" <= key) }

  function Step(g: Gate, e: Event): Gate {
    match e
    case SignalEvent(r) => Approve(g, r)
    case Arm(b) => g.(store := SetSwitch(g.store, b, true))
    case Disarm(b) => g.(store := SetSwitch(g.store, b, false))
    case ArmAll => g.(store := SetSwitch(g.store, ALL_BROKERS, true))
    case DisarmAll => g.(store := SetSwitch(g.store, ALL_BROKERS, false))
    case ResetStats => g.(approved := 0, blocked := 0, reasons := [], counts := map[])
    case Advance(dt) => g.(store := g.store.(now := g.store.now + dt))
    case OtherWrite(key, value, ttl) => if Foreign(key) then g.(store := Set(g.store, key, value, ttl)) else g
  }

  function Run(events: seq<Event>): Gate {
    if events == [] then INITIAL else Step(Run(Init(events)), Last(events))
  }

  /** The signal of event `i` was approved in the run. */
  predicate ApprovedAt(events: seq<Event>, i: nat)
    requires i < |events|
  {
    events[i].SignalEvent? && Passes(Run(events[..i]), events[i].request)
  }

  function TimeAt(events: seq<Event>, i: nat): int
    requires i <= |events|
  {
    Run(events[..i]).store.now
  }

  // ---------------------------------------------------------------------------
  // What one signal can write

  /** One signal writes at most one key: the switch of its broker, exactly when the loss
      limit blocks it, or its own dedup key, when that was absent. A signal that passes
      has written its dedup key. */
  ghost predicate WritesLittle(i: nat, store: Store, r: Request, store': Store, reason: Option<Reason>) {
    if reason.Some? && reason.value.DailyLossLimit? then
      i <= 2 && store' == SetSwitch(store, r.broker, true)
    else
      || (i <= 7 && Get(store, DedupKey(r.signal)).None?
          && store' == Set(store, DedupKey(r.signal), "1", r.cfg.signalTtlSeconds))
      || (store' == store && (reason.Some? || i > 7))
  }

  lemma {:induction false} ChecksWriteLittle(i: nat, store: Store, r: Request)
    ensures WritesLittle(i, store, r, RunChecks(i, store, r).0, RunChecks(i, store, r).1)
    decreases CHECKS - i
  {
    if i < CHECKS {
      ChecksWriteLittle(i + 1, Effect(i, store, r), r);
    }
  }

  lemma KeysDiffer(broker: string, s: Signal)
    ensures SwitchKey(broker) != DedupKey(s)
    ensures !Foreign(SwitchKey(broker)) && !Foreign(DedupKey(s))
  {
    assert SwitchKey(broker)[0] == 'k' && DedupKey(s)[0] == 'd';
    assert SwitchKey(broker)[..3] == "ks:" && DedupKey(s)[..6] == "dedup:";
  }

  // ---------------------------------------------------------------------------
  // The checks do not disturb each other

  /** A check that lets the signal pass writes nothing that a later one reads. */
  lemma LaterVerdictsUnmoved(i: nat, store: Store, r: Request, k: nat)
    requires i < k < CHECKS && Verdict(i, store, r).None?
    ensures Verdict(k, Effect(i, store, r), r) == Verdict(k, store, r)
  {
  }

  /** The verdict of the whole gate is the first objection that the checks raise against the
      store as it was before any of them ran. */
  lemma {:induction false} FirstObjectionFrom(i: nat, store: Store, r: Request, k: nat)
    requires i <= k <= CHECKS
    requires forall j :: i <= j < k ==> Verdict(j, store, r).None?
    requires k < CHECKS ==> Verdict(k, store, r).Some?
    ensures RunChecks(i, store, r).1 == if k < CHECKS then Verdict(k, store, r) else None
    decreases k - i
  {
    hide Verdict, Effect;
    if i < k {
      forall j | i < j < CHECKS
        ensures Verdict(j, Effect(i, store, r), r) == Verdict(j, store, r)
      {
        LaterVerdictsUnmoved(i, store, r, j);
      }
      FirstObjectionFrom(i + 1, Effect(i, store, r), r, k);
    }
  }

  /** Number of checks, from the first, that do not object. */
  function Unopposed(store: Store, r: Request, i: nat): nat
    requires i <= CHECKS
    decreases CHECKS - i
  {
    if i == CHECKS || Verdict(i, store, r).Some? then i else Unopposed(store, r, i + 1)
  }

  lemma {:induction false} UnopposedIsFirst(store: Store, r: Request, i: nat)
    requires i <= CHECKS
    ensures var k := Unopposed(store, r, i);
      && i <= k <= CHECKS
      && (forall j :: i <= j < k ==> Verdict(j, store, r).None?)
      && (k < CHECKS ==> Verdict(k, store, r).Some?)
    decreases CHECKS - i
  {
    hide Verdict;
    if i < CHECKS && Verdict(i, store, r).None? {
      UnopposedIsFirst(store, r, i + 1);
    }
  }

  /** A signal passes exactly when none of the ten checks, each judged by itself, objects. */
  lemma PassesExactlyWhenNoCheckObjects(g: Gate, r: Request)
    ensures Passes(g, r) <==> forall k: nat :: k < CHECKS ==> Verdict(k, g.store, r).None?
  {
    hide Verdict, Effect;
    var first := Unopposed(g.store, r, 0);
    UnopposedIsFirst(g.store, r, 0);
    FirstObjectionFrom(0, g.store, r, first);
  }

  /** The limits the gate is there to enforce, on the account and on the signal. */
  predicate AccountWithinLimits(store: Store, r: Request) {
    && !SwitchOn(store, ALL_BROKERS) && !SwitchOn(store, r.broker)
    && -r.market.dailyPnl < Abs(r.cfg.dailyLossLimit)
    && (r.market.drawdownPct.Some? ==> r.market.drawdownPct.value < r.cfg.maxDrawdownPct)
    && r.market.openPositions < r.cfg.maxOpenPositions
  }

  predicate SignalWithinLimits(store: Store, r: Request) {
    var s, held := r.signal, if r.market.heldQuantity.Some? then r.market.heldQuantity.value else 0;
    && (r.market.open || s.direction.Exit?)
    && (GivenInt(s.suggestedQuantity) && GivenReal(s.suggestedPrice) ==>
          CostOf(s.suggestedQuantity.value, s.suggestedPrice.value) <= TradeLimit(r.cfg))
    && (GivenInt(s.suggestedQuantity) ==> s.suggestedQuantity.value <= SizeLimit(r.cfg))
    && s.symbol !in r.cfg.blockedSymbols && s.exchange !in r.cfg.blockedExchanges
    && Get(store, DedupKey(s)).None?
    && !s.direction.Hold?
    && (s.direction.GoLong? ==> held <= 0)
    && (s.direction.GoShort? ==> held >= 0)
  }

  /** A signal passes exactly when account and signal are within every limit. */
  lemma PassesExactlyWithinLimits(g: Gate, r: Request)
    ensures Passes(g, r) <==> AccountWithinLimits(g.store, r) && SignalWithinLimits(g.store, r)
  {
    hide Passes, TradeLimit;
    PassesExactlyWhenNoCheckObjects(g, r);
    assert (forall k: nat :: k < CHECKS ==> Verdict(k, g.store, r).None?) <==>
      && Verdict(0, g.store, r).None? && Verdict(1, g.store, r).None? && Verdict(2, g.store, r).None?
      && Verdict(3, g.store, r).None? && Verdict(4, g.store, r).None? && Verdict(5, g.store, r).None?
      && Verdict(6, g.store, r).None? && Verdict(7, g.store, r).None? && Verdict(8, g.store, r).None?
      && Verdict(9, g.store, r).None?;
  }

  /** An exit is spared the market hours and the direction check and nothing else: like an
      entry, it passes only while the account is within every limit. */
  lemma ExitsPassExactlyWithinLimits(g: Gate, r: Request)
    requires r.signal.direction.Exit?
    ensures Passes(g, r) <==>
      && AccountWithinLimits(g.store, r)
      && SignalWithinLimits(g.store, r.(market := r.market.(open := true, heldQuantity := None)))
    ensures r.market.drawdownPct.Some? && r.market.drawdownPct.value >= r.cfg.maxDrawdownPct ==> !Passes(g, r)
    ensures r.market.openPositions >= r.cfg.maxOpenPositions ==> !Passes(g, r)
    ensures r.market.dailyPnl <= -Abs(r.cfg.dailyLossLimit) ==> !Passes(g, r)
  {
    hide Passes, TradeLimit, CostOf;
    PassesExactlyWithinLimits(g, r);
  }

  /** What a block reason claims is so. */
  predicate IsTrueOf(x: Reason, store: Store, r: Request) {
    var s, cfg, m := r.signal, r.cfg, r.market;
    match x
    case GlobalKillSwitch => SwitchOn(store, ALL_BROKERS)
    case BrokerKillSwitch(broker) => broker == r.broker && SwitchOn(store, broker)
    case MarketClosed(time) => time == store.now && !m.open
    case DailyLossLimit(pnl) => pnl == m.dailyPnl && -pnl >= Abs(cfg.dailyLossLimit)
    case MaxDrawdown(pct) => m.drawdownPct == Some(pct) && pct >= cfg.maxDrawdownPct
    case MaxPositions(count) => count == m.openPositions && count >= cfg.maxOpenPositions
    case CapitalPerTrade(value, limit) =>
      && s.suggestedQuantity.Some? && s.suggestedPrice.Some?
      && value == CostOf(s.suggestedQuantity.value, s.suggestedPrice.value) && limit == TradeLimit(cfg) && value > limit
    case SymbolBlacklisted(symbol) => symbol == s.symbol && symbol in cfg.blockedSymbols
    case ExchangeBlacklisted(exchange) => exchange == s.exchange && exchange in cfg.blockedExchanges
    case DuplicateSignal(key) => key == DedupKey(s) && Get(store, key).Some?
    case PositionSize(quantity, maximum) =>
      s.suggestedQuantity == Some(quantity) && maximum == SizeLimit(cfg) && quantity > maximum
    case HoldNotExecutable => s.direction.Hold?
    case AlreadyLong(symbol, quantity) =>
      symbol == s.symbol && m.heldQuantity == Some(quantity) && quantity > 0 && s.direction.GoLong?
    case AlreadyShort(symbol, quantity) =>
      symbol == s.symbol && m.heldQuantity == Some(quantity) && quantity < 0 && s.direction.GoShort?
  }

  /** Whatever reason a signal is blocked for is true of it. */
  lemma BlockReasonIsTrue(g: Gate, r: Request)
    requires !Passes(g, r)
    ensures IsTrueOf(RunChecks(0, g.store, r).1.value, g.store, r)
  {
    hide Verdict, Effect, IsTrueOf;
    var first := Unopposed(g.store, r, 0);
    UnopposedIsFirst(g.store, r, 0);
    FirstObjectionFrom(0, g.store, r, first);
    ObjectionIsTrue(first, g.store, r);
  }

  lemma ObjectionIsTrue(k: nat, store: Store, r: Request)
    requires k < CHECKS && Verdict(k, store, r).Some?
    ensures IsTrueOf(Verdict(k, store, r).value, store, r)
  {
    hide TradeLimit, CostOf, SizeLimit;
  }

  /** The limit per trade is the configured percentage of the capital. */
  lemma TradeLimitIsPercentage(cfg: Config)
    ensures TradeLimit(cfg) == cfg.totalCapital * cfg.maxCapitalPerTradePct / 100.0
  {
  }

  /** A blocked signal is counted under the first objection and under no other. */
  lemma BlockedUnderFirstObjection(g: Gate, r: Request, k: nat, other: Reason)
    requires k < CHECKS && Verdict(k, g.store, r).Some?
    requires forall j: nat :: j < k ==> Verdict(j, g.store, r).None?
    ensures CountOf(Approve(g, r), other)
            == CountOf(g, other) + if other == Verdict(k, g.store, r).value then 1 else 0
  {
    hide Verdict, Effect;
    FirstObjectionFrom(0, g.store, r, k);
  }

  // ---------------------------------------------------------------------------
  // Duplicate suppression

  /** The dedup key keeps later duplicates out until the given instant, or for ever. */
  ghost predicate Guarded(store: Store, key: string, until: Option<int>) {
    match until
    case None => key in store.entries && store.entries[key].expiry.None?
    case Some(t) =>
      store.now >= t
      || (key in store.entries && (store.entries[key].expiry.None? || store.entries[key].expiry.value >= t))
  }

  /** A lifetime of zero never ends. */
  function GuardEnd(now: int, ttl: nat): Option<int> { if ttl == 0 then None else Some(now + ttl) }

  /** The signal got as far as the duplicate check and was new to it: it is remembered,
      whatever the last two checks say. */
  predicate Remembered(g: Gate, r: Request) { forall k: nat :: k <= 7 ==> Verdict(k, g.store, r).None? }

  lemma RememberedGuards(g: Gate, r: Request)
    requires Remembered(g, r)
    ensures Get(g.store, DedupKey(r.signal)).None?
    ensures Guarded(Approve(g, r).store, DedupKey(r.signal), GuardEnd(g.store.now, r.cfg.signalTtlSeconds))
  {
    var first := Unopposed(g.store, r, 0);
    UnopposedIsFirst(g.store, r, 0);
    FirstObjectionFrom(0, g.store, r, first);
    assert Verdict(7, g.store, r).None? && Verdict(2, g.store, r).None?;
    ReachedDuplicateCheck(0, g.store, r);
  }

  /** Past the duplicate check, its key has been written. */
  lemma {:induction false} ReachedDuplicateCheck(i: nat, store: Store, r: Request)
    requires i <= 7 && forall k: nat :: i <= k <= 7 ==> Verdict(k, store, r).None?
    ensures RunChecks(i, store, r).0 == Set(store, DedupKey(r.signal), "1", r.cfg.signalTtlSeconds)
    decreases 7 - i
  {
    hide Verdict;
    if i < 7 {
      ReachedDuplicateCheck(i + 1, store, r);
    } else {
      LastChecksWriteNothing(Effect(7, store, r), r);
    }
  }

  lemma LastChecksWriteNothing(store: Store, r: Request)
    ensures RunChecks(8, store, r).0 == store
  {
    hide Verdict;
    assert RunChecks(9, store, r).0 == store by { assert RunChecks(10, store, r).0 == store; }
  }

  /** What one signal writes, exactly: its dedup key when it is remembered, its broker's
      switch when the loss limit is the first to object, and otherwise nothing. */
  lemma StoreAfterSignal(g: Gate, r: Request)
    ensures Approve(g, r).store
            == if Remembered(g, r) then Set(g.store, DedupKey(r.signal), "1", r.cfg.signalTtlSeconds)
               else if Unopposed(g.store, r, 0) == 2 then SetSwitch(g.store, r.broker, true)
               else g.store
  {
    hide Verdict, Get;
    var first := Unopposed(g.store, r, 0);
    UnopposedIsFirst(g.store, r, 0);
    if Remembered(g, r) {
      ReachedDuplicateCheck(0, g.store, r);
    } else {
      BlockedBeforeRemembering(0, g.store, r, first);
    }
  }

  /** A signal that an earlier check blocks has written at most what that check writes. */
  lemma {:induction false} BlockedBeforeRemembering(i: nat, store: Store, r: Request, k: nat)
    requires i <= k <= 7 && Verdict(k, store, r).Some?
    requires forall j: nat :: i <= j < k ==> Verdict(j, store, r).None?
    ensures RunChecks(i, store, r).0 == Effect(k, store, r)
    decreases k - i
  {
    hide Verdict;
    if i < k {
      BlockedBeforeRemembering(i + 1, store, r, k);
    }
  }

  /** A signal's key comes to life exactly when the signal is remembered; a signal that an
      earlier check stops leaves every dedup key as it was. */
  lemma KeyAppearsExactlyWhenRemembered(g: Gate, r: Request, s: Signal)
    ensures var key := DedupKey(r.signal);
      Get(g.store, key).None? && Get(Approve(g, r).store, key).Some? <==> Remembered(g, r)
    ensures !Remembered(g, r) ==> Get(Approve(g, r).store, DedupKey(s)) == Get(g.store, DedupKey(s))
  {
    StoreAfterSignal(g, r);
    KeysDiffer(r.broker, r.signal);
    KeysDiffer(r.broker, s);
    if Remembered(g, r) {
      RememberedGuards(g, r);
    }
    hide Verdict, Approve, DedupKey, SwitchKey;
  }

  /** Nothing shortens a guard: no signal, switch, other write or passage of time. */
  lemma StepKeepsGuard(g: Gate, e: Event, s: Signal, until: Option<int>)
    requires Guarded(g.store, DedupKey(s), until)
    ensures Guarded(Step(g, e).store, DedupKey(s), until)
  {
    match e
    case SignalEvent(r) =>
      KeysDiffer(r.broker, s);
      ChecksWriteLittle(0, g.store, r);
    case Arm(b) => KeysDiffer(b, s);
    case Disarm(b) => KeysDiffer(b, s);
    case ArmAll => KeysDiffer(ALL_BROKERS, s);
    case DisarmAll => KeysDiffer(ALL_BROKERS, s);
    case ResetStats =>
    case Advance(dt) =>
    case OtherWrite(key, value, ttl) => KeysDiffer("", s);
  }

  lemma {:induction false} GuardLasts(events: seq<Event>, i: nat, j: nat, s: Signal, until: Option<int>)
    requires i <= j <= |events| && Guarded(Run(events[..i]).store, DedupKey(s), until)
    ensures Guarded(Run(events[..j]).store, DedupKey(s), until)
  {
    hide Step, Guarded;
    if i < j {
      GuardLasts(events, i, j - 1, s, until);
      assert Init(events[..j]) == events[..j - 1];
      StepKeepsGuard(Run(events[..j - 1]), events[j - 1], s, until);
    }
  }

  /** The signal of event `i` was remembered in the run. */
  predicate RememberedAt(events: seq<Event>, i: nat)
    requires i < |events|
  {
    events[i].SignalEvent? && Remembered(Run(events[..i]), events[i].request)
  }

  predicate SameSignal(a: Signal, b: Signal) {
    a.strategyName == b.strategyName && a.symbol == b.symbol && a.direction == b.direction
  }

  /** In any run, two signals of the same strategy, symbol and direction that get past the
      duplicate check are at least the lifetime apart that was in force at the first,
      whatever happens between them; with a lifetime of zero the second never does. */
  lemma RememberedSignalsAreSpaced(events: seq<Event>, i: nat, j: nat)
    requires i < j < |events| && RememberedAt(events, i) && RememberedAt(events, j)
    requires SameSignal(events[i].request.signal, events[j].request.signal)
    ensures events[i].request.cfg.signalTtlSeconds > 0
    ensures TimeAt(events, j) >= TimeAt(events, i) + events[i].request.cfg.signalTtlSeconds
  {
    hide Remembered, Approve;
    var r := events[i].request;
    var until := GuardEnd(TimeAt(events, i), r.cfg.signalTtlSeconds);
    assert Init(events[..i + 1]) == events[..i];
    RememberedGuards(Run(events[..i]), r);
    GuardLasts(events, i + 1, j, r.signal, until);
    RememberedGuards(Run(events[..j]), events[j].request);
  }

  /** So duplicates of an approved signal are suppressed for its lifetime. */
  lemma DuplicatesAreSuppressed(events: seq<Event>, i: nat, j: nat)
    requires i < j < |events| && ApprovedAt(events, i) && ApprovedAt(events, j)
    requires SameSignal(events[i].request.signal, events[j].request.signal)
    ensures events[i].request.cfg.signalTtlSeconds > 0
    ensures TimeAt(events, j) >= TimeAt(events, i) + events[i].request.cfg.signalTtlSeconds
  {
    hide Run, Verdict, Passes;
    PassesExactlyWhenNoCheckObjects(Run(events[..i]), events[i].request);
    PassesExactlyWhenNoCheckObjects(Run(events[..j]), events[j].request);
    RememberedSignalsAreSpaced(events, i, j);
  }

  /** But so are retries of a signal that was never approved: one that only the size or the
      direction check blocked is not let through again within its lifetime, even once the
      cause is gone. */
  lemma BlockedSignalsSuppressTheirRetry(events: seq<Event>, i: nat, j: nat)
    requires i < j < |events| && RememberedAt(events, i) && !ApprovedAt(events, i) && events[j].SignalEvent?
    requires SameSignal(events[i].request.signal, events[j].request.signal)
    requires TimeAt(events, j) < TimeAt(events, i) + events[i].request.cfg.signalTtlSeconds
    ensures !ApprovedAt(events, j)
    ensures Verdict(8, Run(events[..i]).store, events[i].request).Some?
            || Verdict(9, Run(events[..i]).store, events[i].request).Some?
  {
    hide Run, Verdict, Passes;
    PassesExactlyWhenNoCheckObjects(Run(events[..i]), events[i].request);
    PassesExactlyWhenNoCheckObjects(Run(events[..j]), events[j].request);
    if ApprovedAt(events, j) {
      RememberedSignalsAreSpaced(events, i, j);
    }
  }

  /** The key of signal `s` was written by event `i` and lives at moment `j`. */
  ghost predicate StillGuards(events: seq<Event>, i: int, j: nat, s: Signal)
    requires j <= |events|
  {
    && 0 <= i < j && RememberedAt(events, i) && DedupKey(events[i].request.signal) == DedupKey(s)
    && var ttl := events[i].request.cfg.signalTtlSeconds;
       ttl == 0 || TimeAt(events, j) < TimeAt(events, i) + ttl
  }

  /** A dedup key in the store was put there by a remembered signal, with its lifetime. */
  ghost predicate KeyHasWriter(events: seq<Event>, j: nat, s: Signal)
    requires j <= |events|
  {
    DedupKey(s) in Run(events[..j]).store.entries ==>
      exists i :: 0 <= i < j && WroteEntry(events, i, s, Run(events[..j]).store.entries[DedupKey(s)])
  }

  ghost predicate WroteEntry(events: seq<Event>, i: nat, s: Signal, entry: Entry)
    requires i < |events|
  {
    && RememberedAt(events, i) && DedupKey(events[i].request.signal) == DedupKey(s)
    && entry == Entry("1", GuardEnd(TimeAt(events, i), events[i].request.cfg.signalTtlSeconds))
  }

  lemma {:induction false} EveryKeyHasAWriter(events: seq<Event>, j: nat, s: Signal)
    requires j <= |events|
    ensures KeyHasWriter(events, j, s)
  {
    hide Step, Remembered, DedupKey, KeyHasWriter;
    if j == 0 {
      NoKeyAtFirst(events, s);
    } else {
      EveryKeyHasAWriter(events, j - 1, s);
      StepKeepsWriters(events, j - 1, s);
    }
  }

  lemma NoKeyAtFirst(events: seq<Event>, s: Signal)
    ensures KeyHasWriter(events, 0, s)
  {
  }

  lemma StepKeepsWriters(events: seq<Event>, j: nat, s: Signal)
    requires j < |events| && KeyHasWriter(events, j, s)
    ensures KeyHasWriter(events, j + 1, s)
  {
    hide Step, Remembered, DedupKey, GuardEnd;
    assert Init(events[..j + 1]) == events[..j];
    var before, after := Run(events[..j]).store, Run(events[..j + 1]).store;
    EntryAfterStep(Run(events[..j]), events[j], s);
    if RememberedAt(events, j) && DedupKey(events[j].request.signal) == DedupKey(s) {
      assert WroteEntry(events, j, s, after.entries[DedupKey(s)]);
    } else if DedupKey(s) in after.entries {
      var i :| 0 <= i < j && WroteEntry(events, i, s, before.entries[DedupKey(s)]);
      assert WroteEntry(events, i, s, after.entries[DedupKey(s)]);
    }
  }

  /** Only a remembered signal with that key changes what is stored under it. */
  lemma EntryAfterStep(g: Gate, e: Event, s: Signal)
    ensures var key, before, after := DedupKey(s), g.store.entries, Step(g, e).store.entries;
      if e.SignalEvent? && Remembered(g, e.request) && DedupKey(e.request.signal) == key then
        key in after && after[key] == Entry("1", GuardEnd(g.store.now, e.request.cfg.signalTtlSeconds))
      else (key in after <==> key in before) && (key in before ==> after[key] == before[key])
  {
    hide Remembered, Unopposed, RunChecks;
    match e
    case SignalEvent(r) =>
      KeysDiffer(r.broker, s);
      StoreAfterSignal(g, r);
    case Arm(b) => KeysDiffer(b, s);
    case Disarm(b) => KeysDiffer(b, s);
    case ArmAll => KeysDiffer(ALL_BROKERS, s);
    case DisarmAll => KeysDiffer(ALL_BROKERS, s);
    case ResetStats =>
    case Advance(dt) =>
    case OtherWrite(key, value, ttl) => KeysDiffer("", s);
  }

  /** In every run, the duplicate check objects to a signal exactly when one with its key was
      remembered earlier and its lifetime is not over. */
  lemma DuplicateExactlyWhileRemembered(events: seq<Event>, j: nat)
    requires j < |events| && events[j].SignalEvent?
    ensures Verdict(7, Run(events[..j]).store, events[j].request).Some?
            <==> exists i :: StillGuards(events, i, j, events[j].request.signal)
  {
    hide Step, Remembered, DedupKey, Approve, Verdict, Run;
    var s := events[j].request.signal;
    DuplicateVerdict(Run(events[..j]).store, events[j].request);
    EveryKeyHasAWriter(events, j, s);
    var entries := Run(events[..j]).store.entries;
    if Get(Run(events[..j]).store, DedupKey(s)).Some? {
      var i :| 0 <= i < j && WroteEntry(events, i, s, entries[DedupKey(s)]);
      assert StillGuards(events, i, j, s);
    }
    if i :| StillGuards(events, i, j, s) {
      GuardedKeyIsLive(events, i, j, s);
    }
  }

  lemma GuardedKeyIsLive(events: seq<Event>, i: nat, j: nat, s: Signal)
    requires j <= |events| && StillGuards(events, i, j, s)
    ensures Get(Run(events[..j]).store, DedupKey(s)).Some?
  {
    hide Step, Remembered, DedupKey, Approve;
    var r := events[i].request;
    var until := GuardEnd(TimeAt(events, i), r.cfg.signalTtlSeconds);
    assert Init(events[..i + 1]) == events[..i];
    assert Run(events[..i + 1]) == Step(Run(events[..i]), events[i]);
    SignalStep(Run(events[..i]), events[i]);
    RememberedGuards(Run(events[..i]), r);
    GuardLasts(events, i + 1, j, r.signal, until);
  }

  lemma SignalStep(g: Gate, e: Event)
    requires e.SignalEvent?
    ensures Step(g, e) == Approve(g, e.request)
  {
    hide Approve;
  }

  lemma DuplicateVerdict(store: Store, r: Request)
    ensures Verdict(7, store, r).Some? <==> Get(store, DedupKey(r.signal)).Some?
  {
  }

  lemma {:induction false} TimeAdvances(events: seq<Event>, i: nat, j: nat)
    requires i <= j <= |events|
    ensures TimeAt(events, i) <= TimeAt(events, j)
  {
    hide Step;
    if i < j {
      TimeAdvances(events, i, j - 1);
      assert Init(events[..j]) == events[..j - 1];
      StepAdvances(Run(events[..j - 1]), events[j - 1]);
    }
  }

  /** The clock shows the time that has passed. */
  function Elapsed(events: seq<Event>): int {
    if events == [] then 0 else Elapsed(Init(events)) + if Last(events).Advance? then Last(events).seconds else 0
  }

  lemma {:induction false} ClockShowsElapsed(events: seq<Event>)
    ensures Run(events).store.now == Elapsed(events)
  {
    if events != [] {
      ClockShowsElapsed(Init(events));
      if Last(events).SignalEvent? {
        StoreAfterSignal(Run(Init(events)), Last(events).request);
      }
      hide Approve;
    }
  }

  lemma StepAdvances(g: Gate, e: Event)
    ensures g.store.now <= Step(g, e).store.now
  {
    if e.SignalEvent? {
      StoreAfterSignal(g, e.request);
      hide Approve;
    }
  }

  /** The next signal with the key of a signal that was new, within its lifetime: it is taken
      for a duplicate exactly when the first was remembered, that is, approved or blocked by
      one of the last two checks. A signal stopped earlier leaves its retry free. */
  lemma RetryIsADuplicateExactlyWhenRemembered(events: seq<Event>, i: nat, j: nat)
    requires i < j < |events| && events[i].SignalEvent? && events[j].SignalEvent?
    requires SameSignal(events[i].request.signal, events[j].request.signal)
    requires Get(Run(events[..i]).store, DedupKey(events[i].request.signal)).None?
    requires forall k :: i < k < j && events[k].SignalEvent? ==>
      DedupKey(events[k].request.signal) != DedupKey(events[i].request.signal)
    requires var ttl := events[i].request.cfg.signalTtlSeconds; ttl == 0 || TimeAt(events, j) < TimeAt(events, i) + ttl
    ensures Verdict(7, Run(events[..j]).store, events[j].request).Some? <==> RememberedAt(events, i)
  {
    var s := events[j].request.signal;
    assert DedupKey(events[i].request.signal) == DedupKey(s);
    hide Step, Remembered, DedupKey, Verdict, Run;
    DuplicateExactlyWhileRemembered(events, j);
    if RememberedAt(events, i) {
      assert StillGuards(events, i, j, s);
    } else if k :| StillGuards(events, k, j, s) {
      TimeAdvances(events, i, j);
      assert k < i && StillGuards(events, k, i, s);
      GuardedKeyIsLive(events, k, i, s);
    }
  }

  // ---------------------------------------------------------------------------
  // Which signals share a dedup key

  /** Direction names end in different letters, so they separate the keys. */
  lemma DirectionNamesEndApart(a: Direction, b: Direction)
    ensures Last(DirectionName(a)) == Last(DirectionName(b)) <==> a == b
  {
  }

  /** Two signals share a key exactly when they have the same direction and their strategies
      and symbols read the same once joined by a colon. */
  lemma KeysCollideExactly(a: Signal, b: Signal)
    ensures DedupKey(a) == DedupKey(b) <==> a.direction == b.direction && Subject(a) == Subject(b)
  {
    hide Subject, DirectionName;
    if DedupKey(a) == DedupKey(b) {
      KeyEndsInDirection(a);
      KeyEndsInDirection(b);
      DirectionNamesEndApart(a.direction, b.direction);
      KeyHoldsSubject(a);
      KeyHoldsSubject(b);
    }
  }

  lemma KeyEndsInDirection(s: Signal)
    ensures Last(DedupKey(s)) == Last(DirectionName(s.direction))
  {
  }

  lemma KeyHoldsSubject(s: Signal)
    ensures var key, n := DedupKey(s), |DirectionName(s.direction)| + 1;
      |key| >= 6 + n && key[6..|key| - n] == Subject(s)
  {
    hide DirectionName, Subject;
    var subject := Subject(s);
    assert DedupKey(s) == "dedup:" + (subject + (":" + DirectionName(s.direction)));
    assert |DedupKey(s)| == 6 + |subject| + 1 + |DirectionName(s.direction)|;
  }

  /** Where strategy names have no colon, a key identifies strategy, symbol and direction. */
  lemma KeysOfPlainNamesIdentify(a: Signal, b: Signal)
    requires ':' !in a.strategyName && ':' !in b.strategyName
    ensures DedupKey(a) == DedupKey(b) <==> SameSignal(a, b)
  {
    KeysCollideExactly(a, b);
    hide DedupKey;
    if Subject(a) == Subject(b) {
      FirstColon(a, b);
      FirstColon(b, a);
    }
  }

  lemma FirstColon(a: Signal, b: Signal)
    requires ':' !in b.strategyName && Subject(a) == Subject(b)
    ensures |a.strategyName| >= |b.strategyName|
    ensures |a.strategyName| == |b.strategyName| ==> a.strategyName == b.strategyName && a.symbol == b.symbol
  {
    hide Subject;
    ColonsOfSubject(a);
    ColonsOfSubject(b);
  }

  /** Where the colons of a subject are, and what stands on either side of the joining one. */
  lemma ColonsOfSubject(s: Signal)
    ensures var subject, n := Subject(s), |s.strategyName|;
      && n < |subject| && subject[n] == ':' && subject[..n] == s.strategyName && subject[n + 1..] == s.symbol
      && (':' !in s.strategyName ==> forall k :: 0 <= k < n ==> subject[k] != ':')
      && (':' !in s.symbol ==> forall k :: n < k < |subject| ==> subject[k] != ':')
  {
    var subject, n := Subject(s), |s.strategyName|;
    assert forall k :: 0 <= k < n ==> subject[k] == s.strategyName[k];
    assert forall k :: n < k < |subject| ==> subject[k] == s.symbol[k - n - 1];
  }

  predicate IsBlank(c: char) { c == ' ' || '\t' <= c <= '\r' }

  /** A symbol as the signal model's validator leaves it: trimmed and in upper case. */
  predicate NormalSymbol(x: string) {
    && (forall i :: 0 <= i < |x| ==> !('a' <= x[i] <= 'z'))
    && (x != [] ==> !IsBlank(x[0]) && !IsBlank(Last(x)))
  }

  /** Besides the colon that joins them, there is one at `k` in strategy and symbol, and what
      follows it could be a symbol. */
  predicate SplitsAt(s: Signal, k: int)
    requires 0 <= k < |Subject(s)|
  {
    k != |s.strategyName| && Subject(s)[k] == ':' && NormalSymbol(Subject(s)[k + 1..])
  }

  /** No other signal with a valid symbol shares a signal's key exactly when its strategy and
      symbol cannot be divided at another colon so as to leave a valid symbol. */
  lemma KeyIsUniqueExactlyWithoutAnotherSplit(a: Signal)
    ensures (forall b: Signal :: NormalSymbol(b.symbol) && DedupKey(a) == DedupKey(b) ==> SameSignal(a, b))
            <==> !exists k :: 0 <= k < |Subject(a)| && SplitsAt(a, k)
  {
    hide DedupKey, NormalSymbol, Subject;
    if k :| 0 <= k < |Subject(a)| && SplitsAt(a, k) {
      var b := SplitSignal(a, k);
      KeysCollideExactly(a, b);
      assert NormalSymbol(b.symbol) && DedupKey(a) == DedupKey(b);
    } else {
      forall b: Signal | NormalSymbol(b.symbol) && DedupKey(a) == DedupKey(b)
        ensures SameSignal(a, b)
      {
        KeysCollideExactly(a, b);
        ColonsOfSubject(a);
        ColonsOfSubject(b);
        assert !SplitsAt(a, |b.strategyName|);
      }
    }
  }

  /** The signal whose strategy ends at that colon. */
  lemma SplitSignal(a: Signal, k: nat) returns (b: Signal)
    requires k < |Subject(a)| && SplitsAt(a, k)
    ensures b.direction == a.direction && Subject(b) == Subject(a) && NormalSymbol(b.symbol) && !SameSignal(a, b)
  {
    hide NormalSymbol;
    var subject := Subject(a);
    b := a.(strategyName := subject[..k], symbol := subject[k + 1..]);
    assert subject == subject[..k] + ":" + subject[k + 1..];
  }

  /** In particular, a colon in the strategy's name does no harm while a lower-case letter
      follows it and the symbol has none. */
  lemma LowerCaseNamesKeepKeysApart(a: Signal, b: Signal)
    requires ':' !in a.symbol && NormalSymbol(b.symbol)
    requires forall i :: 0 <= i < |a.strategyName| && a.strategyName[i] == ':' ==>
      exists j :: i < j < |a.strategyName| && 'a' <= a.strategyName[j] <= 'z'
    ensures DedupKey(a) == DedupKey(b) ==> SameSignal(a, b)
  {
    hide DedupKey;
    KeyIsUniqueExactlyWithoutAnotherSplit(a);
    ColonsOfSubject(a);
    var subject, n := Subject(a), |a.strategyName|;
    forall k | 0 <= k < |subject|
      ensures !SplitsAt(a, k)
    {
      if k < n && subject[k] == ':' {
        assert a.strategyName[k] == subject[k];
        var j :| k < j < n && 'a' <= a.strategyName[j] <= 'z';
        assert subject[k + 1..][j - k - 1] == a.strategyName[j];
      }
    }
  }

  // ---------------------------------------------------------------------------
  // The kill switch

  predicate Disarms(e: Event, broker: string) {
    (e.Disarm? && e.broker == broker) || (e.DisarmAll? && broker == ALL_BROKERS)
  }

  predicate BlockedForLoss(g: Gate, r: Request) {
    var reason := RunChecks(0, g.store, r).1;
    reason.Some? && reason.value.DailyLossLimit?
  }

  /** The switch is on and will not expire. */
  ghost predicate Latched(store: Store, broker: string) {
    SwitchKey(broker) in store.entries && store.entries[SwitchKey(broker)] == Entry("1", None)
  }

  lemma StepKeepsLatch(g: Gate, e: Event, broker: string)
    requires Latched(g.store, broker) && !Disarms(e, broker)
    ensures Latched(Step(g, e).store, broker)
  {
    match e
    case SignalEvent(r) =>
      KeysDiffer(broker, r.signal);
      SwitchKeysDiffer(broker, r.broker);
      ChecksWriteLittle(0, g.store, r);
    case Arm(b) => SwitchKeysDiffer(b, broker);
    case Disarm(b) => SwitchKeysDiffer(b, broker);
    case ArmAll => SwitchKeysDiffer(ALL_BROKERS, broker);
    case DisarmAll => SwitchKeysDiffer(ALL_BROKERS, broker);
    case ResetStats =>
    case Advance(dt) =>
    case OtherWrite(key, value, ttl) =>
      assert SwitchKey(broker)[..3] == "ks:";
  }

  lemma {:induction false} LatchLasts(events: seq<Event>, i: nat, j: nat, broker: string)
    requires i <= j <= |events| && Latched(Run(events[..i]).store, broker)
    requires forall k :: i <= k < j ==> !Disarms(events[k], broker)
    ensures Latched(Run(events[..j]).store, broker)
  {
    hide Step, Latched;
    if i < j {
      LatchLasts(events, i, j - 1, broker);
      assert Init(events[..j]) == events[..j - 1];
      StepKeepsLatch(Run(events[..j - 1]), events[j - 1], broker);
    }
  }

  /** The event arms the broker's switch, or that of all brokers under its name: by hand, or as
      a signal of that broker that is blocked for daily loss. */
  predicate Arms(g: Gate, e: Event, broker: string) {
    || (e.Arm? && e.broker == broker)
    || (e.ArmAll? && broker == ALL_BROKERS)
    || (e.SignalEvent? && e.request.broker == broker && BlockedForLoss(g, e.request))
  }

  /** Whether the last event that set the switch armed it. */
  predicate SwitchedOn(events: seq<Event>, broker: string) {
    if events == [] then false
    else if Arms(Run(Init(events)), Last(events), broker) then true
    else if Disarms(Last(events), broker) then false
    else SwitchedOn(Init(events), broker)
  }

  ghost predicate SwitchNeverExpires(store: Store, broker: string) {
    SwitchKey(broker) in store.entries ==> store.entries[SwitchKey(broker)].expiry.None?
  }

  /** In every run a switch is on exactly when the last event that set it armed it. */
  lemma {:induction false} SwitchIsAsLastSet(events: seq<Event>, broker: string)
    ensures SwitchOn(Run(events).store, broker) <==> SwitchedOn(events, broker)
    ensures SwitchNeverExpires(Run(events).store, broker)
  {
    hide Step, Arms, Disarms, SwitchOn, SwitchNeverExpires;
    if events == [] {
      SwitchOffAtFirst(broker);
    } else {
      SwitchIsAsLastSet(Init(events), broker);
      SwitchStep(Run(Init(events)), Last(events), broker);
    }
  }

  lemma SwitchOffAtFirst(broker: string)
    ensures !SwitchOn(INITIAL.store, broker) && SwitchNeverExpires(INITIAL.store, broker)
  {
  }

  lemma SwitchStep(g: Gate, e: Event, broker: string)
    requires SwitchNeverExpires(g.store, broker)
    ensures SwitchNeverExpires(Step(g, e).store, broker)
    ensures SwitchOn(Step(g, e).store, broker)
            <==> Arms(g, e, broker) || (!Disarms(e, broker) && SwitchOn(g.store, broker))
  {
    match e
    case SignalEvent(r) =>
      KeysDiffer(broker, r.signal);
      SwitchKeysDiffer(broker, r.broker);
      ChecksWriteLittle(0, g.store, r);
      hide RunChecks;
    case Arm(b) => SwitchKeysDiffer(b, broker);
    case Disarm(b) => SwitchKeysDiffer(b, broker);
    case ArmAll => SwitchKeysDiffer(ALL_BROKERS, broker);
    case DisarmAll => SwitchKeysDiffer(ALL_BROKERS, broker);
    case ResetStats =>
    case Advance(dt) =>
    case OtherWrite(key, value, ttl) =>
      assert SwitchKey(broker)[..3] == "ks:";
  }

  /** While its own switch or that of all brokers is armed, no signal of a broker passes. */
  lemma ArmedBrokersPassNothing(events: seq<Event>, r: Request)
    requires SwitchedOn(events, r.broker) || SwitchedOn(events, ALL_BROKERS)
    ensures !Passes(Run(events), r)
  {
    hide Passes, SwitchOn, SwitchedOn, Run;
    SwitchIsAsLastSet(events, r.broker);
    SwitchIsAsLastSet(events, ALL_BROKERS);
    PassesExactlyWithinLimits(Run(events), r);
  }

  /** From the first signal blocked for daily loss on, every later signal for that broker
      is blocked by a switch, exits included and even if the P&L recovers, until the
      switch is disarmed. */
  lemma LossLatchesBroker(events: seq<Event>, i: nat, j: nat)
    requires i < j < |events| && events[i].SignalEvent? && events[j].SignalEvent?
    requires BlockedForLoss(Run(events[..i]), events[i].request)
    requires events[j].request.broker == events[i].request.broker
    requires forall k :: i < k < j ==> !Disarms(events[k], events[i].request.broker)
    ensures var reason := RunChecks(0, Run(events[..j]).store, events[j].request).1;
      reason == Some(GlobalKillSwitch) || reason == Some(BrokerKillSwitch(events[j].request.broker))
  {
    var r := events[i].request;
    assert Init(events[..i + 1]) == events[..i];
    ChecksWriteLittle(0, Run(events[..i]).store, r);
    LatchLasts(events, i + 1, j, r.broker);
  }

  /** A signal never changes another broker's switch, and it switches everybody off
      exactly when the loss limit blocks it for a broker that is called "global". */
  lemma OnlyItsOwnSwitch(g: Gate, r: Request, other: string)
    ensures other != r.broker ==> (SwitchOn(Approve(g, r).store, other) <==> SwitchOn(g.store, other))
    ensures SwitchOn(Approve(g, r).store, ALL_BROKERS)
            <==> SwitchOn(g.store, ALL_BROKERS) || (r.broker == ALL_BROKERS && BlockedForLoss(g, r))
  {
    KeysDiffer(other, r.signal);
    KeysDiffer(ALL_BROKERS, r.signal);
    SwitchKeysDiffer(other, r.broker);
    SwitchKeysDiffer(ALL_BROKERS, r.broker);
    ChecksWriteLittle(0, g.store, r);
  }

  // ---------------------------------------------------------------------------
  // Counters

  function SignalsSinceReset(events: seq<Event>): nat {
    if events == [] || Last(events).ResetStats? then 0
    else SignalsSinceReset(Init(events)) + if Last(events).SignalEvent? then 1 else 0
  }

  function TotalCount(reasons: seq<Reason>, counts: map<Reason, nat>): nat {
    if reasons == [] then 0
    else TotalCount(Init(reasons), counts) + if Last(reasons) in counts then counts[Last(reasons)] else 0
  }

  ghost predicate Tallied(g: Gate) {
    && Unique(g.reasons)
    && (forall x :: x in g.reasons <==> x in g.counts)
    && TotalCount(g.reasons, g.counts) == g.blocked
  }

  lemma {:induction false} TotalFrame(reasons: seq<Reason>, counts: map<Reason, nat>, x: Reason, n: nat)
    requires x !in reasons
    ensures TotalCount(reasons, counts[x := n]) == TotalCount(reasons, counts)
  {
    if reasons != [] {
      TotalFrame(Init(reasons), counts, x, n);
      assert Last(reasons) in reasons;
    }
  }

  lemma {:induction false} TotalUpdate(reasons: seq<Reason>, counts: map<Reason, nat>, x: Reason, n: nat)
    requires Unique(reasons) && x in reasons && x in counts
    ensures TotalCount(reasons, counts[x := n]) == TotalCount(reasons, counts) - counts[x] + n
  {
    if Last(reasons) == x {
      TotalFrame(Init(reasons), counts, x, n);
    } else {
      TotalUpdate(Init(reasons), counts, x, n);
    }
  }

  lemma ApproveKeepsTally(g: Gate, r: Request)
    requires Tallied(g)
    ensures Tallied(Approve(g, r))
    ensures Approve(g, r).approved + Approve(g, r).blocked == g.approved + g.blocked + 1
  {
    hide RunChecks, Tallied;
    var reason := RunChecks(0, g.store, r).1;
    if reason.Some? {
      TallyOneMore(g, Approve(g, r), reason.value);
    } else {
      TallyUnchanged(g, Approve(g, r));
    }
  }

  lemma TallyUnchanged(g: Gate, g': Gate)
    requires Tallied(g) && g'.reasons == g.reasons && g'.counts == g.counts && g'.blocked == g.blocked
    ensures Tallied(g')
  {
  }

  lemma TallyOneMore(g: Gate, g': Gate, x: Reason)
    requires Tallied(g) && g'.blocked == g.blocked + 1
    requires g'.reasons == if x in g.counts then g.reasons else g.reasons + [x]
    requires g'.counts == g.counts[x := CountOf(g, x) + 1]
    ensures Tallied(g')
  {
    if x in g.counts {
      TotalUpdate(g.reasons, g.counts, x, CountOf(g, x) + 1);
    } else {
      TotalFrame(g.reasons, g.counts, x, 1);
      assert Init(g'.reasons) == g.reasons;
    }
  }

  /** Throughout every run, approved and blocked signals add up to the gate calls since the
      last reset, and the counts of the block reasons add up to the blocked signals. */
  lemma {:induction false} CountersAddUp(events: seq<Event>)
    ensures Tallied(Run(events))
    ensures Run(events).approved + Run(events).blocked == SignalsSinceReset(events)
  {
    hide Step, Approve;
    if events != [] {
      CountersAddUp(Init(events));
      StepTallies(Run(Init(events)), Last(events));
    } else {
      assert Tallied(INITIAL);
    }
  }

  lemma StepTallies(g: Gate, e: Event)
    requires Tallied(g)
    ensures Tallied(Step(g, e))
    ensures var g' := Step(g, e);
      g'.approved + g'.blocked
      == if e.ResetStats? then 0 else g.approved + g.blocked + if e.SignalEvent? then 1 else 0
  {
    if e.SignalEvent? {
      ApproveKeepsTally(g, e.request);
    } else if !e.ResetStats? {
      TallyUnchanged(g, Step(g, e));
    }
  }
}
