/** The paper broker as a state machine over its atomic sections. Every tick starts a task
    that scans the open orders and then fills the triggered ones one by one, giving way
    to other work after each fill; placing, amending and cancelling run in between. */
module PaperBroker {
  import opened Numbers
  import opened Positions
  import opened Sequences

  type OrderId = nat

  /** A price level is positive when it is given. */
  type Level = x: Option<real> | x.Some? ==> x.value > 0.0 witness None

  datatype Key = Key(symbol: string, exchange: string, segment: string)

  datatype Request = Request(
    id: OrderId,
    key: Key,
    side: Side,
    orderType: OrderType,
    quantity: Quantity,
    price: Level,
    trigger: Level
  )

  datatype Amendment = Amendment(quantity: Option<Quantity>, price: Level, trigger: Level)

  datatype Fill = Fill(id: OrderId, key: Key, side: Side, quantity: Quantity, price: real, commission: real) {
    function AsTrade(): Trade { Trade(side, quantity, price) }
  }

  /** The history of accepted requests, which the properties below are about. */
  datatype Event =
    | Accepted(request: Request)
    | Amended(id: OrderId, change: Amendment)
    | Cancelled(id: OrderId)
    | Scanned(symbol: string, price: real, hits: seq<OrderId>)                     // a check found these triggered
    | Filled(id: OrderId, quantity: Quantity, price: real, tick: Option<real>)     // and the tick of that check

  /** A task started by a tick: about to scan, or with orders left to fill. */
  datatype Task =
    | Arrived(symbol: string, price: real)
    | Filling(symbol: string, price: real, todo: seq<OrderId>)

  datatype Config = Config(slippagePct: real, commissionPct: real)

  datatype State = State(
    openIds: seq<OrderId>,           // insertion order of the open-order dictionary
    open: map<OrderId, Request>,
    amended: set<OrderId>,           // open orders whose status is MODIFIED
    positions: map<Key, PaperPosition>,
    fills: seq<Fill>,
    lastPrices: map<string, real>,
    tasks: seq<Task>,
    log: seq<Event>
  )

  const INITIAL := State([], map[], {}, map[], [], map[], [], [])

  // ---------------------------------------------------------------------------
  // Prices and triggers

  /** A symbol without a price is taken to trade at 100. */
  function LastPrice(lastPrices: map<string, real>, symbol: string): real {
    if symbol in lastPrices then lastPrices[symbol] else 100.0
  }

  function PercentOf(value: real, pct: real): real { value * (pct / 100.0) }

  /** With slippage: at the market for no requested price, otherwise the better of the
      request and the market. */
  function QuotedPrice(cfg: Config, lastPrices: map<string, real>, symbol: string, side: Side, requested: Level): real {
    var ltp := LastPrice(lastPrices, symbol);
    var slippage := PercentOf(ltp, cfg.slippagePct);
    match requested
    case None => if side.Buy? then ltp + slippage else ltp - slippage
    case Some(limit) => if side.Buy? then Min(limit, ltp + slippage) else Max(limit, ltp - slippage)
  }

  /** Never below one paisa, rounded to 4 places. */
  function FillPrice(cfg: Config, lastPrices: map<string, real>, symbol: string, side: Side, requested: Level): real {
    Round4(Max(QuotedPrice(cfg, lastPrices, symbol, side, requested), 0.01))
  }

  function Commission(cfg: Config, quantity: Quantity, price: real): real {
    Round4(PercentOf(CostOf(quantity, price), cfg.commissionPct))
  }

  predicate Triggered(r: Request, symbol: string, price: real) {
    && r.key.symbol == symbol
    && match r.orderType
       case Market => false
       case Limit => r.price.Some? && if r.side.Buy? then price <= r.price.value else price >= r.price.value
       case _ => r.trigger.Some? && if r.side.Buy? then price >= r.trigger.value else price <= r.trigger.value
  }

  // ---------------------------------------------------------------------------
  // Atomic sections

  datatype Action =
    | Place(request: Request)
    | Modify(id: OrderId, change: Amendment)
    | Cancel(id: OrderId)
    | Tick(symbol: string, price: real)
    | Unsubscribe(symbol: string)
    | Scan(task: nat)
    | FillNext(task: nat)

  function Amend(r: Request, change: Amendment): Request {
    r.(
      price := if change.price.Some? then change.price else r.price,
      quantity := if change.quantity.Some? then change.quantity.value else r.quantity,
      trigger := if change.trigger.Some? then change.trigger else r.trigger
    )
  }

  function PositionAt(positions: map<Key, PaperPosition>, key: Key): PaperPosition {
    if key in positions then positions[key] else PAPER_FLAT
  }

  /** Records a fill of `r` at `price`, by the check of a tick unless it fills on placing. */
  function Execute(cfg: Config, s: State, r: Request, price: real, tick: Option<real>): State {
    var fill := Fill(r.id, r.key, r.side, r.quantity, price, Commission(cfg, r.quantity, price));
    s.(
      positions := s.positions[r.key := ApplyPaperTrade(PositionAt(s.positions, r.key), fill.AsTrade())],
      fills := s.fills + [fill],
      log := s.log + [Filled(r.id, r.quantity, price, tick)]
    )
  }

  /** Takes an order out of the dictionary. */
  function Pop(s: State, id: OrderId): State {
    s.(openIds := Filter(s.openIds, (x: OrderId) => x != id), open := s.open - {id}, amended := s.amended - {id})
  }

  function Next(cfg: Config, s: State, a: Action): State {
    match a
    case Place(r) =>
      var accepted := s.(log := s.log + [Accepted(r)]);
      if StatusOf(s.log, r.id) != Unknown then s   // identifiers are fresh UUIDs
      else if r.orderType.Market? then
        Execute(cfg, accepted, r, FillPrice(cfg, s.lastPrices, r.key.symbol, r.side, None), None)
      else accepted.(openIds := s.openIds + [r.id], open := s.open[r.id := r])
    case Modify(id, change) =>
      if id !in s.open then s
      else s.(
        open := s.open[id := Amend(s.open[id], change)],
        amended := s.amended + {id},
        log := s.log + [Amended(id, change)])
    case Cancel(id) =>
      if id !in s.open then s else Pop(s, id).(log := s.log + [Cancelled(id)])
    case Tick(symbol, price) =>
      s.(lastPrices := s.lastPrices[symbol := price], tasks := s.tasks + [Arrived(symbol, price)])
    case Unsubscribe(symbol) =>
      s.(lastPrices := s.lastPrices - {symbol})
    case Scan(i) =>
      if i >= |s.tasks| || s.tasks[i].Filling? then s
      else ScanOpen(s, i, s.tasks[i].symbol, s.tasks[i].price)
    case FillNext(i) =>
      if i >= |s.tasks| || s.tasks[i].Arrived? || s.tasks[i].todo == [] then s
      else FillOne(cfg, s.(tasks := s.tasks[i := Rest(s.tasks[i])]), s.tasks[i].todo[0], s.tasks[i].price)
  }

  /** The task `t` once its next order has been dealt with. */
  function Rest(t: Task): Task
    requires t.Filling? && t.todo != []
  {
    t.(todo := t.todo[1..])
  }

  /** One pass over the open orders collects those the tick triggers. */
  function ScanOpen(s: State, i: nat, symbol: string, price: real): State
    requires i < |s.tasks|
  {
    var hits := TriggeredIds(s, symbol, price);
    s.(tasks := s.tasks[i := Filling(symbol, price, hits)], log := s.log + [Scanned(symbol, price, hits)])
  }

  /** Fills an order whose trigger was seen earlier, if it is still open, at its request
      as it stands now. */
  function FillOne(cfg: Config, s: State, id: OrderId, tick: real): State {
    if id !in s.open then s
    else
      var r := s.open[id];
      Execute(cfg, Pop(s, id), r, FillPrice(cfg, s.lastPrices, r.key.symbol, r.side, r.price), Some(tick))
  }

  function TriggerTest(open: map<OrderId, Request>, symbol: string, price: real): OrderId -> bool {
    (id: OrderId) => id in open && Triggered(open[id], symbol, price)
  }

  function TriggeredIds(s: State, symbol: string, price: real): seq<OrderId> {
    Filter(s.openIds, TriggerTest(s.open, symbol, price))
  }

  function Run(cfg: Config, actions: seq<Action>): State {
    if actions == [] then INITIAL else Next(cfg, Run(cfg, Init(actions)), Last(actions))
  }

  // ---------------------------------------------------------------------------
  // What the history says of an order

  datatype Status = Unknown | Open | Done | Dropped

  /** The event is about this order; a scan changes no order. */
  predicate Concerns(e: Event, id: OrderId) {
    match e
    case Accepted(r) => r.id == id
    case Scanned(_, _, _) => false
    case _ => e.id == id
  }

  function StatusOf(log: seq<Event>, id: OrderId): Status {
    if log == [] then Unknown
    else if !Concerns(Last(log), id) then StatusOf(Init(log), id)
    else
      match Last(log)
      case Filled(_, _, _, _) => Done
      case Cancelled(_) => Dropped
      case _ => Open
  }

  /** The request as last amended. */
  function Latest(log: seq<Event>, id: OrderId): Option<Request> {
    if log == [] then None
    else if !Concerns(Last(log), id) then Latest(Init(log), id)
    else
      match Last(log)
      case Accepted(r) => Some(r)
      case Amended(_, change) =>
        var r := Latest(Init(log), id);
        if r.Some? then Some(Amend(r.value, change)) else None
      case _ => Latest(Init(log), id)
  }

  /** The price of a fill respects the current limit, up to the paisa floor and rounding. */
  predicate Honours(r: Request, price: real) {
    && price >= 0.01
    && (r.orderType.Limit? ==>
          && r.price.Some?
          && var level := Round4(Max(r.price.value, 0.01));
             if r.side.Buy? then price <= level else price >= level)
  }

  /** The event is a scan at this price that found the order triggered. */
  predicate Hits(e: Event, id: OrderId, price: real) { e.Scanned? && e.price == price && id in e.hits }

  ghost predicate HitBefore(log: seq<Event>, id: OrderId, price: real) {
    exists i :: 0 <= i < |log| && Hits(log[i], id, price)
  }

  /** The order is open at terms that the tick triggers. */
  predicate OpenAndTriggered(log: seq<Event>, id: OrderId, symbol: string, price: real) {
    StatusOf(log, id) == Open && Latest(log, id).Some? && Triggered(Latest(log, id).value, symbol, price)
  }

  /** A new order is unknown, and the order of any other event is open. A scan finds exactly
      the open orders that its tick triggers at their latest terms. A fill carries the
      quantity last requested at a price the last requested limit allows, and unless it is
      that of a market order, a scan at its tick found the order before. */
  ghost predicate LegalNext(log: seq<Event>, e: Event) {
    match e
    case Accepted(r) => StatusOf(log, r.id) == Unknown
    case Scanned(symbol, price, hits) => forall id :: id in hits <==> OpenAndTriggered(log, id, symbol, price)
    case Filled(id, quantity, price, tick) =>
      && StatusOf(log, id) == Open
      && Latest(log, id).Some?
      && quantity == Latest(log, id).value.quantity
      && Honours(Latest(log, id).value, price)
      && (tick.None? <==> Latest(log, id).value.orderType.Market?)
      && (tick.Some? ==> HitBefore(log, id, tick.value))
    case _ => StatusOf(log, e.id) == Open
  }

  ghost predicate Legal(log: seq<Event>) {
    log != [] ==> Legal(Init(log)) && LegalNext(Init(log), Last(log))
  }

  // ---------------------------------------------------------------------------
  // The invariant of every interleaving

  function TradesOf(fills: seq<Fill>, key: Key): seq<Trade> {
    if fills == [] then []
    else TradesOf(Init(fills), key) + if Last(fills).key == key then [Last(fills).AsTrade()] else []
  }

  /** A fill as the history and the fill list both know it. */
  datatype Deal = Deal(id: OrderId, quantity: Quantity, price: real)

  function Deals(log: seq<Event>): seq<Deal> {
    if log == [] then []
    else Deals(Init(log)) + if Last(log).Filled? then [Deal(Last(log).id, Last(log).quantity, Last(log).price)] else []
  }

  function FillDeals(fills: seq<Fill>): seq<Deal> {
    seq(|fills|, i requires 0 <= i < |fills| => Deal(fills[i].id, fills[i].quantity, fills[i].price))
  }

  /** The open orders are those the history calls open, each at its latest terms, except
      for the orders in `out`, which a step has taken out and not yet filled. */
  ghost predicate OpenMatchesLog(s: State, out: set<OrderId>) {
    && Legal(s.log)
    && Unique(s.openIds)
    && (forall id :: id in s.openIds <==> id in s.open)
    && (forall id :: id in s.open <==> StatusOf(s.log, id) == Open && id !in out)
    && (forall id :: id in s.open ==>
          s.open[id].id == id && Latest(s.log, id) == Some(s.open[id]) && !s.open[id].orderType.Market?)
    && s.amended <= s.open.Keys
  }

  /** Fills, positions and history tell the same story. */
  ghost predicate BooksMatchLog(s: State) {
    && FillDeals(s.fills) == Deals(s.log)
    && forall key :: PositionAt(s.positions, key) == PaperPositionAfter(TradesOf(s.fills, key))
  }

  /** Whatever a task still has to fill was found triggered by a scan at the task's tick, and
      a limit order keeps its limit. */
  ghost predicate TasksMatchLog(s: State) {
    forall i, id :: 0 <= i < |s.tasks| && s.tasks[i].Filling? && id in s.tasks[i].todo ==>
      && StatusOf(s.log, id) != Unknown
      && HitBefore(s.log, id, s.tasks[i].price)
      && (id in s.open && s.open[id].orderType.Limit? ==> s.open[id].price.Some?)
  }

  ghost predicate Valid(s: State) {
    OpenMatchesLog(s, {}) && BooksMatchLog(s) && TasksMatchLog(s)
  }

  lemma {:induction false} EveryRunIsValid(cfg: Config, actions: seq<Action>)
    ensures Valid(Run(cfg, actions))
  {
    hide Next, Valid;
    if actions == [] {
      InitialValid();
    } else {
      EveryRunIsValid(cfg, Init(actions));
      StepKeepsValid(cfg, Run(cfg, Init(actions)), Last(actions));
    }
  }

  lemma InitialValid()
    ensures Valid(INITIAL)
  {
  }

  lemma StepKeepsValid(cfg: Config, s: State, a: Action)
    requires Valid(s)
    ensures Valid(Next(cfg, s, a))
  {
    match a
    case Place(r) => PlaceKeepsValid(cfg, s, r);
    case Modify(id, change) => ModifyKeepsValid(cfg, s, id, change);
    case Cancel(id) => CancelKeepsValid(cfg, s, id);
    case Tick(symbol, price) =>
    case Unsubscribe(symbol) =>
    case Scan(i) => ScanKeepsValid(cfg, s, i);
    case FillNext(i) => FillNextKeepsValid(cfg, s, i);
  }

  /** How one more event changes what the history says. */
  lemma LogStep(log: seq<Event>, e: Event)
    ensures Init(log + [e]) == log && Last(log + [e]) == e
    ensures Deals(log + [e]) == Deals(log) + if e.Filled? then [Deal(e.id, e.quantity, e.price)] else []
    ensures forall id, price :: HitBefore(log, id, price) ==> HitBefore(log + [e], id, price)
  {
    assert Init(log + [e]) == log;
    forall id, price | HitBefore(log, id, price)
      ensures HitBefore(log + [e], id, price)
    {
      var i :| 0 <= i < |log| && Hits(log[i], id, price);
      assert Hits((log + [e])[i], id, price);
    }
  }

  lemma PriceHonours(cfg: Config, lastPrices: map<string, real>, r: Request, requested: Level)
    requires requested == r.price || !r.orderType.Limit?
    requires r.orderType.Limit? ==> r.price.Some?
    ensures Honours(r, FillPrice(cfg, lastPrices, r.key.symbol, r.side, requested))
  {
    var quoted := QuotedPrice(cfg, lastPrices, r.key.symbol, r.side, requested);
    assert r.orderType.Limit? ==> if r.side.Buy? then quoted <= r.price.value else quoted >= r.price.value;
    hide QuotedPrice, Round4;
    Round4Paisa();
    Round4Monotone(0.01, Max(quoted, 0.01));
    if r.orderType.Limit? {
      var level := Max(r.price.value, 0.01);
      if r.side.Buy? {
        Round4Monotone(Max(quoted, 0.01), level);
      } else {
        Round4Monotone(level, Max(quoted, 0.01));
      }
    }
  }

  lemma Round4Paisa()
    ensures Round4(0.01) == 0.01
  {
    assert 0.01 * 10000.0 == 100.0;
    assert RoundInt(100.0) == 100;
  }

  lemma ExecuteKeepsValid(cfg: Config, s: State, r: Request, price: real, tick: Option<real>)
    requires OpenMatchesLog(s, {r.id}) && BooksMatchLog(s) && TasksMatchLog(s)
    requires StatusOf(s.log, r.id) == Open && Latest(s.log, r.id) == Some(r) && Honours(r, price)
    requires (tick.None? <==> r.orderType.Market?) && (tick.Some? ==> HitBefore(s.log, r.id, tick.value))
    ensures Valid(Execute(cfg, s, r, price, tick))
  {
    hide Triggered, Honours, HitBefore;
    var s' := Execute(cfg, s, r, price, tick);
    var e := Filled(r.id, r.quantity, price, tick);
    LogStep(s.log, e);
    assert FillDeals(s'.fills) == FillDeals(s.fills) + [Deal(r.id, r.quantity, price)];
    PositionsStep(s.positions, s.fills, Last(s'.fills));
    assert LegalNext(s.log, e);
    assert OpenMatchesLog(s', {});
    assert BooksMatchLog(s');
    assert TasksMatchLog(s');
  }

  lemma PositionsStep(positions: map<Key, PaperPosition>, fills: seq<Fill>, f: Fill)
    requires forall key :: PositionAt(positions, key) == PaperPositionAfter(TradesOf(fills, key))
    ensures var positions' := positions[f.key := ApplyPaperTrade(PositionAt(positions, f.key), f.AsTrade())];
      forall key :: PositionAt(positions', key) == PaperPositionAfter(TradesOf(fills + [f], key))
  {
    hide ApplyPaperTrade;
    assert Init(fills + [f]) == fills;
    var ts := TradesOf(fills, f.key);
    assert (ts + [f.AsTrade()])[..|ts|] == ts;
    assert PaperPositionAfter(ts + [f.AsTrade()]) == ApplyPaperTrade(PaperPositionAfter(ts), f.AsTrade());
    forall key | key != f.key
      ensures TradesOf(fills + [f], key) == TradesOf(fills, key)
    {
    }
  }

  lemma PlaceKeepsValid(cfg: Config, s: State, r: Request)
    requires Valid(s)
    ensures Valid(Next(cfg, s, Place(r)))
  {
    if StatusOf(s.log, r.id) == Unknown {
      AcceptKeeps(s, r);
      if r.orderType.Market? {
        PriceHonours(cfg, s.lastPrices, r, None);
        hide FillPrice, Execute;
        var accepted := s.(log := s.log + [Accepted(r)]);
        ExecuteKeepsValid(cfg, accepted, r, FillPrice(cfg, s.lastPrices, r.key.symbol, r.side, None), None);
      } else {
        OpenKeeps(s.(log := s.log + [Accepted(r)]), r);
      }
    }
  }

  lemma AcceptKeeps(s: State, r: Request)
    requires Valid(s) && StatusOf(s.log, r.id) == Unknown
    ensures var accepted := s.(log := s.log + [Accepted(r)]);
      && OpenMatchesLog(accepted, {r.id}) && BooksMatchLog(accepted) && TasksMatchLog(accepted)
      && StatusOf(accepted.log, r.id) == Open && Latest(accepted.log, r.id) == Some(r)
  {
    LogStep(s.log, Accepted(r));
  }

  lemma OpenKeeps(s: State, r: Request)
    requires OpenMatchesLog(s, {r.id}) && BooksMatchLog(s) && TasksMatchLog(s)
    requires StatusOf(s.log, r.id) == Open && Latest(s.log, r.id) == Some(r)
    requires forall i :: 0 <= i < |s.tasks| && s.tasks[i].Filling? ==> r.id !in s.tasks[i].todo
    requires !r.orderType.Market?
    ensures Valid(s.(openIds := s.openIds + [r.id], open := s.open[r.id := r]))
  {
  }

  lemma ModifyKeepsValid(cfg: Config, s: State, id: OrderId, change: Amendment)
    requires Valid(s)
    ensures Valid(Next(cfg, s, Modify(id, change)))
  {
    hide OpenMatchesLog, BooksMatchLog, TasksMatchLog;
    if id in s.open {
      var s', e := Next(cfg, s, Modify(id, change)), Amended(id, change);
      BooksKept(s, s', e);
      TasksKept(s, s', e);
      OpenKeptOnAmending(s, s', id, change);
    }
  }

  lemma BooksKept(s: State, s': State, e: Event)
    requires BooksMatchLog(s) && !e.Filled?
    requires s'.log == s.log + [e] && s'.fills == s.fills && s'.positions == s.positions
    ensures BooksMatchLog(s')
  {
    hide Deals, TradesOf, PaperPositionAfter, HitBefore;
    LogStep(s.log, e);
  }

  lemma TasksKept(s: State, s': State, e: Event)
    requires TasksMatchLog(s) && s'.log == s.log + [e] && s'.tasks == s.tasks
    requires forall id :: id in s'.open ==>
      && id in s.open && s'.open[id].orderType == s.open[id].orderType
      && (s.open[id].price.Some? ==> s'.open[id].price.Some?)
    ensures TasksMatchLog(s')
  {
    hide HitBefore;
    LogStep(s.log, e);
    forall i, id | 0 <= i < |s'.tasks| && s'.tasks[i].Filling? && id in s'.tasks[i].todo
      ensures StatusOf(s'.log, id) != Unknown && HitBefore(s'.log, id, s'.tasks[i].price)
      ensures id in s'.open && s'.open[id].orderType.Limit? ==> s'.open[id].price.Some?
    {
      assert id in s.tasks[i].todo;
      assert StatusOf(s.log, id) != Unknown && HitBefore(s.log, id, s.tasks[i].price);
    }
  }

  lemma OpenKeptOnAmending(s: State, s': State, id: OrderId, change: Amendment)
    requires OpenMatchesLog(s, {}) && id in s.open
    requires s'.openIds == s.openIds && s'.open == s.open[id := Amend(s.open[id], change)]
    requires s'.amended == s.amended + {id} && s'.log == s.log + [Amended(id, change)]
    ensures OpenMatchesLog(s', {})
  {
    hide HitBefore, Honours, Triggered;
    LogStep(s.log, Amended(id, change));
  }

  lemma PopKeeps(s: State, id: OrderId)
    requires Valid(s) && id in s.open
    ensures OpenMatchesLog(Pop(s, id), {id}) && BooksMatchLog(Pop(s, id)) && TasksMatchLog(Pop(s, id))
    ensures StatusOf(s.log, id) == Open && Pop(s, id).log == s.log
  {
    hide OpenMatchesLog, BooksMatchLog, TasksMatchLog, StatusOf, Filter;
    OpenKeptOnPopping(s, id);
    BooksKeptOnPopping(s, id);
    TasksKeptOnPopping(s, id);
  }

  lemma BooksKeptOnPopping(s: State, id: OrderId)
    requires BooksMatchLog(s)
    ensures BooksMatchLog(Pop(s, id))
  {
    hide Deals, TradesOf, PaperPositionAfter, Filter;
  }

  lemma TasksKeptOnPopping(s: State, id: OrderId)
    requires TasksMatchLog(s)
    ensures TasksMatchLog(Pop(s, id))
  {
    hide HitBefore, StatusOf, Filter;
    var s' := Pop(s, id);
    forall i, x | 0 <= i < |s'.tasks| && s'.tasks[i].Filling? && x in s'.tasks[i].todo
      ensures StatusOf(s'.log, x) != Unknown && HitBefore(s'.log, x, s'.tasks[i].price)
      ensures x in s'.open && s'.open[x].orderType.Limit? ==> s'.open[x].price.Some?
    {
      assert s.tasks[i].Filling? && x in s.tasks[i].todo;
      assert StatusOf(s.log, x) != Unknown && HitBefore(s.log, x, s.tasks[i].price);
    }
    assert TasksMatchLog(s');
  }

  lemma OpenKeptOnPopping(s: State, id: OrderId)
    requires OpenMatchesLog(s, {}) && id in s.open
    ensures OpenMatchesLog(Pop(s, id), {id}) && StatusOf(s.log, id) == Open
  {
    hide Legal, Filter, StatusOf, Latest, Unique;
    PoppedIds(s.openIds, id);
  }

  lemma PoppedIds(ids: seq<OrderId>, id: OrderId)
    requires Unique(ids)
    ensures var left := Filter(ids, (x: OrderId) => x != id);
      Unique(left) && forall x :: x in left <==> x in ids && x != id
  {
    hide Filter;
    FilterUnique(ids, (x: OrderId) => x != id);
    forall x
      ensures x in Filter(ids, (y: OrderId) => y != id) <==> x in ids && x != id
    {
      FilterMember(ids, (y: OrderId) => y != id, x);
    }
  }

  lemma CancelKeepsValid(cfg: Config, s: State, id: OrderId)
    requires Valid(s)
    ensures Valid(Next(cfg, s, Cancel(id)))
  {
    hide Valid, OpenMatchesLog, BooksMatchLog, TasksMatchLog, Pop;
    if id in s.open {
      PopKeeps(s, id);
      DropKeeps(Pop(s, id), id);
    }
  }

  lemma DropKeeps(s: State, id: OrderId)
    requires OpenMatchesLog(s, {id}) && BooksMatchLog(s) && TasksMatchLog(s) && StatusOf(s.log, id) == Open
    ensures Valid(s.(log := s.log + [Cancelled(id)]))
  {
    hide HitBefore, Honours, Triggered, BooksMatchLog, TasksMatchLog;
    var s' := s.(log := s.log + [Cancelled(id)]);
    LogStep(s.log, Cancelled(id));
    BooksKept(s, s', Cancelled(id));
    TasksKept(s, s', Cancelled(id));
    assert OpenMatchesLog(s', {});
  }

  lemma ScanKeepsValid(cfg: Config, s: State, i: nat)
    requires Valid(s)
    ensures Valid(Next(cfg, s, Scan(i)))
  {
    hide Valid, Triggered, OpenAndTriggered, TriggeredIds, HitBefore, Deals;
    if i < |s.tasks| && s.tasks[i].Arrived? {
      var symbol, price := s.tasks[i].symbol, s.tasks[i].price;
      var hits := TriggeredIds(s, symbol, price);
      var e := Scanned(symbol, price, hits);
      HitsAreTriggered(s, symbol, price);
      LogStep(s.log, e);
      NewHits(s.log, e);
      ScanStep(s, i, e);
    }
  }

  lemma NewHits(log: seq<Event>, e: Event)
    requires e.Scanned?
    ensures forall id :: id in e.hits ==> HitBefore(log + [e], id, e.price)
  {
    forall id | id in e.hits
      ensures HitBefore(log + [e], id, e.price)
    {
      assert Hits((log + [e])[|log|], id, e.price);
    }
  }

  lemma HitsAreTriggered(s: State, symbol: string, price: real)
    requires Valid(s)
    ensures forall id :: id in TriggeredIds(s, symbol, price) <==> id in s.open && Triggered(s.open[id], symbol, price)
    ensures forall id :: id in TriggeredIds(s, symbol, price) <==> OpenAndTriggered(s.log, id, symbol, price)
  {
    hide Triggered, BooksMatchLog, TasksMatchLog, Legal;
    forall id
      ensures id in TriggeredIds(s, symbol, price) <==> id in s.open && Triggered(s.open[id], symbol, price)
    {
      FilterMember(s.openIds, TriggerTest(s.open, symbol, price), id);
    }
  }

  lemma ScanStep(s: State, i: nat, e: Event)
    requires Valid(s) && i < |s.tasks| && e.Scanned? && LegalNext(s.log, e)
    requires Init(s.log + [e]) == s.log && Deals(s.log + [e]) == Deals(s.log)
    requires forall id, price :: HitBefore(s.log, id, price) ==> HitBefore(s.log + [e], id, price)
    requires forall id :: id in e.hits ==> HitBefore(s.log + [e], id, e.price)
    requires forall id :: id in e.hits ==> id in s.open && Triggered(s.open[id], e.symbol, e.price)
    ensures Valid(s.(tasks := s.tasks[i := Filling(e.symbol, e.price, e.hits)], log := s.log + [e]))
  {
    hide HitBefore, LegalNext;
    var s' := s.(tasks := s.tasks[i := Filling(e.symbol, e.price, e.hits)], log := s.log + [e]);
    assert OpenMatchesLog(s', {});
    assert BooksMatchLog(s');
    assert TasksMatchLog(s');
  }

  /** What is known of the next order of a task that is still open. */
  lemma NextToFill(s: State, i: nat)
    requires Valid(s) && i < |s.tasks| && s.tasks[i].Filling? && s.tasks[i].todo != []
    requires s.tasks[i].todo[0] in s.open
    ensures var id := s.tasks[i].todo[0];
      var r := s.open[id];
      && r.id == id && StatusOf(s.log, id) == Open && Latest(s.log, id) == Some(r)
      && !r.orderType.Market? && HitBefore(s.log, id, s.tasks[i].price)
      && (r.orderType.Limit? ==> r.price.Some?)
  {
    hide HitBefore, Legal, BooksMatchLog;
    assert s.tasks[i].todo[0] in s.tasks[i].todo;
  }

  lemma RestKeepsValid(s: State, i: nat)
    requires Valid(s) && i < |s.tasks| && s.tasks[i].Filling? && s.tasks[i].todo != []
    ensures Valid(s.(tasks := s.tasks[i := Rest(s.tasks[i])]))
  {
    hide HitBefore, Legal, Deals, TradesOf, PaperPositionAfter;
    var s1 := s.(tasks := s.tasks[i := Rest(s.tasks[i])]);
    assert OpenMatchesLog(s1, {});
    assert BooksMatchLog(s1);
    assert TasksMatchLog(s1);
  }

  lemma FillNextKeepsValid(cfg: Config, s: State, i: nat)
    requires Valid(s)
    ensures Valid(Next(cfg, s, FillNext(i)))
  {
    hide Valid, OpenMatchesLog, BooksMatchLog, TasksMatchLog, Honours, HitBefore, FillPrice, Execute;
    if i < |s.tasks| && s.tasks[i].Filling? && s.tasks[i].todo != [] {
      var id, tick := s.tasks[i].todo[0], s.tasks[i].price;
      var s1 := s.(tasks := s.tasks[i := Rest(s.tasks[i])]);
      RestKeepsValid(s, i);
      if id in s.open {
        var r := s.open[id];
        NextToFill(s, i);
        PriceHonours(cfg, s.lastPrices, r, r.price);
        PopKeeps(s1, id);
        var price := FillPrice(cfg, s.lastPrices, r.key.symbol, r.side, r.price);
        ExecuteKeepsValid(cfg, Pop(s1, id), r, price, Some(tick));
      }
    }
  }

  // ---------------------------------------------------------------------------
  // What holds of every run

  function Count(log: seq<Event>, p: Event -> bool): nat { |Filter(log, p)| }

  function AcceptedCount(log: seq<Event>, id: OrderId): nat { Count(log, (e: Event) => e.Accepted? && Concerns(e, id)) }

  function FilledCount(log: seq<Event>, id: OrderId): nat { Count(log, (e: Event) => e.Filled? && Concerns(e, id)) }

  function CancelledCount(log: seq<Event>, id: OrderId): nat { Count(log, (e: Event) => e.Cancelled? && Concerns(e, id)) }

  lemma {:induction false} LegalCounts(log: seq<Event>, id: OrderId)
    requires Legal(log)
    ensures AcceptedCount(log, id) == if StatusOf(log, id) == Unknown then 0 else 1
    ensures FilledCount(log, id) == if StatusOf(log, id) == Done then 1 else 0
    ensures CancelledCount(log, id) == if StatusOf(log, id) == Dropped then 1 else 0
  {
    if log != [] {
      LegalCounts(Init(log), id);
    }
  }

  /** Under every interleaving of ticks, scans, fills, placing, amending and cancelling,
      an accepted order is accepted once and is in exactly one of three places: open,
      filled once, or cancelled once. */
  lemma EveryOrderHasOneFate(cfg: Config, actions: seq<Action>, id: OrderId)
    ensures var s := Run(cfg, actions);
      && AcceptedCount(s.log, id) <= 1
      && AcceptedCount(s.log, id)
         == (if id in s.open then 1 else 0) + FilledCount(s.log, id) + CancelledCount(s.log, id)
  {
    EveryRunIsValid(cfg, actions);
    LegalCounts(Run(cfg, actions).log, id);
  }

  lemma {:induction false} LegalPrefix(log: seq<Event>, j: nat)
    requires Legal(log) && j <= |log|
    ensures Legal(log[..j])
  {
    if j < |log| {
      LegalPrefix(Init(log), j);
      assert Init(log)[..j] == log[..j];
    } else {
      assert log[..j] == log;
    }
  }

  /** Every fill carries the quantity last requested before it, at a price the limit last
      requested allows, even when the order was amended between the scan that triggered
      it and the fill. */
  lemma FillsCarryLatestTerms(cfg: Config, actions: seq<Action>, j: nat)
    requires var log := Run(cfg, actions).log; j < |log| && log[j].Filled?
    ensures var log := Run(cfg, actions).log;
      && Latest(log[..j], log[j].id).Some?
      && var r := Latest(log[..j], log[j].id).value;
         log[j].quantity == r.quantity && Honours(r, log[j].price)
  {
    var log := Run(cfg, actions).log;
    EveryRunIsValid(cfg, actions);
    LegalPrefix(log, j + 1);
    assert Init(log[..j + 1]) == log[..j];
  }

  /** A limit order's fill never beats its limit in the wrong direction by more than
      rounding, with one exact exception: a BUY limit below the smallest price. */
  lemma LimitIsHonouredUpToRounding(r: Request, price: real)
    requires Honours(r, price) && r.orderType.Limit?
    ensures r.side.Sell? ==> price >= r.price.value - HALF_UNIT
    ensures r.side.Buy? ==> (price <= r.price.value + HALF_UNIT <==> r.price.value >= 0.01 - HALF_UNIT)
  {
    var limit := r.price.value;
    Round4Paisa();
    RoundErrors(Max(limit, 0.01));
  }

  lemma PercentIsPositive(value: real, pct: real)
    requires value >= 0.0 && pct >= 0.0
    ensures PercentOf(value, pct) >= 0.0
  {
    MulMonotone(value, 0.0, pct / 100.0);
  }

  /** Filled at the very price that triggered it, a limit order gets a price between the
      market's and its limit, for all slippage. */
  lemma PromptFillIsNoWorseThanLimit(cfg: Config, lastPrices: map<string, real>, r: Request, ltp: real)
    requires r.orderType.Limit? && Triggered(r, r.key.symbol, ltp) && ltp >= 0.01
    requires r.key.symbol in lastPrices && lastPrices[r.key.symbol] == ltp && cfg.slippagePct >= 0.0
    ensures var price := FillPrice(cfg, lastPrices, r.key.symbol, r.side, r.price);
      if r.side.Buy? then Round4(ltp) <= price <= Round4(r.price.value)
      else Round4(r.price.value) <= price <= Round4(ltp)
  {
    PercentIsPositive(ltp, cfg.slippagePct);
    var quoted := QuotedPrice(cfg, lastPrices, r.key.symbol, r.side, r.price);
    var limit := r.price.value;
    assert if r.side.Buy? then ltp <= quoted <= limit else limit <= quoted <= ltp;
    hide QuotedPrice, Round4, PercentOf;
    if r.side.Buy? {
      Round4Monotone(ltp, Max(quoted, 0.01));
      Round4Monotone(Max(quoted, 0.01), limit);
    } else {
      Round4Monotone(limit, Max(quoted, 0.01));
      Round4Monotone(Max(quoted, 0.01), ltp);
    }
  }

  /** An order without a price level pays the slippage: a buyer gets the last price or a
      higher one, a seller the last price or a lower one. */
  lemma MarketFillPaysSlippage(cfg: Config, lastPrices: map<string, real>, symbol: string, side: Side)
    requires cfg.slippagePct >= 0.0 && LastPrice(lastPrices, symbol) >= 0.01
    ensures var price, ltp := FillPrice(cfg, lastPrices, symbol, side, None), LastPrice(lastPrices, symbol);
      if side.Buy? then price >= Round4(ltp) else price <= Round4(ltp)
  {
    var ltp := LastPrice(lastPrices, symbol);
    PercentIsPositive(ltp, cfg.slippagePct);
    var quoted := QuotedPrice(cfg, lastPrices, symbol, side, None);
    assert if side.Buy? then ltp <= quoted else quoted <= ltp;
    hide QuotedPrice, Round4;
    if side.Buy? {
      Round4Monotone(ltp, Max(quoted, 0.01));
    } else {
      Round4Monotone(Max(quoted, 0.01), ltp);
    }
  }

  /** Nothing happens to an order after it has filled or been cancelled. */
  lemma {:induction false} NothingAfterTheEnd(log: seq<Event>, i: nat, j: nat)
    requires Legal(log) && i < j < |log| && (log[i].Filled? || log[i].Cancelled?)
    ensures !Concerns(log[j], log[i].id)
  {
    LegalPrefix(log, j + 1);
    LegalPrefix(log, j);
    assert Init(log[..j + 1]) == log[..j];
    EndedStays(log[..j], i);
  }

  lemma {:induction false} EndedStays(log: seq<Event>, i: nat)
    requires Legal(log) && i < |log| && (log[i].Filled? || log[i].Cancelled?)
    ensures StatusOf(log, log[i].id) == if log[i].Filled? then Done else Dropped
  {
    if i < |log| - 1 {
      EndedStays(Init(log), i);
    }
  }

  /** The position of an instrument is the net of its fills, and its realised profit is
      that of the averaging engine. */
  lemma PositionIsNetOfFills(cfg: Config, actions: seq<Action>, key: Key)
    ensures var s := Run(cfg, actions);
      var p, ts := PositionAt(s.positions, key), TradesOf(s.fills, key);
      && p.quantity == NetQuantity(ts)
      && p.realizedPnl == SideValue(ts, Sell) - SideValue(ts, Buy) + CostOf(p.quantity, p.averagePrice)
  {
    hide ApplyTrade, ApplyPaperTrade, CostOf;
    EveryRunIsValid(cfg, actions);
    var ts := TradesOf(Run(cfg, actions).fills, key);
    EnginesAgree(ts);
    HistoryFixesPosition(ts);
  }

  // ---------------------------------------------------------------------------
  // Triggers in every run

  /** The price level that decides whether an order is triggered, and the level an amendment
      puts in its place. */
  function LevelOf(r: Request): Level { if r.orderType.Limit? then r.price else r.trigger }

  function NewLevel(orderType: OrderType, change: Amendment): Level {
    if orderType.Limit? then change.price else change.trigger
  }

  /** A limit waits for the market to come to its level, a stop for it to go beyond. */
  predicate Meets(side: Side, orderType: OrderType, level: real, price: real) {
    if orderType.Limit? == side.Buy? then price <= level else price >= level
  }

  /** The last level that amendments number `a` up to `b` of the history gave the order. */
  function LastLevel(log: seq<Event>, a: nat, b: nat, id: OrderId, orderType: OrderType): Level
    requires b <= |log|
  {
    if b <= a then None
    else
      var e := log[b - 1];
      if e.Amended? && e.id == id && NewLevel(orderType, e.change).Some? then NewLevel(orderType, e.change)
      else LastLevel(log, a, b - 1, id, orderType)
  }

  /** Between two moments at which an order is known, amendments replace its terms and
      nothing else touches them. */
  lemma {:induction false} TermsBetween(log: seq<Event>, a: nat, b: nat, id: OrderId)
    requires Legal(log) && a <= b <= |log| && StatusOf(log[..a], id) != Unknown && Latest(log[..a], id).Some?
    ensures StatusOf(log[..b], id) != Unknown && Latest(log[..b], id).Some?
    ensures var r, r' := Latest(log[..a], id).value, Latest(log[..b], id).value;
      && r'.key == r.key && r'.side == r.side && r'.orderType == r.orderType
      && var last := LastLevel(log, a, b, id, r.orderType);
         LevelOf(r') == if last.Some? then last else LevelOf(r)
    decreases b
  {
    hide HitBefore;
    if a < b {
      TermsBetween(log, a, b - 1, id);
      LegalPrefix(log, b);
      assert Init(log[..b]) == log[..b - 1];
    }
  }

  /** In every run, a fill of a limit or stop order carries the price of a tick at which an
      earlier scan found the order triggered, by its terms of that moment; fills of market
      orders, and they alone, carry none. */
  lemma EveryFillWasTriggered(cfg: Config, actions: seq<Action>, j: nat)
    requires var log := Run(cfg, actions).log; j < |log| && log[j].Filled?
    ensures var log := Run(cfg, actions).log;
      && Latest(log[..j], log[j].id).Some?
      && (log[j].tick.None? <==> Latest(log[..j], log[j].id).value.orderType.Market?)
      && (log[j].tick.Some? ==> exists i :: ScanOf(log, i, j))
  {
    hide Next, Triggered, Honours;
    var log := Run(cfg, actions).log;
    EveryRunIsValid(cfg, actions);
    LegalPrefix(log, j + 1);
    assert Init(log[..j + 1]) == log[..j];
    if log[j].tick.Some? {
      var i :| 0 <= i < j && Hits(log[..j][i], log[j].id, log[j].tick.value);
      assert Hits(log[i], log[j].id, log[j].tick.value);
      ScanFoundTriggered(log, i, log[j].id);
      assert ScanOf(log, i, j);
    }
  }

  /** Event `i` is a scan at the tick of fill `j` that found the order triggered by the terms
      it had then. */
  predicate ScanOf(log: seq<Event>, i: int, j: nat)
    requires j < |log| && log[j].Filled? && log[j].tick.Some?
  {
    && 0 <= i < j && Hits(log[i], log[j].id, log[j].tick.value)
    && OpenAndTriggered(log[..i], log[j].id, log[i].symbol, log[i].price)
  }

  lemma ScanFoundTriggered(log: seq<Event>, i: nat, id: OrderId)
    requires Legal(log) && i < |log| && log[i].Scanned? && id in log[i].hits
    ensures OpenAndTriggered(log[..i], id, log[i].symbol, log[i].price)
  {
    LegalPrefix(log, i + 1);
    assert Init(log[..i + 1]) == log[..i];
  }

  lemma TriggeredByLevel(r: Request, symbol: string, price: real)
    ensures Triggered(r, symbol, price)
            <==> && r.key.symbol == symbol && !r.orderType.Market?
                 && LevelOf(r).Some? && Meets(r.side, r.orderType, LevelOf(r).value, price)
  {
  }

  /** The trigger is not looked at again between scan and fill. So the terms an order fills at
      are triggered by the tick exactly when no amendment since the scan moved its level, or
      the last that did still left it where the tick meets it. */
  lemma FillTermsTriggeredUnlessAmendedAway(cfg: Config, actions: seq<Action>, i: nat, j: nat)
    requires var log := Run(cfg, actions).log;
      j < |log| && log[j].Filled? && log[j].tick.Some? && ScanOf(log, i, j)
    ensures var log := Run(cfg, actions).log;
      && Latest(log[..j], log[j].id).Some?
      && var r := Latest(log[..j], log[j].id).value;
         var last := LastLevel(log, i, j, log[j].id, r.orderType);
         Triggered(r, log[i].symbol, log[j].tick.value)
         <==> last.None? || Meets(r.side, r.orderType, last.value, log[j].tick.value)
  {
    hide Next, Triggered, Honours;
    var log := Run(cfg, actions).log;
    EveryRunIsValid(cfg, actions);
    TermsBetween(log, i, j, log[j].id);
    TriggeredByLevel(Latest(log[..i], log[j].id).value, log[i].symbol, log[i].price);
    TriggeredByLevel(Latest(log[..j], log[j].id).value, log[i].symbol, log[i].price);
  }

  /** The step in which that happens: an order already scanned fills at its new terms. */
  lemma TriggerIsNotRechecked(cfg: Config, s: State, i: nat, change: Amendment)
    requires i < |s.tasks| && s.tasks[i].Filling? && s.tasks[i].todo != [] && s.tasks[i].todo[0] in s.open
    requires Valid(s)
    ensures var id := s.tasks[i].todo[0];
      var r := Amend(s.open[id], change);
      var s' := Next(cfg, Next(cfg, s, Modify(id, change)), FillNext(i));
      && id !in s'.open
      && s'.log == s.log + [
           Amended(id, change),
           Filled(id, r.quantity, FillPrice(cfg, s.lastPrices, r.key.symbol, r.side, r.price), Some(s.tasks[i].price))]
  {
    hide FillPrice;
  }

  /** A stop to buy at 110, triggered by a tick of 120 and moved to 200 before its fill. */
  function StopAt110(id: OrderId, key: Key): Request { Request(id, key, Buy, StopLoss, 1, None, Some(110.0)) }

  const TO_200 := Amendment(None, None, Some(200.0))

  function AmendedAwayRun(id: OrderId, key: Key): seq<Action> {
    [Place(StopAt110(id, key)), Tick(key.symbol, 120.0), Scan(0), Modify(id, TO_200), FillNext(0)]
  }

  /** It fills all the same, at terms its tick does not trigger. */
  lemma AmendedAwayOrderFills(cfg: Config, id: OrderId, key: Key)
    ensures var log := Run(cfg, AmendedAwayRun(id, key)).log;
      && |log| == 4 && log[3].Filled? && log[3].id == id && log[3].tick == Some(120.0)
      && ScanOf(log, 1, 3)
      && Latest(log[..3], id).Some? && !Triggered(Latest(log[..3], id).value, key.symbol, 120.0)
  {
    hide *;
    var log := Run(cfg, AmendedAwayRun(id, key)).log;
    var price := AmendedAwayLog(cfg, id, key);
    AmendedAwayTerms(id, key, price);
  }

  /** What that run writes into the history. */
  function AmendedAwayHistory(id: OrderId, key: Key, price: real): seq<Event> {
    [Accepted(StopAt110(id, key)), Scanned(key.symbol, 120.0, [id]), Amended(id, TO_200), Filled(id, 1, price, Some(120.0))]
  }

  lemma AmendedAwayTerms(id: OrderId, key: Key, price: real)
    ensures var log := AmendedAwayHistory(id, key, price);
      && |log| == 4 && log[3].Filled? && log[3].id == id && log[3].tick == Some(120.0)
      && ScanOf(log, 1, 3)
      && Latest(log[..3], id).Some? && !Triggered(Latest(log[..3], id).value, key.symbol, 120.0)
  {
    var log := AmendedAwayHistory(id, key, price);
    assert Init(log[..1]) == [];
    assert Init(log[..2]) == log[..1] && Init(log[..3]) == log[..2];
    assert Latest(log[..1], id) == Some(StopAt110(id, key));
    assert Latest(log[..2], id) == Some(StopAt110(id, key));
  }

  lemma AmendedAwayLog(cfg: Config, id: OrderId, key: Key) returns (price: real)
    ensures Run(cfg, AmendedAwayRun(id, key)).log == AmendedAwayHistory(id, key, price)
  {
    hide Run, Next, StopAt110;
    var run := AmendedAwayRun(id, key);
    RunOfFive(cfg, run[0], run[1], run[2], run[3], run[4]);
    var scanned := StopIsScanned(cfg, id, key);
    price := AmendedStopFills(cfg, scanned, id, key);
  }

  lemma StopIsScanned(cfg: Config, id: OrderId, key: Key) returns (s: State)
    ensures s == Next(cfg, Next(cfg, Next(cfg, INITIAL, Place(StopAt110(id, key))), Tick(key.symbol, 120.0)), Scan(0))
    ensures s.log == [Accepted(StopAt110(id, key)), Scanned(key.symbol, 120.0, [id])]
    ensures s.open == map[id := StopAt110(id, key)] && s.tasks == [Filling(key.symbol, 120.0, [id])]
  {
    hide FillPrice, Execute, Pop, FillOne, TriggeredIds, Amend;
    var placed := Next(cfg, INITIAL, Place(StopAt110(id, key)));
    var ticked := Next(cfg, placed, Tick(key.symbol, 120.0));
    assert ticked.openIds == [id] && ticked.open == map[id := StopAt110(id, key)];
    OnlyOneTriggered(ticked, id, key.symbol, 120.0);
    s := Next(cfg, ticked, Scan(0));
  }

  lemma OnlyOneTriggered(s: State, id: OrderId, symbol: string, price: real)
    requires s.openIds == [id] && id in s.open && Triggered(s.open[id], symbol, price)
    ensures TriggeredIds(s, symbol, price) == [id]
  {
    hide Triggered;
    var test := TriggerTest(s.open, symbol, price);
    assert Init([id]) == [] && Filter([id], test) == Filter([], test) + [id];
  }

  lemma AmendedStopFills(cfg: Config, s: State, id: OrderId, key: Key) returns (price: real)
    requires s.log == [Accepted(StopAt110(id, key)), Scanned(key.symbol, 120.0, [id])]
    requires s.open == map[id := StopAt110(id, key)] && s.tasks == [Filling(key.symbol, 120.0, [id])]
    ensures Next(cfg, Next(cfg, s, Modify(id, TO_200)), FillNext(0)).log == AmendedAwayHistory(id, key, price)
  {
    hide FillPrice, ApplyPaperTrade, Commission, Filter;
    price := FillPrice(cfg, s.lastPrices, key.symbol, Buy, None);
  }

  lemma RunOfFive(cfg: Config, a: Action, b: Action, c: Action, d: Action, e: Action)
    ensures Run(cfg, [a, b, c, d, e])
            == Next(cfg, Next(cfg, Next(cfg, Next(cfg, Next(cfg, INITIAL, a), b), c), d), e)
  {
    hide Next;
    assert Init([a, b, c, d, e]) == [a, b, c, d] && Init([a, b, c, d]) == [a, b, c];
    assert Init([a, b, c]) == [a, b] && Init([a, b]) == [a] && Init([a]) == [];
    assert Run(cfg, [a]) == Next(cfg, INITIAL, a);
    assert Run(cfg, [a, b]) == Next(cfg, Run(cfg, [a]), b);
    assert Run(cfg, [a, b, c]) == Next(cfg, Run(cfg, [a, b]), c);
    assert Run(cfg, [a, b, c, d]) == Next(cfg, Run(cfg, [a, b, c]), d);
  }

  datatype Report = ReportOpen | ReportModified | ReportComplete

  /** The status query looks only at the open orders and calls everything else complete. */
  function ReportedStatus(s: State, id: OrderId): Report {
    if id in s.open then (if id in s.amended then ReportModified else ReportOpen) else ReportComplete
  }

  /** So it misreports exactly the orders that were cancelled or never accepted. */
  lemma ReportIsWrongExactlyWhenNotFilled(cfg: Config, actions: seq<Action>, id: OrderId)
    ensures var s := Run(cfg, actions);
      (ReportedStatus(s, id).ReportComplete? && FilledCount(s.log, id) == 0)
      <==> CancelledCount(s.log, id) == 1 || AcceptedCount(s.log, id) == 0
  {
    EveryRunIsValid(cfg, actions);
    LegalCounts(Run(cfg, actions).log, id);
  }

  // ---------------------------------------------------------------------------
  // A check that nothing interrupts

  function FillAll(cfg: Config, s: State, i: nat): State
    requires i < |s.tasks| && s.tasks[i].Filling?
    decreases |s.tasks[i].todo|
  {
    if s.tasks[i].todo == [] then s else FillAll(cfg, Next(cfg, s, FillNext(i)), i)
  }

  /** What filling an open order now, by the check of a tick, writes into the history. */
  function FilledNow(cfg: Config, s: State, id: OrderId, tick: real): Event
    requires id in s.open
  {
    var r := s.open[id];
    Filled(id, r.quantity, FillPrice(cfg, s.lastPrices, r.key.symbol, r.side, r.price), Some(tick))
  }

  function FillEvents(cfg: Config, s: State, ids: seq<OrderId>, tick: real): seq<Event>
    requires forall id :: id in ids ==> id in s.open
  {
    seq(|ids|, k requires 0 <= k < |ids| => FilledNow(cfg, s, ids[k], tick))
  }

  lemma FillNextShrinksTask(cfg: Config, s: State, i: nat)
    requires Valid(s) && i < |s.tasks| && s.tasks[i].Filling? && s.tasks[i].todo != []
    ensures var s', id := Next(cfg, s, FillNext(i)), s.tasks[i].todo[0];
      && s'.tasks == s.tasks[i := Rest(s.tasks[i])]
      && s'.open == s.open - {id} && s'.lastPrices == s.lastPrices
      && s'.log == s.log + if id in s.open then [FilledNow(cfg, s, id, s.tasks[i].price)] else []
  {
    hide FillPrice, ApplyPaperTrade;
  }

  /** Run without interruption, a price check fills exactly the open orders that the price
      triggers, once each and in the order they were placed, and leaves the others open as
      they were. */
  lemma UninterruptedCheckFillsTheTriggered(cfg: Config, s: State, i: nat)
    requires Valid(s) && i < |s.tasks| && s.tasks[i].Arrived?
    ensures var s', t := FillAll(cfg, Next(cfg, s, Scan(i)), i), s.tasks[i];
      var hits := TriggeredIds(s, t.symbol, t.price);
      && (forall id :: id in hits <==> id in s.open && Triggered(s.open[id], t.symbol, t.price))
      && s'.open == (map id | id in s.open && !Triggered(s.open[id], t.symbol, t.price) :: s.open[id])
      && s'.log == s.log + [Scanned(t.symbol, t.price, hits)] + FillEvents(cfg, s, hits, t.price)
  {
    hide Valid, Triggered, FillPrice;
    var t, s1 := s.tasks[i], Next(cfg, s, Scan(i));
    ScanKeepsValid(cfg, s, i);
    HitsAreTriggered(s, t.symbol, t.price);
    OpenIdsUnique(s);
    FilterUnique(s.openIds, TriggerTest(s.open, t.symbol, t.price));
    FillAllEmptiesTask(cfg, s1, i);
    assert FillEvents(cfg, s1, s1.tasks[i].todo, t.price) == FillEvents(cfg, s, s1.tasks[i].todo, t.price);
  }

  lemma OpenIdsUnique(s: State)
    requires Valid(s)
    ensures Unique(s.openIds)
  {
  }

  lemma {:induction false} FillAllEmptiesTask(cfg: Config, s: State, i: nat)
    requires Valid(s) && i < |s.tasks| && s.tasks[i].Filling?
    requires Unique(s.tasks[i].todo) && forall id :: id in s.tasks[i].todo ==> id in s.open
    ensures FillAll(cfg, s, i).open == s.open - (set id | id in s.tasks[i].todo)
    ensures FillAll(cfg, s, i).log == s.log + FillEvents(cfg, s, s.tasks[i].todo, s.tasks[i].price)
    decreases |s.tasks[i].todo|
  {
    hide Next, Valid, FilledNow, FillEvents;
    var todo, tick := s.tasks[i].todo, s.tasks[i].price;
    if todo == [] {
      NothingFilled(cfg, s, tick);
    } else {
      var s1 := Next(cfg, s, FillNext(i));
      FillNextShrinksTask(cfg, s, i);
      FillNextKeepsValid(cfg, s, i);
      FillAllEmptiesTask(cfg, s1, i);
      FillOneMore(cfg, s, s1, todo, tick);
    }
  }

  lemma NothingFilled(cfg: Config, s: State, tick: real)
    ensures s.log + FillEvents(cfg, s, [], tick) == s.log
  {
  }

  lemma FillOneMore(cfg: Config, s: State, s1: State, todo: seq<OrderId>, tick: real)
    requires todo != [] && Unique(todo) && forall id :: id in todo ==> id in s.open
    requires s1.open == s.open - {todo[0]} && s1.lastPrices == s.lastPrices
    requires s1.log == s.log + [FilledNow(cfg, s, todo[0], tick)]
    ensures s1.open - (set id | id in todo[1..]) == s.open - (set id | id in todo)
    ensures (forall id :: id in todo[1..] ==> id in s1.open)
            && s1.log + FillEvents(cfg, s1, todo[1..], tick) == s.log + FillEvents(cfg, s, todo, tick)
  {
    hide FilledNow, FillEvents;
    RestStaysOpen(s, s1, todo);
    FillEventsStep(cfg, s, s1, todo, tick);
  }

  lemma RestStaysOpen(s: State, s1: State, todo: seq<OrderId>)
    requires todo != [] && Unique(todo) && forall id :: id in todo ==> id in s.open
    requires s1.open == s.open - {todo[0]}
    ensures forall id :: id in todo[1..] ==> id in s1.open && s1.open[id] == s.open[id]
    ensures s1.open - (set id | id in todo[1..]) == s.open - (set id | id in todo)
  {
    assert todo == [todo[0]] + todo[1..];
    assert (set id | id in todo) == {todo[0]} + (set id | id in todo[1..]);
  }

  lemma FillEventsStep(cfg: Config, s: State, s1: State, todo: seq<OrderId>, tick: real)
    requires todo != [] && (forall id :: id in todo ==> id in s.open) && s1.lastPrices == s.lastPrices
    requires forall id :: id in todo[1..] ==> id in s1.open && s1.open[id] == s.open[id]
    ensures FillEvents(cfg, s, todo, tick)
            == [FilledNow(cfg, s, todo[0], tick)] + FillEvents(cfg, s1, todo[1..], tick)
  {
    hide FillPrice;
    forall k | 0 < k < |todo|
      ensures FilledNow(cfg, s, todo[k], tick) == FilledNow(cfg, s1, todo[1..][k - 1], tick)
    {
      assert todo[1..][k - 1] == todo[k];
    }
  }
}
