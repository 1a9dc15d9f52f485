/** What the paper broker's actions do, told from the actions and from the events they leave,
    without the broker's own bookkeeping. */
module PaperHistory {
  import opened Numbers
  import opened Positions
  import opened Sequences
  import opened PaperBroker

  // ---------------------------------------------------------------------------
  // Terms

  /** The quantity last asked for: the order's own, until an amendment gives another. */
  function LastQuantity(log: seq<Event>, id: OrderId): Option<Quantity> {
    if log == [] then None
    else
      match Last(log)
      case Accepted(r) => if r.id == id then Some(r.quantity) else LastQuantity(Init(log), id)
      case Amended(x, change) => if x == id && change.quantity.Some? then change.quantity else LastQuantity(Init(log), id)
      case _ => LastQuantity(Init(log), id)
  }

  /** Likewise the price and the trigger price. */
  function LastAsked(log: seq<Event>, id: OrderId): Level {
    if log == [] then None
    else
      match Last(log)
      case Accepted(r) => if r.id == id then r.price else LastAsked(Init(log), id)
      case Amended(x, change) => if x == id && change.price.Some? then change.price else LastAsked(Init(log), id)
      case _ => LastAsked(Init(log), id)
  }

  function LastTrigger(log: seq<Event>, id: OrderId): Level {
    if log == [] then None
    else
      match Last(log)
      case Accepted(r) => if r.id == id then r.trigger else LastTrigger(Init(log), id)
      case Amended(x, change) => if x == id && change.trigger.Some? then change.trigger else LastTrigger(Init(log), id)
      case _ => LastTrigger(Init(log), id)
  }

  /** An order accepted in the history with this identifier, instrument, side and type. */
  predicate IsOrder(e: Event, id: OrderId, key: Key, side: Side, orderType: OrderType) {
    e.Accepted? && e.request.id == id && e.request.key == key && e.request.side == side
    && e.request.orderType == orderType
  }

  ghost predicate WasAccepted(log: seq<Event>, id: OrderId, key: Key, side: Side, orderType: OrderType) {
    exists i :: 0 <= i < |log| && IsOrder(log[i], id, key, side, orderType)
  }

  lemma {:induction false} LatestIsLastAsked(log: seq<Event>, id: OrderId)
    requires Legal(log) && Latest(log, id).Some?
    ensures var r := Latest(log, id).value;
      && LastQuantity(log, id) == Some(r.quantity)
      && LastAsked(log, id) == r.price && LastTrigger(log, id) == r.trigger
      && r.id == id && WasAccepted(log, id, r.key, r.side, r.orderType)
  {
    hide LegalNext;
    var e := Last(log);
    if e.Accepted? && e.request.id == id {
      assert IsOrder(log[|log| - 1], id, e.request.key, e.request.side, e.request.orderType);
    } else {
      LatestIsLastAsked(Init(log), id);
      var r := Latest(Init(log), id).value;
      var i :| 0 <= i < |log| - 1 && IsOrder(Init(log)[i], id, r.key, r.side, r.orderType);
      assert IsOrder(log[i], id, r.key, r.side, r.orderType);
    }
  }

  /** In every run, each fill is for the quantity last asked for before it, and each open order
      stands at the terms last asked for. */
  lemma TermsAreLastAsked(cfg: Config, actions: seq<Action>, j: nat, id: OrderId)
    ensures var log := Run(cfg, actions).log;
      j < |log| && log[j].Filled? ==> LastQuantity(log[..j], log[j].id) == Some(log[j].quantity)
    ensures var s := Run(cfg, actions);
      id in s.open ==>
        && LastQuantity(s.log, id) == Some(s.open[id].quantity)
        && LastAsked(s.log, id) == s.open[id].price && LastTrigger(s.log, id) == s.open[id].trigger
  {
    hide Next, BooksMatchLog, TasksMatchLog, LegalNext, LastQuantity, LastAsked, LastTrigger;
    var s := Run(cfg, actions);
    EveryRunIsValid(cfg, actions);
    if id in s.open {
      LatestIsLastAsked(s.log, id);
    }
    if j < |s.log| && s.log[j].Filled? {
      FillsCarryLatestTerms(cfg, actions, j);
      LegalPrefix(s.log, j);
      LatestIsLastAsked(s.log[..j], s.log[j].id);
    }
  }

  // ---------------------------------------------------------------------------
  // Prices

  /** The last traded price of a symbol: that of its last tick since it was last unsubscribed,
      or else 100. */
  function TickPrice(actions: seq<Action>, symbol: string): real {
    if actions == [] then 100.0
    else
      match Last(actions)
      case Tick(x, price) => if x == symbol then price else TickPrice(Init(actions), symbol)
      case Unsubscribe(x) => if x == symbol then 100.0 else TickPrice(Init(actions), symbol)
      case _ => TickPrice(Init(actions), symbol)
  }

  lemma {:induction false} LastPriceIsLastTick(cfg: Config, actions: seq<Action>, symbol: string)
    ensures LastPrice(Run(cfg, actions).lastPrices, symbol) == TickPrice(actions, symbol)
  {
    hide FillPrice, ApplyPaperTrade, Commission, TriggeredIds, StatusOf, Amend, Filter;
    if actions != [] {
      LastPriceIsLastTick(cfg, Init(actions), symbol);
    }
  }

  /** The percentage of a price, as an amount of money. */
  function AmountOf(price: real, pct: real): real { price * pct / 100.0 }

  /** At the market with the slippage added or taken off, or at the price asked for when that is
      better for the order's owner; never below one paisa, to four places. */
  function PriceFrom(ltp: real, slippagePct: real, side: Side, asked: Level): real {
    var market := if side.Buy? then ltp + AmountOf(ltp, slippagePct) else ltp - AmountOf(ltp, slippagePct);
    var quote :=
      if asked.None? then market
      else if (if side.Buy? then asked.value <= market else asked.value >= market) then asked.value
      else market;
    Round4(if quote >= 0.01 then quote else 0.01)
  }

  lemma FillPriceInAmounts(cfg: Config, lastPrices: map<string, real>, symbol: string, side: Side, asked: Level)
    ensures FillPrice(cfg, lastPrices, symbol, side, asked)
            == PriceFrom(LastPrice(lastPrices, symbol), cfg.slippagePct, side, asked)
  {
    hide Round4, PercentOf, AmountOf;
    SameAmount(LastPrice(lastPrices, symbol), cfg.slippagePct);
  }

  lemma SameAmount(price: real, pct: real)
    ensures PercentOf(price, pct) == AmountOf(price, pct)
  {
  }

  /** A market order fills on placing, for its own quantity, at the last tick of its symbol with
      slippage. */
  lemma MarketOrderFillsAtLastTick(cfg: Config, actions: seq<Action>, r: Request)
    requires r.orderType.Market? && StatusOf(Run(cfg, actions).log, r.id) == Unknown
    ensures var log := Run(cfg, actions).log;
      Run(cfg, actions + [Place(r)]).log
      == log + [Accepted(r),
                Filled(r.id, r.quantity, PriceFrom(TickPrice(actions, r.key.symbol), cfg.slippagePct, r.side, None), None)]
  {
    hide FillPrice, PriceFrom, ApplyPaperTrade, Commission, StatusOf, TickPrice;
    assert Init(actions + [Place(r)]) == actions;
    LastPriceIsLastTick(cfg, actions, r.key.symbol);
    FillPriceInAmounts(cfg, Run(cfg, actions).lastPrices, r.key.symbol, r.side, None);
  }

  /** An order filled by a check fills for the quantity last asked for, at the better of the
      price last asked for and the last tick of its symbol with slippage. */
  lemma CheckedOrderFillsAtLastTick(cfg: Config, actions: seq<Action>, i: nat)
    requires var s := Run(cfg, actions);
      i < |s.tasks| && s.tasks[i].Filling? && s.tasks[i].todo != [] && s.tasks[i].todo[0] in s.open
    ensures var s := Run(cfg, actions);
      var id := s.tasks[i].todo[0];
      var r := s.open[id];
      && LastQuantity(s.log, id).Some?
      && Run(cfg, actions + [FillNext(i)]).log
         == s.log + [Filled(
              id, LastQuantity(s.log, id).value,
              PriceFrom(TickPrice(actions, r.key.symbol), cfg.slippagePct, r.side, LastAsked(s.log, id)),
              Some(s.tasks[i].price))]
  {
    hide FillPrice, PriceFrom, Next, Valid, TickPrice, LastQuantity, LastAsked;
    var s := Run(cfg, actions);
    var id := s.tasks[i].todo[0];
    assert Init(actions + [FillNext(i)]) == actions;
    EveryRunIsValid(cfg, actions);
    FillNextShrinksTask(cfg, s, i);
    TermsAreLastAsked(cfg, actions, 0, id);
    LastPriceIsLastTick(cfg, actions, s.open[id].key.symbol);
    FillPriceInAmounts(cfg, s.lastPrices, s.open[id].key.symbol, s.open[id].side, s.open[id].price);
  }

  // ---------------------------------------------------------------------------
  // What each action does to each order

  /** The order is next in a check task and about to be filled. */
  predicate FillsNext(s: State, a: Action, id: OrderId) {
    && a.FillNext? && a.task < |s.tasks| && s.tasks[a.task].Filling?
    && s.tasks[a.task].todo != [] && s.tasks[a.task].todo[0] == id
  }

  /** Placing makes an unknown order open, or filled if it is a market order; cancelling drops an
      open order; the turn of an open order in a check fills it. Nothing else changes the status
      of any order. */
  lemma StatusChangesExactly(cfg: Config, s: State, a: Action, id: OrderId)
    requires Valid(s)
    ensures StatusOf(Next(cfg, s, a).log, id)
            == if a.Place? && a.request.id == id && StatusOf(s.log, id) == Unknown then
                 if a.request.orderType.Market? then Done else Open
               else if a.Cancel? && a.id == id && StatusOf(s.log, id) == Open then Dropped
               else if FillsNext(s, a, id) && StatusOf(s.log, id) == Open then Done
               else StatusOf(s.log, id)
  {
    hide Valid, FillPrice, ApplyPaperTrade, Commission, Amend, TriggeredIds, Filter;
    match a
    case Place(r) => PlaceStatus(cfg, s, r, id);
    case Modify(x, change) =>
      OpenIsKnown(s, x);
      assert Init(s.log + [Amended(x, change)]) == s.log;
    case Cancel(x) =>
      OpenIsKnown(s, x);
      ClosedIsNotOpen(s, x);
      assert Init(s.log + [Cancelled(x)]) == s.log;
    case Tick(symbol, price) =>
    case Unsubscribe(symbol) =>
    case Scan(i) => ScanStatus(cfg, s, i, id);
    case FillNext(i) => FillNextStatus(cfg, s, i, id);
  }

  lemma ClosedIsNotOpen(s: State, id: OrderId)
    requires Valid(s)
    ensures id !in s.open ==> StatusOf(s.log, id) != Open
  {
    hide StatusOf, Legal, BooksMatchLog, TasksMatchLog;
  }

  lemma PlaceStatus(cfg: Config, s: State, r: Request, id: OrderId)
    ensures StatusOf(Next(cfg, s, Place(r)).log, id)
            == if r.id == id && StatusOf(s.log, id) == Unknown then if r.orderType.Market? then Done else Open
               else StatusOf(s.log, id)
  {
    hide FillPrice, ApplyPaperTrade, Commission;
    var accepted := s.log + [Accepted(r)];
    assert Init(accepted) == s.log;
    var filled := accepted + [Filled(r.id, r.quantity, FillPrice(cfg, s.lastPrices, r.key.symbol, r.side, None), None)];
    assert Init(filled) == accepted;
  }

  lemma ScanStatus(cfg: Config, s: State, i: nat, id: OrderId)
    ensures StatusOf(Next(cfg, s, Scan(i)).log, id) == StatusOf(s.log, id)
  {
    hide TriggeredIds;
    if i < |s.tasks| && s.tasks[i].Arrived? {
      var e := Scanned(s.tasks[i].symbol, s.tasks[i].price, TriggeredIds(s, s.tasks[i].symbol, s.tasks[i].price));
      assert Init(s.log + [e]) == s.log;
    }
  }

  lemma FillNextStatus(cfg: Config, s: State, i: nat, id: OrderId)
    requires Valid(s)
    ensures StatusOf(Next(cfg, s, FillNext(i)).log, id)
            == if FillsNext(s, FillNext(i), id) && StatusOf(s.log, id) == Open then Done else StatusOf(s.log, id)
  {
    hide Valid, FillPrice;
    if i < |s.tasks| && s.tasks[i].Filling? && s.tasks[i].todo != [] {
      var next := s.tasks[i].todo[0];
      FillNextShrinksTask(cfg, s, i);
      OpenIsKnown(s, next);
      hide Next;
      if next in s.open {
        assert Init(s.log + [FilledNow(cfg, s, next, s.tasks[i].price)]) == s.log;
      } else {
        ClosedIsNotOpen(s, next);
      }
    }
  }

  /** Placing a new order that is not a market order opens it at its own terms, after the others;
      a known identifier changes nothing. */
  lemma PlacingOpens(cfg: Config, s: State, r: Request)
    requires !r.orderType.Market?
    ensures var s' := Next(cfg, s, Place(r));
      if StatusOf(s.log, r.id) != Unknown then s' == s
      else s' == s.(log := s.log + [Accepted(r)], openIds := s.openIds + [r.id], open := s.open[r.id := r])
  {
  }

  /** Amending an open order replaces the terms it gives and keeps the others, and leaves every
      other order alone; amending any other order changes nothing. */
  lemma AmendingReplacesGivenTerms(cfg: Config, s: State, id: OrderId, change: Amendment)
    ensures var s' := Next(cfg, s, Modify(id, change));
      if id !in s.open then s' == s
      else
        && s'.open.Keys == s.open.Keys && (forall x :: x in s.open && x != id ==> s'.open[x] == s.open[x])
        && s'.open[id].quantity == (if change.quantity.Some? then change.quantity.value else s.open[id].quantity)
        && s'.open[id].price == (if change.price.Some? then change.price else s.open[id].price)
        && s'.open[id].trigger == (if change.trigger.Some? then change.trigger else s.open[id].trigger)
        && s'.open[id].id == s.open[id].id && s'.open[id].key == s.open[id].key
        && s'.open[id].side == s.open[id].side && s'.open[id].orderType == s.open[id].orderType
        && s'.log == s.log + [Amended(id, change)] && s'.amended == s.amended + {id}
        && s'.openIds == s.openIds && s'.fills == s.fills && s'.positions == s.positions
        && s'.lastPrices == s.lastPrices && s'.tasks == s.tasks
  {
  }

  /** Cancelling an open order removes it and nothing else; cancelling any other order changes
      nothing. */
  lemma CancellingRemoves(cfg: Config, s: State, id: OrderId)
    ensures var s' := Next(cfg, s, Cancel(id));
      if id !in s.open then s' == s
      else
        && s'.open == s.open - {id} && (forall x :: x in s'.openIds <==> x in s.openIds && x != id)
        && s'.amended == s.amended - {id} && s'.log == s.log + [Cancelled(id)]
        && s'.fills == s.fills && s'.positions == s.positions
        && s'.lastPrices == s.lastPrices && s'.tasks == s.tasks
  {
    hide Filter;
    forall x
      ensures x in Filter(s.openIds, (y: OrderId) => y != id) <==> x in s.openIds && x != id
    {
      FilterMember(s.openIds, (y: OrderId) => y != id, x);
    }
  }

  // ---------------------------------------------------------------------------
  // Fill records and reported status

  /** The record is of an accepted order, with its instrument and side, and is charged the
      configured percentage of its value, to four places. */
  ghost predicate IsFillOf(cfg: Config, log: seq<Event>, f: Fill) {
    && (exists orderType :: WasAccepted(log, f.id, f.key, f.side, orderType))
    && Abs(f.commission - AmountOf(CostOf(f.quantity, f.price), cfg.commissionPct)) <= HALF_UNIT
  }

  lemma {:induction false} EveryFillIsOfItsOrder(cfg: Config, actions: seq<Action>)
    ensures forall f :: f in Run(cfg, actions).fills ==> IsFillOf(cfg, Run(cfg, actions).log, f)
  {
    hide Next, Valid, IsFillOf;
    if actions != [] {
      EveryFillIsOfItsOrder(cfg, Init(actions));
      EveryRunIsValid(cfg, Init(actions));
      StepRecordsItsOrder(cfg, Run(cfg, Init(actions)), Last(actions));
    }
  }

  lemma StepRecordsItsOrder(cfg: Config, s: State, a: Action)
    requires Valid(s) && forall f :: f in s.fills ==> IsFillOf(cfg, s.log, f)
    ensures forall f :: f in Next(cfg, s, a).fills ==> IsFillOf(cfg, Next(cfg, s, a).log, f)
  {
    hide Next, Valid, IsFillOf;
    var s' := Next(cfg, s, a);
    StepLogsAmendments(cfg, s, a);
    forall f | f in s'.fills
      ensures IsFillOf(cfg, s'.log, f)
    {
      if f in s.fills {
        RecordStays(cfg, s.log, s'.log, f);
      } else {
        StepAddsRecord(cfg, s, a, f);
      }
    }
  }

  lemma StepAddsRecord(cfg: Config, s: State, a: Action, f: Fill)
    requires Valid(s) && f !in s.fills && f in Next(cfg, s, a).fills
    ensures IsFillOf(cfg, Next(cfg, s, a).log, f)
  {
    hide Valid, IsFillOf, FillPrice, Commission, ApplyPaperTrade, Amend, Filter, TriggeredIds, StatusOf;
    var s' := Next(cfg, s, a);
    match a
    case Place(r) =>
      assert IsOrder(s'.log[|s.log|], r.id, r.key, r.side, r.orderType);
      NewRecord(cfg, s'.log, r, FillPrice(cfg, s.lastPrices, r.key.symbol, r.side, None));
    case FillNext(i) =>
      NextToFill(s, i);
      var r := s.open[s.tasks[i].todo[0]];
      AcceptedBefore(s, r);
      var k :| 0 <= k < |s.log| && IsOrder(s.log[k], r.id, r.key, r.side, r.orderType);
      assert IsOrder(s'.log[k], r.id, r.key, r.side, r.orderType);
      NewRecord(cfg, s'.log, r, FillPrice(cfg, s.lastPrices, r.key.symbol, r.side, r.price));
    case _ =>
  }

  lemma AcceptedBefore(s: State, r: Request)
    requires Valid(s) && Latest(s.log, r.id) == Some(r)
    ensures WasAccepted(s.log, r.id, r.key, r.side, r.orderType)
  {
    hide Latest, StatusOf, BooksMatchLog, TasksMatchLog, LastQuantity, LastAsked, LastTrigger;
    LatestIsLastAsked(s.log, r.id);
  }

  lemma RecordStays(cfg: Config, log: seq<Event>, longer: seq<Event>, f: Fill)
    requires log <= longer && IsFillOf(cfg, log, f)
    ensures IsFillOf(cfg, longer, f)
  {
    hide AmountOf, CostOf;
    var orderType :| WasAccepted(log, f.id, f.key, f.side, orderType);
    var i :| 0 <= i < |log| && IsOrder(log[i], f.id, f.key, f.side, orderType);
    assert IsOrder(longer[i], f.id, f.key, f.side, orderType);
    assert WasAccepted(longer, f.id, f.key, f.side, orderType);
  }

  lemma NewRecord(cfg: Config, log: seq<Event>, r: Request, price: real)
    requires WasAccepted(log, r.id, r.key, r.side, r.orderType)
    ensures IsFillOf(cfg, log, Fill(r.id, r.key, r.side, r.quantity, price, Commission(cfg, r.quantity, price)))
  {
    hide WasAccepted, Round4, CostOf;
    CommissionInAmounts(cfg, r.quantity, price);
  }

  lemma CommissionInAmounts(cfg: Config, quantity: Quantity, price: real)
    ensures Abs(Commission(cfg, quantity, price) - AmountOf(CostOf(quantity, price), cfg.commissionPct)) <= HALF_UNIT
  {
    hide Round4, CostOf, PercentOf, AmountOf;
    var value := CostOf(quantity, price);
    SameAmount(value, cfg.commissionPct);
    RoundErrors(PercentOf(value, cfg.commissionPct));
  }

  ghost predicate WasAmended(log: seq<Event>, id: OrderId) {
    exists i :: 0 <= i < |log| && log[i].Amended? && log[i].id == id
  }

  /** In every run, an open order is reported modified exactly when it has been amended. */
  lemma {:induction false} ModifiedExactlyWhenAmended(cfg: Config, actions: seq<Action>, id: OrderId)
    ensures var s := Run(cfg, actions);
      ReportedStatus(s, id).ReportModified? <==> id in s.open && WasAmended(s.log, id)
    ensures var s := Run(cfg, actions); WasAmended(s.log, id) ==> StatusOf(s.log, id) != Unknown
  {
    hide Next, Valid, WasAmended, StatusOf;
    if actions == [] {
      NeverAmended(id);
    } else {
      ModifiedExactlyWhenAmended(cfg, Init(actions), id);
      EveryRunIsValid(cfg, Init(actions));
      StepReportsAmendments(cfg, Run(cfg, Init(actions)), Last(actions), id);
    }
  }

  lemma NeverAmended(id: OrderId)
    ensures !WasAmended([], id)
  {
  }

  lemma StepReportsAmendments(cfg: Config, s: State, a: Action, id: OrderId)
    requires Valid(s) && (id in s.open ==> (id in s.amended <==> WasAmended(s.log, id)))
    requires WasAmended(s.log, id) ==> StatusOf(s.log, id) != Unknown
    ensures var s' := Next(cfg, s, a); id in s'.open ==> (id in s'.amended <==> WasAmended(s'.log, id))
    ensures var s' := Next(cfg, s, a); WasAmended(s'.log, id) ==> StatusOf(s'.log, id) != Unknown
  {
    hide Next, Valid, StatusOf, WasAmended;
    var s' := Next(cfg, s, a);
    StatusChangesExactly(cfg, s, a, id);
    StepMarksAmended(cfg, s, a, id);
    StepLogsAmendments(cfg, s, a);
    AmendmentsGrow(s.log, s'.log, id);
    OpenIsKnown(s, id);
  }

  lemma OpenIsKnown(s: State, id: OrderId)
    requires Valid(s)
    ensures id in s.open ==> StatusOf(s.log, id) == Open
    ensures id in s.amended ==> id in s.open
  {
    hide StatusOf, Legal, BooksMatchLog, TasksMatchLog;
  }

  /** Which action opens an order or marks it amended. */
  lemma StepMarksAmended(cfg: Config, s: State, a: Action, id: OrderId)
    requires Valid(s)
    ensures var s' := Next(cfg, s, a);
      id in s'.open ==>
        && (id in s.open || (a.Place? && a.request.id == id && StatusOf(s.log, id) == Unknown))
        && (id in s'.amended <==> id in s.amended || (a.Modify? && a.id == id))
  {
    hide FillPrice, Commission, ApplyPaperTrade, Amend, Filter, TriggeredIds, StatusOf, Valid;
    OpenIsKnown(s, id);
  }

  lemma StepLogsAmendments(cfg: Config, s: State, a: Action)
    ensures var s' := Next(cfg, s, a);
      && s.log <= s'.log
      && forall k :: |s.log| <= k < |s'.log| && s'.log[k].Amended? ==> a.Modify? && a.id in s.open && s'.log[k].id == a.id
    ensures a.Modify? && a.id in s.open ==>
      var log := Next(cfg, s, a).log; |log| == |s.log| + 1 && log[|s.log|] == Amended(a.id, a.change)
  {
    hide FillPrice, Commission, ApplyPaperTrade, Amend, Filter, TriggeredIds, StatusOf;
  }

  lemma AmendmentsGrow(log: seq<Event>, longer: seq<Event>, id: OrderId)
    requires log <= longer
    ensures WasAmended(longer, id)
            <==> WasAmended(log, id) || exists k :: |log| <= k < |longer| && longer[k].Amended? && longer[k].id == id
  {
    if i :| 0 <= i < |log| && log[i].Amended? && log[i].id == id {
      assert longer[i].Amended?;
    }
    if i :| 0 <= i < |longer| && longer[i].Amended? && longer[i].id == id {
      assert i < |log| ==> log[i] == longer[i];
    }
  }
}
