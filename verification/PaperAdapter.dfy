/** The paper broker object. Each method is one atomic section of the asynchronous code:
    what runs between two suspension points. */
module PaperAdapter {
  import opened Numbers
  import opened Positions
  import opened Sequences
  import opened PaperBroker

  datatype Response = Complete(price: real) | Opened | Modified | Withdrawn | Rejected

  class Adapter {
    const config: Config
    var openIds: seq<OrderId>
    var openOrders: map<OrderId, Request>
    var modifiedOrders: set<OrderId>
    var positions: map<Key, PaperPosition>
    var fills: seq<Fill>
    var lastPrices: map<string, real>
    var tasks: seq<Task>
    ghost var log: seq<Event>

    ghost function Contents(): State
      reads this
    {
      State(openIds, openOrders, modifiedOrders, positions, fills, lastPrices, tasks, log)
    }

    constructor (cfg: Config)
      ensures config == cfg && Contents() == INITIAL
    {
      config := cfg;
      openIds, openOrders, modifiedOrders := [], map[], {};
      positions, fills, lastPrices, tasks, log := map[], [], map[], [], [];
    }

    /** The part of `place_order` after its simulated delay, given whether the stress-test
        option drew a rejection. */
    method PlaceOrder(request: Request, rejectionDrawn: bool) returns (response: Response)
      requires StatusOf(log, request.id) == Unknown   // identifiers are fresh UUIDs
      modifies this
      ensures Contents() == if rejectionDrawn then old(Contents()) else Next(config, old(Contents()), Place(request))
      ensures response == if rejectionDrawn then Rejected
        else if request.orderType.Market? then
          Complete(FillPrice(config, lastPrices, request.key.symbol, request.side, None)) else Opened
    {
      if rejectionDrawn {
        return Rejected;
      }
      log := log + [Accepted(request)];
      if request.orderType.Market? {
        var price := FillPrice(config, lastPrices, request.key.symbol, request.side, None);
        RecordFill(request, price, None);
        response := Complete(price);
      } else {
        openIds := openIds + [request.id];
        openOrders := openOrders[request.id := request];
        response := Opened;
      }
    }

    method ModifyOrder(id: OrderId, change: Amendment) returns (response: Response)
      modifies this
      ensures Contents() == Next(config, old(Contents()), Modify(id, change))
      ensures response == if id in old(openOrders) then Modified else Rejected
    {
      if id !in openOrders {
        return Rejected;
      }
      var request := openOrders[id];
      if change.price.Some? {
        request := request.(price := change.price);
      }
      if change.quantity.Some? {
        request := request.(quantity := change.quantity.value);
      }
      if change.trigger.Some? {
        request := request.(trigger := change.trigger);
      }
      openOrders := openOrders[id := request];
      modifiedOrders := modifiedOrders + {id};
      log := log + [Amended(id, change)];
      return Modified;
    }

    method CancelOrder(id: OrderId) returns (response: Response)
      modifies this
      ensures Contents() == Next(config, old(Contents()), Cancel(id))
      ensures response == if id in old(openOrders) then Withdrawn else Rejected
    {
      if id !in openOrders {
        return Rejected;
      }
      RemoveOrder(id);
      log := log + [Cancelled(id)];
      return Withdrawn;
    }

    method GetOrderStatus(id: OrderId) returns (report: Report)
      ensures report == ReportedStatus(Contents(), id)
    {
      if id in openOrders {
        if id in modifiedOrders {
          report := ReportModified;
        } else {
          report := ReportOpen;
        }
      } else {
        report := ReportComplete;
      }
    }

    /** Caches the price and starts a task to check the open orders against it. */
    method UpdateLastPrice(symbol: string, price: real) returns (task: nat)
      modifies this
      ensures Contents() == Next(config, old(Contents()), Tick(symbol, price))
      ensures task < |tasks| && tasks[task] == Arrived(symbol, price)
    {
      lastPrices := lastPrices[symbol := price];
      task := |tasks|;
      tasks := tasks + [Arrived(symbol, price)];
    }

    method UnsubscribeTicks(symbol: string)
      modifies this
      ensures Contents() == Next(config, old(Contents()), Unsubscribe(symbol))
    {
      lastPrices := lastPrices - {symbol};
    }

    /** The first half of a check: one pass over the open orders. */
    method ScanOpenOrders(task: nat)
      requires task < |tasks| && tasks[task].Arrived?
      requires forall id :: id in openIds ==> id in openOrders
      modifies this`tasks, this`log
      ensures Contents() == Next(config, old(Contents()), Scan(task))
    {
      var symbol, price := tasks[task].symbol, tasks[task].price;
      ghost var hit := TriggerTest(openOrders, symbol, price);
      var toFill: seq<OrderId> := [];
      var k := 0;
      while k < |openIds|
        invariant 0 <= k <= |openIds|
        invariant toFill == Filter(openIds[..k], hit)
      {
        assert Init(openIds[..k + 1]) == openIds[..k];
        if Triggered(openOrders[openIds[k]], symbol, price) {
          toFill := toFill + [openIds[k]];
        }
        k := k + 1;
      }
      assert openIds[..|openIds|] == openIds;
      tasks := tasks[task := Filling(symbol, price, toFill)];
      log := log + [Scanned(symbol, price, toFill)];
    }

    /** One turn of the second half, up to the suspension after the fill. */
    method FillNextOrder(task: nat)
      requires task < |tasks| && tasks[task].Filling? && tasks[task].todo != []
      modifies this
      ensures Contents() == Next(config, old(Contents()), FillNext(task))
    {
      var id, tick := tasks[task].todo[0], tasks[task].price;
      tasks := tasks[task := Rest(tasks[task])];
      if id in openOrders {
        var request := openOrders[id];
        RemoveOrder(id);
        var price := FillPrice(config, lastPrices, request.key.symbol, request.side, request.price);
        RecordFill(request, price, Some(tick));
      }
    }

    /** The whole check when no other work gets in between. */
    method CheckPendingFills(task: nat)
      requires Valid(Contents()) && task < |tasks| && tasks[task].Arrived?
      modifies this
      ensures Contents() == FillAll(config, Next(config, old(Contents()), Scan(task)), task)
      ensures Valid(Contents())
    {
      ScanKeepsValid(config, Contents(), task);
      ScanOpenOrders(task);
      ghost var scanned := Contents();
      while tasks[task].todo != []
        invariant Valid(Contents()) && task < |tasks| && tasks[task].Filling?
        invariant FillAll(config, Contents(), task) == FillAll(config, scanned, task)
        decreases |tasks[task].todo|
      {
        FillNextShrinksTask(config, Contents(), task);
        FillNextKeepsValid(config, Contents(), task);
        FillNextOrder(task);
      }
    }

    /** Takes an order out of the dictionary. */
    method RemoveOrder(id: OrderId)
      modifies this`openIds, this`openOrders, this`modifiedOrders
      ensures Contents() == Pop(old(Contents()), id)
    {
      openIds := Filter(openIds, (x: OrderId) => x != id);
      openOrders := openOrders - {id};
      modifiedOrders := modifiedOrders - {id};
    }

    method RecordFill(request: Request, price: real, ghost tick: Option<real>)
      modifies this`positions, this`fills, this`log
      ensures Contents() == Execute(config, old(Contents()), request, price, tick)
    {
      var commission := Commission(config, request.quantity, price);
      UpdatePosition(request.key, Trade(request.side, request.quantity, price));
      fills := fills + [Fill(request.id, request.key, request.side, request.quantity, price, commission)];
      log := log + [Filled(request.id, request.quantity, price, tick)];
    }

    method UpdatePosition(key: Key, t: Trade)
      modifies this`positions
      ensures positions == old(positions)[key := ApplyPaperTrade(PositionAt(old(positions), key), t)]
    {
      hide Gain, Blend;
      if key !in positions {
        positions := positions[key := PAPER_FLAT];
      }
      var pos := positions[key];
      ghost var before := pos;
      var held, average := pos.quantity, pos.averagePrice;
      if t.side.Buy? {
        if held >= 0 {
          pos := pos.(averagePrice := Blend(held, average, t));
          pos := pos.(quantity := held + t.quantity);
        } else {
          var pnl := Gain(t.price, average, MinInt(t.quantity, AbsInt(held)));
          pos := pos.(realizedPnl := pos.realizedPnl + pnl);
          var remaining := held + t.quantity;
          if remaining > 0 {
            pos := pos.(averagePrice := t.price);
          }
          pos := pos.(quantity := remaining);
        }
      } else {
        if held <= 0 {
          pos := pos.(averagePrice := Blend(AbsInt(held), average, t));
          pos := pos.(quantity := held - t.quantity);
        } else {
          var pnl := Gain(average, t.price, MinInt(t.quantity, held));
          pos := pos.(realizedPnl := pos.realizedPnl + pnl);
          var remaining := held - t.quantity;
          if remaining < 0 {
            pos := pos.(averagePrice := t.price);
          }
          pos := pos.(quantity := remaining);
        }
      }
      assert pos == ApplyPaperTrade(before, t);
      positions := positions[key := pos];
      assert positions == old(positions)[key := pos];
    }
  }
}
