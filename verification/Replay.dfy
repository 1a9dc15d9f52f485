/** The bar loop as a function of the candles and of everything the strategy does, and
    what holds after every bar of every run. */
module Replay {
  import opened MarketData
  import opened Numbers
  import opened Positions
  import opened Sequences
  import opened Signals
  import opened SimulatedBroker
  import opened OrderQueue
  import opened Ledger

  /** What the strategy does during one bar: signals from its successive fill callbacks,
      from its tick handler and from its candle handler (error handler included), and
      whether any of them asked the replay to stop. */
  datatype BarScript = BarScript(
    onFill: seq<seq<Signal>>,
    onTick: seq<Signal>,
    onCandle: seq<Signal>,
    stop: bool
  )

  datatype Script = Script(onStart: seq<Signal>, stopAtStart: bool, bars: seq<BarScript>, onStop: seq<Signal>)

  datatype Setup = Setup(config: Config, warmupBars: int, symbol: string, candles: seq<Candle>)

  /** A strategy that has run out of script stays silent. */
  function ScriptAt(script: Script, k: nat): BarScript {
    if k < |script.bars| then script.bars[k] else BarScript([], [], [], false)
  }

  /** Fills first, then ticks, then the candle handler once past the warm-up. */
  function Trading(setup: Setup, s: State, k: nat, script: Script): State
    requires k < |setup.candles|
  {
    var b := ScriptAt(script, k);
    var drained := Drain(setup.config, s, setup.candles[k], k, AllRequests(b.onFill));
    var ticked := SubmitAll(drained, Requests(b.onTick), Origin(k, false));
    if k >= setup.warmupBars then SubmitAll(ticked, Requests(b.onCandle), Origin(k, false)) else ticked
  }

  function ClosingPrices(setup: Setup, k: nat): map<string, real>
    requires k < |setup.candles|
  {
    map[setup.symbol := setup.candles[k].close]
  }

  /** One turn of the loop: trading, then the equity snapshot at the close. */
  function RunBar(setup: Setup, s: State, k: nat, script: Script): State
    requires k < |setup.candles|
  {
    Snap(Trading(setup, s, k, script), setup.candles[k], ClosingPrices(setup, k))
  }

  /** The broker after `n` bars, from the orders placed when the strategy started. */
  function After(setup: Setup, script: Script, n: nat): State
    requires n <= |setup.candles|
  {
    if n == 0 then SubmitAll(Initial(setup.config), Requests(script.onStart), Origin(-1, false))
    else RunBar(setup, After(setup, script, n - 1), n - 1, script)
  }

  /** The bar after which the loop ends: the first that asked to stop, or the last. */
  function BarsRun(setup: Setup, script: Script, k: nat): nat
    requires k <= |setup.candles|
    ensures k <= BarsRun(setup, script, k) <= |setup.candles|
    decreases |setup.candles| - k
  {
    if k == |setup.candles| || (if k == 0 then script.stopAtStart else ScriptAt(script, k - 1).stop) then k
    else BarsRun(setup, script, k + 1)
  }

  // ---------------------------------------------------------------------------
  // What every run keeps

  /** No look-ahead: an order fills on a later bar than the one it was submitted in,
      unless a fill callback of that same bar submitted it. */
  ghost predicate Timely(s: State, n: int) {
    && (forall o :: o in s.submitted ==> o.origin.bar < n)
    && (forall f :: f in s.filled ==>
          && f.order in s.submitted
          && f.bar < n
          && (f.order.origin.bar < f.bar || f.order.origin == Origin(f.bar, true)))
  }

  /** All the laws together, with `bars` snapshots taken and only orders submitted before
      bar `n`. */
  ghost predicate Sound(cfg: Config, s: State, n: int, bars: nat) {
    Books(cfg, s) && Conserved(s) && Timely(s, n) && |s.equity| == bars
  }

  /** For every strategy, every candle series and every number of bars, the ledger
      balances, no order is lost or duplicated, and none fills ahead of its time. */
  lemma {:induction false} EveryRunIsSound(setup: Setup, script: Script, n: nat)
    requires n <= |setup.candles|
    ensures Sound(setup.config, After(setup, script, n), n, n)
  {
    hide RunBar, Sound;
    if n == 0 {
      StartSound(setup.config, Requests(script.onStart));
    } else {
      var s := After(setup, script, n - 1);
      EveryRunIsSound(setup, script, n - 1);
      RunBarSound(setup, s, n - 1, script);
      assert After(setup, script, n) == RunBar(setup, s, n - 1, script);
    }
  }

  /** Orders placed while the strategy stops are accepted and never filled. */
  lemma FinishedRunIsSound(setup: Setup, script: Script, n: nat)
    requires n <= |setup.candles|
    ensures var s := After(setup, script, n);
      var s' := SubmitAll(s, Requests(script.onStop), Origin(n, false));
      Sound(setup.config, s', n + 1, n) && s'.filled == s.filled
  {
    EveryRunIsSound(setup, script, n);
    SubmitAllSound(setup.config, After(setup, script, n), Requests(script.onStop), Origin(n, false), n, n);
    SubmitAllAppends(After(setup, script, n), Requests(script.onStop), Origin(n, false));
  }

  lemma RunBarSound(setup: Setup, s: State, k: nat, script: Script)
    requires k < |setup.candles| && Sound(setup.config, s, k, k)
    ensures Sound(setup.config, RunBar(setup, s, k, script), k + 1, k + 1)
  {
    TradingSound(setup, s, k, script);
    SnapSound(setup.config, Trading(setup, s, k, script), setup.candles[k], ClosingPrices(setup, k), k + 1, k);
  }

  lemma StartSound(cfg: Config, rs: seq<OrderRequest>)
    ensures Sound(cfg, SubmitAll(Initial(cfg), rs, Origin(-1, false)), 0, 0)
  {
    SubmitAllSound(cfg, Initial(cfg), rs, Origin(-1, false), -1, 0);
  }

  lemma SnapSound(cfg: Config, s: State, c: Candle, prices: map<string, real>, n: int, bars: nat)
    requires Sound(cfg, s, n, bars)
    ensures Sound(cfg, Snap(s, c, prices), n, bars + 1)
  {
  }

  lemma SubmitAllSound(cfg: Config, s: State, rs: seq<OrderRequest>, at: Origin, n: int, bars: nat)
    requires Sound(cfg, s, n, bars)
    ensures Sound(cfg, SubmitAll(s, rs, at), if at.bar < n then n else at.bar + 1, bars)
  {
    SubmitAllKeepsBooks(cfg, s, rs, at);
    SubmitAllConserves(s, rs, at);
    SubmitAllAppends(s, rs, at);
  }

  lemma TradingSound(setup: Setup, s: State, k: nat, script: Script)
    requires k < |setup.candles| && Sound(setup.config, s, k, k)
    ensures Sound(setup.config, Trading(setup, s, k, script), k + 1, k)
  {
    var b, at := ScriptAt(script, k), Origin(k, false);
    var drained := Drain(setup.config, s, setup.candles[k], k, AllRequests(b.onFill));
    DrainSound(setup.config, s, setup.candles[k], k, AllRequests(b.onFill));
    SubmitAllSound(setup.config, drained, Requests(b.onTick), at, k + 1, k);
    var ticked := SubmitAll(drained, Requests(b.onTick), at);
    SubmitAllSound(setup.config, ticked, Requests(b.onCandle), at, k + 1, k);
  }

  lemma DrainSound(cfg: Config, s: State, c: Candle, k: nat, reactions: seq<seq<OrderRequest>>)
    requires Sound(cfg, s, k, k)
    ensures Sound(cfg, Drain(cfg, s, c, k, reactions), k + 1, k)
  {
    var s' := Drain(cfg, s, c, k, reactions);
    DrainKeepsBooks(cfg, s, 0, [], c, k, reactions);
    DrainConserves(cfg, s, c, k, reactions);
    DrainPartition(cfg, s, 0, [], c, k, reactions);
    SplitTimely(FillTest(cfg, c), s, k, s.pending[0..], Arrivals(s, k, reactions, s'), s');
  }

  lemma SplitTimely(p: Order -> bool, s: State, k: nat, pending: seq<Order>, arrivals: seq<Order>, s': State)
    requires Conserved(s) && Timely(s, k) && pending == s.pending
    requires Splits(p, s, [], k, pending + arrivals, arrivals, s')
    requires forall o :: o in arrivals ==> o.origin == Origin(k, true)
    ensures Timely(s', k + 1)
  {
    forall f | f in s'.filled && f !in s.filled
      ensures f.order in s'.submitted && f.bar == k
      ensures f.order.origin.bar < k || f.order.origin == Origin(k, true)
    {
      var i :| 0 <= i < |s'.filled| && s'.filled[i] == f;
      assert Orders(s'.filled)[i] == f.order;
      if i >= |s.filled| {
        FilterMember(pending + arrivals, p, f.order);
        assert f.order in Filter(pending + arrivals, p);
        if f.order in pending {
          PendingWasSubmitted(s, f.order);
        }
      }
    }
  }

  lemma PendingWasSubmitted(s: State, o: Order)
    requires Conserved(s) && o in s.pending
    ensures o in s.submitted
  {
    assert o in multiset(s.pending);
    assert o in multiset(s.submitted);
  }

  // ---------------------------------------------------------------------------
  // When an order fills

  /** The first bar that may fill an order: its own when a fill callback submitted it, and
      otherwise the next. */
  function FirstChance(o: Order): int { if o.origin.fromFill then o.origin.bar else o.origin.bar + 1 }

  predicate FillsAt(setup: Setup, k: int, o: Order)
    requires 0 <= k < |setup.candles|
  {
    Fills(setup.config.slippagePct, setup.candles[k], o)
  }

  /** No bar before `n` that could have filled the order did trigger it. */
  ghost predicate PassedOver(setup: Setup, o: Order, n: int) {
    forall k :: 0 <= k < n && k < |setup.candles| && FirstChance(o) <= k ==> !FillsAt(setup, k, o)
  }

  ghost predicate OnTime(setup: Setup, s: State, n: int)
    requires n <= |setup.candles|
  {
    && (forall o :: o in s.pending ==> PassedOver(setup, o, n))
    && (forall f :: f in s.filled ==>
          0 <= f.bar < n && FirstChance(f.order) <= f.bar && FillsAt(setup, f.bar, f.order)
          && PassedOver(setup, f.order, f.bar))
    && (forall o :: o in s.submitted ==> FirstChance(o) >= 0)
  }

  /** In every run, an order is filled at a bar exactly when that is the first bar, from its
      first chance on, whose candle triggers it; and it is pending as long as there is none. */
  lemma FilledAtFirstTriggeringBar(setup: Setup, script: Script, n: nat, o: Order, k: nat)
    requires k < n <= |setup.candles| && o in After(setup, script, n).submitted
    ensures var s := After(setup, script, n);
      && (FilledAt(s, o, k) <==> FirstChance(o) <= k && FillsAt(setup, k, o) && PassedOver(setup, o, k))
      && (o in s.pending <==> PassedOver(setup, o, n))
  {
    hide After, Books, FillsAt, Timely;
    var s := After(setup, script, n);
    EveryRunIsSound(setup, script, n);
    EveryFillIsOnTime(setup, script, n);
    PendingOrFilledOnce(s, o);
    if o in s.pending {
      NotFilledWhilePending(s, o);
    } else {
      var f := FillOf(s, o);
      assert f.bar < k ==> !PassedOver(setup, o, k);
      assert !PassedOver(setup, o, n);
    }
  }

  ghost predicate FilledAt(s: State, o: Order, k: int) {
    exists f :: f in s.filled && f.order == o && f.bar == k
  }

  lemma NotFilledWhilePending(s: State, o: Order)
    requires multiset(s.pending)[o] + multiset(Orders(s.filled))[o] == 1 && o in s.pending
    ensures forall f :: f in s.filled ==> f.order != o
  {
    assert o in multiset(s.pending);
    forall f | f in s.filled
      ensures f.order != o
    {
      var i :| 0 <= i < |s.filled| && s.filled[i] == f;
      assert Orders(s.filled)[i] in multiset(Orders(s.filled));
    }
  }

  lemma FillOf(s: State, o: Order) returns (f: FilledOrder)
    requires multiset(s.pending)[o] + multiset(Orders(s.filled))[o] == 1 && o !in s.pending
    ensures f in s.filled && f.order == o
  {
    assert o !in multiset(s.pending);
    assert o in multiset(Orders(s.filled));
    var i :| 0 <= i < |Orders(s.filled)| && Orders(s.filled)[i] == o;
    f := s.filled[i];
  }

  lemma {:induction false} EveryFillIsOnTime(setup: Setup, script: Script, n: nat)
    requires n <= |setup.candles|
    ensures OnTime(setup, After(setup, script, n), n)
  {
    hide RunBar, Sound, OnTime;
    if n == 0 {
      StartOnTime(setup, Requests(script.onStart));
    } else {
      var s := After(setup, script, n - 1);
      EveryFillIsOnTime(setup, script, n - 1);
      EveryRunIsSound(setup, script, n - 1);
      RunBarOnTime(setup, s, n - 1, script);
      assert After(setup, script, n) == RunBar(setup, s, n - 1, script);
    }
  }

  lemma StartOnTime(setup: Setup, rs: seq<OrderRequest>)
    ensures OnTime(setup, SubmitAll(Initial(setup.config), rs, Origin(-1, false)), 0)
  {
    SubmitAllAppends(Initial(setup.config), rs, Origin(-1, false));
    hide SubmitAll;
  }

  lemma RunBarOnTime(setup: Setup, s: State, k: nat, script: Script)
    requires k < |setup.candles| && Sound(setup.config, s, k, k) && OnTime(setup, s, k)
    ensures OnTime(setup, RunBar(setup, s, k, script), k + 1)
  {
    hide OnTime, Drain, SubmitAll, Sound;
    var b, at := ScriptAt(script, k), Origin(k, false);
    var drained := Drain(setup.config, s, setup.candles[k], k, AllRequests(b.onFill));
    DrainOnTime(setup, s, k, AllRequests(b.onFill));
    SubmitAllOnTime(setup, drained, Requests(b.onTick), k);
    var ticked := SubmitAll(drained, Requests(b.onTick), at);
    SubmitAllOnTime(setup, ticked, Requests(b.onCandle), k);
    SnapOnTime(setup, Trading(setup, s, k, script), setup.candles[k], ClosingPrices(setup, k), k + 1);
  }

  lemma SnapOnTime(setup: Setup, s: State, c: Candle, prices: map<string, real>, n: nat)
    requires n <= |setup.candles| && OnTime(setup, s, n)
    ensures OnTime(setup, Snap(s, c, prices), n)
  {
    hide PassedOver, FillsAt;
  }

  lemma SubmitAllOnTime(setup: Setup, s: State, rs: seq<OrderRequest>, k: nat)
    requires k < |setup.candles| && OnTime(setup, s, k + 1)
    ensures OnTime(setup, SubmitAll(s, rs, Origin(k, false)), k + 1)
  {
    hide SubmitAll, FillsAt;
    SubmitAllAppends(s, rs, Origin(k, false));
  }

  lemma DrainOnTime(setup: Setup, s: State, k: nat, reactions: seq<seq<OrderRequest>>)
    requires k < |setup.candles| && Sound(setup.config, s, k, k) && OnTime(setup, s, k)
    ensures OnTime(setup, Drain(setup.config, s, setup.candles[k], k, reactions), k + 1)
  {
    hide DrainFrom, Books, OnTime, Fills;
    var c, s' := setup.candles[k], Drain(setup.config, s, setup.candles[k], k, reactions);
    DrainPartition(setup.config, s, 0, [], c, k, reactions);
    assert s.pending[0..] == s.pending;
    SplitOnTime(setup, s, k, Arrivals(s, k, reactions, s'), s');
  }

  lemma SplitOnTime(setup: Setup, s: State, k: nat, arrivals: seq<Order>, s': State)
    requires k < |setup.candles| && Conserved(s) && Timely(s, k) && OnTime(setup, s, k)
    requires Splits(FillTest(setup.config, setup.candles[k]), s, [], k, s.pending + arrivals, arrivals, s')
    requires forall o :: o in arrivals ==> o.origin == Origin(k, true)
    ensures OnTime(setup, s', k + 1)
  {
    hide Fills, Conserved, Filter;
    var p, queue := FillTest(setup.config, setup.candles[k]), s.pending + arrivals;
    forall o | o in queue
      ensures PassedOver(setup, o, k) && FirstChance(o) <= k
    {
      if o in s.pending {
        PendingWasSubmitted(s, o);
      }
    }
    forall o | o in s'.pending
      ensures PassedOver(setup, o, k + 1)
    {
      FilterMember(queue, Not(p), o);
      assert o in queue && !FillsAt(setup, k, o);
    }
    forall f | f in s'.filled
      ensures f in s.filled || (f.bar == k && FirstChance(f.order) <= k && FillsAt(setup, k, f.order)
                                && PassedOver(setup, f.order, k))
    {
      var i :| 0 <= i < |s'.filled| && s'.filled[i] == f;
      assert Orders(s'.filled)[i] == f.order;
      if i < |s.filled| {
        assert s'.filled[i] == s.filled[i];
      } else {
        FilterMember(queue, p, f.order);
        assert f.order in Filter(queue, p);
      }
    }
  }

  // ---------------------------------------------------------------------------
  // What each bar submits

  /** The orders accepted during bar `k` of a run, in order: the answers to its fills, then what
      the tick handler asked for, then what the candle handler asked for, which is called from
      bar number `warmupBars` on. Before the first bar come the orders of the start. */
  lemma BarSubmits(setup: Setup, script: Script, k: nat)
    requires k < |setup.candles|
    ensures After(setup, script, 0).submitted == Batch(0, Requests(script.onStart), Origin(-1, false))
    ensures var s, s', b := After(setup, script, k), After(setup, script, k + 1), ScriptAt(script, k);
      && |s.filled| <= |s'.filled|
      && var answers := Submissions(AllRequests(b.onFill), |s'.filled| - |s.filled|);
         var ticks, n := Requests(b.onTick), |s.submitted| + |answers|;
         s'.submitted
         == s.submitted + Batch(|s.submitted|, answers, Origin(k, true)) + Batch(n, ticks, Origin(k, false))
            + if setup.warmupBars <= k then Batch(n + |ticks|, Requests(b.onCandle), Origin(k, false)) else []
  {
    hide Drain, Requests, AllRequests, Submissions, Batch, SubmitAll;
    SubmitAllAppends(Initial(setup.config), Requests(script.onStart), Origin(-1, false));
    assert [] + Batch(0, Requests(script.onStart), Origin(-1, false)) == Batch(0, Requests(script.onStart), Origin(-1, false));
    var s, b, at := After(setup, script, k), ScriptAt(script, k), Origin(k, false);
    var drained := Drain(setup.config, s, setup.candles[k], k, AllRequests(b.onFill));
    DrainSubmits(setup.config, s, setup.candles[k], k, AllRequests(b.onFill));
    SubmitAllAppends(drained, Requests(b.onTick), at);
    SubmitAllAppends(SubmitAll(drained, Requests(b.onTick), at), Requests(b.onCandle), at);
    assert After(setup, script, k + 1) == RunBar(setup, s, k, script);
    BatchLengths(Submissions(AllRequests(b.onFill), |drained.filled| - |s.filled|), |s.submitted|, Origin(k, true));
    BatchLengths(Requests(b.onTick), |drained.submitted|, at);
  }

  lemma BatchLengths(rs: seq<OrderRequest>, n: nat, at: Origin)
    ensures |Batch(n, rs, at)| == |rs|
  {
  }

  lemma DrainSubmits(cfg: Config, s: State, c: Candle, k: nat, reactions: seq<seq<OrderRequest>>)
    ensures var s' := Drain(cfg, s, c, k, reactions);
      |s.filled| <= |s'.filled|
      && s'.submitted == s.submitted + Batch(|s.submitted|, Submissions(reactions, |s'.filled| - |s.filled|), Origin(k, true))
  {
    DrainPartition(cfg, s, 0, [], c, k, reactions);
  }

  /** Whether the loop is told to stop before bar `k`. */
  predicate StopBefore(script: Script, k: nat) {
    if k == 0 then script.stopAtStart else k <= |script.bars| && script.bars[k - 1].stop
  }

  /** The loop ends before the first bar it is told to stop before, or else with the last. */
  lemma {:induction false} RunEndsAtFirstStop(setup: Setup, script: Script, k: nat)
    requires k <= |setup.candles|
    ensures var n := BarsRun(setup, script, k);
      && k <= n && (n == |setup.candles| || StopBefore(script, n))
      && forall j :: k <= j < n ==> !StopBefore(script, j)
    decreases |setup.candles| - k
  {
    if k < |setup.candles| && !StopBefore(script, k) {
      RunEndsAtFirstStop(setup, script, k + 1);
    }
  }

  // ---------------------------------------------------------------------------
  // What each fill costs

  /** Slippage paid by the fills, as the distance of their prices from their bars' opens. */
  function SlippagePaid(candles: seq<Candle>, filled: seq<FilledOrder>): real
    requires forall f :: f in filled ==> 0 <= f.bar < |candles|
  {
    if filled == [] then 0.0
    else
      var f := Last(filled);
      SlippagePaid(candles, Init(filled)) + Abs(f.price - candles[f.bar].open) * f.order.request.quantity as real
  }

  /** Every fill is at the price that its order gets from its bar, its record bears the time of
      that bar, and the slippage paid adds up. */
  ghost predicate AtMarket(cfg: Config, candles: seq<Candle>, s: State) {
    && |s.fills| == |s.filled|
    && (forall f :: f in s.filled ==>
          0 <= f.bar < |candles| && FillPrice(cfg.slippagePct, f.order.request, candles[f.bar]) == Some(f.price))
    && (forall i :: 0 <= i < |s.fills| ==> s.fills[i].executedAt == candles[s.filled[i].bar].datetime)
    && s.totalSlippage == SlippagePaid(candles, s.filled)
  }

  lemma {:induction false} EveryFillIsAtMarket(setup: Setup, script: Script, n: nat)
    requires n <= |setup.candles|
    ensures AtMarket(setup.config, setup.candles, After(setup, script, n))
  {
    hide RunBar, AtMarket;
    if n == 0 {
      SubmitAllAtMarket(setup.config, setup.candles, Initial(setup.config), Requests(script.onStart), Origin(-1, false));
    } else {
      EveryFillIsAtMarket(setup, script, n - 1);
      RunBarAtMarket(setup, After(setup, script, n - 1), n - 1, script);
      assert After(setup, script, n) == RunBar(setup, After(setup, script, n - 1), n - 1, script);
    }
  }

  lemma RunBarAtMarket(setup: Setup, s: State, k: nat, script: Script)
    requires k < |setup.candles| && AtMarket(setup.config, setup.candles, s)
    ensures AtMarket(setup.config, setup.candles, RunBar(setup, s, k, script))
  {
    hide AtMarket, SubmitAll, DrainFrom;
    var b, at := ScriptAt(script, k), Origin(k, false);
    var drained := Drain(setup.config, s, setup.candles[k], k, AllRequests(b.onFill));
    DrainAtMarket(setup.config, setup.candles, s, 0, [], k, AllRequests(b.onFill));
    SubmitAllAtMarket(setup.config, setup.candles, drained, Requests(b.onTick), at);
    var ticked := SubmitAll(drained, Requests(b.onTick), at);
    SubmitAllAtMarket(setup.config, setup.candles, ticked, Requests(b.onCandle), at);
    var traded := Trading(setup, s, k, script);
    SameFillsAtMarket(setup.config, setup.candles, traded, RunBar(setup, s, k, script));
  }

  lemma SameFillsAtMarket(cfg: Config, candles: seq<Candle>, s: State, s': State)
    requires s'.filled == s.filled && s'.fills == s.fills && s'.totalSlippage == s.totalSlippage
    ensures AtMarket(cfg, candles, s) ==> AtMarket(cfg, candles, s')
    ensures AtMarket(cfg, candles, Initial(cfg))
  {
    hide FillPrice;
  }

  lemma SubmitAllAtMarket(cfg: Config, candles: seq<Candle>, s: State, rs: seq<OrderRequest>, at: Origin)
    requires s == Initial(cfg) || AtMarket(cfg, candles, s)
    ensures AtMarket(cfg, candles, SubmitAll(s, rs, at))
  {
    hide AtMarket;
    SubmitAllAppends(s, rs, at);
    SameFillsAtMarket(cfg, candles, s, SubmitAll(s, rs, at));
  }

  lemma {:induction false} DrainAtMarket(cfg: Config, candles: seq<Candle>, s: State, i: nat, kept: seq<Order>, k: nat,
                                         reactions: seq<seq<OrderRequest>>)
    requires i <= |s.pending| && k < |candles| && AtMarket(cfg, candles, s)
    ensures AtMarket(cfg, candles, DrainFrom(cfg, s, i, kept, candles[k], k, reactions))
    decreases |reactions|, |s.pending| - i
  {
    hide AtMarket, FillPrice, Execute, SubmitAll;
    if i == |s.pending| {
      SameFillsAtMarket(cfg, candles, s, s.(pending := kept));
    } else {
      var o := s.pending[i];
      match FillPrice(cfg.slippagePct, o.request, candles[k]) {
        case None => DrainAtMarket(cfg, candles, s, i + 1, kept + [o], k, reactions);
        case Some(price) =>
          var e := Execute(cfg, s, o, price, candles[k], k);
          ExecuteAtMarket(cfg, candles, s, o, price, k);
          SubmitAllAtMarket(cfg, candles, e, Head(reactions), Origin(k, true));
          var f := FillAndReact(cfg, s, o, price, candles[k], k, Head(reactions));
          DrainAtMarket(cfg, candles, SubmitAll(e, Head(reactions), Origin(k, true)), i + 1, kept, k, Tail(reactions));
      }
    }
  }

  lemma ExecuteAtMarket(cfg: Config, candles: seq<Candle>, s: State, o: Order, price: real, k: nat)
    requires k < |candles| && AtMarket(cfg, candles, s)
    requires FillPrice(cfg.slippagePct, o.request, candles[k]) == Some(price)
    ensures AtMarket(cfg, candles, Execute(cfg, s, o, price, candles[k], k))
  {
    hide FillPrice, ApplyTrade, TradePnl, CommissionOn, Round4;
    var s' := Execute(cfg, s, o, price, candles[k], k);
    assert Init(s'.filled) == s.filled;
  }

  // ---------------------------------------------------------------------------
  // Marking to market

  /** Cost of the positions in all other symbols, for which a bar brings no price. */
  function OthersAtCost(symbols: seq<string>, positions: map<string, Position>, symbol: string): real {
    if symbols == [] then 0.0
    else
      OthersAtCost(Init(symbols), positions, symbol)
      + if Last(symbols) == symbol then 0.0 else Cost(At(positions, Last(symbols)))
  }

  /** Valued at the close of the one symbol that has a price: its units at that price, and any
      others at what they cost. */
  lemma {:induction false} ValuedAtClose(symbols: seq<string>, positions: map<string, Position>, symbol: string, close: real)
    requires Unique(symbols)
    ensures var prices, p := map[symbol := close], At(positions, symbol);
      && PositionValue(symbols, positions, prices)
         == OthersAtCost(symbols, positions, symbol) + (if symbol in symbols then CostOf(p.quantity, close) else 0.0)
      && UnrealizedPnl(symbols, positions, prices)
         == (if symbol in symbols then CostOf(p.quantity, close) - Cost(p) else 0.0)
  {
    if symbols != [] {
      ValuedAtClose(Init(symbols), positions, symbol, close);
      assert symbols == Init(symbols) + [Last(symbols)];
      OneValuedAtClose(At(positions, Last(symbols)), map[symbol := close], Last(symbols));
    }
  }

  lemma OneValuedAtClose(p: Position, prices: map<string, real>, symbol: string)
    ensures var price := if symbol in prices then prices[symbol] else p.averagePrice;
      && ValueOf(p, PriceOf(prices, symbol, p)) == CostOf(p.quantity, price)
      && GainOf(p, PriceOf(prices, symbol, p)) == CostOf(p.quantity, price) - Cost(p)
  {
    var price := if symbol in prices then prices[symbol] else p.averagePrice;
    assert (price - p.averagePrice) * p.quantity as real == p.quantity as real * price - p.quantity as real * p.averagePrice;
  }

  /** The snapshot of a bar, to within half a paisa each: cash, cash plus the units at the close,
      what they gained on their average price, and what the positions realised. */
  ghost predicate MarkedToMarket(snap: Snapshot, s: State, c: Candle, symbol: string) {
    var p := At(s.positions, symbol);
    && snap.datetime == c.datetime
    && Abs(snap.cash - s.cash) <= 0.005
    && Abs(snap.portfolioValue - (s.cash + CostOf(p.quantity, c.close) + OthersAtCost(s.symbols, s.positions, symbol)))
       <= 0.005
    && Abs(snap.unrealizedPnl - CostOf(p.quantity, c.close - p.averagePrice)) <= 0.005
    && Abs(snap.realizedPnl - RealizedPnl(s.symbols, s.positions)) <= 0.005
  }

  lemma SnapMarksToMarket(s: State, c: Candle, symbol: string)
    requires Indexed(s.symbols, s.positions)
    ensures MarkedToMarket(Last(Snap(s, c, map[symbol := c.close]).equity), s, c, symbol)
  {
    hide Round2, PositionValue, UnrealizedPnl, RealizedPnl, OthersAtCost;
    var prices, p := map[symbol := c.close], At(s.positions, symbol);
    ValuedAtClose(s.symbols, s.positions, symbol, c.close);
    RoundErrors(s.cash);
    RoundErrors(s.cash + PositionValue(s.symbols, s.positions, prices));
    RoundErrors(UnrealizedPnl(s.symbols, s.positions, prices));
    RoundErrors(RealizedPnl(s.symbols, s.positions));
    GainInUnits(p, c.close);
  }

  lemma GainInUnits(p: Position, close: real)
    ensures CostOf(p.quantity, close - p.averagePrice) == CostOf(p.quantity, close) - Cost(p)
    ensures p.quantity == 0 ==> CostOf(p.quantity, close) == 0.0 && Cost(p) == 0.0
  {
  }

  /** In every run the snapshot of each bar marks the account as it is after the bar to the
      bar's close. */
  lemma {:induction false} EverySnapshotMarksToMarket(setup: Setup, script: Script, n: nat, k: nat)
    requires k < n <= |setup.candles|
    ensures |After(setup, script, n).equity| == n
    ensures MarkedToMarket(After(setup, script, n).equity[k], After(setup, script, k + 1), setup.candles[k], setup.symbol)
  {
    hide RunBar, Sound, MarkedToMarket;
    var s := After(setup, script, n - 1);
    EveryRunIsSound(setup, script, n - 1);
    BarMarksToMarket(setup, s, n - 1, script);
    if k < n - 1 {
      EverySnapshotMarksToMarket(setup, script, n - 1, k);
    }
  }

  lemma BarMarksToMarket(setup: Setup, s: State, k: nat, script: Script)
    requires k < |setup.candles| && Sound(setup.config, s, k, k)
    ensures var s' := RunBar(setup, s, k, script);
      && |s'.equity| == k + 1 && |s.equity| == k && (forall i :: 0 <= i < k ==> s'.equity[i] == s.equity[i])
      && MarkedToMarket(s'.equity[k], s', setup.candles[k], setup.symbol)
  {
    hide Trading, MarkedToMarket;
    TradingSound(setup, s, k, script);
    TradingKeepsEquity(setup, s, k, script);
    var traded := Trading(setup, s, k, script);
    SnapMarksToMarket(traded, setup.candles[k], setup.symbol);
    SameAccountMarked(Last(RunBar(setup, s, k, script).equity), traded, RunBar(setup, s, k, script), setup.candles[k], setup.symbol);
  }

  lemma SameAccountMarked(snap: Snapshot, s: State, s': State, c: Candle, symbol: string)
    requires MarkedToMarket(snap, s, c, symbol)
    requires s'.cash == s.cash && s'.symbols == s.symbols && s'.positions == s.positions
    ensures MarkedToMarket(snap, s', c, symbol)
  {
  }

  // ---------------------------------------------------------------------------
  // The equity curve

  /** The snapshot reports, to within rounding, the initial capital plus the profit it
      reports less the commission paid by then. */
  ghost predicate Reconciles(cfg: Config, snap: Snapshot, commission: real) {
    Abs(snap.portfolioValue - (cfg.initialCapital + snap.realizedPnl + snap.unrealizedPnl - commission)) <= 0.015
  }

  lemma {:induction false} EverySnapshotReconciles(setup: Setup, script: Script, n: nat, k: nat)
    requires k < n <= |setup.candles|
    ensures |After(setup, script, n).equity| == n
    ensures Reconciles(setup.config, After(setup, script, n).equity[k], After(setup, script, k + 1).totalCommission)
  {
    hide RunBar, Sound, Reconciles;
    var s := After(setup, script, n - 1);
    EveryRunIsSound(setup, script, n - 1);
    BarAddsSnapshot(setup, s, n - 1, script);
    if k < n - 1 {
      EverySnapshotReconciles(setup, script, n - 1, k);
    }
  }

  lemma BarAddsSnapshot(setup: Setup, s: State, k: nat, script: Script)
    requires k < |setup.candles| && Sound(setup.config, s, k, k)
    ensures var s' := RunBar(setup, s, k, script);
      && |s'.equity| == k + 1 && (forall i :: 0 <= i < k ==> s'.equity[i] == s.equity[i])
      && Reconciles(setup.config, s'.equity[k], s'.totalCommission)
    ensures |s.equity| == k
  {
    TradingSound(setup, s, k, script);
    TradingKeepsEquity(setup, s, k, script);
    hide Trading;
    SnapshotConserves(setup.config, Trading(setup, s, k, script), setup.candles[k], ClosingPrices(setup, k));
  }

  lemma TradingKeepsEquity(setup: Setup, s: State, k: nat, script: Script)
    requires k < |setup.candles|
    ensures Trading(setup, s, k, script).equity == s.equity
  {
    var b, at := ScriptAt(script, k), Origin(k, false);
    var drained := Drain(setup.config, s, setup.candles[k], k, AllRequests(b.onFill));
    DrainPartition(setup.config, s, 0, [], setup.candles[k], k, AllRequests(b.onFill));
    SubmitAllAppends(drained, Requests(b.onTick), at);
    SubmitAllAppends(SubmitAll(drained, Requests(b.onTick), at), Requests(b.onCandle), at);
  }
}
