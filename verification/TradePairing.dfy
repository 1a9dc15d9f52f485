/** Round-trip trades by first-in first-out pairing of recorded fills, their statistics,
    and how they reconcile with the ledger the fills came from. */
module TradePairing {
  import opened Numbers
  import opened Positions
  import opened Sequences
  import opened SimulatedBroker
  import opened Ledger

  datatype RoundTrip = RoundTrip(
    symbol: string,
    entryTime: int,
    exitTime: int,
    entryPrice: real,
    exitPrice: real,
    quantity: int,
    pnl: real,
    commission: real
  )

  function SideFills(fills: seq<Fill>, side: Side): seq<Fill> { Filter(fills, (f: Fill) => f.side == side) }

  function SymbolFills(fills: seq<Fill>, symbol: string): seq<Fill> { Filter(fills, (f: Fill) => f.symbol == symbol) }

  /** Profit of buying with one fill and selling with another, before rounding. */
  function RawPnl(buy: Fill, sell: Fill): real {
    CostOf(MinInt(buy.quantity, sell.quantity), sell.price - buy.price) - (buy.commission + sell.commission)
  }

  function Pair(buy: Fill, sell: Fill): RoundTrip {
    RoundTrip(buy.symbol, buy.executedAt, sell.executedAt, buy.price, sell.price,
              MinInt(buy.quantity, sell.quantity), Round4(RawPnl(buy, sell)), buy.commission + sell.commission)
  }

  function Pairs(buys: seq<Fill>, sells: seq<Fill>): seq<RoundTrip> {
    if buys == [] || sells == [] then [] else [Pair(buys[0], sells[0])] + Pairs(buys[1..], sells[1..])
  }

  /** The symbols of the fills, each once, in order of first appearance. */
  function SymbolsOf(fills: seq<Fill>): seq<string> {
    if fills == [] then []
    else
      var before := SymbolsOf(Init(fills));
      if Last(fills).symbol in before then before else before + [Last(fills).symbol]
  }

  function TradesOfSymbols(fills: seq<Fill>, symbols: seq<string>): seq<RoundTrip> {
    if symbols == [] then []
    else
      var own := SymbolFills(fills, Last(symbols));
      TradesOfSymbols(fills, Init(symbols)) + Pairs(SideFills(own, Buy), SideFills(own, Sell))
  }

  /** Groups the fills by symbol, in order of first appearance. */
  method GroupBySymbol(fills: seq<Fill>) returns (symbols: seq<string>, groups: map<string, seq<Fill>>)
    ensures symbols == SymbolsOf(fills)
    ensures forall x :: x in symbols ==> x in groups && groups[x] == SymbolFills(fills, x)
  {
    hide SymbolsOf, Grouped;
    symbols, groups := [], map[];
    NothingGrouped(fills);
    var k := 0;
    while k < |fills|
      invariant 0 <= k <= |fills|
      invariant symbols == SymbolsOf(fills[..k]) && Grouped(fills[..k], symbols, groups)
    {
      var symbol := fills[k].symbol;
      GroupOneMore(fills, k, symbols, groups);
      var own := if symbol in groups then groups[symbol] else [];
      if symbol !in groups {
        symbols := symbols + [symbol];
      }
      groups := groups[symbol := own + [fills[k]]];
      k := k + 1;
    }
    GroupedByEnd(fills, symbols, groups);
  }

  /** The groups hold, symbol by symbol, the given fills. */
  ghost predicate Grouped(fills: seq<Fill>, symbols: seq<string>, groups: map<string, seq<Fill>>) {
    && (forall x :: x in symbols <==> x in groups)
    && forall x :: (if x in groups then groups[x] else []) == SymbolFills(fills, x)
  }

  lemma NothingGrouped(fills: seq<Fill>)
    ensures SymbolsOf(fills[..0]) == [] && Grouped(fills[..0], [], map[])
  {
  }

  lemma GroupOneMore(fills: seq<Fill>, k: nat, symbols: seq<string>, groups: map<string, seq<Fill>>)
    requires k < |fills| && symbols == SymbolsOf(fills[..k]) && Grouped(fills[..k], symbols, groups)
    ensures var f := fills[k];
      var symbols', own := if f.symbol in groups then symbols else symbols + [f.symbol],
                           if f.symbol in groups then groups[f.symbol] else [];
      && (f.symbol in symbols <==> f.symbol in groups)
      && symbols' == SymbolsOf(fills[..k + 1])
      && Grouped(fills[..k + 1], symbols', groups[f.symbol := own + [f]])
  {
    hide SymbolFills, SymbolsOf;
    SymbolOneMore(fills, k);
    forall x
      ensures SymbolFills(fills[..k + 1], x)
              == SymbolFills(fills[..k], x) + if fills[k].symbol == x then [fills[k]] else []
    {
      OneMoreFill(fills, k, x);
    }
  }

  lemma SymbolOneMore(fills: seq<Fill>, k: nat)
    requires k < |fills|
    ensures var symbols, symbol := SymbolsOf(fills[..k]), fills[k].symbol;
      SymbolsOf(fills[..k + 1]) == if symbol in symbols then symbols else symbols + [symbol]
  {
    assert Init(fills[..k + 1]) == fills[..k];
  }

  lemma OneMoreFill(fills: seq<Fill>, k: nat, symbol: string)
    requires k < |fills|
    ensures SymbolFills(fills[..k + 1], symbol)
            == SymbolFills(fills[..k], symbol) + if fills[k].symbol == symbol then [fills[k]] else []
  {
    assert Init(fills[..k + 1]) == fills[..k];
  }

  lemma GroupedByEnd(fills: seq<Fill>, symbols: seq<string>, groups: map<string, seq<Fill>>)
    requires symbols == SymbolsOf(fills[..|fills|]) && Grouped(fills[..|fills|], symbols, groups)
    ensures symbols == SymbolsOf(fills)
    ensures forall x :: x in symbols ==> x in groups && groups[x] == SymbolFills(fills, x)
  {
    assert fills[..|fills|] == fills;
  }

  /** Pops a buy and a sell off the queues while both last. */
  method PairFills(own: seq<Fill>) returns (trades: seq<RoundTrip>)
    ensures trades == Pairs(SideFills(own, Buy), SideFills(own, Sell))
  {
    hide Pair;
    trades := [];
    var buys, sells := SideFills(own, Buy), SideFills(own, Sell);
    ghost var all := Pairs(buys, sells);
    while buys != [] && sells != []
      invariant trades + Pairs(buys, sells) == all
      decreases |buys|
    {
      var buy, sell := buys[0], sells[0];
      buys, sells := buys[1..], sells[1..];
      trades := trades + [Pair(buy, sell)];
    }
  }

  /** The trades of every symbol; sorting them by entry time is left to the caller. */
  method BuildTrades(fills: seq<Fill>) returns (trades: seq<RoundTrip>)
    ensures trades == TradesOfSymbols(fills, SymbolsOf(fills))
  {
    hide Pairs, SymbolsOf, SideFills;
    var symbols, groups := GroupBySymbol(fills);
    trades := [];
    var s := 0;
    while s < |symbols|
      invariant 0 <= s <= |symbols|
      invariant trades == TradesOfSymbols(fills, symbols[..s])
    {
      assert Init(symbols[..s + 1]) == symbols[..s];
      var own := PairFills(groups[symbols[s]]);
      trades := trades + own;
      s := s + 1;
    }
    assert symbols[..s] == symbols;
  }

  /** Trade number `k` of a symbol joins its k-th buy and its k-th sell, so each fill is
      used at most once and the shorter side decides the number of trades. */
  lemma {:induction false} PairsMatchByRank(buys: seq<Fill>, sells: seq<Fill>)
    ensures |Pairs(buys, sells)| == MinInt(|buys|, |sells|)
    ensures forall k :: 0 <= k < |Pairs(buys, sells)| ==> Joins(Pairs(buys, sells)[k], buys[k], sells[k])
  {
    hide Joins, Pair;
    if buys != [] && sells != [] {
      PairJoins(buys[0], sells[0]);
      PairsMatchByRank(buys[1..], sells[1..]);
    }
  }

  /** The trade enters with the buy and exits with the sell; it counts the units both have, and
      its profit is what those units gained, less both commissions, to four places. */
  predicate Joins(t: RoundTrip, buy: Fill, sell: Fill) {
    && t.symbol == buy.symbol
    && t.entryTime == buy.executedAt && t.entryPrice == buy.price
    && t.exitTime == sell.executedAt && t.exitPrice == sell.price
    && t.quantity == (if buy.quantity <= sell.quantity then buy.quantity else sell.quantity)
    && t.commission == buy.commission + sell.commission
    && Abs(t.pnl - (CostOf(t.quantity, t.exitPrice - t.entryPrice) - t.commission)) <= HALF_UNIT
  }

  lemma PairJoins(buy: Fill, sell: Fill)
    ensures Joins(Pair(buy, sell), buy, sell)
  {
    hide Round4, CostOf;
    RoundErrors(RawPnl(buy, sell));
  }

  /** Each symbol occurs once, and has a fill; a new one comes after the earlier ones. */
  lemma {:induction false} SymbolsOccurOnce(fills: seq<Fill>, x: string)
    ensures Unique(SymbolsOf(fills))
    ensures fills != [] ==> SymbolsOf(Init(fills)) <= SymbolsOf(fills)
    ensures x in SymbolsOf(fills) <==> exists i :: 0 <= i < |fills| && fills[i].symbol == x
  {
    if fills != [] {
      SymbolsOccurOnce(Init(fills), x);
      SymbolsOccurOnce(Init(fills), Last(fills).symbol);
      if i :| 0 <= i < |fills| - 1 && Init(fills)[i].symbol == x {
        assert fills[i].symbol == x;
      }
      assert fills[|fills| - 1] == Last(fills);
    }
  }

  /** The trades of each symbol are the pairs of its own buys and sells, whatever the fills of
      other symbols. */
  lemma TradesOfEachSymbol(fills: seq<Fill>, x: string)
    ensures Filter(TradesOfSymbols(fills, SymbolsOf(fills)), (t: RoundTrip) => t.symbol == x)
            == Pairs(SideFills(SymbolFills(fills, x), Buy), SideFills(SymbolFills(fills, x), Sell))
  {
    hide SymbolsOf, Pairs;
    SymbolsOccurOnce(fills, x);
    TradesAmong(fills, SymbolsOf(fills), x);
    if x !in SymbolsOf(fills) {
      NoFillsOf(fills, x);
      NothingToPair();
    }
  }

  lemma NothingToPair()
    ensures Pairs(SideFills([], Buy), SideFills([], Sell)) == []
  {
  }

  lemma {:induction false} NoFillsOf(fills: seq<Fill>, x: string)
    requires forall i :: 0 <= i < |fills| ==> fills[i].symbol != x
    ensures SymbolFills(fills, x) == []
  {
    if fills != [] {
      assert fills[|fills| - 1] == Last(fills);
      NoFillsOf(Init(fills), x);
    }
  }

  lemma {:induction false} TradesAmong(fills: seq<Fill>, symbols: seq<string>, x: string)
    requires Unique(symbols)
    ensures Filter(TradesOfSymbols(fills, symbols), (t: RoundTrip) => t.symbol == x)
            == if x in symbols then Pairs(SideFills(SymbolFills(fills, x), Buy), SideFills(SymbolFills(fills, x), Sell)) else []
  {
    hide Pairs, SideFills, SymbolFills;
    if symbols != [] {
      var before, y := Init(symbols), Last(symbols);
      assert symbols == before + [y];
      var own := Pairs(SideFills(SymbolFills(fills, y), Buy), SideFills(SymbolFills(fills, y), Sell));
      TradesAmong(fills, before, x);
      FilterAppend(TradesOfSymbols(fills, before), own, (t: RoundTrip) => t.symbol == x);
      PairsBearSymbol(fills, y);
      if x == y {
        FilterAll(own, (t: RoundTrip) => t.symbol == x);
      } else {
        FilterNone(own, (t: RoundTrip) => t.symbol == x);
      }
    }
  }

  lemma PairsBearSymbol(fills: seq<Fill>, y: string)
    ensures forall t :: t in Pairs(SideFills(SymbolFills(fills, y), Buy), SideFills(SymbolFills(fills, y), Sell)) ==> t.symbol == y
  {
    hide Pairs, SideFills, SymbolFills;
    var own := SymbolFills(fills, y);
    var buys, sells := SideFills(own, Buy), SideFills(own, Sell);
    PairsMatchByRank(buys, sells);
    SidesAreSided(own);
    forall f | f in own
      ensures f.symbol == y
    {
      OwnFill(fills, y, f);
    }
    assert forall k :: 0 <= k < |Pairs(buys, sells)| ==> buys[k] in buys;
  }

  lemma OwnFill(fills: seq<Fill>, y: string, f: Fill)
    requires f in SymbolFills(fills, y)
    ensures f.symbol == y
  {
    FilterMember(fills, (x: Fill) => x.symbol == y, f);
  }

  // ---------------------------------------------------------------------------
  // Which exits follow their entries

  ghost predicate InTimeOrder(fills: seq<Fill>) {
    forall i, j :: 0 <= i < j < |fills| ==> fills[i].executedAt <= fills[j].executedAt
  }

  /** Fills executed by a given time. */
  function CountBy(fills: seq<Fill>, time: int): nat {
    if fills == [] then 0 else CountBy(Init(fills), time) + if Last(fills).executedAt <= time then 1 else 0
  }

  lemma {:induction false} CountedByTime(fills: seq<Fill>, time: int, k: nat)
    requires InTimeOrder(fills) && k < |fills|
    ensures CountBy(fills, time) <= |fills|
    ensures k < CountBy(fills, time) <==> fills[k].executedAt <= time
  {
    if |fills| > 1 {
      CountedByTime(Init(fills), time, MinInt(k, |fills| - 2));
      if k == |fills| - 1 && fills[k].executedAt <= time {
        CountedByTime(Init(fills), time, k - 1);
      }
    }
  }

  /** Pairing by rank makes a trade of a sell and a later buy where a short was covered. Every
      trade exits no earlier than it enters exactly when at no time more of the sells that get
      paired have been executed than buys. */
  lemma TradesExitAfterEntryExactly(buys: seq<Fill>, sells: seq<Fill>)
    requires InTimeOrder(buys) && InTimeOrder(sells)
    ensures (forall t :: t in Pairs(buys, sells) ==> t.entryTime <= t.exitTime)
            <==> forall time :: MinInt(CountBy(sells, time), |buys|) <= CountBy(buys, time)
  {
    hide CountBy, Pairs;
    PairsMatchByRank(buys, sells);
    var trades := Pairs(buys, sells);
    if forall t :: t in trades ==> t.entryTime <= t.exitTime {
      forall time: int
        ensures MinInt(CountBy(sells, time), |buys|) <= CountBy(buys, time)
      {
        BuysKeepUp(buys, sells, time);
      }
    } else {
      var t :| t in trades && t.entryTime > t.exitTime;
      var k :| 0 <= k < |trades| && trades[k] == t;
      CountedByTime(sells, t.exitTime, k);
      CountedByTime(buys, t.exitTime, k);
      assert MinInt(CountBy(sells, t.exitTime), |buys|) > CountBy(buys, t.exitTime);
    }
  }

  lemma BuysKeepUp(buys: seq<Fill>, sells: seq<Fill>, time: int)
    requires InTimeOrder(buys) && InTimeOrder(sells)
    requires forall t :: t in Pairs(buys, sells) ==> t.entryTime <= t.exitTime
    ensures MinInt(CountBy(sells, time), |buys|) <= CountBy(buys, time)
  {
    hide CountBy, Pairs;
    PairsMatchByRank(buys, sells);
    var n := MinInt(CountBy(sells, time), |buys|);
    if n > 0 {
      if sells == [] {
        NoneCounted(time);
      } else {
        CountedByTime(sells, time, |sells| - 1);
        CountedByTime(sells, time, n - 1);
        assert Pairs(buys, sells)[n - 1] in Pairs(buys, sells);
        CountedByTime(buys, time, n - 1);
      }
    }
  }

  lemma NoneCounted(time: int)
    ensures CountBy([], time) == 0
  {
  }

  // ---------------------------------------------------------------------------
  // Reconciliation with the ledger

  function TotalPnl(trades: seq<RoundTrip>): real {
    if trades == [] then 0.0 else trades[0].pnl + TotalPnl(trades[1..])
  }

  function RawTotal(buys: seq<Fill>, sells: seq<Fill>): real {
    if buys == [] || sells == [] then 0.0 else RawPnl(buys[0], sells[0]) + RawTotal(buys[1..], sells[1..])
  }

  /** Cash that pairing does not see: units beyond the smaller quantity of each pair, and
      the fills left over on the longer side. */
  function Unpaired(buys: seq<Fill>, sells: seq<Fill>): real {
    if buys == [] || sells == [] then FlowOf(buys) + FlowOf(sells)
    else Excess(buys[0], sells[0]) + Unpaired(buys[1..], sells[1..])
  }

  function Excess(buy: Fill, sell: Fill): real {
    var m := MinInt(buy.quantity, sell.quantity);
    sell.price * (sell.quantity - m) as real - buy.price * (buy.quantity - m) as real
  }

  /** Cash moved by fills, added up from the front. */
  function FlowOf(fills: seq<Fill>): real {
    if fills == [] then 0.0 else RecordedFlow(fills[0]) + FlowOf(fills[1..])
  }

  /** For any fills, what the trades report is the cash moved less what pairing misses. */
  lemma {:induction false} PairingAccountsForCash(buys: seq<Fill>, sells: seq<Fill>)
    requires forall f :: f in buys ==> f.side.Buy?
    requires forall f :: f in sells ==> f.side.Sell?
    ensures RawTotal(buys, sells) + Unpaired(buys, sells) == FlowOf(buys) + FlowOf(sells)
  {
    hide Excess, RawPnl, RecordedFlow;
    if buys != [] && sells != [] {
      OnePair(buys[0], sells[0]);
      PairingAccountsForCash(buys[1..], sells[1..]);
    }
  }

  lemma OnePair(buy: Fill, sell: Fill)
    requires buy.side.Buy? && sell.side.Sell?
    ensures RawPnl(buy, sell) + Excess(buy, sell) == RecordedFlow(buy) + RecordedFlow(sell)
  {
    var m := MinInt(buy.quantity, sell.quantity);
    SplitProduct(sell.price, sell.quantity, m);
    SplitProduct(buy.price, buy.quantity, m);
    assert CostOf(m, sell.price - buy.price) == sell.price * m as real - buy.price * m as real;
  }

  lemma SplitProduct(x: real, q: int, m: int)
    ensures q as real * x == x * m as real + x * (q - m) as real
  {
    assert (q - m) as real == q as real - m as real;
  }

  /** With equal quantities and as many sells as buys, pairing misses nothing. */
  lemma {:induction false} EqualFillsLeaveNothing(buys: seq<Fill>, sells: seq<Fill>, q: Quantity)
    requires |buys| == |sells|
    requires forall f :: f in buys || f in sells ==> f.quantity == q
    ensures Unpaired(buys, sells) == 0.0
  {
    if buys != [] {
      EqualFillsLeaveNothing(buys[1..], sells[1..], q);
      assert Excess(buys[0], sells[0]) == sells[0].price * 0.0 - buys[0].price * 0.0;
    }
  }

  lemma {:induction false} ReplayIsFlow(initial: real, fills: seq<Fill>)
    ensures ReplayCash(initial, fills) - initial == FlowOf(SideFills(fills, Buy)) + FlowOf(SideFills(fills, Sell))
  {
    hide RecordedFlow;
    if fills != [] {
      var f := Last(fills);
      ReplayIsFlow(initial, Init(fills));
      FlowAppend(SideFills(Init(fills), f.side), f);
      var other := if f.side.Buy? then Sell else Buy;
      assert SideFills(fills, other) == SideFills(Init(fills), other);
    }
  }

  lemma {:induction false} FlowAppend(fills: seq<Fill>, f: Fill)
    ensures FlowOf(fills + [f]) == FlowOf(fills) + RecordedFlow(f)
  {
    hide RecordedFlow;
    if fills == [] {
      assert [] + [f] == [f];
    } else {
      assert (fills + [f])[1..] == fills[1..] + [f];
      FlowAppend(fills[1..], f);
    }
  }

  lemma {:induction false} RoundingOfTrades(buys: seq<Fill>, sells: seq<Fill>)
    ensures Abs(TotalPnl(Pairs(buys, sells)) - RawTotal(buys, sells)) <= HALF_UNIT * |Pairs(buys, sells)| as real
  {
    hide RawPnl, Round4;
    if buys != [] && sells != [] {
      RoundingOfTrades(buys[1..], sells[1..]);
      RoundErrors(RawPnl(buys[0], sells[0]));
      assert Pairs(buys, sells)[1..] == Pairs(buys[1..], sells[1..]);
    }
  }

  /** For a run in one symbol whose fills all have the same quantity, with as many sells
      as buys, the trades' total is the change in cash up to rounding, and that change is
      the realised profit less commission. */
  lemma AnalyticsReconcileWithLedger(cfg: Config, s: State, symbol: string, q: Quantity)
    requires Books(cfg, s)
    requires forall f :: f in s.fills ==> f.symbol == symbol && f.quantity == q
    requires |SideFills(s.fills, Buy)| == |SideFills(s.fills, Sell)|
    ensures var trades := TradesOfSymbols(s.fills, SymbolsOf(s.fills));
      && |trades| == |SideFills(s.fills, Sell)|
      && Abs(TotalPnl(trades) - (s.cash - cfg.initialCapital))
         <= ReplayTolerance(s.fills) + HALF_UNIT * |trades| as real
    ensures s.cash - cfg.initialCapital == RealizedPnl(s.symbols, s.positions) - s.totalCommission
  {
    hide Books, TotalPnl, RawTotal, ReplayCash, ReplayTolerance, RealizedPnl, FlowOf, SideFills, TradesOfSymbols, SymbolsOf, Pairs;
    var buys, sells := SideFills(s.fills, Buy), SideFills(s.fills, Sell);
    OneSymbolPairs(s.fills, symbol);
    PairsMatchByRank(buys, sells);
    RoundingOfTrades(buys, sells);
    SidesAreSided(s.fills);
    PairingAccountsForCash(buys, sells);
    EqualFillsLeaveNothing(buys, sells, q);
    ReplayIsFlow(cfg.initialCapital, s.fills);
    ReplayErrorBound(cfg, s);
    EqualFillsEndFlat(cfg, s, symbol, q);
    FlatAccountHoldsItsProfitInCash(cfg, s);
  }

  lemma SidesAreSided(fills: seq<Fill>)
    ensures forall side, f :: f in SideFills(fills, side) ==> f in fills && f.side == side
  {
    forall side, f | f in SideFills(fills, side)
      ensures f in fills && f.side == side
    {
      FilterMember(fills, (x: Fill) => x.side == side, f);
    }
  }

  lemma {:induction false} OneSymbolPairs(fills: seq<Fill>, symbol: string)
    requires forall f :: f in fills ==> f.symbol == symbol
    ensures SymbolsOf(fills) == if fills == [] then [] else [symbol]
    ensures TradesOfSymbols(fills, SymbolsOf(fills)) == Pairs(SideFills(fills, Buy), SideFills(fills, Sell))
  {
    hide Pair;
    if fills != [] {
      OneSymbolPairs(Init(fills), symbol);
      FilterAll(fills, (f: Fill) => f.symbol == symbol);
      assert Init([symbol]) == [];
    }
  }

  lemma EqualFillsEndFlat(cfg: Config, s: State, symbol: string, q: Quantity)
    requires Books(cfg, s)
    requires forall f :: f in s.fills ==> f.symbol == symbol && f.quantity == q
    requires |SideFills(s.fills, Buy)| == |SideFills(s.fills, Sell)|
    ensures forall x :: At(s.positions, x).quantity == 0
  {
    hide ApplyTrade, Balanced, Round4, CashAddsUp, SideFills, PositionAfter, NetQuantity, Indexed, Charged, CommissionOn;
    forall x
      ensures At(s.positions, x).quantity == 0
    {
      assert At(s.positions, x) == PositionAfter(TradesOf(s.filled, x));
      HistoryFixesPosition(TradesOf(s.filled, x));
      NetOfEqualFills(s.filled, s.fills, x, symbol, q);
    }
  }

  lemma {:induction false} NetOfEqualFills(filled: seq<FilledOrder>, fills: seq<Fill>, x: string, symbol: string, q: Quantity)
    requires |filled| == |fills|
    requires forall i :: 0 <= i < |fills| ==>
      && fills[i].symbol == filled[i].order.request.symbol == symbol
      && fills[i].quantity == filled[i].order.request.quantity == q
      && fills[i].side == filled[i].order.request.side
    ensures NetQuantity(TradesOf(filled, x))
            == if x == symbol then Times(q, |SideFills(fills, Buy)| - |SideFills(fills, Sell)|) else 0
  {
    hide Times;
    TimesStep(q, 0);
    if fills != [] {
      NetOfEqualFills(Init(filled), Init(fills), x, symbol, q);
      var f, t := Last(fills), Last(filled).AsTrade();
      NetOfOneMore(TradesOf(Init(filled), x), t);
      TimesStep(q, |SideFills(Init(fills), Buy)| - |SideFills(Init(fills), Sell)|);
      assert |SideFills(fills, Buy)| == |SideFills(Init(fills), Buy)| + if f.side.Buy? then 1 else 0;
      assert |SideFills(fills, Sell)| == |SideFills(Init(fills), Sell)| + if f.side.Sell? then 1 else 0;
      assert x != symbol ==> TradesOf(filled, x) == TradesOf(Init(filled), x);
      assert x == symbol ==> TradesOf(filled, x) == TradesOf(Init(filled), x) + [t];
    }
  }

  lemma NetOfOneMore(ts: seq<Trade>, t: Trade)
    ensures NetQuantity(ts + [t]) == NetQuantity(ts) + t.Signed()
  {
    assert (ts + [t])[..|ts|] == ts;
  }

  function Times(q: int, n: int): int { q * n }

  lemma TimesStep(q: int, n: int)
    ensures Times(q, 0) == 0
    ensures Times(q, n + 1) == Times(q, n) + q && Times(q, n - 1) == Times(q, n) - q
  {
  }
}
