/** What a drain does to the queue, in closed form: although fill callbacks append to
    the list being iterated, the drain splits everything it sees into what the candle
    fills and what it does not, both in submission order. */
module OrderQueue {
  import opened MarketData
  import opened Numbers
  import opened Positions
  import opened Sequences
  import opened SimulatedBroker

  /** The orders a batch of requests becomes when `n` orders came before it. */
  function Batch(n: nat, rs: seq<OrderRequest>, at: Origin): seq<Order> {
    seq(|rs|, j requires 0 <= j < |rs| => Order(n + j, rs[j], at))
  }

  function Flatten(reactions: seq<seq<OrderRequest>>): seq<OrderRequest> {
    if reactions == [] then [] else reactions[0] + Flatten(reactions[1..])
  }

  /** What the first `n` reactions of a script submit. */
  function Submissions(reactions: seq<seq<OrderRequest>>, n: nat): seq<OrderRequest> {
    Flatten(reactions[..MinInt(n, |reactions|)])
  }

  function Orders(filled: seq<FilledOrder>): seq<Order> {
    seq(|filled|, i requires 0 <= i < |filled| => filled[i].order)
  }

  /** Whether the candle fills an order: it depends on the order and the candle only. */
  function FillTest(cfg: Config, c: Candle): Order -> bool { o => Fills(cfg.slippagePct, c, o) }

  lemma {:induction false} SubmitAllAppends(s: State, rs: seq<OrderRequest>, at: Origin)
    ensures var b := Batch(|s.submitted|, rs, at);
      SubmitAll(s, rs, at) == s.(pending := s.pending + b, submitted := s.submitted + b)
    decreases |rs|
  {
    var b := Batch(|s.submitted|, rs, at);
    if rs == [] {
      assert s.pending + b == s.pending && s.submitted + b == s.submitted;
    } else {
      var s1 := Submit(s, rs[0], at);
      SubmitAllAppends(s1, rs[1..], at);
      var b1 := Batch(|s1.submitted|, rs[1..], at);
      assert b == [Order(|s.submitted|, rs[0], at)] + b1;
      assert s1.pending + b1 == s.pending + b;
      assert s1.submitted + b1 == s.submitted + b;
    }
  }

  lemma BatchAppend(n: nat, a: seq<OrderRequest>, b: seq<OrderRequest>, at: Origin)
    ensures Batch(n, a + b, at) == Batch(n, a, at) + Batch(n + |a|, b, at)
  {
  }

  lemma FilterCons(o: Order, queue: seq<Order>, p: Order -> bool)
    ensures Filter([o] + queue, p) == (if p(o) then [o] else []) + Filter(queue, p)
    ensures Filter([o] + queue, Not(p)) == (if p(o) then [] else [o]) + Filter(queue, Not(p))
  {
    FilterAppend([o], queue, p);
    FilterAppend([o], queue, Not(p));
    assert Init([o]) == [];
    assert Filter([o], p) == if p(o) then [o] else [];
    assert Filter([o], Not(p)) == if p(o) then [] else [o];
  }

  /** What the callbacks of a drain from `s` to `s'` submitted. */
  function Arrivals(s: State, bar: int, reactions: seq<seq<OrderRequest>>, s': State): seq<Order>
    requires |s.filled| <= |s'.filled|
  {
    Batch(|s.submitted|, Submissions(reactions, |s'.filled| - |s.filled|), Origin(bar, true))
  }

  /** `s'` results from `s` by splitting `queue` according to `p`, when `arrivals` were
      submitted meanwhile and `kept` had already been left unfilled. */
  ghost predicate Splits(p: Order -> bool, s: State, kept: seq<Order>, bar: int,
                         queue: seq<Order>, arrivals: seq<Order>, s': State)
  {
    && s'.submitted == s.submitted + arrivals
    && s'.pending == kept + Filter(queue, Not(p))
    && Orders(s'.filled) == Orders(s.filled) + Filter(queue, p)
    && s.filled <= s'.filled
    && (forall f :: f in s'.filled ==> f in s.filled || f.bar == bar)
    && s'.equity == s.equity
  }

  /** The drain from index `i` splits what was left of the list, followed by everything
      its callbacks submitted. */
  lemma {:induction false} DrainPartition(cfg: Config, s: State, i: nat, kept: seq<Order>, c: Candle, bar: int,
                                          reactions: seq<seq<OrderRequest>>)
    requires i <= |s.pending|
    ensures var s' := DrainFrom(cfg, s, i, kept, c, bar, reactions);
      && |s.filled| <= |s'.filled|
      && var arrivals := Arrivals(s, bar, reactions, s');
         Splits(FillTest(cfg, c), s, kept, bar, s.pending[i..] + arrivals, arrivals, s')
    decreases |reactions|, |s.pending| - i
  {
    hide Splits, Orders, FillPrice, Filter;
    var p, at := FillTest(cfg, c), Origin(bar, true);
    var s' := DrainFrom(cfg, s, i, kept, c, bar, reactions);
    if i == |s.pending| {
      NothingLeft(p, s, kept, bar, reactions);
    } else {
      var o := s.pending[i];
      match FillPrice(cfg.slippagePct, o.request, c) {
        case None =>
          DrainPartition(cfg, s, i + 1, kept + [o], c, bar, reactions);
          KeptStep(p, s, kept, bar, o, s.pending[i + 1..], Arrivals(s, bar, reactions, s'), s');
          assert s.pending[i..] == [o] + s.pending[i + 1..];
        case Some(price) =>
          var s1 := SubmitAll(Execute(cfg, s, o, price, c, bar), Head(reactions), at);
          DrainPartition(cfg, s1, i + 1, kept, c, bar, Tail(reactions));
          var f := FillAndReact(cfg, s, o, price, c, bar, Head(reactions));
          DrainFilledStep(p, s, i, kept, bar, reactions, f, s1, s');
      }
    }
  }

  lemma NothingLeft(p: Order -> bool, s: State, kept: seq<Order>, bar: int, reactions: seq<seq<OrderRequest>>)
    ensures var s' := s.(pending := kept);
      Arrivals(s, bar, reactions, s') == [] && Splits(p, s, kept, bar, s.pending[|s.pending|..] + [], [], s')
  {
    assert Submissions(reactions, 0) == [];
    assert s.submitted + [] == s.submitted && kept + [] == kept;
    assert Orders(s.filled) + [] == Orders(s.filled);
  }

  lemma DrainFilledStep(p: Order -> bool, s: State, i: nat, kept: seq<Order>, bar: int,
                        reactions: seq<seq<OrderRequest>>, f: FilledOrder, s1: State, s': State)
    requires i < |s.pending| && p(s.pending[i]) && f.order == s.pending[i] && f.bar == bar
    requires var b0 := Batch(|s.submitted|, Head(reactions), Origin(bar, true));
             s1.pending == s.pending + b0 && s1.submitted == s.submitted + b0
    requires s1.filled == s.filled + [f] && s1.equity == s.equity && |s1.filled| <= |s'.filled|
    requires var b1 := Arrivals(s1, bar, Tail(reactions), s');
             Splits(p, s1, kept, bar, s1.pending[i + 1..] + b1, b1, s')
    ensures var arrivals := Arrivals(s, bar, reactions, s');
      Splits(p, s, kept, bar, s.pending[i..] + arrivals, arrivals, s')
  {
    hide Splits, Filter, Orders;
    var rest := s.pending[i + 1..];
    var b0 := Batch(|s.submitted|, Head(reactions), Origin(bar, true));
    var b1 := Arrivals(s1, bar, Tail(reactions), s');
    assert s1.pending[i + 1..] == rest + b0;
    FilledStep(p, s, kept, bar, f, rest, b0, b1, s1, s');
    assert s.pending[i..] == [f.order] + rest;
    assert Arrivals(s, bar, reactions, s') == b0 + b1 by {
      var k := |s'.filled| - |s1.filled|;
      SubmissionsStep(reactions, k);
      BatchAppend(|s.submitted|, Head(reactions), Submissions(Tail(reactions), k), Origin(bar, true));
    }
  }

  lemma FillAndReact(cfg: Config, s: State, o: Order, price: real, c: Candle, bar: int, rs: seq<OrderRequest>)
    returns (f: FilledOrder)
    ensures var s1, b0 := SubmitAll(Execute(cfg, s, o, price, c, bar), rs, Origin(bar, true)),
                          Batch(|s.submitted|, rs, Origin(bar, true));
      && s1.pending == s.pending + b0 && s1.submitted == s.submitted + b0
      && s1.filled == s.filled + [f] && s1.equity == s.equity
    ensures f.order == o && f.bar == bar
  {
    var e := Execute(cfg, s, o, price, c, bar);
    SubmitAllAppends(e, rs, Origin(bar, true));
    f := Last(e.filled);
  }

  lemma KeptStep(p: Order -> bool, s: State, kept: seq<Order>, bar: int, o: Order,
                 rest: seq<Order>, arrivals: seq<Order>, s': State)
    requires !p(o) && Splits(p, s, kept + [o], bar, rest + arrivals, arrivals, s')
    ensures Splits(p, s, kept, bar, [o] + rest + arrivals, arrivals, s')
  {
    assert [o] + rest + arrivals == [o] + (rest + arrivals);
    FilterCons(o, rest + arrivals, p);
    assert kept + ([o] + Filter(rest + arrivals, Not(p))) == kept + [o] + Filter(rest + arrivals, Not(p));
    assert [] + Filter(rest + arrivals, p) == Filter(rest + arrivals, p);
  }

  lemma FilledStep(p: Order -> bool, s: State, kept: seq<Order>, bar: int, f: FilledOrder,
                   rest: seq<Order>, b0: seq<Order>, b1: seq<Order>, s1: State, s': State)
    requires p(f.order) && f.bar == bar
    requires s1.submitted == s.submitted + b0 && s1.filled == s.filled + [f] && s1.equity == s.equity
    requires Splits(p, s1, kept, bar, rest + b0 + b1, b1, s')
    ensures Splits(p, s, kept, bar, [f.order] + rest + (b0 + b1), b0 + b1, s')
  {
    var o, queue := f.order, rest + b0 + b1;
    assert [o] + rest + (b0 + b1) == [o] + queue;
    FilterCons(o, queue, p);
    assert [] + Filter(queue, Not(p)) == Filter(queue, Not(p));
    assert s.submitted + (b0 + b1) == s.submitted + b0 + b1;
    assert Orders(s1.filled) == Orders(s.filled) + [o];
    assert Orders(s.filled) + ([o] + Filter(queue, p)) == Orders(s.filled) + [o] + Filter(queue, p);
  }

  lemma SubmissionsStep(reactions: seq<seq<OrderRequest>>, k: nat)
    ensures Submissions(reactions, k + 1) == Head(reactions) + Submissions(Tail(reactions), k)
  {
    if reactions != [] {
      var n := MinInt(k, |reactions| - 1);
      assert reactions[..n + 1][1..] == reactions[1..][..n];
    }
  }

  // ---------------------------------------------------------------------------
  // Conservation of orders

  ghost predicate IncreasingIds(queue: seq<Order>) {
    forall i, j :: 0 <= i < j < |queue| ==> queue[i].id < queue[j].id
  }

  /** Between drains, pending and filled orders together are exactly the submitted
      ones, and the pending ones are in submission order. */
  ghost predicate Conserved(s: State) {
    && (forall i :: 0 <= i < |s.submitted| ==> s.submitted[i].id == i)
    && multiset(s.pending) + multiset(Orders(s.filled)) == multiset(s.submitted)
    && IncreasingIds(s.pending)
  }

  /** What the invariant says of each submitted order: it is pending or filled, never
      both and never twice. */
  lemma PendingOrFilledOnce(s: State, o: Order)
    requires Conserved(s) && o in s.submitted
    ensures multiset(s.pending)[o] + multiset(Orders(s.filled))[o] == 1
  {
    assert IncreasingIds(s.submitted);
    IncreasingIsSet(s.submitted, o);
  }

  lemma {:induction false} IncreasingIsSet(queue: seq<Order>, o: Order)
    requires IncreasingIds(queue)
    ensures multiset(queue)[o] == if o in queue then 1 else 0
  {
    if queue != [] {
      IncreasingIsSet(Init(queue), o);
      assert queue == Init(queue) + [Last(queue)];
    }
  }

  lemma {:induction false} FilterIncreasing(queue: seq<Order>, p: Order -> bool)
    requires IncreasingIds(queue)
    ensures IncreasingIds(Filter(queue, p))
  {
    if queue != [] {
      FilterIncreasing(Init(queue), p);
      forall o | o in Filter(Init(queue), p)
        ensures o.id < Last(queue).id
      {
        FilterMember(Init(queue), p, o);
      }
    }
  }

  /** Orders numbered after everything submitted so far extend the queue in order. */
  lemma ArrivalsExtendQueue(s: State, arrivals: seq<Order>)
    requires Conserved(s)
    requires forall i :: 0 <= i < |arrivals| ==> arrivals[i].id == |s.submitted| + i
    ensures IncreasingIds(s.pending + arrivals)
  {
    forall o | o in s.pending
      ensures o.id < |s.submitted|
    {
      assert o in multiset(s.pending);
      assert o in multiset(s.submitted);
    }
  }

  lemma SubmitAllConserves(s: State, rs: seq<OrderRequest>, at: Origin)
    requires Conserved(s)
    ensures Conserved(SubmitAll(s, rs, at))
  {
    SubmitAllAppends(s, rs, at);
    ArrivalsExtendQueue(s, Batch(|s.submitted|, rs, at));
  }

  /** A drain loses no order, duplicates none and keeps submission order. */
  lemma DrainConserves(cfg: Config, s: State, c: Candle, bar: int, reactions: seq<seq<OrderRequest>>)
    requires Conserved(s)
    ensures Conserved(Drain(cfg, s, c, bar, reactions))
  {
    var s' := Drain(cfg, s, c, bar, reactions);
    DrainPartition(cfg, s, 0, [], c, bar, reactions);
    assert s.pending[0..] == s.pending;
    SplitConserves(FillTest(cfg, c), s, bar, Arrivals(s, bar, reactions, s'), s');
  }

  lemma SplitConserves(p: Order -> bool, s: State, bar: int, arrivals: seq<Order>, s': State)
    requires Conserved(s) && Splits(p, s, [], bar, s.pending + arrivals, arrivals, s')
    requires forall i :: 0 <= i < |arrivals| ==> arrivals[i].id == |s.submitted| + i
    ensures Conserved(s')
  {
    var queue := s.pending + arrivals;
    assert [] + Filter(queue, Not(p)) == Filter(queue, Not(p));
    ArrivalsExtendQueue(s, arrivals);
    FilterIncreasing(queue, Not(p));
    FilterSplits(queue, p);
    Regroup(multiset(s.pending), multiset(arrivals), multiset(s.submitted), multiset(Orders(s.filled)),
            multiset(Filter(queue, Not(p))), multiset(Filter(queue, p)));
  }

  lemma Regroup(pending: multiset<Order>, arrivals: multiset<Order>, submitted: multiset<Order>,
                filled: multiset<Order>, kept: multiset<Order>, done: multiset<Order>)
    requires pending + filled == submitted && done + kept == pending + arrivals
    ensures kept + (filled + done) == submitted + arrivals
  {
    forall o
      ensures (kept + (filled + done))[o] == (submitted + arrivals)[o]
    {
      assert (done + kept)[o] == (pending + arrivals)[o];
    }
  }

  /** Exactly which orders a drain fills: those its candle triggers, whether they were
      waiting before it or were submitted by a callback during it. */
  lemma DrainFillsExactlyTheTriggered(cfg: Config, s: State, c: Candle, bar: int,
                                      reactions: seq<seq<OrderRequest>>, o: Order)
    requires Conserved(s)
    requires |s.filled| <= |Drain(cfg, s, c, bar, reactions).filled|
    requires o in s.pending || o in Arrivals(s, bar, reactions, Drain(cfg, s, c, bar, reactions))
    ensures var s' := Drain(cfg, s, c, bar, reactions);
      && (o in Orders(s'.filled) <==> Fills(cfg.slippagePct, c, o))
      && (o in s'.pending <==> !Fills(cfg.slippagePct, c, o))
  {
    var p, s' := FillTest(cfg, c), Drain(cfg, s, c, bar, reactions);
    DrainPartition(cfg, s, 0, [], c, bar, reactions);
    DrainConserves(cfg, s, c, bar, reactions);
    var queue := s.pending[0..] + Arrivals(s, bar, reactions, s');
    assert o in queue && s'.pending == Filter(queue, Not(p));
    FilterMember(queue, p, o);
    FilterMember(queue, Not(p), o);
    if o in s'.pending {
      assert o in multiset(s'.pending) && o in multiset(s'.submitted);
      PendingOrFilledOnce(s', o);
    }
  }

  // ---------------------------------------------------------------------------
  // When a drain ends

  /** How many of the requests the candle fills. */
  function Hits(cfg: Config, c: Candle, rs: seq<OrderRequest>): nat {
    if rs == [] then 0
    else Hits(cfg, c, Init(rs)) + if FillPrice(cfg.slippagePct, Last(rs), c).Some? then 1 else 0
  }

  lemma {:induction false} HitsAppend(cfg: Config, c: Candle, a: seq<OrderRequest>, b: seq<OrderRequest>)
    ensures Hits(cfg, c, a + b) == Hits(cfg, c, a) + Hits(cfg, c, b)
  {
    hide FillPrice;
    if b == [] {
      assert a + b == a;
    } else {
      assert Init(a + b) == a + Init(b);
      HitsAppend(cfg, c, a, Init(b));
    }
  }

  lemma {:induction false} BatchHits(cfg: Config, c: Candle, n: nat, rs: seq<OrderRequest>, at: Origin)
    ensures |Filter(Batch(n, rs, at), FillTest(cfg, c))| == Hits(cfg, c, rs)
  {
    hide FillPrice;
    if rs != [] {
      assert Init(Batch(n, rs, at)) == Batch(n, Init(rs), at);
      BatchHits(cfg, c, n, Init(rs), at);
    }
  }

  /** Orders the candle triggers among those waiting and those of the first `n` reactions. */
  function Demand(cfg: Config, c: Candle, waiting: seq<Order>, reactions: seq<seq<OrderRequest>>, n: nat): nat {
    |Filter(waiting, FillTest(cfg, c))| + Hits(cfg, c, Submissions(reactions, n))
  }

  /** A drain fills the least number of orders that is also the number of orders triggered
      when that many reactions have been submitted. */
  lemma {:induction false} DrainFillsLeast(cfg: Config, s: State, i: nat, kept: seq<Order>, c: Candle, bar: int,
                                           reactions: seq<seq<OrderRequest>>, n: nat)
    requires i <= |s.pending|
    ensures var s' := DrainFrom(cfg, s, i, kept, c, bar, reactions);
      && |s.filled| <= |s'.filled|
      && var fills := |s'.filled| - |s.filled|;
         && Demand(cfg, c, s.pending[i..], reactions, fills) == fills
         && (n < fills ==> Demand(cfg, c, s.pending[i..], reactions, n) > n)
    decreases |reactions|, |s.pending| - i
  {
    hide FillPrice, Execute, SubmitAll, Demand;
    var p, at := FillTest(cfg, c), Origin(bar, true);
    if i == |s.pending| {
      NoDemand(cfg, c, reactions);
    } else {
      var o := s.pending[i];
      assert s.pending[i..] == [o] + s.pending[i + 1..];
      match FillPrice(cfg.slippagePct, o.request, c) {
        case None =>
          DrainFillsLeast(cfg, s, i + 1, kept + [o], c, bar, reactions, n);
          var s' := DrainFrom(cfg, s, i, kept, c, bar, reactions);
          UntriggeredAddsNoDemand(cfg, c, o, s.pending[i + 1..], reactions, n);
          UntriggeredAddsNoDemand(cfg, c, o, s.pending[i + 1..], reactions, |s'.filled| - |s.filled|);
        case Some(price) =>
          var s1 := SubmitAll(Execute(cfg, s, o, price, c, bar), Head(reactions), at);
          var f := FillAndReact(cfg, s, o, price, c, bar, Head(reactions));
          DrainFillsLeast(cfg, s1, i + 1, kept, c, bar, Tail(reactions), if n == 0 then 0 else n - 1);
          var s' := DrainFrom(cfg, s, i, kept, c, bar, reactions);
          var rest, b0 := s.pending[i + 1..], Batch(|s.submitted|, Head(reactions), at);
          assert s1.pending[i + 1..] == rest + b0;
          TriggeredAddsDemand(cfg, c, o, rest, reactions, |s'.filled| - |s1.filled|, |s.submitted|, at);
          if n == 0 {
            TriggeredDemandsOne(cfg, c, o, rest, reactions);
          } else {
            TriggeredAddsDemand(cfg, c, o, rest, reactions, n - 1, |s.submitted|, at);
          }
      }
    }
  }

  lemma NoDemand(cfg: Config, c: Candle, reactions: seq<seq<OrderRequest>>)
    ensures Demand(cfg, c, [], reactions, 0) == 0
  {
    assert Submissions(reactions, 0) == [];
  }

  lemma UntriggeredAddsNoDemand(cfg: Config, c: Candle, o: Order, rest: seq<Order>,
                                reactions: seq<seq<OrderRequest>>, n: nat)
    requires FillPrice(cfg.slippagePct, o.request, c).None?
    ensures Demand(cfg, c, [o] + rest, reactions, n) == Demand(cfg, c, rest, reactions, n)
  {
    hide FillPrice, Filter, Hits, Submissions;
    FilterCons(o, rest, FillTest(cfg, c));
  }

  lemma TriggeredDemandsOne(cfg: Config, c: Candle, o: Order, rest: seq<Order>, reactions: seq<seq<OrderRequest>>)
    requires FillPrice(cfg.slippagePct, o.request, c).Some?
    ensures Demand(cfg, c, [o] + rest, reactions, 0) > 0
  {
    hide FillPrice, Filter, Hits, Submissions;
    FilterCons(o, rest, FillTest(cfg, c));
  }

  /** Filling an order turns its demand into that of the reaction it provokes. */
  lemma TriggeredAddsDemand(cfg: Config, c: Candle, o: Order, rest: seq<Order>,
                            reactions: seq<seq<OrderRequest>>, n: nat, first: nat, at: Origin)
    requires FillPrice(cfg.slippagePct, o.request, c).Some?
    ensures Demand(cfg, c, [o] + rest, reactions, n + 1)
            == 1 + Demand(cfg, c, rest + Batch(first, Head(reactions), at), Tail(reactions), n)
  {
    hide FillPrice, Filter, Hits, Submissions, Batch;
    var p := FillTest(cfg, c);
    FilterCons(o, rest, p);
    FilterAppend(rest, Batch(first, Head(reactions), at), p);
    BatchHits(cfg, c, first, Head(reactions), at);
    SubmissionsStep(reactions, n);
    HitsAppend(cfg, c, Head(reactions), Submissions(Tail(reactions), n));
  }

  /** `n` fills are exactly what is triggered by then, given the strategy's reaction to each. */
  predicate Settles(cfg: Config, s: State, c: Candle, strategy: nat -> seq<OrderRequest>, n: nat) {
    Demand(cfg, c, s.pending, seq(n, strategy), n) == n
  }

  /** Against a strategy with an answer to every fill, a drain ends within `limit` fills exactly
      when it settles at such a number, and then it makes the least number of fills at which
      it does; a drain that settles nowhere uses up any number of answers. */
  lemma DrainEndsExactlyWhereItSettles(cfg: Config, s: State, c: Candle, bar: int,
                                       strategy: nat -> seq<OrderRequest>, limit: nat)
    ensures var s' := Drain(cfg, s, c, bar, seq(limit, strategy));
      && |s.filled| <= |s'.filled|
      && var fills := |s'.filled| - |s.filled|;
         && (fills <= limit <==> exists n :: 0 <= n <= limit && Settles(cfg, s, c, strategy, n))
         && (fills <= limit ==>
               && Settles(cfg, s, c, strategy, fills)
               && forall n :: 0 <= n < fills ==> !Settles(cfg, s, c, strategy, n))
  {
    hide DrainFrom, FillPrice, Demand;
    var script := seq(limit, strategy);
    var s' := Drain(cfg, s, c, bar, script);
    assert s.pending[0..] == s.pending;
    DrainFillsLeast(cfg, s, 0, [], c, bar, script, 0);
    var fills := |s'.filled| - |s.filled|;
    forall n: nat | n <= limit
      ensures Settles(cfg, s, c, strategy, n) <==> Demand(cfg, c, s.pending, script, n) == n
    {
      SameScript(cfg, c, s.pending, strategy, limit, n);
    }
    forall n: nat | n < fills
      ensures Demand(cfg, c, s.pending, script, n) > n
    {
      DrainFillsLeast(cfg, s, 0, [], c, bar, script, n);
    }
  }

  lemma SameScript(cfg: Config, c: Candle, waiting: seq<Order>, strategy: nat -> seq<OrderRequest>, limit: nat, n: nat)
    requires n <= limit
    ensures Demand(cfg, c, waiting, seq(limit, strategy), n) == Demand(cfg, c, waiting, seq(n, strategy), n)
  {
    assert seq(limit, strategy)[..n] == seq(n, strategy)[..n];
  }

  /** A strategy that answers every fill with an order the candle triggers has no
      terminating drain once one order fills: however many answers are allowed, all of them
      are used, whatever else was pending. */
  lemma EchoedOrdersNeverSettle(cfg: Config, s: State, c: Candle, bar: int, reactions: seq<seq<OrderRequest>>, o: Order)
    requires o in s.pending && Fills(cfg.slippagePct, c, o)
    requires forall i :: 0 <= i < |reactions| ==>
      |reactions[i]| == 1 && FillPrice(cfg.slippagePct, reactions[i][0], c).Some?
    ensures |Drain(cfg, s, c, bar, reactions).filled|
            == |s.filled| + |Filter(s.pending, FillTest(cfg, c))| + |reactions|
  {
    hide FillPrice, DrainFrom, Filter;
    var p, s' := FillTest(cfg, c), Drain(cfg, s, c, bar, reactions);
    DrainPartition(cfg, s, 0, [], c, bar, reactions);
    assert s.pending[0..] == s.pending;
    var k := |s'.filled| - |s.filled|;
    var arrivals := Arrivals(s, bar, reactions, s');
    var answered := reactions[..MinInt(k, |reactions|)];
    FlattenSingles(cfg, c, answered);
    forall x | x in arrivals
      ensures p(x)
    {
      var i :| 0 <= i < |arrivals| && arrivals[i] == x;
      assert x.request == Flatten(answered)[i];
    }
    FilterAppend(s.pending, arrivals, p);
    FilterAll(arrivals, p);
    FilterMember(s.pending, p, o);
    assert |Orders(s'.filled)| == |Orders(s.filled)| + |Filter(s.pending, p)| + |arrivals|;
  }

  lemma {:induction false} FlattenSingles(cfg: Config, c: Candle, reactions: seq<seq<OrderRequest>>)
    requires forall i :: 0 <= i < |reactions| ==>
      |reactions[i]| == 1 && FillPrice(cfg.slippagePct, reactions[i][0], c).Some?
    ensures |Flatten(reactions)| == |reactions|
    ensures forall i :: 0 <= i < |Flatten(reactions)| ==> FillPrice(cfg.slippagePct, Flatten(reactions)[i], c).Some?
  {
    hide FillPrice;
    if reactions != [] {
      FlattenSingles(cfg, c, reactions[1..]);
    }
  }
}
