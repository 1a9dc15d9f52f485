/** Reference-counted feed subscriptions. Each call is atomic; the broker is the set of
    symbols it has been asked to stream. */
module FeedService {
  import opened Numbers
  import opened Sequences

  datatype Symbol = Symbol(name: string, exchange: string)

  type Consumer = string
  type Interval = string

  datatype Feed = Feed(
    refs: map<Symbol, int>,
    consumers: map<Consumer, seq<Symbol>>,       // symbols with a tick callback, in insertion order
    aggregators: set<(Symbol, Interval)>,
    broker: set<Symbol>
  )

  const INITIAL := Feed(map[], map[], {}, {})

  datatype Op =
    | Sub(consumer: Consumer, symbol: Symbol, interval: Interval, tick: bool)
    | Unsub(consumer: Consumer, symbol: Symbol, interval: Interval)

  /** Reading a default dictionary: an absent count is zero. */
  function RefCount(f: Feed, s: Symbol): int { if s in f.refs then f.refs[s] else 0 }

  function SymbolsOf(consumers: map<Consumer, seq<Symbol>>, c: Consumer): seq<Symbol> {
    if c in consumers then consumers[c] else []
  }

  function TickSymbols(f: Feed, c: Consumer): seq<Symbol> { SymbolsOf(f.consumers, c) }

  function AddTick(consumers: map<Consumer, seq<Symbol>>, c: Consumer, s: Symbol, tick: bool): map<Consumer, seq<Symbol>> {
    var symbols := SymbolsOf(consumers, c);
    consumers[c := if tick && s !in symbols then symbols + [s] else symbols]
  }

  function Without(symbols: seq<Symbol>, s: Symbol): seq<Symbol> { Filter(symbols, (x: Symbol) => x != s) }

  function DropTick(consumers: map<Consumer, seq<Symbol>>, c: Consumer, s: Symbol): map<Consumer, seq<Symbol>> {
    if c !in consumers then consumers
    else
      var left := Without(consumers[c], s);
      if left == [] then consumers - {c} else consumers[c := left]
  }

  function Apply(f: Feed, op: Op): Feed {
    var s := op.symbol;
    match op
    case Sub(c, _, interval, tick) =>
      f.(
        aggregators := f.aggregators + {(s, interval)},
        consumers := AddTick(f.consumers, c, s, tick),
        refs := f.refs[s := RefCount(f, s) + 1],
        broker := if RefCount(f, s) == 0 then f.broker + {s} else f.broker)
    case Unsub(c, _, interval) =>
      var count := if RefCount(f, s) > 0 then RefCount(f, s) - 1 else RefCount(f, s);
      var dropped := f.(consumers := DropTick(f.consumers, c, s));
      if count == 0 then
        dropped.(
          refs := f.refs - {s},
          broker := f.broker - {s},
          aggregators := f.aggregators - {(s, interval)})
      else dropped.(refs := f.refs[s := count])
  }

  function Run(ops: seq<Op>): Feed {
    if ops == [] then INITIAL else Apply(Run(Init(ops)), Last(ops))
  }

  // ---------------------------------------------------------------------------
  // Counts and the broker

  ghost predicate CountsMatchBroker(f: Feed) {
    f.refs.Keys == f.broker && forall s :: s in f.refs ==> f.refs[s] > 0
  }

  /** After every call, however the consumers behave, every stored count is positive and
      the counted symbols are exactly those the broker streams. */
  lemma {:induction false} CountsAlwaysMatchBroker(ops: seq<Op>)
    ensures CountsMatchBroker(Run(ops))
  {
    if ops != [] {
      CountsAlwaysMatchBroker(Init(ops));
    }
  }

  /** Who still has a subscription to `s`, with multiplicity, by the calls alone. */
  function Held(ops: seq<Op>, s: Symbol): multiset<Consumer> {
    if ops == [] then multiset{}
    else
      var before, op := Held(Init(ops), s), Last(ops);
      if op.symbol != s then before
      else if op.Sub? then before + multiset{op.consumer}
      else before - multiset{op.consumer}
  }

  /** No consumer gives back a subscription it does not have. */
  ghost predicate Disciplined(ops: seq<Op>) {
    ops != [] ==>
      && Disciplined(Init(ops))
      && (Last(ops).Unsub? ==> Last(ops).consumer in Held(Init(ops), Last(ops).symbol))
  }

  lemma {:induction false} CountsAreOutstanding(ops: seq<Op>, s: Symbol)
    requires Disciplined(ops)
    ensures RefCount(Run(ops), s) == |Held(ops, s)|
  {
    if ops != [] {
      CountsAreOutstanding(Init(ops), s);
    }
  }

  /** Among disciplined consumers a symbol is streamed exactly while somebody holds a
      subscription to it. */
  lemma StreamedExactlyWhileHeld(ops: seq<Op>, s: Symbol)
    requires Disciplined(ops)
    ensures s in Run(ops).broker <==> Held(ops, s) != multiset{}
  {
    CountsAlwaysMatchBroker(ops);
    CountsAreOutstanding(ops, s);
  }

  /** A consumer that gives back a subscription it does not have takes the symbol away
      from the others exactly when only one of them holds it. */
  lemma ExtraUnsubscribeTakesAnothers(ops: seq<Op>, c: Consumer, s: Symbol, i: Interval)
    requires Disciplined(ops) && c !in Held(ops, s)
    ensures var after := ops + [Unsub(c, s, i)];
      && Held(after, s) == Held(ops, s)
      && (s in Run(after).broker <==> |Held(ops, s)| > 1)
  {
    assert Init(ops + [Unsub(c, s, i)]) == ops;
    CountsAreOutstanding(ops, s);
    CountsAlwaysMatchBroker(ops);
  }

  // ---------------------------------------------------------------------------
  // Aggregators

  /** An aggregator lives as long as its symbol stays counted. */
  lemma {:induction false} AggregatorSurvives(ops: seq<Op>, more: seq<Op>, s: Symbol, i: Interval)
    requires (s, i) in Run(ops).aggregators
    requires forall k :: 0 <= k <= |more| ==> s in Run(ops + more[..k]).refs
    ensures (s, i) in Run(ops + more).aggregators
  {
    if more == [] {
      assert ops + more == ops;
    } else {
      var before := Init(more);
      forall k | 0 <= k <= |before|
        ensures s in Run(ops + before[..k]).refs
      {
        assert before[..k] == more[..k];
      }
      AggregatorSurvives(ops, before, s, i);
      assert Init(ops + more) == ops + before && more[..|more|] == more;
    }
  }

  /** Whatever else disciplined consumers do, an aggregator created for a subscription
      survives while anybody holds the symbol. */
  lemma AggregatorOutlivesOtherConsumers(ops: seq<Op>, sub: Op, more: seq<Op>)
    requires sub.Sub? && Disciplined(ops + [sub] + more)
    requires forall k :: 0 <= k <= |more| ==> Held(ops + [sub] + more[..k], sub.symbol) != multiset{}
    ensures (sub.symbol, sub.interval) in Run(ops + [sub] + more).aggregators
  {
    var base := ops + [sub];
    assert Init(base) == ops;
    assert (sub.symbol, sub.interval) in Run(base).aggregators;
    hide Apply, Run, Held, Disciplined;
    forall k | 0 <= k <= |more|
      ensures sub.symbol in Run(base + more[..k]).refs
    {
      DisciplinedPrefix(base, more, k);
      StreamedExactlyWhileHeld(base + more[..k], sub.symbol);
      CountsAlwaysMatchBroker(base + more[..k]);
    }
    AggregatorSurvives(base, more, sub.symbol, sub.interval);
  }

  lemma {:induction false} DisciplinedPrefix(ops: seq<Op>, more: seq<Op>, k: nat)
    requires k <= |more| && Disciplined(ops + more)
    ensures Disciplined(ops + more[..k])
  {
    if k < |more| {
      assert Init(ops + more) == ops + Init(more) && Init(more)[..k] == more[..k];
      DisciplinedPrefix(ops, Init(more), k);
    } else {
      assert more[..k] == more;
    }
  }

  /** The last unsubscription removes the aggregator of one interval only, so it leaves
      none behind exactly when the symbol had no other interval. */
  lemma LastUnsubscribeLeavesOtherIntervals(f: Feed, op: Op)
    requires op.Unsub? && RefCount(f, op.symbol) <= 1 && RefCount(f, op.symbol) >= 0
    ensures (forall i :: (op.symbol, i) !in Apply(f, op).aggregators)
            <==> (forall i :: (op.symbol, i) in f.aggregators ==> i == op.interval)
  {
    var s, after := op.symbol, Apply(f, op).aggregators;
    assert after == f.aggregators - {(s, op.interval)};
    forall i
      ensures (s, i) in after <==> (s, i) in f.aggregators && i != op.interval
    {
    }
  }

  // ---------------------------------------------------------------------------
  // Unsubscribing a consumer from everything

  /** The calls made for it: one for each symbol with a tick callback of the consumer. */
  function Releases(f: Feed, c: Consumer, defaultInterval: Interval): seq<Op> {
    ReleaseEach(c, TickSymbols(f, c), defaultInterval)
  }

  lemma {:induction false} TickCallbacksAreHeld(ops: seq<Op>, c: Consumer)
    ensures var symbols := TickSymbols(Run(ops), c);
      Unique(symbols) && forall s :: s in symbols ==> c in Held(ops, s)
  {
    hide Apply, TickSymbols, Without;
    if ops == [] {
      NoTickSymbols(c);
    } else {
      TickCallbacksAreHeld(Init(ops), c);
      var op, before := Last(ops), TickSymbols(Run(Init(ops)), c);
      TickSymbolsAfter(Run(Init(ops)), op, c);
      if op.Unsub? {
        WithoutRemoves(before, op.symbol);
      }
    }
  }

  lemma NoTickSymbols(c: Consumer)
    ensures TickSymbols(INITIAL, c) == []
  {
  }

  lemma TickSymbolsAfter(f: Feed, op: Op, c: Consumer)
    ensures var before, s := TickSymbols(f, c), op.symbol;
      TickSymbols(Apply(f, op), c)
      == if op.consumer != c then before
         else if op.Unsub? then Without(before, s)
         else if op.tick && s !in before then before + [s] else before
  {
  }

  lemma WithoutRemoves(symbols: seq<Symbol>, s: Symbol)
    requires Unique(symbols)
    ensures Unique(Without(symbols, s))
    ensures forall x :: x in Without(symbols, s) <==> x in symbols && x != s
  {
    FilterUnique(symbols, (x: Symbol) => x != s);
    forall x
      ensures x in Without(symbols, s) <==> x in symbols && x != s
    {
      FilterMember(symbols, (y: Symbol) => y != s, x);
    }
  }

  function ReleaseEach(c: Consumer, symbols: seq<Symbol>, d: Interval): seq<Op> {
    seq(|symbols|, k requires 0 <= k < |symbols| => Unsub(c, symbols[k], d))
  }

  /** How many of a consumer's subscriptions are left after the releases. */
  lemma {:induction false} ReleasesGiveBackOneEach(ops: seq<Op>, c: Consumer, symbols: seq<Symbol>, d: Interval)
    requires Disciplined(ops) && Unique(symbols) && forall s :: s in symbols ==> c in Held(ops, s)
    ensures Disciplined(ops + ReleaseEach(c, symbols, d))
    ensures forall s :: Held(ops + ReleaseEach(c, symbols, d), s)
                        == if s in symbols then Held(ops, s) - multiset{c} else Held(ops, s)
  {
    hide Held, Disciplined;
    var all := ops + ReleaseEach(c, symbols, d);
    if symbols == [] {
      assert all == ops;
    } else {
      var before := Init(symbols);
      var earlier := ops + ReleaseEach(c, before, d);
      ReleasesGiveBackOneEach(ops, c, before, d);
      assert all == earlier + [Unsub(c, Last(symbols), d)];
      assert symbols == before + [Last(symbols)];
      assert Last(symbols) !in before;
      OneMoreRelease(earlier, c, Last(symbols), d);
    }
  }

  lemma OneMoreRelease(ops: seq<Op>, c: Consumer, released: Symbol, d: Interval)
    requires Disciplined(ops) && c in Held(ops, released)
    ensures Disciplined(ops + [Unsub(c, released, d)])
    ensures forall s :: Held(ops + [Unsub(c, released, d)], s)
                        == if s == released then Held(ops, s) - multiset{c} else Held(ops, s)
  {
    assert Init(ops + [Unsub(c, released, d)]) == ops;
  }

  ghost predicate Freed(ops: seq<Op>, c: Consumer) {
    forall s :: c !in Held(ops, s)
  }

  /** The consumer has a tick callback for the symbol: it gave one with a subscription, and has
      not unsubscribed from the symbol since. */
  predicate HasCallback(ops: seq<Op>, c: Consumer, s: Symbol) {
    if ops == [] then false
    else
      var op := Last(ops);
      if op.consumer != c || op.symbol != s then HasCallback(Init(ops), c, s)
      else if op.Unsub? then false
      else op.tick || HasCallback(Init(ops), c, s)
  }

  /** The service calls a consumer back for exactly those symbols. */
  lemma {:induction false} CalledBackExactly(ops: seq<Op>, c: Consumer, s: Symbol)
    ensures s in TickSymbols(Run(ops), c) <==> HasCallback(ops, c, s)
  {
    hide Apply, TickSymbols, Without;
    if ops == [] {
      NoTickSymbols(c);
    } else {
      CalledBackExactly(Init(ops), c, s);
      TickCallbacksAreHeld(Init(ops), c);
      TickSymbolsAfter(Run(Init(ops)), Last(ops), c);
      if Last(ops).Unsub? {
        WithoutRemoves(TickSymbols(Run(Init(ops)), c), Last(ops).symbol);
      }
    }
  }

  /** The consumer holds each symbol at most once, and only with a tick callback. */
  ghost predicate HeldOnceWithTick(ops: seq<Op>, c: Consumer) {
    forall s :: Held(ops, s)[c] == if HasCallback(ops, c, s) then 1 else 0
  }

  /** Unsubscribing from everything stays within the discipline, and frees the consumer
      exactly when it held each symbol at most once and only with a tick callback: a
      second interval, or a candle-only subscription, stays counted. */
  lemma UnsubscribeAllFreesExactlySingleTickSubscriptions(ops: seq<Op>, c: Consumer, d: Interval)
    requires Disciplined(ops)
    ensures Disciplined(ops + Releases(Run(ops), c, d))
    ensures Freed(ops + Releases(Run(ops), c, d), c) <==> HeldOnceWithTick(ops, c)
  {
    var all := ops + Releases(Run(ops), c, d);
    TickCallbacksAreHeld(ops, c);
    ReleasesGiveBackOneEach(ops, c, TickSymbols(Run(ops), c), d);
    hide Held, Disciplined, Run, HasCallback;
    forall s
      ensures c !in Held(all, s) <==> Held(ops, s)[c] == if HasCallback(ops, c, s) then 1 else 0
    {
      CalledBackExactly(ops, c, s);
      assert s in TickSymbols(Run(ops), c) ==> c in Held(ops, s);
    }
  }

  // ---------------------------------------------------------------------------
  // Stopping

  /** Stopping forgets every count, consumer and aggregator, and tells the broker nothing. */
  function Stopped(f: Feed): Feed { f.(refs := map[], consumers := map[], aggregators := {}) }

  /** So the counts agree with the broker after a stop exactly when nothing was streaming;
      what was keeps streaming until somebody subscribes to it again and lets it go. */
  lemma StopLeavesBrokerStreaming(ops: seq<Op>, more: seq<Op>, s: Symbol)
    requires forall k :: 0 <= k < |more| ==> more[k].symbol != s
    ensures CountsMatchBroker(Stopped(Run(ops))) <==> Run(ops).broker == {}
    ensures s in ApplyAll(Stopped(Run(ops)), more).broker <==> s in Run(ops).broker
  {
    UntouchedSymbol(Stopped(Run(ops)), more, s);
  }

  lemma {:induction false} UntouchedSymbol(f: Feed, more: seq<Op>, s: Symbol)
    requires forall k :: 0 <= k < |more| ==> more[k].symbol != s
    ensures s in ApplyAll(f, more).broker <==> s in f.broker
  {
    if more != [] {
      UntouchedSymbol(f, Init(more), s);
      assert Last(more).symbol != s;
    }
  }

  // ---------------------------------------------------------------------------
  // The service object

  class Service {
    const defaultInterval: Interval
    var subscriptionRefs: map<Symbol, int>
    var consumers: map<Consumer, seq<Symbol>>
    var aggregators: set<(Symbol, Interval)>
    var broker: set<Symbol>

    function Contents(): Feed
      reads this
    {
      Feed(subscriptionRefs, consumers, aggregators, broker)
    }

    constructor (interval: Interval)
      ensures defaultInterval == interval && Contents() == INITIAL
    {
      defaultInterval := interval;
      subscriptionRefs, consumers, aggregators, broker := map[], map[], {}, {};
    }

    method Subscribe(consumer: Consumer, symbol: Symbol, interval: Option<Interval>, tickCallback: bool)
      modifies this
      ensures var resolved := if interval.Some? then interval.value else defaultInterval;
        Contents() == Apply(old(Contents()), Sub(consumer, symbol, resolved, tickCallback))
    {
      var resolved := if interval.Some? then interval.value else defaultInterval;
      if (symbol, resolved) !in aggregators {
        aggregators := aggregators + {(symbol, resolved)};
      }
      assert aggregators == old(aggregators) + {(symbol, resolved)};
      RegisterConsumer(consumer, symbol, tickCallback);
      hide AddTick;
      subscriptionRefs := subscriptionRefs[symbol := (if symbol in subscriptionRefs then subscriptionRefs[symbol] else 0) + 1];
      if subscriptionRefs[symbol] == 1 {
        broker := broker + {symbol};
      }
    }

    method RegisterConsumer(consumer: Consumer, symbol: Symbol, tickCallback: bool)
      modifies this`consumers
      ensures consumers == AddTick(old(consumers), consumer, symbol, tickCallback)
    {
      if consumer !in consumers {
        consumers := consumers[consumer := []];
      }
      if tickCallback && symbol !in consumers[consumer] {
        consumers := consumers[consumer := consumers[consumer] + [symbol]];
      }
      assert consumers == AddTick(old(consumers), consumer, symbol, tickCallback);
    }

    method RemoveTickCallback(consumer: Consumer, symbol: Symbol)
      modifies this`consumers
      ensures consumers == DropTick(old(consumers), consumer, symbol)
    {
      if consumer in consumers {
        consumers := consumers[consumer := Without(consumers[consumer], symbol)];
        if consumers[consumer] == [] {
          consumers := consumers - {consumer};
        }
      }
      assert consumers == DropTick(old(consumers), consumer, symbol);
    }

    method Unsubscribe(consumer: Consumer, symbol: Symbol, interval: Option<Interval>)
      modifies this
      ensures var resolved := if interval.Some? then interval.value else defaultInterval;
        Contents() == Apply(old(Contents()), Unsub(consumer, symbol, resolved))
    {
      var resolved := if interval.Some? then interval.value else defaultInterval;
      RemoveTickCallback(consumer, symbol);
      hide DropTick;
      // reading the default dictionary creates the entry
      var count := if symbol in subscriptionRefs then subscriptionRefs[symbol] else 0;
      if count > 0 {
        count := count - 1;
      }
      subscriptionRefs := subscriptionRefs[symbol := count];
      if count == 0 {
        subscriptionRefs := subscriptionRefs - {symbol};
        broker := broker - {symbol};
        if (symbol, resolved) in aggregators {
          aggregators := aggregators - {(symbol, resolved)};
        }
        assert subscriptionRefs == old(subscriptionRefs) - {symbol};
        assert aggregators == old(aggregators) - {(symbol, resolved)};
      }
    }

    method Stop()
      modifies this
      ensures Contents() == Stopped(old(Contents()))
    {
      aggregators := {};
      subscriptionRefs := map[];
      consumers := map[];
    }

    method UnsubscribeAll(consumer: Consumer)
      modifies this
      ensures Contents() == ApplyAll(old(Contents()), Releases(old(Contents()), consumer, defaultInterval))
    {
      if consumer !in consumers {
        return;
      }
      var symbols := consumers[consumer];
      ghost var calls := Releases(Contents(), consumer, defaultInterval);
      var k := 0;
      while k < |symbols|
        invariant 0 <= k <= |symbols|
        invariant Contents() == ApplyAll(old(Contents()), calls[..k])
      {
        Unsubscribe(consumer, symbols[k], None);
        k := k + 1;
        assert Init(calls[..k]) == calls[..k - 1];
      }
      assert calls[..k] == calls;
    }
  }

  function ApplyAll(f: Feed, ops: seq<Op>): Feed {
    if ops == [] then f else Apply(ApplyAll(f, Init(ops)), Last(ops))
  }

  lemma {:induction false} ApplyAllContinuesRun(ops: seq<Op>, more: seq<Op>)
    ensures ApplyAll(Run(ops), more) == Run(ops + more)
  {
    hide Apply;
    if more == [] {
      assert ops + more == ops;
    } else {
      ApplyAllContinuesRun(ops, Init(more));
      assert Init(ops + more) == ops + Init(more);
    }
  }
}
