/** Streaming aggregation of ticks into candles, and its agreement with grouping the ticks
    by candle boundary. */
module CandleAggregator {
  import opened MarketData
  import opened Numbers
  import opened Sequences
  import opened TimeUtils

  // ---------------------------------------------------------------------------
  // What a candle of a group of ticks is

  /** The group a tick joins: the latest boundary seen so far, so that a late tick counts
      into the candle in progress. */
  function GroupKey(ticks: seq<Tick>, minutes: int): int
    requires ticks != []
  {
    var boundary := FloorToMinute(Last(ticks).timestamp, minutes);
    if |ticks| == 1 then boundary
    else
      var before := GroupKey(Init(ticks), minutes);
      if boundary > before then boundary else before
  }

  /** The ticks that joined the group `key`, in order of arrival. */
  function Group(ticks: seq<Tick>, minutes: int, key: int): seq<Tick> {
    if ticks == [] then []
    else Group(Init(ticks), minutes, key) + if GroupKey(ticks, minutes) == key then [Last(ticks)] else []
  }

  function Volume(ticks: seq<Tick>): int {
    if ticks == [] then 0 else Volume(Init(ticks)) + Last(ticks).volume
  }

  function CandleVolume(candles: seq<Candle>): real {
    if candles == [] then 0.0 else CandleVolume(Init(candles)) + Last(candles).volume
  }

  /** First, highest, lowest and last price of a group, and its total volume. */
  ghost predicate Summarises(c: Candle, group: seq<Tick>) {
    && group != []
    && c.open == group[0].price
    && c.close == Last(group).price
    && (forall t :: t in group ==> c.low <= t.price <= c.high)
    && (exists t :: t in group && t.price == c.high)
    && (exists t :: t in group && t.price == c.low)
    && c.volume == Volume(group) as real
  }

  // ---------------------------------------------------------------------------
  // The stream

  /** Candles closed so far and the one in progress. */
  datatype Stream = Stream(closed: seq<Candle>, current: Option<Candle>) {
    function All(): seq<Candle> { closed + if current.Some? then [current.value] else [] }
  }

  function StartCandle(t: Tick, boundary: int): Candle {
    Candle(boundary, t.price, t.price, t.price, t.price, t.volume as real)
  }

  function UpdateCandle(c: Candle, t: Tick): Candle {
    c.(high := Max(c.high, t.price), low := Min(c.low, t.price), close := t.price, volume := c.volume + t.volume as real)
  }

  function TickStep(s: Stream, t: Tick, minutes: int): Stream {
    var boundary := FloorToMinute(t.timestamp, minutes);
    match s.current
    case None => Stream(s.closed, Some(StartCandle(t, boundary)))
    case Some(c) =>
      if boundary > c.datetime then Stream(s.closed + [c], Some(StartCandle(t, boundary)))
      else Stream(s.closed, Some(UpdateCandle(c, t)))
  }

  function Aggregate(ticks: seq<Tick>, minutes: int): Stream {
    if ticks == [] then Stream([], None) else TickStep(Aggregate(Init(ticks), minutes), Last(ticks), minutes)
  }

  /** Candles of strictly later and later boundaries. */
  ghost predicate Increasing(candles: seq<Candle>) {
    forall i, j :: 0 <= i < j < |candles| ==> candles[i].datetime < candles[j].datetime
  }

  /** The candles are the summaries of their groups in time order, and the one in
      progress is that of the latest group. */
  ghost predicate MatchesGroups(s: Stream, ticks: seq<Tick>, minutes: int) {
    && (forall c :: c in s.All() ==> Summarises(c, Group(ticks, minutes, c.datetime)))
    && Increasing(s.All())
    && (s.current.Some? <==> ticks != [])
    && (s.current.None? ==> s.closed == [])
    && (ticks != [] ==> s.current.value.datetime == GroupKey(ticks, minutes))
  }

  /** For every tick sequence, late ticks included, the candles are exactly the summaries
      of groups, in time order. */
  lemma {:induction false} CandlesAreGroups(ticks: seq<Tick>, minutes: int)
    ensures MatchesGroups(Aggregate(ticks, minutes), ticks, minutes)
  {
    hide MatchesGroups, FloorToMinute, TickStep;
    if ticks == [] {
      NoTicksNoCandles(minutes);
    } else {
      var s := Aggregate(Init(ticks), minutes);
      CandlesAreGroups(Init(ticks), minutes);
      if s.current.None? || FloorToMinute(Last(ticks).timestamp, minutes) > s.current.value.datetime {
        NewGroup(s, ticks, minutes);
      } else {
        SameGroup(s, ticks, minutes);
      }
    }
  }

  lemma NoTicksNoCandles(minutes: int)
    ensures MatchesGroups(Stream([], None), [], minutes)
  {
  }

  /** And there is one for each group: whichever tick came last, its group has a candle. */
  lemma {:induction false} EveryGroupHasACandle(ticks: seq<Tick>, minutes: int, k: nat)
    requires 0 < k <= |ticks|
    ensures exists c :: c in Aggregate(ticks, minutes).All() && c.datetime == GroupKey(ticks[..k], minutes)
  {
    hide FloorToMinute, TickStep, Group, Summarises;
    if k == |ticks| {
      assert ticks[..k] == ticks;
      CandlesAreGroups(ticks, minutes);
      assert Last(Aggregate(ticks, minutes).All()) == Aggregate(ticks, minutes).current.value;
    } else {
      var before := Init(ticks);
      assert ticks[..k] == before[..k];
      EveryGroupHasACandle(before, minutes, k);
      var c :| c in Aggregate(before, minutes).All() && c.datetime == GroupKey(before[..k], minutes);
      SurvivingCandle(Aggregate(before, minutes), c, Last(ticks), minutes);
    }
  }

  /** A step keeps a candle for every boundary it had one for. */
  lemma SurvivingCandle(s: Stream, c: Candle, t: Tick, minutes: int)
    requires c in s.All()
    ensures exists c' :: c' in TickStep(s, t, minutes).All() && c'.datetime == c.datetime
  {
    var s' := TickStep(s, t, minutes);
    if c in s.closed {
      assert c in s'.All();
    } else {
      assert c == s.current.value;
      var kept := if FloorToMinute(t.timestamp, minutes) > c.datetime then c else s'.current.value;
      assert kept in s'.All() && kept.datetime == c.datetime;
    }
  }

  lemma NewGroup(s: Stream, ticks: seq<Tick>, minutes: int)
    requires ticks != [] && MatchesGroups(s, Init(ticks), minutes)
    requires s.current.Some? ==> FloorToMinute(Last(ticks).timestamp, minutes) > s.current.value.datetime
    ensures MatchesGroups(TickStep(s, Last(ticks), minutes), ticks, minutes)
  {
    hide Summarises, FloorToMinute;
    var before, t, key := Init(ticks), Last(ticks), GroupKey(ticks, minutes);
    var s' := TickStep(s, t, minutes);
    assert s'.closed == s.All();
    LaterGroupIsEmpty(before, minutes, key);
    assert Group(ticks, minutes, key) == [t];
    OneTickSummary(t, key);
    forall d | d in s.All()
      ensures Group(ticks, minutes, d.datetime) == Group(before, minutes, d.datetime) && d.datetime < key
    {
      CurrentIsLatest(s, d);
    }
  }

  lemma CurrentIsLatest(s: Stream, d: Candle)
    requires Increasing(s.All()) && s.current.Some? && d in s.All()
    ensures d.datetime <= s.current.value.datetime
  {
    var i :| 0 <= i < |s.All()| && s.All()[i] == d;
    assert Last(s.All()) == s.current.value;
    assert i < |s.All()| - 1 ==> s.All()[i].datetime < Last(s.All()).datetime;
  }

  lemma OneTickSummary(t: Tick, boundary: int)
    ensures Summarises(StartCandle(t, boundary), [t])
  {
    assert Init([t]) == [];
  }

  lemma {:induction false} LaterGroupIsEmpty(ticks: seq<Tick>, minutes: int, key: int)
    requires ticks != [] ==> GroupKey(ticks, minutes) < key
    ensures Group(ticks, minutes, key) == []
  {
    if ticks != [] {
      LaterGroupIsEmpty(Init(ticks), minutes, key);
    }
  }

  lemma SameGroup(s: Stream, ticks: seq<Tick>, minutes: int)
    requires ticks != [] && s.current.Some? && MatchesGroups(s, Init(ticks), minutes)
    requires FloorToMinute(Last(ticks).timestamp, minutes) <= s.current.value.datetime
    ensures MatchesGroups(TickStep(s, Last(ticks), minutes), ticks, minutes)
  {
    hide Summarises, FloorToMinute, UpdateCandle;
    var before, t := Init(ticks), Last(ticks);
    var c, c' := s.current.value, UpdateCandle(s.current.value, t);
    var key := c.datetime;
    UpdateKeepsTime(c, t);
    assert TickStep(s, t, minutes) == Stream(s.closed, Some(c'));
    assert GroupKey(ticks, minutes) == GroupKey(before, minutes) == key;
    assert c in s.All();
    ExtendSummary(c, Group(before, minutes, key), t);
    forall d | d in s.closed
      ensures d in s.All() && Group(ticks, minutes, d.datetime) == Group(before, minutes, d.datetime)
    {
      ClosedIsEarlier(s, d);
    }
    UpdateKeepsOrder(s.closed, c, c');
  }

  lemma UpdateKeepsTime(c: Candle, t: Tick)
    ensures UpdateCandle(c, t).datetime == c.datetime
  {
  }

  lemma ClosedIsEarlier(s: Stream, d: Candle)
    requires s.current.Some? && Increasing(s.All()) && d in s.closed
    ensures d.datetime < s.current.value.datetime
  {
    var i :| 0 <= i < |s.closed| && s.closed[i] == d;
    assert s.All()[i] == d && s.All()[|s.closed|] == s.current.value;
  }

  lemma UpdateKeepsOrder(closed: seq<Candle>, c: Candle, c': Candle)
    requires Increasing(closed + [c]) && c'.datetime == c.datetime
    ensures Increasing(closed + [c'])
  {
    var before, after := closed + [c], closed + [c'];
    forall i, j | 0 <= i < j < |after|
      ensures after[i].datetime < after[j].datetime
    {
      assert before[i].datetime < before[j].datetime;
    }
  }

  lemma ExtendSummary(c: Candle, group: seq<Tick>, t: Tick)
    requires Summarises(c, group)
    ensures Summarises(UpdateCandle(c, t), group + [t])
  {
    var c', group' := UpdateCandle(c, t), group + [t];
    assert Init(group') == group;
    var hi :| hi in group && hi.price == c.high;
    var lo :| lo in group && lo.price == c.low;
    assert hi in group' && lo in group' && t in group';
    assert exists x :: x in group' && x.price == c'.high by {
      assert (if t.price >= c.high then t else hi).price == c'.high || c'.high == hi.price;
    }
    assert exists x :: x in group' && x.price == c'.low by {
      assert c'.low == t.price || c'.low == lo.price;
    }
  }

  /** When no tick is late, each joins the group of its own boundary. */
  lemma {:induction false} OrderedTicksJoinTheirOwnGroup(ticks: seq<Tick>, minutes: int)
    requires ticks != []
    requires forall i, j :: 0 <= i < j < |ticks| ==> ticks[i].timestamp <= ticks[j].timestamp
    ensures GroupKey(ticks, minutes) == FloorToMinute(Last(ticks).timestamp, minutes)
  {
    if |ticks| > 1 {
      OrderedTicksJoinTheirOwnGroup(Init(ticks), minutes);
      FloorMonotone(Last(Init(ticks)).timestamp, Last(ticks).timestamp, minutes);
    }
  }

  /** The bounds of a bar hold of every candle the stream produces. */
  lemma CandlesAreBars(ticks: seq<Tick>, minutes: int, c: Candle)
    requires c in Aggregate(ticks, minutes).All()
    ensures c.low <= c.open <= c.high && c.low <= c.close <= c.high
  {
    CandlesAreGroups(ticks, minutes);
    var group := Group(ticks, minutes, c.datetime);
    assert group[0] in group && Last(group) in group;
  }

  /** No volume is lost or counted twice. */
  lemma {:induction false} VolumeIsConserved(ticks: seq<Tick>, minutes: int)
    ensures CandleVolume(Aggregate(ticks, minutes).All()) == Volume(ticks) as real
  {
    if ticks != [] {
      VolumeIsConserved(Init(ticks), minutes);
      var s, s' := Aggregate(Init(ticks), minutes), Aggregate(ticks, minutes);
      assert Init(s'.All()) == s'.closed;
      assert s.current.Some? ==> Init(s.All()) == s.closed;
      assert s.current.None? ==> s.All() == s.closed;
    }
  }

  // ---------------------------------------------------------------------------
  // The aggregator object

  type Callback = nat

  function Deliveries(listeners: seq<Callback>, c: Candle): seq<(Callback, Candle)> {
    seq(|listeners|, i requires 0 <= i < |listeners| => (listeners[i], c))
  }

  /** A closed candle goes to each listener once, in the order they were registered. */
  lemma EachListenerIsTold(listeners: seq<Callback>, c: Candle)
    ensures |Deliveries(listeners, c)| == |listeners|
    ensures forall i :: 0 <= i < |listeners| ==> Deliveries(listeners, c)[i] == (listeners[i], c)
  {
  }

  /** The candle that a tick closes, if any. */
  function Closing(current: Option<Candle>, t: Tick, minutes: int): seq<Candle> {
    if current.Some? && FloorToMinute(t.timestamp, minutes) > current.value.datetime then [current.value] else []
  }

  // ---------------------------------------------------------------------------
  // Flushing

  /** What may happen to an aggregator once it has seen a tick. */
  datatype Op = Arrive(tick: Tick) | Flush

  /** The candle in progress, and everything appended to the buffer. */
  datatype Series = Series(current: Option<Candle>, appended: seq<Candle>)

  function Apply(s: Series, op: Op, minutes: int): Series {
    match op
    case Arrive(t) => Series(TickStep(Stream([], s.current), t, minutes).current, s.appended + Closing(s.current, t, minutes))
    case Flush => Series(s.current, s.appended + if s.current.Some? then [s.current.value] else [])
  }

  function ApplyAll(s: Series, ops: seq<Op>, minutes: int): Series {
    if ops == [] then s else Apply(ApplyAll(s, Init(ops), minutes), Last(ops), minutes)
  }

  /** A flush, or a tick of a boundary later than the given one. */
  predicate AppendsAfter(op: Op, datetime: int, minutes: int) {
    op.Flush? || FloorToMinute(op.tick.timestamp, minutes) > datetime
  }

  /** A flush leaves the candle in progress: its candle is appended a second time exactly when
      another flush or a tick of a later boundary follows. */
  lemma {:induction false} FlushedCandleReappearsExactly(s: Series, ops: seq<Op>, minutes: int)
    requires s.current.Some?
    ensures var flushed, d := Apply(s, Flush, minutes), s.current.value.datetime;
      var later := ApplyAll(flushed, ops, minutes);
      && flushed.appended <= later.appended && later.current.Some?
      && ((exists i :: |flushed.appended| <= i < |later.appended| && later.appended[i].datetime == d)
          <==> exists k :: 0 <= k < |ops| && AppendsAfter(ops[k], d, minutes))
      && ((forall k :: 0 <= k < |ops| ==> !AppendsAfter(ops[k], d, minutes)) ==>
            later.appended == flushed.appended && later.current.value.datetime == d)
  {
    hide FloorToMinute;
    if ops != [] {
      var flushed, d := Apply(s, Flush, minutes), s.current.value.datetime;
      var before := Init(ops);
      var middle, later := ApplyAll(flushed, before, minutes), ApplyAll(flushed, ops, minutes);
      FlushedCandleReappearsExactly(s, before, minutes);
      assert forall k :: 0 <= k < |before| ==> before[k] == ops[k];
      assert middle.appended <= later.appended;
      if k :| 0 <= k < |before| && AppendsAfter(before[k], d, minutes) {
        var i :| |flushed.appended| <= i < |middle.appended| && middle.appended[i].datetime == d;
        assert later.appended[i].datetime == d && AppendsAfter(ops[k], d, minutes);
      } else if AppendsAfter(Last(ops), d, minutes) {
        assert later.appended == flushed.appended + [middle.current.value];
        assert later.appended[|flushed.appended|].datetime == d && AppendsAfter(ops[|ops| - 1], d, minutes);
      }
    }
  }

  class Aggregator {
    const intervalMinutes: int
    const bufferSize: nat
    var buffer: seq<Candle>                   // a deque with a maximum length
    var current: Option<Candle>
    var currentBoundary: int
    var listeners: seq<Callback>
    var delivered: seq<(Callback, Candle)>    // callback invocations so far
    ghost var ticks: seq<Tick>
    ghost var seeded: seq<Candle>
    ghost var history: seq<Candle>            // everything ever appended to the buffer
    ghost var regular: bool                   // seeded before the first tick only, and never flushed

    ghost function Contents(): Series
      reads this
    {
      Series(current, history)
    }

    ghost predicate Valid()
      reads this
    {
      && current == Aggregate(ticks, intervalMinutes).current
      && (current.Some? ==> currentBoundary == current.value.datetime)
      && buffer == Suffix(history, bufferSize)
      && (regular ==> history == seeded + Aggregate(ticks, intervalMinutes).closed)
      && Unique(listeners)
    }

    constructor (minutes: int, size: nat)
      ensures Valid() && intervalMinutes == minutes && bufferSize == size
      ensures ticks == [] && history == [] && seeded == [] && delivered == [] && listeners == [] && regular
    {
      intervalMinutes, bufferSize := minutes, size;
      buffer, current, currentBoundary, listeners, delivered := [], None, 0, [], [];
      ticks, seeded, history, regular := [], [], [], true;
    }

    /** Registers a callback once however often it is offered. */
    method OnCandleClose(callback: Callback)
      requires Valid()
      modifies this`listeners
      ensures Valid()
      ensures listeners == if callback in old(listeners) then old(listeners) else old(listeners) + [callback]
    {
      if callback !in listeners {
        listeners := listeners + [callback];
      }
    }

    /** Late ticks, whose boundary is not after the current one, update the candle in
        progress; a later boundary closes it, tells every listener once, and starts the
        next candle from the crossing tick. */
    method ProcessTick(t: Tick)
      requires Valid()
      modifies this`buffer, this`current, this`currentBoundary, this`delivered, this`ticks, this`history
      ensures Valid() && ticks == old(ticks) + [t]
      ensures Contents() == Apply(old(Contents()), Arrive(t), intervalMinutes)
      ensures var closed := Closing(old(current), t, intervalMinutes);
        && history == old(history) + closed
        && delivered == old(delivered) + if closed == [] then [] else Deliveries(listeners, closed[0])
    {
      hide FloorToMinute, Suffix;
      var boundary := FloorToMinute(t.timestamp, intervalMinutes);
      assert Init(ticks + [t]) == ticks && Last(ticks + [t]) == t;
      if current.None? {
        StartNewCandle(t, boundary);
      } else if boundary > currentBoundary {
        var closed := CloseCurrentCandle();
        EmitCandleClose(closed);
        StartNewCandle(t, boundary);
      } else {
        current := Some(UpdateCandle(current.value, t));
      }
      ticks := ticks + [t];
    }

    method StartNewCandle(t: Tick, boundary: int)
      modifies this`current, this`currentBoundary
      ensures current == Some(StartCandle(t, boundary)) && currentBoundary == boundary
    {
      current := Some(StartCandle(t, boundary));
      currentBoundary := boundary;
    }

    method CloseCurrentCandle() returns (closed: Candle)
      requires current.Some? && buffer == Suffix(history, bufferSize)
      modifies this`buffer, this`history
      ensures closed == current.value
      ensures history == old(history) + [closed] && buffer == Suffix(history, bufferSize)
    {
      closed := current.value;
      Append(closed);
    }

    /** `deque.append`: drops the oldest element when the maximum length is exceeded. */
    method Append(c: Candle)
      requires buffer == Suffix(history, bufferSize)
      modifies this`buffer, this`history
      ensures history == old(history) + [c] && buffer == Suffix(history, bufferSize)
    {
      hide Suffix;
      SuffixAppend(history, c, bufferSize);
      buffer := buffer + [c];
      history := history + [c];
      if |buffer| > bufferSize {
        buffer := buffer[1..];
      }
    }

    method EmitCandleClose(closed: Candle)
      modifies this`delivered
      ensures delivered == old(delivered) + Deliveries(listeners, closed)
      ensures |delivered| == |old(delivered)| + |listeners|
      ensures forall i :: 0 <= i < |listeners| ==> delivered[|old(delivered)| + i] == (listeners[i], closed)
    {
      var k := 0;
      while k < |listeners|
        invariant 0 <= k <= |listeners|
        invariant delivered == old(delivered) + Deliveries(listeners[..k], closed)
      {
        delivered := delivered + [(listeners[k], closed)];
        k := k + 1;
        assert listeners[..k][..k - 1] == listeners[..k - 1];
      }
      assert listeners[..k] == listeners;
    }

    /** Appends the partial candle without telling the listeners. It stays in progress. */
    method ForceCloseCurrent() returns (partial: Option<Candle>)
      requires Valid()
      modifies this`buffer, this`history, this`regular
      ensures Valid() && partial == current && delivered == old(delivered)
      ensures Contents() == Apply(old(Contents()), Flush, intervalMinutes)
      ensures history == old(history) + if partial.Some? then [partial.value] else []
    {
      if current.Some? {
        var closed := CloseCurrentCandle();
        regular := false;
        partial := Some(closed);
      } else {
        partial := None;
      }
    }

    method SeedFromHistory(candles: seq<Candle>)
      requires Valid()
      modifies this`buffer, this`history, this`seeded, this`regular
      ensures Valid()
      ensures history == old(history) + candles && seeded == old(seeded) + candles
      ensures regular <==> old(regular) && (ticks == [] || candles == [])
    {
      hide Suffix, TickStep, Unique;
      var k := 0;
      while k < |candles|
        invariant 0 <= k <= |candles|
        invariant history == old(history) + candles[..k] && buffer == Suffix(history, bufferSize)
        invariant ticks == old(ticks) && regular == old(regular) && seeded == old(seeded)
      {
        Append(candles[k]);
        assert candles[..k + 1] == candles[..k] + [candles[k]];
        k := k + 1;
      }
      assert candles[..k] == candles;
      regular := regular && (ticks == [] || candles == []);
      seeded := seeded + candles;
    }
  }
}
