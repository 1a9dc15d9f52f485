/** The fixed-window rate limiter. A call increments the counter and reads its remaining
    lifetime in one transaction; a caller that finds none set then sets it, at some later
    moment at which other calls may have come and gone. Time is in seconds. */
module RateLimiter {
  import opened Numbers
  import opened Sequences

  /** The counter while the key exists, the time it was created and its expiry once set. */
  datatype Counter = Counter(count: nat, created: int, expiry: Option<int>)

  datatype Event =
    | Call(time: int)          // INCR and TTL, atomically
    | SetExpiry(time: int)     // the EXPIRE of a caller that saw no lifetime

  datatype State = State(
    now: int,
    counter: Option<Counter>,
    waiting: nat,              // callers that saw no lifetime and have not yet set one
    windows: nat               // how many times the key has been created
  )

  const INITIAL := State(0, None, 0, 0)

  /** One answered call: when, in which life of the key, and with what count. */
  datatype Record = Record(time: int, window: nat, created: int, count: nat)

  /** The key at a given time: gone once its expiry has passed. */
  function Alive(c: Option<Counter>, time: int): Option<Counter> {
    if c.Some? && c.value.expiry.Some? && c.value.expiry.value <= time then None else c
  }

  function Step(s: State, e: Event, windowSeconds: int): State {
    match e
    case Call(time) =>
      (match Alive(s.counter, time)
       case None => State(time, Some(Counter(1, time, None)), s.waiting + 1, s.windows + 1)
       case Some(c) =>
         State(time, Some(c.(count := c.count + 1)), s.waiting + if c.expiry.None? then 1 else 0, s.windows))
    case SetExpiry(time) =>
      if s.waiting == 0 then s
      else
        var c := Alive(s.counter, time);
        State(time, if c.Some? then Some(c.value.(expiry := Some(time + windowSeconds))) else None,
              s.waiting - 1, s.windows)
  }

  function Run(events: seq<Event>, windowSeconds: int): State {
    if events == [] then INITIAL else Step(Run(Init(events), windowSeconds), Last(events), windowSeconds)
  }

  /** What the calls of a run were answered. */
  function Records(events: seq<Event>, windowSeconds: int): seq<Record> {
    if events == [] then []
    else
      var before := Records(Init(events), windowSeconds);
      if Last(events).SetExpiry? then before
      else
        var s := Run(events, windowSeconds);
        if s.counter.None? then before
        else before + [Record(s.now, s.windows, s.counter.value.created, s.counter.value.count)]
  }

  /** Time does not run backwards. */
  ghost predicate Timed(events: seq<Event>) {
    (forall i :: 0 <= i < |events| ==> events[i].time >= 0)
    && forall i, j :: 0 <= i < j < |events| ==> events[i].time <= events[j].time
  }

  predicate Allowed(r: Record, maxCalls: int) { r.count <= maxCalls }

  // ---------------------------------------------------------------------------
  // One window

  function CallsIn(records: seq<Record>, window: nat): nat {
    if records == [] then 0
    else CallsIn(Init(records), window) + if Last(records).window == window then 1 else 0
  }

  function AllowedIn(records: seq<Record>, window: nat, maxCalls: int): nat {
    if records == [] then 0
    else
      AllowedIn(Init(records), window, maxCalls)
      + if Last(records).window == window && Allowed(Last(records), maxCalls) then 1 else 0
  }

  function Capacity(maxCalls: int): nat { if maxCalls > 0 then maxCalls else 0 }

  lemma {:induction false} NoCallsInUnopenedWindow(events: seq<Event>, w: int, window: nat)
    requires window > Run(events, w).windows
    ensures CallsIn(Records(events, w), window) == 0
  {
    if events != [] {
      NoCallsInUnopenedWindow(Init(events), w, window);
    }
  }

  lemma {:induction false} CounterCountsItsWindow(events: seq<Event>, w: int)
    ensures var s := Run(events, w);
      s.counter.Some? ==> s.counter.value.count == CallsIn(Records(events, w), s.windows)
  {
    if events != [] {
      CounterCountsItsWindow(Init(events), w);
      NoCallsInUnopenedWindow(Init(events), w, Run(Init(events), w).windows + 1);
    }
  }

  /** Between the creation of the key and its expiry exactly the first `maxCalls` calls are
      allowed, however the expiry updates of overlapping calls are interleaved. */
  lemma {:induction false} WindowAllowsItsCapacity(events: seq<Event>, w: int, window: nat, maxCalls: int)
    ensures var records := Records(events, w);
      AllowedIn(records, window, maxCalls)
      == if CallsIn(records, window) <= Capacity(maxCalls) then CallsIn(records, window) else Capacity(maxCalls)
  {
    if events != [] {
      WindowAllowsItsCapacity(Init(events), w, window, maxCalls);
      CounterCountsItsWindow(events, w);
    }
  }

  // ---------------------------------------------------------------------------
  // Any interval

  /** Windows follow each other: a call comes before the next window opens, and a window
      stays open for at least its length. */
  ghost predicate Spaced(records: seq<Record>, w: int) {
    forall i, j :: 0 <= i <= j < |records| ==> Follows(records[i], records[j], w)
  }

  /** What the state knows about the calls of the window in progress. */
  ghost predicate CurrentWindow(s: State, records: seq<Record>, w: int) {
    && (s.windows == 0 <==> records == [])
    && (s.windows == 0 ==> s.counter.None?)
    && (records != [] ==> Last(records).window == s.windows)
    && (forall r :: r in records ==> r.time <= s.now)
    && (forall r :: r in records && r.window == s.windows ==>
          match s.counter
          case None => r.time < s.now && r.created + w <= s.now
          case Some(c) =>
            && r.created == c.created
            && (c.expiry.Some? ==> r.time < c.expiry.value && c.created + w <= c.expiry.value))
  }

  lemma {:induction false} RunIsSpaced(events: seq<Event>, w: int)
    requires Timed(events) && w > 0
    ensures Spaced(Records(events, w), w) && CurrentWindow(Run(events, w), Records(events, w), w)
    ensures Run(events, w).now <= if events == [] then 0 else Last(events).time
  {
    if events != [] {
      RunIsSpaced(Init(events), w);
      var s, s', before := Run(Init(events), w), Run(events, w), Records(Init(events), w);
      assert s.now <= Last(events).time;
      if Last(events).Call? {
        assert Records(events, w) == before + [Last(Records(events, w))];
        OneMoreCall(s, before, Last(events).time, w);
      }
    }
  }

  lemma OneMoreCall(s: State, before: seq<Record>, time: int, w: int)
    requires Spaced(before, w) && CurrentWindow(s, before, w) && s.now <= time && w > 0
    ensures var s' := Step(s, Call(time), w);
      s'.counter.Some? &&
      var records := before + [Record(time, s'.windows, s'.counter.value.created, s'.counter.value.count)];
      Spaced(records, w) && CurrentWindow(s', records, w)
  {
    var s' := Step(s, Call(time), w);
    var r := Record(time, s'.windows, s'.counter.value.created, s'.counter.value.count);
    forall i | 0 <= i < |before|
      ensures Follows(before[i], r, w)
    {
      FollowsAll(s, before, time, w, i);
    }
    SpacedAppend(before, r, w);
  }

  /** The order in which two records may stand. */
  ghost predicate Follows(a: Record, b: Record, w: int) {
    && a.window <= b.window
    && b.created <= b.time
    && (a.window == b.window ==> a.created == b.created)
    && (a.window < b.window ==> a.time < b.created && a.created + w <= b.created)
    && (a.window + 1 < b.window ==> a.time + w < b.created)
  }

  lemma SpacedAppend(before: seq<Record>, r: Record, w: int)
    requires Spaced(before, w) && r.created <= r.time
    requires forall i :: 0 <= i < |before| ==> Follows(before[i], r, w)
    ensures Spaced(before + [r], w)
  {
  }

  lemma FollowsAll(s: State, before: seq<Record>, time: int, w: int, i: nat)
    requires Spaced(before, w) && CurrentWindow(s, before, w) && s.now <= time && w > 0 && i < |before|
    ensures var s' := Step(s, Call(time), w);
      Follows(before[i], Record(time, s'.windows, s'.counter.value.created, s'.counter.value.count), w)
  {
    var last := before[|before| - 1];
    assert before[i] in before && last in before && last == Last(before);
    assert before[i].window <= last.window;
  }

  function AllowedBetween(records: seq<Record>, from: int, to: int, maxCalls: int): nat {
    if records == [] then 0
    else
      AllowedBetween(Init(records), from, to, maxCalls)
      + if from <= Last(records).time <= to && Allowed(Last(records), maxCalls) then 1 else 0
  }

  /** Every call in the interval is in window `v` or the next. */
  ghost predicate OnlyWindows(records: seq<Record>, from: int, to: int, v: nat) {
    forall r :: r in records && from <= r.time <= to ==> r.window == v || r.window == v + 1
  }

  /** Window `v` is the first that the calls in the interval meet, if there are any. */
  ghost predicate IsFirstWindow(records: seq<Record>, from: int, to: int, v: nat) {
    && ((forall r :: r in records ==> !(from <= r.time <= to))
        || exists r :: r in records && from <= r.time <= to && r.window == v)
    && forall r :: r in records && from <= r.time <= to ==> v <= r.window
  }

  /** The first call in the interval decides the two windows the interval can meet. */
  lemma {:induction false} FirstWindow(records: seq<Record>, w: int, from: int, to: int) returns (v: nat)
    requires Spaced(records, w)
    ensures IsFirstWindow(records, from, to, v)
  {
    if records == [] {
      v := 0;
    } else {
      v := FirstWindow(Init(records), w, from, to);
      var last := Last(records);
      assert records == Init(records) + [last];
      forall r | r in Init(records)
        ensures r.window <= last.window
      {
        var i :| 0 <= i < |records| - 1 && records[i] == r;
        assert Follows(records[i], last, w);
      }
      if from <= last.time <= to {
        if forall r :: r in Init(records) ==> !(from <= r.time <= to) {
          v := last.window;
        }
      }
    }
  }

  lemma IntervalMeetsTwoWindows(records: seq<Record>, w: int, from: int, to: int, v: nat)
    requires Spaced(records, w) && to <= from + w
    requires IsFirstWindow(records, from, to, v)
    ensures OnlyWindows(records, from, to, v)
  {
    forall r | r in records && from <= r.time <= to
      ensures r.window == v || r.window == v + 1
    {
      var x :| x in records && from <= x.time <= to && x.window == v;
      var i :| 0 <= i < |records| && records[i] == x;
      var j :| 0 <= j < |records| && records[j] == r;
      if i <= j {
        assert Follows(records[i], records[j], w);
      } else {
        assert Follows(records[j], records[i], w);
      }
    }
  }

  /** Allowed calls of one window within an interval. */
  function AllowedWithin(records: seq<Record>, from: int, to: int, window: nat, maxCalls: int): nat {
    if records == [] then 0
    else
      var r := Last(records);
      AllowedWithin(Init(records), from, to, window, maxCalls)
      + if r.window == window && from <= r.time <= to && Allowed(r, maxCalls) then 1 else 0
  }

  lemma {:induction false} WithinCounts(records: seq<Record>, from: int, to: int, v: nat, maxCalls: int)
    ensures AllowedWithin(records, from, to, v, maxCalls) <= AllowedIn(records, v, maxCalls)
    ensures AllowedWithin(records, from, to, v, maxCalls) + AllowedWithin(records, from, to, v + 1, maxCalls)
            <= AllowedBetween(records, from, to, maxCalls)
    ensures AllowedWithin(records, from, to, v, maxCalls) > 0 ==> CalledIn(records, from, to, v)
  {
    if records != [] {
      WithinCounts(Init(records), from, to, v, maxCalls);
      assert forall r :: r in Init(records) ==> r in records;
      if CalledIn(Init(records), from, to, v) {
        var i :| 0 <= i < |records| - 1 && IsCallIn(Init(records)[i], from, to, v);
        assert IsCallIn(records[i], from, to, v);
      }
      assert IsCallIn(Last(records), from, to, v) ==> IsCallIn(records[|records| - 1], from, to, v);
    }
  }

  predicate IsCallIn(r: Record, from: int, to: int, window: nat) { r.window == window && from <= r.time <= to }

  ghost predicate CalledIn(records: seq<Record>, from: int, to: int, window: nat) {
    exists i :: 0 <= i < |records| && IsCallIn(records[i], from, to, window)
  }

  lemma {:induction false} TwoWindowsExactly(records: seq<Record>, from: int, to: int, maxCalls: int, v: nat)
    requires OnlyWindows(records, from, to, v)
    ensures AllowedBetween(records, from, to, maxCalls)
            == AllowedWithin(records, from, to, v, maxCalls) + AllowedWithin(records, from, to, v + 1, maxCalls)
  {
    if records != [] {
      TwoWindowsExactly(Init(records), from, to, maxCalls, v);
    }
  }

  /** What an interval no longer than a window allows is what it meets of two consecutive
      windows. */
  lemma IntervalIsTwoWindows(events: seq<Event>, w: int, from: int, to: int, maxCalls: int) returns (v: nat)
    requires Timed(events) && w > 0 && to <= from + w
    ensures var records := Records(events, w);
      && AllowedBetween(records, from, to, maxCalls)
         == AllowedWithin(records, from, to, v, maxCalls) + AllowedWithin(records, from, to, v + 1, maxCalls)
      && AllowedWithin(records, from, to, v, maxCalls) <= Capacity(maxCalls)
      && AllowedWithin(records, from, to, v + 1, maxCalls) <= Capacity(maxCalls)
  {
    hide *;
    var records := Records(events, w);
    RunIsSpaced(events, w);
    v := FirstWindow(records, w, from, to);
    IntervalMeetsTwoWindows(records, w, from, to, v);
    TwoWindowsExactly(records, from, to, maxCalls, v);
    WithinCounts(records, from, to, v, maxCalls);
    WithinCounts(records, from, to, v + 1, maxCalls);
    WindowAllowsItsCapacity(events, w, v, maxCalls);
    WindowAllowsItsCapacity(events, w, v + 1, maxCalls);
  }

  /** In any interval one window long, wherever it starts, at most twice the capacity is
      allowed. */
  lemma AnyIntervalAllowsTwiceCapacity(events: seq<Event>, w: int, from: int, maxCalls: int)
    requires Timed(events) && w > 0
    ensures AllowedBetween(Records(events, w), from, from + w, maxCalls) <= 2 * Capacity(maxCalls)
  {
    hide *;
    var v := IntervalIsTwoWindows(events, w, from, from + w, maxCalls);
  }

  /** Calls of one window up to and including a time. */
  function CallsBy(records: seq<Record>, window: nat, time: int): nat {
    if records == [] then 0
    else CallsBy(Init(records), window, time) + if Last(records).window == window && Last(records).time <= time then 1 else 0
  }

  /** The part of a window's capacity that its calls use up between two times. */
  function Share(records: seq<Record>, from: int, to: int, window: nat, maxCalls: int): int {
    MinInt(CallsBy(records, window, to), Capacity(maxCalls)) - MinInt(CallsBy(records, window, from - 1), Capacity(maxCalls))
  }

  lemma {:induction false} CallsByNow(records: seq<Record>, window: nat, time: int)
    requires forall r :: r in records ==> r.time <= time
    ensures CallsBy(records, window, time) == CallsIn(records, window)
  {
    if records != [] {
      assert forall r :: r in Init(records) ==> r in records;
      CallsByNow(Init(records), window, time);
    }
  }

  /** What a window allows within an interval, in terms of when it was called. */
  lemma {:induction false} WithinIsShare(events: seq<Event>, w: int, from: int, to: int, window: nat, maxCalls: int)
    requires Timed(events) && w > 0 && from <= to
    ensures AllowedWithin(Records(events, w), from, to, window, maxCalls)
            == Share(Records(events, w), from, to, window, maxCalls)
  {
    hide Timed, Spaced, CurrentWindow, Run;
    if events != [] {
      TimedInit(events);
      WithinIsShare(Init(events), w, from, to, window, maxCalls);
      if Last(events).Call? {
        var before, s := Records(Init(events), w), Run(events, w);
        CallIsRecorded(events, w);
        RunIsSpaced(events, w);
        CounterCountsItsWindow(events, w);
        LatestIsLast(s, Records(events, w), w);
        assert forall x :: x in before ==> x in Records(events, w);
        OneCallShares(before, Last(Records(events, w)), from, to, window, maxCalls);
      }
    }
  }

  lemma CallIsRecorded(events: seq<Event>, w: int)
    requires events != [] && Last(events).Call?
    ensures var s := Run(events, w);
      && s.counter.Some?
      && Records(events, w)
         == Records(Init(events), w) + [Record(s.now, s.windows, s.counter.value.created, s.counter.value.count)]
  {
  }

  lemma TimedInit(events: seq<Event>)
    requires events != [] && Timed(events)
    ensures Timed(Init(events))
  {
  }

  lemma LatestIsLast(s: State, records: seq<Record>, w: int)
    requires CurrentWindow(s, records, w) && records != []
    ensures forall r :: r in records ==> r.time <= s.now
  {
  }

  lemma OneCallShares(before: seq<Record>, r: Record, from: int, to: int, window: nat, maxCalls: int)
    requires forall x :: x in before ==> x.time <= r.time
    requires r.count == CallsIn(before + [r], r.window) && from <= to
    requires AllowedWithin(before, from, to, window, maxCalls) == Share(before, from, to, window, maxCalls)
    ensures AllowedWithin(before + [r], from, to, window, maxCalls) == Share(before + [r], from, to, window, maxCalls)
  {
    assert Init(before + [r]) == before;
    if r.window == window {
      if r.time <= to {
        CallsByNow(before, window, to);
      }
      if r.time <= from - 1 {
        CallsByNow(before, window, from - 1);
      }
    }
  }

  /** The burst: a window and the next whose calls between them use up more than the capacity
      of one within the interval, the second opening inside it after a call of the first. */
  ghost predicate BurstAt(records: seq<Record>, from: int, to: int, maxCalls: int, v: nat) {
    && Share(records, from, to, v, maxCalls) + Share(records, from, to, v + 1, maxCalls) > Capacity(maxCalls)
    && exists i, j :: 0 <= i < |records| && 0 <= j < |records| && OpensBetween(records[i], records[j], from, to, v)
  }

  predicate OpensBetween(a: Record, b: Record, from: int, to: int, v: nat) {
    a.window == v && b.window == v + 1 && from <= a.time < b.created <= b.time <= to
  }

  /** An interval exceeds the capacity exactly when there is such a burst in it. */
  lemma CapacityExceededExactlyByBurst(events: seq<Event>, w: int, from: int, to: int, maxCalls: int)
    requires Timed(events) && w > 0 && to <= from + w
    ensures AllowedBetween(Records(events, w), from, to, maxCalls) > Capacity(maxCalls)
            <==> exists v: nat :: BurstAt(Records(events, w), from, to, maxCalls, v)
  {
    hide Records, Run, AllowedBetween, AllowedIn, AllowedWithin, Capacity, Timed, CurrentWindow, CalledIn, Share;
    var records := Records(events, w);
    if from <= to {
      if v: nat :| BurstAt(records, from, to, maxCalls, v) {
        WithinCounts(records, from, to, v, maxCalls);
        WithinIsShare(events, w, from, to, v, maxCalls);
        WithinIsShare(events, w, from, to, v + 1, maxCalls);
      }
      var v := IntervalIsTwoWindows(events, w, from, to, maxCalls);
      if AllowedBetween(records, from, to, maxCalls) > Capacity(maxCalls) {
        WithinCounts(records, from, to, v, maxCalls);
        WithinCounts(records, from, to, v + 1, maxCalls);
        WithinIsShare(events, w, from, to, v, maxCalls);
        WithinIsShare(events, w, from, to, v + 1, maxCalls);
        RunIsSpaced(events, w);
        CallsOfBoth(records, w, from, to, v);
        assert BurstAt(records, from, to, maxCalls, v);
      }
    } else {
      NothingBetween(records, from, to, maxCalls);
    }
  }

  lemma {:induction false} NothingBetween(records: seq<Record>, from: int, to: int, maxCalls: int)
    requires to < from
    ensures AllowedBetween(records, from, to, maxCalls) == 0
  {
    if records != [] {
      NothingBetween(Init(records), from, to, maxCalls);
    }
  }

  lemma CallsOfBoth(records: seq<Record>, w: int, from: int, to: int, v: nat)
    requires Spaced(records, w) && CalledIn(records, from, to, v) && CalledIn(records, from, to, v + 1)
    ensures exists i, j :: 0 <= i < |records| && 0 <= j < |records| && OpensBetween(records[i], records[j], from, to, v)
                           && records[i].created + w <= records[j].created
  {
    var i :| 0 <= i < |records| && IsCallIn(records[i], from, to, v);
    var j :| 0 <= j < |records| && IsCallIn(records[j], from, to, v + 1);
    assert Follows(records[j], records[j], w);
    LaterWindowsFollow(records, w, j, i);
    assert Follows(records[i], records[j], w);
    assert OpensBetween(records[i], records[j], from, to, v);
  }

  lemma LaterWindowsFollow(records: seq<Record>, w: int, j: nat, i: nat)
    requires Spaced(records, w) && j < |records| && i < |records|
    ensures j <= i ==> records[j].window <= records[i].window
  {
    if j <= i {
      assert Follows(records[j], records[i], w);
    }
  }

  // ---------------------------------------------------------------------------
  // Half-open intervals

  /** Every window has a first call, at its creation, which is always counted one. */
  ghost predicate HasFirst(records: seq<Record>, window: nat, created: int) {
    exists i :: 0 <= i < |records| && IsFirst(records[i], window, created)
  }

  predicate IsFirst(r: Record, window: nat, created: int) { r.window == window && r.time == created && r.count == 1 }

  ghost predicate AllHaveFirst(records: seq<Record>) {
    forall k :: 0 <= k < |records| ==> HasFirst(records, records[k].window, records[k].created)
  }

  lemma {:induction false} EveryWindowHasAFirstCall(events: seq<Event>, w: int)
    ensures var s, records := Run(events, w), Records(events, w);
      && AllHaveFirst(records)
      && (s.counter.Some? ==> HasFirst(records, s.windows, s.counter.value.created))
  {
    hide AllHaveFirst, HasFirst;
    if events == [] {
      NoRecordsHaveFirst();
    } else {
      EveryWindowHasAFirstCall(Init(events), w);
      if Last(events).Call? {
        var s := Run(events, w);
        var r := Record(s.now, s.windows, s.counter.value.created, s.counter.value.count);
        assert Records(events, w) == Records(Init(events), w) + [r];
        FirstsAppend(Records(Init(events), w), r);
      }
    }
  }

  lemma NoRecordsHaveFirst()
    ensures AllHaveFirst([])
  {
  }

  lemma FirstsAppend(before: seq<Record>, r: Record)
    requires AllHaveFirst(before) && (IsFirst(r, r.window, r.created) || HasFirst(before, r.window, r.created))
    ensures AllHaveFirst(before + [r]) && HasFirst(before + [r], r.window, r.created)
  {
    hide HasFirst, IsFirst;
    var records := before + [r];
    FirstStays(before, r, r.window, r.created);
    forall k | 0 <= k < |records|
      ensures HasFirst(records, records[k].window, records[k].created)
    {
      if k < |before| {
        FirstStays(before, r, before[k].window, before[k].created);
      }
    }
  }

  lemma FirstStays(before: seq<Record>, r: Record, window: nat, created: int)
    ensures HasFirst(before, window, created) || IsFirst(r, window, created) ==> HasFirst(before + [r], window, created)
  {
    hide IsFirst;
    var records := before + [r];
    if i :| 0 <= i < |before| && IsFirst(before[i], window, created) {
      assert IsFirst(records[i], window, created);
    } else if IsFirst(r, window, created) {
      assert IsFirst(records[|before|], window, created);
    }
  }

  lemma {:induction false} FirstOutside(records: seq<Record>, from: int, to: int, v: nat, created: int, maxCalls: int)
    requires HasFirst(records, v, created) && created < from && maxCalls >= 1
    ensures AllowedWithin(records, from, to, v, maxCalls) < AllowedIn(records, v, maxCalls)
  {
    var i :| 0 <= i < |records| && IsFirst(records[i], v, created);
    if i == |records| - 1 {
      WithinCounts(Init(records), from, to, v, maxCalls);
    } else {
      assert IsFirst(Init(records)[i], v, created);
      FirstOutside(Init(records), from, to, v, created, maxCalls);
    }
  }

  /** Without its end point, an interval of one window length allows one call less: if it
      meets two windows it does not hold the call that opened the first. */
  lemma HalfOpenIntervalAllowsOneLess(events: seq<Event>, w: int, from: int, maxCalls: int)
    requires Timed(events) && w > 0 && maxCalls >= 1
    ensures AllowedBetween(Records(events, w), from, from + w - 1, maxCalls) <= 2 * maxCalls - 1
  {
    hide Records, Run, AllowedBetween, AllowedIn, AllowedWithin, Timed, CalledIn;
    var records, to := Records(events, w), from + w - 1;
    var v := IntervalIsTwoWindows(events, w, from, to, maxCalls);
    WithinCounts(records, from, to, v, maxCalls);
    WithinCounts(records, from, to, v + 1, maxCalls);
    if CalledIn(records, from, to, v) && CalledIn(records, from, to, v + 1) {
      OpeningCallIsOutside(events, w, from, to, v, maxCalls);
      WindowAllowsItsCapacity(events, w, v, maxCalls);
    }
  }

  lemma OpeningCallIsOutside(events: seq<Event>, w: int, from: int, to: int, v: nat, maxCalls: int)
    requires Timed(events) && w > 0 && to < from + w && maxCalls >= 1
    requires CalledIn(Records(events, w), from, to, v) && CalledIn(Records(events, w), from, to, v + 1)
    ensures AllowedWithin(Records(events, w), from, to, v, maxCalls) < AllowedIn(Records(events, w), v, maxCalls)
  {
    hide Records, Run, AllowedIn, AllowedWithin, Timed, CurrentWindow, CalledIn, HasFirst, Spaced;
    var records := Records(events, w);
    RunIsSpaced(events, w);
    CallsOfBoth(records, w, from, to, v);
    var i, j :| 0 <= i < |records| && 0 <= j < |records| && OpensBetween(records[i], records[j], from, to, v)
                && records[i].created + w <= records[j].created;
    EveryWindowHasAFirstCall(events, w);
    FirstOutside(records, from, to, v, records[i].created, maxCalls);
  }

  // ---------------------------------------------------------------------------
  // The bounds are reached

  function Calls(time: int, n: nat): seq<Event> { seq(n, _ => Call(time)) }

  /** One call that opens a window at 0, the rest of the capacity at `t`, and the whole
      capacity again as soon as the window has expired. */
  function BurstRun(maxCalls: nat, t: int, w: int): seq<Event>
    requires maxCalls >= 1
  {
    [Call(0), SetExpiry(0)] + Calls(t, maxCalls - 1) + Calls(w, maxCalls)
  }

  /** Twice the capacity within one window length, and one less without its end point: both
      bounds are reached, for every capacity and every window (of two seconds or more). */
  lemma BoundsAreReached(maxCalls: nat, t: int, w: int)
    requires maxCalls >= 1 && 0 <= t < w
    ensures Timed(BurstRun(maxCalls, t, w))
    ensures AllowedBetween(Records(BurstRun(maxCalls, t, w), w), 0, w, maxCalls) == 2 * maxCalls
    ensures t >= 1 ==> AllowedBetween(Records(BurstRun(maxCalls, t, w), w), 1, w, maxCalls) == 2 * maxCalls - 1
  {
    hide Records, Run, AllowedBetween;
    BurstAllows(maxCalls, t, w, 0);
    if t >= 1 {
      BurstAllows(maxCalls, t, w, 1);
    }
  }

  lemma BurstAllows(maxCalls: nat, t: int, w: int, from: int)
    requires maxCalls >= 1 && 0 <= t < w && from <= t
    ensures AllowedBetween(Records(BurstRun(maxCalls, t, w), w), from, w, maxCalls)
            == 2 * maxCalls - if from <= 0 then 0 else 1
  {
    hide Records, Run, AllowedBetween, Calls;
    var opening := [Call(0), SetExpiry(0)];
    var filled := opening + Calls(t, maxCalls - 1);
    OpeningCall(w, from, maxCalls);
    MoreCalls(opening, t, maxCalls - 1, w, from, w, maxCalls);
    NextWindow(filled, w, from, maxCalls);
    var reopened := filled + [Call(w)];
    MoreCalls(reopened, w, maxCalls - 1, w, from, w, maxCalls);
    assert BurstRun(maxCalls, t, w) == reopened + Calls(w, maxCalls - 1) by { OneAndMoreCalls(w, maxCalls - 1); }
  }

  lemma OneAndMoreCalls(time: int, n: nat)
    ensures Calls(time, n + 1) == [Call(time)] + Calls(time, n)
    ensures Calls(time, n + 1) == Calls(time, n) + [Call(time)]
  {
  }

  lemma OpeningCall(w: int, from: int, maxCalls: int)
    requires w > 0 && maxCalls >= 1
    ensures Run([Call(0), SetExpiry(0)], w).counter == Some(Counter(1, 0, Some(w)))
    ensures AllowedBetween(Records([Call(0), SetExpiry(0)], w), from, w, maxCalls) == if from <= 0 then 1 else 0
  {
    FirstCall(w);
    OneRecord(Record(0, 1, 0, 1), from, w, maxCalls);
    hide Records, AllowedBetween;
    assert Init([Call(0), SetExpiry(0)]) == [Call(0)];
    SetKeepsRecords([Call(0)], 0, w);
    assert [Call(0)] + [SetExpiry(0)] == [Call(0), SetExpiry(0)];
  }

  lemma FirstCall(w: int)
    ensures Run([Call(0)], w) == State(0, Some(Counter(1, 0, None)), 1, 1)
    ensures Records([Call(0)], w) == [Record(0, 1, 0, 1)]
  {
    assert Init([Call(0)]) == [];
  }

  lemma OneRecord(r: Record, from: int, to: int, maxCalls: int)
    ensures AllowedBetween([r], from, to, maxCalls) == if from <= r.time <= to && Allowed(r, maxCalls) then 1 else 0
  {
    assert Init([r]) == [];
  }

  lemma SetKeepsRecords(events: seq<Event>, time: int, w: int)
    ensures Records(events + [SetExpiry(time)], w) == Records(events, w)
  {
    assert Init(events + [SetExpiry(time)]) == events;
  }

  /** Further calls of a window that has room for them are all allowed. */
  lemma {:induction false} MoreCalls(events: seq<Event>, time: int, n: nat, w: int, from: int, to: int, maxCalls: int)
    requires var c := Run(events, w).counter;
      c.Some? && Alive(c, time) == c && c.value.count + n <= maxCalls && from <= time <= to
    ensures var c, c' := Run(events, w).counter.value, Run(events + Calls(time, n), w).counter;
      c' == Some(c.(count := c.count + n))
    ensures AllowedBetween(Records(events + Calls(time, n), w), from, to, maxCalls)
            == AllowedBetween(Records(events, w), from, to, maxCalls) + n
  {
    hide Records, Run, AllowedBetween, Calls;
    if n == 0 {
      NoCalls(time);
      assert events + Calls(time, 0) == events;
    } else {
      MoreCalls(events, time, n - 1, w, from, to, maxCalls);
      OneAndMoreCalls(time, n - 1);
      assert events + Calls(time, n) == events + Calls(time, n - 1) + [Call(time)];
      OneCallMore(events + Calls(time, n - 1), time, w, from, to, maxCalls);
    }
  }

  lemma NoCalls(time: int)
    ensures Calls(time, 0) == []
  {
  }

  lemma OneCallMore(events: seq<Event>, time: int, w: int, from: int, to: int, maxCalls: int)
    requires from <= time <= to
    ensures var after := Run(events + [Call(time)], w);
      && after == Step(Run(events, w), Call(time), w) && after.counter.Some?
      && AllowedBetween(Records(events + [Call(time)], w), from, to, maxCalls)
         == AllowedBetween(Records(events, w), from, to, maxCalls) + if after.counter.value.count <= maxCalls then 1 else 0
  {
    assert Init(events + [Call(time)]) == events;
    var s, records := Run(events + [Call(time)], w), Records(events, w);
    assert Records(events + [Call(time)], w) == records + [Record(time, s.windows, s.counter.value.created, s.counter.value.count)];
    assert Init(Records(events + [Call(time)], w)) == records;
  }

  lemma NextWindow(events: seq<Event>, w: int, from: int, maxCalls: int)
    requires var c := Run(events, w).counter; c.Some? && c.value.expiry == Some(w)
    requires from <= w && maxCalls >= 1
    ensures Run(events + [Call(w)], w).counter == Some(Counter(1, w, None))
    ensures AllowedBetween(Records(events + [Call(w)], w), from, w, maxCalls)
            == AllowedBetween(Records(events, w), from, w, maxCalls) + 1
  {
    OneCallMore(events, w, w, from, w, maxCalls);
  }

  /** A window must have a positive length: otherwise the key is gone as soon as its
      expiry is set, and every uninterrupted call is the first of a new window. */
  lemma WindowLastsExactlyWhenPositive(s: State, time: int, w: int)
    requires Alive(s.counter, time).None?
    ensures var s' := Step(Step(s, Call(time), w), SetExpiry(time), w);
      (forall later :: later >= time ==> Alive(s'.counter, later).None?) <==> w <= 0
  {
    var s' := Step(Step(s, Call(time), w), SetExpiry(time), w);
    assert w > 0 ==> Alive(s'.counter, time).Some?;
  }

  // ---------------------------------------------------------------------------
  // The call itself

  class Limiter {
    var now: int
    var counter: Option<Counter>
    var waiting: nat
    var windows: nat

    function Contents(): State
      reads this
    {
      State(now, counter, waiting, windows)
    }

    constructor ()
      ensures Contents() == INITIAL
    {
      now, counter, waiting, windows := 0, None, 0, 0;
    }

    /** The transaction: returns the new count and whether a lifetime was missing. */
    method IncrementAndReadTtl(time: int) returns (current: nat, ttlMissing: bool)
      modifies this
      ensures Contents() == Step(old(Contents()), Call(time), 0)
      ensures counter.Some? && current == counter.value.count
      ensures ttlMissing <==> counter.value.expiry.None?
    {
      now := time;
      if counter.Some? && counter.value.expiry.Some? && counter.value.expiry.value <= time {
        counter := None;
      }
      if counter.None? {
        counter := Some(Counter(0, time, None));
        windows := windows + 1;
      }
      counter := Some(counter.value.(count := counter.value.count + 1));
      current := counter.value.count;
      ttlMissing := counter.value.expiry.None?;
      if ttlMissing {
        waiting := waiting + 1;
      }
    }

    /** The follow-up of a caller that saw no lifetime. */
    method Expire(time: int, windowSeconds: int)
      requires waiting > 0
      modifies this
      ensures Contents() == Step(old(Contents()), SetExpiry(time), windowSeconds)
    {
      now := time;
      if counter.Some? && counter.value.expiry.Some? && counter.value.expiry.value <= time {
        counter := None;
      }
      if counter.Some? {
        counter := Some(counter.value.(expiry := Some(time + windowSeconds)));
      }
      waiting := waiting - 1;
    }

    /** A whole call that nothing interrupts. */
    method CheckRateLimit(time: int, maxCalls: int, windowSeconds: int) returns (allowed: bool, current: nat)
      modifies this
      ensures var called := Step(old(Contents()), Call(time), windowSeconds);
        && called.counter.Some? && current == called.counter.value.count && (allowed <==> current <= maxCalls)
        && Contents() == if called.counter.value.expiry.None? then Step(called, SetExpiry(time), windowSeconds) else called
    {
      var ttlMissing;
      current, ttlMissing := IncrementAndReadTtl(time);
      if ttlMissing {
        Expire(time, windowSeconds);
      }
      allowed := current <= maxCalls;
    }
  }
}
