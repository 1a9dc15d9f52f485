/** Candle boundaries and date chunking. A datetime is a number of microseconds of local
    (IST) clock time, which has no daylight saving, so every day is equally long. */
module TimeUtils {

  const MINUTE := 60_000_000
  const DAY := 1440 * MINUTE

  function DayOf(t: int): int { t / DAY }

  /** `hour * 60 + minute`. */
  function MinuteOfDay(t: int): int { (t % DAY) / MINUTE }

  /** Floors to the candle boundary: the start of the minute when the interval is not
      positive, otherwise the last multiple of it since midnight. */
  function FloorToMinute(t: int, intervalMinutes: int): int {
    var minutes := MinuteOfDay(t);
    var floored := if intervalMinutes <= 0 then minutes else (minutes / intervalMinutes) * intervalMinutes;
    DayOf(t) * DAY + floored * MINUTE
  }

  /** A boundary: the start of a minute that is a whole number of intervals past midnight. */
  predicate IsBoundary(b: int, intervalMinutes: int) {
    b % MINUTE == 0 && (intervalMinutes > 0 ==> MinuteOfDay(b) % intervalMinutes == 0)
  }

  lemma FloorParts(t: int, intervalMinutes: int)
    ensures var m := MinuteOfDay(t);
      var f := if intervalMinutes <= 0 then m else (m / intervalMinutes) * intervalMinutes;
      && 0 <= f <= m < 1440
      && (intervalMinutes > 0 ==> m < f + intervalMinutes && f % intervalMinutes == 0)
      && DayOf(FloorToMinute(t, intervalMinutes)) == DayOf(t)
      && MinuteOfDay(FloorToMinute(t, intervalMinutes)) == f
      && FloorToMinute(t, intervalMinutes) % MINUTE == 0
  {
    var m := MinuteOfDay(t);
    if intervalMinutes > 0 {
      var q := m / intervalMinutes;
      assert m == q * intervalMinutes + m % intervalMinutes;
      ModOfMultiple(q, intervalMinutes);
    }
  }

  lemma ModOfMultiple(q: int, n: int)
    requires n > 0
    ensures (q * n) % n == 0
  {
    DivModUnique(q * n, n, q, 0);
  }

  lemma DivModUnique(x: int, n: int, q: int, r: int)
    requires n > 0 && x == q * n + r && 0 <= r < n
    ensures x / n == q && x % n == r
  {
    var d := x / n - q;
    assert x == (x / n) * n + x % n;
    assert d * n == r - x % n;
    assert d >= 1 ==> d * n >= n;
    assert d <= -1 ==> d * n <= -n;
  }

  /** The floor is the latest boundary of the same day not after the given time. */
  lemma FloorIsLatestBoundary(t: int, intervalMinutes: int, b: int)
    ensures var f := FloorToMinute(t, intervalMinutes);
      && f <= t && DayOf(f) == DayOf(t) && IsBoundary(f, intervalMinutes)
      && (IsBoundary(b, intervalMinutes) && b <= t && DayOf(b) == DayOf(t) ==> b <= f)
  {
    hide FloorToMinute, DayOf, MinuteOfDay;
    FloorParts(t, intervalMinutes);
    DayParts(t);
    DayParts(b);
    DayParts(FloorToMinute(t, intervalMinutes));
    if intervalMinutes > 0 && IsBoundary(b, intervalMinutes) && b <= t && DayOf(b) == DayOf(t) {
      MultiplesBelow(MinuteOfDay(t), MinuteOfDay(b), intervalMinutes);
    }
  }

  /** A time is its day, its minute of the day and the rest. */
  lemma DayParts(t: int)
    ensures t == DayOf(t) * DAY + MinuteOfDay(t) * MINUTE + t % MINUTE
    ensures 0 <= MinuteOfDay(t) < 1440
  {
  }

  lemma MultiplesBelow(m: int, x: int, n: int)
    requires n > 0 && 0 <= x <= m && x % n == 0
    ensures x <= (m / n) * n
  {
    var q, p := m / n, x / n;
    assert m == q * n + m % n && x == p * n;
    var d := p - q;
    assert d * n == x - q * n;
    assert d >= 1 ==> d * n >= n;
    assert d <= 0 ==> d * n <= 0;
  }

  lemma FloorMonotone(t: int, u: int, intervalMinutes: int)
    requires t <= u
    ensures FloorToMinute(t, intervalMinutes) <= FloorToMinute(u, intervalMinutes)
  {
    hide FloorToMinute, MinuteOfDay;
    var f := FloorToMinute(t, intervalMinutes);
    FloorIsLatestBoundary(t, intervalMinutes, f);
    FloorIsLatestBoundary(u, intervalMinutes, f);
  }

  // ---------------------------------------------------------------------------
  // Date chunks

  datatype Chunk = Chunk(start: int, end: int)

  /** The chunks tile the range: the first begins it, each begins where the previous one
      ended, the last ends it, none is empty or longer than a step, and only the last may
      be shorter. */
  ghost predicate Tiles(chunks: seq<Chunk>, start: int, end: int, step: int) {
    && (chunks != [] ==> chunks[0].start == start && chunks[|chunks| - 1].end == end)
    && (forall i :: 0 <= i < |chunks| - 1 ==> chunks[i].end == chunks[i + 1].start)
    && (forall i :: 0 <= i < |chunks| ==> chunks[i].start < chunks[i].end <= chunks[i].start + step)
    && (forall i :: 0 <= i < |chunks| - 1 ==> chunks[i].end == chunks[i].start + step)
  }

  function ChunkEnd(current: int, end: int, step: int): int {
    if current + step <= end then current + step else end
  }

  /** The generator makes progress exactly when a chunk is at least one day. */
  lemma ChunksAdvanceExactlyWhenPositive(current: int, end: int, chunkDays: int)
    requires current < end
    ensures ChunkEnd(current, end, chunkDays * DAY) > current <==> chunkDays >= 1
  {
  }

  /** Smallest whole number of steps that covers a distance. */
  function CeilDiv(x: int, n: int): int
    requires n > 0
  {
    if x <= 0 then 0 else (x + n - 1) / n
  }

  /** The generator as the list of what it yields, when it terminates. */
  method DateRangeChunks(start: int, end: int, chunkDays: int) returns (chunks: seq<Chunk>)
    requires chunkDays >= 1 || start >= end
    ensures start < end ==>
      chunks != [] && Tiles(chunks, start, end, chunkDays * DAY) && |chunks| == CeilDiv(end - start, chunkDays * DAY)
    ensures start >= end ==> chunks == []
  {
    hide CeilDiv, Tiles;
    chunks := [];
    assert Tiles(chunks, start, start, chunkDays * DAY) by { TilesNothing(start, chunkDays * DAY); }
    var current, step := start, chunkDays * DAY;
    while current < end
      invariant start == current || start < current <= end
      invariant chunks == [] <==> current == start
      invariant Tiles(chunks, start, current, step)
      invariant chunks != [] && current < end ==> chunks[|chunks| - 1].end == chunks[|chunks| - 1].start + step
      invariant step > 0 ==> |chunks| + CeilDiv(end - current, step) == CeilDiv(end - start, step)
      decreases end - current
    {
      var chunkEnd := ChunkEnd(current, end, step);
      CeilStep(end - current, step);
      TilesAppend(chunks, start, current, step, chunkEnd);
      chunks := chunks + [Chunk(current, chunkEnd)];
      current := chunkEnd;
    }
    if step > 0 { CeilZero(end - current, step); }
  }

  lemma TilesNothing(start: int, step: int)
    ensures Tiles([], start, start, step)
  {
  }

  lemma TilesAppend(chunks: seq<Chunk>, start: int, current: int, step: int, end: int)
    requires Tiles(chunks, start, current, step) && current < end <= current + step
    requires chunks == [] ==> current == start
    requires chunks != [] ==> chunks[|chunks| - 1].end == chunks[|chunks| - 1].start + step
    ensures Tiles(chunks + [Chunk(current, end)], start, end, step)
  {
  }

  lemma CeilZero(x: int, n: int)
    requires n > 0 && x <= 0
    ensures CeilDiv(x, n) == 0
  {
  }

  lemma CeilStep(x: int, n: int)
    requires n > 0 && x > 0
    ensures CeilDiv(x, n) == 1 + CeilDiv(if n <= x then x - n else 0, n)
  {
    if n < x {
      DivModUnique(x + n - 1, n, (x - 1) / n + 1, (x - 1) % n);
    } else {
      DivModUnique(x + n - 1, n, 1, x - 1);
    }
  }
}
