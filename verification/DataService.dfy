/** Historical series: merging a gap with broker data, cleaning a frame, and the bounded
    cache of query results. */
module DataService {
  import opened Numbers
  import opened Sequences

  /** A row of a frame indexed by time. */
  datatype Stamped<T> = Stamped(time: int, value: T)

  // ---------------------------------------------------------------------------
  // Index operations of the data-frame library

  /** Rows that no later row replaces: duplicates dropped, keeping the last. */
  function KeepLast<T>(rows: seq<Stamped<T>>): seq<Stamped<T>> {
    if rows == [] then []
    else Filter(KeepLast(Init(rows)), OtherTime(Last(rows).time)) + [Last(rows)]
  }

  function OtherTime<T>(time: int): Stamped<T> -> bool { (x: Stamped<T>) => x.time != time }

  ghost predicate Sorted<T>(rows: seq<Stamped<T>>) {
    forall i, j :: 0 <= i < j < |rows| ==> rows[i].time <= rows[j].time
  }

  ghost predicate StrictlySorted<T>(rows: seq<Stamped<T>>) {
    forall i, j :: 0 <= i < j < |rows| ==> rows[i].time < rows[j].time
  }

  ghost predicate DistinctTimes<T>(rows: seq<Stamped<T>>) {
    forall i, j :: 0 <= i < j < |rows| ==> rows[i].time != rows[j].time
  }

  /** What sorting by the index may return: the library's sort is not stable, so rows of
      equal time may come in any order. */
  ghost predicate IsSorting<T>(rows: seq<Stamped<T>>, sorted: seq<Stamped<T>>) {
    multiset(rows) == multiset(sorted) && Sorted(sorted)
  }

  /** The series as a map from time to the row that counts. */
  function AsMap<T>(rows: seq<Stamped<T>>): map<int, T> {
    if rows == [] then map[] else AsMap(Init(rows))[Last(rows).time := Last(rows).value]
  }

  lemma AppendToMap<T>(rows: seq<Stamped<T>>, x: Stamped<T>)
    ensures AsMap(rows + [x]) == AsMap(rows)[x.time := x.value]
  {
    assert Init(rows + [x]) == rows;
  }

  lemma {:induction false} KeepLastKeepsMap<T>(rows: seq<Stamped<T>>)
    ensures AsMap(KeepLast(rows)) == AsMap(rows)
  {
    if rows != [] {
      var last, before := Last(rows), KeepLast(Init(rows));
      KeepLastKeepsMap(Init(rows));
      FilteredMap(before, last.time);
      AppendToMap(Filter(before, OtherTime(last.time)), last);
    }
  }

  lemma {:induction false} KeepLastSelects<T>(rows: seq<Stamped<T>>)
    ensures forall x :: x in KeepLast(rows) ==> x in rows
  {
    if rows != [] {
      KeepLastSelects(Init(rows));
      forall x | x in KeepLast(rows)
        ensures x in rows
      {
        FilterMember(KeepLast(Init(rows)), OtherTime(Last(rows).time), x);
      }
    }
  }

  lemma {:induction false} KeepLastIsDistinct<T>(rows: seq<Stamped<T>>)
    ensures DistinctTimes(KeepLast(rows))
  {
    if rows != [] {
      var last, before := Last(rows), KeepLast(Init(rows));
      KeepLastIsDistinct(Init(rows));
      FilterDistinct(before, OtherTime(last.time));
      forall x | x in Filter(before, OtherTime(last.time))
        ensures x.time != last.time
      {
        FilterMember(before, OtherTime(last.time), x);
      }
    }
  }

  lemma {:induction false} FilterDistinct<T>(rows: seq<Stamped<T>>, p: Stamped<T> -> bool)
    requires DistinctTimes(rows)
    ensures DistinctTimes(Filter(rows, p))
  {
    if rows != [] {
      FilterDistinct(Init(rows), p);
      forall x | x in Filter(Init(rows), p)
        ensures x.time != Last(rows).time
      {
        FilterMember(Init(rows), p, x);
      }
    }
  }

  lemma {:induction false} FilteredMap<T>(rows: seq<Stamped<T>>, time: int)
    ensures AsMap(Filter(rows, OtherTime(time))) == AsMap(rows) - {time}
  {
    if rows != [] {
      FilteredMap(Init(rows), time);
      var kept, last := Filter(Init(rows), OtherTime(time)), Last(rows);
      if last.time == time {
        assert Filter(rows, OtherTime(time)) == kept;
        assert AsMap(rows) - {time} == AsMap(Init(rows)) - {time};
      } else {
        AppendToMap(kept, last);
        assert AsMap(rows) - {time} == (AsMap(Init(rows)) - {time})[last.time := last.value];
      }
    }
  }

  /** Without duplicate times a series and its map hold the same rows. */
  lemma {:induction false} MapHoldsRow<T>(rows: seq<Stamped<T>>, x: Stamped<T>)
    requires DistinctTimes(rows)
    ensures x in rows <==> x.time in AsMap(rows) && AsMap(rows)[x.time] == x.value
  {
    if rows != [] {
      MapHoldsRow(Init(rows), x);
      assert rows == Init(rows) + [Last(rows)];
    }
  }

  ghost predicate HasTime<T>(rows: seq<Stamped<T>>, t: int) {
    exists i :: 0 <= i < |rows| && rows[i].time == t
  }

  lemma {:induction false} MapHoldsTimes<T>(rows: seq<Stamped<T>>, t: int)
    ensures t in AsMap(rows) <==> HasTime(rows, t)
  {
    if rows != [] {
      MapHoldsTimes(Init(rows), t);
      assert rows == Init(rows) + [Last(rows)];
    }
  }

  /** Sorting rows of distinct times keeps them distinct and keeps their map. */
  lemma SortingKeepsMap<T>(rows: seq<Stamped<T>>, sorted: seq<Stamped<T>>)
    requires DistinctTimes(rows) && IsSorting(rows, sorted)
    ensures StrictlySorted(sorted) && AsMap(sorted) == AsMap(rows)
  {
    SortingIsDistinct(rows, sorted);
    forall t
      ensures t in AsMap(sorted) <==> t in AsMap(rows)
      ensures t in AsMap(sorted) ==> AsMap(sorted)[t] == AsMap(rows)[t]
    {
      if t in AsMap(sorted) {
        var x := Stamped(t, AsMap(sorted)[t]);
        MapHoldsRow(sorted, x);
        assert x in multiset(sorted);
        assert x in multiset(rows);
        MapHoldsRow(rows, x);
      }
      if t in AsMap(rows) {
        var x := Stamped(t, AsMap(rows)[t]);
        MapHoldsRow(rows, x);
        assert x in multiset(rows);
        assert x in multiset(sorted);
        MapHoldsRow(sorted, x);
      }
    }
  }

  lemma SortingIsDistinct<T>(rows: seq<Stamped<T>>, sorted: seq<Stamped<T>>)
    requires DistinctTimes(rows) && IsSorting(rows, sorted)
    ensures StrictlySorted(sorted)
  {
    forall i, j | 0 <= i < j < |sorted|
      ensures sorted[i].time < sorted[j].time
    {
      var x, y := sorted[i], sorted[j];
      assert x in multiset(sorted) && y in multiset(sorted);
      assert x in multiset(rows) && y in multiset(rows);
      if x == y {
        TwiceInSequence(sorted, i, j);
        OnceWhenDistinct(rows, x);
      }
    }
  }

  lemma TwiceInSequence<T>(rows: seq<Stamped<T>>, i: nat, j: nat)
    requires i < j < |rows| && rows[i] == rows[j]
    ensures multiset(rows)[rows[i]] >= 2
  {
    assert rows == rows[..j] + rows[j..];
    assert rows[..j][i] in multiset(rows[..j]) && rows[j..][0] in multiset(rows[j..]);
  }

  lemma {:induction false} OnceWhenDistinct<T>(rows: seq<Stamped<T>>, x: Stamped<T>)
    requires DistinctTimes(rows)
    ensures multiset(rows)[x] <= 1
  {
    if rows != [] {
      OnceWhenDistinct(Init(rows), x);
      assert rows == Init(rows) + [Last(rows)];
    }
  }

  /** One order that sorting may produce, by insertion. */
  function SortByTime<T>(rows: seq<Stamped<T>>): seq<Stamped<T>> {
    if rows == [] then [] else Insert(SortByTime(Init(rows)), Last(rows))
  }

  function Insert<T>(sorted: seq<Stamped<T>>, x: Stamped<T>): seq<Stamped<T>> {
    if sorted == [] || Last(sorted).time <= x.time then sorted + [x]
    else Insert(Init(sorted), x) + [Last(sorted)]
  }

  lemma {:induction false} InsertAdds<T>(sorted: seq<Stamped<T>>, x: Stamped<T>)
    ensures multiset(Insert(sorted, x)) == multiset(sorted) + multiset{x}
  {
    if !(sorted == [] || Last(sorted).time <= x.time) {
      InsertAdds(Init(sorted), x);
      assert sorted == Init(sorted) + [Last(sorted)];
    }
  }

  lemma {:induction false} InsertSorts<T>(sorted: seq<Stamped<T>>, x: Stamped<T>)
    requires Sorted(sorted)
    ensures Sorted(Insert(sorted, x))
    ensures forall y :: y in Insert(sorted, x) ==> y in sorted || y == x
  {
    if !(sorted == [] || Last(sorted).time <= x.time) {
      InsertSorts(Init(sorted), x);
      forall y | y in Insert(Init(sorted), x)
        ensures y.time <= Last(sorted).time
      {
        if y != x {
          var i :| 0 <= i < |sorted| - 1 && sorted[i] == y;
        }
      }
    }
  }

  lemma {:induction false} SortByTimeSorts<T>(rows: seq<Stamped<T>>)
    ensures IsSorting(rows, SortByTime(rows))
  {
    if rows != [] {
      SortByTimeSorts(Init(rows));
      InsertSorts(SortByTime(Init(rows)), Last(rows));
      InsertAdds(SortByTime(Init(rows)), Last(rows));
      assert rows == Init(rows) + [Last(rows)];
    }
  }

  // ---------------------------------------------------------------------------
  // Filling gaps

  /** The merged series: both frames one after the other, the last row of each time. */
  function Merged<T>(stored: seq<Stamped<T>>, fetched: seq<Stamped<T>>): seq<Stamped<T>> {
    KeepLast(stored + fetched)
  }

  lemma {:induction false} ConcatenatedMap<T>(a: seq<Stamped<T>>, b: seq<Stamped<T>>)
    ensures AsMap(a + b) == AsMap(a) + AsMap(b)
  {
    if b == [] {
      assert a + b == a;
    } else {
      ConcatenatedMap(a, Init(b));
      assert Init(a + b) == a + Init(b);
    }
  }

  /** The gap-filled series is in strict time order and is, as a map, the stored series
      overridden by the broker's. */
  lemma MergeOverrides<T>(stored: seq<Stamped<T>>, fetched: seq<Stamped<T>>, result: seq<Stamped<T>>)
    requires IsSorting(Merged(stored, fetched), result)
    ensures StrictlySorted(result) && AsMap(result) == AsMap(stored) + AsMap(fetched)
  {
    KeepLastKeepsMap(stored + fetched);
    KeepLastIsDistinct(stored + fetched);
    SortingKeepsMap(Merged(stored, fetched), result);
    ConcatenatedMap(stored, fetched);
  }

  /** Bars expected of a range: 375 trading minutes a day for intraday intervals. For daily
      ones the source counts one minute a day and still divides by the 1440 of the interval. */
  function ExpectedBars(days: int, intervalMinutes: nat): int {
    days * (if intervalMinutes < 1440 then 375 else 1) / MaxInt(intervalMinutes, 1)
  }

  /** Broker rows are fetched only for intervals of a minute or more whose stored rows
      cover less than four fifths of the range. */
  predicate HasGap(rows: nat, days: int, intervalMinutes: nat) {
    intervalMinutes != 0 && rows as real / MaxInt(ExpectedBars(days, intervalMinutes), 1) as real < 0.80
  }

  function FillGaps<T>(stored: seq<Stamped<T>>, fetched: seq<Stamped<T>>, days: int, intervalMinutes: nat)
    : seq<Stamped<T>>
  {
    if !HasGap(|stored|, days, intervalMinutes) || fetched == [] then stored
    else SortByTime(Merged(stored, fetched))
  }

  /** A gap is found exactly when the rows are fewer than four fifths of those expected, of
      which there is always at least one. */
  lemma GapIsFourFifths(rows: nat, days: int, intervalMinutes: nat)
    ensures HasGap(rows, days, intervalMinutes)
            <==> intervalMinutes != 0 && 5 * rows < 4 * MaxInt(ExpectedBars(days, intervalMinutes), 1)
  {
    hide ExpectedBars;
    var expected := MaxInt(ExpectedBars(days, intervalMinutes), 1);
    QuotientBelow(rows as real, expected as real);
  }

  lemma QuotientBelow(a: real, b: real)
    requires b > 0.0
    ensures a / b < 0.80 <==> 5.0 * a < 4.0 * b
  {
    var q := a / b;
    assert q * b == a;
    assert q < 0.80 ==> (0.80 - q) * b > 0.0;
    assert q >= 0.80 ==> (q - 0.80) * b >= 0.0;
  }

  /** Intraday, the bars expected are the whole intervals in 375 minutes a day. */
  lemma IntradayBarsFillTheDays(days: int, intervalMinutes: nat)
    requires 1 <= intervalMinutes < ONE_DAY
    ensures var expected := ExpectedBars(days, intervalMinutes);
      expected * intervalMinutes <= 375 * days < (expected + 1) * intervalMinutes
  {
    var total := days * 375;
    assert total == total / intervalMinutes * intervalMinutes + total % intervalMinutes;
    assert (total / intervalMinutes + 1) * intervalMinutes == total / intervalMinutes * intervalMinutes + intervalMinutes;
  }

  const ONE_DAY := 1440

  /** So a daily series that covers less than four fifths of the days asked for is left as it
      is exactly when its rows reach four fifths of a 1440th of the days, or of one; up to
      2879 days, exactly when it has any row at all. */
  lemma DailyGapIsMissedExactly(rows: nat, days: nat)
    ensures 5 * rows < 4 * days && !HasGap(rows, days, ONE_DAY)
            <==> 4 * MaxInt(days / ONE_DAY, 1) <= 5 * rows < 4 * days
    ensures days < 2 * ONE_DAY ==> (HasGap(rows, days, ONE_DAY) <==> rows == 0)
  {
    hide HasGap;
    GapIsFourFifths(rows, days, ONE_DAY);
    assert ExpectedBars(days, ONE_DAY) == days / ONE_DAY;
  }

  /** Broker rows take precedence exactly when there was a gap to fill; rows merged with them
      are in strict time order, and others are handed on as they were. */
  lemma FillGapsOverridesOnGap<T>(stored: seq<Stamped<T>>, fetched: seq<Stamped<T>>, days: int, intervalMinutes: nat)
    ensures AsMap(FillGaps(stored, fetched, days, intervalMinutes))
            == if HasGap(|stored|, days, intervalMinutes) then AsMap(stored) + AsMap(fetched) else AsMap(stored)
    ensures if HasGap(|stored|, days, intervalMinutes) && fetched != []
            then StrictlySorted(FillGaps(stored, fetched, days, intervalMinutes))
            else FillGaps(stored, fetched, days, intervalMinutes) == stored
  {
    hide HasGap;
    SortByTimeSorts(Merged(stored, fetched));
    MergeOverrides(stored, fetched, SortByTime(Merged(stored, fetched)));
  }

  // ---------------------------------------------------------------------------
  // Cleaning

  datatype Column = Open | High | Low | Close | Volume

  /** A numeric cell, or NaN when the value could not be read as a number. */
  type Cell = Option<real>

  /** The columns that are present, and the rows' cells in them. */
  datatype Frame = Frame(columns: set<Column>, rows: seq<Stamped<map<Column, Cell>>>)

  datatype Bar = Bar(open: Cell, high: real, low: real, close: real, volume: Cell)

  /** A missing column is filled with zeros. */
  function CellOf(f: Frame, row: Stamped<map<Column, Cell>>, c: Column): Cell {
    if c !in f.columns then Some(0.0) else if c in row.value then row.value[c] else None
  }

  /** A present column is read from the row, where a cell that is not there is not a number; a
      missing one reads zero, so a frame without closes has nothing to keep. */
  lemma CellIsRead(f: Frame, row: Stamped<map<Column, Cell>>, c: Column)
    ensures c in f.columns && c in row.value ==> CellOf(f, row, c) == row.value[c]
    ensures c in f.columns && c !in row.value ==> CellOf(f, row, c).None?
    ensures c !in f.columns ==> CellOf(f, row, c) == Some(0.0)
    ensures Close !in f.columns ==> !HasPositiveClose(f, row)
  {
  }

  predicate HasPositiveClose(f: Frame, row: Stamped<map<Column, Cell>>) {
    var close := CellOf(f, row, Close);
    close.Some? && close.value > 0.0
  }

  /** Largest or smallest of a close and cells that are skipped when not a number. */
  function MaxCell(x: real, c: Cell): real { if c.Some? then Max(x, c.value) else x }

  function MinCell(x: real, c: Cell): real { if c.Some? then Min(x, c.value) else x }

  function Repaired(f: Frame, row: Stamped<map<Column, Cell>>): Stamped<Bar>
    requires HasPositiveClose(f, row)
  {
    var open, close := CellOf(f, row, Open), CellOf(f, row, Close).value;
    Stamped(row.time, Bar(
      open,
      MaxCell(MaxCell(close, open), CellOf(f, row, High)),
      MinCell(MinCell(close, open), CellOf(f, row, Low)),
      close,
      CellOf(f, row, Volume)))
  }

  /** Rows with a usable close, with their bounds repaired, in frame order. */
  function Usable(f: Frame, rows: seq<Stamped<map<Column, Cell>>>): seq<Stamped<Bar>> {
    if rows == [] then []
    else
      Usable(f, Init(rows)) + if HasPositiveClose(f, Last(rows)) then [Repaired(f, Last(rows))] else []
  }

  /** What cleaning may return: the usable rows sorted by time, the last row the sort put
      at each time. */
  ghost predicate IsCleaned(f: Frame, result: seq<Stamped<Bar>>) {
    exists sorted :: IsSorting(Usable(f, f.rows), sorted) && result == KeepLast(sorted)
  }

  function Clean(f: Frame): (result: seq<Stamped<Bar>>)
    ensures IsCleaned(f, result)
  {
    SortByTimeSorts(Usable(f, f.rows));
    KeepLast(SortByTime(Usable(f, f.rows)))
  }

  ghost predicate WellFormed(b: Bar) {
    && b.close > 0.0 && b.low <= b.close <= b.high
    && (b.open.Some? ==> b.low <= b.open.value <= b.high)
  }

  lemma {:induction false} UsableRows(f: Frame, rows: seq<Stamped<map<Column, Cell>>>, b: Stamped<Bar>)
    ensures b in Usable(f, rows) <==> exists row :: row in rows && HasPositiveClose(f, row) && b == Repaired(f, row)
  {
    if rows != [] {
      UsableRows(f, Init(rows), b);
      assert rows == Init(rows) + [Last(rows)];
    }
  }

  lemma {:induction false} KeepLastOfSorted<T>(rows: seq<Stamped<T>>)
    requires Sorted(rows)
    ensures StrictlySorted(KeepLast(rows))
  {
    if rows != [] {
      var last, before := Last(rows), KeepLast(Init(rows));
      KeepLastOfSorted(Init(rows));
      FilterStrict(before, OtherTime(last.time));
      KeepLastSelects(Init(rows));
      hide KeepLast;
      forall x | x in Filter(before, OtherTime(last.time))
        ensures x.time < last.time
      {
        FilterMember(before, OtherTime(last.time), x);
        var i :| 0 <= i < |rows| - 1 && rows[i] == x;
      }
      assert KeepLast(rows) == Filter(before, OtherTime(last.time)) + [last];
    }
  }

  lemma {:induction false} FilterStrict<T>(rows: seq<Stamped<T>>, p: Stamped<T> -> bool)
    requires StrictlySorted(rows)
    ensures StrictlySorted(Filter(rows, p))
  {
    if rows != [] {
      FilterStrict(Init(rows), p);
      forall x | x in Filter(Init(rows), p)
        ensures x.time < Last(rows).time
      {
        FilterMember(Init(rows), p, x);
        var i :| 0 <= i < |rows| - 1 && rows[i] == x;
      }
    }
  }

  /** The frame has a row with this time and a positive close. */
  ghost predicate HasUsableTime(f: Frame, t: int) {
    exists i :: 0 <= i < |f.rows| && f.rows[i].time == t && HasPositiveClose(f, f.rows[i])
  }

  /** The bar is a row of the frame with its bounds repaired. */
  ghost predicate ComesFrom(f: Frame, b: Stamped<Bar>) {
    exists i :: 0 <= i < |f.rows| && HasPositiveClose(f, f.rows[i]) && b == Repaired(f, f.rows[i])
  }

  /** The bar keeps the row's time, open, close and volume; its high is the highest and its low
      the lowest of the row's open, close and high, or low, as far as they are numbers. */
  predicate IsRepairOf(f: Frame, row: Stamped<map<Column, Cell>>, b: Stamped<Bar>) {
    var open, high, low, bar := CellOf(f, row, Open), CellOf(f, row, High), CellOf(f, row, Low), b.value;
    && b.time == row.time
    && CellOf(f, row, Close) == Some(bar.close) && bar.open == open && bar.volume == CellOf(f, row, Volume)
    && bar.close <= bar.high && (open.Some? ==> open.value <= bar.high) && (high.Some? ==> high.value <= bar.high)
    && (bar.high == bar.close || Some(bar.high) == open || Some(bar.high) == high)
    && bar.close >= bar.low && (open.Some? ==> open.value >= bar.low) && (low.Some? ==> low.value >= bar.low)
    && (bar.low == bar.close || Some(bar.low) == open || Some(bar.low) == low)
  }

  lemma RepairKeepsRow(f: Frame, row: Stamped<map<Column, Cell>>)
    requires HasPositiveClose(f, row)
    ensures IsRepairOf(f, row, Repaired(f, row))
  {
  }

  /** Whatever order the sort leaves equal times in, the cleaned series is in strict time
      order, has exactly the times of the rows with a positive close, and every bar is one
      of those rows with its bounds repaired. */
  lemma CleaningLaws(f: Frame, result: seq<Stamped<Bar>>)
    requires IsCleaned(f, result)
    ensures StrictlySorted(result)
    ensures forall t :: HasTime(result, t) <==> HasUsableTime(f, t)
    ensures forall b :: b in result ==> WellFormed(b.value) && ComesFrom(f, b)
    ensures forall b :: b in result ==> exists i :: 0 <= i < |f.rows| && IsRepairOf(f, f.rows[i], b)
  {
    forall b | ComesFrom(f, b)
      ensures exists i :: 0 <= i < |f.rows| && IsRepairOf(f, f.rows[i], b)
    {
      var i :| 0 <= i < |f.rows| && HasPositiveClose(f, f.rows[i]) && b == Repaired(f, f.rows[i]);
      RepairKeepsRow(f, f.rows[i]);
    }
    var sorted :| IsSorting(Usable(f, f.rows), sorted) && result == KeepLast(sorted);
    KeepLastOfSorted(sorted);
    KeepLastSelects(sorted);
    forall b | b in result
      ensures WellFormed(b.value) && ComesFrom(f, b)
    {
      SortedFromUsable(f, sorted, b);
    }
    forall t
      ensures HasTime(result, t) <==> HasUsableTime(f, t)
    {
      KeepLastKeepsMap(sorted);
      MapHoldsTimes(result, t);
      MapHoldsTimes(sorted, t);
      SortedTimes(f, sorted, t);
    }
  }

  lemma SortedFromUsable(f: Frame, sorted: seq<Stamped<Bar>>, b: Stamped<Bar>)
    requires IsSorting(Usable(f, f.rows), sorted)
    ensures b in sorted <==> ComesFrom(f, b)
    ensures b in sorted ==> WellFormed(b.value)
  {
    assert b in sorted <==> b in multiset(sorted);
    assert b in Usable(f, f.rows) <==> b in multiset(Usable(f, f.rows));
    UsableRows(f, f.rows, b);
    if row :| row in f.rows && HasPositiveClose(f, row) && b == Repaired(f, row) {
      var i :| 0 <= i < |f.rows| && f.rows[i] == row;
    }
  }

  lemma SortedTimes(f: Frame, sorted: seq<Stamped<Bar>>, t: int)
    requires IsSorting(Usable(f, f.rows), sorted)
    ensures HasTime(sorted, t) <==> HasUsableTime(f, t)
  {
    hide IsSorting, Usable;
    if HasTime(sorted, t) {
      var i :| 0 <= i < |sorted| && sorted[i].time == t;
      SortedFromUsable(f, sorted, sorted[i]);
    }
    if HasUsableTime(f, t) {
      var i :| 0 <= i < |f.rows| && f.rows[i].time == t && HasPositiveClose(f, f.rows[i]);
      var b := Repaired(f, f.rows[i]);
      SortedFromUsable(f, sorted, b);
      var j :| 0 <= j < |sorted| && sorted[j] == b;
    }
  }

  /** A cleaned series as the frame the service hands out. */
  function AsFrame(bars: seq<Stamped<Bar>>): Frame {
    Frame({Open, High, Low, Close, Volume}, seq(|bars|, i requires 0 <= i < |bars| => AsRow(bars[i])))
  }

  function AsRow(b: Stamped<Bar>): Stamped<map<Column, Cell>> {
    Stamped(b.time, map[Open := b.value.open, High := Some(b.value.high), Low := Some(b.value.low),
                        Close := Some(b.value.close), Volume := b.value.volume])
  }

  lemma {:induction false} CleanRowsAreUsableAsTheyAre(bars: seq<Stamped<Bar>>, f: Frame, n: nat)
    requires f == AsFrame(bars) && n <= |bars| && forall b :: b in bars ==> WellFormed(b.value)
    ensures Usable(f, f.rows[..n]) == bars[..n]
  {
    hide WellFormed, Repaired, HasPositiveClose;
    if n > 0 {
      CleanRowsAreUsableAsTheyAre(bars, f, n - 1);
      assert Init(f.rows[..n]) == f.rows[..n - 1] && Last(f.rows[..n]) == AsRow(bars[n - 1]);
      assert bars[n - 1] in bars;
      CleanRowNeedsNoRepair(f, bars[n - 1]);
      assert bars[..n] == bars[..n - 1] + [bars[n - 1]];
    }
  }

  lemma CleanRowNeedsNoRepair(f: Frame, b: Stamped<Bar>)
    requires f.columns == {Open, High, Low, Close, Volume} && WellFormed(b.value)
    ensures HasPositiveClose(f, AsRow(b)) && Repaired(f, AsRow(b)) == b
  {
  }

  /** Cleaning again changes nothing, for any frame and any outcome of the first sort. */
  lemma CleaningIsIdempotent(f: Frame, once: seq<Stamped<Bar>>, twice: seq<Stamped<Bar>>)
    requires IsCleaned(f, once) && IsCleaned(AsFrame(once), twice)
    ensures twice == once
  {
    var g := AsFrame(once);
    CleaningLaws(f, once);
    CleanRowsAreUsableAsTheyAre(once, g, |once|);
    assert g.rows[..|once|] == g.rows && once[..|once|] == once;
    var sorted :| IsSorting(once, sorted) && twice == KeepLast(sorted);
    SortingIsDistinct(once, sorted);
    StrictOrderIsUnique(once, sorted);
    StrictKeepsAll(once);
  }

  lemma {:induction false} StrictKeepsAll<T>(rows: seq<Stamped<T>>)
    requires StrictlySorted(rows)
    ensures KeepLast(rows) == rows
  {
    hide KeepLast, Filter, StrictlySorted;
    if rows == [] {
      NothingToKeep<T>();
    } else {
      StrictBefore(rows);
      StrictKeepsAll(Init(rows));
      NewTimeKeepsAll(rows);
    }
  }

  lemma NothingToKeep<T>()
    ensures KeepLast<T>([]) == []
  {
  }

  /** A last row of a new time replaces nothing. */
  lemma NewTimeKeepsAll<T>(rows: seq<Stamped<T>>)
    requires rows != [] && KeepLast(Init(rows)) == Init(rows)
    requires forall x :: x in Init(rows) ==> x.time < Last(rows).time
    ensures KeepLast(rows) == rows
  {
    hide Filter, KeepLast;
    KeepLastStep(rows);
    FilterAll(Init(rows), OtherTime(Last(rows).time));
    assert Init(rows) + [Last(rows)] == rows;
  }

  lemma KeepLastStep<T>(rows: seq<Stamped<T>>)
    requires rows != []
    ensures KeepLast(rows) == Filter(KeepLast(Init(rows)), OtherTime(Last(rows).time)) + [Last(rows)]
  {
    hide Filter;
  }

  lemma StrictBefore<T>(rows: seq<Stamped<T>>)
    requires rows != [] && StrictlySorted(rows)
    ensures StrictlySorted(Init(rows)) && forall x :: x in Init(rows) ==> x.time < Last(rows).time
  {
  }

  lemma {:induction false} StrictOrderIsUnique<T>(a: seq<Stamped<T>>, b: seq<Stamped<T>>)
    requires StrictlySorted(a) && StrictlySorted(b) && multiset(a) == multiset(b)
    ensures a == b
  {
    if a == [] || b == [] {
      assert |multiset(a)| == |a| && |multiset(b)| == |b|;
    } else {
      LatestAgrees(a, b);
      LatestAgrees(b, a);
      SameWithoutLast(a, b);
      StrictOrderIsUnique(Init(a), Init(b));
      assert a == Init(a) + [Last(a)] && b == Init(b) + [Last(b)];
    }
  }

  /** The latest of `a` is no later than the latest of `b`, and equal rows if as late. */
  lemma LatestAgrees<T>(a: seq<Stamped<T>>, b: seq<Stamped<T>>)
    requires a != [] && b != [] && StrictlySorted(b) && multiset(a) == multiset(b)
    ensures Last(a).time <= Last(b).time && (Last(a).time == Last(b).time ==> Last(a) == Last(b))
  {
    assert Last(a) in multiset(a);
    assert Last(a) in multiset(b);
    var j :| 0 <= j < |b| && b[j] == Last(a);
  }

  lemma SameWithoutLast<T>(a: seq<Stamped<T>>, b: seq<Stamped<T>>)
    requires a != [] && b != [] && Last(a) == Last(b) && multiset(a) == multiset(b)
    ensures multiset(Init(a)) == multiset(Init(b))
  {
    assert a == Init(a) + [Last(a)] && b == Init(b) + [Last(b)];
    assert multiset(Init(a)) == multiset(a) - multiset{Last(a)};
    assert multiset(Init(b)) == multiset(b) - multiset{Last(b)};
  }

  // ---------------------------------------------------------------------------
  // The query cache

  const MAX_ENTRIES := 50

  /** A dictionary that remembers insertion order. */
  class Cache<K(==,!new), V> {
    var keys: seq<K>
    var entries: map<K, V>

    ghost predicate Valid()
      reads this
    {
      Unique(keys) && (forall k :: k in keys <==> k in entries) && |keys| <= MAX_ENTRIES
    }

    constructor ()
      ensures Valid() && keys == [] && entries == map[]
    {
      keys, entries := [], map[];
    }

    /** A full cache drops its oldest entry first, even when the key is already cached. */
    method CacheSet(key: K, value: V)
      requires Valid()
      modifies this
      ensures Valid()
      ensures var kept := if |old(keys)| < MAX_ENTRIES then old(keys) else old(keys)[1..];
        && keys == (if key in kept then kept else kept + [key])
        && entries.Keys == (set k | k in kept) + {key}
        && entries[key] == value
        && forall k :: k in kept && k != key ==> k in old(entries) && entries[k] == old(entries)[k]
    {
      if |keys| >= MAX_ENTRIES {
        var oldest := keys[0];
        entries := entries - {oldest};
        keys := keys[1..];
      }
      if key !in entries {
        keys := keys + [key];
      }
      entries := entries[key := value];
    }
  }
}
