/** Maximum drawdown by running peak, and its agreement with the pairwise definition. */
module Drawdown {
  import opened Numbers
  import opened Sequences

  /** `np.maximum.accumulate`. */
  function RunningPeak(v: seq<real>): (peaks: seq<real>)
    ensures |peaks| == |v|
  {
    if |v| <= 1 then v
    else
      var before := RunningPeak(Init(v));
      before + [Max(Last(before), Last(v))]
  }

  function Percent(from: real, to: real, base: real): real
    requires base > 0.0
  {
    (from - to) / base * 100.0
  }

  /** Drawdown at each bar in percent of the running peak, or of 1 where that is not
      positive. */
  function Drawdowns(v: seq<real>): (d: seq<real>)
    ensures |d| == |v|
  {
    var peaks := RunningPeak(v);
    seq(|v|, i requires 0 <= i < |v| => Percent(peaks[i], v[i], if peaks[i] > 0.0 then peaks[i] else 1.0))
  }

  /** `np.argmax`: the first position of the largest element. */
  function ArgMax(xs: seq<real>): (k: nat)
    requires xs != []
    ensures k < |xs|
    ensures forall i :: 0 <= i < |xs| ==> xs[i] <= xs[k]
    ensures forall i :: 0 <= i < k ==> xs[i] < xs[k]
  {
    if |xs| == 1 then 0
    else
      var before := ArgMax(Init(xs));
      if Last(xs) > xs[before] then |xs| - 1 else before
  }

  /** `np.argmax` of an equality mask: the first position of a value that occurs. */
  function FirstIndexOf(xs: seq<real>, x: real): (k: nat)
    requires x in xs
    ensures k < |xs| && xs[k] == x
    ensures forall i :: 0 <= i < k ==> xs[i] != x
  {
    if xs[0] == x then 0 else 1 + FirstIndexOf(xs[1..], x)
  }

  lemma {:induction false} PeakIsMaximum(v: seq<real>, j: nat)
    requires j < |v|
    ensures forall i :: 0 <= i <= j ==> v[i] <= RunningPeak(v)[j]
    ensures exists i :: 0 <= i <= j && v[i] == RunningPeak(v)[j]
  {
    if j < |v| - 1 {
      PeakIsMaximum(Init(v), j);
      var i :| 0 <= i <= j && Init(v)[i] == RunningPeak(Init(v))[j];
      assert v[i] == RunningPeak(v)[j];
      forall i | 0 <= i <= j
        ensures v[i] <= RunningPeak(v)[j]
      {
        assert Init(v)[i] == v[i];
      }
    } else if |v| > 1 {
      PeakIsMaximum(Init(v), j - 1);
      var i :| 0 <= i <= j - 1 && Init(v)[i] == RunningPeak(Init(v))[j - 1];
      assert v[if v[j] >= v[i] then j else i] == RunningPeak(v)[j];
      forall i | 0 <= i < j
        ensures v[i] <= RunningPeak(v)[j]
      {
        assert Init(v)[i] == v[i];
      }
    }
  }

  lemma {:induction false} PeakOfPrefix(v: seq<real>, n: nat)
    requires n <= |v|
    ensures RunningPeak(v[..n]) == RunningPeak(v)[..n]
  {
    if n < |v| {
      PeakOfPrefix(Init(v), n);
      assert Init(v)[..n] == v[..n];
      if |v| > 1 {
        assert RunningPeak(v)[..n] == RunningPeak(Init(v))[..n];
      }
    } else {
      assert v[..n] == v;
    }
  }

  // ---------------------------------------------------------------------------
  // The pairwise definition

  /** The fall from bar `i` to bar `j`, in percent of where it started. */
  function Fall(v: seq<real>, i: nat, j: nat): real
    requires i < |v| && j < |v| && v[i] > 0.0
  {
    Percent(v[i], v[j], v[i])
  }

  predicate Positive(v: seq<real>) { forall i :: 0 <= i < |v| ==> v[i] > 0.0 }

  /** From a higher start the fall to the same value is at least as deep. */
  lemma FallGrowsWithStart(a: real, b: real, x: real)
    requires 0.0 < a <= b && x > 0.0
    ensures Percent(a, x, a) <= Percent(b, x, b)
  {
    var p, q := (a - x) / a, (b - x) / b;
    assert a * p == a - x && b * q == b - x;
    RatioGrows(a, b, x, p, q);
  }

  lemma RatioGrows(a: real, b: real, x: real, p: real, q: real)
    requires 0.0 < a <= b && x > 0.0 && a * p == a - x && b * q == b - x
    ensures p <= q
  {
    CancelMonotone(a, p, 1.0);
    MulMonotone(b - a, p, 1.0);
    assert b * p == a * p + (b - a) * p;
    CancelMonotone(b, p, q);
  }

  /** What the analyser reports about the worst drawdown. */
  datatype Report = Report(maxPct: real, maxInr: real, start: nat, trough: nat, recoveryBars: int)

  /** The recovery offset: zero when the trough is the last bar, otherwise the least offset
      at which the peak is reached again, or -1 when it never is. */
  ghost predicate IsRecovery(v: seq<real>, trough: nat, peak: real, bars: int)
    requires trough < |v|
  {
    && (bars == 0 <==> trough == |v| - 1)
    && (bars == -1 <==> trough < |v| - 1 && forall i :: trough < i < |v| ==> v[i] < peak)
    && (bars > 0 ==> trough + bars < |v| && v[trough + bars] >= peak
                     && forall i :: trough < i < trough + bars ==> v[i] < peak)
    && bars >= -1
  }

  /** The highest value up to bar `j` is that of bar `i`. */
  ghost predicate IsPeak(v: seq<real>, i: int, j: int) {
    0 <= i <= j < |v| && forall k :: 0 <= k <= j ==> v[k] <= v[i]
  }

  /** How far bar `j` is below bar `i`, in percent of the latter, or of 1 where it is not
      positive. */
  function Drop(v: seq<real>, i: int, j: int): real
    requires 0 <= i < |v| && 0 <= j < |v|
  {
    Percent(v[i], v[j], if v[i] > 0.0 then v[i] else 1.0)
  }

  /** The trough is the first bar that is as far below the peak before it as any bar is, and the
      start is the first bar at which that peak was reached. On a positive curve the percentage
      is also the largest fall between any two bars in time order. */
  ghost predicate IsWorst(values: seq<real>, r: Report) {
    && r.start <= r.trough < |values|
    && IsPeak(values, r.start, r.trough)
    && (forall i :: 0 <= i < r.start ==> values[i] < values[r.start])
    && r.maxPct == Drop(values, r.start, r.trough)
    && (forall i, j :: IsPeak(values, i, j) ==> Drop(values, i, j) <= r.maxPct)
    && (forall i, j :: IsPeak(values, i, j) && j < r.trough ==> Drop(values, i, j) < r.maxPct)
    && r.maxInr == values[r.start] - values[r.trough]
    && IsRecovery(values, r.trough, values[r.start], r.recoveryBars)
    && (Positive(values) ==>
          && r.maxPct == Fall(values, r.start, r.trough)
          && forall i, j :: 0 <= i <= j < |values| ==> Fall(values, i, j) <= r.maxPct)
  }

  /** The worst drawdown of an equity curve; an empty curve has none to report. */
  method WorstDrawdown(values: seq<real>) returns (report: Option<Report>)
    ensures report.None? <==> values == []
    ensures report.Some? ==> IsWorst(values, report.value)
  {
    hide Percent, RunningPeak;
    if values == [] {
      return None;
    }
    var peaks, drawdowns := RunningPeak(values), Drawdowns(values);
    var trough := ArgMax(drawdowns);
    var peakSeries := RunningPeak(values[..trough + 1]);
    assert peakSeries == peaks[..trough + 1] by { PeakOfPrefix(values, trough + 1); }
    var start := FirstIndexOf(peakSeries, Last(peakSeries));
    StartAttainsPeak(values, trough, start);
    var recoveryBars := 0;
    if trough < |values| - 1 {
      recoveryBars := -1;
      var i := trough + 1;
      while i < |values|
        invariant trough < i <= |values|
        invariant recoveryBars == -1
        invariant forall k :: trough < k < i ==> values[k] < peaks[trough]
      {
        if values[i] >= peaks[trough] {
          recoveryBars := i - trough;
          break;
        }
        i := i + 1;
      }
    }
    DropsAreDrawdowns(values, start, trough);
    if Positive(values) {
      LargestFall(values, start, trough);
    }
    report := Some(Report(drawdowns[trough], peaks[trough] - values[trough], start, trough, recoveryBars));
  }

  /** The first bar at which the running peak has its value is where that value was. */
  lemma StartAttainsPeak(v: seq<real>, trough: nat, start: nat)
    requires trough < |v| && start <= trough
    requires RunningPeak(v)[start] == RunningPeak(v)[trough]
    requires forall i :: 0 <= i < start ==> RunningPeak(v)[i] != RunningPeak(v)[trough]
    ensures v[start] == RunningPeak(v)[trough]
    ensures forall i :: 0 <= i <= trough ==> v[i] <= v[start]
    ensures forall i :: 0 <= i < start ==> v[i] < v[start]
  {
    PeakIsMaximum(v, trough);
    PeakStep(v, start);
    forall i | 0 <= i < start
      ensures v[i] < v[start]
    {
      PeakRises(v, i, trough);
      PeakIsMaximum(v, i);
    }
  }

  lemma DropsAreDrawdowns(v: seq<real>, start: nat, trough: nat)
    requires start <= trough < |v| && v[start] == RunningPeak(v)[trough] && trough == ArgMax(Drawdowns(v))
    ensures Drop(v, start, trough) == Drawdowns(v)[trough]
    ensures forall i, j :: IsPeak(v, i, j) ==> Drop(v, i, j) <= Drawdowns(v)[trough]
    ensures forall i, j :: IsPeak(v, i, j) && j < trough ==> Drop(v, i, j) < Drawdowns(v)[trough]
  {
    hide Percent, RunningPeak;
    forall i, j | IsPeak(v, i, j)
      ensures Drop(v, i, j) == Drawdowns(v)[j]
    {
      PeakIsMaximum(v, j);
      var k :| 0 <= k <= j && v[k] == RunningPeak(v)[j];
      assert v[i] == RunningPeak(v)[j];
    }
  }

  lemma PeakStep(v: seq<real>, j: nat)
    requires j < |v|
    ensures RunningPeak(v)[j] == if j == 0 then v[0] else Max(RunningPeak(v)[j - 1], v[j])
  {
    PeakOfPrefix(v, j + 1);
    if j > 0 {
      PeakOfPrefix(v, j);
      assert Init(v[..j + 1]) == v[..j];
    }
  }

  lemma {:induction false} PeakRises(v: seq<real>, i: nat, j: nat)
    requires i <= j < |v|
    ensures RunningPeak(v)[i] <= RunningPeak(v)[j]
  {
    if i < j {
      PeakRises(v, i, j - 1);
      PeakStep(v, j);
    }
  }

  lemma LargestFall(v: seq<real>, start: nat, trough: nat)
    requires Positive(v) && start <= trough < |v| && v[start] == RunningPeak(v)[trough]
    requires trough == ArgMax(Drawdowns(v))
    ensures Drawdowns(v)[trough] == Fall(v, start, trough)
    ensures forall i, j :: 0 <= i <= j < |v| ==> Fall(v, i, j) <= Drawdowns(v)[trough]
  {
    hide Percent;
    forall i, j | 0 <= i <= j < |v|
      ensures Fall(v, i, j) <= Drawdowns(v)[trough]
    {
      FallWithinDrawdown(v, i, j);
      assert Drawdowns(v)[j] <= Drawdowns(v)[trough];
    }
    assert RunningPeak(v)[trough] > 0.0;
  }

  lemma FallWithinDrawdown(v: seq<real>, i: nat, j: nat)
    requires Positive(v) && i <= j < |v|
    ensures Fall(v, i, j) <= Drawdowns(v)[j]
  {
    PeakIsMaximum(v, j);
    FallGrowsWithStart(v[i], RunningPeak(v)[j], v[j]);
  }
}
