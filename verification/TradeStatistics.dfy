/** Round-trip statistics, before the rounding of the report. */
module TradeStatistics {
  import opened Numbers
  import opened Sequences

  datatype Statistics = Statistics(
    total: nat,
    winning: nat,
    losing: nat,
    breakEven: nat,
    winRatePct: real,
    avgWin: real,
    avgLoss: real,
    profitFactor: Option<real>,     // None is the source's infinity
    expectancy: real,
    avgTradePnl: real
  )

  function Sum(xs: seq<real>): real {
    if xs == [] then 0.0 else Sum(Init(xs)) + Last(xs)
  }

  /** The mean of a series, taken as zero when it is empty. */
  function Mean(xs: seq<real>): real {
    if xs == [] then 0.0 else Sum(xs) / |xs| as real
  }

  function Winners(pnls: seq<real>): seq<real> { Filter(pnls, (x: real) => x > 0.0) }

  function Losers(pnls: seq<real>): seq<real> { Filter(pnls, (x: real) => x < 0.0) }

  function Evens(pnls: seq<real>): seq<real> { Filter(pnls, (x: real) => x == 0.0) }

  /** `a / n` with the source's guard for no trades. */
  function Rate(a: nat, n: nat): real { if n > 0 then a as real / n as real else 0.0 }

  /** Win rate times average win, less loss rate times the size of the average loss. */
  function Expectancy(winRatePct: real, avgWin: real, lossRate: real, avgLoss: real): real {
    winRatePct / 100.0 * avgWin - lossRate * Abs(avgLoss)
  }

  function Compute(pnls: seq<real>): Statistics {
    var total, wins, losses := |pnls|, |Winners(pnls)|, |Losers(pnls)|;
    var winRatePct, avgWin, avgLoss := Rate(wins, total) * 100.0, Mean(Winners(pnls)), Mean(Losers(pnls));
    var grossLoss := Abs(Sum(Losers(pnls)));
    Statistics(
      total, wins, losses, |Evens(pnls)|, winRatePct, avgWin, avgLoss,
      if total == 0 then Some(0.0) else if grossLoss > 0.0 then Some(Sum(Winners(pnls)) / grossLoss) else None,
      Expectancy(winRatePct, avgWin, Rate(losses, total), avgLoss),
      Mean(pnls))
  }

  lemma {:induction false} OutcomesPartition(pnls: seq<real>)
    ensures |Winners(pnls)| + |Losers(pnls)| + |Evens(pnls)| == |pnls|
    ensures Sum(Winners(pnls)) + Sum(Losers(pnls)) == Sum(pnls)
    ensures Winners(pnls) != [] ==> Sum(Winners(pnls)) > 0.0
    ensures Losers(pnls) != [] ==> Sum(Losers(pnls)) < 0.0
  {
    if pnls != [] {
      OutcomesPartition(Init(pnls));
      SumAppend(Winners(Init(pnls)), Last(pnls));
      SumAppend(Losers(Init(pnls)), Last(pnls));
      assert Last(pnls) <= 0.0 ==> Winners(pnls) == Winners(Init(pnls));
      assert Last(pnls) >= 0.0 ==> Losers(pnls) == Losers(Init(pnls));
      assert Winners(Init(pnls)) == [] ==> Sum(Winners(Init(pnls))) == 0.0;
      assert Losers(Init(pnls)) == [] ==> Sum(Losers(Init(pnls))) == 0.0;
    }
  }

  lemma SumAppend(xs: seq<real>, x: real)
    ensures Sum(xs + [x]) == Sum(xs) + x
  {
    assert Init(xs + [x]) == xs;
  }

  /** The two-sided expectancy formula is the plain mean of the trades. */
  lemma ExpectancyIsMeanPnl(pnls: seq<real>)
    ensures Compute(pnls).expectancy == Compute(pnls).avgTradePnl
  {
    hide Rate, Winners, Losers, Sum, Expectancy, Share;
    OutcomesPartition(pnls);
    if pnls != [] {
      ShareTimesMean(Winners(pnls), |pnls|);
      ShareTimesMean(Losers(pnls), |pnls|);
      NegativeMean(Losers(pnls));
      ExpectancyFromShares(Rate(|Winners(pnls)|, |pnls|), Mean(Winners(pnls)),
                           Rate(|Losers(pnls)|, |pnls|), Mean(Losers(pnls)));
      AddQuotients(Sum(Winners(pnls)), Sum(Losers(pnls)), |pnls| as real);
    } else {
      NoTradesNoExpectancy();
    }
  }

  lemma NoTradesNoExpectancy()
    ensures Compute([]).expectancy == 0.0
  {
  }

  lemma ExpectancyFromShares(winRate: real, avgWin: real, lossRate: real, avgLoss: real)
    requires Abs(avgLoss) == -avgLoss
    ensures Expectancy(winRate * 100.0, avgWin, lossRate, avgLoss) == Share(winRate, avgWin) + Share(lossRate, avgLoss)
  {
    assert winRate * 100.0 / 100.0 == winRate;
    assert lossRate * -avgLoss == -(lossRate * avgLoss);
  }

  function Share(rate: real, mean: real): real { rate * mean }

  lemma AddQuotients(a: real, b: real, n: real)
    requires n != 0.0
    ensures a / n + b / n == (a + b) / n
  {
  }

  /** A side's share of the trades times its mean is its part of the overall mean. */
  lemma ShareTimesMean(side: seq<real>, n: nat)
    requires n > 0
    ensures Share(Rate(|side|, n), Mean(side)) == Sum(side) / n as real
  {
    var r, m := Rate(|side|, n), Mean(side);
    if side != [] {
      var k := |side| as real;
      assert k * m == Sum(side);
      assert r * m == k / n as real * m == k * m / n as real;
    }
  }

  lemma NegativeMean(losers: seq<real>)
    requires losers != [] ==> Sum(losers) < 0.0
    ensures Abs(Mean(losers)) == -Mean(losers)
  {
    if losers != [] {
      var k := |losers| as real;
      assert Mean(losers) * k == Sum(losers);
      assert Mean(losers) >= 0.0 ==> Mean(losers) * k >= 0.0;
    }
  }

  /** The trades with a profit of the given sign. */
  ghost function Outcomes(pnls: seq<real>, sign: int): set<nat> {
    set i: nat | i < |pnls| && (if sign > 0 then pnls[i] > 0.0 else if sign < 0 then pnls[i] < 0.0 else pnls[i] == 0.0)
  }

  /** The counts count the outcomes. */
  lemma CountsCountOutcomes(pnls: seq<real>)
    ensures var s := Compute(pnls);
      && s.total == |pnls| && s.winning == |Outcomes(pnls, 1)| && s.losing == |Outcomes(pnls, -1)|
      && s.breakEven == |Outcomes(pnls, 0)|
  {
    hide Rate, Winners, Losers, Evens, Sum, Mean, Outcomes, Expectancy;
    OutcomesCounted(pnls);
  }

  /** An average times its number of trades. */
  function Total(average: real, n: nat): real { average * n as real }

  /** Averages and win rate give back the totals: the trades' sum, the sum of their sizes, and
      the number of winners; and the profit factor is the ratio of the gain to the loss. */
  lemma AveragesGiveBackTotals(pnls: seq<real>)
    ensures var s := Compute(pnls);
      && Total(s.avgTradePnl, s.total) == Sum(pnls)
      && Total(s.avgWin, s.winning) + Total(s.avgLoss, s.losing) == Sum(pnls)
      && Total(s.avgWin, s.winning) - Total(s.avgLoss, s.losing) == SumOfSizes(pnls)
      && Total(s.winRatePct, s.total) == Total(100.0, s.winning)
      && (s.profitFactor.Some? && s.total > 0 ==>
            -s.profitFactor.value * Total(s.avgLoss, s.losing) == Total(s.avgWin, s.winning))
  {
    hide Rate, Winners, Losers, Evens, Sum, Mean, SumOfSizes, Expectancy, Total;
    OutcomesPartition(pnls);
    MeanTimesCount(pnls);
    MeanTimesCount(Winners(pnls));
    MeanTimesCount(Losers(pnls));
    RateTimesCount(|Winners(pnls)|, |pnls|);
    SizesAddUp(pnls);
    EmptySum(Losers(pnls));
    if Sum(Losers(pnls)) < 0.0 {
      FactorTimesLoss(Sum(Winners(pnls)), Sum(Losers(pnls)));
    }
  }

  /** Absolute profits and losses added up. */
  function SumOfSizes(pnls: seq<real>): real {
    if pnls == [] then 0.0 else SumOfSizes(Init(pnls)) + Abs(Last(pnls))
  }

  lemma {:induction false} SizesAddUp(pnls: seq<real>)
    ensures SumOfSizes(pnls) == Sum(Winners(pnls)) - Sum(Losers(pnls))
  {
    if pnls != [] {
      SizesAddUp(Init(pnls));
      SumAppend(Winners(Init(pnls)), Last(pnls));
      SumAppend(Losers(Init(pnls)), Last(pnls));
      assert Last(pnls) <= 0.0 ==> Winners(pnls) == Winners(Init(pnls));
      assert Last(pnls) >= 0.0 ==> Losers(pnls) == Losers(Init(pnls));
    }
  }

  lemma MeanTimesCount(xs: seq<real>)
    ensures Total(Mean(xs), |xs|) == Sum(xs)
  {
    hide Sum;
    EmptySum(xs);
  }

  lemma EmptySum(xs: seq<real>)
    ensures xs == [] ==> Sum(xs) == 0.0
  {
  }

  lemma RateTimesCount(a: nat, n: nat)
    requires a <= n
    ensures Total(Rate(a, n) * 100.0, n) == Total(100.0, a)
  {
    if n > 0 {
      assert a as real / n as real * n as real == a as real;
    }
  }

  lemma FactorTimesLoss(gain: real, loss: real)
    requires loss < 0.0
    ensures -(gain / Abs(loss)) * loss == gain
  {
    var f := gain / Abs(loss);
    assert f * Abs(loss) == gain;
    assert -f * loss == f * Abs(loss);
  }

  lemma {:induction false} OutcomesCounted(pnls: seq<real>)
    ensures |Winners(pnls)| == |Outcomes(pnls, 1)|
    ensures |Losers(pnls)| == |Outcomes(pnls, -1)|
    ensures |Evens(pnls)| == |Outcomes(pnls, 0)|
  {
    if pnls != [] {
      OutcomesCounted(Init(pnls));
      OneOutcomeMore(pnls, 1);
      OneOutcomeMore(pnls, -1);
      OneOutcomeMore(pnls, 0);
      hide Outcomes;
    }
  }

  lemma OneOutcomeMore(pnls: seq<real>, sign: int)
    requires pnls != []
    ensures var x := Last(pnls);
      |Outcomes(pnls, sign)| == |Outcomes(Init(pnls), sign)|
        + if (if sign > 0 then x > 0.0 else if sign < 0 then x < 0.0 else x == 0.0) then 1 else 0
  {
    var x, n: nat := Last(pnls), |pnls| - 1;
    var before := Outcomes(Init(pnls), sign);
    if if sign > 0 then x > 0.0 else if sign < 0 then x < 0.0 else x == 0.0 {
      assert Outcomes(pnls, sign) == before + {n};
    } else {
      assert Outcomes(pnls, sign) == before;
    }
  }

  /** Outcomes partition the trades; the profit factor is infinite exactly when there are
      trades and none lost, and a finite one above one means an overall gain. */
  lemma ProfitFactorTellsGain(pnls: seq<real>)
    ensures var s := Compute(pnls);
      && s.winning + s.losing + s.breakEven == s.total
      && (s.profitFactor.None? <==> s.losing == 0 && s.total > 0)
      && (s.profitFactor.Some? ==> (s.profitFactor.value > 1.0 <==> Sum(pnls) > 0.0))
  {
    hide Rate, Winners, Losers, Mean, Evens;
    OutcomesPartition(pnls);
    var gain, loss := Sum(Winners(pnls)), Abs(Sum(Losers(pnls)));
    if loss > 0.0 {
      RatioAboveOne(gain, loss);
    }
  }

  lemma RatioAboveOne(a: real, b: real)
    requires b > 0.0
    ensures a / b > 1.0 <==> a > b
  {
    var f := a / b;
    assert f * b == a;
    assert f > 1.0 ==> (f - 1.0) * b > 0.0;
    assert f <= 1.0 ==> (1.0 - f) * b >= 0.0;
  }
}
