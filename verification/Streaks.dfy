/** Winning and losing streaks of a trade list. */
module Streaks {
  import opened Numbers

  /** `np.sign`. */
  function Sign(x: real): int { if x > 0.0 then 1 else if x < 0.0 then -1 else 0 }

  /** Trades `i` up to, but not including, `j` all have the given outcome. */
  ghost predicate Block(pnls: seq<real>, i: int, j: int, sign: int) {
    0 <= i <= j <= |pnls| && forall k :: i <= k < j ==> Sign(pnls[k]) == sign
  }

  /** The longest block among the first `k` trades. */
  ghost predicate LongestUpTo(pnls: seq<real>, k: int, sign: int, length: int) {
    && (exists i, j :: Block(pnls, i, j, sign) && j <= k && j - i == length)
    && forall i, j :: Block(pnls, i, j, sign) && j <= k ==> j - i <= length
  }

  ghost predicate IsLongest(pnls: seq<real>, sign: int, length: int) {
    LongestUpTo(pnls, |pnls|, sign, length)
  }

  /** A block that cannot be extended to the left. */
  ghost predicate MaximalBlockEnding(pnls: seq<real>, j: int, sign: int, length: int) {
    && Block(pnls, j - length, j, sign)
    && (length < j ==> Sign(pnls[j - length - 1]) != sign)
  }

  /** Trade `e` is the last of the first `k` that was not even. */
  ghost predicate LastUneven(pnls: seq<real>, k: int, e: int) {
    0 <= e < k <= |pnls| && Sign(pnls[e]) != 0 && forall m :: e < m < k ==> Sign(pnls[m]) == 0
  }

  /** Among the first `k` trades, `streak` is the length and `sign` the outcome of the block
      ending at the last trade that was not even; zero if there is none. */
  ghost predicate CurrentUpTo(pnls: seq<real>, k: int, sign: int, streak: int) {
    && (forall e :: LastUneven(pnls, k, e) ==> Sign(pnls[e]) == sign && MaximalBlockEnding(pnls, e + 1, sign, streak))
    && ((forall e :: !LastUneven(pnls, k, e)) ==> streak == 0)
  }

  /** The signed length of that block over all trades. */
  ghost predicate IsCurrent(pnls: seq<real>, signed: int) {
    CurrentUpTo(pnls, |pnls|, if signed < 0 then -1 else 1, AbsInt(signed))
  }

  /** One pass over the outcomes. Fewer than two trades report no streaks at all. */
  method StreakMetrics(pnls: seq<real>) returns (maxWin: int, maxLoss: int, current: int)
    ensures |pnls| >= 2 ==> IsLongest(pnls, 1, maxWin) && IsLongest(pnls, -1, maxLoss) && IsCurrent(pnls, current)
    ensures |pnls| < 2 ==> maxWin == 0 && maxLoss == 0 && current == 0
  {
    hide LongestUpTo, MaximalBlockEnding, CurrentUpTo, IsCurrent;
    maxWin, maxLoss, current := 0, 0, 0;
    if |pnls| < 2 {
      return;
    }
    var sign, winRun, lossRun, streak := 0, 0, 0, 0;
    NoTrades(pnls, 1);
    NoTrades(pnls, -1);
    var k := 0;
    while k < |pnls|
      invariant 0 <= k <= |pnls| && maxWin >= 0 && maxLoss >= 0
      invariant MaximalBlockEnding(pnls, k, 1, winRun) && LongestUpTo(pnls, k, 1, maxWin)
      invariant MaximalBlockEnding(pnls, k, -1, lossRun) && LongestUpTo(pnls, k, -1, maxLoss)
      invariant CurrentUpTo(pnls, k, sign, streak) && (sign == 1 || sign == -1 || (sign == 0 && streak == 0))
    {
      OneMoreTrade(pnls, k, 1, winRun, maxWin);
      OneMoreTrade(pnls, k, -1, lossRun, maxLoss);
      if pnls[k] > 0.0 {
        winRun := winRun + 1;
        lossRun := 0;
        maxWin := MaxInt(maxWin, winRun);
        sign, streak := 1, winRun;
        NewCurrent(pnls, k, 1, winRun);
      } else if pnls[k] < 0.0 {
        lossRun := lossRun + 1;
        winRun := 0;
        maxLoss := MaxInt(maxLoss, lossRun);
        sign, streak := -1, lossRun;
        NewCurrent(pnls, k, -1, lossRun);
      } else {
        winRun, lossRun := 0, 0;
        SameCurrent(pnls, k, sign, streak);
      }
      k := k + 1;
    }
    SignedStreak(pnls, sign, streak);
    current := streak * sign;
  }

  lemma NewCurrent(pnls: seq<real>, k: nat, sign: int, run: int)
    requires k < |pnls| && Sign(pnls[k]) == sign != 0 && MaximalBlockEnding(pnls, k + 1, sign, run)
    ensures CurrentUpTo(pnls, k + 1, sign, run)
  {
    hide MaximalBlockEnding;
    assert LastUneven(pnls, k + 1, k);
  }

  lemma SameCurrent(pnls: seq<real>, k: nat, sign: int, streak: int)
    requires k < |pnls| && Sign(pnls[k]) == 0 && CurrentUpTo(pnls, k, sign, streak)
    ensures CurrentUpTo(pnls, k + 1, sign, streak)
  {
    hide MaximalBlockEnding;
    forall e
      ensures LastUneven(pnls, k + 1, e) <==> LastUneven(pnls, k, e)
    {
      if LastUneven(pnls, k, e) {
        assert forall m :: e < m < k + 1 ==> Sign(pnls[m]) == 0;
      }
    }
  }

  lemma SignedStreak(pnls: seq<real>, sign: int, streak: int)
    requires CurrentUpTo(pnls, |pnls|, sign, streak)
    ensures IsCurrent(pnls, if sign == -1 then -streak else streak)
  {
    hide MaximalBlockEnding;
    forall e | LastUneven(pnls, |pnls|, e)
      ensures streak > 0 && (sign == 1 || sign == -1)
    {
      NonEmptyBlock(pnls, e, streak);
    }
  }

  lemma NonEmptyBlock(pnls: seq<real>, e: int, length: int)
    requires 0 <= e < |pnls| && MaximalBlockEnding(pnls, e + 1, Sign(pnls[e]), length)
    ensures length > 0
  {
  }

  lemma NoTrades(pnls: seq<real>, sign: int)
    ensures MaximalBlockEnding(pnls, 0, sign, 0) && LongestUpTo(pnls, 0, sign, 0) && CurrentUpTo(pnls, 0, 0, 0)
  {
    assert Block(pnls, 0, 0, sign);
  }

  /** One more trade extends the block ending here or starts it afresh. */
  lemma OneMoreTrade(pnls: seq<real>, k: nat, sign: int, run: int, longest: int)
    requires k < |pnls|
    requires MaximalBlockEnding(pnls, k, sign, run) && LongestUpTo(pnls, k, sign, longest)
    ensures var run' := if Sign(pnls[k]) == sign then run + 1 else 0;
      MaximalBlockEnding(pnls, k + 1, sign, run') && LongestUpTo(pnls, k + 1, sign, MaxInt(longest, run'))
  {
    var run' := if Sign(pnls[k]) == sign then run + 1 else 0;
    assert Block(pnls, k + 1 - run', k + 1, sign);
    assert Block(pnls, 0, 0, sign);
    forall i, j | Block(pnls, i, j, sign) && j <= k + 1
      ensures j - i <= MaxInt(longest, run')
    {
      if j == k + 1 && i < j {
        assert Sign(pnls[k]) == sign;
        assert i >= k - run;
      }
    }
  }
}
