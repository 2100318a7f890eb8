/**
 * The indicator engine of analysis/indicators.py: unadjusted exponential
 * smoothing (pandas `ewm(span=period, adjust=False).mean()`), RSI, ATR, swing
 * point detection, the recent-swing lookup and the enrichment of a frame.
 */
module Indicators {
  import opened Wrappers
  import opened Constants
  import opened PriceSeries

  // ---------------------------------------------------------------------------
  // Sequence extrema (pandas `.max()` / `.min()` of a non-empty slice)
  // ---------------------------------------------------------------------------

  function SeqMax(s: seq<real>): (m: real)
    requires |s| > 0
    ensures m in s
    ensures forall i :: 0 <= i < |s| ==> s[i] <= m
  {
    if |s| == 1 then s[0]
    else
      var m' := SeqMax(s[..|s| - 1]);
      assert forall i :: 0 <= i < |s| - 1 ==> s[..|s| - 1][i] == s[i];
      if s[|s| - 1] > m' then s[|s| - 1] else m'
  }

  function SeqMin(s: seq<real>): (m: real)
    requires |s| > 0
    ensures m in s
    ensures forall i :: 0 <= i < |s| ==> m <= s[i]
  {
    if |s| == 1 then s[0]
    else
      var m' := SeqMin(s[..|s| - 1]);
      assert forall i :: 0 <= i < |s| - 1 ==> s[..|s| - 1][i] == s[i];
      if s[|s| - 1] < m' then s[|s| - 1] else m'
  }

  function Abs(x: real): real
  {
    if x < 0.0 then -x else x
  }

  // ---------------------------------------------------------------------------
  // Exponential moving average
  // ---------------------------------------------------------------------------

  /** The smoothing factor of `ewm(span=period)`; pandas rejects a span below 1. */
  function Alpha(period: int): (a: real)
    requires period >= 1
    ensures 0.0 < a <= 1.0
  {
    2.0 / (period as real + 1.0)
  }

  /**
   * Unadjusted exponential smoothing: the first output is the first input and
   * each later output mixes the new input with the previous output.
   */
  function Ema(xs: seq<real>, alpha: real): (e: seq<real>)
    ensures |e| == |xs|
    decreases |xs|
  {
    if |xs| == 0 then []
    else if |xs| == 1 then [xs[0]]
    else
      var prev := Ema(xs[..|xs| - 1], alpha);
      prev + [alpha * xs[|xs| - 1] + (1.0 - alpha) * prev[|prev| - 1]]
  }

  /** Smoothing is causal: the first k outputs are the smoothing of the first k inputs. */
  lemma {:induction false} EmaPrefix(xs: seq<real>, alpha: real, k: nat)
    requires k <= |xs|
    ensures Ema(xs[..k], alpha) == Ema(xs, alpha)[..k]
  {
    if k == |xs| {
      assert xs[..k] == xs;
    } else if |xs| >= 2 {
      var init := xs[..|xs| - 1];
      EmaPrefix(init, alpha, k);
      assert init[..k] == xs[..k];
      assert Ema(xs, alpha)[..|xs| - 1] == Ema(init, alpha);
    }
  }

  /** The EMA is seeded with the first value. */
  lemma EmaSeed(xs: seq<real>, alpha: real)
    requires |xs| > 0
    ensures Ema(xs, alpha)[0] == xs[0]
  {
    EmaPrefix(xs, alpha, 1);
    assert xs[..1] == [xs[0]];
  }

  /** e[t] = alpha * x[t] + (1 - alpha) * e[t-1] for every t >= 1. */
  lemma EmaRecurrence(xs: seq<real>, alpha: real, t: nat)
    requires 1 <= t < |xs|
    ensures Ema(xs, alpha)[t] == alpha * xs[t] + (1.0 - alpha) * Ema(xs, alpha)[t - 1]
  {
    EmaPrefix(xs, alpha, t + 1);
    EmaPrefix(xs, alpha, t);
    assert xs[..t + 1][..t] == xs[..t];
  }

  lemma MixAtLeast(alpha: real, x: real, y: real, lo: real)
    requires 0.0 <= alpha <= 1.0 && lo <= x && lo <= y
    ensures lo <= alpha * x + (1.0 - alpha) * y
  {
    assert alpha * (x - lo) >= 0.0;
    assert (1.0 - alpha) * (y - lo) >= 0.0;
  }

  lemma MixAtMost(alpha: real, x: real, y: real, hi: real)
    requires 0.0 <= alpha <= 1.0 && x <= hi && y <= hi
    ensures alpha * x + (1.0 - alpha) * y <= hi
  {
    assert alpha * (hi - x) >= 0.0;
    assert (1.0 - alpha) * (hi - y) >= 0.0;
  }

  /** A lower bound of every input bounds every output. */
  lemma {:induction false} EmaAtLeast(xs: seq<real>, alpha: real, lo: real)
    requires 0.0 <= alpha <= 1.0
    requires forall i :: 0 <= i < |xs| ==> lo <= xs[i]
    ensures forall i :: 0 <= i < |xs| ==> lo <= Ema(xs, alpha)[i]
  {
    if |xs| >= 2 {
      var init := xs[..|xs| - 1];
      EmaAtLeast(init, alpha, lo);
      var prev := Ema(init, alpha);
      MixAtLeast(alpha, xs[|xs| - 1], prev[|prev| - 1], lo);
    }
  }

  /** An upper bound of every input bounds every output. */
  lemma {:induction false} EmaAtMost(xs: seq<real>, alpha: real, hi: real)
    requires 0.0 <= alpha <= 1.0
    requires forall i :: 0 <= i < |xs| ==> xs[i] <= hi
    ensures forall i :: 0 <= i < |xs| ==> Ema(xs, alpha)[i] <= hi
  {
    if |xs| >= 2 {
      var init := xs[..|xs| - 1];
      EmaAtMost(init, alpha, hi);
      var prev := Ema(init, alpha);
      MixAtMost(alpha, xs[|xs| - 1], prev[|prev| - 1], hi);
    }
  }

  /** e[t] lies between the minimum and the maximum of x[0..t]. */
  lemma EmaWithinRange(xs: seq<real>, alpha: real, t: nat)
    requires 0.0 <= alpha <= 1.0
    requires t < |xs|
    ensures SeqMin(xs[..t + 1]) <= Ema(xs, alpha)[t] <= SeqMax(xs[..t + 1])
  {
    var p := xs[..t + 1];
    EmaPrefix(xs, alpha, t + 1);
    EmaAtLeast(p, alpha, SeqMin(p));
    EmaAtMost(p, alpha, SeqMax(p));
    assert Ema(p, alpha)[t] == Ema(xs, alpha)[t];
  }

  /** `calculate_ema`: the unadjusted EMA with alpha = 2 / (period + 1). */
  function CalculateEma(data: seq<real>, period: int): (e: seq<real>)
    requires period >= 1
    ensures |e| == |data|
    ensures |data| > 0 ==> e[0] == data[0]
    ensures forall t :: 1 <= t < |data| ==>
              e[t] == Alpha(period) * data[t] + (1.0 - Alpha(period)) * e[t - 1]
  {
    EmaUnfolds(data, Alpha(period));
    Ema(data, Alpha(period))
  }

  /** EmaSeed and EmaRecurrence for every index at once. */
  lemma EmaUnfolds(xs: seq<real>, alpha: real)
    ensures |xs| > 0 ==> Ema(xs, alpha)[0] == xs[0]
    ensures forall t :: 1 <= t < |xs| ==>
              Ema(xs, alpha)[t] == alpha * xs[t] + (1.0 - alpha) * Ema(xs, alpha)[t - 1]
  {
    if |xs| > 0 {
      EmaSeed(xs, alpha);
    }
    forall t | 1 <= t < |xs|
      ensures Ema(xs, alpha)[t] == alpha * xs[t] + (1.0 - alpha) * Ema(xs, alpha)[t - 1]
    {
      EmaRecurrence(xs, alpha, t);
    }
  }

  // ---------------------------------------------------------------------------
  // RSI
  // ---------------------------------------------------------------------------

  /** `data.diff()` without its leading NaN: ds[i] is the change into bar i + 1. */
  function Deltas(xs: seq<real>): (ds: seq<real>)
    ensures |ds| == if |xs| == 0 then 0 else |xs| - 1
    ensures forall i :: 0 <= i < |ds| ==> ds[i] == xs[i + 1] - xs[i]
  {
    if |xs| <= 1 then [] else seq(|xs| - 1, i requires 0 <= i < |xs| - 1 => xs[i + 1] - xs[i])
  }

  /** `gains[gains < 0] = 0`. */
  function Gains(ds: seq<real>): (g: seq<real>)
    ensures |g| == |ds|
    ensures forall i :: 0 <= i < |ds| ==> g[i] >= 0.0
  {
    seq(|ds|, i requires 0 <= i < |ds| => if ds[i] < 0.0 then 0.0 else ds[i])
  }

  /** `losses[losses > 0] = 0; losses = abs(losses)`. */
  function Losses(ds: seq<real>): (l: seq<real>)
    ensures |l| == |ds|
    ensures forall i :: 0 <= i < |ds| ==> l[i] >= 0.0
  {
    seq(|ds|, i requires 0 <= i < |ds| => if ds[i] > 0.0 then 0.0 else -ds[i])
  }

  /** A change splits into a gain and a loss magnitude, at most one of them non-zero. */
  lemma GainsLossesSplitDeltas(ds: seq<real>, i: nat)
    requires i < |ds|
    ensures Gains(ds)[i] - Losses(ds)[i] == ds[i]
    ensures Gains(ds)[i] == 0.0 || Losses(ds)[i] == 0.0
  {
  }

  /**
   * `100 - 100 / (1 + avg_gain / avg_loss)` with float division: a zero average
   * loss makes RS infinite and the RSI 100, unless the average gain is zero as
   * well, when 0 / 0 is NaN.
   */
  function RsiValue(avgGain: real, avgLoss: real): (r: Option<real>)
    requires avgGain >= 0.0 && avgLoss >= 0.0
    ensures r.None? <==> avgGain == 0.0 && avgLoss == 0.0
    ensures r.Some? ==> 0.0 <= r.value <= 100.0
    ensures avgLoss == 0.0 && avgGain > 0.0 ==> r == Some(100.0)
    ensures avgLoss > 0.0 ==> (r.value >= 50.0 <==> avgGain >= avgLoss)
  {
    if avgLoss == 0.0 then
      if avgGain == 0.0 then None else Some(100.0)
    else
      var rs := avgGain / avgLoss;
      assert rs >= 0.0;
      assert 100.0 / (1.0 + rs) <= 100.0;
      assert rs >= 1.0 <==> avgGain >= avgLoss;
      assert 100.0 / (1.0 + rs) <= 50.0 <==> rs >= 1.0;
      Some(100.0 - 100.0 / (1.0 + rs))
  }

  /**
   * The smoothed gains and losses of a close series (over its changes):
   * `ewm(span=period, adjust=False)`, seeded with the first change.
   */
  function AverageGains(closes: seq<real>, period: int): (a: seq<real>)
    requires period >= 1
    ensures |a| == |Deltas(closes)|
    ensures forall i :: 0 <= i < |a| ==> a[i] >= 0.0
  {
    EmaAtLeast(Gains(Deltas(closes)), Alpha(period), 0.0);
    Ema(Gains(Deltas(closes)), Alpha(period))
  }

  function AverageLosses(closes: seq<real>, period: int): (a: seq<real>)
    requires period >= 1
    ensures |a| == |Deltas(closes)|
    ensures forall i :: 0 <= i < |a| ==> a[i] >= 0.0
  {
    EmaAtLeast(Losses(Deltas(closes)), Alpha(period), 0.0);
    Ema(Losses(Deltas(closes)), Alpha(period))
  }

  /**
   * `calculate_rsi`: bar 0 has no change and so no RSI; every defined value lies
   * in [0, 100].
   */
  function CalculateRsi(closes: seq<real>, period: int): (rsi: seq<Option<real>>)
    requires period >= 1
    ensures |rsi| == |closes|
    ensures |closes| > 0 ==> rsi[0].None?
    ensures forall t :: 0 <= t < |rsi| && rsi[t].Some? ==> 0.0 <= rsi[t].value <= 100.0
    ensures forall t :: 1 <= t < |closes| ==>
              rsi[t] == RsiValue(AverageGains(closes, period)[t - 1], AverageLosses(closes, period)[t - 1])
  {
    if |closes| == 0 then []
    else
      var avgGain := AverageGains(closes, period);
      var avgLoss := AverageLosses(closes, period);
      [None] + seq(|closes| - 1, i requires 0 <= i < |closes| - 1 => RsiValue(avgGain[i], avgLoss[i]))
  }

  /** Without a down move the average loss stays 0, so the RSI is 100 or NaN, never in between. */
  lemma RsiWithoutLosses(closes: seq<real>, period: int, t: nat)
    requires period >= 1
    requires forall i :: 0 < i < |closes| ==> closes[i - 1] <= closes[i]
    requires t < |closes|
    ensures CalculateRsi(closes, period)[t] == None || CalculateRsi(closes, period)[t] == Some(100.0)
  {
    if t > 0 {
      var ls := Losses(Deltas(closes));
      assert forall i :: 0 <= i < |ls| ==> ls[i] <= 0.0 by {
        forall i | 0 <= i < |ls| ensures ls[i] <= 0.0 {
          assert closes[i] <= closes[i + 1];
        }
      }
      EmaAtMost(ls, Alpha(period), 0.0);
      assert AverageLosses(closes, period)[t - 1] == 0.0;
    }
  }

  /** On a flat close series every change is 0, so 0 / 0 leaves the RSI undefined everywhere. */
  lemma RsiUndefinedOnFlatSeries(closes: seq<real>, period: int, t: nat)
    requires period >= 1
    requires forall i :: 0 < i < |closes| ==> closes[i] == closes[0]
    requires t < |closes|
    ensures CalculateRsi(closes, period)[t].None?
  {
    if t > 0 {
      var ds := Deltas(closes);
      assert forall i :: 0 <= i < |ds| ==> ds[i] == 0.0 by {
        forall i | 0 <= i < |ds| ensures ds[i] == 0.0 {
          assert closes[i + 1] == closes[0];
          assert i == 0 || closes[i] == closes[0];
        }
      }
      EmaAtMost(Gains(ds), Alpha(period), 0.0);
      EmaAtMost(Losses(ds), Alpha(period), 0.0);
      assert AverageGains(closes, period)[t - 1] == 0.0;
      assert AverageLosses(closes, period)[t - 1] == 0.0;
    }
  }

  // ---------------------------------------------------------------------------
  // ATR
  // ---------------------------------------------------------------------------

  function Max3(a: real, b: real, c: real): (m: real)
    ensures m >= a && m >= b && m >= c
    ensures m == a || m == b || m == c
  {
    if a >= b && a >= c then a else if b >= c then b else c
  }

  /**
   * The true range of bar t: the largest of high - low and the distances of
   * high and low from the previous close; the first bar has no previous close
   * (pandas' `max(axis=1)` skips the NaN terms).
   */
  function TrueRangeAt(bars: seq<Bar>, t: nat): (tr: real)
    requires t < |bars|
    ensures t == 0 ==> tr == bars[0].high - bars[0].low
    ensures t >= 1 ==> tr >= bars[t].high - bars[t].low && tr >= 0.0
    ensures t >= 1 ==>
              tr == bars[t].high - bars[t].low
              || tr == Abs(bars[t].high - bars[t - 1].close)
              || tr == Abs(bars[t].low - bars[t - 1].close)
  {
    if t == 0 then bars[0].high - bars[0].low
    else Max3(bars[t].high - bars[t].low,
              Abs(bars[t].high - bars[t - 1].close),
              Abs(bars[t].low - bars[t - 1].close))
  }

  /** The true-range column; from bar 1 on it is never negative. */
  function TrueRange(bars: seq<Bar>): (tr: seq<real>)
    ensures |tr| == |bars|
    ensures forall t :: 0 <= t < |bars| ==> tr[t] == TrueRangeAt(bars, t)
    ensures forall t :: 1 <= t < |bars| ==> tr[t] >= 0.0
  {
    seq(|bars|, t requires 0 <= t < |bars| => TrueRangeAt(bars, t))
  }

  /** `calculate_atr`: the EMA of the true range. */
  function CalculateAtr(bars: seq<Bar>, period: int): (atr: seq<real>)
    requires period >= 1
    ensures |atr| == |bars|
    ensures |bars| > 0 ==> atr[0] == TrueRange(bars)[0]
    ensures forall t :: 1 <= t < |bars| ==>
              atr[t] == Alpha(period) * TrueRange(bars)[t] + (1.0 - Alpha(period)) * atr[t - 1]
  {
    var tr := TrueRange(bars);
    var atr := CalculateEma(tr, period);
    assert |bars| > 0 ==> atr[0] == tr[0];
    atr
  }

  /** When the first bar has high >= low, every ATR value is non-negative; ATR starts at bar 0's range. */
  lemma AtrNonNegative(bars: seq<Bar>, period: int)
    requires period >= 1
    requires |bars| > 0 ==> bars[0].high >= bars[0].low
    ensures forall t :: 0 <= t < |bars| ==> CalculateAtr(bars, period)[t] >= 0.0
    ensures |bars| > 0 ==> CalculateAtr(bars, period)[0] == bars[0].high - bars[0].low
  {
    var tr := TrueRange(bars);
    EmaAtLeast(tr, Alpha(period), 0.0);
    if |bars| > 0 {
      EmaSeed(tr, Alpha(period));
    }
  }

  // ---------------------------------------------------------------------------
  // Swing points
  // ---------------------------------------------------------------------------

  /** `find_swing_highs` as a value: the marks the loop leaves in the series. */
  function SwingHighs(high: seq<real>, lookback: nat): (marks: seq<Option<real>>)
    ensures |marks| == |high|
  {
    seq(|high|, i requires 0 <= i < |high| =>
      if lookback <= i < |high| - lookback && high[i] == SeqMax(high[i - lookback..i + lookback + 1])
      then Some(high[i]) else None)
  }

  /** `find_swing_lows` as a value. */
  function SwingLows(low: seq<real>, lookback: nat): (marks: seq<Option<real>>)
    ensures |marks| == |low|
  {
    seq(|low|, i requires 0 <= i < |low| =>
      if lookback <= i < |low| - lookback && low[i] == SeqMin(low[i - lookback..i + lookback + 1])
      then Some(low[i]) else None)
  }

  /** Bar i is a swing high: a full window of `lookback` bars each side, none higher. */
  ghost predicate IsSwingHigh(high: seq<real>, lookback: nat, i: int)
  {
    && lookback <= i < |high| - lookback
    && forall j :: i - lookback <= j <= i + lookback ==> high[j] <= high[i]
  }

  /** Bar i is a swing low: a full window of `lookback` bars each side, none lower. */
  ghost predicate IsSwingLow(low: seq<real>, lookback: nat, i: int)
  {
    && lookback <= i < |low| - lookback
    && forall j :: i - lookback <= j <= i + lookback ==> low[i] <= low[j]
  }

  /**
   * Only bars in [lookback, len - lookback) can be marked; such a bar is marked,
   * with its own high, exactly when no bar of its window is higher.
   */
  lemma SwingHighsMarkSwingPoints(high: seq<real>, lookback: nat, i: nat)
    requires i < |high|
    ensures SwingHighs(high, lookback)[i] == if IsSwingHigh(high, lookback, i) then Some(high[i]) else None
    ensures i < lookback || i >= |high| - lookback ==> SwingHighs(high, lookback)[i].None?
  {
    if lookback <= i < |high| - lookback {
      var w := high[i - lookback..i + lookback + 1];
      var m := SeqMax(w);
      assert forall j :: i - lookback <= j <= i + lookback ==> high[j] == w[j - (i - lookback)];
      if IsSwingHigh(high, lookback, i) {
        var k :| 0 <= k < |w| && w[k] == m;
        assert high[i] <= m && m <= high[i];
      } else {
        var j :| i - lookback <= j <= i + lookback && high[j] > high[i];
        assert w[j - (i - lookback)] <= m;
      }
    }
  }

  /** The mirror of SwingHighsMarkSwingPoints for lows. */
  lemma SwingLowsMarkSwingPoints(low: seq<real>, lookback: nat, i: nat)
    requires i < |low|
    ensures SwingLows(low, lookback)[i] == if IsSwingLow(low, lookback, i) then Some(low[i]) else None
    ensures i < lookback || i >= |low| - lookback ==> SwingLows(low, lookback)[i].None?
  {
    if lookback <= i < |low| - lookback {
      var w := low[i - lookback..i + lookback + 1];
      var m := SeqMin(w);
      assert forall j :: i - lookback <= j <= i + lookback ==> low[j] == w[j - (i - lookback)];
      if IsSwingLow(low, lookback, i) {
        var k :| 0 <= k < |w| && w[k] == m;
        assert m <= low[i] && low[i] <= m;
      } else {
        var j :| i - lookback <= j <= i + lookback && low[j] < low[i];
        assert m <= w[j - (i - lookback)];
      }
    }
  }

  /**
   * `find_swing_highs`: a NaN-filled series whose entries the loop over
   * [lookback, len - lookback) sets in place.
   */
  method FindSwingHighs(high: seq<real>, lookback: nat) returns (marks: seq<Option<real>>)
    ensures marks == SwingHighs(high, lookback)
  {
    var series := new Option<real>[|high|](_ => None);
    ghost var spec := SwingHighs(high, lookback);
    var stop := |high| - lookback;
    var i := lookback;
    while i < stop
      invariant lookback <= i
      invariant i <= stop || i == lookback
      invariant forall k :: 0 <= k < i && k < series.Length ==> series[k] == spec[k]
      invariant forall k :: i <= k < series.Length ==> series[k] == None
    {
      var windowMax := SeqMax(high[i - lookback..i + lookback + 1]);
      assert spec[i] == if high[i] == windowMax then Some(high[i]) else None;
      if high[i] == windowMax {
        series[i] := Some(high[i]);
      }
      i := i + 1;
    }
    marks := series[..];
  }

  /** `find_swing_lows`: the mirror of FindSwingHighs with the window minimum. */
  method FindSwingLows(low: seq<real>, lookback: nat) returns (marks: seq<Option<real>>)
    ensures marks == SwingLows(low, lookback)
  {
    var series := new Option<real>[|low|](_ => None);
    ghost var spec := SwingLows(low, lookback);
    var stop := |low| - lookback;
    var i := lookback;
    while i < stop
      invariant lookback <= i
      invariant i <= stop || i == lookback
      invariant forall k :: 0 <= k < i && k < series.Length ==> series[k] == spec[k]
      invariant forall k :: i <= k < series.Length ==> series[k] == None
    {
      var windowMin := SeqMin(low[i - lookback..i + lookback + 1]);
      assert spec[i] == if low[i] == windowMin then Some(low[i]) else None;
      if low[i] == windowMin {
        series[i] := Some(low[i]);
      }
      i := i + 1;
    }
    marks := series[..];
  }

  // ---------------------------------------------------------------------------
  // Recent swing lookup
  // ---------------------------------------------------------------------------

  /** `marks.iloc[lo:hi].dropna()` then `.iloc[-1]`: the last defined mark in [lo, hi). */
  function LastMarked(marks: seq<Option<real>>, lo: int, hi: int): (j: Option<int>)
    requires 0 <= lo && hi <= |marks|
    ensures j.Some? ==> lo <= j.value < hi && marks[j.value].Some?
    ensures j.Some? ==> forall k :: j.value < k < hi ==> marks[k].None?
    ensures j.None? ==> forall k :: lo <= k < hi ==> marks[k].None?
    decreases hi - lo
  {
    if hi <= lo then None
    else if marks[hi - 1].Some? then Some(hi - 1)
    else LastMarked(marks, lo, hi - 1)
  }

  /** The last mark in [lo, hi) depends on nothing outside [lo, hi). */
  lemma {:induction false} LastMarkedLocal(m1: seq<Option<real>>, m2: seq<Option<real>>, lo: int, hi: int)
    requires 0 <= lo && hi <= |m1| && hi <= |m2|
    requires forall k :: lo <= k < hi ==> m1[k] == m2[k]
    ensures LastMarked(m1, lo, hi) == LastMarked(m2, lo, hi)
    decreases hi - lo
  {
    if lo < hi {
      LastMarkedLocal(m1, m2, lo, hi - 1);
    }
  }

  /** `max(0, current_idx - max_bars_back)`. */
  function WindowStart(currentIdx: int, maxBarsBack: int): int
  {
    if currentIdx - maxBarsBack > 0 then currentIdx - maxBarsBack else 0
  }

  /**
   * `get_recent_swing_low`: the latest swing low (over the WHOLE series) in the
   * trailing window [max(0, idx - max_bars_back), idx), else the window's
   * minimum low. `None` is the NaN that pandas returns for an empty window.
   */
  function GetRecentSwingLow(low: seq<real>, currentIdx: int, lookback: nat, maxBarsBack: int): (r: Option<real>)
    requires 0 <= currentIdx <= |low|
    ensures r.None? <==> WindowStart(currentIdx, maxBarsBack) >= currentIdx
    ensures r.Some? ==> exists j :: WindowStart(currentIdx, maxBarsBack) <= j < currentIdx && r.value == low[j]
    ensures r.Some? ==> SeqMin(low[WindowStart(currentIdx, maxBarsBack)..currentIdx]) <= r.value
  {
    var start := WindowStart(currentIdx, maxBarsBack);
    var swings := SwingLows(low, lookback);
    match LastMarked(swings, start, currentIdx)
    case Some(j) =>
      var w := low[start..currentIdx];
      assert w[j - start] == low[j];
      Some(swings[j].value)
    case None =>
      if start < currentIdx then
        var w := low[start..currentIdx];
        var k :| 0 <= k < |w| && w[k] == SeqMin(w);
        assert low[start + k] == SeqMin(w);
        Some(SeqMin(w))
      else None
  }

  /** `get_recent_swing_high`: the mirror of GetRecentSwingLow with the window maximum. */
  function GetRecentSwingHigh(high: seq<real>, currentIdx: int, lookback: nat, maxBarsBack: int): (r: Option<real>)
    requires 0 <= currentIdx <= |high|
    ensures r.None? <==> WindowStart(currentIdx, maxBarsBack) >= currentIdx
    ensures r.Some? ==> exists j :: WindowStart(currentIdx, maxBarsBack) <= j < currentIdx && r.value == high[j]
    ensures r.Some? ==> r.value <= SeqMax(high[WindowStart(currentIdx, maxBarsBack)..currentIdx])
  {
    var start := WindowStart(currentIdx, maxBarsBack);
    var swings := SwingHighs(high, lookback);
    match LastMarked(swings, start, currentIdx)
    case Some(j) =>
      var w := high[start..currentIdx];
      assert w[j - start] == high[j];
      Some(swings[j].value)
    case None =>
      if start < currentIdx then
        var w := high[start..currentIdx];
        var k :| 0 <= k < |w| && w[k] == SeqMax(w);
        assert high[start + k] == SeqMax(w);
        Some(SeqMax(w))
      else None
  }

  /** The lookup returns the latest swing low of the window when there is one. */
  lemma RecentSwingLowIsLatest(low: seq<real>, currentIdx: int, lookback: nat, maxBarsBack: int, j: int)
    requires 0 <= currentIdx <= |low|
    requires WindowStart(currentIdx, maxBarsBack) <= j < currentIdx && IsSwingLow(low, lookback, j)
    requires forall k :: j < k < currentIdx ==> !IsSwingLow(low, lookback, k)
    ensures GetRecentSwingLow(low, currentIdx, lookback, maxBarsBack) == Some(low[j])
  {
    var start := WindowStart(currentIdx, maxBarsBack);
    var swings := SwingLows(low, lookback);
    SwingLowsMarkSwingPoints(low, lookback, j);
    forall k | j < k < currentIdx ensures swings[k].None? {
      SwingLowsMarkSwingPoints(low, lookback, k);
    }
    assert LastMarked(swings, start, currentIdx) == Some(j);
  }

  /** Without a swing low in the window, the lookup falls back to the window's minimum low. */
  lemma RecentSwingLowFallback(low: seq<real>, currentIdx: int, lookback: nat, maxBarsBack: int)
    requires 0 <= currentIdx <= |low|
    requires WindowStart(currentIdx, maxBarsBack) < currentIdx
    requires forall k :: WindowStart(currentIdx, maxBarsBack) <= k < currentIdx ==> !IsSwingLow(low, lookback, k)
    ensures GetRecentSwingLow(low, currentIdx, lookback, maxBarsBack)
            == Some(SeqMin(low[WindowStart(currentIdx, maxBarsBack)..currentIdx]))
  {
    var start := WindowStart(currentIdx, maxBarsBack);
    var swings := SwingLows(low, lookback);
    var r := LastMarked(swings, start, currentIdx);
    if r.Some? {
      SwingLowsMarkSwingPoints(low, lookback, r.value);
    }
  }

  /** The lookup returns the latest swing high of the window when there is one. */
  lemma RecentSwingHighIsLatest(high: seq<real>, currentIdx: int, lookback: nat, maxBarsBack: int, j: int)
    requires 0 <= currentIdx <= |high|
    requires WindowStart(currentIdx, maxBarsBack) <= j < currentIdx && IsSwingHigh(high, lookback, j)
    requires forall k :: j < k < currentIdx ==> !IsSwingHigh(high, lookback, k)
    ensures GetRecentSwingHigh(high, currentIdx, lookback, maxBarsBack) == Some(high[j])
  {
    var start := WindowStart(currentIdx, maxBarsBack);
    var swings := SwingHighs(high, lookback);
    SwingHighsMarkSwingPoints(high, lookback, j);
    forall k | j < k < currentIdx ensures swings[k].None? {
      SwingHighsMarkSwingPoints(high, lookback, k);
    }
    assert LastMarked(swings, start, currentIdx) == Some(j);
  }

  /** Without a swing high in the window, the lookup falls back to the window's maximum high. */
  lemma RecentSwingHighFallback(high: seq<real>, currentIdx: int, lookback: nat, maxBarsBack: int)
    requires 0 <= currentIdx <= |high|
    requires WindowStart(currentIdx, maxBarsBack) < currentIdx
    requires forall k :: WindowStart(currentIdx, maxBarsBack) <= k < currentIdx ==> !IsSwingHigh(high, lookback, k)
    ensures GetRecentSwingHigh(high, currentIdx, lookback, maxBarsBack)
            == Some(SeqMax(high[WindowStart(currentIdx, maxBarsBack)..currentIdx]))
  {
    var start := WindowStart(currentIdx, maxBarsBack);
    var swings := SwingHighs(high, lookback);
    var r := LastMarked(swings, start, currentIdx);
    if r.Some? {
      SwingHighsMarkSwingPoints(high, lookback, r.value);
    }
  }

  /**
   * The lookup at `currentIdx` depends on the bars up to `currentIdx - 1 + lookback`:
   * cutting the series anywhere from `currentIdx + lookback` on does not change it.
   */
  lemma RecentSwingLowPrefix(low: seq<real>, currentIdx: int, lookback: nat, maxBarsBack: int, m: int)
    requires 0 <= currentIdx && currentIdx + lookback <= m <= |low|
    ensures GetRecentSwingLow(low[..m], currentIdx, lookback, maxBarsBack)
            == GetRecentSwingLow(low, currentIdx, lookback, maxBarsBack)
  {
    var start := WindowStart(currentIdx, maxBarsBack);
    var cut := low[..m];
    var s1 := SwingLows(cut, lookback);
    var s2 := SwingLows(low, lookback);
    forall k | start <= k < currentIdx ensures s1[k] == s2[k] {
      if lookback <= k {
        assert cut[k - lookback..k + lookback + 1] == low[k - lookback..k + lookback + 1];
      }
    }
    LastMarkedLocal(s1, s2, start, currentIdx);
    if start < currentIdx {
      assert cut[start..currentIdx] == low[start..currentIdx];
    }
  }

  /** A series whose bar 10 is a swing low for lookback 5. */
  const LookAheadSeries: seq<real> :=
    [5.0, 1.0, 5.0, 5.0, 5.0, 5.0, 5.0, 5.0, 5.0, 5.0, 2.0, 5.0, 5.0, 5.0, 5.0, 5.0]

  /** The same series with bar 15 lowered, which stops bar 10 from being a swing low. */
  const LookAheadSeriesAltered: seq<real> := LookAheadSeries[15 := 0.0]

  lemma LookAheadSeriesLookup()
    ensures GetRecentSwingLow(LookAheadSeries, 11, 5, 10) == Some(2.0)
  {
    var a := LookAheadSeries;
    assert IsSwingLow(a, 5, 10);
    RecentSwingLowIsLatest(a, 11, 5, 10, 10);
  }

  /** In the altered series no bar of 1 .. 10 is a swing low. */
  lemma LookAheadSeriesAlteredHasNoSwingLows()
    ensures forall k :: 1 <= k < 11 ==> !IsSwingLow(LookAheadSeriesAltered, 5, k)
  {
    var b := LookAheadSeriesAltered;
    forall k | 1 <= k < 11 ensures !IsSwingLow(b, 5, k) {
      if 5 <= k < 10 {
        assert b[10] < b[k];
      } else if k == 10 {
        assert b[15] < b[10];
      }
    }
  }

  /** The lowest low of bars 1 .. 10 of the altered series is bar 1's. */
  lemma LookAheadSeriesAlteredWindowMin()
    ensures SeqMin(LookAheadSeriesAltered[1..11]) == 1.0
  {
    var w := LookAheadSeriesAltered[1..11];
    assert w == [1.0, 5.0, 5.0, 5.0, 5.0, 5.0, 5.0, 5.0, 5.0, 2.0];
    assert w[0] == 1.0;
  }

  lemma LookAheadSeriesAlteredLookup()
    ensures GetRecentSwingLow(LookAheadSeriesAltered, 11, 5, 10) == Some(1.0)
  {
    assert WindowStart(11, 10) == 1;
    LookAheadSeriesAlteredHasNoSwingLows();
    RecentSwingLowFallback(LookAheadSeriesAltered, 11, 5, 10);
    LookAheadSeriesAlteredWindowMin();
  }

  /**
   * The dependence is real: two series that agree on bars 0..14 and differ in
   * bar 15 give different lookups at bar 11 with the stop-loss parameters
   * (lookback 5, ten bars back), because bar 15 decides whether bar 10 is a
   * swing low.
   */
  lemma RecentSwingLowLooksAhead()
    ensures LookAheadSeries[..15] == LookAheadSeriesAltered[..15]
    ensures GetRecentSwingLow(LookAheadSeries, 11, 5, 10) != GetRecentSwingLow(LookAheadSeriesAltered, 11, 5, 10)
  {
    LookAheadSeriesLookup();
    LookAheadSeriesAlteredLookup();
  }

  // ---------------------------------------------------------------------------
  // Enrichment of a frame
  // ---------------------------------------------------------------------------

  /** The periods of an `IndicatorCalculator`, fixed at construction. */
  datatype IndicatorCalculator = IndicatorCalculator(emaShort: int, emaLong: int, rsiPeriod: int, atrPeriod: int)

  const DefaultCalculator: IndicatorCalculator :=
    IndicatorCalculator(DefaultEmaShort, DefaultEmaLong, DefaultRsiPeriod, DefaultAtrPeriod)

  /** The swing lookback `calculate_all_indicators` uses, whatever the periods. */
  const EnrichSwingLookback: nat := 5

  /** An input frame: the columns it has and its rows. */
  datatype OhlcFrame = OhlcFrame(columns: set<string>, bars: seq<Bar>)

  /** pandas' `DataFrame.empty`: no rows or no columns. */
  predicate IsEmptyFrame(data: OhlcFrame)
  {
    |data.bars| == 0 || data.columns == {}
  }

  const RequiredOhlcColumns: seq<string> := ["open", "high", "low", "close"]

  datatype IndicatorError =
    | MissingRequiredColumns(columns: seq<string>)  // ValueError raised by the method
    | InvalidSpan                                   // ValueError raised by pandas for a span below 1

  datatype Enrichment = Unchanged(frame: OhlcFrame) | Enriched(rows: seq<EnrichedBar>)

  /**
   * `calculate_all_indicators`: an empty frame comes back unchanged; a frame
   * without open/high/low/close raises; otherwise a copy gains the indicator
   * columns, with swing points over a lookback of 5.
   */
  function CalculateAllIndicators(calculator: IndicatorCalculator, data: OhlcFrame): (r: Result<Enrichment, IndicatorError>)
    ensures IsEmptyFrame(data) ==> r == Ok(Unchanged(data))
    ensures !IsEmptyFrame(data) && MissingColumns(RequiredOhlcColumns, data.columns) != [] ==>
              r == Err(MissingRequiredColumns(MissingColumns(RequiredOhlcColumns, data.columns)))
    ensures r.Ok? && r.value.Enriched? ==>
              && calculator.emaShort >= 1 && calculator.emaLong >= 1
              && calculator.rsiPeriod >= 1 && calculator.atrPeriod >= 1
              && OhlcBars(r.value.rows) == data.bars
              && forall i :: 0 <= i < |data.bars| ==>
                   var row, bars := r.value.rows[i], data.bars;
                   && row.ema20 == Some(CalculateEma(Closes(bars), calculator.emaShort)[i])
                   && row.ema50 == Some(CalculateEma(Closes(bars), calculator.emaLong)[i])
                   && row.rsi14 == CalculateRsi(Closes(bars), calculator.rsiPeriod)[i]
                   && row.atr14 == Some(CalculateAtr(bars, calculator.atrPeriod)[i])
                   && row.swingHigh == SwingHighs(Highs(bars), EnrichSwingLookback)[i]
                   && row.swingLow == SwingLows(Lows(bars), EnrichSwingLookback)[i]
    ensures (!IsEmptyFrame(data) && MissingColumns(RequiredOhlcColumns, data.columns) == []
             && calculator.emaShort >= 1 && calculator.emaLong >= 1 && calculator.rsiPeriod >= 1 && calculator.atrPeriod >= 1)
            <==> r.Ok? && r.value.Enriched?
  {
    if IsEmptyFrame(data) then Ok(Unchanged(data))
    else if MissingColumns(RequiredOhlcColumns, data.columns) != [] then
      Err(MissingRequiredColumns(MissingColumns(RequiredOhlcColumns, data.columns)))
    else if calculator.emaShort < 1 || calculator.emaLong < 1 || calculator.rsiPeriod < 1 || calculator.atrPeriod < 1 then
      Err(InvalidSpan)
    else
      var bars := data.bars;
      var emaShort := CalculateEma(Closes(bars), calculator.emaShort);
      var emaLong := CalculateEma(Closes(bars), calculator.emaLong);
      var rsi := CalculateRsi(Closes(bars), calculator.rsiPeriod);
      var atr := CalculateAtr(bars, calculator.atrPeriod);
      var swingHigh := SwingHighs(Highs(bars), EnrichSwingLookback);
      var swingLow := SwingLows(Lows(bars), EnrichSwingLookback);
      Ok(Enriched(seq(|bars|, i requires 0 <= i < |bars| =>
        EnrichedBar(bars[i].timestamp, bars[i].open, bars[i].high, bars[i].low, bars[i].close,
                    Some(emaShort[i]), Some(emaLong[i]), rsi[i], Some(atr[i]),
                    swingHigh[i], swingLow[i]))))
  }

  /**
   * What a row of the enriched frame means: its EMAs lie within the range of
   * the closes so far, its RSI (when defined) in [0, 100], and it is marked a
   * swing high or low, with its own price, exactly when no bar within five of
   * it is higher or lower.
   */
  lemma EnrichedRowMeaning(calculator: IndicatorCalculator, data: OhlcFrame, i: nat)
    requires CalculateAllIndicators(calculator, data).Ok?
    requires CalculateAllIndicators(calculator, data).value.Enriched?
    requires i < |data.bars|
    ensures var row := CalculateAllIndicators(calculator, data).value.rows[i];
            var closes := Closes(data.bars)[..i + 1];
            && row.ema20.Some? && SeqMin(closes) <= row.ema20.value <= SeqMax(closes)
            && row.ema50.Some? && SeqMin(closes) <= row.ema50.value <= SeqMax(closes)
            && (row.rsi14.Some? ==> 0.0 <= row.rsi14.value <= 100.0)
            && row.swingHigh == (if IsSwingHigh(Highs(data.bars), EnrichSwingLookback, i) then Some(data.bars[i].high) else None)
            && row.swingLow == (if IsSwingLow(Lows(data.bars), EnrichSwingLookback, i) then Some(data.bars[i].low) else None)
  {
    var closes := Closes(data.bars);
    EmaWithinRange(closes, Alpha(calculator.emaShort), i);
    EmaWithinRange(closes, Alpha(calculator.emaLong), i);
    SwingHighsMarkSwingPoints(Highs(data.bars), EnrichSwingLookback, i);
    SwingLowsMarkSwingPoints(Lows(data.bars), EnrichSwingLookback, i);
  }
}
