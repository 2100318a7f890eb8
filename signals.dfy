/**
 * The Daily EMA Pullback strategy of analysis/signal_generator.py: a pipeline
 * of gates (trend, pullback, RSI note, entry trigger, stop-loss) evaluated at
 * one bar of an enriched frame, and the scan that runs it over every bar.
 */
module Signals {
  import opened Wrappers
  import opened Constants
  import opened PriceSeries
  import opened Helpers
  import opened Indicators

  /**
   * The parameters of a `SignalGenerator`. The source sets them once in its
   * constructor and never changes them, so the generator is a value.
   */
  datatype SignalGenerator = SignalGenerator(
    riskRewardRatio: real,
    minSlPips: real,
    maxSlPips: real,
    emaTolerancePips: real,
    rsiLow: real,
    rsiHigh: real)

  const DefaultGenerator: SignalGenerator :=
    SignalGenerator(DefaultRiskReward, MinSlDistancePips, MaxSlDistancePips, 10.0, RsiNeutralLow, RsiNeutralHigh)

  datatype SignalType = Buy | Sell

  /** The reason texts of the source, as tags carrying the values they format. */
  datatype Reason =
    | PriceNotAboveEma20 | PriceNotAboveEma50 | Ema20NotAboveEma50 | LongTrendConfirmed
    | PriceNotBelowEma20 | PriceNotBelowEma50 | Ema20NotBelowEma50 | ShortTrendConfirmed
    | NotEnoughData | NearEma20(distancePips: real) | TouchedEma20(barsAgo: int) | NoPullback
    | RsiNotAvailable | RsiNeutral(rsi: real) | RsiOutsideNeutral(rsi: real)
    | NotClosedAboveEma20 | NotHigherClose | NotClosedBelowEma20 | NotLowerClose | EntryTriggerConfirmed
    | SlTooTight(pips: real) | SlTooWide(pips: real) | SlAt(price: real, pips: real)

  /** The `(bool, reason)` pair every check returns. */
  datatype Check = Check(passed: bool, reason: Reason)

  // ---------------------------------------------------------------------------
  // Trend
  // ---------------------------------------------------------------------------

  /** `check_long_trend`: the three strict inequalities, the first failing one named. */
  function CheckLongTrend(close: real, ema20: real, ema50: real): (c: Check)
    ensures c.passed <==> close > ema20 && close > ema50 && ema20 > ema50
    ensures c.passed ==> c.reason == LongTrendConfirmed
    ensures close <= ema20 ==> c.reason == PriceNotAboveEma20
    ensures close > ema20 && close <= ema50 ==> c.reason == PriceNotAboveEma50
    ensures close > ema20 && close > ema50 && ema20 <= ema50 ==> c.reason == Ema20NotAboveEma50
  {
    if close <= ema20 then Check(false, PriceNotAboveEma20)
    else if close <= ema50 then Check(false, PriceNotAboveEma50)
    else if ema20 <= ema50 then Check(false, Ema20NotAboveEma50)
    else Check(true, LongTrendConfirmed)
  }

  /** `check_short_trend`: the strict mirror of CheckLongTrend. */
  function CheckShortTrend(close: real, ema20: real, ema50: real): (c: Check)
    ensures c.passed <==> close < ema20 && close < ema50 && ema20 < ema50
    ensures c.passed ==> c.reason == ShortTrendConfirmed
    ensures close >= ema20 ==> c.reason == PriceNotBelowEma20
    ensures close < ema20 && close >= ema50 ==> c.reason == PriceNotBelowEma50
    ensures close < ema20 && close < ema50 && ema20 >= ema50 ==> c.reason == Ema20NotBelowEma50
  {
    if close >= ema20 then Check(false, PriceNotBelowEma20)
    else if close >= ema50 then Check(false, PriceNotBelowEma50)
    else if ema20 >= ema50 then Check(false, Ema20NotBelowEma50)
    else Check(true, ShortTrendConfirmed)
  }

  /** A long trend and a short trend never hold on the same values. */
  lemma TrendsExclusive(close: real, ema20: real, ema50: real)
    ensures !(CheckLongTrend(close, ema20, ema50).passed && CheckShortTrend(close, ema20, ema50).passed)
  {
  }

  // ---------------------------------------------------------------------------
  // Pullback to the 20 EMA
  // ---------------------------------------------------------------------------

  /** The distance below which a close counts as near the 20 EMA, hard-coded in the source. */
  const NearEmaPips: real := 30.0

  /** The number of bars the generator's pullback search looks back. */
  const PullbackLookback: nat := 5

  /** Bar `bar` touched the 20 EMA within `tolerance`; a NaN EMA compares false. */
  predicate Touches(bar: EnrichedBar, tolerance: real)
  {
    bar.ema20.Some? && bar.low - tolerance <= bar.ema20.value <= bar.high + tolerance
  }

  /** The earliest bar of [lo, hi) that touched the 20 EMA. */
  function FirstTouch(data: seq<EnrichedBar>, lo: int, hi: int, tolerance: real): (j: Option<int>)
    requires 0 <= lo && hi <= |data|
    ensures j.Some? ==> lo <= j.value < hi
    decreases hi - lo
  {
    if lo >= hi then None
    else if Touches(data[lo], tolerance) then Some(lo)
    else FirstTouch(data, lo + 1, hi, tolerance)
  }

  /** FirstTouch finds a touching bar with none before it, or reports that no bar of [lo, hi) touched. */
  lemma {:induction false} FirstTouchIsEarliest(data: seq<EnrichedBar>, lo: int, hi: int, tolerance: real)
    requires 0 <= lo && hi <= |data|
    ensures var j := FirstTouch(data, lo, hi, tolerance);
            && (j.Some? ==> Touches(data[j.value], tolerance))
            && (j.Some? ==> forall k :: lo <= k < j.value ==> !Touches(data[k], tolerance))
            && (j.None? ==> forall k :: lo <= k < hi ==> !Touches(data[k], tolerance))
    decreases hi - lo
  {
    if lo < hi && !Touches(data[lo], tolerance) {
      FirstTouchIsEarliest(data, lo + 1, hi, tolerance);
    }
  }

  /** The distance of the close of bar `idx` from its 20 EMA, in pips (NaN when the EMA is). */
  function EmaDistancePips(bar: EnrichedBar, symbol: string): (d: Option<real>)
    ensures d.Some? <==> bar.ema20.Some?
    ensures d.Some? ==> d.value >= 0.0
  {
    if bar.ema20.None? then None
    else Some(Abs(bar.close - bar.ema20.value) / PipSize(symbol))
  }

  /**
   * `check_pullback_to_ema` as a value: too early a bar fails; a close within
   * 30 pips of the 20 EMA passes; otherwise the oldest bar of the last
   * `lookback` that touched the EMA (within the tolerance) passes, and no
   * touch fails.
   */
  function PullbackCheck(gen: SignalGenerator, data: seq<EnrichedBar>, currentIdx: int, symbol: string, lookback: nat)
    : (c: Check)
    requires currentIdx >= lookback ==> currentIdx < |data|
    ensures currentIdx < lookback ==> c == Check(false, NotEnoughData)
    ensures c.passed <==> c.reason.NearEma20? || c.reason.TouchedEma20?
  {
    if currentIdx < lookback then Check(false, NotEnoughData)
    else
      var tolerance := gen.emaTolerancePips * PipSize(symbol);
      var distance := EmaDistancePips(data[currentIdx], symbol);
      if distance.Some? && distance.value <= NearEmaPips then Check(true, NearEma20(distance.value))
      else
        var start := if currentIdx - lookback > 0 then currentIdx - lookback else 0;
        match FirstTouch(data, start, currentIdx, tolerance)
        case Some(i) => Check(true, TouchedEma20(currentIdx - i))
        case None => Check(false, NoPullback)
  }

  /**
   * The pullback check fails before bar `lookback`; from there it passes iff
   * the close is within 30 pips of the 20 EMA or one of the last `lookback`
   * bars touched the EMA within the tolerance, and a reported touch is the
   * oldest one.
   */
  lemma PullbackCheckMeaning(gen: SignalGenerator, data: seq<EnrichedBar>, currentIdx: int, symbol: string, lookback: nat)
    requires currentIdx >= lookback ==> currentIdx < |data|
    ensures var c := PullbackCheck(gen, data, currentIdx, symbol, lookback);
            var tolerance := gen.emaTolerancePips * PipSize(symbol);
            && (currentIdx < lookback ==> !c.passed)
            && (currentIdx >= lookback ==>
                  (c.passed <==>
                     || (var d := EmaDistancePips(data[currentIdx], symbol); d.Some? && d.value <= NearEmaPips)
                     || exists i :: currentIdx - lookback <= i < currentIdx && Touches(data[i], tolerance)))
            && (c.reason.TouchedEma20? ==>
                  && 1 <= c.reason.barsAgo <= lookback
                  && Touches(data[currentIdx - c.reason.barsAgo], tolerance)
                  && forall i :: currentIdx - lookback <= i < currentIdx - c.reason.barsAgo ==> !Touches(data[i], tolerance))
  {
    if currentIdx >= lookback {
      var start := if currentIdx - lookback > 0 then currentIdx - lookback else 0;
      FirstTouchIsEarliest(data, start, currentIdx, gen.emaTolerancePips * PipSize(symbol));
    }
  }

  /** `check_pullback_to_ema`: the distance test, then a forward loop with early return. */
  method CheckPullbackToEma(gen: SignalGenerator, data: seq<EnrichedBar>, currentIdx: int, symbol: string, lookback: nat)
    returns (passed: bool, reason: Reason)
    requires currentIdx >= lookback ==> currentIdx < |data|
    ensures Check(passed, reason) == PullbackCheck(gen, data, currentIdx, symbol, lookback)
  {
    if currentIdx < lookback {
      return false, NotEnoughData;
    }
    var pipSize := PipSize(symbol);
    var tolerance := gen.emaTolerancePips * pipSize;
    var current := data[currentIdx];
    if current.ema20.Some? {
      var distancePips := Abs(current.close - current.ema20.value) / pipSize;
      if distancePips <= NearEmaPips {
        return true, NearEma20(distancePips);
      }
    }
    ghost var distance := EmaDistancePips(current, symbol);
    assert !(distance.Some? && distance.value <= NearEmaPips);
    var start := if currentIdx - lookback > 0 then currentIdx - lookback else 0;
    var i := start;
    while i < currentIdx
      invariant start <= i <= currentIdx
      invariant FirstTouch(data, start, currentIdx, tolerance) == FirstTouch(data, i, currentIdx, tolerance)
    {
      var row := data[i];
      if row.ema20.Some? && row.low - tolerance <= row.ema20.value <= row.high + tolerance {
        assert FirstTouch(data, i, currentIdx, tolerance) == Some(i);
        return true, TouchedEma20(currentIdx - i);
      }
      i := i + 1;
    }
    assert FirstTouch(data, start, currentIdx, tolerance) == None;
    return false, NoPullback;
  }

  // ---------------------------------------------------------------------------
  // RSI neutral zone
  // ---------------------------------------------------------------------------

  /** `check_rsi_neutral`: true iff the RSI is defined and inside [rsi_low, rsi_high]. */
  function CheckRsiNeutral(gen: SignalGenerator, rsi: Option<real>): (c: Check)
    ensures c.passed <==> rsi.Some? && gen.rsiLow <= rsi.value <= gen.rsiHigh
    ensures rsi.None? ==> c.reason == RsiNotAvailable
    ensures rsi.Some? ==> c.reason == (if c.passed then RsiNeutral(rsi.value) else RsiOutsideNeutral(rsi.value))
  {
    if rsi.None? then Check(false, RsiNotAvailable)
    else if gen.rsiLow <= rsi.value <= gen.rsiHigh then Check(true, RsiNeutral(rsi.value))
    else Check(false, RsiOutsideNeutral(rsi.value))
  }

  // ---------------------------------------------------------------------------
  // Stop-loss and take-profit
  // ---------------------------------------------------------------------------

  /** The swing lookback and the trailing window of the stop-loss lookup. */
  const StopSwingLookback: nat := 5
  const StopMaxBarsBack: int := 10

  /** The buffer between the swing point and the stop, in pips. */
  const StopBufferPips: real := 10.0

  /**
   * The outcome of `calculate_stop_loss_*`: rejected with a reason, placed at a
   * price and distance, or NaN throughout (the lookup found an empty window).
   */
  datatype StopLoss = SlRejected(reason: Reason) | SlPlaced(price: real, pips: real) | SlUndefined

  /** The range test on the stop distance. */
  function BoundStop(gen: SignalGenerator, price: real, pips: real): (s: StopLoss)
    ensures s.SlPlaced? <==> gen.minSlPips <= pips <= gen.maxSlPips
    ensures s.SlPlaced? ==> s == SlPlaced(price, pips)
    ensures pips < gen.minSlPips ==> s == SlRejected(SlTooTight(pips))
    ensures gen.minSlPips <= pips && pips > gen.maxSlPips ==> s == SlRejected(SlTooWide(pips))
  {
    if pips < gen.minSlPips then SlRejected(SlTooTight(pips))
    else if pips > gen.maxSlPips then SlRejected(SlTooWide(pips))
    else SlPlaced(price, pips)
  }

  /**
   * The LONG stop: the recent swing low of the stop-loss lookup, 10 pips
   * lower. Undefined only at bar 0, whose lookup window is empty (the NaN
   * that the `is None` test lets through).
   */
  function LongStopPrice(data: seq<EnrichedBar>, currentIdx: int, symbol: string): (p: Option<real>)
    requires 0 <= currentIdx < |data|
    ensures p.None? <==> currentIdx == 0
    ensures p.Some? ==>
              p.value == GetRecentSwingLow(Lows(OhlcBars(data)), currentIdx, StopSwingLookback, StopMaxBarsBack).value
                         - StopBufferPips * PipSize(symbol)
    ensures p.Some? ==>
              exists j :: 0 <= j < currentIdx && p.value == data[j].low - StopBufferPips * PipSize(symbol)
  {
    var swing := GetRecentSwingLow(Lows(OhlcBars(data)), currentIdx, StopSwingLookback, StopMaxBarsBack);
    if swing.None? then None
    else Some(swing.value - StopBufferPips * PipSize(symbol))
  }

  /** The SHORT stop: the recent swing high of the stop-loss lookup, 10 pips higher. */
  function ShortStopPrice(data: seq<EnrichedBar>, currentIdx: int, symbol: string): (p: Option<real>)
    requires 0 <= currentIdx < |data|
    ensures p.None? <==> currentIdx == 0
    ensures p.Some? ==>
              p.value == GetRecentSwingHigh(Highs(OhlcBars(data)), currentIdx, StopSwingLookback, StopMaxBarsBack).value
                         + StopBufferPips * PipSize(symbol)
    ensures p.Some? ==>
              exists j :: 0 <= j < currentIdx && p.value == data[j].high + StopBufferPips * PipSize(symbol)
  {
    var swing := GetRecentSwingHigh(Highs(OhlcBars(data)), currentIdx, StopSwingLookback, StopMaxBarsBack);
    if swing.None? then None
    else Some(swing.value + StopBufferPips * PipSize(symbol))
  }

  /** With a swing low among the last ten bars, the LONG stop hangs 10 pips below the latest one. */
  lemma LongStopBelowLatestSwingLow(data: seq<EnrichedBar>, currentIdx: int, symbol: string, j: int)
    requires 0 <= currentIdx < |data|
    requires WindowStart(currentIdx, StopMaxBarsBack) <= j < currentIdx
    requires IsSwingLow(Lows(OhlcBars(data)), StopSwingLookback, j)
    requires forall k :: j < k < currentIdx ==> !IsSwingLow(Lows(OhlcBars(data)), StopSwingLookback, k)
    ensures LongStopPrice(data, currentIdx, symbol) == Some(data[j].low - StopBufferPips * PipSize(symbol))
  {
    RecentSwingLowIsLatest(Lows(OhlcBars(data)), currentIdx, StopSwingLookback, StopMaxBarsBack, j);
  }

  /** Without a swing low among the last ten bars, the LONG stop hangs 10 pips below their lowest low. */
  lemma LongStopBelowWindowLow(data: seq<EnrichedBar>, currentIdx: int, symbol: string)
    requires 1 <= currentIdx < |data|
    requires forall k :: WindowStart(currentIdx, StopMaxBarsBack) <= k < currentIdx ==>
               !IsSwingLow(Lows(OhlcBars(data)), StopSwingLookback, k)
    ensures LongStopPrice(data, currentIdx, symbol)
            == Some(SeqMin(Lows(OhlcBars(data))[WindowStart(currentIdx, StopMaxBarsBack)..currentIdx])
                    - StopBufferPips * PipSize(symbol))
  {
    RecentSwingLowFallback(Lows(OhlcBars(data)), currentIdx, StopSwingLookback, StopMaxBarsBack);
  }

  /** With a swing high among the last ten bars, the SHORT stop hangs 10 pips above the latest one. */
  lemma ShortStopAboveLatestSwingHigh(data: seq<EnrichedBar>, currentIdx: int, symbol: string, j: int)
    requires 0 <= currentIdx < |data|
    requires WindowStart(currentIdx, StopMaxBarsBack) <= j < currentIdx
    requires IsSwingHigh(Highs(OhlcBars(data)), StopSwingLookback, j)
    requires forall k :: j < k < currentIdx ==> !IsSwingHigh(Highs(OhlcBars(data)), StopSwingLookback, k)
    ensures ShortStopPrice(data, currentIdx, symbol) == Some(data[j].high + StopBufferPips * PipSize(symbol))
  {
    RecentSwingHighIsLatest(Highs(OhlcBars(data)), currentIdx, StopSwingLookback, StopMaxBarsBack, j);
  }

  /** Without a swing high among the last ten bars, the SHORT stop hangs 10 pips above their highest high. */
  lemma ShortStopAboveWindowHigh(data: seq<EnrichedBar>, currentIdx: int, symbol: string)
    requires 1 <= currentIdx < |data|
    requires forall k :: WindowStart(currentIdx, StopMaxBarsBack) <= k < currentIdx ==>
               !IsSwingHigh(Highs(OhlcBars(data)), StopSwingLookback, k)
    ensures ShortStopPrice(data, currentIdx, symbol)
            == Some(SeqMax(Highs(OhlcBars(data))[WindowStart(currentIdx, StopMaxBarsBack)..currentIdx])
                    + StopBufferPips * PipSize(symbol))
  {
    RecentSwingHighFallback(Highs(OhlcBars(data)), currentIdx, StopSwingLookback, StopMaxBarsBack);
  }

  /**
   * `calculate_stop_loss_long` as written: the distance is computed as a LONG
   * move from the entry to the stop, (stop - entry) / pip, which is negative
   * for a stop below the entry; the range test then places or rejects it.
   */
  function CalculateStopLossLongAsWritten(gen: SignalGenerator, data: seq<EnrichedBar>, currentIdx: int, symbol: string)
    : (s: StopLoss)
    requires 0 <= currentIdx < |data|
    ensures s.SlUndefined? <==> currentIdx == 0
    ensures s.SlPlaced? ==> gen.minSlPips <= s.pips <= gen.maxSlPips
    ensures currentIdx >= 1 ==>
              var price := LongStopPrice(data, currentIdx, symbol).value;
              var d := CalculatePips(symbol, data[currentIdx].close, price, DirectionLong);
              && -0.005 <= d - (price - data[currentIdx].close) / PipSize(symbol) <= 0.005
              && (s.SlPlaced? <==> gen.minSlPips <= d <= gen.maxSlPips)
              && (s.SlPlaced? ==> s.price == price && s.pips == d)
              && (s.SlRejected? ==> s.reason == SlTooTight(d) || s.reason == SlTooWide(d))
  {
    match LongStopPrice(data, currentIdx, symbol)
    case None => SlUndefined
    case Some(price) => BoundStop(gen, price, CalculatePips(symbol, data[currentIdx].close, price, DirectionLong))
  }

  /** As written, a placed LONG stop with a positive minimum distance always lies ABOVE the entry. */
  lemma LongStopAsWrittenAboveEntry(gen: SignalGenerator, data: seq<EnrichedBar>, currentIdx: int, symbol: string)
    requires 0 <= currentIdx < |data|
    requires gen.minSlPips > 0.0
    requires CalculateStopLossLongAsWritten(gen, data, currentIdx, symbol).SlPlaced?
    ensures CalculateStopLossLongAsWritten(gen, data, currentIdx, symbol).price > data[currentIdx].close
  {
    var price := LongStopPrice(data, currentIdx, symbol).value;
    PipsSign(symbol, data[currentIdx].close, price, DirectionLong);
    assert DirectionLong != DirectionShort;
  }

  /** A EURUSD frame: a low of 1.0950 on bar 0, a close of 1.1000 on bar 1. */
  const StopExampleFrame: seq<EnrichedBar> := [
    EnrichedBar(0, 1.0980, 1.1000, 1.0950, 1.0990, None, None, None, None, None, None),
    EnrichedBar(1, 1.0990, 1.1010, 1.0970, 1.1000, None, None, None, None, None, None)]

  /**
   * On StopExampleFrame at bar 1 the stop is 1.0940, 60 pips below the entry.
   * As written the distance is -60, "too tight"; the corrected distance is 60,
   * inside the default 30..60 range.
   */
  lemma LongStopAsWrittenRejectsSound()
    ensures CalculateStopLossLongAsWritten(DefaultGenerator, StopExampleFrame, 1, EURUSD)
            == SlRejected(SlTooTight(-60.0))
    ensures CalculateStopLoss(DefaultGenerator, StopExampleFrame, 1, EURUSD, Buy) == SlPlaced(1.0940, 60.0)
  {
    var lows := Lows(OhlcBars(StopExampleFrame));
    assert lows[0] == 1.0950;
    assert GetRecentSwingLow(lows, 1, StopSwingLookback, StopMaxBarsBack) == Some(1.0950) by {
      assert lows[0..1] == [1.0950];
    }
    assert LongStopPrice(StopExampleFrame, 1, EURUSD) == Some(1.0940);
    assert (1.0940 - 1.1000) / 0.0001 == -6000.0 / 100.0;
    Round2Exact(-6000);
    assert (1.1000 - 1.0940) / 0.0001 == 6000.0 / 100.0;
    Round2Exact(6000);
  }

  /**
   * `calculate_stop_loss_long` / `calculate_stop_loss_short`, corrected: the
   * distance is the adverse move from the entry to the stop, positive when the
   * stop is on the losing side (below the entry for BUY, above it for SELL).
   */
  function CalculateStopLoss(gen: SignalGenerator, data: seq<EnrichedBar>, currentIdx: int, symbol: string, side: SignalType)
    : (s: StopLoss)
    requires 0 <= currentIdx < |data|
    ensures s.SlUndefined? <==> currentIdx == 0
    ensures s.SlPlaced? ==> gen.minSlPips <= s.pips <= gen.maxSlPips
    ensures s.SlPlaced? && gen.minSlPips > 0.0 && side == Buy ==> s.price < data[currentIdx].close
    ensures s.SlPlaced? && gen.minSlPips > 0.0 && side == Sell ==> s.price > data[currentIdx].close
    ensures s.SlRejected? ==>
              || (s.reason.SlTooTight? && s.reason.pips < gen.minSlPips)
              || (s.reason.SlTooWide? && s.reason.pips > gen.maxSlPips)
    ensures currentIdx >= 1 && side == Buy ==>
              var price := LongStopPrice(data, currentIdx, symbol).value;
              var d := CalculatePips(symbol, price, data[currentIdx].close, DirectionLong);
              && (s.SlPlaced? <==> gen.minSlPips <= d <= gen.maxSlPips)
              && (s.SlPlaced? ==> s.price == price && s.pips == d)
              && (s.SlRejected? ==> s.reason == SlTooTight(d) || s.reason == SlTooWide(d))
    ensures currentIdx >= 1 && side == Sell ==>
              var price := ShortStopPrice(data, currentIdx, symbol).value;
              var d := CalculatePips(symbol, price, data[currentIdx].close, DirectionShort);
              && (s.SlPlaced? <==> gen.minSlPips <= d <= gen.maxSlPips)
              && (s.SlPlaced? ==> s.price == price && s.pips == d)
              && (s.SlRejected? ==> s.reason == SlTooTight(d) || s.reason == SlTooWide(d))
  {
    var entry := data[currentIdx].close;
    var stop := if side == Buy then LongStopPrice(data, currentIdx, symbol) else ShortStopPrice(data, currentIdx, symbol);
    match stop
    case None => SlUndefined
    case Some(price) =>
      var pips := if side == Buy then CalculatePips(symbol, price, entry, DirectionLong)
                  else CalculatePips(symbol, price, entry, DirectionShort);
      if side == Buy then PipsSign(symbol, price, entry, DirectionLong); BoundStop(gen, price, pips)
      else PipsSign(symbol, price, entry, DirectionShort); BoundStop(gen, price, pips)
  }

  /**
   * `calculate_take_profit`: the target lies beyond the entry on the winning
   * side, the stop distance times the ratio away from it.
   */
  function CalculateTakeProfit(gen: SignalGenerator, entryPrice: real, slPrice: real, signalType: SignalType): (tp: real)
    ensures signalType == Buy ==> tp == entryPrice + Abs(entryPrice - slPrice) * gen.riskRewardRatio
    ensures signalType == Sell ==> tp == entryPrice - Abs(entryPrice - slPrice) * gen.riskRewardRatio
    ensures gen.riskRewardRatio >= 0.0 ==> Abs(tp - entryPrice) == gen.riskRewardRatio * Abs(entryPrice - slPrice)
    ensures gen.riskRewardRatio > 0.0 && slPrice != entryPrice ==>
              (signalType == Buy ==> tp > entryPrice) && (signalType == Sell ==> tp < entryPrice)
  {
    var slDistance := Abs(entryPrice - slPrice);
    var tpDistance := slDistance * gen.riskRewardRatio;
    assert gen.riskRewardRatio >= 0.0 ==> tpDistance >= 0.0;
    assert gen.riskRewardRatio > 0.0 && slPrice != entryPrice ==> tpDistance > 0.0;
    if signalType == Buy then entryPrice + tpDistance else entryPrice - tpDistance
  }

  /** The take-profit reads only the risk-reward ratio of the generator. */
  lemma TakeProfitReadsRatio(gen: SignalGenerator, other: SignalGenerator, entryPrice: real, slPrice: real, signalType: SignalType)
    requires gen.riskRewardRatio == other.riskRewardRatio
    ensures CalculateTakeProfit(gen, entryPrice, slPrice, signalType) == CalculateTakeProfit(other, entryPrice, slPrice, signalType)
  {
  }

  /** The SHORT target distance as written: a SHORT move from the target back to the entry. */
  function TargetPipsShortAsWritten(symbol: string, entryPrice: real, tpPrice: real): (pips: real)
    ensures -0.005 <= pips - (tpPrice - entryPrice) / PipSize(symbol) <= 0.005
  {
    CalculatePips(symbol, tpPrice, entryPrice, DirectionShort)
  }

  /** The SHORT target distance corrected: a SHORT move from the entry to the target. */
  function TargetPipsShort(symbol: string, entryPrice: real, tpPrice: real): (pips: real)
    ensures -0.005 <= pips - (entryPrice - tpPrice) / PipSize(symbol) <= 0.005
  {
    CalculatePips(symbol, entryPrice, tpPrice, DirectionShort)
  }

  /** As written the SHORT target distance is the corrected one negated, so it is never positive for a target below the entry. */
  lemma TargetPipsShortAsWrittenNegated(symbol: string, entryPrice: real, tpPrice: real)
    ensures TargetPipsShortAsWritten(symbol, entryPrice, tpPrice) == -TargetPipsShort(symbol, entryPrice, tpPrice)
    ensures tpPrice <= entryPrice ==> TargetPipsShortAsWritten(symbol, entryPrice, tpPrice) <= 0.0
  {
    PipsDirectionSymmetry(symbol, entryPrice, tpPrice);
    PipsDirectionSymmetry(symbol, tpPrice, entryPrice);
    PipsSign(symbol, tpPrice, entryPrice, DirectionShort);
  }

  /** Entry 1.1000 with target 1.0900 on EURUSD: as written -100 pips, corrected +100 pips. */
  lemma TargetPipsShortExample()
    ensures TargetPipsShortAsWritten(EURUSD, 1.1000, 1.0900) == -100.0
    ensures TargetPipsShort(EURUSD, 1.1000, 1.0900) == 100.0
  {
    assert (1.1000 - 1.0900) / 0.0001 == 10000.0 / 100.0;
    Round2Exact(10000);
    TargetPipsShortAsWrittenNegated(EURUSD, 1.1000, 1.0900);
  }

  /** The target distance of a signal, in pips, with the corrected SHORT form. */
  function TargetPips(symbol: string, entryPrice: real, tpPrice: real, signalType: SignalType): (pips: real)
    ensures signalType == Buy ==> -0.005 <= pips - (tpPrice - entryPrice) / PipSize(symbol) <= 0.005
    ensures signalType == Sell ==> pips == TargetPipsShort(symbol, entryPrice, tpPrice)
  {
    if signalType == Buy then CalculatePips(symbol, entryPrice, tpPrice, DirectionLong)
    else TargetPipsShort(symbol, entryPrice, tpPrice)
  }

  /** `tp_pips / sl_pips if sl_pips > 0 else 0`. */
  function RiskRewardRatio(tpPips: real, slPips: real): (rr: real)
    ensures slPips > 0.0 ==> rr * slPips == tpPips
    ensures slPips <= 0.0 ==> rr == 0.0
  {
    if slPips > 0.0 then tpPips / slPips else 0.0
  }

  // ---------------------------------------------------------------------------
  // Signals
  // ---------------------------------------------------------------------------

  /** The signal dictionary the generator emits. */
  datatype Signal = Signal(
    symbol: string,
    signalDate: int,
    signalType: SignalType,
    entryPrice: real,
    stopLoss: real,
    takeProfit: real,
    slPips: real,
    tpPips: real,
    riskRewardRatio: real,
    reasoning: seq<Reason>,
    ema20: real,
    ema50: real,
    rsi14: real,
    atr14: Option<real>)

  /** The entry trigger: the close beyond the 20 EMA and beyond the previous close. */
  function EntryTrigger(side: SignalType, close: real, ema20: real, previousClose: real): (c: Check)
    ensures side == Buy ==> (c.passed <==> close > ema20 && close > previousClose)
    ensures side == Sell ==> (c.passed <==> close < ema20 && close < previousClose)
    ensures c.passed ==> c.reason == EntryTriggerConfirmed
  {
    match side
    case Buy =>
      if close <= ema20 then Check(false, NotClosedAboveEma20)
      else if close <= previousClose then Check(false, NotHigherClose)
      else Check(true, EntryTriggerConfirmed)
    case Sell =>
      if close >= ema20 then Check(false, NotClosedBelowEma20)
      else if close >= previousClose then Check(false, NotLowerClose)
      else Check(true, EntryTriggerConfirmed)
  }

  /** The trend check of a side. */
  function TrendCheck(side: SignalType, close: real, ema20: real, ema50: real): (c: Check)
    ensures side == Buy ==> c == CheckLongTrend(close, ema20, ema50)
    ensures side == Sell ==> c == CheckShortTrend(close, ema20, ema50)
  {
    if side == Buy then CheckLongTrend(close, ema20, ema50) else CheckShortTrend(close, ema20, ema50)
  }

  /**
   * The signal dictionary of a bar whose stop is placed: the target from the
   * ratio, its distance in pips and the ratio of the two distances. A stop on
   * the losing side puts the target on the winning side.
   */
  function BuildSignal(gen: SignalGenerator, bar: EnrichedBar, symbol: string, side: SignalType,
                       slPrice: real, slPips: real, reasons: seq<Reason>): (s: Signal)
    requires bar.ema20.Some? && bar.ema50.Some? && bar.rsi14.Some?
    ensures s.symbol == symbol && s.signalType == side && s.signalDate == bar.timestamp
    ensures s.entryPrice == bar.close && s.stopLoss == slPrice && s.slPips == slPips && s.reasoning == reasons
    ensures s.ema20 == bar.ema20.value && s.ema50 == bar.ema50.value && s.rsi14 == bar.rsi14.value && s.atr14 == bar.atr14
    ensures s.takeProfit == CalculateTakeProfit(gen, bar.close, slPrice, side)
    ensures s.tpPips == TargetPips(symbol, bar.close, s.takeProfit, side)
    ensures gen.riskRewardRatio > 0.0 && side == Buy && slPrice < bar.close ==> s.entryPrice < s.takeProfit
    ensures gen.riskRewardRatio > 0.0 && side == Sell && slPrice > bar.close ==> s.takeProfit < s.entryPrice
    ensures s.riskRewardRatio == RiskRewardRatio(s.tpPips, s.slPips)
  {
    var tpPrice := CalculateTakeProfit(gen, bar.close, slPrice, side);
    var tpPips := TargetPips(symbol, bar.close, tpPrice, side);
    Signal(symbol, bar.timestamp, side, bar.close, slPrice, tpPrice, slPips, tpPips,
           RiskRewardRatio(tpPips, slPips), reasons,
           bar.ema20.value, bar.ema50.value, bar.rsi14.value, bar.atr14)
  }

  /**
   * `generate_long_signal` (side Buy) and `generate_short_signal` (side Sell)
   * as values: the gates in order, each failure giving no signal; the RSI
   * check only adds its reason.
   */
  function SignalAt(gen: SignalGenerator, data: seq<EnrichedBar>, currentIdx: int, symbol: string, side: SignalType)
    : (r: Option<Signal>)
    requires currentIdx < |data|
    ensures r.Some? ==> 1 <= currentIdx && r.value.signalType == side && r.value.signalDate == data[currentIdx].timestamp
  {
    if currentIdx < 1 then None
    else
      var current := data[currentIdx];
      var previous := data[currentIdx - 1];
      if current.ema20.None? || current.ema50.None? || current.rsi14.None? then None
      else
        var trend := TrendCheck(side, current.close, current.ema20.value, current.ema50.value);
        var pullback := PullbackCheck(gen, data, currentIdx, symbol, PullbackLookback);
        var rsi := CheckRsiNeutral(gen, current.rsi14);
        var trigger := EntryTrigger(side, current.close, current.ema20.value, previous.close);
        if !trend.passed || !pullback.passed || !trigger.passed then None
        else
          match CalculateStopLoss(gen, data, currentIdx, symbol, side)
          case SlRejected(_) => None
          case SlUndefined => None
          case SlPlaced(slPrice, slPips) =>
            Some(BuildSignal(gen, current, symbol, side, slPrice, slPips,
                             [trend.reason, pullback.reason, rsi.reason, trigger.reason, SlAt(slPrice, slPips)]))
  }

  /**
   * What every emitted signal satisfies: it sits on a bar from 1 on whose
   * indicators are defined, passed the trend, pullback and entry gates and
   * had its stop placed, and carries the bar's close and date, that stop's
   * price and distance, the target and target distance computed from it,
   * the ratio of its distances and five reasons, the third being the RSI note.
   */
  lemma SignalFields(gen: SignalGenerator, data: seq<EnrichedBar>, currentIdx: int, symbol: string, side: SignalType)
    requires currentIdx < |data|
    requires SignalAt(gen, data, currentIdx, symbol, side).Some?
    ensures var s := SignalAt(gen, data, currentIdx, symbol, side).value;
            var bar := data[currentIdx];
            && 1 <= currentIdx
            && bar.ema20.Some? && bar.ema50.Some? && bar.rsi14.Some?
            && s.symbol == symbol
            && s.signalType == side
            && s.signalDate == bar.timestamp
            && s.entryPrice == bar.close
            && s.ema20 == bar.ema20.value && s.ema50 == bar.ema50.value
            && s.rsi14 == bar.rsi14.value && s.atr14 == bar.atr14
            && TrendCheck(side, bar.close, bar.ema20.value, bar.ema50.value).passed
            && PullbackCheck(gen, data, currentIdx, symbol, PullbackLookback).passed
            && EntryTrigger(side, bar.close, bar.ema20.value, data[currentIdx - 1].close).passed
            && gen.minSlPips <= s.slPips <= gen.maxSlPips
            && CalculateStopLoss(gen, data, currentIdx, symbol, side).SlPlaced?
            && s.stopLoss == CalculateStopLoss(gen, data, currentIdx, symbol, side).price
            && s.slPips == CalculateStopLoss(gen, data, currentIdx, symbol, side).pips
            && s.takeProfit == CalculateTakeProfit(gen, bar.close, s.stopLoss, side)
            && s.tpPips == TargetPips(symbol, bar.close, s.takeProfit, side)
            && s.riskRewardRatio == RiskRewardRatio(s.tpPips, s.slPips)
            && |s.reasoning| == 5
            && s.reasoning[2] == CheckRsiNeutral(gen, bar.rsi14).reason
  {
  }

  /**
   * The converse of SignalFields: a bar from 1 on whose indicators are defined,
   * that passes the trend, pullback and entry gates and whose stop is placed,
   * emits the signal built from its close, that stop and the five reasons.
   */
  lemma SignalWhenGatesPass(gen: SignalGenerator, data: seq<EnrichedBar>, currentIdx: int, symbol: string, side: SignalType)
    requires 1 <= currentIdx < |data|
    requires data[currentIdx].ema20.Some? && data[currentIdx].ema50.Some? && data[currentIdx].rsi14.Some?
    requires TrendCheck(side, data[currentIdx].close, data[currentIdx].ema20.value, data[currentIdx].ema50.value).passed
    requires PullbackCheck(gen, data, currentIdx, symbol, PullbackLookback).passed
    requires EntryTrigger(side, data[currentIdx].close, data[currentIdx].ema20.value, data[currentIdx - 1].close).passed
    requires CalculateStopLoss(gen, data, currentIdx, symbol, side).SlPlaced?
    ensures var bar := data[currentIdx];
            var stop := CalculateStopLoss(gen, data, currentIdx, symbol, side);
            SignalAt(gen, data, currentIdx, symbol, side)
            == Some(BuildSignal(gen, bar, symbol, side, stop.price, stop.pips,
                                [TrendCheck(side, bar.close, bar.ema20.value, bar.ema50.value).reason,
                                 PullbackCheck(gen, data, currentIdx, symbol, PullbackLookback).reason,
                                 CheckRsiNeutral(gen, bar.rsi14).reason,
                                 EntryTriggerConfirmed,
                                 SlAt(stop.price, stop.pips)]))
  {
  }

  /**
   * `generate_long_signal` / `generate_short_signal`: the gates run in order,
   * building the reasons list by appending, returning at the first failure.
   */
  method GenerateSignal(gen: SignalGenerator, data: seq<EnrichedBar>, currentIdx: int, symbol: string, side: SignalType)
    returns (signal: Option<Signal>)
    requires currentIdx < |data|
    ensures signal == SignalAt(gen, data, currentIdx, symbol, side)
  {
    if currentIdx < 1 {
      return None;
    }
    var current := data[currentIdx];
    var previous := data[currentIdx - 1];
    var reasons: seq<Reason> := [];
    if current.ema20.None? || current.ema50.None? || current.rsi14.None? {
      return None;
    }
    var trend := TrendCheck(side, current.close, current.ema20.value, current.ema50.value);
    reasons := reasons + [trend.reason];
    if !trend.passed {
      return None;
    }
    var pullbackPassed, pullbackReason := CheckPullbackToEma(gen, data, currentIdx, symbol, PullbackLookback);
    reasons := reasons + [pullbackReason];
    if !pullbackPassed {
      return None;
    }
    var rsi := CheckRsiNeutral(gen, current.rsi14);
    reasons := reasons + [rsi.reason];
    var trigger := EntryTrigger(side, current.close, current.ema20.value, previous.close);
    reasons := reasons + [trigger.reason];
    if !trigger.passed {
      return None;
    }
    var stop := CalculateStopLoss(gen, data, currentIdx, symbol, side);
    if !stop.SlPlaced? {
      return None;
    }
    reasons := reasons + [SlAt(stop.price, stop.pips)];
    assert reasons == [trend.reason, pullbackReason, rsi.reason, trigger.reason, SlAt(stop.price, stop.pips)];
    SignalWhenGatesPass(gen, data, currentIdx, symbol, side);
    signal := Some(BuildSignal(gen, current, symbol, side, stop.price, stop.pips, reasons));
  }

  /** No bar yields both a BUY and a SELL signal. */
  lemma SignalsExclusive(gen: SignalGenerator, data: seq<EnrichedBar>, currentIdx: int, symbol: string)
    requires currentIdx < |data|
    ensures !(SignalAt(gen, data, currentIdx, symbol, Buy).Some? && SignalAt(gen, data, currentIdx, symbol, Sell).Some?)
  {
    if SignalAt(gen, data, currentIdx, symbol, Buy).Some? {
      var bar := data[currentIdx];
      TrendsExclusive(bar.close, bar.ema20.value, bar.ema50.value);
    }
  }

  /** The pullback check reads only the EMA tolerance of the generator. */
  lemma PullbackReadsTolerance(gen: SignalGenerator, other: SignalGenerator, data: seq<EnrichedBar>, currentIdx: int,
                               symbol: string, lookback: nat)
    requires currentIdx >= lookback ==> currentIdx < |data|
    requires gen.emaTolerancePips == other.emaTolerancePips
    ensures PullbackCheck(gen, data, currentIdx, symbol, lookback) == PullbackCheck(other, data, currentIdx, symbol, lookback)
  {
  }

  /** The stop-loss reads only the stop-distance bounds of the generator. */
  lemma StopLossReadsBounds(gen: SignalGenerator, other: SignalGenerator, data: seq<EnrichedBar>, currentIdx: int,
                            symbol: string, side: SignalType)
    requires 0 <= currentIdx < |data|
    requires gen.minSlPips == other.minSlPips && gen.maxSlPips == other.maxSlPips
    ensures CalculateStopLoss(gen, data, currentIdx, symbol, side) == CalculateStopLoss(other, data, currentIdx, symbol, side)
  {
  }

  /** The RSI neutral zone never decides whether a signal is emitted, nor its prices. */
  lemma RsiNeverGates(gen: SignalGenerator, data: seq<EnrichedBar>, currentIdx: int, symbol: string, side: SignalType,
                      rsiLow: real, rsiHigh: real)
    requires currentIdx < |data|
    ensures var other := gen.(rsiLow := rsiLow, rsiHigh := rsiHigh);
            var s1, s2 := SignalAt(gen, data, currentIdx, symbol, side), SignalAt(other, data, currentIdx, symbol, side);
            && s1.Some? == s2.Some?
            && (s1.Some? ==> s1.value.stopLoss == s2.value.stopLoss && s1.value.takeProfit == s2.value.takeProfit)
  {
    var other := gen.(rsiLow := rsiLow, rsiHigh := rsiHigh);
    var s1, s2 := SignalAt(gen, data, currentIdx, symbol, side), SignalAt(other, data, currentIdx, symbol, side);
    if currentIdx < 1 {
      assert s1.None? && s2.None?;
    } else {
      var bar := data[currentIdx];
      if bar.ema20.None? || bar.ema50.None? || bar.rsi14.None? {
        assert s1.None? && s2.None?;
      } else {
        var trend := TrendCheck(side, bar.close, bar.ema20.value, bar.ema50.value);
        var pullback := PullbackCheck(gen, data, currentIdx, symbol, PullbackLookback);
        PullbackReadsTolerance(gen, other, data, currentIdx, symbol, PullbackLookback);
        var trigger := EntryTrigger(side, bar.close, bar.ema20.value, data[currentIdx - 1].close);
        if !trend.passed || !pullback.passed || !trigger.passed {
          assert s1.None? && s2.None?;
        } else {
          var stop := CalculateStopLoss(gen, data, currentIdx, symbol, side);
          StopLossReadsBounds(gen, other, data, currentIdx, symbol, side);
          if stop.SlPlaced? {
            var reasons1 := [trend.reason, pullback.reason, CheckRsiNeutral(gen, bar.rsi14).reason, trigger.reason, SlAt(stop.price, stop.pips)];
            var reasons2 := [trend.reason, pullback.reason, CheckRsiNeutral(other, bar.rsi14).reason, trigger.reason, SlAt(stop.price, stop.pips)];
            assert s1 == Some(BuildSignal(gen, bar, symbol, side, stop.price, stop.pips, reasons1));
            assert s2 == Some(BuildSignal(other, bar, symbol, side, stop.price, stop.pips, reasons2));
            TakeProfitReadsRatio(gen, other, bar.close, stop.price, side);
          } else {
            assert s1.None? && s2.None?;
          }
        }
      }
    }
  }

  /**
   * With a positive minimum stop distance and a positive ratio, a BUY has its
   * stop below the entry and its target above, a SELL the reverse, and both
   * distances are positive.
   */
  lemma SignalGeometry(gen: SignalGenerator, data: seq<EnrichedBar>, currentIdx: int, symbol: string, side: SignalType)
    requires currentIdx < |data|
    requires gen.minSlPips > 0.0 && gen.riskRewardRatio > 0.0
    requires SignalAt(gen, data, currentIdx, symbol, side).Some?
    ensures var s := SignalAt(gen, data, currentIdx, symbol, side).value;
            && (side == Buy ==> s.stopLoss < s.entryPrice < s.takeProfit)
            && (side == Sell ==> s.takeProfit < s.entryPrice < s.stopLoss)
            && s.slPips > 0.0
  {
    var stop := CalculateStopLoss(gen, data, currentIdx, symbol, side);
    assert stop.SlPlaced?;
    var s := SignalAt(gen, data, currentIdx, symbol, side).value;
    assert s.stopLoss == stop.price && s.slPips == stop.pips && s.entryPrice == data[currentIdx].close;
  }

  // ---------------------------------------------------------------------------
  // Scan
  // ---------------------------------------------------------------------------

  /** The signals bar i adds to the scan: its BUY, then its SELL; at most one of them. */
  function BarSignals(gen: SignalGenerator, data: seq<EnrichedBar>, symbol: string, i: int): (signals: seq<Signal>)
    ensures |signals| <= 1
    ensures forall s :: s in signals ==> 1 <= i < |data| && s.signalDate == data[i].timestamp
    ensures forall s :: s in signals <==>
              0 <= i < |data| && (SignalAt(gen, data, i, symbol, Buy) == Some(s) || SignalAt(gen, data, i, symbol, Sell) == Some(s))
  {
    if 0 <= i < |data| then
      SignalsExclusive(gen, data, i, symbol);
      OptionToSeq(SignalAt(gen, data, i, symbol, Buy)) + OptionToSeq(SignalAt(gen, data, i, symbol, Sell))
    else []
  }

  /** The signals of bars 1 .. k - 1 in bar order, given what each bar emits. */
  function ScanBars(emit: int -> seq<Signal>, k: int): (signals: seq<Signal>)
    decreases k
  {
    if k <= 1 then [] else ScanBars(emit, k - 1) + emit(k - 1)
  }

  /** Every scanned signal was emitted by one bar of 1 .. k - 1, and every emitted signal is scanned. */
  lemma {:induction false} ScanBarsMembers(emit: int -> seq<Signal>, k: int)
    ensures forall s :: s in ScanBars(emit, k) <==> exists i :: 1 <= i < k && s in emit(i)
    decreases k
  {
    if k > 1 {
      ScanBarsMembers(emit, k - 1);
      forall s ensures s in ScanBars(emit, k) <==> exists i :: 1 <= i < k && s in emit(i) {
        if s in emit(k - 1) {
          assert 1 <= k - 1 < k;
        }
      }
    }
  }

  /** With at most one signal per bar, the scan of bars 1 .. k - 1 holds at most k - 1 signals. */
  lemma {:induction false} ScanBarsLength(emit: int -> seq<Signal>, k: int)
    requires forall i :: |emit(i)| <= 1
    ensures |ScanBars(emit, k)| <= if k <= 1 then 0 else k - 1
    decreases k
  {
    if k > 1 {
      ScanBarsLength(emit, k - 1);
    }
  }

  /**
   * With at most one signal per bar, each dated by its bar, and bar dates
   * strictly increasing, the scan is strictly increasing by date.
   */
  lemma {:induction false} ScanBarsOrdered(emit: int -> seq<Signal>, date: int -> int, k: int)
    requires forall i :: |emit(i)| <= 1
    requires forall i, s :: s in emit(i) ==> s.signalDate == date(i)
    requires forall i, j :: 1 <= i < j < k ==> date(i) < date(j)
    ensures forall p, q :: 0 <= p < q < |ScanBars(emit, k)| ==> ScanBars(emit, k)[p].signalDate < ScanBars(emit, k)[q].signalDate
    ensures forall p :: 0 <= p < |ScanBars(emit, k)| ==> exists i :: 1 <= i < k && ScanBars(emit, k)[p].signalDate == date(i)
    decreases k
  {
    if k > 1 {
      ScanBarsOrdered(emit, date, k - 1);
      var prev := ScanBars(emit, k - 1);
      var all := ScanBars(emit, k);
      assert all == prev + emit(k - 1);
      forall p | 0 <= p < |ScanBars(emit, k)|
        ensures exists i :: 1 <= i < k && ScanBars(emit, k)[p].signalDate == date(i)
      {
        if p < |prev| {
          var i :| 1 <= i < k - 1 && prev[p].signalDate == date(i);
          assert all[p] == prev[p];
          assert 1 <= i < k && all[p].signalDate == date(i);
        } else {
          assert all[p] == emit(k - 1)[p - |prev|];
          assert all[p] in emit(k - 1);
          assert 1 <= k - 1 < k && all[p].signalDate == date(k - 1);
        }
      }
      assert forall p :: 0 <= p < |ScanBars(emit, k)| ==> exists i :: 1 <= i < k && ScanBars(emit, k)[p].signalDate == date(i);
      forall p, q | 0 <= p < q < |all| ensures all[p].signalDate < all[q].signalDate {
        assert all[p] == prev[p];
        if q < |prev| {
          assert all[q] == prev[q];
        } else {
          assert all[q] == emit(k - 1)[q - |prev|];
          var i :| 1 <= i < k - 1 && prev[p].signalDate == date(i);
        }
      }
    } else {
      assert ScanBars(emit, k) == [];
    }
  }

  /** `scan_for_signals` as a value: the signals of bars 1 .. k - 1. */
  function ScanUpTo(gen: SignalGenerator, data: seq<EnrichedBar>, symbol: string, k: int): (signals: seq<Signal>)
  {
    ScanBars(i => BarSignals(gen, data, symbol, i), k)
  }

  /**
   * Every scanned signal was emitted by one bar of 1 .. k - 1 (as its BUY or
   * its SELL signal, by BarSignals), and every such signal is scanned.
   */
  lemma ScanSoundAndComplete(gen: SignalGenerator, data: seq<EnrichedBar>, symbol: string, k: int)
    ensures forall s :: s in ScanUpTo(gen, data, symbol, k) <==> exists i :: 1 <= i < k && s in BarSignals(gen, data, symbol, i)
  {
    var emit := i => BarSignals(gen, data, symbol, i);
    ScanBarsMembers(emit, k);
    forall s ensures s in ScanUpTo(gen, data, symbol, k) ==> exists i :: 1 <= i < k && s in BarSignals(gen, data, symbol, i) {
      if s in ScanUpTo(gen, data, symbol, k) {
        var i :| 1 <= i < k && s in emit(i);
        assert emit(i) == BarSignals(gen, data, symbol, i);
      }
    }
    forall s, i | 1 <= i < k && s in BarSignals(gen, data, symbol, i) ensures s in ScanUpTo(gen, data, symbol, k) {
      assert emit(i) == BarSignals(gen, data, symbol, i);
    }
  }

  /** At most one signal per bar: the scan of bars 1 .. k - 1 has at most k - 1 signals. */
  lemma ScanLength(gen: SignalGenerator, data: seq<EnrichedBar>, symbol: string, k: int)
    ensures |ScanUpTo(gen, data, symbol, k)| <= if k <= 1 then 0 else k - 1
  {
    var emit := i => BarSignals(gen, data, symbol, i);
    ScanBarsLength(emit, k);
  }

  /** Over bars with strictly increasing timestamps the scan is strictly increasing by date. */
  lemma ScanOrderedByDate(gen: SignalGenerator, data: seq<EnrichedBar>, symbol: string, k: int)
    requires k <= |data|
    requires forall i, j :: 0 <= i < j < |data| ==> data[i].timestamp < data[j].timestamp
    ensures var scan := ScanUpTo(gen, data, symbol, k);
            forall p, q :: 0 <= p < q < |scan| ==> scan[p].signalDate < scan[q].signalDate
  {
    var emit := i => BarSignals(gen, data, symbol, i);
    var date := i => if 0 <= i < |data| then data[i].timestamp else 0;
    ScanBarsOrdered(emit, date, k);
  }

  /** No bar before the fifth passes the pullback check, so a frame of at most 5 bars has no signals. */
  lemma {:induction false} ShortFrameHasNoSignals(gen: SignalGenerator, data: seq<EnrichedBar>, symbol: string, k: int)
    requires k <= PullbackLookback
    ensures ScanUpTo(gen, data, symbol, k) == []
    decreases k
  {
    if k > 1 {
      ShortFrameHasNoSignals(gen, data, symbol, k - 1);
      assert BarSignals(gen, data, symbol, k - 1) == [];
    }
  }

  /** One step of the scan: bar i appends its BUY, then its SELL. */
  lemma ScanUpToStep(gen: SignalGenerator, data: seq<EnrichedBar>, symbol: string, i: int)
    requires 1 <= i < |data|
    ensures ScanUpTo(gen, data, symbol, i + 1)
            == ScanUpTo(gen, data, symbol, i) + OptionToSeq(SignalAt(gen, data, i, symbol, Buy))
               + OptionToSeq(SignalAt(gen, data, i, symbol, Sell))
  {
    assert ScanUpTo(gen, data, symbol, i + 1) == ScanUpTo(gen, data, symbol, i) + BarSignals(gen, data, symbol, i);
  }

  /**
   * `scan_for_signals`: for each bar from 1 on, the BUY check then the SELL
   * check, appending what each emits.
   */
  method ScanForSignals(gen: SignalGenerator, data: seq<EnrichedBar>, symbol: string) returns (signals: seq<Signal>)
    ensures signals == ScanUpTo(gen, data, symbol, |data|)
  {
    signals := [];
    if |data| == 0 {
      return;
    }
    var i := 1;
    while i < |data|
      invariant 1 <= i <= |data|
      invariant signals == ScanUpTo(gen, data, symbol, i)
    {
      var longSignal := GenerateSignal(gen, data, i, symbol, Buy);
      var shortSignal := GenerateSignal(gen, data, i, symbol, Sell);
      signals := signals + OptionToSeq(longSignal) + OptionToSeq(shortSignal);
      ScanUpToStep(gen, data, symbol, i);
      i := i + 1;
    }
  }
}
