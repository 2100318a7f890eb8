# Daily EMA pullback strategy core, in Dafny

This project models the decision core of a daily-bar forex trading system:

- **Indicator engine** (`Indicators`, indicators.dfy). It enriches a frame of OHLC bars with:
  - unadjusted exponential moving averages (EMA 20 and EMA 50);
  - RSI and ATR, smoothed with the same recursion;
  - swing-high and swing-low markers over a symmetric window.
  It also has the recent-swing lookup that places stops.
- **Signal engine** (`Signals`, signals.dfy). It is the "Daily EMA Pullback" rule pipeline, evaluated at one bar of an enriched frame: trend, pullback to EMA 20, RSI note, entry trigger, stop-loss and take-profit. A scan runs the pipeline over every bar.
- **Trade arithmetic** (`Helpers`, helpers.dfy): pips, position size, profit and loss, the weekday market-open test, and the trade-parameter sanity check.
- **Data validator** (`DataValidator`, validator.dfy). It is the data-quality gate: emptiness, required columns, null prices, OHLC consistency, date gaps, the date range, and the strict or lenient verdict.
- Shared modules:
  - `Wrappers`: Option and Result;
  - `Constants`: pip sizes and values, the 30/60 stop bounds, the 2.5 ratio, the RSI 40/60 zone and the indicator periods;
  - `PriceSeries`: bars, enriched bars and column extraction.

## Modelling conventions

- Prices are exact `real` numbers. A pandas NaN is `None` of an `Option`.
- Python's `round(x, 2)` is `Helpers.Round2`, which rounds half to even on the exact value.
- Timestamps are integer day numbers, so a difference of timestamps is the `.days` of the source.
- `Helpers.Weekday(day)` is `(day + 3) % 7`. Day 0 is a Thursday and Monday is 0, as in Python's `weekday()`.
- Reason and issue strings are datatype constructors that carry the values the source formats into them.
- `SignalGenerator` and `IndicatorCalculator` set their fields once in the constructor and never change them. They are therefore datatypes (values).
- Imperative code keeps its form:
  - `find_swing_highs`/`find_swing_lows` fill an `array` in place;
  - `check_pullback_to_ema`, `generate_*_signal` and `scan_for_signals` are methods with loops or successive appends;
  - `validate`, `_validate_ohlc_logic`, `_check_data_gaps` and `validate_multiple` are methods too.
  Each of these methods is proved equal to a specification function, and the lemmas are stated about that function.
- Behaviour of the code that the model keeps as written:
  - pandas `ewm(span=period, adjust=False)` defines the EMA from bar 0, seeded with the first value, so EMA 20 and EMA 50 exist on every bar.
  - The RSI division is unguarded. When the average loss is 0 the RSI is 100 if the average gain is positive, and undefined (`None`, pandas' NaN from 0 / 0) if both averages are 0.
  - The recent-swing lookup is not causal. It reads swing markers computed over the whole series, so its answer at bar `idx` can depend on bars up to `idx - 1 + lookback`, which come after `idx`. `Indicators.RecentSwingLowLooksAhead` exhibits two series that agree on bars 0..14 and still give different lookups at bar 11.
  - The pullback "currently near" test uses a fixed 30 pips. It does not use the configurable tolerance, which only applies to the touch search.
  - A signal's risk/reward is 0 when the stop distance is not positive. Timestamps are not checked for monotonic order; the ordering lemma of the scan takes increasing timestamps as a hypothesis.
- The signal pipeline (`SignalAt`, `GenerateSignal`, `SignalGeometry`, the `Scan*` members and `ScanForSignals`) is built on the CORRECTED versions of two lines of analysis/signal_generator.py, listed under "## Findings":
  - `CalculateStopLoss` measures the long stop distance as (entry - stop) / pip, where line 228 measures (stop - entry) / pip. As written, a BUY is emitted only when its stop lies 30 to 60 pips ABOVE the entry.
  - `TargetPips` measures the short target distance as (entry - target) / pip, where line 491 measures (target - entry) / pip. As written, every SELL carries a negative `tp_pips` and a negative risk/reward ratio.
  The as-written lines are modelled separately (`CalculateStopLossLongAsWritten`, `TargetPipsShortAsWritten`) with lemmas that exhibit the difference.

## Model

| member | source | states |
|---|---|---|
| Signals.CheckLongTrend | analysis/signal_generator.py:79-88 | passes iff close > ema20, close > ema50 and ema20 > ema50; on failure the reason names the first failing inequality in that order |
| Signals.CheckShortTrend | analysis/signal_generator.py:112-121 | the strict mirror of the long trend, with its own reasons |
| Signals.TrendsExclusive | analysis/signal_generator.py:79-121 | the long and the short trend never both hold for the same close and EMAs |
| Signals.PullbackCheck | analysis/signal_generator.py:142-170 | fails with "not enough data" when current_idx < lookback; passes exactly with a "near" or a "touched" reason |
| Signals.PullbackCheckMeaning | analysis/signal_generator.py:142-170 | from current_idx >= lookback on, passes iff the close is within 30 pips of EMA 20 or some bar of the last `lookback` bars has low - tol <= ema20 <= high + tol (tol = tolerance pips x pip size); a touch reports the OLDEST touching bar, and no earlier bar of the window touches |
| Signals.FirstTouchIsEarliest | analysis/signal_generator.py:160-168 | the oldest-first search returns a touching bar before which none touches, or none when no bar of the range touches |
| Signals.CheckPullbackToEma | analysis/signal_generator.py:142-170 | the loop with early return computes exactly PullbackCheck |
| Signals.EmaDistancePips | analysis/signal_generator.py:153-154 | the close-to-EMA distance in pips is defined iff EMA 20 is, and is non-negative |
| Signals.CheckRsiNeutral | analysis/signal_generator.py:185-191 | passes iff RSI is present and rsi_low <= rsi <= rsi_high; the reason is "not available" when RSI is missing |
| Signals.RsiNeverGates | analysis/signal_generator.py:362-367 | changing the RSI zone never changes whether a signal is emitted, nor its stop and target |
| Signals.BoundStop | analysis/signal_generator.py:231-237 | a stop is placed iff min_sl_pips <= distance <= max_sl_pips; otherwise "too tight" below the minimum, "too wide" above the maximum |
| Signals.LongStopPrice | analysis/signal_generator.py:211-224 | the long stop is the recent swing low (lookback 5, ten bars back) minus 10 pips, hence some earlier bar's low minus 10 pips; undefined only at bar 0 (the empty window whose NaN the `is None` test misses) |
| Signals.LongStopBelowLatestSwingLow | analysis/signal_generator.py:211-222 | with a swing low among the last ten bars, the long stop is the latest one's low minus 10 pips |
| Signals.LongStopBelowWindowLow | analysis/signal_generator.py:211-222 | without a swing low among the last ten bars, the long stop is their lowest low minus 10 pips |
| Signals.ShortStopPrice | analysis/signal_generator.py:257-270 | the short stop is the recent swing high (lookback 5, ten bars back) plus 10 pips, hence some earlier bar's high plus 10 pips; undefined only at bar 0 |
| Signals.ShortStopAboveLatestSwingHigh | analysis/signal_generator.py:257-268 | with a swing high among the last ten bars, the short stop is the latest one's high plus 10 pips |
| Signals.ShortStopAboveWindowHigh | analysis/signal_generator.py:257-268 | without a swing high among the last ten bars, the short stop is their highest high plus 10 pips |
| Signals.CalculateStopLossLongAsWritten | analysis/signal_generator.py:211-237 | the long stop as written: from bar 1 on, the distance d is (stop - entry) / pip to the cent, the stop is placed at LongStopPrice with distance d iff min_sl_pips <= d <= max_sl_pips, and otherwise rejected as too tight or too wide with d; undefined only at bar 0 |
| Signals.LongStopAsWrittenAboveEntry | analysis/signal_generator.py:228-231 | as written, with a positive minimum, every accepted long stop lies ABOVE the entry |
| Signals.LongStopAsWrittenRejectsSound | analysis/signal_generator.py:228-232 | a long stop 60 pips below entry is rejected as written ("too tight", -60 pips) and placed by the corrected rule |
| Signals.CalculateStopLoss | analysis/signal_generator.py:211-283 | stop-loss for both sides, long distance corrected: undefined only at bar 0; from bar 1 on, with the stop price from LongStopPrice / ShortStopPrice and d its adverse distance in pips (CalculatePips from the stop to the entry), the stop is placed at that price with distance d iff min_sl_pips <= d <= max_sl_pips, and otherwise rejected as too tight or too wide carrying d; with a positive minimum a long stop is below the close and a short stop above it |
| Signals.StopLossReadsBounds | analysis/signal_generator.py:231-235 | the stop depends on the generator only through its two bounds |
| Signals.CalculateTakeProfit | analysis/signal_generator.py:302-310 | the target is the entry plus (BUY) or minus (SELL) \|entry - stop\| x ratio; with a positive ratio and a distinct stop it lies on the profitable side |
| Signals.TakeProfitReadsRatio | analysis/signal_generator.py:303 | the target depends on the generator only through its ratio |
| Signals.TargetPipsShortAsWritten | analysis/signal_generator.py:491 | the short target distance as written is (target - entry) / pip size, to the cent |
| Signals.TargetPipsShortAsWrittenNegated | analysis/signal_generator.py:491 | the as-written short target distance is the negation of the intended one, so it is never positive for a target below entry |
| Signals.TargetPipsShort | analysis/signal_generator.py:491 | the corrected short target distance is (entry - target) / pip size, to the cent |
| Signals.TargetPipsShortExample | analysis/signal_generator.py:491 | for a 100-pip EURUSD short target, the as-written distance is -100 and the corrected one +100 |
| Signals.TargetPips | analysis/signal_generator.py:391 | the target distance: (target - entry) / pip size for BUY, the corrected short distance for SELL |
| Signals.RiskRewardRatio | analysis/signal_generator.py:394 | rr x sl_pips = tp_pips when sl_pips > 0, and rr = 0 otherwise |
| Signals.EntryTrigger | analysis/signal_generator.py:370-378 | BUY passes iff close > ema20 and close > previous close; SELL iff close < ema20 and close < previous close |
| Signals.TrendCheck | analysis/signal_generator.py:342-346 | selects the long or the short trend check by side |
| Signals.BuildSignal | analysis/signal_generator.py:390-412 | the record carries symbol, side, the bar's date and close, the stop, the computed target and distances, the ratio of the distances, and the indicator snapshot; the target lies beyond the entry on the profitable side |
| Signals.SignalAt | analysis/signal_generator.py:329-414 | an emitted signal has the requested side and the bar's timestamp, and needs current_idx >= 1 |
| Signals.SignalWhenGatesPass | analysis/signal_generator.py:329-414 | the converse: a bar from 1 on with all three indicators, passing trend, pullback and entry trigger and with a placed stop, emits exactly the signal built from its close, that stop and the five reasons |
| Signals.SignalFields | analysis/signal_generator.py:329-414 | an emitted signal passed every gate (trend, pullback, entry trigger, stop bounds), has all three indicators present, entry = close and date = timestamp, carries the placed stop's price and pips, the target computed from entry and that stop and its target pips, and records five reasons, the third being the RSI note |
| Signals.GenerateSignal | analysis/signal_generator.py:312-514 | the reason-appending pipeline with early returns computes exactly SignalAt for either side |
| Signals.SignalsExclusive | analysis/signal_generator.py:342-350 | no bar yields both a BUY and a SELL |
| Signals.PullbackReadsTolerance | analysis/signal_generator.py:145-146 | the pullback check depends on the generator only through its tolerance |
| Signals.SignalGeometry | analysis/signal_generator.py:390-412 | with a positive minimum stop and ratio: BUY has stop < entry < target, SELL has target < entry < stop, and the stop distance is positive |
| Signals.BarSignals | analysis/signal_generator.py:535-556 | at most one signal per index, dated with that bar, and exactly the BUY or SELL emitted there |
| Signals.ScanBarsMembers | analysis/signal_generator.py:535-556 | the fold over indices 1..k-1 contains exactly what some index emits |
| Signals.ScanBarsLength | analysis/signal_generator.py:535-556 | the fold holds at most one signal per visited index |
| Signals.ScanBarsOrdered | analysis/signal_generator.py:535-556 | with increasing per-index dates, the fold is strictly ordered by date and each date is a visited index's |
| Signals.ScanSoundAndComplete | analysis/signal_generator.py:535-556 | a signal is in the scan iff some index 1 <= i < k emits it |
| Signals.ScanLength | analysis/signal_generator.py:535-556 | the scan returns at most n - 1 signals |
| Signals.ScanOrderedByDate | analysis/signal_generator.py:535-556 | on a frame with increasing timestamps, the scan is strictly ordered by signal date |
| Signals.ShortFrameHasNoSignals | analysis/signal_generator.py:142-143 | no index below the pullback lookback of 5 emits a signal |
| Signals.ScanUpToStep | analysis/signal_generator.py:535-556 | visiting index i appends that bar's BUY, then its SELL |
| Signals.ScanForSignals | analysis/signal_generator.py:531-560 | the appending loop computes exactly `ScanUpTo(data, n)`, the left fold of BarSignals over indices 1..n-1 that ScanSoundAndComplete, ScanLength and ScanOrderedByDate describe |
| Indicators.SeqMax | analysis/indicators.py:141 | the maximum of a non-empty window belongs to it and bounds every element |
| Indicators.SeqMin | analysis/indicators.py:172 | the minimum of a non-empty window belongs to it and is below every element |
| Indicators.Alpha | analysis/indicators.py:36 | the smoothing factor 2 / (span + 1) lies in (0, 1] |
| Indicators.CalculateEma | analysis/indicators.py:36 | e[0] = x[0] and e[t] = alpha x[t] + (1 - alpha) e[t-1], same length as the input |
| Indicators.EmaUnfolds | analysis/indicators.py:36 | the fold satisfies the seed equation and the recursion at every index |
| Indicators.EmaPrefix | analysis/indicators.py:36 | the EMA of a prefix is the prefix of the EMA (it is causal) |
| Indicators.EmaSeed | analysis/indicators.py:36 | the EMA starts at the first value |
| Indicators.EmaRecurrence | analysis/indicators.py:36 | the recursion at a single index |
| Indicators.EmaAtLeast | analysis/indicators.py:36 | a lower bound of the input bounds the EMA |
| Indicators.EmaAtMost | analysis/indicators.py:36 | an upper bound of the input bounds the EMA |
| Indicators.EmaWithinRange | analysis/indicators.py:36 | e[t] lies between the minimum and the maximum of x[0..t] |
| Indicators.Deltas | analysis/indicators.py:58 | the bar-over-bar changes; bar 0 has none |
| Indicators.Gains | analysis/indicators.py:61-64 | gains are non-negative |
| Indicators.Losses | analysis/indicators.py:62-66 | loss magnitudes are non-negative |
| Indicators.GainsLossesSplitDeltas | analysis/indicators.py:61-66 | gain - loss is the delta, and one of the two is zero |
| Indicators.RsiValue | analysis/indicators.py:73-74 | unguarded RSI: undefined iff both averages are 0, 100 when only the loss average is 0, within [0, 100], and >= 50 iff avg gain >= avg loss |
| Indicators.AverageGains | analysis/indicators.py:69 | the smoothed gains are non-negative |
| Indicators.AverageLosses | analysis/indicators.py:70 | the smoothed losses are non-negative |
| Indicators.CalculateRsi | analysis/indicators.py:55-76 | one value per close, undefined at bar 0; from bar 1 on the RSI is RsiValue of the smoothed gain and loss averages of the changes so far, so every defined value lies within [0, 100] |
| Indicators.RsiWithoutLosses | analysis/indicators.py:73-74 | on a non-decreasing series every RSI is undefined or 100 |
| Indicators.RsiUndefinedOnFlatSeries | analysis/indicators.py:73-74 | on a constant series every RSI is undefined (0/0) |
| Indicators.Max3 | analysis/indicators.py:110 | the maximum of the three range components is one of them and bounds all three |
| Indicators.TrueRangeAt | analysis/indicators.py:105-110 | TR is high - low at bar 0, and from bar 1 on is one of the three components, at least high - low and non-negative |
| Indicators.TrueRange | analysis/indicators.py:105-110 | the per-bar true range series |
| Indicators.CalculateAtr | analysis/indicators.py:104-115 | one value per bar, seeded with bar 0's true range, then alpha x TR[t] + (1 - alpha) x ATR[t-1]: the EMA of the true range |
| Indicators.AtrNonNegative | analysis/indicators.py:105-113 | when the first bar has high >= low, every ATR is non-negative, and ATR[0] is the first bar's range |
| Indicators.SwingHighs | analysis/indicators.py:135-146 | one marker per bar |
| Indicators.SwingLows | analysis/indicators.py:166-177 | one marker per bar; the meaning is carried by SwingLowsMarkSwingPoints |
| Indicators.SwingHighsMarkSwingPoints | analysis/indicators.py:135-146 | index i is marked with high[i] iff it is in [lookback, len - lookback) and high[i] is the window maximum; the edges are never marked |
| Indicators.SwingLowsMarkSwingPoints | analysis/indicators.py:166-177 | the mirror with the window minimum |
| Indicators.FindSwingHighs | analysis/indicators.py:135-146 | the in-place array fill computes exactly SwingHighs |
| Indicators.FindSwingLows | analysis/indicators.py:166-177 | the in-place array fill computes exactly SwingLows |
| Indicators.LastMarked | analysis/indicators.py:203-206 | the latest marked index of a range, with nothing marked after it; none when nothing is marked |
| Indicators.LastMarkedLocal | analysis/indicators.py:203-206 | the latest marker depends only on the markers inside the range |
| Indicators.GetRecentSwingLow | analysis/indicators.py:199-209 | undefined iff the window [max(0, idx - back), idx) is empty; otherwise one of the window's lows and at least the window minimum |
| Indicators.GetRecentSwingHigh | analysis/indicators.py:231-241 | the mirror: undefined iff the window is empty; otherwise one of the window's highs and at most the window maximum |
| Indicators.RecentSwingHighIsLatest | analysis/indicators.py:235-238 | the latest swing high of the window is returned |
| Indicators.RecentSwingHighFallback | analysis/indicators.py:240-241 | without a swing high in the window, the window maximum is returned |
| Indicators.RecentSwingLowIsLatest | analysis/indicators.py:203-206 | the latest swing low of the window is returned |
| Indicators.RecentSwingLowFallback | analysis/indicators.py:208-209 | without a swing low in the window, the window minimum is returned |
| Indicators.RecentSwingLowPrefix | analysis/indicators.py:199-209 | the lookup at idx depends only on bars before idx + lookback |
| Indicators.LookAheadSeriesLookup | analysis/indicators.py:199-206 | on the example series, the lookup at bar 11 returns the swing low of bar 10 |
| Indicators.LookAheadSeriesAlteredHasNoSwingLows | analysis/indicators.py:166-177 | once bar 15 is lowered, no bar of 1..10 is a swing low |
| Indicators.LookAheadSeriesAlteredWindowMin | analysis/indicators.py:209 | the fallback minimum of the altered window is bar 1's low |
| Indicators.LookAheadSeriesAlteredLookup | analysis/indicators.py:199-209 | on the altered series, the lookup at bar 11 falls back to the window minimum |
| Indicators.RecentSwingLowLooksAhead | analysis/indicators.py:199 | two series equal on bars 0..14 give different lookups at bar 11: the lookup reads a later bar |
| Indicators.CalculateAllIndicators | analysis/indicators.py:281-306 | an empty frame comes back unchanged; a missing OHLC column is an error naming the missing columns; otherwise (valid spans) the rows keep the input bars and row i carries EMA(short)[i], EMA(long)[i], RSI[i], ATR[i] and the swing-high and swing-low markers of bar i with lookback 5 |
| Indicators.EnrichedRowMeaning | analysis/indicators.py:290-304 | an enriched row's EMAs lie between the lowest and highest close so far, its RSI when defined in [0, 100], and it is marked a swing high (low), with its own price, exactly when no bar within five of it is higher (lower) |
| PriceSeries.MissingColumns | analysis/indicators.py:289-291 | exactly the required columns that are absent; empty iff all are present |
| Helpers.RoundHalfEven | utils/helpers.py:28 | the nearest integer, within one half |
| Helpers.Round2 | utils/helpers.py:28 | within half a cent of the input, and a whole number of cents |
| Helpers.Round2Odd | utils/helpers.py:28 | rounding commutes with negation |
| Helpers.Round2Monotone | utils/helpers.py:28 | rounding is monotone |
| Helpers.Floor2 | utils/helpers.py:55 | the largest whole number of cents not above the input |
| Helpers.PipSize | utils/helpers.py:21 | 0.0001 for EURUSD and GBPUSD, 0.01 for XAUUSD, 0.0001 for unknown symbols, and one of these two for every symbol |
| Helpers.PipValue | utils/helpers.py:50 | 0.10 for every symbol, the default included |
| Helpers.CalculatePips | utils/helpers.py:21-28 | (exit - entry) / pip size, negated for SHORT, to the cent |
| Helpers.PipsDirectionSymmetry | utils/helpers.py:22-27 | pips(LONG, a, b) = -pips(SHORT, a, b) = pips(SHORT, b, a) |
| Helpers.PipsSign | utils/helpers.py:22-28 | the pip result has the sign of the directed price move |
| Helpers.CalculatePositionSizeAsWritten | utils/helpers.py:49-62 | as written: a division error for a zero stop distance; otherwise the raw size rounded to the nearest cent, or exactly 0.01 lots when that rounding is below 0.01 |
| Helpers.PositionSizeAsWrittenExceedsRisk | utils/helpers.py:53-56 | 1% of 1000 with a 35-pip stop gives 2.86 lots, which lose more than the 10 risked |
| Helpers.CalculatePositionSize | utils/helpers.py:49-62 | the size rounded DOWN: error only for a zero stop distance; otherwise Floor2 of the raw size (the largest whole number of cents not above it), or exactly 0.01 lots when that is below 0.01 |
| Helpers.PositionSizeWithinRisk | utils/helpers.py:49-62 | when the raw size reaches the minimum lot, the rounded-down size never risks more than risk_pct of the balance |
| Helpers.CalculateProfitLoss | utils/helpers.py:85-90 | within half a cent of pips x 0.10 x size |
| Helpers.ProfitNonNegative | utils/helpers.py:85-90 | with a non-negative size, a non-negative pip result never books a loss |
| Helpers.LossNonPositive | utils/helpers.py:85-90 | with a non-negative size, a non-positive pip result never books a profit |
| Helpers.Weekday | utils/helpers.py:108 | Python's weekday of a day number, in 0..6 |
| Helpers.IsMarketOpen | utils/helpers.py:108-113 | closed iff the weekday is Saturday (5) or Sunday (6) |
| Helpers.WeekdayStep | utils/helpers.py:108 | the weekday advances by one each day and wraps after Sunday |
| Helpers.OpenDaysPerWeek | utils/helpers.py:108-113 | any seven consecutive days hold exactly five open days |
| Helpers.ValidateTradeParams | utils/helpers.py:151-164 | LONG is valid iff stop < entry < target; SHORT iff target < entry < stop; any other direction is invalid; an error is returned exactly when invalid |
| DataValidator.NullColumnsOf | ingestion/data_validator.py:54-56 | exactly the listed columns that hold a null |
| DataValidator.NullColumnsSpec | ingestion/data_validator.py:54-55 | no column is reported iff every row has all four prices |
| DataValidator.Count | ingestion/data_validator.py:115-137 | the number of rows a rule flags, zero iff no row is flagged |
| DataValidator.RuleIssue | ingestion/data_validator.py:116-137 | a rule reports one issue iff it flags some row |
| DataValidator.OhlcLogicIssues | ingestion/data_validator.py:115-139 | at most four issues, each an OHLC issue counting between 1 and n rows |
| DataValidator.OhlcLogicClean | ingestion/data_validator.py:115-139 | no OHLC issue iff every row is consistent (null comparisons never flag a row) |
| DataValidator.ValidateOhlcLogic | ingestion/data_validator.py:102-139 | the appending method computes exactly OhlcLogicIssues |
| DataValidator.ConsistentRowWithoutNulls | ingestion/data_validator.py:115-135 | a row without nulls is consistent iff high >= low, high >= open and close, low <= open and close, and all four prices are positive |
| DataValidator.Timestamps | ingestion/data_validator.py:194 | the timestamp column |
| DataValidator.Insert | ingestion/data_validator.py:194 | inserting into a sorted list keeps it sorted and adds exactly one element |
| DataValidator.SortTimestamps | ingestion/data_validator.py:194 | the sorted timestamps are sorted and a permutation of the input |
| DataValidator.SortedPermutationUnique | ingestion/data_validator.py:194 | any two sorted permutations of the same timestamps are equal, so the gap check does not depend on the sort |
| DataValidator.GapsUpToMembers | ingestion/data_validator.py:201-210 | a gap is reported iff two consecutive sorted timestamps are more than 3 days apart, with those dates and that distance |
| DataValidator.GapsUpToLength | ingestion/data_validator.py:201-210 | at most n - 1 gaps |
| DataValidator.GapsUpToForward | ingestion/data_validator.py:201-210 | every reported gap spans more than 3 days, measured forward |
| DataValidator.NoGapsBoundsSpan | ingestion/data_validator.py:201-210 | without gaps, n sorted dates span at most 3 (n - 1) days |
| DataValidator.CheckDataGaps | ingestion/data_validator.py:181-212 | the loop over sorted rows computes exactly `DataGaps` (`GapsUpTo` over the sorted timestamps), which GapsUpToMembers, GapsUpToLength and GapsUpToForward describe |
| DataValidator.MinOf | ingestion/data_validator.py:227 | the earliest timestamp, attained |
| DataValidator.MaxOf | ingestion/data_validator.py:228 | the latest timestamp, attained |
| DataValidator.CheckDateRange | ingestion/data_validator.py:224-231 | "no data" iff there are no rows; otherwise the range, with days = last - first >= 0 and the record count |
| DataValidator.DateRangeBounds | ingestion/data_validator.py:227-229 | every timestamp lies within the range, and both ends are attained |
| DataValidator.SortedEnds | ingestion/data_validator.py:194-228 | the ends of the sorted timestamps are the minimum and the maximum |
| DataValidator.DateRangeIsSortedEnds | ingestion/data_validator.py:194-228 | the range runs from the first to the last sorted timestamp |
| DataValidator.NoGapsBoundsRange | ingestion/data_validator.py:201-231 | without gaps, the range covers at most 3 (n - 1) days |
| DataValidator.GapIssue | ingestion/data_validator.py:76-77 | one gap issue iff some gap exists; it counts all gaps and shows the first 5 |
| DataValidator.CriticalIssues | ingestion/data_validator.py:86-89 | exactly the critical issues of the list |
| DataValidator.Verdict | ingestion/data_validator.py:86-91 | valid iff no issue is critical |
| DataValidator.NoCriticalAppend | ingestion/data_validator.py:86-91 | a concatenation is critical-free iff both parts are |
| DataValidator.Validate | ingestion/data_validator.py:22-100 | the appending method with its early returns computes exactly `ValidationOf` (with `ContentValidation` after the column check), which ValidateVerdict, ValidateStrictStops and ValidateEndsWithDateRange describe |
| DataValidator.ValidateEmpty | ingestion/data_validator.py:42-44 | empty data is invalid with the single "empty" issue |
| DataValidator.ValidateMissingColumns | ingestion/data_validator.py:47-51 | a missing required column gives invalid with exactly one issue, naming exactly the missing columns |
| DataValidator.ContentIssuesCritical | ingestion/data_validator.py:53-91 | past the column check, the full issue list is critical-free iff no price is null |
| DataValidator.ValidCriticalFree | ingestion/data_validator.py:58-91 | valid implies no critical issue; in lenient mode valid iff no critical issue |
| DataValidator.ValidateVerdict | ingestion/data_validator.py:53-91 | for non-empty data with all columns: valid iff no price is null and, in strict mode, every row is OHLC-consistent; gaps and the range never matter |
| DataValidator.ValidateStrictStops | ingestion/data_validator.py:54-66 | in strict mode a null column ends the issue list with the single null issue, and otherwise OHLC issues end it with exactly those issues: no gap or date-range line follows |
| DataValidator.ValidateEndsWithDateRange | ingestion/data_validator.py:74-83 | data that reaches the end has the date-range line as its last issue, preceded by the gap issue when there are gaps |
| DataValidator.ValidateMultiple | ingestion/data_validator.py:248-260 | one result for exactly the input symbols, each the validation of its frame |

## Left out

- `_check_price_anomalies` (ingestion/data_validator.py:141-179) is left out, because it is a floating-point percent-change test that is advisory only. `DataValidator.Validate` therefore does not list its warning between the OHLC issues and the gap issue. The warning never affects the verdict for the supported symbols.
- `DataValidator.IsCritical` classifies issues by kind, not by searching the text for "missing", "empty" or "null". The two agree for every issue the model produces, because the other texts are fixed words, numbers and dates. They could disagree only for the left-out anomaly warning, which embeds the symbol name.
- `DataValidator.CheckDataGaps` works on integer day numbers. Sub-day timestamps, and the `.days` truncation of a partial day, are not modelled.
- Logging, the text of reasons and issues, and the joining of the reasons into one string are left out: they are side effects and formatting. Reasons are kept as a list of tags.
- `validate_indicators` (analysis/indicators.py:312-359) is left out because it only displays. `format_price`, `get_date_range` and the `utcnow()` default of `is_market_open` are left out because they are formatting and clock reads. `Helpers.IsMarketOpen` takes the day as a parameter.
- `add_indicators_to_data` and `validate_data` are left out: each is a one-line wrapper that builds an object and delegates.
- `Signals.CalculateStopLoss` has no branch for "no swing found". The lookup returns NaN, not `None`, for an empty window, and the empty window arises only at bar 0. Signal generation never reaches it, since it requires index >= 1. The model returns `SlUndefined` there.
- Floating-point behaviour is left out, because prices are exact reals. This affects NaN propagation inside the indicators (an undefined value only arises where the formulas divide 0 by 0) and rounding error. `Helpers.Round2` is exact round-half-even.
- `Indicators.CalculateAllIndicators` reports a span below 1 as `InvalidSpan`. That error is raised by pandas, not by the method itself.
- Database access, downloads, scripts, charts, configuration loading and the diagnostic scripts with their own thresholds are not part of this model.

## Findings

| source | as written | input that shows it | evidently intended | confidence | as-written member | corrected member |
|---|---|---|---|---|---|---|
| analysis/signal_generator.py:228 | the long stop distance is `calculate_pips(symbol, entry, sl, 'LONG')` = (sl - entry) / pip, negative for every stop below entry, so every sound long stop is rejected as "too tight" and only stops 30-60 pips ABOVE entry pass | EURUSD, close 1.1000, previous low 1.0950: stop 1.0940 gives -60 pips and "SL too tight" | distance (entry - sl) / pip, i.e. direction 'SHORT' as on line 274 | high, not executed | Signals.CalculateStopLossLongAsWritten, Signals.LongStopAsWrittenRejectsSound, Signals.LongStopAsWrittenAboveEntry | Signals.CalculateStopLoss |
| analysis/signal_generator.py:491 | the short target distance is `calculate_pips(symbol, tp, close, 'SHORT')` = (tp - close) / pip, negative for every short target, so tp_pips and the risk/reward ratio are negative | EURUSD, entry 1.1000, target 1.0900: -100 pips instead of 100 | `calculate_pips(symbol, close, tp, 'SHORT')` | high, not executed | Signals.TargetPipsShortAsWritten, Signals.TargetPipsShortAsWrittenNegated | Signals.TargetPipsShort, Signals.TargetPipsShortExample |
| utils/helpers.py:55-56 | the position size is rounded to the nearest 0.01 although the comment says "round down", so the size can risk more than risk_pct | balance 1000, risk 1%, stop 35 pips: 2.857 rounds to 2.86 lots, which lose 10.01 > 10 | round down (floor) to 0.01 | medium, not executed | Helpers.CalculatePositionSizeAsWritten, Helpers.PositionSizeAsWrittenExceedsRisk | Helpers.CalculatePositionSize, Helpers.PositionSizeWithinRisk |
