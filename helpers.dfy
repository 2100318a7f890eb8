/**
 * Trade arithmetic helpers of utils/helpers.py: pip conversion, position sizing,
 * profit and loss, the weekday market-open test and the trade-parameter check.
 * Prices are exact reals; Python's `round(x, 2)` is modelled as round-half-even
 * on the exact value.
 */
module Helpers {
  import opened Wrappers
  import opened Constants

  // ---------------------------------------------------------------------------
  // Rounding to two decimals
  // ---------------------------------------------------------------------------

  /** The integer nearest to `y`, ties going to the even neighbour (Python's `round`). */
  function RoundHalfEven(y: real): (n: int)
    ensures y - 0.5 <= n as real <= y + 0.5
  {
    var f := y.Floor;
    var frac := y - f as real;
    if frac < 0.5 then f
    else if frac > 0.5 then f + 1
    else if f % 2 == 0 then f else f + 1
  }

  /** `round(x, 2)`: the multiple of 0.01 nearest to `x`. */
  function Round2(x: real): (r: real)
    ensures -0.005 <= r - x <= 0.005
    ensures (r * 100.0).Floor as real == r * 100.0
  {
    var n := RoundHalfEven(x * 100.0);
    assert n as real / 100.0 * 100.0 == n as real;
    n as real / 100.0
  }

  lemma RoundHalfEvenOdd(y: real)
    ensures RoundHalfEven(-y) == -RoundHalfEven(y)
  {
    var f := y.Floor;
    var frac := y - f as real;
    if frac == 0.0 {
      assert (-y).Floor == -f;
    } else {
      assert (-y).Floor == -f - 1;
      assert -y - ((-f - 1) as real) == 1.0 - frac;
      if frac == 0.5 {
        assert (-f - 1) % 2 == 0 <==> f % 2 != 0;
      }
    }
  }

  lemma RoundHalfEvenMonotone(y1: real, y2: real)
    requires y1 <= y2
    ensures RoundHalfEven(y1) <= RoundHalfEven(y2)
  {
    var f1, f2 := y1.Floor, y2.Floor;
    if f1 < f2 {
      assert RoundHalfEven(y1) <= f1 + 1 <= f2 <= RoundHalfEven(y2);
    }
  }

  /** Rounding commutes with negation, which keeps pip distances direction-symmetric. */
  lemma Round2Odd(x: real)
    ensures Round2(-x) == -Round2(x)
  {
    RoundHalfEvenOdd(x * 100.0);
    assert -x * 100.0 == -(x * 100.0);
  }

  lemma Round2Monotone(x: real, y: real)
    requires x <= y
    ensures Round2(x) <= Round2(y)
  {
    RoundHalfEvenMonotone(x * 100.0, y * 100.0);
  }

  /** A value that already has two decimals is left as it is. */
  lemma Round2Exact(n: int)
    ensures Round2(n as real / 100.0) == n as real / 100.0
  {
    var x := n as real / 100.0;
    assert x * 100.0 == n as real;
    assert (x * 100.0).Floor == n;
  }

  /** A positive rounded value comes from a positive input. */
  lemma Round2PositiveInput(x: real)
    requires Round2(x) > 0.0
    ensures x > 0.0
  {
    assert RoundHalfEven(0.0) == 0;
    if x <= 0.0 {
      Round2Monotone(x, 0.0);
    }
  }

  /** The multiple of 0.01 at or below `x` (rounding down to a micro lot). */
  function Floor2(x: real): (r: real)
    ensures r <= x < r + 0.01
    ensures (r * 100.0).Floor as real == r * 100.0
  {
    var n := (x * 100.0).Floor;
    assert n as real / 100.0 * 100.0 == n as real;
    n as real / 100.0
  }

  // ---------------------------------------------------------------------------
  // Pips
  // ---------------------------------------------------------------------------

  /** `PIP_SIZES.get(symbol, 0.0001)`. */
  function PipSize(symbol: string): (p: real)
    ensures p == 0.0001 || p == 0.01
    ensures symbol == EURUSD || symbol == GBPUSD ==> p == 0.0001
    ensures symbol == XAUUSD ==> p == 0.01
    ensures symbol !in PipSizes ==> p == 0.0001
  {
    if symbol in PipSizes then PipSizes[symbol] else 0.0001
  }

  /** `PIP_VALUES.get(symbol, 0.10)`: every symbol has the same pip value. */
  function PipValue(symbol: string): (v: real)
    ensures v == 0.10
  {
    if symbol in PipValues then PipValues[symbol] else 0.10
  }

  /** The price move from entry to exit, signed so that a profitable move is positive. */
  function SignedMove(entryPrice: real, exitPrice: real, direction: string): real
  {
    var priceDiff := exitPrice - entryPrice;
    if direction == DirectionShort then -priceDiff else priceDiff
  }

  /** `calculate_pips`: the move in pips, negated for 'SHORT', rounded to two decimals. */
  function CalculatePips(symbol: string, entryPrice: real, exitPrice: real, direction: string): (pips: real)
    ensures direction == DirectionShort ==>
              -0.005 <= pips - (entryPrice - exitPrice) / PipSize(symbol) <= 0.005
    ensures direction != DirectionShort ==>
              -0.005 <= pips - (exitPrice - entryPrice) / PipSize(symbol) <= 0.005
  {
    Round2(SignedMove(entryPrice, exitPrice, direction) / PipSize(symbol))
  }

  /**
   * Direction symmetry: a LONG distance is the negated SHORT distance over the
   * same prices, and equals the SHORT distance with entry and exit swapped.
   */
  lemma PipsDirectionSymmetry(symbol: string, a: real, b: real)
    ensures CalculatePips(symbol, a, b, DirectionLong) == -CalculatePips(symbol, a, b, DirectionShort)
    ensures CalculatePips(symbol, a, b, DirectionLong) == CalculatePips(symbol, b, a, DirectionShort)
  {
    var p := PipSize(symbol);
    assert DirectionLong != DirectionShort;
    assert -(b - a) / p == -((b - a) / p);
    Round2Odd((b - a) / p);
  }

  /** The sign of a pip result follows the sign of the directed price move. */
  lemma PipsSign(symbol: string, entryPrice: real, exitPrice: real, direction: string)
    ensures SignedMove(entryPrice, exitPrice, direction) >= 0.0 ==>
              CalculatePips(symbol, entryPrice, exitPrice, direction) >= 0.0
    ensures SignedMove(entryPrice, exitPrice, direction) <= 0.0 ==>
              CalculatePips(symbol, entryPrice, exitPrice, direction) <= 0.0
    ensures CalculatePips(symbol, entryPrice, exitPrice, direction) > 0.0 ==>
              SignedMove(entryPrice, exitPrice, direction) > 0.0
  {
    var m := SignedMove(entryPrice, exitPrice, direction);
    var p := PipSize(symbol);
    assert RoundHalfEven(0.0) == 0;
    if m >= 0.0 {
      Round2Monotone(0.0, m / p);
    }
    if m <= 0.0 {
      Round2Monotone(m / p, 0.0);
    }
    if Round2(m / p) > 0.0 {
      Round2PositiveInput(m / p);
    }
  }

  // ---------------------------------------------------------------------------
  // Position size and profit/loss
  // ---------------------------------------------------------------------------

  /** Python raises ZeroDivisionError when the stop distance is zero. */
  datatype SizingError = ZeroDivision

  /** `(balance * risk_pct / 100) / (sl_distance_pips * pip_value)`, before rounding. */
  function RawPositionSize(accountBalance: real, riskPct: real, slDistancePips: real, symbol: string): real
    requires slDistancePips != 0.0
  {
    (accountBalance * (riskPct / 100.0)) / (slDistancePips * PipValue(symbol))
  }

  /**
   * `calculate_position_size` as written: the raw size rounded to the NEAREST
   * 0.01, then raised to the 0.01 minimum lot.
   */
  function CalculatePositionSizeAsWritten(accountBalance: real, riskPct: real, slDistancePips: real, symbol: string)
    : (r: Result<real, SizingError>)
    ensures r.Err? <==> slDistancePips == 0.0
    ensures r.Ok? ==> r.value >= MinLotSize
    ensures r.Ok? && Round2(RawPositionSize(accountBalance, riskPct, slDistancePips, symbol)) >= MinLotSize ==>
              r.value == Round2(RawPositionSize(accountBalance, riskPct, slDistancePips, symbol))
    ensures r.Ok? && Round2(RawPositionSize(accountBalance, riskPct, slDistancePips, symbol)) < MinLotSize ==>
              r.value == MinLotSize
  {
    var riskAmount := accountBalance * (riskPct / 100.0);
    var pipValue := PipValue(symbol);
    if slDistancePips * pipValue == 0.0 then Err(ZeroDivision)
    else
      var size := Round2(riskAmount / (slDistancePips * pipValue));
      if size < MinLotSize then Ok(MinLotSize) else Ok(size)
  }

  /**
   * The rounding of the source overshoots the risk budget: 1% of 1000 with a
   * 35-pip stop allows 10 / 3.5 = 2.857 lots, which rounds up to 2.86 lots,
   * and 2.86 lots lose 10.01 at the stop.
   */
  lemma PositionSizeAsWrittenExceedsRisk()
    ensures CalculatePositionSizeAsWritten(1000.0, 1.0, 35.0, EURUSD) == Ok(2.86)
    ensures 2.86 * 35.0 * PipValue(EURUSD) > 1000.0 * (1.0 / 100.0)
  {
    var raw := RawPositionSize(1000.0, 1.0, 35.0, EURUSD);
    assert raw == 10.0 / 3.5;
    assert (raw * 100.0).Floor == 285 by {
      assert 285.0 <= raw * 100.0 < 286.0;
    }
    assert RoundHalfEven(raw * 100.0) == 286;
  }

  /**
   * `calculate_position_size` as its comment describes it: the raw size rounded
   * DOWN to 0.01, then raised to the 0.01 minimum lot.
   */
  function CalculatePositionSize(accountBalance: real, riskPct: real, slDistancePips: real, symbol: string)
    : (r: Result<real, SizingError>)
    ensures r.Err? <==> slDistancePips == 0.0
    ensures r.Ok? ==> r.value >= MinLotSize
    ensures r.Ok? ==> (r.value * 100.0).Floor as real == r.value * 100.0
    ensures r.Ok? && Floor2(RawPositionSize(accountBalance, riskPct, slDistancePips, symbol)) >= MinLotSize ==>
              r.value == Floor2(RawPositionSize(accountBalance, riskPct, slDistancePips, symbol))
    ensures r.Ok? && Floor2(RawPositionSize(accountBalance, riskPct, slDistancePips, symbol)) < MinLotSize ==>
              r.value == MinLotSize
  {
    var riskAmount := accountBalance * (riskPct / 100.0);
    var pipValue := PipValue(symbol);
    if slDistancePips * pipValue == 0.0 then Err(ZeroDivision)
    else
      var size := Floor2(riskAmount / (slDistancePips * pipValue));
      if size < MinLotSize then Ok(MinLotSize) else Ok(size)
  }

  /**
   * Above the minimum lot, the rounded-down size never loses more than
   * `risk_pct` percent of the balance when the stop is hit.
   */
  lemma PositionSizeWithinRisk(accountBalance: real, riskPct: real, slDistancePips: real, symbol: string)
    requires slDistancePips > 0.0
    requires RawPositionSize(accountBalance, riskPct, slDistancePips, symbol) >= MinLotSize
    ensures CalculatePositionSize(accountBalance, riskPct, slDistancePips, symbol).Ok?
    ensures var size := CalculatePositionSize(accountBalance, riskPct, slDistancePips, symbol).value;
            size * (slDistancePips * PipValue(symbol)) <= accountBalance * (riskPct / 100.0)
  {
    var risk := accountBalance * (riskPct / 100.0);
    var d := slDistancePips * PipValue(symbol);
    var raw := RawPositionSize(accountBalance, riskPct, slDistancePips, symbol);
    assert d > 0.0;
    assert raw * d == risk;
    var size := CalculatePositionSize(accountBalance, riskPct, slDistancePips, symbol).value;
    assert size == Floor2(raw) by {
      assert Floor2(raw) >= MinLotSize by {
        assert (MinLotSize * 100.0).Floor == 1;
      }
    }
    assert size <= raw;
    assert size * d <= raw * d;
  }

  /** `calculate_profit_loss`: pips times pip value times size, rounded to two decimals. */
  function CalculateProfitLoss(entryPrice: real, exitPrice: real, positionSize: real, symbol: string, direction: string)
    : (pl: real)
    ensures -0.005 <= pl - CalculatePips(symbol, entryPrice, exitPrice, direction) * 0.10 * positionSize <= 0.005
  {
    var pips := CalculatePips(symbol, entryPrice, exitPrice, direction);
    var pipValue := PipValue(symbol);
    Round2(pips * pipValue * positionSize)
  }

  /** A product with a non-negative factor has the sign of the other factor. */
  lemma MulSign(a: real, b: real)
    requires b >= 0.0
    ensures a >= 0.0 ==> a * b >= 0.0
    ensures a <= 0.0 ==> a * b <= 0.0
  {
  }

  /** Rounding keeps a value on its side of zero. */
  lemma Round2KeepsSign(x: real)
    ensures x >= 0.0 ==> Round2(x) >= 0.0
    ensures x <= 0.0 ==> Round2(x) <= 0.0
  {
    assert RoundHalfEven(0.0) == 0;
    if x >= 0.0 {
      Round2Monotone(0.0, x);
    }
    if x <= 0.0 {
      Round2Monotone(x, 0.0);
    }
  }

  /** A rounded product of non-negative scale factors keeps the sign of its first factor. */
  lemma RoundedProductSign(p: real, v: real, size: real)
    requires v >= 0.0 && size >= 0.0
    ensures p >= 0.0 ==> Round2(p * v * size) >= 0.0
    ensures p <= 0.0 ==> Round2(p * v * size) <= 0.0
  {
    MulSign(p, v);
    MulSign(p * v, size);
    Round2KeepsSign(p * v * size);
  }

  lemma ProfitLossIsRoundedProduct(entryPrice: real, exitPrice: real, positionSize: real, symbol: string, direction: string)
    ensures CalculateProfitLoss(entryPrice, exitPrice, positionSize, symbol, direction)
         == Round2(CalculatePips(symbol, entryPrice, exitPrice, direction) * PipValue(symbol) * positionSize)
  {
  }

  /** A trade with a non-negative pip result never books a loss. */
  lemma ProfitNonNegative(entryPrice: real, exitPrice: real, positionSize: real, symbol: string, direction: string)
    requires positionSize >= 0.0
    requires CalculatePips(symbol, entryPrice, exitPrice, direction) >= 0.0
    ensures CalculateProfitLoss(entryPrice, exitPrice, positionSize, symbol, direction) >= 0.0
  {
    RoundedProductSign(CalculatePips(symbol, entryPrice, exitPrice, direction), PipValue(symbol), positionSize);
    ProfitLossIsRoundedProduct(entryPrice, exitPrice, positionSize, symbol, direction);
  }

  /** A trade with a non-positive pip result never books a profit. */
  lemma LossNonPositive(entryPrice: real, exitPrice: real, positionSize: real, symbol: string, direction: string)
    requires positionSize >= 0.0
    requires CalculatePips(symbol, entryPrice, exitPrice, direction) <= 0.0
    ensures CalculateProfitLoss(entryPrice, exitPrice, positionSize, symbol, direction) <= 0.0
  {
    RoundedProductSign(CalculatePips(symbol, entryPrice, exitPrice, direction), PipValue(symbol), positionSize);
    ProfitLossIsRoundedProduct(entryPrice, exitPrice, positionSize, symbol, direction);
  }

  // ---------------------------------------------------------------------------
  // Market hours
  // ---------------------------------------------------------------------------

  /**
   * Python's `weekday()` (Monday = 0 .. Sunday = 6) of the date `day` days after
   * 1970-01-01, which was a Thursday.
   */
  function Weekday(day: int): (w: int)
    ensures 0 <= w < 7
  {
    (day + 3) % 7
  }

  /** `is_market_open` for an explicit date: closed exactly on Saturdays and Sundays. */
  function IsMarketOpen(day: int): (open: bool)
    ensures !open <==> Weekday(day) == 5 || Weekday(day) == 6
  {
    if Weekday(day) >= 5 then false else true
  }

  /** The number of open days among the `n` days starting at `day`. */
  function OpenDays(day: int, n: nat): nat
  {
    if n == 0 then 0 else OpenDays(day, n - 1) + OpenFlag(day + n - 1)
  }

  function OpenFlag(day: int): nat
  {
    if IsMarketOpen(day) then 1 else 0
  }

  /** The weekday advances by one, wrapping from Sunday to Monday. */
  lemma WeekdayStep(day: int)
    ensures Weekday(day + 1) == if Weekday(day) == 6 then 0 else Weekday(day) + 1
  {
    var q := (day + 3) / 7;
    assert day + 3 == 7 * q + Weekday(day);
    if Weekday(day) == 6 {
      assert day + 1 + 3 == 7 * (q + 1) + 0;
    } else {
      assert day + 1 + 3 == 7 * q + (Weekday(day) + 1);
    }
  }

  /** Every run of seven consecutive days has exactly five open days. */
  lemma OpenDaysPerWeek(day: int)
    ensures OpenDays(day, 7) == 5
  {
    WeekdayStep(day);
    WeekdayStep(day + 1);
    WeekdayStep(day + 2);
    WeekdayStep(day + 3);
    WeekdayStep(day + 4);
    WeekdayStep(day + 5);
    assert OpenDays(day, 1) == OpenFlag(day);
    assert OpenDays(day, 2) == OpenFlag(day) + OpenFlag(day + 1);
    assert OpenDays(day, 3) == OpenFlag(day) + OpenFlag(day + 1) + OpenFlag(day + 2);
    assert OpenDays(day, 4) == OpenFlag(day) + OpenFlag(day + 1) + OpenFlag(day + 2) + OpenFlag(day + 3);
    assert OpenDays(day, 5) == OpenFlag(day) + OpenFlag(day + 1) + OpenFlag(day + 2) + OpenFlag(day + 3) + OpenFlag(day + 4);
    assert OpenDays(day, 6) == OpenFlag(day) + OpenFlag(day + 1) + OpenFlag(day + 2) + OpenFlag(day + 3) + OpenFlag(day + 4) + OpenFlag(day + 5);
    assert OpenDays(day, 7) == OpenFlag(day) + OpenFlag(day + 1) + OpenFlag(day + 2) + OpenFlag(day + 3) + OpenFlag(day + 4) + OpenFlag(day + 5) + OpenFlag(day + 6);
  }

  // ---------------------------------------------------------------------------
  // Trade parameter check
  // ---------------------------------------------------------------------------

  datatype TradeParamError =
    | StopNotBelowEntry
    | TakeProfitNotAboveEntry
    | StopNotAboveEntry
    | TakeProfitNotBelowEntry
    | UnknownDirection

  /** `(is_valid, error_message)`. */
  datatype TradeCheck = TradeCheck(valid: bool, error: Option<TradeParamError>)

  /** `validate_trade_params`: the stop and target must lie on the right sides of the entry. */
  function ValidateTradeParams(entryPrice: real, stopLoss: real, takeProfit: real, direction: string): (r: TradeCheck)
    ensures direction == DirectionLong ==> (r.valid <==> stopLoss < entryPrice < takeProfit)
    ensures direction == DirectionShort ==> (r.valid <==> takeProfit < entryPrice < stopLoss)
    ensures direction != DirectionLong && direction != DirectionShort ==> r == TradeCheck(false, Some(UnknownDirection))
    ensures r.valid <==> r.error.None?
  {
    if direction == DirectionLong then
      if stopLoss >= entryPrice then TradeCheck(false, Some(StopNotBelowEntry))
      else if takeProfit <= entryPrice then TradeCheck(false, Some(TakeProfitNotAboveEntry))
      else TradeCheck(true, None)
    else if direction == DirectionShort then
      if stopLoss <= entryPrice then TradeCheck(false, Some(StopNotAboveEntry))
      else if takeProfit >= entryPrice then TradeCheck(false, Some(TakeProfitNotBelowEntry))
      else TradeCheck(true, None)
    else TradeCheck(false, Some(UnknownDirection))
  }
}
