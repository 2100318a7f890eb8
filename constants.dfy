/** Values from utils/constants.py that the strategy core reads. */
module Constants {

  const EURUSD: string := "EURUSD"
  const GBPUSD: string := "GBPUSD"
  const XAUUSD: string := "XAUUSD"

  /** Dollar value of one pip for a 0.01-lot position. */
  const PipValues: map<string, real> := map[EURUSD := 0.10, GBPUSD := 0.10, XAUUSD := 0.10]

  /** Smallest price increment per symbol. */
  const PipSizes: map<string, real> := map[EURUSD := 0.0001, GBPUSD := 0.0001, XAUUSD := 0.01]

  /** Signal types. */
  const SignalBuy: string := "BUY"
  const SignalSell: string := "SELL"

  /** Trade directions. */
  const DirectionLong: string := "LONG"
  const DirectionShort: string := "SHORT"

  /** Risk management. */
  const MinSlDistancePips: real := 30.0
  const MaxSlDistancePips: real := 60.0
  const DefaultRiskReward: real := 2.5

  /** Indicator periods. */
  const DefaultEmaShort: int := 20
  const DefaultEmaLong: int := 50
  const DefaultRsiPeriod: int := 14
  const DefaultAtrPeriod: int := 14

  /** RSI neutral zone. */
  const RsiNeutralLow: real := 40.0
  const RsiNeutralHigh: real := 60.0

  /** Smallest tradable position (a micro lot). */
  const MinLotSize: real := 0.01
}
