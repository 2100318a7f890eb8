/**
 * The price series data model shared by the indicator engine and the signal
 * engine: a bar is one daily OHLC observation, an enriched bar carries the
 * indicator columns. Timestamps are day numbers.
 */
module PriceSeries {
  import opened Wrappers

  datatype Bar = Bar(timestamp: int, open: real, high: real, low: real, close: real)

  /** A row of the frame returned by `calculate_all_indicators`; `None` is pandas' NaN. */
  datatype EnrichedBar = EnrichedBar(
    timestamp: int,
    open: real,
    high: real,
    low: real,
    close: real,
    ema20: Option<real>,
    ema50: Option<real>,
    rsi14: Option<real>,
    atr14: Option<real>,
    swingHigh: Option<real>,
    swingLow: Option<real>)

  function Closes(bars: seq<Bar>): (cs: seq<real>)
    ensures |cs| == |bars|
    ensures forall i :: 0 <= i < |bars| ==> cs[i] == bars[i].close
  {
    seq(|bars|, i requires 0 <= i < |bars| => bars[i].close)
  }

  function Highs(bars: seq<Bar>): (hs: seq<real>)
    ensures |hs| == |bars|
    ensures forall i :: 0 <= i < |bars| ==> hs[i] == bars[i].high
  {
    seq(|bars|, i requires 0 <= i < |bars| => bars[i].high)
  }

  function Lows(bars: seq<Bar>): (ls: seq<real>)
    ensures |ls| == |bars|
    ensures forall i :: 0 <= i < |bars| ==> ls[i] == bars[i].low
  {
    seq(|bars|, i requires 0 <= i < |bars| => bars[i].low)
  }

  /** The price columns of an enriched frame, without its indicator columns. */
  function OhlcBars(data: seq<EnrichedBar>): (bars: seq<Bar>)
    ensures |bars| == |data|
    ensures forall i :: 0 <= i < |data| ==>
              bars[i] == Bar(data[i].timestamp, data[i].open, data[i].high, data[i].low, data[i].close)
  {
    seq(|data|, i requires 0 <= i < |data| => Bar(data[i].timestamp, data[i].open, data[i].high, data[i].low, data[i].close))
  }

  /** `[col for col in required if col not in columns]`, in the order of `required`. */
  function MissingColumns(required: seq<string>, columns: set<string>): (missing: seq<string>)
    ensures forall c :: c in missing <==> c in required && c !in columns
    ensures |missing| <= |required|
    ensures missing == [] <==> forall c :: c in required ==> c in columns
  {
    if required == [] then []
    else
      var rest := MissingColumns(required[1..], columns);
      assert forall c :: c in required <==> c == required[0] || c in required[1..];
      if required[0] in columns then rest else [required[0]] + rest
  }
}
