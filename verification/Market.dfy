/** Vocabulary shared by the simulators: sides, candles, and exact real arithmetic. */
module Market {
  datatype Option<+T> = None | Some(value: T)

  datatype Side = Buy | Sell

  datatype Style = Fast | Swing

  datatype Regime = Trending | Drift | WeakTrend | Ranging | Choppy

  /** A candle; `ts` is its timestamp in milliseconds. */
  datatype Candle = Candle(ts: int, open: real, high: real, low: real, close: real)

  ghost predicate ValidCandle(c: Candle) {
    && 0.0 < c.low
    && c.low <= c.open <= c.high
    && c.low <= c.close <= c.high
  }

  ghost predicate ValidCandles(cs: seq<Candle>) {
    forall k | 0 <= k < |cs| :: ValidCandle(cs[k])
  }

  function Abs(x: real): real { if x < 0.0 then -x else x }

  function Max(x: real, y: real): real { if x >= y then x else y }

  function Min(x: real, y: real): real { if x <= y then x else y }

  /** The direction factor: +1 for a long, -1 for a short. */
  function Sign(side: Side): real { if side.Buy? then 1.0 else -1.0 }

  lemma NonNegativeProduct(a: real, b: real)
    requires a >= 0.0 && b >= 0.0
    ensures a * b >= 0.0
  {
  }
}
