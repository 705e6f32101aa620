/** Types shared by the engine, the execution layer and the candle pipeline.
    Decimal amounts are exact reals; timestamps are integers (milliseconds). */
module Domain {

  datatype Option<+T> = None | Some(value: T)

  datatype Side = Buy | Sell

  /** +1 for the buying side, -1 for the selling side. */
  function Sign(side: Side): real {
    if side == Buy then 1.0 else -1.0
  }

  newtype Byte = b: int | 0 <= b < 256
  type Symbol = seq<Byte>

  datatype AIAction = Neutral | EnterLong | ExitLong | EnterShort | ExitShort

  datatype Candle = Candle(
    openTime: int, open: real, high: real, low: real, close: real, volume: real,
    closeTime: int, quoteVolume: real, trades: nat,
    takerBuyVolume: real, takerSellVolume: real)

  datatype Trade = Trade(price: real, quantity: real, side: Side, timestamp: int)

  function Min(a: real, b: real): real {
    if b < a then b else a
  }

  function Max(a: real, b: real): real {
    if b > a then b else a
  }

  function Abs(a: real): real {
    if a < 0.0 then -a else a
  }

  /** A sequence without its last element. */
  function Front<T>(s: seq<T>): seq<T>
    requires s != []
  {
    s[..|s| - 1]
  }

  function Last<T>(s: seq<T>): T
    requires s != []
  {
    s[|s| - 1]
  }

  function Sum(xs: seq<real>): real {
    if xs == [] then 0.0 else Sum(Front(xs)) + Last(xs)
  }

  lemma SignOfFactor(x: real, b: real)
    requires b > 0.0
    ensures x < 0.0 <==> x * b < 0.0
    ensures x > 0.0 <==> x * b > 0.0
  {
  }

  lemma SignOfProduct(a: real, b: real)
    requires a >= 0.0
    ensures a * b == 0.0 <==> a == 0.0 || b == 0.0
    ensures b >= 0.0 ==> a * b >= 0.0
    ensures b <= 0.0 ==> a * b <= 0.0
  {
  }
}
