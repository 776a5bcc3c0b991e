/** Vocabulary shared by every component: optional values, error returns,
    candles, and the three price levels of a signal. Prices and money are `real`. */
module Common {

  datatype Option<+T> = None | Some(value: T)

  /** An exception of the program is a `Failure`; a normal return is a `Success`. */
  datatype Result<+T, +E> = Success(value: T) | Failure(error: E) {
    predicate IsFailure() {
      Failure?
    }

    function PropagateFailure<U>(): Result<U, E>
      requires Failure?
    {
      Failure(error)
    }

    function Extract(): T
      requires Success?
    {
      value
    }
  }

  /** A check that either passes or raises. */
  datatype Outcome<+E> = Pass | Fail(error: E) {
    predicate IsFailure() {
      Fail?
    }

    function PropagateFailure<U>(): Result<U, E>
      requires Fail?
    {
      Failure(error)
    }

    function Extract(): ()
      requires Pass?
    {
      ()
    }
  }

  function Need<E>(condition: bool, error: E): Outcome<E> {
    if condition then Pass else Fail(error)
  }

  datatype Direction = Long | Short

  /** Entry, stop loss and take profit of one signal (immutable once created). */
  datatype Levels = Levels(direction: Direction, entry: real, stopLoss: real, takeProfit: real)

  /** LONG: stop < entry < take profit; SHORT: the mirror image. */
  predicate Ordered(l: Levels) {
    match l.direction
    case Long => l.stopLoss < l.entry < l.takeProfit
    case Short => l.takeProfit < l.entry < l.stopLoss
  }

  predicate PositiveLevels(l: Levels) {
    l.entry > 0.0 && l.stopLoss > 0.0 && l.takeProfit > 0.0
  }

  /** The 4H regime that may veto one side. */
  datatype Regime = Up | Down | Unclear

  datatype Candle = Candle(
    timestamp: int, open: real, high: real, low: real, close: real,
    volume: real, closeTime: int, isClosed: bool)

  /** Strictly ascending open times, as every loaded series is validated to be. */
  predicate Ascending(cs: seq<Candle>) {
    forall i, j :: 0 <= i < j < |cs| ==> cs[i].timestamp < cs[j].timestamp
  }

  function Abs(x: real): real {
    if x < 0.0 then -x else x
  }

  function Min(x: real, y: real): real {
    if y < x then y else x
  }

  function Max(x: real, y: real): real {
    if y > x then y else x
  }

  lemma MulMono(x: real, y: real, k: real)
    requires x <= y && k >= 0.0
    ensures x * k <= y * k
  {
    assert (y - x) * k >= 0.0;
  }

  lemma MulStrict(x: real, y: real, k: real)
    requires x < y && k > 0.0
    ensures x * k < y * k
  {
    assert (y - x) * k > 0.0;
  }

  lemma FactorBounds(q: real, x: real, n: real, d: real)
    requires d > 0.0 && x * d == n
    ensures q <= x <==> q * d <= n
    ensures x <= q <==> n <= q * d
  {
    if q < x {
      MulStrict(q, x, d);
    } else if x < q {
      MulStrict(x, q, d);
    }
  }

  /** A quotient by a positive number bounds exactly what the product does. */
  lemma DivBounds(q: real, n: real, d: real)
    requires d > 0.0
    ensures q <= n / d <==> q * d <= n
  {
    var x := n / d;
    assert x * d == n;
    FactorBounds(q, x, n, d);
  }

  lemma DivBoundsAbove(q: real, n: real, d: real)
    requires d > 0.0
    ensures n / d <= q <==> n <= q * d
  {
    var x := n / d;
    assert x * d == n;
    FactorBounds(q, x, n, d);
  }
}
