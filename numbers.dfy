/** Kotlin's two conversions from `Double` to `Int` that the pipeline uses for pixel rows and
    MIDI ticks, and the absolute value. Both are stated on unbounded integers: the saturation at `Int.MAX_VALUE` and
    `Int.MIN_VALUE` is not modelled. */
module Numbers {

  /** `Double.toInt()`: drops the fraction, rounding toward zero. */
  function Truncate(x: real): (n: int)
    ensures 0.0 <= x ==> n as real <= x < n as real + 1.0
    ensures x < 0.0 ==> n as real - 1.0 < x <= n as real
  {
    if x >= 0.0 then x.Floor else -((-x).Floor)
  }

  /** `Double.roundToInt()`: the nearest integer, a half rounded up. */
  function Round(x: real): (n: int)
    ensures n as real - 0.5 <= x < n as real + 0.5
  {
    (x + 0.5).Floor
  }

  /** `kotlin.math.abs`. */
  function Abs(x: real): real
  {
    if x < 0.0 then -x else x
  }

  /** Both conversions keep the order of their arguments. */
  lemma TruncateMonotone(x: real, y: real)
    requires x <= y
    ensures Truncate(x) <= Truncate(y)
  {
    if x < 0.0 && 0.0 <= y {
      assert Truncate(x) <= 0 <= Truncate(y);
    }
  }

  lemma RoundMonotone(x: real, y: real)
    requires x <= y
    ensures Round(x) <= Round(y)
  {
  }

  /** Both conversions leave a whole number as it is. */
  lemma WholeNumbers(n: int)
    ensures Truncate(n as real) == n && Round(n as real) == n
  {
  }
}
