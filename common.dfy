/**
 * Small shared definitions: an optional value and Swift's numeric helpers
 * `round` and `abs` as the model uses them on `real` values.
 */
module Common {

  /** A value that may be absent (Swift's `T?`). */
  datatype Option<+T> = None | Some(value: T)

  /** Swift's `abs` on a floating-point value, here on `real`. */
  function Abs(x: real): (r: real)
    ensures r >= 0.0
    ensures r == x || r == -x
  {
    if x < 0.0 then -x else x
  }

  /**
   * Swift's `round`: to the nearest integer, halfway cases away from zero.
   * The result is never more than one half away from its argument.
   */
  function Round(x: real): (r: int)
    ensures r as real - 0.5 <= x <= r as real + 0.5
    ensures x >= 0.0 ==> r >= 0 && x < r as real + 0.5
    ensures x < 0.0 ==> r <= 0 && r as real - 0.5 < x
  {
    if x >= 0.0 then (x + 0.5).Floor else -((-x + 0.5).Floor)
  }

  /** No integer is nearer to `x` than `Round(x)`. */
  lemma RoundIsNearest(x: real, k: int)
    ensures Abs(x - Round(x) as real) <= Abs(x - k as real)
  {
    var r := Round(x);
    if k < r {
      assert k as real <= r as real - 1.0;
    } else if k > r {
      assert k as real >= r as real + 1.0;
    }
  }
}
