/** The cosine-eased blend of two values (`interpolate`). */
module Interpolation {

  /** `Math.PI`, as the decimal JavaScript prints for it (the exact double differs in later digits). */
  const Pi: real := 3.141592653589793

  /** `Math.cos`, passed in rather than defined: the model knows nothing of it beyond `IsCosine`. */
  type Cosine = real -> real

  /** What the model assumes of the cosine: its range is [-1, 1] and its value at 0 is 1. */
  ghost predicate IsCosine(cos: Cosine) {
    (forall t :: -1.0 <= cos(t) <= 1.0) && cos(0.0) == 1.0
  }

  function Min(a: real, b: real): real {
    if a <= b then a else b
  }

  function Max(a: real, b: real): real {
    if a <= b then b else a
  }

  /** The eased weight `alpha2 = (1 - cos(alpha * PI)) / 2` given to the second value. */
  function EaseWeight(alpha: real, cos: Cosine): real {
    (1.0 - cos(alpha * Pi)) / 2.0
  }

  /** The eased weight lies in [0, 1], and is 0 at alpha = 0. */
  lemma EaseWeightRange(alpha: real, cos: Cosine)
    requires IsCosine(cos)
    ensures 0.0 <= EaseWeight(alpha, cos) <= 1.0
    ensures alpha == 0.0 ==> EaseWeight(alpha, cos) == 0.0
  {
    assert -1.0 <= cos(alpha * Pi) <= 1.0;
  }

  /** `interpolate(x0, x1, alpha)`: x0 weighted by 1 - alpha2 plus x1 weighted by alpha2. */
  function Interpolate(x0: real, x1: real, alpha: real, cos: Cosine): real {
    var alpha2 := EaseWeight(alpha, cos);
    x0 * (1.0 - alpha2) + x1 * alpha2
  }

  /** A weight in [0, 1] scales a span d to somewhere between 0 and d. */
  lemma ScaleWithinSpan(d: real, w: real)
    requires 0.0 <= w <= 1.0
    ensures Min(0.0, d) <= d * w <= Max(0.0, d)
  {
    if d >= 0.0 {
      assert d * w <= d * 1.0;
    } else {
      assert d * w >= d * 1.0;
    }
  }

  /**
   * The blend is a convex combination of x0 and x1: it never leaves the interval
   * between them, and it is x0 itself at alpha = 0.
   */
  lemma InterpolateBetween(x0: real, x1: real, alpha: real, cos: Cosine)
    requires IsCosine(cos)
    ensures Min(x0, x1) <= Interpolate(x0, x1, alpha, cos) <= Max(x0, x1)
    ensures alpha == 0.0 ==> Interpolate(x0, x1, alpha, cos) == x0
  {
    var alpha2 := EaseWeight(alpha, cos);
    EaseWeightRange(alpha, cos);
    assert x0 * (1.0 - alpha2) + x1 * alpha2 == x0 + (x1 - x0) * alpha2;
    ScaleWithinSpan(x1 - x0, alpha2);
  }

  /** Where the cosine of PI is exactly -1, as `Math.cos(Math.PI)` is, alpha = 1 gives x1. */
  lemma InterpolateAtOne(x0: real, x1: real, cos: Cosine)
    requires cos(Pi) == -1.0
    ensures Interpolate(x0, x1, 1.0, cos) == x1
  {
  }

  /** Blending a value with itself gives that value, whatever the cosine and the weight. */
  lemma InterpolateSame(x: real, alpha: real, cos: Cosine)
    ensures Interpolate(x, x, alpha, cos) == x
  {
  }
}
