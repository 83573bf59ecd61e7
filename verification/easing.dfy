/** Transition easing of the twilight engine: the raw bracketing fraction is reshaped
    according to the transition character ("stable", "fast", anything else) of the two
    phases it lies between. */
module Easing {
  import opened Numeric

  const Stable := "stable"
  const Fast := "fast"

  /** The quadratic ease-in/ease-out used when either side is fast: `2t^2` below the
      mid-point, `1 - (2 - 2t)^2 / 2` from it on. */
  function FastCurve(t: real): (r: real)
    ensures 0.0 <= t <= 1.0 ==> 0.0 <= r <= 1.0
    ensures 0.0 <= t < 0.5 ==> r < 0.5
    ensures 0.5 <= t ==> r >= 0.5 || t > 1.0
  {
    if t < 0.5 then
      if 0.0 <= t then MulNonneg(t, t); MulMonotone(t, t, 0.5); 2.0 * (t * t)
      else 2.0 * (t * t)
    else
      var u := -2.0 * t + 2.0;
      if t <= 1.0 then MulNonneg(u, u); MulMonotone(u, u, 1.0); 1.0 - (u * u) / 2.0
      else 1.0 - (u * u) / 2.0
  }

  /** `stable` is tested before `fast`; a side that is neither counts as normal. */
  function ApplyTransitionEasing(t: real, typeA: string, typeB: string): (r: real)
    ensures 0.0 <= t <= 1.0 ==> 0.0 <= r <= 1.0
    ensures t == 0.0 ==> r == 0.0
    ensures t == 1.0 ==> r == 1.0
  {
    if typeA == Stable && typeB == Stable then
      if t < 0.3 then 0.0 else if t > 0.7 then 1.0 else (t - 0.3) / 0.4
    else if typeA == Stable || typeB == Stable then
      if typeA == Stable then (if t < 0.6 then 0.0 else (t - 0.6) / 0.4)
      else (if t < 0.4 then t / 0.4 else 1.0)
    else if typeA == Fast || typeB == Fast then
      FastCurve(t)
    else
      t
  }

  lemma {:induction false} FastCurveMonotone(s: real, t: real)
    requires 0.0 <= s <= t <= 1.0
    ensures FastCurve(s) <= FastCurve(t)
  {
    if t < 0.5 {
      SquareMonotone(s, t);
      assert FastCurve(s) == 2.0 * (s * s) && FastCurve(t) == 2.0 * (t * t);
    } else if s >= 0.5 {
      var u := -2.0 * s + 2.0;
      var v := -2.0 * t + 2.0;
      assert 0.0 <= v <= u;
      SquareMonotone(v, u);
      assert FastCurve(s) == 1.0 - (u * u) / 2.0 && FastCurve(t) == 1.0 - (v * v) / 2.0;
    } else {
      assert FastCurve(s) < 0.5 <= FastCurve(t);
    }
  }

  /** The shapes the curves are built from: plateaus, the mid-point of the
      stable/stable ramp, the early and late ramps, and identity for normal pairs. */
  lemma EasingShapes(t: real, typeA: string, typeB: string)
    ensures typeA == Stable && typeB == Stable ==>
      (t < 0.3 ==> ApplyTransitionEasing(t, typeA, typeB) == 0.0) &&
      (t > 0.7 ==> ApplyTransitionEasing(t, typeA, typeB) == 1.0) &&
      (t == 0.5 ==> ApplyTransitionEasing(t, typeA, typeB) == 0.5)
    ensures typeA == Stable && typeB != Stable && t < 0.6 ==>
      ApplyTransitionEasing(t, typeA, typeB) == 0.0
    ensures typeA != Stable && typeB == Stable && t >= 0.4 ==>
      ApplyTransitionEasing(t, typeA, typeB) == 1.0
    ensures typeA != Stable && typeB != Stable && typeA != Fast && typeB != Fast ==>
      ApplyTransitionEasing(t, typeA, typeB) == t
    ensures typeA == Stable && typeB == Fast ==>
      ApplyTransitionEasing(t, typeA, typeB) == ApplyTransitionEasing(t, Stable, "normal")
    ensures typeA != Stable && typeB != Stable && (typeA == Fast || typeB == Fast) ==>
      ApplyTransitionEasing(0.5, typeA, typeB) == 0.5
  {
  }

  /** Every curve is monotone non-decreasing on [0,1]. */
  lemma {:induction false} EasingMonotone(s: real, t: real, typeA: string, typeB: string)
    requires 0.0 <= s <= t <= 1.0
    ensures ApplyTransitionEasing(s, typeA, typeB) <= ApplyTransitionEasing(t, typeA, typeB)
  {
    if typeA != Stable && typeB != Stable && (typeA == Fast || typeB == Fast) {
      FastCurveMonotone(s, t);
    }
  }

  /** Running a transition backwards swaps the roles of its two phases: the curve for
      (A, B) is the point reflection of the curve for (B, A). */
  lemma EasingTimeReversal(t: real, typeA: string, typeB: string)
    ensures ApplyTransitionEasing(t, typeA, typeB) == 1.0 - ApplyTransitionEasing(1.0 - t, typeB, typeA)
  {
  }
}
