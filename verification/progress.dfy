/** The progress bar's clamp (components/ProgressBar.tsx). */
module ProgressBar {

  /** `Math.max(0, Math.min(100, value))`. */
  function Clamp(value: real): (r: real)
    ensures 0.0 <= r <= 100.0
    ensures 0.0 <= value <= 100.0 ==> r == value
    ensures value < 0.0 ==> r == 0.0
    ensures value > 100.0 ==> r == 100.0
  {
    var upper := if 100.0 < value then 100.0 else value;
    if 0.0 > upper then 0.0 else upper
  }

  /** Clamping twice is clamping once. */
  lemma ClampIdempotent(value: real)
    ensures Clamp(Clamp(value)) == Clamp(value)
  {
  }

  /** Clamping preserves order. */
  lemma ClampMonotone(lo: real, hi: real)
    requires lo <= hi
    ensures Clamp(lo) <= Clamp(hi)
  {
  }
}
