/** `CryptoAnalyzer.calculate_deviation`: how far the current price sits from the all-time high. */
module Deviation {
  import opened Wrappers

  /**
    The percentage deviation of `current` from `ath`; 0 when the high is zero
    or either price is missing (Python `None`).
   */
  function CalculateDeviation(current: Option<real>, ath: Option<real>): (r: real)
    ensures ath == Some(0.0) || current.None? || ath.None? ==> r == 0.0
    // the percentage recovers the current price from the high
    ensures current.Some? && ath.Some? && ath.value != 0.0 ==>
              ath.value + ath.value * r / 100.0 == current.value
    ensures current.Some? && ath.Some? && 0.0 < current.value <= ath.value ==> -100.0 <= r <= 0.0
    ensures current.Some? && ath.Some? && 0.0 < current.value && 0.0 < ath.value ==>
              -100.0 < r && (r < 0.0 <==> current.value < ath.value) && (r == 0.0 <==> current.value == ath.value)
  {
    if ath == Some(0.0) || current.None? || ath.None? then 0.0
    else (current.value - ath.value) / ath.value * 100.0
  }
}
