/**
  Python's `round(x, 2)`: the nearest multiple of 0.01, with ties going to
  the even multiple. Here it acts on exact reals, not on binary floats.
 */
module Rounding {

  /** `x` is a whole number of hundredths. */
  predicate IsCents(x: real) {
    (x * 100.0).Floor as real == x * 100.0
  }

  function Round2(x: real): (r: real)
    ensures IsCents(r)
    ensures -0.005 <= r - x <= 0.005
    ensures IsCents(x) ==> r == x
    ensures (x * 100.0 - (x * 100.0).Floor as real == 0.5) ==> (r * 100.0).Floor % 2 == 0
  {
    var n := x * 100.0;
    var f := n.Floor;
    var frac := n - f as real;
    var c := if frac > 0.5 then f + 1
             else if frac < 0.5 then f
             else if f % 2 == 0 then f
             else f + 1;
    assert (c as real / 100.0) * 100.0 == c as real;
    c as real / 100.0
  }

  /**
    Ties-to-even is symmetric about zero, so rounding a magnitude gives the
    magnitude of the rounded value: `round(abs(d), 2) == abs(round(d, 2))`.
   */
  lemma Round2Negate(x: real)
    ensures Round2(-x) == -Round2(x)
  {
    var n := x * 100.0;
    var f := n.Floor;
    var n' := -x * 100.0;
    assert n' == -n;
    if f as real == n {
      assert n'.Floor == -f;
    } else {
      assert (-f - 1) as real <= n' < (-f) as real;
      assert n'.Floor == -f - 1;
      if f % 2 == 0 {
        assert (-f - 1) % 2 == 1;
      } else {
        assert (-f - 1) % 2 == 0;
      }
    }
  }
}
