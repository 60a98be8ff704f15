/** Python's round() on reals. */
module Rounding {

  /** To the nearest integer, halves to even. */
  function Round(x: real): int {
    var below := x.Floor;
    var fraction := x - below as real;
    if fraction < 0.5 then below
    else if fraction > 0.5 then below + 1
    else if below % 2 == 0 then below else below + 1
  }

  /** A rounded value reaches `k` from the half below it on, that half included only when `k` is even. */
  lemma RoundAtLeast(x: real, k: int)
    ensures Round(x) >= k <==> x > k as real - 0.5 || (x == k as real - 0.5 && k % 2 == 0)
  {
    var below := x.Floor;
    assert below as real <= x < below as real + 1.0;
    if below >= k {
      assert below as real >= k as real;
    } else if below == k - 1 {
      assert below as real == k as real - 1.0;
      assert below % 2 == 0 <==> k % 2 != 0;
    } else {
      assert below as real <= k as real - 2.0;
    }
  }

  /** round(x, 4). */
  function Round4(x: real): real {
    Round(x * 10000.0) as real / 10000.0
  }

  /** Rounding crosses no threshold that has four decimals itself. */
  lemma Round4KeepsThreshold(x: real, threshold: real, k: int)
    requires threshold == k as real / 10000.0
    ensures x >= threshold ==> Round4(x) >= threshold
    ensures x <= threshold ==> Round4(x) <= threshold
  {
    RoundAtLeast(x * 10000.0, k);
    RoundAtLeast(x * 10000.0, k + 1);
  }
}
