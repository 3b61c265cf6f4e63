/** Rounding a detection's confidence to two decimals. */
module Confidence {

  /** JavaScript's `Math.round` on a real: the nearest integer, halves
      rounded up (towards positive infinity). */
  function Round(x: real): (n: int)
    ensures x - 0.5 < n as real <= x + 0.5
  {
    (x + 0.5).Floor
  }

  /** `Math.round(100 * c) / 100`. */
  function RoundConfidence(c: real): (r: real)
    ensures (100.0 * r).Floor as real == 100.0 * r
    ensures c - 0.005 < r <= c + 0.005
  {
    Round(100.0 * c) as real / 100.0
  }

  function Distance(a: real, b: real): real {
    if a >= b then a - b else b - a
  }

  /** The rounded confidence is a nearest two-decimal value: no multiple of
      1/100 lies closer to the raw confidence. */
  lemma RoundConfidenceNearest(c: real, m: int)
    ensures Distance(RoundConfidence(c), c) <= Distance(m as real / 100.0, c)
  {
    var n := Round(100.0 * c);
    if m < n {
      assert m as real <= n as real - 1.0;
    } else if m > n {
      assert m as real >= n as real + 1.0;
    }
  }

  /** Rounding an already rounded confidence changes nothing. */
  lemma RoundConfidenceIdempotent(c: real)
    ensures RoundConfidence(RoundConfidence(c)) == RoundConfidence(c)
  {
    var r := RoundConfidence(c);
    var n := Round(100.0 * c);
    assert 100.0 * r == n as real;
    assert Round(100.0 * r) == n;
  }

  /** `0.8567` rounds to `0.86`, and `1.0` stays `1.0`. */
  lemma RoundConfidenceExamples()
    ensures RoundConfidence(0.8567) == 0.86
    ensures RoundConfidence(1.0) == 1.0
  {
    assert Round(85.67) == 86;
    assert Round(100.0) == 100;
  }
}
