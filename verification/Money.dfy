// Rounding to whole paise. Inputs are exact amounts measured in paise.
module Money {
  type Amount = x: real | x >= 0.0 witness 0.0

  /** Decimal.quantize with ROUND_HALF_UP: the nearest whole paisa, ties away from zero. */
  function Quantize(x: real): int {
    if x >= 0.0 then (x + 0.5).Floor else -((-x + 0.5).Floor)
  }

  /** round(x + 1e-7, 2) read exactly: the nearest whole paisa, ties upwards. */
  function RoundMoney(x: real): int {
    (x + 0.5).Floor
  }

  /** Both roundings are nearest-integer maps that fix whole paise; they differ only on negative ties. */
  lemma Nearest(x: real)
    ensures -0.5 <= Quantize(x) as real - x <= 0.5
    ensures -0.5 < RoundMoney(x) as real - x <= 0.5
    ensures Quantize(x) != RoundMoney(x) <==> x < 0.0 && x + 0.5 == (x + 0.5).Floor as real
  {
    if x < 0.0 {
      var k := (x + 0.5).Floor;
      assert k as real <= x + 0.5 < k as real + 1.0;
      if x + 0.5 == k as real {
        assert -x + 0.5 == (1 - k) as real;
      } else {
        assert (-k) as real < -x + 0.5 < (-k) as real + 1.0;
        assert (-x + 0.5).Floor == -k;
      }
    }
  }

  lemma WholePaise(n: int)
    ensures Quantize(n as real) == n
    ensures RoundMoney(n as real) == n
  {
    assert (-n) as real == -(n as real);
  }

  lemma RoundUnique(x: real, n: int)
    requires -0.5 < n as real - x <= 0.5
    ensures RoundMoney(x) == n
  {
  }
}
