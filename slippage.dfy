/** The minimum-output computation the script applies to a router quote before it
    submits its own swap: the quoted output less a whole-percent tolerance,
    computed in integer arithmetic that divides by 100 BEFORE it multiplies. */
module Slippage {

  /** The tolerance the script uses, in whole percent (100 is 100%). */
  const SLIPPAGE_TOLERANCE: int := 10

  /** `out.div(100).mul(100 - tolerance)`: BigNumber division truncates, and
      `out` is never negative, so Euclidean division agrees with it here. A
      tolerance of 100% accepts any output at all. */
  function MinOut(out: nat, tolerance: int): (minOut: int)
    ensures 0 <= tolerance <= 100 ==> 0 <= minOut <= out
    ensures tolerance == 100 ==> minOut == 0
  {
    (out / 100) * (100 - tolerance)
  }

  /** The exact tolerance formula, multiplying first: what a minimum of
      `tolerance` percent below `out` would be with a single truncation. */
  function ExactMinOut(out: nat, tolerance: int): (r: int)
  {
    out * (100 - tolerance) / 100
  }

  /** The subtractive reference formula `out - out * tolerance / 100`. */
  function ReferenceMinOut(out: nat, tolerance: int): (r: int)
  {
    out - out * tolerance / 100
  }

  /** For a tolerance between 0% and 100% the minimum is non-negative, never
      above the exactly truncated tolerance formula, and never above the quote. */
  lemma MinOutWithinQuote(out: nat, tolerance: int)
    requires 0 <= tolerance <= 100
    ensures 0 <= MinOut(out, tolerance) <= ExactMinOut(out, tolerance) <= out
  {
    var q, m, k := out / 100, out % 100, 100 - tolerance;
    SplitProduct(out, k);
    MulNonneg(q, k);
    MulNonneg(m, k);
    MulMonotone(out, k, 100);
    assert ExactMinOut(out, tolerance) == q * k + (m * k) / 100;
    assert out * k / 100 <= out * 100 / 100;
  }

  /** `out * k` splits along `out == 100 * (out / 100) + out % 100`. */
  lemma SplitProduct(out: nat, k: int)
    ensures out * k == 100 * ((out / 100) * k) + (out % 100) * k
    ensures out * k / 100 == (out / 100) * k + ((out % 100) * k) / 100
  {
    var q, m := out / 100, out % 100;
    assert out == 100 * q + m;
    calc {
      out * k;
      (100 * q + m) * k;
      100 * (q * k) + m * k;
    }
  }

  lemma MulNonneg(a: int, b: int)
    requires 0 <= a && 0 <= b
    ensures 0 <= a * b
  {
  }

  lemma MulMonotone(a: int, b: int, c: int)
    requires 0 <= a && b <= c
    ensures a * b <= a * c
  {
    assert a * c - a * b == a * (c - b);
    MulNonneg(a, c - b);
  }

  /** Dividing first loses exactly the truncated share of the last partial
      hundred: `(out % 100) * (100 - tolerance) / 100`, which is less than
      `100 - tolerance` (so less than 100 wei). */
  lemma MinOutTruncationLoss(out: nat, tolerance: int)
    requires 0 <= tolerance < 100
    ensures ExactMinOut(out, tolerance) - MinOut(out, tolerance) == (out % 100) * (100 - tolerance) / 100
    ensures ExactMinOut(out, tolerance) - MinOut(out, tolerance) < 100 - tolerance
  {
    var m, k := out % 100, 100 - tolerance;
    SplitProduct(out, k);
    MulMonotone(k, m, 99);
    assert m * k == k * m && k * 99 < 100 * k;
  }

  /** A tolerance of 0% does not return the quote: it rounds it down to a whole
      hundred wei. */
  lemma MinOutAtZeroTolerance(out: nat)
    ensures MinOut(out, 0) == out - out % 100
    ensures MinOut(out, 0) == out <==> out % 100 == 0
  {
    assert out == 100 * (out / 100) + out % 100;
  }

  /** When the quote is a whole number of hundreds the divide-first formula, the
      exact formula and the subtractive reference formula all agree, for any
      tolerance. */
  lemma MinOutExactOnWholeHundreds(out: nat, tolerance: int)
    requires out % 100 == 0
    ensures MinOut(out, tolerance) == ExactMinOut(out, tolerance) == ReferenceMinOut(out, tolerance)
  {
    var q := out / 100;
    assert out == 100 * q;
    assert out * (100 - tolerance) == 100 * (q * (100 - tolerance));
    assert out * tolerance == 100 * (q * tolerance);
    assert q * (100 - tolerance) == 100 * q - q * tolerance;
  }

  /** A tolerance of at least 1% keeps the minimum strictly below any positive
      quote. */
  lemma MinOutBelowPositiveQuote(out: nat, tolerance: int)
    requires 0 < tolerance <= 100
    requires out > 0
    ensures MinOut(out, tolerance) < out
  {
    var q, m, k := out / 100, out % 100, 100 - tolerance;
    assert out == 100 * q + m;
    assert k <= 99;
    MulMonotone(q, k, 99);
    if q == 0 {
      assert MinOut(out, tolerance) == 0;
    } else {
      assert q * 99 < 100 * q;
    }
  }

  /** At the script's 10% tolerance the divide-first formula and the
      subtractive formula agree only on quotes that are whole hundreds. */
  lemma MinOutMatchesReferenceOnlyOnWholeHundreds(out: nat)
    requires MinOut(out, 10) == ReferenceMinOut(out, 10)
    ensures out % 100 == 0
  {
    var q, m := out / 100, out % 100;
    assert out == 100 * q + m;
    assert out * 10 == 1000 * q + 10 * m;
    assert ReferenceMinOut(out, 10) == 90 * q + m - (10 * m) / 100;
  }

  /** Dividing first and the subtractive formula differ on a quote of 199 wei at
      10% tolerance: 90 against 180. */
  lemma MinOutDivergesFromReference()
    ensures MinOut(199, 10) == 90
    ensures ReferenceMinOut(199, 10) == 180
  {
  }
}
