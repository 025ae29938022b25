/** Real arithmetic shared by the engines: absolute value, min/max and a
    model of Python's round(x, k). */
module Numeric {

  function Abs(x: real): (r: real)
    ensures r >= 0.0 && (r == x || r == -x)
  {
    if x < 0.0 then -x else x
  }

  function Max(a: real, b: real): (r: real)
    ensures r >= a && r >= b && (r == a || r == b)
  {
    if a >= b then a else b
  }

  function Min(a: real, b: real): (r: real)
    ensures r <= a && r <= b && (r == a || r == b)
  {
    if a <= b then a else b
  }

  /** The two precisions the engines round to. */
  datatype Places = Tenths | Hundredths

  function Scale(k: Places): real {
    match k
    case Tenths => 10.0
    case Hundredths => 100.0
  }

  /** Half of the last kept decimal place: the most that rounding to `k`
      decimals can move a value. */
  function HalfStep(k: Places): real {
    match k
    case Tenths => 0.05
    case Hundredths => 0.005
  }

  /** Python's round(x, 1) and round(x, 2), rounding halves upward; the
      model relies only on the error bound and the sign facts proved below. */
  function Round(x: real, k: Places): real {
    match k
    case Tenths => ((x * 10.0 + 0.5).Floor as real) / 10.0
    case Hundredths => ((x * 100.0 + 0.5).Floor as real) / 100.0
  }

  lemma RoundError(x: real, k: Places)
    ensures Abs(Round(x, k) - x) <= HalfStep(k)
  {
    match k
    case Tenths =>
      var f := (x * 10.0 + 0.5).Floor as real;
      assert x * 10.0 - 0.5 < f <= x * 10.0 + 0.5;
    case Hundredths =>
      var f := (x * 100.0 + 0.5).Floor as real;
      assert x * 100.0 - 0.5 < f <= x * 100.0 + 0.5;
  }

  lemma RoundSign(x: real, k: Places)
    ensures x >= 0.0 ==> Round(x, k) >= 0.0
    ensures x <= 0.0 ==> Round(x, k) <= 0.0
  {
    match k
    case Tenths =>
      if x >= 0.0 { assert (x * 10.0 + 0.5).Floor >= 0; }
      if x <= 0.0 { assert (x * 10.0 + 0.5).Floor <= 0; }
    case Hundredths =>
      if x >= 0.0 { assert (x * 100.0 + 0.5).Floor >= 0; }
      if x <= 0.0 { assert (x * 100.0 + 0.5).Floor <= 0; }
  }

  lemma RoundZero(k: Places)
    ensures Round(0.0, k) == 0.0
  {
    RoundSign(0.0, k);
  }

  /** A share count rounded from `dollars / px` and valued back at `px`
      stays within `px` half-steps of the dollars. */
  lemma RoundedValueError(dollars: real, px: real, k: Places)
    requires px > 0.0
    ensures Abs(Round(dollars / px, k) * px - dollars) <= px * HalfStep(k)
  {
    var e := Round(dollars / px, k) - dollars / px;
    RoundError(dollars / px, k);
    assert dollars / px * px == dollars;
    assert Round(dollars / px, k) * px - dollars == e * px;
    MulBound(e, HalfStep(k), px);
  }

  lemma DivSign(a: real, b: real)
    requires b > 0.0
    ensures a >= 0.0 ==> a / b >= 0.0
    ensures a <= 0.0 ==> a / b <= 0.0
  {
    assert a / b * b == a;
  }

  lemma MulBound(e: real, h: real, px: real)
    requires Abs(e) <= h && px > 0.0
    ensures Abs(e * px) <= px * h
  {
    if e >= 0.0 {
      assert e * px <= h * px;
    } else {
      assert (-e) * px <= h * px;
    }
  }
}
