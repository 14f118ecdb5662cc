/** Dollar amounts as reals, and Python's `round(x, 2)`. */
module Money {
  const CENTS := 100.0
  const HALF_CENT := 0.005

  function Min(a: real, b: real): real {
    if b < a then b else a
  }

  function Max(a: real, b: real): real {
    if b > a then b else a
  }

  function Abs(a: real): real {
    if a < 0.0 then -a else a
  }

  /** Round to the nearest integer, ties to even. */
  function RoundHalfEven(x: real): int {
    var lower := x.Floor;
    var rest := x - lower as real;
    if rest < 0.5 || (rest == 0.5 && lower % 2 == 0) then lower else lower + 1
  }

  function RoundCents(x: real): real {
    RoundHalfEven(x * CENTS) as real / CENTS
  }

  predicate WholeCents(x: real) {
    x * CENTS == (x * CENTS).Floor as real
  }

  lemma RoundHalfEvenMonotone(x: real, y: real)
    requires x <= y
    ensures RoundHalfEven(x) <= RoundHalfEven(y)
  {
    assert x.Floor <= y.Floor;
  }

  lemma RoundMonotone(x: real, y: real)
    requires x <= y
    ensures RoundCents(x) <= RoundCents(y)
  {
    RoundHalfEvenMonotone(x * CENTS, y * CENTS);
  }

  lemma RoundError(x: real)
    ensures x - HALF_CENT <= RoundCents(x) <= x + HALF_CENT
  {
  }

  lemma RoundFixesCents(x: real)
    requires WholeCents(x)
    ensures RoundCents(x) == x
  {
  }

  /** The whole-cent amount nearest to x; of two equally near, the one with an even number of cents. */
  predicate NearestEven(y: real, x: real) {
    && WholeCents(y)
    && y - 0.005 <= x <= y + 0.005
    && (x == y - 0.005 || x == y + 0.005 ==> (y * 100.0).Floor % 2 == 0)
  }

  lemma RoundExactly(x: real, y: real)
    ensures NearestEven(y, x) <==> y == RoundCents(x)
  {
    var n := RoundHalfEven(x * CENTS);
    assert RoundCents(x) * CENTS == n as real;
    if NearestEven(y, x) {
      var k := (y * CENTS).Floor;
      assert y * CENTS == k as real;
      assert k == n;
    }
  }

  /** `floor(a / b)` shares at price b cost at most a, and one more share costs more. */
  lemma FloorQuotient(a: real, b: real)
    requires b > 0.0
    ensures var q := (a / b).Floor; q as real * b <= a < (q + 1) as real * b
    ensures a >= 0.0 ==> (a / b).Floor >= 0
  {
    var ratio := a / b;
    assert ratio * b == a;
    AtMost(ratio.Floor as real, ratio, b, a);
    LessThan(ratio, (ratio.Floor + 1) as real, b, a);
    NonnegativeRatio(ratio, b, a);
  }

  lemma AtMost(q: real, ratio: real, b: real, a: real)
    requires b > 0.0 && q <= ratio && ratio * b == a
    ensures q * b <= a
  {
    MultiplyOrder(q, ratio, b);
  }

  lemma LessThan(ratio: real, q: real, b: real, a: real)
    requires b > 0.0 && ratio < q && ratio * b == a
    ensures a < q * b
  {
    MultiplyStrict(ratio, q, b);
  }

  lemma NonnegativeRatio(ratio: real, b: real, a: real)
    requires b > 0.0 && ratio * b == a
    ensures a >= 0.0 ==> ratio >= 0.0
  {
    if ratio < 0.0 {
      LessThan(ratio, 0.0, b, a);
    }
  }

  lemma MultiplyOrder(a: real, b: real, c: real)
    requires a <= b && c >= 0.0
    ensures a * c <= b * c
  {
    assert (b - a) * c >= 0.0;
  }

  lemma MultiplyStrict(a: real, b: real, c: real)
    requires a < b && c > 0.0
    ensures a * c < b * c
  {
    assert (b - a) * c > 0.0;
  }

  /** `floor(a / b)` is the only whole number of shares with that property. */
  lemma FloorQuotientUnique(a: real, b: real, q: int)
    requires b > 0.0
    requires q as real * b <= a < (q + 1) as real * b
    ensures (a / b).Floor == q
  {
    FloorQuotient(a, b);
    SameQuotient(a, b, (a / b).Floor, q);
  }

  lemma SameQuotient(a: real, b: real, p: int, q: int)
    requires b > 0.0
    requires p as real * b <= a < (p + 1) as real * b
    requires q as real * b <= a < (q + 1) as real * b
    ensures p == q
  {
    if p < q {
      MultiplyOrder((p + 1) as real, q as real, b);
    } else if q < p {
      MultiplyOrder((q + 1) as real, p as real, b);
    }
  }
}
