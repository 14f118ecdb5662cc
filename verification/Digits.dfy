/** Decimal digit strings and the numbers they denote. */
module Digits {
  import opened Text

  predicate IsDigit(c: char) {
    '0' <= c <= '9'
  }

  predicate AllDigits(s: string) {
    forall i | 0 <= i < |s| :: IsDigit(s[i])
  }

  function Digit(c: char): nat
    requires IsDigit(c)
  {
    c as int - '0' as int
  }

  function DigitChar(d: nat): (c: char)
    requires d < 10
    ensures IsDigit(c) && Digit(c) == d
  {
    (d + '0' as int) as char
  }

  /** The digits before a decimal point, as a number. */
  function Whole(s: string): nat
    requires AllDigits(s)
  {
    if s == [] then 0 else Whole(s[..|s| - 1]) * 10 + Digit(s[|s| - 1])
  }

  /** The digits after a decimal point, as a number. */
  function Fraction(s: string): real
    requires AllDigits(s)
  {
    if s == [] then 0.0 else (Digit(s[0]) as real + Fraction(s[1..])) / 10.0
  }

  /** x moved n places to the left: multiplied by the n-th power of ten. */
  function Shift(x: real, n: nat): real {
    if n == 0 then x else Shift(x, n - 1) * 10.0
  }

  /** The digits of n, without leading zeros. */
  function DigitsOf(n: nat): (s: string)
    ensures AllDigits(s) && s != [] && (n > 0 ==> s[0] != '0') && (n == 0 ==> s == "0")
  {
    if n < 10 then [DigitChar(n)] else DigitsOf(n / 10) + [DigitChar(n % 10)]
  }

  lemma {:induction false} DigitsOfWhole(n: nat)
    ensures Whole(DigitsOf(n)) == n
  {
    if n < 10 {
      assert Whole([DigitChar(n)][..0]) == 0;
    } else {
      DigitsOfWhole(n / 10);
      var s := DigitsOf(n);
      assert s[..|s| - 1] == DigitsOf(n / 10);
    }
  }

  lemma {:induction false} ShiftAdd(x: real, y: real, n: nat)
    ensures Shift(x + y, n) == Shift(x, n) + Shift(y, n)
  {
    if n > 0 {
      ShiftAdd(x, y, n - 1);
    }
  }

  lemma {:induction false} ShiftTen(x: real, n: nat)
    ensures Shift(x * 10.0, n) == Shift(x, n + 1)
  {
    if n > 0 {
      ShiftTen(x, n - 1);
    }
  }

  lemma {:induction false} ShiftOrder(x: real, y: real, n: nat)
    ensures x < y <==> Shift(x, n) < Shift(y, n)
    ensures x == y <==> Shift(x, n) == Shift(y, n)
    ensures Shift(0.0, n) == 0.0
  {
    if n > 0 {
      ShiftOrder(x, y, n - 1);
    }
  }

  lemma {:induction false} ShiftTwice(x: real, m: nat, n: nat)
    ensures Shift(Shift(x, m), n) == Shift(x, m + n)
  {
    if n > 0 {
      ShiftTwice(x, m, n - 1);
    }
  }

  lemma {:induction false} WholeJoin(a: string, b: string)
    requires AllDigits(a) && AllDigits(b)
    ensures AllDigits(a + b) && Whole(a + b) as real == Shift(Whole(a) as real, |b|) + Whole(b) as real
  {
    if b == [] {
      assert a + b == a;
    } else {
      var init := b[..|b| - 1];
      WholeJoin(a, init);
      assert (a + b)[..|a + b| - 1] == a + init;
    }
  }

  lemma {:induction false} FractionBounds(s: string)
    requires AllDigits(s)
    ensures 0.0 <= Fraction(s) < 1.0
    ensures s != [] && s[|s| - 1] != '0' ==> Fraction(s) > 0.0
  {
    if s != [] {
      FractionBounds(s[1..]);
    }
  }

  lemma {:induction false} FractionJoin(a: string, c: char)
    requires AllDigits(a) && IsDigit(c)
    ensures AllDigits(a + [c])
    ensures Shift(Fraction(a + [c]), |a| + 1) == Shift(Fraction(a), |a| + 1) + Digit(c) as real
  {
    var longer := a + [c];
    if a == [] {
      assert longer[1..] == [];
      assert Shift(Fraction(longer), 1) == Shift(Fraction(longer), 0) * 10.0;
      ShiftOrder(0.0, 0.0, 1);
    } else {
      FractionJoin(a[1..], c);
      assert longer[1..] == a[1..] + [c];
      FractionShift(a, |a|);
      FractionShift(longer, |a|);
      ShiftAdd(Digit(a[0]) as real, Fraction(a[1..]), |a|);
      ShiftAdd(Digit(a[0]) as real, Fraction(longer[1..]), |a|);
    }
  }

  lemma FractionShift(s: string, n: nat)
    requires AllDigits(s) && s != []
    ensures Shift(Fraction(s), n + 1) == Shift(Digit(s[0]) as real + Fraction(s[1..]), n)
  {
    ShiftTen(Fraction(s), n);
  }

  /** Digits after the point are the same digits as a whole number, moved to the right. */
  lemma {:induction false} FractionScaled(s: string)
    requires AllDigits(s)
    ensures Shift(Fraction(s), |s|) == Whole(s) as real
  {
    if s != [] {
      var init, c := s[..|s| - 1], s[|s| - 1];
      assert s == init + [c];
      FractionScaled(init);
      FractionJoin(init, c);
    }
  }

  /** A number written before and after the point, moved left to its coefficient. */
  lemma CoefficientValue(whole: string, fraction: string)
    requires AllDigits(whole) && AllDigits(fraction)
    ensures AllDigits(whole + fraction)
    ensures Shift(Whole(whole) as real + Fraction(fraction), |fraction|) == Whole(whole + fraction) as real
  {
    WholeJoin(whole, fraction);
    FractionScaled(fraction);
    ShiftAdd(Whole(whole) as real, Fraction(fraction), |fraction|);
  }

  // ----- one number, one spelling -----

  predicate NoLeadingZero(s: string) {
    s != [] && (|s| > 1 ==> s[0] != '0')
  }

  lemma {:induction false} WholePositive(s: string)
    requires AllDigits(s) && s != [] && s[0] != '0'
    ensures Whole(s) >= 1
  {
    if |s| > 1 {
      WholePositive(s[..|s| - 1]);
    } else {
      assert Whole(s[..0]) == 0;
    }
  }

  lemma {:induction false} WholeUnique(a: string, b: string)
    requires AllDigits(a) && AllDigits(b) && NoLeadingZero(a) && NoLeadingZero(b) && Whole(a) == Whole(b)
    ensures a == b
  {
    var p, q := a[..|a| - 1], b[..|b| - 1];
    assert Whole(p) == Whole(q) && Digit(a[|a| - 1]) == Digit(b[|b| - 1]);
    assert a == p + [a[|a| - 1]] && b == q + [b[|b| - 1]];
    if p != [] {
      WholePositive(p);
    }
    if q != [] {
      WholePositive(q);
    }
    if p != [] && q != [] {
      WholeUnique(p, q);
    }
  }

  predicate NoTrailingZero(s: string) {
    s != [] ==> s[|s| - 1] != '0'
  }

  lemma {:induction false} FractionUnique(a: string, b: string)
    requires AllDigits(a) && AllDigits(b) && NoTrailingZero(a) && NoTrailingZero(b) && Fraction(a) == Fraction(b)
    ensures a == b
  {
    FractionBounds(a);
    FractionBounds(b);
    if a != [] && b != [] {
      FractionBounds(a[1..]);
      FractionBounds(b[1..]);
      assert Digit(a[0]) as real + Fraction(a[1..]) == Digit(b[0]) as real + Fraction(b[1..]);
      assert Digit(a[0]) == Digit(b[0]);
      FractionUnique(a[1..], b[1..]);
      assert a == [a[0]] + a[1..] && b == [b[0]] + b[1..];
    }
  }

  lemma PartsUnique(a: string, f: string, b: string, g: string)
    requires AllDigits(a) && AllDigits(b) && NoLeadingZero(a) && NoLeadingZero(b)
    requires AllDigits(f) && AllDigits(g) && NoTrailingZero(f) && NoTrailingZero(g)
    requires Whole(a) as real + Fraction(f) == Whole(b) as real + Fraction(g)
    ensures a == b && f == g
  {
    FractionBounds(f);
    FractionBounds(g);
    assert Whole(a) == Whole(b);
    WholeUnique(a, b);
    FractionUnique(f, g);
  }

  // ----- padding and trimming keep the number -----

  lemma {:induction false} TrimmedFraction(s: string)
    requires AllDigits(s)
    ensures AllDigits(TrimRight(s, '0')) && NoTrailingZero(TrimRight(s, '0'))
    ensures Fraction(TrimRight(s, '0')) == Fraction(s)
    ensures |TrimRight(s, '0')| <= |s|
  {
    if s != [] && s[|s| - 1] == '0' {
      var init := s[..|s| - 1];
      assert s == init + ['0'];
      TrimmedFraction(init);
      ZeroAdds(init);
    }
  }

  lemma {:induction false} ZeroAdds(s: string)
    requires AllDigits(s)
    ensures AllDigits(s + ['0']) && Fraction(s + ['0']) == Fraction(s)
  {
    if s == [] {
      assert s + ['0'] == ['0'] && ['0'][1..] == [];
    } else {
      ZeroAdds(s[1..]);
      assert (s + ['0'])[1..] == s[1..] + ['0'];
    }
  }

  function Zeros(n: nat): (s: string)
    ensures |s| == n && AllDigits(s) && forall i | 0 <= i < n :: s[i] == '0'
  {
    seq(n, i => '0')
  }

  lemma {:induction false} ZerosWhole(n: nat)
    ensures Whole(Zeros(n)) == 0
  {
    if n > 0 {
      assert Zeros(n)[..n - 1] == Zeros(n - 1);
      ZerosWhole(n - 1);
    }
  }
}
