/**
 * How broker amounts in many spellings become one canonical text each, so that equal text can stand for equal
 * numbers; and the publisher's check of that text.
 */
module AccountFacts {
  import opened Wrappers
  import opened Text
  import opened Digits

  const MAX_LENGTH := 64
  const MAX_WHOLE := 30
  const MAX_SCALE := 28
  const PRECISION := 28

  /** A value of the payload. Integers and floats come as the text Python prints for them. */
  datatype Value =
    | Absent
    | Text(text: string)
    | Number(negative: bool, coefficient: nat, exponent: int)
    | Unreadable

  datatype FactsError = ValueInvalid | ValueOutOfRange | BalancesAmbiguous

  // ----- cutting a text at its point -----

  function Before(s: string): string {
    if s == [] || s[0] == '.' then [] else [s[0]] + Before(s[1..])
  }

  function Behind(s: string): string {
    if s == [] then [] else if s[0] == '.' then s[1..] else Behind(s[1..])
  }

  function Joined(whole: string, fraction: string): string {
    if fraction == [] then whole else whole + "." + fraction
  }

  predicate Signed(s: string) {
    s != [] && (s[0] == '+' || s[0] == '-')
  }

  function Unsigned(s: string): string {
    if Signed(s) then s[1..] else s
  }

  predicate Negative(s: string) {
    s != [] && s[0] == '-'
  }

  lemma {:induction false} CutJoined(whole: string, fraction: string)
    requires '.' !in whole
    ensures Before(whole + "." + fraction) == whole && Behind(whole + "." + fraction) == fraction
    ensures Before(whole) == whole && Behind(whole) == []
  {
    if whole != [] {
      CutJoined(whole[1..], fraction);
      assert (whole + "." + fraction)[1..] == whole[1..] + "." + fraction;
      assert whole == [whole[0]] + whole[1..];
    }
  }

  lemma {:induction false} CutRebuilds(s: string)
    ensures '.' !in Before(s)
    ensures if '.' in s then s == Before(s) + "." + Behind(s) else s == Before(s) && Behind(s) == []
  {
    if s != [] && s[0] != '.' {
      CutRebuilds(s[1..]);
      assert s == [s[0]] + s[1..];
    } else if s != [] {
      assert s == "." + s[1..];
    }
  }

  lemma DigitsHaveNoPoint(s: string)
    requires AllDigits(s)
    ensures '.' !in s
  {
  }

  // ----- what an input must look like -----

  /** Up to three digits, then groups of a comma and three digits. */
  predicate Groups(s: string) {
    (1 <= |s| <= 3 && AllDigits(s))
    || (|s| >= 5 && s[|s| - 4] == ',' && AllDigits(s[|s| - 3..]) && Groups(s[..|s| - 4]))
  }

  predicate WholeShape(s: string) {
    (s != [] && AllDigits(s)) || Groups(s)
  }

  predicate DecimalShape(s: string) {
    var body := Unsigned(s);
    WholeShape(Before(body)) && AllDigits(Behind(body)) && ('.' in body ==> Behind(body) != [])
  }

  function WithoutCommas(s: string): string {
    if s == [] then [] else WithoutCommas(s[..|s| - 1]) + if s[|s| - 1] == ',' then [] else [s[|s| - 1]]
  }

  lemma {:induction false} DigitsHaveNoComma(s: string)
    requires AllDigits(s)
    ensures WithoutCommas(s) == s
  {
    if s != [] {
      DigitsHaveNoComma(s[..|s| - 1]);
      assert s == s[..|s| - 1] + [s[|s| - 1]];
    }
  }

  lemma {:induction false} CommaJoin(s: string, t: string)
    requires AllDigits(t)
    ensures WithoutCommas(s + t) == WithoutCommas(s) + t
  {
    if t == [] {
      assert s + t == s;
    } else {
      CommaJoin(s, t[..|t| - 1]);
      assert (s + t)[..|s + t| - 1] == s + t[..|t| - 1];
      assert WithoutCommas(s) + t == WithoutCommas(s) + t[..|t| - 1] + [t[|t| - 1]];
    }
  }

  lemma {:induction false} ShapedDigits(s: string)
    requires WholeShape(s)
    ensures AllDigits(WithoutCommas(s)) && WithoutCommas(s) != []
  {
    if AllDigits(s) {
      DigitsHaveNoComma(s);
    } else {
      var head, tail := s[..|s| - 4], s[|s| - 3..];
      ShapedDigits(head);
      CommaGroup(head, tail);
      assert s == head + "," + tail;
    }
  }

  lemma CommaGroup(head: string, tail: string)
    requires AllDigits(tail)
    ensures WithoutCommas(head + "," + tail) == WithoutCommas(head) + tail
  {
    CommaJoin(head + ",", tail);
    assert (head + ",")[..|head|] == head;
    assert WithoutCommas(head + ",") == WithoutCommas(head) + [];
  }

  // ----- printing a decimal -----

  /** At least one digit in front of a point `scale` places from the end. */
  function Padded(digits: string, scale: nat): (s: string)
    ensures |s| > scale
  {
    if |digits| <= scale then Zeros(scale + 1 - |digits|) + digits else digits
  }

  /** The digits before and after the point of coefficient x 10^exponent in fixed-point notation. */
  function FixedParts(coefficient: nat, exponent: int): (string, string) {
    var digits := DigitsOf(coefficient);
    if exponent >= 0 then (if coefficient == 0 then "0" else digits + Zeros(exponent), "")
    else
      var scale := -exponent;
      var padded := Padded(digits, scale);
      (padded[..|padded| - scale], padded[|padded| - scale..])
  }

  function Fixed(coefficient: nat, exponent: int): string {
    var parts := FixedParts(coefficient, exponent);
    Joined(parts.0, parts.1)
  }

  /** Trailing zeros behind a point go, and then the point. */
  function Trimmed(s: string): string {
    if '.' in s then TrimRight(TrimRight(s, '0'), '.') else s
  }

  function Sign(negative: bool): string {
    if negative then "-" else ""
  }

  // ----- negating in a context of 28 digits -----

  /** `coefficient` stands for coefficient x 10^dropped. */
  datatype Significant = Significant(coefficient: nat, dropped: nat)

  predicate Exceeds(coefficient: nat) {
    |DigitsOf(coefficient)| > PRECISION
  }

  function Kept(coefficient: nat): (s: string)
    requires Exceeds(coefficient)
    ensures AllDigits(s)
  {
    DigitsOf(coefficient)[..PRECISION]
  }

  function Dropped(coefficient: nat): (s: string)
    requires Exceeds(coefficient)
    ensures AllDigits(s) && s != []
  {
    DigitsOf(coefficient)[PRECISION..]
  }

  predicate RoundsUp(coefficient: nat)
    requires Exceeds(coefficient)
  {
    var rest := Dropped(coefficient);
    var half := Shift(5.0, |rest| - 1);
    Whole(rest) as real > half || (Whole(rest) as real == half && Whole(Kept(coefficient)) % 2 == 1)
  }

  /** Round to 28 significant digits, half to even. */
  function Rounded(coefficient: nat): Significant {
    if !Exceeds(coefficient) then Significant(coefficient, 0)
    else
      Significant(Whole(Kept(coefficient)) + (if RoundsUp(coefficient) then 1 else 0), |Dropped(coefficient)|)
  }

  // ----- the conversion -----

  function Printed(negative: bool, whole: string, fraction: string, parentheses: bool): string
    requires AllDigits(whole) && AllDigits(fraction)
  {
    WholeJoin(whole, fraction);
    var coefficient := Whole(whole + fraction);
    var number := if parentheses then Rounded(coefficient) else Significant(coefficient, 0);
    if number.coefficient == 0 then "0"
    else Trimmed(Sign(negative || parentheses) + Fixed(number.coefficient, number.dropped - |fraction|))
  }

  predicate Parenthesised(s: string) {
    |s| >= 2 && s[0] == '(' && s[|s| - 1] == ')'
  }

  /** Without parentheses and without a dollar sign. */
  function Bare(s: string): string {
    var inner := if Parenthesised(s) then Strip(s[1..|s| - 1]) else s;
    if inner != [] && inner[0] == '$' then Strip(inner[1..]) else inner
  }

  function WholeDigits(bare: string): string {
    WithoutCommas(Before(Unsigned(bare)))
  }

  function FractionDigits(bare: string): string {
    Behind(Unsigned(bare))
  }

  predicate Readable(s: string) {
    DecimalShape(Bare(s)) && !(Parenthesised(s) && Signed(Bare(s)))
  }

  function TextNumber(s: string): Result<Option<string>, FactsError> {
    if s == [] then Ok(None)
    else if |s| > MAX_LENGTH then Err(ValueOutOfRange)
    else if !Readable(s) then Err(ValueInvalid)
    else
      var whole, fraction := WholeDigits(Bare(s)), FractionDigits(Bare(s));
      if |whole| > MAX_WHOLE || |fraction| > MAX_SCALE then Err(ValueOutOfRange)
      else
        ShapedDigits(Before(Unsigned(Bare(s))));
        Ok(Some(Printed(Negative(Bare(s)), whole, fraction, Parenthesised(s))))
  }

  predicate InRange(coefficient: nat, exponent: int) {
    exponent + |DigitsOf(coefficient)| <= MAX_WHOLE && -exponent <= MAX_SCALE
  }

  function DecimalText(v: Value): Result<Option<string>, FactsError> {
    match v
    case Absent => Ok(None)
    case Unreadable => Err(ValueInvalid)
    case Number(negative, coefficient, exponent) =>
      if !InRange(coefficient, exponent) then Err(ValueOutOfRange)
      else TextNumber(Sign(negative) + Fixed(coefficient, exponent))
    case Text(text) => TextNumber(Strip(text))
  }

  // ----- what the amounts mean -----

  function Unshift(x: real, n: nat): real {
    if n == 0 then x else Unshift(x, n - 1) / 10.0
  }

  function Magnitude(whole: string, fraction: string): real
    requires AllDigits(whole) && AllDigits(fraction)
  {
    Whole(whole) as real + Fraction(fraction)
  }

  function WithSign(negative: bool, x: real): real {
    if negative then -x else x
  }

  /** The number a spelling means, exactly. */
  function TextReading(s: string): real
    requires Readable(s)
  {
    ShapedDigits(Before(Unsigned(Bare(s))));
    WithSign(Negative(Bare(s)) || Parenthesised(s), Magnitude(WholeDigits(Bare(s)), FractionDigits(Bare(s))))
  }

  /** coefficient x 10^exponent */
  function ExponentValue(coefficient: nat, exponent: int): real {
    if exponent >= 0 then Shift(coefficient as real, exponent) else Unshift(coefficient as real, -exponent)
  }

  function Reading(v: Value): real
    requires DecimalText(v).Ok? && DecimalText(v).value.Some?
  {
    match v
    case Number(negative, coefficient, exponent) =>
      WithSign(negative, ExponentValue(coefficient, exponent))
    case Text(text) => TextReading(Strip(text))
  }

  // ----- canonical amounts -----

  /** The publisher's amount grammar. */
  predicate AmountShape(s: string) {
    var body := if Negative(s) then s[1..] else s;
    AllDigits(Before(body)) && NoLeadingZero(Before(body))
    && AllDigits(Behind(body)) && ('.' in body ==> Behind(body) != [])
  }

  function ValueOf(s: string): real
    requires AmountShape(s)
  {
    var body := if Negative(s) then s[1..] else s;
    WithSign(Negative(s), Magnitude(Before(body), Behind(body)))
  }

  predicate Canonical(s: string) {
    var body := if Negative(s) then s[1..] else s;
    AmountShape(s) && NoTrailingZero(Behind(body)) && (ValueOf(s) == 0.0 ==> s == "0")
  }

  lemma CanonicalUnique(a: string, b: string)
    requires Canonical(a) && Canonical(b) && ValueOf(a) == ValueOf(b)
    ensures a == b
  {
    var x, y := if Negative(a) then a[1..] else a, if Negative(b) then b[1..] else b;
    if ValueOf(a) != 0.0 {
      FractionBounds(Behind(x));
      FractionBounds(Behind(y));
      assert Negative(a) == Negative(b);
      PartsUnique(Before(x), Behind(x), Before(y), Behind(y));
      CutRebuilds(x);
      CutRebuilds(y);
      assert Negative(a) ==> a == ['-'] + x && b == ['-'] + y;
    }
  }

  // ----- printing is canonical and keeps the value -----

  lemma {:induction false} LeadingZeros(n: nat, s: string)
    requires AllDigits(s)
    ensures AllDigits(Zeros(n) + s) && Whole(Zeros(n) + s) == Whole(s)
  {
    WholeJoin(Zeros(n), s);
    ZerosWhole(n);
    ShiftOrder(0.0, 0.0, |s|);
  }

  predicate Denotes(parts: (string, string), coefficient: nat, exponent: int) {
    && AllDigits(parts.0) && AllDigits(parts.1) && NoLeadingZero(parts.0)
    && |parts.1| == (if exponent < 0 then -exponent else 0)
    && Shift(Magnitude(parts.0, parts.1), |parts.1|)
       == if exponent > 0 then Shift(coefficient as real, exponent) else coefficient as real
  }

  /** Fixed-point digits denote coefficient x 10^exponent, with no idle zero in front. */
  lemma FixedValue(coefficient: nat, exponent: int)
    ensures Denotes(FixedParts(coefficient, exponent), coefficient, exponent)
  {
    if exponent >= 0 {
      LargeFixed(coefficient, exponent);
    } else {
      SmallFixed(coefficient, exponent);
    }
  }

  lemma LargeFixed(coefficient: nat, exponent: nat)
    ensures Denotes(FixedParts(coefficient, exponent), coefficient, exponent)
  {
    DigitsOfWhole(coefficient);
    if coefficient == 0 {
      ShiftOrder(0.0, 0.0, exponent);
    } else {
      var digits := DigitsOf(coefficient);
      hide DigitsOf, Whole;
      WholeJoin(digits, Zeros(exponent));
      ZerosWhole(exponent);
    }
  }

  lemma SmallFixed(coefficient: nat, exponent: int)
    requires exponent < 0
    ensures Denotes(FixedParts(coefficient, exponent), coefficient, exponent)
  {
    var scale: nat := -exponent;
    var digits := DigitsOf(coefficient);
    DigitsOfWhole(coefficient);
    PaddedShape(digits, scale);
    SplitDenotes(Padded(digits, scale), scale, coefficient, exponent);
    hide DigitsOf, Whole, Padded, Denotes, NoLeadingZero;
  }

  lemma SplitDenotes(padded: string, scale: nat, coefficient: nat, exponent: int)
    requires AllDigits(padded) && |padded| > scale > 0 && Whole(padded) == coefficient && exponent + scale == 0
    requires NoLeadingZero(padded[..|padded| - scale])
    ensures Denotes((padded[..|padded| - scale], padded[|padded| - scale..]), coefficient, exponent)
  {
    hide Whole, Fraction, Shift, NoLeadingZero;
    var whole, fraction := padded[..|padded| - scale], padded[|padded| - scale..];
    assert padded == whole + fraction;
    CoefficientValue(whole, fraction);
  }

  lemma PaddedShape(digits: string, scale: nat)
    requires AllDigits(digits) && digits != [] && (digits[0] != '0' || digits == "0")
    ensures var s := Padded(digits, scale);
      AllDigits(s) && Whole(s) == Whole(digits) && NoLeadingZero(s[..|s| - scale])
  {
    hide Whole;
    if |digits| <= scale {
      LeadingZeros(scale + 1 - |digits|, digits);
    }
  }

  lemma {:induction false} TrimTail(head: string, fraction: string)
    requires head != [] && head[|head| - 1] != '0'
    ensures TrimRight(head + fraction, '0') == head + TrimRight(fraction, '0')
  {
    if fraction == [] {
      assert head + fraction == head;
    } else {
      var s := head + fraction;
      assert s[..|s| - 1] == head + fraction[..|fraction| - 1];
      if fraction[|fraction| - 1] == '0' {
        TrimTail(head, fraction[..|fraction| - 1]);
      }
    }
  }

  /** Trimming an amount trims its fraction, and with the last digit of it the point. */
  lemma TrimmedJoined(sign: string, whole: string, fraction: string)
    requires '.' !in sign && AllDigits(whole) && whole != [] && AllDigits(fraction)
    ensures Trimmed(sign + Joined(whole, fraction)) == sign + Joined(whole, TrimRight(fraction, '0'))
  {
    DigitsHaveNoPoint(whole);
    var s := sign + Joined(whole, fraction);
    if fraction == [] {
      assert '.' !in s;
    } else {
      assert s[|sign| + |whole|] == '.';
      var head := sign + whole + ".";
      assert s == head + fraction;
      TrimTail(head, fraction);
      TrimmedFraction(fraction);
      hide TrimRight;
      PointGoes(sign, whole, TrimRight(fraction, '0'));
    }
  }

  lemma PointGoes(sign: string, whole: string, trimmed: string)
    requires AllDigits(whole) && whole != [] && AllDigits(trimmed)
    ensures TrimRight(sign + whole + "." + trimmed, '.') == sign + Joined(whole, trimmed)
  {
    var r := sign + whole + "." + trimmed;
    if trimmed == [] {
      assert r[..|r| - 1] == sign + whole;
      assert (sign + whole)[|sign + whole| - 1] == whole[|whole| - 1];
    } else {
      assert r[|r| - 1] == trimmed[|trimmed| - 1] != '.';
      assert r == sign + (whole + "." + trimmed);
    }
  }

  /** An amount put together from canonical parts is canonical, and it means what the parts mean. */
  lemma AssembledCanonical(negative: bool, whole: string, fraction: string)
    requires AllDigits(whole) && NoLeadingZero(whole) && AllDigits(fraction) && NoTrailingZero(fraction)
    requires Magnitude(whole, fraction) != 0.0
    ensures var s := Sign(negative) + Joined(whole, fraction);
      && Canonical(s) && ValueOf(s) == WithSign(negative, Magnitude(whole, fraction))
      && Negative(s) == negative
      && var body := if negative then s[1..] else s;
         Before(body) == whole && Behind(body) == fraction && ('.' in body <==> fraction != [])
  {
    DigitsHaveNoPoint(whole);
    CutJoined(whole, fraction);
    var s := Sign(negative) + Joined(whole, fraction);
    assert IsDigit(whole[0]);
    if negative {
      assert s[1..] == Joined(whole, fraction);
    } else {
      assert s == Joined(whole, fraction);
    }
    if fraction != [] {
      assert Joined(whole, fraction)[|whole|] == '.';
    }
  }

  /** The whole part and the fraction of a canonical amount. */
  function WholeOf(s: string): string {
    Before(if Negative(s) then s[1..] else s)
  }

  function FractionOf(s: string): string {
    Behind(if Negative(s) then s[1..] else s)
  }

  lemma ZeroIsCanonical()
    ensures Canonical("0") && ValueOf("0") == 0.0 && WholeOf("0") == "0" && FractionOf("0") == ""
  {
    assert AllDigits("0");
    DigitsHaveNoPoint("0");
    CutJoined("0", "");
    assert "0"[..0] == "";
    assert Whole("0") == Whole("0"[..0]) * 10 + Digit('0');
  }

  lemma TrimmedFixed(negative: bool, coefficient: nat, exponent: int)
    requires coefficient > 0
    ensures var s, parts := Trimmed(Sign(negative) + Fixed(coefficient, exponent)), FixedParts(coefficient, exponent);
      && Denotes(parts, coefficient, exponent)
      && Canonical(s) && ValueOf(s) == WithSign(negative, Magnitude(parts.0, parts.1))
      && Magnitude(parts.0, parts.1) > 0.0
      && WholeOf(s) == parts.0 && |FractionOf(s)| <= |parts.1|
  {
    FixedValue(coefficient, exponent);
    var parts := FixedParts(coefficient, exponent);
    hide FixedParts, DigitsOf;
    TrimmedJoined(Sign(negative), parts.0, parts.1);
    TrimmedFraction(parts.1);
    FractionBounds(parts.1);
    Positive(Magnitude(parts.0, parts.1), |parts.1|, coefficient, exponent);
    AssembledCanonical(negative, parts.0, TrimRight(parts.1, '0'));
  }

  lemma Positive(x: real, n: nat, coefficient: nat, exponent: int)
    requires x >= 0.0 && coefficient > 0
    requires Shift(x, n) == if exponent > 0 then Shift(coefficient as real, exponent) else coefficient as real
    ensures x > 0.0
  {
    ShiftOrder(0.0, x, n);
    if exponent > 0 {
      ShiftOrder(0.0, coefficient as real, exponent);
    }
  }

  // ----- rounding -----

  predicate AllZero(s: string) {
    forall i | 0 <= i < |s| :: s[i] == '0'
  }

  lemma {:induction false} ZeroDigits(s: string)
    requires AllDigits(s)
    ensures Whole(s) == 0 <==> AllZero(s)
  {
    if s != [] {
      ZeroDigits(s[..|s| - 1]);
      assert AllZero(s) <==> AllZero(s[..|s| - 1]) && s[|s| - 1] == '0';
    }
  }

  lemma {:induction false} WholeBelow(s: string)
    requires AllDigits(s)
    ensures Whole(s) as real < Shift(1.0, |s|)
    ensures Whole(s) as real <= Shift(1.0, |s|) - 1.0
  {
    if s != [] {
      WholeBelow(s[..|s| - 1]);
    }
  }

  lemma KeptAndDropped(c: nat)
    requires Exceeds(c)
    ensures c as real == Shift(Whole(Kept(c)) as real, |Dropped(c)|) + Whole(Dropped(c)) as real
    ensures Whole(Dropped(c)) as real < Shift(1.0, |Dropped(c)|)
  {
    DigitsOfWhole(c);
    assert DigitsOf(c) == Kept(c) + Dropped(c);
    WholeJoin(Kept(c), Dropped(c));
    WholeBelow(Dropped(c));
  }

  lemma HalfPositive(n: nat)
    ensures 0.0 < Shift(5.0, n)
    ensures Shift(5.0, n) + Shift(5.0, n) == Shift(1.0, n + 1)
  {
    ShiftOrder(0.0, 5.0, n);
    ShiftAdd(5.0, 5.0, n);
    ShiftTen(1.0, n);
  }

  /** Rounding changes the number exactly when a digit beyond the 28th significant one is not zero. */
  lemma RoundedExact(c: nat)
    ensures Shift(Rounded(c).coefficient as real, Rounded(c).dropped) == c as real
       <==> !Exceeds(c) || AllZero(Dropped(c))
  {
    if Exceeds(c) {
      KeptAndDropped(c);
      ZeroDigits(Dropped(c));
      HalfPositive(|Dropped(c)| - 1);
      ShiftAdd(Whole(Kept(c)) as real, 1.0, |Dropped(c)|);
    }
  }

  // ----- the printed value -----

  function PrintedMagnitude(s: string): real
    requires Canonical(s)
  {
    Magnitude(WholeOf(s), FractionOf(s))
  }

  function NumberOf(whole: string, fraction: string, parentheses: bool): Significant
    requires AllDigits(whole) && AllDigits(fraction)
  {
    WholeJoin(whole, fraction);
    var coefficient := Whole(whole + fraction);
    if parentheses then Rounded(coefficient) else Significant(coefficient, 0)
  }

  lemma PrintedValue(negative: bool, whole: string, fraction: string, parentheses: bool)
    requires AllDigits(whole) && AllDigits(fraction)
    ensures var s, number := Printed(negative, whole, fraction, parentheses), NumberOf(whole, fraction, parentheses);
      && Canonical(s)
      && ValueOf(s) == WithSign(negative || parentheses, PrintedMagnitude(s))
      && Shift(PrintedMagnitude(s), |fraction|) == Shift(number.coefficient as real, number.dropped)
      && |FractionOf(s)| <= |fraction|
  {
    hide *;
    var number := NumberOf(whole, fraction, parentheses);
    PrintedIs(negative, whole, fraction, parentheses);
    if number.coefficient == 0 {
      PrintedZero(negative || parentheses, number.dropped, |fraction|);
    } else {
      PrintedNonzero(negative || parentheses, number, |fraction|);
    }
  }

  lemma PrintedIs(negative: bool, whole: string, fraction: string, parentheses: bool)
    requires AllDigits(whole) && AllDigits(fraction)
    ensures var number := NumberOf(whole, fraction, parentheses);
      Printed(negative, whole, fraction, parentheses)
      == if number.coefficient == 0 then "0"
         else Trimmed(Sign(negative || parentheses) + Fixed(number.coefficient, number.dropped - |fraction|))
  {
    hide Whole, Rounded, Trimmed, Fixed;
  }

  lemma PrintedZero(negative: bool, dropped: nat, scale: nat)
    ensures Canonical("0") && ValueOf("0") == WithSign(negative, PrintedMagnitude("0")) && |FractionOf("0")| <= scale
    ensures Shift(PrintedMagnitude("0"), scale) == Shift(0.0, dropped)
  {
    ZeroIsCanonical();
    ShiftOrder(0.0, 0.0, scale);
    ShiftOrder(0.0, 0.0, dropped);
  }

  lemma PrintedNonzero(negative: bool, number: Significant, scale: nat)
    requires number.coefficient > 0
    ensures var s := Trimmed(Sign(negative) + Fixed(number.coefficient, number.dropped - scale));
      && Canonical(s)
      && ValueOf(s) == WithSign(negative, PrintedMagnitude(s))
      && Shift(PrintedMagnitude(s), scale) == Shift(number.coefficient as real, number.dropped)
      && |FractionOf(s)| <= scale
  {
    var exponent := number.dropped - scale;
    var s, parts := Trimmed(Sign(negative) + Fixed(number.coefficient, exponent)), FixedParts(number.coefficient, exponent);
    TrimmedFixed(negative, number.coefficient, exponent);
    assert Denotes(parts, number.coefficient, exponent);
    assert |parts.1| == if exponent < 0 then -exponent else 0;
    assert Shift(Magnitude(parts.0, parts.1), |parts.1|)
       == if exponent > 0 then Shift(number.coefficient as real, exponent) else number.coefficient as real;
    hide *;
    SameMagnitude(s, negative, Magnitude(parts.0, parts.1));
    ScaledUp(Magnitude(parts.0, parts.1), number.coefficient, number.dropped, scale, |parts.1|);
  }

  lemma SameMagnitude(s: string, negative: bool, x: real)
    requires Canonical(s) && ValueOf(s) == WithSign(negative, x) && x > 0.0
    ensures PrintedMagnitude(s) == x && Negative(s) == negative
  {
    FractionBounds(FractionOf(s));
  }

  lemma ScaledUp(x: real, coefficient: nat, dropped: nat, scale: nat, n: nat)
    requires var exponent := dropped - scale;
      && n == (if exponent < 0 then -exponent else 0)
      && Shift(x, n) == if exponent > 0 then Shift(coefficient as real, exponent) else coefficient as real
    ensures Shift(x, scale) == Shift(coefficient as real, dropped)
  {
    var exponent := dropped - scale;
    if exponent > 0 {
      ShiftTwice(coefficient as real, exponent, scale);
    } else {
      ShiftTwice(x, n, dropped);
    }
  }

  // ----- the value is kept -----

  /** Only parentheses around more than 28 significant digits, not all zero beyond them, lose anything. */
  predicate FaithfulText(s: string)
    requires Readable(s)
  {
    ShapedDigits(Before(Unsigned(Bare(s))));
    WholeJoin(WholeDigits(Bare(s)), FractionDigits(Bare(s)));
    var coefficient := Whole(WholeDigits(Bare(s)) + FractionDigits(Bare(s)));
    !Parenthesised(s) || !Exceeds(coefficient) || AllZero(Dropped(coefficient))
  }

  predicate Accepted(v: Value) {
    DecimalText(v).Ok? && DecimalText(v).value.Some?
  }

  predicate Faithful(v: Value)
    requires Accepted(v)
  {
    v.Text? ==> FaithfulText(Strip(v.text))
  }

  lemma MagnitudeKept(whole: string, fraction: string, parentheses: bool, s: string)
    requires AllDigits(whole) && AllDigits(fraction) && Canonical(s)
    requires var number := NumberOf(whole, fraction, parentheses);
      Shift(PrintedMagnitude(s), |fraction|) == Shift(number.coefficient as real, number.dropped)
    ensures AllDigits(whole + fraction)
    ensures var c := Whole(whole + fraction);
      PrintedMagnitude(s) == Magnitude(whole, fraction) <==> !parentheses || !Exceeds(c) || AllZero(Dropped(c))
  {
    CoefficientValue(whole, fraction);
    var c := Whole(whole + fraction);
    RoundedExact(c);
    ShiftOrder(PrintedMagnitude(s), Magnitude(whole, fraction), |fraction|);
  }

  lemma TextValueKept(s: string)
    requires TextNumber(s).Ok? && TextNumber(s).value.Some?
    ensures Readable(s)
    ensures var text := TextNumber(s).value.value;
      Canonical(text) && (ValueOf(text) == TextReading(s) <==> FaithfulText(s))
  {
    ShapedDigits(Before(Unsigned(Bare(s))));
    var whole, fraction := WholeDigits(Bare(s)), FractionDigits(Bare(s));
    var negative, parentheses := Negative(Bare(s)), Parenthesised(s);
    var text := TextNumber(s).value.value;
    assert text == Printed(negative, whole, fraction, parentheses);
    assert TextReading(s) == WithSign(negative || parentheses, Magnitude(whole, fraction));
    assert AllDigits(whole + fraction) by { WholeJoin(whole, fraction); }
    var c := Whole(whole + fraction);
    assert FaithfulText(s) <==> !parentheses || !Exceeds(c) || AllZero(Dropped(c));
    hide *;
    PrintedValue(negative, whole, fraction, parentheses);
    MagnitudeKept(whole, fraction, parentheses, text);
    SignedEqual(negative || parentheses, PrintedMagnitude(text), Magnitude(whole, fraction));
  }

  lemma SignedEqual(negative: bool, x: real, y: real)
    ensures WithSign(negative, x) == WithSign(negative, y) <==> x == y
  {
  }

  /** A plain fixed-point text is read as what it spells. */
  lemma PlainText(negative: bool, whole: string, fraction: string)
    requires AllDigits(whole) && whole != [] && AllDigits(fraction) && |fraction| <= MAX_SCALE
    ensures var s := Sign(negative) + Joined(whole, fraction);
      && s != [] && !Space(s[0]) && !Space(s[|s| - 1])
      && TextNumber(s) == if |whole| > MAX_WHOLE then Err(ValueOutOfRange)
                          else Ok(Some(Printed(negative, whole, fraction, false)))
  {
    hide *;
    var s := Sign(negative) + Joined(whole, fraction);
    PlainBody(whole, fraction);
    PlainParts(negative, whole, fraction);
    PlainLength(negative, whole, fraction);
    PlainDigits(s, Joined(whole, fraction), whole, fraction);
    TextUnfolds(s, whole, fraction);
  }

  lemma PlainLength(negative: bool, whole: string, fraction: string)
    requires |fraction| <= MAX_SCALE
    ensures |whole| <= MAX_WHOLE ==> |Sign(negative) + Joined(whole, fraction)| <= MAX_LENGTH
  {
  }

  /** A text that is bare already and splits into digits is readable as those digits. */
  lemma PlainDigits(s: string, body: string, whole: string, fraction: string)
    requires Bare(s) == s && Unsigned(s) == body && !Parenthesised(s)
    requires Before(body) == whole && Behind(body) == fraction && ('.' in body ==> fraction != [])
    requires AllDigits(whole) && whole != [] && AllDigits(fraction)
    ensures Readable(s) && WholeDigits(Bare(s)) == whole && FractionDigits(Bare(s)) == fraction
  {
    hide Before, Behind, Bare, Unsigned, Parenthesised, AllDigits, Groups, WithoutCommas;
    DigitsHaveNoComma(whole);
  }

  lemma TextUnfolds(s: string, whole: string, fraction: string)
    requires s != [] && Readable(s) && Bare(s) == s && !Parenthesised(s)
    requires |whole| <= MAX_WHOLE ==> |s| <= MAX_LENGTH
    requires WholeDigits(Bare(s)) == whole && FractionDigits(Bare(s)) == fraction && |fraction| <= MAX_SCALE
    requires AllDigits(whole) && AllDigits(fraction)
    ensures TextNumber(s) == if |whole| > MAX_WHOLE then Err(ValueOutOfRange)
                             else Ok(Some(Printed(Negative(s), whole, fraction, false)))
  {
    hide Readable, Bare, Parenthesised, WholeDigits, FractionDigits, AllDigits, Printed, Negative;
  }

  lemma PlainBody(whole: string, fraction: string)
    requires AllDigits(whole) && whole != [] && AllDigits(fraction)
    ensures var body := Joined(whole, fraction);
      && Before(body) == whole && Behind(body) == fraction && ('.' in body ==> fraction != [])
      && body != [] && IsDigit(body[0]) && IsDigit(body[|body| - 1])
  {
    DigitsHaveNoPoint(whole);
    CutJoined(whole, fraction);
    var body := Joined(whole, fraction);
    assert body[0] == whole[0];
    assert body[|body| - 1] == if fraction == [] then whole[|whole| - 1] else fraction[|fraction| - 1];
  }

  lemma PlainParts(negative: bool, whole: string, fraction: string)
    requires var body := Joined(whole, fraction); body != [] && IsDigit(body[0]) && IsDigit(body[|body| - 1])
    ensures var s, body := Sign(negative) + Joined(whole, fraction), Joined(whole, fraction);
      && s != [] && !Space(s[0]) && !Space(s[|s| - 1])
      && Unsigned(s) == body && Negative(s) == negative && (Signed(s) ==> negative)
      && !Parenthesised(s) && Bare(s) == s
  {
    hide Strip, Joined;
    var body := Joined(whole, fraction);
    var s := Sign(negative) + body;
    assert s[|s| - 1] == body[|body| - 1];
    if negative {
      assert s[1..] == body;
    } else {
      assert s == body;
    }
  }

  lemma NumberKept(negative: bool, coefficient: nat, exponent: int)
    requires InRange(coefficient, exponent)
    ensures var s, parts := Sign(negative) + Fixed(coefficient, exponent), FixedParts(coefficient, exponent);
      && Denotes(parts, coefficient, exponent)
      && TextNumber(s) == Ok(Some(Printed(negative, parts.0, parts.1, false)))
  {
    FixedValue(coefficient, exponent);
    FixedWidth(coefficient, exponent);
    var parts := FixedParts(coefficient, exponent);
    PlainText(negative, parts.0, parts.1);
  }

  lemma FixedWidth(coefficient: nat, exponent: int)
    requires InRange(coefficient, exponent)
    ensures |FixedParts(coefficient, exponent).0| <= MAX_WHOLE && |FixedParts(coefficient, exponent).1| <= MAX_SCALE
  {
    hide DigitsOf;
  }

  lemma {:induction false} UnshiftInverse(x: real, n: nat)
    ensures Shift(Unshift(x, n), n) == x
  {
    if n > 0 {
      UnshiftInverse(x, n - 1);
      assert Unshift(x, n) * 10.0 == Unshift(x, n - 1);
      ShiftTen(Unshift(x, n), n - 1);
    }
  }

  lemma DenotesReading(parts: (string, string), coefficient: nat, exponent: int)
    requires Denotes(parts, coefficient, exponent)
    ensures Magnitude(parts.0, parts.1)
         == if exponent >= 0 then Shift(coefficient as real, exponent) else Unshift(coefficient as real, -exponent)
  {
    if exponent < 0 {
      UnshiftInverse(coefficient as real, -exponent);
      ShiftOrder(Magnitude(parts.0, parts.1), Unshift(coefficient as real, -exponent), -exponent);
    }
  }

  /**
   * The text of every accepted value is canonical, and it denotes the number the input spells, whatever its
   * commas, sign, dollar sign, parentheses, padding zeros or exponent, exactly unless parentheses stand around
   * more than 28 significant digits and one of the digits beyond is not zero.
   */
  lemma ValueKept(v: Value)
    requires Accepted(v)
    ensures var text := DecimalText(v).value.value;
      Canonical(text) && (ValueOf(text) == Reading(v) <==> Faithful(v))
  {
    match v {
      case Text(s) => TextValueKept(Strip(s));
      case Number(negative, coefficient, exponent) => NumberValueKept(negative, coefficient, exponent);
    }
  }

  lemma NumberValueKept(negative: bool, coefficient: nat, exponent: int)
    requires InRange(coefficient, exponent)
    ensures var v := Number(negative, coefficient, exponent);
      && Accepted(v)
      && Canonical(DecimalText(v).value.value) && ValueOf(DecimalText(v).value.value) == Reading(v)
  {
    hide *;
    var parts := FixedParts(coefficient, exponent);
    NumberKept(negative, coefficient, exponent);
    NumberUnfolds(negative, coefficient, exponent);
    PartsReading(parts, coefficient, exponent);
    PrintedValue(negative, parts.0, parts.1, false);
    MagnitudeKept(parts.0, parts.1, false, Printed(negative, parts.0, parts.1, false));
  }

  lemma NumberUnfolds(negative: bool, coefficient: nat, exponent: int)
    requires InRange(coefficient, exponent)
    requires TextNumber(Sign(negative) + Fixed(coefficient, exponent)).Ok?
          && TextNumber(Sign(negative) + Fixed(coefficient, exponent)).value.Some?
    ensures var v := Number(negative, coefficient, exponent);
      && Accepted(v)
      && DecimalText(v) == TextNumber(Sign(negative) + Fixed(coefficient, exponent))
      && Reading(v) == WithSign(negative, ExponentValue(coefficient, exponent))
  {
    hide TextNumber;
  }

  lemma PartsReading(parts: (string, string), coefficient: nat, exponent: int)
    requires Denotes(parts, coefficient, exponent)
    ensures AllDigits(parts.0) && AllDigits(parts.1)
    ensures Magnitude(parts.0, parts.1) == ExponentValue(coefficient, exponent)
  {
    DenotesReading(parts, coefficient, exponent);
  }

  /** Equal text exactly for equal numbers. */
  lemma EqualTextForEqualNumbers(v: Value, w: Value)
    requires Accepted(v) && Accepted(w) && Faithful(v) && Faithful(w)
    ensures DecimalText(v) == DecimalText(w) <==> Reading(v) == Reading(w)
  {
    ValueKept(v);
    ValueKept(w);
    if Reading(v) == Reading(w) {
      CanonicalUnique(DecimalText(v).value.value, DecimalText(w).value.value);
    }
  }

  // ----- reading an output again -----

  /** A canonical amount of allowed width is its own text; a wider one is refused. */
  lemma CanonicalReparses(s: string)
    requires Canonical(s) && |FractionOf(s)| <= MAX_SCALE
    ensures DecimalText(Text(s)) == if |WholeOf(s)| <= MAX_WHOLE then Ok(Some(s)) else Err(ValueOutOfRange)
  {
    var negative, whole, fraction := Negative(s), WholeOf(s), FractionOf(s);
    CanonicalParts(s);
    PlainText(negative, whole, fraction);
    hide Printed, Canonical, Joined, TextNumber, WholeOf, FractionOf;
    StripKeeps(s);
    if |whole| <= MAX_WHOLE {
      var again := Printed(negative, whole, fraction, false);
      PrintedValue(negative, whole, fraction, false);
      MagnitudeKept(whole, fraction, false, again);
      SameText(again, s);
    }
  }

  lemma CanonicalParts(s: string)
    requires Canonical(s)
    ensures AllDigits(WholeOf(s)) && WholeOf(s) != [] && AllDigits(FractionOf(s))
    ensures s == Sign(Negative(s)) + Joined(WholeOf(s), FractionOf(s))
    ensures ValueOf(s) == WithSign(Negative(s), PrintedMagnitude(s))
  {
    var body := if Negative(s) then s[1..] else s;
    CutRebuilds(body);
    assert Negative(s) ==> s == ['-'] + body;
  }

  lemma SameText(again: string, s: string)
    requires Canonical(again) && Canonical(s)
    requires ValueOf(again) == WithSign(Negative(s), PrintedMagnitude(again))
    requires PrintedMagnitude(again) == PrintedMagnitude(s)
    ensures again == s
  {
    CanonicalParts(s);
    CanonicalUnique(again, s);
  }

  const LIMIT := 1000000000000000000000000000000.0

  lemma Ten(x: real, n: nat)
    ensures Shift(x, n + 5) == Shift(x, n) * 100000.0
  {
    assert Shift(x, n + 1) == Shift(x, n) * 10.0;
    assert Shift(x, n + 2) == Shift(x, n + 1) * 10.0;
    assert Shift(x, n + 3) == Shift(x, n + 2) * 10.0;
    assert Shift(x, n + 4) == Shift(x, n + 3) * 10.0;
  }

  lemma LimitIs()
    ensures Shift(1.0, 30) == LIMIT
    ensures Shift(1.0, 28) == LIMIT / 100.0
    ensures Shift(1.0, 29) == LIMIT / 10.0
  {
    Ten(1.0, 0);
    Ten(1.0, 5);
    Ten(1.0, 10);
    Ten(1.0, 15);
    Ten(1.0, 20);
    Ten(1.0, 25);
    assert Shift(1.0, 30) == Shift(1.0, 29) * 10.0;
    assert Shift(1.0, 29) == Shift(1.0, 28) * 10.0;
  }

  lemma {:induction false} ShiftGrows(m: nat, n: nat)
    requires m <= n
    ensures 1.0 <= Shift(1.0, m) <= Shift(1.0, n)
  {
    if n > 0 {
      if m == n {
        ShiftGrows(m - 1, n - 1);
      } else {
        ShiftGrows(m, n - 1);
      }
    }
  }

  lemma {:induction false} WholeAbove(s: string)
    requires AllDigits(s) && s != [] && s[0] != '0'
    ensures Whole(s) as real >= Shift(1.0, |s| - 1)
  {
    if |s| == 1 {
      assert Whole(s) == Whole(s[..0]) * 10 + Digit(s[0]);
    } else {
      WholeAbove(s[..|s| - 1]);
    }
  }

  /** How many digits stand before the point says how large the amount is. */
  lemma WidthExactly(s: string, n: nat)
    requires Canonical(s) && n >= 1
    ensures |WholeOf(s)| <= n <==> PrintedMagnitude(s) < Shift(1.0, n)
  {
    CanonicalParts(s);
    FractionBounds(FractionOf(s));
    var whole := WholeOf(s);
    if |whole| <= n {
      WholeBelow(whole);
      ShiftGrows(|whole|, n);
    } else {
      WholeAbove(whole);
      ShiftGrows(n, |whole| - 1);
    }
  }

  // ----- when rounding carries into a 31st digit -----

  lemma {:induction false} ShiftAtLeast(x: real, n: nat)
    requires x >= 0.0
    ensures x <= Shift(x, n)
  {
    if n > 0 {
      ShiftAtLeast(x, n - 1);
    }
  }

  lemma CoefficientBelow(whole: string, fraction: string)
    requires AllDigits(whole) && AllDigits(fraction) && |whole| <= MAX_WHOLE
    ensures AllDigits(whole + fraction)
    ensures Whole(whole + fraction) as real < Shift(1.0, MAX_WHOLE + |fraction|)
    ensures Whole(whole + fraction) as real == Shift(Magnitude(whole, fraction), |fraction|)
    ensures Magnitude(whole, fraction) >= 0.0
  {
    hide Whole, Fraction, Shift;
    CoefficientValue(whole, fraction);
    FractionBounds(fraction);
    WholeBelow(whole + fraction);
    ShiftGrows(|whole + fraction|, MAX_WHOLE + |fraction|);
  }

  lemma DigitsBeyond(c: nat, n: nat)
    requires n >= 1
    ensures |DigitsOf(c)| > n ==> c as real >= Shift(1.0, n)
  {
    DigitsOfWhole(c);
    if |DigitsOf(c)| > n {
      ShiftGrows(n, |DigitsOf(c)| - 1);
      WholeAbove(DigitsOf(c));
    }
  }

  /** c is the coefficient of m, and x the rounded m. */
  lemma CarryExactly(c: nat, scale: nat, m: real, x: real)
    requires c as real < Shift(1.0, MAX_WHOLE + scale) && m >= 0.0 && c as real == Shift(m, scale)
    requires Shift(x, scale) == Shift(Rounded(c).coefficient as real, Rounded(c).dropped)
    ensures x < LIMIT <==> m < LIMIT - 50.0
    ensures x <= LIMIT
  {
    LimitIs();
    DigitsBeyond(c, MAX_WHOLE + scale);
    if !Exceeds(c) {
      ShiftOrder(x, m, scale);
      DigitsOfWhole(c);
      WholeBelow(DigitsOf(c));
      ShiftGrows(|DigitsOf(c)|, PRECISION);
      ShiftAtLeast(m, scale);
    } else {
      var k, r, d := Whole(Kept(c)), Whole(Dropped(c)), |Dropped(c)|;
      KeptAndDropped(c);
      WholeBelow(Kept(c));
      var q := Rounded(c).coefficient;
      var up := RoundsUp(c);
      assert q == k + if up then 1 else 0;
      assert up <==> r as real > Shift(5.0, d - 1) || (r as real == Shift(5.0, d - 1) && k % 2 == 1);
      assert d == |DigitsOf(c)| - PRECISION;
      hide *;
      if d == 2 + scale {
        CarryAtEdge(k, r, q, up, scale, c, m, x);
      } else {
        CarryInside(k, r, q, d, scale, c, m, x);
      }
    }
  }

  lemma CarryInside(k: nat, r: nat, q: nat, d: nat, scale: nat, c: nat, m: real, x: real)
    requires d < 2 + scale && k as real <= LIMIT / 100.0 - 1.0 && k <= q <= k + 1
    requires Shift(1.0, 28) == LIMIT / 100.0 && Shift(1.0, 29) == LIMIT / 10.0
    requires c as real == Shift(k as real, d) + r as real && r as real < Shift(1.0, d)
    requires c as real == Shift(m, scale) && Shift(x, scale) == Shift(q as real, d)
    ensures x < LIMIT && m < LIMIT - 50.0
  {
    ShiftAdd(k as real, 1.0, d);
    AtMostShift(k as real + 1.0, Shift(1.0, 28), d);
    AtMostShift(q as real, Shift(1.0, 28), d);
    ShiftTwice(1.0, 28, d);
    ShiftGrows(28 + d, 29 + scale);
    ShiftTwice(1.0, 29, scale);
    assert Shift(m, scale) <= Shift(LIMIT / 10.0, scale);
    assert Shift(x, scale) <= Shift(LIMIT / 10.0, scale);
    ShiftOrder(LIMIT / 10.0, m, scale);
    ShiftOrder(LIMIT / 10.0, x, scale);
  }

  lemma AtMostShift(x: real, y: real, n: nat)
    requires x <= y
    ensures Shift(x, n) <= Shift(y, n)
  {
    ShiftOrder(y, x, n);
  }

  lemma CarryAtEdge(k: nat, r: nat, q: nat, up: bool, scale: nat, c: nat, m: real, x: real)
    requires var d := 2 + scale;
      && k as real <= LIMIT / 100.0 - 1.0 && q == k + (if up then 1 else 0)
      && c as real == Shift(k as real, d) + r as real && r as real < Shift(1.0, d)
      && c as real == Shift(m, scale) && Shift(x, scale) == Shift(q as real, d)
      && (up <==> r as real > Shift(5.0, d - 1) || (r as real == Shift(5.0, d - 1) && k % 2 == 1))
    ensures (x < LIMIT <==> m < LIMIT - 50.0) && x <= LIMIT
  {
    var d := 2 + scale;
    Hundred(q as real, scale);
    Hundred(k as real, scale);
    Hundred(1.0, scale);
    ShiftTwice(5.0, 1, scale);
    assert Shift(5.0, 1) == Shift(5.0, 0) * 10.0 == 50.0;
    assert Shift(5.0, d - 1) == Shift(50.0, scale);
    ShiftOrder(x, 100.0 * q as real, scale);
    assert x == 100.0 * q as real;
    if k as real == LIMIT / 100.0 - 1.0 {
      assert k == 9999999999999999999999999999;
      assert k % 2 == 1;
      ShiftAdd(100.0 * k as real, 50.0, scale);
      ShiftOrder(m, LIMIT - 50.0, scale);
    } else {
      assert k <= 9999999999999999999999999998;
      ShiftAdd(100.0 * k as real, 100.0, scale);
      ShiftOrder(m, 100.0 * k as real + 100.0, scale);
    }
  }

  lemma Hundred(x: real, scale: nat)
    ensures Shift(x, 2 + scale) == Shift(100.0 * x, scale)
  {
    ShiftTwice(x, 2, scale);
    assert Shift(x, 2) == Shift(x, 1) * 10.0 && Shift(x, 1) == Shift(x, 0) * 10.0;
  }

  /** In parentheses and so large that rounding to 28 digits carries into a 31st one. */
  predicate Carries(v: Value)
    requires Accepted(v)
  {
    v.Text? && Parenthesised(Strip(v.text)) && Reading(v) <= 50.0 - LIMIT
  }

  lemma PrintedWidth(negative: bool, whole: string, fraction: string, parentheses: bool)
    requires AllDigits(whole) && AllDigits(fraction) && |whole| <= MAX_WHOLE
    ensures var s := Printed(negative, whole, fraction, parentheses);
      && Canonical(s) && |FractionOf(s)| <= |fraction| && |WholeOf(s)| <= MAX_WHOLE + 1
      && (|WholeOf(s)| <= MAX_WHOLE <==> !(parentheses && Magnitude(whole, fraction) >= LIMIT - 50.0))
  {
    var s, number := Printed(negative, whole, fraction, parentheses), NumberOf(whole, fraction, parentheses);
    PrintedValue(negative, whole, fraction, parentheses);
    CoefficientBelow(whole, fraction);
    var c := Whole(whole + fraction);
    assert number == if parentheses then Rounded(c) else Significant(c, 0);
    assert Shift(c as real, 0) == c as real;
    LimitIs();
    assert Shift(1.0, 31) == LIMIT * 10.0;
    hide *;
    var m, x := Magnitude(whole, fraction), PrintedMagnitude(s);
    if parentheses {
      CarryExactly(c, |fraction|, m, x);
    } else {
      ShiftOrder(x, m, |fraction|);
      PlainBelow(whole, fraction);
    }
    WidthExactly(s, MAX_WHOLE);
    WidthExactly(s, MAX_WHOLE + 1);
  }

  lemma PlainBelow(whole: string, fraction: string)
    requires AllDigits(whole) && AllDigits(fraction) && |whole| <= MAX_WHOLE
    ensures Magnitude(whole, fraction) < LIMIT
  {
    LimitIs();
    WholeBelow(whole);
    ShiftGrows(|whole|, MAX_WHOLE);
    FractionBounds(fraction);
  }

  lemma OutputWidth(v: Value)
    requires Accepted(v)
    ensures var text := DecimalText(v).value.value;
      && Canonical(text) && |FractionOf(text)| <= MAX_SCALE && |WholeOf(text)| <= MAX_WHOLE + 1
      && (|WholeOf(text)| <= MAX_WHOLE <==> !Carries(v))
  {
    match v {
      case Text(s) => TextWidth(Strip(s));
      case Number(negative, coefficient, exponent) =>
        NumberKept(negative, coefficient, exponent);
        FixedWidth(coefficient, exponent);
        var parts := FixedParts(coefficient, exponent);
        assert DecimalText(v).value.value == Printed(negative, parts.0, parts.1, false);
        assert !Carries(v);
        hide *;
        PrintedWidth(negative, parts.0, parts.1, false);
    }
  }

  lemma TextWidth(s: string)
    requires TextNumber(s).Ok? && TextNumber(s).value.Some?
    ensures Readable(s)
    ensures var text := TextNumber(s).value.value;
      && Canonical(text) && |FractionOf(text)| <= MAX_SCALE && |WholeOf(text)| <= MAX_WHOLE + 1
      && (|WholeOf(text)| <= MAX_WHOLE <==> !(Parenthesised(s) && TextReading(s) <= 50.0 - LIMIT))
  {
    ShapedDigits(Before(Unsigned(Bare(s))));
    var whole, fraction := WholeDigits(Bare(s)), FractionDigits(Bare(s));
    var negative, parentheses := Negative(Bare(s)), Parenthesised(s);
    assert TextNumber(s).value.value == Printed(negative, whole, fraction, parentheses);
    assert TextReading(s) == WithSign(negative || parentheses, Magnitude(whole, fraction));
    hide TextNumber, Printed, Magnitude, Canonical, WholeOf, FractionOf, WholeDigits, FractionDigits;
    PrintedWidth(negative, whole, fraction, parentheses);
  }

  /**
   * Idempotence, exactly: converting an output again gives the same text, except that an amount in parentheses
   * of at least 10^30 - 50 is rounded up to 10^30, whose 31 digits are then refused.
   */
  lemma OutputsReparseExactly(v: Value)
    requires Accepted(v)
    ensures var text := DecimalText(v).value.value;
      DecimalText(Text(text)) == if Carries(v) then Err(ValueOutOfRange) else Ok(Some(text))
  {
    OutputWidth(v);
    CanonicalReparses(DecimalText(v).value.value);
  }

  // ----- one balance under several names -----

  /** The texts of the values that are present, or the first failure. */
  function Present(values: seq<Value>): Result<seq<string>, FactsError> {
    if values == [] then Ok([])
    else
      var before :- Present(values[..|values| - 1]);
      var last :- DecimalText(values[|values| - 1]);
      Ok(if last.Some? then before + [last.value] else before)
  }

  function ExactBalance(values: seq<Value>): Result<Option<string>, FactsError> {
    var matches :- Present(values);
    if exists i | 0 <= i < |matches| :: matches[i] != matches[0] then Err(BalancesAmbiguous)
    else Ok(if matches == [] then None else Some(matches[0]))
  }

  lemma {:induction false} PresentAre(values: seq<Value>)
    requires Present(values).Ok?
    ensures forall v | v in values :: DecimalText(v).Ok?
    ensures forall s :: s in Present(values).value <==> exists v :: v in values && DecimalText(v) == Ok(Some(s))
  {
    hide DecimalText;
    if values != [] {
      var init, last := values[..|values| - 1], values[|values| - 1];
      assert values == init + [last];
      PresentAre(init);
      forall s
        ensures s in Present(values).value <==> s in Present(init).value || DecimalText(last) == Ok(Some(s))
      {
      }
    }
  }

  /**
   * A balance is ambiguous exactly when two of its present values differ as numbers. Otherwise it is absent
   * exactly when none is present, and else it is the text of every present value.
   */
  lemma AmbiguousExactly(values: seq<Value>)
    requires Present(values).Ok?
    requires forall v | v in values && Accepted(v) :: Faithful(v)
    ensures ExactBalance(values) == Err(BalancesAmbiguous) <==>
              exists v, w :: v in values && w in values && Accepted(v) && Accepted(w) && Reading(v) != Reading(w)
    ensures ExactBalance(values) == Ok(None) <==> forall v | v in values :: !Accepted(v)
    ensures ExactBalance(values).Ok? && ExactBalance(values).value.Some? ==>
              forall v | v in values && Accepted(v) :: DecimalText(v) == ExactBalance(values)
  {
    PresentAre(values);
    var matches := Present(values).value;
    forall v, w | v in values && w in values && Accepted(v) && Accepted(w)
      ensures DecimalText(v) == DecimalText(w) <==> Reading(v) == Reading(w)
      ensures DecimalText(v).value.value in matches
    {
      EqualTextForEqualNumbers(v, w);
    }
    hide DecimalText, Reading, Present, Faithful;
    if i :| 0 <= i < |matches| && matches[i] != matches[0] {
      var v :| v in values && DecimalText(v) == Ok(Some(matches[i]));
      var w :| w in values && DecimalText(w) == Ok(Some(matches[0]));
      assert Accepted(v) && Accepted(w) && Reading(v) != Reading(w);
    } else {
      assert forall s | s in matches :: s == matches[0];
      if matches != [] {
        var v :| v in values && DecimalText(v) == Ok(Some(matches[0]));
        assert Accepted(v);
      }
    }
  }

  // ----- what the publisher accepts -----

  const PUBLISHED_WHOLE := 15
  const PUBLISHED_SCALE := 8

  datatype AmountError = AmountInvalid | AmountOutOfRange

  function Amount(s: string): Result<string, AmountError> {
    if |s| > MAX_LENGTH || !AmountShape(s) then Err(AmountInvalid)
    else if |WholeOf(s)| > PUBLISHED_WHOLE || |FractionOf(s)| > PUBLISHED_SCALE then Err(AmountOutOfRange)
    else Ok(s)
  }

  /**
   * Every text the reader produces meets the publisher's grammar and length, so the only refusal left is the
   * range check, and what is accepted passes through unchanged.
   */
  lemma PublisherOnlyChecksTheRange(v: Value)
    requires Accepted(v)
    ensures var text := DecimalText(v).value.value;
      && Canonical(text)
      && Amount(text) == if PrintedMagnitude(text) < 1000000000000000.0 && |FractionOf(text)| <= 8
                         then Ok(text) else Err(AmountOutOfRange)
  {
    Ten(1.0, 0);
    Ten(1.0, 5);
    Ten(1.0, 10);
    OutputWidth(v);
    var text := DecimalText(v).value.value;
    WidthExactly(text, PUBLISHED_WHOLE);
    CanonicalParts(text);
    assert |text| <= MAX_LENGTH;
  }
}
