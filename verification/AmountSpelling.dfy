/** Which spellings of an amount are accepted, and the number each one means: spellings built up part by part. */
module AmountSpelling {
  import opened Wrappers
  import opened Text
  import opened Digits
  import opened AccountFacts

  /**
   * White space, opening parenthesis, white space, dollar sign, white space, sign, the digits up to the first
   * comma, groups of three digits, the digits behind the point; and white space around the closing parenthesis.
   */
  datatype Spelling = Spelling(before: string, parentheses: bool, inside: string, dollar: bool, gap: string, sign: string,
                               head: string, groups: seq<string>, fraction: Option<string>, rest: string, after: string)

  function WholeText(head: string, groups: seq<string>): string {
    if groups == [] then head else WholeText(head, groups[..|groups| - 1]) + "," + groups[|groups| - 1]
  }

  /** The digits before the point, without commas. */
  function DigitsBefore(head: string, groups: seq<string>): string {
    if groups == [] then head else DigitsBefore(head, groups[..|groups| - 1]) + groups[|groups| - 1]
  }

  function DigitsAfter(sp: Spelling): string {
    if sp.fraction.Some? then sp.fraction.value else ""
  }

  function Body(sp: Spelling): string {
    WholeText(sp.head, sp.groups) + if sp.fraction.Some? then "." + sp.fraction.value else ""
  }

  function Priced(sp: Spelling): string {
    if sp.dollar then "$" + sp.gap + (sp.sign + Body(sp)) else sp.sign + Body(sp)
  }

  function Core(sp: Spelling): string {
    if sp.parentheses then "(" + (sp.inside + Priced(sp) + sp.rest) + ")" else Priced(sp)
  }

  function Spelled(sp: Spelling): string {
    sp.before + Core(sp) + sp.after
  }

  /** Digits in groups of three after the first comma, at least one before it, and at least one behind a point. */
  predicate WellGrouped(sp: Spelling) {
    && sp.head != [] && AllDigits(sp.head)
    && (sp.groups != [] ==> |sp.head| <= 3)
    && (forall group | group in sp.groups :: |group| == 3 && AllDigits(group))
    && (sp.fraction.Some? ==> sp.fraction.value != [] && AllDigits(sp.fraction.value))
  }

  predicate WellFormed(sp: Spelling) {
    && Blank(sp.before) && Blank(sp.after) && Blank(sp.inside) && Blank(sp.rest) && Blank(sp.gap)
    && (sp.sign == "" || sp.sign == "+" || sp.sign == "-")
    && (sp.parentheses ==> sp.sign == "")
    && WellGrouped(sp)
  }

  /** At most 64 characters, 30 digits before and 28 behind the point. */
  predicate Short(sp: Spelling) {
    |Core(sp)| <= 64 && |DigitsBefore(sp.head, sp.groups)| <= 30 && |DigitsAfter(sp)| <= 28
  }

  function Meaning(sp: Spelling): real
    requires WellGrouped(sp)
  {
    GroupsDigits(sp.head, sp.groups);
    var magnitude := Whole(DigitsBefore(sp.head, sp.groups)) as real + Fraction(DigitsAfter(sp));
    if sp.parentheses || sp.sign == "-" then -magnitude else magnitude
  }

  lemma {:induction false} GroupsDigits(head: string, groups: seq<string>)
    requires AllDigits(head) && forall group | group in groups :: |group| == 3 && AllDigits(group)
    ensures AllDigits(DigitsBefore(head, groups))
  {
    if groups != [] {
      GroupsDigits(head, groups[..|groups| - 1]);
      assert groups[|groups| - 1] in groups;
    }
  }

  // ----- from a spelling to its parts -----

  predicate Grouped(head: string, groups: seq<string>) {
    && head != [] && AllDigits(head) && (groups != [] ==> |head| <= 3)
    && forall group | group in groups :: |group| == 3 && AllDigits(group)
  }

  predicate DigitEnds(s: string) {
    s != [] && IsDigit(s[0]) && IsDigit(s[|s| - 1])
  }

  lemma OneGroup(front: string, last: string)
    requires DigitEnds(front) && '.' !in front && |last| == 3 && AllDigits(last)
    ensures var s := front + "," + last;
      DigitEnds(s) && '.' !in s && (Groups(front) ==> Groups(s)) && WithoutCommas(s) == WithoutCommas(front) + last
  {
    var s := front + "," + last;
    CommaGroup(front, last);
    assert |s| >= 5 && s[|s| - 4] == ',' && s[|s| - 3..] == last && s[..|s| - 4] == front;
    DigitsHaveNoPoint(last);
    assert s[0] == front[0] && s[|s| - 1] == last[2];
    hide WithoutCommas;
  }

  lemma {:induction false} GroupsText(head: string, groups: seq<string>)
    requires Grouped(head, groups)
    ensures var s := WholeText(head, groups);
      && DigitEnds(s) && '.' !in s
      && (|head| <= 3 ==> Groups(s)) && (groups == [] ==> s == head)
      && AllDigits(DigitsBefore(head, groups)) && WithoutCommas(s) == DigitsBefore(head, groups)
  {
    if groups == [] {
      DigitsHaveNoComma(head);
      DigitsHaveNoPoint(head);
    } else {
      var init, last := groups[..|groups| - 1], groups[|groups| - 1];
      assert last in groups && forall group | group in init :: group in groups;
      GroupsText(head, init);
      OneGroup(WholeText(head, init), last);
      assert WholeText(head, groups) == WholeText(head, init) + "," + last;
      assert DigitsBefore(head, groups) == DigitsBefore(head, init) + last;
    }
    hide Groups, DigitEnds, WithoutCommas;
  }

  lemma ShapeOfText(head: string, groups: seq<string>)
    requires Grouped(head, groups)
    ensures WholeShape(WholeText(head, groups))
  {
    GroupsText(head, groups);
    hide Groups;
  }

  lemma Pointed(whole: string, fraction: Option<string>)
    requires DigitEnds(whole) && '.' !in whole && (fraction.Some? ==> fraction.value != [] && AllDigits(fraction.value))
    ensures var body := whole + if fraction.Some? then "." + fraction.value else "";
      && DigitEnds(body) && Before(body) == whole && Behind(body) == (if fraction.Some? then fraction.value else "")
      && ('.' in body <==> fraction.Some?)
  {
    var body := whole + if fraction.Some? then "." + fraction.value else "";
    if fraction.Some? {
      CutJoined(whole, fraction.value);
      assert body == whole + "." + fraction.value;
      assert body[|whole|] == '.' && body[0] == whole[0];
      assert body[|body| - 1] == fraction.value[|fraction.value| - 1];
    } else {
      CutJoined(whole, "");
      assert body == whole;
    }
    hide Before, Behind;
  }

  lemma BodyCut(sp: Spelling)
    requires WellGrouped(sp)
    ensures var body := Body(sp);
      && DigitEnds(body) && Before(body) == WholeText(sp.head, sp.groups) && Behind(body) == DigitsAfter(sp)
      && ('.' in body <==> sp.fraction.Some?)
      && WholeShape(Before(body)) && AllDigits(Behind(body))
      && WithoutCommas(Before(body)) == DigitsBefore(sp.head, sp.groups)
  {
    GroupsText(sp.head, sp.groups);
    ShapeOfText(sp.head, sp.groups);
    Pointed(WholeText(sp.head, sp.groups), sp.fraction);
    hide WholeText, WholeShape, Groups, WithoutCommas, DigitsBefore, Before, Behind, DigitEnds;
  }

  lemma SignedBody(sign: string, body: string)
    requires DigitEnds(body) && (sign == "" || sign == "+" || sign == "-")
    ensures var s := sign + body;
      && Tight(s) && s[0] != '$' && s[0] != '('
      && Unsigned(s) == body && (Signed(s) <==> sign != "") && (Negative(s) <==> sign == "-")
  {
    var s := sign + body;
    assert sign == "" ==> s == body;
    assert s[|s| - 1] == body[|body| - 1];
  }

  lemma DollarGoes(gap: string, amount: string)
    requires Blank(gap) && Tight(amount)
    ensures var s := "$" + gap + amount;
      Tight(s) && s[0] == '$' && Strip(s[1..]) == amount
  {
    var s := "$" + gap + amount;
    assert s[1..] == gap + amount + "";
    StripAround(gap, amount, "");
    assert s[|s| - 1] == amount[|amount| - 1];
    hide Strip;
  }

  lemma PricedTight(sp: Spelling)
    requires WellFormed(sp)
    ensures DigitEnds(Body(sp)) && Tight(Priced(sp)) && Priced(sp)[0] != '('
    ensures Priced(sp)[0] == '$' <==> sp.dollar
    ensures sp.dollar ==> Strip(Priced(sp)[1..]) == sp.sign + Body(sp)
  {
    BodyCut(sp);
    SignedBody(sp.sign, Body(sp));
    if sp.dollar {
      DollarGoes(sp.gap, sp.sign + Body(sp));
    }
    hide Body, Strip, Tight, DigitEnds, Unsigned, Signed, Negative, WholeShape, Before, Behind, WithoutCommas, WellGrouped;
  }

  lemma ParenthesesGo(inside: string, priced: string, rest: string)
    requires Blank(inside) && Blank(rest) && Tight(priced)
    ensures var s := "(" + (inside + priced + rest) + ")";
      Tight(s) && Parenthesised(s) && Strip(s[1..|s| - 1]) == priced
  {
    var s := "(" + (inside + priced + rest) + ")";
    assert s[1..|s| - 1] == inside + priced + rest;
    StripAround(inside, priced, rest);
    hide Strip;
  }

  /** Taking off the dollar sign. */
  lemma BareOf(s: string, inner: string, amount: string)
    requires inner == (if Parenthesised(s) then Strip(s[1..|s| - 1]) else s) && inner != []
    requires amount == if inner[0] == '$' then Strip(inner[1..]) else inner
    ensures Bare(s) == amount
  {
    hide Strip, Parenthesised;
  }

  lemma CoreBare(sp: Spelling)
    requires WellFormed(sp)
    ensures Tight(Core(sp)) && Bare(Core(sp)) == sp.sign + Body(sp) && (Parenthesised(Core(sp)) <==> sp.parentheses)
  {
    PricedTight(sp);
    if sp.parentheses {
      ParenthesesGo(sp.inside, Priced(sp), sp.rest);
    }
    assert Priced(sp) != [] && (!sp.dollar ==> Priced(sp) == sp.sign + Body(sp));
    hide Priced, Body, Strip, Tight, DigitEnds, Bare, WellGrouped;
    BareOf(Core(sp), Priced(sp), sp.sign + Body(sp));
  }

  lemma CoreReads(sp: Spelling)
    requires WellFormed(sp)
    ensures var s := Core(sp);
      && s != [] && Readable(s) && WholeDigits(Bare(s)) == DigitsBefore(sp.head, sp.groups)
      && FractionDigits(Bare(s)) == DigitsAfter(sp)
      && TextReading(s) == Meaning(sp)
  {
    CoreBare(sp);
    BodyCut(sp);
    SignedBody(sp.sign, Body(sp));
    GroupsDigits(sp.head, sp.groups);
    hide *;
    NumberReads(Core(sp), sp.sign, Body(sp), DigitsBefore(sp.head, sp.groups), DigitsAfter(sp), sp.parentheses);
    MeaningIs(sp);
    TightSome(Core(sp));
  }

  lemma TightSome(s: string)
    requires Tight(s)
    ensures s != []
  {
  }

  lemma MeaningIs(sp: Spelling)
    requires WellFormed(sp)
    ensures WellGrouped(sp) && AllDigits(DigitsBefore(sp.head, sp.groups)) && AllDigits(DigitsAfter(sp))
    ensures Meaning(sp) == WithSign(sp.parentheses || sp.sign == "-",
                                    Magnitude(DigitsBefore(sp.head, sp.groups), DigitsAfter(sp)))
  {
    GroupsDigits(sp.head, sp.groups);
    hide DigitsBefore, Whole, Fraction;
  }

  lemma NumberReads(s: string, sign: string, body: string, whole: string, fraction: string, parentheses: bool)
    requires Bare(s) == sign + body && (Parenthesised(s) <==> parentheses) && (parentheses ==> sign == "")
    requires Unsigned(sign + body) == body && (Signed(sign + body) <==> sign != "") && (Negative(sign + body) <==> sign == "-")
    requires WholeShape(Before(body)) && AllDigits(Behind(body)) && ('.' in body ==> Behind(body) != [])
    requires WithoutCommas(Before(body)) == whole && Behind(body) == fraction
    ensures Readable(s) && WholeDigits(Bare(s)) == whole && FractionDigits(Bare(s)) == fraction
    ensures AllDigits(whole) && AllDigits(fraction)
    ensures TextReading(s) == WithSign(parentheses || sign == "-", Magnitude(whole, fraction))
  {
    ShapedDigits(Before(body));
    hide Bare, Before, Behind, WithoutCommas, WholeShape, Unsigned, Signed, Negative, Magnitude, WithSign;
  }

  /** A short well-formed spelling is accepted, and it means what its parts say. */
  lemma SpellingAccepted(sp: Spelling)
    requires WellFormed(sp) && Short(sp)
    ensures var v := Text(Spelled(sp));
      DecimalText(v).Ok? && DecimalText(v).value.Some? && Reading(v) == Meaning(sp)
  {
    CoreBare(sp);
    CoreReads(sp);
    StripAround(sp.before, Core(sp), sp.after);
    hide Core, Strip, Bare, Readable, TextReading, Meaning, Printed, WholeDigits, FractionDigits, WellFormed;
  }

  // ----- from an accepted text to a spelling -----

  lemma {:induction false} GroupsFrom(s: string) returns (head: string, groups: seq<string>)
    requires Groups(s)
    ensures Grouped(head, groups) && WholeText(head, groups) == s
  {
    if 1 <= |s| <= 3 && AllDigits(s) {
      head, groups := s, [];
    } else {
      var init;
      head, init := GroupsFrom(s[..|s| - 4]);
      GroupsShort(s[..|s| - 4], head, init);
      groups := init + [s[|s| - 3..]];
      assert groups[..|groups| - 1] == init;
      assert s == s[..|s| - 4] + "," + s[|s| - 3..];
    }
  }

  /** Where groups follow, the first part has at most three digits. */
  lemma GroupsShort(s: string, head: string, groups: seq<string>)
    requires Groups(s) && Grouped(head, groups) && WholeText(head, groups) == s
    ensures |head| <= 3
  {
    assert groups == [] ==> s == head;
  }

  lemma WholeFrom(s: string) returns (head: string, groups: seq<string>)
    requires WholeShape(s)
    ensures Grouped(head, groups) && WholeText(head, groups) == s
  {
    if s != [] && AllDigits(s) {
      head, groups := s, [];
    } else {
      head, groups := GroupsFrom(s);
    }
  }

  /** Nothing in front of a tight text with trailing blanks but the text itself. */
  lemma NoTail(front: string, post: string, whole: string)
    requires whole == front + post && Blank(post)
    ensures Tight(whole) ==> front == whole
  {
    if post != "" {
      assert whole[|whole| - 1] == post[|post| - 1];
    }
  }

  lemma DollarFrom(inner: string) returns (dollar: bool, gap: string, amount: string)
    requires Tight(inner)
    ensures amount == (if inner[0] == '$' then Strip(inner[1..]) else inner) && dollar == (inner[0] == '$') && Blank(gap)
    ensures amount != "" ==> inner == if dollar then "$" + gap + amount else amount
  {
    dollar, gap, amount := inner[0] == '$', "", inner;
    if dollar {
      var post;
      gap, post := StripCuts(inner[1..]);
      amount := Strip(inner[1..]);
      if amount != "" {
        assert inner == ("$" + gap + amount) + post;
        NoTail("$" + gap + amount, post, inner);
      }
    }
    hide Strip;
  }

  lemma AmountFrom(amount: string) returns (sign: string, head: string, groups: seq<string>, fraction: Option<string>)
    requires DecimalShape(amount)
    ensures (sign == "" || sign == "+" || sign == "-") && (Signed(amount) <==> sign != "")
    ensures Grouped(head, groups) && (fraction.Some? ==> fraction.value != [] && AllDigits(fraction.value))
    ensures amount == sign + (WholeText(head, groups) + if fraction.Some? then "." + fraction.value else "")
  {
    var body := Unsigned(amount);
    sign := if Signed(amount) then [amount[0]] else "";
    assert amount == sign + body;
    head, groups := WholeFrom(Before(body));
    fraction := if '.' in body then Some(Behind(body)) else None;
    hide WholeText, Before, Behind, WholeShape, Grouped;
    BodyRebuilt(body, fraction);
  }

  lemma BodyRebuilt(body: string, fraction: Option<string>)
    requires fraction == if '.' in body then Some(Behind(body)) else None
    ensures body == Before(body) + if fraction.Some? then "." + fraction.value else ""
  {
    hide Before, Behind;
    CutRebuilds(body);
    PointBetween(Before(body), Behind(body));
  }

  lemma PointBetween(front: string, back: string)
    ensures front + "." + back == front + ("." + back) && front + "" == front
  {
  }

  lemma InnerFrom(s: string) returns (inside: string, inner: string, rest: string)
    requires Tight(s)
    ensures inner == (if Parenthesised(s) then Strip(s[1..|s| - 1]) else s) && Blank(inside) && Blank(rest)
    ensures inner != "" ==> Tight(inner)
    ensures s == if Parenthesised(s) then "(" + (inside + inner + rest) + ")" else inner
  {
    inside, inner, rest := "", s, "";
    if Parenthesised(s) {
      inside, rest := StripCuts(s[1..|s| - 1]);
      inner := Strip(s[1..|s| - 1]);
      assert s == "(" + s[1..|s| - 1] + ")";
    }
    hide Strip;
  }

  lemma CoreFrom(s: string) returns (sp: Spelling)
    requires Tight(s) && Readable(s)
    ensures WellFormed(sp) && Core(sp) == s && sp.before == "" && sp.after == ""
  {
    var inside, inner, rest := InnerFrom(s);
    BareIs(s, inner);
    var dollar, gap, amount := DollarFrom(inner);
    AmountNonempty(Bare(s));
    var sign, head, groups, fraction := AmountFrom(amount);
    sp := Spelling("", Parenthesised(s), inside, dollar, gap, sign, head, groups, fraction, rest, "");
    hide *;
    Assembled(sp, s, inner, amount);
  }

  lemma BareIs(s: string, inner: string)
    requires Readable(s) && inner == (if Parenthesised(s) then Strip(s[1..|s| - 1]) else s)
    requires inner != "" ==> Tight(inner)
    ensures Bare(s) == (if inner != "" && inner[0] == '$' then Strip(inner[1..]) else inner)
    ensures inner != "" && Tight(inner) && DecimalShape(Bare(s)) && (Parenthesised(s) ==> !Signed(Bare(s)))
  {
    hide DecimalShape, Strip, Signed;
    AmountNonempty("");
  }

  lemma AmountNonempty(amount: string)
    ensures DecimalShape(amount) ==> amount != ""
  {
  }

  lemma Assembled(sp: Spelling, s: string, inner: string, amount: string)
    requires Blank(sp.inside) && Blank(sp.rest) && Blank(sp.gap) && sp.before == "" && sp.after == ""
    requires (sp.sign == "" || sp.sign == "+" || sp.sign == "-") && (sp.parentheses ==> sp.sign == "")
    requires Grouped(sp.head, sp.groups) && (sp.fraction.Some? ==> sp.fraction.value != [] && AllDigits(sp.fraction.value))
    requires amount == sp.sign + (WholeText(sp.head, sp.groups) + if sp.fraction.Some? then "." + sp.fraction.value else "")
    requires inner == if sp.dollar then "$" + sp.gap + amount else amount
    requires s == if sp.parentheses then "(" + (sp.inside + inner + sp.rest) + ")" else inner
    ensures WellFormed(sp) && Core(sp) == s
  {
    hide WholeText;
  }

  /** Only such spellings are accepted. */
  lemma AcceptedSpelled(text: string) returns (sp: Spelling)
    requires DecimalText(Text(text)).Ok? && DecimalText(Text(text)).value.Some?
    ensures WellFormed(sp) && Short(sp) && Spelled(sp) == text
  {
    var pre, post := StripCuts(text);
    var core := CoreFrom(Strip(text));
    sp := core.(before := pre, after := post);
    assert Core(sp) == Core(core);
    CoreReads(core);
    hide Strip, Core, WholeDigits, FractionDigits, Bare, Readable, Printed, DigitsBefore, TextReading, Meaning;
  }

  /**
   * A text is accepted as a number exactly when it is a short well-formed spelling, and then the number is the one
   * its parts say, whichever way the text is taken apart.
   */
  lemma AcceptedExactly(text: string)
    ensures (DecimalText(Text(text)).Ok? && DecimalText(Text(text)).value.Some?) <==>
              exists sp :: WellFormed(sp) && Short(sp) && Spelled(sp) == text
    ensures forall sp | WellFormed(sp) && Short(sp) && Spelled(sp) == text :: Reading(Text(text)) == Meaning(sp)
  {
    forall sp | WellFormed(sp) && Short(sp) && Spelled(sp) == text
      ensures DecimalText(Text(text)).Ok? && DecimalText(Text(text)).value.Some? && Reading(Text(text)) == Meaning(sp)
    {
      SpellingAccepted(sp);
    }
    if DecimalText(Text(text)).Ok? && DecimalText(Text(text)).value.Some? {
      var sp := AcceptedSpelled(text);
    }
    hide DecimalText, WellFormed, Short, Spelled, Reading, Meaning;
  }

  /** A text is taken as absent exactly when it is blank. */
  lemma AbsentExactly(text: string)
    ensures DecimalText(Text(text)) == Ok(None) <==> Blank(text)
  {
    StripBlank(text);
    hide Strip, Readable, Printed, Bare, WholeDigits, FractionDigits, Blank;
  }

  /** A decimal is accepted exactly when it has at most 30 digits before and 28 behind the point. */
  lemma NumberAcceptedExactly(negative: bool, coefficient: nat, exponent: int)
    ensures var v := Number(negative, coefficient, exponent);
      && (DecimalText(v).Ok? <==> exponent + |DigitsOf(coefficient)| <= 30 && exponent >= -28)
      && (DecimalText(v).Ok? ==>
            DecimalText(v).value.Some?
            && Reading(v) == WithSign(negative, ExponentValue(coefficient, exponent)))
  {
    if InRange(coefficient, exponent) {
      NumberValueKept(negative, coefficient, exponent);
    }
    hide TextNumber, Fixed, ExponentValue;
  }
}
