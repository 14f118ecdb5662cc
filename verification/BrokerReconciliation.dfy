/** The position part of the reconciliation fingerprint: which symbols are held, in which exact quantities. */
module BrokerReconciliation {
  import opened Wrappers
  import opened Ordering
  import opened Text
  import opened Digits
  import AccountFacts

  /** A finite decimal, in any of its spellings. */
  datatype Quantity = Quantity(negative: bool, coefficient: nat, exponent: int)

  /** `symbol` is absent when it is no string, `quantity` when it is no finite number. */
  datatype Position = Position(symbol: Option<string>, quantity: Option<Quantity>)

  /** A payload that is no mapping, reports an error or has no list of items is malformed. */
  datatype Payload = Malformed | Items(rows: seq<Position>)

  datatype Entry = Entry(symbol: string, quantity: string)

  datatype ReconciliationError = IncompletePositions

  function UpperChar(c: char): char {
    if 'a' <= c <= 'z' then c - 'a' + 'A' else c
  }

  function Upper(s: string): string {
    seq(|s|, i requires 0 <= i < |s| => UpperChar(s[i]))
  }

  function Name(symbol: string): string {
    Upper(Strip(symbol))
  }

  function QuantityText(q: Quantity): string {
    if q.coefficient == 0 then "0"
    else AccountFacts.Trimmed(AccountFacts.Sign(q.negative) + AccountFacts.Fixed(q.coefficient, q.exponent))
  }

  function QuantityValue(q: Quantity): real {
    AccountFacts.WithSign(q.negative, AccountFacts.ExponentValue(q.coefficient, q.exponent))
  }

  predicate Complete(p: Position) {
    p.symbol.Some? && Strip(p.symbol.value) != [] && p.quantity.Some?
  }

  function CollectOne(before: map<string, string>, p: Position): Result<map<string, string>, ReconciliationError> {
    if !Complete(p) || Name(p.symbol.value) in before then Err(IncompletePositions)
    else Ok(before[Name(p.symbol.value) := QuantityText(p.quantity.value)])
  }

  function Collect(rows: seq<Position>): Result<map<string, string>, ReconciliationError> {
    if rows == [] then Ok(map[])
    else
      var before :- Collect(rows[..|rows| - 1]);
      CollectOne(before, rows[|rows| - 1])
  }

  function Listing(quantities: map<string, string>): seq<Entry> {
    var symbols := Sorted(quantities.Keys);
    seq(|symbols|, i requires 0 <= i < |symbols| => Entry(symbols[i], quantities[symbols[i]]))
  }

  function Fingerprint(payload: Payload): Result<seq<Entry>, ReconciliationError> {
    match payload
    case Malformed => Err(IncompletePositions)
    case Items(rows) =>
      var quantities :- Collect(rows);
      Ok(Listing(quantities))
  }

  method PositionQuantities(payload: Payload) returns (r: Result<seq<Entry>, ReconciliationError>)
    ensures r == Fingerprint(payload)
  {
    hide Listing, QuantityText, Strip, Name;
    if payload.Malformed? {
      return Err(IncompletePositions);
    }
    var rows := payload.rows;
    var quantities: map<string, string> := map[];
    for i := 0 to |rows|
      invariant Collect(rows[..i]) == Ok(quantities)
    {
      assert rows[..i + 1][..i] == rows[..i];
      var p := rows[i];
      if !Complete(p) || Name(p.symbol.value) in quantities {
        CollectFails(rows, i + 1);
        return Err(IncompletePositions);
      }
      quantities := quantities[Name(p.symbol.value) := QuantityText(p.quantity.value)];
    }
    assert rows[..|rows|] == rows;
    r := Ok(Listing(quantities));
  }

  lemma {:induction false} CollectFails(rows: seq<Position>, i: nat)
    requires i <= |rows| && Collect(rows[..i]) == Err(IncompletePositions)
    ensures Collect(rows) == Err(IncompletePositions)
  {
    if i == |rows| {
      assert rows[..i] == rows;
    } else {
      assert rows[..|rows| - 1][..i] == rows[..i];
      CollectFails(rows[..|rows| - 1], i);
    }
  }

  // ----- what the fingerprint tells -----

  lemma QuantityTextValue(q: Quantity)
    ensures AccountFacts.Canonical(QuantityText(q)) && AccountFacts.ValueOf(QuantityText(q)) == QuantityValue(q)
  {
    if q.coefficient == 0 {
      AccountFacts.ZeroIsCanonical();
      ZeroValue(q.exponent);
    } else {
      AccountFacts.TrimmedFixed(q.negative, q.coefficient, q.exponent);
      hide QuantityValue;
      AccountFacts.PartsReading(AccountFacts.FixedParts(q.coefficient, q.exponent), q.coefficient, q.exponent);
      QuantityValueIs(q);
    }
  }

  lemma QuantityValueIs(q: Quantity)
    ensures QuantityValue(q) == AccountFacts.WithSign(q.negative, AccountFacts.ExponentValue(q.coefficient, q.exponent))
  {
  }

  lemma ZeroValue(exponent: int)
    ensures AccountFacts.ExponentValue(0, exponent) == 0.0
  {
    if exponent >= 0 {
      ShiftOrder(0.0, 0.0, exponent);
    } else {
      AccountFacts.UnshiftInverse(0.0, -exponent);
      ShiftOrder(AccountFacts.Unshift(0.0, -exponent), 0.0, -exponent);
    }
  }

  lemma SameTextSameValue(p: Quantity, q: Quantity)
    ensures QuantityText(p) == QuantityText(q) <==> QuantityValue(p) == QuantityValue(q)
  {
    QuantityTextValue(p);
    QuantityTextValue(q);
    hide QuantityText, QuantityValue, AccountFacts.Canonical, AccountFacts.ValueOf;
    if QuantityValue(p) == QuantityValue(q) {
      AccountFacts.CanonicalUnique(QuantityText(p), QuantityText(q));
    }
  }

  predicate Distinct(rows: seq<Position>) {
    forall i, j | 0 <= i < j < |rows| && Complete(rows[i]) && Complete(rows[j]) ::
      Name(rows[i].symbol.value) != Name(rows[j].symbol.value)
  }

  /** Some row holds that much of the symbol, however it is written. */
  ghost predicate Holds(rows: seq<Position>, symbol: string, amount: real) {
    exists p :: p in rows && Complete(p) && Name(p.symbol.value) == symbol && QuantityValue(p.quantity.value) == amount
  }

  predicate Named(rows: seq<Position>, symbol: string) {
    exists p :: p in rows && Complete(p) && Name(p.symbol.value) == symbol
  }

  predicate Lists(quantities: map<string, string>, p: Position) {
    Complete(p) && Name(p.symbol.value) in quantities
    && quantities[Name(p.symbol.value)] == QuantityText(p.quantity.value)
  }

  /** The map has one entry for each row, and no other. */
  ghost predicate Collected(quantities: map<string, string>, rows: seq<Position>) {
    && (forall p | p in rows :: Lists(quantities, p))
    && (forall symbol | symbol in quantities :: Named(rows, symbol))
  }

  predicate AllComplete(rows: seq<Position>) {
    forall p | p in rows :: Complete(p)
  }

  lemma {:induction false} CollectIs(rows: seq<Position>)
    ensures Collect(rows).Ok? <==> AllComplete(rows) && Distinct(rows)
    ensures Collect(rows).Ok? ==> Collected(Collect(rows).value, rows)
  {
    hide CollectOne, Collected, Distinct;
    if rows == [] {
      NothingCollected();
    } else {
      var init, last := rows[..|rows| - 1], rows[|rows| - 1];
      assert rows == init + [last];
      CollectIs(init);
      if Collect(init).Ok? {
        LastCollected(Collect(init).value, init, last);
      } else {
        DistinctInit(init, last);
      }
    }
  }

  lemma NothingCollected()
    ensures Collected(map[], []) && Distinct([])
  {
  }

  lemma DistinctInit(init: seq<Position>, last: Position)
    ensures Distinct(init + [last]) ==> Distinct(init)
  {
    hide Complete, Name;
    var rows := init + [last];
    assert forall i | 0 <= i < |init| :: rows[i] == init[i];
  }

  lemma LastCollected(before: map<string, string>, init: seq<Position>, last: Position)
    requires AllComplete(init) && Distinct(init) && Collected(before, init)
    ensures var r := CollectOne(before, last);
      && (r.Ok? <==> AllComplete(init + [last]) && Distinct(init + [last]))
      && (r.Ok? ==> Collected(r.value, init + [last]))
  {
    hide Name, QuantityText, Strip;
    var rows := init + [last];
    assert rows[|init|] == last && last in rows;
    assert forall i | 0 <= i < |init| :: rows[i] == init[i];
    if Complete(last) {
      var name := Name(last.symbol.value);
      if name in before {
        assert Named(init, name);
        var p :| p in init && Complete(p) && Name(p.symbol.value) == name;
        var i :| 0 <= i < |init| && init[i] == p;
        assert Complete(rows[i]) && Complete(rows[|init|]);
      } else {
        LastIsNew(before, init, last);
        assert forall symbol | symbol in before :: Named(init, symbol) && Named(rows, symbol);
        assert Named(rows, name);
      }
    }
  }

  lemma LastIsNew(before: map<string, string>, init: seq<Position>, last: Position)
    requires Complete(last) && Name(last.symbol.value) !in before && Distinct(init)
    requires forall p | p in init :: Lists(before, p)
    ensures Distinct(init + [last])
  {
    hide Name, QuantityText, Strip;
    var rows := init + [last];
    forall i, j | 0 <= i < j < |rows| && Complete(rows[i]) && Complete(rows[j])
      ensures Name(rows[i].symbol.value) != Name(rows[j].symbol.value)
    {
      assert rows[i] == init[i];
      assert Lists(before, init[i]);
      if j < |init| {
        assert rows[j] == init[j];
      }
    }
  }

  lemma ListingAt(quantities: map<string, string>, k: nat)
    requires k < |Sorted(quantities.Keys)|
    ensures |Listing(quantities)| == |Sorted(quantities.Keys)| && Sorted(quantities.Keys)[k] in quantities
    ensures Listing(quantities)[k] == Entry(Sorted(quantities.Keys)[k], quantities[Sorted(quantities.Keys)[k]])
  {
  }

  /** A listing shows all of the map it lists. */
  lemma ListingShows(a: map<string, string>, b: map<string, string>, key: string)
    requires Listing(a) == Listing(b) && key in a
    ensures key in b && a[key] == b[key]
  {
    var p, q := Sorted(a.Keys), Sorted(b.Keys);
    assert key in p;
    var k :| 0 <= k < |p| && p[k] == key;
    assert |p| == |Listing(a)| == |Listing(b)| == |q|;
    hide Sorted, Listing;
    ListingAt(a, k);
    ListingAt(b, k);
  }

  lemma SameListing(a: map<string, string>, b: map<string, string>)
    ensures Listing(a) == Listing(b) <==> a == b
  {
    hide Listing;
    if Listing(a) == Listing(b) {
      forall key | key in a ensures key in b && a[key] == b[key] {
        ListingShows(a, b, key);
      }
      forall key | key in b ensures key in a {
        ListingShows(b, a, key);
      }
      assert a == b;
    }
  }

  /** The same letter, up to case, or the same other character. */
  predicate SameLetter(c: char, d: char) {
    || c == d
    || ('a' <= c <= 'z' && d == c - 'a' + 'A')
    || ('a' <= d <= 'z' && c == d - 'a' + 'A')
  }

  /** The trimmed texts are the same up to case. */
  predicate SameSymbol(a: string, b: string) {
    |Strip(a)| == |Strip(b)| && forall i | 0 <= i < |Strip(a)| :: SameLetter(Strip(a)[i], Strip(b)[i])
  }

  lemma UpperExactly(c: char, d: char)
    ensures UpperChar(c) == UpperChar(d) <==> SameLetter(c, d)
    ensures !('a' <= UpperChar(c) <= 'z')
  {
  }

  /** Two symbols have one name exactly when they are the same up to case and surrounding white space. */
  lemma SameNameExactly(a: string, b: string)
    ensures Name(a) == Name(b) <==> SameSymbol(a, b)
    ensures forall i | 0 <= i < |Name(a)| :: !('a' <= Name(a)[i] <= 'z')
  {
    forall c: char, d: char
      ensures UpperChar(c) == UpperChar(d) <==> SameLetter(c, d)
      ensures !('a' <= UpperChar(c) <= 'z')
    {
      UpperExactly(c, d);
    }
    hide Strip, UpperChar, SameLetter;
    assert |Name(a)| == |Strip(a)| && |Name(b)| == |Strip(b)|;
    if Name(a) == Name(b) {
      forall i | 0 <= i < |Strip(a)| ensures SameLetter(Strip(a)[i], Strip(b)[i]) {
        assert Name(a)[i] == Name(b)[i];
      }
    }
  }

  /** A symbol that is not blank, and a quantity. */
  predicate Filled(p: Position) {
    p.symbol.Some? && !Blank(p.symbol.value) && p.quantity.Some?
  }

  lemma CompleteExactly(p: Position)
    ensures Complete(p) <==> Filled(p)
  {
    if p.symbol.Some? {
      StripBlank(p.symbol.value);
    }
    hide Strip, Blank;
  }

  /**
   * A payload is accepted exactly when it is a list in which every row has a symbol that is not blank and a
   * quantity, and no two rows have the same symbol up to case and surrounding white space.
   */
  lemma AcceptedExactly(payload: Payload)
    ensures Fingerprint(payload).Ok? <==>
              && payload.Items?
              && (forall p | p in payload.rows :: Filled(p))
              && forall i, j | 0 <= i < j < |payload.rows| && Filled(payload.rows[i]) && Filled(payload.rows[j]) ::
                   !SameSymbol(payload.rows[i].symbol.value, payload.rows[j].symbol.value)
  {
    forall p: Position ensures Complete(p) <==> Filled(p) {
      CompleteExactly(p);
    }
    forall a: string, b: string ensures Name(a) == Name(b) <==> SameSymbol(a, b) {
      SameNameExactly(a, b);
    }
    if payload.Items? {
      CollectIs(payload.rows);
    }
    hide Complete, Name, SameSymbol, Collect, Listing;
    FilledSome();
  }

  lemma FilledSome()
    ensures forall p: Position :: Filled(p) ==> p.symbol.Some?
  {
  }

  lemma HoldsToo(quantities: map<string, string>, a: seq<Position>, b: seq<Position>, symbol: string, amount: real)
    requires Collected(quantities, a) && Collected(quantities, b) && Holds(a, symbol, amount)
    ensures Holds(b, symbol, amount)
  {
    hide Name, QuantityText, QuantityValue, Strip;
    var p :| p in a && Complete(p) && Name(p.symbol.value) == symbol && QuantityValue(p.quantity.value) == amount;
    assert Lists(quantities, p) && Named(b, symbol);
    var q :| q in b && Complete(q) && Name(q.symbol.value) == symbol;
    assert Lists(quantities, q);
    SameTextSameValue(p.quantity.value, q.quantity.value);
  }

  lemma EntriesAgree(m: map<string, string>, n: map<string, string>, a: seq<Position>, b: seq<Position>, symbol: string)
    requires Collected(m, a) && Collected(n, b) && symbol in m
    requires forall amount :: Holds(a, symbol, amount) ==> Holds(b, symbol, amount)
    ensures symbol in n && n[symbol] == m[symbol]
  {
    hide Name, QuantityText, QuantityValue, Strip;
    assert Named(a, symbol);
    var p :| p in a && Complete(p) && Name(p.symbol.value) == symbol;
    assert Lists(m, p) && Holds(a, symbol, QuantityValue(p.quantity.value));
    var q :| q in b && Complete(q) && Name(q.symbol.value) == symbol
             && QuantityValue(q.quantity.value) == QuantityValue(p.quantity.value);
    assert Lists(n, q);
    SameTextSameValue(p.quantity.value, q.quantity.value);
  }

  ghost predicate SameHoldings(a: seq<Position>, b: seq<Position>) {
    forall symbol, amount :: Holds(a, symbol, amount) <==> Holds(b, symbol, amount)
  }

  lemma SameMapExactly(m: map<string, string>, n: map<string, string>, a: seq<Position>, b: seq<Position>)
    requires Collected(m, a) && Collected(n, b)
    ensures m == n <==> SameHoldings(a, b)
  {
    hide Collected, Holds;
    if m == n {
      forall symbol, amount ensures Holds(a, symbol, amount) <==> Holds(b, symbol, amount) {
        if Holds(a, symbol, amount) {
          HoldsToo(m, a, b, symbol, amount);
        }
        if Holds(b, symbol, amount) {
          HoldsToo(m, b, a, symbol, amount);
        }
      }
    }
    if SameHoldings(a, b) {
      forall symbol | symbol in m ensures symbol in n && n[symbol] == m[symbol] {
        EntriesAgree(m, n, a, b, symbol);
      }
      forall symbol | symbol in n ensures symbol in m {
        EntriesAgree(n, m, b, a, symbol);
      }
    }
  }

  /**
   * Two accepted payloads have the same fingerprint exactly when they hold the same symbols in numerically equal
   * quantities. So neither the order of the rows nor the spelling of a number or a symbol matters.
   */
  lemma SameFingerprintExactly(a: seq<Position>, b: seq<Position>)
    requires Fingerprint(Items(a)).Ok? && Fingerprint(Items(b)).Ok?
    ensures Fingerprint(Items(a)) == Fingerprint(Items(b)) <==> SameHoldings(a, b)
  {
    CollectIs(a);
    CollectIs(b);
    SameListing(Collect(a).value, Collect(b).value);
    SameMapExactly(Collect(a).value, Collect(b).value, a, b);
    hide Collect, Listing, SameHoldings, Collected;
  }
}
