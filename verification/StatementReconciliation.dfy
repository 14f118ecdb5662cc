/** Explaining the gap between the gross and the net proceeds of a broker-assisted sell by the fees of the day. */
module StatementReconciliation {
  import opened Wrappers
  import opened Money
  import opened FeeSchedule

  const MILLION := 1000000.0

  function RoundUpCent(x: real): real {
    (-(-x * CENTS).Floor) as real / CENTS
  }

  /** Half up means away from zero. */
  function RoundHalfUp(x: real): real {
    if x >= 0.0 then (x * CENTS + 0.5).Floor as real / CENTS
    else -((-x * CENTS + 0.5).Floor as real / CENTS)
  }

  datatype Fee = Fee(secRaw: real, tafRaw: real, fee: real)

  function SecRaw(proceeds: real, rate: real): real {
    proceeds * rate / MILLION
  }

  function TafRaw(quantity: real, row: Segment): real {
    if row.rate > 0.0 then Min(Abs(quantity) * row.rate, row.cap) else 0.0
  }

  function Charged(raw: real, minimum: real): real {
    if raw <= 0.0 then 0.0 else Max(RoundUpCent(raw), minimum)
  }

  function RegulatoryFee(proceeds: real, quantity: real, day: int, s: Schedule): Result<Fee, FeeError> {
    var sec :- LookupOn(s, s.secRate, day);
    var taf :- LookupOn(s, s.tafRate, day);
    var secRaw, tafRaw := SecRaw(proceeds, sec.rate), TafRaw(quantity, taf);
    Ok(Fee(secRaw, tafRaw, Charged(secRaw + tafRaw, s.minimum)))
  }

  // ----- the dates of a row -----

  /** A date mentioned in the description: not at all, unreadably, or on a day. */
  datatype Mention = NotMentioned | NoDate | On(day: int)

  function TradeDate(column: Option<int>, executed: Mention, settled: Mention): Option<int> {
    if column.None? || executed == NoDate || settled == NoDate then None
    else if executed.On? && executed.day != column.value then None
    else if settled.On? && settled.day <= column.value then None
    else column
  }

  // ----- one row of the history -----

  datatype Row = Row(isSell: bool, brokerAssisted: bool, column: Option<int>, executed: Mention, settled: Mention,
                     quantity: Option<real>, price: Option<real>, net: Option<real>)

  datatype Status = NotApplicable | Unsupported | Explained | Unexplained

  datatype Breakdown = Breakdown(status: Status, gross: real, brokerFee: real, fee: Fee, residual: real)

  const NOTHING := Fee(0.0, 0.0, 0.0)

  function Undecided(status: Status): Breakdown {
    Breakdown(status, 0.0, 0.0, NOTHING, 0.0)
  }

  predicate Priced(row: Row) {
    && TradeDate(row.column, row.executed, row.settled).Some?
    && row.quantity.Some? && row.price.Some? && row.net.Some?
    && Abs(row.quantity.value) > 0.0 && row.price.value > 0.0
  }

  function ExpectedNet(gross: real, brokerFee: real, fee: real): real {
    RoundHalfUp(gross - brokerFee - fee)
  }

  /** The breakdown of a sell whose facts could be read. */
  function Decompose(net: real, gross: real, quantity: real, day: int, s: Schedule): Breakdown {
    var broker := LookupOn(s, s.brokerFee, day);
    var regulatory := RegulatoryFee(gross, quantity, day, s);
    if broker.Err? || regulatory.Err? then Undecided(Unsupported)
    else
      var residual := RoundCents(net - ExpectedNet(gross, broker.value.rate, regulatory.value.fee));
      Breakdown(if Abs(residual) <= s.tolerance then Explained else Unexplained,
                gross, broker.value.rate, regulatory.value, residual)
  }

  function DecomposeSellFees(row: Row, s: Schedule): Breakdown {
    if !row.isSell || !row.brokerAssisted then Undecided(NotApplicable)
    else if !Priced(row) then Undecided(Unsupported)
    else
      var quantity := Abs(row.quantity.value);
      Decompose(row.net.value, quantity * row.price.value, quantity,
                TradeDate(row.column, row.executed, row.settled).value, s)
  }

  // ----- rounding -----

  lemma RoundUpBounds(x: real)
    ensures x <= RoundUpCent(x) < x + 0.01
  {
    var n := (-x * CENTS).Floor;
    assert n as real <= -x * CENTS < n as real + 1.0;
  }

  lemma HalfUpBounds(x: real)
    ensures x - HALF_CENT <= RoundHalfUp(x) <= x + HALF_CENT
    ensures WholeCents(RoundHalfUp(x))
  {
    var n := if x >= 0.0 then (x * CENTS + 0.5).Floor else -(-x * CENTS + 0.5).Floor;
    assert RoundHalfUp(x) == n as real / CENTS;
    assert RoundHalfUp(x) * CENTS == n as real;
  }

  lemma DifferenceOfCents(a: real, b: real)
    requires WholeCents(a) && WholeCents(b)
    ensures WholeCents(a - b)
  {
    assert (a - b) * CENTS == a * CENTS - b * CENTS;
    assert (a - b) * CENTS == ((a * CENTS).Floor - (b * CENTS).Floor) as real;
  }

  // ----- what is owed -----

  /** The SEC rate is dollars per million of proceeds; TAF is per share, up to the cap, and nothing at a zero rate. */
  predicate Owes(secOwed: real, tafOwed: real, proceeds: real, quantity: real, sec: Segment, taf: Segment) {
    && secOwed * 1000000.0 == proceeds * sec.rate
    && (taf.rate == 0.0 ==> tafOwed == 0.0)
    && (taf.rate > 0.0 ==>
          && tafOwed <= Abs(quantity) * taf.rate && tafOwed <= taf.cap
          && (tafOwed == Abs(quantity) * taf.rate || tafOwed == taf.cap))
  }

  /** What is owed, raised to whole cents. */
  predicate Raised(cents: real, owed: real) {
    WholeCents(cents) && owed <= cents < owed + 0.01
  }

  /** The raised amount, but at least the minimum; nothing for nothing. */
  predicate Covers(fee: real, cents: real, owed: real, minimum: real) {
    && Raised(cents, owed)
    && (owed == 0.0 ==> fee == 0.0)
    && (owed != 0.0 ==> cents <= fee && minimum <= fee && (fee == cents || fee == minimum))
  }

  lemma RoundUpWhole(x: real)
    ensures WholeCents(RoundUpCent(x))
  {
    var n := -(-x * CENTS).Floor;
    assert RoundUpCent(x) * CENTS == n as real;
  }

  lemma ChargedCovers(raw: real, minimum: real)
    requires raw >= 0.0
    ensures Covers(Charged(raw, minimum), RoundUpCent(raw), raw, minimum)
    ensures raw <= Charged(raw, minimum) < raw + Max(0.01, minimum)
    ensures Charged(raw, minimum) < raw + 0.01 <==> raw == 0.0 || minimum < raw + 0.01
  {
    RoundUpBounds(raw);
    RoundUpWhole(raw);
    hide RoundUpCent, WholeCents;
  }

  lemma RawOwed(proceeds: real, quantity: real, sec: Segment, taf: Segment)
    requires proceeds >= 0.0 && sec.rate >= 0.0 && taf.cap >= 0.0 && taf.rate >= 0.0
    ensures SecRaw(proceeds, sec.rate) >= 0.0 && TafRaw(quantity, taf) >= 0.0
    ensures Owes(SecRaw(proceeds, sec.rate), TafRaw(quantity, taf), proceeds, quantity, sec, taf)
  {
    MultiplyOrder(0.0, proceeds, sec.rate);
    MultiplyOrder(0.0, Abs(quantity), taf.rate);
  }

  lemma RowInForce(s: Schedule, table: seq<Segment>, day: int, row: Segment)
    requires ValidTable(table) && day <= s.verifiedThrough && InForce(row, table, day)
    ensures LookupOn(s, table, day) == Ok(row) && row.rate >= 0.0 && row.cap >= 0.0
  {
    LookupExactly(s, table, day);
    hide LookupOn;
  }

  /**
   * With the rows of the day, the fee is computed from exactly what is owed. It is that raised to whole cents, or the
   * minimum if that is more: less than a cent above it exactly when nothing is owed or the minimum itself is
   * less than a cent above it, which holds whenever the minimum is a cent.
   */
  lemma RegulatoryFeeBounds(proceeds: real, quantity: real, day: int, s: Schedule, sec: Segment, taf: Segment)
    returns (cents: real)
    requires ValidSchedule(s) && proceeds >= 0.0 && day <= s.verifiedThrough
    requires InForce(sec, s.secRate, day) && InForce(taf, s.tafRate, day)
    ensures RegulatoryFee(proceeds, quantity, day, s).Ok?
    ensures var r := RegulatoryFee(proceeds, quantity, day, s).value;
      var raw := r.secRaw + r.tafRaw;
      && Owes(r.secRaw, r.tafRaw, proceeds, quantity, sec, taf)
      && Covers(r.fee, cents, raw, s.minimum)
      && 0.0 <= raw <= r.fee < raw + Max(0.01, s.minimum)
      && (r.fee < raw + 0.01 <==> raw == 0.0 || s.minimum < raw + 0.01)
      && (s.minimum <= 0.01 ==> r.fee < raw + 0.01)
  {
    RowInForce(s, s.secRate, day, sec);
    RowInForce(s, s.tafRate, day, taf);
    RawOwed(proceeds, quantity, sec, taf);
    hide SecRaw, TafRaw, Owes, Charged, Covers, LookupOn;
    var r := RegulatoryFee(proceeds, quantity, day, s).value;
    cents := RoundUpCent(r.secRaw + r.tafRaw);
    ChargedCovers(r.secRaw + r.tafRaw, s.minimum);
  }

  /** The facts of a sell can be read, its dates agree, and it settles after the trade. */
  predicate Readable(row: Row) {
    && row.column.Some? && row.executed != NoDate && row.settled != NoDate
    && (row.executed.On? ==> row.executed.day == row.column.value)
    && (row.settled.On? ==> row.settled.day > row.column.value)
    && row.quantity.Some? && row.quantity.value != 0.0
    && row.price.Some? && row.price.value > 0.0
    && row.net.Some?
  }

  lemma PricedExactly(row: Row)
    ensures Priced(row) <==> Readable(row)
    ensures Priced(row) ==> TradeDate(row.column, row.executed, row.settled) == row.column
  {
  }

  /**
   * A row is not applicable exactly when it is no broker-assisted sell. A broker-assisted sell is left undecided
   * exactly when its facts cannot be read or its day is one that some of the three tables does not cover.
   */
  lemma UnsupportedExactly(row: Row, s: Schedule)
    requires ValidSchedule(s)
    ensures var status := DecomposeSellFees(row, s).status;
      && (status == NotApplicable <==> !row.isSell || !row.brokerAssisted)
      && (status == Unsupported <==>
            && row.isSell && row.brokerAssisted
            && (|| !Readable(row)
                || row.column.value > s.verifiedThrough || row.column.value < s.brokerFee[0].from
                || row.column.value < s.secRate[0].from || row.column.value < s.tafRate[0].from))
  {
    PricedExactly(row);
    if Priced(row) {
      var day := row.column.value;
      LookupExactly(s, s.brokerFee, day);
      LookupExactly(s, s.secRate, day);
      LookupExactly(s, s.tafRate, day);
    }
    hide LookupOn, SecRaw, TafRaw, RoundHalfUp, RoundCents, Charged, Priced, Readable, TradeDate, Abs;
  }

  /** The gap left over, from the residual, the rounding of the expected net, and the rounding of the fee. */
  lemma GapBounds(gap: real, net: real, gross: real, broker: real, raw: real, fee: real, tolerance: real, over: real)
    requires gap == gross - net - (broker + raw)
    requires raw <= fee < raw + over
    requires Abs(RoundCents(net - ExpectedNet(gross, broker, fee))) <= tolerance
    ensures -(tolerance + 0.01) <= gap < tolerance + 0.01 + over
    ensures WholeCents(net) ==> -(tolerance + HALF_CENT) <= gap < tolerance + HALF_CENT + over
  {
    var expected := ExpectedNet(gross, broker, fee);
    HalfUpBounds(gross - broker - fee);
    RoundError(net - expected);
    if WholeCents(net) {
      DifferenceOfCents(net, expected);
      RoundFixesCents(net - expected);
    }
    hide RoundCents, RoundHalfUp;
  }

  /** The three rows in force on the day of a sell. */
  datatype Rows = Rows(broker: Segment, sec: Segment, taf: Segment)

  predicate OfTheDay(rows: Rows, s: Schedule, day: int) {
    && day <= s.verifiedThrough
    && InForce(rows.broker, s.brokerFee, day) && InForce(rows.sec, s.secRate, day) && InForce(rows.taf, s.tafRate, day)
  }

  lemma DayRows(s: Schedule, day: int, rows: Rows)
    requires ValidSchedule(s) && OfTheDay(rows, s, day)
    ensures LookupOn(s, s.brokerFee, day) == Ok(rows.broker)
    ensures LookupOn(s, s.secRate, day) == Ok(rows.sec) && LookupOn(s, s.tafRate, day) == Ok(rows.taf)
  {
    RowInForce(s, s.brokerFee, day, rows.broker);
    RowInForce(s, s.secRate, day, rows.sec);
    RowInForce(s, s.tafRate, day, rows.taf);
  }

  /**
   * An explained sell: gross minus net is the broker fee and the SEC and TAF amounts owed, up to the tolerance,
   * a cent of rounding, and the cent (or minimum) the fee is rounded up by; with a minimum of at most a cent,
   * within tolerance plus two cents. A net in whole cents saves half a cent.
   */
  lemma ExplainedMeans(row: Row, s: Schedule, rows: Rows, secOwed: real, tafOwed: real)
    requires ValidSchedule(s) && Priced(row) && DecomposeSellFees(row, s).status == Explained
    requires OfTheDay(rows, s, TradeDate(row.column, row.executed, row.settled).value)
    requires Owes(secOwed, tafOwed, Abs(row.quantity.value) * row.price.value, row.quantity.value, rows.sec, rows.taf)
    ensures var gap := Abs(row.quantity.value) * row.price.value - row.net.value - (rows.broker.rate + secOwed + tafOwed);
      && -(s.tolerance + 0.01) <= gap < s.tolerance + 0.01 + Max(0.01, s.minimum)
      && (s.minimum <= 0.01 ==> Abs(gap) <= s.tolerance + 0.02)
      && (WholeCents(row.net.value) ==>
            -(s.tolerance + 0.005) <= gap < s.tolerance + 0.005 + Max(0.01, s.minimum))
  {
    var fee, cents := Decomposed(row, s, rows, secOwed, tafOwed);
    ExplainedBounds(row.net.value, Abs(row.quantity.value) * row.price.value, rows.broker.rate, secOwed + tafOwed, fee, s);
  }

  lemma OwesOnce(a: real, b: real, c: real, d: real, proceeds: real, quantity: real, sec: Segment, taf: Segment)
    requires Owes(a, b, proceeds, quantity, sec, taf) && Owes(c, d, proceeds, quantity, sec, taf) && taf.rate >= 0.0
    ensures a == c && b == d
  {
  }

  lemma AbsTwice(x: real)
    ensures Abs(Abs(x)) == Abs(x)
  {
  }

  /** The breakdown of a priced sell on a covered day, from what is owed. */
  lemma Decomposed(row: Row, s: Schedule, rows: Rows, secOwed: real, tafOwed: real) returns (fee: real, cents: real)
    requires ValidSchedule(s) && Priced(row) && row.isSell && row.brokerAssisted
    requires OfTheDay(rows, s, TradeDate(row.column, row.executed, row.settled).value)
    requires Owes(secOwed, tafOwed, Abs(row.quantity.value) * row.price.value, row.quantity.value, rows.sec, rows.taf)
    ensures Covers(fee, cents, secOwed + tafOwed, s.minimum)
    ensures 0.0 <= secOwed + tafOwed <= fee < secOwed + tafOwed + Max(0.01, s.minimum)
    ensures DecomposeSellFees(row, s).status
         == StatusFor(row.net.value, Abs(row.quantity.value) * row.price.value, rows.broker.rate, fee, s.tolerance)
  {
    PricedGross(row);
    hide *;
    var day := TradeDate(row.column, row.executed, row.settled).value;
    var quantity, gross := Abs(row.quantity.value), Abs(row.quantity.value) * row.price.value;
    PricedDecomposes(row, s);
    StatusOf(row.net.value, gross, quantity, day, s, rows);
    cents := RegulatoryFeeBounds(gross, quantity, day, s, rows.sec, rows.taf);
    var r := RegulatoryFee(gross, quantity, day, s).value;
    fee := r.fee;
    RowInForce(s, s.tafRate, day, rows.taf);
    OwedAlike(r.secRaw, r.tafRaw, gross, row.quantity.value, rows.sec, rows.taf);
    OwesOnce(r.secRaw, r.tafRaw, secOwed, tafOwed, gross, row.quantity.value, rows.sec, rows.taf);
  }

  function StatusFor(net: real, gross: real, broker: real, fee: real, tolerance: real): Status {
    if Abs(RoundCents(net - ExpectedNet(gross, broker, fee))) <= tolerance then Explained else Unexplained
  }

  lemma PricedGross(row: Row)
    requires Priced(row)
    ensures row.quantity.Some? && row.price.Some? && row.net.Some?
    ensures TradeDate(row.column, row.executed, row.settled).Some?
    ensures Abs(row.quantity.value) * row.price.value >= 0.0
  {
    MultiplyOrder(0.0, Abs(row.quantity.value), row.price.value);
    hide TradeDate;
  }

  lemma PricedDecomposes(row: Row, s: Schedule)
    requires Priced(row) && row.isSell && row.brokerAssisted
    ensures DecomposeSellFees(row, s)
         == Decompose(row.net.value, Abs(row.quantity.value) * row.price.value, Abs(row.quantity.value),
                      TradeDate(row.column, row.executed, row.settled).value, s)
  {
    hide Decompose, TradeDate, Abs;
  }

  lemma StatusOf(net: real, gross: real, quantity: real, day: int, s: Schedule, rows: Rows)
    requires ValidSchedule(s) && OfTheDay(rows, s, day)
    ensures var r := RegulatoryFee(gross, quantity, day, s);
      r.Ok? ==> Decompose(net, gross, quantity, day, s).status
                == StatusFor(net, gross, rows.broker.rate, r.value.fee, s.tolerance)
  {
    DayRows(s, day, rows);
    hide LookupOn, RegulatoryFee, RoundCents, ExpectedNet, OfTheDay, ValidSchedule;
  }

  /** The sign of the quantity does not matter. */
  lemma OwedAlike(a: real, b: real, proceeds: real, quantity: real, sec: Segment, taf: Segment)
    requires Owes(a, b, proceeds, Abs(quantity), sec, taf)
    ensures Owes(a, b, proceeds, quantity, sec, taf)
  {
    AbsTwice(quantity);
  }

  lemma ExplainedBounds(net: real, gross: real, broker: real, raw: real, fee: real, s: Schedule)
    requires 0.0 <= raw <= fee < raw + Max(0.01, s.minimum)
    requires StatusFor(net, gross, broker, fee, s.tolerance) == Explained
    ensures var gap := gross - net - (broker + raw);
      && -(s.tolerance + 0.01) <= gap < s.tolerance + 0.01 + Max(0.01, s.minimum)
      && (s.minimum <= 0.01 ==> Abs(gap) <= s.tolerance + 0.02)
      && (WholeCents(net) ==> -(s.tolerance + 0.005) <= gap < s.tolerance + 0.005 + Max(0.01, s.minimum))
  {
    hide RoundCents, ExpectedNet, WholeCents;
    GapBounds(gross - net - (broker + raw), net, gross, broker, raw, fee, s.tolerance, Max(0.01, s.minimum));
  }

  // ----- when a sell is explained, exactly -----

  /** The whole-cent amount nearest to x; of two equally near, the one further from zero. */
  predicate NearestAway(y: real, x: real) {
    && WholeCents(y)
    && (if x >= 0.0 then y - 0.005 <= x < y + 0.005 else y - 0.005 < x <= y + 0.005)
  }

  lemma HalfUpNearest(x: real, y: real)
    ensures NearestAway(y, x) <==> y == RoundHalfUp(x)
  {
    HalfUpBounds(x);
    var n := if x >= 0.0 then (x * CENTS + 0.5).Floor else -(-x * CENTS + 0.5).Floor;
    assert RoundHalfUp(x) * CENTS == n as real;
    if NearestAway(y, x) {
      var k := (y * CENTS).Floor;
      assert y * CENTS == k as real;
      assert k == n;
    }
  }

  lemma RaisedOnce(a: real, b: real, owed: real)
    requires Raised(a, owed) && Raised(b, owed)
    ensures a == b
  {
    CentsApart(a, b, (a * CENTS).Floor, (b * CENTS).Floor);
  }

  lemma CentsApart(a: real, b: real, i: int, j: int)
    requires a * 100.0 == i as real && b * 100.0 == j as real && -0.01 < a - b < 0.01
    ensures a == b
  {
    assert -1.0 < (i - j) as real < 1.0;
  }

  lemma CoversOnce(a: real, b: real, i: real, j: real, owed: real, minimum: real)
    requires Covers(a, i, owed, minimum) && Covers(b, j, owed, minimum)
    ensures a == b
  {
    RaisedOnce(i, j, owed);
  }

  lemma StatusFrom(net: real, gross: real, broker: real, fee: real, tolerance: real, expected: real, residual: real)
    requires NearestAway(expected, gross - broker - fee) && NearestEven(residual, net - expected)
    ensures StatusFor(net, gross, broker, fee, tolerance) == if Abs(residual) <= tolerance then Explained else Unexplained
  {
    HalfUpNearest(gross - broker - fee, expected);
    RoundExactly(net - expected, residual);
    hide RoundCents, RoundHalfUp, NearestAway, NearestEven;
  }

  /**
   * A readable sell on a covered day is explained exactly when its net differs by at most the tolerance from the
   * expected one, to the nearest cent: the expected net being, to the nearest cent, the proceeds less the broker
   * fee and the fee that covers the SEC and TAF amounts owed.
   */
  lemma ExplainedExactly(row: Row, s: Schedule, rows: Rows, secOwed: real, tafOwed: real, cents: real, fee: real,
                         expected: real, residual: real)
    requires ValidSchedule(s) && Priced(row) && row.isSell && row.brokerAssisted
    requires OfTheDay(rows, s, TradeDate(row.column, row.executed, row.settled).value)
    requires Owes(secOwed, tafOwed, Abs(row.quantity.value) * row.price.value, row.quantity.value, rows.sec, rows.taf)
    requires Covers(fee, cents, secOwed + tafOwed, s.minimum)
    requires NearestAway(expected, Abs(row.quantity.value) * row.price.value - rows.broker.rate - fee)
    requires NearestEven(residual, row.net.value - expected)
    ensures DecomposeSellFees(row, s).status == if Abs(residual) <= s.tolerance then Explained else Unexplained
  {
    PricedGross(row);
    hide *;
    var charged, raised := Decomposed(row, s, rows, secOwed, tafOwed);
    CoversOnce(fee, charged, cents, raised, secOwed + tafOwed, s.minimum);
    StatusFrom(row.net.value, Abs(row.quantity.value) * row.price.value, rows.broker.rate, fee, s.tolerance, expected, residual);
  }

  /** All of these amounts exist, so the last lemma speaks about every readable sell on a covered day. */
  lemma AmountsExist(proceeds: real, quantity: real, net: real, minimum: real, rows: Rows)
    returns (secOwed: real, tafOwed: real, cents: real, fee: real, expected: real, residual: real)
    requires proceeds >= 0.0 && minimum >= 0.0 && rows.sec.rate >= 0.0 && rows.taf.rate >= 0.0 && rows.taf.cap >= 0.0
    ensures Owes(secOwed, tafOwed, proceeds, quantity, rows.sec, rows.taf)
    ensures Covers(fee, cents, secOwed + tafOwed, minimum)
    ensures NearestAway(expected, proceeds - rows.broker.rate - fee)
    ensures NearestEven(residual, net - expected)
  {
    secOwed, tafOwed := SecRaw(proceeds, rows.sec.rate), TafRaw(quantity, rows.taf);
    RawOwed(proceeds, quantity, rows.sec, rows.taf);
    cents, fee := RoundUpCent(secOwed + tafOwed), Charged(secOwed + tafOwed, minimum);
    ChargedCovers(secOwed + tafOwed, minimum);
    expected := RoundHalfUp(proceeds - rows.broker.rate - fee);
    HalfUpNearest(proceeds - rows.broker.rate - fee, expected);
    residual := RoundCents(net - expected);
    RoundExactly(net - expected, residual);
    hide *;
  }
}
