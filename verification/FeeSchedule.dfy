/** Dated fee segments: how they are validated, and which one applies on a trade date. Dates are day numbers. */
module FeeSchedule {
  import opened Wrappers

  /** `cap` is the most a trade can be charged; tables without one leave it at zero. */
  datatype Segment = Segment(from: int, rate: real, cap: real)

  /** A configured row; a part that is no date or no finite number is absent. */
  datatype RawSegment = RawSegment(from: Option<int>, rate: Option<real>, cap: Option<real>)

  datatype FeeError = TableMissing | RowInvalid | NotStrictlyOrdered | NotVerified | NotDefined

  datatype Schedule = Schedule(
    brokerFee: seq<Segment>,
    secRate: seq<Segment>,
    tafRate: seq<Segment>,
    minimum: real,
    tolerance: real,
    verifiedThrough: int)

  predicate RowValid(raw: RawSegment) {
    && raw.from.Some? && raw.rate.Some? && raw.cap.Some?
    && raw.rate.value >= 0.0 && raw.cap.value >= 0.0
  }

  predicate Rising(rows: seq<Segment>) {
    forall i, j | 0 <= i < j < |rows| :: rows[i].from < rows[j].from
  }

  predicate Charges(rows: seq<Segment>) {
    forall row | row in rows :: row.rate >= 0.0 && row.cap >= 0.0
  }

  /** What a validated table is. */
  predicate ValidTable(rows: seq<Segment>) {
    rows != [] && Rising(rows) && Charges(rows)
  }

  predicate ValidSchedule(s: Schedule) {
    ValidTable(s.brokerFee) && ValidTable(s.secRate) && ValidTable(s.tafRate) && s.minimum >= 0.0 && s.tolerance >= 0.0
  }

  /** A table is loaded exactly when it is not empty, every row is readable and the dates rise. */
  method Segments(raw: seq<RawSegment>) returns (r: Result<seq<Segment>, FeeError>)
    ensures r.Ok? <==>
              && raw != [] && (forall i | 0 <= i < |raw| :: RowValid(raw[i]))
              && forall i, j | 0 <= i < j < |raw| :: raw[i].from.value < raw[j].from.value
    ensures raw == [] <==> r == Err(TableMissing)
    ensures raw != [] && (exists x | x in raw :: !RowValid(x)) <==> r == Err(RowInvalid)
    ensures r.Ok? ==>
              && ValidTable(r.value) && |r.value| == |raw|
              && forall i | 0 <= i < |raw| ::
                   RowValid(raw[i]) && r.value[i] == Segment(raw[i].from.value, raw[i].rate.value, raw[i].cap.value)
    ensures r == Err(NotStrictlyOrdered) ==>
              && (forall i | 0 <= i < |raw| :: RowValid(raw[i]))
              && exists i, j | 0 <= i < j < |raw| :: raw[i].from.value >= raw[j].from.value
  {
    if raw == [] {
      return Err(TableMissing);
    }
    var rows := [];
    for i := 0 to |raw|
      invariant |rows| == i && Charges(rows)
      invariant forall k | 0 <= k < i :: RowValid(raw[k])
      invariant forall k | 0 <= k < i :: rows[k] == Segment(raw[k].from.value, raw[k].rate.value, raw[k].cap.value)
    {
      if !RowValid(raw[i]) {
        return Err(RowInvalid);
      }
      rows := rows + [Segment(raw[i].from.value, raw[i].rate.value, raw[i].cap.value)];
    }
    if !Rising(rows) {
      var i, j :| 0 <= i < j < |rows| && rows[i].from >= rows[j].from;
      assert raw[i].from.value >= raw[j].from.value;
      return Err(NotStrictlyOrdered);
    }
    r := Ok(rows);
  }

  /** The last row not after the date, as the loop finds it. */
  function Selected(table: seq<Segment>, day: int): Option<Segment> {
    if table == [] then None
    else
      var last := table[|table| - 1];
      if last.from <= day then Some(last) else Selected(table[..|table| - 1], day)
  }

  function LookupOn(s: Schedule, table: seq<Segment>, day: int): Result<Segment, FeeError> {
    if day > s.verifiedThrough then Err(NotVerified)
    else if Selected(table, day).None? then Err(NotDefined)
    else Ok(Selected(table, day).value)
  }

  method Lookup(s: Schedule, table: seq<Segment>, day: int) returns (r: Result<Segment, FeeError>)
    ensures r == LookupOn(s, table, day)
  {
    if day > s.verifiedThrough {
      return Err(NotVerified);
    }
    var selected: Option<Segment> := None;
    for i := 0 to |table|
      invariant selected == Selected(table[..i], day)
    {
      assert table[..i + 1][..i] == table[..i];
      if table[i].from <= day {
        selected := Some(table[i]);
      }
    }
    assert table[..|table|] == table;
    if selected.None? {
      return Err(NotDefined);
    }
    r := Ok(selected.value);
  }

  lemma {:induction false} SelectedIsLatest(table: seq<Segment>, day: int)
    requires Rising(table)
    ensures Selected(table, day).None? <==> forall row | row in table :: row.from > day
    ensures Selected(table, day).Some? ==>
              var row := Selected(table, day).value;
              row in table && row.from <= day && forall other | other in table && other.from <= day :: other.from <= row.from
  {
    if table != [] {
      var init, last := table[..|table| - 1], table[|table| - 1];
      assert table == init + [last];
      SelectedIsLatest(init, day);
    }
  }

  /** The latest row of the table that is not after the day. */
  predicate InForce(row: Segment, table: seq<Segment>, day: int) {
    row in table && row.from <= day && forall other | other in table && other.from <= day :: other.from <= row.from
  }

  lemma SameDateSameRow(table: seq<Segment>, a: Segment, b: Segment)
    requires Rising(table) && a in table && b in table && a.from == b.from
    ensures a == b
  {
    var i :| 0 <= i < |table| && table[i] == a;
    var j :| 0 <= j < |table| && table[j] == b;
    assert !(i < j) && !(j < i);
  }

  /**
   * On a validated table the lookup fails exactly outside the covered dates, and otherwise returns the one row
   * that starts on or before the date and after which none else does.
   */
  lemma LookupExactly(s: Schedule, table: seq<Segment>, day: int)
    requires ValidTable(table)
    ensures LookupOn(s, table, day).Ok? <==> table[0].from <= day <= s.verifiedThrough
    ensures forall row :: LookupOn(s, table, day) == Ok(row) <==> day <= s.verifiedThrough && InForce(row, table, day)
  {
    SelectedIsLatest(table, day);
    assert table[0] in table;
    assert forall row | row in table :: table[0].from <= row.from;
    forall row | InForce(row, table, day)
      ensures Selected(table, day) == Some(row)
    {
      SameDateSameRow(table, row, Selected(table, day).value);
    }
  }
}
