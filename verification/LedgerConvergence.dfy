/**
 * What a ledger comes to hold depends on the set of snapshots delivered, not on their order or repetition, and
 * what it holds is never taken back.
 */
module LedgerConvergence {
  import opened Wrappers
  import opened Ordering
  import opened CandidateLedger

  function Replay(l: Ledger, calls: seq<Call>): Result<Ledger, LedgerError> {
    if calls == [] then Ok(l)
    else
      var before :- Replay(l, calls[..|calls| - 1]);
      MergeLedger(before, calls[|calls| - 1])
  }

  // ----- what was delivered -----

  function SnapsOf(rows: seq<Snapshot>, id: string): set<Row> {
    set x | x in rows && x.runId == id :: x.row
  }

  function SnapsHeld(l: Ledger, id: string): set<Row> {
    if id in l.sources then {l.sources[id]} else {}
  }

  /** All snapshots of one run: the one the ledger started with, and those of the calls. */
  function Delivered(l: Ledger, calls: seq<Call>, id: string): set<Row> {
    if calls == [] then SnapsHeld(l, id)
    else Delivered(l, calls[..|calls| - 1], id) + SnapsOf(calls[|calls| - 1].rows, id)
  }

  predicate Holds(facts: map<string, Fact>, fact: Fact) {
    fact.key in facts && facts[fact.key] == fact
  }

  predicate Reported(l: Ledger, calls: seq<Call>, fact: Fact) {
    if calls == [] then Holds(l.facts, fact)
    else Reported(l, calls[..|calls| - 1], fact) || fact in calls[|calls| - 1].events
  }

  // ----- the reference: one row for a set of snapshots -----

  predicate Contradicted(row: Row) {
    row == Conflicted(row)
  }

  predicate IsLatest(asOf: string, snaps: set<Row>) {
    && (exists x | x in snaps :: x.asOf == asOf)
    && (forall x | x in snaps :: Le(x.asOf, asOf))
  }

  predicate Differ(snaps: set<Row>) {
    exists x, y | x in snaps && y in snaps :: x != y
  }

  predicate Agree(row: Row, snaps: set<Row>) {
    forall x | x in snaps :: x.identity == row.identity && x.observations == row.observations
  }

  /**
   * The row that stands for a set of snapshots. A single one stands for itself. Two that differ stand as an
   * alert without counts, as of the latest of them.
   */
  predicate Represents(row: Row, snaps: set<Row>) {
    && Agree(row, snaps)
    && IsLatest(row.asOf, snaps)
    && (snaps == {row} || (Differ(snaps) && Contradicted(row)))
  }

  predicate Stands(sources: map<string, Row>, id: string, snaps: set<Row>) {
    if id in sources then Represents(sources[id], snaps) else snaps == {}
  }

  /** Everything a reader of the digest gets from a row, except the execution status. */
  predicate SameView(a: Row, b: Row) {
    && a.identity == b.identity && a.status == b.status && a.reasonCode == b.reasonCode
    && a.orderCount == b.orderCount && a.fillCount == b.fillCount && a.fieldStatus == b.fieldStatus
    && a.cycleCount == b.cycleCount && a.asOf == b.asOf && a.observations == b.observations
  }

  lemma SameSnapsSameView(a: Row, b: Row, snaps: set<Row>)
    requires Represents(a, snaps) && Represents(b, snaps)
    ensures SameView(a, b)
  {
    LeAntisymmetric(a.asOf, b.asOf);
    var x :| x in snaps && x.asOf == a.asOf;
    assert Differ(snaps) ==> snaps != {a} && snaps != {b};
    if snaps == {a} {
      assert a in {b};
    }
  }

  // ----- one snapshot -----

  lemma Alone(row: Row)
    ensures Represents(row, {row})
  {
    LeReflexive(row.asOf);
  }

  lemma LatestOf(a: string, snaps: set<Row>, x: Row)
    requires IsLatest(a, snaps)
    ensures IsLatest(Latest(a, x.asOf), snaps + {x})
  {
    var more := snaps + {x};
    LeTotal(a, x.asOf);
    LeReflexive(x.asOf);
    var witnessed :| witnessed in snaps && witnessed.asOf == a;
    assert witnessed in more && x in more;
    forall y | y in more ensures Le(y.asOf, Latest(a, x.asOf)) {
      if y in snaps && Le(a, x.asOf) {
        LeTransitive(y.asOf, a, x.asOf);
      }
    }
  }

  lemma AggregateKeeps(held: Row, row: Row)
    ensures var r := Aggregate(held, row);
      && (r.Ok? <==> row.identity == held.identity)
      && (r.Ok? ==> r.value.identity == held.identity && r.value.asOf == Latest(held.asOf, row.asOf)
                    && r.value.observations == held.observations)
  {
  }

  lemma ConflictRepresents(held: Row, snaps: set<Row>, row: Row)
    requires Represents(held, snaps) && held != row && held.observations == row.observations
    requires Aggregate(held, row).Ok?
    ensures Represents(Conflicted(Aggregate(held, row).value), snaps + {row})
  {
    AggregateKeeps(held, row);
    LatestOf(held.asOf, snaps, row);
    var more := snaps + {row};
    assert Differ(more) by {
      if snaps == {held} {
        assert held in more && row in more;
      } else {
        var x, y :| x in snaps && y in snaps && x != y;
        assert x in more && y in more;
      }
    }
  }

  lemma RepeatRepresents(row: Row, snaps: set<Row>)
    requires Represents(row, snaps)
    ensures Represents(row, snaps + {row})
  {
    LeReflexive(row.asOf);
    var more := snaps + {row};
    if snaps != {row} {
      var x, y :| x in snaps && y in snaps && x != y;
      assert x in more && y in more;
    }
    var z :| z in snaps && z.asOf == row.asOf;
    assert z in more;
  }

  lemma AbsorbOneStands(sources: map<string, Row>, x: Snapshot, id: string, snaps: set<Row>)
    requires Stands(sources, id, snaps) && AbsorbOne(sources, x).Ok?
    ensures Stands(AbsorbOne(sources, x).value, id, snaps + SnapsOf([x], id))
  {
    assert SnapsOf([x], id) == if x.runId == id then {x.row} else {};
    if x.runId == id {
      if id in sources {
        if sources[id] == x.row {
          RepeatRepresents(x.row, snaps);
        } else {
          ConflictRepresents(sources[id], snaps, x.row);
        }
      } else {
        Alone(x.row);
        assert snaps + {x.row} == {x.row};
      }
    } else {
      assert snaps + {} == snaps;
    }
  }

  lemma SnapsGrow(init: seq<Snapshot>, last: Snapshot, id: string, snaps: set<Row>)
    ensures snaps + SnapsOf(init + [last], id) == snaps + SnapsOf(init, id) + SnapsOf([last], id)
  {
    assert SnapsOf(init + [last], id) == SnapsOf(init, id) + SnapsOf([last], id);
  }

  lemma {:induction false} AbsorbStands(sources: map<string, Row>, rows: seq<Snapshot>, id: string, snaps: set<Row>)
    requires Stands(sources, id, snaps) && Absorb(sources, rows).Ok?
    ensures Stands(Absorb(sources, rows).value, id, snaps + SnapsOf(rows, id))
  {
    hide AbsorbOne, Stands;
    if rows == [] {
      assert snaps + SnapsOf(rows, id) == snaps;
    } else {
      var init, last := rows[..|rows| - 1], rows[|rows| - 1];
      AbsorbStands(sources, init, id, snaps);
      AbsorbOneStands(Absorb(sources, init).value, last, id, snaps + SnapsOf(init, id));
      assert rows == init + [last];
      SnapsGrow(init, last, id, snaps);
    }
  }

  lemma {:induction false} RecordExactly(facts: map<string, Fact>, events: seq<Fact>, fact: Fact)
    requires Record(facts, events).Ok?
    ensures Holds(Record(facts, events).value, fact) <==> Holds(facts, fact) || fact in events
  {
    if events != [] {
      var init, last := events[..|events| - 1], events[|events| - 1];
      RecordExactly(facts, init, fact);
      assert events == init + [last];
    }
  }

  lemma MergeSplits(l: Ledger, call: Call)
    requires MergeLedger(l, call).Ok?
    ensures var n := MergeLedger(l, call).value;
      Absorb(l.sources, call.rows) == Ok(n.sources) && Record(l.facts, call.events) == Ok(n.facts)
  {
  }

  lemma {:induction false} ReplayStands(l: Ledger, calls: seq<Call>, id: string, fact: Fact)
    requires Replay(l, calls).Ok?
    ensures var n := Replay(l, calls).value;
      && Stands(n.sources, id, Delivered(l, calls, id))
      && (Holds(n.facts, fact) <==> Reported(l, calls, fact))
  {
    hide MergeLedger, Stands, Holds, Represents;
    if calls == [] {
      StartStands(l, id);
    } else {
      var init, last := calls[..|calls| - 1], calls[|calls| - 1];
      ReplayStands(l, init, id, fact);
      var before := Replay(l, init).value;
      MergeSplits(before, last);
      AbsorbStands(before.sources, last.rows, id, Delivered(l, init, id));
      RecordExactly(before.facts, last.events, fact);
    }
  }

  lemma StartStands(l: Ledger, id: string)
    ensures Stands(l.sources, id, SnapsHeld(l, id))
  {
    if id in l.sources {
      Alone(l.sources[id]);
    }
  }

  // ----- convergence -----

  ghost predicate Keyed(facts: map<string, Fact>) {
    forall key | key in facts :: facts[key].key == key
  }

  lemma {:induction false} RecordKeyed(facts: map<string, Fact>, events: seq<Fact>)
    requires Keyed(facts) && Record(facts, events).Ok?
    ensures Keyed(Record(facts, events).value)
  {
    if events != [] {
      RecordKeyed(facts, events[..|events| - 1]);
    }
  }

  lemma {:induction false} ReplayKeyed(l: Ledger, calls: seq<Call>)
    requires Keyed(l.facts) && Replay(l, calls).Ok?
    ensures Keyed(Replay(l, calls).value.facts)
  {
    if calls != [] {
      ReplayKeyed(l, calls[..|calls| - 1]);
      MergeSplits(Replay(l, calls[..|calls| - 1]).value, calls[|calls| - 1]);
      RecordKeyed(Replay(l, calls[..|calls| - 1]).value.facts, calls[|calls| - 1].events);
    }
  }

  lemma SameFacts(a: map<string, Fact>, b: map<string, Fact>)
    requires Keyed(a) && Keyed(b) && forall fact: Fact :: Holds(a, fact) <==> Holds(b, fact)
    ensures a == b
  {
    forall key | key in a ensures key in b && b[key] == a[key] {
      assert Holds(a, a[key]);
    }
    forall key | key in b ensures key in a {
      assert Holds(b, b[key]);
    }
  }

  /**
   * Convergence. Two histories that deliver the same snapshots of every run and the same events, in whatever
   * order and however often, and both succeed, end with the same runs, the same event map, and for each run the
   * same identity, status, counts, cycle count and time.
   */
  lemma Convergence(l: Ledger, a: seq<Call>, b: seq<Call>)
    requires Keyed(l.facts) && Replay(l, a).Ok? && Replay(l, b).Ok?
    requires forall id: string :: Delivered(l, a, id) == Delivered(l, b, id)
    requires forall fact: Fact :: Reported(l, a, fact) <==> Reported(l, b, fact)
    ensures var p, q := Replay(l, a).value, Replay(l, b).value;
      && p.sources.Keys == q.sources.Keys
      && p.facts == q.facts
      && forall id | id in p.sources :: SameView(p.sources[id], q.sources[id])
  {
    var p, q := Replay(l, a).value, Replay(l, b).value;
    var any := Fact("", None, "");
    forall id: string
      ensures id in p.sources <==> id in q.sources
      ensures id in p.sources ==> SameView(p.sources[id], q.sources[id])
    {
      ReplayStands(l, a, id, any);
      ReplayStands(l, b, id, any);
      if id in p.sources && id in q.sources {
        SameSnapsSameView(p.sources[id], q.sources[id], Delivered(l, a, id));
      }
    }
    forall fact: Fact ensures Holds(p.facts, fact) <==> Holds(q.facts, fact) {
      ReplayStands(l, a, "", fact);
      ReplayStands(l, b, "", fact);
    }
    ReplayKeyed(l, a);
    ReplayKeyed(l, b);
    SameFacts(p.facts, q.facts);
  }

  /** A run that only ever had one snapshot is listed as that snapshot. */
  lemma SoleSnapshotStands(l: Ledger, calls: seq<Call>, id: string, x: Row)
    requires Replay(l, calls).Ok? && Delivered(l, calls, id) == {x}
    ensures id in Replay(l, calls).value.sources && Replay(l, calls).value.sources[id] == x
  {
    ReplayStands(l, calls, id, Fact("", None, ""));
    assert x in {Replay(l, calls).value.sources[id]};
  }

  /** Two different snapshots of one run always end as an alert with unknown counts, as of the later of them. */
  lemma ContradictionStaysVisible(l: Ledger, calls: seq<Call>, id: string, x: Row, y: Row)
    requires Replay(l, calls).Ok?
    requires x in Delivered(l, calls, id) && y in Delivered(l, calls, id) && x != y
    ensures var n := Replay(l, calls).value;
      && id in n.sources
      && n.sources[id].status == "alert" && n.sources[id].reasonCode == Some("candidate_source_conflict")
      && n.sources[id].orderCount == None && n.sources[id].fillCount == None && n.sources[id].cycleCount == 1
      && n.sources[id].fieldStatus == map["order_count" := "unknown", "fill_count" := "unknown"]
      && Le(x.asOf, n.sources[id].asOf) && Le(y.asOf, n.sources[id].asOf)
  {
    ReplayStands(l, calls, id, Fact("", None, ""));
  }

  // ----- nothing is taken back -----

  /** A row stays as it is, or becomes a contradicted one; the alert of a row never clears. */
  predicate Follows(before: Row, after: Row) {
    && (after == before || Contradicted(after))
    && (before.status == ALERT ==> after.status == ALERT)
    && (Contradicted(before) ==> Contradicted(after))
    && Le(before.asOf, after.asOf)
  }

  ghost predicate SourcesFollow(before: map<string, Row>, after: map<string, Row>) {
    forall id | id in before :: id in after && Follows(before[id], after[id])
  }

  ghost predicate Succeeds(before: Ledger, after: Ledger) {
    && SourcesFollow(before.sources, after.sources)
    && forall key | key in before.facts :: key in after.facts && after.facts[key] == before.facts[key]
  }

  lemma SameFollows(row: Row)
    ensures Follows(row, row)
  {
    LeReflexive(row.asOf);
  }

  lemma SourcesFollowRefl(sources: map<string, Row>)
    ensures SourcesFollow(sources, sources)
  {
    forall id | id in sources ensures Follows(sources[id], sources[id]) {
      SameFollows(sources[id]);
    }
  }

  lemma FollowsTransitive(a: Row, b: Row, c: Row)
    requires Follows(a, b) && Follows(b, c)
    ensures Follows(a, c)
  {
    LeTransitive(a.asOf, b.asOf, c.asOf);
  }

  lemma SucceedsTransitive(a: Ledger, b: Ledger, c: Ledger)
    requires Succeeds(a, b) && Succeeds(b, c)
    ensures Succeeds(a, c)
  {
    hide Follows;
    forall id | id in a.sources ensures id in c.sources && Follows(a.sources[id], c.sources[id]) {
      FollowsTransitive(a.sources[id], b.sources[id], c.sources[id]);
    }
  }

  lemma AbsorbOneFollows(sources: map<string, Row>, x: Snapshot)
    requires AbsorbOne(sources, x).Ok?
    ensures SourcesFollow(sources, AbsorbOne(sources, x).value)
    ensures x.runId in AbsorbOne(sources, x).value
  {
    forall id | id in sources ensures Follows(sources[id], AbsorbOne(sources, x).value[id]) {
      SameFollows(sources[id]);
      if id == x.runId && sources[id] != x.row {
        AggregateKeeps(sources[id], x.row);
        LeTotal(sources[id].asOf, x.row.asOf);
        LeReflexive(sources[id].asOf);
      }
    }
  }

  lemma {:induction false} AbsorbFollows(sources: map<string, Row>, rows: seq<Snapshot>)
    requires Absorb(sources, rows).Ok?
    ensures SourcesFollow(sources, Absorb(sources, rows).value)
    ensures forall x | x in rows :: x.runId in Absorb(sources, rows).value
  {
    if rows == [] {
      SourcesFollowRefl(sources);
    } else {
      var init, last := rows[..|rows| - 1], rows[|rows| - 1];
      assert rows == init + [last];
      AbsorbFollows(sources, init);
      var middle := Absorb(sources, init).value;
      AbsorbOneFollows(middle, last);
      SucceedsTransitive(Ledger(sources, map[]), Ledger(middle, map[]), Ledger(Absorb(sources, rows).value, map[]));
    }
  }

  lemma {:induction false} RecordGrows(facts: map<string, Fact>, events: seq<Fact>)
    requires Record(facts, events).Ok?
    ensures forall key | key in facts :: key in Record(facts, events).value && Record(facts, events).value[key] == facts[key]
  {
    if events != [] {
      RecordGrows(facts, events[..|events| - 1]);
    }
  }

  /** One merge: nothing goes, and what it brings is there. */
  lemma MergeSucceeds(l: Ledger, call: Call)
    requires MergeLedger(l, call).Ok?
    ensures Succeeds(l, MergeLedger(l, call).value)
    ensures forall x | x in call.rows :: x.runId in MergeLedger(l, call).value.sources
    ensures forall fact | fact in call.events :: Holds(MergeLedger(l, call).value.facts, fact)
  {
    MergeSplits(l, call);
    AbsorbFollows(l.sources, call.rows);
    RecordGrows(l.facts, call.events);
    forall fact | fact in call.events ensures Holds(MergeLedger(l, call).value.facts, fact) {
      RecordExactly(l.facts, call.events, fact);
    }
  }

  // ----- the execution status -----

  const EXECUTION_UNKNOWN := "execution_unknown"

  predicate AnyAlert(snaps: set<Row>) {
    exists x | x in snaps :: x.status == ALERT
  }

  predicate NoneContradicted(snaps: set<Row>) {
    forall x | x in snaps :: !Contradicted(x)
  }

  /** Two snapshots without an alert: the one case in which a first conflict looks different from a second. */
  predicate PlainPair(snaps: set<Row>) {
    |snaps| == 2 && !AnyAlert(snaps)
  }

  /** What a run did by two snapshots without an alert: orders went out if both are counted and the sum is not zero. */
  predicate StatusOfPair(status: string, x: Row, y: Row) {
    if x.identity.dryRun == Some(true) then status == "dry_run"
    else if x.orderCount.Some? && y.orderCount.Some? && x.orderCount.value + y.orderCount.value != 0 then status == "executed"
    else status == "no_action"
  }

  /** Where more was delivered than a plain pair, the status is settled as unknown; a plain pair is unknown or read. */
  predicate StatusStands(row: Row, snaps: set<Row>) {
    && Represents(row, snaps)
    && (|snaps| >= 2 && !PlainPair(snaps) ==> row.executionStatus == EXECUTION_UNKNOWN)
    && (PlainPair(snaps) && row.executionStatus != EXECUTION_UNKNOWN ==> PairRead(row.executionStatus, snaps))
  }

  predicate PairRead(status: string, snaps: set<Row>) {
    forall x, y | x in snaps && y in snaps && x != y :: StatusOfPair(status, x, y)
  }

  predicate StatusIn(sources: map<string, Row>, id: string, snaps: set<Row>) {
    if id in sources then StatusStands(sources[id], snaps) else snaps == {}
  }

  lemma AloneStands(row: Row)
    ensures StatusStands(row, {row})
  {
    Alone(row);
  }

  lemma StatusOfConflict(held: Row, row: Row)
    requires Aggregate(held, row).Ok?
    ensures var r := Conflicted(Aggregate(held, row).value);
      if held.status == ALERT || row.status == ALERT then r.executionStatus == EXECUTION_UNKNOWN
      else r.executionStatus != EXECUTION_UNKNOWN && StatusOfPair(r.executionStatus, held, row)
           && StatusOfPair(r.executionStatus, row, held)
  {
  }

  lemma ConflictStands(held: Row, snaps: set<Row>, row: Row)
    requires StatusStands(held, snaps) && held != row && held.observations == row.observations
    requires Aggregate(held, row).Ok?
    ensures StatusStands(Conflicted(Aggregate(held, row).value), snaps + {row})
  {
    ConflictRepresents(held, snaps, row);
    StatusOfConflict(held, row);
    var more := snaps + {row};
    if snaps == {held} {
      assert held in more && row in more;
      assert more == {held, row} && |more| == 2;
      assert !AnyAlert(more) ==> held.status != ALERT && row.status != ALERT;
    } else {
      assert held.status == ALERT;
    }
    hide Represents, Aggregate, Conflicted, StatusOfPair;
  }

  lemma AbsorbOneStatus(sources: map<string, Row>, x: Snapshot, id: string, snaps: set<Row>)
    requires StatusIn(sources, id, snaps) && AbsorbOne(sources, x).Ok?
    requires x.runId == id ==> !Contradicted(x.row)
    ensures StatusIn(AbsorbOne(sources, x).value, id, snaps + SnapsOf([x], id))
  {
    assert SnapsOf([x], id) == if x.runId == id then {x.row} else {};
    AbsorbOneAt(sources, x, id);
    hide AbsorbOne, SnapsOf, StatusStands, Contradicted, Aggregate, Conflicted;
    assert snaps + {} == snaps;
    if x.runId == id {
      if id !in sources {
        AloneStands(x.row);
        assert snaps + {x.row} == {x.row};
      } else if sources[id] == x.row {
        OnlyRepeats(x.row, snaps);
      } else {
        ConflictStands(sources[id], snaps, x.row);
      }
    }
  }

  /** What absorbing a snapshot does to the row of one run. */
  lemma AbsorbOneAt(sources: map<string, Row>, x: Snapshot, id: string)
    requires AbsorbOne(sources, x).Ok?
    ensures var after := AbsorbOne(sources, x).value;
      if x.runId != id then (id in after <==> id in sources) && (id in sources ==> after[id] == sources[id])
      else if id !in sources || sources[id] == x.row then id in after && after[id] == x.row
      else
        && id in after && sources[id].observations == x.row.observations
        && Aggregate(sources[id], x.row).Ok? && after[id] == Conflicted(Aggregate(sources[id], x.row).value)
  {
    hide Aggregate, Conflicted;
  }

  lemma OnlyRepeats(row: Row, snaps: set<Row>)
    requires StatusStands(row, snaps) && !Contradicted(row)
    ensures StatusStands(row, snaps + {row})
  {
    assert snaps == {row};
    assert snaps + {row} == snaps;
  }

  lemma {:induction false} AbsorbStatus(sources: map<string, Row>, rows: seq<Snapshot>, id: string, snaps: set<Row>)
    requires StatusIn(sources, id, snaps) && Absorb(sources, rows).Ok?
    requires forall x | x in rows && x.runId == id :: !Contradicted(x.row)
    ensures StatusIn(Absorb(sources, rows).value, id, snaps + SnapsOf(rows, id))
  {
    hide AbsorbOne, StatusIn, Contradicted;
    if rows == [] {
      assert snaps + SnapsOf(rows, id) == snaps;
    } else {
      var init, last := rows[..|rows| - 1], rows[|rows| - 1];
      assert rows == init + [last];
      AbsorbStatus(sources, init, id, snaps);
      SnapsGrow(init, last, id, snaps);
      hide SnapsOf;
      AbsorbOneStatus(Absorb(sources, init).value, last, id, snaps + SnapsOf(init, id));
    }
  }

  lemma {:induction false} ReplayStatus(l: Ledger, calls: seq<Call>, id: string)
    requires Replay(l, calls).Ok? && NoneContradicted(Delivered(l, calls, id))
    ensures StatusIn(Replay(l, calls).value.sources, id, Delivered(l, calls, id))
  {
    hide MergeLedger, StatusIn, Contradicted;
    if calls == [] {
      StatusAtStart(l, id);
    } else {
      var init, last := calls[..|calls| - 1], calls[|calls| - 1];
      assert forall x | x in Delivered(l, init, id) :: x in Delivered(l, calls, id);
      assert forall x | x in last.rows && x.runId == id :: x.row in SnapsOf(last.rows, id) && x.row in Delivered(l, calls, id);
      ReplayStatus(l, init, id);
      var before := Replay(l, init).value;
      MergeSplits(before, last);
      AbsorbStatus(before.sources, last.rows, id, Delivered(l, init, id));
    }
  }

  lemma StatusAtStart(l: Ledger, id: string)
    ensures StatusIn(l.sources, id, SnapsHeld(l, id))
  {
    if id in l.sources {
      AloneStands(l.sources[id]);
    }
  }

  /** Every successful history that delivers exactly these snapshots of the run ends with the same status. */
  ghost predicate StatusSettled(id: string, snaps: set<Row>) {
    forall l: Ledger, m: Ledger, a: seq<Call>, b: seq<Call> |
      && Replay(l, a).Ok? && Replay(m, b).Ok?
      && Delivered(l, a, id) == snaps && Delivered(m, b, id) == snaps
      && id in Replay(l, a).value.sources && id in Replay(m, b).value.sources ::
      Replay(l, a).value.sources[id].executionStatus == Replay(m, b).value.sources[id].executionStatus
  }

  lemma SettledUnlessPlainPair(id: string, snaps: set<Row>)
    requires NoneContradicted(snaps) && !PlainPair(snaps)
    ensures StatusSettled(id, snaps)
  {
    hide Replay, Delivered, Contradicted;
    forall l: Ledger, m: Ledger, a: seq<Call>, b: seq<Call> |
      && Replay(l, a).Ok? && Replay(m, b).Ok?
      && Delivered(l, a, id) == snaps && Delivered(m, b, id) == snaps
      && id in Replay(l, a).value.sources && id in Replay(m, b).value.sources
      ensures Replay(l, a).value.sources[id].executionStatus == Replay(m, b).value.sources[id].executionStatus
    {
      ReplayStatus(l, a, id);
      ReplayStatus(m, b, id);
      SameStatus(Replay(l, a).value.sources[id], Replay(m, b).value.sources[id], snaps);
    }
  }

  /** Two snapshots without an alert, however often delivered: the status is unknown, or what the two say. */
  lemma PlainPairStatus(l: Ledger, calls: seq<Call>, id: string, x: Row, y: Row)
    requires Replay(l, calls).Ok? && Delivered(l, calls, id) == {x, y} && x != y
    requires x.status != ALERT && y.status != ALERT && !Contradicted(x) && !Contradicted(y)
    ensures var n := Replay(l, calls).value;
      && id in n.sources
      && (n.sources[id].executionStatus == EXECUTION_UNKNOWN || StatusOfPair(n.sources[id].executionStatus, x, y))
  {
    ReplayStatus(l, calls, id);
    hide Replay, Delivered, Contradicted, StatusOfPair, Represents;
    assert |{x, y}| == 2;
    assert x in {x, y} && y in {x, y};
  }

  lemma SameStatus(p: Row, q: Row, snaps: set<Row>)
    requires StatusStands(p, snaps) && StatusStands(q, snaps) && !PlainPair(snaps)
    ensures p.executionStatus == q.executionStatus
  {
    if snaps == {p} || snaps == {q} {
      assert |snaps| == 1;
      assert p in snaps ==> snaps == {p};
    } else {
      TwoAtLeast(snaps);
    }
  }

  lemma TwoAtLeast(snaps: set<Row>)
    requires Differ(snaps)
    ensures |snaps| >= 2
  {
    var x, y :| x in snaps && y in snaps && x != y;
    assert {x, y} <= snaps;
    assert snaps == {x, y} + (snaps - {x, y});
  }

  // ----- a plain pair, delivered once and once more -----

  function Brings(id: string, row: Row): Call {
    Call([Snapshot(id, row)], [], None, false)
  }

  const NO_LEDGER := Ledger(map[], map[])

  lemma FirstBrought(id: string, x: Row)
    ensures MergeLedger(NO_LEDGER, Brings(id, x)) == Ok(Ledger(map[id := x], map[]))
  {
    var rows := [Snapshot(id, x)];
    assert rows[..0] == [];
    assert Absorb(map[], rows[..0]) == Ok(map[]);
  }

  lemma NextBrought(id: string, held: Row, x: Row)
    requires held != x && held.identity == x.identity && held.observations == x.observations
    ensures Aggregate(held, x).Ok?
    ensures MergeLedger(Ledger(map[id := held], map[]), Brings(id, x))
         == Ok(Ledger(map[id := Conflicted(Aggregate(held, x).value)], map[]))
  {
    AggregateKeeps(held, x);
    hide Aggregate, Conflicted, Absorb, MergeLedger, Brings;
    var sum := Conflicted(Aggregate(held, x).value);
    AbsorbsOne(map[id := held], Snapshot(id, x));
    assert map[id := held][id := sum] == map[id := sum];
    MergesOne(id, map[id := held], x, sum);
  }

  lemma MergesOne(id: string, sources: map<string, Row>, x: Row, sum: Row)
    requires Absorb(sources, [Snapshot(id, x)]) == Ok(map[id := sum])
    ensures MergeLedger(Ledger(sources, map[]), Brings(id, x)) == Ok(Ledger(map[id := sum], map[]))
  {
    hide Absorb;
  }

  lemma AbsorbsOne(sources: map<string, Row>, x: Snapshot)
    ensures Absorb(sources, [x]) == AbsorbOne(sources, x)
  {
    hide AbsorbOne;
    assert [x][..0] == [];
    assert Absorb(sources, []) == Ok(sources);
  }

  lemma ReplayNext(calls: seq<Call>, last: Call, before: Ledger)
    requires Replay(NO_LEDGER, calls) == Ok(before)
    ensures Replay(NO_LEDGER, calls + [last]) == MergeLedger(before, last)
  {
    assert (calls + [last])[..|calls|] == calls;
  }

  lemma DeliveredNext(id: string, calls: seq<Call>, x: Row)
    ensures Delivered(NO_LEDGER, calls + [Brings(id, x)], id) == Delivered(NO_LEDGER, calls, id) + {x}
  {
    assert (calls + [Brings(id, x)])[..|calls|] == calls;
    assert SnapsOf([Snapshot(id, x)], id) == {x};
  }

  /** The second delivery of y meets the alert that the first one left, and the status changes. */
  lemma RepeatChanges(id: string, x: Row, y: Row)
    requires x != y && x.identity == y.identity && x.observations == y.observations
    requires x.status != ALERT && y.status != ALERT && !Contradicted(y)
    ensures !StatusSettled(id, {x, y})
    ensures Replay(NO_LEDGER, Once(id, x, y)).Ok? && id in Replay(NO_LEDGER, Once(id, x, y)).value.sources
    ensures StatusOfPair(Replay(NO_LEDGER, Once(id, x, y)).value.sources[id].executionStatus, x, y)
  {
    AggregateKeeps(x, y);
    var once := Conflicted(Aggregate(x, y).value);
    assert Contradicted(once) && once.status == ALERT && once.identity == y.identity && once.observations == y.observations;
    StatusOfConflict(x, y);
    AggregateKeeps(once, y);
    StatusOfConflict(once, y);
    PairReplayed(id, x, y, once);
    var again := Conflicted(Aggregate(once, y).value);
    assert once.executionStatus != again.executionStatus;
    PairDelivered(id, x, y);
    hide Replay, Delivered, Aggregate, Conflicted, Contradicted;
    assert once.executionStatus != EXECUTION_UNKNOWN && StatusOfPair(once.executionStatus, x, y);
    assert Replay(NO_LEDGER, Once(id, x, y)).value.sources[id] == once;
    assert Replay(NO_LEDGER, Twice(id, x, y)).value.sources[id] == again;
  }

  function Once(id: string, x: Row, y: Row): seq<Call> {
    [Brings(id, x)] + [Brings(id, y)]
  }

  function Twice(id: string, x: Row, y: Row): seq<Call> {
    Once(id, x, y) + [Brings(id, y)]
  }

  lemma PairReplayed(id: string, x: Row, y: Row, once: Row)
    requires x != y && x.identity == y.identity && x.observations == y.observations && Aggregate(x, y).Ok?
    requires once == Conflicted(Aggregate(x, y).value) && once != y
    requires once.identity == y.identity && once.observations == y.observations
    ensures Aggregate(once, y).Ok?
    ensures Replay(NO_LEDGER, Once(id, x, y)) == Ok(Ledger(map[id := once], map[]))
    ensures Replay(NO_LEDGER, Twice(id, x, y)) == Ok(Ledger(map[id := Conflicted(Aggregate(once, y).value)], map[]))
  {
    assert Replay(NO_LEDGER, []) == Ok(NO_LEDGER);
    hide *;
    FirstBrought(id, x);
    NextBrought(id, x, y);
    NextBrought(id, once, y);
    ReplayNext([], Brings(id, x), NO_LEDGER);
    assert [] + [Brings(id, x)] == [Brings(id, x)];
    ReplayNext([Brings(id, x)], Brings(id, y), Ledger(map[id := x], map[]));
    OnceTwice(id, x, y);
    ReplayNext(Once(id, x, y), Brings(id, y), Ledger(map[id := once], map[]));
  }

  lemma OnceTwice(id: string, x: Row, y: Row)
    ensures Once(id, x, y) == [Brings(id, x)] + [Brings(id, y)]
    ensures Twice(id, x, y) == Once(id, x, y) + [Brings(id, y)]
  {
  }

  lemma PairDelivered(id: string, x: Row, y: Row)
    ensures Delivered(NO_LEDGER, Once(id, x, y), id) == {x, y}
    ensures Delivered(NO_LEDGER, Twice(id, x, y), id) == {x, y}
  {
    assert Delivered(NO_LEDGER, [], id) == {};
    hide *;
    OnceTwice(id, x, y);
    DeliveredNext(id, [], x);
    assert [] + [Brings(id, x)] == [Brings(id, x)];
    DeliveredNext(id, [Brings(id, x)], y);
    DeliveredNext(id, Once(id, x, y), y);
    assert {x, y} + {y} == {x, y};
  }

  /**
   * The execution status, exactly. For snapshots that can belong to one run, none of them contradicted already,
   * it does not depend on the order or repetition of their delivery if and only if they are not exactly two
   * without an alert.
   */
  lemma ExecutionStatusExactly(id: string, snaps: set<Row>)
    requires NoneContradicted(snaps)
    requires forall x, y | x in snaps && y in snaps :: x.identity == y.identity && x.observations == y.observations
    ensures StatusSettled(id, snaps) <==> !PlainPair(snaps)
  {
    if PlainPair(snaps) {
      var x :| x in snaps;
      assert |snaps - {x}| == 1;
      var y :| y in snaps - {x};
      TwoOf(snaps, x, y);
      RepeatChanges(id, x, y);
    } else {
      SettledUnlessPlainPair(id, snaps);
    }
  }

  lemma TwoOf(snaps: set<Row>, x: Row, y: Row)
    requires |snaps| == 2 && x in snaps && y in snaps && x != y
    ensures snaps == {x, y}
  {
    var rest := snaps - {x, y};
    assert snaps == {x, y} + rest;
    assert |rest| == 0;
  }
}
