/**
 * The ledger of notification candidates. Its whole merge history lives inside the public `runs` list: a merge
 * reads the list back into source rows and events, absorbs new snapshots, and prints the list again.
 */
module CandidateLedger {
  import opened Wrappers
  import opened Ordering
  import opened Text

  datatype Identity = Identity(platform: string, profile: string, account: string, target: string, day: string,
                               dryRun: Option<bool>)

  /** One snapshot of one run. `extra` stands for the fields the merge only copies. */
  datatype Row = Row(
    identity: Identity,
    actuallyRan: bool,
    status: string,
    executionStatus: string,
    reasonCode: Option<string>,
    orderCount: Option<int>,
    fillCount: Option<int>,
    cycleCount: int,
    asOf: string,
    fieldStatus: map<string, string>,
    observations: Option<map<string, int>>,
    extra: map<string, string>)

  datatype Fact = Fact(key: string, sourceRun: Option<string>, body: string)

  /** A row as published: with its run id, if it has one, and the events of that run. */
  datatype Published = Published(row: Row, sourceRunId: Option<string>, events: seq<Fact>)

  /** The stored object; the two legacy fields come from the former private ledger. */
  datatype Payload = Payload(legacySources: Option<map<string, Row>>, legacyEvents: map<string, Fact>, runs: seq<Published>)

  datatype Ledger = Ledger(sources: map<string, Row>, facts: map<string, Fact>)

  datatype LedgerError =
    | LegacyNeedsArchive | ObservationsConflict | IdentityConflict | EventConflict | EventSourceMissing
    | CandidateReadFailed | CandidateWriteFailed | ConcurrentUpdate

  datatype Snapshot = Snapshot(runId: string, row: Row)

  datatype Call = Call(rows: seq<Snapshot>, events: seq<Fact>, idle: Option<Published>, archive: bool)

  // ----- reading -----

  predicate Usable(id: Option<string>) {
    id.Some? && !Blank(id.value)
  }

  /** Later events replace earlier ones under the same key. */
  function AddEvents(facts: map<string, Fact>, events: seq<Fact>): map<string, Fact> {
    if events == [] then facts
    else
      var last := events[|events| - 1];
      AddEvents(facts, events[..|events| - 1])[last.key := last]
  }

  function DecodeOne(l: Ledger, p: Published, archive: bool): Result<Ledger, LedgerError> {
    if !p.row.actuallyRan then Ok(l)
    else if !Usable(p.sourceRunId) then (if archive then Ok(l) else Err(LegacyNeedsArchive))
    else Ok(Ledger(l.sources[p.sourceRunId.value := p.row], AddEvents(l.facts, p.events)))
  }

  function DecodeRuns(l: Ledger, runs: seq<Published>, archive: bool): Result<Ledger, LedgerError> {
    if runs == [] then Ok(l)
    else
      var before :- DecodeRuns(l, runs[..|runs| - 1], archive);
      DecodeOne(before, runs[|runs| - 1], archive)
  }

  const COUNTS_UNKNOWN := "counts_unknown"
  const UNKNOWN := "unknown"
  const KNOWN := "known"

  function NormalCount(status: string): string {
    if status == COUNTS_UNKNOWN then UNKNOWN else status
  }

  function NormalStatus(fields: map<string, string>): map<string, string> {
    map key | key in fields :: NormalCount(fields[key])
  }

  function NormalRow(row: Row): Row {
    row.(fieldStatus := NormalStatus(row.fieldStatus))
  }

  function NormalSources(sources: map<string, Row>): map<string, Row> {
    map id | id in sources :: NormalRow(sources[id])
  }

  /** What the two legacy fields hold. */
  function Carried(previous: Option<Payload>): Ledger {
    match previous
    case None => Ledger(map[], map[])
    case Some(p) => Ledger(if p.legacySources.Some? then p.legacySources.value else map[], p.legacyEvents)
  }

  function Decode(previous: Option<Payload>, archive: bool): Result<Ledger, LedgerError> {
    var l :- if previous.Some? && previous.value.legacySources.None?
             then DecodeRuns(Carried(previous), previous.value.runs, archive)
             else Ok(Carried(previous));
    Ok(Ledger(NormalSources(l.sources), l.facts))
  }

  // ----- merging -----

  const ALERT := "alert"
  const SOURCE_CONFLICT := "candidate_source_conflict"
  const UNKNOWN_COUNTS := map["order_count" := UNKNOWN, "fill_count" := UNKNOWN]

  function AddCounts(a: Option<int>, b: Option<int>): Option<int> {
    if a.Some? && b.Some? then Some(a.value + b.value) else None
  }

  function CountField(count: Option<int>): string {
    if count.Some? then KNOWN else UNKNOWN
  }

  /** Two rows of one target and day as one; the merge never calls this on more than two. */
  function Aggregate(held: Row, row: Row): Result<Row, LedgerError> {
    if row.identity != held.identity then Err(IdentityConflict)
    else
      var orders, fills := AddCounts(held.orderCount, row.orderCount), AddCounts(held.fillCount, row.fillCount);
      var sum := held.(cycleCount := held.cycleCount + row.cycleCount,
                      asOf := Latest(held.asOf, row.asOf),
                      orderCount := orders,
                      fillCount := fills,
                      fieldStatus := map["order_count" := CountField(orders), "fill_count" := CountField(fills)]);
      Ok(if held.status == ALERT || row.status == ALERT then
           sum.(status := ALERT, executionStatus := "execution_unknown", reasonCode := Some("source_cycle_alert"))
         else if held.identity.dryRun == Some(true) then sum.(executionStatus := "dry_run")
         else sum.(executionStatus := if orders.Some? && orders.value != 0 then "executed" else "no_action"))
  }

  /** A second, different snapshot of a run: keep the alert, and count nothing. */
  function Conflicted(row: Row): Row {
    row.(cycleCount := 1, status := ALERT, reasonCode := Some(SOURCE_CONFLICT),
         orderCount := None, fillCount := None, fieldStatus := UNKNOWN_COUNTS)
  }

  function AbsorbOne(sources: map<string, Row>, x: Snapshot): Result<map<string, Row>, LedgerError> {
    if x.runId in sources && sources[x.runId] != x.row then
      var held := sources[x.runId];
      if held.observations != x.row.observations then Err(ObservationsConflict)
      else
        var sum :- Aggregate(held, x.row);
        Ok(sources[x.runId := Conflicted(sum)])
    else Ok(sources[x.runId := x.row])
  }

  function Absorb(sources: map<string, Row>, rows: seq<Snapshot>): Result<map<string, Row>, LedgerError> {
    if rows == [] then Ok(sources)
    else
      var before :- Absorb(sources, rows[..|rows| - 1]);
      AbsorbOne(before, rows[|rows| - 1])
  }

  function RecordOne(facts: map<string, Fact>, fact: Fact): Result<map<string, Fact>, LedgerError> {
    if fact.key in facts && facts[fact.key] != fact then Err(EventConflict) else Ok(facts[fact.key := fact])
  }

  function Record(facts: map<string, Fact>, events: seq<Fact>): Result<map<string, Fact>, LedgerError> {
    if events == [] then Ok(facts)
    else
      var before :- Record(facts, events[..|events| - 1]);
      RecordOne(before, events[|events| - 1])
  }

  predicate OneIdentity(sources: map<string, Row>) {
    forall a, b | a in sources && b in sources :: sources[a].identity == sources[b].identity
  }

  predicate Sourced(sources: map<string, Row>, fact: Fact) {
    fact.sourceRun.Some? && fact.sourceRun.value in sources
  }

  predicate AllSourced(l: Ledger) {
    forall key | key in l.facts :: Sourced(l.sources, l.facts[key])
  }

  function MergeLedger(l: Ledger, call: Call): Result<Ledger, LedgerError> {
    var sources :- Absorb(l.sources, call.rows);
    var facts :- Record(l.facts, call.events);
    if !OneIdentity(sources) then Err(IdentityConflict)
    else if !AllSourced(Ledger(sources, facts)) then Err(EventSourceMissing)
    else Ok(Ledger(sources, facts))
  }

  // ----- writing -----

  /** The events of one run, in the order of `keys`. */
  function EventsOf(facts: map<string, Fact>, keys: seq<string>, id: string): seq<Fact>
    requires forall key | key in keys :: key in facts
  {
    if keys == [] then []
    else
      var last := keys[|keys| - 1];
      var before := EventsOf(facts, keys[..|keys| - 1], id);
      if facts[last].sourceRun == Some(id) then before + [facts[last]] else before
  }

  function PublishedRow(l: Ledger, id: string): Published
    requires id in l.sources
  {
    Published(l.sources[id], Some(id), EventsOf(l.facts, Sorted(l.facts.Keys), id))
  }

  function PublishedRows(l: Ledger, ids: seq<string>): seq<Published>
    requires forall id | id in ids :: id in l.sources
  {
    seq(|ids|, i requires 0 <= i < |ids| => PublishedRow(l, ids[i]))
  }

  function Publish(l: Ledger, idle: Option<Published>): Payload {
    Payload(None, map[],
            if l.sources != map[] then PublishedRows(l, Sorted(l.sources.Keys))
            else if idle.Some? then [idle.value] else [])
  }

  /** One attempt: what a merge would write over `previous`. */
  function MergeOnce(previous: Option<Payload>, call: Call): Result<Payload, LedgerError> {
    var l :- Decode(previous, call.archive);
    var merged :- MergeLedger(l, call);
    Ok(Publish(merged, call.idle))
  }

  // ----- the loops of the merge -----

  method DecodePayload(previous: Option<Payload>, archive: bool) returns (r: Result<Ledger, LedgerError>)
    ensures r == Decode(previous, archive)
  {
    var l := Carried(previous);
    if previous.Some? && previous.value.legacySources.None? {
      var runs := previous.value.runs;
      for i := 0 to |runs|
        invariant DecodeRuns(Carried(previous), runs[..i], archive) == Ok(l)
      {
        assert runs[..i + 1][..i] == runs[..i];
        var p := runs[i];
        ghost var before := l;
        if p.row.actuallyRan {
          if !Usable(p.sourceRunId) {
            if !archive {
              DecodeFails(Carried(previous), runs, i + 1, archive);
              return Err(LegacyNeedsArchive);
            }
          } else {
            var facts := l.facts;
            for j := 0 to |p.events|
              invariant facts == AddEvents(before.facts, p.events[..j])
            {
              assert p.events[..j + 1][..j] == p.events[..j];
              facts := facts[p.events[j].key := p.events[j]];
            }
            assert p.events[..|p.events|] == p.events;
            l := Ledger(l.sources[p.sourceRunId.value := p.row], facts);
          }
        }
      }
      assert runs[..|runs|] == runs;
    }
    r := Ok(Ledger(NormalSources(l.sources), l.facts));
  }

  lemma {:induction false} DecodeFails(l: Ledger, runs: seq<Published>, i: nat, archive: bool)
    requires i <= |runs| && DecodeRuns(l, runs[..i], archive).Err?
    ensures DecodeRuns(l, runs, archive) == DecodeRuns(l, runs[..i], archive)
  {
    if i == |runs| {
      assert runs[..i] == runs;
    } else {
      assert runs[..|runs| - 1][..i] == runs[..i];
      DecodeFails(l, runs[..|runs| - 1], i, archive);
    }
  }

  method AbsorbRows(sources: map<string, Row>, rows: seq<Snapshot>) returns (r: Result<map<string, Row>, LedgerError>)
    ensures r == Absorb(sources, rows)
  {
    var now := sources;
    for i := 0 to |rows|
      invariant Absorb(sources, rows[..i]) == Ok(now)
    {
      assert rows[..i + 1][..i] == rows[..i];
      var id, row := rows[i].runId, rows[i].row;
      if id in now && now[id] != row {
        if now[id].observations != row.observations {
          AbsorbFails(sources, rows, i + 1);
          return Err(ObservationsConflict);
        }
        var sum := Aggregate(now[id], row);
        if sum.Err? {
          AbsorbFails(sources, rows, i + 1);
          return Err(sum.error);
        }
        row := Conflicted(sum.value);
      }
      now := now[id := row];
    }
    assert rows[..|rows|] == rows;
    r := Ok(now);
  }

  lemma {:induction false} AbsorbFails(sources: map<string, Row>, rows: seq<Snapshot>, i: nat)
    requires i <= |rows| && Absorb(sources, rows[..i]).Err?
    ensures Absorb(sources, rows) == Absorb(sources, rows[..i])
  {
    if i == |rows| {
      assert rows[..i] == rows;
    } else {
      assert rows[..|rows| - 1][..i] == rows[..i];
      AbsorbFails(sources, rows[..|rows| - 1], i);
    }
  }

  method RecordEvents(facts: map<string, Fact>, events: seq<Fact>) returns (r: Result<map<string, Fact>, LedgerError>)
    ensures r == Record(facts, events)
  {
    var now := facts;
    for i := 0 to |events|
      invariant Record(facts, events[..i]) == Ok(now)
    {
      assert events[..i + 1][..i] == events[..i];
      var fact := events[i];
      if fact.key in now && now[fact.key] != fact {
        RecordFails(facts, events, i + 1);
        return Err(EventConflict);
      }
      now := now[fact.key := fact];
    }
    assert events[..|events|] == events;
    r := Ok(now);
  }

  lemma {:induction false} RecordFails(facts: map<string, Fact>, events: seq<Fact>, i: nat)
    requires i <= |events| && Record(facts, events[..i]).Err?
    ensures Record(facts, events) == Record(facts, events[..i])
  {
    if i == |events| {
      assert events[..i] == events;
    } else {
      assert events[..|events| - 1][..i] == events[..i];
      RecordFails(facts, events[..|events| - 1], i);
    }
  }

  method MergePayload(previous: Option<Payload>, call: Call) returns (r: Result<Payload, LedgerError>)
    ensures r == MergeOnce(previous, call)
    ensures r.Ok? ==> forall p, q | p in r.value.runs && q in r.value.runs :: p.row.identity == q.row.identity
  {
    hide Decode, Absorb, Record, Publish;
    var l :- DecodePayload(previous, call.archive);
    var sources :- AbsorbRows(l.sources, call.rows);
    var facts :- RecordEvents(l.facts, call.events);
    var merged := Ledger(sources, facts);
    if !OneIdentity(sources) {
      return Err(IdentityConflict);
    }
    if !AllSourced(merged) {
      return Err(EventSourceMissing);
    }
    r := Ok(Publish(merged, call.idle));
    PublishedAlike(merged, call.idle);
  }

  lemma PublishedAlike(l: Ledger, idle: Option<Published>)
    requires OneIdentity(l.sources)
    ensures forall p, q | p in Publish(l, idle).runs && q in Publish(l, idle).runs :: p.row.identity == q.row.identity
  {
    if l.sources != map[] {
      var ids := Sorted(l.sources.Keys);
      assert forall id | id in ids :: id in l.sources;
      forall p | p in Publish(l, idle).runs
        ensures exists id | id in l.sources :: p.row == l.sources[id]
      {
        var k :| 0 <= k < |ids| && PublishedRows(l, ids)[k] == p;
        assert ids[k] in ids;
      }
      hide EventsOf;
    }
  }
}
