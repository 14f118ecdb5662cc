/** Reading back what a merge wrote: exactly when the published list holds the ledger it was printed from. */
module LedgerRoundTrip {
  import opened Wrappers
  import opened Ordering
  import opened Text
  import opened CandidateLedger

  /** A row that the reader keeps under this id, unchanged. */
  predicate Keepable(id: string, row: Row) {
    !Blank(id) && row.actuallyRan && NormalStatus(row.fieldStatus) == row.fieldStatus
  }

  predicate Storable(l: Ledger) {
    && (forall id | id in l.sources :: Keepable(id, l.sources[id]))
    && (forall key | key in l.facts :: l.facts[key].key == key)
  }

  /** The placeholder is only read back as nothing if it does not claim to have run. */
  predicate Placeholder(idle: Option<Published>) {
    idle.Some? ==> !idle.value.row.actuallyRan
  }

  // ----- the former ledger -----

  /** Counts that an older writer called unknown under another name are read as unknown; nothing else changes. */
  lemma LegacyRead(previous: Option<Payload>, archive: bool)
    requires previous.Some? && previous.value.legacySources.Some?
    ensures var r, sources := Decode(previous, archive), previous.value.legacySources.value;
      && r.Ok? && r.value.facts == previous.value.legacyEvents && r.value.sources.Keys == sources.Keys
      && forall id | id in sources ::
           var row, read := sources[id], r.value.sources[id];
           && read == row.(fieldStatus := read.fieldStatus) && read.fieldStatus.Keys == row.fieldStatus.Keys
           && forall key | key in row.fieldStatus ::
                read.fieldStatus[key] == if row.fieldStatus[key] == "counts_unknown" then "unknown" else row.fieldStatus[key]
  {
  }

  // ----- printing, then reading -----

  /** The part of a ledger that belongs to some of its runs. */
  function Part(l: Ledger, ids: seq<string>): Ledger {
    Ledger(map id | id in l.sources && id in ids :: l.sources[id],
           map key | key in l.facts && l.facts[key].sourceRun.Some? && l.facts[key].sourceRun.value in ids :: l.facts[key])
  }

  lemma {:induction false} AddEventsOf(facts: map<string, Fact>, all: map<string, Fact>, keys: seq<string>, id: string)
    requires forall key | key in keys :: key in all && all[key].key == key
    ensures var added := AddEvents(facts, EventsOf(all, keys, id));
      && (forall key :: key in added <==> key in facts || (key in keys && all[key].sourceRun == Some(id)))
      && (forall key | key in added ::
            added[key] == if key in keys && all[key].sourceRun == Some(id) then all[key] else facts[key])
  {
    if keys != [] {
      var init, last := keys[..|keys| - 1], keys[|keys| - 1];
      assert last in keys;
      assert keys == init + [last];
      AddEventsOf(facts, all, init, id);
      if all[last].sourceRun == Some(id) {
        var events := EventsOf(all, keys, id);
        assert events[..|events| - 1] == EventsOf(all, init, id);
      }
    }
  }

  lemma {:induction false} ReadsBack(l: Ledger, ids: seq<string>, archive: bool)
    requires Storable(l) && forall id | id in ids :: id in l.sources
    ensures DecodeRuns(Ledger(map[], map[]), PublishedRows(l, ids), archive) == Ok(Part(l, ids))
  {
    if ids == [] {
      assert Part(l, ids) == Ledger(map[], map[]);
    } else {
      var init, last := ids[..|ids| - 1], ids[|ids| - 1];
      assert last in ids && ids == init + [last];
      ReadsBack(l, init, archive);
      var runs := PublishedRows(l, ids);
      assert runs[..|runs| - 1] == PublishedRows(l, init);
      var keys := Sorted(l.facts.Keys);
      var added := AddEvents(Part(l, init).facts, EventsOf(l.facts, keys, last));
      AddEventsOf(Part(l, init).facts, l.facts, keys, last);
      PartFacts(l, init, last, keys, added);
      assert Part(l, init).sources[last := l.sources[last]] == Part(l, ids).sources;
      assert Keepable(last, l.sources[last]);
      DecodesRun(Part(l, init), PublishedRow(l, last), archive);
    }
  }

  lemma DecodesRun(l: Ledger, p: Published, archive: bool)
    requires Usable(p.sourceRunId) && p.row.actuallyRan
    ensures DecodeOne(l, p, archive) == Ok(Ledger(l.sources[p.sourceRunId.value := p.row], AddEvents(l.facts, p.events)))
  {
  }

  lemma PartFacts(l: Ledger, init: seq<string>, last: string, keys: seq<string>, added: map<string, Fact>)
    requires forall key :: key in keys <==> key in l.facts
    requires var before := Part(l, init);
      && (forall key :: key in added <==> key in before.facts || (key in keys && l.facts[key].sourceRun == Some(last)))
      && (forall key | key in added ::
            added[key] == if key in keys && l.facts[key].sourceRun == Some(last) then l.facts[key] else before.facts[key])
    ensures added == Part(l, init + [last]).facts
  {
    var whole := Part(l, init + [last]).facts;
    forall key ensures key in added <==> key in whole {
    }
    forall key | key in added ensures added[key] == whole[key] {
    }
  }

  lemma NormalFixed(l: Ledger)
    requires Storable(l)
    ensures NormalSources(l.sources) == l.sources
  {
    forall id | id in l.sources ensures NormalRow(l.sources[id]) == l.sources[id] {
      assert Keepable(id, l.sources[id]);
    }
  }

  lemma NoRunsNoFacts(l: Ledger)
    requires AllSourced(l) && l.sources == map[]
    ensures l.facts == map[]
  {
    assert forall key | key in l.facts :: Sourced(l.sources, l.facts[key]);
  }

  /** A list of one placeholder. */
  lemma ReadsPlaceholder(p: Published, archive: bool)
    ensures DecodeRuns(Ledger(map[], map[]), [p], archive) == DecodeOne(Ledger(map[], map[]), p, archive)
  {
    assert [p][..0] == [];
    assert DecodeRuns(Ledger(map[], map[]), [p][..0], archive) == Ok(Ledger(map[], map[]));
  }

  lemma PublishedDecodes(l: Ledger, idle: Option<Published>, archive: bool, raw: Result<Ledger, LedgerError>)
    requires raw == DecodeRuns(Ledger(map[], map[]), Publish(l, idle).runs, archive)
    ensures Decode(Some(Publish(l, idle)), archive)
         == if raw.Ok? then Ok(Ledger(NormalSources(raw.value.sources), raw.value.facts)) else Err(raw.error)
  {
  }

  lemma PartIsWhole(l: Ledger, ids: seq<string>)
    requires AllSourced(l) && forall id :: id in ids <==> id in l.sources
    ensures Part(l, ids) == l
  {
    assert forall key | key in l.facts :: Sourced(l.sources, l.facts[key]);
    assert Part(l, ids).sources == l.sources;
    assert Part(l, ids).facts == l.facts;
  }

  lemma StorableReadsBack(l: Ledger, idle: Option<Published>, archive: bool)
    requires AllSourced(l) && Storable(l) && (l.sources == map[] ==> Placeholder(idle))
    ensures Decode(Some(Publish(l, idle)), archive) == Ok(l)
  {
    NormalFixed(l);
    PublishedDecodes(l, idle, archive, DecodeRuns(Ledger(map[], map[]), Publish(l, idle).runs, archive));
    if l.sources == map[] {
      NoRunsNoFacts(l);
      if idle.Some? {
        ReadsPlaceholder(idle.value, archive);
      }
    } else {
      var ids := Sorted(l.sources.Keys);
      assert Publish(l, idle).runs == PublishedRows(l, ids);
      ReadsBack(l, ids, archive);
      PartIsWhole(l, ids);
    }
  }

  // ----- reading back needs all of it -----

  lemma {:induction false} EventsKeyed(facts: map<string, Fact>, events: seq<Fact>)
    requires forall key | key in facts :: facts[key].key == key
    ensures forall key | key in AddEvents(facts, events) :: AddEvents(facts, events)[key].key == key
  {
    if events != [] {
      EventsKeyed(facts, events[..|events| - 1]);
    }
  }

  /** Whatever the reader accepts carries a usable id, did run, and keys each event by its own key. */
  lemma {:induction false} ReadOnlyKeepable(l: Ledger, runs: seq<Published>)
    requires forall id | id in l.sources :: !Blank(id) && l.sources[id].actuallyRan
    requires forall key | key in l.facts :: l.facts[key].key == key
    ensures var r := DecodeRuns(l, runs, false);
      r.Ok? ==>
        && (forall id | id in r.value.sources :: !Blank(id) && r.value.sources[id].actuallyRan)
        && (forall key | key in r.value.facts :: r.value.facts[key].key == key)
  {
    if runs != [] {
      ReadOnlyKeepable(l, runs[..|runs| - 1]);
      var before := DecodeRuns(l, runs[..|runs| - 1], false);
      if before.Ok? {
        EventsKeyed(before.value.facts, runs[|runs| - 1].events);
      }
    }
  }

  lemma NormalTwice(fields: map<string, string>)
    ensures NormalStatus(NormalStatus(fields)) == NormalStatus(fields)
  {
    forall status: string ensures NormalCount(NormalCount(status)) == NormalCount(status) {
      CountTwice(status);
    }
    hide NormalCount;
  }

  lemma CountTwice(status: string)
    ensures NormalCount(NormalCount(status)) == NormalCount(status)
  {
  }

  lemma ReadIsStorable(payload: Payload, l: Ledger)
    requires payload.legacySources.None? && payload.legacyEvents == map[] && Decode(Some(payload), false) == Ok(l)
    ensures Storable(l)
  {
    ReadOnlyKeepable(Ledger(map[], map[]), payload.runs);
    var raw := ReadRaw(payload, l);
    hide Decode, DecodeRuns;
    forall id | id in l.sources ensures Keepable(id, l.sources[id]) {
      NormalTwice(raw.sources[id].fieldStatus);
    }
    assert forall key | key in raw.facts :: raw.facts[key].key == key;
  }

  lemma ReadRaw(payload: Payload, l: Ledger) returns (raw: Ledger)
    requires payload.legacySources.None? && payload.legacyEvents == map[] && Decode(Some(payload), false) == Ok(l)
    ensures DecodeRuns(Ledger(map[], map[]), payload.runs, false) == Ok(raw)
    ensures l == Ledger(NormalSources(raw.sources), raw.facts)
  {
    assert Carried(Some(payload)) == Ledger(map[], map[]);
    raw := DecodeRuns(Ledger(map[], map[]), payload.runs, false).value;
    hide DecodeRuns, NormalSources;
  }

  lemma RanPlaceholderShows(l: Ledger, p: Published)
    requires l.sources == map[] && p.row.actuallyRan
    ensures Decode(Some(Publish(l, Some(p))), false) != Ok(l)
  {
    ReadsPlaceholder(p, false);
    var raw := DecodeRuns(Ledger(map[], map[]), [p], false);
    PublishedDecodes(l, Some(p), false, raw);
    if raw.Ok? {
      assert p.sourceRunId.value in NormalSources(raw.value.sources);
    }
  }

  /**
   * The round trip, exactly. A published ledger is read back as itself if and only if every run id is more than
   * white space, every row ran and has its field status normalised, every event sits under its own key, and,
   * where there is no run at all, the placeholder does not claim to have run.
   */
  lemma RoundTripExactly(l: Ledger, idle: Option<Published>)
    requires AllSourced(l)
    ensures Decode(Some(Publish(l, idle)), false) == Ok(l)
       <==> Storable(l) && (l.sources == map[] ==> Placeholder(idle))
  {
    if Storable(l) && (l.sources == map[] ==> Placeholder(idle)) {
      StorableReadsBack(l, idle, false);
    } else if l.sources == map[] && !Placeholder(idle) {
      RanPlaceholderShows(l, idle.value);
    } else if Decode(Some(Publish(l, idle)), false) == Ok(l) {
      ReadIsStorable(Publish(l, idle), l);
    }
  }

  /** One run id of white space, once written, makes every later merge of that object fail. */
  lemma BlankIdBlocksTheLedger(row: Row, call: Call)
    requires row.actuallyRan && !call.archive
    ensures MergeOnce(None, Call([Snapshot(" ", row)], [], None, false)).Ok?
    ensures var written := MergeOnce(None, Call([Snapshot(" ", row)], [], None, false)).value;
      MergeOnce(Some(written), call) == Err(LegacyNeedsArchive)
  {
    var rows := [Snapshot(" ", row)];
    var l := Ledger(map[" " := row], map[]);
    assert Absorb(map[], rows) == Ok(l.sources) by {
      assert rows[..0] == [];
      assert Absorb(map[], rows[..0]) == Ok(map[]);
    }
    assert MergeLedger(Ledger(map[], map[]), Call(rows, [], None, false)) == Ok(l);
    var written := Publish(l, None);
    assert Decode(None, false) == Ok(Ledger(map[], map[]));
    assert MergeOnce(None, Call(rows, [], None, false)) == Ok(written);
    assert Sorted(l.sources.Keys) == [" "] by {
      SortedUnique(Sorted(l.sources.Keys), [" "]);
    }
    ReadsPlaceholder(PublishedRow(l, " "), false);
    assert written.runs == [PublishedRow(l, " ")];
    PublishedDecodes(l, None, false, Err(LegacyNeedsArchive));
  }

  // ----- good ledgers stay good -----

  predicate GoodCall(call: Call) {
    && (forall x | x in call.rows :: Keepable(x.runId, x.row))
    && Placeholder(call.idle)
  }

  lemma AbsorbOneStorable(sources: map<string, Row>, x: Snapshot)
    requires forall id | id in sources :: Keepable(id, sources[id])
    requires Keepable(x.runId, x.row)
    ensures var r := AbsorbOne(sources, x); r.Ok? ==> forall id | id in r.value :: Keepable(id, r.value[id])
  {
    assert NormalStatus(UNKNOWN_COUNTS) == UNKNOWN_COUNTS;
  }

  lemma {:induction false} AbsorbStorable(sources: map<string, Row>, rows: seq<Snapshot>)
    requires forall id | id in sources :: Keepable(id, sources[id])
    requires forall x | x in rows :: Keepable(x.runId, x.row)
    ensures var r := Absorb(sources, rows); r.Ok? ==> forall id | id in r.value :: Keepable(id, r.value[id])
  {
    hide AbsorbOne, Keepable;
    if rows != [] {
      var init, last := rows[..|rows| - 1], rows[|rows| - 1];
      assert last in rows && forall x | x in init :: x in rows;
      AbsorbStorable(sources, init);
      if Absorb(sources, init).Ok? {
        AbsorbOneStorable(Absorb(sources, init).value, last);
      }
    }
  }

  lemma {:induction false} RecordStorable(facts: map<string, Fact>, events: seq<Fact>)
    requires forall key | key in facts :: facts[key].key == key
    ensures var r := Record(facts, events); r.Ok? ==> forall key | key in r.value :: r.value[key].key == key
  {
    if events != [] {
      RecordStorable(facts, events[..|events| - 1]);
    }
  }

  lemma MergeStorable(l: Ledger, call: Call)
    requires Storable(l) && GoodCall(call) && MergeLedger(l, call).Ok?
    ensures Storable(MergeLedger(l, call).value) && AllSourced(MergeLedger(l, call).value)
  {
    var next := MergeLedger(l, call).value;
    assert Absorb(l.sources, call.rows) == Ok(next.sources) && Record(l.facts, call.events) == Ok(next.facts);
    AbsorbStorable(l.sources, call.rows);
    RecordStorable(l.facts, call.events);
  }

  /** So a merge is a step on ledgers: reading the object back gives the ledger that was merged. */
  lemma MergeIsAStep(previous: Option<Payload>, l: Ledger, call: Call, archive: bool)
    requires Decode(previous, call.archive) == Ok(l) && Storable(l) && GoodCall(call)
    ensures MergeOnce(previous, call).Ok? <==> MergeLedger(l, call).Ok?
    ensures MergeOnce(previous, call).Ok? ==>
              var next := MergeLedger(l, call).value;
              Storable(next) && Decode(Some(MergeOnce(previous, call).value), archive) == Ok(next)
  {
    if MergeLedger(l, call).Ok? {
      MergeStorable(l, call);
      StorableReadsBack(MergeLedger(l, call).value, call.idle, archive);
    }
  }
}
