/**
 * When a merge is accepted, in terms of what the ledger holds and what the call delivers: one object never mixes
 * two identities, one run never two sets of observations, one key never two events, and every event has its run.
 */
module LedgerAdmission {
  import opened Wrappers
  import opened Ordering
  import opened CandidateLedger
  import opened LedgerConvergence
  import opened LedgerStore

  // ----- rows -----

  predicate Alike(a: Row, b: Row) {
    a.identity == b.identity && a.observations == b.observations
  }

  /** Snapshots of one run, held or delivered, have one identity and the same observations. */
  predicate RunsAgree(sources: map<string, Row>, rows: seq<Snapshot>) {
    && (forall x, y | x in rows && y in rows && x.runId == y.runId :: Alike(x.row, y.row))
    && (forall x | x in rows && x.runId in sources :: Alike(x.row, sources[x.runId]))
  }

  function Ids(rows: seq<Snapshot>): set<string> {
    set x | x in rows :: x.runId
  }

  lemma IdsNext(init: seq<Snapshot>, last: Snapshot)
    ensures Ids(init + [last]) == Ids(init) + {last.runId}
    ensures forall x | x in init + [last] :: x in init || x == last
  {
    assert last in init + [last] && forall x | x in init :: x in init + [last];
  }

  /** What absorbing keeps: the runs held and delivered and no other, each alike to all its snapshots. */
  predicate Absorbed(sources: map<string, Row>, rows: seq<Snapshot>, after: map<string, Row>) {
    && after.Keys == sources.Keys + Ids(rows)
    && (forall id | id in sources :: Alike(after[id], sources[id]))
    && (forall x | x in rows :: Alike(after[x.runId], x.row))
  }

  lemma OneAgrees(sources: map<string, Row>, x: Snapshot)
    ensures AbsorbOne(sources, x).Ok? <==> (x.runId in sources ==> Alike(x.row, sources[x.runId]))
    ensures AbsorbOne(sources, x).Ok? ==>
              var after := AbsorbOne(sources, x).value;
              && after.Keys == sources.Keys + {x.runId}
              && Alike(after[x.runId], x.row)
              && forall id | id in sources :: Alike(after[id], sources[id])
  {
    if x.runId in sources {
      AggregateKeeps(sources[x.runId], x.row);
    }
    hide Aggregate;
  }

  lemma AbsorbedNext(sources: map<string, Row>, init: seq<Snapshot>, last: Snapshot, before: map<string, Row>,
                     after: map<string, Row>)
    requires Absorbed(sources, init, before)
    requires after.Keys == before.Keys + {last.runId} && Alike(after[last.runId], last.row)
    requires forall id | id in before :: Alike(after[id], before[id])
    ensures Absorbed(sources, init + [last], after)
  {
    IdsNext(init, last);
    assert forall x | x in init :: x.runId in Ids(init);
    hide Ids;
  }

  lemma {:induction false} AbsorbExactly(sources: map<string, Row>, rows: seq<Snapshot>)
    ensures Absorb(sources, rows).Ok? <==> RunsAgree(sources, rows)
    ensures Absorb(sources, rows).Ok? ==> Absorbed(sources, rows, Absorb(sources, rows).value)
  {
    hide AbsorbOne, RunsAgree, Absorbed;
    if rows == [] {
      NothingAbsorbed(sources);
    } else {
      var init, last := rows[..|rows| - 1], rows[|rows| - 1];
      assert rows == init + [last];
      AbsorbExactly(sources, init);
      AgreeNext(sources, init, last);
      if Absorb(sources, init).Ok? {
        var before := Absorb(sources, init).value;
        OneAgrees(before, last);
        LastAgrees(sources, init, last, before);
        if AbsorbOne(before, last).Ok? {
          AbsorbedNext(sources, init, last, before, AbsorbOne(before, last).value);
        }
      }
    }
  }

  lemma NothingAbsorbed(sources: map<string, Row>)
    ensures RunsAgree(sources, []) && Absorbed(sources, [], sources)
  {
  }

  /** The last snapshot agrees with those before it. */
  predicate Fitting(sources: map<string, Row>, init: seq<Snapshot>, last: Snapshot) {
    && (forall x | x in init && x.runId == last.runId :: Alike(last.row, x.row))
    && (last.runId in sources ==> Alike(last.row, sources[last.runId]))
  }

  lemma AgreeNext(sources: map<string, Row>, init: seq<Snapshot>, last: Snapshot)
    ensures RunsAgree(sources, init + [last]) <==> RunsAgree(sources, init) && Fitting(sources, init, last)
  {
    var rows := init + [last];
    assert last in rows && forall x | x in init :: x in rows;
  }

  lemma LastAgrees(sources: map<string, Row>, init: seq<Snapshot>, last: Snapshot, before: map<string, Row>)
    requires Absorbed(sources, init, before)
    ensures (last.runId in before ==> Alike(last.row, before[last.runId])) <==> Fitting(sources, init, last)
  {
    if last.runId in before && last.runId !in sources {
      var x :| x in init && x.runId == last.runId;
    }
  }

  // ----- events -----

  predicate EventsAgree(facts: map<string, Fact>, events: seq<Fact>) {
    && (forall f, g | f in events && g in events && f.key == g.key :: f == g)
    && (forall f | f in events && f.key in facts :: facts[f.key] == f)
  }

  function KeysOf(events: seq<Fact>): set<string> {
    set f | f in events :: f.key
  }

  lemma KeysNext(init: seq<Fact>, last: Fact)
    ensures KeysOf(init + [last]) == KeysOf(init) + {last.key}
    ensures forall f | f in init + [last] :: f in init || f == last
  {
    assert last in init + [last] && forall f | f in init :: f in init + [last];
  }

  predicate Recorded(facts: map<string, Fact>, events: seq<Fact>, after: map<string, Fact>) {
    && after.Keys == facts.Keys + KeysOf(events)
    && (forall key | key in facts :: after[key] == facts[key])
    && (forall f | f in events :: after[f.key] == f)
  }

  lemma {:induction false} RecordAgrees(facts: map<string, Fact>, events: seq<Fact>)
    ensures Record(facts, events).Ok? <==> EventsAgree(facts, events)
    ensures Record(facts, events).Ok? ==> Recorded(facts, events, Record(facts, events).value)
  {
    hide RecordOne, EventsAgree, Recorded;
    if events == [] {
      NothingRecorded(facts);
    } else {
      var init, last := events[..|events| - 1], events[|events| - 1];
      assert events == init + [last];
      RecordAgrees(facts, init);
      EventsAgreeNext(facts, init, last);
      if Record(facts, init).Ok? {
        LastEventAgrees(facts, init, last, Record(facts, init).value);
        if RecordOne(Record(facts, init).value, last).Ok? {
          RecordedNext(facts, init, last, Record(facts, init).value);
        }
      }
    }
  }

  lemma NothingRecorded(facts: map<string, Fact>)
    ensures EventsAgree(facts, []) && Recorded(facts, [], facts)
  {
  }

  /** The last event agrees with those before it. */
  predicate EventFitting(facts: map<string, Fact>, init: seq<Fact>, last: Fact) {
    && (forall f | f in init && f.key == last.key :: f == last)
    && (last.key in facts ==> facts[last.key] == last)
  }

  lemma EventsAgreeNext(facts: map<string, Fact>, init: seq<Fact>, last: Fact)
    ensures EventsAgree(facts, init + [last]) <==> EventsAgree(facts, init) && EventFitting(facts, init, last)
  {
    var events := init + [last];
    assert last in events && forall f | f in init :: f in events;
  }

  lemma LastEventAgrees(facts: map<string, Fact>, init: seq<Fact>, last: Fact, before: map<string, Fact>)
    requires Recorded(facts, init, before)
    ensures RecordOne(before, last).Ok? <==> EventFitting(facts, init, last)
  {
    if last.key in before && last.key !in facts {
      var f :| f in init && f.key == last.key;
    }
    assert forall f | f in init :: f.key in KeysOf(init);
  }

  lemma RecordedNext(facts: map<string, Fact>, init: seq<Fact>, last: Fact, before: map<string, Fact>)
    requires Recorded(facts, init, before) && RecordOne(before, last).Ok?
    ensures Recorded(facts, init + [last], RecordOne(before, last).value)
  {
    KeysNext(init, last);
    assert forall f | f in init :: f.key in KeysOf(init);
    hide KeysOf;
  }

  // ----- the whole merge -----

  /** All rows, held and delivered, are of one platform, profile, account, target, day and kind of run. */
  predicate OneKind(l: Ledger, rows: seq<Snapshot>) {
    && (forall a, b | a in l.sources && b in l.sources :: l.sources[a].identity == l.sources[b].identity)
    && (forall x, y | x in rows && y in rows :: x.row.identity == y.row.identity)
    && (forall x, id | x in rows && id in l.sources :: x.row.identity == l.sources[id].identity)
  }

  predicate Listed(l: Ledger, rows: seq<Snapshot>, run: Option<string>) {
    run.Some? && (run.value in l.sources || run.value in Ids(rows))
  }

  /** Every event, held or delivered, names a run that is held or delivered. */
  predicate EventsListed(l: Ledger, call: Call) {
    && (forall key | key in l.facts :: Listed(l, call.rows, l.facts[key].sourceRun))
    && (forall f | f in call.events :: Listed(l, call.rows, f.sourceRun))
  }

  lemma OneIdentityExactly(l: Ledger, rows: seq<Snapshot>, after: map<string, Row>)
    requires Absorbed(l.sources, rows, after)
    ensures OneIdentity(after) <==> OneKind(l, rows)
  {
    assert forall x | x in rows :: x.runId in after;
    if OneKind(l, rows) {
      forall a, b | a in after && b in after
        ensures after[a].identity == after[b].identity
      {
        if a !in l.sources {
          var x :| x in rows && x.runId == a;
        }
        if b !in l.sources {
          var y :| y in rows && y.runId == b;
        }
      }
    }
  }

  lemma AllSourcedExactly(l: Ledger, call: Call, sources: map<string, Row>, facts: map<string, Fact>)
    requires Absorbed(l.sources, call.rows, sources) && Recorded(l.facts, call.events, facts)
    ensures AllSourced(Ledger(sources, facts)) <==> EventsListed(l, call)
  {
    assert forall run: Option<string> :: Listed(l, call.rows, run) <==> run.Some? && run.value in sources;
    hide Listed, Absorbed;
    assert forall f | f in call.events :: f.key in facts;
    if EventsListed(l, call) {
      forall key | key in facts
        ensures Sourced(sources, facts[key])
      {
        if key !in l.facts {
          var f :| f in call.events && f.key == key;
        }
      }
    }
  }

  /**
   * A merge is accepted exactly when all rows are of one kind, the snapshots of each run agree in their
   * observations, events under one key are the same, and every event has its run.
   */
  lemma MergeAcceptedExactly(l: Ledger, call: Call)
    ensures MergeLedger(l, call).Ok? <==>
              && OneKind(l, call.rows) && RunsAgree(l.sources, call.rows)
              && EventsAgree(l.facts, call.events) && EventsListed(l, call)
  {
    AbsorbExactly(l.sources, call.rows);
    RecordAgrees(l.facts, call.events);
    var sources, facts := Absorb(l.sources, call.rows), Record(l.facts, call.events);
    if sources.Ok? && facts.Ok? {
      OneIdentityExactly(l, call.rows, sources.value);
      AllSourcedExactly(l, call, sources.value, facts.value);
    }
    hide Absorb, Record, OneIdentity, AllSourced, OneKind, RunsAgree, EventsAgree, EventsListed, Absorbed, Recorded;
  }

  /** The same on the stored object. */
  lemma WriteAcceptedExactly(previous: Option<Payload>, call: Call)
    ensures MergeOnce(previous, call).Ok? <==>
              && Decode(previous, call.archive).Ok?
              && var l := Decode(previous, call.archive).value;
                 && OneKind(l, call.rows) && RunsAgree(l.sources, call.rows)
                 && EventsAgree(l.facts, call.events) && EventsListed(l, call)
  {
    if Decode(previous, call.archive).Ok? {
      MergeAcceptedExactly(Decode(previous, call.archive).value, call);
    }
    hide Decode, MergeLedger, OneKind, RunsAgree, EventsAgree, EventsListed;
  }

  // ----- never two identities in one object -----

  lemma {:induction false} ReplayOneIdentity(l: Ledger, calls: seq<Call>)
    requires Replay(l, calls).Ok?
    requires forall a, b | a in l.sources && b in l.sources :: l.sources[a].identity == l.sources[b].identity
    ensures var n := Replay(l, calls).value;
      forall a, b | a in n.sources && b in n.sources :: n.sources[a].identity == n.sources[b].identity
  {
    if calls != [] {
      var before, last := Replay(l, calls[..|calls| - 1]).value, calls[|calls| - 1];
      assert OneIdentity(MergeLedger(before, last).value.sources) by {
        hide Absorb, Record;
      }
    }
  }

  /** Whatever merges interleave, runs of different kinds never share an object. */
  lemma NeverMixed(l: Ledger, generation: nat, payload: Option<Payload>, actions: seq<Action>)
    requires Reads(payload, l) && forall a | a in actions :: GoodAction(a)
    requires forall a, b | a in l.sources && b in l.sources :: l.sources[a].identity == l.sources[b].identity
    ensures var stored := Decode(Steps(Opened(generation, payload), actions).payload, false);
      && stored.Ok?
      && forall a, b | a in stored.value.sources && b in stored.value.sources ::
           stored.value.sources[a].identity == stored.value.sources[b].identity
  {
    OneHistory(l, generation, payload, actions);
    var w := Steps(Opened(generation, payload), actions);
    hide Steps, Decode, Replay, CallsOf;
    ReplayOneIdentity(l, CallsOf(w));
  }

  // ----- what is published -----

  function KeySeq(events: seq<Fact>): (keys: seq<string>)
    ensures |keys| == |events| && forall i | 0 <= i < |events| :: keys[i] == events[i].key
  {
    seq(|events|, i requires 0 <= i < |events| => events[i].key)
  }

  lemma StrictlyMore(keys: seq<string>, last: string)
    requires StrictlySorted(keys) && forall key | key in keys :: key != last && Le(key, last)
    ensures StrictlySorted(keys + [last])
  {
    var all := keys + [last];
    forall i, j | 0 <= i < j < |all| ensures all[i] != all[j] && Le(all[i], all[j]) {
      assert all[i] == keys[i] && keys[i] in keys;
      assert j < |keys| ==> all[j] == keys[j];
    }
  }

  /** The events of a run, by key. */
  ghost predicate RunEvents(events: seq<Fact>, facts: map<string, Fact>, keys: seq<string>, id: string) {
    && (forall key | key in keys :: key in facts)
    && (forall e :: e in events <==> e.key in keys && facts[e.key] == e && e.sourceRun == Some(id))
  }

  lemma RunEventsNext(before: seq<Fact>, facts: map<string, Fact>, init: seq<string>, last: string, id: string)
    requires RunEvents(before, facts, init, id) && last in facts && facts[last].key == last
    ensures RunEvents(if facts[last].sourceRun == Some(id) then before + [facts[last]] else before, facts, init + [last], id)
  {
  }

  lemma {:induction false} EventsAscend(facts: map<string, Fact>, keys: seq<string>, id: string)
    requires forall key | key in keys :: key in facts && facts[key].key == key
    requires StrictlySorted(keys)
    ensures RunEvents(EventsOf(facts, keys, id), facts, keys, id)
    ensures StrictlySorted(KeySeq(EventsOf(facts, keys, id)))
  {
    if keys != [] {
      var init, last := keys[..|keys| - 1], keys[|keys| - 1];
      assert keys == init + [last] && last in keys && forall key | key in init :: key in keys;
      assert forall i | 0 <= i < |init| :: init[i] == keys[i];
      EventsAscend(facts, init, id);
      RunEventsNext(EventsOf(facts, init, id), facts, init, last, id);
      LastAbove(EventsOf(facts, init, id), facts, init, last, id);
    }
    hide Le, RunEvents;
  }

  lemma LastAbove(before: seq<Fact>, facts: map<string, Fact>, init: seq<string>, last: string, id: string)
    requires RunEvents(before, facts, init, id) && StrictlySorted(KeySeq(before)) && StrictlySorted(init + [last])
    requires last in facts && facts[last].key == last
    ensures StrictlySorted(KeySeq(before + [facts[last]]))
  {
    hide Le;
    forall key | key in KeySeq(before) ensures key != last && Le(key, last) {
      var i :| 0 <= i < |before| && KeySeq(before)[i] == key;
      assert before[i] in before && key in init;
      var k :| 0 <= k < |init| && init[k] == key;
      assert (init + [last])[k] == key && (init + [last])[|init|] == last;
    }
    StrictlyMore(KeySeq(before), last);
    assert KeySeq(before + [facts[last]]) == KeySeq(before) + [last];
  }

  /**
   * The rows are listed in ascending order of their run ids, each with the events of its run and no other, in
   * ascending order of their keys.
   */
  lemma PublishedInOrder(l: Ledger, idle: Option<Published>)
    requires l.sources != map[] && forall key | key in l.facts :: l.facts[key].key == key
    ensures var runs := Publish(l, idle).runs;
      && (forall k | 0 <= k < |runs| ::
            && runs[k].sourceRunId.Some? && runs[k].sourceRunId.value in l.sources
            && runs[k].row == l.sources[runs[k].sourceRunId.value]
            && StrictlySorted(KeySeq(runs[k].events))
            && forall e :: e in runs[k].events <==>
                 e.key in l.facts && l.facts[e.key] == e && e.sourceRun == runs[k].sourceRunId)
      && (forall j, k | 0 <= j < k < |runs| ::
            runs[j].sourceRunId != runs[k].sourceRunId
            && Le(runs[j].sourceRunId.value, runs[k].sourceRunId.value))
  {
    PublishesRuns(l, idle);
    PublishesIds(l, idle);
    var runs, ids, keys := Publish(l, idle).runs, Sorted(l.sources.Keys), Sorted(l.facts.Keys);
    assert |l.sources.Keys| == |l.sources|;
    hide Sorted, Publish, EventsOf, Le;
    forall k | 0 <= k < |runs|
      ensures runs[k] == PublishedRow(l, ids[k]) && runs[k].sourceRunId == Some(ids[k])
      ensures StrictlySorted(KeySeq(runs[k].events))
      ensures forall e :: e in runs[k].events <==>
                e.key in l.facts && l.facts[e.key] == e && e.sourceRun == runs[k].sourceRunId
    {
      EventsAscend(l.facts, keys, ids[k]);
    }
  }
}
