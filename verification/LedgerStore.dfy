/**
 * The merge against the shared object: read, merge, compare-and-set, at most eight times. First one merge as the
 * code runs it, with other writers in between; then any number of merges interleaved.
 */
module LedgerStore {
  import opened Wrappers
  import opened Ordering
  import opened CandidateLedger
  import opened LedgerRoundTrip
  import opened LedgerConvergence
  import opened StateStore

  const TRIES := 8

  // ----- one merge -----

  /** The stored object with its generation; generation 0 means there is none. */
  class CandidateObject {
    var generation: nat
    var payload: Option<Payload>
    ghost var writes: seq<Payload>
    ghost const initial: Option<Payload>
    ghost const base: nat

    constructor (generation: nat, payload: Option<Payload>)
      requires payload.None? <==> generation == 0
      ensures Valid() && writes == [] && initial == payload && this.payload == payload
    {
      this.generation, this.payload := generation, payload;
      writes, initial, base := [], payload, generation;
    }

    ghost function After(done: seq<Payload>): Option<Payload> {
      if done == [] then initial else Some(done[|done| - 1])
    }

    /** Every write made a new generation. */
    ghost predicate Valid()
      reads this
    {
      generation == base + |writes| && payload == After(writes)
    }

    method Read(fails: bool) returns (r: Result<(nat, Option<Payload>), LedgerError>)
      ensures r == if fails then Err(CandidateReadFailed) else Ok((generation, payload))
    {
      r := if fails then Err(CandidateReadFailed) else Ok((generation, payload));
    }

    method Overwrite(value: Payload)
      requires Valid()
      modifies this
      ensures Valid() && writes == old(writes) + [value]
    {
      generation, payload := generation + 1, Some(value);
      writes := writes + [value];
    }

    /** Writes only over the generation that was read. */
    method CompareAndSet(version: nat, value: Payload, fault: Fault) returns (r: Result<bool, LedgerError>)
      requires Valid()
      modifies this
      ensures Valid()
      ensures writes == if fault != FailsBefore && old(generation) == version then old(writes) + [value] else old(writes)
      ensures r == if fault != NoFault then Err(CandidateWriteFailed) else Ok(old(generation) == version)
    {
      if fault == FailsBefore {
        return Err(CandidateWriteFailed);
      }
      var matches := generation == version;
      if matches {
        Overwrite(value);
      }
      r := if fault == ReplyLost then Err(CandidateWriteFailed) else Ok(matches);
    }
  }

  /** What one attempt meets: does the read fail, what do others write before the write, how does the write go. */
  datatype Round = Round(readFails: bool, others: seq<Payload>, write: Fault)

  method Interfere(store: CandidateObject, others: seq<Payload>)
    requires store.Valid()
    modifies store
    ensures store.Valid() && store.writes == old(store.writes) + others
  {
    for i := 0 to |others|
      invariant store.Valid() && store.writes == old(store.writes) + others[..i]
    {
      store.Overwrite(others[i]);
    }
    assert others[..|others|] == others;
  }

  /**
   * `foreign` are the payloads others wrote meanwhile, `seen` the object as last read. Whatever this merge wrote
   * is the merge over exactly what was there before it, and it is there if the merge returns true. A merge that
   * fails otherwise than in the write itself has written nothing. It gives up only after eight foreign writes.
   */
  method Merge(store: CandidateObject, call: Call, world: nat -> Round)
    returns (r: Result<bool, LedgerError>, ghost foreign: seq<Payload>, ghost seen: Option<Payload>)
    requires store.Valid()
    modifies store
    ensures store.Valid()
    ensures store.writes == old(store.writes) + foreign
         || (MergeOnce(store.After(old(store.writes) + foreign), call).Ok?
             && store.writes == old(store.writes) + foreign
                                + [MergeOnce(store.After(old(store.writes) + foreign), call).value])
    ensures r.Ok? ==> r.value && |store.writes| == |old(store.writes)| + |foreign| + 1
    ensures r.Err? && r.error != CandidateWriteFailed ==> store.writes == old(store.writes) + foreign
    ensures r.Err? && r.error != CandidateWriteFailed && r.error != CandidateReadFailed && r.error != ConcurrentUpdate ==>
              MergeOnce(seen, call) == Err(r.error)
    ensures r == Err(ConcurrentUpdate) ==> |foreign| >= 8
  {
    hide MergeOnce;
    foreign, seen := [], None;
    for k := 0 to TRIES
      invariant store.Valid() && store.writes == old(store.writes) + foreign
      invariant |foreign| >= k
    {
      var round := world(k);
      var current := store.Read(round.readFails);
      if current.Err? {
        return Err(current.error), foreign, seen;
      }
      var version, previous := current.value.0, current.value.1;
      seen := previous;
      Interfere(store, round.others);
      foreign := foreign + round.others;
      var payload := MergePayload(previous, call);
      NoConcurrentUpdate(previous, call);
      if payload.Err? {
        return Err(payload.error), foreign, seen;
      }
      assert round.others == [] ==> old(store.writes) + foreign == store.writes;
      var written := store.CompareAndSet(version, payload.value, round.write);
      if written.Err? {
        return Err(written.error), foreign, seen;
      }
      if written.value {
        return Ok(true), foreign, seen;
      }
    }
    r := Err(ConcurrentUpdate);
  }

  lemma NoConcurrentUpdate(previous: Option<Payload>, call: Call)
    ensures var r := MergeOnce(previous, call);
      r.Err? ==> r.error != CandidateWriteFailed && r.error != CandidateReadFailed && r.error != ConcurrentUpdate
  {
    if previous.Some? {
      DecodeErrors(Carried(previous), previous.value.runs, call.archive);
    }
    var l := Decode(previous, call.archive);
    if l.Ok? {
      AbsorbErrors(l.value.sources, call.rows);
      RecordErrors(l.value.facts, call.events);
    }
  }

  lemma {:induction false} DecodeErrors(l: Ledger, runs: seq<Published>, archive: bool)
    ensures DecodeRuns(l, runs, archive).Err? ==> DecodeRuns(l, runs, archive) == Err(LegacyNeedsArchive)
  {
    if runs != [] {
      DecodeErrors(l, runs[..|runs| - 1], archive);
    }
  }

  lemma {:induction false} AbsorbErrors(sources: map<string, Row>, rows: seq<Snapshot>)
    ensures var r := Absorb(sources, rows); r.Err? ==> r.error == ObservationsConflict || r.error == IdentityConflict
  {
    if rows != [] {
      AbsorbErrors(sources, rows[..|rows| - 1]);
    }
  }

  lemma {:induction false} RecordErrors(facts: map<string, Fact>, events: seq<Fact>)
    ensures Record(facts, events).Err? ==> Record(facts, events) == Err(EventConflict)
  {
    if events != [] {
      RecordErrors(facts, events[..|events| - 1]);
    }
  }

  // ----- any number of merges -----

  datatype Phase =
    | Ready
    | HasRead(version: nat, payload: Option<Payload>)
    | Done(result: Result<bool, LedgerError>)

  datatype Writer = Writer(call: Call, tries: nat, phase: Phase)

  /** `log` lists the writers whose write took effect, in that order. */
  datatype World = World(generation: nat, payload: Option<Payload>, writers: seq<Writer>, log: seq<nat>)

  datatype Action =
    | Begin(call: Call)
    | Get(i: nat, fails: bool)
    | Put(i: nat, fault: Fault)

  function After(w: World, i: nat, x: Writer): World
    requires i < |w.writers|
  {
    w.(writers := w.writers[i := x])
  }

  function PutBack(w: World, i: nat, fault: Fault): World
    requires i < |w.writers| && w.writers[i].phase.HasRead?
  {
    var x := w.writers[i];
    match MergeOnce(x.phase.payload, x.call)
    case Err(error) => After(w, i, x.(phase := Done(Err(error))))
    case Ok(payload) =>
      if fault == FailsBefore then After(w, i, x.(phase := Done(Err(CandidateWriteFailed))))
      else if x.phase.version == w.generation then
        After(w, i, x.(phase := Done(if fault == ReplyLost then Err(CandidateWriteFailed) else Ok(true))))
        .(generation := w.generation + 1, payload := Some(payload), log := w.log + [i])
      else if fault == ReplyLost then After(w, i, x.(phase := Done(Err(CandidateWriteFailed))))
      else
        var tried := x.(tries := x.tries + 1);
        After(w, i, tried.(phase := if tried.tries >= TRIES then Done(Err(ConcurrentUpdate)) else Ready))
  }

  function Step(w: World, action: Action): World {
    match action
    case Begin(call) => w.(writers := w.writers + [Writer(call, 0, Ready)])
    case Get(i, fails) =>
      if i < |w.writers| && w.writers[i].phase.Ready? then
        After(w, i, w.writers[i].(phase := if fails then Done(Err(CandidateReadFailed)) else HasRead(w.generation, w.payload)))
      else w
    case Put(i, fault) =>
      if i < |w.writers| && w.writers[i].phase.HasRead? then PutBack(w, i, fault) else w
  }

  function Steps(w: World, actions: seq<Action>): World {
    if actions == [] then w else Step(Steps(w, actions[..|actions| - 1]), actions[|actions| - 1])
  }

  function Opened(generation: nat, payload: Option<Payload>): World {
    World(generation, payload, [], [])
  }

  predicate GoodAction(action: Action) {
    action.Begin? ==> GoodCall(action.call)
  }

  predicate Logged(w: World) {
    forall k | 0 <= k < |w.log| :: w.log[k] < |w.writers|
  }

  function CallsOf(w: World): seq<Call>
    requires Logged(w)
  {
    seq(|w.log|, k requires 0 <= k < |w.log| => w.writers[w.log[k]].call)
  }

  /** The object reads as the replay of the logged calls. */
  predicate Reads(payload: Option<Payload>, l: Ledger) {
    Decode(payload, false) == Ok(l) && Decode(payload, true) == Ok(l) && Storable(l)
  }

  /** A writer wrote once or not at all, and knows it unless its reply was lost. */
  predicate Honest(w: World, i: nat)
    requires i < |w.writers|
  {
    match w.writers[i].phase
    case Done(Ok(done)) => done && i in w.log
    case Done(Err(CandidateWriteFailed)) => true
    case _ => i !in w.log
  }

  /** What a writer read is still there unless the generation has moved on. */
  predicate Current(w: World, i: nat)
    requires i < |w.writers|
  {
    var x := w.writers[i];
    GoodCall(x.call)
    && (x.phase.HasRead? ==> x.phase.version <= w.generation)
    && (x.phase.HasRead? && x.phase.version == w.generation ==> x.phase.payload == w.payload)
  }

  predicate Inv(l: Ledger, w: World) {
    && Logged(w)
    && Replay(l, CallsOf(w)).Ok?
    && Reads(w.payload, Replay(l, CallsOf(w)).value)
    && (forall i | 0 <= i < |w.writers| :: Current(w, i) && Honest(w, i))
    && (forall j, k | 0 <= j < k < |w.log| :: w.log[j] != w.log[k])
  }

  lemma LocalKeeps(l: Ledger, w: World, i: nat, x: Writer)
    requires Inv(l, w) && i < |w.writers| && x.call == w.writers[i].call
    requires x.phase.HasRead? ==> x.phase == HasRead(w.generation, w.payload)
    requires x.phase.Done? ==> x.phase.result.Err?
    requires x.phase != Done(Err(CandidateWriteFailed)) ==> i !in w.log
    ensures Inv(l, After(w, i, x))
  {
    hide Replay, Reads, GoodCall;
    var n := After(w, i, x);
    assert CallsOf(n) == CallsOf(w);
    forall j | 0 <= j < |n.writers| ensures Current(n, j) && Honest(n, j) {
      assert Current(w, j) && Honest(w, j);
    }
  }

  lemma BeginKeeps(l: Ledger, w: World, call: Call)
    requires Inv(l, w) && GoodCall(call)
    ensures Inv(l, Step(w, Begin(call)))
  {
    hide Replay, Reads, GoodCall;
    var n := Step(w, Begin(call));
    assert CallsOf(n) == CallsOf(w);
    forall j | 0 <= j < |n.writers| ensures Current(n, j) && Honest(n, j) {
      assert j < |w.writers| ==> Current(w, j) && Honest(w, j);
    }
  }

  lemma WrittenReads(l: Ledger, calls: seq<Call>, payload: Option<Payload>, call: Call)
    requires Replay(l, calls).Ok? && Reads(payload, Replay(l, calls).value)
    requires GoodCall(call) && MergeOnce(payload, call).Ok?
    ensures Replay(l, calls + [call]).Ok?
    ensures Reads(Some(MergeOnce(payload, call).value), Replay(l, calls + [call]).value)
  {
    var before := Replay(l, calls).value;
    assert (calls + [call])[..|calls|] == calls;
    MergeIsAStep(payload, before, call, false);
    MergeIsAStep(payload, before, call, true);
  }

  lemma WriteKeeps(l: Ledger, w: World, i: nat, fault: Fault)
    requires Inv(l, w) && i < |w.writers| && w.writers[i].phase.HasRead? && fault != FailsBefore
    requires w.writers[i].phase.version == w.generation
    requires MergeOnce(w.writers[i].phase.payload, w.writers[i].call).Ok?
    ensures Inv(l, PutBack(w, i, fault))
  {
    assert Current(w, i) && Honest(w, i);
    var payload := MergeOnce(w.payload, w.writers[i].call).value;
    WrittenReads(l, CallsOf(w), w.payload, w.writers[i].call);
    LogGrows(l, w, i, payload, if fault == ReplyLost then Err(CandidateWriteFailed) else Ok(true));
    hide *;
    assert PutBack(w, i, fault) == Written(w, i, payload, if fault == ReplyLost then Err(CandidateWriteFailed) else Ok(true)) by {
      PutBackWrites(w, i, fault);
    }
  }

  function Written(w: World, i: nat, payload: Payload, result: Result<bool, LedgerError>): World
    requires i < |w.writers|
  {
    World(w.generation + 1, Some(payload), w.writers[i := w.writers[i].(phase := Done(result))], w.log + [i])
  }

  lemma PutBackWrites(w: World, i: nat, fault: Fault)
    requires i < |w.writers| && w.writers[i].phase.HasRead? && fault != FailsBefore
    requires w.writers[i].phase == HasRead(w.generation, w.payload)
    requires MergeOnce(w.payload, w.writers[i].call).Ok?
    ensures PutBack(w, i, fault) == Written(w, i, MergeOnce(w.payload, w.writers[i].call).value,
                                            if fault == ReplyLost then Err(CandidateWriteFailed) else Ok(true))
  {
    hide MergeOnce;
  }

  lemma LogGrows(l: Ledger, w: World, i: nat, payload: Payload, result: Result<bool, LedgerError>)
    requires Inv(l, w) && i < |w.writers| && i !in w.log
    requires result == Ok(true) || result == Err(CandidateWriteFailed)
    requires Replay(l, CallsOf(w) + [w.writers[i].call]).Ok?
    requires Reads(Some(payload), Replay(l, CallsOf(w) + [w.writers[i].call]).value)
    ensures Inv(l, Written(w, i, payload, result))
  {
    hide Replay, Reads, GoodCall;
    var n := Written(w, i, payload, result);
    assert CallsOf(n) == CallsOf(w) + [w.writers[i].call];
    forall j | 0 <= j < |n.writers| ensures Current(n, j) && Honest(n, j) {
      assert Current(w, j) && Honest(w, j);
    }
  }

  lemma NotYetLogged(l: Ledger, w: World, i: nat)
    requires Inv(l, w) && i < |w.writers| && !w.writers[i].phase.Done?
    ensures i !in w.log
  {
    hide Replay, Reads, GoodCall;
    assert Honest(w, i);
  }

  lemma GetKeeps(l: Ledger, w: World, i: nat, fails: bool)
    requires Inv(l, w)
    ensures Inv(l, Step(w, Get(i, fails)))
  {
    hide Inv;
    if i < |w.writers| && w.writers[i].phase.Ready? {
      NotYetLogged(l, w, i);
      LocalKeeps(l, w, i, w.writers[i].(phase := if fails then Done(Err(CandidateReadFailed)) else HasRead(w.generation, w.payload)));
    }
  }

  lemma PutKeeps(l: Ledger, w: World, i: nat, fault: Fault)
    requires Inv(l, w)
    ensures Inv(l, Step(w, Put(i, fault)))
  {
    hide Inv, MergeOnce;
    if i < |w.writers| && w.writers[i].phase.HasRead? {
      NotYetLogged(l, w, i);
      NoConcurrentUpdate(w.writers[i].phase.payload, w.writers[i].call);
      if MergeOnce(w.writers[i].phase.payload, w.writers[i].call).Ok? && fault != FailsBefore
         && w.writers[i].phase.version == w.generation {
        WriteKeeps(l, w, i, fault);
      } else {
        LocalKeeps(l, w, i, PutBack(w, i, fault).writers[i]);
      }
    }
  }

  lemma StepKeeps(l: Ledger, w: World, action: Action)
    requires Inv(l, w) && GoodAction(action)
    ensures Inv(l, Step(w, action))
  {
    hide Inv, Step, GoodCall;
    match action {
      case Begin(call) => BeginKeeps(l, w, call);
      case Get(i, fails) => GetKeeps(l, w, i, fails);
      case Put(i, fault) => PutKeeps(l, w, i, fault);
    }
  }

  lemma {:induction false} StepsKeep(l: Ledger, generation: nat, payload: Option<Payload>, actions: seq<Action>)
    requires Reads(payload, l) && forall a | a in actions :: GoodAction(a)
    ensures Inv(l, Steps(Opened(generation, payload), actions))
  {
    if actions != [] {
      var init, last := actions[..|actions| - 1], actions[|actions| - 1];
      assert actions == init + [last];
      StepsKeep(l, generation, payload, init);
      StepKeeps(l, Steps(Opened(generation, payload), init), last);
    }
  }

  // ----- what it means -----

  /** The ledger the object holds. */
  function LedgerOf(w: World, l: Ledger): Ledger
    requires Logged(w) && Replay(l, CallsOf(w)).Ok?
  {
    Replay(l, CallsOf(w)).value
  }

  /**
   * In every interleaving, with failed reads, failed writes and lost replies, the object reads back as the
   * ledger of one sequence of merges. A merge that returned true is in it; one that is still open or failed
   * otherwise than in its write is not; none is in it twice.
   */
  lemma OneHistory(l: Ledger, generation: nat, payload: Option<Payload>, actions: seq<Action>)
    requires Reads(payload, l) && forall a | a in actions :: GoodAction(a)
    ensures var w := Steps(Opened(generation, payload), actions);
      && Logged(w) && Replay(l, CallsOf(w)).Ok?
      && Decode(w.payload, false) == Ok(LedgerOf(w, l))
      && (forall j, k | 0 <= j < k < |w.log| :: w.log[j] != w.log[k])
      && (forall i | 0 <= i < |w.writers| ::
            && (w.writers[i].phase == Done(Ok(true)) ==> i in w.log)
            && (i in w.log ==> w.writers[i].phase == Done(Ok(true))
                               || w.writers[i].phase == Done(Err(CandidateWriteFailed))))
  {
    hide Steps, Replay, Decode, Current, CallsOf, Storable;
    StepsKeep(l, generation, payload, actions);
    var w := Steps(Opened(generation, payload), actions);
    forall i | 0 <= i < |w.writers|
      ensures w.writers[i].phase == Done(Ok(true)) ==> i in w.log
      ensures i in w.log ==> w.writers[i].phase == Done(Ok(true)) || w.writers[i].phase == Done(Err(CandidateWriteFailed))
    {
      HonestMeans(w, i);
    }
  }

  lemma HonestMeans(w: World, i: nat)
    requires i < |w.writers| && Honest(w, i)
    ensures w.writers[i].phase == Done(Ok(true)) ==> i in w.log
    ensures i in w.log ==> w.writers[i].phase == Done(Ok(true)) || w.writers[i].phase == Done(Err(CandidateWriteFailed))
  {
  }

  lemma {:induction false} ReplaySucceeds(l: Ledger, calls: seq<Call>, k: nat)
    requires k < |calls| && Replay(l, calls).Ok?
    ensures Succeeds(l, Replay(l, calls).value)
    ensures var n := Replay(l, calls).value;
      && (forall x | x in calls[k].rows :: x.runId in n.sources)
      && (forall fact | fact in calls[k].events :: Holds(n.facts, fact))
  {
    var init, last := calls[..|calls| - 1], calls[|calls| - 1];
    assert calls == init + [last];
    var before, n := Replay(l, init).value, Replay(l, calls).value;
    MergeSucceeds(before, last);
    hide MergeLedger, Follows, Replay;
    if init == [] {
      assert Replay(l, init) == Ok(l) by { ReplayNothing(l); }
    } else {
      ReplaySucceeds(l, init, if k < |init| then k else 0);
      SucceedsTransitive(l, before, n);
    }
  }

  lemma ReplayNothing(l: Ledger)
    ensures Replay(l, []) == Ok(l)
  {
  }

  lemma {:induction false} ReplayExtends(l: Ledger, calls: seq<Call>, more: seq<Call>)
    requires Replay(l, calls + more).Ok?
    ensures Replay(l, calls).Ok? && Succeeds(Replay(l, calls).value, Replay(l, calls + more).value)
  {
    hide MergeLedger, Follows;
    if more == [] {
      assert calls + more == calls;
      SourcesFollowRefl(Replay(l, calls).value.sources);
    } else {
      var init, last := more[..|more| - 1], more[|more| - 1];
      assert (calls + more)[..|calls + more| - 1] == calls + init;
      ReplayExtends(l, calls, init);
      MergeSucceeds(Replay(l, calls + init).value, last);
      SucceedsTransitive(Replay(l, calls).value, Replay(l, calls + init).value, Replay(l, calls + more).value);
    }
  }

  /** Writers stay, with their calls and once they are done with their result, and the log only grows. */
  ghost predicate Extends(w: World, n: World) {
    && |w.writers| <= |n.writers| && w.log <= n.log
    && forall i | 0 <= i < |w.writers| ::
         && n.writers[i].call == w.writers[i].call
         && (w.writers[i].phase.Done? ==> n.writers[i] == w.writers[i])
  }

  lemma {:induction false} StepsExtend(w: World, more: seq<Action>)
    ensures Extends(w, Steps(w, more))
  {
    if more != [] {
      StepsExtend(w, more[..|more| - 1]);
      StepExtends(Steps(w, more[..|more| - 1]), more[|more| - 1]);
    }
  }

  lemma StepExtends(w: World, action: Action)
    ensures Extends(w, Step(w, action))
  {
    hide MergeOnce;
  }

  lemma {:induction false} StepsJoin(w: World, some: seq<Action>, more: seq<Action>)
    ensures Steps(w, some + more) == Steps(Steps(w, some), more)
  {
    hide Step;
    if more == [] {
      assert some + more == some;
    } else {
      StepsJoin(w, some, more[..|more| - 1]);
      assert (some + more)[..|some + more| - 1] == some + more[..|more| - 1];
    }
  }

  lemma CallsExtend(w: World, n: World)
    requires Logged(w) && Logged(n) && Extends(w, n)
    ensures CallsOf(n) == CallsOf(w) + CallsOf(n)[|CallsOf(w)|..]
  {
  }

  /**
   * Between any two states of the object, the later reached from the earlier by whatever steps of whatever
   * merges: no run and no event is gone, every row is unchanged or a contradicted alert, an alert has stayed an
   * alert, and counts once contradicted have stayed unknown.
   */
  lemma NothingTakenBack(l: Ledger, generation: nat, payload: Option<Payload>, actions: seq<Action>, more: seq<Action>)
    requires Reads(payload, l) && forall a | a in actions + more :: GoodAction(a)
    ensures var w := Steps(Opened(generation, payload), actions);
      var n := Steps(Opened(generation, payload), actions + more);
      && Logged(w) && Replay(l, CallsOf(w)).Ok? && Decode(w.payload, false) == Ok(LedgerOf(w, l))
      && Logged(n) && Replay(l, CallsOf(n)).Ok? && Decode(n.payload, false) == Ok(LedgerOf(n, l))
      && Succeeds(LedgerOf(w, l), LedgerOf(n, l))
      && Extends(w, n)
  {
    assert forall a | a in actions :: a in actions + more;
    OneHistory(l, generation, payload, actions);
    OneHistory(l, generation, payload, actions + more);
    StepsJoin(Opened(generation, payload), actions, more);
    StepsExtend(Steps(Opened(generation, payload), actions), more);
    var w, n := Steps(Opened(generation, payload), actions), Steps(Opened(generation, payload), actions + more);
    CallsExtend(w, n);
    hide Steps, Decode, Replay, Extends, CallsOf, Succeeds;
    ReplayExtends(l, CallsOf(w), CallsOf(n)[|CallsOf(w)|..]);
  }

  /**
   * Durability. Once a merge has returned true, its run ids and its events are in that state of the object and
   * in every later one.
   */
  lemma MergedStays(l: Ledger, generation: nat, payload: Option<Payload>, actions: seq<Action>, more: seq<Action>, i: nat)
    requires Reads(payload, l) && forall a | a in actions + more :: GoodAction(a)
    ensures var w := Steps(Opened(generation, payload), actions);
      var n := Steps(Opened(generation, payload), actions + more);
      i < |w.writers| && w.writers[i].phase == Done(Ok(true)) ==>
        && Decode(n.payload, false).Ok?
        && var later := Decode(n.payload, false).value;
           && (forall x | x in w.writers[i].call.rows :: x.runId in later.sources)
           && (forall fact | fact in w.writers[i].call.events :: Holds(later.facts, fact))
           && Succeeds(l, later)
  {
    NothingTakenBack(l, generation, payload, actions, more);
    OneHistory(l, generation, payload, actions + more);
    var w, n := Steps(Opened(generation, payload), actions), Steps(Opened(generation, payload), actions + more);
    hide Replay, Decode, MergeLedger, Steps, Succeeds, Holds;
    if i < |w.writers| && w.writers[i].phase == Done(Ok(true)) {
      assert n.writers[i] == w.writers[i];
      var k :| 0 <= k < |n.log| && n.log[k] == i;
      assert CallsOf(n)[k] == w.writers[i].call;
      ReplaySucceeds(l, CallsOf(n), k);
    }
  }

  lemma MergePublishes(previous: Option<Payload>, l: Ledger, call: Call)
    requires Reads(previous, l) && MergeOnce(previous, call).Ok?
    ensures MergeLedger(l, call).Ok? && MergeOnce(previous, call) == Ok(Publish(MergeLedger(l, call).value, call.idle))
  {
  }

  /** Where there are runs, the published list is one row for each of them. */
  lemma PublishesRuns(l: Ledger, idle: Option<Published>)
    requires l.sources != map[]
    ensures var runs := Publish(l, idle).runs;
      && |runs| == |l.sources|
      && forall k | 0 <= k < |runs| :: runs[k] == PublishedRow(l, Sorted(l.sources.Keys)[k])
  {
    hide EventsOf;
    assert |l.sources.Keys| == |l.sources|;
  }

  lemma PublishesRun(l: Ledger, idle: Option<Published>, id: string)
    requires id in l.sources
    ensures exists p :: p in Publish(l, idle).runs && p.sourceRunId == Some(id) && p.row == l.sources[id]
  {
    hide EventsOf;
    PublishesRuns(l, idle);
    var ids := Sorted(l.sources.Keys);
    assert id in ids;
    var k :| 0 <= k < |ids| && ids[k] == id;
    assert Publish(l, idle).runs[k] == PublishedRow(l, id);
  }

  /**
   * A run once in the ledger keeps every placeholder out: each merge lists exactly the runs of the merged ledger,
   * the earlier ones among them, one row each.
   */
  lemma IdleNeverReplacesRuns(previous: Option<Payload>, l: Ledger, call: Call)
    requires Reads(previous, l) && l.sources != map[] && MergeOnce(previous, call).Ok?
    ensures MergeLedger(l, call).Ok?
    ensures var runs, n := MergeOnce(previous, call).value.runs, MergeLedger(l, call).value;
      && l.sources.Keys <= n.sources.Keys
      && |runs| == |n.sources|
      && (forall k | 0 <= k < |runs| ::
            runs[k].sourceRunId.Some? && runs[k].sourceRunId.value in n.sources
            && runs[k].row == n.sources[runs[k].sourceRunId.value])
      && (forall j, k | 0 <= j < k < |runs| :: runs[j].sourceRunId != runs[k].sourceRunId)
      && (forall id | id in n.sources :: exists p :: p in runs && p.sourceRunId == Some(id))
  {
    MergePublishes(previous, l, call);
    MergeSucceeds(l, call);
    var n := MergeLedger(l, call).value;
    var id :| id in l.sources;
    assert id in n.sources;
    assert forall id | id in l.sources :: id in n.sources;
    hide *;
    PublishesIds(n, call.idle);
    forall id | id in n.sources
      ensures exists p :: p in Publish(n, call.idle).runs && p.sourceRunId == Some(id)
    {
      PublishesRun(n, call.idle, id);
    }
  }

  lemma PublishesIds(l: Ledger, idle: Option<Published>)
    requires l.sources != map[]
    ensures var runs := Publish(l, idle).runs;
      && |runs| == |l.sources|
      && (forall k | 0 <= k < |runs| ::
            runs[k].sourceRunId.Some? && runs[k].sourceRunId.value in l.sources
            && runs[k].row == l.sources[runs[k].sourceRunId.value])
      && (forall j, k | 0 <= j < k < |runs| :: runs[j].sourceRunId != runs[k].sourceRunId)
  {
    PublishesRuns(l, idle);
    var ids := Sorted(l.sources.Keys);
    assert |ids| == |l.sources.Keys| == |l.sources|;
    hide EventsOf, Sorted, Publish;
  }

  lemma {:induction false} DeliveredBy(l: Ledger, calls: seq<Call>, id: string, x: Row)
    ensures x in Delivered(l, calls, id) <==>
              x in SnapsHeld(l, id) || exists call :: call in calls && x in SnapsOf(call.rows, id)
  {
    if calls != [] {
      var init, last := calls[..|calls| - 1], calls[|calls| - 1];
      assert calls == init + [last];
      DeliveredBy(l, init, id, x);
    }
  }

  lemma {:induction false} ReportedBy(l: Ledger, calls: seq<Call>, fact: Fact)
    ensures Reported(l, calls, fact) <==> Holds(l.facts, fact) || exists call :: call in calls && fact in call.events
  {
    if calls != [] {
      var init, last := calls[..|calls| - 1], calls[|calls| - 1];
      assert calls == init + [last];
      ReportedBy(l, init, fact);
    }
  }

  /**
   * Two interleavings that start from the same object and in which the same calls took effect, in any order and
   * any number of times each, leave objects that read alike: the same runs, events, statuses, counts and times.
   */
  lemma InterleavingsConverge(l: Ledger, generation: nat, payload: Option<Payload>, a: seq<Action>, b: seq<Action>)
    requires Reads(payload, l) && forall x | x in a + b :: GoodAction(x)
    requires var p, q := Steps(Opened(generation, payload), a), Steps(Opened(generation, payload), b);
      Logged(p) && Logged(q) && forall call :: call in CallsOf(p) <==> call in CallsOf(q)
    ensures var p := Decode(Steps(Opened(generation, payload), a).payload, false);
      var q := Decode(Steps(Opened(generation, payload), b).payload, false);
      && p.Ok? && q.Ok?
      && p.value.sources.Keys == q.value.sources.Keys && p.value.facts == q.value.facts
      && forall id | id in p.value.sources :: SameView(p.value.sources[id], q.value.sources[id])
  {
    assert forall x | x in a :: x in a + b;
    assert forall x | x in b :: x in a + b;
    OneHistory(l, generation, payload, a);
    OneHistory(l, generation, payload, b);
    var p, q := CallsOf(Steps(Opened(generation, payload), a)), CallsOf(Steps(Opened(generation, payload), b));
    hide Steps, Decode, Replay, MergeLedger, CallsOf, SameView;
    forall id: string ensures Delivered(l, p, id) == Delivered(l, q, id) {
      forall x ensures x in Delivered(l, p, id) <==> x in Delivered(l, q, id) {
        DeliveredBy(l, p, id, x);
        DeliveredBy(l, q, id, x);
      }
    }
    forall fact: Fact ensures Reported(l, p, fact) <==> Reported(l, q, fact) {
      ReportedBy(l, p, fact);
      ReportedBy(l, q, fact);
    }
    Convergence(l, p, q);
  }
}
