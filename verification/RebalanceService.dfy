/**
 * The persistence frame around one cycle: the duplicate check before it, the planned state, the submission
 * claim, the result that replaces a refused cycle, and the completed state after it.
 */
module RebalanceService {
  import opened Wrappers
  import opened Broker
  import opened Planner
  import opened StateKeys
  import opened StateStore
  import opened ExecutionService
  import opened ClaimProtocol

  // ----- a callback that remembers its claim -----

  /** Nothing is refused after a request, and without a grant nothing live is sent. */
  predicate ClaimFirst(s: Setup, first: Admission, m: Machine) {
    && (m.requests == [] ==> m.submitted == [])
    && (m.stage == Ended(ClaimRefused) ==> m.requests == [] && first == Denied && !s.dryRun)
    && (!s.dryRun && first != Granted ==> m.requests == [])
  }

  lemma ApplyClaimFirst(s: Setup, first: Admission, m: Machine, c: Change)
    requires Fits(m, c) && !m.stage.Ended? && ClaimFirst(s, first, m)
    requires c.Deny? ==> m.requests == [] && first == Denied && !s.dryRun
    requires c.Settle? ==> s.dryRun || first == Granted
    ensures ClaimFirst(s, first, Apply(m, c))
  {
  }

  lemma AnswerClaimFirst(s: Setup, env: Env, first: Admission, m: Machine)
    requires Quoted(m) && !m.stage.Ended? && ClaimFirst(s, first, m)
    ensures ClaimFirst(s, first, After(s, m, Answer(s, WithClaim(env, first), m)))
  {
    var world := WithClaim(env, first);
    RunUnfolds(s, world, m);
    var e := Answer(s, world, m);
    var c := ChangeOf(s, m, e);
    assert c.Settle? ==> Admit(s, world, |m.requests|) == Granted;
    assert c.Deny? ==> Admit(s, world, |m.requests|) == Denied;
    hide *;
    AdmitFirst(s, env, first, |m.requests|);
    assert |m.requests| == 0 <==> m.requests == [];
    ApplyClaimFirst(s, first, m, c);
  }

  lemma AdmitFirst(s: Setup, env: Env, first: Admission, call: nat)
    ensures Admit(s, WithClaim(env, first), call)
         == if s.dryRun || call > 0 then Granted else first
  {
  }

  lemma {:induction false} RunClaimFirst(s: Setup, env: Env, first: Admission, m: Machine)
    requires Quoted(m) && ClaimFirst(s, first, m)
    ensures ClaimFirst(s, first, Run(s, WithClaim(env, first), m))
    decreases Left(m)
  {
    RunUnfolds(s, WithClaim(env, first), m);
    hide *;
    if !m.stage.Ended? {
      AnswerClaimFirst(s, env, first, m);
      RunClaimFirst(s, env, first, After(s, m, Answer(s, WithClaim(env, first), m)));
    }
  }

  /**
   * With the service's own callback a claim is refused only before the first request, so the result that then
   * replaces the submitted orders by an empty list drops none. Unless the claim was granted, a live cycle sends
   * nothing.
   */
  lemma RefusalDropsNothing(s: Setup, env: Env, first: Admission)
    ensures var m := Cycle(s, WithClaim(env, first));
      && (m.stage.ending == ClaimRefused ==> !s.dryRun && first == Denied && m.requests == [] && m.submitted == [])
      && (!s.dryRun && first != Granted ==> m.requests == [] && m.submitted == [])
  {
    var m := CycleStarts(s, WithClaim(env, first));
    hide Run, ScanAll, Cycle;
    RunClaimFirst(s, env, first, m);
  }

  // ----- state and history -----

  /** What persisting one state leaves behind; the history write is tried only after the state write. */
  function Persisted(objects: Objects, run: RunId, dryRun: bool, entry: string, doc: Doc, state: Fault, history: Fault)
    : Objects
  {
    var first := if state == FailsBefore then objects else objects[StateKey(run, dryRun) := doc];
    if state != NoFault || history == FailsBefore then first else first[HistoryKey(run, dryRun, entry) := doc]
  }

  lemma PersistedSparesClaims(objects: Objects, run: RunId, dryRun: bool, entry: string, doc: Doc, state: Fault, history: Fault)
    ensures ClaimsKept(objects, Persisted(objects, run, dryRun, entry, doc, state, history))
    ensures forall claim: RunId | ClaimKey(claim) !in objects ::
              ClaimKey(claim) !in Persisted(objects, run, dryRun, entry, doc, state, history)
  {
    forall claim: RunId
      ensures ClaimKey(claim) != StateKey(run, dryRun) && ClaimKey(claim) != HistoryKey(run, dryRun, entry)
    {
      ClaimsAreApart(claim, run, dryRun, entry);
    }
  }

  method PersistState(store: Store, run: RunId, dryRun: bool, entry: string, doc: Doc, state: Fault, history: Fault)
    returns (r: Result<bool, StoreError>)
    modifies store
    ensures store.objects == Persisted(old(store.objects), run, dryRun, entry, doc, state, history)
    ensures r == if state == NoFault && history == NoFault then Ok(true) else Err(WriteFailed)
  {
    r := store.WriteJson(StateKey(run, dryRun), doc, state);
    if r.Ok? {
      r := store.WriteJson(HistoryKey(run, dryRun, entry), doc, history);
    }
  }

  // ----- the cycle -----

  /** How each access to the store goes, and the dated names of the history records. */
  datatype Accesses = Accesses(
    readLatest: Fault, readClaim: Fault, create: CreateFault, reread: Fault,
    plannedState: Fault, plannedHistory: Fault, finalState: Fault, finalHistory: Fault,
    plannedEntry: string, finalEntry: string)

  /** What the stage rules outside this model decide: which stages are terminal, which skips block. */
  datatype Rules = Rules(plannedTerminal: bool, terminal: CycleResult -> bool, blocks: seq<Skip> -> bool)

  datatype RunReport =
    | DuplicateRun(claimBlocks: bool, persisted: bool)
    | RefusedRun(submitted: seq<Submission>, skipped: seq<Skip>)
    | FinishedRun(result: CycleResult, blocked: bool, retryable: bool, persisted: bool)
    | FailedRun

  predicate Blocked(objects: Objects, run: RunId) {
    HasEffectiveClaim(Lookup(objects, ClaimKey(run))) || IsDuplicateRun(Lookup(objects, StateKey(run, false)))
  }

  /** In the fields of the stored objects: a claim of the current boundary, or a live state of a terminal stage. */
  lemma BlockedExactly(objects: Objects, run: RunId)
    ensures Blocked(objects, run) <==>
              || (ClaimKey(run) in objects && objects[ClaimKey(run)].boundary == PreBrokerRequestV2)
              || (StateKey(run, false) in objects
                  && !objects[StateKey(run, false)].dryRun && objects[StateKey(run, false)].terminal)
  {
    hide ClaimKey, StateKey;
  }

  /** The claim is held from now on, exactly as this cycle created it. */
  predicate ClaimTaken(before: Objects, after: Objects, run: RunId) {
    ClaimKey(run) !in before && HasEffectiveClaim(Lookup(after, ClaimKey(run)))
  }

  /** The store when the orders begin: the planned state is written, or at least tried. */
  function Prepared(objects: Objects, run: RunId, s: Setup, persist: bool, accesses: Accesses, rules: Rules): Objects {
    if !persist then objects
    else Persisted(objects, run, s.dryRun, accesses.plannedEntry, Doc(NoBoundary, s.dryRun, rules.plannedTerminal),
                   accesses.plannedState, accesses.plannedHistory)
  }

  /** The store after a cycle that finished: its claim if it sent anything live, and the completed state. */
  function Completed(objects: Objects, run: RunId, s: Setup, persist: bool, accesses: Accesses, sent: bool, terminal: bool)
    : Objects
  {
    var claimed := if sent && !s.dryRun then objects[ClaimKey(run) := CLAIM_DOC] else objects;
    if !persist then claimed
    else Persisted(claimed, run, s.dryRun, accesses.finalEntry, Doc(NoBoundary, s.dryRun, terminal),
                   accesses.finalState, accesses.finalHistory)
  }

  /** A run that is blocked stays blocked: the duplicate's own state is again a terminal one. */
  method CheckDuplicate(store: Store, run: RunId, accesses: Accesses) returns (stop: Option<RunReport>)
    modifies store
    ensures accesses.readLatest != NoFault || accesses.readClaim != NoFault ==> stop == Some(FailedRun)
    ensures accesses.readLatest == NoFault && accesses.readClaim == NoFault ==>
              && (stop.Some? ==> stop.value.DuplicateRun?)
              && (stop.Some? <==>
                    || (ClaimKey(run) in old(store.objects)
                        && old(store.objects)[ClaimKey(run)].boundary == PreBrokerRequestV2)
                    || (StateKey(run, false) in old(store.objects)
                        && !old(store.objects)[StateKey(run, false)].dryRun
                        && old(store.objects)[StateKey(run, false)].terminal))
    ensures stop.Some? && stop.value.DuplicateRun? ==> Blocked(store.objects, run)
    ensures stop.None? || stop == Some(FailedRun) ==> store.objects == old(store.objects)
    ensures ClaimsKept(old(store.objects), store.objects)
  {
    BlockedExactly(store.objects, run);
    var latest := store.ReadJson(StateKey(run, false), accesses.readLatest);
    if latest.Err? {
      return Some(FailedRun);
    }
    var claim := store.ReadJson(ClaimKey(run), accesses.readClaim);
    if claim.Err? {
      return Some(FailedRun);
    }
    var claimBlocks := HasEffectiveClaim(claim.value);
    if !claimBlocks && !IsDuplicateRun(latest.value) {
      return None;
    }
    var persisted := false;
    if !claimBlocks {
      var duplicate := Doc(NoBoundary, false, true);
      PersistedSparesClaims(store.objects, run, false, accesses.plannedEntry, duplicate,
                            accesses.plannedState, accesses.plannedHistory);
      DuplicateStays(store.objects, run, accesses.plannedEntry, accesses.plannedState, accesses.plannedHistory);
      var saved := PersistState(store, run, false, accesses.plannedEntry, duplicate,
                                accesses.plannedState, accesses.plannedHistory);
      persisted := saved.Ok?;
    }
    stop := Some(DuplicateRun(claimBlocks, persisted));
  }

  lemma DuplicateStays(objects: Objects, run: RunId, entry: string, state: Fault, history: Fault)
    requires IsDuplicateRun(Lookup(objects, StateKey(run, false)))
    ensures IsDuplicateRun(Lookup(Persisted(objects, run, false, entry, Doc(NoBoundary, false, true), state, history),
                                  StateKey(run, false)))
  {
    hide StateKey, HistoryKey;
  }

  lemma CompletedClaims(objects: Objects, run: RunId, s: Setup, persist: bool, accesses: Accesses, sent: bool, terminal: bool)
    requires sent && !s.dryRun ==> ClaimKey(run) !in objects
    ensures var after := Completed(objects, run, s, persist, accesses, sent, terminal);
      ClaimsKept(objects, after) && (sent && !s.dryRun ==> ClaimTaken(objects, after, run))
  {
    var claimed := if sent && !s.dryRun then objects[ClaimKey(run) := CLAIM_DOC] else objects;
    PersistedSparesClaims(claimed, run, s.dryRun, accesses.finalEntry, Doc(NoBoundary, s.dryRun, terminal),
                          accesses.finalState, accesses.finalHistory);
    hide ClaimKey, Persisted;
  }

  /** A run that was not blocked is blocked the next time exactly if it sent something or its own state is terminal. */
  lemma RetryExactly(objects: Objects, run: RunId, s: Setup, accesses: Accesses, rules: Rules, sent: bool, terminal: bool)
    requires !Blocked(objects, run) && !s.dryRun && accesses.finalState != FailsBefore
    ensures var before := Prepared(objects, run, s, true, accesses, rules);
      Blocked(Completed(before, run, s, true, accesses, sent, terminal), run) <==> sent || terminal
  {
    var before := Prepared(objects, run, s, true, accesses, rules);
    ClaimsAreApart(run, run, false, accesses.plannedEntry);
    ClaimsAreApart(run, run, false, accesses.finalEntry);
    hide ClaimKey, StateKey, HistoryKey;
    assert Lookup(before, ClaimKey(run)) == Lookup(objects, ClaimKey(run));
  }

  lemma KeptJoin(a: Objects, b: Objects, c: Objects)
    requires ClaimsKept(a, b) && ClaimsKept(b, c)
    ensures ClaimsKept(a, c)
  {
    hide ClaimKey;
  }

  lemma PreparedSparesClaims(objects: Objects, run: RunId, s: Setup, persist: bool, accesses: Accesses, rules: Rules)
    ensures var before := Prepared(objects, run, s, persist, accesses, rules);
      ClaimsKept(objects, before) && (ClaimKey(run) !in objects ==> ClaimKey(run) !in before)
  {
    PersistedSparesClaims(objects, run, s.dryRun, accesses.plannedEntry, Doc(NoBoundary, s.dryRun, rules.plannedTerminal),
                          accesses.plannedState, accesses.plannedHistory);
    hide ClaimKey, Persisted;
  }

  method RunStrategyCycle(store: Store, run: RunId, s: Setup, env: Env, persist: bool, accesses: Accesses, rules: Rules)
    returns (report: RunReport, requests: seq<Request>)
    modifies store
    ensures report.DuplicateRun? <==>
              && persist && !s.dryRun && accesses.readLatest == NoFault && accesses.readClaim == NoFault
              && (|| (ClaimKey(run) in old(store.objects)
                      && old(store.objects)[ClaimKey(run)].boundary == PreBrokerRequestV2)
                  || (StateKey(run, false) in old(store.objects)
                      && !old(store.objects)[StateKey(run, false)].dryRun
                      && old(store.objects)[StateKey(run, false)].terminal))
    ensures report.DuplicateRun? ==> requests == [] && Blocked(store.objects, run)
    ensures report.RefusedRun? ==> requests == [] && report.submitted == [] && !s.dryRun
    ensures report.FinishedRun? && !s.dryRun ==> (report.retryable <==> requests == [])
    ensures !s.dryRun && requests != [] ==> ClaimTaken(old(store.objects), store.objects, run)
    ensures report.FinishedRun? || report.RefusedRun? ==>
              var before := Prepared(old(store.objects), run, s, persist, accesses, rules);
              var m := Cycle(s, WithClaim(env, FirstAnswer(persist, before, ClaimKey(run), accesses.create)));
              && requests == m.requests
              && ResultOf(m).Some?
              && (report.RefusedRun? ==> m.stage.ending == ClaimRefused && m.submitted == [] && report.skipped == m.skipped)
              && (report.FinishedRun? ==>
                    && ResultOf(m).value == report.result
                    && report.blocked == rules.blocks(report.result.skipped)
                    && store.objects == Completed(before, run, s, persist, accesses, requests != [],
                                                  rules.terminal(report.result)))
    ensures report.FinishedRun? && persist && !s.dryRun && accesses.finalState != FailsBefore ==>
              (Blocked(store.objects, run) <==> requests != [] || rules.terminal(report.result))
    ensures ClaimsKept(old(store.objects), store.objects)
  {
    BlockedExactly(store.objects, run);
    if persist && !s.dryRun {
      var stop := CheckDuplicate(store, run, accesses);
      if stop.Some? {
        return stop.value, [];
      }
    }
    PreparedSparesClaims(store.objects, run, s, persist, accesses, rules);
    var planned := false;
    if persist {
      var saved := PersistState(store, run, s.dryRun, accesses.plannedEntry,
                                Doc(NoBoundary, s.dryRun, rules.plannedTerminal),
                                accesses.plannedState, accesses.plannedHistory);
      planned := saved.Ok?;
    }
    report, requests := RunPrepared(store, run, s, env, persist, accesses, rules, planned);
    if report.FinishedRun? && persist && !s.dryRun && accesses.finalState != FailsBefore {
      RetryExactly(old(store.objects), run, s, accesses, rules, requests != [], rules.terminal(report.result));
    }
    KeptJoin(old(store.objects), Prepared(old(store.objects), run, s, persist, accesses, rules), store.objects);
  }

  /** From the planned state on: the claim callback, the orders, and the report with the completed state. */
  method RunPrepared(store: Store, run: RunId, s: Setup, env: Env, persist: bool, accesses: Accesses, rules: Rules,
                     planned: bool)
    returns (report: RunReport, requests: seq<Request>)
    modifies store
    ensures !report.DuplicateRun?
    ensures report.RefusedRun? ==> requests == [] && report.submitted == [] && !s.dryRun
    ensures report.FinishedRun? && !s.dryRun ==> (report.retryable <==> requests == [])
    ensures !s.dryRun && requests != [] ==> ClaimTaken(old(store.objects), store.objects, run)
    ensures report.FinishedRun? || report.RefusedRun? ==>
              var m := Cycle(s, WithClaim(env, FirstAnswer(persist, old(store.objects), ClaimKey(run), accesses.create)));
              && requests == m.requests
              && ResultOf(m).Some?
              && (report.RefusedRun? ==> m.stage.ending == ClaimRefused && m.submitted == [] && report.skipped == m.skipped)
              && (report.FinishedRun? ==>
                    && ResultOf(m).value == report.result
                    && report.blocked == rules.blocks(report.result.skipped)
                    && store.objects == Completed(old(store.objects), run, s, persist, accesses, requests != [],
                                                  rules.terminal(report.result)))
    ensures ClaimsKept(old(store.objects), store.objects)
  {
    hide ClaimKey, StateKey, HistoryKey, Cycle;
    ghost var first := FirstAnswer(persist, store.objects, ClaimKey(run), accesses.create);
    var claim := new SubmissionClaim(store, run, persist, accesses.create);
    var result;
    ghost var m;
    result, requests, m := ExecuteValueTargetPlan(s, env, claim);
    RefusalDropsNothing(s, env, first);
    if result.None? {
      return FailedRun, requests;
    }
    if result.value.idempotencyBlocked {
      var latest := store.ReadJson(StateKey(run, false), accesses.reread);
      if latest.Err? {
        return FailedRun, requests;
      }
      return RefusedRun([], result.value.skipped), requests;
    }
    var terminal := rules.terminal(result.value);
    CompletedClaims(old(store.objects), run, s, persist, accesses, requests != [], terminal);
    var persisted := planned;
    if persist {
      var saved := PersistState(store, run, s.dryRun, accesses.finalEntry, Doc(NoBoundary, s.dryRun, terminal),
                                accesses.finalState, accesses.finalHistory);
      persisted := saved.Ok?;
    }
    report := FinishedRun(result.value, rules.blocks(result.value.skipped), !claim.acquired, persisted);
  }
}
