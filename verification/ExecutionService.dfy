/**
 * The planner as the service runs it: passes over the symbols that update its lists and its cash in place.
 * Each pass is proved to leave the run of module `Planner` where that run would be.
 */
module ExecutionService {
  import opened Wrappers
  import opened Ordering
  import opened Money
  import opened Broker
  import opened Planner
  import opened HaltOnUnknown
  import opened StateStore

  /** The callback of one cycle: its first answer stands, and later calls find the claim held. */
  function ClaimAnswers(first: Admission): nat -> Admission {
    (call: nat) => if call == 0 then first else Granted
  }

  function WithClaim(env: Env, first: Admission): Env {
    env.(claim := ClaimAnswers(first))
  }

  // ----- one step of a run -----

  /** The machine after the claim callback and, if it grants, the broker have answered. */
  function Asked(env: Env, m: Machine, request: Request, cost: real, a: Admission): Machine
    requires Pending(m)
  {
    match a
    case Granted => Settled(m, request, cost, OutcomeOf(env.broker(m.requests + [request])))
    case Denied => Apply(m, Deny)
    case Raises => Apply(m, Abandon)
  }

  /** The symbol at the head is skipped, or its order goes out. */
  function HeadStep(s: Setup, env: Env, m: Machine, choice: Choice): Machine
    requires Pending(m)
  {
    match choice
    case Pass(reason) => Apply(m, SkipHead(reason))
    case Place(request, cost) => Asked(env, m, request, cost, Admit(s, env, |m.requests|))
  }

  lemma RunHead(s: Setup, env: Env, m: Machine)
    requires Quoted(m) && Pending(m)
    ensures var n := HeadStep(s, env, m, HeadChoice(s, m));
      Quoted(n) && Run(s, env, m) == if n.stage.Ended? then n else Run(s, env, n)
  {
    hide BuyChoice, SellChoice;
    var n := After(s, m, Answer(s, env, m));
    assert n.stage.Ended? ==> Run(s, env, n) == n;
  }

  lemma QuietStep(s: Setup, env: Env, m: Machine)
    requires Quoted(m) && !m.stage.Ended? && !Pending(m)
    ensures var n := if m.stage.Selling? then m.(stage := Gating)
                     else if m.stage.Buying? then m.(stage := Ended(Completed))
                     else
                       var released := env.release(m.acceptedSells);
                       var cash := CashWith(s, released);
                       Apply(m, PassGate(cash, released, GateVerdict(s, m, cash)));
      Quoted(n) && Run(s, env, m) == Run(s, env, n)
  {
    var n := After(s, m, Answer(s, env, m));
    assert Quoted(n);
  }

  lemma EndedStays(s: Setup, env: Env, m: Machine)
    requires Quoted(m) && m.stage.Ended?
    ensures Run(s, env, m) == m
  {
  }

  lemma ScanNext(s: Setup, quote: Quote, symbols: seq<string>, i: int)
    requires 0 <= i < |symbols|
    ensures Scan(s, quote, symbols[..i + 1]) == ScanOne(s, quote, Scan(s, quote, symbols[..i]), symbols[i])
  {
    assert symbols[..i + 1][..i] == symbols[..i];
  }

  lemma ChoicesName(s: Setup, d: Delta, cash: real, allowTopUp: bool)
    ensures var choice := BuyChoice(s, d, cash, allowTopUp); choice.Place? ==> choice.request.symbol == d.symbol
    ensures d.price > 0.0 ==> var choice := SellChoice(s, d); choice.Place? ==> choice.request.symbol == d.symbol
  {
  }

  /** Why the cycle ends after an order, if it does. */
  function StopAfter(a: Admission, outcome: Outcome): Option<Ending> {
    if a == Denied then Some(ClaimRefused)
    else if a == Raises || outcome.CallRaised? then Some(Failed)
    else if outcome.OrderUnknown? then Some(Uncertain)
    else None
  }

  /** The books after an answer, field by field. */
  lemma AnswerEffect(env: Env, m: Machine, request: Request, cost: real, a: Admission, outcome: Outcome, n: Machine)
    requires Pending(m) && request.symbol == m.stage.rest[0].symbol
    requires outcome == if a == Granted then OutcomeOf(env.broker(m.requests + [request])) else CallRaised
    requires n.stage == match StopAfter(a, outcome) case Some(ending) => Ended(ending) case None => StageAfter(m.stage)
    requires n.buys == m.buys && n.opening == m.opening && n.released == m.released
    requires n.requests == if a == Granted then m.requests + [request] else m.requests
    requires n.submitted == if outcome.OrderAccepted? || outcome.OrderUnknown?
                            then m.submitted + [Submission(request, outcome.status)] else m.submitted
    requires n.skipped == if a == Denied then m.skipped + [Skip(request.symbol, DuplicateLiveRun, None)]
                          else if outcome.OrderRejected?
                          then m.skipped + [Skip(request.symbol, outcome.reason, Some(request))] else m.skipped
    requires n.pendingSells == if m.stage.Selling? && !outcome.CallRaised?
                               then m.pendingSells + [request.symbol] else m.pendingSells
    requires n.acceptedSells == if m.stage.Selling? && outcome.OrderAccepted?
                                then m.acceptedSells + [Submission(request, outcome.status)] else m.acceptedSells
    requires n.cash == if m.stage.Buying? && outcome.OrderAccepted? then Max(0.0, m.cash - cost) else m.cash
    ensures n == Asked(env, m, request, cost, a)
  {
  }

  // ----- the service -----

  class ExecutionCycle {
    const s: Setup
    const env: Env
    const claim: SubmissionClaim
    ghost const first: Admission
    ghost const initial: Objects
    var submitted: seq<Submission>
    var skipped: seq<Skip>
    var pendingSells: seq<string>
    var acceptedSells: seq<Submission>
    var cash: real
    var requests: seq<Request>
    ghost var opening: real
    ghost var released: real

    constructor (s: Setup, env: Env, claim: SubmissionClaim)
      requires !claim.acquired
      ensures Valid()
      ensures this.s == s && this.env == env && this.claim == claim
      ensures first == FirstAnswer(claim.persist, claim.store.objects, claim.key, claim.fault)
      ensures initial == claim.store.objects
      ensures submitted == [] && skipped == [] && pendingSells == [] && acceptedSells == [] && requests == []
      ensures cash == opening == CashWith(s, 0.0) && released == 0.0
    {
      this.s := s;
      this.env := env;
      this.claim := claim;
      this.first := FirstAnswer(claim.persist, claim.store.objects, claim.key, claim.fault);
      this.initial := claim.store.objects;
      submitted, skipped, pendingSells, acceptedSells, requests := [], [], [], [], [];
      cash := CashWith(s, 0.0);
      opening := CashWith(s, 0.0);
      released := 0.0;
    }

    /** As long as orders may follow: the claim is held exactly when a live request has gone out. */
    ghost predicate Valid()
      reads this, claim, claim.store
    {
      && first == FirstAnswer(claim.persist, initial, claim.key, claim.fault)
      && (s.dryRun || requests == [] ==> !claim.acquired && claim.store.objects == initial)
      && (!s.dryRun && requests != [] ==>
            && claim.acquired && claim.persist && first == Granted
            && claim.store.objects == Created(initial, claim.key, CLAIM_DOC, claim.fault))
    }

    /** After the callback refused or raised: nothing was sent, and the object was left alone or created. */
    ghost predicate Over()
      reads this, claim, claim.store
    {
      && !s.dryRun && requests == [] && !claim.acquired && first != Granted
      && first == FirstAnswer(claim.persist, initial, claim.key, claim.fault)
      && claim.store.objects == if claim.persist then Created(initial, claim.key, CLAIM_DOC, claim.fault) else initial
    }

    ghost function World(): Env {
      WithClaim(env, first)
    }

    ghost function View(stage: Stage, buys: seq<Delta>): Machine
      reads this
    {
      Machine(stage, buys, submitted, skipped, pendingSells, acceptedSells, cash, opening, released, requests)
    }

    /** Accepted and unknown orders are submitted, rejected ones skipped with the reason. */
    method RecordOrderResult(request: Request, reply: Reply) returns (outcome: Outcome)
      requires reply.Report?
      modifies this`submitted, this`skipped
      ensures outcome == OutcomeOf(reply)
      ensures submitted == if outcome.OrderRejected? then old(submitted)
                           else old(submitted) + [Submission(request, reply.status)]
      ensures skipped == if outcome.OrderRejected? then old(skipped) + [Skip(request.symbol, outcome.reason, Some(request))]
                         else old(skipped)
    {
      if Accepted(reply.status) {
        submitted := submitted + [Submission(request, reply.status)];
        return OrderAccepted(reply.status);
      }
      if Unknown(reply.status) {
        submitted := submitted + [Submission(request, reply.status)];
        return OrderUnknown(reply.status);
      }
      var reason := if reply.disclosureRefused then DisclosureRequired else BrokerRejected;
      skipped := skipped + [Skip(request.symbol, reason, Some(request))];
      outcome := OrderRejected(reason);
    }

    /** Ask the callback when the order is live, hand the order to the broker, and record what came back. */
    method Submit(request: Request) returns (a: Admission, outcome: Outcome)
      requires Valid()
      modifies this`requests, this`submitted, this`skipped, claim, claim.store
      ensures a == Admit(s, World(), |old(requests)|)
      ensures a == Granted ==> Valid() && requests == old(requests) + [request]
      ensures a == Granted ==> outcome == OutcomeOf(env.broker(requests))
      ensures a != Granted ==> Over() && requests == old(requests) && outcome == CallRaised
      ensures submitted == if outcome.OrderAccepted? || outcome.OrderUnknown?
                           then old(submitted) + [Submission(request, outcome.status)] else old(submitted)
      ensures skipped == if a == Denied then old(skipped) + [Skip(request.symbol, DuplicateLiveRun, None)]
                         else if outcome.OrderRejected?
                         then old(skipped) + [Skip(request.symbol, outcome.reason, Some(request))] else old(skipped)
    {
      a, outcome := Granted, CallRaised;
      if !s.dryRun {
        a := claim.Acquire();
      }
      if a == Denied {
        skipped := skipped + [Skip(request.symbol, DuplicateLiveRun, None)];
      } else if a == Granted {
        requests := requests + [request];
        var reply := env.broker(requests);
        if reply.Report? {
          outcome := RecordOrderResult(request, reply);
        }
      }
    }

    /** Quote every symbol of the targets and holdings; keep those that move. */
    method ScanSymbols() returns (deltas: seq<Delta>)
      requires skipped == []
      modifies this`skipped
      ensures Scanned(skipped, deltas) == ScanAll(s, env.quote)
    {
      var symbols := Sorted(Universe(s));
      assert ScanAll(s, env.quote) == Scan(s, env.quote, symbols);
      assert Scan(s, env.quote, symbols[..0]) == Scanned([], []);
      hide Sorted, Universe, Scan, ScanAll;
      deltas := [];
      for i := 0 to |symbols|
        invariant Scanned(skipped, deltas) == Scan(s, env.quote, symbols[..i])
      {
        var symbol := symbols[i];
        ScanNext(s, env.quote, symbols, i);
        var drift := Get(s.targets, symbol) - Get(s.marketValues, symbol);
        if Abs(drift) < s.threshold {
          skipped := skipped + [Skip(symbol, BelowTradeThreshold, None)];
          continue;
        }
        var price := QuotePrice(env.quote, symbol);
        if price.None? {
          skipped := skipped + [Skip(symbol, QuoteUnavailable, None)];
          continue;
        }
        deltas := deltas + [Delta(symbol, drift, price.value)];
      }
      assert symbols[..|symbols|] == symbols;
    }

    method Split(deltas: seq<Delta>) returns (sells: seq<Delta>, buys: seq<Delta>)
      ensures sells == Sells(deltas) && buys == Buys(deltas)
    {
      sells, buys := [], [];
      for i := 0 to |deltas|
        invariant sells == Sells(deltas[..i]) && buys == Buys(deltas[..i])
      {
        assert deltas[..i + 1][..i] == deltas[..i];
        if deltas[i].value < 0.0 {
          sells := sells + [deltas[i]];
        }
        if deltas[i].value > 0.0 {
          buys := buys + [deltas[i]];
        }
      }
      assert deltas[..|deltas|] == deltas;
    }

    /** Sell the head of `sells`; `stop` tells why the cycle ends here, if it does. */
    method SellOne(sells: seq<Delta>, ghost buys: seq<Delta>) returns (stop: Option<Ending>)
      requires Valid() && sells != [] && sells[0].price > 0.0
      modifies this`submitted, this`skipped, this`pendingSells, this`acceptedSells, this`requests, claim, claim.store
      ensures Valid() || (Over() && (stop == Some(ClaimRefused) || stop == Some(Failed)))
      ensures View(if stop.Some? then Ended(stop.value) else Selling(sells[1..]), buys)
           == HeadStep(s, World(), old(View(Selling(sells), buys)), SellChoice(s, sells[0]))
    {
      ChoicesName(s, sells[0], cash, false);
      hide SellChoice, BuyChoice, OutcomeOf, FirstAnswer, Created, Run, Asked, Settled;
      var choice := SellChoice(s, sells[0]);
      if choice.Pass? {
        pendingSells := pendingSells + [sells[0].symbol];
        skipped := skipped + [Skip(sells[0].symbol, choice.reason, None)];
        return None;
      }
      var a, outcome := Submit(choice.request);
      if !outcome.CallRaised? {
        pendingSells := pendingSells + [choice.request.symbol];
      }
      if outcome.OrderAccepted? {
        acceptedSells := acceptedSells + [Submission(choice.request, outcome.status)];
      }
      stop := StopAfter(a, outcome);
      AnswerEffect(World(), old(View(Selling(sells), buys)), choice.request, choice.cost, a, outcome,
                   View(if stop.Some? then Ended(stop.value) else Selling(sells[1..]), buys));
    }

    method SellPass(sells: seq<Delta>, ghost buys: seq<Delta>) returns (stop: Option<Ending>)
      requires Valid() && Priced(sells) && Priced(buys)
      modifies this`submitted, this`skipped, this`pendingSells, this`acceptedSells, this`requests, claim, claim.store
      ensures Valid() || (Over() && (stop == Some(ClaimRefused) || stop == Some(Failed)))
      ensures old(Run(s, World(), View(Selling(sells), buys)))
           == if stop.Some? then View(Ended(stop.value), buys) else Run(s, World(), View(Gating, buys))
    {
      ghost var goal := Run(s, World(), View(Selling(sells), buys));
      assert sells[0..] == sells;
      for i := 0 to |sells|
        invariant Valid()
        invariant Run(s, World(), View(Selling(sells[i..]), buys)) == goal
      {
        assert sells[i..][1..] == sells[i + 1..];
        RunHead(s, World(), View(Selling(sells[i..]), buys));
        stop := SellOne(sells[i..], buys);
        if stop.Some? {
          return;
        }
      }
      assert sells[|sells|..] == [];
      QuietStep(s, World(), View(Selling([]), buys));
      stop := None;
    }

    /** Add the confirmed proceeds to the cash and decide whether the buys may begin. */
    method GatePass(buys: seq<Delta>) returns (allowed: seq<Delta>)
      requires Priced(buys)
      modifies this`skipped, this`cash, this`opening, this`released
      ensures Priced(allowed)
      ensures Run(s, World(), View(Buying(allowed), buys)) == old(Run(s, World(), View(Gating, buys)))
    {
      ghost var m := View(Gating, buys);
      QuietStep(s, World(), m);
      var confirmed := env.release(acceptedSells);
      cash := CashWith(s, confirmed);
      opening := cash;
      released := confirmed;
      allowed := buys;
      if s.cashOnly && buys != [] && pendingSells != [] {
        var estimated, waits := EstimateBuys(buys);
        if estimated > cash || waits {
          skipped := skipped + SkipAll(buys, PendingSellRelease);
          allowed := [];
        }
      } else if s.cashOnly && buys != [] && s.liquidCash < 0.0 {
        skipped := skipped + SkipAll(buys, NegativeCash);
        allowed := [];
      }
    }

    method EstimateBuys(buys: seq<Delta>) returns (estimated: real, waits: bool)
      ensures estimated == TotalCost(s, buys, cash, acceptedSells != [])
      ensures waits == AnyNeedsRelease(s, buys, cash, acceptedSells != [])
    {
      var allowTopUp := acceptedSells != [];
      estimated, waits := 0.0, false;
      for i := 0 to |buys|
        invariant estimated == TotalCost(s, buys[..i], cash, allowTopUp)
        invariant waits == exists k | 0 <= k < i :: NeedsRelease(s, buys[k], cash, allowTopUp)
      {
        assert buys[..i + 1][..i] == buys[..i];
        estimated := estimated + EstimatedCost(s, buys[i], cash, allowTopUp);
        if NeedsRelease(s, buys[i], cash, allowTopUp) {
          waits := true;
        }
      }
      assert buys[..|buys|] == buys;
    }

    /** Buy the head of `allowed`; `stop` tells why the cycle ends here, if it does. */
    method BuyOne(allowed: seq<Delta>, ghost buys: seq<Delta>) returns (stop: Option<Ending>)
      requires Valid() && allowed != []
      modifies this`submitted, this`skipped, this`cash, this`requests, claim, claim.store
      ensures Valid() || (Over() && (stop == Some(ClaimRefused) || stop == Some(Failed)))
      ensures View(if stop.Some? then Ended(stop.value) else Buying(allowed[1..]), buys)
           == HeadStep(s, World(), old(View(Buying(allowed), buys)),
                       BuyChoice(s, allowed[0], old(cash), acceptedSells != []))
    {
      ChoicesName(s, allowed[0], cash, acceptedSells != []);
      hide SellChoice, BuyChoice, OutcomeOf, FirstAnswer, Created, Run, Asked, Settled;
      var choice := BuyChoice(s, allowed[0], cash, acceptedSells != []);
      if choice.Pass? {
        skipped := skipped + [Skip(allowed[0].symbol, choice.reason, None)];
        return None;
      }
      var a, outcome := Submit(choice.request);
      if outcome.OrderAccepted? {
        cash := Max(0.0, cash - choice.cost);
      }
      stop := StopAfter(a, outcome);
      AnswerEffect(World(), old(View(Buying(allowed), buys)), choice.request, choice.cost, a, outcome,
                   View(if stop.Some? then Ended(stop.value) else Buying(allowed[1..]), buys));
    }

    method BuyPass(allowed: seq<Delta>, ghost buys: seq<Delta>) returns (ending: Ending)
      requires Valid() && Priced(allowed) && Priced(buys)
      modifies this`submitted, this`skipped, this`cash, this`requests, claim, claim.store
      ensures Valid() || (Over() && (ending == ClaimRefused || ending == Failed))
      ensures View(Ended(ending), buys) == old(Run(s, World(), View(Buying(allowed), buys)))
    {
      ghost var goal := Run(s, World(), View(Buying(allowed), buys));
      assert allowed[0..] == allowed;
      for i := 0 to |allowed|
        invariant Valid()
        invariant Run(s, World(), View(Buying(allowed[i..]), buys)) == goal
      {
        assert allowed[i..][1..] == allowed[i + 1..];
        RunHead(s, World(), View(Buying(allowed[i..]), buys));
        var stop := BuyOne(allowed[i..], buys);
        if stop.Some? {
          return stop.value;
        }
      }
      assert allowed[|allowed|..] == [];
      QuietStep(s, World(), View(Buying([]), buys));
      EndedStays(s, World(), View(Ended(Completed), buys));
      ending := Completed;
    }

    method Report(ending: Ending, ghost buys: seq<Delta>) returns (result: Option<CycleResult>)
      ensures result == ResultOf(View(Ended(ending), buys))
      ensures result.None? <==> ending == Failed
      ensures result.Some? ==> (result.value.idempotencyBlocked <==> ending == ClaimRefused)
      ensures ending == Completed ==>
                && (result.value.pendingReconciliation <==> SomeOpen(submitted))
                && (result.value.submissionDone <==> SomeOpen(submitted))
                && (result.value.actionDone <==> submitted != [] && AllFinal(submitted))
    {
      StatusSets(submitted);
      match ending {
        case Failed =>
          result := None;
        case ClaimRefused =>
          result := Some(CycleResult(submitted, skipped, false, false, false, true));
        case Uncertain =>
          var someAccepted := exists x | x in submitted :: Accepted(x.status);
          result := Some(CycleResult(submitted, skipped, false, someAccepted, true, false));
        case Completed =>
          var statuses := Statuses(submitted);
          var pending := statuses * PENDING_STATUSES != {};
          var done := submitted != [] && !pending && statuses <= COMPLETED_STATUSES;
          result := Some(CycleResult(submitted, skipped, done, pending, pending, false));
      }
    }
  }

  /**
   * The whole cycle. Its books are those of `Planner.Cycle` under the answers of this claim, and the claim and
   * the store end up as the requests say.
   */
  method ExecuteValueTargetPlan(s: Setup, env: Env, claim: SubmissionClaim)
    returns (result: Option<CycleResult>, requests: seq<Request>, ghost final: Machine)
    requires !claim.acquired
    modifies claim, claim.store
    ensures final == Cycle(s, WithClaim(env, FirstAnswer(claim.persist, old(claim.store.objects), claim.key, claim.fault)))
    ensures requests == final.requests && result == ResultOf(final)
    ensures claim.acquired <==> !s.dryRun && requests != []
    ensures claim.store.objects == old(claim.store.objects)
         || claim.store.objects == Created(old(claim.store.objects), claim.key, CLAIM_DOC, claim.fault)
    ensures s.dryRun || (requests == [] && result.Some? && !result.value.idempotencyBlocked) ==>
              claim.store.objects == old(claim.store.objects)
    ensures !s.dryRun && requests != [] ==>
              && claim.key !in old(claim.store.objects)
              && claim.store.objects == old(claim.store.objects)[claim.key := CLAIM_DOC]
  {
    hide ResultOf, Run;
    var cycle := new ExecutionCycle(s, env, claim);
    var deltas := cycle.ScanSymbols();
    ScanQuoted(s, env.quote, Sorted(Universe(s)));
    var sells, buys := cycle.Split(deltas);
    assert cycle.View(Selling(sells), buys) == Start(s, ScanAll(s, env.quote));
    var stop := cycle.SellPass(sells, buys);
    var ending := Failed;
    if stop.Some? {
      ending := stop.value;
    } else {
      var allowed := cycle.GatePass(buys);
      ending := cycle.BuyPass(allowed, buys);
    }
    final := cycle.View(Ended(ending), buys);
    requests := cycle.requests;
    result := cycle.Report(ending, buys);
  }
}
