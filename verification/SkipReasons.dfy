/** Why a symbol is skipped, and when the gate holds the buys back, in the facts of the account and the world. */
module SkipReasons {
  import opened Wrappers
  import opened Ordering
  import opened Money
  import opened Broker
  import opened Planner
  import opened OrderLimits
  import opened OrderAmounts

  // ----- every skip has its reason -----

  /** The symbol moves, and this is its quote. */
  predicate Due(s: Setup, quote: Quote, symbol: string, price: real) {
    && symbol in Universe(s) && Abs(Drift(s, symbol)) >= s.threshold
    && QuotePrice(quote, symbol) == Some(price)
  }

  /** The broker's answer to this order, sent after these, was a rejection. */
  predicate RejectedAfter(env: Env, sent: seq<Request>, order: Request, disclosure: bool) {
    env.broker(sent + [order]) == Report(AsRejected, disclosure)
  }

  /** With so much cash no order of the buy was possible, for this reason. */
  predicate NoBuy(s: Setup, d: Delta, cash: real, allowTopUp: bool, reason: Reason) {
    cash >= 0.0 && BuyChoice(s, d, cash, allowTopUp) == Pass(reason)
  }

  /** What each reason says about its symbol. */
  ghost predicate Why(s: Setup, env: Env, k: Skip) {
    var quoted := QuotePrice(env.quote, k.symbol);
    k.symbol in Universe(s) &&
    match k.reason
    case BelowTradeThreshold => k.order.None? && Abs(Drift(s, k.symbol)) < s.threshold
    case QuoteUnavailable => k.order.None? && Abs(Drift(s, k.symbol)) >= s.threshold && quoted.None?
    case SellQuantityZero =>
      && k.order.None? && quoted.Some? && Due(s, env.quote, k.symbol, quoted.value) && Drift(s, k.symbol) < 0.0
      && !MaySell(s, DeltaOf(s, k.symbol, quoted.value), quoted.value)
    case PendingSellRelease => k.order.None? && s.cashOnly && Drift(s, k.symbol) > 0.0
    case NegativeCash => k.order.None? && s.cashOnly && Drift(s, k.symbol) > 0.0 && s.liquidCash < 0.0
    case DuplicateLiveRun => k.order.None? && !s.dryRun && Drift(s, k.symbol) != 0.0
    case BrokerRejected => k.order.Some? && k.order.value.symbol == k.symbol
                           && exists sent :: RejectedAfter(env, sent, k.order.value, false)
    case DisclosureRequired => k.order.Some? && k.order.value.symbol == k.symbol
                               && exists sent :: RejectedAfter(env, sent, k.order.value, true)
    case _ =>
      && k.order.None? && quoted.Some? && Due(s, env.quote, k.symbol, quoted.value) && Drift(s, k.symbol) > 0.0
      && (k.reason == BuyNotionalBelowMinimum <==> s.notional)
      && exists cash, allowTopUp :: NoBuy(s, DeltaOf(s, k.symbol, quoted.value), cash, allowTopUp, k.reason)
  }

  ghost predicate AllWhy(s: Setup, env: Env, skipped: seq<Skip>) {
    forall k | k in skipped :: Why(s, env, k)
  }

  /** A delta as the scan makes it: due, quoted, and with the drift of its symbol. */
  predicate Made(s: Setup, quote: Quote, d: Delta) {
    d.price > 0.0 && Due(s, quote, d.symbol, d.price) && d == DeltaOf(s, d.symbol, d.price)
  }

  predicate Made2(s: Setup, quote: Quote, m: Machine) {
    && (forall d | d in m.buys :: Made(s, quote, d) && d.value > 0.0)
    && (m.stage.Selling? ==> forall d | d in m.stage.rest :: Made(s, quote, d) && d.value < 0.0)
    && (m.stage.Buying? ==> forall d | d in m.stage.rest :: Made(s, quote, d) && d.value > 0.0)
  }

  ghost predicate Reasoned(s: Setup, env: Env, m: Machine) {
    AllWhy(s, env, m.skipped) && Made2(s, env.quote, m) && m.cash >= 0.0
  }

  lemma {:induction false} ScanWhy(s: Setup, env: Env, symbols: seq<string>)
    requires forall x | x in symbols :: x in Universe(s)
    ensures var scanned := Scan(s, env.quote, symbols);
      AllWhy(s, env, scanned.skipped) && forall d | d in scanned.deltas :: Made(s, env.quote, d)
  {
    hide Universe, Drift;
    if symbols != [] {
      var init, last := symbols[..|symbols| - 1], symbols[|symbols| - 1];
      assert forall x | x in init :: x in symbols;
      ScanWhy(s, env, init);
      assert last in symbols;
      ScanOneWhy(s, env, Scan(s, env.quote, init), last);
    }
  }

  lemma ScanOneWhy(s: Setup, env: Env, before: Scanned, symbol: string)
    requires symbol in Universe(s)
    requires AllWhy(s, env, before.skipped) && forall d | d in before.deltas :: Made(s, env.quote, d)
    ensures var scanned := ScanOne(s, env.quote, before, symbol);
      AllWhy(s, env, scanned.skipped) && forall d | d in scanned.deltas :: Made(s, env.quote, d)
  {
    var scanned := ScanOne(s, env.quote, before, symbol);
    hide Universe, Drift;
    forall k | k in scanned.skipped
      ensures Why(s, env, k)
    {
      if k !in before.skipped {
        assert k == scanned.skipped[|scanned.skipped| - 1];
      }
    }
  }

  // ----- one step -----

  lemma NoShareToSell(s: Setup, d: Delta)
    requires d.price > 0.0 && d.value < 0.0 && SellChoice(s, d).Pass?
    ensures SellChoice(s, d).reason == SellQuantityZero
    ensures !MaySell(s, d, d.price)
  {
    SellsMost(s, d, 1, d.price);
    hide SellQuantity, MaySell;
  }

  lemma SellSkipWhy(s: Setup, env: Env, d: Delta)
    requires Made(s, env.quote, d) && d.value < 0.0 && SellChoice(s, d).Pass?
    ensures Why(s, env, Skip(d.symbol, SellChoice(s, d).reason, None))
  {
    NoShareToSell(s, d);
    hide SellChoice, MaySell, Universe, Drift, QuotePrice;
  }

  lemma BuyPassReasons(s: Setup, d: Delta, cash: real, allowTopUp: bool)
    ensures var choice := BuyChoice(s, d, cash, allowTopUp);
      choice.Pass? ==>
        if s.notional then choice.reason == BuyNotionalBelowMinimum
        else choice.reason == InsufficientCashForWholeShare || choice.reason == BuyQuantityZero
  {
    hide NotionalBudget, BuyQuantity, LimitBuyPrice, RoundCents;
  }

  lemma BuySkipWhy(s: Setup, env: Env, d: Delta, cash: real, allowTopUp: bool)
    requires Made(s, env.quote, d) && d.value > 0.0 && cash >= 0.0 && BuyChoice(s, d, cash, allowTopUp).Pass?
    ensures Why(s, env, Skip(d.symbol, BuyChoice(s, d, cash, allowTopUp).reason, None))
  {
    BuyPassReasons(s, d, cash, allowTopUp);
    hide BuyChoice, MaySell, Universe, Drift, QuotePrice;
    assert NoBuy(s, d, cash, allowTopUp, BuyChoice(s, d, cash, allowTopUp).reason);
  }

  lemma RejectedWhy(s: Setup, env: Env, symbol: string, sent: seq<Request>, order: Request, reason: Reason)
    requires symbol in Universe(s) && order.symbol == symbol && OutcomeOf(env.broker(sent + [order])) == OrderRejected(reason)
    ensures Why(s, env, Skip(symbol, reason, Some(order)))
  {
    hide Universe, Drift, QuotePrice;
    assert RejectedAfter(env, sent, order, reason == DisclosureRequired);
  }

  /** The skips a change adds. */
  ghost predicate AddsWhy(s: Setup, env: Env, m: Machine, c: Change)
    requires Fits(m, c)
  {
    match c
    case SkipHead(reason) => Why(s, env, Skip(m.stage.rest[0].symbol, reason, None))
    case PassGate(cash, _, verdict) =>
      cash >= 0.0 && (verdict.Some? ==> forall d | d in m.buys :: Why(s, env, Skip(d.symbol, verdict.value, None)))
    case Deny => Why(s, env, Skip(m.stage.rest[0].symbol, DuplicateLiveRun, None))
    case Settle(request, _, outcome) =>
      outcome.OrderRejected? ==> Why(s, env, Skip(request.symbol, outcome.reason, Some(request)))
    case _ => true
  }

  lemma ApplyReasoned(s: Setup, env: Env, m: Machine, c: Change)
    requires Fits(m, c) && Reasoned(s, env, m) && AddsWhy(s, env, m, c)
    ensures Reasoned(s, env, Apply(m, c))
  {
    hide Why, Made;
  }

  lemma GateWhy(s: Setup, env: Env, m: Machine, cash: real)
    requires Made2(s, env.quote, m) && GateVerdict(s, m, cash).Some?
    ensures forall d | d in m.buys :: Why(s, env, Skip(d.symbol, GateVerdict(s, m, cash).value, None))
  {
    hide GateBlocks, Universe, Drift, QuotePrice;
  }

  lemma DenyWhy(s: Setup, env: Env, d: Delta)
    requires Made(s, env.quote, d) && d.value != 0.0 && !s.dryRun
    ensures Why(s, env, Skip(d.symbol, DuplicateLiveRun, None))
  {
    hide Universe, Drift, QuotePrice;
  }

  lemma StepReasoned(s: Setup, env: Env, m: Machine, e: Event)
    requires Quoted(m) && Next(s, m) != Halt && e == Answer(s, env, m) && Reasoned(s, env, m)
    ensures Reasoned(s, env, After(s, m, e))
  {
    var c := ChangeOf(s, m, e);
    StepAdds(s, env, m, e, c);
    hide *;
    AfterIs(s, m, e);
    ApplyReasoned(s, env, m, c);
  }

  lemma AfterIs(s: Setup, m: Machine, e: Event)
    requires Quoted(m) && Enabled(s, m, e)
    ensures After(s, m, e) == Apply(m, ChangeOf(s, m, e))
  {
    hide Next, ChangeOf, Apply, Enabled;
  }

  lemma StepAdds(s: Setup, env: Env, m: Machine, e: Event, c: Change)
    requires Quoted(m) && Next(s, m) != Halt && e == Answer(s, env, m) && c == ChangeOf(s, m, e) && Reasoned(s, env, m)
    ensures AddsWhy(s, env, m, c)
  {
    hide Why, Made, SellChoice, BuyChoice, OutcomeOf;
    if Pending(m) {
      var d := m.stage.rest[0];
      assert d in m.stage.rest && Made(s, env.quote, d);
      HeadFacts(s, env, d);
      match c {
        case SkipHead(reason) =>
          if m.stage.Selling? {
            SellSkipWhy(s, env, d);
          } else {
            BuySkipWhy(s, env, d, m.cash, SellSubmitted(m));
          }
        case Deny =>
          DenyWhy(s, env, d);
        case Settle(request, cost, outcome) =>
          if outcome.OrderRejected? {
            RejectedWhy(s, env, d.symbol, m.requests, request, outcome.reason);
          }
        case _ =>
      }
    } else if c.PassGate? && c.verdict.Some? {
      GateWhy(s, env, m, c.cash);
    }
  }

  lemma HeadFacts(s: Setup, env: Env, d: Delta)
    requires Made(s, env.quote, d)
    ensures d.symbol in Universe(s)
  {
    hide Universe;
  }

  lemma {:induction false} RunReasoned(s: Setup, env: Env, m: Machine)
    requires Quoted(m) && Reasoned(s, env, m)
    ensures Reasoned(s, env, Run(s, env, m))
    decreases Left(m)
  {
    RunUnfolds(s, env, m);
    hide *;
    if !m.stage.Ended? {
      var e := Answer(s, env, m);
      StepReasoned(s, env, m, e);
      RunReasoned(s, env, After(s, m, e));
    }
  }

  /**
   * Every skip of every cycle has the reason it names: a drift below the threshold; no positive quote; not one share
   * that may be sold; a buy that no amount of the cash left allows; a rejection by the broker, with or without the
   * disclosure; a refused claim, in live trading only; or a gate, in cash-only trading only.
   */
  lemma SkipsExplained(s: Setup, env: Env)
    ensures forall k | k in Cycle(s, env).skipped :: Why(s, env, k)
  {
    var m := CycleStarts(s, env);
    StartReasoned(s, env, m);
    hide *;
    RunReasoned(s, env, m);
    ReasonedMeans(s, env, Run(s, env, m));
  }

  lemma ReasonedMeans(s: Setup, env: Env, m: Machine)
    requires Reasoned(s, env, m)
    ensures forall k | k in m.skipped :: Why(s, env, k)
  {
    hide Why, Made;
  }

  lemma StartReasoned(s: Setup, env: Env, m: Machine)
    requires m == Start(s, ScanAll(s, env.quote))
    ensures Reasoned(s, env, m)
  {
    hide Why, Made, Scan, Universe, Sells, Buys;
    ScanAllWhy(s, env);
    hide ScanAll;
    FiltersSelect(ScanAll(s, env.quote).deltas);
  }

  lemma ScanAllWhy(s: Setup, env: Env)
    ensures var scanned := ScanAll(s, env.quote);
      AllWhy(s, env, scanned.skipped) && forall d | d in scanned.deltas :: Made(s, env.quote, d)
  {
    var symbols := Sorted(Universe(s));
    assert forall x | x in symbols :: x in Universe(s);
    assert ScanAll(s, env.quote) == Scan(s, env.quote, symbols);
    hide *;
    ScanWhy(s, env, symbols);
  }

  // ----- when the gate holds the buys back -----

  predicate ByGate(k: Skip) {
    k.reason == PendingSellRelease || k.reason == NegativeCash
  }

  predicate NoBuySent(requests: seq<Request>) {
    forall r | r in requests :: !IsBuy(r)
  }

  /** All buys are skipped for this reason, and none is sent. */
  predicate HeldBack(m: Machine, buys: seq<Delta>, reason: Reason) {
    && NoBuySent(m.requests)
    && (forall d | d in buys :: Skip(d.symbol, reason, None) in m.skipped)
    && (forall k | k in m.skipped && ByGate(k) :: k.reason == reason)
  }

  /** Before the gate nothing is bought or held back; behind it the verdict on the opening cash decides. */
  predicate Gated(s: Setup, m: Machine, sells: nat, buys: seq<Delta>) {
    && m.buys == buys
    && (m.stage.Selling? ==> |m.pendingSells| + |m.stage.rest| == sells)
    && (m.stage.Gating? || m.stage.Buying? || m.stage == Ended(Completed) ==> |m.pendingSells| == sells)
    && (m.stage.Selling? || m.stage.Gating? ==> NoBuySent(m.requests) && forall k | k in m.skipped :: !ByGate(k))
    && (m.stage.Buying? || m.stage == Ended(Completed) ==>
          match GateVerdict(s, m, m.opening)
          case None => forall k | k in m.skipped :: !ByGate(k)
          case Some(reason) => (m.stage.Buying? ==> m.stage.rest == []) && HeldBack(m, buys, reason))
  }

  /** What the gate is told, and that no other step gives its reasons. */
  predicate GateChange(s: Setup, m: Machine, c: Change)
    requires Fits(m, c)
  {
    match c
    case SkipHead(reason) => !ByGate(Skip(m.stage.rest[0].symbol, reason, None))
    case PassGate(cash, _, verdict) =>
      verdict == GateVerdict(s, m, cash)
      && (verdict.Some? ==> verdict.value == PendingSellRelease || verdict.value == NegativeCash)
    case Settle(request, _, outcome) => outcome.OrderRejected? ==> !ByGate(Skip(request.symbol, outcome.reason, None))
    case _ => true
  }

  /** The verdict depends on nothing that the buys change. */
  lemma SameVerdict(s: Setup, m: Machine, n: Machine, cash: real)
    requires m.buys == n.buys && m.pendingSells == n.pendingSells && m.acceptedSells == n.acceptedSells
    ensures GateVerdict(s, m, cash) == GateVerdict(s, n, cash)
  {
    hide GateBlocks;
  }

  lemma ApplyGated(s: Setup, m: Machine, c: Change, sells: nat, buys: seq<Delta>)
    requires Fits(m, c) && Gated(s, m, sells, buys) && GateChange(s, m, c)
    ensures Gated(s, Apply(m, c), sells, buys)
  {
    var n := Apply(m, c);
    hide GateVerdict;
    if c.PassGate? {
      SameVerdict(s, m, n, c.cash);
      GateApplied(m, c, n, buys);
    } else if m.stage.Buying? {
      SameVerdict(s, m, n, m.opening);
      BuyApplied(m, c, n, buys);
    }
  }

  lemma GateApplied(m: Machine, c: Change, n: Machine, buys: seq<Delta>)
    requires Fits(m, c) && c.PassGate? && n == Apply(m, c) && m.buys == buys && NoBuySent(m.requests)
    requires forall k | k in m.skipped :: !ByGate(k)
    requires c.verdict.Some? ==> c.verdict.value == PendingSellRelease || c.verdict.value == NegativeCash
    ensures n.stage == Buying(if c.verdict.Some? then [] else buys) && n.opening == c.cash && n.pendingSells == m.pendingSells
    ensures c.verdict.None? ==> forall k | k in n.skipped :: !ByGate(k)
    ensures c.verdict.Some? ==> HeldBack(n, buys, c.verdict.value)
  {
    if c.verdict.Some? {
      var more := SkipAll(buys, c.verdict.value);
      forall d | d in buys ensures Skip(d.symbol, c.verdict.value, None) in n.skipped {
        var i :| 0 <= i < |buys| && buys[i] == d;
        assert more[i] == Skip(d.symbol, c.verdict.value, None);
        assert more[i] in more;
      }
    }
  }

  lemma BuyApplied(m: Machine, c: Change, n: Machine, buys: seq<Delta>)
    requires Fits(m, c) && m.stage.Buying? && n == Apply(m, c)
    requires c.SkipHead? ==> !ByGate(Skip(m.stage.rest[0].symbol, c.reason, None))
    requires c.Settle? && c.outcome.OrderRejected? ==> !ByGate(Skip(c.request.symbol, c.outcome.reason, None))
    ensures (forall k | k in m.skipped :: !ByGate(k)) && m.stage.rest != [] && n.stage.Buying? ==>
              forall k | k in n.skipped :: !ByGate(k)
    ensures m.stage.rest == [] ==> n.stage == Ended(Completed) && n.skipped == m.skipped && n.requests == m.requests
    ensures n.pendingSells == m.pendingSells && n.acceptedSells == m.acceptedSells && n.buys == m.buys
    ensures n.opening == m.opening
    ensures m.stage.rest != [] ==> n.stage != Ended(Completed)
  {
  }

  lemma StepGated(s: Setup, m: Machine, e: Event, sells: nat, buys: seq<Delta>)
    requires Quoted(m) && Enabled(s, m, e) && Gated(s, m, sells, buys)
    ensures Gated(s, After(s, m, e), sells, buys)
  {
    var c := ChangeOf(s, m, e);
    GateTold(s, m, e, c);
    hide *;
    AfterIs(s, m, e);
    ApplyGated(s, m, c, sells, buys);
  }

  lemma GateTold(s: Setup, m: Machine, e: Event, c: Change)
    requires Quoted(m) && Enabled(s, m, e) && c == ChangeOf(s, m, e)
    ensures GateChange(s, m, c)
  {
    hide SellChoice, BuyChoice, GateBlocks;
    if c.SkipHead? {
      if m.stage.Selling? {
        SellPassReason(s, m.stage.rest[0]);
      } else {
        BuyPassReasons(s, m.stage.rest[0], m.cash, SellSubmitted(m));
      }
    }
  }

  lemma SellPassReason(s: Setup, d: Delta)
    requires d.price > 0.0
    ensures SellChoice(s, d).Pass? ==> SellChoice(s, d).reason == SellQuantityZero
  {
    hide SellQuantity, RoundCents;
  }

  lemma {:induction false} RunGated(s: Setup, env: Env, m: Machine, sells: nat, buys: seq<Delta>)
    requires Quoted(m) && Gated(s, m, sells, buys)
    ensures Gated(s, Run(s, env, m), sells, buys)
    decreases Left(m)
  {
    RunUnfolds(s, env, m);
    hide *;
    if !m.stage.Ended? {
      var e := Answer(s, env, m);
      StepGated(s, m, e, sells, buys);
      RunGated(s, env, After(s, m, e), sells, buys);
    }
  }

  /**
   * In a completed cycle the buys are held back for pending sales exactly when trading is cash-only, some sell and
   * some buy were due, and at the opening cash the estimates exceed that cash or some buy waits; for negative cash
   * exactly when trading is cash-only, no sell and some buy were due, and the liquid cash is negative. Then none is
   * sent and all are skipped for that reason.
   */
  lemma GateExactly(s: Setup, env: Env)
    requires Cycle(s, env).stage.ending == Completed
    ensures var m, deltas := Cycle(s, env), ScanAll(s, env.quote).deltas;
      var buys, allowTopUp := Buys(deltas), SellSubmitted(m);
      var waits := TotalCost(s, buys, m.opening, allowTopUp) > m.opening
                   || exists d :: d in buys && NeedsRelease(s, d, m.opening, allowTopUp);
      && ((exists k :: k in m.skipped && k.reason == PendingSellRelease) <==>
            s.cashOnly && buys != [] && Sells(deltas) != [] && waits)
      && ((exists k :: k in m.skipped && k.reason == NegativeCash) <==>
            s.cashOnly && buys != [] && Sells(deltas) == [] && s.liquidCash < 0.0)
      && (forall k | k in m.skipped && ByGate(k) :: HeldBack(m, buys, k.reason))
  {
    var start := CycleStarts(s, env);
    var deltas := ScanAll(s, env.quote).deltas;
    StartGated(s, env, start);
    var m := Cycle(s, env);
    RunGated(s, env, start, |Sells(deltas)|, Buys(deltas));
    hide *;
    VerdictShows(s, m, |Sells(deltas)|, Buys(deltas));
  }

  lemma StartGated(s: Setup, env: Env, m: Machine)
    requires m == Start(s, ScanAll(s, env.quote))
    ensures Gated(s, m, |Sells(ScanAll(s, env.quote).deltas)|, Buys(ScanAll(s, env.quote).deltas))
  {
    ScanNotByGate(s, env.quote, Sorted(Universe(s)));
    hide Scan, Sells, Buys, Sorted;
  }

  lemma {:induction false} ScanNotByGate(s: Setup, quote: Quote, symbols: seq<string>)
    ensures forall k | k in Scan(s, quote, symbols).skipped :: !ByGate(k)
  {
    if symbols != [] {
      ScanNotByGate(s, quote, symbols[..|symbols| - 1]);
    }
  }

  lemma VerdictShows(s: Setup, m: Machine, sells: nat, buys: seq<Delta>)
    requires Gated(s, m, sells, buys) && m.stage == Ended(Completed)
    ensures var allowTopUp := SellSubmitted(m);
      var waits := TotalCost(s, buys, m.opening, allowTopUp) > m.opening
                   || exists d :: d in buys && NeedsRelease(s, d, m.opening, allowTopUp);
      && ((exists k :: k in m.skipped && k.reason == PendingSellRelease) <==> s.cashOnly && buys != [] && sells != 0 && waits)
      && ((exists k :: k in m.skipped && k.reason == NegativeCash) <==>
            s.cashOnly && buys != [] && sells == 0 && s.liquidCash < 0.0)
      && (forall k | k in m.skipped && ByGate(k) :: HeldBack(m, buys, k.reason))
  {
    var verdict := GateVerdict(s, m, m.opening);
    VerdictIs(s, m, sells, buys);
    hide GateVerdict, TotalCost, NeedsRelease;
    if verdict.Some? && buys != [] {
      assert buys[0] in buys;
      assert ByGate(Skip(buys[0].symbol, verdict.value, None));
    }
  }

  lemma VerdictIs(s: Setup, m: Machine, sells: nat, buys: seq<Delta>)
    requires m.buys == buys && |m.pendingSells| == sells
    ensures var allowTopUp := SellSubmitted(m);
      var waits := TotalCost(s, buys, m.opening, allowTopUp) > m.opening
                   || exists d :: d in buys && NeedsRelease(s, d, m.opening, allowTopUp);
      GateVerdict(s, m, m.opening)
      == if s.cashOnly && buys != [] && sells != 0 && waits then Some(PendingSellRelease)
         else if s.cashOnly && buys != [] && sells == 0 && s.liquidCash < 0.0 then Some(NegativeCash)
         else None
  {
    hide TotalCost, NeedsRelease;
    assert m.pendingSells == [] <==> sells == 0;
  }
}
