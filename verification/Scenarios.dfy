/**
 * Whole cycles on small accounts, worked out to their end. They show that a condition is needed or that a bound
 * is reached: the orders in question are really sent.
 */
module Scenarios {
  import opened Wrappers
  import opened Ordering
  import opened Money
  import opened Broker
  import opened Planner
  import opened ExecutionService
  import opened CashSafety
  import opened OrderLimits
  import opened LocalSafety
  import opened Reserve

  // ----- a world in which everything goes through -----

  function QuoteAt(price: real): Quote {
    (symbol: string) => Some(price)
  }

  /** Every claim is granted and every order filled; sales confirm no proceeds. */
  function Friendly(price: real): Env {
    Env(QuoteAt(price), (call: nat) => Granted, (requests: seq<Request>) => Report(AsFilled, false),
        (sells: seq<Submission>) => 0.0)
  }

  function Filled(request: Request): Submission {
    Submission(request, AsFilled)
  }

  lemma AscendingPair(x: string, y: string)
    requires x != y && Le(x, y)
    ensures Sorted({x, y}) == [x, y]
  {
    assert StrictlySorted([x, y]);
    SortedUnique(Sorted({x, y}), [x, y]);
  }

  lemma Single(x: string)
    ensures Sorted({x}) == [x]
  {
    SortedUnique(Sorted({x}), [x]);
  }

  predicate Moves(s: Setup, x: string) {
    Abs(Drift(s, x)) >= s.threshold
  }

  lemma ScanMoves(s: Setup, price: real, symbols: seq<string>, x: string)
    requires price > 0.0 && Moves(s, x)
    ensures var before := Scan(s, QuoteAt(price), symbols);
      Scan(s, QuoteAt(price), symbols + [x]) == before.(deltas := before.deltas + [DeltaOf(s, x, price)])
  {
    assert (symbols + [x])[..|symbols|] == symbols;
  }

  lemma ScanOf(s: Setup, price: real, symbols: seq<string>)
    requires Sorted(Universe(s)) == symbols
    ensures ScanAll(s, QuoteAt(price)) == Scan(s, QuoteAt(price), symbols)
    ensures Scan(s, QuoteAt(price), []) == Scanned([], [])
  {
    hide Sorted, Universe;
  }

  lemma ScanSingle(s: Setup, price: real, x: string)
    requires price > 0.0 && Universe(s) == {x} && Moves(s, x)
    ensures ScanAll(s, QuoteAt(price)) == Scanned([], [DeltaOf(s, x, price)])
  {
    hide *;
    Single(x);
    ScanOf(s, price, [x]);
    ScanMoves(s, price, [], x);
    assert [] + [x] == [x];
  }

  lemma ScanTwo(s: Setup, price: real, x: string, y: string)
    requires price > 0.0 && Universe(s) == {x, y} && x != y && Le(x, y) && Moves(s, x) && Moves(s, y)
    ensures ScanAll(s, QuoteAt(price)) == Scanned([], [DeltaOf(s, x, price), DeltaOf(s, y, price)])
  {
    hide *;
    AscendingPair(x, y);
    ScanOf(s, price, [x, y]);
    ScanMoves(s, price, [], x);
    ScanMoves(s, price, [x], y);
    assert [] + [x] == [x] && [x] + [y] == [x, y];
  }

  /** Where a cycle stands when its buys begin, if there was nothing to sell. */
  function BuysBegin(s: Setup, buys: seq<Delta>): Machine {
    Machine(Buying(buys), buys, [], [], [], [], CashWith(s, 0.0), CashWith(s, 0.0), 0.0, [])
  }

  lemma ReachesBuys(s: Setup, price: real, buys: seq<Delta>)
    requires price > 0.0 && s.liquidCash >= 0.0
    requires ScanAll(s, QuoteAt(price)) == Scanned([], buys) && Sells(buys) == [] && Buys(buys) == buys && Priced(buys)
    ensures Quoted(BuysBegin(s, buys)) && BuysBegin(s, buys).cash == CashWith(s, 0.0)
    ensures Cycle(s, Friendly(price)) == Run(s, Friendly(price), BuysBegin(s, buys))
  {
    var env := Friendly(price);
    var start := CycleStarts(s, env);
    var m := Machine(Selling([]), buys, [], [], [], [], CashWith(s, 0.0), CashWith(s, 0.0), 0.0, []);
    assert start == m;
    hide Cycle, ScanAll, Run, GateBlocks;
    QuietStep(s, env, m);
    QuietStep(s, env, m.(stage := Gating));
    assert Apply(m.(stage := Gating), PassGate(CashWith(s, 0.0), 0.0, None)) == BuysBegin(s, buys);
  }

  /** A buy that is placed is filled, and the run goes on with the rest. */
  lemma BuyFills(s: Setup, price: real, m: Machine)
    requires Quoted(m) && m.stage.Buying? && m.stage.rest != []
    requires BuyChoice(s, m.stage.rest[0], m.cash, SellSubmitted(m)).Place?
    ensures var choice := BuyChoice(s, m.stage.rest[0], m.cash, SellSubmitted(m));
      var n := m.(requests := m.requests + [choice.request], submitted := m.submitted + [Filled(choice.request)],
                  stage := Buying(m.stage.rest[1..]), cash := Max(0.0, m.cash - choice.cost));
      Quoted(n) && Run(s, Friendly(price), m) == Run(s, Friendly(price), n)
  {
    hide BuyChoice, Run;
    RunHead(s, Friendly(price), m);
  }

  lemma BuysDone(s: Setup, price: real, m: Machine)
    requires Quoted(m) && m.stage == Buying([])
    ensures Run(s, Friendly(price), m) == m.(stage := Ended(Completed))
  {
    QuietStep(s, Friendly(price), m);
    EndedStays(s, Friendly(price), m.(stage := Ended(Completed)));
    hide Run;
  }

  /** One symbol below its target: one buy. */
  lemma OneBuy(s: Setup, price: real, x: string, choice: Choice)
    requires price > 0.0 && s.liquidCash >= 0.0 && Universe(s) == {x} && Moves(s, x) && Drift(s, x) > 0.0
    requires choice == FirstBuy(s, price, x) && choice.Place?
    ensures var m := Cycle(s, Friendly(price));
      && m.stage == Ended(Completed) && m.requests == [choice.request] && m.submitted == [Filled(choice.request)]
      && m.acceptedSells == []
  {
    hide *;
    var d := DeltaOf(s, x, price);
    DeltaIs(s, x, price);
    ScanSingle(s, price, x);
    OnlyBuys([d]);
    PricedOne(d);
    ReachesBuys(s, price, [d]);
    FirstIs(s, price, x);
    OneFills(s, price, BuysBegin(s, [d]), d, choice);
  }

  lemma OneFills(s: Setup, price: real, begin: Machine, d: Delta, choice: Choice)
    requires Quoted(begin) && begin == BuysBegin(s, [d]) && begin.cash == CashWith(s, 0.0)
    requires choice == BuyChoice(s, d, CashWith(s, 0.0), false) && choice.Place?
    ensures var m := Run(s, Friendly(price), begin);
      && m.stage == Ended(Completed) && m.requests == [choice.request] && m.submitted == [Filled(choice.request)]
      && m.acceptedSells == []
  {
    hide BuyChoice, Run, CashWith, Max;
    assert begin.stage.rest[0] == d && begin.stage.rest[1..] == [] && !SellSubmitted(begin);
    BuyFills(s, price, begin);
    assert [] + [choice.request] == [choice.request] && [] + [Filled(choice.request)] == [Filled(choice.request)];
    BuysDone(s, price, begin.(requests := [choice.request], submitted := [Filled(choice.request)], stage := Buying([]),
                              cash := Max(0.0, CashWith(s, 0.0) - choice.cost)));
  }

  lemma {:induction false} OnlyBuys(deltas: seq<Delta>)
    requires forall d | d in deltas :: d.value > 0.0
    ensures Sells(deltas) == [] && Buys(deltas) == deltas
  {
    if deltas != [] {
      OnlyBuys(deltas[..|deltas| - 1]);
      assert deltas == deltas[..|deltas| - 1] + [deltas[|deltas| - 1]];
    }
  }

  function FirstBuy(s: Setup, price: real, x: string): Choice {
    BuyChoice(s, DeltaOf(s, x, price), CashWith(s, 0.0), false)
  }

  /** The buy after one that cost so much. */
  function NextBuy(s: Setup, price: real, y: string, cost: real): Choice {
    BuyChoice(s, DeltaOf(s, y, price), Max(0.0, CashWith(s, 0.0) - cost), false)
  }

  /** Two symbols below their targets: two buys, the second from the cash the first has left. */
  lemma TwoBuys(s: Setup, price: real, x: string, y: string, first: Choice, second: Choice)
    requires price > 0.0 && s.liquidCash >= 0.0 && Universe(s) == {x, y} && x != y && Le(x, y)
    requires Moves(s, x) && Moves(s, y) && Drift(s, x) > 0.0 && Drift(s, y) > 0.0
    requires first == FirstBuy(s, price, x) && first.Place? && second == NextBuy(s, price, y, first.cost) && second.Place?
    ensures var m := Cycle(s, Friendly(price));
      && m.stage == Ended(Completed) && m.requests == [first.request, second.request]
      && m.submitted == [Filled(first.request), Filled(second.request)] && m.acceptedSells == []
  {
    hide *;
    var d, e := DeltaOf(s, x, price), DeltaOf(s, y, price);
    DeltaIs(s, x, price);
    DeltaIs(s, y, price);
    ScanTwo(s, price, x, y);
    OnlyBuys([d, e]);
    PricedTwo(d, e);
    ReachesBuys(s, price, [d, e]);
    FirstIs(s, price, x);
    NextIs(s, price, y, first.cost);
    TwoFill(s, price, BuysBegin(s, [d, e]), d, e, first, second);
  }

  lemma PricedOne(d: Delta)
    requires d.price > 0.0
    ensures Priced([d])
  {
  }

  lemma PricedTwo(d: Delta, e: Delta)
    requires d.price > 0.0 && e.price > 0.0
    ensures Priced([d, e])
  {
  }

  lemma DeltaIs(s: Setup, x: string, price: real)
    ensures DeltaOf(s, x, price) == Delta(x, Drift(s, x), price)
  {
  }

  lemma FirstIs(s: Setup, price: real, x: string)
    ensures FirstBuy(s, price, x) == BuyChoice(s, DeltaOf(s, x, price), CashWith(s, 0.0), false)
  {
    hide BuyChoice;
  }

  lemma NextIs(s: Setup, price: real, y: string, cost: real)
    ensures NextBuy(s, price, y, cost) == BuyChoice(s, DeltaOf(s, y, price), Max(0.0, CashWith(s, 0.0) - cost), false)
  {
    hide BuyChoice;
  }

  lemma TwoFill(s: Setup, price: real, begin: Machine, d: Delta, e: Delta, first: Choice, second: Choice)
    requires Quoted(begin) && begin == BuysBegin(s, [d, e]) && begin.cash == CashWith(s, 0.0)
    requires first == BuyChoice(s, d, CashWith(s, 0.0), false) && first.Place?
    requires second == BuyChoice(s, e, Max(0.0, CashWith(s, 0.0) - first.cost), false) && second.Place?
    ensures var m := Run(s, Friendly(price), begin);
      && m.stage == Ended(Completed) && m.requests == [first.request, second.request]
      && m.submitted == [Filled(first.request), Filled(second.request)] && m.acceptedSells == []
  {
    hide BuyChoice, Run, CashWith, Max;
    assert begin.stage.rest[0] == d && begin.stage.rest[1..] == [e] && !SellSubmitted(begin);
    BuyFills(s, price, begin);
    var middle := begin.(requests := [first.request], submitted := [Filled(first.request)], stage := Buying([e]),
                         cash := Max(0.0, CashWith(s, 0.0) - first.cost));
    assert [] + [first.request] == [first.request] && [] + [Filled(first.request)] == [Filled(first.request)];
    assert middle.stage.rest[0] == e && middle.stage.rest[1..] == [] && !SellSubmitted(middle);
    BuyFills(s, price, middle);
    assert [first.request] + [second.request] == [first.request, second.request];
    assert [Filled(first.request)] + [Filled(second.request)] == [Filled(first.request), Filled(second.request)];
    BuysDone(s, price, middle.(requests := [first.request, second.request],
                               submitted := [Filled(first.request), Filled(second.request)], stage := Buying([]),
                               cash := Max(0.0, middle.cash - second.cost)));
  }

  /** One symbol above its target: one sell. */
  lemma OneSell(s: Setup, price: real, x: string, choice: Choice)
    requires price > 0.0 && Universe(s) == {x} && Moves(s, x) && Drift(s, x) < 0.0
    requires choice == SellChoice(s, DeltaOf(s, x, price)) && choice.Place?
    ensures var m := Cycle(s, Friendly(price));
      m.stage == Ended(Completed) && m.requests == [choice.request] && m.submitted == [Filled(choice.request)]
  {
    var d := DeltaOf(s, x, price);
    assert d.value < 0.0;
    ScanSingle(s, price, x);
    hide *;
    var start := ReachesSell(s, price, d);
    SellAndDone(s, price, start, d, choice);
  }

  lemma ReachesSell(s: Setup, price: real, d: Delta) returns (start: Machine)
    requires ScanAll(s, QuoteAt(price)) == Scanned([], [d]) && d.value < 0.0
    ensures start.stage == Selling([d]) && start.buys == [] && start.requests == [] && start.submitted == []
    ensures Quoted(start) && Cycle(s, Friendly(price)) == Run(s, Friendly(price), start)
  {
    start := CycleStarts(s, Friendly(price));
    assert Sells([d]) == [d] && Buys([d]) == [] by { assert [d][..0] == []; }
    hide Cycle, Run, ScanAll;
  }

  lemma SellAndDone(s: Setup, price: real, start: Machine, d: Delta, choice: Choice)
    requires Quoted(start) && start.stage == Selling([d]) && start.buys == [] && start.requests == [] && start.submitted == []
    requires d.price > 0.0 ==> choice == SellChoice(s, d) && choice.Place?
    ensures var m := Run(s, Friendly(price), start);
      d.price > 0.0 && m.stage == Ended(Completed) && m.requests == [choice.request]
      && m.submitted == [Filled(choice.request)]
  {
    hide SellChoice, Run;
    assert start.stage.rest[0] == d && start.stage.rest[1..] == [] && d in start.stage.rest;
    SellFills(s, price, start, choice);
    var sold := start.(requests := [choice.request], submitted := [Filled(choice.request)], stage := Selling([]),
                       pendingSells := start.pendingSells + [choice.request.symbol],
                       acceptedSells := start.acceptedSells + [Filled(choice.request)]);
    assert [] + [choice.request] == [choice.request] && [] + [Filled(choice.request)] == [Filled(choice.request)];
    QuietStep(s, Friendly(price), sold);
    NothingToBuy(s, price, sold.(stage := Gating));
  }

  lemma SellFills(s: Setup, price: real, m: Machine, choice: Choice)
    requires Quoted(m) && m.stage.Selling? && m.stage.rest != [] && choice == SellChoice(s, m.stage.rest[0]) && choice.Place?
    ensures var n := m.(requests := m.requests + [choice.request], submitted := m.submitted + [Filled(choice.request)],
                        stage := Selling(m.stage.rest[1..]), pendingSells := m.pendingSells + [choice.request.symbol],
                        acceptedSells := m.acceptedSells + [Filled(choice.request)]);
      Quoted(n) && Run(s, Friendly(price), m) == Run(s, Friendly(price), n)
  {
    hide SellChoice, Run;
    RunHead(s, Friendly(price), m);
  }

  lemma NothingToBuy(s: Setup, price: real, m: Machine)
    requires Quoted(m) && m.stage == Gating && m.buys == []
    ensures var n := Run(s, Friendly(price), m);
      n.stage == Ended(Completed) && n.requests == m.requests && n.submitted == m.submitted
  {
    QuietStep(s, Friendly(price), m);
    var cash := CashWith(s, 0.0);
    var n := Apply(m, PassGate(cash, 0.0, GateVerdict(s, m, cash)));
    assert n.stage == Buying([]) && Quoted(n);
    BuysDone(s, price, n);
    hide Run;
  }

  // ----- the safety check, exactly -----

  /** An account under this cap, with named symbols, trading live. */
  predicate Typical(s: Setup, cap: Option<real>, notional: bool) {
    && s.maxNotional == cap && s.notional == notional && !s.dryRun && s.sellDiscount == LIMIT_SELL_DISCOUNT
    && forall x | x in Universe(s) :: Tradable(x)
  }

  /** Every quote there is, is this one. */
  ghost predicate OneQuote(env: Env, price: real) {
    forall x: string :: QuotePrice(env.quote, x).Some? ==> QuotePrice(env.quote, x).value == price
  }

  /** Whatever the account and the broker: every order under this cap, at this quote, passes. */
  ghost predicate AlwaysPasses(w: Switches, cap: Option<real>, price: real, notional: bool) {
    forall s: Setup, env: Env | Typical(s, cap, notional) && OneQuote(env, price) ::
      forall r | r in Cycle(s, env).requests :: Passes(s, w, r)
  }

  /** No account whatever sends an order: not a share fits the cap, and no dollar amount is wanted. */
  ghost predicate NeverSends(cap: Option<real>, price: real, notional: bool) {
    forall s: Setup, env: Env | Typical(s, cap, notional) && OneQuote(env, price) :: Cycle(s, env).requests == []
  }

  /** An account that holds one symbol worth this much and wants none of it. */
  function Holding(cap: Option<real>, notional: bool, value: real, shares: real): Setup {
    SimpleSetup(notional, cap).(marketValues := map["A" := value], sellable := map["A" := shares])
  }

  lemma HoldingSells(cap: Option<real>, notional: bool, value: real, shares: real, price: real)
    requires price > 0.0 && value > 0.0 && shares > 0.0 && shares * price == value
    requires cap.Some? ==> cap.value <= 0.0 || cap.value == value
    ensures var s := Holding(cap, notional, value, shares);
      && Universe(s) == {"A"} && Moves(s, "A") && Drift(s, "A") == -value && Tradable("A")
      && SellQuantity(s, DeltaOf(s, "A", price)) == FloorQuantity(value / price)
  {
    var s := Holding(cap, notional, value, shares);
    assert SellBudget(s, DeltaOf(s, "A", price)) == value;
    hide FloorQuantity;
  }

  lemma OneShare(price: real)
    requires price > 0.0
    ensures FloorQuantity(price / price) == 1
  {
    FloorQuotientUnique(price, price, 1);
  }

  /** The most a capped sell can be worth, or one share. */
  function WorthSelling(cap: Option<real>, price: real): real {
    if cap.Some? && cap.value > 0.0 then cap.value else price
  }

  /** A wrong cap, or a quote that is not allowed: some account sends a sell that is refused. */
  lemma RefusedSell(w: Switches, cap: Option<real>, notional: bool, price: real) returns (s: Setup)
    requires price > 0.0
    requires (cap.Some? && cap.value <= 0.0) || !QuoteAllowed(SimpleSetup(notional, cap), price)
    ensures s.maxNotional == cap && s.notional == notional && !s.dryRun && s.sellDiscount == LIMIT_SELL_DISCOUNT
    ensures Universe(s) == {"A"} && Tradable("A")
    ensures exists r :: r in Cycle(s, Friendly(price)).requests && !Passes(s, w, r)
  {
    var value := WorthSelling(cap, price);
    s := HeldAccount(cap, notional, price, value);
    hide *;
    var d := DeltaOf(s, "A", price);
    DeltaIs(s, "A", price);
    SellIsRefused(s, w, cap, notional, price, d);
    OneSell(s, price, "A", SellChoice(s, d));
    assert SellChoice(s, d).request in Cycle(s, Friendly(price)).requests;
  }

  lemma HeldAccount(cap: Option<real>, notional: bool, price: real, value: real) returns (s: Setup)
    requires price > 0.0 && value == WorthSelling(cap, price)
    ensures s.maxNotional == cap && s.notional == notional && !s.dryRun && s.sellDiscount == LIMIT_SELL_DISCOUNT
    ensures Universe(s) == {"A"} && Tradable("A") && Moves(s, "A") && Drift(s, "A") == -value < 0.0
    ensures SellQuantity(s, DeltaOf(s, "A", price))
            == if cap.Some? && cap.value > 0.0 then MostShares(cap.value, price) else 1
  {
    var shares := value / price;
    assert shares * price == value;
    SharesPositive(shares, price, value);
    s := Holding(cap, notional, value, shares);
    HoldingSells(cap, notional, value, shares, price);
    OneShare(price);
    hide SellQuantity, FloorQuantity, DeltaOf, Universe, Moves, Drift;
  }

  lemma SharesPositive(shares: real, price: real, value: real)
    requires price > 0.0 && value > 0.0 && shares * price == value
    ensures shares > 0.0
  {
    if shares <= 0.0 {
      MultiplyOrder(shares, 0.0, price);
    }
  }

  lemma SellIsRefused(s: Setup, w: Switches, cap: Option<real>, notional: bool, price: real, d: Delta)
    requires price > 0.0 && d.price == price && Tradable(d.symbol)
    requires s.maxNotional == cap && !s.dryRun && s.sellDiscount == LIMIT_SELL_DISCOUNT
    requires SellQuantity(s, d) == if cap.Some? && cap.value > 0.0 then MostShares(cap.value, price) else 1
    requires (cap.Some? && cap.value <= 0.0) || !QuoteAllowed(SimpleSetup(notional, cap), price)
    ensures SellChoice(s, d).Place? && !Passes(s, w, SellChoice(s, d).request)
  {
    hide SellQuantity, Passes, RoundCents, MostShares;
    assert MostShares(1.0, price) >= 0 by { MostNonnegative(1.0, price); }
    if cap.Some? {
      MostNonnegative(cap.value, price);
    }
    assert LimitSellPrice(s, price) == LimitSellPrice(SimpleSetup(notional, cap), price);
    SellPassesExactly(s, w, d);
  }

  lemma MostNonnegative(cap: real, price: real)
    requires price > 0.0
    ensures MostShares(cap, price) >= 0
  {
  }

  /** A cap of a dollar or more that rounds up: some account sends a notional buy that is refused. */
  lemma RefusedBuy(w: Switches, cap: real, price: real) returns (s: Setup)
    requires price > 0.0 && cap >= MIN_NOTIONAL && RoundCents(cap) > cap
    ensures s.maxNotional == Some(cap) && s.notional && !s.dryRun && s.sellDiscount == LIMIT_SELL_DISCOUNT
    ensures Universe(s) == {"A"} && Tradable("A")
    ensures exists r :: r in Cycle(s, Friendly(price)).requests && !Passes(s, w, r)
  {
    s := SimpleSetup(true, Some(cap)).(targets := map["A" := cap], liquidCash := cap + 1.0);
    var choice := FirstBuy(s, price, "A");
    assert choice == Place(Notional("A", RoundCents(cap)), cap) by { hide RoundCents; }
    assert !Passes(s, w, choice.request) by { hide RoundCents; }
    assert Universe(s) == {"A"} && Moves(s, "A") && Drift(s, "A") == cap;
    hide *;
    OneBuy(s, price, "A", choice);
    assert choice.request in Cycle(s, Friendly(price)).requests;
  }

  /**
   * Without a dry run, at the code's sell discount: every order of every account, at this quote and under this
   * cap, passes exactly when both live switches are on and cap and quote are allowed ones; or when nothing is ever
   * sent.
   */
  lemma SafetyExactly(w: Switches, cap: Option<real>, price: real, notional: bool)
    requires price > 0.0
    ensures AlwaysPasses(w, cap, price, notional) <==>
              || (w.enabled && w.acknowledged
                  && CapAllowed(SimpleSetup(notional, cap)) && QuoteAllowed(SimpleSetup(notional, cap), price))
              || NeverSends(cap, price, notional)
  {
    if !(w.enabled && w.acknowledged) {
      OnlyWithBoth(w, cap, price, notional);
    } else if CapAllowed(SimpleSetup(notional, cap)) && QuoteAllowed(SimpleSetup(notional, cap), price) {
      forall s: Setup, env: Env | Typical(s, cap, notional) && OneQuote(env, price)
        ensures forall r | r in Cycle(s, env).requests :: Passes(s, w, r)
      {
        SameConditions(s, cap, price, notional);
        hide CapAllowed, QuoteAllowed;
        EveryOrderPasses(s, w, env);
      }
    } else if (cap.Some? && cap.value <= 0.0) || !QuoteAllowed(SimpleSetup(notional, cap), price) {
      var s := RefusedSell(w, cap, notional, price);
      Refuted(s, w, cap, price, notional);
    } else {
      var s := RefusedBuy(w, cap.value, price);
      Refuted(s, w, cap, price, notional);
    }
  }

  lemma OnlyWithBoth(w: Switches, cap: Option<real>, price: real, notional: bool)
    requires !(w.enabled && w.acknowledged)
    ensures AlwaysPasses(w, cap, price, notional) <==> NeverSends(cap, price, notional)
  {
    forall s: Setup, env: Env | Typical(s, cap, notional) && OneQuote(env, price)
      ensures (forall r | r in Cycle(s, env).requests :: Passes(s, w, r)) <==> Cycle(s, env).requests == []
    {
      NoneOrRefused(s, w, env);
    }
    hide Cycle, Passes, Typical, OneQuote;
  }

  lemma NoneOrRefused(s: Setup, w: Switches, env: Env)
    requires !s.dryRun && !(w.enabled && w.acknowledged)
    ensures (forall r | r in Cycle(s, env).requests :: Passes(s, w, r)) <==> Cycle(s, env).requests == []
  {
    hide *;
    SwitchesGuard(s, w, env);
    NoneAndAll(s, w, Cycle(s, env).requests);
  }

  lemma NoneAndAll(s: Setup, w: Switches, requests: seq<Request>)
    requires forall r | r in requests :: !Passes(s, w, r)
    ensures (forall r | r in requests :: Passes(s, w, r)) <==> requests == []
  {
    hide Passes;
    assert requests != [] ==> !Passes(s, w, requests[0]);
  }

  lemma SameConditions(s: Setup, cap: Option<real>, price: real, notional: bool)
    requires price > 0.0 && Typical(s, cap, notional)
    ensures CapAllowed(s) == CapAllowed(SimpleSetup(notional, cap))
    ensures QuoteAllowed(s, price) == QuoteAllowed(SimpleSetup(notional, cap), price)
  {
    hide RoundCents, MostShares;
    assert LimitSellPrice(s, price) == LimitSellPrice(SimpleSetup(notional, cap), price);
  }

  lemma Refuted(s: Setup, w: Switches, cap: Option<real>, price: real, notional: bool)
    requires price > 0.0 && Typical(s, cap, notional) && Universe(s) == {"A"} && Tradable("A")
    requires exists r :: r in Cycle(s, Friendly(price)).requests && !Passes(s, w, r)
    ensures !AlwaysPasses(w, cap, price, notional) && !NeverSends(cap, price, notional)
  {
    assert OneQuote(Friendly(price), price);
    hide Cycle, Passes, Tradable;
  }

  // ----- witnesses -----

  lemma HeldSends(s: Setup, price: real, quantity: int, limit: real)
    requires price > 0.0 && Universe(s) == {"A"} && Moves(s, "A") && Drift(s, "A") < 0.0
    requires SellQuantity(s, DeltaOf(s, "A", price)) == quantity > 0 && LimitSellPrice(s, price) == limit
    ensures Cycle(s, Friendly(price)).requests == [Limit("A", Sell, quantity, limit)]
  {
    var choice := Place(Limit("A", Sell, quantity, limit), 0.0);
    assert SellChoice(s, DeltaOf(s, "A", price)) == choice by { hide SellQuantity, LimitSellPrice; }
    hide *;
    OneSell(s, price, "A", choice);
  }

  /** Three dollars in 1000 shares at 0.003: the limit rounds to zero, and the sell is refused whatever the switches. */
  lemma PennySellRefused(w: Switches)
    ensures var s := Holding(None, false, 3.0, 1000.0);
      Cycle(s, Friendly(0.003)).requests == [Limit("A", Sell, 1000, 0.0)] && !Passes(s, w, Limit("A", Sell, 1000, 0.0))
  {
    var s := Holding(None, false, 3.0, 1000.0);
    HoldingSells(None, false, 3.0, 1000.0, 0.003);
    FloorQuotientUnique(3.0, 0.003, 1000);
    hide SellQuantity;
    HeldSends(s, 0.003, 1000, 0.0);
  }

  /** Under a cap of 100: 1043 shares at 0.0958 fit it, but the limit rounds up to 0.10 and they cost 104.30. */
  lemma RoundedUpSellRefused(w: Switches)
    ensures var s, r := Holding(Some(100.0), false, 479.0, 5000.0), Limit("A", Sell, 1043, 0.1);
      CapAllowed(s) && Cycle(s, Friendly(0.0958)).requests == [r] && !Passes(s, w, r)
  {
    var s := Holding(Some(100.0), false, 479.0, 5000.0);
    CappedHolding(s, w);
    hide *;
    HeldSends(s, 0.0958, 1043, 0.1);
  }

  lemma CappedHolding(s: Setup, w: Switches)
    requires s == Holding(Some(100.0), false, 479.0, 5000.0)
    ensures CapAllowed(s) && !Passes(s, w, Limit("A", Sell, 1043, 0.1))
    ensures Universe(s) == {"A"} && Moves(s, "A") && Drift(s, "A") < 0.0
    ensures SellQuantity(s, DeltaOf(s, "A", 0.0958)) == 1043 && LimitSellPrice(s, 0.0958) == 0.1
  {
    assert SellBudget(s, DeltaOf(s, "A", 0.0958)) == 100.0;
    FloorQuotientUnique(100.0, 0.0958, 1043);
    assert RoundCents(0.095321) == 0.1;
    hide SellBudget, RoundCents;
  }

  /** A target of 60 and a recorded value of 150, but 10 shares at 10 to sell: 9 go, and 10 are left of the 60. */
  lemma OvershootsWhenValueIsStale()
    ensures var s := Holding(None, false, 150.0, 10.0).(targets := map["A" := 60.0]);
      var d := DeltaOf(s, "A", 10.0);
      && Cycle(s, Friendly(10.0)).requests == [Limit("A", Sell, 9, 9.95)]
      && LeftAfter(s, d) == 10.0 && Target(s, d) == 60.0
  {
    var s := Holding(None, false, 150.0, 10.0).(targets := map["A" := 60.0]);
    assert SellBudget(s, DeltaOf(s, "A", 10.0)) == 90.0;
    FloorQuotientUnique(90.0, 10.0, 9);
    assert Universe(s) == {"A"} && Moves(s, "A");
    hide SellBudget;
    HeldSends(s, 10.0, 9, 9.95);
  }

  /** All of 100 is reserved, so the plan's cash is zero. */
  function AllReserved(): Setup {
    SimpleSetup(false, None).(targets := map["A" := 50.0], planCash := Some(0.0), liquidCash := 100.0)
  }

  /** Zero is falsy: nothing is free and nothing was sold, and the cycle buys for 50. */
  lemma ZeroPlanCashSpendsReserve()
    ensures var policy, plan, s := Some(Policy(100.0, 0.0)), Semantics(0.0, None), AllReserved();
      var m := Cycle(s, Friendly(10.0));
      && FromPolicy(s, plan, 500.0, policy)
      && Max(0.0, s.liquidCash - ApplyPolicy(plan, 500.0, s.liquidCash, policy).reservedCash) == 0.0
      && Friendly(10.0).release(m.acceptedSells) == 0.0
      && Spent(m.submitted) == 50.0
  {
    hide *;
    var s, choice := AllReserved(), Place(Limit("A", Buy, 5, 10.0), 50.0);
    ReservedBuy(s, choice);
    SpentOnce(choice.request);
    NothingFree(s, Semantics(0.0, None), Some(Policy(100.0, 0.0)));
    NothingReleased(10.0, Cycle(s, Friendly(10.0)).acceptedSells);
    OneBuy(s, 10.0, "A", choice);
  }

  lemma NothingFree(s: Setup, plan: Semantics, policy: Option<Policy>)
    requires s == AllReserved() && plan == Semantics(0.0, None) && policy == Some(Policy(100.0, 0.0))
    ensures FromPolicy(s, plan, 500.0, policy)
    ensures Max(0.0, s.liquidCash - ApplyPolicy(plan, 500.0, s.liquidCash, policy).reservedCash) == 0.0
  {
    assert PlatformReserve(500.0, policy) == 100.0;
    hide PlatformReserve;
  }

  lemma NothingReleased(price: real, sells: seq<Submission>)
    ensures Friendly(price).release(sells) == 0.0
  {
  }

  lemma ReservedBuy(s: Setup, choice: Choice)
    requires s == AllReserved() && choice == Place(Limit("A", Buy, 5, 10.0), 50.0)
    ensures s.liquidCash == 100.0 && Universe(s) == {"A"} && Moves(s, "A") && Drift(s, "A") > 0.0
    ensures choice == FirstBuy(s, 10.0, "A") && IsBuy(choice.request) && Amount(choice.request) == 50.0
  {
    FloorQuotientUnique(50.0, 10.0, 5);
    assert RoundCents(10.0) == 10.0;
    hide RoundCents;
  }

  lemma SpentOnce(order: Request)
    requires IsBuy(order)
    ensures Spent([Filled(order)]) == Amount(order)
  {
    SpentAppend([], Filled(order));
    assert [] + [Filled(order)] == [Filled(order)];
    hide Amount;
  }

  /** Two dollar amounts to buy from 2.015: 1.015, and what is left. */
  function TwoAmounts(): Setup {
    SimpleSetup(true, None).(targets := map["A" := 1.015, "B" := 5.0], liquidCash := 2.015)
  }

  /** The first is rounded up and the second is a dollar: the bound of a half-cent over is reached. */
  lemma NotionalBoundTight()
    ensures var s := TwoAmounts();
      var m := Cycle(s, Friendly(10.0));
      BuyCount(m.submitted) == 2 && Spent(m.submitted) == BaseCash(s) + HALF_CENT
  {
    var s := TwoAmounts();
    var first, second := Place(Notional("A", 1.02), 1.015), Place(Notional("B", 1.0), 1.0);
    RoundedBuys(s, first, second);
    SpentTwice(first.request, second.request);
    assert Amount(first.request) + Amount(second.request) == BaseCash(s) + HALF_CENT;
    hide *;
    TwoBuys(s, 10.0, "A", "B", first, second);
  }

  lemma RoundedBuys(s: Setup, first: Choice, second: Choice)
    requires s == TwoAmounts()
    requires first == Place(Notional("A", 1.02), 1.015) && second == Place(Notional("B", 1.0), 1.0)
    ensures s.liquidCash == BaseCash(s) == 2.015 && Universe(s) == {"A", "B"} && Le("A", "B")
    ensures Moves(s, "A") && Moves(s, "B") && Drift(s, "A") > 0.0 && Drift(s, "B") > 0.0
    ensures first == FirstBuy(s, 10.0, "A") && second == NextBuy(s, 10.0, "B", first.cost)
  {
    assert RoundCents(1.015) == 1.02 && RoundCents(1.0) == 1.0;
    hide RoundCents;
  }

  lemma SpentTwice(first: Request, second: Request)
    requires IsBuy(first) && IsBuy(second)
    ensures Spent([Filled(first), Filled(second)]) == Amount(first) + Amount(second)
    ensures BuyCount([Filled(first), Filled(second)]) == 2
  {
    hide Amount;
    SpentAppend([], Filled(first));
    SpentAppend([Filled(first)], Filled(second));
    assert [] + [Filled(first)] == [Filled(first)];
    assert [Filled(first)] + [Filled(second)] == [Filled(first), Filled(second)];
  }
}
