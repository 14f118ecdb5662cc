/** When the orders of the planner pass the local safety check. */
module LocalSafety {
  import opened Wrappers
  import opened Money
  import opened Broker
  import opened Planner
  import opened CashSafety
  import opened OrderLimits

  const LIMIT_SELL_DISCOUNT := 0.995

  /** The two switches of live trading: enabled by configuration, and acknowledged on the command line. */
  datatype Switches = Switches(enabled: bool, acknowledged: bool)

  predicate Passes(s: Setup, w: Switches, r: Request) {
    ValidateStockOrder(ToStockOrder(r, s.maxNotional), s.dryRun, w.enabled, w.acknowledged) == None
  }

  /** A dry run needs no switch. */
  predicate MayTrade(s: Setup, w: Switches) {
    s.dryRun || (w.enabled && w.acknowledged)
  }

  /** No cap; or a positive one that, where dollar amounts reach it, does not round up to the next cent. */
  predicate CapAllowed(s: Setup) {
    s.maxNotional.Some? ==>
      && s.maxNotional.value > 0.0
      && (s.notional && s.maxNotional.value >= MIN_NOTIONAL ==> RoundCents(s.maxNotional.value) <= s.maxNotional.value)
  }

  /** The most shares one capped sell can be. */
  function MostShares(cap: real, price: real): int
    requires price > 0.0
  {
    FloorQuantity(cap / price)
  }

  /**
   * What a quote must be for its sells to pass: no share fits the cap at all; or the limit does not round to
   * nothing, and outside a dry run the most shares that fit the cap still fit it at the limit.
   */
  predicate QuoteAllowed(s: Setup, price: real)
    requires price > 0.0
  {
    || (Cap(s).Some? && MostShares(Cap(s).value, price) == 0)
    || (DiscountedPrice(s, price) > HALF_CENT
        && (s.dryRun || Cap(s).None? || MostShares(Cap(s).value, price) as real * LimitSellPrice(s, price) <= Cap(s).value))
  }

  // ----- sells -----

  lemma RoundsToSomething(x: real)
    ensures RoundCents(x) > 0.0 <==> x > HALF_CENT
  {
    assert RoundHalfEven(x * CENTS) >= 1 <==> x * CENTS > 0.5;
  }

  /** A sell passes exactly when the cap is not a wrong one, its limit is not zero, and it fits the cap at that limit. */
  lemma SellPassesExactly(s: Setup, w: Switches, d: Delta)
    requires d.price > 0.0 && Tradable(d.symbol) && SellChoice(s, d).Place?
    ensures Passes(s, w, SellChoice(s, d).request) <==>
              && MayTrade(s, w)
              && (s.maxNotional.Some? ==> s.maxNotional.value > 0.0)
              && DiscountedPrice(s, d.price) > HALF_CENT
              && (s.dryRun || Cap(s).None? || SellQuantity(s, d) as real * LimitSellPrice(s, d.price) <= Cap(s).value)
  {
    hide SellQuantity, LimitSellPrice, DiscountedPrice, Passes, Tradable;
    var r := SellChoice(s, d).request;
    assert r == Limit(d.symbol, Sell, SellQuantity(s, d), LimitSellPrice(s, d.price)) && r.quantity > 0;
    LimitPositive(s, d.price);
    LimitPassesExactly(s, w, r);
  }

  lemma LimitPositive(s: Setup, price: real)
    ensures LimitSellPrice(s, price) > 0.0 <==> DiscountedPrice(s, price) > HALF_CENT
  {
    hide RoundCents, DiscountedPrice;
    RoundsToSomething(DiscountedPrice(s, price));
  }

  lemma LimitPassesExactly(s: Setup, w: Switches, r: Request)
    requires r.Limit? && Tradable(r.symbol) && r.quantity > 0
    ensures Passes(s, w, r) <==>
              && MayTrade(s, w)
              && (s.maxNotional.Some? ==> s.maxNotional.value > 0.0)
              && r.price > 0.0
              && (s.dryRun || Cap(s).None? || r.quantity as real * r.price <= Cap(s).value)
  {
    hide Tradable;
  }

  lemma AtMostMost(s: Setup, d: Delta)
    requires d.price > 0.0 && Cap(s).Some?
    ensures SellQuantity(s, d) <= MostShares(Cap(s).value, d.price)
  {
    SellBudgetBounds(s, d);
    QuotientOrder(SellBudget(s, d), Cap(s).value, d.price);
    hide SellBudget;
  }

  lemma QuotientOrder(a: real, b: real, price: real)
    requires a <= b && price > 0.0
    ensures FloorQuantity(a / price) <= FloorQuantity(b / price)
  {
    FloorQuotient(a, price);
    FloorQuotient(b, price);
    OrderOf(a, b, price, (a / price).Floor, (b / price).Floor);
  }

  lemma OrderOf(a: real, b: real, price: real, p: int, q: int)
    requires price > 0.0 && a <= b && p as real * price <= a && b < (q + 1) as real * price
    ensures p <= q
  {
    if q < p {
      MultiplyOrder((q + 1) as real, p as real, price);
    }
  }

  lemma FewerShares(q: int, most: int, limit: real, cap: real)
    requires q <= most && limit >= 0.0 && most as real * limit <= cap
    ensures q as real * limit <= cap
  {
    MultiplyOrder(q as real, most as real, limit);
  }

  lemma SellPasses(s: Setup, w: Switches, d: Delta)
    requires CapAllowed(s) && MayTrade(s, w) && d.price > 0.0 && Tradable(d.symbol) && QuoteAllowed(s, d.price)
    ensures SellChoice(s, d).Place? ==> Passes(s, w, SellChoice(s, d).request)
  {
    hide Passes, SellQuantity, MostShares, LimitSellPrice, DiscountedPrice;
    if SellChoice(s, d).Place? {
      SellPassesExactly(s, w, d);
      LimitPositive(s, d.price);
      if Cap(s).Some? {
        AtMostMost(s, d);
        FitsAtLimit(s, SellQuantity(s, d), d.price);
      }
    }
  }

  lemma FitsAtLimit(s: Setup, quantity: int, price: real)
    requires price > 0.0 && QuoteAllowed(s, price) && Cap(s).Some? && 0 < quantity <= MostShares(Cap(s).value, price)
    requires DiscountedPrice(s, price) > HALF_CENT ==> LimitSellPrice(s, price) > 0.0
    ensures DiscountedPrice(s, price) > HALF_CENT
    ensures s.dryRun || quantity as real * LimitSellPrice(s, price) <= Cap(s).value
  {
    hide MostShares, LimitSellPrice, DiscountedPrice;
    if !s.dryRun {
      FewerShares(quantity, MostShares(Cap(s).value, price), LimitSellPrice(s, price), Cap(s).value);
    }
  }

  /** A limit above zero and not above the quote is enough, whatever the cap. */
  lemma LimitBelowQuoteSuffices(s: Setup, price: real)
    requires price > 0.0 && DiscountedPrice(s, price) > HALF_CENT && LimitSellPrice(s, price) <= price
    ensures QuoteAllowed(s, price)
  {
    if Cap(s).Some? {
      var cap := Cap(s).value;
      FloorQuotient(cap, price);
      MultiplyOrder(LimitSellPrice(s, price), price, MostShares(cap, price) as real);
      hide RoundCents;
    }
  }

  /** From a dollar on, the discounted limit never rounds above the quote. */
  lemma DollarQuotesAllowed(s: Setup, price: real)
    requires price >= 1.0 && s.sellDiscount == LIMIT_SELL_DISCOUNT
    ensures QuoteAllowed(s, price)
  {
    RoundError(price * s.sellDiscount);
    hide RoundCents;
    LimitBelowQuoteSuffices(s, price);
  }

  // ----- buys -----

  lemma LimitPasses(s: Setup, w: Switches, r: Request)
    requires CapAllowed(s) && MayTrade(s, w) && r.Limit? && Tradable(r.symbol) && r.quantity > 0 && r.price > 0.0
    requires Cap(s).Some? ==> Amount(r) <= Cap(s).value
    ensures Passes(s, w, r)
  {
    LimitPassesExactly(s, w, r);
    hide Passes, Tradable;
  }

  lemma BuyPasses(s: Setup, w: Switches, d: Delta, cash: real, allowTopUp: bool)
    requires CapAllowed(s) && MayTrade(s, w) && Tradable(d.symbol) && cash >= 0.0
    ensures var choice := BuyChoice(s, d, cash, allowTopUp);
      choice.Place? ==> Passes(s, w, choice.request)
  {
    hide Passes, NotionalBudget, BuyQuantity, LimitBuyPrice, RoundCents, CapAllowed;
    if BuyChoice(s, d, cash, allowTopUp).Place? {
      if s.notional {
        NotionalFits(s, d, cash);
        NotionalUnderCap(s, d, cash);
        NotionalPasses(s, w, d.symbol, NotionalBudget(s, d, cash));
      } else {
        WholeShareFits(s, d, cash, allowTopUp);
        BuyLimitPositive(s, d, cash, allowTopUp);
        LimitPasses(s, w, BuyChoice(s, d, cash, allowTopUp).request);
      }
    }
  }

  lemma NotionalUnderCap(s: Setup, d: Delta, cash: real)
    ensures Cap(s).Some? && NotionalBudget(s, d, cash) > 0.0 ==> NotionalBudget(s, d, cash) <= Cap(s).value
  {
  }

  lemma BuyLimitPositive(s: Setup, d: Delta, cash: real, allowTopUp: bool)
    ensures BuyQuantity(s, d, cash, allowTopUp) > 0 ==> LimitBuyPrice(s, d) > 0.0
  {
  }

  lemma NotionalPasses(s: Setup, w: Switches, symbol: string, budget: real)
    requires CapAllowed(s) && MayTrade(s, w) && s.notional && Tradable(symbol)
    requires MIN_NOTIONAL <= budget && MIN_NOTIONAL <= RoundCents(budget)
    requires Cap(s).Some? ==> budget <= Cap(s).value
    ensures Passes(s, w, Notional(symbol, RoundCents(budget)))
  {
    if s.maxNotional.Some? {
      RoundMonotone(budget, s.maxNotional.value);
    }
  }

  // ----- every order of a cycle -----

  predicate Ordinary(s: Setup, d: Delta) {
    Tradable(d.symbol) && d.price > 0.0 && QuoteAllowed(s, d.price)
  }

  predicate Clean(s: Setup, w: Switches, m: Machine) {
    && m.cash >= 0.0
    && (forall r | r in m.requests :: Passes(s, w, r))
    && (forall d | d in m.buys :: Ordinary(s, d))
    && ((m.stage.Selling? || m.stage.Buying?) ==> forall d | d in m.stage.rest :: Ordinary(s, d))
  }

  lemma ApplyClean(s: Setup, w: Switches, m: Machine, c: Change)
    requires Fits(m, c) && Clean(s, w, m)
    requires c.Settle? ==> Passes(s, w, c.request)
    requires c.PassGate? ==> c.cash >= 0.0
    ensures Clean(s, w, Apply(m, c))
  {
    hide Ordinary, Passes;
  }

  lemma StepClean(s: Setup, w: Switches, m: Machine, e: Event)
    requires Quoted(m) && Enabled(s, m, e) && Clean(s, w, m) && CapAllowed(s) && MayTrade(s, w)
    ensures Clean(s, w, After(s, m, e))
  {
    var c := ChangeOf(s, m, e);
    hide SellChoice, BuyChoice, Passes, CapAllowed, QuoteAllowed;
    if c.Settle? {
      assert m.stage.rest[0] in m.stage.rest;
      if m.stage.Selling? {
        SellPasses(s, w, m.stage.rest[0]);
      } else {
        BuyPasses(s, w, m.stage.rest[0], m.cash, SellSubmitted(m));
      }
    }
    ApplyClean(s, w, m, c);
  }

  lemma {:induction false} RunClean(s: Setup, w: Switches, env: Env, m: Machine)
    requires Quoted(m) && Clean(s, w, m) && CapAllowed(s) && MayTrade(s, w)
    ensures Clean(s, w, Run(s, env, m))
    decreases Left(m)
  {
    RunUnfolds(s, env, m);
    hide *;
    if !m.stage.Ended? {
      var e := Answer(s, env, m);
      StepClean(s, w, m, e);
      RunClean(s, w, env, After(s, m, e));
    }
  }

  /** Named symbols, and quotes at which every sell passes. */
  ghost predicate WorldAllowed(s: Setup, quote: Quote) {
    && (forall x | x in Universe(s) :: Tradable(x))
    && (forall x: string :: QuotePrice(quote, x).Some? ==>
          QuotePrice(quote, x).value > 0.0 && QuoteAllowed(s, QuotePrice(quote, x).value))
  }

  /**
   * With live trading enabled and acknowledged, an allowed cap, named symbols and allowed quotes, every request
   * of every cycle passes the local safety check.
   */
  lemma EveryOrderPasses(s: Setup, w: Switches, env: Env)
    requires CapAllowed(s) && MayTrade(s, w) && WorldAllowed(s, env.quote)
    ensures forall r | r in Cycle(s, env).requests :: Passes(s, w, r)
  {
    var m := CycleStarts(s, env);
    hide *;
    ScannedOrdinary(s, env.quote);
    StartClean(s, w, m, ScanAll(s, env.quote).deltas);
    RunClean(s, w, env, m);
    CleanPasses(s, w, Run(s, env, m));
  }

  lemma ScannedOrdinary(s: Setup, quote: Quote)
    requires WorldAllowed(s, quote)
    ensures forall d | d in ScanAll(s, quote).deltas :: Ordinary(s, d)
  {
    AllScanned(s, quote);
    hide ScanAll, Universe, QuotePrice, QuoteAllowed, Tradable;
  }

  lemma StartClean(s: Setup, w: Switches, m: Machine, deltas: seq<Delta>)
    requires forall d | d in deltas :: Ordinary(s, d)
    requires m.stage.Selling? && m.requests == [] && m.cash == CashWith(s, 0.0)
    requires forall d | d in m.buys :: d in deltas
    requires forall d | d in m.stage.rest :: d in deltas
    ensures Clean(s, w, m)
  {
    hide Ordinary, Passes;
  }

  lemma CleanPasses(s: Setup, w: Switches, m: Machine)
    requires Clean(s, w, m)
    ensures forall r | r in m.requests :: Passes(s, w, r)
  {
    hide Ordinary, Passes;
  }

  /** In particular with quotes of at least a dollar. */
  lemma EveryOrderPassesFromADollar(s: Setup, w: Switches, env: Env)
    requires CapAllowed(s) && MayTrade(s, w) && s.sellDiscount == LIMIT_SELL_DISCOUNT
    requires forall x | x in Universe(s) :: Tradable(x)
    requires forall x: string :: QuotePrice(env.quote, x).Some? ==> QuotePrice(env.quote, x).value >= 1.0
    ensures forall r | r in Cycle(s, env).requests :: Passes(s, w, r)
  {
    forall x: string | QuotePrice(env.quote, x).Some?
      ensures QuoteAllowed(s, QuotePrice(env.quote, x).value)
    {
      DollarQuotesAllowed(s, QuotePrice(env.quote, x).value);
    }
    EveryOrderPasses(s, w, env);
  }

  /** Without a dry run, one switch off is enough: no request of any cycle passes. */
  lemma SwitchesGuard(s: Setup, w: Switches, env: Env)
    requires !s.dryRun && !(w.enabled && w.acknowledged)
    ensures forall r | r in Cycle(s, env).requests :: !Passes(s, w, r)
  {
    forall r | r in Cycle(s, env).requests
      ensures !Passes(s, w, r)
    {
      ValidatesExactly(ToStockOrder(r, s.maxNotional), s.dryRun, w.enabled, w.acknowledged);
    }
    hide Cycle, ValidateStockOrder;
  }
}
