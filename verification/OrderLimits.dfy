/** What a single order may be: no sell beyond the holding or the target, and nothing the local safety check refuses. */
module OrderLimits {
  import opened Wrappers
  import opened Ordering
  import opened Money
  import opened Broker
  import opened Planner

  // ----- sells -----

  function Sellable(s: Setup, d: Delta): real {
    Max(0.0, Get(s.sellable, d.symbol))
  }

  lemma SellBudgetBounds(s: Setup, d: Delta)
    requires d.price > 0.0
    ensures 0.0 <= SellBudget(s, d) <= Sellable(s, d) * d.price
    ensures Cap(s).Some? ==> SellBudget(s, d) <= Cap(s).value
  {
    MultiplyOrder(0.0, Sellable(s, d), d.price);
  }

  lemma FloorQuantityWithin(budget: real, held: real, price: real)
    requires 0.0 <= budget <= held * price && price > 0.0
    ensures var quantity := FloorQuantity(budget / price);
      0.0 <= quantity as real <= held && quantity as real * price <= budget < (quantity + 1) as real * price
  {
    FloorQuotient(budget, price);
    WithinHeld(held, price, FloorQuantity(budget / price), budget);
  }

  lemma WithinHeld(held: real, price: real, quantity: int, budget: real)
    requires quantity as real * price <= budget <= held * price && price > 0.0
    ensures quantity as real <= held
  {
    if quantity as real > held {
      MultiplyStrict(held, quantity as real, price);
    }
  }

  lemma SellWithinBudget(s: Setup, d: Delta)
    requires d.price > 0.0
    ensures SellQuantity(s, d) as real * d.price <= SellBudget(s, d) < (SellQuantity(s, d) + 1) as real * d.price
    ensures 0.0 <= SellQuantity(s, d) as real <= Sellable(s, d)
  {
    hide SellBudget, Sellable, FloorQuantity, Cap;
    SellBudgetBounds(s, d);
    FloorQuantityWithin(SellBudget(s, d), Sellable(s, d), d.price);
  }

  // ----- what a sell leaves -----

  /** Dollars of whole shares that an amount pays for at a price. */
  function SharesWorth(amount: real, price: real): real
    requires price > 0.0
  {
    FloorQuantity(amount / price) as real * price
  }

  lemma SharesWithin(amount: real, price: real)
    requires price > 0.0 && amount >= 0.0
    ensures 0.0 <= SharesWorth(amount, price) <= amount
  {
    FloorQuotient(amount, price);
    MultiplyOrder(0.0, FloorQuantity(amount / price) as real, price);
  }

  function SellableValue(s: Setup, d: Delta): real {
    Sellable(s, d) * d.price
  }

  function Target(s: Setup, d: Delta): real {
    Max(0.0, Get(s.targets, d.symbol))
  }

  /** Value of the holding, at the quote, once the sell is done. */
  function LeftAfter(s: Setup, d: Delta): real
    requires d.price > 0.0
  {
    (Sellable(s, d) - SellQuantity(s, d) as real) * d.price
  }

  /** The holding covers its target, and the shares the drift alone would sell do not reach below it. */
  predicate DriftFits(s: Setup, d: Delta)
    requires d.price > 0.0
  {
    && SellableValue(s, d) >= Target(s, d)
    && SharesWorth(Capped(s, Min(-d.value, SellableValue(s, d))), d.price) <= SellableValue(s, d) - Target(s, d)
  }

  lemma LeftIs(s: Setup, d: Delta)
    requires d.price > 0.0
    ensures LeftAfter(s, d) == SellableValue(s, d) - SharesWorth(SellBudget(s, d), d.price)
    ensures 0.0 <= SharesWorth(SellBudget(s, d), d.price) <= SellBudget(s, d)
    ensures SellableValue(s, d) >= 0.0
  {
    SellBudgetBounds(s, d);
    SharesWithin(SellBudget(s, d), d.price);
    MultiplyOrder(0.0, Sellable(s, d), d.price);
    var held, quantity := Sellable(s, d), SellQuantity(s, d) as real;
    assert (held - quantity) * d.price == held * d.price - quantity * d.price;
  }

  /** The budget is the drift where that exceeds what the position could spare, and else at most the spare part. */
  lemma BudgetIs(s: Setup, d: Delta)
    requires d.price > 0.0 && d.value < 0.0 && SellableValue(s, d) >= Target(s, d)
    ensures var value := SellableValue(s, d);
      if -d.value > value - Target(s, d) then SellBudget(s, d) == Capped(s, Min(-d.value, value))
      else SellBudget(s, d) <= value - Target(s, d)
    ensures 0.0 <= Capped(s, Min(-d.value, SellableValue(s, d))) <= -d.value
  {
  }

  /**
   * A sell never exceeds the sellable quantity. It leaves at least the non-negative target exactly when the
   * sellable value covers the target and the drift's own shares fit above it; a recorded value that the sellable
   * quantity covers at the quote is enough for that.
   */
  lemma SellsNeverOvershootExactly(s: Setup, d: Delta)
    requires d.price > 0.0 && d.value < 0.0
    ensures 0.0 <= SellQuantity(s, d) as real <= Sellable(s, d)
    ensures LeftAfter(s, d) >= Target(s, d) <==> DriftFits(s, d)
    ensures d.value == Drift(s, d.symbol) && Get(s.marketValues, d.symbol) <= SellableValue(s, d) ==>
              LeftAfter(s, d) >= Target(s, d)
  {
    SellWithinBudget(s, d);
    LeftIs(s, d);
    var value, target := SellableValue(s, d), Target(s, d);
    assert target >= 0.0 && target >= Get(s.targets, d.symbol);
    if value >= target {
      BudgetIs(s, d);
      SharesWithin(Capped(s, Min(-d.value, value)), d.price);
    }
    hide SellBudget, SellQuantity, SharesWorth, LeftAfter, SellableValue, Sellable, Capped;
  }

  // ----- buys -----

  /**
   * A buy takes the most whole shares the budget pays for, so it never takes the holding beyond its target by
   * value. Only when the budget does not pay for one share, one may be added as a top-up, under exactly the
   * conditions the code names.
   */
  lemma BuysNeverOvershoot(s: Setup, d: Delta, cash: real, allowTopUp: bool)
    requires !s.notional && cash >= 0.0 && d.value > 0.0 && LimitBuyPrice(s, d) > 0.0
    ensures var limit, quantity, budget := LimitBuyPrice(s, d), BuyQuantity(s, d, cash, allowTopUp), BuyBudget(s, d, cash);
      var target, held := Get(s.targets, d.symbol), Held(s, d.symbol);
      && budget == Capped(s, Min(d.value, cash))
      && (limit <= budget ==>
            quantity as real * limit <= budget < (quantity + 1) as real * limit && quantity as real * limit <= d.value)
      && (budget < limit ==>
            && 0 <= quantity <= 1
            && (quantity == 1 <==> allowTopUp && limit <= Capped(s, cash)
                                   && TopsUp(target, Get(s.marketValues, d.symbol), held, limit)))
  {
    hide LimitBuyPrice, PlannedBuyQuantity, TopsUp, Held;
    BudgetWithin(s, d, cash);
    var limit, budget := LimitBuyPrice(s, d), BuyBudget(s, d, cash);
    if limit <= budget {
      BuysMost(s, d, budget, Capped(s, cash), allowTopUp);
    } else {
      TopUpExactly(s, d, budget, Capped(s, cash), allowTopUp);
    }
    hide BuyBudget, Capped;
  }

  lemma BudgetWithin(s: Setup, d: Delta, cash: real)
    ensures BuyBudget(s, d, cash) == Capped(s, Min(d.value, cash)) <= d.value
  {
  }

  lemma BuysMost(s: Setup, d: Delta, budget: real, power: real, allowTopUp: bool)
    requires 0.0 < LimitBuyPrice(s, d) <= budget
    ensures var limit, quantity := LimitBuyPrice(s, d), PlannedBuyQuantity(s, d, budget, power, allowTopUp);
      quantity as real * limit <= budget < (quantity + 1) as real * limit
  {
    hide LimitBuyPrice, TopsUp;
    AtLeastOneShare(budget, LimitBuyPrice(s, d));
    FloorQuotient(budget, LimitBuyPrice(s, d));
  }

  lemma TopUpExactly(s: Setup, d: Delta, budget: real, power: real, allowTopUp: bool)
    requires 0.0 < LimitBuyPrice(s, d) && budget < LimitBuyPrice(s, d)
    ensures var limit := LimitBuyPrice(s, d);
      PlannedBuyQuantity(s, d, budget, power, allowTopUp)
      == if allowTopUp && limit <= power
            && TopsUp(Get(s.targets, d.symbol), Get(s.marketValues, d.symbol), Held(s, d.symbol), limit) then 1 else 0
  {
    hide LimitBuyPrice, TopsUp, Held;
    NoShare(Max(0.0, budget), LimitBuyPrice(s, d));
  }

  /** A topped-up holding ends at most half a share above its target. */
  lemma TopUpClose(target: real, current: real, held: real, limit: real)
    ensures TopsUp(target, current, held, limit) ==> (held.Floor + 1) as real * limit <= Max(0.0, target) + 0.5 * limit
  {
    if TopsUp(target, current, held, limit) {
      HalfAbove(Max(0.0, target), held.Floor, limit);
    }
  }

  lemma AtLeastOneShare(budget: real, limit: real)
    requires 0.0 < limit <= budget
    ensures (budget / limit).Floor >= 1
  {
    FloorQuotient(budget, limit);
    if (budget / limit).Floor < 1 {
      MultiplyOrder(((budget / limit).Floor + 1) as real, 1.0, limit);
    }
  }

  lemma NoShare(budget: real, limit: real)
    requires 0.0 <= budget < limit
    ensures (budget / limit).Floor == 0
  {
    FloorQuotientUnique(budget, limit, 0);
  }

  lemma HalfAbove(target: real, shares: int, limit: real)
    requires limit > 0.0 && target / limit >= shares as real + 0.5
    ensures (shares + 1) as real * limit <= target + 0.5 * limit
  {
    var ratio := target / limit;
    assert ratio * limit == target;
    MultiplyOrder(shares as real + 0.5, ratio, limit);
  }

  // ----- every sell of a cycle -----

  /** A delta as the scan makes it. */
  predicate FromScan(s: Setup, quote: Quote, d: Delta) {
    d.symbol in Universe(s) && QuotePrice(quote, d.symbol) == Some(d.price) && d.value == Drift(s, d.symbol)
  }

  /** The delta of a symbol at this quote. */
  function DeltaOf(s: Setup, symbol: string, price: real): Delta {
    Delta(symbol, Drift(s, symbol), price)
  }

  /** The request is the sell its symbol's drift and quote call for. */
  predicate SoldAs(s: Setup, quote: Quote, r: Request) {
    && r.symbol in Universe(s)
    && QuotePrice(quote, r.symbol).Some? && QuotePrice(quote, r.symbol).value > 0.0
    && var d := DeltaOf(s, r.symbol, QuotePrice(quote, r.symbol).value);
       d.value < 0.0 && SellChoice(s, d) == Place(r, 0.0)
  }

  predicate SellsTraced(s: Setup, quote: Quote, m: Machine) {
    && (forall r | r in m.requests && !IsBuy(r) :: SoldAs(s, quote, r))
    && (m.stage.Selling? ==> forall d | d in m.stage.rest :: FromScan(s, quote, d) && d.value < 0.0)
  }

  lemma ApplyTraced(s: Setup, quote: Quote, m: Machine, c: Change)
    requires Fits(m, c) && SellsTraced(s, quote, m)
    requires c.Settle? && m.stage.Selling? ==> SoldAs(s, quote, c.request)
    ensures SellsTraced(s, quote, Apply(m, c))
  {
    hide SoldAs, FromScan;
  }

  lemma StepTraced(s: Setup, quote: Quote, m: Machine, e: Event)
    requires Quoted(m) && Enabled(s, m, e) && SellsTraced(s, quote, m)
    ensures SellsTraced(s, quote, After(s, m, e))
  {
    var c := ChangeOf(s, m, e);
    if c.Settle? && m.stage.Selling? {
      assert m.stage.rest[0] in m.stage.rest;
      HeadSold(s, quote, m.stage.rest[0], c.request);
    }
    hide SoldAs, FromScan, SellChoice, BuyChoice;
    ApplyTraced(s, quote, m, c);
  }

  lemma HeadSold(s: Setup, quote: Quote, d: Delta, r: Request)
    requires FromScan(s, quote, d) && d.value < 0.0 && d.price > 0.0
    requires SellChoice(s, d).Place? && SellChoice(s, d).request == r
    ensures SoldAs(s, quote, r)
  {
    hide SellQuantity, RoundCents;
    assert DeltaOf(s, r.symbol, d.price) == d;
  }

  lemma {:induction false} RunTraced(s: Setup, env: Env, m: Machine)
    requires Quoted(m) && SellsTraced(s, env.quote, m)
    ensures SellsTraced(s, env.quote, Run(s, env, m))
    decreases Left(m)
  {
    RunUnfolds(s, env, m);
    hide *;
    if !m.stage.Ended? {
      var e := Answer(s, env, m);
      StepTraced(s, env.quote, m, e);
      RunTraced(s, env, After(s, m, e));
    }
  }

  lemma {:induction false} ScanScans(s: Setup, quote: Quote, symbols: seq<string>)
    requires forall x | x in symbols :: x in Universe(s)
    ensures forall d | d in Scan(s, quote, symbols).deltas :: FromScan(s, quote, d)
  {
    hide Universe;
    if symbols != [] {
      assert forall x | x in symbols[..|symbols| - 1] :: x in symbols;
      ScanScans(s, quote, symbols[..|symbols| - 1]);
      assert symbols[|symbols| - 1] in symbols;
    }
  }

  lemma AllScanned(s: Setup, quote: Quote)
    ensures forall d | d in ScanAll(s, quote).deltas :: FromScan(s, quote, d)
  {
    var symbols := Sorted(Universe(s));
    assert ScanAll(s, quote) == Scan(s, quote, symbols);
    assert forall x | x in symbols :: x in Universe(s);
    hide *;
    ScanScans(s, quote, symbols);
  }

  lemma StartTraced(s: Setup, env: Env, m: Machine)
    requires m == Start(s, ScanAll(s, env.quote))
    ensures SellsTraced(s, env.quote, m)
  {
    AllScanned(s, env.quote);
    FiltersSelect(ScanAll(s, env.quote).deltas);
    hide ScanAll, FromScan, SoldAs, Sells, Buys;
  }

  /**
   * Every sell request of every cycle is at most the sellable quantity, and leaves at least the target exactly
   * when the drift fits; so it does whenever the recorded value is covered.
   */
  lemma CycleSellsWithin(s: Setup, env: Env, r: Request)
    requires r in Cycle(s, env).requests && !IsBuy(r)
    ensures SoldAs(s, env.quote, r)
    ensures var d := DeltaOf(s, r.symbol, QuotePrice(env.quote, r.symbol).value);
      && r.Limit? && r.quantity == SellQuantity(s, d) && 0.0 < r.quantity as real <= Sellable(s, d)
      && (LeftAfter(s, d) >= Target(s, d) <==> DriftFits(s, d))
      && (Get(s.marketValues, d.symbol) <= SellableValue(s, d) ==> LeftAfter(s, d) >= Target(s, d))
  {
    var m := CycleStarts(s, env);
    StartTraced(s, env, m);
    RunTraced(s, env, m);
    SoldWithin(s, env.quote, r);
  }

  lemma SoldWithin(s: Setup, quote: Quote, r: Request)
    requires SoldAs(s, quote, r)
    ensures var d := DeltaOf(s, r.symbol, QuotePrice(quote, r.symbol).value);
      && r.Limit? && r.quantity == SellQuantity(s, d) && 0.0 < r.quantity as real <= Sellable(s, d)
      && (LeftAfter(s, d) >= Target(s, d) <==> DriftFits(s, d))
      && (Get(s.marketValues, d.symbol) <= SellableValue(s, d) ==> LeftAfter(s, d) >= Target(s, d))
  {
    hide SellQuantity, RoundCents, LeftAfter, DriftFits, SellableValue, Target, Sellable;
    SellsNeverOvershootExactly(s, DeltaOf(s, r.symbol, QuotePrice(quote, r.symbol).value));
  }
}
