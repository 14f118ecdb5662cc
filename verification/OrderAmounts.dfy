/** How large each order is, in the figures of the plan: the most whole shares, or the dollars, that all limits allow. */
module OrderAmounts {
  import opened Wrappers
  import opened Money
  import opened Broker
  import opened Planner
  import opened OrderLimits

  /** Within the configured cap: none, one that is not positive, or one at least this large. */
  predicate UnderCap(s: Setup, amount: real) {
    s.maxNotional.None? || s.maxNotional.value <= 0.0 || amount <= s.maxNotional.value
  }

  // ----- sells -----

  /** What is sellable, at the quote. */
  function Position(s: Setup, d: Delta): real {
    Get(s.sellable, d.symbol) * d.price
  }

  /**
   * Shares worth so much are held, fit the cap, and do not go beyond the drift, or not beyond what the position has
   * over its target.
   */
  predicate MaySell(s: Setup, d: Delta, worth: real) {
    && worth <= Position(s, d)
    && UnderCap(s, worth)
    && (worth <= -d.value || worth <= Position(s, d) - Max(0.0, Get(s.targets, d.symbol)))
  }

  function WholeShares(amount: real, price: real): int
    requires price > 0.0
  {
    FloorQuantity(amount / price)
  }

  lemma WithinFloor(budget: real, price: real, quantity: int)
    requires price > 0.0 && budget >= 0.0 && quantity >= 1
    ensures quantity <= WholeShares(budget, price) <==> quantity as real * price <= budget
  {
    FloorQuotient(budget, price);
    var most := FloorQuantity(budget / price);
    if quantity <= most {
      MultiplyOrder(quantity as real, most as real, price);
    } else {
      MultiplyOrder((most + 1) as real, quantity as real, price);
    }
  }

  lemma SellBudgetIs(s: Setup, d: Delta, worth: real)
    requires d.price > 0.0 && d.value < 0.0 && worth > 0.0
    ensures worth <= SellBudget(s, d) <==> MaySell(s, d, worth)
  {
    hide *;
    var position := Max(0.0, Get(s.sellable, d.symbol)) * Max(0.0, d.price);
    PositionIs(s, d);
    BudgetFrom(s, d, position);
    if position > 0.0 {
      BudgetAllows(s, worth, position, d.value, Get(s.targets, d.symbol));
    }
    MaySellIs(s, d, worth);
  }

  lemma PositionIs(s: Setup, d: Delta)
    requires d.price > 0.0
    ensures var position := Max(0.0, Get(s.sellable, d.symbol)) * Max(0.0, d.price);
      if Position(s, d) <= 0.0 then position == 0.0 else position == Position(s, d)
  {
    HeldValue(Get(s.sellable, d.symbol), d.price);
  }

  lemma MaySellIs(s: Setup, d: Delta, worth: real)
    ensures var position := Position(s, d);
      MaySell(s, d, worth) <==>
        && worth <= position && UnderCap(s, worth)
        && (worth <= -d.value || worth <= position - Max(0.0, Get(s.targets, d.symbol)))
  {
    hide Position;
  }

  lemma BudgetFrom(s: Setup, d: Delta, position: real)
    requires position == Max(0.0, Get(s.sellable, d.symbol)) * Max(0.0, d.price)
    ensures var target := Get(s.targets, d.symbol);
      SellBudget(s, d)
      == if position <= 0.0 then 0.0
         else Capped(s, Min(Max(Max(0.0, Abs(d.value)), Max(0.0, position - Max(0.0, target))), position))
  {
    hide Capped;
  }

  lemma SellQuantityIs(s: Setup, d: Delta)
    requires d.price > 0.0
    ensures SellQuantity(s, d) == WholeShares(SellBudget(s, d), d.price)
  {
    hide SellBudget, FloorQuantity;
  }

  lemma BudgetAllows(s: Setup, worth: real, position: real, drift: real, target: real)
    requires position > 0.0 && worth > 0.0 && drift < 0.0
    ensures worth <= Capped(s, Min(Max(Max(0.0, Abs(drift)), Max(0.0, position - Max(0.0, target))), position)) <==>
              worth <= position && UnderCap(s, worth) && (worth <= -drift || worth <= position - Max(0.0, target))
  {
  }

  lemma HeldValue(shares: real, price: real)
    requires price > 0.0
    ensures if shares <= 0.0 then shares * price <= 0.0 && Max(0.0, shares) * Max(0.0, price) == 0.0
            else shares * price > 0.0 && Max(0.0, shares) * Max(0.0, price) == shares * price
  {
    if shares <= 0.0 {
      MultiplyOrder(shares, 0.0, price);
    } else {
      MultiplyStrict(0.0, shares, price);
    }
  }

  /** A sell is the most shares that may be sold: no number of shares above it may be, and every one up to it may. */
  lemma SellsMost(s: Setup, d: Delta, quantity: int, worth: real)
    requires d.price > 0.0 && d.value < 0.0 && quantity >= 1 && worth == quantity as real * d.price
    ensures quantity <= SellQuantity(s, d) <==> MaySell(s, d, worth)
  {
    hide *;
    SellQuantityIs(s, d);
    SellBudgetBounds(s, d);
    WithinFloor(SellBudget(s, d), d.price, quantity);
    MultiplyStrict(0.0, quantity as real, d.price);
    SellBudgetIs(s, d, worth);
  }

  /** Without a cap and without a target, everything that is sellable goes, whatever the quote has become. */
  lemma FullExit(s: Setup, d: Delta)
    requires d.price > 0.0 && d.value < 0.0
    requires Get(s.targets, d.symbol) <= 0.0 && s.maxNotional.None? && Get(s.sellable, d.symbol) >= 0.0
    ensures SellQuantity(s, d) == Get(s.sellable, d.symbol).Floor
  {
    var held := Get(s.sellable, d.symbol);
    HeldValue(held, d.price);
    BudgetFrom(s, d, Max(0.0, held) * Max(0.0, d.price));
    SellQuantityIs(s, d);
    assert SellBudget(s, d) == held * d.price;
    hide SellBudget, SellQuantity;
    WholeSharesOf(SellBudget(s, d), held, d.price);
  }

  lemma WholeSharesOf(budget: real, shares: real, price: real)
    requires price > 0.0 && budget == shares * price
    ensures (budget / price).Floor == shares.Floor
  {
    MultiplyOrder(shares.Floor as real, shares, price);
    assert shares < (shares.Floor + 1) as real;
    MultiplyStrict(shares, (shares.Floor + 1) as real, price);
    FloorQuotientUnique(budget, price, shares.Floor);
  }

  // ----- limits -----

  /** The premium of the symbol, where a positive one is configured, or else the general one. */
  predicate PremiumOf(s: Setup, symbol: string, premium: real) {
    if symbol in s.premiumBySymbol && s.premiumBySymbol[symbol] > 0.0 then premium == s.premiumBySymbol[symbol]
    else premium == s.buyPremium
  }

  /** Limits are the quote with premium or discount, to the nearest cent, ties to even. */
  lemma LimitsExactly(s: Setup, d: Delta, premium: real, raised: real, lowered: real, limit: real)
    requires PremiumOf(s, d.symbol, premium) && raised == d.price * premium && lowered == d.price * s.sellDiscount
    ensures NearestEven(limit, raised) <==> limit == LimitBuyPrice(s, d)
    ensures NearestEven(limit, lowered) <==> limit == LimitSellPrice(s, d.price)
  {
    assert premium == PremiumFor(s, d.symbol);
    assert raised == PremiumPrice(s, d.symbol, d.price) && lowered == DiscountedPrice(s, d.price);
    hide *;
    RoundedLimits(s, d);
    RoundExactly(raised, limit);
    RoundExactly(lowered, limit);
  }

  lemma RoundedLimits(s: Setup, d: Delta)
    ensures LimitBuyPrice(s, d) == RoundCents(PremiumPrice(s, d.symbol, d.price))
    ensures LimitSellPrice(s, d.price) == RoundCents(DiscountedPrice(s, d.price))
  {
    hide RoundCents, PremiumPrice, DiscountedPrice;
  }

  // ----- buys in whole shares -----

  /** Shares worth so much fit the drift, the cash and the cap. */
  predicate MayBuy(s: Setup, d: Delta, cash: real, worth: real) {
    worth <= d.value && worth <= cash && UnderCap(s, worth)
  }

  /**
   * One share more for a holding: allowed after a sell, affordable, the missing value less than a share, and the
   * target at least half a share above the whole shares held.
   */
  predicate MayTopUp(s: Setup, d: Delta, cash: real, allowTopUp: bool, limit: real) {
    var target, missing := Get(s.targets, d.symbol), Get(s.targets, d.symbol) - Get(s.marketValues, d.symbol);
    var held := if s.quantities == map[] then Get(s.sellable, d.symbol) else Get(s.quantities, d.symbol);
    && allowTopUp && limit <= cash && UnderCap(s, limit)
    && held >= 1.0 && 0.0 < missing < limit
    && target >= (held.Floor as real + 0.5) * limit
  }

  lemma RatioAtLeast(target: real, limit: real, shares: real)
    requires limit > 0.0
    ensures target / limit >= shares <==> target >= shares * limit
  {
    var ratio := target / limit;
    assert ratio * limit == target;
    RatioCase(ratio, limit, target, shares);
  }

  lemma RatioCase(ratio: real, limit: real, target: real, shares: real)
    requires limit > 0.0 && ratio * limit == target
    ensures ratio >= shares <==> target >= shares * limit
  {
    if ratio >= shares {
      MultiplyOrder(shares, ratio, limit);
    } else {
      MultiplyStrict(ratio, shares, limit);
    }
  }

  lemma TopsUpExactly(s: Setup, d: Delta, cash: real, allowTopUp: bool, limit: real)
    requires limit > 0.0 && cash >= 0.0
    ensures MayTopUp(s, d, cash, allowTopUp, limit) <==>
              && allowTopUp && limit <= Capped(s, cash)
              && TopsUp(Get(s.targets, d.symbol), Get(s.marketValues, d.symbol), Held(s, d.symbol), limit)
  {
    var target, held := Get(s.targets, d.symbol), Held(s, d.symbol);
    RatioAtLeast(Max(0.0, target), limit, held.Floor as real + 0.5);
    if held >= 1.0 {
      MultiplyStrict(0.0, held.Floor as real + 0.5, limit);
    }
  }

  /**
   * A buy is the most shares that may be bought; where not even one may, a single share exactly if it may be added
   * as a top-up.
   */
  lemma BuysMostOrTopsUp(s: Setup, d: Delta, cash: real, allowTopUp: bool, limit: real, quantity: int, worth: real)
    requires cash >= 0.0 && d.value > 0.0 && quantity >= 1
    requires limit == LimitBuyPrice(s, d) > 0.0 && worth == quantity as real * limit
    ensures quantity <= BuyQuantity(s, d, cash, allowTopUp) <==>
              MayBuy(s, d, cash, worth) || (quantity == 1 && MayTopUp(s, d, cash, allowTopUp, limit))
  {
    hide *;
    var budget := BuyBudget(s, d, cash);
    BudgetBuys(s, d, cash, worth);
    BudgetBuys(s, d, cash, limit);
    MultiplyStrict(0.0, quantity as real, limit);
    WithinFloor(budget, limit, quantity);
    WithinFloor(budget, limit, 1);
    TopsUpExactly(s, d, cash, allowTopUp, limit);
    PlannedIs(s, d, budget, Capped(s, cash), allowTopUp);
    PlannedQuantity(s, d, cash, allowTopUp);
  }

  lemma BudgetBuys(s: Setup, d: Delta, cash: real, worth: real)
    requires cash >= 0.0 && d.value > 0.0
    ensures BuyBudget(s, d, cash) >= 0.0
    ensures worth > 0.0 ==> (worth <= BuyBudget(s, d, cash) <==> MayBuy(s, d, cash, worth))
  {
  }

  lemma PlannedQuantity(s: Setup, d: Delta, cash: real, allowTopUp: bool)
    ensures BuyQuantity(s, d, cash, allowTopUp)
         == PlannedBuyQuantity(s, d, BuyBudget(s, d, cash), Capped(s, cash), allowTopUp)
  {
    hide PlannedBuyQuantity;
  }

  lemma PlannedIs(s: Setup, d: Delta, budget: real, power: real, allowTopUp: bool)
    requires LimitBuyPrice(s, d) > 0.0 && budget >= 0.0
    ensures var limit := LimitBuyPrice(s, d);
      var most := WholeShares(budget, limit);
      PlannedBuyQuantity(s, d, budget, power, allowTopUp)
      == if most >= 1 then most
         else if allowTopUp && limit <= power
                 && TopsUp(Get(s.targets, d.symbol), Get(s.marketValues, d.symbol), Held(s, d.symbol), limit) then 1
         else 0
  {
    hide LimitBuyPrice, TopsUp, Held;
    FloorQuotient(budget, LimitBuyPrice(s, d));
  }

  /** At a limit that rounds to nothing no share is bought. */
  lemma NoLimitNoBuy(s: Setup, d: Delta, cash: real, allowTopUp: bool)
    requires LimitBuyPrice(s, d) <= 0.0
    ensures BuyQuantity(s, d, cash, allowTopUp) == 0
  {
    hide LimitBuyPrice;
  }

  // ----- buys in dollars -----

  /** The least of the drift, the cash and the cap. */
  predicate Wanted(s: Setup, d: Delta, cash: real, amount: real) {
    && amount <= d.value && amount <= cash && UnderCap(s, amount)
    && (amount == d.value || amount == cash || (amount > 0.0 && Some(amount) == s.maxNotional))
  }

  /** 98% of the cash, cut to whole cents. */
  predicate Spendable(cash: real, cents: real) {
    WholeCents(cents) && cents <= cash * 0.98 < cents + 0.01
  }

  /**
   * A dollar amount is what is wanted, if that leaves more than half a cent; else at most the spendable cash, but
   * a dollar where both the wanted amount and the cash reach one. Orders of less than a dollar are not placed.
   */
  lemma NotionalExactly(s: Setup, d: Delta, cash: real, allowTopUp: bool, wanted: real, cents: real)
    requires s.notional && cash >= 0.0 && d.value > 0.0 && Wanted(s, d, cash, wanted) && Spendable(cash, cents)
    ensures var budget := if wanted + 0.005 < cash then wanted
                          else if wanted >= 1.0 && cents < 1.0 then Min(wanted, 1.0) else Min(wanted, cents);
      var choice := BuyChoice(s, d, cash, allowTopUp);
      && (choice.Place? <==> budget >= 1.0)
      && (choice.Place? ==>
            choice.request.Notional? && choice.request.symbol == d.symbol
            && NearestEven(choice.request.usd, budget) && choice.cost == budget)
      && (choice.Pass? ==> choice.reason == BuyNotionalBelowMinimum)
  {
    assert BuyBudget(s, d, cash) == wanted;
    SpendableIs(cash, cents);
    var budget := NotionalBudget(s, d, cash);
    RoundExactly(budget, RoundCents(budget));
    hide RoundCents, BuyBudget, NearestEven, WholeCents;
  }

  lemma SpendableIs(cash: real, cents: real)
    requires Spendable(cash, cents)
    ensures (cash * CASH_UTILIZATION * CENTS).Floor as real / CENTS == cents
  {
    var k := (cents * CENTS).Floor;
    assert cents * CENTS == k as real;
    assert k as real <= cash * CASH_UTILIZATION * CENTS < k as real + 1.0;
  }

  // ----- whole-share choices and what the gate counts on -----

  /** A whole-share buy goes out at its limit for its quantity; otherwise the reason tells whether cash alone is short. */
  lemma WholeShareExactly(s: Setup, d: Delta, cash: real, allowTopUp: bool)
    requires !s.notional
    ensures var choice, quantity := BuyChoice(s, d, cash, allowTopUp), BuyQuantity(s, d, cash, allowTopUp);
      var limit := LimitBuyPrice(s, d);
      if quantity >= 1 then choice == Place(Limit(d.symbol, Buy, quantity, limit), quantity as real * limit)
      else
        choice == Pass(if (s.maxNotional.None? || s.maxNotional.value <= 0.0) && cash < limit
                       then InsufficientCashForWholeShare else BuyQuantityZero)
  {
    hide BuyQuantity, LimitBuyPrice;
  }

  /** The gate counts on exactly the order the buy loop would place with the same cash. */
  lemma EstimateIsChoice(s: Setup, d: Delta, cash: real, allowTopUp: bool)
    ensures var choice := BuyChoice(s, d, cash, allowTopUp);
      EstimatedCost(s, d, cash, allowTopUp) == if choice.Place? then choice.cost else 0.0
  {
    hide BuyQuantity, LimitBuyPrice, NotionalBudget, RoundCents;
  }

  /** A buy waits for sale proceeds exactly when it is not placed although it is due, and more cash could place it. */
  lemma WaitsExactly(s: Setup, d: Delta, cash: real, allowTopUp: bool)
    requires cash >= 0.0 && d.value > 0.0
    ensures NeedsRelease(s, d, cash, allowTopUp) <==>
              && BuyChoice(s, d, cash, allowTopUp).Pass?
              && if s.notional then d.value >= 1.0
                 else LimitBuyPrice(s, d) > d.value || LimitBuyPrice(s, d) > cash || !UnderCap(s, LimitBuyPrice(s, d))
  {
    hide BuyQuantity, NotionalBudget, RoundCents, LimitBuyPrice;
    assert BuyBudget(s, d, cash) >= 0.0;
  }
}
