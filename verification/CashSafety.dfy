/** How much of the cash the buys can take, in whole shares and in rounded dollar amounts. */
module CashSafety {
  import opened Wrappers
  import opened Ordering
  import opened Money
  import opened Broker
  import opened Planner

  /** Dollars committed by the submitted buys, and how many there are. */
  function Spent(xs: seq<Submission>): real {
    if xs == [] then 0.0
    else
      var last := xs[|xs| - 1].order;
      Spent(xs[..|xs| - 1]) + if IsBuy(last) then Amount(last) else 0.0
  }

  function BuyCount(xs: seq<Submission>): nat {
    if xs == [] then 0
    else BuyCount(xs[..|xs| - 1]) + if IsBuy(xs[|xs| - 1].order) then 1 else 0
  }

  lemma SpentAppend(xs: seq<Submission>, x: Submission)
    ensures Spent(xs + [x]) == Spent(xs) + if IsBuy(x.order) then Amount(x.order) else 0.0
    ensures BuyCount(xs + [x]) == BuyCount(xs) + if IsBuy(x.order) then 1 else 0
  {
    assert (xs + [x])[..|xs|] == xs;
  }

  // ----- one buy -----

  lemma PlannedFits(s: Setup, d: Delta, budget: real, power: real, allowTopUp: bool)
    requires budget <= power && power >= 0.0
    ensures var limit, quantity := LimitBuyPrice(s, d), PlannedBuyQuantity(s, d, budget, power, allowTopUp);
      quantity > 0 ==> 0.0 < quantity as real * limit <= power
  {
    hide LimitBuyPrice, TopsUp;
    var limit, quantity := LimitBuyPrice(s, d), PlannedBuyQuantity(s, d, budget, power, allowTopUp);
    if quantity > 0 {
      FloorQuotient(Max(0.0, budget), limit);
      MultiplyStrict(0.0, quantity as real, limit);
    }
  }

  lemma CappedWithin(s: Setup, d: Delta, cash: real)
    requires cash >= 0.0
    ensures BuyBudget(s, d, cash) <= Capped(s, cash) <= cash && Capped(s, cash) >= 0.0
  {
  }

  lemma WholeShareFits(s: Setup, d: Delta, cash: real, allowTopUp: bool)
    requires !s.notional && cash >= 0.0
    ensures var quantity := BuyQuantity(s, d, cash, allowTopUp);
      quantity > 0 ==> 0.0 < quantity as real * LimitBuyPrice(s, d) <= Capped(s, cash) <= cash
    ensures var choice := BuyChoice(s, d, cash, allowTopUp);
      choice.Place? ==> choice.cost == Amount(choice.request) && 0.0 < choice.cost <= cash
  {
    hide LimitBuyPrice, PlannedBuyQuantity, NotionalBudget, RoundCents, BuyBudget, Capped;
    CappedWithin(s, d, cash);
    PlannedFits(s, d, BuyBudget(s, d, cash), Capped(s, cash), allowTopUp);
  }

  /**
   * Each notional order is at most the cash at that moment, although it is rounded to cents after the budget
   * was fixed, and it is at most half a cent above the budget the cash is reduced by.
   */
  lemma NotionalFits(s: Setup, d: Delta, cash: real)
    requires s.notional && cash >= 0.0
    ensures var budget := NotionalBudget(s, d, cash);
      budget >= MIN_NOTIONAL ==>
        && budget <= cash && MIN_NOTIONAL <= RoundCents(budget) <= cash
        && budget - HALF_CENT <= RoundCents(budget) <= budget + HALF_CENT
  {
    var budget := NotionalBudget(s, d, cash);
    var wanted := Max(0.0, BuyBudget(s, d, cash));
    RoundError(budget);
    if budget >= MIN_NOTIONAL {
      RoundMonotone(MIN_NOTIONAL, budget);
      RoundFixesCents(MIN_NOTIONAL);
      if wanted + HALF_CENT >= cash {
        var cents := (cash * CASH_UTILIZATION * CENTS).Floor;
        var buffered := cents as real / CENTS;
        assert buffered * CENTS == cents as real;
        var usable := if wanted >= MIN_NOTIONAL && cash >= MIN_NOTIONAL then Max(buffered, MIN_NOTIONAL) else buffered;
        assert budget == Min(wanted, usable);
        RoundMonotone(budget, usable);
        RoundFixesCents(usable);
      }
    }
  }

  // ----- the invariant -----

  /** What rounding can add per buy. */
  function Slack(s: Setup): real {
    if s.notional then HALF_CENT else 0.0
  }

  /** The slack of n buys. */
  function Extra(n: nat, slack: real): real {
    if n == 0 then 0.0 else Extra(n - 1, slack) + slack
  }

  lemma {:induction false} ExtraIs(n: nat)
    ensures Extra(n, 0.0) == 0.0
    ensures Extra(n, HALF_CENT) == n as real * HALF_CENT
  {
    if n > 0 {
      ExtraIs(n - 1);
    }
  }

  predicate Bounded(m: Machine, slack: real) {
    var n := BuyCount(m.submitted);
    && m.cash >= 0.0
    && m.opening >= 0.0
    && ((m.stage.Selling? || m.stage.Gating?) ==> n == 0)
    && (n == 0 ==> Spent(m.submitted) == 0.0)
    && (n >= 1 ==> Spent(m.submitted) <= m.opening + Extra(n - 1, slack))
    && (m.stage != Ended(Uncertain) ==>
          m.opening - Extra(n, slack) <= Spent(m.submitted) + m.cash <= m.opening + Extra(n, slack))
  }

  /** The amounts of a change respect the cash. */
  predicate Affordable(m: Machine, c: Change, slack: real) {
    && (c.PassGate? ==> c.cash >= 0.0)
    && (c.Settle? && IsBuy(c.request) ==>
          c.cost <= m.cash && Amount(c.request) <= m.cash && c.cost - slack <= Amount(c.request) <= c.cost + slack)
  }

  lemma ApplyBounded(m: Machine, c: Change, slack: real)
    requires Fits(m, c) && Bounded(m, slack) && Affordable(m, c, slack) && slack >= 0.0
    ensures Bounded(Apply(m, c), slack)
  {
    hide Amount, Spent, BuyCount;
    var n := Apply(m, c);
    if |n.submitted| > |m.submitted| {
      var x := n.submitted[|m.submitted|];
      assert n.submitted == m.submitted + [x];
      SpentAppend(m.submitted, x);
    }
  }

  lemma StepAffordable(s: Setup, m: Machine, e: Event)
    requires Quoted(m) && Enabled(s, m, e) && m.cash >= 0.0
    ensures Affordable(m, ChangeOf(s, m, e), Slack(s))
  {
    if e.Answered? && m.stage.Buying? {
      var d := m.stage.rest[0];
      if s.notional {
        NotionalFits(s, d, m.cash);
      } else {
        WholeShareFits(s, d, m.cash, SellSubmitted(m));
      }
    }
  }

  /** The opening cash is what the plan had plus the proceeds confirmed for the accepted sales. */
  predicate Sourced(s: Setup, env: Env, m: Machine) {
    && m.opening == CashWith(s, m.released)
    && ((m.stage.Selling? || m.stage.Gating?) ==> m.released == 0.0)
    && (m.stage.Buying? || m.stage == Ended(Completed) ==> m.released == env.release(m.acceptedSells))
    && (m.released == 0.0 || m.released == env.release(m.acceptedSells))
  }

  lemma {:induction false} RunBounded(s: Setup, env: Env, m: Machine)
    requires Quoted(m) && Bounded(m, Slack(s)) && Sourced(s, env, m)
    ensures Bounded(Run(s, env, m), Slack(s)) && Sourced(s, env, Run(s, env, m))
    decreases Left(m)
  {
    RunUnfolds(s, env, m);
    hide Run, Next, After, Answer, ChangeOf, Enabled, Apply;
    if !m.stage.Ended? {
      var e := Answer(s, env, m);
      var c := ChangeOf(s, m, e);
      StepAffordable(s, m, e);
      ApplyBounded(m, c, Slack(s));
      ApplySourced(s, env, m, c);
      RunBounded(s, env, After(s, m, e));
    }
  }

  lemma ApplySourced(s: Setup, env: Env, m: Machine, c: Change)
    requires Fits(m, c) && Sourced(s, env, m)
    requires c.PassGate? ==> c.cash == CashWith(s, c.released) && c.released == env.release(m.acceptedSells)
    ensures Sourced(s, env, Apply(m, c))
  {
  }

  lemma CycleBounded(s: Setup, env: Env)
    ensures Bounded(Cycle(s, env), Slack(s)) && Sourced(s, env, Cycle(s, env))
  {
    var m := CycleStarts(s, env);
    hide Cycle, Run, ScanAll, Sorted;
    RunBounded(s, env, m);
  }

  // ----- the theorems -----

  /**
   * Whole shares: the limit value of all submitted buys, the accepted ones and a final unknown one, is at most
   * the investable cash plus the confirmed sale proceeds, whatever the broker answers and however the cycle ends.
   */
  lemma WholeShareCashSafety(s: Setup, env: Env)
    requires !s.notional
    ensures var m := Cycle(s, env);
      Spent(m.submitted) <= Max(0.0, BaseCash(s) + env.release(m.acceptedSells))
  {
    hide Cycle;
    CycleBounded(s, env);
    if BuyCount(Cycle(s, env).submitted) >= 1 {
      ExtraIs(BuyCount(Cycle(s, env).submitted) - 1);
    }
  }

  /** Notional buys: n submitted buys exceed that cash by at most n - 1 half-cents. */
  lemma NotionalCashBound(s: Setup, env: Env)
    requires s.notional
    ensures var m := Cycle(s, env);
      var n := BuyCount(m.submitted);
      && (n >= 1 ==> Spent(m.submitted)
                     <= Max(0.0, BaseCash(s) + env.release(m.acceptedSells)) + (n - 1) as real * HALF_CENT)
      && (n == 0 ==> Spent(m.submitted) == 0.0)
  {
    hide Cycle;
    CycleBounded(s, env);
    if BuyCount(Cycle(s, env).submitted) >= 1 {
      ExtraIs(BuyCount(Cycle(s, env).submitted) - 1);
    }
  }

  /**
   * Where the cash of a completed cycle comes from and goes to. It starts the buys with the plan's cash, or the
   * liquid cash where the plan has none or zero, plus the confirmed proceeds, and never below zero. In whole shares
   * it ends with exactly that less what the buys take; in dollar amounts with that up to a half-cent per buy.
   */
  lemma CashConserved(s: Setup, env: Env)
    ensures var m := Cycle(s, env);
      var base := if s.planCash.Some? && s.planCash.value != 0.0 then s.planCash.value else s.liquidCash;
      var n := BuyCount(m.submitted);
      m.stage.ending == Completed ==>
        && m.opening == Max(0.0, base + env.release(m.acceptedSells))
        && (!s.notional ==> m.cash == m.opening - Spent(m.submitted))
        && (s.notional ==> Abs(m.opening - Spent(m.submitted) - m.cash) <= n as real * HALF_CENT)
  {
    hide Cycle;
    CycleBounded(s, env);
    ExtraIs(BuyCount(Cycle(s, env).submitted));
  }

  function SimpleSetup(notional: bool, cap: Option<real>): Setup {
    Setup(map[], map[], map[], map[], 0.0, None, 0.0, false, 0.995, 1.0, map[], cap, true, notional)
  }
}
