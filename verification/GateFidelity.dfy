/**
 * The gate before the buys estimates each buy at the cash it starts with. If it lets the buys through, the
 * buy loop later sends exactly those orders, although its cash has shrunk by whatever was accepted before.
 */
module GateFidelity {
  import opened Wrappers
  import opened Ordering
  import opened Money
  import opened Broker
  import opened Planner
  import opened CashSafety

  /** What the gate counts on for one buy: its order, if it estimates one, and the cost of it. */
  datatype Line = Line(order: Option<Request>, cost: real)

  function LineOf(s: Setup, d: Delta, cash: real, allowTopUp: bool): Line {
    var quantity := BuyQuantity(s, d, cash, allowTopUp);
    Line(if quantity > 0 then Some(Limit(d.symbol, Buy, quantity, LimitBuyPrice(s, d))) else None,
         EstimatedCost(s, d, cash, allowTopUp))
  }

  /** The gate's estimates, taken at the cash and top-up permission of the moment the buys begin. */
  function Estimates(s: Setup, buys: seq<Delta>, cash: real, allowTopUp: bool): seq<Line> {
    seq(|buys|, i requires 0 <= i < |buys| => LineOf(s, buys[i], cash, allowTopUp))
  }

  function Orders(lines: seq<Line>): seq<Request> {
    if lines == [] then []
    else (if lines[0].order.Some? then [lines[0].order.value] else []) + Orders(lines[1..])
  }

  function Costs(lines: seq<Line>): real {
    if lines == [] then 0.0 else lines[0].cost + Costs(lines[1..])
  }

  function BuyRequests(requests: seq<Request>): seq<Request> {
    if requests == [] then []
    else
      var last := requests[|requests| - 1];
      BuyRequests(requests[..|requests| - 1]) + if IsBuy(last) then [last] else []
  }

  lemma BuyRequestsAppend(requests: seq<Request>, r: Request)
    ensures BuyRequests(requests + [r]) == BuyRequests(requests) + if IsBuy(r) then [r] else []
  {
    assert (requests + [r])[..|requests|] == requests;
  }

  lemma {:induction false} CostsAppend(lines: seq<Line>, last: Line)
    ensures Costs(lines + [last]) == Costs(lines) + last.cost
  {
    if lines == [] {
      assert lines + [last] == [last];
    } else {
      CostsAppend(lines[1..], last);
      assert (lines + [last])[1..] == lines[1..] + [last];
    }
  }

  lemma {:induction false} TotalIsCosts(s: Setup, buys: seq<Delta>, cash: real, allowTopUp: bool)
    ensures Costs(Estimates(s, buys, cash, allowTopUp)) == TotalCost(s, buys, cash, allowTopUp)
  {
    if buys != [] {
      var init := buys[..|buys| - 1];
      TotalIsCosts(s, init, cash, allowTopUp);
      var lines := Estimates(s, buys, cash, allowTopUp);
      assert lines == Estimates(s, init, cash, allowTopUp) + [lines[|buys| - 1]];
      CostsAppend(Estimates(s, init, cash, allowTopUp), lines[|buys| - 1]);
    }
  }

  predicate Priceable(lines: seq<Line>) {
    forall i | 0 <= i < |lines| :: lines[i].cost >= 0.0
  }

  lemma {:induction false} CostsNonnegative(lines: seq<Line>)
    requires Priceable(lines)
    ensures Costs(lines) >= 0.0
  {
    if lines != [] {
      assert forall i | 0 <= i < |lines| - 1 :: lines[1..][i] == lines[i + 1];
      CostsNonnegative(lines[1..]);
    }
  }

  lemma PlannedStable(s: Setup, d: Delta, early: real, late: real, power: real, left: real, allowTopUp: bool)
    requires var limit := LimitBuyPrice(s, d);
      limit > 0.0 ==>
        && (Max(0.0, early) / limit).Floor == (Max(0.0, late) / limit).Floor
        && ((Max(0.0, early) / limit).Floor > 0 || (Max(0.0, power) < limit <==> Max(0.0, left) < limit))
    ensures PlannedBuyQuantity(s, d, early, power, allowTopUp) == PlannedBuyQuantity(s, d, late, left, allowTopUp)
  {
  }

  lemma PlannedFits(s: Setup, d: Delta, budget: real, power: real, allowTopUp: bool)
    ensures var limit, quantity := LimitBuyPrice(s, d), PlannedBuyQuantity(s, d, budget, power, allowTopUp);
      && (quantity > 0 ==> limit > 0.0)
      && (limit > 0.0 ==>
           var planned := (Max(0.0, budget) / limit).Floor;
           && planned as real * limit <= Max(0.0, budget) < (planned + 1) as real * limit
           && planned >= 0
           && (planned > 0 ==> quantity == planned)
           && (planned == 0 ==> quantity == 0 || (quantity == 1 && limit <= Max(0.0, power))))
  {
    if LimitBuyPrice(s, d) > 0.0 {
      FloorQuotient(Max(0.0, budget), LimitBuyPrice(s, d));
    }
  }

  lemma BudgetStable(s: Setup, d: Delta, opening: real, cash: real, spend: real)
    requires 0.0 <= cash <= opening
    requires spend <= cash && spend <= Max(0.0, BuyBudget(s, d, opening))
    ensures spend <= Max(0.0, BuyBudget(s, d, cash)) <= Max(0.0, BuyBudget(s, d, opening))
    ensures spend <= Capped(s, opening) ==> spend <= Capped(s, cash)
    ensures Capped(s, cash) <= Capped(s, opening)
  {
  }

  lemma WaitingOrWanted(s: Setup, d: Delta, cash: real, allowTopUp: bool)
    requires !s.notional && d.value > 0.0 && !NeedsRelease(s, d, cash, allowTopUp)
    ensures LimitBuyPrice(s, d) > 0.0 ==> BuyQuantity(s, d, cash, allowTopUp) > 0
  {
    hide LimitBuyPrice, BuyBudget, PlannedBuyQuantity, TopsUp;
    PlannedFits(s, d, BuyBudget(s, d, cash), Capped(s, cash), allowTopUp);
  }

  lemma PlannedKept(s: Setup, d: Delta, opening: real, cash: real, planned: int)
    requires LimitBuyPrice(s, d) > 0.0 && 0.0 <= cash <= opening
    requires var limit, early := LimitBuyPrice(s, d), Max(0.0, BuyBudget(s, d, opening));
      planned as real * limit <= early < (planned + 1) as real * limit
    requires planned as real * LimitBuyPrice(s, d) <= cash
    ensures (Max(0.0, BuyBudget(s, d, cash)) / LimitBuyPrice(s, d)).Floor == planned
  {
    hide LimitBuyPrice, BuyBudget;
    BudgetStable(s, d, opening, cash, planned as real * LimitBuyPrice(s, d));
    FloorQuotientUnique(Max(0.0, BuyBudget(s, d, cash)), LimitBuyPrice(s, d), planned);
  }

  /** An affordable estimate keeps the number of whole shares the budget buys, and the one share a top-up needs. */
  lemma QuotientStable(s: Setup, d: Delta, opening: real, cash: real, quantity: int, allowTopUp: bool)
    requires LimitBuyPrice(s, d) > 0.0 && 0.0 <= cash <= opening
    requires quantity == PlannedBuyQuantity(s, d, BuyBudget(s, d, opening), Capped(s, opening), allowTopUp)
    requires quantity > 0 && quantity as real * LimitBuyPrice(s, d) <= cash
    ensures var limit := LimitBuyPrice(s, d);
      var planned := (Max(0.0, BuyBudget(s, d, opening)) / limit).Floor;
      && planned == (Max(0.0, BuyBudget(s, d, cash)) / limit).Floor
      && (planned > 0 || (Max(0.0, Capped(s, opening)) < limit <==> Max(0.0, Capped(s, cash)) < limit))
  {
    hide *;
    var limit := LimitBuyPrice(s, d);
    var planned := (Max(0.0, BuyBudget(s, d, opening)) / limit).Floor;
    PlannedFits(s, d, BuyBudget(s, d, opening), Capped(s, opening), allowTopUp);
    if planned > 0 {
      PlannedKept(s, d, opening, cash, planned);
    } else {
      assert planned == 0 && quantity == 1 && planned as real * limit == 0.0;
      PlannedKept(s, d, opening, cash, planned);
      BudgetStable(s, d, opening, cash, 0.0);
      TopUpKept(s, opening, cash, limit);
      BothAfford(limit, Capped(s, opening), Capped(s, cash));
    }
  }

  /** Less cash, but still enough for the estimate, leads to the same quantity. */
  lemma QuantityStable(s: Setup, d: Delta, opening: real, cash: real, allowTopUp: bool)
    requires !s.notional && 0.0 <= cash <= opening && d.value > 0.0
    requires !NeedsRelease(s, d, opening, allowTopUp)
    requires EstimatedCost(s, d, opening, allowTopUp) <= cash
    ensures BuyQuantity(s, d, cash, allowTopUp) == BuyQuantity(s, d, opening, allowTopUp)
  {
    hide LimitBuyPrice, BuyBudget, PlannedBuyQuantity, Capped, NeedsRelease;
    WaitingOrWanted(s, d, opening, allowTopUp);
    if LimitBuyPrice(s, d) > 0.0 {
      QuotientStable(s, d, opening, cash, BuyQuantity(s, d, opening, allowTopUp), allowTopUp);
    }
    PlannedStable(s, d, BuyBudget(s, d, opening), BuyBudget(s, d, cash), Capped(s, opening), Capped(s, cash), allowTopUp);
  }

  lemma BothAfford(limit: real, power: real, left: real)
    requires limit > 0.0 && limit <= Max(0.0, left) && left <= power
    ensures !(Max(0.0, power) < limit) && !(Max(0.0, left) < limit)
  {
  }

  lemma TopUpKept(s: Setup, opening: real, cash: real, limit: real)
    requires 0.0 < limit <= cash <= opening && limit <= Max(0.0, Capped(s, opening))
    ensures limit <= Max(0.0, Capped(s, cash))
  {
  }

  // ----- the buys, once the gate has let them through -----

  function Done(m: Machine): int
    requires m.stage.Buying?
  {
    |m.buys| - |m.stage.rest|
  }

  /** The buys so far followed the lines, and the cash left covers the lines still to come. */
  predicate Follows(m: Machine, lines: seq<Line>) {
    && |lines| == |m.buys|
    && Priceable(lines)
    && match m.stage
       case Buying(rest) =>
         && 0 <= Done(m) && rest == m.buys[Done(m)..]
         && BuyRequests(m.requests) + Orders(lines[Done(m)..]) == Orders(lines)
         && Costs(lines[Done(m)..]) <= m.cash <= m.opening
       case Ended(ending) =>
         && BuyRequests(m.requests) <= Orders(lines)
         && (ending == Completed ==> BuyRequests(m.requests) == Orders(lines))
       case _ => false
  }

  /** The change does what the line at the head says. */
  predicate Conforms(m: Machine, c: Change, lines: seq<Line>)
    requires m.stage.Buying? && |lines| == |m.buys|
  {
    Pending(m) && 0 <= Done(m) ==>
      var line := lines[Done(m)];
      && (c.SkipHead? ==> line == Line(None, 0.0))
      && (c.Settle? ==> line == Line(Some(c.request), c.cost))
  }

  lemma LineHead(lines: seq<Line>, k: int)
    requires 0 <= k < |lines| && Priceable(lines)
    ensures var order := if lines[k].order.Some? then [lines[k].order.value] else [];
      Orders(lines[k..]) == order + Orders(lines[k + 1..])
    ensures Costs(lines[k..]) == lines[k].cost + Costs(lines[k + 1..])
    ensures Costs(lines[k + 1..]) >= 0.0 && lines[k].cost >= 0.0
  {
    assert lines[k..][1..] == lines[k + 1..];
    CostsNonnegative(lines[k + 1..]);
  }

  lemma ApplyFollows(m: Machine, c: Change, lines: seq<Line>)
    requires m.stage.Buying? && Fits(m, c) && Follows(m, lines) && Conforms(m, c, lines)
    ensures Follows(Apply(m, c), lines)
  {
    var k := Done(m);
    if Pending(m) {
      LineHead(lines, k);
      if c.Settle? {
        BuyRequestsAppend(m.requests, c.request);
        hide Orders, Costs, BuyRequests, Priceable, Apply;
        SettleFollows(m, c, lines);
      } else {
        hide Orders, Costs, BuyRequests, Priceable;
        assert m.stage.rest[1..] == m.buys[k + 1..];
      }
    } else {
      assert lines[k..] == [];
    }
  }

  lemma SettleFollows(m: Machine, c: Change, lines: seq<Line>)
    requires m.stage.Buying? && Fits(m, c) && Follows(m, lines) && c.Settle?
    requires var k := Done(m);
      && lines[k] == Line(Some(c.request), c.cost)
      && Orders(lines[k..]) == [c.request] + Orders(lines[k + 1..])
      && Costs(lines[k..]) == c.cost + Costs(lines[k + 1..])
      && Costs(lines[k + 1..]) >= 0.0 && c.cost >= 0.0
      && BuyRequests(m.requests + [c.request]) == BuyRequests(m.requests) + [c.request]
    ensures Follows(Apply(m, c), lines)
  {
    hide Orders, Costs, BuyRequests, Priceable;
    var k := Done(m);
    var sent, rest := BuyRequests(m.requests), Orders(lines[k + 1..]);
    assert sent + ([c.request] + rest) == (sent + [c.request]) + rest;
    assert m.stage.rest[1..] == m.buys[k + 1..];
  }

  predicate Rising(buys: seq<Delta>) {
    forall d | d in buys :: d.value > 0.0
  }

  /** Whole shares, cash only, and some sale still pending: the case in which the gate estimates the buys. */
  predicate GateApplies(s: Setup, m: Machine) {
    !s.notional && s.cashOnly && m.pendingSells != [] && m.buys != []
  }

  predicate NoneWaits(s: Setup, m: Machine) {
    forall d | d in m.buys :: !NeedsRelease(s, d, m.opening, SellSubmitted(m))
  }

  /** The choice for a buy agrees with a line whose quantity is the same. */
  lemma ChoiceIsLine(s: Setup, d: Delta, opening: real, cash: real, allowTopUp: bool)
    requires !s.notional
    requires BuyQuantity(s, d, cash, allowTopUp) == BuyQuantity(s, d, opening, allowTopUp)
    ensures var choice, line := BuyChoice(s, d, cash, allowTopUp), LineOf(s, d, opening, allowTopUp);
      if choice.Place? then line == Line(Some(choice.request), choice.cost) else line == Line(None, 0.0)
  {
  }

  lemma LinePriceable(s: Setup, d: Delta, cash: real, allowTopUp: bool)
    requires !s.notional && cash >= 0.0
    ensures LineOf(s, d, cash, allowTopUp).cost >= 0.0
  {
    WholeShareFits(s, d, cash, allowTopUp);
  }

  lemma ChangeConforms(s: Setup, m: Machine, e: Event, lines: seq<Line>)
    requires Quoted(m) && Enabled(s, m, e)
    requires m.stage.Buying? && !s.notional && Rising(m.buys) && NoneWaits(s, m)
    requires lines == Estimates(s, m.buys, m.opening, SellSubmitted(m))
    requires Follows(m, lines)
    ensures Conforms(m, ChangeOf(s, m, e), lines)
  {
    if Pending(m) {
      var k := Done(m);
      var d := m.stage.rest[0];
      assert d == m.buys[k] && lines[k] == LineOf(s, d, m.opening, SellSubmitted(m));
      assert lines[k..][1..] == lines[k + 1..];
      CostsNonnegative(lines[k + 1..]);
      QuantityStable(s, d, m.opening, m.cash, SellSubmitted(m));
      ChoiceIsLine(s, d, m.opening, m.cash, SellSubmitted(m));
    }
  }

  lemma BuyingKeeps(s: Setup, m: Machine, c: Change)
    requires m.stage.Buying? && Fits(m, c)
    ensures var n := Apply(m, c);
      && (n.stage.Buying? || n.stage.Ended?)
      && n.buys == m.buys && n.opening == m.opening && n.acceptedSells == m.acceptedSells
      && n.pendingSells == m.pendingSells
      && SellSubmitted(n) == SellSubmitted(m)
      && (NoneWaits(s, m) ==> NoneWaits(s, n))
  {
    hide NeedsRelease;
  }

  lemma {:induction false} BuyingFollows(s: Setup, env: Env, m: Machine, lines: seq<Line>)
    requires Quoted(m)
    requires m.stage.Buying? && !s.notional && Rising(m.buys) && NoneWaits(s, m)
    requires lines == Estimates(s, m.buys, m.opening, SellSubmitted(m))
    requires Follows(m, lines)
    ensures var n := Run(s, env, m);
      && Follows(n, lines)
      && n.buys == m.buys && n.opening == m.opening && n.acceptedSells == m.acceptedSells
      && n.pendingSells == m.pendingSells
    decreases Left(m)
  {
    RunUnfolds(s, env, m);
    var e := Answer(s, env, m);
    var c := ChangeOf(s, m, e);
    var n := After(s, m, e);
    hide *;
    ChangeConforms(s, m, e, lines);
    ApplyFollows(m, c, lines);
    BuyingKeeps(s, m, c);
    if n.stage.Buying? {
      BuyingFollows(s, env, n, lines);
    } else {
      RunUnfolds(s, env, n);
    }
  }

  // ----- the whole cycle -----

  /** The orders the gate estimated for the buys of a finished cycle. */
  function EstimatedOrders(s: Setup, m: Machine): seq<Request> {
    Orders(Estimates(s, m.buys, m.opening, SellSubmitted(m)))
  }

  predicate Blocked(s: Setup, m: Machine) {
    GateBlocks(s, m.buys, m.opening, SellSubmitted(m))
  }

  predicate FaithfulEnd(s: Setup, n: Machine) {
    n.stage.Ended? &&
    (GateApplies(s, n) ==>
       && BuyRequests(n.requests) <= EstimatedOrders(s, n)
       && (n.stage.ending == Completed ==>
             BuyRequests(n.requests) == if Blocked(s, n) then [] else EstimatedOrders(s, n)))
  }

  /** What happens from the gate on. */
  lemma GateFaithful(s: Setup, env: Env, m: Machine)
    requires Quoted(m) && m.stage.Gating? && Rising(m.buys) && BuyRequests(m.requests) == []
    ensures FaithfulEnd(s, Run(s, env, m))
  {
    var e := Answer(s, env, m);
    var n := After(s, m, e);
    assert Run(s, env, m) == Run(s, env, n);
    if GateApplies(s, m) {
      if Blocked(s, n) {
        BlockedGate(s, env, n);
      } else {
        var lines := Estimates(s, n.buys, n.opening, SellSubmitted(n));
        TotalIsCosts(s, n.buys, n.opening, SellSubmitted(n));
        forall i | 0 <= i < |lines| ensures lines[i].cost >= 0.0 {
          LinePriceable(s, n.buys[i], n.opening, SellSubmitted(n));
        }
        assert lines[0..] == lines && n.buys[0..] == n.buys;
        assert [] + Orders(lines) == Orders(lines);
        BuyingFollows(s, env, n, lines);
      }
    } else {
      GateAside(s, env, n);
    }
  }

  lemma BlockedGate(s: Setup, env: Env, n: Machine)
    requires Quoted(n) && n.stage == Buying([]) && BuyRequests(n.requests) == [] && Blocked(s, n)
    ensures FaithfulEnd(s, Run(s, env, n))
  {
    var last := After(s, n, Answer(s, env, n));
    assert last == n.(stage := Ended(Completed));
    assert Run(s, env, n) == Run(s, env, last) == last;
  }

  /** Which case applies does not change any more once the buys have begun. */
  lemma {:induction false} GateAside(s: Setup, env: Env, m: Machine)
    requires Quoted(m) && (m.stage.Buying? || m.stage.Ended?) && !GateApplies(s, m)
    ensures FaithfulEnd(s, Run(s, env, m)) && !GateApplies(s, Run(s, env, m))
    decreases Left(m)
  {
    if Next(s, m) != Halt {
      GateAside(s, env, After(s, m, Answer(s, env, m)));
    }
  }

  lemma ApplyBeforeGate(m: Machine, c: Change)
    requires Fits(m, c) && m.stage.Selling? && BuyRequests(m.requests) == []
    ensures var n := Apply(m, c);
      BuyRequests(n.requests) == [] && n.buys == m.buys && !n.stage.Buying?
      && (n.stage.Ended? ==> n.stage.ending != Completed)
  {
    if c.Settle? {
      BuyRequestsAppend(m.requests, c.request);
    }
  }

  lemma {:induction false} RunFaithful(s: Setup, env: Env, m: Machine)
    requires Quoted(m) && m.stage.Selling? && Rising(m.buys) && BuyRequests(m.requests) == []
    ensures FaithfulEnd(s, Run(s, env, m))
    decreases Left(m)
  {
    var e := Answer(s, env, m);
    var n := After(s, m, e);
    ApplyBeforeGate(m, ChangeOf(s, m, e));
    assert Run(s, env, m) == Run(s, env, n);
    if n.stage.Selling? {
      RunFaithful(s, env, n);
    } else if n.stage.Gating? {
      GateFaithful(s, env, n);
    } else {
      assert Run(s, env, n) == n;
      assert [] <= EstimatedOrders(s, n);
    }
  }

  /**
   * Gate fidelity, in whole-share cash-only mode with sales pending. If the gate does not block, the buys sent
   * are exactly the estimated ones, in order, up to where the cycle was halted, and all of them when it
   * completed, for every mix of accepts and rejects. So no estimated buy is skipped for lack of cash. If the
   * gate blocks, a completed cycle has sent no buy at all.
   */
  lemma BuysAreTheEstimates(s: Setup, env: Env)
    ensures var m := Cycle(s, env);
      GateApplies(s, m) ==>
        && BuyRequests(m.requests) <= EstimatedOrders(s, m)
        && (m.stage.ending == Completed ==>
              BuyRequests(m.requests) == if Blocked(s, m) then [] else EstimatedOrders(s, m))
  {
    var m := CycleStarts(s, env);
    hide Cycle, Run, ScanAll, Sorted, GateApplies, EstimatedOrders, Blocked;
    RunFaithful(s, env, m);
  }
}
