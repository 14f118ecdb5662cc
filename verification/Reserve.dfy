/** The reserved-cash policy of the decision mapper, and what it means for the buys of a cycle. */
module Reserve {
  import opened Wrappers
  import opened Money
  import opened Planner
  import opened CashSafety

  datatype Policy = Policy(floorUsd: real, ratio: real)

  /** The larger of the dollar floor and the ratio, clamped to [0, 1], of the equity. */
  function PlatformReserve(totalEquity: real, policy: Option<Policy>): real {
    match policy
    case None => 0.0
    case Some(p) =>
      Max(Max(0.0, p.floorUsd), Max(0.0, totalEquity) * Max(0.0, Min(1.0, p.ratio)))
  }

  datatype Semantics = Semantics(reservedCash: real, investableCash: Option<real>)

  function ApplyPolicy(semantics: Semantics, totalEquity: real, liquidCash: real, policy: Option<Policy>): Semantics {
    var reserved := Max(semantics.reservedCash, PlatformReserve(totalEquity, policy));
    var base := if semantics.investableCash.Some? then semantics.investableCash.value
                else Max(0.0, liquidCash - semantics.reservedCash);
    Semantics(reserved, Some(Min(Max(0.0, base), Max(0.0, liquidCash - reserved))))
  }

  lemma PlatformReserveBounds(totalEquity: real, policy: Option<Policy>)
    ensures PlatformReserve(totalEquity, policy) >= 0.0
    ensures policy.Some? ==> PlatformReserve(totalEquity, policy) >= policy.value.floorUsd
    ensures policy.Some? && 0.0 <= policy.value.ratio <= 1.0 ==>
              PlatformReserve(totalEquity, policy) >= totalEquity * policy.value.ratio
  {
    if policy.Some? {
      var ratio := Max(0.0, Min(1.0, policy.value.ratio));
      var equity := Max(0.0, totalEquity);
      assert equity * ratio == ratio * equity;
      MultiplyOrder(0.0, ratio, equity);
      MultiplyOrder(totalEquity, equity, ratio);
    }
  }

  /** The part of the equity that a ratio asks for; ratios outside [0, 1] are moved to the nearer end. */
  predicate ShareOf(share: real, totalEquity: real, ratio: real) {
    if totalEquity <= 0.0 || ratio <= 0.0 then share == 0.0
    else if ratio >= 1.0 then share == totalEquity
    else share == totalEquity * ratio
  }

  /** The reserve is the largest of the floor, the share of the equity, and nothing. */
  lemma PlatformReserveExactly(totalEquity: real, policy: Option<Policy>, share: real)
    requires policy.Some? ==> ShareOf(share, totalEquity, policy.value.ratio)
    ensures var reserve := PlatformReserve(totalEquity, policy);
      && (policy.None? ==> reserve == 0.0)
      && (policy.Some? ==>
            && reserve >= 0.0 && reserve >= policy.value.floorUsd && reserve >= share
            && (reserve == 0.0 || reserve == policy.value.floorUsd || reserve == share))
  {
    if policy.Some? {
      var ratio := Max(0.0, Min(1.0, policy.value.ratio));
      var equity := Max(0.0, totalEquity);
      assert ratio == 0.0 ==> equity * ratio == 0.0;
      assert ratio == 1.0 ==> equity * ratio == equity;
      assert equity == 0.0 ==> equity * ratio == 0.0;
      MultiplyOrder(0.0, equity, ratio);
    }
  }

  /**
   * The plan's reserved cash is the larger of its own and the platform's. Its investable cash is the smaller of what
   * it was before, or else the liquid cash beyond its own reserve, and of the liquid cash beyond the larger reserve;
   * neither below zero.
   */
  lemma PolicyExactly(semantics: Semantics, totalEquity: real, liquidCash: real, policy: Option<Policy>, base: real)
    requires base == if semantics.investableCash.Some? then semantics.investableCash.value
                     else liquidCash - semantics.reservedCash
    ensures var applied, platform := ApplyPolicy(semantics, totalEquity, liquidCash, policy), PlatformReserve(totalEquity, policy);
      var investable, free := applied.investableCash, liquidCash - applied.reservedCash;
      && applied.reservedCash >= semantics.reservedCash && applied.reservedCash >= platform
      && (applied.reservedCash == semantics.reservedCash || applied.reservedCash == platform)
      && investable.Some? && investable.value >= 0.0
      && (base >= 0.0 && free >= 0.0 ==>
            investable.value <= base && investable.value <= free && (investable.value == base || investable.value == free))
      && (base < 0.0 || free < 0.0 ==> investable.value == 0.0)
  {
    hide PlatformReserve;
  }

  /** The setup runs on the plan the policy produced. */
  predicate FromPolicy(s: Setup, semantics: Semantics, totalEquity: real, policy: Option<Policy>) {
    s.planCash == ApplyPolicy(semantics, totalEquity, s.liquidCash, policy).investableCash
  }

  /**
   * The plan's investable cash never exceeds the liquid cash left after the reserve. The cash the planner then
   * starts from does so exactly when that investable cash is positive, or nothing is reserved or liquid at
   * all: an investable cash of exactly zero is falsy and the planner falls back to the whole liquid cash.
   */
  lemma ReserveRespectedExactly(s: Setup, semantics: Semantics, totalEquity: real, policy: Option<Policy>)
    requires FromPolicy(s, semantics, totalEquity, policy)
    ensures var applied := ApplyPolicy(semantics, totalEquity, s.liquidCash, policy);
      var free := Max(0.0, s.liquidCash - applied.reservedCash);
      && applied.reservedCash >= semantics.reservedCash
      && applied.reservedCash >= PlatformReserve(totalEquity, policy) >= 0.0
      && 0.0 <= s.planCash.value <= free
      && (BaseCash(s) <= free <==>
            s.planCash.value > 0.0 || s.liquidCash <= 0.0 || applied.reservedCash == 0.0)
  {
    PlatformReserveBounds(totalEquity, policy);
  }

  /**
   * With a positive plan cash the submitted buys stay within free cash plus confirmed proceeds: exactly so in
   * whole shares, and up to a half-cent for every buy but the first in dollar amounts.
   */
  lemma BuysRespectReserve(s: Setup, env: Env, semantics: Semantics, totalEquity: real, policy: Option<Policy>)
    requires FromPolicy(s, semantics, totalEquity, policy)
    requires s.planCash.value > 0.0
    ensures var m := Cycle(s, env);
      var reserved := ApplyPolicy(semantics, totalEquity, s.liquidCash, policy).reservedCash;
      var n, bound := BuyCount(m.submitted), Max(0.0, s.liquidCash - reserved) + env.release(m.acceptedSells);
      && (!s.notional ==> Spent(m.submitted) <= bound)
      && (s.notional && n >= 1 ==> Spent(m.submitted) <= bound + (n - 1) as real * HALF_CENT)
      && (s.notional && n == 0 ==> Spent(m.submitted) == 0.0)
  {
    hide Cycle;
    if s.notional {
      NotionalCashBound(s, env);
    } else {
      WholeShareCashSafety(s, env);
    }
    ReserveRespectedExactly(s, semantics, totalEquity, policy);
  }
}
