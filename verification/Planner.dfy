/**
 * The value-target planner: how much to sell and to buy, and the machine that places the orders one by one.
 *
 * The machine is the planner's run between two outside events. `Next` is what it wants to do, and `Proceed`,
 * `Refused` and `Received` are its reactions; so one definition serves a single cycle (`Run`, below) and any
 * interleaving of cycles (module `ClaimProtocol`).
 */
module Planner {
  import opened Wrappers
  import opened Money
  import opened Ordering
  import opened Broker

  const MIN_NOTIONAL := 1.0
  const CASH_UTILIZATION := 0.98

  type Cash = r: real | r >= 0.0

  datatype Setup = Setup(
    targets: map<string, real>,
    marketValues: map<string, real>,
    sellable: map<string, real>,
    quantities: map<string, real>,
    threshold: real,
    planCash: Option<real>,
    liquidCash: real,
    dryRun: bool,
    sellDiscount: real,
    buyPremium: real,
    premiumBySymbol: map<string, real>,
    maxNotional: Option<real>,
    cashOnly: bool,
    notional: bool)

  function Get(m: map<string, real>, symbol: string): real {
    if symbol in m then m[symbol] else 0.0
  }

  function Held(s: Setup, symbol: string): real {
    Get(if s.quantities == map[] then s.sellable else s.quantities, symbol)
  }

  /** A cap that is absent or not positive is no cap. */
  function Cap(s: Setup): Option<real> {
    if s.maxNotional.Some? && s.maxNotional.value > 0.0 then s.maxNotional else None
  }

  /** `x or y or 0`: a plan cash of exactly zero is falsy, and the liquid cash is used instead. */
  function BaseCash(s: Setup): real {
    if s.planCash.Some? && s.planCash.value != 0.0 then s.planCash.value else s.liquidCash
  }

  function CashWith(s: Setup, released: real): real {
    Max(0.0, BaseCash(s) + released)
  }

  function Capped(s: Setup, amount: real): real {
    if Cap(s).Some? then Min(amount, Cap(s).value) else amount
  }

  // ----- which symbols move -----

  datatype Delta = Delta(symbol: string, value: real, price: real)

  datatype Reason =
    | BelowTradeThreshold | QuoteUnavailable | SellQuantityZero | PendingSellRelease | NegativeCash
    | BuyNotionalBelowMinimum | InsufficientCashForWholeShare | BuyQuantityZero
    | DuplicateLiveRun | BrokerRejected | DisclosureRequired

  /** A skipped symbol; `order` is the request when the broker rejected one. */
  datatype Skip = Skip(symbol: string, reason: Reason, order: Option<Request>)

  datatype Submission = Submission(order: Request, status: Status)

  type Quote = string -> Option<real>

  function QuotePrice(quote: Quote, symbol: string): Option<real> {
    match quote(symbol)
    case Some(price) => if price > 0.0 then Some(price) else None
    case None => None
  }

  function Drift(s: Setup, symbol: string): real {
    Get(s.targets, symbol) - Get(s.marketValues, symbol)
  }

  datatype Scanned = Scanned(skipped: seq<Skip>, deltas: seq<Delta>)

  function ScanOne(s: Setup, quote: Quote, before: Scanned, symbol: string): Scanned {
    var price := QuotePrice(quote, symbol);
    if Abs(Drift(s, symbol)) < s.threshold then
      before.(skipped := before.skipped + [Skip(symbol, BelowTradeThreshold, None)])
    else if price.None? then
      before.(skipped := before.skipped + [Skip(symbol, QuoteUnavailable, None)])
    else
      before.(deltas := before.deltas + [Delta(symbol, Drift(s, symbol), price.value)])
  }

  function Scan(s: Setup, quote: Quote, symbols: seq<string>): Scanned {
    if symbols == [] then Scanned([], [])
    else ScanOne(s, quote, Scan(s, quote, symbols[..|symbols| - 1]), symbols[|symbols| - 1])
  }

  function Sells(deltas: seq<Delta>): seq<Delta> {
    if deltas == [] then []
    else
      var before := Sells(deltas[..|deltas| - 1]);
      if deltas[|deltas| - 1].value < 0.0 then before + [deltas[|deltas| - 1]] else before
  }

  function Buys(deltas: seq<Delta>): seq<Delta> {
    if deltas == [] then []
    else
      var before := Buys(deltas[..|deltas| - 1]);
      if deltas[|deltas| - 1].value > 0.0 then before + [deltas[|deltas| - 1]] else before
  }

  function Universe(s: Setup): set<string> {
    s.targets.Keys + s.marketValues.Keys
  }

  // ----- how much -----

  function FloorQuantity(x: real): int {
    if x.Floor > 0 then x.Floor else 0
  }

  function SellBudget(s: Setup, d: Delta): real {
    var sellableNotional := Max(0.0, Get(s.sellable, d.symbol)) * Max(0.0, d.price);
    if sellableNotional <= 0.0 then 0.0
    else
      var position := Max(0.0, sellableNotional - Max(0.0, Get(s.targets, d.symbol)));
      Capped(s, Min(Max(Max(0.0, Abs(d.value)), position), sellableNotional))
  }

  function SellQuantity(s: Setup, d: Delta): int
    requires d.price > 0.0
  {
    FloorQuantity(SellBudget(s, d) / d.price)
  }

  function PremiumFor(s: Setup, symbol: string): real {
    var own := Get(s.premiumBySymbol, symbol);
    if own > 0.0 then own else s.buyPremium
  }

  function PremiumPrice(s: Setup, symbol: string, price: real): real {
    price * PremiumFor(s, symbol)
  }

  function LimitBuyPrice(s: Setup, d: Delta): real {
    RoundCents(PremiumPrice(s, d.symbol, d.price))
  }

  /** One more whole share is bought when the target is at least half a share above the holding. */
  predicate TopsUp(target: real, current: real, held: real, limit: real) {
    held >= 1.0 && limit > 0.0
    && 0.0 < target - current < limit
    && Max(0.0, target) / limit >= held.Floor as real + 0.5
  }

  function PlannedBuyQuantity(s: Setup, d: Delta, budget: real, power: real, allowTopUp: bool): int {
    var limit := LimitBuyPrice(s, d);
    if limit <= 0.0 then 0
    else
      var planned := FloorQuantity(Max(0.0, budget) / limit);
      if planned > 0 then planned
      else if !allowTopUp || Max(0.0, power) < limit then 0
      else if TopsUp(Get(s.targets, d.symbol), Get(s.marketValues, d.symbol), Held(s, d.symbol), limit) then 1
      else 0
  }

  function BuyBudget(s: Setup, d: Delta, cash: real): real {
    Capped(s, Min(d.value, cash))
  }

  function BuyQuantity(s: Setup, d: Delta, cash: real, allowTopUp: bool): int {
    PlannedBuyQuantity(s, d, BuyBudget(s, d, cash), Capped(s, cash), allowTopUp)
  }

  /** Leave 2% of the cash unspent when a buy would take all of it, but never go below one dollar. */
  function NotionalCashBuffer(budget: real, cash: real): real {
    var wanted := Max(0.0, budget);
    var available := Max(0.0, cash);
    if wanted + HALF_CENT < available then wanted
    else
      var buffered := (available * CASH_UTILIZATION * CENTS).Floor as real / CENTS;
      var usable := if wanted >= MIN_NOTIONAL && available >= MIN_NOTIONAL then Max(buffered, MIN_NOTIONAL) else buffered;
      Min(wanted, usable)
  }

  function NotionalBudget(s: Setup, d: Delta, cash: real): real {
    NotionalCashBuffer(BuyBudget(s, d, cash), cash)
  }

  /** What one buy does: a request with the cash it will take, or a reason to skip. */
  datatype Choice = Place(request: Request, cost: real) | Pass(reason: Reason)

  function BuyChoice(s: Setup, d: Delta, cash: real, allowTopUp: bool): Choice {
    if s.notional then
      var budget := NotionalBudget(s, d, cash);
      if budget < MIN_NOTIONAL then Pass(BuyNotionalBelowMinimum)
      else Place(Notional(d.symbol, RoundCents(budget)), budget)
    else
      var limit := LimitBuyPrice(s, d);
      var quantity := BuyQuantity(s, d, cash, allowTopUp);
      if quantity <= 0 then
        Pass(if Cap(s).None? && cash < limit then InsufficientCashForWholeShare else BuyQuantityZero)
      else Place(Limit(d.symbol, Buy, quantity, limit), quantity as real * limit)
  }

  function DiscountedPrice(s: Setup, price: real): real {
    price * s.sellDiscount
  }

  function LimitSellPrice(s: Setup, price: real): real {
    RoundCents(DiscountedPrice(s, price))
  }

  function SellChoice(s: Setup, d: Delta): Choice
    requires d.price > 0.0
  {
    var quantity := SellQuantity(s, d);
    if quantity <= 0 then Pass(SellQuantityZero)
    else Place(Limit(d.symbol, Sell, quantity, LimitSellPrice(s, d.price)), 0.0)
  }

  // ----- may the buys go ahead while sale proceeds are pending -----

  function EstimatedCost(s: Setup, d: Delta, cash: real, allowTopUp: bool): real {
    if s.notional then
      var budget := NotionalBudget(s, d, cash);
      if budget >= MIN_NOTIONAL then budget else 0.0
    else
      var quantity := BuyQuantity(s, d, cash, allowTopUp);
      if quantity > 0 then quantity as real * LimitBuyPrice(s, d) else 0.0
  }

  predicate NeedsRelease(s: Setup, d: Delta, cash: real, allowTopUp: bool) {
    if s.notional then
      NotionalBudget(s, d, cash) < MIN_NOTIONAL && d.value >= MIN_NOTIONAL
    else
      BuyQuantity(s, d, cash, allowTopUp) <= 0 && d.value > 0.0
      && LimitBuyPrice(s, d) > Max(0.0, BuyBudget(s, d, cash))
  }

  function TotalCost(s: Setup, buys: seq<Delta>, cash: real, allowTopUp: bool): real {
    if buys == [] then 0.0
    else TotalCost(s, buys[..|buys| - 1], cash, allowTopUp) + EstimatedCost(s, buys[|buys| - 1], cash, allowTopUp)
  }

  predicate AnyNeedsRelease(s: Setup, buys: seq<Delta>, cash: real, allowTopUp: bool) {
    exists d | d in buys :: NeedsRelease(s, d, cash, allowTopUp)
  }

  predicate GateBlocks(s: Setup, buys: seq<Delta>, cash: real, allowTopUp: bool) {
    TotalCost(s, buys, cash, allowTopUp) > cash || AnyNeedsRelease(s, buys, cash, allowTopUp)
  }

  // ----- the machine -----

  datatype Ending = Completed | ClaimRefused | Uncertain | Failed

  datatype Stage =
    | Selling(rest: seq<Delta>)
    | Gating
    | Buying(rest: seq<Delta>)
    | Ended(ending: Ending)

  /**
   * `requests` is the trace of everything handed to the broker. `opening` is the cash when the buys begin,
   * `released` the confirmed sale proceeds in it.
   */
  datatype Machine = Machine(
    stage: Stage,
    buys: seq<Delta>,
    submitted: seq<Submission>,
    skipped: seq<Skip>,
    pendingSells: seq<string>,
    acceptedSells: seq<Submission>,
    cash: real,
    opening: real,
    released: real,
    requests: seq<Request>)

  function Start(s: Setup, scanned: Scanned): Machine {
    Machine(Selling(Sells(scanned.deltas)), Buys(scanned.deltas), [], scanned.skipped, [], [],
            CashWith(s, 0.0), CashWith(s, 0.0), 0.0, [])
  }

  predicate Priced(deltas: seq<Delta>) {
    forall d | d in deltas :: d.price > 0.0
  }

  /** Every delta still to be handled carries a positive quote, as the scan leaves them. */
  predicate Quoted(m: Machine) {
    Priced(m.buys) && ((m.stage.Selling? || m.stage.Buying?) ==> Priced(m.stage.rest))
  }

  predicate SellSubmitted(m: Machine) {
    m.acceptedSells != []
  }

  /** The broker's answer, its status string already read; or the call raised. */
  datatype Reply = Report(status: Status, disclosureRefused: bool) | Raised

  /** How the planner reads a reply. */
  datatype Outcome = OrderAccepted(status: Status) | OrderUnknown(status: Status) | OrderRejected(reason: Reason) | CallRaised

  function OutcomeOf(reply: Reply): Outcome {
    match reply
    case Raised => CallRaised
    case Report(status, disclosureRefused) =>
      if Accepted(status) then OrderAccepted(status)
      else if Unknown(status) then OrderUnknown(status)
      else OrderRejected(if disclosureRefused then DisclosureRequired else BrokerRejected)
  }

  /** What one step does to the books, whatever the amounts were. */
  datatype Change =
    | SkipHead(reason: Reason)
    | EndSells
    | PassGate(cash: real, released: Cash, verdict: Option<Reason>)
    | Complete
    | Deny
    | Abandon
    | Settle(request: Request, cost: real, outcome: Outcome)

  predicate Pending(m: Machine) {
    (m.stage.Selling? || m.stage.Buying?) && m.stage.rest != []
  }

  predicate Fits(m: Machine, c: Change) {
    match c
    case SkipHead(_) => Pending(m)
    case EndSells => m.stage == Selling([])
    case PassGate(_, _, _) => m.stage == Gating
    case Complete => m.stage == Buying([])
    case Deny => Pending(m)
    case Abandon => Pending(m)
    case Settle(request, _, _) =>
      Pending(m) && request.symbol == m.stage.rest[0].symbol && (IsBuy(request) <==> m.stage.Buying?)
  }

  function SkipAll(buys: seq<Delta>, reason: Reason): seq<Skip> {
    seq(|buys|, i requires 0 <= i < |buys| => Skip(buys[i].symbol, reason, None))
  }

  function Apply(m: Machine, c: Change): Machine
    requires Fits(m, c)
  {
    match c
    case SkipHead(reason) =>
      var symbol := m.stage.rest[0].symbol;
      m.(skipped := m.skipped + [Skip(symbol, reason, None)], stage := StageAfter(m.stage),
         pendingSells := if m.stage.Selling? then m.pendingSells + [symbol] else m.pendingSells)
    case EndSells => m.(stage := Gating)
    case PassGate(cash, released, verdict) =>
      var ready := m.(cash := cash, opening := cash, released := released);
      if verdict.Some? then ready.(skipped := m.skipped + SkipAll(m.buys, verdict.value), stage := Buying([]))
      else ready.(stage := Buying(m.buys))
    case Complete => m.(stage := Ended(Completed))
    case Deny =>
      m.(skipped := m.skipped + [Skip(m.stage.rest[0].symbol, DuplicateLiveRun, None)], stage := Ended(ClaimRefused))
    case Abandon => m.(stage := Ended(Failed))
    case Settle(request, cost, outcome) => Settled(m, request, cost, outcome)
  }

  function StageAfter(stage: Stage): Stage
    requires (stage.Selling? || stage.Buying?) && stage.rest != []
  {
    if stage.Selling? then Selling(stage.rest[1..]) else Buying(stage.rest[1..])
  }

  /** The request went out and the broker answered, or the call raised. */
  function Settled(m: Machine, request: Request, cost: real, outcome: Outcome): Machine
    requires Pending(m)
  {
    var selling := m.stage.Selling?;
    var sent := m.(requests := m.requests + [request],
                   pendingSells := if selling && !outcome.CallRaised? then m.pendingSells + [request.symbol] else m.pendingSells);
    match outcome
    case CallRaised => sent.(stage := Ended(Failed))
    case OrderUnknown(status) =>
      sent.(submitted := m.submitted + [Submission(request, status)], stage := Ended(Uncertain))
    case OrderRejected(reason) =>
      sent.(skipped := m.skipped + [Skip(request.symbol, reason, Some(request))], stage := StageAfter(m.stage))
    case OrderAccepted(status) =>
      var record := Submission(request, status);
      sent.(submitted := m.submitted + [record], stage := StageAfter(m.stage),
            acceptedSells := if selling then m.acceptedSells + [record] else m.acceptedSells,
            cash := if selling then m.cash else Max(0.0, m.cash - cost))
  }

  // ----- what the planner does next -----

  /** The choice for the symbol at the head of the work. */
  function HeadChoice(s: Setup, m: Machine): Choice
    requires Quoted(m) && Pending(m)
  {
    if m.stage.Selling? then SellChoice(s, m.stage.rest[0])
    else BuyChoice(s, m.stage.rest[0], m.cash, SellSubmitted(m))
  }

  datatype Move = Internal | Ask(request: Request, cost: real) | Halt

  function Next(s: Setup, m: Machine): Move
    requires Quoted(m)
  {
    if m.stage.Ended? then Halt
    else if Pending(m) && HeadChoice(s, m).Place? then Ask(HeadChoice(s, m).request, HeadChoice(s, m).cost)
    else Internal
  }

  /** May the buys begin, now that the confirmed proceeds are in the cash? */
  function GateVerdict(s: Setup, m: Machine, cash: real): Option<Reason> {
    if s.cashOnly && m.buys != [] && m.pendingSells != [] then
      if GateBlocks(s, m.buys, cash, SellSubmitted(m)) then Some(PendingSellRelease) else None
    else if s.cashOnly && m.buys != [] && s.liquidCash < 0.0 then Some(NegativeCash)
    else None
  }

  /** The outside events: confirmed proceeds read, claim callback answered, or broker answered. */
  datatype Event =
    | Alone(released: Cash)
    | CallbackDenies
    | CallbackRaises
    | Answered(reply: Reply)

  predicate Enabled(s: Setup, m: Machine, e: Event)
    requires Quoted(m)
  {
    match Next(s, m)
    case Halt => false
    case Internal => e.Alone?
    case Ask(_, _) => !e.Alone?
  }

  function ChangeOf(s: Setup, m: Machine, e: Event): (c: Change)
    requires Quoted(m) && Enabled(s, m, e)
    ensures Fits(m, c)
  {
    match e
    case Alone(released) =>
      if m.stage.Gating? then
        PassGate(CashWith(s, released), released, GateVerdict(s, m, CashWith(s, released)))
      else if m.stage.rest != [] then SkipHead(HeadChoice(s, m).reason)
      else if m.stage.Selling? then EndSells
      else Complete
    case CallbackDenies => Deny
    case CallbackRaises => Abandon
    case Answered(reply) => Settle(Next(s, m).request, Next(s, m).cost, OutcomeOf(reply))
  }

  function After(s: Setup, m: Machine, e: Event): (n: Machine)
    requires Quoted(m) && Enabled(s, m, e)
    ensures Quoted(n) && Left(n) < Left(m)
  {
    var c := ChangeOf(s, m, e);
    ApplyProgress(m, c);
    Apply(m, c)
  }

  lemma ApplyProgress(m: Machine, c: Change)
    requires Quoted(m) && Fits(m, c)
    ensures Quoted(Apply(m, c)) && Left(Apply(m, c)) < Left(m)
  {
  }

  function Left(m: Machine): nat {
    match m.stage
    case Selling(rest) => |rest| + |m.buys| + 3
    case Gating => |m.buys| + 2
    case Buying(rest) => |rest| + 1
    case Ended(_) => 0
  }

  // ----- one cycle on its own -----

  datatype Admission = Granted | Denied | Raises

  /**
   * The outside world of one cycle, chosen arbitrarily: quotes, the claim callback's k-th answer, the broker's
   * reply to the last of the requests so far, and the proceeds confirmed for the accepted sales.
   */
  datatype Env = Env(
    quote: Quote,
    claim: nat -> Admission,
    broker: seq<Request> -> Reply,
    release: seq<Submission> -> Cash)

  function Admit(s: Setup, env: Env, call: nat): Admission {
    if s.dryRun then Granted else env.claim(call)
  }

  /** What the outside world answers next. */
  function Answer(s: Setup, env: Env, m: Machine): (e: Event)
    requires Quoted(m) && Next(s, m) != Halt
    ensures Enabled(s, m, e)
  {
    match Next(s, m)
    case Internal => Alone(env.release(m.acceptedSells))
    case Ask(request, _) =>
      match Admit(s, env, |m.requests|)
      case Granted => Answered(env.broker(m.requests + [request]))
      case Denied => CallbackDenies
      case Raises => CallbackRaises
  }

  function Run(s: Setup, env: Env, m: Machine): (n: Machine)
    requires Quoted(m)
    ensures Quoted(n) && n.stage.Ended?
    decreases Left(m)
  {
    if Next(s, m) == Halt then m else Run(s, env, After(s, m, Answer(s, env, m)))
  }

  lemma RunUnfolds(s: Setup, env: Env, m: Machine)
    requires Quoted(m)
    ensures m.stage.Ended? ==> Run(s, env, m) == m
    ensures !m.stage.Ended? ==>
              && Next(s, m) != Halt
              && var e := Answer(s, env, m);
                 && Enabled(s, m, e)
                 && Quoted(After(s, m, e))
                 && Left(After(s, m, e)) < Left(m)
                 && After(s, m, e) == Apply(m, ChangeOf(s, m, e))
                 && Run(s, env, m) == Run(s, env, After(s, m, e))
  {
  }

  function ScanAll(s: Setup, quote: Quote): Scanned {
    Scan(s, quote, Sorted(Universe(s)))
  }

  lemma ScanQuoted(s: Setup, quote: Quote, symbols: seq<string>)
    ensures var scanned := Scan(s, quote, symbols);
      Priced(scanned.deltas) && Priced(Sells(scanned.deltas)) && Priced(Buys(scanned.deltas))
  {
    FiltersSelect(Scan(s, quote, symbols).deltas);
  }

  lemma FiltersSelect(deltas: seq<Delta>)
    ensures forall d :: d in Sells(deltas) <==> d in deltas && d.value < 0.0
    ensures forall d :: d in Buys(deltas) <==> d in deltas && d.value > 0.0
  {
    if deltas != [] {
      FiltersSelect(deltas[..|deltas| - 1]);
      assert deltas == deltas[..|deltas| - 1] + [deltas[|deltas| - 1]];
    }
  }

  function Cycle(s: Setup, env: Env): (n: Machine)
    ensures Quoted(n) && n.stage.Ended?
  {
    ScanQuoted(s, env.quote, Sorted(Universe(s)));
    Run(s, env, Start(s, ScanAll(s, env.quote)))
  }

  /** Where a run starts: nothing sent, the sells ahead, every buy above its target. */
  lemma CycleStarts(s: Setup, env: Env) returns (m: Machine)
    ensures m == Start(s, ScanAll(s, env.quote))
    ensures Quoted(m) && m.stage.Selling? && Cycle(s, env) == Run(s, env, m)
    ensures m.submitted == [] && m.acceptedSells == [] && m.requests == [] && m.pendingSells == []
    ensures m.cash == m.opening == CashWith(s, 0.0) && m.released == 0.0
    ensures forall d | d in m.buys :: d.value > 0.0 && d in ScanAll(s, env.quote).deltas
    ensures forall d | d in m.stage.rest :: d in ScanAll(s, env.quote).deltas
  {
    hide Run, Sorted, Universe, Scan;
    m := Start(s, ScanAll(s, env.quote));
    ScanQuoted(s, env.quote, Sorted(Universe(s)));
    FiltersSelect(ScanAll(s, env.quote).deltas);
  }

  // ----- the result handed back -----

  datatype CycleResult = CycleResult(
    submitted: seq<Submission>,
    skipped: seq<Skip>,
    actionDone: bool,
    submissionDone: bool,
    pendingReconciliation: bool,
    idempotencyBlocked: bool)

  function Statuses(submitted: seq<Submission>): set<Status> {
    set x | x in submitted :: x.status
  }

  /** None when an exception left no result. */
  function ResultOf(m: Machine): Option<CycleResult>
    requires m.stage.Ended?
  {
    match m.stage.ending
    case Failed => None
    case ClaimRefused => Some(CycleResult(m.submitted, m.skipped, false, false, false, true))
    case Uncertain =>
      Some(CycleResult(m.submitted, m.skipped, false, exists x | x in m.submitted :: Accepted(x.status), true, false))
    case Completed =>
      var statuses := Statuses(m.submitted);
      var pending := statuses * PENDING_STATUSES != {};
      var done := m.submitted != [] && !pending && statuses <= COMPLETED_STATUSES;
      Some(CycleResult(m.submitted, m.skipped, done, pending, pending, false))
  }
}
