/** Nothing is lost: every symbol that moves has one record, and every request to the broker has one record. */
module Accounting {
  import opened Wrappers
  import opened Ordering
  import opened Money
  import opened Broker
  import opened Planner

  // ----- counting -----

  function DeltasOf(xs: seq<Delta>, x: string): nat {
    if xs == [] then 0
    else DeltasOf(xs[..|xs| - 1], x) + if xs[|xs| - 1].symbol == x then 1 else 0
  }

  function SkipsOf(xs: seq<Skip>, x: string): nat {
    if xs == [] then 0
    else SkipsOf(xs[..|xs| - 1], x) + if xs[|xs| - 1].symbol == x then 1 else 0
  }

  function SubmissionsOf(xs: seq<Submission>, x: string): nat {
    if xs == [] then 0
    else SubmissionsOf(xs[..|xs| - 1], x) + if xs[|xs| - 1].order.symbol == x then 1 else 0
  }

  function RequestsOf(xs: seq<Request>, x: string): nat {
    if xs == [] then 0
    else RequestsOf(xs[..|xs| - 1], x) + if xs[|xs| - 1].symbol == x then 1 else 0
  }

  /** How often the order `r` is among the submitted ones, and among the rejected ones. */
  function SubmittedAs(xs: seq<Submission>, r: Request): nat {
    if xs == [] then 0
    else SubmittedAs(xs[..|xs| - 1], r) + if xs[|xs| - 1].order == r then 1 else 0
  }

  function RejectedAs(xs: seq<Skip>, r: Request): nat {
    if xs == [] then 0
    else RejectedAs(xs[..|xs| - 1], r) + if xs[|xs| - 1].order == Some(r) then 1 else 0
  }

  function SentAs(xs: seq<Request>, r: Request): nat {
    if xs == [] then 0
    else SentAs(xs[..|xs| - 1], r) + if xs[|xs| - 1] == r then 1 else 0
  }

  lemma {:induction false} DeltasHead(xs: seq<Delta>, x: string)
    requires xs != []
    ensures DeltasOf(xs, x) == (if xs[0].symbol == x then 1 else 0) + DeltasOf(xs[1..], x)
  {
    if |xs| > 1 {
      DeltasHead(xs[..|xs| - 1], x);
      assert xs[1..][..|xs| - 2] == xs[..|xs| - 1][1..];
    }
  }

  lemma {:induction false} SkipAllCounts(skipped: seq<Skip>, buys: seq<Delta>, reason: Reason, x: string)
    ensures SkipsOf(skipped + SkipAll(buys, reason), x) == SkipsOf(skipped, x) + DeltasOf(buys, x)
  {
    if buys == [] {
      assert skipped + SkipAll(buys, reason) == skipped;
    } else {
      var init, last := buys[..|buys| - 1], Skip(buys[|buys| - 1].symbol, reason, None);
      SkipAllCounts(skipped, init, reason, x);
      SkipsAppend(skipped + SkipAll(init, reason), last, x);
      assert skipped + SkipAll(buys, reason) == skipped + SkipAll(init, reason) + [last];
      hide SkipsOf;
    }
  }

  lemma {:induction false} SkipAllRejectsNone(skipped: seq<Skip>, buys: seq<Delta>, reason: Reason, r: Request)
    ensures RejectedAs(skipped + SkipAll(buys, reason), r) == RejectedAs(skipped, r)
  {
    var more := SkipAll(buys, reason);
    if buys == [] {
      assert skipped + more == skipped;
    } else {
      var init := buys[..|buys| - 1];
      SkipAllRejectsNone(skipped, init, reason, r);
      assert (skipped + more)[..|skipped + more| - 1] == skipped + SkipAll(init, reason);
    }
  }

  lemma {:induction false} RequestOnce(xs: seq<Request>, i: int)
    requires 0 <= i < |xs|
    ensures RequestsOf(xs, xs[i].symbol) >= 1
  {
    if i < |xs| - 1 {
      RequestOnce(xs[..|xs| - 1], i);
    }
  }

  lemma {:induction false} RequestTwice(xs: seq<Request>, i: int, j: int)
    requires 0 <= i < j < |xs| && xs[i].symbol == xs[j].symbol
    ensures RequestsOf(xs, xs[i].symbol) >= 2
  {
    if j < |xs| - 1 {
      RequestTwice(xs[..|xs| - 1], i, j);
    } else {
      RequestOnce(xs[..|xs| - 1], i);
    }
  }

  // ----- the invariants, for one symbol x or one request r -----

  function Records(m: Machine, x: string): nat {
    SubmissionsOf(m.submitted, x) + SkipsOf(m.skipped, x)
  }

  /** Deltas of `x` still to be handled. */
  function OutstandingIn(stage: Stage, buys: seq<Delta>, x: string): nat {
    match stage
    case Selling(rest) => DeltasOf(rest, x) + DeltasOf(buys, x)
    case Gating => DeltasOf(buys, x)
    case Buying(rest) => DeltasOf(rest, x)
    case Ended(_) => 0
  }

  function Outstanding(m: Machine, x: string): nat {
    OutstandingIn(m.stage, m.buys, x)
  }

  lemma HeadHandled(m: Machine, x: string)
    requires Pending(m)
    ensures Outstanding(m, x)
         == (if m.stage.rest[0].symbol == x then 1 else 0) + OutstandingIn(StageAfter(m.stage), m.buys, x)
  {
    DeltasHead(m.stage.rest, x);
  }

  /** Symbol `x` owes `due` records. A cycle that ends early may leave some out, but never adds one. */
  predicate Conserved(m: Machine, x: string, due: nat) {
    if m.stage.Ended? && m.stage.ending != Completed then Records(m, x) <= due
    else Records(m, x) + Outstanding(m, x) == due
  }

  predicate RequestsFit(m: Machine, x: string, due: nat) {
    RequestsOf(m.requests, x) + Outstanding(m, x) <= due
  }

  predicate RecordedIn(requests: seq<Request>, m: Machine, r: Request) {
    SentAs(requests, r) == SubmittedAs(m.submitted, r) + RejectedAs(m.skipped, r)
  }

  /** Only an exception out of the broker call itself can leave a request, the last one, without a record. */
  predicate RequestRecorded(m: Machine, r: Request) {
    RecordedIn(m.requests, m, r)
    || (m.stage == Ended(Failed) && m.requests != [] && RecordedIn(m.requests[..|m.requests| - 1], m, r))
  }

  predicate SellsFirst(m: Machine) {
    && (forall i, j | 0 <= i < j < |m.requests| :: IsBuy(m.requests[i]) ==> IsBuy(m.requests[j]))
    && ((m.stage.Selling? || m.stage.Gating?) ==> forall r | r in m.requests :: !IsBuy(r))
  }

  // ----- one step -----

  lemma SkipsAppend(xs: seq<Skip>, y: Skip, x: string)
    ensures SkipsOf(xs + [y], x) == SkipsOf(xs, x) + if y.symbol == x then 1 else 0
  {
    assert (xs + [y])[..|xs|] == xs;
  }

  lemma SubmissionsAppend(xs: seq<Submission>, y: Submission, x: string)
    ensures SubmissionsOf(xs + [y], x) == SubmissionsOf(xs, x) + if y.order.symbol == x then 1 else 0
  {
    assert (xs + [y])[..|xs|] == xs;
  }

  lemma RequestsAppend(xs: seq<Request>, y: Request, x: string)
    ensures RequestsOf(xs + [y], x) == RequestsOf(xs, x) + if y.symbol == x then 1 else 0
  {
    assert (xs + [y])[..|xs|] == xs;
  }

  lemma ApplyConserves(m: Machine, c: Change, x: string, due: nat)
    requires Fits(m, c) && Conserved(m, x, due)
    ensures Conserved(Apply(m, c), x, due)
  {
    if Pending(m) {
      HeadHandled(m, x);
      hide OutstandingIn, SkipsOf, SubmissionsOf;
      HeadConserves(m, c, x, due);
    } else if c.PassGate? && c.verdict.Some? {
      SkipAllCounts(m.skipped, m.buys, c.verdict.value, x);
    }
  }

  lemma HeadConserves(m: Machine, c: Change, x: string, due: nat)
    requires Fits(m, c) && Pending(m) && Conserved(m, x, due)
    requires Outstanding(m, x)
          == (if m.stage.rest[0].symbol == x then 1 else 0) + OutstandingIn(StageAfter(m.stage), m.buys, x)
    ensures Conserved(Apply(m, c), x, due)
  {
    hide DeltasOf, SkipsOf, SubmissionsOf;
    var n := Apply(m, c);
    if |n.skipped| > |m.skipped| {
      SkipsAppend(m.skipped, n.skipped[|m.skipped|], x);
    } else if |n.submitted| > |m.submitted| {
      SubmissionsAppend(m.submitted, n.submitted[|m.submitted|], x);
    }
  }

  lemma ApplyFits(m: Machine, c: Change, x: string, due: nat)
    requires Fits(m, c) && RequestsFit(m, x, due)
    ensures RequestsFit(Apply(m, c), x, due)
  {
    if c.Settle? {
      hide RequestsOf, DeltasOf;
      HeadHandled(m, x);
      RequestsAppend(m.requests, c.request, x);
      SettleFits(m, c.request, c.cost, c.outcome, x);
    } else if Pending(m) {
      HeadHandled(m, x);
    }
  }

  lemma SettleFits(m: Machine, request: Request, cost: real, outcome: Outcome, x: string)
    requires Pending(m)
    ensures var n := Settled(m, request, cost, outcome);
      n.requests == m.requests + [request]
      && Outstanding(n, x) <= OutstandingIn(StageAfter(m.stage), m.buys, x)
  {
    hide DeltasOf;
  }

  lemma ApplyRecords(m: Machine, c: Change, r: Request)
    requires Fits(m, c) && RequestRecorded(m, r)
    ensures RequestRecorded(Apply(m, c), r)
  {
    var n := Apply(m, c);
    match c {
      case PassGate(_, _, verdict) =>
        if verdict.Some? {
          SkipAllRejectsNone(m.skipped, m.buys, verdict.value, r);
        }
      case Settle(request, _, outcome) => SettleRecords(m, request, c.cost, outcome, r);
      case SkipHead(_) => RejectedAppend(m.skipped, n.skipped[|m.skipped|], r);
      case Deny => RejectedAppend(m.skipped, n.skipped[|m.skipped|], r);
      case _ =>
    }
  }

  lemma SettleRecords(m: Machine, request: Request, cost: real, outcome: Outcome, r: Request)
    requires Pending(m) && RecordedIn(m.requests, m, r)
    ensures RequestRecorded(Settled(m, request, cost, outcome), r)
  {
    var n := Settled(m, request, cost, outcome);
    if outcome.CallRaised? {
      assert n.requests[..|n.requests| - 1] == m.requests;
      hide SentAs, SubmittedAs, RejectedAs;
    } else {
      AnswerRecords(m, n, request, r);
    }
  }

  /** One more request, and with it one more entry that names it: submitted, or rejected. */
  lemma AnswerRecords(m: Machine, n: Machine, request: Request, r: Request)
    requires RecordedIn(m.requests, m, r)
    requires n.requests == m.requests + [request]
    requires || (n.submitted == m.submitted && |n.skipped| == |m.skipped| + 1 && m.skipped <= n.skipped
                 && n.skipped[|m.skipped|].order == Some(request))
             || (n.skipped == m.skipped && |n.submitted| == |m.submitted| + 1 && m.submitted <= n.submitted
                 && n.submitted[|m.submitted|].order == request)
    ensures RecordedIn(n.requests, n, r)
  {
    hide SentAs, SubmittedAs, RejectedAs;
    SentAppend(m.requests, request, r);
    if n.submitted == m.submitted {
      assert n.skipped == m.skipped + [n.skipped[|m.skipped|]];
      RejectedAppend(m.skipped, n.skipped[|m.skipped|], r);
    } else {
      assert n.submitted == m.submitted + [n.submitted[|m.submitted|]];
      SubmittedAppend(m.submitted, n.submitted[|m.submitted|], r);
    }
  }

  lemma SentAppend(xs: seq<Request>, q: Request, r: Request)
    ensures SentAs(xs + [q], r) == SentAs(xs, r) + if q == r then 1 else 0
  {
    assert (xs + [q])[..|xs|] == xs;
  }

  lemma SubmittedAppend(xs: seq<Submission>, q: Submission, r: Request)
    ensures SubmittedAs(xs + [q], r) == SubmittedAs(xs, r) + if q.order == r then 1 else 0
  {
    assert (xs + [q])[..|xs|] == xs;
  }

  lemma RejectedAppend(xs: seq<Skip>, q: Skip, r: Request)
    ensures RejectedAs(xs + [q], r) == RejectedAs(xs, r) + if q.order == Some(r) then 1 else 0
  {
    assert (xs + [q])[..|xs|] == xs;
  }

  lemma ApplySellsFirst(m: Machine, c: Change)
    requires Fits(m, c) && SellsFirst(m)
    ensures SellsFirst(Apply(m, c))
  {
  }

  predicate Accounted(m: Machine, x: string, due: nat, r: Request) {
    Conserved(m, x, due) && RequestsFit(m, x, due) && RequestRecorded(m, r) && SellsFirst(m)
  }

  lemma StepAccounts(s: Setup, m: Machine, e: Event, x: string, due: nat, r: Request)
    requires Quoted(m) && Enabled(s, m, e)
    requires Accounted(m, x, due, r)
    ensures Accounted(After(s, m, e), x, due, r)
  {
    var c := ChangeOf(s, m, e);
    ApplyConserves(m, c, x, due);
    ApplyFits(m, c, x, due);
    ApplyRecords(m, c, r);
    ApplySellsFirst(m, c);
  }

  // ----- the whole cycle -----

  /** A symbol owes a record unless it is quoted, not below the threshold, and exactly on target. */
  predicate Due(s: Setup, quote: Quote, x: string) {
    x in Universe(s)
    && (Abs(Drift(s, x)) < s.threshold || QuotePrice(quote, x).None? || Drift(s, x) != 0.0)
  }

  function RecordsDue(s: Setup, quote: Quote, x: string): nat {
    if Due(s, quote, x) then 1 else 0
  }

  lemma {:induction false} ScanCounts(s: Setup, quote: Quote, symbols: seq<string>, x: string)
    requires StrictlySorted(symbols)
    requires forall y | y in symbols :: y in Universe(s)
    ensures var scanned := Scan(s, quote, symbols);
      SkipsOf(scanned.skipped, x) + DeltasOf(Sells(scanned.deltas), x) + DeltasOf(Buys(scanned.deltas), x)
      == if x in symbols then RecordsDue(s, quote, x) else 0
  {
    if symbols != [] {
      var init, last := symbols[..|symbols| - 1], symbols[|symbols| - 1];
      assert symbols == init + [last];
      ScanCounts(s, quote, init, x);
      ScanLast(s, quote, symbols, x);
    }
  }

  lemma ScanLast(s: Setup, quote: Quote, symbols: seq<string>, x: string)
    requires symbols != [] && symbols[|symbols| - 1] in Universe(s)
    ensures var last := symbols[|symbols| - 1];
      var before, now := Scan(s, quote, symbols[..|symbols| - 1]), Scan(s, quote, symbols);
      SkipsOf(now.skipped, x) + DeltasOf(Sells(now.deltas), x) + DeltasOf(Buys(now.deltas), x)
      == SkipsOf(before.skipped, x) + DeltasOf(Sells(before.deltas), x) + DeltasOf(Buys(before.deltas), x)
       + if x == last then RecordsDue(s, quote, x) else 0
  {
    var last := symbols[|symbols| - 1];
    var before, now := Scan(s, quote, symbols[..|symbols| - 1]), Scan(s, quote, symbols);
    if |now.skipped| > |before.skipped| {
      assert now.skipped[..|now.skipped| - 1] == before.skipped;
    } else {
      assert now.deltas[..|now.deltas| - 1] == before.deltas;
      var sells, buys := Sells(now.deltas), Buys(now.deltas);
      assert Drift(s, last) < 0.0 ==> sells[..|sells| - 1] == Sells(before.deltas);
      assert Drift(s, last) > 0.0 ==> buys[..|buys| - 1] == Buys(before.deltas);
    }
  }

  lemma {:induction false} NoneRejected(skipped: seq<Skip>, r: Request)
    requires forall x | x in skipped :: x.order.None?
    ensures RejectedAs(skipped, r) == 0
  {
    if skipped != [] {
      assert skipped[|skipped| - 1] in skipped;
      NoneRejected(skipped[..|skipped| - 1], r);
    }
  }

  lemma {:induction false} ScanOrdersNothing(s: Setup, quote: Quote, symbols: seq<string>)
    ensures forall x | x in Scan(s, quote, symbols).skipped :: x.order.None?
  {
    if symbols != [] {
      ScanOrdersNothing(s, quote, symbols[..|symbols| - 1]);
    }
  }

  lemma FreshAccounts(s: Setup, scanned: Scanned, x: string, due: nat, r: Request)
    requires SkipsOf(scanned.skipped, x) + DeltasOf(Sells(scanned.deltas), x) + DeltasOf(Buys(scanned.deltas), x) == due
    requires RejectedAs(scanned.skipped, r) == 0
    ensures Accounted(Start(s, scanned), x, due, r)
  {
    hide Sells, Buys;
  }

  lemma StartAccounts(s: Setup, quote: Quote, x: string, r: Request)
    ensures Accounted(Start(s, ScanAll(s, quote)), x, RecordsDue(s, quote, x), r)
  {
    var symbols := Sorted(Universe(s));
    assert ScanAll(s, quote) == Scan(s, quote, symbols);
    assert x in symbols || RecordsDue(s, quote, x) == 0;
    hide *;
    ScanCounts(s, quote, symbols, x);
    ScanOrdersNothing(s, quote, symbols);
    NoneRejected(ScanAll(s, quote).skipped, r);
    FreshAccounts(s, ScanAll(s, quote), x, RecordsDue(s, quote, x), r);
  }

  lemma {:induction false} RunAccounts(s: Setup, env: Env, m: Machine, x: string, due: nat, r: Request)
    requires Quoted(m) && Accounted(m, x, due, r)
    ensures Accounted(Run(s, env, m), x, due, r)
    decreases Left(m)
  {
    RunUnfolds(s, env, m);
    hide Run, Next, After, Answer, ChangeOf, Enabled, Apply;
    if !m.stage.Ended? {
      var e := Answer(s, env, m);
      StepAccounts(s, m, e, x, due, r);
      RunAccounts(s, env, After(s, m, e), x, due, r);
    }
  }

  lemma DistinctSymbols(m: Machine)
    requires forall x: string :: RequestsOf(m.requests, x) <= 1
    ensures forall i, j | 0 <= i < j < |m.requests| :: m.requests[i].symbol != m.requests[j].symbol
  {
    forall i, j | 0 <= i < j < |m.requests| ensures m.requests[i].symbol != m.requests[j].symbol {
      if m.requests[i].symbol == m.requests[j].symbol {
        RequestTwice(m.requests, i, j);
      }
    }
  }

  lemma CycleAccounts(s: Setup, env: Env, x: string, r: Request)
    ensures Accounted(Cycle(s, env), x, RecordsDue(s, env.quote, x), r)
  {
    StartAccounts(s, env.quote, x, r);
    var m := CycleStarts(s, env);
    hide *;
    RunAccounts(s, env, m, x, RecordsDue(s, env.quote, x), r);
  }

  /**
   * Full accounting. However a cycle ends, no symbol is recorded twice or requested twice, and no sell follows
   * a buy. When it completes, each symbol in the targets or holdings has exactly one record, unless it was
   * quoted, not below the threshold and exactly on target, and then it has none. Every request is recorded
   * exactly once, except the last one of a cycle that the broker call broke by raising.
   */
  lemma FullAccounting(s: Setup, env: Env)
    ensures var m := Cycle(s, env);
      && (m.stage.ending == Completed ==> forall x :: Records(m, x) == if Due(s, env.quote, x) then 1 else 0)
      && (forall x :: Records(m, x) <= if Due(s, env.quote, x) then 1 else 0)
      && (m.stage.ending != Failed ==> forall r :: RecordedIn(m.requests, m, r))
      && (forall r :: RequestRecorded(m, r))
      && (forall i, j | 0 <= i < j < |m.requests| :: m.requests[i].symbol != m.requests[j].symbol)
      && (forall i, j | 0 <= i < j < |m.requests| :: IsBuy(m.requests[i]) ==> IsBuy(m.requests[j]))
  {
    var m := Cycle(s, env);
    var any := Notional("", 0.0);
    forall x: string, r: Request
      ensures Accounted(m, x, RecordsDue(s, env.quote, x), r)
    {
      CycleAccounts(s, env, x, r);
    }
    assert Accounted(m, "", RecordsDue(s, env.quote, ""), any);
    forall x: string
      ensures RequestsOf(m.requests, x) <= 1
      ensures Records(m, x) <= RecordsDue(s, env.quote, x)
      ensures m.stage.ending == Completed ==> Records(m, x) == RecordsDue(s, env.quote, x)
    {
      assert Accounted(m, x, RecordsDue(s, env.quote, x), any);
    }
    forall r: Request ensures RequestRecorded(m, r) {
      assert Accounted(m, "", RecordsDue(s, env.quote, ""), r);
    }
    assert m.stage.ending != Failed ==> forall r | RequestRecorded(m, r) :: RecordedIn(m.requests, m, r);
    DistinctSymbols(m);
  }
}
