# Verified model of the Firstrade platform

A Dafny model of the parts of the platform where a mistake costs money or hides a fact, with proofs about them:
placing live orders under a durable claim, the ledger of notification candidates, the canonical spelling of
account amounts, the explanation of sell fees, and the guard around a configuration change.
`dafny verify dfyconfig.toml` checks all of it.

## How the model is laid out

**Live orders.** `Broker` has the requests, the port's classification of a raw reply, how the planner reads the
status, and the local safety check. `Planner` has the amounts and a machine whose steps are the planner's
reactions to the outside world; `Planner.Cycle` is one whole cycle against an arbitrary world (quotes, claim
callback, broker, confirmed proceeds). `Accounting`, `HaltOnUnknown`, `CashSafety`, `GateFidelity`, `OrderLimits`,
`OrderAmounts`, `SkipReasons`, `LocalSafety` and `Reserve` prove the properties of such a cycle; `Scenarios` works out
whole cycles on small accounts, to show that a condition is needed or a bound is reached. `ExecutionService` is the
planner in the form the code has, methods that update lists and cash in loops; each pass is proved to leave the books
of `Planner.Cycle`.
`StateKeys` and `StateStore` are the object names and the store with its create-if-absent; `RebalanceService` is
the frame around a cycle (duplicate check, planned state, claim closure, replaced result, completed state).
`ClaimProtocol` lets any number of cycles interleave step by step, with crashes, exceptions and lost replies at
every step and state objects overwritten at will, and proves what all interleavings have in common. A request
trace is part of the machine, so statements about "what was sent" are statements about that trace.

**Candidate ledger.** `CandidateLedger` reads, merges and prints the stored object; `LedgerRoundTrip` says when
printing and reading are inverse; `LedgerConvergence` compares a ledger with the set of snapshots delivered;
`LedgerStore` runs the merge against compare-and-set, once with other writers in between and then for any
interleaving of any number of merges; `LedgerAdmission` says which merges are accepted.

**Amounts.** `Digits` and `Text` are digit strings and trimming. `AccountFacts` turns spellings into canonical
texts and checks them for publication, `AmountSpelling` says which spellings are accepted and what each means;
`BrokerReconciliation` is the position fingerprint built on the same
printing.

**Fees and configuration.** `FeeSchedule` and `StatementReconciliation` are the dated segments, the regulatory
fee and the explanation of a sell; `ConfigSync` (with `Splitting`) is the normalise-and-compare check,
`ConfigAcceptance` says which changes it accepts, and `SpareAlias` is a service it refuses.

Money is `real`; `round(x, 2)` is rounding half to even on cents, `Money.RoundCents`. An oracle is a function
parameter: whatever it answers, the theorems hold. A store call goes right, fails before it took effect, or takes
effect and loses its reply; a create can also land and then be answered "exists already", when the storage client
retries the upload by itself.

## What the code does where one might expect something else

- An `investable_cash` of exactly 0 is falsy, and the planner falls back to the whole liquid cash
  (application/execution_service.py:594 and :717). The reserve is respected exactly when the plan cash is
  positive or nothing is reserved or liquid: `Reserve.ReserveRespectedExactly`. A cycle that spends the reserve:
  `Scenarios.ZeroPlanCashSpendsReserve`.
- A notional buy reduces the cash by the unrounded budget but sends it rounded, so n buys can exceed the cash by
  n - 1 half-cents: `CashSafety.NotionalCashBound`, reached by the cycle of `Scenarios.NotionalBoundTight`.
- The planner can emit orders that the local safety check refuses. `Scenarios.SafetyExactly` says exactly under
  which switches, caps and quotes no account ever sees that: live trading is enabled and acknowledged; the cap is positive and, where dollar amounts reach it, does not
  round up to the next cent; the discounted quote does not round to nothing; and the most shares that fit the cap at
  the quote still fit it at the rounded limit. A limit not above the quote is enough for the last, and so is a quote
  of a dollar. `Scenarios.PennySellRefused` and `Scenarios.RoundedUpSellRefused` are cycles outside.
- A sell can leave less than the target when the recorded value of a holding exceeds what is sellable at the
  quote. When exactly: `OrderLimits.SellsNeverOvershootExactly`; a cycle that does:
  `Scenarios.OvershootsWhenValueIsStale`.
- A lost reply to the claim's create blocks its period for good without an order, and so does a create that the
  storage client itself repeats: `ClaimProtocol.LostReplyOrphans` and `ClaimProtocol.OrphanedClaimBlocksForever`.
- A claim with an older boundary passes the duplicate check, as its documentation intends
  (application/strategy_run_persistence.py:169-180), but still refuses the run: the key is the same and the create
  never replaces. `ClaimProtocol.OlderClaimStillRefuses`.
- A run id of white space passes the writer and makes every later merge of that object fail:
  `LedgerRoundTrip.BlankIdBlocksTheLedger`.
- `execution_status` of a contradicted run depends on order or repetition in exactly one case, two snapshots of
  which neither is an alert: `LedgerConvergence.ExecutionStatusExactly`.
- One unused alias of the wanted secret is ignored before a change but not after it, so a service that already is
  as wanted then fails its own check: `ConfigSync.UnchangedAcceptedExactly`, with the services of
  `SpareAlias.SpareAliasRefused`.
- Parentheses negate in a context of 28 significant digits, so the value is kept, and the output reads back,
  only under a condition on the digits: `AccountFacts.ValueKept`, `AccountFacts.OutputsReparseExactly`.

## Model

| member | source | states |
|---|---|---|
| ClaimProtocol.OneSenderPerRun | application/rebalance_service.py:634-796 | in every interleaving, with crashes, exceptions and lost replies anywhere, the live requests of one account, profile and period come from one cycle, no symbol is requested twice among them, and the claim was absent at the start and still stands as created |
| ClaimProtocol.FlagTellsWhatWasSent | application/rebalance_service.py:759-776 | a cycle without the claim has sent nothing live; with it, the broker saw exactly the requests in its books; a run whose claim is absent has no request out |
| ClaimProtocol.OrphanedClaimBlocksForever | application/strategy_run_persistence.py:121-150 | once a claim exists that no live cycle holds, no later step of any cycle sends another order of that run and the claim never changes |
| ClaimProtocol.LostReplyOrphans | application/state_persistence.py:82-108 | a create that lands but loses its reply, or is answered by the client's own retry, ends the cycle without an order and leaves an orphaned claim |
| ClaimProtocol.OlderClaimStillRefuses | application/strategy_run_persistence.py:169-180 | a claim with an older boundary is no duplicate to the check, and yet a run of that key ends at its create, without the claim and with the store unchanged |
| ClaimProtocol.CyclesAreRuns | application/rebalance_service.py:778-796 | from any state of the world a new cycle can run to its end exactly as the sequential cycle says, so the interleaved model contains the service's own runs |
| ClaimProtocol.ChecksExactly | application/rebalance_service.py:635-654 | a cycle goes on to its orders exactly if the latest state was no terminal live one when read, and no claim of the current boundary is there when the claim is read |
| ClaimProtocol.GoneForGood | application/rebalance_service.py:654-718 | a cycle that the check has stopped, or that has died, sends nothing in any continuation |
| StateKeys.SharedClaimExactly | application/strategy_run_persistence.py:121-128 | two runs share a claim object exactly when masked account, profile and period agree after sanitising |
| StateKeys.ClaimsAreApart | application/strategy_run_persistence.py:90-128 | no state or history object, dry or live, has the name of a claim |
| StateStore.Store.CreateJson | application/state_persistence.py:82-108 | creates if absent, never replaces, and says true only for the creator; a failure may come before or after the effect, and the client's own retry can deny what its first upload created |
| StateStore.Store.WriteJson | application/state_persistence.py:73-80 | overwrites, with the same two kinds of failure |
| StateStore.Store.ReadJson | application/state_persistence.py:54-71 | returns the object or nothing, or fails |
| StateStore.SubmissionClaim.Acquire | application/rebalance_service.py:759-776 | creates the claim at most once, remembers holding it, and raises when persistence is off |
| RebalanceService.RunStrategyCycle | application/rebalance_service.py:634-978 | whole effect of a cycle on the store and the broker: it is a duplicate if and only if, live and with persistence, the claim object has the current boundary or the latest live state a terminal stage; a duplicate sends nothing and stays blocked; a refused result drops no order; live requests imply a claim created by this cycle; and a finished live run is blocked the next time exactly if it sent something or its own stage is terminal |
| RebalanceService.RunPrepared | application/rebalance_service.py:757-978 | from the planned state on: the books of the sequential cycle, the report made from them, and the completed state |
| RebalanceService.CheckDuplicate | application/rebalance_service.py:635-718 | stops if and only if the claim object has the current boundary or the latest state is live and of a terminal stage, and a blocked run stays blocked by the state it writes |
| RebalanceService.PersistState | application/strategy_run_persistence.py:260-293 | writes state, then history, with every partial failure accounted for |
| RebalanceService.RefusalDropsNothing | application/rebalance_service.py:797-835 | the claim can only be refused before the first request, so the empty list that replaces submitted orders drops none |
| ExecutionService.ExecuteValueTargetPlan | application/execution_service.py:538-910 | the imperative cycle ends with the books of the specified cycle, the claim is held exactly when a live request went out, and the store changes by that claim only |
| ExecutionService.ExecutionCycle.constructor | application/execution_service.py:594-608 | empty books and the starting cash |
| ExecutionService.ExecutionCycle.RecordOrderResult | application/execution_service.py:503-518 | accepted and unknown orders are submitted, rejected ones skipped with their reason |
| ExecutionService.ExecutionCycle.Submit | application/execution_service.py:635-640 | asks the callback for a live order, sends it only when granted, and records the one answer |
| ExecutionService.ExecutionCycle.ScanSymbols | application/execution_service.py:642-661 | every symbol of targets and holdings in order: below threshold, unquoted, or a delta |
| ExecutionService.ExecutionCycle.SellOne | application/execution_service.py:663-709 | one sell leaves the books one step of the specified machine further |
| ExecutionService.ExecutionCycle.SellPass | application/execution_service.py:663-709 | the sell loop leaves the run where the specification has it, or ends it |
| ExecutionService.ExecutionCycle.EstimateBuys | application/execution_service.py:721-755 | the gate's total and its flag, as a sum and an exists over the buys |
| ExecutionService.ExecutionCycle.GatePass | application/execution_service.py:711-778 | cash with confirmed proceeds, and the decision whether buys go ahead |
| ExecutionService.ExecutionCycle.BuyOne | application/execution_service.py:780-868 | one buy leaves the books one step of the specified machine further |
| ExecutionService.ExecutionCycle.BuyPass | application/execution_service.py:780-868 | the buy loop ends the run as the specification does |
| ExecutionService.ExecutionCycle.Report | application/execution_service.py:610-633 | the result of each way a cycle can end; a completed one is pending exactly if some status is accepted, submitted or partially filled, and done exactly if there are some and all are previewed or filled |
| Accounting.FullAccounting | application/execution_service.py:642-868 | in a completed cycle every due symbol has exactly one record; no symbol is recorded or requested twice; every request is recorded exactly once; all sells precede all buys |
| Accounting.StepAccounts | application/execution_service.py:663-868 | every step keeps these four invariants |
| HaltOnUnknown.UnknownHalts | application/execution_service.py:610-618 | an unknown order is the last submitted entry and the last request, the result is then pending and not done, and something was submitted for certain exactly if an accepted order precedes it; a completed cycle is pending and submitted exactly if some status is accepted, submitted or partially filled, and done exactly if there are some and all are previewed or filled |
| HaltOnUnknown.PortCycle | application/runtime_broker_adapters.py:446-463 | with the replies the port gives, a live completed cycle that submitted anything is pending and not done with every status submitted, a dry run that did is done, and only a live cycle can end on an unknown order |
| HaltOnUnknown.DoneXorPending | application/execution_service.py:893-909 | on accepted statuses, all previewed or filled and some accepted, submitted or partially filled exclude each other and leave no third case; these are the completed and the pending statuses |
| Broker.OutcomeTrichotomy | application/runtime_broker_adapters.py:430-463 | each live reply is exactly one of accepted, rejected and unknown, accepted and rejected only on the stated evidence; a dry run is accepted |
| Broker.StatusSpelling | application/execution_service.py:480-492 | case, and characters that are no letters or digits, make no difference to how a status is read |
| Broker.StatusNames | application/execution_service.py:480-492 | what is left is read as one of six names exactly |
| Broker.OrderKeeps | application/runtime_broker_adapters.py:400-424 | the order handed to the client is on the same side of the same symbol, for the same dollars, under the configured cap |
| Broker.ValidatesExactly | application/firstrade_client.py:215-275 | when any order passes the safety check, in its own fields and the three switches; without a dry run only with live trading enabled and acknowledged |
| CashSafety.WholeShareCashSafety | application/execution_service.py:711-868 | quantity times limit over all submitted buys is at most investable cash plus confirmed proceeds |
| CashSafety.NotionalCashBound | application/execution_service.py:784-815 | n notional buys exceed that cash by at most n - 1 half-cents |
| CashSafety.NotionalFits | application/execution_service.py:435-477 | each rounded notional is at most the cash at that moment and at most half a cent above its budget |
| CashSafety.WholeShareFits | application/execution_service.py:252-281 | a positive planned quantity costs at most the capped cash |
| CashSafety.CashConserved | application/execution_service.py:711-868 | a completed cycle starts its buys with the plan or liquid cash plus the confirmed proceeds, not below zero, and ends with exactly that less what the buys take, in dollar amounts up to a half-cent per buy |
| Scenarios.NotionalBoundTight | application/execution_service.py:784-815 | a cycle of two buys that exceeds its cash by exactly the one half-cent allowed |
| GateFidelity.BuysAreTheEstimates | application/execution_service.py:721-868 | if the gate lets the buys through, the buys sent are exactly the estimated ones in order, up to a halt; if it blocks, none is sent |
| GateFidelity.QuantityStable | application/execution_service.py:252-281 | less cash, but enough for the estimate, gives the same quantity |
| OrderLimits.SellsNeverOvershootExactly | application/execution_service.py:86-102 | a sell is at most the sellable quantity, and leaves at least the target if and only if the sellable value covers the target and the drift's own shares fit above it; a covered recorded value is enough |
| OrderLimits.CycleSellsWithin | application/execution_service.py:663-709 | the same of every sell request of every cycle, which is the sell its symbol's drift and quote call for |
| OrderLimits.SellWithinBudget | application/execution_service.py:663-679 | the sell is the most whole shares the budget allows |
| OrderLimits.BuysNeverOvershoot | application/execution_service.py:229-281 | a buy is the most whole shares the budget pays for and stays within the drift; a top-up is one share under exactly the named conditions |
| OrderLimits.TopUpClose | application/execution_service.py:229-249 | a topped-up holding ends at most half a share above its target |
| OrderAmounts.SellsMost | application/execution_service.py:86-102 | a number of shares is within the sell if and only if it is sellable, fits the cap, and stays within the drift or within what the position has over its target |
| OrderAmounts.FullExit | application/execution_service.py:86-102 | without a target and a cap every whole sellable share goes, whatever the quote has become |
| OrderAmounts.BuysMostOrTopsUp | application/execution_service.py:229-281 | a number of shares is within the buy if and only if it fits drift, cash and cap, or it is the one top-up share under the named conditions |
| OrderAmounts.LimitsExactly | application/execution_service.py:55-83 | the limits are the quote with the premium of the symbol or the general one, and with the discount, to the nearest cent with ties to even |
| OrderAmounts.NotionalExactly | application/execution_service.py:462-477 | a dollar amount is the least of drift, cash and cap if that leaves more than half a cent, else at most 98% of the cash in whole cents but a dollar where both reach one; it is placed exactly from a dollar on, to the nearest cent |
| OrderAmounts.WholeShareExactly | application/execution_service.py:816-868 | a whole-share buy goes out at its limit, or is skipped for lack of cash exactly if there is no cap and the cash is below the limit |
| OrderAmounts.EstimateIsChoice | application/execution_service.py:721-755 | the gate counts on exactly the order the buy loop would place with the same cash |
| OrderAmounts.WaitsExactly | application/execution_service.py:735-755 | a buy waits for proceeds exactly if it is not placed, and a dollar is due or one share exceeds drift, cash or cap |
| SkipReasons.SkipsExplained | application/execution_service.py:642-868 | every skip of every cycle has the reason it names, down to the drift, the quote, the share that may not be sold, the buy no cash allows, and the broker reply |
| SkipReasons.GateExactly | application/execution_service.py:711-778 | in a completed cycle the buys are held back for pending sales or for negative cash exactly under the named conditions, and then none is sent and all are skipped for that reason |
| Scenarios.OvershootsWhenValueIsStale | application/execution_service.py:86-102 | a cycle whose sell leaves 10 of a target of 60 |
| LocalSafety.SellPassesExactly | application/firstrade_client.py:215-275 | a planner sell passes the safety check if and only if the switches allow trading, the cap is no wrong one, the discounted quote exceeds half a cent, and the amount at the rounded limit fits the cap |
| LocalSafety.EveryOrderPasses | application/firstrade_client.py:215-275 | with switches that allow trading, an allowed cap, named symbols and allowed quotes, every request of every cycle passes the safety check |
| LocalSafety.SwitchesGuard | application/firstrade_client.py:260-266 | without a dry run and with live trading not enabled or not acknowledged, no request of any cycle passes |
| LocalSafety.LimitBelowQuoteSuffices | application/firstrade_client.py:245-256 | a quote is allowed under any cap when its sell limit is positive and not above it |
| LocalSafety.EveryOrderPassesFromADollar | application/firstrade_client.py:215-275 | quotes of a dollar or more are such quotes |
| Scenarios.SafetyExactly | application/firstrade_client.py:215-275 | for each pair of switches, cap, quote and kind of buy, trading live at the sell discount of the code: no account and no broker ever lead to a refused order if and only if both switches are on and that cap and that quote are allowed, or nothing is ever sent |
| Scenarios.PennySellRefused | application/firstrade_client.py:255-256 | a cycle whose sell limit rounds to zero and is refused |
| Scenarios.RoundedUpSellRefused | application/firstrade_client.py:245-253 | a cycle whose sell limit is positive but rounds up beyond the cap, and is refused |
| Reserve.ReserveRespectedExactly | decision_mapper.py:149-190 | the plan cash stays within liquid minus reserved, and the planner's starting cash does so if and only if it is positive or nothing is reserved or liquid |
| Reserve.PlatformReserveBounds | decision_mapper.py:149-160 | the platform reserve covers the floor and the ratio |
| Reserve.PlatformReserveExactly | decision_mapper.py:149-160 | the platform reserve is the largest of the floor, the share of the equity, and nothing |
| Reserve.PolicyExactly | decision_mapper.py:163-190 | reserved cash is the larger of its own and the platform reserve; investable cash the smaller of what it was and the liquid cash beyond it, neither below zero |
| Reserve.BuysRespectReserve | decision_mapper.py:163-190 | with a positive plan cash, submitted buys stay within free cash plus confirmed proceeds, in dollar amounts up to a half-cent for every buy but the first |
| Scenarios.ZeroPlanCashSpendsReserve | application/execution_service.py:594-597 | a cycle whose plan leaves nothing free, that sold nothing, and that buys for 50 |
| CandidateLedger.DecodePayload | notifications/unified.py:230-248 | the reading loops compute the specified decoding, legacy fields and archive mode included |
| CandidateLedger.AbsorbRows | notifications/unified.py:249-260 | the loop over new rows computes the specified fold, conflicts and errors included |
| CandidateLedger.RecordEvents | notifications/unified.py:261-264 | the loop over events computes the specified fold |
| CandidateLedger.MergePayload | notifications/unified.py:228-281 | one attempt of the merge: what it would write, or why it raises; the rows it writes have one identity |
| LedgerAdmission.MergeAcceptedExactly | notifications/unified.py:249-275 | a merge is accepted if and only if all rows held and delivered are of one identity, those of one run agree in their observations, events under one key are the same, and every event names a run that is there |
| LedgerAdmission.WriteAcceptedExactly | notifications/unified.py:228-281 | the same on the stored object, which must also be readable |
| LedgerAdmission.NeverMixed | notifications/unified.py:265-268 | in every interleaving the runs of one object keep one identity |
| LedgerAdmission.PublishedInOrder | notifications/unified.py:269-280 | rows are listed by ascending run id, each with exactly the events of its run by ascending key |
| LedgerRoundTrip.RoundTripExactly | notifications/unified.py:230-281 | a printed ledger is read back as itself if and only if ids are not blank, rows ran and are normalised, events sit under their keys, and a lone placeholder did not run |
| LedgerRoundTrip.LegacyRead | notifications/unified.py:236-252 | a former ledger is read row by row, with only the older name for unknown counts replaced |
| LedgerRoundTrip.MergeIsAStep | notifications/unified.py:222-286 | so a merge on the stored object is a step on ledgers |
| LedgerRoundTrip.BlankIdBlocksTheLedger | notifications/unified.py:236-240 | one blank run id makes every later merge fail |
| LedgerConvergence.Convergence | notifications/unified.py:202-286 | two histories with the same delivered snapshots and events, in any order and repetition, end with the same runs, events, statuses, counts and times |
| LedgerConvergence.ReplayStands | notifications/unified.py:249-264 | each row stands for the set of its snapshots: alone for itself, contradicted as an alert without counts as of the latest |
| LedgerConvergence.ContradictionStaysVisible | notifications/unified.py:249-260 | two differing snapshots always end as an alert with unknown counts, as of the later |
| LedgerConvergence.SoleSnapshotStands | notifications/unified.py:249-260 | a run with one snapshot is listed as that snapshot |
| LedgerConvergence.MergeSucceeds | notifications/unified.py:249-275 | a merge removes nothing, alerts never clear, contradictions stay, and what it brings is there |
| LedgerConvergence.ExecutionStatusExactly | notifications/unified.py:202-219 | on deliveries that are not contradicted already, the execution status is the same in every order and repetition if and only if the distinct snapshots are not exactly two of which neither is an alert |
| LedgerConvergence.PlainPairStatus | notifications/unified.py:211-218 | two snapshots without an alert end as unknown, or as what they say: a dry run, executed exactly if both counts are known and the sum is not zero, else no action |
| LedgerStore.Merge | notifications/unified.py:222-286 | with other writers in between, the merge writes at most once, over exactly what was there, and gives up only after eight foreign writes |
| LedgerStore.CandidateObject.CompareAndSet | notifications/unified.py:87-95 | writes only over the generation that was read |
| LedgerStore.CandidateObject.Read | notifications/unified.py:74-85 | generation and payload together, or a failure |
| LedgerStore.OneHistory | notifications/unified.py:222-286 | in every interleaving the object reads back as one sequence of merges, holding each successful one exactly once and no failed one except a lost write |
| LedgerStore.MergedStays | notifications/unified.py:222-286 | once a merge returned true, its runs and events are in every later state |
| LedgerStore.NothingTakenBack | notifications/unified.py:222-286 | between any two states of one interleaving: a run listed stays, an alert never clears, unknown counts never become known, and recorded events stand |
| LedgerStore.IdleNeverReplacesRuns | notifications/unified.py:277-280 | with a run in the ledger every merge lists exactly one row for each run, under distinct ids, and no placeholder |
| LedgerStore.InterleavingsConverge | notifications/unified.py:222-286 | two interleavings in which the same calls took effect leave objects that read alike |
| AccountFacts.ValueKept | application/account_facts_readonly.py:43-87 | every accepted value becomes a canonical text that denotes the same number, exactly unless parentheses drop a non-zero digit |
| AccountFacts.EqualTextForEqualNumbers | application/account_facts_readonly.py:43-87 | equal text if and only if equal numbers |
| AccountFacts.OutputsReparseExactly | application/account_facts_readonly.py:43-87 | an output converts to itself, except exactly for parenthesised amounts of at least 10^30 - 50 |
| AccountFacts.CanonicalUnique | application/account_facts_readonly.py:81-87 | one number has one canonical text |
| AccountFacts.AmbiguousExactly | application/account_facts_readonly.py:90-97 | a balance is ambiguous if and only if two present values differ as numbers, and otherwise is their common text |
| AccountFacts.PublisherOnlyChecksTheRange | application/account_facts_publisher.py:174-186 | every output meets the amount grammar and length; only the range can refuse it, and what is accepted is unchanged |
| AccountFacts.RoundedExact | application/account_facts_readonly.py:79-80 | rounding to 28 digits is exact if and only if the digits beyond are zero |
| AmountSpelling.AcceptedExactly | application/account_facts_readonly.py:43-80 | a text is accepted as a number if and only if it is built from white space, parentheses, dollar sign, sign, digits in groups and a fraction, within 64 characters, 30 and 28 digits, and it means what these parts say |
| AmountSpelling.AbsentExactly | application/account_facts_readonly.py:44-60 | a text is absent if and only if it is blank |
| AmountSpelling.NumberAcceptedExactly | application/account_facts_readonly.py:48-57 | a decimal is accepted if and only if it has at most 30 digits before and 28 behind the point |
| BrokerReconciliation.PositionQuantities | application/broker_reconciliation.py:89-130 | the loop computes the specified fingerprint or refuses |
| BrokerReconciliation.AcceptedExactly | application/broker_reconciliation.py:99-116 | a payload is accepted if and only if it is a list, every row has a symbol that is not blank and a quantity, and no two symbols are the same up to case and surrounding white space |
| BrokerReconciliation.SameFingerprintExactly | application/broker_reconciliation.py:89-130 | two accepted payloads have the same fingerprint if and only if they hold the same symbols in numerically equal quantities |
| FeeSchedule.Segments | application/firstrade_fee_schedule.py:130-142 | a table loads if and only if it is not empty, every row is readable and the dates rise strictly, and then as its rows say |
| FeeSchedule.Lookup | application/firstrade_fee_schedule.py:84-94 | the loop computes the specified lookup |
| FeeSchedule.LookupExactly | application/firstrade_fee_schedule.py:84-104 | the lookup returns the one latest segment not after the date and fails exactly outside the covered dates |
| StatementReconciliation.RegulatoryFeeBounds | application/statement_reconciliation.py:110-129 | with the rows of the day the SEC amount is proceeds times rate per million and the TAF amount the lesser of shares times rate and the cap; the fee is their sum raised to whole cents or the minimum, less than a cent above exactly when nothing is owed or the minimum allows it |
| StatementReconciliation.ExplainedMeans | application/statement_reconciliation.py:132-174 | an explained sell has gross minus net within tolerance plus two cents of broker fee and the SEC and TAF amounts owed when the minimum is at most a cent |
| StatementReconciliation.ExplainedExactly | application/statement_reconciliation.py:132-174 | a readable sell on a covered day is explained if and only if its net differs from the expected net by at most the tolerance, each rounded to cents as the code does, with the expected net built from the amounts owed |
| StatementReconciliation.UnsupportedExactly | application/statement_reconciliation.py:155-168 | a row is not applicable exactly if it is no broker-assisted sell, and a broker-assisted sell is unsupported exactly if its facts cannot be read or some table does not cover its day |
| ConfigSync.ConfigurationFrame | scripts/account_facts_config_sync.py:418-463 | an accepted change leaves every variable outside the seven, every other field, label and annotation, every alias but the ones the two digests name as ignored, and the resolved traffic as they were; it has set the facts fields, and the token resolves to the wanted secret |
| ConfigSync.SharedAliasesKept | scripts/account_facts_config_sync.py:170-262 | an alias that any other variable references or any volume mounts keeps its secret |
| ConfigSync.UnchangedAcceptedExactly | scripts/account_facts_config_sync.py:204-262 | a service already as wanted passes its own check, except exactly when one spare alias of the wanted secret stands unused beside the token's |
| SpareAlias.SpareAliasRefused | scripts/account_facts_config_sync.py:204-262 | whatever two aliases, secret and wanted facts: the service with that spare alias is as wanted and refused |
| ConfigSync.DigestKeeps | scripts/account_facts_config_sync.py:327-380 | a normalised spec, read back, shows everything the change must leave alone |
| ConfigSync.DigestIgnoresRowOrder | scripts/account_facts_config_sync.py:370-377 | the same variables in another order give the same digest |
| ConfigAcceptance.AcceptedExactly | scripts/account_facts_config_sync.py:418-463 | a change is accepted if and only if the environment is in order, the token resolves, the six fields are as asked, and everything that must be kept is as before |
| ConfigAcceptance.EnvironmentExactly | scripts/account_facts_config_sync.py:88-124 | the environment is read if and only if the one container lists named variables, none twice, that fit the target |
| ConfigAcceptance.TrafficExactly | scripts/account_facts_config_sync.py:265-301 | traffic whose rows are all sent somewhere is digested as the multiset of revision, percent and tag |
| ConfigAcceptance.RowExactly | scripts/account_facts_config_sync.py:265-301 | a traffic row is sent to a revision by name, or as the latest one that it may also name |
| ConfigAcceptance.AliasEntryExactly | scripts/account_facts_config_sync.py:142-168 | an entry of the alias annotation is accepted exactly as alias, project number and secret name of the allowed characters and lengths, with an alias not yet taken |
| ConfigAcceptance.DigestExactly | scripts/account_facts_config_sync.py:327-380 | two specs have the same digest if and only if they keep the same parts and the same maps are null |
| ConfigAcceptance.StampsIgnored | scripts/account_facts_config_sync.py:335-360 | the revision name, the nonce label and the client name and version never change the digest |
| ConfigAcceptance.FactsIgnored | scripts/account_facts_config_sync.py:366-377 | adding, changing, moving or dropping the seven variables alone never changes the digest |
| ConfigSync.AliasesReadBack | scripts/account_facts_config_sync.py:143-168 | printing aliases into the annotation and parsing it gives the same aliases |

## Left out

- Telegram, Flask and HTTP, rendering of messages, login, sessions and transport: input and output.
- Strategy evaluation and small-account adjustment of targets: targets are arbitrary.
- Confirmed sale release, terminal stages and blocking skip reasons come from a library that is not part of this model: they are arbitrary functions, the release non-negative.
- Binary floating point and the 28-digit context of fee arithmetic: money is real.
- SHA-256: a digest is the normalised value itself.
- Non-ASCII letters, digits and white space: upper case, alphanumeric tests and stripping are those of ASCII.
- A non-rejection status string other than the port's own: the planner reads any string, the theorems about the port cover the port's four.
- A missing claim callback: it raises like a callback without persistence.
- Order prices of type stop, durations and the market-price path of the safety check: the planner never emits them.
- Drift notes, execution notes, signal snapshots, plug-in alerts and the reports of a finished cycle beyond its orders and flags.
- Writers of the candidate object other than the merge, and deletion of objects.
- Aggregating more than two rows at once: the merge only ever passes two.
- Building a candidate row and its event from a report: a merge call takes them as given.
- In-place popping of the deep copy in the template digest: it is modelled on values, so aliasing inside the copy is not captured.
- Malformed traffic rows (no mapping, percent out of range): rows are typed records whose percent keeps its spelling.
- The checks of the runtime target inside the environment: an arbitrary predicate on the environment.
- The valuation report and the parsing of the statement history: the fee explanation takes a sell and its amounts as read.
- Positions, currencies and timestamps of the facts snapshot: copied beside the amounts, which are the part that is converted.
- LedgerStore.InterleavingsConverge: compares runs in which the same calls took effect, because a call whose event names a run not yet in the ledger raises in one order and not in the other.
- LedgerConvergence.Convergence: excludes the execution status and the copied extra fields, which depend on repetition and order.
