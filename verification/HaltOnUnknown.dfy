/** An order whose outcome is unknown is the last thing a cycle does, and the result says so. */
module HaltOnUnknown {
  import opened Ordering
  import opened Broker
  import opened Planner

  predicate AllAccepted(xs: seq<Submission>) {
    forall x | x in xs :: Accepted(x.status)
  }

  /** Everything submitted was accepted, except an unknown order that ended the cycle. */
  predicate Halted(m: Machine) {
    if m.stage == Ended(Uncertain) then
      && m.submitted != [] && m.requests != []
      && AllAccepted(m.submitted[..|m.submitted| - 1])
      && Unknown(m.submitted[|m.submitted| - 1].status)
      && m.submitted[|m.submitted| - 1].order == m.requests[|m.requests| - 1]
    else AllAccepted(m.submitted)
  }

  predicate Honest(c: Change) {
    c.Settle? ==>
      && (c.outcome.OrderAccepted? ==> Accepted(c.outcome.status))
      && (c.outcome.OrderUnknown? ==> Unknown(c.outcome.status))
  }

  lemma ApplyHalts(m: Machine, c: Change)
    requires Fits(m, c) && Honest(c) && Halted(m)
    ensures Halted(Apply(m, c))
  {
    var n := Apply(m, c);
    if |n.submitted| > |m.submitted| {
      assert n.submitted[..|n.submitted| - 1] == m.submitted;
    }
  }

  lemma {:induction false} RunHalts(s: Setup, env: Env, m: Machine)
    requires Quoted(m) && Halted(m)
    ensures Halted(Run(s, env, m))
    decreases Left(m)
  {
    RunUnfolds(s, env, m);
    hide Run, Next, After, Answer, ChangeOf, Enabled, Apply;
    if !m.stage.Ended? {
      var e := Answer(s, env, m);
      ApplyHalts(m, ChangeOf(s, m, e));
      RunHalts(s, env, After(s, m, e));
    }
  }

  // ----- the result, status by status -----

  /** The broker has the order and has not finished with it. */
  predicate SomeOpen(submitted: seq<Submission>) {
    exists x | x in submitted ::
      x.status == AsAccepted || x.status == AsSubmitted || x.status == AsPartiallyFilled
  }

  predicate AllFinal(submitted: seq<Submission>) {
    forall x | x in submitted :: x.status == AsPreviewed || x.status == AsFilled
  }

  /** The status sets, order by order. */
  lemma StatusSets(submitted: seq<Submission>)
    ensures Statuses(submitted) * PENDING_STATUSES != {} <==> SomeOpen(submitted)
    ensures Statuses(submitted) <= COMPLETED_STATUSES <==> AllFinal(submitted)
  {
    var statuses := Statuses(submitted);
    assert forall x | x in submitted :: x.status in statuses;
    assert forall t | t in statuses :: exists x | x in submitted :: x.status == t;
    if SomeOpen(submitted) {
      var x :| x in submitted && (x.status == AsAccepted || x.status == AsSubmitted || x.status == AsPartiallyFilled);
      assert x.status in statuses * PENDING_STATUSES;
    }
    if statuses * PENDING_STATUSES != {} {
      var t :| t in statuses * PENDING_STATUSES;
    }
  }

  /** On accepted orders, "done" and "pending reconciliation" exclude each other and leave no third case. */
  lemma DoneXorPending(submitted: seq<Submission>)
    requires AllAccepted(submitted)
    ensures AllFinal(submitted) <==> !SomeOpen(submitted)
    ensures AllFinal(submitted) <==> Statuses(submitted) <= COMPLETED_STATUSES
    ensures SomeOpen(submitted) <==> Statuses(submitted) * PENDING_STATUSES != {}
  {
    StatusSets(submitted);
  }

  /**
   * Halt on uncertainty. If any submitted order is unknown, it is the last submitted one and the last request
   * of the cycle, and the result is pending reconciliation and not done; something was submitted for certain
   * exactly if an accepted order precedes it. In a completed cycle every submitted order was accepted; the result
   * is pending exactly if one of them is accepted, submitted or partially filled, which is also when something was
   * submitted, and done exactly if there are some and all are previewed or filled.
   */
  lemma UnknownHalts(s: Setup, env: Env)
    ensures var m := Cycle(s, env);
      && ((exists x | x in m.submitted :: Unknown(x.status)) <==> m.stage.ending == Uncertain)
      && (m.stage.ending == Uncertain ==>
            && m.submitted != [] && m.requests != []
            && Unknown(m.submitted[|m.submitted| - 1].status)
            && m.submitted[|m.submitted| - 1].order == m.requests[|m.requests| - 1]
            && AllAccepted(m.submitted[..|m.submitted| - 1])
            && var r := ResultOf(m).value;
               r.pendingReconciliation && !r.actionDone && (r.submissionDone <==> |m.submitted| > 1))
      && (m.stage.ending == Completed ==>
            && AllAccepted(m.submitted)
            && var r := ResultOf(m).value;
               && (r.pendingReconciliation <==> SomeOpen(m.submitted))
               && r.submissionDone == r.pendingReconciliation
               && (r.actionDone <==> m.submitted != [] && AllFinal(m.submitted))
               && (r.actionDone <==> m.submitted != [] && !r.pendingReconciliation))
  {
    var start := CycleStarts(s, env);
    hide Cycle, Run, ScanAll, Sorted;
    RunHalts(s, env, start);
    var m := Cycle(s, env);
    if m.stage.ending == Uncertain {
      assert m.submitted[|m.submitted| - 1] in m.submitted;
      assert |m.submitted| > 1 ==> m.submitted[0] in m.submitted[..|m.submitted| - 1];
    }
    if m.stage.ending == Completed {
      DoneXorPending(m.submitted);
    }
    hide Statuses;
  }

  // ----- with the port's own replies -----

  /** Every answer of the broker is one the port gives, live or in a dry run. */
  ghost predicate FromPort(env: Env, live: bool) {
    forall requests: seq<Request> :: env.broker(requests).Report? ==> PortGiven(live, env.broker(requests).status)
  }

  ghost predicate PortGiven(live: bool, status: Status) {
    exists raw: RawReply :: status == ReadStatus(PortStatus(live, raw))
  }

  /** The port's statuses, read. */
  predicate Known(live: bool, status: Status) {
    if live then status == AsSubmitted || status == AsRejected || status == AsOther else status == AsPreviewed
  }

  predicate AllKnown(live: bool, xs: seq<Submission>) {
    forall x | x in xs :: Known(live, x.status)
  }

  lemma GivenKnown(live: bool, status: Status)
    requires PortGiven(live, status)
    ensures Known(live, status)
  {
    var raw :| status == ReadStatus(PortStatus(live, raw));
    hide ReadStatus, PortStatus;
    PortReads(live, raw);
  }

  lemma ApplyKnown(live: bool, m: Machine, c: Change)
    requires Fits(m, c) && AllKnown(live, m.submitted)
    requires c.Settle? && (c.outcome.OrderAccepted? || c.outcome.OrderUnknown?) ==> Known(live, c.outcome.status)
    ensures AllKnown(live, Apply(m, c).submitted)
  {
    hide Known;
  }

  lemma AnswerKnown(s: Setup, env: Env, m: Machine)
    requires Quoted(m) && Next(s, m) != Halt && FromPort(env, !s.dryRun)
    ensures var e := Answer(s, env, m);
      e.Answered? && e.reply.Report? ==> Known(!s.dryRun, e.reply.status)
  {
    hide PortGiven, Next, Known;
    var e := Answer(s, env, m);
    if e.Answered? && e.reply.Report? {
      GivenKnown(!s.dryRun, e.reply.status);
    }
  }

  lemma StepKnown(s: Setup, env: Env, m: Machine, e: Event)
    requires Quoted(m) && Next(s, m) != Halt && e == Answer(s, env, m)
    requires AllKnown(!s.dryRun, m.submitted)
    requires e.Answered? && e.reply.Report? ==> Known(!s.dryRun, e.reply.status)
    ensures AllKnown(!s.dryRun, After(s, m, e).submitted)
  {
    hide Next, Answer, Known, AllKnown;
    ApplyKnown(!s.dryRun, m, ChangeOf(s, m, e));
  }

  lemma {:induction false} RunKnown(s: Setup, env: Env, m: Machine)
    requires Quoted(m) && AllKnown(!s.dryRun, m.submitted) && FromPort(env, !s.dryRun)
    ensures AllKnown(!s.dryRun, Run(s, env, m).submitted)
    decreases Left(m)
  {
    RunUnfolds(s, env, m);
    hide *;
    if !m.stage.Ended? {
      var e := Answer(s, env, m);
      AnswerKnown(s, env, m);
      StepKnown(s, env, m, e);
      RunKnown(s, env, After(s, m, e));
    }
  }

  /**
   * With the replies the port gives: a live cycle that completes with an order is pending reconciliation and
   * never done, a dry run that completes with an order is done and never pending; and an unknown order can only
   * end a live cycle.
   */
  lemma PortCycle(s: Setup, env: Env)
    requires FromPort(env, !s.dryRun)
    ensures var m := Cycle(s, env);
      && (m.stage.ending == Completed && m.submitted != [] ==>
            var r := ResultOf(m).value;
            && (r.pendingReconciliation <==> !s.dryRun) && (r.submissionDone <==> !s.dryRun)
            && (r.actionDone <==> s.dryRun)
            && forall x | x in m.submitted :: x.status == if s.dryRun then AsPreviewed else AsSubmitted)
      && (m.stage.ending == Uncertain ==> !s.dryRun)
  {
    var start := CycleStarts(s, env);
    assert AllKnown(!s.dryRun, start.submitted);
    hide *;
    RunKnown(s, env, start);
    UnknownHalts(s, env);
    StatusesRead(!s.dryRun, Cycle(s, env).submitted);
  }

  lemma StatusesRead(live: bool, submitted: seq<Submission>)
    requires AllKnown(live, submitted)
    ensures AllAccepted(submitted) ==> forall x | x in submitted :: x.status == if live then AsSubmitted else AsPreviewed
    ensures submitted != [] && AllAccepted(submitted) ==> (SomeOpen(submitted) <==> live) && (AllFinal(submitted) <==> !live)
    ensures !live ==> forall x | x in submitted :: !Unknown(x.status)
  {
    if submitted != [] {
      assert submitted[0] in submitted;
    }
  }
}
