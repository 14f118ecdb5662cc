/**
 * Any number of run cycles against one object store and one broker, interleaved step by step. A step may fail,
 * a reply may be lost, a process may die at any point, and state and history objects may be overwritten at will.
 * A run of this world is a list of actions; an action that does not apply changes nothing, so every list is a run.
 */
module ClaimProtocol {
  import opened Broker
  import opened Planner
  import opened Accounting
  import opened StateKeys
  import opened StateStore
  import opened ExecutionService

  /** Before the orders a live cycle reads the latest state, then the claim. */
  datatype Phase = ReadsLatest | ReadsClaim(duplicate: bool) | Executes | Gone

  datatype Process = Process(run: RunId, s: Setup, persist: bool, phase: Phase, held: bool, m: Machine)

  /** A live request, and the index of the process that sent it. */
  datatype Sent = Sent(process: nat, request: Request)

  datatype World = World(objects: Objects, processes: seq<Process>, sent: seq<Sent>)

  datatype Action =
    | Launch(run: RunId, s: Setup, persist: bool, quote: Quote)
    | ReadLatest(i: nat)
    | ReadClaim(i: nat)
    | Think(i: nat, released: Cash)
    | Claim(i: nat, fault: CreateFault)
    | Send(i: nat, reply: Reply, dies: bool)
    | Crash(i: nat)
    | WriteState(run: RunId, dryRun: bool, doc: Doc)
    | WriteHistory(run: RunId, dryRun: bool, entry: string, doc: Doc)

  function Began(run: RunId, s: Setup, persist: bool, quote: Quote): Process {
    Process(run, s, persist, if persist && !s.dryRun then ReadsLatest else Executes, false, Start(s, ScanAll(s, quote)))
  }

  /** The process executes, and its planner wants the named kind of step. */
  predicate Wants(p: Process, asking: bool) {
    p.phase == Executes && Quoted(p.m) && (if asking then Next(p.s, p.m).Ask? else Next(p.s, p.m).Internal?)
  }

  predicate MayClaim(p: Process) {
    Wants(p, true) && !p.s.dryRun && !p.held
  }

  predicate MaySend(p: Process) {
    Wants(p, true) && (p.s.dryRun || p.held)
  }

  function Claimed(p: Process, answer: Admission): Process
    requires MayClaim(p)
  {
    match answer
    case Granted => p.(held := true)
    case Denied => p.(m := After(p.s, p.m, CallbackDenies))
    case Raises => p.(m := After(p.s, p.m, CallbackRaises))
  }

  function Delivered(p: Process, reply: Reply, dies: bool): Process
    requires MaySend(p)
  {
    p.(m := After(p.s, p.m, Answered(reply)), phase := if dies then Gone else Executes)
  }

  predicate Applies(w: World, action: Action) {
    match action
    case Launch(_, _, _, _) => true
    case WriteState(_, _, _) => true
    case WriteHistory(_, _, _, _) => true
    case ReadLatest(i) => i < |w.processes| && w.processes[i].phase == ReadsLatest
    case ReadClaim(i) => i < |w.processes| && w.processes[i].phase.ReadsClaim?
    case Think(i, _) => i < |w.processes| && Wants(w.processes[i], false)
    case Claim(i, _) => i < |w.processes| && MayClaim(w.processes[i])
    case Send(i, _, _) => i < |w.processes| && MaySend(w.processes[i])
    case Crash(i) => i < |w.processes|
  }

  function Changed(w: World, i: nat, p: Process): World
    requires i < |w.processes|
  {
    w.(processes := w.processes[i := p])
  }

  function Step(w: World, action: Action): World {
    if !Applies(w, action) then w
    else
      match action
      case Launch(run, s, persist, quote) => w.(processes := w.processes + [Began(run, s, persist, quote)])
      case ReadLatest(i) =>
        var p := w.processes[i];
        Changed(w, i, p.(phase := ReadsClaim(IsDuplicateRun(Lookup(w.objects, StateKey(p.run, false))))))
      case ReadClaim(i) =>
        var p := w.processes[i];
        var blocked := p.phase.duplicate || HasEffectiveClaim(Lookup(w.objects, ClaimKey(p.run)));
        Changed(w, i, p.(phase := if blocked then Gone else Executes))
      case Think(i, released) =>
        var p := w.processes[i];
        Changed(w, i, p.(m := After(p.s, p.m, Alone(released))))
      case Claim(i, fault) =>
        var p := w.processes[i];
        var key := ClaimKey(p.run);
        Changed(w, i, Claimed(p, FirstAnswer(p.persist, w.objects, key, fault)))
          .(objects := if p.persist then Created(w.objects, key, CLAIM_DOC, fault) else w.objects)
      case Send(i, reply, dies) =>
        var p := w.processes[i];
        Changed(w, i, Delivered(p, reply, dies))
          .(sent := if p.s.dryRun then w.sent else w.sent + [Sent(i, Next(p.s, p.m).request)])
      case Crash(i) => Changed(w, i, w.processes[i].(phase := Gone))
      case WriteState(run, dryRun, doc) => w.(objects := w.objects[StateKey(run, dryRun) := doc])
      case WriteHistory(run, dryRun, entry, doc) => w.(objects := w.objects[HistoryKey(run, dryRun, entry) := doc])
  }

  function Steps(w: World, actions: seq<Action>): World {
    if actions == [] then w else Step(Steps(w, actions[..|actions| - 1]), actions[|actions| - 1])
  }

  /** A store with anything in it, no process, nothing sent. */
  function Empty(objects: Objects): World {
    World(objects, [], [])
  }

  // ----- the invariant -----

  function SentBy(sent: seq<Sent>, i: nat): seq<Request> {
    if sent == [] then []
    else
      var before, last := SentBy(sent[..|sent| - 1], i), sent[|sent| - 1];
      if last.process == i then before + [last.request] else before
  }

  lemma SentByAppend(sent: seq<Sent>, x: Sent, i: nat)
    ensures SentBy(sent + [x], i) == if x.process == i then SentBy(sent, i) + [x.request] else SentBy(sent, i)
  {
    assert (sent + [x])[..|sent|] == sent;
  }

  ghost predicate OncePerSymbol(m: Machine) {
    Quoted(m) && forall x: string :: RequestsFit(m, x, 1)
  }

  /** A claim that is held was created by this world, and nothing replaced it. */
  predicate Owned(initial: Objects, objects: Objects, run: RunId) {
    var key := ClaimKey(run);
    key !in initial && key in objects && objects[key] == CLAIM_DOC
  }

  /** Process i holds its claim before it sends anything, and the broker saw exactly what its books say. */
  ghost predicate Fine(initial: Objects, w: World, i: nat)
    requires i < |w.processes|
  {
    var p := w.processes[i];
    && OncePerSymbol(p.m)
    && (p.held ==> !p.s.dryRun && Owned(initial, w.objects, p.run))
    && (!p.held && !p.s.dryRun ==> p.m.requests == [])
    && SentBy(w.sent, i) == if p.held then p.m.requests else []
  }

  /** Claims, once there, stay as they are. */
  ghost predicate ClaimsKept(before: Objects, after: Objects) {
    forall run: RunId | ClaimKey(run) in before :: ClaimKey(run) in after && after[ClaimKey(run)] == before[ClaimKey(run)]
  }

  predicate Exclusive(w: World) {
    forall i, j | 0 <= i < j < |w.processes| && w.processes[i].held && w.processes[j].held ::
      ClaimKey(w.processes[i].run) != ClaimKey(w.processes[j].run)
  }

  predicate Attributed(w: World) {
    forall k | 0 <= k < |w.sent| :: w.sent[k].process < |w.processes|
  }

  ghost predicate Inv(initial: Objects, w: World) {
    && (forall i | 0 <= i < |w.processes| :: Fine(initial, w, i))
    && ClaimsKept(initial, w.objects) && Exclusive(w) && Attributed(w)
  }

  // ----- one step keeps it -----

  lemma AfterOnce(s: Setup, m: Machine, e: Event)
    requires OncePerSymbol(m) && Enabled(s, m, e)
    ensures OncePerSymbol(After(s, m, e))
    ensures After(s, m, e).requests == if e.Answered? then m.requests + [Next(s, m).request] else m.requests
  {
    var c := ChangeOf(s, m, e);
    var n := After(s, m, e);
    forall x: string ensures RequestsFit(n, x, 1) {
      ApplyFits(m, c, x, 1);
    }
  }

  lemma StartOnce(s: Setup, quote: Quote)
    ensures OncePerSymbol(Start(s, ScanAll(s, quote)))
  {
    var m := Start(s, ScanAll(s, quote));
    ScanQuoted(s, quote, Ordering.Sorted(Universe(s)));
    forall x: string ensures RequestsFit(m, x, 1) {
      StartAccounts(s, quote, x, Notional("", 0.0));
    }
  }

  lemma {:induction false} NothingSent(sent: seq<Sent>, i: nat)
    requires forall k | 0 <= k < |sent| :: sent[k].process != i
    ensures SentBy(sent, i) == []
  {
    if sent != [] {
      NothingSent(sent[..|sent| - 1], i);
    }
  }

  lemma LaunchKeeps(initial: Objects, w: World, p: Process)
    requires Inv(initial, w) && !p.held && OncePerSymbol(p.m) && p.m.requests == []
    ensures Inv(initial, w.(processes := w.processes + [p]))
  {
    NothingSent(w.sent, |w.processes|);
    var n := w.(processes := w.processes + [p]);
    forall i | 0 <= i < |n.processes| ensures Fine(initial, n, i) {
      assert i < |w.processes| ==> Fine(initial, w, i);
    }
  }

  /** A step of process i that sends nothing live and leaves its claim alone. */
  lemma LocalKeeps(initial: Objects, w: World, i: nat, p: Process)
    requires Inv(initial, w) && i < |w.processes|
    requires var q := w.processes[i];
      && p.run == q.run && p.s == q.s && p.held == q.held && OncePerSymbol(p.m)
      && (p.m.requests == q.m.requests || p.s.dryRun)
    ensures Inv(initial, Changed(w, i, p))
  {
    var n := Changed(w, i, p);
    forall j | 0 <= j < |n.processes| ensures Fine(initial, n, j) {
      assert Fine(initial, w, j) && Fine(initial, w, i);
    }
  }

  lemma WriteKeeps(initial: Objects, w: World, objects: Objects)
    requires Inv(initial, w) && ClaimsKept(w.objects, objects)
    ensures Inv(initial, w.(objects := objects))
  {
    var n := w.(objects := objects);
    forall i | 0 <= i < |n.processes| ensures Fine(initial, n, i) {
      assert Fine(initial, w, i);
    }
  }

  lemma WritesSpareClaims(objects: Objects, run: RunId, dryRun: bool, entry: string, doc: Doc)
    ensures ClaimsKept(objects, objects[StateKey(run, dryRun) := doc])
    ensures ClaimsKept(objects, objects[HistoryKey(run, dryRun, entry) := doc])
  {
    forall claim: RunId
      ensures ClaimKey(claim) != StateKey(run, dryRun) && ClaimKey(claim) != HistoryKey(run, dryRun, entry)
    {
      ClaimsAreApart(claim, run, dryRun, entry);
    }
  }

  lemma ClaimKeeps(initial: Objects, w: World, i: nat, fault: CreateFault)
    requires Inv(initial, w) && i < |w.processes| && MayClaim(w.processes[i])
    ensures Inv(initial, Step(w, Claim(i, fault)))
    ensures ClaimsKept(w.objects, Step(w, Claim(i, fault)).objects)
  {
    var p := w.processes[i];
    assert Fine(initial, w, i);
    var key := ClaimKey(p.run);
    var objects := if p.persist then Created(w.objects, key, CLAIM_DOC, fault) else w.objects;
    var answer := FirstAnswer(p.persist, w.objects, key, fault);
    WriteKeeps(initial, w, objects);
    var middle := w.(objects := objects);
    if answer == Granted {
      GrantKeeps(initial, w, middle, i);
    } else {
      AfterOnce(p.s, p.m, if answer == Denied then CallbackDenies else CallbackRaises);
      LocalKeeps(initial, middle, i, Claimed(p, answer));
    }
  }

  /** The claim was absent, so nobody held it; now process i does. */
  lemma GrantKeeps(initial: Objects, w: World, n: World, i: nat)
    requires Inv(initial, w) && Inv(initial, n) && i < |w.processes|
    requires var p := w.processes[i];
      && n == w.(objects := w.objects[ClaimKey(p.run) := CLAIM_DOC])
      && ClaimKey(p.run) !in w.objects && !p.held && !p.s.dryRun
    ensures Inv(initial, Changed(n, i, w.processes[i].(held := true)))
  {
    var p := w.processes[i];
    var after := Changed(n, i, p.(held := true));
    forall j | 0 <= j < |after.processes| ensures Fine(initial, after, j) {
      assert Fine(initial, n, j);
    }
    forall j | 0 <= j < |w.processes| && w.processes[j].held ensures ClaimKey(w.processes[j].run) != ClaimKey(p.run) {
      assert Fine(initial, w, j);
    }
  }

  lemma SendKeeps(initial: Objects, w: World, i: nat, reply: Reply, dies: bool)
    requires Inv(initial, w) && i < |w.processes| && MaySend(w.processes[i])
    ensures Inv(initial, Step(w, Send(i, reply, dies)))
  {
    var p := w.processes[i];
    assert Fine(initial, w, i);
    AfterOnce(p.s, p.m, Answered(reply));
    var q := Delivered(p, reply, dies);
    if p.s.dryRun {
      LocalKeeps(initial, w, i, q);
    } else {
      var x := Sent(i, Next(p.s, p.m).request);
      SentKeeps(initial, w, i, q, x);
    }
  }

  lemma SentKeeps(initial: Objects, w: World, i: nat, q: Process, x: Sent)
    requires Inv(initial, w) && i < |w.processes|
    requires var p := w.processes[i];
      && q.run == p.run && q.s == p.s && q.held && p.held && OncePerSymbol(q.m)
      && x.process == i && q.m.requests == p.m.requests + [x.request]
    ensures Inv(initial, Changed(w, i, q).(sent := w.sent + [x]))
  {
    var n := Changed(w, i, q).(sent := w.sent + [x]);
    forall j | 0 <= j < |n.processes| ensures Fine(initial, n, j) {
      assert Fine(initial, w, j);
      SentByAppend(w.sent, x, j);
    }
  }

  lemma StepKeeps(initial: Objects, w: World, action: Action)
    requires Inv(initial, w)
    ensures Inv(initial, Step(w, action))
    ensures ClaimsKept(w.objects, Step(w, action).objects)
  {
    if Applies(w, action) {
      match action {
        case Launch(run, s, persist, quote) =>
          StartOnce(s, quote);
          LaunchKeeps(initial, w, Began(run, s, persist, quote));
        case WriteState(run, dryRun, doc) =>
          WritesSpareClaims(w.objects, run, dryRun, "", doc);
          WriteKeeps(initial, w, w.objects[StateKey(run, dryRun) := doc]);
        case WriteHistory(run, dryRun, entry, doc) =>
          WritesSpareClaims(w.objects, run, dryRun, entry, doc);
          WriteKeeps(initial, w, w.objects[HistoryKey(run, dryRun, entry) := doc]);
        case Claim(i, fault) => ClaimKeeps(initial, w, i, fault);
        case Send(i, reply, dies) => SendKeeps(initial, w, i, reply, dies);
        case Think(i, released) =>
          assert Fine(initial, w, i);
          AfterOnce(w.processes[i].s, w.processes[i].m, Alone(released));
          LocalKeeps(initial, w, i, Step(w, action).processes[i]);
        case ReadLatest(i) =>
          assert Fine(initial, w, i);
          LocalKeeps(initial, w, i, Step(w, action).processes[i]);
        case ReadClaim(i) =>
          assert Fine(initial, w, i);
          LocalKeeps(initial, w, i, Step(w, action).processes[i]);
        case Crash(i) =>
          assert Fine(initial, w, i);
          LocalKeeps(initial, w, i, Step(w, action).processes[i]);
      }
    }
  }

  lemma {:induction false} StepsKeep(objects: Objects, actions: seq<Action>)
    ensures Inv(objects, Steps(Empty(objects), actions))
  {
    if actions != [] {
      StepsKeep(objects, actions[..|actions| - 1]);
      StepKeeps(objects, Steps(Empty(objects), actions[..|actions| - 1]), actions[|actions| - 1]);
    }
  }

  // ----- what it means -----

  lemma {:induction false} SentOnce(sent: seq<Sent>, k: nat)
    requires k < |sent|
    ensures RequestsOf(SentBy(sent, sent[k].process), sent[k].request.symbol) >= 1
  {
    var init, last := sent[..|sent| - 1], sent[|sent| - 1];
    assert sent == init + [last];
    SentByAppend(init, last, sent[k].process);
    if last.process == sent[k].process {
      RequestsAppend(SentBy(init, sent[k].process), last.request, sent[k].request.symbol);
    }
    if k < |init| {
      SentOnce(init, k);
    }
  }

  lemma {:induction false} SentTwice(sent: seq<Sent>, k: nat, l: nat)
    requires k < l < |sent|
    requires sent[k].process == sent[l].process && sent[k].request.symbol == sent[l].request.symbol
    ensures RequestsOf(SentBy(sent, sent[k].process), sent[k].request.symbol) >= 2
  {
    var init, last := sent[..|sent| - 1], sent[|sent| - 1];
    assert sent == init + [last];
    SentByAppend(init, last, sent[k].process);
    if last.process == sent[k].process {
      RequestsAppend(SentBy(init, sent[k].process), last.request, sent[k].request.symbol);
    }
    if l < |init| {
      SentTwice(init, k, l);
    } else {
      SentOnce(init, k);
    }
  }

  /** The run a sent request belongs to. */
  function RunOf(w: World, k: nat): RunId
    requires Attributed(w) && k < |w.sent|
  {
    w.processes[w.sent[k].process].run
  }

  lemma SenderHolds(initial: Objects, w: World, k: nat)
    requires Inv(initial, w) && k < |w.sent|
    ensures w.processes[w.sent[k].process].held
    ensures Owned(initial, w.objects, RunOf(w, k))
  {
    SentOnce(w.sent, k);
    assert Fine(initial, w, w.sent[k].process);
  }

  lemma SymbolsDiffer(initial: Objects, w: World, k: nat, l: nat)
    requires Inv(initial, w) && k < l < |w.sent| && w.sent[k].process == w.sent[l].process
    ensures w.sent[k].request.symbol != w.sent[l].request.symbol
  {
    SenderHolds(initial, w, k);
    var i, x := w.sent[k].process, w.sent[k].request.symbol;
    assert Fine(initial, w, i) && RequestsFit(w.processes[i].m, x, 1);
    assert RequestsOf(SentBy(w.sent, i), x) <= 1;
    if w.sent[l].request.symbol == x {
      SentTwice(w.sent, k, l);
    }
  }

  /**
   * In every interleaving, with a crash, an exception or a lost reply at any step and any overwriting of state
   * objects, requests that belong to one account, profile and period come from one process, and no symbol is
   * requested twice among them. The claim was absent at the start and is there now, exactly as it was created.
   */
  lemma OneSenderPerRun(objects: Objects, actions: seq<Action>)
    ensures var w := Steps(Empty(objects), actions);
      && Attributed(w)
      && (forall k | 0 <= k < |w.sent| :: Owned(objects, w.objects, RunOf(w, k)))
      && (forall k, l | 0 <= k < l < |w.sent| && ClaimKey(RunOf(w, k)) == ClaimKey(RunOf(w, l)) ::
            && w.sent[k].process == w.sent[l].process
            && w.sent[k].request.symbol != w.sent[l].request.symbol)
  {
    var w := Steps(Empty(objects), actions);
    StepsKeep(objects, actions);
    forall k | 0 <= k < |w.sent| ensures Owned(objects, w.objects, RunOf(w, k)) {
      SenderHolds(objects, w, k);
    }
    forall k, l | 0 <= k < l < |w.sent| && ClaimKey(RunOf(w, k)) == ClaimKey(RunOf(w, l))
      ensures w.sent[k].process == w.sent[l].process && w.sent[k].request.symbol != w.sent[l].request.symbol
    {
      SenderHolds(objects, w, k);
      SenderHolds(objects, w, l);
      SymbolsDiffer(objects, w, k, l);
    }
  }

  /**
   * What a process can conclude from its own claim flag: without the claim it has sent nothing live, so it may
   * be retried; with it, the broker saw exactly the requests in its books. A run whose claim is absent from the
   * store has no request out at all.
   */
  lemma FlagTellsWhatWasSent(objects: Objects, actions: seq<Action>, i: nat, run: RunId)
    ensures var w := Steps(Empty(objects), actions);
      && (i < |w.processes| ==>
            SentBy(w.sent, i) == if w.processes[i].held then w.processes[i].m.requests else [])
      && Attributed(w)
      && (ClaimKey(run) !in w.objects || ClaimKey(run) in objects ==>
            forall k | 0 <= k < |w.sent| :: ClaimKey(RunOf(w, k)) != ClaimKey(run))
  {
    var w := Steps(Empty(objects), actions);
    StepsKeep(objects, actions);
    if i < |w.processes| {
      assert Fine(objects, w, i);
    }
    OneSenderPerRun(objects, actions);
  }

  // ----- a claim without a live holder blocks its run for good -----

  /** The claim is there, and no process that could still send holds it. */
  predicate Orphaned(w: World, key: string) {
    && key in w.objects
    && forall i | 0 <= i < |w.processes| && ClaimKey(w.processes[i].run) == key ::
         !w.processes[i].held || w.processes[i].phase == Gone
  }

  predicate NoneSentSince(w: World, n: World, key: string) {
    && w.sent <= n.sent
    && Attributed(n)
    && forall k | |w.sent| <= k < |n.sent| :: ClaimKey(RunOf(n, k)) != key
  }

  lemma OrphanStep(initial: Objects, w: World, n: World, action: Action, key: string, run: RunId)
    requires Inv(initial, n) && key == ClaimKey(run) && Orphaned(n, key) && NoneSentSince(w, n, key)
    ensures Orphaned(Step(n, action), key) && NoneSentSince(w, Step(n, action), key)
  {
    if Applies(n, action) {
      StepKeeps(initial, n, action);
      hide Inv, ClaimKey, Step;
      if action.Send? {
        OrphanSend(w, n, action.i, action.reply, action.dies, key);
      } else if action.Claim? {
        OrphanClaim(w, n, action.i, action.fault, key);
      } else {
        KeptAtKey(n, Step(n, action), run);
        OrphanQuiet(w, n, action, key);
      }
    }
  }

  lemma OrphanQuiet(w: World, n: World, action: Action, key: string)
    requires Orphaned(n, key) && NoneSentSince(w, n, key) && Applies(n, action)
    requires !action.Send? && !action.Claim? && key in Step(n, action).objects
    ensures Orphaned(Step(n, action), key) && NoneSentSince(w, Step(n, action), key)
  {
    hide ClaimKey, StateKey, HistoryKey, ScanAll, After;
    if action.Launch? || action.WriteState? || action.WriteHistory? {
      SameSent(w, n, Step(n, action), key);
    } else {
      OrphanLocal(w, n, Step(n, action), action.i, key);
    }
  }

  /** Process i did something, but did not come to hold the claim or come back to life. */
  lemma OrphanLocal(w: World, n: World, later: World, i: nat, key: string)
    requires Orphaned(n, key) && NoneSentSince(w, n, key) && key in later.objects && i < |n.processes|
    requires |later.processes| == |n.processes| && later.sent == n.sent
    requires later.processes == n.processes[i := later.processes[i]]
    requires var p, q := n.processes[i], later.processes[i];
      q.run == p.run && (ClaimKey(p.run) == key ==> q.held == p.held && (p.held && p.phase == Gone ==> q.phase == Gone))
    ensures Orphaned(later, key) && NoneSentSince(w, later, key)
  {
    hide ClaimKey;
    SameSent(w, n, later, key);
  }

  lemma OrphanClaim(w: World, n: World, i: nat, fault: CreateFault, key: string)
    requires Orphaned(n, key) && NoneSentSince(w, n, key) && i < |n.processes| && MayClaim(n.processes[i])
    ensures var later := Step(n, Claim(i, fault)); Orphaned(later, key) && NoneSentSince(w, later, key)
  {
    StillThere(n.processes[i].persist, n.objects, key, fault);
    hide ClaimKey, Quoted, Next, After;
    OrphanLocal(w, n, Step(n, Claim(i, fault)), i, key);
  }

  lemma SameSent(w: World, n: World, later: World, key: string)
    requires NoneSentSince(w, n, key) && later.sent == n.sent && |later.processes| >= |n.processes|
    requires forall i | 0 <= i < |n.processes| :: later.processes[i].run == n.processes[i].run
    ensures NoneSentSince(w, later, key)
  {
    hide ClaimKey;
    forall k | |w.sent| <= k < |later.sent| ensures ClaimKey(RunOf(later, k)) != key {
      assert RunOf(later, k) == RunOf(n, k);
    }
  }

  lemma OrphanSend(w: World, n: World, i: nat, reply: Reply, dies: bool, key: string)
    requires Orphaned(n, key) && NoneSentSince(w, n, key)
    requires i < |n.processes| && MaySend(n.processes[i])
    ensures var later := Step(n, Send(i, reply, dies)); Orphaned(later, key) && NoneSentSince(w, later, key)
  {
    hide ClaimKey, Quoted, Next, After;
    var later := Step(n, Send(i, reply, dies));
    forall k | |w.sent| <= k < |later.sent| ensures ClaimKey(RunOf(later, k)) != key {
      if k < |n.sent| {
        assert RunOf(later, k) == RunOf(n, k);
      }
    }
  }

  lemma StillThere(persist: bool, objects: Objects, key: string, fault: CreateFault)
    requires key in objects
    ensures FirstAnswer(persist, objects, key, fault) != Granted
  {
  }

  /**
   * A create whose reply was lost, a sender that died, or a claim left from before: once the claim is there and
   * nobody alive holds it, no later step of any process sends another order of that run, and the claim stays.
   */
  lemma {:induction false} OrphanedClaimBlocksForever(objects: Objects, actions: seq<Action>, more: seq<Action>, run: RunId)
    requires Orphaned(Steps(Empty(objects), actions), ClaimKey(run))
    ensures var w, n := Steps(Empty(objects), actions), Steps(Empty(objects), actions + more);
      && Orphaned(n, ClaimKey(run))
      && NoneSentSince(w, n, ClaimKey(run))
      && n.objects[ClaimKey(run)] == w.objects[ClaimKey(run)]
  {
    hide ClaimKey, Step, Inv, Orphaned, NoneSentSince, ClaimsKept;
    var w := Steps(Empty(objects), actions);
    if more == [] {
      assert actions + more == actions;
      StepsKeep(objects, actions);
      NothingYet(objects, w, ClaimKey(run));
    } else {
      var init, last := more[..|more| - 1], more[|more| - 1];
      assert (actions + more)[..|actions + more| - 1] == actions + init;
      var n := Steps(Empty(objects), actions + init);
      assert Steps(Empty(objects), actions + more) == Step(n, last);
      hide Steps;
      OrphanedClaimBlocksForever(objects, actions, init, run);
      StepsKeep(objects, actions + init);
      OrphanStep(objects, w, n, last, ClaimKey(run), run);
      StepKeeps(objects, n, last);
      KeptAtKey(n, Step(n, last), run);
    }
  }

  lemma NothingYet(initial: Objects, w: World, key: string)
    requires Inv(initial, w)
    ensures NoneSentSince(w, w, key)
  {
  }

  lemma KeptAtKey(n: World, later: World, run: RunId)
    requires Orphaned(n, ClaimKey(run)) && ClaimsKept(n.objects, later.objects)
    ensures ClaimKey(run) in later.objects && later.objects[ClaimKey(run)] == n.objects[ClaimKey(run)]
  {
  }

  /**
   * It happens: the create lands, and its reply is lost or comes from the client's own repetition of it. The run
   * ends without an order, as failed or as a duplicate, and stays blocked.
   */
  lemma LostReplyOrphans(w: World, i: nat, run: RunId, fault: CreateFault)
    requires i < |w.processes| && w.processes[i].run == run && MayClaim(w.processes[i]) && w.processes[i].persist
    requires ClaimKey(run) !in w.objects && (fault == Direct(ReplyLost) || fault == OwnRetry)
    requires forall j | 0 <= j < |w.processes| && ClaimKey(w.processes[j].run) == ClaimKey(run) :: !w.processes[j].held
    ensures var n := Step(w, Claim(i, fault));
      && Orphaned(n, ClaimKey(run)) && n.sent == w.sent
      && n.processes[i].m.stage == Ended(if fault == OwnRetry then ClaimRefused else Failed)
      && !n.processes[i].held
  {
    hide ClaimKey, Quoted, Next;
  }

  /**
   * A claim made at an older boundary does not stop a run at the duplicate check, and yet the run can send
   * nothing: the claim object has the same name, and the create never replaces it.
   */
  lemma OlderClaimStillRefuses(w: World, i: nat, fault: CreateFault)
    requires i < |w.processes| && w.processes[i].phase == ReadsClaim(false)
    requires var claim := Lookup(w.objects, ClaimKey(w.processes[i].run));
      claim.Some? && claim.value.boundary != PreBrokerRequestV2
    ensures var n := Step(w, ReadClaim(i));
      && n.processes[i].phase == Executes && n.objects == w.objects
      && (MayClaim(n.processes[i]) ==>
            var later := Step(n, Claim(i, fault));
            later.objects == w.objects && !later.processes[i].held && later.processes[i].m.stage.Ended?)
  {
    var n := Step(w, ReadClaim(i));
    var p := n.processes[i];
    var key := ClaimKey(p.run);
    StillThere(p.persist, n.objects, key, fault);
    hide ClaimKey, Quoted, Next, FirstAnswer, After, ScanAll;
    if MayClaim(p) {
      RequestsAfter(p.s, p.m, CallbackDenies);
      RequestsAfter(p.s, p.m, CallbackRaises);
    }
  }

  // ----- a cycle of the service is a run of this world -----

  lemma {:induction false} StepsFirst(w: World, action: Action, rest: seq<Action>)
    ensures Steps(w, [action] + rest) == Steps(Step(w, action), rest)
  {
    hide Step;
    if rest == [] {
      assert [action] + rest == [action];
      assert Steps(w, [action]) == Step(Steps(w, [action][..0]), action);
    } else {
      var init := rest[..|rest| - 1];
      StepsFirst(w, action, init);
      assert ([action] + rest)[..|[action] + rest| - 1] == [action] + init;
    }
  }

  /** In the fields of the stored objects: the latest live state is of a terminal stage. */
  predicate TerminalLive(objects: Objects, run: RunId) {
    var key := StateKey(run, false);
    key in objects && !objects[key].dryRun && objects[key].terminal
  }

  /** In the fields of the stored objects: the claim is of the current boundary. */
  predicate CurrentClaim(objects: Objects, run: RunId) {
    ClaimKey(run) in objects && objects[ClaimKey(run)].boundary == PreBrokerRequestV2
  }

  /**
   * The duplicate check, step by step: a cycle goes on to its orders exactly if the latest state was not a terminal
   * live one when it read that, and no current claim is there when it reads the claim, whatever happened in between.
   */
  lemma ChecksExactly(w: World, i: nat)
    requires i < |w.processes|
    ensures w.processes[i].phase == ReadsLatest ==>
              Step(w, ReadLatest(i)).processes[i].phase == ReadsClaim(TerminalLive(w.objects, w.processes[i].run))
    ensures w.processes[i].phase.ReadsClaim? ==>
              Step(w, ReadClaim(i)).processes[i].phase
              == if w.processes[i].phase.duplicate || CurrentClaim(w.objects, w.processes[i].run) then Gone else Executes
  {
    hide ClaimKey, StateKey;
  }

  lemma GoneStays(w: World, i: nat, action: Action)
    requires i < |w.processes| && w.processes[i].phase == Gone
    ensures var n := Step(w, action);
      && i < |n.processes| && n.processes[i] == w.processes[i]
      && SentBy(n.sent, i) == SentBy(w.sent, i)
  {
    hide ClaimKey, StateKey, HistoryKey, Quoted, Next, After, ScanAll, FirstAnswer;
    if action.Send? && Applies(w, action) && !w.processes[action.i].s.dryRun {
      SentByAppend(w.sent, Sent(action.i, Next(w.processes[action.i].s, w.processes[action.i].m).request), i);
    }
  }

  /** A cycle that the check has stopped, or that has died, never sends anything again. */
  lemma {:induction false} GoneForGood(w: World, i: nat, actions: seq<Action>)
    requires i < |w.processes| && w.processes[i].phase == Gone
    ensures var n := Steps(w, actions);
      i < |n.processes| && n.processes[i] == w.processes[i] && SentBy(n.sent, i) == SentBy(w.sent, i)
  {
    hide Step, SentBy;
    if actions != [] {
      GoneForGood(w, i, actions[..|actions| - 1]);
      GoneStays(Steps(w, actions[..|actions| - 1]), i, actions[|actions| - 1]);
    }
  }

  /** Process i is between two orders, and its claim flag agrees with what it has sent. */
  predicate Ready(w: World, i: nat) {
    i < |w.processes|
    && var p := w.processes[i];
       p.phase == Executes && Quoted(p.m) && (p.held <==> !p.s.dryRun && p.m.requests != [])
  }

  /** What the claim callback of process i would answer now. */
  function ClaimAnswer(w: World, i: nat, fault: CreateFault): Admission
    requires i < |w.processes|
  {
    var p := w.processes[i];
    FirstAnswer(p.persist, w.objects, ClaimKey(p.run), fault)
  }

  /** What process i does on one answer of the outside world. */
  ghost predicate Advanced(p: Process, n: World, i: nat, world: Env, held: bool)
    requires Quoted(p.m)
  {
    && i < |n.processes|
    && Next(p.s, p.m) != Halt
    && n.processes[i] == p.(m := After(p.s, p.m, Answer(p.s, world, p.m)), held := held)
  }

  lemma SoloThink(w: World, i: nat, world: Env) returns (action: Action)
    requires Ready(w, i) && Next(w.processes[i].s, w.processes[i].m).Internal?
    ensures var p, n := w.processes[i], Step(w, action);
      && Advanced(p, n, i, world, p.held) && n.objects == w.objects
      && n.processes[i].m.requests == p.m.requests
  {
    hide ClaimKey, After, ScanAll, Next, Quoted;
    var p := w.processes[i];
    action := Think(i, world.release(p.m.acceptedSells));
    RequestsAfter(p.s, p.m, Alone(world.release(p.m.acceptedSells)));
  }

  lemma SoloSend(w: World, i: nat, world: Env) returns (action: Action)
    requires i < |w.processes| && MaySend(w.processes[i])
    requires Admit(w.processes[i].s, world, |w.processes[i].m.requests|) == Granted
    ensures var p, n := w.processes[i], Step(w, action);
      && Advanced(p, n, i, world, p.held) && n.objects == w.objects
      && n.processes[i].m.requests != []
  {
    hide ClaimKey, After, ScanAll, Next, Quoted;
    var p := w.processes[i];
    var reply := world.broker(p.m.requests + [Next(p.s, p.m).request]);
    action := Send(i, reply, false);
    RequestsAfter(p.s, p.m, Answered(reply));
  }

  lemma SoloRefused(w: World, i: nat, world: Env, fault: CreateFault)
    requires i < |w.processes| && MayClaim(w.processes[i])
    requires var p := w.processes[i];
      && Admit(p.s, world, |p.m.requests|) == ClaimAnswer(w, i, fault)
      && ClaimAnswer(w, i, fault) != Granted
    ensures var p, n := w.processes[i], Step(w, Claim(i, fault));
      && Advanced(p, n, i, world, p.held)
      && n.processes[i].m.requests == p.m.requests && n.processes[i].m.stage.Ended?
  {
    hide ClaimKey, After, ScanAll, Next, Quoted, FirstAnswer;
    var p := w.processes[i];
    RequestsAfter(p.s, p.m, CallbackDenies);
    RequestsAfter(p.s, p.m, CallbackRaises);
  }

  /** One answer of the outside world, as one or two actions: claim if needed, then send. */
  lemma SoloStep(w: World, i: nat, env: Env, first: Admission, fault: CreateFault) returns (actions: seq<Action>)
    requires Ready(w, i) && !w.processes[i].m.stage.Ended? && Expected(w, i, first, fault)
    ensures var p, n := w.processes[i], Steps(w, actions);
      && Ready(n, i)
      && Advanced(p, n, i, WithClaim(env, first), n.processes[i].held)
      && Expected(n, i, first, fault)
  {
    var p := w.processes[i];
    var world := WithClaim(env, first);
    RunUnfolds(p.s, world, p.m);
    hide ClaimAnswer, Run, After, Step, ChangeOf, Apply, Left, Steps;
    if Next(p.s, p.m).Internal? {
      var think := SoloThink(w, i, world);
      actions := [think];
      StepsOne(w, think);
    } else if p.s.dryRun || p.held {
      var send := SoloSend(w, i, world);
      actions := [send];
      StepsOne(w, send);
    } else if first == Granted {
      var claimed := Step(w, Claim(i, fault));
      ClaimHeld(w, i, fault);
      var send := SoloSend(claimed, i, world);
      actions := [Claim(i, fault)] + [send];
      StepsFirst(w, Claim(i, fault), [send]);
      StepsOne(claimed, send);
    } else {
      SoloRefused(w, i, world, fault);
      actions := [Claim(i, fault)];
      StepsOne(w, Claim(i, fault));
    }
  }

  lemma StepsOne(w: World, action: Action)
    ensures Steps(w, [action]) == Step(w, action)
  {
    hide Step;
    assert [action][..0] == [];
    assert Steps(w, []) == w;
  }

  lemma ClaimHeld(w: World, i: nat, fault: CreateFault)
    requires i < |w.processes| && MayClaim(w.processes[i])
    requires ClaimAnswer(w, i, fault) == Granted
    ensures var n := Step(w, Claim(i, fault));
      i < |n.processes| && n.processes[i] == w.processes[i].(held := true) && MaySend(n.processes[i])
  {
    hide ClaimKey, FirstAnswer, Next, Quoted;
  }

  lemma RequestsAfter(s: Setup, m: Machine, e: Event)
    requires Quoted(m) && Enabled(s, m, e)
    ensures After(s, m, e).requests == if e.Answered? then m.requests + [Next(s, m).request] else m.requests
    ensures e == CallbackDenies || e == CallbackRaises ==> After(s, m, e).stage.Ended?
  {
  }

  lemma {:induction false} StepsJoin(w: World, some: seq<Action>, more: seq<Action>)
    ensures Steps(w, some + more) == Steps(Steps(w, some), more)
  {
    hide Step;
    if more == [] {
      assert some + more == some;
    } else {
      StepsJoin(w, some, more[..|more| - 1]);
      assert (some + more)[..|some + more| - 1] == some + more[..|more| - 1];
    }
  }

  /** The callback's first answer is still ahead or was a grant, as long as the process goes on. */
  predicate Expected(w: World, i: nat, first: Admission, fault: CreateFault)
    requires i < |w.processes|
  {
    w.processes[i].m.stage.Ended? || first == if w.processes[i].held then Granted else ClaimAnswer(w, i, fault)
  }

  lemma {:induction false} Solo(w: World, i: nat, env: Env, first: Admission, fault: CreateFault) returns (actions: seq<Action>)
    requires Ready(w, i) && Expected(w, i, first, fault)
    ensures var p, n := w.processes[i], Steps(w, actions);
      && Ready(n, i) && n.processes[i].run == p.run && n.processes[i].s == p.s
      && n.processes[i].m == Run(p.s, WithClaim(env, first), p.m)
    decreases Left(w.processes[i].m)
  {
    var p := w.processes[i];
    RunUnfolds(p.s, WithClaim(env, first), p.m);
    assert Steps(w, []) == w;
    hide *;
    actions := [];
    if !p.m.stage.Ended? {
      actions := SoloStep(w, i, env, first, fault);
      var n := Steps(w, actions);
      SoloNext(p, n, i, env, first);
      var rest := Solo(n, i, env, first, fault);
      StepsJoin(w, actions, rest);
      actions := actions + rest;
    }
  }

  lemma SoloNext(p: Process, n: World, i: nat, env: Env, first: Admission)
    requires Quoted(p.m) && !p.m.stage.Ended? && Ready(n, i)
    requires Advanced(p, n, i, WithClaim(env, first), n.processes[i].held)
    ensures var q := n.processes[i];
      && q.run == p.run && q.s == p.s && q.persist == p.persist && Quoted(q.m) && Left(q.m) < Left(p.m)
      && Run(p.s, WithClaim(env, first), p.m) == Run(p.s, WithClaim(env, first), q.m)
  {
    RunUnfolds(p.s, WithClaim(env, first), p.m);
  }

  /**
   * Whatever has happened so far, a new cycle that finds no terminal state and no effective claim can run to its
   * end exactly as `Cycle` says, with the callback answering what the store then holds. So everything proved
   * about this world holds of the cycles the service really runs.
   */
  lemma CyclesAreRuns(w: World, run: RunId, s: Setup, persist: bool, env: Env, fault: CreateFault) returns (actions: seq<Action>)
    requires persist && !s.dryRun ==>
               && !IsDuplicateRun(Lookup(w.objects, StateKey(run, false)))
               && !HasEffectiveClaim(Lookup(w.objects, ClaimKey(run)))
    ensures var n := Steps(w, actions);
      && |n.processes| > |w.processes|
      && var p := n.processes[|w.processes|];
         && p.run == run && p.s == s
         && p.m == Cycle(s, WithClaim(env, FirstAnswer(persist, w.objects, ClaimKey(run), fault)))
         && (p.held <==> !s.dryRun && p.m.requests != [])
  {
    var first := FirstAnswer(persist, w.objects, ClaimKey(run), fault);
    var m := CycleStarts(s, WithClaim(env, first));
    hide ClaimKey, StateKey, ScanAll, Run, Cycle, FirstAnswer;
    var i := |w.processes|;
    var launch := Launch(run, s, persist, env.quote);
    var opening := Step(w, launch);
    var begin := [launch];
    StepsFirst(w, launch, []);
    if persist && !s.dryRun {
      begin := [launch] + [ReadLatest(i), ReadClaim(i)];
      StepsFirst(w, launch, [ReadLatest(i), ReadClaim(i)]);
      StepsFirst(opening, ReadLatest(i), [ReadClaim(i)]);
      assert [ReadLatest(i)] + [ReadClaim(i)] == [ReadLatest(i), ReadClaim(i)];
      StepsFirst(Step(opening, ReadLatest(i)), ReadClaim(i), []);
    }
    var ready := Steps(w, begin);
    assert ready.objects == w.objects && ready.processes == w.processes + [Process(run, s, persist, Executes, false, m)];
    var rest := Solo(ready, i, env, first, fault);
    StepsJoin(w, begin, rest);
    actions := begin + rest;
  }
}
