/** Runs of the confirmation protocol: any number of workers, stalled, crashed or racing, on any clocks. */
module McpRuns {
  import opened Wrappers
  import opened McpCommands

  /** A confirm call between its transactions. It reads the clock once. */
  datatype Worker = Worker(principal: Principal, tool: string, command: CommandId, now: int, result: Option<Result<string, string>>)

  /** A change that was made, and the outcome its operation gave. */
  datatype Effect = Effect(command: CommandId, outcome: string)

  /** A final answer that a caller was given. */
  datatype Answer = Answer(command: CommandId, outcome: string)

  /** What a customer was shown when a confirmation was issued, and when that was. */
  datatype Ticket = Ticket(input: string, impact: string, at: int)

  /** `owners`, `applied`, `answers`, `claims` and `issued` record history; no transaction reads them. */
  datatype World = World(db: Commands, workers: map<nat, Worker>, owners: map<CommandId, (Principal, string)>,
                         applied: seq<Effect>, answers: seq<Answer>, claims: map<CommandId, nat>, issued: map<CommandId, Ticket>)

  datatype Step =
    | IssueStep(principal: Principal, tool: string, input: string, impact: string, now: int)
    | ClaimStep(worker: nat, principal: Principal, tool: string, command: CommandId, now: int)
    | RunStep(worker: nat, verdict: Result<string, string>)
    | FinishStep(worker: nat)
    | CrashStep(worker: nat)

  const START := World(Commands(map[], map[], 0), map[], map[], [], [], map[], map[])

  function Claims(x: World, c: CommandId): nat { if c in x.claims then x.claims[c] else 0 }

  function AfterClaim(x: World, w: nat, p: Principal, tool: string, c: CommandId, now: int): World {
    var (db, claim) := ClaimIntent(x.db, p, tool, c, now);
    match claim
    case Ok(Claimed(_, _)) =>
      x.(db := db, workers := x.workers[w := Worker(p, tool, c, now, None)], claims := x.claims[c := Claims(x, c) + 1])
    case Ok(Terminal(_, outcome)) => x.(db := db, answers := x.answers + [Answer(c, outcome)])
    case _ => x.(db := db)
  }

  function AfterRun(x: World, w: nat, verdict: Result<string, string>): World
    requires w in x.workers
  {
    var k := x.workers[w];
    var (db, result, made) := RunOperation(x.db, k.principal, k.tool, k.command, verdict, k.now);
    x.(db := db, workers := x.workers[w := k.(result := Some(result))],
       applied := if made then x.applied + [Effect(k.command, result.value)] else x.applied)
  }

  function AfterFinish(x: World, w: nat): World
    requires w in x.workers && x.workers[w].result.Some?
  {
    var k := x.workers[w];
    var (db, reply) := Finish(x.db, k.principal, k.tool, k.command, k.result.value, k.now);
    x.(db := db, workers := x.workers - {w},
       answers := if reply.Ok? then x.answers + [Answer(k.command, reply.value)] else x.answers)
  }

  function Apply(x: World, step: Step): World {
    match step
    case IssueStep(p, tool, input, impact, now) =>
      (match Issue(x.db, p, tool, input, impact, now)
       case Ok(done) => x.(db := done.0, owners := x.owners[done.1 := (p, tool)], issued := x.issued[done.1 := Ticket(input, impact, now)])
       case Err(_) => x)
    case ClaimStep(w, p, tool, c, now) => if w in x.workers then x else AfterClaim(x, w, p, tool, c, now)
    case RunStep(w, verdict) => if w in x.workers && x.workers[w].result.None? then AfterRun(x, w, verdict) else x
    case FinishStep(w) => if w in x.workers && x.workers[w].result.Some? then AfterFinish(x, w) else x
    case CrashStep(w) => x.(workers := x.workers - {w})
  }

  function Run(x: World, steps: seq<Step>): World {
    if steps == [] then x else Apply(Run(x, steps[..|steps| - 1]), steps[|steps| - 1])
  }

  /** Was a change made for the command? */
  predicate Made(x: World, c: CommandId) { exists i :: 0 <= i < |x.applied| && x.applied[i].command == c }

  predicate MadeWith(x: World, c: CommandId, outcome: string) { Effect(c, outcome) in x.applied }

  // ---- the invariant ----

  ghost predicate Owned(x: World, c: CommandId, p: Principal, tool: string) { c in x.owners && x.owners[c] == (p, tool) }

  ghost predicate IntentOk(x: World, c: CommandId)
    requires c in x.db.intents
  {
    var i := x.db.intents[c];
    && Owned(x, c, i.principal, i.tool)
    && (i.stage == Ready ==> Claims(x, c) == 0)
    && (i.stage == InProgress ==> Claims(x, c) > 0)
    && (i.stage == Succeeded ==> MadeWith(x, c, i.outcome))
  }

  ghost predicate WorkerOk(x: World, w: nat)
    requires w in x.workers
  {
    var k := x.workers[w];
    && Owned(x, k.command, k.principal, k.tool) && Claims(x, k.command) > 0
    && (k.command in x.db.intents ==> x.db.intents[k.command].stage != Ready)
    && (k.result.Some? && k.result.value.Ok? ==> MadeWith(x, k.command, k.result.value.value))
  }

  /** A receipt stands for a change that was made, with its outcome. */
  ghost predicate ReceiptOk(x: World, c: CommandId)
    requires c in x.db.receipts
  {
    var r := x.db.receipts[c];
    && c in x.owners && x.owners[c].0.workspace == r.workspace && Operation(x.owners[c].1) == r.operation
    && MadeWith(x, c, r.outcome)
  }

  /** Nothing is known, claimed or made under an id that was not issued. */
  ghost predicate IdsOk(x: World) {
    && (forall c :: c in x.owners ==> c < x.db.next)
    && (forall c :: c in x.claims ==> c < x.db.next)
    && (forall e :: e in x.applied ==> e.command < x.db.next)
    && (forall a :: a in x.answers ==> a.command < x.db.next)
  }

  ghost predicate Inv(x: World) {
    && IdsOk(x)
    && (forall c {:trigger IntentOk(x, c)} :: c in x.db.intents ==> IntentOk(x, c))
    && (forall w {:trigger WorkerOk(x, w)} :: w in x.workers ==> WorkerOk(x, w))
    && (forall c {:trigger ReceiptOk(x, c)} :: c in x.db.receipts ==> ReceiptOk(x, c))
  }

  /** History only grows. */
  ghost predicate Grows(x: World, y: World) {
    && x.db.next <= y.db.next
    && (forall c :: c in x.owners ==> c in y.owners && y.owners[c] == x.owners[c])
    && (forall c :: Claims(x, c) <= Claims(y, c))
    && x.applied <= y.applied && x.answers <= y.answers
  }

  lemma IssueKeeps(x: World, p: Principal, tool: string, input: string, impact: string, now: int)
    requires Inv(x) && Issue(x.db, p, tool, input, impact, now).Ok?
    ensures var y := Apply(x, IssueStep(p, tool, input, impact, now)); Inv(y) && Grows(x, y)
  {
    var y := Apply(x, IssueStep(p, tool, input, impact, now));
    forall c | c in y.db.intents
      ensures IntentOk(y, c)
    {
      if c != x.db.next { assert IntentOk(x, c); }
    }
    forall w | w in y.workers
      ensures WorkerOk(y, w)
    {
      assert WorkerOk(x, w);
    }
    forall c | c in y.db.receipts
      ensures ReceiptOk(y, c)
    {
      assert ReceiptOk(x, c);
    }
  }

  /** All that a claim can do: nothing, let the confirmation expire, or grant it. */
  ghost predicate ClaimMoves(x: World, y: World, w: nat, c: CommandId) {
    && y.owners == x.owners && y.applied == x.applied
    && y.db.intents.Keys == x.db.intents.Keys && (forall d :: d in x.db.intents && d != c ==> y.db.intents[d] == x.db.intents[d])
    && (forall d :: d != c ==> Claims(y, d) == Claims(x, d))
    && ((y.db.intents == x.db.intents && y.workers == x.workers && Claims(y, c) == Claims(x, c))
        || (c in x.db.intents && SameHolder(x.db.intents[c], y.db.intents[c]) && (Expires(x, y, c) || Grants(x, y, w, c))))
  }

  ghost predicate SameHolder(i: Intent, j: Intent) { j.principal == i.principal && j.tool == i.tool && !Final(i.stage) }

  ghost predicate Expires(x: World, y: World, c: CommandId)
    requires c in x.db.intents && c in y.db.intents
  {
    x.db.intents[c].stage == Ready && y.db.intents[c].stage == Failed && y.workers == x.workers && Claims(y, c) == Claims(x, c)
  }

  ghost predicate Grants(x: World, y: World, w: nat, c: CommandId)
    requires c in x.db.intents && c in y.db.intents
  {
    && y.db.intents[c].stage == InProgress && Claims(y, c) == Claims(x, c) + 1
    && w in y.workers && y.workers == x.workers[w := y.workers[w]] && y.workers[w].command == c && y.workers[w].result.None?
  }

  ghost predicate RowMoves(m: map<CommandId, Intent>, n: map<CommandId, Intent>, c: CommandId, granted: bool) {
    && n.Keys == m.Keys && (forall d :: d in m && d != c ==> n[d] == m[d])
    && if granted then c in m && SameHolder(m[c], n[c]) && n[c].stage == InProgress
       else n == m || (c in m && SameHolder(m[c], n[c]) && m[c].stage == Ready && n[c].stage == Failed)
  }

  lemma ClaimRow(s: Commands, p: Principal, tool: string, c: CommandId, now: int)
    ensures var (t, claim) := ClaimIntent(s, p, tool, c, now);
      RowMoves(s.intents, t.intents, c, claim.Ok? && claim.value.Claimed?)
  {
  }

  lemma ClaimChanges(x: World, w: nat, p: Principal, tool: string, c: CommandId, now: int)
    ensures ClaimMoves(x, AfterClaim(x, w, p, tool, c, now), w, c)
  {
    var (db, claim) := ClaimIntent(x.db, p, tool, c, now);
    var y := AfterClaim(x, w, p, tool, c, now);
    ClaimRow(x.db, p, tool, c, now);
    assert y.db == db && y.owners == x.owners && y.applied == x.applied;
    if claim.Ok? && claim.value.Claimed? {
      assert y.workers == x.workers[w := Worker(p, tool, c, now, None)] && y.claims == x.claims[c := Claims(x, c) + 1];
    } else {
      assert y.workers == x.workers && y.claims == x.claims;
    }
  }

  lemma ClaimIntents(x: World, w: nat, p: Principal, tool: string, c: CommandId, now: int, d: CommandId)
    requires Inv(x) && d in AfterClaim(x, w, p, tool, c, now).db.intents
    ensures IntentOk(AfterClaim(x, w, p, tool, c, now), d)
  {
    ClaimChanges(x, w, p, tool, c, now);
    ClaimedIntent(x, AfterClaim(x, w, p, tool, c, now), w, c, d);
  }

  lemma ClaimedIntent(x: World, y: World, w: nat, c: CommandId, d: CommandId)
    requires Inv(x) && ClaimMoves(x, y, w, c) && d in y.db.intents
    ensures IntentOk(y, d)
  {
    assert IntentOk(x, d);
  }

  lemma ClaimWorkers(x: World, w: nat, p: Principal, tool: string, c: CommandId, now: int, v: nat)
    requires Inv(x) && w !in x.workers && v in AfterClaim(x, w, p, tool, c, now).workers
    ensures WorkerOk(AfterClaim(x, w, p, tool, c, now), v)
  {
    if v in x.workers {
      assert WorkerOk(x, v);
    } else {
      assert IntentOk(x, c);
    }
  }

  lemma ClaimGrows(x: World, w: nat, p: Principal, tool: string, c: CommandId, now: int)
    requires Inv(x)
    ensures IdsOk(AfterClaim(x, w, p, tool, c, now)) && Grows(x, AfterClaim(x, w, p, tool, c, now))
    ensures AfterClaim(x, w, p, tool, c, now).db.receipts == x.db.receipts
    ensures AfterClaim(x, w, p, tool, c, now).applied == x.applied && AfterClaim(x, w, p, tool, c, now).owners == x.owners
  {
    if c in x.db.intents { assert IntentOk(x, c); }
  }

  lemma ClaimKeeps(x: World, w: nat, p: Principal, tool: string, c: CommandId, now: int)
    requires Inv(x) && w !in x.workers
    ensures Inv(AfterClaim(x, w, p, tool, c, now)) && Grows(x, AfterClaim(x, w, p, tool, c, now))
  {
    var y := AfterClaim(x, w, p, tool, c, now);
    ClaimGrows(x, w, p, tool, c, now);
    forall d | d in y.db.intents
      ensures IntentOk(y, d)
    {
      ClaimIntents(x, w, p, tool, c, now, d);
    }
    forall v | v in y.workers
      ensures WorkerOk(y, v)
    {
      ClaimWorkers(x, w, p, tool, c, now, v);
    }
    forall d | d in y.db.receipts
      ensures ReceiptOk(y, d)
    {
      assert ReceiptOk(x, d);
    }
  }

  lemma RunKeeps(x: World, w: nat, verdict: Result<string, string>)
    requires Inv(x) && w in x.workers && x.workers[w].result.None?
    ensures Inv(AfterRun(x, w, verdict)) && Grows(x, AfterRun(x, w, verdict))
  {
    var y := AfterRun(x, w, verdict);
    var k := x.workers[w];
    assert WorkerOk(x, w);
    if k.command in x.db.receipts { assert ReceiptOk(x, k.command); }
    assert forall e :: e in x.applied ==> e in y.applied;
    forall d | d in y.db.intents
      ensures IntentOk(y, d)
    {
      assert IntentOk(x, d);
    }
    forall v | v in y.workers
      ensures WorkerOk(y, v)
    {
      assert WorkerOk(x, v);
    }
    forall d | d in y.db.receipts
      ensures ReceiptOk(y, d)
    {
      if d in x.db.receipts { assert ReceiptOk(x, d); }
    }
  }

  lemma FinishKeeps(x: World, w: nat)
    requires Inv(x) && w in x.workers && x.workers[w].result.Some?
    ensures Inv(AfterFinish(x, w)) && Grows(x, AfterFinish(x, w))
  {
    var y := AfterFinish(x, w);
    assert WorkerOk(x, w);
    forall d | d in y.db.intents
      ensures IntentOk(y, d)
    {
      assert IntentOk(x, d);
    }
    forall v | v in y.workers
      ensures WorkerOk(y, v)
    {
      assert WorkerOk(x, v);
    }
    forall d | d in y.db.receipts
      ensures ReceiptOk(y, d)
    {
      assert ReceiptOk(x, d);
    }
  }

  lemma CrashKeeps(x: World, w: nat)
    requires Inv(x)
    ensures Inv(x.(workers := x.workers - {w}))
  {
    var y := x.(workers := x.workers - {w});
    forall d | d in y.db.intents
      ensures IntentOk(y, d)
    {
      assert IntentOk(x, d);
    }
    forall v | v in y.workers
      ensures WorkerOk(y, v)
    {
      assert WorkerOk(x, v);
    }
    forall d | d in y.db.receipts
      ensures ReceiptOk(y, d)
    {
      assert ReceiptOk(x, d);
    }
  }

  lemma StepKeeps(x: World, step: Step)
    requires Inv(x)
    ensures Inv(Apply(x, step)) && Grows(x, Apply(x, step))
  {
    match step
    case IssueStep(p, tool, input, impact, now) =>
      if Issue(x.db, p, tool, input, impact, now).Ok? { IssueKeeps(x, p, tool, input, impact, now); }
    case ClaimStep(w, p, tool, c, now) => if w !in x.workers { ClaimKeeps(x, w, p, tool, c, now); }
    case RunStep(w, verdict) => if w in x.workers && x.workers[w].result.None? { RunKeeps(x, w, verdict); }
    case FinishStep(w) => if w in x.workers && x.workers[w].result.Some? { FinishKeeps(x, w); }
    case CrashStep(w) => CrashKeeps(x, w);
  }

  lemma {:induction false} RunKeepsInv(x: World, steps: seq<Step>)
    requires Inv(x)
    ensures Inv(Run(x, steps)) && Grows(x, Run(x, steps))
  {
    if steps != [] {
      RunKeepsInv(x, steps[..|steps| - 1]);
      StepKeeps(Run(x, steps[..|steps| - 1]), steps[|steps| - 1]);
    }
  }

  // ---- a recorded success happened ----

  /** In every reachable state a success on record is the outcome of a change that was made. */
  lemma SuccessHappened(steps: seq<Step>, c: CommandId)
    ensures var x := Run(START, steps);
      c in x.db.intents && x.db.intents[c].stage == Succeeded ==> MadeWith(x, c, x.db.intents[c].outcome)
  {
    RunKeepsInv(START, steps);
    var x := Run(START, steps);
    assert c in x.db.intents ==> IntentOk(x, c);
  }

  // ---- what a claim hands out ----

  /** Every stored confirmation is the one that was shown. */
  ghost predicate Ticketed(m: map<CommandId, Intent>, issued: map<CommandId, Ticket>) {
    forall c :: c in m ==> c in issued && issued[c] == Ticket(m[c].input, m[c].impact, m[c].expires - CONFIRMATION_TTL_MS)
  }

  /** Rows may go, and keep what they were issued with. */
  ghost predicate Unaltered(m: map<CommandId, Intent>, n: map<CommandId, Intent>) {
    forall c :: c in n ==> c in m && n[c].input == m[c].input && n[c].impact == m[c].impact && n[c].expires == m[c].expires
  }

  lemma ClaimUnaltered(s: Commands, p: Principal, tool: string, c: CommandId, now: int)
    ensures Unaltered(s.intents, ClaimIntent(s, p, tool, c, now).0.intents)
  {
  }

  lemma CompleteUnaltered(s: Commands, p: Principal, tool: string, c: CommandId, stage: Stage, outcome: string, code: string, now: int)
    requires Final(stage)
    ensures Unaltered(s.intents, Complete(s, p, tool, c, stage, outcome, code, now).0.intents)
  {
  }

  lemma FinishUnaltered(s: Commands, p: Principal, tool: string, c: CommandId, result: Result<string, string>, now: int)
    ensures Unaltered(s.intents, Finish(s, p, tool, c, result, now).0.intents)
  {
    match result
    case Err(code) => CompleteUnaltered(s, p, tool, c, Failed, FailureOutcome(code), code, now);
    case Ok(outcome) =>
      CompleteUnaltered(s, p, tool, c, Succeeded, outcome, "", now);
      var (t, r) := Complete(s, p, tool, c, Succeeded, outcome, "", now);
      if r.Err? { CompleteUnaltered(t, p, tool, c, Failed, FailureOutcome(ErrorCode(r.error)), ErrorCode(r.error), now); }
  }

  lemma StepTicketed(x: World, step: Step)
    requires Ticketed(x.db.intents, x.issued)
    ensures Ticketed(Apply(x, step).db.intents, Apply(x, step).issued)
  {
    match step
    case IssueStep(p, tool, input, impact, now) =>
    case ClaimStep(w, p, tool, c, now) => ClaimUnaltered(x.db, p, tool, c, now);
    case RunStep(w, verdict) =>
    case FinishStep(w) =>
      if w in x.workers && x.workers[w].result.Some? {
        var k := x.workers[w];
        FinishUnaltered(x.db, k.principal, k.tool, k.command, k.result.value, k.now);
      }
    case CrashStep(w) =>
  }

  lemma {:induction false} RunTicketed(steps: seq<Step>)
    ensures Ticketed(Run(START, steps).db.intents, Run(START, steps).issued)
  {
    if steps != [] {
      RunTicketed(steps[..|steps| - 1]);
      StepTicketed(Run(START, steps[..|steps| - 1]), steps[|steps| - 1]);
    }
  }

  /** In every reachable state, a worker that is granted a command gets exactly the input and the impact that
      were shown when it was issued, to the caller and tool it was issued for; and the first worker that is
      granted it comes within five minutes of the issue. */
  lemma ClaimGivesWhatWasIssued(steps: seq<Step>, p: Principal, tool: string, c: CommandId, now: int)
    ensures var x := Run(START, steps); var claim := ClaimIntent(x.db, p, tool, c, now).1;
      claim.Ok? && claim.value.Claimed? ==>
        && c in x.issued && claim.value.input == x.issued[c].input && claim.value.impact == x.issued[c].impact
        && c in x.owners && x.owners[c] == (p, tool)
        && (Claims(x, c) == 0 ==> now < x.issued[c].at + 300_000)
  {
    RunKeepsInv(START, steps);
    RunTicketed(steps);
    var x := Run(START, steps);
    if c in x.db.intents { assert IntentOk(x, c); }
  }

  /** While a lease runs, its command is held, finished or purged. */
  predicate Taken(x: World, c: CommandId, until: int) {
    c < x.db.next
    && (c in x.db.intents ==> Final(x.db.intents[c].stage) || (x.db.intents[c].stage == InProgress && x.db.intents[c].lease == until))
  }

  predicate ClaimsBefore(step: Step, until: int) { step.ClaimStep? ==> step.now < until }

  lemma TakenStep(x: World, step: Step, c: CommandId, until: int)
    requires Taken(x, c, until) && ClaimsBefore(step, until)
    ensures Taken(Apply(x, step), c, until) && Claims(Apply(x, step), c) == Claims(x, c)
  {
    match step
    case IssueStep(p, tool, input, impact, now) =>
    case ClaimStep(w, p, tool, d, now) => TakenClaim(x, w, p, tool, d, now, c, until);
    case RunStep(w, verdict) =>
    case FinishStep(w) =>
    case CrashStep(w) =>
  }

  lemma TakenClaim(x: World, w: nat, p: Principal, tool: string, d: CommandId, now: int, c: CommandId, until: int)
    requires Taken(x, c, until) && now < until
    ensures Taken(AfterClaim(x, w, p, tool, d, now), c, until) && Claims(AfterClaim(x, w, p, tool, d, now), c) == Claims(x, c)
  {
  }

  /** Nobody else is granted a command before the lease of the worker that was granted it is over. */
  lemma {:induction false} LeaseExcludes(x: World, w: nat, p: Principal, tool: string, c: CommandId, now: int, steps: seq<Step>)
    requires c < x.db.next && w !in x.workers && w in AfterClaim(x, w, p, tool, c, now).workers
    requires forall i :: 0 <= i < |steps| ==> ClaimsBefore(steps[i], now + 60_000)
    ensures var y := AfterClaim(x, w, p, tool, c, now);
      Taken(Run(y, steps), c, now + 60_000) && Claims(Run(y, steps), c) == Claims(y, c)
  {
    if steps != [] {
      LeaseExcludes(x, w, p, tool, c, now, steps[..|steps| - 1]);
      TakenStep(Run(AfterClaim(x, w, p, tool, c, now), steps[..|steps| - 1]), steps[|steps| - 1], c, now + 60_000);
    }
  }

  // ---- terminal states ----

  /** Final with this outcome, or already purged. */
  predicate SettledAs(x: World, c: CommandId, outcome: string) {
    c in x.db.intents ==> Final(x.db.intents[c].stage) && x.db.intents[c].outcome == outcome
  }

  /** A final record is kept as it is or purged, and its id is not issued again. */
  ghost predicate Settled(x: World, y: World, c: CommandId) {
    c in y.db.intents ==> c in x.db.intents && y.db.intents[c] == x.db.intents[c]
  }

  lemma SettledClaim(x: World, w: nat, p: Principal, tool: string, d: CommandId, now: int, c: CommandId)
    requires c in x.db.intents ==> Final(x.db.intents[c].stage)
    ensures Settled(x, AfterClaim(x, w, p, tool, d, now), c)
  {
  }

  lemma SettledFinish(x: World, w: nat, c: CommandId)
    requires w in x.workers && x.workers[w].result.Some? && (c in x.db.intents ==> Final(x.db.intents[c].stage))
    ensures Settled(x, AfterFinish(x, w), c)
  {
  }

  lemma SettledIssue(x: World, p: Principal, tool: string, input: string, impact: string, now: int, c: CommandId)
    requires c < x.db.next
    ensures Settled(x, Apply(x, IssueStep(p, tool, input, impact, now)), c)
  {
  }

  lemma SettledStep(x: World, step: Step, c: CommandId)
    requires c < x.db.next && (c in x.db.intents ==> Final(x.db.intents[c].stage))
    ensures c < Apply(x, step).db.next && Settled(x, Apply(x, step), c)
  {
    match step
    case IssueStep(p, tool, input, impact, now) => SettledIssue(x, p, tool, input, impact, now, c);
    case ClaimStep(w, p, tool, d, now) => if w !in x.workers { SettledClaim(x, w, p, tool, d, now, c); }
    case RunStep(w, verdict) =>
    case FinishStep(w) => if w in x.workers && x.workers[w].result.Some? { SettledFinish(x, w, c); }
    case CrashStep(w) =>
  }

  /** Success and failure are absorbing: whatever runs later, the command keeps its stage and outcome
      until it is purged, and everyone who claims it is told that outcome. */
  lemma {:induction false} TerminalStays(x: World, steps: seq<Step>, c: CommandId)
    requires c in x.db.intents && c < x.db.next && Final(x.db.intents[c].stage)
    ensures var y := Run(x, steps); c in y.db.intents ==>
      y.db.intents[c].stage == x.db.intents[c].stage && y.db.intents[c].outcome == x.db.intents[c].outcome
    ensures var y := Run(x, steps);
      c < y.db.next && SettledAs(y, c, x.db.intents[c].outcome)
  {
    if steps != [] {
      TerminalStays(x, steps[..|steps| - 1], c);
      SettledStep(Run(x, steps[..|steps| - 1]), steps[|steps| - 1], c);
    }
  }

  lemma LaterCallersAgree(x: World, steps: seq<Step>, c: CommandId, p: Principal, tool: string, now: int)
    requires c in x.db.intents && c < x.db.next && Final(x.db.intents[c].stage)
    ensures var (db, claim) := ClaimIntent(Run(x, steps).db, p, tool, c, now);
      db == Run(x, steps).db
      && (claim.Ok? ==> claim == Ok(Terminal(x.db.intents[c].stage, x.db.intents[c].outcome)))
  {
    TerminalStays(x, steps, c);
  }

  /** The answers to one command agree, and match the record while there is one. */
  ghost predicate AnswersAgree(x: World) {
    && (forall a :: a in x.answers ==> a.command < x.db.next && SettledAs(x, a.command, a.outcome))
    && (forall a, b :: a in x.answers && b in x.answers && a.command == b.command ==> a.outcome == b.outcome)
  }

  /** At most one answer is added, and it is the one on record. */
  ghost predicate Answered(x: World, y: World) {
    || y.answers == x.answers
    || (exists a :: y.answers == x.answers + [a] && a.command in x.db.intents && a.command in y.db.intents
          && SettledAs(y, a.command, a.outcome)
          && (Final(x.db.intents[a.command].stage) ==> x.db.intents[a.command].outcome == a.outcome))
  }

  lemma ClaimAnswers(x: World, w: nat, p: Principal, tool: string, c: CommandId, now: int)
    ensures Answered(x, AfterClaim(x, w, p, tool, c, now))
  {
    var (db, claim) := ClaimIntent(x.db, p, tool, c, now);
    var y := AfterClaim(x, w, p, tool, c, now);
    if claim.Ok? && claim.value.Terminal? {
      var a := Answer(c, claim.value.outcome);
      assert y.answers == x.answers + [a] && SettledAs(y, c, a.outcome);
    }
  }

  lemma FinishAnswers(x: World, w: nat)
    requires w in x.workers && x.workers[w].result.Some?
    ensures Answered(x, AfterFinish(x, w))
  {
    var y := AfterFinish(x, w);
    if y.answers != x.answers {
      var a := y.answers[|x.answers|];
      assert y.answers == x.answers + [a];
    }
  }

  lemma NewAnswer(x: World, step: Step)
    ensures Answered(x, Apply(x, step))
  {
    match step
    case ClaimStep(w, p, tool, c, now) => ClaimAnswers(x, w, p, tool, c, now);
    case FinishStep(w) => if w in x.workers && x.workers[w].result.Some? { FinishAnswers(x, w); }
    case _ =>
  }

  lemma AnswersStep(x: World, step: Step)
    requires Inv(x) && AnswersAgree(x)
    ensures AnswersAgree(Apply(x, step))
  {
    var y := Apply(x, step);
    NewAnswer(x, step);
    forall a | a in x.answers
      ensures a.command < y.db.next && SettledAs(y, a.command, a.outcome)
    {
      SettledStep(x, step, a.command);
    }
    StepKeeps(x, step);
  }

  /** Over any run, every caller who gets a final answer for a command gets the same one. */
  lemma {:induction false} EveryAnswerAgrees(steps: seq<Step>)
    ensures AnswersAgree(Run(START, steps))
  {
    if steps != [] {
      EveryAnswerAgrees(steps[..|steps| - 1]);
      RunKeepsInv(START, steps[..|steps| - 1]);
      AnswersStep(Run(START, steps[..|steps| - 1]), steps[|steps| - 1]);
    }
  }

  // ---- at most once ----

  /** All clocks read between `from` and `span` later. */
  predicate InWindow(step: Step, from: int, span: int) {
    match step
    case IssueStep(_, _, _, _, now) => from <= now <= from + span
    case ClaimStep(_, _, _, _, now) => from <= now <= from + span
    case _ => true
  }

  ghost predicate Window(steps: seq<Step>, from: int, span: int) {
    forall i :: 0 <= i < |steps| ==> InWindow(steps[i], from, span)
  }

  /** No command's change is made twice. */
  ghost predicate Once(x: World) {
    forall i, j :: 0 <= i < j < |x.applied| ==> x.applied[i].command != x.applied[j].command
  }

  /** Every change has its receipt, and no command has two. */
  ghost predicate Receipted(x: World, from: int) {
    && (forall w :: w in x.workers ==> x.workers[w].now >= from)
    && (forall c :: c in x.db.receipts ==> x.db.receipts[c].created >= from)
    && (forall e :: e in x.applied ==> e.command in x.db.receipts)
    && Once(x)
  }

  lemma ReceiptFound(x: World, w: nat)
    requires Inv(x) && w in x.workers && x.workers[w].command in x.db.receipts
    ensures GetReceipt(x.db, x.workers[w].principal.workspace, Operation(x.workers[w].tool), x.workers[w].command)
      == Some(x.db.receipts[x.workers[w].command].outcome)
  {
    assert WorkerOk(x, w) && ReceiptOk(x, x.workers[w].command);
  }

  lemma ReceiptedIssue(x: World, p: Principal, tool: string, input: string, impact: string, now: int, from: int)
    requires Receipted(x, from) && now <= from + RETENTION_MS && Issue(x.db, p, tool, input, impact, now).Ok?
    ensures Receipted(Apply(x, IssueStep(p, tool, input, impact, now)), from)
  {
  }

  lemma ReceiptedRun(x: World, w: nat, verdict: Result<string, string>, from: int)
    requires Inv(x) && Receipted(x, from) && w in x.workers && x.workers[w].result.None?
    ensures Receipted(AfterRun(x, w, verdict), from)
  {
    var y, c := AfterRun(x, w, verdict), x.workers[w].command;
    if c in x.db.receipts {
      ReceiptFound(x, w);
    } else {
      forall e | e in y.applied
        ensures e.command in y.db.receipts
      {
      }
    }
  }

  lemma ReceiptedClaim(x: World, w: nat, p: Principal, tool: string, c: CommandId, now: int, from: int)
    requires Receipted(x, from) && now >= from
    ensures Receipted(AfterClaim(x, w, p, tool, c, now), from)
  {
  }

  lemma ReceiptedStep(x: World, step: Step, from: int)
    requires Inv(x) && Receipted(x, from) && InWindow(step, from, RETENTION_MS)
    ensures Receipted(Apply(x, step), from)
  {
    match step
    case IssueStep(p, tool, input, impact, now) =>
      if Issue(x.db, p, tool, input, impact, now).Ok? { ReceiptedIssue(x, p, tool, input, impact, now, from); }
    case ClaimStep(w, p, tool, c, now) => if w !in x.workers { ReceiptedClaim(x, w, p, tool, c, now, from); }
    case RunStep(w, verdict) => if w in x.workers && x.workers[w].result.None? { ReceiptedRun(x, w, verdict, from); }
    case FinishStep(w) =>
    case CrashStep(w) =>
  }

  /** Within one retention period a command's change is made at most once, however many workers confirm
      it, stall, crash, reclaim it or race. */
  lemma {:induction false} AppliedAtMostOnce(steps: seq<Step>, from: int)
    requires Window(steps, from, RETENTION_MS)
    ensures Receipted(Run(START, steps), from) && Once(Run(START, steps))
  {
    if steps != [] {
      AppliedAtMostOnce(steps[..|steps| - 1], from);
      RunKeepsInv(START, steps[..|steps| - 1]);
      ReceiptedStep(Run(START, steps[..|steps| - 1]), steps[|steps| - 1], from);
    }
  }

  // ---- what a recorded failure means ----

  predicate Holds(x: World, w: nat, c: CommandId) { w in x.workers && x.workers[w].command == c }

  /** While a command has been claimed at most once: one worker at most, which has not run the operation
      unless it knows that it succeeded; and no failure on record after a change. */
  ghost predicate Single(x: World, c: CommandId) {
    && (forall v, w :: Holds(x, v, c) && Holds(x, w, c) ==> v == w)
    && (forall w :: Holds(x, w, c) ==>
      && (c in x.db.intents ==> x.db.intents[c].stage == InProgress)
      && (Made(x, c) ==> x.workers[w].result.Some? && x.workers[w].result.value.Ok?))
    && (c in x.db.intents && x.db.intents[c].stage == Failed ==> !Made(x, c))
    && (Claims(x, c) == 0 ==> !Made(x, c))
  }

  ghost predicate SingleOk(x: World) {
    forall c {:trigger Single(x, c)} :: Claims(x, c) <= 1 ==> Single(x, c)
  }

  /** Nothing that Single looks at got worse for d: no new holder, same record, nothing new made. */
  lemma SingleFrame(x: World, y: World, d: CommandId)
    requires Single(x, d) && Claims(y, d) == Claims(x, d) && (Made(y, d) ==> Made(x, d))
    requires forall w :: w in y.workers && y.workers[w].command == d ==> w in x.workers && x.workers[w] == y.workers[w]
    requires d in y.db.intents ==> d in x.db.intents && y.db.intents[d].stage == x.db.intents[d].stage
    ensures Single(y, d)
  {
    forall v
      ensures Holds(y, v, d) ==> Holds(x, v, d)
    {
    }
  }

  lemma SingleClaim(x: World, w: nat, p: Principal, tool: string, c: CommandId, now: int, d: CommandId)
    requires Inv(x) && SingleOk(x) && w !in x.workers
    requires Claims(AfterClaim(x, w, p, tool, c, now), d) <= 1
    ensures Single(AfterClaim(x, w, p, tool, c, now), d)
  {
    ClaimChanges(x, w, p, tool, c, now);
    SingleMoved(x, AfterClaim(x, w, p, tool, c, now), w, c, d);
  }

  lemma SingleMoved(x: World, y: World, w: nat, c: CommandId, d: CommandId)
    requires Inv(x) && SingleOk(x) && w !in x.workers && ClaimMoves(x, y, w, c) && Claims(y, d) <= 1
    ensures Single(y, d)
  {
    assert Single(x, d);
    if c in x.db.intents { assert IntentOk(x, c); }
    forall v | Holds(x, v, c)
      ensures Claims(x, c) > 0
    {
      assert WorkerOk(x, v);
    }
    if d == c && y.workers != x.workers {
      forall v
        ensures Holds(y, v, c) ==> v == w
      {
        assert Holds(y, v, c) ==> v == w || Holds(x, v, c);
      }
    } else if d == c && Claims(x, c) == 0 {
      forall v
        ensures !Holds(y, v, c)
      {
        assert Holds(y, v, c) ==> Holds(x, v, c);
      }
    } else {
      SingleFrame(x, y, d);
    }
  }

  lemma SingleRun(x: World, w: nat, verdict: Result<string, string>, d: CommandId)
    requires Inv(x) && SingleOk(x) && w in x.workers && x.workers[w].result.None? && Claims(x, d) <= 1
    ensures Single(AfterRun(x, w, verdict), d)
  {
    var y := AfterRun(x, w, verdict);
    var c := x.workers[w].command;
    assert Single(x, d) && WorkerOk(x, w) && Holds(x, w, c);
    if d == c {
      assert c in x.db.receipts ==> ReceiptOk(x, c);
      forall v
        ensures Holds(y, v, c) ==> v == w
      {
        assert Holds(y, v, c) ==> Holds(x, v, c);
      }
    } else {
      SingleFrame(x, y, d);
    }
  }

  lemma SingleFinish(x: World, w: nat, d: CommandId)
    requires Inv(x) && SingleOk(x) && w in x.workers && x.workers[w].result.Some? && Claims(x, d) <= 1
    ensures Single(AfterFinish(x, w), d)
  {
    var y := AfterFinish(x, w);
    var c := x.workers[w].command;
    assert Single(x, d) && WorkerOk(x, w) && Holds(x, w, c);
    if d == c {
      forall v
        ensures !Holds(y, v, c)
      {
        assert Holds(y, v, c) ==> Holds(x, v, c) && v != w;
      }
    } else {
      SingleFrame(x, y, d);
    }
  }

  lemma SingleIssue(x: World, p: Principal, tool: string, input: string, impact: string, now: int, d: CommandId)
    requires Inv(x) && SingleOk(x) && Claims(x, d) <= 1
    ensures Single(Apply(x, IssueStep(p, tool, input, impact, now)), d)
  {
    var y := Apply(x, IssueStep(p, tool, input, impact, now));
    assert Single(x, d);
    if d == x.db.next {
      forall v
        ensures !Holds(y, v, d)
      {
        assert v in x.workers ==> WorkerOk(x, v);
      }
    } else {
      SingleFrame(x, y, d);
    }
  }

  lemma SingleStep(x: World, step: Step, d: CommandId)
    requires Inv(x) && SingleOk(x) && Claims(Apply(x, step), d) <= 1
    ensures Single(Apply(x, step), d)
  {
    StepKeeps(x, step);
    assert Single(x, d);
    match step
    case IssueStep(p, tool, input, impact, now) => SingleIssue(x, p, tool, input, impact, now, d);
    case ClaimStep(w, p, tool, c, now) => if w !in x.workers { SingleClaim(x, w, p, tool, c, now, d); }
    case RunStep(w, verdict) => if w in x.workers && x.workers[w].result.None? { SingleRun(x, w, verdict, d); }
    case FinishStep(w) => if w in x.workers && x.workers[w].result.Some? { SingleFinish(x, w, d); }
    case CrashStep(w) => SingleFrame(x, x.(workers := x.workers - {w}), d);
  }

  lemma {:induction false} RunKeepsSingle(steps: seq<Step>)
    ensures SingleOk(Run(START, steps))
  {
    if steps != [] {
      var x := Run(START, steps[..|steps| - 1]);
      RunKeepsInv(START, steps[..|steps| - 1]);
      RunKeepsSingle(steps[..|steps| - 1]);
      forall d | Claims(Run(START, steps), d) <= 1
        ensures Single(Run(START, steps), d)
      {
        SingleStep(x, steps[|steps| - 1], d);
      }
    }
  }

  /** Everyone is told that the command failed, it was carried out, and it was claimed n times. */
  predicate HidesAChange(x: World, c: CommandId, n: nat) {
    c in x.db.intents && x.db.intents[c].stage == Failed && Made(x, c) && Claims(x, c) == n
  }

  lemma ClaimedOnceHidesNothing(steps: seq<Step>, c: CommandId, n: nat)
    requires n <= 1
    ensures !HidesAChange(Run(START, steps), c, n)
  {
    RunKeepsSingle(steps);
    assert Claims(Run(START, steps), c) <= 1 ==> Single(Run(START, steps), c);
  }

  /** The receipt that a reader finds for a command says whether its change was made. */
  ghost predicate ReceiptTells(x: World) {
    forall c :: c in x.db.intents ==>
      (Made(x, c) <==> GetReceipt(x.db, x.db.intents[c].principal.workspace, Operation(x.db.intents[c].tool), c).Some?)
  }

  lemma ReceiptsTellWithinRetention(steps: seq<Step>, from: int)
    requires Window(steps, from, RETENTION_MS)
    ensures ReceiptTells(Run(START, steps))
  {
    var x := Run(START, steps);
    AppliedAtMostOnce(steps, from);
    RunKeepsInv(START, steps);
    forall c | c in x.db.intents
      ensures Made(x, c) <==> GetReceipt(x.db, x.db.intents[c].principal.workspace, Operation(x.db.intents[c].tool), c).Some?
    {
      assert IntentOk(x, c);
      if c in x.db.receipts { assert ReceiptOk(x, c); }
    }
  }

  // ---- where the protocol stops short ----

  const ANYONE := Principal("w", "u", "c")
  const TOOL := "price_watch_confirm"

  lemma RunSnoc(x: World, steps: seq<Step>, step: Step)
    ensures Run(x, steps + [step]) == Apply(Run(x, steps), step)
  {
  }

  function Issued(stage: Stage, lease: int): Intent {
    Intent(ANYONE, TOOL, "", "", stage, "", "", CONFIRMATION_TTL_MS, lease, EMPTY)
  }

  function Asking(now: int): Worker { Worker(ANYONE, TOOL, 0, now, None) }

  lemma NamesAreValid()
    ensures ValidToolName(TOOL) && ValidIdentity(ANYONE)
  {
  }

  /** Command 0 is held by whoever claims it while it is ready or its lease is over. */
  lemma Claiming(x: World, w: nat, now: int)
    requires 0 in x.db.intents && w !in x.workers && 0 <= now
    requires var i := x.db.intents[0];
      (i == Issued(Ready, EMPTY) && now < CONFIRMATION_TTL_MS) || (i == Issued(InProgress, i.lease) && i.lease <= now)
    ensures Apply(x, ClaimStep(w, ANYONE, TOOL, 0, now))
      == x.(db := x.db.(intents := x.db.intents[0 := Issued(InProgress, now + COMMAND_LEASE_MS)]),
            workers := x.workers[w := Asking(now)], claims := x.claims[0 := Claims(x, 0) + 1])
  {
    NamesAreValid();
  }

  const ASK := IssueStep(ANYONE, TOOL, "", "", 0)

  /** Command 0 after n claims, each at the moment the lease before it ran out. */
  function Held(n: nat): World {
    World(Commands(map[0 := if n == 0 then Issued(Ready, EMPTY) else Issued(InProgress, n * COMMAND_LEASE_MS)], map[], 1),
          map w: nat | w < n :: Asking(w * COMMAND_LEASE_MS), map[0 := (ANYONE, TOOL)], [], [], if n == 0 then map[] else map[0 := n],
          map[0 := Ticket("", "", 0)])
  }

  function Takeovers(n: nat): seq<Step> {
    if n == 0 then [ASK] else Takeovers(n - 1) + [ClaimStep(n - 1, ANYONE, TOOL, 0, (n - 1) * COMMAND_LEASE_MS)]
  }

  lemma Opening()
    ensures Run(START, [ASK]) == Held(0)
  {
    NamesAreValid();
    var t := Purge(START.db, 0);
    assert t.intents == map[] && t.receipts == map[];
    assert ActiveIntents(t.intents, ANYONE, 0) == {};
    assert START == Run(START, []) && [] + [ASK] == [ASK];
    RunSnoc(START, [], ASK);
    assert Held(0).workers == map[];
  }

  lemma OneMoreTakeover(n: nat)
    ensures Apply(Held(n), ClaimStep(n, ANYONE, TOOL, 0, n * COMMAND_LEASE_MS)) == Held(n + 1)
  {
    Claiming(Held(n), n, n * COMMAND_LEASE_MS);
    assert Held(n).workers[n := Asking(n * COMMAND_LEASE_MS)] == Held(n + 1).workers;
  }

  lemma {:induction false} TakenOver(n: nat)
    ensures Run(START, Takeovers(n)) == Held(n)
  {
    if n == 0 {
      Opening();
    } else {
      var claim := ClaimStep(n - 1, ANYONE, TOOL, 0, (n - 1) * COMMAND_LEASE_MS);
      TakenOver(n - 1);
      OneMoreTakeover(n - 1);
      RunSnoc(START, Takeovers(n - 1), claim);
      assert Takeovers(n) == Takeovers(n - 1) + [claim];
    }
  }

  lemma WindowSnoc(steps: seq<Step>, step: Step, span: int, wider: int)
    requires Window(steps, 0, span) && span <= wider && InWindow(step, 0, wider)
    ensures Window(steps + [step], 0, wider)
  {
  }

  lemma {:induction false} TakeoversTakeTime(n: nat)
    ensures Window(Takeovers(n), 0, n * COMMAND_LEASE_MS)
  {
    if n > 0 {
      TakeoversTakeTime(n - 1);
      WindowSnoc(Takeovers(n - 1), ClaimStep(n - 1, ANYONE, TOOL, 0, (n - 1) * COMMAND_LEASE_MS),
                 (n - 1) * COMMAND_LEASE_MS, n * COMMAND_LEASE_MS);
    }
  }

  /** The first of several workers fails and says so; the second then makes the change. */
  lemma FailThenMake(n: nat)
    requires n >= 2
    ensures HidesAChange(Apply(Apply(Apply(Held(n), RunStep(0, Err("busy"))), FinishStep(0)), RunStep(1, Ok("done"))), 0, n)
  {
    NamesAreValid();
    var x := Held(n);
    var x1 := Apply(x, RunStep(0, Err("busy")));
    assert x1.workers[0].result == Some(Err("busy")) && x1.db == x.db;
    var x2 := Apply(x1, FinishStep(0));
    assert x2.db.intents[0].stage == Failed && x2.db.receipts == map[] && x2.workers[1] == Asking(COMMAND_LEASE_MS);
    assert Apply(x2, RunStep(1, Ok("done"))).applied[0].command == 0;
  }

  lemma HidingRun(n: nat)
    requires n >= 2
    ensures HidesAChange(Run(START, Takeovers(n) + [RunStep(0, Err("busy"))] + [FinishStep(0)] + [RunStep(1, Ok("done"))]), 0, n)
  {
    var run0, finish, run1 := RunStep(0, Err("busy")), FinishStep(0), RunStep(1, Ok("done"));
    TakenOver(n);
    FailThenMake(n);
    RunSnoc(START, Takeovers(n), run0);
    RunSnoc(START, Takeovers(n) + [run0], finish);
    RunSnoc(START, Takeovers(n) + [run0] + [finish], run1);
  }

  lemma HidingTakesTime(steps: seq<Step>, span: int)
    requires Window(steps, 0, span)
    ensures Window(steps + [RunStep(0, Err("busy"))] + [FinishStep(0)] + [RunStep(1, Ok("done"))], 0, span)
  {
    var run0, finish, run1 := RunStep(0, Err("busy")), FinishStep(0), RunStep(1, Ok("done"));
    WindowSnoc(steps, run0, span, span);
    WindowSnoc(steps + [run0], finish, span, span);
    WindowSnoc(steps + [run0] + [finish], run1, span, span);
  }

  /** Workers stall past their leases and are taken over, the first fails and records the failure, and the
      second then makes the change. */
  lemma FailureCanHideAChange(n: nat)
    requires n >= 2
    ensures exists steps :: Window(steps, 0, n * COMMAND_LEASE_MS) && HidesAChange(Run(START, steps), 0, n)
  {
    TakeoversTakeTime(n);
    HidingTakesTime(Takeovers(n), n * COMMAND_LEASE_MS);
    HidingRun(n);
  }

  /** That a failure on record means that nothing was changed holds for the commands that were claimed at
      most once, that is, of which no lease ran out, and for no other number of claims. */
  lemma FailureMeansUnmade(n: nat)
    ensures (forall steps, c :: !HidesAChange(Run(START, steps), c, n)) <==> n <= 1
  {
    if n <= 1 {
      forall steps, c
        ensures !HidesAChange(Run(START, steps), c, n)
      {
        ClaimedOnceHidesNothing(steps, c, n);
      }
    } else {
      FailureCanHideAChange(n);
    }
  }

  /** The first millisecond past the retention of what happened at 0. */
  const LATE := RETENTION_MS + 1

  function Crashing(): seq<Step> { Takeovers(1) + [RunStep(0, Ok("done"))] + [CrashStep(0)] }

  /** A worker makes the change and crashes, and the next confirmation is issued one retention period later. */
  function Forgetting(): seq<Step> { Crashing() + [IssueStep(ANYONE, TOOL, "", "", LATE)] }

  lemma MadeAndCrashed()
    ensures var x := Run(START, Crashing());
      && x.db == Commands(map[0 := Issued(InProgress, COMMAND_LEASE_MS)], map[0 := Receipt("w", Operation(TOOL), "done", 0)], 1)
      && x.workers == map[] && x.applied == [Effect(0, "done")]
  {
    var run := RunStep(0, Ok("done"));
    TakenOver(1);
    RunSnoc(START, Takeovers(1), run);
    RunSnoc(START, Takeovers(1) + [run], CrashStep(0));
  }

  /** The receipt is purged; the unfinished confirmation that it guards expires five minutes later, and is not. */
  lemma ReceiptForgotten()
    ensures var x := Run(START, Forgetting());
      && x.db.receipts == map[] && 0 in x.db.intents && x.db.intents[0] == Issued(InProgress, COMMAND_LEASE_MS)
      && x.workers == map[] && x.applied == [Effect(0, "done")]
  {
    MadeAndCrashed();
    NamesAreValid();
    var x := Run(START, Crashing());
    var t := Purge(x.db, LATE);
    assert t.intents == x.db.intents && t.receipts == map[];
    assert ActiveIntents(t.intents, ANYONE, LATE) == {};
    RunSnoc(START, Crashing(), IssueStep(ANYONE, TOOL, "", "", LATE));
  }

  function Repeating(): seq<Step> { Forgetting() + [ClaimStep(1, ANYONE, TOOL, 0, LATE)] + [RunStep(1, Ok("done"))] }

  lemma PurgedReceiptRepeatsAChange()
    ensures Run(START, Repeating()).applied == [Effect(0, "done"), Effect(0, "done")]
  {
    ReceiptForgotten();
    var claim, run := ClaimStep(1, ANYONE, TOOL, 0, LATE), RunStep(1, Ok("done"));
    Claiming(Run(START, Forgetting()), 1, LATE);
    RunSnoc(START, Forgetting(), claim);
    RunSnoc(START, Forgetting() + [claim], run);
  }

  lemma RepeatingInWindow(span: int)
    requires span > RETENTION_MS
    ensures Window(Forgetting(), 0, span) && Window(Repeating(), 0, span)
  {
    TakeoversTakeTime(1);
    WindowSnoc(Takeovers(1), RunStep(0, Ok("done")), COMMAND_LEASE_MS, COMMAND_LEASE_MS);
    WindowSnoc(Takeovers(1) + [RunStep(0, Ok("done"))], CrashStep(0), COMMAND_LEASE_MS, COMMAND_LEASE_MS);
    WindowSnoc(Crashing(), IssueStep(ANYONE, TOOL, "", "", LATE), COMMAND_LEASE_MS, span);
    WindowSnoc(Forgetting(), ClaimStep(1, ANYONE, TOOL, 0, LATE), span, span);
    WindowSnoc(Forgetting() + [ClaimStep(1, ANYONE, TOOL, 0, LATE)], RunStep(1, Ok("done")), span, span);
  }

  /** A command's change is made at most once in every run whose clocks span no more than the retention
      period, however many workers confirm it, stall, crash, reclaim it or race; a millisecond more is too long. */
  lemma OnceExactlyWithinRetention(span: int)
    ensures (forall steps, from :: Window(steps, from, span) ==> Once(Run(START, steps))) <==> span <= RETENTION_MS
  {
    if span <= RETENTION_MS {
      forall steps, from | Window(steps, from, span)
        ensures Once(Run(START, steps))
      {
        assert Window(steps, from, RETENTION_MS);
        AppliedAtMostOnce(steps, from);
      }
    } else {
      PurgedReceiptRepeatsAChange();
      RepeatingInWindow(span);
      var x := Run(START, Repeating());
      assert x.applied[0].command == x.applied[1].command;
    }
  }

  /** For as long, and no longer, a reader of the tables can tell whether a change was made, whatever the
      record of the command says. */
  lemma ReceiptsTellExactlyWithinRetention(span: int)
    ensures (forall steps, from :: Window(steps, from, span) ==> ReceiptTells(Run(START, steps))) <==> span <= RETENTION_MS
  {
    if span <= RETENTION_MS {
      forall steps, from | Window(steps, from, span)
        ensures ReceiptTells(Run(START, steps))
      {
        assert Window(steps, from, RETENTION_MS);
        ReceiptsTellWithinRetention(steps, from);
      }
    } else {
      ReceiptForgotten();
      RepeatingInWindow(span);
      assert Run(START, Forgetting()).applied[0].command == 0;
    }
  }
}
