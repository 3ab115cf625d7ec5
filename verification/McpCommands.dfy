/** Confirmation tokens and command receipts: what each transaction does to the two tables.
    Timestamps are milliseconds; EMPTY stands for the empty string.
    A token and its command id are drawn together, so one number stands for both; the hash of a token
    is taken to be injective and stands for the token itself. */
module McpCommands {
  import opened Wrappers

  const EMPTY: int := -1
  const CONFIRMATION_TTL_MS := 300_000
  const COMMAND_LEASE_MS := 60_000
  const RETENTION_MS := 2_592_000_000
  const MAX_ACTIVE_CONFIRMATIONS := 40

  type CommandId = nat

  datatype Principal = Principal(workspace: string, user: string, client: string)

  datatype Stage = Ready | InProgress | Succeeded | Failed

  /** `input` and `impact` are the canonical JSON that was previewed, `outcome` the JSON to replay. */
  datatype Intent = Intent(principal: Principal, tool: string, input: string, impact: string, stage: Stage,
                           outcome: string, code: string, expires: int, lease: int, completed: int)

  datatype Receipt = Receipt(workspace: string, operation: string, outcome: string, created: int)

  datatype Commands = Commands(intents: map<CommandId, Intent>, receipts: map<CommandId, Receipt>, next: nat)

  datatype Error = InvalidConfirmation | TooManyConfirmations | InvalidCommand | CommandNotClaimed | ReceiptConflict

  datatype Claim = Claimed(input: string, impact: string) | Busy | Terminal(stage: Stage, outcome: string)

  const EXPIRED_CODE := "confirmation-expired"
  const EXPIRED_OUTCOME := "confirmation-expired"

  predicate ValidIdentity(p: Principal) {
    0 < |p.workspace| <= 200 && 0 < |p.user| <= 200 && 0 < |p.client| <= 2048
  }

  predicate ValidToolName(tool: string) {
    2 <= |tool| <= 80 && 'a' <= tool[0] <= 'z'
    && forall i :: 0 <= i < |tool| ==> 'a' <= tool[i] <= 'z' || '0' <= tool[i] <= '9' || tool[i] == '_'
  }

  predicate Final(stage: Stage) { stage == Succeeded || stage == Failed }

  // ---- issuing ----

  predicate IntentStale(i: Intent, cutoff: int) {
    (i.completed != EMPTY && i.completed < cutoff) || (i.completed == EMPTY && i.expires < cutoff)
  }

  /** Both tables without the rows that are past retention. */
  function Purge(s: Commands, now: int): Commands {
    s.(intents := map c | c in s.intents && !IntentStale(s.intents[c], now - RETENTION_MS) :: s.intents[c],
       receipts := map c | c in s.receipts && s.receipts[c].created >= now - RETENTION_MS :: s.receipts[c])
  }

  function ActiveIntents(m: map<CommandId, Intent>, p: Principal, now: int): set<CommandId> {
    set c | c in m && m[c].principal.workspace == p.workspace && m[c].principal.client == p.client
      && !Final(m[c].stage) && m[c].expires > now
  }

  function Issue(s: Commands, p: Principal, tool: string, input: string, impact: string, now: int): Result<(Commands, CommandId), Error> {
    if !ValidIdentity(p) || !ValidToolName(tool) then Err(InvalidConfirmation)
    else
      var t := Purge(s, now);
      if |ActiveIntents(t.intents, p, now)| >= MAX_ACTIVE_CONFIRMATIONS then Err(TooManyConfirmations)
      else Ok((t.(intents := t.intents[t.next := Intent(p, tool, input, impact, Ready, "", "", now + CONFIRMATION_TTL_MS, EMPTY, EMPTY)],
                  next := t.next + 1), t.next))
  }

  function Ended(i: Intent): int { if i.completed != EMPTY then i.completed else i.expires }

  /** Both are kept for thirty days: a confirmation from when it was completed or expired, a receipt from when it was made. */
  lemma KeptForThirtyDays(s: Commands, now: int, c: CommandId)
    ensures var t := Purge(s, now);
      && (c in t.intents <==> c in s.intents && now <= Ended(s.intents[c]) + 2_592_000_000)
      && (c in t.receipts <==> c in s.receipts && now <= s.receipts[c].created + 2_592_000_000)
      && (c in t.intents ==> t.intents[c] == s.intents[c]) && (c in t.receipts ==> t.receipts[c] == s.receipts[c])
  {
  }

  /** The confirmations of a client in its workspace that are neither finished nor expired. */
  lemma WaitingIs(m: map<CommandId, Intent>, p: Principal, now: int, c: CommandId)
    ensures c in ActiveIntents(m, p, now) <==>
      c in m && m[c].principal.workspace == p.workspace && m[c].principal.client == p.client
      && (m[c].stage == Ready || m[c].stage == InProgress) && m[c].expires > now
  {
  }

  /** One more is issued exactly while there are fewer than forty of them, and is then one of them. */
  lemma FortyAtMost(s: Commands, p: Principal, tool: string, input: string, impact: string, now: int)
    requires s.next !in s.intents && ValidIdentity(p) && ValidToolName(tool)
    ensures var waiting, r := ActiveIntents(Purge(s, now).intents, p, now), Issue(s, p, tool, input, impact, now);
      && (r.Ok? <==> |waiting| < 40)
      && (r.Ok? ==> r.value.1 !in waiting && ActiveIntents(r.value.0.intents, p, now) == waiting + {r.value.1})
  {
  }

  // ---- claiming and completing ----

  predicate Owns(s: Commands, c: CommandId, p: Principal, tool: string) {
    c in s.intents && s.intents[c].principal == p && s.intents[c].tool == tool
  }

  function ClaimIntent(s: Commands, p: Principal, tool: string, c: CommandId, now: int): (Commands, Result<Claim, Error>) {
    if !ValidIdentity(p) || !ValidToolName(tool) || !Owns(s, c, p, tool) then (s, Err(InvalidConfirmation))
    else
      var row := s.intents[c];
      if Final(row.stage) then (s, Ok(Terminal(row.stage, row.outcome)))
      else if row.stage == Ready && row.expires <= now then
        (s.(intents := s.intents[c := row.(stage := Failed, outcome := EXPIRED_OUTCOME, code := EXPIRED_CODE, completed := now, lease := EMPTY)]),
         Ok(Terminal(Failed, EXPIRED_OUTCOME)))
      else if row.stage == InProgress && row.lease > now then (s, Ok(Busy))
      else
        (s.(intents := s.intents[c := row.(stage := InProgress, lease := now + COMMAND_LEASE_MS)]),
         Ok(Claimed(row.input, row.impact)))
  }

  /** Returns the outcome on record: this one, or the one another caller stored first. */
  function Complete(s: Commands, p: Principal, tool: string, c: CommandId, stage: Stage, outcome: string, code: string, now: int)
    : (Commands, Result<string, Error>)
    requires Final(stage)
  {
    if !ValidIdentity(p) || !ValidToolName(tool) || !Owns(s, c, p, tool) then (s, Err(InvalidCommand))
    else
      var row := s.intents[c];
      if Final(row.stage) then (s, Ok(row.outcome))
      else if row.stage != InProgress then (s, Err(CommandNotClaimed))
      else (s.(intents := s.intents[c := row.(stage := stage, outcome := outcome, code := code, completed := now, lease := EMPTY)]), Ok(outcome))
  }

  /** A confirmation can be claimed for five minutes from its issue, by the one it was issued to and with the tool
      it was issued for, and hands out what was shown; after that it has failed. Nobody else can claim it. */
  lemma IssuedCanBeClaimed(s: Commands, p: Principal, tool: string, input: string, impact: string, at: int, q: Principal, other: string, now: int)
    requires Issue(s, p, tool, input, impact, at).Ok?
    ensures var (t, c) := Issue(s, p, tool, input, impact, at).value; var claim := ClaimIntent(t, q, other, c, now).1;
      if (q, other) != (p, tool) then claim == Err(InvalidConfirmation)
      else if now < at + 300_000 then claim == Ok(Claimed(input, impact))
      else claim.Ok? && claim.value.Terminal? && claim.value.stage == Failed
  {
  }

  // ---- receipts ----

  function GetReceipt(s: Commands, workspace: string, operation: string, c: CommandId): Option<string> {
    if c in s.receipts && s.receipts[c].workspace == workspace && s.receipts[c].operation == operation
    then Some(s.receipts[c].outcome) else None
  }

  function RecordReceipt(s: Commands, workspace: string, operation: string, c: CommandId, outcome: string, now: int): Result<Commands, Error> {
    if c !in s.receipts then Ok(s.(receipts := s.receipts[c := Receipt(workspace, operation, outcome, now)]))
    else if GetReceipt(s, workspace, operation, c) == Some(outcome) then Ok(s)
    else Err(ReceiptConflict)
  }

  /** A receipt is written once: the same one is accepted again, another is refused, and no other row is touched. */
  lemma ReceiptsStay(s: Commands, workspace: string, operation: string, c: CommandId, outcome: string, now: int)
    ensures var r := RecordReceipt(s, workspace, operation, c, outcome, now);
      && (r.Ok? <==> c !in s.receipts || (s.receipts[c].workspace == workspace && s.receipts[c].operation == operation && s.receipts[c].outcome == outcome))
      && (r.Ok? ==> GetReceipt(r.value, workspace, operation, c) == Some(outcome) && r.value.intents == s.intents)
      && (r.Ok? ==> r.value.receipts.Keys == s.receipts.Keys + {c} && forall d :: d in s.receipts ==> r.value.receipts[d] == s.receipts[d])
      && (r.Ok? && c !in s.receipts ==> r.value.receipts[c].created == now)
  {
  }

  // ---- the service ----

  /** The operation that a confirmation tool runs. */
  function Operation(tool: string): string {
    if tool == "price_watch_confirm" then "price_watch.activate"
    else if tool == "price_watch_update_confirm" then "price_watch.update"
    else "price_watch.delete"
  }

  function ErrorCode(e: Error): string {
    match e
    case InvalidConfirmation => "invalid-confirmation"
    case TooManyConfirmations => "too-many-confirmations"
    case InvalidCommand => "invalid-command"
    case CommandNotClaimed => "command-not-claimed"
    case ReceiptConflict => "command-receipt-conflict"
  }

  function FailureOutcome(code: string): string { "failed:" + code }

  /** The effect transaction. `verdict` is what the operation answers when it is run now: an outcome, with
      its changes, or an error code, without any. A receipt stands in for running it.
      The last component says whether the changes were made. */
  function RunOperation(s: Commands, p: Principal, tool: string, c: CommandId, verdict: Result<string, string>, now: int)
    : (Commands, Result<string, string>, bool)
  {
    var receipt := GetReceipt(s, p.workspace, Operation(tool), c);
    if receipt.Some? then (s, Ok(receipt.value), false)
    else match verdict
      case Err(code) => (s, Err(code), false)
      case Ok(outcome) =>
        match RecordReceipt(s, p.workspace, Operation(tool), c, outcome, now)
        case Ok(t) => (t, Ok(outcome), true)
        case Err(e) => (s, Err(ErrorCode(e)), false)
  }

  /** An operation that went well is never made again: whatever it would do now, it answers as before. One that was
      not made yet is made, and one that fails leaves nothing behind. */
  lemma RunAgain(s: Commands, p: Principal, tool: string, c: CommandId, verdict: Result<string, string>, now: int, again: Result<string, string>, later: int)
    ensures var (t, r, made) := RunOperation(s, p, tool, c, verdict, now);
      && (r.Ok? ==> RunOperation(t, p, tool, c, again, later) == (t, r, false))
      && (c !in s.receipts ==> r == verdict && (made <==> verdict.Ok?))
      && (!made ==> t == s)
  {
  }

  /** Store the result. An error from storing a success is caught and stored as a failure. */
  function Finish(s: Commands, p: Principal, tool: string, c: CommandId, result: Result<string, string>, now: int)
    : (Commands, Result<string, Error>)
  {
    match result
    case Err(code) => Complete(s, p, tool, c, Failed, FailureOutcome(code), code, now)
    case Ok(outcome) =>
      var (t, r) := Complete(s, p, tool, c, Succeeded, outcome, "", now);
      if r.Ok? then (t, r)
      else Complete(t, p, tool, c, Failed, FailureOutcome(ErrorCode(r.error)), ErrorCode(r.error), now)
  }

  /** That second attempt never stores anything: a success is never turned into a recorded failure. */
  lemma FallbackStoresNothing(s: Commands, p: Principal, tool: string, c: CommandId, outcome: string, now: int)
    ensures var (t, r) := Finish(s, p, tool, c, Ok(outcome), now);
      r.Err? ==> t == s
    ensures var (t, r) := Finish(s, p, tool, c, Ok(outcome), now);
      r.Ok? && c in s.intents && !Final(s.intents[c].stage) ==> t.intents[c].stage == Succeeded && r.value == outcome
  {
  }

  datatype Reply = Replied(outcome: string) | StillRunning | Refused(error: Error)

  /** One uninterrupted confirm call. */
  function Confirm(s: Commands, p: Principal, tool: string, c: CommandId, verdict: Result<string, string>, now: int): (Commands, Reply) {
    var (t, claim) := ClaimIntent(s, p, tool, c, now);
    match claim
    case Err(e) => (t, Refused(e))
    case Ok(Terminal(_, outcome)) => (t, Replied(outcome))
    case Ok(Busy) => (t, StillRunning)
    case Ok(Claimed(_, _)) =>
      var (u, result, _) := RunOperation(t, p, tool, c, verdict, now);
      var (v, reply) := Finish(u, p, tool, c, result, now);
      (v, if reply.Ok? then Replied(reply.value) else Refused(reply.error))
  }
}
