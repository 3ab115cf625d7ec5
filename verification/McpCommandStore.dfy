/** The two tables updated in place, one method per transaction. */
module McpCommandStore {
  import opened Wrappers
  import opened McpCommands

  class CommandStore {
    var intents: map<CommandId, Intent>
    var receipts: map<CommandId, Receipt>
    var next: nat

    function Db(): Commands
      reads this
    {
      Commands(intents, receipts, next)
    }

    constructor ()
      ensures Db() == Commands(map[], map[], 0)
    {
      intents, receipts, next := map[], map[], 0;
    }

    method Issue(p: Principal, tool: string, input: string, impact: string, now: int) returns (r: Result<CommandId, Error>)
      modifies this
      ensures match McpCommands.Issue(old(Db()), p, tool, input, impact, now)
        case Ok(done) => Db() == done.0 && r == Ok(done.1)
        case Err(e) => Db() == old(Db()) && r == Err(e)
    {
      if !ValidIdentity(p) || !ValidToolName(tool) { return Err(InvalidConfirmation); }
      var before := Db();
      var cutoff := now - RETENTION_MS;
      intents := map c | c in intents && !IntentStale(intents[c], cutoff) :: intents[c];
      receipts := map c | c in receipts && receipts[c].created >= cutoff :: receipts[c];
      assert Db() == Purge(before, now);
      if |ActiveIntents(intents, p, now)| >= MAX_ACTIVE_CONFIRMATIONS {
        intents, receipts := before.intents, before.receipts;
        return Err(TooManyConfirmations);
      }
      intents := intents[next := Intent(p, tool, input, impact, Ready, "", "", now + CONFIRMATION_TTL_MS, EMPTY, EMPTY)];
      next := next + 1;
      r := Ok(next - 1);
    }

    method ClaimIntent(p: Principal, tool: string, c: CommandId, now: int) returns (r: Result<Claim, Error>)
      modifies `intents
      ensures (Db(), r) == McpCommands.ClaimIntent(old(Db()), p, tool, c, now)
    {
      if !ValidIdentity(p) || !ValidToolName(tool) || !Owns(Db(), c, p, tool) { return Err(InvalidConfirmation); }
      var row := intents[c];
      if Final(row.stage) { return Ok(Terminal(row.stage, row.outcome)); }
      if row.stage == Ready && row.expires <= now {
        intents := intents[c := row.(stage := Failed, outcome := EXPIRED_OUTCOME, code := EXPIRED_CODE, completed := now, lease := EMPTY)];
        return Ok(Terminal(Failed, EXPIRED_OUTCOME));
      }
      if row.stage == InProgress && row.lease > now { return Ok(Busy); }
      intents := intents[c := row.(stage := InProgress, lease := now + COMMAND_LEASE_MS)];
      r := Ok(Claimed(row.input, row.impact));
    }

    method Complete(p: Principal, tool: string, c: CommandId, stage: Stage, outcome: string, code: string, now: int)
      returns (r: Result<string, Error>)
      requires Final(stage)
      modifies `intents
      ensures (Db(), r) == McpCommands.Complete(old(Db()), p, tool, c, stage, outcome, code, now)
    {
      if !ValidIdentity(p) || !ValidToolName(tool) || !Owns(Db(), c, p, tool) { return Err(InvalidCommand); }
      var row := intents[c];
      if Final(row.stage) { return Ok(row.outcome); }
      if row.stage != InProgress { return Err(CommandNotClaimed); }
      intents := intents[c := row.(stage := stage, outcome := outcome, code := code, completed := now, lease := EMPTY)];
      r := Ok(outcome);
    }

    method Record(workspace: string, operation: string, c: CommandId, outcome: string, now: int) returns (e: Option<Error>)
      modifies `receipts
      ensures match RecordReceipt(old(Db()), workspace, operation, c, outcome, now)
        case Ok(t) => Db() == t && e.None?
        case Err(error) => Db() == old(Db()) && e == Some(error)
    {
      if c !in receipts {
        receipts := receipts[c := Receipt(workspace, operation, outcome, now)];
        return None;
      }
      e := if GetReceipt(Db(), workspace, operation, c) == Some(outcome) then None else Some(ReceiptConflict);
    }

    method Run(p: Principal, tool: string, c: CommandId, verdict: Result<string, string>, now: int)
      returns (result: Result<string, string>, applied: bool)
      modifies `receipts
      ensures (Db(), result, applied) == RunOperation(old(Db()), p, tool, c, verdict, now)
    {
      var receipt := GetReceipt(Db(), p.workspace, Operation(tool), c);
      if receipt.Some? { return Ok(receipt.value), false; }
      if verdict.Err? { return Err(verdict.error), false; }
      var e := Record(p.workspace, Operation(tool), c, verdict.value, now);
      if e.Some? { return Err(ErrorCode(e.value)), false; }
      result, applied := Ok(verdict.value), true;
    }

    method Confirm(p: Principal, tool: string, c: CommandId, verdict: Result<string, string>, now: int) returns (reply: Reply)
      modifies this
      ensures (Db(), reply) == McpCommands.Confirm(old(Db()), p, tool, c, verdict, now)
    {
      var claim := ClaimIntent(p, tool, c, now);
      if claim.Err? { return Refused(claim.error); }
      match claim.value
      case Terminal(_, outcome) => reply := Replied(outcome);
      case Busy => reply := StillRunning;
      case Claimed(_, _) =>
        var result, _ := Run(p, tool, c, verdict, now);
        var r;
        if result.Ok? {
          r := Complete(p, tool, c, Succeeded, result.value, "", now);
          if r.Err? { r := Complete(p, tool, c, Failed, FailureOutcome(ErrorCode(r.error)), ErrorCode(r.error), now); }
        } else {
          r := Complete(p, tool, c, Failed, FailureOutcome(result.error), result.error, now);
        }
        reply := if r.Ok? then Replied(r.value) else Refused(r.error);
    }
  }
}
