/** What becomes of claimed watchers: given back, reaped, checked, or disabled meanwhile. */
module PriceWatchOutcomes {
  import opened Wrappers
  import opened RowOrder
  import opened PriceWatchLedger
  import opened PriceWatchInvariants
  import opened PriceWatchClaims
  import opened PriceWatchRuns
  import opened PriceWatchEffects
  import opened PriceWatchDue

  function CadenceOf(w: Watcher): int { if w.cadence == Hourly then 3_600_000 else 86_400_000 }

  /** One more failure: the third in a row pauses a watcher that runs. */
  ghost predicate Failed(row: Watcher, after: Watcher, now: int) {
    && after.failures == row.failures + 1 && after.baseline == row.baseline && after.cadence == row.cadence
    && after.state == (if Running(row) && row.failures >= 2 then PausedFailure else row.state)
    && after.nextCheck == now + CadenceOf(row) && Unclaimed(after)
  }

  /** A price was read: a watcher that runs is active from now on, with no failures. */
  ghost predicate Checked(row: Watcher, after: Watcher, baseline: Option<Price>, now: int) {
    && after.failures == 0 && after.baseline == baseline && after.cadence == row.cadence
    && after.state == (if Running(row) then Active else row.state)
    && after.nextCheck == now + CadenceOf(row) && Unclaimed(after)
  }

  // ---- a finished check ----

  function Kind(previous: Price, current: Price): (k: string)
    ensures k == "price-decreased" <==> current.amount < previous.amount
    ensures k == "price-increased" <==> current.amount > previous.amount
    ensures k == "discount-started" <==> current.amount == previous.amount && previous.listAmount.None? && current.listAmount.Some?
    ensures k == "discount-ended" <==> current.amount == previous.amount && previous.listAmount.Some? && current.listAmount.None?
  {
    EventType(previous, current)
  }

  /** A worker whose attempt is still its own settles the watcher by what it saw, and commits the reservation. */
  lemma CompletionSets(s: Ledger, c: Claim, outcome: Outcome, now: int)
    requires Inv(s) && Is(s, c.reservation, Attempting) && s.reservations[c.reservation].owner == c.owner
    requires s.reservations[c.reservation].watcher == c.watcher && s.reservations[c.reservation].workspace == c.workspace
    requires outcome.Change? ==> c.baseline.Some?
    ensures var (t, k) := Complete(s, c, outcome, now);
      && c.watcher in s.watchers && c.watcher in t.watchers && k.completed
      && t.reservations == s.reservations[c.reservation := s.reservations[c.reservation].(status := Committed, owner := "", lease := EMPTY)]
      && (match outcome
          case Failure => Failed(s.watchers[c.watcher], t.watchers[c.watcher], now) && k.event == "check-failed"
          case Inconclusive => Failed(s.watchers[c.watcher], t.watchers[c.watcher], now) && k.event == "confirmation-inconclusive"
          case Unchanged => Checked(s.watchers[c.watcher], t.watchers[c.watcher], s.watchers[c.watcher].baseline, now) && k.event == "unchanged"
          case Baseline(p) => Checked(s.watchers[c.watcher], t.watchers[c.watcher], Some(p), now) && k.event == "baseline"
          case Change(p) => Checked(s.watchers[c.watcher], t.watchers[c.watcher], Some(p), now) && k.event == Kind(c.baseline.value, p))
      && (forall v :: v in s.watchers && v != c.watcher ==> v in t.watchers && t.watchers[v] == s.watchers[v])
      && (k.paused <==> t.watchers[c.watcher].state == PausedFailure && Running(s.watchers[c.watcher]))
  {
    assert RowOk(s, c.reservation);
  }

  /** And stores what it saw, if that is a first price or another one. */
  lemma CompletionStores(s: Ledger, c: Claim, outcome: Outcome, now: int)
    requires Inv(s) && Is(s, c.reservation, Attempting) && s.reservations[c.reservation].owner == c.owner
    requires s.reservations[c.reservation].watcher == c.watcher && s.reservations[c.reservation].workspace == c.workspace
    requires outcome.Change? ==> c.baseline.Some?
    ensures Complete(s, c, outcome, now).0.observations == match outcome
      case Baseline(p) => s.observations[c.reservation := Observation("baseline", p)]
      case Change(p) => s.observations[c.reservation := Observation(Kind(c.baseline.value, p), p)]
      case _ => s.observations
  {
    assert RowOk(s, c.reservation);
  }

  // ---- a claim given back ----

  lemma ReleaseSets(s: Ledger, c: Claim, now: int)
    requires Is(s, c.reservation, Reserved) && s.reservations[c.reservation].watcher == c.watcher && s.reservations[c.reservation].owner == c.owner
    ensures var (t, released) := ReleaseClaim(s, c, now);
      && released && t.reservations == s.reservations[c.reservation := s.reservations[c.reservation].(status := Released, owner := "", lease := EMPTY)]
      && (forall v :: v in s.watchers && (v != c.watcher || s.watchers[v].owner != c.owner) ==> v in t.watchers && t.watchers[v] == s.watchers[v])
      && (c.watcher in s.watchers && s.watchers[c.watcher].owner == c.owner ==>
        c.watcher in t.watchers && t.watchers[c.watcher] == s.watchers[c.watcher].(nextCheck := now, owner := "", expires := EMPTY, updatedAt := now))
  {
  }

  // ---- a lease that ran out ----

  ghost predicate RanOut(row: Reservation, now: int) {
    (row.status == Reserved || row.status == Attempting) && row.lease != EMPTY && row.lease <= now
  }

  /** What reaping makes of one row and its watcher, as both were read. */
  ghost predicate Reaped(row: Reservation, w: Watcher, row': Reservation, w': Watcher, now: int) {
    if row.status == Reserved then
      row' == row.(status := Released, owner := "", lease := EMPTY)
      && w' == if w.expires <= now then w.(nextCheck := now, owner := "", expires := EMPTY, updatedAt := now) else w
    else row' == row.(status := Committed, owner := "", lease := EMPTY) && Failed(w, w', now)
  }

  ghost predicate Apart(s: Ledger, rows: seq<ReservationId>, r: ReservationId, w: WatcherId) {
    forall i :: 0 <= i < |rows| && rows[i] != r && rows[i] in s.reservations ==> s.reservations[rows[i]].watcher != w
  }

  lemma ReapRowSets(s: Ledger, r: ReservationId, w: WatcherId, now: int)
    requires r in s.reservations && s.reservations[r].watcher == w && w in s.watchers && RanOut(s.reservations[r], now)
    ensures var t := ReapRow(s, r, s.watchers[w], now);
      r in t.reservations && w in t.watchers && Reaped(s.reservations[r], s.watchers[w], t.reservations[r], t.watchers[w], now)
  {
  }

  lemma ReapRowElsewhere(s: Ledger, q: ReservationId, seen: Watcher, now: int, r: ReservationId, w: WatcherId)
    requires q != r && (q in s.reservations ==> s.reservations[q].watcher != w)
    ensures var t := ReapRow(s, q, seen, now);
      && (r in s.reservations ==> r in t.reservations && t.reservations[r] == s.reservations[r])
      && (w in s.watchers ==> w in t.watchers && t.watchers[w] == s.watchers[w])
  {
  }

  lemma {:induction false} ReapRowsKeepWatchers(s: Ledger, rows: seq<ReservationId>, now: int)
    ensures var t := ReapRows(s, s, rows, now);
      t.reservations.Keys == s.reservations.Keys && forall q :: q in s.reservations ==> t.reservations[q].watcher == s.reservations[q].watcher
  {
    if rows != [] { ReapRowsKeepWatchers(s, rows[..|rows| - 1], now); }
  }

  lemma {:induction false} ReapRowsSet(s: Ledger, rows: seq<ReservationId>, now: int, r: ReservationId, w: WatcherId)
    requires r in s.reservations && s.reservations[r].watcher == w && w in s.watchers && RanOut(s.reservations[r], now)
    requires Apart(s, rows, r, w) && forall i, j :: 0 <= i < j < |rows| ==> rows[i] != rows[j]
    ensures var t := ReapRows(s, s, rows, now);
      && r in t.reservations && w in t.watchers
      && if r in rows then Reaped(s.reservations[r], s.watchers[w], t.reservations[r], t.watchers[w], now)
         else t.reservations[r] == s.reservations[r] && t.watchers[w] == s.watchers[w]
  {
    if rows != [] {
      var init, q := rows[..|rows| - 1], rows[|rows| - 1];
      var t := ReapRows(s, s, init, now);
      assert rows == init + [q];
      assert forall i :: 0 <= i < |init| ==> init[i] == rows[i];
      ReapRowsSet(s, init, now, r, w);
      ReapRowsKeepWatchers(s, init, now);
      if q == r {
        assert r !in init;
        ReapRowSets(t, r, w, now);
      } else if q in s.reservations && s.reservations[q].watcher in s.watchers {
        ReapRowElsewhere(t, q, s.watchers[s.reservations[q].watcher], now, r, w);
      }
    }
  }

  /** A worker that let its lease run out loses the claim: an attempt it had begun is charged and counts as a
      failure, and one it had not is given back and the watcher due at once. (Told of a watcher with no other
      lease that has run out.) */
  lemma ReapSets(s: Ledger, now: int, r: ReservationId)
    requires Inv(s) && r in s.reservations && RanOut(s.reservations[r], now)
    requires forall q :: q in s.reservations && q != r && RanOut(s.reservations[q], now) ==> s.reservations[q].watcher != s.reservations[r].watcher
    ensures var t, w := Reap(s, now), s.reservations[r].watcher;
      && w in s.watchers && r in t.reservations && w in t.watchers
      && Reaped(s.reservations[r], s.watchers[w], t.reservations[r], t.watchers[w], now)
  {
    assert RowOk(s, r);
    var rows := OrderBy(Expired(s, now), LeaseRank(s.reservations));
    assert r in rows;
    forall i | 0 <= i < |rows|
      ensures rows[i] in s.reservations && RanOut(s.reservations[rows[i]], now)
    {
      assert rows[i] in Expired(s, now);
    }
    ReapRowsSet(s, rows, now, r, s.reservations[r].watcher);
  }

  ghost predicate KeepsKeys(s: Ledger, t: Ledger) { t.reservations.Keys == s.reservations.Keys && t.watchers.Keys == s.watchers.Keys }

  lemma ReapRowClears(s: Ledger, q: ReservationId, seen: Watcher, now: int, r: ReservationId)
    requires r in s.reservations && (r == q || !RanOut(s.reservations[r], now)) && s.reservations[r].watcher in s.watchers
    ensures var t := ReapRow(s, q, seen, now); KeepsKeys(s, t) && !RanOut(t.reservations[r], now)
  {
  }

  lemma ReapRowKeepsKeys(s: Ledger, q: ReservationId, seen: Watcher, now: int)
    ensures var t := ReapRow(s, q, seen, now);
      KeepsKeys(s, t) && forall r :: r in s.reservations ==>
        t.reservations[r].watcher == s.reservations[r].watcher && (RanOut(t.reservations[r], now) ==> RanOut(s.reservations[r], now))
  {
  }

  lemma {:induction false} ReapRowsClear(s: Ledger, rows: seq<ReservationId>, now: int, r: ReservationId)
    requires r in s.reservations && s.reservations[r].watcher in s.watchers
    ensures var t := ReapRows(s, s, rows, now);
      KeepsKeys(s, t) && t.reservations[r].watcher == s.reservations[r].watcher
      && (RanOut(t.reservations[r], now) ==> RanOut(s.reservations[r], now) && r !in rows)
  {
    if rows != [] {
      var init, q := rows[..|rows| - 1], rows[|rows| - 1];
      var t := ReapRows(s, s, init, now);
      assert rows == init + [q];
      ReapRowsClear(s, init, now, r);
      if q in s.reservations && s.reservations[q].watcher in s.watchers {
        var seen := s.watchers[s.reservations[q].watcher];
        ReapRowKeepsKeys(t, q, seen, now);
        if r == q || !RanOut(t.reservations[r], now) { ReapRowClears(t, q, seen, now, r); }
      }
    }
  }

  /** Reaping leaves no lease that has run out: whoever it was is free, and every claim still standing is in time. */
  lemma ReapingLeavesNone(s: Ledger, now: int, r: ReservationId)
    requires Inv(s) && r in s.reservations
    ensures var t := Reap(s, now); r in t.reservations && (t.reservations[r].lease == EMPTY || t.reservations[r].lease > now)
  {
    assert RowOk(s, r);
    var rows := OrderBy(Expired(s, now), LeaseRank(s.reservations));
    ReapRowsClear(s, rows, now, r);
    assert RanOut(s.reservations[r], now) ==> r in rows;
  }

  // ---- disabled watchers ----

  /** Disabled, or deleted. */
  ghost predicate Off(s: Ledger, w: WatcherId, ws: Workspace, target: TargetKey) {
    w < s.next && (w in s.watchers ==> s.watchers[w].state == Disabled && s.watchers[w].workspace == ws && s.watchers[w].target == target)
  }

  /** The transactions that can set such a watcher going: a resumption of it, or an activation of its target. */
  ghost predicate Names(step: Step, w: WatcherId, ws: Workspace, target: TargetKey) {
    || (step.MutateStep? && step.w == w && step.mutation.action == Resume)
    || (step.ActivateStep? && step.ws == ws && exists e :: e in step.input.targets && e.target == target)
  }

  lemma ReconcileOff(s: Ledger, whose: Workspace, now: int, w: WatcherId, ws: Workspace, target: TargetKey)
    requires Off(s, w, ws, target)
    ensures Off(Reconcile(s, whose, now), w, ws, target)
  {
  }

  lemma MutateOff(s: Ledger, whose: Workspace, v: WatcherId, input: Mutation, now: int, w: WatcherId, ws: Workspace, target: TargetKey)
    requires Inv(s) && Off(s, w, ws, target) && Mutate(s, whose, v, input, now).Ok? && (v == w ==> input.action != Resume)
    ensures Off(Mutate(s, whose, v, input, now).value, w, ws, target)
  {
    ReconcileOff(s, whose, now, w, ws, target);
    MutateProper(s, whose, v, input, now);
    if w !in s.watchers {
      MutationAddsNone(s, whose, v, input, now);
    } else if v != w {
      MutationElsewhere(s, whose, v, input, now, w);
    } else if input.action == Disable {
      DisablingSets(s, whose, v, input, now);
      MutationKeepsTarget(s, whose, v, input, now);
    } else {
      CadenceSets(s, whose, v, input, now);
      MutationKeepsTarget(s, whose, v, input, now);
    }
  }

  lemma MutationAddsNone(s: Ledger, ws: Workspace, w: WatcherId, input: Mutation, now: int)
    requires Mutate(s, ws, w, input, now).Ok?
    ensures Mutate(s, ws, w, input, now).value.watchers.Keys == s.watchers.Keys
  {
    if input.action == Resume { ResumptionAddsNone(s, ws, w, input, now); }
  }

  lemma ResumptionAddsNone(s: Ledger, ws: Workspace, w: WatcherId, input: Mutation, now: int)
    requires Mutate(s, ws, w, input, now).Ok? && input.action == Resume
    ensures Mutate(s, ws, w, input, now).value.watchers.Keys == s.watchers.Keys
  {
    var u := Reconcile(s, ws, now);
    assert u.watchers.Keys == s.watchers.Keys;
  }

  lemma MutationKeepsTarget(s: Ledger, ws: Workspace, w: WatcherId, input: Mutation, now: int)
    requires Mutate(s, ws, w, input, now).Ok? && input.action != Resume
    ensures var t := Mutate(s, ws, w, input, now).value;
      w in t.watchers && t.watchers[w].target == s.watchers[w].target && t.watchers[w].workspace == s.watchers[w].workspace
  {
  }

  lemma {:induction false} ItemsKeepIds(s: Ledger, ws: Workspace, items: seq<Item>, cadence: Cadence, p: Period, now: int, w: WatcherId)
    requires w < s.next && w !in s.watchers
    ensures var t := ActivateItems(s, ws, items, cadence, p, now); w < t.next && s.next <= t.next && w !in t.watchers
  {
    if items != [] { ItemsKeepIds(s, ws, items[..|items| - 1], cadence, p, now, w); }
  }

  lemma ActivateOff(s: Ledger, whose: Workspace, input: Activation, expected: Option<Fingerprint>, now: int, w: WatcherId, ws: Workspace, target: TargetKey)
    requires Inv(s) && Off(s, w, ws, target) && Activate(s, whose, input, expected, now).Ok?
    requires whose == ws ==> forall e :: e in input.targets ==> e.target != target
    ensures Off(Activate(s, whose, input, expected, now).value.0, w, ws, target)
  {
    ReconcileOff(s, whose, now, w, ws, target);
    ActivateProper(s, whose, input, expected, now);
    if w in s.watchers {
      ActivationElsewhere(s, whose, input, expected, now, w);
    } else {
      var grant, u := CurrentGrant(s, whose, now).value, Reconcile(s, whose, now);
      ItemsKeepIds(u, whose, ResolveActivation(u, whose, input, grant).items, input.cadence, grant.period, now, w);
    }
  }

  lemma ReapRowOff(s: Ledger, r: ReservationId, seen: Watcher, now: int, w: WatcherId, ws: Workspace, target: TargetKey)
    requires Off(s, w, ws, target) && (r in s.reservations && s.reservations[r].watcher == w ==> seen.state == Disabled)
    ensures Off(ReapRow(s, r, seen, now), w, ws, target)
  {
  }

  lemma {:induction false} ReapRowsOff(s: Ledger, rows: seq<ReservationId>, now: int, w: WatcherId, ws: Workspace, target: TargetKey)
    requires Off(s, w, ws, target)
    ensures Off(ReapRows(s, s, rows, now), w, ws, target)
  {
    if rows != [] {
      var init, q := rows[..|rows| - 1], rows[|rows| - 1];
      ReapRowsOff(s, init, now, w, ws, target);
      ReapRowsKeepWatchers(s, init, now);
      if q in s.reservations && s.reservations[q].watcher in s.watchers {
        ReapRowOff(ReapRows(s, s, init, now), q, s.watchers[s.reservations[q].watcher], now, w, ws, target);
      }
    }
  }

  lemma ReapOff(s: Ledger, now: int, w: WatcherId, ws: Workspace, target: TargetKey)
    requires Off(s, w, ws, target)
    ensures Off(Reap(s, now), w, ws, target)
  {
    ReapRowsOff(s, OrderBy(Expired(s, now), LeaseRank(s.reservations)), now, w, ws, target);
  }

  lemma ClaimOneOff(s: Ledger, v: WatcherId, row: Watcher, owner: Owner, now: int, w: WatcherId, ws: Workspace, target: TargetKey)
    requires Off(s, w, ws, target) && v != w
    ensures Off(ClaimOne(s, v, row, owner, now).0, w, ws, target)
  {
    var t := Reconcile(s, row.workspace, now);
    ReconcileOff(s, row.workspace, now, w, ws, target);
    match CurrentGrant(s, row.workspace, now)
    case None =>
    case Some(grant) =>
      var waiting := WaitingBaselines(t.reservations, v, grant.period);
      if row.state == BaselinePending && waiting != {} {
        LeaseOff(t, v, row, First(waiting, OldestRank(t.reservations)), owner, now, w, ws, target);
      } else if Remaining(t, row.workspace, grant) >= 1 {
        var (u, chosen) := ReservationForClaim(t, v, row, grant.period, now);
        ForClaimOff(t, v, row, grant.period, now, w, ws, target);
        if chosen.Some? { LeaseOff(u, v, row, chosen.value, owner, now, w, ws, target); }
      }
  }

  lemma ForClaimOff(s: Ledger, v: WatcherId, row: Watcher, p: Period, now: int, w: WatcherId, ws: Workspace, target: TargetKey)
    requires Off(s, w, ws, target)
    ensures Off(ReservationForClaim(s, v, row, p, now).0, w, ws, target)
  {
  }

  lemma LeaseOff(s: Ledger, v: WatcherId, row: Watcher, r: ReservationId, owner: Owner, now: int, w: WatcherId, ws: Workspace, target: TargetKey)
    requires Off(s, w, ws, target) && v != w
    ensures Off(Lease(s, v, row, r, owner, now).0, w, ws, target)
  {
  }

  lemma {:induction false} ClaimEachOff(s: Ledger, read: Watchers, due: seq<WatcherId>, bounded: nat, owner: Owner, now: int,
                                        w: WatcherId, ws: Workspace, target: TargetKey)
    requires Off(s, w, ws, target) && w !in due
    ensures Off(ClaimEach(s, read, due, bounded, owner, now).0, w, ws, target)
  {
    if due != [] {
      var init, v := due[..|due| - 1], due[|due| - 1];
      ClaimEachOff(s, read, init, bounded, owner, now, w, ws, target);
      if v in read { ClaimOneOff(ClaimEach(s, read, init, bounded, owner, now).0, v, read[v], owner, now, w, ws, target); }
    }
  }

  lemma ClaimDueOff(s: Ledger, owner: Owner, limit: int, now: int, w: WatcherId, ws: Workspace, target: TargetKey)
    requires Inv(s) && Off(s, w, ws, target) && ClaimDue(s, owner, limit, now).Ok?
    ensures Off(ClaimDue(s, owner, limit, now).value.0, w, ws, target)
    ensures forall c :: c in ClaimDue(s, owner, limit, now).value.1 ==> c.watcher != w
  {
    var u := Reap(s, now);
    ReapOff(s, now, w, ws, target);
    DueIs(u.watchers, now, 4 * Bounded(limit));
    ClaimEachOff(u, u.watchers, DueList(u.watchers, now, 4 * Bounded(limit)), Bounded(limit), owner, now, w, ws, target);
    ClaimsAreOfReady(s, owner, limit, now);
  }

  lemma StepOff(s: Ledger, e: Event, w: WatcherId, ws: Workspace, target: TargetKey)
    requires Inv(s) && Off(s, w, ws, target) && !Names(e.step, w, ws, target)
    ensures Off(Apply(s, e), w, ws, target)
  {
    match e.step
    case SubscribeStep(whose, subscription) => ReconcileOff(s.(subscriptions := s.subscriptions[whose := subscription]), whose, e.now, w, ws, target);
    case ReconcileStep(whose) => ReconcileOff(s, whose, e.now, w, ws, target);
    case DisableStep(whose) => WorkspaceIsDisabled(s, whose, e.now);
    case ActivateStep(whose, input, expected) =>
      if Activate(s, whose, input, expected, e.now).Ok? { ActivateOff(s, whose, input, expected, e.now, w, ws, target); }
    case MutateStep(whose, v, mutation, guard) =>
      if MutateAsPreviewed(s, whose, v, mutation, guard, e.now).Ok? { MutateOff(s, whose, v, mutation, e.now, w, ws, target); }
    case DeleteStep(whose, v, seen) =>
    case ReapStep => ReapOff(s, e.now, w, ws, target);
    case ClaimStep(owner, limit) => if owner != "" { ClaimDueOff(s, owner, limit, e.now, w, ws, target); }
    case BeginStep(c) =>
    case ReleaseStep(c) =>
    case CompleteStep(c, outcome) => CompleteOff(s, c, outcome, e.now, w, ws, target);
  }

  lemma CompleteOff(s: Ledger, c: Claim, outcome: Outcome, now: int, w: WatcherId, ws: Workspace, target: TargetKey)
    requires Off(s, w, ws, target)
    ensures Off(Complete(s, c, outcome, now).0, w, ws, target)
  {
  }

  /** Over any run, a watcher that was disabled stays so, and nobody claims it, until a resumption or an activation
      names it. */
  lemma {:induction false} DisabledStays(s: Ledger, events: seq<Event>, w: WatcherId)
    requires Inv(s) && w in s.watchers && s.watchers[w].state == Disabled
    requires forall i :: 0 <= i < |events| ==> !Names(events[i].step, w, s.watchers[w].workspace, s.watchers[w].target)
    ensures Inv(Run(s, events)) && Off(Run(s, events), w, s.watchers[w].workspace, s.watchers[w].target)
  {
    if events != [] {
      var init := events[..|events| - 1];
      DisabledStays(s, init, w);
      StepOff(Run(s, init), events[|events| - 1], w, s.watchers[w].workspace, s.watchers[w].target);
      EveryStepIsSafe(Run(s, init), events[|events| - 1]);
    }
  }

  lemma DisabledIsNotClaimed(s: Ledger, events: seq<Event>, w: WatcherId, owner: Owner, limit: int, now: int)
    requires Inv(s) && w in s.watchers && s.watchers[w].state == Disabled && owner != ""
    requires forall i :: 0 <= i < |events| ==> !Names(events[i].step, w, s.watchers[w].workspace, s.watchers[w].target)
    ensures forall c :: c in ClaimDue(Run(s, events), owner, limit, now).value.1 ==> c.watcher != w
  {
    DisabledStays(s, events, w);
    ClaimDueOff(Run(s, events), owner, limit, now, w, s.watchers[w].workspace, s.watchers[w].target);
  }
}
