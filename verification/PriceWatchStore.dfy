/** The price-watch tables updated in place, one method per transaction. A transaction that throws is
    rolled back. */
module PriceWatchStore {
  import opened Wrappers
  import opened RowOrder
  import opened PriceWatchLedger

  class Store {
    var subscriptions: map<Workspace, Subscription>
    var entitlements: map<(Workspace, Period), Entitlement>
    var watchers: Watchers
    var reservations: Reservations
    var observations: map<ReservationId, Observation>
    var next: nat

    function Db(): Ledger
      reads this
    {
      Ledger(subscriptions, entitlements, watchers, reservations, observations, next)
    }

    constructor ()
      ensures Db() == Ledger(map[], map[], map[], map[], map[], 0)
    {
      subscriptions, entitlements, watchers := map[], map[], map[];
      reservations, observations, next := map[], map[], 0;
    }

    method Restore(s: Ledger)
      modifies this
      ensures Db() == s
    {
      subscriptions, entitlements, watchers := s.subscriptions, s.entitlements, s.watchers;
      reservations, observations, next := s.reservations, s.observations, s.next;
    }

    // ---- subscriptions ----

    method Reconcile(ws: Workspace, now: int) returns (grant: Option<Grant>)
      modifies this
      ensures Db() == PriceWatchLedger.Reconcile(old(Db()), ws, now)
      ensures grant == CurrentGrant(old(Db()), ws, now)
    {
      grant := CurrentGrant(Db(), ws, now);
      if grant.None? {
        reservations := ReleaseReserved(reservations, OfWorkspace(reservations, ws));
        watchers := map w | w in watchers :: if watchers[w].workspace == ws then PauseForSubscription(watchers[w], now) else watchers[w];
        return;
      }
      var p := grant.value.period;
      var existing := (ws, p) in entitlements;
      entitlements := entitlements[(ws, p) := Entitlement(grant.value.plan, grant.value.allocation,
                                                          if existing then entitlements[(ws, p)].purged else 0)];
      reservations := ReleaseReserved(reservations, OutsidePeriod(reservations, ws, p));
      if !existing {
        watchers := map w | w in watchers :: if watchers[w].workspace == ws then WakeForPeriod(watchers[w], now) else watchers[w];
      }
      assert watchers == PriceWatchLedger.Reconcile(old(Db()), ws, now).watchers;
    }

    method Subscribe(ws: Workspace, subscription: Subscription, now: int)
      modifies this
      ensures Db() == PriceWatchLedger.Subscribe(old(Db()), ws, subscription, now)
    {
      subscriptions := subscriptions[ws := subscription];
      var _ := Reconcile(ws, now);
    }

    method DisableWorkspace(ws: Workspace, now: int) returns (disabled: nat, released: nat)
      modifies this
      ensures Db() == PriceWatchLedger.DisableWorkspace(old(Db()), ws, now)
      ensures disabled == |set w | w in old(watchers) && old(watchers)[w].workspace == ws && old(watchers)[w].state != Disabled|
      ensures released == |set r | r in old(reservations) && old(reservations)[r].workspace == ws && old(reservations)[r].status == Reserved|
    {
      released := |set r | r in reservations && reservations[r].workspace == ws && reservations[r].status == Reserved|;
      disabled := |set w | w in watchers && watchers[w].workspace == ws && watchers[w].state != Disabled|;
      reservations := ReleaseReserved(reservations, OfWorkspace(reservations, ws));
      watchers := map w | w in watchers ::
        if watchers[w].workspace == ws && watchers[w].state != Disabled
        then watchers[w].(state := Disabled, owner := "", expires := EMPTY, nextCheck := EMPTY, updatedAt := now) else watchers[w];
    }

    // ---- activation ----

    method ReserveBaseline(ws: Workspace, w: WatcherId, p: Period, now: int)
      modifies this
      ensures Db() == PriceWatchLedger.ReserveBaseline(old(Db()), ws, w, p, now)
    {
      reservations := reservations[next := Reservation(ws, w, p, BaselineSlot(next), Reserved, "", EMPTY, now)];
      next := next + 1;
    }

    method Reopen(ws: Workspace, w: WatcherId, cadence: Cadence, p: Period, now: int)
      requires w in watchers
      modifies this
      ensures Db() == PriceWatchLedger.Reopen(old(Db()), ws, w, cadence, p, now)
    {
      reservations := ReleaseReserved(reservations, OfWatcher(reservations, w));
      watchers := watchers[w := Reopened(watchers[w], cadence, now)];
      ReserveBaseline(ws, w, p, now);
    }

    method ActivateItem(ws: Workspace, item: Item, cadence: Cadence, p: Period, now: int)
      modifies this
      ensures Db() == PriceWatchLedger.ActivateItem(old(Db()), ws, item, cadence, p, now)
    {
      if item.existing.None? || item.existing.value !in watchers {
        var w := next;
        watchers := watchers[w := Watcher(ws, item.group.target, cadence, BaselinePending, None, 0, now, "", EMPTY, now, now)];
        next := next + 1;
        ReserveBaseline(ws, w, p, now);
      } else {
        var w := item.existing.value;
        if Runnable(watchers[w].state) {
          watchers := watchers[w := Recadenced(watchers[w], cadence, now, now)];
        } else {
          Reopen(ws, w, cadence, p, now);
        }
      }
    }

    method Group(targets: seq<Eligible>) returns (groups: seq<PriceWatchLedger.Group>)
      ensures groups == GroupTargets(targets)
    {
      groups := [];
      for n := 0 to |targets|
        invariant groups == GroupTargets(targets[..n])
      {
        var t := targets[n];
        var k := GroupIndex(groups, t.target);
        assert targets[..n + 1][..n] == targets[..n];
        if k < |groups| {
          groups := groups[k := PriceWatchLedger.Group(t.target, groups[k].links + [t.matchId])];
        } else {
          groups := groups + [PriceWatchLedger.Group(t.target, [t.matchId])];
        }
      }
      assert targets[..|targets|] == targets;
    }

    method Plan(ws: Workspace, input: Activation, grant: Grant) returns (plan: Resolution)
      ensures plan == ResolveActivation(Db(), ws, input, grant)
    {
      var groups := Group(input.targets);
      var items := Resolve(watchers, ws, groups);
      var credits := 0;
      for n := 0 to |items|
        invariant credits == BaselineCredits(watchers, items[..n])
      {
        assert items[..n + 1][..n] == items[..n];
        if NeedsBaseline(watchers, items[n]) { credits := credits + 1; }
      }
      assert items[..|items|] == items;
      var before := UsageOf(Db(), ws, Some(grant));
      plan := Resolution(grant, items, credits, before,
        Fingerprint(input.report, input.cadence, input.selection, grant.period, before, TargetImpacts(watchers, items)));
    }

    method ActivateEach(ws: Workspace, items: seq<Item>, cadence: Cadence, p: Period, now: int) returns (created: nat, reused: nat)
      modifies this
      ensures Db() == ActivateItems(old(Db()), ws, items, cadence, p, now)
      ensures created == CreatedCount(items) && reused == |items| - CreatedCount(items)
    {
      created, reused := 0, 0;
      for n := 0 to |items|
        invariant Db() == ActivateItems(old(Db()), ws, items[..n], cadence, p, now)
        invariant created == CreatedCount(items[..n]) && created + reused == n
      {
        assert items[..n + 1][..n] == items[..n];
        ActivateItem(ws, items[n], cadence, p, now);
        if items[n].existing.None? { created := created + 1; } else { reused := reused + 1; }
      }
      assert items[..|items|] == items;
    }

    method ActivateReconciled(ws: Workspace, input: Activation, expected: Option<Fingerprint>, grant: Grant, now: int)
      returns (r: Result<ActivationResult, Error>)
      modifies this
      ensures match PriceWatchLedger.ActivateReconciled(old(Db()), ws, input, expected, grant, now)
        case Ok(done) => Db() == done.0 && r == Ok(done.1)
        case Err(e) => r == Err(e)
    {
      var plan := Plan(ws, input, grant);
      if expected.Some? && expected.value != plan.fingerprint { return Err(ImpactChanged); }
      if plan.before.used + plan.credits > grant.allocation { return Err(InsufficientCredits); }
      var created, reused := ActivateEach(ws, plan.items, input.cadence, grant.period, now);
      r := Ok(ActivationResult(created, reused, plan.credits, UsageOf(Db(), ws, Some(grant))));
    }

    method Activate(ws: Workspace, input: Activation, expected: Option<Fingerprint>, now: int)
      returns (r: Result<ActivationResult, Error>)
      modifies this
      ensures match PriceWatchLedger.Activate(old(Db()), ws, input, expected, now)
        case Ok(done) => Db() == done.0 && r == Ok(done.1)
        case Err(e) => Db() == old(Db()) && r == Err(e)
    {
      var before := Db();
      if input.targets == [] { return Err(NoEligibleTargets); }
      var grant := Reconcile(ws, now);
      if grant.None? { Restore(before); return Err(SubscriptionRequired); }
      r := ActivateReconciled(ws, input, expected, grant.value, now);
      if r.Err? { Restore(before); }
    }

    // ---- mutation and deletion ----

    method Resume(ws: Workspace, w: WatcherId, row: Watcher, cadence: Cadence, grant: Grant, now: int) returns (r: Option<Error>)
      requires w in watchers
      modifies this
      ensures match ResumeWatcher(old(Db()), ws, w, row, cadence, grant, now)
        case Ok(t) => Db() == t && r.None?
        case Err(e) => r == Some(e)
    {
      if Runnable(row.state) {
        watchers := watchers[w := watchers[w].(cadence := cadence,
          nextCheck := if row.state == Active then now + CadenceMs(cadence) else if row.nextCheck == EMPTY then now else row.nextCheck,
          updatedAt := now)];
      } else if row.state == PausedCredits {
        if Remaining(Db(), ws, grant) < 1 { return Some(InsufficientCredits); }
        watchers := watchers[w := watchers[w].(cadence := cadence,
          state := if HasPositiveBaseline(row) then PriceWatchLedger.Active else BaselinePending, failures := 0, nextCheck := now,
          owner := "", expires := EMPTY, updatedAt := now)];
      } else {
        if Remaining(Db(), ws, grant) < 1 { return Some(InsufficientCredits); }
        Reopen(ws, w, cadence, grant.period, now);
      }
      r := None;
    }

    method Mutate(ws: Workspace, w: WatcherId, input: Mutation, expected: Option<MutationFingerprint>, now: int)
      returns (r: Result<(Watcher, Usage), Error>)
      modifies this
      ensures match MutateAsPreviewed(old(Db()), ws, w, input, expected, now)
        case Ok(done) => Db() == done.0 && r == Ok((done.1, done.2))
        case Err(e) => Db() == old(Db()) && r == Err(e)
    {
      var before := Db();
      var preview := PreviewMutation(before, ws, w, input, now);
      if preview.Err? { return Err(preview.error); }
      if expected.Some? && expected.value != preview.value.fingerprint { return Err(ImpactChanged); }
      var error := Change(ws, w, input, now);
      if error.Some? { Restore(before); return Err(error.value); }
      r := Ok((watchers[w], UsageOf(Db(), ws, CurrentGrant(Db(), ws, now))));
    }

    method Change(ws: Workspace, w: WatcherId, input: Mutation, now: int) returns (r: Option<Error>)
      requires CheckMutation(Db(), ws, w, input, now).None?
      modifies this
      ensures match PriceWatchLedger.Mutate(old(Db()), ws, w, input, now)
        case Ok(t) => Db() == t && r.None?
        case Err(e) => r == Some(e)
    {
      var row := watchers[w];
      var cadence := if input.cadence.Some? then input.cadence.value else row.cadence;
      r := None;
      match input.action
      case Disable =>
        reservations := ReleaseReserved(reservations, OfWatcher(reservations, w));
        watchers := watchers[w := row.(cadence := cadence, state := Disabled, owner := "", expires := EMPTY, updatedAt := now)];
        var _ := Reconcile(ws, now);
      case Resume =>
        var grant := Reconcile(ws, now);
        r := Resume(ws, w, row, cadence, grant.value, now);
      case CadenceOnly =>
        watchers := watchers[w := Recadenced(row, cadence, EMPTY, now)];
        var _ := Reconcile(ws, now);
    }

    /** Debits are rolled up one period at a time; a period without an entitlement row stops it. */
    method ChargeDebits(ws: Workspace, w: WatcherId) returns (preserved: bool)
      modifies `entitlements
      ensures preserved <==> Covered(old(Db()), ws, DebitPeriods(reservations, w))
      ensures preserved ==> entitlements == RollUp(old(Db()), ws, w)
    {
      ghost var before, done := Db(), {};
      var left := DebitPeriods(reservations, w);
      ChargeStart(before, ws, w);
      while left != {}
        invariant Charging(before, ws, w, left, done, entitlements)
        decreases |left|
      {
        var p :| p in left;
        ChargeOne(before, ws, w, left, done, p, entitlements);
        if (ws, p) !in entitlements { return false; }
        entitlements := entitlements[(ws, p) :=
          entitlements[(ws, p)].(purged := entitlements[(ws, p)].purged + |Debits(reservations, w, p)|)];
        left, done := left - {p}, done + {p};
      }
      ChargeEnd(before, ws, w, done, entitlements);
      preserved := true;
    }

    method Delete(ws: Workspace, w: WatcherId, expected: Option<DeletionFingerprint>) returns (r: Option<Error>)
      modifies this
      ensures match DeleteAsPreviewed(old(Db()), ws, w, expected)
        case Ok(t) => Db() == t && r.None?
        case Err(e) => Db() == old(Db()) && r == Some(e)
    {
      var before := Db();
      var preview := PreviewDeletion(before, ws, w);
      if preview.Err? { return Some(preview.error); }
      if expected.Some? && expected.value != preview.value { return Some(ImpactChanged); }
      var preserved := ChargeDebits(ws, w);
      if !preserved { Restore(before); return Some(DebitNotPreserved); }
      var gone := OfWatcher(reservations, w);
      watchers := watchers - {w};
      reservations := reservations - gone;
      observations := observations - gone;
      r := None;
    }

    // ---- leases ----

    method Reap(now: int) returns (released: nat, unknown: nat)
      modifies this
      ensures Db() == PriceWatchLedger.Reap(old(Db()), now)
      ensures released == |ExpiredIn(old(Db()), now, Reserved)| && unknown == |ExpiredIn(old(Db()), now, Attempting)|
    {
      var read := Db();
      var rows := OrderBy(Expired(read, now), LeaseRank(reservations));
      released, unknown := ReapEach(read, rows, now);
      AllRows(read, rows, now);
      reservations := ClearFinished(reservations, now);
    }

    method ReapEach(read: Ledger, rows: seq<ReservationId>, now: int) returns (released: nat, unknown: nat)
      requires Db() == read && Distinct(rows) && forall r :: r in rows ==> r in Expired(read, now)
      modifies this
      ensures Db() == ReapRows(read, read, rows, now)
      ensures released == |InStatus(read, rows, Reserved)| && unknown == |InStatus(read, rows, Attempting)|
    {
      released, unknown := 0, 0;
      for n := 0 to |rows|
        invariant Db() == ReapRows(read, read, rows[..n], now)
        invariant released == |InStatus(read, rows[..n], Reserved)| && unknown == |InStatus(read, rows[..n], Attempting)|
      {
        assert rows[..n + 1][..n] == rows[..n];
        assert rows[n] in Expired(read, now);
        NextRow(read, rows, n, now);
        var given := ReapOne(rows[n], read.watchers[read.reservations[rows[n]].watcher], now);
        if given { released := released + 1; } else { unknown := unknown + 1; }
      }
      assert rows[..|rows|] == rows;
    }

    /** Was the row given back? Otherwise its attempt was committed. */
    method ReapOne(r: ReservationId, seen: Watcher, now: int) returns (given: bool)
      modifies this
      ensures Db() == ReapRow(old(Db()), r, seen, now)
      ensures given <==> r in old(reservations) && old(reservations)[r].watcher in old(watchers) && old(reservations)[r].status == Reserved
    {
      given := false;
      if r !in reservations || reservations[r].watcher !in watchers { return; }
      var row, w := reservations[r], reservations[r].watcher;
      if row.status == Reserved {
        reservations := reservations[r := Freed(row)];
        if watchers[w].expires <= now {
          watchers := watchers[w := watchers[w].(nextCheck := now, owner := "", expires := EMPTY, updatedAt := now)];
        }
        given := true;
      } else {
        var failures := seen.failures + 1;
        var paused := Runnable(seen.state) && failures >= 3;
        if row.status == Attempting { reservations := reservations[r := row.(status := Committed, owner := "", lease := EMPTY)]; }
        watchers := watchers[w := watchers[w].(state := if paused then PausedFailure else seen.state, failures := failures,
          nextCheck := now + CadenceMs(seen.cadence), owner := "", expires := EMPTY, updatedAt := now)];
      }
    }

    // ---- claims ----

    method ForSlot(w: WatcherId, row: Watcher, p: Period, now: int) returns (chosen: Option<ReservationId>)
      modifies this
      ensures (Db(), chosen) == ReservationForSlot(old(Db()), w, row, p, now)
    {
      var slot := ScheduledSlot(if row.nextCheck == EMPTY then now else row.nextCheck);
      var existing := AtSlot(reservations, w, slot);
      if existing == {} {
        reservations := reservations[next := Reservation(row.workspace, w, p, slot, Reserved, "", EMPTY, now)];
        next := next + 1;
        return Some(next - 1);
      }
      var r := First(existing, OldestRank(reservations));
      if reservations[r].status != Released { return None; }
      reservations := reservations[r := Revived(reservations[r], row.workspace, p)];
      chosen := Some(r);
    }

    method ForClaim(w: WatcherId, row: Watcher, p: Period, now: int) returns (chosen: Option<ReservationId>)
      modifies this
      ensures (Db(), chosen) == ReservationForClaim(old(Db()), w, row, p, now)
    {
      var baselines := Baselines(reservations, w);
      if row.state == BaselinePending && baselines != {} {
        var r := First(baselines, NewestRank(reservations));
        var latest := reservations[r];
        if latest.status == Reserved && latest.period == p && latest.owner == "" { return Some(r); }
        if latest.status == Released {
          reservations := reservations[r := Revived(latest, row.workspace, p)];
          return Some(r);
        }
      }
      chosen := ForSlot(w, row, p, now);
    }

    method LeaseRow(w: WatcherId, row: Watcher, r: ReservationId, owner: Owner, now: int) returns (claim: Option<Claim>)
      modifies this
      ensures (Db(), claim) == Lease(old(Db()), w, row, r, owner, now)
    {
      if r !in reservations || reservations[r].status != Reserved || reservations[r].owner != "" { return None; }
      var lease := now + WATCHER_LEASE_MS;
      reservations := reservations[r := reservations[r].(owner := owner, lease := lease)];
      if w in watchers && Runnable(watchers[w].state) && (watchers[w].owner == "" || watchers[w].expires <= now) {
        watchers := watchers[w := watchers[w].(owner := owner, expires := lease, updatedAt := now)];
        return Some(Claim(r, w, row.workspace, row.state, if HasPositiveBaseline(row) then row.baseline else None, owner, lease));
      }
      reservations := reservations[r := reservations[r].(owner := "", lease := EMPTY)];
      assert reservations == old(reservations)[r := old(reservations)[r].(owner := "", lease := EMPTY)];
      claim := None;
    }

    method ClaimOne(w: WatcherId, row: Watcher, owner: Owner, now: int) returns (claim: Option<Claim>)
      modifies this
      ensures (Db(), claim) == PriceWatchLedger.ClaimOne(old(Db()), w, row, owner, now)
    {
      var grant := Reconcile(row.workspace, now);
      if grant.None? { return None; }
      var waiting := WaitingBaselines(reservations, w, grant.value.period);
      if row.state == BaselinePending && waiting != {} {
        claim := LeaseRow(w, row, First(waiting, OldestRank(reservations)), owner, now);
        return;
      }
      if Remaining(Db(), row.workspace, grant.value) < 1 {
        if w in watchers && Runnable(watchers[w].state) {
          watchers := watchers[w := watchers[w].(state := PausedCredits, owner := "", expires := EMPTY, updatedAt := now)];
        }
        return None;
      }
      var chosen := ForClaim(w, row, grant.value.period, now);
      if chosen.None? { return None; }
      claim := LeaseRow(w, row, chosen.value, owner, now);
    }

    method ClaimDue(owner: Owner, limit: int, now: int) returns (r: Result<seq<Claim>, Error>)
      modifies this
      ensures match PriceWatchLedger.ClaimDue(old(Db()), owner, limit, now)
        case Ok(done) => Db() == done.0 && r == Ok(done.1)
        case Err(e) => Db() == old(Db()) && r == Err(e)
    {
      if owner == "" { return Err(OwnerRequired); }
      var bounded := Bounded(limit);
      var _, _ := Reap(now);
      var claims := ClaimEach(DueList(watchers, now, 4 * bounded), bounded, owner, now);
      r := Ok(claims);
    }

    method ClaimEach(due: seq<WatcherId>, bounded: nat, owner: Owner, now: int) returns (claims: seq<Claim>)
      requires forall w :: w in due ==> w in watchers
      modifies this
      ensures (Db(), claims) == PriceWatchLedger.ClaimEach(old(Db()), old(watchers), due, bounded, owner, now)
    {
      ghost var start := Db();
      var read := watchers;
      claims := [];
      var n := 0;
      while n < |due| && |claims| < bounded
        invariant n <= |due|
        invariant (Db(), claims) == PriceWatchLedger.ClaimEach(start, read, due[..n], bounded, owner, now)
      {
        NextClaim(start, read, due, n, bounded, owner, now);
        var claim := ClaimOne(due[n], read[due[n]], owner, now);
        claims := Appended(claims, claim);
        n := n + 1;
      }
      FullIsFinal(start, read, due, n, bounded, owner, now);
    }

    // ---- attempts ----

    method Begin(c: Claim, now: int) returns (begun: bool)
      modifies this
      ensures (Db(), begun) == PriceWatchLedger.Begin(old(Db()), c, now)
    {
      begun := Holds(Db(), c, now);
      if begun { reservations := reservations[c.reservation := reservations[c.reservation].(status := Attempting)]; }
    }

    method Release(c: Claim, now: int) returns (released: bool)
      modifies this
      ensures (Db(), released) == ReleaseClaim(old(Db()), c, now)
    {
      released := c.reservation in reservations && reservations[c.reservation].watcher == c.watcher
        && reservations[c.reservation].status == Reserved && reservations[c.reservation].owner == c.owner;
      if !released { return; }
      reservations := reservations[c.reservation := Freed(reservations[c.reservation])];
      if c.watcher in watchers && watchers[c.watcher].owner == c.owner {
        watchers := watchers[c.watcher := watchers[c.watcher].(nextCheck := now, owner := "", expires := EMPTY, updatedAt := now)];
      }
    }

    method Complete(c: Claim, outcome: Outcome, now: int) returns (r: Completion)
      modifies this
      ensures (Db(), r) == PriceWatchLedger.Complete(old(Db()), c, outcome, now)
    {
      var before := Db();
      var found := c.reservation in reservations && reservations[c.reservation].watcher == c.watcher;
      if found && reservations[c.reservation].status == Committed { return Completion(true, false, "replayed"); }
      if !found || reservations[c.reservation].status != Attempting || reservations[c.reservation].owner != c.owner {
        return Completion(false, false, "");
      }
      reservations := reservations[c.reservation := reservations[c.reservation].(status := Committed, owner := "", lease := EMPTY)];
      if c.watcher !in watchers || watchers[c.watcher].workspace != c.workspace { return Completion(false, false, ""); }
      var row := watchers[c.watcher];
      watchers := watchers[c.watcher := Settle(row, outcome, now)];
      match outcome
      case Failure => r := Completion(true, Runnable(row.state) && row.failures + 1 >= 3, "check-failed");
      case Inconclusive => r := Completion(true, Runnable(row.state) && row.failures + 1 >= 3, "confirmation-inconclusive");
      case Baseline(price) =>
        Observe(c.reservation, Observation("baseline", price));
        r := Completion(true, false, "baseline");
      case Unchanged => r := Completion(true, false, "unchanged");
      case Change(price) =>
        if c.baseline.None? { Restore(before); return Completion(false, false, "error"); }
        var kind := EventType(c.baseline.value, price);
        Observe(c.reservation, Observation(kind, price));
        r := Completion(true, false, kind);
    }

    /** INSERT OR IGNORE, one observation per reservation. */
    method Observe(r: ReservationId, observation: Observation)
      modifies `observations
      ensures observations == if r in old(observations) then old(observations) else old(observations)[r := observation]
    {
      if r !in observations { observations := observations[r := observation]; }
    }
  }

  predicate Covered(s: Ledger, ws: Workspace, periods: set<Period>) {
    forall p :: p in periods ==> (ws, p) in s.entitlements
  }

  /** The entitlements with the debits of some periods rolled up. */
  function Charged(s: Ledger, ws: Workspace, w: WatcherId, done: set<Period>): map<(Workspace, Period), Entitlement> {
    map k | k in s.entitlements ::
      if k.0 == ws && k.1 in done
      then s.entitlements[k].(purged := s.entitlements[k].purged + |Debits(s.reservations, w, k.1)|) else s.entitlements[k]
  }

  /** Part of the debits is rolled up, and the rest is left. */
  ghost predicate Charging(s: Ledger, ws: Workspace, w: WatcherId, left: set<Period>, done: set<Period>,
                           m: map<(Workspace, Period), Entitlement>) {
    left !! done && left + done == DebitPeriods(s.reservations, w) && Covered(s, ws, done) && m == Charged(s, ws, w, done)
  }

  lemma ChargeStart(s: Ledger, ws: Workspace, w: WatcherId)
    ensures Charging(s, ws, w, DebitPeriods(s.reservations, w), {}, s.entitlements)
  {
  }

  lemma ChargeOne(s: Ledger, ws: Workspace, w: WatcherId, left: set<Period>, done: set<Period>, p: Period,
                  m: map<(Workspace, Period), Entitlement>)
    requires Charging(s, ws, w, left, done, m) && p in left
    ensures (ws, p) !in m ==> !Covered(s, ws, DebitPeriods(s.reservations, w))
    ensures (ws, p) in m ==>
      var debited := m[(ws, p)].(purged := m[(ws, p)].purged + |Debits(s.reservations, w, p)|);
      Charging(s, ws, w, left - {p}, done + {p}, m[(ws, p) := debited])
  {
    assert p in DebitPeriods(s.reservations, w);
    if (ws, p) in m {
      assert (left - {p}) + (done + {p}) == left + done;
    }
  }

  /** A period without debits has nothing to roll up. */
  lemma ChargeEnd(s: Ledger, ws: Workspace, w: WatcherId, done: set<Period>, m: map<(Workspace, Period), Entitlement>)
    requires Charging(s, ws, w, {}, done, m)
    ensures Covered(s, ws, DebitPeriods(s.reservations, w)) && m == RollUp(s, ws, w)
  {
    assert done == DebitPeriods(s.reservations, w);
  }

  ghost predicate Distinct(rows: seq<ReservationId>) { forall i, j :: 0 <= i < j < |rows| ==> rows[i] != rows[j] }

  /** The rows listed that were read in this status. */
  function InStatus(s: Ledger, rows: seq<ReservationId>, status: Status): set<ReservationId> {
    set r | r in rows && r in s.reservations && s.reservations[r].status == status
  }

  /** Reaping some rows leaves the reservations of all others alone, and every watcher stored. */
  lemma {:induction false} ReapedElsewhere(s: Ledger, rows: seq<ReservationId>, now: int, r: ReservationId)
    requires r !in rows && r in s.reservations
    ensures var t := ReapRows(s, s, rows, now);
      r in t.reservations && t.reservations[r] == s.reservations[r] && s.watchers.Keys <= t.watchers.Keys
  {
    if rows != [] { ReapedElsewhere(s, rows[..|rows| - 1], now, r); }
  }

  predicate CountedOnce(s: Ledger, rows: seq<ReservationId>, n: nat, status: Status)
    requires n < |rows| && rows[n] in s.reservations
  {
    |InStatus(s, rows[..n + 1], status)| == |InStatus(s, rows[..n], status)| + (if s.reservations[rows[n]].status == status then 1 else 0)
  }

  /** The next row is met as it was read, and counted once. */
  lemma NextRow(s: Ledger, rows: seq<ReservationId>, n: nat, now: int)
    requires n < |rows| && rows[n] in Expired(s, now) && Distinct(rows)
    ensures var t, r := ReapRows(s, s, rows[..n], now), rows[n];
      r in t.reservations && t.reservations[r] == s.reservations[r] && s.reservations[r].watcher in t.watchers
    ensures CountedOnce(s, rows, n, Reserved) && CountedOnce(s, rows, n, Attempting)
  {
    ReapedElsewhere(s, rows[..n], now, rows[n]);
    forall status
      ensures CountedOnce(s, rows, n, status)
    {
      var before := InStatus(s, rows[..n], status);
      assert InStatus(s, rows[..n + 1], status) == before + (if s.reservations[rows[n]].status == status then {rows[n]} else {});
    }
  }

  lemma AllRows(s: Ledger, rows: seq<ReservationId>, now: int)
    requires forall r :: r in rows <==> r in Expired(s, now)
    ensures InStatus(s, rows, Reserved) == ExpiredIn(s, now, Reserved) && InStatus(s, rows, Attempting) == ExpiredIn(s, now, Attempting)
  {
  }

  function Appended(claims: seq<Claim>, claim: Option<Claim>): seq<Claim> {
    if claim.None? then claims else claims + [claim.value]
  }

  /** One more candidate. */
  lemma NextClaim(s: Ledger, read: Watchers, due: seq<WatcherId>, n: nat, bounded: nat, owner: Owner, now: int)
    requires n < |due| && due[n] in read && |ClaimEach(s, read, due[..n], bounded, owner, now).1| < bounded
    ensures var (t, claims) := ClaimEach(s, read, due[..n], bounded, owner, now);
      var (u, claim) := ClaimOne(t, due[n], read[due[n]], owner, now);
      ClaimEach(s, read, due[..n + 1], bounded, owner, now) == (u, Appended(claims, claim))
  {
    assert due[..n + 1][..n] == due[..n];
  }

  /** Once a worker's claims are full the remaining candidates change nothing. */
  lemma {:induction false} FullIsFinal(s: Ledger, read: Watchers, due: seq<WatcherId>, n: nat, bounded: nat, owner: Owner, now: int)
    requires n <= |due|
    requires n < |due| ==> |ClaimEach(s, read, due[..n], bounded, owner, now).1| >= bounded
    ensures ClaimEach(s, read, due, bounded, owner, now) == ClaimEach(s, read, due[..n], bounded, owner, now)
  {
    if n < |due| {
      var m := |due| - 1;
      assert due[..m][..n] == due[..n];
      FullIsFinal(s, read, due[..m], n, bounded, owner, now);
    } else {
      assert due[..n] == due;
    }
  }
}
