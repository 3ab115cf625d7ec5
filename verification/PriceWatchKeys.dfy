/** No two watchers of a workspace share a target and no two reservations of a watcher share a slot, so the
    unique keys of the tables never refuse a row. */
module PriceWatchKeys {
  import opened Wrappers
  import opened RowOrder
  import opened PriceWatchLedger
  import opened PriceWatchRuns

  ghost predicate TargetsApart(m: Watchers) {
    forall v, w :: v in m && w in m && m[v].workspace == m[w].workspace && m[v].target == m[w].target ==> v == w
  }

  /** Baseline tokens are drawn from the counter. */
  ghost predicate SlotsApart(m: Reservations, next: nat) {
    && (forall q, r :: q in m && r in m && m[q].watcher == m[r].watcher && m[q].slot == m[r].slot ==> q == r)
    && (forall r :: r in m && m[r].slot.BaselineSlot? ==> m[r].slot.token < next)
  }

  ghost predicate Keyed(s: Ledger) { TargetsApart(s.watchers) && SlotsApart(s.reservations, s.next) }

  /** No row is new and no key has changed. */
  ghost predicate KeysKept(s: Ledger, t: Ledger) {
    s.next <= t.next && TargetsKept(s.watchers, t.watchers) && SlotsKept(s.reservations, t.reservations)
  }

  ghost predicate TargetsKept(m: Watchers, n: Watchers) {
    forall w :: w in n ==> w in m && n[w].workspace == m[w].workspace && n[w].target == m[w].target
  }

  ghost predicate SlotsKept(m: Reservations, n: Reservations) {
    forall r :: r in n ==> r in m && n[r].watcher == m[r].watcher && n[r].slot == m[r].slot
  }

  lemma OneTargetKept(m: Watchers, w: WatcherId, row: Watcher)
    requires w in m && row.workspace == m[w].workspace && row.target == m[w].target
    ensures TargetsKept(m, m[w := row])
  {
  }

  lemma OneSlotKept(m: Reservations, r: ReservationId, row: Reservation)
    requires r in m && row.watcher == m[r].watcher && row.slot == m[r].slot
    ensures SlotsKept(m, m[r := row])
  {
  }

  lemma KeptIsKeyed(s: Ledger, t: Ledger)
    requires Keyed(s) && KeysKept(s, t)
    ensures Keyed(t)
  {
  }

  lemma KeptTrans(s: Ledger, t: Ledger, u: Ledger)
    requires KeysKept(s, t) && KeysKept(t, u)
    ensures KeysKept(s, u)
  {
  }

  lemma ReleasedSlots(m: Reservations, hit: set<ReservationId>)
    ensures SlotsKept(m, ReleaseReserved(m, hit))
  {
  }

  lemma ReconcileTargets(s: Ledger, ws: Workspace, now: int)
    ensures TargetsKept(s.watchers, Reconcile(s, ws, now).watchers)
  {
  }

  lemma ReconcileKept(s: Ledger, ws: Workspace, now: int)
    ensures KeysKept(s, Reconcile(s, ws, now))
  {
    ReconcileTargets(s, ws, now);
    ReleasedSlots(s.reservations, OfWorkspace(s.reservations, ws));
    if CurrentGrant(s, ws, now).Some? {
      ReleasedSlots(s.reservations, OutsidePeriod(s.reservations, ws, CurrentGrant(s, ws, now).value.period));
    }
  }

  lemma ReconcileKeyed(s: Ledger, ws: Workspace, now: int)
    requires Keyed(s)
    ensures Keyed(Reconcile(s, ws, now))
  {
    ReconcileKept(s, ws, now);
    KeptIsKeyed(s, Reconcile(s, ws, now));
  }

  lemma ReserveBaselineKeyed(s: Ledger, ws: Workspace, w: WatcherId, p: Period, now: int)
    requires Keyed(s)
    ensures Keyed(ReserveBaseline(s, ws, w, p, now))
  {
  }

  lemma ReopenKeyed(s: Ledger, ws: Workspace, w: WatcherId, cadence: Cadence, p: Period, now: int)
    requires Keyed(s) && w in s.watchers
    ensures Keyed(Reopen(s, ws, w, cadence, p, now))
  {
    var t := ReleaseWatcher(s, w);
    var u := t.(watchers := t.watchers[w := Reopened(t.watchers[w], cadence, now)]);
    KeptIsKeyed(s, u);
    ReserveBaselineKeyed(u, ws, w, p, now);
  }

  // ---- activation ----

  ghost predicate Held(m: Watchers, ws: Workspace, target: TargetKey) {
    exists w :: w in m && m[w].workspace == ws && m[w].target == target
  }

  /** Every watcher of t has the target that it had in s, or one of these. */
  ghost predicate OnlyThese(s: Watchers, t: Watchers, ws: Workspace, items: seq<Item>) {
    s.Keys <= t.Keys && forall w :: w in t ==>
      || (w in s && t[w].workspace == s[w].workspace && t[w].target == s[w].target)
      || exists i :: 0 <= i < |items| && t[w].workspace == ws && t[w].target == items[i].group.target
  }

  lemma BornApart(m: Watchers, w: WatcherId, born: Watcher)
    requires TargetsApart(m) && !Held(m, born.workspace, born.target)
    ensures TargetsApart(m[w := born])
  {
  }

  lemma CreateKeyed(s: Ledger, ws: Workspace, target: TargetKey, cadence: Cadence, p: Period, now: int)
    requires Keyed(s) && !Held(s.watchers, ws, target)
    ensures var born := Watcher(ws, target, cadence, BaselinePending, None, 0, now, "", EMPTY, now, now);
      Keyed(ReserveBaseline(s.(watchers := s.watchers[s.next := born], next := s.next + 1), ws, s.next, p, now))
  {
    var born := Watcher(ws, target, cadence, BaselinePending, None, 0, now, "", EMPTY, now, now);
    BornApart(s.watchers, s.next, born);
    ReserveBaselineKeyed(s.(watchers := s.watchers[s.next := born], next := s.next + 1), ws, s.next, p, now);
  }

  lemma ReuseKeyed(s: Ledger, ws: Workspace, w: WatcherId, cadence: Cadence, p: Period, now: int)
    requires Keyed(s) && w in s.watchers
    ensures var row := Recadenced(s.watchers[w], cadence, now, now);
      TargetsKept(s.watchers, s.watchers[w := row]) && Keyed(s.(watchers := s.watchers[w := row]))
    ensures var t := Reopen(s, ws, w, cadence, p, now); TargetsKept(s.watchers, t.watchers) && Keyed(t)
  {
    var row := Recadenced(s.watchers[w], cadence, now, now);
    OneTargetKept(s.watchers, w, row);
    KeptIsKeyed(s, s.(watchers := s.watchers[w := row]));
    OneTargetKept(s.watchers, w, Reopened(s.watchers[w], cadence, now));
    ReopenKeyed(s, ws, w, cadence, p, now);
  }

  lemma ActivateItemKeyed(s: Ledger, ws: Workspace, item: Item, cadence: Cadence, p: Period, now: int)
    requires Keyed(s)
    requires if item.existing.Some? then item.existing.value in s.watchers else !Held(s.watchers, ws, item.group.target)
    ensures var t := ActivateItem(s, ws, item, cadence, p, now); Keyed(t) && OnlyThese(s.watchers, t.watchers, ws, [item])
  {
    if item.existing.None? {
      CreateKeyed(s, ws, item.group.target, cadence, p, now);
      assert [item][0] == item;
    } else {
      ReuseKeyed(s, ws, item.existing.value, cadence, p, now);
    }
  }

  ghost predicate Resolved(m: Watchers, ws: Workspace, items: seq<Item>) {
    && (forall i :: 0 <= i < |items| ==> items[i].existing == Existing(m, ws, items[i].group.target))
    && forall i, j :: 0 <= i < j < |items| ==> items[i].group.target != items[j].group.target
  }

  lemma LastIsFree(s: Watchers, t: Watchers, ws: Workspace, items: seq<Item>)
    requires items != [] && Resolved(s, ws, items) && OnlyThese(s, t, ws, items[..|items| - 1])
    ensures var item := items[|items| - 1];
      if item.existing.Some? then item.existing.value in t else !Held(t, ws, item.group.target)
  {
    var item := items[|items| - 1];
    assert item.existing == Existing(s, ws, item.group.target);
    if item.existing.None? {
      forall w | w in t && t[w].workspace == ws
        ensures t[w].target != item.group.target
      {
        assert w in s && s[w].workspace == ws && s[w].target == item.group.target ==> w in Matching(s, ws, item.group.target);
      }
    }
  }

  lemma OnlyTheseTrans(s: Watchers, t: Watchers, u: Watchers, ws: Workspace, items: seq<Item>)
    requires items != [] && OnlyThese(s, t, ws, items[..|items| - 1]) && OnlyThese(t, u, ws, [items[|items| - 1]])
    ensures OnlyThese(s, u, ws, items)
  {
    var n := |items| - 1;
    forall w | w in u
      ensures (w in s && u[w].workspace == s[w].workspace && u[w].target == s[w].target)
        || exists i :: 0 <= i < |items| && u[w].workspace == ws && u[w].target == items[i].group.target
    {
      if !(w in t && u[w].workspace == t[w].workspace && u[w].target == t[w].target) {
        assert u[w].workspace == ws && u[w].target == items[n].group.target;
      } else if !(w in s && t[w].workspace == s[w].workspace && t[w].target == s[w].target) {
        var i :| 0 <= i < n && t[w].workspace == ws && t[w].target == items[..n][i].group.target;
        assert u[w].target == items[i].group.target;
      }
    }
  }

  lemma {:induction false} ActivateItemsKeyed(s: Ledger, ws: Workspace, items: seq<Item>, cadence: Cadence, p: Period, now: int)
    requires Keyed(s) && Resolved(s.watchers, ws, items)
    ensures var t := ActivateItems(s, ws, items, cadence, p, now); Keyed(t) && OnlyThese(s.watchers, t.watchers, ws, items)
  {
    if items != [] {
      var n := |items| - 1;
      var t := ActivateItems(s, ws, items[..n], cadence, p, now);
      ActivateItemsKeyed(s, ws, items[..n], cadence, p, now);
      LastIsFree(s.watchers, t.watchers, ws, items);
      ActivateItemKeyed(t, ws, items[n], cadence, p, now);
      OnlyTheseTrans(s.watchers, t.watchers, ActivateItem(t, ws, items[n], cadence, p, now).watchers, ws, items);
    }
  }

  lemma ActivateKeyed(s: Ledger, ws: Workspace, input: Activation, expected: Option<Fingerprint>, now: int)
    requires Keyed(s) && Activate(s, ws, input, expected, now).Ok?
    ensures Keyed(Activate(s, ws, input, expected, now).value.0)
  {
    var t, grant := Reconcile(s, ws, now), CurrentGrant(s, ws, now).value;
    ReconcileKeyed(s, ws, now);
    ActivateItemsKeyed(t, ws, ResolveActivation(t, ws, input, grant).items, input.cadence, grant.period, now);
  }

  // ---- the other transactions of customers ----

  lemma UpdateKept(s: Ledger, w: WatcherId, row: Watcher)
    requires w in s.watchers && row.workspace == s.watchers[w].workspace && row.target == s.watchers[w].target
    ensures KeysKept(s, s.(watchers := s.watchers[w := row]))
  {
  }

  lemma ReleaseKept(s: Ledger, w: WatcherId)
    ensures KeysKept(s, ReleaseWatcher(s, w))
  {
  }

  lemma ResumeKeyed(s: Ledger, ws: Workspace, w: WatcherId, row: Watcher, cadence: Cadence, grant: Grant, now: int)
    requires Keyed(s) && w in s.watchers && ResumeWatcher(s, ws, w, row, cadence, grant, now).Ok?
    ensures Keyed(ResumeWatcher(s, ws, w, row, cadence, grant, now).value)
  {
    var t := ResumeWatcher(s, ws, w, row, cadence, grant, now).value;
    if Runnable(row.state) || row.state == PausedCredits {
      UpdateKept(s, w, t.watchers[w]);
      KeptIsKeyed(s, t);
    } else {
      ReopenKeyed(s, ws, w, cadence, grant.period, now);
    }
  }

  lemma MutateKeyed(s: Ledger, ws: Workspace, w: WatcherId, input: Mutation, now: int)
    requires Keyed(s) && Mutate(s, ws, w, input, now).Ok?
    ensures Keyed(Mutate(s, ws, w, input, now).value)
  {
    var row := s.watchers[w];
    var cadence := if input.cadence.Some? then input.cadence.value else row.cadence;
    match input.action
    case Disable =>
      var t, off := ReleaseWatcher(s, w), row.(cadence := cadence, state := Disabled, owner := "", expires := EMPTY, updatedAt := now);
      ReleaseKept(s, w);
      KeptIsKeyed(s, t);
      UpdateKept(t, w, off);
      KeptIsKeyed(t, t.(watchers := t.watchers[w := off]));
      ReconcileKeyed(t.(watchers := t.watchers[w := off]), ws, now);
    case Resume =>
      ReconcileKeyed(s, ws, now);
      ResumeKeyed(Reconcile(s, ws, now), ws, w, row, cadence, CurrentGrant(s, ws, now).value, now);
    case CadenceOnly =>
      UpdateKept(s, w, Recadenced(row, cadence, EMPTY, now));
      KeptIsKeyed(s, s.(watchers := s.watchers[w := Recadenced(row, cadence, EMPTY, now)]));
      ReconcileKeyed(s.(watchers := s.watchers[w := Recadenced(row, cadence, EMPTY, now)]), ws, now);
  }

  // ---- workers ----

  lemma ReapRowKept(s: Ledger, r: ReservationId, seen: Watcher, now: int)
    ensures KeysKept(s, ReapRow(s, r, seen, now))
  {
    if r in s.reservations && s.reservations[r].watcher in s.watchers {
      var row, w, t := s.reservations[r], s.reservations[r].watcher, ReapRow(s, r, seen, now);
      if row.status == Reserved {
        OneSlotKept(s.reservations, r, Freed(row));
      } else {
        OneSlotKept(s.reservations, r, row.(status := Committed, owner := "", lease := EMPTY));
      }
      OneTargetKept(s.watchers, w, t.watchers[w]);
      assert t.watchers == s.watchers || t.watchers == s.watchers[w := t.watchers[w]];
    }
  }

  lemma {:induction false} ReapRowsKept(s: Ledger, read: Ledger, rows: seq<ReservationId>, now: int)
    ensures KeysKept(s, ReapRows(s, read, rows, now))
  {
    if rows != [] {
      var n := |rows| - 1;
      var t := ReapRows(s, read, rows[..n], now);
      ReapRowsKept(s, read, rows[..n], now);
      if rows[n] in read.reservations && read.reservations[rows[n]].watcher in read.watchers {
        var seen := read.watchers[read.reservations[rows[n]].watcher];
        ReapRowKept(t, rows[n], seen, now);
        KeptTrans(s, t, ReapRow(t, rows[n], seen, now));
      }
    }
  }

  lemma ReapKeyed(s: Ledger, now: int)
    requires Keyed(s)
    ensures Keyed(Reap(s, now))
  {
    ReapRowsKept(s, s, OrderBy(Expired(s, now), LeaseRank(s.reservations)), now);
    KeptIsKeyed(s, Reap(s, now));
  }

  /** A slot is inserted only when the watcher has no row for it. */
  lemma ForSlotKeyed(s: Ledger, w: WatcherId, row: Watcher, p: Period, now: int)
    requires Keyed(s)
    ensures Keyed(ReservationForSlot(s, w, row, p, now).0)
  {
    var slot := ScheduledSlot(if row.nextCheck == EMPTY then now else row.nextCheck);
    if AtSlot(s.reservations, w, slot) != {} {
      KeptIsKeyed(s, ReservationForSlot(s, w, row, p, now).0);
    } else {
      assert forall r :: r in s.reservations && s.reservations[r].watcher == w && s.reservations[r].slot == slot ==>
        r in AtSlot(s.reservations, w, slot);
    }
  }

  lemma ForClaimKeyed(s: Ledger, w: WatcherId, row: Watcher, p: Period, now: int)
    requires Keyed(s)
    ensures Keyed(ReservationForClaim(s, w, row, p, now).0)
  {
    ForSlotKeyed(s, w, row, p, now);
    var baselines, t := Baselines(s.reservations, w), ReservationForClaim(s, w, row, p, now).0;
    if row.state == BaselinePending && baselines != {} {
      var r := First(baselines, NewestRank(s.reservations));
      if s.reservations[r].status == Released {
        OneSlotKept(s.reservations, r, Revived(s.reservations[r], row.workspace, p));
        KeptIsKeyed(s, t);
      }
    }
  }

  lemma LeaseKept(s: Ledger, w: WatcherId, row: Watcher, r: ReservationId, owner: Owner, now: int)
    ensures KeysKept(s, Lease(s, w, row, r, owner, now).0)
  {
    var t := Lease(s, w, row, r, owner, now).0;
    if r in s.reservations { OneSlotKept(s.reservations, r, t.reservations[r]); }
    if w in s.watchers { OneTargetKept(s.watchers, w, t.watchers[w]); }
  }

  lemma LeaseKeyed(s: Ledger, w: WatcherId, row: Watcher, r: ReservationId, owner: Owner, now: int)
    requires Keyed(s)
    ensures Keyed(Lease(s, w, row, r, owner, now).0)
  {
    LeaseKept(s, w, row, r, owner, now);
    KeptIsKeyed(s, Lease(s, w, row, r, owner, now).0);
  }

  lemma ClaimOneKeyed(s: Ledger, w: WatcherId, row: Watcher, owner: Owner, now: int)
    requires Keyed(s)
    ensures Keyed(ClaimOne(s, w, row, owner, now).0)
  {
    var t := Reconcile(s, row.workspace, now);
    ReconcileKeyed(s, row.workspace, now);
    match CurrentGrant(s, row.workspace, now)
    case None =>
    case Some(grant) =>
      var waiting := WaitingBaselines(t.reservations, w, grant.period);
      if row.state == BaselinePending && waiting != {} {
        LeaseKeyed(t, w, row, First(waiting, OldestRank(t.reservations)), owner, now);
      } else if Remaining(t, row.workspace, grant) < 1 {
        KeptIsKeyed(t, ClaimOne(s, w, row, owner, now).0);
      } else {
        var (u, chosen) := ReservationForClaim(t, w, row, grant.period, now);
        ForClaimKeyed(t, w, row, grant.period, now);
        if chosen.Some? { LeaseKeyed(u, w, row, chosen.value, owner, now); }
      }
  }

  lemma {:induction false} ClaimEachKeyed(s: Ledger, read: Watchers, due: seq<WatcherId>, bounded: nat, owner: Owner, now: int)
    requires Keyed(s)
    ensures Keyed(ClaimEach(s, read, due, bounded, owner, now).0)
  {
    if due != [] {
      var n := |due| - 1;
      ClaimEachKeyed(s, read, due[..n], bounded, owner, now);
      var (t, claims) := ClaimEach(s, read, due[..n], bounded, owner, now);
      if |claims| < bounded && due[n] in read { ClaimOneKeyed(t, due[n], read[due[n]], owner, now); }
    }
  }

  lemma ClaimDueKeyed(s: Ledger, owner: Owner, limit: int, now: int)
    requires Keyed(s) && owner != ""
    ensures Keyed(ClaimDue(s, owner, limit, now).value.0)
  {
    var t := Reap(s, now);
    ReapKeyed(s, now);
    ClaimEachKeyed(t, t.watchers, DueList(t.watchers, now, 4 * Bounded(limit)), Bounded(limit), owner, now);
  }

  // ---- runs ----

  lemma CustomerStepKeyed(s: Ledger, e: Event)
    requires Keyed(s) && (e.step.ActivateStep? || e.step.MutateStep?)
    ensures Keyed(Apply(s, e))
  {
    match e.step
    case ActivateStep(ws, input, expected) =>
      if Activate(s, ws, input, expected, e.now).Ok? { ActivateKeyed(s, ws, input, expected, e.now); }
    case MutateStep(ws, w, mutation, guard) =>
      if MutateAsPreviewed(s, ws, w, mutation, guard, e.now).Ok? { MutateKeyed(s, ws, w, mutation, e.now); }
  }

  /** Transactions that insert nothing. */
  lemma QuietStepKept(s: Ledger, e: Event)
    requires e.step.DeleteStep? || e.step.DisableStep? || e.step.BeginStep? || e.step.ReleaseStep? || e.step.CompleteStep?
    ensures KeysKept(s, Apply(s, e))
  {
    match e.step
    case BeginStep(c) =>
      if c.reservation in s.reservations { OneSlotKept(s.reservations, c.reservation, s.reservations[c.reservation].(status := Attempting)); }
    case ReleaseStep(c) => ReleaseClaimKept(s, c, e.now);
    case CompleteStep(c, outcome) => CompleteKept(s, c, outcome, e.now);
    case _ =>
  }

  lemma ReleaseClaimKept(s: Ledger, c: Claim, now: int)
    ensures KeysKept(s, ReleaseClaim(s, c, now).0)
  {
    var t := ReleaseClaim(s, c, now).0;
    if c.reservation in s.reservations { OneSlotKept(s.reservations, c.reservation, t.reservations[c.reservation]); }
    if c.watcher in s.watchers { OneTargetKept(s.watchers, c.watcher, t.watchers[c.watcher]); }
  }

  lemma SettleKept(w: Watcher, outcome: Outcome, now: int)
    ensures Settle(w, outcome, now).workspace == w.workspace && Settle(w, outcome, now).target == w.target
  {
  }

  lemma CompleteSlots(s: Ledger, c: Claim, outcome: Outcome, now: int)
    ensures SlotsKept(s.reservations, Complete(s, c, outcome, now).0.reservations)
  {
    if c.reservation in s.reservations {
      OneSlotKept(s.reservations, c.reservation, s.reservations[c.reservation].(status := Committed, owner := "", lease := EMPTY));
    }
  }

  lemma CompleteTargets(s: Ledger, c: Claim, outcome: Outcome, now: int)
    ensures TargetsKept(s.watchers, Complete(s, c, outcome, now).0.watchers)
  {
    if c.watcher in s.watchers {
      SettleKept(s.watchers[c.watcher], outcome, now);
      OneTargetKept(s.watchers, c.watcher, Settle(s.watchers[c.watcher], outcome, now));
    }
  }

  lemma CompleteKept(s: Ledger, c: Claim, outcome: Outcome, now: int)
    ensures KeysKept(s, Complete(s, c, outcome, now).0)
  {
    CompleteSlots(s, c, outcome, now);
    CompleteTargets(s, c, outcome, now);
  }

  lemma EveryStepKeepsKeys(s: Ledger, e: Event)
    requires Keyed(s)
    ensures Keyed(Apply(s, e))
  {
    match e.step
    case SubscribeStep(ws, subscription) =>
      var t := s.(subscriptions := s.subscriptions[ws := subscription]);
      KeptIsKeyed(s, t);
      ReconcileKeyed(t, ws, e.now);
    case ReconcileStep(ws) => ReconcileKeyed(s, ws, e.now);
    case ReapStep => ReapKeyed(s, e.now);
    case ClaimStep(owner, limit) => if owner != "" { ClaimDueKeyed(s, owner, limit, e.now); }
    case ActivateStep(_, _, _) => CustomerStepKeyed(s, e);
    case MutateStep(_, _, _, _) => CustomerStepKeyed(s, e);
    case _ =>
      QuietStepKept(s, e);
      KeptIsKeyed(s, Apply(s, e));
  }

  /** In every reachable state a target has at most one watcher in its workspace and a slot at most one
      reservation, so no insertion is ever refused, and looking one up finds the only one. */
  lemma {:induction false} ReachableKeysAreUnique(events: seq<Event>)
    ensures Keyed(Run(START, events))
  {
    if events != [] {
      ReachableKeysAreUnique(events[..|events| - 1]);
      EveryStepKeepsKeys(Run(START, events[..|events| - 1]), events[|events| - 1]);
    }
  }

  lemma ExistingIsTheOnlyOne(s: Ledger, ws: Workspace, target: TargetKey, w: WatcherId)
    requires Keyed(s) && w in s.watchers && s.watchers[w].workspace == ws && s.watchers[w].target == target
    ensures Existing(s.watchers, ws, target) == Some(w)
  {
    assert w in Matching(s.watchers, ws, target);
  }
}
