/** Which watchers a worker's claim takes, in what order, and what it takes them with. */
module PriceWatchDue {
  import opened Wrappers
  import opened Collections
  import opened RowOrder
  import opened PriceWatchLedger
  import opened PriceWatchInvariants
  import opened PriceWatchClaims

  /** Active or waiting for a first price, its time come, and nobody's. */
  ghost predicate Ready(w: Watcher, now: int) {
    (w.state == Active || w.state == BaselinePending) && w.nextCheck <= now && (w.owner == "" || w.expires <= now)
  }

  // ---- the list of candidates ----

  ghost predicate Sorted(m: Watchers, due: seq<WatcherId>) {
    && (forall i :: 0 <= i < |due| ==> due[i] in m)
    && forall i, j :: 0 <= i < j < |due| ==> due[i] != due[j] && m[due[i]].nextCheck <= m[due[j]].nextCheck
  }

  /** The list is full of watchers that are due no later than v. */
  ghost predicate Crowded(m: Watchers, due: seq<WatcherId>, v: WatcherId, limit: nat)
    requires v in m && Sorted(m, due)
  {
    |due| == limit && v !in due && forall i :: 0 <= i < |due| ==> m[due[i]].nextCheck <= m[v].nextCheck
  }

  lemma Listed(m: Watchers, now: int, ids: seq<WatcherId>, due: seq<WatcherId>, limit: nat, v: WatcherId)
    requires Sorted(m, ids) && due == (if |ids| <= limit then ids else ids[..limit]) && v in ids
    ensures Sorted(m, due) && (v in due || Crowded(m, due, v, limit))
  {
    var k :| 0 <= k < |ids| && ids[k] == v;
    if k < |due| { assert due[k] == v; }
  }

  lemma OrderIsSorted(m: Watchers, ids: set<WatcherId>)
    requires ids <= m.Keys
    ensures Sorted(m, OrderBy(ids, DueRank(m)))
  {
    var r := OrderBy(ids, DueRank(m));
    assert forall w :: w in r ==> w in ids;
    forall i, j | 0 <= i < j < |r|
      ensures m[r[i]].nextCheck <= m[r[j]].nextCheck
    {
      assert Below(DueRank(m), r[i], r[j]);
    }
  }

  /** The query without its limit. */
  lemma DueOrder(m: Watchers, now: int, limit: nat) returns (ids: seq<WatcherId>)
    ensures Sorted(m, ids) && DueList(m, now, limit) == if |ids| <= limit then ids else ids[..limit]
    ensures forall v :: v in ids <==> v in m && Ready(m[v], now)
  {
    var due := set w | w in m && Due(m[w], now);
    ids := OrderBy(due, DueRank(m));
    OrderIsSorted(m, due);
    assert forall v :: v in due <==> v in m && Ready(m[v], now);
  }

  lemma DueIs(m: Watchers, now: int, limit: nat)
    ensures var due := DueList(m, now, limit);
      && Sorted(m, due) && (forall w :: w in due ==> Ready(m[w], now))
      && forall v :: v in m && Ready(m[v], now) ==> v in due || Crowded(m, due, v, limit)
  {
    var ids := DueOrder(m, now, limit);
    CutIs(m, ids, DueList(m, now, limit), limit, now);
  }

  lemma CutIs(m: Watchers, ids: seq<WatcherId>, due: seq<WatcherId>, limit: nat, now: int)
    requires Sorted(m, ids) && due == (if |ids| <= limit then ids else ids[..limit])
    requires forall v :: v in ids <==> v in m && Ready(m[v], now)
    ensures Sorted(m, due) && (forall w :: w in due ==> Ready(m[w], now))
    ensures forall v :: v in m && Ready(m[v], now) ==> v in due || Crowded(m, due, v, limit)
  {
    forall v | v in m && Ready(m[v], now)
      ensures v in due || Crowded(m, due, v, limit)
    {
      Listed(m, now, ids, due, limit, v);
    }
  }

  // ---- what one candidate's turn does to the others ----

  /** A row of the period that its workspace is in. */
  ghost predicate InForce(s: Ledger, row: Reservation, now: int) {
    var grant := CurrentGrant(s, row.workspace, now);
    grant.Some? && row.period == grant.value.period
  }

  /** A watcher stays as it is, unless its workspace has no plan, or its credits are renewed. */
  ghost predicate Stays(s: Ledger, t: Ledger, x: WatcherId, now: int)
    requires x in s.watchers
  {
    var grant := CurrentGrant(s, s.watchers[x].workspace, now);
    x in t.watchers && t.watchers[x].workspace == s.watchers[x].workspace
    && (t.watchers[x] == s.watchers[x] || grant.None?
        || (s.watchers[x].state == PausedCredits && (s.watchers[x].workspace, grant.value.period) !in s.entitlements))
  }

  /** A row stays as it is, unless it is reserved for a period that is over. */
  ghost predicate RowStays(s: Ledger, t: Ledger, r: ReservationId, now: int)
    requires r in s.reservations
  {
    var a := s.reservations[r];
    r in t.reservations
    && (t.reservations[r] == a || (a.status == Reserved && !InForce(s, a, now) && t.reservations[r] == Freed(a)))
  }

  /** One turn, v's: other watchers and their rows stay, rows that count go on counting, and a period that is
      open stays open. */
  ghost predicate Turned(s: Ledger, t: Ledger, v: WatcherId, now: int) {
    && t.subscriptions == s.subscriptions
    && (forall k :: k in s.entitlements ==> k in t.entitlements && t.entitlements[k].purged == s.entitlements[k].purged)
    && (forall x :: x in s.watchers && x != v ==> Stays(s, t, x, now))
    && (forall r :: r in s.reservations && s.reservations[r].watcher != v ==> RowStays(s, t, r, now))
    && (forall r :: r in t.reservations && r !in s.reservations ==> t.reservations[r].watcher == v)
    && (forall r :: r in s.reservations ==>
      r in t.reservations && t.reservations[r].watcher == s.reservations[r].watcher && t.reservations[r].slot == s.reservations[r].slot)
    && (forall r :: r in s.reservations && s.reservations[r].status != Released && InForce(s, s.reservations[r], now) ==>
      t.reservations[r].status != Released && t.reservations[r].period == s.reservations[r].period
      && t.reservations[r].workspace == s.reservations[r].workspace)
  }

  lemma SameGrant(s: Ledger, t: Ledger, ws: Workspace, now: int)
    requires t.subscriptions == s.subscriptions
    ensures CurrentGrant(t, ws, now) == CurrentGrant(s, ws, now)
  {
  }

  lemma ReconcileTurns(s: Ledger, ws: Workspace, v: WatcherId, now: int)
    ensures Turned(s, Reconcile(s, ws, now), v, now)
  {
  }

  lemma TurnedTrans(s: Ledger, t: Ledger, u: Ledger, v: WatcherId, now: int)
    requires Turned(s, t, v, now) && Turned(t, u, v, now)
    ensures Turned(s, u, v, now)
  {
    forall ws
      ensures CurrentGrant(t, ws, now) == CurrentGrant(s, ws, now)
    {
    }
  }

  // ---- one turn ----

  ghost predicate FreshIds(s: Ledger) { s.next !in s.reservations }

  lemma InvIsFresh(s: Ledger)
    requires Inv(s)
    ensures FreshIds(s)
  {
    forall r | r in s.reservations
      ensures r != s.next
    {
      assert RowOk(s, r);
    }
  }

  lemma RowAddedTurns(s: Ledger, v: WatcherId, row: Reservation, now: int)
    requires FreshIds(s) && row.watcher == v
    ensures Turned(s, s.(reservations := s.reservations[s.next := row], next := s.next + 1), v, now)
  {
  }

  lemma RowRevivedTurns(s: Ledger, v: WatcherId, r: ReservationId, row: Reservation, now: int)
    requires r in s.reservations && s.reservations[r].watcher == row.watcher == v && row.slot == s.reservations[r].slot
    requires s.reservations[r].status == Released
    ensures Turned(s, s.(reservations := s.reservations[r := row]), v, now)
  {
  }

  lemma NothingTurns(s: Ledger, v: WatcherId, now: int)
    ensures Turned(s, s, v, now)
  {
  }

  lemma ForSlotTurns(s: Ledger, v: WatcherId, row: Watcher, p: Period, now: int)
    requires FreshIds(s)
    ensures Turned(s, ReservationForSlot(s, v, row, p, now).0, v, now)
  {
    var slot := ScheduledSlot(if row.nextCheck == EMPTY then now else row.nextCheck);
    var existing := AtSlot(s.reservations, v, slot);
    if existing == {} {
      RowAddedTurns(s, v, Reservation(row.workspace, v, p, slot, Reserved, "", EMPTY, now), now);
    } else {
      var r := First(existing, OldestRank(s.reservations));
      if s.reservations[r].status == Released { RowRevivedTurns(s, v, r, Revived(s.reservations[r], row.workspace, p), now); } else { NothingTurns(s, v, now); }
    }
  }

  lemma ForClaimTurns(s: Ledger, v: WatcherId, row: Watcher, p: Period, now: int)
    requires FreshIds(s)
    ensures Turned(s, ReservationForClaim(s, v, row, p, now).0, v, now)
  {
    var baselines := Baselines(s.reservations, v);
    ForSlotTurns(s, v, row, p, now);
    NothingTurns(s, v, now);
    if row.state == BaselinePending && baselines != {} {
      var r := First(baselines, NewestRank(s.reservations));
      if s.reservations[r].status == Released { RowRevivedTurns(s, v, r, Revived(s.reservations[r], row.workspace, p), now); }
    }
  }

  lemma LeaseTurns(s: Ledger, v: WatcherId, row: Watcher, r: ReservationId, owner: Owner, now: int)
    requires r in s.reservations ==> s.reservations[r].watcher == v
    ensures Turned(s, Lease(s, v, row, r, owner, now).0, v, now)
  {
    NothingTurns(s, v, now);
    if r in s.reservations && s.reservations[r].status == Reserved {
      var t := Lease(s, v, row, r, owner, now).0;
      RowOwnedTurns(s, v, r, owner, now + WATCHER_LEASE_MS, now);
      RowOwnedTurns(s, v, r, "", EMPTY, now);
      var u := s.(reservations := t.reservations);
      PauseTurns(u, t, v, now);
      TurnedTrans(s, u, t, v, now);
    }
  }

  lemma RowOwnedTurns(s: Ledger, v: WatcherId, r: ReservationId, owner: Owner, lease: int, now: int)
    requires r in s.reservations && s.reservations[r].watcher == v
    ensures Turned(s, s.(reservations := s.reservations[r := s.reservations[r].(owner := owner, lease := lease)]), v, now)
  {
  }

  /** A reservation that v can be given. */
  ghost predicate Offered(s: Ledger, v: WatcherId, ws: Workspace, p: Period, r: ReservationId) {
    r in s.reservations && s.reservations[r].watcher == v && s.reservations[r].workspace == ws && s.reservations[r].period == p
    && s.reservations[r].status == Reserved && s.reservations[r].owner == ""
  }

  /** What a worker is given. */
  ghost predicate Given(t: Ledger, c: Claim, v: WatcherId, row: Watcher, owner: Owner, now: int) {
    && c.watcher == v && c.owner == owner && c.lease == now + 600_000 && c.workspace == row.workspace && c.state == row.state
    && c.baseline == (if row.baseline.Some? && row.baseline.value.amount > 0 then row.baseline else None)
    && Held(t, c, now) && RightSlot(t.reservations[c.reservation].slot, row, now)
  }

  /** A check is for the time it was due, or for a first price. */
  ghost predicate RightSlot(slot: Slot, row: Watcher, now: int) {
    slot == ScheduledSlot(if row.nextCheck == EMPTY then now else row.nextCheck) || (row.state == BaselinePending && slot.BaselineSlot?)
  }

  /** The tables say that the reservation and the watcher of the claim are its owner's until its lease ends. */
  ghost predicate Held(t: Ledger, c: Claim, now: int) {
    && c.reservation in t.reservations && c.watcher in t.watchers
    && InForce(t, t.reservations[c.reservation], now)
    && t.reservations[c.reservation].watcher == c.watcher && t.reservations[c.reservation].workspace == c.workspace
    && t.reservations[c.reservation].status == Reserved
    && t.reservations[c.reservation].owner == c.owner && t.reservations[c.reservation].lease == c.lease
    && t.watchers[c.watcher].workspace == c.workspace && t.watchers[c.watcher].owner == c.owner && t.watchers[c.watcher].expires == c.lease
    && (t.watchers[c.watcher].state == Active || t.watchers[c.watcher].state == BaselinePending)
  }

  lemma LeaseGives(s: Ledger, v: WatcherId, row: Watcher, r: ReservationId, owner: Owner, now: int, grant: Grant)
    requires CurrentGrant(s, row.workspace, now) == Some(grant) && Offered(s, v, row.workspace, grant.period, r)
    requires v in s.watchers && s.watchers[v] == row && Ready(row, now) && RightSlot(s.reservations[r].slot, row, now)
    ensures var (t, claim) := Lease(s, v, row, r, owner, now); claim.Some? && Given(t, claim.value, v, row, owner, now)
  {
  }

  /** The watcher has used the slot that it is due for. */
  ghost predicate SlotUsed(s: Ledger, v: WatcherId, row: Watcher, now: int) {
    exists r :: r in s.reservations && s.reservations[r].watcher == v && s.reservations[r].status != Released
      && s.reservations[r].slot == ScheduledSlot(if row.nextCheck == EMPTY then now else row.nextCheck)
  }

  lemma ForSlotOffers(s: Ledger, v: WatcherId, row: Watcher, p: Period, now: int)
    ensures var (t, chosen) := ReservationForSlot(s, v, row, p, now);
      if chosen.Some? then Offered(t, v, row.workspace, p, chosen.value) else SlotUsed(s, v, row, now)
  {
  }

  lemma ForSlotRight(s: Ledger, v: WatcherId, row: Watcher, p: Period, now: int)
    ensures var (t, chosen) := ReservationForSlot(s, v, row, p, now);
      chosen.Some? ==> chosen.value in t.reservations && RightSlot(t.reservations[chosen.value].slot, row, now)
  {
  }

  lemma ForClaimRight(s: Ledger, v: WatcherId, row: Watcher, p: Period, now: int)
    ensures var (t, chosen) := ReservationForClaim(s, v, row, p, now);
      chosen.Some? ==> chosen.value in t.reservations && RightSlot(t.reservations[chosen.value].slot, row, now)
  {
    ForSlotRight(s, v, row, p, now);
  }

  lemma ForClaimOffers(s: Ledger, v: WatcherId, row: Watcher, p: Period, now: int)
    requires forall r :: r in s.reservations && s.reservations[r].watcher == v ==> s.reservations[r].workspace == row.workspace
    ensures var (t, chosen) := ReservationForClaim(s, v, row, p, now);
      t.watchers == s.watchers && t.subscriptions == s.subscriptions
      && if chosen.Some? then Offered(t, v, row.workspace, p, chosen.value) else SlotUsed(s, v, row, now)
  {
    ForSlotOffers(s, v, row, p, now);
  }

  /** All credits of the running period are used. */
  ghost predicate Exhausted(t: Ledger, ws: Workspace, now: int) {
    var grant := CurrentGrant(t, ws, now);
    grant.Some? && (ws, grant.value.period) in t.entitlements && Used(t, ws, grant.value.period) >= MonitoringCredits(grant.value.plan)
  }

  // ---- a whole turn ----

  lemma ReconcileKeepsReady(s: Ledger, ws: Workspace, v: WatcherId, now: int)
    requires v in s.watchers && Ready(s.watchers[v], now) && CurrentGrant(s, ws, now).Some?
    ensures var t := Reconcile(s, ws, now); v in t.watchers && t.watchers[v] == s.watchers[v]
    ensures var p := CurrentGrant(s, ws, now).value.period; (ws, p) in Reconcile(s, ws, now).entitlements
  {
  }

  lemma OwnRows(s: Ledger, v: WatcherId, row: Watcher)
    requires Inv(s) && v in s.watchers && s.watchers[v].workspace == row.workspace
    ensures forall r :: r in s.reservations && s.reservations[r].watcher == v ==> s.reservations[r].workspace == row.workspace
  {
    forall r | r in s.reservations && s.reservations[r].watcher == v
      ensures s.reservations[r].workspace == row.workspace
    {
      assert RowOk(s, r);
    }
  }

  lemma ClaimOneTurns(s: Ledger, v: WatcherId, row: Watcher, owner: Owner, now: int)
    requires Inv(s)
    ensures Turned(s, ClaimOne(s, v, row, owner, now).0, v, now)
  {
    var t, end := Reconcile(s, row.workspace, now), ClaimOne(s, v, row, owner, now).0;
    ReconcileTurns(s, row.workspace, v, now);
    ReconcileKeeps(s, row.workspace, now);
    InvIsFresh(t);
    match CurrentGrant(s, row.workspace, now)
    case None =>
    case Some(grant) =>
      var waiting := WaitingBaselines(t.reservations, v, grant.period);
      if row.state == BaselinePending && waiting != {} {
        LeaseTurns(t, v, row, First(waiting, OldestRank(t.reservations)), owner, now);
      } else if Remaining(t, row.workspace, grant) < 1 {
        PauseTurns(t, end, v, now);
      } else {
        var (u, chosen) := ReservationForClaim(t, v, row, grant.period, now);
        ForClaimTurns(t, v, row, grant.period, now);
        if chosen.Some? {
          ChosenIsOwn(t, v, row, grant.period, now);
          LeaseTurns(u, v, row, chosen.value, owner, now);
          TurnedTrans(t, u, end, v, now);
        }
      }
      TurnedTrans(s, t, end, v, now);
  }

  lemma ChosenIsOwn(s: Ledger, v: WatcherId, row: Watcher, p: Period, now: int)
    ensures var (t, chosen) := ReservationForClaim(s, v, row, p, now);
      chosen.Some? && chosen.value in t.reservations ==> t.reservations[chosen.value].watcher == v
  {
  }

  lemma PauseTurns(s: Ledger, t: Ledger, v: WatcherId, now: int)
    requires t == s.(watchers := t.watchers) && (t.watchers == s.watchers || (v in t.watchers && t.watchers == s.watchers[v := t.watchers[v]]))
    ensures Turned(s, t, v, now)
  {
  }

  /** A baseline credit of the running period that waits for v. */
  ghost predicate SetAside(s: Ledger, v: WatcherId, ws: Workspace, r: ReservationId, now: int) {
    && r in s.reservations && s.reservations[r].watcher == v && s.reservations[r].workspace == ws && s.reservations[r].slot.BaselineSlot?
    && s.reservations[r].status == Reserved && s.reservations[r].owner == "" && InForce(s, s.reservations[r], now)
  }

  /** The oldest of them. */
  ghost predicate OldestAside(s: Ledger, v: WatcherId, ws: Workspace, r: ReservationId, now: int) {
    SetAside(s, v, ws, r, now)
    && forall q :: SetAside(s, v, ws, q, now) ==> s.reservations[r].createdAt <= s.reservations[q].createdAt
  }

  /** A watcher that waits for its first price is given the credit that was set aside for it. */
  ghost predicate UsesBaseline(s: Ledger, v: WatcherId, row: Watcher, r: ReservationId, now: int) {
    row.state == BaselinePending && (exists q :: SetAside(s, v, row.workspace, q, now)) ==> OldestAside(s, v, row.workspace, r, now)
  }

  lemma BaselineFirst(s: Ledger, v: WatcherId, row: Watcher, owner: Owner, now: int)
    requires Inv(s) && v in s.watchers && s.watchers[v].workspace == row.workspace
    ensures var claim := ClaimOne(s, v, row, owner, now).1; claim.Some? ==> UsesBaseline(s, v, row, claim.value.reservation, now)
  {
    var t := Reconcile(s, row.workspace, now);
    if q :| row.state == BaselinePending && SetAside(s, v, row.workspace, q, now) {
      var grant := CurrentGrant(s, row.workspace, now).value;
      var waiting := WaitingBaselines(t.reservations, v, grant.period);
      assert t.reservations[q] == s.reservations[q] && q in waiting;
      var r := First(waiting, OldestRank(t.reservations));
      OwnRows(s, v, row);
      assert r in s.reservations && t.reservations[r] == s.reservations[r];
      forall x | SetAside(s, v, row.workspace, x, now)
        ensures s.reservations[r].createdAt <= s.reservations[x].createdAt
      {
        assert t.reservations[x] == s.reservations[x] && x in waiting;
      }
    }
  }

  ghost predicate GivenBackBaseline(s: Ledger, v: WatcherId, r: ReservationId) {
    r in s.reservations && s.reservations[r].watcher == v && s.reservations[r].slot.BaselineSlot? && s.reservations[r].status == Released
  }

  /** Where such credits were all given back, the newest is taken up again, and no new one. */
  lemma BaselineTakenUp(s: Ledger, v: WatcherId, row: Watcher, owner: Owner, now: int)
    requires row.state == BaselinePending && exists r :: GivenBackBaseline(s, v, r)
    requires forall r :: r in s.reservations && s.reservations[r].watcher == v && s.reservations[r].slot.BaselineSlot? ==> s.reservations[r].status == Released
    ensures var claim := ClaimOne(s, v, row, owner, now).1; claim.Some? ==>
      GivenBackBaseline(s, v, claim.value.reservation)
      && forall r :: GivenBackBaseline(s, v, r) ==> s.reservations[r].createdAt <= s.reservations[claim.value.reservation].createdAt
  {
    if CurrentGrant(s, row.workspace, now).Some? {
      var t := Reconcile(s, row.workspace, now);
      forall r | GivenBackBaseline(s, v, r)
        ensures r in Baselines(t.reservations, v) && t.reservations[r] == s.reservations[r]
      {
      }
      forall r | r in Baselines(t.reservations, v)
        ensures GivenBackBaseline(s, v, r)
      {
      }
      var newest := First(Baselines(t.reservations, v), NewestRank(t.reservations));
    }
  }

  /** What a turn ends in: a claim, or one of three reasons. */
  ghost predicate Reason(s: Ledger, t: Ledger, v: WatcherId, row: Watcher, now: int) {
    || CurrentGrant(s, row.workspace, now).None?
    || SlotUsed(s, v, row, now)
    || (v in t.watchers && t.watchers[v].state == PausedCredits && Exhausted(t, row.workspace, now))
  }

  lemma SlotWasUsed(s: Ledger, t: Ledger, v: WatcherId, row: Watcher, ws: Workspace, now: int)
    requires t == Reconcile(s, ws, now) && SlotUsed(t, v, row, now)
    ensures SlotUsed(s, v, row, now)
  {
    var r :| r in t.reservations && t.reservations[r].watcher == v && t.reservations[r].status != Released
      && t.reservations[r].slot == ScheduledSlot(if row.nextCheck == EMPTY then now else row.nextCheck);
    assert r in s.reservations && s.reservations[r].watcher == v && s.reservations[r].slot == t.reservations[r].slot && s.reservations[r].status != Released;
  }

  lemma ClaimOneGives(s: Ledger, v: WatcherId, row: Watcher, owner: Owner, now: int)
    requires Inv(s) && v in s.watchers && s.watchers[v].workspace == row.workspace && Ready(row, now)
    requires CurrentGrant(s, row.workspace, now).Some? ==> s.watchers[v] == row
    ensures var (t, claim) := ClaimOne(s, v, row, owner, now);
      if claim.Some? then Given(t, claim.value, v, row, owner, now) else Reason(s, t, v, row, now)
  {
    var t, end := Reconcile(s, row.workspace, now), ClaimOne(s, v, row, owner, now).0;
    match CurrentGrant(s, row.workspace, now)
    case None =>
    case Some(grant) =>
      ReconcileKeepsReady(s, row.workspace, v, now);
      ReconcileKeeps(s, row.workspace, now);
      OwnRows(t, v, row);
      SameGrant(s, t, row.workspace, now);
      var waiting := WaitingBaselines(t.reservations, v, grant.period);
      if row.state == BaselinePending && waiting != {} {
        LeaseGives(t, v, row, First(waiting, OldestRank(t.reservations)), owner, now, grant);
      } else if Remaining(t, row.workspace, grant) < 1 {
        PausedIsExhausted(t, end, v, row.workspace, grant, now);
      } else {
        var (u, chosen) := ReservationForClaim(t, v, row, grant.period, now);
        ForClaimOffers(t, v, row, grant.period, now);
        ForClaimRight(t, v, row, grant.period, now);
        if chosen.Some? {
          SameGrant(t, u, row.workspace, now);
          LeaseGives(u, v, row, chosen.value, owner, now, grant);
        } else {
          SlotWasUsed(s, t, v, row, row.workspace, now);
        }
      }
  }

  lemma PausedIsExhausted(s: Ledger, t: Ledger, v: WatcherId, ws: Workspace, grant: Grant, now: int)
    requires t == s.(watchers := t.watchers) && CurrentGrant(s, ws, now) == Some(grant) && (ws, grant.period) in s.entitlements
    requires Remaining(s, ws, grant) < 1
    ensures Exhausted(t, ws, now)
  {
  }

  // ---- all turns ----

  /** What has become of a candidate whose turn is over. */
  ghost predicate Fate(u: Ledger, t: Ledger, claims: seq<Claim>, v: WatcherId, bounded: nat, now: int)
    requires v in u.watchers
  {
    || (exists c :: c in claims && c.watcher == v)
    || Reason(u, t, v, u.watchers[v], now)
    || (|claims| == bounded && forall c :: c in claims ==> c.watcher in u.watchers && u.watchers[c.watcher].nextCheck <= u.watchers[v].nextCheck)
  }

  /** A candidate whose turn has not come. */
  ghost predicate Waiting(u: Ledger, t: Ledger, v: WatcherId, now: int)
    requires v in u.watchers
  {
    && v in t.watchers && t.watchers[v].workspace == u.watchers[v].workspace
    && (t.watchers[v] == u.watchers[v] || CurrentGrant(u, u.watchers[v].workspace, now).None?)
    && (forall r :: r in t.reservations && t.reservations[r].watcher == v ==>
      r in u.reservations && (t.reservations[r] == u.reservations[r] || t.reservations[r] == Freed(u.reservations[r])))
    && (forall r :: r in u.reservations && u.reservations[r].watcher == v && InForce(u, u.reservations[r], now) ==>
      r in t.reservations && t.reservations[r] == u.reservations[r])
  }

  lemma WaitingStays(u: Ledger, s: Ledger, t: Ledger, v: WatcherId, x: WatcherId, now: int)
    requires x in u.watchers && x != v && Ready(u.watchers[x], now) && Waiting(u, s, x, now) && Turned(s, t, v, now)
    requires s.subscriptions == u.subscriptions
    ensures Waiting(u, t, x, now)
  {
    SameGrant(u, s, u.watchers[x].workspace, now);
    assert Stays(s, t, x, now);
    forall r | r in t.reservations && t.reservations[r].watcher == x
      ensures r in u.reservations && (t.reservations[r] == u.reservations[r] || t.reservations[r] == Freed(u.reservations[r]))
    {
      assert r in s.reservations && s.reservations[r].watcher == x && RowStays(s, t, r, now);
    }
    forall r | r in u.reservations && u.reservations[r].watcher == x && InForce(u, u.reservations[r], now)
      ensures r in t.reservations && t.reservations[r] == u.reservations[r]
    {
      SameGrant(u, s, u.reservations[r].workspace, now);
      assert RowStays(s, t, r, now);
    }
  }

  lemma HeldStays(s: Ledger, t: Ledger, v: WatcherId, c: Claim, now: int)
    requires Held(s, c, now) && Turned(s, t, v, now) && c.watcher != v
    ensures Held(t, c, now)
  {
    SameGrant(s, t, c.workspace, now);
    assert RowStays(s, t, c.reservation, now) && Stays(s, t, c.watcher, now);
  }

  lemma ExhaustedStays(s: Ledger, t: Ledger, v: WatcherId, ws: Workspace, now: int)
    requires Exhausted(s, ws, now) && Turned(s, t, v, now)
    ensures Exhausted(t, ws, now)
  {
    var p := CurrentGrant(s, ws, now).value.period;
    SameGrant(s, t, ws, now);
    SubsetSize(Counted(s.reservations, ws, p), Counted(t.reservations, ws, p));
  }

  lemma ReasonStays(u: Ledger, s: Ledger, t: Ledger, v: WatcherId, x: WatcherId, now: int)
    requires x in u.watchers && x in s.watchers && s.watchers[x].workspace == u.watchers[x].workspace
    requires x != v && Reason(u, s, x, u.watchers[x], now) && Turned(s, t, v, now)
    ensures Reason(u, t, x, u.watchers[x], now)
  {
    if s.watchers[x].state == PausedCredits && Exhausted(s, u.watchers[x].workspace, now) {
      ExhaustedStays(s, t, v, u.watchers[x].workspace, now);
      assert Stays(s, t, x, now);
    }
  }

  /** The claims so far, in order, each of a ready watcher of the list and all still held. */
  ghost predicate ClaimsOk(u: Ledger, t: Ledger, claims: seq<Claim>, due: seq<WatcherId>, owner: Owner, now: int) {
    && (forall x :: 0 <= x < |claims| ==>
      claims[x].watcher in due && claims[x].watcher in u.watchers
      && Given(t, claims[x], claims[x].watcher, u.watchers[claims[x].watcher], owner, now)
      && UsesBaseline(u, claims[x].watcher, u.watchers[claims[x].watcher], claims[x].reservation, now))
    && forall x, y :: 0 <= x < y < |claims| ==>
      claims[x].watcher != claims[y].watcher
      && u.watchers[claims[x].watcher].nextCheck <= u.watchers[claims[y].watcher].nextCheck
  }

  ghost predicate WaitingOk(u: Ledger, t: Ledger, due: seq<WatcherId>, now: int) {
    forall v :: v in u.watchers && v !in due && Ready(u.watchers[v], now) ==> Waiting(u, t, v, now)
  }

  ghost predicate FatesOk(u: Ledger, t: Ledger, claims: seq<Claim>, due: seq<WatcherId>, bounded: nat, now: int) {
    forall v :: v in due ==> v in u.watchers && Fate(u, t, claims, v, bounded, now)
  }

  ghost predicate KeepsPlaces(u: Ledger, t: Ledger) {
    t.subscriptions == u.subscriptions
    && forall v :: v in u.watchers ==> v in t.watchers && t.watchers[v].workspace == u.watchers[v].workspace
  }

  ghost predicate Going(u: Ledger, t: Ledger, claims: seq<Claim>, due: seq<WatcherId>, bounded: nat, owner: Owner, now: int) {
    Inv(t) && KeepsPlaces(u, t) && ClaimsOk(u, t, claims, due, owner, now) && WaitingOk(u, t, due, now)
    && FatesOk(u, t, claims, due, bounded, now)
  }

  lemma NoTurn(u: Ledger, t: Ledger, claims: seq<Claim>, due: seq<WatcherId>, v: WatcherId, bounded: nat, owner: Owner, now: int)
    requires Going(u, t, claims, due, bounded, owner, now) && |claims| == bounded && Sorted(u.watchers, due + [v])
    ensures Going(u, t, claims, due + [v], bounded, owner, now)
  {
    var all := due + [v];
    assert all[|due|] == v && v in u.watchers;
    forall c | c in claims
      ensures c.watcher in u.watchers && u.watchers[c.watcher].nextCheck <= u.watchers[v].nextCheck
    {
      EarlierIsNoLater(u.watchers, due, v, c.watcher);
    }
    assert all[|due|] == v;
    assert Fate(u, t, claims, v, bounded, now);
  }

  lemma EarlierIsNoLater(m: Watchers, due: seq<WatcherId>, v: WatcherId, x: WatcherId)
    requires Sorted(m, due + [v]) && x in due
    ensures x in m && v in m && x != v && m[x].nextCheck <= m[v].nextCheck
  {
    var k :| 0 <= k < |due| && due[k] == x;
    assert (due + [v])[k] == x && (due + [v])[|due|] == v;
  }

  lemma TurnClaims(u: Ledger, s: Ledger, t: Ledger, claims: seq<Claim>, claim: Option<Claim>, due: seq<WatcherId>, v: WatcherId, owner: Owner, now: int)
    requires ClaimsOk(u, s, claims, due, owner, now) && Turned(s, t, v, now) && Sorted(u.watchers, due + [v]) && v in u.watchers
    requires claim.Some? ==> Given(t, claim.value, v, u.watchers[v], owner, now) && UsesBaseline(u, v, u.watchers[v], claim.value.reservation, now)
    ensures ClaimsOk(u, t, if claim.Some? then claims + [claim.value] else claims, due + [v], owner, now)
  {
    assert (due + [v])[|due|] == v;
    forall x | 0 <= x < |claims|
      ensures claims[x].watcher != v && Given(t, claims[x], claims[x].watcher, u.watchers[claims[x].watcher], owner, now)
      ensures u.watchers[claims[x].watcher].nextCheck <= u.watchers[v].nextCheck
    {
      EarlierIsNoLater(u.watchers, due, v, claims[x].watcher);
      GivenStays(s, t, v, claims[x], u.watchers[claims[x].watcher], owner, now);
    }
  }

  lemma GivenStays(s: Ledger, t: Ledger, v: WatcherId, c: Claim, row: Watcher, owner: Owner, now: int)
    requires Given(s, c, c.watcher, row, owner, now) && Turned(s, t, v, now) && c.watcher != v
    ensures Given(t, c, c.watcher, row, owner, now)
  {
    HeldStays(s, t, v, c, now);
  }

  lemma TurnWaiting(u: Ledger, s: Ledger, t: Ledger, due: seq<WatcherId>, v: WatcherId, now: int)
    requires WaitingOk(u, s, due, now) && Turned(s, t, v, now) && s.subscriptions == u.subscriptions
    ensures WaitingOk(u, t, due + [v], now)
  {
    forall x | x in u.watchers && x !in due + [v] && Ready(u.watchers[x], now)
      ensures Waiting(u, t, x, now)
    {
      assert v in due + [v] && forall d :: d in due ==> d in due + [v];
      WaitingStays(u, s, t, v, x, now);
    }
  }

  lemma TurnFates(u: Ledger, s: Ledger, t: Ledger, claims: seq<Claim>, more: seq<Claim>, due: seq<WatcherId>, v: WatcherId, bounded: nat, now: int)
    requires FatesOk(u, s, claims, due, bounded, now) && Turned(s, t, v, now) && KeepsPlaces(u, s) && Sorted(u.watchers, due + [v]) && v in u.watchers
    requires |claims| < bounded && claims <= more && Fate(u, t, more, v, bounded, now)
    ensures FatesOk(u, t, more, due + [v], bounded, now)
  {
    forall x | x in due + [v]
      ensures x in u.watchers && Fate(u, t, more, x, bounded, now)
    {
      if x in due {
        EarlierIsNoLater(u.watchers, due, v, x);
        assert Fate(u, s, claims, x, bounded, now);
        if c :| c in claims && c.watcher == x { assert c in more; } else { ReasonStays(u, s, t, v, x, now); }
      }
    }
  }

  lemma ReasonFromStart(u: Ledger, s: Ledger, t: Ledger, v: WatcherId, now: int)
    requires v in u.watchers && Waiting(u, s, v, now) && s.subscriptions == u.subscriptions && Reason(s, t, v, u.watchers[v], now)
    ensures Reason(u, t, v, u.watchers[v], now)
  {
    var row := u.watchers[v];
    SameGrant(u, s, row.workspace, now);
    if SlotUsed(s, v, row, now) {
      var r :| r in s.reservations && s.reservations[r].watcher == v && s.reservations[r].status != Released
        && s.reservations[r].slot == ScheduledSlot(if row.nextCheck == EMPTY then now else row.nextCheck);
      assert r in u.reservations && u.reservations[r].watcher == v && u.reservations[r].status != Released
        && u.reservations[r].slot == ScheduledSlot(if row.nextCheck == EMPTY then now else row.nextCheck);
    }
  }

  lemma BaselineFromStart(u: Ledger, s: Ledger, v: WatcherId, row: Watcher, r: ReservationId, now: int)
    requires v in u.watchers && row == u.watchers[v] && Waiting(u, s, v, now) && s.subscriptions == u.subscriptions
    requires UsesBaseline(s, v, row, r, now)
    ensures UsesBaseline(u, v, row, r, now)
  {
    SameGrant(u, s, row.workspace, now);
    forall q
      ensures SetAside(u, v, row.workspace, q, now) <==> SetAside(s, v, row.workspace, q, now)
    {
    }
  }

  lemma OneTurn(u: Ledger, s: Ledger, claims: seq<Claim>, due: seq<WatcherId>, v: WatcherId, bounded: nat, owner: Owner, now: int)
    requires Going(u, s, claims, due, bounded, owner, now) && |claims| < bounded && Sorted(u.watchers, due + [v]) && v in u.watchers
    requires Ready(u.watchers[v], now)
    ensures var (t, claim) := ClaimOne(s, v, u.watchers[v], owner, now);
      Going(u, t, if claim.Some? then claims + [claim.value] else claims, due + [v], bounded, owner, now)
  {
    var row := u.watchers[v];
    var (t, claim) := ClaimOne(s, v, row, owner, now);
    var more := if claim.Some? then claims + [claim.value] else claims;
    assert v !in due by { if v in due { EarlierIsNoLater(u.watchers, due, v, v); } }
    assert Waiting(u, s, v, now);
    SameGrant(u, s, row.workspace, now);
    ClaimOneProper(s, v, row, owner, now);
    ClaimOneTurns(s, v, row, owner, now);
    ClaimOneGives(s, v, row, owner, now);
    if claim.Some? {
      BaselineFirst(s, v, row, owner, now);
      BaselineFromStart(u, s, v, row, claim.value.reservation, now);
    }
    TurnClaims(u, s, t, claims, claim, due, v, owner, now);
    TurnWaiting(u, s, t, due, v, now);
    if claim.Some? { assert claim.value in more; } else { ReasonFromStart(u, s, t, v, now); }
    assert Fate(u, t, more, v, bounded, now);
    TurnFates(u, s, t, claims, more, due, v, bounded, now);
  }

  lemma GoingStart(u: Ledger, bounded: nat, owner: Owner, now: int)
    requires Inv(u)
    ensures Going(u, u, [], [], bounded, owner, now)
  {
  }

  lemma SortedPrefix(m: Watchers, due: seq<WatcherId>, v: WatcherId)
    requires Sorted(m, due + [v])
    ensures Sorted(m, due) && v in m
  {
    var all := due + [v];
    assert all[|due|] == v && forall i :: 0 <= i < |due| ==> all[i] == due[i];
  }

  function Next(u: Ledger, s: Ledger, claims: seq<Claim>, v: WatcherId, bounded: nat, owner: Owner, now: int): (Ledger, seq<Claim>)
    requires v in u.watchers
  {
    if |claims| >= bounded then (s, claims)
    else
      var (t, claim) := ClaimOne(s, v, u.watchers[v], owner, now);
      (t, if claim.Some? then claims + [claim.value] else claims)
  }

  lemma EachSnoc(u: Ledger, due: seq<WatcherId>, v: WatcherId, bounded: nat, owner: Owner, now: int)
    requires v in u.watchers
    ensures var (s, claims) := ClaimEach(u, u.watchers, due, bounded, owner, now);
      ClaimEach(u, u.watchers, due + [v], bounded, owner, now) == Next(u, s, claims, v, bounded, owner, now)
  {
    assert (due + [v])[..|due|] == due;
  }

  ghost predicate EachGoes(u: Ledger, due: seq<WatcherId>, bounded: nat, owner: Owner, now: int) {
    var r := ClaimEach(u, u.watchers, due, bounded, owner, now);
    Going(u, r.0, r.1, due, bounded, owner, now)
  }

  lemma NextGoes(u: Ledger, s: Ledger, claims: seq<Claim>, due: seq<WatcherId>, v: WatcherId, bounded: nat, owner: Owner, now: int)
    requires Going(u, s, claims, due, bounded, owner, now) && |claims| <= bounded
    requires Sorted(u.watchers, due + [v]) && v in u.watchers && Ready(u.watchers[v], now)
    ensures var r := Next(u, s, claims, v, bounded, owner, now); Going(u, r.0, r.1, due + [v], bounded, owner, now)
  {
    if |claims| >= bounded { NoTurn(u, s, claims, due, v, bounded, owner, now); } else { OneTurn(u, s, claims, due, v, bounded, owner, now); }
  }

  lemma EachStep(u: Ledger, due: seq<WatcherId>, v: WatcherId, bounded: nat, owner: Owner, now: int)
    requires EachGoes(u, due, bounded, owner, now) && Sorted(u.watchers, due + [v]) && v in u.watchers && Ready(u.watchers[v], now)
    ensures EachGoes(u, due + [v], bounded, owner, now)
  {
    var (s, claims) := ClaimEach(u, u.watchers, due, bounded, owner, now);
    NextGoes(u, s, claims, due, v, bounded, owner, now);
    EachSnoc(u, due, v, bounded, owner, now);
  }

  lemma EachStart(u: Ledger, bounded: nat, owner: Owner, now: int)
    requires Inv(u)
    ensures EachGoes(u, [], bounded, owner, now)
  {
    GoingStart(u, bounded, owner, now);
  }

  lemma {:induction false} ClaimEachGoes(u: Ledger, due: seq<WatcherId>, bounded: nat, owner: Owner, now: int)
    requires Inv(u) && Sorted(u.watchers, due) && forall w :: w in due ==> Ready(u.watchers[w], now)
    ensures EachGoes(u, due, bounded, owner, now)
  {
    if due == [] {
      EachStart(u, bounded, owner, now);
    } else {
      var init, v := due[..|due| - 1], due[|due| - 1];
      assert due == init + [v] && forall w :: w in init ==> w in due;
      SortedPrefix(u.watchers, init, v);
      ClaimEachGoes(u, init, bounded, owner, now);
      EachStep(u, init, v, bounded, owner, now);
    }
  }

  // ---- the transaction ----

  /** Who is claimed. After the reaping, with at most `limit` of 1 to 50 claims: every claimed watcher was active or
      waiting for a first price, due and nobody's; claims come in the order in which they fell due; each carries
      its watcher's stored price and holds its reservation and its watcher for ten minutes. */
  lemma ClaimsAreOfReady(s: Ledger, owner: Owner, limit: int, now: int)
    requires Inv(s) && ClaimDue(s, owner, limit, now).Ok?
    ensures var u, (t, claims) := Reap(s, now), ClaimDue(s, owner, limit, now).value;
      && |claims| <= (if limit < 1 then 1 else if limit > 50 then 50 else limit)
      && (forall x :: 0 <= x < |claims| ==>
        claims[x].watcher in u.watchers && Ready(u.watchers[claims[x].watcher], now)
        && Given(t, claims[x], claims[x].watcher, u.watchers[claims[x].watcher], owner, now)
        && UsesBaseline(u, claims[x].watcher, u.watchers[claims[x].watcher], claims[x].reservation, now))
      && forall x, y :: 0 <= x < y < |claims| ==>
        claims[x].watcher != claims[y].watcher
        && u.watchers[claims[x].watcher].nextCheck <= u.watchers[claims[y].watcher].nextCheck
  {
    var u, bounded := Reap(s, now), Bounded(limit);
    var due := DueList(u.watchers, now, 4 * bounded);
    ReapKeeps(s, now);
    DueIs(u.watchers, now, 4 * bounded);
    ClaimEachGoes(u, due, bounded, owner, now);
  }

  /** Who is not. A watcher that was ready is claimed, or has no plan, or has used the slot it is due for, or is
      paused with all credits of its period used; or the limit was met by watchers that were due no later, or
      four times as many as the limit were. */
  ghost predicate LeftOut(u: Ledger, t: Ledger, claims: seq<Claim>, v: WatcherId, bounded: nat, now: int)
    requires v in u.watchers
  {
    || Fate(u, t, claims, v, bounded, now)
    || exists due: seq<WatcherId> :: Sorted(u.watchers, due) && Crowded(u.watchers, due, v, 4 * bounded)
         && forall w :: w in due ==> Ready(u.watchers[w], now)
  }

  lemma ReadyAreClaimed(s: Ledger, owner: Owner, limit: int, now: int, v: WatcherId)
    requires Inv(s) && ClaimDue(s, owner, limit, now).Ok? && v in Reap(s, now).watchers && Ready(Reap(s, now).watchers[v], now)
    ensures var bounded := if limit < 1 then 1 else if limit > 50 then 50 else limit;
      var (t, claims) := ClaimDue(s, owner, limit, now).value; LeftOut(Reap(s, now), t, claims, v, bounded, now)
  {
    var u, bounded := Reap(s, now), Bounded(limit);
    var due := DueList(u.watchers, now, 4 * bounded);
    ReapKeeps(s, now);
    DueIs(u.watchers, now, 4 * bounded);
    ClaimEachGoes(u, due, bounded, owner, now);
  }

  /** A claim is good for ten minutes: its worker can begin at any time before they are over, and at none after. */
  lemma ClaimedCanBegin(s: Ledger, owner: Owner, limit: int, now: int, c: Claim, later: int)
    requires Inv(s) && ClaimDue(s, owner, limit, now).Ok? && c in ClaimDue(s, owner, limit, now).value.1
    ensures Begin(ClaimDue(s, owner, limit, now).value.0, c, later).1 <==> later < now + 600_000
  {
    ClaimsAreOfReady(s, owner, limit, now);
  }
}
