/** Leases, claims and attempts keep the tables in order. */
module PriceWatchClaims {
  import opened Wrappers
  import opened RowOrder
  import opened PriceWatchLedger
  import opened PriceWatchInvariants

  /** One reservation row changes as MayFree allows; watcher rows change in place. */
  lemma RowUpdateKeeps(s: Ledger, r: ReservationId, row: Reservation, watchers: Watchers)
    requires Inv(s) && r in s.reservations && MayFree(s.reservations[r], row)
    requires watchers.Keys == s.watchers.Keys
    requires forall w :: w in watchers ==> watchers[w].workspace == s.watchers[w].workspace
    ensures var t := s.(reservations := s.reservations[r := row], watchers := watchers);
      Inv(t) && Advances(s, t) && NoNewCounts(s, t)
  {
    var t := s.(reservations := s.reservations[r := row], watchers := watchers);
    assert t.reservations.Keys == s.reservations.Keys;
    FreesKeeps(s, t);
  }

  // ---- the reaper ----

  lemma ReapRowKeeps(s: Ledger, r: ReservationId, seen: Watcher, now: int)
    requires Inv(s)
    ensures var t := ReapRow(s, r, seen, now); Inv(t) && Advances(s, t) && NoNewCounts(s, t)
  {
    var t := ReapRow(s, r, seen, now);
    if r in s.reservations && s.reservations[r].watcher in s.watchers {
      assert t.watchers.Keys == s.watchers.Keys;
      assert t == s.(reservations := s.reservations[r := t.reservations[r]], watchers := t.watchers);
      RowUpdateKeeps(s, r, t.reservations[r], t.watchers);
    } else {
      FreesKeeps(s, s);
    }
  }

  lemma NoNewCountsTrans(s: Ledger, t: Ledger, u: Ledger)
    requires NoNewCounts(s, t) && NoNewCounts(t, u)
    ensures NoNewCounts(s, u)
  {
  }

  lemma {:induction false} ReapRowsKeeps(s: Ledger, read: Ledger, rows: seq<ReservationId>, now: int)
    requires Inv(s)
    ensures var t := ReapRows(s, read, rows, now); Inv(t) && Advances(s, t) && NoNewCounts(s, t)
  {
    if rows == [] {
      FreesKeeps(s, s);
    } else {
      var n := |rows| - 1;
      var t := ReapRows(s, read, rows[..n], now);
      ReapRowsKeeps(s, read, rows[..n], now);
      if rows[n] in read.reservations && read.reservations[rows[n]].watcher in read.watchers {
        var seen := read.watchers[read.reservations[rows[n]].watcher];
        ReapRowKeeps(t, rows[n], seen, now);
        AdvancesTrans(s, t, ReapRow(t, rows[n], seen, now));
        NoNewCountsTrans(s, t, ReapRow(t, rows[n], seen, now));
      }
    }
  }

  lemma ReapKeeps(s: Ledger, now: int)
    requires Inv(s)
    ensures Inv(Reap(s, now)) && Advances(s, Reap(s, now)) && NoNewCounts(s, Reap(s, now))
  {
    var rows := OrderBy(Expired(s, now), LeaseRank(s.reservations));
    var t := ReapRows(s, s, rows, now);
    ReapRowsKeeps(s, s, rows, now);
    var u := t.(reservations := ClearFinished(t.reservations, now));
    FreesKeeps(t, u);
    AdvancesTrans(s, t, u);
    NoNewCountsTrans(s, t, u);
  }

  // ---- claiming ----

  lemma LeaseKeeps(s: Ledger, w: WatcherId, row: Watcher, r: ReservationId, owner: Owner, now: int)
    requires Inv(s)
    ensures var t := Lease(s, w, row, r, owner, now).0; Inv(t) && Advances(s, t) && NoNewCounts(s, t)
  {
    var t := Lease(s, w, row, r, owner, now).0;
    if r in s.reservations && s.reservations[r].status == Reserved && s.reservations[r].owner == "" {
      assert t.watchers.Keys == s.watchers.Keys;
      assert t == s.(reservations := s.reservations[r := t.reservations[r]], watchers := t.watchers);
      RowUpdateKeeps(s, r, t.reservations[r], t.watchers);
    } else {
      FreesKeeps(s, s);
    }
  }

  lemma SlotCosts(s: Ledger, w: WatcherId, row: Watcher, p: Period, now: int)
    requires Inv(s) && w in s.watchers && s.watchers[w].workspace == row.workspace && (row.workspace, p) in s.entitlements
    ensures Costs(s, ReservationForSlot(s, w, row, p, now).0, row.workspace, p, 1)
  {
    var (t, chosen) := ReservationForSlot(s, w, row, p, now);
    if chosen.None? {
      FreesKeeps(s, s);
      FreeIsCheap(s, s, row.workspace, p);
    } else {
      assert s.next in s.reservations ==> RowOk(s, s.next);
      ReservesKeeps(s, t, chosen.value, row.workspace, p);
      OneCostsOne(s, t, chosen.value, row.workspace, p);
    }
  }

  lemma ForClaimCosts(s: Ledger, w: WatcherId, row: Watcher, p: Period, now: int)
    requires Inv(s) && w in s.watchers && s.watchers[w].workspace == row.workspace && (row.workspace, p) in s.entitlements
    ensures Costs(s, ReservationForClaim(s, w, row, p, now).0, row.workspace, p, 1)
  {
    var (t, chosen) := ReservationForClaim(s, w, row, p, now);
    var baselines := Baselines(s.reservations, w);
    if row.state == BaselinePending && baselines != {} {
      var r := First(baselines, NewestRank(s.reservations));
      var latest := s.reservations[r];
      if latest.status == Reserved && latest.period == p && latest.owner == "" {
        FreesKeeps(s, s);
        FreeIsCheap(s, s, row.workspace, p);
      } else if latest.status == Released {
        ReservesKeeps(s, t, r, row.workspace, p);
        OneCostsOne(s, t, r, row.workspace, p);
      } else {
        SlotCosts(s, w, row, p, now);
      }
    } else {
      SlotCosts(s, w, row, p, now);
    }
  }

  lemma ClaimOneProper(s: Ledger, w: WatcherId, row: Watcher, owner: Owner, now: int)
    requires Inv(s) && w in s.watchers && s.watchers[w].workspace == row.workspace
    ensures Proper(s, ClaimOne(s, w, row, owner, now).0, now)
  {
    ReconcileProper(s, row.workspace, now);
    ReconcileKeeps(s, row.workspace, now);
    var t := Reconcile(s, row.workspace, now);
    var end := ClaimOne(s, w, row, owner, now).0;
    match CurrentGrant(s, row.workspace, now)
    case None =>
    case Some(grant) =>
      var waiting := WaitingBaselines(t.reservations, w, grant.period);
      if row.state == BaselinePending && waiting != {} {
        LeaseKeeps(t, w, row, First(waiting, OldestRank(t.reservations)), owner, now);
        FreeIsProper(t, end, now);
      } else if Remaining(t, row.workspace, grant) < 1 {
        if Runnable(t.watchers[w].state) {
          WatcherUpdateKeeps(t, w, t.watchers[w].(state := PausedCredits, owner := "", expires := EMPTY, updatedAt := now));
        } else {
          FreesKeeps(t, t);
        }
        FreeIsProper(t, end, now);
      } else {
        var (u, chosen) := ReservationForClaim(t, w, row, grant.period, now);
        ForClaimCosts(t, w, row, grant.period, now);
        CostsSpends(t, u, row.workspace, grant, 1, now);
        if chosen.Some? {
          LeaseKeeps(u, w, row, chosen.value, owner, now);
          FreeIsProper(u, end, now);
          ProperTrans(t, u, end, now);
        }
      }
      ProperTrans(s, t, end, now);
  }

  lemma {:induction false} ClaimEachProper(s: Ledger, read: Watchers, due: seq<WatcherId>, bounded: nat, owner: Owner, now: int)
    requires Inv(s)
    requires forall w :: w in read ==> w in s.watchers && s.watchers[w].workspace == read[w].workspace
    ensures Proper(s, ClaimEach(s, read, due, bounded, owner, now).0, now)
  {
    if due == [] {
      FreesKeeps(s, s);
      FreeIsProper(s, s, now);
    } else {
      var n := |due| - 1;
      ClaimEachProper(s, read, due[..n], bounded, owner, now);
      var (t, claims) := ClaimEach(s, read, due[..n], bounded, owner, now);
      if |claims| < bounded && due[n] in read {
        ClaimOneProper(t, due[n], read[due[n]], owner, now);
        ProperTrans(s, t, ClaimOne(t, due[n], read[due[n]], owner, now).0, now);
      }
    }
  }

  lemma ClaimDueProper(s: Ledger, owner: Owner, limit: int, now: int)
    requires Inv(s) && ClaimDue(s, owner, limit, now).Ok?
    ensures Proper(s, ClaimDue(s, owner, limit, now).value.0, now)
  {
    var t := Reap(s, now);
    ReapKeeps(s, now);
    FreeIsProper(s, t, now);
    var due := DueList(t.watchers, now, 4 * Bounded(limit));
    ClaimEachProper(t, t.watchers, due, Bounded(limit), owner, now);
    ProperTrans(s, t, ClaimEach(t, t.watchers, due, Bounded(limit), owner, now).0, now);
  }

  // ---- attempts ----

  lemma ReleaseClaimKeeps(s: Ledger, c: Claim, now: int)
    requires Inv(s)
    ensures var t := ReleaseClaim(s, c, now).0; Inv(t) && Advances(s, t) && NoNewCounts(s, t)
  {
    var (t, released) := ReleaseClaim(s, c, now);
    if released {
      assert t.watchers.Keys == s.watchers.Keys;
      assert t == s.(reservations := s.reservations[c.reservation := t.reservations[c.reservation]], watchers := t.watchers);
      RowUpdateKeeps(s, c.reservation, t.reservations[c.reservation], t.watchers);
    } else {
      FreesKeeps(s, s);
    }
  }

  /** What a completion changes: nothing, or one attempt is committed, its watcher settled, and at most
      one observation stored for it. */
  lemma CompleteShape(s: Ledger, c: Claim, outcome: Outcome, now: int)
    ensures var t := Complete(s, c, outcome, now).0;
      || t == s
      || (&& c.reservation in s.reservations && s.reservations[c.reservation].status == Attempting
          && t.reservations == s.reservations[c.reservation :=
               s.reservations[c.reservation].(status := Committed, owner := "", lease := EMPTY)]
          && t.watchers.Keys == s.watchers.Keys
          && (forall w :: w in t.watchers ==> t.watchers[w].workspace == s.watchers[w].workspace)
          && (t.observations == s.observations || (c.reservation !in s.observations
              && c.reservation in t.observations && t.observations == s.observations[c.reservation := t.observations[c.reservation]]))
          && t == s.(reservations := t.reservations, watchers := t.watchers, observations := t.observations))
  {
    var t := Complete(s, c, outcome, now).0;
    if t != s && c.watcher in s.watchers {
      assert t.watchers.Keys == s.watchers.Keys;
    }
  }

  /** Everything about a completion but its observation. */
  lemma CompleteKeeps(s: Ledger, c: Claim, outcome: Outcome, now: int)
    requires Inv(s)
    ensures var t := Complete(s, c, outcome, now).0;
      Inv(t) && Advances(s, t.(observations := s.observations)) && NoNewCounts(s, t)
    ensures var t := Complete(s, c, outcome, now).0;
      forall r :: r in s.observations ==> r in t.observations && t.observations[r] == s.observations[r]
  {
    var t := Complete(s, c, outcome, now).0;
    CompleteShape(s, c, outcome, now);
    if t == s {
      FreesKeeps(s, s);
    } else {
      RowUpdateKeeps(s, c.reservation, t.reservations[c.reservation], t.watchers);
      CompletedInv(s, t, c.reservation);
    }
  }

  lemma CompletedInv(s: Ledger, t: Ledger, r0: ReservationId)
    requires Inv(t.(observations := s.observations)) && r0 in t.reservations && t.reservations[r0].status == Committed
    requires t.observations == s.observations
      || (r0 in t.observations && t.observations == s.observations[r0 := t.observations[r0]])
    ensures Inv(t)
  {
    forall r | r in t.reservations
      ensures RowOk(t, r)
    {
      assert RowOk(t.(observations := s.observations), r);
    }
  }
}
