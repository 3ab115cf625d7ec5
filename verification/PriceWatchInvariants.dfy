/** What every price-watch transaction keeps. */
module PriceWatchInvariants {
  import opened Collections
  import opened Wrappers
  import opened PriceWatchLedger

  // ---- the table invariant ----

  /** A reservation belongs to a stored watcher of its workspace and to a period with an entitlement. */
  ghost predicate RowOk(s: Ledger, r: ReservationId)
    requires r in s.reservations
  {
    var row := s.reservations[r];
    && r < s.next
    && row.watcher in s.watchers && s.watchers[row.watcher].workspace == row.workspace
    && (row.workspace, row.period) in s.entitlements
  }

  ghost predicate Inv(s: Ledger) {
    && (forall r {:trigger RowOk(s, r)} :: r in s.reservations ==> RowOk(s, r))
    && (forall w :: w in s.watchers ==> w < s.next)
    && (forall r :: r in s.observations ==> r in s.reservations && s.reservations[r].status == Committed)
  }

  // ---- how rows may move ----

  predicate Spent(status: Status) { status == Attempting || status == Committed }

  /** Within one transaction other than a begin: an attempt may only be committed, a commit stays, and
      nothing enters an attempt. */
  predicate Settles(a: Status, b: Status) {
    match a
    case Attempting => b == Attempting || b == Committed
    case Committed => b == Committed
    case _ => b == Reserved || b == Released
  }

  predicate RowMoves(a: Reservation, b: Reservation) {
    && a.watcher == b.watcher && Settles(a.status, b.status)
    && (Spent(a.status) ==> a.workspace == b.workspace && a.period == b.period)
    && (b.status == Attempting ==> a == b)
  }

  /** Rows keep their ids and move only forward; new rows have new ids and are not spent;
      entitlements and their purged debits stay. */
  ghost predicate Advances(s: Ledger, t: Ledger) {
    && s.next <= t.next
    && (forall r :: r in s.reservations ==> r in t.reservations && RowMoves(s.reservations[r], t.reservations[r]))
    && (forall r :: r in t.reservations && r !in s.reservations ==> s.next <= r && !Spent(t.reservations[r].status))
    && (forall k :: k in s.entitlements ==> k in t.entitlements && t.entitlements[k].purged == s.entitlements[k].purged)
    && (forall k :: k in t.entitlements && k !in s.entitlements ==> t.entitlements[k].purged == 0)
    && (forall w :: w in s.watchers ==> w in t.watchers && t.watchers[w].workspace == s.watchers[w].workspace)
    && t.observations == s.observations && t.subscriptions == s.subscriptions
  }

  lemma RowMovesTrans(a: Reservation, b: Reservation, c: Reservation)
    requires RowMoves(a, b) && RowMoves(b, c)
    ensures RowMoves(a, c)
  {
  }

  lemma AdvancesTrans(s: Ledger, t: Ledger, u: Ledger)
    requires Advances(s, t) && Advances(t, u)
    ensures Advances(s, u)
  {
    forall r | r in s.reservations
      ensures r in u.reservations && RowMoves(s.reservations[r], u.reservations[r])
    {
      RowMovesTrans(s.reservations[r], t.reservations[r], u.reservations[r]);
    }
  }

  /** Credits that are gone for good: attempts, commits and purged debits. */
  function SpentRows(m: Reservations, ws: Workspace, p: Period): set<ReservationId> {
    set r | r in m && m[r].workspace == ws && m[r].period == p && Spent(m[r].status)
  }

  function Consumed(s: Ledger, ws: Workspace, p: Period): nat {
    |SpentRows(s.reservations, ws, p)| + Purged(s, ws, p)
  }

  lemma AdvancesConsumed(s: Ledger, t: Ledger, ws: Workspace, p: Period)
    requires Advances(s, t)
    ensures Consumed(s, ws, p) <= Consumed(t, ws, p)
  {
    SubsetSize(SpentRows(s.reservations, ws, p), SpentRows(t.reservations, ws, p));
  }

  // ---- spending ----

  /** Used credits rose only within the allocation that the workspace's subscription grants now. */
  ghost predicate SpendsWithin(s: Ledger, t: Ledger, now: int) {
    forall ws, p :: Used(t, ws, p) <= Used(s, ws, p) || UnderGrant(t, ws, p, now)
  }

  predicate UnderGrant(s: Ledger, ws: Workspace, p: Period, now: int) {
    var grant := CurrentGrant(s, ws, now);
    grant.Some? && grant.value.period == p && Used(s, ws, p) <= grant.value.allocation
  }

  lemma SpendsTrans(s: Ledger, t: Ledger, u: Ledger, now: int)
    requires SpendsWithin(s, t, now) && SpendsWithin(t, u, now) && u.subscriptions == t.subscriptions
    ensures SpendsWithin(s, u, now)
  {
  }

  /** No row starts to count anywhere. */
  ghost predicate NoNewCounts(s: Ledger, t: Ledger) {
    forall r :: r in t.reservations && t.reservations[r].status != Released ==>
      && r in s.reservations && s.reservations[r].status != Released
      && s.reservations[r].workspace == t.reservations[r].workspace && s.reservations[r].period == t.reservations[r].period
  }

  /** At most row r0 starts to count, in period p of ws. */
  ghost predicate OneNewCount(s: Ledger, t: Ledger, r0: ReservationId, ws: Workspace, p: Period) {
    forall r :: r in t.reservations && t.reservations[r].status != Released ==>
      || (r == r0 && t.reservations[r].workspace == ws && t.reservations[r].period == p)
      || (&& r in s.reservations && s.reservations[r].status != Released
          && s.reservations[r].workspace == t.reservations[r].workspace && s.reservations[r].period == t.reservations[r].period)
  }

  lemma NoNewCountsUsed(s: Ledger, t: Ledger, ws: Workspace, p: Period)
    requires NoNewCounts(s, t) && Advances(s, t)
    ensures Used(t, ws, p) <= Used(s, ws, p)
  {
    SubsetSize(Counted(t.reservations, ws, p), Counted(s.reservations, ws, p));
  }

  lemma NoNewCountsSpends(s: Ledger, t: Ledger, now: int)
    requires NoNewCounts(s, t) && Advances(s, t)
    ensures SpendsWithin(s, t, now)
  {
    forall ws, p
      ensures Used(t, ws, p) <= Used(s, ws, p)
    {
      NoNewCountsUsed(s, t, ws, p);
    }
  }

  lemma OneNewCountUsed(s: Ledger, t: Ledger, r0: ReservationId, ws: Workspace, p: Period, ws': Workspace, p': Period)
    requires OneNewCount(s, t, r0, ws, p) && Advances(s, t)
    ensures Used(t, ws', p') <= Used(s, ws', p') + (if ws' == ws && p' == p then 1 else 0)
  {
    var a, b := Counted(t.reservations, ws', p'), Counted(s.reservations, ws', p');
    if ws' == ws && p' == p {
      assert a <= b + {r0};
      SubsetSize(a, b + {r0});
    } else {
      SubsetSize(a, b);
    }
  }

  // ---- bulk releases ----

  predicate MayFree(a: Reservation, b: Reservation) {
    && b.watcher == a.watcher && b.workspace == a.workspace && b.period == a.period
    && (b.status == a.status || (a.status == Reserved && b.status == Released) || (a.status == Attempting && b.status == Committed))
    && (b.status == Attempting ==> b == a)
  }

  /** Some reserved rows are released and some attempts committed; watchers stay where they are; entitlements may be added. */
  ghost predicate Frees(s: Ledger, t: Ledger) {
    && t.reservations.Keys == s.reservations.Keys
    && (forall r :: r in s.reservations ==> MayFree(s.reservations[r], t.reservations[r]))
    && t.watchers.Keys == s.watchers.Keys
    && (forall w :: w in s.watchers ==> t.watchers[w].workspace == s.watchers[w].workspace)
    && (forall k :: k in s.entitlements ==> k in t.entitlements && t.entitlements[k].purged == s.entitlements[k].purged)
    && (forall k :: k in t.entitlements && k !in s.entitlements ==> t.entitlements[k].purged == 0)
    && t.observations == s.observations && t.subscriptions == s.subscriptions && t.next == s.next
  }

  lemma FreesInv(s: Ledger, t: Ledger)
    requires Inv(s) && Frees(s, t)
    ensures Inv(t)
  {
    forall r | r in t.reservations
      ensures RowOk(t, r)
    {
      assert RowOk(s, r) && MayFree(s.reservations[r], t.reservations[r]);
    }
    forall r | r in s.observations
      ensures t.reservations[r].status == Committed
    {
      assert MayFree(s.reservations[r], t.reservations[r]);
    }
  }

  lemma FreesCounts(s: Ledger, t: Ledger)
    requires Frees(s, t)
    ensures NoNewCounts(s, t)
  {
  }

  lemma FreesKeeps(s: Ledger, t: Ledger)
    requires Inv(s) && Frees(s, t)
    ensures Inv(t) && Advances(s, t) && NoNewCounts(s, t)
  {
    FreesInv(s, t);
    FreesCounts(s, t);
    forall r | r in s.reservations
      ensures RowMoves(s.reservations[r], t.reservations[r])
    {
      assert MayFree(s.reservations[r], t.reservations[r]);
    }
  }

  lemma ReleaseFrees(m: Reservations, hit: set<ReservationId>)
    ensures ReleaseReserved(m, hit).Keys == m.Keys
    ensures forall r :: r in m ==> MayFree(m[r], ReleaseReserved(m, hit)[r])
  {
  }

  lemma ReconcileKeeps(s: Ledger, ws: Workspace, now: int)
    requires Inv(s)
    ensures var t := Reconcile(s, ws, now);
      Inv(t) && Advances(s, t) && NoNewCounts(s, t) && Frees(s, t)
      && (CurrentGrant(s, ws, now).Some? ==> (ws, CurrentGrant(s, ws, now).value.period) in t.entitlements)
  {
    var t := Reconcile(s, ws, now);
    match CurrentGrant(s, ws, now)
    case None =>
      ReleaseFrees(s.reservations, OfWorkspace(s.reservations, ws));
      FreesKeeps(s, t);
    case Some(grant) =>
      ReleaseFrees(s.reservations, OutsidePeriod(s.reservations, ws, grant.period));
      FreesKeeps(s, t);
  }

  lemma DisableKeeps(s: Ledger, ws: Workspace, now: int)
    requires Inv(s)
    ensures var t := DisableWorkspace(s, ws, now); Inv(t) && Advances(s, t) && NoNewCounts(s, t)
  {
    ReleaseFrees(s.reservations, OfWorkspace(s.reservations, ws));
    FreesKeeps(s, DisableWorkspace(s, ws, now));
  }

  lemma ReleaseWatcherKeeps(s: Ledger, w: WatcherId)
    requires Inv(s)
    ensures Inv(ReleaseWatcher(s, w)) && Advances(s, ReleaseWatcher(s, w)) && NoNewCounts(s, ReleaseWatcher(s, w))
  {
    ReleaseFrees(s.reservations, OfWatcher(s.reservations, w));
    FreesKeeps(s, ReleaseWatcher(s, w));
  }

  /** Changing a watcher row in place, workspace aside, touches nothing else. */
  lemma WatcherUpdateKeeps(s: Ledger, w: WatcherId, row: Watcher)
    requires Inv(s) && w in s.watchers && row.workspace == s.watchers[w].workspace
    ensures var t := s.(watchers := s.watchers[w := row]); Inv(t) && Advances(s, t) && NoNewCounts(s, t)
  {
    var t := s.(watchers := s.watchers[w := row]);
    assert t.watchers.Keys == s.watchers.Keys;
    FreesKeeps(s, t);
  }

  // ---- reservations ----

  /** One row is inserted, or a released row is taken up again; either way it now counts for ws in p. */
  ghost predicate Reserves(s: Ledger, t: Ledger, r0: ReservationId, ws: Workspace, p: Period) {
    && (if r0 in s.reservations then s.reservations[r0].status == Released && t.next == s.next
        else r0 == s.next && t.next == s.next + 1)
    && r0 in t.reservations && t.reservations == s.reservations[r0 := t.reservations[r0]]
    && t.reservations[r0].status == Reserved && t.reservations[r0].workspace == ws && t.reservations[r0].period == p
    && (r0 in s.reservations ==> t.reservations[r0].watcher == s.reservations[r0].watcher)
    && t == s.(reservations := t.reservations, next := t.next)
  }

  lemma ReservesKeeps(s: Ledger, t: Ledger, r0: ReservationId, ws: Workspace, p: Period)
    requires Inv(s) && Reserves(s, t, r0, ws, p)
    requires t.reservations[r0].watcher in s.watchers && s.watchers[t.reservations[r0].watcher].workspace == ws
    requires (ws, p) in s.entitlements
    ensures Inv(t) && Advances(s, t) && OneNewCount(s, t, r0, ws, p)
  {
    forall r | r in t.reservations
      ensures RowOk(t, r)
    {
      if r in s.reservations { assert RowOk(s, r); }
    }
  }

  lemma ReserveBaselineKeeps(s: Ledger, ws: Workspace, w: WatcherId, p: Period, now: int)
    requires Inv(s) && w in s.watchers && s.watchers[w].workspace == ws && (ws, p) in s.entitlements
    ensures var t := ReserveBaseline(s, ws, w, p, now);
      Inv(t) && Advances(s, t) && OneNewCount(s, t, s.next, ws, p) && |t.reservations| == |s.reservations| + 1
  {
    var t := ReserveBaseline(s, ws, w, p, now);
    assert s.next in s.reservations ==> RowOk(s, s.next);
    ReservesKeeps(s, t, s.next, ws, p);
    assert t.reservations.Keys == s.reservations.Keys + {s.next};
  }

  // ---- activation ----

  /** A sub-step that keeps the tables in order and adds at most n used credits, all to ws in p. */
  ghost predicate Costs(s: Ledger, t: Ledger, ws: Workspace, p: Period, n: nat) {
    && Inv(t) && Advances(s, t)
    && forall ws', p' :: Used(t, ws', p') <= Used(s, ws', p') + (if ws' == ws && p' == p then n else 0)
  }

  lemma CostsTrans(s: Ledger, t: Ledger, u: Ledger, ws: Workspace, p: Period, m: nat, n: nat)
    requires Costs(s, t, ws, p, m) && Costs(t, u, ws, p, n)
    ensures Costs(s, u, ws, p, m + n)
  {
    AdvancesTrans(s, t, u);
    forall ws', p'
      ensures Used(u, ws', p') <= Used(s, ws', p') + (if ws' == ws && p' == p then m + n else 0)
    {
      assert Used(u, ws', p') <= Used(t, ws', p') + (if ws' == ws && p' == p then n else 0);
    }
  }

  lemma FreeIsCheap(s: Ledger, t: Ledger, ws: Workspace, p: Period)
    requires Inv(t) && Advances(s, t) && NoNewCounts(s, t)
    ensures Costs(s, t, ws, p, 0)
  {
    forall ws', p'
      ensures Used(t, ws', p') <= Used(s, ws', p')
    {
      NoNewCountsUsed(s, t, ws', p');
    }
  }

  lemma OneCostsOne(s: Ledger, t: Ledger, r0: ReservationId, ws: Workspace, p: Period)
    requires Inv(t) && Advances(s, t) && OneNewCount(s, t, r0, ws, p)
    ensures Costs(s, t, ws, p, 1)
  {
    forall ws', p'
      ensures Used(t, ws', p') <= Used(s, ws', p') + (if ws' == ws && p' == p then 1 else 0)
    {
      OneNewCountUsed(s, t, r0, ws, p, ws', p');
    }
  }

  lemma ReopenCosts(s: Ledger, ws: Workspace, w: WatcherId, cadence: Cadence, p: Period, now: int)
    requires Inv(s) && w in s.watchers && s.watchers[w].workspace == ws && (ws, p) in s.entitlements
    ensures Costs(s, Reopen(s, ws, w, cadence, p, now), ws, p, 1)
    ensures |Reopen(s, ws, w, cadence, p, now).reservations| == |s.reservations| + 1
  {
    var t := ReleaseWatcher(s, w);
    ReleaseWatcherKeeps(s, w);
    FreeIsCheap(s, t, ws, p);
    assert t.reservations.Keys == s.reservations.Keys;
    var u := t.(watchers := t.watchers[w := Reopened(t.watchers[w], cadence, now)]);
    WatcherUpdateKeeps(t, w, Reopened(t.watchers[w], cadence, now));
    FreeIsCheap(t, u, ws, p);
    ReserveBaselineKeeps(u, ws, w, p, now);
    OneCostsOne(u, ReserveBaseline(u, ws, w, p, now), u.next, ws, p);
    CostsTrans(s, t, u, ws, p, 0, 0);
    CostsTrans(s, u, ReserveBaseline(u, ws, w, p, now), ws, p, 0, 1);
  }

  lemma InsertWatcherKeeps(s: Ledger, row: Watcher)
    requires Inv(s)
    ensures var t := s.(watchers := s.watchers[s.next := row], next := s.next + 1);
      Inv(t) && Advances(s, t) && NoNewCounts(s, t)
  {
    var t := s.(watchers := s.watchers[s.next := row], next := s.next + 1);
    forall r | r in t.reservations
      ensures RowOk(t, r)
    {
      assert RowOk(s, r);
    }
  }

  /** One item costs its credit, and adds as many reservation rows. */
  lemma ActivateItemCosts(s: Ledger, ws: Workspace, item: Item, cadence: Cadence, p: Period, now: int)
    requires Inv(s) && (ws, p) in s.entitlements
    requires item.existing.Some? ==> item.existing.value in s.watchers && s.watchers[item.existing.value].workspace == ws
    ensures var n := if NeedsBaseline(s.watchers, item) then 1 else 0;
      var t := ActivateItem(s, ws, item, cadence, p, now);
      Costs(s, t, ws, p, n) && |t.reservations| == |s.reservations| + n
  {
    if item.existing.None? {
      var born := Watcher(ws, item.group.target, cadence, BaselinePending, None, 0, now, "", EMPTY, now, now);
      var t := s.(watchers := s.watchers[s.next := born], next := s.next + 1);
      InsertWatcherKeeps(s, born);
      FreeIsCheap(s, t, ws, p);
      ReserveBaselineKeeps(t, ws, s.next, p, now);
      OneCostsOne(t, ReserveBaseline(t, ws, s.next, p, now), t.next, ws, p);
      CostsTrans(s, t, ReserveBaseline(t, ws, s.next, p, now), ws, p, 0, 1);
    } else {
      var w := item.existing.value;
      if Runnable(s.watchers[w].state) {
        WatcherUpdateKeeps(s, w, Recadenced(s.watchers[w], cadence, now, now));
        FreeIsCheap(s, ActivateItem(s, ws, item, cadence, p, now), ws, p);
      } else {
        ReopenCosts(s, ws, w, cadence, p, now);
      }
    }
  }

  /** The items of one activation name different targets, and existing watchers of those targets. */
  ghost predicate ItemsOk(m: Watchers, ws: Workspace, items: seq<Item>) {
    && (forall i :: 0 <= i < |items| && items[i].existing.Some? ==>
      && items[i].existing.value in m
      && m[items[i].existing.value].workspace == ws && m[items[i].existing.value].target == items[i].group.target)
    && forall i, j :: 0 <= i < j < |items| ==> items[i].group.target != items[j].group.target
  }

  lemma ResolveItemsOk(m: Watchers, ws: Workspace, targets: seq<Eligible>)
    ensures ItemsOk(m, ws, Resolve(m, ws, GroupTargets(targets)))
  {
  }

  /** A watcher that no item names is left alone. */
  lemma {:induction false} ItemsFrame(s: Ledger, ws: Workspace, items: seq<Item>, cadence: Cadence, p: Period, now: int, w: WatcherId)
    requires w in s.watchers && w < s.next
    requires forall i :: 0 <= i < |items| ==> items[i].existing != Some(w)
    ensures var t := ActivateItems(s, ws, items, cadence, p, now);
      s.next <= t.next && w in t.watchers && t.watchers[w] == s.watchers[w]
  {
    if items != [] {
      ItemsFrame(s, ws, items[..|items| - 1], cadence, p, now, w);
    }
  }

  /** The watcher of the last item is as it was when its turn comes. */
  lemma LastItemKept(s: Ledger, ws: Workspace, items: seq<Item>, cadence: Cadence, p: Period, now: int)
    requires Inv(s) && ItemsOk(s.watchers, ws, items) && items != [] && items[|items| - 1].existing.Some?
    ensures var w := items[|items| - 1].existing.value;
      var t := ActivateItems(s, ws, items[..|items| - 1], cadence, p, now);
      w in t.watchers && w in s.watchers && t.watchers[w] == s.watchers[w]
  {
    var n, w := |items| - 1, items[|items| - 1].existing.value;
    forall i | 0 <= i < n
      ensures items[..n][i].existing != Some(w)
    {
      assert items[i].group.target != items[n].group.target;
    }
    ItemsFrame(s, ws, items[..n], cadence, p, now, w);
  }

  lemma {:induction false} ActivateItemsCosts(s: Ledger, ws: Workspace, items: seq<Item>, cadence: Cadence, p: Period, now: int)
    requires Inv(s) && (ws, p) in s.entitlements && ItemsOk(s.watchers, ws, items)
    ensures var t := ActivateItems(s, ws, items, cadence, p, now);
      Costs(s, t, ws, p, BaselineCredits(s.watchers, items)) && |t.reservations| == |s.reservations| + BaselineCredits(s.watchers, items)
  {
    if items == [] {
      FreeIsCheap(s, s, ws, p);
    } else {
      var n := |items| - 1;
      var t := ActivateItems(s, ws, items[..n], cadence, p, now);
      ActivateItemsCosts(s, ws, items[..n], cadence, p, now);
      if items[n].existing.Some? { LastItemKept(s, ws, items, cadence, p, now); }
      ActivateItemCosts(t, ws, items[n], cadence, p, now);
      CostsTrans(s, t, ActivateItem(t, ws, items[n], cadence, p, now), ws, p,
                 BaselineCredits(s.watchers, items[..n]), if NeedsBaseline(t.watchers, items[n]) then 1 else 0);
    }
  }

  /** Cost within the grant is spending within the grant. */
  lemma CostsSpends(s: Ledger, t: Ledger, ws: Workspace, grant: Grant, n: nat, now: int)
    requires Costs(s, t, ws, grant.period, n) && CurrentGrant(s, ws, now) == Some(grant)
    requires n > 0 ==> Used(s, ws, grant.period) + n <= grant.allocation
    ensures SpendsWithin(s, t, now)
  {
  }

  // ---- one transaction ----

  /** What every transaction other than a begin and a deletion does. */
  ghost predicate Proper(s: Ledger, t: Ledger, now: int) {
    Inv(t) && Advances(s, t) && SpendsWithin(s, t, now)
  }

  lemma ProperTrans(s: Ledger, t: Ledger, u: Ledger, now: int)
    requires Proper(s, t, now) && Proper(t, u, now)
    ensures Proper(s, u, now)
  {
    AdvancesTrans(s, t, u);
    SpendsTrans(s, t, u, now);
  }

  lemma FreeIsProper(s: Ledger, t: Ledger, now: int)
    requires Inv(t) && Advances(s, t) && NoNewCounts(s, t)
    ensures Proper(s, t, now)
  {
    NoNewCountsSpends(s, t, now);
  }

  lemma ReconcileProper(s: Ledger, ws: Workspace, now: int)
    requires Inv(s)
    ensures Proper(s, Reconcile(s, ws, now), now)
  {
    ReconcileKeeps(s, ws, now);
    FreeIsProper(s, Reconcile(s, ws, now), now);
  }

  lemma ActivateProper(s: Ledger, ws: Workspace, input: Activation, expected: Option<Fingerprint>, now: int)
    requires Inv(s) && Activate(s, ws, input, expected, now).Ok?
    ensures Proper(s, Activate(s, ws, input, expected, now).value.0, now)
  {
    var grant, t := CurrentGrant(s, ws, now).value, Reconcile(s, ws, now);
    ReconcileKeeps(s, ws, now);
    ReconcileProper(s, ws, now);
    ActivateReconciledProper(t, ws, input, expected, grant, now);
    ProperTrans(s, t, Activate(s, ws, input, expected, now).value.0, now);
  }

  lemma ActivateReconciledProper(s: Ledger, ws: Workspace, input: Activation, expected: Option<Fingerprint>, grant: Grant, now: int)
    requires Inv(s) && CurrentGrant(s, ws, now) == Some(grant) && (ws, grant.period) in s.entitlements
    requires ActivateReconciled(s, ws, input, expected, grant, now).Ok?
    ensures Proper(s, ActivateReconciled(s, ws, input, expected, grant, now).value.0, now)
  {
    var r := ResolveActivation(s, ws, input, grant);
    ResolveItemsOk(s.watchers, ws, input.targets);
    ActivateItemsCosts(s, ws, r.items, input.cadence, grant.period, now);
    CostsSpends(s, ActivateItems(s, ws, r.items, input.cadence, grant.period, now), ws, grant, r.credits, now);
  }

  lemma MutateProper(s: Ledger, ws: Workspace, w: WatcherId, input: Mutation, now: int)
    requires Inv(s) && Mutate(s, ws, w, input, now).Ok?
    ensures Proper(s, Mutate(s, ws, w, input, now).value, now)
  {
    var row := s.watchers[w];
    var cadence := if input.cadence.Some? then input.cadence.value else row.cadence;
    match input.action
    case Disable =>
      var t := ReleaseWatcher(s, w);
      ReleaseWatcherKeeps(s, w);
      FreeIsProper(s, t, now);
      var off := row.(cadence := cadence, state := Disabled, owner := "", expires := EMPTY, updatedAt := now);
      var u := t.(watchers := t.watchers[w := off]);
      WatcherUpdateKeeps(t, w, off);
      FreeIsProper(t, u, now);
      ReconcileProper(u, ws, now);
      ProperTrans(s, t, u, now);
      ProperTrans(s, u, Reconcile(u, ws, now), now);
    case Resume =>
      ReconcileKeeps(s, ws, now);
      ReconcileProper(s, ws, now);
      var t := Reconcile(s, ws, now);
      var grant := CurrentGrant(s, ws, now).value;
      ResumeProper(t, ws, w, row, cadence, grant, now);
      ProperTrans(s, t, ResumeWatcher(t, ws, w, row, cadence, grant, now).value, now);
    case CadenceOnly =>
      var u := s.(watchers := s.watchers[w := Recadenced(row, cadence, EMPTY, now)]);
      WatcherUpdateKeeps(s, w, Recadenced(row, cadence, EMPTY, now));
      FreeIsProper(s, u, now);
      ReconcileProper(u, ws, now);
      ProperTrans(s, u, Reconcile(u, ws, now), now);
  }

  lemma ResumeProper(s: Ledger, ws: Workspace, w: WatcherId, row: Watcher, cadence: Cadence, grant: Grant, now: int)
    requires Inv(s) && w in s.watchers && s.watchers[w].workspace == ws && CurrentGrant(s, ws, now) == Some(grant)
    requires (ws, grant.period) in s.entitlements && ResumeWatcher(s, ws, w, row, cadence, grant, now).Ok?
    ensures Proper(s, ResumeWatcher(s, ws, w, row, cadence, grant, now).value, now)
  {
    var t := ResumeWatcher(s, ws, w, row, cadence, grant, now).value;
    if Runnable(row.state) || row.state == PausedCredits {
      WatcherUpdateKeeps(s, w, t.watchers[w]);
      FreeIsProper(s, t, now);
    } else {
      ReopenCosts(s, ws, w, cadence, grant.period, now);
      CostsSpends(s, t, ws, grant, 1, now);
    }
  }

  // ---- deletion ----

  /** The guard that could refuse a deletion never fires. */
  lemma DeletionNeverStuck(s: Ledger, ws: Workspace, w: WatcherId)
    requires Inv(s)
    ensures Delete(s, ws, w) != Err(DebitNotPreserved)
    ensures Delete(s, ws, w).Ok? <==> w in s.watchers && s.watchers[w].workspace == ws
  {
    forall p | p in DebitPeriods(s.reservations, w) && w in s.watchers && s.watchers[w].workspace == ws
      ensures (ws, p) in s.entitlements
    {
      var r :| r in s.reservations && s.reservations[r].watcher == w && s.reservations[r].period == p;
      assert RowOk(s, r);
    }
  }

  /** The debits of a watcher that count for a workspace: all of them for its own, none elsewhere. */
  function DebitsFor(s: Ledger, ws: Workspace, w: WatcherId, ws': Workspace, p: Period): set<ReservationId> {
    if ws' == ws then Debits(s.reservations, w, p) else {}
  }

  lemma DebitsAreOwn(s: Ledger, ws: Workspace, w: WatcherId, r: ReservationId)
    requires Inv(s) && w in s.watchers && s.watchers[w].workspace == ws
    requires r in s.reservations && s.reservations[r].watcher == w
    ensures s.reservations[r].workspace == ws && (ws, s.reservations[r].period) in s.entitlements
  {
    assert RowOk(s, r);
  }

  lemma SpentSplits(s: Ledger, ws: Workspace, w: WatcherId, ws': Workspace, p: Period)
    requires Inv(s) && w in s.watchers && s.watchers[w].workspace == ws
    ensures var left := s.reservations - OfWatcher(s.reservations, w);
      |SpentRows(s.reservations, ws', p)| == |SpentRows(left, ws', p)| + |DebitsFor(s, ws, w, ws', p)|
  {
    var left := s.reservations - OfWatcher(s.reservations, w);
    var before, after, debits := SpentRows(s.reservations, ws', p), SpentRows(left, ws', p), DebitsFor(s, ws, w, ws', p);
    forall r
      ensures r in before <==> r in after || r in debits
      ensures !(r in after && r in debits)
    {
      if r in s.reservations && s.reservations[r].watcher == w { DebitsAreOwn(s, ws, w, r); }
    }
    assert before == after + debits && after !! debits;
  }

  lemma CountedSplits(s: Ledger, ws: Workspace, w: WatcherId, ws': Workspace, p: Period)
    requires Inv(s) && w in s.watchers && s.watchers[w].workspace == ws
    ensures var left := s.reservations - OfWatcher(s.reservations, w);
      |Counted(left, ws', p)| + |DebitsFor(s, ws, w, ws', p)| <= |Counted(s.reservations, ws', p)|
  {
    var left := s.reservations - OfWatcher(s.reservations, w);
    var before, after, debits := Counted(s.reservations, ws', p), Counted(left, ws', p), DebitsFor(s, ws, w, ws', p);
    forall r | r in debits
      ensures r in before && r !in after
    {
      DebitsAreOwn(s, ws, w, r);
    }
    assert after !! debits && |after + debits| == |after| + |debits|;
    SubsetSize(after + debits, before);
  }

  lemma PurgedGains(s: Ledger, ws: Workspace, w: WatcherId, ws': Workspace, p: Period)
    requires Inv(s) && Delete(s, ws, w).Ok?
    ensures Purged(Delete(s, ws, w).value, ws', p) == Purged(s, ws', p) + |DebitsFor(s, ws, w, ws', p)|
  {
  }

  /** Deletion moves a watcher's spent credits into its entitlements: nothing spent is lost, and
      nothing used is added. */
  lemma DeletionConserves(s: Ledger, ws: Workspace, w: WatcherId, ws': Workspace, p: Period)
    requires Inv(s) && Delete(s, ws, w).Ok?
    ensures Consumed(Delete(s, ws, w).value, ws', p) == Consumed(s, ws', p)
    ensures Used(Delete(s, ws, w).value, ws', p) <= Used(s, ws', p)
  {
    SpentSplits(s, ws, w, ws', p);
    CountedSplits(s, ws, w, ws', p);
    PurgedGains(s, ws, w, ws', p);
  }

  lemma DeletionKeepsInv(s: Ledger, ws: Workspace, w: WatcherId)
    requires Inv(s) && Delete(s, ws, w).Ok?
    ensures Inv(Delete(s, ws, w).value)
  {
    var t := Delete(s, ws, w).value;
    forall r | r in t.reservations
      ensures RowOk(t, r)
    {
      assert RowOk(s, r);
    }
  }
}
