/** Runs: any interleaving of customers, billing, workers and the clock. */
module PriceWatchRuns {
  import opened Collections
  import opened Wrappers
  import opened RowOrder
  import opened PriceWatchLedger
  import opened PriceWatchInvariants
  import opened PriceWatchClaims

  datatype Step =
    | SubscribeStep(ws: Workspace, subscription: Subscription)
    | ReconcileStep(ws: Workspace)
    | DisableStep(ws: Workspace)
    | ActivateStep(ws: Workspace, input: Activation, expected: Option<Fingerprint>)
    | MutateStep(ws: Workspace, w: WatcherId, mutation: Mutation, guard: Option<MutationFingerprint>)
    | DeleteStep(ws: Workspace, w: WatcherId, seen: Option<DeletionFingerprint>)
    | ReapStep
    | ClaimStep(owner: Owner, limit: int)
    | BeginStep(claim: Claim)
    | ReleaseStep(claim: Claim)
    | CompleteStep(claim: Claim, outcome: Outcome)

  /** A transaction and the time it reads. */
  datatype Event = Event(step: Step, now: int)

  /** The tables after one transaction; a transaction that throws leaves them as they were. */
  function Apply(s: Ledger, e: Event): Ledger {
    match e.step
    case SubscribeStep(ws, subscription) => Subscribe(s, ws, subscription, e.now)
    case ReconcileStep(ws) => Reconcile(s, ws, e.now)
    case DisableStep(ws) => DisableWorkspace(s, ws, e.now)
    case ActivateStep(ws, input, expected) =>
      (match Activate(s, ws, input, expected, e.now) case Ok(r) => r.0 case Err(_) => s)
    case MutateStep(ws, w, mutation, guard) =>
      (match MutateAsPreviewed(s, ws, w, mutation, guard, e.now) case Ok(r) => r.0 case Err(_) => s)
    case DeleteStep(ws, w, seen) =>
      (match DeleteAsPreviewed(s, ws, w, seen) case Ok(t) => t case Err(_) => s)
    case ReapStep => Reap(s, e.now)
    case ClaimStep(owner, limit) =>
      (match ClaimDue(s, owner, limit, e.now) case Ok(r) => r.0 case Err(_) => s)
    case BeginStep(claim) => Begin(s, claim, e.now).0
    case ReleaseStep(claim) => ReleaseClaim(s, claim, e.now).0
    case CompleteStep(claim, outcome) => Complete(s, claim, outcome, e.now).0
  }

  function Run(s: Ledger, events: seq<Event>): Ledger {
    if events == [] then s else Apply(Run(s, events[..|events| - 1]), events[|events| - 1])
  }

  const START := Ledger(map[], map[], map[], map[], map[], 0)

  // ---- one step ----

  /** Used credits end at most where they were, or within the current allocation. */
  ghost predicate WithinAllocation(s: Ledger, t: Ledger, now: int) {
    forall ws, p :: Used(t, ws, p) <= Used(s, ws, p) || UnderGrant(t, ws, p, now)
  }

  /** Spent credits never fall. */
  ghost predicate SpentStays(s: Ledger, t: Ledger) {
    forall ws, p :: Consumed(s, ws, p) <= Consumed(t, ws, p)
  }

  /** How a transaction may move one reservation. Only a begin enters an attempt; an attempt stays as it is
      until it is committed; a commit stays; ids are not used again. */
  ghost predicate RowsForward(s: Ledger, t: Ledger, beginning: bool) {
    && s.next <= t.next
    && (forall r :: r in s.reservations && r in t.reservations ==>
      || Settles(s.reservations[r].status, t.reservations[r].status)
      || (beginning && s.reservations[r].status == Reserved && t.reservations[r].status == Attempting))
    && (forall r :: r in s.reservations && r in t.reservations ==> t.reservations[r].watcher == s.reservations[r].watcher)
    && (forall r :: Is(s, r, Attempting) && Is(t, r, Attempting) ==> t.reservations[r] == s.reservations[r])
    && (forall r :: r in t.reservations && r !in s.reservations ==> s.next <= r && !Spent(t.reservations[r].status))
    && (forall r :: r in s.observations && r in t.reservations ==> r in t.observations && t.observations[r] == s.observations[r])
  }

  ghost predicate StepSafe(s: Ledger, e: Event) {
    var t := Apply(s, e);
    Inv(t) && WithinAllocation(s, t, e.now) && SpentStays(s, t) && RowsForward(s, t, e.step.BeginStep?)
  }

  lemma ProperIsSafe(s: Ledger, t: Ledger, now: int)
    requires Proper(s, t, now)
    ensures WithinAllocation(s, t, now) && SpentStays(s, t) && RowsForward(s, t, false)
  {
    forall ws, p
      ensures Consumed(s, ws, p) <= Consumed(t, ws, p)
    {
      AdvancesConsumed(s, t, ws, p);
    }
    forall r | r in s.reservations
      ensures RowMoves(s.reservations[r], t.reservations[r])
    {
    }
  }

  lemma SameIsSafe(s: Ledger, now: int)
    requires Inv(s)
    ensures Proper(s, s, now)
  {
  }

  lemma SubscribeSafe(s: Ledger, ws: Workspace, subscription: Subscription, now: int)
    requires Inv(s)
    ensures StepSafe(s, Event(SubscribeStep(ws, subscription), now))
  {
    var t := s.(subscriptions := s.subscriptions[ws := subscription]);
    forall r | r in t.reservations
      ensures RowOk(t, r)
    {
      assert RowOk(s, r);
    }
    var u := Reconcile(t, ws, now);
    ReconcileProper(t, ws, now);
    ProperIsSafe(t, u, now);
    SubscribedAlike(s, t, u, now);
  }

  /** A subscription counts for nothing until it is reconciled. */
  lemma SubscribedAlike(s: Ledger, t: Ledger, u: Ledger, now: int)
    requires t == s.(subscriptions := t.subscriptions) && WithinAllocation(t, u, now) && SpentStays(t, u) && RowsForward(t, u, false)
    ensures WithinAllocation(s, u, now) && SpentStays(s, u) && RowsForward(s, u, false)
  {
    forall ws', p
      ensures Used(t, ws', p) == Used(s, ws', p) && Consumed(t, ws', p) == Consumed(s, ws', p)
    {
    }
  }

  lemma BeginCounts(s: Ledger, c: Claim, now: int, ws: Workspace, p: Period)
    ensures var t := Begin(s, c, now).0;
      Used(t, ws, p) <= Used(s, ws, p) && Consumed(s, ws, p) <= Consumed(t, ws, p)
  {
    var t := Begin(s, c, now).0;
    SubsetSize(Counted(t.reservations, ws, p), Counted(s.reservations, ws, p));
    SubsetSize(SpentRows(s.reservations, ws, p), SpentRows(t.reservations, ws, p));
  }

  lemma BeginSafe(s: Ledger, c: Claim, now: int)
    requires Inv(s)
    ensures StepSafe(s, Event(BeginStep(c), now))
  {
    var t := Begin(s, c, now).0;
    BeginKeeps(s, c, now);
    forall ws, p
      ensures Used(t, ws, p) <= Used(s, ws, p) && Consumed(s, ws, p) <= Consumed(t, ws, p)
    {
      BeginCounts(s, c, now, ws, p);
    }
  }

  lemma BeginKeeps(s: Ledger, c: Claim, now: int)
    requires Inv(s)
    ensures Inv(Begin(s, c, now).0) && RowsForward(s, Begin(s, c, now).0, true)
  {
    var t := Begin(s, c, now).0;
    forall r | r in t.reservations
      ensures RowOk(t, r)
    {
      assert RowOk(s, r);
    }
  }

  lemma CompleteCounts(s: Ledger, c: Claim, outcome: Outcome, now: int)
    requires Inv(s)
    ensures WithinAllocation(s, Complete(s, c, outcome, now).0, now) && SpentStays(s, Complete(s, c, outcome, now).0)
  {
    var t := Complete(s, c, outcome, now).0;
    CompleteKeeps(s, c, outcome, now);
    var bare := t.(observations := s.observations);
    forall ws, p
      ensures Used(t, ws, p) <= Used(s, ws, p) && Consumed(s, ws, p) <= Consumed(t, ws, p)
    {
      NoNewCountsUsed(s, bare, ws, p);
      AdvancesConsumed(s, bare, ws, p);
    }
  }

  lemma CompleteSafe(s: Ledger, c: Claim, outcome: Outcome, now: int)
    requires Inv(s)
    ensures StepSafe(s, Event(CompleteStep(c, outcome), now))
  {
    var t := Complete(s, c, outcome, now).0;
    CompleteCounts(s, c, outcome, now);
    CompleteKeeps(s, c, outcome, now);
    var bare := t.(observations := s.observations);
    forall r | r in s.reservations
      ensures RowMoves(s.reservations[r], bare.reservations[r])
    {
    }
  }

  lemma DeleteSafe(s: Ledger, ws: Workspace, w: WatcherId)
    requires Inv(s) && Delete(s, ws, w).Ok?
    ensures var t := Delete(s, ws, w).value; Inv(t) && SpentStays(s, t) && RowsForward(s, t, false)
    ensures forall now :: WithinAllocation(s, Delete(s, ws, w).value, now)
  {
    var t := Delete(s, ws, w).value;
    DeletionKeepsInv(s, ws, w);
    forall ws', p
      ensures Used(t, ws', p) <= Used(s, ws', p) && Consumed(t, ws', p) == Consumed(s, ws', p)
    {
      DeletionConserves(s, ws, w, ws', p);
    }
  }

  /** Every transaction, whoever runs it and whenever. */
  lemma EveryStepIsSafe(s: Ledger, e: Event)
    requires Inv(s)
    ensures StepSafe(s, e)
  {
    var t := Apply(s, e);
    match e.step
    case SubscribeStep(ws, subscription) => SubscribeSafe(s, ws, subscription, e.now);
    case BeginStep(claim) => BeginSafe(s, claim, e.now);
    case CompleteStep(claim, outcome) => CompleteSafe(s, claim, outcome, e.now);
    case DeleteStep(ws, w, seen) =>
      if DeleteAsPreviewed(s, ws, w, seen).Ok? { DeleteSafe(s, ws, w); } else { SameIsSafe(s, e.now); ProperIsSafe(s, t, e.now); }
    case _ =>
      QuietStepProper(s, e);
      ProperIsSafe(s, t, e.now);
  }

  lemma QuietStepProper(s: Ledger, e: Event)
    requires Inv(s) && !e.step.SubscribeStep? && !e.step.BeginStep? && !e.step.CompleteStep? && !e.step.DeleteStep?
    ensures Proper(s, Apply(s, e), e.now)
  {
    SameIsSafe(s, e.now);
    match e.step
    case ReconcileStep(ws) => ReconcileProper(s, ws, e.now);
    case DisableStep(ws) => DisableKeeps(s, ws, e.now); FreeIsProper(s, Apply(s, e), e.now);
    case ActivateStep(ws, input, expected) =>
      if Activate(s, ws, input, expected, e.now).Ok? { ActivateProper(s, ws, input, expected, e.now); }
    case MutateStep(ws, w, mutation, guard) =>
      if MutateAsPreviewed(s, ws, w, mutation, guard, e.now).Ok? { MutateProper(s, ws, w, mutation, e.now); }
    case ReapStep => ReapKeeps(s, e.now); FreeIsProper(s, Apply(s, e), e.now);
    case ClaimStep(owner, limit) =>
      if ClaimDue(s, owner, limit, e.now).Ok? { ClaimDueProper(s, owner, limit, e.now); }
    case ReleaseStep(claim) => ReleaseClaimKeeps(s, claim, e.now); FreeIsProper(s, Apply(s, e), e.now);
  }

  // ---- whole runs ----

  lemma {:induction false} RunKeepsInv(s: Ledger, events: seq<Event>)
    requires Inv(s)
    ensures Inv(Run(s, events))
  {
    if events != [] {
      RunKeepsInv(s, events[..|events| - 1]);
      EveryStepIsSafe(Run(s, events[..|events| - 1]), events[|events| - 1]);
    }
  }

  /** Attempted, committed and purged credits of a period never decrease, deletions included. */
  lemma {:induction false} SpentNeverFalls(s: Ledger, events: seq<Event>, ws: Workspace, p: Period)
    requires Inv(s)
    ensures Consumed(s, ws, p) <= Consumed(Run(s, events), ws, p)
  {
    if events != [] {
      var before := events[..|events| - 1];
      SpentNeverFalls(s, before, ws, p);
      RunKeepsInv(s, before);
      EveryStepIsSafe(Run(s, before), events[|events| - 1]);
    }
  }

  /** From the empty tables, in every reachable state: a deletion is never refused for want of an
      entitlement row, and every next transaction spends only within the allocation. */
  lemma ReachableStatesAreSafe(events: seq<Event>, e: Event)
    ensures var s := Run(START, events);
      && Inv(s) && StepSafe(s, e)
      && (e.step.DeleteStep? ==> DeleteAsPreviewed(s, e.step.ws, e.step.w, e.step.seen) != Err(DebitNotPreserved))
  {
    RunKeepsInv(START, events);
    var s := Run(START, events);
    EveryStepIsSafe(s, e);
    if e.step.DeleteStep? { DeletionNeverStuck(s, e.step.ws, e.step.w); }
  }

  /** Has the row this status? */
  predicate Is(s: Ledger, r: ReservationId, status: Status) { r in s.reservations && s.reservations[r].status == status }

  /** How often a run moves reservation r into a status. */
  function Entries(s: Ledger, events: seq<Event>, r: ReservationId, status: Status): nat {
    if events == [] then 0
    else
      var before := events[..|events| - 1];
      Entries(s, before, r, status)
        + (if !Is(Run(s, before), r, status) && Is(Run(s, events), r, status) then 1 else 0)
  }

  /** A reservation that can still enter the status. */
  predicate MayEnter(s: Ledger, r: ReservationId, status: Status) {
    if r in s.reservations then !Spent(s.reservations[r].status) || (status == Committed && s.reservations[r].status == Attempting)
    else r >= s.next
  }

  /** Over any run a reservation enters an attempt at most once and is committed at most once, by a
      completion or by the reaper but never by both. */
  lemma {:induction false} EnteredOnce(s: Ledger, events: seq<Event>, r: ReservationId, status: Status)
    requires Inv(s) && Spent(status)
    ensures Entries(s, events, r, status) <= (if MayEnter(s, r, status) then 1 else 0)
    ensures Entries(s, events, r, status) == 1 ==> !MayEnter(Run(s, events), r, status)
    ensures !MayEnter(s, r, status) ==> !MayEnter(Run(s, events), r, status)
  {
    if events != [] {
      var before := events[..|events| - 1];
      var t := Run(s, before);
      EnteredOnce(s, before, r, status);
      RunKeepsInv(s, before);
      EveryStepIsSafe(t, events[|events| - 1]);
      assert r in t.reservations ==> RowOk(t, r);
    }
  }

  /** A deleted reservation id never comes back. */
  lemma {:induction false} GoneForGood(s: Ledger, events: seq<Event>, r: ReservationId)
    requires Inv(s) && r < s.next
    ensures r < Run(s, events).next
    ensures r in Run(s, events).reservations ==> r in s.reservations
  {
    if events != [] {
      var before := events[..|events| - 1];
      RunKeepsInv(s, before);
      GoneForGood(s, before, r);
      EveryStepIsSafe(Run(s, before), events[|events| - 1]);
    }
  }

  /** After a reservation is committed, any later completion for it, by whatever claim, changes nothing. */
  lemma LateCompletionIsIdle(s: Ledger, events: seq<Event>, c: Claim, outcome: Outcome, now: int)
    requires Inv(s) && Is(s, c.reservation, Committed)
    ensures Complete(Run(s, events), c, outcome, now).0 == Run(s, events)
  {
    var t := Run(s, events);
    assert RowOk(s, c.reservation);
    EnteredOnce(s, events, c.reservation, Attempting);
    GoneForGood(s, events, c.reservation);
    CompleteShape(t, c, outcome, now);
    StaysCommitted(s, events, c.reservation);
  }

  lemma {:induction false} StaysCommitted(s: Ledger, events: seq<Event>, r: ReservationId)
    requires Inv(s) && Is(s, r, Committed)
    ensures r in Run(s, events).reservations ==> Is(Run(s, events), r, Committed)
  {
    if events != [] {
      var before := events[..|events| - 1];
      assert RowOk(s, r);
      RunKeepsInv(s, before);
      StaysCommitted(s, before, r);
      GoneForGood(s, before, r);
      EveryStepIsSafe(Run(s, before), events[|events| - 1]);
      EveryStepKeepsIds(Run(s, before), events[|events| - 1], r);
    }
  }

  lemma EveryStepKeepsIds(s: Ledger, e: Event, r: ReservationId)
    requires Inv(s) && r < s.next
    ensures r < Apply(s, e).next && (r in Apply(s, e).reservations ==> r in s.reservations)
  {
    EveryStepIsSafe(s, e);
  }

  lemma ObservationStep(s: Ledger, e: Event, r: ReservationId)
    requires Inv(s) && r in s.observations && r in Apply(s, e).reservations
    ensures r in Apply(s, e).observations && Apply(s, e).observations[r] == s.observations[r]
  {
    EveryStepIsSafe(s, e);
  }

  /** A stored observation stays what it was for as long as its reservation is stored. */
  lemma {:induction false} ObservationStays(s: Ledger, events: seq<Event>, r: ReservationId)
    requires Inv(s) && r in s.observations
    ensures r in Run(s, events).reservations ==>
      r in Run(s, events).observations && Run(s, events).observations[r] == s.observations[r]
  {
    if events != [] && r in Run(s, events).reservations {
      var before, last := events[..|events| - 1], events[|events| - 1];
      assert RowOk(s, r);
      RunKeepsInv(s, before);
      GoneForGood(s, before, r);
      EveryStepKeepsIds(Run(s, before), last, r);
      ObservationStays(s, before, r);
      ObservationStep(Run(s, before), last, r);
    }
  }

  // ---- claims that were lost ----

  /** A reserved row under a lease. */
  predicate Leased(row: Reservation) { row.status == Reserved && row.lease != EMPTY }

  /** Every lease in t that names someone other than `owner` was already there in s, unchanged. */
  ghost predicate LeasesKept(s: Ledger, t: Ledger, owner: Owner) {
    forall r :: r in t.reservations && Leased(t.reservations[r]) && t.reservations[r].owner !in ["", owner] ==>
      r in s.reservations && t.reservations[r] == s.reservations[r]
  }

  lemma ActivateItemLeases(s: Ledger, ws: Workspace, item: Item, cadence: Cadence, p: Period, now: int)
    ensures LeasesKept(s, ActivateItem(s, ws, item, cadence, p, now), "")
  {
  }

  lemma {:induction false} ActivateItemsLeases(s: Ledger, ws: Workspace, items: seq<Item>, cadence: Cadence, p: Period, now: int)
    ensures LeasesKept(s, ActivateItems(s, ws, items, cadence, p, now), "")
  {
    if items != [] {
      var n := |items| - 1;
      ActivateItemsLeases(s, ws, items[..n], cadence, p, now);
      ActivateItemLeases(ActivateItems(s, ws, items[..n], cadence, p, now), ws, items[n], cadence, p, now);
    }
  }

  lemma ReapRowLeases(s: Ledger, r: ReservationId, seen: Watcher, now: int)
    ensures LeasesKept(s, ReapRow(s, r, seen, now), "")
  {
  }

  lemma {:induction false} ReapRowsLeases(s: Ledger, read: Ledger, rows: seq<ReservationId>, now: int)
    ensures LeasesKept(s, ReapRows(s, read, rows, now), "")
  {
    if rows != [] {
      var n := |rows| - 1;
      var t := ReapRows(s, read, rows[..n], now);
      ReapRowsLeases(s, read, rows[..n], now);
      if rows[n] in read.reservations && read.reservations[rows[n]].watcher in read.watchers {
        var seen := read.watchers[read.reservations[rows[n]].watcher];
        ReapRowLeases(t, rows[n], seen, now);
        LeasesTrans(s, t, ReapRow(t, rows[n], seen, now), "");
      }
    }
  }

  lemma ReapLeases(s: Ledger, now: int)
    ensures LeasesKept(s, Reap(s, now), "")
  {
    ReapRowsLeases(s, s, OrderBy(Expired(s, now), LeaseRank(s.reservations)), now);
  }

  lemma ForSlotLeases(s: Ledger, w: WatcherId, row: Watcher, p: Period, now: int)
    ensures LeasesKept(s, ReservationForSlot(s, w, row, p, now).0, "")
  {
  }

  lemma ForClaimLeases(s: Ledger, w: WatcherId, row: Watcher, p: Period, now: int)
    ensures LeasesKept(s, ReservationForClaim(s, w, row, p, now).0, "")
  {
    ForSlotLeases(s, w, row, p, now);
  }

  lemma LeaseLeases(s: Ledger, w: WatcherId, row: Watcher, r: ReservationId, owner: Owner, now: int)
    ensures LeasesKept(s, Lease(s, w, row, r, owner, now).0, owner)
  {
  }

  lemma LeasesTrans(s: Ledger, t: Ledger, u: Ledger, owner: Owner)
    requires LeasesKept(s, t, owner) && LeasesKept(t, u, owner)
    ensures LeasesKept(s, u, owner)
  {
  }

  lemma ReconcileLeases(s: Ledger, ws: Workspace, now: int)
    ensures LeasesKept(s, Reconcile(s, ws, now), "")
  {
  }

  lemma AnyOwner(s: Ledger, t: Ledger, owner: Owner)
    requires LeasesKept(s, t, "")
    ensures LeasesKept(s, t, owner)
  {
  }

  lemma ClaimOneLeases(s: Ledger, w: WatcherId, row: Watcher, owner: Owner, now: int)
    ensures LeasesKept(s, ClaimOne(s, w, row, owner, now).0, owner)
  {
    var t, end := Reconcile(s, row.workspace, now), ClaimOne(s, w, row, owner, now).0;
    ReconcileLeases(s, row.workspace, now);
    AnyOwner(s, t, owner);
    match CurrentGrant(s, row.workspace, now)
    case None =>
    case Some(grant) =>
      var waiting := WaitingBaselines(t.reservations, w, grant.period);
      if row.state == BaselinePending && waiting != {} {
        LeaseLeases(t, w, row, First(waiting, OldestRank(t.reservations)), owner, now);
      } else if Remaining(t, row.workspace, grant) >= 1 {
        var (u, chosen) := ReservationForClaim(t, w, row, grant.period, now);
        ForClaimLeases(t, w, row, grant.period, now);
        AnyOwner(t, u, owner);
        if chosen.Some? {
          LeaseLeases(u, w, row, chosen.value, owner, now);
          LeasesTrans(t, u, end, owner);
        }
      }
      LeasesTrans(s, t, end, owner);
  }

  lemma {:induction false} ClaimEachLeases(s: Ledger, read: Watchers, due: seq<WatcherId>, bounded: nat, owner: Owner, now: int)
    ensures LeasesKept(s, ClaimEach(s, read, due, bounded, owner, now).0, owner)
  {
    if due != [] {
      var n := |due| - 1;
      ClaimEachLeases(s, read, due[..n], bounded, owner, now);
      var (t, claims) := ClaimEach(s, read, due[..n], bounded, owner, now);
      if |claims| < bounded && due[n] in read {
        ClaimOneLeases(t, due[n], read[due[n]], owner, now);
        LeasesTrans(s, t, ClaimOne(t, due[n], read[due[n]], owner, now).0, owner);
      }
    }
  }

  lemma ClaimDueLeases(s: Ledger, owner: Owner, limit: int, now: int)
    requires owner != ""
    ensures LeasesKept(s, ClaimDue(s, owner, limit, now).value.0, owner)
  {
    var t := Reap(s, now);
    ReapLeases(s, now);
    AnyOwner(s, t, owner);
    var due := DueList(t.watchers, now, 4 * Bounded(limit));
    ClaimEachLeases(t, t.watchers, due, Bounded(limit), owner, now);
    LeasesTrans(s, t, ClaimEach(t, t.watchers, due, Bounded(limit), owner, now).0, owner);
  }

  lemma UpdateLeases(s: Ledger, w: WatcherId, row: Watcher, ws: Workspace, now: int)
    ensures LeasesKept(s, Reconcile(s.(watchers := s.watchers[w := row]), ws, now), "")
  {
  }

  lemma ReleaseWatcherLeases(s: Ledger, w: WatcherId)
    ensures LeasesKept(s, ReleaseWatcher(s, w), "")
  {
  }

  lemma ReopenLeases(s: Ledger, ws: Workspace, w: WatcherId, cadence: Cadence, p: Period, now: int)
    requires w in s.watchers
    ensures LeasesKept(s, Reopen(s, ws, w, cadence, p, now), "")
  {
  }

  lemma ResumeLeases(s: Ledger, ws: Workspace, w: WatcherId, row: Watcher, cadence: Cadence, grant: Grant, now: int)
    requires w in s.watchers && ResumeWatcher(s, ws, w, row, cadence, grant, now).Ok?
    ensures LeasesKept(s, ResumeWatcher(s, ws, w, row, cadence, grant, now).value, "")
  {
    if !Runnable(row.state) && row.state != PausedCredits { ReopenLeases(s, ws, w, cadence, grant.period, now); }
  }

  lemma MutateLeases(s: Ledger, ws: Workspace, w: WatcherId, input: Mutation, now: int)
    requires Mutate(s, ws, w, input, now).Ok?
    ensures LeasesKept(s, Mutate(s, ws, w, input, now).value, "")
  {
    var row := s.watchers[w];
    var cadence := if input.cadence.Some? then input.cadence.value else row.cadence;
    match input.action
    case Disable =>
      var t := ReleaseWatcher(s, w);
      ReleaseWatcherLeases(s, w);
      UpdateLeases(t, w, row.(cadence := cadence, state := Disabled, owner := "", expires := EMPTY, updatedAt := now), ws, now);
      LeasesTrans(s, t, Mutate(s, ws, w, input, now).value, "");
    case Resume =>
      var t := Reconcile(s, ws, now);
      ReconcileLeases(s, ws, now);
      ResumeLeases(t, ws, w, row, cadence, CurrentGrant(s, ws, now).value, now);
      LeasesTrans(s, t, Mutate(s, ws, w, input, now).value, "");
    case CadenceOnly => UpdateLeases(s, w, Recadenced(row, cadence, EMPTY, now), ws, now);
  }

  lemma ActivateLeases(s: Ledger, ws: Workspace, input: Activation, expected: Option<Fingerprint>, now: int)
    requires Activate(s, ws, input, expected, now).Ok?
    ensures LeasesKept(s, Activate(s, ws, input, expected, now).value.0, "")
  {
    var t, grant := Reconcile(s, ws, now), CurrentGrant(s, ws, now).value;
    ReconcileLeases(s, ws, now);
    ActivateItemsLeases(t, ws, ResolveActivation(t, ws, input, grant).items, input.cadence, grant.period, now);
    LeasesTrans(s, t, Activate(s, ws, input, expected, now).value.0, "");
  }

  lemma CompleteLeases(s: Ledger, c: Claim, outcome: Outcome, now: int)
    ensures LeasesKept(s, Complete(s, c, outcome, now).0, "")
  {
    CompleteShape(s, c, outcome, now);
  }

  lemma DeleteLeases(s: Ledger, ws: Workspace, w: WatcherId)
    requires Delete(s, ws, w).Ok?
    ensures LeasesKept(s, Delete(s, ws, w).value, "")
  {
  }

  lemma BeginLeases(s: Ledger, c: Claim, now: int)
    ensures LeasesKept(s, Begin(s, c, now).0, "")
  {
  }

  lemma ReleaseLeases(s: Ledger, c: Claim, now: int)
    ensures LeasesKept(s, ReleaseClaim(s, c, now).0, "")
  {
  }

  lemma DisableLeases(s: Ledger, ws: Workspace, now: int)
    ensures LeasesKept(s, DisableWorkspace(s, ws, now), "")
  {
  }

  lemma SubscribeLeases(s: Ledger, ws: Workspace, subscription: Subscription, now: int)
    ensures LeasesKept(s, Subscribe(s, ws, subscription, now), "")
  {
    ReconcileLeases(s.(subscriptions := s.subscriptions[ws := subscription]), ws, now);
  }

  predicate WorkerStep(step: Step) {
    step.ReapStep? || step.ClaimStep? || step.BeginStep? || step.ReleaseStep? || step.CompleteStep?
  }

  /** The one owner in whose name a step may create leases. */
  function Claimant(step: Step): Owner { if step.ClaimStep? then step.owner else "" }

  lemma CustomerStepLeases(s: Ledger, e: Event)
    requires !WorkerStep(e.step)
    ensures LeasesKept(s, Apply(s, e), "")
  {
    match e.step
    case SubscribeStep(ws, subscription) => SubscribeLeases(s, ws, subscription, e.now);
    case ReconcileStep(ws) => ReconcileLeases(s, ws, e.now);
    case DisableStep(ws) => DisableLeases(s, ws, e.now);
    case ActivateStep(ws, input, expected) =>
      if Activate(s, ws, input, expected, e.now).Ok? { ActivateLeases(s, ws, input, expected, e.now); }
    case MutateStep(ws, w, mutation, guard) =>
      if MutateAsPreviewed(s, ws, w, mutation, guard, e.now).Ok? { MutateLeases(s, ws, w, mutation, e.now); }
    case DeleteStep(ws, w, seen) => if DeleteAsPreviewed(s, ws, w, seen).Ok? { DeleteLeases(s, ws, w); }
  }

  lemma WorkerStepLeases(s: Ledger, e: Event)
    requires WorkerStep(e.step)
    ensures LeasesKept(s, Apply(s, e), Claimant(e.step))
  {
    match e.step
    case ReapStep => ReapLeases(s, e.now);
    case ClaimStep(owner, limit) => if owner != "" { ClaimDueLeases(s, owner, limit, e.now); }
    case BeginStep(claim) => BeginLeases(s, claim, e.now);
    case ReleaseStep(claim) => ReleaseLeases(s, claim, e.now);
    case CompleteStep(claim, outcome) => CompleteLeases(s, claim, outcome, e.now);
  }

  /** Only a claim by `owner` itself can create a lease in that name. */
  lemma EveryStepKeepsLeases(s: Ledger, e: Event)
    ensures LeasesKept(s, Apply(s, e), Claimant(e.step))
  {
    if WorkerStep(e.step) { WorkerStepLeases(s, e); } else { CustomerStepLeases(s, e); }
  }

  lemma HeldBefore(s: Ledger, t: Ledger, c: Claim, other: Owner, now: int)
    requires LeasesKept(s, t, other) && c.owner !in ["", other] && now >= 0
    ensures Holds(t, c, now) ==> Holds(s, c, now)
  {
  }

  /** Does the run stay clear of claims by this owner, at times no earlier than `from`? */
  ghost predicate Others(events: seq<Event>, owner: Owner, from: int) {
    forall i :: 0 <= i < |events| ==> events[i].now >= from && (events[i].step.ClaimStep? ==> events[i].step.owner != owner)
  }

  /** A worker whose claim was reaped, disabled, re-issued or has run out never gets it back while its
      owner name is not used again: its begin is refused and changes nothing, however late it comes. */
  lemma {:induction false} LostClaimStaysLost(s: Ledger, c: Claim, from: int, events: seq<Event>, now: int)
    requires Inv(s) && c.owner != "" && from >= 0 && !Holds(s, c, from)
    requires Others(events, c.owner, from) && now >= from
    ensures !Holds(Run(s, events), c, now)
    ensures Begin(Run(s, events), c, now) == (Run(s, events), false)
  {
    if events != [] {
      var before, last := events[..|events| - 1], events[|events| - 1];
      var t := Run(s, before);
      EveryStepKeepsLeases(t, last);
      HeldBefore(t, Run(s, events), c, Claimant(last.step), now);
      LostClaimStaysLost(s, c, from, before, now);
    }
  }
}
