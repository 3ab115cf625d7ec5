/** One price check: read the page, read it again before believing a change, and record the outcome. */
module PriceWatchCheck {
  import opened Wrappers
  import opened PriceWatchLedger
  import opened PriceWatchInvariants
  import opened PriceWatchRuns
  import PriceWatchStore

  /** One reading of the page: the price on it, or a failure that may be worth another try. */
  datatype Inspection = Seen(price: Price) | Missed(transient: bool)

  /** What the readings amount to, and how many were taken. Reading k is `seen(k)`. */
  function Decide(c: Claim, seen: nat -> Inspection): (r: (Outcome, nat))
    ensures 1 <= r.1 <= 3
  {
    var n := if seen(0).Missed? && seen(0).transient then 2 else 1;
    var first := seen(n - 1);
    if first.Missed? then (Failure, n)
    else if c.state == BaselinePending || c.baseline.None? then (Baseline(first.price), n)
    else if first.price == c.baseline.value then (Unchanged, n)
    else
      var second := seen(n);
      if second.Missed? then (Inconclusive, n + 1)
      else if second.price == first.price then (Change(first.price), n + 1)
      else if second.price == c.baseline.value then (Unchanged, n + 1)
      else (Inconclusive, n + 1)
  }

  /** What the readings amount to. The first that counts is the first of all, or its one retry after a miss that
      may pass; the second is the one after it, and is taken only to confirm a price that is not the stored one. */
  lemma DecisionIs(c: Claim, seen: nat -> Inspection)
    ensures var retried := seen(0).Missed? && seen(0).transient;
      var first, second := if retried then seen(1) else seen(0), if retried then seen(2) else seen(1);
      var unpriced, outcome := c.state == BaselinePending || c.baseline.None?, Decide(c, seen).0;
      && Decide(c, seen).1 == (if retried then 2 else 1) + (if first.Missed? || unpriced || first == Seen(c.baseline.value) then 0 else 1)
      && (outcome == Failure <==> first.Missed?)
      && (forall p :: outcome == Baseline(p) <==> first == Seen(p) && unpriced)
      && (outcome == Unchanged <==> first.Seen? && !unpriced && (first == Seen(c.baseline.value) || second == Seen(c.baseline.value)))
      && (forall p :: outcome == Change(p) <==> first == Seen(p) && second == Seen(p) && !unpriced && p != c.baseline.value)
  {
  }

  /** A change is reported exactly when the watcher has a price to compare with and the last two readings
      agree on another one, the earlier being the first that succeeded or its one retry. */
  lemma ChangeMeansTwoReadings(c: Claim, seen: nat -> Inspection, p: Price)
    ensures var (outcome, n) := Decide(c, seen);
      outcome == Change(p) <==>
        && n >= 2 && c.state != BaselinePending && c.baseline.Some? && p != c.baseline.value
        && seen(n - 2) == Seen(p) && seen(n - 1) == Seen(p)
  {
  }

  datatype Report = Stale | GivenBack | Ended(completion: Completion)

  /** The tables when the readings are done: the attempt has begun, and others went on meanwhile. */
  function Meanwhile(s: Ledger, c: Claim, started: int, between: seq<Event>): Ledger { Run(Begin(s, c, started).0, between) }

  /** One check against the tables: nothing is read unless the attempt begins, and when beginning it
      throws, the claim is given back. */
  function Check(s: Ledger, c: Claim, seen: nat -> Inspection, fault: bool, started: int, between: seq<Event>, ended: int): (Ledger, Report) {
    if fault then (ReleaseClaim(s, c, ended).0, GivenBack)
    else if !Begin(s, c, started).1 then (s, Stale)
    else
      var (t, completion) := Complete(Meanwhile(s, c, started, between), c, Decide(c, seen).0, ended);
      (t, Ended(completion))
  }

  /** An attempt stays as it is, whatever else runs, until it is committed or its watcher is deleted. */
  lemma {:induction false} AttemptLasts(s: Ledger, events: seq<Event>, r: ReservationId)
    requires Inv(s) && Is(s, r, Attempting)
    ensures var t := Run(s, events);
      r in t.reservations ==>
        t.reservations[r] == s.reservations[r] || (Is(t, r, Committed) && t.reservations[r].watcher == s.reservations[r].watcher)
  {
    if events != [] {
      var before, last := events[..|events| - 1], events[|events| - 1];
      assert RowOk(s, r);
      AttemptLasts(s, before, r);
      RunKeepsInv(s, before);
      GoneForGood(s, before, r);
      EveryStepIsSafe(Run(s, before), last);
      EveryStepKeepsIds(Run(s, before), last, r);
    }
  }

  /** What completing a begun check may find: its row is gone, committed, or still the worker's. */
  ghost predicate Begun(u: Ledger, c: Claim) {
    c.reservation in u.reservations ==>
      && u.reservations[c.reservation].watcher == c.watcher
      && (Is(u, c.reservation, Committed) || (Is(u, c.reservation, Attempting) && u.reservations[c.reservation].owner == c.owner))
  }

  /** It ends in a commit of its reservation unless that is gone. It finds the commit already made exactly
      when the reaper was first, changes nothing then, and never wakes a watcher that is not running. */
  ghost predicate EndsWell(u: Ledger, c: Claim, t: Ledger, k: Completion) {
    var r, w := c.reservation, c.watcher;
    && k.event != "error"
    && (r in u.reservations ==> Is(t, r, Committed))
    && (r !in u.reservations || Is(u, r, Committed) ==> t == u)
    && (k.event == "replayed" <==> Is(u, r, Committed))
    && (k.completed <==> Is(u, r, Committed) || (r in u.reservations && u.reservations[r].workspace == c.workspace))
    && (w in u.watchers && !Runnable(u.watchers[w].state) ==> w in t.watchers && t.watchers[w].state == u.watchers[w].state)
  }

  lemma BegunEndsWell(u: Ledger, c: Claim, seen: nat -> Inspection, ended: int)
    requires Inv(u) && Begun(u, c)
    ensures var (t, k) := Complete(u, c, Decide(c, seen).0, ended); EndsWell(u, c, t, k)
  {
    if c.reservation in u.reservations { assert RowOk(u, c.reservation); }
  }

  predicate StillClaimed(s: Ledger, c: Claim) {
    Is(s, c.reservation, Reserved) && s.reservations[c.reservation].watcher == c.watcher && s.reservations[c.reservation].owner == c.owner
  }

  /** Whatever happens while the page is read, a begun check ends well, so completing never throws. */
  lemma CheckNeverThrows(s: Ledger, c: Claim, seen: nat -> Inspection, fault: bool, started: int, between: seq<Event>, ended: int)
    requires Inv(s)
    ensures var (t, report) := Check(s, c, seen, fault, started, between, ended);
      match report
      case Stale => t == s && !Holds(s, c, started)
      case GivenBack => if StillClaimed(s, c) then Is(t, c.reservation, Released) else t == s
      case Ended(k) => EndsWell(Meanwhile(s, c, started, between), c, t, k)
  {
    if !fault && Begin(s, c, started).1 {
      MeanwhileBegun(s, c, started, between);
      BegunEndsWell(Meanwhile(s, c, started, between), c, seen, ended);
    }
  }

  lemma MeanwhileBegun(s: Ledger, c: Claim, started: int, between: seq<Event>)
    requires Inv(s) && Begin(s, c, started).1
    ensures Inv(Meanwhile(s, c, started, between)) && Begun(Meanwhile(s, c, started, between), c)
  {
    EveryStepIsSafe(s, Event(BeginStep(c), started));
    var b := Begin(s, c, started).0;
    RunKeepsInv(b, between);
    AttemptLasts(b, between, c.reservation);
  }

  /** What a check adds to the history is what two readings, or the first reading of a new watcher, showed. */
  lemma CheckRecordsWhatWasSeen(u: Ledger, c: Claim, seen: nat -> Inspection, ended: int)
    ensures var t := Complete(u, c, Decide(c, seen).0, ended).0;
      forall r :: r in t.observations && r !in u.observations ==>
        && r == c.reservation
        && exists k: nat :: k < Decide(c, seen).1 && seen(k) == Seen(t.observations[r].price)
             && (t.observations[r].kind != "baseline" ==> c.baseline.Some? && seen(k + 1) == seen(k))
  {
    var (outcome, n) := Decide(c, seen);
    if outcome.Change? {
      ChangeMeansTwoReadings(c, seen, outcome.price);
      assert seen(n - 2) == Seen(outcome.price) && seen(n - 1) == seen(n - 2);
    }
    if outcome.Baseline? { assert seen(n - 1) == Seen(outcome.price); }
  }

  // ---- on the store ----

  /** One transaction of a run, by the method that makes it. */
  method Serve(store: PriceWatchStore.Store, e: Event)
    modifies store
    ensures store.Db() == Apply(old(store.Db()), e)
  {
    match e.step
    case SubscribeStep(_, _) => ServeBilling(store, e);
    case ReconcileStep(_) => ServeBilling(store, e);
    case DisableStep(_) => ServeBilling(store, e);
    case ActivateStep(ws, _, _) => ServeCustomer(store, e, ws);
    case MutateStep(ws, _, _, _) => ServeCustomer(store, e, ws);
    case DeleteStep(ws, _, _) => ServeCustomer(store, e, ws);
    case ReapStep => ServeReap(store, e);
    case ClaimStep(_, _) => ServeClaim(store, e);
    case BeginStep(claim) => ServeAttempt(store, e, claim);
    case ReleaseStep(claim) => ServeAttempt(store, e, claim);
    case CompleteStep(claim, _) => ServeAttempt(store, e, claim);
  }

  method ServeBilling(store: PriceWatchStore.Store, e: Event)
    requires e.step.SubscribeStep? || e.step.ReconcileStep? || e.step.DisableStep?
    modifies store
    ensures store.Db() == Apply(old(store.Db()), e)
  {
    if e.step.SubscribeStep? {
      store.Subscribe(e.step.ws, e.step.subscription, e.now);
    } else if e.step.ReconcileStep? {
      var _ := store.Reconcile(e.step.ws, e.now);
    } else {
      var _, _ := store.DisableWorkspace(e.step.ws, e.now);
    }
  }

  method ServeReap(store: PriceWatchStore.Store, e: Event)
    requires e.step.ReapStep?
    modifies store
    ensures store.Db() == Apply(old(store.Db()), e)
  {
    ghost var before := store.Db();
    var _, _ := store.Reap(e.now);
    assert store.Db() == Reap(before, e.now);
  }

  method ServeClaim(store: PriceWatchStore.Store, e: Event)
    requires e.step.ClaimStep?
    modifies store
    ensures store.Db() == Apply(old(store.Db()), e)
  {
    var _ := store.ClaimDue(e.step.owner, e.step.limit, e.now);
  }

  method ServeCustomer(store: PriceWatchStore.Store, e: Event, ws: Workspace)
    requires (e.step.ActivateStep? || e.step.MutateStep? || e.step.DeleteStep?) && e.step.ws == ws
    modifies store
    ensures store.Db() == Apply(old(store.Db()), e)
  {
    if e.step.ActivateStep? {
      var _ := store.Activate(ws, e.step.input, e.step.expected, e.now);
    } else if e.step.MutateStep? {
      var _ := store.Mutate(ws, e.step.w, e.step.mutation, e.step.guard, e.now);
    } else {
      var _ := store.Delete(ws, e.step.w, e.step.seen);
    }
  }

  method ServeAttempt(store: PriceWatchStore.Store, e: Event, c: Claim)
    requires (e.step.BeginStep? || e.step.ReleaseStep? || e.step.CompleteStep?) && e.step.claim == c
    modifies store
    ensures store.Db() == Apply(old(store.Db()), e)
  {
    if e.step.BeginStep? {
      var _ := store.Begin(c, e.now);
    } else if e.step.ReleaseStep? {
      var _ := store.Release(c, e.now);
    } else {
      var _ := store.Complete(c, e.step.outcome, e.now);
    }
  }

  /** Transactions of others, one after the other. */
  method Play(store: PriceWatchStore.Store, events: seq<Event>)
    modifies store
    ensures store.Db() == Run(old(store.Db()), events)
  {
    ghost var before := store.Db();
    for i := 0 to |events|
      invariant store.Db() == Run(before, events[..i])
    {
      assert events[..i + 1][..i] == events[..i];
      Serve(store, events[i]);
    }
    assert events[..|events|] == events;
  }

  /** The check as a sequence of calls on the store; `between` is what others do while the page is read. */
  method ProcessClaim(store: PriceWatchStore.Store, c: Claim, seen: nat -> Inspection, fault: bool, started: int,
                      between: seq<Event>, ended: int)
    returns (report: Report)
    modifies store
    ensures (store.Db(), report) == Check(old(store.Db()), c, seen, fault, started, between, ended)
  {
    if fault {
      var _ := store.Release(c, ended);
      return GivenBack;
    }
    var begun := store.Begin(c, started);
    if !begun { return Stale; }
    Play(store, between);
    var n := 1;
    var first := seen(0);
    if first.Missed? && first.transient {
      first := seen(1);
      n := 2;
    }
    var outcome;
    if first.Missed? {
      outcome := Failure;
    } else if c.state == BaselinePending || c.baseline.None? {
      outcome := Baseline(first.price);
    } else if first.price == c.baseline.value {
      outcome := Unchanged;
    } else {
      var second := seen(n);
      if second.Missed? {
        outcome := Inconclusive;
      } else if second.price == first.price {
        outcome := Change(first.price);
      } else {
        outcome := if second.price == c.baseline.value then Unchanged else Inconclusive;
      }
    }
    var r := store.Complete(c, outcome, ended);
    report := Ended(r);
  }
}
