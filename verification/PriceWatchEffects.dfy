/** What each transaction leaves a watcher and its reservations as. */
module PriceWatchEffects {
  import opened Wrappers
  import opened PriceWatchLedger
  import opened PriceWatchInvariants
  import opened PriceWatchKeys
  import opened PriceWatchPreview

  ghost predicate Running(w: Watcher) { w.state == Active || w.state == BaselinePending }

  ghost predicate Unclaimed(w: Watcher) { w.owner == "" && w.expires == EMPTY }

  ghost predicate NothingReserved(s: Ledger, w: WatcherId) {
    forall r :: r in s.reservations && s.reservations[r].watcher == w ==> s.reservations[r].status != Reserved
  }

  // ---- plans ----

  /** A workspace has a grant exactly while an active subscription with a known plan is in its period; what it
      may use is its plan's number of credits. */
  lemma GrantIs(s: Ledger, ws: Workspace, now: int)
    ensures var grant := CurrentGrant(s, ws, now);
      && (grant.Some? <==> ws in s.subscriptions && s.subscriptions[ws].active && s.subscriptions[ws].plan.Some?
                           && s.subscriptions[ws].period.Some?
                           && s.subscriptions[ws].period.value.start <= now < s.subscriptions[ws].period.value.end)
      && (grant.Some? ==>
        && grant.value.period == s.subscriptions[ws].period.value
        && grant.value.allocation == match s.subscriptions[ws].plan.value
             case Starter => 1_000 case Solo => 5_000 case Growth => 25_000 case Agency => 100_000)
  {
  }

  /** What counts as used is what is reserved, attempted, committed, or was so for a watcher since deleted; what
      counts as spent is the same without what is only reserved. */
  lemma UsedIs(s: Ledger, ws: Workspace, p: Period)
    ensures var purged := if (ws, p) in s.entitlements then s.entitlements[(ws, p)].purged else 0;
      && Used(s, ws, p) == purged + |set r | r in s.reservations && s.reservations[r].workspace == ws && s.reservations[r].period == p
             && (s.reservations[r].status == Reserved || s.reservations[r].status == Attempting || s.reservations[r].status == Committed)|
      && Consumed(s, ws, p) == purged + |set r | r in s.reservations && s.reservations[r].workspace == ws && s.reservations[r].period == p
             && (s.reservations[r].status == Attempting || s.reservations[r].status == Committed)|
  {
    var used := set r | r in s.reservations && s.reservations[r].workspace == ws && s.reservations[r].period == p
      && (s.reservations[r].status == Reserved || s.reservations[r].status == Attempting || s.reservations[r].status == Committed);
    var spent := set r | r in s.reservations && s.reservations[r].workspace == ws && s.reservations[r].period == p
      && (s.reservations[r].status == Attempting || s.reservations[r].status == Committed);
    assert used == Counted(s.reservations, ws, p) && spent == SpentRows(s.reservations, ws, p);
  }

  /** Without a grant every running watcher of the workspace is paused, and so is one that was paused for credits;
      nothing is left reserved. */
  lemma ReconcileWithoutGrant(s: Ledger, ws: Workspace, now: int, w: WatcherId)
    requires CurrentGrant(s, ws, now).None? && w in s.watchers && s.watchers[w].workspace == ws
    ensures var t, row := Reconcile(s, ws, now), s.watchers[w];
      && w in t.watchers && t.watchers[w].baseline == row.baseline && t.watchers[w].cadence == row.cadence && t.watchers[w].failures == row.failures
      && (if Running(row) || row.state == PausedCredits
          then t.watchers[w].state == PausedSubscription && Unclaimed(t.watchers[w]) else t.watchers[w] == row)
      && forall r :: r in t.reservations && t.reservations[r].workspace == ws ==> t.reservations[r].status != Reserved
  {
  }

  /** With one, nothing stays reserved for another period; and the first time in a period, credits are renewed
      and the watchers that had run out of them are due at once. */
  lemma ReconcileWithGrant(s: Ledger, ws: Workspace, now: int, w: WatcherId)
    requires CurrentGrant(s, ws, now).Some? && w in s.watchers && s.watchers[w].workspace == ws
    ensures var t, row, grant := Reconcile(s, ws, now), s.watchers[w], CurrentGrant(s, ws, now).value;
      && w in t.watchers
      && (if row.state == PausedCredits && (ws, grant.period) !in s.entitlements
          then t.watchers[w] == row.(state := if row.baseline.Some? then Active else BaselinePending, nextCheck := now, updatedAt := now)
          else t.watchers[w] == row)
      && (ws, grant.period) in t.entitlements
      && t.entitlements[(ws, grant.period)].plan == grant.plan && t.entitlements[(ws, grant.period)].allocation == grant.allocation
      && forall r :: r in t.reservations && t.reservations[r].workspace == ws && t.reservations[r].status == Reserved ==>
           t.reservations[r].period == grant.period
  {
  }

  /** Nobody else's watchers and reservations are touched. */
  lemma ReconcileElsewhere(s: Ledger, ws: Workspace, now: int)
    ensures var t := Reconcile(s, ws, now);
      && (forall w :: w in s.watchers && s.watchers[w].workspace != ws ==> w in t.watchers && t.watchers[w] == s.watchers[w])
      && (forall r :: r in s.reservations && s.reservations[r].workspace != ws ==> r in t.reservations && t.reservations[r] == s.reservations[r])
      && (forall r :: r in s.reservations && s.reservations[r].status != Reserved ==> r in t.reservations && t.reservations[r] == s.reservations[r])
      && (forall r :: r in s.reservations && s.reservations[r].status == Reserved ==>
        r in t.reservations && t.reservations[r] in [s.reservations[r], s.reservations[r].(status := Released, owner := "", lease := EMPTY)])
  {
  }

  /** Every watcher of a workspace that is disabled is disabled and nobody's, and nothing of it stays reserved. */
  lemma WorkspaceIsDisabled(s: Ledger, ws: Workspace, now: int)
    ensures var t := DisableWorkspace(s, ws, now);
      && t.watchers.Keys == s.watchers.Keys
      && (forall w :: w in s.watchers ==> if s.watchers[w].workspace != ws then t.watchers[w] == s.watchers[w]
            else t.watchers[w].state == Disabled && (s.watchers[w].state != Disabled ==> Unclaimed(t.watchers[w])))
      && (forall r :: r in t.reservations && t.reservations[r].workspace == ws ==> t.reservations[r].status != Reserved)
  {
  }

  // ---- mutations ----

  function Requested(row: Watcher, input: Mutation): Cadence { if input.cadence.Some? then input.cadence.value else row.cadence }

  /** After a disabling the watcher is disabled and nobody's, and nothing of it is reserved. */
  lemma DisablingSets(s: Ledger, ws: Workspace, w: WatcherId, input: Mutation, now: int)
    requires Mutate(s, ws, w, input, now).Ok? && input.action == Disable
    ensures var t, row := Mutate(s, ws, w, input, now).value, s.watchers[w];
      && w in t.watchers && t.watchers[w].state == Disabled && Unclaimed(t.watchers[w]) && NothingReserved(t, w)
      && t.watchers[w].cadence == Requested(row, input) && t.watchers[w].baseline == row.baseline
  {
  }

  /** After a resumption it runs. One that ran already keeps its state; any other starts afresh, is due at once
      and nobody's: one that ran out of credits goes on from its stored price, if it has one, and the others wait
      for a first price, for which a credit of the period is reserved. */
  lemma ResumingSets(s: Ledger, ws: Workspace, w: WatcherId, input: Mutation, now: int)
    requires Inv(s) && Mutate(s, ws, w, input, now).Ok? && input.action == Resume
    ensures var t, row := Mutate(s, ws, w, input, now).value, s.watchers[w];
      && w in t.watchers && Running(t.watchers[w]) && t.watchers[w].cadence == Requested(row, input)
      && (if Running(row) then t.watchers[w].state == row.state && t.watchers[w].baseline == row.baseline && t.watchers[w].failures == row.failures
          else t.watchers[w].failures == 0 && t.watchers[w].nextCheck == now && Unclaimed(t.watchers[w]))
      && (row.state == PausedCredits ==>
        && t.watchers[w].baseline == row.baseline
        && (t.watchers[w].state == Active <==> row.baseline.Some? && row.baseline.value.amount > 0))
      && (!Running(row) && row.state != PausedCredits ==>
        t.watchers[w].state == BaselinePending && t.watchers[w].baseline.None? && BaselineWaits(t, ws, w, now))
  {
    var grant := CurrentGrant(s, ws, now).value;
    var u, row := Reconcile(s, ws, now), s.watchers[w];
    if !Running(row) && row.state != PausedCredits {
      ReconcileKeeps(s, ws, now);
      ReopeningSets(u, ws, w, Requested(row, input), grant, now);
    }
  }

  ghost predicate IsBaseline(row: Reservation, ws: Workspace, w: WatcherId, p: Period) {
    row.watcher == w && row.workspace == ws && row.slot.BaselineSlot? && row.status == Reserved && row.period == p
  }

  /** A credit of the running period is set aside for the watcher's first price. */
  ghost predicate BaselineWaits(t: Ledger, ws: Workspace, w: WatcherId, now: int) {
    var grant := CurrentGrant(t, ws, now);
    grant.Some? && exists r :: r in t.reservations && IsBaseline(t.reservations[r], ws, w, grant.value.period)
  }

  lemma ReopeningSets(s: Ledger, ws: Workspace, w: WatcherId, cadence: Cadence, grant: Grant, now: int)
    requires w in s.watchers && CurrentGrant(s, ws, now) == Some(grant)
    ensures var t := Reopen(s, ws, w, cadence, grant.period, now);
      && w in t.watchers && t.watchers[w].state == BaselinePending && t.watchers[w].baseline.None? && t.watchers[w].failures == 0
      && t.watchers[w].nextCheck == now && Unclaimed(t.watchers[w]) && t.watchers[w].cadence == cadence
      && t.watchers[w].workspace == s.watchers[w].workspace && t.watchers[w].target == s.watchers[w].target
      && BaselineWaits(t, ws, w, now)
  {
    var t := Reopen(s, ws, w, cadence, grant.period, now);
    assert s.next in t.reservations;
  }

  /** A change of cadence leaves state, price and failures to the reconciliation that ends it. */
  lemma CadenceSets(s: Ledger, ws: Workspace, w: WatcherId, input: Mutation, now: int)
    requires Mutate(s, ws, w, input, now).Ok? && input.action == CadenceOnly
    ensures var t, row, u := Mutate(s, ws, w, input, now).value, s.watchers[w], Reconcile(s, ws, now);
      && input.cadence.Some? && w in t.watchers && t.watchers[w].cadence == input.cadence.value
      && t.watchers[w].state == u.watchers[w].state && t.watchers[w].baseline == row.baseline && t.watchers[w].failures == row.failures
      && (row.state == Active ==> t.watchers[w].nextCheck == now + (if input.cadence.value == Hourly then 3_600_000 else 86_400_000))
  {
  }

  /** No mutation does more to any other watcher than a reconciliation. */
  lemma MutationElsewhere(s: Ledger, ws: Workspace, w: WatcherId, input: Mutation, now: int, v: WatcherId)
    requires Mutate(s, ws, w, input, now).Ok? && v in s.watchers && v != w
    ensures var t := Mutate(s, ws, w, input, now).value; v in t.watchers && t.watchers[v] == Reconcile(s, ws, now).watchers[v]
  {
    match input.action
    case Disable => DisablingElsewhere(s, ws, w, input, now, v);
    case Resume => ResumingElsewhere(s, ws, w, input, now, v);
    case CadenceOnly =>
  }

  lemma DisablingElsewhere(s: Ledger, ws: Workspace, w: WatcherId, input: Mutation, now: int, v: WatcherId)
    requires Mutate(s, ws, w, input, now).Ok? && input.action == Disable && v in s.watchers && v != w
    ensures var t := Mutate(s, ws, w, input, now).value; v in t.watchers && t.watchers[v] == Reconcile(s, ws, now).watchers[v]
  {
  }

  lemma ResumingElsewhere(s: Ledger, ws: Workspace, w: WatcherId, input: Mutation, now: int, v: WatcherId)
    requires Mutate(s, ws, w, input, now).Ok? && input.action == Resume && v in s.watchers && v != w
    ensures var t := Mutate(s, ws, w, input, now).value; v in t.watchers && t.watchers[v] == Reconcile(s, ws, now).watchers[v]
  {
  }

  // ---- activation ----

  /** A watcher as an activation leaves it: running, with the requested cadence. One that ran already goes on as it
      was; any other, new or not, waits for a first price, due at once and nobody's, with a credit set aside. */
  ghost predicate SetUp(before: Watchers, t: Ledger, ws: Workspace, item: Item, cadence: Cadence, w: WatcherId, now: int) {
    && w in t.watchers && t.watchers[w].workspace == ws && t.watchers[w].target == item.group.target && t.watchers[w].cadence == cadence
    && (item.existing.Some? ==> w == item.existing.value)
    && if item.existing.Some? && w in before && Running(before[w]) then GoesOn(before[w], t.watchers[w], cadence, now)
       else StartsAfresh(t.watchers[w], now) && BaselineWaits(t, ws, w, now)
  }

  ghost predicate GoesOn(row: Watcher, after: Watcher, cadence: Cadence, now: int) {
    && after.state == row.state && after.baseline == row.baseline && after.failures == row.failures && after.owner == row.owner
    && (row.state == Active ==> after.nextCheck == now + (if cadence == Hourly then 3_600_000 else 86_400_000))
  }

  ghost predicate StartsAfresh(after: Watcher, now: int) {
    after.state == BaselinePending && after.baseline.None? && after.failures == 0 && after.nextCheck == now && Unclaimed(after)
  }

  /** An item of a selection: new, or of the watcher that has its target. */
  ghost predicate ItemIn(m: Watchers, ws: Workspace, item: Item) {
    item.existing.Some? ==>
      item.existing.value in m && m[item.existing.value].workspace == ws && m[item.existing.value].target == item.group.target
  }

  lemma ItemSets(s: Ledger, ws: Workspace, item: Item, cadence: Cadence, grant: Grant, now: int)
    requires CurrentGrant(s, ws, now) == Some(grant) && ItemIn(s.watchers, ws, item)
    ensures SetUp(s.watchers, ActivateItem(s, ws, item, cadence, grant.period, now), ws, item, cadence,
                  if item.existing.Some? then item.existing.value else s.next, now)
  {
    var t := ActivateItem(s, ws, item, cadence, grant.period, now);
    if item.existing.None? {
      assert s.next + 1 in t.reservations && IsBaseline(t.reservations[s.next + 1], ws, s.next, grant.period);
    } else if !Running(s.watchers[item.existing.value]) {
      ReopeningSets(s, ws, item.existing.value, cadence, grant, now);
    }
  }

  /** An item leaves every other watcher, and what is set aside for it, alone. */
  lemma ItemElsewhere(s: Ledger, ws: Workspace, item: Item, cadence: Cadence, p: Period, now: int, w: WatcherId)
    requires Inv(s) && w in s.watchers && w != s.next && item.existing != Some(w) && ItemIn(s.watchers, ws, item)
    ensures var t := ActivateItem(s, ws, item, cadence, p, now);
      && w in t.watchers && t.watchers[w] == s.watchers[w] && t.subscriptions == s.subscriptions
      && forall r :: r in s.reservations && s.reservations[r].watcher == w ==> r in t.reservations && t.reservations[r] == s.reservations[r]
  {
    forall r | r in s.reservations
      ensures r < s.next
    {
      assert RowOk(s, r);
    }
  }

  lemma SetUpStays(before: Watchers, s: Ledger, t: Ledger, ws: Workspace, item: Item, cadence: Cadence, w: WatcherId, now: int)
    requires SetUp(before, s, ws, item, cadence, w, now) && t.subscriptions == s.subscriptions
    requires w in t.watchers && t.watchers[w] == s.watchers[w]
    requires forall r :: r in s.reservations && s.reservations[r].watcher == w ==> r in t.reservations && t.reservations[r] == s.reservations[r]
    ensures SetUp(before, t, ws, item, cadence, w, now)
  {
    if BaselineWaits(s, ws, w, now) {
      var grant := CurrentGrant(s, ws, now);
      var r :| r in s.reservations && IsBaseline(s.reservations[r], ws, w, grant.value.period);
      assert r in t.reservations && IsBaseline(t.reservations[r], ws, w, grant.value.period);
      assert CurrentGrant(t, ws, now) == grant;
    }
  }

  lemma {:induction false} ItemsKeepSubscriptions(s: Ledger, ws: Workspace, items: seq<Item>, cadence: Cadence, p: Period, now: int)
    ensures ActivateItems(s, ws, items, cadence, p, now).subscriptions == s.subscriptions
  {
    if items != [] { ItemsKeepSubscriptions(s, ws, items[..|items| - 1], cadence, p, now); }
  }

  lemma LastItemSets(s: Ledger, ws: Workspace, items: seq<Item>, cadence: Cadence, grant: Grant, now: int) returns (w: WatcherId)
    requires Inv(s) && CurrentGrant(s, ws, now) == Some(grant) && (ws, grant.period) in s.entitlements
    requires ItemsOk(s.watchers, ws, items) && items != []
    ensures SetUp(s.watchers, ActivateItems(s, ws, items, cadence, grant.period, now), ws, items[|items| - 1], cadence, w, now)
  {
    var n := |items| - 1;
    var t := ActivateItems(s, ws, items[..n], cadence, grant.period, now);
    ItemsKeepSubscriptions(s, ws, items[..n], cadence, grant.period, now);
    if items[n].existing.Some? { LastItemKept(s, ws, items, cadence, grant.period, now); }
    ItemSets(t, ws, items[n], cadence, grant, now);
    w := if items[n].existing.Some? then items[n].existing.value else t.next;
  }

  lemma {:induction false} ItemsSet(s: Ledger, ws: Workspace, items: seq<Item>, cadence: Cadence, grant: Grant, now: int, i: nat) returns (w: WatcherId)
    requires Inv(s) && CurrentGrant(s, ws, now) == Some(grant) && (ws, grant.period) in s.entitlements
    requires ItemsOk(s.watchers, ws, items) && i < |items|
    ensures SetUp(s.watchers, ActivateItems(s, ws, items, cadence, grant.period, now), ws, items[i], cadence, w, now)
  {
    var n := |items| - 1;
    if i == n {
      w := LastItemSets(s, ws, items, cadence, grant, now);
    } else {
      w := ItemsSet(s, ws, items[..n], cadence, grant, now, i);
      var t := ActivateItems(s, ws, items[..n], cadence, grant.period, now);
      assert items[..n][i] == items[i] && items[i].group.target != items[n].group.target;
      ActivateItemsCosts(s, ws, items[..n], cadence, grant.period, now);
      if items[n].existing.Some? { LastItemKept(s, ws, items, cadence, grant.period, now); }
      ItemElsewhere(t, ws, items[n], cadence, grant.period, now, w);
      SetUpStays(s.watchers, t, ActivateItem(t, ws, items[n], cadence, grant.period, now), ws, items[i], cadence, w, now);
    }
  }

  lemma {:induction false} GroupsCover(targets: seq<Eligible>, e: Eligible) returns (i: nat)
    requires e in targets
    ensures i < |GroupTargets(targets)| && GroupTargets(targets)[i].target == e.target && e.matchId in GroupTargets(targets)[i].links
  {
    var n := |targets| - 1;
    var groups, last := GroupTargets(targets[..n]), targets[n];
    var k := GroupIndex(groups, last.target);
    if e == last {
      i := k;
    } else {
      i := GroupsCover(targets[..n], e);
      if k < i { assert groups[k].target == last.target; }
    }
  }

  /** Whoever is selected is watched: every target of an activation ends with a watcher that runs at the requested
      cadence, and it is the one that the target had, if it had one. */
  lemma ActivationSets(s: Ledger, ws: Workspace, input: Activation, expected: Option<Fingerprint>, now: int, e: Eligible)
    requires Inv(s) && Keyed(s) && Activate(s, ws, input, expected, now).Ok? && e in input.targets
    ensures var t, before := Activate(s, ws, input, expected, now).value.0, Reconcile(s, ws, now).watchers;
      exists item: Item, w: WatcherId :: item.group.target == e.target && SetUp(before, t, ws, item, input.cadence, w, now)
        && forall v :: v in before && before[v].workspace == ws && before[v].target == e.target ==> item.existing == Some(v)
  {
    var grant, u := CurrentGrant(s, ws, now).value, Reconcile(s, ws, now);
    var items := ResolveActivation(u, ws, input, grant).items;
    ReconcileKeeps(s, ws, now);
    ReconcileKeyed(s, ws, now);
    ResolveItemsOk(u.watchers, ws, input.targets);
    var i := GroupsCover(input.targets, e);
    var w := ItemsSet(u, ws, items, input.cadence, grant, now, i);
    forall v | v in u.watchers && u.watchers[v].workspace == ws && u.watchers[v].target == e.target
      ensures items[i].existing == Some(v)
    {
      ExistingIsTheOnlyOne(u, ws, e.target, v);
    }
  }

  /** Nobody else is touched by more than a reconciliation. */
  lemma ActivationElsewhere(s: Ledger, ws: Workspace, input: Activation, expected: Option<Fingerprint>, now: int, v: WatcherId)
    requires Inv(s) && Activate(s, ws, input, expected, now).Ok? && v in s.watchers
    requires s.watchers[v].workspace == ws ==> forall e :: e in input.targets ==> e.target != s.watchers[v].target
    ensures var t := Activate(s, ws, input, expected, now).value.0; v in t.watchers && t.watchers[v] == Reconcile(s, ws, now).watchers[v]
  {
    ReconcileKeeps(s, ws, now);
    ReconcileKeepsPlace(s, ws, now, v);
    SelectionElsewhere(Reconcile(s, ws, now), ws, input, CurrentGrant(s, ws, now).value, now, v);
  }

  lemma SelectionElsewhere(u: Ledger, ws: Workspace, input: Activation, grant: Grant, now: int, v: WatcherId)
    requires Inv(u) && v in u.watchers
    requires u.watchers[v].workspace == ws ==> forall e :: e in input.targets ==> e.target != u.watchers[v].target
    ensures var t := ActivateItems(u, ws, ResolveActivation(u, ws, input, grant).items, input.cadence, grant.period, now);
      v in t.watchers && t.watchers[v] == u.watchers[v]
  {
    NotSelected(u.watchers, ws, input.targets, v);
    ItemsFrame(u, ws, ResolveActivation(u, ws, input, grant).items, input.cadence, grant.period, now, v);
  }

  lemma ReconcileKeepsPlace(s: Ledger, ws: Workspace, now: int, v: WatcherId)
    requires v in s.watchers
    ensures var u := Reconcile(s, ws, now);
      v in u.watchers && u.watchers[v].target == s.watchers[v].target && u.watchers[v].workspace == s.watchers[v].workspace
  {
  }

  lemma NotSelected(m: Watchers, ws: Workspace, targets: seq<Eligible>, v: WatcherId)
    requires v in m && (m[v].workspace == ws ==> forall e :: e in targets ==> e.target != m[v].target)
    ensures var items := Resolve(m, ws, GroupTargets(targets)); forall i :: 0 <= i < |items| ==> items[i].existing != Some(v)
  {
    var groups := GroupTargets(targets);
    var items := Resolve(m, ws, groups);
    forall i | 0 <= i < |items|
      ensures items[i].existing != Some(v)
    {
      assert groups[i] in groups;
    }
  }

  function Targets(input: Activation): set<TargetKey> { set e | e in input.targets :: e.target }

  lemma GroupsAreTargets(targets: seq<Eligible>)
    ensures (set g | g in GroupTargets(targets) :: g.target) == (set e | e in targets :: e.target)
  {
    var groups := GroupTargets(targets);
    forall e | e in targets
      ensures exists g :: g in groups && g.target == e.target
    {
      var i := GroupsCover(targets, e);
      assert groups[i] in groups;
    }
    assert forall g :: g in groups ==> exists e :: e in targets && e.target == g.target;
  }

  lemma {:induction false} GroupsCounted(groups: seq<Group>)
    requires forall i, j :: 0 <= i < j < |groups| ==> groups[i].target != groups[j].target
    ensures |set g | g in groups :: g.target| == |groups|
  {
    if groups != [] {
      var init, last := groups[..|groups| - 1], groups[|groups| - 1];
      GroupsCounted(init);
      assert groups == init + [last];
      assert (set g | g in groups :: g.target) == (set g | g in init :: g.target) + {last.target};
    }
  }

  /** What an activation reports is so: each target is either created or reused, so many watchers are new, so many
      credits reserved, and the usage is that of the tables it leaves. */
  lemma ActivationTells(s: Ledger, ws: Workspace, input: Activation, expected: Option<Fingerprint>, now: int)
    requires Inv(s) && Activate(s, ws, input, expected, now).Ok?
    ensures var (t, done) := Activate(s, ws, input, expected, now).value; var grant := CurrentGrant(s, ws, now).value;
      && done.created + done.reused == |Targets(input)|
      && |t.watchers| == |s.watchers| + done.created && |t.reservations| == |s.reservations| + done.credits
      && done.usage.used == Used(t, ws, grant.period)
      && done.usage.remaining == if done.usage.used < grant.allocation then grant.allocation - done.usage.used else 0
  {
    ReconcileKeeps(s, ws, now);
    ReconcileKeepsSizes(s, ws, now);
    ActivationAdds(Reconcile(s, ws, now), ws, input, expected, CurrentGrant(s, ws, now).value, now);
    GroupsAreTargets(input.targets);
    GroupsCounted(GroupTargets(input.targets));
  }

  // ---- deletion ----

  /** A deletion takes the watcher, its reservations and its history, and nothing else. */
  lemma DeletionSets(s: Ledger, ws: Workspace, w: WatcherId)
    requires Delete(s, ws, w).Ok?
    ensures var t := Delete(s, ws, w).value;
      && (forall v :: v in t.watchers <==> v in s.watchers && v != w)
      && (forall v :: v in t.watchers ==> t.watchers[v] == s.watchers[v])
      && (forall r :: r in t.reservations <==> r in s.reservations && s.reservations[r].watcher != w)
      && (forall r :: r in t.reservations ==> t.reservations[r] == s.reservations[r])
      && (forall r :: r in t.observations <==> r in s.observations && !(r in s.reservations && s.reservations[r].watcher == w))
      && (forall r :: r in t.observations ==> t.observations[r] == s.observations[r])
      && t.subscriptions == s.subscriptions
  {
  }

  // ---- fingerprints ----

  /** A watcher as whoever confirms an impact has seen it. */
  ghost predicate SeenAs(m: Watchers, m': Watchers, v: WatcherId) {
    v in m && v in m' && m'[v].state == m[v].state && m'[v].cadence == m[v].cadence && m'[v].updatedAt == m[v].updatedAt
  }

  lemma ImpactHas(m: Watchers, ws: Workspace, targets: seq<Eligible>, e: Eligible) returns (i: nat)
    requires e in targets
    ensures var items := Resolve(m, ws, GroupTargets(targets));
      && i < |items| && items[i].group.target == e.target && e.matchId in items[i].group.links
      && e.target in TargetImpacts(m, items) && TargetImpacts(m, items)[e.target] == ImpactOf(m, items[i])
      && items[i].existing == Existing(m, ws, e.target)
  {
    ResolveItemsOk(m, ws, targets);
    i := GroupsCover(targets, e);
    ImpactAt(m, ws, Resolve(m, ws, GroupTargets(targets)), i);
  }

  lemma {:induction false} LinksAreSelected(targets: seq<Eligible>, i: nat, link: MatchId)
    requires i < |GroupTargets(targets)| && link in GroupTargets(targets)[i].links
    ensures Eligible(GroupTargets(targets)[i].target, link) in targets
  {
    var n := |targets| - 1;
    var groups, last := GroupTargets(targets[..n]), targets[n];
    if i < |groups| && link in groups[i].links { LinksAreSelected(targets[..n], i, link); }
  }

  /** Whatever the impact of a selection holds is of the selection. */
  lemma ImpactOnlyOf(m: Watchers, ws: Workspace, targets: seq<Eligible>, e: Eligible)
    requires var impacts := TargetImpacts(m, Resolve(m, ws, GroupTargets(targets)));
      e.target in impacts && e.matchId in impacts[e.target].links
    ensures e in targets
  {
    var groups := GroupTargets(targets);
    var items := Resolve(m, ws, groups);
    ResolveItemsOk(m, ws, targets);
    if forall i :: 0 <= i < |items| ==> items[i].group.target != e.target {
      ImpactKeys(m, items, e.target);
    } else {
      var i :| 0 <= i < |items| && items[i].group.target == e.target;
      ImpactAt(m, ws, items, i);
      LinksAreSelected(targets, i, e.matchId);
    }
  }

  /** Two activations with the same fingerprint are of the same report, cadence, selection, period and usage, and
      whatever one selects the other selects too, with the target's watcher seen in the same state. */
  lemma FingerprintCovers(s: Ledger, t: Ledger, ws: Workspace, input: Activation, input': Activation, g: Grant, g': Grant, e: Eligible)
    requires Keyed(s) && Keyed(t) && e in input.targets
    requires ResolveActivation(s, ws, input, g).fingerprint == ResolveActivation(t, ws, input', g').fingerprint
    ensures input'.report == input.report && input'.cadence == input.cadence && input'.selection == input.selection
    ensures g'.period == g.period && Used(t, ws, g.period) == Used(s, ws, g.period) && Remaining(t, ws, g') == Remaining(s, ws, g)
    ensures e in input'.targets
    ensures forall v :: v in s.watchers && s.watchers[v].workspace == ws && s.watchers[v].target == e.target ==> SeenAs(s.watchers, t.watchers, v)
  {
    var i := ImpactHas(s.watchers, ws, input.targets, e);
    ImpactOnlyOf(t.watchers, ws, input'.targets, e);
    var j := ImpactHas(t.watchers, ws, input'.targets, e);
    forall v | v in s.watchers && s.watchers[v].workspace == ws && s.watchers[v].target == e.target
      ensures SeenAs(s.watchers, t.watchers, v)
    {
      ExistingIsTheOnlyOne(s, ws, e.target, v);
    }
  }

  function Amount(row: Watcher): int { if row.baseline.Some? then row.baseline.value.amount else 0 }

  /** And two mutations, of the same watcher, untouched in between, for the same change and usage. */
  lemma MutationFingerprintCovers(s: Ledger, t: Ledger, ws: Workspace, w: WatcherId, v: WatcherId, input: Mutation, input': Mutation, now: int, later: int)
    requires PreviewMutation(s, ws, w, input, now).Ok? && PreviewMutation(t, ws, v, input', later).Ok?
    requires PreviewMutation(s, ws, w, input, now).value.fingerprint == PreviewMutation(t, ws, v, input', later).value.fingerprint
    ensures v == w && SeenAs(s.watchers, t.watchers, w) && input'.action == input.action
    ensures Requested(t.watchers[w], input') == Requested(s.watchers[w], input)
    ensures Amount(t.watchers[w]) == Amount(s.watchers[w])
    ensures UsageOf(t, ws, CurrentGrant(t, ws, later)) == UsageOf(s, ws, CurrentGrant(s, ws, now))
  {
  }

  // ---- what is refused, and what a preview says ----

  ghost predicate Own(s: Ledger, ws: Workspace, w: WatcherId) { w in s.watchers && s.watchers[w].workspace == ws }

  /** Every way in which a mutation can fail: it is of somebody else's watcher, or of none; it changes nothing; or it
      resumes without a plan, or one that does not run without a credit left. */
  lemma MutationFails(s: Ledger, ws: Workspace, w: WatcherId, input: Mutation, now: int)
    ensures var r, grant := Mutate(s, ws, w, input, now), CurrentGrant(s, ws, now);
      && (r == Err(WatcherNotFound) <==> !Own(s, ws, w))
      && (r == Err(EmptyMutation) <==> Own(s, ws, w) && input.action == CadenceOnly && input.cadence.None?)
      && (r == Err(SubscriptionRequired) <==> Own(s, ws, w) && input.action == Resume && grant.None?)
      && (r == Err(InsufficientCredits) <==> Own(s, ws, w) && input.action == Resume && grant.Some? && !Running(s.watchers[w])
                                             && Used(s, ws, grant.value.period) >= grant.value.allocation)
      && (r.Err? ==> r.error in [WatcherNotFound, EmptyMutation, SubscriptionRequired, InsufficientCredits])
  {
    if input.action == Resume && CurrentGrant(s, ws, now).Some? { ReconcileKeepsUsage(s, ws, now); }
  }

  /** A target that no running watcher of the workspace watches. */
  ghost predicate Unwatched(m: Watchers, ws: Workspace, target: TargetKey) {
    forall v :: v in m && m[v].workspace == ws && m[v].target == target ==> !Running(m[v])
  }

  ghost function UnwatchedOf(m: Watchers, ws: Workspace, input: Activation): set<TargetKey> {
    set k | k in Targets(input) && Unwatched(m, ws, k)
  }

  /** A selection costs a credit for each target that nobody watches. */
  lemma SelectionCosts(s: Ledger, ws: Workspace, input: Activation, grant: Grant)
    requires Keyed(s)
    ensures ResolveActivation(s, ws, input, grant).credits == |UnwatchedOf(s.watchers, ws, input)|
  {
    var items := ResolveActivation(s, ws, input, grant).items;
    var impacts := TargetImpacts(s.watchers, items);
    ResolveItemsOk(s.watchers, ws, input.targets);
    ImpactCounts(s.watchers, ws, items);
    forall k
      ensures k in Costing(impacts) <==> k in UnwatchedOf(s.watchers, ws, input)
    {
      ImpactOfTarget(s, ws, input.targets, k);
    }
    assert Costing(impacts) == UnwatchedOf(s.watchers, ws, input);
  }

  lemma ImpactOfTarget(s: Ledger, ws: Workspace, targets: seq<Eligible>, k: TargetKey)
    requires Keyed(s)
    ensures var impacts := TargetImpacts(s.watchers, Resolve(s.watchers, ws, GroupTargets(targets)));
      && (k in impacts <==> exists e :: e in targets && e.target == k)
      && (k in impacts ==> (ImpactCosts(impacts[k]) <==> Unwatched(s.watchers, ws, k)))
  {
    var m := s.watchers;
    var items := Resolve(m, ws, GroupTargets(targets));
    if e :| e in targets && e.target == k {
      var i := ImpactHas(m, ws, targets, e);
      if v :| v in m && m[v].workspace == ws && m[v].target == k {
        ExistingIsTheOnlyOne(s, ws, k, v);
      }
    } else {
      forall i | 0 <= i < |items|
        ensures items[i].group.target != k
      {
        assert GroupTargets(targets)[i] in GroupTargets(targets);
      }
      ImpactKeys(m, items, k);
    }
  }

  ghost predicate TooMany(s: Ledger, ws: Workspace, input: Activation, grant: Grant, now: int) {
    Used(s, ws, grant.period) + |UnwatchedOf(Reconcile(s, ws, now).watchers, ws, input)| > grant.allocation
  }

  /** Every way in which an activation without a fingerprint can fail: nothing is selected, there is no plan, or the
      targets that nobody watches are more than the credits left. */
  lemma ActivationFails(s: Ledger, ws: Workspace, input: Activation, now: int)
    requires Keyed(s)
    ensures var r, grant := Activate(s, ws, input, None, now), CurrentGrant(s, ws, now);
      && (r == Err(NoEligibleTargets) <==> input.targets == [])
      && (r == Err(SubscriptionRequired) <==> input.targets != [] && grant.None?)
      && (r == Err(InsufficientCredits) <==> input.targets != [] && grant.Some? && TooMany(s, ws, input, grant.value, now))
      && (r.Err? ==> r.error in [NoEligibleTargets, SubscriptionRequired, InsufficientCredits])
  {
    if CurrentGrant(s, ws, now).Some? {
      ReconcileKeyed(s, ws, now);
      ReconcileKeepsUsage(s, ws, now);
      SelectionCosts(Reconcile(s, ws, now), ws, input, CurrentGrant(s, ws, now).value);
    }
  }

  /** A preview tells how many targets there are and what they cost, and what would be used and left. */
  lemma ActivationPreviewTells(s: Ledger, ws: Workspace, input: Activation, now: int)
    requires Keyed(s) && PreviewActivation(s, ws, input, now).Ok?
    ensures var p, grant := PreviewActivation(s, ws, input, now).value, CurrentGrant(s, ws, now).value;
      && p.unique == |Targets(input)| == p.created + p.reused && p.credits == |UnwatchedOf(s.watchers, ws, input)|
      && p.before.used == Used(s, ws, grant.period) && p.after.used == p.before.used + p.credits
      && p.before.used + p.before.remaining == grant.allocation == p.after.used + p.after.remaining
  {
    GroupsAreTargets(input.targets);
    GroupsCounted(GroupTargets(input.targets));
    SelectionCosts(s, ws, input, CurrentGrant(s, ws, now).value);
  }

  /** So does the preview of a mutation, where the credits of the period are not overdrawn already. */
  lemma MutationPreviewTells(s: Ledger, ws: Workspace, w: WatcherId, input: Mutation, now: int)
    requires PreviewMutation(s, ws, w, input, now).Ok?
    ensures var p, grant := PreviewMutation(s, ws, w, input, now).value, CurrentGrant(s, ws, now);
      && p.credits <= 1 && p.after.used == p.before.used + p.credits && p.after.remaining == p.before.remaining - p.credits
      && (grant.Some? ==> p.before.used == Used(s, ws, grant.value.period))
      && (grant.Some? && p.before.used <= grant.value.allocation ==> p.before.used + p.before.remaining == grant.value.allocation)
      && (p.credits == 1 <==> input.action == Resume && !Running(s.watchers[w])
                              && !(s.watchers[w].state == PausedCredits && Amount(s.watchers[w]) > 0))
  {
  }

  /** After billing has told of a subscription the workspace is in order: with a plan its period has a row, and nothing
      is reserved for another; without one nothing runs, and nothing is reserved. */
  lemma SubscriptionSettles(s: Ledger, ws: Workspace, sub: Subscription, now: int)
    ensures var t := Subscribe(s, ws, sub, now); var grant := CurrentGrant(t, ws, now);
      && ws in t.subscriptions && t.subscriptions[ws] == sub
      && (forall x :: x in s.subscriptions && x != ws ==> x in t.subscriptions && t.subscriptions[x] == s.subscriptions[x])
      && (grant.Some? ==> (ws, grant.value.period) in t.entitlements && t.entitlements[(ws, grant.value.period)].allocation == grant.value.allocation)
      && (forall r :: r in t.reservations && t.reservations[r].workspace == ws && t.reservations[r].status == Reserved ==>
           grant.Some? && t.reservations[r].period == grant.value.period)
      && (grant.None? ==> forall w :: w in t.watchers && t.watchers[w].workspace == ws ==> !Running(t.watchers[w]) && t.watchers[w].state != PausedCredits)
  {
  }
}
