/** An activation that matches its preview does what the preview said. */
module PriceWatchPreview {
  import opened Collections
  import opened Wrappers
  import opened PriceWatchLedger
  import opened PriceWatchInvariants

  // ---- the impact map decides the counts ----

  predicate ImpactCreates(i: TargetImpact) { i.existing.None? }

  predicate ImpactCosts(i: TargetImpact) { i.existing.None? || !Runnable(i.existing.value.state) }

  function Creating(impacts: map<TargetKey, TargetImpact>): set<TargetKey> { set k | k in impacts && ImpactCreates(impacts[k]) }

  function Costing(impacts: map<TargetKey, TargetImpact>): set<TargetKey> { set k | k in impacts && ImpactCosts(impacts[k]) }

  lemma PrefixOk(m: Watchers, ws: Workspace, items: seq<Item>, n: nat)
    requires n <= |items| && ItemsOk(m, ws, items)
    ensures ItemsOk(m, ws, items[..n])
  {
  }

  lemma {:induction false} ImpactKeys(m: Watchers, items: seq<Item>, k: TargetKey)
    requires forall i :: 0 <= i < |items| ==> items[i].group.target != k
    ensures k !in TargetImpacts(m, items)
  {
    if items != [] {
      var n := |items| - 1;
      assert forall i :: 0 <= i < n ==> items[..n][i] == items[i];
      ImpactKeys(m, items[..n], k);
    }
  }

  /** The impact map holds every item under its target. */
  lemma {:induction false} ImpactAt(m: Watchers, ws: Workspace, items: seq<Item>, i: nat)
    requires ItemsOk(m, ws, items) && i < |items|
    ensures items[i].group.target in TargetImpacts(m, items)
    ensures TargetImpacts(m, items)[items[i].group.target] == ImpactOf(m, items[i])
  {
    var n := |items| - 1;
    if i < n {
      PrefixOk(m, ws, items, n);
      ImpactAt(m, ws, items[..n], i);
      assert items[..n][i] == items[i];
      assert items[i].group.target != items[n].group.target;
    }
  }

  lemma ImpactAddsCreating(before: map<TargetKey, TargetImpact>, k: TargetKey, impact: TargetImpact)
    requires k !in before
    ensures |Creating(before[k := impact])| == |Creating(before)| + (if ImpactCreates(impact) then 1 else 0)
  {
    if ImpactCreates(impact) {
      assert Creating(before[k := impact]) == Creating(before) + {k};
    } else {
      assert Creating(before[k := impact]) == Creating(before);
    }
  }

  lemma ImpactAddsCosting(before: map<TargetKey, TargetImpact>, k: TargetKey, impact: TargetImpact)
    requires k !in before
    ensures |Costing(before[k := impact])| == |Costing(before)| + (if ImpactCosts(impact) then 1 else 0)
  {
    if ImpactCosts(impact) {
      assert Costing(before[k := impact]) == Costing(before) + {k};
    } else {
      assert Costing(before[k := impact]) == Costing(before);
    }
  }

  /** Watchers created, credits and targets can all be read off the impact map. */
  lemma {:induction false} ImpactCounts(m: Watchers, ws: Workspace, items: seq<Item>)
    requires ItemsOk(m, ws, items)
    ensures |TargetImpacts(m, items)| == |items|
    ensures |Creating(TargetImpacts(m, items))| == CreatedCount(items)
    ensures |Costing(TargetImpacts(m, items))| == BaselineCredits(m, items)
  {
    if items != [] {
      var n := |items| - 1;
      PrefixOk(m, ws, items, n);
      ImpactCounts(m, ws, items[..n]);
      forall i | 0 <= i < n
        ensures items[..n][i].group.target != items[n].group.target
      {
        assert items[..n][i] == items[i];
      }
      ImpactKeys(m, items[..n], items[n].group.target);
      ImpactAddsCreating(TargetImpacts(m, items[..n]), items[n].group.target, ImpactOf(m, items[n]));
      ImpactAddsCosting(TargetImpacts(m, items[..n]), items[n].group.target, ImpactOf(m, items[n]));
    }
  }

  // ---- what was previewed is what happens ----

  /** However much later, and whatever happened in between: an activation that still finds the previewed
      fingerprint creates, reuses and reserves exactly the previewed counts, and leaves at most the
      previewed use. */
  lemma PreviewedIsDone(s0: Ledger, input0: Activation, now0: int, s: Ledger, input: Activation, now: int, ws: Workspace)
    requires Inv(s) && PreviewActivation(s0, ws, input0, now0).Ok?
    requires Activate(s, ws, input, Some(PreviewActivation(s0, ws, input0, now0).value.fingerprint), now).Ok?
    ensures var p := PreviewActivation(s0, ws, input0, now0).value;
      var (t, done) := Activate(s, ws, input, Some(p.fingerprint), now).value;
      && done.created == p.created && done.reused == p.reused && done.credits == p.credits
      && |t.reservations| == |s.reservations| + p.credits && |t.watchers| == |s.watchers| + p.created
      && done.usage.used <= p.after.used && p.after.used <= MonitoringCredits(CurrentGrant(s0, ws, now0).value.plan)
  {
    var g0, g, r := CurrentGrant(s0, ws, now0).value, CurrentGrant(s, ws, now).value, Reconcile(s, ws, now);
    SamePrintSameCounts(s0, r, ws, input0, input, g0, g);
    ReconcileKeeps(s, ws, now);
    ReconcileKeepsSizes(s, ws, now);
    ActivationAdds(r, ws, input, Some(PreviewActivation(s0, ws, input0, now0).value.fingerprint), g, now);
  }

  lemma ReconcileKeepsSizes(s: Ledger, ws: Workspace, now: int)
    ensures |Reconcile(s, ws, now).reservations| == |s.reservations| && |Reconcile(s, ws, now).watchers| == |s.watchers|
  {
    var r := Reconcile(s, ws, now);
    assert r.reservations.Keys == s.reservations.Keys && r.watchers.Keys == s.watchers.Keys;
    assert |r.reservations| == |r.reservations.Keys| && |s.reservations| == |s.reservations.Keys|;
    assert |r.watchers| == |r.watchers.Keys| && |s.watchers| == |s.watchers.Keys|;
  }

  lemma ActivationAdds(s: Ledger, ws: Workspace, input: Activation, expected: Option<Fingerprint>, grant: Grant, now: int)
    requires Inv(s) && (ws, grant.period) in s.entitlements && ActivateReconciled(s, ws, input, expected, grant, now).Ok?
    ensures var r, t := ResolveActivation(s, ws, input, grant), ActivateReconciled(s, ws, input, expected, grant, now).value.0;
      && |t.reservations| == |s.reservations| + r.credits && |t.watchers| == |s.watchers| + CreatedCount(r.items)
      && Used(t, ws, grant.period) <= r.before.used + r.credits
  {
    var r := ResolveActivation(s, ws, input, grant);
    ResolveItemsOk(s.watchers, ws, input.targets);
    ActivateItemsCosts(s, ws, r.items, input.cadence, grant.period, now);
    ActivateItemsCreates(s, ws, r.items, input.cadence, grant.period, now);
  }

  lemma SamePrintSameCounts(s: Ledger, t: Ledger, ws: Workspace, input: Activation, input': Activation, g: Grant, g': Grant)
    requires ResolveActivation(s, ws, input, g).fingerprint == ResolveActivation(t, ws, input', g').fingerprint
    ensures var r, r' := ResolveActivation(s, ws, input, g), ResolveActivation(t, ws, input', g');
      |r.items| == |r'.items| && CreatedCount(r.items) == CreatedCount(r'.items) && r.credits == r'.credits && r.before == r'.before
  {
    ResolveItemsOk(s.watchers, ws, input.targets);
    ResolveItemsOk(t.watchers, ws, input'.targets);
    ImpactCounts(s.watchers, ws, ResolveActivation(s, ws, input, g).items);
    ImpactCounts(t.watchers, ws, ResolveActivation(t, ws, input', g').items);
  }

  lemma {:induction false} ActivateItemsCreates(s: Ledger, ws: Workspace, items: seq<Item>, cadence: Cadence, p: Period, now: int)
    requires Inv(s) && (ws, p) in s.entitlements && ItemsOk(s.watchers, ws, items)
    ensures |ActivateItems(s, ws, items, cadence, p, now).watchers| == |s.watchers| + CreatedCount(items)
  {
    if items != [] {
      var n := |items| - 1;
      var t := ActivateItems(s, ws, items[..n], cadence, p, now);
      ActivateItemsCreates(s, ws, items[..n], cadence, p, now);
      ActivateItemsCosts(s, ws, items[..n], cadence, p, now);
      CreatesOne(t, ws, items[n], cadence, p, now);
    }
  }

  lemma CreatesOne(s: Ledger, ws: Workspace, item: Item, cadence: Cadence, p: Period, now: int)
    requires Inv(s) && (item.existing.Some? ==> item.existing.value in s.watchers)
    ensures |ActivateItem(s, ws, item, cadence, p, now).watchers| == |s.watchers| + (if item.existing.None? then 1 else 0)
  {
    var t := ActivateItem(s, ws, item, cadence, p, now);
    assert |t.watchers| == |t.watchers.Keys| && |s.watchers| == |s.watchers.Keys|;
    if item.existing.None? {
      assert t.watchers.Keys == s.watchers.Keys + {s.next};
    } else {
      assert t.watchers.Keys == s.watchers.Keys;
    }
  }

  // ---- activating at once ----

  /** The activation will wake a target of the selection: its period has no entitlement row yet and a
      selected watcher is paused for want of credits. */
  predicate WakesTarget(s: Ledger, ws: Workspace, input: Activation, grant: Grant) {
    (ws, grant.period) !in s.entitlements
    && exists g :: g in GroupTargets(input.targets) && Paused(s.watchers, Existing(s.watchers, ws, g.target))
  }

  predicate Paused(m: Watchers, w: Option<WatcherId>) { w.Some? && w.value in m && m[w.value].state == PausedCredits }

  /** Reconciling moves no watcher to another target, so the items stay the same. */
  lemma ReconcileKeepsItems(s: Ledger, ws: Workspace, now: int, groups: seq<Group>)
    ensures Resolve(Reconcile(s, ws, now).watchers, ws, groups) == Resolve(s.watchers, ws, groups)
  {
    var m, m' := s.watchers, Reconcile(s, ws, now).watchers;
    assert m'.Keys == m.Keys;
    assert CreationRank(m') == CreationRank(m);
    forall i | 0 <= i < |groups|
      ensures Existing(m', ws, groups[i].target) == Existing(m, ws, groups[i].target)
    {
      assert Matching(m', ws, groups[i].target) == Matching(m, ws, groups[i].target);
    }
  }

  lemma {:induction false} SameImpacts(m: Watchers, m': Watchers, items: seq<Item>)
    requires m'.Keys == m.Keys
    requires forall i :: 0 <= i < |items| && items[i].existing.Some? && items[i].existing.value in m ==>
      m'[items[i].existing.value] == m[items[i].existing.value]
    ensures TargetImpacts(m', items) == TargetImpacts(m, items) && BaselineCredits(m', items) == BaselineCredits(m, items)
  {
    if items != [] {
      var n := |items| - 1;
      assert forall i :: 0 <= i < n ==> items[..n][i] == items[i];
      SameImpacts(m, m', items[..n]);
      assert ImpactOf(m', items[n]) == ImpactOf(m, items[n]);
    }
  }

  lemma ReconcileKeepsUsage(s: Ledger, ws: Workspace, now: int)
    requires CurrentGrant(s, ws, now).Some?
    ensures var grant := CurrentGrant(s, ws, now).value; Used(Reconcile(s, ws, now), ws, grant.period) == Used(s, ws, grant.period)
  {
    var grant := CurrentGrant(s, ws, now).value;
    assert Counted(Reconcile(s, ws, now).reservations, ws, grant.period) == Counted(s.reservations, ws, grant.period);
  }

  /** A watcher that is not paused for credits, or whose period is already open, is untouched. */
  lemma ReconcileKeepsWatcher(s: Ledger, ws: Workspace, now: int, w: WatcherId)
    requires CurrentGrant(s, ws, now).Some? && w in s.watchers
    ensures var t := Reconcile(s, ws, now);
      && (s.watchers[w].state != PausedCredits || (ws, CurrentGrant(s, ws, now).value.period) in s.entitlements ==>
            t.watchers[w] == s.watchers[w])
      && (s.watchers[w].workspace == ws && (ws, CurrentGrant(s, ws, now).value.period) !in s.entitlements ==>
            t.watchers[w].state != PausedCredits)
  {
  }

  lemma QuietImpacts(s: Ledger, ws: Workspace, input: Activation, now: int)
    requires CurrentGrant(s, ws, now).Some? && !WakesTarget(s, ws, input, CurrentGrant(s, ws, now).value)
    ensures var grant := CurrentGrant(s, ws, now).value;
      ResolveActivation(Reconcile(s, ws, now), ws, input, grant) == ResolveActivation(s, ws, input, grant)
  {
    var grant, t, groups := CurrentGrant(s, ws, now).value, Reconcile(s, ws, now), GroupTargets(input.targets);
    var items := Resolve(s.watchers, ws, groups);
    ReconcileKeepsItems(s, ws, now, groups);
    ReconcileKeepsUsage(s, ws, now);
    forall i | 0 <= i < |items| && items[i].existing.Some? && items[i].existing.value in s.watchers
      ensures t.watchers[items[i].existing.value] == s.watchers[items[i].existing.value]
    {
      assert groups[i] in groups;
      ReconcileKeepsWatcher(s, ws, now, items[i].existing.value);
    }
    SameImpacts(s.watchers, t.watchers, items);
  }

  lemma WokenDiffers(m: Watchers, m': Watchers, item: Item)
    requires item.existing.Some? && item.existing.value in m && item.existing.value in m'
    requires m[item.existing.value].state == PausedCredits && m'[item.existing.value].state != PausedCredits
    ensures ImpactOf(m, item) != ImpactOf(m', item)
  {
  }

  lemma WakingImpacts(s: Ledger, ws: Workspace, input: Activation, now: int)
    requires CurrentGrant(s, ws, now).Some? && WakesTarget(s, ws, input, CurrentGrant(s, ws, now).value)
    ensures var grant := CurrentGrant(s, ws, now).value;
      ResolveActivation(Reconcile(s, ws, now), ws, input, grant).fingerprint != ResolveActivation(s, ws, input, grant).fingerprint
  {
    var t, groups := Reconcile(s, ws, now), GroupTargets(input.targets);
    var items := Resolve(s.watchers, ws, groups);
    ReconcileKeepsItems(s, ws, now, groups);
    ResolveItemsOk(s.watchers, ws, input.targets);
    ResolveItemsOk(t.watchers, ws, input.targets);
    var i :| 0 <= i < |groups| && Paused(s.watchers, Existing(s.watchers, ws, groups[i].target));
    ImpactAt(s.watchers, ws, items, i);
    ImpactAt(t.watchers, ws, items, i);
    ReconcileKeepsWatcher(s, ws, now, items[i].existing.value);
    WokenDiffers(s.watchers, t.watchers, items[i]);
  }

  /** Activated in the same instant, on the very tables that were previewed, the preview is accepted
      exactly when it opens no new period for a selected watcher that ran out of credits: the preview
      does not reconcile, the activation does. */
  lemma FreshPreviewIsAccepted(s: Ledger, ws: Workspace, input: Activation, now: int)
    requires PreviewActivation(s, ws, input, now).Ok?
    ensures var p := PreviewActivation(s, ws, input, now).value;
      var outcome := Activate(s, ws, input, Some(p.fingerprint), now);
      if WakesTarget(s, ws, input, CurrentGrant(s, ws, now).value) then outcome == Err(ImpactChanged) else outcome.Ok?
  {
    if WakesTarget(s, ws, input, CurrentGrant(s, ws, now).value) {
      WakingImpacts(s, ws, input, now);
    } else {
      QuietImpacts(s, ws, input, now);
    }
  }

  /** A workspace in a period that nothing was reconciled in yet, with one watcher paused in the period before. */
  function NewPeriod(ws: Workspace, now: int, target: TargetKey, cadence: Cadence): Ledger {
    Ledger(map[ws := Subscription(Some(Starter), true, Some(Period(now, now + 1)))], map[],
           map[0 := Watcher(ws, target, cadence, PausedCredits, None, 0, EMPTY, "", EMPTY, now - 2, now - 1)], map[], map[], 1)
  }

  lemma NewPeriodWakes(ws: Workspace, now: int, cadence: Cadence, input: Activation)
    requires |input.targets| == 1
    ensures var s, target := NewPeriod(ws, now, input.targets[0].target, cadence), input.targets[0].target;
      Inv(s) && CurrentGrant(s, ws, now).Some? && GroupTargets(input.targets) == [Group(target, [input.targets[0].matchId])]
      && Existing(s.watchers, ws, target) == Some(0) && WakesTarget(s, ws, input, CurrentGrant(s, ws, now).value)
  {
    var s, target := NewPeriod(ws, now, input.targets[0].target, cadence), input.targets[0].target;
    assert input.targets[..0] == [] && GroupTargets(input.targets) == [Group(target, [input.targets[0].matchId])];
    assert Group(target, [input.targets[0].matchId]) in GroupTargets(input.targets);
    assert 0 in Matching(s.watchers, ws, target);
  }

  /** Every customer whose watcher ran out of credits can meet the rejection. */
  lemma PausedPreviewIsRejected(ws: Workspace, now: int, cadence: Cadence, input: Activation)
    requires |input.targets| == 1
    ensures var s := NewPeriod(ws, now, input.targets[0].target, cadence);
      && Inv(s) && PreviewActivation(s, ws, input, now).Ok?
      && WakesTarget(s, ws, input, CurrentGrant(s, ws, now).value)
      && Activate(s, ws, input, Some(PreviewActivation(s, ws, input, now).value.fingerprint), now) == Err(ImpactChanged)
  {
    var s := NewPeriod(ws, now, input.targets[0].target, cadence);
    NewPeriodWakes(ws, now, cadence, input);
    assert Counted(s.reservations, ws, CurrentGrant(s, ws, now).value.period) == {};
    FreshPreviewIsAccepted(s, ws, input, now);
  }

  /** A mutation that its preview lets pass fails exactly when it resumes a watcher that ran out of credits,
      which the preview takes to be free because a price is stored, and there is still no credit left. */
  lemma PassedMutationFails(s: Ledger, ws: Workspace, w: WatcherId, input: Mutation, now: int)
    requires CheckMutation(s, ws, w, input, now).None?
    ensures var grant, r := CurrentGrant(s, ws, now), Mutate(s, ws, w, input, now);
      && (r.Err? <==> input.action == Resume && s.watchers[w].state == PausedCredits && HasPositiveBaseline(s.watchers[w])
                      && UsageOf(s, ws, grant).remaining == 0)
      && (r.Err? ==> r == Err(InsufficientCredits))
  {
    if input.action == Resume { ReconcileKeepsUsage(s, ws, now); }
  }

  /** A workspace whose credits of the period are all spent by watchers since deleted, and one watcher, priced, that ran out. */
  function SpentPeriod(ws: Workspace, now: int, target: TargetKey, cadence: Cadence, price: Price): Ledger {
    var p, spent := Period(now, now + 1), MonitoringCredits(Starter);
    Ledger(map[ws := Subscription(Some(Starter), true, Some(p))], map[(ws, p) := Entitlement(Starter, spent, spent)],
           map[0 := Watcher(ws, target, cadence, PausedCredits, Some(price), 0, EMPTY, "", EMPTY, now, now)], map[], map[], 1)
  }

  /** Every such customer can meet that failure. */
  lemma PricedResumeFails(ws: Workspace, now: int, target: TargetKey, cadence: Cadence, price: Price)
    requires price.amount > 0
    ensures var s, input := SpentPeriod(ws, now, target, cadence, price), Mutation(Resume, None);
      && Inv(s) && PreviewMutation(s, ws, 0, input, now).Ok? && PreviewMutation(s, ws, 0, input, now).value.credits == 0
      && Mutate(s, ws, 0, input, now) == Err(InsufficientCredits)
  {
    var s, input := SpentPeriod(ws, now, target, cadence, price), Mutation(Resume, None);
    assert Counted(s.reservations, ws, Period(now, now + 1)) == {};
    PassedMutationFails(s, ws, 0, input, now);
  }

  // ---- a mutation costs what its preview says ----

  /** Resuming a watcher that ran out of credits before it ever had a price: previewed at one baseline credit,
      but nothing is reserved. */
  predicate UnpricedResume(row: Watcher, input: Mutation) {
    input.action == Resume && row.state == PausedCredits && !HasPositiveBaseline(row)
  }

  /** A mutation reserves exactly the previewed credits if and only if it is not such a resume. */
  lemma MutationReservesPreviewed(s: Ledger, ws: Workspace, w: WatcherId, input: Mutation, now: int)
    requires Inv(s) && Mutate(s, ws, w, input, now).Ok?
    ensures var t, row := Mutate(s, ws, w, input, now).value, s.watchers[w];
      && (|t.reservations| == |s.reservations| + MutationCredits(row, input) <==> !UnpricedResume(row, input))
      && (UnpricedResume(row, input) ==> MutationCredits(row, input) == 1 && t.reservations == Reconcile(s, ws, now).reservations)
  {
    MutationReserves(s, ws, w, input, now);
  }

  predicate Reopens(row: Watcher, input: Mutation) { input.action == Resume && !Runnable(row.state) && row.state != PausedCredits }

  lemma MutationReserves(s: Ledger, ws: Workspace, w: WatcherId, input: Mutation, now: int)
    requires Inv(s) && Mutate(s, ws, w, input, now).Ok?
    ensures |Mutate(s, ws, w, input, now).value.reservations| == |s.reservations| + if Reopens(s.watchers[w], input) then 1 else 0
  {
    var row, u, t := s.watchers[w], Reconcile(s, ws, now), Mutate(s, ws, w, input, now).value;
    if Reopens(row, input) {
      ReconcileReleases(s, ws, now);
      assert |u.reservations.Keys| == |u.reservations|;
      ReconcileKeeps(s, ws, now);
      ReopenReserves(u, ws, w, if input.cadence.Some? then input.cadence.value else row.cadence, CurrentGrant(s, ws, now).value.period, now);
    } else {
      MutationReleases(s, ws, w, input, now);
      assert |t.reservations.Keys| == |t.reservations|;
    }
  }

  /** No row is added, and none changes but to be released. */
  ghost predicate OnlyReleases(s: Ledger, t: Ledger) {
    && t.reservations.Keys == s.reservations.Keys
    && (forall r :: r in t.reservations && t.reservations[r].status != Released ==> t.reservations[r] == s.reservations[r])
    && forall ws, p :: Purged(t, ws, p) == Purged(s, ws, p)
  }

  lemma ReleasesTrans(s: Ledger, t: Ledger, u: Ledger)
    requires OnlyReleases(s, t) && OnlyReleases(t, u)
    ensures OnlyReleases(s, u)
  {
    forall ws, p
      ensures Purged(u, ws, p) == Purged(s, ws, p)
    {
      assert Purged(t, ws, p) == Purged(s, ws, p);
    }
  }

  lemma ReconcileReleases(s: Ledger, ws: Workspace, now: int)
    ensures OnlyReleases(s, Reconcile(s, ws, now))
  {
  }

  lemma MutationReleases(s: Ledger, ws: Workspace, w: WatcherId, input: Mutation, now: int)
    requires Mutate(s, ws, w, input, now).Ok? && !Reopens(s.watchers[w], input)
    ensures OnlyReleases(s, Mutate(s, ws, w, input, now).value)
  {
    var row := s.watchers[w];
    var cadence := if input.cadence.Some? then input.cadence.value else row.cadence;
    match input.action
    case Disable =>
      DisableReleases(s, ws, w, row.(cadence := cadence, state := Disabled, owner := "", expires := EMPTY, updatedAt := now), now);
    case Resume =>
      ReconcileReleases(s, ws, now);
    case CadenceOnly =>
      ReconcileReleases(s.(watchers := s.watchers[w := Recadenced(row, cadence, EMPTY, now)]), ws, now);
  }

  lemma DisableReleases(s: Ledger, ws: Workspace, w: WatcherId, off: Watcher, now: int)
    ensures var t := ReleaseWatcher(s, w); OnlyReleases(s, Reconcile(t.(watchers := t.watchers[w := off]), ws, now))
  {
    var t := ReleaseWatcher(s, w);
    var u := t.(watchers := t.watchers[w := off]);
    assert OnlyReleases(s, u);
    ReconcileReleases(u, ws, now);
    ReleasesTrans(s, u, Reconcile(u, ws, now));
  }

  lemma ReopenReserves(s: Ledger, ws: Workspace, w: WatcherId, cadence: Cadence, p: Period, now: int)
    requires Inv(s) && w in s.watchers
    ensures |Reopen(s, ws, w, cadence, p, now).reservations| == |s.reservations| + 1
  {
    forall r | r in s.reservations
      ensures r != s.next
    {
      assert RowOk(s, r);
    }
    assert ReleaseWatcher(s, w).reservations.Keys == s.reservations.Keys;
  }

  lemma UnpricedResumeHappens(ws: Workspace, now: int, target: TargetKey, cadence: Cadence)
    ensures var s, input := NewPeriod(ws, now, target, cadence), Mutation(Resume, None);
      Inv(s) && UnpricedResume(s.watchers[0], input) && Mutate(s, ws, 0, input, now).Ok?
  {
    var s := NewPeriod(ws, now, target, cadence);
    assert Counted(s.reservations, ws, Period(now, now + 1)) == {};
    ReconcileKeepsUsage(s, ws, now);
  }

  lemma MutationUses(s: Ledger, ws: Workspace, w: WatcherId, input: Mutation, now: int, grant: Grant)
    requires Inv(s) && Mutate(s, ws, w, input, now).Ok? && CurrentGrant(s, ws, now) == Some(grant)
    ensures Used(Mutate(s, ws, w, input, now).value, ws, grant.period) <= Used(s, ws, grant.period) + MutationCredits(s.watchers[w], input)
  {
    var row, t := s.watchers[w], Mutate(s, ws, w, input, now).value;
    if Reopens(row, input) {
      ReconcileKeeps(s, ws, now);
      ReconcileKeepsUsage(s, ws, now);
      ReopenCosts(Reconcile(s, ws, now), ws, w, if input.cadence.Some? then input.cadence.value else row.cadence, grant.period, now);
    } else {
      MutationReleases(s, ws, w, input, now);
      SubsetSize(Counted(t.reservations, ws, grant.period), Counted(s.reservations, ws, grant.period));
    }
  }

  lemma MutationKeepsGrant(s: Ledger, ws: Workspace, w: WatcherId, input: Mutation, now: int)
    requires Mutate(s, ws, w, input, now).Ok?
    ensures CurrentGrant(Mutate(s, ws, w, input, now).value, ws, now) == CurrentGrant(s, ws, now)
  {
  }

  /** However much later it runs: a mutation that still finds the previewed fingerprint, in whatever period,
      leaves use at most at the previewed value. */
  lemma PreviewedMutationIsDone(s: Ledger, later: Ledger, ws: Workspace, w: WatcherId, input: Mutation, before: int, now: int)
    requires Inv(later) && PreviewMutation(s, ws, w, input, before).Ok?
    requires MutateAsPreviewed(later, ws, w, input, Some(PreviewMutation(s, ws, w, input, before).value.fingerprint), now).Ok?
    ensures var p := PreviewMutation(s, ws, w, input, before).value;
      var done := MutateAsPreviewed(later, ws, w, input, Some(p.fingerprint), now).value;
      && done.2.used <= p.after.used
      && (|done.0.reservations| == |later.reservations| + p.credits <==> !UnpricedResume(later.watchers[w], input))
  {
    MutationReservesPreviewed(later, ws, w, input, now);
    MutationKeepsGrant(later, ws, w, input, now);
    if CurrentGrant(later, ws, now).Some? { MutationUses(later, ws, w, input, now, CurrentGrant(later, ws, now).value); }
  }
}
