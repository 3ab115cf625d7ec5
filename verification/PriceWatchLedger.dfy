/** The price-watch tables and what each transaction does to them. Timestamps are milliseconds;
    EMPTY stands for the empty string, which sorts before every timestamp. Random ids are drawn
    from a counter. */
module PriceWatchLedger {
  import opened Wrappers
  import opened RowOrder

  const EMPTY: int := -1
  const WATCHER_LEASE_MS := 600_000

  type Workspace = nat
  type WatcherId = nat
  type ReservationId = nat
  type Owner = string
  type TargetKey = string
  type MatchId = string

  datatype Plan = Starter | Solo | Growth | Agency

  function MonitoringCredits(plan: Plan): nat {
    match plan
    case Starter => 1_000
    case Solo => 5_000
    case Growth => 25_000
    case Agency => 100_000
  }

  datatype Period = Period(start: int, end: int)
  datatype Subscription = Subscription(plan: Option<Plan>, active: bool, period: Option<Period>)
  datatype Entitlement = Entitlement(plan: Plan, allocation: nat, purged: nat)

  datatype Cadence = Hourly | Daily
  datatype WatcherState = BaselinePending | Active | Disabled | PausedCredits | PausedSubscription | PausedFailure
  datatype Price = Price(currency: string, amount: int, listAmount: Option<int>)

  datatype Watcher = Watcher(workspace: Workspace, target: TargetKey, cadence: Cadence, state: WatcherState,
                             baseline: Option<Price>, failures: nat, nextCheck: int,
                             owner: Owner, expires: int, createdAt: int, updatedAt: int)

  datatype Slot = BaselineSlot(token: nat) | ScheduledSlot(at: int)
  datatype Status = Reserved | Attempting | Committed | Released
  datatype Reservation = Reservation(workspace: Workspace, watcher: WatcherId, period: Period, slot: Slot,
                                     status: Status, owner: Owner, lease: int, createdAt: int)

  /** What was observed: the kind of event and the price. */
  datatype Observation = Observation(kind: string, price: Price)

  type Watchers = map<WatcherId, Watcher>
  type Reservations = map<ReservationId, Reservation>

  datatype Ledger = Ledger(subscriptions: map<Workspace, Subscription>,
                           entitlements: map<(Workspace, Period), Entitlement>,
                           watchers: Watchers, reservations: Reservations,
                           observations: map<ReservationId, Observation>, next: nat)

  datatype Grant = Grant(plan: Plan, period: Period, allocation: nat)

  datatype Error = SubscriptionRequired | InsufficientCredits | ImpactChanged | WatcherNotFound | NoEligibleTargets
    | EmptyMutation | DebitNotPreserved | OwnerRequired

  predicate Runnable(state: WatcherState) { state == Active || state == BaselinePending }

  function CadenceMs(cadence: Cadence): int { if cadence == Hourly then 3_600_000 else 86_400_000 }

  // ---- rows in bulk ----

  /** status = 'released', claim cleared. */
  function Freed(r: Reservation): Reservation { r.(status := Released, owner := "", lease := EMPTY) }

  /** UPDATE ... SET status = 'released' WHERE status = 'reserved' AND hit. */
  function ReleaseReserved(m: Reservations, hit: set<ReservationId>): Reservations {
    map r | r in m :: if r in hit && m[r].status == Reserved then Freed(m[r]) else m[r]
  }

  function OfWorkspace(m: Reservations, ws: Workspace): set<ReservationId> { set r | r in m && m[r].workspace == ws }

  function OfWatcher(m: Reservations, w: WatcherId): set<ReservationId> { set r | r in m && m[r].watcher == w }

  // ---- usage ----

  /** Reservations that count against a period. */
  function Counted(m: Reservations, ws: Workspace, p: Period): set<ReservationId> {
    set r | r in m && m[r].workspace == ws && m[r].period == p && m[r].status != Released
  }

  function Purged(s: Ledger, ws: Workspace, p: Period): nat {
    if (ws, p) in s.entitlements then s.entitlements[(ws, p)].purged else 0
  }

  function Used(s: Ledger, ws: Workspace, p: Period): nat {
    |Counted(s.reservations, ws, p)| + Purged(s, ws, p)
  }

  function Remaining(s: Ledger, ws: Workspace, grant: Grant): nat {
    var used := Used(s, ws, grant.period);
    if used < grant.allocation then grant.allocation - used else 0
  }

  datatype Usage = Usage(used: nat, remaining: nat)

  /** Without an entitlement usage reads as zero. */
  function UsageOf(s: Ledger, ws: Workspace, grant: Option<Grant>): Usage {
    if grant.None? then Usage(0, 0) else Usage(Used(s, ws, grant.value.period), Remaining(s, ws, grant.value))
  }

  // ---- reconcile ----

  function CurrentGrant(s: Ledger, ws: Workspace, now: int): Option<Grant> {
    if ws !in s.subscriptions then None
    else
      var sub := s.subscriptions[ws];
      if sub.plan.None? || !sub.active || sub.period.None? || now < sub.period.value.start || now >= sub.period.value.end then None
      else Some(Grant(sub.plan.value, sub.period.value, MonitoringCredits(sub.plan.value)))
  }

  function PauseForSubscription(w: Watcher, now: int): Watcher {
    if Runnable(w.state) || w.state == PausedCredits
    then w.(state := PausedSubscription, owner := "", expires := EMPTY, updatedAt := now) else w
  }

  /** A new period wakes the watchers that ran out of credits. */
  function WakeForPeriod(w: Watcher, now: int): Watcher {
    if w.state != PausedCredits then w
    else w.(state := if w.baseline.Some? then Active else BaselinePending, nextCheck := now, updatedAt := now)
  }

  /** Reservations of a workspace outside its current period. */
  function OutsidePeriod(m: Reservations, ws: Workspace, p: Period): set<ReservationId> {
    set r | r in m && m[r].workspace == ws && m[r].period != p
  }

  function Upsert(s: Ledger, ws: Workspace, grant: Grant): map<(Workspace, Period), Entitlement> {
    s.entitlements[(ws, grant.period) := Entitlement(grant.plan, grant.allocation, Purged(s, ws, grant.period))]
  }

  function Reconcile(s: Ledger, ws: Workspace, now: int): Ledger {
    match CurrentGrant(s, ws, now)
    case None =>
      s.(reservations := ReleaseReserved(s.reservations, OfWorkspace(s.reservations, ws)),
         watchers := map w | w in s.watchers ::
           if s.watchers[w].workspace == ws then PauseForSubscription(s.watchers[w], now) else s.watchers[w])
    case Some(grant) =>
      s.(entitlements := Upsert(s, ws, grant),
         reservations := ReleaseReserved(s.reservations, OutsidePeriod(s.reservations, ws, grant.period)),
         watchers := map w | w in s.watchers ::
           if s.watchers[w].workspace == ws && (ws, grant.period) !in s.entitlements
           then WakeForPeriod(s.watchers[w], now) else s.watchers[w])
  }

  /** A subscription update from billing, reconciled in the same transaction. */
  function Subscribe(s: Ledger, ws: Workspace, sub: Subscription, now: int): Ledger {
    Reconcile(s.(subscriptions := s.subscriptions[ws := sub]), ws, now)
  }

  function DisableWorkspace(s: Ledger, ws: Workspace, now: int): Ledger {
    s.(reservations := ReleaseReserved(s.reservations, OfWorkspace(s.reservations, ws)),
       watchers := map w | w in s.watchers ::
         if s.watchers[w].workspace == ws && s.watchers[w].state != Disabled
         then s.watchers[w].(state := Disabled, owner := "", expires := EMPTY, nextCheck := EMPTY, updatedAt := now)
         else s.watchers[w])
  }

  // ---- reservations ----

  /** A fresh baseline credit. */
  function ReserveBaseline(s: Ledger, ws: Workspace, w: WatcherId, p: Period, now: int): Ledger {
    s.(reservations := s.reservations[s.next := Reservation(ws, w, p, BaselineSlot(s.next), Reserved, "", EMPTY, now)],
       next := s.next + 1)
  }

  function ReleaseWatcher(s: Ledger, w: WatcherId): Ledger {
    s.(reservations := ReleaseReserved(s.reservations, OfWatcher(s.reservations, w)))
  }

  /** A watcher sent back to wait for a first price. */
  function Reopened(w: Watcher, cadence: Cadence, now: int): Watcher {
    w.(cadence := cadence, state := BaselinePending, baseline := None, failures := 0, nextCheck := now,
       owner := "", expires := EMPTY, updatedAt := now)
  }

  /** A new cadence: an active watcher is due one cadence from now, any other keeps its time or, without one, `fallback`. */
  function Recadenced(w: Watcher, cadence: Cadence, fallback: int, now: int): Watcher {
    w.(cadence := cadence, updatedAt := now,
       nextCheck := if w.state == Active then now + CadenceMs(cadence) else if w.nextCheck == EMPTY then fallback else w.nextCheck)
  }

  /** Release what a watcher holds, reopen it and reserve its baseline. */
  function Reopen(s: Ledger, ws: Workspace, w: WatcherId, cadence: Cadence, p: Period, now: int): Ledger
    requires w in s.watchers
  {
    var t := ReleaseWatcher(s, w);
    ReserveBaseline(t.(watchers := t.watchers[w := Reopened(t.watchers[w], cadence, now)]), ws, w, p, now)
  }

  // ---- activation ----

  /** One eligible comparison of the saved report. */
  datatype Eligible = Eligible(target: TargetKey, matchId: MatchId)

  datatype Group = Group(target: TargetKey, links: seq<MatchId>)

  datatype Item = Item(group: Group, existing: Option<WatcherId>)

  /** Comparisons grouped by target, in the order targets first appear. */
  function GroupTargets(targets: seq<Eligible>): (r: seq<Group>)
    ensures forall i, j :: 0 <= i < j < |r| ==> r[i].target != r[j].target
    ensures forall g :: g in r ==> exists t :: t in targets && t.target == g.target
  {
    if targets == [] then []
    else
      var n := |targets| - 1;
      var groups, t := GroupTargets(targets[..n]), targets[n];
      var k := GroupIndex(groups, t.target);
      assert forall x :: x in targets[..n] ==> x in targets;
      assert t in targets;
      if k < |groups| then groups[k := Group(t.target, groups[k].links + [t.matchId])]
      else groups + [Group(t.target, [t.matchId])]
  }

  function GroupIndex(groups: seq<Group>, target: TargetKey): (k: nat)
    ensures k <= |groups|
    ensures k < |groups| ==> groups[k].target == target
    ensures forall i :: 0 <= i < k ==> groups[i].target != target
  {
    if groups == [] || groups[0].target == target then 0 else 1 + GroupIndex(groups[1..], target)
  }

  function Matching(m: Watchers, ws: Workspace, target: TargetKey): set<WatcherId> {
    set w | w in m && m[w].workspace == ws && m[w].target == target
  }

  function CreationRank(m: Watchers): Rank { map w | w in m :: (0, 0) }

  /** The watcher of a target; the table holds at most one (PriceWatchKeys.ReachableKeysAreUnique). */
  function Existing(m: Watchers, ws: Workspace, target: TargetKey): (r: Option<WatcherId>)
    ensures r.Some? ==> r.value in Matching(m, ws, target)
    ensures r.None? ==> Matching(m, ws, target) == {}
  {
    var ids := Matching(m, ws, target);
    if ids == {} then None else Some(First(ids, CreationRank(m)))
  }

  function Resolve(m: Watchers, ws: Workspace, groups: seq<Group>): (r: seq<Item>)
    ensures |r| == |groups|
    ensures forall i :: 0 <= i < |r| ==> r[i] == Item(groups[i], Existing(m, ws, groups[i].target))
  {
    seq(|groups|, i requires 0 <= i < |groups| => Item(groups[i], Existing(m, ws, groups[i].target)))
  }

  /** An item costs a baseline credit unless its watcher is already running. */
  predicate NeedsBaseline(m: Watchers, item: Item) {
    item.existing.None? || item.existing.value !in m || !Runnable(m[item.existing.value].state)
  }

  function BaselineCredits(m: Watchers, items: seq<Item>): (n: nat)
    ensures n <= |items|
  {
    if items == [] then 0
    else BaselineCredits(m, items[..|items| - 1]) + (if NeedsBaseline(m, items[|items| - 1]) then 1 else 0)
  }

  function CreatedCount(items: seq<Item>): (n: nat)
    ensures n <= |items|
  {
    if items == [] then 0
    else CreatedCount(items[..|items| - 1]) + (if items[|items| - 1].existing.None? then 1 else 0)
  }

  datatype ExistingImpact = ExistingImpact(id: WatcherId, state: WatcherState, cadence: Cadence, updatedAt: int)
  datatype TargetImpact = TargetImpact(existing: Option<ExistingImpact>, links: multiset<MatchId>)

  /** What the impact hash covers. The hash is taken to be injective, so it is modelled by its input. */
  datatype Fingerprint = Fingerprint(report: string, cadence: Cadence, selection: string, period: Period,
                                     usage: Usage, targets: map<TargetKey, TargetImpact>)

  function ImpactOf(m: Watchers, item: Item): TargetImpact {
    TargetImpact(
      if item.existing.None? || item.existing.value !in m then None
      else
        var w := m[item.existing.value];
        Some(ExistingImpact(item.existing.value, w.state, w.cadence, w.updatedAt)),
      multiset(item.group.links))
  }

  function TargetImpacts(m: Watchers, items: seq<Item>): map<TargetKey, TargetImpact> {
    if items == [] then map[]
    else TargetImpacts(m, items[..|items| - 1])[items[|items| - 1].group.target := ImpactOf(m, items[|items| - 1])]
  }

  datatype Activation = Activation(report: string, selection: string, cadence: Cadence, targets: seq<Eligible>)

  datatype Resolution = Resolution(grant: Grant, items: seq<Item>, credits: nat, before: Usage, fingerprint: Fingerprint)

  function ResolveActivation(s: Ledger, ws: Workspace, input: Activation, grant: Grant): Resolution {
    var items := Resolve(s.watchers, ws, GroupTargets(input.targets));
    var before := UsageOf(s, ws, Some(grant));
    Resolution(grant, items, BaselineCredits(s.watchers, items), before,
               Fingerprint(input.report, input.cadence, input.selection, grant.period, before, TargetImpacts(s.watchers, items)))
  }

  datatype ActivationPreview = ActivationPreview(unique: nat, created: nat, reused: nat, credits: nat,
                                                 before: Usage, after: Usage, fingerprint: Fingerprint)

  function PreviewActivation(s: Ledger, ws: Workspace, input: Activation, now: int): Result<ActivationPreview, Error> {
    if input.targets == [] then Err(NoEligibleTargets)
    else match CurrentGrant(s, ws, now)
      case None => Err(SubscriptionRequired)
      case Some(grant) =>
        var r := ResolveActivation(s, ws, input, grant);
        if r.before.used + r.credits > grant.allocation then Err(InsufficientCredits)
        else Ok(ActivationPreview(|r.items|, CreatedCount(r.items), |r.items| - CreatedCount(r.items), r.credits, r.before,
          Usage(r.before.used + r.credits, if r.credits < r.before.remaining then r.before.remaining - r.credits else 0),
          r.fingerprint))
  }

  /** One target of an activation: create, reopen or only re-schedule its watcher. */
  function ActivateItem(s: Ledger, ws: Workspace, item: Item, cadence: Cadence, p: Period, now: int): Ledger {
    if item.existing.None? || item.existing.value !in s.watchers then
      var w := s.next;
      var born := Watcher(ws, item.group.target, cadence, BaselinePending, None, 0, now, "", EMPTY, now, now);
      ReserveBaseline(s.(watchers := s.watchers[w := born], next := w + 1), ws, w, p, now)
    else
      var w := item.existing.value;
      if Runnable(s.watchers[w].state)
      then s.(watchers := s.watchers[w := Recadenced(s.watchers[w], cadence, now, now)])
      else Reopen(s, ws, w, cadence, p, now)
  }

  function ActivateItems(s: Ledger, ws: Workspace, items: seq<Item>, cadence: Cadence, p: Period, now: int): Ledger {
    if items == [] then s
    else ActivateItem(ActivateItems(s, ws, items[..|items| - 1], cadence, p, now), ws, items[|items| - 1], cadence, p, now)
  }

  datatype ActivationResult = ActivationResult(created: nat, reused: nat, credits: nat, usage: Usage)

  /** Activation on reconciled tables. */
  function ActivateReconciled(s: Ledger, ws: Workspace, input: Activation, expected: Option<Fingerprint>, grant: Grant, now: int)
    : Result<(Ledger, ActivationResult), Error>
  {
    var r := ResolveActivation(s, ws, input, grant);
    if expected.Some? && expected.value != r.fingerprint then Err(ImpactChanged)
    else if r.before.used + r.credits > grant.allocation then Err(InsufficientCredits)
    else
      var done := ActivateItems(s, ws, r.items, input.cadence, grant.period, now);
      Ok((done, ActivationResult(CreatedCount(r.items), |r.items| - CreatedCount(r.items), r.credits,
                                 UsageOf(done, ws, Some(grant)))))
  }

  /** The activation transaction; an error leaves the tables as they were. */
  function Activate(s: Ledger, ws: Workspace, input: Activation, expected: Option<Fingerprint>, now: int)
    : Result<(Ledger, ActivationResult), Error>
  {
    if input.targets == [] then Err(NoEligibleTargets)
    else match CurrentGrant(s, ws, now)
      case None => Err(SubscriptionRequired)
      case Some(grant) => ActivateReconciled(Reconcile(s, ws, now), ws, input, expected, grant, now)
  }

  // ---- mutation ----

  datatype Action = Disable | Resume | CadenceOnly

  /** `cadence` is the requested cadence, if any. */
  datatype Mutation = Mutation(action: Action, cadence: Option<Cadence>)

  predicate HasPositiveBaseline(w: Watcher) { w.baseline.Some? && w.baseline.value.amount > 0 }

  /** The baseline credits that a preview asks for. */
  function MutationCredits(row: Watcher, input: Mutation): nat {
    if input.action == Resume && !Runnable(row.state) && !(row.state == PausedCredits && HasPositiveBaseline(row)) then 1 else 0
  }

  /** The checks that the mutation preview makes before anything is written. */
  function CheckMutation(s: Ledger, ws: Workspace, w: WatcherId, input: Mutation, now: int): Option<Error> {
    if w !in s.watchers || s.watchers[w].workspace != ws then Some(WatcherNotFound)
    else if input.action == CadenceOnly && input.cadence.None? then Some(EmptyMutation)
    else
      var grant := CurrentGrant(s, ws, now);
      if input.action == Resume && grant.None? then Some(SubscriptionRequired)
      else if MutationCredits(s.watchers[w], input) > UsageOf(s, ws, grant).remaining then Some(InsufficientCredits)
      else None
  }

  /** What the fingerprint of a mutation covers; an amount of zero reads as none. */
  datatype MutationFingerprint = MutationFingerprint(watcher: WatcherId, updatedAt: int, state: WatcherState, cadence: Cadence,
                                                     baseline: Option<int>, action: Action, requested: Cadence, usage: Usage)

  datatype MutationPreview = MutationPreview(credits: nat, before: Usage, after: Usage, fingerprint: MutationFingerprint)

  function PreviewMutation(s: Ledger, ws: Workspace, w: WatcherId, input: Mutation, now: int): Result<MutationPreview, Error> {
    var error := CheckMutation(s, ws, w, input, now);
    if error.Some? then Err(error.value)
    else
      var row, before := s.watchers[w], UsageOf(s, ws, CurrentGrant(s, ws, now));
      var credits := MutationCredits(row, input);
      Ok(MutationPreview(credits, before,
        Usage(before.used + credits, if credits < before.remaining then before.remaining - credits else 0),
        MutationFingerprint(w, row.updatedAt, row.state, row.cadence,
          if row.baseline.Some? && row.baseline.value.amount != 0 then Some(row.baseline.value.amount) else None,
          input.action, if input.cadence.Some? then input.cadence.value else row.cadence, before)))
  }

  function ResumeWatcher(s: Ledger, ws: Workspace, w: WatcherId, row: Watcher, cadence: Cadence, grant: Grant, now: int): Result<Ledger, Error>
    requires w in s.watchers
  {
    if Runnable(row.state) then
      Ok(s.(watchers := s.watchers[w := s.watchers[w].(cadence := cadence,
        nextCheck := Recadenced(row, cadence, now, now).nextCheck, updatedAt := now)]))
    else if Remaining(s, ws, grant) < 1 then Err(InsufficientCredits)
    else if row.state == PausedCredits then
      Ok(s.(watchers := s.watchers[w := s.watchers[w].(cadence := cadence,
        state := if HasPositiveBaseline(row) then Active else BaselinePending, failures := 0, nextCheck := now,
        owner := "", expires := EMPTY, updatedAt := now)]))
    else Ok(Reopen(s, ws, w, cadence, grant.period, now))
  }

  /** What a mutation does. The usage it returns reconciles the subscription on every path. */
  function Mutate(s: Ledger, ws: Workspace, w: WatcherId, input: Mutation, now: int): Result<Ledger, Error> {
    var error := CheckMutation(s, ws, w, input, now);
    if error.Some? then Err(error.value)
    else
      var row := s.watchers[w];
      var cadence := if input.cadence.Some? then input.cadence.value else row.cadence;
      match input.action
      case Disable =>
        var t := ReleaseWatcher(s, w);
        Ok(Reconcile(t.(watchers := t.watchers[w := row.(cadence := cadence, state := Disabled, owner := "", expires := EMPTY,
                                                       updatedAt := now)]), ws, now))
      case Resume => ResumeWatcher(Reconcile(s, ws, now), ws, w, row, cadence, CurrentGrant(s, ws, now).value, now)
      case CadenceOnly =>
        Ok(Reconcile(s.(watchers := s.watchers[w := Recadenced(row, cadence, EMPTY, now)]), ws, now))
  }

  /** The mutation transaction, guarded by a preview's fingerprint: the tables, the watcher and the usage. */
  function MutateAsPreviewed(s: Ledger, ws: Workspace, w: WatcherId, input: Mutation, expected: Option<MutationFingerprint>, now: int)
    : Result<(Ledger, Watcher, Usage), Error>
  {
    match PreviewMutation(s, ws, w, input, now)
    case Err(e) => Err(e)
    case Ok(p) =>
      if expected.Some? && expected.value != p.fingerprint then Err(ImpactChanged)
      else match Mutate(s, ws, w, input, now)
        case Err(e) => Err(e)
        case Ok(t) => Ok((t, t.watchers[w], UsageOf(t, ws, CurrentGrant(t, ws, now))))
  }

  // ---- deletion ----

  /** Debits of a watcher in one period that crossed the attempt boundary. */
  function Debits(m: Reservations, w: WatcherId, p: Period): set<ReservationId> {
    set r | r in m && m[r].watcher == w && m[r].period == p && (m[r].status == Attempting || m[r].status == Committed)
  }

  function DebitPeriods(m: Reservations, w: WatcherId): set<Period> {
    set r | r in m && m[r].watcher == w && (m[r].status == Attempting || m[r].status == Committed) :: m[r].period
  }

  /** Roll the debits of a watcher into the entitlements of its workspace. */
  function RollUp(s: Ledger, ws: Workspace, w: WatcherId): map<(Workspace, Period), Entitlement> {
    map k | k in s.entitlements ::
      if k.0 == ws then s.entitlements[k].(purged := s.entitlements[k].purged + |Debits(s.reservations, w, k.1)|)
      else s.entitlements[k]
  }

  /** What the fingerprint of a deletion covers. */
  datatype DeletionFingerprint = DeletionFingerprint(watcher: WatcherId, state: WatcherState, updatedAt: int, observations: nat)

  function ObservedOf(s: Ledger, w: WatcherId): set<ReservationId> {
    set r | r in s.observations && r in s.reservations && s.reservations[r].watcher == w
  }

  function PreviewDeletion(s: Ledger, ws: Workspace, w: WatcherId): Result<DeletionFingerprint, Error> {
    if w !in s.watchers || s.watchers[w].workspace != ws then Err(WatcherNotFound)
    else Ok(DeletionFingerprint(w, s.watchers[w].state, s.watchers[w].updatedAt, |ObservedOf(s, w)|))
  }

  /** The deletion transaction, guarded by a preview's fingerprint. */
  function DeleteAsPreviewed(s: Ledger, ws: Workspace, w: WatcherId, expected: Option<DeletionFingerprint>): Result<Ledger, Error> {
    match PreviewDeletion(s, ws, w)
    case Err(e) => Err(e)
    case Ok(p) => if expected.Some? && expected.value != p then Err(ImpactChanged) else Delete(s, ws, w)
  }

  /** What a deletion does: debits first, then the row and everything that hangs on it. */
  function Delete(s: Ledger, ws: Workspace, w: WatcherId): Result<Ledger, Error> {
    if w !in s.watchers || s.watchers[w].workspace != ws then Err(WatcherNotFound)
    else if exists p :: p in DebitPeriods(s.reservations, w) && (ws, p) !in s.entitlements then Err(DebitNotPreserved)
    else
      var gone := OfWatcher(s.reservations, w);
      Ok(s.(entitlements := RollUp(s, ws, w), watchers := s.watchers - {w},
            reservations := s.reservations - gone, observations := s.observations - gone))
  }

  // ---- leases ----

  predicate ExpiredLease(r: Reservation, now: int) {
    (r.status == Reserved || r.status == Attempting) && r.lease != EMPTY && r.lease <= now
  }

  function Expired(s: Ledger, now: int): set<ReservationId> {
    set r | r in s.reservations && ExpiredLease(s.reservations[r], now) && s.reservations[r].watcher in s.watchers
  }

  /** Rows that a reaper finds in this status. */
  function ExpiredIn(s: Ledger, now: int, status: Status): set<ReservationId> {
    set r | r in Expired(s, now) && s.reservations[r].status == status
  }

  function LeaseRank(m: Reservations): Rank { map r | r in m :: (m[r].lease, 0) }

  /** One expired row, with the watcher as it was when the rows were read. */
  function ReapRow(s: Ledger, r: ReservationId, seen: Watcher, now: int): Ledger {
    if r !in s.reservations || s.reservations[r].watcher !in s.watchers then s
    else
      var row := s.reservations[r];
      var w := row.watcher;
      if row.status == Reserved then
        s.(reservations := s.reservations[r := Freed(row)],
           watchers := if s.watchers[w].expires <= now
             then s.watchers[w := s.watchers[w].(nextCheck := now, owner := "", expires := EMPTY, updatedAt := now)]
             else s.watchers)
      else
        var failures := seen.failures + 1;
        s.(reservations := if row.status == Attempting
             then s.reservations[r := row.(status := Committed, owner := "", lease := EMPTY)] else s.reservations,
           watchers := s.watchers[w := s.watchers[w].(
             state := if Runnable(seen.state) && failures >= 3 then PausedFailure else seen.state,
             failures := failures, nextCheck := now + CadenceMs(seen.cadence), owner := "", expires := EMPTY, updatedAt := now)])
  }

  function ReapRows(s: Ledger, read: Ledger, rows: seq<ReservationId>, now: int): Ledger {
    if rows == [] then s
    else
      var n := |rows| - 1;
      var t := ReapRows(s, read, rows[..n], now);
      if rows[n] in read.reservations && read.reservations[rows[n]].watcher in read.watchers
      then ReapRow(t, rows[n], read.watchers[read.reservations[rows[n]].watcher], now) else t
  }

  /** Clear leases that finished rows still carry. */
  function ClearFinished(m: Reservations, now: int): Reservations {
    map r | r in m :: if (m[r].status == Committed || m[r].status == Released) && m[r].lease != EMPTY && m[r].lease <= now
      then m[r].(owner := "", lease := EMPTY) else m[r]
  }

  function Reap(s: Ledger, now: int): Ledger {
    var t := ReapRows(s, s, OrderBy(Expired(s, now), LeaseRank(s.reservations)), now);
    t.(reservations := ClearFinished(t.reservations, now))
  }

  // ---- claims ----

  datatype Claim = Claim(reservation: ReservationId, watcher: WatcherId, workspace: Workspace, state: WatcherState,
                         baseline: Option<Price>, owner: Owner, lease: int)

  predicate Due(w: Watcher, now: int) {
    Runnable(w.state) && w.nextCheck <= now && (w.owner == "" || w.expires <= now)
  }

  function DueRank(m: Watchers): Rank { map w | w in m :: (m[w].nextCheck, m[w].createdAt) }

  function DueList(m: Watchers, now: int, limit: nat): (r: seq<WatcherId>)
    ensures |r| <= limit
    ensures forall w :: w in r ==> w in m && Due(m[w], now)
  {
    var ids := OrderBy((set w | w in m && Due(m[w], now)), DueRank(m));
    assert forall w :: w in ids ==> w in m && Due(m[w], now);
    if |ids| <= limit then ids else ids[..limit]
  }

  function OldestRank(m: Reservations): Rank { map r | r in m :: (m[r].createdAt, 0) }
  function NewestRank(m: Reservations): Rank { map r | r in m :: (-m[r].createdAt, 0) }

  function WaitingBaselines(m: Reservations, w: WatcherId, p: Period): set<ReservationId> {
    set r | r in m && m[r].watcher == w && m[r].period == p && m[r].status == Reserved && m[r].owner == "" && m[r].slot.BaselineSlot?
  }

  function Baselines(m: Reservations, w: WatcherId): set<ReservationId> {
    set r | r in m && m[r].watcher == w && m[r].slot.BaselineSlot?
  }

  function AtSlot(m: Reservations, w: WatcherId, slot: Slot): set<ReservationId> {
    set r | r in m && m[r].watcher == w && m[r].slot == slot
  }

  /** A released row taken up again, moved to the current period. */
  function Revived(r: Reservation, ws: Workspace, p: Period): Reservation {
    r.(workspace := ws, period := p, status := Reserved, owner := "", lease := EMPTY)
  }

  /** The row for the watcher's due slot: revive a released one, refuse a used one, or insert. */
  function ReservationForSlot(s: Ledger, w: WatcherId, row: Watcher, p: Period, now: int): (Ledger, Option<ReservationId>) {
    var slot := ScheduledSlot(if row.nextCheck == EMPTY then now else row.nextCheck);
    var existing := AtSlot(s.reservations, w, slot);
    if existing != {} then
      var r := First(existing, OldestRank(s.reservations));
      if s.reservations[r].status == Released
      then (s.(reservations := s.reservations[r := Revived(s.reservations[r], row.workspace, p)]), Some(r))
      else (s, None)
    else
      (s.(reservations := s.reservations[s.next := Reservation(row.workspace, w, p, slot, Reserved, "", EMPTY, now)],
          next := s.next + 1), Some(s.next))
  }

  function ReservationForClaim(s: Ledger, w: WatcherId, row: Watcher, p: Period, now: int): (Ledger, Option<ReservationId>) {
    var baselines := Baselines(s.reservations, w);
    if row.state == BaselinePending && baselines != {} then
      var r := First(baselines, NewestRank(s.reservations));
      var latest := s.reservations[r];
      if latest.status == Reserved && latest.period == p && latest.owner == "" then (s, Some(r))
      else if latest.status == Released
      then (s.(reservations := s.reservations[r := Revived(latest, row.workspace, p)]), Some(r))
      else ReservationForSlot(s, w, row, p, now)
    else ReservationForSlot(s, w, row, p, now)
  }

  /** Lease the chosen reservation and its watcher; give the reservation back if the watcher is not free. */
  function Lease(s: Ledger, w: WatcherId, row: Watcher, r: ReservationId, owner: Owner, now: int): (Ledger, Option<Claim>) {
    if r !in s.reservations || s.reservations[r].status != Reserved || s.reservations[r].owner != "" then (s, None)
    else
      var lease := now + WATCHER_LEASE_MS;
      if w in s.watchers && Runnable(s.watchers[w].state) && (s.watchers[w].owner == "" || s.watchers[w].expires <= now) then
        (s.(reservations := s.reservations[r := s.reservations[r].(owner := owner, lease := lease)],
            watchers := s.watchers[w := s.watchers[w].(owner := owner, expires := lease, updatedAt := now)]),
         Some(Claim(r, w, row.workspace, row.state, if HasPositiveBaseline(row) then row.baseline else None, owner, lease)))
      else (s.(reservations := s.reservations[r := s.reservations[r].(owner := "", lease := EMPTY)]), None)
  }

  /** One due watcher, with its row as it was when the candidates were read. */
  function ClaimOne(s: Ledger, w: WatcherId, row: Watcher, owner: Owner, now: int): (Ledger, Option<Claim>) {
    match CurrentGrant(s, row.workspace, now)
    case None => (Reconcile(s, row.workspace, now), None)
    case Some(grant) =>
      var t := Reconcile(s, row.workspace, now);
      var waiting := WaitingBaselines(t.reservations, w, grant.period);
      if row.state == BaselinePending && waiting != {} then
        Lease(t, w, row, First(waiting, OldestRank(t.reservations)), owner, now)
      else if Remaining(t, row.workspace, grant) < 1 then
        (if w in t.watchers && Runnable(t.watchers[w].state)
         then t.(watchers := t.watchers[w := t.watchers[w].(state := PausedCredits, owner := "", expires := EMPTY, updatedAt := now)])
         else t, None)
      else
        var (u, reservation) := ReservationForClaim(t, w, row, grant.period, now);
        if reservation.None? then (u, None) else Lease(u, w, row, reservation.value, owner, now)
  }

  function Bounded(limit: int): (n: nat)
    ensures 1 <= n <= 50
  {
    if limit < 1 then 1 else if limit > 50 then 50 else limit
  }

  /** The candidates in turn, until `bounded` claims are made. */
  function ClaimEach(s: Ledger, read: Watchers, due: seq<WatcherId>, bounded: nat, owner: Owner, now: int): (r: (Ledger, seq<Claim>))
    ensures |r.1| <= bounded
  {
    if due == [] then (s, [])
    else
      var n := |due| - 1;
      var (t, claims) := ClaimEach(s, read, due[..n], bounded, owner, now);
      if |claims| >= bounded || due[n] !in read then (t, claims)
      else
        var (u, claim) := ClaimOne(t, due[n], read[due[n]], owner, now);
        (u, if claim.None? then claims else claims + [claim.value])
  }

  /** The claim transaction of one worker. */
  function ClaimDue(s: Ledger, owner: Owner, limit: int, now: int): Result<(Ledger, seq<Claim>), Error> {
    if owner == "" then Err(OwnerRequired)
    else
      var t := Reap(s, now);
      Ok(ClaimEach(t, t.watchers, DueList(t.watchers, now, 4 * Bounded(limit)), Bounded(limit), owner, now))
  }

  // ---- attempts ----

  /** The claim is still the worker's: reserved, owned by it, lease not over. */
  predicate Holds(s: Ledger, c: Claim, now: int) {
    && c.reservation in s.reservations && s.reservations[c.reservation].watcher == c.watcher
    && s.reservations[c.reservation].status == Reserved && s.reservations[c.reservation].owner == c.owner
    && s.reservations[c.reservation].lease > now
  }

  function Begin(s: Ledger, c: Claim, now: int): (Ledger, bool) {
    if Holds(s, c, now)
    then (s.(reservations := s.reservations[c.reservation := s.reservations[c.reservation].(status := Attempting)]), true)
    else (s, false)
  }

  function ReleaseClaim(s: Ledger, c: Claim, now: int): (Ledger, bool) {
    if c.reservation in s.reservations && s.reservations[c.reservation].watcher == c.watcher
       && s.reservations[c.reservation].status == Reserved && s.reservations[c.reservation].owner == c.owner
    then (s.(reservations := s.reservations[c.reservation := Freed(s.reservations[c.reservation])],
             watchers := if c.watcher in s.watchers && s.watchers[c.watcher].owner == c.owner
               then s.watchers[c.watcher := s.watchers[c.watcher].(nextCheck := now, owner := "", expires := EMPTY, updatedAt := now)]
               else s.watchers), true)
    else (s, false)
  }

  datatype Outcome = Baseline(price: Price) | Unchanged | Change(price: Price) | Failure | Inconclusive

  datatype Completion = Completion(completed: bool, paused: bool, event: string)

  function EventType(previous: Price, current: Price): string {
    if current.amount < previous.amount then "price-decreased"
    else if current.amount > previous.amount then "price-increased"
    else if previous.listAmount.None? && current.listAmount.Some? then "discount-started"
    else if previous.listAmount.Some? && current.listAmount.None? then "discount-ended"
    else "discount-changed"
  }

  /** The watcher after an attempt with this outcome. */
  function Settle(w: Watcher, outcome: Outcome, now: int): Watcher {
    var free := w.(nextCheck := now + CadenceMs(w.cadence), owner := "", expires := EMPTY, updatedAt := now);
    match outcome
    case Failure => free.(failures := w.failures + 1, state := if Runnable(w.state) && w.failures + 1 >= 3 then PausedFailure else w.state)
    case Inconclusive => free.(failures := w.failures + 1, state := if Runnable(w.state) && w.failures + 1 >= 3 then PausedFailure else w.state)
    case Baseline(price) => free.(failures := 0, state := if Runnable(w.state) then Active else w.state, baseline := Some(price))
    case Unchanged => free.(failures := 0, state := if Runnable(w.state) then Active else w.state)
    case Change(price) => free.(failures := 0, state := if Runnable(w.state) then Active else w.state, baseline := Some(price))
  }

  /** The observation that an outcome stores, if any. */
  function Observed(c: Claim, outcome: Outcome): Option<Observation> {
    match outcome
    case Baseline(price) => Some(Observation("baseline", price))
    case Change(price) => if c.baseline.Some? then Some(Observation(EventType(c.baseline.value, price), price)) else None
    case _ => None
  }

  /** The completion transaction. A change without a stored baseline throws and rolls back. */
  function Complete(s: Ledger, c: Claim, outcome: Outcome, now: int): (Ledger, Completion) {
    var found := c.reservation in s.reservations && s.reservations[c.reservation].watcher == c.watcher;
    if found && s.reservations[c.reservation].status == Committed then (s, Completion(true, false, "replayed"))
    else if !found || s.reservations[c.reservation].status != Attempting || s.reservations[c.reservation].owner != c.owner
    then (s, Completion(false, false, ""))
    else
      var t := s.(reservations := s.reservations[c.reservation :=
        s.reservations[c.reservation].(status := Committed, owner := "", lease := EMPTY)]);
      if c.watcher !in t.watchers || t.watchers[c.watcher].workspace != c.workspace then (t, Completion(false, false, ""))
      else if outcome.Change? && c.baseline.None? then (s, Completion(false, false, "error"))
      else
        var before, after := t.watchers[c.watcher], Settle(t.watchers[c.watcher], outcome, now);
        var observed := Observed(c, outcome);
        (t.(watchers := t.watchers[c.watcher := after],
            observations := if observed.Some? && c.reservation !in t.observations
              then t.observations[c.reservation := observed.value] else t.observations),
         Completion(true, (outcome.Failure? || outcome.Inconclusive?) && Runnable(before.state) && before.failures + 1 >= 3,
           match outcome
           case Failure => "check-failed"
           case Inconclusive => "confirmation-inconclusive"
           case Baseline(_) => "baseline"
           case Unchanged => "unchanged"
           case Change(price) => EventType(c.baseline.value, price)))
  }
}
