/** The scheduler that runs a batch of price checks under a global limit and one limit per domain.
    A worker's callbacks come in two steps: its result or error is stored, then its slot is given back. */
module BatchScheduler {
  import opened Collections
  import opened Wrappers

  /** The two limits, as clamped, and the domain of every item. */
  datatype Config = Config(domains: seq<string>, globalLimit: int, perDomainLimit: int)

  function DomainOf(cfg: Config, i: nat): string { if i < |cfg.domains| then cfg.domains[i] else "" }

  ghost predicate ValidConfig(cfg: Config) { 1 <= cfg.globalLimit <= 8 && 1 <= cfg.perDomainLimit <= 2 }

  function Clamp(requested: int, most: int): (r: int)
    requires most >= 1
    ensures 1 <= r <= most
    ensures 1 <= requested <= most ==> r == requested
    ensures requested == 0 || requested > most ==> r == most
    ensures requested < 0 ==> r == 1
  {
    var wanted := if requested == 0 then most else requested;
    if wanted < 1 then 1 else if wanted > most then most else wanted
  }

  /** How a worker ends. An error with an empty reason counts as no error, as a falsy value does. */
  datatype Outcome<R> = Done(value: R) | Failed(reason: string)

  datatype Ending<R> = Open | Resolved(results: seq<Option<R>>) | Rejected(reason: string) | Stuck

  /** `launched`, `settled` and `finished` record history and decide nothing. */
  datatype State<R> = State(pending: seq<nat>, active: int, domainActive: map<string, int>, results: seq<Option<R>>,
                            failure: string, ending: Ending<R>,
                            launched: seq<nat>, settled: map<nat, Outcome<R>>, finished: set<nat>)

  function ActiveIn(m: map<string, int>, domain: string): int { if domain in m then m[domain] else 0 }

  predicate Free<R>(cfg: Config, s: State<R>, i: nat) {
    ActiveIn(s.domainActive, DomainOf(cfg, i)) < cfg.perDomainLimit
  }

  /** The first pending item whose domain has a free slot. */
  function FirstFree<R>(cfg: Config, s: State<R>, k: nat): (r: nat)
    requires k <= |s.pending|
    ensures k <= r <= |s.pending|
    ensures r < |s.pending| ==> Free(cfg, s, s.pending[r])
    ensures forall j :: k <= j < r ==> !Free(cfg, s, s.pending[j])
    decreases |s.pending| - k
  {
    if k == |s.pending| || Free(cfg, s, s.pending[k]) then k else FirstFree(cfg, s, k + 1)
  }

  function LaunchAt<R>(cfg: Config, s: State<R>, k: nat): State<R>
    requires k < |s.pending| && Free(cfg, s, s.pending[k])
  {
    var i := s.pending[k];
    var domain := DomainOf(cfg, i);
    s.(pending := s.pending[..k] + s.pending[k + 1..], active := s.active + 1,
       domainActive := s.domainActive[domain := ActiveIn(s.domainActive, domain) + 1], launched := s.launched + [i])
  }

  /** Launch while there is room. */
  function Launch<R>(cfg: Config, s: State<R>): State<R>
    decreases |s.pending|
  {
    if s.failure != "" || s.active >= cfg.globalLimit then s
    else
      var k := FirstFree(cfg, s, 0);
      if k == |s.pending| then s else Launch(cfg, LaunchAt(cfg, s, k))
  }

  function Schedule<R>(cfg: Config, s: State<R>): State<R> {
    if s.failure != "" && s.active == 0 then s.(ending := Rejected(s.failure))
    else if s.pending == [] && s.active == 0 then s.(ending := Resolved(s.results))
    else
      var t := Launch(cfg, s);
      if t.launched == s.launched && t.active == 0 && t.pending != [] && t.failure == "" then t.(ending := Stuck) else t
  }

  function Initial<R>(cfg: Config): State<R> {
    State(seq(|cfg.domains|, i => i), 0, map[], seq(|cfg.domains|, i => None), "", Open, [], map[], {})
  }

  /** A worker's result or error arrives; only the first error is kept. */
  function Settle<R>(s: State<R>, i: nat, outcome: Outcome<R>): State<R>
    requires i < |s.results|
  {
    match outcome
    case Done(value) => s.(results := s.results[i := Some(value)], settled := s.settled[i := outcome])
    case Failed(reason) => s.(failure := if s.failure != "" then s.failure else reason, settled := s.settled[i := outcome])
  }

  /** Its slot is given back. */
  function Freed<R>(cfg: Config, s: State<R>, i: nat): State<R> {
    var domain := DomainOf(cfg, i);
    var count := (if ActiveIn(s.domainActive, domain) == 0 then 1 else ActiveIn(s.domainActive, domain)) - 1;
    s.(active := s.active - 1, domainActive := s.domainActive[domain := if count < 0 then 0 else count],
       finished := s.finished + {i})
  }

  function Finish<R>(cfg: Config, s: State<R>, i: nat): State<R> { Schedule(cfg, Freed(cfg, s, i)) }

  // ---- the invariant ----

  function Running<R>(s: State<R>): set<nat> { set i | i in s.launched && i !in s.finished }

  function RunningIn<R>(cfg: Config, s: State<R>, domain: string): set<nat> {
    set i | i in s.launched && i !in s.finished && DomainOf(cfg, i) == domain
  }

  /** Every item is pending or launched, never both, never twice. */
  ghost predicate Parted<R>(cfg: Config, s: State<R>) {
    && (forall i: nat :: i in s.pending || i in s.launched <==> i < |cfg.domains|)
    && (forall i :: i in s.pending ==> i !in s.launched)
    && (forall a, b :: 0 <= a < b < |s.pending| ==> s.pending[a] < s.pending[b])
    && (forall a, b :: 0 <= a < b < |s.launched| ==> s.launched[a] != s.launched[b])
  }

  /** Within a domain items are launched in the order given, ahead of what is pending. */
  ghost predicate InOrder<R>(cfg: Config, s: State<R>) {
    && (forall a, b :: 0 <= a < b < |s.launched| && DomainOf(cfg, s.launched[a]) == DomainOf(cfg, s.launched[b]) ==>
          s.launched[a] < s.launched[b])
    && (forall i, j :: i in s.launched && j in s.pending && DomainOf(cfg, i) == DomainOf(cfg, j) ==> i < j)
  }

  /** The counters count the running workers, within the limits. */
  ghost predicate Counted<R>(cfg: Config, s: State<R>) {
    && s.active == |Running(s)| && s.active <= cfg.globalLimit
    && forall domain :: ActiveIn(s.domainActive, domain) == |RunningIn(cfg, s, domain)| <= cfg.perDomainLimit
  }

  /** Results sit at their own items, and a kept error is one that some worker gave. */
  ghost predicate Recorded<R>(cfg: Config, s: State<R>) {
    && |s.results| == |cfg.domains|
    && (forall i :: i in s.settled ==> i in s.launched) && (forall i :: i in s.finished ==> i in s.settled)
    && (forall i :: 0 <= i < |s.results| ==>
          s.results[i] == if i in s.settled && s.settled[i].Done? then Some(s.settled[i].value) else None)
    && (s.failure != "" ==> exists i :: i in s.settled && s.settled[i] == Failed(s.failure))
    && (s.failure == "" ==> forall i :: i in s.settled && s.settled[i].Failed? ==> s.settled[i].reason == "")
  }

  ghost predicate Inv<R>(cfg: Config, s: State<R>) {
    Parted(cfg, s) && InOrder(cfg, s) && Counted(cfg, s) && Recorded(cfg, s)
  }

  /** No slot is idle that could be used: an error stops launching, or the global limit is reached, or the
      domain of everything pending is full. */
  ghost predicate Busy<R>(cfg: Config, s: State<R>) {
    s.failure != "" || s.active == cfg.globalLimit || forall i :: i in s.pending ==> !Free(cfg, s, i)
  }

  /** How the batch stands once scheduling has run. */
  ghost predicate Quiet<R>(cfg: Config, s: State<R>) {
    && Busy(cfg, s)
    && match s.ending
       case Open => s.active > 0
       case Resolved(results) => s.pending == [] && s.active == 0 && s.failure == "" && results == s.results
       case Rejected(reason) => s.active == 0 && reason == s.failure != ""
       case Stuck => false
  }

  // ---- launching ----

  lemma Removed(pending: seq<nat>, k: nat)
    requires k < |pending| && forall a, b :: 0 <= a < b < |pending| ==> pending[a] < pending[b]
    ensures var rest := pending[..k] + pending[k + 1..];
      && (forall a, b :: 0 <= a < b < |rest| ==> rest[a] < rest[b])
      && forall i :: i in rest <==> i in pending && i != pending[k]
  {
  }

  lemma LaunchParted<R>(cfg: Config, s: State<R>, k: nat)
    requires Parted(cfg, s) && k < |s.pending| && Free(cfg, s, s.pending[k])
    ensures Parted(cfg, LaunchAt(cfg, s, k))
  {
    Removed(s.pending, k);
    LaunchedGrows(cfg, s, k);
    assert s.pending[k] in s.pending;
    forall a | 0 <= a < |s.launched|
      ensures s.launched[a] != s.pending[k]
    {
      assert s.launched[a] in s.launched;
    }
  }

  lemma LaunchedGrows<R>(cfg: Config, s: State<R>, k: nat)
    requires k < |s.pending| && Free(cfg, s, s.pending[k])
    ensures forall j :: j in LaunchAt(cfg, s, k).launched <==> j in s.launched || j == s.pending[k]
  {
  }

  /** Items before the chosen one belong to full domains, so none of them shares its domain. */
  lemma FirstOfDomain<R>(cfg: Config, s: State<R>, k: nat, a: nat)
    requires Parted(cfg, s) && k < |s.pending| && k == FirstFree(cfg, s, 0)
    requires a < |s.pending| && a != k && DomainOf(cfg, s.pending[a]) == DomainOf(cfg, s.pending[k])
    ensures s.pending[k] < s.pending[a]
  {
    assert Free(cfg, s, s.pending[a]) == Free(cfg, s, s.pending[k]);
  }

  lemma LaunchOrdered<R>(cfg: Config, s: State<R>, k: nat)
    requires Parted(cfg, s) && InOrder(cfg, s) && k < |s.pending| && k == FirstFree(cfg, s, 0)
    ensures InOrder(cfg, LaunchAt(cfg, s, k))
  {
    var t, i := LaunchAt(cfg, s, k), s.pending[k];
    Removed(s.pending, k);
    LaunchedGrows(cfg, s, k);
    forall j | j in t.pending && DomainOf(cfg, j) == DomainOf(cfg, i)
      ensures i < j
    {
      var a :| 0 <= a < |s.pending| && s.pending[a] == j;
      FirstOfDomain(cfg, s, k, a);
    }
    forall a | 0 <= a < |s.launched| && DomainOf(cfg, s.launched[a]) == DomainOf(cfg, i)
      ensures s.launched[a] < i
    {
      assert s.launched[a] in s.launched && i in s.pending;
    }
  }

  lemma RunningGrows<R>(cfg: Config, s: State<R>, k: nat)
    requires Parted(cfg, s) && Recorded(cfg, s) && k < |s.pending| && Free(cfg, s, s.pending[k])
    ensures |Running(LaunchAt(cfg, s, k))| == |Running(s)| + 1
  {
    LaunchedGrows(cfg, s, k);
    assert s.pending[k] in s.pending;
    assert Running(LaunchAt(cfg, s, k)) == Running(s) + {s.pending[k]};
  }

  lemma RunningInGrows<R>(cfg: Config, s: State<R>, k: nat, domain: string)
    requires Parted(cfg, s) && Recorded(cfg, s) && k < |s.pending| && Free(cfg, s, s.pending[k])
    ensures |RunningIn(cfg, LaunchAt(cfg, s, k), domain)|
      == |RunningIn(cfg, s, domain)| + (if DomainOf(cfg, s.pending[k]) == domain then 1 else 0)
  {
    LaunchedGrows(cfg, s, k);
    assert s.pending[k] in s.pending;
    if DomainOf(cfg, s.pending[k]) == domain {
      assert RunningIn(cfg, LaunchAt(cfg, s, k), domain) == RunningIn(cfg, s, domain) + {s.pending[k]};
    } else {
      assert RunningIn(cfg, LaunchAt(cfg, s, k), domain) == RunningIn(cfg, s, domain);
    }
  }

  lemma LaunchCounted<R>(cfg: Config, s: State<R>, k: nat)
    requires Inv(cfg, s) && k < |s.pending| && Free(cfg, s, s.pending[k]) && s.active < cfg.globalLimit
    ensures Counted(cfg, LaunchAt(cfg, s, k))
  {
    var t := LaunchAt(cfg, s, k);
    RunningGrows(cfg, s, k);
    forall domain
      ensures ActiveIn(t.domainActive, domain) == |RunningIn(cfg, t, domain)| <= cfg.perDomainLimit
    {
      RunningInGrows(cfg, s, k, domain);
    }
  }

  lemma LaunchKeeps<R>(cfg: Config, s: State<R>, k: nat)
    requires Inv(cfg, s) && k < |s.pending| && k == FirstFree(cfg, s, 0) && s.active < cfg.globalLimit
    ensures Inv(cfg, LaunchAt(cfg, s, k))
  {
    LaunchParted(cfg, s, k);
    LaunchOrdered(cfg, s, k);
    LaunchCounted(cfg, s, k);
    LaunchedGrows(cfg, s, k);
  }

  /** Launching ends with no slot idle. */
  lemma {:induction false} LaunchFills<R>(cfg: Config, s: State<R>)
    requires ValidConfig(cfg) && Inv(cfg, s)
    ensures var t := Launch(cfg, s); Inv(cfg, t) && Busy(cfg, t) && t.failure == s.failure && t.ending == s.ending
    decreases |s.pending|
  {
    if s.failure == "" && s.active < cfg.globalLimit {
      var k := FirstFree(cfg, s, 0);
      if k < |s.pending| {
        LaunchKeeps(cfg, s, k);
        LaunchFills(cfg, LaunchAt(cfg, s, k));
      } else {
        assert forall j :: 0 <= j < |s.pending| ==> !Free(cfg, s, s.pending[j]);
      }
    }
  }

  /** It starts something whenever nobody runs and something is pending, and never starts anything after an error. */
  lemma {:induction false} LaunchStarts<R>(cfg: Config, s: State<R>)
    requires ValidConfig(cfg) && Inv(cfg, s)
    ensures s.active <= Launch(cfg, s).active && (s.failure != "" ==> Launch(cfg, s) == s)
    ensures s.failure == "" && s.active == 0 && s.pending != [] ==> Launch(cfg, s).active > 0
    decreases |s.pending|
  {
    if s.failure == "" && s.active < cfg.globalLimit {
      var k := FirstFree(cfg, s, 0);
      if s.active == 0 && s.pending != [] { IdleIsFree(cfg, s); }
      if k < |s.pending| {
        LaunchKeeps(cfg, s, k);
        LaunchStarts(cfg, LaunchAt(cfg, s, k));
      }
    }
  }

  /** With nobody running, every domain is free. */
  lemma IdleIsFree<R>(cfg: Config, s: State<R>)
    requires ValidConfig(cfg) && Inv(cfg, s) && s.active == 0 && s.pending != []
    ensures Free(cfg, s, s.pending[0])
  {
    var i := s.pending[0];
    assert i in s.pending;
    assert RunningIn(cfg, s, DomainOf(cfg, i)) <= Running(s) == {};
  }

  /** Scheduling leaves the batch quiet; in particular it is never stuck. */
  lemma EndingKeeps<R>(cfg: Config, s: State<R>, ending: Ending<R>)
    requires Inv(cfg, s)
    ensures Inv(cfg, s.(ending := ending))
  {
  }

  lemma ScheduleIsQuiet<R>(cfg: Config, s: State<R>)
    requires ValidConfig(cfg) && Inv(cfg, s) && s.ending.Open?
    ensures Inv(cfg, Schedule(cfg, s)) && Quiet(cfg, Schedule(cfg, s))
    ensures s.failure != "" ==> Schedule(cfg, s).launched == s.launched
  {
    if s.failure != "" && s.active == 0 {
      EndingKeeps(cfg, s, Rejected(s.failure));
    } else if s.pending == [] && s.active == 0 {
      EndingKeeps(cfg, s, Resolved(s.results));
    } else {
      LaunchFills(cfg, s);
      LaunchStarts(cfg, s);
    }
  }

  // ---- callbacks ----

  lemma SettleRecorded<R>(cfg: Config, s: State<R>, i: nat, outcome: Outcome<R>)
    requires Recorded(cfg, s) && i in s.launched && i !in s.settled && i < |s.results|
    ensures Recorded(cfg, Settle(s, i, outcome))
  {
    var t := Settle(s, i, outcome);
    if t.failure != "" {
      if s.failure != "" {
        var j :| j in s.settled && s.settled[j] == Failed(s.failure);
        assert t.settled[j] == Failed(t.failure);
      } else {
        assert t.settled[i] == Failed(t.failure);
      }
    }
  }

  lemma SettleKeeps<R>(cfg: Config, s: State<R>, i: nat, outcome: Outcome<R>)
    requires ValidConfig(cfg) && Inv(cfg, s) && Quiet(cfg, s) && i in Running(s) && i !in s.settled
    ensures Inv(cfg, Settle(s, i, outcome)) && Quiet(cfg, Settle(s, i, outcome))
  {
    var t := Settle(s, i, outcome);
    SomeoneRuns(cfg, s, i);
    SettleRecorded(cfg, s, i, outcome);
    assert Running(t) == Running(s);
    forall domain
      ensures RunningIn(cfg, t, domain) == RunningIn(cfg, s, domain)
    {
    }
    forall j | j in t.pending
      ensures Free(cfg, t, j) == Free(cfg, s, j)
    {
    }
  }

  lemma SomeoneRuns<R>(cfg: Config, s: State<R>, i: nat)
    requires Inv(cfg, s) && Quiet(cfg, s) && i in Running(s)
    ensures s.active > 0 && s.ending.Open? && i < |cfg.domains|
  {
  }

  lemma RunningShrinks<R>(cfg: Config, s: State<R>, t: State<R>, i: nat, domain: string)
    requires i in Running(s) && t.launched == s.launched && t.finished == s.finished + {i}
    ensures |Running(t)| == |Running(s)| - 1
    ensures |RunningIn(cfg, t, domain)| == |RunningIn(cfg, s, domain)| - (if DomainOf(cfg, i) == domain then 1 else 0)
  {
    assert Running(t) == Running(s) - {i};
    if DomainOf(cfg, i) == domain {
      assert RunningIn(cfg, t, domain) == RunningIn(cfg, s, domain) - {i};
    } else {
      assert RunningIn(cfg, t, domain) == RunningIn(cfg, s, domain);
    }
  }

  lemma FinishKeeps<R>(cfg: Config, s: State<R>, i: nat)
    requires ValidConfig(cfg) && Inv(cfg, s) && Quiet(cfg, s) && i in Running(s) && i in s.settled
    ensures Inv(cfg, Finish(cfg, s, i)) && Quiet(cfg, Finish(cfg, s, i))
    ensures s.failure != "" ==> Finish(cfg, s, i).launched == s.launched
  {
    var t := Freed(cfg, s, i);
    SomeoneRuns(cfg, s, i);
    RunningShrinks(cfg, s, t, i, DomainOf(cfg, i));
    forall domain
      ensures ActiveIn(t.domainActive, domain) == |RunningIn(cfg, t, domain)| <= cfg.perDomainLimit
    {
      RunningShrinks(cfg, s, t, i, domain);
      assert ActiveIn(s.domainActive, domain) == |RunningIn(cfg, s, domain)|;
    }
    ScheduleIsQuiet(cfg, t);
  }

  // ---- whole batches ----

  datatype Event<R> = SettleEvent(i: nat, outcome: Outcome<R>) | FinishEvent(i: nat)

  /** A callback that can come next: each worker settles once, then finishes once. */
  ghost predicate Enabled<R>(s: State<R>, e: Event<R>) {
    e.i in Running(s) && (e.SettleEvent? <==> e.i !in s.settled)
  }

  function Handle<R>(cfg: Config, s: State<R>, e: Event<R>): State<R> {
    match e
    case SettleEvent(i, outcome) => if i < |s.results| then Settle(s, i, outcome) else s
    case FinishEvent(i) => Finish(cfg, s, i)
  }

  function Start<R>(cfg: Config): State<R> { Schedule(cfg, Initial(cfg)) }

  function Play<R>(cfg: Config, events: seq<Event<R>>): State<R> {
    if events == [] then Start(cfg) else Handle(cfg, Play(cfg, events[..|events| - 1]), events[|events| - 1])
  }

  ghost predicate Possible<R>(cfg: Config, events: seq<Event<R>>) {
    events == [] || (Possible(cfg, events[..|events| - 1]) && Enabled(Play(cfg, events[..|events| - 1]), events[|events| - 1]))
  }

  lemma StartIsQuiet<R>(cfg: Config)
    requires ValidConfig(cfg)
    ensures Inv(cfg, Start<R>(cfg)) && Quiet(cfg, Start<R>(cfg))
  {
    var s := Initial<R>(cfg);
    forall i: nat
      ensures i in s.pending <==> i < |cfg.domains|
    {
      assert i < |cfg.domains| ==> s.pending[i] == i;
    }
    assert Running(s) == {};
    forall domain
      ensures RunningIn(cfg, s, domain) == {}
    {
    }
    ScheduleIsQuiet(cfg, s);
  }

  /** Whatever order callbacks come in: the limits hold, each item starts once and in order within its
      domain, no usable slot stays idle, and the batch is never stuck. */
  lemma {:induction false} EveryBatchIsSafe<R>(cfg: Config, events: seq<Event<R>>)
    requires ValidConfig(cfg) && Possible(cfg, events)
    ensures Inv(cfg, Play(cfg, events)) && Quiet(cfg, Play(cfg, events))
  {
    if events == [] {
      StartIsQuiet<R>(cfg);
    } else {
      var before, e := events[..|events| - 1], events[|events| - 1];
      EveryBatchIsSafe(cfg, before);
      match e
      case SettleEvent(i, outcome) => SettleKeeps(cfg, Play(cfg, before), i, outcome);
      case FinishEvent(i) => FinishKeeps(cfg, Play(cfg, before), i);
    }
  }

  /** Once an error is kept nothing more is launched, and the error stays. */
  lemma NothingLaunchesAfterFailure<R>(cfg: Config, events: seq<Event<R>>, e: Event<R>)
    requires ValidConfig(cfg) && Possible(cfg, events) && Enabled(Play(cfg, events), e) && Play(cfg, events).failure != ""
    ensures var t := Handle(cfg, Play(cfg, events), e);
      t.launched == Play(cfg, events).launched && t.failure == Play(cfg, events).failure
  {
  }

  /** How far a batch has come: two callbacks for every item. */
  function Progress<R>(s: State<R>): nat { |s.settled.Keys| + |s.finished| }

  function Below(n: nat): (r: set<nat>)
    ensures |r| == n && forall i :: i in r <==> 0 <= i < n
  {
    if n == 0 then {} else Below(n - 1) + {n - 1}
  }

  lemma {:induction false} LaunchRecords<R>(cfg: Config, s: State<R>)
    ensures Launch(cfg, s).settled == s.settled && Launch(cfg, s).finished == s.finished
    decreases |s.pending|
  {
    if s.failure == "" && s.active < cfg.globalLimit {
      var k := FirstFree(cfg, s, 0);
      if k < |s.pending| { LaunchRecords(cfg, LaunchAt(cfg, s, k)); }
    }
  }

  lemma ProgressBound<R>(cfg: Config, s: State<R>)
    requires Inv(cfg, s)
    ensures Progress(s) <= 2 * |cfg.domains|
  {
    SubsetSize(s.settled.Keys, Below(|cfg.domains|));
    SubsetSize(s.finished, Below(|cfg.domains|));
  }

  lemma SettleProgress<R>(s: State<R>, i: nat, outcome: Outcome<R>)
    requires i < |s.results| && i !in s.settled
    ensures Progress(Settle(s, i, outcome)) == Progress(s) + 1
  {
  }

  lemma FinishProgress<R>(cfg: Config, s: State<R>, i: nat)
    requires i !in s.finished
    ensures Progress(Finish(cfg, s, i)) == Progress(s) + 1
  {
    LaunchRecords(cfg, Freed(cfg, s, i));
  }

  lemma EventProgress<R>(cfg: Config, s: State<R>, e: Event<R>)
    requires Inv(cfg, s) && Enabled(s, e)
    ensures Progress(Handle(cfg, s, e)) == Progress(s) + 1
  {
    assert e.i in s.launched;
    match e
    case SettleEvent(i, outcome) => SettleProgress(s, i, outcome);
    case FinishEvent(i) => FinishProgress(cfg, s, i);
  }

  /** A batch takes at most two callbacks per item, and while it is open one can come: it always ends. */
  lemma {:induction false} EveryBatchEnds<R>(cfg: Config, events: seq<Event<R>>)
    requires ValidConfig(cfg) && Possible(cfg, events)
    ensures |events| == Progress(Play(cfg, events)) <= 2 * |cfg.domains|
    ensures Play(cfg, events).ending.Open? <==> Running(Play(cfg, events)) != {}
  {
    EveryBatchIsSafe(cfg, events);
    ProgressBound(cfg, Play(cfg, events));
    if events == [] {
      LaunchRecords(cfg, Initial<R>(cfg));
    } else {
      var before := events[..|events| - 1];
      EveryBatchEnds(cfg, before);
      EveryBatchIsSafe(cfg, before);
      EventProgress(cfg, Play(cfg, before), events[|events| - 1]);
    }
  }

  /** A batch that resolves ran every item to its end, and hands out result i at place i: every value that a
      worker gave, and a hole where a worker failed without a reason. */
  lemma ResolvedMeansAllDone<R>(cfg: Config, events: seq<Event<R>>)
    requires ValidConfig(cfg) && Possible(cfg, events) && Play(cfg, events).ending.Resolved?
    ensures var s := Play(cfg, events);
      && |s.ending.results| == |cfg.domains|
      && forall i: nat :: i < |cfg.domains| ==>
           && i in s.finished && i in s.settled
           && s.ending.results[i] == (if s.settled[i].Done? then Some(s.settled[i].value) else None)
           && (s.settled[i].Failed? ==> s.settled[i].reason == "")
  {
    var s := Play(cfg, events);
    EveryBatchIsSafe(cfg, events);
    EveryBatchEnds(cfg, events);
    forall i: nat | i < |cfg.domains|
      ensures i in s.finished && i in s.settled
    {
      assert i in s.launched;
      assert i !in Running(s);
    }
  }

  /** A batch that is over resolved exactly when no worker failed with a reason. */
  lemma ResolvesUnlessFailed<R>(cfg: Config, events: seq<Event<R>>)
    requires ValidConfig(cfg) && Possible(cfg, events) && !Play(cfg, events).ending.Open?
    ensures var s := Play(cfg, events);
      s.ending.Resolved? <==> forall i :: i in s.settled && s.settled[i].Failed? ==> s.settled[i].reason == ""
    ensures Play(cfg, events).ending.Rejected? ==>
      exists i :: i in Play(cfg, events).settled && Play(cfg, events).settled[i] == Failed(Play(cfg, events).ending.reason)
  {
    EveryBatchIsSafe(cfg, events);
  }
}
