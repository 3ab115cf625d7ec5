/** The scheduler's variables updated in place by its callbacks. */
module BatchRunner {
  import opened Wrappers
  import opened BatchScheduler

  class Batch<R> {
    const cfg: Config
    var pending: seq<nat>
    var active: int
    var domainActive: map<string, int>
    var results: seq<Option<R>>
    var failure: string
    var ending: Ending<R>
    ghost var launched: seq<nat>
    ghost var settled: map<nat, Outcome<R>>
    ghost var finished: set<nat>

    ghost function Now(): State<R>
      reads this
    {
      State(pending, active, domainActive, results, failure, ending, launched, settled, finished)
    }

    constructor (domains: seq<string>, globalLimit: int, perDomainLimit: int)
      ensures cfg.domains == domains && ValidConfig(cfg)
      ensures cfg.globalLimit == if globalLimit == 0 || globalLimit > 8 then 8 else if globalLimit < 1 then 1 else globalLimit
      ensures cfg.perDomainLimit == if perDomainLimit == 0 || perDomainLimit > 2 then 2 else if perDomainLimit < 1 then 1 else perDomainLimit
      ensures Now() == Start<R>(cfg)
    {
      cfg := Config(domains, Clamp(globalLimit, 8), Clamp(perDomainLimit, 2));
      pending := seq(|domains|, i => i);
      active, domainActive := 0, map[];
      results := seq(|domains|, i => None);
      failure, ending := "", Open;
      launched, settled, finished := [], map[], {};
      new;
      assert Now() == Initial<R>(cfg);
      Schedule();
    }

    /** The first pending item with a free slot in its domain, or -1. */
    method FindIndex() returns (k: int)
      ensures k == if FirstFree(cfg, Now(), 0) == |pending| then -1 else FirstFree(cfg, Now(), 0)
    {
      k := 0;
      while k < |pending|
        invariant 0 <= k <= |pending| && FirstFree(cfg, Now(), 0) == FirstFree(cfg, Now(), k)
      {
        if ActiveIn(domainActive, DomainOf(cfg, pending[k])) < cfg.perDomainLimit { return; }
        k := k + 1;
      }
      k := -1;
    }

    method StartWorker(k: nat)
      requires k < |pending| && Free(cfg, Now(), pending[k])
      modifies this
      ensures Now() == LaunchAt(cfg, old(Now()), k)
    {
      var i := pending[k];
      var domain := DomainOf(cfg, i);
      pending := pending[..k] + pending[k + 1..];
      active := active + 1;
      domainActive := domainActive[domain := ActiveIn(domainActive, domain) + 1];
      launched := launched + [i];
    }

    method StartWorkers() returns (started: bool)
      modifies this
      ensures Now() == Launch(cfg, old(Now()))
      ensures started <==> launched != old(launched)
    {
      ghost var s := Now();
      started := false;
      while failure == "" && active < cfg.globalLimit
        invariant Launch(cfg, Now()) == Launch(cfg, s)
        invariant if started then |s.launched| < |launched| else launched == s.launched
        decreases |pending|
      {
        var k := FindIndex();
        if k < 0 {
          Stops(cfg, Now());
          return;
        }
        Goes(cfg, Now());
        StartWorker(k);
        started := true;
      }
      Stops(cfg, Now());
    }

    method Schedule()
      modifies this
      ensures Now() == BatchScheduler.Schedule(cfg, old(Now()))
    {
      if failure != "" && active == 0 {
        ending := Rejected(failure);
        return;
      }
      if pending == [] && active == 0 {
        ending := Resolved(results);
        return;
      }
      var started := StartWorkers();
      if !started && active == 0 && pending != [] && failure == "" { ending := Stuck; }
    }

    method Settle(i: nat, outcome: Outcome<R>)
      requires i < |results|
      modifies this
      ensures Now() == BatchScheduler.Settle(old(Now()), i, outcome)
    {
      match outcome {
        case Done(value) => results := results[i := Some(value)];
        case Failed(reason) => if failure == "" { failure := reason; }
      }
      settled := settled[i := outcome];
    }

    method Finish(i: nat)
      modifies this
      ensures Now() == BatchScheduler.Finish(cfg, old(Now()), i)
    {
      var domain := DomainOf(cfg, i);
      active := active - 1;
      var running := ActiveIn(domainActive, domain);
      var count := (if running == 0 then 1 else running) - 1;
      domainActive := domainActive[domain := if count < 0 then 0 else count];
      finished := finished + {i};
      Schedule();
    }
  }

  lemma Stops<R>(cfg: Config, s: State<R>)
    requires s.failure != "" || s.active >= cfg.globalLimit || FirstFree(cfg, s, 0) == |s.pending|
    ensures Launch(cfg, s) == s
  {
  }

  lemma Goes<R>(cfg: Config, s: State<R>)
    requires s.failure == "" && s.active < cfg.globalLimit && FirstFree(cfg, s, 0) < |s.pending|
    ensures Launch(cfg, s) == Launch(cfg, LaunchAt(cfg, s, FirstFree(cfg, s, 0)))
  {
  }
}
