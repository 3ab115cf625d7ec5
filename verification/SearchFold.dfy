/** The product search that survives crashes: every product is searched, checkpointed, enriched and
    checkpointed again, and the checkpoints are folded into rows. Products are named by their place in the
    catalog. What searching and enriching a product yields is fixed per product. */
module SearchFold {
  /** A priced rival page: its canonical address and the keys that identify the product on it. */
  datatype Rival = Rival(url: string, keys: seq<string>)

  /** The products that can be searched, and what each yields. */
  datatype Plan = Plan(target: nat, searchable: seq<bool>, outcomes: seq<seq<Rival>>)

  ghost predicate ValidPlan(plan: Plan) { |plan.searchable| == |plan.outcomes| }

  datatype Row = Row(primary: nat, rivals: seq<Rival>)

  datatype Acc = Acc(rows: seq<Row>, pairs: set<(nat, string)>, taken: set<string>, processed: seq<nat>)

  /** A search result waiting for enrichment, or the finished outcome. */
  datatype Checkpoint = Searched | Finished(outcome: seq<Rival>)

  type Store = map<nat, Checkpoint>

  // ---- one outcome ----

  datatype Picked = Picked(matches: seq<Rival>, pairs: set<(nat, string)>, taken: set<string>)

  predicate Clashes(taken: set<string>, keys: seq<string>) { exists k :: k in keys && k in taken }

  function KeySet(keys: seq<string>): set<string> { set k | k in keys }

  function Pick(target: nat, p: Picked, i: nat, r: Rival): Picked {
    if |p.pairs| >= target || (i, r.url) in p.pairs || Clashes(p.taken, r.keys) then p
    else Picked(p.matches + [r], p.pairs + {(i, r.url)}, p.taken + KeySet(r.keys))
  }

  function PickAll(target: nat, p: Picked, i: nat, rivals: seq<Rival>): Picked {
    if rivals == [] then p else Pick(target, PickAll(target, p, i, rivals[..|rivals| - 1]), i, rivals[|rivals| - 1])
  }

  function AddOutcome(target: nat, a: Acc, i: nat, rivals: seq<Rival>): Acc {
    var p := PickAll(target, Picked([], a.pairs, a.taken), i, rivals);
    Acc(if p.matches == [] then a.rows else a.rows + [Row(i, p.matches)], p.pairs, p.taken, a.processed + [i])
  }

  const NOTHING := Acc([], {}, {}, [])

  /** The reference: fold the outcomes of the first n products until the target is reached. */
  function Fold(plan: Plan, n: nat): Acc
    requires ValidPlan(plan) && n <= |plan.outcomes|
  {
    if n == 0 then NOTHING
    else
      var a := Fold(plan, n - 1);
      if |a.pairs| >= plan.target || !plan.searchable[n - 1] then a else AddOutcome(plan.target, a, n - 1, plan.outcomes[n - 1])
  }

  /** Once the target is reached nothing is added. */
  lemma {:induction false} FullFold(plan: Plan, k: nat, n: nat)
    requires ValidPlan(plan) && k <= n <= |plan.outcomes| && |Fold(plan, k).pairs| >= plan.target
    ensures Fold(plan, n) == Fold(plan, k)
  {
    if k < n { FullFold(plan, k, n - 1); }
  }

  /** How many of the first n products can be searched. */
  function Searchables(plan: Plan, n: nat): nat
    requires ValidPlan(plan) && n <= |plan.outcomes|
  {
    if n == 0 then 0 else Searchables(plan, n - 1) + (if plan.searchable[n - 1] then 1 else 0)
  }

  lemma {:induction false} SearchablesGrow(plan: Plan, k: nat, n: nat)
    requires ValidPlan(plan) && k <= n <= |plan.outcomes|
    ensures Searchables(plan, k) <= Searchables(plan, n)
    ensures k < n && plan.searchable[k] ==> Searchables(plan, k) < Searchables(plan, n)
  {
    if k < n { SearchablesGrow(plan, k, n - 1); }
  }

  // ---- one run over stored checkpoints ----

  /** A run in progress: `begun` products worked on, `saves` left before the process dies. */
  datatype Progress = Progress(store: Store, acc: Acc, begun: nat, stopped: bool, saves: nat, crashed: bool, searched: seq<nat>)

  function Save(p: Progress, i: nat, c: Checkpoint): Progress {
    if p.saves == 0 then p.(crashed := true) else p.(store := p.store[i := c], saves := p.saves - 1)
  }

  /** Search, unless that was saved; then enrich; then add the outcome. */
  function Work(plan: Plan, p: Progress, i: nat): Progress
    requires ValidPlan(plan) && i < |plan.outcomes|
  {
    var q := p.(begun := p.begun + 1);
    var r := if i in q.store then q else Save(q.(searched := q.searched + [i]), i, Searched);
    if r.crashed then r
    else
      var t := Save(r, i, Finished(plan.outcomes[i]));
      if t.crashed then t else t.(acc := AddOutcome(plan.target, t.acc, i, plan.outcomes[i]))
  }

  /** One product of a run that may work on `allowed` unfinished products. */
  function Visit(plan: Plan, allowed: nat, p: Progress, i: nat): Progress
    requires ValidPlan(plan) && i < |plan.outcomes|
  {
    if p.crashed || |p.acc.pairs| >= plan.target || !plan.searchable[i] then p
    else if i in p.store && p.store[i].Finished? then p.(acc := AddOutcome(plan.target, p.acc, i, p.store[i].outcome))
    else if p.begun >= allowed then p.(stopped := true)
    else Work(plan, p, i)
  }

  function Run(plan: Plan, allowed: nat, saves: nat, store: Store, n: nat): Progress
    requires ValidPlan(plan) && n <= |plan.outcomes|
  {
    if n == 0 then Progress(store, NOTHING, 0, false, saves, false, [])
    else Visit(plan, allowed, Run(plan, allowed, saves, store, n - 1), n - 1)
  }

  // ---- the store stays a prefix ----

  /** Every searchable product before k is finished with its own outcome, k may have been searched, and
      nothing after it has begun. */
  ghost predicate Prefix(plan: Plan, store: Store, k: nat)
    requires ValidPlan(plan)
  {
    k <= |plan.outcomes| && forall i: nat {:trigger InPlace(plan, store, k, i)} :: InPlace(plan, store, k, i)
  }

  ghost predicate InPlace(plan: Plan, store: Store, k: nat, i: nat)
    requires ValidPlan(plan) && k <= |plan.outcomes|
  {
    if i in store
    then i < |plan.outcomes| && plan.searchable[i] && i <= k
         && (if i < k then store[i] == Finished(plan.outcomes[i]) else store[i] == Searched)
    else i >= k || !plan.searchable[i]
  }

  /** Where a run stands after n products, given that everything before k is finished. */
  ghost predicate Standing(plan: Plan, p: Progress, n: nat, k: nat)
    requires ValidPlan(plan) && n <= |plan.outcomes|
  {
    && Prefix(plan, p.store, k)
    && (!p.stopped && !p.crashed ==> p.acc == Fold(plan, n) && (k >= n || |Fold(plan, k).pairs| >= plan.target))
    && (p.stopped && !p.crashed ==>
         k < n && plan.searchable[k] && p.acc == Fold(plan, k) && |p.acc.pairs| < plan.target)
  }

  lemma WorkStands(plan: Plan, p: Progress, n: nat, k: nat)
    requires ValidPlan(plan) && n < |plan.outcomes| && Standing(plan, p, n, k) && !p.stopped && !p.crashed
    requires |p.acc.pairs| < plan.target && plan.searchable[n] && !(n in p.store && p.store[n].Finished?)
    ensures var q := Work(plan, p, n); Standing(plan, q, n + 1, if q.crashed then n else n + 1) && k == n
  {
    if k < n { FullFold(plan, k, n); }
    assert InPlace(plan, p.store, k, n);
    var q := Work(plan, p, n);
    var j := if q.crashed then n else n + 1;
    forall i: nat
      ensures InPlace(plan, q.store, j, i)
    {
      assert InPlace(plan, p.store, k, i);
    }
  }

  /** Where the finished prefix ends after one more product. */
  ghost function NextPlace(plan: Plan, allowed: nat, p: Progress, n: nat, k: nat): nat
    requires ValidPlan(plan) && n < |plan.outcomes|
  {
    if p.crashed || p.stopped || |p.acc.pairs| >= plan.target then k
    else if !plan.searchable[n] then (if k == n then n + 1 else k)
    else if (n in p.store && p.store[n].Finished?) || p.begun >= allowed then k
    else if Work(plan, p, n).crashed then n else n + 1
  }

  lemma VisitStands(plan: Plan, allowed: nat, p: Progress, n: nat, k: nat)
    requires ValidPlan(plan) && n < |plan.outcomes| && Standing(plan, p, n, k) && (p.stopped ==> p.begun >= allowed)
    ensures Standing(plan, Visit(plan, allowed, p, n), n + 1, NextPlace(plan, allowed, p, n, k)) && k <= NextPlace(plan, allowed, p, n, k)
  {
    assert InPlace(plan, p.store, k, n);
    if !p.crashed && !p.stopped {
      if k < n { FullFold(plan, k, n); }
      if k == n && !plan.searchable[n] {
        var j := n + 1;
        forall i: nat
          ensures InPlace(plan, p.store, j, i)
        {
          assert InPlace(plan, p.store, n, i);
        }
      }
      if |p.acc.pairs| < plan.target && plan.searchable[n] && !(n in p.store && p.store[n].Finished?) && p.begun < allowed {
        WorkStands(plan, p, n, k);
      }
    }
  }

  /** Where it ends after a whole run. */
  ghost function Place(plan: Plan, allowed: nat, saves: nat, store: Store, k: nat, n: nat): nat
    requires ValidPlan(plan) && n <= |plan.outcomes|
  {
    if n == 0 then k
    else NextPlace(plan, allowed, Run(plan, allowed, saves, store, n - 1), n - 1, Place(plan, allowed, saves, store, k, n - 1))
  }

  lemma {:induction false} BegunWithin(plan: Plan, allowed: nat, saves: nat, store: Store, n: nat)
    requires ValidPlan(plan) && n <= |plan.outcomes|
    ensures var p := Run(plan, allowed, saves, store, n); p.begun <= allowed && (p.stopped && !p.crashed ==> p.begun == allowed)
    ensures var p := Run(plan, allowed, saves, store, n); p.stopped ==> p.begun >= allowed
  {
    if n > 0 { BegunWithin(plan, allowed, saves, store, n - 1); }
  }

  /** A run keeps the finished checkpoints a prefix of the searchable order, and folds exactly that prefix. */
  lemma {:induction false} RunStands(plan: Plan, allowed: nat, saves: nat, store: Store, k: nat, n: nat)
    requires ValidPlan(plan) && n <= |plan.outcomes| && Prefix(plan, store, k)
    ensures Standing(plan, Run(plan, allowed, saves, store, n), n, Place(plan, allowed, saves, store, k, n))
    ensures k <= Place(plan, allowed, saves, store, k, n)
  {
    if n > 0 {
      var p, j := Run(plan, allowed, saves, store, n - 1), Place(plan, allowed, saves, store, k, n - 1);
      RunStands(plan, allowed, saves, store, k, n - 1);
      BegunWithin(plan, allowed, saves, store, n - 1);
      VisitStands(plan, allowed, p, n - 1, j);
      assert Run(plan, allowed, saves, store, n) == Visit(plan, allowed, p, n - 1);
      assert Place(plan, allowed, saves, store, k, n) == NextPlace(plan, allowed, p, n - 1, j);
    }
  }

  lemma VisitCounts(plan: Plan, allowed: nat, p: Progress, n: nat, k: nat)
    requires ValidPlan(plan) && n < |plan.outcomes| && Standing(plan, p, n, k) && !Visit(plan, allowed, p, n).crashed
    requires p.stopped ==> p.begun >= allowed
    ensures var j := NextPlace(plan, allowed, p, n, k);
      k <= |plan.outcomes| && j <= |plan.outcomes|
      && Searchables(plan, j) == Searchables(plan, k) + Visit(plan, allowed, p, n).begun - p.begun
  {
    if !p.stopped && |p.acc.pairs| < plan.target && plan.searchable[n] && !(n in p.store && p.store[n].Finished?) && p.begun < allowed {
      WorkStands(plan, p, n, k);
    }
  }

  /** A run that does not crash finishes every product that it begins. */
  lemma {:induction false} RunCounts(plan: Plan, allowed: nat, saves: nat, store: Store, k: nat, n: nat)
    requires ValidPlan(plan) && n <= |plan.outcomes| && Prefix(plan, store, k) && !Run(plan, allowed, saves, store, n).crashed
    ensures Place(plan, allowed, saves, store, k, n) <= |plan.outcomes|
    ensures Searchables(plan, Place(plan, allowed, saves, store, k, n)) == Searchables(plan, k) + Run(plan, allowed, saves, store, n).begun
  {
    if n > 0 {
      RunStands(plan, allowed, saves, store, k, n - 1);
      BegunWithin(plan, allowed, saves, store, n - 1);
      RunCounts(plan, allowed, saves, store, k, n - 1);
      VisitCounts(plan, allowed, Run(plan, allowed, saves, store, n - 1), n - 1, Place(plan, allowed, saves, store, k, n - 1));
    }
  }

  ghost predicate StoreKept(s: Store, t: Store) {
    forall i :: i in s ==> i in t && (s[i].Finished? ==> t[i] == s[i])
  }

  /** Products before n in rising order, none of which the store had. */
  predicate NewSearches(searched: seq<nat>, store: Store, n: nat) {
    searched == []
    || (searched[|searched| - 1] < n && searched[|searched| - 1] !in store
        && NewSearches(searched[..|searched| - 1], store, searched[|searched| - 1]))
  }

  lemma {:induction false} SearchedWasMissing(searched: seq<nat>, store: Store, n: nat, i: nat)
    requires NewSearches(searched, store, n) && i in store
    ensures i !in searched
  {
    if searched != [] { SearchedWasMissing(searched[..|searched| - 1], store, searched[|searched| - 1], i); }
  }

  lemma VisitKeepsStore(plan: Plan, allowed: nat, p: Progress, i: nat)
    requires ValidPlan(plan) && i < |plan.outcomes|
    ensures StoreKept(p.store, Visit(plan, allowed, p, i).store)
  {
  }

  lemma VisitSearches(plan: Plan, allowed: nat, p: Progress, i: nat)
    requires ValidPlan(plan) && i < |plan.outcomes|
    ensures var q := Visit(plan, allowed, p, i);
      q.searched == p.searched || (i !in p.store && q.searched == p.searched + [i])
  {
  }

  lemma StoreKeptTrans(s: Store, t: Store, u: Store)
    requires StoreKept(s, t) && StoreKept(t, u)
    ensures StoreKept(s, u)
  {
  }

  lemma OneMoreSearch(before: Store, store: Store, searched: seq<nat>, after: seq<nat>, i: nat)
    requires StoreKept(before, store) && NewSearches(searched, before, i)
    requires after == searched || (i !in store && after == searched + [i])
    ensures NewSearches(after, before, i + 1)
  {
  }

  lemma VisitNeverRepeats(plan: Plan, allowed: nat, before: Store, p: Progress, i: nat)
    requires ValidPlan(plan) && i < |plan.outcomes|
    requires StoreKept(before, p.store) && NewSearches(p.searched, before, i)
    ensures NewSearches(Visit(plan, allowed, p, i).searched, before, i + 1)
  {
    VisitSearches(plan, allowed, p, i);
    OneMoreSearch(before, p.store, p.searched, Visit(plan, allowed, p, i).searched, i);
  }

  /** What is saved stays saved. */
  lemma {:induction false} RunKeepsStore(plan: Plan, allowed: nat, saves: nat, store: Store, n: nat)
    requires ValidPlan(plan) && n <= |plan.outcomes|
    ensures StoreKept(store, Run(plan, allowed, saves, store, n).store)
  {
    if n > 0 {
      var p := Run(plan, allowed, saves, store, n - 1);
      RunKeepsStore(plan, allowed, saves, store, n - 1);
      VisitKeepsStore(plan, allowed, p, n - 1);
      StoreKeptTrans(store, p.store, Visit(plan, allowed, p, n - 1).store);
    }
  }

  /** A product is searched only while nothing is saved for it, and once. */
  lemma {:induction false} RunNeverRepeats(plan: Plan, allowed: nat, saves: nat, store: Store, n: nat)
    requires ValidPlan(plan) && n <= |plan.outcomes|
    ensures NewSearches(Run(plan, allowed, saves, store, n).searched, store, n)
  {
    if n > 0 {
      var p := Run(plan, allowed, saves, store, n - 1);
      RunNeverRepeats(plan, allowed, saves, store, n - 1);
      RunKeepsStore(plan, allowed, saves, store, n - 1);
      VisitNeverRepeats(plan, allowed, store, p, n - 1);
    }
  }

  // ---- any series of runs ----

  /** One run of a series: how many unfinished products its budget allows and how many saves it lives to make. */
  datatype Budget = Budget(allowed: nat, saves: nat)

  function StoreAfter(plan: Plan, budgets: seq<Budget>): Store
    requires ValidPlan(plan)
    decreases |budgets|, 0
  {
    if budgets == [] then map[] else RunOf(plan, budgets[..|budgets| - 1], budgets[|budgets| - 1]).store
  }

  /** One more run, on the store that a series left. */
  function RunOf(plan: Plan, budgets: seq<Budget>, budget: Budget): Progress
    requires ValidPlan(plan)
    decreases |budgets|, 1
  {
    Run(plan, budget.allowed, budget.saves, StoreAfter(plan, budgets), |plan.outcomes|)
  }

  lemma {:induction false} SeriesIsPrefix(plan: Plan, budgets: seq<Budget>) returns (k: nat)
    requires ValidPlan(plan)
    ensures Prefix(plan, StoreAfter(plan, budgets), k)
  {
    if budgets == [] {
      k := 0;
      assert forall i: nat :: InPlace(plan, map[], 0, i);
    } else {
      var before, last := budgets[..|budgets| - 1], budgets[|budgets| - 1];
      var j := SeriesIsPrefix(plan, before);
      RunStands(plan, last.allowed, last.saves, StoreAfter(plan, before), j, |plan.outcomes|);
      k := Place(plan, last.allowed, last.saves, StoreAfter(plan, before), j, |plan.outcomes|);
    }
  }

  /** However often the work is cut short, by budget or by crash, a run that reaches the end returns the rows
      of one uninterrupted pass; a run that its budget stops returns those of a shorter pass. */
  lemma InterruptionsDoNotMatter(plan: Plan, budgets: seq<Budget>, budget: Budget)
    requires ValidPlan(plan)
    ensures var p := RunOf(plan, budgets, budget);
      && (!p.crashed && !p.stopped ==> p.acc == Fold(plan, |plan.outcomes|))
      && (!p.crashed && p.stopped ==> exists k: nat :: k < |plan.outcomes| && p.acc == Fold(plan, k))
      && exists k: nat :: Prefix(plan, p.store, k)
  {
    var j := SeriesIsPrefix(plan, budgets);
    RunStands(plan, budget.allowed, budget.saves, StoreAfter(plan, budgets), j, |plan.outcomes|);
  }

  /** A search whose result was saved is never made again, in any later run. */
  lemma {:induction false} SavedSearchesAreKept(plan: Plan, early: seq<Budget>, late: seq<Budget>, budget: Budget, i: nat)
    requires ValidPlan(plan) && i in StoreAfter(plan, early)
    ensures i in StoreAfter(plan, early + late)
    ensures i !in RunOf(plan, early + late, budget).searched
  {
    if late == [] {
      assert early + late == early;
    } else {
      var n := |late| - 1;
      assert (early + late)[..|early + late| - 1] == early + late[..n];
      SavedSearchesAreKept(plan, early, late[..n], late[n], i);
      RunKeepsStore(plan, late[n].allowed, late[n].saves, StoreAfter(plan, early + late[..n]), |plan.outcomes|);
    }
    var store, n := StoreAfter(plan, early + late), |plan.outcomes|;
    RunNeverRepeats(plan, budget.allowed, budget.saves, store, n);
    SearchedWasMissing(RunOf(plan, early + late, budget).searched, store, n, i);
  }

  /** The products that a series of runs had budget for, not counting the runs that crashed. */
  function Worked(plan: Plan, budgets: seq<Budget>): nat
    requires ValidPlan(plan)
  {
    if budgets == [] then 0
    else
      var before, last := budgets[..|budgets| - 1], budgets[|budgets| - 1];
      Worked(plan, before) + (if RunOf(plan, before, last).crashed then 0 else last.allowed)
  }

  /** The finished prefix is as long as the work that was paid for, unless there is no more to do. */
  ghost predicate Advanced(plan: Plan, k: nat, work: nat)
    requires ValidPlan(plan) && k <= |plan.outcomes|
  {
    k == |plan.outcomes| || |Fold(plan, k).pairs| >= plan.target || Searchables(plan, k) >= work
  }

  lemma AdvancedStays(plan: Plan, j: nat, k: nat, work: nat)
    requires ValidPlan(plan) && j <= k <= |plan.outcomes| && Advanced(plan, j, work)
    ensures Advanced(plan, k, work)
  {
    SearchablesGrow(plan, j, k);
    if |Fold(plan, j).pairs| >= plan.target { FullFold(plan, j, k); }
  }

  /** Every uncrashed run adds its budget to the finished prefix, and no crash takes anything back. */
  lemma {:induction false} SeriesAdvances(plan: Plan, budgets: seq<Budget>) returns (k: nat)
    requires ValidPlan(plan)
    ensures Prefix(plan, StoreAfter(plan, budgets), k) && Advanced(plan, k, Worked(plan, budgets))
  {
    if budgets == [] {
      k := 0;
      assert forall i: nat :: InPlace(plan, map[], 0, i);
    } else {
      var before, last := budgets[..|budgets| - 1], budgets[|budgets| - 1];
      var j := SeriesAdvances(plan, before);
      k := OneRunAdvances(plan, before, last, j);
    }
  }

  lemma OneRunAdvances(plan: Plan, before: seq<Budget>, last: Budget, j: nat) returns (k: nat)
    requires ValidPlan(plan) && Prefix(plan, StoreAfter(plan, before), j) && Advanced(plan, j, Worked(plan, before))
    ensures var p := RunOf(plan, before, last);
      && Prefix(plan, p.store, k) && Standing(plan, p, |plan.outcomes|, k)
      && Advanced(plan, k, Worked(plan, before) + (if p.crashed then 0 else last.allowed))
  {
    var p, store := RunOf(plan, before, last), StoreAfter(plan, before);
    k := Place(plan, last.allowed, last.saves, store, j, |plan.outcomes|);
    RunStands(plan, last.allowed, last.saves, store, j, |plan.outcomes|);
    BegunWithin(plan, last.allowed, last.saves, store, |plan.outcomes|);
    if !p.crashed { RunCounts(plan, last.allowed, last.saves, store, j, |plan.outcomes|); }
    AdvancedStays(plan, j, k, Worked(plan, before));
    if p.stopped && !p.crashed && |Fold(plan, j).pairs| >= plan.target { FullFold(plan, j, k); }
  }

  /** A run may end early only while the budgets so far, its own included, are smaller than the catalog: with
      `allowed` products a run, one run in every `allowed` searchable products reaches the end. */
  lemma EnoughIsEnough(plan: Plan, budgets: seq<Budget>, budget: Budget)
    requires ValidPlan(plan) && !RunOf(plan, budgets, budget).crashed
    requires Worked(plan, budgets) + budget.allowed >= Searchables(plan, |plan.outcomes|)
    ensures RunOf(plan, budgets, budget).acc == Fold(plan, |plan.outcomes|)
  {
    var j := SeriesAdvances(plan, budgets);
    var k := OneRunAdvances(plan, budgets, budget, j);
    if RunOf(plan, budgets, budget).stopped { SearchablesGrow(plan, k, |plan.outcomes|); }
  }

  /** A run that lives to make two saves for each product that it may begin does not crash. */
  lemma {:induction false} LongLife(plan: Plan, allowed: nat, saves: nat, store: Store, n: nat)
    requires ValidPlan(plan) && n <= |plan.outcomes| && 2 * allowed <= saves
    ensures var p := Run(plan, allowed, saves, store, n);
      !p.crashed && p.begun <= allowed && p.saves + 2 * p.begun >= saves
  {
    if n > 0 { LongLife(plan, allowed, saves, store, n - 1); }
  }

  /** So with life enough for its own budget, one more run reaches the end of what the budgets cover. */
  lemma EnoughLife(plan: Plan, budgets: seq<Budget>, budget: Budget)
    requires ValidPlan(plan) && 2 * budget.allowed <= budget.saves
    requires Worked(plan, budgets) + budget.allowed >= Searchables(plan, |plan.outcomes|)
    ensures RunOf(plan, budgets, budget).acc == Fold(plan, |plan.outcomes|)
  {
    LongLife(plan, budget.allowed, budget.saves, StoreAfter(plan, budgets), |plan.outcomes|);
    EnoughIsEnough(plan, budgets, budget);
  }

  // ---- what is published ----

  function Published(rows: seq<Row>): seq<Rival> {
    if rows == [] then [] else Published(rows[..|rows| - 1]) + rows[|rows| - 1].rivals
  }

  ghost predicate Apart(a: Rival, b: Rival) { forall k :: k in a.keys ==> k !in b.keys }

  /** No two of the rivals share a key, and their keys are among those taken. */
  ghost predicate AllApart(rivals: seq<Rival>, taken: set<string>) {
    && (forall a, b :: 0 <= a < b < |rivals| ==> Apart(rivals[a], rivals[b]))
    && (forall a :: 0 <= a < |rivals| ==> KeySet(rivals[a].keys) <= taken)
  }

  lemma PickApart(target: nat, p: Picked, i: nat, r: Rival, before: seq<Rival>)
    requires AllApart(before + p.matches, p.taken) && |p.pairs| == |before + p.matches| <= target
    ensures var q := Pick(target, p, i, r); AllApart(before + q.matches, q.taken) && |q.pairs| == |before + q.matches| <= target
  {
    var q := Pick(target, p, i, r);
    if q != p {
      var all := before + p.matches;
      assert before + q.matches == all + [r];
      forall a | 0 <= a < |all|
        ensures Apart(all[a], r)
      {
        assert KeySet(all[a].keys) <= p.taken;
        forall k | k in all[a].keys
          ensures k !in r.keys
        {
          assert k in KeySet(all[a].keys);
        }
      }
    }
  }

  lemma {:induction false} PickAllApart(target: nat, p: Picked, i: nat, rivals: seq<Rival>, before: seq<Rival>)
    requires AllApart(before + p.matches, p.taken) && |p.pairs| == |before + p.matches| <= target
    ensures var q := PickAll(target, p, i, rivals);
      AllApart(before + q.matches, q.taken) && |q.pairs| == |before + q.matches| <= target
  {
    if rivals != [] {
      PickAllApart(target, p, i, rivals[..|rivals| - 1], before);
      PickApart(target, PickAll(target, p, i, rivals[..|rivals| - 1]), i, rivals[|rivals| - 1], before);
    }
  }

  lemma AddOutcomeApart(target: nat, a: Acc, i: nat, rivals: seq<Rival>)
    requires AllApart(Published(a.rows), a.taken) && |a.pairs| == |Published(a.rows)| <= target
    ensures var b := AddOutcome(target, a, i, rivals);
      AllApart(Published(b.rows), b.taken) && |b.pairs| == |Published(b.rows)| <= target && a.rows <= b.rows
  {
    var before, p := Published(a.rows), Picked([], a.pairs, a.taken);
    assert before + [] == before;
    PickAllApart(target, p, i, rivals, before);
    var q := PickAll(target, p, i, rivals);
    if q.matches != [] {
      var rows := a.rows + [Row(i, q.matches)];
      assert rows[..|rows| - 1] == a.rows;
    }
  }

  /** Whatever prefix was folded: the published rivals never share a key, there are at most `target` of them,
      and a longer fold only adds rows. */
  lemma {:induction false} PublishedApart(plan: Plan, n: nat)
    requires ValidPlan(plan) && n <= |plan.outcomes|
    ensures var a := Fold(plan, n); AllApart(Published(a.rows), a.taken) && |Published(a.rows)| == |a.pairs| <= plan.target
    ensures n > 0 ==> Fold(plan, n - 1).rows <= Fold(plan, n).rows
  {
    if n > 0 {
      PublishedApart(plan, n - 1);
      AddOutcomeApart(plan.target, Fold(plan, n - 1), n - 1, plan.outcomes[n - 1]);
    }
  }
}
