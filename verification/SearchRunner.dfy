/** The builder of one run: rows, seen pairs and seen keys changed in a loop, checkpoints saved on the way. */
module SearchRunner {
  import opened SearchFold

  class Builder {
    var store: Store
    var rows: seq<Row>
    var seenPairs: set<(nat, string)>
    var seenKeys: set<string>
    var processed: seq<nat>
    var begun: nat
    var stoppedEarly: bool
    var saves: nat
    var crashed: bool
    var searched: seq<nat>

    function Acc(): Acc
      reads this
    {
      SearchFold.Acc(rows, seenPairs, seenKeys, processed)
    }

    function Now(): Progress
      reads this
    {
      Progress(store, Acc(), begun, stoppedEarly, saves, crashed, searched)
    }

    /** A process that opens the stored checkpoints and lives to make `saves` more. */
    constructor (store: Store, saves: nat)
      ensures Now() == Progress(store, NOTHING, 0, false, saves, false, [])
    {
      this.store, this.saves := store, saves;
      rows, seenPairs, seenKeys, processed := [], {}, {}, [];
      begun, stoppedEarly, crashed, searched := 0, false, false, [];
    }

    method AddOutcome(target: nat, primary: nat, rivals: seq<Rival>)
      modifies `rows, `seenPairs, `seenKeys, `processed
      ensures Acc() == SearchFold.AddOutcome(target, old(Acc()), primary, rivals)
    {
      processed := processed + [primary];
      var matches := [];
      ghost var start := Picked([], seenPairs, seenKeys);
      var n := 0;
      while n < |rivals|
        invariant n <= |rivals| && rows == old(rows) && processed == old(processed) + [primary]
        invariant Picked(matches, seenPairs, seenKeys) == PickAll(target, start, primary, rivals[..n])
      {
        if |seenPairs| >= target { break; }
        assert rivals[..n + 1][..n] == rivals[..n];
        var rival := rivals[n];
        n := n + 1;
        if (primary, rival.url) in seenPairs || Clashes(seenKeys, rival.keys) { continue; }
        seenPairs := seenPairs + {(primary, rival.url)};
        seenKeys := seenKeys + KeySet(rival.keys);
        matches := matches + [rival];
      }
      FullPicksNoMore(target, start, primary, rivals, n);
      if matches != [] { rows := rows + [Row(primary, matches)]; }
    }

    /** Store a checkpoint, unless the process dies first. */
    method Save(i: nat, c: Checkpoint)
      modifies `store, `saves, `crashed
      ensures Now() == SearchFold.Save(old(Now()), i, c)
    {
      if saves == 0 {
        crashed := true;
      } else {
        store := store[i := c];
        saves := saves - 1;
      }
    }

    method Work(plan: Plan, i: nat)
      requires ValidPlan(plan) && i < |plan.outcomes| && !crashed
      modifies this
      ensures Now() == SearchFold.Work(plan, old(Now()), i)
    {
      begun := begun + 1;
      if i !in store {
        searched := searched + [i];
        Save(i, Searched);
        if crashed { return; }
      }
      Save(i, Finished(plan.outcomes[i]));
      if crashed { return; }
      AddOutcome(plan.target, i, plan.outcomes[i]);
    }

    method Build(plan: Plan, allowed: nat)
      requires ValidPlan(plan) && Now() == Progress(store, NOTHING, 0, false, saves, false, [])
      modifies this
      ensures Now() == Run(plan, allowed, old(saves), old(store), |plan.outcomes|)
    {
      var n := 0;
      while n < |plan.outcomes|
        invariant n <= |plan.outcomes| && !crashed && Now() == Run(plan, allowed, old(saves), old(store), n)
      {
        if |seenPairs| >= plan.target { break; }
        n := n + 1;
        if !plan.searchable[n - 1] { continue; }
        if n - 1 in store && store[n - 1].Finished? {
          AddOutcome(plan.target, n - 1, store[n - 1].outcome);
          continue;
        }
        if begun >= allowed {
          stoppedEarly := true;
          continue;
        }
        Work(plan, n - 1);
        if crashed { break; }
      }
      OverIsOver(plan, allowed, old(saves), old(store), n, |plan.outcomes|);
    }
  }

  /** Once the target is reached the remaining rivals are passed over. */
  lemma {:induction false} FullPicksNoMore(target: nat, p: Picked, i: nat, rivals: seq<Rival>, n: nat)
    requires n <= |rivals| && (n == |rivals| || |PickAll(target, p, i, rivals[..n]).pairs| >= target)
    ensures PickAll(target, p, i, rivals) == PickAll(target, p, i, rivals[..n])
  {
    if n < |rivals| {
      var m := |rivals| - 1;
      assert rivals[..m][..n] == rivals[..n];
      FullPicksNoMore(target, p, i, rivals[..m], n);
    } else {
      assert rivals[..n] == rivals;
    }
  }

  /** Once the target is reached, or the process is dead, the remaining products change nothing. */
  lemma {:induction false} OverIsOver(plan: Plan, allowed: nat, saves: nat, store: Store, n: nat, m: nat)
    requires ValidPlan(plan) && n <= m <= |plan.outcomes|
    requires n == m || Run(plan, allowed, saves, store, n).crashed || |Run(plan, allowed, saves, store, n).acc.pairs| >= plan.target
    ensures Run(plan, allowed, saves, store, m) == Run(plan, allowed, saves, store, n)
  {
    if n < m { OverIsOver(plan, allowed, saves, store, n, m - 1); }
  }
}
