/** What the rows of a product search are: nothing is published without reason, and nothing left out without one. */
module SearchRows {
  import opened Collections
  import opened SearchFold

  ghost predicate SharesKey(q: Rival, r: Rival) { exists k :: k in q.keys && k in r.keys }

  /** `picked` stands in the order of `all`, at these places. */
  ghost predicate OrderOf(at: seq<nat>, picked: seq<Rival>, all: seq<Rival>) {
    && |at| == |picked| && (forall x :: 0 <= x < |at| ==> at[x] < |all| && picked[x] == all[at[x]])
    && forall x, y :: 0 <= x < y < |at| ==> at[x] < at[y]
  }

  // ---- one product ----

  /** Why the rival at place k is not among the matches, if it is not. */
  ghost predicate Explained(rivals: seq<Rival>, k: nat, matches: seq<Rival>, taken: set<string>, full: bool)
    requires k < |rivals|
  {
    var r := rivals[k];
    || r in matches
    || full
    || (exists q :: q in matches && q.url == r.url)
    || (exists key :: key in r.keys && key in taken)
    || (exists j: nat :: j < k && rivals[j] in matches && SharesKey(rivals[j], r))
  }

  ghost predicate TakenBy(taken: set<string>, before: set<string>, matches: seq<Rival>) {
    forall key :: key in taken <==> key in before || exists q :: q in matches && key in q.keys
  }

  ghost predicate PairedBy(pairs: set<(nat, string)>, before: set<(nat, string)>, i: nat, matches: seq<Rival>) {
    forall x :: x in pairs <==> x in before || (x.0 == i && exists q :: q in matches && q.url == x.1)
  }

  ghost predicate PicksWell(target: nat, p0: Picked, p: Picked, i: nat, rivals: seq<Rival>, at: seq<nat>) {
    && OrderOf(at, p.matches, rivals) && TakenBy(p.taken, p0.taken, p.matches) && PairedBy(p.pairs, p0.pairs, i, p.matches)
    && AllExplained(rivals, p.matches, p0.taken, |p.pairs| >= target)
  }

  ghost predicate AllExplained(rivals: seq<Rival>, matches: seq<Rival>, taken: set<string>, full: bool) {
    forall k :: 0 <= k < |rivals| ==> Explained(rivals, k, matches, taken, full)
  }

  lemma TakenMore(taken: set<string>, before: set<string>, matches: seq<Rival>, r: Rival)
    requires TakenBy(taken, before, matches)
    ensures TakenBy(taken + KeySet(r.keys), before, matches + [r])
  {
    forall key
      ensures key in taken + KeySet(r.keys) <==> key in before || exists q :: q in matches + [r] && key in q.keys
    {
      if key in taken && key !in before {
        var q :| q in matches && key in q.keys;
        assert q in matches + [r];
      }
      if key in r.keys { assert r in matches + [r]; }
    }
  }

  lemma PairedMore(pairs: set<(nat, string)>, before: set<(nat, string)>, i: nat, matches: seq<Rival>, r: Rival)
    requires PairedBy(pairs, before, i, matches)
    ensures PairedBy(pairs + {(i, r.url)}, before, i, matches + [r])
  {
    forall x
      ensures x in pairs + {(i, r.url)} <==> x in before || (x.0 == i && exists q :: q in matches + [r] && q.url == x.1)
    {
      if x in pairs && x !in before {
        var q :| q in matches && q.url == x.1;
        assert q in matches + [r];
      }
      if x == (i, r.url) { assert r in matches + [r]; }
    }
  }

  lemma StillExplained(rivals: seq<Rival>, r: Rival, k: nat, matches: seq<Rival>, more: seq<Rival>, taken: set<string>, full: bool, later: bool)
    requires k < |rivals| && Explained(rivals, k, matches, taken, full) && (full ==> later) && matches <= more
    ensures Explained(rivals + [r], k, more, taken, later)
  {
    assert (rivals + [r])[k] == rivals[k];
    assert forall q :: q in matches ==> q in more;
    if j: nat :| j < k && rivals[j] in matches && SharesKey(rivals[j], rivals[k]) {
      assert (rivals + [r])[j] == rivals[j];
    }
  }

  /** The last rival is picked, or one of the reasons applies. */
  lemma LastExplained(target: nat, p0: Picked, p: Picked, i: nat, rivals: seq<Rival>, r: Rival, at: seq<nat>)
    requires PicksWell(target, p0, p, i, rivals, at) && forall u :: (i, u) !in p0.pairs
    ensures var q := Pick(target, p, i, r);
      Explained(rivals + [r], |rivals|, q.matches, p0.taken, |q.pairs| >= target)
  {
    var q := Pick(target, p, i, r);
    if q == p && |p.pairs| < target && (i, r.url) !in p.pairs {
      var key :| key in r.keys && key in p.taken;
      if key !in p0.taken {
        var m :| m in p.matches && key in m.keys;
        var x :| 0 <= x < |p.matches| && p.matches[x] == m;
        assert (rivals + [r])[at[x]] == m && SharesKey(m, r);
      }
    }
  }

  lemma {:induction false} PicksAreExplained(target: nat, p0: Picked, i: nat, rivals: seq<Rival>) returns (at: seq<nat>)
    requires p0.matches == [] && forall u :: (i, u) !in p0.pairs
    ensures PicksWell(target, p0, PickAll(target, p0, i, rivals), i, rivals, at)
  {
    if rivals == [] {
      at := [];
    } else {
      var init, r := rivals[..|rivals| - 1], rivals[|rivals| - 1];
      var p := PickAll(target, p0, i, init);
      at := PicksAreExplained(target, p0, i, init);
      assert rivals == init + [r];
      at := OneMorePick(target, p0, p, i, init, r, at);
    }
  }

  lemma OneMorePick(target: nat, p0: Picked, p: Picked, i: nat, rivals: seq<Rival>, r: Rival, at: seq<nat>) returns (at': seq<nat>)
    requires PicksWell(target, p0, p, i, rivals, at) && forall u :: (i, u) !in p0.pairs
    ensures PicksWell(target, p0, Pick(target, p, i, r), i, rivals + [r], at')
  {
    var q := Pick(target, p, i, r);
    LastExplained(target, p0, p, i, rivals, r, at);
    at' := at;
    if q != p {
      at' := at + [|rivals|];
      TakenMore(p.taken, p0.taken, p.matches, r);
      PairedMore(p.pairs, p0.pairs, i, p.matches, r);
    }
    assert p.pairs <= q.pairs;
    SubsetSize(p.pairs, q.pairs);
    var full, later := |p.pairs| >= target, |q.pairs| >= target;
    forall k | 0 <= k < |rivals| + 1
      ensures Explained(rivals + [r], k, q.matches, p0.taken, later)
    {
      if k < |rivals| { StillExplained(rivals, r, k, p.matches, q.matches, p0.taken, full, later); }
    }
  }

  // ---- all products ----

  /** Is the rival published for product i? */
  ghost predicate InRow(rows: seq<Row>, i: nat, q: Rival) { exists row :: row in rows && row.primary == i && q in row.rivals }

  /** Why the rival at place k of product i is not published, if it is not: the target is met, its page is
      already there, or it is the same product as one published before it. */
  ghost predicate Accounted(plan: Plan, rows: seq<Row>, i: nat, k: nat)
    requires i < |plan.outcomes| && k < |plan.outcomes[i]|
  {
    var r := plan.outcomes[i][k];
    || InRow(rows, i, r)
    || |Published(rows)| >= plan.target
    || (exists q :: InRow(rows, i, q) && q.url == r.url)
    || (exists j: nat, q :: j < i && InRow(rows, j, q) && SharesKey(q, r))
    || (exists j: nat :: j < k && InRow(rows, i, plan.outcomes[i][j]) && SharesKey(plan.outcomes[i][j], r))
  }

  ghost predicate AllAccounted(plan: Plan, rows: seq<Row>, n: nat)
    requires ValidPlan(plan) && n <= |plan.outcomes|
  {
    forall i, k {:trigger Accounted(plan, rows, i, k)} ::
      0 <= i < n && plan.searchable[i] && 0 <= k < |plan.outcomes[i]| ==> Accounted(plan, rows, i, k)
  }

  /** A row holds rivals of one searchable product, at least one, in the order of its outcome. */
  ghost predicate RowOk(plan: Plan, row: Row, n: nat)
    requires ValidPlan(plan) && n <= |plan.outcomes|
  {
    row.primary < n && plan.searchable[row.primary] && row.rivals != []
    && exists at :: OrderOf(at, row.rivals, plan.outcomes[row.primary])
  }

  ghost predicate RowsOk(plan: Plan, rows: seq<Row>, n: nat)
    requires ValidPlan(plan) && n <= |plan.outcomes|
  {
    && (forall x :: 0 <= x < |rows| ==> RowOk(plan, rows[x], n))
    && forall x, y :: 0 <= x < y < |rows| ==> rows[x].primary < rows[y].primary
  }

  /** The bookkeeping is that of the rows. */
  ghost predicate Booked(a: Acc) {
    && (forall key :: key in a.taken ==> exists j: nat, q :: InRow(a.rows, j, q) && key in q.keys)
    && (forall x :: x in a.pairs ==> exists q :: InRow(a.rows, x.0, q) && q.url == x.1)
  }

  lemma StillInRow(rows: seq<Row>, more: seq<Row>, i: nat, q: Rival)
    requires rows <= more && InRow(rows, i, q)
    ensures InRow(more, i, q)
  {
    assert forall row :: row in rows ==> row in more;
  }

  lemma StillAccounted(plan: Plan, rows: seq<Row>, more: seq<Row>, i: nat, k: nat)
    requires i < |plan.outcomes| && k < |plan.outcomes[i]| && Accounted(plan, rows, i, k)
    requires rows <= more && |Published(rows)| <= |Published(more)|
    ensures Accounted(plan, more, i, k)
  {
    forall j: nat, q | InRow(rows, j, q)
      ensures InRow(more, j, q)
    {
      StillInRow(rows, more, j, q);
    }
  }

  lemma NewProduct(a: Acc, i: nat)
    requires Booked(a) && forall row :: row in a.rows ==> row.primary < i
    ensures forall u :: (i, u) !in a.pairs
  {
    forall u
      ensures (i, u) !in a.pairs
    {
      assert forall q :: !InRow(a.rows, i, q);
      assert (i, u) in a.pairs ==> exists q :: InRow(a.rows, (i, u).0, q) && q.url == (i, u).1;
    }
  }

  /** The rows after one product. */
  ghost function WithRow(rows: seq<Row>, i: nat, matches: seq<Rival>): seq<Row> { if matches == [] then rows else rows + [Row(i, matches)] }

  lemma WithRowHas(rows: seq<Row>, i: nat, matches: seq<Rival>)
    ensures rows <= WithRow(rows, i, matches)
    ensures forall q :: q in matches ==> InRow(WithRow(rows, i, matches), i, q)
    ensures forall j: nat, q :: InRow(rows, j, q) ==> InRow(WithRow(rows, i, matches), j, q)
  {
    var more := WithRow(rows, i, matches);
    if matches != [] { assert more[|rows|] == Row(i, matches) && Row(i, matches) in more; }
    forall j: nat, q | InRow(rows, j, q)
      ensures InRow(more, j, q)
    {
      StillInRow(rows, more, j, q);
    }
  }

  lemma OneMoreRow(plan: Plan, rows: seq<Row>, i: nat, matches: seq<Rival>, at: seq<nat>)
    requires ValidPlan(plan) && i < |plan.outcomes| && plan.searchable[i] && RowsOk(plan, rows, i) && OrderOf(at, matches, plan.outcomes[i])
    ensures RowsOk(plan, WithRow(rows, i, matches), i + 1)
  {
    var more := WithRow(rows, i, matches);
    forall x | 0 <= x < |more|
      ensures RowOk(plan, more[x], i + 1)
    {
      if x < |rows| { assert RowOk(plan, rows[x], i); }
    }
    forall x, y | 0 <= x < y < |more|
      ensures more[x].primary < more[y].primary
    {
      assert RowOk(plan, rows[x], i);
    }
  }

  lemma OneMoreBooked(a: Acc, p0: Picked, p: Picked, i: nat, b: Acc)
    requires Booked(a) && p0.taken == a.taken && p0.pairs == a.pairs
    requires TakenBy(p.taken, p0.taken, p.matches) && PairedBy(p.pairs, p0.pairs, i, p.matches)
    requires b.rows == WithRow(a.rows, i, p.matches) && b.taken == p.taken && b.pairs == p.pairs
    ensures Booked(b)
  {
    WithRowHas(a.rows, i, p.matches);
    forall key | key in b.taken
      ensures exists j: nat, q :: InRow(b.rows, j, q) && key in q.keys
    {
      if key in a.taken {
        var j: nat, q :| InRow(a.rows, j, q) && key in q.keys;
        assert InRow(b.rows, j, q);
      } else {
        var q :| q in p.matches && key in q.keys;
        assert InRow(b.rows, i, q);
      }
    }
    forall x | x in b.pairs
      ensures exists q :: InRow(b.rows, x.0, q) && q.url == x.1
    {
      if x in a.pairs {
        var q :| InRow(a.rows, x.0, q) && q.url == x.1;
        assert InRow(b.rows, x.0, q);
      } else {
        var q :| q in p.matches && q.url == x.1;
        assert InRow(b.rows, x.0, q);
      }
    }
  }

  /** The reasons within one product are reasons among all rows. */
  lemma ExplainedIsAccounted(plan: Plan, a: Acc, matches: seq<Rival>, i: nat, k: nat, full: bool)
    requires i < |plan.outcomes| && k < |plan.outcomes[i]| && Booked(a) && forall row :: row in a.rows ==> row.primary < i
    requires Explained(plan.outcomes[i], k, matches, a.taken, full)
    requires full ==> |Published(WithRow(a.rows, i, matches))| >= plan.target
    ensures Accounted(plan, WithRow(a.rows, i, matches), i, k)
  {
    var r, rows := plan.outcomes[i][k], WithRow(a.rows, i, matches);
    WithRowHas(a.rows, i, matches);
    if key :| key in r.keys && key in a.taken {
      var j: nat, q :| InRow(a.rows, j, q) && key in q.keys;
      assert j < i && InRow(rows, j, q) && SharesKey(q, r);
    } else if q :| q in matches && q.url == r.url {
      assert InRow(rows, i, q);
    } else if j: nat :| j < k && plan.outcomes[i][j] in matches && SharesKey(plan.outcomes[i][j], r) {
      assert InRow(rows, i, plan.outcomes[i][j]);
    }
  }

  lemma OneMoreProduct(plan: Plan, a: Acc, i: nat)
    requires ValidPlan(plan) && i < |plan.outcomes| && plan.searchable[i]
    requires RowsOk(plan, a.rows, i) && Booked(a) && AllAccounted(plan, a.rows, i)
    requires AllApart(Published(a.rows), a.taken) && |a.pairs| == |Published(a.rows)| <= plan.target
    ensures var b := AddOutcome(plan.target, a, i, plan.outcomes[i]);
      RowsOk(plan, b.rows, i + 1) && Booked(b) && AllAccounted(plan, b.rows, i + 1)
  {
    var b, p0 := AddOutcome(plan.target, a, i, plan.outcomes[i]), Picked([], a.pairs, a.taken);
    var p := PickAll(plan.target, p0, i, plan.outcomes[i]);
    forall row | row in a.rows
      ensures row.primary < i
    {
      var x :| 0 <= x < |a.rows| && a.rows[x] == row;
      assert RowOk(plan, a.rows[x], i);
    }
    NewProduct(a, i);
    var at := PicksAreExplained(plan.target, p0, i, plan.outcomes[i]);
    AddOutcomeApart(plan.target, a, i, plan.outcomes[i]);
    OneMoreRow(plan, a.rows, i, p.matches, at);
    OneMoreBooked(a, p0, p, i, b);
    SubsetSize(a.pairs, b.pairs);
    var full := |p.pairs| >= plan.target;
    forall j, k | 0 <= j < i + 1 && plan.searchable[j] && 0 <= k < |plan.outcomes[j]|
      ensures Accounted(plan, b.rows, j, k)
    {
      if j < i { StillAccounted(plan, a.rows, b.rows, j, k); } else { ExplainedIsAccounted(plan, a, p.matches, i, k, full); }
    }
  }

  lemma NothingMore(plan: Plan, rows: seq<Row>, n: nat)
    requires ValidPlan(plan) && n < |plan.outcomes| && RowsOk(plan, rows, n) && AllAccounted(plan, rows, n)
    requires !plan.searchable[n] || |Published(rows)| >= plan.target
    ensures RowsOk(plan, rows, n + 1) && AllAccounted(plan, rows, n + 1)
  {
    forall x | 0 <= x < |rows|
      ensures RowOk(plan, rows[x], n + 1)
    {
      assert RowOk(plan, rows[x], n);
    }
  }

  function AfterOne(plan: Plan, a: Acc, i: nat): Acc
    requires ValidPlan(plan) && i < |plan.outcomes|
  {
    if |a.pairs| >= plan.target || !plan.searchable[i] then a else AddOutcome(plan.target, a, i, plan.outcomes[i])
  }

  lemma OneMore(plan: Plan, a: Acc, i: nat)
    requires ValidPlan(plan) && i < |plan.outcomes| && RowsOk(plan, a.rows, i) && Booked(a) && AllAccounted(plan, a.rows, i)
    requires AllApart(Published(a.rows), a.taken) && |a.pairs| == |Published(a.rows)| <= plan.target
    ensures var b := AfterOne(plan, a, i); RowsOk(plan, b.rows, i + 1) && Booked(b) && AllAccounted(plan, b.rows, i + 1)
  {
    if |a.pairs| < plan.target && plan.searchable[i] { OneMoreProduct(plan, a, i); } else { NothingMore(plan, a.rows, i); }
  }

  lemma FoldSnoc(plan: Plan, n: nat)
    requires ValidPlan(plan) && 0 < n <= |plan.outcomes|
    ensures Fold(plan, n) == AfterOne(plan, Fold(plan, n - 1), n - 1)
  {
  }

  /** After any prefix of the catalog: every rival of a searchable product is published in that product's row,
      or `target` rivals are, or its page is there already, or it is the same product as one published before it;
      and every row holds rivals of its product, in their order. */
  lemma {:induction false} FoldIsAccounted(plan: Plan, n: nat)
    requires ValidPlan(plan) && n <= |plan.outcomes|
    ensures RowsOk(plan, Fold(plan, n).rows, n) && AllAccounted(plan, Fold(plan, n).rows, n)
    ensures Booked(Fold(plan, n))
  {
    if n > 0 {
      FoldIsAccounted(plan, n - 1);
      PublishedApart(plan, n - 1);
      OneMore(plan, Fold(plan, n - 1), n - 1);
      FoldSnoc(plan, n);
    }
  }
}
