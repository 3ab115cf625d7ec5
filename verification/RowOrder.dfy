/** SELECT ... ORDER BY over a table keyed by numeric ids. */
module RowOrder {

  /** A two-column sort key; ids break ties. */
  type Rank = map<nat, (int, int)>

  predicate Below(rank: Rank, a: nat, b: nat)
    requires a in rank && b in rank
  {
    if rank[a].0 != rank[b].0 then rank[a].0 < rank[b].0
    else if rank[a].1 != rank[b].1 then rank[a].1 < rank[b].1
    else a <= b
  }

  ghost predicate IsFirst(ids: set<nat>, rank: Rank, x: nat)
    requires ids <= rank.Keys
  {
    x in ids && forall y :: y in ids ==> Below(rank, x, y)
  }

  lemma {:induction false} FirstExists(ids: set<nat>, rank: Rank)
    requires ids <= rank.Keys && ids != {}
    ensures exists x :: IsFirst(ids, rank, x)
    decreases |ids|
  {
    var x :| x in ids;
    var rest := ids - {x};
    assert forall z :: z in ids ==> z == x || z in rest;
    if rest != {} {
      FirstExists(rest, rank);
      var y :| IsFirst(rest, rank, y);
      if Below(rank, y, x) {
        assert IsFirst(ids, rank, y);
        return;
      }
    }
    assert IsFirst(ids, rank, x);
  }

  /** The row that ORDER BY ... LIMIT 1 returns. */
  function First(ids: set<nat>, rank: Rank): (x: nat)
    requires ids <= rank.Keys && ids != {}
    ensures IsFirst(ids, rank, x)
  {
    FirstExists(ids, rank);
    assert exists w :: w in ids && forall y :: y in ids ==> Below(rank, w, y) by {
      var w :| IsFirst(ids, rank, w);
    }
    var x :| x in ids && forall y :: y in ids ==> Below(rank, x, y);
    x
  }

  /** All rows in order. */
  function OrderBy(ids: set<nat>, rank: Rank): (r: seq<nat>)
    requires ids <= rank.Keys
    ensures forall x :: x in ids <==> x in r
    ensures forall i, j :: 0 <= i < j < |r| ==> r[i] != r[j] && Below(rank, r[i], r[j])
    decreases |ids|
  {
    if ids == {} then []
    else
      var x := First(ids, rank);
      [x] + OrderBy(ids - {x}, rank)
  }
}
