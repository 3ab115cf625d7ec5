/** The published-result merge: rank each row, collapse rival aliases, cap, and assign. */
module MatchLifecycle {
  import opened Sums
  import opened AliasComponents
  import opened AssignmentNetwork
  import opened CandidateCap

  const ROW_CAP := 20

  /** Scores carry four decimals, so a score of 1 is 10000. */
  const SCALE := 10_000

  /** `identity` is the place of the rival's identity key in the locale order. */
  datatype Match = Match(keys: seq<Key>, exact: bool, score: int, identity: int, eligible: bool)

  type Rows = seq<seq<Match>>

  // ---- ranking ----

  /** Exact products first, then higher scores, then the identity key. */
  predicate Precedes(a: Match, b: Match) {
    if a.exact != b.exact then a.exact
    else if a.score != b.score then a.score > b.score
    else a.identity <= b.identity
  }

  ghost predicate Ordered(row: seq<Match>) {
    forall i, j :: 0 <= i < j < |row| ==> Precedes(row[i], row[j])
  }

  /** Stable insertion: behind everything that does not come after it. */
  function Insert(row: seq<Match>, x: Match): seq<Match> {
    if row == [] then [x]
    else
      var n := |row| - 1;
      if Precedes(row[n], x) then row + [x] else Insert(row[..n], x) + [row[n]]
  }

  lemma {:induction false} InsertMembers(row: seq<Match>, x: Match)
    ensures multiset(Insert(row, x)) == multiset(row) + multiset{x}
  {
    var n := |row| - 1;
    if n >= 0 {
      assert row == row[..n] + [row[n]];
      if !Precedes(row[n], x) { InsertMembers(row[..n], x); }
    }
  }

  lemma InsertIn(row: seq<Match>, x: Match, i: nat)
    requires i < |Insert(row, x)|
    ensures Insert(row, x)[i] == x || Insert(row, x)[i] in row
  {
    InsertMembers(row, x);
    assert Insert(row, x)[i] in multiset(Insert(row, x));
  }

  lemma {:induction false} InsertOrders(row: seq<Match>, x: Match)
    requires Ordered(row)
    ensures Ordered(Insert(row, x))
  {
    var n := |row| - 1;
    if n >= 0 {
      if Precedes(row[n], x) {
        assert forall i :: 0 <= i < n ==> Precedes(row[i], row[n]);
      } else {
        InsertOrders(row[..n], x);
        var r := Insert(row[..n], x);
        forall i | 0 <= i < |r|
          ensures Precedes(r[i], row[n])
        {
          InsertIn(row[..n], x, i);
        }
      }
    }
  }

  /** The publishable matches of a row, ranked. */
  function Rank(row: seq<Match>): seq<Match> {
    if row == [] then []
    else
      var n := |row| - 1;
      if row[n].eligible then Insert(Rank(row[..n]), row[n]) else Rank(row[..n])
  }

  /** Ranking keeps exactly the eligible matches, exact products first, then by falling score, then by identity key. */
  lemma {:induction false} RankOrders(row: seq<Match>)
    ensures Ordered(Rank(row))
    ensures var r := Rank(row); forall i, j :: 0 <= i < j < |r| ==>
      && (r[j].exact ==> r[i].exact)
      && (r[i].exact == r[j].exact ==> r[i].score >= r[j].score)
      && (r[i].exact == r[j].exact && r[i].score == r[j].score ==> r[i].identity <= r[j].identity)
    ensures forall m :: multiset(Rank(row))[m] == if m.eligible then multiset(row)[m] else 0
  {
    var n := |row| - 1;
    if n >= 0 {
      assert row == row[..n] + [row[n]];
      RankOrders(row[..n]);
      InsertOrders(Rank(row[..n]), row[n]);
      InsertMembers(Rank(row[..n]), row[n]);
    }
    var r := Rank(row);
    assert forall i, j :: 0 <= i < j < |r| ==> Precedes(r[i], r[j]);
  }

  function RankAll(rows: Rows): (r: Rows)
    ensures |r| == |rows|
    ensures forall i :: 0 <= i < |rows| ==> r[i] == Rank(rows[i])
  {
    seq(|rows|, i requires 0 <= i < |rows| => Rank(rows[i]))
  }

  // ---- the flat candidate list ----

  /** The constraint keys of all candidates, row after row. */
  function KeysOf(rows: Rows): seq<seq<Key>> {
    if rows == [] then []
    else KeysOf(rows[..|rows| - 1]) + KeysOfRow(rows[|rows| - 1])
  }

  function KeysOfRow(row: seq<Match>): (r: seq<seq<Key>>)
    ensures |r| == |row|
  {
    seq(|row|, i requires 0 <= i < |row| => row[i].keys)
  }

  /** The flat position of candidate p of row i. */
  function At(rows: Rows, i: nat, p: nat): nat
    requires i < |rows|
  {
    |KeysOf(rows[..i])| + p
  }

  lemma {:induction false} KeysAt(rows: Rows, i: nat, p: nat)
    requires i < |rows| && p < |rows[i]|
    ensures At(rows, i, p) < |KeysOf(rows)| && KeysOf(rows)[At(rows, i, p)] == rows[i][p].keys
  {
    var n := |rows| - 1;
    if i < n {
      KeysAt(rows[..n], i, p);
      assert rows[..n][..i] == rows[..i];
    }
  }

  lemma AllKeysAt(rows: Rows)
    ensures forall i, p :: 0 <= i < |rows| && 0 <= p < |rows[i]| ==>
      At(rows, i, p) < |KeysOf(rows)| && KeysOf(rows)[At(rows, i, p)] == rows[i][p].keys
  {
    forall i, p | 0 <= i < |rows| && 0 <= p < |rows[i]|
      ensures At(rows, i, p) < |KeysOf(rows)| && KeysOf(rows)[At(rows, i, p)] == rows[i][p].keys
    {
      KeysAt(rows, i, p);
    }
  }

  // ---- what a selection is ----

  /** At most one candidate a row, and no two that are aliases of each other. */
  ghost predicate Disjoint(rows: Rows, selected: seq<int>) {
    && |selected| == |rows|
    && (forall i :: 0 <= i < |rows| ==> -1 <= selected[i] < |rows[i]|)
    && forall i, j :: 0 <= i < j < |rows| && selected[i] >= 0 && selected[j] >= 0 ==>
      !Alias(KeysOf(rows), At(rows, i, selected[i]), At(rows, j, selected[j]))
  }

  /** The nearest score of the unit range. */
  function Clamp(score: int): (r: int)
    ensures 0 <= r <= 10_000
    ensures (0 <= score <= 10_000 ==> r == score) && (score > 10_000 ==> r == 10_000) && (score < 0 ==> r == 0)
  {
    if score < 0 then 0 else if score > SCALE then SCALE else score
  }

  function Benefit(m: Match, bonus: nat): int {
    (if m.exact then bonus * SCALE else 0) + Clamp(m.score)
  }

  /** The number of exact products selected. */
  function ExactCount(rows: Rows, selected: seq<int>): (n: nat)
    requires |selected| == |rows| && forall i :: 0 <= i < |rows| ==> selected[i] < |rows[i]|
  {
    if rows == [] then 0
    else
      var n := |rows| - 1;
      ExactCount(rows[..n], selected[..n]) + (if selected[n] >= 0 && rows[n][selected[n]].exact then 1 else 0)
  }

  /** The sum of the selected scores, each clamped to the unit range. */
  function ScoreSum(rows: Rows, selected: seq<int>): (n: nat)
    requires |selected| == |rows| && forall i :: 0 <= i < |rows| ==> selected[i] < |rows[i]|
  {
    if rows == [] then 0
    else
      var n := |rows| - 1;
      ScoreSum(rows[..n], selected[..n]) + (if selected[n] >= 0 then Clamp(rows[n][selected[n]].score) else 0)
  }

  /** Nothing of the same size has more exact products, or as many and a larger score sum. */
  ghost predicate LexicographicallyBest(rows: Rows, selected: seq<int>)
    requires Disjoint(rows, selected)
  {
    forall other :: Disjoint(rows, other) && Taken(other) == Taken(selected) ==>
      || ExactCount(rows, other) < ExactCount(rows, selected)
      || (ExactCount(rows, other) == ExactCount(rows, selected) && ScoreSum(rows, other) <= ScoreSum(rows, selected))
  }

  // ---- the benefit table ----

  /** The table of all ranked candidates, their components named by union-find roots. */
  function RootTable(rows: Rows, root: seq<nat>, bonus: nat): (t: Table)
    requires |root| == |KeysOf(rows)|
    ensures |t| == |rows| && forall i :: 0 <= i < |rows| ==> |t[i]| == |rows[i]|
    ensures forall i, p :: 0 <= i < |rows| && 0 <= p < |rows[i]| ==>
      At(rows, i, p) < |root| && t[i][p] == Link(root[At(rows, i, p)], Benefit(rows[i][p], bonus))
  {
    AllKeysAt(rows);
    seq(|rows|, i requires 0 <= i < |rows| =>
      seq(|rows[i]|, p requires 0 <= p < |rows[i]| =>
        Link(root[At(rows, i, p)], Benefit(rows[i][p], bonus))))
  }

  /** The roots are the aliases. */
  ghost predicate RootsAreAliases(rows: Rows, root: seq<nat>) {
    && |root| == |KeysOf(rows)|
    && forall i, j :: 0 <= i < |root| && 0 <= j < |root| ==> (root[i] == root[j] <==> Alias(KeysOf(rows), i, j))
  }

  /** Disjoint selections are exactly the choices from the root table. */
  lemma ChoiceIsDisjoint(rows: Rows, root: seq<nat>, bonus: nat, selected: seq<int>)
    requires RootsAreAliases(rows, root) && IsChoice(RootTable(rows, root, bonus), selected)
    ensures Disjoint(rows, selected)
  {
    forall i, j | 0 <= i < j < |rows| && selected[i] >= 0 && selected[j] >= 0
      ensures !Alias(KeysOf(rows), At(rows, i, selected[i]), At(rows, j, selected[j]))
    {
      SamePlace(rows, root, bonus, selected, i, j);
    }
  }

  lemma DisjointIsChoice(rows: Rows, root: seq<nat>, bonus: nat, selected: seq<int>)
    requires RootsAreAliases(rows, root) && Disjoint(rows, selected)
    ensures IsChoice(RootTable(rows, root, bonus), selected)
  {
  }

  lemma SamePlace(rows: Rows, root: seq<nat>, bonus: nat, selected: seq<int>, i: nat, j: nat)
    requires RootsAreAliases(rows, root) && |selected| == |rows|
    requires forall i :: 0 <= i < |rows| ==> -1 <= selected[i] < |rows[i]|
    requires i < |rows| && j < |rows| && selected[i] >= 0 && selected[j] >= 0
    ensures Places(RootTable(rows, root, bonus), selected)[i] == Places(RootTable(rows, root, bonus), selected)[j]
      <==> Alias(KeysOf(rows), At(rows, i, selected[i]), At(rows, j, selected[j]))
  {
  }

  /** The worth of a choice weighs its exact products and adds its scores. */
  lemma {:induction false} WorthSplits(rows: Rows, t: Table, bonus: nat, selected: seq<int>)
    requires |t| == |rows| == |selected|
    requires forall i :: 0 <= i < |rows| ==> |t[i]| == |rows[i]| && -1 <= selected[i] < |rows[i]|
    requires forall i, p :: 0 <= i < |rows| && 0 <= p < |rows[i]| ==> t[i][p].benefit == Benefit(rows[i][p], bonus)
    ensures Worth(t, selected) == ExactCount(rows, selected) * (bonus * SCALE) + ScoreSum(rows, selected)
    ensures ScoreSum(rows, selected) <= Taken(selected) * SCALE
  {
    var n := |rows| - 1;
    if n >= 0 {
      WorthSplits(rows[..n], t[..n], bonus, selected[..n]);
      assert Benefits(t, selected)[..n] == Benefits(t[..n], selected[..n]);
      Times(ExactCount(rows[..n], selected[..n]), bonus * SCALE);
    }
  }

  lemma Times(e: nat, b: nat)
    ensures (e + 1) * b == e * b + b
  {
  }

  /** Because the bonus exceeds any score sum, worth orders first by exact products, then by scores. */
  lemma WorthIsLexicographic(e: nat, s: nat, e': nat, s': nat, target: nat)
    requires s <= target * SCALE
    requires e' * ((target + 1) * SCALE) + s' <= e * ((target + 1) * SCALE) + s
    ensures e' < e || (e' == e && s' <= s)
  {
    var b := (target + 1) * SCALE;
    assert b == target * SCALE + SCALE;
    OneMore(e, e', b);
  }

  lemma {:induction false} OneMore(e: nat, e': nat, b: nat)
    ensures e < e' ==> e' * b >= e * b + b
  {
    if e + 1 < e' {
      OneMore(e, e' - 1, b);
      assert e' * b == (e' - 1) * b + b;
    } else {
      assert (e + 1) * b == e * b + b;
    }
  }

  /** Ranked rows have descending benefits. */
  lemma RankedDescending(rows: Rows, root: seq<nat>, bonus: nat)
    requires |root| == |KeysOf(rows)| && bonus >= 1 && forall i :: 0 <= i < |rows| ==> Ordered(rows[i])
    ensures Descending(RootTable(rows, root, bonus))
  {
  }

  // ---- the steps of the merge ----

  method ReadRoots(forest: Forest, rows: Rows) returns (root: seq<nat>)
    requires forest.Valid() && |forest.root| == |KeysOf(rows)|
    modifies forest.parents
    ensures root == forest.root && forest.Valid()
  {
    root := [];
    for index := 0 to forest.parents.Length
      invariant forest.Valid() && |root| == index && root == forest.root[..index]
    {
      var r := forest.FindRoot(index);
      root := root + [r];
    }
  }

  function Seen(row: seq<Link>, upto: nat): set<nat>
    requires upto <= |row|
  {
    set q | 0 <= q < upto :: row[q].component
  }

  /** Skip a component already seen in the row, then cut the row to the cap. */
  method KeepRow(row: seq<Link>, cap: nat) returns (kept: seq<nat>)
    ensures kept == Capped(row, cap)
  {
    var seen: set<nat> := {};
    kept := [];
    for p := 0 to |row|
      invariant kept == Kept(row, p) && seen == Seen(row, p)
    {
      SeenIsFirst(row, p);
      if row[p].component !in seen {
        seen := seen + {row[p].component};
        kept := kept + [p];
      }
    }
    if |kept| > cap { kept := kept[..cap]; }
  }

  /** A position is the first of its component exactly when the component was not seen before it. */
  lemma SeenIsFirst(row: seq<Link>, p: nat)
    requires p < |row|
    ensures Seen(row, p + 1) == Seen(row, p) + {row[p].component}
    ensures row[p].component in Seen(row, p) ==> Kept(row, p + 1) == Kept(row, p)
    ensures row[p].component !in Seen(row, p) ==> Kept(row, p + 1) == Kept(row, p) + [p]
  {
  }

  /** Number the components in the order they first appear. */
  method Number(table: Table) returns (numbered: Table, names: seq<nat>)
    ensures |numbered| == |table| && forall i :: 0 <= i < |table| ==> |numbered[i]| == |table[i]|
    ensures forall x, y :: 0 <= x < y < |names| ==> names[x] != names[y]
    ensures forall i, p :: 0 <= i < |table| && 0 <= p < |table[i]| ==>
      && numbered[i][p].component < |names| && names[numbered[i][p].component] == table[i][p].component
      && numbered[i][p].benefit == table[i][p].benefit
  {
    var nodeByKey: map<nat, nat> := map[];
    numbered, names := [], [];
    for i := 0 to |table|
      invariant Numbering(nodeByKey, names) && |numbered| == i
      invariant forall r :: 0 <= r < i ==> RowNumbered(table[r], numbered[r], |table[r]|, names)
    {
      var row: seq<Link> := [];
      for p := 0 to |table[i]|
        invariant Numbering(nodeByKey, names)
        invariant forall r :: 0 <= r < i ==> RowNumbered(table[r], numbered[r], |table[r]|, names)
        invariant RowNumbered(table[i], row, p, names)
      {
        var key := table[i][p].component;
        if key !in nodeByKey {
          nodeByKey := nodeByKey[key := |nodeByKey|];
          names := names + [key];
        }
        row := row + [Link(nodeByKey[key], table[i][p].benefit)];
      }
      numbered := numbered + [row];
    }
  }

  ghost predicate Numbering(nodeByKey: map<nat, nat>, names: seq<nat>) {
    && |nodeByKey| == |names|
    && (forall k :: k in nodeByKey ==> nodeByKey[k] < |names| && names[nodeByKey[k]] == k)
    && (forall x :: 0 <= x < |names| ==> names[x] in nodeByKey && nodeByKey[names[x]] == x)
  }

  ghost predicate RowNumbered(row: seq<Link>, numbered: seq<Link>, upto: nat, names: seq<nat>) {
    && |numbered| == upto <= |row|
    && forall p :: 0 <= p < upto ==>
      && numbered[p].component < |names| && names[numbered[p].component] == row[p].component
      && numbered[p].benefit == row[p].benefit
  }

  /** Renaming components one to one changes neither choices nor worth. */
  lemma NumberedChoice(table: Table, numbered: Table, names: seq<nat>, choice: seq<int>)
    requires |numbered| == |table| && forall i :: 0 <= i < |table| ==> |numbered[i]| == |table[i]|
    requires forall x, y :: 0 <= x < y < |names| ==> names[x] != names[y]
    requires forall i, p :: 0 <= i < |table| && 0 <= p < |table[i]| ==>
      && numbered[i][p].component < |names| && names[numbered[i][p].component] == table[i][p].component
      && numbered[i][p].benefit == table[i][p].benefit
    ensures IsChoice(table, choice) <==> IsChoice(numbered, choice)
    ensures IsChoice(table, choice) ==> Worth(table, choice) == Worth(numbered, choice)
  {
    if |choice| == |table| && forall i :: 0 <= i < |choice| ==> -1 <= choice[i] < |table[i]| {
      var a, b := Places(table, choice), Places(numbered, choice);
      forall i, j | 0 <= i < j < |choice| && choice[i] >= 0 && choice[j] >= 0
        ensures a[i] == a[j] <==> b[i] == b[j]
      {
        assert a[i] == names[b[i]] && a[j] == names[b[j]];
      }
      assert Benefits(table, choice) == Benefits(numbered, choice);
    }
  }
}
