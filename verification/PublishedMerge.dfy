/** The two merge modes over ranked rows: optimal one-per-primary assignment, and greedy pairs. */
module PublishedMerge {
  import opened Collections
  import opened Sums
  import opened AliasComponents
  import opened AssignmentNetwork
  import opened CandidateCap
  import opened OptimalAssignment
  import opened MatchLifecycle

  /** The requested target, bounded by the cap and by the number of rows: as large as these allow. */
  function FlowTarget(resultTarget: int, rows: nat): (t: nat)
    ensures t <= 20 && t <= rows && (resultTarget >= 1 ==> t <= resultTarget)
    ensures t == rows || t == 20 || t == resultTarget || (t == 1 && resultTarget < 1)
  {
    var bounded := if resultTarget < 1 then 1 else if resultTarget > ROW_CAP then ROW_CAP else resultTarget;
    if bounded < rows then bounded else rows
  }

  /** Solving the capped table solves the whole table. */
  lemma CappedIsOptimal(table: Table, choice: seq<int>, target: nat)
    requires Descending(table) && target <= ROW_CAP
    requires IsChoice(Thin(table, AllCapped(table, ROW_CAP)), choice)
    requires Largest(Thin(table, AllCapped(table, ROW_CAP)), target, choice)
    requires Best(Thin(table, AllCapped(table, ROW_CAP)), choice)
    ensures var wide := Widen(AllCapped(table, ROW_CAP), choice);
      IsChoice(table, wide) && Largest(table, target, wide) && Best(table, wide)
  {
    var keep := AllCapped(table, ROW_CAP);
    WidenedChoice(table, keep, choice);
    var wide := Widen(keep, choice);
    forall other | IsChoice(table, other)
      ensures Taken(other) <= Taken(wide) || Taken(wide) == target
      ensures Taken(other) == Taken(wide) ==> Worth(table, other) <= Worth(table, wide)
    {
      if Taken(other) == Taken(wide) {
        var inside := CapLosesNothing(table, ROW_CAP, other);
      } else if Taken(other) > Taken(wide) && Taken(wide) < target {
        var fewer := Shrink(table, other, Taken(wide) + 1);
        var inside := CapLosesNothing(table, ROW_CAP, fewer);
      }
    }
  }

  /** The numbered table has the same largest and best choices. */
  lemma NumberedIsOptimal(table: Table, numbered: Table, names: seq<nat>, choice: seq<int>, target: nat)
    requires |numbered| == |table| && forall i :: 0 <= i < |table| ==> |numbered[i]| == |table[i]|
    requires forall x, y :: 0 <= x < y < |names| ==> names[x] != names[y]
    requires forall i, p :: 0 <= i < |table| && 0 <= p < |table[i]| ==>
      && numbered[i][p].component < |names| && names[numbered[i][p].component] == table[i][p].component
      && numbered[i][p].benefit == table[i][p].benefit
    requires IsChoice(numbered, choice) && Largest(numbered, target, choice) && Best(numbered, choice)
    ensures IsChoice(table, choice) && Largest(table, target, choice) && Best(table, choice)
  {
    NumberedChoice(table, numbered, names, choice);
    forall other | IsChoice(table, other)
      ensures Taken(other) <= Taken(choice) || Taken(choice) == target
      ensures Taken(other) == Taken(choice) ==> Worth(table, other) <= Worth(table, choice)
    {
      NumberedChoice(table, numbered, names, other);
    }
  }

  /** What a choice from the root table is worth. */
  lemma RootWorth(rows: Rows, root: seq<nat>, target: nat, selected: seq<int>)
    requires RootsAreAliases(rows, root) && Disjoint(rows, selected)
    requires IsChoice(RootTable(rows, root, target + 1), selected)
    ensures Worth(RootTable(rows, root, target + 1), selected)
      == ExactCount(rows, selected) * ((target + 1) * SCALE) + ScoreSum(rows, selected)
    ensures ScoreSum(rows, selected) <= Taken(selected) * SCALE
  {
    WorthSplits(rows, RootTable(rows, root, target + 1), target + 1, selected);
  }

  /** One comparison of the optimal choice with another alias-free selection. */
  lemma CompareRows(rows: Rows, root: seq<nat>, target: nat, selected: seq<int>, other: seq<int>)
    requires RootsAreAliases(rows, root) && Disjoint(rows, selected) && Disjoint(rows, other)
    requires IsChoice(RootTable(rows, root, target + 1), selected) && IsChoice(RootTable(rows, root, target + 1), other)
    requires Taken(other) == Taken(selected) <= target
    requires Worth(RootTable(rows, root, target + 1), other) <= Worth(RootTable(rows, root, target + 1), selected)
    ensures ExactCount(rows, other) < ExactCount(rows, selected)
      || (ExactCount(rows, other) == ExactCount(rows, selected) && ScoreSum(rows, other) <= ScoreSum(rows, selected))
  {
    RootWorth(rows, root, target, selected);
    RootWorth(rows, root, target, other);
    WorthIsLexicographic(ExactCount(rows, selected), ScoreSum(rows, selected),
                         ExactCount(rows, other), ScoreSum(rows, other), target);
  }

  /** What the optimal table choice means for the rows themselves. */
  lemma TableToRows(rows: Rows, root: seq<nat>, target: nat, selected: seq<int>)
    requires RootsAreAliases(rows, root)
    requires IsChoice(RootTable(rows, root, target + 1), selected)
    requires Largest(RootTable(rows, root, target + 1), target, selected)
    requires Best(RootTable(rows, root, target + 1), selected)
    ensures Disjoint(rows, selected) && LexicographicallyBest(rows, selected)
    ensures forall other :: Disjoint(rows, other) ==> Taken(other) <= Taken(selected) || Taken(selected) == target
  {
    ChoiceIsDisjoint(rows, root, target + 1, selected);
    forall other | Disjoint(rows, other)
      ensures Taken(other) <= Taken(selected) || Taken(selected) == target
      ensures Taken(other) == Taken(selected) ==>
        (ExactCount(rows, other) < ExactCount(rows, selected)
         || (ExactCount(rows, other) == ExactCount(rows, selected) && ScoreSum(rows, other) <= ScoreSum(rows, selected)))
    {
      DisjointIsChoice(rows, root, target + 1, other);
      if Taken(other) == Taken(selected) { CompareRows(rows, root, target, selected, other); }
    }
  }

  /** Everything a row may publish, dedupe and cap included, in the order of the rows. */
  method KeepAll(table: Table, cap: nat) returns (keep: seq<seq<nat>>)
    ensures keep == AllCapped(table, cap)
  {
    keep := [];
    for i := 0 to |table|
      invariant |keep| == i && forall r :: 0 <= r < i ==> keep[r] == Capped(table[r], cap)
    {
      var kept := KeepRow(table[i], cap);
      keep := keep + [kept];
    }
  }

  /** Assign the capped, numbered table and read the result in the whole one. */
  method AssignTable(table: Table, target: nat, ghost bound: int) returns (selected: seq<int>)
    requires Descending(table) && target <= ROW_CAP
    requires forall i, p :: 0 <= i < |table| && 0 <= p < |table[i]| ==> table[i][p].benefit <= bound
    ensures IsChoice(table, selected) && Largest(table, target, selected) && Best(table, selected)
  {
    var keep := KeepAll(table, ROW_CAP);
    var thin := Thin(table, keep);
    var numbered, names := Number(thin);
    var choice := Solve(numbered, |names|, target, bound);
    NumberedIsOptimal(thin, numbered, names, choice, target);
    CappedIsOptimal(table, choice, target);
    selected := Widen(keep, choice);
  }

  /** The one-per-primary merge. No two published rivals are aliases; no alias-free selection within
      the target is larger; and none of the same size has more exact products, or as many and a
      larger score sum. */
  method MergeProducts(rows: Rows, resultTarget: int) returns (ranked: Rows, selected: seq<int>)
    ensures ranked == RankAll(rows)
    ensures Disjoint(ranked, selected) && LexicographicallyBest(ranked, selected)
    ensures var request := if resultTarget < 1 then 1 else if resultTarget > 20 then 20 else resultTarget;
      Taken(selected) <= request && forall other :: Disjoint(ranked, other) ==> Taken(other) <= Taken(selected) || Taken(selected) == request
  {
    ranked := RankAll(rows);
    var forest := Components(KeysOf(ranked));
    var root := ReadRoots(forest, ranked);
    var target := FlowTarget(resultTarget, |rows|);
    var table: Table := RootTable(ranked, root, target + 1);
    forall i | 0 <= i < |ranked| ensures Ordered(ranked[i]) { RankOrders(rows[i]); }
    RankedDescending(ranked, root, target + 1);
    selected := AssignTable(table, target, (target + 1) * SCALE + SCALE);
    TableToRows(ranked, root, target, selected);
  }

  // ---- pairs mode ----

  datatype Pick = Pick(row: nat, place: nat)

  ghost predicate PicksFit(rows: Rows, picks: seq<Pick>) {
    forall k :: 0 <= k < |picks| ==> picks[k].row < |rows| && picks[k].place < |rows[picks[k].row]|
  }

  /** The flat positions of the picks, in the order they were made. */
  ghost function Flat(rows: Rows, picks: seq<Pick>): (r: seq<nat>)
    requires PicksFit(rows, picks)
    ensures |r| == |picks|
  {
    seq(|picks|, k requires 0 <= k < |picks| => At(rows, picks[k].row, picks[k].place))
  }

  /** The labels before a position. */
  ghost function Labels(root: seq<nat>, upto: nat): set<nat>
    requires upto <= |root|
  {
    set q | 0 <= q < upto :: root[q]
  }

  /** The positions at which a label first occurs. */
  ghost function Firsts(root: seq<nat>, upto: nat): seq<nat>
    requires upto <= |root|
  {
    if upto == 0 then []
    else if root[upto - 1] in Labels(root, upto - 1) then Firsts(root, upto - 1)
    else Firsts(root, upto - 1) + [upto - 1]
  }

  /** First positions rise, and each carries a label not seen before it. */
  lemma {:induction false} FirstsAreNew(root: seq<nat>, upto: nat)
    requires upto <= |root|
    ensures forall x :: 0 <= x < |Firsts(root, upto)| ==>
      Firsts(root, upto)[x] < upto && root[Firsts(root, upto)[x]] !in Labels(root, Firsts(root, upto)[x])
    ensures forall x, y :: 0 <= x < y < |Firsts(root, upto)| ==> Firsts(root, upto)[x] < Firsts(root, upto)[y]
  {
    if upto > 0 { FirstsAreNew(root, upto - 1); }
  }

  lemma {:induction false} FirstsPrefix(root: seq<nat>, a: nat, b: nat)
    requires a <= b <= |root|
    ensures Firsts(root, a) <= Firsts(root, b)
  {
    if a < b { FirstsPrefix(root, a, b - 1); }
  }

  /** Every new label stands at a first position. */
  lemma {:induction false} NewIsListed(root: seq<nat>, upto: nat, c: nat)
    requires c < upto <= |root| && root[c] !in Labels(root, c)
    ensures c in Firsts(root, upto)
  {
    if c < upto - 1 { NewIsListed(root, upto - 1, c); }
  }

  /** The labels of one row stand at `base` in the flat list. */
  ghost predicate RowAt(root: seq<nat>, base: nat, row: seq<Link>) {
    base + |row| <= |root| && forall p :: 0 <= p < |row| ==> root[base + p] == row[p].component
  }

  /** Positions that repeat a label of their own row add nothing. */
  lemma {:induction false} SkipRepeats(root: seq<nat>, base: nat, row: seq<Link>, a: nat, b: nat)
    requires RowAt(root, base, row) && a <= b <= |row|
    requires forall p :: a <= p < b ==> FirstOf(row, row[p].component) != p
    ensures Firsts(root, base + a) == Firsts(root, base + b)
    ensures Labels(root, base + a) == Labels(root, base + b)
  {
    if a < b {
      SkipRepeats(root, base, row, a, b - 1);
      RepeatIsSeen(root, base, row, b - 1);
    }
  }

  lemma RepeatIsSeen(root: seq<nat>, base: nat, row: seq<Link>, p: nat)
    requires RowAt(root, base, row) && p < |row| && FirstOf(row, row[p].component) != p
    ensures root[base + p] in Labels(root, base + p)
    ensures Labels(root, base + p + 1) == Labels(root, base + p)
  {
  }

  lemma RowEnds(rows: Rows, i: nat)
    requires i < |rows|
    ensures At(rows, i, |rows[i]|) == |KeysOf(rows[..i + 1])| <= |KeysOf(rows)|
  {
    assert rows[..i + 1][..i] == rows[..i];
    KeysGrow(rows, i + 1);
  }

  lemma {:induction false} KeysGrow(rows: Rows, i: nat)
    requires i <= |rows|
    ensures |KeysOf(rows[..i])| <= |KeysOf(rows)|
  {
    if i < |rows| {
      var n := |rows| - 1;
      KeysGrow(rows[..n], i);
      assert rows[..n][..i] == rows[..i];
    } else {
      assert rows[..i] == rows;
    }
  }

  /** Where the scan stands before survivor x. */
  function Resume(kept: seq<nat>, x: nat): nat
    requires x <= |kept|
  {
    if x == 0 then 0 else kept[x - 1] + 1
  }

  /** Between two survivors every position repeats a component. */
  ghost predicate Gap(row: seq<Link>, kept: seq<nat>, x: nat)
    requires x <= |kept|
  {
    var low, high := Resume(kept, x), if x == |kept| then |row| else kept[x];
    low <= high <= |row| && (x < |kept| ==> high < |row|)
    && forall p :: low <= p < high ==> FirstOf(row, row[p].component) != p
  }

  ghost predicate Gaps(row: seq<Link>, kept: seq<nat>) {
    forall x {:trigger Gap(row, kept, x)} :: 0 <= x <= |kept| ==> Gap(row, kept, x)
  }

  /** A position between two neighbours of an increasing list is not on it. */
  lemma NotKept(kept: seq<nat>, x: nat, p: nat)
    requires forall y, z :: 0 <= y < z < |kept| ==> kept[y] < kept[z]
    requires x <= |kept| && Resume(kept, x) <= p && (x < |kept| ==> p < kept[x])
    ensures p !in kept
  {
  }

  lemma CappedGaps(row: seq<Link>)
    ensures Gaps(row, Capped(row, |row|))
  {
    KeptSize(row, |row|);
    KeptFacts(row, |row|);
    var kept := Kept(row, |row|);
    forall x | 0 <= x <= |kept|
      ensures Gap(row, kept, x)
    {
      var low, high := Resume(kept, x), if x == |kept| then |row| else kept[x];
      forall p | low <= p < high
        ensures FirstOf(row, row[p].component) != p
      {
        NotKept(kept, x, p);
      }
    }
  }

  /** One survivor of a row: it is picked exactly when its label is new. */
  lemma StepRow(row: seq<Link>, kept: seq<nat>, x: nat, root: seq<nat>, base: nat)
    requires RowAt(root, base, row) && x < |kept| && Gap(row, kept, x)
    ensures var p := kept[x];
      && Labels(root, base + p + 1) == Labels(root, base + Resume(kept, x)) + {row[p].component}
      && Firsts(root, base + p + 1) == Firsts(root, base + Resume(kept, x))
          + (if row[p].component in Labels(root, base + Resume(kept, x)) then [] else [base + p])
  {
    SkipRepeats(root, base, row, Resume(kept, x), kept[x]);
  }

  /** The picks made in this row match the flat positions added. */
  ghost predicate Added(row: seq<Link>, i: nat, base: nat, before: seq<Pick>, start: seq<nat>, picks: seq<Pick>, flat: seq<nat>) {
    && |picks| == |flat| && before <= picks && start <= flat
    && forall k :: |before| <= k < |picks| ==> picks[k].row == i && picks[k].place < |row| && flat[k] == base + picks[k].place
  }

  lemma AddedStep(row: seq<Link>, i: nat, base: nat, before: seq<Pick>, start: seq<nat>, picks: seq<Pick>, flat: seq<nat>, p: nat)
    requires Added(row, i, base, before, start, picks, flat) && p < |row|
    ensures Added(row, i, base, before, start, picks + [Pick(i, p)], flat + [base + p])
  {
  }

  /** A survivor with a new label is picked, and one without changes nothing. */
  lemma GreedyStep(row: seq<Link>, kept: seq<nat>, x: nat, i: nat, root: seq<nat>, base: nat, before: seq<Pick>, picks: seq<Pick>)
    requires RowAt(root, base, row) && Gaps(row, kept) && x < |kept| && base + Resume(kept, x) <= base + |row|
    requires Added(row, i, base, before, Firsts(root, base), picks, Firsts(root, base + Resume(kept, x)))
    ensures var p := kept[x];
      && p < |row| && Resume(kept, x + 1) == p + 1
      && Labels(root, base + p + 1) == Labels(root, base + Resume(kept, x)) + {row[p].component}
      && Added(row, i, base, before, Firsts(root, base),
               if row[p].component in Labels(root, base + Resume(kept, x)) then picks else picks + [Pick(i, p)], Firsts(root, base + p + 1))
  {
    assert Gap(row, kept, x) && Gap(row, kept, x + 1);
    StepRow(row, kept, x, root, base);
    AddedStep(row, i, base, before, Firsts(root, base), picks, Firsts(root, base + Resume(kept, x)), kept[x]);
  }

  /** Walk the deduplicated candidates of one row until the target is met. */
  method GreedyRow(row: seq<Link>, kept: seq<nat>, i: nat, target: nat, before: seq<Pick>, taken: set<nat>,
                   ghost root: seq<nat>, ghost base: nat)
    returns (picks: seq<Pick>, used: set<nat>, ghost upto: nat)
    requires RowAt(root, base, row) && Gaps(row, kept)
    requires |Firsts(root, base)| == |before| < target && taken == Labels(root, base)
    ensures base <= upto <= base + |row| && Added(row, i, base, before, Firsts(root, base), picks, Firsts(root, upto))
    ensures |picks| == target || (upto == base + |row| && |picks| < target && used == Labels(root, upto))
  {
    picks, used := before, taken;
    assert Gap(row, kept, 0);
    upto := base;
    for x := 0 to |kept|
      invariant upto == base + Resume(kept, x) <= base + |row| && used == Labels(root, upto)
      invariant Added(row, i, base, before, Firsts(root, base), picks, Firsts(root, upto)) && |picks| < target
    {
      var p := kept[x];
      GreedyStep(row, kept, x, i, root, base, before, picks);
      upto := base + p + 1;
      if row[p].component !in used {
        used := used + {row[p].component};
        picks := picks + [Pick(i, p)];
        if |picks| >= target { return; }
      }
    }
    assert Gap(row, kept, |kept|);
    SkipRepeats(root, base, row, Resume(kept, |kept|), |row|);
    upto := base + |row|;
  }

  function PairTarget(resultTarget: int): (t: nat)
    ensures 1 <= t <= 1000
  {
    if resultTarget < 1 then 1 else if resultTarget > 1000 then 1000 else resultTarget
  }

  /** The candidates that are no alias of an earlier one: one for each component. */
  ghost predicate FirstOfComponent(keys: seq<seq<Key>>, c: nat) {
    c < |keys| && forall b: nat :: b < c ==> !Alias(keys, b, c)
  }

  /** The pairs merge publishes the first `target` components in row order, each once. */
  method MergePairs(rows: Rows, resultTarget: int) returns (ranked: Rows, picks: seq<Pick>, ghost firsts: seq<nat>)
    ensures ranked == RankAll(rows)
    ensures forall x, y :: 0 <= x < y < |firsts| ==> firsts[x] < firsts[y]
    ensures forall c: nat :: c in firsts <==> FirstOfComponent(KeysOf(ranked), c)
    ensures var request := if resultTarget < 1 then 1 else if resultTarget > 1000 then 1000 else resultTarget;
      PicksFit(ranked, picks) && Flat(ranked, picks) == if |firsts| <= request then firsts else firsts[..request]
  {
    ranked := RankAll(rows);
    var forest := Components(KeysOf(ranked));
    var root := ReadRoots(forest, ranked);
    ghost var upto;
    picks, upto := GreedyRows(ranked, root, PairTarget(resultTarget));
    firsts := Firsts(root, |root|);
    FirstsPrefix(root, upto, |root|);
    FirstsAreNew(root, |root|);
    FirstsAreFirstOfComponent(ranked, root);
  }

  method GreedyRows(rows: Rows, root: seq<nat>, target: nat) returns (picks: seq<Pick>, ghost upto: nat)
    requires |root| == |KeysOf(rows)| && target >= 1
    ensures upto <= |root| && PicksFit(rows, picks) && Flat(rows, picks) == Firsts(root, upto)
    ensures |picks| == target || (upto == |root| && |picks| < target)
  {
    var used: set<nat> := {};
    var table: Table := RootTable(rows, root, 1);
    picks, upto := [], 0;
    var i := 0;
    while i < |rows| && |picks| < target
      invariant i <= |rows| && upto <= |root| && PicksFit(rows, picks) && Flat(rows, picks) == Firsts(root, upto)
      invariant |picks| == target || (upto == |KeysOf(rows[..i])| && |picks| < target && used == Labels(root, upto))
    {
      RowEnds(rows, i);
      var kept := KeepRow(table[i], |table[i]|);
      CappedGaps(table[i]);
      ghost var before, base := picks, At(rows, i, 0);
      assert upto == base;
      picks, used, upto := GreedyRow(table[i], kept, i, target, picks, used, root, base);
      FlatGrows(rows, table[i], before, Firsts(root, base), picks, Firsts(root, upto), i);
      i := i + 1;
    }
    assert rows[..|rows|] == rows;
  }

  lemma FlatGrows(rows: Rows, row: seq<Link>, before: seq<Pick>, start: seq<nat>, picks: seq<Pick>, flat: seq<nat>, i: nat)
    requires i < |rows| && |row| == |rows[i]| && PicksFit(rows, before) && start == Flat(rows, before)
    requires Added(row, i, At(rows, i, 0), before, start, picks, flat)
    ensures PicksFit(rows, picks) && flat == Flat(rows, picks)
  {
  }

  lemma FirstsAreFirstOfComponent(rows: Rows, root: seq<nat>)
    requires RootsAreAliases(rows, root)
    ensures forall c: nat :: c in Firsts(root, |root|) <==> FirstOfComponent(KeysOf(rows), c)
  {
    FirstsAreNew(root, |root|);
    forall c: nat
      ensures c in Firsts(root, |root|) <==> FirstOfComponent(KeysOf(rows), c)
    {
      if FirstOfComponent(KeysOf(rows), c) {
        assert root[c] !in Labels(root, c);
        NewIsListed(root, |root|, c);
      }
    }
  }

  /** No alias-free list of candidates is longer than the list of first ones: the pairs merge is
      short of its target only when the components run out. */
  lemma {:induction false} FirstsAreMost(keys: seq<seq<Key>>, firsts: seq<nat>, others: seq<nat>)
    requires forall c: nat :: c in firsts <==> FirstOfComponent(keys, c)
    requires forall x :: 0 <= x < |others| ==> others[x] < |keys|
    requires forall x, y :: 0 <= x < y < |others| ==> !Alias(keys, others[x], others[y])
    ensures |others| <= |firsts|
  {
    var reps: seq<nat> := seq(|others|, x requires 0 <= x < |others| => Representative(keys, others[x]));
    forall x, y | 0 <= x < y < |reps|
      ensures reps[x] != reps[y]
    {
      AliasSym(keys, reps[y], others[y]);
      if reps[x] == reps[y] {
        AliasSym(keys, reps[x], others[x]);
        AliasTrans(keys, others[x], reps[x], others[y]);
      }
    }
    forall x | 0 <= x < |reps| ensures reps[x] in firsts {}
    DistinctWithin(reps, firsts);
  }

  /** The earliest alias of a candidate. */
  ghost function Representative(keys: seq<seq<Key>>, c: nat): (r: nat)
    requires c < |keys|
    ensures FirstOfComponent(keys, r) && Alias(keys, r, c)
  {
    if b: nat :| b < c && Alias(keys, b, c) then
      var r := Representative(keys, b);
      AliasTrans(keys, r, b, c);
      r
    else
      AliasRefl(keys, c);
      c
  }

  function Elements(a: seq<nat>): set<nat> { set x | x in a }

  lemma DistinctWithin(a: seq<nat>, b: seq<nat>)
    requires forall x, y :: 0 <= x < y < |a| ==> a[x] != a[y]
    requires forall x :: 0 <= x < |a| ==> a[x] in b
    ensures |a| <= |b|
  {
    SetOfDistinct(a);
    SetOfAny(b);
    SubsetSize(Elements(a), Elements(b));
  }

  lemma {:induction false} SetOfDistinct(a: seq<nat>)
    requires forall x, y :: 0 <= x < y < |a| ==> a[x] != a[y]
    ensures |Elements(a)| == |a|
  {
    if a == [] {
      assert Elements(a) == {};
    } else {
      var init := a[..|a| - 1];
      SetOfDistinct(init);
      assert Elements(a) == Elements(init) + {a[|a| - 1]};
    }
  }

  lemma {:induction false} SetOfAny(a: seq<nat>)
    ensures |Elements(a)| <= |a|
  {
    if a == [] {
      assert Elements(a) == {};
    } else {
      var init := a[..|a| - 1];
      SetOfAny(init);
      assert Elements(a) == Elements(init) + {a[|a| - 1]};
    }
  }
}
