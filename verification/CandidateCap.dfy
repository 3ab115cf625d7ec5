/** Keeping one candidate per component and the best twenty of a row loses no assignment. */
module CandidateCap {
  import opened Collections
  import opened Sums
  import opened AssignmentNetwork

  /** Benefits never rise along a row. */
  ghost predicate Descending(table: Table) {
    forall i, p, q :: 0 <= i < |table| && 0 <= p <= q < |table[i]| ==> table[i][p].benefit >= table[i][q].benefit
  }

  /** Where the first link with this component stands; |row| when there is none. */
  function FirstOf(row: seq<Link>, component: nat): (p: nat)
    ensures p <= |row|
    ensures p < |row| ==> row[p].component == component
    ensures forall q :: 0 <= q < p ==> row[q].component != component
  {
    if row == [] || row[0].component == component then 0 else 1 + FirstOf(row[1..], component)
  }

  /** The positions that survive: the first link of each component, in order. */
  function Kept(row: seq<Link>, upto: nat): (r: seq<nat>)
    requires upto <= |row|
    ensures forall x :: 0 <= x < |r| ==> r[x] < upto
  {
    if upto == 0 then []
    else if FirstOf(row, row[upto - 1].component) == upto - 1 then Kept(row, upto - 1) + [upto - 1]
    else Kept(row, upto - 1)
  }

  /** The positions a row is cut down to. */
  function Capped(row: seq<Link>, cap: nat): (r: seq<nat>)
    ensures |r| <= cap && |r| <= |row|
    ensures forall x :: 0 <= x < |r| ==> r[x] < |row|
  {
    var kept := Kept(row, |row|);
    KeptSize(row, |row|);
    if |kept| <= cap then kept else kept[..cap]
  }

  /** The survivors are, in rising order, exactly the positions that are first of their component. */
  lemma {:induction false} KeptMember(row: seq<Link>, upto: nat, p: nat)
    requires upto <= |row|
    ensures p in Kept(row, upto) <==> p < upto && FirstOf(row, row[p].component) == p
  {
    if upto > 0 {
      KeptMember(row, upto - 1, p);
      InSnoc(Kept(row, upto - 1), upto - 1);
    }
  }

  lemma KeptMembers(row: seq<Link>, upto: nat)
    requires upto <= |row|
    ensures forall p: nat :: p in Kept(row, upto) <==> p < upto && FirstOf(row, row[p].component) == p
  {
    forall p: nat
      ensures p in Kept(row, upto) <==> p < upto && FirstOf(row, row[p].component) == p
    {
      KeptMember(row, upto, p);
    }
  }

  lemma {:induction false} KeptAscends(row: seq<Link>, upto: nat)
    requires upto <= |row|
    ensures forall x, y :: 0 <= x < y < |Kept(row, upto)| ==> Kept(row, upto)[x] < Kept(row, upto)[y]
    ensures forall x :: 0 <= x < |Kept(row, upto)| ==> Kept(row, upto)[x] < upto
  {
    if upto > 0 {
      KeptAscends(row, upto - 1);
      var init, r := Kept(row, upto - 1), Kept(row, upto);
      assert r == init || r == init + [upto - 1];
    }
  }

  lemma KeptFacts(row: seq<Link>, upto: nat)
    requires upto <= |row|
    ensures forall x, y :: 0 <= x < y < |Kept(row, upto)| ==> Kept(row, upto)[x] < Kept(row, upto)[y]
    ensures forall p: nat :: p in Kept(row, upto) <==> p < upto && FirstOf(row, row[p].component) == p
  {
    KeptMembers(row, upto);
    KeptAscends(row, upto);
  }

  lemma InSnoc(s: seq<nat>, k: nat)
    ensures forall p: nat :: p in s + [k] <==> p in s || p == k
  {
  }

  lemma {:induction false} KeptSize(row: seq<Link>, upto: nat)
    requires upto <= |row|
    ensures |Kept(row, upto)| <= upto
  {
    if upto > 0 { KeptSize(row, upto - 1); }
  }

  /** The table of the surviving links. */
  function Thin(table: Table, keep: seq<seq<nat>>): (r: Table)
    requires |keep| == |table|
    requires forall i, x :: 0 <= i < |table| && 0 <= x < |keep[i]| ==> keep[i][x] < |table[i]|
    ensures |r| == |table|
    ensures forall i :: 0 <= i < |table| ==> |r[i]| == |keep[i]|
    ensures forall i, x :: 0 <= i < |table| && 0 <= x < |keep[i]| ==> r[i][x] == table[i][keep[i][x]]
  {
    seq(|table|, i requires 0 <= i < |table| =>
      seq(|keep[i]|, x requires 0 <= x < |keep[i]| => table[i][keep[i][x]]))
  }

  function AllCapped(table: Table, cap: nat): (r: seq<seq<nat>>)
    ensures |r| == |table|
    ensures forall i :: 0 <= i < |table| ==> r[i] == Capped(table[i], cap)
  {
    seq(|table|, i requires 0 <= i < |table| => Capped(table[i], cap))
  }

  /** A choice from the thinned table, read in the original one. */
  function Widen(keep: seq<seq<nat>>, choice: seq<int>): (r: seq<int>)
    requires |choice| == |keep| && forall i :: 0 <= i < |choice| ==> choice[i] < |keep[i]|
    ensures |r| == |choice|
  {
    seq(|choice|, i requires 0 <= i < |choice| => if choice[i] < 0 then -1 else keep[i][choice[i]] as int)
  }

  lemma {:induction false} TakenSame(a: seq<int>, b: seq<int>)
    requires |a| == |b| && forall i :: 0 <= i < |a| ==> (a[i] >= 0 <==> b[i] >= 0)
    ensures Taken(a) == Taken(b)
  {
    if a != [] { TakenSame(a[..|a| - 1], b[..|b| - 1]); }
  }

  lemma {:induction false} SumMonotone(a: seq<int>, b: seq<int>)
    requires |a| == |b| && forall i :: 0 <= i < |a| ==> a[i] <= b[i]
    ensures Sum(a) <= Sum(b)
  {
    if a != [] { SumMonotone(a[..|a| - 1], b[..|b| - 1]); }
  }

  /** A choice from the thinned table is a choice from the original one, with the same worth. */
  lemma WidenedChoice(table: Table, keep: seq<seq<nat>>, choice: seq<int>)
    requires |keep| == |table|
    requires forall i, x :: 0 <= i < |table| && 0 <= x < |keep[i]| ==> keep[i][x] < |table[i]|
    requires IsChoice(Thin(table, keep), choice)
    ensures IsChoice(table, Widen(keep, choice))
    ensures Taken(Widen(keep, choice)) == Taken(choice)
    ensures Worth(table, Widen(keep, choice)) == Worth(Thin(table, keep), choice)
  {
    var wide := Widen(keep, choice);
    assert Places(table, wide) == Places(Thin(table, keep), choice);
    assert Benefits(table, wide) == Benefits(Thin(table, keep), choice);
    TakenSame(wide, choice);
  }

  // ---- first links only ----

  /** Moving every row to the first link of its component keeps the places and loses no worth. */
  lemma ToFirst(table: Table, choice: seq<int>) returns (r: seq<int>)
    requires IsChoice(table, choice) && Descending(table)
    ensures IsChoice(table, r) && Taken(r) == Taken(choice) && Worth(table, r) >= Worth(table, choice)
    ensures forall i :: 0 <= i < |r| && r[i] >= 0 ==> r[i] == FirstOf(table[i], table[i][r[i]].component)
  {
    r := seq(|choice|, i requires 0 <= i < |choice| =>
      if choice[i] < 0 then -1 else FirstOf(table[i], table[i][choice[i]].component));
    forall i | 0 <= i < |choice| && choice[i] >= 0
      ensures r[i] <= choice[i] && table[i][r[i]].component == table[i][choice[i]].component
    {
      assert FirstOf(table[i], table[i][choice[i]].component) <= choice[i];
    }
    assert Places(table, r) == Places(table, choice);
    TakenSame(r, choice);
    SumMonotone(Benefits(table, choice), Benefits(table, r));
  }

  // ---- the cap ----

  function PlaceSet(places: seq<int>): (s: set<int>) {
    set i | 0 <= i < |places| && places[i] >= 0 :: places[i]
  }

  lemma {:induction false} PlaceSetSize(places: seq<int>)
    ensures |PlaceSet(places)| <= Taken(places)
  {
    if places == [] {
      assert PlaceSet(places) == {};
    } else {
      var init, c := places[..|places| - 1], places[|places| - 1];
      PlaceSetSize(init);
      if c >= 0 {
        assert PlaceSet(places) == PlaceSet(init) + {c};
      } else {
        assert PlaceSet(places) == PlaceSet(init);
      }
    }
  }

  /** The components of the first n survivors of a row. */
  function KeptComponents(row: seq<Link>, kept: seq<nat>): (s: set<int>)
    requires forall x :: 0 <= x < |kept| ==> kept[x] < |row|
  {
    set x | 0 <= x < |kept| :: row[kept[x]].component
  }

  lemma {:induction false} KeptComponentsSize(row: seq<Link>, kept: seq<nat>)
    requires forall x :: 0 <= x < |kept| ==> kept[x] < |row|
    requires forall x, y :: 0 <= x < y < |kept| ==> row[kept[x]].component != row[kept[y]].component
    ensures |KeptComponents(row, kept)| == |kept|
  {
    if kept == [] {
      assert KeptComponents(row, kept) == {};
    } else {
      var init, c := kept[..|kept| - 1], row[kept[|kept| - 1]].component;
      KeptComponentsSize(row, init);
      assert KeptComponents(row, kept) == KeptComponents(row, init) + {c as int};
      assert c !in KeptComponents(row, init);
    }
  }

  /** Twenty survivors cannot all be taken by fewer other rows: one of them is free. */
  lemma FreeSurvivor(row: seq<Link>, kept: seq<nat>, others: seq<int>) returns (x: nat)
    requires forall x :: 0 <= x < |kept| ==> kept[x] < |row|
    requires forall x, y :: 0 <= x < y < |kept| ==> row[kept[x]].component != row[kept[y]].component
    requires Taken(others) < |kept|
    ensures x < |kept| && row[kept[x]].component !in others
  {
    KeptComponentsSize(row, kept);
    PlaceSetSize(others);
    if forall x :: 0 <= x < |kept| ==> row[kept[x]].component in others {
      forall c | c in KeptComponents(row, kept)
        ensures c in PlaceSet(others)
      {
      }
      SubsetSize(KeptComponents(row, kept), PlaceSet(others));
      assert false;
    }
    x :| 0 <= x < |kept| && row[kept[x]].component !in others;
  }

  lemma {:induction false} TakenDrop(picks: seq<int>, i: nat)
    requires i < |picks| && picks[i] >= 0
    ensures Taken(picks[i := -1]) == Taken(picks) - 1
  {
    var n := |picks| - 1;
    if i == n {
      assert picks[i := -1][..n] == picks[..n];
    } else {
      TakenDrop(picks[..n], i);
      assert picks[i := -1][..n] == picks[..n][i := -1];
    }
  }

  /** Row i may take any link whose component no other row holds. */
  lemma Retake(table: Table, choice: seq<int>, i: nat, p: nat)
    requires IsChoice(table, choice) && i < |table| && p < |table[i]| && choice[i] >= 0
    requires table[i][p].component !in Places(table, choice)[i := -1]
    requires table[i][p].benefit >= table[i][choice[i]].benefit
    ensures IsChoice(table, choice[i := p]) && Taken(choice[i := p]) == Taken(choice)
    ensures Worth(table, choice[i := p]) >= Worth(table, choice)
  {
    var r, others := choice[i := p], Places(table, choice)[i := -1];
    assert Places(table, r) == others[i := table[i][p].component];
    forall j | 0 <= j < |others| && others[j] >= 0
      ensures others[j] != table[i][p].component
    {
      assert others[j] in others;
    }
    TakenSame(r, choice);
    SumMonotone(Benefits(table, choice), Benefits(table, r));
  }

  lemma PrefixHolds(kept: seq<nat>, survivors: seq<nat>, y: nat)
    requires survivors <= kept && y < |kept|
    ensures y < |survivors| ==> kept[y] in survivors
  {
  }

  /** A first link outside the cap has a full cap of survivors before it. */
  lemma OutsideCap(row: seq<Link>, cap: nat, p: nat)
    requires p < |row| && p == FirstOf(row, row[p].component) && p !in Capped(row, cap)
    ensures |Capped(row, cap)| == cap
    ensures forall x :: 0 <= x < cap ==> Capped(row, cap)[x] < p
    ensures forall x, y :: 0 <= x < y < cap ==> row[Capped(row, cap)[x]].component != row[Capped(row, cap)[y]].component
  {
    KeptFacts(row, |row|);
    var kept, survivors := Kept(row, |row|), Capped(row, cap);
    assert p in kept;
    var y :| 0 <= y < |kept| && kept[y] == p;
    assert survivors == if |kept| <= cap then kept else kept[..cap];
    PrefixHolds(kept, survivors, y);
    assert y >= |survivors| == cap;
    forall x, z | 0 <= x < z < cap
      ensures row[survivors[x]].component != row[survivors[z]].component
    {
      assert survivors[x] == kept[x] && survivors[z] == kept[z];
      assert kept[x] in kept && kept[z] in kept;
    }
  }

  /** Row i can be moved inside its cap: some survivor is free and worth no less. */
  lemma MoveIntoCap(table: Table, cap: nat, choice: seq<int>, i: nat) returns (p: nat)
    requires IsChoice(table, choice) && Descending(table) && Taken(choice) <= cap && i < |table|
    requires choice[i] >= 0 && choice[i] == FirstOf(table[i], table[i][choice[i]].component)
    requires choice[i] !in Capped(table[i], cap)
    ensures p < |table[i]| && p in Capped(table[i], cap)
    ensures IsChoice(table, choice[i := p]) && Taken(choice[i := p]) == Taken(choice)
    ensures Worth(table, choice[i := p]) >= Worth(table, choice)
  {
    var survivors := Capped(table[i], cap);
    OutsideCap(table[i], cap, choice[i]);
    TakenPlaces(table, choice);
    TakenDrop(Places(table, choice), i);
    var x := FreeSurvivor(table[i], survivors, Places(table, choice)[i := -1]);
    p := survivors[x];
    Retake(table, choice, i, p);
  }

  lemma CappedAreFirst(row: seq<Link>, cap: nat, p: nat)
    requires p in Capped(row, cap)
    ensures p < |row| && p == FirstOf(row, row[p].component)
  {
    KeptFacts(row, |row|);
    assert p in Kept(row, |row|);
  }

  /** Every taken link is the first of its component. */
  ghost predicate AllFirst(table: Table, choice: seq<int>) {
    |choice| == |table| && forall j :: 0 <= j < |choice| && choice[j] >= 0 ==>
      choice[j] < |table[j]| && choice[j] == FirstOf(table[j], table[j][choice[j]].component)
  }

  /** The rows before i take links inside the cap. */
  ghost predicate InCap(table: Table, cap: nat, choice: seq<int>, i: nat) {
    |choice| == |table| && i <= |table| && forall j :: 0 <= j < i && choice[j] >= 0 ==> choice[j] in Capped(table[j], cap)
  }

  lemma MovedRow(table: Table, cap: nat, choice: seq<int>, i: nat, p: nat)
    requires AllFirst(table, choice) && InCap(table, cap, choice, i) && i < |table| && p in Capped(table[i], cap)
    ensures AllFirst(table, choice[i := p]) && InCap(table, cap, choice[i := p], i + 1)
  {
    CappedAreFirst(table[i], cap, p);
  }

  lemma StayedRow(table: Table, cap: nat, choice: seq<int>, i: nat)
    requires InCap(table, cap, choice, i) && i < |table| && (choice[i] < 0 || choice[i] in Capped(table[i], cap))
    ensures InCap(table, cap, choice, i + 1)
  {
  }

  /** The exchange argument: a choice of at most `cap` links can be moved, row by row, inside the cap
      without losing a link or any worth. */
  lemma {:induction false} Exchange(table: Table, cap: nat, choice: seq<int>, i: nat) returns (r: seq<int>)
    requires IsChoice(table, choice) && Descending(table) && Taken(choice) <= cap
    requires AllFirst(table, choice) && InCap(table, cap, choice, i)
    ensures IsChoice(table, r) && Taken(r) == Taken(choice) && Worth(table, r) >= Worth(table, choice)
    ensures InCap(table, cap, r, |table|)
    decreases |table| - i
  {
    if i == |table| {
      r := choice;
    } else if choice[i] < 0 || choice[i] in Capped(table[i], cap) {
      StayedRow(table, cap, choice, i);
      r := Exchange(table, cap, choice, i + 1);
    } else {
      var p := MoveIntoCap(table, cap, choice, i);
      MovedRow(table, cap, choice, i, p);
      r := Exchange(table, cap, choice[i := p], i + 1);
    }
  }

  /** Every choice of at most `cap` links has a counterpart in the capped table: as many links,
      worth no less. */
  lemma CapLosesNothing(table: Table, cap: nat, choice: seq<int>) returns (r: seq<int>)
    requires IsChoice(table, choice) && Descending(table) && Taken(choice) <= cap
    ensures var thin := Thin(table, AllCapped(table, cap));
      IsChoice(thin, r) && Taken(r) == Taken(choice) && Worth(thin, r) >= Worth(table, choice)
  {
    var first := ToFirst(table, choice);
    var moved := Exchange(table, cap, first, 0);
    r := Narrow(table, cap, moved);
  }

  /** A choice inside the cap, read in the capped table. */
  lemma Narrow(table: Table, cap: nat, choice: seq<int>) returns (r: seq<int>)
    requires IsChoice(table, choice) && InCap(table, cap, choice, |table|)
    ensures var thin := Thin(table, AllCapped(table, cap));
      IsChoice(thin, r) && Taken(r) == Taken(choice) && Worth(thin, r) == Worth(table, choice)
  {
    var keep := AllCapped(table, cap);
    r := seq(|choice|, i requires 0 <= i < |choice| => if choice[i] < 0 then -1 else Position(keep[i], choice[i]));
    assert Places(Thin(table, keep), r) == Places(table, choice);
    assert Benefits(Thin(table, keep), r) == Benefits(table, choice);
    TakenSame(r, choice);
  }

  function Position(s: seq<nat>, x: int): (p: int)
    ensures -1 <= p < |s|
    ensures x in s ==> p >= 0 && s[p] == x
  {
    if s == [] then -1
    else if s[|s| - 1] == x then |s| - 1
    else Position(s[..|s| - 1], x)
  }

  /** Dropping links leaves a choice. */
  lemma {:induction false} Shrink(table: Table, choice: seq<int>, size: nat) returns (r: seq<int>)
    requires IsChoice(table, choice) && size <= Taken(choice)
    ensures IsChoice(table, r) && Taken(r) == size
    decreases Taken(choice)
  {
    if size == Taken(choice) {
      r := choice;
    } else {
      var i := SomeTaken(choice);
      TakenDrop(choice, i);
      var fewer := choice[i := -1];
      assert Places(table, fewer) == Places(table, choice)[i := -1];
      r := Shrink(table, fewer, size);
    }
  }

  lemma {:induction false} SomeTaken(picks: seq<int>) returns (i: nat)
    requires Taken(picks) > 0
    ensures i < |picks| && picks[i] >= 0
  {
    if picks[|picks| - 1] >= 0 { i := |picks| - 1; } else { i := SomeTaken(picks[..|picks| - 1]); }
  }
}
