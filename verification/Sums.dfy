/** Sums over sequences, and the one fact about matchings that weak duality needs. */
module Sums {

  function Sum(s: seq<int>): int {
    if s == [] then 0 else Sum(s[..|s| - 1]) + s[|s| - 1]
  }

  /** How many entries of a choice vector are taken (non-negative). */
  function Taken(picks: seq<int>): (n: nat)
    ensures n <= |picks|
  {
    if picks == [] then 0
    else Taken(picks[..|picks| - 1]) + (if picks[|picks| - 1] >= 0 then 1 else 0)
  }

  /** The sum of v at every place that is picked. */
  function SumAt(v: seq<int>, picks: seq<int>): int
    requires forall i :: 0 <= i < |picks| ==> picks[i] < |v|
  {
    if picks == [] then 0
    else SumAt(v, picks[..|picks| - 1]) + (if picks[|picks| - 1] >= 0 then v[picks[|picks| - 1]] else 0)
  }

  /** A fee, once for every pick. */
  function Fees(fee: int, picks: seq<int>): int {
    if picks == [] then 0
    else Fees(fee, picks[..|picks| - 1]) + (if picks[|picks| - 1] >= 0 then fee else 0)
  }

  lemma {:induction false} FeesAreProduct(fee: int, picks: seq<int>)
    ensures Fees(fee, picks) == fee * Taken(picks)
  {
    if picks != [] {
      var init := picks[..|picks| - 1];
      FeesAreProduct(fee, init);
      assert fee * (Taken(init) + 1) == fee * Taken(init) + fee;
    }
  }

  ghost predicate Injective(picks: seq<int>) {
    forall i, j :: 0 <= i < j < |picks| && picks[i] >= 0 && picks[j] >= 0 ==> picks[i] != picks[j]
  }

  lemma {:induction false} SumUpdate(s: seq<int>, k: nat, x: int)
    requires k < |s|
    ensures Sum(s[k := x]) == Sum(s) - s[k] + x
  {
    var init, t := s[..|s| - 1], s[k := x];
    if k == |s| - 1 {
      assert t[..|t| - 1] == init;
    } else {
      SumUpdate(init, k, x);
      assert t[..|t| - 1] == init[k := x];
    }
  }

  lemma {:induction false} SumNonNegative(s: seq<int>)
    requires forall i :: 0 <= i < |s| ==> s[i] >= 0
    ensures Sum(s) >= 0
  {
    if s != [] { SumNonNegative(s[..|s| - 1]); }
  }

  lemma {:induction false} SumZero(s: seq<int>)
    requires forall i :: 0 <= i < |s| ==> s[i] == 0
    ensures Sum(s) == 0
  {
    if s != [] { SumZero(s[..|s| - 1]); }
  }

  lemma {:induction false} SumAtFrame(v: seq<int>, c: nat, picks: seq<int>)
    requires c < |v|
    requires forall i :: 0 <= i < |picks| ==> picks[i] < |v| && picks[i] != c
    ensures SumAt(v, picks) == SumAt(v[c := 0], picks)
  {
    if picks != [] { SumAtFrame(v, c, picks[..|picks| - 1]); }
  }

  /** Distinct places cannot collect more than the whole of v, and they collect all of it
      when v is zero everywhere else. */
  lemma {:induction false} Cover(v: seq<int>, picks: seq<int>)
    requires forall i :: 0 <= i < |picks| ==> picks[i] < |v|
    requires forall j :: 0 <= j < |v| ==> v[j] >= 0
    requires Injective(picks)
    decreases |picks|
    ensures SumAt(v, picks) <= Sum(v)
    ensures (forall j :: 0 <= j < |v| && v[j] != 0 ==> j in picks) ==> SumAt(v, picks) == Sum(v)
  {
    if picks == [] {
      SumNonNegative(v);
      if forall j :: 0 <= j < |v| && v[j] != 0 ==> j in picks { SumZero(v); }
    } else {
      var init, c := picks[..|picks| - 1], picks[|picks| - 1];
      assert picks == init + [c];
      if c < 0 {
        Cover(v, init);
      } else {
        SumAtFrame(v, c, init);
        Cover(v[c := 0], init);
        SumUpdate(v, c, 0);
      }
    }
  }

  /** Weak duality: with a price u on every row, v on every place and fee on every pick,
      no injective choice is worth more than all the prices together. */
  lemma {:induction false} WeakDuality(picks: seq<int>, w: seq<int>, u: seq<int>, v: seq<int>, fee: int)
    requires |picks| == |w| == |u|
    requires forall i :: 0 <= i < |picks| ==> picks[i] < |v| && u[i] >= 0
    requires forall j :: 0 <= j < |v| ==> v[j] >= 0
    requires Injective(picks)
    requires forall i :: 0 <= i < |picks| ==>
      if picks[i] >= 0 then w[i] <= u[i] + v[picks[i]] + fee else w[i] == 0
    ensures Sum(w) <= Sum(u) + Sum(v) + fee * Taken(picks)
  {
    Rowwise(picks, w, u, v, fee);
    FeesAreProduct(fee, picks);
    Cover(v, picks);
  }

  lemma {:induction false} Rowwise(picks: seq<int>, w: seq<int>, u: seq<int>, v: seq<int>, fee: int)
    requires |picks| == |w| == |u|
    requires forall i :: 0 <= i < |picks| ==> picks[i] < |v| && u[i] >= 0
    requires forall i :: 0 <= i < |picks| ==>
      if picks[i] >= 0 then w[i] <= u[i] + v[picks[i]] + fee else w[i] == 0
    ensures Sum(w) <= Sum(u) + SumAt(v, picks) + Fees(fee, picks)
    ensures (forall i :: 0 <= i < |picks| ==>
      w[i] == u[i] + (if picks[i] >= 0 then v[picks[i]] + fee else 0))
      ==> Sum(w) == Sum(u) + SumAt(v, picks) + Fees(fee, picks)
  {
    var n := |picks| - 1;
    if n >= 0 {
      Rowwise(picks[..n], w[..n], u[..n], v, fee);
    }
  }

  /** Strong duality: a choice that meets every price exactly is worth all of them. */
  lemma {:induction false} TightDuality(picks: seq<int>, w: seq<int>, u: seq<int>, v: seq<int>, fee: int)
    requires |picks| == |w| == |u|
    requires forall i :: 0 <= i < |picks| ==> picks[i] < |v| && u[i] >= 0
    requires forall j :: 0 <= j < |v| ==> v[j] >= 0
    requires Injective(picks)
    requires forall i :: 0 <= i < |picks| ==>
      if picks[i] >= 0 then w[i] == u[i] + v[picks[i]] + fee else w[i] == 0 && u[i] == 0
    requires forall j :: 0 <= j < |v| && v[j] != 0 ==> j in picks
    ensures Sum(w) == Sum(u) + Sum(v) + fee * Taken(picks)
  {
    Rowwise(picks, w, u, v, fee);
    FeesAreProduct(fee, picks);
    Cover(v, picks);
  }
}
