/** Rival alias components: a path-compressing union-find over shared constraint keys. */
module AliasComponents {

  type Key = string

  ghost predicate Share(keys: seq<seq<Key>>, i: nat, j: nat) {
    i < |keys| && j < |keys| && exists k :: k in keys[i] && k in keys[j]
  }

  /** A walk in which neighbours share a constraint key. */
  ghost predicate Chain(keys: seq<seq<Key>>, p: seq<nat>) {
    && p != [] && (forall x :: 0 <= x < |p| ==> p[x] < |keys|)
    && forall x :: 0 <= x < |p| - 1 ==> Share(keys, p[x], p[x + 1])
  }

  /** Two candidates are aliases when a chain of shared keys joins them. */
  ghost predicate Alias(keys: seq<seq<Key>>, i: nat, j: nat) {
    exists p :: Chain(keys, p) && p[0] == i && p[|p| - 1] == j
  }

  lemma AliasRefl(keys: seq<seq<Key>>, i: nat)
    requires i < |keys|
    ensures Alias(keys, i, i)
  {
    assert Chain(keys, [i]) && [i][0] == i;
  }

  lemma AliasStep(keys: seq<seq<Key>>, i: nat, j: nat)
    requires Share(keys, i, j)
    ensures Alias(keys, i, j)
  {
    var p := [i, j];
    assert Chain(keys, p) && p[0] == i && p[|p| - 1] == j;
  }

  lemma {:induction false} Reverse(keys: seq<seq<Key>>, p: seq<nat>) returns (q: seq<nat>)
    requires Chain(keys, p)
    ensures Chain(keys, q) && q[0] == p[|p| - 1] && q[|q| - 1] == p[0]
  {
    if |p| == 1 {
      q := p;
    } else {
      var r := Reverse(keys, p[1..]);
      assert Share(keys, p[0], p[1]);
      q := r + [p[0]];
    }
  }

  lemma AliasSym(keys: seq<seq<Key>>, i: nat, j: nat)
    requires Alias(keys, i, j)
    ensures Alias(keys, j, i)
  {
    var p :| Chain(keys, p) && p[0] == i && p[|p| - 1] == j;
    var q := Reverse(keys, p);
  }

  lemma AliasTrans(keys: seq<seq<Key>>, i: nat, j: nat, k: nat)
    requires Alias(keys, i, j) && Alias(keys, j, k)
    ensures Alias(keys, i, k)
  {
    var p :| Chain(keys, p) && p[0] == i && p[|p| - 1] == j;
    var q :| Chain(keys, q) && q[0] == j && q[|q| - 1] == k;
    var r := p + q[1..];
    forall x | 0 <= x < |r| - 1
      ensures Share(keys, r[x], r[x + 1])
    {
      if x < |p| - 1 {
        assert Share(keys, p[x], p[x + 1]);
      } else {
        assert r[x] == q[x - (|p| - 1)];
        assert Share(keys, q[x - (|p| - 1)], q[x - (|p| - 1) + 1]);
      }
    }
    assert Chain(keys, r);
  }

  /** Labels that agree on every shared key agree along every chain. */
  lemma {:induction false} ChainLabels(keys: seq<seq<Key>>, tag: seq<nat>, p: seq<nat>)
    requires |tag| == |keys| && Chain(keys, p)
    requires forall i: nat, j: nat :: Share(keys, i, j) ==> tag[i] == tag[j]
    ensures tag[p[0]] == tag[p[|p| - 1]]
  {
    if |p| > 1 {
      assert Share(keys, p[0], p[1]);
      ChainLabels(keys, tag, p[1..]);
    }
  }

  /** The parent of i climbs in `level` and leads to the root that i is recorded with. */
  ghost predicate Node(parents: seq<nat>, root: seq<nat>, level: seq<nat>, height: nat, i: nat)
    requires |parents| == |root| == |level| && i < |parents|
  {
    && level[i] <= height
    && parents[i] < |parents| && root[i] < |parents|
    && parents[root[i]] == root[i] && root[root[i]] == root[i] && root[parents[i]] == root[i]
    && (parents[i] == i ==> root[i] == i)
    && (parents[i] != i ==> level[i] < level[parents[i]])
    && (root[i] != i ==> level[i] < level[root[i]])
  }

  ghost predicate Rooted(parents: seq<nat>, root: seq<nat>, level: seq<nat>, height: nat) {
    && |parents| == |root| == |level|
    && forall i {:trigger Node(parents, root, level, height, i)} :: 0 <= i < |parents| ==> Node(parents, root, level, height, i)
  }

  /** Pointing a node straight at its root keeps everything. */
  lemma CompressKeepsRooted(parents: seq<nat>, root: seq<nat>, level: seq<nat>, height: nat, index: nat)
    requires Rooted(parents, root, level, height) && index < |parents|
    ensures root[index] < |parents| && Rooted(parents[index := root[index]], root, level, height)
  {
    assert Node(parents, root, level, height, index);
    var after := parents[index := root[index]];
    forall i | 0 <= i < |after|
      ensures Node(after, root, level, height, i)
    {
      assert Node(parents, root, level, height, i);
    }
  }

  ghost function Relabel(root: seq<nat>, right: nat, left: nat): (r: seq<nat>)
    ensures |r| == |root|
  {
    seq(|root|, i requires 0 <= i < |root| => if root[i] == right then left else root[i])
  }

  /** Hanging one root below another, lifted above it, keeps everything. */
  lemma HangKeepsRooted(parents: seq<nat>, root: seq<nat>, level: seq<nat>, height: nat, left: nat, right: nat)
    requires Rooted(parents, root, level, height) && left < |parents| && right < |parents| && left != right
    requires parents[left] == left && parents[right] == right
    ensures var lifted := if level[right] >= level[left] then level[right] + 1 else level[left];
      Rooted(parents[right := left], Relabel(root, right, left), level[left := lifted],
             if lifted > height then lifted else height)
  {
    var lifted := if level[right] >= level[left] then level[right] + 1 else level[left];
    var top := if lifted > height then lifted else height;
    assert Node(parents, root, level, height, left) && Node(parents, root, level, height, right);
    var after, roots, levels := parents[right := left], Relabel(root, right, left), level[left := lifted];
    forall i | 0 <= i < |after|
      ensures Node(after, roots, levels, top, i)
    {
      assert Node(parents, root, level, height, i);
      assert Node(parents, root, level, height, parents[i]);
      assert Node(parents, root, level, height, root[i]);
    }
  }

  class Forest {
    var parents: array<nat>
    ghost var root: seq<nat>
    ghost var level: seq<nat>
    ghost var height: nat

    ghost predicate Valid()
      reads this, parents
    {
      Rooted(parents[..], root, level, height)
    }

    constructor (n: nat)
      ensures Valid() && fresh(parents) && parents.Length == n
      ensures forall i :: 0 <= i < n ==> root[i] == i
    {
      parents := new nat[n](i => i);
      root := seq(n, i => i);
      level := seq(n, _ => 0);
      height := 0;
    }

    /** Find the root and compress the path; the roots themselves never move. */
    method FindRoot(index: nat) returns (r: nat)
      requires Valid() && index < parents.Length
      modifies parents
      ensures Valid() && r == root[index] && r < parents.Length && parents[r] == r
      ensures forall i :: 0 <= i < parents.Length && old(parents[i]) == i ==> parents[i] == i
      decreases height - level[index]
    {
      assert Node(parents[..], root, level, height, index);
      if parents[index] == index {
        return index;
      }
      var up := parents[index];
      assert Node(parents[..], root, level, height, up);
      r := FindRoot(up);
      assert Node(parents[..], root, level, height, index);
      CompressKeepsRooted(parents[..], root, level, height, index);
      ghost var before := parents[..];
      parents[index] := r;
      assert parents[..] == before[index := root[index]];
    }

    /** Hang the right root below the left one. */
    method Union(left: nat, right: nat)
      requires Valid() && left < parents.Length && right < parents.Length
      modifies this`root, this`level, this`height, parents
      ensures Valid()
      ensures root == Relabel(old(root), old(root)[right], old(root)[left])
    {
      var leftRoot := FindRoot(left);
      var rightRoot := FindRoot(right);
      if leftRoot != rightRoot {
        HangKeepsRooted(parents[..], root, level, height, leftRoot, rightRoot);
        ghost var before := parents[..];
        parents[rightRoot] := leftRoot;
        assert parents[..] == before[rightRoot := leftRoot];
        ghost var lifted := if level[rightRoot] >= level[leftRoot] then level[rightRoot] + 1 else level[leftRoot];
        level, height := level[leftRoot := lifted], if lifted > height then lifted else height;
        root := Relabel(root, rightRoot, leftRoot);
      }
    }
  }

  /** Progress of the constraint pass: the recorded key owners are represented and nothing was
      merged without a chain. */
  ghost predicate Merged(keys: seq<seq<Key>>, root: seq<nat>, first: map<Key, nat>, upto: nat, slots: nat) {
    && |root| == |keys| && upto <= |keys|
    && (forall k :: k in first ==> first[k] < |keys| && k in keys[first[k]])
    && (forall i, j :: 0 <= i < |root| && 0 <= j < |root| && root[i] == root[j] ==> Alias(keys, i, j))
    && (forall i, s :: 0 <= i < upto && 0 <= s < |keys[i]| ==> keys[i][s] in first && root[first[keys[i][s]]] == root[i])
    && (upto < |keys| ==>
      && slots <= |keys[upto]|
      && forall s :: 0 <= s < slots ==> keys[upto][s] in first && root[first[keys[upto][s]]] == root[upto])
  }

  lemma UnionKeepsAlias(keys: seq<seq<Key>>, before: seq<nat>, left: nat, right: nat)
    requires |before| == |keys| && Share(keys, left, right)
    requires forall i, j :: 0 <= i < |before| && 0 <= j < |before| && before[i] == before[j] ==> Alias(keys, i, j)
    ensures var after := Relabel(before, before[right], before[left]);
      forall i, j :: 0 <= i < |after| && 0 <= j < |after| && after[i] == after[j] ==> Alias(keys, i, j)
  {
    var after := Relabel(before, before[right], before[left]);
    AliasStep(keys, left, right);
    forall i, j | 0 <= i < |after| && 0 <= j < |after| && after[i] == after[j]
      ensures Alias(keys, i, j)
    {
      if before[i] == before[j] {
      } else if before[i] == before[right] {
        assert Alias(keys, i, right) && Alias(keys, left, j);
        AliasSym(keys, left, right);
        AliasTrans(keys, i, right, left);
        AliasTrans(keys, i, left, j);
      } else {
        assert Alias(keys, i, left) && Alias(keys, right, j);
        AliasTrans(keys, i, left, right);
        AliasTrans(keys, i, right, j);
      }
    }
  }

  /** Merging the next key into its first owner is progress. */
  lemma UnionKeepsMerged(keys: seq<seq<Key>>, before: seq<nat>, first: map<Key, nat>, index: nat, s: nat)
    requires Merged(keys, before, first, index, s) && index < |keys| && s < |keys[index]| && keys[index][s] in first
    ensures Merged(keys, Relabel(before, before[index], before[first[keys[index][s]]]), first, index, s + 1)
  {
    UnionKeepsAlias(keys, before, first[keys[index][s]], index);
  }

  /** One candidate of the constraint pass. */
  method Absorb(forest: Forest, keys: seq<seq<Key>>, owners: map<Key, nat>, index: nat) returns (first: map<Key, nat>)
    requires forest.Valid() && index < |keys| && Merged(keys, forest.root, owners, index, 0)
    modifies forest`root, forest`level, forest`height, forest.parents
    ensures forest.Valid() && Merged(keys, forest.root, first, index + 1, 0)
  {
    first := owners;
    for s := 0 to |keys[index]|
      invariant forest.Valid() && Merged(keys, forest.root, first, index, s)
    {
      var key := keys[index][s];
      if key !in first {
        first := first[key := index];
      } else {
        UnionKeepsMerged(keys, forest.root, first, index, s);
        forest.Union(first[key], index);
      }
    }
  }

  /** The whole constraint pass. Two candidates end with the same root exactly when they are aliases. */
  method Components(keys: seq<seq<Key>>) returns (forest: Forest)
    ensures fresh(forest) && fresh(forest.parents) && forest.Valid() && |forest.root| == |keys|
    ensures forall i, j :: 0 <= i < |keys| && 0 <= j < |keys| ==> (forest.root[i] == forest.root[j] <==> Alias(keys, i, j))
  {
    forest := new Forest(|keys|);
    var first: map<Key, nat> := map[];
    forall i | 0 <= i < |keys| ensures Alias(keys, i, i) { AliasRefl(keys, i); }
    for index := 0 to |keys|
      invariant fresh(forest) && fresh(forest.parents) && forest.Valid()
      invariant Merged(keys, forest.root, first, index, 0)
    {
      first := Absorb(forest, keys, first, index);
    }
    MergedIsAlias(keys, forest.root, first);
  }

  lemma MergedIsAlias(keys: seq<seq<Key>>, root: seq<nat>, first: map<Key, nat>)
    requires Merged(keys, root, first, |keys|, 0)
    ensures forall i, j :: 0 <= i < |keys| && 0 <= j < |keys| ==> (root[i] == root[j] <==> Alias(keys, i, j))
  {
    SharedRoots(keys, root, first);
    forall i, j | 0 <= i < |keys| && 0 <= j < |keys| && Alias(keys, i, j)
      ensures root[i] == root[j]
    {
      var p :| Chain(keys, p) && p[0] == i && p[|p| - 1] == j;
      ChainLabels(keys, root, p);
    }
  }

  lemma SharedRoots(keys: seq<seq<Key>>, root: seq<nat>, first: map<Key, nat>)
    requires Merged(keys, root, first, |keys|, 0)
    ensures forall i: nat, j: nat :: Share(keys, i, j) ==> root[i] == root[j]
  {
  }
}
