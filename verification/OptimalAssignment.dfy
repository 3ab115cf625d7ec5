/** What the finished flow means: a choice of links, the largest one within the target, and worth
    at least as much as every other choice of its size. */
module OptimalAssignment {
  import opened Sums
  import opened ResidualNetwork
  import opened ShortestPaths
  import opened AssignmentNetwork
  import opened MinCostFlow

  /** The choice that a flow makes. */
  ghost predicate Makes(net: Network, table: Table, m: nat, lay: Layout, flow: seq<bool>, choice: seq<int>)
    requires Built(net, table, m, lay) && |flow| == |net.arcs|
  {
    && |choice| == |table|
    && (forall i :: 0 <= i < |table| ==> -1 <= choice[i] < |table[i]|)
    && forall i, p :: 0 <= i < |table| && 0 <= p < |table[i]| ==> (flow[lay.pick[i][p]] <==> choice[i] == p)
  }

  ghost predicate Used(net: Network, flow: seq<bool>, a: nat)
    requires |flow| == |net.arcs|
  {
    a < |flow| && flow[a]
  }

  /** A row node passes on what its source arc brings: one link or none. */
  lemma RowFlow(net: Network, table: Table, m: nat, lay: Layout, flow: seq<bool>, i: nat)
    requires Built(net, table, m, lay) && |flow| == |net.arcs| && Conserves(net, flow, 0) && i < |table|
    ensures flow[lay.source[i]] <==> exists p :: 0 <= p < |table[i]| && flow[lay.pick[i][p]]
    ensures forall p, q :: 0 <= p < |table[i]| && 0 <= q < |table[i]| && flow[lay.pick[i][p]] && flow[lay.pick[i][q]] ==> p == q
  {
    var v, src := 1 + i, lay.source[i];
    assert Surplus(net.arcs, flow, v) == 0;
    forall b | 0 <= b < |flow| && Tos(net.arcs)[b] == v
      ensures b == src
    {
      assert Classified(net.arcs, table, m, lay, b);
    }
    LoadOnly(flow, Tos(net.arcs), v, src);
    forall p | 0 <= p < |table[i]| && flow[lay.pick[i][p]]
      ensures flow[src]
    {
      LoadPositive(flow, Froms(net.arcs), v, lay.pick[i][p]);
    }
    forall p, q | 0 <= p < |table[i]| && 0 <= q < |table[i]| && flow[lay.pick[i][p]] && flow[lay.pick[i][q]]
      ensures p == q
    {
      if p != q {
        assert net.arcs[lay.pick[i][p]].pick == p && net.arcs[lay.pick[i][q]].pick == q;
        LoadTwo(flow, Froms(net.arcs), v, lay.pick[i][p], lay.pick[i][q]);
      }
    }
    if flow[src] {
      LoadWitness(flow, Froms(net.arcs), v);
      var a :| 0 <= a < |flow| && flow[a] && Froms(net.arcs)[a] == v;
      assert Classified(net.arcs, table, m, lay, a);
    }
  }

  /** A component node sends to the sink what its links bring: one unit or none. */
  lemma ComponentFlow(net: Network, table: Table, m: nat, lay: Layout, flow: seq<bool>, j: nat)
    requires Built(net, table, m, lay) && |flow| == |net.arcs| && Conserves(net, flow, 0) && j < m
    ensures flow[lay.sink[j]] <==>
      exists i, p :: 0 <= i < |table| && 0 <= p < |table[i]| && table[i][p].component == j && flow[lay.pick[i][p]]
    ensures forall i, p, i', p' ::
      (&& 0 <= i < |table| && 0 <= p < |table[i]| && table[i][p].component == j && flow[lay.pick[i][p]]
       && 0 <= i' < |table| && 0 <= p' < |table[i']| && table[i'][p'].component == j && flow[lay.pick[i'][p']]) ==> i == i'
  {
    var v, snk := 1 + |table| + j, lay.sink[j];
    assert Surplus(net.arcs, flow, v) == 0;
    forall b | 0 <= b < |flow| && Froms(net.arcs)[b] == v
      ensures b == snk
    {
      assert Classified(net.arcs, table, m, lay, b);
    }
    LoadOnly(flow, Froms(net.arcs), v, snk);
    forall i, p | 0 <= i < |table| && 0 <= p < |table[i]| && table[i][p].component == j && flow[lay.pick[i][p]]
      ensures flow[snk]
    {
      LoadPositive(flow, Tos(net.arcs), v, lay.pick[i][p]);
    }
    forall i, p, i', p' |
      && 0 <= i < |table| && 0 <= p < |table[i]| && table[i][p].component == j && flow[lay.pick[i][p]]
      && 0 <= i' < |table| && 0 <= p' < |table[i']| && table[i'][p'].component == j && flow[lay.pick[i'][p']]
      ensures i == i'
    {
      if i != i' {
        assert net.arcs[lay.pick[i][p]].row == i && net.arcs[lay.pick[i'][p']].row == i';
        LoadTwo(flow, Tos(net.arcs), v, lay.pick[i][p], lay.pick[i'][p']);
      }
    }
    if flow[snk] {
      LoadWitness(flow, Tos(net.arcs), v);
      var a :| 0 <= a < |flow| && flow[a] && Tos(net.arcs)[a] == v;
      assert Classified(net.arcs, table, m, lay, a);
    }
  }

  lemma MadeChoice(net: Network, table: Table, m: nat, lay: Layout, flow: seq<bool>, choice: seq<int>)
    requires Built(net, table, m, lay) && |flow| == |net.arcs| && Conserves(net, flow, 0)
    requires Makes(net, table, m, lay, flow, choice)
    ensures IsChoice(table, choice)
  {
    var places := Places(table, choice);
    forall i, j | 0 <= i < j < |places| && places[i] >= 0 && places[j] >= 0
      ensures places[i] != places[j]
    {
      ComponentFlow(net, table, m, lay, flow, places[i]);
    }
  }

  /** A component's sink arc is used exactly when some row takes the component. */
  lemma SinkUsed(net: Network, table: Table, m: nat, lay: Layout, flow: seq<bool>, choice: seq<int>, j: nat)
    requires Built(net, table, m, lay) && |flow| == |net.arcs| && Conserves(net, flow, 0)
    requires Makes(net, table, m, lay, flow, choice) && j < m
    ensures flow[lay.sink[j]] <==> j in Places(table, choice)
  {
    ComponentFlow(net, table, m, lay, flow, j);
    if flow[lay.sink[j]] {
      var i, p :| 0 <= i < |table| && 0 <= p < |table[i]| && table[i][p].component == j && flow[lay.pick[i][p]];
      assert Places(table, choice)[i] == j;
    }
    if j in Places(table, choice) {
      var i :| 0 <= i < |table| && Places(table, choice)[i] == j;
      assert flow[lay.pick[i][choice[i]]];
    }
  }

  /** Potentials read as prices. */
  ghost function RowPrices(net: Network, table: Table, m: nat, lay: Layout, pi: seq<int>, choice: seq<int>): (u: seq<int>)
    requires Built(net, table, m, lay) && |pi| == |net.graph| && IsChoice(table, choice)
    ensures |u| == |table|
  {
    seq(|table|, i requires 0 <= i < |table| =>
      if choice[i] < 0 then 0
      else table[i][choice[i]].benefit + pi[1 + |table| + table[i][choice[i]].component] - pi[0])
  }

  ghost function ComponentPrices(table: Table, m: nat, pi: seq<int>): (v: seq<int>)
    requires |pi| == |table| + m + 2
    ensures |v| == m
  {
    seq(m, j requires 0 <= j < m => if pi[SinkNode(table, m)] > pi[1 + |table| + j] then pi[SinkNode(table, m)] - pi[1 + |table| + j] else 0)
  }

  /** A taken component is priced by its potential. */
  lemma TakenPrices(net: Network, table: Table, m: nat, lay: Layout, flow: seq<bool>, pi: seq<int>, choice: seq<int>, i: nat)
    requires Built(net, table, m, lay) && net.Feasible(flow, pi) && Conserves(net, flow, 0)
    requires Makes(net, table, m, lay, flow, choice) && IsChoice(table, choice) && i < |table| && choice[i] >= 0
    ensures var j := table[i][choice[i]].component;
      && pi[SinkNode(table, m)] >= pi[1 + |table| + j]
      && pi[1 + i] >= pi[0]
      && table[i][choice[i]].benefit >= pi[1 + i] - pi[1 + |table| + j]
  {
    var j := table[i][choice[i]].component;
    RowFlow(net, table, m, lay, flow, i);
    ComponentFlow(net, table, m, lay, flow, j);
    assert flow[lay.pick[i][choice[i]]] && flow[lay.source[i]] && flow[lay.sink[j]];
    assert net.Reduced(pi, lay.sink[j]) <= 0;
    assert net.Reduced(pi, lay.source[i]) <= 0;
    assert net.Reduced(pi, lay.pick[i][choice[i]]) <= 0;
  }

  /** No link is worth more than its row's price, its component's price and the fee. */
  lemma LinkPriced(net: Network, table: Table, m: nat, lay: Layout, flow: seq<bool>, pi: seq<int>, choice: seq<int>, i: nat, p: nat)
    requires Built(net, table, m, lay) && net.Feasible(flow, pi) && Conserves(net, flow, 0)
    requires Makes(net, table, m, lay, flow, choice) && IsChoice(table, choice) && i < |table| && p < |table[i]|
    ensures table[i][p].benefit <= RowPrices(net, table, m, lay, pi, choice)[i]
      + ComponentPrices(table, m, pi)[table[i][p].component] + (pi[0] - pi[SinkNode(table, m)])
  {
    var j := table[i][p].component;
    RowFlow(net, table, m, lay, flow, i);
    if choice[i] != p {
      assert net.Reduced(pi, lay.pick[i][p]) >= 0;
      if choice[i] < 0 {
        assert !flow[lay.source[i]];
        assert net.Reduced(pi, lay.source[i]) >= 0;
      } else {
        TakenPrices(net, table, m, lay, flow, pi, choice, i);
      }
    }
  }

  /** A component nobody takes costs nothing. */
  lemma FreeComponent(net: Network, table: Table, m: nat, lay: Layout, flow: seq<bool>, pi: seq<int>, choice: seq<int>, j: nat)
    requires Built(net, table, m, lay) && net.Feasible(flow, pi) && Conserves(net, flow, 0)
    requires Makes(net, table, m, lay, flow, choice) && IsChoice(table, choice) && j < m
    requires j !in Places(table, choice)
    ensures ComponentPrices(table, m, pi)[j] == 0
  {
    SinkUsed(net, table, m, lay, flow, choice, j);
    assert net.Reduced(pi, lay.sink[j]) >= 0;
  }

  /** Prices that dominate every link bound every choice. */
  lemma DominatingPrices(table: Table, choice: seq<int>, u: seq<int>, v: seq<int>, fee: int)
    requires IsChoice(table, choice) && |u| == |table|
    requires forall i, p :: 0 <= i < |table| && 0 <= p < |table[i]| ==>
      table[i][p].component < |v| && table[i][p].benefit <= u[i] + v[table[i][p].component] + fee
    requires (forall i :: 0 <= i < |u| ==> u[i] >= 0) && (forall j :: 0 <= j < |v| ==> v[j] >= 0)
    ensures Worth(table, choice) <= Sum(u) + Sum(v) + fee * Taken(choice)
  {
    TakenPlaces(table, choice);
    WeakDuality(Places(table, choice), Benefits(table, choice), u, v, fee);
  }

  /** Prices that a choice meets, and that are zero where it takes nothing, add up to its worth. */
  lemma MetPrices(table: Table, choice: seq<int>, u: seq<int>, v: seq<int>, fee: int)
    requires IsChoice(table, choice) && |u| == |table|
    requires forall i :: 0 <= i < |table| && choice[i] >= 0 ==> table[i][choice[i]].component < |v|
    requires forall i :: 0 <= i < |table| ==> u[i] >= 0 && if choice[i] < 0 then u[i] == 0
      else table[i][choice[i]].benefit == u[i] + v[table[i][choice[i]].component] + fee
    requires forall j :: 0 <= j < |v| ==> v[j] >= 0 && (v[j] != 0 ==> j in Places(table, choice))
    ensures Worth(table, choice) == Sum(u) + Sum(v) + fee * Taken(choice)
  {
    TakenPlaces(table, choice);
    TightDuality(Places(table, choice), Benefits(table, choice), u, v, fee);
  }

  /** The potentials give prices that dominate every link and that the flow's own choice meets. */
  lemma PotentialsArePrices(net: Network, table: Table, m: nat, lay: Layout, flow: seq<bool>, pi: seq<int>, choice: seq<int>)
    requires Built(net, table, m, lay) && net.Feasible(flow, pi) && Conserves(net, flow, 0)
    requires Makes(net, table, m, lay, flow, choice) && IsChoice(table, choice)
    ensures var u, v, fee := RowPrices(net, table, m, lay, pi, choice), ComponentPrices(table, m, pi), pi[0] - pi[SinkNode(table, m)];
      && (forall i, p :: 0 <= i < |table| && 0 <= p < |table[i]| ==>
        table[i][p].component < m && table[i][p].benefit <= u[i] + v[table[i][p].component] + fee)
      && (forall i :: 0 <= i < |table| ==> u[i] >= 0 && if choice[i] < 0 then u[i] == 0
        else table[i][choice[i]].benefit == u[i] + v[table[i][choice[i]].component] + fee)
      && (forall j :: 0 <= j < m ==> v[j] >= 0 && (v[j] != 0 ==> j in Places(table, choice)))
  {
    var u, v, fee := RowPrices(net, table, m, lay, pi, choice), ComponentPrices(table, m, pi), pi[0] - pi[SinkNode(table, m)];
    forall i, p | 0 <= i < |table| && 0 <= p < |table[i]|
      ensures table[i][p].component < m && table[i][p].benefit <= u[i] + v[table[i][p].component] + fee
    {
      LinkPriced(net, table, m, lay, flow, pi, choice, i, p);
    }
    forall i | 0 <= i < |table| && choice[i] >= 0
      ensures u[i] >= 0 && table[i][choice[i]].benefit == u[i] + v[table[i][choice[i]].component] + fee
    {
      TakenPrices(net, table, m, lay, flow, pi, choice, i);
    }
    forall j | 0 <= j < m && v[j] != 0
      ensures j in Places(table, choice)
    {
      if j !in Places(table, choice) { FreeComponent(net, table, m, lay, flow, pi, choice, j); }
    }
  }

  /** A flow with feasible potentials is worth as much as any choice of its size. */
  lemma FeasibleIsBest(net: Network, table: Table, m: nat, lay: Layout, flow: seq<bool>, pi: seq<int>, choice: seq<int>, other: seq<int>)
    requires Built(net, table, m, lay) && net.Feasible(flow, pi) && Conserves(net, flow, 0)
    requires Makes(net, table, m, lay, flow, choice) && IsChoice(table, choice)
    requires IsChoice(table, other) && Taken(other) == Taken(choice)
    ensures Worth(table, other) <= Worth(table, choice)
  {
    var u, v, fee := RowPrices(net, table, m, lay, pi, choice), ComponentPrices(table, m, pi), pi[0] - pi[SinkNode(table, m)];
    PotentialsArePrices(net, table, m, lay, flow, pi, choice);
    DominatingPrices(table, other, u, v, fee);
    MetPrices(table, choice, u, v, fee);
  }

  // ---- when the sink cannot be reached ----

  ghost function UnreachedRows(table: Table, s: Search): (u: seq<int>)
    requires |s.dist| > |table|
    ensures |u| == |table|
  {
    seq(|table|, i requires 0 <= i < |table| => if s.Reached(1 + i) then 0 else 1)
  }

  ghost function ReachedComponents(table: Table, m: nat, s: Search): (v: seq<int>)
    requires |s.dist| == |table| + m + 2
    ensures |v| == m
  {
    seq(m, j requires 0 <= j < m => if s.Reached(1 + |table| + j) then 1 else 0)
  }

  /** Reachability spreads along open residual edges. */
  lemma Spreads(net: Network, flow: seq<bool>, s: Search, h: Half)
    requires net.Shaped() && net.Complete() && |flow| == |net.arcs| && s.Shortest(net, flow)
    requires h.arc < |net.arcs| && Open(flow, h) && s.Reached(net.Tail(h))
    ensures s.Reached(net.Head(h))
  {
    var u := net.Tail(h);
    assert h in net.graph[u];
    var k :| 0 <= k < |net.graph[u]| && net.graph[u][k] == h;
    assert s.Settled(net, flow, u) && s.Relaxed(net, flow, u, k);
  }

  /** A taken row is reached exactly when its component is. */
  lemma ReachedTogether(net: Network, table: Table, m: nat, lay: Layout, flow: seq<bool>, s: Search, choice: seq<int>, i: nat)
    requires Built(net, table, m, lay) && |flow| == |net.arcs| && Conserves(net, flow, 0) && s.Shortest(net, flow)
    requires Makes(net, table, m, lay, flow, choice) && i < |table| && choice[i] >= 0
    ensures s.Reached(1 + i) <==> s.Reached(1 + |table| + table[i][choice[i]].component)
  {
    var a := lay.pick[i][choice[i]];
    RowFlow(net, table, m, lay, flow, i);
    if s.Reached(net.arcs[a].to) { Spreads(net, flow, s, Half(a, false)); }
    if s.Reached(1 + i) {
      assert s.Linked(net, flow, 1 + i);
      var h := net.graph[s.prevNode[1 + i]][s.prevEdge[1 + i]];
      assert net.Tail(h) == s.prevNode[1 + i];
      assert Classified(net.arcs, table, m, lay, h.arc);
    }
  }

  /** The table in which every link is worth 1. */
  function Units(table: Table): (r: Table)
    ensures |r| == |table|
    ensures forall i :: 0 <= i < |table| ==> |r[i]| == |table[i]|
  {
    seq(|table|, i requires 0 <= i < |table| =>
      seq(|table[i]|, p requires 0 <= p < |table[i]| => Link(table[i][p].component, 1)))
  }

  lemma {:induction false} UnitWorth(table: Table, choice: seq<int>)
    requires |choice| == |table| && forall i :: 0 <= i < |choice| ==> -1 <= choice[i] < |table[i]|
    ensures Worth(Units(table), choice) == Taken(choice)
    ensures Places(Units(table), choice) == Places(table, choice)
  {
    var n := |choice| - 1;
    if n >= 0 {
      UnitWorth(table[..n], choice[..n]);
      assert Benefits(Units(table), choice)[..n] == Benefits(Units(table[..n]), choice[..n]);
    }
  }

  /** With the sink out of reach, the rows out of reach and the components in reach cover every
      link, and the flow's own choice meets that cover. */
  lemma ReachabilityIsCover(net: Network, table: Table, m: nat, lay: Layout, flow: seq<bool>, s: Search, choice: seq<int>)
    requires Built(net, table, m, lay) && |flow| == |net.arcs| && Conserves(net, flow, 0) && s.Shortest(net, flow)
    requires !s.Reached(SinkNode(table, m))
    requires Makes(net, table, m, lay, flow, choice) && IsChoice(table, choice)
    ensures var u, v := UnreachedRows(table, s), ReachedComponents(table, m, s);
      && (forall i, p :: 0 <= i < |table| && 0 <= p < |table[i]| ==>
        table[i][p].component < m && 1 <= u[i] + v[table[i][p].component])
      && (forall i :: 0 <= i < |table| ==> if choice[i] < 0 then u[i] == 0
        else 1 == u[i] + v[table[i][choice[i]].component])
      && (forall j :: 0 <= j < m ==> v[j] != 0 ==> j in Places(table, choice))
  {
    var u, v := UnreachedRows(table, s), ReachedComponents(table, m, s);
    forall i, p | 0 <= i < |table| && 0 <= p < |table[i]|
      ensures table[i][p].component < m && 1 <= u[i] + v[table[i][p].component]
    {
      if s.Reached(1 + i) {
        if choice[i] == p {
          ReachedTogether(net, table, m, lay, flow, s, choice, i);
        } else {
          Spreads(net, flow, s, Half(lay.pick[i][p], true));
        }
      }
    }
    forall i | 0 <= i < |table|
      ensures if choice[i] < 0 then u[i] == 0 else 1 == u[i] + v[table[i][choice[i]].component]
    {
      RowFlow(net, table, m, lay, flow, i);
      if choice[i] >= 0 {
        ReachedTogether(net, table, m, lay, flow, s, choice, i);
      } else {
        Spreads(net, flow, s, Half(lay.source[i], true));
      }
    }
    forall j | 0 <= j < m && v[j] != 0
      ensures j in Places(table, choice)
    {
      SinkUsed(net, table, m, lay, flow, choice, j);
      if !flow[lay.sink[j]] { Spreads(net, flow, s, Half(lay.sink[j], true)); }
    }
  }

  /** Rows and components that cover every link, met by one choice, bound the size of every other. */
  lemma CoverBounds(table: Table, m: nat, choice: seq<int>, other: seq<int>, u: seq<int>, v: seq<int>)
    requires IsChoice(table, choice) && IsChoice(table, other) && |u| == |table| && |v| == m
    requires forall i :: 0 <= i < |u| ==> u[i] >= 0
    requires forall j :: 0 <= j < |v| ==> v[j] >= 0
    requires forall i, p :: 0 <= i < |table| && 0 <= p < |table[i]| ==>
      table[i][p].component < m && 1 <= u[i] + v[table[i][p].component]
    requires forall i :: 0 <= i < |table| ==> if choice[i] < 0 then u[i] == 0 else 1 == u[i] + v[table[i][choice[i]].component]
    requires forall j :: 0 <= j < m ==> v[j] != 0 ==> j in Places(table, choice)
    ensures Taken(other) <= Taken(choice)
  {
    UnitWorth(table, other);
    UnitWorth(table, choice);
    DominatingPrices(Units(table), other, u, v, 0);
    MetPrices(Units(table), choice, u, v, 0);
  }

  /** With the sink out of reach no choice is larger. */
  lemma UnreachableIsLargest(net: Network, table: Table, m: nat, lay: Layout, flow: seq<bool>, s: Search, choice: seq<int>, other: seq<int>)
    requires Built(net, table, m, lay) && |flow| == |net.arcs| && Conserves(net, flow, 0) && s.Shortest(net, flow)
    requires !s.Reached(SinkNode(table, m))
    requires Makes(net, table, m, lay, flow, choice) && IsChoice(table, choice) && IsChoice(table, other)
    ensures Taken(other) <= Taken(choice)
  {
    ReachabilityIsCover(net, table, m, lay, flow, s, choice);
    CoverBounds(table, m, choice, other, UnreachedRows(table, s), ReachedComponents(table, m, s));
  }

  // ---- the solver ----

  /** The flow with the links of row i and later rows switched off. */
  ghost function Upto(net: Network, flow: seq<bool>, i: nat): (r: seq<bool>)
    requires |flow| == |net.arcs|
    ensures |r| == |flow|
  {
    seq(|flow|, a requires 0 <= a < |flow| => flow[a] && net.arcs[a].row < i)
  }

  /** Switching on row i adds the one arc that the row uses, if any. */
  lemma UptoStep(net: Network, table: Table, m: nat, lay: Layout, flow: seq<bool>, choice: seq<int>, i: nat)
    requires Built(net, table, m, lay) && |flow| == |net.arcs| && i < |table|
    requires Makes(net, table, m, lay, flow, choice)
    ensures choice[i] < 0 ==> Upto(net, flow, i + 1) == Upto(net, flow, i)
    ensures choice[i] >= 0 ==> (!Upto(net, flow, i)[lay.pick[i][choice[i]]]
      && Upto(net, flow, i + 1) == Upto(net, flow, i)[lay.pick[i][choice[i]] := true])
  {
    var f, g := Upto(net, flow, i), Upto(net, flow, i + 1);
    forall a | 0 <= a < |f|
      ensures g[a] == (f[a] || (choice[i] >= 0 && a == lay.pick[i][choice[i]]))
    {
      assert Classified(net.arcs, table, m, lay, a);
    }
  }

  /** The links in use are as many as the rows taken. */
  lemma {:induction false} LinksInUse(net: Network, table: Table, m: nat, lay: Layout, flow: seq<bool>, choice: seq<int>, i: nat)
    requires Built(net, table, m, lay) && |flow| == |net.arcs| && i <= |table|
    requires Makes(net, table, m, lay, flow, choice)
    ensures Load(Upto(net, flow, i), Links(net.arcs), 1) == Taken(choice[..i])
  {
    if i == 0 {
      LoadZero(Upto(net, flow, 0), Links(net.arcs), 1);
    } else {
      var k := i - 1;
      LinksInUse(net, table, m, lay, flow, choice, k);
      UptoStep(net, table, m, lay, flow, choice, k);
      assert choice[..i][..k] == choice[..k];
      if choice[k] >= 0 {
        LoadFlip(Upto(net, flow, k), Links(net.arcs), 1, lay.pick[k][choice[k]]);
      }
    }
  }

  /** Read the selection off the saturated links. */
  method Select(net: Network, forward: array<int>, reverse: array<int>, table: Table, m: nat, ghost lay: Layout, ghost flow: seq<bool>)
    returns (choice: seq<int>)
    requires Built(net, table, m, lay) && |flow| == |net.arcs| && Conserves(net, flow, 0)
    requires Carries(flow, forward[..], reverse[..])
    ensures Makes(net, table, m, lay, flow, choice)
  {
    choice := seq(|table|, _ => -1);
    for a := 0 to |net.arcs|
      invariant |choice| == |table|
      invariant forall i :: 0 <= i < |table| ==> -1 <= choice[i] < |table[i]|
      invariant forall i :: 0 <= i < |table| && choice[i] >= 0 ==> flow[lay.pick[i][choice[i]]]
      invariant forall i, p :: 0 <= i < |table| && 0 <= p < |table[i]| && lay.pick[i][p] < a && flow[lay.pick[i][p]] ==> choice[i] == p
    {
      assert Classified(net.arcs, table, m, lay, a);
      var arc := net.arcs[a];
      if forward[a] == 0 && arc.row >= 0 && arc.pick >= 0 {
        RowFlow(net, table, m, lay, flow, arc.row);
        choice := choice[arc.row := arc.pick];
      }
    }
    forall i, p | 0 <= i < |table| && 0 <= p < |table[i]|
      ensures flow[lay.pick[i][p]] <==> choice[i] == p
    {
      assert lay.pick[i][p] < |net.arcs|;
    }
  }

  /** Zero on the source and the rows, minus the largest benefit on the other nodes. */
  ghost function StartPotentials(table: Table, m: nat, bound: int): (r: seq<int>)
    ensures |r| == |table| + m + 2
  {
    seq(|table| + m + 2, v requires 0 <= v < |table| + m + 2 => if v <= |table| then 0 else -bound)
  }

  lemma StartFeasible(net: Network, table: Table, m: nat, lay: Layout, bound: int)
    requires Built(net, table, m, lay)
    requires forall i, p :: 0 <= i < |table| && 0 <= p < |table[i]| ==> table[i][p].benefit <= bound
    ensures var flow := seq(|net.arcs|, _ => false);
      net.Feasible(flow, StartPotentials(table, m, bound)) && Conserves(net, flow, 0)
      && Load(flow, Links(net.arcs), 1) == 0
  {
    var flow := seq(|net.arcs|, _ => false);
    forall a | 0 <= a < |net.arcs|
      ensures net.Reduced(StartPotentials(table, m, bound), a) >= 0
    {
      assert Classified(net.arcs, table, m, lay, a);
    }
    forall v | 0 < v < |net.graph| - 1
      ensures Surplus(net.arcs, flow, v) == 0
    {
      LoadZero(flow, Froms(net.arcs), v);
      LoadZero(flow, Tos(net.arcs), v);
    }
    LoadZero(flow, Links(net.arcs), 1);
  }

  /** No choice within the target is larger than this one. */
  ghost predicate Largest(table: Table, target: nat, choice: seq<int>) {
    && Taken(choice) <= target
    && forall other :: IsChoice(table, other) ==> Taken(other) <= Taken(choice) || Taken(choice) == target
  }

  /** No choice of the same size is worth more. */
  ghost predicate Best(table: Table, choice: seq<int>)
    requires IsChoice(table, choice)
  {
    forall other :: IsChoice(table, other) && Taken(other) == Taken(choice) ==> Worth(table, other) <= Worth(table, choice)
  }

  /** Augment until the target is met or the sink is out of reach. */
  method Saturate(net: Network, forward: array<int>, reverse: array<int>, table: Table, m: nat, target: nat,
                  ghost lay: Layout, ghost start: seq<int>)
    returns (ghost flow: seq<bool>, ghost pi: seq<int>, ghost blocked: seq<Search>)
    requires Built(net, table, m, lay) && forward != reverse
    requires Carries(seq(|net.arcs|, _ => false), forward[..], reverse[..])
    requires net.Feasible(seq(|net.arcs|, _ => false), start) && Conserves(net, seq(|net.arcs|, _ => false), 0)
    requires Load(seq(|net.arcs|, _ => false), Links(net.arcs), 1) == 0
    modifies forward, reverse
    ensures |flow| == |net.arcs| && Carries(flow, forward[..], reverse[..])
    ensures net.Feasible(flow, pi) && Conserves(net, flow, 0)
    ensures Load(flow, Links(net.arcs), 1) <= target
    ensures Load(flow, Links(net.arcs), 1) == target || Blocks(net, table, m, flow, blocked)
  {
    flow, pi, blocked := seq(|net.arcs|, _ => false), start, [];
    for units := 0 to target
      invariant |flow| == |net.arcs| && Carries(flow, forward[..], reverse[..])
      invariant net.Feasible(flow, pi) && Conserves(net, flow, 0)
      invariant Load(flow, Links(net.arcs), 1) == units
    {
      var distance, previousNode, previousEdge, stamp := FindShortest(net, forward, reverse, flow, pi);
      ghost var s := View(distance, previousNode, previousEdge, stamp, pi);
      assert s.Reached(SinkNode(table, m)) ==> s.Linked(net, flow, SinkNode(table, m));
      if previousNode[|net.graph| - 1] < 0 {
        blocked := [s];
        return;
      }
      flow := Augment(net, forward, reverse, previousNode, previousEdge, table, m, lay, flow, s);
      pi := Raised(s, SinkNode(table, m));
    }
  }

  /** A finished search that did not reach the sink. */
  ghost predicate Blocks(net: Network, table: Table, m: nat, flow: seq<bool>, blocked: seq<Search>)
    requires net.Shaped() && |flow| == |net.arcs| && |net.graph| == |table| + m + 2
  {
    |blocked| == 1 && blocked[0].Shortest(net, flow) && !blocked[0].Reached(SinkNode(table, m))
  }

  /** What a saturated flow selects is the answer. */
  lemma SaturatedIsAnswer(net: Network, table: Table, m: nat, lay: Layout, flow: seq<bool>, pi: seq<int>,
                          blocked: seq<Search>, choice: seq<int>, target: nat)
    requires Built(net, table, m, lay) && net.Feasible(flow, pi) && Conserves(net, flow, 0)
    requires Makes(net, table, m, lay, flow, choice)
    requires Load(flow, Links(net.arcs), 1) <= target
    requires Load(flow, Links(net.arcs), 1) == target || Blocks(net, table, m, flow, blocked)
    ensures IsChoice(table, choice) && Largest(table, target, choice) && Best(table, choice)
  {
    MadeChoice(net, table, m, lay, flow, choice);
    LinksInUse(net, table, m, lay, flow, choice, |table|);
    AllRows(net, table, m, lay, flow);
    assert choice[..|table|] == choice;
    forall other | IsChoice(table, other)
      ensures Taken(other) <= Taken(choice) || Taken(choice) == target
      ensures Taken(other) == Taken(choice) ==> Worth(table, other) <= Worth(table, choice)
    {
      if Taken(choice) != target { UnreachableIsLargest(net, table, m, lay, flow, blocked[0], choice, other); }
      if Taken(other) == Taken(choice) { FeasibleIsBest(net, table, m, lay, flow, pi, choice, other); }
    }
  }

  lemma AllRows(net: Network, table: Table, m: nat, lay: Layout, flow: seq<bool>)
    requires Built(net, table, m, lay) && |flow| == |net.arcs|
    ensures Upto(net, flow, |table|) == flow
  {
    forall a | 0 <= a < |flow|
      ensures Upto(net, flow, |table|)[a] == flow[a]
    {
      assert Classified(net.arcs, table, m, lay, a);
    }
  }

  /** Successive shortest augmenting paths: the result is a choice of min(target, maximum matching)
      links, and no choice of that size is worth more. */
  method Solve(table: Table, m: nat, target: nat, ghost bound: int) returns (choice: seq<int>)
    requires forall i, p :: 0 <= i < |table| && 0 <= p < |table[i]| ==>
      table[i][p].component < m && table[i][p].benefit <= bound
    ensures IsChoice(table, choice) && Largest(table, target, choice) && Best(table, choice)
  {
    var net, lay := Build(table, m);
    var forward := new int[|net.arcs|](_ => 1);
    var reverse := new int[|net.arcs|](_ => 0);
    StartFeasible(net, table, m, lay, bound);
    ghost var flow, pi, blocked := Saturate(net, forward, reverse, table, m, target, lay, StartPotentials(table, m, bound));
    choice := Select(net, forward, reverse, table, m, lay, flow);
    SaturatedIsAnswer(net, table, m, lay, flow, pi, blocked, choice, target);
  }
}
