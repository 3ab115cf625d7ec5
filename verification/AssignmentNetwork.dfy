/** Assignments of rows to rival components, and the flow network that solves them. */
module AssignmentNetwork {
  import opened Sums
  import opened ResidualNetwork

  /** One publishable edge of a row: a component and the benefit of publishing it. */
  datatype Link = Link(component: nat, benefit: int)

  type Table = seq<seq<Link>>

  /** The component each row takes, -1 where it takes none. */
  function Places(table: Table, choice: seq<int>): (r: seq<int>)
    requires |choice| == |table| && forall i :: 0 <= i < |choice| ==> choice[i] < |table[i]|
    ensures |r| == |choice|
  {
    seq(|choice|, i requires 0 <= i < |choice| => if choice[i] < 0 then -1 else table[i][choice[i]].component)
  }

  function Benefits(table: Table, choice: seq<int>): (r: seq<int>)
    requires |choice| == |table| && forall i :: 0 <= i < |choice| ==> choice[i] < |table[i]|
    ensures |r| == |choice|
  {
    seq(|choice|, i requires 0 <= i < |choice| => if choice[i] < 0 then 0 else table[i][choice[i]].benefit)
  }

  /** A row is taken exactly when its place is. */
  lemma {:induction false} TakenPlaces(table: Table, choice: seq<int>)
    requires |choice| == |table| && forall i :: 0 <= i < |choice| ==> choice[i] < |table[i]|
    ensures Taken(Places(table, choice)) == Taken(choice)
  {
    var n := |choice| - 1;
    if n >= 0 {
      TakenPlaces(table[..n], choice[..n]);
      assert Places(table, choice)[..n] == Places(table[..n], choice[..n]);
    }
  }

  /** Each row takes at most one of its links and no component is taken twice. */
  ghost predicate IsChoice(table: Table, choice: seq<int>) {
    && |choice| == |table|
    && (forall i :: 0 <= i < |choice| ==> -1 <= choice[i] < |table[i]|)
    && Injective(Places(table, choice))
  }

  function Worth(table: Table, choice: seq<int>): int
    requires |choice| == |table| && forall i :: 0 <= i < |choice| ==> choice[i] < |table[i]|
  {
    Sum(Benefits(table, choice))
  }

  /** Where the arcs of the network stand: one per row from the source, one per component to the
      sink, one per link. */
  datatype Layout = Layout(source: seq<nat>, pick: seq<seq<nat>>, sink: seq<nat>)

  function SinkNode(table: Table, m: nat): nat { |table| + m + 1 }

  /** The arcs added so far are exactly those the layout names. */
  ghost predicate Laid(arcs: seq<Arc>, table: Table, m: nat, lay: Layout) {
    var n := |table|;
    && |lay.source| <= n && |lay.pick| == |lay.source| && |lay.sink| <= m
    && (forall i :: 0 <= i < |lay.source| ==>
      && lay.source[i] < |arcs| && arcs[lay.source[i]] == Arc(0, 1 + i, 0, -1, -1)
      && |lay.pick[i]| <= |table[i]|
      && forall p :: 0 <= p < |lay.pick[i]| ==>
        && lay.pick[i][p] < |arcs|
        && table[i][p].component < m
        && arcs[lay.pick[i][p]] == Arc(1 + i, 1 + n + table[i][p].component, -table[i][p].benefit, i, p))
    && (forall j :: 0 <= j < |lay.sink| ==>
      lay.sink[j] < |arcs| && arcs[lay.sink[j]] == Arc(1 + n + j, SinkNode(table, m), 0, -1, -1))
    && (forall a :: 0 <= a < |arcs| ==> Classified(arcs, table, m, lay, a))
  }

  ghost predicate Classified(arcs: seq<Arc>, table: Table, m: nat, lay: Layout, a: nat)
    requires a < |arcs|
  {
    var arc, n := arcs[a], |table|;
    if arc.from == 0 then 1 <= arc.to <= |lay.source| && a == lay.source[arc.to - 1]
    else if arc.to == SinkNode(table, m) then 1 + n <= arc.from < 1 + n + |lay.sink| && a == lay.sink[arc.from - 1 - n]
    else 0 <= arc.row < |lay.pick| && 0 <= arc.pick < |lay.pick[arc.row]| && a == lay.pick[arc.row][arc.pick]
  }

  ghost predicate Complete(table: Table, m: nat, lay: Layout) {
    && |lay.source| == |lay.pick| == |table| && |lay.sink| == m
    && forall i :: 0 <= i < |table| ==> |lay.pick[i]| == |table[i]|
  }

  /** The network of a table, ready to be searched. */
  ghost predicate Built(net: Network, table: Table, m: nat, lay: Layout) {
    && net.Shaped() && net.Complete() && |net.graph| == |table| + m + 2
    && Laid(net.arcs, table, m, lay) && Complete(table, m, lay)
  }

  /** Append an arc, its forward half and its reverse half. */
  function AddEdge(net: Network, arc: Arc): (r: Network)
    requires net.Shaped() && net.Complete()
    requires arc.from < |net.graph| && arc.to < |net.graph| && arc.from != arc.to
    ensures r.arcs == net.arcs + [arc] && |r.graph| == |net.graph|
    ensures r.Shaped() && r.Complete()
  {
    var k := |net.arcs|;
    var outward := net.graph[arc.from] + [Half(k, true)];
    var inward := net.graph[arc.to] + [Half(k, false)];
    var r := Network(net.arcs + [arc], net.graph[arc.from := outward][arc.to := inward]);
    AddEdgeComplete(net, arc, r);
    r
  }

  lemma AddEdgeComplete(net: Network, arc: Arc, r: Network)
    requires net.Shaped() && net.Complete()
    requires arc.from < |net.graph| && arc.to < |net.graph| && arc.from != arc.to
    requires r == Network(net.arcs + [arc],
      net.graph[arc.from := net.graph[arc.from] + [Half(|net.arcs|, true)]][arc.to := net.graph[arc.to] + [Half(|net.arcs|, false)]])
    ensures r.Shaped() && r.Complete()
  {
    var k := |net.arcs|;
    forall u, j | 0 <= u < |r.graph| && 0 <= j < |r.graph[u]|
      ensures r.graph[u][j].arc < |r.arcs| && r.Tail(r.graph[u][j]) == u
    {
      if j < |net.graph[u]| {
        assert r.graph[u][j] == net.graph[u][j];
        assert net.Tail(net.graph[u][j]) == u;
      }
    }
    forall a | 0 <= a < |r.arcs|
      ensures Half(a, true) in r.graph[r.arcs[a].from] && Half(a, false) in r.graph[r.arcs[a].to]
    {
      if a == k {
        assert r.graph[arc.from][|net.graph[arc.from]|] == Half(k, true);
        assert r.graph[arc.to][|net.graph[arc.to]|] == Half(k, false);
      } else {
        assert r.arcs[a] == net.arcs[a];
        Relisted(net.graph[net.arcs[a].from], r.graph[net.arcs[a].from], Half(a, true));
        Relisted(net.graph[net.arcs[a].to], r.graph[net.arcs[a].to], Half(a, false));
      }
    }
  }

  /** A longer list keeps what the shorter one holds. */
  lemma Relisted(short: seq<Half>, long: seq<Half>, h: Half)
    requires short <= long && h in short
    ensures h in long
  {
  }

  lemma LaySource(arcs: seq<Arc>, table: Table, m: nat, lay: Layout)
    requires Laid(arcs, table, m, lay) && |lay.source| < |table| && lay.sink == []
    ensures var i := |lay.source|;
      Laid(arcs + [Arc(0, 1 + i, 0, -1, -1)], table, m, Layout(lay.source + [|arcs|], lay.pick + [[]], lay.sink))
  {
    var i := |lay.source|;
    var grown, lay' := arcs + [Arc(0, 1 + i, 0, -1, -1)], Layout(lay.source + [|arcs|], lay.pick + [[]], lay.sink);
    forall a | 0 <= a < |grown|
      ensures Classified(grown, table, m, lay', a)
    {
      if a < |arcs| { assert Classified(arcs, table, m, lay, a); }
    }
  }

  lemma LayPick(arcs: seq<Arc>, table: Table, m: nat, lay: Layout)
    requires Laid(arcs, table, m, lay) && 0 < |lay.source| && lay.sink == []
    requires var i := |lay.source| - 1; |lay.pick[i]| < |table[i]| && table[i][|lay.pick[i]|].component < m
    ensures var i := |lay.source| - 1;
      var p := |lay.pick[i]|;
      Laid(arcs + [Arc(1 + i, 1 + |table| + table[i][p].component, -table[i][p].benefit, i, p)], table, m,
           Layout(lay.source, lay.pick[i := lay.pick[i] + [|arcs|]], lay.sink))
  {
    var i := |lay.source| - 1;
    var p := |lay.pick[i]|;
    var grown := arcs + [Arc(1 + i, 1 + |table| + table[i][p].component, -table[i][p].benefit, i, p)];
    var lay' := Layout(lay.source, lay.pick[i := lay.pick[i] + [|arcs|]], lay.sink);
    forall a | 0 <= a < |grown|
      ensures Classified(grown, table, m, lay', a)
    {
      if a < |arcs| { assert Classified(arcs, table, m, lay, a); }
    }
  }

  lemma LaySink(arcs: seq<Arc>, table: Table, m: nat, lay: Layout)
    requires Laid(arcs, table, m, lay) && |lay.sink| < m
    ensures var j := |lay.sink|;
      Laid(arcs + [Arc(1 + |table| + j, SinkNode(table, m), 0, -1, -1)], table, m,
           Layout(lay.source, lay.pick, lay.sink + [|arcs|]))
  {
    var j := |lay.sink|;
    var grown := arcs + [Arc(1 + |table| + j, SinkNode(table, m), 0, -1, -1)];
    var lay' := Layout(lay.source, lay.pick, lay.sink + [|arcs|]);
    forall a | 0 <= a < |grown|
      ensures Classified(grown, table, m, lay', a)
    {
      if a < |arcs| { assert Classified(arcs, table, m, lay, a); }
    }
  }

  ghost predicate Ready(net: Network, table: Table, m: nat, lay: Layout) {
    net.Shaped() && net.Complete() && |net.graph| == |table| + m + 2 && Laid(net.arcs, table, m, lay)
  }

  /** One link of the row that is being built. */
  method BuildLink(before: Network, table: Table, m: nat, ghost laid: Layout, i: nat, p: nat) returns (net: Network, ghost lay: Layout)
    requires Ready(before, table, m, laid) && laid.sink == [] && |laid.source| == i + 1 && i < |table|
    requires |laid.pick[i]| == p < |table[i]| && table[i][p].component < m
    ensures Ready(net, table, m, lay)
    ensures lay == Layout(laid.source, laid.pick[i := laid.pick[i] + [|before.arcs|]], [])
  {
    var link := table[i][p];
    LayPick(before.arcs, table, m, laid);
    lay := Layout(laid.source, laid.pick[i := laid.pick[i] + [|before.arcs|]], laid.sink);
    net := AddEdge(before, Arc(1 + i, 1 + |table| + link.component, -link.benefit, i, p));
  }

  /** One row: its source arc, then its links in order. */
  method BuildRow(before: Network, table: Table, m: nat, ghost laid: Layout, i: nat) returns (net: Network, ghost lay: Layout)
    requires Ready(before, table, m, laid) && |laid.source| == i < |table| && laid.sink == []
    requires forall p :: 0 <= p < |table[i]| ==> table[i][p].component < m
    ensures Ready(net, table, m, lay) && lay.sink == []
    ensures |lay.source| == i + 1 && |lay.pick[i]| == |table[i]|
    ensures forall r :: 0 <= r < i ==> lay.pick[r] == laid.pick[r]
  {
    LaySource(before.arcs, table, m, laid);
    lay := Layout(laid.source + [|before.arcs|], laid.pick + [[]], laid.sink);
    net := AddEdge(before, Arc(0, 1 + i, 0, -1, -1));
    for p := 0 to |table[i]|
      invariant Ready(net, table, m, lay) && lay.sink == []
      invariant |lay.source| == i + 1 && |lay.pick[i]| == p && (forall r :: 0 <= r < i ==> lay.pick[r] == laid.pick[r])
    {
      net, lay := BuildLink(net, table, m, lay, i, p);
    }
  }

  /** The sink arcs, one per component. */
  method BuildSinks(before: Network, table: Table, m: nat, ghost laid: Layout) returns (net: Network, ghost lay: Layout)
    requires Ready(before, table, m, laid) && |laid.source| == |table| && laid.sink == []
    ensures Ready(net, table, m, lay) && lay.source == laid.source && lay.pick == laid.pick && |lay.sink| == m
  {
    var n := |table|;
    net, lay := before, laid;
    for j := 0 to m
      invariant Ready(net, table, m, lay) && lay.source == laid.source && lay.pick == laid.pick && |lay.sink| == j
    {
      LaySink(net.arcs, table, m, lay);
      lay := Layout(lay.source, lay.pick, lay.sink + [|net.arcs|]);
      net := AddEdge(net, Arc(1 + n + j, n + m + 1, 0, -1, -1));
    }
  }

  /** Build the network: source arcs and links row by row, then the sink arcs. */
  method Build(table: Table, m: nat) returns (net: Network, ghost lay: Layout)
    requires forall i, p :: 0 <= i < |table| && 0 <= p < |table[i]| ==> table[i][p].component < m
    ensures Built(net, table, m, lay)
  {
    var n := |table|;
    net := Network([], seq(n + m + 2, _ => []));
    lay := Layout([], [], []);
    for i := 0 to n
      invariant Ready(net, table, m, lay) && |lay.source| == i && lay.sink == []
      invariant forall r :: 0 <= r < i ==> |lay.pick[r]| == |table[r]|
    {
      net, lay := BuildRow(net, table, m, lay, i);
    }
    net, lay := BuildSinks(net, table, m, lay);
  }
}
