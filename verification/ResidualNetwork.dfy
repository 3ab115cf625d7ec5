/** The residual graph of the assignment solver: arcs, their two residual halves, capacities,
    node potentials, and the load that a flow puts on each node. */
module ResidualNetwork {

  /** A forward edge as it was added; `row` and `pick` are its metadata, -1 where it has none. */
  datatype Arc = Arc(from: nat, to: nat, cost: int, row: int, pick: int)

  /** A residual edge: an arc taken forward, or its reverse. */
  datatype Half = Half(arc: nat, forward: bool)

  /** `graph[u]` lists the residual edges that leave node u, in insertion order. */
  datatype Network = Network(arcs: seq<Arc>, graph: seq<seq<Half>>) {

    /** Every end is a node, and every listed residual edge leaves the node that lists it. */
    ghost predicate Shaped() {
      && |graph| > 0
      && (forall a :: 0 <= a < |arcs| ==>
        arcs[a].from < |graph| && arcs[a].to < |graph| && arcs[a].from != arcs[a].to)
      && (forall u, k :: 0 <= u < |graph| && 0 <= k < |graph[u]| ==>
        graph[u][k].arc < |arcs| && Tail(graph[u][k]) == u)
    }

    /** Every arc is listed at both of its ends. */
    ghost predicate Complete()
      requires Shaped()
    {
      forall a :: 0 <= a < |arcs| ==>
        Half(a, true) in graph[arcs[a].from] && Half(a, false) in graph[arcs[a].to]
    }

    function Tail(h: Half): nat
      requires h.arc < |arcs|
    {
      if h.forward then arcs[h.arc].from else arcs[h.arc].to
    }

    function Head(h: Half): nat
      requires h.arc < |arcs|
    {
      if h.forward then arcs[h.arc].to else arcs[h.arc].from
    }

    function Cost(h: Half): int
      requires h.arc < |arcs|
    {
      if h.forward then arcs[h.arc].cost else -arcs[h.arc].cost
    }

    /** The cost of an arc after the potentials of its ends are taken off. */
    ghost function Reduced(pi: seq<int>, a: nat): int
      requires Shaped() && a < |arcs| && |pi| == |graph|
    {
      arcs[a].cost + pi[arcs[a].from] - pi[arcs[a].to]
    }

    /** No residual edge has negative reduced cost. With capacities of 0 and 1 this certifies that
        the flow is cheapest for its value. */
    ghost predicate Feasible(flow: seq<bool>, pi: seq<int>)
      requires Shaped()
    {
      && |flow| == |arcs| && |pi| == |graph|
      && forall a :: 0 <= a < |arcs| ==> if flow[a] then Reduced(pi, a) <= 0 else Reduced(pi, a) >= 0
    }
  }

  /** A residual edge still has capacity. */
  predicate Open(flow: seq<bool>, h: Half)
    requires h.arc < |flow|
  {
    flow[h.arc] != h.forward
  }

  /** The capacity arrays agree with a 0/1 flow. */
  ghost predicate Carries(flow: seq<bool>, forward: seq<int>, reverse: seq<int>) {
    && |flow| == |forward| == |reverse|
    && forall a :: 0 <= a < |flow| ==>
      && forward[a] == (if flow[a] then 0 else 1)
      && reverse[a] == (if flow[a] then 1 else 0)
  }

  /** The number of flow-carrying arcs whose label is `v`. */
  ghost function Load(flow: seq<bool>, labels: seq<int>, v: int): (n: nat)
    requires |flow| == |labels|
  {
    if flow == [] then 0
    else
      var k := |flow| - 1;
      Load(flow[..k], labels[..k], v) + (if flow[k] && labels[k] == v then 1 else 0)
  }

  lemma {:induction false} LoadFlip(flow: seq<bool>, labels: seq<int>, v: int, a: nat)
    requires |flow| == |labels| && a < |flow|
    ensures Load(flow[a := !flow[a]], labels, v) ==
      Load(flow, labels, v) + (if labels[a] != v then 0 else if flow[a] then -1 else 1)
  {
    var k := |flow| - 1;
    if a == k {
      assert flow[a := !flow[a]][..k] == flow[..k];
    } else {
      LoadFlip(flow[..k], labels[..k], v, a);
      assert flow[a := !flow[a]][..k] == flow[..k][a := !flow[..k][a]];
    }
  }

  lemma {:induction false} LoadZero(flow: seq<bool>, labels: seq<int>, v: int)
    requires |flow| == |labels|
    requires forall a :: 0 <= a < |flow| ==> !(flow[a] && labels[a] == v)
    ensures Load(flow, labels, v) == 0
  {
    if flow != [] { LoadZero(flow[..|flow| - 1], labels[..|flow| - 1], v); }
  }

  lemma LoadPositive(flow: seq<bool>, labels: seq<int>, v: int, a: nat)
    requires |flow| == |labels| && a < |flow| && flow[a] && labels[a] == v
    ensures Load(flow, labels, v) >= 1
  {
    LoadFlip(flow, labels, v, a);
  }

  lemma LoadTwo(flow: seq<bool>, labels: seq<int>, v: int, a: nat, b: nat)
    requires |flow| == |labels| && a < |flow| && b < |flow| && a != b
    requires flow[a] && labels[a] == v && flow[b] && labels[b] == v
    ensures Load(flow, labels, v) >= 2
  {
    LoadFlip(flow, labels, v, a);
    LoadFlip(flow[a := !flow[a]], labels, v, b);
  }

  lemma {:induction false} LoadWitness(flow: seq<bool>, labels: seq<int>, v: int)
    requires |flow| == |labels| && Load(flow, labels, v) > 0
    ensures exists a :: 0 <= a < |flow| && flow[a] && labels[a] == v
  {
    if forall a :: 0 <= a < |flow| ==> !(flow[a] && labels[a] == v) { LoadZero(flow, labels, v); }
  }

  lemma {:induction false} LoadOnly(flow: seq<bool>, labels: seq<int>, v: int, a: nat)
    requires |flow| == |labels| && a < |flow|
    requires forall b :: 0 <= b < |flow| && labels[b] == v ==> b == a
    ensures Load(flow, labels, v) <= 1
    ensures labels[a] == v ==> Load(flow, labels, v) == if flow[a] then 1 else 0
  {
    var rest := flow[a := false];
    LoadZero(rest, labels, v);
    if flow[a] {
      LoadFlip(flow, labels, v, a);
      assert rest == flow[a := !flow[a]];
    } else {
      assert rest == flow;
    }
  }
}
