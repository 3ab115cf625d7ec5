/** Successive shortest augmenting paths on the assignment network. */
module MinCostFlow {
  import opened ResidualNetwork
  import opened ShortestPaths
  import opened AssignmentNetwork

  function Froms(arcs: seq<Arc>): (r: seq<int>)
    ensures |r| == |arcs|
  {
    seq(|arcs|, a requires 0 <= a < |arcs| => arcs[a].from)
  }

  function Tos(arcs: seq<Arc>): (r: seq<int>)
    ensures |r| == |arcs|
  {
    seq(|arcs|, a requires 0 <= a < |arcs| => arcs[a].to)
  }

  /** 1 on the arcs that stand for a link. */
  function Links(arcs: seq<Arc>): (r: seq<int>)
    ensures |r| == |arcs|
  {
    seq(|arcs|, a requires 0 <= a < |arcs| => if arcs[a].row >= 0 then 1 else 0)
  }

  ghost function Surplus(arcs: seq<Arc>, flow: seq<bool>, v: nat): int
    requires |flow| == |arcs|
  {
    Load(flow, Froms(arcs), v) - Load(flow, Tos(arcs), v)
  }

  /** What leaves an inner node entered it, except that `node` still owes one unit. */
  ghost predicate Conserves(net: Network, flow: seq<bool>, node: int)
    requires |flow| == |net.arcs|
  {
    forall v {:trigger Surplus(net.arcs, flow, v)} :: 0 < v < |net.graph| - 1 ==>
      Surplus(net.arcs, flow, v) == if v == node then 1 else 0
  }

  /** Pushing one unit through a residual edge moves the debt from its head to its tail. */
  lemma PushSurplus(net: Network, flow: seq<bool>, h: Half, v: nat)
    requires net.Shaped() && |flow| == |net.arcs| && h.arc < |flow| && Open(flow, h)
    ensures Surplus(net.arcs, flow[h.arc := !flow[h.arc]], v) ==
      Surplus(net.arcs, flow, v) + (if v == net.Tail(h) then 1 else 0) - (if v == net.Head(h) then 1 else 0)
  {
    LoadFlip(flow, Froms(net.arcs), v, h.arc);
    LoadFlip(flow, Tos(net.arcs), v, h.arc);
  }

  lemma PushConserves(net: Network, flow: seq<bool>, h: Half)
    requires net.Shaped() && |flow| == |net.arcs| && h.arc < |flow| && Open(flow, h)
    requires Conserves(net, flow, net.Head(h))
    ensures Conserves(net, flow[h.arc := !flow[h.arc]], net.Tail(h))
  {
    var pushed := flow[h.arc := !flow[h.arc]];
    forall v | 0 < v < |net.graph| - 1
      ensures Surplus(net.arcs, pushed, v) == if v == net.Tail(h) then 1 else 0
    {
      PushSurplus(net, flow, h, v);
    }
  }

  // ---- potentials ----

  /** How far each node's potential rises: its depth, capped at the depth of the sink. */
  ghost function Rise(s: Search, sink: nat, v: nat): int
    requires |s.dist| == |s.pi| && sink < |s.dist| && v < |s.dist| && s.Reached(sink)
  {
    if s.Reached(v) && s.Depth(v) <= s.Depth(sink) then s.Depth(v) else s.Depth(sink)
  }

  ghost function Raised(s: Search, sink: nat): (r: seq<int>)
    requires 0 < |s.dist| == |s.pi| && sink < |s.dist| && s.Reached(sink)
    ensures |r| == |s.pi|
  {
    seq(|s.pi|, v requires 0 <= v < |s.pi| => s.pi[v] + Rise(s, sink, v))
  }

  /** Along an open residual edge the rise grows by no more than the reduced cost. */
  lemma RiseStep(net: Network, flow: seq<bool>, s: Search, sink: nat, h: Half)
    requires net.Shaped() && net.Complete() && net.Feasible(flow, s.pi) && s.Shortest(net, flow)
    requires sink < |s.dist| && s.Reached(sink) && h.arc < |net.arcs| && Open(flow, h)
    ensures Rise(s, sink, net.Head(h)) <=
      Rise(s, sink, net.Tail(h)) + net.Cost(h) + s.pi[net.Tail(h)] - s.pi[net.Head(h)]
  {
    var u, v := net.Tail(h), net.Head(h);
    assert if flow[h.arc] then net.Reduced(s.pi, h.arc) <= 0 else net.Reduced(s.pi, h.arc) >= 0;
    assert s.Depth(sink) >= 0;
    if s.Reached(u) {
      assert h in net.graph[u];
      var k :| 0 <= k < |net.graph[u]| && net.graph[u][k] == h;
      assert s.Settled(net, flow, u) && s.Relaxed(net, flow, u, k);
      assert s.Depth(v) <= s.Depth(u) + net.Cost(h) + s.pi[u] - s.pi[v];
    }
  }

  lemma RaisedFeasible(net: Network, flow: seq<bool>, s: Search, sink: nat)
    requires net.Shaped() && net.Complete() && net.Feasible(flow, s.pi) && s.Shortest(net, flow)
    requires sink < |s.dist| && s.Reached(sink)
    ensures net.Feasible(flow, Raised(s, sink))
  {
    forall a | 0 <= a < |net.arcs|
      ensures if flow[a] then net.Reduced(Raised(s, sink), a) <= 0 else net.Reduced(Raised(s, sink), a) >= 0
    {
      RiseStep(net, flow, s, sink, Half(a, !flow[a]));
    }
  }

  /** A predecessor link no deeper than the sink is tight under the raised potentials. */
  lemma ParentTight(net: Network, flow: seq<bool>, s: Search, sink: nat, v: nat)
    requires net.Shaped() && net.Complete() && net.Feasible(flow, s.pi) && s.Shortest(net, flow)
    requires sink < |s.dist| && s.Reached(sink)
    requires 0 < v < |s.dist| && s.Reached(v) && s.Depth(v) <= s.Depth(sink)
    ensures s.Linked(net, flow, v)
    ensures var h := net.graph[s.prevNode[v]][s.prevEdge[v]];
      h.arc < |net.arcs| && net.Tail(h) == s.prevNode[v] && net.Reduced(Raised(s, sink), h.arc) == 0
  {
    assert s.Linked(net, flow, v);
    var u, k := s.prevNode[v], s.prevEdge[v];
    var h := net.graph[u][k];
    assert net.Tail(h) == u;
    assert s.Settled(net, flow, u) && s.Relaxed(net, flow, u, k);
    assert s.Depth(u) <= s.Depth(v);
  }

  // ---- one augmentation ----

  /** A node already passed on the way back from the sink, or the current one. */
  ghost predicate Passed(s: Search, node: nat, v: nat)
    requires |s.dist| == |s.pi| == |s.stamp| && node < |s.dist| && s.Reached(node)
  {
    v < |s.dist| && s.Reached(v) && (v == node || s.Before(node, v))
  }

  /** The arcs changed so far are tight and join passed nodes. */
  ghost predicate Retraced(net: Network, flow: seq<bool>, s: Search, sink: nat, node: nat, f: seq<bool>)
    requires net.Shaped() && |flow| == |f| == |net.arcs| && s.Sized(net)
    requires node < |s.dist| && s.Reached(node) && sink < |s.dist| && s.Reached(sink)
  {
    forall a {:trigger f[a]} :: 0 <= a < |f| && f[a] != flow[a] ==>
      && net.Reduced(Raised(s, sink), a) == 0
      && Passed(s, node, net.arcs[a].from) && Passed(s, node, net.arcs[a].to)
  }

  /** One step back along the predecessor links. */
  lemma StepBack(net: Network, flow: seq<bool>, s: Search, sink: nat, node: nat, f: seq<bool>)
    requires net.Shaped() && net.Complete() && net.Feasible(flow, s.pi) && s.Shortest(net, flow)
    requires |f| == |flow| && 0 < node < |s.dist| && s.Reached(node) && sink < |s.dist| && s.Reached(sink)
    requires Passed(s, node, sink) && Retraced(net, flow, s, sink, node, f)
    ensures s.Linked(net, flow, node)
    ensures var u, h := s.prevNode[node], net.graph[s.prevNode[node]][s.prevEdge[node]];
      && h.arc < |f| && net.Tail(h) == u && net.Head(h) == node && Open(f, h) && s.Before(u, node)
      && Passed(s, u, sink) && Retraced(net, flow, s, sink, u, f[h.arc := !f[h.arc]])
  {
    ParentTight(net, flow, s, sink, node);
    var u, h := s.prevNode[node], net.graph[s.prevNode[node]][s.prevEdge[node]];
    var g := f[h.arc := !f[h.arc]];
    assert !Passed(s, node, u);
    forall a | 0 <= a < |g| && g[a] != flow[a]
      ensures net.Reduced(Raised(s, sink), a) == 0
      ensures Passed(s, u, net.arcs[a].from) && Passed(s, u, net.arcs[a].to)
    {
      if a != h.arc {
        assert f[a] != flow[a];
      }
    }
  }

  /** Pushing through the link arcs is what changes the number of links in use. */
  lemma PushLinks(net: Network, flow: seq<bool>, h: Half)
    requires net.Shaped() && |flow| == |net.arcs| && h.arc < |flow| && Open(flow, h)
    ensures Load(flow[h.arc := !flow[h.arc]], Links(net.arcs), 1) ==
      Load(flow, Links(net.arcs), 1) + (if net.arcs[h.arc].row < 0 then 0 else if h.forward then 1 else -1)
  {
    LoadFlip(flow, Links(net.arcs), 1, h.arc);
  }

  /** On the way back a link enters at a row node and leaves at a component node. */
  lemma LinkCrossing(net: Network, table: Table, m: nat, lay: Layout, h: Half)
    requires Built(net, table, m, lay) && h.arc < |net.arcs|
    requires net.Head(h) != 0 && net.Tail(h) != SinkNode(table, m)
    ensures var below := (v: nat) => if v <= |table| then 1 else 0;
      below(net.Tail(h)) - below(net.Head(h)) == if net.arcs[h.arc].row < 0 then 0 else if h.forward then 1 else -1
  {
    assert Classified(net.arcs, table, m, lay, h.arc);
  }

  /** Push one unit back from the sink along the predecessor links. */
  method Augment(net: Network, forward: array<int>, reverse: array<int>, previousNode: array<int>, previousEdge: array<int>,
                 table: Table, m: nat, ghost lay: Layout, ghost flow: seq<bool>, ghost s: Search)
    returns (ghost f: seq<bool>)
    requires Built(net, table, m, lay) && net.Feasible(flow, s.pi) && s.Shortest(net, flow)
    requires previousNode[..] == s.prevNode && previousEdge[..] == s.prevEdge
    requires forward != reverse && previousNode != forward && previousNode != reverse && previousEdge != forward && previousEdge != reverse
    requires Carries(flow, forward[..], reverse[..]) && Conserves(net, flow, 0)
    requires s.Reached(SinkNode(table, m))
    modifies forward, reverse
    ensures |f| == |flow| && Carries(f, forward[..], reverse[..]) && Conserves(net, f, 0)
    ensures net.Feasible(f, Raised(s, SinkNode(table, m)))
    ensures Load(f, Links(net.arcs), 1) == Load(flow, Links(net.arcs), 1) + 1
  {
    f := flow;
    ghost var sink := SinkNode(table, m);
    var node := |net.graph| - 1;
    while node != 0
      invariant 0 <= node < |s.dist| && s.Reached(node) && Passed(s, node, sink)
      invariant |f| == |flow| && Carries(f, forward[..], reverse[..])
      invariant Retraced(net, flow, s, sink, node, f)
      invariant Conserves(net, f, node)
      invariant Load(f, Links(net.arcs), 1) == Load(flow, Links(net.arcs), 1) + (if node <= |table| then 1 else 0)
      decreases s.Depth(node), s.stamp[node]
    {
      StepBack(net, flow, s, sink, node, f);
      var u := previousNode[node];
      var h := net.graph[u][previousEdge[node]];
      PushConserves(net, f, h);
      PushLinks(net, f, h);
      LinkCrossing(net, table, m, lay, h);
      assert s.Depth(u) >= 0 && s.Depth(node) >= 0;
      if h.forward {
        forward[h.arc] := forward[h.arc] - 1;
        reverse[h.arc] := reverse[h.arc] + 1;
      } else {
        reverse[h.arc] := reverse[h.arc] - 1;
        forward[h.arc] := forward[h.arc] + 1;
      }
      f := f[h.arc := !f[h.arc]];
      node := u;
    }
    RaisedFeasible(net, flow, s, sink);
    forall a | 0 <= a < |net.arcs|
      ensures if f[a] then net.Reduced(Raised(s, sink), a) <= 0 else net.Reduced(Raised(s, sink), a) >= 0
    {
      assert f[a] != flow[a] ==> net.Reduced(Raised(s, sink), a) == 0;
    }
  }
}
