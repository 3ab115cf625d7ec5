/** The queue-based Bellman-Ford search of one augmentation. */
module ShortestPaths {
  import opened ResidualNetwork

  datatype Distance = Infinity | Finite(value: int)

  /** What the search holds: distances, predecessor links and, as ghosts, the potentials that
      rule out negative cycles and the moment of each node's last improvement. */
  datatype Search = Search(dist: seq<Distance>, prevNode: seq<int>, prevEdge: seq<int>, stamp: seq<nat>, pi: seq<int>) {

    ghost predicate Sized(net: Network) {
      |dist| == |prevNode| == |prevEdge| == |stamp| == |pi| == |net.graph|
    }

    predicate Reached(v: nat)
      requires v < |dist|
    {
      dist[v].Finite?
    }

    /** The distance under reduced costs; never negative. */
    ghost function Depth(v: nat): int
      requires v < |dist| == |pi| && Reached(v)
    {
      dist[v].value + pi[0] - pi[v]
    }

    /** The order that predecessor links descend: by depth, then by time of improvement. */
    ghost predicate Before(u: nat, v: nat)
      requires |dist| == |pi| == |stamp| && u < |dist| && v < |dist| && Reached(u) && Reached(v)
    {
      Depth(u) < Depth(v) || (Depth(u) == Depth(v) && stamp[u] < stamp[v])
    }

    ghost predicate Linked(net: Network, flow: seq<bool>, v: nat)
      requires net.Shaped() && Sized(net) && |flow| == |net.arcs| && v < |dist| && Reached(v)
    {
      && 0 <= prevNode[v] < |net.graph| && 0 <= prevEdge[v] < |net.graph[prevNode[v]]|
      && var u, h := prevNode[v], net.graph[prevNode[v]][prevEdge[v]];
      && net.Head(h) == v && Open(flow, h) && Reached(u)
      && dist[v].value >= dist[u].value + net.Cost(h)
      && Before(u, v)
    }

    ghost predicate Tree(net: Network, flow: seq<bool>)
      requires net.Shaped() && |flow| == |net.arcs|
    {
      && Sized(net)
      && dist[0] == Finite(0) && prevNode[0] == -1
      && (forall v {:trigger Depth(v)} :: 0 <= v < |dist| && Reached(v) ==> Depth(v) >= 0)
      && (forall v {:trigger Linked(net, flow, v)} :: 0 < v < |dist| && Reached(v) ==> Linked(net, flow, v))
      && (forall v {:trigger prevNode[v]} :: 0 < v < |dist| && !Reached(v) ==> prevNode[v] == -1)
    }

    /** Edge `k` of node `u` offers no shorter way. */
    ghost predicate Relaxed(net: Network, flow: seq<bool>, u: nat, k: nat)
      requires net.Shaped() && Sized(net) && |flow| == |net.arcs|
      requires u < |dist| && Reached(u) && k < |net.graph[u]|
    {
      var h := net.graph[u][k];
      Open(flow, h) ==> Reached(net.Head(h)) && dist[net.Head(h)].value <= dist[u].value + net.Cost(h)
    }

    ghost predicate Settled(net: Network, flow: seq<bool>, u: nat)
      requires net.Shaped() && Sized(net) && |flow| == |net.arcs| && u < |dist|
    {
      Reached(u) ==> forall k {:trigger Relaxed(net, flow, u, k)} :: 0 <= k < |net.graph[u]| ==> Relaxed(net, flow, u, k)
    }

    /** The search is finished: exact distances over every residual edge. */
    ghost predicate Shortest(net: Network, flow: seq<bool>)
      requires net.Shaped() && |flow| == |net.arcs|
    {
      Tree(net, flow) && forall u {:trigger Settled(net, flow, u)} :: 0 <= u < |dist| ==> Settled(net, flow, u)
    }

    /** Node `v` is improved through edge `k` of node `u`. */
    function Improve(v: nat, d: int, u: nat, k: nat, now: nat): Search
      requires v < |dist| == |prevNode| == |prevEdge| == |stamp|
    {
      Search(dist[v := Finite(d)], prevNode[v := u], prevEdge[v := k], stamp[v := now], pi)
    }
  }

  ghost function Unreached(dist: seq<Distance>): nat {
    if dist == [] then 0
    else Unreached(dist[..|dist| - 1]) + (if dist[|dist| - 1].Infinity? then 1 else 0)
  }

  ghost function TotalDistance(dist: seq<Distance>): int {
    if dist == [] then 0
    else TotalDistance(dist[..|dist| - 1]) + (if dist[|dist| - 1].Finite? then dist[|dist| - 1].value else 0)
  }

  /** Setting one entry to a finite value lowers the number of unreached nodes,
      or keeps it and lowers the sum by the improvement. */
  lemma {:induction false} MeasureUpdate(dist: seq<Distance>, v: nat, d: int)
    requires v < |dist|
    ensures dist[v].Infinity? ==> Unreached(dist[v := Finite(d)]) == Unreached(dist) - 1
    ensures dist[v].Finite? ==>
      && Unreached(dist[v := Finite(d)]) == Unreached(dist)
      && TotalDistance(dist[v := Finite(d)]) == TotalDistance(dist) - dist[v].value + d
  {
    var n := |dist| - 1;
    if v == n {
      assert dist[v := Finite(d)][..n] == dist[..n];
    } else {
      MeasureUpdate(dist[..n], v, d);
      assert dist[v := Finite(d)][..n] == dist[..n][v := Finite(d)];
    }
  }

  /** The sum of the potentials of the reached nodes: a floor for the sum of their distances. */
  ghost function Floor(dist: seq<Distance>, pi: seq<int>): int
    requires 0 < |dist| <= |pi| || dist == []
  {
    if dist == [] then 0
    else Floor(dist[..|dist| - 1], pi) + (if dist[|dist| - 1].Finite? then pi[|dist| - 1] - pi[0] else 0)
  }

  lemma {:induction false} FloorUpdate(dist: seq<Distance>, pi: seq<int>, v: nat, d: int)
    requires v < |dist| <= |pi| && dist[v].Finite?
    ensures Floor(dist[v := Finite(d)], pi) == Floor(dist, pi)
  {
    var n := |dist| - 1;
    if v == n {
      assert dist[v := Finite(d)][..n] == dist[..n];
    } else {
      FloorUpdate(dist[..n], pi, v, d);
      assert dist[v := Finite(d)][..n] == dist[..n][v := Finite(d)];
    }
  }

  lemma {:induction false} AboveFloor(dist: seq<Distance>, pi: seq<int>)
    requires 0 < |dist| <= |pi| || dist == []
    requires forall v :: 0 <= v < |dist| && dist[v].Finite? ==> dist[v].value + pi[0] - pi[v] >= 0
    ensures TotalDistance(dist) >= Floor(dist, pi)
  {
    if dist != [] { AboveFloor(dist[..|dist| - 1], pi); }
  }

  /** Potentials forbid an improvement of the source and keep depths non-negative. */
  lemma ReducedStep(net: Network, flow: seq<bool>, s: Search, u: nat, k: nat)
    requires net.Shaped() && net.Feasible(flow, s.pi) && s.Tree(net, flow)
    requires u < |net.graph| && s.Reached(u) && k < |net.graph[u]| && Open(flow, net.graph[u][k])
    ensures var h := net.graph[u][k];
      s.dist[u].value + net.Cost(h) + s.pi[0] - s.pi[net.Head(h)] >= s.Depth(u)
  {
  }

  /** One improvement of v keeps the predecessor link of every other node. */
  lemma ImproveKeepsLinked(net: Network, flow: seq<bool>, s: Search, v: nat, d: int, u: nat, k: nat, now: nat, w: nat)
    requires net.Shaped() && s.Sized(net) && |flow| == |net.arcs|
    requires v < |s.dist| && (s.Reached(v) ==> d < s.dist[v].value)
    requires w < |s.dist| && w != v && s.Reached(w) && s.Linked(net, flow, w)
    ensures s.Improve(v, d, u, k, now).Linked(net, flow, w)
  {
  }

  /** The improved node itself is linked to its new predecessor. */
  lemma ImproveLinks(net: Network, flow: seq<bool>, s: Search, v: nat, d: int, u: nat, k: nat, now: nat)
    requires net.Shaped() && s.Sized(net) && |flow| == |net.arcs|
    requires u < |s.dist| && v < |s.dist| && u != v && s.Reached(u) && k < |net.graph[u]|
    requires var h := net.graph[u][k]; Open(flow, h) && net.Head(h) == v && d == s.dist[u].value + net.Cost(h)
    requires d + s.pi[0] - s.pi[v] >= s.Depth(u) && s.stamp[u] < now
    ensures s.Improve(v, d, u, k, now).Linked(net, flow, v)
  {
  }

  /** Edge k of node u leads to v, is open, and offers the shorter distance d. */
  ghost predicate Shortens(net: Network, flow: seq<bool>, s: Search, u: nat, k: nat, v: nat, d: int)
    requires net.Shaped() && s.Sized(net) && |flow| == |net.arcs|
  {
    && u < |s.dist| && s.Reached(u) && k < |net.graph[u]| && v < |s.dist|
    && Open(flow, net.graph[u][k]) && net.Head(net.graph[u][k]) == v && d == s.dist[u].value + net.Cost(net.graph[u][k])
    && (s.Reached(v) ==> d < s.dist[v].value)
  }

  /** One improvement keeps the predecessor links a tree. */
  lemma ImproveKeepsTree(net: Network, flow: seq<bool>, s: Search, u: nat, k: nat, v: nat, d: int, now: nat)
    requires net.Shaped() && net.Feasible(flow, s.pi) && s.Tree(net, flow)
    requires Shortens(net, flow, s, u, k, v, d)
    requires forall w :: 0 <= w < |s.stamp| ==> s.stamp[w] < now
    ensures v != 0 && v != u && s.Improve(v, d, u, k, now).Tree(net, flow)
  {
    ReducedStep(net, flow, s, u, k);
    var t := s.Improve(v, d, u, k, now);
    assert net.Tail(net.graph[u][k]) == u && u != v;
    assert v != 0;
    ImproveLinks(net, flow, s, v, d, u, k, now);
    forall w | 0 <= w < |t.dist| && t.Reached(w) && w != v
      ensures t.Depth(w) >= 0 && (w > 0 ==> t.Linked(net, flow, w))
    {
      assert t.Depth(w) == s.Depth(w);
      if w > 0 { ImproveKeepsLinked(net, flow, s, v, d, u, k, now, w); }
    }
  }

  /** One improvement leaves every other node's finished edges finished. */
  lemma ImproveKeepsRelaxed(net: Network, flow: seq<bool>, s: Search, v: nat, d: int, u: nat, k: nat, now: nat, w: nat, j: nat)
    requires net.Shaped() && s.Sized(net) && |flow| == |net.arcs|
    requires v < |s.dist| && (s.Reached(v) ==> d < s.dist[v].value)
    requires w < |s.dist| && w != v && s.Reached(w) && j < |net.graph[w]| && s.Relaxed(net, flow, w, j)
    ensures s.Improve(v, d, u, k, now).Relaxed(net, flow, w, j)
  {
  }

  ghost predicate Waiting(queue: seq<nat>, head: nat, v: nat) {
    exists i :: head <= i < |queue| && queue[i] == v
  }

  /** The work queue: `queue[head..]` holds each queued node once. */
  ghost predicate Queued(queue: seq<nat>, head: nat, queued: seq<bool>) {
    && head <= |queue|
    && (forall i :: head <= i < |queue| ==> queue[i] < |queued| && queued[queue[i]])
    && (forall i, j :: head <= i < j < |queue| ==> queue[i] != queue[j])
    && (forall v {:trigger Waiting(queue, head, v)} :: 0 <= v < |queued| && queued[v] ==> Waiting(queue, head, v))
  }

  ghost predicate AllSettled(net: Network, flow: seq<bool>, s: Search, queued: seq<bool>, except: int)
    requires net.Shaped() && s.Sized(net) && |flow| == |net.arcs| && |queued| == |s.dist|
  {
    forall w {:trigger s.Settled(net, flow, w)} :: 0 <= w < |s.dist| && w != except && !queued[w] ==> s.Settled(net, flow, w)
  }

  /** The termination measure fell: fewer unreached nodes, or a smaller sum of distances above the floor. */
  ghost predicate Improved(before: Search, after: Search) {
    || Unreached(after.dist) < Unreached(before.dist)
    || (&& Unreached(after.dist) == Unreached(before.dist)
        && |before.dist| == |after.dist| == |before.pi| && before.pi == after.pi
        && TotalDistance(after.dist) - Floor(after.dist, after.pi) < TotalDistance(before.dist) - Floor(before.dist, before.pi))
  }

  ghost predicate Unchanged(before: Search, queue: seq<nat>, after: Search, grown: seq<nat>) {
    before == after && queue == grown
  }

  /** The search state as it stands in the arrays. */
  ghost function View(distance: array<Distance>, previousNode: array<int>, previousEdge: array<int>,
                      stamp: seq<nat>, pi: seq<int>): Search
    reads distance, previousNode, previousEdge
  {
    Search(distance[..], previousNode[..], previousEdge[..], stamp, pi)
  }

  /** Between two edges of the node being scanned: a tree, a clean queue, everything settled that
      is neither queued nor `node`, and the first k edges of `node` relaxed. */
  ghost predicate Scanning(net: Network, flow: seq<bool>, s: Search, queued: seq<bool>, queue: seq<nat>, head: nat,
                           now: nat, node: int, k: nat)
    requires net.Shaped() && |flow| == |net.arcs|
  {
    && s.Tree(net, flow) && |queued| == |s.dist|
    && (forall v :: 0 <= v < |s.stamp| ==> s.stamp[v] < now)
    && Queued(queue, head, queued) && Enqueued(s, queue, head)
    && AllSettled(net, flow, s, queued, node)
    && (0 <= node < |s.dist| ==>
        s.Reached(node) && !queued[node] && k <= |net.graph[node]| && PartlyRelaxed(net, flow, s, node, k))
  }

  /** Only reached nodes wait in the queue. */
  ghost predicate Enqueued(s: Search, queue: seq<nat>, head: nat) {
    forall i :: head <= i < |queue| ==> queue[i] < |s.dist| && s.dist[queue[i]].Finite?
  }

  ghost predicate PartlyRelaxed(net: Network, flow: seq<bool>, s: Search, node: nat, k: nat)
    requires net.Shaped() && s.Sized(net) && |flow| == |net.arcs|
    requires node < |s.dist| && s.Reached(node) && k <= |net.graph[node]|
  {
    forall j {:trigger s.Relaxed(net, flow, node, j)} :: 0 <= j < k ==> s.Relaxed(net, flow, node, j)
  }

  lemma ImproveKeepsScanning(net: Network, flow: seq<bool>, s: Search, queued: seq<bool>, queue: seq<nat>, head: nat,
                             now: nat, node: nat, k: nat, v: nat, d: int)
    requires net.Shaped() && net.Feasible(flow, s.pi) && node < |net.graph|
    requires Scanning(net, flow, s, queued, queue, head, now, node, k) && Shortens(net, flow, s, node, k, v, d)
    ensures Scanning(net, flow, s.Improve(v, d, node, k, now), queued[v := true],
                     if queued[v] then queue else queue + [v], head, now + 1, node, k + 1)
  {
    ImproveKeepsTree(net, flow, s, node, k, v, d, now);
    ImproveKeepsSettled(net, flow, s, v, d, node, k, now, queued);
    EnqueueKeepsQueued(queue, head, queued, v);
    ImproveKeepsEnqueued(s, queue, head, v, d, node, k, now, queued[v]);
    StampsBelow(s, v, d, node, k, now);
  }

  lemma StampsBelow(s: Search, v: nat, d: int, u: nat, k: nat, now: nat)
    requires v < |s.dist| == |s.prevNode| == |s.prevEdge| == |s.stamp|
    requires forall w :: 0 <= w < |s.stamp| ==> s.stamp[w] < now
    ensures var t := s.Improve(v, d, u, k, now); forall w :: 0 <= w < |t.stamp| ==> t.stamp[w] < now + 1
  {
  }

  lemma ImproveKeepsEnqueued(s: Search, queue: seq<nat>, head: nat, v: nat, d: int, u: nat, k: nat, now: nat, waiting: bool)
    requires v < |s.dist| == |s.prevNode| == |s.prevEdge| == |s.stamp|
    requires Enqueued(s, queue, head)
    ensures Enqueued(s.Improve(v, d, u, k, now), if waiting then queue else queue + [v], head)
  {
  }

  lemma EnqueueKeepsQueued(queue: seq<nat>, head: nat, queued: seq<bool>, v: nat)
    requires Queued(queue, head, queued) && v < |queued|
    ensures Queued(if queued[v] then queue else queue + [v], head, queued[v := true])
  {
    if queued[v] {
      assert queued[v := true] == queued;
    } else {
      var grown := queue + [v];
      forall w | 0 <= w < |queued| && queued[v := true][w]
        ensures Waiting(grown, head, w)
      {
        if w == v {
          assert grown[|queue|] == v;
        } else {
          assert Waiting(queue, head, w);
          var i :| head <= i < |queue| && queue[i] == w;
          assert grown[i] == w;
        }
      }
    }
  }

  lemma DequeueKeepsQueued(queue: seq<nat>, head: nat, queued: seq<bool>)
    requires Queued(queue, head, queued) && head < |queue|
    ensures Queued(queue, head + 1, queued[queue[head] := false])
  {
    var q := queued[queue[head] := false];
    forall w | 0 <= w < |q| && q[w]
      ensures Waiting(queue, head + 1, w)
    {
      assert Waiting(queue, head, w);
    }
  }

  lemma SkipKeepsScanning(net: Network, flow: seq<bool>, s: Search, queued: seq<bool>, queue: seq<nat>, head: nat,
                          now: nat, node: nat, k: nat)
    requires net.Shaped() && |flow| == |net.arcs| && node < |net.graph| && k < |net.graph[node]|
    requires Scanning(net, flow, s, queued, queue, head, now, node, k) && s.Relaxed(net, flow, node, k)
    ensures Scanning(net, flow, s, queued, queue, head, now, node, k + 1)
  {
  }

  lemma ImproveImproves(s: Search, v: nat, d: int, u: nat, k: nat, now: nat)
    requires v < |s.dist| == |s.prevNode| == |s.prevEdge| == |s.stamp| == |s.pi|
    requires s.Reached(v) ==> d < s.dist[v].value
    ensures Improved(s, s.Improve(v, d, u, k, now))
  {
    MeasureUpdate(s.dist, v, d);
    if s.Reached(v) { FloorUpdate(s.dist, s.pi, v, d); }
  }

  /** Offer edge k of `node` to its end. */
  method Offer(net: Network, forward: array<int>, reverse: array<int>,
               distance: array<Distance>, previousNode: array<int>, previousEdge: array<int>, queued: array<bool>,
               queue: seq<nat>, node: nat, k: nat,
               ghost head: nat, ghost flow: seq<bool>, ghost pi: seq<int>, ghost stamp: seq<nat>, ghost now: nat)
    returns (grown: seq<nat>, ghost stamps: seq<nat>, ghost later: nat)
    requires net.Shaped() && net.Feasible(flow, pi) && Carries(flow, forward[..], reverse[..])
    requires previousNode != previousEdge
    requires previousNode != forward && previousNode != reverse && previousEdge != forward && previousEdge != reverse
    requires node < |net.graph| && k < |net.graph[node]|
    requires Scanning(net, flow, View(distance, previousNode, previousEdge, stamp, pi), queued[..], queue, head, now, node, k)
    modifies distance, previousNode, previousEdge, queued
    ensures Scanning(net, flow, View(distance, previousNode, previousEdge, stamps, pi), queued[..], grown, head, later, node, k + 1)
    ensures Unchanged(old(View(distance, previousNode, previousEdge, stamp, pi)), queue, View(distance, previousNode, previousEdge, stamps, pi), grown)
      || Improved(old(View(distance, previousNode, previousEdge, stamp, pi)), View(distance, previousNode, previousEdge, stamps, pi))
  {
    grown, stamps, later := queue, stamp, now;
    ghost var s := View(distance, previousNode, previousEdge, stamp, pi);
    var h := net.graph[node][k];
    var to := net.Head(h);
    var capacity := if h.forward then forward[h.arc] else reverse[h.arc];
    var next := distance[node].value + net.Cost(h);
    assert (capacity > 0) == Open(flow, h);
    if capacity <= 0 || (distance[to].Finite? && next >= distance[to].value) {
      SkipKeepsScanning(net, flow, s, queued[..], queue, head, now, node, k);
      return;
    }
    ghost var q := queued[..];
    ImproveKeepsScanning(net, flow, s, queued[..], queue, head, now, node, k, to, next);
    ImproveImproves(s, to, next, node, k, now);
    distance[to] := Finite(next);
    previousNode[to] := node;
    previousEdge[to] := k;
    stamps := stamps[to := later];
    later := later + 1;
    if !queued[to] {
      queued[to] := true;
      grown := grown + [to];
    }
    assert View(distance, previousNode, previousEdge, stamps, pi) == s.Improve(to, next, node, k, now);
    assert queued[..] == q[to := true];
  }

  /** Take one node off the queue and offer its residual edges to their ends. */
  method Scan(net: Network, forward: array<int>, reverse: array<int>,
              distance: array<Distance>, previousNode: array<int>, previousEdge: array<int>, queued: array<bool>,
              queue: seq<nat>, head: nat,
              ghost flow: seq<bool>, ghost pi: seq<int>, ghost stamp: seq<nat>, ghost now: nat)
    returns (grown: seq<nat>, ghost stamps: seq<nat>, ghost later: nat)
    requires net.Shaped() && net.Feasible(flow, pi) && Carries(flow, forward[..], reverse[..])
    requires previousNode != previousEdge
    requires previousNode != forward && previousNode != reverse && previousEdge != forward && previousEdge != reverse
    requires head < |queue|
    requires Scanning(net, flow, View(distance, previousNode, previousEdge, stamp, pi), queued[..], queue, head, now, -1, 0)
    modifies distance, previousNode, previousEdge, queued
    ensures Scanning(net, flow, View(distance, previousNode, previousEdge, stamps, pi), queued[..], grown, head + 1, later, -1, 0)
    ensures var before, after := old(View(distance, previousNode, previousEdge, stamp, pi)), View(distance, previousNode, previousEdge, stamps, pi);
      Unchanged(before, queue, after, grown) || Improved(before, after)
  {
    grown, stamps, later := queue, stamp, now;
    var node := queue[head];
    queued[node] := false;
    ghost var s := View(distance, previousNode, previousEdge, stamp, pi);
    assert s == old(View(distance, previousNode, previousEdge, stamp, pi));
    DequeueKeepsQueued(queue, head, old(queued[..]));
    assert queued[..] == old(queued[..])[node := false];
    for k := 0 to |net.graph[node]|
      invariant Scanning(net, flow, View(distance, previousNode, previousEdge, stamps, pi), queued[..], grown, head + 1, later, node, k)
      invariant Unchanged(s, queue, View(distance, previousNode, previousEdge, stamps, pi), grown)
        || Improved(s, View(distance, previousNode, previousEdge, stamps, pi))
    {
      grown, stamps, later := Offer(net, forward, reverse, distance, previousNode, previousEdge, queued,
                                    grown, node, k, head + 1, flow, pi, stamps, later);
    }
    assert View(distance, previousNode, previousEdge, stamps, pi).Settled(net, flow, node);
  }

  /** Improving v leaves the finished nodes other than v finished. */
  lemma ImproveKeepsSettled(net: Network, flow: seq<bool>, s: Search, v: nat, d: int, u: nat, k: nat, now: nat, queued: seq<bool>)
    requires net.Shaped() && s.Sized(net) && |flow| == |net.arcs| && |queued| == |s.dist|
    requires u != v && Shortens(net, flow, s, u, k, v, d) && AllSettled(net, flow, s, queued, u)
    requires PartlyRelaxed(net, flow, s, u, k)
    ensures AllSettled(net, flow, s.Improve(v, d, u, k, now), queued[v := true], u)
    ensures PartlyRelaxed(net, flow, s.Improve(v, d, u, k, now), u, k + 1)
  {
    var t := s.Improve(v, d, u, k, now);
    forall w | 0 <= w < |s.dist| && w != u && w != v && !queued[w] && t.Reached(w)
      ensures t.Settled(net, flow, w)
    {
      forall j | 0 <= j < |net.graph[w]|
        ensures t.Relaxed(net, flow, w, j)
      {
        assert s.Settled(net, flow, w);
        assert s.Relaxed(net, flow, w, j);
        ImproveKeepsRelaxed(net, flow, s, v, d, u, k, now, w, j);
      }
    }
    forall j | 0 <= j < k
      ensures t.Relaxed(net, flow, u, j)
    {
      ImproveKeepsRelaxed(net, flow, s, v, d, u, k, now, u, j);
    }
  }

  /** Bellman-Ford from node 0 with a queue; it ends because no residual cycle is negative. */
  method FindShortest(net: Network, forward: array<int>, reverse: array<int>, ghost flow: seq<bool>, ghost pi: seq<int>)
    returns (distance: array<Distance>, previousNode: array<int>, previousEdge: array<int>, ghost stamp: seq<nat>)
    requires net.Shaped() && net.Feasible(flow, pi) && Carries(flow, forward[..], reverse[..])
    ensures fresh(distance) && fresh(previousNode) && fresh(previousEdge)
    ensures View(distance, previousNode, previousEdge, stamp, pi).Shortest(net, flow)
  {
    var size := |net.graph|;
    distance := new Distance[size](_ => Infinity);
    previousNode := new int[size](_ => -1);
    previousEdge := new int[size](_ => -1);
    var queued := new bool[size](_ => false);
    var queue: seq<nat>, head := [0], 0;
    distance[0] := Finite(0);
    queued[0] := true;
    stamp := seq(size, _ => 0);
    ghost var now := 1;
    ghost var s := View(distance, previousNode, previousEdge, stamp, pi);
    StartScanning(net, flow, s, queued[..]);
    while head < |queue|
      invariant s == View(distance, previousNode, previousEdge, stamp, pi)
      invariant Scanning(net, flow, s, queued[..], queue, head, now, -1, 0)
      decreases Unreached(s.dist), TotalDistance(s.dist) - Floor(s.dist, pi), |queue| - head
    {
      forall v | 0 <= v < |s.dist| && s.Reached(v)
        ensures s.dist[v].value + pi[0] - pi[v] >= 0
      {
        assert s.Depth(v) >= 0;
      }
      AboveFloor(s.dist, pi);
      queue, stamp, now := Scan(net, forward, reverse, distance, previousNode, previousEdge, queued,
                                queue, head, flow, pi, stamp, now);
      head := head + 1;
      s := View(distance, previousNode, previousEdge, stamp, pi);
    }
    DrainedIsShortest(net, flow, s, queued[..], queue, head, now);
  }

  lemma StartScanning(net: Network, flow: seq<bool>, s: Search, queued: seq<bool>)
    requires net.Shaped() && |flow| == |net.arcs| && s.Sized(net) && |queued| == |net.graph|
    requires s.dist == seq(|net.graph|, v => if v == 0 then Finite(0) else Infinity)
    requires s.prevNode == seq(|net.graph|, _ => -1) && s.stamp == seq(|net.graph|, _ => 0)
    requires queued == seq(|net.graph|, v => v == 0)
    ensures Scanning(net, flow, s, queued, [0], 0, 1, -1, 0)
  {
    assert [0][0] == 0 && Waiting([0], 0, 0);
  }

  lemma DrainedIsShortest(net: Network, flow: seq<bool>, s: Search, queued: seq<bool>, queue: seq<nat>, head: nat, now: nat)
    requires net.Shaped() && |flow| == |net.arcs| && Scanning(net, flow, s, queued, queue, head, now, -1, 0)
    requires head >= |queue|
    ensures s.Shortest(net, flow)
  {
    forall w | 0 <= w < |s.dist|
      ensures s.Settled(net, flow, w)
    {
      assert queued[w] ==> Waiting(queue, head, w);
    }
  }
}
