/** Packing candidate pairs into judge batches, and counting finished chunks per primary product. */
module BatchPacking {
  import opened Collections
  import opened Wrappers

  /** A primary product with candidates, or the chunk of them that one batch carries. */
  datatype Group = Group(primary: string, candidates: seq<string>)

  type Batch = seq<Group>
  type Pair = (string, string)

  // ---- pairs ----

  function Pairs(primary: string, candidates: seq<string>): (r: seq<Pair>)
    ensures |r| == |candidates|
  {
    if candidates == [] then [] else Pairs(primary, candidates[..|candidates| - 1]) + [(primary, candidates[|candidates| - 1])]
  }

  function PairsOf(g: Group): seq<Pair> { Pairs(g.primary, g.candidates) }

  function AllPairs(gs: seq<Group>): seq<Pair> {
    if gs == [] then [] else AllPairs(gs[..|gs| - 1]) + PairsOf(gs[|gs| - 1])
  }

  function BatchPairs(bs: seq<Batch>): seq<Pair> {
    if bs == [] then [] else BatchPairs(bs[..|bs| - 1]) + AllPairs(bs[|bs| - 1])
  }

  function Names(gs: seq<Group>): set<string> {
    if gs == [] then {} else Names(gs[..|gs| - 1]) + {gs[|gs| - 1].primary}
  }

  /** No primary occurs twice. */
  predicate Apart(gs: seq<Group>) {
    gs == [] || (Apart(gs[..|gs| - 1]) && gs[|gs| - 1].primary !in Names(gs[..|gs| - 1]))
  }

  /** No chunk is empty. */
  ghost predicate Filled(gs: seq<Group>) { forall i :: 0 <= i < |gs| ==> gs[i].candidates != [] }

  ghost predicate Fits(b: Batch, maxPairs: nat, maxGroups: nat) {
    1 <= |AllPairs(b)| <= maxPairs && 1 <= |b| <= maxGroups && Filled(b) && Apart(b)
  }

  ghost predicate AllFit(bs: seq<Batch>, maxPairs: nat, maxGroups: nat) {
    forall i :: 0 <= i < |bs| ==> Fits(bs[i], maxPairs, maxGroups)
  }

  lemma BatchPairsSnoc(bs: seq<Batch>, b: Batch)
    ensures BatchPairs(bs + [b]) == BatchPairs(bs) + AllPairs(b)
  {
  }

  lemma {:induction false} PairsSplit(g: Group, a: nat, b: nat)
    requires a <= b <= |g.candidates|
    ensures PairsOf(Group(g.primary, g.candidates[..a])) + PairsOf(Group(g.primary, g.candidates[a..b]))
      == PairsOf(Group(g.primary, g.candidates[..b]))
  {
    if a == b {
      assert g.candidates[a..b] == [];
    } else {
      PairsSplit(g, a, b - 1);
      assert g.candidates[a..b][..b - a - 1] == g.candidates[a..b - 1];
      assert g.candidates[..b][..b - 1] == g.candidates[..b - 1];
    }
  }

  lemma {:induction false} ApartPrefix(gs: seq<Group>, n: nat)
    requires Apart(gs) && n <= |gs|
    ensures Apart(gs[..n])
    decreases |gs|
  {
    if n < |gs| {
      assert gs[..|gs| - 1][..n] == gs[..n];
      ApartPrefix(gs[..|gs| - 1], n);
    } else {
      assert gs[..n] == gs;
    }
  }

  lemma NextGroup(gs: seq<Group>, n: nat)
    requires Apart(gs) && n < |gs|
    ensures AllPairs(gs[..n + 1]) == AllPairs(gs[..n]) + PairsOf(gs[n])
    ensures Names(gs[..n + 1]) == Names(gs[..n]) + {gs[n].primary} && gs[n].primary !in Names(gs[..n])
  {
    var front := gs[..n + 1];
    assert front[..n] == gs[..n] && front[n] == gs[n];
    ApartPrefix(gs, n + 1);
  }

  // ---- packing ----

  /** The batch being filled, while a group is packed from `offset` on: it fits, and holds nothing of the
      group unless the batch is full. */
  ghost predicate Open(batch: Batch, g: Group, offset: nat, maxPairs: nat, maxGroups: nat) {
    && |AllPairs(batch)| <= maxPairs && |batch| <= maxGroups && Filled(batch) && Apart(batch)
    && (batch != [] ==> 1 <= |AllPairs(batch)|)
    && (0 < offset < |g.candidates| ==> |AllPairs(batch)| == maxPairs)
    && (offset == 0 ==> g.primary !in Names(batch))
  }

  /** Where the next chunk ends. */
  function Reach(batch: Batch, g: Group, offset: nat, maxPairs: nat): (end: nat)
    requires offset < |g.candidates| && |AllPairs(batch)| < maxPairs
    ensures offset < end <= |g.candidates|
  {
    if |g.candidates| - offset < maxPairs - |AllPairs(batch)| then |g.candidates| else offset + maxPairs - |AllPairs(batch)|
  }

  /** A batch that can take a chunk of the group. */
  ghost predicate Roomy(batch: Batch, g: Group, maxPairs: nat, maxGroups: nat) {
    |AllPairs(batch)| < maxPairs && |batch| < maxGroups && Filled(batch) && Apart(batch) && g.primary !in Names(batch)
  }

  lemma ChunkFits(batch: Batch, g: Group, offset: nat, maxPairs: nat, maxGroups: nat)
    requires Roomy(batch, g, maxPairs, maxGroups) && offset < |g.candidates|
    ensures var end := Reach(batch, g, offset, maxPairs); var chunk := Group(g.primary, g.candidates[offset..end]);
      && Open(batch + [chunk], g, end, maxPairs, maxGroups)
      && AllPairs(batch + [chunk]) == AllPairs(batch) + PairsOf(chunk)
      && |AllPairs(batch + [chunk])| == |AllPairs(batch)| + end - offset
      && Names(batch + [chunk]) == Names(batch) + {g.primary}
  {
    var chunk := Group(g.primary, g.candidates[offset..Reach(batch, g, offset, maxPairs)]);
    assert (batch + [chunk])[..|batch|] == batch;
  }

  method Flush(batches: seq<Batch>, batch: Batch, maxPairs: nat, maxGroups: nat) returns (r: seq<Batch>)
    requires AllFit(batches, maxPairs, maxGroups) && Fits(batch, maxPairs, maxGroups)
    ensures AllFit(r, maxPairs, maxGroups) && BatchPairs(r) == BatchPairs(batches) + AllPairs(batch)
  {
    BatchPairsSnoc(batches, batch);
    r := batches + [batch];
  }

  /** A full batch is put aside. */
  method MakeRoom(done: seq<Batch>, open: Batch, count: nat, g: Group, offset: nat, maxPairs: nat, maxGroups: nat)
    returns (batches: seq<Batch>, batch: Batch, pairCount: nat)
    requires maxPairs >= 1 && maxGroups >= 1 && AllFit(done, maxPairs, maxGroups) && Open(open, g, offset, maxPairs, maxGroups)
    requires offset < |g.candidates| && count == |AllPairs(open)|
    ensures AllFit(batches, maxPairs, maxGroups) && Roomy(batch, g, maxPairs, maxGroups) && pairCount == |AllPairs(batch)|
    ensures BatchPairs(batches) + AllPairs(batch) == BatchPairs(done) + AllPairs(open)
    ensures batch == open || batch == []
  {
    batches, batch, pairCount := done, open, count;
    if batch != [] && (pairCount >= maxPairs || |batch| >= maxGroups) {
      batches := Flush(batches, batch, maxPairs, maxGroups);
      batch, pairCount := [], 0;
    }
  }

  /** As much of the group as the batch has room for. */
  method AddChunk(open: Batch, count: nat, g: Group, offset: nat, maxPairs: nat, maxGroups: nat)
    returns (batch: Batch, pairCount: nat, end: nat)
    requires Roomy(open, g, maxPairs, maxGroups) && offset < |g.candidates| && count == |AllPairs(open)|
    ensures offset < end <= |g.candidates| && Open(batch, g, end, maxPairs, maxGroups) && pairCount == |AllPairs(batch)|
    ensures AllPairs(batch) == AllPairs(open) + PairsOf(Group(g.primary, g.candidates[offset..end]))
    ensures Names(batch) == Names(open) + {g.primary}
  {
    var left, room := |g.candidates| - offset, maxPairs - count;
    var take := if left < room then left else room;
    end := offset + take;
    assert end == Reach(open, g, offset, maxPairs);
    ChunkFits(open, g, offset, maxPairs, maxGroups);
    batch := open + [Group(g.primary, g.candidates[offset..end])];
    pairCount := count + take;
  }

  /** The next chunk of a group, in the open batch or, if that is full, in a new one. */
  method TakeChunk(done: seq<Batch>, open: Batch, count: nat, g: Group, offset: nat, maxPairs: nat, maxGroups: nat)
    returns (batches: seq<Batch>, batch: Batch, pairCount: nat, end: nat)
    requires maxPairs >= 1 && maxGroups >= 1 && AllFit(done, maxPairs, maxGroups) && Open(open, g, offset, maxPairs, maxGroups)
    requires offset < |g.candidates| && count == |AllPairs(open)|
    ensures AllFit(batches, maxPairs, maxGroups) && offset < end <= |g.candidates| && Open(batch, g, end, maxPairs, maxGroups)
    ensures BatchPairs(batches) + AllPairs(batch)
      == BatchPairs(done) + AllPairs(open) + PairsOf(Group(g.primary, g.candidates[offset..end]))
    ensures pairCount == |AllPairs(batch)|
    ensures Names(batch) <= Names(open) + {g.primary}
  {
    var roomy, roomyCount;
    batches, roomy, roomyCount := MakeRoom(done, open, count, g, offset, maxPairs, maxGroups);
    batch, pairCount, end := AddChunk(roomy, roomyCount, g, offset, maxPairs, maxGroups);
    Associates(BatchPairs(batches), AllPairs(roomy), PairsOf(Group(g.primary, g.candidates[offset..end])));
  }

  /** Chunks of one group, added to the open batch and to new ones. */
  method PackGroup(done: seq<Batch>, open: Batch, g: Group, maxPairs: nat, maxGroups: nat)
    returns (batches: seq<Batch>, batch: Batch)
    requires maxPairs >= 1 && maxGroups >= 1 && AllFit(done, maxPairs, maxGroups) && Open(open, g, 0, maxPairs, maxGroups)
    ensures AllFit(batches, maxPairs, maxGroups) && Open(batch, g, |g.candidates|, maxPairs, maxGroups)
    ensures BatchPairs(batches) + AllPairs(batch) == BatchPairs(done) + AllPairs(open) + PairsOf(g)
    ensures Names(batch) <= Names(open) + {g.primary}
  {
    batches, batch := done, open;
    var pairCount, offset := |AllPairs(batch)|, 0;
    ghost var before := BatchPairs(done) + AllPairs(open);
    assert PairsOf(Group(g.primary, g.candidates[..0])) == [];
    while offset < |g.candidates|
      invariant offset <= |g.candidates| && AllFit(batches, maxPairs, maxGroups) && Open(batch, g, offset, maxPairs, maxGroups)
      invariant pairCount == |AllPairs(batch)|
      invariant BatchPairs(batches) + AllPairs(batch) == before + PairsOf(Group(g.primary, g.candidates[..offset]))
      invariant Names(batch) <= Names(open) + {g.primary}
    {
      ghost var start := offset;
      batches, batch, pairCount, offset := TakeChunk(batches, batch, pairCount, g, offset, maxPairs, maxGroups);
      PairsSplit(g, start, offset);
      Associates(before, PairsOf(Group(g.primary, g.candidates[..start])), PairsOf(Group(g.primary, g.candidates[start..offset])));
    }
    assert g.candidates[..|g.candidates|] == g.candidates;
  }

  /** Batches hold exactly the pairs of the groups, in order; each has 1 to maxPairs pairs in at most maxGroups
      chunks, none empty, and names a primary at most once. */
  method PackJudgeBatches(groups: seq<Group>, maxPairs: nat, maxGroups: nat) returns (batches: seq<Batch>)
    requires maxPairs >= 1 && maxGroups >= 1 && Apart(groups)
    ensures BatchPairs(batches) == AllPairs(groups)
    ensures AllFit(batches, maxPairs, maxGroups)
  {
    batches := [];
    var batch: Batch := [];
    for n := 0 to |groups|
      invariant AllFit(batches, maxPairs, maxGroups)
      invariant |AllPairs(batch)| <= maxPairs && |batch| <= maxGroups && Filled(batch) && Apart(batch)
      invariant batch != [] ==> 1 <= |AllPairs(batch)|
      invariant BatchPairs(batches) + AllPairs(batch) == AllPairs(groups[..n])
      invariant Names(batch) <= Names(groups[..n])
    {
      NextGroup(groups, n);
      batches, batch := PackGroup(batches, batch, groups[n], maxPairs, maxGroups);
    }
    assert groups[..|groups|] == groups;
    if batch != [] { batches := Flush(batches, batch, maxPairs, maxGroups); }
  }

  // ---- judging a batch ----

  /** What a batch gets: a stored checkpoint, if one loads, and the judge's answer, if it arrives. */
  datatype Answer = Answer(checkpoint: Option<seq<Pair>>, judged: Option<seq<Pair>>)

  function Occurs(s: seq<Pair>, x: Pair): nat { multiset(s)[x] }

  /** A checkpoint counts only when it holds every pair of the batch once and nothing else. */
  predicate Replays(b: Batch, items: seq<Pair>) {
    var expected := AllPairs(b);
    (forall x :: x in items ==> x in expected && Occurs(items, x) == 1) && forall x :: x in expected ==> x in items
  }

  /** A group is assessed when every one of its pairs was answered once. */
  predicate Answered(g: Group, items: seq<Pair>) { forall x :: x in PairsOf(g) ==> Occurs(items, x) == 1 }

  predicate Assessed(b: Batch, a: Answer, g: Group) {
    if a.checkpoint.Some? && Replays(b, a.checkpoint.value) then true
    else a.judged.Some? && Answered(g, a.judged.value)
  }

  /** The assessments that a batch contributes: whole groups only. */
  function Kept(gs: seq<Group>, b: Batch, a: Answer): seq<Pair> {
    if gs == [] then []
    else Kept(gs[..|gs| - 1], b, a) + (if Assessed(b, a, gs[|gs| - 1]) then PairsOf(gs[|gs| - 1]) else [])
  }

  function Contribution(b: Batch, a: Answer): seq<Pair> {
    if a.checkpoint.Some? && Replays(b, a.checkpoint.value) then a.checkpoint.value else Kept(b, b, a)
  }

  function Chunks(gs: seq<Group>, p: string): nat {
    if gs == [] then 0 else Chunks(gs[..|gs| - 1], p) + (if gs[|gs| - 1].primary == p then 1 else 0)
  }

  function AssessedChunks(gs: seq<Group>, b: Batch, a: Answer, p: string): nat {
    if gs == [] then 0
    else AssessedChunks(gs[..|gs| - 1], b, a, p) + (if gs[|gs| - 1].primary == p && Assessed(b, a, gs[|gs| - 1]) then 1 else 0)
  }

  type Counts = map<string, nat>

  function CountAt(m: Counts, p: string): nat { if p in m then m[p] else 0 }

  /** Completed chunks per primary, and the assessments so far. */
  class ChunkTally {
    var completed: Counts
    var assessments: seq<Pair>

    constructor ()
      ensures completed == map[] && assessments == []
    {
      completed, assessments := map[], [];
    }

    /** The callback of one batch. */
    method Record(b: Batch, a: Answer)
      modifies this
      ensures forall p :: CountAt(completed, p) == CountAt(old(completed), p) + AssessedChunks(b, b, a, p)
      ensures assessments == old(assessments) + Contribution(b, a)
    {
      for n := 0 to |b|
        invariant forall p :: CountAt(completed, p) == CountAt(old(completed), p) + AssessedChunks(b[..n], b, a, p)
        invariant assessments == old(assessments)
      {
        assert b[..n + 1][..n] == b[..n];
        if Assessed(b, a, b[n]) { completed := completed[b[n].primary := CountAt(completed, b[n].primary) + 1]; }
      }
      assert b[..|b|] == b;
      assessments := assessments + Contribution(b, a);
    }
  }

  // ---- what a batch contributes to one primary ----

  /** The candidates of a chunk are different products. */
  ghost predicate Distinct(b: Batch) {
    Apart(b) && Filled(b) && forall i :: 0 <= i < |b| ==> forall x :: x in PairsOf(b[i]) ==> Occurs(PairsOf(b[i]), x) == 1
  }

  lemma {:induction false} PairsNamed(primary: string, candidates: seq<string>, x: Pair)
    requires x in Pairs(primary, candidates)
    ensures x.0 == primary
  {
    if x != (primary, candidates[|candidates| - 1]) { PairsNamed(primary, candidates[..|candidates| - 1], x); }
  }

  lemma PairsOwn(g: Group, x: Pair)
    ensures x in PairsOf(g) ==> x.0 == g.primary
    ensures x.0 != g.primary ==> Occurs(PairsOf(g), x) == 0
  {
    assert x in PairsOf(g) <==> x in multiset(PairsOf(g));
    if x in PairsOf(g) { PairsNamed(g.primary, g.candidates, x); }
  }

  lemma {:induction false} NoChunkNoPairs(gs: seq<Group>, p: string, c: string)
    requires Chunks(gs, p) == 0
    ensures Occurs(AllPairs(gs), (p, c)) == 0
  {
    if gs != [] {
      NoChunkNoPairs(gs[..|gs| - 1], p, c);
      PairsOwn(gs[|gs| - 1], (p, c));
    }
  }

  lemma {:induction false} AbsentMeansNoChunk(gs: seq<Group>, p: string)
    requires p !in Names(gs)
    ensures Chunks(gs, p) == 0
  {
    if gs != [] { AbsentMeansNoChunk(gs[..|gs| - 1], p); }
  }

  lemma {:induction false} AssessedAtMost(gs: seq<Group>, b: Batch, a: Answer, p: string)
    ensures AssessedChunks(gs, b, a, p) <= Chunks(gs, p)
  {
    if gs != [] { AssessedAtMost(gs[..|gs| - 1], b, a, p); }
  }

  /** A chunk of p that was assessed contributes its pairs; one that was not contributes nothing. */
  lemma {:induction false} KeptCounts(gs: seq<Group>, b: Batch, a: Answer, p: string, c: string)
    requires Apart(gs)
    ensures Chunks(gs, p) <= 1
    ensures Occurs(Kept(gs, b, a), (p, c)) == if AssessedChunks(gs, b, a, p) == Chunks(gs, p) then Occurs(AllPairs(gs), (p, c)) else 0
  {
    if gs != [] {
      var n := |gs| - 1;
      KeptCounts(gs[..n], b, a, p, c);
      PairsOwn(gs[n], (p, c));
      AssessedAtMost(gs[..n], b, a, p);
      if gs[n].primary == p {
        AbsentMeansNoChunk(gs[..n], p);
        NoChunkNoPairs(gs[..n], p, c);
      }
      if Chunks(gs[..n], p) == 0 { NoChunkNoPairs(gs[..n], p, c); }
    }
  }

  lemma {:induction false} OccursOnce(gs: seq<Group>, x: Pair)
    requires Apart(gs) && forall i :: 0 <= i < |gs| ==> forall y :: y in PairsOf(gs[i]) ==> Occurs(PairsOf(gs[i]), y) == 1
    ensures Occurs(AllPairs(gs), x) == if x in AllPairs(gs) then 1 else 0
  {
    if gs != [] {
      var n := |gs| - 1;
      OccursOnce(gs[..n], x);
      PairsOwn(gs[n], x);
      assert x in PairsOf(gs[n]) <==> x in multiset(PairsOf(gs[n]));
      if x.0 == gs[n].primary {
        AbsentMeansNoChunk(gs[..n], x.0);
        NoChunkNoPairs(gs[..n], x.0, x.1);
        assert x in AllPairs(gs[..n]) <==> x in multiset(AllPairs(gs[..n]));
      }
    }
  }

  lemma {:induction false} AllAssessed(gs: seq<Group>, b: Batch, a: Answer, p: string)
    requires forall g :: g in gs ==> Assessed(b, a, g)
    ensures AssessedChunks(gs, b, a, p) == Chunks(gs, p)
  {
    if gs != [] {
      assert forall g :: g in gs[..|gs| - 1] ==> g in gs;
      AllAssessed(gs[..|gs| - 1], b, a, p);
    }
  }

  /** A batch, replayed or judged, contributes the pairs of p exactly once if p's chunk was assessed, and none
      of them if it was not. */
  lemma ContributionCounts(b: Batch, a: Answer, p: string, c: string)
    requires Distinct(b)
    ensures Occurs(Contribution(b, a), (p, c)) == if AssessedChunks(b, b, a, p) == Chunks(b, p) then Occurs(AllPairs(b), (p, c)) else 0
  {
    if a.checkpoint.Some? && Replays(b, a.checkpoint.value) {
      var items := a.checkpoint.value;
      AllAssessed(b, b, a, p);
      OccursOnce(b, (p, c));
      assert (p, c) in items <==> (p, c) in multiset(items);
    } else {
      KeptCounts(b, b, a, p, c);
    }
  }

  /** A stored checkpoint counts exactly when it holds the batch's pairs, each once. */
  lemma ReplaysExactly(b: Batch, items: seq<Pair>)
    requires Distinct(b)
    ensures Replays(b, items) <==> multiset(items) == multiset(AllPairs(b))
  {
    forall x
      ensures Occurs(AllPairs(b), x) == if x in AllPairs(b) then 1 else 0
    {
      OccursOnce(b, x);
    }
    assert forall x :: x in items <==> x in multiset(items);
    assert forall x :: x in AllPairs(b) <==> x in multiset(AllPairs(b));
    if Replays(b, items) {
      forall x
        ensures multiset(items)[x] == multiset(AllPairs(b))[x]
      {
        assert Occurs(items, x) == if x in items then 1 else 0;
      }
    }
    if multiset(items) == multiset(AllPairs(b)) {
      forall x | x in items
        ensures x in AllPairs(b) && Occurs(items, x) == 1
      {
        assert Occurs(items, x) == Occurs(AllPairs(b), x);
      }
    }
  }

  lemma {:induction false} NamedByPair(gs: seq<Group>, x: Pair)
    requires x in AllPairs(gs)
    ensures x.0 in Names(gs) && Chunks(gs, x.0) > 0
  {
    var init, g := gs[..|gs| - 1], gs[|gs| - 1];
    if x in PairsOf(g) { PairsOwn(g, x); } else { NamedByPair(init, x); }
  }

  /** The answer to p: each of its pairs in the batch, once. */
  ghost predicate AnsweredOnce(b: Batch, items: seq<Pair>, p: string) { forall x :: x in AllPairs(b) && x.0 == p ==> Occurs(items, x) == 1 }

  lemma {:induction false} ChunkAnswered(gs: seq<Group>, b: Batch, a: Answer, p: string)
    requires Apart(gs) && p in Names(gs) && !(a.checkpoint.Some? && Replays(b, a.checkpoint.value))
    ensures AssessedChunks(gs, b, a, p) == if a.judged.Some? && AnsweredOnce(gs, a.judged.value, p) then 1 else 0
  {
    var init, g := gs[..|gs| - 1], gs[|gs| - 1];
    forall x: Pair | x.0 == p
      ensures x in AllPairs(gs) <==> x in (if g.primary == p then PairsOf(g) else AllPairs(init))
    {
      PairsOwn(g, x);
      if g.primary == p {
        AbsentMeansNoChunk(init, p);
        NoChunkNoPairs(init, p, x.1);
        assert x in AllPairs(init) <==> x in multiset(AllPairs(init));
      }
    }
    if g.primary == p {
      AbsentMeansNoChunk(init, p);
      AssessedAtMost(init, b, a, p);
      forall x | x in PairsOf(g)
        ensures x.0 == p
      {
        PairsOwn(g, x);
      }
    } else {
      ChunkAnswered(init, b, a, p);
    }
  }

  /** What the judge's answer, or the checkpoint that stands in for it, is worth. A checkpoint with exactly the
      batch's pairs is taken as it is. Otherwise the pairs of a primary count, each once, if the judge answered
      each of them once, and none of them does if it did not. */
  lemma AnswerIsWorth(b: Batch, a: Answer, p: string, c: string)
    requires Distinct(b) && (p, c) in AllPairs(b)
    ensures if a.checkpoint.Some? && multiset(a.checkpoint.value) == multiset(AllPairs(b)) then Contribution(b, a) == a.checkpoint.value
      else Occurs(Contribution(b, a), (p, c)) == if a.judged.Some? && AnsweredOnce(b, a.judged.value, p) then 1 else 0
  {
    if a.checkpoint.Some? { ReplaysExactly(b, a.checkpoint.value); }
    if !(a.checkpoint.Some? && Replays(b, a.checkpoint.value)) {
      NamedByPair(b, (p, c));
      ChunkAnswered(b, b, a, p);
      KeptCounts(b, b, a, p, c);
      OccursOnce(b, (p, c));
    }
  }

  // ---- all batches, in whatever order they end ----

  /** Chunks of p over the batches whose numbers are in `ended`, expected and completed, and pairs contributed. */
  function Expected(bs: seq<Batch>, ended: set<nat>, p: string, n: nat): nat
    requires n <= |bs|
  {
    if n == 0 then 0 else Expected(bs, ended, p, n - 1) + (if n - 1 in ended then Chunks(bs[n - 1], p) else 0)
  }

  function Completed(bs: seq<Batch>, answers: seq<Answer>, ended: set<nat>, p: string, n: nat): nat
    requires n <= |bs| == |answers|
  {
    if n == 0 then 0
    else
      Completed(bs, answers, ended, p, n - 1)
        + (if n - 1 in ended then AssessedChunks(bs[n - 1], bs[n - 1], answers[n - 1], p) else 0)
  }

  function Given(bs: seq<Batch>, answers: seq<Answer>, ended: set<nat>, x: Pair, n: nat): nat
    requires n <= |bs| == |answers|
  {
    if n == 0 then 0
    else
      Given(bs, answers, ended, x, n - 1)
        + (if n - 1 in ended then Occurs(Contribution(bs[n - 1], answers[n - 1]), x) else 0)
  }

  lemma {:induction false} OneMoreEnds(bs: seq<Batch>, answers: seq<Answer>, ended: set<nat>, i: nat, p: string, x: Pair, n: nat)
    requires n <= |bs| == |answers| && i < |bs| && i !in ended
    ensures Completed(bs, answers, ended + {i}, p, n)
      == Completed(bs, answers, ended, p, n) + (if i < n then AssessedChunks(bs[i], bs[i], answers[i], p) else 0)
    ensures Given(bs, answers, ended + {i}, x, n)
      == Given(bs, answers, ended, x, n) + (if i < n then Occurs(Contribution(bs[i], answers[i]), x) else 0)
  {
    if n > 0 { OneMoreEnds(bs, answers, ended, i, p, x, n - 1); }
  }

  lemma {:induction false} NothingEnded(bs: seq<Batch>, answers: seq<Answer>, p: string, x: Pair, n: nat)
    requires n <= |bs| == |answers|
    ensures Completed(bs, answers, {}, p, n) == 0 && Given(bs, answers, {}, x, n) == 0
  {
    if n > 0 { NothingEnded(bs, answers, p, x, n - 1); }
  }

  ghost predicate Order(order: seq<nat>, n: nat) {
    (forall i :: 0 <= i < |order| ==> order[i] < n) && forall i, j :: 0 <= i < j < |order| ==> order[i] != order[j]
  }

  function Numbers(order: seq<nat>): set<nat> { set i | i in order }

  /** Batches recorded in any order: the counters and the assessments depend only on which batches ended. */
  method RecordAll(bs: seq<Batch>, answers: seq<Answer>, order: seq<nat>) returns (tally: ChunkTally)
    requires |bs| == |answers| && Order(order, |bs|)
    ensures forall p :: CountAt(tally.completed, p) == Completed(bs, answers, Numbers(order), p, |bs|)
    ensures forall x :: Occurs(tally.assessments, x) == Given(bs, answers, Numbers(order), x, |bs|)
  {
    tally := new ChunkTally();
    forall p
      ensures Completed(bs, answers, {}, p, |bs|) == 0
    {
      NothingEnded(bs, answers, p, ("", ""), |bs|);
    }
    forall x
      ensures Given(bs, answers, {}, x, |bs|) == 0
    {
      NothingEnded(bs, answers, "", x, |bs|);
    }
    assert Numbers(order[..0]) == {};
    for n := 0 to |order|
      invariant fresh(tally)
      invariant forall p :: CountAt(tally.completed, p) == Completed(bs, answers, Numbers(order[..n]), p, |bs|)
      invariant forall x :: Occurs(tally.assessments, x) == Given(bs, answers, Numbers(order[..n]), x, |bs|)
    {
      var i := order[n];
      OneMoreRecorded(bs, answers, order, n);
      tally.Record(bs[i], answers[i]);
    }
    assert order[..|order|] == order;
  }

  lemma OneMoreRecorded(bs: seq<Batch>, answers: seq<Answer>, order: seq<nat>, n: nat)
    requires |bs| == |answers| && Order(order, |bs|) && n < |order|
    ensures var i, before, after := order[n], Numbers(order[..n]), Numbers(order[..n + 1]);
      (forall p :: Completed(bs, answers, after, p, |bs|)
           == Completed(bs, answers, before, p, |bs|) + AssessedChunks(bs[i], bs[i], answers[i], p))
      && (forall x :: Given(bs, answers, after, x, |bs|)
           == Given(bs, answers, before, x, |bs|) + Occurs(Contribution(bs[i], answers[i]), x))
  {
    var i, before, after := order[n], Numbers(order[..n]), Numbers(order[..n + 1]);
    assert order[..n + 1] == order[..n] + [i];
    assert after == before + {i} && i !in before;
    forall p
      ensures Completed(bs, answers, after, p, |bs|) == Completed(bs, answers, before, p, |bs|) + AssessedChunks(bs[i], bs[i], answers[i], p)
    {
      OneMoreEnds(bs, answers, before, i, p, ("", ""), |bs|);
    }
    forall x
      ensures Given(bs, answers, after, x, |bs|) == Given(bs, answers, before, x, |bs|) + Occurs(Contribution(bs[i], answers[i]), x)
    {
      OneMoreEnds(bs, answers, before, i, "", x, |bs|);
    }
  }

  // ---- complete means assessed ----

  function All(n: nat): (r: set<nat>)
    ensures forall i :: i in r <==> 0 <= i < n
  {
    if n == 0 then {} else All(n - 1) + {n - 1}
  }

  ghost predicate AllDistinct(bs: seq<Batch>) { forall i :: 0 <= i < |bs| ==> Distinct(bs[i]) }

  lemma {:induction false} CompletedAtMost(bs: seq<Batch>, answers: seq<Answer>, ended: set<nat>, p: string, n: nat)
    requires n <= |bs| == |answers|
    ensures Completed(bs, answers, ended, p, n) <= Expected(bs, ended, p, n)
  {
    if n > 0 {
      CompletedAtMost(bs, answers, ended, p, n - 1);
      AssessedAtMost(bs[n - 1], bs[n - 1], answers[n - 1], p);
    }
  }

  lemma OccursBatch(bs: seq<Batch>, n: nat, x: Pair)
    requires 0 < n <= |bs|
    ensures Occurs(BatchPairs(bs[..n]), x) == Occurs(BatchPairs(bs[..n - 1]), x) + Occurs(AllPairs(bs[n - 1]), x)
  {
    assert bs[..n][..n - 1] == bs[..n - 1];
  }

  lemma BatchGivesAtMost(b: Batch, a: Answer, x: Pair)
    requires Distinct(b)
    ensures Occurs(Contribution(b, a), x) <= Occurs(AllPairs(b), x)
  {
    ContributionCounts(b, a, x.0, x.1);
  }

  lemma OneMoreGiven(bs: seq<Batch>, answers: seq<Answer>, ended: set<nat>, x: Pair, n: nat)
    requires 0 < n <= |bs| == |answers|
    requires Given(bs, answers, ended, x, n - 1) <= Occurs(BatchPairs(bs[..n - 1]), x)
    requires Occurs(Contribution(bs[n - 1], answers[n - 1]), x) <= Occurs(AllPairs(bs[n - 1]), x)
    ensures Given(bs, answers, ended, x, n) <= Occurs(BatchPairs(bs[..n]), x)
  {
    OccursBatch(bs, n, x);
  }

  lemma {:induction false} GivenAtMost(bs: seq<Batch>, answers: seq<Answer>, ended: set<nat>, x: Pair, n: nat)
    requires n <= |bs| == |answers| && AllDistinct(bs)
    ensures Given(bs, answers, ended, x, n) <= Occurs(BatchPairs(bs[..n]), x)
  {
    if n > 0 {
      GivenAtMost(bs, answers, ended, x, n - 1);
      BatchGivesAtMost(bs[n - 1], answers[n - 1], x);
      OneMoreGiven(bs, answers, ended, x, n);
    }
  }

  /** If every expected chunk was completed, every pair of p was given as often as it was asked. */
  lemma {:induction false} CompleteGivesAll(bs: seq<Batch>, answers: seq<Answer>, ended: set<nat>, p: string, c: string, n: nat)
    requires n <= |bs| == |answers| && AllDistinct(bs) && All(|bs|) <= ended
    requires Completed(bs, answers, ended, p, n) == Expected(bs, ended, p, n)
    ensures Given(bs, answers, ended, (p, c), n) == Occurs(BatchPairs(bs[..n]), (p, c))
  {
    if n > 0 {
      var b, a := bs[n - 1], answers[n - 1];
      CompletedAtMost(bs, answers, ended, p, n - 1);
      AssessedAtMost(b, b, a, p);
      assert n - 1 in All(|bs|);
      assert AssessedChunks(b, b, a, p) == Chunks(b, p);
      CompleteGivesAll(bs, answers, ended, p, c, n - 1);
      OccursBatch(bs, n, (p, c));
      ContributionCounts(b, a, p, c);
    }
  }

  /** A chunk of p that was not assessed has a pair that was not given. */
  lemma {:induction false} ChunkHasPair(gs: seq<Group>, p: string) returns (c: string)
    requires Chunks(gs, p) > 0 && Filled(gs)
    ensures Occurs(AllPairs(gs), (p, c)) > 0
  {
    var n := |gs| - 1;
    if gs[n].primary == p {
      c := gs[n].candidates[|gs[n].candidates| - 1];
      assert (p, c) in PairsOf(gs[n]);
      assert (p, c) in multiset(PairsOf(gs[n]));
    } else {
      c := ChunkHasPair(gs[..n], p);
    }
  }

  lemma BatchMissesPair(b: Batch, a: Answer, p: string) returns (c: string)
    requires Distinct(b) && AssessedChunks(b, b, a, p) < Chunks(b, p)
    ensures Occurs(Contribution(b, a), (p, c)) < Occurs(AllPairs(b), (p, c))
  {
    c := ChunkHasPair(b, p);
    ContributionCounts(b, a, p, c);
  }

  lemma {:induction false} IncompleteMissesPair(bs: seq<Batch>, answers: seq<Answer>, ended: set<nat>, p: string, n: nat) returns (c: string)
    requires n <= |bs| == |answers| && AllDistinct(bs)
    requires Completed(bs, answers, ended, p, n) < Expected(bs, ended, p, n)
    ensures Given(bs, answers, ended, (p, c), n) < Occurs(BatchPairs(bs[..n]), (p, c))
  {
    var b, a := bs[n - 1], answers[n - 1];
    assert Distinct(b);
    if Completed(bs, answers, ended, p, n - 1) < Expected(bs, ended, p, n - 1) {
      c := IncompleteMissesPair(bs, answers, ended, p, n - 1);
      BatchGivesAtMost(b, a, (p, c));
    } else {
      CompletedAtMost(bs, answers, ended, p, n - 1);
      c := BatchMissesPair(b, a, p);
      GivenAtMost(bs, answers, ended, (p, c), n - 1);
    }
    OccursBatch(bs, n, (p, c));
  }

  /** When all batches have ended, in whatever order and however each fared, the completed chunks of a primary
      equal the expected ones exactly when each of its candidate pairs was assessed as often as it was asked:
      once, since candidates are different products. */
  lemma CompleteExactlyWhenAssessed(bs: seq<Batch>, answers: seq<Answer>, p: string)
    requires |bs| == |answers| && AllDistinct(bs)
    ensures Completed(bs, answers, All(|bs|), p, |bs|) == Expected(bs, All(|bs|), p, |bs|)
      <==> forall c :: Given(bs, answers, All(|bs|), (p, c), |bs|) == Occurs(BatchPairs(bs), (p, c))
  {
    var n, all := |bs|, All(|bs|);
    assert bs[..n] == bs;
    CompletedAtMost(bs, answers, all, p, n);
    if Completed(bs, answers, all, p, n) == Expected(bs, all, p, n) {
      forall c
        ensures Given(bs, answers, all, (p, c), n) == Occurs(BatchPairs(bs), (p, c))
      {
        CompleteGivesAll(bs, answers, all, p, c, n);
      }
    } else {
      var c := IncompleteMissesPair(bs, answers, all, p, n);
    }
  }

  // ---- packed batches ----

  /** The candidates of every group are different products, and every product is a primary once. */
  ghost predicate Proper(groups: seq<Group>) {
    Apart(groups) && forall n :: 0 <= n < |groups| ==> Different(groups[n].candidates)
  }

  ghost predicate Different(s: seq<string>) { forall i, j :: 0 <= i < j < |s| ==> s[i] != s[j] }

  lemma {:induction false} PairMeansCandidate(primary: string, candidates: seq<string>, c: string)
    ensures (primary, c) in Pairs(primary, candidates) <==> c in candidates
  {
    if candidates != [] {
      var n := |candidates| - 1;
      assert candidates == candidates[..n] + [candidates[n]];
      PairMeansCandidate(primary, candidates[..n], c);
    }
  }

  lemma {:induction false} DifferentPairs(primary: string, candidates: seq<string>, x: Pair)
    requires Different(candidates) && x in Pairs(primary, candidates)
    ensures Occurs(Pairs(primary, candidates), x) == 1
  {
    var n := |candidates| - 1;
    var before := Pairs(primary, candidates[..n]);
    PairMeansCandidate(primary, candidates[..n], candidates[n]);
    assert x in before <==> x in multiset(before);
    if x in before { DifferentPairs(primary, candidates[..n], x); }
  }

  lemma AskedOnce(groups: seq<Group>, x: Pair)
    requires Proper(groups)
    ensures Occurs(AllPairs(groups), x) == if x in AllPairs(groups) then 1 else 0
  {
    forall i, y | 0 <= i < |groups| && y in PairsOf(groups[i])
      ensures Occurs(PairsOf(groups[i]), y) == 1
    {
      DifferentPairs(groups[i].primary, groups[i].candidates, y);
    }
    OccursOnce(groups, x);
  }

  lemma {:induction false} ChunkWithin(gs: seq<Group>, i: nat, x: Pair)
    requires i < |gs|
    ensures Occurs(PairsOf(gs[i]), x) <= Occurs(AllPairs(gs), x)
  {
    if i < |gs| - 1 { ChunkWithin(gs[..|gs| - 1], i, x); }
  }

  lemma {:induction false} BatchWithin(bs: seq<Batch>, i: nat, x: Pair)
    requires i < |bs|
    ensures Occurs(AllPairs(bs[i]), x) <= Occurs(BatchPairs(bs), x)
  {
    if i < |bs| - 1 { BatchWithin(bs[..|bs| - 1], i, x); }
  }

  /** What PackJudgeBatches makes of proper groups. */
  ghost predicate Packed(groups: seq<Group>, bs: seq<Batch>, maxPairs: nat, maxGroups: nat) {
    Proper(groups) && BatchPairs(bs) == AllPairs(groups) && AllFit(bs, maxPairs, maxGroups)
  }

  lemma PackedIsDistinct(groups: seq<Group>, bs: seq<Batch>, maxPairs: nat, maxGroups: nat)
    requires Packed(groups, bs, maxPairs, maxGroups)
    ensures AllDistinct(bs)
  {
    forall i, k, x | 0 <= i < |bs| && 0 <= k < |bs[i]| && x in PairsOf(bs[i][k])
      ensures Occurs(PairsOf(bs[i][k]), x) == 1
    {
      assert x in multiset(PairsOf(bs[i][k]));
      ChunkWithin(bs[i], k, x);
      BatchWithin(bs, i, x);
      AskedOnce(groups, x);
    }
    forall i | 0 <= i < |bs|
      ensures Distinct(bs[i])
    {
      assert Fits(bs[i], maxPairs, maxGroups);
    }
  }

  /** The tally of all batches. */
  ghost predicate Tallied(bs: seq<Batch>, answers: seq<Answer>, completed: Counts, items: seq<Pair>)
    requires |bs| == |answers|
  {
    && (forall p :: CountAt(completed, p) == Completed(bs, answers, All(|bs|), p, |bs|))
    && (forall x :: Occurs(items, x) == Given(bs, answers, All(|bs|), x, |bs|))
  }

  /** Every candidate of p was assessed exactly once. */
  ghost predicate AssessedOnce(groups: seq<Group>, items: seq<Pair>, p: string) {
    forall c :: (p, c) in AllPairs(groups) ==> Occurs(items, (p, c)) == 1
  }

  /** Nothing is ever assessed twice, or without having been asked. */
  lemma AssessedAtMostOnce(groups: seq<Group>, bs: seq<Batch>, maxPairs: nat, maxGroups: nat, answers: seq<Answer>,
                           completed: Counts, items: seq<Pair>, x: Pair)
    requires Packed(groups, bs, maxPairs, maxGroups) && |bs| == |answers| && Tallied(bs, answers, completed, items)
    ensures Occurs(items, x) <= Occurs(BatchPairs(bs), x) == if x in AllPairs(groups) then 1 else 0
  {
    PackedIsDistinct(groups, bs, maxPairs, maxGroups);
    GivenAtMost(bs, answers, All(|bs|), x, |bs|);
    assert bs[..|bs|] == bs;
    AskedOnce(groups, x);
  }

  /** End to end: packed, judged and recorded, a primary is complete exactly when each of its candidates was
      assessed exactly once. */
  lemma CompleteExactlyWhenAssessedOnce(groups: seq<Group>, bs: seq<Batch>, maxPairs: nat, maxGroups: nat, answers: seq<Answer>,
                                        completed: Counts, items: seq<Pair>, p: string)
    requires Packed(groups, bs, maxPairs, maxGroups) && |bs| == |answers| && Tallied(bs, answers, completed, items)
    ensures CountAt(completed, p) == Expected(bs, All(|bs|), p, |bs|) <==> AssessedOnce(groups, items, p)
  {
    PackedIsDistinct(groups, bs, maxPairs, maxGroups);
    CompleteExactlyWhenAssessed(bs, answers, p);
    forall c
      ensures Occurs(items, (p, c)) == Occurs(BatchPairs(bs), (p, c)) <==> ((p, c) in AllPairs(groups) ==> Occurs(items, (p, c)) == 1)
    {
      AssessedAtMostOnce(groups, bs, maxPairs, maxGroups, answers, completed, items, (p, c));
    }
  }

  lemma OrderSnoc(order: seq<nat>, i: nat, n: nat)
    requires Order(order, n) && i < n && i !in Numbers(order)
    ensures Order(order + [i], n) && Numbers(order + [i]) == Numbers(order) + {i}
  {
    assert forall k :: 0 <= k < |order| ==> order[k] in Numbers(order);
  }

  /** Some order in which n batches end. */
  method AnyOrder(n: nat) returns (order: seq<nat>)
    ensures Order(order, n) && Numbers(order) == All(n)
  {
    order := [];
    var left := All(n);
    while left != {}
      invariant Order(order, n) && left <= All(n) && Numbers(order) == All(n) - left
      decreases |left|
    {
      var i :| i in left;
      OrderSnoc(order, i, n);
      order, left := order + [i], left - {i};
    }
  }

  /** The callbacks of all batches, in whatever order they come. */
  method RecordEvery(bs: seq<Batch>, answers: seq<Answer>) returns (tally: ChunkTally)
    requires |bs| == |answers|
    ensures Tallied(bs, answers, tally.completed, tally.assessments)
  {
    var order := AnyOrder(|bs|);
    tally := RecordAll(bs, answers, order);
  }

  /** Pack, judge and record: `judge(i)` is what batch i gets. */
  method JudgeAll(groups: seq<Group>, maxPairs: nat, maxGroups: nat, judge: nat -> Answer)
    returns (batches: seq<Batch>, tally: ChunkTally)
    requires maxPairs >= 1 && maxGroups >= 1 && Proper(groups)
    ensures Packed(groups, batches, maxPairs, maxGroups)
    ensures forall p ::
      CountAt(tally.completed, p) == Expected(batches, All(|batches|), p, |batches|) <==> AssessedOnce(groups, tally.assessments, p)
    ensures forall x :: Occurs(tally.assessments, x) <= if x in AllPairs(groups) then 1 else 0
  {
    batches := PackJudgeBatches(groups, maxPairs, maxGroups);
    var answers := seq(|batches|, i requires 0 <= i => judge(i));
    tally := RecordEvery(batches, answers);
    forall p
      ensures CountAt(tally.completed, p) == Expected(batches, All(|batches|), p, |batches|) <==> AssessedOnce(groups, tally.assessments, p)
    {
      CompleteExactlyWhenAssessedOnce(groups, batches, maxPairs, maxGroups, answers, tally.completed, tally.assessments, p);
    }
    forall x
      ensures Occurs(tally.assessments, x) <= if x in AllPairs(groups) then 1 else 0
    {
      AssessedAtMostOnce(groups, batches, maxPairs, maxGroups, answers, tally.completed, tally.assessments, x);
    }
  }
}
