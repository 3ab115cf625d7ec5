/** The fixed-window rate limiter over a table whose stale rows are deleted on every call. */
module McpRateLimit {
  import opened Wrappers
  import opened McpCommands

  const DAY_MS := 86_400_000

  /** One request: who asks, for which bucket, on what terms, and when. */
  datatype Call = Call(principal: Principal, bucket: string, limit: int, window: int, now: int)

  datatype Key = Key(workspace: string, client: string, bucket: string, start: int)
  datatype Row = Row(count: nat, updated: int)
  type Table = map<Key, Row>

  datatype Quota = Quota(remaining: nat, resetsAt: int)
  datatype LimitError = InvalidRateLimit | RateLimitExceeded

  predicate ValidBucket(bucket: string) {
    2 <= |bucket| <= 80 && 'a' <= bucket[0] <= 'z'
    && forall i :: 0 <= i < |bucket| ==>
         'a' <= bucket[i] <= 'z' || '0' <= bucket[i] <= '9' || bucket[i] == ':' || bucket[i] == '_' || bucket[i] == '-'
  }

  predicate ValidCall(c: Call) { ValidIdentity(c.principal) && ValidBucket(c.bucket) && c.limit >= 1 && c.window >= 1 }

  /** The aligned window of a call, in seconds; a call without a window is refused. */
  function Start(c: Call): int { if c.window < 1 then 0 else c.now / 1000 / c.window * c.window }

  function ClientKey(c: Call): Key { Key(c.principal.workspace, c.principal.client, c.bucket, Start(c)) }

  function SharedKey(c: Call): Key { Key(c.principal.workspace, "*", c.bucket, Start(c)) }

  function Swept(t: Table, now: int): Table { map k | k in t && t[k].updated >= now - DAY_MS :: t[k] }

  function CountAt(t: Table, k: Key): nat { if k in t then t[k].count else 0 }

  function Bump(t: Table, k: Key, now: int): Table { t[k := Row(CountAt(t, k) + 1, now)] }

  /** One transaction; a refusal undoes the sweep as well. */
  function Consume(t: Table, c: Call): (Table, Result<Quota, LimitError>) {
    if !ValidCall(c) then (t, Err(InvalidRateLimit))
    else
      var u := Swept(t, c.now);
      var count := CountAt(u, ClientKey(c));
      if count >= c.limit || CountAt(u, SharedKey(c)) >= 3 * c.limit then (t, Err(RateLimitExceeded))
      else (Bump(Bump(u, ClientKey(c), c.now), SharedKey(c), c.now),
            Ok(Quota(c.limit - count - 1, (Start(c) + c.window) * 1000)))
  }

  class RateLimiter {
    var windows: Table

    constructor ()
      ensures windows == map[]
    {
      windows := map[];
    }

    method Increment(k: Key, now: int)
      modifies this
      ensures windows == Bump(old(windows), k, now)
    {
      if k in windows {
        windows := windows[k := Row(windows[k].count + 1, now)];
      } else {
        windows := windows[k := Row(1, now)];
      }
    }

    method Take(c: Call) returns (r: Result<Quota, LimitError>)
      modifies this
      ensures (windows, r) == Consume(old(windows), c)
    {
      if !ValidCall(c) { return Err(InvalidRateLimit); }
      var before := windows;
      windows := Swept(windows, c.now);
      var count, shared := CountAt(windows, ClientKey(c)), CountAt(windows, SharedKey(c));
      if count >= c.limit || shared >= 3 * c.limit {
        windows := before;
        return Err(RateLimitExceeded);
      }
      Increment(ClientKey(c), c.now);
      Increment(SharedKey(c), c.now);
      r := Ok(Quota(c.limit - count - 1, (Start(c) + c.window) * 1000));
    }
  }

  // ---- histories ----

  /** The table after a sequence of calls, and the calls that were let through. */
  function Serve(calls: seq<Call>): (Table, seq<Call>) {
    if calls == [] then (map[], [])
    else
      var (t, accepted) := Serve(calls[..|calls| - 1]);
      var c := calls[|calls| - 1];
      var (u, r) := Consume(t, c);
      (u, if r.Ok? then accepted + [c] else accepted)
  }

  /** Does an accepted call belong under the key? */
  predicate Under(c: Call, k: Key) {
    c.principal.workspace == k.workspace && c.bucket == k.bucket && Start(c) == k.start
    && (k.client == "*" || c.principal.client == k.client)
  }

  function Hits(calls: seq<Call>, k: Key): nat {
    if calls == [] then 0
    else Hits(calls[..|calls| - 1], k) + (if Under(calls[|calls| - 1], k) then 1 else 0)
  }

  predicate SameClient(d: Call, c: Call) {
    d.principal.workspace == c.principal.workspace && d.principal.client == c.principal.client
    && d.bucket == c.bucket && Start(d) == Start(c)
  }

  /** The calls that c's own client made in c's bucket and aligned window. */
  function Own(calls: seq<Call>, c: Call): nat {
    if calls == [] then 0
    else Own(calls[..|calls| - 1], c) + (if SameClient(calls[|calls| - 1], c) then 1 else 0)
  }

  /** What a bucket is configured with. */
  datatype Terms = Terms(bucket: string, limit: int, window: int)

  ghost predicate ValidTerms(terms: Terms) { ValidBucket(terms.bucket) && terms.limit >= 1 && terms.window >= 1 }

  ghost predicate OneClock(calls: seq<Call>) { forall i, j :: 0 <= i < j < |calls| ==> calls[i].now <= calls[j].now }

  ghost predicate OnTerms(c: Call, terms: Terms, clients: iset<string>) {
    c.bucket == terms.bucket ==> c.limit == terms.limit && c.window == terms.window && c.principal.client in clients
  }

  /** Calls on one clock, those for this bucket on its terms and by these clients. Calls for other buckets are
      free, and so is every call's workspace. */
  ghost predicate Regular(calls: seq<Call>, terms: Terms, clients: iset<string>) {
    OneClock(calls) && forall c :: c in calls ==> OnTerms(c, terms, clients)
  }

  /** The decision about c, and the quota it is told, are those of the calls accepted so far. */
  ghost predicate ByHistory(calls: seq<Call>, c: Call) {
    var (t, accepted) := Serve(calls);
    var r := Consume(t, c).1;
    && (r.Ok? <==> Own(accepted, c) < c.limit && Hits(accepted, SharedKey(c)) < 3 * c.limit)
    && (r.Ok? ==> r.value.remaining == c.limit - Own(accepted, c) - 1)
  }

  /** Configurations in which rows outlive their windows and no client's row is its workspace's. A bucket that
      only "*" may call, once a window, is as good. */
  ghost predicate Sound(terms: Terms, clients: iset<string>) {
    terms.window <= 86_400 && ("*" !in clients || (terms.limit == 1 && clients == iset{"*"}))
  }

  // ---- the counters are exact ----

  lemma {:induction false} NoHits(calls: seq<Call>, k: Key)
    requires forall c :: c in calls ==> !Under(c, k)
    ensures Hits(calls, k) == 0
  {
    if calls != [] { NoHits(calls[..|calls| - 1], k); }
  }

  lemma StartBounds(c: Call)
    requires c.window >= 1
    ensures Start(c) <= c.now / 1000 < Start(c) + c.window
    ensures Start(c) * 1000 <= c.now < (Start(c) + c.window) * 1000
  {
  }

  lemma {:induction false} OwnHits(calls: seq<Call>, c: Call)
    requires c.principal.client != "*" || forall d :: d in calls && d.bucket == c.bucket ==> d.principal.client == "*"
    ensures Own(calls, c) == Hits(calls, ClientKey(c))
  {
    if calls != [] {
      var before, last := calls[..|calls| - 1], calls[|calls| - 1];
      assert last in calls && forall d :: d in before ==> d in calls;
      OwnHits(before, c);
    }
  }

  /** A stored row counts its calls, each of them twice where "*" is the client, and carries the time of
      the last; a missing row's window is over. */
  ghost predicate RowOk(t: Table, accepted: seq<Call>, now: int, k: Key, twice: bool) {
    if k in t then
      && t[k].count == (if twice then 2 * Hits(accepted, k) else Hits(accepted, k))
      && forall c :: c in accepted && Under(c, k) ==> c.now <= t[k].updated
    else forall c :: c in accepted && Under(c, k) ==> (Start(c) + c.window) * 1000 <= now
  }

  ghost predicate Tracks(t: Table, accepted: seq<Call>, now: int, bucket: string, twice: bool) {
    forall k: Key {:trigger RowOk(t, accepted, now, k, twice)} :: k.bucket == bucket ==> RowOk(t, accepted, now, k, twice)
  }

  /** Accepted calls of the bucket, none of them later than `now`. */
  ghost predicate Past(accepted: seq<Call>, terms: Terms, clients: iset<string>, now: int) {
    forall d :: d in accepted ==> d.now <= now && OnTerms(d, terms, clients)
  }

  /** Sweeping never drops the counter of a window that is still open. */
  lemma OpenCounterIsExact(t: Table, accepted: seq<Call>, terms: Terms, clients: iset<string>, twice: bool, c: Call, k: Key)
    requires Tracks(t, accepted, c.now, terms.bucket, twice) && Past(accepted, terms, clients, c.now)
    requires ValidTerms(terms) && terms.window <= 86_400 && OnTerms(c, terms, clients) && c.bucket == terms.bucket && Under(c, k)
    ensures CountAt(Swept(t, c.now), k) == if twice then 2 * Hits(accepted, k) else Hits(accepted, k)
  {
    assert RowOk(t, accepted, c.now, k, twice);
    StartBounds(c);
    if k !in Swept(t, c.now) {
      forall d | d in accepted
        ensures !Under(d, k)
      {
        if Under(d, k) { StartBounds(d); }
      }
      NoHits(accepted, k);
    }
  }

  lemma HitsSnoc(calls: seq<Call>, c: Call, k: Key)
    ensures Hits(calls + [c], k) == Hits(calls, k) + (if Under(c, k) then 1 else 0)
  {
    assert (calls + [c])[..|calls|] == calls;
  }

  /** A row that the call does not touch. */
  lemma SweptRow(t: Table, accepted: seq<Call>, terms: Terms, clients: iset<string>, twice: bool, c: Call, k: Key)
    requires Tracks(t, accepted, c.now, terms.bucket, twice) && Past(accepted, terms, clients, c.now)
    requires ValidTerms(terms) && terms.window <= 86_400 && k.bucket == terms.bucket && !Under(c, k)
    ensures RowOk(Swept(t, c.now), accepted + [c], c.now, k, twice)
  {
    assert RowOk(t, accepted, c.now, k, twice);
    HitsSnoc(accepted, c, k);
    forall d | d in accepted && Under(d, k)
      ensures k !in Swept(t, c.now) ==> (Start(d) + d.window) * 1000 <= c.now
    {
      StartBounds(d);
    }
  }

  lemma AcceptTracks(t: Table, accepted: seq<Call>, terms: Terms, clients: iset<string>, c: Call)
    requires Tracks(t, accepted, c.now, terms.bucket, "*" in clients) && Past(accepted, terms, clients, c.now)
    requires ValidTerms(terms) && Sound(terms, clients) && OnTerms(c, terms, clients) && Consume(t, c).1.Ok?
    ensures Tracks(Consume(t, c).0, accepted + [c], c.now, terms.bucket, "*" in clients)
  {
    var u, twice := Consume(t, c).0, "*" in clients;
    forall k: Key | k.bucket == terms.bucket
      ensures RowOk(u, accepted + [c], c.now, k, twice)
    {
      if Under(c, k) { BumpedRow(t, accepted, terms, clients, c, k); } else { OtherRow(t, accepted, terms, clients, c, k); }
    }
  }

  lemma BumpedRow(t: Table, accepted: seq<Call>, terms: Terms, clients: iset<string>, c: Call, k: Key)
    requires Tracks(t, accepted, c.now, terms.bucket, "*" in clients) && Past(accepted, terms, clients, c.now)
    requires ValidTerms(terms) && Sound(terms, clients) && OnTerms(c, terms, clients) && Consume(t, c).1.Ok?
    requires c.bucket == terms.bucket && Under(c, k)
    ensures RowOk(Consume(t, c).0, accepted + [c], c.now, k, "*" in clients)
  {
    HitsSnoc(accepted, c, k);
    assert k == ClientKey(c) || k == SharedKey(c);
    OpenCounterIsExact(t, accepted, terms, clients, "*" in clients, c, k);
  }

  lemma OtherRow(t: Table, accepted: seq<Call>, terms: Terms, clients: iset<string>, c: Call, k: Key)
    requires Tracks(t, accepted, c.now, terms.bucket, "*" in clients) && Past(accepted, terms, clients, c.now)
    requires ValidTerms(terms) && Sound(terms, clients) && OnTerms(c, terms, clients) && Consume(t, c).1.Ok?
    requires k.bucket == terms.bucket && !Under(c, k)
    ensures RowOk(Consume(t, c).0, accepted + [c], c.now, k, "*" in clients)
  {
    SweptRow(t, accepted, terms, clients, "*" in clients, c, k);
    assert k != SharedKey(c) && k != ClientKey(c);
  }

  lemma LaterTracks(t: Table, accepted: seq<Call>, now: int, later: int, bucket: string, twice: bool)
    requires Tracks(t, accepted, now, bucket, twice) && now <= later
    ensures Tracks(t, accepted, later, bucket, twice)
  {
    forall k: Key | k.bucket == bucket
      ensures RowOk(t, accepted, later, k, twice)
    {
      assert RowOk(t, accepted, now, k, twice);
    }
  }

  lemma {:induction false} AcceptedAreCalls(calls: seq<Call>)
    ensures forall c :: c in Serve(calls).1 ==> c in calls
  {
    if calls != [] {
      AcceptedAreCalls(calls[..|calls| - 1]);
      assert forall c :: c in calls[..|calls| - 1] ==> c in calls;
    }
  }

  lemma RegularPrefix(calls: seq<Call>, c: Call, terms: Terms, clients: iset<string>)
    requires Regular(calls + [c], terms, clients)
    ensures Regular(calls, terms, clients) && OnTerms(c, terms, clients) && Past(Serve(calls).1, terms, clients, c.now)
  {
    var all := calls + [c];
    assert c in all && all[|calls|] == c;
    AcceptedAreCalls(calls);
    forall i | 0 <= i < |calls|
      ensures calls[i] in all && calls[i].now <= c.now
    {
      assert all[i] == calls[i];
    }
    assert OneClock(calls) by {
      forall i, j | 0 <= i < j < |calls|
        ensures calls[i].now <= calls[j].now
      {
        assert all[i] == calls[i] && all[j] == calls[j];
      }
    }
  }

  /** The stored counters always equal the number of accepted calls, for as long as their window is open. */
  lemma {:induction false} CountersTrackHistory(calls: seq<Call>, terms: Terms, clients: iset<string>, now: int)
    requires ValidTerms(terms) && Sound(terms, clients) && Regular(calls, terms, clients)
    requires calls == [] || calls[|calls| - 1].now <= now
    ensures Tracks(Serve(calls).0, Serve(calls).1, now, terms.bucket, "*" in clients)
  {
    if calls != [] {
      var before, c := calls[..|calls| - 1], calls[|calls| - 1];
      var (t, accepted) := Serve(before);
      assert before + [c] == calls;
      assert before != [] ==> calls[|before| - 1].now <= c.now;
      RegularPrefix(before, c, terms, clients);
      CountersTrackHistory(before, terms, clients, c.now);
      if Consume(t, c).1.Ok? { AcceptTracks(t, accepted, terms, clients, c); }
      LaterTracks(Serve(calls).0, Serve(calls).1, c.now, now, terms.bucket, "*" in clients);
    }
  }

  /** In a sound configuration every decision follows the history, deletions of stale rows or not. */
  lemma SoundIsExact(calls: seq<Call>, c: Call, terms: Terms, clients: iset<string>)
    requires ValidTerms(terms) && Sound(terms, clients) && Regular(calls + [c], terms, clients)
    requires c.bucket == terms.bucket && ValidCall(c)
    ensures ByHistory(calls, c)
  {
    var (t, accepted) := Serve(calls);
    RegularPrefix(calls, c, terms, clients);
    assert calls != [] ==> (calls + [c])[|calls| - 1].now <= (calls + [c])[|calls|].now;
    CountersTrackHistory(calls, terms, clients, c.now);
    OpenCounterIsExact(t, accepted, terms, clients, "*" in clients, c, ClientKey(c));
    OpenCounterIsExact(t, accepted, terms, clients, "*" in clients, c, SharedKey(c));
    OwnHits(accepted, c);
  }

  /** A caller that is let through is told when its window ends: within one window's time, and that is when the
      next one begins. */
  lemma QuotaResets(t: Table, c: Call)
    requires Consume(t, c).1.Ok?
    ensures var at := Consume(t, c).1.value.resetsAt;
      c.now < at <= c.now + c.window * 1000 && Start(c.(now := at)) * 1000 == at
  {
    StartBounds(c);
    var at, q := Consume(t, c).1.value.resetsAt, c.now / 1000 / c.window;
    assert at == (q * c.window + c.window) * 1000;
    assert at / 1000 == q * c.window + c.window == (q + 1) * c.window;
    assert (q + 2) * c.window == (q + 1) * c.window + c.window;
    QuotientIs((q + 1) * c.window, c.window, q + 1);
  }

  // ---- and in no other configuration ----

  function By(client: string, terms: Terms, now: int): Call {
    Call(Principal("w", "u", client), terms.bucket, terms.limit, terms.window, now)
  }

  function Burst(client: string, terms: Terms, n: nat): seq<Call> { seq(n, _ => By(client, terms, 0)) }

  /** The table after n calls of one client at time 0. */
  ghost predicate Loaded(t: Table, client: string, terms: Terms, n: nat) {
    var c, count := By(client, terms, 0), if client == "*" then 2 * n else n;
    && (forall k :: k in t ==> t[k].updated == 0)
    && CountAt(t, ClientKey(c)) == count && CountAt(t, SharedKey(c)) == count
  }

  predicate Passes(client: string, terms: Terms, n: nat) {
    if client == "*" then 2 * n < terms.limit + 2 else n <= terms.limit
  }

  lemma OneMoreCall(t: Table, client: string, terms: Terms, n: nat)
    requires ValidTerms(terms) && 0 < |client| <= 2048 && Passes(client, terms, n + 1) && Loaded(t, client, terms, n)
    ensures var (u, r) := Consume(t, By(client, terms, 0)); r.Ok? && Loaded(u, client, terms, n + 1)
  {
    assert Swept(t, 0) == t;
    assert ValidCall(By(client, terms, 0));
  }

  /** How far one client gets at one instant. */
  lemma {:induction false} BurstServed(client: string, terms: Terms, n: nat)
    requires ValidTerms(terms) && 0 < |client| <= 2048 && Passes(client, terms, n)
    ensures Serve(Burst(client, terms, n)).1 == Burst(client, terms, n)
    ensures Loaded(Serve(Burst(client, terms, n)).0, client, terms, n)
  {
    if n > 0 {
      var before, c := Burst(client, terms, n - 1), By(client, terms, 0);
      assert Burst(client, terms, n) == before + [c] && (before + [c])[..n - 1] == before;
      BurstServed(client, terms, n - 1);
      OneMoreCall(Serve(before).0, client, terms, n - 1);
    }
  }

  lemma {:induction false} BurstCounts(client: string, terms: Terms, n: nat, c: Call)
    requires terms.window >= 1 && SameClient(By(client, terms, 0), c)
    ensures Own(Burst(client, terms, n), c) == n && Hits(Burst(client, terms, n), SharedKey(c)) == n
  {
    if n > 0 {
      var all := Burst(client, terms, n);
      assert all[..n - 1] == Burst(client, terms, n - 1) && all[n - 1] == By(client, terms, 0);
      BurstCounts(client, terms, n - 1, c);
    }
  }

  /** A client called "*" is refused after half of its quota. */
  lemma StarIsCheated(terms: Terms)
    requires ValidTerms(terms) && terms.limit >= 2
    ensures !ByHistory(Burst("*", terms, (terms.limit + 1) / 2), By("*", terms, 0))
  {
    var n, c := (terms.limit + 1) / 2, By("*", terms, 0);
    BurstServed("*", terms, n);
    BurstCounts("*", terms, n, c);
    assert Swept(Serve(Burst("*", terms, n)).0, 0) == Serve(Burst("*", terms, n)).0;
  }

  /** With a quota of one it is refused because another client has called. */
  lemma StarIsBlamed(terms: Terms, other: string)
    requires ValidTerms(terms) && terms.limit == 1 && 0 < |other| <= 2048 && other != "*"
    ensures !ByHistory(Burst(other, terms, 1), By("*", terms, 0))
  {
    var before, c := Burst(other, terms, 1), By("*", terms, 0);
    BurstServed(other, terms, 1);
    BurstCounts(other, terms, 1, By(other, terms, 0));
    assert before == [By(other, terms, 0)] && before[..0] == [];
    assert Own(before, c) == 0;
    assert Swept(Serve(before).0, 0) == Serve(before).0;
  }

  /** With a window longer than a day the counter is swept while its window is open, and the quota starts afresh. */
  lemma LongWindowForgets(terms: Terms, client: string)
    requires ValidTerms(terms) && terms.window > 86_400 && 0 < |client| <= 2048 && (client == "*" ==> terms.limit == 1)
    ensures !ByHistory(Burst(client, terms, terms.limit), By(client, terms, DAY_MS + 1))
  {
    var n, c := terms.limit, By(client, terms, DAY_MS + 1);
    BurstServed(client, terms, n);
    assert (DAY_MS + 1) / 1000 == 86_400;
    assert Start(c) == 0 == Start(By(client, terms, 0)) by {
      StartBounds(c);
      QuotientIs(86_400, terms.window, 0);
      QuotientIs(0, terms.window, 0);
    }
    BurstCounts(client, terms, n, c);
    assert Swept(Serve(Burst(client, terms, n)).0, c.now) == map[];
  }

  lemma BurstRegular(client: string, n: nat, c: Call, terms: Terms, clients: iset<string>)
    requires client in clients && c.now >= 0 && OnTerms(c, terms, clients)
    ensures Regular(Burst(client, terms, n) + [c], terms, clients)
  {
    var all := Burst(client, terms, n) + [c];
    assert forall i :: 0 <= i < n ==> all[i] == By(client, terms, 0);
  }

  /** Do all decisions about this bucket follow the history? */
  ghost predicate Exact(terms: Terms, clients: iset<string>) {
    forall calls, c :: Regular(calls + [c], terms, clients) && c.bucket == terms.bucket && ValidCall(c) ==> ByHistory(calls, c)
  }

  lemma UnsoundIsInexact(terms: Terms, clients: iset<string>, client: string)
    requires ValidTerms(terms) && client in clients && !Sound(terms, clients)
    requires forall x :: x in clients ==> 0 < |x| <= 2048
    ensures !Exact(terms, clients)
  {
    if "*" in clients && terms.limit >= 2 {
      StarIsCheated(terms);
      BurstRegular("*", (terms.limit + 1) / 2, By("*", terms, 0), terms, clients);
    } else if "*" in clients && clients != iset{"*"} {
      var other :| other in clients && other != "*";
      StarIsBlamed(terms, other);
      BurstRegular(other, 1, By("*", terms, 0), terms, clients);
    } else {
      LongWindowForgets(terms, client);
      BurstRegular(client, terms.limit, By(client, terms, DAY_MS + 1), terms, clients);
    }
  }

  /** For every bucket, its terms and the clients that may call it: over all runs on one clock, calls are let
      through exactly when their client made fewer than `limit` accepted calls in the aligned window and their
      workspace fewer than three times that, if and only if the configuration is sound. */
  lemma LimiterIsExact(terms: Terms, clients: iset<string>)
    requires ValidTerms(terms) && (exists x :: x in clients) && forall x :: x in clients ==> 0 < |x| <= 2048
    ensures Exact(terms, clients) <==> Sound(terms, clients)
  {
    if Sound(terms, clients) {
      forall calls, c | Regular(calls + [c], terms, clients) && c.bucket == terms.bucket && ValidCall(c)
        ensures ByHistory(calls, c)
      {
        SoundIsExact(calls, c, terms, clients);
      }
    } else {
      var client :| client in clients;
      UnsoundIsInexact(terms, clients, client);
    }
  }

  // ---- how much an interval lets through ----

  /** Accepted calls of a workspace and bucket, by one client or by all of them, at times in [from, to). */
  function Between(calls: seq<Call>, workspace: string, client: string, bucket: string, from: int, to: int): nat {
    if calls == [] then 0
    else
      var c := calls[|calls| - 1];
      Between(calls[..|calls| - 1], workspace, client, bucket, from, to)
        + (if c.principal.workspace == workspace && (client == "*" || c.principal.client == client) && c.bucket == bucket && from <= c.now < to
           then 1 else 0)
  }

  lemma {:induction false} WindowHits(calls: seq<Call>, k: Key, terms: Terms, clients: iset<string>)
    requires ValidTerms(terms) && Sound(terms, clients) && Regular(calls, terms, clients) && k.bucket == terms.bucket
    ensures Hits(Serve(calls).1, k) <= if k.client == "*" then 3 * terms.limit else terms.limit
  {
    if calls != [] {
      var before, c := calls[..|calls| - 1], calls[|calls| - 1];
      var (t, accepted) := Serve(before);
      assert before + [c] == calls;
      RegularPrefix(before, c, terms, clients);
      WindowHits(before, k, terms, clients);
      HitsSnoc(accepted, c, k);
      if Under(c, k) && Consume(t, c).1.Ok? {
        SoundIsExact(before, c, terms, clients);
        if k.client != "*" { OwnHits(accepted, c); }
      }
    }
  }

  /** Every instant of an interval no longer than a window lies in one of two aligned windows. */
  lemma TwoWindows(from: int, window: int, now: int)
    requires window >= 1 && from <= now < from + window * 1000
    ensures var first := from / 1000 / window * window; var start := now / 1000 / window * window;
      start == first || start == first + window
  {
    var a, n := from / 1000, now / 1000;
    var q := a / window;
    assert a == q * window + a % window;
    assert n <= a + window;
    if n < q * window + window {
      QuotientIs(n, window, q);
    } else {
      assert (q + 1) * window == q * window + window && (q + 2) * window == q * window + 2 * window;
      QuotientIs(n, window, q + 1);
    }
  }

  lemma QuotientIs(n: int, w: int, q: int)
    requires w >= 1 && q * w <= n < (q + 1) * w
    ensures n / w == q
  {
    var r := n / w;
    assert n == r * w + n % w && (r + 1) * w == r * w + w;
    Scaled(r + 1, q, w);
    Scaled(q + 1, r, w);
  }

  lemma Scaled(a: int, b: int, w: int)
    requires w >= 1
    ensures a <= b ==> a * w <= b * w
  {
  }

  lemma {:induction false} BetweenIsCovered(calls: seq<Call>, workspace: string, client: string, bucket: string, from: int, to: int,
                                             window: int, first: int)
    requires window >= 1 && to <= from + window * 1000 && first == from / 1000 / window * window
    requires forall c :: c in calls && c.bucket == bucket ==> c.window == window
    ensures Between(calls, workspace, client, bucket, from, to)
        <= Hits(calls, Key(workspace, client, bucket, first)) + Hits(calls, Key(workspace, client, bucket, first + window))
  {
    if calls != [] {
      var n := |calls| - 1;
      var c := calls[n];
      assert forall d :: d in calls[..n] ==> d in calls;
      BetweenIsCovered(calls[..n], workspace, client, bucket, from, to, window, first);
      assert c in calls;
      if c.bucket == bucket && from <= c.now < to { TwoWindows(from, window, c.now); }
    }
  }

  /** However calls arrive, an interval no longer than the window lets through at most 2 * limit of one
      client and 6 * limit of one workspace. */
  lemma IntervalBound(calls: seq<Call>, terms: Terms, clients: iset<string>, workspace: string, client: string, from: int, to: int)
    requires ValidTerms(terms) && Sound(terms, clients) && Regular(calls, terms, clients) && to <= from + terms.window * 1000
    ensures Between(Serve(calls).1, workspace, client, terms.bucket, from, to)
      <= if client == "*" then 6 * terms.limit else 2 * terms.limit
  {
    AcceptedAreCalls(calls);
    var first := from / 1000 / terms.window * terms.window;
    WindowHits(calls, Key(workspace, client, terms.bucket, first), terms, clients);
    WindowHits(calls, Key(workspace, client, terms.bucket, first + terms.window), terms, clients);
    BetweenIsCovered(Serve(calls).1, workspace, client, terms.bucket, from, to, terms.window, first);
  }
}
