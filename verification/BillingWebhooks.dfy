/** Subscription webhooks, which arrive late, repeated and out of order. */
module BillingWebhooks {
  import opened Wrappers

  type Workspace = nat

  /** `details` stands for the customer, price, plan, cancellation flag and billing period. */
  datatype Update = Update(id: string, workspace: Workspace, subscription: string, status: string, created: int, details: string)

  datatype Row = Row(subscription: string, status: string, details: string, created: int, event: string)

  datatype Billing = Billing(events: set<string>, rows: map<Workspace, Row>)

  datatype Outcome = Applied | Duplicate | Stale | Ignored

  predicate Active(status: string) { status == "active" || status == "trialing" }

  function RowOf(u: Update): Row { Row(u.subscription, u.status, u.details, u.created, u.id) }

  /** What an update that has not been seen before meets. */
  function Verdict(row: Option<Row>, u: Update): Outcome {
    if row.Some? && row.value.created > u.created then Stale
    else if row.Some? && row.value.subscription != "" && row.value.subscription != u.subscription && !Active(u.status) then Ignored
    else if row.Some? && row.value.created == u.created && Active(row.value.status) && !Active(u.status) then Stale
    else Applied
  }

  function RowAt(s: Billing, ws: Workspace): Option<Row> { if ws in s.rows then Some(s.rows[ws]) else None }

  function Deliver(s: Billing, u: Update): (Billing, Outcome) {
    if u.id in s.events then (s, Duplicate)
    else
      var outcome := Verdict(RowAt(s, u.workspace), u);
      var t := s.(events := s.events + {u.id});
      (if outcome == Applied then t.(rows := t.rows[u.workspace := RowOf(u)]) else t, outcome)
  }

  class BillingStore {
    var events: set<string>
    var rows: map<Workspace, Row>

    function Db(): Billing
      reads this
    {
      Billing(events, rows)
    }

    constructor ()
      ensures Db() == Billing({}, map[])
    {
      events, rows := {}, map[];
    }

    method ApplySubscriptionUpdate(u: Update) returns (outcome: Outcome)
      modifies this
      ensures (Db(), outcome) == Deliver(old(Db()), u)
    {
      if u.id in events { return Duplicate; }
      events := events + {u.id};
      if u.workspace in rows {
        var row := rows[u.workspace];
        if row.created > u.created { return Stale; }
        if row.subscription != "" && row.subscription != u.subscription && !Active(u.status) { return Ignored; }
        if row.created == u.created && Active(row.status) && !Active(u.status) { return Stale; }
      }
      rows := rows[u.workspace := RowOf(u)];
      outcome := Applied;
    }
  }

  /** What the answer to a delivery tells: an event is seen once; it is applied whole or not at all; it is stale
      only if a later one, or an active one of the same time, was applied; and ignored only if it ends another
      subscription than the one on record. */
  lemma OutcomeTells(s: Billing, u: Update)
    ensures var (t, outcome) := Deliver(s, u);
      && (outcome == Duplicate <==> u.id in s.events) && t.events == s.events + {u.id}
      && (outcome == Applied ==> t.rows == s.rows[u.workspace := Row(u.subscription, u.status, u.details, u.created, u.id)])
      && (outcome != Applied ==> t.rows == s.rows)
      && (u.id !in s.events && u.workspace !in s.rows ==> outcome == Applied)
      && (outcome == Stale || outcome == Ignored ==> u.workspace in s.rows)
    ensures var outcome := Deliver(s, u).1; u.workspace in s.rows ==>
      var row := s.rows[u.workspace];
      && (outcome == Stale ==> row.created >= u.created && (row.created == u.created ==> row.status == "active" || row.status == "trialing"))
      && (outcome == Ignored ==> row.subscription !in ["", u.subscription] && u.status != "active" && u.status != "trialing")
  {
  }

  // ---- sequences of deliveries ----

  function After(s: Billing, ds: seq<Update>): Billing {
    if ds == [] then s else Deliver(After(s, ds[..|ds| - 1]), ds[|ds| - 1]).0
  }

  /** The time of the last event applied to a workspace never goes down, whatever is delivered. */
  lemma {:induction false} LastEventNeverGoesBack(s: Billing, ds: seq<Update>, ws: Workspace)
    requires ws in s.rows
    ensures ws in After(s, ds).rows && s.rows[ws].created <= After(s, ds).rows[ws].created
  {
    if ds != [] { LastEventNeverGoesBack(s, ds[..|ds| - 1], ws); }
  }

  /** One id, one event. */
  ghost predicate Distinct(all: set<Update>) {
    forall u, v :: u in all && v in all && u.id == v.id ==> u == v
  }

  /** None of the events has been seen, and the workspace has no subscription yet: no row, or the row that
      holds only its customer. */
  ghost predicate Fresh(s: Billing, all: set<Update>, ws: Workspace) {
    && (forall u :: u in all ==> u.id !in s.events && u.created >= 0)
    && (ws in s.rows ==> s.rows[ws].subscription == "" && s.rows[ws].created == 0 && !Active(s.rows[ws].status))
  }

  ghost predicate Delivered(ds: seq<Update>, all: set<Update>) { forall u :: u in ds <==> u in all }

  ghost predicate From(ds: seq<Update>, all: set<Update>) { forall u :: u in ds ==> u in all }

  lemma {:induction false} EventsSeen(s: Billing, ds: seq<Update>, all: set<Update>, ws: Workspace)
    requires Distinct(all) && Fresh(s, all, ws) && From(ds, all)
    ensures forall u :: u in all ==> (u.id in After(s, ds).events <==> u in ds)
  {
    if ds != [] {
      var n := |ds| - 1;
      assert forall u :: u in ds <==> u in ds[..n] || u == ds[n];
      EventsSeen(s, ds[..n], all, ws);
    }
  }

  // ---- a single latest event ----

  /** m is later than every other event of its workspace. */
  ghost predicate Latest(all: set<Update>, ws: Workspace, m: Update) {
    m in all && m.workspace == ws && forall u :: u in all && u.workspace == ws && u != m ==> u.created < m.created
  }

  /** The latest event is active, or every event names its subscription. */
  ghost predicate Decisive(all: set<Update>, ws: Workspace, m: Update) {
    m.status == "active" || m.status == "trialing" || forall u :: u in all && u.workspace == ws ==> u.subscription == "" || u.subscription == m.subscription
  }

  /** Before m the row cannot stop it; from m on the row is m's. */
  ghost predicate Heading(s: Billing, ds: seq<Update>, all: set<Update>, ws: Workspace, m: Update) {
    var row := RowAt(After(s, ds), ws);
    if m in ds then row == Some(RowOf(m))
    else row.Some? ==>
      && row.value.created <= m.created
      && (row.value.created == m.created ==> !Active(row.value.status))
      && (row.value.subscription == "" || exists u :: u in all && u.workspace == ws && u.subscription == row.value.subscription)
  }

  lemma {:induction false} HeadsToLatest(s: Billing, ds: seq<Update>, all: set<Update>, ws: Workspace, m: Update)
    requires Distinct(all) && Fresh(s, all, ws) && From(ds, all) && Latest(all, ws, m) && Decisive(all, ws, m)
    ensures Heading(s, ds, all, ws, m)
  {
    if ds != [] {
      var n := |ds| - 1;
      assert forall u :: u in ds <==> u in ds[..n] || u == ds[n];
      HeadsToLatest(s, ds[..n], all, ws, m);
      EventsSeen(s, ds[..n], all, ws);
      assert ds[n] in all;
    } else {
      assert s.rows == After(s, ds).rows;
    }
  }

  /** The order that defeats an inactive latest event: another subscription's event first. */
  ghost predicate Missed(s: Billing, ws: Workspace, m: Update) {
    m.id in s.events && ws in s.rows && s.rows[ws].event != m.id
  }

  lemma {:induction false} MissedStays(s: Billing, ds: seq<Update>, all: set<Update>, ws: Workspace, m: Update)
    requires Distinct(all) && m in all && From(ds, all) && Missed(s, ws, m)
    ensures Missed(After(s, ds), ws, m)
  {
    if ds != [] { MissedStays(s, ds[..|ds| - 1], all, ws, m); }
  }

  lemma {:induction false} AfterConcat(s: Billing, a: seq<Update>, b: seq<Update>)
    ensures After(s, a + b) == After(After(s, a), b)
  {
    if b == [] {
      assert a + b == a;
    } else {
      assert (a + b)[..|a + b| - 1] == a + b[..|b| - 1];
      AfterConcat(s, a, b[..|b| - 1]);
    }
  }

  lemma {:induction false} Listing(all: set<Update>) returns (ds: seq<Update>)
    ensures Delivered(ds, all)
  {
    if all == {} {
      ds := [];
    } else {
      var u :| u in all;
      var rest := Listing(all - {u});
      ds := [u] + rest;
    }
  }

  lemma DefeatingOrder(s: Billing, all: set<Update>, ws: Workspace, m: Update) returns (ds: seq<Update>)
    requires Distinct(all) && Fresh(s, all, ws) && Latest(all, ws, m) && !Decisive(all, ws, m)
    ensures Delivered(ds, all) && RowAt(After(s, ds), ws) != Some(RowOf(m))
  {
    var v :| v in all && v.workspace == ws && v.subscription != "" && v.subscription != m.subscription;
    var rest := Listing(all);
    ds := [v, m] + rest;
    assert [v, m][..1] == [v] && [v][..0] == [];
    assert After(s, []) == s;
    assert After(s, [v]) == Deliver(s, v).0 && After(s, [v]).rows[ws] == RowOf(v);
    assert Missed(After(s, [v, m]), ws, m);
    AfterConcat(s, [v, m], rest);
    MissedStays(After(s, [v, m]), rest, all, ws, m);
  }

  /** Webhooks converge: every order of delivery, with any repeats, leaves the row at the latest event, if and
      only if the latest event is active or all events name its subscription. */
  lemma ConvergesExactly(s: Billing, all: set<Update>, ws: Workspace, m: Update)
    requires Distinct(all) && Fresh(s, all, ws) && Latest(all, ws, m)
    ensures (forall ds :: Delivered(ds, all) ==> RowAt(After(s, ds), ws) == Some(Row(m.subscription, m.status, m.details, m.created, m.id)))
      <==> Decisive(all, ws, m)
  {
    if Decisive(all, ws, m) {
      forall ds | Delivered(ds, all)
        ensures RowAt(After(s, ds), ws) == Some(RowOf(m))
      {
        HeadsToLatest(s, ds, all, ws, m);
      }
    } else {
      var ds := DefeatingOrder(s, all, ws, m);
    }
  }

  // ---- ties ----

  ghost predicate Concerns(ds: seq<Update>, ws: Workspace, u: Update) { u in ds && u.workspace == ws }

  /** The row is one of the latest events, and active exactly when one of them is. */
  ghost predicate AtLatest(row: Row, ds: seq<Update>, ws: Workspace) {
    && (exists u :: Concerns(ds, ws, u) && row == RowOf(u))
    && (forall u :: Concerns(ds, ws, u) ==> u.created <= row.created)
    && (row.status == "active" || row.status == "trialing"
        <==> exists u :: Concerns(ds, ws, u) && u.created == row.created && (u.status == "active" || u.status == "trialing"))
  }

  lemma AtLatestApplied(row: Option<Row>, ds: seq<Update>, ws: Workspace, u: Update)
    requires u.workspace == ws
    requires if row.Some? then AtLatest(row.value, ds, ws) && Verdict(row, u) == Applied else forall v :: !Concerns(ds, ws, v)
    requires row.Some? ==> row.value.subscription == u.subscription
    ensures AtLatest(RowOf(u), ds + [u], ws)
  {
    forall v
      ensures Concerns(ds + [u], ws, v) <==> Concerns(ds, ws, v) || v == u
    {
    }
    assert Concerns(ds + [u], ws, u);
  }

  /** One more delivery after some event of the workspace. */
  lemma TieStep(t: Billing, before: seq<Update>, ws: Workspace, u: Update)
    requires ws in t.rows && AtLatest(t.rows[ws], before, ws) && (u.id in t.events <==> u in before)
    requires u.workspace == ws ==> t.rows[ws].subscription == u.subscription
    ensures ws in Deliver(t, u).0.rows && AtLatest(Deliver(t, u).0.rows[ws], before + [u], ws)
  {
  }

  /** For one subscription id, in any order, with repeats and ties: the row ends at the largest time, and is
      active exactly when some event of that time is. */
  lemma {:induction false} TiesFavourActive(s: Billing, ds: seq<Update>, all: set<Update>, ws: Workspace, subscription: string)
    requires Distinct(all) && Fresh(s, all, ws) && From(ds, all)
    requires forall u :: u in all && u.workspace == ws ==> u.subscription == subscription
    ensures if exists u :: Concerns(ds, ws, u)
      then ws in After(s, ds).rows && AtLatest(After(s, ds).rows[ws], ds, ws)
      else RowAt(After(s, ds), ws) == RowAt(s, ws)
  {
    if ds != [] {
      var before, u := ds[..|ds| - 1], ds[|ds| - 1];
      assert ds == before + [u];
      TiesFavourActive(s, before, all, ws, subscription);
      EventsSeen(s, before, all, ws);
      var t := After(s, before);
      assert u in all;
      if v :| Concerns(before, ws, v) {
        assert Concerns(ds, ws, v);
        TieStep(t, before, ws, u);
      } else if u.workspace == ws {
        assert Concerns(ds, ws, u) && !Concerns(before, ws, u);
        AtLatestApplied(None, before, ws, u);
      } else {
        assert forall v :: Concerns(ds, ws, v) ==> Concerns(before, ws, v);
      }
    }
  }
}
