/** The statistics hash as a view of the database: how far the counters are off, exactly, in every state. */
module DriftLaw {
  import opened Requests
  import opened Stats
  import opened Pipeline
  import opened IncrementalView
  import opened Lifecycle
  import opened Delivery

  function Skew(n: int): Tally {
    ZERO.(deactivated := n)
  }

  /** recount == counters + drift, with "deactivated" off by a constant fixed at the last sync. */
  ghost predicate DriftOk(s: State) {
    && Readable(s.stats)
    && Balanced(Delta, Contribution, s.stats.counters, Skew(s.skew), s.ledger, s.rows)
  }

  lemma DriftOkInsert(s: State, username: string, age: int, gender: string, now: real, published: bool)
    requires DriftOk(s)
    ensures DriftOk(InsertRow(s, username, age, gender, now, published))
  {
    var r := NewRequest(|s.rows|, username, age, gender, now);
    var e := Entry(r.(timestamp := NO_TIME), if published then Queued else Unpublished, 0, false);
    BalancedAppend(Delta, Contribution, s.stats.counters, Skew(s.skew), s.ledger, s.rows, e, r);
  }

  lemma DriftOkCreate(s: State, username: string, age: int, gender: string, now: real, published: bool)
    requires DriftOk(s)
    ensures DriftOk(CreateRequest(s, username, age, gender, now, published))
  {
    if !Blocked(s.rows, username) {
      DriftOkInsert(s, username, age, gender, now, published);
    }
  }

  lemma DriftOkUpdate(s: State, id: nat, status: Status, admin: string, now: real, later: real, published: bool)
    requires DriftOk(s) && id < |s.rows| && LegalTransition(s.rows[id].status, status)
    ensures DriftOk(UpdateRow(s, id, status, admin, now, later, published))
  {
    var r := Patched(s.rows[id], status, admin, now, later);
    var e := Entry(r, if published then Queued else Unpublished, 0, false);
    DeltaIsContributionChange(s.rows[id], r);
    BalancedUpdateIff(Delta, Contribution, s.stats.counters, Skew(s.skew), s.ledger, s.rows, e, id);
  }

  lemma DriftOkCounted(s: State, s': State, t: nat)
    requires DriftOk(s) && t < |s.ledger| && Readable(s'.stats)
    requires s'.stats.counters == s.stats.counters.Plus(Delta(s.ledger[t].body))
    requires s'.ledger == Counted(s.ledger, t) && s'.rows == s.rows && s'.skew == s.skew
    ensures DriftOk(s')
  {
    BalancedCount(Delta, Contribution, s.stats.counters, Skew(s.skew), s.ledger, s.rows, t);
  }

  lemma DriftOkCount(s: State, ok: bool)
    requires DriftOk(s) && DeliveryOk(s)
    ensures DriftOk(CountMessage(s, ok))
  {
    if s.worker.Busy? && s.worker.phase.Counting? && ok {
      UpdateAddsDelta(s.stats, s.worker.m.body);
      DriftOkCounted(s, CountMessage(s, ok), s.worker.m.tag);
    }
  }

  lemma DriftOkRestart(s: State, aggregate: AggregateStats)
    ensures DriftOk(RestartProcess(s, aggregate))
  {
    var s' := RestartProcess(s, aggregate);
    SyncScansRecount(s.stats.(aggregate := Some(aggregate)), s.rows);
    BalancedSettled(Delta, Contribution, s'.stats.counters, Skew(s'.skew), s'.ledger, s.rows);
  }

  predicate Neutral(a: Action) {
    !(a.Create? || a.OpPatch? || a.AdminPatch? || a.Count? || a.Restart?)
  }

  lemma NeutralKeeps(s: State, a: Action)
    requires Neutral(a)
    ensures var s' := Apply(s, a);
            && s'.stats.counters == s.stats.counters && (Readable(s.stats) ==> Readable(s'.stats)) && s'.skew == s.skew
            && |s'.rows| == |s.rows| && |s'.ledger| == |s.ledger|
            && (forall i :: 0 <= i < |s.rows| ==> s'.rows[i] == s.rows[i].(assignees := s'.rows[i].assignees))
            && (forall t :: 0 <= t < |s.ledger| ==>
                  s.ledger[t].body == s'.ledger[t].body && s.ledger[t].counted == s'.ledger[t].counted)
  {
  }

  lemma ContributionIgnoresAssignees(r: Request, assignees: seq<string>)
    ensures Contribution(r.(assignees := assignees)) == Contribution(r)
  {
  }

  lemma DriftOkKept(s: State, s': State)
    requires DriftOk(s)
    requires s'.stats.counters == s.stats.counters && Readable(s'.stats) && s'.skew == s.skew
    requires |s'.rows| == |s.rows| && |s'.ledger| == |s.ledger|
    requires forall i :: 0 <= i < |s.rows| ==> s'.rows[i] == s.rows[i].(assignees := s'.rows[i].assignees)
    requires forall t :: 0 <= t < |s.ledger| ==>
               s.ledger[t].body == s'.ledger[t].body && s.ledger[t].counted == s'.ledger[t].counted
    ensures DriftOk(s')
  {
    forall i | 0 <= i < |s.rows|
      ensures Contribution(s.rows[i]) == Contribution(s'.rows[i])
    {
      ContributionIgnoresAssignees(s.rows[i], s'.rows[i].assignees);
    }
    BalancedSame(Delta, Contribution, s.stats.counters, Skew(s.skew), s.ledger, s.rows, s'.ledger, s'.rows);
  }

  lemma DriftOkNeutral(s: State, a: Action)
    requires DriftOk(s) && Neutral(a)
    ensures DriftOk(Apply(s, a))
  {
    NeutralKeeps(s, a);
    DriftOkKept(s, Apply(s, a));
  }

  lemma DriftOkHandled(s: State, a: Action)
    requires DriftOk(s) && Legal(s, a) && (a.Create? || a.OpPatch? || a.AdminPatch?)
    ensures DriftOk(Apply(s, a))
  {
    match a
    case Create(username, age, gender, now, published) => DriftOkCreate(s, username, age, gender, now, published);
    case OpPatch(id, op, status, now, later, published) =>
      if OpAllowed(s.rows, id, op) {
        DriftOkUpdate(s, id, status, op, now, later, published);
      }
    case AdminPatch(id, status, now, later, published) =>
      if id < |s.rows| {
        DriftOkUpdate(s, id, status, "admin", now, later, published);
      }
  }

  lemma DriftOkStep(s: State, a: Action)
    requires DriftOk(s) && DeliveryOk(s) && Legal(s, a)
    ensures DriftOk(Apply(s, a))
  {
    if Neutral(a) {
      DriftOkNeutral(s, a);
    } else if a.Count? {
      DriftOkCount(s, a.ok);
    } else if a.Restart? {
      DriftOkRestart(s, a.aggregate);
    } else {
      DriftOkHandled(s, a);
    }
  }

  // ----- the average, over runs -----

  /** Every message names a stored row (so no update by id ever inserts one), and a decision took no negative time. */
  ghost predicate BodiesOk(ledger: seq<Entry>, rows: seq<Request>) {
    forall t :: 0 <= t < |ledger| ==>
      && ledger[t].body.id < |rows| && rows[ledger[t].body.id].username == ledger[t].body.username
      && (Decision(ledger[t].body.status) ==> ResponseTime(ledger[t].body) >= 0.0)
  }

  lemma BodiesOkAppend(ledger: seq<Entry>, rows: seq<Request>, rows': seq<Request>, e: Entry)
    requires BodiesOk(ledger, rows) && |rows| <= |rows'|
    requires forall i :: 0 <= i < |rows| ==> rows'[i].username == rows[i].username
    requires e.body.id < |rows'| && rows'[e.body.id].username == e.body.username
    requires Decision(e.body.status) ==> ResponseTime(e.body) >= 0.0
    ensures BodiesOk(ledger + [e], rows')
  {
  }

  lemma BodiesOkUpdate(s: State, id: nat, status: Status, admin: string, now: real, later: real, published: bool)
    requires BodiesOk(s.ledger, s.rows) && RowsOk(s) && id < |s.rows| && s.clock <= now
    ensures var s' := UpdateRow(s, id, status, admin, now, later, published); BodiesOk(s'.ledger, s'.rows)
  {
    assert RowOk(s.rows[id], id, s.clock, s.mailed);
    var r := Patched(s.rows[id], status, admin, now, later);
    BodiesOkAppend(s.ledger, s.rows, s.rows[id := r], Entry(r, if published then Queued else Unpublished, 0, false));
  }

  lemma BodiesOkKept(s: State, a: Action)
    requires BodiesOk(s.ledger, s.rows) && !(a.Create? || a.OpPatch? || a.AdminPatch?)
    ensures BodiesOk(Apply(s, a).ledger, Apply(s, a).rows)
  {
    var s' := Apply(s, a);
    assert |s'.ledger| == |s.ledger| && forall t :: 0 <= t < |s.ledger| ==> s'.ledger[t].body == s.ledger[t].body;
    assert |s'.rows| == |s.rows| && forall i :: 0 <= i < |s.rows| ==> s'.rows[i].username == s.rows[i].username;
  }

  lemma BodiesOkStep(s: State, a: Action)
    requires BodiesOk(s.ledger, s.rows) && RowsOk(s) && Legal(s, a)
    ensures BodiesOk(Apply(s, a).ledger, Apply(s, a).rows)
  {
    match a
    case Create(username, age, gender, now, published) =>
      var r := NewRequest(|s.rows|, username, age, gender, now);
      BodiesOkAppend(s.ledger, s.rows, s.rows + [r],
                     Entry(r.(timestamp := NO_TIME), if published then Queued else Unpublished, 0, false));
    case OpPatch(id, op, status, now, later, published) =>
      if OpAllowed(s.rows, id, op) {
        BodiesOkUpdate(s, id, status, op, now, later, published);
      }
    case AdminPatch(id, status, now, later, published) =>
      if id < |s.rows| {
        BodiesOkUpdate(s, id, status, "admin", now, later, published);
      }
    case _ => BodiesOkKept(s, a);
  }

  /** The condition, checkable when the process starts, under which SyncStats stores a usable average. */
  ghost predicate CleanSync(s: State) {
    || Recount(s.rows).totalTime == 0.0
    || s.stats.counters.deactivated == Recount(s.rows).deactivated
  }

  /** Everything the statistics keep besides the drift law. */
  ghost predicate StatsOk(s: State) {
    && s.stats.counters.Demographic()
    && s.stats.counters.deactivated >= 0 && s.stats.counters.totalTime >= 0.0
    && BodiesOk(s.ledger, s.rows)
  }

  lemma FulfilledTimes(s: State)
    requires RowsOk(s)
    ensures forall r :: r in s.rows && r.status != Pending ==> ResponseTime(r) >= 0.0
  {
    forall r | r in s.rows && r.status != Pending
      ensures ResponseTime(r) >= 0.0
    {
      var i :| 0 <= i < |s.rows| && s.rows[i] == r;
      assert RowOk(s.rows[i], i, s.clock, s.mailed);
    }
  }

  lemma StatsOkCount(s: State, ok: bool)
    requires StatsOk(s) && DeliveryOk(s)
    ensures var c := CountMessage(s, ok).stats.counters; c.Demographic() && c.deactivated >= 0 && c.totalTime >= 0.0
  {
    if s.worker.Busy? {
      assert Recorded(s.worker.m, s.ledger);
      DemographicsConserved(s.stats, s.worker.m.body);
      UpdateAddsDelta(s.stats, s.worker.m.body);
    }
  }

  lemma StatsOkStep(s: State, a: Action)
    requires StatsOk(s) && RowsOk(s) && DeliveryOk(s) && Legal(s, a)
    ensures StatsOk(Apply(s, a))
  {
    BodiesOkStep(s, a);
    match a
    case Count(ok) => StatsOkCount(s, ok);
    case Restart(aggregate) =>
      FulfilledTimes(s);
      RecountBounds(s.rows);
      SyncScansRecount(s.stats.(aggregate := Some(aggregate)), s.rows);
    case _ => CountersKept(s, a);
  }

  lemma CountersKept(s: State, a: Action)
    requires !a.Count? && !a.Restart?
    ensures Apply(s, a).stats.counters == s.stats.counters
  {
  }

  lemma AverageAgreesStep(s: State, a: Action)
    requires StatsOk(s) && RowsOk(s) && DeliveryOk(s)
    requires if a.Restart? then CleanSync(s) else AverageAgrees(s.stats)
    ensures AverageAgrees(Apply(s, a).stats)
  {
    match a
    case Count(_) =>
      if s.worker.Busy? {
        assert Recorded(s.worker.m, s.ledger);
        AveragePreserved(s.stats, s.worker.m.body);
      }
    case Restart(aggregate) =>
      FulfilledTimes(s);
      AverageAfterSync(s.stats.(aggregate := Some(aggregate)), s.rows);
    case _ =>
  }
}
