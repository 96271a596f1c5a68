/** What every step keeps of the rows: one active request per username, honest timestamps, attributed decisions. */
module Lifecycle {
  import opened Requests
  import opened Pipeline

  ghost predicate OneActive(rows: seq<Request>) {
    forall i, j :: 0 <= i < j < |rows| && Active(rows[i].status) && Active(rows[j].status)
                   ==> rows[i].username != rows[j].username
  }

  ghost predicate Stamped(r: Request, clock: real) {
    && NO_TIME <= r.timestamp <= clock
    && if r.status == Pending then r.processed == r.lastUpdated == NO_TIME
       else r.timestamp <= r.processed <= r.lastUpdated <= clock
  }

  ghost predicate Attributed(r: Request, mailed: set<(nat, string)>) {
    && (forall op :: op in r.assignees ==> (r.id, op) in mailed)
    && if r.status == Pending then r.admin == "" else r.admin == "admin" || (r.id, r.admin) in mailed
  }

  ghost predicate RowOk(r: Request, i: nat, clock: real, mailed: set<(nat, string)>) {
    r.id == i && Stamped(r, clock) && Attributed(r, mailed)
  }

  ghost predicate RowsSound(rows: seq<Request>, clock: real, mailed: set<(nat, string)>) {
    && NO_TIME <= clock
    && OneActive(rows)
    && (forall i :: 0 <= i < |rows| ==> RowOk(rows[i], i, clock, mailed))
    && (forall i, j :: 0 <= i < j < |rows| ==> rows[i].timestamp <= rows[j].timestamp)
  }

  ghost predicate RowsOk(s: State) {
    RowsSound(s.rows, s.clock, s.mailed)
  }

  lemma RowOkLater(r: Request, i: nat, clock: real, clock': real,
                   mailed: set<(nat, string)>, mailed': set<(nat, string)>)
    requires RowOk(r, i, clock, mailed) && clock <= clock' && mailed <= mailed'
    ensures RowOk(r, i, clock', mailed')
  {
  }

  lemma RowsOkCreate(rows: seq<Request>, clock: real, mailed: set<(nat, string)>, r: Request, now: real)
    requires RowsSound(rows, clock, mailed) && clock <= now
    requires r == NewRequest(|rows|, r.username, r.age, r.gender, now) && !Blocked(rows, r.username)
    ensures RowsSound(rows + [r], now, mailed)
  {
    forall i | 0 <= i < |rows|
      ensures RowOk(rows[i], i, now, mailed)
    {
      RowOkLater(rows[i], i, clock, now, mailed, mailed);
    }
  }

  lemma RowsOkUpdate(rows: seq<Request>, clock: real, mailed: set<(nat, string)>,
                     id: nat, status: Status, admin: string, now: real, later: real)
    requires RowsSound(rows, clock, mailed) && id < |rows| && LegalTransition(rows[id].status, status)
    requires clock <= now <= later && (admin == "admin" || (id, admin) in mailed)
    ensures RowsSound(rows[id := Patched(rows[id], status, admin, now, later)], later, mailed)
  {
    var r := Patched(rows[id], status, admin, now, later);
    assert RowOk(rows[id], id, clock, mailed);
    assert RowOk(r, id, later, mailed);
    forall i | 0 <= i < |rows| && i != id
      ensures RowOk(rows[i], i, later, mailed)
    {
      RowOkLater(rows[i], i, clock, later, mailed, mailed);
    }
    OneActiveUpdate(rows, id, r);
  }

  lemma OneActiveUpdate(rows: seq<Request>, id: nat, r: Request)
    requires OneActive(rows) && id < |rows|
    requires r.username == rows[id].username && (Active(r.status) ==> Active(rows[id].status))
    ensures OneActive(rows[id := r])
  {
  }

  lemma RowsOkAssign(rows: seq<Request>, clock: real, mailed: set<(nat, string)>, id: nat, sent: seq<string>)
    requires RowsSound(rows, clock, mailed) && id < |rows|
    requires forall op :: op in sent ==> (id, op) in mailed
    ensures RowsSound(rows[id := rows[id].(assignees := sent)], clock, mailed)
  {
    assert RowOk(rows[id], id, clock, mailed);
    OneActiveUpdate(rows, id, rows[id].(assignees := sent));
  }

  lemma RowsOkMailed(rows: seq<Request>, clock: real, mailed: set<(nat, string)>, mailed': set<(nat, string)>)
    requires RowsSound(rows, clock, mailed) && mailed <= mailed'
    ensures RowsSound(rows, clock, mailed')
  {
    forall i | 0 <= i < |rows|
      ensures RowOk(rows[i], i, clock, mailed')
    {
      RowOkLater(rows[i], i, clock, clock, mailed, mailed');
    }
  }

  lemma RowsOkAct(s: State, reported: bool, applied: bool, sent: seq<string>, stored: bool)
    requires RowsOk(s)
    ensures RowsOk(ActOn(s, reported, applied, sent, stored))
  {
    if s.worker.Busy? && s.worker.phase.Acting? && s.worker.m.body.status == Pending {
      var id, s' := s.worker.m.body.id, ActOn(s, reported, applied, sent, stored);
      RowsOkMailed(s.rows, s.clock, s.mailed, s'.mailed);
      if stored && sent != [] && id < |s.rows| {
        RowsOkAssign(s.rows, s.clock, s'.mailed, id, sent);
      }
    }
  }

  /** Only the handlers and the dispatch of a new request touch rows. */
  lemma OthersKeepRows(s: State, a: Action)
    requires !(a.Create? || a.OpPatch? || a.AdminPatch? || a.Act?)
    ensures Apply(s, a).rows == s.rows && Apply(s, a).clock == s.clock && Apply(s, a).mailed == s.mailed
  {
  }

  lemma RowsOkStep(s: State, a: Action)
    requires RowsOk(s) && Legal(s, a)
    ensures RowsOk(Apply(s, a))
  {
    match a
    case Create(username, age, gender, now, _) =>
      if !Blocked(s.rows, username) {
        RowsOkCreate(s.rows, s.clock, s.mailed, NewRequest(|s.rows|, username, age, gender, now), now);
      }
    case OpPatch(id, op, status, now, later, _) =>
      if OpAllowed(s.rows, id, op) {
        assert RowOk(s.rows[id], id, s.clock, s.mailed);
        RowsOkUpdate(s.rows, s.clock, s.mailed, id, status, op, now, later);
      }
    case AdminPatch(id, status, now, later, _) =>
      if id < |s.rows| {
        RowsOkUpdate(s.rows, s.clock, s.mailed, id, status, "admin", now, later);
      }
    case Act(reported, applied, sent, stored) => RowsOkAct(s, reported, applied, sent, stored);
    case _ => OthersKeepRows(s, a);
  }

  /** What a patch makes of a row, field by field: who decided what and when, and nothing else. */
  ghost predicate Transition(before: Request, after: Request, status: Status, admin: string, now: real, later: real) {
    && after.id == before.id && after.username == before.username
    && after.age == before.age && after.gender == before.gender
    && after.timestamp == before.timestamp && after.assignees == before.assignees
    && after.status == status && after.admin == admin
    && match status
       case Approved => after.processed == now && after.lastUpdated == later
       case Denied => after.processed == now && after.lastUpdated == later
       case Banned => after.processed == before.processed && after.lastUpdated == later
       case Deactivated => after.processed == before.processed && after.lastUpdated == later
       case Pending => after.processed == before.processed && after.lastUpdated == before.lastUpdated
  }

  /** How one row may change in one step: not at all, in its assignees, or by one legal transition. Identity,
      demographics and creation time never change, and the processing time only when a decision is taken. */
  ghost predicate RowEvolves(r: Request, r': Request) {
    && r'.id == r.id && r'.username == r.username && r'.age == r.age && r'.gender == r.gender
    && r'.timestamp == r.timestamp
    && (r'.status == r.status || LegalTransition(r.status, r'.status))
    && (r.status != Pending ==> r'.processed == r.processed)
    && (r'.status == r.status ==>
          r'.admin == r.admin && r'.processed == r.processed && r'.lastUpdated == r.lastUpdated)
  }

  ghost predicate RowsEvolve(rows: seq<Request>, rows': seq<Request>) {
    && |rows| <= |rows'|
    && (forall i :: 0 <= i < |rows| ==> RowEvolves(rows[i], rows'[i]))
  }

  lemma RowsEvolveStep(s: State, a: Action)
    requires Legal(s, a)
    ensures RowsEvolve(s.rows, Apply(s, a).rows)
  {
    if a.OpPatch? || a.AdminPatch? {
      RowsEvolvePatch(s, a);
    } else {
      RowsEvolveOther(s, a);
    }
  }

  lemma RowsEvolvePatch(s: State, a: Action)
    requires Legal(s, a) && (a.OpPatch? || a.AdminPatch?)
    ensures RowsEvolve(s.rows, Apply(s, a).rows)
  {
  }

  lemma RowsEvolveOther(s: State, a: Action)
    requires !(a.OpPatch? || a.AdminPatch?)
    ensures RowsEvolve(s.rows, Apply(s, a).rows)
  {
  }
}
