/** The cached request list as a view of the database. */
module Freshness {
  import opened Requests
  import opened Pipeline
  import opened Delivery

  ghost predicate SameButAssignees(cached: seq<Request>, rows: seq<Request>) {
    && |cached| == |rows|
    && forall i :: 0 <= i < |rows| ==> cached[i] == rows[i].(assignees := cached[i].assignees)
  }

  /** refreshedAt counts the transitions there had been at the last refresh; a message processed with a
      successful refresh is among them, and a list as old as the last transition is right but for assignees. */
  ghost predicate FreshOk(s: State) {
    && s.list.Some?
    && s.refreshedAt <= |s.ledger|
    && (forall t :: 0 <= t < |s.ledger| && s.ledger[t].refreshed ==> t < s.refreshedAt)
    && (s.refreshedAt == |s.ledger| ==> SameButAssignees(s.list.value, s.rows))
  }

  lemma FreshOkStep(s: State, a: Action)
    requires FreshOk(s)
    ensures FreshOk(Apply(s, a))
  {
    if a.Create? || a.OpPatch? || a.AdminPatch? {
      FreshOkPublish(s, a);
    } else {
      FreshOkOther(s, a);
    }
  }

  lemma FreshOkPublish(s: State, a: Action)
    requires FreshOk(s) && (a.Create? || a.OpPatch? || a.AdminPatch?)
    ensures FreshOk(Apply(s, a))
  {
  }

  lemma FreshOkOther(s: State, a: Action)
    requires FreshOk(s) && !(a.Create? || a.OpPatch? || a.AdminPatch?)
    ensures FreshOk(Apply(s, a))
  {
  }

  /** If the newest transition was processed with a successful refresh, the dashboard's list is the database's,
      assignees apart: they are written after the refresh. */
  lemma NewestRefreshed(s: State)
    requires FreshOk(s)
    requires s.ledger != [] ==> s.ledger[|s.ledger| - 1].refreshed
    ensures SameButAssignees(s.list.value, s.rows)
  {
  }

  /** A transition later than the list is one whose message the worker has not come to: still unsettled or, unless
      nothing ever gets lost, unpublished or dead. */
  ghost predicate Covered(s: State, lossless: bool) {
    && (forall t :: s.refreshedAt <= t < |s.ledger| ==>
          s.ledger[t].fate == Queued || (!lossless && s.ledger[t].fate in {Unpublished, Dead}))
    && (s.worker.Busy? && s.worker.phase != Refreshing ==> s.worker.m.tag < s.refreshedAt)
  }

  /** A step that loses no message before the worker comes to it. */
  predicate Lossless(a: Action) {
    match a
    case Create(_, _, _, _, published) => published
    case OpPatch(_, _, _, _, _, published) => published
    case AdminPatch(_, _, _, _, published) => published
    case Expire => false
    case _ => true
  }

  lemma CoveredPublish(s: State, a: Action, lossless: bool)
    requires Covered(s, lossless) && FreshOk(s) && (lossless ==> Lossless(a))
    requires a.Create? || a.OpPatch? || a.AdminPatch?
    ensures Covered(Apply(s, a), lossless)
  {
  }

  lemma CoveredRemove(s: State, a: Action, lossless: bool)
    requires Covered(s, lossless) && DeliveryOk(s) && (lossless ==> Lossless(a))
    requires a.Settle? || a.Expire?
    ensures Covered(Apply(s, a), lossless)
  {
  }

  lemma CoveredRefresh(s: State, lossless: bool)
    requires Covered(s, lossless) && DeliveryOk(s)
    ensures Covered(RefreshList(s, true), lossless)
  {
  }

  lemma CoveredTake(s: State, lossless: bool)
    requires Covered(s, lossless)
    ensures Covered(TakeNext(s), lossless)
  {
  }

  lemma CoveredInternal(s: State, a: Action, lossless: bool)
    requires Covered(s, lossless) && DeliveryOk(s) && (a.Refresh? ==> a.ok) && Internal(a)
    ensures Covered(Apply(s, a), lossless)
  {
    if a.Refresh? {
      CoveredRefresh(s, lossless);
    } else if a.Take? {
      CoveredTake(s, lossless);
    } else {
      CoveredOther(s, a, lossless);
    }
  }

  lemma CoveredOther(s: State, a: Action, lossless: bool)
    requires Covered(s, lossless) && Internal(a) && !a.Refresh? && !a.Take?
    ensures Covered(Apply(s, a), lossless)
  {
  }

  lemma CoveredStep(s: State, a: Action, lossless: bool)
    requires Covered(s, lossless) && DeliveryOk(s) && FreshOk(s)
    requires (a.Refresh? ==> a.ok) && (lossless ==> Lossless(a))
    ensures Covered(Apply(s, a), lossless)
  {
    if Internal(a) {
      CoveredInternal(s, a, lossless);
    } else if a.Settle? || a.Expire? {
      CoveredRemove(s, a, lossless);
    } else {
      CoveredPublish(s, a, lossless);
    }
  }

  lemma CoveredMeansFresh(s: State)
    requires FreshOk(s) && Covered(s, true) && DeliveryOk(s) && Outstanding(s) == []
    ensures SameButAssignees(s.list.value, s.rows)
  {
    if s.refreshedAt < |s.ledger| {
      LateIsQueued(s, s.refreshedAt);
    }
  }

  lemma LateIsQueued(s: State, t: nat)
    requires Covered(s, true) && s.refreshedAt <= t < |s.ledger|
    ensures s.ledger[t].fate == Queued
  {
  }

  lemma AcknowledgedMeansFresh(s: State)
    requires FreshOk(s) && Covered(s, false) && s.ledger != [] && s.ledger[|s.ledger| - 1].fate == Acked
    ensures SameButAssignees(s.list.value, s.rows)
  {
  }

  /** Whatever fails, the cached list is never invented: it is the one at the outset or a snapshot of the rows
      at some moment of the run. */
  lemma {:induction false} ListIsSnapshot(s: State, actions: seq<Action>)
    ensures var list := Run(s, actions).list;
            list == s.list || exists k :: 0 <= k <= |actions| && list == Some(Run(s, actions[..k]).rows)
    decreases |actions|
  {
    if actions != [] {
      var s1 := Apply(s, actions[0]);
      ListIsSnapshot(s1, actions[1..]);
      var list := Run(s, actions).list;
      if list == s1.list {
        assert list != s.list ==> list == Some(Run(s, actions[..0]).rows);
      } else {
        var k :| 0 <= k <= |actions[1..]| && list == Some(Run(s1, actions[1..][..k]).rows);
        assert actions[..k + 1][1..] == actions[1..][..k];
        assert list == Some(Run(s, actions[..k + 1]).rows);
      }
    }
  }
}
