/** Where the guarantees end: what each guard and each atomicity assumption is worth. */
module Races {
  import opened Requests
  import opened Stats
  import opened Pipeline
  import opened IncrementalView
  import opened Lifecycle
  import opened GameAgreement
  import opened DriftLaw
  import opened Freshness
  import opened Theorems

  /** The admin path checks no status: a patch keeps the counters reconcilable exactly if the transition is one
      the dashboard offers. */
  lemma PatchKeepsDriftLawIff(s: State, id: nat, status: Status, admin: string, now: real, later: real, published: bool)
    requires DriftOk(s) && id < |s.rows|
    ensures DriftOk(UpdateRow(s, id, status, admin, now, later, published))
       <==> LegalTransition(s.rows[id].status, status)
  {
    var r := Patched(s.rows[id], status, admin, now, later);
    PatchBalancedIff(s, id, Entry(r, if published then Queued else Unpublished, 0, false));
  }

  lemma PatchBalancedIff(s: State, id: nat, e: Entry)
    requires DriftOk(s) && id < |s.rows| && e.counted == 0
    requires e.body.gender == s.rows[id].gender && e.body.age == s.rows[id].age
    requires e.body.status in {Banned, Deactivated} ==> ResponseTime(e.body) == ResponseTime(s.rows[id])
    ensures Balanced(Delta, Contribution, s.stats.counters, Skew(s.skew), s.ledger + [e], s.rows[id := e.body])
       <==> LegalTransition(s.rows[id].status, e.body.status)
  {
    IllegalTransitionDrifts(s.rows[id], e.body);
    BalancedUpdateIff(Delta, Contribution, s.stats.counters, Skew(s.skew), s.ledger, s.rows, e, id);
  }

  /** Reviving a closed request keeps one active request per name exactly if none is active. */
  lemma RevivalKeepsOneActiveIff(rows: seq<Request>, id: nat, r: Request)
    requires OneActive(rows) && id < |rows| && !Active(rows[id].status)
    requires Active(r.status) && r.username == rows[id].username
    ensures OneActive(rows[id := r]) <==> !Blocked(rows, r.username)
  {
    var rows' := rows[id := r];
    if Blocked(rows, r.username) {
      var i :| 0 <= i < |rows| && rows[i].username == r.username && Active(rows[i].status);
      var a, b := if i < id then i else id, if i < id then id else i;
      assert Active(rows'[a].status) && Active(rows'[b].status) && rows'[a].username == rows'[b].username;
    }
  }

  /** Storing a new request keeps one active request per name exactly if the name is not blocked. */
  lemma InsertKeepsOneActiveIff(rows: seq<Request>, r: Request)
    requires OneActive(rows) && Active(r.status)
    ensures OneActive(rows + [r]) <==> !Blocked(rows, r.username)
  {
    var both := rows + [r];
    assert both[|rows|] == r;
    if Blocked(rows, r.username) {
      var i :| 0 <= i < |rows| && rows[i].username == r.username && Active(rows[i].status);
      assert both[i] == rows[i];
    }
  }

  /** Validation and insertion are two database calls. Two applications validated before either is stored both
      pass, and both get stored. */
  lemma RacingCreates(rows: seq<Request>, r: Request, r': Request)
    requires OneActive(rows) && !Blocked(rows, r.username)
    requires r.status == r'.status == Pending && r.username == r'.username
    ensures OneActive(rows + [r]) && Blocked(rows + [r], r.username)
    ensures !OneActive(rows + [r, r'])
  {
    var n := |rows|;
    assert (rows + [r])[n] == r;
    var both := rows + [r, r'];
    assert both[n] == r && both[n + 1] == r';
  }

  /** Guard and update are two calls as well: an approval and a denial that both saw a pending request are both
      carried out, and with the second write the drift law is lost. */
  lemma RacingDecisions(s: State, id: nat, op: string, op': string, now: real, later: real)
    requires DriftOk(s) && id < |s.rows| && s.rows[id].status == Pending
    ensures var s1 := UpdateRow(s, id, Approved, op, now, later, true);
            var s2 := UpdateRow(s1, id, Denied, op', now, later, true);
            DriftOk(s1) && !DriftOk(s2)
  {
    PatchKeepsDriftLawIff(s, id, Approved, op, now, later, true);
    var s1 := UpdateRow(s, id, Approved, op, now, later, true);
    PatchKeepsDriftLawIff(s1, id, Denied, op', now, later, true);
  }

  // ----- the game server -----

  predicate OnWhitelist(status: Status) {
    status in {Approved, Banned}
  }

  ghost predicate OthersWhitelisted(rows: seq<Request>, id: nat, u: string) {
    exists i :: 0 <= i < |rows| && i != id && rows[i].username == u && OnWhitelist(rows[i].status)
  }

  /** The command of a patch does to the game server what the patch does to the standing in the database. */
  ghost predicate CommandSuffices(rows: seq<Request>, id: nat, status: Status)
    requires id < |rows|
  {
    var others := OthersWhitelisted(rows, id, rows[id].username);
    match status
    case Approved => rows[id].status != Banned
    case Banned => OnWhitelist(rows[id].status) || others
    case Deactivated => rows[id].status != Banned && !others
    case _ => !OnWhitelist(rows[id].status)
  }

  ghost predicate OthersBanned(rows: seq<Request>, id: nat, u: string) {
    exists i :: 0 <= i < |rows| && i != id && rows[i].username == u && rows[i].status == Banned
  }

  lemma TargetSplit(rows: seq<Request>, id: nat, u: string)
    requires id < |rows| && rows[id].username == u
    ensures Target(rows, u) == Flags(OnWhitelist(rows[id].status) || OthersWhitelisted(rows, id, u),
                                     rows[id].status == Banned || OthersBanned(rows, id, u))
  {
  }

  lemma OthersKept(rows: seq<Request>, id: nat, r: Request, u: string)
    requires id < |rows|
    ensures OthersWhitelisted(rows[id := r], id, u) <==> OthersWhitelisted(rows, id, u)
    ensures OthersBanned(rows[id := r], id, u) <==> OthersBanned(rows, id, u)
  {
    var rows' := rows[id := r];
    assert forall i :: 0 <= i < |rows| && i != id ==> rows'[i] == rows[i];
  }

  /** With one active request per name, an active row is the only one that counts. */
  lemma ActiveIsAlone(rows: seq<Request>, id: nat)
    requires OneActive(rows) && id < |rows| && Active(rows[id].status)
    ensures !OthersWhitelisted(rows, id, rows[id].username) && !OthersBanned(rows, id, rows[id].username)
  {
    forall i | 0 <= i < |rows| && i != id && rows[i].username == rows[id].username
      ensures !Active(rows[i].status)
    {
      NamesakeIsClosed(rows, id, i);
    }
  }

  lemma NamesakeIsClosed(rows: seq<Request>, id: nat, i: nat)
    requires OneActive(rows) && id < |rows| && i < |rows| && i != id
    requires Active(rows[id].status) && rows[i].username == rows[id].username
    ensures !Active(rows[i].status)
  {
  }

  lemma TargetUpdateIff(rows: seq<Request>, id: nat, r: Request)
    requires OneActive(rows) && id < |rows| && r.username == rows[id].username
    ensures Target(rows[id := r], r.username) == Effect(r, Target(rows, r.username), r.username)
       <==> CommandSuffices(rows, id, r.status)
  {
    TargetSplit(rows, id, r.username);
    TargetSplit(rows[id := r], id, r.username);
    OthersKept(rows, id, r, r.username);
    if Active(rows[id].status) {
      ActiveIsAlone(rows, id);
    }
    if OthersBanned(rows, id, r.username) {
      assert OthersWhitelisted(rows, id, r.username);
    }
  }

  /** An unguarded patch, once published, keeps its player's standing on the game server in agreement exactly if its
      command suffices. */
  lemma PatchKeepsAgreementIff(s: State, id: nat, status: Status, admin: string, now: real, later: real)
    requires OneActive(s.rows) && id < |s.rows|
    requires Agrees(s.rows, Outstanding(s), s.game, s.rows[id].username)
    ensures var s' := UpdateRow(s, id, status, admin, now, later, true);
            Agrees(s'.rows, Outstanding(s'), s'.game, s.rows[id].username) <==> CommandSuffices(s.rows, id, status)
  {
    var s' := UpdateRow(s, id, status, admin, now, later, true);
    var r, u, m := s'.rows[id], s.rows[id].username, Message(|s.ledger|, s'.rows[id]);
    assert Outstanding(s') == Outstanding(s) + [m];
    ReplayConcat(Outstanding(s), [m], FlagsOf(s.game, u), u);
    assert Replay([m], Target(s.rows, u), u) == Effect(r, Target(s.rows, u), u);
    TargetUpdateIff(s.rows, id, r);
  }

  /** So the approval and the denial that both saw a pending request leave the denied player playable, although both
      messages are in the queue. */
  lemma RacingDecisionsLeavePlayable(s: State, id: nat, op: string, op': string, now: real, later: real)
    requires OneActive(s.rows) && id < |s.rows| && s.rows[id].status == Pending
    requires Agrees(s.rows, Outstanding(s), s.game, s.rows[id].username)
    ensures var s1 := UpdateRow(s, id, Approved, op, now, later, true);
            var s2 := UpdateRow(s1, id, Denied, op', now, later, true);
            var u := s.rows[id].username;
            && |s2.ledger| == |s.ledger| + 2
            && s2.ledger[|s.ledger|].fate == s2.ledger[|s.ledger| + 1].fate == Queued
            && Replay(Outstanding(s2), FlagsOf(s2.game, u), u).Playable() && Target(s2.rows, u) == Flags(false, false)
  {
    var s1 := UpdateRow(s, id, Approved, op, now, later, true);
    var s2 := UpdateRow(s1, id, Denied, op', now, later, true);
    var u, m := s.rows[id].username, Message(|s1.ledger|, s2.rows[id]);
    PatchKeepsAgreementIff(s, id, Approved, op, now, later);
    ActiveIsAlone(s.rows, id);
    OthersKept(s.rows, id, s1.rows[id], u);
    TargetSplit(s1.rows, id, u);
    OthersKept(s1.rows, id, s2.rows[id], u);
    TargetSplit(s2.rows, id, u);
    assert Outstanding(s2) == Outstanding(s1) + [m];
    ReplayConcat(Outstanding(s1), [m], FlagsOf(s1.game, u), u);
    assert Replay([m], Target(s1.rows, u), u) == Target(s1.rows, u);
  }

  // ----- the dashboard's list -----

  /** A button shown for a listed request is legal exactly if the request still has the listed status. */
  lemma OfferIsLegalIff(listed: Status, now: Status, offered: Status)
    requires Reaches(listed, now) && LegalTransition(listed, offered)
    ensures LegalTransition(now, offered) <==> now == listed
  {
  }

  /** In every reachable state the dashboard's list, however old, offers only buttons whose transition is legal
      unless the row has moved on since. */
  lemma OffersAreLegalIff(s: State, actions: seq<Action>, i: nat, offered: Status)
    requires Boot(s) && LegalRun(s, actions)
    requires var list := Run(s, actions).list;
             list.Some? && i < |list.value| && LegalTransition(list.value[i].status, offered)
    ensures var s' := Run(s, actions);
            && i < |s'.rows| && s'.rows[i].username == s'.list.value[i].username
            && (LegalTransition(s'.rows[i].status, offered) <==> s'.rows[i].status == s'.list.value[i].status)
  {
    var s' := Run(s, actions);
    ListIsSnapshot(s, actions);
    assert Run(s, actions[..0]) == s;
    var k :| 0 <= k <= |actions| && s'.list == Some(Run(s, actions[..k]).rows);
    SnapshotHistory(s, actions, k);
    OfferIsLegalIff(s'.list.value[i].status, s'.rows[i].status, offered);
  }

  lemma SnapshotHistory(s: State, actions: seq<Action>, k: nat)
    requires Boot(s) && LegalRun(s, actions) && k <= |actions|
    ensures History(Run(s, actions[..k]), Run(s, actions))
  {
    assert actions == actions[..k] + actions[k..];
    RunConcat(s, actions[..k], actions[k..]);
    BootInv(s);
    InvRun(s, actions[..k]);
    HistoryOnlyGrows(Run(s, actions[..k]), actions[k..]);
  }

  /** So a list as new as the newest transition offers only legal ones. */
  lemma FreshListOffersLegal(s: State, i: nat, offered: Status)
    requires FreshOk(s) && s.refreshedAt == |s.ledger|
    requires i < |s.list.value| && LegalTransition(s.list.value[i].status, offered)
    ensures i < |s.rows| && LegalTransition(s.rows[i].status, offered)
  {
    assert SameButAssignees(s.list.value, s.rows);
  }

  /** And one step behind it may not: after an approval the list still shows the request as pending, with a button
      that denies it. */
  lemma StaleListOffersIllegal(s: State, id: nat, now: real, later: real)
    requires Boot(s) && id < |s.rows| && s.rows[id].status == Pending && s.clock <= now <= later
    ensures var approve := AdminPatch(id, Approved, now, later, true);
            var s' := Apply(s, approve);
            && Legal(s, approve) && s'.list.value[id].status == Pending
            && LegalTransition(Pending, Denied) && !Legal(s', AdminPatch(id, Denied, later, later, true))
  {
  }

  /** Redelivery of a new-request message mails again and replaces the assignees: from then on exactly the ops now
      reached may decide the request, and those reached earlier only if they are among them. */
  lemma ReassignmentDecidesWho(s: State, reported: bool, applied: bool, sent: seq<string>, stored: bool,
                               id: nat, op: string)
    requires s.worker.Busy? && s.worker.phase.Acting? && s.worker.m.body.status == Pending
    ensures OpAllowed(ActOn(s, reported, applied, sent, stored).rows, id, op)
       <==> if id == s.worker.m.body.id && stored && sent != [] then
              id < |s.rows| && s.rows[id].status == Pending && op in sent
            else OpAllowed(s.rows, id, op)
  {
  }
}
