/** The guarantees over every legal run, with every failure the steps allow. */
module Theorems {
  import opened Requests
  import opened Stats
  import opened Pipeline
  import opened IncrementalView
  import opened Lifecycle
  import opened Delivery
  import opened GameAgreement
  import opened Bans
  import opened Whitelist
  import opened DriftLaw
  import opened Freshness

  /** A first start: sound rows, a game server that agrees with them, an empty queue, and a completed sync. */
  ghost predicate Boot(s: State) {
    && RowsOk(s)
    && s.ready == [] && s.unacked == [] && s.worker.Idle? && s.ledger == [] && s.refreshedAt == 0
    && s.list == Some(s.rows)
    && (forall u :: FlagsOf(s.game, u) == Target(s.rows, u))
    && Readable(s.stats) && s.stats.counters.deactivated >= 0
    && s.stats.counters == Recount(s.rows).(deactivated := s.stats.counters.deactivated)
    && s.skew == Recount(s.rows).deactivated - s.stats.counters.deactivated
  }

  ghost predicate Inv(s: State) {
    RowsOk(s) && DeliveryOk(s) && GameOk(s) && DriftOk(s) && StatsOk(s) && FreshOk(s)
  }

  lemma BootInv(s: State)
    requires Boot(s)
    ensures Inv(s)
  {
    BootGame(s);
    BootStats(s);
  }

  lemma BootGame(s: State)
    requires Boot(s)
    ensures DeliveryOk(s) && GameOk(s)
  {
    assert Outstanding(s) == [];
    assert forall u :: Agrees(s.rows, [], s.game, u);
  }

  lemma BootStats(s: State)
    requires Boot(s)
    ensures DriftOk(s) && StatsOk(s)
  {
    FulfilledTimes(s);
    RecountBounds(s.rows);
    SkewCompletes(s.stats.counters, Recount(s.rows));
    BalancedSettled(Delta, Contribution, s.stats.counters, Skew(s.skew), s.ledger, s.rows);
  }

  lemma SkewCompletes(counters: Tally, recount: Tally)
    requires counters == recount.(deactivated := counters.deactivated)
    ensures counters.Plus(Skew(recount.deactivated - counters.deactivated)) == recount
    ensures recount.Demographic() ==> counters.Demographic()
  {
  }

  /** The first start of the process over sound rows and an agreeing game server is a boot. It leaves the counters
      exact, and with them the average, if and only if no row is deactivated yet. */
  lemma FirstStartBoots(s: State, aggregate: AggregateStats)
    requires RowsOk(s) && (forall u :: FlagsOf(s.game, u) == Target(s.rows, u))
    requires s.ready == [] && s.unacked == [] && s.ledger == [] && s.stats == EMPTY_HASH
    ensures var s' := RestartProcess(s, aggregate);
            && Boot(s')
            && (s'.skew == 0 <==> forall r :: r in s.rows ==> r.status != Deactivated)
            && (s'.skew == 0 ==> AverageAgrees(s'.stats))
  {
    var h := EMPTY_HASH.(aggregate := Some(aggregate));
    SyncScansRecount(h, s.rows);
    DeactivatedCounted(s.rows);
    FulfilledTimes(s);
    AverageAfterSync(h, s.rows);
  }

  lemma {:induction false} DeactivatedCounted(rows: seq<Request>)
    ensures Recount(rows).deactivated >= 0
    ensures Recount(rows).deactivated == 0 <==> forall r :: r in rows ==> r.status != Deactivated
  {
    if rows != [] {
      var n := |rows| - 1;
      DeactivatedCounted(rows[..n]);
      assert rows == rows[..n] + [rows[n]];
    }
  }

  /** An empty installation is such a start, so the theorems below speak about something. */
  lemma EmptyInstallationBoots(aggregate: AggregateStats)
    ensures var s := State(0.0, [], [], [], Idle, EMPTY_HASH, None, Game({}, {}), [], {}, 0, 0);
            RowsOk(s) && (forall u :: FlagsOf(s.game, u) == Target(s.rows, u)) && Boot(RestartProcess(s, aggregate))
  {
    FirstStartBoots(State(0.0, [], [], [], Idle, EMPTY_HASH, None, Game({}, {}), [], {}, 0, 0), aggregate);
  }

  lemma InvStep(s: State, a: Action)
    requires Inv(s) && Legal(s, a)
    ensures Inv(Apply(s, a))
  {
    RowsOkStep(s, a);
    DeliveryOkStep(s, a);
    GameOkStep(s, a);
    DriftOkStep(s, a);
    StatsOkStep(s, a);
    FreshOkStep(s, a);
  }

  lemma {:induction false} InvRun(s: State, actions: seq<Action>)
    requires Inv(s) && LegalRun(s, actions)
    ensures Inv(Run(s, actions))
    decreases |actions|
  {
    if actions != [] {
      InvStep(s, actions[0]);
      InvRun(Apply(s, actions[0]), actions[1..]);
    }
  }

  // ----- rows and messages -----

  /** In every reachable state: one pending, approved or banned request per name; honest timestamps; every
      decision taken by the admin or by an op who was mailed; every message of a stored row. */
  lemma RowsStaySound(s: State, actions: seq<Action>)
    requires Boot(s) && LegalRun(s, actions)
    ensures var s' := Run(s, actions);
            && OneActive(s'.rows)
            && (forall i :: 0 <= i < |s'.rows| ==> Stamped(s'.rows[i], s'.clock) && Attributed(s'.rows[i], s'.mailed))
            && BodiesOk(s'.ledger, s'.rows)
            && s'.stats.counters.totalTime >= 0.0
  {
    BootInv(s);
    InvRun(s, actions);
    var s' := Run(s, actions);
    assert forall i :: 0 <= i < |s'.rows| ==> RowOk(s'.rows[i], i, s'.clock, s'.mailed);
  }

  /** In every reachable state a transition's message is waiting in exactly one place if it is neither settled nor
      unpublished, and in none otherwise; those waiting are in publish order, redelivery or not. */
  lemma EachMessageInOnePlace(s: State, actions: seq<Action>)
    requires Boot(s) && LegalRun(s, actions)
    ensures var s' := Run(s, actions);
            var out := Outstanding(s');
            && (forall t :: 0 <= t < |s'.ledger| ==>
                  (s'.ledger[t].fate == Queued <==> exists i :: 0 <= i < |out| && out[i].tag == t))
            && (forall i, j :: 0 <= i < j < |out| ==> out[i].tag < out[j].tag)
            && (forall i :: 0 <= i < |out| ==> out[i].tag < |s'.ledger| && out[i].body == s'.ledger[out[i].tag].body)
  {
    BootInv(s);
    InvRun(s, actions);
    var out, ledger := Outstanding(Run(s, actions)), Run(s, actions).ledger;
    forall i | 0 <= i < |out|
      ensures out[i].tag < |ledger| && out[i].body == ledger[out[i].tag].body && ledger[out[i].tag].fate == Queued
    {
      assert Recorded(out[i], ledger);
    }
  }

  // ----- the game server -----

  ghost predicate NoCommandFor(msgs: seq<Message>, u: string) {
    forall i :: 0 <= i < |msgs| ==> !(msgs[i].body.username == u && IsCommand(msgs[i].body.status))
  }

  lemma {:induction false} ReplayNothing(msgs: seq<Message>, f: Flags, u: string)
    requires NoCommandFor(msgs, u)
    ensures Replay(msgs, f, u) == f
  {
    if msgs != [] {
      ReplayNothing(msgs[1..], f, u);
    }
  }

  lemma BootBans(s: State)
    requires Boot(s)
    ensures BansOk(s)
  {
    forall u
      ensures BanArrives(s.rows, s.ledger, Outstanding(s), s.game.banned, u)
    {
      assert FlagsOf(s.game, u) == Target(s.rows, u);
    }
  }

  lemma BootCommands(s: State)
    requires Boot(s)
    ensures CommandsOk(s)
  {
    BootBans(s);
    assert Outstanding(s) == [];
    forall u
      ensures u in s.game.banned ==> HasBanned(s.rows, u)
      ensures Follows(s.rows, s.ledger, s.game.whitelisted, u)
    {
      assert FlagsOf(s.game, u) == Target(s.rows, u);
    }
  }

  lemma CommandsStep(s: State, a: Action)
    requires Inv(s) && CommandsOk(s) && Legal(s, a)
    ensures Inv(Apply(s, a)) && CommandsOk(Apply(s, a))
  {
    InvStep(s, a);
    CommandsOkStep(s, a);
  }

  lemma {:induction false} CommandsOkRun(s: State, actions: seq<Action>)
    requires Inv(s) && CommandsOk(s) && LegalRun(s, actions)
    ensures Inv(Run(s, actions)) && CommandsOk(Run(s, actions))
    decreases |actions|
  {
    if actions != [] {
      CommandsStep(s, actions[0]);
      CommandsOkRun(Apply(s, actions[0]), actions[1..]);
    }
  }

  /** After any run: unless a ban of u was lost or the newest of u's approvals and deactivations, and whatever became
      of the older ones, replaying the unsettled messages makes u playable exactly if u has an approved request; and
      with no command for u under way, u is playable now exactly if so. */
  lemma GameServerAgrees(s: State, actions: seq<Action>, u: string)
    requires Boot(s) && LegalRun(s, actions)
    requires !LostNewest(Run(s, actions).ledger, u) && !LostBan(Run(s, actions).ledger, u)
    ensures var s' := Run(s, actions);
            var approved := exists i :: 0 <= i < |s'.rows| && s'.rows[i].username == u && s'.rows[i].status == Approved;
            && (Replay(Outstanding(s'), FlagsOf(s'.game, u), u).Playable() <==> approved)
            && (NoCommandFor(Outstanding(s'), u) ==> (FlagsOf(s'.game, u).Playable() <==> approved))
  {
    BootInv(s);
    BootCommands(s);
    CommandsOkRun(s, actions);
    CommandsDecide(Run(s, actions), u);
  }

  lemma CommandsDecide(s: State, u: string)
    requires Inv(s) && CommandsOk(s) && !LostNewest(s.ledger, u) && !LostBan(s.ledger, u)
    ensures var approved := exists i :: 0 <= i < |s.rows| && s.rows[i].username == u && s.rows[i].status == Approved;
            && (Replay(Outstanding(s), FlagsOf(s.game, u), u).Playable() <==> approved)
            && (NoCommandFor(Outstanding(s), u) ==> (FlagsOf(s.game, u).Playable() <==> approved))
  {
    NewestSwitchDecides(s, u);
    BansDecide(s, u);
    TargetPlayable(s.rows, u);
    if NoCommandFor(Outstanding(s), u) {
      ReplayNothing(Outstanding(s), FlagsOf(s.game, u), u);
    }
  }

  /** The whitelist alone needs only that the newest approval or deactivation was not lost. */
  lemma WhitelistFollowsNewest(s: State, actions: seq<Action>, u: string)
    requires Boot(s) && LegalRun(s, actions) && !LostNewest(Run(s, actions).ledger, u)
    ensures var s' := Run(s, actions);
            Replay(Outstanding(s'), FlagsOf(s'.game, u), u).whitelisted == Target(s'.rows, u).whitelisted
  {
    BootInv(s);
    BootCommands(s);
    CommandsOkRun(s, actions);
    NewestSwitchDecides(Run(s, actions), u);
  }

  lemma TargetPlayable(rows: seq<Request>, u: string)
    requires OneActive(rows)
    ensures Target(rows, u).Playable()
       <==> exists i :: 0 <= i < |rows| && rows[i].username == u && rows[i].status == Approved
  {
    if Target(rows, u).Playable() {
      var i :| 0 <= i < |rows| && rows[i].username == u && rows[i].status in {Approved, Banned};
      assert rows[i].status == Approved;
    }
    if i :| 0 <= i < |rows| && rows[i].username == u && rows[i].status == Approved {
      if Target(rows, u).banned {
        var j :| 0 <= j < |rows| && rows[j].username == u && rows[j].status == Banned;
        var a, b := if i < j then i else j, if i < j then j else i;
        assert Active(rows[a].status) && Active(rows[b].status);
      }
    }
  }

  // ----- bans -----

  /** u stays banned in the database, gets no new row, and loses no ban on the game server. */
  ghost predicate BanKept(s: State, s': State, u: string) {
    && HasBanned(s'.rows, u)
    && |s.rows| <= |s'.rows| && (forall i :: |s.rows| <= i < |s'.rows| ==> s'.rows[i].username != u)
    && (u in s.game.banned ==> u in s'.game.banned)
  }

  lemma BanStep(s: State, a: Action, u: string)
    requires HasBanned(s.rows, u) && Legal(s, a)
    ensures BanKept(s, Apply(s, a), u)
  {
    var s' := Apply(s, a);
    RowsEvolveStep(s, a);
    BannedStaysBanned(s.rows, s'.rows, u);
    NoNewRow(s, a, u);
  }

  lemma NoNewRow(s: State, a: Action, u: string)
    requires HasBanned(s.rows, u)
    ensures var s' := Apply(s, a);
            && |s.rows| <= |s'.rows| && (forall i :: |s.rows| <= i < |s'.rows| ==> s'.rows[i].username != u)
            && (u in s.game.banned ==> u in s'.game.banned)
  {
    assert Blocked(s.rows, u);
  }

  lemma BanKeptTransitive(s: State, s1: State, s2: State, rows: seq<Request>, u: string)
    requires BanKept(s, s1, u) && BanKept(s1, s2, u)
    requires rows == s2.rows && forall i :: 0 <= i < |s1.rows| ==> rows[i].username == s1.rows[i].username
    ensures BanKept(s, s2, u)
  {
  }

  lemma {:induction false} BanKeptRun(s: State, actions: seq<Action>, u: string)
    requires Inv(s) && LegalRun(s, actions) && HasBanned(s.rows, u)
    ensures BanKept(s, Run(s, actions), u)
    decreases |actions|
  {
    if actions != [] {
      var s1 := Apply(s, actions[0]);
      BanStep(s, actions[0], u);
      InvStep(s, actions[0]);
      BanKeptRun(s1, actions[1..], u);
      HistoryOnlyGrows(s1, actions[1..]);
      BanKeptTransitive(s, s1, Run(s1, actions[1..]), Run(s1, actions[1..]).rows, u);
    }
  }

  lemma {:induction false} BansOkRun(s: State, actions: seq<Action>)
    requires Inv(s) && BansOk(s) && LegalRun(s, actions)
    ensures BansOk(Run(s, actions))
    decreases |actions|
  {
    if actions != [] {
      InvStep(s, actions[0]);
      BansOkStep(s, actions[0]);
      BansOkRun(Apply(s, actions[0]), actions[1..]);
    }
  }

  /** In every reachable state: unless a ban of u itself was lost, u is banned on the game server as soon as no ban
      of u is under way, whatever became of its other commands. */
  lemma BansArrive(s: State, actions: seq<Action>, u: string)
    requires Boot(s) && LegalRun(s, actions)
    ensures var s' := Run(s, actions);
            HasBanned(s'.rows, u) && !LostBan(s'.ledger, u) && !BanUnderWay(Outstanding(s'), u) ==> u in s'.game.banned
  {
    BootInv(s);
    BootBans(s);
    BansOkRun(s, actions);
    var s' := Run(s, actions);
    assert BanArrives(s'.rows, s'.ledger, Outstanding(s'), s'.game.banned, u);
  }

  /** A ban is for good: no later request under that name is ever stored, the name is never playable again once
      the command took effect, and unless a ban of it was lost it is in effect when none is under way. */
  lemma BanIsPermanent(s: State, actions: seq<Action>, u: string)
    requires Inv(s) && BansOk(s) && LegalRun(s, actions) && HasBanned(s.rows, u)
    ensures var s' := Run(s, actions);
            && HasBanned(s'.rows, u)
            && |s.rows| <= |s'.rows| && (forall i :: |s.rows| <= i < |s'.rows| ==> s'.rows[i].username != u)
            && (u in s.game.banned ==> !FlagsOf(s'.game, u).Playable())
            && (!LostBan(s'.ledger, u) && !BanUnderWay(Outstanding(s'), u) ==> u in s'.game.banned)
  {
    var s' := Run(s, actions);
    BanKeptRun(s, actions, u);
    BansOkRun(s, actions);
    assert BanArrives(s'.rows, s'.ledger, Outstanding(s'), s'.game.banned, u);
  }

  // ----- the statistics -----

  /** What a recount would say is the counters, plus what waits in the queue, plus what was lost or never counted,
      minus what was counted again, plus the constant by which "deactivated" was off at the last sync. */
  ghost predicate DriftExact(s: State) {
    Recount(s.rows) == s.stats.counters.Plus(Skew(s.skew)).Plus(
      Waiting(Delta, s.ledger).Plus(Missed(Delta, s.ledger)).Minus(Repeated(Delta, s.ledger)))
  }

  /** The drift law, componentwise, after any run; and however far the counters are off, the gender counts and the
      age groups each add up to the approved count. */
  lemma DriftIsExact(s: State, actions: seq<Action>)
    requires Boot(s) && LegalRun(s, actions)
    ensures DriftExact(Run(s, actions)) && Run(s, actions).stats.counters.Demographic()
  {
    BootInv(s);
    InvRun(s, actions);
    DriftOkByCause(Run(s, actions));
  }

  lemma DriftOkByCause(s: State)
    requires DriftOk(s)
    ensures DriftExact(s)
  {
    BalancedByCause(Delta, Contribution, s.stats.counters, Skew(s.skew), s.ledger, s.rows);
  }

  /** Re-running the sync leaves every scanned counter alone exactly if nothing is owed. */
  lemma ResyncIsNoOpIff(s: State)
    requires DriftOk(s)
    ensures SyncRealTime(s.stats, s.rows).counters == s.stats.counters
       <==> Drift(Delta, s.ledger).(deactivated := 0) == ZERO
  {
    SyncScansRecount(s.stats, s.rows);
    SyncCompares(s.stats.counters, s.skew, Drift(Delta, s.ledger), Recount(s.rows));
  }

  lemma SyncCompares(counters: Tally, skew: int, drift: Tally, recount: Tally)
    requires counters.Plus(Skew(skew)).Plus(drift) == recount
    ensures recount.(deactivated := counters.deactivated) == counters <==> drift.(deactivated := 0) == ZERO
  {
  }

  /** A step in which nothing fails and nobody dies. */
  predicate Clean(a: Action) {
    match a
    case Create(_, _, _, _, published) => published
    case OpPatch(_, _, _, _, _, published) => published
    case AdminPatch(_, _, _, _, published) => published
    case Count(ok) => ok
    case ConnectionLost => false
    case Expire => false
    case Restart(_) => false
    case Abort(_, _) => false
    case _ => true
  }

  predicate CleanRun(actions: seq<Action>) {
    actions == [] || (Clean(actions[0]) && CleanRun(actions[1..]))
  }

  predicate CountedInHand(w: Worker, t: nat) {
    w.Busy? && w.m.tag == t && (w.phase.Acting? || w.phase.Settling?)
  }

  /** A leftover was recounted when the process started, before the worker comes to it. */
  ghost predicate CleanEntry(e: Entry, inHand: bool, leftover: bool) {
    e.counted == (if leftover then 1 else 0) + (if e.fate == Queued && !inHand then 0 else 1)
  }

  /** Without failures every settled message was counted once and every waiting one not yet, leftovers apart. */
  ghost predicate CleanOk(s: State, leftovers: set<nat>) {
    && (s.worker.Busy? ==> !s.worker.stale)
    && (forall t :: t in leftovers ==> t < |s.ledger|)
    && forall t :: 0 <= t < |s.ledger| ==> CleanEntry(s.ledger[t], CountedInHand(s.worker, t), t in leftovers)
  }

  lemma CleanOkPublish(s: State, a: Action, leftovers: set<nat>)
    requires CleanOk(s, leftovers) && DeliveryOk(s) && Clean(a) && (a.Create? || a.OpPatch? || a.AdminPatch?)
    ensures CleanOk(Apply(s, a), leftovers)
  {
    var s' := Apply(s, a);
    assert s'.worker == s.worker;
    assert s'.ledger == s.ledger || s'.ledger == s.ledger + [Entry(s'.ledger[|s.ledger|].body, Queued, 0, false)];
  }

  lemma CleanOkCount(s: State, leftovers: set<nat>)
    requires CleanOk(s, leftovers) && DeliveryOk(s) && Readable(s.stats)
    ensures CleanOk(CountMessage(s, true), leftovers)
  {
    var s' := CountMessage(s, true);
    if s.unacked != [] {
      assert Outstanding(s)[0] == s.unacked[0];
    }
    forall t | 0 <= t < |s.ledger|
      ensures CleanEntry(s'.ledger[t], CountedInHand(s'.worker, t), t in leftovers)
    {
      assert CleanEntry(s.ledger[t], CountedInHand(s.worker, t), t in leftovers);
    }
  }

  lemma CleanOkSettle(s: State, leftovers: set<nat>)
    requires CleanOk(s, leftovers) && DeliveryOk(s)
    ensures CleanOk(SettleMessage(s), leftovers)
  {
  }

  lemma CleanOkOther(s: State, a: Action, leftovers: set<nat>)
    requires CleanOk(s, leftovers) && DeliveryOk(s) && Clean(a)
    requires !(a.Create? || a.OpPatch? || a.AdminPatch? || a.Count? || a.Settle?)
    ensures CleanOk(Apply(s, a), leftovers)
  {
    var s' := Apply(s, a);
    if s.unacked != [] {
      assert Outstanding(s)[0] == s.unacked[0];
    }
    forall t | 0 <= t < |s.ledger|
      ensures CleanEntry(s'.ledger[t], CountedInHand(s'.worker, t), t in leftovers)
    {
      assert CleanEntry(s.ledger[t], CountedInHand(s.worker, t), t in leftovers);
    }
  }

  lemma CleanOkStep(s: State, a: Action, leftovers: set<nat>)
    requires CleanOk(s, leftovers) && DeliveryOk(s) && Readable(s.stats) && Clean(a)
    ensures CleanOk(Apply(s, a), leftovers)
  {
    match a
    case Create(_, _, _, _, _) => CleanOkPublish(s, a, leftovers);
    case OpPatch(_, _, _, _, _, _) => CleanOkPublish(s, a, leftovers);
    case AdminPatch(_, _, _, _, _) => CleanOkPublish(s, a, leftovers);
    case Count(_) => CleanOkCount(s, leftovers);
    case Settle => CleanOkSettle(s, leftovers);
    case _ => CleanOkOther(s, a, leftovers);
  }

  lemma SkewKept(s: State, a: Action)
    requires !a.Restart?
    ensures Apply(s, a).skew == s.skew
  {
  }

  lemma {:induction false} CleanInvRun(s: State, actions: seq<Action>, leftovers: set<nat>)
    requires Inv(s) && CleanOk(s, leftovers) && LegalRun(s, actions) && CleanRun(actions)
    ensures Inv(Run(s, actions)) && CleanOk(Run(s, actions), leftovers) && Run(s, actions).skew == s.skew
    decreases |actions|
  {
    if actions != [] {
      InvStep(s, actions[0]);
      CleanOkStep(s, actions[0], leftovers);
      SkewKept(s, actions[0]);
      CleanInvRun(Apply(s, actions[0]), actions[1..], leftovers);
    }
  }

  lemma AllCounted(s: State, leftovers: set<nat>)
    requires CleanOk(s, leftovers) && DeliveryOk(s) && Outstanding(s) == []
    ensures forall t :: 0 <= t < |s.ledger| ==> s.ledger[t].counted == if t in leftovers then 2 else 1
  {
    forall t | 0 <= t < |s.ledger|
      ensures s.ledger[t].counted == if t in leftovers then 2 else 1
    {
      assert CleanEntry(s.ledger[t], CountedInHand(s.worker, t), t in leftovers);
    }
  }

  /** The average the sync would store is the one already there. */
  lemma ResyncKeepsAverage(h: Hash, rows: seq<Request>)
    requires AverageAgrees(h) && h.counters == Recount(rows)
    ensures SyncRealTime(h, rows).average == h.average
  {
    var t := h.counters;
    if t.totalTime != 0.0 {
      QuotientTimes(t.totalTime, t.Fulfilled());
      SameFactor(h.average.minutes, Quotient(t.totalTime, t.Fulfilled()).minutes, t.Fulfilled());
    }
  }

  /** A second sync would change nothing that getStats reads. */
  ghost predicate Synced(s: State) {
    && SyncRealTime(s.stats, s.rows).counters == s.stats.counters == Recount(s.rows)
    && SyncRealTime(s.stats, s.rows).average == s.stats.average
  }

  lemma CountedOnceIsSynced(s: State)
    requires DriftOk(s) && AverageAgrees(s.stats) && s.skew == 0
    requires forall e :: e in s.ledger ==> e.counted == 1
    ensures Synced(s)
  {
    DriftSettled(Delta, s.ledger);
    SettledMeansEqual(s.stats.counters, Recount(s.rows));
    SyncScansRecount(s.stats, s.rows);
    ResyncKeepsAverage(s.stats, s.rows);
  }

  /** The incremental form is the recount after any run whatever, with redeliveries and restarts, that counted every
      transition exactly once in the end. */
  lemma CountedOnceResync(s: State, actions: seq<Action>)
    requires Boot(s) && (s.skew == 0 ==> AverageAgrees(s.stats)) && LegalRun(s, actions)
    requires Run(s, actions).skew == 0 && forall e :: e in Run(s, actions).ledger ==> e.counted == 1
    ensures Synced(Run(s, actions))
  {
    BootInv(s);
    InvRun(s, actions);
    AverageAgreesRun(s, actions, s.skew == 0);
    RightMeansClean(s, actions, s.skew == 0);
    CountedOnceIsSynced(Run(s, actions));
  }

  /** In particular at quiescence, after any clean legal history from a first sync over no deactivated rows. */
  lemma QuiescentResync(s: State, actions: seq<Action>)
    requires Boot(s) && s.skew == 0 && AverageAgrees(s.stats)
    requires LegalRun(s, actions) && CleanRun(actions) && Outstanding(Run(s, actions)) == []
    ensures Synced(Run(s, actions))
  {
    BootInv(s);
    CleanInvRun(s, actions, {});
    AllCounted(Run(s, actions), {});
    CountedOnceResync(s, actions);
  }

  lemma SettledMeansEqual(counters: Tally, recount: Tally)
    requires counters.Plus(Skew(0)).Plus(ZERO) == recount
    ensures counters == recount
  {
  }

  lemma SameFactor(p: real, q: real, n: int)
    requires n > 0 && p * n as real == q * n as real
    ensures p == q
  {
    assert (p - q) * n as real == 0.0;
  }

  // ----- leftovers of a restart -----

  /** What a restart over a queue that was not empty costs, exactly: the messages waiting then were recounted from
      their rows, and once everything has drained without failures each of them has been counted a second time. */
  lemma LeftoversCountedTwice(s: State, aggregate: AggregateStats, actions: seq<Action>)
    requires Inv(s) && LegalRun(RestartProcess(s, aggregate), actions) && CleanRun(actions)
    requires Outstanding(Run(RestartProcess(s, aggregate), actions)) == []
    ensures var s' := Run(RestartProcess(s, aggregate), actions);
            s'.stats.counters.Plus(Skew(s'.skew)) == Recount(s'.rows).Plus(Sum(Outstanding(s), OfBody(Delta)))
  {
    var booted, out := RestartProcess(s, aggregate), Outstanding(s);
    var s' := Run(booted, actions);
    InvStep(s, Action.Restart(aggregate));
    CleanOkRestart(s, aggregate);
    CleanInvRun(booted, actions, Tags(out));
    HistoryOnlyGrows(booted, actions);
    RecalledLater(out, s.ledger, booted.ledger, s'.ledger);
    LeftoverLaw(s', out);
  }

  lemma RecalledLater(out: seq<Message>, ledger: seq<Entry>, ledger1: seq<Entry>, ledger2: seq<Entry>)
    requires Conserved(out, ledger) && LedgerGrows(ledger1, ledger2)
    requires ledger1 == CountedOnce(ledger)
    ensures Recalled(out, ledger2)
  {
    forall i | 0 <= i < |out|
      ensures Recorded(out[i], ledger2)
    {
      assert Recorded(out[i], ledger) && ledger1[out[i].tag].body == out[i].body;
    }
  }

  lemma LeftoverLaw(s: State, out: seq<Message>)
    requires DriftOk(s) && DeliveryOk(s) && CleanOk(s, Tags(out)) && Outstanding(s) == [] && Recalled(out, s.ledger)
    ensures s.stats.counters.Plus(Skew(s.skew)) == Recount(s.rows).Plus(Sum(out, OfBody(Delta)))
  {
    AllCounted(s, Tags(out));
    DriftOfLeftovers(Delta, s.ledger, out);
    OwedBack(s.stats.counters.Plus(Skew(s.skew)), Sum(out, OfBody(Delta)), Recount(s.rows));
  }

  lemma OwedBack(total: Tally, sum: Tally, recount: Tally)
    requires total.Plus(ZERO.Minus(sum)) == recount
    ensures total == recount.Plus(sum)
  {
  }

  lemma CleanOkRestart(s: State, aggregate: AggregateStats)
    requires DeliveryOk(s)
    ensures CleanOk(RestartProcess(s, aggregate), Tags(Outstanding(s)))
  {
    var s', out := RestartProcess(s, aggregate), Outstanding(s);
    forall t | t in Tags(out)
      ensures t < |s.ledger| && s.ledger[t].fate == Queued
    {
      var i :| 0 <= i < |out| && out[i].tag == t;
      assert Recorded(out[i], s.ledger);
    }
    forall t | 0 <= t < |s.ledger|
      ensures CleanEntry(s'.ledger[t], false, t in Tags(out))
    {
      if s.ledger[t].fate == Queued {
        var i :| 0 <= i < |out| && out[i].tag == t;
        assert out[i].tag in Tags(out);
      }
    }
  }

  // ----- the cached list -----

  predicate RefreshesSucceed(actions: seq<Action>) {
    actions == [] || ((actions[0].Refresh? ==> actions[0].ok) && RefreshesSucceed(actions[1..]))
  }

  predicate LosslessRun(actions: seq<Action>) {
    actions == [] || (Lossless(actions[0]) && LosslessRun(actions[1..]))
  }

  lemma {:induction false} CoveredRun(s: State, actions: seq<Action>, lossless: bool)
    requires Inv(s) && Covered(s, lossless) && LegalRun(s, actions)
    requires RefreshesSucceed(actions) && (lossless ==> LosslessRun(actions))
    ensures Covered(Run(s, actions), lossless)
    decreases |actions|
  {
    if actions != [] {
      InvStep(s, actions[0]);
      CoveredStep(s, actions[0], lossless);
      CoveredRun(Apply(s, actions[0]), actions[1..], lossless);
    }
  }

  /** With the queue drained the dashboard's list is the database's but for assignees, after any run in which every
      message was published, none expired and every refresh succeeded, whatever else failed. */
  lemma QuiescentList(s: State, actions: seq<Action>)
    requires Boot(s) && LegalRun(s, actions)
    requires RefreshesSucceed(actions) && LosslessRun(actions) && Outstanding(Run(s, actions)) == []
    ensures var s' := Run(s, actions); s'.list.Some? && SameButAssignees(s'.list.value, s'.rows)
  {
    var s' := Run(s, actions);
    BootInv(s);
    InvRun(s, actions);
    CoveredRun(s, actions, true);
    CoveredMeansFresh(s');
  }

  /** And whatever was lost and whatever still waits, it is so once the newest transition is acknowledged. */
  lemma AcknowledgedList(s: State, actions: seq<Action>)
    requires Boot(s) && LegalRun(s, actions) && RefreshesSucceed(actions)
    requires var ledger := Run(s, actions).ledger; ledger != [] && ledger[|ledger| - 1].fate == Acked
    ensures var s' := Run(s, actions); s'.list.Some? && SameButAssignees(s'.list.value, s'.rows)
  {
    BootInv(s);
    InvRun(s, actions);
    CoveredRun(s, actions, false);
    AcknowledgedMeansFresh(Run(s, actions));
  }

  // ----- the average -----

  /** The last sync of the run found the "deactivated" field right; with no sync in the run, agreed decides. */
  ghost predicate LastSyncClean(s: State, actions: seq<Action>, agreed: bool)
    decreases |actions|
  {
    if actions == [] then agreed
    else LastSyncClean(Apply(s, actions[0]), actions[1..], if actions[0].Restart? then CleanSync(s) else agreed)
  }

  lemma AverageAgreesNext(s: State, a: Action, agreed: bool)
    requires Inv(s) && (agreed ==> AverageAgrees(s.stats))
    ensures (if a.Restart? then CleanSync(s) else agreed) ==> AverageAgrees(Apply(s, a).stats)
  {
    if if a.Restart? then CleanSync(s) else agreed {
      AverageAgreesStep(s, a);
    }
  }

  /** average * (approved + denied + banned + deactivated) == total, and no update divides by zero, after any run
      with every failure whose last sync was clean, whatever the earlier ones found. */
  lemma {:induction false} AverageAgreesRun(s: State, actions: seq<Action>, agreed: bool)
    requires Inv(s) && LegalRun(s, actions) && (agreed ==> AverageAgrees(s.stats))
    ensures LastSyncClean(s, actions, agreed) ==> AverageAgrees(Run(s, actions).stats)
    decreases |actions|
  {
    if actions != [] {
      var a := actions[0];
      InvStep(s, a);
      AverageAgreesNext(s, a, agreed);
      AverageAgreesRun(Apply(s, a), actions[1..], if a.Restart? then CleanSync(s) else agreed);
    }
  }

  /** The last sync was clean whenever the "deactivated" field is right in the end. */
  lemma {:induction false} RightMeansClean(s: State, actions: seq<Action>, agreed: bool)
    requires (s.skew == 0 ==> agreed) && Run(s, actions).skew == 0
    ensures LastSyncClean(s, actions, agreed)
    decreases |actions|
  {
    if actions != [] {
      var a := actions[0];
      if !a.Restart? {
        SkewKept(s, a);
      }
      RightMeansClean(Apply(s, a), actions[1..], if a.Restart? then CleanSync(s) else agreed);
    }
  }

  // ----- histories -----

  predicate Reaches(from: Status, to: Status) {
    from == to || from == Pending || (from == Approved && to in {Banned, Deactivated})
  }

  ghost predicate History(s: State, s': State) {
    && |s.rows| <= |s'.rows|
    && (forall i :: 0 <= i < |s.rows| ==>
          && s'.rows[i].username == s.rows[i].username && s'.rows[i].timestamp == s.rows[i].timestamp
          && Reaches(s.rows[i].status, s'.rows[i].status)
          && (s.rows[i].status != Pending ==> s'.rows[i].processed == s.rows[i].processed)
          && (s'.rows[i].status == s.rows[i].status ==>
                s'.rows[i].admin == s.rows[i].admin && s'.rows[i].lastUpdated == s.rows[i].lastUpdated))
    && LedgerGrows(s.ledger, s'.ledger)
  }

  lemma HistoryStep(s: State, a: Action)
    requires Inv(s) && Legal(s, a)
    ensures History(s, Apply(s, a))
  {
    RowsEvolveStep(s, a);
    LedgerGrowsStep(s, a);
    HistoryOf(s, Apply(s, a));
  }

  lemma HistoryOf(s: State, s': State)
    requires RowsEvolve(s.rows, s'.rows) && LedgerGrows(s.ledger, s'.ledger)
    ensures History(s, s')
  {
    assert forall i :: 0 <= i < |s.rows| ==> RowEvolves(s.rows[i], s'.rows[i]);
  }

  lemma HistoryTransitive(s: State, s1: State, s2: State)
    requires History(s, s1) && History(s1, s2)
    ensures History(s, s2)
  {
  }

  /** Over whole runs: rows are never lost, move only forward through the lifecycle, and a processing time once
      set is frozen; settled messages stay settled and published bodies are immutable. */
  lemma {:induction false} HistoryOnlyGrows(s: State, actions: seq<Action>)
    requires Inv(s) && LegalRun(s, actions)
    ensures History(s, Run(s, actions))
    decreases |actions|
  {
    if actions != [] {
      var s1 := Apply(s, actions[0]);
      InvStep(s, actions[0]);
      HistoryStep(s, actions[0]);
      HistoryOnlyGrows(s1, actions[1..]);
      HistoryTransitive(s, s1, Run(s1, actions[1..]));
    }
  }

  // ----- who decided what, and when -----

  /** The row a handler's step patches, and by whom. */
  predicate Patches(s: State, a: Action, id: nat, status: Status, admin: string, now: real, later: real) {
    match a
    case OpPatch(id', op, status', now', later', _) =>
      id' == id && status' == status && op == admin && now' == now && later' == later && OpAllowed(s.rows, id, op)
    case AdminPatch(id', status', now', later', _) =>
      id' == id && status' == status && admin == "admin" && now' == now && later' == later && id < |s.rows|
    case _ => false
  }

  lemma UpdateIsTransition(s: State, id: nat, status: Status, admin: string, now: real, later: real, published: bool)
    requires id < |s.rows|
    ensures var s' := UpdateRow(s, id, status, admin, now, later, published);
            && s'.rows == s.rows[id := s'.rows[id]]
            && Transition(s.rows[id], s'.rows[id], status, admin, now, later)
            && |s'.ledger| == |s.ledger| + 1 && s'.ledger[|s.ledger|].body == s'.rows[id]
  {
  }

  lemma PatchIsTransition(s: State, a: Action, id: nat, status: Status, admin: string, now: real, later: real)
    requires Patches(s, a, id, status, admin, now, later)
    ensures var s' := Apply(s, a);
            && s'.rows == s.rows[id := s'.rows[id]]
            && Transition(s.rows[id], s'.rows[id], status, admin, now, later)
            && |s'.ledger| == |s.ledger| + 1 && s'.ledger[|s.ledger|].body == s'.rows[id]
  {
    UpdateIsTransition(s, id, status, admin, now, later, a.published);
  }

  /** A creation stores what was applied for, and publishes it without its timestamp. */
  lemma CreationIsStored(s: State, username: string, age: int, gender: string, now: real, published: bool)
    requires forall i :: 0 <= i < |s.rows| && s.rows[i].username == username ==>
               s.rows[i].status != Pending && s.rows[i].status != Approved && s.rows[i].status != Banned
    ensures var s' := Apply(s, Create(username, age, gender, now, published));
            var n := |s.rows|;
            && s'.rows == s.rows + [Request(n, username, age, gender, Pending, now, 0.0, 0.0, "", [])]
            && |s'.ledger| == |s.ledger| + 1
            && s'.ledger[|s.ledger|].body == Request(n, username, age, gender, Pending, 0.0, 0.0, 0.0, "", [])
  {
  }

  /** Over any run: a row's processed time is for ever the moment of the step that decided it, and while the
      decision stands so are the decider and the time of the update. */
  lemma DecisionIsOnRecord(s: State, a: Action, actions: seq<Action>, id: nat, status: Status, admin: string,
                           now: real, later: real)
    requires Inv(s) && Legal(s, a) && LegalRun(Apply(s, a), actions)
    requires Decision(status) && Patches(s, a, id, status, admin, now, later)
    ensures var r := Run(Apply(s, a), actions).rows;
            && id < |r| && r[id].username == s.rows[id].username && r[id].processed == now
            && (r[id].status == status ==> r[id].admin == admin && r[id].lastUpdated == later)
  {
    InvStep(s, a);
    PatchIsTransition(s, a, id, status, admin, now, later);
    HistoryOnlyGrows(Apply(s, a), actions);
  }
}
