/** The whitelist follows the newest approval or deactivation of each player, whatever became of the older ones. */
module Whitelist {
  import opened Requests
  import opened Pipeline
  import opened Lifecycle
  import opened Delivery
  import opened GameAgreement
  import opened Bans

  /** r switches u's place on the whitelist on or off. */
  predicate IsSwitch(r: Request, u: string) {
    r.username == u && r.status in {Approved, Deactivated}
  }

  ghost predicate NoSwitch(ledger: seq<Entry>, u: string) {
    forall t :: 0 <= t < |ledger| ==> !IsSwitch(ledger[t].body, u)
  }

  ghost predicate Newest(ledger: seq<Entry>, u: string, t: int) {
    0 <= t < |ledger| && IsSwitch(ledger[t].body, u) && forall k :: t < k < |ledger| ==> !IsSwitch(ledger[k].body, u)
  }

  /** The newest switch of u never reached the queue or was dead-lettered. */
  ghost predicate LostNewest(ledger: seq<Entry>, u: string) {
    exists t :: Newest(ledger, u, t) && ledger[t].fate in {Unpublished, Dead}
  }

  lemma {:induction false} NewestExists(ledger: seq<Entry>, u: string)
    ensures NoSwitch(ledger, u) || exists t :: Newest(ledger, u, t)
  {
    if ledger != [] {
      var n := |ledger| - 1;
      if IsSwitch(ledger[n].body, u) {
        assert Newest(ledger, u, n);
      } else {
        NewestExists(ledger[..n], u);
        if t :| Newest(ledger[..n], u, t) {
          assert Newest(ledger, u, t);
        }
      }
    }
  }

  // ----- acknowledged messages are older than unsettled ones -----

  ghost predicate AckedBefore(ledger: seq<Entry>, tag: nat) {
    forall t :: 0 <= t < |ledger| && ledger[t].fate == Acked ==> t < tag
  }

  ghost predicate AckedFirst(s: State) {
    && (forall i :: 0 <= i < |Outstanding(s)| ==> AckedBefore(s.ledger, Outstanding(s)[i].tag))
    && (s.worker.Busy? ==> AckedBefore(s.ledger, s.worker.m.tag))
  }

  lemma AckedFirstRemove(s: State, s': State, k: nat, fate: Fate)
    requires DeliveryOk(s) && AckedFirst(s) && k < |Outstanding(s)| && fate != Queued && (fate == Acked ==> k == 0)
    requires Outstanding(s') == Without(Outstanding(s), k)
    requires s'.ledger == SetFate(s.ledger, Outstanding(s)[k].tag, fate)
    requires s'.worker.Idle? || (s'.worker == s.worker && fate != Acked)
    ensures AckedFirst(s')
  {
    var out := Outstanding(s);
    WithoutAt(out, k);
    assert Recorded(out[k], s.ledger);
    forall i | 0 <= i < |Outstanding(s')|
      ensures AckedBefore(s'.ledger, Outstanding(s')[i].tag)
    {
      var j := if i < k then i else i + 1;
      assert Outstanding(s')[i] == out[j] && AckedBefore(s.ledger, out[j].tag);
    }
  }

  /** A handler's step publishes one message, loses it, or does nothing. */
  lemma PublishShape(s: State, a: Action)
    requires a.Create? || a.OpPatch? || a.AdminPatch?
    ensures var s' := Apply(s, a);
            s'.worker == s.worker &&
            if |s'.ledger| == |s.ledger| then s'.ledger == s.ledger && Outstanding(s') == Outstanding(s)
            else
              var e := Entry(s'.ledger[|s'.ledger| - 1].body, s'.ledger[|s'.ledger| - 1].fate, 0, false);
              && e.fate in {Queued, Unpublished} && s'.ledger == s.ledger + [e]
              && Outstanding(s') == Outstanding(s) + if e.fate == Queued then [Message(|s.ledger|, e.body)] else []
  {
  }

  lemma AckedFirstPublish(s: State, a: Action)
    requires DeliveryOk(s) && AckedFirst(s) && (a.Create? || a.OpPatch? || a.AdminPatch?)
    ensures AckedFirst(Apply(s, a))
  {
    PublishShape(s, a);
    if |Apply(s, a).ledger| > |s.ledger| {
      forall tag: nat
        ensures AckedBefore(s.ledger, tag) ==> AckedBefore(Apply(s, a).ledger, tag)
        ensures AckedBefore(Apply(s, a).ledger, |s.ledger|)
      {
      }
    }
  }

  lemma InternalWorker(s: State, a: Action)
    requires Internal(a)
    ensures var w := Apply(s, a).worker;
            w.Busy? ==> (s.worker.Busy? && w.m == s.worker.m) || (Outstanding(s) != [] && w.m == Outstanding(s)[0])
  {
  }

  lemma AckedBeforeSame(ledger: seq<Entry>, ledger': seq<Entry>, tag: nat)
    requires SameFates(ledger, ledger')
    ensures AckedBefore(ledger, tag) ==> AckedBefore(ledger', tag)
  {
  }

  lemma AckedFirstInternal(s: State, a: Action)
    requires AckedFirst(s) && Internal(a)
    ensures AckedFirst(Apply(s, a))
  {
    var s' := Apply(s, a);
    InternalKeepsMessages(s, a);
    InternalWorker(s, a);
    forall tag: nat
      ensures AckedBefore(s.ledger, tag) ==> AckedBefore(s'.ledger, tag)
    {
      AckedBeforeSame(s.ledger, s'.ledger, tag);
    }
  }

  // ----- the invariant -----

  /** The database calls for what the newest switch says, and once acknowledged it is so on the game server;
      without any switch the whitelist was right from the outset. */
  ghost predicate Follows(rows: seq<Request>, ledger: seq<Entry>, whitelisted: set<string>, u: string) {
    && (NoSwitch(ledger, u) ==> (u in whitelisted <==> Target(rows, u).whitelisted))
    && forall t :: Newest(ledger, u, t) ==>
         && (Target(rows, u).whitelisted <==> ledger[t].body.status == Approved)
         && (ledger[t].fate == Acked ==> (u in whitelisted <==> ledger[t].body.status == Approved))
  }

  ghost predicate WhitelistOk(s: State) {
    forall u :: Follows(s.rows, s.ledger, s.game.whitelisted, u)
  }

  lemma NewestPublish(ledger: seq<Entry>, u: string, e: Entry, t: int)
    requires Newest(ledger + [e], u, t)
    ensures if IsSwitch(e.body, u) then t == |ledger| else Newest(ledger, u, t)
  {
    var ledger' := ledger + [e];
    assert ledger'[|ledger|] == e;
    assert forall k :: 0 <= k < |ledger| ==> ledger'[k] == ledger[k];
  }

  lemma FollowsPublish(rows: seq<Request>, ledger: seq<Entry>, whitelisted: set<string>, u: string,
                       rows': seq<Request>, e: Entry)
    requires Follows(rows, ledger, whitelisted, u) && e.fate != Acked
    requires Target(rows', u).whitelisted
          == if IsSwitch(e.body, u) then e.body.status == Approved else Target(rows, u).whitelisted
    ensures Follows(rows', ledger + [e], whitelisted, u)
  {
    var ledger' := ledger + [e];
    if NoSwitch(ledger', u) {
      assert ledger'[|ledger|] == e && forall t :: 0 <= t < |ledger| ==> ledger'[t] == ledger[t];
    }
    forall t | Newest(ledger', u, t)
      ensures Target(rows', u).whitelisted <==> ledger'[t].body.status == Approved
      ensures ledger'[t].fate == Acked ==> (u in whitelisted <==> ledger'[t].body.status == Approved)
    {
      NewestPublish(ledger, u, e, t);
    }
  }

  lemma WhitelistOkUpdate(s: State, id: nat, status: Status, admin: string, now: real, later: real, published: bool)
    requires WhitelistOk(s) && OneActive(s.rows) && id < |s.rows| && LegalTransition(s.rows[id].status, status)
    ensures WhitelistOk(UpdateRow(s, id, status, admin, now, later, published))
  {
    var r := Patched(s.rows[id], status, admin, now, later);
    forall u
      ensures var s' := UpdateRow(s, id, status, admin, now, later, published);
              Follows(s'.rows, s'.ledger, s'.game.whitelisted, u)
    {
      TargetUpdate(s.rows, id, r, u);
      FollowsPublish(s.rows, s.ledger, s.game.whitelisted, u, s.rows[id := r],
                     Entry(r, if published then Queued else Unpublished, 0, false));
    }
  }

  lemma WhitelistOkCreate(s: State, username: string, age: int, gender: string, now: real, published: bool)
    requires WhitelistOk(s)
    ensures WhitelistOk(InsertRow(s, username, age, gender, now, published))
  {
    var s' := InsertRow(s, username, age, gender, now, published);
    var body := NewRequest(|s.rows|, username, age, gender, NO_TIME);
    forall u
      ensures Follows(s'.rows, s'.ledger, s'.game.whitelisted, u)
    {
      TargetSame(s.rows, s'.rows, u);
      FollowsPublish(s.rows, s.ledger, s.game.whitelisted, u, s'.rows,
                     Entry(body, if published then Queued else Unpublished, 0, false));
    }
  }

  ghost predicate SameBodies(ledger: seq<Entry>, ledger': seq<Entry>) {
    |ledger| == |ledger'| && forall t :: 0 <= t < |ledger| ==> ledger[t].body == ledger'[t].body
  }

  lemma NewestSame(ledger: seq<Entry>, ledger': seq<Entry>, u: string, t: int)
    requires SameBodies(ledger, ledger')
    ensures Newest(ledger, u, t) <==> Newest(ledger', u, t)
    ensures NoSwitch(ledger, u) <==> NoSwitch(ledger', u)
  {
  }

  /** Bodies stay, and what is newly acknowledged is in effect. */
  lemma FollowsSame(rows: seq<Request>, ledger: seq<Entry>, whitelisted: set<string>, u: string,
                    rows': seq<Request>, ledger': seq<Entry>)
    requires Follows(rows, ledger, whitelisted, u) && SameBodies(ledger, ledger')
    requires Target(rows', u) == Target(rows, u)
    requires forall t :: 0 <= t < |ledger| && ledger'[t].fate == Acked && IsSwitch(ledger[t].body, u) ==>
               ledger[t].fate == Acked || (u in whitelisted <==> ledger[t].body.status == Approved)
    ensures Follows(rows', ledger', whitelisted, u)
  {
    NewestSame(ledger, ledger', u, 0);
    forall t | Newest(ledger', u, t)
      ensures Target(rows', u).whitelisted <==> ledger'[t].body.status == Approved
      ensures ledger'[t].fate == Acked ==> (u in whitelisted <==> ledger'[t].body.status == Approved)
    {
      NewestSame(ledger, ledger', u, t);
    }
  }

  /** The command in hand is a switch younger than any acknowledged one, or none of u's. */
  lemma SwitchInHand(s: State, u: string, t: int)
    requires DeliveryOk(s) && AckedFirst(s) && s.worker.Busy? && IsSwitch(s.worker.m.body, u)
    ensures !NoSwitch(s.ledger, u)
    ensures Newest(s.ledger, u, t) ==> s.ledger[t].fate != Acked
  {
    assert Recorded(s.worker.m, s.ledger);
    assert s.ledger[s.worker.m.tag].body == s.worker.m.body;
  }

  lemma FollowsAct(s: State, u: string)
    requires DeliveryOk(s) && AckedFirst(s) && s.worker.Busy? && Follows(s.rows, s.ledger, s.game.whitelisted, u)
    ensures Follows(s.rows, s.ledger, Execute(s.game, s.worker.m.body).whitelisted, u)
  {
    var r := s.worker.m.body;
    if IsSwitch(r, u) {
      forall t | Newest(s.ledger, u, t)
        ensures s.ledger[t].fate != Acked
      {
        SwitchInHand(s, u, t);
      }
      SwitchInHand(s, u, 0);
    } else {
      assert u in Execute(s.game, r).whitelisted <==> u in s.game.whitelisted;
    }
  }

  lemma WhitelistOkInternal(s: State, a: Action)
    requires DeliveryOk(s) && AckedFirst(s) && WhitelistOk(s) && Internal(a)
    ensures WhitelistOk(Apply(s, a))
  {
    var s' := Apply(s, a);
    InternalKeepsMessages(s, a);
    InternalKeepsBans(s, a);
    forall u
      ensures Follows(s'.rows, s'.ledger, s'.game.whitelisted, u)
    {
      TargetSame(s.rows, s'.rows, u);
      if s.worker.Busy? {
        FollowsAct(s, u);
      }
      FollowsSame(s.rows, s.ledger, s'.game.whitelisted, u, s'.rows, s'.ledger);
    }
  }

  lemma WhitelistOkRemove(s: State, s': State, tag: nat, fate: Fate)
    requires WhitelistOk(s) && tag < |s.ledger| && s.ledger[tag].fate == Queued && fate in {Acked, Dead}
    requires s'.rows == s.rows && s'.game == s.game && s'.ledger == SetFate(s.ledger, tag, fate)
    requires var r := s.ledger[tag].body;
             fate == Acked ==> Effect(r, FlagsOf(s.game, r.username), r.username) == FlagsOf(s.game, r.username)
    ensures WhitelistOk(s')
  {
    forall u
      ensures Follows(s'.rows, s'.ledger, s'.game.whitelisted, u)
    {
      FollowsSame(s.rows, s.ledger, s.game.whitelisted, u, s'.rows, s'.ledger);
    }
  }

  // ----- the steps -----

  /** Bans on the game server and bans on record are bans of the database. */
  ghost predicate BansSound(s: State) {
    && (forall u :: u in s.game.banned ==> HasBanned(s.rows, u))
    && (forall t :: 0 <= t < |s.ledger| && s.ledger[t].body.status == Banned ==>
          HasBanned(s.rows, s.ledger[t].body.username))
  }

  lemma BansSoundStep(s: State, a: Action)
    requires BansSound(s) && DeliveryOk(s) && Legal(s, a)
    ensures BansSound(Apply(s, a))
  {
    var s' := Apply(s, a);
    RowsEvolveStep(s, a);
    forall u | HasBanned(s.rows, u)
      ensures HasBanned(s'.rows, u)
    {
      BannedStaysBanned(s.rows, s'.rows, u);
    }
    if a.Create? || a.OpPatch? || a.AdminPatch? {
      NewEntryIsStored(s, a);
    } else {
      BansSoundOther(s, a);
    }
  }

  lemma NewEntryIsStored(s: State, a: Action)
    requires a.Create? || a.OpPatch? || a.AdminPatch?
    ensures var s' := Apply(s, a);
            && s'.game == s.game
            && (s'.ledger == s.ledger
                || exists e :: s'.ledger == s.ledger + [e]
                               && (e.body.status == Banned ==> HasBanned(s'.rows, e.body.username)))
  {
    var s' := Apply(s, a);
    if |s'.ledger| > |s.ledger| {
      var e := s'.ledger[|s.ledger|];
      assert s'.ledger == s.ledger + [e];
      if e.body.status == Banned {
        var id := if a.Create? then 0 else a.id;
        assert s'.rows[id].username == e.body.username && s'.rows[id].status == Banned;
      }
    }
  }

  lemma BansSoundOther(s: State, a: Action)
    requires BansSound(s) && DeliveryOk(s) && !(a.Create? || a.OpPatch? || a.AdminPatch?)
    ensures var s' := Apply(s, a);
            && |s'.ledger| == |s.ledger| && (forall t :: 0 <= t < |s.ledger| ==> s'.ledger[t].body == s.ledger[t].body)
            && forall u :: u in s'.game.banned ==> HasBanned(s.rows, u)
  {
    if s.worker.Busy? {
      assert Recorded(s.worker.m, s.ledger);
    }
  }

  /** Everything the game server's two lists rest on. */
  ghost predicate CommandsOk(s: State) {
    BansOk(s) && BansSound(s) && AckedFirst(s) && WhitelistOk(s)
  }

  lemma CommandsOkPublish(s: State, a: Action)
    requires AckedFirst(s) && WhitelistOk(s) && DeliveryOk(s) && OneActive(s.rows) && Legal(s, a)
    requires a.Create? || a.OpPatch? || a.AdminPatch?
    ensures AckedFirst(Apply(s, a)) && WhitelistOk(Apply(s, a))
  {
    AckedFirstPublish(s, a);
    match a
    case Create(username, age, gender, now, published) =>
      WhitelistOkCreate(s, username, age, gender, now, published);
    case OpPatch(id, op, status, now, later, published) =>
      if OpAllowed(s.rows, id, op) {
        WhitelistOkUpdate(s, id, status, op, now, later, published);
      }
    case AdminPatch(id, status, now, later, published) =>
      if id < |s.rows| {
        WhitelistOkUpdate(s, id, status, "admin", now, later, published);
      }
  }

  lemma CommandsOkSettle(s: State)
    requires AckedFirst(s) && WhitelistOk(s) && DeliveryOk(s) && Effective(s.worker, s.game)
    ensures AckedFirst(SettleMessage(s)) && WhitelistOk(SettleMessage(s))
  {
    if s.worker.Busy? && s.worker.phase.Settling? && !s.worker.stale {
      var s', fate := SettleMessage(s), if s.worker.phase.ack then Acked else Dead;
      assert Outstanding(s)[0] == s.unacked[0];
      assert Outstanding(s') == Without(Outstanding(s), 0);
      AckedFirstRemove(s, s', 0, fate);
      WhitelistOkRemove(s, s', s.worker.m.tag, fate);
    }
  }

  lemma CommandsOkExpire(s: State)
    requires AckedFirst(s) && WhitelistOk(s) && DeliveryOk(s)
    ensures AckedFirst(ExpireHead(s)) && WhitelistOk(ExpireHead(s))
  {
    if s.ready != [] {
      var s', k := ExpireHead(s), |s.unacked|;
      assert Outstanding(s)[k] == s.ready[0] && Recorded(Outstanding(s)[k], s.ledger);
      assert Outstanding(s') == Without(Outstanding(s), k);
      AckedFirstRemove(s, s', k, Dead);
      WhitelistOkRemove(s, s', s.ready[0].tag, Dead);
    }
  }

  lemma CommandsOkStep(s: State, a: Action)
    requires CommandsOk(s) && DeliveryOk(s) && OneActive(s.rows) && Effective(s.worker, s.game) && Legal(s, a)
    ensures CommandsOk(Apply(s, a))
  {
    BansOkStep(s, a);
    BansSoundStep(s, a);
    if Internal(a) {
      AckedFirstInternal(s, a);
      WhitelistOkInternal(s, a);
    } else if a.Settle? {
      CommandsOkSettle(s);
    } else if a.Expire? {
      CommandsOkExpire(s);
    } else {
      CommandsOkPublish(s, a);
    }
  }

  // ----- what it means -----

  lemma {:induction false} ReplayWithoutSwitch(msgs: seq<Message>, f: Flags, u: string)
    requires forall i :: 0 <= i < |msgs| ==> !IsSwitch(msgs[i].body, u)
    ensures Replay(msgs, f, u).whitelisted == f.whitelisted
  {
    if msgs != [] {
      ReplayWithoutSwitch(msgs[1..], Effect(msgs[0].body, f, u), u);
    }
  }

  lemma {:induction false} ReplayBans(msgs: seq<Message>, f: Flags, u: string)
    ensures Replay(msgs, f, u).banned <==> f.banned || BanUnderWay(msgs, u)
  {
    if msgs != [] {
      ReplayBans(msgs[1..], Effect(msgs[0].body, f, u), u);
      assert msgs == [msgs[0]] + msgs[1..];
      if BanUnderWay(msgs[1..], u) {
        var i :| 0 <= i < |msgs[1..]| && IsBan(msgs[1..][i].body, u);
        assert msgs[i + 1] == msgs[1..][i];
      }
      if BanUnderWay(msgs, u) && !IsBan(msgs[0].body, u) {
        var i :| 0 <= i < |msgs| && IsBan(msgs[i].body, u);
        assert msgs[1..][i - 1] == msgs[i];
      }
    }
  }

  /** The last switch among the unsettled messages decides where the replay ends. */
  lemma ReplayLastSwitch(msgs: seq<Message>, i: nat, f: Flags, u: string)
    requires i < |msgs| && IsSwitch(msgs[i].body, u)
    requires forall j :: i < j < |msgs| ==> !IsSwitch(msgs[j].body, u)
    ensures Replay(msgs, f, u).whitelisted <==> msgs[i].body.status == Approved
  {
    var rest := msgs[i..];
    assert msgs == msgs[..i] + rest;
    ReplayConcat(msgs[..i], rest, f, u);
    var g := Replay(msgs[..i], f, u);
    assert rest[1..] == msgs[i + 1..];
    ReplayWithoutSwitch(rest[1..], Effect(rest[0].body, g, u), u);
  }

  lemma UnsettledSwitch(s: State, u: string, t: int, i: nat)
    requires DeliveryOk(s) && Newest(s.ledger, u, t) && i < |Outstanding(s)| && Outstanding(s)[i].tag > t
    ensures !IsSwitch(Outstanding(s)[i].body, u)
  {
    assert Recorded(Outstanding(s)[i], s.ledger);
  }

  lemma AcknowledgedDecides(s: State, u: string, t: int)
    requires DeliveryOk(s) && AckedFirst(s) && Newest(s.ledger, u, t) && s.ledger[t].fate == Acked
    ensures Replay(Outstanding(s), FlagsOf(s.game, u), u).whitelisted == (u in s.game.whitelisted)
  {
    forall i | 0 <= i < |Outstanding(s)|
      ensures !IsSwitch(Outstanding(s)[i].body, u)
    {
      assert AckedBefore(s.ledger, Outstanding(s)[i].tag);
      UnsettledSwitch(s, u, t, i);
    }
    ReplayWithoutSwitch(Outstanding(s), FlagsOf(s.game, u), u);
  }

  lemma WaitingDecides(s: State, u: string, t: int)
    requires DeliveryOk(s) && Newest(s.ledger, u, t) && s.ledger[t].fate == Queued
    ensures Replay(Outstanding(s), FlagsOf(s.game, u), u).whitelisted <==> s.ledger[t].body.status == Approved
  {
    var out := Outstanding(s);
    var i :| 0 <= i < |out| && out[i].tag == t;
    assert Recorded(out[i], s.ledger);
    forall j | i < j < |out|
      ensures !IsSwitch(out[j].body, u)
    {
      UnsettledSwitch(s, u, t, j);
    }
    ReplayLastSwitch(out, i, FlagsOf(s.game, u), u);
  }

  lemma NoneDecides(s: State, u: string)
    requires DeliveryOk(s) && NoSwitch(s.ledger, u)
    ensures Replay(Outstanding(s), FlagsOf(s.game, u), u).whitelisted == (u in s.game.whitelisted)
  {
    forall i | 0 <= i < |Outstanding(s)|
      ensures !IsSwitch(Outstanding(s)[i].body, u)
    {
      assert Recorded(Outstanding(s)[i], s.ledger);
    }
    ReplayWithoutSwitch(Outstanding(s), FlagsOf(s.game, u), u);
  }

  /** If the newest approval or deactivation of u was not lost, replaying the unsettled messages gives u the place on
      the whitelist the database calls for. */
  lemma NewestSwitchDecides(s: State, u: string)
    requires DeliveryOk(s) && AckedFirst(s) && WhitelistOk(s) && !LostNewest(s.ledger, u)
    ensures Replay(Outstanding(s), FlagsOf(s.game, u), u).whitelisted == Target(s.rows, u).whitelisted
  {
    assert Follows(s.rows, s.ledger, s.game.whitelisted, u);
    NewestExists(s.ledger, u);
    if NoSwitch(s.ledger, u) {
      NoneDecides(s, u);
    } else {
      var t :| Newest(s.ledger, u, t);
      if s.ledger[t].fate == Acked {
        AcknowledgedDecides(s, u, t);
      } else {
        WaitingDecides(s, u, t);
      }
    }
  }

  /** And if no ban of u was lost, the place on the ban list. */
  lemma BansDecide(s: State, u: string)
    requires DeliveryOk(s) && BansOk(s) && BansSound(s) && !LostBan(s.ledger, u)
    ensures Replay(Outstanding(s), FlagsOf(s.game, u), u).banned == Target(s.rows, u).banned
  {
    var out := Outstanding(s);
    assert BanArrives(s.rows, s.ledger, out, s.game.banned, u);
    ReplayBans(out, FlagsOf(s.game, u), u);
    if BanUnderWay(out, u) {
      var i :| 0 <= i < |out| && IsBan(out[i].body, u);
      assert Recorded(out[i], s.ledger);
    }
    assert Target(s.rows, u).banned == HasBanned(s.rows, u);
  }
}
