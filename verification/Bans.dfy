/** Bans reach the game server unless a ban itself is lost. */
module Bans {
  import opened Requests
  import opened Pipeline
  import opened Lifecycle
  import opened Delivery
  import opened GameAgreement

  ghost predicate HasBanned(rows: seq<Request>, u: string) {
    exists i :: 0 <= i < |rows| && rows[i].username == u && rows[i].status == Banned
  }

  lemma BannedStaysBanned(rows: seq<Request>, rows': seq<Request>, u: string)
    requires HasBanned(rows, u) && RowsEvolve(rows, rows')
    ensures HasBanned(rows', u)
  {
    var b :| 0 <= b < |rows| && rows[b].username == u && rows[b].status == Banned;
    assert RowEvolves(rows[b], rows'[b]);
  }

  predicate IsBan(r: Request, u: string) {
    r.username == u && r.status == Banned
  }

  /** A ban of u never reached the queue or was dead-lettered. */
  ghost predicate LostBan(ledger: seq<Entry>, u: string) {
    exists t :: 0 <= t < |ledger| && ledger[t].fate in {Unpublished, Dead} && IsBan(ledger[t].body, u)
  }

  ghost predicate BanUnderWay(msgs: seq<Message>, u: string) {
    exists i :: 0 <= i < |msgs| && IsBan(msgs[i].body, u)
  }

  ghost predicate BanArrives(rows: seq<Request>, ledger: seq<Entry>, msgs: seq<Message>, banned: set<string>,
                             u: string)
  {
    HasBanned(rows, u) && !LostBan(ledger, u) ==> u in banned || BanUnderWay(msgs, u)
  }

  ghost predicate BansOk(s: State) {
    forall u :: BanArrives(s.rows, s.ledger, Outstanding(s), s.game.banned, u)
  }

  lemma LostBanGrows(ledger: seq<Entry>, ledger': seq<Entry>, u: string)
    requires LedgerGrows(ledger, ledger') && LostBan(ledger, u)
    ensures LostBan(ledger', u)
  {
    var t :| 0 <= t < |ledger| && ledger[t].fate in {Unpublished, Dead} && IsBan(ledger[t].body, u);
    assert ledger'[t].body == ledger[t].body;
  }

  lemma UnderWayGrows(msgs: seq<Message>, m: Message, u: string)
    requires BanUnderWay(msgs, u) || IsBan(m.body, u)
    ensures BanUnderWay(msgs + [m], u)
  {
    if BanUnderWay(msgs, u) {
      var i :| 0 <= i < |msgs| && IsBan(msgs[i].body, u);
      assert (msgs + [m])[i] == msgs[i];
    } else {
      assert (msgs + [m])[|msgs|] == m;
    }
  }

  /** A transition is published or lost; either way the ban it may be is accounted for. */
  lemma BansOkPublish(s: State, rows: seq<Request>, body: Request, published: bool, u: string)
    requires BansOk(s) && (HasBanned(rows, u) ==> HasBanned(s.rows, u) || IsBan(body, u))
    ensures var s' := Publish(s.(rows := rows), body, published);
            BanArrives(rows, s'.ledger, Outstanding(s'), s'.game.banned, u)
  {
    var s' := Publish(s.(rows := rows), body, published);
    assert BanArrives(s.rows, s.ledger, Outstanding(s), s.game.banned, u);
    if LostBan(s.ledger, u) {
      LostBanGrows(s.ledger, s'.ledger, u);
    }
    if published {
      var m := Message(|s.ledger|, body);
      assert Outstanding(s') == Outstanding(s) + [m];
      if BanUnderWay(Outstanding(s), u) || IsBan(body, u) {
        UnderWayGrows(Outstanding(s), m, u);
      }
    } else if IsBan(body, u) {
      assert s'.ledger[|s.ledger|].body == body;
    }
  }

  lemma BansOkUpdate(s: State, id: nat, status: Status, admin: string, now: real, later: real, published: bool)
    requires BansOk(s) && id < |s.rows|
    ensures BansOk(UpdateRow(s, id, status, admin, now, later, published))
  {
    var r := Patched(s.rows[id], status, admin, now, later);
    forall u
      ensures var s' := UpdateRow(s, id, status, admin, now, later, published);
              BanArrives(s'.rows, s'.ledger, Outstanding(s'), s'.game.banned, u)
    {
      var rows := s.rows[id := r];
      if HasBanned(rows, u) {
        var i :| 0 <= i < |rows| && rows[i].username == u && rows[i].status == Banned;
        assert i != id ==> rows[i] == s.rows[i];
      }
      BansOkPublish(s, rows, r, published, u);
    }
  }

  lemma BansOkCreate(s: State, username: string, age: int, gender: string, now: real, published: bool)
    requires BansOk(s)
    ensures BansOk(CreateRequest(s, username, age, gender, now, published))
  {
    var s' := CreateRequest(s, username, age, gender, now, published);
    if !Blocked(s.rows, username) {
      forall u
        ensures BanArrives(s'.rows, s'.ledger, Outstanding(s'), s'.game.banned, u)
      {
        if HasBanned(s'.rows, u) {
          var i :| 0 <= i < |s'.rows| && s'.rows[i].username == u && s'.rows[i].status == Banned;
          assert i < |s.rows| && s'.rows[i] == s.rows[i];
        }
        BansOkPublish(s, s'.rows, NewRequest(|s.rows|, username, age, gender, NO_TIME), published, u);
      }
    }
  }

  /** A ban leaves the queue in effect or lost. */
  lemma BansOkRemove(s: State, s': State, k: nat)
    requires BansOk(s) && k < |Outstanding(s)| && Recorded(Outstanding(s)[k], s.ledger)
    requires Outstanding(s') == Without(Outstanding(s), k)
    requires s'.rows == s.rows && s'.game == s.game && LedgerGrows(s.ledger, s'.ledger)
    requires var m := Outstanding(s)[k];
             s'.ledger[m.tag].fate == Dead || (m.body.status == Banned ==> m.body.username in s.game.banned)
    ensures BansOk(s')
  {
    var out := Outstanding(s);
    forall u
      ensures BanArrives(s'.rows, s'.ledger, Outstanding(s'), s'.game.banned, u)
    {
      assert BanArrives(s.rows, s.ledger, out, s.game.banned, u);
      if LostBan(s.ledger, u) {
        LostBanGrows(s.ledger, s'.ledger, u);
      } else if BanUnderWay(out, u) {
        var i :| 0 <= i < |out| && IsBan(out[i].body, u);
        WithoutAt(out, k);
        if i != k {
          assert Without(out, k)[if i < k then i else i - 1] == out[i];
        }
      }
    }
  }

  lemma BansOkSettle(s: State)
    requires BansOk(s) && DeliveryOk(s) && Effective(s.worker, s.game)
    ensures BansOk(SettleMessage(s))
  {
    if s.worker.Busy? && s.worker.phase.Settling? && !s.worker.stale {
      LedgerGrowsStep(s, Settle);
      assert Outstanding(s)[0] == s.unacked[0];
      assert Outstanding(SettleMessage(s)) == Without(Outstanding(s), 0);
      BansOkRemove(s, SettleMessage(s), 0);
    }
  }

  lemma BansOkExpire(s: State)
    requires BansOk(s) && DeliveryOk(s)
    ensures BansOk(ExpireHead(s))
  {
    if s.ready != [] {
      var k := |s.unacked|;
      LedgerGrowsStep(s, Expire);
      assert Outstanding(s)[k] == s.ready[0];
      assert Outstanding(ExpireHead(s)) == Without(Outstanding(s), k);
      BansOkRemove(s, ExpireHead(s), k);
    }
  }

  lemma BansOkInternal(s: State, a: Action)
    requires BansOk(s) && Internal(a)
    ensures BansOk(Apply(s, a))
  {
    var s' := Apply(s, a);
    InternalKeepsMessages(s, a);
    InternalKeepsBans(s, a);
    forall u
      ensures BanArrives(s'.rows, s'.ledger, Outstanding(s'), s'.game.banned, u)
    {
      assert BanArrives(s.rows, s.ledger, Outstanding(s), s.game.banned, u);
      if LostBan(s.ledger, u) {
        LostBanGrows(s.ledger, s'.ledger, u);
      }
      if HasBanned(s'.rows, u) {
        var i :| 0 <= i < |s'.rows| && s'.rows[i].username == u && s'.rows[i].status == Banned;
        assert s.rows[i].username == u && s.rows[i].status == Banned;
      }
    }
  }

  lemma InternalKeepsBans(s: State, a: Action)
    requires Internal(a)
    ensures var s' := Apply(s, a);
            && |s'.rows| == |s.rows| && s.game.banned <= s'.game.banned
            && (forall i :: 0 <= i < |s.rows| ==>
                  s'.rows[i].username == s.rows[i].username && s'.rows[i].status == s.rows[i].status)
  {
  }

  lemma BansOkStep(s: State, a: Action)
    requires BansOk(s) && DeliveryOk(s) && Effective(s.worker, s.game)
    ensures BansOk(Apply(s, a))
  {
    match a
    case Create(username, age, gender, now, published) => BansOkCreate(s, username, age, gender, now, published);
    case OpPatch(id, op, status, now, later, published) =>
      if OpAllowed(s.rows, id, op) {
        BansOkUpdate(s, id, status, op, now, later, published);
      }
    case AdminPatch(id, status, now, later, published) =>
      if id < |s.rows| {
        BansOkUpdate(s, id, status, "admin", now, later, published);
      }
    case Settle => BansOkSettle(s);
    case Expire => BansOkExpire(s);
    case _ => BansOkInternal(s, a);
  }
}
