/** The game server as a view of the database that lags by the unsettled commands. */
module GameAgreement {
  import opened Requests
  import opened Pipeline
  import opened Lifecycle
  import opened Delivery

  /** One username's standing on the game server. */
  datatype Flags = Flags(whitelisted: bool, banned: bool) {
    predicate Playable() {
      whitelisted && !banned
    }
  }

  function FlagsOf(g: Game, u: string): Flags {
    Flags(u in g.whitelisted, u in g.banned)
  }

  /** What the command for r does to u's standing. */
  function Effect(r: Request, f: Flags, u: string): Flags {
    if r.username != u then f
    else match r.status
      case Approved => f.(whitelisted := true)
      case Banned => f.(banned := true)
      case Deactivated => f.(whitelisted := false)
      case _ => f
  }

  function Replay(msgs: seq<Message>, f: Flags, u: string): Flags {
    if msgs == [] then f else Replay(msgs[1..], Effect(msgs[0].body, f, u), u)
  }

  /** The standing the database calls for. A banned player stays on the whitelist. */
  ghost function Target(rows: seq<Request>, u: string): Flags {
    Flags(exists i :: 0 <= i < |rows| && rows[i].username == u && rows[i].status in {Approved, Banned},
          exists i :: 0 <= i < |rows| && rows[i].username == u && rows[i].status == Banned)
  }

  predicate IsCommand(status: Status) {
    status in {Approved, Banned, Deactivated}
  }

  /** Some command for u never reached the queue or was dead-lettered. */
  ghost predicate Lost(ledger: seq<Entry>, u: string) {
    exists t :: 0 <= t < |ledger| && ledger[t].fate in {Unpublished, Dead}
                && ledger[t].body.username == u && IsCommand(ledger[t].body.status)
  }

  /** The command in hand has been carried out once it is about to be acknowledged. */
  ghost predicate Effective(w: Worker, g: Game) {
    w.Busy? && w.phase == Settling(true) ==>
      Effect(w.m.body, FlagsOf(g, w.m.body.username), w.m.body.username) == FlagsOf(g, w.m.body.username)
  }

  /** Replaying the unsettled messages over the game server gives the standing the database calls for. */
  ghost predicate Agrees(rows: seq<Request>, out: seq<Message>, game: Game, u: string) {
    Replay(out, FlagsOf(game, u), u) == Target(rows, u)
  }

  ghost predicate GameOk(s: State) {
    && Effective(s.worker, s.game)
    && forall u :: !Lost(s.ledger, u) ==> Agrees(s.rows, Outstanding(s), s.game, u)
  }

  // ----- replaying -----

  lemma ExecuteIsEffect(g: Game, r: Request, u: string)
    ensures FlagsOf(Execute(g, r), u) == Effect(r, FlagsOf(g, u), u)
  {
  }

  lemma {:induction false} ReplayConcat(a: seq<Message>, b: seq<Message>, f: Flags, u: string)
    ensures Replay(a + b, f, u) == Replay(b, Replay(a, f, u), u)
  {
    if a == [] {
      assert a + b == b;
    } else {
      assert (a + b)[1..] == a[1..] + b;
      ReplayConcat(a[1..], b, Effect(a[0].body, f, u), u);
    }
  }

  /** f and g differ at most in what r's command overwrites. */
  predicate AgreeBut(r: Request, f: Flags, g: Flags) {
    match r.status
    case Approved => f.banned == g.banned
    case Deactivated => f.banned == g.banned
    case Banned => f.whitelisted == g.whitelisted
    case _ => f == g
  }

  lemma {:induction false} ReplayOverwrites(msgs: seq<Message>, i: nat, f: Flags, g: Flags, u: string)
    requires i < |msgs| && msgs[i].body.username == u && AgreeBut(msgs[i].body, f, g)
    ensures Replay(msgs, f, u) == Replay(msgs, g, u)
  {
    if i == 0 {
      assert Effect(msgs[0].body, f, u) == Effect(msgs[0].body, g, u);
    } else {
      ReplayOverwrites(msgs[1..], i - 1, Effect(msgs[0].body, f, u), Effect(msgs[0].body, g, u), u);
    }
  }

  /** Carrying out an unsettled message early, again, or over a dead connection does not change the outcome. */
  lemma ReplayAbsorbs(msgs: seq<Message>, i: nat, f: Flags, u: string)
    requires i < |msgs|
    ensures Replay(msgs, Effect(msgs[i].body, f, u), u) == Replay(msgs, f, u)
  {
    if msgs[i].body.username == u {
      ReplayOverwrites(msgs, i, Effect(msgs[i].body, f, u), f, u);
    }
  }

  /** Dropping a message that is no command for u changes nothing for u. */
  lemma ReplayWithout(msgs: seq<Message>, k: nat, f: Flags, u: string)
    requires k < |msgs|
    requires !(msgs[k].body.username == u && IsCommand(msgs[k].body.status))
    ensures Replay(Without(msgs, k), f, u) == Replay(msgs, f, u)
  {
    var rest := msgs[k..];
    ReplayConcat(msgs[..k], msgs[k + 1..], f, u);
    ReplayConcat(msgs[..k], rest, f, u);
    assert msgs == msgs[..k] + rest;
    assert rest[1..] == msgs[k + 1..];
  }

  // ----- losing commands -----

  lemma LostGrows(ledger: seq<Entry>, ledger': seq<Entry>, u: string)
    requires LedgerGrows(ledger, ledger') && Lost(ledger, u)
    ensures Lost(ledger', u)
  {
    var t :| 0 <= t < |ledger| && ledger[t].fate in {Unpublished, Dead}
             && ledger[t].body.username == u && IsCommand(ledger[t].body.status);
    assert ledger'[t].body == ledger[t].body;
  }

  lemma LostNow(ledger: seq<Entry>, t: nat, u: string)
    requires t < |ledger| && ledger[t].fate in {Unpublished, Dead} && !Lost(ledger, u)
    ensures !(ledger[t].body.username == u && IsCommand(ledger[t].body.status))
  {
  }

  // ----- the steps -----

  /** A transition changes the target of its own username by exactly its command. */
  lemma TargetUpdate(rows: seq<Request>, id: nat, r: Request, u: string)
    requires OneActive(rows) && id < |rows|
    requires LegalTransition(rows[id].status, r.status) && r.username == rows[id].username
    ensures Target(rows[id := r], u) == Effect(r, Target(rows, u), u)
  {
    var rows' := rows[id := r];
    if r.username == u {
      assert rows'[id] == r;
      assert forall i :: 0 <= i < |rows| && i != id ==> rows'[i] == rows[i];
      if r.status == Approved || r.status == Banned {
        assert Target(rows', u).whitelisted;
      }
      if r.status == Deactivated || r.status == Banned {
        assert Target(rows, u).whitelisted;
      }
    } else {
      assert forall i :: 0 <= i < |rows| && rows[i].username == u ==> rows'[i] == rows[i];
      assert forall i :: 0 <= i < |rows| && rows'[i].username == u ==> rows'[i] == rows[i];
    }
  }

  lemma TargetSame(rows: seq<Request>, rows': seq<Request>, u: string)
    requires |rows| <= |rows'|
    requires forall i :: 0 <= i < |rows| ==> rows'[i].username == rows[i].username && rows'[i].status == rows[i].status
    requires forall i :: |rows| <= i < |rows'| ==> rows'[i].status == Pending
    ensures Target(rows', u) == Target(rows, u)
  {
    assert forall i :: 0 <= i < |rows| && rows[i].username == u ==> rows'[i].username == u;
  }

  lemma GameOkUpdate(s: State, id: nat, status: Status, admin: string, now: real, later: real, published: bool)
    requires DeliveryOk(s) && OneActive(s.rows) && GameOk(s)
    requires id < |s.rows| && LegalTransition(s.rows[id].status, status)
    ensures GameOk(UpdateRow(s, id, status, admin, now, later, published))
  {
    var s' := UpdateRow(s, id, status, admin, now, later, published);
    var r := s'.rows[id];
    forall u | !Lost(s'.ledger, u)
      ensures Agrees(s'.rows, Outstanding(s'), s'.game, u)
    {
      if Lost(s.ledger, u) {
        LostGrows(s.ledger, s'.ledger, u);
      }
      TargetUpdate(s.rows, id, r, u);
      var m := Message(|s.ledger|, r);
      if published {
        assert Outstanding(s') == Outstanding(s) + [m];
        ReplayConcat(Outstanding(s), [m], FlagsOf(s.game, u), u);
      } else {
        LostNow(s'.ledger, |s.ledger|, u);
        assert Outstanding(s') == Outstanding(s);
      }
    }
  }

  lemma GameOkCreate(s: State, username: string, age: int, gender: string, now: real, published: bool)
    requires DeliveryOk(s) && GameOk(s)
    ensures GameOk(CreateRequest(s, username, age, gender, now, published))
  {
    var s' := CreateRequest(s, username, age, gender, now, published);
    if !Blocked(s.rows, username) {
      forall u | !Lost(s'.ledger, u)
        ensures Agrees(s'.rows, Outstanding(s'), s'.game, u)
      {
        if Lost(s.ledger, u) {
          LostGrows(s.ledger, s'.ledger, u);
        }
        TargetSame(s.rows, s'.rows, u);
        var m := Message(|s.ledger|, NewRequest(|s.rows|, username, age, gender, NO_TIME));
        if published {
          assert Outstanding(s') == Outstanding(s) + [m];
          ReplayConcat(Outstanding(s), [m], FlagsOf(s.game, u), u);
        } else {
          assert Outstanding(s') == Outstanding(s);
        }
      }
    }
  }

  lemma ActIsEffective(s: State, reported: bool, applied: bool, sent: seq<string>, stored: bool)
    requires reported ==> applied
    requires Effective(s.worker, s.game)
    ensures var s' := ActOn(s, reported, applied, sent, stored); Effective(s'.worker, s'.game)
  {
    if s.worker.Busy? {
      ExecuteIsEffect(s.game, s.worker.m.body, s.worker.m.body.username);
    }
  }

  /** Acting touches no message, no status and, at most, carries out the command in hand. */
  lemma ActShape(s: State, reported: bool, applied: bool, sent: seq<string>, stored: bool)
    ensures var s' := ActOn(s, reported, applied, sent, stored);
            && s'.ledger == s.ledger && Outstanding(s') == Outstanding(s) && |s'.rows| == |s.rows|
            && (forall i :: 0 <= i < |s.rows| ==>
                  s'.rows[i].username == s.rows[i].username && s'.rows[i].status == s.rows[i].status)
            && (s'.game == s.game || (s.worker.Busy? && s'.game == Execute(s.game, s.worker.m.body)))
  {
  }

  lemma GameOkAct(s: State, reported: bool, applied: bool, sent: seq<string>, stored: bool)
    requires DeliveryOk(s) && GameOk(s) && (reported ==> applied)
    ensures GameOk(ActOn(s, reported, applied, sent, stored))
  {
    var s' := ActOn(s, reported, applied, sent, stored);
    ActIsEffective(s, reported, applied, sent, stored);
    ActShape(s, reported, applied, sent, stored);
    forall u | !Lost(s'.ledger, u)
      ensures Agrees(s'.rows, Outstanding(s'), s'.game, u)
    {
      TargetSame(s.rows, s'.rows, u);
      if s'.game != s.game {
        CommandAbsorbed(s, u);
      }
    }
  }

  /** Whether the command in hand is carried out now makes no difference to where the replay ends. */
  lemma CommandAbsorbed(s: State, u: string)
    requires DeliveryOk(s) && s.worker.Busy? && !Lost(s.ledger, u)
    ensures Replay(Outstanding(s), FlagsOf(Execute(s.game, s.worker.m.body), u), u)
         == Replay(Outstanding(s), FlagsOf(s.game, u), u)
  {
    var m := s.worker.m;
    ExecuteIsEffect(s.game, m.body, u);
    if s.ledger[m.tag].fate == Dead {
      LostNow(s.ledger, m.tag, u);
    } else {
      var i := InHand(s);
      ReplayAbsorbs(Outstanding(s), i, FlagsOf(s.game, u), u);
    }
  }

  /** The message in hand is still unsettled unless it expired behind the worker's back. */
  lemma InHand(s: State) returns (i: nat)
    requires DeliveryOk(s) && s.worker.Busy? && s.ledger[s.worker.m.tag].fate != Dead
    ensures i < |Outstanding(s)| && Outstanding(s)[i] == s.worker.m
  {
    var m, out := s.worker.m, Outstanding(s);
    if s.worker.stale {
      i :| 0 <= i < |out| && out[i].tag == m.tag;
      assert Recorded(out[i], s.ledger);
    } else {
      i := 0;
    }
  }

  lemma GameOkRemove(s: State, s': State, k: nat, fate: Fate)
    requires DeliveryOk(s) && GameOk(s) && k < |Outstanding(s)| && fate in {Acked, Dead}
    requires s'.worker.Idle? || s'.worker == s.worker
    requires Outstanding(s') == Without(Outstanding(s), k)
    requires s'.rows == s.rows && s'.game == s.game
    requires s'.ledger == SetFate(s.ledger, Outstanding(s)[k].tag, fate)
    requires LedgerGrows(s.ledger, s'.ledger)
    requires fate == Acked ==>
               k == 0 && s.worker.Busy? && s.worker.m == Outstanding(s)[0] && s.worker.phase == Settling(true)
    ensures GameOk(s')
  {
    var out := Outstanding(s);
    assert Recorded(out[k], s.ledger);
    forall u | !Lost(s'.ledger, u)
      ensures Agrees(s'.rows, Outstanding(s'), s'.game, u)
    {
      if Lost(s.ledger, u) {
        LostGrows(s.ledger, s'.ledger, u);
      }
      if fate == Dead {
        LostNow(s'.ledger, out[k].tag, u);
        ReplayWithout(out, k, FlagsOf(s.game, u), u);
      } else {
        assert Without(out, 0) == out[1..];
        assert Effect(out[0].body, FlagsOf(s.game, u), u) == FlagsOf(s.game, u);
      }
    }
  }

  lemma GameOkStep(s: State, a: Action)
    requires DeliveryOk(s) && OneActive(s.rows) && GameOk(s) && Legal(s, a)
    ensures GameOk(Apply(s, a))
  {
    LedgerGrowsStep(s, a);
    match a
    case Create(username, age, gender, now, published) => GameOkCreate(s, username, age, gender, now, published);
    case OpPatch(id, op, status, now, later, published) =>
      if OpAllowed(s.rows, id, op) {
        GameOkUpdate(s, id, status, op, now, later, published);
      }
    case AdminPatch(id, status, now, later, published) =>
      if id < |s.rows| {
        GameOkUpdate(s, id, status, "admin", now, later, published);
      }
    case Act(reported, applied, sent, stored) => GameOkAct(s, reported, applied, sent, stored);
    case Settle => GameOkSettle(s);
    case Expire => GameOkExpire(s);
    case _ => GameOkInternal(s, a);
  }

  lemma GameOkSettle(s: State)
    requires DeliveryOk(s) && GameOk(s) && LedgerGrows(s.ledger, SettleMessage(s).ledger)
    ensures GameOk(SettleMessage(s))
  {
    if s.worker.Busy? && s.worker.phase.Settling? && !s.worker.stale {
      assert Outstanding(s)[0] == s.unacked[0];
      assert Outstanding(SettleMessage(s)) == Without(Outstanding(s), 0);
      GameOkRemove(s, SettleMessage(s), 0, if s.worker.phase.ack then Acked else Dead);
    }
  }

  lemma GameOkExpire(s: State)
    requires DeliveryOk(s) && GameOk(s) && LedgerGrows(s.ledger, ExpireHead(s).ledger)
    ensures GameOk(ExpireHead(s))
  {
    if s.ready != [] {
      var k := |s.unacked|;
      assert Outstanding(s)[k] == s.ready[0];
      assert Outstanding(ExpireHead(s)) == Without(Outstanding(s), k);
      GameOkRemove(s, ExpireHead(s), k, Dead);
    }
  }

  lemma GameOkInternal(s: State, a: Action)
    requires DeliveryOk(s) && GameOk(s) && Internal(a) && !a.Act?
    requires LedgerGrows(s.ledger, Apply(s, a).ledger)
    ensures GameOk(Apply(s, a))
  {
    var s' := Apply(s, a);
    InternalKeepsMessages(s, a);
    forall u | !Lost(s'.ledger, u)
      ensures Agrees(s'.rows, Outstanding(s'), s'.game, u)
    {
      if Lost(s.ledger, u) {
        LostGrows(s.ledger, s'.ledger, u);
      }
    }
  }
}
