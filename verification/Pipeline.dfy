/** The request pipeline as a state machine: HTTP handlers, task queue, worker, statistics cache, game server.
    Every step is one atomic action of one party; the outcomes of remote calls are parameters of the step. */
module Pipeline {
  import opened Requests
  import opened Stats

  /** A queued task. The tag is its publish number; it identifies the message across redeliveries. */
  datatype Message = Message(tag: nat, body: Request)

  /** What finally became of one status transition. */
  datatype Fate = Unpublished | Queued | Acked | Dead

  /** One entry per status transition, in order: what was (or should have been) published, what became of it,
      how often the counters were updated from it, and whether the cached list was refreshed while it was processed. */
  datatype Entry = Entry(body: Request, fate: Fate, counted: nat, refreshed: bool)

  datatype Phase = Refreshing | Counting | Acting | Settling(ack: bool)

  /** One goroutine runs the worker loop, so at most one message is being processed; it is stale once the
      connection it came over is gone. */
  datatype Worker = Idle | Busy(m: Message, stale: bool, phase: Phase)

  datatype Game = Game(whitelisted: set<string>, banned: set<string>)

  /** ledger, mailed, refreshedAt and skew are history: the ledger's length numbers the messages, and otherwise what
      happens never depends on them. */
  datatype State = State(
    clock: real, rows: seq<Request>,
    ready: seq<Message>, unacked: seq<Message>, worker: Worker,
    stats: Hash, list: Option<seq<Request>>, game: Game,
    ledger: seq<Entry>, mailed: set<(nat, string)>, refreshedAt: nat, skew: int)

  /** The unsettled messages, oldest first. */
  function Outstanding(s: State): seq<Message> {
    s.unacked + s.ready
  }

  datatype Action =
    | Create(username: string, age: int, gender: string, now: real, published: bool)
    | OpPatch(id: nat, op: string, status: Status, now: real, later: real, published: bool)
    | AdminPatch(id: nat, status: Status, now: real, later: real, published: bool)
    | Deliver
    | Take
    | Refresh(ok: bool)
    | Count(ok: bool)
    | Act(reported: bool, applied: bool, sent: seq<string>, stored: bool)
    | Settle
    | ConnectionLost
    | Expire
    | Tick(aggregate: AggregateStats)
    | Restart(aggregate: AggregateStats)
    | Abort(refreshed: bool, summary: Option<AggregateStats>)

  // ----- the HTTP side -----

  predicate Blocked(rows: seq<Request>, username: string) {
    exists i :: 0 <= i < |rows| && rows[i].username == username && Active(rows[i].status)
  }

  function NewRequest(id: nat, username: string, age: int, gender: string, timestamp: real): Request {
    Request(id, username, age, gender, Pending, timestamp, NO_TIME, NO_TIME, "", [])
  }

  function Publish(s: State, body: Request, published: bool): State {
    if published then
      s.(ready := s.ready + [Message(|s.ledger|, body)], ledger := s.ledger + [Entry(body, Queued, 0, false)])
    else
      s.(ledger := s.ledger + [Entry(body, Unpublished, 0, false)])
  }

  /** The row is stamped by the database layer, which received a copy: the published message is not stamped. */
  function InsertRow(s: State, username: string, age: int, gender: string, now: real, published: bool): State {
    var id := |s.rows|;
    Publish(s.(rows := s.rows + [NewRequest(id, username, age, gender, now)], clock := now),
            NewRequest(id, username, age, gender, NO_TIME), published)
  }

  function CreateRequest(s: State, username: string, age: int, gender: string, now: real, published: bool): State {
    if Blocked(s.rows, username) then s else InsertRow(s, username, age, gender, now, published)
  }

  function Patched(r: Request, status: Status, admin: string, now: real, later: real): Request {
    var r' := r.(status := status, admin := admin);
    if Decision(status) then r'.(processed := now, lastUpdated := later)
    else if status in {Banned, Deactivated} then r'.(lastUpdated := later)
    else r'
  }

  /** The update of a stored row, and the publication of its post-image. */
  function UpdateRow(s: State, id: nat, status: Status, admin: string, now: real, later: real, published: bool): State
    requires id < |s.rows|
  {
    var r := Patched(s.rows[id], status, admin, now, later);
    Publish(s.(rows := s.rows[id := r], clock := later), r, published)
  }

  /** An op may decide a pending request that was mailed to it. */
  predicate OpAllowed(rows: seq<Request>, id: nat, op: string) {
    id < |rows| && op in rows[id].assignees && rows[id].status == Pending
  }

  // ----- the queue and the worker -----

  function SetFate(ledger: seq<Entry>, tag: nat, fate: Fate): seq<Entry> {
    if tag < |ledger| then ledger[tag := ledger[tag].(fate := fate)] else ledger
  }

  function DeliverHead(s: State): State {
    if s.ready == [] then s else s.(unacked := s.unacked + [s.ready[0]], ready := s.ready[1..])
  }

  function TakeNext(s: State): State {
    if s.worker.Idle? && s.unacked != [] then s.(worker := Busy(s.unacked[0], false, Refreshing)) else s
  }

  function RefreshList(s: State, ok: bool): State {
    if !(s.worker.Busy? && s.worker.phase.Refreshing?) then s
    else
      var t := s.worker.m.tag;
      var s' := s.(worker := s.worker.(phase := Counting));
      if ok && t < |s.ledger| then
        s'.(list := Some(s.rows), refreshedAt := |s.ledger|,
            ledger := s.ledger[t := s.ledger[t].(refreshed := true)])
      else s'
  }

  function CountMessage(s: State, ok: bool): State {
    if !(s.worker.Busy? && s.worker.phase.Counting?) then s
    else
      var t := s.worker.m.tag;
      var s' := s.(worker := s.worker.(phase := Acting));
      if ok && Readable(s.stats) && t < |s.ledger| then
        s'.(stats := UpdateRealTime(s.stats, s.worker.m.body),
            ledger := s.ledger[t := s.ledger[t].(counted := s.ledger[t].counted + 1)])
      else s'
  }

  function Execute(g: Game, r: Request): Game {
    match r.status
    case Approved => g.(whitelisted := g.whitelisted + {r.username})
    case Banned => g.(banned := g.banned + {r.username})
    case Deactivated => g.(whitelisted := g.whitelisted - {r.username})
    case _ => g
  }

  /** The effect proper: a console command, or mails to the ops. A command may take effect and still be
      reported as failed; the list of ops is attached to the row only if at least one mail was sent. */
  function ActOn(s: State, reported: bool, applied: bool, sent: seq<string>, stored: bool): State {
    if !(s.worker.Busy? && s.worker.phase.Acting?) then s
    else
      var r := s.worker.m.body;
      match r.status
      case Denied => s.(worker := s.worker.(phase := Settling(true)))
      case Pending =>
        var s' := s.(worker := s.worker.(phase := Settling(reported)),
                     mailed := s.mailed + set op | op in sent :: (r.id, op));
        if stored && sent != [] && r.id < |s.rows| then
          s'.(rows := s.rows[r.id := s.rows[r.id].(assignees := sent)])
        else s'
      case _ =>
        s.(worker := s.worker.(phase := Settling(reported)), game := if applied then Execute(s.game, r) else s.game)
  }

  function SettleMessage(s: State): State {
    if !(s.worker.Busy? && s.worker.phase.Settling?) then s
    else if s.worker.stale || s.unacked == [] then s.(worker := Idle)
    else
      s.(worker := Idle, unacked := s.unacked[1..],
         ledger := SetFate(s.ledger, s.worker.m.tag, if s.worker.phase.ack then Acked else Dead))
  }

  /** Every unacknowledged message goes back to its original place, in front of the queue. */
  function Requeue(s: State): State {
    s.(ready := s.unacked + s.ready, unacked := [],
       worker := if s.worker.Busy? then s.worker.(stale := true) else Idle)
  }

  /** The queue's time-to-live dead-letters its head. */
  function ExpireHead(s: State): State {
    if s.ready == [] then s else s.(ready := s.ready[1..], ledger := SetFate(s.ledger, s.ready[0].tag, Dead))
  }

  function CountedOnce(ledger: seq<Entry>): seq<Entry> {
    seq(|ledger|, i requires 0 <= i < |ledger| => ledger[i].(counted := 1))
  }

  /** The process dies at any point and comes up again: SyncStats recounts, the queue redelivers. */
  function RestartProcess(s: State, aggregate: AggregateStats): State {
    Requeue(s).(
      worker := Idle, list := Some(s.rows), refreshedAt := |s.ledger|,
      stats := SyncRealTime(s.stats.(aggregate := Some(aggregate)), s.rows),
      ledger := CountedOnce(s.ledger),
      skew := Recount(s.rows).deactivated - s.stats.counters.deactivated)
  }

  /** The process dies and stays down, or comes up and gives up before its sync is complete, having refreshed the
      list and stored the aggregate or not. */
  function AbortProcess(s: State, refreshed: bool, summary: Option<AggregateStats>): State {
    Requeue(s).(
      worker := Idle,
      list := if refreshed then Some(s.rows) else s.list,
      refreshedAt := if refreshed then |s.ledger| else s.refreshedAt,
      stats := if summary.Some? then s.stats.(aggregate := summary) else s.stats)
  }

  function Apply(s: State, a: Action): State {
    match a
    case Create(username, age, gender, now, published) => CreateRequest(s, username, age, gender, now, published)
    case OpPatch(id, op, status, now, later, published) =>
      if OpAllowed(s.rows, id, op) then UpdateRow(s, id, status, op, now, later, published) else s
    case AdminPatch(id, status, now, later, published) =>
      if id < |s.rows| then UpdateRow(s, id, status, "admin", now, later, published) else s
    case Deliver => DeliverHead(s)
    case Take => TakeNext(s)
    case Refresh(ok) => RefreshList(s, ok)
    case Count(ok) => CountMessage(s, ok)
    case Act(reported, applied, sent, stored) => ActOn(s, reported, applied, sent, stored)
    case Settle => SettleMessage(s)
    case ConnectionLost => Requeue(s)
    case Expire => ExpireHead(s)
    case Tick(aggregate) => s.(stats := s.stats.(aggregate := Some(aggregate)))
    case Restart(aggregate) => RestartProcess(s, aggregate)
    case Abort(refreshed, summary) => AbortProcess(s, refreshed, summary)
  }

  /** The hypotheses on a step: time does not run backwards, ops and admins send what their pages offer, and a
      command reported as issued did take effect. */
  ghost predicate Legal(s: State, a: Action) {
    match a
    case Create(_, _, _, now, _) => s.clock <= now
    case OpPatch(_, _, status, now, later, _) => Decision(status) && s.clock <= now <= later
    case AdminPatch(id, status, now, later, _) =>
      (id < |s.rows| ==> LegalTransition(s.rows[id].status, status)) && s.clock <= now <= later
    case Act(reported, applied, _, _) => reported ==> applied
    case _ => true
  }

  function Run(s: State, actions: seq<Action>): State
    decreases |actions|
  {
    if actions == [] then s else Run(Apply(s, actions[0]), actions[1..])
  }

  ghost predicate LegalRun(s: State, actions: seq<Action>)
    decreases |actions|
  {
    actions == [] || (Legal(s, actions[0]) && LegalRun(Apply(s, actions[0]), actions[1..]))
  }

  lemma {:induction false} RunConcat(s: State, a: seq<Action>, b: seq<Action>)
    ensures Run(s, a + b) == Run(Run(s, a), b)
    ensures LegalRun(s, a + b) <==> LegalRun(s, a) && LegalRun(Run(s, a), b)
    decreases |a|
  {
    if a == [] {
      assert a + b == b;
    } else {
      assert (a + b)[1..] == a[1..] + b;
      RunConcat(Apply(s, a[0]), a[1..], b);
    }
  }
}
