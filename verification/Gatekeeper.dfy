/** The running system: HTTP handlers and worker as methods over shared objects. View() is the state of module
    Pipeline, and every method is proved to take the state machine's own steps. */
module Gatekeeper {
  import opened Requests
  import opened Stats
  import opened Pipeline
  import opened Lifecycle
  import opened Delivery
  import opened OptimisticStats
  import opened Services
  import Dispatch
  import Aggregates

  predicate IsPending(r: Request) {
    r.status == Pending
  }

  predicate IsFulfilled(r: Request) {
    r.status != Pending
  }

  /** What the queries of the aggregate job select. */
  lemma QueriesSelect(rows: seq<Request>)
    requires forall i, j :: 0 <= i < j < |rows| ==> rows[i].timestamp <= rows[j].timestamp
    ensures forall r :: r in NewestFirst(rows, IsPending) <==> r in rows && r.status == Pending
    ensures forall r :: r in NewestFirst(rows, IsFulfilled) <==>
              r in rows && (r.status == Denied || r.status == Approved || r.status == Banned || r.status == Deactivated)
    ensures forall r :: r in NewestFirst(rows, All) <==> r in rows
  {
    NewestFirstSelects(rows, IsPending);
    NewestFirstSelects(rows, IsFulfilled);
    NewestFirstSelects(rows, All);
  }

  /** The cached list is stored newest first; the state machine keeps it in insertion order. */
  function OldestFirst(list: seq<Request>): seq<Request> {
    if list == [] then [] else OldestFirst(list[1..]) + [list[0]]
  }

  lemma {:induction false} OldestOfNewest(rows: seq<Request>)
    ensures OldestFirst(NewestFirst(rows, All)) == rows
  {
    if rows != [] {
      var n := |rows| - 1;
      OldestOfNewest(rows[..n]);
      var list := NewestFirst(rows, All);
      assert list == [rows[n]] + NewestFirst(rows[..n], All);
      assert list[0] == rows[n] && list[1..] == NewestFirst(rows[..n], All);
      assert rows == rows[..n] + [rows[n]];
    }
  }

  /** The outcomes of the remote calls made while the process starts. */
  datatype StartOutcomes = StartOutcomes(
    refreshOk: bool, pendingOk: bool, fulfilledOk: bool, writeOk: bool, attempts: seq<Attempt>)

  class World {
    const db: Database
    const queue: TaskQueue
    const broker: Broker
    const cache: Cache
    const game: GameServer
    var worker: Worker
    ghost var clock: real
    ghost var mailed: set<(nat, string)>
    ghost var refreshedAt: nat
    ghost var skew: int

    constructor (db: Database, queue: TaskQueue, broker: Broker, cache: Cache, game: GameServer)
      requires broker.queue == queue && cache.db == db
      ensures this.db == db && this.queue == queue && this.broker == broker && this.cache == cache && this.game == game
      ensures Valid()
    {
      this.db, this.queue, this.broker, this.cache, this.game := db, queue, broker, cache, game;
      worker := Idle;
      clock, mailed, refreshedAt, skew := 0.0, {}, 0, 0;
    }

    ghost predicate Valid() {
      broker.queue == queue && cache.db == db
    }

    ghost function View(): State
      reads this, db, queue, cache, game
    {
      State(clock, db.rows, queue.ready, queue.unacked, worker, cache.hash,
            if cache.list.Some? then Some(OldestFirst(cache.list.value)) else None,
            Game(game.whitelisted, game.banned), queue.ledger, mailed, refreshedAt, skew)
    }

    /** The periodic job: two queries, two loops, one HMSET of one field. If any call fails nothing changes. */
    method UpdateAggregateStats(now: real, pendingOk: bool, fulfilledOk: bool, writeOk: bool)
      returns (aggregate: Option<AggregateStats>)
      requires Valid()
      modifies cache
      ensures aggregate.Some? <==> pendingOk && fulfilledOk && writeOk
      ensures View() == if aggregate.Some? then Apply(old(View()), Tick(aggregate.value)) else old(View())
      ensures aggregate.Some? ==>
                Aggregates.Summarizes(aggregate.value,
                                      NewestFirst(db.rows, IsPending), NewestFirst(db.rows, IsFulfilled), now)
      ensures cache.list == old(cache.list)
    {
      if !pendingOk {
        return None;
      }
      var pending := db.GetRequests(IsPending);
      var overtime := Aggregates.CountOvertime(pending, now);
      if !fulfilledOk {
        return None;
      }
      var fulfilled := db.GetRequests(IsFulfilled);
      var performance := Aggregates.SummarizePerformance(fulfilled);
      if !writeOk {
        return None;
      }
      aggregate := Some(AggregateStats(overtime, performance));
      cache.hash, cache.version := cache.hash.(aggregate := aggregate), cache.version + 1;
    }

    /** SyncStats: refresh, aggregate, recount. */
    method SyncStats(now: real, o: StartOutcomes) returns (ok: bool, stored: bool)
      requires Valid() && |o.attempts| == MAX_RETRY
      modifies cache
      ensures ok <==> o.refreshOk && o.pendingOk && o.fulfilledOk && o.writeOk && Succeeds(o.attempts)
      ensures stored <==> o.refreshOk && o.pendingOk && o.fulfilledOk && o.writeOk && Stores(o.attempts)
      ensures cache.list == if o.refreshOk then Some(NewestFirst(db.rows, All)) else old(cache.list)
      ensures var h := old(cache.hash).(aggregate := cache.hash.aggregate);
              cache.hash == if stored then SyncRealTime(h, NewestFirst(db.rows, All)) else h
      ensures stored || Readable(old(cache.hash)) ==> Readable(cache.hash)
      ensures stored && (forall a :: a in o.attempts ==> a.beforeWatch == a.beforeExec == []) ==>
                Aggregates.Summarizes(cache.hash.aggregate.value,
                                      NewestFirst(db.rows, IsPending), NewestFirst(db.rows, IsFulfilled), now)
    {
      cache.UpdateAllRequests(o.refreshOk);
      if !o.refreshOk {
        return false, false;
      }
      var aggregate := UpdateAggregateStats(now, o.pendingOk, o.fulfilledOk, o.writeOk);
      if aggregate.None? {
        return false, false;
      }
      ok, stored := cache.SyncRealTimeStats(o.attempts);
    }

    /** A start of the process: RabbitMQ has requeued, SyncStats runs. It is the restart step, or an aborted one;
        the former also if it gives up because the reply to its last EXEC was lost. */
    method Start(now: real, o: StartOutcomes) returns (ok: bool, stored: bool)
      requires Valid() && |o.attempts| == MAX_RETRY
      modifies this, queue, cache
      ensures ok <==> o.refreshOk && o.pendingOk && o.fulfilledOk && o.writeOk && Succeeds(o.attempts)
      ensures stored <==> o.refreshOk && o.pendingOk && o.fulfilledOk && o.writeOk && Stores(o.attempts)
      ensures stored ==> Readable(cache.hash) && View() == Apply(old(View()), Restart(cache.hash.aggregate.value))
      ensures !stored ==> View() == Apply(old(View()), Abort(o.refreshOk, cache.hash.aggregate))
    {
      queue.ready, queue.unacked := queue.unacked + queue.ready, [];
      worker := Idle;
      ok, stored := SyncStats(now, o);
      OldestOfNewest(db.rows);
      SumNewestFirst(db.rows, Contribution);
      if o.refreshOk {
        refreshedAt := |queue.ledger|;
      }
      if stored {
        skew := Recount(db.rows).deactivated - old(cache.hash.counters.deactivated);
        queue.ledger := CountedOnce(queue.ledger);
      }
    }

    /** The connection to RabbitMQ is lost: what was unacknowledged goes back in front of the queue. */
    method LoseConnection()
      modifies this, queue
      ensures View() == Apply(old(View()), ConnectionLost)
    {
      queue.ready, queue.unacked := queue.unacked + queue.ready, [];
      if worker.Busy? {
        worker := worker.(stale := true);
      }
    }

    /** The queue pushes its head to the consumer. */
    method DeliverNext()
      modifies queue
      ensures View() == Apply(old(View()), Deliver)
    {
      if queue.ready != [] {
        queue.unacked, queue.ready := queue.unacked + [queue.ready[0]], queue.ready[1..];
      }
    }
  }

  // ----- handler.external.go, handler.internal.go, common.go -----

  /** The HTTP status that answers an application blocked by a request in this status. */
  function CodeFor(status: Status): int {
    match status
    case Approved => 409
    case Pending => 422
    case Banned => 403
    case _ => 200
  }

  /** The answers a refused applicant gets. */
  predicate Refuses(code: int, status: Status) {
    (code == 409 && status == Approved) || (code == 422 && status == Pending) || (code == 403 && status == Banned)
  }

  /** Which blocking request comes first does not matter: with one active request per name there is only one. */
  lemma CodeIsDetermined(rows: seq<Request>, i: nat, j: nat, username: string)
    requires OneActive(rows) && i < |rows| && j < |rows|
    requires Blocks(rows[i], username) && Blocks(rows[j], username)
    ensures i == j && CodeFor(rows[i].status) == CodeFor(rows[j].status) != 200
  {
    assert Active(rows[i].status) && Active(rows[j].status);
  }

  datatype Application = Application(username: string, age: int, gender: string)

  class Server {
    const world: World

    constructor (world: World)
      ensures this.world == world
    {
      this.world := world;
    }

    /** 200 exactly if no pending, approved or banned request has the name; otherwise the code of one that has. */
    method ValidateCreateRequest(username: string, lookupOk: bool) returns (code: int)
      ensures !lookupOk ==> code == 500
      ensures lookupOk ==> (code == 200 <==> !Blocked(world.db.rows, username))
      ensures code == 200 ==> forall r :: r in world.db.rows && r.username == username ==>
                r.status != Pending && r.status != Approved && r.status != Banned
      ensures lookupOk && code != 200 ==>
                exists i :: 0 <= i < |world.db.rows| && world.db.rows[i].username == username
                            && Refuses(code, world.db.rows[i].status)
    {
      if !lookupOk {
        return 500;
      }
      var filter := (r: Request) => Blocks(r, username);
      var found := world.db.GetRequests(filter);
      BlockedMeansFound(world.db.rows, username, filter);
      if |found| > 0 {
        assert found[0] in found;
        return CodeFor(found[0].status);
      }
      return 200;
    }

    /** 201 and one step of the state machine, or an error: 500 with the row stored but its message unpublished,
        and every other error with nothing changed. */
    method HandleCreateRequest(body: Option<Application>, now: real, lookupOk: bool, insertOk: bool,
                               attempts: seq<bool>)
      returns (code: int)
      requires world.Valid() && |attempts| == PUBLISH_ATTEMPTS
      modifies world, world.db, world.queue
      ensures (body.None? || !lookupOk || !insertOk || Blocked(old(world.db.rows), body.value.username)) ==>
                world.View() == old(world.View()) && code != 201
      ensures body.Some? && lookupOk && insertOk ==>
                world.View() == Apply(old(world.View()), Create(body.value.username, body.value.age, body.value.gender,
                                                                now, Published(attempts)))
      ensures code == 201 <==> body.Some? && lookupOk && insertOk && Published(attempts)
                               && !Blocked(old(world.db.rows), body.value.username)
      ensures code != 201 ==>
                if body.Some? && lookupOk && Blocked(old(world.db.rows), body.value.username) then
                  exists i :: 0 <= i < |world.db.rows| && world.db.rows[i].username == body.value.username
                              && Refuses(code, world.db.rows[i].status)
                else code == 500
      ensures body.Some? && lookupOk && insertOk && !Blocked(old(world.db.rows), body.value.username) ==>
                var a, id := body.value, |old(world.db.rows)|;
                && world.db.rows
                   == old(world.db.rows) + [Request(id, a.username, a.age, a.gender, Pending, now, 0.0, 0.0, "", [])]
                && world.queue.ready
                   == old(world.queue.ready)
                      + if Published(attempts)
                        then [Message(|old(world.queue.ledger)|,
                                      Request(id, a.username, a.age, a.gender, Pending, 0.0, 0.0, 0.0, "", []))]
                        else []
    {
      if body.None? {
        return 500;
      }
      var a := body.value;
      code := ValidateCreateRequest(a.username, lookupOk);
      if code != 200 {
        return code;
      }
      if !insertOk {
        return 500;
      }
      var newRequest := NewRequest(0, a.username, a.age, a.gender, NO_TIME);
      var id := world.db.CreateRequest(newRequest, now);
      newRequest := newRequest.(id := id, status := Pending);
      world.clock := now;
      var ok := world.broker.Publish(newRequest, attempts);
      return if ok then 201 else 500;
    }

    /** The stored row becomes its patched form, and the post-image is what is published. */
    method UpdateRequestByID(id: nat, status: Status, admin: string, now: real, later: real, updateOk: bool,
                             attempts: seq<bool>)
      returns (code: int)
      requires world.Valid() && id < |world.db.rows| && |attempts| == PUBLISH_ATTEMPTS
      modifies world, world.db, world.queue
      ensures world.View() ==
                if updateOk then UpdateRow(old(world.View()), id, status, admin, now, later, Published(attempts))
                else old(world.View())
      ensures code == if updateOk && Published(attempts) then 200 else 500
      ensures updateOk ==>
                && world.db.rows == old(world.db.rows)[id := world.db.rows[id]]
                && Transition(old(world.db.rows)[id], world.db.rows[id], status, admin, now, later)
                && world.queue.ready
                   == old(world.queue.ready)
                      + if Published(attempts) then [Message(|old(world.queue.ledger)|, world.db.rows[id])] else []
      ensures !updateOk ==> world.db.rows == old(world.db.rows) && world.queue.ready == old(world.queue.ready)
    {
      var change := world.db.rows[id].(admin := admin, status := status);
      if status == Approved || status == Denied {
        change := change.(processed := now, lastUpdated := later);
      } else if status == Deactivated || status == Banned {
        change := change.(lastUpdated := later);
      }
      if !updateOk {
        return 500;
      }
      var updated := world.db.UpdateRequest(id, change);
      world.clock := later;
      var ok := world.broker.Publish(updated, attempts);
      return if ok then 200 else 500;
    }

    /** The tokens match if both decode, the request is found, and the op is among its assignees. */
    method VerifyMatchingTokens(id: Option<nat>, op: Option<string>, lookupOk: bool) returns (ok: bool)
      ensures ok <==> op.Some? && id.Some? && lookupOk
                      && id.value < |world.db.rows| && op.value in world.db.rows[id.value].assignees
    {
      if op.None? || id.None? || !lookupOk || id.value >= |world.db.rows| {
        return false;
      }
      var assignees := world.db.rows[id.value].assignees;
      for i := 0 to |assignees|
        invariant op.value !in assignees[..i]
      {
        if assignees[i] == op.value {
          return true;
        }
      }
      assert assignees[..|assignees|] == assignees;
      return false;
    }

    /** An op's decision is one step; without both tokens, or on a fulfilled request, the answer is 400 and the
        state machine's guard makes the same step a no-op. */
    method HandlePatchRequestByID(id: Option<nat>, op: Option<string>, status: Status, now: real, later: real,
                                  lookupOk: bool, updateOk: bool, attempts: seq<bool>)
      returns (code: int)
      requires world.Valid() && |attempts| == PUBLISH_ATTEMPTS
      modifies world, world.db, world.queue
      ensures id.None? || op.None? || !lookupOk ==> code == 400 && world.View() == old(world.View())
      ensures id.Some? && op.Some? && lookupOk ==>
                && (code != 400 <==> && id.value < |old(world.db.rows)|
                                     && op.value in old(world.db.rows)[id.value].assignees
                                     && old(world.db.rows)[id.value].status == Pending)
                && (code != 400 && updateOk ==>
                      |world.db.rows| == |old(world.db.rows)| &&
                      Transition(old(world.db.rows)[id.value], world.db.rows[id.value], status, op.value, now, later))
                && (code != 400 ==> code == if updateOk && Published(attempts) then 200 else 500)
                && var step := OpPatch(id.value, op.value, status, now, later, Published(attempts));
                   world.View() == if updateOk then Apply(old(world.View()), step) else old(world.View())
    {
      var ok := VerifyMatchingTokens(id, op, lookupOk);
      if !ok {
        return 400;
      }
      if world.db.rows[id.value].status != Pending {
        return 400;
      }
      code := UpdateRequestByID(id.value, status, op.value, now, later, updateOk, attempts);
    }

    /** An admin's patch checks only that the request exists. */
    method HandleInternalPatchRequestByID(id: nat, status: Status, now: real, later: real,
                                          lookupOk: bool, updateOk: bool, attempts: seq<bool>)
      returns (code: int)
      requires world.Valid() && |attempts| == PUBLISH_ATTEMPTS
      modifies world, world.db, world.queue
      ensures code == if !lookupOk then 500 else if id >= |old(world.db.rows)| then 400
                      else if updateOk && Published(attempts) then 200 else 500
      ensures lookupOk && id < |old(world.db.rows)| && updateOk ==>
                |world.db.rows| == |old(world.db.rows)| &&
                Transition(old(world.db.rows)[id], world.db.rows[id], status, "admin", now, later)
      ensures var step := AdminPatch(id, status, now, later, Published(attempts));
              world.View() == if lookupOk && updateOk then Apply(old(world.View()), step) else old(world.View())
    {
      if !lookupOk {
        return 500;
      }
      if id >= |world.db.rows| {
        return 400;
      }
      code := UpdateRequestByID(id, status, "admin", now, later, updateOk, attempts);
    }

    /** The cached list if there is one to read, otherwise the rows themselves; None is the answer 500. */
    method HandleGetRequests(cacheOk: bool, lookupOk: bool) returns (requests: Option<seq<Request>>)
      ensures requests.None? <==> !(cacheOk && world.View().list.Some?) && !lookupOk
      ensures requests.Some? ==>
                requests.value == if cacheOk && world.cache.list.Some? then world.cache.list.value
                                  else NewestFirst(world.db.rows, All)
      ensures requests.Some? ==>
                OldestFirst(requests.value) ==
                  if cacheOk && world.View().list.Some? then world.View().list.value else world.View().rows
    {
      if cacheOk && world.cache.list.Some? {
        return world.cache.list;
      }
      if !lookupOk {
        return None;
      }
      var rows := world.db.GetRequests(All);
      requests := Some(rows);
      OldestOfNewest(world.db.rows);
    }
  }

  // ----- worker.go -----

  /** The outcomes of the remote calls made while one message is processed. */
  datatype Outcomes = Outcomes(
    refreshOk: bool, attempts: seq<Attempt>, applied: bool, reported: bool,
    picks: seq<nat>, mails: seq<Dispatch.Mail>, requestTokenOk: bool, stored: bool)

  lemma RunSnoc(s: State, actions: seq<Action>, a: Action)
    ensures Run(s, actions + [a]) == Apply(Run(s, actions), a)
    ensures LegalRun(s, actions + [a]) <==> LegalRun(s, actions) && Legal(Run(s, actions), a)
  {
    RunConcat(s, actions, [a]);
    assert Run(Run(s, actions), [a]) == Apply(Run(s, actions), a);
  }

  /** The aggregate job's writes during an update, as the one step they amount to. */
  ghost function TicksFor(h: Hash, written: Option<AggregateStats>): (ticks: seq<Action>)
    ensures |ticks| <= 1 && forall a :: a in ticks ==> a.Tick?
  {
    if written.None? || written == h.aggregate then [] else [Tick(written.value)]
  }

  /** The worker is done with the statistics, successfully or not. */
  ghost function Noted(s: State, ok: bool): State
    requires s.worker.Busy? && s.worker.m.tag < |s.ledger|
  {
    var t := s.worker.m.tag;
    s.(worker := s.worker.(phase := Acting),
       ledger := if ok then s.ledger[t := s.ledger[t].(counted := s.ledger[t].counted + 1)] else s.ledger)
  }

  /** One update of the counters or none, and a readable hash stays so. */
  ghost predicate IsUpdate(h: Hash, r: Request, ok: bool, h': Hash) {
    && h' == (if ok then UpdateRealTime(h, r) else h).(aggregate := h'.aggregate)
    && (ok || Readable(h) ==> Readable(h'))
  }

  lemma TicksLeadTo(s: State, aggregate: Option<AggregateStats>)
    requires Readable(s.stats) ==> aggregate.Some?
    ensures Run(s, TicksFor(s.stats, aggregate)) == s.(stats := s.stats.(aggregate := aggregate))
  {
    var ticks := TicksFor(s.stats, aggregate);
    if ticks != [] {
      assert Run(s, ticks) == Apply(s, ticks[0]);
    }
  }

  lemma CountIsNoted(s: State, ok: bool, h: Hash)
    requires s.worker.Busy? && s.worker.phase == Counting && s.worker.m.tag < |s.ledger|
    requires h == if ok then UpdateRealTime(s.stats, s.worker.m.body) else s.stats
    requires ok ==> Readable(s.stats)
    ensures Apply(s, Count(ok)) == Noted(s, ok).(stats := h)
  {
  }

  lemma CountAfterTicks(s: State, ok: bool, h: Hash)
    requires s.worker.Busy? && s.worker.phase == Counting && s.worker.m.tag < |s.ledger|
    requires IsUpdate(s.stats, s.worker.m.body, ok, h)
    ensures Apply(Run(s, TicksFor(s.stats, h.aggregate)), Count(ok)) == Noted(s, ok).(stats := h)
  {
    var s1 := s.(stats := s.stats.(aggregate := h.aggregate));
    TicksLeadTo(s, h.aggregate);
    AggregateIsApart(s.stats, h.aggregate, s.worker.m.body);
    CountIsNoted(s1, ok, h);
  }

  /** What a console command does to the two lists, if it takes effect at all. */
  ghost predicate Commanded(r: Request, applied: bool, g: Game, g': Game) {
    && g'.whitelisted == (if applied && r.status == Approved then g.whitelisted + {r.username}
                          else if applied && r.status == Deactivated then g.whitelisted - {r.username}
                          else g.whitelisted)
    && g'.banned == if applied && r.status == Banned then g.banned + {r.username} else g.banned
  }

  /** The mails for r went out and its row says who was reached. */
  ghost predicate Dispatched(r: Request, o: Outcomes, targets: seq<string>, rows: seq<Request>, rows': seq<Request>,
                             mailed: set<(nat, string)>, mailed': set<(nat, string)>)
    requires |targets| == |o.mails| && r.id < |rows|
  {
    var sent := Dispatch.SentTo(targets, o.mails);
    && rows' == (if o.stored && o.requestTokenOk && Dispatch.NoToken !in o.mails && sent != []
                 then rows[r.id := rows[r.id].(assignees := sent)] else rows)
    && mailed' == mailed + if o.requestTokenOk then set op | op in MailedTo(targets, o.mails) :: (r.id, op) else {}
  }

  /** The message is done with, for good or ill, going by the outcomes alone. */
  ghost predicate Accepted(r: Request, o: Outcomes, targets: seq<string>, quorum: int)
    requires |targets| == |o.mails|
  {
    match r.status
    case Denied => true
    case Pending =>
      o.requestTokenOk && Dispatch.NoToken !in o.mails && |Dispatch.SentTo(targets, o.mails)| >= quorum
    case _ => o.reported
  }

  /** Only what the message's status calls for has happened. */
  ghost predicate HasActed(r: Request, o: Outcomes, targets: seq<string>, s: State, s': State)
    requires |targets| == |o.mails| && r.id < |s.rows|
  {
    && (if r.status == Pending then Dispatched(r, o, targets, s.rows, s'.rows, s.mailed, s'.mailed)
        else s'.rows == s.rows && s'.mailed == s.mailed)
    && Commanded(r, o.applied, s.game, s'.game)
  }

  /** The action a message calls for: a denial is settled as it is, a new request is mailed to the ops chosen,
      anything else is a console command. */
  ghost function ActionWith(r: Request, o: Outcomes, targets: seq<string>, quorum: int): Action
    requires |targets| == |o.mails|
  {
    match r.status
    case Denied => Act(true, true, [], false)
    case Pending =>
      var sent := if o.requestTokenOk then MailedTo(targets, o.mails) else [];
      var complete := o.requestTokenOk && Dispatch.NoToken !in o.mails;
      Act(complete && |sent| >= quorum, complete && |sent| >= quorum, sent, o.stored && complete && sent != [])
    case _ => Act(o.reported, o.applied, [], false)
  }

  lemma MailingIsRight(s: State, o: Outcomes, targets: seq<string>, quorum: int)
    requires |targets| == |o.mails| && s.worker.Busy? && s.worker.phase == Acting
    requires s.worker.m.body.status == Pending && s.worker.m.body.id < |s.rows|
    ensures var act := ActionWith(s.worker.m.body, o, targets, quorum);
            && (act.reported <==> Accepted(s.worker.m.body, o, targets, quorum))
            && Dispatched(s.worker.m.body, o, targets, s.rows, Apply(s, act).rows, s.mailed, Apply(s, act).mailed)
            && Apply(s, act).game == s.game
  {
    if o.requestTokenOk && Dispatch.NoToken !in o.mails {
      MailedToAll(targets, o.mails);
    }
  }

  lemma CommandIsRight(s: State, o: Outcomes, targets: seq<string>, quorum: int)
    requires |targets| == |o.mails| && s.worker.Busy? && s.worker.phase == Acting
    requires s.worker.m.body.status != Pending
    ensures var act := ActionWith(s.worker.m.body, o, targets, quorum);
            && (act.reported <==> Accepted(s.worker.m.body, o, targets, quorum))
            && Apply(s, act).rows == s.rows && Apply(s, act).mailed == s.mailed
            && Commanded(s.worker.m.body, o.applied, s.game, Apply(s, act).game)
  {
  }

  /** It has the effects the outcomes call for, and no other. */
  lemma ActionIsRight(s: State, o: Outcomes, targets: seq<string>, quorum: int)
    requires |targets| == |o.mails| && s.worker.Busy? && s.worker.phase == Acting && s.worker.m.body.id < |s.rows|
    ensures var r := s.worker.m.body;
            var act := ActionWith(r, o, targets, quorum);
            && (act.reported <==> Accepted(r, o, targets, quorum))
            && HasActed(r, o, targets, s, Apply(s, act))
  {
    if s.worker.m.body.status == Pending {
      MailingIsRight(s, o, targets, quorum);
    } else {
      CommandIsRight(s, o, targets, quorum);
    }
  }

  class QueueWorker {
    const world: World
    const ops: array<string>
    const strategy: Dispatch.Strategy
    const threshold: int
    const quorum: int

    /** The configuration is validated at start; a random threshold beyond the number of ops is refused there. */
    constructor (world: World, ops: array<string>, strategy: Dispatch.Strategy, threshold: int, quorum: int)
      requires strategy == Dispatch.Random ==> 0 <= threshold <= ops.Length
      ensures this.world == world && this.ops == ops && Configured()
    {
      this.world, this.ops, this.strategy, this.threshold, this.quorum := world, ops, strategy, threshold, quorum;
    }

    ghost predicate Configured() {
      strategy == Dispatch.Random ==> 0 <= threshold <= ops.Length
    }

    ghost predicate Ready()
      reads world, world.db, world.queue, world.cache, world.game
    {
      world.Valid() && DeliveryOk(world.View())
    }

    method RefreshList(ok: bool)
      requires Ready() && world.worker.Busy? && world.worker.phase == Refreshing
      modifies world, world.cache, world.queue
      ensures world.View() == Apply(old(world.View()), Refresh(ok))
      ensures world.cache.list == if ok then Some(NewestFirst(world.db.rows, All)) else old(world.cache.list)
      ensures world.cache.hash == old(world.cache.hash) && world.mailed == old(world.mailed)
    {
      world.cache.UpdateAllRequests(ok);
      OldestOfNewest(world.db.rows);
      var t := world.worker.m.tag;
      world.worker := world.worker.(phase := Counting);
      if ok {
        world.refreshedAt := |world.queue.ledger|;
        world.queue.ledger := world.queue.ledger[t := world.queue.ledger[t].(refreshed := true)];
      }
    }

    /** The statistics update, with the aggregate job's writes in between counted as a step of their own. */
    method CountMessage(attempts: seq<Attempt>) returns (stored: bool, ghost ticks: seq<Action>)
      requires Ready() && world.worker.Busy? && world.worker.phase == Counting && |attempts| == MAX_RETRY
      modifies world, world.cache, world.queue
      ensures |ticks| <= 1 && forall a :: a in ticks ==> a.Tick?
      ensures stored <==> Readable(old(world.cache.hash)) && Stores(attempts)
      ensures world.View() == Apply(Run(old(world.View()), ticks), Count(stored))
      ensures world.cache.hash.counters ==
                if stored then old(world.cache.hash.counters).Plus(Delta(old(world.worker.m.body)))
                else old(world.cache.hash.counters)
      ensures world.cache.list == old(world.cache.list) && world.mailed == old(world.mailed)
    {
      ghost var before := world.View();
      stored := UpdateStats(attempts);
      NoteCount(stored);
      UpdateAddsDelta(before.stats, before.worker.m.body);
      ticks := TicksFor(before.stats, world.cache.hash.aggregate);
      CountAfterTicks(before, stored, world.cache.hash);
    }

    /** The worker only logs whether the update succeeded; what matters is whether it was stored. */
    method UpdateStats(attempts: seq<Attempt>) returns (stored: bool)
      requires Ready() && world.worker.Busy? && |attempts| == MAX_RETRY
      modifies world.cache
      ensures stored <==> Readable(old(world.cache.hash)) && Stores(attempts)
      ensures world.View() == old(world.View()).(stats := world.cache.hash)
      ensures IsUpdate(old(world.cache.hash), world.worker.m.body, stored, world.cache.hash)
      ensures world.cache.list == old(world.cache.list)
    {
      var ok;
      ghost var events;
      ok, stored, events := world.cache.UpdateRealTimeStats(world.worker.m.body, attempts);
    }

    method NoteCount(ok: bool)
      requires Ready() && world.worker.Busy? && world.worker.m.tag < |world.queue.ledger|
      modifies world, world.queue
      ensures world.View() == Noted(old(world.View()), ok) && world.mailed == old(world.mailed)
    {
      var t := world.worker.m.tag;
      if ok {
        var e := world.queue.ledger[t];
        world.queue.ledger := world.queue.ledger[t := e.(counted := e.counted + 1)];
      }
      world.worker := world.worker.(phase := Acting);
    }

    /** Carrying out an approval, a ban or a deactivation on the game server. */
    method IssueCommand(applied: bool, reported: bool)
      requires Ready() && world.worker.Busy? && world.worker.phase == Acting
      requires world.worker.m.body.status in {Approved, Banned, Deactivated}
      modifies world, world.game
      ensures world.View() == Apply(old(world.View()), Act(reported, applied, [], false))
      ensures Commanded(world.worker.m.body, applied, old(Game(world.game.whitelisted, world.game.banned)),
                        Game(world.game.whitelisted, world.game.banned))
      ensures world.mailed == old(world.mailed)
    {
      ghost var before := Game(world.game.whitelisted, world.game.banned);
      if applied {
        world.game.Console(world.worker.m.body);
        ConsoleExecutes(before, Game(world.game.whitelisted, world.game.banned), world.worker.m.body);
      }
      world.worker := world.worker.(phase := Settling(reported));
    }

    /** The mails are on record, and the ops reached are attached to the row if that is to happen. */
    method FinishDispatch(ok: bool, sent: seq<string>, attach: bool)
      requires Ready() && world.worker.Busy? && world.worker.phase == Acting
      requires world.worker.m.body.status == Pending && world.worker.m.body.id < |world.db.rows|
      modifies world, world.db
      ensures world.View() == Apply(old(world.View()), Act(ok, ok, sent, attach))
      ensures world.db.rows == var r := world.worker.m.body;
                               if attach && sent != []
                               then old(world.db.rows)[r.id := old(world.db.rows)[r.id].(assignees := sent)]
                               else old(world.db.rows)
      ensures world.mailed == old(world.mailed) + set op | op in sent :: (world.worker.m.body.id, op)
    {
      var id := world.worker.m.body.id;
      world.mailed := world.mailed + set op | op in sent :: (id, op);
      if attach && sent != [] {
        var _ := world.db.UpdateRequest(id, world.db.rows[id].(assignees := sent));
      }
      world.worker := world.worker.(phase := Settling(ok));
    }

    /** The ops the next new request is mailed to. */
    ghost function Targets(o: Outcomes): (targets: seq<string>)
      requires Configured() && Matches(o)
      reads ops
      ensures |targets| == |o.mails|
    {
      Dispatch.TargetOps(ops[..], strategy, threshold, o.picks).value
    }

    ghost function ActionFor(r: Request, o: Outcomes): Action
      requires Configured() && Matches(o)
      reads ops
    {
      ActionWith(r, o, Targets(o), quorum)
    }

    /** Mailing the ops of a new request, and attaching those reached to its row. */
    method DispatchRequest(o: Outcomes) returns (ok: bool)
      requires Ready() && Configured() && world.worker.Busy? && world.worker.phase == Acting
      requires world.worker.m.body.status == Pending && world.worker.m.body.id < |world.db.rows|
      requires Matches(o)
      modifies world, world.db, ops
      ensures var act := old(ActionFor(world.worker.m.body, o));
              ok == act.reported && world.View() == Apply(old(world.View()), act)
      ensures ok <==> Accepted(world.worker.m.body, o, old(Targets(o)), quorum)
      ensures Dispatched(world.worker.m.body, o, old(Targets(o)),
                         old(world.db.rows), world.db.rows, old(world.mailed), world.mailed)
      ensures ops[..] == if !o.requestTokenOk || strategy == Dispatch.Broadcast then old(ops[..])
                         else Dispatch.Shuffled(old(ops[..]), o.picks)
    {
      var sent, attach;
      ok, sent, attach := MailOps(world.worker.m.body, o);
      FinishDispatch(ok, sent, attach);
    }

    /** The mails, and what is to be done about them. */
    method MailOps(ghost r: Request, o: Outcomes) returns (ok: bool, sent: seq<string>, attach: bool)
      requires Configured() && Matches(o) && r.status == Pending
      modifies ops
      ensures Act(ok, ok, sent, attach) == old(ActionFor(r, o))
      ensures ok <==> Accepted(r, o, old(Targets(o)), quorum)
      ensures sent == if o.requestTokenOk then MailedTo(old(Targets(o)), o.mails) else []
      ensures attach <==> o.stored && o.requestTokenOk && Dispatch.NoToken !in o.mails && sent != []
      ensures o.requestTokenOk && Dispatch.NoToken !in o.mails ==> sent == Dispatch.SentTo(old(Targets(o)), o.mails)
      ensures ops[..] == if !o.requestTokenOk || strategy == Dispatch.Broadcast then old(ops[..])
                         else Dispatch.Shuffled(old(ops[..]), o.picks)
    {
      if !o.requestTokenOk {
        return false, [], false;
      }
      var targets := Dispatch.GetTargetOps(ops, strategy, threshold, o.picks);
      var outcome := Dispatch.EmailToOps(targets.value, o.mails, quorum);
      if Dispatch.NoToken !in o.mails {
        MailedToAll(targets.value, o.mails);
      }
      ok, sent, attach := !outcome.failed, MailedTo(targets.value, o.mails), o.stored && outcome.stored.Some?;
    }

    /** Acknowledging, or rejecting into the dead-letter queue. */
    method SettleDelivery(ack: bool)
      requires Ready() && world.worker.Busy? && world.worker.phase == Settling(ack) && !world.worker.stale
      modifies world, world.queue
      ensures world.View() == Apply(old(world.View()), Settle)
      ensures var t := old(world.worker.m.tag);
              t < |world.queue.ledger| && world.queue.ledger[t].fate == if ack then Acked else Dead
      ensures world.mailed == old(world.mailed)
    {
      world.queue.ledger := SetFate(world.queue.ledger, world.worker.m.tag, if ack then Acked else Dead);
      world.queue.unacked := world.queue.unacked[1..];
      world.worker := Idle;
    }

    /** One random pick per swap of the shuffle, and one mail outcome per op to be mailed. */
    ghost predicate Matches(o: Outcomes) {
      && |o.attempts| == MAX_RETRY
      && (|o.picks| + 1 == ops.Length || ops.Length == 0 == |o.picks|)
      && |o.mails| == if strategy == Dispatch.Broadcast then ops.Length else threshold
    }

    method TakeDelivery(refreshOk: bool)
      requires Ready() && world.worker.Idle? && world.queue.unacked != []
      modifies world, world.queue, world.cache
      ensures world.View() == Apply(Apply(old(world.View()), Take), Refresh(refreshOk))
      ensures world.cache.list == if refreshOk then Some(NewestFirst(world.db.rows, All)) else old(world.cache.list)
      ensures world.cache.hash == old(world.cache.hash) && world.mailed == old(world.mailed)
      ensures Ready() && world.worker == Busy(old(world.queue.unacked)[0], false, Counting)
    {
      ghost var start := world.View();
      assert Outstanding(start)[0] == world.queue.unacked[0];
      world.worker := Busy(world.queue.unacked[0], false, Refreshing);
      DeliveryOkStep(start, Take);
      assert world.View() == Apply(start, Take);
      RefreshList(refreshOk);
      DeliveryOkStep(Apply(start, Take), Refresh(refreshOk));
    }

    /** The first half of a turn: take the delivery, refresh the list, update the counters. */
    method Receive(o: Outcomes) returns (ghost ticks: seq<Action>)
      requires Ready() && world.worker.Idle? && world.queue.unacked != [] && Matches(o)
      modifies world, world.queue, world.cache
      ensures |ticks| <= 1 && forall a :: a in ticks ==> a.Tick?
      ensures IsReceipt(old(world.View()), o.refreshOk, ticks, Readable(old(world.cache.hash)) && Stores(o.attempts),
                        world.View())
      ensures Ready() && world.worker == Busy(old(world.queue.unacked)[0], false, Acting)
      ensures world.queue.unacked == old(world.queue.unacked) && world.queue.ready == old(world.queue.ready)
      ensures world.cache.list == if o.refreshOk then Some(NewestFirst(world.db.rows, All)) else old(world.cache.list)
      ensures world.cache.hash.counters ==
                if old(world.cache.hash).aggregate.Some? && Stores(o.attempts)
                then old(world.cache.hash.counters).Plus(Delta(old(world.queue.unacked)[0].body))
                else old(world.cache.hash.counters)
      ensures world.mailed == old(world.mailed)
    {
      ghost var start := world.View();
      TakeDelivery(o.refreshOk);
      var stored;
      stored, ticks := CountDelivery(o.attempts);
      ReceiveRun(start, o.refreshOk, ticks, stored);
    }

    /** Counting, as a legal run that leaves the message in hand. */
    method CountDelivery(attempts: seq<Attempt>) returns (stored: bool, ghost ticks: seq<Action>)
      requires Ready() && world.worker.Busy? && world.worker.phase == Counting && |attempts| == MAX_RETRY
      modifies world, world.cache, world.queue
      ensures |ticks| <= 1 && forall a :: a in ticks ==> a.Tick?
      ensures stored <==> Readable(old(world.cache.hash)) && Stores(attempts)
      ensures world.View() == Apply(Run(old(world.View()), ticks), Count(stored)) && LegalRun(old(world.View()), ticks)
      ensures Ready() && world.worker == old(world.worker).(phase := Acting)
      ensures world.queue.unacked == old(world.queue.unacked) && world.queue.ready == old(world.queue.ready)
      ensures world.cache.hash.counters ==
                if stored then old(world.cache.hash.counters).Plus(Delta(old(world.worker.m.body)))
                else old(world.cache.hash.counters)
      ensures world.cache.list == old(world.cache.list) && world.mailed == old(world.mailed)
    {
      ghost var before := world.View();
      stored, ticks := CountMessage(attempts);
      TicksAreHarmless(before, ticks);
      DeliveryOkStep(Run(before, ticks), Count(stored));
    }

    /** A denial needs nothing done. */
    method AcceptDenial()
      requires Ready() && world.worker.Busy? && world.worker.phase == Acting
      requires world.worker.m.body.status == Denied
      modifies world
      ensures world.View() == Apply(old(world.View()), Act(true, true, [], false))
      ensures world.mailed == old(world.mailed)
    {
      world.worker := world.worker.(phase := Settling(true));
    }

    /** Acting on the message as its status demands. */
    method ActOnMessage(o: Outcomes) returns (ok: bool)
      requires Ready() && Configured() && Matches(o)
      requires world.worker.Busy? && world.worker.phase == Acting
      requires world.worker.m.body.id < |world.db.rows|
      modifies world, world.db, world.game, ops
      ensures var act := old(ActionFor(world.worker.m.body, o));
              ok == act.reported && world.View() == Apply(old(world.View()), act)
    {
      match world.worker.m.body.status {
        case Denied =>
          ok := true;
          AcceptDenial();
        case Pending => ok := DispatchRequest(o);
        case _ =>
          ok := o.reported;
          IssueCommand(o.applied, o.reported);
      }
    }

    /** The second half: act on the message and settle it. */
    method ActAndSettle(o: Outcomes) returns (ghost act: Action)
      requires Ready() && Configured() && Matches(o)
      requires world.worker.Busy? && world.worker.phase == Acting && !world.worker.stale
      requires world.worker.m.body.id < |world.db.rows|
      modifies world, world.db, world.queue, world.game, ops
      ensures act == old(ActionFor(world.worker.m.body, o))
      ensures world.View() == Apply(Apply(old(world.View()), act), Settle)
      ensures var m, targets := old(world.worker.m), old(Targets(o));
              && HasActed(m.body, o, targets, old(world.View()), world.View())
              && m.tag < |world.queue.ledger|
              && world.queue.ledger[m.tag].fate == if Accepted(m.body, o, targets, quorum) then Acked else Dead
    {
      ghost var start := world.View();
      act := ActionFor(world.worker.m.body, o);
      ActionIsRight(start, o, Targets(o), quorum);
      var ok := ActOnMessage(o);
      DeliveryOkStep(start, act);
      ActedMeansSettling(start, act);
      SettleDelivery(ok);
    }

    /** The two halves together. */
    method TakeTurn(o: Outcomes) returns (ghost ticks: seq<Action>)
      requires Ready() && Configured() && Matches(o) && (o.reported ==> o.applied)
      requires world.worker.Idle? && world.queue.unacked != []
      requires world.queue.unacked[0].body.id < |world.db.rows|
      modifies world, world.db, world.queue, world.cache, world.game, ops
      ensures |ticks| <= 1 && forall a :: a in ticks ==> a.Tick?
      ensures var counted := Readable(old(world.cache.hash)) && Stores(o.attempts);
              IsTurn(old(world.View()), o.refreshOk, ticks, counted, old(ActionFor(world.queue.unacked[0].body, o)),
                     world.View())
      ensures var m, targets := old(world.queue.unacked)[0], old(Targets(o));
              && HasActed(m.body, o, targets, old(world.View()), world.View())
              && m.tag < |world.queue.ledger|
              && world.queue.ledger[m.tag].fate == if Accepted(m.body, o, targets, quorum) then Acked else Dead
      ensures world.cache.list
           == if o.refreshOk then Some(NewestFirst(old(world.db.rows), All)) else old(world.cache.list)
      ensures world.cache.hash.counters
           == if old(world.cache.hash).aggregate.Some? && Stores(o.attempts)
              then old(world.cache.hash.counters).Plus(Delta(old(world.queue.unacked)[0].body))
              else old(world.cache.hash.counters)
    {
      ghost var start := world.View();
      ticks := Receive(o);
      ghost var middle := world.View();
      ghost var act := ActionFor(start.unacked[0].body, o);
      ghost var _ := ActAndSettle(o);
      TurnEnds(start, o.refreshOk, ticks, Readable(start.stats) && Stores(o.attempts), middle, act);
    }

    /** One turn of the worker loop on a delivery. Whatever fails on the way, the turn is exactly this run of the
        state machine, up to the aggregate job's writes in between: it settles the oldest unacknowledged message,
        acknowledged if the command was reported as issued, a quorum of ops was reached, or it was a denial. */
    method ProcessDelivery(o: Outcomes) returns (ghost ticks: seq<Action>)
      requires Ready() && Configured() && Matches(o) && (o.reported ==> o.applied)
      requires world.worker.Idle? && world.queue.unacked != []
      requires world.queue.unacked[0].body.id < |world.db.rows|
      modifies world, world.db, world.queue, world.cache, world.game, ops
      ensures |ticks| <= 1 && forall a :: a in ticks ==> a.Tick?
      ensures var counted := Readable(old(world.cache.hash)) && Stores(o.attempts);
              IsTurn(old(world.View()), o.refreshOk, ticks, counted, old(ActionFor(world.queue.unacked[0].body, o)),
                     world.View())
      ensures var m, targets := old(world.queue.unacked)[0], old(Targets(o));
              var sent := Dispatch.SentTo(targets, o.mails);
              && m.tag < |world.queue.ledger|
              && world.queue.ledger[m.tag].fate
                 == (if match m.body.status
                        case Pending => o.requestTokenOk && Dispatch.NoToken !in o.mails && |sent| >= quorum
                        case Denied => true
                        case _ => o.reported
                     then Acked else Dead)
              && world.db.rows
                 == (if m.body.status == Pending && o.stored && o.requestTokenOk
                        && Dispatch.NoToken !in o.mails && sent != []
                     then old(world.db.rows)[m.body.id := old(world.db.rows)[m.body.id].(assignees := sent)]
                     else old(world.db.rows))
              && world.mailed
                 == old(world.mailed) + (if m.body.status == Pending && o.requestTokenOk
                                         then set op | op in MailedTo(targets, o.mails) :: (m.body.id, op) else {})
      ensures var r := old(world.queue.unacked)[0].body;
              var whitelisted, banned := old(world.game.whitelisted), old(world.game.banned);
              && world.game.whitelisted
                 == (if o.applied && r.status == Approved then whitelisted + {r.username}
                     else if o.applied && r.status == Deactivated then whitelisted - {r.username} else whitelisted)
              && world.game.banned == if o.applied && r.status == Banned then banned + {r.username} else banned
      ensures world.cache.list
           == if o.refreshOk then Some(NewestFirst(old(world.db.rows), All)) else old(world.cache.list)
      ensures world.cache.hash.counters
           == if old(world.cache.hash).aggregate.Some? && Stores(o.attempts)
              then old(world.cache.hash.counters).Plus(Delta(old(world.queue.unacked)[0].body))
              else old(world.cache.hash.counters)
    {
      ticks := TakeTurn(o);
    }
  }

  ghost predicate IsReceipt(s: State, refreshOk: bool, ticks: seq<Action>, counted: bool, s': State) {
    var steps := [Take, Refresh(refreshOk)] + ticks + [Count(counted)];
    s' == Run(s, steps) && LegalRun(s, steps)
  }

  /** From s to s' by one turn of the worker that settles the oldest unacknowledged message, and no other. */
  ghost predicate IsTurn(s: State, refreshOk: bool, ticks: seq<Action>, counted: bool, act: Action, s': State)
    requires s.unacked != []
  {
    var steps := [Take, Refresh(refreshOk)] + ticks + [Count(counted)] + [act] + [Settle];
    var t := s.unacked[0].tag;
    && s' == Run(s, steps) && LegalRun(s, steps)
    && s'.unacked == s.unacked[1..] && s'.ready == s.ready
    && act.Act? && t < |s'.ledger| && s'.ledger[t].fate == (if act.reported then Acked else Dead)
  }

  lemma TurnEnds(s: State, refreshOk: bool, ticks: seq<Action>, counted: bool, middle: State, act: Action)
    requires IsReceipt(s, refreshOk, ticks, counted, middle) && DeliveryOk(middle) && Legal(middle, act)
    requires s.unacked != [] && middle.unacked == s.unacked && middle.ready == s.ready
    requires middle.worker == Busy(s.unacked[0], false, Acting) && act.Act?
    requires s.unacked[0].body.status == Denied ==> act.reported
    ensures IsTurn(s, refreshOk, ticks, counted, act, Apply(Apply(middle, act), Settle))
  {
    var steps := [Take, Refresh(refreshOk)] + ticks + [Count(counted)];
    RunSnoc(s, steps, act);
    RunSnoc(s, steps + [act], Settle);
    SettledAs(middle, act);
  }

  lemma ActedMeansSettling(s: State, act: Action)
    requires s.worker.Busy? && s.worker.phase == Acting && act.Act?
    requires s.worker.m.body.status == Denied ==> act.reported
    ensures Apply(s, act).worker == s.worker.(phase := Settling(act.reported))
  {
  }

  lemma TicksAreHarmless(s: State, ticks: seq<Action>)
    requires |ticks| <= 1 && (forall a :: a in ticks ==> a.Tick?) && DeliveryOk(s)
    ensures DeliveryOk(Run(s, ticks)) && LegalRun(s, ticks)
    ensures var s' := Run(s, ticks); s' == s.(stats := s'.stats)
  {
    if ticks != [] {
      assert ticks[0] in ticks && ticks[1..] == [];
      assert Run(s, ticks) == Apply(s, ticks[0]);
      DeliveryOkStep(s, ticks[0]);
    }
  }

  lemma ReceiveRun(s: State, refreshOk: bool, ticks: seq<Action>, counted: bool)
    requires LegalRun(Apply(Apply(s, Take), Refresh(refreshOk)), ticks)
    ensures var steps := [Take, Refresh(refreshOk)] + ticks + [Count(counted)];
            && Run(s, steps) == Apply(Run(Apply(Apply(s, Take), Refresh(refreshOk)), ticks), Count(counted))
            && LegalRun(s, steps)
  {
    var a, b := Take, Refresh(refreshOk);
    RunSnoc(s, [], a);
    RunSnoc(s, [a], b);
    assert [] + [a] == [a] && [a] + [b] == [a, b];
    RunConcat(s, [a, b], ticks);
    RunSnoc(s, [a, b] + ticks, Count(counted));
  }

  /** Settling right after acting gives the message in hand its fate, and takes it off the unacknowledged ones. */
  lemma SettledAs(s: State, act: Action)
    requires DeliveryOk(s) && s.worker.Busy? && !s.worker.stale && s.worker.phase == Acting && act.Act?
    requires s.worker.m.body.status == Denied ==> act.reported
    ensures var s' := Apply(Apply(s, act), Settle);
            && s'.unacked == s.unacked[1..] && s'.ready == s.ready
            && s.worker.m.tag < |s'.ledger|
            && s'.ledger[s.worker.m.tag].fate == if act.reported then Acked else Dead
  {
  }

  /** The ops reached before a link could not be encoded, if ever. */
  function MailedTo(ops: seq<string>, mails: seq<Dispatch.Mail>): seq<string>
    requires |mails| == |ops|
  {
    if ops == [] || mails[0] == Dispatch.NoToken then []
    else (if mails[0] == Dispatch.Sent then [ops[0]] else []) + MailedTo(ops[1..], mails[1..])
  }

  /** The ops mailed are those whose mail went out before a link could not be encoded. */
  lemma {:induction false} MailedToBefore(ops: seq<string>, mails: seq<Dispatch.Mail>, k: nat)
    requires |mails| == |ops| && k <= |ops| && Dispatch.NoToken !in mails[..k]
    requires k < |ops| ==> mails[k] == Dispatch.NoToken
    ensures MailedTo(ops, mails) == Dispatch.SentTo(ops[..k], mails[..k])
  {
    if k > 0 {
      assert mails[..k][0] in mails[..k];
      assert mails[1..][..k - 1] == mails[..k][1..] && ops[1..][..k - 1] == ops[..k][1..];
      MailedToBefore(ops[1..], mails[1..], k - 1);
      SentToHead(ops[..k], mails[..k]);
    }
  }

  lemma {:induction false} MailedToAll(ops: seq<string>, mails: seq<Dispatch.Mail>)
    requires |mails| == |ops| && Dispatch.NoToken !in mails
    ensures MailedTo(ops, mails) == Dispatch.SentTo(ops, mails)
  {
    if ops != [] {
      assert mails[0] in mails;
      MailedToAll(ops[1..], mails[1..]);
      SentToHead(ops, mails);
    }
  }

  lemma {:induction false} SentToHead(ops: seq<string>, mails: seq<Dispatch.Mail>)
    requires |mails| == |ops| && ops != []
    ensures Dispatch.SentTo(ops, mails)
         == (if mails[0] == Dispatch.Sent then [ops[0]] else []) + Dispatch.SentTo(ops[1..], mails[1..])
  {
    var n := |ops| - 1;
    if n > 0 {
      SentToHead(ops[..n], mails[..n]);
      assert ops[1..][..n - 1] == ops[..n][1..] && mails[1..][..n - 1] == mails[..n][1..];
    }
  }
}
