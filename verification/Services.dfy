/** The services as objects that update the database, the queue, the cache and the game server in place; each
    method is proved to take exactly the steps the state machine allows. */
module Services {
  import opened Requests
  import opened Stats
  import opened Pipeline
  import opened GameAgreement
  import opened OptimisticStats

  // ----- db.go -----

  /** The rows a query selects, newest first. */
  function NewestFirst(rows: seq<Request>, filter: Request -> bool): seq<Request> {
    if rows == [] then []
    else
      var n := |rows| - 1;
      (if filter(rows[n]) then [rows[n]] else []) + NewestFirst(rows[..n], filter)
  }

  /** The empty query document. */
  predicate All(r: Request) {
    true
  }

  class Database {
    var rows: seq<Request>

    constructor (rows: seq<Request>)
      ensures this.rows == rows
    {
      this.rows := rows;
    }

    /** The argument is a copy: the caller's request keeps its own id, status and timestamp. */
    method CreateRequest(newRequest: Request, now: real) returns (id: nat)
      modifies this
      ensures id == |old(rows)|
      ensures rows == old(rows) + [newRequest.(id := id, timestamp := now, status := Pending)]
    {
      id := |rows|;
      rows := rows + [newRequest.(id := id, timestamp := now, status := Pending)];
    }

    /** The limit the source takes is not used by it. */
    method GetRequests(filter: Request -> bool) returns (requests: seq<Request>)
      ensures requests == NewestFirst(rows, filter)
    {
      requests := [];
      var i := |rows|;
      assert rows[..i] == rows;
      while i > 0
        invariant 0 <= i <= |rows|
        invariant requests + NewestFirst(rows[..i], filter) == NewestFirst(rows, filter)
      {
        i := i - 1;
        NextFound(rows, i, filter, requests);
        if filter(rows[i]) {
          requests := requests + [rows[i]];
        }
      }
    }

    method UpdateRequest(id: nat, update: Request) returns (updated: Request)
      requires id < |rows|
      modifies this
      ensures rows == old(rows)[id := update] && updated == update
    {
      rows := rows[id := update];
      updated := rows[id];
    }
  }

  lemma NextFound(rows: seq<Request>, i: nat, filter: Request -> bool, found: seq<Request>)
    requires i < |rows|
    ensures found + NewestFirst(rows[..i + 1], filter)
         == (if filter(rows[i]) then found + [rows[i]] else found) + NewestFirst(rows[..i], filter)
  {
    assert rows[..i + 1][..i] == rows[..i];
  }

  /** A stored request is found first by every query it matches, and changes no other answer. */
  lemma CreatedIsFoundFirst(rows: seq<Request>, created: Request, filter: Request -> bool)
    ensures NewestFirst(rows + [created], filter)
         == (if filter(created) then [created] else []) + NewestFirst(rows, filter)
  {
    assert (rows + [created])[..|rows|] == rows;
  }

  /** An update changes the answer to any query by at most the one row, in its place. */
  lemma {:induction false} UpdatedIsFoundInPlace(rows: seq<Request>, id: nat, update: Request, filter: Request -> bool)
    returns (newer: seq<Request>, older: seq<Request>)
    requires id < |rows|
    ensures NewestFirst(rows, filter) == newer + (if filter(rows[id]) then [rows[id]] else []) + older
    ensures NewestFirst(rows[id := update], filter) == newer + (if filter(update) then [update] else []) + older
  {
    var n := |rows| - 1;
    if id == n {
      newer, older := [], NewestFirst(rows[..n], filter);
      assert rows[id := update][..n] == rows[..n];
    } else {
      var newer0: seq<Request>;
      newer0, older := UpdatedIsFoundInPlace(rows[..n], id, update, filter);
      assert rows[id := update][..n] == rows[..n][id := update];
      var head := if filter(rows[n]) then [rows[n]] else [];
      newer := head + newer0;
      Regroup(head, newer0, if filter(rows[id]) then [rows[id]] else [], older);
      Regroup(head, newer0, if filter(update) then [update] else [], older);
    }
  }

  lemma Regroup<T>(a: seq<T>, b: seq<T>, c: seq<T>, d: seq<T>)
    ensures a + (b + c + d) == (a + b) + c + d
  {
  }

  /** What is read back by id is what was written, and nothing else. */
  lemma {:induction false} ReadByIdFindsOne(rows: seq<Request>, id: nat, filter: Request -> bool)
    requires forall i :: 0 <= i < |rows| ==> rows[i].id == i
    requires forall r :: filter(r) <==> r.id == id
    ensures NewestFirst(rows, filter) == if id < |rows| then [rows[id]] else []
  {
    if rows != [] {
      ReadByIdFindsOne(rows[..|rows| - 1], id, filter);
    }
  }

  lemma UpdatedIsReadBack(rows: seq<Request>, id: nat, update: Request, other: nat, filter: Request -> bool)
    requires forall i :: 0 <= i < |rows| ==> rows[i].id == i
    requires id < |rows| && update.id == id && forall r :: filter(r) <==> r.id == other
    ensures NewestFirst(rows[id := update], filter)
         == if other == id then [update] else NewestFirst(rows, filter)
  {
    ReadByIdFindsOne(rows, other, filter);
    ReadByIdFindsOne(rows[id := update], other, filter);
  }

  lemma {:induction false} NewestFirstMembers(rows: seq<Request>, filter: Request -> bool)
    ensures forall r :: r in NewestFirst(rows, filter) <==> r in rows && filter(r)
  {
    if rows != [] {
      NewestFirstMembers(rows[..|rows| - 1], filter);
      MembersOfSnoc(rows);
    }
  }

  lemma NoneNewer(rows: seq<Request>, r: Request)
    requires rows != [] && r in rows[..|rows| - 1]
    requires forall i, j :: 0 <= i < j < |rows| ==> rows[i].timestamp <= rows[j].timestamp
    ensures r.timestamp <= rows[|rows| - 1].timestamp
  {
    var n := |rows| - 1;
    var k :| 0 <= k < n && rows[..n][k] == r;
    assert rows[k] == r;
  }

  /** A query returns exactly the matching rows, in descending order of creation time. */
  lemma {:induction false} NewestFirstSelects(rows: seq<Request>, filter: Request -> bool)
    requires forall i, j :: 0 <= i < j < |rows| ==> rows[i].timestamp <= rows[j].timestamp
    ensures var found := NewestFirst(rows, filter);
            && (forall r :: r in found <==> r in rows && filter(r))
            && (forall i, j :: 0 <= i < j < |found| ==> found[i].timestamp >= found[j].timestamp)
  {
    NewestFirstMembers(rows, filter);
    if rows != [] {
      var n := |rows| - 1;
      var older := NewestFirst(rows[..n], filter);
      NewestFirstSelects(rows[..n], filter);
      forall i | 0 <= i < |older|
        ensures rows[n].timestamp >= older[i].timestamp
      {
        assert older[i] in older;
        NoneNewer(rows, older[i]);
      }
    }
  }

  lemma MembersOfSnoc(rows: seq<Request>)
    requires rows != []
    ensures forall r :: r in rows <==> r in rows[..|rows| - 1] || r == rows[|rows| - 1]
  {
    assert rows == rows[..|rows| - 1] + [rows[|rows| - 1]];
  }

  predicate Blocks(r: Request, username: string) {
    r.username == username && Active(r.status)
  }

  lemma {:induction false} BlockedMeansFound(rows: seq<Request>, username: string, filter: Request -> bool)
    requires forall r :: filter(r) <==> Blocks(r, username)
    ensures Blocked(rows, username) <==> NewestFirst(rows, filter) != []
    ensures forall r :: r in NewestFirst(rows, filter) ==> r in rows && Blocks(r, username)
  {
    if rows != [] {
      var n := |rows| - 1;
      BlockedMeansFound(rows[..n], username, filter);
      assert forall i :: 0 <= i < n ==> rows[..n][i] == rows[i];
      if Blocked(rows, username) && !Blocks(rows[n], username) {
        var i :| 0 <= i < |rows| && rows[i].username == username && Active(rows[i].status);
        assert rows[..n][i] == rows[i];
      }
    }
  }

  lemma {:induction false} SumNewestFirst(rows: seq<Request>, f: Request -> Tally)
    ensures Sum(NewestFirst(rows, All), f) == Sum(rows, f)
  {
    if rows != [] {
      var n := |rows| - 1;
      SumNewestFirst(rows[..n], f);
      SumPrepend(rows[n], NewestFirst(rows[..n], All), f);
    }
  }

  lemma {:induction false} SumPrepend(r: Request, rows: seq<Request>, f: Request -> Tally)
    ensures Sum([r] + rows, f) == Sum(rows, f).Plus(f(r))
  {
    if rows == [] {
      assert [r] + rows == [] + [r];
      SumAppend([], r, f);
    } else {
      var n := |rows| - 1;
      SumPrepend(r, rows[..n], f);
      assert ([r] + rows)[..n + 1] == [r] + rows[..n];
    }
  }

  // ----- the task queue and broker.go -----

  /** RabbitMQ's queue, with the history of what was offered to it. */
  class TaskQueue {
    var ready: seq<Message>
    var unacked: seq<Message>
    var ledger: seq<Entry>

    constructor ()
      ensures ready == [] && unacked == [] && ledger == []
    {
      ready, unacked, ledger := [], [], [];
    }

    ghost predicate Shows(s: State)
      reads this
    {
      ready == s.ready && unacked == s.unacked && ledger == s.ledger
    }
  }

  const PUBLISH_ATTEMPTS := 3

  predicate Published(attempts: seq<bool>) {
    exists i :: 0 <= i < PUBLISH_ATTEMPTS && i < |attempts| && attempts[i]
  }

  class Broker {
    const queue: TaskQueue

    constructor (queue: TaskQueue)
      ensures this.queue == queue
    {
      this.queue := queue;
    }

    /** At most three attempts, none after the first success: the message is queued once or not at all. */
    method Publish(message: Request, attempts: seq<bool>) returns (ok: bool)
      requires |attempts| == PUBLISH_ATTEMPTS
      modifies queue
      ensures ok == Published(attempts) && (ok <==> attempts[0] || attempts[1] || attempts[2])
      ensures queue.unacked == old(queue.unacked)
      ensures queue.ready == old(queue.ready) + if ok then [Message(|old(queue.ledger)|, message)] else []
      ensures queue.ledger == old(queue.ledger) + [Entry(message, if ok then Queued else Unpublished, 0, false)]
    {
      ok := false;
      var attempt := 1;
      while attempt <= PUBLISH_ATTEMPTS && !ok
        invariant 1 <= attempt <= PUBLISH_ATTEMPTS + 1
        invariant ok ==> Published(attempts)
        invariant !ok ==> forall i :: 0 <= i < attempt - 1 ==> !attempts[i]
        invariant queue.unacked == old(queue.unacked) && queue.ledger == old(queue.ledger)
        invariant queue.ready == old(queue.ready) + if ok then [Message(|old(queue.ledger)|, message)] else []
      {
        if attempts[attempt - 1] {
          queue.ready := queue.ready + [Message(|queue.ledger|, message)];
          ok := true;
        }
        attempt := attempt + 1;
      }
      queue.ledger := queue.ledger + [Entry(message, if ok then Queued else Unpublished, 0, false)];
    }
  }

  // ----- the game server -----

  class GameServer {
    var whitelisted: set<string>
    var banned: set<string>

    constructor (game: Game)
      ensures Game(whitelisted, banned) == game
    {
      whitelisted, banned := game.whitelisted, game.banned;
    }

    /** A command changes one player's standing, as it should, and nobody else's. */
    method Console(r: Request)
      modifies this
      ensures forall u ::
                FlagsOf(Game(whitelisted, banned), u) == Effect(r, FlagsOf(old(Game(whitelisted, banned)), u), u)
    {
      match r.status {
        case Approved => whitelisted := whitelisted + {r.username};
        case Banned => banned := banned + {r.username};
        case Deactivated => whitelisted := whitelisted - {r.username};
        case _ =>
      }
    }
  }

  /** Two standings for every player make two equal game servers. */
  lemma GamesEqual(g: Game, g': Game)
    requires forall u :: FlagsOf(g, u) == FlagsOf(g', u)
    ensures g == g'
  {
    forall u
      ensures u in g.whitelisted <==> u in g'.whitelisted
      ensures u in g.banned <==> u in g'.banned
    {
      assert FlagsOf(g, u) == FlagsOf(g', u);
    }
  }

  lemma ConsoleExecutes(g: Game, g': Game, r: Request)
    requires forall u :: FlagsOf(g', u) == Effect(r, FlagsOf(g, u), u)
    ensures g' == Execute(g, r)
  {
    forall u
      ensures FlagsOf(g', u) == FlagsOf(Execute(g, r), u)
    {
      ExecuteIsEffect(g, r, u);
    }
    GamesEqual(g', Execute(g, r));
  }

  // ----- cache.go -----

  /** What happens around one attempt of the statistics update: whether a command before the EXEC fails, what the
      aggregate job writes between the read and the WATCH and between the WATCH and the EXEC, and whether the reply
      to the EXEC is lost. */
  datatype Attempt = Attempt(
    fails: bool, beforeWatch: seq<AggregateStats>, beforeExec: seq<AggregateStats>, replyLost: bool)

  datatype Verdict = Stored | Raced | Errored

  function VerdictOf(attempt: Attempt, readable: bool): Verdict {
    if attempt.fails || !readable || attempt.replyLost then Errored
    else if attempt.beforeExec == [] then Stored else Raced
  }

  /** Every attempt up to one that nothing disturbs between WATCH and EXEC gets an answer to its EXEC. */
  predicate Succeeds(attempts: seq<Attempt>) {
    && attempts != [] && !attempts[0].fails && !attempts[0].replyLost
    && (attempts[0].beforeExec == [] || Succeeds(attempts[1..]))
  }

  /** The same, except that the last answer may be lost: something is stored, whether the caller knows or not. */
  predicate Stores(attempts: seq<Attempt>) {
    && attempts != [] && !attempts[0].fails
    && (attempts[0].beforeExec == [] || (!attempts[0].replyLost && Stores(attempts[1..])))
  }

  /** An attempt that was raced and heard of it, so that another follows. */
  predicate RacedOver(a: Attempt) {
    !a.fails && !a.replyLost && a.beforeExec != []
  }

  /** An undisturbed attempt after attempts that were all raced is stored, and reported if it is heard of; */
  lemma {:induction false} UndisturbedIsStored(attempts: seq<Attempt>, k: nat)
    requires k < |attempts| && !attempts[k].fails && attempts[k].beforeExec == []
    requires forall i :: 0 <= i < k ==> RacedOver(attempts[i])
    ensures Stores(attempts) && (Succeeds(attempts) <==> !attempts[k].replyLost)
    decreases k
  {
    if k > 0 {
      assert RacedOver(attempts[0]);
      UndisturbedIsStored(attempts[1..], k - 1);
    }
  }

  /** and nothing else ever is. */
  lemma {:induction false} StoredIsUndisturbed(attempts: seq<Attempt>) returns (k: nat)
    requires Stores(attempts)
    ensures k < |attempts| && !attempts[k].fails && attempts[k].beforeExec == []
    ensures forall i :: 0 <= i < k ==> RacedOver(attempts[i])
  {
    k := 0;
    if attempts[0].beforeExec != [] {
      var k0 := StoredIsUndisturbed(attempts[1..]);
      k := k0 + 1;
      forall i | 0 <= i < k
        ensures RacedOver(attempts[i])
      {
        assert i > 0 ==> attempts[i] == attempts[1..][i - 1];
      }
    }
  }

  lemma NextAttempt(attempts: seq<Attempt>, n: nat)
    requires n < |attempts|
    ensures var a := attempts[n];
            && (Succeeds(attempts[n..]) <==>
                  !a.fails && !a.replyLost && (a.beforeExec == [] || Succeeds(attempts[n + 1..])))
            && (Stores(attempts[n..]) <==>
                  !a.fails && (a.beforeExec == [] || (!a.replyLost && Stores(attempts[n + 1..]))))
  {
    assert attempts[n..][1..] == attempts[n + 1..];
  }

  /** What is reported is stored; and what is stored goes unreported only if a reply was lost. */
  lemma {:induction false} SuccessIsStored(attempts: seq<Attempt>)
    ensures Succeeds(attempts) ==> Stores(attempts)
    ensures Stores(attempts) && (forall a :: a in attempts ==> !a.replyLost) ==> Succeeds(attempts)
  {
    if attempts != [] {
      SuccessIsStored(attempts[1..]);
      assert attempts[0] in attempts;
    }
  }

  function After(verdict: Verdict, n: nat): Pc {
    match verdict
    case Stored => Done
    case Raced => if n < MAX_RETRY then Reading(n + 1) else GaveUp
    case Errored => Failed
  }

  lemma PlaySnoc(r: Request, t: Txn, events: seq<Event>, e: Event)
    ensures Play(r, t, events + [e]) == Step(r, Play(r, t, events), e)
  {
    assert (events + [e])[..|events|] == events;
  }

  function LastOf(current: Option<AggregateStats>, writes: seq<AggregateStats>): Option<AggregateStats> {
    if writes == [] then current else Some(writes[|writes| - 1])
  }

  function WriteEvents(writes: seq<AggregateStats>): (events: seq<Event>)
    ensures OneWriter(events)
  {
    seq(|writes|, i requires 0 <= i < |writes| => AggregateWrite(writes[i]))
  }

  lemma {:induction false} PlayWrites(r: Request, t: Txn, events: seq<Event>, writes: seq<AggregateStats>)
    ensures var t' := Play(r, t, events);
            Play(r, t, events + WriteEvents(writes))
              == t'.(hash := t'.hash.(aggregate := LastOf(t'.hash.aggregate, writes)), version := t'.version + |writes|)
  {
    if writes == [] {
      assert events + WriteEvents(writes) == events;
    } else {
      var n := |writes| - 1;
      PlayWrites(r, t, events, writes[..n]);
      assert events + WriteEvents(writes) == events + WriteEvents(writes[..n]) + [AggregateWrite(writes[n])];
      PlaySnoc(r, t, events + WriteEvents(writes[..n]), AggregateWrite(writes[n]));
    }
  }

  class Cache {
    const db: Database
    var hash: Hash
    var version: nat
    var list: Option<seq<Request>>

    constructor (db: Database)
      ensures this.db == db && hash == EMPTY_HASH && version == 0 && list == None
    {
      this.db := db;
      hash, version, list := EMPTY_HASH, 0, None;
    }

    method UpdateAllRequests(ok: bool)
      modifies this`list
      ensures list == if ok then Some(NewestFirst(db.rows, All)) else old(list)
    {
      if ok {
        var requests := db.GetRequests(All);
        list := Some(requests);
      }
    }

    /** The aggregate job's HMSET, as often as it strikes. */
    method Interfere(writes: seq<AggregateStats>)
      modifies this`hash, this`version
      ensures hash == old(hash).(aggregate := LastOf(old(hash.aggregate), writes))
      ensures version == old(version) + |writes|
    {
      for i := 0 to |writes|
        invariant hash == old(hash).(aggregate := LastOf(old(hash.aggregate), writes[..i]))
        invariant version == old(version) + i
      {
        hash, version := hash.(aggregate := Some(writes[i])), version + 1;
      }
      assert writes[..|writes|] == writes;
    }

    /** One round of the loop: read, WATCH, EXEC. */
    method AttemptUpdate(request: Request, attempt: Attempt, ghost n: nat, ghost start: Txn, ghost before: seq<Event>)
      returns (verdict: Verdict, stored: bool, ghost events: seq<Event>)
      requires OneWriter(before) && Play(request, start, before) == Txn(hash, version, Reading(n))
      modifies this`hash, this`version
      ensures OneWriter(events)
      ensures Play(request, start, events) == Txn(hash, version, After(verdict, n))
      ensures verdict == VerdictOf(attempt, Readable(old(hash)))
      ensures stored <==> !attempt.fails && Readable(old(hash)) && attempt.beforeExec == []
      ensures hash == (if stored then UpdateRealTime(old(hash), request) else old(hash)).(aggregate := hash.aggregate)
      ensures Readable(old(hash)) ==> Readable(hash)
    {
      if attempt.fails {
        PlaySnoc(request, start, before, Failure);
        return Errored, false, before + [Failure];
      }
      if !Readable(hash) {
        PlaySnoc(request, start, before, Command);
        return Errored, false, before + [Command];
      }
      var stats, watched;
      stats, watched, events := ReadAndWatch(request, attempt, n, start, before);
      AggregateIsApart(old(hash), hash.aggregate, request);
      verdict, stored, events := Exec(request, stats, watched, attempt.replyLost, n, start, events);
    }

    /** What comes before the EXEC, with the aggregate job's writes in between. */
    method ReadAndWatch(request: Request, attempt: Attempt, ghost n: nat, ghost start: Txn, ghost before: seq<Event>)
      returns (stats: Tally, watched: nat, ghost events: seq<Event>)
      requires OneWriter(before) && Play(request, start, before) == Txn(hash, version, Reading(n)) && Readable(hash)
      modifies this`hash, this`version
      ensures OneWriter(events)
      ensures Play(request, start, events) == Txn(hash, version, Executing(n, stats, watched))
      ensures stats == old(hash.counters) && (watched == version <==> attempt.beforeExec == [])
      ensures hash == old(hash).(aggregate := hash.aggregate) && Readable(hash)
    {
      PlaySnoc(request, start, before, Command);
      events := before + [Command];
      stats := hash.counters;
      PlayWrites(request, start, events, attempt.beforeWatch);
      events := events + WriteEvents(attempt.beforeWatch);
      Interfere(attempt.beforeWatch);
      watched := version;
      PlaySnoc(request, start, events, Command);
      events := events + [Command];
      PlayWrites(request, start, events, attempt.beforeExec);
      events := events + WriteEvents(attempt.beforeExec);
      Interfere(attempt.beforeExec);
    }

    /** EXEC: the queued HMSET happens unless the key was written since the WATCH. If the reply is lost the caller
        learns neither. */
    method Exec(request: Request, read: Tally, watched: nat, replyLost: bool,
                ghost n: nat, ghost start: Txn, ghost before: seq<Event>)
      returns (verdict: Verdict, stored: bool, ghost events: seq<Event>)
      requires OneWriter(before) && Play(request, start, before) == Txn(hash, version, Executing(n, read, watched))
      modifies this`hash, this`version
      ensures OneWriter(events)
      ensures Play(request, start, events) == Txn(hash, version, After(verdict, n))
      ensures stored <==> watched == old(version)
      ensures verdict == if replyLost then Errored else if stored then Stored else Raced
      ensures hash == if stored then Hmset(old(hash), UpdateArgs(request, read)) else old(hash)
    {
      PlaySnoc(request, start, before, if replyLost then ReplyLost else Command);
      events := before + [if replyLost then ReplyLost else Command];
      stored := watched == version;
      if stored {
        hash, version := Hmset(hash, UpdateArgs(request, read)), version + 1;
      }
      verdict := if replyLost then Errored else if stored then Stored else Raced;
    }

    /** The retry loop. The ghost result is the schedule that took place: the method is one of the interleavings
        the transaction theorem quantifies over, hence one atomic update or none. Whether it was stored is known to
        the caller if it reports success or gives up, and not if the reply to an EXEC was lost. */
    method UpdateRealTimeStats(request: Request, attempts: seq<Attempt>)
      returns (ok: bool, stored: bool, ghost events: seq<Event>)
      requires |attempts| == MAX_RETRY
      modifies this`hash, this`version
      ensures ok <==> Readable(old(hash)) && Succeeds(attempts)
      ensures stored <==> Readable(old(hash)) && Stores(attempts)
      ensures OneWriter(events)
      ensures var t := Play(request, Txn(old(hash), old(version), Reading(1)), events);
              && t.hash == hash && t.version == version && Finished(t.pc) && (ok <==> t.pc == Done)
              && (t.pc == GaveUp ==> !stored)
      ensures hash == (if stored then UpdateRealTime(old(hash), request) else old(hash)).(aggregate := hash.aggregate)
      ensures (stored ==> Readable(hash)) && (Readable(old(hash)) ==> Readable(hash))
    {
      ghost var start := Txn(hash, version, Reading(1));
      events := [];
      stored := false;
      var n := 1;
      var verdict := Raced;
      while n <= MAX_RETRY && verdict == Raced
        invariant 1 <= n <= MAX_RETRY + 1 && OneWriter(events)
        invariant n == 1 ==> events == [] && verdict == Raced && hash == old(hash) && version == old(version)
        invariant n > 1 ==> Play(request, start, events) == Txn(hash, version, After(verdict, n - 1))
        invariant verdict == Raced ==>
                    && !stored && Succeeds(attempts) == Succeeds(attempts[n - 1..])
                    && Stores(attempts) == Stores(attempts[n - 1..])
        invariant verdict == Raced && n > 1 ==> Readable(old(hash)) && Readable(hash)
        invariant verdict != Raced ==>
                    && (verdict == Stored <==> Readable(old(hash)) && Succeeds(attempts))
                    && (stored <==> Readable(old(hash)) && Stores(attempts))
        invariant hash == (if stored then UpdateRealTime(old(hash), request) else old(hash))
                            .(aggregate := hash.aggregate)
        invariant Readable(old(hash)) ==> Readable(hash)
      {
        NextAttempt(attempts, n - 1);
        AggregateIsApart(old(hash), hash.aggregate, request);
        verdict, stored, events := AttemptUpdate(request, attempts[n - 1], n, start, events);
        n := n + 1;
      }
      ok := verdict == Stored;
    }

    /** The recount loop of SyncStats. */
    method Count(requests: seq<Request>) returns (t: Tally)
      ensures t == Recount(requests)
    {
      t := ZERO;
      for i := 0 to |requests|
        invariant t == Recount(requests[..i])
      {
        assert requests[..i + 1] == requests[..i] + [requests[i]];
        SumAppend(requests[..i], requests[i], Contribution);
        t := AddToTally(t, requests[i]);
      }
      assert requests[..|requests|] == requests;
    }

    /** One round of the sync: read the cached list, WATCH, recount, EXEC. */
    method AttemptSync(attempt: Attempt) returns (verdict: Verdict, stored: bool)
      modifies this`hash, this`version
      ensures verdict == VerdictOf(attempt, list.Some?)
      ensures stored <==> !attempt.fails && list.Some? && attempt.beforeExec == []
      ensures hash == (if stored then SyncRealTime(old(hash), list.value) else old(hash)).(aggregate := hash.aggregate)
      ensures Readable(old(hash)) ==> Readable(hash)
      ensures attempt.beforeWatch == attempt.beforeExec == [] ==> hash.aggregate == old(hash.aggregate)
    {
      if attempt.fails || list.None? {
        return Errored, false;
      }
      Interfere(attempt.beforeWatch);
      var watched := version;
      var t := Count(list.value);
      Interfere(attempt.beforeExec);
      stored := watched == version;
      if stored {
        hash, version := Hmset(hash, SyncArgs(t)), version + 1;
      }
      verdict := if attempt.replyLost then Errored else if stored then Stored else Raced;
    }

    /** The retry loop of SyncStats. It either stores the recount, all of it at once, or changes no counter; it
        succeeds under the same conditions as an update. */
    method SyncRealTimeStats(attempts: seq<Attempt>) returns (ok: bool, stored: bool)
      requires |attempts| == MAX_RETRY
      modifies this`hash, this`version
      ensures ok <==> list.Some? && Succeeds(attempts)
      ensures stored <==> list.Some? && Stores(attempts)
      ensures hash == (if stored then SyncRealTime(old(hash), list.value) else old(hash)).(aggregate := hash.aggregate)
      ensures Readable(old(hash)) ==> Readable(hash)
      ensures (forall a :: a in attempts ==> a.beforeWatch == a.beforeExec == []) ==>
                hash.aggregate == old(hash.aggregate)
    {
      stored := false;
      var n := 1;
      var verdict := Raced;
      while n <= MAX_RETRY && verdict == Raced
        invariant 1 <= n <= MAX_RETRY + 1
        invariant verdict == Raced ==>
                    && !stored && (n > 1 ==> list.Some?) && Succeeds(attempts) == Succeeds(attempts[n - 1..])
                    && Stores(attempts) == Stores(attempts[n - 1..])
        invariant verdict != Raced ==>
                    && (verdict == Stored <==> list.Some? && Succeeds(attempts))
                    && (stored <==> list.Some? && Stores(attempts))
        invariant hash == (if stored then SyncRealTime(old(hash), list.value) else old(hash))
                            .(aggregate := hash.aggregate)
        invariant Readable(old(hash)) ==> Readable(hash)
        invariant (forall a :: a in attempts ==> a.beforeWatch == a.beforeExec == []) ==>
                    hash.aggregate == old(hash.aggregate)
      {
        NextAttempt(attempts, n - 1);
        verdict, stored := AttemptSync(attempts[n - 1]);
        n := n + 1;
      }
      ok := verdict == Stored;
    }
  }

  /** One round of the recount's switch: the counters of the request's status, gender and age group. */
  function AddToTally(t: Tally, r: Request): (t': Tally)
    ensures t' == t.Plus(Contribution(r))
  {
    match r.status
    case Approved =>
      var group := AgeGroup(r.age);
      t.(approved := t.approved + 1, totalTime := t.totalTime + ResponseTime(r),
         male := if r.gender == "male" then t.male + 1 else t.male,
         female := if r.gender == "female" then t.female + 1 else t.female,
         otherGender := if r.gender != "male" && r.gender != "female" then t.otherGender + 1 else t.otherGender,
         age1 := if group == 1 then t.age1 + 1 else t.age1, age2 := if group == 2 then t.age2 + 1 else t.age2,
         age3 := if group == 3 then t.age3 + 1 else t.age3, age4 := if group == 4 then t.age4 + 1 else t.age4)
    case Denied => t.(denied := t.denied + 1, totalTime := t.totalTime + ResponseTime(r))
    case Pending => t.(pending := t.pending + 1)
    case Banned => t.(banned := t.banned + 1, totalTime := t.totalTime + ResponseTime(r))
    case Deactivated => t.(deactivated := t.deactivated + 1, totalTime := t.totalTime + ResponseTime(r))
  }
}
