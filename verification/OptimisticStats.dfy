/** UpdateRealTimeStats at the granularity of its Redis commands, against a hash that others write. */
module OptimisticStats {
  import opened Requests
  import opened Stats

  const MAX_RETRY := 5

  /** Where the call stands: about to HGETALL, about to WATCH with the counters it read, about to EXEC with the
      version it watches, or finished. */
  datatype Pc =
    | Reading(attempt: nat)
    | Watching(attempt: nat, read: Tally)
    | Executing(attempt: nat, read: Tally, watched: nat)
    | Done | GaveUp | Failed

  /** Every write to the key bumps the version; EXEC succeeds iff it is the watched one. */
  datatype Txn = Txn(hash: Hash, version: nat, pc: Pc)

  /** The call's next command, a connection failure before it or after it (the command reaches Redis and its reply is
      lost), a write of the aggregate job, or a whole update by a second writer of the counters. */
  datatype Event =
    | Command | Failure | ReplyLost | AggregateWrite(value: AggregateStats) | RivalUpdate(r: Request)

  function Step(r: Request, t: Txn, e: Event): Txn {
    match e
    case Failure => if Finished(t.pc) then t else t.(pc := Failed)
    case ReplyLost =>
      if Finished(t.pc) then t
      else if t.pc.Executing? && t.pc.watched == t.version then
        Txn(Hmset(t.hash, UpdateArgs(r, t.pc.read)), t.version + 1, Failed)
      else t.(pc := Failed)
    case AggregateWrite(v) => t.(hash := t.hash.(aggregate := Some(v)), version := t.version + 1)
    case RivalUpdate(r') => t.(hash := UpdateRealTime(t.hash, r'), version := t.version + 1)
    case Command =>
      match t.pc
      case Reading(n) => t.(pc := if Readable(t.hash) then Watching(n, t.hash.counters) else Failed)
      case Watching(n, read) => t.(pc := Executing(n, read, t.version))
      case Executing(n, read, watched) =>
        if watched == t.version then Txn(Hmset(t.hash, UpdateArgs(r, read)), t.version + 1, Done)
        else t.(pc := if n < MAX_RETRY then Reading(n + 1) else GaveUp)
      case _ => t
  }

  predicate Finished(pc: Pc) {
    pc in {Done, GaveUp, Failed}
  }

  function Play(r: Request, t: Txn, events: seq<Event>): Txn {
    if events == [] then t else Step(r, Play(r, t, events[..|events| - 1]), events[|events| - 1])
  }

  function LastAggregate(aggregate: Option<AggregateStats>, events: seq<Event>): Option<AggregateStats> {
    if events == [] then aggregate
    else match events[|events| - 1]
      case AggregateWrite(v) => Some(v)
      case _ => LastAggregate(aggregate, events[..|events| - 1])
  }

  predicate OneWriter(events: seq<Event>) {
    forall e :: e in events ==> !e.RivalUpdate?
  }

  ghost predicate OnceOrNever(r: Request, h: Hash, aggregate: Option<AggregateStats>, t: Txn) {
    match t.pc
    case Done => t.hash == UpdateRealTime(h, r).(aggregate := aggregate)
    case Failed => t.hash == h.(aggregate := aggregate) || t.hash == UpdateRealTime(h, r).(aggregate := aggregate)
    case _ => t.hash == h.(aggregate := aggregate)
  }

  /** What is true at every moment of every schedule with one writer of the counters. */
  ghost predicate Linear(r: Request, h: Hash, events: seq<Event>, t: Txn) {
    && OnceOrNever(r, h, LastAggregate(h.aggregate, events), t)
    && match t.pc
       case Reading(n) => 1 <= n <= MAX_RETRY
       case Watching(n, read) => 1 <= n <= MAX_RETRY && read == h.counters && Readable(t.hash)
       case Executing(n, read, watched) =>
         1 <= n <= MAX_RETRY && read == h.counters && watched <= t.version && Readable(t.hash)
       case Done => Readable(t.hash)
       case _ => true
  }

  /** Every interleaving of the commands with aggregate writes is one atomic update or none, and both writers' fields
      survive: a call that reports success added its delta exactly once, one that gave up after its last attempt
      never, and one that failed on the way at most once. */
  lemma {:induction false} RefinesAtomicUpdate(r: Request, h: Hash, version: nat, events: seq<Event>)
    requires OneWriter(events)
    ensures Linear(r, h, events, Play(r, Txn(h, version, Reading(1)), events))
  {
    if events != [] {
      var e := events[|events| - 1];
      RefinesAtomicUpdate(r, h, version, events[..|events| - 1]);
      assert e in events;
      LinearStep(r, h, events[..|events| - 1], Play(r, Txn(h, version, Reading(1)), events[..|events| - 1]), e);
    }
  }

  lemma LinearStep(r: Request, h: Hash, before: seq<Event>, t: Txn, e: Event)
    requires Linear(r, h, before, t) && !e.RivalUpdate?
    ensures forall events :: events != [] && events[..|events| - 1] == before && events[|events| - 1] == e
              ==> Linear(r, h, events, Step(r, t, e))
  {
    var aggregate := LastAggregate(h.aggregate, before);
    AggregateIsApart(h, aggregate, r);
  }

  lemma AggregateIsApart(h: Hash, aggregate: Option<AggregateStats>, r: Request)
    ensures Hmset(h.(aggregate := aggregate), UpdateArgs(r, h.counters))
         == UpdateRealTime(h, r).(aggregate := aggregate)
  {
  }

  function Commands(events: seq<Event>): nat {
    if events == [] then 0
    else Commands(events[..|events| - 1]) + if events[|events| - 1] == Command then 1 else 0
  }

  function CommandsLeft(pc: Pc): int {
    match pc
    case Reading(n) => 3 * (MAX_RETRY - n) + 3
    case Watching(n, _) => 3 * (MAX_RETRY - n) + 2
    case Executing(n, _, _) => 3 * (MAX_RETRY - n) + 1
    case _ => 0
  }

  /** The call ends within 5 attempts of 3 commands, whatever the others do, and gives up after no fewer. */
  lemma {:induction false} Terminates(r: Request, h: Hash, version: nat, events: seq<Event>)
    ensures var pc := Play(r, Txn(h, version, Reading(1)), events).pc;
            && 0 <= CommandsLeft(pc)
            && (if Finished(pc) then CommandsLeft(pc) == 0
                else CommandsLeft(pc) > 0 && Commands(events) + CommandsLeft(pc) == 15)
            && (Commands(events) >= 15 ==> Finished(pc))
            && (pc.GaveUp? ==> Commands(events) >= 15)
  {
    if events != [] {
      Terminates(r, h, version, events[..|events| - 1]);
    }
  }

  // ----- with other writers of the counters -----

  /** What all the second writers stored, taken together. */
  function Rivals(events: seq<Event>): Tally {
    if events == [] then ZERO
    else
      var e := events[|events| - 1];
      Rivals(events[..|events| - 1]).Plus(if e.RivalUpdate? then Delta(e.r) else ZERO)
  }

  /** What second writers stored between the call's last read and the WATCH that followed it. */
  function Window(r: Request, t: Txn, events: seq<Event>): Tally {
    if events == [] then ZERO
    else
      var front, e := events[..|events| - 1], events[|events| - 1];
      var pc := Play(r, t, front).pc;
      if e.Command? && pc.Reading? then ZERO
      else if e.RivalUpdate? && pc.Watching? then Window(r, t, front).Plus(Delta(e.r))
      else Window(r, t, front)
  }

  /** The part of w in the fields that the update for r writes. */
  function Overwritten(w: Tally, r: Request): Tally {
    var a := UpdateArgs(r, ZERO);
    Tally(if a.pending.Some? then w.pending else 0, if a.denied.Some? then w.denied else 0,
          if a.approved.Some? then w.approved else 0, if a.banned.Some? then w.banned else 0,
          if a.deactivated.Some? then w.deactivated else 0, if a.totalTime.Some? then w.totalTime else 0.0,
          if a.male.Some? then w.male else 0, if a.female.Some? then w.female else 0,
          if a.otherGender.Some? then w.otherGender else 0,
          if a.age1.Some? then w.age1 else 0, if a.age2.Some? then w.age2 else 0,
          if a.age3.Some? then w.age3 else 0, if a.age4.Some? then w.age4 else 0)
  }

  ghost predicate Accounted(r: Request, h: Hash, rivals: Tally, window: Tally, t: Txn) {
    match t.pc
    case Watching(_, read) => t.hash.counters == h.counters.Plus(rivals) && t.hash.counters == read.Plus(window)
    case Executing(_, read, watched) =>
      && t.hash.counters == h.counters.Plus(rivals)
      && watched <= t.version && (watched == t.version ==> t.hash.counters == read.Plus(window))
    case Done => t.hash.counters == h.counters.Plus(rivals).Plus(Delta(r)).Minus(Overwritten(window, r))
    case Failed =>
      || t.hash.counters == h.counters.Plus(rivals)
      || t.hash.counters == h.counters.Plus(rivals).Plus(Delta(r)).Minus(Overwritten(window, r))
    case _ => t.hash.counters == h.counters.Plus(rivals)
  }

  /** The exact law for every schedule with any number of writers: each rival's delta is stored; the call's own is if
      it reports success, may be if it failed on the way, and is not if it gave up; and if it is, it erases precisely
      what rivals stored between its last read and the WATCH, in the fields it writes itself. The read precedes the
      WATCH, so the transaction does not protect it; only the single worker loop does. */
  lemma {:induction false} EveryUpdateAccounted(r: Request, h: Hash, version: nat, events: seq<Event>)
    ensures var start := Txn(h, version, Reading(1));
            Accounted(r, h, Rivals(events), Window(r, start, events), Play(r, start, events))
  {
    if events != [] {
      var start := Txn(h, version, Reading(1));
      var front, e := events[..|events| - 1], events[|events| - 1];
      EveryUpdateAccounted(r, h, version, front);
      var t := Play(r, start, front);
      match e
      case RivalUpdate(rival) => AccountedRival(r, h, Rivals(front), Window(r, start, front), t, rival);
      case Command => AccountedCommand(r, h, Rivals(front), Window(r, start, front), t);
      case ReplyLost => AccountedReplyLost(r, h, Rivals(front), Window(r, start, front), t);
      case _ => PlusZero(Rivals(front));
    }
  }

  lemma PlusZero(t: Tally)
    ensures t.Plus(ZERO) == t
  {
  }

  lemma PlusMoves(a: Tally, b: Tally, c: Tally)
    ensures a.Plus(b).Plus(c) == a.Plus(b.Plus(c)) == a.Plus(c).Plus(b)
  {
  }

  lemma MinusMoves(a: Tally, b: Tally, c: Tally)
    ensures a.Minus(b).Plus(c) == a.Plus(c).Minus(b)
  {
  }

  lemma AccountedRival(r: Request, h: Hash, rivals: Tally, window: Tally, t: Txn, rival: Request)
    requires Accounted(r, h, rivals, window, t)
    ensures Accounted(r, h, rivals.Plus(Delta(rival)), if t.pc.Watching? then window.Plus(Delta(rival)) else window,
                      Step(r, t, RivalUpdate(rival)))
  {
    var d := Delta(rival);
    UpdateAddsDelta(t.hash, rival);
    PlusMoves(h.counters, rivals, d);
    match t.pc
    case Watching(_, read) => PlusMoves(read, window, d);
    case Reading(_) =>
    case Executing(_, _, _) =>
    case _ =>
      MinusMoves(h.counters.Plus(rivals).Plus(Delta(r)), Overwritten(window, r), d);
      PlusMoves(h.counters.Plus(rivals), Delta(r), d);
  }

  lemma AccountedReplyLost(r: Request, h: Hash, rivals: Tally, window: Tally, t: Txn)
    requires Accounted(r, h, rivals, window, t)
    ensures Accounted(r, h, rivals.Plus(ZERO), window, Step(r, t, ReplyLost))
  {
    PlusZero(rivals);
    if t.pc.Executing? && t.pc.watched == t.version {
      HmsetOverwrites(t.hash, r, t.pc.read, window);
    }
  }

  lemma AccountedCommand(r: Request, h: Hash, rivals: Tally, window: Tally, t: Txn)
    requires Accounted(r, h, rivals, window, t)
    ensures Accounted(r, h, rivals.Plus(ZERO), if t.pc.Reading? then ZERO else window, Step(r, t, Command))
  {
    PlusZero(rivals);
    match t.pc
    case Reading(_) => PlusZero(t.hash.counters);
    case Executing(_, read, watched) =>
      if watched == t.version {
        HmsetOverwrites(t.hash, r, read, window);
      }
    case _ =>
  }

  /** An update computed from counters that have since moved by w. */
  lemma HmsetOverwrites(h: Hash, r: Request, read: Tally, w: Tally)
    requires h.counters == read.Plus(w)
    ensures Hmset(h, UpdateArgs(r, read)).counters == h.counters.Plus(Delta(r)).Minus(Overwritten(w, r))
  {
    match r.status
    case Approved => HmsetOverwritesWithPeople(h, r, read, w);
    case Banned => HmsetOverwritesWithPeople(h, r, read, w);
    case Deactivated => HmsetOverwritesWithPeople(h, r, read, w);
    case _ => HmsetOverwritesAlone(h, r, read, w);
  }

  lemma HmsetOverwritesWithPeople(h: Hash, r: Request, read: Tally, w: Tally)
    requires h.counters == read.Plus(w) && r.status in {Approved, Banned, Deactivated}
    ensures Hmset(h, UpdateArgs(r, read)).counters == h.counters.Plus(Delta(r)).Minus(Overwritten(w, r))
  {
  }

  lemma HmsetOverwritesAlone(h: Hash, r: Request, read: Tally, w: Tally)
    requires h.counters == read.Plus(w) && r.status in {Pending, Denied}
    ensures Hmset(h, UpdateArgs(r, read)).counters == h.counters.Plus(Delta(r)).Minus(Overwritten(w, r))
  {
  }

  /** A successful call and all its rivals are stored, each once, if and only if no rival touched one of the call's
      own fields between its last read and the WATCH; in particular if none struck there at all. */
  lemma AllSurviveIff(r: Request, h: Hash, version: nat, events: seq<Event>)
    requires Play(r, Txn(h, version, Reading(1)), events).pc.Done?
    ensures var start := Txn(h, version, Reading(1));
            var window := Window(r, start, events);
            && (Play(r, start, events).hash.counters == h.counters.Plus(Rivals(events)).Plus(Delta(r))
                <==> Overwritten(window, r) == ZERO)
            && (NoneWhileWatching(r, start, events) ==> Overwritten(window, r) == ZERO)
  {
    var start := Txn(h, version, Reading(1));
    var window := Window(r, start, events);
    EveryUpdateAccounted(r, h, version, events);
    AccountedDone(r, h, Rivals(events), window, Play(r, start, events));
    if NoneWhileWatching(r, start, events) {
      EmptyWindow(r, start, events);
      NothingOverwritten(r);
    }
  }

  lemma AccountedDone(r: Request, h: Hash, rivals: Tally, window: Tally, t: Txn)
    requires Accounted(r, h, rivals, window, t) && t.pc.Done?
    ensures t.hash.counters == h.counters.Plus(rivals).Plus(Delta(r)) <==> Overwritten(window, r) == ZERO
  {
    MinusNothingIff(h.counters.Plus(rivals).Plus(Delta(r)), Overwritten(window, r));
  }

  lemma NothingOverwritten(r: Request)
    ensures Overwritten(ZERO, r) == ZERO
  {
  }

  lemma MinusNothingIff(t: Tally, d: Tally)
    ensures t.Minus(d) == t <==> d == ZERO
  {
  }

  ghost predicate NoneWhileWatching(r: Request, t: Txn, events: seq<Event>) {
    forall i :: 0 <= i < |events| && events[i].RivalUpdate? ==> !Play(r, t, events[..i]).pc.Watching?
  }

  lemma {:induction false} EmptyWindow(r: Request, t: Txn, events: seq<Event>)
    requires NoneWhileWatching(r, t, events)
    ensures Window(r, t, events) == ZERO
  {
    if events != [] {
      var front := events[..|events| - 1];
      forall i | 0 <= i < |front| && front[i].RivalUpdate?
        ensures !Play(r, t, front[..i]).pc.Watching?
      {
        assert front[..i] == events[..i];
      }
      EmptyWindow(r, t, front);
    }
  }

  /** For instance: a second writer that strikes between the read and the WATCH is not noticed, and what the two
      have in common is erased; all of it if the statuses are the same. */
  lemma RivalBetweenReadAndWatchIsErased(r: Request, rival: Request, h: Hash, version: nat)
    requires Readable(h)
    ensures var t := Play(r, Txn(h, version, Reading(1)), [Command, RivalUpdate(rival), Command, Command]);
            && t.pc == Done
            && t.hash.counters == h.counters.Plus(Delta(rival)).Plus(Delta(r)).Minus(Overwritten(Delta(rival), r))
            && (r.status == rival.status ==> Overwritten(Delta(rival), r) == Delta(rival))
  {
    PlayFour(r, Txn(h, version, Reading(1)), Command, RivalUpdate(rival), Command, Command);
    SameStatusOverlaps(r, rival);
    CounterAfterRival(r, rival, h);
  }

  lemma CounterAfterRival(r: Request, rival: Request, h: Hash)
    ensures Hmset(UpdateRealTime(h, rival), UpdateArgs(r, h.counters)).counters
         == h.counters.Plus(Delta(rival)).Plus(Delta(r)).Minus(Overwritten(Delta(rival), r))
  {
    UpdateAddsDelta(h, rival);
    HmsetOverwrites(UpdateRealTime(h, rival), r, h.counters, Delta(rival));
  }

  lemma SameStatusOverlaps(r: Request, rival: Request)
    ensures r.status == rival.status ==> Overwritten(Delta(rival), r) == Delta(rival)
  {
  }

  /** One that strikes after the WATCH is noticed, and survives. */
  lemma RivalAfterWatchIsNoticed(r: Request, rival: Request, h: Hash, version: nat)
    requires Readable(h)
    ensures var t := Play(r, Txn(h, version, Reading(1)), [Command, Command, RivalUpdate(rival), Command]);
            t.pc == Reading(2) && t.hash == UpdateRealTime(h, rival)
  {
    PlayFour(r, Txn(h, version, Reading(1)), Command, Command, RivalUpdate(rival), Command);
  }

  lemma PlayFour(r: Request, t: Txn, a: Event, b: Event, c: Event, d: Event)
    ensures Play(r, t, [a, b, c, d]) == Step(r, Step(r, Step(r, Step(r, t, a), b), c), d)
  {
    assert [a, b, c, d][..3] == [a, b, c];
    assert [a, b, c][..2] == [a, b];
    assert [a, b][..1] == [a];
    assert Play(r, t, [a]) == Step(r, t, a);
    assert Play(r, t, [a, b]) == Step(r, Step(r, t, a), b);
    assert Play(r, t, [a, b, c]) == Step(r, Step(r, Step(r, t, a), b), c);
  }
}
