/** Handlers that overlap: each checks in one database call and writes in another, and anything may happen between.
    What the state machine of module Pipeline calls one step is two here. */
module Overlaps {
  import opened Requests
  import opened Pipeline
  import opened Lifecycle
  import opened Delivery
  import opened DriftLaw
  import opened Theorems
  import opened Races

  datatype Check =
    | Creating(username: string, age: int, gender: string)
    | Deciding(id: nat, op: string, status: Status)
    | Administering(id: nat, status: Status)

  /** A handler between its check and its write. It is disturbed once somebody else touched a row of the username
      it is concerned with; this is history, which no handler can see. */
  datatype Handler = Handler(check: Check, disturbed: bool)

  datatype System = System(s: State, handlers: map<nat, Handler>)

  datatype Move =
    | Begin(h: nat, check: Check)
    | End(h: nat, now: real, later: real, published: bool)
    | Other(a: Action)

  predicate Exists(s: State, c: Check) {
    c.Creating? || c.id < |s.rows|
  }

  /** What the server checks. */
  predicate Passes(s: State, c: Check) {
    match c
    case Creating(username, _, _) => !Blocked(s.rows, username)
    case Deciding(id, op, _) => OpAllowed(s.rows, id, op)
    case Administering(id, _) => id < |s.rows|
  }

  /** What the pages offer. */
  predicate Offered(s: State, c: Check) {
    match c
    case Creating(_, _, _) => true
    case Deciding(_, _, status) => Decision(status)
    case Administering(id, status) => id < |s.rows| ==> LegalTransition(s.rows[id].status, status)
  }

  function Username(s: State, c: Check): string {
    if c.Creating? then c.username else if c.id < |s.rows| then s.rows[c.id].username else ""
  }

  /** The write, with no second look at the database. */
  function Write(s: State, c: Check, now: real, later: real, published: bool): State
    requires Exists(s, c)
  {
    match c
    case Creating(username, age, gender) => InsertRow(s, username, age, gender, now, published)
    case Deciding(id, op, status) => UpdateRow(s, id, status, op, now, later, published)
    case Administering(id, status) => UpdateRow(s, id, status, "admin", now, later, published)
  }

  ghost predicate Touched(rows: seq<Request>, rows': seq<Request>, username: string) {
    exists i :: 0 <= i < |rows'| && rows'[i].username == username && (|rows| <= i || rows'[i] != rows[i])
  }

  ghost function Observe(handlers: map<nat, Handler>, s: State, s': State): map<nat, Handler> {
    map h | h in handlers ::
      handlers[h].(disturbed := handlers[h].disturbed || Touched(s.rows, s'.rows, Username(s, handlers[h].check)))
  }

  ghost function Step(sys: System, m: Move): System {
    match m
    case Begin(h, c) =>
      if h !in sys.handlers && Passes(sys.s, c) then sys.(handlers := sys.handlers[h := Handler(c, false)]) else sys
    case End(h, now, later, published) =>
      if h in sys.handlers && Exists(sys.s, sys.handlers[h].check) then
        var s' := Write(sys.s, sys.handlers[h].check, now, later, published);
        System(s', Observe(sys.handlers - {h}, sys.s, s'))
      else sys
    case Other(a) => System(Apply(sys.s, a), Observe(sys.handlers, sys.s, Apply(sys.s, a)))
  }

  predicate IsHandlers(a: Action) {
    a.Create? || a.OpPatch? || a.AdminPatch?
  }

  ghost predicate LegalMove(sys: System, m: Move) {
    match m
    case Begin(_, c) => Offered(sys.s, c)
    case End(_, now, later, _) => sys.s.clock <= now <= later
    case Other(a) => !IsHandlers(a) && Legal(sys.s, a)
  }

  ghost function Play(sys: System, moves: seq<Move>): System
    decreases |moves|
  {
    if moves == [] then sys else Play(Step(sys, moves[0]), moves[1..])
  }

  ghost predicate LegalMoves(sys: System, moves: seq<Move>)
    decreases |moves|
  {
    moves == [] || (LegalMove(sys, moves[0]) && LegalMoves(Step(sys, moves[0]), moves[1..]))
  }

  // ----- what a check is worth at the time of the write -----

  predicate Holds(s: State, c: Check) {
    Exists(s, c) && Passes(s, c) && Offered(s, c)
  }

  /** A handler nobody disturbed would pass its check again. */
  ghost predicate ChecksHold(sys: System) {
    forall h :: h in sys.handlers ==>
      && Exists(sys.s, sys.handlers[h].check)
      && (!sys.handlers[h].disturbed ==> Holds(sys.s, sys.handlers[h].check))
  }

  ghost predicate SameNames(rows: seq<Request>, rows': seq<Request>) {
    |rows| <= |rows'| && forall i :: 0 <= i < |rows| ==> rows'[i].username == rows[i].username
  }

  lemma WriteKeepsNames(s: State, c: Check, now: real, later: real, published: bool)
    requires Exists(s, c)
    ensures SameNames(s.rows, Write(s, c, now, later, published).rows)
  {
  }

  lemma OthersKeepNames(s: State, a: Action)
    requires !IsHandlers(a)
    ensures var rows := Apply(s, a).rows;
            SameNames(s.rows, rows) && |rows| == |s.rows|
            && forall i :: 0 <= i < |rows| ==> rows[i].status == s.rows[i].status
  {
  }

  lemma UntouchedStillHolds(s: State, s': State, c: Check)
    requires Holds(s, c) && SameNames(s.rows, s'.rows) && !Touched(s.rows, s'.rows, Username(s, c))
    ensures Holds(s', c)
  {
    if !c.Creating? {
      assert s'.rows[c.id] == s.rows[c.id];
    }
  }

  lemma ObserveKeeps(handlers: map<nat, Handler>, s: State, s': State)
    requires ChecksHold(System(s, handlers)) && SameNames(s.rows, s'.rows)
    ensures ChecksHold(System(s', Observe(handlers, s, s')))
  {
    forall h | h in handlers && !Observe(handlers, s, s')[h].disturbed
      ensures Holds(s', handlers[h].check)
    {
      UntouchedStillHolds(s, s', handlers[h].check);
    }
  }

  lemma ChecksHoldStep(sys: System, m: Move)
    requires ChecksHold(sys) && LegalMove(sys, m)
    ensures ChecksHold(Step(sys, m))
  {
    match m
    case Begin(h, c) =>
    case End(h, now, later, published) =>
      if h in sys.handlers {
        var c := sys.handlers[h].check;
        WriteKeepsNames(sys.s, c, now, later, published);
        ObserveKeeps(sys.handlers - {h}, sys.s, Write(sys.s, c, now, later, published));
      }
    case Other(a) =>
      OthersKeepNames(sys.s, a);
      ObserveKeeps(sys.handlers, sys.s, Apply(sys.s, a));
  }

  // ----- undisturbed handlers are atomic -----

  function ActionOf(c: Check, now: real, later: real, published: bool): Action {
    match c
    case Creating(username, age, gender) => Create(username, age, gender, now, published)
    case Deciding(id, op, status) => OpPatch(id, op, status, now, later, published)
    case Administering(id, status) => AdminPatch(id, status, now, later, published)
  }

  /** The steps of the state machine that one move amounts to: a handler's whole work happens at its write. */
  function Steps(sys: System, m: Move): seq<Action> {
    match m
    case Begin(_, _) => []
    case End(h, now, later, published) =>
      if h in sys.handlers then [ActionOf(sys.handlers[h].check, now, later, published)] else []
    case Other(a) => [a]
  }

  ghost function AllSteps(sys: System, moves: seq<Move>): seq<Action>
    decreases |moves|
  {
    if moves == [] then [] else Steps(sys, moves[0]) + AllSteps(Step(sys, moves[0]), moves[1..])
  }

  /** Nobody touches a row of a handler's username between its check and its write. */
  ghost predicate Undisturbed(sys: System, moves: seq<Move>)
    decreases |moves|
  {
    moves == [] ||
    (&& (moves[0].End? && moves[0].h in sys.handlers ==> !sys.handlers[moves[0].h].disturbed)
     && Undisturbed(Step(sys, moves[0]), moves[1..]))
  }

  lemma HoldsMeansAtomic(s: State, c: Check, now: real, later: real, published: bool)
    requires Holds(s, c) && s.clock <= now <= later
    ensures Write(s, c, now, later, published) == Apply(s, ActionOf(c, now, later, published))
    ensures Legal(s, ActionOf(c, now, later, published))
  {
  }

  lemma StepIsSteps(sys: System, m: Move)
    requires ChecksHold(sys) && LegalMove(sys, m)
    requires m.End? && m.h in sys.handlers ==> !sys.handlers[m.h].disturbed
    ensures Step(sys, m).s == Run(sys.s, Steps(sys, m)) && LegalRun(sys.s, Steps(sys, m))
  {
    if m.End? && m.h in sys.handlers {
      HoldsMeansAtomic(sys.s, sys.handlers[m.h].check, m.now, m.later, m.published);
    }
    var steps := Steps(sys, m);
    if steps != [] {
      assert steps[1..] == [];
    }
  }

  /** Overlapping handlers that do not disturb each other are as good as atomic: what they do together is a legal
      run of the state machine, so everything proved about those runs holds of them. */
  lemma {:induction false} UndisturbedRunIsLegal(sys: System, moves: seq<Move>)
    requires ChecksHold(sys) && LegalMoves(sys, moves) && Undisturbed(sys, moves)
    ensures Play(sys, moves).s == Run(sys.s, AllSteps(sys, moves)) && LegalRun(sys.s, AllSteps(sys, moves))
    decreases |moves|
  {
    if moves != [] {
      var sys1 := Step(sys, moves[0]);
      StepIsSteps(sys, moves[0]);
      ChecksHoldStep(sys, moves[0]);
      UndisturbedRunIsLegal(sys1, moves[1..]);
      RunConcat(sys.s, Steps(sys, moves[0]), AllSteps(sys1, moves[1..]));
    }
  }

  lemma UndisturbedRunKeepsAll(s: State, moves: seq<Move>)
    requires Boot(s) && LegalMoves(System(s, map[]), moves) && Undisturbed(System(s, map[]), moves)
    ensures Inv(Play(System(s, map[]), moves).s)
  {
    BootInv(s);
    UndisturbedRunIsLegal(System(s, map[]), moves);
    InvRun(s, AllSteps(System(s, map[]), moves));
  }

  // ----- which writes break what the checks are for -----

  /** The write makes a request active under a name that has an active one already. */
  predicate Collides(s: State, c: Check)
    requires Exists(s, c)
  {
    && Blocked(s.rows, Username(s, c))
    && (c.Creating? || (Active(c.status) && !Active(s.rows[c.id].status)))
  }

  lemma WriteKeepsOneActiveIff(s: State, c: Check, now: real, later: real, published: bool)
    requires Exists(s, c) && OneActive(s.rows)
    ensures OneActive(Write(s, c, now, later, published).rows) <==> !Collides(s, c)
  {
    if c.Creating? {
      InsertKeepsOneActiveIff(s.rows, NewRequest(|s.rows|, c.username, c.age, c.gender, now));
    } else {
      var r := Patched(s.rows[c.id], c.status, if c.Deciding? then c.op else "admin", now, later);
      if Active(c.status) && !Active(s.rows[c.id].status) {
        RevivalKeepsOneActiveIff(s.rows, c.id, r);
      } else {
        OneActiveUpdate(s.rows, c.id, r);
      }
    }
  }

  /** A write that collides was disturbed: between its check and its write somebody touched a row of the name. */
  lemma CollisionMeansDisturbed(sys: System, h: nat)
    requires ChecksHold(sys) && h in sys.handlers && Collides(sys.s, sys.handlers[h].check)
    ensures sys.handlers[h].disturbed
  {
  }

  ghost predicate AlwaysOneActive(sys: System, moves: seq<Move>)
    decreases |moves|
  {
    OneActive(sys.s.rows) && (moves != [] ==> AlwaysOneActive(Step(sys, moves[0]), moves[1..]))
  }

  ghost predicate NoCollision(sys: System, moves: seq<Move>)
    decreases |moves|
  {
    moves == [] ||
    (&& (moves[0].End? && moves[0].h in sys.handlers && Exists(sys.s, sys.handlers[moves[0].h].check) ==>
           !Collides(sys.s, sys.handlers[moves[0].h].check))
     && NoCollision(Step(sys, moves[0]), moves[1..]))
  }

  lemma StepKeepsOneActiveIff(sys: System, m: Move)
    requires ChecksHold(sys) && LegalMove(sys, m) && OneActive(sys.s.rows)
    ensures OneActive(Step(sys, m).s.rows)
       <==> (m.End? && m.h in sys.handlers ==> !Collides(sys.s, sys.handlers[m.h].check))
  {
    match m
    case Begin(_, _) =>
    case End(h, now, later, published) =>
      if h in sys.handlers {
        WriteKeepsOneActiveIff(sys.s, sys.handlers[h].check, now, later, published);
      }
    case Other(a) =>
      OthersKeepNames(sys.s, a);
      SameStatusesKeepOneActive(sys.s.rows, Apply(sys.s, a).rows);
  }

  lemma SameStatusesKeepOneActive(rows: seq<Request>, rows': seq<Request>)
    requires OneActive(rows) && SameNames(rows, rows') && |rows'| == |rows|
    requires forall i :: 0 <= i < |rows| ==> rows'[i].status == rows[i].status
    ensures OneActive(rows')
  {
  }

  /** Over every legal schedule of overlapping handlers: there is one active request per name all along if and only
      if no write collides. */
  lemma {:induction false} AlwaysOneActiveIff(sys: System, moves: seq<Move>)
    requires ChecksHold(sys) && LegalMoves(sys, moves) && OneActive(sys.s.rows)
    ensures AlwaysOneActive(sys, moves) <==> NoCollision(sys, moves)
    decreases |moves|
  {
    if moves != [] {
      var m := moves[0];
      StepKeepsOneActiveIff(sys, m);
      ChecksHoldStep(sys, m);
      if OneActive(Step(sys, m).s.rows) {
        AlwaysOneActiveIff(Step(sys, m), moves[1..]);
      }
    }
  }

  // ----- which writes the counters cannot follow -----

  /** The write is a creation or a transition the dashboard offers, of the row as it stands then. */
  predicate InOrder(s: State, c: Check)
    requires Exists(s, c)
  {
    c.Creating? || LegalTransition(s.rows[c.id].status, c.status)
  }

  lemma WriteKeepsDriftLawIff(s: State, c: Check, now: real, later: real, published: bool)
    requires Exists(s, c) && DriftOk(s)
    ensures DriftOk(Write(s, c, now, later, published)) <==> InOrder(s, c)
  {
    match c
    case Creating(username, age, gender) => DriftOkInsert(s, username, age, gender, now, published);
    case Deciding(id, op, status) => PatchKeepsDriftLawIff(s, id, status, op, now, later, published);
    case Administering(id, status) => PatchKeepsDriftLawIff(s, id, status, "admin", now, later, published);
  }

  /** What a write records: the application as made, or who decided what and when. */
  lemma WriteIsOnRecord(s: State, c: Check, now: real, later: real, published: bool)
    requires Exists(s, c)
    ensures var rows := Write(s, c, now, later, published).rows;
            match c
            case Creating(username, age, gender) =>
              rows == s.rows + [Request(|s.rows|, username, age, gender, Pending, now, 0.0, 0.0, "", [])]
            case Deciding(id, op, status) =>
              rows == s.rows[id := rows[id]] && Transition(s.rows[id], rows[id], status, op, now, later)
            case Administering(id, status) =>
              rows == s.rows[id := rows[id]] && Transition(s.rows[id], rows[id], status, "admin", now, later)
  {
  }

  lemma WriteDelivers(s: State, c: Check, now: real, later: real, published: bool)
    requires Exists(s, c) && DeliveryOk(s)
    ensures DeliveryOk(Write(s, c, now, later, published))
  {
    if c.Creating? {
      var r := NewRequest(|s.rows|, c.username, c.age, c.gender, now);
      DeliveryOkPublish(s, s.(rows := s.rows + [r], clock := now), r.(timestamp := NO_TIME), published);
    } else {
      var r := Patched(s.rows[c.id], c.status, if c.Deciding? then c.op else "admin", now, later);
      DeliveryOkPublish(s, s.(rows := s.rows[c.id := r], clock := later), r, published);
    }
  }

  ghost predicate AlwaysReconcilable(sys: System, moves: seq<Move>)
    decreases |moves|
  {
    DriftOk(sys.s) && (moves != [] ==> AlwaysReconcilable(Step(sys, moves[0]), moves[1..]))
  }

  ghost predicate AllInOrder(sys: System, moves: seq<Move>)
    decreases |moves|
  {
    moves == [] ||
    (&& (moves[0].End? && moves[0].h in sys.handlers && Exists(sys.s, sys.handlers[moves[0].h].check) ==>
           InOrder(sys.s, sys.handlers[moves[0].h].check))
     && AllInOrder(Step(sys, moves[0]), moves[1..]))
  }

  lemma StepKeepsDriftLawIff(sys: System, m: Move)
    requires ChecksHold(sys) && LegalMove(sys, m) && DriftOk(sys.s) && DeliveryOk(sys.s)
    ensures DeliveryOk(Step(sys, m).s)
    ensures DriftOk(Step(sys, m).s) <==> (m.End? && m.h in sys.handlers ==> InOrder(sys.s, sys.handlers[m.h].check))
  {
    match m
    case Begin(_, _) =>
    case End(h, now, later, published) =>
      if h in sys.handlers {
        WriteKeepsDriftLawIff(sys.s, sys.handlers[h].check, now, later, published);
        WriteDelivers(sys.s, sys.handlers[h].check, now, later, published);
      }
    case Other(a) =>
      DriftOkStep(sys.s, a);
      DeliveryOkStep(sys.s, a);
  }

  /** Over every legal schedule of overlapping handlers: the drift law holds all along if and only if every write is
      a creation or a legal transition of the row as it stands at the write. */
  lemma {:induction false} AlwaysReconcilableIff(sys: System, moves: seq<Move>)
    requires ChecksHold(sys) && LegalMoves(sys, moves) && DriftOk(sys.s) && DeliveryOk(sys.s)
    ensures AlwaysReconcilable(sys, moves) <==> AllInOrder(sys, moves)
    decreases |moves|
  {
    if moves != [] {
      var m := moves[0];
      StepKeepsDriftLawIff(sys, m);
      ChecksHoldStep(sys, m);
      if DriftOk(Step(sys, m).s) {
        AlwaysReconcilableIff(Step(sys, m), moves[1..]);
      }
    }
  }
}
